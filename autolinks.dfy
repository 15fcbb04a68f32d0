/**
 * Autolink references and autolinks: the entities the message and branch
 * scanners work on, the classification of references, the matcher cache a
 * reference carries, and the serialised form of an autolink.
 */
module Autolinks {
  import opened Wrappers
  import opened JsText
  import OrderedMaps

  /** `AutolinkType` */
  datatype AutolinkType = Issue | PullRequest

  /** `AutolinkReferenceType` */
  datatype ReferenceType = Commit | Branch

  /** The remote provider a set of references belongs to. */
  datatype ProviderReference = ProviderReference(id: string, name: string, domain: string, icon: string)

  /** The integration's resource descriptor, carried along unchanged. */
  datatype Descriptor = Descriptor(key: string)

  /** A UTF-16 code unit. */
  type CodeUnit = x: int | 0 <= x < 0x1_0000

  /**
   * An `Autolink`.  `linkType` is the `type` property; `priority` is the
   * ranking string of a branch autolink, as its code units.
   */
  datatype Autolink = Autolink(
    provider: Option<ProviderReference>,
    id: string,
    index: Option<int>,
    prefix: string,
    url: string,
    alphanumeric: bool,
    ignoreCase: bool,
    title: Option<string>,
    linkType: Option<AutolinkType>,
    referenceType: Option<ReferenceType>,
    description: Option<string>,
    descriptor: Option<Descriptor>,
    priority: Option<seq<CodeUnit>>)

  /** The `Map<string, Autolink>` the scanners fill. */
  type LinkMap = OrderedMaps.Map<string, Autolink>

  /**
   * The plain-text message pattern
   * `(^|\s|\(|\[|\{)(<prefix>(\d+|\w+))\b` with flags `g` or `gi`.
   */
  datatype MessagePattern = MessagePattern(prefix: string, alphanumeric: bool, ignoreCase: bool)

  /**
   * The branch-name pattern: the fixed pattern for references without prefix
   * that only take numbers, or `(^|-|_|\.|\/)<prefix>(\d+|\w+)(?=$|-|_|\.|\/)`,
   * both with flags `gi`.
   */
  datatype BranchPattern = NonPrefixed | Prefixed(prefix: string, alphanumeric: bool)

  /**
   * An autolink reference (`AutolinkReference`, `CacheableAutolinkReference`
   * or `DynamicAutolinkReference`).  `linkType` is the `type` property;
   * `parse` is the dynamic reference's routine that adds what it finds in a
   * text to the map.  The two matcher slots are the cache that
   * `EnsureCachedRegex` fills.
   */
  class Reference {
    const prefix: Slot<string>
    const url: Slot<string>
    const alphanumeric: bool
    const ignoreCase: bool
    const title: Option<string>
    const linkType: Option<AutolinkType>
    const referenceType: Option<ReferenceType>
    const description: Option<string>
    const descriptor: Option<Descriptor>
    const parse: Option<(string, LinkMap) -> LinkMap>
    var messageRegex: Option<MessagePattern>
    var branchNameRegex: Option<BranchPattern>

    /** The matchers are built together and always from the reference's own settings. */
    ghost predicate Valid()
      reads this
    {
      && messageRegex.Some? == branchNameRegex.Some?
      && (messageRegex.Some? ==>
            && IsCacheable(this)
            && messageRegex.value == MessagePatternOf(this)
            && branchNameRegex.value == BranchPatternOf(this))
    }

    constructor(
      prefix: Slot<string>, url: Slot<string>, alphanumeric: bool, ignoreCase: bool,
      title: Option<string>, linkType: Option<AutolinkType>, referenceType: Option<ReferenceType>,
      description: Option<string>, descriptor: Option<Descriptor>,
      parse: Option<(string, LinkMap) -> LinkMap>)
      ensures this.prefix == prefix && this.url == url
      ensures this.alphanumeric == alphanumeric && this.ignoreCase == ignoreCase
      ensures this.title == title && this.linkType == linkType && this.referenceType == referenceType
      ensures this.description == description && this.descriptor == descriptor && this.parse == parse
      ensures messageRegex.None? && branchNameRegex.None?
      ensures Valid()
    {
      this.prefix := prefix;
      this.url := url;
      this.alphanumeric := alphanumeric;
      this.ignoreCase := ignoreCase;
      this.title := title;
      this.linkType := linkType;
      this.referenceType := referenceType;
      this.description := description;
      this.descriptor := descriptor;
      this.parse := parse;
      messageRegex := None;
      branchNameRegex := None;
    }
  }

  /** A `RefSet`: the references of one provider. */
  datatype RefSet = RefSet(provider: Option<ProviderReference>, refs: seq<Reference>)

  /** Every reference of the sets. */
  ghost function RefsOf(refsets: seq<RefSet>): set<Reference> {
    set s, r | s in refsets && r in s.refs :: r
  }

  /**
   * `isDynamic`: neither a `prefix` nor a `url` property.  A property set to
   * `null` or `undefined` is still a property, so it keeps the reference
   * from being dynamic.
   */
  predicate IsDynamic(ref: Reference): (b: bool)
    ensures ref.prefix.Absent? && ref.url.Absent? ==> b
    ensures !ref.prefix.Absent? || !ref.url.Absent? ==> !b
  {
    ref.prefix.Absent? && ref.url.Absent?
  }

  /**
   * `isCacheable`: both `prefix` and `url` are present and not null; a
   * missing or nullish one of the two leaves the reference uncacheable.
   */
  predicate IsCacheable(ref: Reference): (b: bool)
    ensures ref.prefix.Given? && ref.url.Given? ==> b
    ensures !ref.prefix.Given? || !ref.url.Given? ==> !b
    ensures b ==> !IsDynamic(ref)
  {
    ref.prefix.Given? && ref.url.Given?
  }

  /**
   * No reference is both dynamic and cacheable; a reference with exactly one
   * of the two properties, or one of them null, is neither.
   */
  lemma DynamicAndCacheableExclusive(ref: Reference)
    ensures !(IsDynamic(ref) && IsCacheable(ref))
    ensures ref.prefix.Given? != ref.url.Given? ==> !IsDynamic(ref) && !IsCacheable(ref)
  {
  }

  /** References without prefix that only take numbers get the chunked branch scan. */
  predicate IsNonPrefixed(ref: Reference)
    requires IsCacheable(ref)
  {
    ref.prefix.value == "" && !ref.alphanumeric
  }

  /**
   * The plain-text message pattern of a reference: its own prefix, `\w` or
   * `\d` ids as `alphanumeric` says, and the `i` flag exactly when
   * `ignoreCase` holds.  Unlike the branch pattern, it follows `ignoreCase`.
   */
  function MessagePatternOf(ref: Reference): (p: MessagePattern)
    requires IsCacheable(ref)
    ensures p.prefix == ref.prefix.value && p.alphanumeric == ref.alphanumeric
    ensures p.ignoreCase <==> ref.ignoreCase
  {
    MessagePattern(ref.prefix.value, ref.alphanumeric, ref.ignoreCase)
  }

  /**
   * The branch pattern of a reference.  It never depends on `ignoreCase`:
   * branch names are always matched without regard to case.
   */
  function BranchPatternOf(ref: Reference): (p: BranchPattern)
    requires IsCacheable(ref)
    ensures p.NonPrefixed? <==> IsNonPrefixed(ref)
    ensures p.Prefixed? ==> p.prefix == ref.prefix.value && p.alphanumeric == ref.alphanumeric
  {
    if ref.prefix.value == "" && !ref.alphanumeric then NonPrefixed
    else Prefixed(ref.prefix.value, ref.alphanumeric)
  }

  /**
   * `ensureCachedRegex(ref, 'plaintext')`: builds the message and branch
   * matchers the first time, and keeps them afterwards.
   */
  method EnsureCachedRegex(ref: Reference)
    requires IsCacheable(ref) && ref.Valid()
    modifies ref
    ensures ref.Valid()
    ensures ref.messageRegex == Some(MessagePatternOf(ref))
    ensures ref.branchNameRegex == Some(BranchPatternOf(ref))
    ensures old(ref.messageRegex).Some? ==> unchanged(ref)
  {
    if ref.messageRegex.None? {
      ref.messageRegex := Some(MessagePattern(ref.prefix.value, ref.alphanumeric, ref.ignoreCase));
      if ref.prefix.value == "" && !ref.alphanumeric {
        ref.branchNameRegex := Some(NonPrefixed);
      } else {
        ref.branchNameRegex := Some(Prefixed(ref.prefix.value, ref.alphanumeric));
      }
    }
  }

  /** `text?.replace(numRegex, id)` */
  function ReplaceIn(text: Option<string>, id: string): (r: Option<string>)
    ensures r.Some? <==> text.Some?
  {
    match text
    case None => None
    case Some(t) => Some(Replace(t, id))
  }

  /**
   * `serializeAutolink`: copies the autolink field by field, leaving out the
   * ranking string and the reference type.
   */
  function SerializeAutolink(value: Autolink): (r: Autolink)
    ensures r == value.(priority := None, referenceType := None)
  {
    Autolink(
      provider := match value.provider
        case Some(p) => Some(ProviderReference(p.id, p.name, p.domain, p.icon))
        case None => None,
      id := value.id,
      index := value.index,
      prefix := value.prefix,
      url := value.url,
      alphanumeric := value.alphanumeric,
      ignoreCase := value.ignoreCase,
      title := value.title,
      linkType := value.linkType,
      referenceType := None,
      description := value.description,
      descriptor := value.descriptor,
      priority := None)
  }

  /** Serialising a serialised autolink changes nothing. */
  lemma SerializeIdempotent(value: Autolink)
    ensures SerializeAutolink(SerializeAutolink(value)) == SerializeAutolink(value)
  {
  }
}
