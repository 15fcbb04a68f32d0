/**
 * `getAutolinks`: the references found in a commit message.  The plain-text
 * message pattern is written out as a scanner; `GetAutolinks` is the loop
 * over the reference sets, proved against `ScanRefSets`.
 */
module MessageScan {
  import opened Wrappers
  import opened JsText
  import opened Autolinks
  import OrderedMaps

  /** What `(\s|\(|\[|\{)` consumes in front of a reference. */
  predicate IsOpener(c: char) {
    IsJsSpace(c) || c == '(' || c == '[' || c == '{'
  }

  /**
   * The id of a reference may run from `r` to `e`: at least one id
   * character, all id characters, then the word boundary `\b`.
   */
  predicate IdSpan(s: string, r: nat, e: nat, alphanumeric: bool) {
    && r < e <= |s|
    && (forall k | r <= k < e :: IsIdChar(alphanumeric, s[k]))
    && (e == |s| || !IsWordChar(s[e]))
  }

  /**
   * `<prefix>(\d+|\w+)\b` at `q`: the end of the id when it matches.  The
   * result is the only end the pattern admits, so the greedy run needs no
   * backtracking.
   */
  function BodyAt(p: MessagePattern, s: string, q: nat): (e: Option<nat>)
    requires q <= |s|
    ensures e.Some? ==> LiteralAt(s, q, p.prefix, p.ignoreCase) && IdSpan(s, q + |p.prefix|, e.value, p.alphanumeric)
  {
    if !LiteralAt(s, q, p.prefix, p.ignoreCase) then None
    else
      var r := q + |p.prefix|;
      var e := IdRunEnd(s, r, p.alphanumeric);
      if r < e && (e == |s| || !IsWordChar(s[e])) then Some(e) else None
  }

  /**
   * The pattern admits exactly the end `BodyAt` finds: the greedy run of
   * `\d+` or `\w+` needs no backtracking, and a failure means no end works.
   */
  lemma BodyAtExact(p: MessagePattern, s: string, q: nat, e: nat)
    requires q <= |s|
    ensures BodyAt(p, s, q) == Some(e) <==>
      LiteralAt(s, q, p.prefix, p.ignoreCase) && IdSpan(s, q + |p.prefix|, e, p.alphanumeric)
  {
  }

  /** A match of the message pattern: where it starts (its delimiter included), the id, and where it ends. */
  datatype MessageMatch = MessageMatch(index: nat, id: string, end: nat)

  /**
   * The message pattern at position `i`: `^` is tried first, then one
   * delimiter character.
   */
  function MatchAt(p: MessagePattern, s: string, i: nat): (m: Option<MessageMatch>)
    requires i <= |s|
    ensures m.Some? ==> m.value.index == i && i < m.value.end <= |s|
  {
    if i == 0 && BodyAt(p, s, 0).Some? then
      var e := BodyAt(p, s, 0).value;
      Some(MessageMatch(0, s[|p.prefix|..e], e))
    else if i < |s| && IsOpener(s[i]) && BodyAt(p, s, i + 1).Some? then
      var e := BodyAt(p, s, i + 1).value;
      Some(MessageMatch(i, s[i + 1 + |p.prefix|..e], e))
    else None
  }

  /**
   * What a match consists of: at its index either the prefix itself (at the
   * start of the message) or one delimiter and then the prefix, exactly or up
   * to ASCII case as `ignoreCase` says; then the id, made of digits (or word
   * characters when `alphanumeric`), followed by a word boundary.
   */
  lemma MatchAtShape(p: MessagePattern, s: string, i: nat)
    requires i <= |s|
    ensures MatchAt(p, s, i).Some? ==>
      var m := MatchAt(p, s, i).value;
      var start := m.end - |m.id|;
      && start >= |p.prefix|
      && (start - |p.prefix| == i || (start - |p.prefix| == i + 1 && IsOpener(s[i])))
      && LiteralAt(s, start - |p.prefix|, p.prefix, p.ignoreCase)
      && IdSpan(s, start, m.end, p.alphanumeric)
      && m.id == s[start..m.end]
  {
  }

  /** No match starts in `[from, to)`. */
  predicate NoMatchIn(p: MessagePattern, s: string, from: nat, to: nat)
    requires from <= to <= |s| + 1
    decreases |s| + 1 - from
  {
    from == to || (MatchAt(p, s, from).None? && NoMatchIn(p, s, from + 1, to))
  }

  lemma {:induction false} NoMatchInMeans(p: MessagePattern, s: string, from: nat, to: nat)
    requires from <= to <= |s| + 1
    ensures NoMatchIn(p, s, from, to) <==> (forall i: nat | from <= i < to :: MatchAt(p, s, i).None?)
    decreases |s| + 1 - from
  {
    if from < to {
      NoMatchInMeans(p, s, from + 1, to);
    }
  }

  /** `regex.exec(s)` with `lastIndex == from`: the first match starting at or after `from`. */
  function ExecFrom(p: MessagePattern, s: string, from: nat): (m: Option<MessageMatch>)
    requires from <= |s|
    ensures m.Some? ==> from <= m.value.index <= |s| && MatchAt(p, s, m.value.index) == m
    ensures m.Some? ==> NoMatchIn(p, s, from, m.value.index)
    ensures m.None? ==> NoMatchIn(p, s, from, |s| + 1)
    decreases |s| - from
  {
    match MatchAt(p, s, from)
    case Some(m) => Some(m)
    case None => if from == |s| then None else ExecFrom(p, s, from + 1)
  }

  /**
   * The successive matches `exec` returns from `lastIndex == from` on: each
   * one is the first match at or after the end of the previous one.
   */
  function AllMatches(p: MessagePattern, s: string, from: nat): (ms: seq<MessageMatch>)
    requires from <= |s|
    ensures forall k | 0 <= k < |ms| :: from <= ms[k].index <= |s| && MatchAt(p, s, ms[k].index) == Some(ms[k])
    ensures |ms| == 0 <==> ExecFrom(p, s, from).None?
    decreases |s| - from
  {
    match ExecFrom(p, s, from)
    case None => []
    case Some(m) => [m] + AllMatches(p, s, m.end)
  }

  // ------------------------------------------------------------ the scan

  /** The autolink `getAutolinks` stores for one match of a cacheable reference. */
  function MessageLink(provider: Option<ProviderReference>, ref: Reference, m: MessageMatch): (l: Autolink)
    requires IsCacheable(ref)
    ensures l.id == m.id && l.index == Some(m.index as int)
    ensures l.priority.None? && l.referenceType.None?
  {
    Autolink(
      provider := provider,
      id := m.id,
      index := Some(m.index as int),
      prefix := ref.prefix.value,
      url := Replace(ref.url.value, m.id),
      alphanumeric := ref.alphanumeric,
      ignoreCase := ref.ignoreCase,
      title := ReplaceIn(ref.title, m.id),
      linkType := ref.linkType,
      referenceType := None,
      description := ReplaceIn(ref.description, m.id),
      descriptor := ref.descriptor,
      priority := None)
  }

  /**
   * `autolinks.set(num, …)` for each match in turn.  A `Map` keeps the place
   * of a key it already holds, so the keys already there stay in order and
   * new ones follow; every match's id ends up a key.
   */
  function SetMatches(links: LinkMap, provider: Option<ProviderReference>, ref: Reference, ms: seq<MessageMatch>): (r: LinkMap)
    requires IsCacheable(ref)
    ensures OrderedMaps.Keys(links) <= OrderedMaps.Keys(r)
    ensures forall j | 0 <= j < |ms| :: OrderedMaps.Get(r, ms[j].id).Some?
    decreases |ms|
  {
    if |ms| == 0 then links
    else SetMatches(OrderedMaps.Set(links, ms[0].id, MessageLink(provider, ref, ms[0])), provider, ref, ms[1..])
  }

  /** The references whose message pattern is run: cacheable, and for commits if restricted at all. */
  predicate ScansMessage(ref: Reference) {
    IsCacheable(ref) && !(ref.referenceType.Some? && ref.referenceType.value != Commit)
  }

  /**
   * What one reference does to the map.  Only a reference's own `parse`
   * can do more than add links: without one the keys already there keep
   * their order.
   */
  function ScanRef(message: string, provider: Option<ProviderReference>, ref: Reference, links: LinkMap): (r: LinkMap)
    ensures !IsDynamic(ref) ==> OrderedMaps.Keys(links) <= OrderedMaps.Keys(r)
  {
    if !ScansMessage(ref) then
      if IsDynamic(ref) && ref.parse.Some? then ref.parse.value(message, links) else links
    else SetMatches(links, provider, ref, AllMatches(MessagePatternOf(ref), message, 0))
  }

  function ScanRefs(message: string, provider: Option<ProviderReference>, refs: seq<Reference>, links: LinkMap): (r: LinkMap)
    ensures (forall j | 0 <= j < |refs| :: !IsDynamic(refs[j])) ==> OrderedMaps.Keys(links) <= OrderedMaps.Keys(r)
    decreases |refs|
  {
    if |refs| == 0 then links
    else ScanRefs(message, provider, refs[1..], ScanRef(message, provider, refs[0], links))
  }

  function ScanRefSets(message: string, refsets: seq<RefSet>, links: LinkMap): (r: LinkMap)
    ensures (forall i, j | 0 <= i < |refsets| && 0 <= j < |refsets[i].refs| :: !IsDynamic(refsets[i].refs[j]))
      ==> OrderedMaps.Keys(links) <= OrderedMaps.Keys(r)
    decreases |refsets|
  {
    if |refsets| == 0 then links
    else ScanRefSets(message, refsets[1..], ScanRefs(message, refsets[0].provider, refsets[0].refs, links))
  }

  /** The references the scan can work with: valid caches, and a parser on every dynamic one. */
  ghost predicate ScannableRefs(refsets: seq<RefSet>)
    reads RefsOf(refsets)
  {
    forall r | r in RefsOf(refsets) :: r.Valid() && (IsDynamic(r) ==> r.parse.Some?)
  }

  /** `getAutolinks(message, refsets)` */
  method GetAutolinks(message: string, refsets: seq<RefSet>) returns (autolinks: LinkMap)
    requires ScannableRefs(refsets)
    modifies RefsOf(refsets)
    ensures autolinks == ScanRefSets(message, refsets, OrderedMaps.Empty())
    ensures ScannableRefs(refsets)
  {
    autolinks := OrderedMaps.Empty();
    for i := 0 to |refsets|
      invariant ScanRefSets(message, refsets[i..], autolinks) == ScanRefSets(message, refsets, OrderedMaps.Empty())
      invariant ScannableRefs(refsets)
    {
      assert refsets[i..][1..] == refsets[i + 1..];
      assert ScannableRefs([refsets[i]]) && RefsOf([refsets[i]]) <= RefsOf(refsets);
      autolinks := ScanProviderRefs(message, refsets[i].provider, refsets[i].refs, autolinks);
    }
  }

  /** The inner loop of `getAutolinks`: the references of one provider, in order. */
  method ScanProviderRefs(message: string, provider: Option<ProviderReference>, refs: seq<Reference>, links: LinkMap)
    returns (autolinks: LinkMap)
    requires forall r | r in refs :: r.Valid() && (IsDynamic(r) ==> r.parse.Some?)
    modifies set r | r in refs
    ensures autolinks == ScanRefs(message, provider, refs, links)
    ensures forall r | r in refs :: r.Valid()
  {
    autolinks := links;
    for j := 0 to |refs|
      invariant ScanRefs(message, provider, refs[j..], autolinks) == ScanRefs(message, provider, refs, links)
      invariant forall r | r in refs :: r.Valid()
    {
      var ref := refs[j];
      assert refs[j..][1..] == refs[j + 1..];
      if !IsCacheable(ref) || (ref.referenceType.Some? && ref.referenceType.value != Commit) {
        if IsDynamic(ref) {
          autolinks := ref.parse.value(message, autolinks);
        }
        continue;
      }
      EnsureCachedRegex(ref);
      autolinks := SetAllMatches(message, provider, ref, autolinks);
    }
  }

  /**
   * The `do … while (true)` loop of `getAutolinks` for one cacheable
   * reference: `exec` from a local `lastIndex` until it fails, storing each
   * match under its number.  (The loop only stops when `exec` fails, and a
   * failing `exec` resets the pattern's `lastIndex` to 0, so every scan
   * starts from 0.)
   */
  method SetAllMatches(message: string, provider: Option<ProviderReference>, ref: Reference, links: LinkMap)
    returns (autolinks: LinkMap)
    requires IsCacheable(ref) && ref.messageRegex == Some(MessagePatternOf(ref))
    ensures autolinks == SetMatches(links, provider, ref, AllMatches(MessagePatternOf(ref), message, 0))
  {
    var regex := ref.messageRegex.value;
    autolinks := links;
    var lastIndex := 0;
    while true
      invariant lastIndex <= |message|
      invariant SetMatches(autolinks, provider, ref, AllMatches(regex, message, lastIndex))
        == SetMatches(links, provider, ref, AllMatches(regex, message, 0))
      decreases |message| - lastIndex
    {
      var found := ExecFrom(regex, message, lastIndex);
      if found.None? {
        break;
      }
      var num := found.value.id;
      autolinks := OrderedMaps.Set(autolinks, num, MessageLink(provider, ref, found.value));
      lastIndex := found.value.end;
    }
  }

  // ------------------------------------------------------------ properties

  /** The last match in `ms` for the number `k`. */
  function LastWithId(ms: seq<MessageMatch>, k: string): (r: Option<MessageMatch>)
    ensures r.None? <==> forall i | 0 <= i < |ms| :: ms[i].id != k
    ensures r.Some? ==> exists i | 0 <= i < |ms| ::
      (ms[i] == r.value && r.value.id == k && forall j | i < j < |ms| :: ms[j].id != k)
    decreases |ms|
  {
    if |ms| == 0 then None
    else
      var rest := LastWithId(ms[1..], k);
      assert forall i | 0 < i < |ms| :: ms[i] == ms[1..][i - 1];
      if rest.Some? then
        assert exists i | 1 <= i < |ms| :: ms[i] == rest.value && forall j | i < j < |ms| :: ms[j].id != k by {
          var i' :| 0 <= i' < |ms[1..]| && ms[1..][i'] == rest.value && forall j | i' < j < |ms[1..]| :: ms[1..][j].id != k;
          assert ms[i' + 1] == rest.value;
        }
        rest
      else if ms[0].id == k then Some(ms[0])
      else None
  }

  /**
   * Each number ends up stored once: under its own key, with the autolink of
   * its last match; keys no match produced keep what they had.
   */
  lemma {:induction false} SetMatchesGet(links: LinkMap, provider: Option<ProviderReference>, ref: Reference, ms: seq<MessageMatch>, k: string)
    requires IsCacheable(ref)
    ensures OrderedMaps.Get(SetMatches(links, provider, ref, ms), k) ==
      match LastWithId(ms, k)
      case Some(m) => Some(MessageLink(provider, ref, m))
      case None => OrderedMaps.Get(links, k)
    decreases |ms|
  {
    if |ms| > 0 {
      SetMatchesGet(OrderedMaps.Set(links, ms[0].id, MessageLink(provider, ref, ms[0])), provider, ref, ms[1..], k);
    }
  }

  /** Every entry is stored under its own id. */
  ghost predicate KeyedById(links: LinkMap) {
    forall k :: OrderedMaps.Get(links, k).Some? ==> OrderedMaps.Get(links, k).value.id == k
  }

  /** The dynamic references of the sets keep entries under their ids. */
  ghost predicate ParsersKeyById(message: string, refsets: seq<RefSet>) {
    forall s, r, links | s in refsets && r in s.refs && r.parse.Some? && KeyedById(links) ::
      KeyedById(r.parse.value(message, links))
  }

  lemma {:induction false} SetMatchesKeyedById(links: LinkMap, provider: Option<ProviderReference>, ref: Reference, ms: seq<MessageMatch>)
    requires IsCacheable(ref) && KeyedById(links)
    ensures KeyedById(SetMatches(links, provider, ref, ms))
    decreases |ms|
  {
    if |ms| > 0 {
      var next := OrderedMaps.Set(links, ms[0].id, MessageLink(provider, ref, ms[0]));
      assert KeyedById(next) by {
        forall k | OrderedMaps.Get(next, k).Some? ensures OrderedMaps.Get(next, k).value.id == k {
          if k != ms[0].id {
            assert OrderedMaps.Get(next, k) == OrderedMaps.Get(links, k);
          }
        }
      }
      SetMatchesKeyedById(next, provider, ref, ms[1..]);
    }
  }

  /**
   * `getAutolinks` keys every autolink by its own number, provided the
   * dynamic references do the same.
   */
  lemma {:induction false} ScanKeyedById(message: string, refsets: seq<RefSet>, links: LinkMap)
    requires KeyedById(links) && ParsersKeyById(message, refsets)
    ensures KeyedById(ScanRefSets(message, refsets, links))
    decreases |refsets|
  {
    if |refsets| > 0 {
      var s := refsets[0];
      ScanRefsKeyedById(message, s, s.refs, links, refsets);
      assert ParsersKeyById(message, refsets[1..]) by {
        forall t, r, m | t in refsets[1..] && r in t.refs && r.parse.Some? && KeyedById(m)
          ensures KeyedById(r.parse.value(message, m))
        {
          assert t in refsets;
        }
      }
      ScanKeyedById(message, refsets[1..], ScanRefs(message, s.provider, s.refs, links));
    }
  }

  lemma {:induction false} ScanRefsKeyedById(message: string, s: RefSet, refs: seq<Reference>, links: LinkMap, refsets: seq<RefSet>)
    requires s in refsets && forall r | r in refs :: r in s.refs
    requires KeyedById(links) && ParsersKeyById(message, refsets)
    ensures KeyedById(ScanRefs(message, s.provider, refs, links))
    decreases |refs|
  {
    if |refs| > 0 {
      var ref := refs[0];
      if ScansMessage(ref) {
        SetMatchesKeyedById(links, s.provider, ref, AllMatches(MessagePatternOf(ref), message, 0));
      }
      ScanRefsKeyedById(message, s, refs[1..], ScanRef(message, s.provider, ref, links), refsets);
    }
  }

  /** The references a message scan can act on: the scanned and the dynamic ones. */
  function ActingRefs(refs: seq<Reference>): (r: seq<Reference>)
    ensures forall x | x in r :: x in refs && (ScansMessage(x) || IsDynamic(x))
    ensures forall x | x in refs && (ScansMessage(x) || IsDynamic(x)) :: x in r
    decreases |refs|
  {
    if |refs| == 0 then []
    else if ScansMessage(refs[0]) || IsDynamic(refs[0]) then [refs[0]] + ActingRefs(refs[1..])
    else
      assert forall x | x in refs[1..] :: x in refs;
      ActingRefs(refs[1..])
  }

  /**
   * References that are neither cacheable-for-commits nor dynamic (a null
   * prefix, a `branch`-only reference) leave the map as it was.
   */
  lemma {:induction false} IgnoredRefsChangeNothing(message: string, provider: Option<ProviderReference>, refs: seq<Reference>, links: LinkMap)
    ensures ScanRefs(message, provider, refs, links) == ScanRefs(message, provider, ActingRefs(refs), links)
    decreases |refs|
  {
    if |refs| > 0 {
      IgnoredRefsChangeNothing(message, provider, refs[1..], ScanRef(message, provider, refs[0], links));
      if !(ScansMessage(refs[0]) || IsDynamic(refs[0])) {
        assert ScanRef(message, provider, refs[0], links) == links;
        IgnoredRefsChangeNothing(message, provider, refs[1..], links);
      }
    }
  }

  /** Message autolinks carry neither a ranking string nor a reference type, so serialising keeps them whole. */
  lemma MessageLinkSerializesWhole(provider: Option<ProviderReference>, ref: Reference, m: MessageMatch)
    requires IsCacheable(ref)
    ensures SerializeAutolink(MessageLink(provider, ref, m)) == MessageLink(provider, ref, m)
  {
  }

  /**
   * The URL, title and description of a message autolink keep no `<num>`
   * when the id has none of the placeholder's characters.
   */
  lemma MessageLinkFilled(provider: Option<ProviderReference>, ref: Reference, m: MessageMatch)
    requires IsCacheable(ref)
    requires |m.id| > 0 && forall k | 0 <= k < |m.id| :: !IsPlaceholderChar(m.id[k])
    ensures var l := MessageLink(provider, ref, m);
      && PlaceholderFree(l.url)
      && (l.title.Some? ==> PlaceholderFree(l.title.value))
      && (l.description.Some? ==> PlaceholderFree(l.description.value))
  {
    ReplaceLeavesNoPlaceholder(ref.url.value, m.id);
    if ref.title.Some? {
      ReplaceLeavesNoPlaceholder(ref.title.value, m.id);
    }
    if ref.description.Some? {
      ReplaceLeavesNoPlaceholder(ref.description.value, m.id);
    }
  }

  /**
   * A reference that takes numbers only always fills its links: every id
   * the message pattern captures is a non-empty run of digits.
   */
  lemma NumberLinkFilled(provider: Option<ProviderReference>, ref: Reference, s: string, i: nat)
    requires IsCacheable(ref) && !ref.alphanumeric && i <= |s|
    requires MatchAt(MessagePatternOf(ref), s, i).Some?
    ensures var l := MessageLink(provider, ref, MatchAt(MessagePatternOf(ref), s, i).value);
      && PlaceholderFree(l.url)
      && (l.title.Some? ==> PlaceholderFree(l.title.value))
      && (l.description.Some? ==> PlaceholderFree(l.description.value))
  {
    var m := MatchAt(MessagePatternOf(ref), s, i).value;
    MatchAtShape(MessagePatternOf(ref), s, i);
    var start := m.end - |m.id|;
    assert forall k | 0 <= k < |m.id| :: m.id[k] == s[start + k] && IsDigit(s[start + k]);
    MessageLinkFilled(provider, ref, m);
  }

  const RepeatedNumber: string := "Fixes #1234 and #1234"

  lemma RepeatedNumberMisses(i: nat)
    requires i < 5 || 11 <= i < 15 || i == 21
    ensures MatchAt(MessagePattern("#", false, false), RepeatedNumber, i).None?
  {
    var p, msg := MessagePattern("#", false, false), RepeatedNumber;
    if i == 11 {
      assert msg[12..13][0] == msg[12] == 'a';
    } else if i == 0 {
      assert msg[0..1][0] == msg[0] == 'F';
    }
  }

  lemma RepeatedNumberHits()
    ensures MatchAt(MessagePattern("#", false, false), RepeatedNumber, 5) == Some(MessageMatch(5, "1234", 11))
    ensures MatchAt(MessagePattern("#", false, false), RepeatedNumber, 15) == Some(MessageMatch(15, "1234", 21))
  {
    var p, msg := MessagePattern("#", false, false), RepeatedNumber;
    assert msg[6..7] == "#" && msg[7..11] == "1234" && msg[16..17] == "#" && msg[17..21] == "1234";
    assert IdRunEnd(msg, 11, false) == 11;
    assert IdRunEnd(msg, 9, false) == 11;
    assert IdRunEnd(msg, 7, false) == 11;
    assert BodyAt(p, msg, 6) == Some(11);
    assert IdRunEnd(msg, 19, false) == 21;
    assert IdRunEnd(msg, 17, false) == 21;
    assert BodyAt(p, msg, 16) == Some(21);
  }

  lemma RepeatedNumberMatches()
    ensures AllMatches(MessagePattern("#", false, false), RepeatedNumber, 0)
      == [MessageMatch(5, "1234", 11), MessageMatch(15, "1234", 21)]
  {
    var p, msg := MessagePattern("#", false, false), RepeatedNumber;
    var first, second := MessageMatch(5, "1234", 11), MessageMatch(15, "1234", 21);
    RepeatedNumberHits();
    RepeatedNumberMisses(21);
    assert ExecFrom(p, msg, 21).None?;
    RepeatedNumberMisses(14);
    RepeatedNumberMisses(13);
    assert ExecFrom(p, msg, 13) == Some(second);
    RepeatedNumberMisses(12);
    RepeatedNumberMisses(11);
    assert ExecFrom(p, msg, 11) == Some(second);
    RepeatedNumberMisses(4);
    RepeatedNumberMisses(3);
    assert ExecFrom(p, msg, 3) == Some(first);
    RepeatedNumberMisses(2);
    RepeatedNumberMisses(1);
    assert ExecFrom(p, msg, 1) == Some(first);
    RepeatedNumberMisses(0);
    assert ExecFrom(p, msg, 0) == Some(first);
    assert AllMatches(p, msg, 11) == [second];
  }

  /**
   * `Fixes #1234 and #1234`: both occurrences match (the index is that of
   * the space in front), and the number is stored once, with the second
   * occurrence's index.
   */
  lemma RepeatedNumberStoredOnce(provider: Option<ProviderReference>, ref: Reference)
    requires IsCacheable(ref) && ref.prefix.value == "#" && !ref.alphanumeric && !ref.ignoreCase
    ensures SetMatches(OrderedMaps.Empty(), provider, ref, AllMatches(MessagePatternOf(ref), RepeatedNumber, 0)).entries
      == [("1234", MessageLink(provider, ref, MessageMatch(15, "1234", 21)))]
  {
    var first, second := MessageMatch(5, "1234", 11), MessageMatch(15, "1234", 21);
    RepeatedNumberMatches();
    var once := OrderedMaps.Set(OrderedMaps.Empty(), "1234", MessageLink(provider, ref, first));
    assert once.entries == [("1234", MessageLink(provider, ref, first))];
    assert [first, second][1..] == [second];
    assert SetMatches(OrderedMaps.Empty(), provider, ref, [first, second])
      == SetMatches(OrderedMaps.Set(once, "1234", MessageLink(provider, ref, second)), provider, ref, []);
  }

  /** The prefix is compared without regard to case exactly when `ignoreCase` is set: `gh-12` against the prefix `GH-`. */
  lemma PrefixCaseFollowsIgnoreCase()
    ensures MatchAt(MessagePattern("GH-", false, true), "gh-12", 0) == Some(MessageMatch(0, "12", 5))
    ensures MatchAt(MessagePattern("GH-", false, false), "gh-12", 0).None?
  {
    var msg := "gh-12";
    assert msg[0..3][0] == 'g' && "GH-"[0] == 'G';
    assert SameIgnoringCase(msg[0..3], "GH-");
    assert IdRunEnd(msg, 5, false) == 5;
    assert IdRunEnd(msg, 3, false) == 5;
    assert BodyAt(MessagePattern("GH-", false, true), msg, 0) == Some(5);
    assert msg[3..5] == "12";
  }
}
