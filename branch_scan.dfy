/**
 * `getBranchAutolinks`: the references found in a branch name.  The
 * specification functions follow the source's own passes (chunks, the
 * matches of each scanned chunk, the queued title passes, the final sort);
 * the methods are the loops, proved against them.
 */
module BranchScan {
  import opened Wrappers
  import opened JsText
  import opened Autolinks
  import opened BranchMatching
  import opened BranchPriority
  import opened AutolinkRanking
  import OrderedMaps
  import Comparators

  /** The references the branch scan runs: cacheable, not for pull requests, and for branches if restricted at all. */
  predicate ScansBranch(ref: Reference) {
    && IsCacheable(ref)
    && ref.linkType != Some(PullRequest)
    && !(ref.referenceType.Some? && ref.referenceType.value != Branch)
  }

  /** `ref.title` is truthy. */
  predicate HasTitle(ref: Reference) {
    ref.title.Some? && |ref.title.value| > 0
  }

  /** The whole name, or its `/`-separated chunks for a reference without prefix that takes numbers. */
  function ChunksOf(ref: Reference, branchName: string): (chunks: seq<string>)
    requires IsCacheable(ref)
    ensures IsNonPrefixed(ref) ==> Join(chunks, '/') == branchName && forall i | 0 <= i < |chunks| :: '/' !in chunks[i]
    ensures !IsNonPrefixed(ref) ==> chunks == [branchName]
  {
    if IsNonPrefixed(ref) then
      SplitJoin(branchName, '/');
      Split(branchName, '/')
    else [branchName]
  }

  // --------------------------------------------------------------- chunks

  /** The skip flag when chunk `i` comes up: set by a bare release, kept by a numbered one, cleared by any other chunk. */
  ghost function SkipBefore(chunks: seq<string>, i: nat): bool
    requires i <= |chunks|
  {
    if i == 0 then false
    else if IsBareRelease(chunks[i - 1]) then true
    else if IsRelease(chunks[i - 1]) then SkipBefore(chunks, i - 1)
    else false
  }

  /** Chunk `i` is run through the branch pattern: it is no release and is not skipped. */
  ghost predicate Scanned(chunks: seq<string>, i: nat)
    requires i < |chunks|
  {
    !IsRelease(chunks[i]) && !SkipBefore(chunks, i)
  }

  /** How many of the first `i` chunks are scanned. */
  ghost function CountScanned(chunks: seq<string>, i: nat): nat
    requires i <= |chunks|
  {
    if i == 0 then 0 else CountScanned(chunks, i - 1) + (if Scanned(chunks, i - 1) then 1 else 0)
  }

  /** A skip in force goes back to a bare release followed only by releases. */
  lemma {:induction false} SkipBeforeWitness(chunks: seq<string>, i: nat) returns (k: nat)
    requires i <= |chunks| && SkipBefore(chunks, i)
    ensures k < i && IsBareRelease(chunks[k]) && forall j | k < j < i :: IsRelease(chunks[j])
  {
    if IsBareRelease(chunks[i - 1]) {
      k := i - 1;
    } else {
      k := SkipBeforeWitness(chunks, i - 1);
    }
  }

  /** A bare release followed only by releases leaves the skip in force. */
  lemma {:induction false} SkipBeforeFromWitness(chunks: seq<string>, i: nat, k: nat)
    requires k < i <= |chunks| && IsBareRelease(chunks[k])
    requires forall j | k < j < i :: IsRelease(chunks[j])
    ensures SkipBefore(chunks, i)
  {
    if k < i - 1 {
      assert IsRelease(chunks[i - 1]);
      SkipBeforeFromWitness(chunks, i - 1, k);
    }
  }

  /**
   * A chunk is skipped exactly when some earlier chunk is a bare release and
   * every chunk between the two is a release: a run of releases passes the
   * skip on, and the first other chunk uses it up.
   */
  lemma SkipBeforeMeans(chunks: seq<string>, i: nat)
    requires i <= |chunks|
    ensures SkipBefore(chunks, i) <==>
      exists k | 0 <= k < i :: IsBareRelease(chunks[k]) && forall j | k < j < i :: IsRelease(chunks[j])
  {
    if SkipBefore(chunks, i) {
      var k := SkipBeforeWitness(chunks, i);
    }
    forall k | 0 <= k < i && IsBareRelease(chunks[k]) && (forall j | k < j < i :: IsRelease(chunks[j]))
      ensures SkipBefore(chunks, i)
    {
      SkipBeforeFromWitness(chunks, i, k);
    }
  }

  /** The state the `flatMap` callback and the match loop share while the chunks are walked. */
  datatype ChunkWalk = ChunkWalk(links: LinkMap, skip: bool, chunkIndex: nat, queued: nat)

  /** `ref.title` is queued once per match when the reference has no prefix and a title. */
  function Queued(ref: Reference, matches: nat): nat
    requires IsCacheable(ref)
  {
    if IsNonPrefixed(ref) && HasTitle(ref) then matches else 0
  }

  // -------------------------------------------------------------- matches

  /** The issue keys of the pattern without prefix are numbers. */
  predicate KeysAreNumbers(ref: Reference, ms: seq<BranchMatch>)
    requires IsCacheable(ref)
  {
    IsNonPrefixed(ref) ==> forall k | 0 <= k < |ms| :: AllDigits(ms[k].issueKey)
  }

  /** A match of the pattern without prefix has a number as its issue key. */
  lemma NonPrefixedKeyDigits(s: string, i: nat, m: BranchMatch)
    requires i <= |s| && NonPrefixedAt(s, i) == Some(m)
    ensures AllDigits(m.issueKey)
  {
    NonPrefixedShape(s, i);
    var q := ChunkStart(s, i);
    assert forall k | 0 <= k < |m.issueKey| :: m.issueKey[k] == s[q + k];
  }

  /** Every match of the pattern without prefix has a number as its issue key. */
  lemma {:induction false} NonPrefixedKeysAreNumbers(s: string, from: nat)
    requires from <= |s|
    ensures forall k | 0 <= k < |AllMatches(NonPrefixed, s, from)| :: AllDigits(AllMatches(NonPrefixed, s, from)[k].issueKey)
    decreases |s| - from
  {
    var ms := AllMatches(NonPrefixed, s, from);
    if |ms| > 0 {
      var m := ExecFrom(NonPrefixed, s, from).value;
      var rest := AllMatches(NonPrefixed, s, m.end);
      assert ms == [m] + rest;
      NonPrefixedKeysAreNumbers(s, m.end);
      NonPrefixedKeyDigits(s, m.index, m);
      forall k | 0 < k < |ms| ensures AllDigits(ms[k].issueKey) {
        assert ms[k] == rest[k - 1];
      }
    }
  }

  /** `input.matchAll(ref.branchNameRegex)` from `lastIndex == from`. */
  function MatchesFrom(ref: Reference, input: string, from: nat): (ms: seq<BranchMatch>)
    requires IsCacheable(ref) && from <= |input|
    ensures KeysAreNumbers(ref, ms)
  {
    NonPrefixedKeysAreNumbers(input, from);
    AllMatches(BranchPatternOf(ref), input, from)
  }

  /**
   * `Math.min(index, input.length - index - numberChunk.length - 1)`: how
   * far the match stands from the nearer end of the chunk, the characters
   * before it or the ones after its number chunk and the character that
   * ends it.
   */
  function EdgeDistance(input: string, m: BranchMatch): (d: int)
    ensures d <= m.index && d <= |input| - m.index - |m.numberChunk| - 1
    ensures d == m.index || d == |input| - m.index - |m.numberChunk| - 1
  {
    var fromEnd := |input| - m.index - |m.numberChunk| - 1;
    if m.index < fromEnd then m.index else fromEnd
  }

  /** `ref.url.replace(numRegex, issueKey)`: the key of a branch autolink. */
  function LinkUrl(ref: Reference, m: BranchMatch): string
    requires IsCacheable(ref)
  {
    Replace(ref.url.value, m.issueKey)
  }

  /** The index stored for a match: the smaller of its own and the one already stored under its URL. */
  function MergedIndex(links: LinkMap, url: string, index: nat): (r: int)
    ensures r <= index
    ensures OrderedMaps.Get(links, url).Some? && OrderedMaps.Get(links, url).value.index.Some? ==>
      r <= OrderedMaps.Get(links, url).value.index.value && (r == index || r == OrderedMaps.Get(links, url).value.index.value)
    ensures !(OrderedMaps.Get(links, url).Some? && OrderedMaps.Get(links, url).value.index.Some?) ==> r == index
  {
    match OrderedMaps.Get(links, url)
    case Some(existing) =>
      if existing.index.Some? && existing.index.value < index then existing.index.value else index
    case None => index
  }

  /** The ranking string of a match, for references without prefix only. */
  function PriorityFor(ref: Reference, input: string, chunkIndex: nat, m: BranchMatch): Option<seq<CodeUnit>>
    requires IsCacheable(ref) && (IsNonPrefixed(ref) ==> AllDigits(m.issueKey))
  {
    if IsNonPrefixed(ref) then Some(CalculatePriority(m.issueKey, EdgeDistance(input, m), m.numberChunk, chunkIndex))
    else None
  }

  /** The autolink `{...ref, provider, id, index, url, priority, title, description, descriptor}`. */
  function BranchLink(provider: Option<ProviderReference>, ref: Reference, m: BranchMatch, index: int,
    priority: Option<seq<CodeUnit>>): (l: Autolink)
    requires IsCacheable(ref)
    ensures l.id == m.issueKey && l.url == LinkUrl(ref, m) && l.index == Some(index)
  {
    Autolink(
      provider := provider,
      id := m.issueKey,
      index := Some(index),
      prefix := ref.prefix.value,
      url := LinkUrl(ref, m),
      alphanumeric := ref.alphanumeric,
      ignoreCase := ref.ignoreCase,
      title := ReplaceIn(ref.title, m.issueKey),
      linkType := ref.linkType,
      referenceType := ref.referenceType,
      description := ReplaceIn(ref.description, m.issueKey),
      descriptor := ref.descriptor,
      priority := priority)
  }

  /**
   * One match of the first pass: `autolinks.set(linkUrl, …)`.  The link is
   * stored under its URL with an index no later than the match's, and the
   * keys already there keep their order.
   */
  function AddMatch(links: LinkMap, provider: Option<ProviderReference>, ref: Reference, input: string,
    chunkIndex: nat, m: BranchMatch): (r: LinkMap)
    requires IsCacheable(ref) && (IsNonPrefixed(ref) ==> AllDigits(m.issueKey))
    ensures OrderedMaps.Keys(links) <= OrderedMaps.Keys(r)
    ensures var l := OrderedMaps.Get(r, LinkUrl(ref, m));
      l.Some? && l.value.id == m.issueKey && l.value.index.Some? && l.value.index.value <= m.index
  {
    var url := LinkUrl(ref, m);
    OrderedMaps.Set(links, url, BranchLink(provider, ref, m, MergedIndex(links, url, m.index), PriorityFor(ref, input, chunkIndex, m)))
  }

  function AddMatches(links: LinkMap, provider: Option<ProviderReference>, ref: Reference, input: string,
    chunkIndex: nat, ms: seq<BranchMatch>): (r: LinkMap)
    requires IsCacheable(ref) && KeysAreNumbers(ref, ms)
    ensures OrderedMaps.Keys(links) <= OrderedMaps.Keys(r)
    decreases |ms|
  {
    if |ms| == 0 then links
    else AddMatches(AddMatch(links, provider, ref, input, chunkIndex, ms[0]), provider, ref, input, chunkIndex, ms[1..])
  }

  /**
   * One chunk: the `flatMap` callback, then the matches it yields.  A
   * release chunk, or the chunk a bare release skips, adds nothing and is
   * not counted; a scanned chunk is counted once and clears the skip flag.
   */
  function WalkChunk(w: ChunkWalk, provider: Option<ProviderReference>, ref: Reference, chunk: string): (r: ChunkWalk)
    requires IsCacheable(ref)
    ensures IsRelease(chunk) || w.skip ==> r.links == w.links && r.chunkIndex == w.chunkIndex && r.queued == w.queued
    ensures IsRelease(chunk) ==> (r.skip <==> IsBareRelease(chunk) || w.skip)
    ensures !IsRelease(chunk) ==> !r.skip
    ensures !IsRelease(chunk) && !w.skip ==> r.chunkIndex == w.chunkIndex + 1
    ensures OrderedMaps.Keys(w.links) <= OrderedMaps.Keys(r.links) && r.queued >= w.queued
  {
    match ReleaseNumber(chunk, 0)
    case Some(num) => w.(skip := if num == "" then true else w.skip)
    case None =>
      if w.skip then w.(skip := false)
      else
        var ms := MatchesFrom(ref, chunk, 0);
        ChunkWalk(AddMatches(w.links, provider, ref, chunk, w.chunkIndex, ms), false, w.chunkIndex + 1,
          w.queued + Queued(ref, |ms|))
  }

  /** The chunks in order. */
  function WalkChunks(start: ChunkWalk, provider: Option<ProviderReference>, ref: Reference, chunks: seq<string>): (r: ChunkWalk)
    requires IsCacheable(ref)
    ensures r.queued >= start.queued && (r.queued > start.queued ==> IsNonPrefixed(ref) && HasTitle(ref))
    ensures OrderedMaps.Keys(start.links) <= OrderedMaps.Keys(r.links)
    decreases |chunks|
  {
    if |chunks| == 0 then start
    else WalkChunk(WalkChunks(start, provider, ref, chunks[..|chunks| - 1]), provider, ref, chunks[|chunks| - 1])
  }

  /**
   * The walk's skip flag and chunk counter are what the chunks before say:
   * the counter numbers exactly the scanned chunks.
   */
  lemma {:induction false} WalkState(links: LinkMap, provider: Option<ProviderReference>, ref: Reference, chunks: seq<string>, i: nat)
    requires IsCacheable(ref) && i <= |chunks|
    ensures var w := WalkChunks(ChunkWalk(links, false, 0, 0), provider, ref, chunks[..i]);
      w.skip == SkipBefore(chunks, i) && w.chunkIndex == CountScanned(chunks, i)
  {
    if i > 0 {
      WalkState(links, provider, ref, chunks, i - 1);
      assert chunks[..i][..i - 1] == chunks[..i - 1];
    }
  }

  // ---------------------------------------------------------- title pass

  /** The matches in the slugified title: every one of them is unwanted. */
  function TitleMatches(ref: Reference, slugify: string -> string): seq<BranchMatch>
    requires IsCacheable(ref) && ref.title.Some?
  {
    var slug := slugify(ref.title.value);
    MatchesFrom(ref, slug, 0)
  }

  /** One queued title pass: `autolinks.delete(linkUrl)` for each match. */
  function DeleteMatches(links: LinkMap, ref: Reference, ms: seq<BranchMatch>): LinkMap
    requires IsCacheable(ref)
    decreases |ms|
  {
    if |ms| == 0 then links
    else DeleteMatches(OrderedMaps.Delete(links, LinkUrl(ref, ms[0])), ref, ms[1..])
  }

  /** `n` queued title passes. */
  function DeleteRepeatedly(links: LinkMap, ref: Reference, ms: seq<BranchMatch>, n: nat): LinkMap
    requires IsCacheable(ref)
    decreases n
  {
    if n == 0 then links else DeleteRepeatedly(DeleteMatches(links, ref, ms), ref, ms, n - 1)
  }

  /** A pass deletes every URL it matches and leaves the other keys alone. */
  lemma {:induction false} DeleteMatchesGet(links: LinkMap, ref: Reference, ms: seq<BranchMatch>, k: string)
    requires IsCacheable(ref)
    ensures OrderedMaps.Get(DeleteMatches(links, ref, ms), k) ==
      if exists i | 0 <= i < |ms| :: LinkUrl(ref, ms[i]) == k then None else OrderedMaps.Get(links, k)
    decreases |ms|
  {
    if |ms| > 0 {
      DeleteMatchesGet(OrderedMaps.Delete(links, LinkUrl(ref, ms[0])), ref, ms[1..], k);
      if exists i | 0 <= i < |ms| :: LinkUrl(ref, ms[i]) == k {
        var i :| 0 <= i < |ms| && LinkUrl(ref, ms[i]) == k;
        if i > 0 {
          assert LinkUrl(ref, ms[1..][i - 1]) == k;
        }
      } else {
        forall i | 0 <= i < |ms[1..]| ensures LinkUrl(ref, ms[1..][i]) != k {
          assert ms[1..][i] == ms[i + 1];
        }
      }
    }
  }

  /** A pass over a map that holds none of its URLs changes nothing. */
  lemma {:induction false} DeleteMatchesAbsent(links: LinkMap, ref: Reference, ms: seq<BranchMatch>)
    requires IsCacheable(ref)
    requires forall i | 0 <= i < |ms| :: OrderedMaps.Get(links, LinkUrl(ref, ms[i])).None?
    ensures DeleteMatches(links, ref, ms) == links
    decreases |ms|
  {
    if |ms| > 0 {
      assert OrderedMaps.Delete(links, LinkUrl(ref, ms[0])) == links;
      forall i | 0 <= i < |ms[1..]| ensures OrderedMaps.Get(links, LinkUrl(ref, ms[1..][i])).None? {
        assert ms[1..][i] == ms[i + 1];
      }
      DeleteMatchesAbsent(links, ref, ms[1..]);
    }
  }

  /** A second title pass finds nothing left to delete. */
  lemma DeleteMatchesIdempotent(links: LinkMap, ref: Reference, ms: seq<BranchMatch>)
    requires IsCacheable(ref)
    ensures DeleteMatches(DeleteMatches(links, ref, ms), ref, ms) == DeleteMatches(links, ref, ms)
  {
    var once := DeleteMatches(links, ref, ms);
    forall i | 0 <= i < |ms| ensures OrderedMaps.Get(once, LinkUrl(ref, ms[i])).None? {
      DeleteMatchesGet(links, ref, ms, LinkUrl(ref, ms[i]));
    }
    DeleteMatchesAbsent(once, ref, ms);
  }

  /** Repeating a title pass changes nothing: the queued copies act as one. */
  lemma {:induction false} DeleteRepeatedlyOnce(links: LinkMap, ref: Reference, ms: seq<BranchMatch>, n: nat)
    requires IsCacheable(ref)
    ensures DeleteRepeatedly(links, ref, ms, n) == if n == 0 then links else DeleteMatches(links, ref, ms)
    decreases n
  {
    if n > 1 {
      DeleteMatchesIdempotent(links, ref, ms);
      DeleteRepeatedlyOnce(DeleteMatches(links, ref, ms), ref, ms, n - 1);
    }
  }

  // ------------------------------------------------------------ the scan

  /** Whether a reference's title passes may delete links: no prefix, and a title. */
  predicate RemovesTitleNumbers(ref: Reference) {
    ScansBranch(ref) && IsNonPrefixed(ref) && HasTitle(ref)
  }

  /**
   * What one reference does to the map.  A reference the scan does not run
   * changes nothing; one without title passes only adds links, so the keys
   * already there keep their order.
   */
  function ScanBranchRef(branchName: string, provider: Option<ProviderReference>, ref: Reference, links: LinkMap,
    slugify: string -> string): (r: LinkMap)
    ensures !ScansBranch(ref) ==> r == links
    ensures !RemovesTitleNumbers(ref) ==> OrderedMaps.Keys(links) <= OrderedMaps.Keys(r)
  {
    if !ScansBranch(ref) then links
    else
      var w := WalkChunks(ChunkWalk(links, false, 0, 0), provider, ref, ChunksOf(ref, branchName));
      if w.queued == 0 then w.links
      else DeleteRepeatedly(w.links, ref, TitleMatches(ref, slugify), w.queued)
  }

  function ScanBranchRefs(branchName: string, provider: Option<ProviderReference>, refs: seq<Reference>, links: LinkMap,
    slugify: string -> string): (r: LinkMap)
    ensures (forall j | 0 <= j < |refs| :: !RemovesTitleNumbers(refs[j])) ==> OrderedMaps.Keys(links) <= OrderedMaps.Keys(r)
    decreases |refs|
  {
    if |refs| == 0 then links
    else ScanBranchRefs(branchName, provider, refs[1..], ScanBranchRef(branchName, provider, refs[0], links, slugify), slugify)
  }

  function ScanBranchRefSets(branchName: string, refsets: seq<RefSet>, links: LinkMap, slugify: string -> string): (r: LinkMap)
    ensures (forall i, j | 0 <= i < |refsets| && 0 <= j < |refsets[i].refs| :: !RemovesTitleNumbers(refsets[i].refs[j]))
      ==> OrderedMaps.Keys(links) <= OrderedMaps.Keys(r)
    decreases |refsets|
  {
    if |refsets| == 0 then links
    else ScanBranchRefSets(branchName, refsets[1..], ScanBranchRefs(branchName, refsets[0].provider, refsets[0].refs, links, slugify), slugify)
  }

  // ----------------------------------------------------------- properties

  /** The references a branch scan acts on. */
  function BranchRefs(refs: seq<Reference>): (r: seq<Reference>)
    ensures forall x | x in r :: x in refs && ScansBranch(x)
    ensures forall x | x in refs && ScansBranch(x) :: x in r
    decreases |refs|
  {
    if |refs| == 0 then []
    else if ScansBranch(refs[0]) then [refs[0]] + BranchRefs(refs[1..])
    else
      assert forall x | x in refs[1..] :: x in refs;
      BranchRefs(refs[1..])
  }

  /**
   * References that are not cacheable, are for pull requests, or are
   * restricted to another reference type leave the map as it was.
   */
  lemma {:induction false} SkippedRefsChangeNothing(branchName: string, provider: Option<ProviderReference>, refs: seq<Reference>,
    links: LinkMap, slugify: string -> string)
    ensures ScanBranchRefs(branchName, provider, refs, links, slugify)
      == ScanBranchRefs(branchName, provider, BranchRefs(refs), links, slugify)
    decreases |refs|
  {
    if |refs| > 0 {
      if ScansBranch(refs[0]) {
        SkippedRefsChangeNothing(branchName, provider, refs[1..], ScanBranchRef(branchName, provider, refs[0], links, slugify), slugify);
        assert ([refs[0]] + BranchRefs(refs[1..]))[1..] == BranchRefs(refs[1..]);
      } else {
        SkippedRefsChangeNothing(branchName, provider, refs[1..], links, slugify);
      }
    }
  }

  /**
   * Chunk by chunk: a release or skipped chunk leaves the map alone, and a
   * scanned chunk adds its matches with the number of scanned chunks before
   * it as its chunk index.
   */
  lemma WalkStep(links: LinkMap, provider: Option<ProviderReference>, ref: Reference, chunks: seq<string>, i: nat)
    requires IsCacheable(ref) && i < |chunks|
    ensures var start := ChunkWalk(links, false, 0, 0);
      var before := WalkChunks(start, provider, ref, chunks[..i]).links;
      WalkChunks(start, provider, ref, chunks[..i + 1]).links ==
        if Scanned(chunks, i) then AddMatches(before, provider, ref, chunks[i], CountScanned(chunks, i), MatchesFrom(ref, chunks[i], 0))
        else before
  {
    WalkState(links, provider, ref, chunks, i);
    assert chunks[..i + 1][..i] == chunks[..i];
  }

  /** Every entry is stored under its own URL. */
  ghost predicate KeyedByUrl(links: LinkMap) {
    forall k :: OrderedMaps.Get(links, k).Some? ==> OrderedMaps.Get(links, k).value.url == k
  }

  lemma {:induction false} AddMatchesKeyedByUrl(links: LinkMap, provider: Option<ProviderReference>, ref: Reference, input: string,
    chunkIndex: nat, ms: seq<BranchMatch>)
    requires IsCacheable(ref) && KeysAreNumbers(ref, ms) && KeyedByUrl(links)
    ensures KeyedByUrl(AddMatches(links, provider, ref, input, chunkIndex, ms))
    decreases |ms|
  {
    if |ms| > 0 {
      var next := AddMatch(links, provider, ref, input, chunkIndex, ms[0]);
      assert KeyedByUrl(next) by {
        forall k | OrderedMaps.Get(next, k).Some? ensures OrderedMaps.Get(next, k).value.url == k {
          if k != LinkUrl(ref, ms[0]) {
            assert OrderedMaps.Get(next, k) == OrderedMaps.Get(links, k);
          }
        }
      }
      AddMatchesKeyedByUrl(next, provider, ref, input, chunkIndex, ms[1..]);
    }
  }

  lemma {:induction false} WalkChunksKeyedByUrl(start: ChunkWalk, provider: Option<ProviderReference>, ref: Reference, chunks: seq<string>)
    requires IsCacheable(ref) && KeyedByUrl(start.links)
    ensures KeyedByUrl(WalkChunks(start, provider, ref, chunks).links)
    decreases |chunks|
  {
    if |chunks| > 0 {
      var w := WalkChunks(start, provider, ref, chunks[..|chunks| - 1]);
      WalkChunksKeyedByUrl(start, provider, ref, chunks[..|chunks| - 1]);
      var chunk := chunks[|chunks| - 1];
      if ReleaseNumber(chunk, 0).None? && !w.skip {
        AddMatchesKeyedByUrl(w.links, provider, ref, chunk, w.chunkIndex, MatchesFrom(ref, chunk, 0));
      }
    }
  }

  lemma DeleteMatchesKeyedByUrl(links: LinkMap, ref: Reference, ms: seq<BranchMatch>)
    requires IsCacheable(ref) && KeyedByUrl(links)
    ensures KeyedByUrl(DeleteMatches(links, ref, ms))
  {
    forall k ensures OrderedMaps.Get(DeleteMatches(links, ref, ms), k).Some? ==>
      OrderedMaps.Get(DeleteMatches(links, ref, ms), k).value.url == k
    {
      DeleteMatchesGet(links, ref, ms, k);
    }
  }

  /** One reference keeps every entry under its own URL. */
  lemma ScanBranchRefKeyedByUrl(branchName: string, provider: Option<ProviderReference>, ref: Reference, links: LinkMap,
    slugify: string -> string)
    requires KeyedByUrl(links)
    ensures KeyedByUrl(ScanBranchRef(branchName, provider, ref, links, slugify))
  {
    if ScansBranch(ref) {
      var w := WalkChunks(ChunkWalk(links, false, 0, 0), provider, ref, ChunksOf(ref, branchName));
      WalkChunksKeyedByUrl(ChunkWalk(links, false, 0, 0), provider, ref, ChunksOf(ref, branchName));
      if w.queued > 0 {
        DeleteRepeatedlyOnce(w.links, ref, TitleMatches(ref, slugify), w.queued);
        DeleteMatchesKeyedByUrl(w.links, ref, TitleMatches(ref, slugify));
      }
    }
  }

  lemma {:induction false} ScanBranchRefsKeyedByUrl(branchName: string, provider: Option<ProviderReference>, refs: seq<Reference>,
    links: LinkMap, slugify: string -> string)
    requires KeyedByUrl(links)
    ensures KeyedByUrl(ScanBranchRefs(branchName, provider, refs, links, slugify))
    decreases |refs|
  {
    if |refs| > 0 {
      ScanBranchRefKeyedByUrl(branchName, provider, refs[0], links, slugify);
      ScanBranchRefsKeyedByUrl(branchName, provider, refs[1..], ScanBranchRef(branchName, provider, refs[0], links, slugify), slugify);
    }
  }

  /** `getBranchAutolinks` keys every autolink by its own substituted URL. */
  lemma {:induction false} ScanBranchKeyedByUrl(branchName: string, refsets: seq<RefSet>, links: LinkMap, slugify: string -> string)
    requires KeyedByUrl(links)
    ensures KeyedByUrl(ScanBranchRefSets(branchName, refsets, links, slugify))
    decreases |refsets|
  {
    if |refsets| > 0 {
      ScanBranchRefsKeyedByUrl(branchName, refsets[0].provider, refsets[0].refs, links, slugify);
      ScanBranchKeyedByUrl(branchName, refsets[1..],
        ScanBranchRefs(branchName, refsets[0].provider, refsets[0].refs, links, slugify), slugify);
    }
  }

  /** Key `k` holds a link whose index is at most `bound`. */
  ghost predicate IndexAtMost(links: LinkMap, k: string, bound: int) {
    OrderedMaps.Get(links, k).Some? && OrderedMaps.Get(links, k).value.index.Some?
      && OrderedMaps.Get(links, k).value.index.value <= bound
  }

  /** One match: its URL now holds an index no larger than its own, and no index stored under `k` grows. */
  lemma AddMatchKeepsSmallerIndex(links: LinkMap, provider: Option<ProviderReference>, ref: Reference,
    input: string, chunkIndex: nat, m: BranchMatch, k: string, bound: int)
    requires IsCacheable(ref) && (IsNonPrefixed(ref) ==> AllDigits(m.issueKey))
    ensures var next := AddMatch(links, provider, ref, input, chunkIndex, m);
      && (IndexAtMost(links, k, bound) ==> IndexAtMost(next, k, bound))
      && (LinkUrl(ref, m) == k ==> IndexAtMost(next, k, m.index))
  {
    var next := AddMatch(links, provider, ref, input, chunkIndex, m);
    if k != LinkUrl(ref, m) {
      assert OrderedMaps.Get(next, k) == OrderedMaps.Get(links, k);
    }
  }

  /** Adding matches never makes an index stored under `k` grow. */
  lemma {:induction false} AddMatchesKeepStoredIndex(links: LinkMap, provider: Option<ProviderReference>, ref: Reference,
    input: string, chunkIndex: nat, ms: seq<BranchMatch>, k: string, bound: int)
    requires IsCacheable(ref) && KeysAreNumbers(ref, ms)
    requires IndexAtMost(links, k, bound)
    ensures IndexAtMost(AddMatches(links, provider, ref, input, chunkIndex, ms), k, bound)
    decreases |ms|
  {
    if |ms| > 0 {
      AddMatchKeepsSmallerIndex(links, provider, ref, input, chunkIndex, ms[0], k, bound);
      AddMatchesKeepStoredIndex(AddMatch(links, provider, ref, input, chunkIndex, ms[0]), provider, ref, input, chunkIndex, ms[1..], k, bound);
    }
  }

  /**
   * Adding a chunk's matches keeps, under each URL, the smallest index seen:
   * after match `j`, the index stored under its URL is no larger than the
   * match's, whatever the matches after it.
   */
  lemma {:induction false} AddMatchesKeepSmallestIndex(links: LinkMap, provider: Option<ProviderReference>, ref: Reference,
    input: string, chunkIndex: nat, ms: seq<BranchMatch>, j: nat)
    requires IsCacheable(ref) && KeysAreNumbers(ref, ms) && j < |ms|
    ensures IndexAtMost(AddMatches(links, provider, ref, input, chunkIndex, ms), LinkUrl(ref, ms[j]), ms[j].index)
    decreases |ms|
  {
    var next := AddMatch(links, provider, ref, input, chunkIndex, ms[0]);
    if j == 0 {
      AddMatchKeepsSmallerIndex(links, provider, ref, input, chunkIndex, ms[0], LinkUrl(ref, ms[0]), ms[0].index);
      AddMatchesKeepStoredIndex(next, provider, ref, input, chunkIndex, ms[1..], LinkUrl(ref, ms[0]), ms[0].index);
    } else {
      assert ms[1..][j - 1] == ms[j];
      AddMatchesKeepSmallestIndex(next, provider, ref, input, chunkIndex, ms[1..], j - 1);
    }
  }

  /**
   * The title pass: after the chunk walk, a reference with queued title
   * passes drops exactly the URLs of the numbers in its slugified title and
   * keeps every other entry.
   */
  lemma TitleNumbersRemoved(branchName: string, provider: Option<ProviderReference>, ref: Reference, links: LinkMap,
    slugify: string -> string, k: string)
    requires ScansBranch(ref)
    ensures var w := WalkChunks(ChunkWalk(links, false, 0, 0), provider, ref, ChunksOf(ref, branchName));
      OrderedMaps.Get(ScanBranchRef(branchName, provider, ref, links, slugify), k) ==
        if w.queued > 0 && exists i | 0 <= i < |TitleMatches(ref, slugify)| :: LinkUrl(ref, TitleMatches(ref, slugify)[i]) == k
        then None
        else OrderedMaps.Get(w.links, k)
  {
    var w := WalkChunks(ChunkWalk(links, false, 0, 0), provider, ref, ChunksOf(ref, branchName));
    if w.queued > 0 {
      DeleteRepeatedlyOnce(w.links, ref, TitleMatches(ref, slugify), w.queued);
      DeleteMatchesGet(w.links, ref, TitleMatches(ref, slugify), k);
    }
  }

  /**
   * The URL, title and description of a branch autolink keep no `<num>`
   * when the issue key has none of the placeholder's characters, as every
   * number has.
   */
  lemma BranchLinkFilled(provider: Option<ProviderReference>, ref: Reference, m: BranchMatch, index: int,
    priority: Option<seq<CodeUnit>>)
    requires IsCacheable(ref)
    requires |m.issueKey| > 0 && forall k | 0 <= k < |m.issueKey| :: !IsPlaceholderChar(m.issueKey[k])
    ensures var l := BranchLink(provider, ref, m, index, priority);
      && PlaceholderFree(l.url)
      && (l.title.Some? ==> PlaceholderFree(l.title.value))
      && (l.description.Some? ==> PlaceholderFree(l.description.value))
  {
    ReplaceLeavesNoPlaceholder(ref.url.value, m.issueKey);
    if ref.title.Some? {
      ReplaceLeavesNoPlaceholder(ref.title.value, m.issueKey);
    }
    if ref.description.Some? {
      ReplaceLeavesNoPlaceholder(ref.description.value, m.issueKey);
    }
  }

  // -------------------------------------------------------------- methods

  /** `getBranchAutolinks(branchName, refsets)`; `slugify` is the library function the title pass uses. */
  method GetBranchAutolinks(branchName: string, refsets: seq<RefSet>, slugify: string -> string) returns (sorted: LinkMap)
    requires forall r | r in RefsOf(refsets) :: r.Valid()
    modifies RefsOf(refsets)
    ensures multiset(sorted.entries) == multiset(ScanBranchRefSets(branchName, refsets, OrderedMaps.Empty(), slugify).entries)
    ensures Comparators.SortedBy(sorted.entries, EntryOrder())
    ensures forall r | r in RefsOf(refsets) :: r.Valid()
  {
    var autolinks := OrderedMaps.Empty();
    for i := 0 to |refsets|
      invariant ScanBranchRefSets(branchName, refsets[i..], autolinks, slugify)
        == ScanBranchRefSets(branchName, refsets, OrderedMaps.Empty(), slugify)
      invariant forall r | r in RefsOf(refsets) :: r.Valid()
    {
      assert refsets[i..][1..] == refsets[i + 1..];
      assert forall r | r in refsets[i].refs :: r in RefsOf(refsets);
      autolinks := ScanBranchProviderRefs(branchName, refsets[i].provider, refsets[i].refs, autolinks, slugify);
    }
    sorted := SortLinks(autolinks);
  }

  /** The references of one provider, in order. */
  method ScanBranchProviderRefs(branchName: string, provider: Option<ProviderReference>, refs: seq<Reference>,
    links: LinkMap, slugify: string -> string) returns (autolinks: LinkMap)
    requires forall r | r in refs :: r.Valid()
    modifies set r | r in refs
    ensures autolinks == ScanBranchRefs(branchName, provider, refs, links, slugify)
    ensures forall r | r in refs :: r.Valid()
  {
    autolinks := links;
    for j := 0 to |refs|
      invariant ScanBranchRefs(branchName, provider, refs[j..], autolinks, slugify)
        == ScanBranchRefs(branchName, provider, refs, links, slugify)
      invariant forall r | r in refs :: r.Valid()
    {
      var ref := refs[j];
      assert refs[j..][1..] == refs[j + 1..];
      if !IsCacheable(ref) || ref.linkType == Some(PullRequest)
        || (ref.referenceType.Some? && ref.referenceType.value != Branch) {
        continue;
      }
      EnsureCachedRegex(ref);
      autolinks := ScanBranchReference(branchName, provider, ref, autolinks, slugify);
    }
  }

  /**
   * The work for one reference: the chunk walk with its skip flag, chunk
   * counter and chunk index map, then the queued title passes.
   */
  method ScanBranchReference(branchName: string, provider: Option<ProviderReference>, ref: Reference,
    links: LinkMap, slugify: string -> string) returns (autolinks: LinkMap)
    requires ScansBranch(ref) && ref.branchNameRegex == Some(BranchPatternOf(ref))
    ensures autolinks == ScanBranchRef(branchName, provider, ref, links, slugify)
  {
    var chunks := [branchName];
    var nonPrefixedRef := ref.prefix.value == "" && !ref.alphanumeric;
    if nonPrefixedRef {
      chunks := Split(branchName, '/');
    }
    assert chunks == ChunksOf(ref, branchName);
    var walked, queued := WalkBranchChunks(chunks, provider, ref, links);
    autolinks := walked;
    if queued > 0 {
      autolinks := RepeatTitlePasses(slugify(ref.title.value), ref, walked, queued);
    }
  }

  /** The `flatMap` over the chunks with its skip flag, chunk counter and chunk index map, and the match loop. */
  method WalkBranchChunks(chunks: seq<string>, provider: Option<ProviderReference>, ref: Reference, links: LinkMap)
    returns (autolinks: LinkMap, queued: nat)
    requires IsCacheable(ref) && ref.branchNameRegex == Some(BranchPatternOf(ref))
    ensures var w := WalkChunks(ChunkWalk(links, false, 0, 0), provider, ref, chunks);
      autolinks == w.links && queued == w.queued
  {
    var chunkIndex := 0;
    var chunkIndexMap: OrderedMaps.Map<string, nat> := OrderedMaps.Empty();
    var skip := false;
    queued := 0;
    autolinks := links;
    ghost var start := ChunkWalk(links, false, 0, 0);
    for c := 0 to |chunks|
      invariant WalkChunks(start, provider, ref, chunks[..c]) == ChunkWalk(autolinks, skip, chunkIndex, queued)
    {
      assert chunks[..c + 1][..c] == chunks[..c];
      autolinks, skip, chunkIndex, chunkIndexMap, queued :=
        WalkBranchChunk(chunks[c], provider, ref, autolinks, skip, chunkIndex, chunkIndexMap, queued);
    }
    assert chunks[..|chunks|] == chunks;
  }

  /** One chunk: the release check and skip rule of the `flatMap` callback, then its matches. */
  method WalkBranchChunk(chunk: string, provider: Option<ProviderReference>, ref: Reference, links: LinkMap,
    skip: bool, chunkIndex: nat, chunkIndexMap: OrderedMaps.Map<string, nat>, queued: nat)
    returns (autolinks: LinkMap, skipAfter: bool, chunkIndexAfter: nat, chunkIndexMapAfter: OrderedMaps.Map<string, nat>,
      queuedAfter: nat)
    requires IsCacheable(ref) && ref.branchNameRegex == Some(BranchPatternOf(ref))
    ensures ChunkWalk(autolinks, skipAfter, chunkIndexAfter, queuedAfter)
      == WalkChunk(ChunkWalk(links, skip, chunkIndex, queued), provider, ref, chunk)
  {
    autolinks, skipAfter, chunkIndexAfter, chunkIndexMapAfter, queuedAfter := links, skip, chunkIndex, chunkIndexMap, queued;
    var releaseMatch := ReleaseNumber(chunk, 0);
    match releaseMatch {
      case Some(releaseNum) =>
        if releaseNum == "" {
          skipAfter := true;
        }
      case None =>
        if skip {
          skipAfter := false;
        } else {
          autolinks, chunkIndexAfter, chunkIndexMapAfter, queuedAfter :=
            ScanBranchChunk(chunk, provider, ref, links, chunkIndex, chunkIndexMap, queued);
        }
    }
  }

  /** A chunk that is no release and is not skipped: its index is recorded, then its matches are added. */
  method ScanBranchChunk(chunk: string, provider: Option<ProviderReference>, ref: Reference, links: LinkMap,
    chunkIndex: nat, chunkIndexMap: OrderedMaps.Map<string, nat>, queued: nat)
    returns (autolinks: LinkMap, chunkIndexAfter: nat, chunkIndexMapAfter: OrderedMaps.Map<string, nat>, queuedAfter: nat)
    requires IsCacheable(ref) && ref.branchNameRegex == Some(BranchPatternOf(ref))
    requires ReleaseNumber(chunk, 0).None?
    ensures OrderedMaps.Get(chunkIndexMapAfter, chunk) == Some(chunkIndex)
    ensures ChunkWalk(autolinks, false, chunkIndexAfter, queuedAfter)
      == WalkChunk(ChunkWalk(links, false, chunkIndex, queued), provider, ref, chunk)
  {
    chunkIndexMapAfter := OrderedMaps.Set(chunkIndexMap, chunk, chunkIndex);
    chunkIndexAfter := chunkIndex + 1;
    autolinks, queuedAfter := AddChunkMatches(chunk, provider, ref, chunkIndexMapAfter, links, queued);
    ghost var ms := MatchesFrom(ref, chunk, 0);
    assert autolinks == AddMatches(links, provider, ref, chunk, chunkIndex, ms);
  }

  /** The queued title passes, one after another. */
  method RepeatTitlePasses(slug: string, ref: Reference, links: LinkMap, queued: nat) returns (autolinks: LinkMap)
    requires IsCacheable(ref) && ref.branchNameRegex == Some(BranchPatternOf(ref))
    ensures autolinks == DeleteRepeatedly(links, ref, MatchesFrom(ref, slug, 0), queued)
  {
    autolinks := links;
    var remaining: nat := queued;
    ghost var unwanted := MatchesFrom(ref, slug, 0);
    while remaining > 0
      invariant remaining <= queued
      invariant autolinks == if remaining == queued then links else DeleteMatches(links, ref, unwanted)
    {
      if remaining < queued {
        DeleteMatchesIdempotent(links, ref, unwanted);
      }
      autolinks := DeleteTitleMatches(slug, ref, autolinks);
      remaining := remaining - 1;
    }
    DeleteRepeatedlyOnce(links, ref, unwanted, queued);
  }

  /**
   * The matches of one scanned chunk: each is stored under its URL, with the
   * smaller index when the URL is already there, and queues a title pass
   * when the reference has no prefix and a title.
   */
  method AddChunkMatches(chunk: string, provider: Option<ProviderReference>, ref: Reference,
    chunkIndexMap: OrderedMaps.Map<string, nat>, links: LinkMap, queued: nat) returns (autolinks: LinkMap, queuedAfter: nat)
    requires IsCacheable(ref) && ref.branchNameRegex == Some(BranchPatternOf(ref))
    ensures autolinks == AddMatches(links, provider, ref, chunk, OrderedMaps.Get(chunkIndexMap, chunk).GetOr(0),
      MatchesFrom(ref, chunk, 0))
    ensures queuedAfter == queued + Queued(ref, |MatchesFrom(ref, chunk, 0)|)
  {
    var regex := ref.branchNameRegex.value;
    var nonPrefixedRef := ref.prefix.value == "" && !ref.alphanumeric;
    ghost var chunkIndex := OrderedMaps.Get(chunkIndexMap, chunk).GetOr(0);
    autolinks, queuedAfter := links, queued;
    var lastIndex := 0;
    while true
      invariant lastIndex <= |chunk|
      invariant AddMatches(autolinks, provider, ref, chunk, chunkIndex, MatchesFrom(ref, chunk, lastIndex))
        == AddMatches(links, provider, ref, chunk, chunkIndex, MatchesFrom(ref, chunk, 0))
      invariant queuedAfter + Queued(ref, |MatchesFrom(ref, chunk, lastIndex)|) == queued + Queued(ref, |MatchesFrom(ref, chunk, 0)|)
      decreases |chunk| - lastIndex
    {
      var found := ExecFrom(regex, chunk, lastIndex);
      if found.None? {
        break;
      }
      var m := found.value;
      assert MatchesFrom(ref, chunk, lastIndex) == [m] + MatchesFrom(ref, chunk, m.end);
      if nonPrefixedRef && ref.title.Some? && |ref.title.value| > 0 {
        queuedAfter := queuedAfter + 1;
      }
      autolinks := AddBranchMatch(chunk, provider, ref, chunkIndexMap, autolinks, m);
      lastIndex := m.end;
    }
  }

  /** One match: its link goes under its URL, keeping the smaller index if the URL is already there. */
  method AddBranchMatch(chunk: string, provider: Option<ProviderReference>, ref: Reference,
    chunkIndexMap: OrderedMaps.Map<string, nat>, links: LinkMap, m: BranchMatch) returns (autolinks: LinkMap)
    requires IsCacheable(ref) && (IsNonPrefixed(ref) ==> AllDigits(m.issueKey))
    ensures autolinks == AddMatch(links, provider, ref, chunk, OrderedMaps.Get(chunkIndexMap, chunk).GetOr(0), m)
  {
    var nonPrefixedRef := ref.prefix.value == "" && !ref.alphanumeric;
    var issueKey := m.issueKey;
    var index := m.index;
    var linkUrl := Replace(ref.url.value, issueKey);
    var existing := OrderedMaps.Get(links, linkUrl);
    if existing.Some? && existing.value.index.Some? && existing.value.index.value < index {
      index := existing.value.index.value;
    }
    var priority := None;
    if nonPrefixedRef {
      priority := Some(CalculatePriority(issueKey, EdgeDistance(chunk, m), m.numberChunk,
        OrderedMaps.Get(chunkIndexMap, chunk).GetOr(0)));
    }
    autolinks := OrderedMaps.Set(links, linkUrl, BranchLink(provider, ref, m, index, priority));
  }

  /** One queued title pass: every match in the slugified title deletes its URL. */
  method DeleteTitleMatches(slug: string, ref: Reference, links: LinkMap) returns (autolinks: LinkMap)
    requires IsCacheable(ref) && ref.branchNameRegex == Some(BranchPatternOf(ref))
    ensures autolinks == DeleteMatches(links, ref, MatchesFrom(ref, slug, 0))
  {
    var regex := ref.branchNameRegex.value;
    autolinks := links;
    var lastIndex := 0;
    while true
      invariant lastIndex <= |slug|
      invariant DeleteMatches(autolinks, ref, MatchesFrom(ref, slug, lastIndex)) == DeleteMatches(links, ref, MatchesFrom(ref, slug, 0))
      decreases |slug| - lastIndex
    {
      var found := ExecFrom(regex, slug, lastIndex);
      if found.None? {
        break;
      }
      var m := found.value;
      assert MatchesFrom(ref, slug, lastIndex) == [m] + MatchesFrom(ref, slug, m.end);
      autolinks := OrderedMaps.Delete(autolinks, Replace(ref.url.value, m.issueKey));
      lastIndex := m.end;
    }
  }
}
