/**
 * The relevance order of autolinks found in a branch name: the comparator
 * `compareAutolinks` as written, the consistent order it evidently means,
 * and the final reordering of the found links.
 */
module AutolinkRanking {
  import opened Wrappers
  import opened Comparators
  import opened Autolinks
  import OrderedMaps

  /**
   * JavaScript's `<`/`>` on strings, as a three-way comparison of code unit
   * sequences: the first differing code unit decides, and a proper prefix
   * sorts first.
   */
  function LexCompare(x: seq<CodeUnit>, y: seq<CodeUnit>): (r: int)
    ensures -1 <= r <= 1
    ensures r == 0 <==> x == y
  {
    if |x| == 0 && |y| == 0 then 0
    else if |x| == 0 then -1
    else if |y| == 0 then 1
    else if x[0] < y[0] then -1
    else if x[0] > y[0] then 1
    else
      var r := LexCompare(x[1..], y[1..]);
      assert x == [x[0]] + x[1..] && y == [y[0]] + y[1..];
      r
  }

  lemma {:induction false} LexCompareAntisymmetric(x: seq<CodeUnit>, y: seq<CodeUnit>)
    ensures LexCompare(x, y) == -LexCompare(y, x)
  {
    if |x| > 0 && |y| > 0 && x[0] == y[0] {
      LexCompareAntisymmetric(x[1..], y[1..]);
    }
  }

  lemma {:induction false} LexCompareTransitive(x: seq<CodeUnit>, y: seq<CodeUnit>, z: seq<CodeUnit>)
    ensures LexCompare(x, y) <= 0 && LexCompare(y, z) <= 0 ==> LexCompare(x, z) <= 0
  {
    if |x| > 0 && |y| > 0 && |z| > 0 && x[0] == y[0] == z[0] {
      LexCompareTransitive(x[1..], y[1..], z[1..]);
    }
  }

  /** String comparison is a total order on code unit sequences. */
  lemma LexCompareIsComparator()
    ensures IsComparator(LexCompare)
  {
    forall x, y ensures Sign(LexCompare(x, y)) == -Sign(LexCompare(y, x)) {
      LexCompareAntisymmetric(x, y);
    }
    forall x, y, z | LexCompare(x, y) <= 0 && LexCompare(y, z) <= 0 ensures LexCompare(x, z) <= 0 {
      LexCompareTransitive(x, y, z);
    }
  }

  /** `link.priority ?? ''` */
  function PriorityText(link: Autolink): seq<CodeUnit> {
    link.priority.GetOr([])
  }

  /** A string is truthy when it is present and not empty. */
  predicate HasPriority(link: Autolink) {
    link.priority.Some? && |link.priority.value| > 0
  }

  /**
   * `compareAutolinks(a, b)` as written: longer prefix first; then, when
   * either link has a priority, the larger priority first; then a link at
   * index 0; then the longer id; then the smaller index when both have one.
   */
  function CompareAutolinks(a: Autolink, b: Autolink): (r: int)
    ensures |a.prefix| > |b.prefix| ==> r < 0
    ensures |a.prefix| < |b.prefix| ==> r > 0
    ensures r == 0 ==> |a.prefix| == |b.prefix| && |a.id| == |b.id| && !AtIndexZero(a) && !AtIndexZero(b)
  {
    var pa, pb := PriorityText(a), PriorityText(b);
    if |b.prefix| - |a.prefix| != 0 then |b.prefix| - |a.prefix|
    else if (HasPriority(a) || HasPriority(b)) && LexCompare(pb, pa) > 0 then 1
    else if (HasPriority(a) || HasPriority(b)) && LexCompare(pb, pa) < 0 then -1
    else if b.index == Some(0) then 1
    else if a.index == Some(0) then -1
    else if |b.id| - |a.id| != 0 then |b.id| - |a.id|
    else if b.index.Some? && a.index.Some? then -(b.index.value - a.index.value)
    else 0
  }

  /**
   * Two links of equal prefix length and equal priority that both start at
   * index 0 each claim to sort after the other.
   */
  lemma BothAtStartBothLose(a: Autolink, b: Autolink)
    requires |a.prefix| == |b.prefix| && a.priority == b.priority
    requires a.index == Some(0) && b.index == Some(0)
    ensures CompareAutolinks(a, b) == 1 && CompareAutolinks(b, a) == 1
  {
  }

  /** A link that a branch `123-fix` gives a prefix-less numeric reference. */
  function AtStart(url: string): Autolink {
    Autolink(None, "123", Some(0), "", url, false, false, None, None, None, None, None, None)
  }

  /** Hence `compareAutolinks` is not a consistent comparator. */
  lemma CompareAutolinksNotAntisymmetric()
    ensures !Antisymmetric(CompareAutolinks)
  {
    var a, b := AtStart("https://a.example/123"), AtStart("https://b.example/123");
    BothAtStartBothLose(a, b);
    assert Sign(CompareAutolinks(a, b)) != -Sign(CompareAutolinks(b, a));
  }

  function PrefixLength(link: Autolink): int {
    |link.prefix|
  }

  function IdLength(link: Autolink): int {
    |link.id|
  }

  predicate AtIndexZero(link: Autolink) {
    link.index == Some(0)
  }

  /** The index a link sorts by; the branch scanner gives every link one. */
  function IndexOrZero(link: Autolink): int {
    link.index.GetOr(0)
  }

  /**
   * The order `compareAutolinks` evidently means, as a tie-break chain:
   * longer prefix, larger priority, at index 0, longer id, smaller index.
   * Unlike the function as written, it is a consistent comparator.
   */
  function RankOrder(): (r: (Autolink, Autolink) -> int)
    ensures IsComparator(r)
  {
    LexCompareIsComparator();
    OnIsComparator(LexCompare, PriorityText);
    ReversedIsComparator(On(LexCompare, PriorityText));
    FirstIfIsComparator(AtIndexZero);
    DescendingIsComparator(IdLength);
    DescendingIsComparator(PrefixLength);
    AscendingIsComparator(IndexOrZero);
    ThenIsComparator(Descending(IdLength), Ascending(IndexOrZero));
    ThenIsComparator(FirstIf(AtIndexZero), Then(Descending(IdLength), Ascending(IndexOrZero)));
    ThenIsComparator(Reversed(On(LexCompare, PriorityText)),
      Then(FirstIf(AtIndexZero), Then(Descending(IdLength), Ascending(IndexOrZero))));
    ThenIsComparator(Descending(PrefixLength),
      Then(Reversed(On(LexCompare, PriorityText)),
        Then(FirstIf(AtIndexZero), Then(Descending(IdLength), Ascending(IndexOrZero)))));
    Then(Descending(PrefixLength),
      Then(Reversed(On(LexCompare, PriorityText)),
        Then(FirstIf(AtIndexZero),
          Then(Descending(IdLength), Ascending(IndexOrZero)))))
  }

  /** The value of the corrected order, link by link of the chain. */
  lemma RankOrderAt(a: Autolink, b: Autolink)
    ensures RankOrder()(a, b) ==
      if |b.prefix| - |a.prefix| != 0 then |b.prefix| - |a.prefix|
      else if LexCompare(PriorityText(b), PriorityText(a)) != 0 then LexCompare(PriorityText(b), PriorityText(a))
      else if AtIndexZero(a) != AtIndexZero(b) then (if AtIndexZero(a) then -2 else 2)
      else if |b.id| - |a.id| != 0 then |b.id| - |a.id|
      else IndexOrZero(a) - IndexOrZero(b)
  {
    var tail := Then(Descending(IdLength), Ascending(IndexOrZero));
    var zero := Then(FirstIf(AtIndexZero), tail);
    var prio := Then(Reversed(On(LexCompare, PriorityText)), zero);
    assert Descending(PrefixLength)(a, b) == PrefixLength(b) - PrefixLength(a) == |b.prefix| - |a.prefix|;
    assert Reversed(On(LexCompare, PriorityText))(a, b) == LexCompare(PriorityText(b), PriorityText(a));
    assert FirstIf(AtIndexZero)(a, b) == (if AtIndexZero(a) then -1 else 1) - (if AtIndexZero(b) then -1 else 1);
    assert Descending(IdLength)(a, b) == IdLength(b) - IdLength(a) == |b.id| - |a.id|;
    assert Ascending(IndexOrZero)(a, b) == IndexOrZero(a) - IndexOrZero(b);
    assert tail(a, b) == if |b.id| - |a.id| != 0 then |b.id| - |a.id| else IndexOrZero(a) - IndexOrZero(b);
    assert zero(a, b) == if FirstIf(AtIndexZero)(a, b) != 0 then FirstIf(AtIndexZero)(a, b) else tail(a, b);
    assert prio(a, b) == if LexCompare(PriorityText(b), PriorityText(a)) != 0
      then LexCompare(PriorityText(b), PriorityText(a)) else zero(a, b);
  }

  /**
   * Wherever `compareAutolinks` is consistent — both links have an index
   * and not both are at index 0 — the corrected order decides every pair
   * the same way.
   */
  lemma RankOrderAgrees(a: Autolink, b: Autolink)
    requires a.index.Some? && b.index.Some?
    requires !(AtIndexZero(a) && AtIndexZero(b))
    ensures Sign(RankOrder()(a, b)) == Sign(CompareAutolinks(a, b))
  {
    RankOrderAt(a, b);
    if !HasPriority(a) && !HasPriority(b) {
      assert PriorityText(a) == [] == PriorityText(b);
    }
  }

  /** Under the corrected order a link with a longer prefix comes first. */
  lemma RankOrderPrefixFirst(a: Autolink, b: Autolink)
    ensures RankOrder()(a, b) <= 0 ==> |a.prefix| >= |b.prefix|
  {
    RankOrderAt(a, b);
  }

  /** The entry order of `[...autolinks.entries()].sort(...)`. */
  function EntryOrder(): (r: ((string, Autolink), (string, Autolink)) -> int)
    ensures IsComparator(r)
  {
    OnIsComparator(RankOrder(), (e: (string, Autolink)) => e.1);
    On(RankOrder(), (e: (string, Autolink)) => e.1)
  }

  /**
   * `new Map([...autolinks.entries()].sort((a, b) => compareAutolinks(a[1], b[1])))`
   * with the corrected order: the same entries, most relevant first.
   */
  method SortLinks(links: LinkMap) returns (sorted: LinkMap)
    ensures multiset(sorted.entries) == multiset(links.entries)
    ensures SortedBy(sorted.entries, EntryOrder())
  {
    var a := new (string, Autolink)[|links.entries|](i requires 0 <= i < |links.entries| => links.entries[i]);
    assert a[..] == links.entries;
    SortInPlace(a, EntryOrder());
    OrderedMaps.PermutationKeepsKeysDistinct(links.entries, a[..]);
    sorted := OrderedMaps.OrderedMap(a[..]);
  }

  /** After sorting, no link with a shorter prefix precedes one with a longer prefix. */
  lemma {:induction false} SortedPrefixesDescend(entries: seq<(string, Autolink)>)
    requires SortedBy(entries, EntryOrder())
    ensures forall i, j | 0 <= i < j < |entries| :: |entries[i].1.prefix| >= |entries[j].1.prefix|
  {
    forall i, j | 0 <= i < j < |entries| ensures |entries[i].1.prefix| >= |entries[j].1.prefix| {
      assert EntryOrder()(entries[i], entries[j]) == RankOrder()(entries[i].1, entries[j].1);
      RankOrderPrefixFirst(entries[i].1, entries[j].1);
    }
  }
}
