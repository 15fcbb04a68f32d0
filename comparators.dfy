/**
 * Comparator functions in the JavaScript sense: a comparator returns a
 * negative number when its first argument sorts first, a positive number
 * when its second argument sorts first and zero for a tie.  The orderings of
 * the sorting utilities are chains `k1 || k2 || ...` of such comparators;
 * this module gives the pieces those chains are built from, the law every
 * piece obeys (a total preorder), and an in-place sort proved against it.
 */
module Comparators {

  function Sign(x: int): int {
    if x < 0 then -1 else if x > 0 then 1 else 0
  }

  /**
   * A consistent comparator: swapping the arguments flips the sign, and
   * "sorts no later than" is transitive.  Together these make
   * `cmp(a, b) <= 0` a total preorder, which is what `Array.prototype.sort`
   * needs for its result to be specified.
   */
  ghost predicate IsComparator<T(!new)>(cmp: (T, T) -> int) {
    Antisymmetric(cmp) && Transitive(cmp)
  }

  ghost predicate Antisymmetric<T(!new)>(cmp: (T, T) -> int) {
    forall a, b :: Sign(cmp(a, b)) == -Sign(cmp(b, a))
  }

  ghost predicate Transitive<T(!new)>(cmp: (T, T) -> int) {
    forall a, b, c :: cmp(a, b) <= 0 && cmp(b, c) <= 0 ==> cmp(a, c) <= 0
  }

  /** `(a, b) => cmp(f(a), f(b))`: compare by a projected key. */
  function On<T, U>(cmp: (U, U) -> int, f: T -> U): (T, T) -> int {
    (a: T, b: T) => cmp(f(a), f(b))
  }

  /** `(a, b) => f(a) - f(b)`: ascending by an integer key. */
  function Ascending<T>(f: T -> int): (T, T) -> int {
    (a: T, b: T) => f(a) - f(b)
  }

  /** `(a, b) => f(b) - f(a)`: descending by an integer key. */
  function Descending<T>(f: T -> int): (T, T) -> int {
    (a: T, b: T) => f(b) - f(a)
  }

  /** `(a, b) => (p(a) ? -1 : 1) - (p(b) ? -1 : 1)`: elements satisfying `p` first. */
  function FirstIf<T>(p: T -> bool): (T, T) -> int {
    (a: T, b: T) => (if p(a) then -1 else 1) - (if p(b) then -1 else 1)
  }

  /** `(a, b) => cmp(b, a)`: the reversed order. */
  function Reversed<T>(cmp: (T, T) -> int): (T, T) -> int {
    (a: T, b: T) => cmp(b, a)
  }

  /** `(a, b) => (cond ? cmp(a, b) : 0)`: a tie-break that an option can switch off. */
  function When<T>(cond: bool, cmp: (T, T) -> int): (T, T) -> int {
    (a: T, b: T) => if cond then cmp(a, b) else 0
  }

  /**
   * `(a, b) => first(a, b) || next(a, b)`: one link of a tie-break chain
   * (JavaScript `||` on numbers keeps its left operand unless that is zero).
   */
  function Then<T>(first: (T, T) -> int, next: (T, T) -> int): (T, T) -> int {
    (a: T, b: T) => if first(a, b) != 0 then first(a, b) else next(a, b)
  }

  lemma AscendingIsComparator<T(!new)>(f: T -> int)
    ensures IsComparator(Ascending(f))
  {
  }

  lemma DescendingIsComparator<T(!new)>(f: T -> int)
    ensures IsComparator(Descending(f))
  {
  }

  lemma FirstIfIsComparator<T(!new)>(p: T -> bool)
    ensures IsComparator(FirstIf(p))
  {
  }

  lemma OnIsComparator<T(!new), U(!new)>(cmp: (U, U) -> int, f: T -> U)
    ensures IsComparator(cmp) ==> IsComparator(On(cmp, f))
  {
    if IsComparator(cmp) {
      var c := On(cmp, f);
      forall a, b ensures Sign(c(a, b)) == -Sign(c(b, a)) {
        assert c(a, b) == cmp(f(a), f(b)) && c(b, a) == cmp(f(b), f(a));
      }
      forall a, b, x | c(a, b) <= 0 && c(b, x) <= 0 ensures c(a, x) <= 0 {
        assert cmp(f(a), f(b)) <= 0 && cmp(f(b), f(x)) <= 0;
      }
    }
  }

  lemma ReversedIsComparator<T(!new)>(cmp: (T, T) -> int)
    ensures IsComparator(cmp) ==> IsComparator(Reversed(cmp))
  {
    if IsComparator(cmp) {
      var c := Reversed(cmp);
      forall a, b ensures Sign(c(a, b)) == -Sign(c(b, a)) {
        assert c(a, b) == cmp(b, a) && c(b, a) == cmp(a, b);
      }
      forall a, b, x | c(a, b) <= 0 && c(b, x) <= 0 ensures c(a, x) <= 0 {
        assert cmp(x, b) <= 0 && cmp(b, a) <= 0;
      }
    }
  }

  lemma WhenIsComparator<T(!new)>(cond: bool, cmp: (T, T) -> int)
    ensures (cond ==> IsComparator(cmp)) ==> IsComparator(When(cond, cmp))
  {
    var c := When(cond, cmp);
    if cond && IsComparator(cmp) {
      forall a, b ensures Sign(c(a, b)) == -Sign(c(b, a)) {
        assert c(a, b) == cmp(a, b) && c(b, a) == cmp(b, a);
      }
      forall a, b, x | c(a, b) <= 0 && c(b, x) <= 0 ensures c(a, x) <= 0 {
        assert cmp(a, b) <= 0 && cmp(b, x) <= 0;
      }
    }
  }

  /**
   * A tie-break chain of consistent comparators is consistent.  The only
   * delicate case of transitivity is `first(a, c) == 0`: then `first` ties
   * `a` with `b` and `b` with `c` too, and `next` decides all three pairs.
   */
  lemma ThenIsComparator<T(!new)>(first: (T, T) -> int, next: (T, T) -> int)
    ensures IsComparator(first) && IsComparator(next) ==> IsComparator(Then(first, next))
  {
    if IsComparator(first) && IsComparator(next) {
      var c := Then(first, next);
      forall a, b ensures Sign(c(a, b)) == -Sign(c(b, a)) {
        assert Sign(first(a, b)) == -Sign(first(b, a));
        assert Sign(next(a, b)) == -Sign(next(b, a));
      }
      forall a, b, x | c(a, b) <= 0 && c(b, x) <= 0 ensures c(a, x) <= 0 {
        assert first(a, b) <= 0 && first(b, x) <= 0;
        assert first(a, x) <= 0;
        if first(a, x) == 0 {
          assert first(a, b) == 0 && first(b, x) == 0;
          assert next(a, b) <= 0 && next(b, x) <= 0;
        }
      }
    }
  }

  /** `cmp` orders `s`: every element sorts no later than every element after it. */
  ghost predicate SortedBy<T>(s: seq<T>, cmp: (T, T) -> int) {
    forall i, j :: 0 <= i < j < |s| ==> cmp(s[i], s[j]) <= 0
  }

  /** Each element of `s[..n]` sorts no later than its right neighbour. */
  ghost predicate NeighboursSorted<T>(s: seq<T>, n: nat, cmp: (T, T) -> int)
    requires n <= |s|
  {
    forall p :: 0 <= p && p + 1 < n ==> cmp(s[p], s[p + 1]) <= 0
  }

  /** Neighbour order gives the full order, by transitivity. */
  lemma {:induction false} NeighboursSortedIsSorted<T(!new)>(s: seq<T>, cmp: (T, T) -> int)
    requires IsComparator(cmp)
    requires NeighboursSorted(s, |s|, cmp)
    ensures SortedBy(s, cmp)
  {
    if |s| > 1 {
      var t := s[..|s| - 1];
      assert NeighboursSorted(t, |t|, cmp) by {
        forall p | 0 <= p && p + 1 < |t| ensures cmp(t[p], t[p + 1]) <= 0 {
          assert t[p] == s[p] && t[p + 1] == s[p + 1];
        }
      }
      NeighboursSortedIsSorted(t, cmp);
      forall i, j | 0 <= i < j < |s| ensures cmp(s[i], s[j]) <= 0 {
        if j < |s| - 1 {
          assert t[i] == s[i] && t[j] == s[j];
        } else if i < j - 1 {
          assert t[i] == s[i] && t[j - 1] == s[j - 1];
          assert cmp(s[i], s[j - 1]) <= 0;
        }
      }
    }
  }

  /**
   * The state of insertion while the element at `j` travels left inside
   * `s[..n]`: every neighbour pair not touching `j` is ordered, the two
   * neighbours of `j` are ordered with each other, and `s[j]` sorts no later
   * than its right neighbour.
   */
  ghost predicate Inserting<T>(s: seq<T>, n: nat, j: nat, cmp: (T, T) -> int)
    requires j < n <= |s|
  {
    && (forall p :: 0 <= p && p + 1 < n && p + 1 != j && p != j ==> cmp(s[p], s[p + 1]) <= 0)
    && (0 < j && j + 1 < n ==> cmp(s[j - 1], s[j + 1]) <= 0)
    && (j + 1 < n ==> cmp(s[j], s[j + 1]) <= 0)
  }

  /** Swapping two neighbours keeps the same elements. */
  lemma SwapKeepsElements<T>(s: seq<T>, j: nat)
    requires 0 < j < |s|
    ensures multiset(s[j - 1 := s[j]][j := s[j - 1]]) == multiset(s)
  {
    var t := s[j - 1 := s[j]][j := s[j - 1]];
    assert s == s[..j - 1] + [s[j - 1], s[j]] + s[j + 1..];
    assert t == s[..j - 1] + [s[j], s[j - 1]] + s[j + 1..];
  }

  /** One step of insertion: swapping `s[j - 1]` and `s[j]` keeps the insertion state at `j - 1`. */
  lemma SwapStep<T(!new)>(s: seq<T>, n: nat, j: nat, cmp: (T, T) -> int)
    requires Antisymmetric(cmp)
    requires 0 < j < n <= |s|
    requires Inserting(s, n, j, cmp)
    requires cmp(s[j - 1], s[j]) > 0
    ensures Inserting(s[j - 1 := s[j]][j := s[j - 1]], n, j - 1, cmp)
    ensures multiset(s[j - 1 := s[j]][j := s[j - 1]]) == multiset(s)
  {
    assert Sign(cmp(s[j], s[j - 1])) == -Sign(cmp(s[j - 1], s[j]));
    SwapKeepsElements(s, j);
  }

  /** Insertion starts with the new element at the end of an ordered prefix. */
  lemma StartInsertion<T>(s: seq<T>, i: nat, cmp: (T, T) -> int)
    requires i < |s| && NeighboursSorted(s, i, cmp)
    ensures Inserting(s, i + 1, i, cmp)
  {
  }

  /** Insertion stops at the front or below a left neighbour that sorts no later: `s[..n]` is ordered. */
  lemma InsertionDone<T>(s: seq<T>, n: nat, j: nat, cmp: (T, T) -> int)
    requires j < n <= |s| && Inserting(s, n, j, cmp)
    requires j == 0 || cmp(s[j - 1], s[j]) <= 0
    ensures NeighboursSorted(s, n, cmp)
  {
  }

  /** Exchanges `a[j - 1]` and `a[j]`. */
  method SwapWithLeft<T>(a: array<T>, j: nat)
    requires 0 < j < a.Length
    modifies a
    ensures a[..] == old(a[..])[j - 1 := old(a[j])][j := old(a[j - 1])]
  {
    a[j - 1], a[j] := a[j], a[j - 1];
  }

  /** Moves `a[i]` left past every element that sorts strictly after it, so that `a[..i + 1]` is ordered. */
  method Insert<T(!new)>(a: array<T>, i: nat, cmp: (T, T) -> int)
    requires Antisymmetric(cmp)
    requires i < a.Length && NeighboursSorted(a[..], i, cmp)
    modifies a
    ensures NeighboursSorted(a[..], i + 1, cmp)
    ensures multiset(a[..]) == multiset(old(a[..]))
  {
    var j := i;
    ghost var elements := multiset(a[..]);
    StartInsertion(a[..], i, cmp);
    while 0 < j && cmp(a[j - 1], a[j]) > 0
      invariant 0 <= j <= i
      invariant Inserting(a[..], i + 1, j, cmp)
      invariant multiset(a[..]) == elements
    {
      ghost var s := a[..];
      SwapStep(s, i + 1, j, cmp);
      SwapWithLeft(a, j);
      j := j - 1;
    }
    InsertionDone(a[..], i + 1, j, cmp);
  }

  /**
   * `Array.prototype.sort(cmp)` on a consistent comparator: afterwards the
   * array is ordered by `cmp` and holds the same elements as before.
   * (Insertion sort stands in for the engine's own algorithm.)
   */
  method SortInPlace<T(!new)>(a: array<T>, cmp: (T, T) -> int)
    requires IsComparator(cmp)
    modifies a
    ensures SortedBy(a[..], cmp)
    ensures multiset(a[..]) == multiset(old(a[..]))
  {
    var i := 0;
    while i < a.Length
      invariant 0 <= i <= a.Length
      invariant NeighboursSorted(a[..], i, cmp)
      invariant multiset(a[..]) == multiset(old(a[..]))
    {
      Insert(a, i, cmp);
      i := i + 1;
    }
    NeighboursSortedIsSorted(a[..], cmp);
  }
}
