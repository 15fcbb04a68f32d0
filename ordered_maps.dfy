/**
 * A JavaScript `Map` as a value: its entries in insertion order, with
 * distinct keys.  `set` on a present key replaces the value where it stands,
 * `set` on a new key appends, `delete` removes the entry and keeps the order
 * of the others.
 */
module OrderedMaps {
  import opened Wrappers

  predicate DistinctKeys<K(==), V>(entries: seq<(K, V)>) {
    forall i, j | 0 <= i < j < |entries| :: entries[i].0 != entries[j].0
  }

  datatype OrderedMap<K, V> = OrderedMap(entries: seq<(K, V)>)

  /** The maps a `Map` object can hold. */
  type Map<K(==), V> = m: OrderedMap<K, V> | DistinctKeys(m.entries) witness OrderedMap([])

  function Empty<K(==), V>(): (m: Map<K, V>)
    ensures |m.entries| == 0
  {
    OrderedMap([])
  }

  function Keys<K(==), V>(m: Map<K, V>): (ks: seq<K>)
    ensures |ks| == |m.entries| && forall i | 0 <= i < |ks| :: ks[i] == m.entries[i].0
  {
    seq(|m.entries|, i requires 0 <= i < |m.entries| => m.entries[i].0)
  }

  /** The position of the entry for `k`, if any. */
  function IndexOf<K(==,!new), V>(entries: seq<(K, V)>, k: K): (r: Option<nat>)
    ensures r.Some? ==> r.value < |entries| && entries[r.value].0 == k
    ensures r.Some? ==> forall i | 0 <= i < r.value :: entries[i].0 != k
    ensures r.None? <==> forall i | 0 <= i < |entries| :: entries[i].0 != k
  {
    if |entries| == 0 then None
    else if entries[0].0 == k then Some(0)
    else match IndexOf(entries[1..], k)
      case None => None
      case Some(i) => Some(i + 1)
  }

  /** `map.get(k)` */
  function Get<K(==,!new), V>(m: Map<K, V>, k: K): (r: Option<V>)
    ensures forall i | 0 <= i < |m.entries| && m.entries[i].0 == k :: r == Some(m.entries[i].1)
    ensures (forall i | 0 <= i < |m.entries| :: m.entries[i].0 != k) ==> r == None
  {
    match IndexOf(m.entries, k)
    case None => None
    case Some(i) => Some(m.entries[i].1)
  }

  /** Lookups in two entry lists whose keys sit at the same positions agree on positions. */
  lemma SameKeysSameIndex<K(!new), V>(s: seq<(K, V)>, t: seq<(K, V)>)
    requires |s| == |t| && forall j | 0 <= j < |s| :: s[j].0 == t[j].0
    ensures forall k :: IndexOf(s, k) == IndexOf(t, k)
  {
    forall k ensures IndexOf(s, k) == IndexOf(t, k) {
      var a, b := IndexOf(s, k), IndexOf(t, k);
      if a.Some? {
        assert t[a.value].0 == k;
      }
      if b.Some? {
        assert s[b.value].0 == k;
      }
    }
  }

  lemma AppendIndex<K(!new), V>(s: seq<(K, V)>, e: (K, V))
    ensures forall k :: (IndexOf(s + [e], k) ==
      if IndexOf(s, k).Some? then IndexOf(s, k) else if e.0 == k then Some(|s|) else None)
  {
    var t := s + [e];
    forall k ensures IndexOf(t, k) == if IndexOf(s, k).Some? then IndexOf(s, k) else if e.0 == k then Some(|s|) else None {
      var a := IndexOf(s, k);
      if a.Some? {
        assert t[a.value] == s[a.value];
      } else if e.0 == k {
        assert t[|s|] == e;
      } else {
        assert forall j | 0 <= j < |t| :: t[j] == if j < |s| then s[j] else e;
      }
    }
  }

  /** `map.set(k, v)` */
  function Set<K(==,!new), V>(m: Map<K, V>, k: K, v: V): (r: Map<K, V>)
    ensures Get(r, k) == Some(v)
    ensures forall k' | k' != k :: Get(r, k') == Get(m, k')
    ensures Get(m, k).Some? ==> Keys(r) == Keys(m)
    ensures Get(m, k).None? ==> Keys(r) == Keys(m) + [k]
  {
    match IndexOf(m.entries, k)
    case Some(i) =>
      var t := m.entries[i := (k, v)];
      SameKeysSameIndex(m.entries, t);
      var r := OrderedMap(t);
      assert Keys(r) == Keys(m);
      r
    case None =>
      var t := m.entries + [(k, v)];
      AppendIndex(m.entries, (k, v));
      var r := OrderedMap(t);
      assert Keys(r) == Keys(m) + [k];
      r
  }

  lemma RemoveIndex<K(!new), V>(s: seq<(K, V)>, i: nat)
    requires i < |s| && DistinctKeys(s)
    ensures var t := s[..i] + s[i + 1..];
      && DistinctKeys(t)
      && IndexOf(t, s[i].0).None?
      && (forall k | k != s[i].0 && IndexOf(s, k).Some? ::
            IndexOf(t, k).Some? && t[IndexOf(t, k).value] == s[IndexOf(s, k).value])
      && (forall k | k != s[i].0 && IndexOf(s, k).None? :: IndexOf(t, k).None?)
  {
    var t := s[..i] + s[i + 1..];
    assert forall j | 0 <= j < |t| :: t[j] == s[if j < i then j else j + 1];
    assert DistinctKeys(t) by {
      forall a, b | 0 <= a < b < |t| ensures t[a].0 != t[b].0 {
        assert t[a] == s[if a < i then a else a + 1] && t[b] == s[if b < i then b else b + 1];
      }
    }
    forall k | k != s[i].0 && IndexOf(s, k).Some?
      ensures IndexOf(t, k).Some? && t[IndexOf(t, k).value] == s[IndexOf(s, k).value]
    {
      var a := IndexOf(s, k).value;
      var j := if a < i then a else a - 1;
      assert t[j] == s[a];
    }
    forall k | k != s[i].0 && IndexOf(s, k).None? ensures IndexOf(t, k).None? {
    }
  }

  /** `map.delete(k)` */
  function Delete<K(==,!new), V>(m: Map<K, V>, k: K): (r: Map<K, V>)
    ensures Get(r, k) == None
    ensures forall k' | k' != k :: Get(r, k') == Get(m, k')
    ensures Get(m, k).None? ==> r == m
    ensures Get(m, k).Some? ==> |r.entries| == |m.entries| - 1
  {
    match IndexOf(m.entries, k)
    case None => m
    case Some(i) =>
      RemoveIndex(m.entries, i);
      OrderedMap(m.entries[..i] + m.entries[i + 1..])
  }

  /** Deleting twice is deleting once. */
  lemma DeleteIdempotent<K(!new), V>(m: Map<K, V>, k: K)
    ensures Delete(Delete(m, k), k) == Delete(m, k)
  {
  }

  // --------------------------------------------------------- permutations

  lemma {:induction false} DistinctKeysCountOne<K, V>(s: seq<(K, V)>, x: (K, V))
    requires DistinctKeys(s)
    ensures multiset(s)[x] <= 1
  {
    if |s| > 0 {
      assert s == [s[0]] + s[1..];
      assert DistinctKeys(s[1..]) by {
        forall i, j | 0 <= i < j < |s[1..]| ensures s[1..][i].0 != s[1..][j].0 {
          assert s[1..][i] == s[i + 1] && s[1..][j] == s[j + 1];
        }
      }
      DistinctKeysCountOne(s[1..], x);
      if x == s[0] {
        forall i | 0 <= i < |s[1..]| ensures s[1..][i] != x {
          assert s[1..][i] == s[i + 1];
        }
        assert x !in multiset(s[1..]);
      }
    }
  }

  lemma RepeatCountsTwice<T>(t: seq<T>, i: nat, j: nat)
    requires i < j < |t| && t[i] == t[j]
    ensures multiset(t)[t[i]] >= 2
  {
    assert t == t[..j] + t[j..];
    assert t[i] in t[..j] && t[j] in t[j..];
  }

  /** Reordering the entries of a map keeps its keys distinct. */
  lemma PermutationKeepsKeysDistinct<K, V>(s: seq<(K, V)>, t: seq<(K, V)>)
    requires DistinctKeys(s) && multiset(s) == multiset(t)
    ensures DistinctKeys(t)
  {
    forall i, j | 0 <= i < j < |t| ensures t[i].0 != t[j].0 {
      if t[i] == t[j] {
        RepeatCountsTwice(t, i, j);
        DistinctKeysCountOne(s, t[i]);
      } else {
        assert t[i] in multiset(s) && t[j] in multiset(s);
        var p :| 0 <= p < |s| && s[p] == t[i];
        var q :| 0 <= q < |s| && s[q] == t[j];
        assert p != q;
      }
    }
  }
}
