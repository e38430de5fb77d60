/** Queries over a collection kept in insertion order, as a document store answers them. */
module Seqs {
  import opened Common

  /** Index of the first element whose key is `k` (`findOne`/`findById`), if any. */
  function IndexOf<T, K(==)>(s: seq<T>, key: T -> K, k: K): (r: Option<nat>)
    ensures r.Some? ==> r.value < |s| && key(s[r.value]) == k
    ensures r.Some? ==> forall j :: 0 <= j < r.value ==> key(s[j]) != k
    ensures r.None? <==> forall j :: 0 <= j < |s| ==> key(s[j]) != k
    decreases |s|
  {
    if |s| == 0 then None
    else if key(s[0]) == k then Some(0)
    else
      match IndexOf(s[1..], key, k)
      case None => None
      case Some(i) => Some(i + 1)
  }

  /** The elements satisfying `p`, in their original order (`find` with a filter). */
  function Filter<T(!new)>(s: seq<T>, p: T -> bool): (r: seq<T>)
    ensures |r| <= |s|
    ensures forall x :: x in r <==> x in s && p(x)
    decreases |s|
  {
    if |s| == 0 then []
    else
      var rest := Filter(s[1..], p);
      assert s == [s[0]] + s[1..];
      if p(s[0]) then [s[0]] + rest else rest
  }

  /** `s` without its element at position `i` (`deleteOne` of a found document). */
  function RemoveAt<T>(s: seq<T>, i: nat): (r: seq<T>)
    requires i < |s|
    ensures |r| == |s| - 1
    ensures forall j :: 0 <= j < i ==> r[j] == s[j]
    ensures forall j :: i <= j < |r| ==> r[j] == s[j + 1]
  {
    s[..i] + s[i + 1..]
  }

  /** No two elements of `s` share a key (a unique index). */
  predicate DistinctKeys<T, K(==)>(s: seq<T>, key: T -> K) {
    forall i, j :: 0 <= i < j < |s| ==> key(s[i]) != key(s[j])
  }

  /** Under a unique index, the element found for a key is the only one with that key. */
  lemma IndexOfUnique<T, K>(s: seq<T>, key: T -> K, i: nat)
    requires DistinctKeys(s, key)
    requires i < |s|
    ensures IndexOf(s, key, key(s[i])) == Some(i)
  {
  }

  /** The first position holding a key is the one found for it. */
  lemma IndexOfFirst<T, K>(s: seq<T>, key: T -> K, i: nat)
    requires i < |s|
    requires forall j :: 0 <= j < i ==> key(s[j]) != key(s[i])
    ensures IndexOf(s, key, key(s[i])) == Some(i)
  {
    var r := IndexOf(s, key, key(s[i]));
    assert r.Some?;
  }

  /** Replacing an element by one with the same key does not change what a lookup finds. */
  lemma IndexOfUpdate<T, K>(s: seq<T>, key: T -> K, i: nat, x: T, k: K)
    requires i < |s| && key(x) == key(s[i])
    ensures IndexOf(s[i := x], key, k) == IndexOf(s, key, k)
  {
    var t := s[i := x];
    assert forall j :: 0 <= j < |s| ==> key(t[j]) == key(s[j]);
  }

  /** Appending an element whose key is new keeps the keys distinct. */
  lemma DistinctAppend<T, K>(s: seq<T>, key: T -> K, x: T)
    requires DistinctKeys(s, key)
    requires forall j :: 0 <= j < |s| ==> key(s[j]) != key(x)
    ensures DistinctKeys(s + [x], key)
  {
    var t := s + [x];
    forall i, j | 0 <= i < j < |t|
      ensures key(t[i]) != key(t[j])
    {
      if j < |s| {
        assert t[i] == s[i] && t[j] == s[j];
      } else {
        assert t[i] == s[i] && t[j] == x;
      }
    }
  }

  /** Replacing an element by one with the same key keeps the keys distinct. */
  lemma DistinctUpdate<T, K>(s: seq<T>, key: T -> K, i: nat, x: T)
    requires DistinctKeys(s, key)
    requires i < |s| && key(x) == key(s[i])
    ensures DistinctKeys(s[i := x], key)
  {
  }

  /** Removing an element keeps the keys distinct. */
  lemma DistinctRemove<T, K>(s: seq<T>, key: T -> K, i: nat)
    requires DistinctKeys(s, key)
    requires i < |s|
    ensures DistinctKeys(RemoveAt(s, i), key)
  {
    var t := RemoveAt(s, i);
    forall a, b | 0 <= a < b < |t|
      ensures key(t[a]) != key(t[b])
    {
      var a' := if a < i then a else a + 1;
      var b' := if b < i then b else b + 1;
      assert t[a] == s[a'] && t[b] == s[b'];
    }
  }

  /** Under a unique index, removing the element at `i` removes exactly the elements
      with its key. */
  lemma RemoveAtKey<T, K>(s: seq<T>, key: T -> K, i: nat)
    requires DistinctKeys(s, key)
    requires i < |s|
    ensures forall x :: x in RemoveAt(s, i) <==> x in s && key(x) != key(s[i])
  {
    var t := RemoveAt(s, i);
    forall x ensures x in t <==> x in s && key(x) != key(s[i]) {
      if x in s && key(x) != key(s[i]) {
        var j :| 0 <= j < |s| && s[j] == x;
        assert j != i;
        assert t[if j < i then j else j - 1] == x;
      }
      if x in t {
        var j :| 0 <= j < |t| && t[j] == x;
        var j' := if j < i then j else j + 1;
        assert x == s[j'] && j' != i;
      }
    }
  }

  /** Filtering keeps the input's order: an element added at the end comes out at the end,
      if it is kept at all. */
  lemma {:induction false} FilterSnoc<T(!new)>(s: seq<T>, p: T -> bool, x: T)
    ensures Filter(s + [x], p) == Filter(s, p) + (if p(x) then [x] else [])
    decreases |s|
  {
    if |s| == 0 {
      assert [x][1..] == [];
    } else {
      assert (s + [x])[1..] == s[1..] + [x];
      FilterSnoc(s[1..], p, x);
    }
  }

  /** Filtering keeps every kept element as often as it occurred and drops the others. */
  lemma {:induction false} FilterMultiset<T(!new)>(s: seq<T>, p: T -> bool, x: T)
    ensures multiset(Filter(s, p))[x] == if p(x) then multiset(s)[x] else 0
    decreases |s|
  {
    if |s| > 0 {
      assert s == [s[0]] + s[1..];
      FilterMultiset(s[1..], p, x);
    }
  }
}
