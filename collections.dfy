/**
 * Sequence helpers shared by the model: findIndex and splice on lists, and the
 * insertion order of a JavaScript Map, kept beside the map as a sequence of keys
 * (a `for...of` over `map.entries()` visits the keys in that order).
 */
module Collections {
  /** No element occurs twice. */
  predicate NoDup<T(==)>(s: seq<T>)
  {
    forall i, j :: 0 <= i < j < |s| ==> s[i] != s[j]
  }

  /**
   * The index of the first element satisfying f, or |s| when there is none
   * (Array.prototype.findIndex, whose -1 is |s| here).
   */
  function FirstMatch<T>(s: seq<T>, f: T -> bool): (i: nat)
    ensures i <= |s|
    ensures i < |s| ==> f(s[i])
    ensures forall j :: 0 <= j < i ==> !f(s[j])
  {
    if s == [] then 0
    else if f(s[0]) then 0
    else 1 + FirstMatch(s[1..], f)
  }

  /** An index with no match before it and a match at it (or none at all) is FirstMatch. */
  lemma {:induction false} FirstMatchIs<T>(s: seq<T>, f: T -> bool, i: nat)
    requires i <= |s| && (i < |s| ==> f(s[i])) && forall j :: 0 <= j < i ==> !f(s[j])
    ensures FirstMatch(s, f) == i
  {
    if s != [] && i > 0 {
      FirstMatchIs(s[1..], f, i - 1);
    }
  }

  /** `s.splice(i, 1)`: s without its i-th element, the others in order. */
  function RemoveAt<T>(s: seq<T>, i: nat): (r: seq<T>)
    requires i < |s|
    ensures |r| == |s| - 1
    ensures forall j :: 0 <= j < i ==> r[j] == s[j]
    ensures forall j :: i <= j < |r| ==> r[j] == s[j + 1]
  {
    s[..i] + s[i + 1..]
  }

  /** Removing one entry removes exactly one occurrence of it and keeps every other element. */
  lemma RemoveAtMultiset<T>(s: seq<T>, i: nat)
    requires i < |s|
    ensures multiset(RemoveAt(s, i)) == multiset(s) - multiset{s[i]}
  {
    assert s == s[..i] + [s[i]] + s[i + 1..];
  }

  /** order lists the keys of m, each once. */
  ghost predicate Tracks<K(!new), V>(m: map<K, V>, order: seq<K>)
  {
    NoDup(order) && forall k :: k in m <==> k in order
  }

  /** The key order after `map.set(k, …)`: a new key goes last, an existing key keeps its place. */
  function Append<K(==)>(order: seq<K>, k: K): (r: seq<K>)
    ensures k in r && (k in order ==> r == order) && (k !in order ==> r == order + [k])
  {
    if k in order then order else order + [k]
  }

  /** The key order after `map.delete(k)`. */
  function Without<K(==,!new)>(order: seq<K>, k: K): (r: seq<K>)
    ensures forall x :: x in r <==> x in order && x != k
    ensures k !in order ==> r == order
  {
    if order == [] then []
    else if order[0] == k then Without(order[1..], k)
    else [order[0]] + Without(order[1..], k)
  }

  lemma {:induction false} WithoutNoDup<K(!new)>(order: seq<K>, k: K)
    requires NoDup(order)
    ensures NoDup(Without(order, k))
  {
    if order != [] {
      assert NoDup(order[1..]) && order[0] !in order[1..];
      WithoutNoDup(order[1..], k);
      if order[0] != k {
        NoDupCons(order[0], Without(order[1..], k));
      }
    }
  }

  /**
   * Deleting a key that occurs once, at position i, is splicing out position i: the
   * remaining keys keep their relative order.
   */
  lemma {:induction false} WithoutAt<K(!new)>(order: seq<K>, i: nat)
    requires NoDup(order) && i < |order|
    ensures Without(order, order[i]) == RemoveAt(order, i)
  {
    assert NoDup(order[1..]) && order[0] !in order[1..];
    if i == 0 {
      assert RemoveAt(order, 0) == order[1..];
    } else {
      assert order[1..][i - 1] == order[i] && order[0] != order[i];
      WithoutAt(order[1..], i - 1);
      assert RemoveAt(order, i) == [order[0]] + RemoveAt(order[1..], i - 1);
    }
  }

  lemma NoDupCons<T>(x: T, s: seq<T>)
    requires NoDup(s) && x !in s
    ensures NoDup([x] + s)
  {
    var r := [x] + s;
    forall i, j | 0 <= i < j < |r| ensures r[i] != r[j] {
      if i > 0 {
        assert r[i] == s[i - 1] && r[j] == s[j - 1];
      } else {
        assert r[j] == s[j - 1];
      }
    }
  }

  lemma TracksSet<K(!new), V>(m: map<K, V>, order: seq<K>, k: K, v: V)
    requires Tracks(m, order)
    ensures Tracks(m[k := v], Append(order, k))
  {
    if k !in order {
      var r := order + [k];
      forall i, j | 0 <= i < j < |r| ensures r[i] != r[j] {
        if j == |order| {
          assert r[i] in order;
        }
      }
    }
  }

  lemma TracksDelete<K(!new), V>(m: map<K, V>, order: seq<K>, k: K)
    requires Tracks(m, order)
    ensures Tracks(m - {k}, Without(order, k))
  {
    WithoutNoDup(order, k);
  }

  /** Removing a key undoes setting it: a set followed by a delete of the same key. */
  lemma UpdateThenRemove<K, V>(m: map<K, V>, k: K, v: V)
    ensures m[k := v] - {k} == m - {k}
  {
    assert forall x :: x in m[k := v] - {k} <==> x in m - {k};
  }
}
