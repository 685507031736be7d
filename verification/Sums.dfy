/** Finite sums over maps, and the list idioms of the commons collections the simulator uses. */
module Sums {

  datatype Option<+T> = None | Some(value: T)

  /** `list_find`: the first index whose element satisfies the condition. */
  function Find<T>(s: seq<T>, p: T -> bool): (r: Option<nat>)
    ensures r.Some? ==> r.value < |s| && p(s[r.value]) && forall i :: 0 <= i < r.value ==> !p(s[i])
    ensures r.None? ==> forall i :: 0 <= i < |s| ==> !p(s[i])
  {
    if s == [] then None
    else if p(s[0]) then Some(0)
    else
      match Find(s[1..], p)
      case None => assert forall i :: 1 <= i < |s| ==> s[i] == s[1..][i - 1]; None
      case Some(i) => assert forall j :: 1 <= j < |s| ==> s[j] == s[1..][j - 1]; Some(i + 1)
  }

  /** The first index of a value. */
  function Position<T(==)>(s: seq<T>, x: T): (r: Option<nat>)
    ensures r.Some? ==> r.value < |s| && s[r.value] == x && x !in s[..r.value]
    ensures r.None? <==> x !in s
  {
    Find(s, (y: T) => y == x)
  }

  /** `list_remove`: the list without the element at an index. */
  function RemoveAt<T>(s: seq<T>, i: nat): (r: seq<T>)
    requires i < |s|
    ensures |r| == |s| - 1
    ensures forall j :: 0 <= j < |r| ==> r[j] == if j < i then s[j] else s[j + 1]
  {
    s[..i] + s[i + 1..]
  }

  /** Sum of all values of a map. */
  ghost function Sum<K>(m: map<K, int>): int
    decreases |m|
  {
    if m == map[] then 0 else var k :| k in m; m[k] + Sum(m - {k})
  }

  /** The sum does not depend on the order in which keys are taken out. */
  lemma {:induction false} SumMinus<K>(m: map<K, int>, k: K)
    requires k in m
    ensures Sum(m) == m[k] + Sum(m - {k})
    decreases |m|
  {
    var c :| c in m && Sum(m) == m[c] + Sum(m - {c});
    if c != k {
      SumMinus(m - {c}, k);
      SumMinus(m - {k}, c);
      assert m - {c} - {k} == m - {k} - {c};
    }
  }

  lemma SumUpdate<K>(m: map<K, int>, k: K, v: int)
    ensures Sum(m[k := v]) == v + (if k in m then Sum(m) - m[k] else Sum(m))
  {
    SumMinus(m[k := v], k);
    assert m[k := v] - {k} == m - {k};
    if k in m {
      SumMinus(m, k);
    } else {
      assert m - {k} == m;
    }
  }

  lemma {:induction false} SumZero<K>(m: map<K, int>)
    requires forall k :: k in m ==> m[k] == 0
    ensures Sum(m) == 0
    decreases |m|
  {
    if m != map[] {
      var k :| k in m;
      SumMinus(m, k);
      SumZero(m - {k});
    }
  }

  lemma SumStep<K>(m: map<K, int>, m': map<K, int>, x: K)
    requires x in m && m'.Keys == m.Keys && forall k :: k in m ==> m'[k] == m[k] + if k == x then 1 else 0
    ensures Sum(m') == Sum(m) + 1
  {
    SumUpdate(m, x, m[x] + 1);
    assert m' == m[x := m[x] + 1];
  }

  lemma CountLast<K>(s: seq<K>, x: K)
    ensures forall k :: multiset(s + [x])[k] == multiset(s)[k] + if k == x then 1 else 0
  {
  }

  /** Counting a list key by key gives its length, when every element is a key. */
  lemma {:induction false} SumOfCounts<K>(keys: set<K>, q: seq<K>)
    requires forall x :: x in q ==> x in keys
    ensures Sum(map k | k in keys :: multiset(q)[k]) == |q|
  {
    var m := map k | k in keys :: multiset(q)[k];
    if q == [] {
      SumZero(m);
    } else {
      var last, rest := q[|q| - 1], q[..|q| - 1];
      assert q == rest + [last] && last in q;
      SumOfCounts(keys, rest);
      var m' := map k | k in keys :: multiset(rest)[k];
      CountLast(rest, last);
      SumStep(m', m, last);
    }
  }
}
