/** Small building blocks shared by every component: options, two-part keys,
    duplicate-free sequences, and sums over finite maps. */
module Basics {

  datatype Option<+T> = None | Some(value: T)

  /** A pair used both for (message id, recipient) and for (sender, client id). */
  datatype Key = Key(outer: string, inner: string)

  ghost predicate NoDup<T>(s: seq<T>) {
    forall i, j :: 0 <= i < j < |s| ==> s[i] != s[j]
  }

  ghost function Elems<T>(s: seq<T>): set<T> {
    set x | x in s
  }

  lemma {:induction false} ElemsSize<T>(s: seq<T>)
    requires NoDup(s)
    ensures |Elems(s)| == |s|
    decreases |s|
  {
    if s != [] {
      var n := |s| - 1;
      assert s == s[..n] + [s[n]];
      ElemsSize(s[..n]);
      assert Elems(s) == Elems(s[..n]) + {s[n]};
    }
  }

  /** `x` occurs in `xs`, and `y` does not occur before it. */
  ghost predicate Before<T>(xs: seq<T>, x: T, y: T) {
    exists i :: 0 <= i < |xs| && xs[i] == x && y !in xs[..i]
  }

  /** `out` lists elements of `xs` in the order in which they first appear. */
  ghost predicate AsAppearing<T>(xs: seq<T>, out: seq<T>) {
    NoDup(out) && forall i, j :: 0 <= i < j < |out| ==> Before(xs, out[i], out[j])
  }

  lemma Appears<T>(xs: seq<T>, x: T, y: T)
    requires x in xs && y !in xs
    ensures Before(xs, x, y)
  {
    var i :| 0 <= i < |xs| && xs[i] == x;
  }

  lemma BeforeSnoc<T>(xs: seq<T>, last: T, x: T, y: T)
    requires Before(xs, x, y)
    ensures Before(xs + [last], x, y)
  {
    var i :| 0 <= i < |xs| && xs[i] == x && y !in xs[..i];
    assert (xs + [last])[..i] == xs[..i];
  }

  lemma BeforeCons<T>(first: T, xs: seq<T>, x: T, y: T)
    requires Before(xs, x, y) && y != first
    ensures Before([first] + xs, x, y)
  {
    var i :| 0 <= i < |xs| && xs[i] == x && y !in xs[..i];
    assert ([first] + xs)[..i + 1] == [first] + xs[..i];
    assert ([first] + xs)[i + 1] == x;
  }

  lemma AppearingSnoc<T>(xs: seq<T>, out: seq<T>, last: T)
    requires AsAppearing(xs, out)
    ensures AsAppearing(xs + [last], out)
    ensures last !in xs && (forall x :: x in out ==> x in xs) ==> AsAppearing(xs + [last], out + [last])
  {
    forall i, j | 0 <= i < j < |out| ensures Before(xs + [last], out[i], out[j]) {
      BeforeSnoc(xs, last, out[i], out[j]);
    }
    if last !in xs && forall x :: x in out ==> x in xs {
      forall i | 0 <= i < |out| ensures Before(xs + [last], out[i], last) {
        Appears(xs, out[i], last);
        BeforeSnoc(xs, last, out[i], last);
      }
    }
  }

  ghost function Pairs<V>(d: map<string, map<string, V>>): (r: set<Key>)
    ensures forall k: Key :: k in r <==> k.outer in d && k.inner in d[k.outer]
  {
    set a, b | a in d && b in d[a] :: Key(a, b)
  }

  /** The nested Go map `map[string]map[string]V` seen as one map on pairs. */
  ghost function Flat<V>(d: map<string, map<string, V>>): (r: map<Key, V>)
    ensures forall k: Key :: k in r <==> k.outer in d && k.inner in d[k.outer]
  {
    map k | k in Pairs(d) :: d[k.outer][k.inner]
  }

  /** Storing into an inner map, creating it when it is absent. */
  function Put<V>(d: map<string, map<string, V>>, a: string, b: string, v: V): map<string, map<string, V>> {
    d[a := (if a in d then d[a] else map[])[b := v]]
  }

  lemma PutFlat<V>(d: map<string, map<string, V>>, a: string, b: string, v: V)
    ensures Flat(Put(d, a, b, v)) == Flat(d)[Key(a, b) := v]
  {
    var e, f := Flat(Put(d, a, b, v)), Flat(d)[Key(a, b) := v];
    forall k: Key
      ensures k in e <==> k in f
      ensures k in e && k in f ==> e[k] == f[k]
    {
      if k.outer == a { assert k == Key(a, k.inner); }
    }
  }

  ghost function Sum<K(!new)>(m: map<K, nat>): nat
    decreases |m|
  {
    if m == map[] then 0 else var k :| k in m; m[k] + Sum(m - {k})
  }

  lemma {:induction false} SumPick<K(!new)>(m: map<K, nat>, k: K)
    requires k in m
    ensures Sum(m) == m[k] + Sum(m - {k})
    decreases |m|
  {
    var j :| j in m && Sum(m) == m[j] + Sum(m - {j});
    if j != k {
      SumPick(m - {j}, k);
      SumPick(m - {k}, j);
      assert m - {j} - {k} == m - {k} - {j};
    }
  }

  /** Lowering values, and some of them strictly, lowers the sum by at least their number. */
  lemma {:induction false} SumDrop<K(!new)>(m: map<K, nat>, n: map<K, nat>, ks: set<K>)
    requires n.Keys == m.Keys && ks <= m.Keys
    requires forall k :: k in m ==> n[k] <= m[k]
    requires forall k :: k in ks ==> n[k] < m[k]
    ensures Sum(n) + |ks| <= Sum(m)
    decreases |m|
  {
    if m == map[] {
      assert ks == {} && n == map[];
    } else {
      var k :| k in m;
      SumPick(m, k);
      SumPick(n, k);
      SumDrop(m - {k}, n - {k}, ks - {k});
      assert |ks| <= |ks - {k}| + if k in ks then 1 else 0;
    }
  }
}
