/** Result and option types, and finite sums over maps and bags, shared by every module. */
module Prelude {

  datatype Option<+T> = None | Some(value: T)

  datatype Error =
    | InvalidAmount | AmountOverflow | Unbalanced | Validation
    | InsufficientBalance | NegativeBalance | InvalidStateTransition
    | NotFound | Conflict | IdempotencyKeyConflict | PolicyDenied | Internal | Rpc

  datatype Result<+T> = Ok(value: T) | Err(error: Error)

  /** Sum of `f` over the rows of a table. */
  ghost function SumMap<K, V>(m: map<K, V>, f: (K, V) -> int): int {
    if m == map[] then 0
    else
      var k :| k in m;
      f(k, m[k]) + SumMap(m - {k}, f)
  }

  lemma {:induction false} SumMapRemove<K, V>(m: map<K, V>, f: (K, V) -> int, k: K)
    requires k in m
    ensures SumMap(m, f) == f(k, m[k]) + SumMap(m - {k}, f)
    decreases |m|
  {
    var x :| x in m && SumMap(m, f) == f(x, m[x]) + SumMap(m - {x}, f);
    if x != k {
      SumMapRemove(m - {x}, f, k);
      SumMapRemove(m - {k}, f, x);
      assert m - {x} - {k} == m - {k} - {x};
    }
  }

  /** Writing one row changes a sum by exactly that row's change. */
  lemma SumMapUpdate<K, V>(m: map<K, V>, f: (K, V) -> int, k: K, v: V)
    ensures SumMap(m[k := v], f) == SumMap(m, f) - (if k in m then f(k, m[k]) else 0) + f(k, v)
  {
    SumMapRemove(m[k := v], f, k);
    assert m[k := v] - {k} == m - {k};
    if k in m {
      SumMapRemove(m, f, k);
    } else {
      assert m - {k} == m;
    }
  }

  lemma {:induction false} SumMapZero<K, V>(m: map<K, V>, f: (K, V) -> int)
    requires forall k :: k in m ==> f(k, m[k]) == 0
    ensures SumMap(m, f) == 0
    decreases |m|
  {
    if m != map[] {
      var k :| k in m;
      SumMapRemove(m, f, k);
      SumMapZero(m - {k}, f);
    }
  }

  lemma {:induction false} SumMapNonNegative<K, V>(m: map<K, V>, f: (K, V) -> int)
    requires forall k :: k in m ==> f(k, m[k]) >= 0
    ensures SumMap(m, f) >= 0
    decreases |m|
  {
    if m != map[] {
      var k :| k in m;
      SumMapRemove(m, f, k);
      SumMapNonNegative(m - {k}, f);
    }
  }

  lemma {:induction false} SumMapLe<K, V>(m: map<K, V>, f: (K, V) -> int, g: (K, V) -> int)
    requires forall k :: k in m ==> f(k, m[k]) <= g(k, m[k])
    ensures SumMap(m, f) <= SumMap(m, g)
    decreases |m|
  {
    if m != map[] {
      var k :| k in m;
      SumMapRemove(m, f, k);
      SumMapRemove(m, g, k);
      SumMapLe(m - {k}, f, g);
    }
  }

  /** Rewriting rows changes a sum by the sum of the changes. */
  lemma {:induction false} SumMapChange<K, V>(m: map<K, V>, m': map<K, V>, f: (K, V) -> int, g: (K, V) -> int)
    requires m'.Keys == m.Keys && forall k :: k in m ==> f(k, m'[k]) == f(k, m[k]) - g(k, m[k])
    ensures SumMap(m', f) == SumMap(m, f) - SumMap(m, g)
    decreases |m|
  {
    if m == map[] {
      assert m' == map[];
    } else {
      var k :| k in m;
      SumMapRemove(m, f, k);
      SumMapRemove(m', f, k);
      SumMapRemove(m, g, k);
      SumMapChange(m - {k}, m' - {k}, f, g);
    }
  }

  /** Two tables whose rows count alike have the same sum. */
  lemma {:induction false} SumMapSame<K, V, W>(m: map<K, V>, n: map<K, W>, f: (K, V) -> int, g: (K, W) -> int)
    requires n.Keys == m.Keys && forall k :: k in m ==> f(k, m[k]) == g(k, n[k])
    ensures SumMap(m, f) == SumMap(n, g)
    decreases |m|
  {
    if m == map[] {
      assert n == map[];
    } else {
      var k :| k in m;
      SumMapRemove(m, f, k);
      SumMapRemove(n, g, k);
      SumMapSame(m - {k}, n - {k}, f, g);
    }
  }

  lemma {:induction false} SumMapShrinks<K, V>(m: map<K, V>, m': map<K, V>, f: (K, V) -> int)
    requires m'.Keys == m.Keys && forall k :: k in m ==> f(k, m'[k]) <= f(k, m[k])
    ensures SumMap(m', f) <= SumMap(m, f)
    decreases |m|
  {
    if m == map[] {
      assert m' == map[];
    } else {
      var k :| k in m;
      SumMapRemove(m, f, k);
      SumMapRemove(m', f, k);
      SumMapShrinks(m - {k}, m' - {k}, f);
    }
  }

  lemma {:induction false} SumMapAdd<K, V>(m: map<K, V>, f: (K, V) -> int, g: (K, V) -> int, h: (K, V) -> int)
    requires forall k :: k in m ==> f(k, m[k]) == g(k, m[k]) + h(k, m[k])
    ensures SumMap(m, f) == SumMap(m, g) + SumMap(m, h)
    decreases |m|
  {
    if m != map[] {
      var k :| k in m;
      SumMapRemove(m, f, k);
      SumMapRemove(m, g, k);
      SumMapRemove(m, h, k);
      SumMapAdd(m - {k}, f, g, h);
    }
  }

  /** One row of a sum of non-negative rows is at most the whole sum. */
  lemma SumMapAtLeast<K, V>(m: map<K, V>, f: (K, V) -> int, k: K)
    requires k in m
    requires forall j :: j in m ==> f(j, m[j]) >= 0
    ensures f(k, m[k]) <= SumMap(m, f)
  {
    SumMapRemove(m, f, k);
    SumMapNonNegative(m - {k}, f);
  }

  /** Sum of `f` over a bag, counting repetitions. */
  ghost function SumBag<T>(b: multiset<T>, f: T -> int): int
    decreases |b|
  {
    if b == multiset{} then 0
    else
      var x :| x in b;
      f(x) + SumBag(b - multiset{x}, f)
  }

  lemma {:induction false} SumBagRemove<T>(b: multiset<T>, f: T -> int, x: T)
    requires x in b
    ensures SumBag(b, f) == f(x) + SumBag(b - multiset{x}, f)
    decreases |b|
  {
    var y :| y in b && SumBag(b, f) == f(y) + SumBag(b - multiset{y}, f);
    if x != y {
      SumBagRemove(b - multiset{y}, f, x);
      SumBagRemove(b - multiset{x}, f, y);
      assert b - multiset{x} - multiset{y} == b - multiset{y} - multiset{x};
    }
  }

  lemma SumBagAdd<T>(b: multiset<T>, f: T -> int, x: T)
    ensures SumBag(b + multiset{x}, f) == SumBag(b, f) + f(x)
  {
    SumBagRemove(b + multiset{x}, f, x);
    assert b + multiset{x} - multiset{x} == b;
  }

  ghost function SumSeq<T>(s: seq<T>, f: T -> int): int {
    if s == [] then 0 else SumSeq(s[..|s| - 1], f) + f(s[|s| - 1])
  }

  lemma {:induction false} SumBagOfSeq<T>(s: seq<T>, f: T -> int)
    ensures SumBag(multiset(s), f) == SumSeq(s, f)
  {
    if s != [] {
      SumBagOfSeq(s[..|s| - 1], f);
      SumBagAdd(multiset(s[..|s| - 1]), f, s[|s| - 1]);
      assert s == s[..|s| - 1] + [s[|s| - 1]];
    }
  }

  lemma {:induction false} SumSeqConcat<T>(s: seq<T>, t: seq<T>, f: T -> int)
    ensures SumSeq(s + t, f) == SumSeq(s, f) + SumSeq(t, f)
  {
    if t == [] {
      assert s + t == s;
    } else {
      assert (s + t)[..|s + t| - 1] == s + t[..|t| - 1];
      SumSeqConcat(s, t[..|t| - 1], f);
    }
  }
}
