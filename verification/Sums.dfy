/** Sums over sequences and over the values of a finite map. */
module Sums {

  function Min(a: real, b: real): (r: real)
    ensures r <= a && r <= b && (r == a || r == b)
  {
    if a <= b then a else b
  }

  function Max(a: real, b: real): (r: real)
    ensures r >= a && r >= b && (r == a || r == b)
  {
    if a >= b then a else b
  }

  /** Product of a quantity and a price; a name for it keeps proofs about sums linear. */
  function Times(quantity: real, price: real): real {
    quantity * price
  }

  lemma TimesDistributes(a: real, b: real, p: real)
    ensures Times(a + b, p) == Times(a, p) + Times(b, p)
    ensures Times(a - b, p) == Times(a, p) - Times(b, p)
  {
  }

  lemma TimesSpread(q: real, a: real, b: real)
    ensures Times(q, a - b) == Times(q, a) - Times(q, b)
  {
  }

  lemma TimesZero(p: real)
    ensures Times(0.0, p) == 0.0
  {
  }

  function Total(xs: seq<real>): real {
    if xs == [] then 0.0 else Total(xs[..|xs| - 1]) + xs[|xs| - 1]
  }

  lemma TotalLast(xs: seq<real>, x: real)
    ensures Total(xs + [x]) == Total(xs) + x
  {
    assert (xs + [x])[..|xs|] == xs;
  }

  function Same(x: real): real { x }

  /** The total of f over the values of m. */
  ghost function Sum<K, V>(m: map<K, V>, f: V -> real): real
    decreases |m|
  {
    if m == map[] then 0.0
    else
      var k :| k in m;
      f(m[k]) + Sum(m - {k}, f)
  }

  /** The choice of the first key does not matter. */
  lemma {:induction false} SumRemove<K, V>(m: map<K, V>, k: K, f: V -> real)
    requires k in m
    ensures Sum(m, f) == f(m[k]) + Sum(m - {k}, f)
    decreases |m|
  {
    var k0 :| k0 in m && Sum(m, f) == f(m[k0]) + Sum(m - {k0}, f);
    if k0 != k {
      SumRemove(m - {k0}, k, f);
      SumRemove(m - {k}, k0, f);
      assert (m - {k0}) - {k} == (m - {k}) - {k0};
    }
  }

  /** Replacing the value at one key changes the total by the change at that key. */
  lemma SumUpdate<K, V>(m: map<K, V>, k: K, v: V, f: V -> real)
    ensures Sum(m[k := v], f) == Sum(m, f) - (if k in m then f(m[k]) else 0.0) + f(v)
  {
    SumRemove(m[k := v], k, f);
    if k in m {
      SumRemove(m, k, f);
      assert m[k := v] - {k} == m - {k};
    } else {
      assert m[k := v] - {k} == m;
    }
  }

  /** Two maps over the same keys whose values agree under f and g have the same totals. */
  lemma {:induction false} SumSame<K, V, W>(m: map<K, V>, f: V -> real, n: map<K, W>, g: W -> real)
    requires m.Keys == n.Keys
    requires forall k :: k in m ==> f(m[k]) == g(n[k])
    ensures Sum(m, f) == Sum(n, g)
    decreases |m|
  {
    if m == map[] {
      assert n == map[];
    } else {
      var k :| k in m;
      SumRemove(m, k, f);
      SumRemove(n, k, g);
      SumSame(m - {k}, f, n - {k}, g);
    }
  }

  /** A total of zeros is zero. */
  lemma {:induction false} SumZero<K, V>(m: map<K, V>, f: V -> real)
    requires forall k :: k in m ==> f(m[k]) == 0.0
    ensures Sum(m, f) == 0.0
    decreases |m|
  {
    if m != map[] {
      var k :| k in m;
      SumRemove(m, k, f);
      SumZero(m - {k}, f);
    }
  }

  /** Values of zero under further keys do not change a total. */
  lemma {:induction false} SumWithin<K, V>(m: map<K, V>, f: V -> real, n: map<K, real>)
    requires m.Keys <= n.Keys
    requires forall k :: k in m ==> n[k] == f(m[k])
    requires forall k :: k in n && k !in m ==> n[k] == 0.0
    ensures Sum(n, Same) == Sum(m, f)
    decreases |n|
  {
    if n.Keys == m.Keys {
      SumSame(n, Same, m, f);
    } else {
      var k :| k in n && k !in m;
      SumRemove(n, k, Same);
      SumWithin(m, f, n - {k});
    }
  }

  lemma {:induction false} SumAdd<K>(m: map<K, real>, n: map<K, real>, r: map<K, real>)
    requires m.Keys == n.Keys == r.Keys && forall k :: k in r ==> r[k] == m[k] + n[k]
    ensures Sum(r, Same) == Sum(m, Same) + Sum(n, Same)
    decreases |r|
  {
    if r == map[] {
      assert m == map[] && n == map[];
    } else {
      var k :| k in r;
      SumRemove(m, k, Same);
      SumRemove(n, k, Same);
      SumRemove(r, k, Same);
      SumAdd(m - {k}, n - {k}, r - {k});
    }
  }
}
