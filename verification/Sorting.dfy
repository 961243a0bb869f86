/** Stable sorting by a total preorder, as Python's `list.sort` and SQL's `ORDER BY` provide it. */
module Sorting {

  ghost predicate Preorder<T(!new)>(le: (T, T) -> bool) {
    && (forall a, b :: le(a, b) || le(b, a))
    && (forall a, b, c :: le(a, b) && le(b, c) ==> le(a, c))
  }

  /** No two different elements of s are tied. */
  ghost predicate Untied<T>(le: (T, T) -> bool, s: seq<T>) {
    forall a, b :: a in s && b in s && le(a, b) && le(b, a) ==> a == b
  }

  ghost predicate Sorted<T>(le: (T, T) -> bool, s: seq<T>) {
    forall i, j :: 0 <= i < j < |s| ==> le(s[i], s[j])
  }

  /** Inserts t after every element that is not larger, as a stable sort does. */
  function Insert<T>(le: (T, T) -> bool, s: seq<T>, t: T): seq<T> {
    if s == [] then [t]
    else
      var n := |s| - 1;
      if le(s[n], t) then s + [t]
      else Insert(le, s[..n], t) + [s[n]]
  }

  function Sort<T>(le: (T, T) -> bool, s: seq<T>): seq<T> {
    if s == [] then [] else Insert(le, Sort(le, s[..|s| - 1]), s[|s| - 1])
  }

  lemma {:induction false} InsertElements<T>(le: (T, T) -> bool, s: seq<T>, t: T)
    ensures multiset(Insert(le, s, t)) == multiset(s) + multiset{t}
  {
    if s != [] {
      assert s == s[..|s| - 1] + [s[|s| - 1]];
      InsertElements(le, s[..|s| - 1], t);
    }
  }

  lemma {:induction false} SortElements<T>(le: (T, T) -> bool, s: seq<T>)
    ensures multiset(Sort(le, s)) == multiset(s)
  {
    if s != [] {
      assert s == s[..|s| - 1] + [s[|s| - 1]];
      SortElements(le, s[..|s| - 1]);
      InsertElements(le, Sort(le, s[..|s| - 1]), s[|s| - 1]);
    }
  }

  lemma InMultiset<T>(s: seq<T>, r: seq<T>, x: T)
    requires multiset(r) == multiset(s)
    ensures x in r <==> x in s
  {
    assert x in r <==> x in multiset(r);
    assert x in s <==> x in multiset(s);
  }

  lemma {:induction false} InsertSorted<T(!new)>(le: (T, T) -> bool, s: seq<T>, t: T)
    requires Preorder(le) && Sorted(le, s)
    ensures Sorted(le, Insert(le, s, t))
  {
    if s != [] {
      var n := |s| - 1;
      if le(s[n], t) {
        var r := s + [t];
        forall i, j | 0 <= i < j < |r| ensures le(r[i], r[j]) {
          if j == n + 1 && i < n { assert le(s[i], s[n]); }
        }
      } else {
        InsertSorted(le, s[..n], t);
        InsertElements(le, s[..n], t);
        var q := Insert(le, s[..n], t);
        var r := q + [s[n]];
        forall i, j | 0 <= i < j < |r| ensures le(r[i], r[j]) {
          if j == |q| {
            assert q[i] in multiset(q);
            assert q[i] == t || q[i] in multiset(s[..n]);
            if q[i] in s[..n] { var k :| 0 <= k < n && s[k] == q[i]; }
          }
        }
      }
    }
  }

  lemma {:induction false} SortSorts<T(!new)>(le: (T, T) -> bool, s: seq<T>)
    requires Preorder(le)
    ensures Sorted(le, Sort(le, s))
  {
    if s != [] {
      SortSorts(le, s[..|s| - 1]);
      InsertSorted(le, Sort(le, s[..|s| - 1]), s[|s| - 1]);
    }
  }

  /** A sorted sequence is left as it is. */
  lemma {:induction false} SortIdentity<T>(le: (T, T) -> bool, s: seq<T>)
    requires Sorted(le, s)
    ensures Sort(le, s) == s
  {
    if s != [] {
      SortIdentity(le, s[..|s| - 1]);
    }
  }

  lemma SortedSameLast<T(!new)>(le: (T, T) -> bool, a: seq<T>, b: seq<T>)
    requires Preorder(le) && Untied(le, a)
    requires Sorted(le, a) && Sorted(le, b) && multiset(a) == multiset(b) && a != [] && b != []
    ensures a[|a| - 1] == b[|b| - 1]
  {
    var x, y := a[|a| - 1], b[|b| - 1];
    InMultiset(a, b, x);
    InMultiset(a, b, y);
    var i :| 0 <= i < |b| && b[i] == x;
    var j :| 0 <= j < |a| && a[j] == y;
    assert le(x, x) && le(y, y);
    assert le(x, y) && le(y, x);
  }

  lemma UntiedPrefix<T>(le: (T, T) -> bool, s: seq<T>)
    requires Untied(le, s) && s != []
    ensures Untied(le, s[..|s| - 1])
  {
  }

  /** Without ties the sorted arrangement does not depend on the given one. */
  lemma SortIgnoresOrder<T(!new)>(le: (T, T) -> bool, s: seq<T>, r: seq<T>)
    requires Preorder(le) && Untied(le, s) && multiset(s) == multiset(r)
    ensures Sort(le, s) == Sort(le, r)
  {
    hide Preorder, Untied, Sorted;
    SortElements(le, s);
    SortElements(le, r);
    SortSorts(le, s);
    SortSorts(le, r);
    SameUntied(le, s, Sort(le, s));
    SortedUnique(le, Sort(le, s), Sort(le, r));
  }

  lemma SameUntied<T>(le: (T, T) -> bool, s: seq<T>, r: seq<T>)
    requires Untied(le, s) && multiset(s) == multiset(r)
    ensures Untied(le, r)
  {
    forall x ensures x in r <==> x in s { InMultiset(s, r, x); }
  }

  lemma {:induction false} FilterElements<T>(s: seq<T>, p: T -> bool, x: T)
    ensures multiset(Filter(s, p))[x] == if p(x) then multiset(s)[x] else 0
  {
    if s != [] {
      FilterElements(s[..|s| - 1], p, x);
      assert s == s[..|s| - 1] + [s[|s| - 1]];
    }
  }

  lemma FilterPermutes<T(!new)>(s: seq<T>, r: seq<T>, p: T -> bool)
    requires multiset(s) == multiset(r)
    ensures multiset(Filter(s, p)) == multiset(Filter(r, p))
  {
    forall x: T ensures multiset(Filter(s, p))[x] == multiset(Filter(r, p))[x] {
      FilterElements(s, p, x);
      FilterElements(r, p, x);
    }
    assert multiset(Filter(s, p)) == multiset(Filter(r, p));
  }

  lemma SortedPrefix<T>(le: (T, T) -> bool, s: seq<T>)
    requires Sorted(le, s) && s != []
    ensures Sorted(le, s[..|s| - 1])
  {
  }

  /** Without ties the sorted arrangement of given elements is unique. */
  lemma {:induction false} SortedUnique<T(!new)>(le: (T, T) -> bool, a: seq<T>, b: seq<T>)
    requires Preorder(le) && Untied(le, a)
    requires Sorted(le, a) && Sorted(le, b) && multiset(a) == multiset(b)
    ensures a == b
  {
    hide Preorder, Untied, Sorted;
    assert |a| == |multiset(a)| == |multiset(b)| == |b|;
    if a != [] {
      SortedSameLast(le, a, b);
      DropLast(a);
      DropLast(b);
      SortedPrefix(le, a);
      SortedPrefix(le, b);
      UntiedPrefix(le, a);
      SortedUnique(le, a[..|a| - 1], b[..|b| - 1]);
    }
  }

  lemma DropLast<T>(s: seq<T>)
    requires s != []
    ensures s == s[..|s| - 1] + [s[|s| - 1]]
    ensures multiset(s[..|s| - 1]) == multiset(s) - multiset{s[|s| - 1]}
  {
    assert s == s[..|s| - 1] + [s[|s| - 1]];
  }

  function Without<T>(s: seq<T>, k: nat): seq<T>
    requires k < |s|
  {
    s[..k] + s[k + 1..]
  }

  lemma RemoveAt<T>(s: seq<T>, k: nat)
    requires k < |s|
    ensures |Without(s, k)| == |s| - 1
    ensures multiset(s) == multiset(Without(s, k)) + multiset{s[k]}
    ensures multiset(Without(s, k)) == multiset(s) - multiset{s[k]}
  {
    assert s == s[..k] + [s[k]] + s[k + 1..];
  }

  // ----- filtering -----

  function Filter<T>(s: seq<T>, p: T -> bool): seq<T> {
    if s == [] then []
    else
      var n := |s| - 1;
      if p(s[n]) then Filter(s[..n], p) + [s[n]] else Filter(s[..n], p)
  }

  lemma {:induction false} FilterMembers<T>(s: seq<T>, p: T -> bool)
    ensures forall x :: x in Filter(s, p) ==> x in s && p(x)
    ensures forall x :: x in s && p(x) ==> x in Filter(s, p)
  {
    if s != [] {
      FilterMembers(s[..|s| - 1], p);
      assert s == s[..|s| - 1] + [s[|s| - 1]];
    }
  }

  lemma {:induction false} FilterConcat<T>(s: seq<T>, u: seq<T>, p: T -> bool)
    ensures Filter(s + u, p) == Filter(s, p) + Filter(u, p)
  {
    if u == [] {
      assert s + u == s;
    } else {
      var n := |u| - 1;
      assert (s + u)[..|s| + n] == s + u[..n];
      FilterConcat(s, u[..n], p);
    }
  }

  lemma {:induction false} FilterSorted<T>(le: (T, T) -> bool, s: seq<T>, p: T -> bool)
    requires Sorted(le, s)
    ensures Sorted(le, Filter(s, p))
  {
    if s != [] {
      var n := |s| - 1;
      FilterSorted(le, s[..n], p);
      FilterMembers(s[..n], p);
      var r := Filter(s[..n], p);
      forall x | x in r ensures le(x, s[n]) {
        assert x in s[..n];
        var i :| 0 <= i < n && s[i] == x;
      }
    }
  }

  lemma {:induction false} FilterAll<T>(s: seq<T>, p: T -> bool)
    requires forall x :: x in s ==> p(x)
    ensures Filter(s, p) == s
  {
    if s != [] {
      FilterAll(s[..|s| - 1], p);
    }
  }

  lemma {:induction false} FilterNone<T>(s: seq<T>, p: T -> bool)
    requires forall x :: x in s ==> !p(x)
    ensures Filter(s, p) == []
  {
    if s != [] {
      FilterNone(s[..|s| - 1], p);
    }
  }

  lemma {:induction false} FilterSame<T>(s: seq<T>, p: T -> bool, q: T -> bool)
    requires forall x :: x in s ==> p(x) == q(x)
    ensures Filter(s, p) == Filter(s, q)
  {
    if s != [] { FilterSame(s[..|s| - 1], p, q); }
  }

  /** Two filters can change places. */
  lemma {:induction false} FilterSwap<T>(s: seq<T>, p: T -> bool, q: T -> bool)
    ensures Filter(Filter(s, p), q) == Filter(Filter(s, q), p)
  {
    if s != [] {
      var n := |s| - 1;
      FilterSwap(s[..n], p, q);
      var f, g := Filter(s[..n], p), Filter(s[..n], q);
      assert (f + [s[n]])[..|f|] == f && (g + [s[n]])[..|g|] == g;
    }
  }

  lemma {:induction false} InsertFilter<T(!new)>(le: (T, T) -> bool, s: seq<T>, t: T, p: T -> bool)
    requires Preorder(le) && Sorted(le, s)
    ensures Filter(Insert(le, s, t), p) == if p(t) then Insert(le, Filter(s, p), t) else Filter(s, p)
  {
    if s == [] {
      assert Filter([], p) == [];
      assert [t][..0] == [];
    } else {
      var n := |s| - 1;
      if le(s[n], t) {
        assert (s + [t])[..n + 1] == s;
        InsertAtEnd(le, s, t, p);
      } else {
        var q := Insert(le, s[..n], t);
        assert (q + [s[n]])[..|q|] == q;
        InsertFilter(le, s[..n], t, p);
        if p(s[n]) {
          var f := Filter(s[..n], p);
          assert (f + [s[n]])[..|f|] == f;
        }
      }
    }
  }

  lemma LastIsLargest<T(!new)>(le: (T, T) -> bool, s: seq<T>, t: T, i: nat)
    requires Preorder(le) && Sorted(le, s) && s != [] && le(s[|s| - 1], t) && i < |s|
    ensures le(s[i], t)
  {
    assert i == |s| - 1 || le(s[i], s[|s| - 1]);
  }

  lemma InsertAtEnd<T(!new)>(le: (T, T) -> bool, s: seq<T>, t: T, p: T -> bool)
    requires Preorder(le) && Sorted(le, s) && s != [] && le(s[|s| - 1], t)
    ensures Insert(le, Filter(s, p), t) == Filter(s, p) + [t]
  {
    var f := Filter(s, p);
    if f != [] {
      hide Preorder, Sorted, Filter;
      FilterMembers(s, p);
      var x := f[|f| - 1];
      assert x in f;
      var i :| 0 <= i < |s| && s[i] == x;
      LastIsLargest(le, s, t, i);
    }
  }

  /** A stable sort commutes with filtering. */
  lemma {:induction false} SortFilter<T(!new)>(le: (T, T) -> bool, s: seq<T>, p: T -> bool)
    requires Preorder(le)
    ensures Filter(Sort(le, s), p) == Sort(le, Filter(s, p))
  {
    if s != [] {
      var n := |s| - 1;
      SortFilter(le, s[..n], p);
      SortSorts(le, s[..n]);
      InsertFilter(le, Sort(le, s[..n]), s[n], p);
      if p(s[n]) {
        var f := Filter(s[..n], p);
        assert (f + [s[n]])[..|f|] == f;
      }
    }
  }
}
