/** Peak-to-trough drawdown in one pass over an equity series. */
module Drawdown {
  import opened Sums
  import opened Decimals

  const PERCENT_SCALE: real := 10000.0

  /** The highest value among s[0..i]. */
  function Peak(s: seq<real>, i: nat): real
    requires i < |s|
  {
    if i == 0 then s[0] else Max(Peak(s, i - 1), s[i])
  }

  function Drop(peak: real, v: real): real
    requires peak > 0.0
  {
    (peak - v) / peak * 100.0
  }

  /** m is the largest percentage drop from a positive peak to a later or equal point, or 0. */
  ghost predicate LargestDrop(s: seq<real>, m: real) {
    && m >= 0.0
    && (forall i :: 0 <= i < |s| && Peak(s, i) > 0.0 ==> Drop(Peak(s, i), s[i]) <= m)
    && (m == 0.0 || exists i :: 0 <= i < |s| && Peak(s, i) > 0.0 && Drop(Peak(s, i), s[i]) == m)
  }

  /** The series starts with the initial equity, then the snapshots, then the live value. */
  function Series(initial: real, snapshots: seq<(real, real)>, realised: real, unrealised: real): seq<real> {
    [initial] + seq(|snapshots|, i requires 0 <= i < |snapshots| => initial + snapshots[i].0 + snapshots[i].1)
    + [initial + realised + unrealised]
  }

  method MaxDrawdown(series: seq<real>) returns (maxDd: real)
    requires series != []
    ensures LargestDrop(series, maxDd)
  {
    hide Drop, DropSoFar, Peak;
    var peak := series[0];
    maxDd := 0.0;
    NoDropYet(series);
    for i := 0 to |series|
      invariant peak == if i == 0 then series[0] else Peak(series, i - 1)
      invariant DropSoFar(series, i, maxDd)
    {
      peak := Max(peak, series[i]);
      DropStep(series, i, maxDd);
      if peak > 0.0 {
        var dd := Drop(peak, series[i]);
        if dd > maxDd {
          maxDd := dd;
        }
      }
    }
    DropDone(series, maxDd);
  }

  /** m is the largest drop among the first n points. */
  ghost predicate DropSoFar(s: seq<real>, n: nat, m: real)
    requires n <= |s|
  {
    && m >= 0.0
    && (forall i :: 0 <= i < n && Peak(s, i) > 0.0 ==> Drop(Peak(s, i), s[i]) <= m)
    && (m == 0.0 || exists i :: 0 <= i < n && DropIs(s, i, m))
  }

  ghost predicate DropIs(s: seq<real>, i: nat, m: real)
    requires i < |s|
  {
    Peak(s, i) > 0.0 && Drop(Peak(s, i), s[i]) == m
  }

  lemma NoDropYet(s: seq<real>)
    ensures DropSoFar(s, 0, 0.0)
  {
  }

  lemma DropStep(s: seq<real>, i: nat, m: real)
    requires i < |s| && DropSoFar(s, i, m)
    ensures Peak(s, i) == Max(if i == 0 then s[0] else Peak(s, i - 1), s[i])
    ensures var p := Peak(s, i);
      DropSoFar(s, i + 1, if p > 0.0 && Drop(p, s[i]) > m then Drop(p, s[i]) else m)
  {
    hide Drop;
    var p := Peak(s, i);
    var r := if p > 0.0 && Drop(p, s[i]) > m then Drop(p, s[i]) else m;
    if r != m { assert DropIs(s, i, r); }
  }

  lemma DropDone(s: seq<real>, m: real)
    requires DropSoFar(s, |s|, m)
    ensures LargestDrop(s, m)
  {
    hide Drop, Peak;
    if m != 0.0 {
      var i :| 0 <= i < |s| && DropIs(s, i, m);
    }
  }

  method GetDrawdownPct(initial: real, snapshots: seq<(real, real)>, realised: real, unrealised: real)
    returns (pct: real)
    ensures exists m :: LargestDrop(Series(initial, snapshots, realised, unrealised), m)
    ensures forall m :: LargestDrop(Series(initial, snapshots, realised, unrealised), m) ==>
      pct == Quantize(m, PERCENT_SCALE)
  {
    var series := Series(initial, snapshots, realised, unrealised);
    var m := MaxDrawdown(series);
    pct := Quantize(m, PERCENT_SCALE);
    forall n | LargestDrop(series, n) ensures n == m {
      LargestDropUnique(series, m, n);
    }
  }

  lemma LargestDropUnique(s: seq<real>, m: real, n: real)
    requires LargestDrop(s, m) && LargestDrop(s, n)
    ensures m == n
  {
  }

  lemma {:induction false} PeakIsMaximum(s: seq<real>, i: nat)
    requires i < |s|
    ensures forall j :: 0 <= j <= i ==> s[j] <= Peak(s, i)
    ensures exists j :: 0 <= j <= i && s[j] == Peak(s, i)
  {
    if i > 0 { PeakIsMaximum(s, i - 1); }
    else { assert s[0] == Peak(s, 0); }
  }

  lemma DropMonotone(low: real, high: real, v: real)
    requires 0.0 < low <= high && v >= 0.0
    ensures Drop(low, v) <= Drop(high, v)
  {
    Ratio(low, v);
    Ratio(high, v);
    QuotientAntitone(low, high, v);
  }

  lemma Ratio(p: real, v: real)
    requires p > 0.0
    ensures Drop(p, v) == 100.0 - v / p * 100.0
  {
    hide Times;
    QuotientTimes(v, p);
    QuotientTimes(p - v, p);
    TimesIs(1.0, p);
    TimesDistributes(1.0, v / p, p);
    Cancel((p - v) / p, 1.0 - v / p, p);
    Cancel(1.0 - v / p, (p - v) / p, p);
  }

  lemma QuotientAntitone(low: real, high: real, v: real)
    requires 0.0 < low <= high && v >= 0.0
    ensures v / high <= v / low
  {
    var a, b := v / high, v / low;
    QuotientTimes(v, high);
    QuotientTimes(v, low);
    QuotientNonNegative(v, high);
    TimesMonotoneRight(a, low, high);
    Cancel(a, b, low);
  }

  lemma QuotientNonNegative(v: real, p: real)
    requires v >= 0.0 && p > 0.0
    ensures v / p >= 0.0
  {
    DivideMonotone(0.0, v, p);
  }

  lemma TimesMonotoneRight(a: real, x: real, y: real)
    requires a >= 0.0 && x <= y
    ensures Times(a, x) <= Times(a, y)
  {
  }

  /**
   * With positive initial equity and no negative value, the one-pass figure is the largest drop
   * over all pairs of an earlier positive value and a later value.
   */
  lemma DrawdownIsAllPairsMaximum(s: seq<real>, m: real)
    requires s != [] && s[0] > 0.0 && (forall i :: 0 <= i < |s| ==> s[i] >= 0.0) && LargestDrop(s, m)
    ensures forall i, j :: 0 <= i <= j < |s| && s[i] > 0.0 ==> Drop(s[i], s[j]) <= m
    ensures exists i, j :: 0 <= i <= j < |s| && s[i] > 0.0 && Drop(s[i], s[j]) == m
  {
    forall i, j | 0 <= i <= j < |s| && s[i] > 0.0 ensures Drop(s[i], s[j]) <= m {
      PeakIsMaximum(s, j);
      DropMonotone(s[i], Peak(s, j), s[j]);
    }
    if m == 0.0 {
      assert Drop(s[0], s[0]) == m;
    } else {
      var j :| 0 <= j < |s| && Peak(s, j) > 0.0 && Drop(Peak(s, j), s[j]) == m;
      PeakIsMaximum(s, j);
      var i :| 0 <= i <= j && s[i] == Peak(s, j);
      assert Drop(s[i], s[j]) == m;
    }
  }

  lemma {:induction false} PeakOfPrefix(s: seq<real>, u: seq<real>, i: nat)
    requires i < |s|
    ensures Peak(s + u, i) == Peak(s, i)
  {
    if i > 0 { PeakOfPrefix(s, u, i - 1); }
  }

  /** Extending the series never lowers the drawdown, rounded or not. */
  lemma DrawdownNeverDecreases(s: seq<real>, u: seq<real>, m: real, n: real)
    requires LargestDrop(s, m) && LargestDrop(s + u, n)
    ensures m <= n && Quantize(m, PERCENT_SCALE) <= Quantize(n, PERCENT_SCALE)
  {
    if m != 0.0 {
      var i :| 0 <= i < |s| && Peak(s, i) > 0.0 && Drop(Peak(s, i), s[i]) == m;
      PeakOfPrefix(s, u, i);
      assert (s + u)[i] == s[i];
    }
    QuantizeMonotone(m, n, PERCENT_SCALE);
  }

  // ----- the figure itself -----

  /** The k-th equity point: initial, one per snapshot, and the live one. */
  function Equity(initial: real, snapshots: seq<(real, real)>, realised: real, unrealised: real, k: nat): real
    requires k <= |snapshots| + 1
  {
    if k == 0 then initial
    else if k <= |snapshots| then initial + (snapshots[k - 1].0 + snapshots[k - 1].1)
    else initial + (realised + unrealised)
  }

  lemma DropScaled(p: real, v: real, m: real)
    requires p > 0.0
    ensures Drop(p, v) <= m <==> (p - v) * 100.0 <= m * p
    ensures Drop(p, v) >= m <==> (p - v) * 100.0 >= m * p
  {
    hide Times;
    var q := (p - v) / p;
    QuotientTimes(p - v, p);
    TimesIs(q, p);
    TimesIs(q * 100.0, p);
    TimesIs(m, p);
    assert q * 100.0 * p == q * p * 100.0;
    if q * 100.0 <= m { TimesMonotone(q * 100.0, m, p); }
    if (p - v) * 100.0 <= m * p { Cancel(q * 100.0, m, p); }
    if q * 100.0 >= m { TimesMonotone(m, q * 100.0, p); }
    if (p - v) * 100.0 >= m * p { Cancel(m, q * 100.0, p); }
  }

  predicate FallsAtMost(a: real, b: real, pct: real) {
    (a - b) * 100.0 <= pct * a
  }

  predicate FallsAtLeast(a: real, b: real, pct: real) {
    a > 0.0 && (a - b) * 100.0 >= pct * a
  }

  lemma DropFalls(a: real, b: real, pct: real)
    requires a >= 0.0 && b >= 0.0
    ensures a == 0.0 ==> FallsAtMost(a, b, pct)
    ensures a > 0.0 && Drop(a, b) <= pct ==> FallsAtMost(a, b, pct)
    ensures a > 0.0 && Drop(a, b) >= pct ==> FallsAtLeast(a, b, pct)
  {
    if a > 0.0 { DropScaled(a, b, pct); }
  }

  /**
   * What GetDrawdownPct promises, with the series and the quotient multiplied out: with positive initial
   * equity and none negative, no fall from an earlier to a later point is more than half a unit of the
   * fourth decimal beyond the figure, and some fall is at most as much below it.
   */
  lemma DrawdownReported(
      initial: real, snapshots: seq<(real, real)>, realised: real, unrealised: real, m: real, pct: real)
    requires LargestDrop(Series(initial, snapshots, realised, unrealised), m) && pct == Quantize(m, PERCENT_SCALE)
    requires initial > 0.0
    requires forall k :: 0 <= k <= |snapshots| + 1 ==> Equity(initial, snapshots, realised, unrealised, k) >= 0.0
    ensures forall i, j :: 0 <= i <= j <= |snapshots| + 1 ==>
      FallsAtMost(Equity(initial, snapshots, realised, unrealised, i),
                  Equity(initial, snapshots, realised, unrealised, j), pct + 0.00005)
    ensures exists i, j ::
      0 <= i <= j <= |snapshots| + 1 &&
      FallsAtLeast(Equity(initial, snapshots, realised, unrealised, i),
                   Equity(initial, snapshots, realised, unrealised, j), pct - 0.00005)
  {
    hide Drop, LargestDrop, Quantize, FallsAtMost, FallsAtLeast, Equity, Series;
    var s := Series(initial, snapshots, realised, unrealised);
    SeriesIs(initial, snapshots, realised, unrealised);
    QuantizeError(m, PERCENT_SCALE);
    DrawdownIsAllPairsMaximum(s, m);
    forall i, j | 0 <= i <= j <= |snapshots| + 1
      ensures FallsAtMost(Equity(initial, snapshots, realised, unrealised, i),
                          Equity(initial, snapshots, realised, unrealised, j), pct + 0.00005)
    {
      DropFalls(s[i], s[j], pct + 0.00005);
    }
    var i, j :| 0 <= i <= j < |s| && s[i] > 0.0 && Drop(s[i], s[j]) == m;
    DropFalls(s[i], s[j], pct - 0.00005);
    assert FallsAtLeast(Equity(initial, snapshots, realised, unrealised, i),
                        Equity(initial, snapshots, realised, unrealised, j), pct - 0.00005);
  }

  lemma SeriesIs(initial: real, snapshots: seq<(real, real)>, realised: real, unrealised: real)
    ensures var s := Series(initial, snapshots, realised, unrealised);
      |s| == |snapshots| + 2 && s[0] == initial
      && forall k :: 0 <= k < |s| ==> s[k] == Equity(initial, snapshots, realised, unrealised, k)
  {
  }
}
