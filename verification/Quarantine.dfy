/** Recorder gaps, and the quarantine windows derived from them. */
module Quarantine {
  import opened Sorting

  datatype Gap = Gap(feed: string, start: int, end: int)

  type Range = (int, int)

  // ----- gap detection -----

  predicate IsGap(rows: seq<int>, i: nat, maxGap: int)
    requires i + 1 < |rows|
  {
    rows[i + 1] - rows[i] > maxGap
  }

  /** The gaps among the first n rows of a feed, in order. */
  function GapsOf(feed: string, rows: seq<int>, maxGap: int, n: nat): seq<Gap>
    requires n <= |rows|
  {
    if n < 2 then []
    else GapsOf(feed, rows, maxGap, n - 1) +
         if IsGap(rows, n - 2, maxGap) then [Gap(feed, rows[n - 2], rows[n - 1])] else []
  }

  /** One cursor loop per feed; each feed is looked at on its own. */
  method DetectGaps(pm: seq<int>, cex: seq<int>, maxGap: int) returns (gaps: seq<Gap>)
    ensures gaps == GapsOf("pm_events", pm, maxGap, |pm|) + GapsOf("cex_trades", cex, maxGap, |cex|)
  {
    var first := FeedGaps("pm_events", pm, maxGap);
    var second := FeedGaps("cex_trades", cex, maxGap);
    gaps := first + second;
  }

  method FeedGaps(feed: string, rows: seq<int>, maxGap: int) returns (gaps: seq<Gap>)
    ensures gaps == GapsOf(feed, rows, maxGap, |rows|)
  {
    gaps := [];
    var prev := 0;
    for i := 0 to |rows|
      invariant gaps == GapsOf(feed, rows, maxGap, i)
      invariant i > 0 ==> prev == rows[i - 1]
    {
      var ts := rows[i];
      if i > 0 && ts - prev > maxGap {
        gaps := gaps + [Gap(feed, prev, ts)];
      }
      prev := ts;
    }
  }

  lemma {:induction false} GapsExactly(feed: string, rows: seq<int>, maxGap: int, n: nat)
    requires n <= |rows|
    ensures forall g :: g in GapsOf(feed, rows, maxGap, n) <==>
              exists i: nat :: i + 1 < n && IsGap(rows, i, maxGap) && g == Gap(feed, rows[i], rows[i + 1])
  {
    if n >= 2 {
      GapsExactly(feed, rows, maxGap, n - 1);
      forall g ensures g in GapsOf(feed, rows, maxGap, n) <==>
                exists i: nat :: i + 1 < n && IsGap(rows, i, maxGap) && g == Gap(feed, rows[i], rows[i + 1])
      {
        if g in GapsOf(feed, rows, maxGap, n - 1) {
          var i: nat :| i + 1 < n - 1 && IsGap(rows, i, maxGap) && g == Gap(feed, rows[i], rows[i + 1]);
        }
        if IsGap(rows, n - 2, maxGap) && g == Gap(feed, rows[n - 2], rows[n - 1]) {
          assert g in GapsOf(feed, rows, maxGap, n);
        }
      }
    }
  }

  // ----- merging -----

  predicate RangeLe(a: Range, b: Range) {
    a.0 < b.0 || (a.0 == b.0 && a.1 <= b.1)
  }

  lemma RangeOrder()
    ensures Preorder(RangeLe) && forall s :: Untied(RangeLe, s)
  {
  }

  function Widen(g: Gap, buffer: int): Range {
    (g.start - buffer, g.end + buffer)
  }

  function WidenAll(gaps: seq<Gap>, buffer: int): seq<Range> {
    seq(|gaps|, i requires 0 <= i < |gaps| => Widen(gaps[i], buffer))
  }

  predicate Within(ts: int, r: Range) {
    r.0 <= ts <= r.1
  }

  predicate Covered(ts: int, ranges: seq<Range>) {
    exists i :: 0 <= i < |ranges| && Within(ts, ranges[i])
  }

  /** Sorted, every range non-empty, and a true gap between neighbours. */
  predicate Separated(ranges: seq<Range>) {
    && (forall i :: 0 <= i < |ranges| ==> ranges[i].0 <= ranges[i].1)
    && (forall i, j :: 0 <= i < j < |ranges| ==> ranges[i].1 < ranges[j].0)
  }

  function Absorb(merged: seq<Range>, r: Range): seq<Range> {
    if merged != [] && r.0 <= merged[|merged| - 1].1 then
      var last := merged[|merged| - 1];
      merged[..|merged| - 1] + [(last.0, if last.1 >= r.1 then last.1 else r.1)]
    else merged + [r]
  }

  function Merged(raw: seq<Range>): seq<Range> {
    if raw == [] then [] else Absorb(Merged(raw[..|raw| - 1]), raw[|raw| - 1])
  }

  method QuarantineRanges(gaps: seq<Gap>, buffer: int) returns (merged: seq<Range>)
    ensures merged == Merged(Sort(RangeLe, WidenAll(gaps, buffer)))
  {
    var raw := Sort(RangeLe, WidenAll(gaps, buffer));
    merged := MergeRanges(raw);
  }

  method MergeRanges(raw: seq<Range>) returns (merged: seq<Range>)
    ensures merged == Merged(raw)
  {
    merged := [];
    for i := 0 to |raw|
      invariant merged == Merged(raw[..i])
    {
      assert raw[..i + 1][..i] == raw[..i];
      var r := raw[i];
      ghost var before := merged;
      if |merged| > 0 && r.0 <= merged[|merged| - 1].1 {
        var last := merged[|merged| - 1];
        merged := merged[..|merged| - 1] + [(last.0, if last.1 >= r.1 then last.1 else r.1)];
      } else {
        merged := merged + [r];
      }
      assert merged == Absorb(before, r);
    }
    assert raw[..|raw|] == raw;
  }

  method InQuarantine(ts: int, ranges: seq<Range>) returns (r: bool)
    ensures r == Covered(ts, ranges)
  {
    for i := 0 to |ranges|
      invariant forall j :: 0 <= j < i ==> !Within(ts, ranges[j])
    {
      if ranges[i].0 <= ts <= ranges[i].1 {
        return true;
      }
    }
    return false;
  }

  lemma AbsorbSeparated(merged: seq<Range>, r: Range)
    requires Separated(merged) && r.0 <= r.1
    requires merged != [] ==> merged[|merged| - 1].0 <= r.0
    ensures Separated(Absorb(merged, r))
    ensures forall ts :: Covered(ts, Absorb(merged, r)) <==> Covered(ts, merged) || Within(ts, r)
  {
    var n, out := |merged| - 1, Absorb(merged, r);
    forall ts ensures Covered(ts, out) <==> Covered(ts, merged) || Within(ts, r) {
      if Within(ts, r) { assert Within(ts, out[|out| - 1]); }
      if i :| 0 <= i < |merged| && Within(ts, merged[i]) { assert Within(ts, out[i]); }
      if i :| 0 <= i < |out| && Within(ts, out[i]) {
        if i < |out| - 1 { assert Within(ts, merged[i]); }
        else if |out| == |merged| { assert Within(ts, merged[n]) || Within(ts, r); }
      }
    }
  }

  lemma {:induction false} MergedExactly(raw: seq<Range>)
    requires Sorted(RangeLe, raw) && forall i :: 0 <= i < |raw| ==> raw[i].0 <= raw[i].1
    ensures Separated(Merged(raw))
    ensures forall ts :: Covered(ts, Merged(raw)) <==> Covered(ts, raw)
    ensures raw != [] ==> Merged(raw) != [] && Merged(raw)[|Merged(raw)| - 1].0 <= raw[|raw| - 1].0
  {
    hide Separated, Covered, Absorb;
    if raw == [] {
      NothingCovered();
    } else {
      var n := |raw| - 1;
      MergedExactly(raw[..n]);
      var m := Merged(raw[..n]);
      if n > 0 { assert RangeLe(raw[n - 1], raw[n]); }
      AbsorbSeparated(m, raw[n]);
      forall ts ensures Covered(ts, raw) <==> Covered(ts, raw[..n]) || Within(ts, raw[n]) {
        CoveredLast(raw, ts);
      }
      AbsorbLast(m, raw[n]);
    }
  }

  lemma NothingCovered()
    ensures Separated([]) && forall ts :: !Covered(ts, [])
  {
  }

  lemma CoveredLast(raw: seq<Range>, ts: int)
    requires raw != []
    ensures Covered(ts, raw) <==> Covered(ts, raw[..|raw| - 1]) || Within(ts, raw[|raw| - 1])
  {
    var n := |raw| - 1;
    if i :| 0 <= i < n && Within(ts, raw[..n][i]) { assert Within(ts, raw[i]); }
    if i :| 0 <= i <= n && Within(ts, raw[i]) { assert i < n ==> Within(ts, raw[..n][i]); }
  }

  lemma AbsorbLast(merged: seq<Range>, r: Range)
    requires merged != [] ==> merged[|merged| - 1].0 <= r.0
    ensures var out := Absorb(merged, r); out != [] && out[|out| - 1].0 <= r.0
  {
  }

  lemma CoveredElements(a: seq<Range>, b: seq<Range>, ts: int)
    requires multiset(a) == multiset(b)
    ensures Covered(ts, a) ==> Covered(ts, b)
  {
    if i :| 0 <= i < |a| && Within(ts, a[i]) {
      InMultiset(a, b, a[i]);
      assert a[i] in b;
    }
  }

  /** The merged windows cover a time exactly if some gap, widened by the buffer, contains it. */
  lemma QuarantineCovers(gaps: seq<Gap>, buffer: int, ts: int)
    requires buffer >= 0 && forall g :: g in gaps ==> g.start <= g.end
    ensures var q := Merged(Sort(RangeLe, WidenAll(gaps, buffer)));
      && Separated(q)
      && (Covered(ts, q) <==> exists g :: g in gaps && Within(ts, Widen(g, buffer)))
  {
    var raw := WidenAll(gaps, buffer);
    var sorted := Sort(RangeLe, raw);
    RangeOrder();
    SortSorts(RangeLe, raw);
    SortElements(RangeLe, raw);
    forall i | 0 <= i < |sorted| ensures sorted[i].0 <= sorted[i].1 {
      InMultiset(raw, sorted, sorted[i]);
      assert sorted[i] in raw;
    }
    MergedExactly(sorted);
    CoveredElements(raw, sorted, ts);
    CoveredElements(sorted, raw, ts);
    if i :| 0 <= i < |raw| && Within(ts, raw[i]) { assert gaps[i] in gaps; }
    if g :| g in gaps && Within(ts, Widen(g, buffer)) {
      var i :| 0 <= i < |gaps| && gaps[i] == g;
      assert Within(ts, raw[i]);
    }
  }

  /** A time near a too-long silence between adjacent rows of one feed. */
  ghost predicate NearGap(ts: int, rows: seq<int>, maxGap: int, buffer: int) {
    exists i: nat :: i + 1 < |rows| && NearSilence(ts, rows[i], rows[i + 1], maxGap, buffer)
  }

  /** Near a silence of more than maxGap from one row to the next. */
  predicate NearSilence(ts: int, start: int, end: int, maxGap: int, buffer: int) {
    start + maxGap < end && start - buffer <= ts <= end + buffer
  }

  predicate Ascending(rows: seq<int>) {
    forall i, j :: 0 <= i < j < |rows| ==> rows[i] <= rows[j]
  }

  /**
   * Exactness: a time is quarantined if and only if it lies within the buffer of two adjacent rows
   * of one feed that are more than `maxGap` apart. The windows are sorted and strictly separated.
   */
  lemma QuarantineExact(pm: seq<int>, cex: seq<int>, maxGap: int, buffer: int, ts: int)
    requires Ascending(pm) && Ascending(cex) && buffer >= 0
    ensures var gaps := GapsOf("pm_events", pm, maxGap, |pm|) + GapsOf("cex_trades", cex, maxGap, |cex|);
      var q := Merged(Sort(RangeLe, WidenAll(gaps, buffer)));
      && Separated(q)
      && (Covered(ts, q) <==> NearGap(ts, pm, maxGap, buffer) || NearGap(ts, cex, maxGap, buffer))
  {
    var a, b := GapsOf("pm_events", pm, maxGap, |pm|), GapsOf("cex_trades", cex, maxGap, |cex|);
    FeedExact("pm_events", pm, maxGap, buffer, ts);
    FeedExact("cex_trades", cex, maxGap, buffer, ts);
    assert forall g :: g in a + b <==> g in a || g in b;
    QuarantineCovers(a + b, buffer, ts);
  }

  lemma FeedExact(feed: string, rows: seq<int>, maxGap: int, buffer: int, ts: int)
    requires Ascending(rows)
    ensures var gaps := GapsOf(feed, rows, maxGap, |rows|);
      && (forall g :: g in gaps ==> g.start <= g.end)
      && ((exists g :: g in gaps && Within(ts, Widen(g, buffer))) <==> NearGap(ts, rows, maxGap, buffer))
  {
    var gaps := GapsOf(feed, rows, maxGap, |rows|);
    GapsExactly(feed, rows, maxGap, |rows|);
    if i: nat :| i + 1 < |rows| && NearSilence(ts, rows[i], rows[i + 1], maxGap, buffer) {
      var g := Gap(feed, rows[i], rows[i + 1]);
      assert g in gaps && Within(ts, Widen(g, buffer));
    }
  }

  /** The order in which gaps were found does not matter. */
  lemma QuarantineOrderIrrelevant(gaps: seq<Gap>, other: seq<Gap>, buffer: int)
    requires multiset(gaps) == multiset(other)
    ensures Sort(RangeLe, WidenAll(gaps, buffer)) == Sort(RangeLe, WidenAll(other, buffer))
    ensures Merged(Sort(RangeLe, WidenAll(gaps, buffer))) == Merged(Sort(RangeLe, WidenAll(other, buffer)))
  {
    var a, b := WidenAll(gaps, buffer), WidenAll(other, buffer);
    WidenPermutes(gaps, other, buffer);
    RangeOrder();
    SortIgnoresOrder(RangeLe, a, b);
  }

  lemma WidenRemove(gaps: seq<Gap>, k: nat, buffer: int)
    requires k < |gaps|
    ensures multiset(WidenAll(gaps, buffer)) ==
            multiset(WidenAll(Without(gaps, k), buffer)) + multiset{Widen(gaps[k], buffer)}
  {
    var w := WidenAll(gaps, buffer);
    RemoveAt(w, k);
    assert Without(w, k) == WidenAll(Without(gaps, k), buffer);
  }

  lemma {:induction false} WidenPermutes(gaps: seq<Gap>, other: seq<Gap>, buffer: int)
    requires multiset(gaps) == multiset(other)
    ensures multiset(WidenAll(gaps, buffer)) == multiset(WidenAll(other, buffer))
    decreases |gaps|
  {
    hide WidenAll, Without;
    if gaps == [] {
      EmptyToo(gaps, other);
    } else {
      var k := FindElement(gaps, other);
      RemoveAt(gaps, 0);
      RemoveAt(other, k);
      WidenPermutes(Without(gaps, 0), Without(other, k), buffer);
      WidenRemove(gaps, 0, buffer);
      WidenRemove(other, k, buffer);
    }
  }

  lemma EmptyToo<T>(a: seq<T>, b: seq<T>)
    requires a == [] && multiset(a) == multiset(b)
    ensures a == b
  {
    assert |b| == |multiset(b)| == |multiset(a)| == 0;
  }

  lemma FindElement<T>(a: seq<T>, b: seq<T>) returns (k: nat)
    requires a != [] && multiset(a) == multiset(b)
    ensures k < |b| && b[k] == a[0]
  {
    InMultiset(a, b, a[0]);
    assert a[0] in b;
    k :| 0 <= k < |b| && b[k] == a[0];
  }
}
