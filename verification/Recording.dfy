/**
 * The calibration against the recording it was made from. Quarantine drops reconnect rows like any
 * others, so a subscription's state can outlive a recorded reconnect; this is when it does.
 */
module Recording {
  import opened Sorting
  import opened Trades
  import opened Quarantine
  import opened EventMerge
  import opened Calibration

  predicate Reconnects(e: Event, k: string) {
    IsReconnect(e) && SubOf(e) == k
  }

  predicate TradeOf(e: Event, k: string, cutoff: int) {
    IsTrade(e) && SubOf(e) == k && e.ts >= cutoff
  }

  // ----- the reference, over all recorded rows -----

  /** Kept rows since the last recorded reconnect of k, whether that reconnect was kept or not. */
  function SinceRecorded(all: seq<Event>, keep: Event -> bool, k: string): seq<Event> {
    Filter(SinceReconnect(all, k), keep)
  }

  function RecordedTrades(all: seq<Event>, keep: Event -> bool, k: string, cutoff: int): seq<Tick> {
    Recent(TradesOf(SinceRecorded(all, keep, k), k), cutoff)
  }

  /** The imbalance at the last recorded row, from what was kept since the last recorded reconnect. */
  function RecordedImbalance(all: seq<Event>, keep: Event -> bool, window: int): Option<real>
    requires all != []
  {
    var e := all[|all| - 1];
    var k := SubOf(e);
    var quoted := Quoted(SinceRecorded(all, keep, k), k);
    if !IsTrade(e) then None
    else Imbalance(RecordedTrades(all, keep, k, e.ts - window), First(quoted), FirstOther(quoted))
  }

  // ----- what the replay uses -----

  /** The replay sees kept rows only, so it counts from the last kept reconnect. */
  function UsedTrades(all: seq<Event>, keep: Event -> bool, k: string, cutoff: int): seq<Tick> {
    Recent(TradesOf(SinceReconnect(Filter(all, keep), k), k), cutoff)
  }

  /** Kept rows after the last kept reconnect of k that a later, dropped reconnect should have cleared. */
  function Outlived(all: seq<Event>, keep: Event -> bool, k: string): seq<Event> {
    if all == [] then []
    else
      var before, e := all[..|all| - 1], all[|all| - 1];
      if !Reconnects(e, k) then Outlived(before, keep, k)
      else if keep(e) then []
      else SinceReconnect(Filter(before, keep), k)
  }

  lemma {:induction false} UsedSplits(all: seq<Event>, keep: Event -> bool, k: string)
    ensures SinceReconnect(Filter(all, keep), k) == Outlived(all, keep, k) + SinceRecorded(all, keep, k)
  {
    if all != [] {
      var before, e := all[..|all| - 1], all[|all| - 1];
      UsedSplits(before, keep, k);
      if keep(e) {
        var f := Filter(before, keep);
        assert (f + [e])[..|f|] == f;
      }
      if !Reconnects(e, k) {
        FilterLast(SinceReconnect(before, k), e, keep);
      }
    }
  }

  lemma {:induction false} TradesConcat(a: seq<Event>, b: seq<Event>, k: string)
    ensures TradesOf(a + b, k) == TradesOf(a, k) + TradesOf(b, k)
  {
    if b == [] {
      assert a + b == a;
    } else {
      assert (a + b)[..|a + b| - 1] == a + b[..|b| - 1];
      TradesConcat(a, b[..|b| - 1], k);
    }
  }

  lemma {:induction false} QuotedConcat(a: seq<Event>, b: seq<Event>, k: string)
    ensures Quoted(a + b, k) == Quoted(a, k) + Quoted(b, k)
  {
    if b == [] {
      assert a + b == a;
    } else {
      assert (a + b)[..|a + b| - 1] == a + b[..|b| - 1];
      QuotedConcat(a, b[..|b| - 1], k);
    }
  }

  // ----- the trades -----

  /**
   * A reconnect of k that was dropped comes after a kept trade of k inside the window, and no kept
   * reconnect of k does.
   */
  ghost predicate Bridged(all: seq<Event>, keep: Event -> bool, k: string, cutoff: int) {
    exists i, j :: 0 <= i < j < |all| && BridgedBy(all, keep, k, cutoff, i, j)
  }

  ghost predicate BridgedBy(all: seq<Event>, keep: Event -> bool, k: string, cutoff: int, i: nat, j: nat)
    requires i < j < |all|
  {
    && TradeOf(all[i], k, cutoff) && keep(all[i]) && Reconnects(all[j], k) && !keep(all[j])
    && Uncleared(all, keep, k, i)
  }

  ghost predicate Uncleared(all: seq<Event>, keep: Event -> bool, k: string, i: nat) {
    forall l :: i < l < |all| ==> !(Reconnects(all[l], k) && keep(all[l]))
  }

  /** A kept trade inside the window after the last kept reconnect. */
  ghost predicate LiveTrade(all: seq<Event>, keep: Event -> bool, k: string, cutoff: int) {
    exists i :: 0 <= i < |all| && LiveAt(all, keep, k, cutoff, i)
  }

  ghost predicate LiveAt(all: seq<Event>, keep: Event -> bool, k: string, cutoff: int, i: nat)
    requires i < |all|
  {
    TradeOf(all[i], k, cutoff) && keep(all[i]) && Uncleared(all, keep, k, i)
  }

  lemma LiveLast(before: seq<Event>, e: Event, keep: Event -> bool, k: string, cutoff: int)
    ensures LiveTrade(before + [e], keep, k, cutoff) <==>
      if Reconnects(e, k) && keep(e) then false
      else LiveTrade(before, keep, k, cutoff) || (TradeOf(e, k, cutoff) && keep(e))
  {
    var all, n := before + [e], |before|;
    assert all[n] == e;
    if LiveTrade(all, keep, k, cutoff) {
      var i :| 0 <= i < |all| && LiveAt(all, keep, k, cutoff, i);
      if i < n {
        assert all[i] == before[i];
        assert Uncleared(before, keep, k, i) by {
          forall l | i < l < n ensures !(Reconnects(before[l], k) && keep(before[l])) { assert all[l] == before[l]; }
        }
        assert LiveAt(before, keep, k, cutoff, i);
      }
    }
    if LiveTrade(before, keep, k, cutoff) && !(Reconnects(e, k) && keep(e)) {
      var i :| 0 <= i < n && LiveAt(before, keep, k, cutoff, i);
      assert all[i] == before[i];
      assert LiveAt(all, keep, k, cutoff, i);
    }
    if TradeOf(e, k, cutoff) && keep(e) && !Reconnects(e, k) { assert LiveAt(all, keep, k, cutoff, n); }
    TradeIsNoReconnect(e, k, cutoff);
  }

  lemma TradeIsNoReconnect(e: Event, k: string, cutoff: int)
    ensures !(TradeOf(e, k, cutoff) && Reconnects(e, k))
  {
    Kinds();
  }

  lemma {:induction false} LiveIsUsed(all: seq<Event>, keep: Event -> bool, k: string, cutoff: int)
    ensures UsedTrades(all, keep, k, cutoff) != [] <==> LiveTrade(all, keep, k, cutoff)
  {
    hide LiveTrade;
    if all == [] {
      NothingYet(k);
      NoLiveTrade(keep, k, cutoff);
    } else {
      var before, e := all[..|all| - 1], all[|all| - 1];
      assert all == before + [e];
      LiveIsUsed(before, keep, k, cutoff);
      LiveLast(before, e, keep, k, cutoff);
      if keep(e) {
        var f := Filter(before, keep);
        SinceLast(f, e, k);
        FilterLast(TradesOf(SinceReconnect(f, k), k), Tick(e.ts, if e.asset.Some? then e.asset.value else "", e.size),
                   (t: Tick) => t.ts >= cutoff);
        TradeIsNoReconnect(e, k, e.ts);
      }
    }
  }

  lemma NoLiveTrade(keep: Event -> bool, k: string, cutoff: int)
    ensures !LiveTrade([], keep, k, cutoff) && !Bridged([], keep, k, cutoff)
    ensures Recent([], cutoff) == []
  {
  }

  lemma BridgedLast(before: seq<Event>, e: Event, keep: Event -> bool, k: string, cutoff: int)
    ensures Bridged(before + [e], keep, k, cutoff) <==>
      if !Reconnects(e, k) then Bridged(before, keep, k, cutoff)
      else !keep(e) && LiveTrade(before, keep, k, cutoff)
  {
    var all, n := before + [e], |before|;
    assert all[n] == e && forall l :: 0 <= l < n ==> all[l] == before[l];
    if Bridged(all, keep, k, cutoff) {
      var i, j :| 0 <= i < j < |all| && BridgedBy(all, keep, k, cutoff, i, j);
      assert Uncleared(before, keep, k, i);
      assert LiveAt(before, keep, k, cutoff, i);
      if !Reconnects(e, k) { assert j < n && BridgedBy(before, keep, k, cutoff, i, j); }
    }
    if !Reconnects(e, k) && Bridged(before, keep, k, cutoff) {
      var i, j :| 0 <= i < j < n && BridgedBy(before, keep, k, cutoff, i, j);
      assert BridgedBy(all, keep, k, cutoff, i, j);
    }
    if Reconnects(e, k) && !keep(e) && LiveTrade(before, keep, k, cutoff) {
      var i :| 0 <= i < n && LiveAt(before, keep, k, cutoff, i);
      assert BridgedBy(all, keep, k, cutoff, i, n);
    }
  }

  lemma {:induction false} OutlivedIsBridged(all: seq<Event>, keep: Event -> bool, k: string, cutoff: int)
    ensures Recent(TradesOf(Outlived(all, keep, k), k), cutoff) != [] <==> Bridged(all, keep, k, cutoff)
  {
    hide Bridged, LiveTrade;
    if all == [] {
      NothingYet(k);
      NoLiveTrade(keep, k, cutoff);
    } else {
      var before, e := all[..|all| - 1], all[|all| - 1];
      assert all == before + [e];
      OutlivedIsBridged(before, keep, k, cutoff);
      BridgedLast(before, e, keep, k, cutoff);
      LiveIsUsed(before, keep, k, cutoff);
      NoLiveTrade(keep, k, cutoff);
      assert TradesOf([], k) == [];
    }
  }

  /**
   * For every recording and every subscription: the trades inside the window that the replay uses are
   * the kept ones since the last recorded reconnect exactly if none of them is bridged.
   */
  lemma TradesUsedExactly(all: seq<Event>, keep: Event -> bool, k: string, cutoff: int)
    ensures UsedTrades(all, keep, k, cutoff) ==
            Recent(TradesOf(Outlived(all, keep, k), k), cutoff) + RecordedTrades(all, keep, k, cutoff)
    ensures UsedTrades(all, keep, k, cutoff) == RecordedTrades(all, keep, k, cutoff) <==>
            !Bridged(all, keep, k, cutoff)
  {
    hide Bridged, Outlived, SinceReconnect, TradesOf;
    var a, b := Outlived(all, keep, k), SinceRecorded(all, keep, k);
    UsedSplits(all, keep, k);
    TradesConcat(a, b, k);
    FilterConcat(TradesOf(a, k), TradesOf(b, k), (t: Tick) => t.ts >= cutoff);
    OutlivedIsBridged(all, keep, k, cutoff);
    var r := Recent(TradesOf(a, k), cutoff);
    if r == [] { assert r + RecordedTrades(all, keep, k, cutoff) == RecordedTrades(all, keep, k, cutoff); }
  }

  // ----- the token ids -----

  /** Assets heard before a cleared state and after it yield the ids that those after it alone yield. */
  predicate SameTokens(old_: seq<string>, new_: seq<string>) {
    old_ == [] ||
    (&& new_ != [] && new_[0] == old_[0]
     && ((forall x :: x in old_ ==> x == old_[0]) || FirstOther(new_) == FirstOther(old_)))
  }

  lemma TokensOf(a: seq<string>, b: seq<string>)
    ensures (First(a + b) == First(b) && FirstOther(a + b) == FirstOther(b)) <==> SameTokens(a, b)
  {
    hide First;
    if a == [] {
      assert a + b == b;
    } else {
      FirstIs(a + b);
      FirstIs(b);
      assert (a + b)[0] == a[0];
      if b != [] && b[0] == a[0] {
        var p, q := (x: string) => a + b != [] && x != (a + b)[0], (x: string) => b != [] && x != b[0];
        var r := (x: string) => a != [] && x != a[0];
        FilterConcat(a, b, p);
        FilterSame(a, p, r);
        FilterSame(b, p, q);
        FilterMembers(a, r);
        FirstIs(Filter(a, r) + Filter(b, q));
        FirstIs(Filter(a, r));
        FirstIs(Filter(b, q));
        if Filter(a, r) == [] {
          assert Filter(a, r) + Filter(b, q) == Filter(b, q);
          forall x | x in a ensures x == a[0] { assert r(x) ==> x in Filter(a, r); }
        } else {
          assert Filter(a, r)[0] in Filter(a, r);
        }
      }
    }
  }

  lemma FirstIs(xs: seq<string>)
    ensures First(xs) == if xs == [] then None else Some(xs[0])
  {
  }

  /** The quotes of k that were heard, and kept, before a dropped reconnect and after it. */
  predicate TokensKept(all: seq<Event>, keep: Event -> bool, k: string) {
    SameTokens(Quoted(Outlived(all, keep, k), k), Quoted(SinceRecorded(all, keep, k), k))
  }

  /** The ids the replay has learned for k are those of the recording. */
  predicate SameIds(all: seq<Event>, keep: Event -> bool, k: string) {
    var used, recorded := Quoted(SinceReconnect(Filter(all, keep), k), k), Quoted(SinceRecorded(all, keep, k), k);
    First(used) == First(recorded) && FirstOther(used) == FirstOther(recorded)
  }

  /** For every recording and every subscription: exactly if the quotes heard on either side agree. */
  lemma TokensUsedExactly(all: seq<Event>, keep: Event -> bool, k: string)
    ensures SameIds(all, keep, k) <==> TokensKept(all, keep, k)
  {
    hide SinceReconnect, Outlived, Quoted, First, FirstOther, SameTokens;
    UsedSplits(all, keep, k);
    QuotedConcat(Outlived(all, keep, k), SinceRecorded(all, keep, k), k);
    TokensOf(Quoted(Outlived(all, keep, k), k), Quoted(SinceRecorded(all, keep, k), k));
  }

  // ----- imbalances and counts -----

  /** No dropped reconnect shows in the imbalance at the last recorded row. */
  ghost predicate Untouched(all: seq<Event>, keep: Event -> bool, window: int)
    requires all != []
  {
    var e := all[|all| - 1];
    !Bridged(all, keep, SubOf(e), e.ts - window) && TokensKept(all, keep, SubOf(e))
  }

  /** The imbalance used at a kept row is that of the recording if no dropped reconnect shows in it. */
  lemma ImbalanceIsRecorded(all: seq<Event>, keep: Event -> bool, window: int)
    requires InTimeOrder(all) && all != [] && keep(all[|all| - 1]) && Untouched(all, keep, window)
    ensures Filter(all, keep) != []
    ensures RollingImbalance(Filter(all, keep), window) == RecordedImbalance(all, keep, window)
  {
    hide Bridged, TokensKept, UsedTrades, RecordedTrades, Quoted, First, FirstOther, Imbalance, RollingImbalance;
    hide Filter, SinceReconnect, FreshImbalance, IsTrade, InTimeOrder, RecordedImbalance, SinceRecorded, SubOf;
    hide SameIds, TradesOf, Recent, RecordedTrades;
    var e := all[|all| - 1];
    var es := Filter(all, keep);
    KeptLast(all, keep);
    assert InTimeOrder(es) by { KeptInOrder(all, keep); }
    ImbalanceIsFresh(es, window);
    FreshIsUsed(es, e, window);
    TradesUsedExactly(all, keep, SubOf(e), e.ts - window);
    UsedIs(all, keep, SubOf(e), e.ts - window);
    TokensUsedExactly(all, keep, SubOf(e));
    RecordedIs(all, keep, e, window);
    IdsAre(all, keep, SubOf(e));
  }

  lemma RecordedIs(all: seq<Event>, keep: Event -> bool, e: Event, window: int)
    requires all != [] && all[|all| - 1] == e
    ensures var quoted := Quoted(SinceRecorded(all, keep, SubOf(e)), SubOf(e));
      RecordedImbalance(all, keep, window) ==
      if !IsTrade(e) then None
      else Imbalance(RecordedTrades(all, keep, SubOf(e), e.ts - window), First(quoted), FirstOther(quoted))
  {
    hide Imbalance, First, FirstOther, Quoted, RecordedTrades, SinceRecorded;
  }

  lemma IdsAre(all: seq<Event>, keep: Event -> bool, k: string)
    requires SameIds(all, keep, k)
    ensures
      var used, recorded := Quoted(SinceReconnect(Filter(all, keep), k), k), Quoted(SinceRecorded(all, keep, k), k);
      First(used) == First(recorded) && FirstOther(used) == FirstOther(recorded)
  {
  }

  lemma KeptLast(all: seq<Event>, keep: Event -> bool)
    requires all != [] && keep(all[|all| - 1])
    ensures var es := Filter(all, keep); es != [] && es[|es| - 1] == all[|all| - 1]
  {
  }

  lemma KeptInOrder(all: seq<Event>, keep: Event -> bool)
    requires InTimeOrder(all)
    ensures InTimeOrder(Filter(all, keep))
  {
    FilterSorted(TimeLe, all, keep);
  }

  lemma UsedIs(all: seq<Event>, keep: Event -> bool, k: string, cutoff: int)
    ensures UsedTrades(all, keep, k, cutoff) == Recent(TradesOf(SinceReconnect(Filter(all, keep), k), k), cutoff)
  {
  }

  lemma FreshIsUsed(es: seq<Event>, e: Event, window: int)
    requires es != [] && es[|es| - 1] == e
    ensures var since := SinceReconnect(es, SubOf(e));
      FreshImbalance(es, window) ==
      if !IsTrade(e) then None
      else Imbalance(Recent(TradesOf(since, SubOf(e)), e.ts - window), First(Quoted(since, SubOf(e))),
                     FirstOther(Quoted(since, SubOf(e))))
  {
    hide Imbalance, First, FirstOther, Quoted, Recent, SinceReconnect;
  }

  /** Kept trade rows whose imbalance, by the recording, is defined and falls into the bucket. */
  function RecordedSignals(all: seq<Event>, keep: Event -> bool, window: int, bucket: string): nat {
    if all == [] then 0
    else
      RecordedSignals(all[..|all| - 1], keep, window, bucket) +
      if keep(all[|all| - 1]) then
        (var o := RecordedImbalance(all, keep, window); if o.Some? && InBucket(bucket, o.value) then 1 else 0)
      else 0
  }

  ghost predicate AllUntouched(all: seq<Event>, keep: Event -> bool, window: int) {
    forall n :: 0 <= n < |all| && IsTrade(all[n]) && keep(all[n]) ==> Untouched(all[..n + 1], keep, window)
  }

  /** If no dropped reconnect shows in any kept trade, the table counts what the recording says. */
  lemma {:induction false} TableCountsRecorded(all: seq<Event>, keep: Event -> bool, window: int, bucket: string)
    requires InTimeOrder(all) && AllUntouched(all, keep, window)
    ensures RowAt(TableOf(Filter(all, keep), window), (bucket, "unknown")) ==
            Row(RecordedSignals(all, keep, window, bucket), 0, 0.0)
  {
    hide Untouched, ObiBucket, InBucket, RollingImbalance, RecordedImbalance;
    if all != [] {
      var before, e := all[..|all| - 1], all[|all| - 1];
      AllUntouchedBefore(all, keep, window);
      TableCountsRecorded(before, keep, window, bucket);
      if keep(e) {
        var f := Filter(before, keep);
        assert (f + [e])[..|f|] == f;
        assert all[..|all|] == all;
        if IsTrade(e) {
          ImbalanceIsRecorded(all, keep, window);
          var o := RecordedImbalance(all, keep, window);
          if o.Some? { BucketExactly(bucket, o.value); }
        } else {
          NoTradeNoImbalance(f + [e], window);
          NoTradeNoRecorded(all, keep, window);
        }
      }
    }
  }

  lemma AllUntouchedBefore(all: seq<Event>, keep: Event -> bool, window: int)
    requires AllUntouched(all, keep, window) && all != []
    ensures AllUntouched(all[..|all| - 1], keep, window)
  {
    hide Untouched;
    var before := all[..|all| - 1];
    forall n | 0 <= n < |before| && IsTrade(before[n]) && keep(before[n])
      ensures Untouched(before[..n + 1], keep, window)
    {
      assert before[..n + 1] == all[..n + 1] && before[n] == all[n];
    }
  }

  lemma NoTradeNoImbalance(es: seq<Event>, window: int)
    requires es != [] && !IsTrade(es[|es| - 1])
    ensures RollingImbalance(es, window) == None
  {
  }

  lemma NoTradeNoRecorded(all: seq<Event>, keep: Event -> bool, window: int)
    requires all != [] && !IsTrade(all[|all| - 1])
    ensures RecordedImbalance(all, keep, window) == None
  {
  }

  // ----- the recorder's tables -----

  function Recorded(pmRows: seq<PmRow>, cexRows: seq<CexRow>): seq<Event> {
    Merge(PmEvents(pmRows), CexEvents(cexRows))
  }

  function Keeps(pmRows: seq<PmRow>, cexRows: seq<CexRow>, maxGap: int, buffer: int): Event -> bool {
    var q := Quarantined(pmRows, cexRows, maxGap, buffer);
    (e: Event) => !Covered(e.ts, q)
  }

  /**
   * End to end over the recording: at every kept trade the trades used are those since the last recorded
   * reconnect exactly if none is bridged, and the ids exactly if the quotes agree; and if that holds at
   * every kept trade, the table counts the imbalances of the recording, bucket by bucket.
   */
  lemma CalibrationAgainstRecording(
      pmRows: seq<PmRow>, cexRows: seq<CexRow>, window: int, maxGap: int, buffer: int)
    requires AscendingRows(pmRows, cexRows)
    ensures var all, keep := Recorded(pmRows, cexRows), Keeps(pmRows, cexRows, maxGap, buffer);
      && Filter(all, keep) == Kept(all, Quarantined(pmRows, cexRows, maxGap, buffer))
      && (forall n, k, cutoff :: 0 <= n <= |all| ==>
            (UsedTrades(all[..n], keep, k, cutoff) == RecordedTrades(all[..n], keep, k, cutoff) <==>
             !Bridged(all[..n], keep, k, cutoff)))
      && (forall n, k :: 0 <= n <= |all| ==> (SameIds(all[..n], keep, k) <==> TokensKept(all[..n], keep, k)))
      && (AllUntouched(all, keep, window) ==>
            forall bucket :: RowAt(TableOf(Filter(all, keep), window), (bucket, "unknown")) ==
                             Row(RecordedSignals(all, keep, window, bucket), 0, 0.0))
  {
    hide UsedTrades, RecordedTrades, Bridged, AllUntouched, RecordedSignals, Covered, Merge, TableOf, Quarantined;
    hide RowAt, SameIds, TokensKept;
    var all, keep := Recorded(pmRows, cexRows), Keeps(pmRows, cexRows, maxGap, buffer);
    forall n, k, cutoff | 0 <= n <= |all|
      ensures UsedTrades(all[..n], keep, k, cutoff) == RecordedTrades(all[..n], keep, k, cutoff) <==>
              !Bridged(all[..n], keep, k, cutoff)
    {
      TradesUsedExactly(all[..n], keep, k, cutoff);
    }
    forall n, k | 0 <= n <= |all| ensures SameIds(all[..n], keep, k) <==> TokensKept(all[..n], keep, k) {
      TokensUsedExactly(all[..n], keep, k);
    }
    if AllUntouched(all, keep, window) {
      MergeSorted(PmEvents(pmRows), CexEvents(cexRows));
      forall bucket ensures RowAt(TableOf(Filter(all, keep), window), (bucket, "unknown")) ==
                            Row(RecordedSignals(all, keep, window, bucket), 0, 0.0)
      {
        TableCountsRecorded(all, keep, window, bucket);
      }
    }
  }

  lemma CoveredIsNear(pmRows: seq<PmRow>, cexRows: seq<CexRow>, maxGap: int, buffer: int, ts: int)
    requires AscendingRows(pmRows, cexRows) && buffer >= 0
    ensures Covered(ts, Quarantined(pmRows, cexRows, maxGap, buffer)) <==>
      NearGap(ts, TimesOf(PmEvents(pmRows)), maxGap, buffer) || NearGap(ts, TimesOf(CexEvents(cexRows)), maxGap, buffer)
  {
    hide Covered, Merged, Sort, NearGap, AscendingRows, Separated;
    TimesOfRows(pmRows, cexRows);
    QuarantineExact(TimesOf(PmEvents(pmRows)), TimesOf(CexEvents(cexRows)), maxGap, buffer, ts);
  }

  lemma InOrder(pmRows: seq<PmRow>, cexRows: seq<CexRow>, i: nat)
    requires AscendingRows(pmRows, cexRows) && i + 1 < |pmRows|
    ensures pmRows[i].ts <= pmRows[i + 1].ts
  {
    var pm := PmEvents(pmRows);
    assert TimeLe(pm[i], pm[i + 1]);
  }

  /** The row that ends a too-long silence of its feed is never kept: so no reconnect after one clears anything. */
  lemma FirstRowAfterGapIsDropped(
      pmRows: seq<PmRow>, cexRows: seq<CexRow>, maxGap: int, buffer: int, i: nat)
    requires AscendingRows(pmRows, cexRows) && buffer >= 0
    requires i + 1 < |pmRows| && pmRows[i + 1].ts - pmRows[i].ts > maxGap
    ensures !Keeps(pmRows, cexRows, maxGap, buffer)(FromPm(pmRows[i + 1]))
  {
    hide Covered, Quarantined, AscendingRows;
    CoveredIsNear(pmRows, cexRows, maxGap, buffer, pmRows[i + 1].ts);
    var ms := TimesOf(PmEvents(pmRows));
    assert ms[i] == pmRows[i].ts && ms[i + 1] == pmRows[i + 1].ts;
    assert IsGap(ms, i, maxGap);
    InOrder(pmRows, cexRows, i);
    assert NearGap(pmRows[i + 1].ts, ms, maxGap, buffer);
  }

  /** One subscription: trades, a silence of ten seconds, a reconnect, and a trade once the buffer is over. */
  function Bridge(): seq<PmRow> {
    var s, a := Some("s"), Some("a");
    [PmRow(0, s, "book", a, 0.0), PmRow(500, s, "last_trade_price", a, 1.0), PmRow(1000, s, "last_trade_price", a, 1.0),
     PmRow(5000, s, "book", a, 0.0), PmRow(10000, s, "book", a, 0.0), PmRow(20000, s, "reconnect", None, 0.0),
     PmRow(22000, s, "book", a, 0.0), PmRow(24000, s, "book", a, 0.0), PmRow(26000, s, "last_trade_price", a, 1.0)]
  }

  /** At the last trade the replay still uses the trades from before the reconnect. */
  lemma ReconnectIsBridged()
    ensures var all, keep := Recorded(Bridge(), []), Keeps(Bridge(), [], 5000, 5000);
      && |all| == 9 && keep(all[8]) && IsTrade(all[8])
      && Bridged(all, keep, "s", all[8].ts - 120000)
      && UsedTrades(all, keep, "s", all[8].ts - 120000) != RecordedTrades(all, keep, "s", all[8].ts - 120000)
  {
    hide UsedTrades, RecordedTrades, Keeps, Recorded, Bridge, TradeOf, Reconnects, IsTrade, Merge;
    var all, keep := Recorded(Bridge(), []), Keeps(Bridge(), [], 5000, 5000);
    BridgeRows();
    BridgeKept();
    forall l | 1 < l < |all| ensures !(Reconnects(all[l], "s") && keep(all[l])) {
      if l != 5 { BridgeQuiet(l); }
    }
    assert Uncleared(all, keep, "s", 1);
    assert BridgedBy(all, keep, "s", all[8].ts - 120000, 1, 5);
    TradesUsedExactly(all, keep, "s", all[8].ts - 120000);
  }

  lemma BridgeIs(l: nat)
    requires l < 9
    ensures |Bridge()| == 9 && |Recorded(Bridge(), [])| == 9 && Recorded(Bridge(), [])[l] == FromPm(Bridge()[l])
  {
    assert Recorded(Bridge(), []) == PmEvents(Bridge());
  }

  lemma BridgeRows()
    ensures var all := Recorded(Bridge(), []);
      && |all| == 9 && all[8].ts == 26000
      && TradeOf(all[1], "s", all[8].ts - 120000) && Reconnects(all[5], "s") && IsTrade(all[8])
  {
    BridgeIs(1);
    BridgeIs(5);
    BridgeIs(8);
    BridgeKinds();
    Kinds();
  }

  /** Only the sixth row is a reconnect. */
  lemma BridgeQuiet(l: nat)
    requires l < 9 && l != 5
    ensures |Recorded(Bridge(), [])| == 9 && !Reconnects(Recorded(Bridge(), [])[l], "s")
  {
    BridgeIs(l);
    BridgeKinds();
    Kinds();
    assert Bridge()[l].etype == "book" || Bridge()[l].etype == "last_trade_price";
  }

  lemma BridgeKept()
    ensures var all, keep := Recorded(Bridge(), []), Keeps(Bridge(), [], 5000, 5000);
      |all| == 9 && keep(all[1]) && !keep(all[5]) && keep(all[8])
  {
    hide Quarantined, Merge, Covered;
    BridgeIs(1);
    BridgeIs(5);
    BridgeIs(8);
    BridgeKeeps(500);
    BridgeKeeps(26000);
    BridgeAscends();
    FirstRowAfterGapIsDropped(Bridge(), [], 5000, 5000, 4);
  }

  lemma BridgeKinds()
    ensures KindOf("last_trade_price") == "pm_trade"
    ensures KindOf("book") == "pm_book" && KindOf("reconnect") == "reconnect"
  {
    assert "last_trade_price"[0] == 'l' && "book"[0] == 'b' && "price_change"[0] == 'p' && "best_bid_ask"[0] == 'b';
    assert "reconnect"[0] == 'r' && |"book"| != |"best_bid_ask"|;
  }

  function BridgeTimes(): seq<int> {
    [0, 500, 1000, 5000, 10000, 20000, 22000, 24000, 26000]
  }

  lemma BridgeTimesAre()
    ensures TimesOf(PmEvents(Bridge())) == BridgeTimes()
  {
    hide KindOf;
  }

  lemma BridgeAscends()
    ensures AscendingRows(Bridge(), [])
  {
    hide Bridge, KindOf;
    BridgeTimesAre();
    var pm := PmEvents(Bridge());
    forall i, j | 0 <= i < j < |pm| ensures TimeLe(pm[i], pm[j]) {
      assert pm[i].ts == TimesOf(pm)[i] && pm[j].ts == TimesOf(pm)[j];
    }
  }

  lemma BridgeKeeps(ts: int)
    requires ts < 5000 || ts > 25000
    ensures !Covered(ts, Quarantined(Bridge(), [], 5000, 5000))
  {
    hide Covered, Quarantined, Bridge, NearGap;
    BridgeAscends();
    BridgeTimesAre();
    CoveredIsNear(Bridge(), [], 5000, 5000, ts);
    FarFromBridge(ts);
    NoRowsNoGap(ts, 5000, 5000);
    assert TimesOf(CexEvents([])) == [];
  }

  lemma NoRowsNoGap(ts: int, maxGap: int, buffer: int)
    ensures !NearGap(ts, [], maxGap, buffer)
  {
  }

  lemma FarFromBridge(ts: int)
    requires ts < 5000 || ts > 25000
    ensures !NearGap(ts, BridgeTimes(), 5000, 5000)
  {
    var ms := BridgeTimes();
    forall i: nat | i + 1 < |ms| && IsGap(ms, i, 5000) ensures i == 4 {}
  }
}
