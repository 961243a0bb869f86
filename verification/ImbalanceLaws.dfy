/** What the imbalance of a trade is and where it is counted, told from recorder rows and their sizes. */
module ImbalanceLaws {
  import opened Sums
  import opened Sorting
  import opened Trades
  import opened EventMerge
  import opened Calibration

  function SizesOf(ts: seq<Tick>): seq<real> {
    seq(|ts|, i requires 0 <= i < |ts| => ts[i].size)
  }

  /** Total size of the trades of one token id. */
  function WeightOf(ts: seq<Tick>, id: string): real {
    Total(SizesOf(Filter(ts, (t: Tick) => t.asset == id)))
  }

  lemma {:induction false} VolumeIsWeight(ts: seq<Tick>, id: string)
    ensures Volume(ts, Some(id)) == WeightOf(ts, id) && Volume(ts, None) == 0.0
  {
    if ts == [] {
      assert SizesOf([]) == [];
    } else {
      var n := |ts| - 1;
      VolumeIsWeight(ts[..n], id);
      var f := Filter(ts[..n], (t: Tick) => t.asset == id);
      assert SizesOf(f + [ts[n]]) == SizesOf(f) + [ts[n].size];
      TotalLast(SizesOf(f), ts[n].size);
    }
  }

  /** The weight of the NO side; there is none before its id is known. */
  function NoWeight(ts: seq<Tick>, no: Option<string>): real {
    if no.None? then 0.0 else WeightOf(ts, no.value)
  }

  /**
   * The imbalance exists exactly with two trades, a YES id and a total weight of one; it is the
   * difference of both weights in proportion to their sum.
   */
  lemma ImbalanceExactly(ts: seq<Tick>, yes: Option<string>, no: Option<string>)
    ensures Imbalance(ts, yes, no).Some? <==>
      |ts| >= 2 && yes.Some? && yes.value != "" && WeightOf(ts, yes.value) + NoWeight(ts, no) >= 1.0
    ensures Imbalance(ts, yes, no).Some? ==>
      var r, y, n := Imbalance(ts, yes, no).value, WeightOf(ts, yes.value), NoWeight(ts, no);
      r * (y + n) == y - n
  {
    if yes.Some? { VolumeIsWeight(ts, yes.value); }
    VolumeIsWeight(ts, if no.Some? then no.value else "");
    if Imbalance(ts, yes, no).Some? { Proportion(WeightOf(ts, yes.value), NoWeight(ts, no)); }
  }

  lemma Proportion(y: real, n: real)
    requires y + n >= 1.0
    ensures (y - n) / (y + n) * (y + n) == y - n
  {
  }

  /** Exchanging the ids negates it. */
  lemma ExchangeNegates(ts: seq<Tick>, a: string, b: string)
    requires a != "" && b != ""
    ensures Imbalance(ts, Some(a), Some(b)).Some? <==> Imbalance(ts, Some(b), Some(a)).Some?
    ensures Imbalance(ts, Some(a), Some(b)).Some? ==>
      Imbalance(ts, Some(b), Some(a)).value == -Imbalance(ts, Some(a), Some(b)).value
  {
    hide Volume;
    var y, n := Volume(ts, Some(a)), Volume(ts, Some(b));
    if y + n >= 1.0 { Negated(y - n, y + n); }
  }

  lemma Negated(x: real, d: real)
    requires d >= 1.0
    ensures (0.0 - x) / d == -(x / d)
  {
  }

  lemma {:induction false} NoWeightOf(ts: seq<Tick>, id: string)
    requires forall t :: t in ts ==> t.asset != id
    ensures WeightOf(ts, id) == 0.0
  {
    FilterNone(ts, (t: Tick) => t.asset == id);
  }

  /** Trades of one side alone give the extremes. */
  lemma OneSided(ts: seq<Tick>, yes: string, no: string)
    requires |ts| >= 2 && yes != "" && yes != no
    ensures (forall t :: t in ts ==> t.asset == yes) && WeightOf(ts, yes) >= 1.0 ==>
      Imbalance(ts, Some(yes), Some(no)) == Some(1.0)
    ensures (forall t :: t in ts ==> t.asset == no) && WeightOf(ts, no) >= 1.0 ==>
      Imbalance(ts, Some(yes), Some(no)) == Some(-1.0)
  {
    VolumeIsWeight(ts, yes);
    VolumeIsWeight(ts, no);
    if (forall t :: t in ts ==> t.asset == yes) && WeightOf(ts, yes) >= 1.0 {
      NoWeightOf(ts, no);
      Whole(WeightOf(ts, yes));
    }
    if (forall t :: t in ts ==> t.asset == no) && WeightOf(ts, no) >= 1.0 {
      NoWeightOf(ts, yes);
      Whole(WeightOf(ts, no));
    }
  }

  lemma Whole(w: real)
    requires w >= 1.0
    ensures (w - 0.0) / (w + 0.0) == 1.0 && (0.0 - w) / (0.0 + w) == -1.0
  {
    Negated(w, w);
  }

  // ----- from recorder rows to the table -----

  /** A trade of the subscription that is not older than the cutoff. */
  predicate TradeSince(e: Event, k: string, cutoff: int) {
    && e.kind == "pm_trade" && (if e.sub.Some? then e.sub.value else "") == k
    && e.size > 0.0 && e.asset.Some? && e.asset.value != "" && e.ts >= cutoff
  }

  /** The events that enter the imbalance at the last one. */
  function Entering(es: seq<Event>, window: int): seq<Event>
    requires es != []
  {
    var e := es[|es| - 1];
    Filter(SinceReconnect(es, SubOf(e)), (x: Event) => TradeSince(x, SubOf(e), e.ts - window))
  }

  function EventSizes(es: seq<Event>): seq<real> {
    seq(|es|, i requires 0 <= i < |es| => es[i].size)
  }

  function SizeUnder(es: seq<Event>, id: string): real {
    Total(EventSizes(Filter(es, (x: Event) => x.asset == Some(id))))
  }

  /** Their total size under one token id; an unknown id weighs nothing. */
  function EnteringWeight(es: seq<Event>, window: int, id: Option<string>): real
    requires es != []
  {
    if id.None? then 0.0 else SizeUnder(Entering(es, window), id.value)
  }

  ghost predicate SameTrades(ts: seq<Tick>, es: seq<Event>) {
    |ts| == |es| && forall i :: 0 <= i < |es| ==>
      es[i].asset == Some(ts[i].asset) && es[i].size == ts[i].size && es[i].ts == ts[i].ts
  }

  lemma {:induction false} RecentAre(es: seq<Event>, k: string, cutoff: int)
    ensures SameTrades(Recent(TradesOf(es, k), cutoff), Filter(es, (x: Event) => TradeSince(x, k, cutoff)))
  {
    if es != [] {
      var n := |es| - 1;
      var ts, e := TradesOf(es[..n], k), es[n];
      RecentAre(es[..n], k, cutoff);
      if IsTrade(e) && SubOf(e) == k {
        var t := Tick(e.ts, e.asset.value, e.size);
        assert TradesOf(es, k) == ts + [t] && (ts + [t])[..|ts|] == ts;
        assert Recent(ts + [t], cutoff) == if t.ts >= cutoff then Recent(ts, cutoff) + [t] else Recent(ts, cutoff);
      } else {
        assert TradesOf(es, k) == ts + [] == ts;
        assert !TradeSince(e, k, cutoff);
      }
    }
  }

  lemma OneMoreTick(ts: seq<Tick>, t: Tick, id: string)
    ensures WeightOf(ts + [t], id) == WeightOf(ts, id) + if t.asset == id then t.size else 0.0
  {
    var f := Filter(ts, (x: Tick) => x.asset == id);
    assert (ts + [t])[..|ts|] == ts;
    assert SizesOf(f + [t]) == SizesOf(f) + [t.size];
    TotalLast(SizesOf(f), t.size);
  }

  lemma OneMoreEvent(es: seq<Event>, e: Event, id: string)
    ensures SizeUnder(es + [e], id) == SizeUnder(es, id) + if e.asset == Some(id) then e.size else 0.0
  {
    var f := Filter(es, (x: Event) => x.asset == Some(id));
    assert (es + [e])[..|es|] == es;
    assert EventSizes(f + [e]) == EventSizes(f) + [e.size];
    TotalLast(EventSizes(f), e.size);
  }

  lemma NoSizes(id: string)
    ensures WeightOf([], id) == 0.0 == SizeUnder([], id)
  {
    assert SizesOf([]) == [] && EventSizes([]) == [];
  }

  lemma {:induction false} SameWeights(ts: seq<Tick>, es: seq<Event>, id: string)
    requires SameTrades(ts, es)
    ensures WeightOf(ts, id) == SizeUnder(es, id)
  {
    hide WeightOf, SizeUnder;
    if es == [] {
      NoSizes(id);
    } else {
      var n := |es| - 1;
      SameWeights(ts[..n], es[..n], id);
      OneMoreTick(ts[..n], ts[n], id);
      OneMoreEvent(es[..n], es[n], id);
      assert ts == ts[..n] + [ts[n]] && es == es[..n] + [es[n]];
    }
  }

  /** Whether an imbalance of diff to total falls into the bucket, with the quotient multiplied out. */
  predicate Proportioned(bucket: string, diff: real, total: real) {
    var d := if diff < 0.0 then -diff else diff;
    || (bucket == "obi<0.10" && d < 0.10 * total)
    || (bucket == "obi:0.10-0.20" && 0.10 * total <= d < 0.20 * total)
    || (bucket == "obi:0.20-0.30" && 0.20 * total <= d < 0.30 * total)
    || (bucket == "obi:0.30-0.50" && 0.30 * total <= d < 0.50 * total)
    || (bucket == "obi>=0.50" && 0.50 * total <= d)
  }

  lemma Below(r: real, c: real, total: real)
    requires total >= 1.0
    ensures r < c <==> r * total < c * total
  {
    if r < c { assert (c - r) * total > 0.0; } else { assert (r - c) * total >= 0.0; }
  }

  lemma SizeOfProduct(r: real, total: real)
    requires total >= 1.0
    ensures (if r < 0.0 then -r else r) * total == if r * total < 0.0 then -(r * total) else r * total
  {
    Below(r, 0.0, total);
    assert -r * total == -(r * total);
  }

  /** The bucket, from where the size of the imbalance lies among the thresholds. */
  predicate Placed(bucket: string, tenth: bool, fifth: bool, third: bool, half: bool) {
    || (bucket == "obi<0.10" && tenth)
    || (bucket == "obi:0.10-0.20" && !tenth && fifth)
    || (bucket == "obi:0.20-0.30" && !fifth && third)
    || (bucket == "obi:0.30-0.50" && !third && half)
    || (bucket == "obi>=0.50" && !half)
  }

  lemma PlacedBySize(bucket: string, r: real)
    ensures var a := if r < 0.0 then -r else r;
      InBucket(bucket, r) <==> Placed(bucket, a < 0.10, a < 0.20, a < 0.30, a < 0.50)
  {
  }

  lemma PlacedByProportion(bucket: string, diff: real, total: real)
    ensures var d := if diff < 0.0 then -diff else diff;
      Proportioned(bucket, diff, total) <==>
      Placed(bucket, d < 0.10 * total, d < 0.20 * total, d < 0.30 * total, d < 0.50 * total)
  {
  }

  lemma BucketByProportion(bucket: string, r: real, diff: real, total: real)
    requires total >= 1.0 && r * total == diff
    ensures InBucket(bucket, r) <==> Proportioned(bucket, diff, total)
  {
    hide InBucket, Proportioned, Placed;
    var d := if diff < 0.0 then -diff else diff;
    var a := if r < 0.0 then -r else r;
    SizeOfProduct(r, total);
    Below(a, 0.10, total);
    Below(a, 0.20, total);
    Below(a, 0.30, total);
    Below(a, 0.50, total);
    assert a * total == d;
    assert (a < 0.10) == (d < 0.10 * total) && (a < 0.20) == (d < 0.20 * total);
    assert (a < 0.30) == (d < 0.30 * total) && (a < 0.50) == (d < 0.50 * total);
    PlacedBySize(bucket, r);
    PlacedByProportion(bucket, diff, total);
  }

  /** Whether the last event is counted in the bucket, by the sizes of the trades that enter. */
  ghost predicate CountsIn(es: seq<Event>, window: int, bucket: string)
    requires es != []
  {
    var e := es[|es| - 1];
    var since := SinceReconnect(es, SubOf(e));
    var yes, no := First(Quoted(since, SubOf(e))), FirstOther(Quoted(since, SubOf(e)));
    var y, n := EnteringWeight(es, window, yes), EnteringWeight(es, window, no);
    && TradeSince(e, SubOf(e), e.ts) && |Entering(es, window)| >= 2 && yes.Some? && y + n >= 1.0
    && Proportioned(bucket, y - n, y + n)
  }

  lemma {:induction false} QuotedNonEmpty(es: seq<Event>, k: string)
    ensures forall x :: x in Quoted(es, k) ==> x != ""
  {
    if es != [] { QuotedNonEmpty(es[..|es| - 1], k); }
  }

  /** The from-scratch imbalance falls into the bucket exactly by those sizes. */
  lemma FreshByWeights(es: seq<Event>, window: int, bucket: string)
    requires es != []
    ensures FreshImbalance(es, window).Some? && InBucket(bucket, FreshImbalance(es, window).value) <==>
            CountsIn(es, window, bucket)
  {
    hide Imbalance, InBucket, Proportioned, WeightOf, SinceReconnect, Recent, TradesOf, Quoted, FirstOther;
    var e := es[|es| - 1];
    var k := SubOf(e);
    var since := SinceReconnect(es, k);
    var ts, q := Recent(TradesOf(since, k), e.ts - window), Quoted(since, k);
    var yes, no := First(q), FirstOther(q);
    assert yes.Some? ==> yes.value in q;
    RecentAre(since, k, e.ts - window);
    QuotedNonEmpty(since, k);
    if yes.Some? { SameWeights(ts, Entering(es, window), yes.value); }
    if no.Some? { SameWeights(ts, Entering(es, window), no.value); }
    ImbalanceExactly(ts, yes, no);
    if IsTrade(e) && Imbalance(ts, yes, no).Some? {
      var r := Imbalance(ts, yes, no).value;
      var y, n := WeightOf(ts, yes.value), NoWeight(ts, no);
      BucketByProportion(bucket, r, y - n, y + n);
    }
  }

  /**
   * After every event, the row of a bucket has gone up by one if the sizes put the event there, and is
   * as it was otherwise.
   */
  lemma CountedWhere(es: seq<Event>, window: int, bucket: string)
    requires InTimeOrder(es) && es != []
    ensures RowAt(TableOf(es, window), (bucket, "unknown")).signals ==
            RowAt(TableOf(es[..|es| - 1], window), (bucket, "unknown")).signals +
            if CountsIn(es, window, bucket) then 1 else 0
  {
    hide RowAt, TableOf, CountsIn, InBucket, FreshImbalance;
    PrefixInOrder(es);
    TableCounts(es, window, bucket);
    TableCounts(es[..|es| - 1], window, bucket);
    FreshByWeights(es, window, bucket);
  }

  /** Balanced flow counts as the smallest imbalance, and one-sided flow as the largest. */
  lemma BalancedFlow(bucket: string, y: real)
    requires y > 0.0
    ensures Proportioned(bucket, y - y, y + y) <==> bucket == "obi<0.10"
    ensures Proportioned(bucket, y, y) <==> bucket == "obi>=0.50"
    ensures Proportioned(bucket, 0.0 - y, y) <==> bucket == "obi>=0.50"
  {
  }

  // ----- what each kind of recorder row is for -----

  /** Types of rows as the recorder writes them. */
  lemma RowKinds(r: PmRow)
    ensures IsTrade(FromPm(r)) <==>
      (r.etype == "last_trade_price" || r.etype == "trade") && r.size > 0.0 && r.asset.Some? && r.asset.value != ""
    ensures IsQuote(FromPm(r)) <==>
      r.etype == "book" || r.etype == "price_change" || r.etype == "best_bid_ask" || r.etype == "price"
    ensures IsReconnect(FromPm(r)) <==> r.etype == "reconnect" && r.sub.Some? && r.sub.value != ""
  {
    assert ("pm_" + r.etype)[3..] == r.etype && ("pm_" + r.etype)[0] == 'p';
    assert "pm_trade" == "pm_" + "trade" && "pm_book" == "pm_" + "book" && "pm_price" == "pm_" + "price";
    assert "reconnect"[0] == 'r' && "pm_trade"[3] == 't' && "pm_book"[3] == 'b' && "pm_price"[3] == 'p';
  }

  /**
   * A reconnect forgets its subscription and no other; exchange trades, rows of any other type and
   * reconnects of no subscription change nothing.
   */
  lemma RowEffects(m: Subs, r: PmRow, c: CexRow, window: int)
    ensures After(m, FromCex(c), window) == m
    ensures r.etype == "reconnect" && r.sub.Some? && r.sub.value != "" ==>
      After(m, FromPm(r), window) == m - {r.sub.value}
    ensures r.etype == "reconnect" && (r.sub.None? || r.sub.value == "") ==> After(m, FromPm(r), window) == m
    ensures r.etype !in {"book", "price_change", "best_bid_ask", "price", "last_trade_price", "trade", "reconnect"} ==>
      After(m, FromPm(r), window) == m
  {
    RowKinds(r);
    assert ("pm_" + r.etype)[3..] == r.etype && ("pm_" + r.etype)[0] == 'p' && "pm_trade" == "pm_" + "trade";
    assert "cex_trade"[0] == 'c' && "reconnect"[0] == 'r';
  }
}
