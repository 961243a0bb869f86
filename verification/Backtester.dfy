/** The order-book backtester: simulated fills and its average-cost book. */
module Backtester {
  import opened Sums
  import opened Trades
  import opened Fifo
  import opened Dashboard

  datatype Book = Book(token: string, bids: seq<real>, asks: seq<real>, at: int)

  /** A decision of the strategy: token, side, limit price, size. */
  datatype Decision = Decision(token: string, side: string, limit: real, size: real)

  datatype SimTrade = SimTrade(token: string, side: string, price: real, size: real, at: int)

  function Lowest(xs: seq<real>): Option<real> {
    if xs == [] then None
    else
      match Lowest(xs[1..])
      case None => Some(xs[0])
      case Some(y) => Some(Min(xs[0], y))
  }

  function Highest(xs: seq<real>): Option<real> {
    if xs == [] then None
    else
      match Highest(xs[1..])
      case None => Some(xs[0])
      case Some(y) => Some(Max(xs[0], y))
  }

  /** A fill, if any, is at the best opposite price, and that is no worse than the limit. */
  function SimulateFill(book: Book, side: string, limit: real): (r: Option<real>)
    ensures r.Some? && side == "BUY" ==> r.value in book.asks && r.value <= limit
    ensures r.Some? && side == "SELL" ==> r.value in book.bids && r.value >= limit
    ensures r.Some? && side == "BUY" ==> forall a :: a in book.asks ==> r.value <= a
    ensures r.Some? && side == "SELL" ==> forall b :: b in book.bids ==> r.value >= b
    ensures r.Some? ==> side == "BUY" || side == "SELL"
    ensures side == "BUY" ==> (r.None? <==> forall a :: a in book.asks ==> limit < a)
    ensures side == "SELL" ==> (r.None? <==> forall b :: b in book.bids ==> limit > b)
  {
    LowestIs(book.asks);
    HighestIs(book.bids);
    if side == "BUY" then
      var ask := Lowest(book.asks);
      if ask.None? || limit < ask.value then None else ask
    else if side == "SELL" then
      var bid := Highest(book.bids);
      if bid.None? || limit > bid.value then None else bid
    else None
  }

  lemma {:induction false} LowestIs(xs: seq<real>)
    ensures Lowest(xs).None? <==> xs == []
    ensures xs != [] ==> Lowest(xs).value in xs && forall x :: x in xs ==> Lowest(xs).value <= x
  {
    if xs != [] {
      LowestIs(xs[1..]);
      assert xs == [xs[0]] + xs[1..];
    }
  }

  lemma {:induction false} HighestIs(xs: seq<real>)
    ensures Highest(xs).None? <==> xs == []
    ensures xs != [] ==> Highest(xs).value in xs && forall x :: x in xs ==> Highest(xs).value >= x
  {
    if xs != [] {
      HighestIs(xs[1..]);
      assert xs == [xs[0]] + xs[1..];
    }
  }

  // ----- the book of one token -----

  datatype Holding = Holding(size: real, cost: real)

  function HoldingStep(h: Holding, t: SimTrade): Holding {
    if t.side == "BUY" then Holding(h.size + t.size, h.cost + Times(t.size, t.price))
    else
      var size := h.size - t.size;
      Holding(size, Times(size, UnitCost(h)))
  }

  function UnitCost(h: Holding): real {
    if h.size > 0.0 then h.cost / h.size else 0.0
  }

  function Gain(h: Holding, t: SimTrade): real {
    if t.side == "BUY" then 0.0 else Times(t.size, t.price - UnitCost(h))
  }

  // ----- all tokens -----

  datatype Ledger = Ledger(holdings: map<string, Holding>, realised: real)

  function At(m: map<string, Holding>, token: string): Holding {
    if token in m then m[token] else Holding(0.0, 0.0)
  }

  function Replayed(ts: seq<SimTrade>): Ledger {
    if ts == [] then Ledger(map[], 0.0)
    else
      var l, t := Replayed(ts[..|ts| - 1]), ts[|ts| - 1];
      var h := At(l.holdings, t.token);
      Ledger(l.holdings[t.token := HoldingStep(h, t)], l.realised + Gain(h, t))
  }

  /** The trades that the decisions taken at the given books lead to, in order. */
  function FillsAt(book: Book, ds: seq<Decision>): seq<SimTrade> {
    if ds == [] then []
    else
      var d := ds[|ds| - 1];
      var before := FillsAt(book, ds[..|ds| - 1]);
      match SimulateFill(book, d.side, d.limit)
      case None => before
      case Some(p) => before + [SimTrade(d.token, d.side, p, d.size, book.at)]
  }

  function Fills(books: seq<Book>, decisions: seq<seq<Decision>>, known: set<string>): seq<SimTrade>
    requires |decisions| == |books|
  {
    if books == [] then []
    else
      var n := |books| - 1;
      Fills(books[..n], decisions[..n], known) +
      if books[n].token in known then FillsAt(books[n], decisions[n]) else []
  }

  /** The trade of a decision that its book fills. */
  predicate TradeOf(book: Book, d: Decision, t: SimTrade) {
    && t.token == d.token && t.side == d.side && t.size == d.size && t.at == book.at
    && SimulateFill(book, d.side, d.limit) == Some(t.price)
  }

  lemma {:induction false} FillsAtAre(book: Book, ds: seq<Decision>)
    ensures forall t :: t in FillsAt(book, ds) ==> exists d :: d in ds && TradeOf(book, d, t)
    ensures forall d :: d in ds && SimulateFill(book, d.side, d.limit).Some? ==>
      exists t :: t in FillsAt(book, ds) && TradeOf(book, d, t)
  {
    hide SimulateFill;
    if ds != [] {
      var n := |ds| - 1;
      FillsAtAre(book, ds[..n]);
      assert ds == ds[..n] + [ds[n]];
      var o := SimulateFill(book, ds[n].side, ds[n].limit);
      if o.Some? {
        var t := SimTrade(ds[n].token, ds[n].side, o.value, ds[n].size, book.at);
        assert t in FillsAt(book, ds) && TradeOf(book, ds[n], t);
      }
    }
  }

  ghost predicate FilledAt(books: seq<Book>, decisions: seq<seq<Decision>>, known: set<string>, i: nat, t: SimTrade)
    requires i < |books| == |decisions|
  {
    books[i].token in known && exists d :: d in decisions[i] && TradeOf(books[i], d, t)
  }

  /** Every fill is that of a decision taken at a book of a known token, and every such decision that fills is there. */
  lemma {:induction false} FillsExactly(books: seq<Book>, decisions: seq<seq<Decision>>, known: set<string>)
    requires |decisions| == |books|
    ensures forall t :: t in Fills(books, decisions, known) <==>
      exists i :: 0 <= i < |books| && FilledAt(books, decisions, known, i, t)
  {
    hide FillsAt, SimulateFill, TradeOf;
    if books != [] {
      var n := |books| - 1;
      FillsExactly(books[..n], decisions[..n], known);
      FillsAtAre(books[n], decisions[n]);
      forall t
        ensures t in Fills(books, decisions, known) <==>
          exists i :: 0 <= i < |books| && FilledAt(books, decisions, known, i, t)
      {
        SameTrade(books[n], decisions[n], t);
        if t in Fills(books[..n], decisions[..n], known) {
          var i :| 0 <= i < n && FilledAt(books[..n], decisions[..n], known, i, t);
          assert FilledAt(books, decisions, known, i, t);
        }
        if i :| 0 <= i < n && FilledAt(books, decisions, known, i, t) {
          assert FilledAt(books[..n], decisions[..n], known, i, t);
        }
        assert t in FillsAt(books[n], decisions[n]) && books[n].token in known ==>
          FilledAt(books, decisions, known, n, t);
      }
    }
  }

  lemma SameTrade(book: Book, ds: seq<Decision>, t: SimTrade)
    ensures t in FillsAt(book, ds) <==> exists d :: d in ds && TradeOf(book, d, t)
  {
    hide SimulateFill, FillsAt;
    FillsAtAre(book, ds);
    if d :| d in ds && TradeOf(book, d, t) {
      var u :| u in FillsAt(book, ds) && TradeOf(book, d, u);
      assert t == u;
    }
  }

  /** Books one simulated trade in the cost and size dictionaries. */
  method BookTrade(cost: map<string, real>, size: map<string, real>, realised: real, t: SimTrade, ghost l: Ledger)
    returns (cost': map<string, real>, size': map<string, real>, realised': real)
    requires SameBook(cost, size, l.holdings) && realised == l.realised
    ensures var h := At(l.holdings, t.token);
      SameBook(cost', size', l.holdings[t.token := HoldingStep(h, t)]) && realised' == l.realised + Gain(h, t)
  {
    hide Times;
    cost', size', realised' := cost, size, realised;
    var c := if t.token in cost then cost[t.token] else 0.0;
    var s := if t.token in size then size[t.token] else 0.0;
    if t.side == "BUY" {
      cost' := cost[t.token := c + Times(t.size, t.price)];
      size' := size[t.token := s + t.size];
    } else {
      var avg := if s > 0.0 then c / s else 0.0;
      realised' := realised + Times(t.size, t.price - avg);
      size' := size[t.token := s - t.size];
      cost' := cost[t.token := Times(s - t.size, avg)];
    }
  }

  /** The running total after each of the trades. */
  ghost predicate IsCurve(curve: seq<(int, real)>, trades: seq<SimTrade>) {
    && |curve| == |trades|
    && forall j :: 0 <= j < |curve| ==> curve[j] == (trades[j].at, Replayed(trades[..j + 1]).realised)
  }

  lemma CurveExtends(curve: seq<(int, real)>, trades: seq<SimTrade>, t: SimTrade)
    requires IsCurve(curve, trades)
    ensures IsCurve(curve + [(t.at, Replayed(trades + [t]).realised)], trades + [t])
  {
    var us, points := trades + [t], curve + [(t.at, Replayed(trades + [t]).realised)];
    forall j | 0 <= j < |points| ensures points[j] == (us[j].at, Replayed(us[..j + 1]).realised) {
      if j < |trades| { assert us[..j + 1] == trades[..j + 1]; } else { assert us[..j + 1] == us; }
    }
  }

  /** `decisions[i]` is what the strategy returns for `books[i]`; `known` are the tokens with a market. */
  method Run(books: seq<Book>, decisions: seq<seq<Decision>>, known: set<string>)
    returns (trades: seq<SimTrade>, realised: real, curve: seq<(int, real)>)
    requires |decisions| == |books|
    ensures trades == Fills(books, decisions, known)
    ensures realised == Replayed(trades).realised
    ensures IsCurve(curve, trades)
  {
    hide Times, HoldingStep, Gain, SimulateFill, SameBook, IsCurve, Fills, FillsAt, Replayed;
    trades, realised, curve := [], 0.0, [];
    var cost: map<string, real>, size: map<string, real> := map[], map[];
    StartOfRun(known);
    for i := 0 to |books|
      invariant trades == Fills(books[..i], decisions[..i], known)
      invariant realised == Replayed(trades).realised
      invariant SameBook(cost, size, Replayed(trades).holdings) && IsCurve(curve, trades)
    {
      var book := books[i];
      FillsNext(books, decisions, known, i);
      if book.token !in known {
        continue;
      }
      ghost var before := trades;
      var ds := decisions[i];
      NoFillsYet(book, before);
      for k := 0 to |ds|
        invariant trades == before + FillsAt(book, ds[..k])
        invariant realised == Replayed(trades).realised
        invariant SameBook(cost, size, Replayed(trades).holdings) && IsCurve(curve, trades)
      {
        var d := ds[k];
        FillsAtNext(book, ds, k);
        var p := SimulateFill(book, d.side, d.limit);
        if p.None? {
          continue;
        }
        var t := SimTrade(d.token, d.side, p.value, d.size, book.at);
        cost, size, realised := BookTrade(cost, size, realised, t, Replayed(trades));
        CurveExtends(curve, trades, t);
        ReplayedNext(trades, t);
        trades := trades + [t];
        curve := curve + [(book.at, realised)];
      }
      assert ds[..|ds|] == ds;
    }
    assert books[..|books|] == books && decisions[..|decisions|] == decisions;
  }

  lemma StartOfRun(known: set<string>)
    ensures SameBook(map[], map[], map[]) && IsCurve([], []) && Replayed([]) == Ledger(map[], 0.0)
    ensures Fills([], [], known) == []
  {
  }

  lemma NoFillsYet(book: Book, before: seq<SimTrade>)
    ensures before + FillsAt(book, []) == before
  {
  }

  lemma FillsNext(books: seq<Book>, decisions: seq<seq<Decision>>, known: set<string>, i: nat)
    requires i < |books| == |decisions|
    ensures Fills(books[..i + 1], decisions[..i + 1], known) ==
            Fills(books[..i], decisions[..i], known) +
            if books[i].token in known then FillsAt(books[i], decisions[i]) else []
  {
    hide FillsAt;
    assert books[..i + 1][..i] == books[..i] && decisions[..i + 1][..i] == decisions[..i];
  }

  lemma FillsAtNext(book: Book, ds: seq<Decision>, k: nat)
    requires k < |ds|
    ensures var d, before := ds[k], FillsAt(book, ds[..k]);
      FillsAt(book, ds[..k + 1]) ==
      match SimulateFill(book, d.side, d.limit)
      case None => before
      case Some(p) => before + [SimTrade(d.token, d.side, p, d.size, book.at)]
  {
    hide SimulateFill;
    assert ds[..k + 1][..k] == ds[..k];
  }

  lemma ReplayedNext(ts: seq<SimTrade>, t: SimTrade)
    ensures var l := Replayed(ts);
      var h := At(l.holdings, t.token);
      Replayed(ts + [t]) == Ledger(l.holdings[t.token := HoldingStep(h, t)], l.realised + Gain(h, t))
  {
    hide HoldingStep, Gain;
    assert (ts + [t])[..|ts|] == ts;
  }

  /** The two dictionaries of the loop together are the holdings. */
  ghost predicate SameBook(cost: map<string, real>, size: map<string, real>, m: map<string, Holding>) {
    cost.Keys == size.Keys == m.Keys && forall k :: k in m ==> m[k] == Holding(size[k], cost[k])
  }

  // ----- agreement with the moving average and with FIFO -----

  /** A simulated trade as a trade row without a fee. */
  function AsTrade(t: SimTrade): Trade {
    Trade("", "", None, "", t.token, t.side, t.price, t.size, 0.0, t.at)
  }

  function AsTrades(ts: seq<SimTrade>): seq<Trade> {
    seq(|ts|, i requires 0 <= i < |ts| => AsTrade(ts[i]))
  }

  ghost predicate Plain(ts: seq<SimTrade>) {
    forall i :: 0 <= i < |ts| ==> ts[i].size > 0.0 && (ts[i].side == "BUY" || ts[i].side == "SELL")
  }

  lemma AsTradesLast(ts: seq<SimTrade>)
    requires ts != []
    ensures AsTrades(ts)[..|ts| - 1] == AsTrades(ts[..|ts| - 1])
  {
  }

  /** A covered SELL without a fee, in the moving-average book. */
  lemma BucketSell(b: Bucket, t: Trade)
    requires BaseSide(t.side) == Sell && 0.0 < t.size <= b.size && t.fee == 0.0
    ensures var c, u := BucketStep(b, t), UnitCost(Holding(b.size, b.cost));
      && c.size == b.size - t.size
      && c.cost == (if c.size <= 0.0 then 0.0 else b.cost - Times(t.size, u))
      && c.closed == b.closed + [Times(t.size, t.price) - Times(t.size, u)]
  {
    hide Times, FeeShare;
    NoFee(t);
  }

  lemma BucketBuy(b: Bucket, t: Trade)
    requires BaseSide(t.side) == Buy && t.fee == 0.0
    ensures var c := BucketStep(b, t);
      c.size == b.size + t.size && c.cost == b.cost + Times(t.size, t.price) && c.closed == b.closed
  {
    hide Times;
  }

  lemma AllAtUnitCost(size: real, cost: real)
    requires size > 0.0
    ensures Times(size, UnitCost(Holding(size, cost))) == cost
  {
    AllAtAverage(size, cost);
  }

  lemma StepAgrees(b: Bucket, t: SimTrade)
    requires t.size > 0.0 && (t.side == "BUY" || t.side == "SELL") && b.size >= 0.0
    requires t.side == "SELL" ==> t.size <= b.size
    ensures var c, h := BucketStep(b, AsTrade(t)), Holding(b.size, b.cost);
      HoldingStep(h, t) == Holding(c.size, c.cost) && PnlOf(c) == PnlOf(b) + Gain(h, t)
  {
    hide Times, BucketStep, UnitCost;
    PlainSides();
    if t.side == "SELL" {
      var u := UnitCost(Holding(b.size, b.cost));
      BucketSell(b, AsTrade(t));
      TimesDistributes(b.size, t.size, u);
      AllAtUnitCost(b.size, b.cost);
      TimesZero(u);
      TimesSpread(t.size, t.price, u);
      TotalLast(b.closed, Times(t.size, t.price) - Times(t.size, u));
    } else {
      BucketBuy(b, AsTrade(t));
    }
  }

  lemma NoFee(t: Trade)
    requires t.size > 0.0 && t.fee == 0.0
    ensures FeeShare(t, t.size) == 0.0
  {
  }

  lemma OneBookOfSim(ts: seq<SimTrade>)
    ensures OneBook(AsTrades(ts))
  {
  }

  /** Without oversells the backtester's book is the moving-average book without fees. */
  lemma {:induction false} BacktestIsAverage(ts: seq<SimTrade>)
    requires Plain(ts) && NeverOversells(AsTrades(ts))
    ensures Replayed(ts).realised == AveragePnl(AsTrades(ts))
    ensures forall token ::
      var b := GetBucket(AverageAll(AsTrades(ts)), Key("", "", token));
      At(Replayed(ts).holdings, token) == Holding(b.size, b.cost)
  {
    hide BucketStep, HoldingStep, Gain, Excess;
    if ts == [] {
      assert AsTrades(ts) == [];
    } else {
      var n := |ts| - 1;
      var us, t, all := ts[..n], ts[n], AsTrades(ts);
      AsTradesLast(ts);
      PrefixNeverOversells(all);
      BacktestIsAverage(us);
      var m, k := AverageAll(AsTrades(us)), Key("", "", t.token);
      var b := GetBucket(m, k);
      assert KeyOf(AsTrade(t)) == k;
      assert At(Replayed(us).holdings, t.token) == Holding(b.size, b.cost);
      Covered(ts);
      StepAgrees(b, t);
      SumUpdate(m, k, BucketStep(b, AsTrade(t)), PnlOf);
      forall token
        ensures var c := GetBucket(AverageAll(all), Key("", "", token));
          At(Replayed(ts).holdings, token) == Holding(c.size, c.cost)
      {
        if token != t.token {
          var c := GetBucket(m, Key("", "", token));
          assert At(Replayed(us).holdings, token) == Holding(c.size, c.cost);
        }
      }
    }
  }

  lemma NoneOversold(all: seq<Trade>)
    requires NeverOversells(all) && all != []
    ensures Excess(OfToken(all, all[|all| - 1].token)) == 0.0
  {
    hide Excess;
    assert all[..|all|] == all;
  }

  lemma Covered(ts: seq<SimTrade>)
    requires Plain(ts) && ts != [] && NeverOversells(AsTrades(ts))
    ensures var t := ts[|ts| - 1];
      var b := GetBucket(AverageAll(AsTrades(ts[..|ts| - 1])), Key("", "", t.token));
      b.size >= 0.0 && (t.side == "SELL" ==> t.size <= b.size)
  {
    hide BucketStep, Excess, NeverOversells, OfToken, OfKey, AverageAll;
    var all, t := AsTrades(ts), ts[|ts| - 1];
    AsTradesLast(ts);
    NoneOversold(all);
    OneBookOfSim(ts);
    assert all[|ts| - 1] == AsTrade(t);
    SameSelection(all, all, AsTrade(t));
    KeyExcess(all);
    PlainSides();
  }

  /** ...hence it differs from a FIFO accounting by the difference of the open costs. */
  lemma BacktestAgainstFifo(ts: seq<SimTrade>)
    requires Plain(ts) && NeverOversells(AsTrades(ts))
    ensures Realised(AsTrades(ts)) - Replayed(ts).realised == OpenCost(AsTrades(ts)) - AverageOpenCost(AsTrades(ts))
  {
    hide Realised, OpenCost, AverageOpenCost;
    BacktestIsAverage(ts);
    OneBookOfSim(ts);
    AgreementWithoutOversell(AsTrades(ts), AsTrades(ts));
  }

  // ----- what happens on oversells -----

  /** Book cost that a SELL at non-positive holdings resets to zero. */
  function Dropped(ts: seq<SimTrade>): real {
    if ts == [] then 0.0
    else
      var t := ts[|ts| - 1];
      var h := At(Replayed(ts[..|ts| - 1]).holdings, t.token);
      Dropped(ts[..|ts| - 1]) + if t.side != "BUY" && h.size <= 0.0 then h.cost else 0.0
  }

  function SimCash(ts: seq<SimTrade>): real {
    if ts == [] then 0.0
    else
      var t := ts[|ts| - 1];
      SimCash(ts[..|ts| - 1]) + if t.side == "BUY" then -Times(t.size, t.price) else Times(t.size, t.price)
  }

  function HoldingCost(h: Holding): real { h.cost }

  lemma HoldingConserves(h: Holding, t: SimTrade)
    ensures var g := HoldingStep(h, t);
      Gain(h, t) - g.cost == -h.cost
        + (if t.side == "BUY" then -Times(t.size, t.price) else Times(t.size, t.price))
        + (if t.side != "BUY" && h.size <= 0.0 then h.cost else 0.0)
  {
    hide Times;
    if t.side != "BUY" {
      var u := UnitCost(h);
      TimesSpread(t.size, t.price, u);
      TimesDistributes(h.size, t.size, u);
      if h.size > 0.0 {
        AllAtAverage(h.size, h.cost);
      } else {
        TimesByZero(h.size);
      }
    }
  }

  lemma TimesByZero(q: real)
    ensures Times(q, 0.0) == 0.0
  {
  }

  /** On every history: realised P&L is net cash plus book cost plus the (negative) cost dropped by uncovered SELLs. */
  lemma {:induction false} BacktestConserves(ts: seq<SimTrade>)
    ensures Replayed(ts).realised == SimCash(ts) + Sum(Replayed(ts).holdings, HoldingCost) + Dropped(ts)
  {
    hide HoldingStep, Gain, Times;
    if ts == [] {
      assert Replayed(ts) == Ledger(map[], 0.0);
    } else {
      var us, t := ts[..|ts| - 1], ts[|ts| - 1];
      BacktestConserves(us);
      var h := At(Replayed(us).holdings, t.token);
      HoldingConserves(h, t);
      SumUpdate(Replayed(us).holdings, t.token, HoldingStep(h, t), HoldingCost);
      assert HoldingCost(HoldingStep(h, t)) == HoldingStep(h, t).cost;
    }
  }
}
