/** The dashboard's summary of archived variants: its own FIFO over the rows of several bots at once. */
module ArchivedVariants {
  import opened Sums
  import opened Sorting
  import opened Trades
  import opened Fifo
  import Dashboard

  datatype Metrics = Metrics(closed: nat, wins: nat, pnl: real, cost: real)

  predicate StartsWith(side: string, word: string) {
    |side| >= |word| && forall i :: 0 <= i < |word| ==> Dashboard.Upper(side[i]) == word[i]
  }

  /** The side as an upper-case prefix test sees it, which recognises more spellings. */
  function LooseSide(side: string): Side {
    if StartsWith(side, "BUY") then Buy else if StartsWith(side, "SELL") then Sell else Other
  }

  /** Letter by letter, in either case, whatever follows. */
  lemma LooseSideExactly(side: string)
    ensures LooseSide(side) == Buy <==>
      |side| >= 3 && side[0] in ['B', 'b'] && side[1] in ['U', 'u'] && side[2] in ['Y', 'y']
    ensures LooseSide(side) == Sell <==>
      |side| >= 4 && side[0] in ['S', 's'] && side[1] in ['E', 'e'] && side[2] in ['L', 'l'] && side[3] in ['L', 'l']
  {
    var b, s := "BUY", "SELL";
    assert b[0] == 'B' && b[1] == 'U' && b[2] == 'Y' && s[0] == 'S' && s[1] == 'E' && s[2] == 'L' && s[3] == 'L';
    assert StartsWith(side, s) ==> Dashboard.Upper(side[0]) == s[0];
  }

  /** So it recognises every side that the portfolio does, and reads it alike. */
  lemma LooserThanPortfolio(side: string)
    ensures BaseSide(side) != Other ==> LooseSide(side) == BaseSide(side)
  {
    LooseSideExactly(side);
    assert "SELL_"[0] == 'S' && "SELL-"[0] == 'S' && "BUY_"[0] == 'B' && "BUY-"[0] == 'B';
    assert "BUY"[1] == 'U' && "BUY"[2] == 'Y' && "BUY_"[1] == "BUY-"[1] == 'U' && "BUY_"[2] == "BUY-"[2] == 'Y';
  }

  function Plain(t: Trade): Trade {
    t.(side := match LooseSide(t.side) case Buy => "BUY" case Sell => "SELL" case Other => "")
  }

  function PlainAll(ts: seq<Trade>): seq<Trade> {
    seq(|ts|, i requires 0 <= i < |ts| => Plain(ts[i]))
  }

  lemma PlainSide(t: Trade)
    ensures BaseSide(Plain(t).side) == LooseSide(t.side)
  {
    PlainSides();
  }

  /** Lot matches of one SELL, and how many of them were at a profit. */
  function Closings(lots: seq<Lot>, remaining: real, price: real): (nat, nat)
    decreases |lots|
  {
    if remaining <= 0.0 || lots == [] then (0, 0)
    else
      var lot := lots[0];
      var m := Min(lot.size, remaining);
      var (closed, wins) :=
        if lot.size - m <= 0.0 then Closings(lots[1..], remaining - m, price) else (0, 0);
      (closed + 1, wins + if price > lot.price then 1 else 0)
  }

  /** The metrics of one bot, by the plain FIFO replay of its rows. */
  function MetricsOf(ts: seq<Trade>): Metrics {
    if ts == [] then Metrics(0, 0, 0.0, 0.0)
    else
      var us, t := ts[..|ts| - 1], ts[|ts| - 1];
      var before := MetricsOf(us);
      if LooseSide(t.side) != Sell then before
      else
        var lots := Get(ReplayAll(PlainAll(us)), t.token).lots;
        var m, (closed, wins) := Match(lots, t.size), Closings(lots, t.size, t.price);
        Metrics(before.closed + closed, before.wins + wins,
                before.pnl + (Times(m.quantity, t.price) - m.cost), before.cost + m.cost)
  }

  method MatchCounted(queue: seq<Lot>, size: real, price: real, start: Metrics)
    returns (lots: seq<Lot>, r: Metrics)
    ensures var m, (closed, wins) := Match(queue, size), Closings(queue, size, price);
      && lots == m.lots
      && r == Metrics(start.closed + closed, start.wins + wins,
                      start.pnl + (Times(m.quantity, price) - m.cost), start.cost + m.cost)
  {
    hide Times, Match, Closings;
    TimesZero(price);
    var remaining := size;
    lots, r := queue, start;
    ghost var quantity, cost := 0.0, 0.0;
    while remaining > 0.0 && lots != []
      invariant var m, n := Match(queue, size), Match(lots, remaining);
        m == Matching(n.lots, n.remaining, quantity + n.quantity, cost + n.cost)
      invariant r.pnl == start.pnl + (Times(quantity, price) - cost) && r.cost == start.cost + cost
      invariant var a, b := Closings(queue, size, price), Closings(lots, remaining, price);
        start.closed + a.0 == r.closed + b.0 && start.wins + a.1 == r.wins + b.1
      decreases |lots|, remaining > 0.0
    {
      var lot := lots[0];
      var q := Min(remaining, lot.size);
      OneClosing(lots, remaining, price);
      TimesSpread(q, price, lot.price);
      TimesDistributes(quantity, q, price);
      r := Metrics(r.closed + 1, r.wins + (if price > lot.price then 1 else 0),
                   r.pnl + Times(q, price - lot.price), r.cost + Times(q, lot.price));
      quantity, cost := quantity + q, cost + Times(q, lot.price);
      remaining := remaining - q;
      lots := if lot.size - q <= 0.0 then lots[1..] else [lot.(size := lot.size - q)] + lots[1..];
    }
    NoClosing(lots, remaining, price);
  }

  /** One pass of the loop, in the matching and in the tally. */
  lemma OneClosing(lots: seq<Lot>, remaining: real, price: real)
    requires remaining > 0.0 && lots != []
    ensures var lot, q := lots[0], Min(remaining, lots[0].size);
      var rest := if lot.size - q <= 0.0 then lots[1..] else [lot.(size := lot.size - q)] + lots[1..];
      var m, n := Match(lots, remaining), Match(rest, remaining - q);
      var a, b := Closings(lots, remaining, price), Closings(rest, remaining - q, price);
      && m == Matching(n.lots, n.remaining, q + n.quantity, Times(q, lot.price) + n.cost)
      && a == (b.0 + 1, b.1 + if price > lot.price then 1 else 0)
  {
    hide Times;
  }

  lemma NoClosing(lots: seq<Lot>, remaining: real, price: real)
    requires remaining <= 0.0 || lots == []
    ensures Match(lots, remaining) == Matching(lots, remaining, 0.0, 0.0) && Closings(lots, remaining, price) == (0, 0)
  {
  }

  // ----- all bots in one pass -----

  type Buys = map<(string, string), seq<Lot>>

  function LotsAt(buys: Buys, bot: string, token: string): seq<Lot> {
    if (bot, token) in buys then buys[(bot, token)] else []
  }

  ghost predicate MirrorsAt(buys: Buys, rows: seq<Trade>, bot: string, token: string) {
    LotsAt(buys, bot, token) == Get(ReplayAll(PlainAll(OfBot(rows, bot))), token).lots
  }

  ghost predicate Mirrors(buys: Buys, rows: seq<Trade>) {
    forall bot, token :: MirrorsAt(buys, rows, bot, token)
  }

  lemma RowOfBot(rows: seq<Trade>, t: Trade, bot: string)
    ensures OfBot(rows + [t], bot) == if t.bot == bot then OfBot(rows, bot) + [t] else OfBot(rows, bot)
    ensures t.bot == bot ==>
      ReplayAll(PlainAll(OfBot(rows + [t], bot))) ==
      (var m := ReplayAll(PlainAll(OfBot(rows, bot))); m[t.token := Step(Get(m, t.token), Plain(t))])
  {
    hide Step;
    assert (rows + [t])[..|rows|] == rows;
    if t.bot == bot {
      var us := OfBot(rows, bot);
      assert PlainAll(us + [t])[..|us|] == PlainAll(us);
    }
  }

  /** After a row, only its own (bot, token) has new lots. */
  lemma RowMirrors(buys: Buys, rows: seq<Trade>, t: Trade, lots: seq<Lot>)
    requires Mirrors(buys, rows)
    requires lots == Step(Get(ReplayAll(PlainAll(OfBot(rows, t.bot))), t.token), Plain(t)).lots
    ensures Mirrors(buys[(t.bot, t.token) := lots], rows + [t])
    ensures lots == LotsAt(buys, t.bot, t.token) ==> Mirrors(buys, rows + [t])
  {
    hide Step;
    var buys', rows' := buys[(t.bot, t.token) := lots], rows + [t];
    forall bot, token ensures MirrorsAt(buys', rows', bot, token) {
      assert MirrorsAt(buys, rows, bot, token);
      RowOfBot(rows, t, bot);
    }
    if lots == LotsAt(buys, t.bot, t.token) {
      forall bot, token ensures MirrorsAt(buys, rows', bot, token) {
        assert MirrorsAt(buys, rows, bot, token) && MirrorsAt(buys', rows', bot, token);
      }
    }
  }

  /** Lots of a row's key after a BUY, after a SELL, or after a row of neither kind. */
  lemma StepLots(a: Account, t: Trade)
    ensures Step(a, Plain(t)).lots ==
      match LooseSide(t.side)
      case Buy => a.lots + [Lot(t.size, t.price)]
      case Sell => Match(a.lots, t.size).lots
      case Other => a.lots
  {
    PlainSide(t);
  }

  /** The selected rows, in the order of the query. */
  function RowsOf(trades: seq<Trade>, bots: set<string>): seq<Trade> {
    Sort(TradeLe, Filter(trades, (t: Trade) => t.bot in bots))
  }

  /** One row: a BUY queues a lot, a SELL closes lots and is tallied for its bot. */
  method HandleRow(metrics: map<string, Metrics>, buys: Buys, t: Trade, ghost rows: seq<Trade>)
    returns (metrics': map<string, Metrics>, buys': Buys)
    requires t.bot in metrics && Mirrors(buys, rows) && metrics[t.bot] == MetricsOf(OfBot(rows, t.bot))
    ensures metrics' == metrics[t.bot := MetricsOf(OfBot(rows, t.bot) + [t])]
    ensures Mirrors(buys', rows + [t])
  {
    hide Step, Match, Times, Mirrors, Closings, MetricsOf, OfBot;
    ghost var a := Get(ReplayAll(PlainAll(OfBot(rows, t.bot))), t.token);
    MirrorAt(buys, rows, t.bot, t.token);
    StepLots(a, t);
    RowMirrors(buys, rows, t, Step(a, Plain(t)).lots);
    MetricsLast(OfBot(rows, t.bot), t);
    metrics', buys' := metrics, buys;
    match LooseSide(t.side) {
      case Buy => buys' := buys[(t.bot, t.token) := LotsAt(buys, t.bot, t.token) + [Lot(t.size, t.price)]];
      case Sell =>
        var lots, r := MatchCounted(LotsAt(buys, t.bot, t.token), t.size, t.price, metrics[t.bot]);
        metrics' := metrics[t.bot := r];
        buys' := buys[(t.bot, t.token) := lots];
      case Other =>
    }
  }

  /** The loop over the rows of all archived bots, in `(filled_at, trade_id)` order. */
  /** The rows are all trades of the bots, in the order of time and id however they are stored. */
  lemma RowsIgnoreStorageOrder(ts: seq<Trade>, us: seq<Trade>, bots: set<string>)
    requires OneRowPerId(ts) && multiset(ts) == multiset(us)
    ensures RowsOf(ts, bots) == RowsOf(us, bots)
    ensures forall t :: t in RowsOf(ts, bots) <==> t in ts && t.bot in bots
  {
    var p := (t: Trade) => t.bot in bots;
    FilterMembers(ts, p);
    FilterPermutes(ts, us, p);
    StorageOrderIrrelevant(Filter(ts, p), Filter(us, p));
    SortElements(TradeLe, Filter(ts, p));
    forall t ensures t in RowsOf(ts, bots) <==> t in Filter(ts, p) {
      InMultiset(Filter(ts, p), Sort(TradeLe, Filter(ts, p)), t);
    }
  }

  method ArchivedSummaries(trades: seq<Trade>, bots: set<string>) returns (metrics: map<string, Metrics>)
    ensures metrics.Keys == bots
    ensures var rows := RowsOf(trades, bots);
      forall bot :: bot in bots ==> metrics[bot] == MetricsOf(OfBot(rows, bot))
  {
    hide Mirrors, RowsOf, Tallied, MetricsOf, OfBot;
    var rows := RowsOf(trades, bots);
    OnlyArchived(trades, bots);
    metrics := map bot | bot in bots :: Metrics(0, 0, 0.0, 0.0);
    var buys: Buys := map[];
    NothingMirrored();
    NothingTallied(bots);
    assert rows[..0] == [];
    for i := 0 to |rows|
      invariant Tallied(metrics, rows[..i], bots) && Mirrors(buys, rows[..i])
    {
      ghost var before := metrics;
      TalliedAt(metrics, rows[..i], bots, rows[i].bot);
      metrics, buys := HandleRow(metrics, buys, rows[i], rows[..i]);
      TalliedNext(before, rows, i, bots);
      assert rows[..i + 1] == rows[..i] + [rows[i]];
    }
    assert rows[..|rows|] == rows;
    AllTallied(metrics, rows, bots);
  }

  /** Each bot has the metrics of its own rows. */
  ghost predicate Tallied(metrics: map<string, Metrics>, rows: seq<Trade>, bots: set<string>) {
    metrics.Keys == bots && forall bot :: bot in bots ==> metrics[bot] == MetricsOf(OfBot(rows, bot))
  }

  lemma NothingTallied(bots: set<string>)
    ensures Tallied(map bot | bot in bots :: Metrics(0, 0, 0.0, 0.0), [], bots)
  {
  }

  lemma TalliedAt(metrics: map<string, Metrics>, rows: seq<Trade>, bots: set<string>, bot: string)
    requires Tallied(metrics, rows, bots) && bot in bots
    ensures bot in metrics && metrics[bot] == MetricsOf(OfBot(rows, bot))
  {
    hide MetricsOf, OfBot;
  }

  lemma TalliedNext(metrics: map<string, Metrics>, rows: seq<Trade>, i: nat, bots: set<string>)
    requires i < |rows| && Tallied(metrics, rows[..i], bots) && rows[i].bot in bots
    ensures var bot := rows[i].bot;
      Tallied(metrics[bot := MetricsOf(OfBot(rows[..i], bot) + [rows[i]])], rows[..i + 1], bots)
  {
    hide MetricsOf, OfBot;
    RowOfBots(rows, i);
  }

  lemma AllTallied(metrics: map<string, Metrics>, rows: seq<Trade>, bots: set<string>)
    requires Tallied(metrics, rows, bots)
    ensures metrics.Keys == bots && forall bot :: bot in bots ==> metrics[bot] == MetricsOf(OfBot(rows, bot))
  {
    hide MetricsOf, OfBot;
  }

  lemma RowOfBots(rows: seq<Trade>, i: nat)
    requires i < |rows|
    ensures rows[..i + 1] == rows[..i] + [rows[i]]
    ensures forall bot ::
              OfBot(rows[..i + 1], bot) ==
              if bot == rows[i].bot then OfBot(rows[..i], bot) + [rows[i]] else OfBot(rows[..i], bot)
  {
    assert rows[..i + 1] == rows[..i] + [rows[i]];
    forall bot
      ensures OfBot(rows[..i + 1], bot) ==
              if bot == rows[i].bot then OfBot(rows[..i], bot) + [rows[i]] else OfBot(rows[..i], bot)
    {
      RowOfBot(rows[..i], rows[i], bot);
    }
  }

  lemma OnlyArchived(trades: seq<Trade>, bots: set<string>)
    ensures var rows := RowsOf(trades, bots);
      forall i :: 0 <= i < |rows| ==> rows[i].bot in bots
  {
    var f := Filter(trades, (t: Trade) => t.bot in bots);
    var rows := Sort(TradeLe, f);
    FilterMembers(trades, (t: Trade) => t.bot in bots);
    SortElements(TradeLe, f);
    forall i | 0 <= i < |rows| ensures rows[i].bot in bots {
      InMultiset(f, rows, rows[i]);
      assert rows[i] in f;
    }
  }

  lemma NothingMirrored()
    ensures Mirrors(map[], [])
  {
    forall bot, token ensures MirrorsAt(map[], [], bot, token) {
      assert OfBot([], bot) == [] && PlainAll([]) == [];
    }
  }

  lemma MirrorAt(buys: Buys, rows: seq<Trade>, bot: string, token: string)
    requires Mirrors(buys, rows)
    ensures LotsAt(buys, bot, token) == Get(ReplayAll(PlainAll(OfBot(rows, bot))), token).lots
  {
    assert MirrorsAt(buys, rows, bot, token);
  }

  lemma MetricsLast(us: seq<Trade>, t: Trade)
    ensures MetricsOf(us + [t]) ==
      var before := MetricsOf(us);
      if LooseSide(t.side) != Sell then before
      else
        var lots := Get(ReplayAll(PlainAll(us)), t.token).lots;
        var m, (closed, wins) := Match(lots, t.size), Closings(lots, t.size, t.price);
        Metrics(before.closed + closed, before.wins + wins,
                before.pnl + (Times(m.quantity, t.price) - m.cost), before.cost + m.cost)
  {
    hide Match, Closings, Times;
    assert (us + [t])[..|us|] == us;
  }

  // ----- agreement -----

  /** This FIFO copy reports the gross realised P&L of the loosely spelled trades, on every history... */
  lemma {:induction false} ArchivedPnlIsGross(ts: seq<Trade>)
    ensures MetricsOf(ts).pnl == Sum(ReplayAll(PlainAll(ts)), GrossOf)
  {
    hide Match, Closings, Times;
    if ts == [] {
      assert PlainAll(ts) == [];
    } else {
      var us, t := ts[..|ts| - 1], ts[|ts| - 1];
      ArchivedPnlIsGross(us);
      assert PlainAll(ts)[..|us|] == PlainAll(us);
      var m := ReplayAll(PlainAll(us));
      var a := Get(m, t.token);
      PlainSide(t);
      SumUpdate(m, t.token, Step(a, Plain(t)), GrossOf);
    }
  }

  /** ...which is the portfolio's realised P&L before fees when both read the sides alike. */
  lemma ArchivedAgreesWithPortfolio(ts: seq<Trade>)
    requires forall i :: 0 <= i < |ts| ==> LooseSide(ts[i].side) == BaseSide(ts[i].side)
    ensures MetricsOf(ts).pnl == Realised(ts) + Sum(ReplayAll(ts), FeesOf)
  {
    ArchivedPnlIsGross(ts);
    PlainReplay(ts);
  }

  lemma {:induction false} PlainReplay(ts: seq<Trade>)
    requires forall i :: 0 <= i < |ts| ==> LooseSide(ts[i].side) == BaseSide(ts[i].side)
    ensures ReplayAll(PlainAll(ts)) == ReplayAll(ts)
  {
    hide Step;
    if ts == [] {
      assert PlainAll(ts) == [];
    } else {
      var us, t := ts[..|ts| - 1], ts[|ts| - 1];
      PlainReplay(us);
      assert PlainAll(ts)[..|us|] == PlainAll(us);
      PlainStep(Get(ReplayAll(us), t.token), t);
    }
  }

  lemma PlainStep(a: Account, t: Trade)
    requires LooseSide(t.side) == BaseSide(t.side)
    ensures Step(a, Plain(t)) == Step(a, t)
  {
    PlainSide(t);
  }

  lemma PlainStepCost(a: Account, t: Trade)
    ensures Cost(Step(a, Plain(t)).lots) ==
      match LooseSide(t.side)
      case Buy => Cost(a.lots) + Times(t.size, t.price)
      case Sell => Cost(a.lots) - Match(a.lots, t.size).cost
      case Other => Cost(a.lots)
  {
    hide Times;
    PlainSide(t);
    MatchConserves(a.lots, t.size);
    assert (a.lots + [Lot(t.size, t.price)])[..|a.lots|] == a.lots;
  }

  /** Cost taken out by the closings plus cost still open is all cost ever bought. */
  lemma {:induction false} ArchivedCostConserved(ts: seq<Trade>)
    ensures MetricsOf(ts).cost + Sum(ReplayAll(PlainAll(ts)), CostOf) == BoughtCost(ts)
  {
    hide Match, Closings, Times, Step, Cost;
    if ts == [] {
      assert PlainAll(ts) == [];
    } else {
      var us, t := ts[..|ts| - 1], ts[|ts| - 1];
      ArchivedCostConserved(us);
      assert PlainAll(ts)[..|us|] == PlainAll(us);
      var m := ReplayAll(PlainAll(us));
      SumUpdate(m, t.token, Step(Get(m, t.token), Plain(t)), CostOf);
      PlainStepCost(Get(m, t.token), t);
      NoCost();
    }
  }

  lemma NoCost()
    ensures Cost([]) == 0.0
  {
  }

  function BoughtCost(ts: seq<Trade>): real {
    if ts == [] then 0.0
    else
      var t := ts[|ts| - 1];
      BoughtCost(ts[..|ts| - 1]) + if LooseSide(t.side) == Buy then Times(t.size, t.price) else 0.0
  }

  // ----- what a closing is -----

  /** The lots a SELL of the given size reaches: those before which the older ones do not suffice for it. */
  function Reached(lots: seq<Lot>, size: real): seq<Lot> {
    if lots == [] || size <= 0.0 then [] else [lots[0]] + Reached(lots[1..], size - lots[0].size)
  }

  lemma {:induction false} ReachedAre(lots: seq<Lot>, size: real)
    requires Positive(lots)
    ensures var r := Reached(lots, size);
      |r| <= |lots| && r == lots[..|r|] && forall i :: 0 <= i < |lots| ==> (i < |r| <==> Size(lots[..i]) < size)
  {
    if lots != [] && size > 0.0 {
      ReachedAre(lots[1..], size - lots[0].size);
      var r := Reached(lots, size);
      forall i | 0 <= i < |lots| ensures i < |r| <==> Size(lots[..i]) < size {
        if i > 0 {
          assert lots[..i] == [lots[0]] + lots[1..][..i - 1];
          SizeCostCons(lots[0], lots[1..][..i - 1]);
        }
      }
    } else {
      forall i | 0 <= i < |lots| ensures !(Size(lots[..i]) < size) { SizePositive(lots[..i]); }
    }
  }

  function Cheaper(lots: seq<Lot>, price: real): nat {
    if lots == [] then 0 else Cheaper(lots[..|lots| - 1], price) + if lots[|lots| - 1].price < price then 1 else 0
  }

  lemma {:induction false} CheaperCons(lot: Lot, lots: seq<Lot>, price: real)
    ensures Cheaper([lot] + lots, price) == Cheaper(lots, price) + if lot.price < price then 1 else 0
  {
    if lots == [] {
      assert ([lot] + lots)[..0] == [];
    } else {
      assert ([lot] + lots)[..|lots|] == [lot] + lots[..|lots| - 1];
      CheaperCons(lot, lots[..|lots| - 1], price);
    }
  }

  /** A SELL closes one match per lot it reaches, and wins on those bought for strictly less. */
  lemma {:induction false} ClosingsCount(lots: seq<Lot>, size: real, price: real)
    requires Positive(lots)
    ensures Closings(lots, size, price) == (|Reached(lots, size)|, Cheaper(Reached(lots, size), price))
  {
    if lots != [] && size > 0.0 {
      var rest := Reached(lots[1..], size - lots[0].size);
      CheaperCons(lots[0], rest, price);
      if lots[0].size <= size {
        ClosingsCount(lots[1..], size - lots[0].size, price);
      } else {
        assert rest == [];
      }
    }
  }
}
