/**
 * Runs of fills and redemptions, each in a session of its own: the positions table agrees with the FIFO
 * replay, and money is conserved. Sessions that book several fills are the subject of Sessions.
 */
module Ledger {
  import opened Sums
  import opened Sorting
  import opened Decimals
  import opened Trades
  import opened Fifo
  import opened Portfolio

  /** One session: a single fill, a single redemption, or an order that is recorded. */
  datatype Op = Fill(t: Trade) | Redeem(position: nat, received: real) | PlaceOrder(id: string, order: Order)

  // ----- reference quantities over the tables -----

  /** The account that a replay of (bot, token) in arrival order yields. */
  function AccountOf(d: Tables, bot: string, token: string): Account {
    Replay(SelectTrades(d.trades, bot, token))
  }

  /** How much the stored cost basis exceeds the FIFO cost. */
  function Stale(a: Account, flush: bool): real {
    if flush then 0.0 else a.lastConsumed
  }

  ghost predicate WasRedeemed(ps: seq<Position>, bot: string, token: string) {
    exists i :: 0 <= i < |ps| && ps[i].bot == bot && ps[i].token == token && ps[i].status == Redeemed
  }

  ghost predicate OneOpen(ps: seq<Position>) {
    forall i, j :: 0 <= i < j < |ps| && ps[i].status == Open ==> !IsOpen(ps[j], ps[i].bot, ps[i].token)
  }

  /** Stored position against replay: size and cost exactly, average price up to rounding. */
  ghost predicate Agrees(d: Tables, flush: bool, bot: string, token: string) {
    var a := AccountOf(d, bot, token);
    match FindOpen(d.positions, bot, token)
    case None => a.lots == []
    case Some(i) =>
      var p := d.positions[i];
      && a.lots != []
      && p.size == Size(a.lots)
      && p.cost == Cost(a.lots) + Stale(a, flush)
      && Abs(Times(p.avgPrice, p.size) - p.cost) <= Times(0.5 / PRICE_SCALE, p.size)
  }

  function OpenBasis(ps: seq<Position>, bot: string): real {
    if ps == [] then 0.0
    else
      var p := ps[|ps| - 1];
      OpenBasis(ps[..|ps| - 1], bot) + BasisOf(p, bot)
  }

  function BasisOf(p: Position, bot: string): real {
    if p.bot == bot && p.status == Open then p.cost else 0.0
  }

  function Received(es: seq<Event>, bot: string): real {
    if es == [] then 0.0
    else
      var e := es[|es| - 1];
      Received(es[..|es| - 1], bot) + if e.Redemption? && e.bot == bot then e.received else 0.0
  }

  function RedeemedBasis(es: seq<Event>, bot: string): real {
    if es == [] then 0.0
    else
      var e := es[|es| - 1];
      RedeemedBasis(es[..|es| - 1], bot) + if e.Redemption? && e.bot == bot then e.cost else 0.0
  }

  ghost function StaleTotal(d: Tables, flush: bool, bot: string): real {
    if flush then 0.0 else Sum(ReplayAll(OfBot(d.trades, bot)), LastConsumedOf)
  }

  // ----- runs -----

  /**
   * A fill is new and not older than the trades of its bot in its token, whose position was not
   * redeemed; or it repeats a trade id; or it names a missing order and fails. A redemption concerns an OPEN position.
   */
  ghost predicate Admissible(d: Tables, op: Op) {
    match op
    case Fill(t) =>
      t.size > 0.0 &&
      (HasTrade(d.trades, t.id) || !OrderStored(d.orders, t) ||
       (!WasRedeemed(d.positions, t.bot, t.token) &&
        forall u :: u in SelectTrades(d.trades, t.bot, t.token) ==> TradeLe(u, t)))
    case Redeem(i, _) => i < |d.positions| && d.positions[i].status == Open
    case PlaceOrder(_, _) => true
  }

  function Apply(d: Tables, op: Op, markets: map<string, Market>, flush: bool): Tables
    requires OpenPositive(d.positions) && (op.Fill? ==> op.t.size > 0.0)
  {
    match op
    case Fill(t) => AfterFill(d, t, markets, flush)
    case Redeem(i, received) => AfterRedeem(d, i, received)
    case PlaceOrder(id, order) => d.(orders := d.orders[id := order])
  }

  /** The tables that a run reaches, if every step of it is admissible. */
  ghost function Run(ops: seq<Op>, markets: map<string, Market>, orders: map<string, Order>, flush: bool)
    : (r: Option<Tables>)
    ensures r.Some? ==> OpenPositive(r.value.positions)
  {
    if ops == [] then Some(Tables([], [], [], orders))
    else
      var before := Run(ops[..|ops| - 1], markets, orders, flush);
      var op := ops[|ops| - 1];
      if before.Some? && Admissible(before.value, op)
      then
        ApplyKeepsPositive(before.value, op, markets, flush);
        Some(Apply(before.value, op, markets, flush))
      else None
  }

  lemma ApplyKeepsPositive(d: Tables, op: Op, markets: map<string, Market>, flush: bool)
    requires OpenPositive(d.positions) && (op.Fill? ==> op.t.size > 0.0)
    ensures OpenPositive(Apply(d, op, markets, flush).positions)
  {
    if op.Fill? { OpenStaysPositive(d, op.t, markets, flush); }
  }

  // ----- invariant -----

  ghost predicate KeyInvariant(d: Tables, flush: bool, bot: string, token: string) {
    && Sorted(TradeLe, SelectTrades(d.trades, bot, token))
    && (if WasRedeemed(d.positions, bot, token) then FindOpen(d.positions, bot, token).None?
        else Agrees(d, flush, bot, token))
  }

  ghost predicate BasisInvariant(d: Tables, flush: bool, bot: string) {
    OpenBasis(d.positions, bot) + RedeemedBasis(d.events, bot) ==
    OpenCost(OfBot(d.trades, bot)) + StaleTotal(d, flush, bot)
  }

  ghost predicate Invariant(d: Tables, flush: bool) {
    && OpenPositive(d.positions)
    && OneOpen(d.positions)
    && PositiveSizes(d.trades)
    && (forall bot, token :: KeyInvariant(d, flush, bot, token))
    && (forall bot :: BasisInvariant(d, flush, bot))
  }

  // ----- one fill, one key -----

  lemma SelectLast(ts: seq<Trade>, t: Trade, bot: string, token: string)
    ensures SelectTrades(ts + [t], bot, token) ==
            if t.bot == bot && t.token == token then SelectTrades(ts, bot, token) + [t]
            else SelectTrades(ts, bot, token)
  {
    assert (ts + [t])[..|ts|] == ts;
    var mine := OfBot(ts, bot);
    assert (mine + [t])[..|mine|] == mine;
  }

  lemma SelectPositive(ts: seq<Trade>, bot: string, token: string)
    requires PositiveSizes(ts)
    ensures PositiveSizes(SelectTrades(ts, bot, token))
  {
    FilterPositive(ts, (t: Trade) => t.bot == bot);
    FilterPositive(OfBot(ts, bot), (t: Trade) => t.token == token);
  }

  /** In order, the replay query sees the trades as they arrived. */
  lemma FifoCostInOrder(ts: seq<Trade>, bot: string, token: string)
    requires Sorted(TradeLe, SelectTrades(ts, bot, token))
    ensures FifoCost(ts, bot, token) == Cost(Replay(SelectTrades(ts, bot, token)).lots)
  {
    SortIdentity(TradeLe, SelectTrades(ts, bot, token));
  }

  lemma FindOpenIs(ps: seq<Position>, i: nat, bot: string, token: string)
    requires i < |ps| && IsOpen(ps[i], bot, token) && forall j :: 0 <= j < i ==> !IsOpen(ps[j], bot, token)
    ensures FindOpen(ps, bot, token) == Some(i)
  {
    hide FindOpen, IsOpen;
    FindOpenFirst(ps, bot, token);
  }

  lemma FindOpenSame(ps: seq<Position>, qs: seq<Position>, bot: string, token: string)
    requires |ps| <= |qs| && forall j :: 0 <= j < |ps| ==> IsOpen(qs[j], bot, token) == IsOpen(ps[j], bot, token)
    requires forall j :: |ps| <= j < |qs| ==> !IsOpen(qs[j], bot, token)
    ensures FindOpen(qs, bot, token) == FindOpen(ps, bot, token)
  {
    hide FindOpen, IsOpen;
    var f := FindOpen(ps, bot, token);
    FindOpenFirst(ps, bot, token);
    if f.Some? { FindOpenIs(qs, f.value, bot, token); }
  }

  /** The row of a key after another row, or a row of the key, has been set. */
  lemma FindOpenAfter(ps: seq<Position>, qs: seq<Position>, i: nat, bot: string, token: string)
    requires |qs| >= |ps| && i < |qs| <= |ps| + 1 && (|qs| > |ps| ==> i == |ps|)
    requires forall j :: 0 <= j < |ps| && j != i ==> qs[j] == ps[j]
    requires i < |ps| ==> qs[i].bot == ps[i].bot && qs[i].token == ps[i].token
    requires OneOpen(qs)
    ensures IsOpen(qs[i], bot, token) ==> FindOpen(qs, bot, token) == Some(i)
    ensures !(qs[i].bot == bot && qs[i].token == token) ==>
      && FindOpen(qs, bot, token) == FindOpen(ps, bot, token)
      && var f := FindOpen(ps, bot, token); f.Some? ==> qs[f.value] == ps[f.value]
  {
    hide FindOpen;
    if IsOpen(qs[i], bot, token) {
      forall j | 0 <= j < i ensures !IsOpen(qs[j], bot, token) {
        assert qs[j].status == Open ==> !IsOpen(qs[i], qs[j].bot, qs[j].token);
      }
      FindOpenIs(qs, i, bot, token);
    } else if !(qs[i].bot == bot && qs[i].token == token) {
      FindOpenSame(ps, qs, bot, token);
    }
  }

  lemma {:induction false} FindOpenFirst(ps: seq<Position>, bot: string, token: string)
    ensures FindOpen(ps, bot, token).Some? ==>
      forall j :: 0 <= j < FindOpen(ps, bot, token).value ==> !IsOpen(ps[j], bot, token)
  {
    if ps != [] { FindOpenFirst(ps[..|ps| - 1], bot, token); }
  }

  /** Lots before and after a SELL of a positive size that meets an open position. */
  lemma SellOutcome(a: Account, t: Trade)
    requires Positive(a.lots) && a.lots != [] && t.size > 0.0 && BaseSide(t.side) == Sell
    ensures var b := Step(a, t);
      && Size(b.lots) == Size(a.lots) - Min(t.size, Size(a.lots))
      && (b.lots == [] <==> Size(b.lots) <= 0.0)
      && (b.lots != [] ==> Cost(b.lots) + b.lastConsumed == Cost(a.lots))
  {
    MatchConserves(a.lots, t.size);
    MatchQuantity(a.lots, t.size);
    SizePositive(Match(a.lots, t.size).lots);
  }

  lemma {:induction false} NothingOpenNothingStale(ts: seq<Trade>)
    requires PositiveSizes(ts) && Replay(ts).lots == []
    ensures Replay(ts).lastConsumed == 0.0
  {
    if ts != [] {
      var us, t := ts[..|ts| - 1], ts[|ts| - 1];
      if BaseSide(t.side) == Other { NothingOpenNothingStale(us); }
    }
  }

  lemma NothingOpenNothingStaleIf(ts: seq<Trade>)
    requires PositiveSizes(ts)
    ensures Replay(ts).lots == [] ==> Replay(ts).lastConsumed == 0.0
  {
    if Replay(ts).lots == [] { NothingOpenNothingStale(ts); }
  }

  // ----- one fill -----

  /** A fill that will be stored, at whatever time it was filled. */
  ghost predicate FreshFill(d: Tables, t: Trade) {
    && OpenPositive(d.positions) && OneOpen(d.positions)
    && t.size > 0.0 && !HasTrade(d.trades, t.id) && OrderStored(d.orders, t)
  }

  ghost predicate NewFill(d: Tables, t: Trade) {
    && t.size > 0.0
    && !HasTrade(d.trades, t.id)
    && OrderStored(d.orders, t)
    && !WasRedeemed(d.positions, t.bot, t.token)
    && forall u :: u in SelectTrades(d.trades, t.bot, t.token) ==> TradeLe(u, t)
  }

  /** The row of the positions table that a fill touches, and what it becomes. */
  lemma FillTouchesOneRow(d: Tables, t: Trade, markets: map<string, Market>, flush: bool) returns (i: nat)
    requires FreshFill(d, t)
    ensures var ps, qs := d.positions, AfterFill(d, t, markets, flush).positions;
      || (qs == ps && FindOpen(ps, t.bot, t.token).None?)
      || (qs == ps && BaseSide(t.side) == Other)
      || (&& i < |qs| && (i < |ps| || (i == |ps| && |qs| == |ps| + 1))
          && qs == (if i < |ps| then ps[i := qs[i]] else ps + [qs[i]])
          && (i < |ps| <==> FindOpen(ps, t.bot, t.token) == Some(i))
          && (i == |ps| ==> FindOpen(ps, t.bot, t.token) == None)
          && qs[i].bot == t.bot && qs[i].token == t.token && qs[i].status != Redeemed)
  {
    hide Quantize, Times, FifoCost;
    var f := FindOpen(d.positions, t.bot, t.token);
    i := if f.Some? then f.value else |d.positions|;
  }

  lemma FillKeepsOneOpen(d: Tables, t: Trade, markets: map<string, Market>, flush: bool)
    requires FreshFill(d, t)
    ensures OneOpen(AfterFill(d, t, markets, flush).positions)
  {
    hide AfterFill;
    var i := FillTouchesOneRow(d, t, markets, flush);
    FindOpenFirst(d.positions, t.bot, t.token);
  }

  /** A fill leaves the other (bot, token) pairs alone. */
  lemma FillOtherKey(d: Tables, t: Trade, markets: map<string, Market>, flush: bool, bot: string, token: string)
    requires Invariant(d, flush) && NewFill(d, t) && (bot != t.bot || token != t.token)
    ensures KeyInvariant(AfterFill(d, t, markets, flush), flush, bot, token)
  {
    hide BasisInvariant, PositiveSizes, AfterFill, SelectTrades, Sorted, Agrees, OneOpen, FindOpen, WasRedeemed;
    var d' := AfterFill(d, t, markets, flush);
    assert KeyInvariant(d, flush, bot, token);
    FillKeepsOneOpen(d, t, markets, flush);
    FillAddsTrade(d, t, markets, flush);
    SelectLast(d.trades, t, bot, token);
    var ps, qs := d.positions, d'.positions;
    var i := FillTouchesOneRow(d, t, markets, flush);
    if qs != ps {
      FindOpenAfter(ps, qs, i, bot, token);
      SameRedemptions(ps, qs, i, bot, token);
    }
    SameRowAgrees(d, d', flush, bot, token);
  }

  lemma SameRowAgrees(d: Tables, e: Tables, flush: bool, bot: string, token: string)
    requires SelectTrades(e.trades, bot, token) == SelectTrades(d.trades, bot, token)
    requires var f := FindOpen(d.positions, bot, token);
      FindOpen(e.positions, bot, token) == f && (f.Some? ==> e.positions[f.value] == d.positions[f.value])
    ensures Agrees(e, flush, bot, token) == Agrees(d, flush, bot, token)
  {
    hide SelectTrades, FindOpen, Replay, Abs, Times;
  }

  lemma SameRedemptions(ps: seq<Position>, qs: seq<Position>, i: nat, bot: string, token: string)
    requires i < |qs| && |ps| <= |qs| <= |ps| + 1 && (|qs| > |ps| ==> i == |ps|)
    requires forall j :: 0 <= j < |ps| && j != i ==> qs[j] == ps[j]
    requires i < |ps| ==> qs[i].bot == ps[i].bot && qs[i].token == ps[i].token
    requires qs[i].bot != bot || qs[i].token != token
    ensures WasRedeemed(qs, bot, token) == WasRedeemed(ps, bot, token)
  {
    if j :| 0 <= j < |ps| && ps[j].bot == bot && ps[j].token == token && ps[j].status == Redeemed {
      assert qs[j] == ps[j];
    }
    if j :| 0 <= j < |qs| && qs[j].bot == bot && qs[j].token == token && qs[j].status == Redeemed {
      assert qs[j] == ps[j];
    }
  }

  lemma NoRedemptionByFill(d: Tables, t: Trade, markets: map<string, Market>, flush: bool)
    requires Invariant(d, flush) && NewFill(d, t)
    ensures !WasRedeemed(AfterFill(d, t, markets, flush).positions, t.bot, t.token)
  {
    hide KeyInvariant, BasisInvariant, PositiveSizes, AfterFill;
    var i := FillTouchesOneRow(d, t, markets, flush);
  }

  lemma SortedLast(s: seq<Trade>, t: Trade)
    requires Sorted(TradeLe, s) && forall u :: u in s ==> TradeLe(u, t)
    ensures Sorted(TradeLe, s + [t])
  {
  }

  /** What FindOpen returns for the key of a fill. */
  lemma FillFindsRow(d: Tables, t: Trade, markets: map<string, Market>, flush: bool)
    requires FreshFill(d, t)
    ensures var ps, qs := d.positions, AfterFill(d, t, markets, flush).positions;
      var visible := if flush then d.trades + [t] else d.trades;
      match (BaseSide(t.side), FindOpen(ps, t.bot, t.token))
      case (Buy, None) => FindOpen(qs, t.bot, t.token) == Some(|ps|) && qs[|ps|] == Opened(markets, t)
      case (Buy, Some(i)) => FindOpen(qs, t.bot, t.token) == Some(i) && i < |ps| == |qs| && qs[i] == Increased(ps[i], t)
      case (Sell, Some(i)) =>
        && i < |ps| == |qs|
        && qs[i] == Reduced(ps[i], t, FifoCost(visible, t.bot, t.token))
        && FindOpen(qs, t.bot, t.token) == if qs[i].status == Open then Some(i) else None
      case (Sell, None) => qs == ps
      case (Other, _) => qs == ps
  {
    hide KeyInvariant, BasisInvariant, PositiveSizes, Quantize, Times, FifoCost;
    var ps, qs := d.positions, AfterFill(d, t, markets, flush).positions;
    FillKeepsOneOpen(d, t, markets, flush);
    var f := FindOpen(ps, t.bot, t.token);
    var i := if f.Some? then f.value else |ps|;
    if qs != ps {
      FindOpenAfter(ps, qs, i, t.bot, t.token);
      if qs[i].status != Open {
        FindOpenNone(ps, qs, i, t.bot, t.token);
      }
    }
  }

  lemma FindOpenNone(ps: seq<Position>, qs: seq<Position>, i: nat, bot: string, token: string)
    requires OneOpen(ps) && i < |ps| == |qs| && FindOpen(ps, bot, token) == Some(i)
    requires qs == ps[i := qs[i]] && qs[i].status != Open
    ensures FindOpen(qs, bot, token) == None
  {
    forall j | 0 <= j < |qs| ensures !IsOpen(qs[j], bot, token) {
      assert j < i && ps[j].status == Open ==> !IsOpen(ps[i], ps[j].bot, ps[j].token);
      assert i < j ==> !IsOpen(ps[j], ps[i].bot, ps[i].token);
    }
  }

  /** The invariant of the fill's own key: position and replay make the same step. */
  lemma FillSameKey(d: Tables, t: Trade, markets: map<string, Market>, flush: bool)
    requires Invariant(d, flush) && NewFill(d, t)
    ensures KeyInvariant(AfterFill(d, t, markets, flush), flush, t.bot, t.token)
  {
    hide BasisInvariant, AfterFill, OneOpen, PositiveSizes, Replay, Abs;
    var d' := AfterFill(d, t, markets, flush);
    assert KeyInvariant(d, flush, t.bot, t.token);
    assert Agrees(d, flush, t.bot, t.token);
    NoRedemptionByFill(d, t, markets, flush);
    FillAddsTrade(d, t, markets, flush);
    FillFindsRow(d, t, markets, flush);
    var ts := SelectTrades(d.trades, t.bot, t.token);
    SortedLast(ts, t);
    SelectPositive(d.trades, t.bot, t.token);
    match BaseSide(t.side) {
      case Buy => BuySameKey(d, t, markets, flush);
      case Sell =>
        ReplayPositive(ts);
        SizePositive(Replay(ts).lots);
        if FindOpen(d.positions, t.bot, t.token).Some? {
          SellSameKey(d, t, markets, flush);
        } else {
          SellNothing(Replay(ts), t);
          NothingOpenNothingStale(ts);
        }
      case Other =>
    }
  }

  lemma FillAddsTrade(d: Tables, t: Trade, markets: map<string, Market>, flush: bool)
    requires FreshFill(d, t)
    ensures AfterFill(d, t, markets, flush).trades == d.trades + [t]
    ensures SelectTrades(d.trades + [t], t.bot, t.token) == SelectTrades(d.trades, t.bot, t.token) + [t]
    ensures Replay(SelectTrades(d.trades + [t], t.bot, t.token)) ==
            Step(Replay(SelectTrades(d.trades, t.bot, t.token)), t)
  {
    hide KeyInvariant, BasisInvariant, PositiveSizes, Step;
    SelectLast(d.trades, t, t.bot, t.token);
    var ts := SelectTrades(d.trades, t.bot, t.token);
    assert (ts + [t])[..|ts|] == ts;
  }

  lemma SellNothing(a: Account, t: Trade)
    requires a.lots == [] && BaseSide(t.side) == Sell
    ensures Step(a, t).lots == []
  {
  }

  lemma BuySameKey(d: Tables, t: Trade, markets: map<string, Market>, flush: bool)
    requires Invariant(d, flush) && NewFill(d, t) && BaseSide(t.side) == Buy
    requires Agrees(d, flush, t.bot, t.token)
    ensures Agrees(AfterFill(d, t, markets, flush), flush, t.bot, t.token)
  {
    hide KeyInvariant, BasisInvariant, AfterFill, OneOpen, PositiveSizes, Replay, Abs, Times, Quantize, Step;
    hide FifoCost, SelectTrades, Cost, Size;
    FillAddsTrade(d, t, markets, flush);
    FillFindsRow(d, t, markets, flush);
    var ts := SelectTrades(d.trades, t.bot, t.token);
    var a := Replay(ts);
    match FindOpen(d.positions, t.bot, t.token) {
      case Some(i) =>
        var p := d.positions[i];
        OneMoreLot(a, t);
        QuotientError(p.cost + Times(t.size, t.price), p.size + t.size, PRICE_SCALE);
      case None =>
        SelectPositive(d.trades, t.bot, t.token);
        NothingOpenNothingStale(ts);
        OpenedExactly(t);
        FirstLot(a, t);
    }
  }

  lemma FirstLot(a: Account, t: Trade)
    requires a.lots == [] && a.lastConsumed == 0.0 && BaseSide(t.side) == Buy
    ensures var b := Step(a, t);
      b.lots != [] && b.lastConsumed == 0.0 && Size(b.lots) == t.size && Cost(b.lots) == Times(t.size, t.price)
  {
    hide Times;
    var b := Step(a, t);
    assert b.lots == [Lot(t.size, t.price)] && b.lots[..0] == [];
  }

  lemma OneMoreLot(a: Account, t: Trade)
    requires BaseSide(t.side) == Buy
    ensures var b := Step(a, t);
      && b.lots != [] && b.lastConsumed == a.lastConsumed
      && Size(b.lots) == Size(a.lots) + t.size && Cost(b.lots) == Cost(a.lots) + Times(t.size, t.price)
  {
    hide Times;
    var b := Step(a, t);
    assert b.lots[..|a.lots|] == a.lots;
  }

  lemma OpenedExactly(t: Trade)
    requires t.size > 0.0
    ensures Abs(Times(t.price, t.size) - Times(t.size, t.price)) <= Times(0.5 / PRICE_SCALE, t.size)
  {
  }

  lemma SellSameKey(d: Tables, t: Trade, markets: map<string, Market>, flush: bool)
    requires Invariant(d, flush) && NewFill(d, t) && BaseSide(t.side) == Sell
    requires Agrees(d, flush, t.bot, t.token) && FindOpen(d.positions, t.bot, t.token).Some?
    ensures Agrees(AfterFill(d, t, markets, flush), flush, t.bot, t.token)
  {
    hide BasisInvariant, AfterFill, OneOpen, PositiveSizes, Replay, Abs, Times, Quantize, FifoCost, Step;
    hide SelectTrades, Cost, Size, FindOpen, Positive, WasRedeemed, Sorted;
    FillAddsTrade(d, t, markets, flush);
    FillFindsRow(d, t, markets, flush);
    var ts := SelectTrades(d.trades, t.bot, t.token);
    var a, b := Replay(ts), Step(Replay(ts), t);
    SelectPositive(d.trades, t.bot, t.token);
    ReplayPositive(ts);
    SellOutcome(a, t);
    assert KeyInvariant(d, flush, t.bot, t.token);
    SortedLast(ts, t);
    FifoCostInOrder(d.trades, t.bot, t.token);
    FifoCostInOrder(d.trades + [t], t.bot, t.token);
    var visible := if flush then d.trades + [t] else d.trades;
    var fifo := FifoCost(visible, t.bot, t.token);
    if b.lots != [] {
      assert fifo == Cost(b.lots) + Stale(b, flush);
      QuotientError(fifo, Size(b.lots), PRICE_SCALE);
    }
  }

  // ----- cost basis over all positions of a bot -----

  lemma {:induction false} OpenBasisUpdate(ps: seq<Position>, i: nat, q: Position, bot: string)
    requires i < |ps|
    ensures OpenBasis(ps[i := q], bot) == OpenBasis(ps, bot) - BasisOf(ps[i], bot) + BasisOf(q, bot)
  {
    var n := |ps| - 1;
    if i < n {
      assert ps[i := q][..n] == ps[..n][i := q];
      OpenBasisUpdate(ps[..n], i, q, bot);
    } else {
      assert ps[i := q][..n] == ps[..n];
    }
  }

  function KeyBasis(ps: seq<Position>, bot: string, token: string): real {
    match FindOpen(ps, bot, token)
    case None => 0.0
    case Some(i) => ps[i].cost
  }

  lemma KeyBasisIsCost(d: Tables, flush: bool, bot: string, token: string)
    requires PositiveSizes(d.trades) && Agrees(d, flush, bot, token)
    ensures var a := AccountOf(d, bot, token);
      KeyBasis(d.positions, bot, token) == Cost(a.lots) + Stale(a, flush)
  {
    if FindOpen(d.positions, bot, token).None? {
      SelectPositive(d.trades, bot, token);
      NothingOpenNothingStale(SelectTrades(d.trades, bot, token));
    }
  }

  /** A fill changes the basis of its own bot by the change of the one row it touches. */
  lemma FillBasisDelta(d: Tables, t: Trade, markets: map<string, Market>, flush: bool, bot: string)
    requires Invariant(d, flush) && NewFill(d, t)
    ensures var ps, qs := d.positions, AfterFill(d, t, markets, flush).positions;
      OpenBasis(qs, bot) - OpenBasis(ps, bot) ==
      if bot == t.bot then KeyBasis(qs, bot, t.token) - KeyBasis(ps, bot, t.token) else 0.0
  {
    hide KeyInvariant, BasisInvariant, PositiveSizes, AfterFill, OneOpen, FindOpen, FifoCost, Quantize, Times;
    hide Opened, Increased, HasTrade, WasRedeemed, SelectTrades, OpenBasis;
    var ps, qs := d.positions, AfterFill(d, t, markets, flush).positions;
    FillFindsRow(d, t, markets, flush);
    var i := FillTouchesOneRow(d, t, markets, flush);
    if qs != ps {
      if i < |ps| {
        OpenBasisUpdate(ps, i, qs[i], bot);
      } else {
        OpenBasisAppend(ps, qs[i], bot);
      }
    }
  }

  lemma OpenBasisAppend(ps: seq<Position>, q: Position, bot: string)
    ensures OpenBasis(ps + [q], bot) == OpenBasis(ps, bot) + BasisOf(q, bot)
  {
    assert (ps + [q])[..|ps|] == ps;
  }

  /** The replay side: the bot's open cost moves by what the token's account does. */
  lemma FillCostDelta(d: Tables, t: Trade, flush: bool, bot: string)
    ensures var us, ts := OfBot(d.trades, bot), OfBot(d.trades + [t], bot);
      var a, b := Get(ReplayAll(us), t.token), Get(ReplayAll(ts), t.token);
      && (bot == t.bot ==>
            && OpenCost(ts) - OpenCost(us) == Cost(b.lots) - Cost(a.lots)
            && Sum(ReplayAll(ts), LastConsumedOf) - Sum(ReplayAll(us), LastConsumedOf)
               == b.lastConsumed - a.lastConsumed)
      && (bot != t.bot ==> ts == us)
  {
    hide Step;
    assert (d.trades + [t])[..|d.trades|] == d.trades;
    var us := OfBot(d.trades, bot);
    if bot == t.bot {
      assert (us + [t])[..|us|] == us;
      var m := ReplayAll(us);
      var b := Step(Get(m, t.token), t);
      SumUpdate(m, t.token, b, CostOf);
      SumUpdate(m, t.token, b, LastConsumedOf);
    }
  }

  /** On the fill's key, the row's basis and the account's cost (with its staleness) move together. */
  lemma FillKeyDelta(d: Tables, t: Trade, markets: map<string, Market>, flush: bool)
    requires Invariant(d, flush) && NewFill(d, t)
    ensures var d' := AfterFill(d, t, markets, flush);
      var a, b := AccountOf(d, t.bot, t.token), AccountOf(d', t.bot, t.token);
      KeyBasis(d'.positions, t.bot, t.token) - KeyBasis(d.positions, t.bot, t.token) ==
      Cost(b.lots) + Stale(b, flush) - Cost(a.lots) - Stale(a, flush)
  {
    hide OneOpen, Agrees, AfterFill, FindOpen, BasisInvariant, KeyBasis, Replay, Sorted, SelectTrades;
    assert KeyInvariant(d, flush, t.bot, t.token);
    FillSameKey(d, t, markets, flush);
    NoRedemptionByFill(d, t, markets, flush);
    FillPositive(d, t, markets, flush);
    KeyBasisIsCost(d, flush, t.bot, t.token);
    KeyBasisIsCost(AfterFill(d, t, markets, flush), flush, t.bot, t.token);
  }

  lemma FillKeepsBasis(d: Tables, t: Trade, markets: map<string, Market>, flush: bool, bot: string)
    requires Invariant(d, flush) && NewFill(d, t)
    ensures BasisInvariant(AfterFill(d, t, markets, flush), flush, bot)
  {
    hide OneOpen, KeyInvariant, AfterFill, FindOpen, OpenCost, KeyBasis, Replay, ReplayAll, PositiveSizes;
    hide Step, Cost, Sum, OpenBasis, RedeemedBasis, Received, Sorted, Filter;
    var d' := AfterFill(d, t, markets, flush);
    assert BasisInvariant(d, flush, bot);
    FillAddsTrade(d, t, markets, flush);
    FillBasisDelta(d, t, markets, flush, bot);
    FillCostDelta(d, t, flush, bot);
    FillRedeemsNothing(d, t, markets, flush, bot);
    if bot == t.bot {
      FillKeyDelta(d, t, markets, flush);
      ReplayAllAt(OfBot(d.trades, bot), t.token);
      ReplayAllAt(OfBot(d'.trades, bot), t.token);
    }
  }

  lemma FillPositive(d: Tables, t: Trade, markets: map<string, Market>, flush: bool)
    requires Invariant(d, flush) && NewFill(d, t)
    ensures PositiveSizes(AfterFill(d, t, markets, flush).trades)
  {
    hide KeyInvariant, BasisInvariant;
  }

  lemma FillRedeemsNothing(d: Tables, t: Trade, markets: map<string, Market>, flush: bool, bot: string)
    requires OpenPositive(d.positions) && t.size > 0.0
    ensures var es := AfterFill(d, t, markets, flush).events;
      RedeemedBasis(es, bot) == RedeemedBasis(d.events, bot) && Received(es, bot) == Received(d.events, bot)
  {
    var es := AfterFill(d, t, markets, flush).events;
    if es != d.events { assert es[..|d.events|] == d.events; }
  }

  lemma FillKeepsInvariant(d: Tables, t: Trade, markets: map<string, Market>, flush: bool)
    requires Invariant(d, flush) && NewFill(d, t)
    ensures Invariant(AfterFill(d, t, markets, flush), flush)
  {
    hide KeyInvariant, BasisInvariant, AfterFill;
    OpenStaysPositive(d, t, markets, flush);
    FillKeepsOneOpen(d, t, markets, flush);
    FillPositive(d, t, markets, flush);
    var d' := AfterFill(d, t, markets, flush);
    forall bot, token ensures KeyInvariant(d', flush, bot, token) {
      if bot == t.bot && token == t.token {
        FillSameKey(d, t, markets, flush);
      } else {
        FillOtherKey(d, t, markets, flush, bot, token);
      }
    }
    forall bot ensures BasisInvariant(d', flush, bot) {
      FillKeepsBasis(d, t, markets, flush, bot);
    }
  }

  // ----- one redemption -----

  lemma RedeemKey(d: Tables, i: nat, received: real, flush: bool, bot: string, token: string)
    requires Invariant(d, flush) && i < |d.positions| && d.positions[i].status == Open
    ensures KeyInvariant(AfterRedeem(d, i, received), flush, bot, token)
  {
    hide BasisInvariant, PositiveSizes, Agrees, FindOpen, OneOpen, WasRedeemed, SelectTrades, Sorted;
    var e := AfterRedeem(d, i, received);
    var ps, qs := d.positions, e.positions;
    var p := ps[i];
    assert KeyInvariant(d, flush, bot, token);
    RedeemKeepsOneOpen(ps, i);
    if p.bot == bot && p.token == token {
      FindOpenAfter(ps, ps, i, bot, token);
      FindOpenNone(ps, qs, i, bot, token);
      NowRedeemed(qs, i);
    } else {
      FindOpenAfter(ps, qs, i, bot, token);
      SameRedemptions(ps, qs, i, bot, token);
      SameRowAgrees(d, e, flush, bot, token);
    }
  }

  lemma NowRedeemed(ps: seq<Position>, i: nat)
    requires i < |ps| && ps[i].status == Redeemed
    ensures WasRedeemed(ps, ps[i].bot, ps[i].token)
  {
  }

  lemma RedeemKeepsOneOpen(ps: seq<Position>, i: nat)
    requires OneOpen(ps) && i < |ps| && ps[i].status == Open
    ensures OneOpen(ps[i := ps[i].(status := Redeemed)])
  {
    var qs := ps[i := ps[i].(status := Redeemed)];
    forall j, k | 0 <= j < k < |qs| && qs[j].status == Open ensures !IsOpen(qs[k], qs[j].bot, qs[j].token) {
      assert !IsOpen(ps[k], ps[j].bot, ps[j].token);
    }
  }

  lemma RedeemKeepsInvariant(d: Tables, i: nat, received: real, flush: bool)
    requires Invariant(d, flush) && i < |d.positions| && d.positions[i].status == Open
    ensures Invariant(AfterRedeem(d, i, received), flush)
  {
    hide KeyInvariant, OpenCost, OneOpen;
    var d' := AfterRedeem(d, i, received);
    RedeemKeepsOneOpen(d.positions, i);
    forall bot, token ensures KeyInvariant(d', flush, bot, token) {
      RedeemKey(d, i, received, flush, bot, token);
    }
    forall bot ensures BasisInvariant(d', flush, bot) {
      assert BasisInvariant(d, flush, bot);
      OpenBasisUpdate(d.positions, i, d'.positions[i], bot);
      assert d'.events[..|d.events|] == d.events;
    }
  }

  // ----- whole runs -----

  /** Every step of a run of single-fill sessions keeps the invariant. */
  lemma {:induction false} RunInvariant(
      ops: seq<Op>, markets: map<string, Market>, orders: map<string, Order>, flush: bool)
    requires Run(ops, markets, orders, flush).Some?
    ensures Invariant(Run(ops, markets, orders, flush).value, flush)
  {
    hide KeyInvariant, BasisInvariant;
    if ops == [] {
      StartInvariant(orders, flush);
    } else {
      RunInvariant(ops[..|ops| - 1], markets, orders, flush);
      var d := Run(ops[..|ops| - 1], markets, orders, flush).value;
      match ops[|ops| - 1] {
        case Fill(t) =>
          if !HasTrade(d.trades, t.id) && OrderStored(d.orders, t) { FillKeepsInvariant(d, t, markets, flush); }
        case Redeem(i, received) => RedeemKeepsInvariant(d, i, received, flush);
        case PlaceOrder(id, order) => OrdersDoNotMatter(d, d.orders[id := order], flush);
      }
    }
  }

  lemma OrdersDoNotMatter(d: Tables, orders: map<string, Order>, flush: bool)
    requires Invariant(d, flush)
    ensures Invariant(d.(orders := orders), flush)
  {
    hide OneOpen, PositiveSizes;
    var e := d.(orders := orders);
    forall bot, token ensures KeyInvariant(e, flush, bot, token) { assert KeyInvariant(d, flush, bot, token); }
    forall bot ensures BasisInvariant(e, flush, bot) { assert BasisInvariant(d, flush, bot); }
  }

  lemma StartInvariant(orders: map<string, Order>, flush: bool)
    ensures Invariant(Tables([], [], [], orders), flush)
  {
    var d := Tables([], [], [], orders);
    forall bot, token ensures KeyInvariant(d, flush, bot, token) {
      assert SelectTrades(d.trades, bot, token) == [];
    }
    forall bot ensures BasisInvariant(d, flush, bot) {
      assert OfBot(d.trades, bot) == [];
    }
  }

  /**
   * After every run of single-fill sessions, the OPEN position of a key that was not redeemed has the
   * size that a running balance gives and the cost of the lots a FIFO replay leaves, plus, without
   * flushing, the cost that the last partial SELL consumed. Its average price is off by rounding only.
   */
  lemma PositionAgreesWithReplay(
      ops: seq<Op>, markets: map<string, Market>, orders: map<string, Order>, flush: bool, bot: string, token: string)
    requires Run(ops, markets, orders, flush).Some?
    ensures var d := Run(ops, markets, orders, flush).value;
      !WasRedeemed(d.positions, bot, token) ==>
        var ts := SelectTrades(d.trades, bot, token);
        match FindOpen(d.positions, bot, token)
        case None => Held(ts) == 0.0 && Replay(ts).lots == []
        case Some(i) =>
          var p := d.positions[i];
          && p.size == Held(ts) == Size(Replay(ts).lots)
          && p.cost == Cost(Replay(ts).lots) + (if flush then 0.0 else Replay(ts).lastConsumed)
          && Abs(Times(p.avgPrice, p.size) - p.cost) <= Times(0.000000005, p.size)
  {
    hide BasisInvariant, Abs, Times, OneOpen, Sorted, Run, Replay, Held;
    RunInvariant(ops, markets, orders, flush);
    var d := Run(ops, markets, orders, flush).value;
    assert KeyInvariant(d, flush, bot, token);
    SizePositive([]);
    SelectPositive(d.trades, bot, token);
    ReplayHolds(SelectTrades(d.trades, bot, token));
  }

  /**
   * Without flushing, right after a SELL that leaves the position open, the cost basis is too
   * high by exactly the cost that this SELL consumed.
   */
  lemma StaleByConsumedCost(
      ops: seq<Op>, t: Trade, markets: map<string, Market>, orders: map<string, Order>)
    requires Run(ops, markets, orders, false).Some?
    requires var d := Run(ops, markets, orders, false).value; NewFill(d, t) && BaseSide(t.side) == Sell
    requires Held(SelectTrades(Run(ops, markets, orders, false).value.trades, t.bot, t.token)) > t.size
    ensures var d := Run(ops, markets, orders, false).value;
      var ts := SelectTrades(d.trades, t.bot, t.token);
      var qs := AfterFill(d, t, markets, false).positions;
      && FindOpen(qs, t.bot, t.token).Some?
      && qs[FindOpen(qs, t.bot, t.token).value].cost
         == Cost(Replay(ts + [t]).lots) + Match(Replay(ts).lots, t.size).cost
  {
    hide BasisInvariant, Abs, Times, OneOpen;
    RunInvariant(ops, markets, orders, false);
    var d := Run(ops, markets, orders, false).value;
    var ts := SelectTrades(d.trades, t.bot, t.token);
    FillSameKey(d, t, markets, false);
    NoRedemptionByFill(d, t, markets, false);
    FillAddsTrade(d, t, markets, false);
    SelectPositive(d.trades, t.bot, t.token);
    ReplayHolds(ts);
    ReplayPositive(ts);
    MatchQuantity(Replay(ts).lots, t.size);
    MatchConserves(Replay(ts).lots, t.size);
    SizePositive(Match(Replay(ts).lots, t.size).lots);
    assert KeyInvariant(AfterFill(d, t, markets, false), false, t.bot, t.token);
  }

  /** Sorting by time and id, as the P&L query does, does not change the accounts of an in-order history. */
  lemma RealisedOfOrdered(ts: seq<Trade>, bot: string)
    requires forall token :: Sorted(TradeLe, SelectTrades(ts, bot, token))
    ensures Realised(Sort(TradeLe, OfBot(ts, bot))) == Realised(OfBot(ts, bot))
  {
    var us := OfBot(ts, bot);
    var rows := Sort(TradeLe, us);
    TradeOrder();
    forall token ensures OfToken(rows, token) == OfToken(us, token) {
      SortFilter(TradeLe, us, (t: Trade) => t.token == token);
      assert Sorted(TradeLe, SelectTrades(ts, bot, token));
      SortIdentity(TradeLe, OfToken(us, token));
    }
    InterleavingIrrelevant(rows, us);
  }

  lemma RealisedOfSorted(d: Tables, flush: bool, bot: string)
    requires Invariant(d, flush)
    ensures Realised(Sort(TradeLe, OfBot(d.trades, bot))) == Realised(OfBot(d.trades, bot))
  {
    hide BasisInvariant, Agrees, OneOpen, PositiveSizes, Realised, SelectTrades, Sorted;
    forall token ensures Sorted(TradeLe, SelectTrades(d.trades, bot, token)) {
      assert KeyInvariant(d, flush, bot, token);
    }
    RealisedOfOrdered(d.trades, bot);
  }

  /**
   * Conservation over whole runs of single-fill sessions: realised P&L is net cash plus redemption
   * proceeds plus the cost basis of OPEN positions, less the notional of SELL remainders that matched
   * nothing and, without flushing, less the cost by which the stored bases are too high.
   */
  lemma LedgerConservation(
      ops: seq<Op>, markets: map<string, Market>, orders: map<string, Order>, flush: bool, bot: string)
    requires Run(ops, markets, orders, flush).Some?
    ensures var d := Run(ops, markets, orders, flush).value;
      var ts := OfBot(d.trades, bot);
      RealisedPnl(d, bot, None) ==
      Cash(ts) + Received(d.events, bot) + OpenBasis(d.positions, bot)
      - OrphanNotional(ts) - (if flush then 0.0 else Sum(ReplayAll(ts), LastConsumedOf))
  {
    hide OneOpen, KeyInvariant, OpenCost;
    RunInvariant(ops, markets, orders, flush);
    var d := Run(ops, markets, orders, flush).value;
    var ts := OfBot(d.trades, bot);
    FilterPositive(d.trades, (t: Trade) => t.bot == bot);
    RealisedOfSorted(d, flush, bot);
    RealisedIsCash(ts);
    assert BasisInvariant(d, flush, bot);
    RedemptionsSplit(d.events, bot);
  }

  lemma {:induction false} RedemptionsSplit(es: seq<Event>, bot: string)
    ensures Redemptions(es, bot) == Received(es, bot) - RedeemedBasis(es, bot)
  {
    if es != [] { RedemptionsSplit(es[..|es| - 1], bot); }
  }

  /**
   * The order of fills matters, and LateFills says exactly when: if a SELL is booked before the earlier
   * BUY it closes, the position stays OPEN at full cost although the replay by time leaves no lot open.
   */
  lemma AgreementNeedsOrder(markets: map<string, Market>, orders: map<string, Order>)
    ensures var buy := Trade("a", "bot", None, "c", "tok", "BUY", 0.25, 1.0, 0.0, 1);
      var sell := Trade("b", "bot", None, "c", "tok", "SELL", 0.75, 1.0, 0.0, 2);
      var d := AfterFill(AfterFill(Tables([], [], [], orders), sell, markets, true), buy, markets, true);
      && Replay(Sort(TradeLe, SelectTrades(d.trades, "bot", "tok"))).lots == []
      && FindOpen(d.positions, "bot", "tok") == Some(0)
      && d.positions == [Opened(markets, buy)]
  {
    hide Sort, Replay, AfterFill, FindOpen;
    var buy := Trade("a", "bot", None, "c", "tok", "BUY", 0.25, 1.0, 0.0, 1);
    var sell := Trade("b", "bot", None, "c", "tok", "SELL", 0.75, 1.0, 0.0, 2);
    PlainSides();
    assert !HasTrade([sell], "a") by { assert "a"[0] == 'a' && "b"[0] == 'b'; }
    BookedOutOfOrder(buy, sell, markets, orders);
    var ts := [sell, buy];
    FilterAll(ts, (t: Trade) => t.bot == "bot");
    FilterAll(ts, (t: Trade) => t.token == "tok");
    SortedPair(buy, sell);
    ReplayedPair(buy, sell);
  }

  /** A SELL without a position, then a BUY of the same token. */
  lemma BookedOutOfOrder(buy: Trade, sell: Trade, markets: map<string, Market>, orders: map<string, Order>)
    requires BaseSide(buy.side) == Buy && BaseSide(sell.side) == Sell && buy.size > 0.0 && sell.size > 0.0
    requires !HasTrade([sell], buy.id) && OrderStored(orders, buy) && OrderStored(orders, sell)
    ensures var d1 := AfterFill(Tables([], [], [], orders), sell, markets, true);
      var d := AfterFill(d1, buy, markets, true);
      && d1.positions == [] && d.trades == [sell, buy] && d.positions == [Opened(markets, buy)]
      && FindOpen(d.positions, buy.bot, buy.token) == Some(0)
  {
    hide AfterFill, HasTrade, OrderStored, Opened;
    var d0 := Tables([], [], [], orders);
    assert !HasTrade(d0.trades, sell.id) by { NoTrades(sell.id); }
    BookedFirst(d0, sell, markets);
    var d1 := AfterFill(d0, sell, markets, true);
    assert d1.trades == [sell] && d1.positions == [];
    assert OrderStored(d1.orders, buy) by { SameOrders(orders, d1.orders, buy); }
    BookedFirst(d1, buy, markets);
    assert d1.trades + [buy] == [sell, buy];
  }

  lemma NoTrades(id: string)
    ensures !HasTrade([], id)
  {
  }

  lemma SameOrders(o: map<string, Order>, r: map<string, Order>, t: Trade)
    requires o.Keys == r.Keys
    ensures OrderStored(o, t) == OrderStored(r, t)
  {
  }

  /** A fill booked while there are no positions. */
  lemma BookedFirst(d: Tables, t: Trade, markets: map<string, Market>)
    requires d.positions == [] && t.size > 0.0 && !HasTrade(d.trades, t.id) && OrderStored(d.orders, t)
    ensures var e := AfterFill(d, t, markets, true);
      && e.trades == d.trades + [t] && e.orders.Keys == d.orders.Keys
      && e.positions == (if BaseSide(t.side) == Buy then [Opened(markets, t)] else [])
      && FindOpen(e.positions, t.bot, t.token) == if BaseSide(t.side) == Buy then Some(0) else None
  {
    hide Times, Quantize, FifoCost, OutcomeOf, EventsAfter, OrdersAfter;
    IsOpened(markets, t);
    var e := AfterFill(d, t, markets, true);
    if BaseSide(t.side) == Buy {
      assert [] + [Opened(markets, t)] == [Opened(markets, t)];
      var f := FindOpen(e.positions, t.bot, t.token);
    }
  }

  lemma IsOpened(markets: map<string, Market>, t: Trade)
    ensures IsOpen(Opened(markets, t), t.bot, t.token)
  {
  }

  lemma SortedPair(a: Trade, b: Trade)
    requires a.filledAt < b.filledAt
    ensures Sort(TradeLe, [b, a]) == [a, b]
  {
    assert [b, a][..1] == [b] && [b][..0] == [];
    assert Insert(TradeLe, [], a) == [a];
    assert Sort(TradeLe, [b]) == [b];
  }

  lemma ReplayedPair(buy: Trade, sell: Trade)
    requires BaseSide(buy.side) == Buy && BaseSide(sell.side) == Sell && buy.size == sell.size > 0.0
    ensures Replay([buy, sell]).lots == []
  {
    hide Times;
    assert [buy, sell][..1] == [buy] && [buy][..0] == [];
    assert Replay([buy]).lots == [Lot(buy.size, buy.price)];
    MatchQuantity([Lot(buy.size, buy.price)], sell.size);
    MatchConserves([Lot(buy.size, buy.price)], sell.size);
    SizePositive(Match([Lot(buy.size, buy.price)], sell.size).lots);
    assert [Lot(buy.size, buy.price)][..0] == [];
  }
}
