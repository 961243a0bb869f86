/**
 * Fills that are booked after later ones of the same token: exactly when the position they leave
 * still has the size, and the cost, that a replay in time order gives.
 */
module LateFills {
  import opened Sums
  import opened Sorting
  import opened Trades
  import opened Fifo
  import opened Portfolio
  import opened Ledger

  /** How many of the trades, which are in order, come before t. */
  function Place(ts: seq<Trade>, t: Trade): (k: nat)
    ensures k <= |ts|
  {
    if ts == [] || TradeLe(ts[|ts| - 1], t) then |ts| else Place(ts[..|ts| - 1], t)
  }

  lemma {:induction false} InsertedAt(ts: seq<Trade>, t: Trade)
    ensures var k := Place(ts, t);
      Insert(TradeLe, ts, t) == ts[..k] + [t] + ts[k..]
  {
    if ts != [] && !TradeLe(ts[|ts| - 1], t) {
      var vs, k := ts[..|ts| - 1], Place(ts, t);
      InsertedAt(vs, t);
      assert ts[..k] == vs[..k] && ts[k..] == vs[k..] + [ts[|ts| - 1]];
    }
  }

  // ----- balances -----

  /** What the SELLs of v exceed the balance by, in total, if v starts from h. */
  function Short(h: real, v: seq<Trade>): real {
    if v == [] then 0.0
    else
      var w, t := v[..|v| - 1], v[|v| - 1];
      Short(h, w) + if BaseSide(t.side) == Sell then Max(0.0, t.size - Balance(h, w)) else 0.0
  }

  /** The least balance before, during and after v. */
  function Lowest(h: real, v: seq<Trade>): real {
    if v == [] then h else Min(Lowest(h, v[..|v| - 1]), Balance(h, v))
  }

  lemma {:induction false} ShortIsOrphaned(ts: seq<Trade>, v: seq<Trade>)
    ensures Orphaned(ts + v) == Orphaned(ts) + Short(Held(ts), v)
  {
    if v == [] {
      assert ts + v == ts;
    } else {
      var w := v[..|v| - 1];
      assert (ts + v)[..|ts + v| - 1] == ts + w;
      ShortIsOrphaned(ts, w);
      BalanceConcat(0.0, ts, w);
    }
  }

  lemma {:induction false} ShortNotNegative(h: real, v: seq<Trade>)
    ensures Short(h, v) >= 0.0
  {
    if v != [] { ShortNotNegative(h, v[..|v| - 1]); }
  }

  /** A larger start is kept in full exactly if no SELL is short from the smaller one. */
  lemma {:induction false} MoreAtTheStart(h: real, q: real, v: seq<Trade>)
    requires h >= 0.0 && q > 0.0
    ensures Balance(h, v) <= Balance(h + q, v) <= Balance(h, v) + q
    ensures Balance(h + q, v) == Balance(h, v) + q <==> Short(h, v) == 0.0
  {
    if v != [] {
      MoreAtTheStart(h, q, v[..|v| - 1]);
      ShortNotNegative(h, v[..|v| - 1]);
    }
  }

  /** A start that is smaller by q: the difference stays q while the balance does, and is smaller afterwards. */
  lemma {:induction false} LessAtTheStart(h: real, q: real, v: seq<Trade>)
    requires h >= 0.0 && q > 0.0 && PositiveSizes(v)
    ensures var b, c := Balance(h, v), Balance(Max(0.0, h - q), v);
      0.0 <= c && 0.0 <= b && if Lowest(h, v) >= q then c == b - q else c > b - q
  {
    if v != [] { LessAtTheStart(h, q, v[..|v| - 1]); }
  }

  /** A balance is what a start from nothing leaves, or the plain sum if that is more. */
  lemma {:induction false} BalanceIsMaximum(x: real, v: seq<Trade>)
    requires x >= 0.0 && PositiveSizes(v)
    ensures Balance(0.0, v) >= 0.0
    ensures Balance(x, v) == Max(Balance(0.0, v), x + Bought(v) - Sold(v))
  {
    if v != [] { BalanceIsMaximum(x, v[..|v| - 1]); }
  }

  /** The balance after v of a start lowered by a SELL of q, against the SELL coming last. */
  lemma SellEarlier(h: real, q: real, v: seq<Trade>)
    requires h >= 0.0 && q > 0.0 && PositiveSizes(v)
    ensures Balance(Max(0.0, h - q), v) == Max(0.0, Balance(h, v) - q) <==>
      Lowest(h, v) >= q || (Balance(0.0, v) == 0.0 && h + Bought(v) - Sold(v) <= q)
  {
    hide Lowest, Balance, Bought, Sold;
    LessAtTheStart(h, q, v);
    BalanceIsMaximum(Max(0.0, h - q), v);
    BalanceIsMaximum(0.0, v);
  }

  // ----- positions -----

  /** The size of the OPEN row of a key, nothing if there is none. */
  function PositionSize(ps: seq<Position>, bot: string, token: string): real {
    match FindOpen(ps, bot, token) case None => 0.0 case Some(i) => ps[i].size
  }

  /** A stored fill of a key that was not redeemed, filled at any time. */
  ghost predicate AnyFill(d: Tables, t: Trade) {
    FreshFill(d, t) && !WasRedeemed(d.positions, t.bot, t.token)
  }

  lemma SizeBeforeFill(
      ops: seq<Op>, t: Trade, markets: map<string, Market>, orders: map<string, Order>, flush: bool)
    requires Run(ops, markets, orders, flush).Some? && AnyFill(Run(ops, markets, orders, flush).value, t)
    ensures var d := Run(ops, markets, orders, flush).value;
      var ts := SelectTrades(d.trades, t.bot, t.token);
      && PositionSize(d.positions, t.bot, t.token) == Held(ts)
      && PositiveSizes(ts) && Sorted(TradeLe, ts)
  {
    hide SelectTrades, Run, Held, Replay, FindOpen, BasisInvariant, WasRedeemed, OneOpen, Times;
    var d := Run(ops, markets, orders, flush).value;
    RunInvariant(ops, markets, orders, flush);
    assert KeyInvariant(d, flush, t.bot, t.token);
    SelectPositive(d.trades, t.bot, t.token);
    PositionAgreesWithReplay(ops, markets, orders, flush, t.bot, t.token);
  }

  lemma SizeAfterFill(d: Tables, t: Trade, markets: map<string, Market>, flush: bool)
    requires FreshFill(d, t)
    ensures var h := PositionSize(d.positions, t.bot, t.token);
      && h >= 0.0
      && PositionSize(AfterFill(d, t, markets, flush).positions, t.bot, t.token) ==
         match BaseSide(t.side) case Buy => h + t.size case Sell => Max(0.0, h - t.size) case Other => h
  {
    hide AfterFill, FifoCost, Times, OneOpen;
    FillFindsRow(d, t, markets, flush);
  }

  /** The replay in time order puts t in its place. */
  lemma ReplayPlaces(d: Tables, t: Trade, markets: map<string, Market>, flush: bool)
    requires FreshFill(d, t) && Sorted(TradeLe, SelectTrades(d.trades, t.bot, t.token))
    ensures var ts := SelectTrades(d.trades, t.bot, t.token);
      var k := Place(ts, t);
      var d' := AfterFill(d, t, markets, flush);
      Sort(TradeLe, SelectTrades(d'.trades, t.bot, t.token)) == ts[..k] + [t] + ts[k..]
  {
    hide SelectTrades, AfterFill, Insert, OneOpen;
    var ts := SelectTrades(d.trades, t.bot, t.token);
    FillAddsTrade(d, t, markets, flush);
    assert (ts + [t])[..|ts|] == ts;
    SortIdentity(TradeLe, ts);
    InsertedAt(ts, t);
  }

  lemma HeldWith(u: seq<Trade>, t: Trade, v: seq<Trade>)
    ensures Held(u + [t] + v) ==
      Balance(match BaseSide(t.side)
              case Buy => Held(u) + t.size
              case Sell => Max(0.0, Held(u) - t.size)
              case Other => Held(u), v)
  {
    BalanceConcat(0.0, u + [t], v);
    assert (u + [t])[..|u|] == u;
  }

  lemma {:induction false} HeldNotNegative(ts: seq<Trade>)
    requires PositiveSizes(ts)
    ensures Held(ts) >= 0.0
  {
    if ts != [] { HeldNotNegative(ts[..|ts| - 1]); }
  }

  /**
   * After any run, a BUY booked at any time, however late: the position has the size of the replay in
   * time order exactly if no SELL of the token that comes after the BUY sold more than was held.
   */
  lemma LateBuyAgrees(
      ops: seq<Op>, t: Trade, markets: map<string, Market>, orders: map<string, Order>, flush: bool)
    requires Run(ops, markets, orders, flush).Some? && AnyFill(Run(ops, markets, orders, flush).value, t)
    requires BaseSide(t.side) == Buy
    ensures var d := Run(ops, markets, orders, flush).value;
      var d' := AfterFill(d, t, markets, flush);
      var ts := SelectTrades(d.trades, t.bot, t.token);
      PositionSize(d'.positions, t.bot, t.token) == Held(Sort(TradeLe, SelectTrades(d'.trades, t.bot, t.token)))
      <==> Orphaned(ts) == Orphaned(ts[..Place(ts, t)])
  {
    hide SelectTrades, Run, Balance, FindOpen, WasRedeemed, OneOpen, AfterFill, Sort, Orphaned, Short;
    hide PositionSize, Place;
    var d := Run(ops, markets, orders, flush).value;
    var ts := SelectTrades(d.trades, t.bot, t.token);
    SizeBeforeFill(ops, t, markets, orders, flush);
    SizeAfterFill(d, t, markets, flush);
    ReplayPlaces(d, t, markets, flush);
    var u, v := ts[..Place(ts, t)], ts[Place(ts, t)..];
    assert ts == u + v;
    HeldWith(u, t, v);
    BalanceConcat(0.0, u, v);
    HeldNotNegative(u);
    MoreAtTheStart(Held(u), t.size, v);
    ShortIsOrphaned(u, v);
  }

  /**
   * The same for a SELL: exactly if from its time on the balance never was below its size, or if
   * the later trades leave nothing whether they start from nothing or from what the SELL leaves.
   */
  lemma LateSellAgrees(
      ops: seq<Op>, t: Trade, markets: map<string, Market>, orders: map<string, Order>, flush: bool)
    requires Run(ops, markets, orders, flush).Some? && AnyFill(Run(ops, markets, orders, flush).value, t)
    requires BaseSide(t.side) == Sell
    ensures var d := Run(ops, markets, orders, flush).value;
      var d' := AfterFill(d, t, markets, flush);
      var ts := SelectTrades(d.trades, t.bot, t.token);
      var u, v := ts[..Place(ts, t)], ts[Place(ts, t)..];
      PositionSize(d'.positions, t.bot, t.token) == Held(Sort(TradeLe, SelectTrades(d'.trades, t.bot, t.token)))
      <==> Lowest(Held(u), v) >= t.size || (Held(v) == 0.0 && Held(u) + Bought(v) - Sold(v) <= t.size)
  {
    hide SelectTrades, Run, Balance, FindOpen, WasRedeemed, OneOpen, AfterFill, Sort, Lowest, Bought, Sold;
    hide PositionSize, Place;
    var d := Run(ops, markets, orders, flush).value;
    var ts := SelectTrades(d.trades, t.bot, t.token);
    SizeBeforeFill(ops, t, markets, orders, flush);
    SizeAfterFill(d, t, markets, flush);
    ReplayPlaces(d, t, markets, flush);
    var u, v := ts[..Place(ts, t)], ts[Place(ts, t)..];
    assert ts == u + v;
    HeldWith(u, t, v);
    BalanceConcat(0.0, u, v);
    HeldNotNegative(u);
    assert PositiveSizes(v);
    SellEarlier(Held(u), t.size, v);
  }

  // ----- FIFO as a queue -----

  lemma {:induction false} CostConcat(a: seq<Lot>, b: seq<Lot>)
    ensures Cost(a + b) == Cost(a) + Cost(b) && Size(a + b) == Size(a) + Size(b)
  {
    hide Times;
    if b == [] {
      assert a + b == a;
    } else {
      assert (a + b)[..|a + b| - 1] == a + b[..|b| - 1];
      CostConcat(a, b[..|b| - 1]);
    }
  }

  /** One step of the matching loop. */
  lemma MatchHead(lot: Lot, rest: seq<Lot>, a: real)
    requires lot.size > 0.0 && a > 0.0
    ensures var m := Match([lot] + rest, a);
      if lot.size <= a then
        var n := Match(rest, a - lot.size);
        m == Matching(n.lots, n.remaining, lot.size + n.quantity, Times(lot.size, lot.price) + n.cost)
      else m == Matching([lot.(size := lot.size - a)] + rest, 0.0, a, Times(a, lot.price))
  {
    hide Times;
    var lots := [lot] + rest;
    assert lots[0] == lot && lots[1..] == rest;
  }

  lemma PositiveParts(lot: Lot, rest: seq<Lot>)
    requires Positive([lot] + rest)
    ensures lot.size > 0.0 && Positive(rest) && Size(rest) >= 0.0
  {
    var lots := [lot] + rest;
    assert lots[0] == lot && forall i :: 0 <= i < |rest| ==> rest[i] == lots[i + 1];
    SizePositive(rest);
  }

  lemma NothingTaken(lots: seq<Lot>, more: seq<Lot>, a: real)
    requires Positive(lots) && 0.0 <= a <= Size(lots) && (a <= 0.0 || lots == [])
    ensures Match(lots, a) == Matching(lots, a, 0.0, 0.0) && Match(lots + more, a) == Matching(lots + more, a, 0.0, 0.0)
  {
    SizePositive(lots);
  }

  lemma TakenOnce(lots: seq<Lot>, a: real, b: real)
    requires a >= 0.0 && b >= 0.0 && (a <= 0.0 || b <= 0.0 || lots == [])
    ensures var m, n := Match(lots, a), Match(lots, a + b);
      Match(m.lots, b).lots == n.lots && m.cost + Match(m.lots, b).cost == n.cost
  {
    if b <= 0.0 { assert a + b == a; }
  }

  /** A SELL that the front of the queue covers does not see the rest. */
  lemma {:induction false} MatchFront(lots: seq<Lot>, more: seq<Lot>, a: real)
    requires Positive(lots) && 0.0 <= a <= Size(lots)
    ensures var m, n := Match(lots, a), Match(lots + more, a);
      n.lots == m.lots + more && n.cost == m.cost && n.quantity == m.quantity
    decreases |lots|
  {
    hide Times, Match, Positive, Size;
    if a <= 0.0 || lots == [] {
      NothingTaken(lots, more, a);
    } else {
      var lot, rest := lots[0], lots[1..];
      assert lots == [lot] + rest && lots + more == [lot] + (rest + more);
      PositiveParts(lot, rest);
      SizeCostCons(lot, rest);
      MatchHead(lot, rest, a);
      MatchHead(lot, rest + more, a);
      if lot.size <= a {
        MatchFront(rest, more, a - lot.size);
      } else {
        assert [lot.(size := lot.size - a)] + (rest + more) == [lot.(size := lot.size - a)] + rest + more;
      }
    }
  }

  /** Two SELLs take what one of their total size takes. */
  lemma {:induction false} MatchTwice(lots: seq<Lot>, a: real, b: real)
    requires Positive(lots) && a >= 0.0 && b >= 0.0
    ensures var m, n := Match(lots, a), Match(lots, a + b);
      Match(m.lots, b).lots == n.lots && m.cost + Match(m.lots, b).cost == n.cost
    decreases |lots|
  {
    hide Times, Match, Positive;
    if a <= 0.0 || b <= 0.0 || lots == [] {
      TakenOnce(lots, a, b);
    } else {
      var lot, rest := lots[0], lots[1..];
      assert lots == [lot] + rest;
      PositiveParts(lot, rest);
      MatchHead(lot, rest, a);
      MatchHead(lot, rest, a + b);
      if lot.size <= a {
        MatchTwice(rest, a - lot.size, b);
      } else {
        MatchHead(lot.(size := lot.size - a), rest, b);
        TimesDistributes(lot.size, a, lot.price);
        TimesDistributes(a, b, lot.price);
      }
    }
  }

  function BuyLots(v: seq<Trade>): seq<Lot> {
    if v == [] then []
    else
      var t := v[|v| - 1];
      BuyLots(v[..|v| - 1]) + if BaseSide(t.side) == Buy then [Lot(t.size, t.price)] else []
  }

  lemma {:induction false} BuyLotsPositive(v: seq<Trade>)
    requires PositiveSizes(v)
    ensures Positive(BuyLots(v)) && Size(BuyLots(v)) == Bought(v)
  {
    if v != [] {
      var w, t := v[..|v| - 1], v[|v| - 1];
      BuyLotsPositive(w);
      if BaseSide(t.side) == Buy {
        CostConcat(BuyLots(w), [Lot(t.size, t.price)]);
        OneLot(Lot(t.size, t.price));
      } else {
        assert BuyLots(w) + [] == BuyLots(w);
      }
    }
  }

  lemma OneLot(lot: Lot)
    ensures Size([lot]) == lot.size && Cost([lot]) == Times(lot.size, lot.price)
  {
    hide Times;
    assert [lot][..0] == [];
  }

  lemma {:induction false} BoughtSold(h: real, v: seq<Trade>)
    requires Short(h, v) == 0.0
    ensures Balance(h, v) == h + Bought(v) - Sold(v)
  {
    if v != [] {
      ShortNotNegative(h, v[..|v| - 1]);
      BoughtSold(h, v[..|v| - 1]);
    }
  }

  /** The queue that v works on after u: what u left open, then what v buys. */
  function Queue(u: seq<Trade>, v: seq<Trade>): seq<Lot> {
    Replay(u).lots + BuyLots(v)
  }

  lemma QueuePositive(u: seq<Trade>, v: seq<Trade>)
    requires PositiveSizes(u) && PositiveSizes(v)
    ensures Positive(Queue(u, v)) && Size(Queue(u, v)) == Held(u) + Bought(v)
  {
    ReplayPositive(u);
    ReplayHolds(u);
    BuyLotsPositive(v);
    CostConcat(Replay(u).lots, BuyLots(v));
  }

  /** If no SELL is short, it does not matter when the lots were bought: v sells from the front of its queue. */
  lemma {:induction false} ReplayIsQueue(u: seq<Trade>, v: seq<Trade>)
    requires PositiveSizes(u) && PositiveSizes(v) && Short(Held(u), v) == 0.0
    ensures 0.0 <= Sold(v) <= Size(Queue(u, v))
    ensures Replay(u + v).lots == Match(Queue(u, v), Sold(v)).lots
  {
    hide Replay, Match, Positive, Short, Sold, Balance, Held, Size;
    if v == [] {
      assert u + v == u;
      EmptyQueue(u);
    } else {
      var w, t := v[..|v| - 1], v[|v| - 1];
      assert v == w + [t] && u + v == (u + w) + [t];
      NotShortBefore(Held(u), w, t);
      ReplayIsQueue(u, w);
      ReplayLast(u + w, t);
      QueueStep(u, w, t);
    }
  }

  lemma NotShortBefore(h: real, w: seq<Trade>, t: Trade)
    requires Short(h, w + [t]) == 0.0
    ensures Short(h, w) == 0.0 && (BaseSide(t.side) == Sell ==> t.size <= Balance(h, w))
  {
    assert (w + [t])[..|w|] == w;
    ShortNotNegative(h, w);
  }

  lemma EmptyQueue(u: seq<Trade>)
    requires PositiveSizes(u)
    ensures Sold([]) == 0.0 <= Size(Queue(u, []))
    ensures Replay(u).lots == Match(Queue(u, []), Sold([])).lots
  {
    hide Replay, Match;
    QueuePositive(u, []);
    HeldNotNegative(u);
    assert Queue(u, []) == Replay(u).lots;
    MatchNothing(Replay(u).lots);
  }

  lemma QueueStep(u: seq<Trade>, w: seq<Trade>, t: Trade)
    requires PositiveSizes(u) && PositiveSizes(w) && t.size > 0.0
    requires Short(Held(u), w) == 0.0 && (BaseSide(t.side) == Sell ==> t.size <= Balance(Held(u), w))
    requires 0.0 <= Sold(w) <= Size(Queue(u, w))
    ensures 0.0 <= Sold(w + [t]) <= Size(Queue(u, w + [t]))
    ensures var m := Match(Queue(u, w), Sold(w)).lots;
      Match(Queue(u, w + [t]), Sold(w + [t])).lots ==
      match BaseSide(t.side)
      case Buy => m + [Lot(t.size, t.price)]
      case Sell => Match(m, t.size).lots
      case Other => m
  {
    hide Replay, Match, Short, Balance, Positive, Size, Held;
    QueuePositive(u, w);
    BoughtSold(Held(u), w);
    SoldLast(w, t);
    var lot := Lot(t.size, t.price);
    match BaseSide(t.side) {
      case Buy =>
        assert Queue(u, w + [t]) == Queue(u, w) + [lot];
        CostConcat(Queue(u, w), [lot]);
        OneLot(lot);
        MatchFront(Queue(u, w), [lot], Sold(w));
      case Sell =>
        assert Queue(u, w + [t]) == Queue(u, w);
        MatchTwice(Queue(u, w), Sold(w), t.size);
      case Other => assert Queue(u, w + [t]) == Queue(u, w);
    }
  }

  lemma SoldLast(w: seq<Trade>, t: Trade)
    ensures Sold(w + [t]) == Sold(w) + if BaseSide(t.side) == Sell then t.size else 0.0
    ensures BuyLots(w + [t]) == BuyLots(w) + if BaseSide(t.side) == Buy then [Lot(t.size, t.price)] else []
  {
    assert (w + [t])[..|w|] == w;
  }

  lemma MatchNothing(lots: seq<Lot>)
    ensures Match(lots, 0.0) == Matching(lots, 0.0, 0.0, 0.0)
  {
  }

  lemma ReplayLast(ts: seq<Trade>, t: Trade)
    ensures Replay(ts + [t]).lots ==
      match BaseSide(t.side)
      case Buy => Replay(ts).lots + [Lot(t.size, t.price)]
      case Sell => Match(Replay(ts).lots, t.size).lots
      case Other => Replay(ts).lots
  {
    hide Match;
    assert (ts + [t])[..|ts|] == ts;
  }

  /** What is taken from a queue: its front in full, then from the rest. */
  lemma TakenBeyond(front: seq<Lot>, rest: seq<Lot>, x: real)
    requires Positive(front) && Positive(rest) && x >= Size(front)
    ensures Match(front + rest, x).cost == Cost(front) + Match(rest, x - Size(front)).cost
  {
    hide Match;
    SizePositive(front);
    MatchFront(front, rest, Size(front));
    MatchConserves(front, Size(front));
    assert Match(front, Size(front)).lots == [] by { AllTaken(front); }
    SizePositive([]);
    assert [] + rest == rest;
    MatchTwice(front + rest, Size(front), x - Size(front));
  }

  lemma AllTaken(lots: seq<Lot>)
    requires Positive(lots)
    ensures Match(lots, Size(lots)).lots == []
  {
    SizePositive(lots);
    if lots != [] {
      MatchQuantity(lots, Size(lots));
      MatchConserves(lots, Size(lots));
      SizePositive(Match(lots, Size(lots)).lots);
    }
  }

  // ----- costs of late fills -----

  function PositionCost(ps: seq<Position>, bot: string, token: string): real {
    match FindOpen(ps, bot, token) case None => 0.0 case Some(i) => ps[i].cost
  }

  lemma {:induction false} MoreIsNotShorter(h: real, q: real, v: seq<Trade>)
    requires h >= 0.0 && q > 0.0
    ensures Short(h + q, v) <= Short(h, v)
  {
    if v != [] {
      MoreIsNotShorter(h, q, v[..|v| - 1]);
      MoreAtTheStart(h, q, v[..|v| - 1]);
    }
  }

  /** What the SELLs of v, beyond the quantity held when t was filled, take from what follows: t's lot, or not. */
  function TakenCost(first: seq<Lot>, u: seq<Trade>, v: seq<Trade>): real {
    Match(first + BuyLots(v), Sold(v) - Held(u)).cost
  }

  /** The later SELLs do not reach the lot, or what they take of it costs what they took instead. */
  predicate SameCostTaken(t: Trade, u: seq<Trade>, v: seq<Trade>) {
    Sold(v) <= Held(u) || TakenCost([Lot(t.size, t.price)], u, v) == TakenCost([], u, v)
  }

  lemma CostWithLateBuy(u: seq<Trade>, t: Trade, v: seq<Trade>)
    requires PositiveSizes(u) && PositiveSizes(v) && t.size > 0.0 && BaseSide(t.side) == Buy
    requires Short(Held(u), v) == 0.0
    ensures Cost(Replay(u + [t] + v).lots) == Cost(Replay(u + v).lots) + Times(t.size, t.price) <==>
            SameCostTaken(t, u, v)
  {
    hide Times, Replay, Match, Short, Balance, Sold, Held, Cost, Queue, BuyLots;
    var lot := Lot(t.size, t.price);
    HeldNotNegative(u);
    HeldAndBought(u, t);
    MoreIsNotShorter(Held(u), t.size, v);
    ShortNotNegative(Held(u) + t.size, v);
    QueueCost(u, [], v);
    QueueCost(u, [lot], v);
    assert [] + BuyLots(v) == BuyLots(v);
    LateQueue(u, t, v);
    ReplayCosts(u, v);
    ReplayCosts(u + [t], v);
    OneLot(lot);
    ReplayIsQueue(u, v);
    TakenFromFront(u, lot, v);
  }

  lemma LateQueue(u: seq<Trade>, t: Trade, v: seq<Trade>)
    requires BaseSide(t.side) == Buy
    ensures Queue(u + [t], v) == Replay(u).lots + ([Lot(t.size, t.price)] + BuyLots(v))
    ensures Queue(u, v) == Replay(u).lots + BuyLots(v)
  {
    hide Replay;
    ReplayLast(u, t);
  }

  lemma ReplayCosts(u: seq<Trade>, v: seq<Trade>)
    requires PositiveSizes(u) && PositiveSizes(v) && Short(Held(u), v) == 0.0
    ensures Cost(Replay(u + v).lots) == Cost(Queue(u, v)) - Match(Queue(u, v), Sold(v)).cost
  {
    hide Replay, Match, Short, Balance, Sold, Held, Cost, Queue;
    ReplayIsQueue(u, v);
    MatchConserves(Queue(u, v), Sold(v));
  }

  /** Cost of a queue with something put in behind what u left. */
  lemma QueueCost(u: seq<Trade>, first: seq<Lot>, v: seq<Trade>)
    ensures Cost(Replay(u).lots + (first + BuyLots(v))) == Cost(Replay(u).lots) + Cost(first) + Cost(BuyLots(v))
    ensures Cost([]) == 0.0
  {
    CostConcat(Replay(u).lots, first + BuyLots(v));
    CostConcat(first, BuyLots(v));
  }

  /** The two queues give up the same cost exactly if the late lot is not reached, or costs what it replaces. */
  lemma TakenFromFront(u: seq<Trade>, lot: Lot, v: seq<Trade>)
    requires PositiveSizes(u) && PositiveSizes(v) && lot.size > 0.0 && Sold(v) >= 0.0
    ensures var l, b, x := Replay(u).lots, BuyLots(v), Sold(v);
      Match(l + ([lot] + b), x).cost == Match(l + b, x).cost <==>
      Sold(v) <= Held(u) || Match([lot] + b, x - Held(u)).cost == Match([] + b, x - Held(u)).cost
  {
    hide Replay, Match, Balance, Sold, Cost, Size, Positive, Held, BuyLots;
    var l, b, x := Replay(u).lots, BuyLots(v), Sold(v);
    ReplayPositive(u);
    ReplayHolds(u);
    BuyLotsPositive(v);
    assert [] + b == b;
    if x <= Held(u) {
      MatchFront(l, [lot] + b, x);
      MatchFront(l, b, x);
    } else {
      OnePositive(lot, b);
      TakenBeyond(l, [lot] + b, x);
      TakenBeyond(l, b, x);
    }
  }

  lemma OnePositive(lot: Lot, b: seq<Lot>)
    requires lot.size > 0.0 && Positive(b)
    ensures Positive([lot] + b)
  {
  }

  lemma HeldAndBought(u: seq<Trade>, t: Trade)
    requires BaseSide(t.side) == Buy
    ensures Held(u + [t]) == Held(u) + t.size
  {
    assert (u + [t])[..|u|] == u;
  }

  lemma CostAfterFill(d: Tables, t: Trade, markets: map<string, Market>, flush: bool)
    requires FreshFill(d, t)
    ensures var ps, d' := d.positions, AfterFill(d, t, markets, flush);
      var c, c' := PositionCost(ps, t.bot, t.token), PositionCost(d'.positions, t.bot, t.token);
      && (BaseSide(t.side) == Buy ==> c' == c + Times(t.size, t.price))
      && (BaseSide(t.side) == Sell && FindOpen(d'.positions, t.bot, t.token).Some? ==>
            c' == FifoCost(if flush then d'.trades else d.trades, t.bot, t.token))
  {
    hide AfterFill, FifoCost, Times, OneOpen;
    FillFindsRow(d, t, markets, flush);
    FillAddsTrade(d, t, markets, flush);
  }

  /**
   * With flushing, after any run: a BUY booked at any time that leaves the size of the replay in time
   * order leaves its cost as well exactly if the later SELLs do not reach its lot, or take the same cost
   * from it as they took instead.
   */
  lemma LateBuyCost(ops: seq<Op>, t: Trade, markets: map<string, Market>, orders: map<string, Order>)
    requires Run(ops, markets, orders, true).Some? && AnyFill(Run(ops, markets, orders, true).value, t)
    requires BaseSide(t.side) == Buy
    requires var ts := SelectTrades(Run(ops, markets, orders, true).value.trades, t.bot, t.token);
      Orphaned(ts) == Orphaned(ts[..Place(ts, t)])
    ensures var d := Run(ops, markets, orders, true).value;
      var d' := AfterFill(d, t, markets, true);
      var ts := SelectTrades(d.trades, t.bot, t.token);
      PositionCost(d'.positions, t.bot, t.token) ==
      Cost(Replay(Sort(TradeLe, SelectTrades(d'.trades, t.bot, t.token))).lots)
      <==> SameCostTaken(t, ts[..Place(ts, t)], ts[Place(ts, t)..])
  {
    hide SelectTrades, Run, Balance, FindOpen, WasRedeemed, OneOpen, AfterFill, Sort, Orphaned, Short, Replay;
    hide PositionCost, Place, SameCostTaken, Held, Times, Sorted, Cost;
    var d := Run(ops, markets, orders, true).value;
    var ts := SelectTrades(d.trades, t.bot, t.token);
    SizeBeforeFill(ops, t, markets, orders, true);
    CostBeforeFill(ops, t, markets, orders);
    CostAfterFill(d, t, markets, true);
    ReplayPlaces(d, t, markets, true);
    var u, v := ts[..Place(ts, t)], ts[Place(ts, t)..];
    assert ts == u + v;
    assert PositiveSizes(u) && PositiveSizes(v);
    ShortIsOrphaned(u, v);
    CostWithLateBuy(u, t, v);
  }

  lemma CostBeforeFill(ops: seq<Op>, t: Trade, markets: map<string, Market>, orders: map<string, Order>)
    requires Run(ops, markets, orders, true).Some? && AnyFill(Run(ops, markets, orders, true).value, t)
    ensures var d := Run(ops, markets, orders, true).value;
      PositionCost(d.positions, t.bot, t.token) == Cost(Replay(SelectTrades(d.trades, t.bot, t.token)).lots)
  {
    hide SelectTrades, Run, Held, Replay, FindOpen, WasRedeemed, OneOpen, Times;
    PositionAgreesWithReplay(ops, markets, orders, true, t.bot, t.token);
    SizePositive([]);
  }

  /** With flushing, a SELL that leaves a position OPEN leaves the cost of the replay in time order, however late. */
  lemma LateSellCost(d: Tables, t: Trade, markets: map<string, Market>)
    requires FreshFill(d, t) && BaseSide(t.side) == Sell
    requires FindOpen(AfterFill(d, t, markets, true).positions, t.bot, t.token).Some?
    ensures var d' := AfterFill(d, t, markets, true);
      PositionCost(d'.positions, t.bot, t.token) ==
      Cost(Replay(Sort(TradeLe, SelectTrades(d'.trades, t.bot, t.token))).lots)
  {
    hide AfterFill, FindOpen, OneOpen, SelectTrades, Sort, Replay, Cost;
    CostAfterFill(d, t, markets, true);
  }
}
