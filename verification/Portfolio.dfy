/** The per-bot book: fills and redemptions applied to the trades, positions, orders and events tables. */
module Portfolio {
  import opened Sums
  import opened Sorting
  import opened Decimals
  import opened Trades
  import opened Fifo

  datatype Status = Open | Closed | Redeemed

  datatype Position = Position(
    bot: string, condition: string, token: string, outcome: string,
    size: real, avgPrice: real, cost: real, status: Status)

  datatype Event =
    | SellWithoutPosition(bot: string, token: string, size: real, price: real)
    | Redemption(bot: string, position: nat, received: real, cost: real)
    | FillCursor(bot: string, key: string, since: int, fills: nat)

  datatype Market = Market(yesToken: string, noToken: string)

  datatype Order = Order(bot: string, condition: string, size: real, status: string, updated: int)

  datatype Tables = Tables(
    trades: seq<Trade>, positions: seq<Position>, events: seq<Event>, orders: map<string, Order>)

  const PRICE_SCALE: real := 100000000.0

  // ----- specification of one fill -----

  /*
   * A session works on `d`: the committed tables `stored`, its updates of their rows, and the rows it
   * has added. With flushing its queries see d. Without, they select among the committed rows only, by
   * their committed values; a selected row is then used with the values the session has given it.
   */

  predicate HasTrade(ts: seq<Trade>, id: string) {
    exists i :: 0 <= i < |ts| && ts[i].id == id
  }

  predicate IsOpen(p: Position, bot: string, token: string) {
    p.bot == bot && p.token == token && p.status == Open
  }

  /** Index of the first OPEN row of (bot, token). */
  function FindOpen(ps: seq<Position>, bot: string, token: string): (r: Option<nat>)
    ensures r.Some? ==> r.value < |ps| && IsOpen(ps[r.value], bot, token)
    ensures r.None? ==> forall i :: 0 <= i < |ps| ==> !IsOpen(ps[i], bot, token)
  {
    if ps == [] then None
    else
      match FindOpen(ps[..|ps| - 1], bot, token)
      case Some(i) => Some(i)
      case None => if IsOpen(ps[|ps| - 1], bot, token) then Some(|ps| - 1) else None
  }

  function SelectTrades(ts: seq<Trade>, bot: string, token: string): seq<Trade> {
    OfToken(OfBot(ts, bot), token)
  }

  /** Cost of the lots that a FIFO replay of the stored trades leaves open. */
  function FifoCost(ts: seq<Trade>, bot: string, token: string): real {
    Cost(Replay(Sort(TradeLe, SelectTrades(ts, bot, token))).lots)
  }

  function OutcomeOf(markets: map<string, Market>, condition: string, token: string): string {
    if condition in markets && markets[condition].noToken == token then "NO" else "YES"
  }

  predicate OpenPositive(ps: seq<Position>) {
    forall i :: 0 <= i < |ps| && ps[i].status == Open ==> ps[i].size > 0.0
  }

  /** ps is `seen` with rows updated and rows appended. */
  predicate Extends(seen: seq<Position>, ps: seq<Position>) {
    |seen| <= |ps| &&
    forall i :: 0 <= i < |seen| ==>
      ps[i].bot == seen[i].bot && ps[i].token == seen[i].token && (seen[i].status == Open ==> ps[i].size >= 0.0)
  }

  function Increased(p: Position, t: Trade): Position
    requires p.size >= 0.0 && t.size > 0.0
  {
    var size, cost := p.size + t.size, p.cost + Times(t.size, t.price);
    p.(size := size, avgPrice := Quantize(cost / size, PRICE_SCALE), cost := cost)
  }

  function Reduced(p: Position, t: Trade, fifoCost: real): Position {
    var size := p.size - Min(t.size, p.size);
    if size <= 0.0 then p.(size := size, cost := 0.0, status := Closed)
    else p.(size := size, avgPrice := Quantize(fifoCost / size, PRICE_SCALE), cost := fifoCost)
  }

  function Opened(markets: map<string, Market>, t: Trade): Position {
    Position(t.bot, t.condition, t.token, OutcomeOf(markets, t.condition, t.token),
             t.size, t.price, Times(t.size, t.price), Open)
  }

  /** The positions table after t, where the queries see the rows `seen` and the trades `visible`. */
  function PositionsAfter(
      seen: seq<Position>, ps: seq<Position>, visible: seq<Trade>, markets: map<string, Market>, t: Trade)
    : seq<Position>
    requires Extends(seen, ps) && t.size > 0.0
  {
    match (BaseSide(t.side), FindOpen(seen, t.bot, t.token))
    case (Buy, None) => ps + [Opened(markets, t)]
    case (Buy, Some(i)) => ps[i := Increased(ps[i], t)]
    case (Sell, Some(i)) =>
      if ps[i].size <= 0.0 then ps else ps[i := Reduced(ps[i], t, FifoCost(visible, t.bot, t.token))]
    case (Sell, None) => ps
    case (Other, _) => ps
  }

  predicate SellsNothing(seen: seq<Position>, ps: seq<Position>, t: Trade)
    requires Extends(seen, ps)
  {
    BaseSide(t.side) == Sell &&
    match FindOpen(seen, t.bot, t.token) case None => true case Some(i) => ps[i].size <= 0.0
  }

  function EventsAfter(es: seq<Event>, seen: seq<Position>, ps: seq<Position>, t: Trade): seq<Event>
    requires Extends(seen, ps)
  {
    if SellsNothing(seen, ps, t) then es + [SellWithoutPosition(t.bot, t.token, t.size, t.price)] else es
  }

  /** Only the size of the current fill decides between FILLED and PARTIAL. */
  function OrdersAfter(orders: map<string, Order>, t: Trade): (r: map<string, Order>)
    ensures r.Keys == orders.Keys
  {
    if t.order.Some? && t.order.value != "" && t.order.value in orders then
      var o := orders[t.order.value];
      orders[t.order.value :=
        o.(status := if o.size - t.size <= 0.0 then "FILLED" else "PARTIAL", updated := t.filledAt)]
    else orders
  }

  predicate InSession(stored: Tables, d: Tables) {
    OpenPositive(d.positions) && Extends(stored.positions, d.positions)
  }

  /** One fill in a session; `flush` says whether queries see what the session has changed. */
  function Booked(stored: Tables, d: Tables, t: Trade, markets: map<string, Market>, flush: bool): Tables
    requires InSession(stored, d) && t.size > 0.0
  {
    var seen := if flush then d else stored;
    if HasTrade(seen.trades, t.id) then d
    else
      var visible := if flush then d.trades + [t] else stored.trades;
      Tables(d.trades + [t], PositionsAfter(seen.positions, d.positions, visible, markets, t),
             EventsAfter(d.events, seen.positions, d.positions, t), OrdersAfter(d.orders, t))
  }

  /** A trade refers to no order, or by its foreign key to a stored one. */
  predicate OrderStored(orders: map<string, Order>, t: Trade) {
    t.order.Some? ==> t.order.value in orders
  }

  /** One fill that has a session of its own; one that names an order which is not stored fails. */
  function AfterFill(d: Tables, t: Trade, markets: map<string, Market>, flush: bool): Tables
    requires OpenPositive(d.positions) && t.size > 0.0
  {
    if HasTrade(d.trades, t.id) || OrderStored(d.orders, t) then Booked(d, d, t, markets, flush) else d
  }

  predicate DistinctIds(ts: seq<Trade>) {
    forall i, j :: 0 <= i < j < |ts| ==> ts[i].id != ts[j].id
  }

  predicate OrdersStored(orders: map<string, Order>, ts: seq<Trade>) {
    forall i :: 0 <= i < |ts| ==> OrderStored(orders, ts[i])
  }

  /** The trades that a session added to the table. */
  function Added(d: Tables, e: Tables): seq<Trade>
    requires |d.trades| <= |e.trades|
  {
    e.trades[|d.trades|..]
  }

  /** What the database's keys allow: no id twice, and no trade of an order that is not stored. */
  predicate Commits(stored: Tables, d: Tables)
    requires |stored.trades| <= |d.trades|
  {
    DistinctIds(d.trades) && OrdersStored(d.orders, Added(stored, d))
  }

  /** A session that violates a key fails as a whole. */
  function AfterCommit(stored: Tables, d: Tables): Tables
    requires |stored.trades| <= |d.trades|
  {
    if Commits(stored, d) then d else stored
  }

  function AfterRedeem(d: Tables, i: nat, received: real): Tables {
    if i < |d.positions| then
      var p := d.positions[i];
      d.(positions := d.positions[i := p.(status := Redeemed)],
         events := d.events + [Redemption(p.bot, i, received, p.cost)])
    else d
  }

  lemma BookedInSession(stored: Tables, d: Tables, t: Trade, markets: map<string, Market>, flush: bool)
    requires InSession(stored, d) && t.size > 0.0
    ensures InSession(stored, Booked(stored, d, t, markets, flush))
  {
    hide Quantize, Times, FifoCost;
  }

  lemma OpenStaysPositive(d: Tables, t: Trade, markets: map<string, Market>, flush: bool)
    requires OpenPositive(d.positions) && t.size > 0.0
    ensures OpenPositive(AfterFill(d, t, markets, flush).positions)
  {
    BookedInSession(d, d, t, markets, flush);
  }

  /** A session of one fill commits exactly if the fill adds nothing or names no missing order. */
  lemma OneFillCommits(d: Tables, t: Trade, markets: map<string, Market>, flush: bool)
    requires OpenPositive(d.positions) && t.size > 0.0 && DistinctIds(d.trades)
    ensures var e := Booked(d, d, t, markets, flush);
      |d.trades| <= |e.trades| && AfterCommit(d, e) == AfterFill(d, t, markets, flush)
  {
    hide PositionsAfter, EventsAfter;
    OneMoreId(d, t);
    var e := Booked(d, d, t, markets, flush);
    if HasTrade(d.trades, t.id) {
      assert Added(d, e) == [];
    } else {
      assert Added(d, e) == [t] && [t][0] == t;
      assert e.orders.Keys == d.orders.Keys;
      assert OrdersStored(e.orders, [t]) <==> OrderStored(d.orders, t);
    }
  }

  lemma OneMoreId(d: Tables, t: Trade)
    ensures DistinctIds(d.trades + [t]) <==> DistinctIds(d.trades) && !HasTrade(d.trades, t.id)
  {
    var ts := d.trades + [t];
    if DistinctIds(ts) {
      forall i | 0 <= i < |d.trades| ensures d.trades[i].id != t.id { assert ts[i].id != ts[|d.trades|].id; }
      forall i, j | 0 <= i < j < |d.trades| ensures d.trades[i].id != d.trades[j].id {
        assert ts[i].id != ts[j].id;
      }
    }
  }

  // ----- specification of the queries -----

  function Redemptions(es: seq<Event>, bot: string): real {
    if es == [] then 0.0
    else
      var e := es[|es| - 1];
      Redemptions(es[..|es| - 1], bot) +
      if e.Redemption? && e.bot == bot then e.received - e.cost else 0.0
  }

  function Since(ts: seq<Trade>, since: Option<int>): seq<Trade> {
    if since.None? then ts else Filter(ts, (t: Trade) => t.filledAt >= since.value)
  }

  /** `since` restricts the trades but not the redemption events. */
  ghost function RealisedPnl(d: Tables, bot: string, since: Option<int>): real {
    Realised(Sort(TradeLe, Since(OfBot(d.trades, bot), since))) + Redemptions(d.events, bot)
  }

  datatype Orphan = Orphan(id: string, token: string, condition: string, unmatched: real, price: real, filledAt: int)

  /** SELLs up to the cutoff whose size exceeds what a running balance says was held. */
  function OrphansOf(ts: seq<Trade>, cutoff: int): seq<Orphan> {
    if ts == [] then []
    else
      var t := ts[|ts| - 1];
      var before := OrphansOf(ts[..|ts| - 1], cutoff);
      var excess := Excess(OfToken(ts, t.token));
      if excess > 0.0 && t.filledAt <= cutoff
      then before + [Orphan(t.id, t.token, t.condition, excess, t.price, t.filledAt)]
      else before
  }

  function ReportedNotional(os: seq<Orphan>): real {
    if os == [] then 0.0
    else ReportedNotional(os[..|os| - 1]) + Times(os[|os| - 1].unmatched, os[|os| - 1].price)
  }

  /** With every trade old enough, the reported orphans carry exactly the notional that realised P&L leaves out. */
  lemma {:induction false} OrphansExplainGap(ts: seq<Trade>, cutoff: int)
    requires forall i :: 0 <= i < |ts| ==> ts[i].filledAt <= cutoff
    ensures ReportedNotional(OrphansOf(ts, cutoff)) == OrphanNotional(ts)
  {
    hide Times;
    if ts != [] {
      var us, t := ts[..|ts| - 1], ts[|ts| - 1];
      OrphansExplainGap(us, cutoff);
      TimesZero(t.price);
      var before, after := OrphansOf(us, cutoff), OrphansOf(ts, cutoff);
      if after != before { assert after[..|before|] == before; }
    }
  }

  // ----- the loops -----

  /** The matching loop; `gain` accumulates `(sell_price - lot_price) * match` over the matched lots. */
  method MatchLots(queue: seq<Lot>, size: real, sellPrice: real)
    returns (lots: seq<Lot>, remaining: real, gain: real)
    ensures var m := Match(queue, size);
      lots == m.lots && remaining == m.remaining && gain == Times(m.quantity, sellPrice) - m.cost
  {
    hide Times;
    lots, remaining, gain := queue, size, 0.0;
    TimesZero(sellPrice);
    ghost var quantity, cost := 0.0, 0.0;
    while remaining > 0.0 && lots != []
      invariant var m, r := Match(queue, size), Match(lots, remaining);
        m == Matching(r.lots, r.remaining, quantity + r.quantity, cost + r.cost)
      invariant gain == Times(quantity, sellPrice) - cost
      decreases |lots|, remaining > 0.0
    {
      var lot := lots[0];
      var q := Min(lot.size, remaining);
      TimesSpread(q, sellPrice, lot.price);
      TimesDistributes(quantity, q, sellPrice);
      gain := gain + Times(q, sellPrice - lot.price);
      quantity, cost := quantity + q, cost + Times(q, lot.price);
      remaining := remaining - q;
      lots := if lot.size - q <= 0.0 then lots[1..] else [lot.(size := lot.size - q)] + lots[1..];
    }
  }

  /** The replay inside a partial SELL: lots that the given rows leave open. */
  method OpenLots(rows: seq<Trade>) returns (lots: seq<Lot>)
    ensures lots == Replay(Sort(TradeLe, rows)).lots
  {
    var trades := Sort(TradeLe, rows);
    lots := [];
    for i := 0 to |trades|
      invariant lots == Replay(trades[..i]).lots
    {
      var t := trades[i];
      assert trades[..i + 1][..i] == trades[..i];
      match BaseSide(t.side) {
        case Buy => lots := lots + [Lot(t.size, t.price)];
        case Sell =>
          var remaining, gain;
          lots, remaining, gain := MatchLots(lots, t.size, 0.0);
        case Other =>
      }
    }
    assert trades[..|trades|] == trades;
  }

  method TotalCost(lots: seq<Lot>) returns (total: real)
    ensures total == Cost(lots)
  {
    total := 0.0;
    for i := 0 to |lots|
      invariant total == Cost(lots[..i])
    {
      assert lots[..i + 1][..i] == lots[..i];
      total := total + Times(lots[i].size, lots[i].price);
    }
    assert lots[..|lots|] == lots;
  }

  class Portfolio {
    var stored: Tables
    var trades: seq<Trade>
    var positions: seq<Position>
    var events: seq<Event>
    var orders: map<string, Order>
    const markets: map<string, Market>
    const autoflush: bool

    ghost predicate Valid()
      reads this
    {
      && InSession(stored, View()) && OpenPositive(stored.positions)
      && stored.trades <= trades && DistinctIds(stored.trades)
    }

    /** What the current session works on. */
    function View(): Tables
      reads this
    {
      Tables(trades, positions, events, orders)
    }

    /** No session has uncommitted work. */
    predicate Idle()
      reads this
    {
      View() == stored
    }

    constructor (markets: map<string, Market>, autoflush: bool, orders: map<string, Order>)
      ensures Valid() && Idle() && View() == Tables([], [], [], orders)
      ensures this.markets == markets && this.autoflush == autoflush
    {
      this.markets, this.autoflush, this.orders := markets, autoflush, orders;
      trades, positions, events := [], [], [];
      stored := Tables([], [], [], orders);
    }

    /** Sizes of fills are positive: the exchange reports no other. */
    method OnFill(t: Trade)
      requires Valid() && Idle() && t.size > 0.0
      modifies this
      ensures Valid() && Idle() && View() == AfterFill(old(View()), t, markets, autoflush)
    {
      hide Booked, AfterFill;
      OneFillCommits(stored, t, markets, autoflush);
      OpenStaysPositive(stored, t, markets, autoflush);
      DoOnFill(t);
      var ok := Commit();
    }

    /** One fill inside the current session. */
    method DoOnFill(t: Trade)
      requires Valid() && t.size > 0.0
      modifies this`trades, this`positions, this`events, this`orders
      ensures Valid() && View() == Booked(stored, old(View()), t, markets, autoflush)
    {
      BookedInSession(stored, View(), t, markets, autoflush);
      var known := if autoflush then trades else stored.trades;
      if exists i :: 0 <= i < |known| && known[i].id == t.id {
        return;
      }
      trades := trades + [t];
      if t.order.Some? && t.order.value != "" && t.order.value in orders {
        var o := orders[t.order.value];
        var left := o.size - t.size;
        orders := orders[t.order.value :=
          o.(status := if left <= 0.0 then "FILLED" else "PARTIAL", updated := t.filledAt)];
      }
      ApplyToPosition(t);
    }

    method ApplyToPosition(t: Trade)
      requires t.size > 0.0 && OpenPositive(positions) && Extends(stored.positions, positions)
      modifies this`positions, this`events
      ensures var seen := if autoflush then old(positions) else stored.positions;
        && positions == PositionsAfter(seen, old(positions), if autoflush then trades else stored.trades, markets, t)
        && events == EventsAfter(old(events), seen, old(positions), t)
    {
      hide Times, Quantize, BaseSide, Sort, Cost, Replay, OutcomeOf, SelectTrades;
      var found := FindOpen(if autoflush then positions else stored.positions, t.bot, t.token);
      match BaseSide(t.side) {
        case Buy =>
          if found.None? {
            positions := positions + [Opened(markets, t)];
          } else {
            var p := positions[found.value];
            var newSize, newCost := p.size + t.size, p.cost + Times(t.size, t.price);
            positions := positions[found.value :=
              p.(size := newSize, avgPrice := Quantize(newCost / newSize, PRICE_SCALE), cost := newCost)];
          }
        case Sell =>
          if found.None? || positions[found.value].size <= 0.0 {
            events := events + [SellWithoutPosition(t.bot, t.token, t.size, t.price)];
            return;
          }
          var p := positions[found.value];
          var size := p.size - Min(t.size, p.size);
          if size <= 0.0 {
            positions := positions[found.value := p.(size := size, cost := 0.0, status := Closed)];
          } else {
            var rows := if autoflush then trades else stored.trades;
            var lots := OpenLots(SelectTrades(rows, t.bot, t.token));
            var fifoCost := TotalCost(lots);
            positions := positions[found.value :=
              p.(size := size, avgPrice := Quantize(fifoCost / size, PRICE_SCALE), cost := fifoCost)];
          }
        case Other =>
      }
    }

    /** Ends the session; a violated key makes it fail, and all it did is undone. */
    method Commit() returns (ok: bool)
      requires Valid()
      modifies this
      ensures Valid() && Idle() && View() == AfterCommit(old(stored), old(View()))
      ensures ok == Commits(old(stored), old(View()))
    {
      ok := Commits(stored, View());
      if ok {
        stored := View();
      } else {
        trades, positions, events, orders := stored.trades, stored.positions, stored.events, stored.orders;
      }
    }

    method OnRedeem(i: nat, received: real)
      requires Valid() && Idle()
      modifies this
      ensures Valid() && Idle() && View() == AfterRedeem(old(View()), i, received)
    {
      if i >= |positions| {
        return;
      }
      var p := positions[i];
      positions := positions[i := p.(status := Redeemed)];
      events := events + [Redemption(p.bot, i, received, p.cost)];
      stored := View();
    }

    /** FIFO realised P&L of one bot, less the fees of every token, plus its redemptions. */
    method GetRealisedPnl(bot: string, since: Option<int>) returns (realised: real)
      ensures realised == RealisedPnl(stored, bot, since)
    {
      var rows := Sort(TradeLe, Since(OfBot(stored.trades, bot), since));
      var fees;
      realised, fees := GrossAndFees(rows);
      realised := SubtractAll(realised, fees);
      SumSame(fees, Same, ReplayAll(rows), FeesOf);
      for i := 0 to |stored.events|
        invariant realised == Realised(rows) + Redemptions(stored.events[..i], bot)
      {
        assert stored.events[..i + 1][..i] == stored.events[..i];
        var e := stored.events[i];
        if e.Redemption? && e.bot == bot {
          realised := realised + (e.received - e.cost);
        }
      }
      assert stored.events[..|stored.events|] == stored.events;
    }

    /** FIFO replay that keeps the SELL remainders which match nothing. */
    method DetectOrphanSells(bot: string, cutoff: int) returns (orphans: seq<Orphan>)
      requires PositiveSizes(stored.trades)
      ensures orphans == OrphansOf(Sort(TradeLe, OfBot(stored.trades, bot)), cutoff)
    {
      hide MirrorsLots, Match, OrphansOf, ReplayAll, Sort, Filter, PositiveSizes, Step;
      var rows := Sort(TradeLe, OfBot(stored.trades, bot));
      SelectedPositive(stored.trades, bot);
      var openLots: map<string, seq<Lot>> := map[];
      orphans := [];
      NothingMirrored();
      NothingReplayed(rows, cutoff);
      for i := 0 to |rows|
        invariant MirrorsLots(openLots, ReplayAll(rows[..i]))
        invariant orphans == OrphansOf(rows[..i], cutoff)
      {
        var t := rows[i];
        assert rows[..i + 1][..i] == rows[..i];
        OrphansStep(rows, i, cutoff);
        ghost var a := Get(ReplayAll(rows[..i]), t.token);
        MirrorStep(openLots, ReplayAll(rows[..i]), t.token, Step(a, t));
        MirrorAt(openLots, ReplayAll(rows[..i]), t.token);
        match BaseSide(t.side) {
          case Buy =>
            openLots := openLots[t.token := LotsAt(openLots, t.token) + [Lot(t.size, t.price)]];
          case Sell =>
            var lots, remaining, gain := MatchLots(LotsAt(openLots, t.token), t.size, t.price);
            openLots := openLots[t.token := lots];
            if remaining > 0.0 && t.filledAt <= cutoff {
              orphans := orphans + [Orphan(t.id, t.token, t.condition, remaining, t.price, t.filledAt)];
            }
          case Other =>
        }
      }
      assert rows[..|rows|] == rows;
    }
  }

  // ----- support for the query loops -----

  function LotsAt(openLots: map<string, seq<Lot>>, token: string): seq<Lot> {
    if token in openLots then openLots[token] else []
  }

  ghost predicate MirrorsLots(openLots: map<string, seq<Lot>>, m: Accounts) {
    forall k :: SameLots(openLots, m, k)
  }

  ghost predicate SameLots(openLots: map<string, seq<Lot>>, m: Accounts, k: string) {
    LotsAt(openLots, k) == Get(m, k).lots
  }

  ghost predicate MirrorsFees(fees: map<string, real>, m: Accounts) {
    fees.Keys == m.Keys && forall k :: k in m ==> fees[k] == m[k].fees
  }

  lemma MirrorStep(openLots: map<string, seq<Lot>>, m: Accounts, token: string, a: Account)
    requires MirrorsLots(openLots, m)
    ensures MirrorsLots(openLots[token := a.lots], m[token := a])
    ensures a.lots == Get(m, token).lots ==> MirrorsLots(openLots, m[token := a])
  {
    var o', m' := openLots[token := a.lots], m[token := a];
    forall k ensures SameLots(o', m', k) {
      assert SameLots(openLots, m, k);
    }
    if a.lots == Get(m, token).lots {
      forall k ensures SameLots(openLots, m', k) {
        assert SameLots(openLots, m, k);
      }
    }
  }

  lemma NothingReplayedYet(rows: seq<Trade>)
    ensures ReplayAll(rows[..0]) == map[] && MirrorsFees(map[], map[]) && Sum(ReplayAll(rows[..0]), GrossOf) == 0.0
  {
  }

  lemma RowReplayed(rows: seq<Trade>, i: nat)
    requires i < |rows|
    ensures var m, t := ReplayAll(rows[..i]), rows[i];
      ReplayAll(rows[..i + 1]) == m[t.token := Step(Get(m, t.token), t)]
  {
    hide Step;
    assert rows[..i + 1][..i] == rows[..i];
  }

  /** What one trade does to the lots, the gains and the fees of its token. */
  lemma StepParts(a: Account, t: Trade)
    ensures var b, m := Step(a, t), Match(a.lots, t.size);
      && b.fees == a.fees + t.fee
      && b.gross == a.gross + (if BaseSide(t.side) == Sell then Times(m.quantity, t.price) - m.cost else 0.0)
      && b.lots == match BaseSide(t.side)
                   case Buy => a.lots + [Lot(t.size, t.price)]
                   case Sell => m.lots
                   case Other => a.lots
  {
    hide Times, Match;
  }

  lemma MirrorFee(fees: map<string, real>, m: Accounts, token: string, b: Account, fee: real)
    requires MirrorsFees(fees, m) && b.fees == Get(m, token).fees + fee
    ensures MirrorsFees(fees[token := (if token in fees then fees[token] else 0.0) + fee], m[token := b])
  {
  }

  /** The main replay loop: gains over all tokens, and the fees of each token. */
  method GrossAndFees(rows: seq<Trade>) returns (gross: real, fees: map<string, real>)
    ensures gross == Sum(ReplayAll(rows), GrossOf) && MirrorsFees(fees, ReplayAll(rows))
  {
    hide Times, Match, MirrorsLots, ReplayAll, Step, MirrorsFees;
    fees := map[];
    var openLots: map<string, seq<Lot>> := map[];
    gross := 0.0;
    NothingMirrored();
    NothingReplayedYet(rows);
    for i := 0 to |rows|
      invariant MirrorsFees(fees, ReplayAll(rows[..i])) && MirrorsLots(openLots, ReplayAll(rows[..i]))
      invariant gross == Sum(ReplayAll(rows[..i]), GrossOf)
    {
      var t := rows[i];
      ghost var m := ReplayAll(rows[..i]);
      ghost var a := Get(m, t.token);
      RowReplayed(rows, i);
      StepParts(a, t);
      SumUpdate(m, t.token, Step(a, t), GrossOf);
      MirrorStep(openLots, m, t.token, Step(a, t));
      MirrorAt(openLots, m, t.token);
      MirrorFee(fees, m, t.token, Step(a, t), t.fee);
      fees := fees[t.token := (if t.token in fees then fees[t.token] else 0.0) + t.fee];
      match BaseSide(t.side) {
        case Buy =>
          openLots := openLots[t.token := LotsAt(openLots, t.token) + [Lot(t.size, t.price)]];
        case Sell =>
          var lots, remaining, gain := MatchLots(LotsAt(openLots, t.token), t.size, t.price);
          gross := gross + gain;
          openLots := openLots[t.token := lots];
        case Other =>
      }
    }
    assert rows[..|rows|] == rows;
  }

  lemma NothingMirrored()
    ensures MirrorsLots(map[], map[])
  {
  }

  lemma MirrorAt(openLots: map<string, seq<Lot>>, m: Accounts, token: string)
    requires MirrorsLots(openLots, m)
    ensures LotsAt(openLots, token) == Get(m, token).lots
  {
    assert SameLots(openLots, m, token);
  }

  method SubtractAll(start: real, fees: map<string, real>) returns (r: real)
    ensures r == start - Sum(fees, Same)
  {
    r := start;
    var rest := fees;
    while rest != map[]
      invariant r - Sum(rest, Same) == start - Sum(fees, Same)
      decreases |rest|
    {
      var k :| k in rest;
      SumRemove(rest, k, Same);
      r := r - rest[k];
      rest := rest - {k};
    }
  }

  lemma SelectedPositive(ts: seq<Trade>, bot: string)
    requires PositiveSizes(ts)
    ensures PositiveSizes(Sort(TradeLe, OfBot(ts, bot)))
  {
    var f := OfBot(ts, bot);
    FilterPositive(ts, (t: Trade) => t.bot == bot);
    var s := Sort(TradeLe, f);
    SortElements(TradeLe, f);
    forall i | 0 <= i < |s| ensures s[i].size > 0.0 {
      InMultiset(f, s, s[i]);
      assert s[i] in f;
    }
  }

  lemma NothingReplayed(rows: seq<Trade>, cutoff: int)
    ensures ReplayAll(rows[..0]) == map[] && OrphansOf(rows[..0], cutoff) == []
  {
  }

  /** What one more row does to the accounts and to the list of orphans. */
  lemma OrphansStep(rows: seq<Trade>, i: nat, cutoff: int)
    requires PositiveSizes(rows) && i < |rows|
    ensures var t := rows[i];
      var a := Get(ReplayAll(rows[..i]), t.token);
      var r := Match(a.lots, t.size).remaining;
      && ReplayAll(rows[..i + 1]) == ReplayAll(rows[..i])[t.token := Step(a, t)]
      && OrphansOf(rows[..i + 1], cutoff) ==
         OrphansOf(rows[..i], cutoff) +
         (if BaseSide(t.side) == Sell && r > 0.0 && t.filledAt <= cutoff
          then [Orphan(t.id, t.token, t.condition, r, t.price, t.filledAt)] else [])
      && Step(a, t).lots ==
         match BaseSide(t.side)
         case Buy => a.lots + [Lot(t.size, t.price)]
         case Sell => Match(a.lots, t.size).lots
         case Other => a.lots
  {
    hide Excess, Match;
    assert rows[..i + 1][..i] == rows[..i];
    PrefixRemainder(rows, i);
  }

  lemma PrefixRemainder(rows: seq<Trade>, i: nat)
    requires PositiveSizes(rows) && i < |rows|
    ensures Excess(OfToken(rows[..i + 1], rows[i].token)) ==
            if BaseSide(rows[i].side) == Sell
            then Max(0.0, Match(Get(ReplayAll(rows[..i]), rows[i].token).lots, rows[i].size).remaining) else 0.0
  {
    var ts, t := rows[..i + 1], rows[i];
    assert ts[..i] == rows[..i];
    OfTokenLast(ts);
    ReplayAllAt(rows[..i], t.token);
    FilterPositive(rows[..i], (u: Trade) => u.token == t.token);
    if BaseSide(t.side) == Sell { RemainderIsExcess(OfToken(rows[..i], t.token), t); }
  }
}
