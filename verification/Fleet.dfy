/** The fleet-wide exposure cap: snapshot, pre-trade check, and bots that race between check and order. */
module Fleet {
  import opened Sums
  import opened Trades

  datatype PositionRow = PositionRow(bot: string, cost: real, status: string)

  datatype OrderRow = OrderRow(bot: string, price: Option<real>, size: Option<real>, status: string)

  /** Statuses of orders that still reserve bankroll. */
  predicate Reserves(status: string) {
    status in {"OPEN", "PARTIAL", "PAPER_OPEN", "live", "MATCHED"}
  }

  /** None stands for the combined mode, which filters nothing. */
  predicate Allowed(allowed: Option<set<string>>, bot: string) {
    allowed.None? || bot in allowed.value
  }

  function PositionUsd(p: PositionRow, allowed: Option<set<string>>): real {
    if p.status == "OPEN" && Allowed(allowed, p.bot) then p.cost else 0.0
  }

  function OrderUsd(o: OrderRow, allowed: Option<set<string>>): real {
    if Reserves(o.status) && Allowed(allowed, o.bot) && o.price.Some? && o.size.Some?
    then Times(o.size.value, o.price.value) else 0.0
  }

  function PositionsUsd(ps: seq<PositionRow>, allowed: Option<set<string>>): real {
    if ps == [] then 0.0 else PositionsUsd(ps[..|ps| - 1], allowed) + PositionUsd(ps[|ps| - 1], allowed)
  }

  function OrdersUsd(os: seq<OrderRow>, allowed: Option<set<string>>): real {
    if os == [] then 0.0 else OrdersUsd(os[..|os| - 1], allowed) + OrderUsd(os[|os| - 1], allowed)
  }

  /** What one more order row adds, by its status: its size times its price if it rests, else nothing. */
  lemma OrderAdds(os: seq<OrderRow>, o: OrderRow, allowed: Option<set<string>>)
    ensures OrdersUsd(os + [o], allowed) == OrdersUsd(os, allowed) +
      if (|| o.status == "OPEN" || o.status == "PARTIAL" || o.status == "PAPER_OPEN"
          || o.status == "live" || o.status == "MATCHED")
         && (allowed == None || o.bot in allowed.value) && o.price != None && o.size != None
      then o.size.value * o.price.value else 0.0
  {
    assert (os + [o])[..|os|] == os;
  }

  /** What one more position row adds. */
  lemma PositionAdds(ps: seq<PositionRow>, p: PositionRow, allowed: Option<set<string>>)
    ensures PositionsUsd(ps + [p], allowed) ==
            PositionsUsd(ps, allowed) +
            if p.status == "OPEN" && (allowed == None || p.bot in allowed.value) then p.cost else 0.0
  {
    assert (ps + [p])[..|ps|] == ps;
  }

  datatype Snapshot = Snapshot(positions: real, orders: real, total: real, cap: real)

  /** The two accumulation loops over the tables. */
  method SnapshotFleetExposure(ps: seq<PositionRow>, os: seq<OrderRow>, allowed: Option<set<string>>, cap: real)
    returns (s: Snapshot)
    ensures s.positions == PositionsUsd(ps, allowed) && s.orders == OrdersUsd(os, allowed)
    ensures s.total == s.positions + s.orders && s.cap == cap
  {
    hide Times;
    var positions, orders := 0.0, 0.0;
    for i := 0 to |ps|
      invariant positions == PositionsUsd(ps[..i], allowed)
    {
      assert ps[..i + 1][..i] == ps[..i];
      if ps[i].status != "OPEN" || !Allowed(allowed, ps[i].bot) {
        continue;
      }
      positions := positions + ps[i].cost;
    }
    assert ps[..|ps|] == ps;
    for i := 0 to |os|
      invariant orders == OrdersUsd(os[..i], allowed)
    {
      assert os[..i + 1][..i] == os[..i];
      if !Reserves(os[i].status) || !Allowed(allowed, os[i].bot) || os[i].price.None? || os[i].size.None? {
        continue;
      }
      orders := orders + Times(os[i].size.value, os[i].price.value);
    }
    assert os[..|os|] == os;
    s := Snapshot(positions, orders, positions + orders, cap);
  }

  datatype Check = Check(ok: bool, reason: string, current: real, intended: real, projected: real, cap: real)

  /** `snap` is None if the tables could not be read. Paper callers fail open, live callers fail closed. */
  function CheckFleetExposure(paper: bool, snap: Option<Snapshot>, intended: real): (r: Check)
    ensures !paper ==> (r.ok <==> snap.Some? && snap.value.cap > 0.0 && snap.value.total + intended <= snap.value.cap)
    ensures paper ==> (!r.ok <==> snap.Some? && snap.value.cap > 0.0 && snap.value.total + intended > snap.value.cap)
    ensures r.reason == "fleet_snapshot_failed" <==> snap.None?
    ensures r.reason == "fleet_cap_nonpositive" <==> snap.Some? && snap.value.cap <= 0.0
    ensures r.reason == "fleet_cap_breach" <==> snap.Some? && 0.0 < snap.value.cap < snap.value.total + intended
    ensures r.intended == intended && r.projected == r.current + intended
    ensures snap.Some? ==> r.current == snap.value.total && r.cap == snap.value.cap
  {
    match snap
    case None => Check(paper, "fleet_snapshot_failed", 0.0, intended, intended, 0.0)
    case Some(s) =>
      var projected := s.total + intended;
      if s.cap <= 0.0 then Check(paper, "fleet_cap_nonpositive", s.total, intended, projected, s.cap)
      else if projected > s.cap then Check(false, "fleet_cap_breach", s.total, intended, projected, s.cap)
      else Check(true, "fleet_ok", s.total, intended, projected, s.cap)
  }

  // ----- the admission protocol -----

  /** The live bots, the cap, and the largest notional a live bot asks for. */
  datatype Config = Config(live: set<string>, cap: real, maxNotional: real) {
    ghost predicate Valid() {
      live != {} && cap > 0.0 && maxNotional >= 0.0
    }

    /** The largest request that can be cleared. */
    function Largest(): real {
      Min(maxNotional, cap)
    }
  }

  /** A check between its two queries: what was asked for, the positions read, and what fills have cost since. */
  datatype Reading = Reading(notional: real, positions: real, missed: real)

  /** The tables, the checks under way, and the notional each live bot was cleared for but has not placed yet. */
  datatype State = State(
    positions: seq<PositionRow>, orders: seq<OrderRow>, reading: map<string, Reading>, pending: map<string, real>)

  datatype Step =
    | ReadPositions(bot: string, notional: real)
    | ReadOrders(bot: string)
    | Place(bot: string, price: real, size: real, status: string)
    | Abandon(bot: string)
    | FillInto(order: nat, into: Option<nat>, cost: real)
    | CancelOrder(order: nat)
    | Shrink(position: nat, cost: real)
    | Foreign(row: OrderRow)

  function Exposure(s: State, c: Config): real {
    PositionsUsd(s.positions, Some(c.live)) + OrdersUsd(s.orders, Some(c.live))
  }

  /** What a check that read its positions earlier makes of the orders it reads now. */
  function SnapshotOf(s: State, r: Reading, c: Config): Snapshot {
    var o := OrdersUsd(s.orders, Some(c.live));
    Snapshot(r.positions, o, r.positions + o, c.cap)
  }

  predicate Clears(s: State, r: Reading, c: Config) {
    CheckFleetExposure(false, Some(SnapshotOf(s, r, c)), r.notional).ok
  }

  /** Statuses with which an order may rest at the exchange, and fill. */
  predicate Resting(status: string) {
    status == "OPEN" || status == "PARTIAL" || status == "PAPER_OPEN" || status == "live" || status == "MATCHED"
  }

  /**
   * A live bot asks only when it has no check under way and no cleared order outstanding, and places an
   * order of exactly the notional it was cleared for or gives up; the order is stored with whatever status
   * its placement returned, and while it rests it may fill fully at its limit or below; positions only
   * shrink otherwise; bots outside the live group do what they like with rows of their own.
   */
  predicate Enabled(s: State, e: Step, c: Config) {
    match e
    case ReadPositions(bot, notional) =>
      bot in c.live && bot !in s.pending && bot !in s.reading && 0.0 <= notional <= c.maxNotional
    case ReadOrders(bot) => bot in s.reading
    case Place(bot, price, size, status) =>
      bot in s.pending && Times(size, price) == s.pending[bot] && Resting(status)
    case Abandon(bot) => bot in s.pending || bot in s.reading
    case FillInto(i, into, cost) =>
      && i < |s.orders| && Resting(s.orders[i].status) && s.orders[i].price.Some? && s.orders[i].size.Some?
      && s.orders[i].bot in c.live
      && 0.0 <= cost <= Times(s.orders[i].size.value, s.orders[i].price.value)
      && (into.Some? ==> into.value < |s.positions| && s.positions[into.value].bot == s.orders[i].bot
                         && s.positions[into.value].status == "OPEN")
    case CancelOrder(i) => i < |s.orders|
    case Shrink(i, cost) => i < |s.positions| && 0.0 <= cost <= s.positions[i].cost
    case Foreign(row) => row.bot !in c.live
  }

  function Missing(reading: map<string, Reading>, cost: real): (r: map<string, Reading>)
    ensures r.Keys == reading.Keys
  {
    map b | b in reading :: reading[b].(missed := reading[b].missed + cost)
  }

  function Next(s: State, e: Step, c: Config): State
    requires Enabled(s, e, c)
  {
    match e
    case ReadPositions(bot, notional) =>
      s.(reading := s.reading[bot := Reading(notional, PositionsUsd(s.positions, Some(c.live)), 0.0)])
    case ReadOrders(bot) =>
      var t := s.(reading := s.reading - {bot});
      if Clears(s, s.reading[bot], c) then t.(pending := s.pending[bot := s.reading[bot].notional]) else t
    case Place(bot, price, size, status) =>
      s.(orders := s.orders + [OrderRow(bot, Some(price), Some(size), status)], pending := s.pending - {bot})
    case Abandon(bot) => s.(pending := s.pending - {bot}, reading := s.reading - {bot})
    case FillInto(i, into, cost) =>
      var t := s.(orders := s.orders[i := s.orders[i].(status := "FILLED")], reading := Missing(s.reading, cost));
      if into.Some? then
        var p := s.positions[into.value];
        t.(positions := s.positions[into.value := p.(cost := p.cost + cost)])
      else t.(positions := s.positions + [PositionRow(s.orders[i].bot, cost, "OPEN")])
    case CancelOrder(i) => s.(orders := s.orders[i := s.orders[i].(status := "CANCELLED")])
    case Shrink(i, cost) => s.(positions := s.positions[i := s.positions[i].(cost := cost)])
    case Foreign(row) => s.(orders := s.orders + [row])
  }

  function Run(steps: seq<Step>, c: Config): Option<State> {
    if steps == [] then Some(State([], [], map[], map[]))
    else
      match Run(steps[..|steps| - 1], c)
      case None => None
      case Some(s) => if Enabled(s, steps[|steps| - 1], c) then Some(Next(s, steps[|steps| - 1], c)) else None
  }

  /** Exposure in the tables plus everything cleared but not placed. */
  ghost function Committed(s: State, c: Config): real {
    Exposure(s, c) + Sum(s.pending, Same)
  }

  lemma {:induction false} PositionsUpdate(ps: seq<PositionRow>, i: nat, q: PositionRow, allowed: Option<set<string>>)
    requires i < |ps|
    ensures PositionsUsd(ps[i := q], allowed) ==
            PositionsUsd(ps, allowed) - PositionUsd(ps[i], allowed) + PositionUsd(q, allowed)
  {
    var n := |ps| - 1;
    if i < n {
      assert ps[i := q][..n] == ps[..n][i := q];
      PositionsUpdate(ps[..n], i, q, allowed);
    } else {
      assert ps[i := q][..n] == ps[..n];
    }
  }

  lemma {:induction false} OrdersUpdate(os: seq<OrderRow>, i: nat, q: OrderRow, allowed: Option<set<string>>)
    requires i < |os|
    ensures OrdersUsd(os[i := q], allowed) == OrdersUsd(os, allowed) - OrderUsd(os[i], allowed) + OrderUsd(q, allowed)
  {
    var n := |os| - 1;
    if i < n {
      assert os[i := q][..n] == os[..n][i := q];
      OrdersUpdate(os[..n], i, q, allowed);
    } else {
      assert os[i := q][..n] == os[..n];
    }
  }

  lemma {:induction false} SumAtMost(m: map<string, real>, bound: real)
    requires bound >= 0.0 && forall k :: k in m ==> m[k] <= bound
    ensures Sum(m, Same) <= Times(|m| as real, bound)
    decreases |m|
  {
    hide Times;
    if m == map[] {
      TimesZero(bound);
    } else {
      var k :| k in m;
      SumRemove(m, k, Same);
      SumAtMost(m - {k}, bound);
      assert (m - {k}).Keys == m.Keys - {k} && |m - {k}| == |m| - 1;
      OneLess(|m|, bound);
    }
  }

  lemma OneLess(n: nat, bound: real)
    requires n >= 1
    ensures Times(n as real, bound) == Times((n - 1) as real, bound) + bound
  {
    TimesDistributes((n - 1) as real, 1.0, bound);
  }

  lemma SubsetSmaller(a: set<string>, b: set<string>)
    requires a <= b
    ensures |a| <= |b|
  {
    if a != b {
      var rest := b - a;
      assert b == a + rest && a !! rest;
    }
  }

  ghost predicate StateValid(s: State, c: Config) {
    && s.pending.Keys <= c.live && s.reading.Keys <= c.live && s.pending.Keys !! s.reading.Keys
    && (forall k :: k in s.pending ==> 0.0 <= s.pending[k] <= c.Largest())
    && (forall i :: 0 <= i < |s.positions| ==> PositionUsd(s.positions[i], Some(c.live)) >= 0.0)
    && (forall i :: 0 <= i < |s.orders| ==> OrderUsd(s.orders[i], Some(c.live)) >= 0.0)
    && (forall k :: k in s.reading ==> ReadingValid(s, s.reading[k], c))
  }

  /** The positions there are now are those a check has read, less what shrank, and at most what it missed. */
  ghost predicate ReadingValid(s: State, r: Reading, c: Config) {
    && 0.0 <= r.notional <= c.maxNotional && r.positions >= 0.0 && r.missed >= 0.0
    && PositionsUsd(s.positions, Some(c.live)) <= r.positions + r.missed
  }

  lemma {:induction false} PositionsNotNegative(ps: seq<PositionRow>, allowed: Option<set<string>>)
    requires forall i :: 0 <= i < |ps| ==> PositionUsd(ps[i], allowed) >= 0.0
    ensures PositionsUsd(ps, allowed) >= 0.0
  {
    if ps != [] { PositionsNotNegative(ps[..|ps| - 1], allowed); }
  }

  lemma {:induction false} OrdersNotNegative(os: seq<OrderRow>, allowed: Option<set<string>>)
    requires forall i :: 0 <= i < |os| ==> OrderUsd(os[i], allowed) >= 0.0
    ensures OrdersUsd(os, allowed) >= 0.0
  {
    hide Times;
    if os != [] { OrdersNotNegative(os[..|os| - 1], allowed); }
  }

  ghost function Overshoot(c: Config): real {
    Times((|c.live| - 1) as real, c.Largest())
  }

  /** A cleared request: the others' outstanding requests, and what its check missed, are the only overshoot. */
  lemma ClearingBound(s: State, bot: string, c: Config)
    requires c.Valid() && StateValid(s, c) && bot in s.reading && Clears(s, s.reading[bot], c)
    ensures var r := s.reading[bot];
      && r.notional <= c.Largest()
      && Exposure(s, c) + Sum(s.pending[bot := r.notional], Same) <= c.cap + Overshoot(c) + r.missed
  {
    hide Times, PositionUsd, OrderUsd, Sum, PositionsUsd, OrdersUsd;
    hide Clears, ReadingValid;
    var r, others := s.reading[bot], s.pending;
    assert ReadingValid(s, r, c);
    ClearedIsSmall(s, r, c);
    ReadingSize(s, r, c);
    OthersAtMost(others, c.live, bot, c.Largest());
    SumUpdate(others, bot, r.notional, Same);
  }

  lemma ReadingSize(s: State, r: Reading, c: Config)
    requires ReadingValid(s, r, c)
    ensures 0.0 <= r.notional <= c.maxNotional
  {
  }

  /** What the other bots have outstanding. */
  lemma OthersAtMost(others: map<string, real>, live: set<string>, bot: string, bound: real)
    requires bound >= 0.0 && others.Keys <= live && bot in live && bot !in others
    requires forall k :: k in others ==> others[k] <= bound
    ensures Sum(others, Same) <= Times((|live| - 1) as real, bound)
  {
    hide Times, Sum;
    SubsetSmaller(others.Keys, live - {bot});
    assert |others| == |others.Keys| <= |live| - 1;
    SumAtMost(others, bound);
    MoreBots(|others|, |live| - 1, bound);
  }

  /** Orders are never negative, so what is cleared fits under the cap on its own. */
  lemma ClearedIsSmall(s: State, r: Reading, c: Config)
    requires StateValid(s, c) && ReadingValid(s, r, c) && Clears(s, r, c)
    ensures r.notional <= c.cap && Exposure(s, c) + r.notional <= c.cap + r.missed
  {
    hide PositionUsd, OrderUsd;
    OrdersNotNegative(s.orders, Some(c.live));
  }

  lemma MoreBots(a: int, b: int, bound: real)
    requires 0 <= a <= b && bound >= 0.0
    ensures Times(a as real, bound) <= Times(b as real, bound)
  {
  }

  ghost predicate ClearsNow(s: State, bot: string, c: Config) {
    bot in s.reading && Clears(s, s.reading[bot], c)
  }

  /** Every step that clears nothing leaves the committed total where it is or lowers it. */
  lemma OtherStepsDoNotRaise(s: State, e: Step, c: Config)
    requires c.Valid() && StateValid(s, c) && Enabled(s, e, c)
    requires e.ReadOrders? ==> !ClearsNow(s, e.bot, c)
    ensures Committed(Next(s, e, c), c) <= Committed(s, c)
  {
    hide Times, Clears, ReadingValid, OrdersUsd, PositionsUsd, StateValid;
    var t := Next(s, e, c);
    RowsAreValid(s, c);
    match e {
      case Place(bot, price, size, status) =>
        OrdersAppend(s.orders, t.orders[|s.orders|], Some(c.live));
        SumRemove(s.pending, bot, Same);
      case Abandon(bot) =>
        if bot in s.pending { SumRemove(s.pending, bot, Same); } else { assert s.pending - {bot} == s.pending; }
      case FillInto(i, into, cost) => FillMovesExposure(s, i, into, cost, c);
      case CancelOrder(i) => OrdersUpdate(s.orders, i, t.orders[i], Some(c.live));
      case Shrink(i, cost) => PositionsUpdate(s.positions, i, t.positions[i], Some(c.live));
      case Foreign(row) => OrdersAppend(s.orders, row, Some(c.live));
      case _ =>
    }
  }

  lemma RowsAreValid(s: State, c: Config)
    requires StateValid(s, c)
    ensures s.pending.Keys <= c.live && forall k :: k in s.pending ==> s.pending[k] >= 0.0
    ensures forall i :: 0 <= i < |s.orders| ==> OrderUsd(s.orders[i], Some(c.live)) >= 0.0
  {
  }

  lemma OrdersAppend(os: seq<OrderRow>, o: OrderRow, allowed: Option<set<string>>)
    ensures OrdersUsd(os + [o], allowed) == OrdersUsd(os, allowed) + OrderUsd(o, allowed)
  {
    hide Times;
    assert (os + [o])[..|os|] == os;
  }

  /** A fill moves what it cost from orders to positions, and frees the rest of its order. */
  lemma FillMovesExposure(s: State, i: nat, into: Option<nat>, cost: real, c: Config)
    requires Enabled(s, FillInto(i, into, cost), c)
    ensures var t := Next(s, FillInto(i, into, cost), c);
      && PositionsUsd(t.positions, Some(c.live)) == PositionsUsd(s.positions, Some(c.live)) + cost
      && OrdersUsd(t.orders, Some(c.live)) == OrdersUsd(s.orders, Some(c.live)) - OrderUsd(s.orders[i], Some(c.live))
      && OrderUsd(s.orders[i], Some(c.live)) >= cost
  {
    hide Times;
    var t := Next(s, FillInto(i, into, cost), c);
    OrdersUpdate(s.orders, i, t.orders[i], Some(c.live));
    if into.Some? {
      PositionsUpdate(s.positions, into.value, t.positions[into.value], Some(c.live));
    } else {
      assert t.positions[..|s.positions|] == s.positions;
    }
  }

  /** How positions change, as a check under way sees it. */
  lemma ReadingStaysValid(s: State, e: Step, k: string, c: Config)
    requires c.Valid() && StateValid(s, c) && Enabled(s, e, c) && k in Next(s, e, c).reading
    ensures ReadingValid(Next(s, e, c), Next(s, e, c).reading[k], c)
  {
    hide Times, OrderUsd, PositionUsd, Clears;
    var t := Next(s, e, c);
    match e {
      case ReadPositions(bot, notional) =>
        if k == bot { PositionsNotNegative(s.positions, Some(c.live)); }
      case FillInto(i, into, cost) => FillMovesExposure(s, i, into, cost, c);
      case Shrink(i, cost) =>
        PositionsUpdate(s.positions, i, t.positions[i], Some(c.live));
        ShrinkLowers(s.positions[i], cost, Some(c.live));
      case _ =>
    }
    assert ReadingValid(s, if k in s.reading then s.reading[k] else t.reading[k], c);
  }

  lemma ShrinkLowers(p: PositionRow, cost: real, allowed: Option<set<string>>)
    requires cost <= p.cost
    ensures PositionUsd(p.(cost := cost), allowed) <= PositionUsd(p, allowed)
  {
  }

  lemma StepKeepsRows(s: State, e: Step, c: Config)
    requires c.Valid() && StateValid(s, c) && Enabled(s, e, c)
    ensures var t := Next(s, e, c);
      && (forall i :: 0 <= i < |t.positions| ==> PositionUsd(t.positions[i], Some(c.live)) >= 0.0)
      && (forall i :: 0 <= i < |t.orders| ==> OrderUsd(t.orders[i], Some(c.live)) >= 0.0)
  {
    hide Times, ReadingValid, Clears;
    if e.FillInto? && e.into.Some? {
      assert PositionUsd(s.positions[e.into.value], Some(c.live)) >= 0.0;
    }
  }

  lemma StepKeepsRequests(s: State, e: Step, c: Config)
    requires c.Valid() && StateValid(s, c) && Enabled(s, e, c)
    ensures var t := Next(s, e, c);
      && t.pending.Keys <= c.live && t.reading.Keys <= c.live && t.pending.Keys !! t.reading.Keys
      && forall k :: k in t.pending ==> 0.0 <= t.pending[k] <= c.Largest()
  {
    hide Times, PositionUsd, OrderUsd, Clears;
    if e.ReadOrders? && Clears(s, s.reading[e.bot], c) {
      ClearingBound(s, e.bot, c);
      assert ReadingValid(s, s.reading[e.bot], c);
    }
  }

  lemma StepKeepsValid(s: State, e: Step, c: Config)
    requires c.Valid() && StateValid(s, c) && Enabled(s, e, c)
    ensures StateValid(Next(s, e, c), c)
  {
    hide Next, Enabled, ReadingValid, PositionUsd, OrderUsd;
    StepKeepsRows(s, e, c);
    StepKeepsRequests(s, e, c);
    forall k | k in Next(s, e, c).reading ensures ReadingValid(Next(s, e, c), Next(s, e, c).reading[k], c) {
      ReadingStaysValid(s, e, k, c);
    }
  }

  /** The most that fills cost between the two queries of any check of the run. */
  ghost function WorstMissed(steps: seq<Step>, c: Config): real {
    if steps == [] then 0.0
    else
      var before, e := WorstMissed(steps[..|steps| - 1], c), steps[|steps| - 1];
      match Run(steps[..|steps| - 1], c)
      case Some(s) => if e.ReadOrders? && e.bot in s.reading then Max(before, s.reading[e.bot].missed) else before
      case None => before
  }

  lemma {:induction false} MissedNotNegative(steps: seq<Step>, c: Config)
    ensures WorstMissed(steps, c) >= 0.0
  {
    hide Run;
    if steps != [] { MissedNotNegative(steps[..|steps| - 1], c); }
  }

  /**
   * With racing bots: whatever the interleaving of the two queries of each check, placements, given-up
   * requests, fills and cancels, exposure plus cleared requests never exceeds the cap by more than one
   * maximal order per other live bot and what fills cost between the queries of a check.
   */
  lemma {:induction false} RacingBound(steps: seq<Step>, c: Config)
    requires c.Valid() && Run(steps, c).Some?
    ensures var s := Run(steps, c).value;
      StateValid(s, c) && Committed(s, c) <= c.cap + Overshoot(c) + WorstMissed(steps, c)
  {
    hide Times, Committed, StateValid, Next, Enabled, Clears;
    if steps == [] {
      EmptyFleet(c);
    } else {
      RacingBound(steps[..|steps| - 1], c);
      var s, e := Run(steps[..|steps| - 1], c).value, steps[|steps| - 1];
      StepKeepsValid(s, e, c);
      if e.ReadOrders? && ClearsNow(s, e.bot, c) {
        ClearingStep(s, e.bot, c);
      } else {
        OtherStepsDoNotRaise(s, e, c);
      }
    }
  }

  lemma ClearingStep(s: State, bot: string, c: Config)
    requires c.Valid() && StateValid(s, c) && ClearsNow(s, bot, c)
    ensures Enabled(s, ReadOrders(bot), c)
    ensures var r := s.reading[bot];
      Committed(Next(s, ReadOrders(bot), c), c) <= c.cap + Overshoot(c) + r.missed
  {
    hide Times, Clears, PositionsUsd, OrdersUsd;
    ClearingBound(s, bot, c);
  }

  lemma EmptyFleet(c: Config)
    requires c.Valid()
    ensures var s := State([], [], map[], map[]);
      StateValid(s, c) && Committed(s, c) == 0.0 <= c.cap && Overshoot(c) >= 0.0
  {
    hide Times;
    MoreBots(0, |c.live| - 1, c.Largest());
    TimesZero(c.Largest());
  }

  /** Each cleared request is placed before anybody asks again, and no check misses a fill. */
  ghost predicate Atomic(steps: seq<Step>, c: Config) {
    forall n :: 0 <= n < |steps| && steps[n].ReadOrders? ==> AtomicAt(Run(steps[..n], c), steps[n].bot)
  }

  ghost predicate AtomicAt(o: Option<State>, bot: string) {
    o.Some? && bot in o.value.reading ==> o.value.pending == map[] && o.value.reading[bot].missed == 0.0
  }

  lemma AtomicPrefix(steps: seq<Step>, c: Config)
    requires Atomic(steps, c) && steps != []
    ensures Atomic(steps[..|steps| - 1], c)
  {
    hide Run, AtomicAt;
    var us := steps[..|steps| - 1];
    forall n | 0 <= n < |us| && us[n].ReadOrders? ensures AtomicAt(Run(us[..n], c), us[n].bot) {
      assert us[..n] == steps[..n];
    }
  }

  /** If check and placement happen as one, the cap itself is never exceeded. */
  lemma {:induction false} AtomicBound(steps: seq<Step>, c: Config)
    requires c.Valid() && Run(steps, c).Some? && Atomic(steps, c)
    ensures Committed(Run(steps, c).value, c) <= c.cap
  {
    hide Times, StateValid, Next, Enabled, Committed, Clears;
    if steps == [] {
      EmptyFleet(c);
    } else {
      AtomicPrefix(steps, c);
      AtomicBound(steps[..|steps| - 1], c);
      RacingBound(steps[..|steps| - 1], c);
      var s, e := Run(steps[..|steps| - 1], c).value, steps[|steps| - 1];
      if e.ReadOrders? && ClearsNow(s, e.bot, c) {
        assert AtomicAt(Run(steps[..|steps| - 1], c), e.bot);
        AtomicClearing(s, e.bot, c);
      } else {
        OtherStepsDoNotRaise(s, e, c);
      }
    }
  }

  lemma AtomicClearing(s: State, bot: string, c: Config)
    requires c.Valid() && StateValid(s, c) && ClearsNow(s, bot, c)
    requires s.pending == map[] && s.reading[bot].missed == 0.0
    ensures Enabled(s, ReadOrders(bot), c) && Committed(Next(s, ReadOrders(bot), c), c) <= c.cap
  {
    hide Times, Clears, PositionsUsd, OrdersUsd;
    ClearedIsSmall(s, s.reading[bot], c);
    SumUpdate(s.pending, bot, s.reading[bot].notional, Same);
  }

  // ----- the overshoot is reached -----

  /** The bot asks for and places k orders of m each. */
  function Orders(bot: string, m: real, k: nat): seq<Step> {
    if k == 0 then [] else Orders(bot, m, k - 1) + OrderSteps(bot, m)
  }

  function OrderSteps(bot: string, m: real): seq<Step> {
    [ReadPositions(bot, m), ReadOrders(bot), Place(bot, 1.0, m, "OPEN")]
  }

  function Asks(bots: seq<string>, m: real): seq<Step> {
    if bots == [] then []
    else Asks(bots[..|bots| - 1], m) + [ReadPositions(bots[|bots| - 1], m), ReadOrders(bots[|bots| - 1])]
  }

  ghost predicate Distinct(bots: seq<string>) {
    forall i, j :: 0 <= i < j < |bots| ==> bots[i] != bots[j]
  }

  lemma RunLast(steps: seq<Step>, e: Step, c: Config)
    requires Run(steps, c).Some?
    ensures Run(steps + [e], c) ==
            if Enabled(Run(steps, c).value, e, c) then Some(Next(Run(steps, c).value, e, c)) else None
  {
    hide Next, Enabled;
    assert (steps + [e])[..|steps|] == steps;
  }

  /** A run of orders alone, none outstanding and none filled, whose exposure is x. */
  ghost predicate Reaches(steps: seq<Step>, x: real, c: Config) {
    && Run(steps, c).Some? && WorstMissed(steps, c) == 0.0
    && (var s := Run(steps, c).value;
        && s.pending == map[] && s.reading == map[] && s.positions == []
        && OrdersUsd(s.orders, Some(c.live)) == x)
  }

  lemma MissedLast(steps: seq<Step>, e: Step, c: Config)
    requires Run(steps, c).Some?
    ensures WorstMissed(steps + [e], c) ==
      var s := Run(steps, c).value;
      if e.ReadOrders? && e.bot in s.reading then Max(WorstMissed(steps, c), s.reading[e.bot].missed)
      else WorstMissed(steps, c)
  {
    hide Run;
    assert (steps + [e])[..|steps|] == steps;
  }

  /** Reading both tables at once for a request that fits. */
  lemma Cleared(steps: seq<Step>, bot: string, m: real, c: Config)
    requires c.Valid() && Run(steps, c).Some? && bot in c.live && 0.0 <= m <= c.maxNotional
    requires var s := Run(steps, c).value;
      bot !in s.pending && bot !in s.reading && Exposure(s, c) + m <= c.cap
    requires WorstMissed(steps, c) >= 0.0
    ensures var more := steps + [ReadPositions(bot, m), ReadOrders(bot)];
      && Run(more, c) == Some(Run(steps, c).value.(pending := Run(steps, c).value.pending[bot := m]))
      && WorstMissed(more, c) == WorstMissed(steps, c)
  {
    hide Times, PositionsUsd, OrdersUsd;
    var s := Run(steps, c).value;
    var first := steps + [ReadPositions(bot, m)];
    RunLast(steps, ReadPositions(bot, m), c);
    MissedLast(steps, ReadPositions(bot, m), c);
    RunLast(first, ReadOrders(bot), c);
    MissedLast(first, ReadOrders(bot), c);
    assert first + [ReadOrders(bot)] == steps + [ReadPositions(bot, m), ReadOrders(bot)];
    assert s.reading[bot := Reading(m, PositionsUsd(s.positions, Some(c.live)), 0.0)] - {bot} == s.reading;
  }

  lemma OneOrder(steps: seq<Step>, x: real, bot: string, m: real, c: Config)
    requires c.Valid() && Reaches(steps, x, c) && bot in c.live && 0.0 <= m <= c.maxNotional && x + m <= c.cap
    ensures Reaches(steps + OrderSteps(bot, m), x + m, c)
    ensures var s := Run(steps + OrderSteps(bot, m), c).value;
      s.orders != [] && s.orders[|s.orders| - 1] == OrderRow(bot, Some(1.0), Some(m), "OPEN")
  {
    hide Clears;
    var s := Run(steps, c).value;
    Cleared(steps, bot, m, c);
    var more := steps + [ReadPositions(bot, m), ReadOrders(bot)];
    RunLast(more, Place(bot, 1.0, m, "OPEN"), c);
    MissedLast(more, Place(bot, 1.0, m, "OPEN"), c);
    assert more + [Place(bot, 1.0, m, "OPEN")] == steps + OrderSteps(bot, m);
    var row := OrderRow(bot, Some(1.0), Some(m), "OPEN");
    assert (s.orders + [row])[..|s.orders|] == s.orders;
    assert map[bot := m] - {bot} == map[];
  }

  lemma {:induction false} ManyOrders(bot: string, m: real, k: nat, c: Config)
    requires c.Valid() && bot in c.live && 0.0 <= m <= c.maxNotional && Times(k as real, m) <= c.cap
    ensures Reaches(Orders(bot, m, k), Times(k as real, m), c)
  {
    hide Times, Reaches;
    if k == 0 {
      TimesZero(m);
      assert Reaches([], 0.0, c) by { NothingReached(c); }
    } else {
      OneLess(k, m);
      ManyOrders(bot, m, k - 1, c);
      OneOrder(Orders(bot, m, k - 1), Times((k - 1) as real, m), bot, m, c);
    }
  }

  lemma NothingReached(c: Config)
    ensures Reaches([], 0.0, c)
  {
  }

  /** If all bots ask before any places, what one of them may still have is cleared for all. */
  lemma {:induction false} AllCleared(steps: seq<Step>, x: real, bots: seq<string>, m: real, c: Config)
    requires c.Valid() && Reaches(steps, x, c) && 0.0 <= m <= c.maxNotional && x + m <= c.cap
    requires Distinct(bots) && forall b :: b in bots ==> b in c.live
    ensures ClearedFor(steps + Asks(bots, m), x, bots, m, c)
  {
    hide Times, Reaches, ClearedFor;
    if bots == [] {
      assert steps + Asks(bots, m) == steps;
      ClearedForNone(steps, x, m, c);
    } else {
      var n := |bots| - 1;
      assert bots == bots[..n] + [bots[n]];
      AllCleared(steps, x, bots[..n], m, c);
      var before := steps + Asks(bots[..n], m);
      assert steps + Asks(bots, m) == before + [ReadPositions(bots[n], m), ReadOrders(bots[n])];
      OneMoreCleared(before, x, bots[..n], bots[n], m, c);
    }
  }

  ghost predicate ClearedFor(steps: seq<Step>, x: real, bots: seq<string>, m: real, c: Config) {
    && Run(steps, c).Some? && WorstMissed(steps, c) == 0.0
    && (var s := Run(steps, c).value;
        && Exposure(s, c) == x && s.reading == map[]
        && (forall b :: b in s.pending <==> b in bots)
        && Sum(s.pending, Same) == Times(|bots| as real, m))
  }

  lemma ClearedForNone(steps: seq<Step>, x: real, m: real, c: Config)
    requires Reaches(steps, x, c)
    ensures ClearedFor(steps, x, [], m, c)
  {
    hide Times, Run, WorstMissed;
    TimesZero(m);
  }

  lemma OneMoreCleared(steps: seq<Step>, x: real, bots: seq<string>, bot: string, m: real, c: Config)
    requires c.Valid() && ClearedFor(steps, x, bots, m, c) && 0.0 <= m <= c.maxNotional && x + m <= c.cap
    requires bot in c.live && Distinct(bots + [bot])
    ensures ClearedFor(steps + [ReadPositions(bot, m), ReadOrders(bot)], x, bots + [bot], m, c)
  {
    hide Times, Run, WorstMissed, PositionsUsd, OrdersUsd, Sum;
    assert bot !in bots by {
      forall i | 0 <= i < |bots| ensures bots[i] != bot { assert (bots + [bot])[i] != (bots + [bot])[|bots|]; }
    }
    Cleared(steps, bot, m, c);
    SumUpdate(Run(steps, c).value.pending, bot, m, Same);
    OneLess(|bots + [bot]|, m);
  }

  /** One bot's orders bring the exposure to one maximal order below the cap; then all ask at once. */
  function Race(bots: seq<string>, c: Config): seq<Step>
    requires bots != [] && c.Largest() > 0.0 && c.cap >= c.Largest()
  {
    var m := c.Largest();
    var k := ((c.cap - m) / m).Floor;
    var rest := c.cap - m - Times(k as real, m);
    Chunks(c.cap - m, m);
    Orders(bots[0], m, k) + OrderSteps(bots[0], rest) + Asks(bots, m)
  }

  lemma Chunks(x: real, m: real)
    requires x >= 0.0 && m > 0.0
    ensures (x / m).Floor >= 0
    ensures Times((x / m).Floor as real, m) <= x <= Times((x / m).Floor as real, m) + m
  {
    var q := x / m;
    QuotientScaled(x, m);
    assert q >= 0.0 by { if q < 0.0 { NegativeScaled(q, m); } }
    var f := q.Floor as real;
    TimesDistributes(q, f, m);
    TimesDistributes(f, 1.0, m);
    ScaledLe(0.0, q - f, m);
    ScaledLe(q - f, 1.0, m);
  }

  lemma QuotientScaled(x: real, m: real)
    requires m > 0.0
    ensures Times(x / m, m) == x
  {
  }

  lemma NegativeScaled(q: real, m: real)
    requires q < 0.0 && m > 0.0
    ensures Times(q, m) < 0.0
  {
  }

  lemma ScaledLe(a: real, b: real, m: real)
    requires a <= b && m > 0.0
    ensures Times(a, m) <= Times(b, m)
  {
  }

  /** Exposure one maximal order below the cap is reached by orders alone. */
  lemma AlmostFull(bot: string, c: Config) returns (steps: seq<Step>)
    requires c.Valid() && c.maxNotional > 0.0 && bot in c.live
    ensures Reaches(steps, c.cap - c.Largest(), c)
    ensures var m := c.Largest();
      var k := ((c.cap - m) / m).Floor;
      k >= 0 && steps == Orders(bot, m, k) + OrderSteps(bot, c.cap - m - Times(k as real, m))
  {
    hide Times, Reaches;
    var m := c.Largest();
    var k := ((c.cap - m) / m).Floor;
    Chunks(c.cap - m, m);
    var rest := c.cap - m - Times(k as real, m);
    ManyOrders(bot, m, k, c);
    OneOrder(Orders(bot, m, k), Times(k as real, m), bot, rest, c);
    steps := Orders(bot, m, k) + OrderSteps(bot, rest);
  }

  /**
   * The racing bound is tight for every cap, every positive maximal order and every number of bots, even
   * if no check misses a fill.
   */
  lemma OvershootIsReached(bots: seq<string>, c: Config)
    requires c.Valid() && c.maxNotional > 0.0 && Distinct(bots) && bots != [] && forall b :: b in bots <==> b in c.live
    ensures var r := Run(Race(bots, c), c);
      r.Some? && WorstMissed(Race(bots, c), c) == 0.0 && Committed(r.value, c) == c.cap + Overshoot(c)
  {
    hide Times, Run, Reaches, Exposure, WorstMissed;
    var m := c.Largest();
    assert bots[0] in bots;
    var steps := AlmostFull(bots[0], c);
    AllCleared(steps, c.cap - m, bots, m, c);
    DistinctCount(bots, c.live);
    OneLess(|bots|, m);
  }

  lemma {:induction false} DistinctCount(bots: seq<string>, live: set<string>)
    requires Distinct(bots) && forall b :: b in bots <==> b in live
    ensures |bots| == |live|
  {
    if bots == [] {
      assert live == {};
    } else {
      var n := |bots| - 1;
      assert bots == bots[..n] + [bots[n]];
      DistinctCount(bots[..n], live - {bots[n]});
    }
  }

  lemma {:induction false} Listed(live: set<string>) returns (bots: seq<string>)
    ensures Distinct(bots) && forall b :: b in bots <==> b in live
    decreases |live|
  {
    if live == {} {
      bots := [];
    } else {
      var x :| x in live;
      var rest := Listed(live - {x});
      bots := rest + [x];
      assert forall i :: 0 <= i < |rest| ==> rest[i] in rest;
    }
  }

  /** Exposure and cleared requests stay within the cap in all runs whose checks miss no fill. */
  ghost predicate WithinCapIfWhole(c: Config) {
    forall steps :: Run(steps, c).Some? && WorstMissed(steps, c) == 0.0 ==> Committed(Run(steps, c).value, c) <= c.cap
  }

  ghost predicate AlwaysWithinCap(c: Config) {
    forall steps :: Run(steps, c).Some? ==> Committed(Run(steps, c).value, c) <= c.cap
  }

  /**
   * So with check and placement apart the cap is kept in all runs whose snapshots are whole only if there
   * is a single live bot, or nothing to ask for.
   */
  lemma CapHoldsOnlyWithoutRace(c: Config)
    requires c.Valid()
    ensures WithinCapIfWhole(c) <==> |c.live| == 1 || c.maxNotional == 0.0
  {
    hide Times, Run, Committed, WorstMissed;
    assert |c.live| >= 1;
    if |c.live| == 1 || c.maxNotional == 0.0 {
      NoOvershoot(c);
      forall steps | Run(steps, c).Some? && WorstMissed(steps, c) == 0.0
        ensures Committed(Run(steps, c).value, c) <= c.cap
      {
        RacingBound(steps, c);
      }
    } else {
      var bots := Listed(c.live);
      DistinctCount(bots, c.live);
      OvershootIsReached(bots, c);
      SomeOvershoot(c);
      var steps := Race(bots, c);
      assert Committed(Run(steps, c).value, c) > c.cap;
    }
  }

  /** One bot alone: its last order fills between the two queries of its next check. */
  lemma SplitSnapshotExceeds(bot: string, c: Config) returns (steps: seq<Step>)
    requires c.Valid() && c.maxNotional > 0.0 && bot in c.live
    ensures Run(steps, c).Some? && Committed(Run(steps, c).value, c) == c.cap + c.Largest()
  {
    hide Times, Run, Reaches, Clears, Enabled, Next, WorstMissed;
    var m := c.Largest();
    var almost := AlmostFull(bot, c);
    OneOrder(almost, c.cap - m, bot, m, c);
    var full := almost + OrderSteps(bot, m);
    ReachedState(full, c.cap, c);
    var s := Run(full, c).value;
    var i := |s.orders| - 1;
    var fill := FillInto(i, None, m);
    FillBetween(s, bot, m, i, c);
    RunLast(full, ReadPositions(bot, m), c);
    RunLast(full + [ReadPositions(bot, m)], fill, c);
    steps := full + [ReadPositions(bot, m)] + [fill] + [ReadOrders(bot)];
    RunLast(full + [ReadPositions(bot, m)] + [fill], ReadOrders(bot), c);
  }

  lemma ReachedState(steps: seq<Step>, x: real, c: Config)
    requires Reaches(steps, x, c)
    ensures Run(steps, c).Some?
    ensures var s := Run(steps, c).value;
      s.pending == map[] && s.reading == map[] && s.positions == [] && OrdersUsd(s.orders, Some(c.live)) == x
  {
  }

  lemma FillBetween(s: State, bot: string, m: real, i: nat, c: Config)
    requires c.Valid() && bot in c.live && 0.0 < m <= c.maxNotional
    requires s.pending == map[] && s.reading == map[] && s.positions == [] && OrdersUsd(s.orders, Some(c.live)) == c.cap
    requires i < |s.orders| && s.orders[i] == OrderRow(bot, Some(1.0), Some(m), "OPEN")
    ensures Enabled(s, ReadPositions(bot, m), c)
    ensures var t := Next(s, ReadPositions(bot, m), c);
      Enabled(t, FillInto(i, None, m), c) &&
      (var u := Next(t, FillInto(i, None, m), c);
       Enabled(u, ReadOrders(bot), c) && Committed(Next(u, ReadOrders(bot), c), c) == c.cap + m)
  {
    hide OrdersUsd, Sum;
    var t := Next(s, ReadPositions(bot, m), c);
    FillMovesExposure(t, i, None, m, c);
    var u := Next(t, FillInto(i, None, m), c);
    assert u.reading[bot] == Reading(m, 0.0, m);
    SumUpdate(u.pending, bot, m, Same);
    EmptySum();
  }

  lemma EmptySum()
    ensures Sum<string, real>(map[], Same) == 0.0
  {
  }

  /** Over all runs, then, the cap is kept only if there is nothing to ask for. */
  lemma CapHoldsOnlyIdle(c: Config)
    requires c.Valid()
    ensures AlwaysWithinCap(c) <==> c.maxNotional == 0.0
  {
    hide Times, Run;
    if c.maxNotional == 0.0 {
      forall steps | Run(steps, c).Some? ensures Committed(Run(steps, c).value, c) <= c.cap {
        IdleFleet(steps, c);
      }
    } else {
      var bot :| bot in c.live;
      var steps := SplitSnapshotExceeds(bot, c);
      assert Committed(Run(steps, c).value, c) > c.cap;
    }
  }

  /** With nothing to ask for nothing is ever committed. */
  lemma {:induction false} IdleFleet(steps: seq<Step>, c: Config)
    requires c.Valid() && c.maxNotional == 0.0 && Run(steps, c).Some?
    ensures StateValid(Run(steps, c).value, c) && Committed(Run(steps, c).value, c) <= 0.0
  {
    hide Times, StateValid, Next, Enabled, Committed, Clears;
    if steps == [] {
      EmptyFleet(c);
    } else {
      IdleFleet(steps[..|steps| - 1], c);
      var s, e := Run(steps[..|steps| - 1], c).value, steps[|steps| - 1];
      StepKeepsValid(s, e, c);
      if e.ReadOrders? && ClearsNow(s, e.bot, c) { IdleClearing(s, e.bot, c); } else { OtherStepsDoNotRaise(s, e, c); }
    }
  }

  lemma IdleClearing(s: State, bot: string, c: Config)
    requires c.Valid() && c.maxNotional == 0.0 && StateValid(s, c) && ClearsNow(s, bot, c)
    ensures Enabled(s, ReadOrders(bot), c) && Committed(Next(s, ReadOrders(bot), c), c) == Committed(s, c)
  {
    hide Times, PositionsUsd, OrdersUsd, Clears;
    assert ReadingValid(s, s.reading[bot], c);
    SumUpdate(s.pending, bot, s.reading[bot].notional, Same);
  }

  lemma NoOvershoot(c: Config)
    requires c.Valid() && (|c.live| == 1 || c.maxNotional == 0.0)
    ensures Overshoot(c) == 0.0
  {
  }

  lemma SomeOvershoot(c: Config)
    requires c.Valid() && |c.live| > 1 && c.maxNotional > 0.0
    ensures Overshoot(c) > 0.0
  {
  }
}
