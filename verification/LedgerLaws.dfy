/** What the tables hold after a run, row by row: positions, orders, events and the rows queries select. */
module LedgerLaws {
  import opened Sums
  import opened Sorting
  import opened Decimals
  import opened Trades
  import opened Fifo
  import opened Portfolio
  import opened Ledger
  import opened Sessions
  import opened Spellings

  // ----- positions -----

  /** The row was opened by a stored BUY of its bot, token and condition. */
  ghost predicate OpenedBy(t: Trade, p: Position) {
    IsBuy(t.side) && t.bot == p.bot && t.token == p.token && t.condition == p.condition
  }

  /** Its outcome is NO exactly if the market says that its token is the NO token. */
  ghost predicate OutcomeFits(markets: map<string, Market>, p: Position) {
    && (p.outcome == "NO" <==> p.condition in markets && markets[p.condition].noToken == p.token)
    && (p.outcome != "NO" ==> p.outcome == "YES")
  }

  ghost predicate RowFits(ts: seq<Trade>, markets: map<string, Market>, p: Position) {
    && (exists t :: t in ts && OpenedBy(t, p)) && OutcomeFits(markets, p)
    && (p.status == Closed ==> p.size == 0.0 && p.cost == 0.0)
  }

  ghost predicate RowsFit(d: Tables, markets: map<string, Market>) {
    forall i :: 0 <= i < |d.positions| ==> RowFits(d.trades, markets, d.positions[i])
  }

  lemma RowFitsLater(ts: seq<Trade>, us: seq<Trade>, markets: map<string, Market>, p: Position, q: Position)
    requires RowFits(ts, markets, p) && ts <= us
    requires q == p.(size := q.size, avgPrice := q.avgPrice, cost := q.cost, status := q.status)
    requires q.status == Closed ==> q.size == 0.0 && q.cost == 0.0
    ensures RowFits(us, markets, q)
  {
    hide IsBuy;
    var t :| t in ts && OpenedBy(t, p);
    assert t in us && OpenedBy(t, q);
  }

  lemma OpenedFits(ts: seq<Trade>, markets: map<string, Market>, t: Trade)
    requires BaseSide(t.side) == Buy
    ensures RowFits(ts + [t], markets, Opened(markets, t))
  {
    hide IsBuy, BaseSide;
    SidesExactly(t.side);
    assert t in ts + [t] && OpenedBy(t, Opened(markets, t));
  }

  lemma FillKeepsRows(d: Tables, t: Trade, markets: map<string, Market>, flush: bool)
    requires OpenPositive(d.positions) && t.size > 0.0 && RowsFit(d, markets)
    ensures RowsFit(AfterFill(d, t, markets, flush), markets)
  {
    hide RowFits, Times, Quantize, FifoCost, BaseSide, OutcomeOf, HasTrade;
    var e := AfterFill(d, t, markets, flush);
    forall i | 0 <= i < |e.positions| ensures RowFits(e.trades, markets, e.positions[i]) {
      if i == |d.positions| {
        OpenedFits(d.trades, markets, t);
      } else {
        assert RowFits(d.trades, markets, d.positions[i]);
        ClosedIsEmpty(d.trades, markets, d.positions[i]);
        RowFitsLater(d.trades, e.trades, markets, d.positions[i], e.positions[i]);
      }
    }
  }

  lemma ClosedIsEmpty(ts: seq<Trade>, markets: map<string, Market>, p: Position)
    requires RowFits(ts, markets, p)
    ensures p.status == Closed ==> p.size == 0.0 && p.cost == 0.0
  {
  }

  /**
   * After every run each row belongs to a stored BUY of its bot, token and condition and has the
   * outcome its market gives, and a CLOSED row holds nothing.
   */
  lemma {:induction false} RowsComeFromBuys(
      ops: seq<Op>, markets: map<string, Market>, orders: map<string, Order>, flush: bool)
    requires Run(ops, markets, orders, flush).Some?
    ensures RowsFit(Run(ops, markets, orders, flush).value, markets)
  {
    hide AfterFill, RowFits;
    if ops != [] {
      RowsComeFromBuys(ops[..|ops| - 1], markets, orders, flush);
      var d := Run(ops[..|ops| - 1], markets, orders, flush).value;
      match ops[|ops| - 1] {
        case Fill(t) => FillKeepsRows(d, t, markets, flush);
        case Redeem(i, received) =>
          var p := d.positions[i];
          assert RowFits(d.trades, markets, p);
          RowFitsLater(d.trades, d.trades, markets, p, p.(status := Redeemed));
        case PlaceOrder(_, _) =>
      }
    }
  }

  /** A redemption ends its row as it is and records what came in against what it cost. */
  lemma RedeemExactly(d: Tables, i: nat, received: real)
    ensures var e := AfterRedeem(d, i, received);
      && e.trades == d.trades && e.orders == d.orders && |e.positions| == |d.positions|
      && (i >= |d.positions| ==> e == d)
      && (i < |d.positions| ==>
            && e.events == d.events + [Redemption(d.positions[i].bot, i, received, d.positions[i].cost)]
            && forall j :: 0 <= j < |d.positions| ==>
                 e.positions[j] == if j == i then d.positions[i].(status := Redeemed) else d.positions[j])
  {
  }

  // ----- events of SELLs that find nothing -----

  /** After every run, the next fill is reported exactly if it is a SELL and the running balance is zero. */
  lemma ReportedExactly(
      ops: seq<Op>, t: Trade, markets: map<string, Market>, orders: map<string, Order>, flush: bool)
    requires Run(ops, markets, orders, flush).Some? && NewFill(Run(ops, markets, orders, flush).value, t)
    ensures var d := Run(ops, markets, orders, flush).value;
      AfterFill(d, t, markets, flush).events == d.events +
        if IsSell(t.side) && Held(SelectTrades(d.trades, t.bot, t.token)) == 0.0
        then [SellWithoutPosition(t.bot, t.token, t.size, t.price)] else []
  {
    hide Run, BaseSide, PositionsAfter, OrdersAfter, SelectTrades, Held, Replay, IsSell, OneOpen, KeyInvariant;
    hide BasisInvariant;
    var d := Run(ops, markets, orders, flush).value;
    RunInvariant(ops, markets, orders, flush);
    PositionAgreesWithReplay(ops, markets, orders, flush, t.bot, t.token);
    SidesExactly(t.side);
    NothingMore(d.events);
  }

  lemma NothingMore(es: seq<Event>)
    ensures es + [] == es
  {
  }

  /** Within a session a SELL of a stored row is reported once the session has sold all of it. */
  lemma SessionReportsExactly(
      d: Tables, us: seq<Trade>, t: Trade, markets: map<string, Market>, i: nat)
    requires OpenPositive(d.positions) && OneOpen(d.positions) && Fresh(d, us + [t])
    requires FindOpen(d.positions, t.bot, t.token) == Some(i)
    ensures PositiveSizes(us)
    ensures InOneSession(d, us + [t], markets, false).events == InOneSession(d, us, markets, false).events +
      if IsSell(t.side) && Balance(d.positions[i].size, SelectTrades(us, t.bot, t.token)) == 0.0
      then [SellWithoutPosition(t.bot, t.token, t.size, t.price)] else []
  {
    hide BaseSide, PositionsAfter, OrdersAfter, SelectTrades, OneOpen, RowUpdated, FindOpen, IsSell, FifoCost, HasTrade;
    assert (us + [t])[..|us|] == us && (us + [t])[|us|] == t;
    FreshPrefix(d, us + [t]);
    var e := InOneSession(d, us, markets, false);
    SessionWithRow(d, us, markets, t.bot, t.token, i);
    OpenRowIs(d.positions, t.bot, t.token);
    UpdatedShape(d.positions[i], SelectTrades(us, t.bot, t.token), FifoCost(d.trades, t.bot, t.token));
    SidesExactly(t.side);
    NotStored(d, us, t);
    NothingMore(e.events);
  }

  lemma NotStored(d: Tables, us: seq<Trade>, t: Trade)
    requires Fresh(d, us + [t])
    ensures !HasTrade(d.trades, t.id) && t.size > 0.0 && OrderStored(d.orders, t)
  {
    assert (us + [t])[|us|] == t;
  }

  lemma OpenRowIs(ps: seq<Position>, bot: string, token: string)
    requires OpenPositive(ps) && FindOpen(ps, bot, token).Some?
    ensures var p := ps[FindOpen(ps, bot, token).value]; p.status == Open && p.size > 0.0
  {
  }

  // ----- orders -----

  /** The last of the fills that name the order; an empty name names none. */
  function LastOf(us: seq<Trade>, id: string): Option<Trade> {
    if us == [] then None
    else if us[|us| - 1].order == Some(id) && id != "" then Some(us[|us| - 1])
    else LastOf(us[..|us| - 1], id)
  }

  /** What an order is after its last fill, however much earlier ones filled of it. */
  ghost predicate FollowsLast(before: Order, after: Order, last: Option<Trade>) {
    match last
    case None => after == before
    case Some(t) =>
      after == before.(status := after.status, updated := t.filledAt)
      && after.status == if t.size >= before.size then "FILLED" else "PARTIAL"
  }

  /**
   * An order's status compares its size with its last fill alone, in sessions of one fill and in a
   * session of several; the fills before that leave no trace.
   */
  lemma {:induction false} OrderFollowsLastFill(
      d: Tables, us: seq<Trade>, id: string, markets: map<string, Market>, flush: bool)
    requires OpenPositive(d.positions) && Fresh(d, us) && id in d.orders
    ensures var e, f := OneByOne(d, us, markets, flush), InOneSession(d, us, markets, flush);
      && id in e.orders && FollowsLast(d.orders[id], e.orders[id], LastOf(us, id)) && e.trades == d.trades + us
      && id in f.orders && FollowsLast(d.orders[id], f.orders[id], LastOf(us, id)) && f.trades == d.trades + us
  {
    hide AfterFill, Booked, FollowsLast, HasTrade, OrderStored;
    if us == [] {
      NotFilled(d.orders[id]);
      assert d.trades + us == d.trades;
    } else {
      var vs, t := us[..|us| - 1], us[|us| - 1];
      FreshPrefix(d, us);
      OrderFollowsLastFill(d, vs, id, markets, flush);
      StillMissing(d, vs, t.id);
      OneByOneTrades(d, vs, markets, flush);
      assert us == vs + [t];
      NotStored(d, vs, t);
      SameOrder(d.orders, OneByOne(d, vs, markets, flush).orders, t);
      var e, f := OneByOne(d, vs, markets, flush), InOneSession(d, vs, markets, flush);
      OneMoreFilled(e, e, t, id, d.orders[id], LastOf(vs, id), markets, flush);
      OneMoreFilled(d, f, t, id, d.orders[id], LastOf(vs, id), markets, flush);
      assert LastOf(us, id) == Later(LastOf(vs, id), t, id);
    }
  }

  lemma SameOrder(o: map<string, Order>, r: map<string, Order>, t: Trade)
    requires o.Keys == r.Keys && OrderStored(o, t)
    ensures OrderStored(r, t)
  {
  }

  lemma NotFilled(o: Order)
    ensures FollowsLast(o, o, None)
  {
  }

  function Later(last: Option<Trade>, t: Trade, id: string): Option<Trade> {
    if t.order == Some(id) && id != "" then Some(t) else last
  }

  lemma OneMoreFilled(
      stored: Tables, d: Tables, t: Trade, id: string, before: Order, last: Option<Trade>,
      markets: map<string, Market>, flush: bool)
    requires InSession(stored, d) && t.size > 0.0 && !HasTrade((if flush then d else stored).trades, t.id)
    requires id in d.orders && FollowsLast(before, d.orders[id], last)
    ensures var e := Booked(stored, d, t, markets, flush);
      && id in e.orders && FollowsLast(before, e.orders[id], Later(last, t, id)) && e.trades == d.trades + [t]
    ensures stored == d && OrderStored(d.orders, t) ==>
      AfterFill(d, t, markets, flush) == Booked(d, d, t, markets, flush)
  {
    hide PositionsAfter, EventsAfter, HasTrade;
  }

  lemma StillMissing(d: Tables, vs: seq<Trade>, id: string)
    requires !HasTrade(d.trades + vs, id)
    ensures !HasTrade(d.trades, id)
  {
    forall k | 0 <= k < |d.trades| ensures d.trades[k].id != id { assert (d.trades + vs)[k] == d.trades[k]; }
  }

  /** Two fills that make up the order in full leave it PARTIAL. */
  lemma TwoHalvesStayPartial(d: Tables, t: Trade, u: Trade, id: string, markets: map<string, Market>, flush: bool)
    requires OpenPositive(d.positions) && Fresh(d, [t, u]) && id in d.orders && id != ""
    requires t.order == u.order == Some(id) && t.size + u.size == d.orders[id].size
    ensures var e := OneByOne(d, [t, u], markets, flush); id in e.orders && e.orders[id].status == "PARTIAL"
  {
    hide OneByOne, InOneSession;
    assert [t, u][0] == t;
    OrderFollowsLastFill(d, [t, u], id, markets, flush);
  }

  // ----- what the queries select -----

  /** Bounded realised P&L is the unbounded figure of exactly the trades at or after the bound. */
  lemma SinceIsRestriction(d: Tables, bot: string, since: int)
    ensures RealisedPnl(d, bot, Some(since)) ==
            RealisedPnl(d.(trades := Filter(d.trades, (t: Trade) => t.filledAt >= since)), bot, None)
    ensures forall t :: t in Since(OfBot(d.trades, bot), Some(since)) <==>
                          t in d.trades && t.bot == bot && t.filledAt >= since
  {
    var p, q := (t: Trade) => t.bot == bot, (t: Trade) => t.filledAt >= since;
    FilterSwap(d.trades, p, q);
    FilterSame(OfBot(d.trades, bot), q, (t: Trade) => t.filledAt >= Some(since).value);
    FilterMembers(d.trades, p);
    FilterMembers(OfBot(d.trades, bot), q);
    SinceIs(OfBot(d.trades, bot), since);
  }

  lemma SinceIs(ts: seq<Trade>, since: int)
    ensures Since(ts, Some(since)) == Filter(ts, (t: Trade) => t.filledAt >= since)
  {
    var o := Some(since);
    FilterSame(ts, (t: Trade) => t.filledAt >= o.value, (t: Trade) => t.filledAt >= since);
  }

  /** No query depends on the order in which trades are stored, only on their times and ids. */
  lemma QueriesIgnoreStorageOrder(
      d: Tables, trades: seq<Trade>, bot: string, token: string, since: Option<int>, cutoff: int)
    requires DistinctIds(d.trades) && multiset(trades) == multiset(d.trades)
    ensures RealisedPnl(d, bot, since) == RealisedPnl(d.(trades := trades), bot, since)
    ensures FifoCost(d.trades, bot, token) == FifoCost(trades, bot, token)
    ensures Sort(TradeLe, OfBot(d.trades, bot)) == Sort(TradeLe, OfBot(trades, bot))
  {
    var ts, us := OfBot(d.trades, bot), OfBot(trades, bot);
    RowsById(d.trades);
    Permuted(d.trades, trades, (t: Trade) => t.bot == bot);
    Permuted(ts, us, (t: Trade) => t.token == token);
    if since.Some? {
      SinceIs(ts, since.value);
      SinceIs(us, since.value);
      Permuted(ts, us, (t: Trade) => t.filledAt >= since.value);
    }
  }

  lemma RowsById(ts: seq<Trade>)
    requires DistinctIds(ts)
    ensures OneRowPerId(ts)
  {
    forall t, u | t in ts && u in ts && t.id == u.id ensures t == u {
      var i :| 0 <= i < |ts| && ts[i] == t;
      var j :| 0 <= j < |ts| && ts[j] == u;
      assert i == j;
    }
  }

  lemma Permuted(ts: seq<Trade>, us: seq<Trade>, p: Trade -> bool)
    requires OneRowPerId(ts) && multiset(ts) == multiset(us)
    ensures OneRowPerId(Filter(ts, p)) && multiset(Filter(ts, p)) == multiset(Filter(us, p))
    ensures Sort(TradeLe, Filter(ts, p)) == Sort(TradeLe, Filter(us, p))
  {
    FilterMembers(ts, p);
    FilterPermutes(ts, us, p);
    StorageOrderIrrelevant(Filter(ts, p), Filter(us, p));
  }

  /** The age limit of the orphan report only leaves out what is younger. */
  lemma {:induction false} OrphansByAge(ts: seq<Trade>, cutoff: int, all: int)
    requires forall i :: 0 <= i < |ts| ==> ts[i].filledAt <= all
    ensures OrphansOf(ts, cutoff) == Filter(OrphansOf(ts, all), (o: Orphan) => o.filledAt <= cutoff)
  {
    hide Excess;
    if ts != [] {
      var n := |ts| - 1;
      OrphansByAge(ts[..n], cutoff, all);
      var before, t := OrphansOf(ts[..n], all), ts[n];
      var o := Orphan(t.id, t.token, t.condition, Excess(OfToken(ts, t.token)), t.price, t.filledAt);
      assert (before + [o])[..|before|] == before;
    }
  }

  /** The orphan is what one SELL sold beyond what was held of its token. */
  ghost predicate OrphanOf(ts: seq<Trade>, i: nat, o: Orphan)
    requires i < |ts|
  {
    var t, held := ts[i], Held(OfToken(ts[..i], ts[i].token));
    && IsSell(t.side) && t.size > held && o.unmatched == t.size - held
    && o.id == t.id && o.token == t.token && o.condition == t.condition && o.price == t.price
    && o.filledAt == t.filledAt
  }

  ghost predicate Oversells(ts: seq<Trade>, i: nat, cutoff: int)
    requires i < |ts|
  {
    IsSell(ts[i].side) && ts[i].size > Held(OfToken(ts[..i], ts[i].token)) && ts[i].filledAt <= cutoff
  }

  /** Every reported orphan is such a SELL up to the cutoff, and every such SELL is reported. */
  lemma {:induction false} OrphansAreSells(ts: seq<Trade>, cutoff: int)
    ensures forall o :: o in OrphansOf(ts, cutoff) ==>
      o.filledAt <= cutoff && exists i :: 0 <= i < |ts| && OrphanOf(ts, i, o)
    ensures forall i :: 0 <= i < |ts| && Oversells(ts, i, cutoff) ==>
      exists o :: o in OrphansOf(ts, cutoff) && OrphanOf(ts, i, o)
  {
    hide OrphanOf, Held, OfToken, IsSell;
    if ts != [] {
      var n := |ts| - 1;
      var us, t := ts[..n], ts[n];
      OrphansAreSells(us, cutoff);
      LastOrphan(ts);
      forall o | o in OrphansOf(ts, cutoff)
        ensures o.filledAt <= cutoff && exists i :: 0 <= i < |ts| && OrphanOf(ts, i, o)
      {
        if o in OrphansOf(us, cutoff) {
          var i :| 0 <= i < n && OrphanOf(us, i, o);
          SameOrphan(ts, i, o);
        }
      }
      forall i | 0 <= i < |ts| && Oversells(ts, i, cutoff)
        ensures exists o :: o in OrphansOf(ts, cutoff) && OrphanOf(ts, i, o)
      {
        if i < n {
          assert us[i] == ts[i] && us[..i] == ts[..i] && Oversells(us, i, cutoff);
          var o :| o in OrphansOf(us, cutoff) && OrphanOf(us, i, o);
          SameOrphan(ts, i, o);
        }
      }
    }
  }

  lemma SameOrphan(ts: seq<Trade>, i: nat, o: Orphan)
    requires i + 1 < |ts|
    ensures OrphanOf(ts[..|ts| - 1], i, o) <==> OrphanOf(ts, i, o)
  {
    assert ts[..|ts| - 1][..i] == ts[..i];
  }

  lemma LastOrphan(ts: seq<Trade>)
    requires ts != []
    ensures var n := |ts| - 1;
      var t, excess := ts[n], Excess(OfToken(ts, ts[n].token));
      && (excess > 0.0 <==> IsSell(t.side) && t.size > Held(OfToken(ts[..n], t.token)))
      && (excess > 0.0 ==>
            OrphanOf(ts, n, Orphan(t.id, t.token, t.condition, excess, t.price, t.filledAt)))
  {
    var t := ts[|ts| - 1];
    hide Held, IsSell, BaseSide;
    OfTokenLast(ts);
    SidesExactly(t.side);
    var us := OfToken(ts[..|ts| - 1], t.token);
    assert (us + [t])[..|us|] == us;
  }
}
