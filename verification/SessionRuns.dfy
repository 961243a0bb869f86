/**
 * Whole runs of sessions that book several fills each without flushing, as a daemon's polls do, where no
 * session leaves other holdings than booking one by one: positions, their costs, and money.
 */
module SessionRuns {
  import opened Sums
  import opened Sorting
  import opened Trades
  import opened Fifo
  import opened Portfolio
  import L = Ledger
  import opened Sessions
  import FillImport

  // ----- one key through one session -----

  predicate HasSell(ks: seq<Trade>) {
    exists i :: 0 <= i < |ks| && BaseSide(ks[i].side) == Sell
  }

  /** What the OPEN rows of a key have to do with the replay of its trades. */
  ghost predicate RowsAgree(rows: seq<Position>, ts: seq<Trade>, unseen: real) {
    var a := Replay(ts);
    && |rows| <= 1
    && (rows == [] ==> a.lots == [] && unseen == 0.0)
    && (rows != [] ==>
          && rows[0].status == Open && rows[0].size == Held(ts) > 0.0
          && rows[0].cost == Cost(a.lots) + a.lastConsumed + unseen)
  }

  /** What the cost of a row misses after a session, beside what its last SELL consumed. */
  function NextUnseen(prior: real, before: seq<Position>, after: seq<Position>, ts: seq<Trade>, ks: seq<Trade>): real {
    if ks == [] then prior
    else if after == [] || before == [] then 0.0
    else if HasSell(ks) then UnseenCost(ts, ks)
    else prior
  }

  lemma SortedCost(ts: seq<Trade>)
    requires Sorted(TradeLe, ts)
    ensures ReplayCost(ts) == Cost(Replay(ts).lots)
  {
    SortIdentity(TradeLe, ts);
  }

  lemma SortedPrefix(ts: seq<Trade>, ks: seq<Trade>)
    requires Sorted(TradeLe, ts + ks) && ks != []
    ensures Sorted(TradeLe, ts + ks[..|ks| - 1])
  {
    var all, n := ts + ks, |ks| - 1;
    assert ts + ks[..n] == all[..|ts| + n];
  }

  lemma ReplaySteps(ts: seq<Trade>, ks: seq<Trade>)
    requires ks != []
    ensures Replay(ts + ks) == Step(Replay(ts + ks[..|ks| - 1]), ks[|ks| - 1])
    ensures Held(ts + ks[..|ks| - 1]) == Balance(Held(ts), ks[..|ks| - 1]) && Held(ts + ks) == Balance(Held(ts), ks)
  {
    hide Step;
    assert (ts + ks)[..|ts + ks| - 1] == ts + ks[..|ks| - 1];
    BalanceConcat(0.0, ts, ks);
    BalanceConcat(0.0, ts, ks[..|ks| - 1]);
  }

  lemma PositiveConcat(ts: seq<Trade>, ks: seq<Trade>)
    requires PositiveSizes(ts) && PositiveSizes(ks)
    ensures PositiveSizes(ts + ks)
  {
  }

  /** While a stored row is not emptied, its cost is the replayed cost with what the last SELL consumed and missed. */
  lemma {:induction false} UpdatedCost(p: Position, ts: seq<Trade>, ks: seq<Trade>, unseen: real)
    requires p.status == Open && p.size == Held(ts) > 0.0 && !Emptied(p.size, ks)
    requires PositiveSizes(ts) && PositiveSizes(ks) && Sorted(TradeLe, ts) && Sorted(TradeLe, ts + ks)
    requires p.cost == Cost(Replay(ts).lots) + Replay(ts).lastConsumed + unseen
    ensures var a := Replay(ts + ks);
      RowUpdated(p, ks, ReplayCost(ts)).cost ==
      Cost(a.lots) + a.lastConsumed + if HasSell(ks) then UnseenCost(ts, ks) else unseen
  {
    hide Times, Replay, ReplayCost, Sorted, Held, Balance, RowUpdated, UnseenCost, HasSell;
    if ks == [] {
      assert ts + ks == ts;
      UnchangedRow(p, ts);
      NothingSold();
    } else {
      var vs, t := ks[..|ks| - 1], ks[|ks| - 1];
      assert ks == vs + [t];
      SortedPrefix(ts, ks);
      UpdatedCost(p, ts, vs, unseen);
      UpdatedShape(p, vs, ReplayCost(ts));
      OneMoreUpdate(p, vs, t, ReplayCost(ts));
      ReplaySteps(ts, ks);
      SellLast(vs, t);
      UnseenLast(ts, vs, t);
      StaysAboveZero(p.size, ks);
      BalanceLast(p.size, vs, t);
      PositiveConcat(ts, vs);
      ReplayPositive(ts + vs);
      ReplayHolds(ts + vs);
      SortedCost(ts);
      SortedCost(ts + vs);
      CostStep(RowUpdated(p, vs, ReplayCost(ts)), Replay(ts + vs), t, ReplayCost(ts));
    }
  }

  lemma BalanceLast(start: real, vs: seq<Trade>, t: Trade)
    ensures BaseSide(t.side) == Sell ==> Balance(start, vs + [t]) == Max(0.0, Balance(start, vs) - t.size)
  {
    assert (vs + [t])[..|vs|] == vs;
  }

  lemma NothingSold()
    ensures !HasSell([])
  {
  }

  /** One fill on a row and on the account: both costs move alike, but for a SELL, which takes the given cost. */
  lemma CostStep(r: Position, a: Account, t: Trade, fifoCost: real)
    requires r.size == Size(a.lots) >= 0.0 && Positive(a.lots) && t.size > 0.0
    requires BaseSide(t.side) == Sell ==> t.size < r.size
    ensures var q, b := RowAfter(r, t, fifoCost), Step(a, t);
      match BaseSide(t.side)
      case Sell => q.cost == fifoCost && Cost(b.lots) + b.lastConsumed == Cost(a.lots)
      case _ => q.cost - r.cost == Cost(b.lots) - Cost(a.lots) && b.lastConsumed == a.lastConsumed
  {
    hide Times, Step, Cost, Size, Positive;
    match BaseSide(t.side) {
      case Buy => LotAdded(a, t);
      case Sell => PartialSell(a, t);
      case Other => OtherKeeps(a, t);
    }
  }

  lemma SellLast(vs: seq<Trade>, t: Trade)
    ensures HasSell(vs + [t]) <==> HasSell(vs) || BaseSide(t.side) == Sell
  {
    var ks := vs + [t];
    if i :| 0 <= i < |vs| && BaseSide(vs[i].side) == Sell { assert BaseSide(ks[i].side) == Sell; }
    if BaseSide(t.side) == Sell { assert BaseSide(ks[|vs|].side) == Sell; }
  }

  lemma LotAdded(a: Account, t: Trade)
    requires BaseSide(t.side) == Buy
    ensures var b := Step(a, t);
      Cost(b.lots) == Cost(a.lots) + Times(t.size, t.price) && b.lastConsumed == a.lastConsumed
  {
    hide Times;
    var b := Step(a, t);
    assert b.lots[..|a.lots|] == a.lots;
  }

  lemma PartialSell(a: Account, t: Trade)
    requires Positive(a.lots) && t.size > 0.0 && Size(a.lots) > t.size && BaseSide(t.side) == Sell
    ensures var b := Step(a, t); Cost(b.lots) + b.lastConsumed == Cost(a.lots)
  {
    hide Times;
    MatchConserves(a.lots, t.size);
    MatchQuantity(a.lots, t.size);
    SizePositive(Match(a.lots, t.size).lots);
  }

  /** Without a stored row: what the session opens, if nothing follows a BUY, is what the replay holds. */
  lemma {:induction false} OpenedAgrees(markets: map<string, Market>, ts: seq<Trade>, ks: seq<Trade>)
    requires PositiveSizes(ts) && PositiveSizes(ks) && Replay(ts).lots == [] && NothingAfterBuy(ks)
    ensures RowsAgree(RowsOpened(markets, ks), ts + ks, 0.0)
  {
    hide Times, Replay, Held, Balance, OutcomeOf;
    ReplayHolds(ts);
    SizePositive([]);
    if ks == [] {
      assert ts + ks == ts;
      L.NothingOpenNothingStale(ts);
    } else {
      var vs, t := ks[..|ks| - 1], ks[|ks| - 1];
      OpenedAgrees(markets, ts, vs);
      ReplaySteps(ts, ks);
      PositiveConcat(ts, vs);
      PositiveConcat(ts, ks);
      ReplayHolds(ts + ks);
      ReplayHolds(ts + vs);
      L.NothingOpenNothingStaleIf(ts + vs);
      assert RowsOpened(markets, vs) + [] == RowsOpened(markets, vs);
      var side := BaseSide(t.side);
      if side != Other {
        forall i | 0 <= i < |vs| ensures BaseSide(vs[i].side) != Buy {
          assert BaseSide(ks[i].side) == Buy ==> side == Other;
        }
        OpenedNone(markets, vs);
        if side == Buy { L.FirstLot(Replay(ts + vs), t); } else { L.SellNothing(Replay(ts + vs), t); }
        L.NothingOpenNothingStaleIf(ts + ks);
      } else {
        OtherKeeps(Replay(ts + vs), t);
      }
    }
  }

  lemma OtherKeeps(a: Account, t: Trade)
    requires BaseSide(t.side) == Other
    ensures Step(a, t).lots == a.lots && Step(a, t).lastConsumed == a.lastConsumed
  {
  }

  ghost predicate KeyAdmits(d: Tables, us: seq<Trade>, bot: string, token: string) {
    var ks := SelectTrades(us, bot, token);
    ks == [] ||
    (&& !L.WasRedeemed(d.positions, bot, token)
     && Sorted(TradeLe, SelectTrades(d.trades, bot, token) + ks)
     && SameHoldings(d.positions, ks, bot, token))
  }

  /** Agreement of one key carries over a session, whatever the session does to other keys. */
  lemma RowsAfterSession(
      d: Tables, us: seq<Trade>, markets: map<string, Market>, bot: string, token: string, unseen: real)
    requires OpenPositive(d.positions) && L.OneOpen(d.positions) && Fresh(d, us) && PositiveSizes(d.trades)
    requires KeyAdmits(d, us, bot, token) && Sorted(TradeLe, SelectTrades(d.trades, bot, token))
    requires RowsAgree(OpenRows(d.positions, bot, token), SelectTrades(d.trades, bot, token), unseen)
    ensures
      var before, after := OpenRows(d.positions, bot, token),
                           OpenRows(InOneSession(d, us, markets, false).positions, bot, token);
      var ts, ks := SelectTrades(d.trades, bot, token), SelectTrades(us, bot, token);
      RowsAgree(after, ts + ks, NextUnseen(unseen, before, after, ts, ks))
  {
    hide SelectTrades, L.OneOpen, RowUpdated, RowsOpened, Balance, Held, Replay, UnseenCost, Filter, Sorted, HasSell;
    hide OpenRows, L.WasRedeemed, Emptied, Cost, NothingAfterBuy;
    var ts, ks := SelectTrades(d.trades, bot, token), SelectTrades(us, bot, token);
    FoundRows(d.positions, bot, token);
    SelectPositive(d.trades, us, bot, token);
    match FindOpen(d.positions, bot, token) {
      case None =>
        SessionWithoutRow(d, us, markets, bot, token);
        if ks == [] {
          assert ts + ks == ts;
          NoRowsOpened(markets);
        } else {
          OpenedAgrees(markets, ts, ks);
        }
      case Some(i) =>
        SessionWithRow(d, us, markets, bot, token, i);
        OnlyOpenRow(InOneSession(d, us, markets, false).positions, i, bot, token);
        if ks == [] { UnchangedRow(d.positions[i], ts); }
        StoredRowAgrees(d.positions[i], ts, ks, bot, token, unseen);
    }
  }

  lemma NoRowsOpened(markets: map<string, Market>)
    ensures RowsOpened(markets, []) == []
  {
  }

  lemma SelectPositive(ts: seq<Trade>, us: seq<Trade>, bot: string, token: string)
    requires PositiveSizes(ts) && PositiveSizes(us)
    ensures PositiveSizes(SelectTrades(ts, bot, token)) && PositiveSizes(SelectTrades(us, bot, token))
  {
    L.SelectPositive(ts, bot, token);
    L.SelectPositive(us, bot, token);
  }

  lemma StoredRowAgrees(p: Position, ts: seq<Trade>, ks: seq<Trade>, bot: string, token: string, unseen: real)
    requires IsOpen(p, bot, token) && p.size > 0.0 && PositiveSizes(ts) && PositiveSizes(ks)
    requires Sorted(TradeLe, ts) && (ks == [] || Sorted(TradeLe, ts + ks)) && RowsAgree([p], ts, unseen)
    requires !Emptied(p.size, ks) || Balance(p.size, ks) == 0.0
    ensures var u := RowUpdated(p, ks, ReplayCost(ts));
      var after := if IsOpen(u, bot, token) then [u] else [];
      RowsAgree(after, ts + ks, NextUnseen(unseen, [p], after, ts, ks))
  {
    hide RowUpdated, Balance, Replay, UnseenCost, Sorted, Cost, Held, ReplayCost, Emptied;
    UpdatedShape(p, ks, ReplayCost(ts));
    PositiveConcat(ts, ks);
    HeldConcat(ts, ks);
    if ks == [] {
      assert ts + ks == ts;
      UnchangedRow(p, ts);
    } else if Emptied(p.size, ks) {
      ReplayHolds(ts + ks);
      ReplayPositive(ts + ks);
      SizePositive(Replay(ts + ks).lots);
    } else {
      StaysAboveZero(p.size, ks);
      UpdatedCost(p, ts, ks, unseen);
    }
  }

  lemma UnchangedRow(p: Position, ts: seq<Trade>)
    requires p.size >= 0.0
    ensures RowUpdated(p, [], ReplayCost(ts)) == p && !Emptied(p.size, [])
  {
  }

  lemma HeldConcat(ts: seq<Trade>, ks: seq<Trade>)
    ensures Held(ts + ks) == Balance(Held(ts), ks)
  {
    BalanceConcat(0.0, ts, ks);
  }

  // ----- one OPEN row per key -----

  lemma {:induction false} OpenRowOf(ps: seq<Position>, i: nat, bot: string, token: string)
    requires i < |ps| && IsOpen(ps[i], bot, token)
    ensures |OpenRows(ps, bot, token)| >= 1
  {
    if i < |ps| - 1 { OpenRowOf(ps[..|ps| - 1], i, bot, token); }
  }

  lemma {:induction false} TwoOpenRows(ps: seq<Position>, i: nat, j: nat, bot: string, token: string)
    requires i < j < |ps| && IsOpen(ps[i], bot, token) && IsOpen(ps[j], bot, token)
    ensures |OpenRows(ps, bot, token)| >= 2
  {
    var n := |ps| - 1;
    if j < n { TwoOpenRows(ps[..n], i, j, bot, token); } else { OpenRowOf(ps[..n], i, bot, token); }
  }

  lemma OneOpenFromRows(ps: seq<Position>)
    requires forall bot, token :: |OpenRows(ps, bot, token)| <= 1
    ensures L.OneOpen(ps)
  {
    hide OpenRows;
    forall i, j | 0 <= i < j < |ps| && ps[i].status == Open ensures !IsOpen(ps[j], ps[i].bot, ps[i].token) {
      if IsOpen(ps[j], ps[i].bot, ps[i].token) { TwoOpenRows(ps, i, j, ps[i].bot, ps[i].token); }
    }
  }

  // ----- runs -----

  datatype Op =
    | Session(us: seq<Trade>)
    | Redeem(position: nat, received: real)
    | PlaceOrder(id: string, order: Order)
    | Cursor(bot: string, key: string, since: int, fills: nat)

  /**
   * A session books new fills of keys that were not redeemed, each key's in order, and leaves every key
   * the holdings that booking one by one would. A redemption concerns an OPEN position.
   */
  ghost predicate Admits(d: Tables, op: Op) {
    match op
    case Session(us) => Fresh(d, us) && forall bot, token :: KeyAdmits(d, us, bot, token)
    case Redeem(i, _) => i < |d.positions| && d.positions[i].status == Open
    case _ => true
  }

  function Apply(d: Tables, op: Op, markets: map<string, Market>): Tables
    requires OpenPositive(d.positions) && (op.Session? ==> PositiveSizes(op.us))
  {
    match op
    case Session(us) => InOneSession(d, us, markets, false)
    case Redeem(i, received) => AfterRedeem(d, i, received)
    case PlaceOrder(id, order) => d.(orders := d.orders[id := order])
    case Cursor(bot, key, since, fills) => d.(events := d.events + [FillCursor(bot, key, since, fills)])
  }

  ghost function Run(ops: seq<Op>, markets: map<string, Market>, orders: map<string, Order>): (r: Option<Tables>)
    ensures r.Some? ==> OpenPositive(r.value.positions)
  {
    if ops == [] then Some(Tables([], [], [], orders))
    else
      var before, op := Run(ops[..|ops| - 1], markets, orders), ops[|ops| - 1];
      if before.Some? && Admits(before.value, op) then Some(Apply(before.value, op, markets)) else None
  }

  /** What the cost of a key's row misses at the end of a run, beside what its last SELL consumed. */
  ghost function Unseen(
      ops: seq<Op>, markets: map<string, Market>, orders: map<string, Order>, bot: string, token: string): real
    requires Run(ops, markets, orders).Some?
  {
    if ops == [] then 0.0
    else
      var us := ops[..|ops| - 1];
      var prior := Unseen(us, markets, orders, bot, token);
      var d, e := Run(us, markets, orders).value, Run(ops, markets, orders).value;
      match ops[|ops| - 1]
      case Session(fills) =>
        NextUnseen(prior, OpenRows(d.positions, bot, token), OpenRows(e.positions, bot, token),
                   SelectTrades(d.trades, bot, token), SelectTrades(fills, bot, token))
      case _ => prior
  }

  ghost predicate KeyGood(d: Tables, bot: string, token: string, unseen: real) {
    var ts := SelectTrades(d.trades, bot, token);
    && Sorted(TradeLe, ts)
    && (if L.WasRedeemed(d.positions, bot, token) then OpenRows(d.positions, bot, token) == []
        else RowsAgree(OpenRows(d.positions, bot, token), ts, unseen))
  }

  ghost predicate Good(ops: seq<Op>, markets: map<string, Market>, orders: map<string, Order>)
    requires Run(ops, markets, orders).Some?
  {
    var d := Run(ops, markets, orders).value;
    && L.OneOpen(d.positions) && PositiveSizes(d.trades)
    && forall bot, token :: KeyGood(d, bot, token, Unseen(ops, markets, orders, bot, token))
  }

  // ----- rows that were redeemed -----

  lemma {:induction false} RedeemedRows(d: Tables, us: seq<Trade>, markets: map<string, Market>, i: nat)
    requires OpenPositive(d.positions) && Fresh(d, us)
    ensures var qs := InOneSession(d, us, markets, false).positions;
      i < |qs| ==> (qs[i].status == Redeemed <==> i < |d.positions| && d.positions[i].status == Redeemed)
  {
    hide FifoCost, Booked, Times;
    if us != [] {
      var vs, t := us[..|us| - 1], us[|us| - 1];
      FreshPrefix(d, us);
      RedeemedRows(d, vs, markets, i);
      var e := InOneSession(d, vs, markets, false);
      SessionStep(d, e, t, markets);
      var f := FindOpen(d.positions, t.bot, t.token);
      if f.Some? { RedeemedRows(d, vs, markets, f.value); }
    }
  }

  lemma SessionRedeemsNothing(d: Tables, us: seq<Trade>, markets: map<string, Market>, bot: string, token: string)
    requires OpenPositive(d.positions) && Fresh(d, us)
    ensures L.WasRedeemed(InOneSession(d, us, markets, false).positions, bot, token) ==
            L.WasRedeemed(d.positions, bot, token)
  {
    hide InOneSession, Fresh;
    FreshIsPositive(d, us);
    var ps, qs := d.positions, InOneSession(d, us, markets, false).positions;
    forall i | 0 <= i < |qs| ensures qs[i].status == Redeemed <==> i < |ps| && ps[i].status == Redeemed {
      RedeemedRows(d, us, markets, i);
    }
    if L.WasRedeemed(ps, bot, token) {
      var j :| 0 <= j < |ps| && ps[j].bot == bot && ps[j].token == token && ps[j].status == Redeemed;
      assert qs[j].status == Redeemed && qs[j].bot == bot && qs[j].token == token;
    }
    if L.WasRedeemed(qs, bot, token) {
      var j :| 0 <= j < |qs| && qs[j].bot == bot && qs[j].token == token && qs[j].status == Redeemed;
      assert ps[j].status == Redeemed && ps[j].bot == bot && ps[j].token == token;
    }
  }

  // ----- the invariant -----

  lemma SessionKeepsKey(
      d: Tables, us: seq<Trade>, markets: map<string, Market>, bot: string, token: string, unseen: real)
    requires OpenPositive(d.positions) && L.OneOpen(d.positions) && PositiveSizes(d.trades)
    requires Fresh(d, us) && KeyAdmits(d, us, bot, token) && KeyGood(d, bot, token, unseen)
    ensures var e := InOneSession(d, us, markets, false);
      KeyGood(e, bot, token,
              NextUnseen(unseen, OpenRows(d.positions, bot, token), OpenRows(e.positions, bot, token),
                         SelectTrades(d.trades, bot, token), SelectTrades(us, bot, token)))
      && |OpenRows(e.positions, bot, token)| <= 1
  {
    hide SelectTrades, OpenRows, L.OneOpen, RowsAgree, NextUnseen, Sorted, SameHoldings, InOneSession, Fresh;
    hide L.WasRedeemed;
    FreshIsPositive(d, us);
    var ts, ks := SelectTrades(d.trades, bot, token), SelectTrades(us, bot, token);
    SessionTrades(d, us, markets);
    SelectConcat(d.trades, us, bot, token);
    SessionRedeemsNothing(d, us, markets, bot, token);
    if ks == [] { assert ts + ks == ts; }
    if L.WasRedeemed(d.positions, bot, token) {
      RedeemedStaysClosed(d, us, markets, bot, token);
    } else {
      RowsAfterSession(d, us, markets, bot, token, unseen);
      AtMostOne(OpenRows(InOneSession(d, us, markets, false).positions, bot, token), ts + ks,
                NextUnseen(unseen, OpenRows(d.positions, bot, token),
                           OpenRows(InOneSession(d, us, markets, false).positions, bot, token), ts, ks));
    }
  }

  lemma AtMostOne(rows: seq<Position>, ts: seq<Trade>, unseen: real)
    requires RowsAgree(rows, ts, unseen)
    ensures |rows| <= 1
  {
  }

  lemma RedeemedStaysClosed(d: Tables, us: seq<Trade>, markets: map<string, Market>, bot: string, token: string)
    requires OpenPositive(d.positions) && L.OneOpen(d.positions) && Fresh(d, us)
    requires SelectTrades(us, bot, token) == [] && OpenRows(d.positions, bot, token) == []
    ensures OpenRows(InOneSession(d, us, markets, false).positions, bot, token) == []
  {
    hide OpenRows, InOneSession, Fresh, L.OneOpen;
    FoundRows(d.positions, bot, token);
    SessionWithoutRow(d, us, markets, bot, token);
    NoRowsOpened(markets);
  }

  lemma {:induction false} RunGood(ops: seq<Op>, markets: map<string, Market>, orders: map<string, Order>)
    requires Run(ops, markets, orders).Some?
    ensures Good(ops, markets, orders)
  {
    hide KeyGood, KeyAdmits, L.OneOpen, PositiveSizes, NextUnseen;
    if ops == [] {
      StartGood(orders);
    } else {
      var us, op := ops[..|ops| - 1], ops[|ops| - 1];
      RunGood(us, markets, orders);
      var d, e := Run(us, markets, orders).value, Run(ops, markets, orders).value;
      match op {
        case Session(fills) => SessionGood(us, fills, markets, orders, ops);
        case Redeem(i, received) =>
          L.RedeemKeepsOneOpen(d.positions, i);
          forall bot, token ensures KeyGood(e, bot, token, Unseen(ops, markets, orders, bot, token)) {
            RedeemKeepsKey(d, i, received, bot, token, Unseen(us, markets, orders, bot, token));
          }
        case _ =>
          forall bot, token ensures KeyGood(e, bot, token, Unseen(ops, markets, orders, bot, token)) {
            SameRowsSameKey(d, e, bot, token, Unseen(us, markets, orders, bot, token));
          }
      }
    }
  }

  lemma StartGood(orders: map<string, Order>)
    ensures var d := Tables([], [], [], orders);
      L.OneOpen(d.positions) && PositiveSizes(d.trades) && forall bot, token :: KeyGood(d, bot, token, 0.0)
  {
    var d := Tables([], [], [], orders);
    forall bot, token ensures KeyGood(d, bot, token, 0.0) {
      assert SelectTrades(d.trades, bot, token) == [];
      assert OpenRows(d.positions, bot, token) == [];
    }
  }

  lemma SessionGood(
      us: seq<Op>, fills: seq<Trade>, markets: map<string, Market>, orders: map<string, Order>, ops: seq<Op>)
    requires ops == us + [Session(fills)] && Run(us, markets, orders).Some? && Good(us, markets, orders)
    requires Admits(Run(us, markets, orders).value, Session(fills)) && Run(ops, markets, orders).Some?
    requires Run(ops, markets, orders).value == InOneSession(Run(us, markets, orders).value, fills, markets, false)
    requires ops[..|ops| - 1] == us
    ensures Good(ops, markets, orders)
  {
    hide KeyGood, KeyAdmits, L.OneOpen, PositiveSizes, NextUnseen, Run, InOneSession, Fresh, OpenRows;
    var d, e := Run(us, markets, orders).value, Run(ops, markets, orders).value;
    forall bot, token
      ensures KeyGood(e, bot, token, Unseen(ops, markets, orders, bot, token))
      ensures |OpenRows(e.positions, bot, token)| <= 1
    {
      SessionKeepsKey(d, fills, markets, bot, token, Unseen(us, markets, orders, bot, token));
    }
    OneOpenFromRows(e.positions);
    SessionTrades(d, fills, markets);
    FreshIsPositive(d, fills);
    PositiveConcat(d.trades, fills);
  }

  lemma FreshIsPositive(d: Tables, us: seq<Trade>)
    requires Fresh(d, us)
    ensures PositiveSizes(us)
  {
  }

  lemma SameRowsSameKey(d: Tables, e: Tables, bot: string, token: string, unseen: real)
    requires e.trades == d.trades && e.positions == d.positions && KeyGood(d, bot, token, unseen)
    ensures KeyGood(e, bot, token, unseen)
  {
  }

  lemma RedeemKeepsKey(d: Tables, i: nat, received: real, bot: string, token: string, unseen: real)
    requires L.OneOpen(d.positions) && i < |d.positions| && d.positions[i].status == Open
    requires KeyGood(d, bot, token, unseen)
    ensures KeyGood(AfterRedeem(d, i, received), bot, token, unseen)
  {
    hide RowsAgree, Sorted, SelectTrades, L.OneOpen, OpenRows;
    var ps, p := d.positions, d.positions[i];
    var q := p.(status := Redeemed);
    var qs := ps[i := q];
    if p.bot == bot && p.token == token {
      OnlyThisRow(ps, i);
      OnlyOpenRow(qs, i, bot, token);
      assert qs[i].status == Redeemed;
    } else {
      OpenRowsUpdateOther(ps, i, q, bot, token);
      L.SameRedemptions(ps, qs, i, bot, token);
    }
  }

  lemma OnlyThisRow(ps: seq<Position>, i: nat)
    requires L.OneOpen(ps) && i < |ps| && ps[i].status == Open
    ensures forall j :: 0 <= j < |ps| && j != i ==> !IsOpen(ps[j], ps[i].bot, ps[i].token)
    ensures OpenRows(ps, ps[i].bot, ps[i].token) == [ps[i]]
  {
    forall j | 0 <= j < |ps| && j != i ensures !IsOpen(ps[j], ps[i].bot, ps[i].token) {
      assert j < i && ps[j].status == Open ==> !IsOpen(ps[i], ps[j].bot, ps[j].token);
    }
    OnlyOpenRow(ps, i, ps[i].bot, ps[i].token);
  }

  /**
   * After any run of such sessions, redemptions and orders, every key that was not redeemed has one OPEN
   * row of the replayed size and none if nothing is held; its cost is the replayed cost, what its last
   * partial SELL consumed, and what that SELL did not see of its own session.
   */
  lemma PositionsAgreeWithReplay(
      ops: seq<Op>, markets: map<string, Market>, orders: map<string, Order>, bot: string, token: string)
    requires Run(ops, markets, orders).Some?
    ensures var d := Run(ops, markets, orders).value;
      var rows, ts := OpenRows(d.positions, bot, token), SelectTrades(d.trades, bot, token);
      !L.WasRedeemed(d.positions, bot, token) ==>
        && Sizes(rows) == (if Held(ts) > 0.0 then [Held(ts)] else [])
        && (rows != [] ==> rows[0].cost == Cost(Replay(ts).lots) + Replay(ts).lastConsumed
                                           + Unseen(ops, markets, orders, bot, token))
  {
    hide Run, Unseen, Replay, Held, SelectTrades, OpenRows, L.OneOpen, L.WasRedeemed;
    RunGood(ops, markets, orders);
    var d := Run(ops, markets, orders).value;
    assert KeyGood(d, bot, token, Unseen(ops, markets, orders, bot, token));
    L.SelectPositive(d.trades, bot, token);
    ReplayHolds(SelectTrades(d.trades, bot, token));
    SizePositive([]);
  }

  // ----- polls -----

  /** A deployed poll that commits is such a session, followed by its cursor; one that fails changes nothing. */
  lemma PollIsSession(
      d: Tables, feed: seq<FillImport.Delivery>, p: FillImport.Poller, markets: map<string, Market>)
    requires OpenPositive(d.positions) && FillImport.Sized(feed) && DistinctIds(d.trades)
    ensures
      var g := FillImport.Import(d, feed, p, markets, false);
      var us, latest := Added(d, g), FillImport.Latest(FillImport.CursorOf(d.events, p.key), feed);
      var e := FillImport.Poll(d, feed, p, markets, false);
      if !Commits(d, g) then e == d
      else
        Fresh(d, us) &&
        (var s := Apply(d, Session(us), markets);
         e == if latest > FillImport.CursorOf(d.events, p.key)
              then Apply(s, Cursor(p.bot, p.key, latest, |us|), markets) else s)
  {
    hide FillImport.Import, InOneSession, FillImport.Latest, FillImport.CursorOf, HasTrade;
    FillImport.ImportBooksAdded(d, feed, p, markets, false);
    var g := FillImport.Import(d, feed, p, markets, false);
    var us := Added(d, g);
    FillImport.CursorOnly(d, g, feed, p);
    if Commits(d, g) {
      FillImport.SessionOrders(d, us, markets, false);
      assert g.trades == d.trades + us;
      FillImport.DistinctAdded(d.trades, us);
    }
  }

  // ----- money -----

  function RowsCost(rows: seq<Position>): real {
    if rows == [] then 0.0 else rows[0].cost
  }

  ghost function CostsOf(ps: seq<Position>, bot: string, tokens: set<string>): map<string, real> {
    map k | k in tokens :: RowsCost(OpenRows(ps, bot, k))
  }

  /** With one OPEN row per key, the summed basis of a bot is the sum over its tokens. */
  lemma {:induction false} BasisIsSum(ps: seq<Position>, bot: string, tokens: set<string>)
    requires L.OneOpen(ps)
    requires forall i :: 0 <= i < |ps| && ps[i].bot == bot && ps[i].status == Open ==> ps[i].token in tokens
    ensures L.OpenBasis(ps, bot) == Sum(CostsOf(ps, bot, tokens), Same)
  {
    hide OpenRows, CostsOf, L.OneOpen, Sum;
    if ps == [] {
      NoRowsCost(bot, tokens);
    } else {
      var qs, p := ps[..|ps| - 1], ps[|ps| - 1];
      assert ps == qs + [p];
      OneOpenBefore(qs, p);
      BasisIsSum(qs, bot, tokens);
      var m := CostsOf(qs, bot, tokens);
      if p.bot == bot && p.status == Open {
        OneMoreCost(qs, p, tokens);
        SumUpdate(m, p.token, p.cost, Same);
      } else {
        SameCosts(qs, p, bot, tokens);
      }
    }
  }

  lemma OneOpenBefore(qs: seq<Position>, p: Position)
    requires L.OneOpen(qs + [p])
    ensures L.OneOpen(qs)
  {
    var ps := qs + [p];
    forall i, j | 0 <= i < j < |qs| && qs[i].status == Open ensures !IsOpen(qs[j], qs[i].bot, qs[i].token) {
      assert ps[i] == qs[i] && ps[j] == qs[j];
    }
  }

  lemma OneMoreCost(qs: seq<Position>, p: Position, tokens: set<string>)
    requires L.OneOpen(qs + [p]) && p.status == Open && p.token in tokens
    ensures CostsOf(qs + [p], p.bot, tokens) == CostsOf(qs, p.bot, tokens)[p.token := p.cost]
    ensures p.token in CostsOf(qs, p.bot, tokens) && CostsOf(qs, p.bot, tokens)[p.token] == 0.0
  {
    hide OpenRows, L.OneOpen;
    OnlyThisRow(qs + [p], |qs|);
    forall k | k in tokens ensures OpenRows(qs + [p], p.bot, k) ==
      if p.token == k then OpenRows(qs, p.bot, k) + [p] else OpenRows(qs, p.bot, k)
    {
      OpenRowsAppend(qs, p, p.bot, k);
    }
    assert OpenRows(qs, p.bot, p.token) == [];
  }

  lemma SameCosts(qs: seq<Position>, p: Position, bot: string, tokens: set<string>)
    requires p.bot != bot || p.status != Open
    ensures CostsOf(qs + [p], bot, tokens) == CostsOf(qs, bot, tokens)
  {
    hide OpenRows;
    forall k | k in tokens ensures OpenRows(qs + [p], bot, k) == OpenRows(qs, bot, k) {
      OpenRowsAppend(qs, p, bot, k);
    }
  }

  lemma NoRowsCost(bot: string, tokens: set<string>)
    ensures Sum(CostsOf([], bot, tokens), Same) == 0.0
  {
    assert OpenRows([], bot, "") == [];
    SumZero(CostsOf([], bot, tokens), Same);
  }

  /** Replayed cost of a key with what its row's cost misses. */
  ghost function FullCost(d: Tables, bot: string, token: string, unseen: real): real {
    var a := Replay(SelectTrades(d.trades, bot, token));
    Cost(a.lots) + a.lastConsumed + unseen
  }

  ghost function RedeemedCost(
      ops: seq<Op>, markets: map<string, Market>, orders: map<string, Order>, bot: string, token: string): real
    requires Run(ops, markets, orders).Some?
  {
    var d := Run(ops, markets, orders).value;
    if L.WasRedeemed(d.positions, bot, token) then FullCost(d, bot, token, Unseen(ops, markets, orders, bot, token))
    else 0.0
  }

  ghost function RedeemedCosts(
      ops: seq<Op>, markets: map<string, Market>, orders: map<string, Order>, bot: string, tokens: set<string>)
    : map<string, real>
    requires Run(ops, markets, orders).Some?
  {
    map k | k in tokens :: RedeemedCost(ops, markets, orders, bot, k)
  }

  /** The tokens of a bot: traded, or in a row of its. */
  ghost function Tokens(d: Tables, bot: string): set<string> {
    ReplayAll(OfBot(d.trades, bot)).Keys + set i | 0 <= i < |d.positions| :: d.positions[i].token
  }

  ghost predicate CoversRedeemed(ps: seq<Position>, bot: string, tokens: set<string>) {
    forall k :: L.WasRedeemed(ps, bot, k) ==> k in tokens
  }

  /** Keys that were redeemed are left alone afterwards. */
  lemma RedeemedCostStays(
      us: seq<Op>, op: Op, markets: map<string, Market>, orders: map<string, Order>, bot: string, token: string)
    requires Run(us + [op], markets, orders).Some? && Run(us, markets, orders).Some? && !op.Redeem?
    requires (us + [op])[..|us|] == us
    ensures RedeemedCost(us + [op], markets, orders, bot, token) == RedeemedCost(us, markets, orders, bot, token)
    ensures L.WasRedeemed(Run(us + [op], markets, orders).value.positions, bot, token) ==
            L.WasRedeemed(Run(us, markets, orders).value.positions, bot, token)
  {
    hide Replay, SelectTrades, OpenRows, L.WasRedeemed, InOneSession, Fresh, SameHoldings, Cost;
    var d := Run(us, markets, orders).value;
    match op {
      case Session(fills) =>
        FreshIsPositive(d, fills);
        SessionRedeemsNothing(d, fills, markets, bot, token);
        SessionTrades(d, fills, markets);
        SelectConcat(d.trades, fills, bot, token);
        assert KeyAdmits(d, fills, bot, token);
        var ts := SelectTrades(d.trades, bot, token);
        assert ts + [] == ts;
      case _ =>
    }
  }

  lemma SessionEvents(d: Tables, us: seq<Trade>, markets: map<string, Market>, bot: string)
    requires OpenPositive(d.positions) && PositiveSizes(us)
    ensures var es := InOneSession(d, us, markets, false).events;
      L.RedeemedBasis(es, bot) == L.RedeemedBasis(d.events, bot)
    decreases |us|
  {
    hide PositionsAfter, OrdersAfter, SellsNothing;
    if us != [] {
      SessionEvents(d, us[..|us| - 1], markets, bot);
      var e, r := InOneSession(d, us[..|us| - 1], markets, false), InOneSession(d, us, markets, false);
      if r.events != e.events { assert r.events[..|e.events|] == e.events; }
    }
  }

  lemma {:induction false} RedeemedIsSum(
      ops: seq<Op>, markets: map<string, Market>, orders: map<string, Order>, bot: string, tokens: set<string>)
    requires Run(ops, markets, orders).Some?
    requires CoversRedeemed(Run(ops, markets, orders).value.positions, bot, tokens)
    ensures L.RedeemedBasis(Run(ops, markets, orders).value.events, bot) ==
            Sum(RedeemedCosts(ops, markets, orders, bot, tokens), Same)
    decreases |ops|, 0
  {
    hide L.WasRedeemed, FullCost, InOneSession, Fresh, KeyAdmits;
    if ops == [] {
      NothingRedeemed(markets, orders, bot, tokens);
    } else {
      var us, op := ops[..|ops| - 1], ops[|ops| - 1];
      assert ops == us + [op];
      var d := Run(us, markets, orders).value;
      match op {
        case Redeem(i, received) => RedeemOne(us, i, received, markets, orders, bot, tokens);
        case Session(fills) =>
          OthersKeepRedeemed(us, op, markets, orders, bot, tokens);
          RedeemedIsSum(us, markets, orders, bot, tokens);
          FreshIsPositive(d, fills);
          SessionEvents(d, fills, markets, bot);
        case PlaceOrder(_, _) =>
          OthersKeepRedeemed(us, op, markets, orders, bot, tokens);
          RedeemedIsSum(us, markets, orders, bot, tokens);
        case Cursor(b, key, since, fills) =>
          OthersKeepRedeemed(us, op, markets, orders, bot, tokens);
          RedeemedIsSum(us, markets, orders, bot, tokens);
          CursorRedeemsNothing(d.events, b, key, since, fills, bot);
      }
    }
  }

  lemma OthersKeepRedeemed(
      us: seq<Op>, op: Op, markets: map<string, Market>, orders: map<string, Order>, bot: string, tokens: set<string>)
    requires Run(us + [op], markets, orders).Some? && Run(us, markets, orders).Some? && !op.Redeem?
    requires (us + [op])[..|us|] == us
    requires CoversRedeemed(Run(us + [op], markets, orders).value.positions, bot, tokens)
    ensures CoversRedeemed(Run(us, markets, orders).value.positions, bot, tokens)
    ensures Sum(RedeemedCosts(us + [op], markets, orders, bot, tokens), Same) ==
            Sum(RedeemedCosts(us, markets, orders, bot, tokens), Same)
  {
    hide L.WasRedeemed, RedeemedCost, Run;
    forall k ensures RedeemedCost(us + [op], markets, orders, bot, k) == RedeemedCost(us, markets, orders, bot, k)
      && L.WasRedeemed(Run(us + [op], markets, orders).value.positions, bot, k) ==
         L.WasRedeemed(Run(us, markets, orders).value.positions, bot, k)
    {
      RedeemedCostStays(us, op, markets, orders, bot, k);
    }
    SumSame(RedeemedCosts(us + [op], markets, orders, bot, tokens), Same,
            RedeemedCosts(us, markets, orders, bot, tokens), Same);
  }

  lemma CursorRedeemsNothing(es: seq<Event>, b: string, key: string, since: int, fills: nat, bot: string)
    ensures L.RedeemedBasis(es + [FillCursor(b, key, since, fills)], bot) == L.RedeemedBasis(es, bot)
  {
    assert (es + [FillCursor(b, key, since, fills)])[..|es|] == es;
  }

  lemma NothingRedeemed(markets: map<string, Market>, orders: map<string, Order>, bot: string, tokens: set<string>)
    ensures L.RedeemedBasis(Run([], markets, orders).value.events, bot) ==
            Sum(RedeemedCosts([], markets, orders, bot, tokens), Same)
  {
    SumZero(RedeemedCosts([], markets, orders, bot, tokens), Same);
  }

  lemma RedeemStep(
      us: seq<Op>, i: nat, received: real, markets: map<string, Market>, orders: map<string, Order>)
    requires var ops := us + [Redeem(i, received)];
      Run(ops, markets, orders).Some? && Run(us, markets, orders).Some? && ops[..|us|] == us
    ensures var d := Run(us, markets, orders).value;
      && i < |d.positions| && d.positions[i].status == Open
      && Run(us + [Redeem(i, received)], markets, orders).value == AfterRedeem(d, i, received)
  {
  }

  lemma CoveredBefore(ps: seq<Position>, i: nat, bot: string, tokens: set<string>)
    requires i < |ps| && ps[i].status == Open
    requires CoversRedeemed(ps[i := ps[i].(status := Redeemed)], bot, tokens)
    ensures CoversRedeemed(ps, bot, tokens) && (ps[i].bot == bot ==> ps[i].token in tokens)
  {
    hide L.WasRedeemed;
    forall k ensures L.WasRedeemed(ps[i := ps[i].(status := Redeemed)], bot, k) ==
      (L.WasRedeemed(ps, bot, k) || (ps[i].bot == bot && ps[i].token == k))
    {
      RedeemedNow(ps, i, bot, k);
    }
    if ps[i].bot == bot { RedeemedNow(ps, i, bot, ps[i].token); }
  }

  lemma RedemptionLast(es: seq<Event>, b: string, i: nat, received: real, cost: real, bot: string)
    ensures L.RedeemedBasis(es + [Redemption(b, i, received, cost)], bot) ==
            L.RedeemedBasis(es, bot) + if b == bot then cost else 0.0
  {
    assert (es + [Redemption(b, i, received, cost)])[..|es|] == es;
  }

  lemma UnseenStays(
      us: seq<Op>, i: nat, received: real, markets: map<string, Market>, orders: map<string, Order>,
      bot: string, token: string)
    requires var ops := us + [Redeem(i, received)];
      Run(ops, markets, orders).Some? && Run(us, markets, orders).Some? && ops[..|us|] == us
    ensures Unseen(us + [Redeem(i, received)], markets, orders, bot, token) == Unseen(us, markets, orders, bot, token)
  {
    hide NextUnseen, Run;
    var ops := us + [Redeem(i, received)];
    assert ops[|ops| - 1] == Redeem(i, received) && ops[..|ops| - 1] == us;
  }

  /** What a redemption does to the redeemed cost of each token. */
  lemma RedeemedCostNow(
      us: seq<Op>, i: nat, received: real, markets: map<string, Market>, orders: map<string, Order>,
      bot: string, token: string)
    requires var ops := us + [Redeem(i, received)];
      Run(ops, markets, orders).Some? && Run(us, markets, orders).Some? && ops[..|us|] == us
    requires i < |Run(us, markets, orders).value.positions|
    ensures var p := Run(us, markets, orders).value.positions[i];
      var before, after := RedeemedCost(us, markets, orders, bot, token),
                           RedeemedCost(us + [Redeem(i, received)], markets, orders, bot, token);
      if p.bot == bot && p.token == token then before == 0.0 && after == p.cost else after == before
  {
    hide FullCost, L.WasRedeemed, OpenRows, L.OneOpen, KeyGood, NextUnseen;
    var ops := us + [Redeem(i, received)];
    var d, e := Run(us, markets, orders).value, Run(ops, markets, orders).value;
    RedeemStep(us, i, received, markets, orders);
    RedeemedNow(d.positions, i, bot, token);
    var unseen := Unseen(us, markets, orders, bot, token);
    UnseenStays(us, i, received, markets, orders, bot, token);
    SameFullCost(d, e, bot, token, unseen);
    var p := d.positions[i];
    if p.bot == bot && p.token == token {
      RunGood(us, markets, orders);
      assert KeyGood(d, bot, token, unseen);
      OpenCostIsFull(d, i, unseen);
    }
  }

  /** A redemption moves the full cost of its key from the OPEN rows to the redeemed ones. */
  lemma RedeemOne(
      us: seq<Op>, i: nat, received: real, markets: map<string, Market>, orders: map<string, Order>,
      bot: string, tokens: set<string>)
    requires var ops := us + [Redeem(i, received)];
      && Run(ops, markets, orders).Some? && Run(us, markets, orders).Some? && ops[..|us|] == us
      && CoversRedeemed(Run(ops, markets, orders).value.positions, bot, tokens)
    ensures L.RedeemedBasis(Run(us + [Redeem(i, received)], markets, orders).value.events, bot) ==
            Sum(RedeemedCosts(us + [Redeem(i, received)], markets, orders, bot, tokens), Same)
    decreases |us|, 1
  {
    hide RedeemedCost, Run, Sum, Unseen;
    var op, ops := Redeem(i, received), us + [Redeem(i, received)];
    var d, e := Run(us, markets, orders).value, Run(ops, markets, orders).value;
    RedeemStep(us, i, received, markets, orders);
    var p := d.positions[i];
    CoveredBefore(d.positions, i, bot, tokens);
    RedeemedIsSum(us, markets, orders, bot, tokens);
    RedemptionLast(d.events, p.bot, i, received, p.cost, bot);
    var m, n := RedeemedCosts(us, markets, orders, bot, tokens), RedeemedCosts(ops, markets, orders, bot, tokens);
    forall k | k in tokens
      ensures n[k] == (if p.bot == bot && p.token == k then p.cost else m[k])
      ensures p.bot == bot && p.token == k ==> m[k] == 0.0
    {
      RedeemedCostNow(us, i, received, markets, orders, bot, k);
    }
    if p.bot == bot {
      assert n == m[p.token := p.cost];
      SumUpdate(m, p.token, p.cost, Same);
    } else {
      assert n == m;
    }
  }

  lemma SameFullCost(d: Tables, e: Tables, bot: string, token: string, unseen: real)
    requires d.trades == e.trades
    ensures FullCost(e, bot, token, unseen) == FullCost(d, bot, token, unseen)
  {
  }

  lemma RedeemedNow(ps: seq<Position>, i: nat, bot: string, token: string)
    requires i < |ps| && ps[i].status == Open
    ensures L.WasRedeemed(ps[i := ps[i].(status := Redeemed)], bot, token) ==
            (L.WasRedeemed(ps, bot, token) || (ps[i].bot == bot && ps[i].token == token))
  {
    var qs := ps[i := ps[i].(status := Redeemed)];
    if L.WasRedeemed(ps, bot, token) {
      var j :| 0 <= j < |ps| && ps[j].bot == bot && ps[j].token == token && ps[j].status == Redeemed;
      assert qs[j] == ps[j];
    }
    if ps[i].bot == bot && ps[i].token == token { assert qs[i].status == Redeemed; }
    if L.WasRedeemed(qs, bot, token) {
      var j :| 0 <= j < |qs| && qs[j].bot == bot && qs[j].token == token && qs[j].status == Redeemed;
      if j != i { assert ps[j] == qs[j]; }
    }
  }

  lemma OpenCostIsFull(d: Tables, i: nat, unseen: real)
    requires L.OneOpen(d.positions) && i < |d.positions| && d.positions[i].status == Open
    requires KeyGood(d, d.positions[i].bot, d.positions[i].token, unseen)
    ensures !L.WasRedeemed(d.positions, d.positions[i].bot, d.positions[i].token)
    ensures d.positions[i].cost == FullCost(d, d.positions[i].bot, d.positions[i].token, unseen)
  {
    hide OpenRows, L.OneOpen, L.WasRedeemed, SelectTrades, Replay;
    OnlyThisRow(d.positions, i);
  }

  ghost function Gaps(
      ops: seq<Op>, markets: map<string, Market>, orders: map<string, Order>, bot: string, tokens: set<string>)
    : map<string, real>
    requires Run(ops, markets, orders).Some?
  {
    map k | k in tokens ::
      Replay(SelectTrades(Run(ops, markets, orders).value.trades, bot, k)).lastConsumed
      + Unseen(ops, markets, orders, bot, k)
  }

  ghost function ReplayedCosts(d: Tables, bot: string, tokens: set<string>): map<string, real> {
    map k | k in tokens :: Cost(Replay(SelectTrades(d.trades, bot, k)).lots)
  }

  lemma ReplayedIsOpenCost(d: Tables, bot: string, tokens: set<string>)
    requires ReplayAll(OfBot(d.trades, bot)).Keys <= tokens
    ensures Sum(ReplayedCosts(d, bot, tokens), Same) == OpenCost(OfBot(d.trades, bot))
  {
    hide Replay, ReplayAll, Cost;
    var us := OfBot(d.trades, bot);
    forall k | k in tokens
      ensures k in ReplayAll(us) ==> Get(ReplayAll(us), k) == Replay(SelectTrades(d.trades, bot, k))
      ensures k !in ReplayAll(us) ==> Cost(Replay(SelectTrades(d.trades, bot, k)).lots) == 0.0
    {
      ReplayAllAt(us, k);
      NothingReplays();
    }
    SumWithin(ReplayAll(us), CostOf, ReplayedCosts(d, bot, tokens));
  }

  lemma NothingReplays()
    ensures Cost(Replay([]).lots) == 0.0 && Replay([]).lastConsumed == 0.0
  {
  }

  /** Open and redeemed bases of a bot together are its replayed open cost and what the stored costs miss. */
  lemma BasesAreCosts(ops: seq<Op>, markets: map<string, Market>, orders: map<string, Order>, bot: string)
    requires Run(ops, markets, orders).Some?
    ensures var d := Run(ops, markets, orders).value;
      L.OpenBasis(d.positions, bot) + L.RedeemedBasis(d.events, bot) ==
      OpenCost(OfBot(d.trades, bot)) + Sum(Gaps(ops, markets, orders, bot, Tokens(d, bot)), Same)
  {
    hide Run, Unseen, OpenCost, L.OneOpen, OpenRows, Replay, Cost, SelectTrades, L.OpenBasis, L.RedeemedBasis;
    hide ReplayAll;
    var d := Run(ops, markets, orders).value;
    var ts := Tokens(d, bot);
    RunGood(ops, markets, orders);
    BasisIsSum(d.positions, bot, ts);
    assert CoversRedeemed(d.positions, bot, ts);
    RedeemedIsSum(ops, markets, orders, bot, ts);
    ReplayedIsOpenCost(d, bot, ts);
    var full := map k | k in ts :: FullCost(d, bot, k, Unseen(ops, markets, orders, bot, k));
    forall k | k in ts
      ensures full[k] == CostsOf(d.positions, bot, ts)[k] + RedeemedCosts(ops, markets, orders, bot, ts)[k]
    {
      assert KeyGood(d, bot, k, Unseen(ops, markets, orders, bot, k));
      KeyCosts(d, bot, k, Unseen(ops, markets, orders, bot, k));
    }
    SumAdd(CostsOf(d.positions, bot, ts), RedeemedCosts(ops, markets, orders, bot, ts), full);
    SumAdd(ReplayedCosts(d, bot, ts), Gaps(ops, markets, orders, bot, ts), full);
  }

  lemma KeyCosts(d: Tables, bot: string, token: string, unseen: real)
    requires KeyGood(d, bot, token, unseen) && PositiveSizes(d.trades)
    ensures FullCost(d, bot, token, unseen) ==
      RowsCost(OpenRows(d.positions, bot, token))
      + if L.WasRedeemed(d.positions, bot, token) then FullCost(d, bot, token, unseen) else 0.0
  {
    hide OpenRows, Replay, SelectTrades, L.WasRedeemed, Held;
    L.SelectPositive(d.trades, bot, token);
    L.NothingOpenNothingStaleIf(SelectTrades(d.trades, bot, token));
    SizePositive([]);
  }

  /**
   * Conservation over any run of such sessions, redemptions and orders: realised P&L is net cash plus
   * redemption proceeds plus the cost basis of OPEN positions, less the notional of unmatched SELL
   * remainders, less what the last partial SELLs consumed and did not see of their own sessions.
   */
  lemma SessionConservation(ops: seq<Op>, markets: map<string, Market>, orders: map<string, Order>, bot: string)
    requires Run(ops, markets, orders).Some?
    ensures var d := Run(ops, markets, orders).value;
      var ts := OfBot(d.trades, bot);
      RealisedPnl(d, bot, None) ==
      Cash(ts) + L.Received(d.events, bot) + L.OpenBasis(d.positions, bot)
      - OrphanNotional(ts) - Sum(Gaps(ops, markets, orders, bot, Tokens(d, bot)), Same)
  {
    hide Run, Unseen, OpenCost, L.OneOpen, OpenRows, Replay, Cash, OrphanNotional, L.OpenBasis, L.RedeemedBasis;
    hide SelectTrades, Sorted, RowsAgree, Realised, Tokens, Gaps;
    RunGood(ops, markets, orders);
    var d := Run(ops, markets, orders).value;
    FilterPositive(d.trades, (t: Trade) => t.bot == bot);
    forall token ensures Sorted(TradeLe, SelectTrades(d.trades, bot, token)) {
      assert KeyGood(d, bot, token, Unseen(ops, markets, orders, bot, token));
    }
    L.RealisedOfOrdered(d.trades, bot);
    RealisedIsCash(OfBot(d.trades, bot));
    BasesAreCosts(ops, markets, orders, bot);
    L.RedemptionsSplit(d.events, bot);
    SinceNone(d.trades, bot);
  }

  lemma SinceNone(ts: seq<Trade>, bot: string)
    ensures Since(OfBot(ts, bot), None) == OfBot(ts, bot)
  {
  }
}
