/**
 * Several fills booked in one session, against booking each in a session of its own. Without
 * flushing the two differ, because a session's queries do not see what the session has done.
 */
module Sessions {
  import opened Sums
  import opened Sorting
  import opened Decimals
  import opened Trades
  import opened Fifo
  import opened Portfolio
  import opened Ledger

  /** Fills that will all be stored. */
  ghost predicate Fresh(d: Tables, us: seq<Trade>) {
    && PositiveSizes(us) && DistinctIds(us) && OrdersStored(d.orders, us)
    && forall i :: 0 <= i < |us| ==> !HasTrade(d.trades, us[i].id)
  }

  /** What a session that began on d works on after booking us. */
  function InOneSession(d: Tables, us: seq<Trade>, markets: map<string, Market>, flush: bool): (r: Tables)
    requires OpenPositive(d.positions) && PositiveSizes(us)
    ensures InSession(d, r)
  {
    if us == [] then d
    else
      var e := InOneSession(d, us[..|us| - 1], markets, flush);
      BookedInSession(d, e, us[|us| - 1], markets, flush);
      Booked(d, e, us[|us| - 1], markets, flush)
  }

  function OneByOne(d: Tables, us: seq<Trade>, markets: map<string, Market>, flush: bool): (r: Tables)
    requires OpenPositive(d.positions) && PositiveSizes(us)
    ensures OpenPositive(r.positions)
  {
    if us == [] then d
    else
      var e := OneByOne(d, us[..|us| - 1], markets, flush);
      OpenStaysPositive(e, us[|us| - 1], markets, flush);
      AfterFill(e, us[|us| - 1], markets, flush)
  }

  /** With flushing it makes no difference. */
  lemma {:induction false} FlushedSessionIsOneByOne(d: Tables, us: seq<Trade>, markets: map<string, Market>)
    requires OpenPositive(d.positions) && PositiveSizes(us) && OrdersStored(d.orders, us)
    ensures InOneSession(d, us, markets, true) == OneByOne(d, us, markets, true)
    ensures OneByOne(d, us, markets, true).orders.Keys == d.orders.Keys
  {
    hide PositionsAfter, EventsAfter, OrdersAfter;
    if us != [] { FlushedSessionIsOneByOne(d, us[..|us| - 1], markets); }
  }

  // ----- the trades table -----

  lemma FreshPrefix(d: Tables, us: seq<Trade>)
    requires Fresh(d, us) && us != []
    ensures Fresh(d, us[..|us| - 1])
    ensures !HasTrade(d.trades + us[..|us| - 1], us[|us| - 1].id)
  {
    var vs, t := us[..|us| - 1], us[|us| - 1];
    forall i | 0 <= i < |d.trades + vs| ensures (d.trades + vs)[i].id != t.id {
      if i >= |d.trades| { assert (d.trades + vs)[i] == us[i - |d.trades|]; }
    }
  }

  lemma {:induction false} SessionTrades(d: Tables, us: seq<Trade>, markets: map<string, Market>)
    requires OpenPositive(d.positions) && Fresh(d, us)
    ensures InOneSession(d, us, markets, false).trades == d.trades + us
  {
    hide PositionsAfter, EventsAfter, OrdersAfter;
    if us != [] {
      FreshPrefix(d, us);
      SessionTrades(d, us[..|us| - 1], markets);
    }
  }

  lemma {:induction false} OneByOneTrades(d: Tables, us: seq<Trade>, markets: map<string, Market>, flush: bool)
    requires OpenPositive(d.positions) && Fresh(d, us)
    ensures OneByOne(d, us, markets, flush).trades == d.trades + us
    ensures OneByOne(d, us, markets, flush).orders.Keys == d.orders.Keys
  {
    hide PositionsAfter, EventsAfter, OrdersAfter;
    if us != [] {
      FreshPrefix(d, us);
      OneByOneTrades(d, us[..|us| - 1], markets, flush);
    }
  }

  // ----- the OPEN rows of one key -----

  function OpenRows(ps: seq<Position>, bot: string, token: string): seq<Position> {
    Filter(ps, (p: Position) => IsOpen(p, bot, token))
  }

  function Sizes(rows: seq<Position>): seq<real> {
    seq(|rows|, i requires 0 <= i < |rows| => rows[i].size)
  }

  lemma OpenRowsAppend(ps: seq<Position>, q: Position, bot: string, token: string)
    ensures OpenRows(ps + [q], bot, token) ==
            if IsOpen(q, bot, token) then OpenRows(ps, bot, token) + [q] else OpenRows(ps, bot, token)
  {
    assert (ps + [q])[..|ps|] == ps;
  }

  lemma {:induction false} OpenRowsUpdateOther(ps: seq<Position>, i: nat, q: Position, bot: string, token: string)
    requires i < |ps| && !IsOpen(ps[i], bot, token) && !IsOpen(q, bot, token)
    ensures OpenRows(ps[i := q], bot, token) == OpenRows(ps, bot, token)
  {
    var n := |ps| - 1;
    if i < n {
      assert ps[i := q][..n] == ps[..n][i := q];
      OpenRowsUpdateOther(ps[..n], i, q, bot, token);
    } else {
      assert ps[i := q][..n] == ps[..n];
    }
  }

  lemma {:induction false} OnlyOpenRow(ps: seq<Position>, i: nat, bot: string, token: string)
    requires i < |ps| && forall j :: 0 <= j < |ps| && j != i ==> !IsOpen(ps[j], bot, token)
    ensures OpenRows(ps, bot, token) == if IsOpen(ps[i], bot, token) then [ps[i]] else []
  {
    var n := |ps| - 1;
    var p := (p: Position) => IsOpen(p, bot, token);
    if i < n {
      OnlyOpenRow(ps[..n], i, bot, token);
    } else {
      FilterNone(ps[..n], p);
    }
  }

  lemma NoOpenRows(ps: seq<Position>, bot: string, token: string)
    requires FindOpen(ps, bot, token).None?
    ensures OpenRows(ps, bot, token) == []
  {
    FilterNone(ps, (p: Position) => IsOpen(p, bot, token));
  }

  /** With one OPEN row per key at most, the row found is all there is. */
  lemma FoundRows(ps: seq<Position>, bot: string, token: string)
    requires OneOpen(ps)
    ensures OpenRows(ps, bot, token) ==
      match FindOpen(ps, bot, token) case None => [] case Some(i) => [ps[i]]
    ensures FindOpen(ps, bot, token).Some? ==>
      forall j :: 0 <= j < |ps| && j != FindOpen(ps, bot, token).value ==> !IsOpen(ps[j], bot, token)
  {
    match FindOpen(ps, bot, token) {
      case None => NoOpenRows(ps, bot, token);
      case Some(i) =>
        forall j | 0 <= j < |ps| && j != i ensures !IsOpen(ps[j], bot, token) {
          assert j < i && ps[j].status == Open ==> !IsOpen(ps[i], ps[j].bot, ps[j].token);
          assert i < j ==> !IsOpen(ps[j], ps[i].bot, ps[i].token);
        }
        OnlyOpenRow(ps, i, bot, token);
    }
  }

  // ----- one key of a session without flushing -----

  /** With no stored OPEN row every BUY opens a row, and a SELL finds none. */
  function RowsOpened(markets: map<string, Market>, ks: seq<Trade>): seq<Position> {
    if ks == [] then []
    else
      var t := ks[|ks| - 1];
      RowsOpened(markets, ks[..|ks| - 1]) + if BaseSide(t.side) == Buy then [Opened(markets, t)] else []
  }

  /** What one fill does to a row it finds. */
  function RowAfter(r: Position, t: Trade, fifoCost: real): (q: Position)
    requires r.size >= 0.0 && t.size > 0.0
    ensures q.size >= 0.0 && q.bot == r.bot && q.token == r.token
  {
    match BaseSide(t.side)
    case Buy => Increased(r, t)
    case Sell => if r.size <= 0.0 then r else Reduced(r, t, fifoCost)
    case Other => r
  }

  /** A stored OPEN row takes all fills, even after one of them has closed it; SELLs use the stored trades' cost. */
  function RowUpdated(p: Position, ks: seq<Trade>, fifoCost: real): (r: Position)
    requires p.size >= 0.0 && PositiveSizes(ks)
    ensures r.size >= 0.0
  {
    if ks == [] then p
    else
      RowAfter(RowUpdated(p, ks[..|ks| - 1], fifoCost), ks[|ks| - 1], fifoCost)
  }

  lemma SelectConcat(ts: seq<Trade>, us: seq<Trade>, bot: string, token: string)
    ensures SelectTrades(ts + us, bot, token) == SelectTrades(ts, bot, token) + SelectTrades(us, bot, token)
  {
    FilterConcat(ts, us, (t: Trade) => t.bot == bot);
    FilterConcat(OfBot(ts, bot), OfBot(us, bot), (t: Trade) => t.token == token);
  }

  lemma SelectPrefix(us: seq<Trade>, bot: string, token: string)
    requires us != []
    ensures var t := us[|us| - 1];
      SelectTrades(us, bot, token) ==
      SelectTrades(us[..|us| - 1], bot, token) + if t.bot == bot && t.token == token then [t] else []
  {
    assert us == us[..|us| - 1] + [us[|us| - 1]];
    SelectLast(us[..|us| - 1], us[|us| - 1], bot, token);
  }

  /** In a session without flushing, one fill appends a row or updates the row that was OPEN at its start. */
  lemma SessionStep(d: Tables, e: Tables, t: Trade, markets: map<string, Market>)
    requires InSession(d, e) && t.size > 0.0 && !HasTrade(d.trades, t.id)
    ensures var q := Booked(d, e, t, markets, false).positions;
      match FindOpen(d.positions, t.bot, t.token)
      case None => q == if BaseSide(t.side) == Buy then e.positions + [Opened(markets, t)] else e.positions
      case Some(i) =>
        && i < |d.positions| && e.positions[i].size >= 0.0
        && e.positions[i].bot == t.bot && e.positions[i].token == t.token
        && q == e.positions[i := RowAfter(e.positions[i], t, FifoCost(d.trades, t.bot, t.token))]
  {
    hide FifoCost, Times, Quantize, EventsAfter, OrdersAfter;
  }

  lemma KeyWithoutRow(d: Tables, e: Tables, t: Trade, markets: map<string, Market>, bot: string, token: string)
    requires InSession(d, e) && t.size > 0.0 && !HasTrade(d.trades, t.id) && FindOpen(d.positions, bot, token).None?
    ensures OpenRows(Booked(d, e, t, markets, false).positions, bot, token) ==
      if t.bot == bot && t.token == token && BaseSide(t.side) == Buy
      then OpenRows(e.positions, bot, token) + [Opened(markets, t)] else OpenRows(e.positions, bot, token)
  {
    hide FifoCost, RowAfter, Booked, OpenRows, HasTrade, OutcomeOf;
    SessionStep(d, e, t, markets);
    match FindOpen(d.positions, t.bot, t.token) {
      case Some(i) =>
        var r := RowAfter(e.positions[i], t, FifoCost(d.trades, t.bot, t.token));
        OpenRowsUpdateOther(e.positions, i, r, bot, token);
      case None => OpenRowsAppend(e.positions, Opened(markets, t), bot, token);
    }
  }

  lemma OneMoreOpened(markets: map<string, Market>, ks: seq<Trade>, t: Trade)
    ensures RowsOpened(markets, ks + [t]) ==
            if BaseSide(t.side) == Buy then RowsOpened(markets, ks) + [Opened(markets, t)] else RowsOpened(markets, ks)
  {
    hide Opened;
    assert (ks + [t])[..|ks|] == ks;
  }

  lemma {:induction false} SessionWithoutRow(
      d: Tables, us: seq<Trade>, markets: map<string, Market>, bot: string, token: string)
    requires OpenPositive(d.positions) && Fresh(d, us) && FindOpen(d.positions, bot, token).None?
    ensures OpenRows(InOneSession(d, us, markets, false).positions, bot, token) ==
            RowsOpened(markets, SelectTrades(us, bot, token))
  {
    hide SelectTrades, Booked, OpenRows, RowsOpened, FindOpen;
    if us == [] {
      NoOpenRows(d.positions, bot, token);
      NothingSelected(bot, token);
      assert RowsOpened(markets, []) == [] by { OpenedNone(markets, []); }
    } else {
      var vs, t := us[..|us| - 1], us[|us| - 1];
      FreshPrefix(d, us);
      SessionWithoutRow(d, vs, markets, bot, token);
      SelectPrefix(us, bot, token);
      KeyWithoutRow(d, InOneSession(d, vs, markets, false), t, markets, bot, token);
      OneMoreOpened(markets, SelectTrades(vs, bot, token), t);
      var ks := SelectTrades(vs, bot, token);
      assert ks + [] == ks;
    }
  }

  lemma NothingSelected(bot: string, token: string)
    ensures SelectTrades([], bot, token) == []
  {
  }

  lemma KeyWithRow(
      d: Tables, e: Tables, t: Trade, markets: map<string, Market>, bot: string, token: string, i: nat)
    requires InSession(d, e) && t.size > 0.0 && !HasTrade(d.trades, t.id)
    requires FindOpen(d.positions, bot, token) == Some(i) && e.positions[i].size >= 0.0
    requires forall j :: 0 <= j < |e.positions| && j != i ==> !IsOpen(e.positions[j], bot, token)
    ensures var qs := Booked(d, e, t, markets, false).positions;
      && |qs| >= |e.positions|
      && qs[i] == (if t.bot == bot && t.token == token then RowAfter(e.positions[i], t, FifoCost(d.trades, bot, token))
                   else e.positions[i])
      && forall j :: 0 <= j < |qs| && j != i ==> !IsOpen(qs[j], bot, token)
  {
    hide FifoCost, RowAfter, Booked, HasTrade, OutcomeOf;
    SessionStep(d, e, t, markets);
  }

  lemma {:induction false} SessionWithRow(
      d: Tables, us: seq<Trade>, markets: map<string, Market>, bot: string, token: string, i: nat)
    requires OpenPositive(d.positions) && OneOpen(d.positions) && Fresh(d, us)
    requires FindOpen(d.positions, bot, token) == Some(i)
    ensures PositiveSizes(SelectTrades(us, bot, token))
    ensures var qs := InOneSession(d, us, markets, false).positions;
      && qs[i] == RowUpdated(d.positions[i], SelectTrades(us, bot, token), FifoCost(d.trades, bot, token))
      && forall j :: 0 <= j < |qs| && j != i ==> !IsOpen(qs[j], bot, token)
  {
    hide SelectTrades, FifoCost, RowAfter, Booked, OneOpen, RowUpdated, FindOpen;
    SelectPositive(us, bot, token);
    FoundRows(d.positions, bot, token);
    if us == [] {
      NothingSelected(bot, token);
      NothingUpdated(d.positions[i], FifoCost(d.trades, bot, token));
    } else {
      var vs, t := us[..|us| - 1], us[|us| - 1];
      FreshPrefix(d, us);
      SessionWithRow(d, vs, markets, bot, token, i);
      SelectPrefix(us, bot, token);
      SelectPositive(vs, bot, token);
      var e, ks := InOneSession(d, vs, markets, false), SelectTrades(vs, bot, token);
      KeyWithRow(d, e, t, markets, bot, token, i);
      if t.bot == bot && t.token == token {
        OneMoreUpdate(d.positions[i], ks, t, FifoCost(d.trades, bot, token));
      } else {
        assert ks + [] == ks;
      }
    }
  }

  lemma NothingUpdated(p: Position, fifoCost: real)
    requires p.size >= 0.0
    ensures RowUpdated(p, [], fifoCost) == p
  {
  }

  lemma OneMoreUpdate(p: Position, ks: seq<Trade>, t: Trade, fifoCost: real)
    requires p.size >= 0.0 && PositiveSizes(ks) && t.size > 0.0
    ensures RowUpdated(p, ks + [t], fifoCost) == RowAfter(RowUpdated(p, ks, fifoCost), t, fifoCost)
  {
    assert (ks + [t])[..|ks|] == ks;
  }

  // ----- one key, one session for each fill -----

  function ReplayCost(ts: seq<Trade>): real {
    Cost(Replay(Sort(TradeLe, ts)).lots)
  }

  predicate Sound(o: Option<Position>) {
    o.Some? ==> o.value.status == Open && o.value.size > 0.0
  }

  /** The OPEN row of a key with the trades ts, after the fills ks of that key, each in its own session. */
  function RowOneByOne(o: Option<Position>, ts: seq<Trade>, ks: seq<Trade>, markets: map<string, Market>)
    : (r: Option<Position>)
    requires Sound(o) && PositiveSizes(ks)
    ensures Sound(r)
  {
    if ks == [] then o
    else
      var vs, t := ks[..|ks| - 1], ks[|ks| - 1];
      match (BaseSide(t.side), RowOneByOne(o, ts, vs, markets))
      case (Buy, None) => Some(Opened(markets, t))
      case (Buy, Some(p)) => Some(Increased(p, t))
      case (Sell, None) => None
      case (Sell, Some(p)) =>
        var q := Reduced(p, t, ReplayCost(ts + vs));
        if q.status == Open then Some(q) else None
      case (Other, r) => r
  }

  function FoundRow(ps: seq<Position>, bot: string, token: string): Option<Position> {
    match FindOpen(ps, bot, token) case None => None case Some(i) => Some(ps[i])
  }

  lemma FillLeavesKey(d: Tables, t: Trade, markets: map<string, Market>, flush: bool, bot: string, token: string)
    requires FreshFill(d, t) && (bot != t.bot || token != t.token)
    ensures FoundRow(AfterFill(d, t, markets, flush).positions, bot, token) == FoundRow(d.positions, bot, token)
  {
    hide AfterFill;
    FillKeepsOneOpen(d, t, markets, flush);
    var ps, qs := d.positions, AfterFill(d, t, markets, flush).positions;
    var i := FillTouchesOneRow(d, t, markets, flush);
    if qs != ps { FindOpenAfter(ps, qs, i, bot, token); }
  }

  lemma FillSetsRow(d: Tables, t: Trade, markets: map<string, Market>)
    requires FreshFill(d, t)
    ensures
      var o, r := FoundRow(d.positions, t.bot, t.token),
                  FoundRow(AfterFill(d, t, markets, false).positions, t.bot, t.token);
      && Sound(o)
      && r == match (BaseSide(t.side), o)
              case (Buy, None) => Some(Opened(markets, t))
              case (Buy, Some(p)) => Some(Increased(p, t))
              case (Sell, None) => None
              case (Sell, Some(p)) =>
                var q := Reduced(p, t, ReplayCost(SelectTrades(d.trades, t.bot, t.token)));
                if q.status == Open then Some(q) else None
              case (Other, _) => o
  {
    hide AfterFill, Increased, Opened, Reduced, Replay, Sort, SelectTrades;
    FillFindsRow(d, t, markets, false);
  }

  lemma {:induction false} OneByOneRow(
      d: Tables, us: seq<Trade>, markets: map<string, Market>, bot: string, token: string)
    requires OpenPositive(d.positions) && OneOpen(d.positions) && Fresh(d, us)
    ensures Sound(FoundRow(d.positions, bot, token)) && PositiveSizes(SelectTrades(us, bot, token))
    ensures var e := OneByOne(d, us, markets, false);
      && OneOpen(e.positions)
      && FoundRow(e.positions, bot, token) ==
         RowOneByOne(FoundRow(d.positions, bot, token), SelectTrades(d.trades, bot, token),
                     SelectTrades(us, bot, token), markets)
  {
    hide SelectTrades, OneOpen, AfterFill, FindOpen, RowOneByOne, ReplayCost, FoundRow, Increased, Opened, Reduced;
    SelectPositive(us, bot, token);
    FoundIsSound(d.positions, bot, token);
    if us == [] {
      NothingSelected(bot, token);
      NoFillNoChange(FoundRow(d.positions, bot, token), SelectTrades(d.trades, bot, token), markets);
    } else {
      var vs, t := us[..|us| - 1], us[|us| - 1];
      FreshPrefix(d, us);
      OneByOneRow(d, vs, markets, bot, token);
      OneByOneTrades(d, vs, markets, false);
      SelectPrefix(us, bot, token);
      SelectConcat(d.trades, vs, bot, token);
      var e := OneByOne(d, vs, markets, false);
      FillKeepsOneOpen(e, t, markets, false);
      if t.bot == bot && t.token == token {
        FillSetsRow(e, t, markets);
        SelectPositive(vs, bot, token);
        OneMoreFill(FoundRow(d.positions, bot, token), SelectTrades(d.trades, bot, token),
                    SelectTrades(vs, bot, token), t, markets);
      } else {
        FillLeavesKey(e, t, markets, false, bot, token);
        assert SelectTrades(us, bot, token) == SelectTrades(vs, bot, token);
      }
    }
  }

  lemma FoundIsSound(ps: seq<Position>, bot: string, token: string)
    requires OpenPositive(ps)
    ensures Sound(FoundRow(ps, bot, token))
  {
  }

  lemma NoFillNoChange(o: Option<Position>, ts: seq<Trade>, markets: map<string, Market>)
    requires Sound(o)
    ensures RowOneByOne(o, ts, [], markets) == o
  {
  }

  lemma OneMoreFill(o: Option<Position>, ts: seq<Trade>, ks: seq<Trade>, t: Trade, markets: map<string, Market>)
    requires Sound(o) && PositiveSizes(ks) && t.size > 0.0
    ensures RowOneByOne(o, ts, ks + [t], markets) ==
      match (BaseSide(t.side), RowOneByOne(o, ts, ks, markets))
      case (Buy, None) => Some(Opened(markets, t))
      case (Buy, Some(p)) => Some(Increased(p, t))
      case (Sell, None) => None
      case (Sell, Some(p)) =>
        var q := Reduced(p, t, ReplayCost(ts + ks));
        if q.status == Open then Some(q) else None
      case (Other, r) => r
  {
    assert (ks + [t])[..|ks|] == ks;
  }

  // ----- when they agree -----

  predicate NothingAfterBuy(ks: seq<Trade>) {
    forall i, j :: 0 <= i < j < |ks| && BaseSide(ks[i].side) == Buy ==> BaseSide(ks[j].side) == Other
  }

  /** Whether the balance gets down to nothing after some fill. */
  predicate Emptied(start: real, ks: seq<Trade>) {
    ks != [] && (Emptied(start, ks[..|ks| - 1]) || Balance(start, ks) <= 0.0)
  }

  /**
   * FIFO cost of the stored trades ts, less that of the stored trades and the fills before the last
   * SELL of ks: what that SELL, made in the same session, gets wrong.
   */
  function UnseenCost(ts: seq<Trade>, ks: seq<Trade>): real {
    if ks == [] then 0.0
    else
      var vs := ks[..|ks| - 1];
      if BaseSide(ks[|ks| - 1].side) == Sell then ReplayCost(ts) - ReplayCost(ts + vs) else UnseenCost(ts, vs)
  }

  lemma {:induction false} UpdatedShape(p: Position, ks: seq<Trade>, fifoCost: real)
    requires p.status == Open && p.size > 0.0 && PositiveSizes(ks)
    ensures var r := RowUpdated(p, ks, fifoCost);
      && r.size == Balance(p.size, ks) >= 0.0
      && r.status == (if Emptied(p.size, ks) then Closed else Open)
      && r == p.(size := r.size, avgPrice := r.avgPrice, cost := r.cost, status := r.status)
  {
    hide Times, Quantize;
    if ks != [] { UpdatedShape(p, ks[..|ks| - 1], fifoCost); }
  }

  lemma {:induction false} OneByOneShape(
      o: Option<Position>, ts: seq<Trade>, ks: seq<Trade>, markets: map<string, Market>)
    requires Sound(o) && PositiveSizes(ks)
    ensures var r := RowOneByOne(o, ts, ks, markets);
      && Balance(if o.Some? then o.value.size else 0.0, ks) == (if r.Some? then r.value.size else 0.0)
  {
    hide Times, Quantize, ReplayCost;
    if ks != [] { OneByOneShape(o, ts, ks[..|ks| - 1], markets); }
  }

  lemma NothingUnseen(ts: seq<Trade>)
    ensures UnseenCost(ts, []) == 0.0
  {
  }

  lemma UnseenLast(ts: seq<Trade>, vs: seq<Trade>, t: Trade)
    ensures UnseenCost(ts, vs + [t]) ==
      if BaseSide(t.side) == Sell then ReplayCost(ts) - ReplayCost(ts + vs) else UnseenCost(ts, vs)
  {
    hide ReplayCost;
    assert (vs + [t])[..|vs|] == vs;
  }

  /** One fill on two rows that differ in cost and average price alone, with the FIFO costs a and b for a SELL. */
  lemma GapStep(r: Position, q: Position, t: Trade, a: real, b: real, gap: real)
    requires t.size > 0.0 && q.size > 0.0 && q.status == Open && r == q.(cost := r.cost, avgPrice := r.avgPrice)
    requires r.cost == q.cost + gap && (r == q <==> gap == 0.0)
    requires BaseSide(t.side) == Sell ==> RowAfter(r, t, a).status == Open
    ensures var u := RowAfter(r, t, a);
      var v := match BaseSide(t.side) case Buy => Increased(q, t) case Sell => Reduced(q, t, b) case Other => q;
      var g := if BaseSide(t.side) == Sell then a - b else gap;
      v.status == Open && u == v.(cost := u.cost, avgPrice := u.avgPrice) &&
      u.cost == v.cost + g && (u == v <==> g == 0.0)
  {
    hide Times, Quantize;
  }

  /** While the row is not emptied, the session's cost is off by exactly the unseen cost, and all else is equal. */
  lemma {:induction false} SessionCostGap(
      p: Position, ts: seq<Trade>, ks: seq<Trade>, markets: map<string, Market>)
    requires p.status == Open && p.size > 0.0 && PositiveSizes(ks) && !Emptied(p.size, ks)
    ensures var r, q := RowUpdated(p, ks, ReplayCost(ts)), RowOneByOne(Some(p), ts, ks, markets);
      && q.Some?
      && r.cost == q.value.cost + UnseenCost(ts, ks)
      && r == q.value.(cost := r.cost, avgPrice := r.avgPrice)
      && (r == q.value <==> UnseenCost(ts, ks) == 0.0)
  {
    hide Times, Quantize, ReplayCost, RowUpdated, RowOneByOne, UnseenCost, Increased, Reduced;
    if ks == [] {
      NothingUpdated(p, ReplayCost(ts));
      NoFillNoChange(Some(p), ts, markets);
      assert UnseenCost(ts, []) == 0.0 by { NothingUnseen(ts); }
    } else {
      var vs, t := ks[..|ks| - 1], ks[|ks| - 1];
      assert ks == vs + [t];
      SessionCostGap(p, ts, vs, markets);
      UpdatedShape(p, ks, ReplayCost(ts));
      UpdatedShape(p, vs, ReplayCost(ts));
      OneMoreUpdate(p, vs, t, ReplayCost(ts));
      OneMoreFill(Some(p), ts, vs, t, markets);
      UnseenLast(ts, vs, t);
      StaysAboveZero(p.size, vs);
      GapStep(RowUpdated(p, vs, ReplayCost(ts)), RowOneByOne(Some(p), ts, vs, markets).value, t,
              ReplayCost(ts), ReplayCost(ts + vs), UnseenCost(ts, vs));
    }
  }

  // ----- the OPEN rows of a session against one by one -----

  /** The session leaves the sizes that booking one by one leaves. */
  ghost predicate SameHoldings(ps: seq<Position>, ks: seq<Trade>, bot: string, token: string) {
    match FindOpen(ps, bot, token)
    case None => NothingAfterBuy(ks)
    case Some(i) => !Emptied(ps[i].size, ks) || Balance(ps[i].size, ks) == 0.0
  }

  /** And it leaves the same costs: nothing is left, or the last SELL saw all it had to see. */
  ghost predicate SameCost(ps: seq<Position>, ts: seq<Trade>, ks: seq<Trade>, bot: string, token: string) {
    match FindOpen(ps, bot, token)
    case None => true
    case Some(i) => Balance(ps[i].size, ks) == 0.0 || UnseenCost(ts, ks) == 0.0
  }

  lemma {:induction false} OpenedTotals(markets: map<string, Market>, ks: seq<Trade>)
    ensures Total(Sizes(RowsOpened(markets, ks))) == Bought(ks)
  {
    hide Times, OutcomeOf, Total;
    if ks == [] {
      EmptyTotal();
      assert Sizes(RowsOpened(markets, ks)) == [];
    } else {
      var vs, t := ks[..|ks| - 1], ks[|ks| - 1];
      OpenedTotals(markets, vs);
      if BaseSide(t.side) == Buy {
        var rows := RowsOpened(markets, vs);
        TotalLast(Sizes(rows), t.size);
        assert Sizes(rows + [Opened(markets, t)]) == Sizes(rows) + [t.size];
      } else {
        assert RowsOpened(markets, vs) + [] == RowsOpened(markets, vs);
      }
    }
  }

  lemma EmptyTotal()
    ensures Total([]) == 0.0
  {
  }

  lemma {:induction false} OpenedNone(markets: map<string, Market>, ks: seq<Trade>)
    requires forall i :: 0 <= i < |ks| ==> BaseSide(ks[i].side) != Buy
    ensures RowsOpened(markets, ks) == []
  {
    if ks != [] { OpenedNone(markets, ks[..|ks| - 1]); }
  }

  ghost predicate HasBuy(ks: seq<Trade>) {
    exists i :: 0 <= i < |ks| && BaseSide(ks[i].side) == Buy
  }

  ghost predicate SellsBought(ks: seq<Trade>) {
    exists i, j :: 0 <= i < j < |ks| && BaseSide(ks[i].side) == Buy && BaseSide(ks[j].side) == Sell
  }

  lemma LastOfBuys(vs: seq<Trade>, t: Trade)
    ensures HasBuy(vs + [t]) ==> HasBuy(vs) || BaseSide(t.side) == Buy
    ensures SellsBought(vs + [t]) ==> SellsBought(vs) || (HasBuy(vs) && BaseSide(t.side) == Sell)
  {
    var ks, n := vs + [t], |vs|;
    if HasBuy(ks) {
      var i :| 0 <= i < |ks| && BaseSide(ks[i].side) == Buy;
      if i < n { assert BaseSide(vs[i].side) == Buy; }
    }
    if SellsBought(ks) {
      var i, j :| 0 <= i < j < |ks| && BaseSide(ks[i].side) == Buy && BaseSide(ks[j].side) == Sell;
      assert BaseSide(vs[i].side) == Buy;
      if j < n { assert BaseSide(vs[j].side) == Sell; }
    }
  }

  /** A balance that starts from nothing stays below what was bought, strictly once a SELL met something. */
  lemma {:induction false} BalanceBelowBought(ks: seq<Trade>)
    requires PositiveSizes(ks)
    ensures 0.0 <= Balance(0.0, ks) <= Bought(ks)
    ensures HasBuy(ks) ==> Bought(ks) > 0.0
    ensures SellsBought(ks) ==> Balance(0.0, ks) < Bought(ks)
  {
    hide HasBuy, SellsBought;
    if ks == [] {
      NothingBought();
    } else {
      var vs, t := ks[..|ks| - 1], ks[|ks| - 1];
      BalanceBelowBought(vs);
      assert ks == vs + [t];
      LastOfBuys(vs, t);
    }
  }

  lemma NothingBought()
    ensures !HasBuy([]) && !SellsBought([])
  {
  }

  /** If nothing follows a BUY, at most one row is opened, and it is what one by one gives. */
  lemma {:induction false} OpenedOnce(markets: map<string, Market>, ts: seq<Trade>, ks: seq<Trade>)
    requires PositiveSizes(ks) && NothingAfterBuy(ks)
    ensures RowsOpened(markets, ks) ==
      match RowOneByOne(None, ts, ks, markets) case None => [] case Some(p) => [p]
  {
    hide Opened, Increased, Reduced, ReplayCost;
    if ks != [] {
      var vs, t := ks[..|ks| - 1], ks[|ks| - 1];
      OpenedOnce(markets, ts, vs);
      assert RowsOpened(markets, vs) + [] == RowsOpened(markets, vs);
      var side := BaseSide(t.side);
      if side == Other {
        assert RowOneByOne(None, ts, ks, markets) == RowOneByOne(None, ts, vs, markets);
      } else {
        forall i | 0 <= i < |vs| ensures BaseSide(vs[i].side) != Buy {
          assert BaseSide(ks[i].side) == Buy ==> side == Other;
        }
        OpenedNone(markets, vs);
        assert RowOneByOne(None, ts, vs, markets) == None;
        assert RowOneByOne(None, ts, ks, markets) == if side == Buy then Some(Opened(markets, t)) else None;
      }
    }
  }

  lemma {:induction false} OpenedTwice(markets: map<string, Market>, ks: seq<Trade>, i: nat, j: nat)
    requires i < j < |ks| && BaseSide(ks[i].side) == BaseSide(ks[j].side) == Buy
    ensures |RowsOpened(markets, ks)| >= 2
  {
    hide Opened;
    var n := |ks| - 1;
    if j < n {
      OpenedTwice(markets, ks[..n], i, j);
    } else {
      OpenedAt(markets, ks[..n], i);
    }
  }

  lemma {:induction false} OpenedAt(markets: map<string, Market>, ks: seq<Trade>, i: nat)
    requires i < |ks| && BaseSide(ks[i].side) == Buy
    ensures |RowsOpened(markets, ks)| >= 1
  {
    hide Opened;
    if i < |ks| - 1 { OpenedAt(markets, ks[..|ks| - 1], i); }
  }

  /** The case without a stored OPEN row, over the fills of the key. */
  lemma WithoutRow(markets: map<string, Market>, ts: seq<Trade>, ks: seq<Trade>)
    requires PositiveSizes(ks)
    ensures var rows := RowsOpened(markets, ks);
      var one := match RowOneByOne(None, ts, ks, markets) case None => [] case Some(p) => [p];
      (Sizes(rows) == Sizes(one) <==> NothingAfterBuy(ks)) && (rows == one <==> NothingAfterBuy(ks))
  {
    hide Times, RowOneByOne, RowsOpened, Balance;
    var rows := RowsOpened(markets, ks);
    var r := RowOneByOne(None, ts, ks, markets);
    var one := match r case None => [] case Some(p) => [p];
    if NothingAfterBuy(ks) {
      OpenedOnce(markets, ts, ks);
    } else {
      var i, j :| 0 <= i < j < |ks| && BaseSide(ks[i].side) == Buy && BaseSide(ks[j].side) != Other;
      if BaseSide(ks[j].side) == Buy {
        OpenedTwice(markets, ks, i, j);
        assert |Sizes(rows)| >= 2 && |Sizes(one)| <= 1;
      } else {
        OpenedTotals(markets, ks);
        assert SellsBought(ks);
        BalanceBelowBought(ks);
        OneByOneShape(None, ts, ks, markets);
        assert Total(Sizes(one)) == Balance(0.0, ks) by {
          if r.Some? { assert Sizes(one)[..0] == []; }
        }
      }
    }
  }

  /** The case with a stored OPEN row. */
  lemma WithRow(p: Position, ts: seq<Trade>, ks: seq<Trade>, markets: map<string, Market>)
    requires p.status == Open && p.size > 0.0 && PositiveSizes(ks)
    ensures var u := RowUpdated(p, ks, ReplayCost(ts));
      var rows := if u.status == Open then [u] else [];
      var one := match RowOneByOne(Some(p), ts, ks, markets) case None => [] case Some(q) => [q];
      var holds := !Emptied(p.size, ks) || Balance(p.size, ks) == 0.0;
      && (Sizes(rows) == Sizes(one) <==> holds)
      && (rows == one <==> holds && (Balance(p.size, ks) == 0.0 || UnseenCost(ts, ks) == 0.0))
  {
    hide Times, RowOneByOne, RowUpdated, Balance, UnseenCost, ReplayCost;
    var u := RowUpdated(p, ks, ReplayCost(ts));
    var r := RowOneByOne(Some(p), ts, ks, markets);
    UpdatedShape(p, ks, ReplayCost(ts));
    OneByOneShape(Some(p), ts, ks, markets);
    var rows := if u.status == Open then [u] else [];
    var one := match r case None => [] case Some(q) => [q];
    if Emptied(p.size, ks) {
      assert |Sizes(rows)| == 0 && |Sizes(one)| == |one|;
    } else {
      SessionCostGap(p, ts, ks, markets);
      StaysAboveZero(p.size, ks);
      assert Sizes(rows)[0] == Sizes(one)[0];
    }
  }

  lemma StaysAboveZero(start: real, ks: seq<Trade>)
    requires start > 0.0 && !Emptied(start, ks)
    ensures Balance(start, ks) > 0.0
  {
  }

  /**
   * A session without flushing against one session for each fill, for every key and all fills: the
   * OPEN rows have the same sizes exactly if no BUY or SELL follows one that opened the key in the
   * session, and the balance of a stored row is not emptied and refilled; they are the same rows
   * exactly if, moreover, the last SELL's FIFO cost misses nothing.
   */
  lemma SessionAgainstOneByOne(
      d: Tables, us: seq<Trade>, markets: map<string, Market>, bot: string, token: string)
    requires OpenPositive(d.positions) && OneOpen(d.positions) && Fresh(d, us)
    ensures
      var rows := OpenRows(InOneSession(d, us, markets, false).positions, bot, token);
      var one := OpenRows(OneByOne(d, us, markets, false).positions, bot, token);
      var ts, ks := SelectTrades(d.trades, bot, token), SelectTrades(us, bot, token);
      && (Sizes(rows) == Sizes(one) <==> SameHoldings(d.positions, ks, bot, token))
      && (rows == one <==> SameHoldings(d.positions, ks, bot, token) && SameCost(d.positions, ts, ks, bot, token))
  {
    hide SelectTrades, OneOpen, RowOneByOne, RowUpdated, RowsOpened, Balance, UnseenCost, Filter;
    var ts, ks := SelectTrades(d.trades, bot, token), SelectTrades(us, bot, token);
    OneByOneRow(d, us, markets, bot, token);
    FoundRows(OneByOne(d, us, markets, false).positions, bot, token);
    match FindOpen(d.positions, bot, token) {
      case None =>
        SessionWithoutRow(d, us, markets, bot, token);
        WithoutRow(markets, ts, ks);
      case Some(i) =>
        SessionWithRow(d, us, markets, bot, token, i);
        OnlyOpenRow(InOneSession(d, us, markets, false).positions, i, bot, token);
        UpdatedShape(d.positions[i], ks, ReplayCost(ts));
        WithRow(d.positions[i], ts, ks, markets);
    }
  }

  // ----- what goes wrong when they differ -----

  /** Two BUYs of a key without a stored OPEN row open two rows; one by one there is a single row. */
  lemma TwoBuysTwoRows(d: Tables, t: Trade, u: Trade, markets: map<string, Market>)
    requires OpenPositive(d.positions) && OneOpen(d.positions) && Fresh(d, [t, u])
    requires BaseSide(t.side) == BaseSide(u.side) == Buy && u.bot == t.bot && u.token == t.token
    requires FindOpen(d.positions, t.bot, t.token).None?
    ensures var qs := InOneSession(d, [t, u], markets, false).positions;
      && OpenRows(qs, t.bot, t.token) == [Opened(markets, t), Opened(markets, u)]
      && !OneOpen(qs)
      && OneOpen(OneByOne(d, [t, u], markets, false).positions)
  {
    hide Opened, InOneSession, OneByOne, RowOneByOne, RowsOpened, SelectTrades, Filter;
    var us := [t, u];
    SelectPair(t, u);
    PairOpened(markets, t, u);
    SessionWithoutRow(d, us, markets, t.bot, t.token);
    OneByOneRow(d, us, markets, t.bot, t.token);
    var qs := InOneSession(d, us, markets, false).positions;
    if OneOpen(qs) { FoundRows(qs, t.bot, t.token); }
  }

  lemma PairOpened(markets: map<string, Market>, t: Trade, u: Trade)
    ensures RowsOpened(markets, [t, u]) ==
            (if BaseSide(t.side) == Buy then [Opened(markets, t)] else []) +
            (if BaseSide(u.side) == Buy then [Opened(markets, u)] else [])
  {
    hide Opened;
    assert [t, u][..1] == [t] && [t][..0] == [];
    assert RowsOpened(markets, []) == [];
  }

  lemma SessionOfTwo(d: Tables, t: Trade, u: Trade, markets: map<string, Market>)
    requires OpenPositive(d.positions) && t.size > 0.0 && u.size > 0.0
    ensures InSession(d, Booked(d, d, t, markets, false))
    ensures InOneSession(d, [t, u], markets, false) ==
            Booked(d, Booked(d, d, t, markets, false), u, markets, false)
  {
    hide Booked;
    assert [t, u][..1] == [t] && [t][..0] == [];
    BookedInSession(d, d, t, markets, false);
    assert InOneSession(d, [], markets, false) == d;
    assert InOneSession(d, [t], markets, false) == Booked(d, d, t, markets, false);
  }

  lemma SelectPair(t: Trade, u: Trade)
    requires u.bot == t.bot && u.token == t.token
    ensures SelectTrades([t, u], t.bot, t.token) == [t, u]
  {
    var us := [t, u];
    FilterAll(us, (x: Trade) => x.bot == t.bot);
    FilterAll(us, (x: Trade) => x.token == t.token);
  }

  /** A SELL of what the same session bought finds no position, and the row stays OPEN in full. */
  lemma BoughtIsNotSold(d: Tables, t: Trade, u: Trade, markets: map<string, Market>)
    requires OpenPositive(d.positions) && Fresh(d, [t, u])
    requires BaseSide(t.side) == Buy && BaseSide(u.side) == Sell && u.bot == t.bot && u.token == t.token
    requires FindOpen(d.positions, t.bot, t.token).None?
    ensures var e := InOneSession(d, [t, u], markets, false);
      && OpenRows(e.positions, t.bot, t.token) == [Opened(markets, t)]
      && e.events == d.events + [SellWithoutPosition(u.bot, u.token, u.size, u.price)]
  {
    hide Opened, Filter, Times, InOneSession, RowsOpened, SelectTrades, OrdersAfter, PositionsAfter;
    var us := [t, u];
    SelectPair(t, u);
    PairOpened(markets, t, u);
    SessionWithoutRow(d, us, markets, t.bot, t.token);
    assert us[1] == u && us[0] == t;
    SessionOfTwo(d, t, u, markets);
  }

  /** A stored row that is sold out and bought again in one session stays CLOSED with a positive size. */
  lemma RefilledStaysClosed(
      d: Tables, us: seq<Trade>, markets: map<string, Market>, bot: string, token: string, i: nat)
    requires OpenPositive(d.positions) && OneOpen(d.positions) && Fresh(d, us)
    requires FindOpen(d.positions, bot, token) == Some(i)
    requires var h, ks := d.positions[i].size, SelectTrades(us, bot, token);
      Emptied(h, ks) && Balance(h, ks) > 0.0
    ensures var e := InOneSession(d, us, markets, false);
      && e.positions[i].status == Closed
      && e.positions[i].size == Balance(d.positions[i].size, SelectTrades(us, bot, token))
      && OpenRows(e.positions, bot, token) == []
      && OpenRows(OneByOne(d, us, markets, false).positions, bot, token) != []
  {
    hide SelectTrades, OneOpen, RowUpdated, Emptied, Balance, RowOneByOne;
    var ks := SelectTrades(us, bot, token);
    SessionWithRow(d, us, markets, bot, token, i);
    UpdatedShape(d.positions[i], ks, FifoCost(d.trades, bot, token));
    OnlyOpenRow(InOneSession(d, us, markets, false).positions, i, bot, token);
    OneByOneRow(d, us, markets, bot, token);
    OneByOneShape(FoundRow(d.positions, bot, token), SelectTrades(d.trades, bot, token), ks, markets);
    FoundRows(OneByOne(d, us, markets, false).positions, bot, token);
  }

  // ----- sessions within runs -----

  function Fills(us: seq<Trade>): seq<Op> {
    seq(|us|, i requires 0 <= i < |us| => Fill(us[i]))
  }

  lemma {:induction false} RunOfFills(
      ops: seq<Op>, us: seq<Trade>, markets: map<string, Market>, orders: map<string, Order>, flush: bool)
    requires Run(ops + Fills(us), markets, orders, flush).Some? && PositiveSizes(us)
    ensures Run(ops, markets, orders, flush).Some?
    ensures Run(ops + Fills(us), markets, orders, flush).value ==
            OneByOne(Run(ops, markets, orders, flush).value, us, markets, flush)
  {
    hide Admissible, AfterFill;
    if us == [] {
      assert ops + Fills(us) == ops;
    } else {
      var all := ops + Fills(us);
      assert all[..|all| - 1] == ops + Fills(us[..|us| - 1]);
      RunOfFills(ops, us[..|us| - 1], markets, orders, flush);
    }
  }

  lemma {:induction false} FillsRedeemNothing(
      d: Tables, us: seq<Trade>, markets: map<string, Market>, bot: string, token: string)
    requires OpenPositive(d.positions) && OneOpen(d.positions) && Fresh(d, us)
    requires !WasRedeemed(d.positions, bot, token)
    ensures !WasRedeemed(OneByOne(d, us, markets, false).positions, bot, token)
  {
    hide AfterFill, OneOpen;
    if us != [] {
      var vs, t := us[..|us| - 1], us[|us| - 1];
      FreshPrefix(d, us);
      FillsRedeemNothing(d, vs, markets, bot, token);
      OneByOneRow(d, vs, markets, bot, token);
      OneByOneTrades(d, vs, markets, false);
      var i := FillTouchesOneRow(OneByOne(d, vs, markets, false), t, markets, false);
    }
  }

  /** Where the sizes agree, the costs of the rows differ by the unseen cost. */
  lemma SessionCost(d: Tables, us: seq<Trade>, markets: map<string, Market>, bot: string, token: string)
    requires OpenPositive(d.positions) && OneOpen(d.positions) && Fresh(d, us)
    requires SameHoldings(d.positions, SelectTrades(us, bot, token), bot, token)
    ensures
      var rows := OpenRows(InOneSession(d, us, markets, false).positions, bot, token);
      var one := OpenRows(OneByOne(d, us, markets, false).positions, bot, token);
      var ts, ks := SelectTrades(d.trades, bot, token), SelectTrades(us, bot, token);
      && |rows| == |one| <= 1
      && (rows != [] ==>
            rows[0].cost == one[0].cost + if FindOpen(d.positions, bot, token).None? then 0.0 else UnseenCost(ts, ks))
  {
    hide SelectTrades, OneOpen, RowOneByOne, RowUpdated, RowsOpened, Balance, UnseenCost, Filter, Emptied;
    var ts, ks := SelectTrades(d.trades, bot, token), SelectTrades(us, bot, token);
    SessionAgainstOneByOne(d, us, markets, bot, token);
    OneByOneRow(d, us, markets, bot, token);
    FoundRows(OneByOne(d, us, markets, false).positions, bot, token);
    var rows := OpenRows(InOneSession(d, us, markets, false).positions, bot, token);
    var one := OpenRows(OneByOne(d, us, markets, false).positions, bot, token);
    assert |Sizes(rows)| == |rows| && |Sizes(one)| == |one|;
    if FindOpen(d.positions, bot, token).Some? && rows != [] {
      var i := FindOpen(d.positions, bot, token).value;
      SessionWithRow(d, us, markets, bot, token, i);
      OnlyOpenRow(InOneSession(d, us, markets, false).positions, i, bot, token);
      UpdatedShape(d.positions[i], ks, ReplayCost(ts));
      SessionCostGap(d.positions[i], ts, ks, markets);
    }
  }

  lemma OneByOneAgainstReplay(
      ops: seq<Op>, us: seq<Trade>, markets: map<string, Market>, orders: map<string, Order>,
      bot: string, token: string)
    requires PositiveSizes(us) && Run(ops + Fills(us), markets, orders, false).Some?
    requires Run(ops, markets, orders, false).Some? && Fresh(Run(ops, markets, orders, false).value, us)
    requires !WasRedeemed(Run(ops, markets, orders, false).value.positions, bot, token)
    ensures
      var d := Run(ops, markets, orders, false).value;
      var one := OpenRows(OneByOne(d, us, markets, false).positions, bot, token);
      var ts := SelectTrades(d.trades + us, bot, token);
      && Sizes(one) == (if Held(ts) > 0.0 then [Held(ts)] else [])
      && (one != [] ==> one[0].cost == Cost(Replay(ts).lots) + Replay(ts).lastConsumed)
  {
    hide SelectTrades, Filter, Replay, Held, Run, Fills, WasRedeemed, OneByOne, Times, Abs;
    hide KeyInvariant, BasisInvariant, RowOneByOne;
    var d := Run(ops, markets, orders, false).value;
    RunInvariant(ops, markets, orders, false);
    RunOfFills(ops, us, markets, orders, false);
    OneByOneTrades(d, us, markets, false);
    FillsRedeemNothing(d, us, markets, bot, token);
    OneByOneRow(d, us, markets, bot, token);
    FoundRows(OneByOne(d, us, markets, false).positions, bot, token);
    PositionAgreesWithReplay(ops + Fills(us), markets, orders, false, bot, token);
  }

  /**
   * After any run, a session of further in-order fills without flushing leaves one OPEN row of the
   * replayed size (none if nothing is held) exactly under that condition, and then its cost exceeds
   * the replayed cost by what the last partial SELL consumed and what it did not see.
   */
  lemma SessionAgainstReplay(
      ops: seq<Op>, us: seq<Trade>, markets: map<string, Market>, orders: map<string, Order>,
      bot: string, token: string)
    requires PositiveSizes(us) && Run(ops + Fills(us), markets, orders, false).Some?
    requires Run(ops, markets, orders, false).Some? && Fresh(Run(ops, markets, orders, false).value, us)
    requires !WasRedeemed(Run(ops, markets, orders, false).value.positions, bot, token)
    ensures
      var d := Run(ops, markets, orders, false).value;
      var e := InOneSession(d, us, markets, false);
      var rows := OpenRows(e.positions, bot, token);
      var ts, ks := SelectTrades(e.trades, bot, token), SelectTrades(us, bot, token);
      var found := FindOpen(d.positions, bot, token);
      && (Sizes(rows) == (if Held(ts) > 0.0 then [Held(ts)] else []) <==> SameHoldings(d.positions, ks, bot, token))
      && (SameHoldings(d.positions, ks, bot, token) && rows != [] ==>
            rows[0].cost == Cost(Replay(ts).lots) + Replay(ts).lastConsumed
                            + (if found.None? then 0.0 else UnseenCost(SelectTrades(d.trades, bot, token), ks)))
  {
    hide SelectTrades, Filter, Replay, Held, Run, FindOpen, Emptied, Balance, OpenRows, WasRedeemed, Fills;
    hide UnseenCost, SameHoldings, InOneSession, OneByOne;
    var d := Run(ops, markets, orders, false).value;
    RunInvariant(ops, markets, orders, false);
    SessionTrades(d, us, markets);
    OneByOneAgainstReplay(ops, us, markets, orders, bot, token);
    SessionAgainstOneByOne(d, us, markets, bot, token);
    if SameHoldings(d.positions, SelectTrades(us, bot, token), bot, token) {
      SessionCost(d, us, markets, bot, token);
    }
  }
}
