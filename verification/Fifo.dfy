/** Lot-based FIFO matching and the realised P&L it yields. */
module Fifo {
  import opened Sums
  import opened Sorting
  import opened Trades

  datatype Lot = Lot(size: real, price: real)

  /** Outcome of matching one SELL: what is left of the lots and of the SELL, and what was consumed. */
  datatype Matching = Matching(lots: seq<Lot>, remaining: real, quantity: real, cost: real)

  function Size(lots: seq<Lot>): real {
    if lots == [] then 0.0 else Size(lots[..|lots| - 1]) + lots[|lots| - 1].size
  }

  function Cost(lots: seq<Lot>): real {
    if lots == [] then 0.0
    else Cost(lots[..|lots| - 1]) + Times(lots[|lots| - 1].size, lots[|lots| - 1].price)
  }

  predicate Positive(lots: seq<Lot>) {
    forall i :: 0 <= i < |lots| ==> lots[i].size > 0.0
  }

  /** Oldest lot first; a lot is dropped once nothing of it is left. */
  function Match(lots: seq<Lot>, remaining: real): Matching
    decreases |lots|
  {
    if remaining <= 0.0 || lots == [] then Matching(lots, remaining, 0.0, 0.0)
    else
      var lot := lots[0];
      var m := Min(lot.size, remaining);
      if lot.size - m <= 0.0 then
        var rest := Match(lots[1..], remaining - m);
        Matching(rest.lots, rest.remaining, m + rest.quantity, Times(m, lot.price) + rest.cost)
      else
        Matching([lot.(size := lot.size - m)] + lots[1..], remaining - m, m, Times(m, lot.price))
  }

  lemma {:induction false} SizeCostCons(lot: Lot, lots: seq<Lot>)
    ensures Size([lot] + lots) == lot.size + Size(lots)
    ensures Cost([lot] + lots) == Times(lot.size, lot.price) + Cost(lots)
  {
    if lots == [] {
      assert ([lot] + lots)[..0] == [];
    } else {
      var n := |lots| - 1;
      assert ([lot] + lots)[..n + 1] == [lot] + lots[..n];
      SizeCostCons(lot, lots[..n]);
    }
  }

  lemma {:induction false} MatchConservesSize(lots: seq<Lot>, remaining: real)
    ensures var m := Match(lots, remaining);
      m.quantity + m.remaining == remaining && m.quantity + Size(m.lots) == Size(lots)
    decreases |lots|
  {
    if remaining > 0.0 && lots != [] {
      var lot := lots[0];
      var q := Min(lot.size, remaining);
      assert lots == [lot] + lots[1..];
      SizeCostCons(lot, lots[1..]);
      if lot.size - q <= 0.0 {
        MatchConservesSize(lots[1..], remaining - q);
      } else {
        SizeCostCons(lot.(size := lot.size - q), lots[1..]);
      }
    }
  }

  lemma {:induction false} MatchConservesCost(lots: seq<Lot>, remaining: real)
    ensures var m := Match(lots, remaining);
      m.cost + Cost(m.lots) == Cost(lots)
    decreases |lots|
  {
    hide Times;
    if remaining > 0.0 && lots != [] {
      var lot := lots[0];
      var q := Min(lot.size, remaining);
      assert lots == [lot] + lots[1..];
      SizeCostCons(lot, lots[1..]);
      if lot.size - q <= 0.0 {
        MatchConservesCost(lots[1..], remaining - q);
      } else {
        SizeCostCons(lot.(size := lot.size - q), lots[1..]);
        TimesDistributes(lot.size, q, lot.price);
      }
    }
  }

  /** Nothing is lost: consumed plus left over is what there was, in size and in cost. */
  lemma MatchConserves(lots: seq<Lot>, remaining: real)
    ensures var m := Match(lots, remaining);
      && m.quantity + m.remaining == remaining
      && m.quantity + Size(m.lots) == Size(lots)
      && m.cost + Cost(m.lots) == Cost(lots)
  {
    MatchConservesSize(lots, remaining);
    MatchConservesCost(lots, remaining);
  }

  lemma {:induction false} SizePositive(lots: seq<Lot>)
    requires Positive(lots)
    ensures Size(lots) >= 0.0 && (Size(lots) == 0.0 <==> lots == [])
    ensures lots == [] ==> Cost(lots) == 0.0
  {
    if lots != [] { SizePositive(lots[..|lots| - 1]); }
  }

  /** With positive lots, exactly the smaller of the SELL and the holding is matched. */
  lemma {:induction false} MatchQuantity(lots: seq<Lot>, remaining: real)
    requires Positive(lots) && remaining > 0.0
    ensures var m := Match(lots, remaining);
      Positive(m.lots) && m.quantity == Min(Size(lots), remaining) && m.remaining == remaining - m.quantity
    decreases |lots|
  {
    MatchConserves(lots, remaining);
    SizePositive(lots);
    if lots != [] {
      var lot := lots[0];
      assert lots == [lot] + lots[1..];
      SizeCostCons(lot, lots[1..]);
      SizePositive(lots[1..]);
      if lot.size < remaining {
        MatchQuantity(lots[1..], remaining - lot.size);
      } else if lot.size == remaining {
        assert Match(lots[1..], 0.0) == Matching(lots[1..], 0.0, 0.0, 0.0);
      }
    }
  }

  // ----- one token -----

  /**
   * The state of the FIFO replay for one token: open lots, P&L realised before fees, fees,
   * and the cost that the last SELL consumed if it left lots open.
   */
  datatype Account = Account(lots: seq<Lot>, gross: real, fees: real, lastConsumed: real)

  const EMPTY_ACCOUNT: Account := Account([], 0.0, 0.0, 0.0)

  function Step(a: Account, t: Trade): Account {
    match BaseSide(t.side)
    case Buy => a.(lots := a.lots + [Lot(t.size, t.price)], fees := a.fees + t.fee)
    case Sell =>
      var m := Match(a.lots, t.size);
      Account(m.lots, a.gross + (Times(m.quantity, t.price) - m.cost), a.fees + t.fee,
              if m.lots == [] then 0.0 else m.cost)
    case Other => a.(fees := a.fees + t.fee)
  }

  /** Replays the trades of one token. */
  function Replay(ts: seq<Trade>): Account {
    if ts == [] then EMPTY_ACCOUNT else Step(Replay(ts[..|ts| - 1]), ts[|ts| - 1])
  }

  predicate PositiveSizes(ts: seq<Trade>) {
    forall i :: 0 <= i < |ts| ==> ts[i].size > 0.0
  }

  lemma {:induction false} ReplayPositive(ts: seq<Trade>)
    requires PositiveSizes(ts)
    ensures Positive(Replay(ts).lots)
  {
    if ts != [] {
      var a, t := Replay(ts[..|ts| - 1]), ts[|ts| - 1];
      ReplayPositive(ts[..|ts| - 1]);
      if BaseSide(t.side) == Sell { MatchQuantity(a.lots, t.size); }
    }
  }

  /** Independent reference for the quantity held: a running balance that never goes below zero. */
  function Balance(start: real, ts: seq<Trade>): real {
    if ts == [] then start
    else
      var h, t := Balance(start, ts[..|ts| - 1]), ts[|ts| - 1];
      match BaseSide(t.side)
      case Buy => h + t.size
      case Sell => Max(0.0, h - t.size)
      case Other => h
  }

  function Held(ts: seq<Trade>): real {
    Balance(0.0, ts)
  }

  lemma {:induction false} BalanceConcat(start: real, ts: seq<Trade>, us: seq<Trade>)
    ensures Balance(start, ts + us) == Balance(Balance(start, ts), us)
  {
    if us == [] {
      assert ts + us == ts;
    } else {
      assert (ts + us)[..|ts + us| - 1] == ts + us[..|us| - 1];
      BalanceConcat(start, ts, us[..|us| - 1]);
    }
  }

  lemma {:induction false} ReplayHolds(ts: seq<Trade>)
    requires PositiveSizes(ts)
    ensures Size(Replay(ts).lots) == Held(ts)
  {
    if ts != [] {
      var us := ts[..|ts| - 1];
      var a, t := Replay(us), ts[|ts| - 1];
      ReplayHolds(us);
      ReplayPositive(us);
      match BaseSide(t.side) {
        case Buy =>
          var lot := Lot(t.size, t.price);
          assert (a.lots + [lot])[..|a.lots|] == a.lots;
        case Sell =>
          MatchQuantity(a.lots, t.size);
          MatchConserves(a.lots, t.size);
        case Other =>
      }
    }
  }

  /** What the last trade of ts sells beyond the quantity held before it. */
  function Excess(ts: seq<Trade>): real
    requires ts != []
  {
    var t := ts[|ts| - 1];
    if BaseSide(t.side) == Sell then Max(0.0, t.size - Held(ts[..|ts| - 1])) else 0.0
  }

  /** The remainder the matching loop is left with is that excess. */
  lemma RemainderIsExcess(ts: seq<Trade>, t: Trade)
    requires PositiveSizes(ts) && t.size > 0.0 && BaseSide(t.side) == Sell
    ensures Match(Replay(ts).lots, t.size).remaining == Excess(ts + [t])
  {
    assert (ts + [t])[..|ts|] == ts;
    ReplayHolds(ts);
    ReplayPositive(ts);
    MatchQuantity(Replay(ts).lots, t.size);
  }

  // ----- all tokens of one bot -----

  type Accounts = map<string, Account>

  function Get(m: Accounts, token: string): Account {
    if token in m then m[token] else EMPTY_ACCOUNT
  }

  function ReplayAll(ts: seq<Trade>): Accounts {
    if ts == [] then map[]
    else
      var m, t := ReplayAll(ts[..|ts| - 1]), ts[|ts| - 1];
      m[t.token := Step(Get(m, t.token), t)]
  }

  lemma {:induction false} OfTokenIn(ts: seq<Trade>, token: string)
    ensures OfToken(ts, token) != [] <==> exists i :: 0 <= i < |ts| && ts[i].token == token
  {
    var f := OfToken(ts, token);
    FilterMembers(ts, (t: Trade) => t.token == token);
    if f != [] {
      assert f[0] in f;
      assert f[0] in ts;
    }
    if i :| 0 <= i < |ts| && ts[i].token == token {
      assert ts[i] in f;
    }
  }

  /** The account of a token depends on that token's trades only, however tokens interleave. */
  lemma {:induction false} ReplayAllAt(ts: seq<Trade>, token: string)
    ensures Get(ReplayAll(ts), token) == Replay(OfToken(ts, token))
    ensures token in ReplayAll(ts) <==> OfToken(ts, token) != []
  {
    if ts != [] {
      var us, t := ts[..|ts| - 1], ts[|ts| - 1];
      ReplayAllAt(us, token);
      if t.token == token {
        assert OfToken(ts, token) == OfToken(us, token) + [t];
        assert (OfToken(us, token) + [t])[..|OfToken(us, token)|] == OfToken(us, token);
      }
    }
  }

  /** Histories that agree token by token have the same accounts. */
  lemma InterleavingIrrelevant(ts: seq<Trade>, us: seq<Trade>)
    requires forall token :: OfToken(ts, token) == OfToken(us, token)
    ensures ReplayAll(ts) == ReplayAll(us)
  {
    forall token ensures token in ReplayAll(ts) <==> token in ReplayAll(us)
      ensures Get(ReplayAll(ts), token) == Get(ReplayAll(us), token)
    {
      ReplayAllAt(ts, token);
      ReplayAllAt(us, token);
    }
    assert forall token :: token in ReplayAll(ts) ==> ReplayAll(ts)[token] == Get(ReplayAll(us), token);
  }

  function GrossOf(a: Account): real { a.gross }
  function FeesOf(a: Account): real { a.fees }
  function CostOf(a: Account): real { Cost(a.lots) }
  function LastConsumedOf(a: Account): real { a.lastConsumed }

  /** Realised P&L of a trade history: matched gains of all tokens minus the fees of all trades. */
  ghost function Realised(ts: seq<Trade>): real {
    Sum(ReplayAll(ts), GrossOf) - Sum(ReplayAll(ts), FeesOf)
  }

  ghost function OpenCost(ts: seq<Trade>): real {
    Sum(ReplayAll(ts), CostOf)
  }

  // ----- cash -----

  /** What a trade moves in cash by the exchange-side convention; unrecognised sides only cost their fee. */
  function CashOf(t: Trade): real {
    match BaseSide(t.side)
    case Buy => -Times(t.size, t.price) - t.fee
    case Sell => Times(t.size, t.price) - t.fee
    case Other => -t.fee
  }

  function Cash(ts: seq<Trade>): real {
    if ts == [] then 0.0 else Cash(ts[..|ts| - 1]) + CashOf(ts[|ts| - 1])
  }

  /** Notional of the part of each SELL that exceeds the quantity held of its token. */
  function OrphanNotional(ts: seq<Trade>): real {
    if ts == [] then 0.0
    else
      var t := ts[|ts| - 1];
      OrphanNotional(ts[..|ts| - 1]) + Times(Excess(OfToken(ts, t.token)), t.price)
  }

  lemma OfTokenLast(ts: seq<Trade>)
    requires ts != []
    ensures var t := ts[|ts| - 1];
      OfToken(ts, t.token) == OfToken(ts[..|ts| - 1], t.token) + [t]
  {
  }

  lemma FilterPositive(ts: seq<Trade>, p: Trade -> bool)
    requires PositiveSizes(ts)
    ensures PositiveSizes(Filter(ts, p))
  {
    var f := Filter(ts, p);
    FilterMembers(ts, p);
    forall i | 0 <= i < |f| ensures f[i].size > 0.0 { assert f[i] in f; assert f[i] in ts; }
  }

  /** How one trade changes its token's account: in P&L, in open cost and in cash. */
  lemma StepConserves(a: Account, t: Trade)
    ensures var b := Step(a, t);
      b.gross - b.fees - Cost(b.lots) ==
      a.gross - a.fees - Cost(a.lots) + CashOf(t)
      - (if BaseSide(t.side) == Sell then Times(Match(a.lots, t.size).remaining, t.price) else 0.0)
  {
    hide Times;
    match BaseSide(t.side) {
      case Buy =>
        var lot := Lot(t.size, t.price);
        assert (a.lots + [lot])[..|a.lots|] == a.lots;
      case Sell =>
        MatchConserves(a.lots, t.size);
        var m := Match(a.lots, t.size);
        TimesDistributes(m.quantity, m.remaining, t.price);
      case Other =>
    }
  }

  /** What the loop leaves of the last SELL, seen from the history of all tokens. */
  lemma LastRemainder(ts: seq<Trade>)
    requires PositiveSizes(ts) && ts != []
    ensures var t := ts[|ts| - 1];
      Times(Excess(OfToken(ts, t.token)), t.price) ==
      if BaseSide(t.side) == Sell
      then Times(Match(Get(ReplayAll(ts[..|ts| - 1]), t.token).lots, t.size).remaining, t.price)
      else 0.0
  {
    hide Times;
    var us, t := ts[..|ts| - 1], ts[|ts| - 1];
    TimesZero(t.price);
    OfTokenLast(ts);
    ReplayAllAt(us, t.token);
    FilterPositive(us, (u: Trade) => u.token == t.token);
    if BaseSide(t.side) == Sell { RemainderIsExcess(OfToken(us, t.token), t); }
  }

  /**
   * Conservation over any history, oversells included: realised P&L is net cash plus the cost
   * of what is still open, less the notional of SELL remainders that match nothing.
   */
  lemma {:induction false} RealisedIsCash(ts: seq<Trade>)
    requires PositiveSizes(ts)
    ensures Realised(ts) == Cash(ts) + OpenCost(ts) - OrphanNotional(ts)
  {
    hide Times;
    if ts == [] {
    } else {
      var us, t := ts[..|ts| - 1], ts[|ts| - 1];
      RealisedIsCash(us);
      var m := ReplayAll(us);
      var a := Get(m, t.token);
      SumUpdate(m, t.token, Step(a, t), GrossOf);
      SumUpdate(m, t.token, Step(a, t), FeesOf);
      SumUpdate(m, t.token, Step(a, t), CostOf);
      StepConserves(a, t);
      LastRemainder(ts);
    }
  }

  // ----- quantities -----

  function Bought(ts: seq<Trade>): real {
    if ts == [] then 0.0
    else Bought(ts[..|ts| - 1]) + if BaseSide(ts[|ts| - 1].side) == Buy then ts[|ts| - 1].size else 0.0
  }

  function Sold(ts: seq<Trade>): real {
    if ts == [] then 0.0
    else Sold(ts[..|ts| - 1]) + if BaseSide(ts[|ts| - 1].side) == Sell then ts[|ts| - 1].size else 0.0
  }

  function Matched(ts: seq<Trade>): real {
    if ts == [] then 0.0
    else
      var us, t := ts[..|ts| - 1], ts[|ts| - 1];
      Matched(us) + if BaseSide(t.side) == Sell then Match(Replay(us).lots, t.size).quantity else 0.0
  }

  function Orphaned(ts: seq<Trade>): real {
    if ts == [] then 0.0 else Orphaned(ts[..|ts| - 1]) + Excess(ts)
  }

  /** Per token: every bought unit is matched or still open, every sold unit matched or orphaned. */
  lemma {:induction false} QuantitiesBalance(ts: seq<Trade>)
    requires PositiveSizes(ts)
    ensures Bought(ts) == Matched(ts) + Size(Replay(ts).lots)
    ensures Sold(ts) == Matched(ts) + Orphaned(ts)
  {
    if ts != [] {
      var us, t := ts[..|ts| - 1], ts[|ts| - 1];
      QuantitiesBalance(us);
      var a := Replay(us);
      assert ts == us + [t];
      match BaseSide(t.side) {
        case Buy =>
          var lot := Lot(t.size, t.price);
          assert (a.lots + [lot])[..|a.lots|] == a.lots;
        case Sell =>
          MatchConserves(a.lots, t.size);
          RemainderIsExcess(us, t);
        case Other =>
      }
    }
  }
}
