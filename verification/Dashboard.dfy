/** The dashboard's own accountings of the same trades: moving-average P&L and cash P&L. */
module Dashboard {
  import opened Sums
  import opened Sorting
  import opened Decimals
  import opened Trades
  import opened Fifo

  // ----- moving average, one bucket -----

  datatype Key = Key(bot: string, condition: string, token: string)

  datatype Bucket = Bucket(size: real, cost: real, closed: seq<real>)

  const EMPTY_BUCKET: Bucket := Bucket(0.0, 0.0, [])

  function KeyOf(t: Trade): Key {
    Key(t.bot, t.condition, t.token)
  }

  /** The part of a SELL's fee that goes with its matched quantity. */
  function FeeShare(t: Trade, matched: real): real {
    if t.size > 0.0 then Times(matched / t.size, t.fee) else 0.0
  }

  /** Entry fees are part of the cost; a SELL takes out cost at the average and its share of the fee. */
  function BucketStep(b: Bucket, t: Trade): Bucket {
    match BaseSide(t.side)
    case Buy => b.(size := b.size + t.size, cost := b.cost + (Times(t.size, t.price) + t.fee))
    case Sell =>
      if b.size <= 0.0 || Min(t.size, b.size) <= 0.0 then b
      else
        var matched := Min(t.size, b.size);
        var matchedCost := Times(matched, b.cost / b.size);
        var proceeds := Times(matched, t.price) - FeeShare(t, matched);
        var size := b.size - matched;
        Bucket(if size <= 0.0 then 0.0 else size, if size <= 0.0 then 0.0 else b.cost - matchedCost,
               b.closed + [proceeds - matchedCost])
    case Other => b
  }

  function Average(ts: seq<Trade>): Bucket {
    if ts == [] then EMPTY_BUCKET else BucketStep(Average(ts[..|ts| - 1]), ts[|ts| - 1])
  }

  lemma {:induction false} AverageHolds(ts: seq<Trade>)
    requires PositiveSizes(ts)
    ensures var b := Average(ts);
      b.size == Held(ts) && b.size >= 0.0 && (b.size == 0.0 ==> b.cost == 0.0)
  {
    hide Times, FeeShare;
    if ts != [] { AverageHolds(ts[..|ts| - 1]); }
  }

  // ----- all buckets -----

  type Buckets = map<Key, Bucket>

  function GetBucket(m: Buckets, k: Key): Bucket {
    if k in m then m[k] else EMPTY_BUCKET
  }

  function AverageAll(ts: seq<Trade>): Buckets {
    if ts == [] then map[]
    else
      var m, t := AverageAll(ts[..|ts| - 1]), ts[|ts| - 1];
      m[KeyOf(t) := BucketStep(GetBucket(m, KeyOf(t)), t)]
  }

  function OfKey(ts: seq<Trade>, k: Key): seq<Trade> {
    Filter(ts, (t: Trade) => KeyOf(t) == k)
  }

  lemma {:induction false} AverageAllAt(ts: seq<Trade>, k: Key)
    ensures GetBucket(AverageAll(ts), k) == Average(OfKey(ts, k))
  {
    hide BucketStep;
    if ts != [] {
      var us, t := ts[..|ts| - 1], ts[|ts| - 1];
      AverageAllAt(us, k);
      if KeyOf(t) == k {
        assert OfKey(ts, k) == OfKey(us, k) + [t];
        assert (OfKey(us, k) + [t])[..|OfKey(us, k)|] == OfKey(us, k);
      }
    }
  }

  function PnlOf(b: Bucket): real { Total(b.closed) }
  function BucketCost(b: Bucket): real { b.cost }

  ghost function AveragePnl(ts: seq<Trade>): real {
    Sum(AverageAll(ts), PnlOf)
  }

  ghost function AverageOpenCost(ts: seq<Trade>): real {
    Sum(AverageAll(ts), BucketCost)
  }

  /** Books one row in its bucket. */
  method BookRow(b: Bucket, row: Trade) returns (r: Bucket)
    ensures r == BucketStep(b, row)
  {
    hide Times, FeeShare;
    r := b;
    var notional := Times(row.size, row.price);
    match BaseSide(row.side) {
      case Buy => r := b.(size := b.size + row.size, cost := b.cost + (notional + row.fee));
      case Sell =>
        if b.size > 0.0 && Min(row.size, b.size) > 0.0 {
          var matched := Min(row.size, b.size);
          var matchedCost := Times(matched, b.cost / b.size);
          var proceeds := Times(matched, row.price) - FeeShare(row, matched);
          var size, cost := b.size - matched, b.cost - matchedCost;
          if size <= 0.0 {
            size, cost := 0.0, 0.0;
          }
          r := Bucket(size, cost, b.closed + [proceeds - matchedCost]);
        }
      case Other =>
    }
  }

  lemma NothingAveraged(rows: seq<Trade>)
    ensures AverageAll(rows[..0]) == map[]
  {
  }

  lemma RowAveraged(rows: seq<Trade>, i: nat)
    requires i < |rows|
    ensures var m, t := AverageAll(rows[..i]), rows[i];
      AverageAll(rows[..i + 1]) == m[KeyOf(t) := BucketStep(GetBucket(m, KeyOf(t)), t)]
  {
    hide BucketStep;
    assert rows[..i + 1][..i] == rows[..i];
  }

  /** The loop of the trade metrics, then the total over the closed P&L lists of all buckets. */
  method TradeMetrics(rows: seq<Trade>) returns (realised: real, buckets: Buckets)
    ensures buckets == AverageAll(rows) && realised == AveragePnl(rows)
  {
    hide AverageAll, BucketStep;
    buckets := map[];
    NothingAveraged(rows);
    for i := 0 to |rows|
      invariant buckets == AverageAll(rows[..i])
    {
      var k := KeyOf(rows[i]);
      RowAveraged(rows, i);
      var b := if k in buckets then buckets[k] else EMPTY_BUCKET;
      b := BookRow(b, rows[i]);
      buckets := buckets[k := b];
    }
    assert rows[..|rows|] == rows;
    realised := ClosedTotal(buckets);
  }

  /** The closed P&L of all buckets. */
  method ClosedTotal(buckets: Buckets) returns (realised: real)
    ensures realised == Sum(buckets, PnlOf)
  {
    realised := 0.0;
    var rest := buckets;
    while rest != map[]
      invariant realised + Sum(rest, PnlOf) == Sum(buckets, PnlOf)
      decreases |rest|
    {
      var k :| k in rest;
      SumRemove(rest, k, PnlOf);
      var xs := rest[k].closed;
      ghost var start := realised;
      for i := 0 to |xs|
        invariant realised == start + Total(xs[..i])
      {
        assert xs[..i + 1][..i] == xs[..i];
        realised := realised + xs[i];
      }
      assert xs[..|xs|] == xs;
      rest := rest - {k};
    }
  }

  // ----- what the moving average leaves out -----

  /** Notional of oversold remainders, per bucket. */
  function OversoldNotional(ts: seq<Trade>): real {
    if ts == [] then 0.0
    else
      var t := ts[|ts| - 1];
      OversoldNotional(ts[..|ts| - 1]) + Times(Excess(OfKey(ts, KeyOf(t))), t.price)
  }

  /** Fees the moving average never books: on oversold remainders and on unrecognised sides. */
  function UnbookedFees(ts: seq<Trade>): real {
    if ts == [] then 0.0
    else
      var t := ts[|ts| - 1];
      UnbookedFees(ts[..|ts| - 1]) + UnbookedFee(t, Excess(OfKey(ts, KeyOf(t))))
  }

  function UnbookedFee(t: Trade, excess: real): real {
    match BaseSide(t.side)
    case Buy => 0.0
    case Sell => if t.size > 0.0 then Times(excess / t.size, t.fee) else t.fee
    case Other => t.fee
  }

  lemma NoShare(t: Trade)
    requires t.size > 0.0
    ensures FeeShare(t, 0.0) == 0.0
  {
  }

  /** The fee splits in proportion between what is matched and what is not. */
  lemma FeeSplits(t: Trade, excess: real)
    requires t.size > 0.0
    ensures FeeShare(t, t.size - excess) + Times(excess / t.size, t.fee) == t.fee
  {
    hide Times;
    var a, b := (t.size - excess) / t.size, excess / t.size;
    QuotientTimes(t.size - excess, t.size);
    QuotientTimes(excess, t.size);
    TimesDistributes(a, b, t.size);
    TimesIs(a + b, t.size);
    TimesIs(1.0, t.size);
    Cancel(a + b, 1.0, t.size);
    Cancel(1.0, a + b, t.size);
    TimesDistributes(a, b, t.fee);
    TimesIs(1.0, t.fee);
  }

  lemma BucketConserves(b: Bucket, t: Trade, excess: real)
    requires t.size > 0.0 && b.size >= 0.0 && (b.size == 0.0 ==> b.cost == 0.0)
    requires excess == if BaseSide(t.side) == Sell then Max(0.0, t.size - b.size) else 0.0
    ensures var c := BucketStep(b, t);
      PnlOf(c) - c.cost == PnlOf(b) - b.cost + CashOf(t) - Times(excess, t.price) + UnbookedFee(t, excess)
  {
    hide Times, FeeShare;
    TimesZero(t.price);
    FeeSplits(t, excess);
    if BaseSide(t.side) == Sell {
      var matched := t.size - excess;
      TimesDistributes(t.size, excess, t.price);
      if b.size > 0.0 {
        var matchedCost := Times(matched, b.cost / b.size);
        TotalLast(b.closed, Times(matched, t.price) - FeeShare(t, matched) - matchedCost);
        if matched == b.size {
          AllAtAverage(b.size, b.cost);
        }
      } else {
        NoShare(t);
        TimesZero(t.price);
      }
    }
  }

  lemma AllAtAverage(size: real, cost: real)
    requires size > 0.0
    ensures Times(size, cost / size) == cost
  {
    QuotientTimes(cost, size);
    TimesIs(size, cost / size);
    TimesIs(cost / size, size);
  }

  /**
   * Over any history: moving-average P&L is net cash plus average open cost, less the notional of
   * oversold remainders, plus the fees it does not book.
   */
  lemma {:induction false} AveragePnlIsCash(ts: seq<Trade>)
    requires PositiveSizes(ts)
    ensures AveragePnl(ts) == Cash(ts) + AverageOpenCost(ts) - OversoldNotional(ts) + UnbookedFees(ts)
  {
    hide Times, BucketStep, UnbookedFee, CashOf, Average, Excess;
    if ts != [] {
      var us, t := ts[..|ts| - 1], ts[|ts| - 1];
      AveragePnlIsCash(us);
      var m, k := AverageAll(us), KeyOf(t);
      var b := GetBucket(m, k);
      SumUpdate(m, k, BucketStep(b, t), PnlOf);
      SumUpdate(m, k, BucketStep(b, t), BucketCost);
      KeyExcess(ts);
      BucketConserves(b, t, Excess(OfKey(ts, k)));
    }
  }

  lemma KeyExcess(ts: seq<Trade>)
    requires PositiveSizes(ts) && ts != []
    ensures var us, t := ts[..|ts| - 1], ts[|ts| - 1];
      var b := GetBucket(AverageAll(us), KeyOf(t));
      && OfKey(ts, KeyOf(t)) == OfKey(us, KeyOf(t)) + [t]
      && b.size >= 0.0 && (b.size == 0.0 ==> b.cost == 0.0)
      && Excess(OfKey(ts, KeyOf(t))) == if BaseSide(t.side) == Sell then Max(0.0, t.size - b.size) else 0.0
  {
    hide Average, BucketStep;
    var us, t := ts[..|ts| - 1], ts[|ts| - 1];
    var mine := OfKey(us, KeyOf(t));
    AverageAllAt(us, KeyOf(t));
    FilterPositive(us, (u: Trade) => KeyOf(u) == KeyOf(t));
    AverageHolds(mine);
    assert (mine + [t])[..|mine|] == mine;
  }

  // ----- agreement with FIFO -----

  /** Trades of one bot in which a token always belongs to the same condition. */
  ghost predicate OneBook(ts: seq<Trade>) {
    forall t, u :: t in ts && u in ts ==> t.bot == u.bot && (t.token == u.token ==> t.condition == u.condition)
  }

  lemma {:induction false} SameSelection(ts: seq<Trade>, us: seq<Trade>, t: Trade)
    requires OneBook(ts) && t in ts && us <= ts
    ensures OfKey(us, KeyOf(t)) == OfToken(us, t.token)
  {
    if us != [] {
      assert us[|us| - 1] == ts[|us| - 1];
      SameSelection(ts, us[..|us| - 1], t);
    }
  }

  lemma {:induction false} SameOrphans(ts: seq<Trade>)
    requires OneBook(ts)
    ensures OversoldNotional(ts) == OrphanNotional(ts)
  {
    hide Times, Excess;
    if ts != [] {
      SameSelection(ts, ts, ts[|ts| - 1]);
      SameOrphans(ts[..|ts| - 1]);
    }
  }

  lemma {:induction false} CashConcat(ts: seq<Trade>, us: seq<Trade>)
    ensures Cash(ts + us) == Cash(ts) + Cash(us)
  {
    hide CashOf;
    if us == [] {
      assert ts + us == ts;
    } else {
      assert (ts + us)[..|ts + us| - 1] == ts + us[..|us| - 1];
      CashConcat(ts, us[..|us| - 1]);
    }
  }

  lemma CashWithout(ts: seq<Trade>, i: nat)
    requires i < |ts|
    ensures Cash(ts) == Cash(Without(ts, i)) + CashOf(ts[i])
  {
    hide CashOf, Cash;
    var a, t, b := ts[..i], ts[i], ts[i + 1..];
    assert ts == a + [t] + b && Without(ts, i) == a + b;
    CashConcat(a, b);
    CashConcat(a + [t], b);
    CashConcat(a, [t]);
    OneCash(t);
  }

  lemma OneCash(t: Trade)
    ensures Cash([t]) == CashOf(t)
  {
    hide CashOf;
    assert [t][..0] == [];
  }

  /** Cash does not depend on the order of trades. */
  lemma {:induction false} CashOfArrangement(ts: seq<Trade>, us: seq<Trade>)
    requires multiset(ts) == multiset(us)
    ensures Cash(ts) == Cash(us)
    decreases |us|
  {
    hide CashOf;
    if us == [] {
      assert |ts| == |multiset(ts)| == |multiset(us)| == 0;
    } else {
      hide Cash, Without;
      InMultiset(ts, us, us[0]);
      assert us[0] in us;
      var i :| 0 <= i < |ts| && ts[i] == us[0];
      RemoveAt(ts, i);
      RemoveAt(us, 0);
      CashOfArrangement(Without(ts, i), Without(us, 0));
      CashWithout(ts, i);
      CashWithout(us, 0);
    }
  }

  lemma SameElements(ts: seq<Trade>, us: seq<Trade>)
    requires multiset(ts) == multiset(us) && PositiveSizes(ts) && OneBook(ts)
    ensures PositiveSizes(us) && OneBook(us)
  {
    forall t ensures t in ts <==> t in us { InMultiset(ts, us, t); }
    forall i | 0 <= i < |us| ensures us[i].size > 0.0 { assert us[i] in ts; }
  }

  /**
   * FIFO reads the trades of a bot by time and id, the moving average by time alone. For any two
   * arrangements of the same trades, FIFO realised P&L minus moving-average P&L is FIFO open cost minus
   * average open cost, less the fees the moving average does not book, and less what oversells take
   * from the one and not from the other.
   */
  lemma FifoAgainstAverage(ts: seq<Trade>, us: seq<Trade>)
    requires PositiveSizes(ts) && OneBook(ts) && multiset(ts) == multiset(us)
    ensures Realised(ts) - AveragePnl(us) ==
      OpenCost(ts) - AverageOpenCost(us) - UnbookedFees(us) - (OrphanNotional(ts) - OrphanNotional(us))
  {
    hide Realised, AveragePnl, OpenCost, AverageOpenCost, OrphanNotional, OversoldNotional, UnbookedFees, Cash;
    hide PositiveSizes, OneBook;
    SameElements(ts, us);
    RealisedIsCash(ts);
    AveragePnlIsCash(us);
    SameOrphans(us);
    CashOfArrangement(ts, us);
  }

  /** Every SELL is covered by what its token holds, and every side is recognised. */
  ghost predicate NeverOversells(ts: seq<Trade>) {
    forall i :: 0 <= i < |ts| ==>
      BaseSide(ts[i].side) != Other && Excess(OfToken(ts[..i + 1], ts[i].token)) == 0.0
  }

  lemma PrefixNeverOversells(ts: seq<Trade>)
    requires NeverOversells(ts) && ts != []
    ensures NeverOversells(ts[..|ts| - 1])
    ensures BaseSide(ts[|ts| - 1].side) != Other && Excess(OfToken(ts, ts[|ts| - 1].token)) == 0.0
  {
    hide Excess;
    var us := ts[..|ts| - 1];
    forall i | 0 <= i < |us|
      ensures BaseSide(us[i].side) != Other && Excess(OfToken(us[..i + 1], us[i].token)) == 0.0
    {
      assert us[..i + 1] == ts[..i + 1];
    }
    assert ts[..|us| + 1] == ts;
  }

  lemma {:induction false} NoUnbookedFees(ts: seq<Trade>)
    requires PositiveSizes(ts) && OneBook(ts) && NeverOversells(ts)
    ensures UnbookedFees(ts) == 0.0
  {
    hide Excess, NeverOversells, OneBook, OfKey, OfToken, FeeShare, Times;
    if ts != [] {
      var us, t := ts[..|ts| - 1], ts[|ts| - 1];
      PrefixNeverOversells(ts);
      PrefixOneBook(ts);
      NoUnbookedFees(us);
      SameSelection(ts, ts, t);
      WholeShare(t);
      FeeSplits(t, 0.0);
    }
  }

  lemma PrefixOneBook(ts: seq<Trade>)
    requires OneBook(ts) && ts != []
    ensures OneBook(ts[..|ts| - 1])
  {
  }

  lemma WholeShare(t: Trade)
    requires t.size > 0.0
    ensures FeeShare(t, t.size) == t.fee
  {
  }

  lemma {:induction false} NothingOrphaned(ts: seq<Trade>)
    requires NeverOversells(ts)
    ensures OrphanNotional(ts) == 0.0
  {
    hide Excess, Times, NeverOversells, OfToken;
    if ts != [] {
      PrefixNeverOversells(ts);
      NothingOrphaned(ts[..|ts| - 1]);
      TimesZero(ts[|ts| - 1].price);
    }
  }

  /** Without oversells in either arrangement the two methods differ by the difference of their open costs alone... */
  lemma AgreementWithoutOversell(ts: seq<Trade>, us: seq<Trade>)
    requires PositiveSizes(ts) && OneBook(ts) && multiset(ts) == multiset(us)
    requires NeverOversells(ts) && NeverOversells(us)
    ensures Realised(ts) - AveragePnl(us) == OpenCost(ts) - AverageOpenCost(us)
  {
    hide Realised, AveragePnl, OpenCost, AverageOpenCost, UnbookedFees, OrphanNotional, NeverOversells;
    SameElements(ts, us);
    FifoAgainstAverage(ts, us);
    NoUnbookedFees(us);
    NothingOrphaned(ts);
    NothingOrphaned(us);
  }

  /** ...so they coincide whenever holdings are back to zero. */
  lemma AgreementWhenFlat(ts: seq<Trade>, us: seq<Trade>)
    requires PositiveSizes(ts) && OneBook(ts) && multiset(ts) == multiset(us)
    requires NeverOversells(ts) && NeverOversells(us)
    requires forall t :: t in ts ==> Held(OfToken(ts, t.token)) == 0.0 && Held(OfToken(us, t.token)) == 0.0
    ensures Realised(ts) == AveragePnl(us)
  {
    hide Realised, AveragePnl, OpenCost, AverageOpenCost, NeverOversells, Held;
    SameElements(ts, us);
    forall t ensures t in ts <==> t in us { InMultiset(ts, us, t); }
    AgreementWithoutOversell(ts, us);
    FlatOpenCost(ts);
    FlatAverageCost(us);
  }

  lemma FlatOpenCost(ts: seq<Trade>)
    requires PositiveSizes(ts) && forall t :: t in ts ==> Held(OfToken(ts, t.token)) == 0.0
    ensures OpenCost(ts) == 0.0
  {
    hide Replay, Step, Held;
    var m := ReplayAll(ts);
    forall token | token in m ensures CostOf(m[token]) == 0.0 {
      ReplayAllAt(ts, token);
      OfTokenIn(ts, token);
      var i :| 0 <= i < |ts| && ts[i].token == token;
      assert ts[i] in ts;
      FilterPositive(ts, (t: Trade) => t.token == token);
      ReplayHolds(OfToken(ts, token));
      ReplayPositive(OfToken(ts, token));
      SizePositive(Replay(OfToken(ts, token)).lots);
    }
    SumZero(m, CostOf);
  }

  lemma FlatAverageCost(us: seq<Trade>)
    requires PositiveSizes(us) && OneBook(us) && forall t :: t in us ==> Held(OfToken(us, t.token)) == 0.0
    ensures AverageOpenCost(us) == 0.0
  {
    hide Average, BucketStep, Held, OneBook;
    var n := AverageAll(us);
    forall k | k in n ensures BucketCost(n[k]) == 0.0 {
      AverageAllAt(us, k);
      var t := KeyInHistory(us, k);
      SameSelection(us, us, t);
      FilterPositive(us, (u: Trade) => KeyOf(u) == k);
      AverageHolds(OfKey(us, k));
    }
    SumZero(n, BucketCost);
  }

  lemma {:induction false} KeyInHistory(ts: seq<Trade>, k: Key) returns (t: Trade)
    requires k in AverageAll(ts)
    ensures t in ts && KeyOf(t) == k
  {
    hide BucketStep;
    t := ts[|ts| - 1];
    if KeyOf(t) != k { t := KeyInHistory(ts[..|ts| - 1], k); }
  }

  // ----- cash P&L by SQL -----

  function Upper(c: char): char {
    if 'a' <= c <= 'z' then c - 'a' + 'A' else c
  }

  /** SQLite's `LIKE 'SELL%'`, which ignores the case of ASCII letters. */
  predicate LikeSell(side: string) {
    |side| >= 4 && Upper(side[0]) == 'S' && Upper(side[1]) == 'E' && Upper(side[2]) == 'L' && Upper(side[3]) == 'L'
  }

  /** Letter by letter, in either case; so any spelling that FIFO takes for a SELL, and others besides. */
  lemma LikeSellExactly(side: string)
    ensures LikeSell(side) <==>
      |side| >= 4 && side[0] in ['S', 's'] && side[1] in ['E', 'e'] && side[2] in ['L', 'l'] && side[3] in ['L', 'l']
    ensures BaseSide(side) == Sell ==> LikeSell(side)
    ensures BaseSide(side) == Buy ==> !LikeSell(side)
  {
    UpperIs(side);
    assert "SELL_"[0] == 'S' && "SELL-"[0] == 'S' && "BUY_"[0] == 'B' && "BUY-"[0] == 'B';
  }

  lemma UpperIs(side: string)
    ensures forall i :: 0 <= i < |side| ==>
      && (Upper(side[i]) == 'S' <==> side[i] == 'S' || side[i] == 's')
      && (Upper(side[i]) == 'E' <==> side[i] == 'E' || side[i] == 'e')
      && (Upper(side[i]) == 'L' <==> side[i] == 'L' || side[i] == 'l')
  {
  }

  function SqlCashOf(t: Trade): real {
    if LikeSell(t.side) then Times(t.size, t.price) - t.fee else -(Times(t.size, t.price) + t.fee)
  }

  function SqlCash(ts: seq<Trade>): real {
    if ts == [] then 0.0 else SqlCash(ts[..|ts| - 1]) + SqlCashOf(ts[|ts| - 1])
  }

  /** Signed notional of trades whose side FIFO does not recognise. */
  function StrayNotional(ts: seq<Trade>): real {
    if ts == [] then 0.0
    else
      var t := ts[|ts| - 1];
      StrayNotional(ts[..|ts| - 1]) +
      if BaseSide(t.side) != Other then 0.0
      else if LikeSell(t.side) then Times(t.size, t.price) else -Times(t.size, t.price)
  }

  lemma {:induction false} SqlCashSplit(ts: seq<Trade>)
    ensures SqlCash(ts) == Cash(ts) + StrayNotional(ts)
  {
    hide Times;
    if ts != [] { SqlCashSplit(ts[..|ts| - 1]); }
  }

  /**
   * For every history, oversells and odd sides included, the dashboard's cash P&L is FIFO realised
   * P&L minus open-lot cost plus the notional of unmatched SELL remainders and of stray sides.
   */
  lemma CashAgainstFifo(ts: seq<Trade>)
    requires PositiveSizes(ts)
    ensures SqlCash(ts) == Realised(ts) - OpenCost(ts) + OrphanNotional(ts) + StrayNotional(ts)
  {
    hide Realised, OpenCost, OrphanNotional, StrayNotional, SqlCash, Cash;
    RealisedIsCash(ts);
    SqlCashSplit(ts);
  }
}
