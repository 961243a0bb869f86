/** Rows of the trades table, the side convention and the processing order. */
module Trades {
  import opened Sorting

  datatype Option<+T> = None | Some(value: T)

  datatype Trade = Trade(
    id: string, bot: string, order: Option<string>, condition: string, token: string,
    side: string, price: real, size: real, fee: real, filledAt: int)

  datatype Side = Buy | Sell | Other

  /** Bots record either plain `BUY`/`SELL` or signal-side `BUY_YES`, `SELL-NO` and so on. */
  function BaseSide(side: string): Side {
    if side == "BUY" || "BUY_" <= side || "BUY-" <= side then Buy
    else if side == "SELL" || "SELL_" <= side || "SELL-" <= side then Sell
    else Other
  }

  /** Plain exchange sides mean what they say. */
  lemma PlainSides()
    ensures BaseSide("BUY") == Buy && BaseSide("SELL") == Sell
  {
    var s := "SELL";
    assert s[0] == 'S' && "BUY_"[0] == 'B' && "BUY-"[0] == 'B' && "BUY"[0] == 'B';
  }

  /** Python's order on strings. */
  predicate StringLe(a: string, b: string) {
    a == "" || (b != "" && (a[0] < b[0] || (a[0] == b[0] && StringLe(a[1..], b[1..]))))
  }

  /** The `(filled_at, trade_id)` order. */
  predicate TradeLe(a: Trade, b: Trade) {
    a.filledAt < b.filledAt || (a.filledAt == b.filledAt && StringLe(a.id, b.id))
  }

  lemma {:induction false} StringLeTotal(a: string, b: string)
    ensures StringLe(a, b) || StringLe(b, a)
  {
    if a != "" && b != "" && a[0] == b[0] { StringLeTotal(a[1..], b[1..]); }
  }

  lemma {:induction false} StringLeTransitive(a: string, b: string, c: string)
    requires StringLe(a, b) && StringLe(b, c)
    ensures StringLe(a, c)
  {
    if a != "" && b != "" && a[0] == b[0] && c != "" && b[0] == c[0] {
      StringLeTransitive(a[1..], b[1..], c[1..]);
    }
  }

  /** The strings agree up to i, where the first has the smaller character. */
  predicate SmallerAt(a: string, b: string, i: nat) {
    i < |a| && i < |b| && a[..i] == b[..i] && a[i] < b[i]
  }

  /** One string comes before another if it is a prefix of it or smaller where they first differ. */
  lemma {:induction false} StringOrder(a: string, b: string)
    ensures StringLe(a, b) <==> a <= b || exists i: nat :: SmallerAt(a, b, i)
  {
    if a != "" && b != "" && a[0] == b[0] {
      StringOrder(a[1..], b[1..]);
      if i: nat :| SmallerAt(a[1..], b[1..], i) {
        assert a[..i + 1] == [a[0]] + a[1..][..i] == b[..i + 1];
        assert SmallerAt(a, b, i + 1);
      }
      if i: nat :| SmallerAt(a, b, i) {
        assert a[1..][..i - 1] == a[..i][1..] == b[1..][..i - 1];
        assert SmallerAt(a[1..], b[1..], i - 1);
      }
      assert a[1..] <= b[1..] <==> a <= b;
    } else if a != "" && b != "" {
      if a[0] < b[0] { assert SmallerAt(a, b, 0); }
      if i: nat :| SmallerAt(a, b, i) { assert i == 0 || a[..i][0] == b[..i][0]; }
    }
  }

  /** Sorted trades come by time, and those of one time by their ids. */
  lemma ProcessingOrder(ts: seq<Trade>, i: nat, j: nat)
    requires i < j < |ts|
    ensures var s := Sort(TradeLe, ts);
      && |s| == |ts| && multiset(s) == multiset(ts) && s[i].filledAt <= s[j].filledAt
      && (s[i].filledAt == s[j].filledAt ==>
            s[i].id <= s[j].id || exists k: nat :: SmallerAt(s[i].id, s[j].id, k))
  {
    TradeOrder();
    SortElements(TradeLe, ts);
    SortSorts(TradeLe, ts);
    var s := Sort(TradeLe, ts);
    assert |multiset(s)| == |multiset(ts)|;
    assert TradeLe(s[i], s[j]);
    StringOrder(s[i].id, s[j].id);
  }

  /** Rows of one id are the same row. */
  ghost predicate OneRowPerId(ts: seq<Trade>) {
    forall t, u :: t in ts && u in ts && t.id == u.id ==> t == u
  }

  lemma {:induction false} StringLeAntisymmetric(a: string, b: string)
    requires StringLe(a, b) && StringLe(b, a)
    ensures a == b
  {
    if a != "" && b != "" {
      StringLeAntisymmetric(a[1..], b[1..]);
      assert a == [a[0]] + a[1..] && b == [b[0]] + b[1..];
    }
  }

  /** The processing order does not depend on the order in which rows are stored. */
  lemma StorageOrderIrrelevant(ts: seq<Trade>, us: seq<Trade>)
    requires OneRowPerId(ts) && multiset(ts) == multiset(us)
    ensures Sort(TradeLe, ts) == Sort(TradeLe, us)
  {
    TradeOrder();
    forall t, u | t in ts && u in ts && TradeLe(t, u) && TradeLe(u, t) ensures t == u {
      StringLeAntisymmetric(t.id, u.id);
    }
    SortIgnoresOrder(TradeLe, ts, us);
  }

  lemma TradeOrder()
    ensures Preorder(TradeLe)
  {
    forall a: Trade, b: Trade ensures TradeLe(a, b) || TradeLe(b, a) {
      StringLeTotal(a.id, b.id);
    }
    forall a: Trade, b: Trade, c: Trade | TradeLe(a, b) && TradeLe(b, c) ensures TradeLe(a, c) {
      if a.filledAt == b.filledAt == c.filledAt { StringLeTransitive(a.id, b.id, c.id); }
    }
  }

  /** Trades selected by `WHERE bot_id = bot` and by `WHERE token_id = token`. */
  function OfBot(ts: seq<Trade>, bot: string): (r: seq<Trade>) {
    Filter(ts, (t: Trade) => t.bot == bot)
  }

  function OfToken(ts: seq<Trade>, token: string): (r: seq<Trade>) {
    Filter(ts, (t: Trade) => t.token == token)
  }
}
