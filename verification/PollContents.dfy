/** What a poll stores, told from its feed and the orders table alone. */
module PollContents {
  import opened Trades
  import opened Portfolio
  import opened Ledger
  import opened FillImport

  /** The delivery names a stored order. */
  predicate NamesOrder(orders: map<string, Order>, order: Option<string>) {
    order.Some? && order.value != "" && order.value in orders
  }

  /** The delivery is for this bot: its order is the bot's own, or it names none that is stored and need not. */
  predicate ForBot(orders: map<string, Order>, x: Delivery, p: Poller) {
    (NamesOrder(orders, x.order) && orders[x.order.value].bot == p.bot) ||
    (!NamesOrder(orders, x.order) && !p.requireKnownOrder)
  }

  /** The row of a delivery: what it says, and the condition of its order or else its own market. */
  predicate RowOf(orders: map<string, Order>, x: Delivery, bot: string, t: Trade) {
    && t.bot == bot && t.id == x.id && t.order == x.order && t.token == x.token && t.side == x.side
    && t.price == x.price && t.size == x.size && t.fee == x.fee && t.filledAt == x.filledAt
    && (NamesOrder(orders, x.order) && orders[x.order.value].condition != "" ==>
          t.condition == orders[x.order.value].condition)
    && (NamesOrder(orders, x.order) && orders[x.order.value].condition == "" ==> FromMarket(x, t))
    && (!NamesOrder(orders, x.order) ==> FromMarket(x, t))
  }

  predicate FromMarket(x: Delivery, t: Trade) {
    (x.market == None ==> t.condition == "") && (x.market != None ==> x.market == Some(t.condition))
  }

  lemma BooksExactly(d: Tables, x: Delivery, p: Poller)
    ensures Books(d, d, x, p, false) <==> !HasTrade(d.trades, x.id) && ForBot(d.orders, x, p)
    ensures RowOf(d.orders, x, p.bot, ToTrade(d.orders, x, p.bot))
  {
    hide HasTrade;
  }

  lemma {:induction false} SelectedAre(d: Tables, feed: seq<Delivery>, p: Poller, flush: bool)
    ensures forall x :: x in Selected(d, feed, p, flush) ==> x in feed && Books(d, d, x, p, false)
  {
    hide Books, HasId;
    if feed != [] { SelectedAre(d, feed[..|feed| - 1], p, flush); }
  }

  lemma {:induction false} SelectedHas(d: Tables, feed: seq<Delivery>, p: Poller, flush: bool, id: string)
    ensures HasId(Selected(d, feed, p, flush), id) <==> exists x :: x in feed && x.id == id && Books(d, d, x, p, false)
  {
    hide Books, HasId;
    if feed == [] {
      assert !HasId([], id) by { NoIds(id); }
    } else {
      var n := |feed| - 1;
      SelectedHas(d, feed[..n], p, flush, id);
      SelectedHas(d, feed[..n], p, flush, feed[n].id);
      HasIdLast(Selected(d, feed[..n], p, flush), feed[n], id);
      assert feed == feed[..n] + [feed[n]];
    }
  }

  lemma NoIds(id: string)
    ensures !HasId([], id)
  {
  }

  lemma {:induction false} RowsOf(orders: map<string, Order>, xs: seq<Delivery>, bot: string)
    ensures var us := TradesOf(orders, xs, bot);
      |us| == |xs| && forall i :: 0 <= i < |xs| ==> us[i] == ToTrade(orders, xs[i], bot)
  {
    hide ToTrade;
    if xs != [] { RowsOf(orders, xs[..|xs| - 1], bot); }
  }

  /** The row is that of a delivery for this bot, and its order, if stored, is the bot's own. */
  ghost predicate Fits(d: Tables, feed: seq<Delivery>, p: Poller, t: Trade) {
    && (exists x :: x in feed && ForBot(d.orders, x, p) && RowOf(d.orders, x, p.bot, t))
    && (NamesOrder(d.orders, t.order) ==> d.orders[t.order.value].bot == p.bot)
    && (p.requireKnownOrder ==> NamesOrder(d.orders, t.order))
  }

  lemma RowFits(d: Tables, feed: seq<Delivery>, p: Poller, x: Delivery, t: Trade)
    requires x in feed && ForBot(d.orders, x, p) && RowOf(d.orders, x, p.bot, t)
    ensures Fits(d, feed, p, t)
  {
  }

  /**
   * For every feed: each row a poll adds is that of a delivery for this bot, none belongs to another
   * bot's order, and with known orders required each has an order of this bot. Conversely a poll that
   * commits has stored an id exactly if it was stored before or some delivery for this bot has it.
   */
  lemma PollTakesItsOwn(d: Tables, feed: seq<Delivery>, p: Poller, markets: map<string, Market>, flush: bool)
    requires OpenPositive(d.positions) && Sized(feed)
    ensures var e := Poll(d, feed, p, markets, flush);
      && d.trades <= e.trades
      && (forall t :: t in Added(d, e) ==> Fits(d, feed, p, t))
      && (Commits(d, Import(d, feed, p, markets, flush)) ==>
            forall id :: HasTrade(e.trades, id) <==>
              HasTrade(d.trades, id) || exists x :: x in feed && x.id == id && ForBot(d.orders, x, p))
  {
    hide Import, Books, ToTrade, HasTrade, TradesOf, Selected, Commits, HasId, ForBot, RowOf, WithCursor, NamesOrder;
    var g, xs := Import(d, feed, p, markets, flush), Selected(d, feed, p, flush);
    CursorOnly(d, g, feed, p);
    PollBooks(d, feed, p, markets, flush);
    SelectedAre(d, feed, p, flush);
    RowsOf(d.orders, xs, p.bot);
    forall x { BooksExactly(d, x, p); }
    if Commits(d, g) {
      var e := Poll(d, feed, p, markets, flush);
      assert Added(d, e) == Added(d, g);
      forall t | t in Added(d, e) ensures Fits(d, feed, p, t) {
        var i :| 0 <= i < |xs| && Added(d, e)[i] == t;
        RowFits(d, feed, p, xs[i], t);
      }
      forall id
        ensures HasTrade(e.trades, id) <==>
          HasTrade(d.trades, id) || exists x :: x in feed && x.id == id && ForBot(d.orders, x, p)
      {
        StoredSoFar(d, e, xs, p.bot, id);
        SelectedHas(d, feed, p, flush, id);
      }
    }
  }

  /** A delivery of an order of another bot is not this bot's trade. */
  lemma OtherBotsOrderIsSkipped(d: Tables, x: Delivery, p: Poller, markets: map<string, Market>, flush: bool)
    requires OpenPositive(d.positions) && x.size > 0.0
    requires NamesOrder(d.orders, x.order) && d.orders[x.order.value].bot != p.bot
    ensures Added(d, Poll(d, [x], p, markets, flush)) == []
    ensures Poll(d, [x], p, markets, flush).positions == d.positions
  {
    hide Booked;
    assert [x][..0] == [];
    assert Import(d, [], p, markets, flush) == d;
    CursorOnly(d, Import(d, [x], p, markets, flush), [x], p);
  }

  /** The cursor event of a poll that commits: written exactly if time moved on, with the number of fills added. */
  lemma CursorEvent(d: Tables, feed: seq<Delivery>, p: Poller, markets: map<string, Market>, flush: bool)
    requires OpenPositive(d.positions) && Sized(feed) && Commits(d, Import(d, feed, p, markets, flush))
    ensures var e := Poll(d, feed, p, markets, flush);
      var es := Import(d, feed, p, markets, flush).events;
      if exists x :: x in feed && x.filledAt > CursorOf(d.events, p.key)
      then |e.events| == |es| + 1 && es <= e.events && e.events[|es|].FillCursor?
           && e.events[|es|].bot == p.bot && e.events[|es|].key == p.key && e.events[|es|].fills == |Added(d, e)|
           && (forall x :: x in feed ==> x.filledAt <= e.events[|es|].since)
           && (exists x :: x in feed && x.filledAt == e.events[|es|].since)
      else e.events == es
  {
    hide Import, Commits;
    CursorOnly(d, Import(d, feed, p, markets, flush), feed, p);
  }
}
