/** Polling the exchange for fills: deliveries may overlap and repeat, each is booked at most once. */
module FillImport {
  import opened Sorting
  import opened Trades
  import opened Fifo
  import opened Portfolio
  import opened Ledger
  import opened Sessions

  datatype Delivery = Delivery(
    id: string, order: Option<string>, token: string, side: string,
    price: real, size: real, fee: real, filledAt: int, market: Option<string>)

  /** Parameters of one poll. */
  datatype Poller = Poller(bot: string, key: string, requireKnownOrder: bool)

  predicate Sized(feed: seq<Delivery>) {
    forall i :: 0 <= i < |feed| ==> feed[i].size > 0.0
  }

  function KnownOrder(orders: map<string, Order>, x: Delivery): Option<Order> {
    if x.order.Some? && x.order.value != "" && x.order.value in orders then Some(orders[x.order.value]) else None
  }

  /** Whether the order table lets this bot book the delivery. */
  predicate Bookable(orders: map<string, Order>, x: Delivery, p: Poller) {
    match KnownOrder(orders, x)
    case None => !p.requireKnownOrder
    case Some(o) => o.bot == p.bot
  }

  /** The condition comes from the order, else from the delivery's market, else it is empty. */
  function ToTrade(orders: map<string, Order>, x: Delivery, bot: string): (t: Trade)
    ensures t.id == x.id && t.size == x.size && t.bot == bot && t.order == x.order
  {
    var own := match KnownOrder(orders, x) case Some(o) => o.condition case None => "";
    var market := if x.market.Some? then x.market.value else "";
    Trade(x.id, bot, x.order, if own != "" then own else market, x.token, x.side, x.price, x.size, x.fee, x.filledAt)
  }

  /** Whether a session that began on `stored` and works on d books the delivery. */
  predicate Books(stored: Tables, d: Tables, x: Delivery, p: Poller, flush: bool) {
    !HasTrade((if flush then d else stored).trades, x.id) && Bookable(d.orders, x, p)
  }

  function ImportOne(
      stored: Tables, d: Tables, x: Delivery, p: Poller, markets: map<string, Market>, flush: bool): Tables
    requires InSession(stored, d) && x.size > 0.0
  {
    if Books(stored, d, x, p, flush) then Booked(stored, d, ToTrade(d.orders, x, p.bot), markets, flush) else d
  }

  /** All deliveries are handled in one session. */
  function Import(d: Tables, feed: seq<Delivery>, p: Poller, markets: map<string, Market>, flush: bool): (r: Tables)
    requires OpenPositive(d.positions) && Sized(feed)
    ensures InSession(d, r) && d.trades <= r.trades
  {
    if feed == [] then d
    else
      var x := feed[|feed| - 1];
      var e := Import(d, feed[..|feed| - 1], p, markets, flush);
      BookedInSession(d, e, ToTrade(e.orders, x, p.bot), markets, flush);
      ImportOne(d, e, x, p, markets, flush)
  }

  /** The most recent cursor event of a key; 0 before the first. */
  function CursorOf(es: seq<Event>, key: string): int {
    if es == [] then 0
    else
      var e := es[|es| - 1];
      if e.FillCursor? && e.key == key then e.since else CursorOf(es[..|es| - 1], key)
  }

  function Latest(since: int, feed: seq<Delivery>): (r: int)
    ensures r >= since && forall i :: 0 <= i < |feed| ==> feed[i].filledAt <= r
    ensures r == since || exists i :: 0 <= i < |feed| && feed[i].filledAt == r
  {
    if feed == [] then since
    else
      var x := feed[|feed| - 1];
      var m := Latest(since, feed[..|feed| - 1]);
      if x.filledAt > m then x.filledAt else m
  }

  /** Deliveries that are skipped still advance the cursor. */
  function WithCursor(d: Tables, e: Tables, feed: seq<Delivery>, p: Poller): Tables
    requires |d.trades| <= |e.trades|
  {
    var since := CursorOf(d.events, p.key);
    var latest := Latest(since, feed);
    if latest > since
    then e.(events := e.events + [FillCursor(p.bot, p.key, latest, |e.trades| - |d.trades|)])
    else e
  }

  /** A poll that would violate a key fails at its commit and changes nothing. */
  function Poll(d: Tables, feed: seq<Delivery>, p: Poller, markets: map<string, Market>, flush: bool): Tables
    requires OpenPositive(d.positions) && Sized(feed)
  {
    AfterCommit(d, WithCursor(d, Import(d, feed, p, markets, flush), feed, p))
  }

  /** Books one delivery unless its id is stored already or its order rules it out. */
  method ImportDelivery(book: Portfolio, x: Delivery, p: Poller) returns (booked: bool)
    requires book.Valid() && x.size > 0.0
    modifies book
    ensures book.Valid() && book.stored == old(book.stored)
    ensures book.View() == ImportOne(book.stored, old(book.View()), x, p, book.markets, book.autoflush)
    ensures booked == Books(book.stored, old(book.View()), x, p, book.autoflush)
  {
    hide Booked, ToTrade;
    var known := KnownOrder(book.orders, x);
    var trades := if book.autoflush then book.trades else book.stored.trades;
    if exists j :: 0 <= j < |trades| && trades[j].id == x.id {
      return false;
    }
    if p.requireKnownOrder && known.None? {
      return false;
    }
    if known.Some? && known.value.bot != p.bot {
      return false;
    }
    book.DoOnFill(ToTrade(book.orders, x, p.bot));
    return true;
  }

  lemma ImportOneCounts(stored: Tables, d: Tables, x: Delivery, p: Poller, markets: map<string, Market>, flush: bool)
    requires InSession(stored, d) && x.size > 0.0
    ensures |ImportOne(stored, d, x, p, markets, flush).trades| ==
            |d.trades| + (if Books(stored, d, x, p, flush) then 1 else 0)
  {
    hide PositionsAfter, EventsAfter, OrdersAfter;
  }

  lemma NothingImported(d: Tables, since: int, p: Poller, markets: map<string, Market>, flush: bool)
    requires OpenPositive(d.positions)
    ensures Sized([]) && Import(d, [], p, markets, flush) == d && Latest(since, []) == since
  {
  }

  lemma ImportedNext(
      d: Tables, since: int, feed: seq<Delivery>, i: nat, p: Poller, markets: map<string, Market>, flush: bool)
    requires OpenPositive(d.positions) && Sized(feed) && i < |feed|
    ensures Sized(feed[..i]) && Sized(feed[..i + 1]) && feed[i].size > 0.0
    ensures var m := Latest(since, feed[..i]);
      && Latest(since, feed[..i + 1]) == (if feed[i].filledAt > m then feed[i].filledAt else m)
      && InSession(d, Import(d, feed[..i], p, markets, flush))
      && Import(d, feed[..i + 1], p, markets, flush) ==
         ImportOne(d, Import(d, feed[..i], p, markets, flush), feed[i], p, markets, flush)
  {
    hide ImportOne, Booked;
    assert feed[..i + 1][..i] == feed[..i];
  }

  /** One poll. A failed fetch (None) changes nothing, nor does a commit that fails (`count` is None). */
  method ReconcileLiveFills(book: Portfolio, fetched: Option<seq<Delivery>>, p: Poller) returns (count: Option<nat>)
    requires book.Valid() && book.Idle()
    requires fetched.Some? ==> Sized(fetched.value)
    modifies book
    ensures book.Valid() && book.Idle()
    ensures fetched.None? ==> count == Some(0) && book.View() == old(book.View())
    ensures fetched.Some? ==>
      var e := Import(old(book.View()), fetched.value, p, book.markets, book.autoflush);
      && book.View() == Poll(old(book.View()), fetched.value, p, book.markets, book.autoflush)
      && count == if Commits(old(book.View()), e) then Some(|book.trades| - |old(book.trades)|) else None
  {
    hide ImportOne, Books, CursorOf, OpenPositive, DistinctIds, OrdersStored, Import, Latest, Sized;
    count := Some(0);
    if fetched.None? {
      return;
    }
    var feed := fetched.value;
    ghost var start := book.View();
    var since := CursorOf(book.stored.events, p.key);
    var latest, booked := since, 0;
    NothingImported(start, since, p, book.markets, book.autoflush);
    for i := 0 to |feed|
      invariant book.Valid() && book.stored == start && Sized(feed[..i])
      invariant book.View() == Import(start, feed[..i], p, book.markets, book.autoflush)
      invariant latest == Latest(since, feed[..i])
      invariant booked == |book.trades| - |start.trades|
    {
      var x := feed[i];
      ImportedNext(start, since, feed, i, p, book.markets, book.autoflush);
      latest := if x.filledAt > latest then x.filledAt else latest;
      ImportOneCounts(start, book.View(), x, p, book.markets, book.autoflush);
      var done := ImportDelivery(book, x, p);
      booked := if done then booked + 1 else booked;
    }
    assert feed[..|feed|] == feed;
    if latest > since {
      book.events := book.events + [FillCursor(p.bot, p.key, latest, booked)];
    }
    var ok := book.Commit();
    count := if ok then Some(booked) else None;
  }

  // ----- what a poll books -----

  lemma BookableAfterFill(
      stored: Tables, d: Tables, t: Trade, markets: map<string, Market>, flush: bool, x: Delivery, p: Poller)
    requires InSession(stored, d) && t.size > 0.0
    ensures var o := Booked(stored, d, t, markets, flush).orders;
      Bookable(o, x, p) == Bookable(d.orders, x, p) && ToTrade(o, x, p.bot) == ToTrade(d.orders, x, p.bot)
  {
    hide PositionsAfter, EventsAfter;
  }

  lemma {:induction false} OrdersKeepTheirBots(
      d: Tables, feed: seq<Delivery>, p: Poller, markets: map<string, Market>, flush: bool, x: Delivery)
    requires OpenPositive(d.positions) && Sized(feed)
    ensures var o := Import(d, feed, p, markets, flush).orders;
      Bookable(o, x, p) == Bookable(d.orders, x, p) && ToTrade(o, x, p.bot) == ToTrade(d.orders, x, p.bot)
  {
    hide Booked, Bookable, ToTrade;
    if feed != [] {
      var vs, y := feed[..|feed| - 1], feed[|feed| - 1];
      OrdersKeepTheirBots(d, vs, p, markets, flush, x);
      var e := Import(d, vs, p, markets, flush);
      SizeKept(e.orders, y, p.bot);
      BookableAfterFill(d, e, ToTrade(e.orders, y, p.bot), markets, flush, x, p);
    }
  }

  lemma SizeKept(orders: map<string, Order>, x: Delivery, bot: string)
    ensures var t := ToTrade(orders, x, bot); t.size == x.size && t.id == x.id && t.order == x.order
  {
  }

  lemma BookedAdds(d: Tables, e: Tables, x: Delivery, p: Poller, markets: map<string, Market>, flush: bool)
    requires InSession(d, e) && d.trades <= e.trades && x.size > 0.0 && Books(d, e, x, p, flush)
    ensures var t := ToTrade(e.orders, x, p.bot);
      && t.size == x.size && t.bot == p.bot && !HasTrade(d.trades, t.id)
      && Added(d, Booked(d, e, t, markets, flush)) == Added(d, e) + [t]
      && (flush && DistinctIds(e.trades) ==> DistinctIds(Booked(d, e, t, markets, flush).trades))
  {
    hide PositionsAfter, EventsAfter, OrdersAfter, Bookable, DistinctIds;
    var t := ToTrade(e.orders, x, p.bot);
    OneMoreId(e, t);
    forall k | 0 <= k < |d.trades| ensures d.trades[k].id != t.id {
      assert e.trades[k] == d.trades[k];
    }
  }

  lemma NothingBooked(d: Tables, markets: map<string, Market>, flush: bool)
    requires OpenPositive(d.positions)
    ensures InOneSession(d, [], markets, flush) == d
  {
  }

  lemma OneMoreBooked(d: Tables, us: seq<Trade>, t: Trade, markets: map<string, Market>, flush: bool)
    requires OpenPositive(d.positions) && PositiveSizes(us) && t.size > 0.0
    ensures InOneSession(d, us + [t], markets, flush) ==
            Booked(d, InOneSession(d, us, markets, flush), t, markets, flush)
  {
    hide Booked;
    assert (us + [t])[..|us|] == us;
  }

  /** Each poll's positions are those of booking what it stored, once, in one session. */
  lemma {:induction false} ImportBooksAdded(
      d: Tables, feed: seq<Delivery>, p: Poller, markets: map<string, Market>, flush: bool)
    requires OpenPositive(d.positions) && Sized(feed)
    ensures var e := Import(d, feed, p, markets, flush);
      var us := Added(d, e);
      && PositiveSizes(us) && e == InOneSession(d, us, markets, flush)
      && (forall i :: 0 <= i < |us| ==> !HasTrade(d.trades, us[i].id) && us[i].bot == p.bot)
      && (flush && DistinctIds(d.trades) ==> DistinctIds(e.trades))
  {
    hide Booked, Books, HasTrade, DistinctIds, ToTrade, OpenPositive, InOneSession;
    if feed == [] {
      NothingBooked(d, markets, flush);
    } else {
      var vs, x := feed[..|feed| - 1], feed[|feed| - 1];
      ImportBooksAdded(d, vs, p, markets, flush);
      var e, r := Import(d, vs, p, markets, flush), Import(d, feed, p, markets, flush);
      if Books(d, e, x, p, flush) {
        BookedAdds(d, e, x, p, markets, flush);
        OneMoreBooked(d, Added(d, e), ToTrade(e.orders, x, p.bot), markets, flush);
      }
    }
  }

  predicate HasId(xs: seq<Delivery>, id: string) {
    exists x :: x in xs && x.id == id
  }

  /**
   * The deliveries a poll books: the bookable ones whose id was not stored before it, and with flushing
   * only the first of each id.
   */
  function Selected(d: Tables, feed: seq<Delivery>, p: Poller, flush: bool): seq<Delivery> {
    if feed == [] then []
    else
      var x := feed[|feed| - 1];
      var before := Selected(d, feed[..|feed| - 1], p, flush);
      if Books(d, d, x, p, false) && (flush ==> !HasId(before, x.id)) then before + [x] else before
  }

  lemma {:induction false} PollBooks(
      d: Tables, feed: seq<Delivery>, p: Poller, markets: map<string, Market>, flush: bool)
    requires OpenPositive(d.positions) && Sized(feed)
    ensures Added(d, Import(d, feed, p, markets, flush)) == TradesOf(d.orders, Selected(d, feed, p, flush), p.bot)
  {
    hide Bookable, ToTrade, Booked, HasTrade, HasId;
    if feed != [] {
      var vs, x := feed[..|feed| - 1], feed[|feed| - 1];
      PollBooks(d, vs, p, markets, flush);
      OrdersKeepTheirBots(d, vs, p, markets, flush, x);
      var e, before := Import(d, vs, p, markets, flush), Selected(d, vs, p, flush);
      StoredSoFar(d, e, before, p.bot, x.id);
      if Books(d, e, x, p, flush) {
        assert (before + [x])[..|before|] == before;
        BookedAdds(d, e, x, p, markets, flush);
      }
    }
  }

  /** An id is stored if it was before the poll or is that of a selected delivery. */
  lemma StoredSoFar(d: Tables, e: Tables, xs: seq<Delivery>, bot: string, id: string)
    requires d.trades <= e.trades && Added(d, e) == TradesOf(d.orders, xs, bot)
    ensures HasTrade(e.trades, id) <==> HasTrade(d.trades, id) || HasId(xs, id)
  {
    hide TradesOf;
    IdsOfTrades(d.orders, xs, bot);
    var us := Added(d, e);
    assert e.trades == d.trades + us;
    if HasTrade(e.trades, id) {
      var k :| 0 <= k < |e.trades| && e.trades[k].id == id;
      if k < |d.trades| { assert d.trades[k].id == id; } else { assert xs[k - |d.trades|] in xs; }
    }
    if HasTrade(d.trades, id) {
      var k :| 0 <= k < |d.trades| && d.trades[k].id == id;
      assert e.trades[k].id == id;
    }
    if HasId(xs, id) {
      var x :| x in xs && x.id == id;
      var k :| 0 <= k < |xs| && xs[k] == x;
      assert e.trades[|d.trades| + k].id == id;
    }
  }

  lemma {:induction false} IdsOfTrades(orders: map<string, Order>, xs: seq<Delivery>, bot: string)
    ensures var us := TradesOf(orders, xs, bot);
      |us| == |xs| && forall i :: 0 <= i < |xs| ==> us[i].id == xs[i].id && us[i].order == xs[i].order
  {
    hide ToTrade;
    if xs != [] {
      IdsOfTrades(orders, xs[..|xs| - 1], bot);
      SizeKept(orders, xs[|xs| - 1], bot);
    }
  }

  function TradesOf(orders: map<string, Order>, xs: seq<Delivery>, bot: string): seq<Trade> {
    if xs == [] then [] else TradesOf(orders, xs[..|xs| - 1], bot) + [ToTrade(orders, xs[|xs| - 1], bot)]
  }

  // ----- at most once -----

  /** A sequence of polls by any pollers, with any feeds. */
  datatype PollStep = PollStep(feed: seq<Delivery>, poller: Poller)

  lemma PollStaysPositive(d: Tables, feed: seq<Delivery>, p: Poller, markets: map<string, Market>, flush: bool)
    requires OpenPositive(d.positions) && Sized(feed)
    ensures var e := Poll(d, feed, p, markets, flush); OpenPositive(e.positions) && d.trades <= e.trades
  {
  }

  function Polls(d: Tables, steps: seq<PollStep>, markets: map<string, Market>, flush: bool): (r: Tables)
    requires OpenPositive(d.positions) && forall i :: 0 <= i < |steps| ==> Sized(steps[i].feed)
    ensures OpenPositive(r.positions) && d.trades <= r.trades
  {
    if steps == [] then d
    else
      var s := steps[|steps| - 1];
      var e := Polls(d, steps[..|steps| - 1], markets, flush);
      PollStaysPositive(e, s.feed, s.poller, markets, flush);
      Poll(e, s.feed, s.poller, markets, flush)
  }

  /** What each of the polls stored. */
  function Batches(d: Tables, steps: seq<PollStep>, markets: map<string, Market>, flush: bool): seq<seq<Trade>>
    requires OpenPositive(d.positions) && forall i :: 0 <= i < |steps| ==> Sized(steps[i].feed)
  {
    if steps == [] then []
    else
      var s := steps[|steps| - 1];
      var e := Polls(d, steps[..|steps| - 1], markets, flush);
      PollStaysPositive(e, s.feed, s.poller, markets, flush);
      Batches(d, steps[..|steps| - 1], markets, flush) + [Added(e, Poll(e, s.feed, s.poller, markets, flush))]
  }

  function Flat(batches: seq<seq<Trade>>): seq<Trade> {
    if batches == [] then [] else Flat(batches[..|batches| - 1]) + batches[|batches| - 1]
  }

  ghost predicate AllPositive(batches: seq<seq<Trade>>) {
    forall i :: 0 <= i < |batches| ==> PositiveSizes(batches[i])
  }

  /** Books each batch in a session of its own. */
  function BookBatches(d: Tables, batches: seq<seq<Trade>>, markets: map<string, Market>, flush: bool): (r: Tables)
    requires OpenPositive(d.positions) && AllPositive(batches)
    ensures OpenPositive(r.positions)
  {
    if batches == [] then d
    else InOneSession(BookBatches(d, batches[..|batches| - 1], markets, flush), batches[|batches| - 1], markets, flush)
  }

  /** Trades and positions of a session depend on trades and positions only. */
  lemma {:induction false} SessionFrame(
      d: Tables, e: Tables, us: seq<Trade>, markets: map<string, Market>, flush: bool)
    requires OpenPositive(d.positions) && d.trades == e.trades && d.positions == e.positions && PositiveSizes(us)
    ensures var f, g := InOneSession(d, us, markets, flush), InOneSession(e, us, markets, flush);
      f.trades == g.trades && f.positions == g.positions
  {
    hide PositionsAfter, EventsAfter, OrdersAfter;
    if us != [] { SessionFrame(d, e, us[..|us| - 1], markets, flush); }
  }

  lemma CursorOnly(d: Tables, e: Tables, feed: seq<Delivery>, p: Poller)
    requires |d.trades| <= |e.trades|
    ensures var w := WithCursor(d, e, feed, p);
      w.trades == e.trades && w.positions == e.positions && w.orders == e.orders && Commits(d, w) == Commits(d, e)
  {
  }

  lemma {:induction false} SessionOrders(d: Tables, us: seq<Trade>, markets: map<string, Market>, flush: bool)
    requires OpenPositive(d.positions) && PositiveSizes(us)
    ensures InOneSession(d, us, markets, flush).orders.Keys == d.orders.Keys
  {
    hide PositionsAfter, EventsAfter, OrdersAfter;
    if us != [] { SessionOrders(d, us[..|us| - 1], markets, flush); }
  }

  lemma OnePoll(d: Tables, feed: seq<Delivery>, p: Poller, markets: map<string, Market>, flush: bool)
    requires OpenPositive(d.positions) && Sized(feed) && DistinctIds(d.trades)
    ensures var e := Poll(d, feed, p, markets, flush);
      && DistinctIds(e.trades) && d.trades <= e.trades && PositiveSizes(Added(d, e))
      && OrdersStored(d.orders, Added(d, e)) && e.orders.Keys == d.orders.Keys
      && e.trades == InOneSession(d, Added(d, e), markets, flush).trades
      && e.positions == InOneSession(d, Added(d, e), markets, flush).positions
  {
    ImportBooksAdded(d, feed, p, markets, flush);
    SessionOrders(d, Added(d, Import(d, feed, p, markets, flush)), markets, flush);
    var e, g := Poll(d, feed, p, markets, flush), Import(d, feed, p, markets, flush);
    CursorOnly(d, g, feed, p);
    if Commits(d, g) {
      assert Added(d, e) == Added(d, g);
    } else {
      assert Added(d, e) == [];
    }
  }

  lemma NoBatches(d: Tables, markets: map<string, Market>, flush: bool)
    requires OpenPositive(d.positions)
    ensures AllPositive([]) && AllStored(d.orders, []) && Flat([]) == [] && BookBatches(d, [], markets, flush) == d
  {
  }

  lemma OneMoreBatch(d: Tables, bs: seq<seq<Trade>>, us: seq<Trade>, markets: map<string, Market>, flush: bool)
    requires OpenPositive(d.positions) && AllPositive(bs) && PositiveSizes(us)
    ensures AllPositive(bs + [us])
    ensures AllStored(d.orders, bs) && OrdersStored(d.orders, us) ==> AllStored(d.orders, bs + [us])
    ensures Flat(bs + [us]) == Flat(bs) + us
    ensures OpenPositive(BookBatches(d, bs, markets, flush).positions)
    ensures BookBatches(d, bs + [us], markets, flush) ==
            InOneSession(BookBatches(d, bs, markets, flush), us, markets, flush)
  {
    hide InOneSession, PositiveSizes, OrdersStored, OpenPositive;
    assert (bs + [us])[..|bs|] == bs;
  }

  /**
   * Over any sequence of polls no trade id is stored twice, and the positions are those that booking
   * each newly stored trade exactly once produces, the trades of each poll in one session.
   */
  lemma {:induction false} ImportedAtMostOnce(
      d: Tables, steps: seq<PollStep>, markets: map<string, Market>, flush: bool)
    requires OpenPositive(d.positions) && DistinctIds(d.trades)
    requires forall i :: 0 <= i < |steps| ==> Sized(steps[i].feed)
    ensures var e, bs := Polls(d, steps, markets, flush), Batches(d, steps, markets, flush);
      && DistinctIds(e.trades) && |bs| == |steps| && e.trades == d.trades + Flat(bs)
      && AllPositive(bs) && AllStored(d.orders, bs) && e.orders.Keys == d.orders.Keys
      && e.trades == BookBatches(d, bs, markets, flush).trades
      && e.positions == BookBatches(d, bs, markets, flush).positions
  {
    hide Poll, DistinctIds, OpenPositive, InOneSession, PositiveSizes, Sized, OrdersStored, Flat, BookBatches;
    hide AllPositive, AllStored;
    if steps == [] {
      NoBatches(d, markets, flush);
    } else {
      var s := steps[|steps| - 1];
      var e := Polls(d, steps[..|steps| - 1], markets, flush);
      var bs := Batches(d, steps[..|steps| - 1], markets, flush);
      ImportedAtMostOnce(d, steps[..|steps| - 1], markets, flush);
      OnePoll(e, s.feed, s.poller, markets, flush);
      var us := Added(e, Poll(e, s.feed, s.poller, markets, flush));
      SameKeysStored(d.orders, e.orders, us);
      OneMoreBatch(d, bs, us, markets, flush);
      SessionFrame(BookBatches(d, bs, markets, flush), e, us, markets, flush);
    }
  }

  /** So with flushing they are those of booking all newly stored trades one by one. */
  lemma {:induction false} FlushedBatchesAreOneByOne(d: Tables, batches: seq<seq<Trade>>, markets: map<string, Market>)
    requires OpenPositive(d.positions) && AllPositive(batches) && AllStored(d.orders, batches)
    ensures PositiveSizes(Flat(batches))
    ensures BookBatches(d, batches, markets, true) == OneByOne(d, Flat(batches), markets, true)
    ensures BookBatches(d, batches, markets, true).orders.Keys == d.orders.Keys
  {
    hide PositiveSizes, OrdersStored;
    if batches == [] {
      assert PositiveSizes([]) by { NothingIsPositive(); }
    } else {
      SameKeysStored(d.orders, BookBatches(d, batches[..|batches| - 1], markets, true).orders, batches[|batches| - 1]);
      var bs, us := batches[..|batches| - 1], batches[|batches| - 1];
      FlushedBatchesAreOneByOne(d, bs, markets);
      FlushedSessionIsOneByOne(BookBatches(d, bs, markets, true), us, markets);
      OneByOneConcat(d, Flat(bs), us, markets, true);
    }
  }

  ghost predicate AllStored(orders: map<string, Order>, batches: seq<seq<Trade>>) {
    forall i :: 0 <= i < |batches| ==> OrdersStored(orders, batches[i])
  }

  lemma SameKeysStored(o: map<string, Order>, r: map<string, Order>, us: seq<Trade>)
    ensures o.Keys == r.Keys ==> OrdersStored(o, us) == OrdersStored(r, us)
  {
  }

  lemma NothingIsPositive()
    ensures PositiveSizes([])
  {
  }

  lemma {:induction false} OneByOneConcat(
      d: Tables, us: seq<Trade>, vs: seq<Trade>, markets: map<string, Market>, flush: bool)
    requires OpenPositive(d.positions) && PositiveSizes(us) && PositiveSizes(vs)
    ensures PositiveSizes(us + vs)
    ensures OneByOne(d, us + vs, markets, flush) == OneByOne(OneByOne(d, us, markets, flush), vs, markets, flush)
  {
    hide AfterFill;
    if vs == [] {
      assert us + vs == us;
    } else {
      assert (us + vs)[..|us + vs| - 1] == us + vs[..|vs| - 1];
      OneByOneConcat(d, us, vs[..|vs| - 1], markets, flush);
    }
  }

  // ----- when a poll fails, and when it is as good as booking one by one -----

  predicate Repeats(feed: seq<Delivery>) {
    exists i, j :: 0 <= i < j < |feed| && feed[i].id == feed[j].id
  }

  /** The order that a delivery names, if any, is stored. */
  predicate OrderKnown(orders: map<string, Order>, x: Delivery) {
    x.order.Some? ==> x.order.value in orders
  }

  /** Some delivery that is booked names an order that is not stored; with flushing, the first of its id. */
  ghost predicate NamesMissingOrder(d: Tables, feed: seq<Delivery>, p: Poller, flush: bool) {
    exists i :: 0 <= i < |feed| && MissingAt(d, feed, p, flush, i)
  }

  ghost predicate MissingAt(d: Tables, feed: seq<Delivery>, p: Poller, flush: bool, i: nat)
    requires i < |feed|
  {
    && Books(d, d, feed[i], p, false) && !OrderKnown(d.orders, feed[i])
    && (flush ==> forall j :: 0 <= j < i && feed[j].id == feed[i].id ==> !Books(d, d, feed[j], p, false))
  }

  /**
   * For every feed, a poll fails exactly if it books a delivery whose order is not stored, flushing or
   * not, or if queries do not flush and the id of a delivery it books is repeated.
   */
  lemma PollFailsExactly(d: Tables, feed: seq<Delivery>, p: Poller, markets: map<string, Market>, flush: bool)
    requires OpenPositive(d.positions) && Sized(feed) && DistinctIds(d.trades)
    ensures !Commits(d, Import(d, feed, p, markets, flush)) <==>
      || NamesMissingOrder(d, feed, p, flush)
      || (!flush && RepeatsSelected(feed, x => Books(d, d, x, p, false)))
  {
    hide Books, Import, HasTrade, InOneSession, DistinctIds, TradesOf, Filter, Repeats, OpenPositive, Selected;
    hide RepeatsSelected, OrdersStored, NamesMissingOrder;
    var e, xs := Import(d, feed, p, markets, flush), Selected(d, feed, p, flush);
    ImportBooksAdded(d, feed, p, markets, flush);
    PollBooks(d, feed, p, markets, flush);
    SessionOrders(d, Added(d, e), markets, flush);
    SameKeysStored(d.orders, e.orders, Added(d, e));
    StoredTradesOf(d.orders, xs, p.bot);
    MissingSelected(d, feed, p, flush);
    if !flush {
      SelectedIsFilter(d, feed, p);
      assert e.trades == d.trades + Added(d, e);
      DistinctAdded(d.trades, Added(d, e));
      DistinctTradesOf(d.orders, xs, p.bot);
      RepeatsAmong(feed, x => Books(d, d, x, p, false));
    }
  }

  lemma DistinctTradesOf(orders: map<string, Order>, xs: seq<Delivery>, bot: string)
    ensures DistinctIds(TradesOf(orders, xs, bot)) <==> !Repeats(xs)
  {
    hide TradesOf;
    IdsOfTrades(orders, xs, bot);
    var us := TradesOf(orders, xs, bot);
    if !Repeats(xs) {
      forall i, j | 0 <= i < j < |us| ensures us[i].id != us[j].id {
        assert xs[i].id != xs[j].id;
      }
    }
  }

  lemma StoredTradesOf(orders: map<string, Order>, xs: seq<Delivery>, bot: string)
    ensures OrdersStored(orders, TradesOf(orders, xs, bot)) <==> forall x :: x in xs ==> OrderKnown(orders, x)
  {
    hide TradesOf;
    IdsOfTrades(orders, xs, bot);
    var us := TradesOf(orders, xs, bot);
    if OrdersStored(orders, us) {
      forall x | x in xs ensures OrderKnown(orders, x) {
        var i :| 0 <= i < |xs| && xs[i] == x;
        assert OrderStored(orders, us[i]);
      }
    }
    if forall x :: x in xs ==> OrderKnown(orders, x) {
      forall i | 0 <= i < |us| ensures OrderStored(orders, us[i]) { assert xs[i] in xs; }
    }
  }

  lemma {:induction false} SelectedIsFilter(d: Tables, feed: seq<Delivery>, p: Poller)
    ensures Selected(d, feed, p, false) == Filter(feed, x => Books(d, d, x, p, false))
  {
    hide Books;
    if feed != [] { SelectedIsFilter(d, feed[..|feed| - 1], p); }
  }

  /** With flushing an id is selected exactly if some bookable delivery has it. */
  lemma {:induction false} SelectedIds(d: Tables, feed: seq<Delivery>, p: Poller, id: string)
    ensures HasId(Selected(d, feed, p, true), id) <==>
      exists j :: 0 <= j < |feed| && feed[j].id == id && Books(d, d, feed[j], p, false)
  {
    hide Books;
    if feed != [] {
      var n := |feed| - 1;
      var vs, x := feed[..n], feed[n];
      var before := Selected(d, vs, p, true);
      SelectedIds(d, vs, p, id);
      SelectedIds(d, vs, p, x.id);
      HasIdLast(before, x, id);
      if j :| 0 <= j < |feed| && feed[j].id == id && Books(d, d, feed[j], p, false) {
        if j < n { assert vs[j].id == id && Books(d, d, vs[j], p, false); }
      }
      if j :| 0 <= j < n && vs[j].id == id && Books(d, d, vs[j], p, false) {
        assert feed[j].id == id && Books(d, d, feed[j], p, false);
      }
    }
  }

  lemma HasIdLast(xs: seq<Delivery>, x: Delivery, id: string)
    ensures HasId(xs + [x], id) <==> HasId(xs, id) || x.id == id
  {
    if HasId(xs, id) {
      var y :| y in xs && y.id == id;
      assert y in xs + [x];
    }
    if x.id == id { assert x in xs + [x]; }
  }

  lemma {:induction false} MissingSelected(d: Tables, feed: seq<Delivery>, p: Poller, flush: bool)
    ensures NamesMissingOrder(d, feed, p, flush) <==>
      exists x :: x in Selected(d, feed, p, flush) && !OrderKnown(d.orders, x)
  {
    hide Books, HasId, OrderKnown, MissingAt, NamesMissingOrder;
    if feed == [] {
      NothingMissing(d, p, flush);
    } else {
      var n := |feed| - 1;
      var vs, x := feed[..n], feed[n];
      var before, after := Selected(d, vs, p, flush), Selected(d, feed, p, flush);
      MissingSelected(d, vs, p, flush);
      MissingLast(d, vs, x, p, flush);
      MissingAtLast(d, vs, x, p, flush);
      assert feed == vs + [x];
      if y :| y in before && !OrderKnown(d.orders, y) { assert y in after; }
      if y :| y in after && !OrderKnown(d.orders, y) { assert y in before || (y == x && after == before + [x]); }
      if after == before + [x] && !OrderKnown(d.orders, x) { assert x in after; }
    }
  }

  lemma NothingMissing(d: Tables, p: Poller, flush: bool)
    ensures !NamesMissingOrder(d, [], p, flush)
  {
  }

  lemma MissingAtLast(d: Tables, vs: seq<Delivery>, x: Delivery, p: Poller, flush: bool)
    ensures MissingAt(d, vs + [x], p, flush, |vs|) <==>
      Books(d, d, x, p, false) && !OrderKnown(d.orders, x) && (flush ==> !HasId(Selected(d, vs, p, flush), x.id))
  {
    hide Books, OrderKnown, HasId, Selected;
    var feed, n := vs + [x], |vs|;
    assert feed[n] == x;
    if flush {
      SelectedIds(d, vs, p, x.id);
      if j :| 0 <= j < n && vs[j].id == x.id && Books(d, d, vs[j], p, false) { assert feed[j] == vs[j]; }
      if j :| 0 <= j < n && feed[j].id == x.id && Books(d, d, feed[j], p, false) { assert feed[j] == vs[j]; }
    }
  }

  lemma MissingLast(d: Tables, vs: seq<Delivery>, x: Delivery, p: Poller, flush: bool)
    ensures NamesMissingOrder(d, vs + [x], p, flush) <==>
      NamesMissingOrder(d, vs, p, flush) || MissingAt(d, vs + [x], p, flush, |vs|)
  {
    hide Books, OrderKnown;
    var feed, n := vs + [x], |vs|;
    forall i | 0 <= i < n ensures MissingAt(d, feed, p, flush, i) == MissingAt(d, vs, p, flush, i) {
      assert feed[i] == vs[i] && forall j :: 0 <= j < i ==> feed[j] == vs[j];
    }
    if NamesMissingOrder(d, vs, p, flush) {
      var i :| 0 <= i < n && MissingAt(d, vs, p, flush, i);
      assert MissingAt(d, feed, p, flush, i);
    }
    if NamesMissingOrder(d, feed, p, flush) {
      var i :| 0 <= i < |feed| && MissingAt(d, feed, p, flush, i);
      if i < n { assert MissingAt(d, vs, p, flush, i); }
    }
  }

  /** An external fill of the wallet whose order this fleet never recorded: the poll fails, flushing or not. */
  lemma UnknownOrderFailsPoll(
      x: Delivery, p: Poller, markets: map<string, Market>, orders: map<string, Order>, flush: bool)
    requires x.size > 0.0 && x.order.Some? && x.order.value !in orders && !p.requireKnownOrder
    ensures var d := Tables([], [], [], orders);
      Books(d, d, x, p, flush) && !Commits(d, Import(d, [x], p, markets, flush)) && Poll(d, [x], p, markets, flush) == d
  {
    hide Import, InOneSession, CursorOf, Latest;
    var d := Tables([], [], [], orders);
    assert MissingAt(d, [x], p, flush, 0);
    PollFailsExactly(d, [x], p, markets, flush);
    CursorOnly(d, Import(d, [x], p, markets, flush), [x], p);
  }

  lemma DistinctAdded(ts: seq<Trade>, us: seq<Trade>)
    requires DistinctIds(ts) && forall i :: 0 <= i < |us| ==> !HasTrade(ts, us[i].id)
    ensures DistinctIds(ts + us) <==> DistinctIds(us)
  {
    if DistinctIds(ts + us) {
      forall i, j | 0 <= i < j < |us| ensures us[i].id != us[j].id {
        assert (ts + us)[|ts| + i].id != (ts + us)[|ts| + j].id;
      }
    }
  }

  lemma RepeatedLast(xs: seq<Delivery>, x: Delivery)
    ensures Repeats(xs + [x]) <==> Repeats(xs) || HasId(xs, x.id)
  {
    var ys := xs + [x];
    if Repeats(xs) {
      var i, j :| 0 <= i < j < |xs| && xs[i].id == xs[j].id;
      assert ys[i].id == ys[j].id;
    }
    if HasId(xs, x.id) {
      var y :| y in xs && y.id == x.id;
      var k :| 0 <= k < |xs| && xs[k] == y;
      assert ys[k].id == ys[|xs|].id;
    }
    if Repeats(ys) {
      var i, j :| 0 <= i < j < |ys| && ys[i].id == ys[j].id;
      if j < |xs| { assert xs[i].id == xs[j].id; } else { assert xs[i] in xs && xs[i].id == x.id; }
    }
  }

  predicate RepeatsSelected(feed: seq<Delivery>, p: Delivery -> bool) {
    exists i, j :: 0 <= i < j < |feed| && feed[i].id == feed[j].id && p(feed[i]) && p(feed[j])
  }

  lemma SelectedLast(vs: seq<Delivery>, x: Delivery, p: Delivery -> bool)
    ensures RepeatsSelected(vs + [x], p) <==> RepeatsSelected(vs, p) || (p(x) && HasId(Filter(vs, p), x.id))
  {
    var feed, n := vs + [x], |vs|;
    FilterMembers(vs, p);
    if RepeatsSelected(feed, p) {
      var i, j :| 0 <= i < j < |feed| && feed[i].id == feed[j].id && p(feed[i]) && p(feed[j]);
      if j < n {
        assert vs[i].id == vs[j].id && p(vs[i]) && p(vs[j]);
      } else {
        assert vs[i] in Filter(vs, p) && vs[i].id == x.id;
      }
    }
    if RepeatsSelected(vs, p) {
      var i, j :| 0 <= i < j < n && vs[i].id == vs[j].id && p(vs[i]) && p(vs[j]);
      assert feed[i].id == feed[j].id && p(feed[i]) && p(feed[j]);
    }
    if p(x) && HasId(Filter(vs, p), x.id) {
      var y :| y in Filter(vs, p) && y.id == x.id;
      var i :| 0 <= i < n && vs[i] == y;
      assert feed[i].id == feed[n].id && p(feed[i]) && p(feed[n]);
    }
  }

  /** Two selected deliveries share an id exactly if two of the feed do that are selected. */
  lemma {:induction false} RepeatsAmong(feed: seq<Delivery>, p: Delivery -> bool)
    ensures Repeats(Filter(feed, p)) <==> RepeatsSelected(feed, p)
  {
    if feed != [] {
      hide Repeats, RepeatsSelected, HasId;
      var n := |feed| - 1;
      RepeatsAmong(feed[..n], p);
      RepeatedLast(Filter(feed[..n], p), feed[n]);
      SelectedLast(feed[..n], feed[n], p);
      assert feed == feed[..n] + [feed[n]];
    }
  }

  /**
   * A deployed poll that commits, against booking what it stores one by one: for every feed and token,
   * the same sizes, and the same OPEN rows, exactly under the conditions on stored rows and fills.
   */
  lemma PollAgainstOneByOne(
      d: Tables, feed: seq<Delivery>, p: Poller, markets: map<string, Market>, bot: string, token: string)
    requires OpenPositive(d.positions) && OneOpen(d.positions) && DistinctIds(d.trades) && Sized(feed)
    requires Commits(d, Import(d, feed, p, markets, false))
    ensures
      var e := Poll(d, feed, p, markets, false);
      var us := Added(d, e);
      var ts, ks := SelectTrades(d.trades, bot, token), SelectTrades(us, bot, token);
      && Fresh(d, us) && e.trades == OneByOne(d, us, markets, false).trades
      && us == TradesOf(d.orders, Selected(d, feed, p, false), p.bot)
      && var rows, one := OpenRows(e.positions, bot, token),
                          OpenRows(OneByOne(d, us, markets, false).positions, bot, token);
         && (Sizes(rows) == Sizes(one) <==> SameHoldings(d.positions, ks, bot, token))
         && (rows == one <==> SameHoldings(d.positions, ks, bot, token) && SameCost(d.positions, ts, ks, bot, token))
  {
    hide SelectTrades, OneOpen, Books, SameHoldings, SameCost, OpenRows, OneByOne, OpenPositive, InOneSession;
    hide Import, DistinctIds, HasTrade, TradesOf, Selected, PositiveSizes, Sized, WithCursor, OrdersStored;
    CursorOnly(d, Import(d, feed, p, markets, false), feed, p);
    ImportBooksAdded(d, feed, p, markets, false);
    PollBooks(d, feed, p, markets, false);
    SessionOrders(d, Added(d, Import(d, feed, p, markets, false)), markets, false);
    SameKeysStored(d.orders, Import(d, feed, p, markets, false).orders, Added(d, Import(d, feed, p, markets, false)));
    var e, g := Poll(d, feed, p, markets, false), Import(d, feed, p, markets, false);
    assert Added(d, e) == Added(d, g);
    assert g.trades == d.trades + Added(d, g);
    DistinctAdded(d.trades, Added(d, g));
    OneByOneTrades(d, Added(d, g), markets, false);
    SessionAgainstOneByOne(d, Added(d, g), markets, bot, token);
  }

  /** One order of a fresh token filled in two pieces within a poll: two OPEN rows. */
  lemma PollOfTwoBuys(d: Tables, x: Delivery, y: Delivery, p: Poller, markets: map<string, Market>)
    requires OpenPositive(d.positions) && OneOpen(d.positions) && DistinctIds(d.trades)
    requires x.size > 0.0 && y.size > 0.0 && x.id != y.id && y.token == x.token
    requires BaseSide(x.side) == BaseSide(y.side) == Buy && OrderKnown(d.orders, x) && OrderKnown(d.orders, y)
    requires Books(d, d, x, p, false) && Books(d, d, y, p, false)
    requires FindOpen(d.positions, p.bot, x.token).None?
    ensures var ps := Poll(d, [x, y], p, markets, false).positions;
      var t, u := ToTrade(d.orders, x, p.bot), ToTrade(d.orders, y, p.bot);
      OpenRows(ps, p.bot, x.token) == [Opened(markets, t), Opened(markets, u)] && !OneOpen(ps)
  {
    hide Import, InOneSession, OneOpen, OpenRows, Opened, Books, HasTrade, OneByOne, FindOpen, WithCursor;
    hide RepeatsSelected, NamesMissingOrder, ToTrade;
    var feed := [x, y];
    var t, u := ToTrade(d.orders, x, p.bot), ToTrade(d.orders, y, p.bot);
    var e := Import(d, feed, p, markets, false);
    PollBooks(d, feed, p, markets, false);
    SelectedBoth(d, x, y, p);
    TradesOfTwo(d.orders, x, y, p.bot);
    ImportBooksAdded(d, feed, p, markets, false);
    SizeKept(d.orders, x, p.bot);
    SizeKept(d.orders, y, p.bot);
    assert !HasTrade(d.trades, [t, u][0].id) && !HasTrade(d.trades, [t, u][1].id);
    DistinctAdded(d.trades, [t, u]);
    assert e.trades == d.trades + [t, u];
    SessionOrders(d, [t, u], markets, false);
    CursorOnly(d, e, feed, p);
    TokenKept(d.orders, x, p.bot);
    TokenKept(d.orders, y, p.bot);
    TwoBuysTwoRows(d, t, u, markets);
  }

  lemma TokenKept(orders: map<string, Order>, x: Delivery, bot: string)
    ensures var t := ToTrade(orders, x, bot); t.token == x.token && t.side == x.side && t.bot == bot
  {
  }

  lemma SelectedBoth(d: Tables, x: Delivery, y: Delivery, p: Poller)
    requires Books(d, d, x, p, false) && Books(d, d, y, p, false)
    ensures Selected(d, [x, y], p, false) == [x, y]
  {
    hide Books;
    assert [x, y][..1] == [x] && [x][..0] == [];
    assert Selected(d, [x], p, false) == [x];
  }

  lemma TradesOfTwo(orders: map<string, Order>, x: Delivery, y: Delivery, bot: string)
    ensures TradesOf(orders, [x, y], bot) == [ToTrade(orders, x, bot), ToTrade(orders, y, bot)]
  {
    hide ToTrade;
    assert [x, y][..1] == [x] && [x][..0] == [];
    assert TradesOf(orders, [x], bot) == [ToTrade(orders, x, bot)];
  }

  // ----- the cursor -----

  lemma {:induction false} ImportKeepsCursors(
      d: Tables, feed: seq<Delivery>, p: Poller, markets: map<string, Market>, flush: bool, key: string)
    requires OpenPositive(d.positions) && Sized(feed)
    ensures CursorOf(Import(d, feed, p, markets, flush).events, key) == CursorOf(d.events, key)
  {
    hide PositionsAfter, OrdersAfter, SellsNothing;
    if feed != [] {
      ImportKeepsCursors(d, feed[..|feed| - 1], p, markets, flush, key);
      var e := Import(d, feed[..|feed| - 1], p, markets, flush);
      var r := Import(d, feed, p, markets, flush);
      if r.events != e.events { assert r.events[..|e.events|] == e.events; }
    }
  }

  /** A poll that commits sets the cursor of its key to the latest time seen, and leaves other keys alone. */
  lemma PollCursor(d: Tables, feed: seq<Delivery>, p: Poller, markets: map<string, Market>, flush: bool, key: string)
    requires OpenPositive(d.positions) && Sized(feed)
    ensures CursorOf(Poll(d, feed, p, markets, flush).events, key) ==
            if key == p.key && Commits(d, Import(d, feed, p, markets, flush))
            then Latest(CursorOf(d.events, key), feed) else CursorOf(d.events, key)
  {
    hide Booked, Commits;
    CursorOnly(d, Import(d, feed, p, markets, flush), feed, p);
    ImportKeepsCursors(d, feed, p, markets, flush, key);
    var e := Import(d, feed, p, markets, flush);
    var r := WithCursor(d, e, feed, p);
    if r.events != e.events { assert r.events[..|e.events|] == e.events; }
  }

  /** Over any sequence of polls no cursor moves back. */
  lemma {:induction false} CursorNeverMovesBack(
      d: Tables, steps: seq<PollStep>, markets: map<string, Market>, flush: bool, key: string)
    requires OpenPositive(d.positions) && forall i :: 0 <= i < |steps| ==> Sized(steps[i].feed)
    ensures CursorOf(Polls(d, steps, markets, flush).events, key) >= CursorOf(d.events, key)
  {
    hide Poll, CursorOf;
    if steps != [] {
      var s := steps[|steps| - 1];
      CursorNeverMovesBack(d, steps[..|steps| - 1], markets, flush, key);
      PollCursor(Polls(d, steps[..|steps| - 1], markets, flush), s.feed, s.poller, markets, flush, key);
    }
  }

  // ----- polling again -----

  /** After an import, no delivery of the batch would be booked again. */
  lemma {:induction false} ImportSettles(
      d: Tables, feed: seq<Delivery>, p: Poller, markets: map<string, Market>, flush: bool, i: nat)
    requires OpenPositive(d.positions) && Sized(feed) && i < |feed|
    ensures var e := Import(d, feed, p, markets, flush);
      !(!HasTrade(e.trades, feed[i].id) && Bookable(e.orders, feed[i], p))
  {
    hide PositionsAfter, EventsAfter, OrdersAfter, Bookable;
    var n := |feed| - 1;
    var e, x := Import(d, feed[..n], p, markets, flush), feed[n];
    var t := ToTrade(e.orders, x, p.bot);
    BookableAfterFill(d, e, t, markets, flush, feed[i], p);
    var f := Booked(d, e, t, markets, flush);
    if Books(d, e, x, p, flush) {
      assert f.trades[|e.trades|].id == x.id;
    } else if !flush && HasTrade(d.trades, x.id) {
      var k :| 0 <= k < |d.trades| && d.trades[k].id == x.id;
      assert e.trades[k] == d.trades[k];
    }
    if i < n {
      ImportSettles(d, feed[..n], p, markets, flush, i);
      if HasTrade(e.trades, feed[i].id) {
        var k :| 0 <= k < |e.trades| && e.trades[k].id == feed[i].id;
        assert f.trades[k] == e.trades[k];
      }
    }
  }

  lemma {:induction false} ImportOfSettled(
      d: Tables, feed: seq<Delivery>, p: Poller, markets: map<string, Market>, flush: bool)
    requires OpenPositive(d.positions) && Sized(feed)
    requires forall i :: 0 <= i < |feed| ==> !Books(d, d, feed[i], p, flush)
    ensures Import(d, feed, p, markets, flush) == d
  {
    if feed != [] { ImportOfSettled(d, feed[..|feed| - 1], p, markets, flush); }
  }

  lemma {:induction false} LatestTwice(since: int, feed: seq<Delivery>)
    ensures Latest(Latest(since, feed), feed) == Latest(since, feed)
  {
    var m := Latest(since, feed);
    var r := Latest(m, feed);
  }

  /** Re-polling with an unchanged feed changes no table; a poll that failed fails again. */
  lemma RepollChangesNothing(d: Tables, feed: seq<Delivery>, p: Poller, markets: map<string, Market>, flush: bool)
    requires OpenPositive(d.positions) && Sized(feed)
    ensures var e := Poll(d, feed, p, markets, flush); Poll(e, feed, p, markets, flush) == e
  {
    hide Booked, Commits, Bookable;
    CursorOnly(d, Import(d, feed, p, markets, flush), feed, p);
    var e := Poll(d, feed, p, markets, flush);
    var g := Import(d, feed, p, markets, flush);
    if Commits(d, g) {
      forall i | 0 <= i < |feed| ensures !Books(e, e, feed[i], p, flush) {
        ImportSettles(d, feed, p, markets, flush, i);
      }
      ImportOfSettled(e, feed, p, markets, flush);
      PollCursor(d, feed, p, markets, flush, p.key);
      LatestTwice(CursorOf(d.events, p.key), feed);
    }
  }
}
