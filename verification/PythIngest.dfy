/** Streaming one-second OHLC bars per price feed, against the batch grouping of the same ticks. */
module PythIngest {
  import opened Sums
  import opened Sorting
  import opened Trades

  datatype Tick = Tick(
    feed: int, symbol: string, price: real, bid: Option<real>, ask: Option<real>, confidence: Option<real>,
    publishers: Option<int>, session: Option<string>, tsMs: int)
  {
    /** Whole seconds, rounded down. */
    function Second(): int {
      tsMs / 1000
    }
  }

  datatype Bar = Bar(
    feed: int, symbol: string, second: int, open: real, high: real, low: real, close: real,
    bid: Option<real>, ask: Option<real>, confidence: Option<real>, publishers: Option<int>,
    session: Option<string>, count: nat)

  function Either<T>(x: Option<T>, y: Option<T>): Option<T> {
    if x.Some? then x else y
  }

  function FirstBar(t: Tick): Bar {
    Bar(t.feed, t.symbol, t.Second(), t.price, t.price, t.price, t.price,
        t.bid, t.ask, t.confidence, t.publishers, t.session, 1)
  }

  function Updated(b: Bar, t: Tick): Bar {
    b.(close := t.price,
       high := if t.price > b.high then t.price else b.high,
       low := if t.price < b.low then t.price else b.low,
       bid := Either(t.bid, b.bid), ask := Either(t.ask, b.ask), confidence := Either(t.confidence, b.confidence),
       publishers := Either(t.publishers, b.publishers), session := Either(t.session, b.session),
       count := b.count + 1)
  }

  class BarBuilder {
    var bar: Bar

    constructor (t: Tick)
      ensures bar == FirstBar(t)
    {
      bar := FirstBar(t);
    }

    /** The extras of a tick replace what is known only where the tick has them. */
    method UpdateExtras(t: Tick)
      modifies this
      ensures bar == old(bar).(
                bid := Either(t.bid, old(bar).bid), ask := Either(t.ask, old(bar).ask),
                confidence := Either(t.confidence, old(bar).confidence),
                publishers := Either(t.publishers, old(bar).publishers), session := Either(t.session, old(bar).session))
    {
      if t.bid.Some? { bar := bar.(bid := t.bid); }
      if t.ask.Some? { bar := bar.(ask := t.ask); }
      if t.confidence.Some? { bar := bar.(confidence := t.confidence); }
      if t.publishers.Some? { bar := bar.(publishers := t.publishers); }
      if t.session.Some? { bar := bar.(session := t.session); }
    }

    method Update(t: Tick)
      modifies this
      ensures bar == Updated(old(bar), t)
    {
      hide Either;
      bar := bar.(close := t.price);
      if t.price > bar.high { bar := bar.(high := t.price); }
      if t.price < bar.low { bar := bar.(low := t.price); }
      UpdateExtras(t);
      bar := bar.(count := bar.count + 1);
    }
  }

  // ----- the aggregator -----

  /** Stored bars are keyed by (second, feed); storing a key again replaces its row. */
  type Store = map<(int, int), Bar>

  datatype State = State(bars: map<int, Bar>, stored: Store)

  function Flushed(stored: Store, b: Bar): Store {
    stored[(b.second, b.feed) := b]
  }

  function AfterTick(s: State, t: Tick): State {
    if t.feed !in s.bars then s.(bars := s.bars[t.feed := FirstBar(t)])
    else
      var b := s.bars[t.feed];
      if b.second != t.Second() then State(s.bars[t.feed := FirstBar(t)], Flushed(s.stored, b))
      else s.(bars := s.bars[t.feed := Updated(b, t)])
  }

  function Streamed(ts: seq<Tick>): State {
    if ts == [] then State(map[], map[]) else AfterTick(Streamed(ts[..|ts| - 1]), ts[|ts| - 1])
  }

  /** Each open bar is stored under its own feed. */
  predicate KeyedByFeed(bars: map<int, Bar>) {
    forall f :: f in bars ==> bars[f].feed == f
  }

  /** The store once every open bar has been flushed. */
  function AllFlushed(s: State): (r: Store)
    requires KeyedByFeed(s.bars)
  {
    var open := map f | f in s.bars :: (s.bars[f].second, f);
    s.stored + (map k | k in open.Values :: s.bars[k.1])
  }

  class PythIngestor {
    var bars: map<int, BarBuilder>
    var stored: Store

    ghost predicate Valid()
      reads this, bars.Values
    {
      && (forall f, g :: f in bars && g in bars && f != g ==> bars[f] != bars[g])
      && (forall f :: f in bars ==> bars[f].bar.feed == f)
    }

    function View(): State
      reads this, bars.Values
    {
      State(map f | f in bars :: bars[f].bar, stored)
    }

    constructor ()
      ensures Valid() && View() == State(map[], map[]) && fresh(bars.Values)
    {
      bars, stored := map[], map[];
    }

    method FlushBar(b: BarBuilder)
      modifies this`stored
      ensures stored == Flushed(old(stored), b.bar)
    {
      stored := stored[(b.bar.second, b.bar.feed) := b.bar];
    }

    method HandleTick(t: Tick)
      requires Valid()
      modifies this, bars.Values
      ensures Valid() && View() == AfterTick(old(View()), t)
      ensures fresh(bars.Values - old(bars.Values))
    {
      hide Updated, FirstBar;
      ghost var before := View();
      if t.feed !in bars || bars[t.feed].bar.second != t.Second() {
        if t.feed in bars {
          FlushBar(bars[t.feed]);
        }
        var b := new BarBuilder(t);
        FirstBarFeed(t);
        bars := bars[t.feed := b];
      } else {
        var b := bars[t.feed];
        UpdatedFeed(b.bar, t);
        b.Update(t);
        assert forall f :: f in bars && f != t.feed ==> bars[f].bar == before.bars[f];
      }
    }

    method FlushOpenBars() returns (flushed: nat)
      requires Valid()
      modifies this
      ensures Valid() && View() == State(map[], AllFlushed(old(View()))) && flushed == |old(bars)|
    {
      hide StoredExcept, AllFlushed, Flushed;
      flushed := |bars|;
      ghost var view := View();
      assert KeyedByFeed(view.bars);
      hide KeyedByFeed;
      NoneFlushed(view);
      assert view.bars.Keys == bars.Keys;
      var rest := bars.Keys;
      while rest != {}
        invariant rest <= bars.Keys
        invariant bars == old(bars) && Valid()
        invariant forall f :: f in bars ==> bars[f].bar == view.bars[f]
        invariant StoredExcept(view, rest, stored)
        decreases |rest|
      {
        assert exists f :: f in rest by { var g := Pick(rest); }
        var f :| f in rest;
        FlushStep(view, rest, f, stored);
        FlushBar(bars[f]);
        rest := rest - {f};
      }
      AllStored(view, stored);
      bars := map[];
    }
  }

  lemma Pick<T>(s: set<T>) returns (x: T)
    requires s != {}
    ensures x in s
  {
    x :| x in s;
  }

  lemma FirstBarFeed(t: Tick)
    ensures FirstBar(t).feed == t.feed
  {
  }

  lemma UpdatedFeed(b: Bar, t: Tick)
    ensures Updated(b, t).feed == b.feed
  {
  }

  /** The store while the bars of some feeds are still to be flushed. */
  ghost predicate StoredExcept(s: State, left: set<int>, stored: Store)
    requires KeyedByFeed(s.bars)
  {
    forall k: (int, int) ::
      var flushed := k.1 in s.bars && k.1 !in left && s.bars[k.1].second == k.0;
      && (k in stored <==> flushed || k in s.stored)
      && (k in stored ==> stored[k] == if flushed then s.bars[k.1] else s.stored[k])
  }

  lemma NoneFlushed(s: State)
    requires KeyedByFeed(s.bars)
    ensures StoredExcept(s, s.bars.Keys, s.stored)
  {
  }

  lemma FlushStep(s: State, left: set<int>, f: int, stored: Store)
    requires KeyedByFeed(s.bars) && f in left && left <= s.bars.Keys && StoredExcept(s, left, stored)
    ensures StoredExcept(s, left - {f}, Flushed(stored, s.bars[f]))
  {
  }

  lemma AllStored(s: State, stored: Store)
    requires KeyedByFeed(s.bars) && StoredExcept(s, {}, stored)
    ensures stored == AllFlushed(s)
  {
    AllFlushedAt(s);
    forall k: (int, int) ensures k in stored <==> k in AllFlushed(s)
      ensures k in stored ==> stored[k] == AllFlushed(s)[k] {}
  }

  lemma AllFlushedAt(s: State)
    requires KeyedByFeed(s.bars)
    ensures StoredExcept(s, {}, AllFlushed(s))
  {
    var open := map f | f in s.bars :: (s.bars[f].second, f);
    forall k: (int, int) ensures k in open.Values <==> k.1 in s.bars && s.bars[k.1].second == k.0 {
      if k.1 in s.bars && s.bars[k.1].second == k.0 { assert open[k.1] == k; }
    }
  }

  // ----- the batch view -----

  function OfFeed(ts: seq<Tick>, feed: int): seq<Tick> {
    Filter(ts, (t: Tick) => t.feed == feed)
  }

  /** The ticks whose milliseconds belong to the second. */
  function OfSecond(ts: seq<Tick>, second: int): seq<Tick> {
    Filter(ts, (t: Tick) => 1000 * second <= t.tsMs < 1000 * second + 1000)
  }

  /** What the last tick that has it says. */
  function LastKnown<T(==)>(ts: seq<Tick>, get: Tick -> Option<T>): Option<T> {
    if ts == [] then None
    else if get(ts[|ts| - 1]) != None then get(ts[|ts| - 1])
    else LastKnown(ts[..|ts| - 1], get)
  }

  function BidOf(t: Tick): Option<real> { t.bid }
  function AskOf(t: Tick): Option<real> { t.ask }
  function ConfidenceOf(t: Tick): Option<real> { t.confidence }
  function PublishersOf(t: Tick): Option<int> { t.publishers }
  function SessionOf(t: Tick): Option<string> { t.session }

  /** b is the bar of the group ts: first, last, largest and smallest price, last known extras, count. */
  ghost predicate Summarises(b: Bar, ts: seq<Tick>) {
    && ts != []
    && b.open == ts[0].price && b.close == ts[|ts| - 1].price
    && (forall i :: 0 <= i < |ts| ==> b.low <= ts[i].price <= b.high)
    && (exists i :: 0 <= i < |ts| && ts[i].price == b.high)
    && (exists i :: 0 <= i < |ts| && ts[i].price == b.low)
    && b.count == |ts| && b.symbol == ts[0].symbol
    && b.bid == LastKnown(ts, BidOf) && b.ask == LastKnown(ts, AskOf)
    && b.confidence == LastKnown(ts, ConfidenceOf) && b.publishers == LastKnown(ts, PublishersOf)
    && b.session == LastKnown(ts, SessionOf)
  }

  function Folded(ts: seq<Tick>): Bar
    requires ts != []
  {
    if |ts| == 1 then FirstBar(ts[0]) else Updated(Folded(ts[..|ts| - 1]), ts[|ts| - 1])
  }

  lemma KnownOfOne<T>(t: Tick, get: Tick -> Option<T>)
    ensures LastKnown([t], get) == get(t)
  {
    assert [t][..0] == [];
  }

  lemma FirstSummarises(t: Tick)
    ensures Summarises(FirstBar(t), [t])
  {
    hide LastKnown;
    KnownOfOne(t, BidOf);
    KnownOfOne(t, AskOf);
    KnownOfOne(t, ConfidenceOf);
    KnownOfOne(t, PublishersOf);
    KnownOfOne(t, SessionOf);
    assert [t][0].price == FirstBar(t).high == FirstBar(t).low;
  }

  lemma UpdateSummarises(b: Bar, ts: seq<Tick>, t: Tick)
    requires Summarises(b, ts)
    ensures Summarises(Updated(b, t), ts + [t])
  {
    var us, c := ts + [t], Updated(b, t);
    assert us[..|ts|] == ts;
    var i :| 0 <= i < |ts| && ts[i].price == b.high;
    var j :| 0 <= j < |ts| && ts[j].price == b.low;
    assert us[i].price == b.high && us[j].price == b.low && us[|ts|].price == t.price;
  }

  lemma {:induction false} FoldedSummarises(ts: seq<Tick>)
    requires ts != []
    ensures Summarises(Folded(ts), ts)
    ensures Folded(ts).second == ts[0].Second() && Folded(ts).feed == ts[0].feed
  {
    hide Summarises;
    if |ts| == 1 {
      assert ts == [ts[0]];
      FirstSummarises(ts[0]);
    } else {
      FoldedSummarises(ts[..|ts| - 1]);
      assert ts == ts[..|ts| - 1] + [ts[|ts| - 1]];
      UpdateSummarises(Folded(ts[..|ts| - 1]), ts[..|ts| - 1], ts[|ts| - 1]);
    }
  }

  // ----- what the stream stores, for any tick order -----

  /** The last uninterrupted run of ticks of one second within a feed. */
  function LastRun(us: seq<Tick>, second: int): seq<Tick> {
    if us == [] then []
    else
      var n := |us| - 1;
      if us[n].Second() != second then LastRun(us[..n], second)
      else if n > 0 && us[n - 1].Second() == second then LastRun(us[..n], second) + [us[n]]
      else [us[n]]
  }

  lemma {:induction false} LastRunTicks(us: seq<Tick>, second: int)
    ensures LastRun(us, second) != [] <==> exists i :: 0 <= i < |us| && us[i].Second() == second
    ensures forall i :: 0 <= i < |LastRun(us, second)| ==> LastRun(us, second)[i].Second() == second
    ensures forall t :: t in LastRun(us, second) ==> t in us
  {
    if us != [] {
      var n := |us| - 1;
      LastRunTicks(us[..n], second);
      assert us == us[..n] + [us[n]];
      if i :| 0 <= i < n && us[..n][i].Second() == second { assert us[i].Second() == second; }
      if i :| 0 <= i < |us| && us[i].Second() == second { assert i < n ==> us[..n][i].Second() == second; }
    }
  }

  function LastSecond(us: seq<Tick>): int
    requires us != []
  {
    us[|us| - 1].Second()
  }

  /** State of one feed after its ticks us: the open bar, and the rows of all other seconds. */
  ghost predicate FeedInvariant(s: State, feed: int, us: seq<Tick>) {
    if us == [] then feed !in s.bars && forall second: int :: (second, feed) !in s.stored
    else
      && feed in s.bars
      && LastRun(us, LastSecond(us)) != []
      && s.bars[feed] == Folded(LastRun(us, LastSecond(us)))
      && s.bars[feed].second == LastSecond(us) && s.bars[feed].feed == feed
      && (forall second :: second != LastSecond(us) ==> RowIs(s.stored, second, feed, LastRun(us, second)))
  }

  ghost predicate RowIs(stored: Store, second: int, feed: int, run: seq<Tick>) {
    && ((second, feed) in stored <==> run != [])
    && (run != [] ==> stored[(second, feed)] == Folded(run))
  }

  lemma LastRunAfter(us: seq<Tick>, t: Tick, second: int)
    ensures LastRun(us + [t], second) ==
      if t.Second() != second then LastRun(us, second)
      else if us != [] && LastSecond(us) == second then LastRun(us, second) + [t]
      else [t]
  {
    assert (us + [t])[..|us|] == us;
  }

  lemma OwnTick(s: State, us: seq<Tick>, t: Tick)
    requires FeedInvariant(s, t.feed, us)
    ensures FeedInvariant(AfterTick(s, t), t.feed, us + [t])
  {
    hide LastRun, FirstBar, Updated;
    var v := us + [t];
    var s' := AfterTick(s, t);
    LastRunAfter(us, t, t.Second());
    FirstBarOf(t);
    if us != [] && LastSecond(us) == t.Second() {
      var run := LastRun(us, t.Second());
      assert (run + [t])[..|run|] == run;
      UpdatedKeeps(s.bars[t.feed], t);
    }
    forall second | second != t.Second() ensures RowIs(s'.stored, second, t.feed, LastRun(v, second)) {
      LastRunAfter(us, t, second);
      if us == [] { NoRun(second); }
      else if second != LastSecond(us) { assert RowIs(s.stored, second, t.feed, LastRun(us, second)); }
    }
  }

  lemma NoRun(second: int)
    ensures LastRun([], second) == []
  {
  }

  lemma FirstBarOf(t: Tick)
    ensures Folded([t]) == FirstBar(t) && FirstBar(t).second == t.Second() && FirstBar(t).feed == t.feed
  {
  }

  lemma UpdatedKeeps(b: Bar, t: Tick)
    ensures Updated(b, t).second == b.second && Updated(b, t).feed == b.feed
  {
  }

  lemma OtherTick(s: State, feed: int, us: seq<Tick>, t: Tick, own: seq<Tick>)
    requires FeedInvariant(s, feed, us) && t.feed != feed && FeedInvariant(s, t.feed, own)
    ensures FeedInvariant(AfterTick(s, t), feed, us)
  {
    hide LastRun, FirstBar, Updated, Folded;
    var s' := AfterTick(s, t);
    forall second: int ensures (second, feed) in s'.stored <==> (second, feed) in s.stored
      ensures (second, feed) in s.stored ==> s'.stored[(second, feed)] == s.stored[(second, feed)] {}
    if us != [] {
      forall second | second != LastSecond(us) ensures RowIs(s'.stored, second, feed, LastRun(us, second)) {
        assert RowIs(s.stored, second, feed, LastRun(us, second));
      }
    }
  }

  lemma {:induction false} StreamInvariant(ts: seq<Tick>, feed: int)
    ensures FeedInvariant(Streamed(ts), feed, OfFeed(ts, feed))
  {
    hide FeedInvariant, AfterTick;
    if ts == [] {
      NothingStreamed(feed);
    } else {
      var us, t := ts[..|ts| - 1], ts[|ts| - 1];
      StreamInvariant(us, feed);
      if t.feed == feed {
        OwnTick(Streamed(us), OfFeed(us, feed), t);
      } else {
        StreamInvariant(us, t.feed);
        OtherTick(Streamed(us), feed, OfFeed(us, feed), t, OfFeed(us, t.feed));
      }
    }
  }

  lemma NothingStreamed(feed: int)
    ensures FeedInvariant(State(map[], map[]), feed, [])
  {
  }

  lemma StreamKeyed(ts: seq<Tick>)
    ensures KeyedByFeed(Streamed(ts).bars)
  {
    forall f | f in Streamed(ts).bars ensures Streamed(ts).bars[f].feed == f {
      StreamInvariant(ts, f);
    }
  }

  /** The stored bars after streaming ts and flushing what is open at the end. */
  function StoredBars(ts: seq<Tick>): Store {
    StreamKeyed(ts);
    AllFlushed(Streamed(ts))
  }

  /**
   * For ticks in any order and any interleaving of feeds: there is one row per (feed, second) that
   * occurs, and it folds the last uninterrupted run of that second within its feed.
   */
  lemma StoredIsLastRun(ts: seq<Tick>, feed: int, second: int)
    ensures RowIs(StoredBars(ts), second, feed, LastRun(OfFeed(ts, feed), second))
  {
    hide LastRun, Folded, Streamed, AllFlushed;
    StreamKeyed(ts);
    var s, us := Streamed(ts), OfFeed(ts, feed);
    StreamInvariant(ts, feed);
    AllFlushedAt(s);
    if us == [] { NoRun(second); }
    else if second != LastSecond(us) { assert RowIs(s.stored, second, feed, LastRun(us, second)); }
  }

  // ----- when that is the whole group -----

  /** Once left, the second is not visited again. */
  ghost predicate Unbroken(us: seq<Tick>, second: int) {
    forall i, j, k :: 0 <= i < j < k < |us| && us[i].Second() == second && us[k].Second() == second
                      ==> us[j].Second() == second
  }

  /** The group of a second is what came before its last run, then that run. */
  lemma {:induction false} LastRunIsSuffix(us: seq<Tick>, second: int) returns (before: seq<Tick>)
    ensures OfSecond(us, second) == before + LastRun(us, second)
  {
    hide OfSecond;
    if us == [] {
      before := [];
      assert OfSecond(us, second) == [] by { NoTicks(second); }
    } else {
      var n := |us| - 1;
      before := LastRunIsSuffix(us[..n], second);
      OfSecondLast(us, second);
      if us[n].Second() == second {
        var run := LastRun(us[..n], second);
        if n > 0 && us[n - 1].Second() == second {
          assert before + run + [us[n]] == before + (run + [us[n]]);
        } else {
          before := before + run;
        }
      }
    }
  }

  lemma NoTicks(second: int)
    ensures OfSecond([], second) == []
  {
  }

  lemma OfSecondLast(us: seq<Tick>, second: int)
    requires us != []
    ensures var n := |us| - 1;
      OfSecond(us, second) == OfSecond(us[..n], second) + if us[n].Second() == second then [us[n]] else []
  {
  }

  lemma {:induction false} SecondOccurs(us: seq<Tick>, second: int)
    ensures OfSecond(us, second) != [] <==> exists i :: 0 <= i < |us| && us[i].Second() == second
  {
    FilterMembers(us, (t: Tick) => 1000 * second <= t.tsMs < 1000 * second + 1000);
    var f := OfSecond(us, second);
    if f != [] { assert f[0] in f; assert f[0] in us; }
    if i :| 0 <= i < |us| && us[i].Second() == second { assert us[i] in f; }
  }

  lemma UnbrokenPrefix(us: seq<Tick>, second: int)
    requires us != []
    ensures var n := |us| - 1;
      && (us[n].Second() != second ==> (Unbroken(us, second) <==> Unbroken(us[..n], second)))
      && (us[n].Second() == second && n > 0 && us[n - 1].Second() == second ==>
            (Unbroken(us, second) <==> Unbroken(us[..n], second)))
      && (us[n].Second() == second && (n == 0 || us[n - 1].Second() != second) ==>
            (Unbroken(us, second) <==> forall i :: 0 <= i < n ==> us[i].Second() != second))
  {
    var n := |us| - 1;
    var vs := us[..n];
    if Unbroken(us, second) {
      forall i, j, k | 0 <= i < j < k < n && vs[i].Second() == second && vs[k].Second() == second
        ensures vs[j].Second() == second { assert us[j].Second() == second; }
      if us[n].Second() == second && n > 0 && us[n - 1].Second() != second {
        forall i | 0 <= i < n ensures us[i].Second() != second {}
      }
    }
    if Unbroken(vs, second) && (us[n].Second() == second ==> n > 0 && us[n - 1].Second() == second) {
      forall i, j, k | 0 <= i < j < k < |us| && us[i].Second() == second && us[k].Second() == second
        ensures us[j].Second() == second
      {
        if k == n && j < n - 1 { assert vs[n - 1].Second() == second; assert vs[j].Second() == second; }
        else if k < n { assert vs[j].Second() == second; }
      }
    }
  }

  /** The last run is the whole group if and only if the second is never left and visited again. */
  lemma {:induction false} LastRunIsGroup(us: seq<Tick>, second: int)
    ensures |LastRun(us, second)| == |OfSecond(us, second)| <==> Unbroken(us, second)
    ensures Unbroken(us, second) ==> LastRun(us, second) == OfSecond(us, second)
  {
    var earlier := LastRunIsSuffix(us, second);
    if us != [] {
      hide Unbroken;
      var n := |us| - 1;
      LastRunIsGroup(us[..n], second);
      UnbrokenPrefix(us, second);
      SecondOccurs(us[..n], second);
      if us[n].Second() == second && !(n > 0 && us[n - 1].Second() == second) {
        GroupBefore(us, second);
      }
    }
  }

  lemma GroupBefore(us: seq<Tick>, second: int)
    requires us != []
    ensures (forall i :: 0 <= i < |us| - 1 ==> us[i].Second() != second) <==> OfSecond(us[..|us| - 1], second) == []
  {
    var n := |us| - 1;
    SecondOccurs(us[..n], second);
    if i :| 0 <= i < n && us[i].Second() == second { assert us[..n][i].Second() == second; }
  }

  /**
   * Streaming equals the batch group-by on a (feed, second) if and only if that feed never comes
   * back to that second after leaving it: then the row summarises the whole group.
   */
  lemma StreamEqualsBatch(ts: seq<Tick>, feed: int, second: int)
    ensures var group := OfSecond(OfFeed(ts, feed), second);
      var rows := StoredBars(ts);
      && ((second, feed) in rows <==> group != [])
      && (group != [] ==>
            && (rows[(second, feed)].count == |group| <==> Unbroken(OfFeed(ts, feed), second))
            && (Unbroken(OfFeed(ts, feed), second) ==>
                  Summarises(rows[(second, feed)], group) && rows[(second, feed)].second == second
                  && rows[(second, feed)].feed == feed))
  {
    hide LastRun, Unbroken, Summarises, StoredBars, Folded;
    var us := OfFeed(ts, feed);
    var run, group := LastRun(us, second), OfSecond(us, second);
    StoredIsLastRun(ts, feed, second);
    LastRunIsGroup(us, second);
    LastRunTicks(us, second);
    SecondOccurs(us, second);
    if group != [] {
      FoldedSummarises(run);
      CountOf(Folded(run), run);
      assert run[0] in us;
      FilterMembers(ts, (t: Tick) => t.feed == feed);
    }
  }

  lemma CountOf(b: Bar, ts: seq<Tick>)
    requires Summarises(b, ts)
    ensures b.count == |ts|
  {
  }

  /** Non-decreasing seconds within each feed rule revisits out. */
  lemma AscendingIsUnbroken(us: seq<Tick>, second: int)
    requires forall i, j :: 0 <= i < j < |us| ==> us[i].Second() <= us[j].Second()
    ensures Unbroken(us, second)
  {
  }

  // ----- no tick is lost -----

  function CountOfBar(b: Bar): real { b.count as real }

  ghost predicate FeedsAscend(ts: seq<Tick>) {
    forall i, j :: 0 <= i < j < |ts| && ts[i].feed == ts[j].feed ==> ts[i].Second() <= ts[j].Second()
  }

  /** Rows already stored for a feed are older than its open bar, and that is as old as its last tick. */
  ghost predicate OpenIsNewest(s: State, ts: seq<Tick>) {
    && (forall second, feed :: (second, feed) in s.stored ==> feed in s.bars && second < s.bars[feed].second)
    && (forall f :: f in s.bars ==>
          s.bars[f].feed == f && exists i :: 0 <= i < |ts| && ts[i].feed == f && ts[i].Second() == s.bars[f].second)
  }

  lemma AscendsBefore(us: seq<Tick>, t: Tick)
    requires FeedsAscend(us + [t])
    ensures FeedsAscend(us)
  {
    var ts := us + [t];
    assert forall i :: 0 <= i < |us| ==> ts[i] == us[i];
  }

  lemma {:induction false} CountsSoFar(ts: seq<Tick>)
    requires FeedsAscend(ts)
    ensures var s := Streamed(ts);
      OpenIsNewest(s, ts) && Sum(s.stored, CountOfBar) + Sum(s.bars, CountOfBar) == |ts| as real
  {
    if ts != [] {
      var us, t := ts[..|ts| - 1], ts[|ts| - 1];
      hide OpenIsNewest, AfterTick, FeedsAscend, Sum;
      assert us + [t] == ts;
      AscendsBefore(us, t);
      CountsSoFar(us);
      TickCounts(Streamed(us), us, t);
      TickKeepsNewest(Streamed(us), us, t);
    }
  }

  lemma TickCounts(s: State, us: seq<Tick>, t: Tick)
    requires OpenIsNewest(s, us)
    ensures var s' := AfterTick(s, t);
      Sum(s'.stored, CountOfBar) + Sum(s'.bars, CountOfBar) ==
      Sum(s.stored, CountOfBar) + Sum(s.bars, CountOfBar) + 1.0
  {
    var s' := AfterTick(s, t);
    SumUpdate(s.bars, t.feed, s'.bars[t.feed], CountOfBar);
    if t.feed in s.bars {
      var b := s.bars[t.feed];
      assert (b.second, b.feed) !in s.stored;
      SumUpdate(s.stored, (b.second, b.feed), b, CountOfBar);
    }
  }

  lemma TickKeepsNewest(s: State, us: seq<Tick>, t: Tick)
    requires OpenIsNewest(s, us) && FeedsAscend(us + [t])
    ensures OpenIsNewest(AfterTick(s, t), us + [t])
  {
    var ts, s' := us + [t], AfterTick(s, t);
    forall f | f in s'.bars
      ensures s'.bars[f].feed == f
      ensures exists i :: 0 <= i < |ts| && ts[i].feed == f && ts[i].Second() == s'.bars[f].second
    {
      if f == t.feed {
        assert ts[|us|] == t;
      } else {
        var i :| 0 <= i < |us| && us[i].feed == f && us[i].Second() == s.bars[f].second;
        assert ts[i] == us[i];
      }
    }
    if t.feed in s.bars {
      var i :| 0 <= i < |us| && us[i].feed == t.feed && us[i].Second() == s.bars[t.feed].second;
      assert ts[i] == us[i] && ts[|us|] == t;
    }
  }

  lemma {:induction false} FlushCounts(s: State)
    requires KeyedByFeed(s.bars)
    requires forall f :: f in s.bars ==> (s.bars[f].second, f) !in s.stored
    ensures Sum(AllFlushed(s), CountOfBar) == Sum(s.stored, CountOfBar) + Sum(s.bars, CountOfBar)
    decreases |s.bars|
  {
    AllFlushedAt(s);
    if s.bars.Keys == {} {
      AllStored(s, s.stored);
      assert s.bars == map[];
    } else {
      var f := Pick(s.bars.Keys);
      var b := s.bars[f];
      var rest := s.(bars := s.bars - {f});
      FlushCounts(rest);
      AllFlushedAt(rest);
      var r := AllFlushed(rest);
      assert (b.second, f) !in r;
      SumUpdate(r, (b.second, f), b, CountOfBar);
      SumRemove(s.bars, f, CountOfBar);
      FlushOneMore(s, f, r);
    }
  }

  lemma FlushOneMore(s: State, f: int, r: Store)
    requires KeyedByFeed(s.bars) && f in s.bars && StoredExcept(s.(bars := s.bars - {f}), {}, r)
    ensures AllFlushed(s) == r[(s.bars[f].second, f) := s.bars[f]]
  {
    AllStored(s, r[(s.bars[f].second, f) := s.bars[f]]);
  }

  /** With non-decreasing seconds per feed, the stored counts add up to the ticks handled. */
  lemma CountsAddUp(ts: seq<Tick>)
    requires FeedsAscend(ts)
    ensures Sum(StoredBars(ts), CountOfBar) == |ts| as real
  {
    hide AllFlushed, Streamed;
    StreamKeyed(ts);
    CountsSoFar(ts);
    FlushCounts(Streamed(ts));
  }
}
