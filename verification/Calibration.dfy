/** Rolling order-book imbalance per subscription, and the counts it feeds, over the recorder replay. */
module Calibration {
  import opened Sums
  import opened Sorting
  import opened Quarantine
  import opened Trades
  import opened EventMerge

  datatype Tick = Tick(ts: int, asset: string, size: real)

  predicate Truthy(o: Option<string>) {
    o.Some? && o.value != ""
  }

  function SubOf(e: Event): string {
    if e.sub.Some? then e.sub.value else ""
  }

  // ----- imbalance of a list of trades -----

  function Volume(ts: seq<Tick>, asset: Option<string>): real {
    if ts == [] then 0.0
    else
      var t := ts[|ts| - 1];
      Volume(ts[..|ts| - 1], asset) + if Some(t.asset) == asset then t.size else 0.0
  }

  function Recent(ts: seq<Tick>, cutoff: int): seq<Tick> {
    Filter(ts, (t: Tick) => t.ts >= cutoff)
  }

  /** Imbalance of the trades in the list, if there are enough of them and they weigh enough. */
  function Imbalance(ts: seq<Tick>, yes: Option<string>, no: Option<string>): Option<real> {
    var y, n := Volume(ts, yes), Volume(ts, no);
    if |ts| < 2 || !Truthy(yes) || y + n < 1.0 then None else Some((y - n) / (y + n))
  }

  predicate PositiveTicks(ts: seq<Tick>) {
    forall i :: 0 <= i < |ts| ==> ts[i].size > 0.0
  }

  lemma {:induction false} VolumeNonNegative(ts: seq<Tick>, asset: Option<string>)
    requires PositiveTicks(ts)
    ensures Volume(ts, asset) >= 0.0
  {
    if ts != [] { VolumeNonNegative(ts[..|ts| - 1], asset); }
  }

  lemma ImbalanceBounded(ts: seq<Tick>, yes: Option<string>, no: Option<string>)
    requires PositiveTicks(ts) && Imbalance(ts, yes, no).Some?
    ensures -1.0 <= Imbalance(ts, yes, no).value <= 1.0
  {
    VolumeNonNegative(ts, yes);
    VolumeNonNegative(ts, no);
    Fraction(Volume(ts, yes), Volume(ts, no));
  }

  lemma Fraction(y: real, n: real)
    requires y >= 0.0 && n >= 0.0 && y + n >= 1.0
    ensures -1.0 <= (y - n) / (y + n) <= 1.0
  {
  }

  // ----- rolling state of one subscription -----

  /** The value of a SubscriptionState: rolling trades and the token ids learned so far. */
  datatype Sub = Sub(rolling: seq<Tick>, yes: Option<string>, no: Option<string>)

  const NEW_SUB: Sub := Sub([], None, None)

  class SubscriptionState {
    var rolling: seq<Tick>
    var yes: Option<string>
    var no: Option<string>

    function View(): Sub
      reads this
    {
      Sub(rolling, yes, no)
    }

    constructor ()
      ensures View() == NEW_SUB
    {
      rolling, yes, no := [], None, None;
    }

    /** Keeps, in order, exactly the trades that are not older than the window. */
    method PruneTrades(now: int, window: int)
      modifies this`rolling
      ensures rolling == Recent(old(rolling), now - window)
      ensures forall t :: t in rolling <==> t in old(rolling) && t.ts >= now - window
    {
      var cutoff := now - window;
      var kept := [];
      for i := 0 to |rolling|
        invariant kept == Recent(rolling[..i], cutoff)
      {
        assert rolling[..i + 1][..i] == rolling[..i];
        if rolling[i].ts >= cutoff { kept := kept + [rolling[i]]; }
      }
      assert rolling[..|rolling|] == rolling;
      FilterMembers(rolling, (t: Tick) => t.ts >= cutoff);
      rolling := kept;
    }

    method Obi(now: int, window: int) returns (r: Option<real>)
      modifies this
      ensures View() == old(View()).(rolling := Recent(old(rolling), now - window))
      ensures r == Imbalance(rolling, yes, no)
    {
      PruneTrades(now, window);
      if |rolling| < 2 || !Truthy(yes) {
        return None;
      }
      var yesVol, noVol := 0.0, 0.0;
      for i := 0 to |rolling|
        invariant yesVol == Volume(rolling[..i], yes) && noVol == Volume(rolling[..i], no)
      {
        assert rolling[..i + 1][..i] == rolling[..i];
        if Some(rolling[i].asset) == yes { yesVol := yesVol + rolling[i].size; }
        if Some(rolling[i].asset) == no { noVol := noVol + rolling[i].size; }
      }
      assert rolling[..|rolling|] == rolling;
      var total := yesVol + noVol;
      if total < 1.0 {
        return None;
      }
      return Some((yesVol - noVol) / total);
    }
  }

  // ----- what one event does to the states -----

  type Subs = map<string, Sub>

  function SubAt(m: Subs, k: string): Sub {
    if k in m then m[k] else NEW_SUB
  }

  predicate IsReconnect(e: Event) {
    e.kind == "reconnect" && Truthy(e.sub)
  }

  predicate IsQuote(e: Event) {
    e.kind == "pm_book" || e.kind == "pm_price"
  }

  predicate IsTrade(e: Event) {
    e.kind == "pm_trade" && e.size > 0.0 && Truthy(e.asset)
  }

  /** The first asset seen is taken for YES, the next different one for NO. */
  function Learn(s: Sub, asset: Option<string>): Sub {
    if !Truthy(asset) then s
    else if s.yes.None? then s.(yes := asset)
    else if s.yes != asset && s.no.None? then s.(no := asset)
    else s
  }

  function Traded(s: Sub, e: Event, window: int): Sub
    requires e.asset.Some?
  {
    s.(rolling := Recent(s.rolling + [Tick(e.ts, e.asset.value, e.size)], e.ts - window))
  }

  function After(m: Subs, e: Event, window: int): Subs {
    var k := SubOf(e);
    if IsReconnect(e) then m - {k}
    else if IsQuote(e) then m[k := Learn(SubAt(m, k), e.asset)]
    else if IsTrade(e) then m[k := Traded(SubAt(m, k), e, window)]
    else if e.kind == "pm_trade" then m[k := SubAt(m, k)]
    else m
  }

  function States(es: seq<Event>, window: int): Subs {
    if es == [] then map[] else After(States(es[..|es| - 1], window), es[|es| - 1], window)
  }

  // ----- the same values from scratch -----

  /** The events after the last reconnect of a subscription in the list. */
  function SinceReconnect(es: seq<Event>, k: string): seq<Event> {
    if es == [] then []
    else
      var e := es[|es| - 1];
      if IsReconnect(e) && SubOf(e) == k then [] else SinceReconnect(es[..|es| - 1], k) + [e]
  }

  /** All trades of a subscription in a list of events. */
  function TradesOf(es: seq<Event>, k: string): seq<Tick> {
    if es == [] then []
    else
      var e := es[|es| - 1];
      TradesOf(es[..|es| - 1], k) +
      if IsTrade(e) && SubOf(e) == k then [Tick(e.ts, e.asset.value, e.size)] else []
  }

  /** The assets quoted for a subscription, in order. */
  function Quoted(es: seq<Event>, k: string): seq<string> {
    if es == [] then []
    else
      var e := es[|es| - 1];
      Quoted(es[..|es| - 1], k) +
      if IsQuote(e) && SubOf(e) == k && Truthy(e.asset) then [e.asset.value] else []
  }

  function First(xs: seq<string>): Option<string> {
    if xs == [] then None else Some(xs[0])
  }

  function FirstOther(xs: seq<string>): Option<string> {
    First(Filter(xs, (x: string) => xs != [] && x != xs[0]))
  }

  /**
   * The imbalance at the last of the given events, recomputed from nothing: from the trades and
   * quotes of its subscription since its last reconnect among them, restricted to the window. The
   * replay is given kept rows only; Recording relates this to reconnects that were dropped.
   */
  function FreshImbalance(es: seq<Event>, window: int): Option<real>
    requires es != []
  {
    var e := es[|es| - 1];
    var k := SubOf(e);
    var since := SinceReconnect(es, k);
    if !IsTrade(e) then None
    else Imbalance(Recent(TradesOf(since, k), e.ts - window), First(Quoted(since, k)), FirstOther(Quoted(since, k)))
  }

  // ----- the rolling state tracks the fresh one -----

  ghost predicate SameRecent(a: seq<Tick>, b: seq<Tick>, cutoff: int) {
    Recent(a, cutoff) == Recent(b, cutoff)
  }

  /** s may have dropped trades, but none that a later window could reach. */
  ghost predicate Tracks(s: Sub, es: seq<Event>, k: string, last: int) {
    var since := SinceReconnect(es, k);
    && (forall cutoff :: cutoff >= last ==> SameRecent(s.rolling, TradesOf(since, k), cutoff))
    && s.yes == First(Quoted(since, k))
    && s.no == FirstOther(Quoted(since, k))
  }

  lemma FilterLast<T>(xs: seq<T>, x: T, p: T -> bool)
    ensures Filter(xs + [x], p) == Filter(xs, p) + if p(x) then [x] else []
  {
    assert (xs + [x])[..|xs|] == xs;
  }

  lemma LearnTracks(s: Sub, xs: seq<string>, asset: string)
    requires asset != "" && s.yes == First(xs) && s.no == FirstOther(xs)
    ensures var t := Learn(s, Some(asset));
      t.yes == First(xs + [asset]) && t.no == FirstOther(xs + [asset]) && t.rolling == s.rolling
  {
    var ys := xs + [asset];
    var p := (x: string) => ys != [] && x != ys[0];
    FilterLast(xs, asset, p);
    if xs != [] {
      FilterSame(xs, (x: string) => xs != [] && x != xs[0], p);
    } else {
      assert Filter(xs, p) == [];
    }
  }

  /** Pruning for one moment loses nothing that a later window needs. */
  lemma {:induction false} RecentTwice(ts: seq<Tick>, a: int, b: int)
    requires a <= b
    ensures Recent(Recent(ts, a), b) == Recent(ts, b)
  {
    if ts != [] {
      var n := |ts| - 1;
      RecentTwice(ts[..n], a, b);
      if ts[n].ts >= a { FilterLast(Recent(ts[..n], a), ts[n], (t: Tick) => t.ts >= b); }
    }
  }

  /** Appending a trade and pruning keeps every later window. */
  lemma TradedTracks(rolling: seq<Tick>, full: seq<Tick>, t: Tick, cut: int, last: int)
    requires last <= cut
    requires forall cutoff :: cutoff >= last ==> SameRecent(rolling, full, cutoff)
    ensures forall cutoff :: cutoff >= cut ==> SameRecent(Recent(rolling + [t], cut), full + [t], cutoff)
    ensures Recent(rolling + [t], cut) == Recent(full + [t], cut)
  {
    forall cutoff | cutoff >= cut
      ensures Recent(rolling + [t], cutoff) == Recent(full + [t], cutoff)
    {
      assert SameRecent(rolling, full, cutoff);
      FilterLast(rolling, t, (x: Tick) => x.ts >= cutoff);
      FilterLast(full, t, (x: Tick) => x.ts >= cutoff);
    }
    forall cutoff | cutoff >= cut ensures SameRecent(Recent(rolling + [t], cut), full + [t], cutoff) {
      RecentTwice(rolling + [t], cut, cutoff);
    }
  }

  lemma TracksLater(s: Sub, es: seq<Event>, k: string, last: int, later: int)
    requires Tracks(s, es, k, last) && last <= later
    ensures Tracks(s, es, k, later)
  {
  }

  lemma SinceReconnectLast(es: seq<Event>, e: Event, k: string)
    ensures SinceReconnect(es + [e], k) ==
            if IsReconnect(e) && SubOf(e) == k then [] else SinceReconnect(es, k) + [e]
  {
    assert (es + [e])[..|es|] == es;
  }

  lemma TradesLast(es: seq<Event>, e: Event, k: string)
    ensures TradesOf(es + [e], k) ==
            if IsTrade(e) && SubOf(e) == k then TradesOf(es, k) + [Tick(e.ts, e.asset.value, e.size)]
            else TradesOf(es, k)
  {
    assert (es + [e])[..|es|] == es;
  }

  lemma QuotedLast(es: seq<Event>, e: Event, k: string)
    ensures Quoted(es + [e], k) ==
            if IsQuote(e) && SubOf(e) == k && Truthy(e.asset) then Quoted(es, k) + [e.asset.value] else Quoted(es, k)
  {
    assert (es + [e])[..|es|] == es;
  }

  /** An event appended to the history, as the from-scratch values see it. */
  lemma SinceLast(es: seq<Event>, e: Event, k: string)
    ensures (es + [e])[..|es|] == es
    ensures var since := SinceReconnect(es + [e], k);
      && (IsReconnect(e) && SubOf(e) == k ==> since == [] && TradesOf(since, k) == [] && Quoted(since, k) == [])
      && (!(IsReconnect(e) && SubOf(e) == k) ==>
            var before := SinceReconnect(es, k);
            && TradesOf(since, k) ==
                 (if IsTrade(e) && SubOf(e) == k then TradesOf(before, k) + [Tick(e.ts, e.asset.value, e.size)]
                  else TradesOf(before, k))
            && Quoted(since, k) ==
                 (if IsQuote(e) && SubOf(e) == k && Truthy(e.asset) then Quoted(before, k) + [e.asset.value]
                  else Quoted(before, k)))
  {
    hide SinceReconnect, TradesOf, Quoted, IsTrade, IsQuote;
    var before := SinceReconnect(es, k);
    assert (es + [e])[..|es|] == es;
    SinceReconnectLast(es, e, k);
    TradesLast(before, e, k);
    QuotedLast(before, e, k);
    NothingYet(k);
  }

  lemma StepTracks(m: Subs, es: seq<Event>, e: Event, k: string, window: int, last: int)
    requires Tracks(SubAt(m, k), es, k, last) && last <= e.ts - window
    ensures Tracks(SubAt(After(m, e, window), k), es + [e], k, e.ts - window)
  {
    hide Recent, Imbalance, Quoted, TradesOf, SinceReconnect, FirstOther, First, Learn, SameRecent;
    var s := SubAt(m, k);
    SinceLast(es, e, k);
    TracksLater(s, es, k, last, e.ts - window);
    var since := SinceReconnect(es, k);
    if SubOf(e) == k {
      if IsReconnect(e) {
        FreshTracks(e.ts - window);
      } else if IsQuote(e) {
        if Truthy(e.asset) { LearnTracks(s, Quoted(since, k), e.asset.value); } else { LearnNothing(s, e.asset); }
      } else if IsTrade(e) {
        TradedTracks(s.rolling, TradesOf(since, k), Tick(e.ts, e.asset.value, e.size), e.ts - window, last);
      }
    }
  }

  lemma LearnNothing(s: Sub, asset: Option<string>)
    requires !Truthy(asset)
    ensures Learn(s, asset) == s
  {
  }

  lemma FreshTracks(last: int)
    ensures forall cutoff :: cutoff >= last ==> SameRecent([], [], cutoff)
    ensures First([]) == None && FirstOther([]) == None
  {
  }

  ghost predicate InTimeOrder(es: seq<Event>) {
    Sorted(TimeLe, es)
  }

  function LastCutoff(es: seq<Event>, window: int): int
    requires es != []
  {
    es[|es| - 1].ts - window
  }

  lemma {:induction false} StatesTrack(es: seq<Event>, k: string, window: int)
    requires InTimeOrder(es) && es != []
    ensures Tracks(SubAt(States(es, window), k), es, k, LastCutoff(es, window))
  {
    hide After, Recent, Quoted, TradesOf, FirstOther, First;
    var n := |es| - 1;
    assert es == es[..n] + [es[n]];
    if n == 0 {
      FreshTracks(LastCutoff(es, window));
      NothingYet(k);
      assert es[..n] == [];
      StepTracks(map[], [], es[n], k, window, LastCutoff(es, window));
    } else {
      StatesTrack(es[..n], k, window);
      assert TimeLe(es[n - 1], es[n]);
      StepTracks(States(es[..n], window), es[..n], es[n], k, window, LastCutoff(es[..n], window));
    }
  }

  lemma NothingYet(k: string)
    ensures SinceReconnect([], k) == [] && TradesOf([], k) == [] && Quoted([], k) == []
  {
  }

  /** The imbalance that the rolling state yields at a trade event. */
  function RollingImbalance(es: seq<Event>, window: int): Option<real>
    requires es != []
  {
    var e := es[|es| - 1];
    if !IsTrade(e) then None
    else
      var s := Traded(SubAt(States(es[..|es| - 1], window), SubOf(e)), e, window);
      Imbalance(s.rolling, s.yes, s.no)
  }

  /**
   * Every imbalance the replay uses equals the one recomputed from scratch over that subscription's
   * trades inside the window since its last replayed reconnect, and lies in [-1, 1].
   */
  lemma ImbalanceIsFresh(es: seq<Event>, window: int)
    requires InTimeOrder(es) && es != []
    ensures RollingImbalance(es, window) == FreshImbalance(es, window)
    ensures RollingImbalance(es, window).Some? ==> -1.0 <= RollingImbalance(es, window).value <= 1.0
  {
    hide Recent, Imbalance, Quoted, TradesOf, SinceReconnect, FirstOther, First, States;
    var n := |es| - 1;
    var e, us := es[n], es[..n];
    if IsTrade(e) {
      var k := SubOf(e);
      var s := SubAt(States(us, window), k);
      var t := Tick(e.ts, e.asset.value, e.size);
      assert es == us + [e];
      SinceLast(us, e, k);
      if us == [] {
        FreshTracks(e.ts - window);
        NothingYet(k);
        NoStates(window);
      } else {
        StatesTrack(us, k, window);
        assert TimeLe(es[n - 1], e);
        TracksLater(s, us, k, LastCutoff(us, window), e.ts - window);
      }
      var full := TradesOf(SinceReconnect(us, k), k);
      TradedTracks(s.rolling, full, t, e.ts - window, e.ts - window);
      TradesPositive(SinceReconnect(es, k), k);
      RecentPositive(full + [t], e.ts - window);
      if RollingImbalance(es, window).Some? {
        ImbalanceBounded(Recent(full + [t], e.ts - window), s.yes, s.no);
      }
    }
  }

  lemma NoStates(window: int)
    ensures States([], window) == map[]
  {
  }

  lemma {:induction false} TradesPositive(es: seq<Event>, k: string)
    ensures PositiveTicks(TradesOf(es, k))
  {
    if es != [] { TradesPositive(es[..|es| - 1], k); }
  }

  lemma RecentPositive(ts: seq<Tick>, cutoff: int)
    requires PositiveTicks(ts)
    ensures PositiveTicks(Recent(ts, cutoff))
  {
    var r := Recent(ts, cutoff);
    FilterMembers(ts, (t: Tick) => t.ts >= cutoff);
    forall i | 0 <= i < |r| ensures r[i].size > 0.0 { assert r[i] in r; assert r[i] in ts; }
  }

  // ----- the expectancy table -----

  datatype Row = Row(signals: nat, wins: nat, pnl: real)

  type Rows = map<(string, string), Row>

  function RowAt(rows: Rows, k: (string, string)): Row {
    if k in rows then rows[k] else Row(0, 0, 0.0)
  }

  function WithSignal(rows: Rows, k: (string, string), win: bool, pnl: real): Rows {
    var r := RowAt(rows, k);
    rows[k := Row(r.signals + 1, r.wins + (if win then 1 else 0), r.pnl + pnl)]
  }

  class ExpectancyTable {
    var rows: Rows

    constructor ()
      ensures rows == map[]
    {
      rows := map[];
    }

    method Add(obiBucket: string, mteBucket: string, win: bool, pnl: real)
      modifies this
      ensures rows == WithSignal(old(rows), (obiBucket, mteBucket), win, pnl)
    {
      var k := (obiBucket, mteBucket);
      var r := if k in rows then rows[k] else Row(0, 0, 0.0);
      rows := rows[k := Row(r.signals + 1, r.wins + (if win then 1 else 0), r.pnl + pnl)];
    }
  }

  function ObiBucket(obi: real): string {
    var a := if obi < 0.0 then -obi else obi;
    if a < 0.10 then "obi<0.10"
    else if a < 0.20 then "obi:0.10-0.20"
    else if a < 0.30 then "obi:0.20-0.30"
    else if a < 0.50 then "obi:0.30-0.50"
    else "obi>=0.50"
  }

  /** The values a bucket stands for. */
  predicate InBucket(bucket: string, obi: real) {
    || (bucket == "obi<0.10" && -0.10 < obi < 0.10)
    || (bucket == "obi:0.10-0.20" && (0.10 <= obi < 0.20 || -0.20 < obi <= -0.10))
    || (bucket == "obi:0.20-0.30" && (0.20 <= obi < 0.30 || -0.30 < obi <= -0.20))
    || (bucket == "obi:0.30-0.50" && (0.30 <= obi < 0.50 || -0.50 < obi <= -0.30))
    || (bucket == "obi>=0.50" && (obi >= 0.50 || obi <= -0.50))
  }

  lemma BucketExactly(bucket: string, obi: real)
    ensures ObiBucket(obi) == bucket <==> InBucket(bucket, obi)
  {
    var a, b, c, d, e := "obi<0.10", "obi:0.10-0.20", "obi:0.20-0.30", "obi:0.30-0.50", "obi>=0.50";
    assert a[3] == '<' && b[3] == c[3] == d[3] == ':' && e[3] == '>' && b[6] == '1' && c[6] == '2' && d[6] == '3';
  }

  function AfterRow(rows: Rows, obi: Option<real>): Rows {
    if obi.None? then rows else WithSignal(rows, (ObiBucket(obi.value), "unknown"), false, 0.0)
  }

  /** The table that the replay of a list of events builds. */
  function TableOf(es: seq<Event>, window: int): Rows {
    if es == [] then map[] else AfterRow(TableOf(es[..|es| - 1], window), RollingImbalance(es, window))
  }

  // ----- the replay loop -----

  function Views(states: map<string, SubscriptionState>): Subs
    reads states.Values
  {
    map k | k in states :: states[k].View()
  }

  /** No two subscriptions share a state object. */
  ghost predicate Apart(states: map<string, SubscriptionState>) {
    forall j, k :: j in states && k in states && j != k ==> states[j] != states[k]
  }

  method StateFor(states: map<string, SubscriptionState>, k: string)
    returns (st: SubscriptionState, states': map<string, SubscriptionState>)
    requires Apart(states)
    ensures states' == states[k := st] && Apart(states')
    ensures k in states ==> st == states[k]
    ensures fresh({st} - states.Values) && fresh(states'.Values - states.Values)
    ensures Views(states') == old(Views(states))[k := SubAt(old(Views(states)), k)]
  {
    if k in states {
      st := states[k];
    } else {
      st := new SubscriptionState();
    }
    states' := states[k := st];
  }

  /** The token-learning part of a book or price event. */
  method LearnAsset(st: SubscriptionState, asset: Option<string>)
    modifies st
    ensures st.View() == Learn(old(st.View()), asset)
  {
    if Truthy(asset) {
      if st.yes.None? {
        st.yes := asset;
      } else if st.yes != asset && st.no.None? {
        st.no := asset;
      }
    }
  }

  /** The trade part: append, prune, and compute the imbalance. */
  method ObserveTrade(st: SubscriptionState, e: Event, window: int) returns (obi: Option<real>)
    requires IsTrade(e)
    modifies st
    ensures st.View() == Traded(old(st.View()), e, window)
    ensures obi == Imbalance(st.rolling, st.yes, st.no)
  {
    hide Recent, Imbalance;
    st.rolling := st.rolling + [Tick(e.ts, e.asset.value, e.size)];
    obi := st.Obi(e.ts, window);
  }

  method QuoteOn(states: map<string, SubscriptionState>, k: string, asset: Option<string>)
    requires Apart(states) && k in states
    modifies states.Values
    ensures Views(states) == old(Views(states))[k := Learn(old(Views(states))[k], asset)]
  {
    hide Learn;
    LearnAsset(states[k], asset);
    assert forall j :: j in states && j != k ==> states[j].View() == old(states[j].View());
  }

  method TradeOn(states: map<string, SubscriptionState>, k: string, e: Event, window: int)
    returns (obi: Option<real>)
    requires Apart(states) && k in states && IsTrade(e)
    modifies states.Values
    ensures var s := Traded(old(Views(states))[k], e, window);
      Views(states) == old(Views(states))[k := s] && obi == Imbalance(s.rolling, s.yes, s.no)
  {
    hide Traded, Imbalance;
    obi := ObserveTrade(states[k], e, window);
    assert forall j :: j in states && j != k ==> states[j].View() == old(states[j].View());
  }

  method HandleQuote(states: map<string, SubscriptionState>, k: string, asset: Option<string>)
    returns (states': map<string, SubscriptionState>)
    requires Apart(states)
    modifies states.Values
    ensures Apart(states') && fresh(states'.Values - states.Values)
    ensures Views(states') == old(Views(states))[k := Learn(SubAt(old(Views(states)), k), asset)]
  {
    hide Learn, SubAt;
    var st;
    st, states' := StateFor(states, k);
    QuoteOn(states', k, asset);
  }

  method HandleTrade(states: map<string, SubscriptionState>, k: string, e: Event, window: int)
    returns (states': map<string, SubscriptionState>, obi: Option<real>)
    requires Apart(states) && IsTrade(e)
    modifies states.Values
    ensures Apart(states') && fresh(states'.Values - states.Values)
    ensures var s := Traded(SubAt(old(Views(states)), k), e, window);
      Views(states') == old(Views(states))[k := s] && obi == Imbalance(s.rolling, s.yes, s.no)
  {
    hide Traded, Imbalance, SubAt;
    var st;
    st, states' := StateFor(states, k);
    obi := TradeOn(states', k, e, window);
  }

  lemma AfterCases(m: Subs, e: Event, window: int)
    ensures e.kind == "reconnect" && Truthy(e.sub) ==> After(m, e, window) == m - {e.sub.value} && !IsTrade(e)
    ensures IsQuote(e) ==>
      After(m, e, window) == m[SubOf(e) := Learn(SubAt(m, SubOf(e)), e.asset)] && !IsTrade(e) && !IsReconnect(e)
    ensures IsTrade(e) ==> After(m, e, window) == m[SubOf(e) := Traded(SubAt(m, SubOf(e)), e, window)]
    ensures e.kind == "pm_trade" && !IsTrade(e) ==> After(m, e, window) == m[SubOf(e) := SubAt(m, SubOf(e))]
    ensures !IsReconnect(e) && !IsQuote(e) && e.kind != "pm_trade" ==> After(m, e, window) == m && !IsTrade(e)
  {
    hide Learn, Traded;
    Kinds();
  }

  method Handle(states: map<string, SubscriptionState>, e: Event, window: int, table: ExpectancyTable)
    returns (states': map<string, SubscriptionState>)
    requires Apart(states)
    modifies states.Values, table
    ensures Apart(states') && fresh(states'.Values - states.Values)
    ensures Views(states') == After(old(Views(states)), e, window)
    ensures table.rows == AfterRow(old(table.rows), HandledImbalance(old(Views(states)), e, window))
  {
    hide After, Learn, Imbalance, Traded, WithSignal, ObiBucket, SubAt;
    AfterCases(Views(states), e, window);
    var k := SubOf(e);
    if e.kind == "reconnect" && Truthy(e.sub) {
      states' := Forget(states, e.sub.value);
    } else if e.kind == "pm_book" || e.kind == "pm_price" {
      states' := HandleQuote(states, k, e.asset);
    } else if e.kind == "pm_trade" {
      if e.size > 0.0 && Truthy(e.asset) {
        var obi;
        states', obi := HandleTrade(states, k, e, window);
        if obi.Some? {
          table.Add(ObiBucket(obi.value), "unknown", false, 0.0);
        }
      } else {
        var st;
        st, states' := StateFor(states, k);
      }
    } else {
      states' := states;
    }
  }

  method Forget(states: map<string, SubscriptionState>, k: string) returns (states': map<string, SubscriptionState>)
    requires Apart(states)
    ensures Apart(states') && states'.Values <= states.Values
    ensures Views(states') == Views(states) - {k}
  {
    states' := states - {k};
    assert forall j :: j in states' ==> states'[j] == states[j] && states'[j] in states.Values;
  }

  lemma Kinds()
    ensures "pm_trade" != "pm_book" && "pm_trade" != "pm_price" && "pm_trade" != "reconnect"
    ensures "reconnect" != "pm_book" && "reconnect" != "pm_price"
  {
    assert "pm_trade"[3] == 't' && "pm_price"[3] == 'p' && "reconnect"[0] == 'r' && "pm_trade"[0] == 'p';
  }

  function HandledImbalance(m: Subs, e: Event, window: int): Option<real> {
    if !IsTrade(e) then None
    else
      var s := Traded(SubAt(m, SubOf(e)), e, window);
      Imbalance(s.rolling, s.yes, s.no)
  }

  function Quarantined(pmRows: seq<PmRow>, cexRows: seq<CexRow>, maxGap: int, buffer: int): seq<Range> {
    var pm := seq(|pmRows|, i requires 0 <= i < |pmRows| => pmRows[i].ts);
    var cex := seq(|cexRows|, i requires 0 <= i < |cexRows| => cexRows[i].ts);
    Merged(Sort(RangeLe, WidenAll(
      GapsOf("pm_events", pm, maxGap, |pm|) + GapsOf("cex_trades", cex, maxGap, |cex|), buffer)))
  }

  /** The whole sweep: gaps, quarantine, merged events, rolling imbalance, counts. */
  method Calibrate(pmRows: seq<PmRow>, cexRows: seq<CexRow>, window: int,
                   quarantineGaps: bool, maxGap: int, buffer: int) returns (table: ExpectancyTable)
    ensures var q := if quarantineGaps then Quarantined(pmRows, cexRows, maxGap, buffer) else [];
      table.rows == TableOf(Kept(Merge(PmEvents(pmRows), CexEvents(cexRows)), q), window)
  {
    hide After, AfterRow, HandledImbalance, Merge, Kept, Merged, GapsOf, Sort, WidenAll;
    table := new ExpectancyTable();
    var states: map<string, SubscriptionState> := map[];
    var quarantine := [];
    if quarantineGaps {
      var gaps := DetectGaps(seq(|pmRows|, i requires 0 <= i < |pmRows| => pmRows[i].ts),
                             seq(|cexRows|, i requires 0 <= i < |cexRows| => cexRows[i].ts), maxGap);
      quarantine := QuarantineRanges(gaps, buffer);
    }
    var es := IterEvents(pmRows, cexRows, quarantine);
    for i := 0 to |es|
      invariant Apart(states) && fresh(states.Values) && fresh(table)
      invariant Views(states) == States(es[..i], window)
      invariant table.rows == TableOf(es[..i], window)
    {
      assert es[..i + 1][..i] == es[..i];
      HandledIsRolling(es[..i + 1], window);
      states := Handle(states, es[i], window, table);
    }
    assert es[..|es|] == es;
  }

  lemma HandledIsRolling(es: seq<Event>, window: int)
    requires es != []
    ensures HandledImbalance(States(es[..|es| - 1], window), es[|es| - 1], window) == RollingImbalance(es, window)
  {
  }

  // ----- what the table counts -----

  /** Trade events with a defined imbalance that falls into the bucket, all recomputed from scratch. */
  function SignalsIn(es: seq<Event>, window: int, bucket: string): nat {
    if es == [] then 0
    else
      var o := FreshImbalance(es, window);
      SignalsIn(es[..|es| - 1], window, bucket) + if o.Some? && InBucket(bucket, o.value) then 1 else 0
  }

  function Signals(es: seq<Event>, window: int): nat {
    if es == [] then 0
    else Signals(es[..|es| - 1], window) + if FreshImbalance(es, window).Some? then 1 else 0
  }

  function SignalsOf(r: Row): real { r.signals as real }

  lemma PrefixInOrder(es: seq<Event>)
    requires InTimeOrder(es) && es != []
    ensures InTimeOrder(es[..|es| - 1])
  {
  }

  /** Each row counts exactly the signals of its bucket; wins and P&L stay zero. */
  lemma {:induction false} TableCounts(es: seq<Event>, window: int, bucket: string)
    requires InTimeOrder(es)
    ensures RowAt(TableOf(es, window), (bucket, "unknown")) == Row(SignalsIn(es, window, bucket), 0, 0.0)
  {
    hide ObiBucket, InBucket, FreshImbalance, RollingImbalance;
    if es != [] {
      PrefixInOrder(es);
      TableCounts(es[..|es| - 1], window, bucket);
      ImbalanceIsFresh(es, window);
      var o := FreshImbalance(es, window);
      if o.Some? { BucketExactly(bucket, o.value); }
    }
  }

  /** The rows together count exactly the trade events with a defined imbalance. */
  lemma {:induction false} TableTotal(es: seq<Event>, window: int)
    requires InTimeOrder(es)
    ensures Sum(TableOf(es, window), SignalsOf) == Signals(es, window) as real
  {
    hide ObiBucket, FreshImbalance, RollingImbalance;
    if es == [] {
      assert TableOf(es, window) == map[];
    } else {
      PrefixInOrder(es);
      TableTotal(es[..|es| - 1], window);
      ImbalanceIsFresh(es, window);
      var o := RollingImbalance(es, window);
      if o.Some? {
        var rows, k := TableOf(es[..|es| - 1], window), (ObiBucket(o.value), "unknown");
        var r := RowAt(rows, k);
        SumUpdate(rows, k, Row(r.signals + 1, r.wins, r.pnl + 0.0), SignalsOf);
      }
    }
  }

  function TimesOf(es: seq<Event>): seq<int> {
    seq(|es|, i requires 0 <= i < |es| => es[i].ts)
  }

  /**
   * End to end, for recorder rows in time order: the replayed events are the stable time-ordered
   * merge of both tables without the rows near a recording gap of either, and the table counts, per
   * bucket and in total, exactly the replayed trades whose from-scratch imbalance is defined.
   */
  lemma CalibrationExact(pmRows: seq<PmRow>, cexRows: seq<CexRow>, window: int, maxGap: int, buffer: int)
    requires AscendingRows(pmRows, cexRows) && buffer >= 0
    ensures var pm, cex := PmEvents(pmRows), CexEvents(cexRows);
      var es := Kept(Merge(pm, cex), Quarantined(pmRows, cexRows, maxGap, buffer));
      var rows := TableOf(es, window);
      && es == Filter(Sort(TimeLe, pm + cex),
                      (e: Event) => !Covered(e.ts, Quarantined(pmRows, cexRows, maxGap, buffer)))
      && (forall ts :: Covered(ts, Quarantined(pmRows, cexRows, maxGap, buffer)) <==>
                         NearGap(ts, TimesOf(pm), maxGap, buffer) || NearGap(ts, TimesOf(cex), maxGap, buffer))
      && (forall bucket :: RowAt(rows, (bucket, "unknown")) == Row(SignalsIn(es, window, bucket), 0, 0.0))
      && Sum(rows, SignalsOf) == Signals(es, window) as real
  {
    hide NearGap, Covered, SignalsIn, TableOf, Signals, Merged, GapsOf, Sort, Merge, RowAt;
    var pm, cex := PmEvents(pmRows), CexEvents(cexRows);
    var q := Quarantined(pmRows, cexRows, maxGap, buffer);
    TimesOfRows(pmRows, cexRows);
    InlineFilterIsExact(pm, cex, q);
    forall ts
      ensures Covered(ts, q) <==>
              NearGap(ts, TimesOf(pm), maxGap, buffer) || NearGap(ts, TimesOf(cex), maxGap, buffer)
    {
      QuarantineExact(TimesOf(pm), TimesOf(cex), maxGap, buffer, ts);
    }
    var es := Kept(Merge(pm, cex), q);
    forall bucket
      ensures RowAt(TableOf(es, window), (bucket, "unknown")) == Row(SignalsIn(es, window, bucket), 0, 0.0)
    {
      TableCounts(es, window, bucket);
    }
    TableTotal(es, window);
  }

  lemma TimesOfRows(pmRows: seq<PmRow>, cexRows: seq<CexRow>)
    requires AscendingRows(pmRows, cexRows)
    ensures Ascending(TimesOf(PmEvents(pmRows))) && Ascending(TimesOf(CexEvents(cexRows)))
    ensures TimesOf(PmEvents(pmRows)) == seq(|pmRows|, i requires 0 <= i < |pmRows| => pmRows[i].ts)
    ensures TimesOf(CexEvents(cexRows)) == seq(|cexRows|, i requires 0 <= i < |cexRows| => cexRows[i].ts)
  {
    var pm, cex := PmEvents(pmRows), CexEvents(cexRows);
    forall i, j | 0 <= i < j < |pm| ensures TimesOf(pm)[i] <= TimesOf(pm)[j] { assert TimeLe(pm[i], pm[j]); }
    forall i, j | 0 <= i < j < |cex| ensures TimesOf(cex)[i] <= TimesOf(cex)[j] { assert TimeLe(cex[i], cex[j]); }
  }
}
