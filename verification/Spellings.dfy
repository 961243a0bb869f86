/**
 * Bots spell the side of a trade in several ways. What a history comes to depends on which word the
 * sides begin with and on nothing else of how they are spelled.
 */
module Spellings {
  import opened Sorting
  import opened Trades
  import opened Fifo
  import opened Portfolio
  import opened Sessions

  ghost predicate IsBuy(side: string) {
    side == "BUY" || exists x: string :: side == "BUY_" + x || side == "BUY-" + x
  }

  ghost predicate IsSell(side: string) {
    side == "SELL" || exists x: string :: side == "SELL_" + x || side == "SELL-" + x
  }

  lemma AfterWord(s: string, word: string)
    ensures word <= s <==> exists x: string :: s == word + x
  {
    if word <= s { assert s == word + s[|word|..]; }
  }

  lemma FirstLetters()
    ensures "BUY"[0] == "BUY_"[0] == "BUY-"[0] == 'B' && "SELL"[0] == "SELL_"[0] == "SELL-"[0] == 'S'
  {
  }

  /** The sides that count as BUY and as SELL. */
  lemma SidesExactly(side: string)
    ensures BaseSide(side) == Buy <==> IsBuy(side)
    ensures BaseSide(side) == Sell <==> IsSell(side)
  {
    AfterWord(side, "BUY_");
    AfterWord(side, "BUY-");
    AfterWord(side, "SELL_");
    AfterWord(side, "SELL-");
    FirstLetters();
  }

  lemma FirstLetter(side: string)
    ensures IsBuy(side) ==> side != "" && side[0] == 'B'
    ensures IsSell(side) ==> side != "" && side[0] == 'S'
  {
    FirstLetters();
  }

  lemma Spelled(x: string)
    ensures IsBuy("BUY") && IsBuy("BUY_" + x) && IsBuy("BUY-" + x)
    ensures IsSell("SELL") && IsSell("SELL_" + x) && IsSell("SELL-" + x)
  {
  }

  // ----- rows that differ in their spelling at most -----

  ghost predicate Alike(t: Trade, u: Trade) {
    && u == t.(side := u.side)
    && (IsBuy(t.side) <==> IsBuy(u.side)) && (IsSell(t.side) <==> IsSell(u.side))
  }

  ghost predicate AllAlike(ts: seq<Trade>, us: seq<Trade>) {
    |ts| == |us| && forall i :: 0 <= i < |ts| ==> Alike(ts[i], us[i])
  }

  ghost predicate TablesAlike(d: Tables, e: Tables) {
    AllAlike(d.trades, e.trades) && e == d.(trades := e.trades)
  }

  lemma AlikeSides(t: Trade, u: Trade)
    requires Alike(t, u)
    ensures BaseSide(t.side) == BaseSide(u.side)
  {
    SidesExactly(t.side);
    SidesExactly(u.side);
  }

  lemma AllAlikeSelf(ts: seq<Trade>)
    ensures AllAlike(ts, ts)
  {
  }

  lemma {:induction false} FilterAlike(ts: seq<Trade>, us: seq<Trade>, p: Trade -> bool)
    requires AllAlike(ts, us) && forall i :: 0 <= i < |ts| ==> p(ts[i]) == p(us[i])
    ensures AllAlike(Filter(ts, p), Filter(us, p))
  {
    hide Alike;
    if ts != [] { FilterAlike(ts[..|ts| - 1], us[..|us| - 1], p); }
  }

  lemma OfBotAlike(ts: seq<Trade>, us: seq<Trade>, bot: string)
    requires AllAlike(ts, us)
    ensures AllAlike(OfBot(ts, bot), OfBot(us, bot))
  {
    FilterAlike(ts, us, (t: Trade) => t.bot == bot);
  }

  lemma SelectAlike(ts: seq<Trade>, us: seq<Trade>, bot: string, token: string)
    requires AllAlike(ts, us)
    ensures AllAlike(SelectTrades(ts, bot, token), SelectTrades(us, bot, token))
  {
    FilterAlike(ts, us, (t: Trade) => t.bot == bot);
    FilterAlike(OfBot(ts, bot), OfBot(us, bot), (t: Trade) => t.token == token);
  }

  lemma {:induction false} InsertAlike(ts: seq<Trade>, us: seq<Trade>, t: Trade, u: Trade)
    requires AllAlike(ts, us) && Alike(t, u)
    ensures AllAlike(Insert(TradeLe, ts, t), Insert(TradeLe, us, u))
  {
    if ts != [] {
      var n := |ts| - 1;
      assert Alike(ts[n], us[n]);
      assert TradeLe(ts[n], t) == TradeLe(us[n], u);
      if !TradeLe(ts[n], t) {
        hide Alike;
        InsertAlike(ts[..n], us[..n], t, u);
      }
    }
  }

  lemma {:induction false} SortAlike(ts: seq<Trade>, us: seq<Trade>)
    requires AllAlike(ts, us)
    ensures AllAlike(Sort(TradeLe, ts), Sort(TradeLe, us))
  {
    hide Alike;
    if ts != [] {
      var n := |ts| - 1;
      SortAlike(ts[..n], us[..n]);
      InsertAlike(Sort(TradeLe, ts[..n]), Sort(TradeLe, us[..n]), ts[n], us[n]);
    }
  }

  // ----- the accounts -----

  lemma StepAlike(a: Account, t: Trade, u: Trade)
    requires Alike(t, u)
    ensures Step(a, t) == Step(a, u)
  {
    AlikeSides(t, u);
  }

  lemma {:induction false} ReplayAlike(ts: seq<Trade>, us: seq<Trade>)
    requires AllAlike(ts, us)
    ensures Replay(ts) == Replay(us)
  {
    hide Alike, Step;
    if ts != [] {
      var n := |ts| - 1;
      ReplayAlike(ts[..n], us[..n]);
      StepAlike(Replay(ts[..n]), ts[n], us[n]);
    }
  }

  lemma {:induction false} ReplayAllAlike(ts: seq<Trade>, us: seq<Trade>)
    requires AllAlike(ts, us)
    ensures ReplayAll(ts) == ReplayAll(us)
  {
    hide Step;
    if ts != [] {
      var n := |ts| - 1;
      ReplayAllAlike(ts[..n], us[..n]);
      assert Alike(ts[n], us[n]);
      StepAlike(Get(ReplayAll(ts[..n]), ts[n].token), ts[n], us[n]);
    }
  }

  lemma FifoCostAlike(ts: seq<Trade>, us: seq<Trade>, bot: string, token: string)
    requires AllAlike(ts, us)
    ensures FifoCost(ts, bot, token) == FifoCost(us, bot, token)
  {
    hide AllAlike, Sort, Replay;
    SelectAlike(ts, us, bot, token);
    SortAlike(SelectTrades(ts, bot, token), SelectTrades(us, bot, token));
    ReplayAlike(Sort(TradeLe, SelectTrades(ts, bot, token)), Sort(TradeLe, SelectTrades(us, bot, token)));
  }

  lemma {:induction false} HeldAlike(ts: seq<Trade>, us: seq<Trade>)
    requires AllAlike(ts, us)
    ensures Held(ts) == Held(us)
  {
    if ts != [] {
      var n := |ts| - 1;
      HeldAlike(ts[..n], us[..n]);
      AlikeSides(ts[n], us[n]);
    }
  }

  lemma ExcessAlike(ts: seq<Trade>, us: seq<Trade>, token: string)
    requires AllAlike(ts, us) && ts != [] && ts[|ts| - 1].token == token
    ensures OfToken(ts, token) != [] && OfToken(us, token) != []
    ensures Excess(OfToken(ts, token)) == Excess(OfToken(us, token))
  {
    hide IsBuy, IsSell, Held, BaseSide;
    var n := |ts| - 1;
    var before, before' := OfToken(ts[..n], token), OfToken(us[..n], token);
    assert Alike(ts[n], us[n]);
    AlikeSides(ts[n], us[n]);
    FilterAlike(ts[..n], us[..n], (x: Trade) => x.token == token);
    HeldAlike(before, before');
    OfTokenLast(ts);
    OfTokenLast(us);
    assert (before + [ts[n]])[..|before|] == before && (before' + [us[n]])[..|before'|] == before';
  }

  lemma {:induction false} OrphansAlike(ts: seq<Trade>, us: seq<Trade>, cutoff: int)
    requires AllAlike(ts, us)
    ensures OrphansOf(ts, cutoff) == OrphansOf(us, cutoff)
  {
    hide Excess, OfToken, IsBuy, IsSell;
    if ts != [] {
      var n := |ts| - 1;
      OrphansAlike(ts[..n], us[..n], cutoff);
      assert Alike(ts[n], us[n]);
      ExcessAlike(ts, us, ts[n].token);
    }
  }

  // ----- the tables -----

  lemma IdsAlike(ts: seq<Trade>, us: seq<Trade>, id: string)
    requires AllAlike(ts, us)
    ensures HasTrade(ts, id) <==> HasTrade(us, id)
  {
    hide IsBuy, IsSell;
    if HasTrade(ts, id) {
      var i :| 0 <= i < |ts| && ts[i].id == id;
      assert Alike(ts[i], us[i]);
    }
    if HasTrade(us, id) {
      var i :| 0 <= i < |us| && us[i].id == id;
      assert Alike(ts[i], us[i]);
    }
  }

  lemma PositionsAlike(
      seen: seq<Position>, ps: seq<Position>, ts: seq<Trade>, us: seq<Trade>,
      markets: map<string, Market>, t: Trade, u: Trade)
    requires Extends(seen, ps) && t.size > 0.0 && Alike(t, u) && AllAlike(ts, us)
    ensures PositionsAfter(seen, ps, ts, markets, t) == PositionsAfter(seen, ps, us, markets, u)
    ensures SellsNothing(seen, ps, t) <==> SellsNothing(seen, ps, u)
  {
    hide BaseSide, FifoCost, AllAlike, IsBuy, IsSell;
    AlikeSides(t, u);
    FifoCostAlike(ts, us, t.bot, t.token);
  }

  /** One fill, booked in either spelling. */
  lemma BookedAlike(
      stored: Tables, stored': Tables, d: Tables, d': Tables, t: Trade, u: Trade,
      markets: map<string, Market>, flush: bool)
    requires InSession(stored, d) && TablesAlike(stored, stored') && TablesAlike(d, d')
    requires t.size > 0.0 && Alike(t, u)
    ensures TablesAlike(Booked(stored, d, t, markets, flush), Booked(stored', d', u, markets, flush))
  {
    hide PositionsAfter, SellsNothing, IsBuy, IsSell, HasTrade;
    var seen, seen' := if flush then d else stored, if flush then d' else stored';
    IdsAlike(seen.trades, seen'.trades, t.id);
    var visible := if flush then d.trades + [t] else stored.trades;
    var visible' := if flush then d'.trades + [u] else stored'.trades;
    PositionsAlike(seen.positions, d.positions, visible, visible', markets, t, u);
  }

  lemma {:induction false} SessionAlike(
      d: Tables, e: Tables, us: seq<Trade>, vs: seq<Trade>, markets: map<string, Market>, flush: bool)
    requires OpenPositive(d.positions) && PositiveSizes(us) && PositiveSizes(vs)
    requires TablesAlike(d, e) && AllAlike(us, vs)
    ensures TablesAlike(InOneSession(d, us, markets, flush), InOneSession(e, vs, markets, flush))
  {
    hide Booked, Alike;
    if us != [] {
      var n := |us| - 1;
      SessionAlike(d, e, us[..n], vs[..n], markets, flush);
      BookedAlike(d, e, InOneSession(d, us[..n], markets, flush), InOneSession(e, vs[..n], markets, flush),
                  us[n], vs[n], markets, flush);
    }
  }

  lemma FillAlike(d: Tables, e: Tables, t: Trade, u: Trade, markets: map<string, Market>, flush: bool)
    requires OpenPositive(d.positions) && t.size > 0.0 && TablesAlike(d, e) && Alike(t, u)
    ensures TablesAlike(AfterFill(d, t, markets, flush), AfterFill(e, u, markets, flush))
  {
    hide Booked, IsBuy, IsSell, HasTrade;
    IdsAlike(d.trades, e.trades, t.id);
    BookedAlike(d, e, d, e, t, u, markets, flush);
  }

  lemma {:induction false} OneByOneAlike(
      d: Tables, e: Tables, us: seq<Trade>, vs: seq<Trade>, markets: map<string, Market>, flush: bool)
    requires OpenPositive(d.positions) && PositiveSizes(us) && PositiveSizes(vs)
    requires TablesAlike(d, e) && AllAlike(us, vs)
    ensures TablesAlike(OneByOne(d, us, markets, flush), OneByOne(e, vs, markets, flush))
  {
    hide AfterFill, Alike;
    if us != [] {
      var n := |us| - 1;
      OneByOneAlike(d, e, us[..n], vs[..n], markets, flush);
      var f, g := OneByOne(d, us[..n], markets, flush), OneByOne(e, vs[..n], markets, flush);
      FillAlike(f, g, us[n], vs[n], markets, flush);
    }
  }

  ghost predicate SameTables(d: Tables, e: Tables) {
    d.positions == e.positions && d.events == e.events && d.orders == e.orders
  }

  ghost predicate SameReports(d: Tables, e: Tables, bot: string, cutoff: int) {
    var ts, us := Sort(TradeLe, OfBot(d.trades, bot)), Sort(TradeLe, OfBot(e.trades, bot));
    RealisedPnl(d, bot, None) == RealisedPnl(e, bot, None) && OrphansOf(ts, cutoff) == OrphansOf(us, cutoff)
  }

  lemma ReportsAlike(d: Tables, e: Tables, bot: string, cutoff: int)
    requires TablesAlike(d, e)
    ensures SameReports(d, e, bot, cutoff)
  {
    hide AllAlike, Sort, ReplayAll, OrphansOf;
    var ts, us := OfBot(d.trades, bot), OfBot(e.trades, bot);
    OfBotAlike(d.trades, e.trades, bot);
    SortAlike(ts, us);
    ReplayAllAlike(Sort(TradeLe, ts), Sort(TradeLe, us));
    OrphansAlike(Sort(TradeLe, ts), Sort(TradeLe, us), cutoff);
  }

  /**
   * Histories that differ in their spelling at most, booked in one session or one by one, flushing or
   * not, leave the same positions, orders and events, the same realised P&L and the same orphans.
   */
  lemma SpellingIsIrrelevant(
      d: Tables, us: seq<Trade>, vs: seq<Trade>, markets: map<string, Market>, flush: bool, bot: string, cutoff: int)
    requires OpenPositive(d.positions) && PositiveSizes(us) && PositiveSizes(vs) && AllAlike(us, vs)
    ensures var e, f := InOneSession(d, us, markets, flush), InOneSession(d, vs, markets, flush);
      SameTables(e, f) && SameReports(e, f, bot, cutoff)
    ensures var e, f := OneByOne(d, us, markets, flush), OneByOne(d, vs, markets, flush);
      SameTables(e, f) && SameReports(e, f, bot, cutoff)
  {
    hide InOneSession, OneByOne, SameReports, AllAlike;
    AllAlikeSelf(d.trades);
    SessionAlike(d, d, us, vs, markets, flush);
    OneByOneAlike(d, d, us, vs, markets, flush);
    ReportsAlike(InOneSession(d, us, markets, flush), InOneSession(d, vs, markets, flush), bot, cutoff);
    ReportsAlike(OneByOne(d, us, markets, flush), OneByOne(d, vs, markets, flush), bot, cutoff);
  }

  lemma RespelledFill(
      a: Account, stored: Tables, d: Tables, t: Trade, p: string, q: string, markets: map<string, Market>, flush: bool)
    requires InSession(stored, d) && t.size > 0.0
    requires (IsBuy(p) && IsBuy(q)) || (IsSell(p) && IsSell(q))
    ensures Step(a, t.(side := p)) == Step(a, t.(side := q))
    ensures SameTables(Booked(stored, d, t.(side := p), markets, flush),
                       Booked(stored, d, t.(side := q), markets, flush))
  {
    hide Booked, Step, IsBuy, IsSell;
    FirstLetter(p);
    FirstLetter(q);
    AllAlikeSelf(stored.trades);
    AllAlikeSelf(d.trades);
    StepAlike(a, t.(side := p), t.(side := q));
    BookedAlike(stored, stored, d, d, t.(side := p), t.(side := q), markets, flush);
  }

  /** In particular a single fill, whatever follows the word. */
  lemma SpelledFill(
      a: Account, stored: Tables, d: Tables, t: Trade, x: string, word: string,
      markets: map<string, Market>, flush: bool)
    requires InSession(stored, d) && t.size > 0.0 && word in ["BUY", "SELL"]
    ensures forall side :: side in [word + "_" + x, word + "-" + x] ==>
      && Step(a, t.(side := side)) == Step(a, t.(side := word))
      && SameTables(Booked(stored, d, t.(side := side), markets, flush),
                    Booked(stored, d, t.(side := word), markets, flush))
  {
    hide Booked, Step, IsBuy, IsSell, SameTables;
    Spelled(x);
    assert "BUY" + "_" == "BUY_" && "BUY" + "-" == "BUY-" && "SELL" + "_" == "SELL_" && "SELL" + "-" == "SELL-";
    RespelledFill(a, stored, d, t, word + "_" + x, word, markets, flush);
    RespelledFill(a, stored, d, t, word + "-" + x, word, markets, flush);
  }

  /** A trade of any other side is stored and costs its fee, and no more. */
  lemma OtherSidesChangeNothing(
      a: Account, stored: Tables, d: Tables, t: Trade, markets: map<string, Market>, flush: bool)
    requires InSession(stored, d) && t.size > 0.0 && !IsBuy(t.side) && !IsSell(t.side)
    ensures Step(a, t) == a.(fees := a.fees + t.fee)
    ensures Booked(stored, d, t, markets, flush).positions == d.positions
    ensures Booked(stored, d, t, markets, flush).events == d.events
  {
    SidesExactly(t.side);
  }
}
