/** The ladder's rules side by side, and what its lists are, in terms of their elements. */
module LadderLaws {
  import opened Sorting
  import opened ExecPolicy
  import opened LadderRuns

  // ----- toxicity -----

  /** A score against a limit: no score without flow, else the share of the flow that is against it. */
  predicate Scores(score: real, against: real, withUs: real) {
    if against + withUs < 0.000001 then score == 0.0 else score * (against + withUs) == against
  }

  lemma Quotient(a: real, b: real)
    requires b > 0.0
    ensures a / b * b == a
  {
  }

  /** What counts against each side: sellers against a limit that buys, buyers against one that sells. */
  lemma ToxicityExactly(flow: FlowWindow)
    ensures Scores(ComputeToxicity(flow, YesBuy), flow.sellYes, flow.buyYes)
    ensures Scores(ComputeToxicity(flow, YesSell), flow.buyYes, flow.sellYes)
    ensures Scores(ComputeToxicity(flow, NoBuy), flow.sellNo, flow.buyNo)
    ensures Scores(ComputeToxicity(flow, NoSell), flow.buyNo, flow.sellNo)
  {
    if flow.sellYes + flow.buyYes >= 0.000001 {
      Quotient(flow.sellYes, flow.sellYes + flow.buyYes);
      Quotient(flow.buyYes, flow.sellYes + flow.buyYes);
    }
    if flow.sellNo + flow.buyNo >= 0.000001 {
      Quotient(flow.sellNo, flow.sellNo + flow.buyNo);
      Quotient(flow.buyNo, flow.sellNo + flow.buyNo);
    }
  }

  // ----- the rules of one tick -----

  /** The quote a limit rests against. */
  ghost predicate RestsAt(side: OrderSide, book: BookSnapshot, quote: real) {
    && (side == YesBuy ==> quote == book.yesBid) && (side == YesSell ==> quote == book.yesAsk)
    && (side == NoBuy ==> quote == book.noBid) && (side == NoSell ==> quote == book.noAsk)
  }

  /** The quote has left the band of k ranges around the original price; a range of zero means no band. */
  ghost predicate LeftBand(l: Limit, x: Input, p: LadderPolicy, quote: real) {
    x.atr > 0.0 && !(l.original - p.bookMoveCancelAtr * x.atr <= quote <= l.original + p.bookMoveCancelAtr * x.atr)
  }

  /**
   * Every tick of every limit: hostile flow freezes, else a quote outside the band or old age cancels,
   * else a limit with steps left and old enough for STEP_2 takes it unless that is its state, one that
   * is still PLACED and old enough takes STEP_1, and any other stays as it is.
   */
  lemma PolicyExactly(l: Limit, x: Input, p: LadderPolicy, quote: real)
    requires x.atr >= 0.0 && RestsAt(l.side, x.book, quote)
    ensures var m, age := Ticked(l, x, p), x.now - l.placedAt;
      var hostile := ComputeToxicity(x.flow, l.side) >= p.freezeThreshold;
      var cancels := !hostile && (LeftBand(l, x, p, quote) || age >= p.cancelAge);
      var may := !hostile && !cancels && l.steps < p.maxStepCount;
      var second := may && age >= p.step2Age && l.state != Step2;
      var first := may && !second && age >= p.step1Age && l.state == Placed;
      && (hostile ==> m == l.(state := Frozen))
      && (cancels ==> m == l.(state := Cancelled))
      && (second ==> m == l.(state := Step2, current := m.current, steps := l.steps + 1))
      && (first ==> m == l.(state := Step1, current := m.current, steps := l.steps + 1))
      && (second || first ==>
            var ticks := if second then 2.0 else 1.0;
            && (l.side == YesBuy || l.side == NoBuy ==> m.current == l.current + ticks * p.tickStep)
            && (l.side == YesSell || l.side == NoSell ==> m.current == l.current - ticks * p.tickStep))
      && (!hostile && !cancels && !second && !first ==> m == l)
  {
    hide ComputeToxicity;
    SignedProduct(1.0 * p.tickStep);
    SignedProduct(2.0 * p.tickStep);
  }

  /** FROZEN and CANCELLED are not final: old enough and with a step left, such a limit is moved on. */
  lemma NotFinal(l: Limit, x: Input, p: LadderPolicy, quote: real)
    requires x.atr >= 0.0 && RestsAt(l.side, x.book, quote) && !LeftBand(l, x, p, quote)
    requires ComputeToxicity(x.flow, l.side) < p.freezeThreshold && l.steps < p.maxStepCount
    requires (l.state == Frozen || l.state == Cancelled) && x.now - l.placedAt < p.cancelAge
    ensures Ticked(l, x, p).state == if x.now - l.placedAt >= p.step2Age then Step2 else l.state
  {
    hide ComputeToxicity, Ticked, LeftBand;
    PolicyExactly(l, x, p, quote);
  }

  // ----- the lists of the manager -----

  /** Registering keeps every other entry where it is. */
  lemma RegisteredIs(ls: seq<Limit>, l: Limit)
    requires DistinctIds(ls)
    ensures var r := WithLimit(ls, l);
      && |r| == |ls| + (if exists k :: k in ls && k.id == l.id then 0 else 1)
      && (forall i :: 0 <= i < |ls| ==> r[i] == if ls[i].id == l.id then l else ls[i])
      && (|r| > |ls| ==> r[|ls|] == l)
  {
  }

  lemma {:induction false} ForgottenIs(ls: seq<Limit>, id: string)
    requires DistinctIds(ls)
    ensures WithoutLimit(ls, id) == Filter(ls, (l: Limit) => l.id != id)
  {
    match IndexOf(ls, id) {
      case None => FilterAll(ls, (l: Limit) => l.id != id);
      case Some(i) =>
        assert ls == (ls[..i] + [ls[i]]) + ls[i + 1..];
        FilterConcat(ls[..i] + [ls[i]], ls[i + 1..], (l: Limit) => l.id != id);
        assert (ls[..i] + [ls[i]])[..i] == ls[..i];
        FilterAll(ls[..i], (l: Limit) => l.id != id);
        FilterAll(ls[i + 1..], (l: Limit) => l.id != id);
    }
  }

  lemma {:induction false} PrunedIs(times: seq<real>, cutoff: real)
    ensures Pruned(times, cutoff) == Filter(times, (t: real) => t >= cutoff)
  {
    if times != [] { PrunedIs(times[..|times| - 1], cutoff); }
  }

  lemma {:induction false} CancelTimesAre(actions: seq<Action>, now: real)
    ensures |CancelTimes(actions, now)| == |Filter(actions, (a: Action) => a.state == Cancelled)|
    ensures forall t :: t in CancelTimes(actions, now) ==> t == now
  {
    if actions != [] { CancelTimesAre(actions[..|actions| - 1], now); }
  }

  /** A tick raises exactly on a negative range with a limit to look at; all it has done by then is prune. */
  lemma RaisesExactly(m: Manager, x: Input, c: Config)
    ensures TickActions(m, x, c).None? <==> !m.tripped && x.atr < 0.0 && m.active != []
    ensures TickActions(m, x, c).None? ==>
      AfterTick(m, x, c) == m.(cancels := Filter(m.cancels, (t: real) => t >= x.now - c.window))
  {
    PrunedIs(m.cancels, x.now - c.window);
  }

  /** The breaker's list is the cancels of the run since its last reset that lie in the window. */
  lemma BreakerList(ops: seq<Op>, c: Config)
    requires c.cancelLimit >= 1 && c.window >= 0.0 && Clocked(ops)
    ensures match LastTick(ops, c)
      case None => Run(ops, c).cancels == []
      case Some(at) => Run(ops, c).cancels == Filter(History(ops, c), (t: real) => t >= at - c.window)
    ensures Run(ops, c).tripped <==> |Run(ops, c).cancels| >= c.cancelLimit
  {
    hide Run, LastTick, History, ActiveAtTrip;
    BreakerWindow(ops, c);
    match LastTick(ops, c) {
      case None =>
      case Some(at) => PrunedIs(History(ops, c), at - c.window);
    }
  }

  /**
   * A tick trips the breaker exactly if its cancels and those of the run within the window before it
   * reach the limit, some of them being its own.
   */
  lemma TripsExactly(ops: seq<Op>, x: Input, c: Config)
    requires c.cancelLimit >= 1 && c.window >= 0.0 && Clocked(ops + [Tick(x)]) && x.atr >= 0.0
    requires !Run(ops, c).tripped
    ensures TickActions(Run(ops, c), x, c).Some?
    ensures Run(ops + [Tick(x)], c).tripped <==>
      var own := |Filter(TickActions(Run(ops, c), x, c).value, (a: Action) => a.state == Cancelled)|;
      own >= 1 && |Filter(History(ops, c), (t: real) => t >= x.now - c.window)| + own >= c.cancelLimit
  {
    hide Run, AfterTick, TickActions, Filter, Clocked;
    assert (ops + [Tick(x)])[..|ops|] == ops;
    RunOneMore(ops, x, c);
    OwnCancels(Run(ops, c), x, c);
    InWindow(ops, x, c);
  }

  lemma RunOneMore(ops: seq<Op>, x: Input, c: Config)
    ensures Run(ops + [Tick(x)], c) == AfterTick(Run(ops, c), x, c)
  {
    hide AfterTick;
    assert (ops + [Tick(x)])[..|ops|] == ops;
  }

  lemma OwnCancels(m: Manager, x: Input, c: Config)
    requires !m.tripped && x.atr >= 0.0
    ensures TickActions(m, x, c).Some?
    ensures var own := |Filter(TickActions(m, x, c).value, (a: Action) => a.state == Cancelled)|;
      AfterTick(m, x, c).tripped <==> own >= 1 && |Pruned(m.cancels, x.now - c.window)| + own >= c.cancelLimit
  {
    hide ActionsOfAll, TickedAll, CancelTimes, Pruned, Filter;
    CancelTimesAre(ActionsOfAll(m.active, x, c.policy), x.now);
  }

  /** Pruning what a live breaker has listed for the next tick gives the history in that tick's window. */
  lemma InWindow(ops: seq<Op>, x: Input, c: Config)
    requires c.cancelLimit >= 1 && c.window >= 0.0 && Clocked(ops + [Tick(x)])
    ensures Pruned(Run(ops, c).cancels, x.now - c.window) ==
            Filter(History(ops, c), (t: real) => t >= x.now - c.window)
  {
    hide Run, History, LastTick, ActiveAtTrip, Pruned, Filter, Clocked;
    var more := ops + [Tick(x)];
    assert more[..|ops|] == ops;
    ClockAdvances(more, c);
    BreakerWindow(ops, c);
    PrunedIs(History(ops, c), x.now - c.window);
    match LastTick(ops, c) {
      case None =>
      case Some(at) => PrunedTwice(History(ops, c), at - c.window, x.now - c.window);
    }
  }
}
