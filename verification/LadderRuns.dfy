/** Whole runs of the ladder manager: the cancel-storm breaker and the bounds on repricing. */
module LadderRuns {
  import opened Trades
  import opened ExecPolicy

  datatype Op = Register(l: Limit) | Forget(id: string) | Reset | Tick(x: Input)

  function Step(m: Manager, op: Op, c: Config): Manager {
    match op
    case Register(l) => m.(active := WithLimit(m.active, l))
    case Forget(id) => m.(active := WithoutLimit(m.active, id))
    case Reset => Manager(m.active, [], false)
    case Tick(x) => AfterTick(m, x, c)
  }

  function Run(ops: seq<Op>, c: Config): Manager {
    if ops == [] then Manager([], [], false) else Step(Run(ops[..|ops| - 1], c), ops[|ops| - 1], c)
  }

  // ----- the breaker -----

  function CancelsOf(m: Manager, x: Input, c: Config): seq<real> {
    match TickActions(m, x, c)
    case None => []
    case Some(actions) => CancelTimes(actions, x.now)
  }

  /** Times of all cancels returned since the last reset, never pruned. */
  function History(ops: seq<Op>, c: Config): seq<real> {
    if ops == [] then []
    else
      var before, m := History(ops[..|ops| - 1], c), Run(ops[..|ops| - 1], c);
      match ops[|ops| - 1]
      case Reset => []
      case Tick(x) => before + CancelsOf(m, x, c)
      case _ => before
  }

  /** Time of the last tick since the last reset that found the breaker untripped. */
  function LastTick(ops: seq<Op>, c: Config): Option<real> {
    if ops == [] then None
    else
      match ops[|ops| - 1]
      case Reset => None
      case Tick(x) => if Run(ops[..|ops| - 1], c).tripped then LastTick(ops[..|ops| - 1], c) else Some(x.now)
      case _ => LastTick(ops[..|ops| - 1], c)
  }

  /** The number of active limits that the tick found which tripped the breaker since the last reset. */
  function ActiveAtTrip(ops: seq<Op>, c: Config): nat {
    if ops == [] then 0
    else
      var us := ops[..|ops| - 1];
      match ops[|ops| - 1]
      case Reset => 0
      case Tick(_) => if !Run(us, c).tripped && Run(ops, c).tripped then |Run(us, c).active| else ActiveAtTrip(us, c)
      case _ => ActiveAtTrip(us, c)
  }

  ghost predicate Clocked(ops: seq<Op>) {
    forall i, j :: 0 <= i < j < |ops| && ops[i].Tick? && ops[j].Tick? ==> ops[i].x.now <= ops[j].x.now
  }

  lemma {:induction false} PrunedTwice(times: seq<real>, a: real, b: real)
    requires a <= b
    ensures Pruned(Pruned(times, a), b) == Pruned(times, b)
  {
    if times != [] {
      var n := |times| - 1;
      PrunedTwice(times[..n], a, b);
      var r := Pruned(times[..n], a);
      if times[n] >= a { assert (r + [times[n]])[..|r|] == r; }
    }
  }

  lemma {:induction false} PrunedConcat(s: seq<real>, u: seq<real>, cutoff: real)
    ensures Pruned(s + u, cutoff) == Pruned(s, cutoff) + Pruned(u, cutoff)
  {
    if u == [] {
      assert s + u == s;
    } else {
      var n := |u| - 1;
      assert (s + u)[..|s| + n] == s + u[..n] && (s + u)[|s| + n] == u[n];
      PrunedConcat(s, u[..n], cutoff);
    }
  }

  lemma {:induction false} CancelsAreNow(actions: seq<Action>, now: real, cutoff: real)
    requires cutoff <= now
    ensures Pruned(CancelTimes(actions, now), cutoff) == CancelTimes(actions, now)
    ensures |CancelTimes(actions, now)| <= |actions|
  {
    if actions != [] {
      CancelsAreNow(actions[..|actions| - 1], now, cutoff);
      var t := CancelTimes(actions[..|actions| - 1], now);
      assert (t + [now])[..|t|] == t;
    }
  }

  lemma {:induction false} ActionsAtMostLimits(ls: seq<Limit>, x: Input, p: LadderPolicy)
    requires x.atr >= 0.0
    ensures |ActionsOfAll(ls, x, p)| <= |ls|
  {
    hide NextLadderAction;
    if ls != [] { ActionsAtMostLimits(ls[..|ls| - 1], x, p); }
  }

  lemma {:induction false} PrunedShorter(times: seq<real>, a: real, b: real)
    requires a <= b
    ensures |Pruned(times, b)| <= |Pruned(times, a)|
  {
    if times != [] { PrunedShorter(times[..|times| - 1], a, b); }
  }

  lemma {:induction false} LastTickIsATick(ops: seq<Op>, c: Config)
    ensures LastTick(ops, c).Some? ==>
      exists i :: 0 <= i < |ops| && ops[i].Tick? && ops[i].x.now == LastTick(ops, c).value
  {
    hide Step;
    if ops != [] {
      var n := |ops| - 1;
      LastTickIsATick(ops[..n], c);
      if LastTick(ops, c).Some? && LastTick(ops, c) == LastTick(ops[..n], c) {
        var i :| 0 <= i < n && ops[..n][i].Tick? && ops[..n][i].x.now == LastTick(ops, c).value;
        assert ops[i].Tick?;
      }
    }
  }

  lemma ClockAdvances(ops: seq<Op>, c: Config)
    requires Clocked(ops) && ops != [] && ops[|ops| - 1].Tick?
    ensures Clocked(ops[..|ops| - 1])
    ensures LastTick(ops[..|ops| - 1], c).Some? ==> LastTick(ops[..|ops| - 1], c).value <= ops[|ops| - 1].x.now
  {
    hide Run;
    LastTickIsATick(ops[..|ops| - 1], c);
  }

  /** What the breaker's list means at any point of a run. */
  ghost predicate WindowInvariant(ops: seq<Op>, c: Config) {
    var m := Run(ops, c);
    && (match LastTick(ops, c)
        case None => m.cancels == History(ops, c) == []
        case Some(t) => m.cancels == Pruned(History(ops, c), t - c.window))
    && (!m.tripped ==> |m.cancels| < c.cancelLimit && ActiveAtTrip(ops, c) == 0)
    && |m.cancels| <= c.cancelLimit - 1 + ActiveAtTrip(ops, c)
    && (m.tripped ==> LastTick(ops, c).Some? && |m.cancels| >= c.cancelLimit)
  }

  /** A live tick prunes the full history to its window and adds its own cancels, at most one per limit. */
  lemma LiveTick(m: Manager, history: seq<real>, last: Option<real>, x: Input, c: Config)
    requires c.window >= 0.0 && c.cancelLimit >= 1 && !m.tripped && |m.cancels| < c.cancelLimit
    requires match last
      case None => m.cancels == history == []
      case Some(t) => t <= x.now && m.cancels == Pruned(history, t - c.window)
    ensures var cutoff := x.now - c.window;
      var added := CancelsOf(m, x, c);
      && AfterTick(m, x, c).cancels == Pruned(history + added, cutoff) == Pruned(m.cancels, cutoff) + added
      && |Pruned(m.cancels, cutoff)| <= |m.cancels|
      && |added| <= |m.active|
      && (AfterTick(m, x, c).tripped <==> |AfterTick(m, x, c).cancels| >= c.cancelLimit)
  {
    hide TickedAll, ActionsOfAll;
    var cutoff := x.now - c.window;
    var added := CancelsOf(m, x, c);
    if x.atr >= 0.0 {
      CancelsAreNow(ActionsOfAll(m.active, x, c.policy), x.now, cutoff);
      ActionsAtMostLimits(m.active, x, c.policy);
    }
    PrunedConcat(history, added, cutoff);
    if last.Some? {
      PrunedTwice(history, last.value - c.window, cutoff);
      PrunedShorter(history, last.value - c.window, cutoff);
    }
  }

  lemma TickInvariant(ops: seq<Op>, c: Config)
    requires c.cancelLimit >= 1 && c.window >= 0.0 && Clocked(ops)
    requires ops != [] && ops[|ops| - 1].Tick? && WindowInvariant(ops[..|ops| - 1], c)
    ensures WindowInvariant(ops, c)
  {
    hide AfterTick, CancelsOf, Pruned, Clocked;
    var us, x := ops[..|ops| - 1], ops[|ops| - 1].x;
    var m := Run(us, c);
    ClockAdvances(ops, c);
    if !m.tripped {
      LiveTick(m, History(us, c), LastTick(us, c), x, c);
    } else {
      SilentTick(m, x, c);
      assert History(us, c) + [] == History(us, c);
    }
  }

  lemma SilentTick(m: Manager, x: Input, c: Config)
    requires m.tripped
    ensures AfterTick(m, x, c) == m && CancelsOf(m, x, c) == []
  {
    NoCancelTimes(x.now);
  }

  /**
   * With a clock that does not run backwards: the pruned list is the full cancel history since the
   * last reset, restricted to the window that ends at the last live tick; an untripped breaker has
   * seen fewer cancels than the limit there; and no window holds more than limit - 1 and one for each
   * limit that was active at the tick which tripped it.
   */
  lemma {:induction false} BreakerWindow(ops: seq<Op>, c: Config)
    requires c.cancelLimit >= 1 && c.window >= 0.0 && Clocked(ops)
    ensures WindowInvariant(ops, c)
  {
    hide WithLimit, WithoutLimit, AfterTick;
    if ops != [] {
      BreakerWindow(ops[..|ops| - 1], c);
      if ops[|ops| - 1].Tick? { TickInvariant(ops, c); }
    }
  }

  /** Cancels in the trailing window at any time from the last live tick on. */
  lemma CancelsBounded(ops: seq<Op>, c: Config, now: real)
    requires c.cancelLimit >= 1 && c.window >= 0.0 && Clocked(ops)
    requires LastTick(ops, c).Some? ==> LastTick(ops, c).value <= now
    ensures |Pruned(History(ops, c), now - c.window)| <= c.cancelLimit - 1 + ActiveAtTrip(ops, c)
    ensures !Run(ops, c).tripped ==> |Pruned(History(ops, c), now - c.window)| < c.cancelLimit
  {
    hide Run, History, LastTick, ActiveAtTrip;
    BreakerWindow(ops, c);
    match LastTick(ops, c) {
      case None => assert Pruned([], now - c.window) == [];
      case Some(t) => PrunedShorter(History(ops, c), t - c.window, now - c.window);
    }
  }

  /** Once tripped, every tick returns nothing and changes nothing until the breaker is reset. */
  lemma {:induction false} TripSilences(ops: seq<Op>, more: seq<Op>, c: Config, x: Input)
    requires Run(ops, c).tripped && forall i :: 0 <= i < |more| ==> !more[i].Reset?
    ensures var m := Run(ops + more, c);
      && m.tripped && m.cancels == Run(ops, c).cancels && History(ops + more, c) == History(ops, c)
      && TickActions(m, x, c) == Some([]) && AfterTick(m, x, c) == m
  {
    hide Step, AfterTick, TickActions, CancelsOf;
    if more == [] {
      assert ops + more == ops;
    } else {
      var n := |more| - 1;
      assert (ops + more)[..|ops + more| - 1] == ops + more[..n] && (ops + more)[|ops + more| - 1] == more[n];
      TripSilences(ops, more[..n], c, x);
      SilentOp(Run(ops + more[..n], c), more[n], c);
      if more[n].Tick? { SilentTick(Run(ops + more[..n], c), more[n].x, c); }
      assert History(ops, c) + [] == History(ops, c);
    }
    SilentTick(Run(ops + more, c), x, c);
    NoActionsTaken(Run(ops + more, c), x, c);
  }

  lemma SilentOp(m: Manager, op: Op, c: Config)
    requires m.tripped && !op.Reset?
    ensures Step(m, op, c).tripped && Step(m, op, c).cancels == m.cancels
  {
    hide WithLimit, WithoutLimit;
  }

  lemma NoActionsTaken(m: Manager, x: Input, c: Config)
    requires m.tripped
    ensures TickActions(m, x, c) == Some([])
  {
  }

  // ----- one limit -----

  ghost predicate ValidInputs(xs: seq<Input>) {
    forall i :: 0 <= i < |xs| ==> xs[i].atr >= 0.0
  }

  function Evolved(l: Limit, xs: seq<Input>, p: LadderPolicy): Limit
    requires ValidInputs(xs)
  {
    if xs == [] then l else Ticked(Evolved(l, xs[..|xs| - 1], p), xs[|xs| - 1], p)
  }

  /** How many of the actions on a limit move it to state s. */
  function Moves(l: Limit, xs: seq<Input>, p: LadderPolicy, s: LadderState): nat
    requires ValidInputs(xs)
  {
    if xs == [] then 0
    else Moves(l, xs[..|xs| - 1], p, s) + Move(Evolved(l, xs[..|xs| - 1], p), xs[|xs| - 1], p, s)
  }

  /** A limit as it is registered after a successful placement. */
  predicate JustPlaced(l: Limit) {
    l.state == Placed && l.current == l.original && l.steps == 0
  }

  /** The original price and k ticks toward the market: up for the sides that buy, down for those that sell. */
  function Displaced(l: Limit, k: int, p: LadderPolicy): real {
    match l.side
    case YesBuy => l.original + k as real * p.tickStep
    case NoBuy => l.original + k as real * p.tickStep
    case YesSell => l.original - k as real * p.tickStep
    case NoSell => l.original - k as real * p.tickStep
  }

  lemma DisplacedIs(l: Limit, k: int, p: LadderPolicy)
    ensures Displaced(l, k, p) == l.original + Shift(l.side, k, p)
  {
    SignedProduct(k as real * p.tickStep);
  }

  lemma SignedProduct(x: real)
    ensures 1 as real * x == x && (-1) as real * x == -x
  {
  }

  function Move(l: Limit, x: Input, p: LadderPolicy, s: LadderState): nat
    requires x.atr >= 0.0
  {
    var as_ := ActionsOf(l, x, p);
    if as_ != [] && as_[0].state == s then 1 else 0
  }

  /** What one tick can do to one limit. */
  lemma TickLaw(l: Limit, x: Input, p: LadderPolicy)
    requires x.atr >= 0.0
    ensures var m := Ticked(l, x, p);
      var a, b := Move(l, x, p, Step1), Move(l, x, p, Step2);
      && m.id == l.id && m.side == l.side && m.original == l.original && m.placedAt == l.placedAt
      && a + b <= 1 && m.steps == l.steps + a + b
      && m.current == l.current + (if a + b == 0 then 0.0 else Shift(l.side, a + 2 * b, p))
      && (a == 1 ==> l.state == Placed) && (a + b == 1 ==> l.steps < p.maxStepCount)
      && (m.state == Placed ==> l.state == Placed && a == 0)
  {
    hide ComputeToxicity, BookRefPrice, AbsDiff, Shift;
  }

  lemma ShiftAdds(side: OrderSide, a: int, b: int, p: LadderPolicy)
    ensures Shift(side, a, p) + Shift(side, b, p) == Shift(side, a + b, p)
  {
    assert (a + b) as real * p.tickStep == a as real * p.tickStep + b as real * p.tickStep;
  }

  /**
   * Over any sequence of ticks, whatever the flow and the book do, even through FROZEN and
   * CANCELLED: STEP_1 is taken at most once, the step count is the number of repricings and stays
   * within its maximum, and the price is displaced by one tick per STEP_1 and two per STEP_2.
   */
  lemma {:induction false} LadderDisplacement(l: Limit, xs: seq<Input>, p: LadderPolicy)
    requires JustPlaced(l) && ValidInputs(xs) && p.maxStepCount >= 0
    ensures var m := Evolved(l, xs, p);
      var k1, k2 := Moves(l, xs, p, Step1), Moves(l, xs, p, Step2);
      && m.id == l.id && m.side == l.side && m.original == l.original && m.placedAt == l.placedAt
      && k1 <= 1 && k1 + k2 == m.steps <= p.maxStepCount
      && m.current == Displaced(l, k1 + 2 * k2, p)
      && (m.state == Placed ==> k1 == 0)
  {
    hide Ticked, Move, Shift, Displaced;
    if xs == [] {
      NotDisplaced(l, p);
    } else {
      var us := xs[..|xs| - 1];
      LadderDisplacement(l, us, p);
      TickLaw(Evolved(l, us, p), xs[|xs| - 1], p);
      var k := Moves(l, us, p, Step1) + 2 * Moves(l, us, p, Step2);
      ShiftAdds(l.side, k, 1, p);
      ShiftAdds(l.side, k, 2, p);
      DisplacedIs(l, k, p);
      DisplacedIs(l, k + 1, p);
      DisplacedIs(l, k + 2, p);
    }
  }

  lemma NotDisplaced(l: Limit, p: LadderPolicy)
    ensures Displaced(l, 0, p) == l.original
  {
  }

  /** Prices only ever move toward the market: a limit that buys never falls, one that sells never rises. */
  lemma {:induction false} MovesTowardMarket(l: Limit, xs: seq<Input>, ys: seq<Input>, p: LadderPolicy)
    requires ValidInputs(xs) && ValidInputs(ys) && p.tickStep >= 0.0
    ensures ValidInputs(xs + ys)
    ensures var a, b := Evolved(l, xs, p), Evolved(l, xs + ys, p);
      && a.side == b.side == l.side
      && (l.side == YesBuy || l.side == NoBuy ==> b.current >= a.current)
      && (l.side == YesSell || l.side == NoSell ==> b.current <= a.current)
  {
    hide Ticked, Move, Shift;
    KeepsSide(l, xs, p);
    if ys == [] {
      assert xs + ys == xs;
    } else {
      var n := |ys| - 1;
      assert (xs + ys)[..|xs| + n] == xs + ys[..n] && (xs + ys)[|xs| + n] == ys[n];
      MovesTowardMarket(l, xs, ys[..n], p);
      TickLaw(Evolved(l, xs + ys[..n], p), ys[n], p);
      ShiftSign(l.side, 1, p);
      ShiftSign(l.side, 2, p);
    }
  }

  lemma ShiftSign(side: OrderSide, n: nat, p: LadderPolicy)
    requires p.tickStep >= 0.0
    ensures side == YesBuy || side == NoBuy ==> Shift(side, n, p) >= 0.0
    ensures side == YesSell || side == NoSell ==> Shift(side, n, p) <= 0.0
  {
    assert n as real * p.tickStep >= 0.0;
    SignedProduct(n as real * p.tickStep);
  }

  lemma {:induction false} KeepsSide(l: Limit, xs: seq<Input>, p: LadderPolicy)
    requires ValidInputs(xs)
    ensures Evolved(l, xs, p).side == l.side
  {
    hide NextLadderAction;
    if xs != [] { KeepsSide(l, xs[..|xs| - 1], p); }
  }

  /** The limit was never frozen and never cancelled. */
  ghost predicate Undisturbed(l: Limit, xs: seq<Input>, p: LadderPolicy)
    requires ValidInputs(xs)
  {
    forall n :: 0 <= n <= |xs| ==> StateAfter(l, xs, p, n) != Frozen && StateAfter(l, xs, p, n) != Cancelled
  }

  function StateAfter(l: Limit, xs: seq<Input>, p: LadderPolicy, n: nat): LadderState
    requires ValidInputs(xs) && n <= |xs|
  {
    Evolved(l, xs[..n], p).state
  }

  lemma UndisturbedPrefix(l: Limit, xs: seq<Input>, p: LadderPolicy)
    requires ValidInputs(xs) && xs != [] && Undisturbed(l, xs, p)
    ensures Undisturbed(l, xs[..|xs| - 1], p)
    ensures Evolved(l, xs, p).state != Frozen && Evolved(l, xs, p).state != Cancelled
  {
    hide Ticked;
    var us := xs[..|xs| - 1];
    forall n | 0 <= n <= |us| ensures StateAfter(l, us, p, n) != Frozen && StateAfter(l, us, p, n) != Cancelled {
      assert us[..n] == xs[..n];
      assert StateAfter(l, xs, p, n) != Frozen && StateAfter(l, xs, p, n) != Cancelled;
    }
    assert xs[..|xs|] == xs;
    assert StateAfter(l, xs, p, |xs|) != Frozen && StateAfter(l, xs, p, |xs|) != Cancelled;
  }

  /** Without freezes and cancels each step happens at most once, so at most three ticks are given. */
  lemma {:induction false} UndisturbedAtMostThreeTicks(l: Limit, xs: seq<Input>, p: LadderPolicy)
    requires JustPlaced(l) && ValidInputs(xs) && Undisturbed(l, xs, p)
    ensures var k1, k2 := Moves(l, xs, p, Step1), Moves(l, xs, p, Step2);
      var s := Evolved(l, xs, p).state;
      k1 + 2 * k2 <= 3 && s != Frozen && s != Cancelled
      && (s == Placed ==> k1 == k2 == 0) && (s == Step1 ==> k1 == 1 && k2 == 0) && (s == Step2 ==> k1 <= 1 && k2 == 1)
  {
    hide ComputeToxicity, BookRefPrice, AbsDiff, Undisturbed, Shift;
    if xs != [] {
      UndisturbedPrefix(l, xs, p);
      UndisturbedAtMostThreeTicks(l, xs[..|xs| - 1], p);
    }
  }

  /** A freeze in between lets STEP_2 be taken twice: four ticks under the default policy. */
  lemma FreezeAllowsFourTicks()
    ensures var p := LadderPolicy(300.0, 900.0, 1800.0, 0.01, 2, 2.0, 0.70, 0.80);
      exists l, xs :: JustPlaced(l) && ValidInputs(xs) && Moves(l, xs, p, Step1) == 0 && Moves(l, xs, p, Step2) == 2
                      && Evolved(l, xs, p).current == l.original + 0.04
  {
    var p := LadderPolicy(300.0, 900.0, 1800.0, 0.01, 2, 2.0, 0.70, 0.80);
    var l := Limit("o", YesBuy, 0.5, 0.5, 0.0, Placed, 0);
    var book := BookSnapshot(0.5, 0.6, 0.4, 0.5);
    var calm, hostile := FlowWindow(1.0, 0.0, 0.0, 0.0), FlowWindow(0.0, 1.0, 0.0, 0.0);
    var a, b, d := Input(book, calm, 0.0, 1000.0), Input(book, hostile, 0.0, 1100.0), Input(book, calm, 0.0, 1200.0);
    assert ComputeToxicity(calm, YesBuy) == 0.0 && ComputeToxicity(hostile, YesBuy) == 1.0;
    var l1, l2 := Limit("o", YesBuy, 0.5, 0.52, 0.0, Step2, 1), Limit("o", YesBuy, 0.5, 0.52, 0.0, Frozen, 1);
    assert NextLadderAction(l, a, p) == (Step2, Some(0.52));
    assert NextLadderAction(l1, b, p) == (Frozen, None);
    assert NextLadderAction(l2, d, p) == (Step2, Some(0.54));
    var xs := [a, b, d];
    assert xs[..2] == [a, b] && xs[..2][..1] == [a] && [a][..0] == [];
    assert Evolved(l, [a], p) == l1;
    assert Evolved(l, [a, b], p) == l2;
    assert Moves(l, [a], p, Step2) == 1 && Moves(l, [a], p, Step1) == 0;
    assert Moves(l, [a, b], p, Step2) == 1 && Moves(l, [a, b], p, Step1) == 0;
    assert Evolved(l, xs, p).current == 0.54;
    assert Moves(l, xs, p, Step2) == 2 && Moves(l, xs, p, Step1) == 0;
  }

  // ----- all limits of a manager -----

  ghost predicate Evolves(l: Limit, p: LadderPolicy) {
    exists l0, xs :: JustPlaced(l0) && ValidInputs(xs) && l == Evolved(l0, xs, p)
  }

  lemma EvolvesOneMore(l: Limit, x: Input, p: LadderPolicy)
    requires Evolves(l, p) && x.atr >= 0.0
    ensures Evolves(Ticked(l, x, p), p)
  {
    hide Ticked;
    var l0, xs :| JustPlaced(l0) && ValidInputs(xs) && l == Evolved(l0, xs, p);
    assert (xs + [x])[..|xs|] == xs;
    assert Ticked(l, x, p) == Evolved(l0, xs + [x], p);
  }

  lemma EvolvesFromStart(l: Limit, p: LadderPolicy)
    requires JustPlaced(l)
    ensures Evolves(l, p)
  {
    assert l == Evolved(l, [], p);
  }

  /** In every run in which limits are registered as just placed, each active limit has so evolved. */
  lemma {:induction false} ActiveLimitsEvolve(ops: seq<Op>, c: Config)
    requires forall i :: 0 <= i < |ops| && ops[i].Register? ==> JustPlaced(ops[i].l)
    ensures forall l :: l in Run(ops, c).active ==> Evolves(l, c.policy)
  {
    hide Ticked, Evolves, CancelTimes, Pruned, ActionsOfAll, JustPlaced;
    if ops != [] {
      var m := Run(ops[..|ops| - 1], c);
      ActiveLimitsEvolve(ops[..|ops| - 1], c);
      match ops[|ops| - 1] {
        case Register(l) => EvolvesFromStart(l, c.policy);
        case Tick(x) =>
          if x.atr >= 0.0 && !m.tripped {
            var ls := TickedAll(m.active, x, c.policy);
            forall l | l in ls ensures Evolves(l, c.policy) {
              var i :| 0 <= i < |ls| && ls[i] == l;
              assert m.active[i] in m.active;
              EvolvesOneMore(m.active[i], x, c.policy);
            }
          }
        case _ =>
      }
    }
  }

  /** k1 single steps and k2 double steps toward the market. */
  predicate Repriced(l: Limit, k1: nat, k2: nat, p: LadderPolicy) {
    k1 <= 1 && k1 + k2 == l.steps <= p.maxStepCount && l.current == Displaced(l, k1 + 2 * k2, p)
  }

  /** So in every such run every active limit obeys the displacement law. */
  lemma ActiveLimitsBounded(ops: seq<Op>, c: Config, l: Limit)
    requires forall i :: 0 <= i < |ops| && ops[i].Register? ==> JustPlaced(ops[i].l)
    requires l in Run(ops, c).active && c.policy.maxStepCount >= 0
    ensures exists k1, k2 :: Repriced(l, k1, k2, c.policy)
  {
    hide Run, Shift, Moves, JustPlaced, ValidInputs, Evolved;
    ActiveLimitsEvolve(ops, c);
    var l0, xs :| JustPlaced(l0) && ValidInputs(xs) && l == Evolved(l0, xs, c.policy);
    LadderDisplacement(l0, xs, c.policy);
    assert Repriced(l, Moves(l0, xs, c.policy, Step1), Moves(l0, xs, c.policy, Step2), c.policy);
  }

  // ----- replaying the returned actions -----

  function Perform(l: Limit, a: Action): Limit {
    if l.id != a.id then l
    else if a.price.Some? then l.(state := a.state, current := a.price.value, steps := l.steps + 1)
    else l.(state := a.state)
  }

  function PerformAll(ls: seq<Limit>, actions: seq<Action>): seq<Limit> {
    if actions == [] then ls
    else
      var before := PerformAll(ls, actions[..|actions| - 1]);
      seq(|before|, i requires 0 <= i < |before| => Perform(before[i], actions[|actions| - 1]))
  }

  /** What an executor knows that sees registrations, forgettings and returned actions only. */
  function Mirror(ops: seq<Op>, c: Config): seq<Limit> {
    if ops == [] then []
    else
      var before, m := Mirror(ops[..|ops| - 1], c), Run(ops[..|ops| - 1], c);
      match ops[|ops| - 1]
      case Register(l) => WithLimit(before, l)
      case Forget(id) => WithoutLimit(before, id)
      case Reset => before
      case Tick(x) =>
        match TickActions(m, x, c)
        case None => before
        case Some(actions) => PerformAll(before, actions)
  }

  lemma PerformAllConcat(ls: seq<Limit>, actions: seq<Action>, a: Action)
    ensures var before := PerformAll(ls, actions);
      PerformAll(ls, actions + [a]) == seq(|before|, i requires 0 <= i < |before| => Perform(before[i], a))
  {
    assert (actions + [a])[..|actions|] == actions;
  }

  /** The first n limits have been advanced, the others not yet. */
  ghost predicate AdvancedUpTo(ls: seq<Limit>, ms: seq<Limit>, x: Input, p: LadderPolicy, n: nat)
    requires x.atr >= 0.0
  {
    && |ms| == |ls|
    && forall i :: 0 <= i < |ls| ==> ms[i] == if i < n then Ticked(ls[i], x, p) else ls[i]
  }

  lemma PerformOne(l: Limit, x: Input, p: LadderPolicy)
    requires x.atr >= 0.0
    ensures var as_ := ActionsOf(l, x, p);
      Ticked(l, x, p) == (if as_ == [] then l else Perform(l, as_[0])) && |as_| <= 1
      && (as_ != [] ==> as_[0].id == l.id) && Ticked(l, x, p).id == l.id
  {
    hide NextLadderAction;
  }

  lemma {:induction false} ReplayPrefix(ls: seq<Limit>, x: Input, p: LadderPolicy, n: nat)
    requires x.atr >= 0.0 && DistinctIds(ls) && n <= |ls|
    ensures AdvancedUpTo(ls, PerformAll(ls, ActionsOfAll(ls[..n], x, p)), x, p, n)
  {
    hide Ticked, ActionsOf, ActionsOfAll, PerformAll;
    if n == 0 {
      assert ls[..0] == [];
      NoActions(x, p);
      NothingPerformed(ls);
    } else {
      ReplayPrefix(ls, x, p, n - 1);
      ActionsOfPrefix(ls, n - 1, x, p);
      var done := ActionsOfAll(ls[..n - 1], x, p);
      var as_ := ActionsOf(ls[n - 1], x, p);
      forall i | 0 <= i < |ls| ensures Ticked(ls[i], x, p).id == ls[i].id { PerformOne(ls[i], x, p); }
      PerformOne(ls[n - 1], x, p);
      if as_ == [] {
        assert done + as_ == done;
      } else {
        assert done + as_ == done + [as_[0]];
        PerformAllConcat(ls, done, as_[0]);
      }
    }
  }

  lemma NothingPerformed(ls: seq<Limit>)
    ensures PerformAll(ls, []) == ls
  {
  }

  lemma {:induction false} RunDistinct(ops: seq<Op>, c: Config)
    ensures DistinctIds(Run(ops, c).active)
  {
    hide Ticked, CancelTimes, Pruned, ActionsOfAll;
    if ops != [] {
      RunDistinct(ops[..|ops| - 1], c);
      var m := Run(ops[..|ops| - 1], c);
      match ops[|ops| - 1] {
        case Register(l) => RegisterDistinct(m.active, l);
        case Tick(x) => if x.atr >= 0.0 { TickKeepsIds(m.active, x, c.policy); }
        case _ =>
      }
    }
  }

  lemma RegisterDistinct(ls: seq<Limit>, l: Limit)
    requires DistinctIds(ls)
    ensures DistinctIds(WithLimit(ls, l))
  {
  }

  /** Over every run, replaying the returned actions reproduces the manager's states and prices. */
  lemma {:induction false} ActionsReproduceManager(ops: seq<Op>, c: Config)
    ensures Mirror(ops, c) == Run(ops, c).active
  {
    hide Ticked, CancelTimes, Pruned, ActionsOfAll, WithLimit, WithoutLimit;
    if ops != [] {
      var us := ops[..|ops| - 1];
      ActionsReproduceManager(us, c);
      var m := Run(us, c);
      RunDistinct(us, c);
      match ops[|ops| - 1] {
        case Tick(x) =>
          if x.atr >= 0.0 && !m.tripped {
            ReplayPrefix(m.active, x, c.policy, |m.active|);
            assert m.active[..|m.active|] == m.active;
            var ms := PerformAll(m.active, ActionsOfAll(m.active, x, c.policy));
            assert ms == TickedAll(m.active, x, c.policy);
          }
        case _ =>
      }
    }
  }
}
