/** Execution policy: toxicity, the limit ladder, and the manager with its cancel-storm breaker. */
module ExecPolicy {
  import opened Trades
  import Decimals

  datatype OrderSide = YesBuy | NoBuy | YesSell | NoSell

  datatype LadderState = Placed | Step1 | Step2 | Frozen | Cancelled

  datatype BookSnapshot = BookSnapshot(yesBid: real, yesAsk: real, noBid: real, noAsk: real)

  /** Aggressive flow per token over a lookback. */
  datatype FlowWindow = FlowWindow(buyYes: real, sellYes: real, buyNo: real, sellNo: real)

  datatype LadderPolicy = LadderPolicy(
    step1Age: real, step2Age: real, cancelAge: real, tickStep: real, maxStepCount: int,
    bookMoveCancelAtr: real, freezeThreshold: real, placeBlockThreshold: real)

  /** What one tick looks at. */
  datatype Input = Input(book: BookSnapshot, flow: FlowWindow, atr: real, now: real)

  /** The value of a resting limit order. */
  datatype Limit = Limit(
    id: string, side: OrderSide, original: real, current: real, placedAt: real, state: LadderState, steps: int)

  datatype Action = Action(id: string, state: LadderState, price: Option<real>)

  function ComputeToxicity(flow: FlowWindow, side: OrderSide): real {
    var (against, withUs) :=
      match side
      case YesBuy => (flow.sellYes, flow.buyYes)
      case NoBuy => (flow.sellNo, flow.buyNo)
      case YesSell => (flow.buyYes, flow.sellYes)
      case NoSell => (flow.buyNo, flow.sellNo);
    var gross := against + withUs;
    if gross < 0.000001 then 0.0 else against / gross
  }

  /** The score lies in [0, 1] whenever flows are not negative. */
  lemma ToxicityInRange(flow: FlowWindow, side: OrderSide)
    requires flow.buyYes >= 0.0 && flow.sellYes >= 0.0 && flow.buyNo >= 0.0 && flow.sellNo >= 0.0
    ensures 0.0 <= ComputeToxicity(flow, side) <= 1.0
  {
    Share(flow.sellYes, flow.buyYes);
    Share(flow.buyYes, flow.sellYes);
    Share(flow.sellNo, flow.buyNo);
    Share(flow.buyNo, flow.sellNo);
  }

  lemma Share(a: real, b: real)
    requires a >= 0.0 && b >= 0.0
    ensures a + b > 0.0 ==> 0.0 <= a / (a + b) <= 1.0
  {
    if a + b > 0.0 {
      SelfQuotient(a + b);
      Decimals.DivideMonotone(0.0, a, a + b);
      Decimals.DivideMonotone(a, a + b, a + b);
    }
  }

  lemma SelfQuotient(g: real)
    requires g > 0.0
    ensures 0.0 / g == 0.0 && g / g == 1.0
  {
  }

  function BookRefPrice(book: BookSnapshot, side: OrderSide): real {
    match side
    case YesBuy => book.yesBid
    case NoBuy => book.noBid
    case YesSell => book.yesAsk
    case NoSell => book.noAsk
  }

  /** Towards the market: up for a BUY, down for a SELL. */
  function Direction(side: OrderSide): int {
    if side == YesBuy || side == NoBuy then 1 else -1
  }

  /** Signed price change of n ticks toward the market. */
  function Shift(side: OrderSide, n: int, p: LadderPolicy): real {
    Direction(side) as real * (n as real * p.tickStep)
  }

  function AbsDiff(a: real, b: real): real {
    if a < b then b - a else a - b
  }

  /** Next state and, when the limit is repriced, its new price. The average true range is not negative. */
  function NextLadderAction(l: Limit, x: Input, p: LadderPolicy): (LadderState, Option<real>)
    requires x.atr >= 0.0
  {
    var age := x.now - l.placedAt;
    if ComputeToxicity(x.flow, l.side) >= p.freezeThreshold then (Frozen, None)
    else if x.atr > 0.0 && AbsDiff(BookRefPrice(x.book, l.side), l.original) > p.bookMoveCancelAtr * x.atr
    then (Cancelled, None)
    else if age >= p.cancelAge then (Cancelled, None)
    else if l.steps >= p.maxStepCount then (l.state, None)
    else if age >= p.step2Age && l.state != Step2 then (Step2, Some(l.current + Shift(l.side, 2, p)))
    else if age >= p.step1Age && l.state == Placed then (Step1, Some(l.current + Shift(l.side, 1, p)))
    else (l.state, None)
  }

  // ----- one tick over the active limits -----

  function Changed(l: Limit, x: Input, p: LadderPolicy): bool
    requires x.atr >= 0.0
  {
    NextLadderAction(l, x, p) != (l.state, None)
  }

  function Ticked(l: Limit, x: Input, p: LadderPolicy): Limit
    requires x.atr >= 0.0
  {
    var (state, price) := NextLadderAction(l, x, p);
    if price.Some? then l.(state := state, current := price.value, steps := l.steps + 1)
    else l.(state := state)
  }

  function ActionsOf(l: Limit, x: Input, p: LadderPolicy): seq<Action>
    requires x.atr >= 0.0
  {
    var (state, price) := NextLadderAction(l, x, p);
    if Changed(l, x, p) then [Action(l.id, state, price)] else []
  }

  function TickedAll(ls: seq<Limit>, x: Input, p: LadderPolicy): seq<Limit>
    requires x.atr >= 0.0
  {
    seq(|ls|, i requires 0 <= i < |ls| => Ticked(ls[i], x, p))
  }

  function ActionsOfAll(ls: seq<Limit>, x: Input, p: LadderPolicy): seq<Action>
    requires x.atr >= 0.0
  {
    if ls == [] then [] else ActionsOfAll(ls[..|ls| - 1], x, p) + ActionsOf(ls[|ls| - 1], x, p)
  }

  /** The cancel times that a list of actions adds. */
  function CancelTimes(actions: seq<Action>, now: real): seq<real> {
    if actions == [] then []
    else
      var before := CancelTimes(actions[..|actions| - 1], now);
      if actions[|actions| - 1].state == Cancelled then before + [now] else before
  }

  function Pruned(times: seq<real>, cutoff: real): seq<real> {
    if times == [] then []
    else
      var t, before := times[|times| - 1], Pruned(times[..|times| - 1], cutoff);
      if t >= cutoff then before + [t] else before
  }

  // ----- the manager as a value -----

  datatype Config = Config(policy: LadderPolicy, cancelLimit: int, window: real)

  datatype Manager = Manager(active: seq<Limit>, cancels: seq<real>, tripped: bool)

  function IndexOf(ls: seq<Limit>, id: string): (r: Option<nat>)
    ensures r.Some? ==> r.value < |ls| && ls[r.value].id == id
    ensures r.None? ==> forall i :: 0 <= i < |ls| ==> ls[i].id != id
  {
    if ls == [] then None
    else if ls[|ls| - 1].id == id then Some(|ls| - 1)
    else IndexOf(ls[..|ls| - 1], id)
  }

  /** A registration replaces the entry of its id in place, or adds one at the end. */
  function WithLimit(ls: seq<Limit>, l: Limit): seq<Limit> {
    match IndexOf(ls, l.id)
    case Some(i) => ls[i := l]
    case None => ls + [l]
  }

  function WithoutLimit(ls: seq<Limit>, id: string): seq<Limit> {
    match IndexOf(ls, id)
    case Some(i) => ls[..i] + ls[i + 1..]
    case None => ls
  }

  /** Actions of a tick; None when a negative range makes the policy raise. */
  function TickActions(m: Manager, x: Input, c: Config): Option<seq<Action>> {
    if m.tripped then Some([])
    else if x.atr >= 0.0 then Some(ActionsOfAll(m.active, x, c.policy))
    else if m.active == [] then Some([])
    else None
  }

  function AfterTick(m: Manager, x: Input, c: Config): Manager {
    if m.tripped then m
    else
      var pruned := Pruned(m.cancels, x.now - c.window);
      if x.atr < 0.0 then m.(cancels := pruned)
      else
        var added := CancelTimes(ActionsOfAll(m.active, x, c.policy), x.now);
        Manager(TickedAll(m.active, x, c.policy), pruned + added,
                added != [] && |pruned| + |added| >= c.cancelLimit)
  }

  ghost predicate DistinctIds(ls: seq<Limit>) {
    forall i, j :: 0 <= i < j < |ls| ==> ls[i].id != ls[j].id
  }

  // ----- the objects -----

  class ActiveLimit {
    const id: string
    const side: OrderSide
    const original: real
    const placedAt: real
    var current: real
    var state: LadderState
    var steps: int

    function View(): Limit
      reads this
    {
      Limit(id, side, original, current, placedAt, state, steps)
    }

    constructor (l: Limit)
      ensures View() == l
    {
      id, side, original, placedAt := l.id, l.side, l.original, l.placedAt;
      current, state, steps := l.current, l.state, l.steps;
    }
  }

  function ViewsOf(ls: seq<ActiveLimit>): seq<Limit>
    reads ls
  {
    seq(|ls|, i requires 0 <= i < |ls| reads ls => ls[i].View())
  }

  lemma IdsOfViews(ls: seq<ActiveLimit>)
    ensures forall i :: 0 <= i < |ls| ==> ViewsOf(ls)[i].id == ls[i].id
  {
  }

  lemma ViewsWithout(ls: seq<ActiveLimit>, i: nat)
    requires i < |ls|
    ensures ViewsOf(ls[..i] + ls[i + 1..]) == ViewsOf(ls)[..i] + ViewsOf(ls)[i + 1..]
  {
  }

  /** Removing the one entry of an id, and the absence of one. */
  lemma ForgottenAt(vs: seq<Limit>, i: nat, id: string)
    requires DistinctIds(vs) && i < |vs| && vs[i].id == id
    ensures WithoutLimit(vs, id) == vs[..i] + vs[i + 1..] && DistinctIds(WithoutLimit(vs, id))
  {
    assert IndexOf(vs, id) == Some(i);
    WithoutDistinct(vs, i);
  }

  lemma WithoutDistinct(vs: seq<Limit>, i: nat)
    requires DistinctIds(vs) && i < |vs|
    ensures DistinctIds(vs[..i] + vs[i + 1..])
  {
    var r := vs[..i] + vs[i + 1..];
    forall j, k | 0 <= j < k < |r| ensures r[j].id != r[k].id {
      var j', k' := if j < i then j else j + 1, if k < i then k else k + 1;
      assert r[j] == vs[j'] && r[k] == vs[k'];
    }
  }

  lemma NoneForgotten(vs: seq<Limit>, id: string)
    requires forall j :: 0 <= j < |vs| ==> vs[j].id != id
    ensures WithoutLimit(vs, id) == vs
  {
    var f := IndexOf(vs, id);
  }

  class LadderManager {
    const config: Config
    var active: seq<ActiveLimit>
    var cancels: seq<real>
    var tripped: bool

    ghost predicate Valid()
      reads this, active
    {
      DistinctIds(ViewsOf(active))
    }

    function View(): Manager
      reads this, active
    {
      Manager(ViewsOf(active), cancels, tripped)
    }

    constructor (config: Config)
      ensures Valid() && View() == Manager([], [], false) && this.config == config
    {
      this.config := config;
      active, cancels, tripped := [], [], false;
    }

    method Register(limit: ActiveLimit)
      requires Valid()
      modifies this`active
      ensures Valid() && View() == old(View()).(active := WithLimit(old(View()).active, limit.View()))
    {
      var i := 0;
      while i < |active| && active[i].id != limit.id
        invariant 0 <= i <= |active|
        invariant forall j :: 0 <= j < i ==> active[j].id != limit.id
      {
        i := i + 1;
      }
      ghost var vs := ViewsOf(active);
      if i < |active| {
        assert vs[i].id == limit.id;
        active := active[i := limit];
        assert ViewsOf(active) == vs[i := limit.View()];
      } else {
        active := active + [limit];
        assert ViewsOf(active) == vs + [limit.View()];
      }
    }

    method Forget(id: string)
      requires Valid()
      modifies this`active
      ensures Valid() && View() == old(View()).(active := WithoutLimit(old(View()).active, id))
    {
      var i := 0;
      while i < |active| && active[i].id != id
        invariant 0 <= i <= |active|
        invariant forall j :: 0 <= j < i ==> active[j].id != id
      {
        i := i + 1;
      }
      hide WithoutLimit, DistinctIds;
      ghost var vs := ViewsOf(active);
      IdsOfViews(active);
      if i < |active| {
        ForgottenAt(vs, i, id);
        ViewsWithout(active, i);
        active := active[..i] + active[i + 1..];
      } else {
        NoneForgotten(vs, id);
      }
    }

    method ResetBreaker()
      requires Valid()
      modifies this`cancels, this`tripped
      ensures Valid() && View() == Manager(old(View()).active, [], false)
    {
      tripped := false;
      cancels := [];
    }

    method PruneCancels(now: real)
      modifies this`cancels
      ensures cancels == Pruned(old(cancels), now - config.window)
    {
      var cutoff := now - config.window;
      var kept := [];
      for i := 0 to |cancels|
        invariant kept == Pruned(cancels[..i], cutoff)
      {
        assert cancels[..i + 1][..i] == cancels[..i];
        if cancels[i] >= cutoff { kept := kept + [cancels[i]]; }
      }
      assert cancels[..|cancels|] == cancels;
      cancels := kept;
    }

    /** Applies the policy to one limit in place; the action taken, if any. */
    method Advance(limit: ActiveLimit, x: Input) returns (action: Option<Action>)
      requires x.atr >= 0.0
      modifies limit
      ensures limit.View() == Ticked(old(limit.View()), x, config.policy)
      ensures ActionsOf(old(limit.View()), x, config.policy) == if action.Some? then [action.value] else []
    {
      hide NextLadderAction;
      var (state, price) := NextLadderAction(limit.View(), x, config.policy);
      if state == limit.state && price.None? {
        return None;
      }
      if price.Some? {
        limit.current := price.value;
        limit.steps := limit.steps + 1;
      }
      limit.state := state;
      return Some(Action(limit.id, state, price));
    }

    /** Counts one cancel and trips the breaker at the limit. */
    method NoteCancel(now: real)
      modifies this`cancels, this`tripped
      ensures cancels == old(cancels) + [now]
      ensures tripped == (old(tripped) || |cancels| >= config.cancelLimit)
    {
      cancels := cancels + [now];
      if |cancels| >= config.cancelLimit {
        tripped := true;
      }
    }

    /** Lists an action, and counts it if it is a cancel. */
    method NoteAction(taken: seq<Action>, action: Option<Action>, ghost before: seq<real>, now: real)
      returns (r: seq<Action>)
      requires cancels == before + CancelTimes(taken, now)
      requires tripped == (CancelTimes(taken, now) != [] && |cancels| >= config.cancelLimit)
      modifies this`cancels, this`tripped
      ensures r == if action.Some? then taken + [action.value] else taken
      ensures cancels == before + CancelTimes(r, now)
      ensures tripped == (CancelTimes(r, now) != [] && |cancels| >= config.cancelLimit)
    {
      hide CancelTimes;
      r := taken;
      if action.Some? {
        CancelTimesLast(taken, action.value, now);
        r := taken + [action.value];
        if action.value.state == Cancelled {
          NoteCancel(now);
        }
      }
    }

    /** The loop of a tick over the active limits. */
    method AdvanceAll(x: Input) returns (taken: seq<Action>)
      requires Valid() && x.atr >= 0.0 && !tripped
      modifies this`cancels, this`tripped, active
      ensures active == old(active) && ViewsOf(active) == TickedAll(old(ViewsOf(active)), x, config.policy)
      ensures taken == ActionsOfAll(old(ViewsOf(active)), x, config.policy)
      ensures cancels == old(cancels) + CancelTimes(taken, x.now)
      ensures tripped == (CancelTimes(taken, x.now) != [] && |cancels| >= config.cancelLimit)
    {
      hide Ticked, ActionsOf, CancelTimes, ActionsOfAll, DistinctIds;
      ghost var vs := ViewsOf(active);
      NoCancelTimes(x.now);
      NoActions(x, config.policy);
      taken := [];
      for i := 0 to |active|
        invariant active == old(active)
        invariant forall j :: 0 <= j < i ==> active[j].View() == Ticked(vs[j], x, config.policy)
        invariant forall j :: i <= j < |active| ==> active[j].View() == vs[j]
        invariant taken == ActionsOfAll(vs[..i], x, config.policy)
        invariant cancels == old(cancels) + CancelTimes(taken, x.now)
        invariant tripped == (CancelTimes(taken, x.now) != [] && |cancels| >= config.cancelLimit)
      {
        OthersDiffer(active, vs, i);
        ActionsOfPrefix(vs, i, x, config.policy);
        var action := Advance(active[i], x);
        taken := NoteAction(taken, action, old(cancels), x.now);
      }
      assert vs[..|active|] == vs;
    }

    method Tick(x: Input) returns (actions: Option<seq<Action>>)
      requires Valid()
      modifies this`cancels, this`tripped, active
      ensures Valid() && View() == AfterTick(old(View()), x, config)
      ensures actions == TickActions(old(View()), x, config)
    {
      hide Ticked, ActionsOf, Pruned, CancelTimes, ActionsOfAll;
      if tripped {
        return Some([]);
      }
      PruneCancels(x.now);
      assert ViewsOf(active) == old(ViewsOf(active));
      if x.atr < 0.0 {
        // The policy raises for the first limit, if there is one.
        return if active == [] then Some([]) else None;
      }
      TickKeepsIds(ViewsOf(active), x, config.policy);
      var taken := AdvanceAll(x);
      return Some(taken);
    }
  }

  lemma NoActions(x: Input, p: LadderPolicy)
    requires x.atr >= 0.0
    ensures ActionsOfAll([], x, p) == []
  {
  }

  lemma ActionsOfPrefix(vs: seq<Limit>, i: nat, x: Input, p: LadderPolicy)
    requires x.atr >= 0.0 && i < |vs|
    ensures ActionsOfAll(vs[..i + 1], x, p) == ActionsOfAll(vs[..i], x, p) + ActionsOf(vs[i], x, p)
  {
    hide ActionsOf;
    assert vs[..i + 1][..i] == vs[..i];
  }

  lemma NoCancelTimes(now: real)
    ensures CancelTimes([], now) == []
  {
  }

  lemma OthersDiffer(ls: seq<ActiveLimit>, vs: seq<Limit>, i: nat)
    requires i < |ls| == |vs| && DistinctIds(vs) && forall j :: 0 <= j < |ls| ==> ls[j].id == vs[j].id
    ensures forall j :: 0 <= j < |ls| && j != i ==> ls[j] != ls[i]
  {
    forall j | 0 <= j < |ls| && j != i ensures ls[j] != ls[i] {
      if j < i { assert vs[j].id != vs[i].id; } else { assert vs[i].id != vs[j].id; }
    }
  }

  lemma CancelTimesLast(actions: seq<Action>, a: Action, now: real)
    ensures CancelTimes(actions + [a], now) ==
            if a.state == Cancelled then CancelTimes(actions, now) + [now] else CancelTimes(actions, now)
  {
    assert (actions + [a])[..|actions|] == actions;
  }

  lemma TickKeepsIds(vs: seq<Limit>, x: Input, p: LadderPolicy)
    requires x.atr >= 0.0 && DistinctIds(vs)
    ensures DistinctIds(TickedAll(vs, x, p))
  {
  }
}
