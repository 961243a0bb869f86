/** The watchdog: recording failed checks, halting bots, cancelling their orders, and unhalting. */
module Watchdog {
  import opened Trades

  // ----- reason families -----

  predicate IsStop(c: char) {
    c == ':' || c == ',' || '0' <= c <= '9'
  }

  predicate IsSpace(c: char) {
    c == ' ' || '\t' <= c <= '\r' || '\U{1c}' <= c <= '\U{1f}'
  }

  function Lower(c: char): char {
    if 'A' <= c <= 'Z' then c - 'A' + 'a' else c
  }

  function Head(s: string): string {
    if s == "" || IsStop(s[0]) then "" else [s[0]] + Head(s[1..])
  }

  function StripLeft(s: string): string {
    if s != "" && IsSpace(s[0]) then StripLeft(s[1..]) else s
  }

  function StripRight(s: string): string {
    if s != "" && IsSpace(s[|s| - 1]) then StripRight(s[..|s| - 1]) else s
  }

  function Strip(s: string): string {
    StripRight(StripLeft(s))
  }

  function LowerAll(s: string): string {
    seq(|s|, i requires 0 <= i < |s| => Lower(s[i]))
  }

  /** The leading phrase before any number, colon or comma. */
  function Family(s: string): string {
    LowerAll(Strip(Head(s)))
  }

  predicate SameFamily(a: string, b: string) {
    Family(a) == Family(b) && Family(a) != ""
  }

  /** The scanning loop. */
  method ReasonFamily(s: string) returns (r: string)
    ensures r == Family(s)
  {
    var head := "";
    var i := 0;
    while i < |s|
      invariant 0 <= i <= |s|
      invariant head + Head(s[i..]) == Head(s)
    {
      if IsStop(s[i]) {
        break;
      }
      assert s[i..][1..] == s[i + 1..];
      head := head + [s[i]];
      i := i + 1;
    }
    assert i == |s| ==> s[i..] == "";
    assert Head(s[i..]) == "" && head + "" == head;
    r := LowerAll(Strip(head));
  }

  lemma {:induction false} HeadStops(p: string, rest: string)
    requires (forall i :: 0 <= i < |p| ==> !IsStop(p[i])) && (rest == "" || IsStop(rest[0]))
    ensures Head(p + rest) == p
  {
    if p == "" {
      assert p + rest == rest;
    } else {
      assert (p + rest)[1..] == p[1..] + rest;
      HeadStops(p[1..], rest);
    }
  }

  /** Reasons of one check that differ only from the first number, colon or comma on are one family. */
  lemma SamePhraseSameFamily(p: string, x: string, y: string)
    requires forall i :: 0 <= i < |p| ==> !IsStop(p[i])
    requires (x == "" || IsStop(x[0])) && (y == "" || IsStop(y[0]))
    ensures SameFamily(p + x, p + y) <==> Strip(p) != ""
  {
    HeadStops(p, x);
    HeadStops(p, y);
    assert |LowerAll(Strip(p))| == |Strip(p)|;
  }

  // ----- state -----

  const PREFIX: string := "watchdog: "
  const REPEAT_WINDOW: real := 60.0

  /** A missing reason is the empty string. */
  datatype Flag = Flag(halted: bool, reason: string, setAt: real)

  datatype Cancel = Cancel(bot: string, at: real)

  datatype Event =
    | HaltEvent(bot: string, message: string, skippedCancel: bool)
    | UnhaltEvent(bot: string, message: string)
    | CheckEvent(name: string, severity: string, message: string)

  datatype Note = HaltNote(bot: string, at: real) | CheckNote(name: string, severity: string, at: real)

  /** A halt between its two sessions: the flag was read, and written it is not yet. */
  datatype Pending = Pending(bot: string, reason: string, skip: bool)

  datatype World = World(
    flags: map<string, Flag>, cancels: seq<Cancel>, events: seq<Event>, notes: seq<Note>,
    lastAlert: map<(string, string), real>, inFlight: Option<Pending>)

  datatype Config = Config(dedupe: real, silenced: set<string>)

  datatype CheckResult = CheckResult(
    name: string, ok: bool, severity: string, message: string, bot: string, scope: seq<string>)

  function FlagOf(w: World, bot: string): Option<Flag> {
    if bot in w.flags then Some(w.flags[bot]) else None
  }

  predicate IsHalted(w: World, bot: string) {
    bot in w.flags && w.flags[bot].halted
  }

  // ----- halting -----

  /** No second cancel for the same watchdog family, nor for a halt older than a minute. */
  predicate SkipsCancel(f: Option<Flag>, reason: string, now: real) {
    f.Some? && f.value.halted &&
    (|| (PREFIX <= f.value.reason && SameFamily(f.value.reason[|PREFIX|..], reason))
     || now - f.value.setAt > REPEAT_WINDOW)
  }

  predicate OperatorText(reason: string) {
    Strip(reason) != "" && !(PREFIX <= reason)
  }

  function HaltedFlag(f: Option<Flag>, reason: string, now: real): Flag {
    match f
    case None => Flag(true, PREFIX + reason, now)
    case Some(g) =>
      Flag(true, if OperatorText(g.reason) then g.reason else PREFIX + reason, if g.halted then g.setAt else now)
  }

  /** The first session of a halt decides on the cancel, which is issued before the second one begins. */
  function AfterRead(w: World, bot: string, reason: string, now: real): World {
    var skip := SkipsCancel(FlagOf(w, bot), reason, now);
    w.(inFlight := Some(Pending(bot, reason, skip)),
       cancels := if skip then w.cancels else w.cancels + [Cancel(bot, now)])
  }

  /** The second session writes the flag, as it finds it by then. */
  function AfterCommit(w: World, now: real): World {
    match w.inFlight
    case None => w
    case Some(q) =>
      var was := IsHalted(w, q.bot);
      w.(inFlight := None,
         flags := w.flags[q.bot := HaltedFlag(FlagOf(w, q.bot), q.reason, now)],
         events := if was then w.events else w.events + [HaltEvent(q.bot, PREFIX + q.reason, q.skip)],
         notes := if was then w.notes else w.notes + [HaltNote(q.bot, now)])
  }

  function AfterUnhalt(w: World, bot: string, reason: string, now: real): World {
    if bot !in w.flags then w
    else w.(flags := w.flags[bot := Flag(false, reason, now)], events := w.events + [UnhaltEvent(bot, reason)])
  }

  /** An operator sets the flag by other means. */
  function AfterOperatorHalt(w: World, bot: string, reason: string, now: real): World {
    w.(flags := w.flags[bot := Flag(true, reason, now)])
  }

  predicate Alerts(w: World, k: (string, string), now: real, c: Config) {
    k !in w.lastAlert || now - w.lastAlert[k] >= c.dedupe
  }

  /** Every failure is stored; only a notification is throttled, and silenced checks never notify. */
  function AfterRecord(w: World, r: CheckResult, now: real, c: Config): World {
    var k := (r.name, r.severity);
    var w' := w.(events := w.events + [CheckEvent(r.name, r.severity, r.message)]);
    if !Alerts(w, k, now, c) then w'
    else w'.(lastAlert := w.lastAlert[k := now],
             notes := if r.name in c.silenced then w.notes else w.notes + [CheckNote(r.name, r.severity, now)])
  }

  /**
   * Whatever other processes do may come between the two steps of a halt. A halt whose cancel call
   * raises is never committed; the next read takes its place.
   */
  datatype Op =
    | HaltRead(bot: string, reason: string, at: real)
    | HaltCommit(at: real)
    | Unhalt(bot: string, reason: string, at: real)
    | OperatorHalt(bot: string, reason: string, at: real)
    | Record(r: CheckResult, at: real)

  function Next(w: World, op: Op, c: Config): World {
    match op
    case HaltRead(bot, reason, at) => AfterRead(w, bot, reason, at)
    case HaltCommit(at) => AfterCommit(w, at)
    case Unhalt(bot, reason, at) => AfterUnhalt(w, bot, reason, at)
    case OperatorHalt(bot, reason, at) => AfterOperatorHalt(w, bot, reason, at)
    case Record(r, at) => AfterRecord(w, r, at, c)
  }

  function RunFrom(w: World, ops: seq<Op>, c: Config): World {
    if ops == [] then w else Next(RunFrom(w, ops[..|ops| - 1], c), ops[|ops| - 1], c)
  }

  const EMPTY: World := World(map[], [], [], [], map[], None)

  // ----- dispatch of one round of checks -----

  /** A named bot, else the scope, else all active trading bots. */
  function Targets(r: CheckResult, active: seq<string>): seq<string> {
    if r.bot != "" then [r.bot] else if r.scope != [] then r.scope else active
  }

  function HaltOf(bot: string, reason: string, now: real): seq<Op> {
    [HaltRead(bot, reason, now), HaltCommit(now)]
  }

  function HaltsFor(bots: seq<string>, reason: string, now: real): seq<Op> {
    if bots == [] then []
    else HaltsFor(bots[..|bots| - 1], reason, now) + HaltOf(bots[|bots| - 1], reason, now)
  }

  function Dispatch(checks: seq<CheckResult>, active: seq<string>, now: real): seq<Op> {
    if checks == [] then []
    else
      var r := checks[|checks| - 1];
      Dispatch(checks[..|checks| - 1], active, now) +
      (if r.ok then []
       else [Record(r, now)] + if r.severity == "kill" then HaltsFor(Targets(r, active), r.message, now) else [])
  }

  lemma {:induction false} RunFromConcat(w: World, a: seq<Op>, b: seq<Op>, c: Config)
    ensures RunFrom(w, a + b, c) == RunFrom(RunFrom(w, a, c), b, c)
  {
    hide Next;
    if b == [] {
      assert a + b == a;
    } else {
      assert (a + b)[..|a + b| - 1] == a + b[..|b| - 1];
      RunFromConcat(w, a, b[..|b| - 1], c);
    }
  }

  lemma RunFromLast(w: World, ops: seq<Op>, op: Op, c: Config)
    ensures RunFrom(w, ops + [op], c) == Next(RunFrom(w, ops, c), op, c)
  {
    hide Next;
    assert (ops + [op])[..|ops|] == ops;
  }

  lemma RunFromOne(w: World, op: Op, c: Config)
    ensures RunFrom(w, [op], c) == Next(w, op, c)
  {
    assert [op][..0] == [];
  }

  class Watchdog {
    const config: Config
    var flags: map<string, Flag>
    var cancels: seq<Cancel>
    var events: seq<Event>
    var notes: seq<Note>
    var lastAlert: map<(string, string), real>
    var inFlight: Option<Pending>

    function View(): World
      reads this
    {
      World(flags, cancels, events, notes, lastAlert, inFlight)
    }

    constructor (config: Config)
      ensures View() == EMPTY && this.config == config
    {
      this.config := config;
      flags, cancels, events, notes, lastAlert, inFlight := map[], [], [], [], map[], None;
    }

    /** Reads the flag and cancels the bot's orders unless that can be skipped. */
    method ReadForHalt(bot: string, reason: string, now: real)
      modifies this`cancels, this`inFlight
      ensures View() == AfterRead(old(View()), bot, reason, now)
    {
      hide SameFamily, Strip;
      var skip := false;
      if bot in flags && flags[bot].halted {
        var existing := flags[bot];
        if PREFIX <= existing.reason && SameFamily(existing.reason[|PREFIX|..], reason) {
          skip := true;
        } else if now - existing.setAt > REPEAT_WINDOW {
          skip := true;
        }
      }
      if !skip {
        cancels := cancels + [Cancel(bot, now)];
      }
      inFlight := Some(Pending(bot, reason, skip));
    }

    /** Writes the flag; event and note only if the bot was not halted by then. */
    method CommitHalt(now: real)
      modifies this`flags, this`events, this`notes, this`inFlight
      ensures View() == AfterCommit(old(View()), now)
    {
      hide SameFamily, Strip;
      if inFlight.None? {
        return;
      }
      var bot, skip := inFlight.value.bot, inFlight.value.skip;
      var prefixed := PREFIX + inFlight.value.reason;
      var wasHalted := bot in flags && flags[bot].halted;
      if bot !in flags {
        flags := flags[bot := Flag(true, prefixed, now)];
      } else {
        var f := flags[bot].(halted := true);
        if Strip(f.reason) == "" || PREFIX <= f.reason {
          f := f.(reason := prefixed);
        }
        if !wasHalted {
          f := f.(setAt := now);
        }
        flags := flags[bot := f];
      }
      if !wasHalted {
        events := events + [HaltEvent(bot, prefixed, skip)];
        notes := notes + [HaltNote(bot, now)];
      }
      inFlight := None;
    }

    /** A halt that nothing interrupts. */
    method HaltBot(bot: string, reason: string, now: real)
      modifies this
      ensures View() == RunFrom(old(View()), HaltOf(bot, reason, now), config)
    {
      hide AfterRead, AfterCommit;
      ghost var start := View();
      ReadForHalt(bot, reason, now);
      CommitHalt(now);
      var ops := HaltOf(bot, reason, now);
      assert ops[..1] == [HaltRead(bot, reason, now)];
      RunFromOne(start, HaltRead(bot, reason, now), config);
    }

    method RecordCheck(r: CheckResult, now: real)
      modifies this
      ensures View() == AfterRecord(old(View()), r, now, config)
    {
      events := events + [CheckEvent(r.name, r.severity, r.message)];
      var k := (r.name, r.severity);
      if k !in lastAlert || now - lastAlert[k] >= config.dedupe {
        if r.name !in config.silenced {
          notes := notes + [CheckNote(r.name, r.severity, now)];
        }
        lastAlert := lastAlert[k := now];
      }
    }

    method UnhaltBot(bot: string, reason: string, now: real) returns (found: bool)
      modifies this
      ensures View() == AfterUnhalt(old(View()), bot, reason, now) && found == (bot in old(flags))
    {
      if bot !in flags {
        return false;
      }
      flags := flags[bot := Flag(false, reason, now)];
      events := events + [UnhaltEvent(bot, reason)];
      return true;
    }

    /** The side effects of one round; the results of the checks are inputs. */
    method RunOnce(checks: seq<CheckResult>, active: seq<string>, now: real)
      modifies this
      ensures View() == RunFrom(old(View()), Dispatch(checks, active, now), config)
    {
      hide Next, Targets, HaltsFor;
      ghost var start := View();
      for i := 0 to |checks|
        invariant View() == RunFrom(start, Dispatch(checks[..i], active, now), config)
      {
        var r := checks[i];
        assert checks[..i + 1][..i] == checks[..i];
        ghost var done := Dispatch(checks[..i], active, now);
        if r.ok {
          assert done + [] == done;
          continue;
        }
        ghost var before := View();
        RecordCheck(r, now);
        RecordIs(before, r, now, config);
        RunFromOne(before, Record(r, now), config);
        RunFromConcat(start, done, [Record(r, now)], config);
        if r.severity == "kill" {
          HaltAll(Targets(r, active), r.message, now);
          RunFromConcat(start, done + [Record(r, now)], HaltsFor(Targets(r, active), r.message, now), config);
          assert done + [Record(r, now)] + HaltsFor(Targets(r, active), r.message, now) ==
                 done + ([Record(r, now)] + HaltsFor(Targets(r, active), r.message, now));
        } else {
          assert done + ([Record(r, now)] + []) == done + [Record(r, now)];
        }
      }
      assert checks[..|checks|] == checks;
    }

    method HaltAll(bots: seq<string>, reason: string, now: real)
      modifies this
      ensures View() == RunFrom(old(View()), HaltsFor(bots, reason, now), config)
    {
      hide Next, HaltOf;
      ghost var start := View();
      for i := 0 to |bots|
        invariant View() == RunFrom(start, HaltsFor(bots[..i], reason, now), config)
      {
        assert bots[..i + 1][..i] == bots[..i];
        RunFromConcat(start, HaltsFor(bots[..i], reason, now), HaltOf(bots[i], reason, now), config);
        HaltBot(bots[i], reason, now);
      }
      assert bots[..|bots|] == bots;
    }
  }

  lemma RecordIs(w: World, r: CheckResult, now: real, c: Config)
    ensures Next(w, Record(r, now), c) == AfterRecord(w, r, now, c)
  {
  }

  // ----- halts and cancels over whole runs -----

  function HaltEvents(es: seq<Event>, bot: string): nat {
    if es == [] then 0
    else HaltEvents(es[..|es| - 1], bot) + if es[|es| - 1].HaltEvent? && es[|es| - 1].bot == bot then 1 else 0
  }

  function CancelsOf(cs: seq<Cancel>, bot: string): nat {
    if cs == [] then 0 else CancelsOf(cs[..|cs| - 1], bot) + if cs[|cs| - 1].bot == bot then 1 else 0
  }

  /** Whether the op commits a halt of the bot, decided by q. */
  predicate Commits(w: World, op: Op, bot: string) {
    op.HaltCommit? && InFlightFor(w, bot)
  }

  predicate InFlightFor(w: World, bot: string) {
    w.inFlight.Some? && w.inFlight.value.bot == bot
  }

  /** A halt of the bot in flight for which a cancel was issued. */
  function CancelInFlight(w: World, bot: string): nat {
    if InFlightFor(w, bot) && !w.inFlight.value.skip then 1 else 0
  }

  /** The commits of a run that find the bot not halted. */
  function Transitions(ops: seq<Op>, bot: string, c: Config): nat {
    if ops == [] then 0
    else
      var op, w := ops[|ops| - 1], RunFrom(EMPTY, ops[..|ops| - 1], c);
      Transitions(ops[..|ops| - 1], bot, c) + if Commits(w, op, bot) && !IsHalted(w, bot) then 1 else 0
  }

  /** Those of them whose read had decided to skip the cancel. */
  function SilentTransitions(ops: seq<Op>, bot: string, c: Config): nat {
    if ops == [] then 0
    else
      var op, w := ops[|ops| - 1], RunFrom(EMPTY, ops[..|ops| - 1], c);
      SilentTransitions(ops[..|ops| - 1], bot, c) +
      if Commits(w, op, bot) && !IsHalted(w, bot) && w.inFlight.value.skip then 1 else 0
  }

  /** The commits that find the bot halted although a cancel was issued. */
  function Repeats(ops: seq<Op>, bot: string, c: Config): nat {
    if ops == [] then 0
    else
      var op, w := ops[|ops| - 1], RunFrom(EMPTY, ops[..|ops| - 1], c);
      Repeats(ops[..|ops| - 1], bot, c) +
      if Commits(w, op, bot) && IsHalted(w, bot) && !w.inFlight.value.skip then 1 else 0
  }

  /** The halts with a cancel that another read replaced before they were committed. */
  function Unfinished(ops: seq<Op>, bot: string, c: Config): nat {
    if ops == [] then 0
    else
      var op, w := ops[|ops| - 1], RunFrom(EMPTY, ops[..|ops| - 1], c);
      Unfinished(ops[..|ops| - 1], bot, c) + if op.HaltRead? then CancelInFlight(w, bot) else 0
  }

  lemma EventLast(es: seq<Event>, e: Event, bot: string)
    ensures HaltEvents(es + [e], bot) == HaltEvents(es, bot) + if e.HaltEvent? && e.bot == bot then 1 else 0
  {
    assert (es + [e])[..|es|] == es;
  }

  lemma CancelLast(cs: seq<Cancel>, x: Cancel, bot: string)
    ensures CancelsOf(cs + [x], bot) == CancelsOf(cs, bot) + if x.bot == bot then 1 else 0
  {
    assert (cs + [x])[..|cs|] == cs;
  }

  /**
   * Over every run, whatever comes between the sessions of a halt: a bot has exactly one halt event
   * per unhalted-to-halted transition, and one cancel per transition that is not silent, per repeat
   * and per halt that was not committed.
   */
  lemma {:induction false} HaltsAndCancelsCounted(ops: seq<Op>, bot: string, c: Config)
    ensures var w := RunFrom(EMPTY, ops, c);
      && HaltEvents(w.events, bot) == Transitions(ops, bot, c)
      && CancelsOf(w.cancels, bot) ==
         Transitions(ops, bot, c) - SilentTransitions(ops, bot, c) + Repeats(ops, bot, c)
         + Unfinished(ops, bot, c) + CancelInFlight(w, bot)
  {
    hide SameFamily, HaltedFlag, HaltEvents, CancelsOf, SkipsCancel;
    if ops == [] {
      NothingCounted(bot);
    } else {
      HaltsAndCancelsCounted(ops[..|ops| - 1], bot, c);
      var w, op := RunFrom(EMPTY, ops[..|ops| - 1], c), ops[|ops| - 1];
      match op {
        case HaltRead(b, reason, at) => CancelLast(w.cancels, Cancel(b, at), bot);
        case HaltCommit(_) =>
          if w.inFlight.Some? {
            var q := w.inFlight.value;
            EventLast(w.events, HaltEvent(q.bot, PREFIX + q.reason, q.skip), bot);
          }
        case Unhalt(b, reason, _) => EventLast(w.events, UnhaltEvent(b, reason), bot);
        case Record(r, _) => EventLast(w.events, CheckEvent(r.name, r.severity, r.message), bot);
        case OperatorHalt(_, _, _) =>
      }
    }
  }

  lemma NothingCounted(bot: string)
    ensures HaltEvents([], bot) == 0 && CancelsOf([], bot) == 0
  {
  }

  /** The steps neither unhalt the bot nor set its flag by other means. */
  ghost predicate LeavesHalted(ops: seq<Op>, bot: string) {
    forall i :: 0 <= i < |ops| ==>
      !(ops[i].Unhalt? && ops[i].bot == bot) && !(ops[i].OperatorHalt? && ops[i].bot == bot)
  }

  /**
   * During a continuous halt: the bot stays halted since the same moment, operator text stays, there
   * is no further halt event, and no cancel is issued more than a minute after that moment.
   */
  lemma {:induction false} ContinuousHalt(w: World, ops: seq<Op>, bot: string, c: Config)
    requires IsHalted(w, bot) && LeavesHalted(ops, bot)
    ensures var v := RunFrom(w, ops, c);
      && IsHalted(v, bot) && v.flags[bot].setAt == w.flags[bot].setAt
      && (OperatorText(w.flags[bot].reason) ==> v.flags[bot].reason == w.flags[bot].reason)
      && HaltEvents(v.events, bot) == HaltEvents(w.events, bot)
      && w.cancels <= v.cancels
      && forall i :: |w.cancels| <= i < |v.cancels| && v.cancels[i].bot == bot ==>
           v.cancels[i].at <= w.flags[bot].setAt + REPEAT_WINDOW
  {
    hide SameFamily, HaltEvents, OperatorText;
    if ops != [] {
      ContinuousHalt(w, ops[..|ops| - 1], bot, c);
      var v, op := RunFrom(w, ops[..|ops| - 1], c), ops[|ops| - 1];
      match op {
        case HaltRead(_, _, _) =>
        case HaltCommit(_) =>
          if v.inFlight.Some? {
            var q := v.inFlight.value;
            EventLast(v.events, HaltEvent(q.bot, PREFIX + q.reason, q.skip), bot);
          }
        case Unhalt(b, reason, _) => EventLast(v.events, UnhaltEvent(b, reason), bot);
        case Record(r, _) => EventLast(v.events, CheckEvent(r.name, r.severity, r.message), bot);
        case OperatorHalt(_, _, _) =>
      }
    }
  }

  /** No halt overwrites operator text, whether the bot is halted or not. */
  lemma {:induction false} OperatorTextKept(w: World, ops: seq<Op>, bot: string, c: Config)
    requires bot in w.flags && OperatorText(w.flags[bot].reason) && LeavesHalted(ops, bot)
    ensures var v := RunFrom(w, ops, c);
      bot in v.flags && v.flags[bot].reason == w.flags[bot].reason
  {
    hide SameFamily, OperatorText;
    if ops != [] { OperatorTextKept(w, ops[..|ops| - 1], bot, c); }
  }

  // ----- transitions without a cancel -----

  predicate Unhalts(op: Op, bot: string) {
    op.Unhalt? && op.bot == bot
  }

  /** The steps contain none of a halt. */
  ghost predicate NoHaltSteps(ops: seq<Op>) {
    forall i :: 0 <= i < |ops| ==> !ops[i].HaltRead? && !ops[i].HaltCommit?
  }

  /** What may come between the sessions of a halt: no cancel, and no unhalted bot without an Unhalt. */
  lemma {:induction false} Between(w: World, ops: seq<Op>, bot: string, c: Config)
    requires NoHaltSteps(ops)
    ensures var v := RunFrom(w, ops, c);
      && v.inFlight == w.inFlight && v.cancels == w.cancels
      && (IsHalted(w, bot) && !IsHalted(v, bot) ==> exists i :: 0 <= i < |ops| && Unhalts(ops[i], bot))
  {
    if ops != [] {
      var n := |ops| - 1;
      Between(w, ops[..n], bot, c);
      if IsHalted(w, bot) && !IsHalted(RunFrom(w, ops, c), bot) {
        if IsHalted(RunFrom(w, ops[..n], c), bot) {
          assert Unhalts(ops[n], bot);
        } else {
          var i :| 0 <= i < n && Unhalts(ops[..n][i], bot);
          assert Unhalts(ops[i], bot);
        }
      }
    }
  }

  /**
   * After any run, a halt with anything between its sessions, whose commit finds the bot not halted:
   * it goes without a cancel exactly if its read saw a halted flag that lets it skip the cancel, and
   * the bot was unhalted in between. Otherwise it has exactly one.
   */
  lemma SilentExactly(
      before: seq<Op>, bot: string, reason: string, at: real, between: seq<Op>, later: real, c: Config)
    requires NoHaltSteps(between)
    requires !IsHalted(RunFrom(EMPTY, before + [HaltRead(bot, reason, at)] + between, c), bot)
    ensures
      var ops := before + [HaltRead(bot, reason, at)] + between + [HaltCommit(later)];
      var seen, v := RunFrom(EMPTY, before, c), RunFrom(EMPTY, ops, c);
      var silent := SkipsCancel(FlagOf(seen, bot), reason, at)
                    && exists i :: 0 <= i < |between| && Unhalts(between[i], bot);
      && IsHalted(v, bot)
      && Transitions(ops, bot, c) == Transitions(before + [HaltRead(bot, reason, at)] + between, bot, c) + 1
      && CancelsOf(v.cancels, bot) == CancelsOf(seen.cancels, bot) + if silent then 0 else 1
  {
    hide SkipsCancel, CancelsOf, HaltedFlag, Transitions, RunFrom, Unhalts;
    var read := HaltRead(bot, reason, at);
    var seen, mid := RunFrom(EMPTY, before, c), before + [read] + between;
    RunFromLast(EMPTY, before, read, c);
    var w := RunFrom(EMPTY, before + [read], c);
    assert w == AfterRead(seen, bot, reason, at);
    RunFromConcat(EMPTY, before + [read], between, c);
    Between(w, between, bot, c);
    var u := RunFrom(EMPTY, mid, c);
    RunFromLast(EMPTY, mid, HaltCommit(later), c);
    CancelLast(seen.cancels, Cancel(bot, at), bot);
    TransitionLast(mid, later, bot, c);
    CommitHalts(u, later);
    if SkipsCancel(FlagOf(seen, bot), reason, at) { SkipsOnlyHalted(seen, bot, reason, at); }
  }

  lemma CommitHalts(w: World, now: real)
    requires w.inFlight.Some?
    ensures IsHalted(AfterCommit(w, now), w.inFlight.value.bot) && AfterCommit(w, now).cancels == w.cancels
  {
    hide OperatorText;
  }

  lemma TransitionLast(ops: seq<Op>, later: real, bot: string, c: Config)
    ensures var w := RunFrom(EMPTY, ops, c);
      Transitions(ops + [HaltCommit(later)], bot, c) ==
      Transitions(ops, bot, c) + if InFlightFor(w, bot) && !IsHalted(w, bot) then 1 else 0
  {
    hide RunFrom;
    assert (ops + [HaltCommit(later)])[..|ops|] == ops;
  }

  lemma SkipsOnlyHalted(w: World, bot: string, reason: string, now: real)
    requires SkipsCancel(FlagOf(w, bot), reason, now)
    ensures IsHalted(w, bot)
  {
    hide SameFamily;
  }

  /** No unhalt of the bot falls between the sessions of a halt of it. */
  ghost predicate NoUnhaltInFlight(ops: seq<Op>, bot: string, c: Config) {
    forall n :: 0 <= n < |ops| && Unhalts(ops[n], bot) ==> !InFlightFor(RunFrom(EMPTY, ops[..n], c), bot)
  }

  lemma NoUnhaltBefore(ops: seq<Op>, bot: string, c: Config)
    requires NoUnhaltInFlight(ops, bot, c) && ops != []
    ensures NoUnhaltInFlight(ops[..|ops| - 1], bot, c)
    ensures Unhalts(ops[|ops| - 1], bot) ==> !InFlightFor(RunFrom(EMPTY, ops[..|ops| - 1], c), bot)
  {
    hide RunFrom, Unhalts, InFlightFor;
    var us := ops[..|ops| - 1];
    forall m | 0 <= m < |us| && Unhalts(us[m], bot) ensures !InFlightFor(RunFrom(EMPTY, us[..m], c), bot) {
      assert us[..m] == ops[..m];
    }
  }

  lemma NothingInFlight(bot: string)
    ensures !InFlightFor(EMPTY, bot)
  {
  }

  /** A halt in flight that skips its cancel finds the bot still halted, if it is not unhalted meanwhile. */
  lemma NotSilent(w: World, op: Op, bot: string, c: Config)
    requires InFlightFor(w, bot) && w.inFlight.value.skip ==> IsHalted(w, bot)
    requires Unhalts(op, bot) ==> !InFlightFor(w, bot)
    ensures !(Commits(w, op, bot) && !IsHalted(w, bot) && w.inFlight.value.skip)
    ensures var v := Next(w, op, c); InFlightFor(v, bot) && v.inFlight.value.skip ==> IsHalted(v, bot)
  {
    hide SameFamily, HaltedFlag;
  }

  /** So in runs without that no transition is silent. */
  lemma {:induction false} NoSilentTransition(ops: seq<Op>, bot: string, c: Config)
    requires NoUnhaltInFlight(ops, bot, c)
    ensures SilentTransitions(ops, bot, c) == 0
    ensures var w := RunFrom(EMPTY, ops, c);
      InFlightFor(w, bot) && w.inFlight.value.skip ==> IsHalted(w, bot)
  {
    hide RunFrom, SilentTransitions, NoUnhaltInFlight, Next, IsHalted, InFlightFor, Unhalts, Commits;
    if ops == [] {
      NoOps(bot, c);
      NothingInFlight(bot);
    } else {
      var us, op := ops[..|ops| - 1], ops[|ops| - 1];
      assert ops == us + [op];
      NoUnhaltBefore(ops, bot, c);
      NoSilentTransition(us, bot, c);
      SilentLast(us, op, bot, c);
      NotSilent(RunFrom(EMPTY, us, c), op, bot, c);
    }
  }

  /** After an operator halt of more than a minute a read skips the cancel. */
  lemma SkippedRead(bot: string, c: Config)
    ensures var w := Next(Next(EMPTY, OperatorHalt(bot, "maintenance", 0.0), c), HaltRead(bot, "drawdown", 61.0), c);
      && w.inFlight == Some(Pending(bot, "drawdown", true)) && w.cancels == [] && bot in w.flags
  {
    hide SameFamily;
  }

  lemma UnhaltedInFlight(bot: string, c: Config)
    ensures forall w: World ::
      w.inFlight == Some(Pending(bot, "drawdown", true)) && w.cancels == [] && bot in w.flags ==>
      var v := Next(w, Unhalt(bot, "done", 61.0), c);
      && v.inFlight == w.inFlight && !IsHalted(v, bot) && v.cancels == []
      && Next(v, HaltCommit(62.0), c) == AfterCommit(v, 62.0)
  {
    hide HaltedFlag;
  }

  /** An operator halt of more than a minute, lifted while the watchdog halts: halted again, and no order cancelled. */
  lemma SilentTransitionExists(bot: string, c: Config)
    ensures var ops := [OperatorHalt(bot, "maintenance", 0.0), HaltRead(bot, "drawdown", 61.0),
                        Unhalt(bot, "done", 61.0), HaltCommit(62.0)];
      var w := RunFrom(EMPTY, ops, c);
      IsHalted(w, bot) && SilentTransitions(ops, bot, c) == 1 && CancelsOf(w.cancels, bot) == 0
  {
    hide RunFrom, SilentTransitions, Next, CancelsOf, OperatorText;
    var a, r := OperatorHalt(bot, "maintenance", 0.0), HaltRead(bot, "drawdown", 61.0);
    var u, k := Unhalt(bot, "done", 61.0), HaltCommit(62.0);
    NoOps(bot, c);
    SilentLast([], a, bot, c);
    SilentLast([a], r, bot, c);
    SilentLast([a, r], u, bot, c);
    SilentLast([a, r, u], k, bot, c);
    assert [] + [a] == [a] && [a] + [r] == [a, r] && [a, r] + [u] == [a, r, u] && [a, r, u] + [k] == [a, r, u, k];
    SkippedRead(bot, c);
    UnhaltedInFlight(bot, c);
    var w := RunFrom(EMPTY, [a, r, u], c);
    CommitHalts(w, 62.0);
  }

  lemma NoOps(bot: string, c: Config)
    ensures RunFrom(EMPTY, [], c) == EMPTY && SilentTransitions([], bot, c) == 0 && CancelsOf([], bot) == 0
  {
  }

  lemma SilentLast(ops: seq<Op>, op: Op, bot: string, c: Config)
    ensures var w := RunFrom(EMPTY, ops, c);
      && RunFrom(EMPTY, ops + [op], c) == Next(w, op, c)
      && SilentTransitions(ops + [op], bot, c) ==
         SilentTransitions(ops, bot, c) +
         if Commits(w, op, bot) && !IsHalted(w, bot) && w.inFlight.value.skip then 1 else 0
  {
    hide Next;
    assert (ops + [op])[..|ops|] == ops;
  }

  // ----- throttled alerts -----

  ghost predicate AlertInvariant(w: World, c: Config) {
    && (forall i :: 0 <= i < |w.notes| && w.notes[i].CheckNote? ==>
          var k := (w.notes[i].name, w.notes[i].severity);
          k in w.lastAlert && w.notes[i].at <= w.lastAlert[k] && w.notes[i].name !in c.silenced)
    && (forall i, j :: 0 <= i < j < |w.notes| && w.notes[i].CheckNote? && w.notes[j].CheckNote?
                       && w.notes[i].name == w.notes[j].name && w.notes[i].severity == w.notes[j].severity
                       ==> w.notes[j].at - w.notes[i].at >= c.dedupe)
  }

  /** Over every run, alerts for one (check, severity) are at least the dedupe interval apart. */
  lemma {:induction false} AlertsAreApart(ops: seq<Op>, c: Config)
    requires c.dedupe >= 0.0
    ensures AlertInvariant(RunFrom(EMPTY, ops, c), c)
  {
    hide AlertInvariant, Next;
    if ops == [] {
      NoAlertsYet(c);
    } else {
      AlertsAreApart(ops[..|ops| - 1], c);
      AlertStep(RunFrom(EMPTY, ops[..|ops| - 1], c), ops[|ops| - 1], c);
    }
  }

  lemma NoAlertsYet(c: Config)
    ensures AlertInvariant(EMPTY, c)
  {
  }

  lemma AlertStep(w: World, op: Op, c: Config)
    requires AlertInvariant(w, c) && c.dedupe >= 0.0
    ensures AlertInvariant(Next(w, op, c), c)
  {
    hide HaltedFlag, SkipsCancel;
    match op {
      case Record(r, at) => RecordKeepsAlerts(w, r, at, c);
      case HaltCommit(at) =>
        if w.inFlight.Some? { HaltNoteKeepsAlerts(w, AfterCommit(w, at), HaltNote(w.inFlight.value.bot, at), c); }
      case _ =>
    }
  }

  lemma HaltNoteKeepsAlerts(w: World, v: World, n: Note, c: Config)
    requires AlertInvariant(w, c) && n.HaltNote? && v.lastAlert == w.lastAlert
    requires v.notes == w.notes || v.notes == w.notes + [n]
    ensures AlertInvariant(v, c)
  {
  }

  lemma RecordKeepsAlerts(w: World, r: CheckResult, now: real, c: Config)
    requires AlertInvariant(w, c) && c.dedupe >= 0.0
    ensures AlertInvariant(AfterRecord(w, r, now, c), c)
  {
  }
}
