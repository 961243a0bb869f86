/** The watchdog's texts, thresholds and targets, told letter by letter and over whole runs. */
module WatchdogLaws {
  import opened Trades
  import opened Sorting
  import opened Watchdog

  // ----- families of reasons -----

  predicate Blank(s: string) {
    forall i :: 0 <= i < |s| ==> s[i] in " \t\n\r\U{0b}\U{0c}\U{1c}\U{1d}\U{1e}\U{1f}"
  }

  /** Neither end is blank. */
  predicate Trimmed(s: string) {
    s == "" || (!Blank(s[..1]) && !Blank(s[|s| - 1..]))
  }

  /** The text before the first colon, comma or digit of a longer text. */
  predicate Phrase(p: string) {
    forall i :: 0 <= i < |p| ==> p[i] !in ":,0123456789"
  }

  predicate Lowered(p: string, q: string) {
    |q| == |p| && forall i :: 0 <= i < |p| ==> LoweredChar(p[i], q[i])
  }

  predicate LoweredChar(c: char, d: char) {
    (exists k :: 0 <= k < 26 && c == UPPER[k] && d == LOWER[k]) || (c !in UPPER && d == c)
  }

  const UPPER: string := "ABCDEFGHIJKLMNOPQRSTUVWXYZ"
  const LOWER: string := "abcdefghijklmnopqrstuvwxyz"

  lemma BlankIs(c: char)
    ensures IsSpace(c) <==> c in " \t\n\r\U{0b}\U{0c}\U{1c}\U{1d}\U{1e}\U{1f}"
  {
  }

  lemma StopIs(c: char)
    ensures IsStop(c) <==> c in ":,0123456789"
  {
  }

  lemma LetterAt(k: nat)
    requires k < 26
    ensures |UPPER| == |LOWER| == 26 && UPPER[k] == 'A' + k as char && LOWER[k] == 'a' + k as char
  {
  }

  lemma LowerIs(c: char)
    ensures LoweredChar(c, Lower(c))
  {
    if 'A' <= c <= 'Z' {
      var k := (c - 'A') as int;
      LetterAt(k);
      assert c == UPPER[k] && Lower(c) == LOWER[k];
    } else {
      forall k | 0 <= k < 26 ensures UPPER[k] != c { LetterAt(k); }
      assert c !in UPPER;
    }
  }

  lemma {:induction false} StripLeftIs(a: string, p: string)
    requires Blank(a) && (p == "" || !IsSpace(p[0]))
    ensures StripLeft(a + p) == p
  {
    if a == "" {
      assert a + p == p;
    } else {
      BlankIs(a[0]);
      assert (a + p)[1..] == a[1..] + p;
      StripLeftIs(a[1..], p);
    }
  }

  lemma {:induction false} StripRightIs(p: string, b: string)
    requires Blank(b) && (p == "" || !IsSpace(p[|p| - 1]))
    ensures StripRight(p + b) == p
  {
    if b == "" {
      assert p + b == p;
    } else {
      BlankIs(b[|b| - 1]);
      assert (p + b)[..|p + b| - 1] == p + b[..|b| - 1];
      StripRightIs(p, b[..|b| - 1]);
    }
  }

  lemma StripIs(a: string, p: string, b: string)
    requires Blank(a) && Blank(b) && Trimmed(p)
    ensures Strip(a + p + b) == p
  {
    if p == "" {
      assert a + p + b == (a + b) + "";
      StripLeftIs(a + b, "");
      assert StripRight("") == "";
    } else {
      BlankIs(p[0]);
      BlankIs(p[|p| - 1]);
      assert p[..1] == [p[0]] && p[|p| - 1..] == [p[|p| - 1]];
      assert a + p + b == a + (p + b);
      StripLeftIs(a, p + b);
      StripRightIs(p, b);
    }
  }

  /** A reason's family is its leading phrase, trimmed and in lower case, whatever follows. */
  lemma FamilyIs(a: string, p: string, b: string, rest: string)
    requires Blank(a) && Blank(b) && Trimmed(p) && Phrase(p)
    requires rest == "" || rest[0] in ":,0123456789"
    ensures Lowered(p, Family(a + p + b + rest))
  {
    var head := a + p + b;
    forall i | 0 <= i < |head| ensures !IsStop(head[i]) {
      StopIs(head[i]);
      if i < |a| { assert head[i] == a[i]; }
      else if i < |a| + |p| { assert head[i] == p[i - |a|]; }
      else { assert head[i] == b[i - |a| - |p|]; }
    }
    if rest != "" { StopIs(rest[0]); }
    HeadStops(head, rest);
    StripIs(a, p, b);
    forall i | 0 <= i < |p| ensures LoweredChar(p[i], LowerAll(p)[i]) { LowerIs(p[i]); }
  }

  // ----- one halt -----

  /** Halted for this cause by the watchdog, or halted for more than a minute. */
  ghost predicate QuietFor(w: World, bot: string, reason: string, now: real) {
    && bot in w.flags && w.flags[bot].halted
    && (|| now - w.flags[bot].setAt > 60.0
        || exists cause: string :: w.flags[bot].reason == "watchdog: " + cause
                                   && Family(cause) == Family(reason) && Family(cause) != "")
  }

  lemma AfterPrefix(s: string, word: string)
    ensures word <= s <==> exists x: string :: s == word + x
    ensures word <= s ==> forall x: string :: s == word + x ==> x == s[|word|..]
  {
    if word <= s { assert s == word + s[|word|..]; }
  }

  /** A halt cancels the bot's orders unless it is quiet for that cause. */
  lemma CancelsUnlessQuiet(w: World, bot: string, reason: string, now: real)
    ensures AfterRead(w, bot, reason, now).cancels ==
            if QuietFor(w, bot, reason, now) then w.cancels else w.cancels + [Cancel(bot, now)]
  {
    hide Family;
    if bot in w.flags { AfterPrefix(w.flags[bot].reason, "watchdog: "); }
  }

  /** What an operator wrote. */
  predicate Written(reason: string) {
    !Blank(reason) && !("watchdog: " <= reason)
  }

  lemma {:induction false} StripBlank(s: string)
    ensures Strip(s) == "" <==> Blank(s)
  {
    if Blank(s) {
      StripIs(s, "", "");
      assert s + "" + "" == s;
    } else {
      var i :| 0 <= i < |s| && s[i] !in " \t\n\r\U{0b}\U{0c}\U{1c}\U{1d}\U{1e}\U{1f}";
      BlankIs(s[i]);
      LeftKeeps(s, i);
    }
  }

  lemma {:induction false} LeftKeeps(s: string, i: nat)
    requires i < |s| && !IsSpace(s[i])
    ensures Strip(s) != ""
  {
    if i > 0 && IsSpace(s[0]) {
      assert StripLeft(s) == StripLeft(s[1..]);
      LeftKeeps(s[1..], i - 1);
    } else {
      RightKeeps(s, i);
    }
  }

  lemma {:induction false} RightKeeps(s: string, i: nat)
    requires i < |s| && !IsSpace(s[i])
    ensures StripRight(s) != ""
  {
    if IsSpace(s[|s| - 1]) { RightKeeps(s[..|s| - 1], i); }
  }

  /** What the commit of a halt leaves: halted, with the operator's text or the watchdog's. */
  lemma HaltLeaves(w: World, now: real)
    requires w.inFlight.Some?
    ensures var q, v := w.inFlight.value, AfterCommit(w, now);
      && q.bot in v.flags && v.flags[q.bot].halted && v.inFlight == None && v.cancels == w.cancels
      && (if q.bot in w.flags && Written(w.flags[q.bot].reason) then v.flags[q.bot].reason == w.flags[q.bot].reason
          else v.flags[q.bot].reason == "watchdog: " + q.reason)
      && (if IsHalted(w, q.bot)
          then v.flags[q.bot].setAt == w.flags[q.bot].setAt && v.events == w.events && v.notes == w.notes
          else v.flags[q.bot].setAt == now && v.notes == w.notes + [HaltNote(q.bot, now)]
               && v.events == w.events + [HaltEvent(q.bot, "watchdog: " + q.reason, q.skip)])
      && (forall bot :: bot != q.bot ==> FlagOf(v, bot) == FlagOf(w, bot))
  {
    var q := w.inFlight.value;
    if q.bot in w.flags { StripBlank(w.flags[q.bot].reason); }
  }

  /** Unhalting clears the flag with its own text and time, and does nothing for a bot that has none. */
  lemma UnhaltLeaves(w: World, bot: string, reason: string, now: real)
    ensures var v := AfterUnhalt(w, bot, reason, now);
      && v.cancels == w.cancels && v.notes == w.notes && v.inFlight == w.inFlight && v.lastAlert == w.lastAlert
      && v.flags.Keys == w.flags.Keys
      && (bot in w.flags ==>
            v.flags[bot] == Flag(false, reason, now) && v.events == w.events + [UnhaltEvent(bot, reason)])
      && (bot !in w.flags ==> v == w)
      && (forall b :: b in w.flags && b != bot ==> v.flags[b] == w.flags[b])
  {
  }

  /**
   * A bot that nobody else halted, halted again: the second halt cancels its orders exactly if it comes
   * within a minute of the first and for another cause.
   */
  lemma SecondHalt(w: World, bot: string, first: string, second: string, t: real, u: real, c: Config)
    requires !IsHalted(w, bot) && (bot in w.flags ==> !Written(w.flags[bot].reason)) && u >= t
    ensures var v := Next(RunFrom(w, HaltOf(bot, first, t), c), HaltRead(bot, second, u), c);
      v.cancels == w.cancels + [Cancel(bot, t)] +
        if u - t > 60.0 || (Family(first) == Family(second) && Family(first) != "") then [] else [Cancel(bot, u)]
  {
    hide Family;
    var r := AfterRead(w, bot, first, t);
    HaltRuns(w, bot, first, t, c);
    CancelsUnlessQuiet(w, bot, first, t);
    var v := AfterCommit(r, t);
    HaltLeaves(r, t);
    CancelsUnlessQuiet(v, bot, second, u);
    AfterPrefix(v.flags[bot].reason, "watchdog: ");
  }

  lemma HaltRuns(w: World, bot: string, reason: string, now: real, c: Config)
    ensures RunFrom(w, HaltOf(bot, reason, now), c) == AfterCommit(AfterRead(w, bot, reason, now), now)
  {
    hide AfterRead, AfterCommit;
    var ops := HaltOf(bot, reason, now);
    assert ops[..1] == [HaltRead(bot, reason, now)] && ops[..1][..0] == [];
    assert RunFrom(w, ops[..1], c) == AfterRead(w, bot, reason, now);
  }

  // ----- alerts -----

  /** When the last alert for a check and severity was sent. */
  function LastNote(notes: seq<Note>, name: string, severity: string): Option<real> {
    if notes == [] then None
    else
      var n := notes[|notes| - 1];
      if n.CheckNote? && n.name == name && n.severity == severity then Some(n.at)
      else LastNote(notes[..|notes| - 1], name, severity)
  }

  ghost predicate RemembersNotes(w: World, c: Config) {
    forall name, severity :: name !in c.silenced ==> RemembersNote(w, name, severity)
  }

  ghost predicate RemembersNote(w: World, name: string, severity: string) {
    match LastNote(w.notes, name, severity)
    case None => (name, severity) !in w.lastAlert
    case Some(at) => (name, severity) in w.lastAlert && w.lastAlert[(name, severity)] == at
  }

  lemma LastNoteAppend(notes: seq<Note>, n: Note, name: string, severity: string)
    ensures LastNote(notes + [n], name, severity) ==
            if n.CheckNote? && n.name == name && n.severity == severity then Some(n.at)
            else LastNote(notes, name, severity)
  {
    assert (notes + [n])[..|notes|] == notes;
  }

  lemma StepRemembers(w: World, op: Op, c: Config, name: string, severity: string)
    requires name !in c.silenced && RemembersNote(w, name, severity)
    ensures RemembersNote(Next(w, op, c), name, severity)
  {
    hide AfterRecord, AfterCommit, AfterRead, AfterUnhalt, AfterOperatorHalt, RemembersNote;
    match op {
      case Record(r, at) => RecordRemembers(w, r, at, c, name, severity);
      case HaltCommit(at) => CommitRemembers(w, at, name, severity);
      case _ =>
        NoNote(w, op, c);
        SameNotes(w, Next(w, op, c), name, severity);
    }
  }

  lemma NoNote(w: World, op: Op, c: Config)
    requires !op.Record? && !op.HaltCommit?
    ensures Next(w, op, c).notes == w.notes && Next(w, op, c).lastAlert == w.lastAlert
  {
    hide SkipsCancel;
  }

  lemma SameNotes(w: World, v: World, name: string, severity: string)
    ensures v.notes == w.notes && v.lastAlert == w.lastAlert && RemembersNote(w, name, severity) ==>
      RemembersNote(v, name, severity)
  {
    hide LastNote;
  }

  lemma RecordRemembers(w: World, r: CheckResult, at: real, c: Config, name: string, severity: string)
    requires name !in c.silenced && RemembersNote(w, name, severity)
    ensures RemembersNote(AfterRecord(w, r, at, c), name, severity)
  {
    hide LastNote;
    LastNoteAppend(w.notes, CheckNote(r.name, r.severity, at), name, severity);
  }

  lemma CommitRemembers(w: World, at: real, name: string, severity: string)
    requires RemembersNote(w, name, severity)
    ensures RemembersNote(AfterCommit(w, at), name, severity)
  {
    hide LastNote, HaltedFlag;
    if w.inFlight.Some? { LastNoteAppend(w.notes, HaltNote(w.inFlight.value.bot, at), name, severity); }
  }

  lemma {:induction false} RunRemembers(ops: seq<Op>, c: Config, name: string, severity: string)
    requires name !in c.silenced
    ensures RemembersNote(RunFrom(EMPTY, ops, c), name, severity)
  {
    hide Next, RemembersNote;
    if ops == [] {
      NothingToRemember(name, severity);
    } else {
      RunRemembers(ops[..|ops| - 1], c, name, severity);
      StepRemembers(RunFrom(EMPTY, ops[..|ops| - 1], c), ops[|ops| - 1], c, name, severity);
    }
  }

  lemma NothingToRemember(name: string, severity: string)
    ensures RemembersNote(EMPTY, name, severity)
  {
  }

  /**
   * After every run a failed check is stored, and an alert goes out exactly if the check is not silenced
   * and none did for it and its severity less than the dedupe interval ago.
   */
  lemma AlertExactly(ops: seq<Op>, r: CheckResult, at: real, c: Config)
    ensures var w, last := RunFrom(EMPTY, ops, c), LastNote(RunFrom(EMPTY, ops, c).notes, r.name, r.severity);
      var v := Next(w, Record(r, at), c);
      && v.events == w.events + [CheckEvent(r.name, r.severity, r.message)]
      && v.notes == w.notes +
           if r.name !in c.silenced && (last.Some? ==> at - last.value >= c.dedupe)
           then [CheckNote(r.name, r.severity, at)] else []
  {
    hide RunFrom;
    var w := RunFrom(EMPTY, ops, c);
    if r.name !in c.silenced { RunRemembers(ops, c, r.name, r.severity); }
    assert w.notes + [] == w.notes;
  }

  // ----- a round of checks -----

  /** The check asks for a halt of this bot: by name, as one of its scope, or as one of all active bots. */
  predicate Kills(r: CheckResult, active: seq<string>, bot: string) {
    && !r.ok && r.severity == "kill"
    && (r.bot == bot || r.bot == "")
    && (r.bot == "" ==> (r.scope == [] ==> bot in active) && (r.scope != [] ==> bot in r.scope))
  }

  lemma {:induction false} HaltsHalt(w: World, bots: seq<string>, reason: string, now: real, c: Config, bot: string)
    ensures IsHalted(RunFrom(w, HaltsFor(bots, reason, now), c), bot) <==> IsHalted(w, bot) || bot in bots
  {
    hide RunFrom, HaltOf, AfterRead, AfterCommit;
    if bots == [] {
      assert RunFrom(w, [], c) == w by { NoOpsFrom(w, c); }
    } else {
      var n := |bots| - 1;
      HaltsHalt(w, bots[..n], reason, now, c, bot);
      var v := RunFrom(w, HaltsFor(bots[..n], reason, now), c);
      RunFromConcat(w, HaltsFor(bots[..n], reason, now), HaltOf(bots[n], reason, now), c);
      HaltRuns(v, bots[n], reason, now, c);
      OneHalts(v, bots[n], reason, now, bot);
      assert bots == bots[..n] + [bots[n]];
    }
  }

  lemma NoOpsFrom(w: World, c: Config)
    ensures RunFrom(w, [], c) == w
  {
  }

  lemma OneHalts(w: World, halted: string, reason: string, now: real, bot: string)
    ensures IsHalted(AfterCommit(AfterRead(w, halted, reason, now), now), bot) <==> IsHalted(w, bot) || bot == halted
  {
    hide SkipsCancel, OperatorText;
  }

  lemma RecordHaltsNobody(w: World, r: CheckResult, now: real, c: Config, bot: string)
    ensures RunFrom(w, [Record(r, now)], c) == AfterRecord(w, r, now, c)
    ensures IsHalted(AfterRecord(w, r, now, c), bot) <==> IsHalted(w, bot)
  {
    assert [Record(r, now)][..0] == [];
  }

  /**
   * After a round of checks exactly those bots are halted that were before or that some failed check
   * of severity kill asks for.
   */
  lemma {:induction false} RoundHaltsExactly(
      w: World, checks: seq<CheckResult>, active: seq<string>, now: real, c: Config, bot: string)
    ensures IsHalted(RunFrom(w, Dispatch(checks, active, now), c), bot) <==>
      IsHalted(w, bot) || exists r :: r in checks && Kills(r, active, bot)
  {
    hide RunFrom, HaltsFor, AfterRecord, Kills, IsHalted;
    if checks == [] {
      NoOpsFrom(w, c);
    } else {
      var n := |checks| - 1;
      var r := checks[n];
      RoundHaltsExactly(w, checks[..n], active, now, c, bot);
      var before := Dispatch(checks[..n], active, now);
      var v := RunFrom(w, before, c);
      assert checks == checks[..n] + [r];
      if r.ok {
        assert before + [] == before;
        NotKilled(r, active, bot);
      } else {
        var halts := if r.severity == "kill" then HaltsFor(Targets(r, active), r.message, now) else [];
        RunFromConcat(w, before, [Record(r, now)] + halts, c);
        RunFromConcat(v, [Record(r, now)], halts, c);
        RecordHaltsNobody(v, r, now, c, bot);
        var u := AfterRecord(v, r, now, c);
        HaltsHalt(u, Targets(r, active), r.message, now, c, bot);
        NoOpsFrom(u, c);
        NotKilled(r, active, bot);
      }
    }
  }

  lemma NotKilled(r: CheckResult, active: seq<string>, bot: string)
    ensures Kills(r, active, bot) <==> !r.ok && r.severity == "kill" && bot in Targets(r, active)
  {
  }

  function Stored(es: seq<Event>): seq<Event> {
    Filter(es, (e: Event) => e.CheckEvent?)
  }

  function Failures(checks: seq<CheckResult>): seq<Event> {
    if checks == [] then []
    else
      var r := checks[|checks| - 1];
      Failures(checks[..|checks| - 1]) + if r.ok then [] else [CheckEvent(r.name, r.severity, r.message)]
  }

  lemma StoredAppend(es: seq<Event>, e: Event)
    ensures Stored(es + [e]) == if e.CheckEvent? then Stored(es) + [e] else Stored(es)
  {
    assert (es + [e])[..|es|] == es;
  }

  lemma {:induction false} HaltsStoreNothing(w: World, bots: seq<string>, reason: string, now: real, c: Config)
    ensures Stored(RunFrom(w, HaltsFor(bots, reason, now), c).events) == Stored(w.events)
  {
    hide RunFrom, HaltOf, SkipsCancel, HaltedFlag, Stored;
    if bots == [] {
      NoOpsFrom(w, c);
    } else {
      var n := |bots| - 1;
      HaltsStoreNothing(w, bots[..n], reason, now, c);
      var v := RunFrom(w, HaltsFor(bots[..n], reason, now), c);
      RunFromConcat(w, HaltsFor(bots[..n], reason, now), HaltOf(bots[n], reason, now), c);
      HaltRuns(v, bots[n], reason, now, c);
      var skip := AfterRead(v, bots[n], reason, now).inFlight.value.skip;
      StoredAppend(v.events, HaltEvent(bots[n], PREFIX + reason, skip));
    }
  }

  /** A round stores its failed checks, in order, and nothing else of that kind. */
  lemma {:induction false} RoundStoresFailures(
      w: World, checks: seq<CheckResult>, active: seq<string>, now: real, c: Config)
    ensures Stored(RunFrom(w, Dispatch(checks, active, now), c).events) == Stored(w.events) + Failures(checks)
  {
    hide RunFrom, HaltsFor, Stored;
    if checks == [] {
      NoOpsFrom(w, c);
      assert Stored(w.events) + [] == Stored(w.events);
    } else {
      var n := |checks| - 1;
      var r := checks[n];
      RoundStoresFailures(w, checks[..n], active, now, c);
      var before := Dispatch(checks[..n], active, now);
      var v := RunFrom(w, before, c);
      if r.ok {
        assert before + [] == before && Failures(checks) == Failures(checks[..n]) + [];
      } else {
        var halts := if r.severity == "kill" then HaltsFor(Targets(r, active), r.message, now) else [];
        RunFromConcat(w, before, [Record(r, now)] + halts, c);
        RunFromConcat(v, [Record(r, now)], halts, c);
        RecordHaltsNobody(v, r, now, c, "");
        var u := AfterRecord(v, r, now, c);
        StoredAppend(v.events, CheckEvent(r.name, r.severity, r.message));
        HaltsStoreNothing(u, Targets(r, active), r.message, now, c);
        NoOpsFrom(u, c);
      }
    }
  }
}
