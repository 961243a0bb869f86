/** The token-bucket rate limiter and the threads that compete for it. */
module TokenBucket {
  import opened Sums
  import Decimals
  import opened Trades

  datatype Config = Config(capacity: nat, period: real) {
    predicate Valid() {
      capacity >= 1 && period > 0.0
    }

    /** Tokens per second. */
    function Rate(): real
      requires Valid()
    {
      capacity as real / period
    }
  }

  datatype Bucket = Bucket(tokens: real, last: real)

  function Refilled(b: Bucket, now: real, c: Config): Bucket
    requires c.Valid()
  {
    var elapsed := now - b.last;
    if elapsed > 0.0 then Bucket(Min(c.capacity as real, b.tokens + Times(elapsed, c.Rate())), now) else b
  }

  /** What the locked section does; n tokens are granted if there are that many. */
  function Taken(b: Bucket, n: nat, now: real, c: Config): (Bucket, bool)
    requires c.Valid()
  {
    var r := Refilled(b, now, c);
    if r.tokens >= n as real then (r.(tokens := r.tokens - n as real), true) else (r, false)
  }

  /** How long until n tokens would be there. */
  function Wait(b: Bucket, n: nat, c: Config): real
    requires c.Valid()
  {
    (n as real - b.tokens) / c.Rate()
  }

  class Limiter {
    const config: Config
    var tokens: real
    var lastRefill: real

    function View(): Bucket
      reads this
    {
      Bucket(tokens, lastRefill)
    }

    constructor (config: Config, now: real)
      requires config.Valid()
      ensures this.config == config && View() == Bucket(config.capacity as real, now)
    {
      this.config := config;
      tokens, lastRefill := config.capacity as real, now;
    }

    /** One pass through the locked section of `acquire`; the wait is meant for the caller's sleep. */
    method TryTake(n: nat, now: real) returns (granted: bool, wait: real)
      requires config.Valid()
      modifies this
      ensures (View(), granted) == Taken(old(View()), n, now, config)
      ensures !granted ==> wait == Wait(View(), n, config) && wait > 0.0
    {
      wait := 0.0;
      var elapsed := now - lastRefill;
      if elapsed > 0.0 {
        tokens := Min(config.capacity as real, tokens + Times(elapsed, config.Rate()));
        lastRefill := now;
      }
      if tokens >= n as real {
        tokens := tokens - n as real;
        return true, wait;
      }
      wait := (n as real - tokens) / config.Rate();
      WaitPositive(View(), n, config);
      return false, wait;
    }
  }

  lemma RatePositive(c: Config)
    requires c.Valid()
    ensures c.Rate() > 0.0
  {
    QuotientPositive(c.capacity as real, c.period);
  }

  lemma QuotientPositive(a: real, b: real)
    requires a > 0.0 && b > 0.0
    ensures a / b > 0.0
  {
  }

  lemma WaitPositive(b: Bucket, n: nat, c: Config)
    requires c.Valid() && b.tokens < n as real
    ensures Wait(b, n, c) > 0.0
  {
    RatePositive(c);
    QuotientPositive(n as real - b.tokens, c.Rate());
  }

  /** The computed wait is enough: if nobody else draws, n tokens (within capacity) are there after it. */
  lemma WaitSuffices(b: Bucket, n: nat, c: Config)
    requires c.Valid() && b.tokens < n as real && n <= c.capacity
    ensures Taken(b, n, b.last + Wait(b, n, c), c).1
  {
    hide Times;
    WaitPositive(b, n, c);
    RatePositive(c);
    Decimals.QuotientTimes(n as real - b.tokens, c.Rate());
  }

  // ----- threads -----

  /**
   * A call of `acquire`: about to enter the locked section once awake, deciding what to do after a
   * refusal, or finished.
   */
  datatype Thread =
    | Waiting(n: nat, blocking: bool, deadline: real, wake: real)
    | Refused(n: nat, blocking: bool, deadline: real, wait: real)
    | Done(granted: bool)

  datatype Grant = Grant(thread: nat, at: real, n: nat)

  /** `now` is the latest reading of the monotonic clock. */
  datatype System = System(bucket: Bucket, threads: seq<Thread>, grants: seq<Grant>, now: real)

  /** One step of one thread, at a clock reading `at`; `Call` starts a new call of `acquire`. */
  datatype Step =
    | Call(n: nat, blocking: bool, timeout: real, at: real)
    | Lock(thread: nat, at: real)
    | Decide(thread: nat, at: real)

  predicate Enabled(s: System, e: Step) {
    e.at >= s.now &&
    match e
    case Call(_, _, timeout, _) => timeout >= 0.0
    case Lock(i, at) => i < |s.threads| && s.threads[i].Waiting? && at >= s.threads[i].wake
    case Decide(i, _) => i < |s.threads| && s.threads[i].Refused?
  }

  function Next(s: System, e: Step, c: Config): System
    requires c.Valid() && Enabled(s, e)
  {
    match e
    case Call(n, blocking, timeout, at) =>
      s.(threads := s.threads + [Waiting(n, blocking, at + timeout, at)], now := at)
    case Lock(i, at) =>
      var t := s.threads[i];
      var (b, granted) := Taken(s.bucket, t.n, at, c);
      if granted then System(b, s.threads[i := Done(true)], s.grants + [Grant(i, at, t.n)], at)
      else System(b, s.threads[i := Refused(t.n, t.blocking, t.deadline, Wait(b, t.n, c))], s.grants, at)
    case Decide(i, at) =>
      var t := s.threads[i];
      var next :=
        if !t.blocking || at + t.wait > t.deadline then Done(false)
        else Waiting(t.n, t.blocking, t.deadline, at + Min(t.wait, 0.25));
      s.(threads := s.threads[i := next], now := at)
  }

  function Start(c: Config, now: real): System {
    System(Bucket(c.capacity as real, now), [], [], now)
  }

  /** The system after a sequence of steps by any threads in any order, if each was possible. */
  function Run(steps: seq<Step>, c: Config, start: real): Option<System>
    requires c.Valid()
  {
    if steps == [] then Some(Start(c, start))
    else
      match Run(steps[..|steps| - 1], c, start)
      case None => None
      case Some(s) => if Enabled(s, steps[|steps| - 1]) then Some(Next(s, steps[|steps| - 1], c)) else None
  }

  // ----- the rate bound -----

  /** Tokens granted in the closed interval [a, b]. */
  function GrantedIn(gs: seq<Grant>, a: real, b: real): real {
    if gs == [] then 0.0
    else
      var g := gs[|gs| - 1];
      GrantedIn(gs[..|gs| - 1], a, b) + if a <= g.at <= b then g.n as real else 0.0
  }

  ghost predicate RateInvariant(s: System, c: Config, a: real, b: real)
    requires c.Valid()
  {
    && 0.0 <= s.bucket.tokens <= c.capacity as real
    && s.bucket.last <= s.now
    && (forall i :: 0 <= i < |s.grants| ==> s.grants[i].at <= s.bucket.last)
    && GrantedIn(s.grants, a, b) <= c.capacity as real + Times(b - a, c.Rate())
    && (s.bucket.last <= b ==>
          GrantedIn(s.grants, a, b) + s.bucket.tokens <=
          c.capacity as real + (if s.bucket.last > a then Times(s.bucket.last - a, c.Rate()) else 0.0))
  }

  lemma {:induction false} NothingGrantedBefore(gs: seq<Grant>, a: real, b: real, last: real)
    requires last < a && forall i :: 0 <= i < |gs| ==> gs[i].at <= last
    ensures GrantedIn(gs, a, b) == 0.0
  {
    if gs != [] { NothingGrantedBefore(gs[..|gs| - 1], a, b, last); }
  }

  lemma RefillBounds(b: Bucket, now: real, c: Config)
    requires c.Valid() && 0.0 <= b.tokens <= c.capacity as real && b.last <= now
    ensures var r := Refilled(b, now, c);
      && r.last == now && 0.0 <= r.tokens <= c.capacity as real
      && r.tokens <= b.tokens + Times(now - b.last, c.Rate())
  {
    hide Times;
    RatePositive(c);
    TimesZero(c.Rate());
    Decimals.TimesMonotone(0.0, now - b.last, c.Rate());
  }

  /** Refilling from `last` to `at` keeps the allowance measured from a. */
  lemma RefillAllowance(last: real, at: real, a: real, b: real, c: Config)
    requires c.Valid() && last <= at && a <= b
    ensures last > a ==> Times(last - a, c.Rate()) + Times(at - last, c.Rate()) == Times(at - a, c.Rate())
    ensures a < at <= b ==> 0.0 <= Times(at - a, c.Rate()) <= Times(b - a, c.Rate())
    ensures Times(b - a, c.Rate()) >= 0.0
    ensures last == at ==> Times(at - last, c.Rate()) == 0.0
  {
    hide Times;
    RatePositive(c);
    TimesDistributes(last - a, at - last, c.Rate());
    TimesZero(c.Rate());
    if a < at <= b {
      Decimals.TimesMonotone(at - a, b - a, c.Rate());
      Decimals.TimesMonotone(0.0, at - a, c.Rate());
    }
    Decimals.TimesMonotone(0.0, b - a, c.Rate());
  }

  lemma LockKeepsRate(s: System, i: nat, at: real, c: Config, a: real, b: real)
    requires c.Valid() && a <= b && RateInvariant(s, c, a, b) && Enabled(s, Lock(i, at))
    ensures RateInvariant(Next(s, Lock(i, at), c), c, a, b)
  {
    hide Times, Refilled;
    var t := Next(s, Lock(i, at), c);
    var r := Refilled(s.bucket, at, c);
    RefillBounds(s.bucket, at, c);
    RefillAllowance(s.bucket.last, at, a, b, c);
    if t.grants != s.grants { assert t.grants[..|s.grants|] == s.grants; }
    if s.bucket.last < a { NothingGrantedBefore(s.grants, a, b, s.bucket.last); }
  }

  lemma {:induction false} RunKeepsRate(steps: seq<Step>, c: Config, start: real, a: real, b: real)
    requires c.Valid() && a <= b && Run(steps, c, start).Some?
    ensures RateInvariant(Run(steps, c, start).value, c, a, b)
  {
    hide Times;
    if steps == [] {
      RatePositive(c);
      TimesZero(c.Rate());
      Decimals.TimesMonotone(0.0, b - a, c.Rate());
      if start > a { Decimals.TimesMonotone(0.0, start - a, c.Rate()); }
    } else {
      RunKeepsRate(steps[..|steps| - 1], c, start, a, b);
      var s := Run(steps[..|steps| - 1], c, start).value;
      if steps[|steps| - 1].Lock? {
        LockKeepsRate(s, steps[|steps| - 1].thread, steps[|steps| - 1].at, c, a, b);
      }
    }
  }

  /**
   * Under any interleaving of threads: tokens stay between 0 and the capacity, and what is granted
   * in any closed interval is at most the capacity plus the refill over its length.
   */
  lemma RateBound(steps: seq<Step>, c: Config, start: real, a: real, b: real)
    requires c.Valid() && a <= b && Run(steps, c, start).Some?
    ensures var s := Run(steps, c, start).value;
      && 0.0 <= s.bucket.tokens <= c.capacity as real
      && GrantedIn(s.grants, a, b) <= c.capacity as real + Times(b - a, c.Rate())
  {
    RunKeepsRate(steps, c, start, a, b);
  }

  /** So no period sees more than twice the capacity... */
  lemma AtMostTwicePerPeriod(steps: seq<Step>, c: Config, start: real, a: real)
    requires c.Valid() && Run(steps, c, start).Some?
    ensures GrantedIn(Run(steps, c, start).value.grants, a, a + c.period) <= 2.0 * c.capacity as real
  {
    hide Times, GrantedIn, Run;
    RateBound(steps, c, start, a, a + c.period);
    FullPeriod(c);
  }

  lemma FullPeriod(c: Config)
    requires c.Valid()
    ensures Times(c.period, c.Rate()) == c.capacity as real
  {
    Decimals.QuotientTimes(c.capacity as real, c.period);
    Decimals.TimesIs(c.period, c.Rate());
    Decimals.TimesIs(c.Rate(), c.period);
  }

  /** ...and for every capacity and period some schedule of two threads reaches that. */
  lemma TwicePerPeriodIsReached(c: Config)
    requires c.Valid()
    ensures exists steps :: Run(steps, c, 0.0).Some?
              && GrantedIn(Run(steps, c, 0.0).value.grants, 0.0, c.period) == 2.0 * c.capacity as real
  {
    hide Times;
    FullPeriod(c);
    var call, w := Call(c.capacity, true, 10.0, 0.0), Waiting(c.capacity, true, 10.0, 0.0);
    var g1, g2 := Grant(0, 0.0, c.capacity), Grant(1, c.period, c.capacity);
    var full, empty := Bucket(c.capacity as real, 0.0), Bucket(0.0, 0.0);
    var a1, a2, a3 := [call], [call, Lock(0, 0.0)], [call, Lock(0, 0.0), call];
    var steps := [call, Lock(0, 0.0), call, Lock(1, c.period)];
    assert a1[..0] == [] && a2[..1] == a1 && a3[..2] == a2 && steps[..3] == a3;
    var r1 := System(full, [w], [], 0.0);
    var r2 := System(empty, [Done(true)], [g1], 0.0);
    var r3 := System(empty, [Done(true), w], [g1], 0.0);
    var r4 := System(Bucket(0.0, c.period), [Done(true), Done(true)], [g1, g2], c.period);
    assert Next(Start(c, 0.0), call, c) == r1;
    assert Next(r1, Lock(0, 0.0), c) == r2;
    assert Next(r2, call, c) == r3;
    assert Refilled(empty, c.period, c) == Bucket(c.capacity as real, c.period);
    assert Next(r3, Lock(1, c.period), c) == r4;
    assert Run([], c, 0.0) == Some(Start(c, 0.0));
    assert Run(a1, c, 0.0) == Some(r1);
    assert Run(a2, c, 0.0) == Some(r2);
    assert Run(a3, c, 0.0) == Some(r3);
    assert Run(steps, c, 0.0) == Some(r4);
    assert [g1, g2][..1] == [g1] && [g1][..0] == [];
    assert GrantedIn([g1], 0.0, c.period) == c.capacity as real;
  }

  // ----- every call is granted at most once -----

  function GrantsOf(gs: seq<Grant>, thread: nat): nat {
    if gs == [] then 0
    else GrantsOf(gs[..|gs| - 1], thread) + if gs[|gs| - 1].thread == thread then 1 else 0
  }

  ghost predicate CallsInvariant(s: System) {
    && (forall i: nat :: GrantsOf(s.grants, i) == if i < |s.threads| && s.threads[i] == Done(true) then 1 else 0)
    && (forall i :: 0 <= i < |s.threads| && s.threads[i].Waiting? ==> s.threads[i].wake <= s.threads[i].deadline)
  }

  /**
   * A call that returned True drew its tokens exactly once, any other call none so far; and a
   * sleeping call means to wake no later than its deadline.
   */
  lemma {:induction false} CallsDrawOnce(steps: seq<Step>, c: Config, start: real)
    requires c.Valid() && Run(steps, c, start).Some?
    ensures CallsInvariant(Run(steps, c, start).value)
  {
    hide Taken, Wait;
    if steps != [] {
      CallsDrawOnce(steps[..|steps| - 1], c, start);
      var s, e := Run(steps[..|steps| - 1], c, start).value, steps[|steps| - 1];
      var t := Next(s, e, c);
      forall i: nat
        ensures GrantsOf(t.grants, i) == if i < |t.threads| && t.threads[i] == Done(true) then 1 else 0
      {
        assert GrantsOf(s.grants, i) == if i < |s.threads| && s.threads[i] == Done(true) then 1 else 0;
        if t.grants != s.grants { assert t.grants[..|s.grants|] == s.grants; }
      }
    }
  }

  // ----- how long a call waits -----

  /** The computed wait is not only enough: before it is over the tokens are not there. */
  lemma WaitIsExact(b: Bucket, n: nat, at: real, c: Config)
    requires c.Valid() && b.tokens < n as real && n <= c.capacity
    ensures Taken(b, n, at, c).1 <==> at >= b.last + Wait(b, n, c)
  {
    hide Times;
    var w, e := Wait(b, n, c), at - b.last;
    WaitPositive(b, n, c);
    RatePositive(c);
    Decimals.QuotientTimes(n as real - b.tokens, c.Rate());
    assert Times(w, c.Rate()) == n as real - b.tokens;
    if e >= w {
      Decimals.TimesMonotone(w, e, c.Rate());
    } else if e > 0.0 {
      assert Times(e, c.Rate()) < n as real - b.tokens by {
        if Times(e, c.Rate()) >= Times(w, c.Rate()) { Decimals.Cancel(w, e, c.Rate()); }
      }
    }
  }

  /** Right after its refusal a call gives up exactly if the tokens would not be there by its deadline. */
  lemma GivesUpExactly(s: System, i: nat, c: Config)
    requires c.Valid() && i < |s.threads| && s.threads[i].Refused? && s.bucket.last <= s.now
    requires var t := s.threads[i];
      t.n <= c.capacity && s.bucket.tokens < t.n as real && t.wait == Wait(s.bucket, t.n, c)
    requires s.now == s.bucket.last
    ensures var t, u := s.threads[i], Next(s, Decide(i, s.now), c).threads[i];
      && (u == Done(false) <==> !t.blocking || !Taken(s.bucket, t.n, t.deadline, c).1)
      && (u != Done(false) ==> u.Waiting? && s.now < u.wake <= s.now + 0.25 && u.deadline == t.deadline)
  {
    hide Taken, Wait;
    var t := s.threads[i];
    WaitIsExact(s.bucket, t.n, t.deadline, c);
    WaitPositive(s.bucket, t.n, c);
  }

  function RunFrom(s: System, steps: seq<Step>, c: Config): Option<System>
    requires c.Valid()
    decreases |steps|
  {
    if steps == [] then Some(s)
    else if Enabled(s, steps[0]) then RunFrom(Next(s, steps[0], c), steps[1..], c)
    else None
  }

  /** A refused call that sleeps for its whole wait and is then granted. */
  ghost predicate Served(s: System, i: nat, steps: seq<Step>, c: Config)
    requires c.Valid() && i < |s.threads| && s.threads[i].Refused?
  {
    var t, o := s.threads[i], RunFrom(s, steps, c);
    && o.Some? && i < |o.value.threads| && o.value.threads[i] == Done(true)
    && o.value.grants == s.grants + [Grant(i, s.now + t.wait, t.n)] && o.value.now == s.now + t.wait
  }

  /** One nap: the decision, and the next pass through the lock when it wakes. */
  lemma OneNap(s: System, i: nat, c: Config)
    requires c.Valid() && Refusing(s, i, c)
    ensures var t := s.threads[i];
      var nap := Min(t.wait, 0.25);
      && Enabled(s, Decide(i, s.now))
      && (var u := Next(s, Decide(i, s.now), c);
          && Enabled(u, Lock(i, s.now + nap))
          && (var v := Next(u, Lock(i, s.now + nap), c);
              && v.now == s.now + nap && |v.threads| == |s.threads|
              && (t.wait <= 0.25 ==> v.threads[i] == Done(true) && v.grants == s.grants + [Grant(i, v.now, t.n)])
              && (t.wait > 0.25 ==> Refusing(v, i, c) && v.grants == s.grants && v.threads[i].n == t.n
                                    && v.threads[i].wait == t.wait - 0.25)))
  {
    hide Times;
    var t, b := s.threads[i], s.bucket;
    var nap := Min(t.wait, 0.25);
    WaitPositive(b, t.n, c);
    WaitIsExact(b, t.n, b.last + nap, c);
    if t.wait > 0.25 { WaitShrinks(b, t.n, 0.25, c); }
  }

  /** The call was refused just now, its wait ends by its deadline, and its request can be met. */
  ghost predicate Refusing(s: System, i: nat, c: Config)
    requires c.Valid()
  {
    && i < |s.threads| && s.threads[i].Refused? && s.now == s.bucket.last
    && (var t := s.threads[i];
        && t.blocking && t.n <= c.capacity && s.bucket.tokens < t.n as real && t.wait == Wait(s.bucket, t.n, c)
        && s.now + t.wait <= t.deadline)
  }

  lemma WaitShrinks(b: Bucket, n: nat, nap: real, c: Config)
    requires c.Valid() && b.tokens < n as real && n <= c.capacity && 0.0 < nap < Wait(b, n, c)
    ensures var r := Refilled(b, b.last + nap, c);
      r.last == b.last + nap && r.tokens < n as real && Wait(r, n, c) == Wait(b, n, c) - nap
  {
    hide Times;
    var r := Refilled(b, b.last + nap, c);
    WaitIsExact(b, n, b.last + nap, c);
    RatePositive(c);
    var w := Wait(b, n, c);
    Decimals.QuotientTimes(n as real - b.tokens, c.Rate());
    TimesDistributes(w, nap, c.Rate());
    assert r.tokens == b.tokens + Times(nap, c.Rate());
    Decimals.QuotientTimes(n as real - r.tokens, c.Rate());
    SameQuotient(Wait(r, n, c), w - nap, c.Rate());
  }

  lemma SameQuotient(x: real, y: real, d: real)
    requires d > 0.0 && Times(x, d) == Times(y, d)
    ensures x == y
  {
    Decimals.Cancel(x, y, d);
    Decimals.Cancel(y, x, d);
  }

  /**
   * A refused call whose wait ends by its deadline is granted at the end of it if no other call draws,
   * in naps of a quarter of a second and a last one of what remains.
   */
  lemma {:induction false} LoneCallIsServed(s: System, i: nat, c: Config) returns (steps: seq<Step>)
    requires c.Valid() && Refusing(s, i, c)
    ensures Served(s, i, steps, c)
    ensures |steps| % 2 == 0
    ensures (|steps| / 2 - 1) as real * 0.25 < s.threads[i].wait <= (|steps| / 2) as real * 0.25
    decreases (s.threads[i].wait * 4.0).Floor
  {
    hide Next, Enabled, Wait;
    var t := s.threads[i];
    var nap := Min(t.wait, 0.25);
    WaitPositive(s.bucket, t.n, c);
    OneNap(s, i, c);
    var two := [Decide(i, s.now), Lock(i, s.now + nap)];
    var u := Next(s, two[0], c);
    var v := Next(u, two[1], c);
    if t.wait <= 0.25 {
      steps := two;
      assert two[1..] == [two[1]] && two[1..][1..] == [];
      assert RunFrom(u, two[1..], c) == Some(v);
    } else {
      var rest := LoneCallIsServed(v, i, c);
      steps := two + rest;
      assert steps[1..] == [two[1]] + rest && steps[1..][1..] == rest;
      assert RunFrom(u, steps[1..], c) == RunFrom(v, rest, c);
    }
  }
}
