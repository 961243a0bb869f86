/** The two-step /unhalt command: staging, confirmation with expiry, and a cooldown per chat and bot. */
module Notify {
  import opened Trades
  import opened Sorting

  const CONFIRM_WINDOW: real := 60.0
  const COOLDOWN: real := 60.0

  /** A chat and a bot. */
  type Key = (int, string)

  /** A received text, split at white space, and the time it is handled. */
  datatype Message = Message(chat: int, words: seq<string>, at: real)

  /** An accepted /unhalt command; `works` is what the unhalt handler returns if it is called. */
  datatype Command = Command(key: Key, confirm: bool, at: real, works: bool)

  datatype Outcome = CoolingDown | Staged | NotPending | Called(ok: bool)

  datatype State = State(pending: map<Key, real>, last: map<Key, real>)

  /** Commands from unknown chats or for bots outside the list are dropped. */
  function Parse(m: Message, chats: set<int>, bots: set<string>, works: bool): Option<Command> {
    if m.chat !in chats || m.words == [] || !("/unhalt" <= m.words[0]) then None
    else if |m.words| < 2 || m.words[1] !in bots then None
    else Some(Command((m.chat, m.words[1]), |m.words| >= 3 && m.words[2] == "confirm", m.at, works))
  }

  function Live(pending: map<Key, real>, now: real): map<Key, real> {
    map k | k in pending && pending[k] > now :: pending[k]
  }

  function LastOf(s: State, k: Key): real {
    if k in s.last then s.last[k] else 0.0
  }

  function OutcomeOf(s: State, c: Command): Outcome {
    if c.confirm && c.at - LastOf(s, c.key) < COOLDOWN then CoolingDown
    else if !c.confirm then Staged
    else if c.key !in Live(s.pending, c.at) then NotPending
    else Called(c.works)
  }

  function Next(s: State, c: Command): State {
    var live := Live(s.pending, c.at);
    match OutcomeOf(s, c)
    case CoolingDown => s
    case Staged => s.(pending := live[c.key := c.at + CONFIRM_WINDOW])
    case NotPending => s.(pending := live - {c.key})
    case Called(ok) => State(live - {c.key}, if ok then s.last[c.key := c.at] else s.last)
  }

  class Listener {
    var pending: map<Key, real>
    var last: map<Key, real>
    const chats: set<int>
    const bots: set<string>

    function View(): State
      reads this
    {
      State(pending, last)
    }

    constructor (chats: set<int>, bots: set<string>)
      ensures View() == State(map[], map[]) && this.chats == chats && this.bots == bots
    {
      pending, last := map[], map[];
      this.chats, this.bots := chats, bots;
    }

    /** The clock reads a time since the epoch, which is not negative. */
    method HandleUpdate(m: Message, works: bool) returns (outcome: Option<Outcome>)
      requires m.at >= 0.0
      modifies this
      ensures var c := Parse(m, chats, bots, works);
        if c.None? then outcome == None && View() == old(View())
        else outcome == Some(OutcomeOf(old(View()), c.value)) && View() == Next(old(View()), c.value)
    {
      if m.chat !in chats || m.words == [] || !("/unhalt" <= m.words[0]) {
        return None;
      }
      if |m.words| < 2 || m.words[1] !in bots {
        return None;
      }
      var key := (m.chat, m.words[1]);
      var isConfirm := |m.words| >= 3 && m.words[2] == "confirm";
      var lastAt := if key in last then last[key] else 0.0;
      if isConfirm && m.at - lastAt < COOLDOWN {
        return Some(CoolingDown);
      }
      pending := Live(pending, m.at);
      if !isConfirm {
        pending := pending[key := m.at + CONFIRM_WINDOW];
        return Some(Staged);
      }
      var expiry := if key in pending then pending[key] else 0.0;
      pending := pending - {key};
      if expiry <= m.at {
        return Some(NotPending);
      }
      if works {
        last := last[key := m.at];
      }
      return Some(Called(works));
    }
  }

  // ----- runs -----

  function Run(cs: seq<Command>): State {
    if cs == [] then State(map[], map[]) else Next(Run(cs[..|cs| - 1]), cs[|cs| - 1])
  }

  function OutcomeAt(cs: seq<Command>, i: nat): Outcome
    requires i < |cs|
  {
    OutcomeOf(Run(cs[..i]), cs[i])
  }

  ghost predicate CalledAt(cs: seq<Command>, i: nat, k: Key) {
    i < |cs| && cs[i].key == k && OutcomeAt(cs, i).Called?
  }

  ghost predicate SucceededAt(cs: seq<Command>, i: nat, k: Key) {
    i < |cs| && cs[i].key == k && OutcomeAt(cs, i) == Called(true)
  }

  /** Command j staged k, and since then, up to n, the handler was not called for k. */
  ghost predicate StagedSince(cs: seq<Command>, j: nat, n: nat, k: Key)
    requires n <= |cs|
  {
    && j < n && cs[j].key == k && OutcomeAt(cs, j) == Staged
    && forall i :: j < i < n ==> !CalledAt(cs, i, k)
  }

  lemma OutcomePrefix(cs: seq<Command>, c: Command, i: nat)
    requires i < |cs|
    ensures OutcomeAt(cs + [c], i) == OutcomeAt(cs, i)
  {
    assert (cs + [c])[..i] == cs[..i];
  }

  lemma StagedSinceExtends(cs: seq<Command>, c: Command, j: nat, k: Key)
    requires StagedSince(cs, j, |cs|, k) && !CalledAt(cs + [c], |cs|, k)
    ensures StagedSince(cs + [c], j, |cs| + 1, k)
  {
    OutcomePrefix(cs, c, j);
    forall i | j < i < |cs| + 1 ensures !CalledAt(cs + [c], i, k) {
      if i < |cs| {
        OutcomePrefix(cs, c, i);
        assert !CalledAt(cs, i, k);
      }
    }
  }

  /** Every pending entry stems from a staging command that is still unused. */
  lemma {:induction false} PendingWasStaged(cs: seq<Command>, k: Key) returns (j: nat)
    requires k in Run(cs).pending
    ensures StagedSince(cs, j, |cs|, k) && Run(cs).pending[k] == cs[j].at + CONFIRM_WINDOW
  {
    hide OutcomeOf;
    var n := |cs| - 1;
    var us, c := cs[..n], cs[n];
    assert cs == us + [c];
    if c.key == k && OutcomeAt(cs, n) == Staged {
      j := n;
    } else {
      j := PendingWasStaged(us, k);
      OutcomePrefix(us, c, j);
      StagedSinceExtends(us, c, j, k);
    }
  }

  lemma StagedSincePrefix(cs: seq<Command>, j: nat, n: nat, k: Key)
    requires n <= |cs| && StagedSince(cs[..n], j, n, k)
    ensures StagedSince(cs, j, n, k)
  {
    hide OutcomeOf;
    assert cs[..n][..j] == cs[..j];
    forall i | j < i < n ensures !CalledAt(cs, i, k) {
      assert cs[..n][..i] == cs[..i];
      assert !CalledAt(cs[..n], i, k);
    }
  }

  /**
   * Every call of the unhalt handler is preceded by a staging command of the same chat and bot,
   * less than the confirmation window earlier, with no call for that key in between.
   */
  lemma CallWasStaged(cs: seq<Command>, i: nat, k: Key) returns (j: nat)
    requires CalledAt(cs, i, k)
    ensures StagedSince(cs, j, i, k) && cs[i].at < cs[j].at + CONFIRM_WINDOW
  {
    j := PendingWasStaged(cs[..i], k);
    StagedSincePrefix(cs, j, i, k);
    assert cs[..i][j] == cs[j];
  }

  /** Different calls have different staging commands. */
  lemma CallsHaveTheirOwnStaging(cs: seq<Command>, i: nat, i': nat, k: Key) returns (j: nat, j': nat)
    requires i < i' && CalledAt(cs, i, k) && CalledAt(cs, i', k)
    ensures StagedSince(cs, j, i, k) && StagedSince(cs, j', i', k)
    ensures j < i < j' < i'
  {
    j := CallWasStaged(cs, i, k);
    j' := CallWasStaged(cs, i', k);
  }

  lemma {:induction false} LastIsLatestSuccess(cs: seq<Command>, i: nat, k: Key)
    requires SucceededAt(cs, i, k)
    ensures k in Run(cs).last && cs[i].at <= Run(cs).last[k]
  {
    var n := |cs| - 1;
    var us, c := cs[..n], cs[n];
    assert cs == us + [c];
    if i < n {
      OutcomePrefix(us, c, i);
      LastIsLatestSuccess(us, i, k);
    }
  }

  /** Successful unhalts of one key are at least the cooldown apart. */
  lemma SuccessesAreApart(cs: seq<Command>, i: nat, j: nat, k: Key)
    requires i < j && SucceededAt(cs, i, k) && SucceededAt(cs, j, k)
    ensures cs[j].at - cs[i].at >= COOLDOWN
  {
    assert cs[..j][..i] == cs[..i];
    LastIsLatestSuccess(cs[..j], i, k);
  }

  // ----- independence of other keys -----

  ghost predicate Clocked(cs: seq<Command>) {
    forall i, j :: 0 <= i < j < |cs| ==> cs[i].at <= cs[j].at
  }

  function OfKey(cs: seq<Command>, k: Key): seq<Command> {
    Filter(cs, (c: Command) => c.key == k)
  }

  /** The outcomes of the commands for k, in order. */
  function OutcomesFor(cs: seq<Command>, k: Key): seq<Outcome> {
    if cs == [] then []
    else
      var n := |cs| - 1;
      if cs[n].key == k then OutcomesFor(cs[..n], k) + [OutcomeAt(cs, n)] else OutcomesFor(cs[..n], k)
  }

  /** Two states treat k alike from time `now` on: same cooldown, same entry unless it has expired. */
  ghost predicate Alike(s: State, t: State, k: Key, now: real) {
    && (k in s.last <==> k in t.last) && (k in s.last ==> s.last[k] == t.last[k])
    && (k in s.pending && s.pending[k] > now <==> k in t.pending && t.pending[k] > now)
    && (k in s.pending && s.pending[k] > now ==> s.pending[k] == t.pending[k])
  }

  lemma OwnCommandAlike(s: State, t: State, c: Command, now: real)
    requires Alike(s, t, c.key, now) && now <= c.at
    ensures OutcomeOf(s, c) == OutcomeOf(t, c) && Alike(Next(s, c), Next(t, c), c.key, c.at)
  {
  }

  lemma OtherCommandAlike(s: State, t: State, c: Command, k: Key, now: real)
    requires Alike(s, t, k, now) && now <= c.at && c.key != k
    ensures Alike(Next(s, c), t, k, c.at)
  {
  }

  lemma ClockedPrefix(cs: seq<Command>)
    requires Clocked(cs) && cs != []
    ensures Clocked(cs[..|cs| - 1])
  {
  }

  /** With a clock that does not run backwards, other keys do not affect the outcomes of a key. */
  lemma {:induction false} OtherKeysDoNotMatter(cs: seq<Command>, k: Key)
    requires Clocked(cs)
    ensures OutcomesFor(cs, k) == OutcomesFor(OfKey(cs, k), k)
    ensures cs != [] ==> Alike(Run(cs), Run(OfKey(cs, k)), k, cs[|cs| - 1].at)
  {
    hide Next, OutcomeOf, Alike;
    if cs != [] {
      var n := |cs| - 1;
      var us, c := cs[..n], cs[n];
      ClockedPrefix(cs);
      OtherKeysDoNotMatter(us, k);
      var s, t := Run(us), Run(OfKey(us, k));
      if n == 0 { NothingYetAlike(k, c.at); } else { AlikeLater(s, t, k, us[n - 1].at, c.at); }
      if c.key == k {
        OwnCommandAlike(s, t, c, c.at);
        var f := OfKey(us, k);
        assert OfKey(cs, k) == f + [c];
        assert (f + [c])[..|f|] == f;
      } else {
        OtherCommandAlike(s, t, c, k, c.at);
      }
    }
  }

  lemma NothingYetAlike(k: Key, now: real)
    ensures Alike(Run([]), Run(OfKey([], k)), k, now)
  {
  }

  lemma AlikeLater(s: State, t: State, k: Key, now: real, later: real)
    requires Alike(s, t, k, now) && now <= later
    ensures Alike(s, t, k, later)
  {
  }
}
