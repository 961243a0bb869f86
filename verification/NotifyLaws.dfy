/** Exactly when an unhalt command is heard, staged, cooled down or carried out. */
module NotifyLaws {
  import opened Trades
  import opened Notify

  /** A text is a command if it comes from a known chat, begins with the word and names a known bot. */
  lemma HeardExactly(m: Message, chats: set<int>, bots: set<string>, works: bool)
    ensures Parse(m, chats, bots, works).Some? <==>
      && m.chat in chats && |m.words| >= 2 && m.words[1] in bots
      && exists x: string :: m.words[0] == "/unhalt" + x
    ensures Parse(m, chats, bots, works).Some? ==>
      var c := Parse(m, chats, bots, works).value;
      && c.key == (m.chat, m.words[1]) && c.at == m.at && c.works == works
      && (c.confirm <==> |m.words| >= 3 && m.words[2] == "confirm")
  {
    if m.words != [] && "/unhalt" <= m.words[0] { assert m.words[0] == "/unhalt" + m.words[0][7..]; }
  }

  /** A success of k less than a minute before; without any, the clock itself counts from zero. */
  ghost predicate Cooling(cs: seq<Command>, k: Key, now: real) {
    || (exists m :: 0 <= m < |cs| && SucceededAt(cs, m, k) && now - cs[m].at < 60.0)
    || (now < 60.0 && forall m :: 0 <= m < |cs| ==> !SucceededAt(cs, m, k))
  }

  /** A staging of k less than a minute before that no call has used. */
  ghost predicate StagedInTime(cs: seq<Command>, k: Key, now: real) {
    exists j :: 0 <= j < |cs| && StagedAt(cs, j, k, now)
  }

  ghost predicate StagedAt(cs: seq<Command>, j: nat, k: Key, now: real)
    requires j < |cs|
  {
    StagedSince(cs, j, |cs|, k) && now < cs[j].at + 60.0
  }

  lemma {:induction false} LastWasSuccess(cs: seq<Command>, k: Key) returns (m: nat)
    requires k in Run(cs).last
    ensures SucceededAt(cs, m, k) && cs[m].at == Run(cs).last[k]
  {
    hide Live;
    var n := |cs| - 1;
    var us, c := cs[..n], cs[n];
    assert cs == us + [c];
    if c.key == k && OutcomeAt(cs, n) == Called(true) {
      m := n;
    } else {
      m := LastWasSuccess(us, k);
      OutcomePrefix(us, c, m);
    }
  }

  lemma CoolingExactly(cs: seq<Command>, k: Key, now: real)
    ensures Cooling(cs, k, now) <==> now - LastOf(Run(cs), k) < 60.0
  {
    hide Run, OutcomeOf;
    forall m | 0 <= m < |cs| && SucceededAt(cs, m, k)
      ensures k in Run(cs).last && cs[m].at <= Run(cs).last[k]
    {
      LastIsLatestSuccess(cs, m, k);
    }
    if k in Run(cs).last { var m := LastWasSuccess(cs, k); }
  }

  /** One command keeps the entry of a key that is still waiting, unless it uses it. */
  lemma StaysPending(s: State, c: Command, k: Key, now: real)
    requires k in s.pending && s.pending[k] > now >= c.at && now < c.at + 60.0
    requires !(c.key == k && OutcomeOf(s, c).Called?)
    ensures k in Next(s, c).pending && Next(s, c).pending[k] > now
  {
  }

  lemma {:induction false} StagedIsPending(cs: seq<Command>, j: nat, k: Key, now: real)
    requires Clocked(cs) && j < |cs| && cs[|cs| - 1].at <= now && StagedAt(cs, j, k, now)
    ensures k in Run(cs).pending && Run(cs).pending[k] > now
  {
    hide OutcomeOf, Next;
    var n := |cs| - 1;
    var us, c := cs[..n], cs[n];
    assert cs == us + [c];
    if j == n {
      JustStaged(Run(us), c);
    } else {
      ClockedPrefix(cs);
      OutcomePrefix(us, c, j);
      forall i | j < i < n ensures !CalledAt(us, i, k) {
        OutcomePrefix(us, c, i);
        assert !CalledAt(cs, i, k);
      }
      StagedIsPending(us, j, k, now);
      assert !CalledAt(cs, n, k);
      assert cs[j].at <= c.at;
      StaysPending(Run(us), c, k, now);
    }
  }

  lemma JustStaged(s: State, c: Command)
    requires OutcomeOf(s, c) == Staged
    ensures c.key in Next(s, c).pending && Next(s, c).pending[c.key] == c.at + 60.0
  {
  }

  lemma PendingExactly(cs: seq<Command>, k: Key, now: real)
    requires Clocked(cs) && (cs != [] ==> cs[|cs| - 1].at <= now)
    ensures k in Live(Run(cs).pending, now) <==> StagedInTime(cs, k, now)
  {
    hide Run, StagedSince;
    if k in Run(cs).pending && Run(cs).pending[k] > now {
      var j := PendingWasStaged(cs, k);
      StagedBefore(cs, j, k);
      assert StagedAt(cs, j, k, now);
    }
    if j :| 0 <= j < |cs| && StagedAt(cs, j, k, now) { StagedIsPending(cs, j, k, now); }
  }

  lemma StagedBefore(cs: seq<Command>, j: nat, k: Key)
    requires StagedSince(cs, j, |cs|, k)
    ensures j < |cs|
  {
  }

  lemma ClockedTake(cs: seq<Command>, i: nat)
    requires Clocked(cs) && i < |cs|
    ensures Clocked(cs[..i]) && (i > 0 ==> cs[..i][i - 1].at <= cs[i].at)
  {
  }

  /**
   * In every run with a clock that does not go back: a command without confirmation stages; one with it is
   * cooled down within a minute of the last success, else calls the handler if its bot was staged less than
   * a minute ago and that was not used yet, and else is told so.
   */
  lemma OutcomeExactly(cs: seq<Command>, i: nat)
    requires Clocked(cs) && i < |cs|
    ensures var o, c, us := OutcomeAt(cs, i), cs[i], cs[..i];
      && (o == Staged <==> !c.confirm)
      && (o == CoolingDown <==> c.confirm && Cooling(us, c.key, c.at))
      && (o == NotPending <==> c.confirm && !Cooling(us, c.key, c.at) && !StagedInTime(us, c.key, c.at))
      && (o == Called(c.works) <==> c.confirm && !Cooling(us, c.key, c.at) && StagedInTime(us, c.key, c.at))
  {
    hide Run, Cooling, StagedInTime, Live;
    ClockedTake(cs, i);
    CoolingExactly(cs[..i], cs[i].key, cs[i].at);
    PendingExactly(cs[..i], cs[i].key, cs[i].at);
  }
}
