/** Streaming two recorder tables in timestamp order, skipping quarantined times on the way. */
module EventMerge {
  import opened Sorting
  import opened Quarantine
  import opened Trades

  datatype PmRow = PmRow(ts: int, sub: Option<string>, etype: string, asset: Option<string>, size: real)

  datatype CexRow = CexRow(ts: int, symbol: string, size: real)

  /** `size` is the size in the payload, 0 if it is missing or malformed. */
  datatype Event = Event(kind: string, ts: int, sub: Option<string>, asset: Option<string>, size: real)

  function KindOf(etype: string): string {
    if etype == "book" then "pm_book"
    else if etype == "price_change" then "pm_price"
    else if etype == "last_trade_price" then "pm_trade"
    else if etype == "best_bid_ask" then "pm_price"
    else if etype == "reconnect" then "reconnect"
    else "pm_" + etype
  }

  function FromPm(r: PmRow): Event {
    Event(KindOf(r.etype), r.ts, r.sub, r.asset, r.size)
  }

  function FromCex(r: CexRow): Event {
    Event("cex_trade", r.ts, None, Some(r.symbol), r.size)
  }

  function PmEvents(rows: seq<PmRow>): seq<Event> {
    seq(|rows|, i requires 0 <= i < |rows| => FromPm(rows[i]))
  }

  function CexEvents(rows: seq<CexRow>): seq<Event> {
    seq(|rows|, i requires 0 <= i < |rows| => FromCex(rows[i]))
  }

  predicate TimeLe(a: Event, b: Event) {
    a.ts <= b.ts
  }

  lemma TimeOrder()
    ensures Preorder(TimeLe)
  {
  }

  predicate IsPm(e: Event) {
    e.kind != "cex_trade"
  }

  function Kept(es: seq<Event>, q: seq<Range>): seq<Event> {
    Filter(es, (e: Event) => !Covered(e.ts, q))
  }

  /** What remains to be read, if the smaller head goes first and the Polymarket row on ties. */
  function Merge(pm: seq<Event>, cex: seq<Event>): seq<Event>
    decreases |pm| + |cex|
  {
    if pm == [] then cex
    else if cex == [] then pm
    else if pm[0].ts <= cex[0].ts then [pm[0]] + Merge(pm[1..], cex)
    else [cex[0]] + Merge(pm, cex[1..])
  }

  lemma KeptCons(e: Event, es: seq<Event>, q: seq<Range>)
    ensures Kept([e] + es, q) == (if Covered(e.ts, q) then [] else [e]) + Kept(es, q)
  {
    FilterConcat([e], es, (e: Event) => !Covered(e.ts, q));
    assert [e][..0] == [];
  }

  lemma MergeHead(pm: seq<Event>, cex: seq<Event>, usePm: bool)
    requires pm != [] || cex != []
    requires usePm <==> pm != [] && (cex == [] || pm[0].ts <= cex[0].ts)
    ensures Merge(pm, cex) == if usePm then [pm[0]] + Merge(pm[1..], cex) else [cex[0]] + Merge(pm, cex[1..])
  {
    if usePm && cex == [] { assert pm == [pm[0]] + pm[1..]; }
    if !usePm && pm == [] { assert cex == [cex[0]] + cex[1..]; }
  }

  /** The two-cursor loop: it ends, and it yields the merge without the quarantined events. */
  method IterEvents(pmRows: seq<PmRow>, cexRows: seq<CexRow>, quarantine: seq<Range>) returns (out: seq<Event>)
    ensures out == Kept(Merge(PmEvents(pmRows), CexEvents(cexRows)), quarantine)
  {
    hide Kept, Merge, Covered;
    ghost var pm, cex := PmEvents(pmRows), CexEvents(cexRows);
    assert pm[0..] == pm && cex[0..] == cex;
    out := [];
    var i, j := 0, 0;
    while i < |pmRows| || j < |cexRows|
      invariant 0 <= i <= |pmRows| && 0 <= j <= |cexRows|
      invariant out + Kept(Merge(pm[i..], cex[j..]), quarantine) == Kept(Merge(pm, cex), quarantine)
      decreases |pmRows| - i + |cexRows| - j
    {
      var usePm := i < |pmRows| && (j == |cexRows| || pmRows[i].ts <= cexRows[j].ts);
      var e := if usePm then FromPm(pmRows[i]) else FromCex(cexRows[j]);
      KeptStep(pm, cex, i, j, usePm, quarantine);
      if usePm { i := i + 1; } else { j := j + 1; }
      if quarantine != [] {
        var skip := InQuarantine(e.ts, quarantine);
        if skip {
          continue;
        }
      } else {
        NothingCovered();
      }
      out := out + [e];
    }
    NothingKept(quarantine);
    assert pm[i..] == [] && cex[j..] == [];
  }

  lemma NothingKept(q: seq<Range>)
    ensures Kept(Merge([], []), q) == []
  {
  }

  lemma KeptStep(pm: seq<Event>, cex: seq<Event>, i: nat, j: nat, usePm: bool, q: seq<Range>)
    requires i <= |pm| && j <= |cex| && (i < |pm| || j < |cex|)
    requires usePm <==> i < |pm| && (j == |cex| || pm[i].ts <= cex[j].ts)
    ensures var e := if usePm then pm[i] else cex[j];
      Kept(Merge(pm[i..], cex[j..]), q) ==
      (if Covered(e.ts, q) then [] else [e]) +
      Kept(if usePm then Merge(pm[i + 1..], cex[j..]) else Merge(pm[i..], cex[j + 1..]), q)
  {
    hide Kept, Merge, Covered;
    MergeHead(pm[i..], cex[j..], usePm);
    if usePm {
      assert pm[i..][1..] == pm[i + 1..];
      KeptCons(pm[i], Merge(pm[i + 1..], cex[j..]), q);
    } else {
      assert cex[j..][1..] == cex[j + 1..];
      KeptCons(cex[j], Merge(pm[i..], cex[j + 1..]), q);
    }
  }

  // ----- the merge is the stable sort of both streams -----

  lemma {:induction false} InsertCons(s: seq<Event>, x: Event, t: Event)
    requires Sorted(TimeLe, [x] + s) && TimeLe(x, t)
    ensures Insert(TimeLe, [x] + s, t) == [x] + Insert(TimeLe, s, t)
  {
    if s == [] {
      assert [x] + s == [x];
    } else {
      var n := |s| - 1;
      assert ([x] + s)[..n + 1] == [x] + s[..n];
      assert ([x] + s)[n + 1] == s[n];
      if !TimeLe(s[n], t) {
        SortedPart([x] + s, n + 1);
        InsertCons(s[..n], x, t);
      }
    }
  }

  lemma SortedPart(s: seq<Event>, n: nat)
    requires Sorted(TimeLe, s) && n <= |s|
    ensures Sorted(TimeLe, s[..n]) && Sorted(TimeLe, s[n..])
  {
  }

  lemma {:induction false} InsertFirst(s: seq<Event>, t: Event)
    requires forall x :: x in s ==> !TimeLe(x, t)
    ensures Insert(TimeLe, s, t) == [t] + s
  {
    if s != [] {
      InsertFirst(s[..|s| - 1], t);
    }
  }

  lemma {:induction false} MergeSorted(pm: seq<Event>, cex: seq<Event>)
    requires Sorted(TimeLe, pm) && Sorted(TimeLe, cex)
    ensures Sorted(TimeLe, Merge(pm, cex))
    decreases |pm| + |cex|
  {
    if pm != [] && cex != [] {
      SortedPart(pm, 1);
      SortedPart(cex, 1);
      if pm[0].ts <= cex[0].ts {
        MergeSorted(pm[1..], cex);
        MergeAfter(pm[1..], cex, pm[0]);
      } else {
        MergeSorted(pm, cex[1..]);
        MergeAfter(pm, cex[1..], cex[0]);
      }
    }
  }

  lemma {:induction false} MergeAfter(pm: seq<Event>, cex: seq<Event>, t: Event)
    requires (forall x :: x in pm ==> TimeLe(t, x)) && (forall x :: x in cex ==> TimeLe(t, x))
    ensures forall x :: x in Merge(pm, cex) ==> TimeLe(t, x)
    decreases |pm| + |cex|
  {
    if pm != [] && cex != [] {
      if pm[0].ts <= cex[0].ts { MergeAfter(pm[1..], cex, t); } else { MergeAfter(pm, cex[1..], t); }
    }
  }

  /** A row later than all of its stream is merged by inserting it after everything not later. */
  lemma {:induction false} MergeLast(pm: seq<Event>, cex: seq<Event>, c: Event)
    requires Sorted(TimeLe, pm) && Sorted(TimeLe, cex + [c])
    ensures Merge(pm, cex + [c]) == Insert(TimeLe, Merge(pm, cex), c)
    decreases |pm| + |cex|
  {
    assert (cex + [c])[..|cex|] == cex && (cex + [c])[|cex|] == c;
    SortedPart(cex + [c], |cex|);
    if pm == [] {
      if cex != [] { assert TimeLe((cex + [c])[|cex| - 1], c); }
    } else {
      SortedPart(pm, 1);
      assert pm == [pm[0]] + pm[1..];
      if cex == [] {
        assert cex + [c] == [c] && [c][1..] == [];
        if pm[0].ts <= c.ts {
          MergeLast(pm[1..], [], c);
          InsertCons(pm[1..], pm[0], c);
        } else {
          InsertFirst(pm, c);
        }
      } else {
        MergeSorted(pm, cex);
        assert (cex + [c])[0] == cex[0] && TimeLe((cex + [c])[0], c);
        if pm[0].ts <= cex[0].ts {
          MergeLast(pm[1..], cex, c);
          InsertCons(Merge(pm[1..], cex), pm[0], c);
        } else {
          SortedPart(cex + [c], 1);
          assert (cex + [c])[1..] == cex[1..] + [c];
          MergeLast(pm, cex[1..], c);
          InsertCons(Merge(pm, cex[1..]), cex[0], c);
        }
      }
    }
  }

  lemma {:induction false} MergeIsStableSort(pm: seq<Event>, cex: seq<Event>)
    requires Sorted(TimeLe, pm) && Sorted(TimeLe, cex)
    ensures Merge(pm, cex) == Sort(TimeLe, pm + cex)
    decreases |cex|
  {
    hide Insert;
    if cex == [] {
      assert pm + cex == pm;
      SortIdentity(TimeLe, pm);
    } else {
      hide Merge;
      var n := |cex| - 1;
      assert cex == cex[..n] + [cex[n]];
      assert (pm + cex)[..|pm| + n] == pm + cex[..n];
      MergeIsStableSort(pm, cex[..n]);
      MergeLast(pm, cex[..n], cex[n]);
    }
  }

  ghost predicate AscendingRows(pmRows: seq<PmRow>, cexRows: seq<CexRow>) {
    Sorted(TimeLe, PmEvents(pmRows)) && Sorted(TimeLe, CexEvents(cexRows))
  }

  /**
   * For rows in time order: filtering inside the merge loop equals filtering the stable sort of
   * both streams (Polymarket first on ties), and equals merging the filtered streams.
   */
  lemma InlineFilterIsExact(pm: seq<Event>, cex: seq<Event>, q: seq<Range>)
    requires Sorted(TimeLe, pm) && Sorted(TimeLe, cex)
    ensures Kept(Merge(pm, cex), q) == Kept(Sort(TimeLe, pm + cex), q)
    ensures Kept(Merge(pm, cex), q) == Merge(Kept(pm, q), Kept(cex, q))
    ensures Sorted(TimeLe, Kept(Merge(pm, cex), q))
  {
    var keep := (e: Event) => !Covered(e.ts, q);
    TimeOrder();
    MergeIsStableSort(pm, cex);
    SortFilter(TimeLe, pm + cex, keep);
    FilterConcat(pm, cex, keep);
    FilterSorted(TimeLe, pm, keep);
    FilterSorted(TimeLe, cex, keep);
    MergeIsStableSort(Kept(pm, q), Kept(cex, q));
    SortSorts(TimeLe, Kept(pm, q) + Kept(cex, q));
  }

  /** Each stream comes out in its own order, with nothing lost or repeated but the quarantined rows. */
  lemma MergeKeepsStreams(pmRows: seq<PmRow>, cexRows: seq<CexRow>, q: seq<Range>)
    requires AscendingRows(pmRows, cexRows)
    ensures var out := Kept(Merge(PmEvents(pmRows), CexEvents(cexRows)), q);
      && Filter(out, IsPm) == Kept(PmEvents(pmRows), q)
      && Filter(out, (e: Event) => !IsPm(e)) == Kept(CexEvents(cexRows), q)
      && |out| == |Kept(PmEvents(pmRows), q)| + |Kept(CexEvents(cexRows), q)|
  {
    var pm, cex := PmEvents(pmRows), CexEvents(cexRows);
    var keep := (e: Event) => !Covered(e.ts, q);
    var kp, kc := Kept(pm, q), Kept(cex, q);
    InlineFilterIsExact(pm, cex, q);
    TimeOrder();
    FilterSorted(TimeLe, pm, keep);
    FilterSorted(TimeLe, cex, keep);
    MergeIsStableSort(kp, kc);
    FilterMembers(pm, keep);
    FilterMembers(cex, keep);
    forall e | e in kp ensures IsPm(e) { PmKinds(pmRows, e); }
    forall e | e in kc ensures !IsPm(e) {}
    Project(kp, kc, IsPm);
    Project(kp, kc, (e: Event) => !IsPm(e));
    FilterAll(kp, IsPm);
    FilterNone(kc, IsPm);
    FilterNone(kp, (e: Event) => !IsPm(e));
    FilterAll(kc, (e: Event) => !IsPm(e));
    SortIdentity(TimeLe, kp);
    SortIdentity(TimeLe, kc);
    assert kp + [] == kp && [] + kc == kc;
    SortElements(TimeLe, kp + kc);
    assert |Sort(TimeLe, kp + kc)| == |multiset(Sort(TimeLe, kp + kc))| == |multiset(kp + kc)|;
  }

  lemma PmKinds(pmRows: seq<PmRow>, e: Event)
    requires e in PmEvents(pmRows)
    ensures IsPm(e)
  {
    assert "cex_trade"[0] == 'c';
    assert e.kind[0] == 'p' || e.kind[0] == 'r';
  }

  lemma Project(kp: seq<Event>, kc: seq<Event>, p: Event -> bool)
    ensures Filter(Sort(TimeLe, kp + kc), p) == Sort(TimeLe, Filter(kp, p) + Filter(kc, p))
  {
    TimeOrder();
    SortFilter(TimeLe, kp + kc, p);
    FilterConcat(kp, kc, p);
  }
}
