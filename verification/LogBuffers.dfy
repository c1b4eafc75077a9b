/** The log over a cache of NBUF buffers: when the commit finds no buffer for a block it has to read
    (bio.c:99), and runs in which it does. */
module LogBuffers {
  import opened Common
  import opened LogMachine
  import opened LogRefinement
  import opened LogAdmission

  // ----- Every run stays within the buffers -----

  lemma {:induction false} GetBounded(s: State, p: int, b: int)
    requires Bounded(s) && GetStep(s, p, b).Next? && (p == LOGGER ==> b in Needs(s))
    ensures Bounded(GetStep(s, p, b).s)
  {
    var s' := GetStep(s, p, b).s;
    assert Needs(s') == Needs(s);
    forall x | Taken(s', x)
      ensures x in Needs(s')
    {
      assert x != b || p != LOGGER ==> Taken(s, x);
    }
  }

  /** A step of the commit or of recovery gives back what was read for it. */
  lemma {:induction false} TickBounded(s: State)
    requires Bounded(s) && TickStep(s).Next?
    ensures |TickStep(s).s.cache| <= NBUF && forall b :: !Taken(TickStep(s).s, b)
  {
    TickCases(s);
    var s' := TickStep(s).s;
    assert s'.cache.Keys == s.cache.Keys;
    assert |s'.cache| == |s'.cache.Keys|;
    forall b
      ensures !Taken(s', b)
    {
      assert Taken(s, b) ==> b in Needs(s);
      assert Taken(s', b) ==> Taken(s, b);
    }
  }

  lemma {:induction false} LessBounded(s: State, s': State)
    requires Bounded(s) && s'.cache.Keys <= s.cache.Keys && forall b :: Taken(s', b) ==> Taken(s, b)
    requires (s'.lay == s.lay && s'.lh == s.lh && s'.phase == s.phase) || Needs(s) == []
    ensures Bounded(s')
  {
    Fewer(s.cache.Keys, s'.cache.Keys);
    assert |s'.cache| == |s'.cache.Keys| && |s.cache| == |s.cache.Keys|;
    forall b | Taken(s', b)
      ensures b in Needs(s')
    {
      assert Taken(s, b);
    }
  }

  /** The other steps call bget for no block of the commit. */
  lemma {:induction false} OtherBounded(s: State, l: Label)
    requires Bounded(s) && Step(s, l).Next? && (l.Begin? || l.Bread? || l.Brelse? || l.Evict?)
    ensures Bounded(Step(s, l).s)
  {
    match l {
      case Begin(p) => LessBounded(s, BeginStep(s, p).s);
      case Bread(p, b) => LessBounded(s, BreadStep(s, p, b).s);
      case Brelse(p, b) => LessBounded(s, BrelseStep(s, p, b).s);
      case Evict(b) => LessBounded(s, EvictStep(s, b).s);
    }
  }

  /** Neither do the steps of an open operation. */
  lemma {:induction false} OpenBounded(s: State, l: Label)
    requires Bounded(s) && Step(s, l).Next? && (l.Modify? || l.LogWrite? || l.End?) && Needs(s) == []
    ensures Bounded(Step(s, l).s)
  {
    match l {
      case Modify(p, b, data) => LessBounded(s, ModifyStep(s, p, b, data).s);
      case LogWrite(p, b) => LessBounded(s, LogWriteStep(s, p, b).s);
      case End(p) => LessBounded(s, EndStep(s, p).s);
    }
  }

  lemma {:induction false} OpenIsIdle(s: State, a: Abs, p: int)
    requires a in Refined(s) && p in s.ops
    ensures s.phase.Idle? && Needs(s) == []
  {
  }

  lemma {:induction false} Fewer(x: set<int>, y: set<int>)
    requires y <= x
    ensures |y| <= |x|
  {
    assert x == y + (x - y);
  }

  lemma {:induction false} StepBounded(s: State, a: Abs, l: Label)
    requires a in Refined(s) && Bounded(s) && Step(s, l).Next?
    ensures Bounded(Step(s, l).s)
  {
    match l
    case Get(p, b) => GetBounded(s, p, b);
    case Load(b) => GetBounded(s, LOGGER, b);
    case Tick => TickBounded(s);
    case Crash =>
    case Modify(p, _, _) => OpenIsIdle(s, a, p); OpenBounded(s, l);
    case LogWrite(p, _) => OpenIsIdle(s, a, p); OpenBounded(s, l);
    case End(p) => OpenIsIdle(s, a, p); OpenBounded(s, l);
    case _ => OtherBounded(s, l);
  }

  lemma {:induction false} RunBounded(s: State, a: Abs, ls: seq<Label>)
    requires a in Refined(s) && Bounded(s) && Run(s, ls).Next?
    ensures Bounded(Run(s, ls).s)
    decreases |ls|
  {
    if ls != [] {
      StepBounded(s, a, ls[0]);
      StepRefines(s, a, ls[0]);
      RunBounded(Step(s, ls[0]).s, Apply(a, Effect(s, ls[0])), ls[1..]);
    }
  }

  // ----- When the commit finds no buffer -----

  /** Nobody but the committing process has or waits for a buffer. */
  ghost predicate Alone(s: State)
  {
    forall b :: b in s.cache ==> s.cache[b].user.None? && s.cache[b].waits <= {LOGGER}
  }

  lemma {:induction false} SpansCount(e: seq<int>, from: int, p: map<int, int>)
    requires Spans(e, from, p) && 0 <= from <= |e|
    ensures |p| == |e| - from
    decreases |e| - from
  {
    if from < |e| {
      var q := p - {e[from]};
      assert Spans(e, from + 1, q);
      SpansCount(e, from + 1, q);
      assert p == q[e[from] := from] && e[from] !in q;
    } else {
      assert forall b :: b !in p;
      assert p == map[];
    }
  }

  /** While the system is up, the dirty buffers are those of the listed blocks that are not in place
      yet. */
  lemma {:induction false} DirtyIsPending(s: State, a: Abs, b: int)
    requires a in Refined(s)
    ensures b in s.cache && s.cache[b].dirty <==> s.phase.Up() && b in ViewOf(s).pending
    ensures |ViewOf(s).pending| == |ViewOf(s).lh| - From(s)
  {
    var v := ViewOf(s);
    assert Core(v, a);
    assert b in s.cache ==> BufOk(v, a, b, s.cache[b]);
    SpansCount(v.lh, v.from, v.pending);
  }

  lemma {:induction false} SameSize(x: set<int>, y: set<int>)
    requires x <= y && |x| >= |y|
    ensures x == y
  {
    assert y == x + (y - x);
    assert y - x == {};
    assert forall z :: z in y ==> z !in y - x;
  }

  /** With NBUF listed blocks dirty, nothing else is cached. */
  lemma {:induction false} AllDirty(s: State, a: Abs)
    requires a in Refined(s) && Bounded(s) && s.phase.Up() && |ViewOf(s).pending| == NBUF
    ensures s.cache.Keys == ViewOf(s).pending.Keys && NoBuffer(s)
  {
    var p := ViewOf(s).pending;
    forall b
      ensures b in s.cache && s.cache[b].dirty <==> b in p
    {
      DirtyIsPending(s, a, b);
    }
    assert p.Keys <= s.cache.Keys;
    SameSize(p.Keys, s.cache.Keys);
    assert |s.cache| == |s.cache.Keys| && |p| == |p.Keys|;
  }

  /** Without anybody else, what keeps bget from a buffer are the dirty ones and what was read already. */
  lemma {:induction false} FullOfDirty(s: State, a: Abs, b: int)
    requires a in Refined(s) && Bounded(s) && Alone(s) && Wants(s, b) && b !in s.cache && NoBuffer(s)
    ensures s.phase.Up() && b == Needs(s)[0] && |ViewOf(s).pending| == NBUF
  {
    var p := ViewOf(s).pending;
    NeedsRange(s, a, b);
    forall x | x in s.cache
      ensures (s.phase.Up() && x in p) || x in Needs(s)
    {
      DirtyIsPending(s, a, x);
      assert !Recyclable(s.cache[x]);
      assert LOGGER !in s.cache[x].waits ==> s.cache[x].waits == {};
      assert Taken(s, x) ==> x in Needs(s);
    }
    if !s.phase.Up() {
      TwoNeeds(s, s.cache.Keys);
    } else {
      forall x
        ensures x in p ==> x in s.cache
      {
        DirtyIsPending(s, a, x);
      }
      forall x | x in s.cache
        ensures x in p
      {
        assert x != b;
      }
      assert s.cache.Keys == p.Keys;
      assert |s.cache| == |s.cache.Keys| && |p| == |p.Keys|;
    }
  }

  lemma {:induction false} TwoNeeds(s: State, x: set<int>)
    requires |Needs(s)| <= 2 && forall b :: b in x ==> b in Needs(s)
    ensures |x| <= 2
  {
    var n := Needs(s);
    var y := if |n| == 0 then {} else if |n| == 1 then {n[0]} else {n[0], n[1]};
    forall b | b in x
      ensures b in y
    {
      var i :| 0 <= i < |n| && n[i] == b;
      assert i == 0 || i == 1;
    }
    Fewer(y, x);
  }

  /** With nobody else at the buffers, a read of the commit or of recovery panics if and only if it is
      the first one of a block of the commit and NBUF listed blocks are not in place yet: never in
      recovery, and never when the log region has at most NBUF blocks. */
  lemma {:induction false} CommitPanicsIff(s: State, a: Abs, b: int)
    requires a in Refined(s) && Bounded(s) && Alone(s) && Wants(s, b)
    ensures Step(s, Load(b)).Panic? <==> s.phase.Up() && b == Needs(s)[0] && |s.lh| - From(s) == NBUF
    ensures s.lay.size <= NBUF ==> !Step(s, Load(b)).Panic?
  {
    NeedsRange(s, a, b);
    DirtyIsPending(s, a, b);
    assert Core(ViewOf(s), a);
    if b !in s.cache && NoBuffer(s) {
      FullOfDirty(s, a, b);
    }
    if s.phase.Up() && b == Needs(s)[0] && |s.lh| - From(s) == NBUF {
      AllDirty(s, a);
      assert b in ViewOf(s).pending ==> Home(s.lay, b) by {
        NoDraft(ViewOf(s), a, b);
      }
    }
  }

  /** What end_op of the last operation can tell beforehand: with nobody at the buffers its commit will
      find no buffer if and only if NBUF blocks are listed. */
  lemma {:induction false} StarvedIff(s: State, a: Abs)
    requires a in Refined(s) && Bounded(s) && s.phase.Idle? && s.lay.size > 1
    requires forall b :: b in s.cache ==> s.cache[b].user.None? && s.cache[b].waits == {}
    ensures Starved(s, s.lay.start + 1) <==> |s.lh| == NBUF
    ensures s.lay.size <= NBUF ==> !Starved(s, s.lay.start + 1)
  {
    var p, b := ViewOf(s).pending, s.lay.start + 1;
    assert Core(ViewOf(s), a) && !Home(s.lay, b);
    DirtyIsPending(s, a, b);
    NoDraft(ViewOf(s), a, b);
    if |s.lh| == NBUF {
      AllDirty(s, a);
    }
    if NoBuffer(s) {
      forall x
        ensures x in s.cache <==> x in p
      {
        DirtyIsPending(s, a, x);
        assert x in s.cache ==> !Recyclable(s.cache[x]);
      }
      assert s.cache.Keys == p.Keys;
      assert |s.cache| == |s.cache.Keys| && |p| == |p.Keys|;
    }
  }

  // ----- Runs to it -----

  const ENDS: seq<Label> := [End(0), End(1), End(2)]

  /** The state at the start of the commit of `k` blocks. */
  function Ended(s: State): State
  {
    s.(ops := map[], sleepers := {}, phase := WriteLog(0))
  }

  /** Three operations are open, and nothing that was changed has not been logged. */
  ghost predicate AtEnd(s: State)
  {
    && s.phase.Idle? && s.ops.Keys == {0, 1, 2} && |s.lh| > 0
    && forall b :: b in s.cache ==> !s.cache[b].touched
  }

  lemma {:induction false} ThreeEnd(s: State)
    requires AtEnd(s)
    ensures Run(s, ENDS) == Next(Ended(s)) && FrugalRun(s, ENDS)
  {
    var s1 := s.(ops := s.ops - {0}, sleepers := {});
    var s2 := s1.(ops := s1.ops - {1});
    assert 1 in s1.ops && Step(s, End(0)) == Next(s1);
    assert 2 in s2.ops && !HoldsTouched(s1, 1) && Step(s1, End(1)) == Next(s2);
    assert s2.ops - {2} == map[] && !HoldsTouched(s2, 2) && Step(s2, End(2)) == Next(Ended(s));
    assert ENDS[1..] == [End(1), End(2)] && ENDS[1..][1..] == [End(2)] && [End(2)][1..] == [];
    RunOne(s2, End(2));
    assert Run(s1, ENDS[1..]) == Next(Ended(s));
    assert FrugalRun(Ended(s), []) && FrugalRun(s2, [End(2)]) && FrugalRun(s1, ENDS[1..]);
  }

  /** The commit of a state in which every buffer is dirty or held panics at its first read. */
  lemma {:induction false} EndsPanics(s: State)
    requires AtEnd(s) && NoBuffer(s)
    requires 0 <= s.lay.start + 1 < |s.disk| && s.lay.start + 1 !in s.cache
    ensures Run(s, ENDS + [Load(s.lay.start + 1)]).Panic? && FrugalRun(s, ENDS + [Load(s.lay.start + 1)])
  {
    ThreeEnd(s);
    var t, l := Ended(s), Load(s.lay.start + 1);
    assert NoBuffer(t) && Wants(t, l.b) && Step(t, l).Panic?;
    RunOne(t, l);
    assert FrugalRun(t, [l]);
    RunAppend(s, ENDS, [l]);
    FrugalAppend(s, ENDS, [l]);
  }

  /** After `k` blocks were logged and released, exactly these are cached, and dirty. */
  lemma {:induction false} AddedFull(s: State, k: nat)
    requires Fresh(s) && 0 < k <= LOGSIZE && s.lay.size > 1
    ensures var t := Added(s, k);
            && AtEnd(t) && t.lay == s.lay && t.disk == s.disk && s.lay.start + 1 !in t.cache && |t.cache| == k
            && (forall b :: b in t.cache <==> Behind(s.lay) <= b < Behind(s.lay) + k)
            && (forall b :: b in t.cache ==> t.cache[b].dirty)
  {
    AddedCount(s, k);
  }

  /** What is logged first, and then leads to a panic. */
  lemma {:induction false} ThenPanics(s: State, k: nat, ms: seq<Label>)
    requires Fresh(s) && k <= Room(s.lay) && Run(Added(s, k), ms).Panic? && FrugalRun(Added(s, k), ms)
    ensures Run(s, BEGINS + Adds(s.lay, k) + ms).Panic? && FrugalRun(s, BEGINS + Adds(s.lay, k) + ms)
  {
    AllAdded(s, k);
    RunAppend(s, BEGINS + Adds(s.lay, k), ms);
    FrugalAppend(s, BEGINS + Adds(s.lay, k), ms);
  }

  /** In a log region larger than LOGSIZE, three operations of ten blocks each leave NBUF dirty buffers,
      and the commit panics. Nobody has a buffer. */
  lemma {:induction false} CommitPanics(s: State)
    requires Fresh(s) && s.lay.size > LOGSIZE
    ensures var ls := BEGINS + Adds(s.lay, Room(s.lay)) + (ENDS + [Load(s.lay.start + 1)]);
            FrugalRun(s, ls) && Run(s, ls).Panic?
  {
    var k := Room(s.lay);
    AddedFull(s, k);
    EndsPanics(Added(s, k));
    ThenPanics(s, k, ENDS + [Load(s.lay.start + 1)]);
  }

  lemma {:induction false} HeldFull(s: State, k: nat, c: int)
    requires Fresh(s) && 0 < k == NBUF - 1 && s.lay.size > 1 && c == Behind(s.lay) + k
    ensures var t, ms := Added(s, k), [Get(3, c), Bread(3, c)] + (ENDS + [Load(s.lay.start + 1)]);
            Run(t, ms).Panic? && FrugalRun(t, ms)
  {
    var t, r, ms := Added(s, k), [Get(3, c), Bread(3, c)], ENDS + [Load(s.lay.start + 1)];
    AddedFull(s, k);
    ReadsBlock(t, 3, c);
    var u := Holding(t, 3, c);
    assert |u.cache| == NBUF && AtEnd(u);
    EndsPanics(u);
    RunAppend(t, r, ms);
    FrugalAppend(t, r, ms);
  }

  /** In the log region that mkfs makes, a full log is enough when a process outside any operation has a
      buffer. */
  lemma {:induction false} ReaderPanics(s: State)
    requires Fresh(s) && s.lay.size == LOGSIZE
    ensures var c := Behind(s.lay) + Room(s.lay);
            var ms := [Get(3, c), Bread(3, c)] + (ENDS + [Load(s.lay.start + 1)]);
            var ls := BEGINS + Adds(s.lay, Room(s.lay)) + ms;
            FrugalRun(s, ls) && Run(s, ls).Panic?
  {
    var k, c := Room(s.lay), Behind(s.lay) + Room(s.lay);
    HeldFull(s, k, c);
    ThenPanics(s, k, [Get(3, c), Bread(3, c)] + (ENDS + [Load(s.lay.start + 1)]));
  }

  // ----- Operations that overlap -----

  /** Never more than three operations are open. */
  lemma {:induction false} StepAtMostThree(s: State, l: Label)
    requires |s.ops| <= 3 && Step(s, l).Next?
    ensures |Step(s, l).s.ops| <= 3
  {
    var t := Step(s, l).s;
    match l {
      case Begin(p) => BeginSleepsIff(s, p);
      case LogWrite(p, b) =>
        assert LogWriteStep(s, p, b).s.ops.Keys == s.ops.Keys;
        assert |t.ops| == |t.ops.Keys| && |s.ops| == |s.ops.Keys|;
      case End(p) =>
        assert t.ops.Keys <= s.ops.Keys;
        Fewer(s.ops.Keys, t.ops.Keys);
        assert |t.ops| == |t.ops.Keys| && |s.ops| == |s.ops.Keys|;
      case Tick => TickOps(s);
      case _ =>
    }
  }

  lemma {:induction false} TickOps(s: State)
    requires TickStep(s).Next?
    ensures TickStep(s).s.ops == s.ops
  {
  }

  lemma {:induction false} AtMostThree(s: State, ls: seq<Label>)
    requires |s.ops| <= 3 && Run(s, ls).Next?
    ensures |Run(s, ls).s.ops| <= 3
    decreases |ls|
  {
    if ls != [] {
      StepAtMostThree(s, ls[0]);
      AtMostThree(Step(s, ls[0]).s, ls[1..]);
    }
  }

  /** Three may be: they begin together, log `k` blocks between them, and all of them go into one commit
      when the last one ends. */
  lemma {:induction false} ThreeCommit(s: State, k: nat)
    requires Fresh(s) && 0 < k <= Room(s.lay)
    ensures Run(s, BEGINS + Adds(s.lay, k)) == Next(Added(s, k)) && Added(s, k).ops.Keys == {0, 1, 2}
    ensures Run(s, BEGINS + Adds(s.lay, k) + ENDS) == Next(Ended(Added(s, k)))
  {
    AllAdded(s, k);
    ThreeEnd(Added(s, k));
    RunAppend(s, BEGINS + Adds(s.lay, k), ENDS);
  }

  /** Process `p` logs a block it has. */
  lemma {:induction false} LogsBlock(s: State, p: int, b: int)
    requires s.phase.Idle? && p in s.ops && Holds(s, p, b) && b !in s.lh && |s.lh| < LOGSIZE && |s.lh| < s.lay.size - 1
    requires !s.cache[b].touched
    ensures var buf := s.cache[b].(dirty := true, user := None);
            Run(s, [LogWrite(p, b), Brelse(p, b)])
            == Next(s.(lh := s.lh + [b], ops := s.ops[p := s.ops[p] + 1], cache := s.cache[b := buf]))
  {
    var mid := s.(lh := s.lh + [b], ops := s.ops[p := s.ops[p] + 1], cache := s.cache[b := s.cache[b].(dirty := true)]);
    assert Step(s, LogWrite(p, b)) == Next(mid);
    var u := s.(lh := s.lh + [b], ops := s.ops[p := s.ops[p] + 1],
                cache := s.cache[b := s.cache[b].(dirty := true, user := None)]);
    assert mid.cache[b := mid.cache[b].(user := None)] == u.cache;
    assert Step(mid, Brelse(p, b)) == Next(u);
    assert [LogWrite(p, b), Brelse(p, b)][1..] == [Brelse(p, b)];
    RunOne(mid, Brelse(p, b));
  }

  /** A process reads and logs a block that is not cached. */
  lemma {:induction false} AddsBlock(s: State, p: int, b: int)
    requires s.phase.Idle? && p in s.ops && p != LOGGER && Home(s.lay, b) && b < |s.disk| && b !in s.cache
    requires |s.cache| < NBUF && b !in s.lh && |s.lh| < LOGSIZE && |s.lh| < s.lay.size - 1
    ensures Run(s, [Get(p, b), Bread(p, b)] + [LogWrite(p, b), Brelse(p, b)])
            == Next(s.(lh := s.lh + [b], ops := s.ops[p := s.ops[p] + 1],
                       cache := s.cache[b := Buf(s.disk[b], true, None, false, {})]))
  {
    ReadsBlock(s, p, b);
    var h := Holding(s, p, b);
    LogsBlock(h, p, b);
    assert h.cache[b := Buf(s.disk[b], true, None, false, {})] == s.cache[b := Buf(s.disk[b], true, None, false, {})];
    RunAppend(s, [Get(p, b), Bread(p, b)], [LogWrite(p, b), Brelse(p, b)]);
  }

  /** Process 0 begins and logs a block, and then process 1 begins. */
  function Overlap(lay: Layout): seq<Label>
  {
    var b := Behind(lay);
    [Begin(0)] + ([Get(0, b), Bread(0, b)] + [LogWrite(0, b), Brelse(0, b)]) + [Begin(1)]
  }

  /** A second operation begins although the first one has logged; a third one then has to wait. */
  lemma {:induction false} SecondOverlaps(s: State)
    requires Fresh(s) && s.lay.size > 1
    ensures Run(s, Overlap(s.lay)).Next?
    ensures var t := Run(s, Overlap(s.lay)).s;
            && t.ops == map[0 := 1, 1 := 0] && t.lh == [Behind(s.lay)] && t.sleepers == {}
            && Step(t, Begin(2)).Next? && Step(t, Begin(2)).s.sleepers == {2}
  {
    var b, s1 := Behind(s.lay), s.(ops := map[0 := 0]);
    assert |s.ops| == 0 && Step(s, Begin(0)) == Next(s1);
    RunOne(s, Begin(0));
    AddsBlock(s1, 0, b);
    var ls := [Get(0, b), Bread(0, b)] + [LogWrite(0, b), Brelse(0, b)];
    RunAppend(s, [Begin(0)], ls);
    var s2 := Run(s1, ls).s;
    assert s2.lh == [b] && s2.ops == map[0 := 1];
    SecondBegins(s2);
    RunOne(s2, Begin(1));
    RunAppend(s, [Begin(0)] + ls, [Begin(1)]);
  }

  lemma {:induction false} SecondBegins(s: State)
    requires s.phase.Idle? && |s.lh| == 1 && s.ops == map[0 := 1] && s.sleepers == {}
    ensures var t := s.(ops := map[0 := 1, 1 := 0]);
            && Step(s, Begin(1)) == Next(t)
            && Step(t, Begin(2)) == Next(t.(sleepers := {2}))
  {
    var t := s.(ops := map[0 := 1, 1 := 0]);
    assert |s.ops| == 1 && s.ops[1 := 0] == t.ops;
    assert |t.ops| == 2;
  }
}
