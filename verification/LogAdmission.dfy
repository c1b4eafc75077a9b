/** begin_op's reservation: enough log space for every admitted operation, no commit under an
    open operation, no sleeper left behind, and the two panics that remain. */
module LogAdmission {
  import opened Common
  import opened LogMachine
  import opened LogRefinement
  import opened LogTheorems
  import opened Sums

  /** A client that keeps to MAXOPBLOCKS new block numbers per operation. */
  predicate Frugal(s: State, l: Label)
  {
    l.LogWrite? && l.p in s.ops && l.b !in s.lh ==> s.ops[l.p] < MAXOPBLOCKS
  }

  predicate FrugalRun(s: State, ls: seq<Label>)
    decreases |ls|
  {
    ls == [] || (Frugal(s, ls[0]) && (Step(s, ls[0]).Next? ==> FrugalRun(Step(s, ls[0]).s, ls[1..])))
  }

  /** What the open operations may still add fits behind what is already logged. */
  ghost predicate Budget(s: State)
  {
    && (forall p :: p in s.ops ==> 0 <= s.ops[p] <= MAXOPBLOCKS)
    && |s.lh| + |s.ops| * MAXOPBLOCKS - Sum(s.ops) <= LOGSIZE
  }

  lemma {:induction false} SumOverBounds(ks: set<int>, m: map<int, int>)
    requires ks <= m.Keys && forall p :: p in m ==> 0 <= m[p] <= MAXOPBLOCKS
    ensures 0 <= SumOver(ks, m) <= |ks| * MAXOPBLOCKS
    decreases |ks|
  {
    if ks != {} { SumOverBounds(ks - {AnyOf(ks)}, m); }
  }

  lemma {:induction false} SumBounds(m: map<int, int>)
    requires forall p :: p in m ==> 0 <= m[p] <= MAXOPBLOCKS
    ensures 0 <= Sum(m) <= |m| * MAXOPBLOCKS
  {
    SumOverBounds(m.Keys, m);
  }

  /** A sleeper in begin_op has a reason to sleep. */
  predicate SleepersOk(s: State)
  {
    s.sleepers != {} ==> s.phase.Up() && MustWait(s)
  }

  /** What begin_op does (log.c:126-141): a process that is neither in an operation nor asleep falls
      asleep if and only if a commit is running or its ten blocks would not fit behind what is listed
      and what the open operations may still need; otherwise it is in an operation that has logged
      nothing. Nothing else changes. */
  lemma {:induction false} BeginSleepsIff(s: State, p: int)
    ensures Step(s, Begin(p)).Next? <==>
              && !s.phase.Down? && s.phase != Erase(true) && !(s.phase.Install? && s.phase.recovering)
              && p !in s.ops && p !in s.sleepers
    ensures Step(s, Begin(p)).Next? ==>
              var t := Step(s, Begin(p)).s;
              && t == s.(ops := t.ops, sleepers := t.sleepers)
              && (p in t.sleepers <==> !s.phase.Idle? || |s.lh| + (|s.ops| + 1) * MAXOPBLOCKS > LOGSIZE)
              && (p in t.sleepers ==> t.ops == s.ops && t.sleepers == s.sleepers + {p})
              && (p !in t.sleepers ==> t.ops == s.ops[p := 0] && t.sleepers == s.sleepers)
  {
  }

  lemma {:induction false} BeginBudget(s: State, p: int)
    requires Budget(s) && BeginStep(s, p).Next?
    ensures Budget(BeginStep(s, p).s)
  {
    if !MustWait(s) {
      SumPut(s.ops, p, 0);
      SumBounds(s.ops);
    }
  }

  lemma {:induction false} LogWriteBudget(s: State, p: int, b: int)
    requires Budget(s) && LogWriteStep(s, p, b).Next? && Frugal(s, LogWrite(p, b))
    ensures Budget(LogWriteStep(s, p, b).s)
  {
    SumPut(s.ops, p, s.ops[p] + 1);
  }

  lemma {:induction false} EndBudget(s: State, p: int)
    requires Budget(s) && EndStep(s, p).Next?
    ensures Budget(EndStep(s, p).s)
  {
    SumRemove(s.ops, p);
  }

  lemma {:induction false} TickBudget(s: State, a: Abs)
    requires a in Refined(s) && Budget(s) && TickStep(s).Next?
    ensures Budget(TickStep(s).s)
  {
    TickCases(s);
    assert Core(ViewOf(s), a);
  }

  lemma {:induction false} StepBudget(s: State, a: Abs, l: Label)
    requires a in Refined(s) && Budget(s) && Step(s, l).Next? && Frugal(s, l)
    ensures Budget(Step(s, l).s)
  {
    match l
    case Begin(p) => BeginBudget(s, p);
    case LogWrite(p, b) => LogWriteBudget(s, p, b);
    case End(p) => EndBudget(s, p);
    case Tick => TickBudget(s, a);
    case _ =>
  }

  /** In every run of frugal operations, whatever the interleaving and the failures, the
      in-memory header stays within LOGSIZE: the reservation alone is enough. */
  lemma {:induction false} ReservationSuffices(s: State, a: Abs, ls: seq<Label>)
    requires a in Refined(s) && Budget(s) && FrugalRun(s, ls) && Run(s, ls).Next?
    ensures Budget(Run(s, ls).s) && |Run(s, ls).s.lh| <= LOGSIZE
    decreases |ls|
  {
    if ls == [] {
      SumBounds(s.ops);
    } else {
      StepBudget(s, a, ls[0]);
      StepRefines(s, a, ls[0]);
      ReservationSuffices(Step(s, ls[0]).s, Apply(a, Effect(s, ls[0])), ls[1..]);
    }
  }

  /** log_write by a frugal operation fails exactly when the header is full or the log is. With a log
      region larger than LOGSIZE, as the comment before begin_op has it, the block is then already
      logged: the test comes before absorption. A new block is refused only in a smaller one. */
  lemma {:induction false} LogWritePanicsIff(s: State, p: int, b: int)
    requires Budget(s) && s.phase.Up() && p in s.ops && Holds(s, p, b) && Frugal(s, LogWrite(p, b))
    ensures LogWriteStep(s, p, b).Panic? <==> |s.lh| == LOGSIZE || |s.lh| >= s.lay.size - 1
    ensures LogWriteStep(s, p, b).Panic? && b !in s.lh ==> s.lay.size <= LOGSIZE
  {
    SumRemove(s.ops, p);
    SumBounds(s.ops - {p});
  }

  // ----- A run to that panic -----

  /** The first home block behind the log. */
  function Behind(lay: Layout): int
  {
    lay.start + lay.size
  }

  /** The process that logs block `k`: ten for each. */
  function Who(k: int): int
  {
    k / MAXOPBLOCKS
  }

  /** Block `k` behind the log is read, logged and released. */
  function Add(lay: Layout, k: int): seq<Label>
  {
    var p, b := Who(k), Behind(lay) + k;
    [Get(p, b), Bread(p, b), LogWrite(p, b), Brelse(p, b)]
  }

  function Adds(lay: Layout, k: nat): seq<Label>
  {
    if k == 0 then [] else Adds(lay, k - 1) + Add(lay, k - 1)
  }

  function Clamp(x: int): int
  {
    if x < 0 then 0 else if x > MAXOPBLOCKS then MAXOPBLOCKS else x
  }

  /** A machine that is up, with nothing open and nothing cached. */
  ghost predicate Fresh(s: State)
  {
    && s.phase.Idle? && s.cache == map[] && s.lh == [] && s.ops == map[] && s.sleepers == {}
    && 0 <= s.lay.start && 0 < s.lay.size && Behind(s.lay) + LOGSIZE <= |s.disk| == s.lay.total
  }

  /** How many blocks the log has room for. */
  function Room(lay: Layout): int
  {
    Least(LOGSIZE, lay.size - 1)
  }

  /** The state after the first `k` blocks behind the log were logged. */
  function Added(s: State, k: nat): State
    requires 0 <= s.lay.start && 0 < s.lay.size && Behind(s.lay) + LOGSIZE <= |s.disk| && k <= LOGSIZE
  {
    var h := Behind(s.lay);
    s.(lh := seq(k, (i: int) => h + i),
       ops := map[0 := Clamp(k), 1 := Clamp(k - MAXOPBLOCKS), 2 := Clamp(k - 2 * MAXOPBLOCKS)],
       cache := map b | h <= b < h + k :: Buf(s.disk[b], true, None, false, {}))
  }

  /** Such a machine stands for the disk it has. */
  lemma {:induction false} FreshRefined(s: State)
    requires Fresh(s) && Lists(s.disk[s.lay.start], [])
    ensures Abs(s.disk, s.disk, map[]) in Refined(s) && Budget(s) && Bounded(s)
  {
    var v := View(s.lay, s.disk, map[], [], 0, map[], [], map[], {}, true);
    assert ViewOf(s) == v;
    assert Core(v, Abs(s.disk, s.disk, map[]));
  }

  const BEGINS: seq<Label> := [Begin(0), Begin(1), Begin(2)]

  lemma {:induction false} ThreeBegin(s: State)
    requires Fresh(s)
    ensures Run(s, BEGINS) == Next(Added(s, 0)) && FrugalRun(s, BEGINS)
  {
    var s1 := s.(ops := map[0 := 0]);
    var s2 := s.(ops := map[0 := 0, 1 := 0]);
    var s3 := s.(ops := map[0 := 0, 1 := 0, 2 := 0]);
    assert Step(s, Begin(0)) == Next(s1);
    assert |s1.ops| == 1 && Step(s1, Begin(1)) == Next(s2);
    assert |s2.ops| == 2 && Step(s2, Begin(2)) == Next(s3);
    assert BEGINS[1..] == [Begin(1), Begin(2)] && BEGINS[1..][1..] == [Begin(2)] && [Begin(2)][1..] == [];
    RunOne(s2, Begin(2));
    assert Run(s1, BEGINS[1..]) == Next(s3);
    assert Added(s, 0) == s3;
    assert FrugalRun(s3, []) && FrugalRun(s2, [Begin(2)]) && FrugalRun(s1, BEGINS[1..]);
  }

  lemma {:induction false} AddedCount(s: State, k: nat)
    requires Fresh(s) && k <= LOGSIZE
    ensures |Added(s, k).cache| == k
  {
    if k > 0 {
      AddedCount(s, k - 1);
      var b, c := Behind(s.lay) + k - 1, Added(s, k - 1).cache;
      assert Added(s, k).cache == c[b := Buf(s.disk[b], true, None, false, {})] && b !in c;
    }
  }

  /** The state after process `p` has read a block that nobody has. */
  function Holding(s: State, p: int, b: int): State
    requires 0 <= b < |s.disk|
  {
    var buf := if b in s.cache then s.cache[b] else Buf(s.disk[b], false, None, false, {});
    s.(cache := s.cache[b := buf.(user := Some(p))])
  }

  /** bget and acquiresleep of a block that nobody has, with room in the cache. */
  lemma {:induction false} ReadsBlock(s: State, p: int, b: int)
    requires s.phase.Up() && p != LOGGER && Home(s.lay, b) && b < |s.disk|
    requires if b in s.cache then s.cache[b].user.None? && s.cache[b].waits == {} else |s.cache| < NBUF
    ensures Run(s, [Get(p, b), Bread(p, b)]) == Next(Holding(s, p, b)) && FrugalRun(s, [Get(p, b), Bread(p, b)])
  {
    var s1 := Step(s, Get(p, b)).s;
    var w := s1.cache[b];
    assert w.waits == {p} && w.waits - {p} == {};
    assert Step(s1, Bread(p, b)) == Next(Holding(s, p, b));
    assert [Get(p, b), Bread(p, b)][1..] == [Bread(p, b)] && [Bread(p, b)][1..] == [];
    RunOne(s1, Bread(p, b));
    assert FrugalRun(Holding(s, p, b), []) && FrugalRun(s1, [Bread(p, b)]);
  }

  /** The state between log_write and brelse of block `k`. */
  function Logging(s: State, k: nat): State
    requires 0 <= s.lay.start && 0 < s.lay.size && Behind(s.lay) + LOGSIZE <= |s.disk| && k < LOGSIZE
  {
    var t, b := Added(s, k + 1), Behind(s.lay) + k;
    t.(cache := t.cache[b := Buf(s.disk[b], true, Some(Who(k)), false, {})])
  }

  lemma {:induction false} AddMaps(s: State, k: nat)
    requires Fresh(s) && k < LOGSIZE
    ensures var p, b, t, u := Who(k), Behind(s.lay) + k, Added(s, k), Added(s, k + 1);
            && b !in t.lh && b !in t.cache && t.lh + [b] == u.lh
            && p in t.ops && t.ops[p := t.ops[p] + 1] == u.ops && t.ops[p] < MAXOPBLOCKS
            && t.cache[b := Buf(s.disk[b], true, None, false, {})] == u.cache
  {
  }

  lemma {:induction false} OneLogWrite(s: State, k: nat)
    requires Fresh(s) && k < Room(s.lay)
    ensures var p, b := Who(k), Behind(s.lay) + k;
            && Step(Holding(Added(s, k), p, b), LogWrite(p, b)) == Next(Logging(s, k))
            && Frugal(Holding(Added(s, k), p, b), LogWrite(p, b))
  {
    AddMaps(s, k);
    var p, b := Who(k), Behind(s.lay) + k;
    var t, u, buf := Holding(Added(s, k), p, b), Logging(s, k), Buf(s.disk[b], true, Some(p), false, {});
    assert Holds(t, p, b) && |t.lh| == k;
    assert t.cache[b := buf] == u.cache;
  }

  lemma {:induction false} OneBrelse(s: State, k: nat)
    requires Fresh(s) && k < LOGSIZE
    ensures Step(Logging(s, k), Brelse(Who(k), Behind(s.lay) + k)) == Next(Added(s, k + 1))
  {
    var b, t, u := Behind(s.lay) + k, Logging(s, k), Added(s, k + 1);
    assert t.cache[b := Buf(s.disk[b], true, None, false, {})] == u.cache;
  }

  lemma {:induction false} LogAndRelease(s: State, k: nat)
    requires Fresh(s) && k < Room(s.lay)
    ensures var h, ls := Holding(Added(s, k), Who(k), Behind(s.lay) + k),
                         [LogWrite(Who(k), Behind(s.lay) + k), Brelse(Who(k), Behind(s.lay) + k)];
            Run(h, ls) == Next(Added(s, k + 1)) && FrugalRun(h, ls)
  {
    var p, b := Who(k), Behind(s.lay) + k;
    OneLogWrite(s, k);
    OneBrelse(s, k);
    var h, l1, l2 := Holding(Added(s, k), p, b), LogWrite(p, b), Brelse(p, b);
    assert [l1, l2][1..] == [l2] && [l2][1..] == [];
    RunOne(Logging(s, k), l2);
    assert FrugalRun(Added(s, k + 1), []) && FrugalRun(Logging(s, k), [l2]);
  }

  /** One more block is logged. */
  lemma {:induction false} OneAdd(s: State, k: nat)
    requires Fresh(s) && k < Room(s.lay)
    ensures Run(Added(s, k), Add(s.lay, k)) == Next(Added(s, k + 1)) && FrugalRun(Added(s, k), Add(s.lay, k))
  {
    var p, b, t := Who(k), Behind(s.lay) + k, Added(s, k);
    AddedCount(s, k);
    ReadsBlock(t, p, b);
    LogAndRelease(s, k);
    assert Add(s.lay, k) == [Get(p, b), Bread(p, b)] + [LogWrite(p, b), Brelse(p, b)];
    RunAppend(t, [Get(p, b), Bread(p, b)], [LogWrite(p, b), Brelse(p, b)]);
    FrugalAppend(t, [Get(p, b), Bread(p, b)], [LogWrite(p, b), Brelse(p, b)]);
  }

  lemma {:induction false} FrugalAppend(s: State, ls: seq<Label>, ms: seq<Label>)
    requires Run(s, ls).Next? && FrugalRun(s, ls) && FrugalRun(Run(s, ls).s, ms)
    ensures FrugalRun(s, ls + ms)
    decreases |ls|
  {
    if ls == [] {
      assert ls + ms == ms;
    } else {
      assert (ls + ms)[0] == ls[0] && (ls + ms)[1..] == ls[1..] + ms;
      FrugalAppend(Step(s, ls[0]).s, ls[1..], ms);
    }
  }

  lemma {:induction false} AddsReach(s: State, k: nat)
    requires Fresh(s) && k <= Room(s.lay)
    ensures Run(Added(s, 0), Adds(s.lay, k)) == Next(Added(s, k)) && FrugalRun(Added(s, 0), Adds(s.lay, k))
    decreases k
  {
    if k > 0 {
      AddsReach(s, k - 1);
      OneAdd(s, k - 1);
      RunAppend(Added(s, 0), Adds(s.lay, k - 1), Add(s.lay, k - 1));
      FrugalAppend(Added(s, 0), Adds(s.lay, k - 1), Add(s.lay, k - 1));
    }
  }

  /** Three operations begin and log `k` blocks. */
  lemma {:induction false} AllAdded(s: State, k: nat)
    requires Fresh(s) && k <= Room(s.lay)
    ensures Run(s, BEGINS + Adds(s.lay, k)) == Next(Added(s, k)) && FrugalRun(s, BEGINS + Adds(s.lay, k))
  {
    ThreeBegin(s);
    AddsReach(s, k);
    RunAppend(s, BEGINS, Adds(s.lay, k));
    FrugalAppend(s, BEGINS, Adds(s.lay, k));
  }

  /** The block that is refused: the last one of a full header again, or the first one that the log has
      no room for. */
  function Last(lay: Layout): int
  {
    Least(Room(lay), LOGSIZE - 1)
  }

  /** Three operations begin and log blocks until log or header is full, and one of them goes on. */
  function Overflow(lay: Layout): seq<Label>
    requires lay.size > 0
  {
    var p, b := Who(Last(lay)), Behind(lay) + Last(lay);
    BEGINS + Adds(lay, Room(lay)) + ([Get(p, b), Bread(p, b)] + [LogWrite(p, b)])
  }

  /** Frugal operations reach the panic, from every machine that has just started, whatever the size of
      its log. */
  lemma {:induction false} FrugalPanics(s: State)
    requires Fresh(s)
    ensures FrugalRun(s, Overflow(s.lay)) && Run(s, Overflow(s.lay)).Panic?
  {
    var k := Room(s.lay);
    var p, b, ls := Who(Last(s.lay)), Behind(s.lay) + Last(s.lay), BEGINS + Adds(s.lay, k);
    AllAdded(s, k);
    LastPanics(s);
    RunAppend(s, ls, [Get(p, b), Bread(p, b)] + [LogWrite(p, b)]);
    FrugalAppend(s, ls, [Get(p, b), Bread(p, b)] + [LogWrite(p, b)]);
  }

  lemma {:induction false} LastPanics(s: State)
    requires Fresh(s)
    ensures var p, b, t := Who(Last(s.lay)), Behind(s.lay) + Last(s.lay), Added(s, Room(s.lay));
            && Run(t, [Get(p, b), Bread(p, b)] + [LogWrite(p, b)]).Panic?
            && FrugalRun(t, [Get(p, b), Bread(p, b)] + [LogWrite(p, b)])
            && (b in t.lh <==> s.lay.size > LOGSIZE)
  {
    var p, b, t := Who(Last(s.lay)), Behind(s.lay) + Last(s.lay), Added(s, Room(s.lay));
    AddedCount(s, Room(s.lay));
    assert s.lay.size > LOGSIZE ==> t.lh[LOGSIZE - 1] == b;
    ReadsBlock(t, p, b);
    var h := Holding(t, p, b);
    assert Holds(h, p, b) && p in h.ops && LogWriteStep(h, p, b).Panic?;
    RunOne(h, LogWrite(p, b));
    assert Frugal(h, LogWrite(p, b)) && FrugalRun(h, [LogWrite(p, b)]);
    RunAppend(t, [Get(p, b), Bread(p, b)], [LogWrite(p, b)]);
    FrugalAppend(t, [Get(p, b), Bread(p, b)], [LogWrite(p, b)]);
  }

  // ----- The panic of bget -----

  /** No more blocks are cached than there are buffers, and the committing process has called bget only
      for what it reads next. */
  ghost predicate Bounded(s: State)
  {
    |s.cache| <= NBUF && forall b {:trigger Taken(s, b)} :: Taken(s, b) ==> b in Needs(s)
  }

  /** A commit never overlaps an open operation. */
  lemma {:induction false} CommitExcludesOperations(s: State, a: Abs)
    requires a in Refined(s) && s.phase.Committing()
    ensures s.ops == map[] && a.drafts == map[]
  {
  }

  /** log_write finds the header or the log full. */
  predicate Refused(s: State, l: Label)
  {
    && l.LogWrite? && s.phase.Up() && l.p in s.ops && Holds(s, l.p, l.b)
    && (|s.lh| >= LOGSIZE || |s.lh| >= s.lay.size - 1)
  }

  /** A bread of a block that is not cached, by a process or by the commit, finds no buffer. */
  predicate Starves(s: State, l: Label)
  {
    ((l.Get? && MayGet(s, l.p, l.b)) || (l.Load? && Wants(s, l.b))) && Starved(s, l.b)
  }

  /** The only panics of any process, of the commit and of recovery: log_write on a full header or log,
      and bget without a buffer. */
  lemma {:induction false} OnlyPanic(s: State, a: Abs, l: Label)
    requires a in Refined(s)
    ensures Step(s, l).Panic? <==> Refused(s, l) || Starves(s, l)
  {
    assert Core(ViewOf(s), a);
    if l.End? {
      if s.phase.Committing() {
        CommitExcludesOperations(s, a);
      }
    } else if l.Tick? {
      TickNeverPanics(s, a);
    } else if l.Load? && Wants(s, l.b) {
      NeedsRange(s, a, l.b);
    }
  }

  lemma {:induction false} NeedsRange(s: State, a: Abs, b: int)
    requires a in Refined(s) && b in Needs(s)
    ensures 0 <= b < |s.disk| && (b == Needs(s)[0] <==> !Home(s.lay, b))
    ensures |Needs(s)| <= 2 && (|Needs(s)| == 2 ==> Needs(s)[1] in ViewOf(s).pending)
  {
    assert Core(ViewOf(s), a);
    if s.phase.WriteLog? || s.phase.Install? {
      assert Home(s.lay, s.lh[s.phase.tail]) && s.lh[s.phase.tail] in ViewOf(s).pending;
    }
  }

  lemma {:induction false} TickNeverPanics(s: State, a: Abs)
    requires a in Refined(s)
    ensures !TickStep(s).Panic?
  {
    TickCases(s);
    assert Core(ViewOf(s), a);
    assert !Home(s.lay, s.lay.start);
    if s.lay.start in s.cache { LogBlockCached(s, a, s.lay.start); }
    if s.phase.WriteLog? || s.phase.Install? { assert Home(s.lay, s.lh[s.phase.tail]); }
    if s.phase.Down? { ListsUnique(s.disk[s.lay.start], Listed(s)); }
  }

  lemma {:induction false} StepSleepers(s: State, a: Abs, l: Label)
    requires a in Refined(s) && SleepersOk(s) && Step(s, l).Next?
    ensures SleepersOk(Step(s, l).s)
  {
    if l.Tick? {
      TickSleepers(s, a);
    } else {
      OtherSleepers(s, l);
    }
  }

  lemma {:induction false} OtherSleepers(s: State, l: Label)
    requires SleepersOk(s) && Step(s, l).Next? && !l.Tick?
    ensures SleepersOk(Step(s, l).s)
  {
    match l
    case Begin(p) =>
    case LogWrite(p, b) =>
      assert LogWriteStep(s, p, b).s.ops.Keys == s.ops.Keys;
      assert |LogWriteStep(s, p, b).s.ops| == |s.ops|;
    case End(p) =>
    case Crash =>
    case _ => CacheOnly(s, l);
  }

  lemma {:induction false} CacheOnly(s: State, l: Label)
    requires Step(s, l).Next? && (l.Get? || l.Bread? || l.Modify? || l.Brelse? || l.Load? || l.Evict?)
    ensures Step(s, l).s == s.(cache := Step(s, l).s.cache)
  {
  }

  lemma {:induction false} TickSleepers(s: State, a: Abs)
    requires a in Refined(s) && SleepersOk(s) && TickStep(s).Next?
    ensures SleepersOk(TickStep(s).s)
  {
    TickCases(s);
  }

  /** No begin_op is stranded: while a process sleeps there, a commit is running or an
      operation is open, and either one wakes the sleepers when it ends. And none sleeps for
      longer: unless a commit is running, one more operation would not fit. */
  lemma {:induction false} NobodyStranded(s: State, a: Abs, ls: seq<Label>)
    requires a in Refined(s) && SleepersOk(s) && Run(s, ls).Next?
    ensures var t := Run(s, ls).s;
            && SleepersOk(t)
            && (t.sleepers != {} ==> t.phase.Committing() || (t.phase.Idle? && t.ops != map[]))
            && (t.sleepers != {} ==> !t.phase.Idle? || |t.lh| + (|t.ops| + 1) * MAXOPBLOCKS > LOGSIZE)
    decreases |ls|
  {
    if ls == [] {
      assert Core(ViewOf(s), a);
      assert s.ops == map[] ==> |s.ops| == 0;
    } else {
      StepRefines(s, a, ls[0]);
      StepSleepers(s, a, ls[0]);
      NobodyStranded(Step(s, ls[0]).s, Apply(a, Effect(s, ls[0])), ls[1..]);
    }
  }
}
