/** What every run of the log keeps: what readers see, what power failures leave behind, and
    what begin_op's reservation buys. */
module LogTheorems {
  import opened LogMachine
  import opened LogRefinement

  // ----- Readers and the disk -----

  /** Whatever ran before, bread returns the data last logged. */
  lemma {:induction false} ReadsSeeLastLogged(s: State, a: Abs, ls: seq<Label>, p: int, b: int)
    requires a in Refined(s) && Run(s, ls).Next? && Step(Run(s, ls).s, Bread(p, b)).Next?
    ensures |AbsRun(s, a, ls).current| == |Run(s, ls).s.disk| && 0 <= b < |Run(s, ls).s.disk|
    ensures var t := Step(Run(s, ls).s, Bread(p, b)).s;
            b in t.cache && t.cache[b].data == AbsRun(s, a, ls).current[b]
  {
    RunRefines(s, a, ls);
    BreadRefines(Run(s, ls).s, AbsRun(s, a, ls), p, b);
  }

  /** Only installing a committed transaction changes a home block on disk, and it writes the
      durable contents there. */
  lemma {:induction false} HomeChangesOnlyByInstall(s: State, a: Abs, l: Label, b: int)
    requires a in Refined(s) && Step(s, l).Next? && Home(s.lay, b)
    ensures 0 <= b < |s.disk| == |Step(s, l).s.disk| == |a.durable|
    ensures Step(s, l).s.disk[b] != s.disk[b] ==>
              l.Tick? && s.phase.Install? && b == s.lh[s.phase.tail] && Step(s, l).s.disk[b] == a.durable[b]
  {
    assert Core(ViewOf(s), a);
    if l.Tick? { TickDisk(s, a, b); }
  }

  lemma {:induction false} TickDisk(s: State, a: Abs, b: int)
    requires a in Refined(s) && TickStep(s).Next? && Home(s.lay, b)
    ensures 0 <= b < |s.disk| == |TickStep(s).s.disk| == |a.durable|
    ensures TickStep(s).s.disk[b] != s.disk[b] ==>
              s.phase.Install? && b == s.lh[s.phase.tail] && TickStep(s).s.disk[b] == a.durable[b]
  {
    TickCases(s);
    assert Core(ViewOf(s), a);
    if s.phase.Install? {
      assert !Home(s.lay, s.lay.start + 1 + s.phase.tail);
      LogBlockCached(s, a, s.lay.start + 1 + s.phase.tail);
    }
  }

  // ----- Power failures -----

  /** The labels of the committing process, of recovery, of the cache and of the power. */
  predicate Internal(l: Label)
  {
    l.Tick? || l.Load? || l.Evict? || l.Crash?
  }

  function TicksBeforeCrash(ls: seq<Label>): (k: int)
    ensures 0 <= k <= |ls|
    decreases |ls|
  {
    if ls == [] || ls[0].Crash? then 0
    else (if ls[0].Tick? then 1 else 0) + TicksBeforeCrash(ls[1..])
  }

  /** How many block writes are left before the header write is done. */
  function TicksToCommit(s: State): int
  {
    match s.phase
    case WriteLog(t) => |s.lh| - t + 1
    case WriteHead => 1
    case _ => 0
  }

  /** Once nothing is open and nothing is pending, the home blocks are both the current and
      the durable contents. */
  lemma {:induction false} Settled(s: State, a: Abs, b: int)
    requires a in Refined(s) && Home(s.lay, b)
    requires (s.phase.Idle? && s.ops == map[]) || s.phase.Finish?
    ensures 0 <= b < |s.disk| == |a.current| == |a.durable|
    ensures s.disk[b] == a.current[b] == a.durable[b]
  {
    assert Core(ViewOf(s), a);
  }

  lemma {:induction false} TickShape(s: State, a: Abs)
    requires a in Refined(s) && TickStep(s).Next? && s.ops == map[]
    ensures var s' := TickStep(s).s;
            && s'.ops == map[] && s'.lay == s.lay && |a.durable| == |a.current| == s.lay.total
            && (TicksToCommit(s) > 0 ==> TicksToCommit(s') == TicksToCommit(s) - 1)
            && (TicksToCommit(s) == 0 ==> TicksToCommit(s') == 0)
            && (s.phase.WriteHead? <==> TicksToCommit(s) == 1)
  {
    TickCases(s);
    assert Core(ViewOf(s), a);
  }

  /** Whether a committing state is past its header write, its home blocks hold the same in
      both contents. */
  ghost predicate PastCommit(s: State, a: Abs)
  {
    TicksToCommit(s) == 0 ==> |a.durable| == |a.current| && forall b {:trigger Home(s.lay, b)} ::
      Home(s.lay, b) && 0 <= b < |a.current| ==> a.durable[b] == a.current[b]
  }

  lemma {:induction false} PastCommitHolds(s: State, a: Abs)
    requires a in Refined(s) && s.ops == map[]
    ensures PastCommit(s, a)
  {
    assert Core(ViewOf(s), a);
    if s.phase.Idle? || s.phase.Finish? {
      forall b | Home(s.lay, b)
        ensures a.durable[b] == a.current[b]
      {
        Settled(s, a, b);
      }
    }
  }

  /** What home block `b` will hold when `k` more block writes precede the first failure. */
  function Fate(s: State, a: Abs, k: int, b: int): Block
    requires 0 <= b < |a.current| == |a.durable|
  {
    if k >= TicksToCommit(s) then a.current[b] else a.durable[b]
  }

  /** The fate depends on the state through the block writes left to the header write. */
  lemma {:induction false} FateFollows(s: State, a: Abs, s': State, a': Abs, l: Label, k: int, b: int)
    requires 0 <= b < |a.current| == |a.durable| && k >= 0 && Home(s.lay, b) && PastCommit(s, a) && Internal(l)
    requires a' == Apply(a, Effect(s, l)) && TicksToCommit(s) >= 0
    requires l.Tick? ==>
             TicksToCommit(s') == (if TicksToCommit(s) > 0 then TicksToCommit(s) - 1 else 0) &&
             (s.phase.WriteHead? <==> TicksToCommit(s) == 1)
    requires l.Load? || l.Evict? ==> TicksToCommit(s') == TicksToCommit(s)
    ensures |a'.current| == |a'.durable| == |a.current|
    ensures Fate(s', a', k, b) == Fate(s, a, if l.Crash? then 0 else if l.Tick? then k + 1 else k, b)
  {
  }

  /** Every internal step passes that fate on. */
  lemma {:induction false} FateStep(s: State, a: Abs, l: Label, k: int, b: int)
    requires a in Refined(s) && s.ops == map[] && Home(s.lay, b) && Internal(l) && Step(s, l).Next? && k >= 0
    ensures var s', a' := Step(s, l).s, Apply(a, Effect(s, l));
            && s'.ops == map[] && s'.lay == s.lay
            && 0 <= b < |a'.current| == |a'.durable| == |a.current| == |a.durable|
            && Fate(s', a', k, b) == Fate(s, a, if l.Crash? then 0 else if l.Tick? then k + 1 else k, b)
  {
    PastCommitHolds(s, a);
    ViewSizes(s, a);
    if l.Tick? { TickShape(s, a); }
    InternalShape(s, l);
    FateFollows(s, a, Step(s, l).s, Apply(a, Effect(s, l)), l, k, b);
  }

  lemma {:induction false} InternalShape(s: State, l: Label)
    requires Internal(l) && Step(s, l).Next? && s.ops == map[]
    ensures Step(s, l).s.lay == s.lay
    ensures !l.Tick? ==> Step(s, l).s.ops == map[]
    ensures l.Load? || l.Evict? ==> TicksToCommit(Step(s, l).s) == TicksToCommit(s)
  {
  }

  lemma {:induction false} ViewSizes(s: State, a: Abs)
    requires a in Refined(s)
    ensures |s.disk| == |a.current| == |a.durable| == s.lay.total
    ensures s.phase.WriteLog? ==> 0 <= s.phase.tail < |s.lh|
  {
    assert Core(ViewOf(s), a);
  }

  /** From any point of a commit or a recovery, through any number of power failures: when
      the system is idle again every home block holds the new contents if the header write
      came before the first failure, and the old contents otherwise. */
  lemma {:induction false} FateOfTransaction(s: State, a: Abs, ls: seq<Label>, b: int)
    requires a in Refined(s) && s.ops == map[] && Home(s.lay, b)
    requires forall i :: 0 <= i < |ls| ==> Internal(ls[i])
    requires Run(s, ls).Next? && Run(s, ls).s.phase.Idle?
    ensures 0 <= b < |Run(s, ls).s.disk| == |a.current| == |a.durable|
    ensures Run(s, ls).s.disk[b] == Fate(s, a, TicksBeforeCrash(ls), b)
    decreases |ls|
  {
    if ls == [] {
      Settled(s, a, b);
    } else {
      assert Internal(ls[0]);
      StepRefines(s, a, ls[0]);
      FateStep(s, a, ls[0], TicksBeforeCrash(ls[1..]), b);
      FateOfTransaction(Step(s, ls[0]).s, Apply(a, Effect(s, ls[0])), ls[1..], b);
    }
  }

  /** Crash atomicity: a commit interrupted by power failures at any block write, and then
      any number of recoveries interrupted likewise, leaves all home blocks old or all home
      blocks new, and it is the header write that decides. */
  lemma {:induction false} CrashAtomicity(s: State, a: Abs, ls: seq<Label>)
    requires a in Refined(s) && s.phase == WriteLog(0)
    requires forall i :: 0 <= i < |ls| ==> Internal(ls[i])
    requires Run(s, ls).Next? && Run(s, ls).s.phase.Idle?
    ensures |Run(s, ls).s.disk| == |a.current| == |a.durable| == s.lay.total
    ensures if TicksBeforeCrash(ls) > |s.lh|
            then forall b :: Home(s.lay, b) ==> Run(s, ls).s.disk[b] == a.current[b]
            else forall b :: Home(s.lay, b) ==> Run(s, ls).s.disk[b] == a.durable[b]
  {
    RunRefines(s, a, ls);
    RunLayout(s, ls);
    assert Core(ViewOf(s), a);
    assert Core(ViewOf(Run(s, ls).s), AbsRun(s, a, ls));
    forall b | Home(s.lay, b)
      ensures Run(s, ls).s.disk[b] == if TicksBeforeCrash(ls) > |s.lh| then a.current[b] else a.durable[b]
    {
      FateOfTransaction(s, a, ls, b);
    }
  }

  lemma {:induction false} StepLayout(s: State, l: Label)
    requires Step(s, l).Next?
    ensures Step(s, l).s.lay == s.lay && |Step(s, l).s.disk| == |s.disk|
  {
  }

  lemma {:induction false} RunLayout(s: State, ls: seq<Label>)
    requires Run(s, ls).Next?
    ensures Run(s, ls).s.lay == s.lay && |Run(s, ls).s.disk| == |s.disk|
    decreases |ls|
  {
    if ls != [] {
      StepLayout(s, ls[0]);
      RunLayout(Step(s, ls[0]).s, ls[1..]);
    }
  }

  /** After any run, a power failure and a complete recovery bring the file system back to
      what it was at the last header write. */
  lemma {:induction false} CrashReturnsToLastCommit(s: State, a: Abs, before: seq<Label>, recovery: seq<Label>, b: int)
    requires a in Refined(s) && Run(s, before).Next? && Home(s.lay, b)
    requires forall i :: 0 <= i < |recovery| ==> Internal(recovery[i])
    requires Run(CrashStep(Run(s, before).s), recovery).Next? &&
             Run(CrashStep(Run(s, before).s), recovery).s.phase.Idle?
    ensures 0 <= b < |Run(CrashStep(Run(s, before).s), recovery).s.disk| == |AbsRun(s, a, before).durable|
    ensures Run(CrashStep(Run(s, before).s), recovery).s.disk[b] == AbsRun(s, a, before).durable[b]
  {
    RunRefines(s, a, before);
    RunLayout(s, before);
    var s1, a1 := Run(s, before).s, AbsRun(s, a, before);
    CrashRefines(s1, a1);
    FateOfTransaction(CrashStep(s1), Apply(a1, Revert), recovery, b);
  }
}
