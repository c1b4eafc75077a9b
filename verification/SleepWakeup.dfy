/** sleep and wakeup (proc.c:439-501) step by step, for any number of processes: every
    acquisition and release of a spin lock is a step of its own.

    A condition on shared data is protected by the lock lk. Waiters test it under lk and sleep
    on its channel; others change the data under lk and call wakeup when they may have made
    the condition true. The condition is a parameter. */
module SleepWakeup {
  import opened Common

  /** Where a process is. */
  datatype Pc =
    | Away                  // not using the condition
    | Testing               // holds lk, about to test the condition
    | Deciding              // holds lk, inside sleep, wants ptable.lock (proc.c:456)
    | Switching             // holds lk and ptable.lock, about to release lk (proc.c:457)
    | Falling               // holds ptable.lock only, about to mark itself (proc.c:460-461)
    | Asleep                // SLEEPING on the channel
    | Ready                 // RUNNABLE, inside sleep
    | Rising                // scheduled again, holds ptable.lock (proc.c:471-475)
    | Returning             // wants lk again (proc.c:476)
    | Changing              // holds lk, not to test but to change the data
    | Owing                 // changed the data, holds lk, owes a wakeup
    | OwingOut              // owes a wakeup and has released lk
    | Waking(out: bool)     // inside wakeup, holds ptable.lock

  /** `lk` and `pt` are the holders of lk and of ptable.lock; `x` is the shared data. */
  datatype State = State(pcs: map<int, Pc>, lk: Option<int>, pt: Option<int>, x: int)

  datatype Label =
    | Enter(p: int)              // acquire(lk) to test
    | Leave(p: int, x: int)      // the condition holds: use it, change the data, release(lk)
    | Sleep(p: int)              // the condition does not hold: call sleep
    | TakeTable(p: int)          // acquire(&ptable.lock) in sleep
    | DropLock(p: int)           // release(lk) in sleep
    | Mark(p: int)               // SLEEPING, and sched gives up ptable.lock
    | Kill(p: int)               // kill makes a sleeper runnable
    | Run(p: int)                // the scheduler picks the process, with ptable.lock held
    | DropTable(p: int)          // release(&ptable.lock) at the end of sleep
    | Retake(p: int)             // acquire(lk) at the end of sleep
    | EnterChange(p: int)        // acquire(lk) to change
    | Change(p: int, x: int)     // change the data; a wakeup is owed
    | ReleaseOwing(p: int)       // release(lk) before calling wakeup
    | WakeTable(p: int)          // acquire(&ptable.lock) in wakeup
    | WakeAll(p: int)            // wakeup1 and release(&ptable.lock)
    | Done(p: int)               // release(lk) after wakeup

  function At(s: State, p: int): Pc
  {
    if p in s.pcs then s.pcs[p] else Away
  }

  function Go(s: State, p: int, pc: Pc): State
  {
    s.(pcs := s.pcs[p := pc])
  }

  /** wakeup1 (proc.c:484-491). */
  function Woken(pcs: map<int, Pc>): map<int, Pc>
  {
    map p | p in pcs :: if pcs[p].Asleep? then Ready else pcs[p]
  }

  /** One step; `None` when it is not possible. */
  function Step(s: State, l: Label, ready: int -> bool): Option<State>
  {
    var pc := At(s, l.p);
    match l
    case Enter(p) => if pc.Away? && s.lk.None? then Some(Go(s.(lk := Some(p)), p, Testing)) else None
    case Leave(p, x) => if pc.Testing? && ready(s.x) then Some(Go(s.(lk := None, x := x), p, Away)) else None
    case Sleep(p) => if pc.Testing? && !ready(s.x) then Some(Go(s, p, Deciding)) else None
    case TakeTable(p) => if pc.Deciding? && s.pt.None? then Some(Go(s.(pt := Some(p)), p, Switching)) else None
    case DropLock(p) => if pc.Switching? then Some(Go(s.(lk := None), p, Falling)) else None
    case Mark(p) => if pc.Falling? then Some(Go(s.(pt := None), p, Asleep)) else None
    case Kill(p) => if pc.Asleep? && s.pt.None? then Some(Go(s, p, Ready)) else None
    case Run(p) => if pc.Ready? && s.pt.None? then Some(Go(s.(pt := Some(p)), p, Rising)) else None
    case DropTable(p) => if pc.Rising? then Some(Go(s.(pt := None), p, Returning)) else None
    case Retake(p) => if pc.Returning? && s.lk.None? then Some(Go(s.(lk := Some(p)), p, Testing)) else None
    case EnterChange(p) => if pc.Away? && s.lk.None? then Some(Go(s.(lk := Some(p)), p, Changing)) else None
    case Change(p, x) => if pc.Changing? then Some(Go(s.(x := x), p, Owing)) else None
    case ReleaseOwing(p) => if pc.Owing? then Some(Go(s.(lk := None), p, OwingOut)) else None
    case WakeTable(p) =>
      if (pc.Owing? || pc.OwingOut?) && s.pt.None? then Some(Go(s.(pt := Some(p)), p, Waking(pc.OwingOut?))) else None
    case WakeAll(p) =>
      if pc.Waking? then Some(Go(s.(pcs := Woken(s.pcs), pt := None), p, if pc.out then Away else Changing)) else None
    case Done(p) => if pc.Changing? then Some(Go(s.(lk := None), p, Away)) else None
  }

  function Runs(s: State, ls: seq<Label>, ready: int -> bool): Option<State>
    decreases |ls|
  {
    if ls == [] then Some(s)
    else
      var t := Step(s, ls[0], ready);
      if t.None? then None else Runs(t.value, ls[1..], ready)
  }

  // ----- What every step keeps -----

  predicate HoldsLk(pc: Pc)
  {
    pc.Testing? || pc.Deciding? || pc.Switching? || pc.Changing? || pc.Owing? || (pc.Waking? && !pc.out)
  }

  predicate HoldsTable(pc: Pc)
  {
    pc.Switching? || pc.Falling? || pc.Rising? || pc.Waking?
  }

  /** A wakeup is still to come. */
  predicate Owes(pc: Pc)
  {
    pc.Owing? || pc.OwingOut? || pc.Waking?
  }

  /** The process has found the condition false and will not test it again before a wakeup. */
  predicate Committed(pc: Pc)
  {
    pc.Deciding? || pc.Switching? || pc.Falling? || pc.Asleep?
  }

  ghost predicate SomeoneOwes(s: State)
  {
    exists p :: Owes(At(s, p))
  }

  ghost predicate Inv(s: State, ready: int -> bool)
  {
    && (forall p {:trigger At(s, p)} ::
          && (HoldsLk(At(s, p)) <==> s.lk == Some(p)) && (HoldsTable(At(s, p)) <==> s.pt == Some(p))
          && (At(s, p).Deciding? || At(s, p).Switching? ==> !ready(s.x)))
    && (forall p {:trigger Committed(At(s, p))} :: Committed(At(s, p)) && ready(s.x) ==> SomeoneOwes(s))
  }

  /** Where each process is after a step. */
  lemma {:induction false} After(s: State, l: Label, ready: int -> bool, p: int)
    requires Step(s, l, ready).Some?
    ensures var t := Step(s, l, ready).value;
            p != l.p ==> At(t, p) == if l.WakeAll? && At(s, p).Asleep? then Ready else At(s, p)
  {
  }

  /** A wakeup that is owed stays owed until the sleepers are woken. */
  lemma {:induction false} DebtStays(s: State, l: Label, ready: int -> bool)
    requires Step(s, l, ready).Some? && SomeoneOwes(s) && !l.WakeAll?
    ensures SomeoneOwes(Step(s, l, ready).value)
  {
    var q :| Owes(At(s, q));
    After(s, l, ready, q);
    assert Owes(At(Step(s, l, ready).value, q));
  }

  lemma {:induction false} StepKeeps(s: State, l: Label, ready: int -> bool)
    requires Inv(s, ready) && Step(s, l, ready).Some?
    ensures Inv(Step(s, l, ready).value, ready)
  {
    var t := Step(s, l, ready).value;
    assert HoldsLk(At(s, l.p)) <==> s.lk == Some(l.p);
    forall p
      ensures (HoldsLk(At(t, p)) <==> t.lk == Some(p)) && (HoldsTable(At(t, p)) <==> t.pt == Some(p))
      ensures At(t, p).Deciding? || At(t, p).Switching? ==> !ready(t.x)
    {
      After(s, l, ready, p);
      assert HoldsLk(At(s, p)) <==> s.lk == Some(p);
    }
    forall p | Committed(At(t, p)) && ready(t.x)
      ensures SomeoneOwes(t)
    {
      After(s, l, ready, p);
      assert HoldsLk(At(s, p)) <==> s.lk == Some(p);
      if l.Change? {
        assert Owes(At(t, l.p));
      } else {
        assert Committed(At(s, p)) && ready(s.x) && !l.WakeAll?;
        DebtStays(s, l, ready);
      }
    }
  }

  ghost predicate Initial(s: State)
  {
    s.lk.None? && s.pt.None? && forall p :: At(s, p).Away?
  }

  lemma {:induction false} RunKeeps(s: State, ls: seq<Label>, ready: int -> bool)
    requires Inv(s, ready) && Runs(s, ls, ready).Some?
    ensures Inv(Runs(s, ls, ready).value, ready)
    decreases |ls|
  {
    if ls != [] {
      StepKeeps(s, ls[0], ready);
      RunKeeps(Step(s, ls[0], ready).value, ls[1..], ready);
    }
  }

  /** No lost wakeup: after any steps of any processes, a process asleep on the channel while no
      wakeup is owed sleeps for a reason: the condition does not hold. */
  lemma {:induction false} NoLostWakeup(s: State, ls: seq<Label>, ready: int -> bool, p: int)
    requires Initial(s) && Runs(s, ls, ready).Some?
    ensures var t := Runs(s, ls, ready).value;
            At(t, p).Asleep? && ready(t.x) ==> exists q :: Owes(At(t, q))
  {
    RunKeeps(s, ls, ready);
    var t := Runs(s, ls, ready).value;
    assert Committed(At(t, p)) ==> At(t, p) == At(t, p);
  }

  /** And when lk is free, whoever owes has only the wakeup itself before it. */
  lemma {:induction false} OwedIsNext(s: State, ls: seq<Label>, ready: int -> bool, q: int)
    requires Initial(s) && Runs(s, ls, ready).Some? && Owes(At(Runs(s, ls, ready).value, q)) &&
             Runs(s, ls, ready).value.lk.None?
    ensures At(Runs(s, ls, ready).value, q).OwingOut? || At(Runs(s, ls, ready).value, q).Waking?
  {
    RunKeeps(s, ls, ready);
    var t := Runs(s, ls, ready).value;
    assert HoldsLk(At(t, q)) <==> t.lk == Some(q);
  }

  /** No deadlock: after any steps, a process that is inside a call and not asleep can go on, or the process that
      holds one of the two locks can. */
  lemma {:induction false} NoDeadlock(s: State, ls: seq<Label>, ready: int -> bool, p: int) returns (l: Label)
    requires Initial(s) && Runs(s, ls, ready).Some? && !At(Runs(s, ls, ready).value, p).Away? &&
             !At(Runs(s, ls, ready).value, p).Asleep?
    ensures var t := Runs(s, ls, ready).value;
            && Step(t, l, ready).Some? && !At(t, l.p).Away? && !At(t, l.p).Asleep?
            && (l.p == p || t.pt == Some(l.p) || (t.pt.None? && t.lk == Some(l.p)))
  {
    RunKeeps(s, ls, ready);
    var t := Runs(s, ls, ready).value;
    var q := if t.pt.Some? then t.pt.value else if t.lk.Some? then t.lk.value else p;
    assert (HoldsLk(At(t, q)) <==> t.lk == Some(q)) && (HoldsTable(At(t, q)) <==> t.pt == Some(q));
    l := match At(t, q)
      case Testing => if ready(t.x) then Leave(q, t.x) else Sleep(q)
      case Deciding => TakeTable(q)
      case Switching => DropLock(q)
      case Falling => Mark(q)
      case Ready => Run(q)
      case Rising => DropTable(q)
      case Returning => Retake(q)
      case Changing => Done(q)
      case Owing => ReleaseOwing(q)
      case OwingOut => WakeTable(q)
      case Waking(_) => WakeAll(q)
      case _ => Kill(q);
  }

  // ----- Sleep locks -----

  /** A sleep lock (sleeplock.c:22-42) is the condition "nobody holds it" on the holder's pid,
      with 0 for nobody. */
  function Unlocked(x: int): bool
  {
    x == 0
  }

  /** acquiresleep takes the lock with its own pid; releasesleep, called by the holder, puts 0. */
  predicate LockStep(s: State, l: Label)
  {
    match l
    case Leave(p, x) => x == p && p != 0
    case Change(p, x) => x == 0 && s.x == p
    case _ => true
  }

  predicate LockRun(s: State, ls: seq<Label>)
    decreases |ls|
  {
    ls == [] ||
    (LockStep(s, ls[0]) && (Step(s, ls[0], Unlocked).Some? ==> LockRun(Step(s, ls[0], Unlocked).value, ls[1..])))
  }

  /** How often `p` took the lock, less how often it gave it back. */
  function Held(s: State, ls: seq<Label>, p: int): int
    decreases |ls|
  {
    if ls == [] || Step(s, ls[0], Unlocked).None? then 0
    else
      (if ls[0].Leave? && ls[0].p == p then 1 else if ls[0].Change? && ls[0].p == p then -1 else 0)
      + Held(Step(s, ls[0], Unlocked).value, ls[1..], p)
  }

  /** At most one process is between acquiresleep and releasesleep: the one the lock names. */
  lemma {:induction false} OneHolder(s: State, ls: seq<Label>, p: int)
    requires LockRun(s, ls) && Runs(s, ls, Unlocked).Some? && p != 0
    ensures (if s.x == p then 1 else 0) + Held(s, ls, p) == if Runs(s, ls, Unlocked).value.x == p then 1 else 0
    decreases |ls|
  {
    if ls != [] {
      OneHolder(Step(s, ls[0], Unlocked).value, ls[1..], p);
    }
  }

  /** Nobody sleeps on a free sleep lock, once no wakeup is owed. */
  lemma {:induction false} NoSleeperOnFreeLock(s: State, ls: seq<Label>, p: int)
    requires Initial(s) && Runs(s, ls, Unlocked).Some? && Runs(s, ls, Unlocked).value.x == 0
    requires forall q :: !Owes(At(Runs(s, ls, Unlocked).value, q))
    ensures !At(Runs(s, ls, Unlocked).value, p).Asleep?
  {
    NoLostWakeup(s, ls, Unlocked, p);
  }
}
