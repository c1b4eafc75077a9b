/** What the steps of the process table do to each entry: who is woken, who falls asleep, who runs, ends
    and is freed, and what becomes of parents, pids and marks. Everything is said of the entries
    themselves, for every label at once. */
module ProcSteps {
  import opened ProcTable

  /** The processor runs process `i`. */
  predicate On(t: Table, c: int, i: int)
  {
    0 <= c < |t.cpus| && t.cpus[c] == i && 0 <= i < |t.procs|
  }

  /** Which steps are possible. Only the exit of init is a panic. */
  lemma {:induction false} EnabledIff(t: Table, l: Label)
    ensures Step(t, l).Panic? <==> l.Exit? && On(t, l.c, t.init)
    ensures l.Wakeup? || l.Kill? ==> Step(t, l).Next?
    ensures l.Alloc? ==> (Step(t, l).Next? <==> 0 <= l.i < |t.procs| && t.procs[l.i].state == UNUSED &&
                                                 forall j :: 0 <= j < l.i ==> t.procs[j].state != UNUSED)
    ensures l.Abort? ==> (Step(t, l).Next? <==> 0 <= l.i < |t.procs| && t.procs[l.i].state == EMBRYO)
    ensures l.Start? ==> (Step(t, l).Next? <==> (exists p :: On(t, l.c, p)) && 0 <= l.i < |t.procs| &&
                                                 t.procs[l.i].state == EMBRYO)
    ensures l.Schedule? ==> (Step(t, l).Next? <==> 0 <= l.c < |t.cpus| && t.cpus[l.c] == -1 && 0 <= l.i < |t.procs| &&
                                                    t.procs[l.i].state == RUNNABLE)
    ensures l.Yield? || l.Sleep? || l.Wait? ==> (Step(t, l).Next? <==> exists p :: On(t, l.c, p))
    ensures l.Exit? ==> (Step(t, l).Next? <==> exists p :: On(t, l.c, p) && p != t.init)
  {
    if l.Start? || l.Yield? || l.Sleep? || l.Wait? || l.Exit? {
      if Running(t, l.c) {
        assert On(t, l.c, t.cpus[l.c]);
      }
    }
  }

  // ----- One entry in a step -----

  /** kill: the first entry with the pid is marked, and runnable if it slept. */
  lemma {:induction false} KillEntry(procs: seq<Proc>, pid: int, k: int, i: int)
    requires 0 <= k <= |procs| && 0 <= i < |procs|
    ensures Killed(procs, pid, k)[i] ==
            if k <= i && procs[i].pid == pid && (forall j :: k <= j < i ==> procs[j].pid != pid)
            then procs[i].(killed := true, state := if procs[i].state == SLEEPING then RUNNABLE else procs[i].state)
            else procs[i]
    decreases |procs| - k
  {
    if k < |procs| && procs[k].pid != pid {
      KillEntry(procs, pid, k + 1, i);
    }
  }

  lemma {:induction false} ExitProcs(t: Table, c: int, i: int)
    requires Running(t, c) && t.cpus[c] != t.init && 0 <= i < |t.procs|
    ensures Step(t, Exit(c)).Next? && |Step(t, Exit(c)).t.procs| == |t.procs|
    ensures var p, a, b := t.cpus[c], t.procs[i], Step(t, Exit(c)).t.procs[i];
            && b.pid == a.pid && b.chan == a.chan && b.killed == a.killed
            && b.parent == (if a.parent == p then t.init else a.parent)
            && b.state == (if i == p then ZOMBIE
                           else if a.state == SLEEPING && (a.chan == OnProc(t.procs[p].parent) ||
                                                           (a.chan == OnProc(t.init) && HasZombie(t.procs, p)))
                           then RUNNABLE else a.state)
  {
    var p := t.cpus[c];
    var woken := Woken(t.procs, OnProc(t.procs[p].parent));
    SameZombie(t.procs, woken, p);
  }

  /** exit: the process is a zombie, its children are those of init, and its parent is awake, and init too
      if it got a zombie. */
  lemma {:induction false} ExitEntry(t: Table, c: int, i: int)
    requires t in Sound() && Step(t, Exit(c)).Next? && 0 <= i < |t.procs|
    ensures On(t, c, t.cpus[c]) && |Step(t, Exit(c)).t.procs| == |t.procs|
    ensures var p, a, b := t.cpus[c], t.procs[i], Step(t, Exit(c)).t.procs[i];
            && b.pid == a.pid && b.chan == a.chan && b.killed == a.killed
            && b.parent == (if a.parent == p then t.init else a.parent)
            && b.state == (if i == p then ZOMBIE
                           else if a.state == SLEEPING && a.chan == OnProc(i) &&
                                   (i == t.procs[p].parent || (i == t.init && HasZombie(t.procs, p)))
                           then RUNNABLE else a.state)
  {
    ExitProcs(t, c, i);
    SleepsOnSelf(t, i);
  }

  lemma {:induction false} SleepsOnSelf(t: Table, i: int)
    requires t in Sound() && 0 <= i < |t.procs|
    ensures t.procs[i].state == SLEEPING && t.procs[i].chan.OnProc? ==> t.procs[i].chan == OnProc(i)
  {
  }

  lemma {:induction false} SameZombie(procs: seq<Proc>, procs': seq<Proc>, p: int)
    requires |procs'| == |procs|
    requires forall j :: 0 <= j < |procs| ==>
               procs'[j].parent == procs[j].parent && (procs'[j].state == ZOMBIE <==> procs[j].state == ZOMBIE)
    ensures HasZombie(procs', p) <==> HasZombie(procs, p)
  {
    if HasZombie(procs, p) {
      var i :| 0 <= i < |procs| && procs[i].parent == p && procs[i].state == ZOMBIE;
      assert procs'[i].parent == p;
    }
    if HasZombie(procs', p) {
      var i :| 0 <= i < |procs'| && procs'[i].parent == p && procs'[i].state == ZOMBIE;
      assert procs[i].parent == p;
    }
  }

  // ----- wait -----

  /** A round of wait (proc.c:296-327) of the process that processor `c` runs. With a zombie child it frees
      the first one and returns its pid. Without, it returns with nothing changed if and only if no
      entry has it as parent or it is killed, and otherwise it sleeps on itself. */
  lemma {:induction false} WaitIs(t: Table, c: int, p: int)
    requires On(t, c, p)
    ensures Step(t, Wait(c)).Next? && |Step(t, Wait(c)).t.procs| == |t.procs|
    ensures (exists i :: 0 <= i < |t.procs| && t.procs[i].parent == p && t.procs[i].state == ZOMBIE) ==>
              exists z :: 0 <= z < |t.procs| && t.procs[z].parent == p && t.procs[z].state == ZOMBIE
                && (forall j :: 0 <= j < z ==> !(t.procs[j].parent == p && t.procs[j].state == ZOMBIE))
                && Step(t, Wait(c)).t == t.(procs := t.procs[z := Proc(UNUSED, 0, -1, Nothing, false)],
                                            reaped := t.reaped + [t.procs[z].pid])
    ensures !(exists i :: 0 <= i < |t.procs| && t.procs[i].parent == p && t.procs[i].state == ZOMBIE) ==>
              if (forall i :: 0 <= i < |t.procs| ==> t.procs[i].parent != p) || t.procs[p].killed
              then Step(t, Wait(c)).t == t
              else Step(t, Wait(c)).t == t.(procs := t.procs[p := t.procs[p].(state := SLEEPING, chan := OnProc(p))],
                                            cpus := t.cpus[c := -1])
  {
    var z := FirstZombie(t.procs, p, 0);
    if z < |t.procs| {
      assert t.procs[z].parent == p && t.procs[z].state == ZOMBIE;
      assert Step(t, Wait(c)).t == t.(procs := t.procs[z := FREE], reaped := t.reaped + [t.procs[z].pid]);
    }
  }

  /** An entry in a round of wait: it is freed as the zombie that is returned, or it falls asleep as the
      caller, or nothing happens to it. */
  lemma {:induction false} WaitEntry(t: Table, c: int, i: int)
    requires t in Sound() && Step(t, Wait(c)).Next? && 0 <= i < |t.procs|
    ensures 0 <= c < |t.cpus| && 0 <= t.cpus[c] < |t.procs| && t.procs[t.cpus[c]].state == RUNNING
    ensures |Step(t, Wait(c)).t.procs| == |t.procs|
    ensures var p, a, b := t.cpus[c], t.procs[i], Step(t, Wait(c)).t.procs[i];
            var sleeps := && i == p && !a.killed && (exists j :: 0 <= j < |t.procs| && t.procs[j].parent == i)
                          && (forall j :: 0 <= j < |t.procs| && t.procs[j].parent == i ==> t.procs[j].state != ZOMBIE);
            if sleeps then b == a.(state := SLEEPING, chan := OnProc(i))
            else b == a || (a.state == ZOMBIE && a.parent == p && b == Proc(UNUSED, 0, -1, Nothing, false) &&
                            Step(t, Wait(c)).t.reaped == t.reaped + [a.pid])
  {
    assert On(t, c, t.cpus[c]);
    assert t.procs[t.cpus[c]].state == RUNNING;
    WaitIs(t, c, t.cpus[c]);
  }

  /** The caller gives up: it goes on running and nothing has changed. */
  lemma {:induction false} WaitGivesUpIff(t: Table, c: int, p: int)
    requires t in Sound() && On(t, c, p)
    ensures Step(t, Wait(c)).Next?
    ensures Step(t, Wait(c)).t == t <==>
              && (forall i :: 0 <= i < |t.procs| && t.procs[i].parent == p ==> t.procs[i].state != ZOMBIE)
              && ((forall i :: 0 <= i < |t.procs| ==> t.procs[i].parent != p) || t.procs[p].killed)
    ensures var u := Step(t, Wait(c)).t;
            |u.procs| == |t.procs| && (u.procs[p].state == SLEEPING <==>
              && (forall i :: 0 <= i < |t.procs| && t.procs[i].parent == p ==> t.procs[i].state != ZOMBIE)
              && (exists i :: 0 <= i < |t.procs| && t.procs[i].parent == p) && !t.procs[p].killed)
  {
    WaitIs(t, c, p);
    assert t.procs[p].state == RUNNING;
  }

  // ----- Sleeping and waking -----

  /** A sleeping process is woken by exactly these: wakeup on what it sleeps on; kill, if no earlier entry
      has its pid; and, when it sleeps in wait, the exit of a child, or for init the exit of a process
      that has a zombie child. It is then runnable. */
  lemma {:induction false} WokenIff(t: Table, l: Label, i: int)
    requires t in Sound() && Step(t, l).Next? && 0 <= i < |t.procs| && t.procs[i].state == SLEEPING
    ensures |Step(t, l).t.procs| == |t.procs|
    ensures var a, b := t.procs[i], Step(t, l).t.procs[i];
            && (b.state == SLEEPING || b.state == RUNNABLE)
            && (b.state == RUNNABLE <==>
                || (l.Wakeup? && a.chan == OnOther(l.addr))
                || (l.Kill? && a.pid == l.pid && forall j :: 0 <= j < i ==> t.procs[j].pid != l.pid)
                || (l.Exit? && a.chan == OnProc(i) && 0 <= l.c < |t.cpus| && 0 <= t.cpus[l.c] < |t.procs|
                    && (t.procs[t.cpus[l.c]].parent == i
                        || (i == t.init && exists j :: 0 <= j < |t.procs| && t.procs[j].parent == t.cpus[l.c] &&
                                                       t.procs[j].state == ZOMBIE))))
  {
    match l {
      case Kill(pid) => KillEntry(t.procs, pid, 0, i);
      case Exit(c) =>
        ExitEntry(t, c, i);
        assert t.procs[t.cpus[c]].state == RUNNING;
      case Wait(c) => WaitEntry(t, c, i);
      case Yield(c) => assert t.procs[t.cpus[c]].state == RUNNING;
      case Sleep(c, addr) => assert t.procs[t.cpus[c]].state == RUNNING;
      case _ =>
    }
  }

  /** A process falls asleep by exactly these: sleep, on the address given; and a round of wait with
      children, none of them a zombie, of a process that is not killed, on itself. It was running. */
  lemma {:induction false} AsleepIff(t: Table, l: Label, i: int)
    requires t in Sound() && Step(t, l).Next? && 0 <= i < |t.procs| && t.procs[i].state != SLEEPING
    ensures |Step(t, l).t.procs| == |t.procs|
    ensures var b := Step(t, l).t.procs[i];
            && (b.state == SLEEPING <==>
                || (l.Sleep? && On(t, l.c, i))
                || (l.Wait? && On(t, l.c, i) && !t.procs[i].killed
                    && (exists j :: 0 <= j < |t.procs| && t.procs[j].parent == i)
                    && (forall j :: 0 <= j < |t.procs| && t.procs[j].parent == i ==> t.procs[j].state != ZOMBIE)))
            && (b.state == SLEEPING ==> b.chan == if l.Sleep? then OnOther(l.addr) else OnProc(i))
  {
    match l {
      case Kill(pid) => KillEntry(t.procs, pid, 0, i);
      case Exit(c) => ExitEntry(t, c, i);
      case Wait(c) => WaitEntry(t, c, i);
      case _ =>
    }
  }

  // ----- Running, ending and being freed -----

  /** A process gets a processor exactly when the scheduler of one picks it, and loses it exactly when it
      yields, sleeps, waits in vain or exits; yielding leaves it runnable. */
  lemma {:induction false} RunsIff(t: Table, l: Label, i: int)
    requires t in Sound() && Step(t, l).Next? && 0 <= i < |t.procs|
    ensures |Step(t, l).t.procs| == |t.procs|
    ensures var a, b := t.procs[i], Step(t, l).t.procs[i];
            && (a.state != RUNNING ==> (b.state == RUNNING <==> l.Schedule? && l.i == i))
            && (l.Schedule? && l.i == i ==> Step(t, l).t.cpus == t.cpus[l.c := i])
            && (a.state == RUNNING && b.state != RUNNING ==>
               (l.Yield? || l.Sleep? || l.Wait? || l.Exit?) && On(t, l.c, i))
            && (l.Yield? && On(t, l.c, i) ==> b == a.(state := RUNNABLE) && Step(t, l).t.cpus == t.cpus[l.c := -1])
            && (l.Exit? && On(t, l.c, i) ==> b.state == ZOMBIE && Step(t, l).t.cpus == t.cpus[l.c := -1])
            && (b.state == ZOMBIE && a.state != ZOMBIE ==> l.Exit? && On(t, l.c, i))
  {
    match l {
      case Kill(pid) => KillEntry(t.procs, pid, 0, i);
      case Exit(c) => ExitEntry(t, c, i);
      case Wait(c) => WaitEntry(t, c, i);
      case _ =>
    }
  }

  /** An entry is taken exactly by allocproc, with the next pid, becomes a process exactly by fork, and is
      freed exactly when wait reaps it or fork gives it back. */
  lemma {:induction false} UsedIff(t: Table, l: Label, i: int)
    requires t in Sound() && Step(t, l).Next? && 0 <= i < |t.procs|
    ensures |Step(t, l).t.procs| == |t.procs|
    ensures var a, b := t.procs[i], Step(t, l).t.procs[i];
            && (a.state == UNUSED ==> (b.state != UNUSED <==> l == Alloc(i)))
            && (l == Alloc(i) ==> b == a.(state := EMBRYO, pid := t.nextpid) && Step(t, l).t.nextpid == t.nextpid + 1)
            && (a.state == EMBRYO ==> (b.state == RUNNABLE <==> l.Start? && l.i == i))
            && (a.state != UNUSED && b.state == UNUSED ==>
                  l == Abort(i) ||
                  (l.Wait? && a.state == ZOMBIE && On(t, l.c, a.parent) && Step(t, l).t.reaped == t.reaped + [a.pid]))
            && (l == Abort(i) ==> b == a.(state := UNUSED))
  {
    match l {
      case Kill(pid) => KillEntry(t.procs, pid, 0, i);
      case Exit(c) => ExitEntry(t, c, i);
      case Wait(c) => WaitEntry(t, c, i);
      case _ =>
    }
  }

  /** What stays: the parent of a process is the one that forked it, until that exits, and init then; its
      pid is the one it was given; it is marked killed exactly by kill. An entry that wait frees has
      none of them. */
  lemma {:induction false} KeepsIdentity(t: Table, l: Label, i: int)
    requires t in Sound() && Step(t, l).Next? && 0 <= i < |t.procs|
    ensures |Step(t, l).t.procs| == |t.procs|
    ensures var a, b := t.procs[i], Step(t, l).t.procs[i];
            var freed := l.Wait? && a.state == ZOMBIE && b.state == UNUSED;
            && (l.Start? && l.i == i ==> On(t, l.c, b.parent))
            && (l.Exit? && On(t, l.c, a.parent) ==> b.parent == t.init)
            && (!(l.Start? && l.i == i) && !(l.Exit? && On(t, l.c, a.parent)) && !freed ==> b.parent == a.parent)
            && (l != Alloc(i) && !freed ==> b.pid == a.pid)
            && (!freed ==> (b.killed <==> a.killed || (l.Kill? && a.pid == l.pid &&
                                                       forall j :: 0 <= j < i ==> t.procs[j].pid != l.pid)))
            && (freed ==> b.pid == 0 && b.parent == -1 && !b.killed)
  {
    match l {
      case Kill(pid) => KillEntry(t.procs, pid, 0, i);
      case Exit(c) => ExitEntry(t, c, i);
      case Wait(c) => WaitEntry(t, c, i);
      case _ =>
    }
  }
}
