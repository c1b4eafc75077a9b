/** The process table of proc.c: who runs where, and how processes end and are waited for.

    Every step is what one process or one scheduler does while it holds ptable.lock. A step
    that gives up the processor hands the lock on to the scheduler of that processor. */
module ProcTable {

  datatype Run = UNUSED | EMBRYO | SLEEPING | RUNNABLE | RUNNING | ZOMBIE

  /** What a process sleeps on: nothing, a process (only wait does that, on itself), or some
      other address. */
  datatype Chan = Nothing | OnProc(slot: int) | OnOther(addr: int)

  /** An entry of the table. `parent` is the slot of the parent, or -1. */
  datatype Proc = Proc(state: Run, pid: int, parent: int, chan: Chan, killed: bool)

  const FREE: Proc := Proc(UNUSED, 0, -1, Nothing, false)

  /** `cpus[c]` is the slot of the process cpu `c` runs, or -1. `reaped` lists the pids that
      wait has returned, `gone` those of the processes that have exited. */
  datatype Table = Table(procs: seq<Proc>, cpus: seq<int>, init: int, nextpid: int, reaped: seq<int>, gone: seq<int>)

  // ----- The table scans, as functions -----

  /** wakeup1 (proc.c:484-491). */
  function Woken(procs: seq<Proc>, chan: Chan): (r: seq<Proc>)
    ensures |r| == |procs|
    ensures forall i :: 0 <= i < |procs| ==>
              r[i] == if procs[i].state == SLEEPING && procs[i].chan == chan
                then procs[i].(state := RUNNABLE) else procs[i]
  {
    seq(|procs|, i requires 0 <= i < |procs| =>
      if procs[i].state == SLEEPING && procs[i].chan == chan then procs[i].(state := RUNNABLE) else procs[i])
  }

  /** The children of `p` are passed to init (proc.c:272-278), before init is woken. */
  function Adopted(procs: seq<Proc>, p: int, init: int): (r: seq<Proc>)
    ensures |r| == |procs|
    ensures forall i :: 0 <= i < |procs| ==> r[i] == if procs[i].parent == p
            then procs[i].(parent := init) else procs[i]
  {
    seq(|procs|, i requires 0 <= i < |procs| => if procs[i].parent == p then procs[i].(parent := init) else procs[i])
  }

  predicate HasZombie(procs: seq<Proc>, p: int)
  {
    exists i :: 0 <= i < |procs| && procs[i].parent == p && procs[i].state == ZOMBIE
  }

  predicate HasChild(procs: seq<Proc>, p: int)
  {
    exists i :: 0 <= i < |procs| && procs[i].parent == p
  }

  // ----- The code of the scans -----

  class Scans {
    const procs: array<Proc>

    /** wakeup1. */
    method Wakeup1(chan: Chan)
      modifies procs
      ensures procs[..] == Woken(old(procs[..]), chan)
    {
      var i := 0;
      while i < procs.Length
        invariant 0 <= i <= procs.Length
        invariant forall j :: 0 <= j < i ==> procs[j] == Woken(old(procs[..]), chan)[j]
        invariant forall j :: i <= j < procs.Length ==> procs[j] == old(procs[j])
      {
        if procs[i].state == SLEEPING && procs[i].chan == chan {
          procs[i] := procs[i].(state := RUNNABLE);
        }
        i := i + 1;
      }
    }

    /** The loop of exit over abandoned children (proc.c:272-278): init is woken whenever one of
        them is a zombie. */
    method PassToInit(p: int, init: int)
      requires p != init
      modifies procs
      ensures procs[..] == if HasZombie(old(procs[..]), p) then Woken(Adopted(old(procs[..]), p, init), OnProc(init))
                           else Adopted(old(procs[..]), p, init)
    {
      ghost var was := procs[..];
      ghost var woke := false;
      var i := 0;
      while i < procs.Length
        invariant 0 <= i <= procs.Length && |was| == procs.Length
        invariant woke <==> exists j :: 0 <= j < i && was[j].parent == p && was[j].state == ZOMBIE
        invariant forall j :: 0 <= j < procs.Length ==> procs[j] == Passed(was[j], p, init, woke, j < i)
      {
        if procs[i].parent == p {
          procs[i] := procs[i].(parent := init);
          if procs[i].state == ZOMBIE {
            Wakeup1(OnProc(init));
            woke := true;
          }
        }
        i := i + 1;
      }
    }

    /** kill (proc.c:507-524): whether there is such a pid. */
    method Kill(pid: int) returns (found: bool)
      modifies procs
      ensures procs[..] == Killed(old(procs[..]), pid, 0)
      ensures found <==> exists i :: 0 <= i < procs.Length && old(procs[i]).pid == pid
    {
      var i := 0;
      while i < procs.Length
        invariant 0 <= i <= procs.Length && procs[..] == old(procs[..])
        invariant Killed(procs[..], pid, 0) == Killed(procs[..], pid, i)
        invariant forall j :: 0 <= j < i ==> procs[j].pid != pid
      {
        if procs[i].pid == pid {
          procs[i] := procs[i].(killed := true, state := if procs[i].state == SLEEPING
            then RUNNABLE else procs[i].state);
          return true;
        }
        i := i + 1;
      }
      return false;
    }

    /** The scan of wait (proc.c:298-317). */
    method FindZombie(p: int) returns (z: int, havekids: bool)
      ensures z == FirstZombie(procs[..], p, 0)
      ensures z == procs.Length ==> (havekids <==> HasChild(procs[..], p))
    {
      havekids := false;
      z := 0;
      while z < procs.Length
        invariant 0 <= z <= procs.Length
        invariant FirstZombie(procs[..], p, 0) == FirstZombie(procs[..], p, z)
        invariant havekids <==> exists j :: 0 <= j < z && procs[j].parent == p
      {
        if procs[z].parent == p {
          havekids := true;
          if procs[z].state == ZOMBIE {
            return;
          }
        }
        z := z + 1;
      }
    }

    /** A round of wait (proc.c:296-327): the pid of the first zombie child, which is freed; or -1 when there
        are no children or the caller is killed; or the caller sleeps. */
    method Wait(p: int) returns (pid: int, sleeps: bool)
      requires 0 <= p < procs.Length
      modifies procs
      ensures forall z ::
                (0 <= z < procs.Length && old(procs[z]).parent == p && old(procs[z]).state == ZOMBIE &&
                 (forall j :: 0 <= j < z ==> !(old(procs[j]).parent == p && old(procs[j]).state == ZOMBIE))) ==>
                  !sleeps && pid == old(procs[z]).pid && procs[..] == old(procs[..])[z := FREE]
      ensures (forall z :: 0 <= z < procs.Length && old(procs[z]).parent == p ==> old(procs[z]).state != ZOMBIE) ==>
                && pid == -1
                && (sleeps ==> !old(procs[p]).killed)
                && (!old(procs[p]).killed ==>
                      (sleeps <==> exists j :: 0 <= j < procs.Length && old(procs[j]).parent == p))
                && procs[..] == if sleeps
                                then old(procs[..])[p := old(procs[p]).(state := SLEEPING, chan := OnProc(p))]
                                else old(procs[..])
      ensures forall t: Table, c :: Running(t, c) && t.cpus[c] == p && t.procs == old(procs[..]) ==>
                WaitStep(t, c) == Next(t.(procs := procs[..], cpus := if sleeps then t.cpus[c := -1] else t.cpus,
                                          reaped := if HasZombie(old(procs[..]), p)
                                            then t.reaped + [pid] else t.reaped))
    {
      var z, havekids := FindZombie(p);
      pid, sleeps := -1, false;
      if z < procs.Length {
        pid := procs[z].pid;
        procs[z] := FREE;
        return;
      }
      if !havekids || procs[p].killed {
        return;
      }
      procs[p] := procs[p].(state := SLEEPING, chan := OnProc(p));
      sleeps := true;
    }

    /** The end of exit (proc.c:266-282): the parent is woken, the children go to init, and the process is a
        zombie. */
    method Exit(p: int, init: int)
      requires 0 <= p < procs.Length && p != init
      modifies procs
      ensures forall t: Table, c :: Running(t, c) && t.cpus[c] == p && t.init == init && t.procs == old(procs[..]) ==>
                ExitStep(t, c) == Next(t.(procs := procs[..], cpus := t.cpus[c := -1],
                                          gone := t.gone + [old(procs[p]).pid]))
    {
      Wakeup1(OnProc(procs[p].parent));
      PassToInit(p, init);
      procs[p] := procs[p].(state := ZOMBIE);
    }

    /** The scan of allocproc (proc.c:88-90). */
    method FindUnused() returns (i: int)
      ensures i < procs.Length ==> IsFirst(procs[..], i, UNUSED)
      ensures i >= procs.Length ==> forall j :: 0 <= j < procs.Length ==> procs[j].state != UNUSED
    {
      i := 0;
      while i < procs.Length && procs[i].state != UNUSED
        invariant 0 <= i <= procs.Length
        invariant forall j :: 0 <= j < i ==> procs[j].state != UNUSED
      {
        i := i + 1;
      }
    }
  }

  /** An entry in the middle of PassToInit. */
  function Passed(q: Proc, p: int, init: int, woke: bool, seen: bool): Proc
  {
    var r := if seen && q.parent == p then q.(parent := init) else q;
    if woke && r.state == SLEEPING && r.chan == OnProc(init) then r.(state := RUNNABLE) else r
  }

  // ----- Steps -----

  datatype Label =
    | Alloc(i: int)             // allocproc takes the slot (proc.c:86-99)
    | Abort(i: int)             // fork gives the slot back (proc.c:103, proc.c:204-212)
    | Start(c: int, i: int)     // fork makes the child runnable (proc.c:213-233)
    | Schedule(c: int, i: int)  // scheduler picks a process; sleep clears its channel (proc.c:350-362, proc.c:471)
    | Yield(c: int)
    | Sleep(c: int, addr: int)  // sleep on anything but a process
    | Wakeup(addr: int)
    | Kill(pid: int)
    | Exit(c: int)
    | Wait(c: int)

  datatype Outcome = Next(t: Table) | Blocked | Panic

  predicate Running(t: Table, c: int)
  {
    0 <= c < |t.cpus| && 0 <= t.cpus[c] < |t.procs|
  }

  predicate IsFirst(procs: seq<Proc>, i: int, st: Run)
  {
    0 <= i < |procs| && procs[i].state == st && forall j :: 0 <= j < i ==> procs[j].state != st
  }

  function ExitStep(t: Table, c: int): Outcome
    requires Running(t, c)
  {
    var p := t.cpus[c];
    if p == t.init then Panic
    else
      var woken := Woken(t.procs, OnProc(t.procs[p].parent));
      var passed := if HasZombie(woken, p) then Woken(Adopted(woken, p, t.init), OnProc(t.init))
        else Adopted(woken, p, t.init);
      Next(t.(procs := passed[p := passed[p].(state := ZOMBIE)], cpus := t.cpus[c := -1],
        gone := t.gone + [t.procs[p].pid]))
  }

  /** The first zombie child in the table, or the number of slots. */
  function FirstZombie(procs: seq<Proc>, p: int, i: int): (r: int)
    requires 0 <= i <= |procs|
    ensures i <= r <= |procs| && (r < |procs| ==> procs[r].parent == p && procs[r].state == ZOMBIE)
    ensures forall j :: i <= j < r ==> !(procs[j].parent == p && procs[j].state == ZOMBIE)
    decreases |procs| - i
  {
    if i == |procs| || (procs[i].parent == p && procs[i].state == ZOMBIE) then i else FirstZombie(procs, p, i + 1)
  }

  /** One round of wait (proc.c:296-327): reap, give up, or fall asleep. */
  function WaitStep(t: Table, c: int): Outcome
    requires Running(t, c)
  {
    var p := t.cpus[c];
    var z := FirstZombie(t.procs, p, 0);
    if z < |t.procs| then Next(t.(procs := t.procs[z := FREE], reaped := t.reaped + [t.procs[z].pid]))
    else if !HasChild(t.procs, p) || t.procs[p].killed then Next(t)
    else Next(t.(procs := t.procs[p := t.procs[p].(state := SLEEPING, chan := OnProc(p))], cpus := t.cpus[c := -1]))
  }

  /** kill (proc.c:507-524): the first entry with the pid. */
  function Killed(procs: seq<Proc>, pid: int, i: int): (r: seq<Proc>)
    requires 0 <= i <= |procs|
    ensures |r| == |procs|
    decreases |procs| - i
  {
    if i == |procs| then procs
    else if procs[i].pid == pid then
      procs[i := procs[i].(killed := true, state := if procs[i].state == SLEEPING then RUNNABLE else procs[i].state)]
    else Killed(procs, pid, i + 1)
  }

  function Step(t: Table, l: Label): Outcome
  {
    match l
    case Alloc(i) =>
      if IsFirst(t.procs, i, UNUSED)
      then Next(t.(procs := t.procs[i := t.procs[i].(state := EMBRYO, pid := t.nextpid)], nextpid := t.nextpid + 1))
        else Blocked
    case Abort(i) =>
      if 0 <= i < |t.procs| && t.procs[i].state == EMBRYO
        then Next(t.(procs := t.procs[i := t.procs[i].(state := UNUSED)])) else Blocked
    case Start(c, i) =>
      if Running(t, c) && 0 <= i < |t.procs| && t.procs[i].state == EMBRYO
      then Next(t.(procs := t.procs[i := t.procs[i].(state := RUNNABLE, parent := t.cpus[c])])) else Blocked
    case Schedule(c, i) =>
      if 0 <= c < |t.cpus| && t.cpus[c] == -1 && 0 <= i < |t.procs| && t.procs[i].state == RUNNABLE
      then Next(t.(procs := t.procs[i := t.procs[i].(state := RUNNING, chan := Nothing)], cpus := t.cpus[c := i]))
        else Blocked
    case Yield(c) =>
      if Running(t, c)
      then Next(t.(procs := t.procs[t.cpus[c] := t.procs[t.cpus[c]].(state := RUNNABLE)], cpus := t.cpus[c := -1]))
        else Blocked
    case Sleep(c, addr) =>
      if Running(t, c)
      then Next(t.(procs := t.procs[t.cpus[c] := t.procs[t.cpus[c]].(state := SLEEPING, chan := OnOther(addr))],
        cpus := t.cpus[c := -1]))
      else Blocked
    case Wakeup(addr) => Next(t.(procs := Woken(t.procs, OnOther(addr))))
    case Kill(pid) => Next(t.(procs := Killed(t.procs, pid, 0)))
    case Exit(c) => if Running(t, c) then ExitStep(t, c) else Blocked
    case Wait(c) => if Running(t, c) then WaitStep(t, c) else Blocked
  }

  function Runs(t: Table, ls: seq<Label>): Outcome
    decreases |ls|
  {
    if ls == [] then Next(t)
    else
      var o := Step(t, ls[0]);
      if o.Next? then Runs(o.t, ls[1..]) else o
  }

  // ----- What every step keeps -----

  predicate Alive(q: Proc)
  {
    q.state == SLEEPING || q.state == RUNNABLE || q.state == RUNNING
  }

  /** The process is RUNNING if and only if exactly one cpu names it. */
  ghost predicate CpusOk(procs: seq<Proc>, cpus: seq<int>)
  {
    && (forall c {:trigger cpus[c]} :: 0 <= c < |cpus| ==>
       cpus[c] == -1 || (0 <= cpus[c] < |procs| && procs[cpus[c]].state == RUNNING))
    && (forall c, d {:trigger cpus[c], cpus[d]} :: 0 <= c < |cpus| && 0 <= d < |cpus| && cpus[c] == cpus[d] != -1 ==>
       c == d)
    && (forall i {:trigger procs[i]} :: 0 <= i < |procs| && procs[i].state == RUNNING ==> exists c ::
       0 <= c < |cpus| && cpus[c] == i)
  }

  /** Whoever sleeps on a process sleeps on itself, in wait, and none of its children is a zombie. */
  ghost predicate WaitersOk(procs: seq<Proc>)
  {
    forall i {:trigger procs[i]} :: 0 <= i < |procs| && procs[i].state == SLEEPING && procs[i].chan.OnProc? ==>
      procs[i].chan.slot == i && NoZombie(procs, i)
  }

  ghost predicate NoZombie(procs: seq<Proc>, p: int)
  {
    forall j {:trigger procs[j]} :: 0 <= j < |procs| && procs[j].parent == p ==> procs[j].state != ZOMBIE
  }

  /** Every process but init has a parent that has not exited; free entries have none. */
  ghost predicate ParentsOk(procs: seq<Proc>, init: int)
  {
    && 0 <= init < |procs| && Alive(procs[init])
    && forall i {:trigger procs[i]} :: 0 <= i < |procs| ==>
         if procs[i].state == UNUSED || procs[i].state == EMBRYO || i == init then procs[i].parent == -1
         else 0 <= procs[i].parent < |procs| && procs[i].parent != i && Alive(procs[procs[i].parent])
  }

  /** Pids in use differ, none of them was returned by wait, and wait returned each pid once, for
      a process that had exited; whoever has exited and was not returned is a zombie. */
  ghost predicate PidsOk(procs: seq<Proc>, nextpid: int, reaped: seq<int>, gone: seq<int>)
  {
    && (forall i {:trigger procs[i]} :: 0 <= i < |procs| && procs[i].state != UNUSED ==>
       procs[i].pid < nextpid && procs[i].pid !in reaped)
    && (forall i, j {:trigger procs[i], procs[j]} ::
       0 <= i < |procs| && 0 <= j < |procs| && SamePid(procs[i], procs[j]) ==> i == j)
    && (forall i {:trigger procs[i]} :: 0 <= i < |procs| && procs[i].state != UNUSED ==>
       (procs[i].state == ZOMBIE <==> procs[i].pid in gone))
    && (forall p {:trigger p in reaped} :: p in reaped ==> p in gone)
    && (forall p {:trigger p in gone} :: p in gone ==>
       p < nextpid && (p in reaped || exists i :: 0 <= i < |procs| && procs[i].state == ZOMBIE && procs[i].pid == p))
    && NoRepeat(reaped) && NoRepeat(gone)
  }

  predicate SamePid(p: Proc, q: Proc)
  {
    p.state != UNUSED && q.state != UNUSED && p.pid == q.pid
  }

  ghost predicate NoRepeat(s: seq<int>)
  {
    forall i, j {:trigger s[i], s[j]} :: 0 <= i < j < |s| ==> s[i] != s[j]
  }

  ghost predicate Inv(t: Table)
  {
    CpusOk(t.procs, t.cpus) && WaitersOk(t.procs) && ParentsOk(t.procs, t.init) &&
      PidsOk(t.procs, t.nextpid, t.reaped, t.gone)
  }

  /** The sound tables. A set and not a predicate: where a predicate is checked the verifier takes it
      apart into its conjuncts, while most proofs only pass membership on. */
  ghost function Sound(): iset<Table>
  {
    iset t: Table | Inv(t)
  }

  // ----- Processors -----

  lemma {:induction false} CpusSame(procs: seq<Proc>, procs': seq<Proc>, cpus: seq<int>)
    requires CpusOk(procs, cpus) && |procs'| == |procs|
    requires forall i :: 0 <= i < |procs| ==> (procs'[i].state == RUNNING <==> procs[i].state == RUNNING)
    ensures CpusOk(procs', cpus)
  {
    forall i | 0 <= i < |procs'| && procs'[i].state == RUNNING
      ensures exists c :: 0 <= c < |cpus| && cpus[c] == i
    {
      assert procs[i].state == RUNNING;
    }
  }

  lemma {:induction false} CpuTakes(procs: seq<Proc>, cpus: seq<int>, c: int, i: int, q: Proc)
    requires CpusOk(procs, cpus) && 0 <= c < |cpus| && cpus[c] == -1 && 0 <= i < |procs| &&
             procs[i].state != RUNNING && q.state == RUNNING
    ensures CpusOk(procs[i := q], cpus[c := i])
  {
    var procs', cpus' := procs[i := q], cpus[c := i];
    forall j | 0 <= j < |procs'| && procs'[j].state == RUNNING
      ensures exists d :: 0 <= d < |cpus'| && cpus'[d] == j
    {
      if j == i {
        assert cpus'[c] == i;
      } else {
        assert procs[j].state == RUNNING;
        var d :| 0 <= d < |cpus| && cpus[d] == j;
        assert cpus'[d] == j;
      }
    }
  }

  lemma {:induction false} CpuDrops(procs: seq<Proc>, cpus: seq<int>, c: int, q: Proc)
    requires CpusOk(procs, cpus) && 0 <= c < |cpus| && 0 <= cpus[c] < |procs| && q.state != RUNNING
    ensures CpusOk(procs[cpus[c] := q], cpus[c := -1])
  {
    var procs', cpus' := procs[cpus[c] := q], cpus[c := -1];
    forall j | 0 <= j < |procs'| && procs'[j].state == RUNNING
      ensures exists d :: 0 <= d < |cpus'| && cpus'[d] == j
    {
      assert procs[j].state == RUNNING;
      var d :| 0 <= d < |cpus| && cpus[d] == j;
      assert cpus'[d] == j;
    }
  }

  // ----- Waiters -----

  lemma {:induction false} WaitersSame(procs: seq<Proc>, procs': seq<Proc>)
    requires WaitersOk(procs) && |procs'| == |procs|
    requires forall i :: 0 <= i < |procs| && procs'[i].state == SLEEPING && procs'[i].chan.OnProc? ==>
               procs[i].state == SLEEPING && procs[i].chan == procs'[i].chan
    requires forall j :: 0 <= j < |procs| && procs'[j].state == ZOMBIE ==>
             procs[j].state == ZOMBIE && procs[j].parent == procs'[j].parent
    ensures WaitersOk(procs')
  {
    forall i | 0 <= i < |procs'| && procs'[i].state == SLEEPING && procs'[i].chan.OnProc?
      ensures procs'[i].chan.slot == i && NoZombie(procs', i)
    {
      assert procs[i].state == SLEEPING && NoZombie(procs, i);
      forall j | 0 <= j < |procs'| && procs'[j].parent == i
        ensures procs'[j].state != ZOMBIE
      {
        assert procs[j] == procs[j];
      }
    }
  }

  // ----- Parents -----

  lemma {:induction false} ParentsSame(procs: seq<Proc>, procs': seq<Proc>, init: int)
    requires ParentsOk(procs, init) && |procs'| == |procs|
    requires forall i :: 0 <= i < |procs| && Alive(procs[i]) ==> Alive(procs'[i])
    requires forall i :: 0 <= i < |procs| ==>
               if procs'[i].state == UNUSED || procs'[i].state == EMBRYO then procs'[i].parent == -1
               else procs[i].state != UNUSED && procs[i].state != EMBRYO && procs'[i].parent == procs[i].parent
    ensures ParentsOk(procs', init)
  {
    forall i | 0 <= i < |procs'|
      ensures if procs'[i].state == UNUSED || procs'[i].state == EMBRYO || i == init then procs'[i].parent == -1
              else 0 <= procs'[i].parent < |procs'| && procs'[i].parent != i && Alive(procs'[procs'[i].parent])
    {
      assert procs[i] == procs[i];
    }
  }

  // ----- Pids -----

  lemma {:induction false} PidsSame(procs: seq<Proc>, procs': seq<Proc>, nextpid: int, reaped: seq<int>, gone: seq<int>)
    requires PidsOk(procs, nextpid, reaped, gone) && |procs'| == |procs|
    requires forall i :: 0 <= i < |procs| && procs'[i].state != UNUSED ==>
             procs[i].state != UNUSED && procs'[i].pid == procs[i].pid
    requires forall i :: 0 <= i < |procs| ==> (procs'[i].state == ZOMBIE <==> procs[i].state == ZOMBIE)
    ensures PidsOk(procs', nextpid, reaped, gone)
  {
    forall p | p in gone
      ensures p < nextpid && (p in reaped || exists i ::
              0 <= i < |procs'| && procs'[i].state == ZOMBIE && procs'[i].pid == p)
    {
      if p !in reaped {
        var i :| 0 <= i < |procs| && procs[i].state == ZOMBIE && procs[i].pid == p;
        assert procs'[i].state == ZOMBIE && procs'[i].pid == p;
      }
    }
    forall i | 0 <= i < |procs'| && procs'[i].state != UNUSED
      ensures procs'[i].pid < nextpid && procs'[i].pid !in reaped &&
              (procs'[i].state == ZOMBIE <==> procs'[i].pid in gone)
    {
      assert procs[i].state != UNUSED;
    }
  }

  /** A scan that only wakes sleepers, or passes children on, keeps what does not depend on
      that. */
  lemma {:induction false} WokenKeeps(t: Table, chan: Chan)
    requires t in Sound()
    ensures t.(procs := Woken(t.procs, chan)) in Sound()
  {
    var procs' := Woken(t.procs, chan);
    CpusSame(t.procs, procs', t.cpus);
    WaitersSame(t.procs, procs');
    ParentsSame(t.procs, procs', t.init);
    PidsSame(t.procs, procs', t.nextpid, t.reaped, t.gone);
  }

  lemma {:induction false} AllocKeeps(t: Table, i: int)
    requires t in Sound() && Step(t, Alloc(i)).Next?
    ensures Step(t, Alloc(i)).t in Sound()
  {
    var procs' := t.procs[i := t.procs[i].(state := EMBRYO, pid := t.nextpid)];
    CpusSame(t.procs, procs', t.cpus);
    WaitersSame(t.procs, procs');
    ParentsSame(t.procs, procs', t.init);
    NewPid(t.procs, i, t.procs[i].(state := EMBRYO, pid := t.nextpid), t.nextpid, t.reaped, t.gone);
  }

  lemma {:induction false} NewPid(procs: seq<Proc>, i: int, q: Proc, nextpid: int, reaped: seq<int>, gone: seq<int>)
    requires PidsOk(procs, nextpid, reaped, gone) && 0 <= i < |procs| && procs[i].state == UNUSED &&
             q.state == EMBRYO && q.pid == nextpid
    ensures PidsOk(procs[i := q], nextpid + 1, reaped, gone)
  {
    var procs' := procs[i := q];
    assert nextpid !in gone;
    assert nextpid !in reaped;
    forall p | p in gone
      ensures p < nextpid + 1 && (p in reaped || exists j ::
              0 <= j < |procs'| && procs'[j].state == ZOMBIE && procs'[j].pid == p)
    {
      if p !in reaped {
        var j :| 0 <= j < |procs| && procs[j].state == ZOMBIE && procs[j].pid == p;
        assert procs'[j].state == ZOMBIE && procs'[j].pid == p;
      }
    }
    forall j | 0 <= j < |procs'| && procs'[j].state != UNUSED
      ensures procs'[j].pid < nextpid + 1 && procs'[j].pid !in reaped &&
              (procs'[j].state == ZOMBIE <==> procs'[j].pid in gone)
      ensures j != i ==> procs'[j].pid != nextpid
    {
      assert j != i ==> procs[j].state != UNUSED;
    }
  }

  lemma {:induction false} AbortKeeps(t: Table, i: int)
    requires t in Sound() && Step(t, Abort(i)).Next?
    ensures Step(t, Abort(i)).t in Sound()
  {
    var procs' := t.procs[i := t.procs[i].(state := UNUSED)];
    CpusSame(t.procs, procs', t.cpus);
    WaitersSame(t.procs, procs');
    ParentsSame(t.procs, procs', t.init);
    PidsSame(t.procs, procs', t.nextpid, t.reaped, t.gone);
  }

  lemma {:induction false} StartKeeps(t: Table, c: int, i: int)
    requires t in Sound() && Step(t, Start(c, i)).Next?
    ensures Step(t, Start(c, i)).t in Sound()
  {
    var procs' := t.procs[i := t.procs[i].(state := RUNNABLE, parent := t.cpus[c])];
    assert t.procs[t.cpus[c]].state == RUNNING;
    CpusSame(t.procs, procs', t.cpus);
    WaitersSame(t.procs, procs');
    PidsSame(t.procs, procs', t.nextpid, t.reaped, t.gone);
    StartParents(t.procs, i, t.cpus[c], t.init);
  }

  lemma {:induction false} StartParents(procs: seq<Proc>, i: int, p: int, init: int)
    requires ParentsOk(procs, init) && 0 <= i < |procs| && 0 <= p < |procs| && procs[i].state == EMBRYO &&
             procs[p].state == RUNNING
    ensures ParentsOk(procs[i := procs[i].(state := RUNNABLE, parent := p)], init)
  {
    var procs' := procs[i := procs[i].(state := RUNNABLE, parent := p)];
    forall j | 0 <= j < |procs'|
      ensures if procs'[j].state == UNUSED || procs'[j].state == EMBRYO || j == init then procs'[j].parent == -1
              else 0 <= procs'[j].parent < |procs'| && procs'[j].parent != j && Alive(procs'[procs'[j].parent])
    {
      assert procs[j] == procs[j];
    }
  }

  lemma {:induction false} ScheduleKeeps(t: Table, c: int, i: int)
    requires t in Sound() && Step(t, Schedule(c, i)).Next?
    ensures Step(t, Schedule(c, i)).t in Sound()
  {
    var q := t.procs[i].(state := RUNNING, chan := Nothing);
    CpuTakes(t.procs, t.cpus, c, i, q);
    WaitersSame(t.procs, t.procs[i := q]);
    StillAlive(t.procs, i, q, t.init, t.nextpid, t.reaped, t.gone);
  }

  /** A process gives up its processor and is runnable, or asleep on something else. */
  lemma {:induction false} DropKeeps(t: Table, c: int, q: Proc)
    requires t in Sound() && Running(t, c)
    requires var p := t.procs[t.cpus[c]];
             q == p.(state := RUNNABLE) || (q.chan.OnOther? && q == p.(state := SLEEPING, chan := q.chan))
    ensures t.(procs := t.procs[t.cpus[c] := q], cpus := t.cpus[c := -1]) in Sound()
  {
    var procs' := t.procs[t.cpus[c] := q];
    assert t.procs[t.cpus[c]].state == RUNNING;
    CpuDrops(t.procs, t.cpus, c, q);
    WaitersSame(t.procs, procs');
    StillAlive(t.procs, t.cpus[c], q, t.init, t.nextpid, t.reaped, t.gone);
  }

  lemma {:induction false} KilledIs(procs: seq<Proc>, pid: int, i: int, j: int)
    requires 0 <= i <= |procs| && 0 <= j < |procs|
    ensures var q := Killed(procs, pid, i)[j];
            q == procs[j] || q == procs[j].(killed := true, state := if procs[j].state == SLEEPING
              then RUNNABLE else procs[j].state)
    decreases |procs| - i
  {
    if i < |procs| && procs[i].pid != pid {
      KilledIs(procs, pid, i + 1, j);
    }
  }

  lemma {:induction false} KillKeeps(t: Table, pid: int)
    requires t in Sound()
    ensures t.(procs := Killed(t.procs, pid, 0)) in Sound()
  {
    var procs' := Killed(t.procs, pid, 0);
    forall j | 0 <= j < |procs'|
      ensures procs'[j] == t.procs[j] || procs'[j] == t.procs[j].(killed := true,
              state := if t.procs[j].state == SLEEPING then RUNNABLE else t.procs[j].state)
    {
      KilledIs(t.procs, pid, 0, j);
    }
    CpusSame(t.procs, procs', t.cpus);
    WaitersSame(t.procs, procs');
    ParentsSame(t.procs, procs', t.init);
    PidsSame(t.procs, procs', t.nextpid, t.reaped, t.gone);
  }

  // ----- Wait -----

  lemma {:induction false} ReapKeeps(t: Table, z: int)
    requires t in Sound() && 0 <= z < |t.procs| && t.procs[z].state == ZOMBIE
    ensures t.(procs := t.procs[z := FREE], reaped := t.reaped + [t.procs[z].pid]) in Sound()
  {
    ReapCpus(t.procs, t.cpus, z);
    ReapWaiters(t.procs, z);
    ReapParents(t.procs, t.init, z);
    ReapPids(t.procs, z, t.nextpid, t.reaped, t.gone);
  }

  lemma {:induction false} ReapCpus(procs: seq<Proc>, cpus: seq<int>, z: int)
    requires CpusOk(procs, cpus) && 0 <= z < |procs| && procs[z].state == ZOMBIE
    ensures CpusOk(procs[z := FREE], cpus)
  {
    CpusSame(procs, procs[z := FREE], cpus);
  }

  lemma {:induction false} ReapWaiters(procs: seq<Proc>, z: int)
    requires WaitersOk(procs) && 0 <= z < |procs| && procs[z].state == ZOMBIE
    ensures WaitersOk(procs[z := FREE])
  {
    WaitersSame(procs, procs[z := FREE]);
  }

  lemma {:induction false} ReapParents(procs: seq<Proc>, init: int, z: int)
    requires ParentsOk(procs, init) && 0 <= z < |procs| && procs[z].state == ZOMBIE
    ensures ParentsOk(procs[z := FREE], init)
  {
    ParentsSame(procs, procs[z := FREE], init);
  }

  lemma {:induction false} ReapPids(procs: seq<Proc>, z: int, nextpid: int, reaped: seq<int>, gone: seq<int>)
    requires PidsOk(procs, nextpid, reaped, gone) && 0 <= z < |procs| && procs[z].state == ZOMBIE
    ensures PidsOk(procs[z := FREE], nextpid, reaped + [procs[z].pid], gone)
  {
    var procs', reaped' := procs[z := FREE], reaped + [procs[z].pid];
    assert procs[z].pid !in reaped && procs[z].pid in gone;
    forall p | p in gone
      ensures p < nextpid && (p in reaped' || exists i ::
              0 <= i < |procs'| && procs'[i].state == ZOMBIE && procs'[i].pid == p)
    {
      if p !in reaped' {
        assert p !in reaped && p != procs[z].pid;
        var i :| 0 <= i < |procs| && procs[i].state == ZOMBIE && procs[i].pid == p;
        assert procs'[i].state == ZOMBIE && procs'[i].pid == p;
      }
    }
    forall i | 0 <= i < |procs'| && procs'[i].state != UNUSED
      ensures procs'[i].pid < nextpid && procs'[i].pid !in reaped' &&
              (procs'[i].state == ZOMBIE <==> procs'[i].pid in gone)
    {
      assert procs[i].state != UNUSED && procs[z] == procs[z];
    }
    forall i, j | 0 <= i < j < |reaped'|
      ensures reaped'[i] != reaped'[j]
    {
      assert reaped'[i] == reaped[i] && reaped[i] in reaped;
      assert j < |reaped| ==> reaped'[j] == reaped[j];
    }
  }

  /** Falling asleep in wait, after a scan that found no zombie child. */
  lemma {:induction false} WaitSleepKeeps(t: Table, c: int)
    requires t in Sound() && Running(t, c) && FirstZombie(t.procs, t.cpus[c], 0) == |t.procs|
    ensures var p := t.cpus[c];
            t.(procs := t.procs[p := t.procs[p].(state := SLEEPING, chan := OnProc(p))],
              cpus := t.cpus[c := -1]) in Sound()
  {
    var p := t.cpus[c];
    var q := t.procs[p].(state := SLEEPING, chan := OnProc(p));
    assert t.procs[p].state == RUNNING;
    CpuDrops(t.procs, t.cpus, c, q);
    StillAlive(t.procs, p, q, t.init, t.nextpid, t.reaped, t.gone);
    SleeperOk(t.procs, p, q);
  }

  lemma {:induction false} StillAlive(procs: seq<Proc>, p: int, q: Proc, init: int, nextpid: int, reaped: seq<int>,
                                      gone: seq<int>)
    requires ParentsOk(procs, init) && PidsOk(procs, nextpid, reaped, gone) && 0 <= p < |procs| && Alive(procs[p]) &&
             Alive(q)
    requires q.pid == procs[p].pid && q.parent == procs[p].parent
    ensures ParentsOk(procs[p := q], init) && PidsOk(procs[p := q], nextpid, reaped, gone)
  {
    ParentsSame(procs, procs[p := q], init);
    PidsSame(procs, procs[p := q], nextpid, reaped, gone);
  }

  lemma {:induction false} SleeperOk(procs: seq<Proc>, p: int, q: Proc)
    requires WaitersOk(procs) && 0 <= p < |procs| && q == procs[p].(state := SLEEPING, chan := OnProc(p)) &&
             procs[p].state == RUNNING
    requires FirstZombie(procs, p, 0) == |procs|
    ensures WaitersOk(procs[p := q])
  {
    var procs' := procs[p := q];
    forall i | 0 <= i < |procs'| && procs'[i].state == SLEEPING && procs'[i].chan.OnProc?
      ensures procs'[i].chan.slot == i && NoZombie(procs', i)
    {
      assert i != p ==> procs[i].state == SLEEPING && NoZombie(procs, i);
      forall j | 0 <= j < |procs'| && procs'[j].parent == i
        ensures procs'[j].state != ZOMBIE
      {
        assert procs[j] == procs[j];
      }
    }
  }

  lemma {:induction false} WaitKeeps(t: Table, c: int)
    requires t in Sound() && Running(t, c)
    ensures WaitStep(t, c).Next? && WaitStep(t, c).t in Sound()
  {
    var z := FirstZombie(t.procs, t.cpus[c], 0);
    if z < |t.procs| {
      ReapKeeps(t, z);
    } else {
      WaitSleepKeeps(t, c);
    }
  }

  // ----- Exit -----

  /** The entries after exit has woken the parent and passed the children on. */
  function Bequeathed(procs: seq<Proc>, p: int, init: int): (r: seq<Proc>)
    ensures |r| == |procs|
  {
    if HasZombie(procs, p) then Woken(Adopted(procs, p, init), OnProc(init)) else Adopted(procs, p, init)
  }

  /** What becomes of one entry: its parent may be init now, and it may be awake. */
  lemma {:induction false} BequeathedIs(procs: seq<Proc>, p: int, init: int, i: int)
    requires 0 <= i < |procs|
    ensures var q, r := procs[i], Bequeathed(procs, p, init)[i];
            && r.parent == (if q.parent == p then init else q.parent) && r.pid == q.pid && r.chan == q.chan &&
               r.killed == q.killed
            && (r.state == q.state || (q.state == SLEEPING && r.state == RUNNABLE))
    ensures HasZombie(procs, p) ==> !(Bequeathed(procs, p, init)[i].state == SLEEPING && procs[i].chan == OnProc(init))
  {
  }

  lemma {:induction false} ExitWaiters(procs: seq<Proc>, p: int, init: int, r: seq<Proc>)
    requires WaitersOk(procs) && 0 <= p < |procs| && procs[p].state == RUNNING && procs[p].parent != p && p != init
    requires forall i :: 0 <= i < |procs| ==> !(procs[i].state == SLEEPING && procs[i].chan == OnProc(procs[p].parent))
    requires r == Bequeathed(procs, p, init)
    ensures WaitersOk(r[p := r[p].(state := ZOMBIE)])
  {
    var s := r[p := r[p].(state := ZOMBIE)];
    forall i | 0 <= i < |s| && s[i].state == SLEEPING && s[i].chan.OnProc?
      ensures s[i].chan.slot == i && NoZombie(s, i)
    {
      BequeathedIs(procs, p, init, i);
      assert procs[i].state == SLEEPING && NoZombie(procs, i);
      forall j | 0 <= j < |s| && s[j].parent == i
        ensures s[j].state != ZOMBIE
      {
        BequeathedIs(procs, p, init, j);
        assert procs[j] == procs[j];
      }
    }
  }

  lemma {:induction false} ExitParents(procs: seq<Proc>, p: int, init: int, r: seq<Proc>)
    requires ParentsOk(procs, init) && 0 <= p < |procs| && procs[p].state == RUNNING && p != init &&
             r == Bequeathed(procs, p, init)
    ensures ParentsOk(r[p := r[p].(state := ZOMBIE)], init)
  {
    var s := r[p := r[p].(state := ZOMBIE)];
    BequeathedIs(procs, p, init, init);
    forall i | 0 <= i < |s|
      ensures if s[i].state == UNUSED || s[i].state == EMBRYO || i == init then s[i].parent == -1
              else 0 <= s[i].parent < |s| && s[i].parent != i && Alive(s[s[i].parent])
    {
      BequeathedIs(procs, p, init, i);
      assert procs[i] == procs[i] && procs[init] == procs[init];
      if 0 <= procs[i].parent < |procs| {
        BequeathedIs(procs, p, init, procs[i].parent);
      }
    }
  }

  lemma {:induction false} ExitPids(procs: seq<Proc>, p: int, q: Proc, nextpid: int, reaped: seq<int>, gone: seq<int>)
    requires PidsOk(procs, nextpid, reaped, gone) && 0 <= p < |procs| && procs[p].state == RUNNING &&
             q == procs[p].(state := ZOMBIE)
    ensures PidsOk(procs[p := q], nextpid, reaped, gone + [q.pid])
  {
    var procs', gone' := procs[p := q], gone + [q.pid];
    assert q.pid !in gone && q.pid !in reaped && q.pid < nextpid;
    forall x | x in gone'
      ensures x < nextpid && (x in reaped || exists i ::
              0 <= i < |procs'| && procs'[i].state == ZOMBIE && procs'[i].pid == x)
    {
      if x == q.pid {
        assert procs'[p].state == ZOMBIE && procs'[p].pid == x;
      } else if x !in reaped {
        assert x in gone;
        var i :| 0 <= i < |procs| && procs[i].state == ZOMBIE && procs[i].pid == x;
        assert procs'[i].state == ZOMBIE && procs'[i].pid == x;
      }
    }
    forall i | 0 <= i < |procs'| && procs'[i].state != UNUSED
      ensures procs'[i].pid < nextpid && procs'[i].pid !in reaped &&
              (procs'[i].state == ZOMBIE <==> procs'[i].pid in gone')
    {
      assert procs[i].state != UNUSED && procs[p] == procs[p];
    }
    forall i, j | 0 <= i < j < |gone'|
      ensures gone'[i] != gone'[j]
    {
      assert gone'[i] == gone[i] && gone[i] in gone;
      assert j < |gone| ==> gone'[j] == gone[j];
    }
  }

  lemma {:induction false} ExitKeeps(t: Table, c: int)
    requires t in Sound() && Running(t, c) && ExitStep(t, c).Next?
    ensures ExitStep(t, c).t in Sound()
  {
    var p := t.cpus[c];
    assert t.procs[p].state == RUNNING;
    var par := t.procs[p].parent;
    WokenKeeps(t, OnProc(par));
    var procs := Woken(t.procs, OnProc(par));
    var r := Bequeathed(procs, p, t.init);
    assert procs[p] == t.procs[p];
    forall i | 0 <= i < |r|
      ensures r[i].pid == procs[i].pid && (r[i].state == procs[i].state ||
              (procs[i].state == SLEEPING && r[i].state == RUNNABLE))
    {
      BequeathedIs(procs, p, t.init, i);
    }
    CpusSame(procs, r, t.cpus);
    CpuDrops(r, t.cpus, c, r[p].(state := ZOMBIE));
    ExitWaiters(procs, p, t.init, r);
    ExitParents(procs, p, t.init, r);
    PidsSame(procs, r, t.nextpid, t.reaped, t.gone);
    ExitPids(r, p, r[p].(state := ZOMBIE), t.nextpid, t.reaped, t.gone);
  }

  // ----- Runs -----

  lemma {:induction false} StepKeeps(t: Table, l: Label)
    requires t in Sound() && Step(t, l).Next?
    ensures Step(t, l).t in Sound()
  {
    match l
    case Alloc(i) => AllocKeeps(t, i);
    case Abort(i) => AbortKeeps(t, i);
    case Start(c, i) => StartKeeps(t, c, i);
    case Schedule(c, i) => ScheduleKeeps(t, c, i);
    case Yield(c) => DropKeeps(t, c, t.procs[t.cpus[c]].(state := RUNNABLE));
    case Sleep(c, addr) => DropKeeps(t, c, t.procs[t.cpus[c]].(state := SLEEPING, chan := OnOther(addr)));
    case Wakeup(addr) => WokenKeeps(t, OnOther(addr));
    case Kill(pid) => KillKeeps(t, pid);
    case Exit(c) => ExitKeeps(t, c);
    case Wait(c) => WaitKeeps(t, c);
  }

  lemma {:induction false} RunKeeps(t: Table, ls: seq<Label>)
    requires t in Sound() && Runs(t, ls).Next?
    ensures Runs(t, ls).t in Sound()
    decreases |ls|
  {
    if ls != [] {
      StepKeeps(t, ls[0]);
      RunKeeps(Step(t, ls[0]).t, ls[1..]);
    }
  }

  // ----- What runs promise -----

  /** The table with init alone, about to run for the first time (proc.c:128-161). */
  predicate Booted(t: Table)
  {
    && 0 <= t.init < |t.procs| && t.procs[t.init] == Proc(RUNNABLE, 1, -1, Nothing, false)
    && (forall i :: 0 <= i < |t.procs| && i != t.init ==> t.procs[i] == FREE)
    && (forall c :: 0 <= c < |t.cpus| ==> t.cpus[c] == -1)
    && t.nextpid == 2 && t.reaped == [] && t.gone == []
  }

  lemma {:induction false} BootedSound(t: Table)
    requires Booted(t)
    ensures t in Sound()
  {
  }

  /** No process asleep in wait has a zombie child, whatever happened before. */
  lemma {:induction false} NoWaiterHasZombie(t: Table, ls: seq<Label>, i: int, j: int)
    requires Booted(t) && Runs(t, ls).Next?
    requires var u := Runs(t, ls).t;
             && 0 <= i < |u.procs| && 0 <= j < |u.procs|
             && u.procs[i].state == SLEEPING && u.procs[i].chan == OnProc(i)
    ensures var u := Runs(t, ls).t; !(u.procs[j].parent == i && u.procs[j].state == ZOMBIE)
  {
    BootedSound(t);
    RunKeeps(t, ls);
    var u := Runs(t, ls).t;
    assert u.procs[j] == u.procs[j] && u.procs[i].state == SLEEPING;
  }

  /** A process is RUNNING if and only if exactly one processor runs it. */
  lemma {:induction false} RunningOnOneCpu(t: Table, ls: seq<Label>, i: int)
    requires Booted(t) && Runs(t, ls).Next? && 0 <= i < |Runs(t, ls).t.procs|
    ensures var u := Runs(t, ls).t;
            u.procs[i].state == RUNNING <==>
            exists c :: 0 <= c < |u.cpus| && u.cpus[c] == i && forall d :: 0 <= d < |u.cpus| && u.cpus[d] == i ==>
              d == c
  {
    BootedSound(t);
    RunKeeps(t, ls);
    var u := Runs(t, ls).t;
    if u.procs[i].state == RUNNING {
      var c :| 0 <= c < |u.cpus| && u.cpus[c] == i;
    }
  }

  /** wait returns each pid at most once and only for a process that has exited; a process that
      has exited and was not returned yet is a zombie whose parent is alive. */
  lemma {:induction false} ReapedOnce(t: Table, ls: seq<Label>, x: int)
    requires Booted(t) && Runs(t, ls).Next?
    ensures var u := Runs(t, ls).t;
            && multiset(u.reaped)[x] <= 1 && multiset(u.reaped)[x] <= multiset(u.gone)[x] <= 1
            && (x in u.gone && x !in u.reaped ==>
                exists i :: 0 <= i < |u.procs| && u.procs[i].state == ZOMBIE && u.procs[i].pid == x
                            && 0 <= u.procs[i].parent < |u.procs| && Alive(u.procs[u.procs[i].parent]))
  {
    BootedSound(t);
    RunKeeps(t, ls);
    var u := Runs(t, ls).t;
    Once(u.reaped, x);
    Once(u.gone, x);
    if x in u.gone && x !in u.reaped {
      var i :| 0 <= i < |u.procs| && u.procs[i].state == ZOMBIE && u.procs[i].pid == x;
      assert u.procs[u.init] == u.procs[u.init];
    }
  }

  lemma {:induction false} Once(s: seq<int>, x: int)
    requires NoRepeat(s)
    ensures multiset(s)[x] == if x in s then 1 else 0
    decreases |s|
  {
    if s != [] {
      var r := s[1..];
      assert s == [s[0]] + r;
      assert NoRepeat(r);
      Once(r, x);
      assert s[0] !in r;
    }
  }

  /** A round of wait returns a pid exactly when the caller has a zombie child. */
  lemma {:induction false} WaitReapsIff(t: Table, c: int)
    requires Running(t, c)
    ensures WaitStep(t, c).Next?
    ensures |WaitStep(t, c).t.reaped| > |t.reaped| <==> HasZombie(t.procs, t.cpus[c])
  {
  }

  // ----- Killed before birth -----

  /** The first entry with a pid, whatever its state, or the number of entries. */
  function FirstPid(procs: seq<Proc>, pid: int, i: int): (r: int)
    requires 0 <= i <= |procs|
    ensures i <= r <= |procs| && (r < |procs| ==> procs[r].pid == pid)
    ensures forall j :: i <= j < r ==> procs[j].pid != pid
    decreases |procs| - i
  {
    if i == |procs| || procs[i].pid == pid then i else FirstPid(procs, pid, i + 1)
  }

  /** kill marks that entry and no other. */
  lemma {:induction false} KillMarks(procs: seq<Proc>, pid: int, i: int, j: int)
    requires 0 <= i <= |procs| && 0 <= j < |procs|
    ensures Killed(procs, pid, i)[j].killed <==> procs[j].killed || j == FirstPid(procs, pid, i)
    ensures Killed(procs, pid, i)[j].state == UNUSED <==> procs[j].state == UNUSED
    decreases |procs| - i
  {
    if i < |procs| && procs[i].pid != pid {
      KillMarks(procs, pid, i + 1, j);
    }
  }

  predicate MarkedUnused(procs: seq<Proc>, i: int)
    requires 0 <= i < |procs|
  {
    procs[i].state == UNUSED && procs[i].killed
  }

  /** An unused entry is marked killed after a step if and only if it was before and was not allocated,
      or kill found no earlier entry with its pid, or a killed process gave it back half made. */
  lemma {:induction false} MarkedUnusedIff(t: Table, l: Label, i: int)
    requires t in Sound() && Step(t, l).Next? && 0 <= i < |t.procs|
    ensures |Step(t, l).t.procs| == |t.procs|
    ensures MarkedUnused(Step(t, l).t.procs, i) <==>
            || (MarkedUnused(t.procs, i) && l != Alloc(i))
            || (t.procs[i].state == UNUSED && l.Kill? && FirstPid(t.procs, l.pid, 0) == i)
            || (l == Abort(i) && t.procs[i].killed)
  {
    match l {
      case Kill(pid) => KillMarks(t.procs, pid, 0, i);
      case Exit(c) =>
        assert t.procs[t.cpus[c]].state == RUNNING;
        ExitKilled(t, c, i);
      case _ =>
    }
  }

  lemma {:induction false} ExitKilled(t: Table, c: int, i: int)
    requires Running(t, c) && ExitStep(t, c).Next? && 0 <= i < |t.procs| && t.procs[t.cpus[c]].state == RUNNING
    ensures |ExitStep(t, c).t.procs| == |t.procs|
    ensures ExitStep(t, c).t.procs[i].killed == t.procs[i].killed
    ensures ExitStep(t, c).t.procs[i].state == UNUSED <==> t.procs[i].state == UNUSED
  {
    var p := t.cpus[c];
    var woken := Woken(t.procs, OnProc(t.procs[p].parent));
    BequeathedIs(woken, p, t.init, i);
    var passed := Bequeathed(woken, p, t.init);
    assert ExitStep(t, c).t.procs == passed[p := passed[p].(state := ZOMBIE)];
  }

  /** A process is born killed if and only if its entry was marked while it was unused. */
  lemma {:induction false} BornKilledIff(t: Table, i: int)
    requires Step(t, Alloc(i)).Next?
    ensures 0 <= i < |t.procs| && Step(t, Alloc(i)).t.procs[i].pid == t.nextpid
    ensures Step(t, Alloc(i)).t.procs[i].killed <==> MarkedUnused(t.procs, i)
  {
  }

  /** It happens: after boot, kill(0) finds the first unused entry, and the next process is born killed
      although nobody has named its pid. */
  lemma {:induction false} KillZero(t: Table, i: int)
    requires Booted(t) && IsFirst(t.procs, i, UNUSED)
    ensures Runs(t, [Kill(0), Alloc(i)]).Next? && 0 <= i < |Runs(t, [Kill(0), Alloc(i)]).t.procs|
    ensures var q := Runs(t, [Kill(0), Alloc(i)]).t.procs[i]; q.state == EMBRYO && q.pid == 2 && q.killed
  {
    assert FirstPid(t.procs, 0, 0) == i;
    var u := Step(t, Kill(0)).t;
    forall j | 0 <= j < |t.procs|
      ensures u.procs[j].state == UNUSED <==> t.procs[j].state == UNUSED
    {
      KillMarks(t.procs, 0, 0, j);
    }
    KillMarks(t.procs, 0, 0, i);
    assert IsFirst(u.procs, i, UNUSED);
    BornKilledIff(u, i);
    assert [Kill(0), Alloc(i)][1..] == [Alloc(i)] && [Alloc(i)][1..] == [];
    assert Runs(u, [Alloc(i)]) == Runs(Step(u, Alloc(i)).t, []);
  }
}
