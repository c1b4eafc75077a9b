/** What holds along every run of the machine, from the states it went through. */
module VmHistory {
  import opened Common
  import opened VmState
  import opened VmContents
  import opened VmOps
  import opened Vm
  import opened VmRuns
  import opened VmMachine

  // ----- Second chance -----

  /** An operation of another process, or a pass of swap, leaves a process in the table as it was. */
  lemma {:induction false} Bystands(s: Snapshot, cap: int, op: Op, e: Event, s': Snapshot, p: int)
    requires Follows(s, cap, op, e, s') && p in s.procs && (op.DoSwap? || op.p != p)
    ensures p in s'.procs && s'.procs[p] == s.procs[p]
  {
  }

  lemma {:induction false} EntryStays(s: Snapshot, cap: int, op: Op, e: Event, s': Snapshot, p: int, page: int)
    requires Follows(s, cap, op, e, s') && p in s.procs && !op.DoSwap? && op.p != p
    ensures Get(s'.k.ptes, At(s.procs[p].dir, page)) == Get(s.k.ptes, At(s.procs[p].dir, page))
  {
    assert Tab(s.procs[p].dir, -1) in s.k.tabs;
    if op.p in s.procs {
      assert s.procs[op.p].dir != s.procs[p].dir;
    }
  }

  /** From a pass of swap on, and as long as the process does nothing, its pages below the size that are present
      and not shared are not marked as accessed. */
  lemma {:induction false} Unaccessed(hs: seq<Snapshot>, cap: int, ops: seq<Op>, es: seq<Event>, i: int, j: int,
                                      p: int, page: int)
    requires IsRun(hs, cap, ops, es) && 0 <= i < j <= |es| && ops[i].DoSwap?
    requires forall n :: i < n < j ==> ops[n].DoSwap? || ops[n].p != p
    requires p in hs[i].procs && 0 <= page && page * PGSIZE < hs[i].procs[p].sz
    ensures p in hs[j].procs && hs[j].procs[p] == hs[i].procs[p]
    ensures var e := Get(hs[j].k.ptes, At(hs[i].procs[p].dir, page)); e.p && !e.c ==> !e.a
    decreases j
  {
    assert hs[j] in After(hs[j - 1], cap, ops[j - 1], es[j - 1]);
    if i < j - 1 {
      Unaccessed(hs, cap, ops, es, i, j - 1, p, page);
      if !ops[j - 1].DoSwap? {
        EntryStays(hs[j - 1], cap, ops[j - 1], es[j - 1], hs[j], p, page);
      }
    }
    Bystands(hs[j - 1], cap, ops[j - 1], es[j - 1], hs[j], p);
  }

  /** In any run, two passes of swap between which a process does nothing leave none of its pages below the size
      present, but for shared ones, whatever the other processes do. */
  lemma {:induction false} SecondChance(hs: seq<Snapshot>, cap: int, ops: seq<Op>, es: seq<Event>, i: int, j: int,
                                        p: int, page: int)
    requires IsRun(hs, cap, ops, es) && 0 <= i < j < |es| && ops[i].DoSwap? && ops[j].DoSwap?
    requires forall n :: i < n < j ==> ops[n].DoSwap? || ops[n].p != p
    requires p in hs[i].procs && 0 <= page && page * PGSIZE < hs[i].procs[p].sz
    ensures p in hs[j + 1].procs && hs[j + 1].procs[p] == hs[i].procs[p]
    ensures var e := Get(hs[j + 1].k.ptes, At(hs[i].procs[p].dir, page)); e.p ==> e.c
  {
    Unaccessed(hs, cap, ops, es, i, j, p, page);
    assert hs[j + 1] in After(hs[j], cap, ops[j], es[j]);
  }

  /** As long as a process does nothing and swap does not pass, its entries stay. */
  lemma {:induction false} EntryKept(hs: seq<Snapshot>, cap: int, ops: seq<Op>, es: seq<Event>, i: int, j: int,
                                     p: int, page: int)
    requires IsRun(hs, cap, ops, es) && 0 <= i <= j <= |es| && p in hs[i].procs
    requires forall n :: i <= n < j ==> !ops[n].DoSwap? && ops[n].p != p
    ensures p in hs[j].procs && hs[j].procs[p] == hs[i].procs[p]
    ensures Get(hs[j].k.ptes, At(hs[i].procs[p].dir, page)) == Get(hs[i].k.ptes, At(hs[i].procs[p].dir, page))
    decreases j
  {
    if i < j {
      EntryKept(hs, cap, ops, es, i, j - 1, p, page);
      assert hs[j] in After(hs[j - 1], cap, ops[j - 1], es[j - 1]);
      EntryStays(hs[j - 1], cap, ops[j - 1], es[j - 1], hs[j], p, page);
      Bystands(hs[j - 1], cap, ops[j - 1], es[j - 1], hs[j], p);
    }
  }

  /** In any run, a page that was loaded from or stored to survives the next pass of swap. */
  lemma {:induction false} FirstChance(hs: seq<Snapshot>, cap: int, ops: seq<Op>, es: seq<Event>, i: int, j: int)
    requires IsRun(hs, cap, ops, es) && 0 <= i < j < |es| && (es[i].Read? || es[i].Wrote?) && ops[j].DoSwap?
    requires forall n :: i < n < j ==> !ops[n].DoSwap? && ops[n].p != es[i].p
    ensures es[i].p in hs[j + 1].procs && Get(hs[j + 1].k.ptes, At(hs[j + 1].procs[es[i].p].dir, es[i].addr / PGSIZE)).p
  {
    var p, page := es[i].p, es[i].addr / PGSIZE;
    assert hs[i + 1] in After(hs[i], cap, ops[i], es[i]);
    Marks(hs[i], cap, ops[i], es[i], hs[i + 1]);
    EntryKept(hs, cap, ops, es, i + 1, j, p, page);
    assert hs[j + 1] in After(hs[j], cap, ops[j], es[j]);
    PassStays(hs[j], cap, ops[j], es[j], hs[j + 1], p, page);
  }

  lemma {:induction false} Marks(s: Snapshot, cap: int, op: Op, e: Event, s': Snapshot)
    requires Follows(s, cap, op, e, s') && (e.Read? || e.Wrote?)
    ensures e.p in s'.procs
    ensures var f := Get(s'.k.ptes, At(s'.procs[e.p].dir, e.addr / PGSIZE)); f.p && f.a
  {
  }

  lemma {:induction false} PassStays(s: Snapshot, cap: int, op: Op, e: Event, s': Snapshot, p: int, page: int)
    requires Follows(s, cap, op, e, s') && op.DoSwap? && p in s.procs
    requires var f := Get(s.k.ptes, At(s.procs[p].dir, page)); f.p && f.a
    ensures p in s'.procs && Get(s'.k.ptes, At(s'.procs[p].dir, page)).p
  {
    PassKeeps(s.k.ptes, s'.k.ptes, s.procs, p, page);
  }

  lemma {:induction false} PassKeeps(ptes: map<At, Pte>, ptes': map<At, Pte>, procs: map<int, Space>, p: int, page: int)
    requires SwapPass(ptes, ptes', procs) && p in procs && Get(ptes, At(procs[p].dir, page)).p &&
             Get(ptes, At(procs[p].dir, page)).a
    requires forall q :: q in procs && procs[q].dir == procs[p].dir ==> q == p
    ensures Get(ptes', At(procs[p].dir, page)).p
  {
    var at := At(procs[p].dir, page);
    assert at == At(at.dir, at.page);
  }

  // ----- Frames -----

  /** The frames an operation may take: two for a load or a store, two for each page and one for the directory
      in a fork. */
  function Takes(procs: map<int, Space>, op: Op): int
  {
    match op
    case DoRead(_, _) => 2
    case DoWrite(_, _, _) => 2
    case DoFork(p) => if p in procs && procs[p].sz >= 0 then 2 * Pages(procs[p].sz) + 1 else 0
    case _ => 0
  }

  ghost function Taken(hs: seq<Snapshot>, ops: seq<Op>, n: int): int
    requires n <= |hs| && n <= |ops|
  {
    if n <= 0 then 0 else Taken(hs, ops, n - 1) + Takes(hs[n - 1].procs, ops[n - 1])
  }

  lemma {:induction false} StepTakes(s: Snapshot, cap: int, op: Op, e: Event, s': Snapshot)
    requires Follows(s, cap, op, e, s')
    ensures Frames(s'.k.free) >= Frames(s.k.free) - Takes(s.procs, op)
  {
  }

  lemma {:induction false} FramesLast(hs: seq<Snapshot>, cap: int, ops: seq<Op>, es: seq<Event>, n: int)
    requires IsRun(hs, cap, ops, es) && 0 <= n <= |es|
    ensures Frames(hs[n].k.free) >= Frames(hs[0].k.free) - Taken(hs, ops, n)
    decreases n
  {
    if n > 0 {
      FramesLast(hs, cap, ops, es, n - 1);
      assert hs[n] in After(hs[n - 1], cap, ops[n - 1], es[n - 1]);
      StepTakes(hs[n - 1], cap, ops[n - 1], es[n - 1], hs[n]);
    }
  }

  /** In any run, a load or store inside the address space goes through, as long as the frames there were at the
      start have not been used up, and the page is not one that stops the machine. */
  lemma {:induction false} AccessGoesThrough(hs: seq<Snapshot>, cap: int, ops: seq<Op>, es: seq<Event>, i: int)
    requires IsRun(hs, cap, ops, es) && 0 <= i < |es| && (ops[i].DoRead? || ops[i].DoWrite?)
    requires ops[i].p in hs[i].procs && PGSIZE <= ops[i].addr < KERNPAGES * PGSIZE
    requires ops[i].addr / PGSIZE * PGSIZE <= hs[i].procs[ops[i].p].sz
    requires Frames(hs[0].k.free) >= Taken(hs, ops, i) + 2
    requires !Stuck(hs[i].k, cap, At(hs[i].procs[ops[i].p].dir, ops[i].addr / PGSIZE))
    ensures if ops[i].DoRead? then es[i].Read? && es[i].p == ops[i].p && es[i].addr == ops[i].addr
            else es[i] == Wrote(ops[i].p, ops[i].addr, ops[i].v)
  {
    FramesLast(hs, cap, ops, es, i);
    MustAct(hs[i].k, cap, hs[i].procs, ops[i]);
    assert hs[i + 1] in After(hs[i], cap, ops[i], es[i]);
  }
}
