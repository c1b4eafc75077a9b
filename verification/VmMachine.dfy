/** The machine as a whole: memory and process table, and any sequence of system calls, loads
    and stores. */
module VmMachine {
  import opened Common
  import opened VmState
  import opened VmContents
  import opened VmOps
  import opened Vm
  import opened VmRuns
  import SwapFile
  import SwapMap

  const NPROC: int := 64

  datatype Op =
    | DoRead(p: int, addr: int)
    | DoWrite(p: int, addr: int, v: Byte)
    | DoFork(p: int)
    | DoSbrk(p: int, n: int)
    | DoSwap
    | DoExit(p: int)

  /** The event is the one the operation asks for, or the operation had no effect. */
  predicate Reports(op: Op, e: Event)
  {
    e.Unseen? ||
    match op
    case DoRead(p, addr) => e.Read? && e.p == p && e.addr == addr
    case DoWrite(p, addr, v) => e == Wrote(p, addr, v)
    case DoFork(p) => e.Forked? && e.p == p
    case DoSbrk(p, n) => e == Grown(p, n) || (n < 0 && (e.Shrunk? || e.Wiped?) && e.p == p)
    case DoSwap => false
    case DoExit(p) => e == Exited(p)
  }

  /** Why an operation may stop the machine; every other operation is carried out. */
  ghost predicate Stops(k: State, cap: int, procs: map<int, Space>, op: Op)
  {
    match op
    case DoRead(p, addr) => p in procs && Stuck(k, cap, At(procs[p].dir, addr / PGSIZE))
    case DoWrite(p, addr, v) => p in procs && Stuck(k, cap, At(procs[p].dir, addr / PGSIZE))
    case DoFork(p) => p in procs && (Huge(procs[p]) || UnfitToFork(k, cap, procs[p]))
    case DoSbrk(p, n) => p in procs && n < 0 && Huge(procs[p])
    case DoSwap => SomeHuge(procs) || |k.used| + AllPages(Listing(procs, NPROC)) > cap + 1
    case DoExit(p) => false
  }

  /** sbrk lets a process grow into the addresses of the kernel. Loads and stores there are refused, but
      fork, swap and shrinking would walk over the entries of the kernel. */
  predicate Huge(p: Space)
  {
    p.sz > KERNPAGES * PGSIZE
  }

  predicate SomeHuge(procs: map<int, Space>)
  {
    exists p :: p in procs && Huge(procs[p])
  }

  /** A page of the parent that has no page table or cannot be brought back, or one that has to be brought
      back while frames may not suffice. */
  ghost predicate UnfitToFork(k: State, cap: int, p: Space)
  {
    || !AllForkable(k, cap, p.dir, Pages(p.sz))
    || (SomeSwapped(k, p.dir, Pages(p.sz)) && Frames(k.free) <= PERPAGE * Pages(p.sz))
  }

  /** Why an operation may leave private memory as it was. */
  predicate Idles(k: State, procs: map<int, Space>, op: Op)
  {
    match op
    case DoRead(p, addr) => p !in procs || addr < 0 || Outside(procs[p], addr) || Scarce(k)
    case DoWrite(p, addr, v) => p !in procs || addr < 0 || Outside(procs[p], addr) || Scarce(k)
    case DoFork(p) => p !in procs || (forall c :: 0 <= c < NPROC ==> c in procs) ||
      Frames(k.free) <= PERPAGE * Pages(procs[p].sz)
    case DoSbrk(p, n) => p !in procs || procs[p].sz + n < 0
    case DoSwap => true
    case DoExit(p) => p !in procs
  }

  /** So an operation has to be carried out exactly when its process is alive and: a load or store is at a page
      of the user's half, not the first, that begins at or below the size, with two frames left, and the page is not
      stuck; a fork finds a free entry, frames and pages that can be copied; sbrk does not go below 0. */
  lemma {:induction false} MustAct(k: State, cap: int, procs: map<int, Space>, op: Op)
    ensures !Idles(k, procs, op) && !Stops(k, cap, procs, op) <==>
              && !op.DoSwap? && op.p in procs
              && (op.DoRead? || op.DoWrite? ==>
                    && PGSIZE <= op.addr < KERNPAGES * PGSIZE && op.addr / PGSIZE * PGSIZE <= procs[op.p].sz
                    && Frames(k.free) >= 2 && !Stuck(k, cap, At(procs[op.p].dir, op.addr / PGSIZE)))
              && (op.DoFork? ==>
                    && (exists c :: 0 <= c < NPROC && c !in procs) && procs[op.p].sz <= KERNPAGES * PGSIZE
                    && Frames(k.free) > PERPAGE * Pages(procs[op.p].sz)
                    && AllForkable(k, cap, procs[op.p].dir, Pages(procs[op.p].sz)))
              && (op.DoSbrk? ==>
                    procs[op.p].sz + op.n >= 0 && (op.n < 0 ==> procs[op.p].sz <= KERNPAGES * PGSIZE))
  {
    assert Frames(k.free) >= 2 <==> !Scarce(k);
  }

  /** What the swap system call does to the entries. Of the pages below the size of a process, those that are
      present and not shared go out, unless they were accessed since the last pass: then only that mark goes.
      Every other entry stays. */
  ghost predicate SwapPass(ptes: map<At, Pte>, ptes': map<At, Pte>, procs: map<int, Space>)
  {
    && (forall p, page {:trigger At(procs[p].dir, page)} :: p in procs && 0 <= page && page * PGSIZE < procs[p].sz ==>
          var e, e' := Get(ptes, At(procs[p].dir, page)), Get(ptes', At(procs[p].dir, page));
          && (e.p && !e.c && !e.a ==> e' == e.(p := false, s := true))
          && (e.p && !e.c && e.a ==> e' == e.(a := false))
          && (!e.p || e.c ==> e' == e))
    && (forall at: At {:trigger Get(ptes', at)} ::
          (forall p :: p in procs && procs[p].dir == at.dir ==> at.page < 0 || procs[p].sz <= at.page * PGSIZE) ==>
            Get(ptes', at) == Get(ptes, at))
  }

  /** Two passes with no access in between leave no page that is present and not shared. */
  lemma {:induction false} TwoPasses(ptes0: map<At, Pte>, ptes1: map<At, Pte>, ptes2: map<At, Pte>,
                                     procs: map<int, Space>, p: int, page: int)
    requires SwapPass(ptes0, ptes1, procs) && SwapPass(ptes1, ptes2, procs)
    requires p in procs && 0 <= page && page * PGSIZE < procs[p].sz
    ensures Get(ptes2, At(procs[p].dir, page)).p ==> Get(ptes0, At(procs[p].dir, page)).c
    ensures Get(ptes2, At(procs[p].dir, page)).c == Get(ptes0, At(procs[p].dir, page)).c
  {
    var at := At(procs[p].dir, page);
    var e := Get(ptes1, at);
  }

  /** Only the entry of the page that is touched changes. */
  ghost predicate TouchesOnly(k: State, k': State, at: At)
  {
    forall x {:trigger Get(k'.ptes, x)} :: x != at ==> Get(k'.ptes, x) == Get(k.ptes, x)
  }

  /** What an operation does to the process table and to the entries, and how many frames it takes at most. */
  ghost predicate Effects(k: State, procs: map<int, Space>, op: Op, e: Event, k': State, procs': map<int, Space>)
  {
    match op
    case DoRead(p, addr) =>
      procs' == procs && if p in procs && 0 <= addr
        then Touched(k, k', procs[p], addr, e.Read?, false) else k' == k && e.Unseen?
    case DoWrite(p, addr, v) =>
      procs' == procs && if p in procs && 0 <= addr
        then Touched(k, k', procs[p], addr, e.Wrote?, true) else k' == k && e.Unseen?
    case DoFork(p) =>
      if p !in procs then k' == k && procs' == procs && e.Unseen? else
      && KeepsTabs(k, k') && OthersKept(k, k', procs[p].dir)
      && Frames(k'.free) >= Frames(k.free) - PERPAGE * Pages(procs[p].sz) - 1
      && if !e.Forked? then procs' == procs else
         && e.c !in procs && e.c in procs' && procs' == procs[e.c := Space(procs'[e.c].dir, procs[p].sz)]
         && Lazily(k.ptes, k'.ptes, procs[p].dir, procs'[e.c].dir, Pages(procs[p].sz))
         && forall i :: 0 <= i < e.c ==> i in procs
    case DoSbrk(p, n) =>
      if p !in procs || procs[p].sz + n < 0 then k' == k && procs' == procs && e.Unseen? else
      && (n >= 0 ==> k' == k)
      && k'.tabs == k.tabs && OthersKept(k, k', procs[p].dir) && Frames(k'.free) >= Frames(k.free)
      && procs' == if procs[p].sz + n > 0 || n == 0 then procs[p := Space(procs[p].dir, procs[p].sz + n)] else procs
    case DoSwap => procs' == procs && k'.tabs == k.tabs && SwapPass(k.ptes, k'.ptes, procs) &&
      Frames(k'.free) >= Frames(k.free)
    case DoExit(p) =>
      if p !in procs then k' == k && procs' == procs && e.Unseen? else
      && procs' == procs - {p} && OthersKept(k, k', procs[p].dir) && Frames(k'.free) >= Frames(k.free)
      && forall t :: t in k'.tabs <==> t in k.tabs && t.dir != procs[p].dir
  }

  /** A load or a store: if it is done, the page is accessible and marked as accessed. */
  ghost predicate Touched(k: State, k': State, p: Space, addr: int, done: bool, write: bool)
  {
    var at := At(p.dir, addr / PGSIZE);
    && KeepsTabs(k, k') && TouchesOnly(k, k', at) && Frames(k'.free) >= Frames(k.free) - 2
    && (done ==> Permits(Get(k'.ptes, at), write) && Get(k'.ptes, at).a)
  }

  /** The address spaces of the entries below `n` of the process table. */
  function Listing(procs: map<int, Space>, n: int): seq<Space>
  {
    if n <= 0 then [] else Listing(procs, n - 1) + (if n - 1 in procs then [procs[n - 1]] else [])
  }

  ghost predicate FromTable(procs: map<int, Space>, n: int, s: Space)
  {
    exists p :: p in procs && p < n && procs[p] == s
  }

  /** They are the address spaces of different processes. */
  lemma {:induction false} ListingIs(k: State, procs: map<int, Space>, n: int)
    requires TableOk(k, procs)
    ensures forall s {:trigger FromTable(procs, n, s)} :: s in Listing(procs, n) ==> FromTable(procs, n, s)
    ensures forall i, j :: 0 <= i < j < |Listing(procs, n)| ==> Listing(procs, n)[i].dir != Listing(procs, n)[j].dir
    ensures forall p :: p in procs && 0 <= p < n ==> procs[p] in Listing(procs, n)
    decreases n
  {
    if n > 0 {
      ListingIs(k, procs, n - 1);
      var l := Listing(procs, n - 1);
      forall s | s in Listing(procs, n)
        ensures FromTable(procs, n, s)
      {
        if s in l {
          assert FromTable(procs, n - 1, s);
        } else {
          assert s == procs[n - 1];
        }
      }
      if n - 1 in procs {
        forall i | 0 <= i < |l|
          ensures l[i].dir != procs[n - 1].dir
        {
          assert FromTable(procs, n - 1, l[i]);
        }
      }
    }
  }

  lemma {:induction false} ListedSizes(k: State, procs: map<int, Space>, n: int)
    requires TableOk(k, procs)
    ensures forall s :: s in Listing(procs, n) ==> s.sz >= 0
  {
    ListingIs(k, procs, n);
    forall s | s in Listing(procs, n)
      ensures s.sz >= 0
    {
      assert FromTable(procs, n, s);
    }
  }

  /** The machine at one moment. */
  datatype Snapshot = Snapshot(k: State, procs: map<int, Space>, a: Memory, m: Private)

  ghost predicate Good(s: Snapshot, cap: int)
  {
    && s.a in Refined(s.k, cap) && TableOk(s.k, s.procs) && Shows(s.procs, s.a, s.m)
    && forall p :: p in s.procs ==> 0 <= p < NPROC
  }

  /** One operation leads from one moment to the next; if it had no effect on private memory, there was a reason. */
  ghost predicate Follows(s: Snapshot, cap: int, op: Op, e: Event, s': Snapshot)
  {
    && Good(s, cap) && Good(s', cap) && Reports(op, e) && Apply(s.m, e) == Some(s'.m)
    && Effects(s.k, s.procs, op, e, s'.k, s'.procs)
    && (e.Unseen? ==> Idles(s.k, s.procs, op) || Stops(s.k, cap, s.procs, op))
  }

  ghost function After(s: Snapshot, cap: int, op: Op, e: Event): iset<Snapshot>
  {
    iset s': Snapshot | Follows(s, cap, op, e, s')
  }

  /** A run went through the moments `hs`, one operation after the other. */
  ghost predicate IsRun(hs: seq<Snapshot>, cap: int, ops: seq<Op>, es: seq<Event>)
  {
    && |hs| == |es| + 1 && |es| <= |ops|
    && forall i {:trigger After(hs[i], cap, ops[i], es[i])} :: 0 <= i < |es| ==>
         hs[i + 1] in After(hs[i], cap, ops[i], es[i])
  }

  lemma {:induction false} RunOn(hs: seq<Snapshot>, cap: int, ops: seq<Op>, es: seq<Event>, e: Event, s: Snapshot)
    requires IsRun(hs, cap, ops, es) && |es| < |ops| && s in After(hs[|es|], cap, ops[|es|], e)
    ensures IsRun(hs + [s], cap, ops, es + [e])
  {
    var hs', es' := hs + [s], es + [e];
    forall i | 0 <= i < |es'|
      ensures hs'[i + 1] in After(hs'[i], cap, ops[i], es'[i])
    {
      if i < |es| {
        assert hs[i + 1] in After(hs[i], cap, ops[i], es[i]);
      }
    }
  }

  /** The events of a run are what the operations ask for, and replaying them on private memory leads to private
      memory at the end. */
  lemma {:induction false} RunReplays(hs: seq<Snapshot>, cap: int, ops: seq<Op>, es: seq<Event>)
    requires IsRun(hs, cap, ops, es)
    ensures Replay(hs[0].m, es) == Some(hs[|es|].m) && forall i :: 0 <= i < |es| ==> Reports(ops[i], es[i])
    decreases |es|
  {
    if es != [] {
      var n := |es| - 1;
      RunFirst(hs, cap, ops, es);
      RunReplays(hs[..n + 1], cap, ops, es[..n]);
      StepReplays(hs, cap, ops, es, n);
      ReplayMore(hs[0].m, es[..n], es[n]);
      assert es[..n] + [es[n]] == es;
    }
    forall i | 0 <= i < |es|
      ensures Reports(ops[i], es[i])
    {
      StepReplays(hs, cap, ops, es, i);
    }
  }

  lemma {:induction false} StepReplays(hs: seq<Snapshot>, cap: int, ops: seq<Op>, es: seq<Event>, i: int)
    requires IsRun(hs, cap, ops, es) && 0 <= i < |es|
    ensures Apply(hs[i].m, es[i]) == Some(hs[i + 1].m) && Reports(ops[i], es[i])
  {
    assert hs[i + 1] in After(hs[i], cap, ops[i], es[i]);
  }

  lemma {:induction false} RunFirst(hs: seq<Snapshot>, cap: int, ops: seq<Op>, es: seq<Event>)
    requires IsRun(hs, cap, ops, es) && es != []
    ensures IsRun(hs[..|es|], cap, ops, es[..|es| - 1])
  {
    var n := |es| - 1;
    forall i | 0 <= i < n
      ensures hs[..n + 1][i + 1] in After(hs[..n + 1][i], cap, ops[i], es[..n][i])
    {
      assert hs[i + 1] in After(hs[i], cap, ops[i], es[i]);
    }
  }

  /** The pass over the listed address spaces is the pass over the processes. */
  lemma {:induction false} PassIs(k: State, ptes': map<At, Pte>, procs: map<int, Space>, n: int)
    requires TableOk(k, procs) && (forall p :: p in procs ==> 0 <= p < n)
    requires forall i, page {:trigger At(Listing(procs, n)[i].dir, page)} ::
               0 <= i < |Listing(procs, n)| && 0 <= page && page * PGSIZE < Listing(procs, n)[i].sz ==>
               var e, e' := Get(k.ptes, At(Listing(procs, n)[i].dir, page)),
                 Get(ptes', At(Listing(procs, n)[i].dir, page));
               && (e.p && !e.c && !e.a ==> e' == e.(p := false, s := true))
               && (e.p && !e.c && e.a ==> e' == e.(a := false))
               && (!e.p || e.c ==> e' == e)
    requires forall at: At {:trigger Get(ptes', at)} ::
               (forall i :: 0 <= i < |Listing(procs, n)| && Listing(procs, n)[i].dir == at.dir ==>
                              at.page < 0 || Listing(procs, n)[i].sz <= at.page * PGSIZE) ==>
                 Get(ptes', at) == Get(k.ptes, at)
    ensures SwapPass(k.ptes, ptes', procs)
  {
    ListingIs(k, procs, n);
    var l := Listing(procs, n);
    forall p, page | p in procs && 0 <= page && page * PGSIZE < procs[p].sz
      ensures var e, e' := Get(k.ptes, At(procs[p].dir, page)), Get(ptes', At(procs[p].dir, page));
              && (e.p && !e.c && !e.a ==> e' == e.(p := false, s := true))
              && (e.p && !e.c && e.a ==> e' == e.(a := false))
              && (!e.p || e.c ==> e' == e)
    {
      var i :| 0 <= i < |l| && l[i] == procs[p];
      assert At(l[i].dir, page) == At(procs[p].dir, page);
    }
    forall at: At | forall p :: p in procs && procs[p].dir == at.dir ==> at.page < 0 || procs[p].sz <= at.page * PGSIZE
      ensures Get(ptes', at) == Get(k.ptes, at)
    {
      forall i | 0 <= i < |l| && l[i].dir == at.dir
        ensures at.page < 0 || l[i].sz <= at.page * PGSIZE
      {
        assert FromTable(procs, n, l[i]);
      }
    }
  }

  class Machine {
    /** How many slots fit into the swap file. */
    const cap: int
    var k: State
    var procs: map<int, Space>
    ghost var a: Memory
    ghost var m: Private

    ghost predicate Valid()
      reads this
    {
      a in Refined(k, cap) && TableOk(k, procs) && Shows(procs, a, m) && forall p :: p in procs ==> 0 <= p < NPROC
    }

    ghost function Now(): Snapshot
      reads this
    {
      Snapshot(k, procs, a, m)
    }

    /** kinit (kalloc.c:46-67) over the frames 1 to `n`, and userinit (proc.c:128-161): one process,
        with one page of code at address 0. The bitmap of the swap file has `bmap` bytes. */
    constructor (end: int, bmap: int, n: int, mem: map<int, Page>, code: Page)
      requires n >= 3 && (forall f :: f in mem <==> 1 <= f <= n) && 3 <= bmap <= SwapFile.MAXBMAP
      ensures Valid() && cap == CapOf(bmap)
      ensures procs.Keys == {0} && procs[0].sz == PGSIZE &&
              m == Private(map[Cell(0, 0) := code], map[0 := PGSIZE]) && Clean(m)
      ensures Frames(k.free) >= n - 3 && forall at :: at in k.ptes ==> at.page == 0
    {
      var s, d := Boot(end, bmap, n, mem, code);
      cap, k := CapOf(bmap), s;
      procs := map[0 := Space(d, PGSIZE)];
      a, m := map[At(d, 0) := code], Private(map[Cell(0, 0) := code], map[0 := PGSIZE]);
    }

    /** A load by a process. */
    method Read(p: int, addr: int) returns (e: Event, r: Outcome)
      requires Valid() && p in procs && 0 <= addr
      modifies this`k
      ensures !r.Panic? ==> Valid() && Apply(old(m), e) == Some(m) && Reports(DoRead(p, addr), e)
      ensures !r.Panic? ==> Effects(old(k), procs, DoRead(p, addr), e, k, procs)
      ensures if r.Ok? then e.Read? else e.Unseen?
      ensures r.Fail? ==> Scarce(old(k)) || Outside(procs[p], addr)
      ensures r.Panic? ==> k == old(k) && Stuck(k, cap, At(procs[p].dir, addr / PGSIZE))
      ensures Permits(Get(old(k).ptes, At(procs[p].dir, addr / PGSIZE)), false) ==> r.Ok?
    {
      assert CellOk(procs, a, m.mem, p, addr / PGSIZE);
      var k', v;
      e := Unseen;
      k', v, r := LoadByte(k, cap, procs[p], addr, a);
      if r.Panic? {
        return;
      }
      k := k';
      if r.Ok? {
        e := Event.Read(p, addr, v);
      }
    }

    /** A store by a process. */
    method Write(p: int, addr: int, v: Byte) returns (e: Event, r: Outcome)
      requires Valid() && p in procs && 0 <= addr
      modifies this`k, this`a, this`m
      ensures !r.Panic? ==> Valid() && Apply(old(m), e) == Some(m) && Reports(DoWrite(p, addr, v), e)
      ensures !r.Panic? ==> Effects(old(k), procs, DoWrite(p, addr, v), e, k, procs)
      ensures if r.Ok? then e.Wrote? else e.Unseen?
      ensures r.Fail? ==> Scarce(old(k)) || Outside(procs[p], addr)
      ensures r.Panic? ==> unchanged(this) && Stuck(k, cap, At(procs[p].dir, addr / PGSIZE))
      ensures r.Ok? ==> Permits(Get(k.ptes, At(procs[p].dir, addr / PGSIZE)), true)
    {
      ShowsWrote(procs, a, m, p, addr, v);
      var k';
      e := Unseen;
      k', a, r := StoreByte(k, cap, procs[p], addr, v, a);
      if r.Panic? {
        return;
      }
      k := k';
      if r.Ok? {
        e := Wrote(p, addr, v);
        m := Apply(m, e).value;
      }
    }

    /** fork (proc.c:188-236): the child is a copy of the parent. A page of the parent that has
        no page table, or that cannot be brought back from swap, stops the machine. */
    method Fork(p: int) returns (e: Event, r: Outcome)
      requires Valid() && p in procs && !Huge(procs[p])
      modifies this`k, this`procs, this`a, this`m
      ensures !r.Panic? ==> Valid() && Apply(old(m), e) == Some(m) && Reports(DoFork(p), e)
      ensures !r.Panic? ==> Effects(old(k), old(procs), DoFork(p), e, k, procs)
      ensures if r.Ok? then e.Forked? else e.Unseen?
      ensures r.Fail? ==> Idles(old(k), old(procs), DoFork(p)) || Stops(old(k), cap, old(procs), DoFork(p))
      ensures r.Panic? ==> unchanged(this) && Stops(k, cap, procs, DoFork(p))
    {
      e := Unseen;
      var c := FreeEntry(procs);
      if c == NPROC {
        return Unseen, Fail;
      }
      var k', d;
      ghost var a', m';
      k', d, r, a', m' := ForkTo(k, cap, procs, p, c, a, m);
      if r.Panic? {
        return;
      }
      k := k';
      if r.Ok? {
        e, procs := Forked(p, c), procs[c := Space(d, procs[p].sz)];
        a, m := a', m';
      }
    }

    /** sys_sbrk (sysproc.c:49-63). Growing only moves the end; shrinking gives pages back. To
        shrink to nothing gives all pages back and still fails, with the size unchanged. */
    method Sbrk(p: int, n: int) returns (e: Event, r: Outcome)
      requires Valid() && p in procs && (n < 0 ==> !Huge(procs[p]))
      modifies this`k, this`procs, this`a, this`m
      ensures !r.Panic? && Valid() && Apply(old(m), e) == Some(m) && Reports(DoSbrk(p, n), e)
      ensures n >= 0 ==> k == old(k) && procs[p].dir == old(procs)[p].dir
      ensures Effects(old(k), old(procs), DoSbrk(p, n), e, k, procs)
      ensures var sz := old(m).sz[p];
              if n >= 0 then e == Grown(p, n) else if sz + n > 0 then e == Shrunk(p, sz + n) else if sz + n == 0
                then e == Wiped(p) && r.Fail? else e.Unseen?
    {
      if n >= 0 {
        ShowsGrown(procs, a, m, p, n);
        m := Apply(m, Grown(p, n)).value;
        procs := procs[p := procs[p].(sz := procs[p].sz + n)];
        return Grown(p, n), Ok;
      }
      var newsz := procs[p].sz + n;
      if newsz < 0 {
        return Unseen, Ok;
      }
      e, r := Shrink(p, newsz);
    }

    /** The shrinking of growproc (proc.c:175-178). */
    method Shrink(p: int, newsz: int) returns (e: Event, r: Outcome)
      requires Valid() && p in procs && !Huge(procs[p]) && 0 <= newsz < procs[p].sz
      modifies this`k, this`procs, this`a, this`m
      ensures !r.Panic? && Valid() && Apply(old(m), e) == Some(m) && (r.Fail? <==> newsz == 0)
      ensures e == if newsz > 0 then Shrunk(p, newsz) else Wiped(p)
      ensures k.tabs == old(k).tabs && OthersKept(old(k), k, old(procs)[p].dir) && Frames(k.free) >= Frames(old(k).free)
      ensures procs == if newsz > 0 then old(procs)[p := Space(old(procs)[p].dir, newsz)] else old(procs)
    {
      Shrinks(procs, a, m, p, newsz);
      ghost var lo, hi := Pages(newsz), Pages(procs[p].sz);
      var sz;
      k, sz, r := DeallocUvm(k, cap, procs[p].dir, procs[p].sz, newsz, a);
      a := Cleared(a, procs[p].dir, lo, hi);
      e := if newsz == 0 then Wiped(p) else Shrunk(p, newsz);
      m := Apply(m, e).value;
      if sz == 0 {
        return e, Fail;
      }
      procs := procs[p := procs[p].(sz := sz)];
    }

    /** The swap system call passes over every page of every process once, and no process can
        tell. It stops the machine only when the slots may run out. */
    method Swap() returns (r: Outcome)
      requires Valid() && !SomeHuge(procs)
      modifies this`k
      ensures !r.Fail? && (r.Ok? ==> Valid() && k.tabs == old(k).tabs && Frames(k.free) >= Frames(old(k).free))
      ensures r.Ok? ==>
                forall p, page {:trigger At(procs[p].dir, page)} ::
                  p in procs && 0 <= page && page * PGSIZE < procs[p].sz ==>
                var e, e' := Get(old(k).ptes, At(procs[p].dir, page)), Get(k.ptes, At(procs[p].dir, page));
                && (e.p && !e.c && !e.a ==> e' == e.(p := false, s := true))
                && (e.p && !e.c && e.a ==> e' == e.(a := false))
                && (!e.p || e.c ==> e' == e)
      ensures r.Ok? ==> SwapPass(old(k).ptes, k.ptes, procs)
      ensures r.Panic? ==> k == old(k) && Stops(k, cap, procs, DoSwap)
    {
      var table: seq<Space> := [];
      var i := 0;
      while i < NPROC
        invariant 0 <= i <= NPROC && table == Listing(procs, i)
      {
        if i in procs {
          table := table + [procs[i]];
        }
        i := i + 1;
      }
      ListingIs(k, procs, NPROC);
      ListedSizes(k, procs, NPROC);
      var k';
      k', r := SwapAll(k, cap, table, a);
      if r.Ok? {
        PassIs(k, k'.ptes, procs, NPROC);
        k := k';
      }
    }

    /** Two passes of swap with nothing in between: of the pages below the sizes only the shared ones are left. */
    method SwapTwice() returns (r: Outcome)
      requires Valid() && !SomeHuge(procs)
      modifies this`k
      ensures !r.Fail? && (r.Ok? ==> Valid())
      ensures r.Ok? ==>
                forall p, page {:trigger At(procs[p].dir, page)} ::
                  p in procs && 0 <= page && page * PGSIZE < procs[p].sz ==>
                Get(k.ptes, At(procs[p].dir, page)).p ==> Get(old(k).ptes, At(procs[p].dir, page)).c
    {
      r := Swap();
      if r.Panic? {
        return;
      }
      ghost var k1 := k;
      r := Swap();
      if r.Ok? {
        forall p, page | p in procs && 0 <= page && page * PGSIZE < procs[p].sz
          ensures Get(k.ptes, At(procs[p].dir, page)).p ==> Get(old(k).ptes, At(procs[p].dir, page)).c
        {
          TwoPasses(old(k).ptes, k1.ptes, k.ptes, procs, p, page);
        }
      }
    }

    /** The end of a process, when wait frees its memory (proc.c:303-315). */
    method Exit(p: int)
      requires Valid() && p in procs
      modifies this`k, this`procs, this`a, this`m
      ensures Valid() && Apply(old(m), Exited(p)) == Some(m)
      ensures Effects(old(k), old(procs), DoExit(p), Exited(p), k, procs)
    {
      ghost var k0 := k;
      Leaves(procs, a, m, p);
      k := FreeVm(k, cap, procs[p].dir, a);
      a := Cleared(a, procs[p].dir, 0, KERNPAGES);
      m := Apply(m, Exited(p)).value;
      procs := procs - {p};
    }

    /** One operation. Not looked at, and taken as a stop: a process that touches a guard page, and fork,
        swap and shrinking of a process that has grown into the kernel. */
    method Step(op: Op) returns (e: Event, r: Outcome)
      requires Valid()
      modifies this`k, this`procs, this`a, this`m
      ensures !r.Panic? ==> Valid() && Apply(old(m), e) == Some(m) && Reports(op, e)
      ensures !r.Panic? ==> Effects(old(k), old(procs), op, e, k, procs)
      ensures !r.Panic? && e.Unseen? ==> Idles(old(k), old(procs), op) || Stops(old(k), cap, old(procs), op)
      ensures r.Panic? ==> unchanged(this) && Stops(k, cap, procs, op)
    {
      e, r := Unseen, Ok;
      match op {
        case DoRead(p, addr) =>
          if p in procs && 0 <= addr {
            e, r := Read(p, addr);
          }
        case DoWrite(p, addr, v) =>
          if p in procs && 0 <= addr {
            e, r := Write(p, addr, v);
          }
        case DoFork(p) =>
          if p in procs {
            if Huge(procs[p]) {
              r := Panic;
            } else {
              e, r := Fork(p);
            }
          }
        case DoSbrk(p, n) =>
          if p in procs {
            if n < 0 && Huge(procs[p]) {
              r := Panic;
            } else {
              e, r := Sbrk(p, n);
            }
          }
        case DoSwap =>
          if SomeHuge(procs) {
            r := Panic;
          } else {
            r := Swap();
          }
        case DoExit(p) =>
          if p in procs {
            Exit(p);
            e := Exited(p);
          }
      }
    }

    /** As Step, from one moment to the next. */
    method Advance(op: Op) returns (e: Event, r: Outcome)
      requires Valid()
      modifies this`k, this`procs, this`a, this`m
      ensures Valid() && (!r.Panic? ==> Apply(old(m), e) == Some(m) && Reports(op, e))
      ensures !r.Panic? ==> Now() in After(old(Now()), cap, op, e)
      ensures r.Panic? ==> Now() == old(Now()) && Stops(k, cap, procs, op)
    {
      e, r := Step(op);
    }

    /** Any run: replaying its events on private memory succeeds, so every byte that was read
        is the byte of private memory, and leads to the memory the processes find now. The run went through
        the states `hs`, one operation after the other, and an operation that was not carried out had a
        reason in the state it found. A run ends early only at an operation that stops the machine. */
    method Run(ops: seq<Op>) returns (es: seq<Event>, stopped: bool, ghost hs: seq<Snapshot>)
      requires Valid()
      modifies this`k, this`procs, this`a, this`m
      ensures Valid() && Replay(old(m), es) == Some(m)
      ensures |es| <= |ops| && (!stopped ==> |es| == |ops|) && forall i :: 0 <= i < |es| ==> Reports(ops[i], es[i])
      ensures stopped ==> |es| < |ops| && Stops(k, cap, procs, ops[|es|])
      ensures IsRun(hs, cap, ops, es) && hs[0] == old(Now()) && hs[|es|] == Now()
    {
      es, stopped, hs := [], false, [Now()];
      var i := 0;
      while i < |ops|
        invariant 0 <= i == |es| <= |ops| && Valid()
        invariant IsRun(hs, cap, ops, es) && hs[0] == old(Now()) && hs[i] == Now()
      {
        var e, r := Advance(ops[i]);
        if r.Panic? {
          stopped := true;
          break;
        }
        RunOn(hs, cap, ops, es, e, Now());
        es, hs := es + [e], hs + [Now()];
        i := i + 1;
      }
      RunReplays(hs, cap, ops, es);
    }
  }

  /** The search of allocproc (proc.c:87-93), in a table of the live processes. */
  method FreeEntry(procs: map<int, Space>) returns (c: int)
    ensures 0 <= c <= NPROC && (c < NPROC ==> c !in procs)
    ensures forall i :: 0 <= i < c ==> i in procs
  {
    c := 0;
    while c < NPROC && c in procs
      invariant 0 <= c <= NPROC && forall i :: 0 <= i < c ==> i in procs
    {
      c := c + 1;
    }
  }

  /** freerange (kalloc.c:62-67): every frame goes onto the free list, with count 0. The swap map is
      empty, and swapinit_file makes the bitmap (fs.c:838-851). */
  method FreeRange(n: int, mem: map<int, Page>, end: int, bmap: int) returns (s: State)
    requires n >= 3 && (forall f :: f in mem <==> 1 <= f <= n) && 3 <= bmap <= SwapFile.MAXBMAP
    ensures map[] in Refined(s, CapOf(bmap)) && s.ptes == map[] && s.tabs == map[] && Roomy(s) && Frames(s.free) == n
  {
    var ref := map f | f in mem :: 0;
    var file, ok := SwapFile.Init(bmap);
    var dev := Device(end, map[], file);
    s := State(map[], map[], Nil, ref, mem, map[], {}, map[], dev);
    var f := 1;
    while f <= n
      invariant 1 <= f <= n + 1 && s == State(map[], map[], s.free, ref, mem, map[], {}, map[], dev) &&
                ListsBelow(s.free, f)
    {
      ListsNext(s.free, f);
      s := FreeOne(s, f);
      f := f + 1;
    }
    NewBacked(dev);
    AllFree(s, CapOf(bmap));
    assert Frames(s.free) >= 3 && Frames(s.free.next) >= 2 && Frames(s.free.next.next) >= 1;
  }

  lemma {:induction false} NewBacked(dev: Device)
    requires dev.bins == map[] && SwapFile.Represents(dev.file, map[]) && dev.file.off <= |dev.file.file| &&
             dev.file.bmap >= 3
    ensures dev in Backing(map[], {}, map[], CapOf(dev.file.bmap))
  {
    assert PagesOf({}, map[]) == map[];
  }

  /** The list has each frame from 1 to `n - 1` once. */
  ghost predicate ListsBelow(l: FreeList, n: int)
  {
    NoDup(l) && Frames(l) == n - 1 && forall x {:trigger x in Elems(l)} :: x in Elems(l) <==> 1 <= x < n
  }

  lemma {:induction false} ListsNext(l: FreeList, n: int)
    requires ListsBelow(l, n) && n >= 1
    ensures ListsBelow(Run(n, l), n + 1)
  {
    var l' := Run(n, l);
    assert Elems(l') == {n} + Elems(l);
    assert n !in Elems(l);
    forall x
      ensures x in Elems(l') <==> 1 <= x < n + 1
    {
      assert x in Elems(l') <==> x == n || x in Elems(l);
    }
  }

  /** One turn of its loop: the frame goes to the front of the list. */
  method FreeOne(s: State, f: int) returns (s': State)
    requires f in s.ref && s.ref[f] == 0
    ensures s' == s.(free := Run(f, s.free)) && Frames(s'.free) == Frames(s.free) + 1
  {
    var r;
    s', r := KFree(s, f);
  }

  predicate Roomy(s: State)
  {
    s.free.Run? && s.free.next.Run? && s.free.next.next.Run?
  }

  /** With every frame free and nothing mapped, the bookkeeping is sound. */
  lemma {:induction false} AllFree(s: State, cap: int)
    requires s == State(map[], map[], s.free, s.ref, s.mem, map[], {}, map[], s.dev) &&
             s.dev in Backing(map[], {}, map[], cap) && NoDup(s.free) && s.mem.Keys == s.ref.Keys && 0 !in s.ref
    requires forall x :: x in s.ref ==> s.ref[x] == 0
    requires forall x {:trigger x in Elems(s.free)} :: x in Elems(s.free) <==> x in s.ref
    ensures map[] in Refined(s, cap)
  {
    forall f | f in s.ref
      ensures Counted(s.ptes, s.ref, f)
    {
      assert Owners(s.ptes, f) == {};
    }
    var a: Memory := map[];
    assert Inv(s, cap) && Agrees(s, a);
    assert s in Sound(cap) && a in Views(s);
  }

  /** Memory at boot: all frames free, then a directory with the page of code. */
  method Boot(end: int, bmap: int, n: int, mem: map<int, Page>, code: Page) returns (s: State, d: int)
    requires n >= 3 && (forall f :: f in mem <==> 1 <= f <= n) && 3 <= bmap <= SwapFile.MAXBMAP
    ensures map[At(d, 0) := code] in Refined(s, CapOf(bmap)) && Tab(d, -1) in s.tabs && Frames(s.free) >= n - 3 &&
            s.ptes.Keys == {At(d, 0)}
  {
    s := FreeRange(n, mem, end, bmap);
    d := s.free.frame;
    DirMadeRefined(s, CapOf(bmap), map[]);
    s := DirMade(s);
    var r;
    s, r := InitUvm(s, CapOf(bmap), d, code);
  }

  /** inituvm (vm.c:210-219): the page at address 0 of a new directory gets the code. */
  method InitUvm(k: State, cap: int, d: int, code: Page) returns (k': State, r: Outcome)
    requires map[] in Refined(k, cap) && Tab(d, -1) in k.tabs && k.free.Run? && k.free.next.Run? && k.ptes == map[]
    ensures r.Ok? && map[At(d, 0) := code] in Refined(k', cap) && Tab(d, -1) in k'.tabs
    ensures Frames(k'.free) >= Frames(k.free) - 2 && k'.ptes.Keys == {At(d, 0)}
  {
    k', r := LazyAlloc(k, cap, At(d, 0), map[]);
    PresentFacts(k', cap, map[], At(d, 0));
    StoredRefined(k', cap, map[], At(d, 0), code);
    k' := k'.(mem := k'.mem[k'.ptes[At(d, 0)].frame := code]);
  }

  lemma {:induction false} Leaves(procs: map<int, Space>, a: Memory, m: Private, p: int)
    requires Shows(procs, a, m) && p in procs
    requires forall q :: q in procs && q != p ==> procs[q].dir != procs[p].dir
    ensures Apply(m, Exited(p)).Some?
    ensures Shows(procs - {p}, Cleared(a, procs[p].dir, 0, KERNPAGES), Apply(m, Exited(p)).value)
  {
    ShowsExited(procs, a, Cleared(a, procs[p].dir, 0, KERNPAGES), m, p);
  }

  /** fork, once the child has its entry in the table. */
  method ForkTo(k: State, cap: int, procs: map<int, Space>, p: int, c: int, ghost a: Memory, ghost m: Private)
    returns (k': State, d: int, r: Outcome, ghost a': Memory, ghost m': Private)
    requires a in Refined(k, cap) && TableOk(k, procs) && Shows(procs, a, m) && p in procs && c !in procs
    requires !Huge(procs[p])
    ensures r.Fail? ==> a in Refined(k', cap) && TableOk(k', procs)
    ensures r.Ok? ==> a' in Refined(k', cap) && Apply(m, Forked(p, c)) == Some(m')
    ensures r.Ok? ==> TableOk(k', procs[c := Space(d, procs[p].sz)]) && Shows(procs[c := Space(d, procs[p].sz)], a', m')
    ensures !r.Ok? ==>
            !AllForkable(k, cap, procs[p].dir, Pages(procs[p].sz)) || Frames(k.free) <= PERPAGE * Pages(procs[p].sz)
    ensures r.Panic? ==> UnfitToFork(k, cap, procs[p])
    ensures !r.Panic? ==> KeepsTabs(k, k') && OthersKept(k, k', procs[p].dir) &&
                          Frames(k'.free) >= Frames(k.free) - PERPAGE * Pages(procs[p].sz) - 1
    ensures r.Ok? ==> Lazily(k.ptes, k'.ptes, procs[p].dir, d, Pages(procs[p].sz))
  {
    a', m' := a, m;
    k', d, r := CopyUvm(k, cap, procs[p].dir, procs[p].sz, a);
    if r.Ok? {
      a' := CopyPages(a, procs[p].dir, d, Pages(procs[p].sz));
      FreshDir(k, cap, procs, a, d);
      ShowsForked(procs, a, m, p, c, d);
      ForkTable(k, k', procs, p, c, d);
      m' := Apply(m, Forked(p, c)).value;
    }
  }

  lemma {:induction false} ForkTable(k: State, k': State, procs: map<int, Space>, p: int, c: int, d: int)
    requires TableOk(k, procs) && KeepsTabs(k, k') && p in procs && Tab(d, -1) in k'.tabs && forall q ::
             q in procs ==> procs[q].dir != d
    ensures TableOk(k', procs[c := Space(d, procs[p].sz)])
  {
    var procs' := procs[c := Space(d, procs[p].sz)];
    forall q | q in procs'
      ensures Tab(procs'[q].dir, -1) in k'.tabs && 0 <= procs'[q].sz
    {
      assert procs[p].sz >= 0;
      assert q != c ==> Tab(procs[q].dir, -1) in k.tabs;
    }
  }

  lemma {:induction false} FreshDir(k: State, cap: int, procs: map<int, Space>, a: Memory, d: int)
    requires a in Refined(k, cap) && TableOk(k, procs) && forall t :: t in k.tabs ==> t.dir != d
    ensures forall q :: q in procs ==> procs[q].dir != d
    ensures forall page {:trigger At(d, page)} :: Look(a, At(d, page)) == ZERO
  {
    forall page
      ensures Look(a, At(d, page)) == ZERO
    {
      AbsentFacts(k, cap, a, At(d, page));
      Untouched(k, a, At(d, page));
    }
  }

  /** Giving back the pages from the new end to the old one is cutting them out of private memory. */
  lemma {:induction false} Shrinks(procs: map<int, Space>, a: Memory, m: Private, p: int, newsz: int)
    requires Shows(procs, a, m) && p in procs && 0 <= newsz <= procs[p].sz
    requires forall q :: q in procs && q != p ==> procs[q].dir != procs[p].dir
    ensures var a' := Cleared(a, procs[p].dir, Pages(newsz), Pages(procs[p].sz));
            && (newsz > 0 ==>
               Apply(m, Shrunk(p, newsz)).Some? &&
               Shows(procs[p := procs[p].(sz := newsz)], a', Apply(m, Shrunk(p, newsz)).value))
            && (newsz == 0 ==> Apply(m, Wiped(p)).Some? && Shows(procs, a', Apply(m, Wiped(p)).value))
  {
    ShowsCutOut(procs, a, m, p, Pages(newsz), Pages(procs[p].sz), if newsz == 0 then procs[p].sz else newsz);
    if newsz == 0 {
      assert procs[p := procs[p].(sz := procs[p].sz)] == procs;
      assert m.sz[p := procs[p].sz] == m.sz;
    }
  }

  /** From boot on, a store at the page that begins at the end succeeds. */
  method StoreFirst(end: int, bmap: int, n: int, mem: map<int, Page>, code: Page, v: Byte) returns (machine: Machine)
    requires n >= 5 && (forall f :: f in mem <==> 1 <= f <= n) && 3 <= bmap <= SwapFile.MAXBMAP
    ensures fresh(machine) && machine.Valid() && 0 in machine.procs && machine.procs[0].sz == PGSIZE
    ensures Apply(Private(map[Cell(0, 0) := code], map[0 := PGSIZE]), Wrote(0, PGSIZE, v)) == Some(machine.m)
    ensures Permits(Get(machine.k.ptes, At(machine.procs[0].dir, 1)), true)
  {
    machine := new Machine(end, bmap, n, mem, code);
    assert At(machine.procs[0].dir, 1) !in machine.k.ptes;
    var e, r := machine.Write(0, PGSIZE, v);
  }

  /** The machine comes to it: after growing over that page, the process loads what it stored. */
  method StoreBeyond(end: int, bmap: int, n: int, mem: map<int, Page>, code: Page, v: Byte)
    returns (machine: Machine, es: seq<Event>)
    requires n >= 5 && (forall f :: f in mem <==> 1 <= f <= n) && 3 <= bmap <= SwapFile.MAXBMAP
    ensures fresh(machine) && machine.Valid() && es == EndRun(0, PGSIZE, v, PGSIZE, v)
    ensures Replay(Private(map[Cell(0, 0) := code], map[0 := PGSIZE]), es) == Some(machine.m)
  {
    machine := StoreFirst(end, bmap, n, mem, code, v);
    ghost var m1 := machine.m;
    ghost var m2;
    var e;
    e, m2 := GrowAndLoad(machine);
    es := [Wrote(0, PGSIZE, v), Grown(0, PGSIZE), e];
    LoadsBack(Private(map[Cell(0, 0) := code], map[0 := PGSIZE]), m1, m2, machine.m, e, v);
  }

  /** The process grows by a page and loads from its second page, which is accessible. */
  method GrowAndLoad(machine: Machine) returns (e: Event, ghost mid: Private)
    requires machine.Valid() && 0 in machine.procs && Permits(Get(machine.k.ptes, At(machine.procs[0].dir, 1)), false)
    modifies machine
    ensures machine.Valid() && Apply(old(machine.m), Grown(0, PGSIZE)) == Some(mid) && Apply(mid, e) == Some(machine.m)
    ensures e.Read? && e.p == 0 && e.addr == PGSIZE
  {
    var e2, r := machine.Sbrk(0, PGSIZE);
    mid := machine.m;
    e, r := machine.Read(0, PGSIZE);
  }

  /** A page that was never stored to is stored to, and loaded after growing. */
  lemma {:induction false} LoadsBack(m0: Private, m1: Private, m2: Private, m3: Private, e: Event, v: Byte)
    requires Apply(m0, Wrote(0, PGSIZE, v)) == Some(m1) && Apply(m1, Grown(0, PGSIZE)) == Some(m2)
    requires Apply(m2, e) == Some(m3) && e.Read? && e.p == 0 && e.addr == PGSIZE && Peek(m0.mem, Cell(0, 1)) == ZERO
    ensures e.v == v && Replay(m0, [Wrote(0, PGSIZE, v), Grown(0, PGSIZE), e]) == Some(m3)
  {
    ZeroByte(PGSIZE, v);
    var es := [Grown(0, PGSIZE), e];
    assert [Wrote(0, PGSIZE, v), Grown(0, PGSIZE), e][1..] == es && es[1..] == [e];
    ReplayOne(m2, e);
    assert Replay(m1, es) == Replay(m2, [e]);
  }
}
