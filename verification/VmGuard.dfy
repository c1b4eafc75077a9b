/** The one case in which the fault handler spoils the accounting is reached by the code itself. */
module VmGuard {
  import opened Common
  import opened VmState
  import opened VmContents
  import opened VmOps
  import opened Vm
  import opened VmMachine
  import SwapFile

  /** A page is made and becomes a guard page, as in exec. */
  method MakeGuard(n: int, mem: map<int, Page>, end: int, bmap: int) returns (k: State, at: At)
    requires n >= 9 && (forall x :: x in mem <==> 1 <= x <= n) && 3 <= bmap <= SwapFile.MAXBMAP
    ensures map[] in Refined(k, CapOf(bmap)) && InDir(k.tabs, at) && at.page == 1 && Frames(k.free) >= n - 3
    ensures Get(k.ptes, at).p && !Get(k.ptes, at).u
  {
    var cap := CapOf(bmap);
    k := FreeRange(n, mem, end, bmap);
    at := At(k.free.frame, 1);
    DirMadeRefined(k, cap, map[]);
    k := DirMade(k);
    var r;
    k, r := LazyAlloc(k, cap, at, map[]);
    PresentFacts(k, cap, map[], at);
    k, r := ClearPteu(k, cap, at, map[]);
  }

  /** Another address space shares it, as in fork. */
  method ShareGuard(k: State, cap: int, at: At, ghost a: Memory) returns (k': State, ghost a': Memory)
    requires a in Refined(k, cap) && InDir(k.tabs, at) && at.page == 1 && Frames(k.free) >= 6
    requires Get(k.ptes, at).p && !Get(k.ptes, at).u
    ensures a' in Refined(k', cap) && Frames(k'.free) >= 2 && Tab(at.dir, -1) in k'.tabs &&
            GuardRead(Get(k'.ptes, at), false)
  {
    var child, r := At(k.free.frame, 1), Ok;
    DirMadeRefined(k, cap, a);
    PresentFacts(k, cap, a, at);
    k' := DirMade(k);
    a' := a[child := Look(a, at)];
    k', r := CopyPage(k', cap, at, child, a);
  }

  /** When it is read, its frame is counted once more than it is named, and the page can be accessed. */
  method GuardLeaks(n: int, mem: map<int, Page>, end: int, bmap: int) returns (k: State, at: At, f: int)
    requires n >= 9 && (forall x :: x in mem <==> 1 <= x <= n) && 3 <= bmap <= SwapFile.MAXBMAP
    ensures f in k.ref && k.ref[f] == |Owners(k.ptes, f)| + 1 && Get(k.ptes, at).u
  {
    var cap, r := CapOf(bmap), Ok;
    ghost var a;
    k, at := MakeGuard(n, mem, end, bmap);
    k, a := ShareGuard(k, cap, at, map[]);
    f := k.ptes[at].frame;
    PresentFacts(k, cap, a, at);
    assert Frames(k.free.next) >= 1;
    k, r := HandlePageFault(k, cap, Space(at.dir, 2 * PGSIZE), PGSIZE, false, a);
  }
}
