/** vm.c with the parts of kalloc.c and fs.c it works on, as the code it is: frames, faults,
    copy-on-write, lazy allocation, swapping out and in, growing, shrinking, fork and the end
    of an address space.

    A method takes the memory state and returns it changed. Its ghost argument `a` is the
    private memory the processes find before the call; the contract says which private memory
    they find after it. */
module Vm {
  import opened Common
  import opened VmState
  import opened VmContents
  import opened VmOps
  import SwapFile
  import SwapMap

  datatype Outcome = Ok | Fail | Panic

  /** The number of pages that hold `sz` bytes: PGROUNDUP(sz) / PGSIZE. */
  function Pages(sz: int): int
  {
    (sz + PGSIZE - 1) / PGSIZE
  }

  /** What the processor lets a user instruction do without a fault. */
  predicate Permits(e: Pte, write: bool)
  {
    e.p && e.u && (write ==> e.w)
  }

  // ----- kalloc.c -----

  /** kalloc (kalloc.c:120-141): a panic unless the count was 0. */
  method KAlloc(k: State) returns (k': State, f: Option<int>, r: Outcome)
    requires k.free.Run? ==> k.free.frame in k.ref
    ensures r.Fail? <==> k.free.Nil?
    ensures r.Panic? <==> k.free.Run? && k.ref[k.free.frame] != 0
    ensures r.Fail? ==> f.None? && k' == k
    ensures r.Ok? ==> f == Some(k.free.frame) && k' == Taken(k)
  {
    if k.free.Nil? {
      return k, None, Fail;
    }
    var x := k.free.frame;
    k' := k.(free := k.free.next, ref := k.ref[x := k.ref[x] + 1]);
    if k'.ref[x] != 1 {
      return k', None, Panic;
    }
    return k', Some(x), Ok;
  }

  /** kfree (kalloc.c:75-114): junk into a frame that loses its last reference, one reference
      less, and onto the free list when none is left. */
  method KFree(k: State, f: int) returns (k': State, r: Outcome)
    ensures r.Panic? <==> f !in k.ref
    ensures r.Panic? ==> k' == k
    ensures !r.Panic? ==> r.Ok? && k' == Freed(k, f)
  {
    if f !in k.ref {
      return k, Panic;
    }
    k' := k;
    if k'.ref[f] == 1 {
      k' := k'.(mem := k'.mem[f := JUNK]);
    }
    if k'.ref[f] != 0 {
      k' := k'.(ref := k'.ref[f := k'.ref[f] - 1]);
    }
    if k'.ref[f] == 0 {
      k' := k'.(free := Run(f, k'.free));
    }
    return k', Ok;
  }

  /** How many frames are free. */
  function Frames(l: FreeList): nat
  {
    match l
    case Nil => 0
    case Run(_, next) => 1 + Frames(next)
  }

  /** Fewer than two frames are free: one for a page and one for its page table. */
  predicate Scarce(k: State)
  {
    k.free.Nil? || k.free.next.Nil?
  }

  // ----- Page tables -----

  /** No page table goes away. */
  ghost predicate KeepsTabs(k: State, k': State)
  {
    forall t {:trigger t in k'.tabs} :: t in k.tabs ==> t in k'.tabs
  }

  /** walkpgdir (vm.c:55-75): whether the page has an entry; with `alloc`, a missing page table
      is made, if a frame is left. */
  method WalkPgdir(k: State, at: At, alloc: bool) returns (k': State, found: bool)
    requires alloc && k.free.Run? ==> k.free.frame in k.ref && k.ref[k.free.frame] == 0
    ensures found <==> TabOf(at) in k'.tabs
    ensures k' == if alloc && TabOf(at) !in k.tabs && k.free.Run? then Walked(k, TabOf(at)) else k
  {
    if TabOf(at) in k.tabs {
      return k, true;
    }
    if !alloc {
      return k, false;
    }
    var pgtab, r;
    k', pgtab, r := KAlloc(k);
    if pgtab.None? {
      return k', false;
    }
    k' := k'.(mem := k'.mem[pgtab.value := ZERO], tabs := k'.tabs[TabOf(at) := pgtab.value]);
    return k', true;
  }

  /** mappage (vm.c:78-88): a panic when the page is present, unless it is shared. */
  method MapPage(k: State, at: At, f: int, perm: Pte) returns (k': State, r: Outcome)
    ensures r.Panic? <==> Get(k.ptes, at).p && !Get(k.ptes, at).c && !Get(k.ptes, at).s
    ensures r.Panic? ==> k' == k
    ensures !r.Panic? ==> r.Ok? && k' == Mapped(k, at, perm.(frame := f, p := true))
  {
    var e := Get(k.ptes, at);
    if e.p && !e.c && !e.s {
      return k, Panic;
    }
    return k.(ptes := k.ptes[at := perm.(frame := f, p := true)]), Ok;
  }

  // ----- Faults -----

  /** lazyalloc (vm.c:565-583). A page that is neither present nor swapped becomes present,
      with the zeroes that were in it; a present page is a panic, or lost when it is shared. */
  method LazyAlloc(k: State, cap: int, at: At, ghost a: Memory) returns (k': State, r: Outcome)
    requires a in Refined(k, cap) && InDir(k.tabs, at) && !Get(k.ptes, at).s
    ensures !Get(k.ptes, at).p ==> a in Refined(k', cap) && !r.Panic? && InDir(k'.tabs, at)
    ensures k.free.Nil? ==> r.Fail? && k' == k
    ensures r.Fail? ==> k'.ptes == k.ptes && Scarce(k)
    ensures !r.Panic? ==> KeepsTabs(k, k') && Frames(k'.free) >= Frames(k.free) - 2
    ensures r.Ok? ==> k'.ptes == k.ptes[at := UserEntry(k.free.frame)]
    ensures Get(k.ptes, at).p && k.free.Run? ==> (r.Panic? <==> !k.ptes[at].c) && !r.Fail?
    ensures Get(k.ptes, at).p && r.Ok? ==> k' == Mapped(Filled(Taken(k), k.free.frame, ZERO), at,
            UserEntry(k.free.frame))
  {
    AbsentFacts(k, cap, a, at);
    if k.free.Run? {
      FreeHead(k, cap, a);
    }
    var g, found;
    k', g, r := KAlloc(k);
    if g.None? {
      return k', Fail;
    }
    var f := g.value;
    k' := k'.(mem := k'.mem[f := ZERO]);
    k', found := WalkPgdir(k', at, true);
    assert k' == Prepared(k, TabOf(at));
    if !found {
      LazyFailRefined(k, cap, a, at);
      k', r := KFree(k', f);
      return k', Fail;
    }
    if !Get(k.ptes, at).p {
      LazyRefined(k, cap, a, at);
    }
    k', r := MapPage(k', at, f, UserEntry(f));
  }

  /** copy_on_write (vm.c:585-619): afterwards the page may be written. */
  method CopyOnWrite(k: State, cap: int, at: At, ghost a: Memory) returns (k': State, r: Outcome)
    requires a in Refined(k, cap) && Get(k.ptes, at).p && k.ptes[at].c
    ensures a in Refined(k', cap) && !r.Panic?
    ensures k.ptes[at].frame in k.ref && (r.Fail? <==> k.ref[k.ptes[at].frame] != 1 && k.free.Nil?)
    ensures k' == (if r.Ok? then Unshared(k, at) else k) && Frames(k'.free) >= Frames(k.free) - 1
  {
    PresentFacts(k, cap, a, at);
    var g := k.ptes[at].frame;
    if k.ref[g] == 1 {
      ClaimedRefined(k, cap, a, at);
      return k.(ptes := k.ptes[at := k.ptes[at].(c := false, w := true)]), Ok;
    }
    var m, found;
    if k.free.Run? {
      FreeHead(k, cap, a);
      CopiedRefined(k, cap, a, at);
    }
    k', m, r := KAlloc(k);
    if m.None? {
      return k', Fail;
    }
    var f := m.value;
    k' := k'.(mem := k'.mem[f := k'.mem[g]]);
    k', found := WalkPgdir(k', at, true);
    k', r := MapPage(k', at, f, UserEntry(f));
    k' := k'.(ref := k'.ref[g := k'.ref[g] - 1]);
    assert k' == Copied(k, at);
  }

  // ----- Swapping -----

  /** The seek to the first slot behind the file failed: the page went over the bitmap and what follows
      it. The file is as it should be if and only if the page equals the bytes it fell on. */
  ghost predicate Fell(file: SwapFile.Swap, file': SwapFile.Swap, slot: int, pages: map<int, seq<Byte>>, page: Page)
  {
    && SwapFile.Valid(file) && 0 <= slot < 8 * file.bmap
    && var t := SwapFile.WithUsed(file, slot, true);
    && t.off + PGSIZE <= |t.file| && file' == SwapFile.Pasted(t, page.bytes)
    && (SwapFile.Represents(file', pages[slot := page.bytes]) <==> page.bytes == t.file[t.off..t.off + PGSIZE])
  }

  ghost function Fallen(file: SwapFile.Swap, slot: int, pages: map<int, seq<Byte>>, page: Page): iset<SwapFile.Swap>
  {
    iset file': SwapFile.Swap | Fell(file, file', slot, pages, page)
  }

  /** swapwrite_file (fs.c:899-961) of a page that is present and not shared. Its count is 1,
      so the walk over the entries that share a frame (fs.c:938-951) is never taken. Nobody notices,
      unless all slots up to the first that does not fit are in use. */
  method SwapWrite(k: State, cap: int, at: At, ghost a: Memory) returns (k': State, slot: int)
    requires a in Refined(k, cap) && Get(k.ptes, at).p && !k.ptes[at].c
    ensures 0 <= slot <= cap + 1 && slot !in k.used && (slot > cap <==> forall i :: 0 <= i <= cap ==> i in k.used)
    ensures k'.tabs == k.tabs && k'.ptes == k.ptes[at := k.ptes[at].(s := true, p := false)]
    ensures k'.used == k.used + {slot} && k'.swapped == k.swapped[at := Entry(k.ptes[at].frame, slot)]
    ensures slot <= cap ==> a in Refined(k', cap)
    ensures k.ptes[at].frame in k.mem && Frames(k'.free) >= Frames(k.free)
    ensures slot > cap ==>
              k'.dev.file in Fallen(k.dev.file, slot, PagesOf(k.used, k.slots), k.mem[k.ptes[at].frame])
  {
    PresentFacts(k, cap, a, at);
    NotSwapped(k, cap, a, at);
    var dev;
    dev, slot := DeviceOut(k, cap, at, k.ptes[at].frame, k.mem[k.ptes[at].frame], a);
    if slot <= cap {
      SwappedOutRefined(k, cap, a, at, slot, dev);
    }
    k' := PutOut(k, cap, at, slot, dev);
  }

  /** The page goes into the file and its node into the map. */
  method DeviceOut(k: State, cap: int, at: At, pa: int, page: Page, ghost a: Memory) returns (dev: Device, slot: int)
    requires a in Refined(k, cap) && at !in k.swapped
    ensures 0 <= slot <= cap + 1 && slot !in k.used && (slot > cap <==> forall i :: 0 <= i <= cap ==> i in k.used)
    ensures slot <= cap ==>
              dev in Backing(k.swapped[at := Entry(pa, slot)], k.used + {slot},
                             if slot < cap then k.slots[slot := page] else k.slots - {slot}, cap)
    ensures slot > cap ==> dev.file in Fallen(k.dev.file, slot, PagesOf(k.used, k.slots), page)
  {
    var file;
    file, slot := SlotOut(k, cap, page, a);
    var bins := SwapMap.Insert(k.dev.end, k.dev.bins, at, pa, slot, k.swapped);
    dev := Device(k.dev.end, bins, file);
    if slot <= cap {
      OutBacked(k.dev, k.swapped, k.used, k.slots, cap, at, pa, slot, page, bins, file);
    }
  }

  /** The bookkeeping of swapwrite_file (fs.c:927-956), with a free slot. */
  method PutOut(k: State, cap: int, at: At, slot: int, dev: Device) returns (k': State)
    requires at in k.ptes && k.ptes[at].frame in k.ref && k.ptes[at].frame in k.mem && slot !in k.used
    ensures k' == SwappedOut(k, cap, at, slot).(dev := dev) && k'.dev == dev
    ensures k'.tabs == k.tabs && k'.used == k.used + {slot} && Frames(k'.free) >= Frames(k.free)
    ensures k'.ptes == k.ptes[at := k.ptes[at].(s := true, p := false)]
    ensures k'.swapped == k.swapped[at := Entry(k.ptes[at].frame, slot)]
  {
    var e := k.ptes[at];
    k' := k.(used := k.used + {slot}, swapped := k.swapped[at := Entry(e.frame, slot)], dev := dev,
             slots := if slot < cap then k.slots[slot := k.mem[e.frame]] else k.slots - {slot});
    var r;
    k', r := KFree(k', e.frame);
    k' := k'.(ptes := k'.ptes[at := e.(s := true, p := false)]);
    SwappedOutIs(k, cap, at, slot);
  }

  /** The page goes to the lowest free slot of the file (fs.c:903-907), and there always is one. */
  method SlotOut(k: State, cap: int, page: Page, ghost a: Memory) returns (file: SwapFile.Swap, slot: int)
    requires a in Refined(k, cap)
    ensures 0 <= slot <= cap + 1 && slot !in k.used && (slot > cap <==> forall i :: 0 <= i <= cap ==> i in k.used)
    ensures slot <= cap ==>
              && SwapFile.Represents(file, PagesOf(k.used, k.slots)[slot := page.bytes])
              && file.off <= |file.file| && file.bmap == k.dev.file.bmap
    ensures slot > cap ==> file in Fallen(k.dev.file, slot, PagesOf(k.used, k.slots), page)
  {
    ghost var m := PagesOf(k.used, k.slots);
    var found;
    file, found := SwapFile.Out(k.dev.file, page.bytes, m);
    assert m.Keys == k.used;
    assert cap + 1 < 8 * k.dev.file.bmap && cap + 1 !in k.used;
    slot := found.value;
    FitsIff(k.dev.file, slot);
  }

  lemma {:induction false} NotSwapped(k: State, cap: int, a: Memory, at: At)
    requires a in Refined(k, cap) && Get(k.ptes, at).p
    ensures at !in k.swapped
  {
    PresentFacts(k, cap, a, at);
    assert at in k.swapped ==> SlotOk(k.ptes, k.swapped, k.used, k.slots, cap, at);
  }

  /** No frame is left, or the slot lies beyond what the swap file holds. */
  predicate Unrestorable(k: State, cap: int, at: At)
    requires at in k.swapped
  {
    k.free.Nil? || k.swapped[at].slot >= cap
  }

  /** swaprestore and swapread_file (vm.c:539-563, fs.c:1009-1091). A panic when no frame is
      left, or when the slot lies beyond what the file holds. */
  method SwapRestore(k: State, cap: int, at: At, ghost a: Memory) returns (k': State, r: Outcome)
    requires a in Refined(k, cap) && Get(k.ptes, at).s
    ensures at in k.swapped && !r.Fail? && (r.Panic? <==> Unrestorable(k, cap, at))
    ensures r.Ok? ==> a in Refined(k', cap) && k'.tabs == k.tabs && k'.free == k.free.next
    ensures r.Ok? ==> k'.ptes == k.ptes[at := k.ptes[at].(s := false, p := true, frame := k.free.frame)]
    ensures r.Ok? ==> k'.swapped == k.swapped - {at} && k'.used == k.used - {k.swapped[at].slot}
  {
    SwappedFacts(k, cap, a, at);
    SwappedOnDevice(k, cap, a, at);
    if k.free.Nil? {
      return k, Panic;
    }
    FreeHead(k, cap, a);
    var e, f := k.ptes[at], k.free.frame;
    var bins, slot := SwapMap.Remove(k.dev.end, k.dev.bins, at, e.frame, k.swapped);
    var file, page := SlotIn(k, cap, at, slot.value, a);
    if page.None? {
      return k, Panic;
    }
    DropBacked(k.dev, k.swapped, k.used, k.slots, cap, at, bins, file);
    SwappedInRefined(k, cap, a, at, Device(k.dev.end, bins, file));
    k' := Filled(Taken(k), f, page.value);
    k' := k'.(swapped := k'.swapped - {at}, used := k'.used - {slot.value}, slots := k'.slots[slot.value := ZERO],
              dev := Device(k.dev.end, bins, file), ptes := k'.ptes[at := e.(s := false, p := true, frame := f)]);
    SwappedInIs(k, cap, at);
    r := Ok;
  }

  /** The page comes back from its slot of the file (fs.c:1083-1084), unless the slot does not fit. */
  method SlotIn(k: State, cap: int, at: At, slot: int, ghost a: Memory)
    returns (file: SwapFile.Swap, page: Option<Page>)
    requires a in Refined(k, cap) && Get(k.ptes, at).s && at in k.swapped && slot == k.swapped[at].slot
    ensures page.Some? <==> slot < cap
    ensures page.Some? ==>
            slot in k.slots && page.value == k.slots[slot] &&
            SwapFile.Represents(file, PagesOf(k.used, k.slots) - {slot})
    ensures page.Some? ==> file.off <= |file.file| && file.bmap == k.dev.file.bmap
  {
    SwappedFacts(k, cap, a, at);
    SwappedOnDevice(k, cap, a, at);
    var bytes;
    file, bytes := SwapFile.In(k.dev.file, slot, PagesOf(k.used, k.slots));
    if bytes.None? {
      return file, None;
    }
    return file, Some(Page(bytes.value));
  }

  /** swapfree_file and the emptied entry (fs.c:1098-1170, vm.c:301-310). */
  method SwapFree(k: State, cap: int, at: At, ghost a: Memory) returns (k': State)
    requires a in Refined(k, cap) && Get(k.ptes, at).s
    ensures a - {at} in Refined(k', cap) && k'.tabs == k.tabs && k'.ptes == k.ptes[at := NOPTE] && k'.free == k.free
    ensures at in k.swapped && k'.swapped == k.swapped - {at} && k'.used == k.used - {k.swapped[at].slot}
  {
    SwappedOnDevice(k, cap, a, at);
    var bins, found := SwapMap.Free(k.dev.end, k.dev.bins, at, k.ptes[at].frame, k.swapped);
    var slot := found.value;
    var file := SwapFile.Drop(k.dev.file, slot, PagesOf(k.used, k.slots));
    DropBacked(k.dev, k.swapped, k.used, k.slots, cap, at, bins, file);
    DroppedRefined(k, cap, a, at, Device(k.dev.end, bins, file));
    k' := k.(swapped := k.swapped - {at}, used := k.used - {slot}, dev := Device(k.dev.end, bins, file),
             slots := if slot < cap then k.slots[slot := ZERO] else k.slots);
    k' := k'.(ptes := k'.ptes[at := NOPTE]);
  }

  /** clearpteu (vm.c:342-349): exec makes its guard page with it. */
  method ClearPteu(k: State, cap: int, at: At, ghost a: Memory) returns (k': State, r: Outcome)
    requires a in Refined(k, cap)
    ensures !r.Fail? && (r.Panic? <==> TabOf(at) !in k.tabs)
    ensures r.Ok? ==> a in Refined(k', cap) && k'.tabs == k.tabs && k'.free == k.free
    ensures r.Ok? ==> Get(k'.ptes, at) == Get(k.ptes, at).(u := false)
    ensures r.Ok? ==> forall x {:trigger Get(k'.ptes, x)} :: x != at ==> Get(k'.ptes, x) == Get(k.ptes, x)
  {
    var found;
    k', found := WalkPgdir(k, at, false);
    if !found {
      return k, Panic;
    }
    r := Ok;
    if at in k.ptes {
      UserFlagRefined(k, cap, a, at, false);
      k' := k.(ptes := k.ptes[at := k.ptes[at].(u := false)]);
    }
  }

  // ----- The fault handler -----

  /** An address space: its directory and its size in bytes. */
  datatype Space = Space(dir: int, sz: int)

  /** A page the process holds but may not touch, shared with another process, is read. */
  predicate GuardRead(e: Pte, write: bool)
  {
    e.p && !e.u && e.c && !write
  }

  /** A guard page that is touched loses its protection: it is marked as shared, there is a frame for it,
      and it is read, or written while its frame really is shared. */
  predicate GuardLost(k: State, e: Pte, write: bool)
    requires e.frame in k.ref
  {
    e.c && k.free.Run? && (!write || k.ref[e.frame] != 1)
  }

  /** What is promised of a fault at a page with entry `e`. */
  ghost predicate Resolved(k: State, k': State, cap: int, at: At, write: bool, a: Memory, r: Outcome)
  {
    var e := Get(k.ptes, at);
    && (!r.Panic? && !GuardRead(e, write) ==> a in Refined(k', cap))
    && (r.Ok? && GuardRead(e, write) ==> e.frame in k'.ref && k'.ref[e.frame] == |Owners(k'.ptes, e.frame)| + 1)
    && (r.Ok? && (e.p || e.s ==> e.u) ==> Permits(Get(k'.ptes, at), write))
    && (e.p && !e.u && e.frame in k.ref && !r.Panic? ==> (Get(k'.ptes, at).u <==> GuardLost(k, e, write)))
    && (r.Panic? <==> (e.s && at in k.swapped && Unrestorable(k, cap, at)) || (e.p && !e.u && !e.c && k.free.Run?))
    && (!r.Panic? ==> KeepsTabs(k, k') && Frames(k'.free) >= Frames(k.free) - 2)
    && (r.Fail? ==> k'.ptes == k.ptes && Scarce(k))
    && (r.Ok? ==> at in k'.ptes && k'.ptes == k.ptes[at := k'.ptes[at]])
  }

  /** A fault at a page whose entry is there and not swapped (vm.c:656-668). */
  method ResolvePresent(k: State, cap: int, at: At, write: bool, ghost a: Memory) returns (k': State, r: Outcome)
    requires a in Refined(k, cap) && InDir(k.tabs, at) && !Get(k.ptes, at).s
    requires !Permits(Get(k.ptes, at), write)
    ensures Resolved(k, k', cap, at, write, a, r)
  {
    AbsentFacts(k, cap, a, at);
    var e := Get(k.ptes, at);
    k', r := k, Fail;
    if e.p {
      PresentFacts(k, cap, a, at);
    }
    if e.c && write {
      k', r := CopyOnWrite(k, cap, at, a);
      if r.Ok? {
        UnsharedEntries(k, cap, a, at);
        return;
      }
    }
    k', r := LazyAlloc(k', cap, at, a);
    if e.p && r.Ok? {
      OverwriteLeaks(k, cap, a, at, ZERO);
    }
  }

  /** handle_pagefault (vm.c:621-673), for a fault the processor raised. Nobody notices it in
      the contents; when it succeeds on a page that is accessible at all, the instruction can
      go on. It spoils the accounting in exactly one case, the read of a shared guard page. */
  method HandlePageFault(k: State, cap: int, p: Space, addr: int, write: bool, ghost a: Memory)
    returns (k': State, r: Outcome)
    requires a in Refined(k, cap) && Tab(p.dir, -1) in k.tabs && 0 <= addr
    requires !Permits(Get(k.ptes, At(p.dir, addr / PGSIZE)), write)
    ensures var va := addr / PGSIZE * PGSIZE;
            if va == 0 || va >= KERNPAGES * PGSIZE || va > p.sz then r.Fail? && k' == k
            else Resolved(k, k', cap, At(p.dir, addr / PGSIZE), write, a, r)
  {
    var at := At(p.dir, addr / PGSIZE);
    if at.page == 0 || at.page >= KERNPAGES || at.page * PGSIZE > p.sz {
      return k, Fail;
    }
    AbsentFacts(k, cap, a, at);
    var found;
    k', found := WalkPgdir(k, at, false);
    if !found {
      k', r := LazyAlloc(k, cap, at, a);
    } else if Get(k.ptes, at).s {
      SwappedFacts(k, cap, a, at);
      k', r := SwapRestore(k, cap, at, a);
    } else {
      k', r := ResolvePresent(k, cap, at, write, a);
    }
  }

  // ----- Shrinking and the end of an address space -----

  /** Private memory without the pages [lo, hi) of an address space. */
  function Cleared(a: Memory, dir: int, lo: int, hi: int): Memory
  {
    map at | at in a && !(at.dir == dir && lo <= at.page < hi) :: a[at]
  }

  lemma {:induction false} ClearedMore(k: State, cap: int, a: Memory, dir: int, lo: int, i: int, j: int)
    requires Cleared(a, dir, lo, i) in Refined(k, cap) && lo <= i <= j
    requires forall at: At :: at.dir == dir && i <= at.page < j ==> !Get(k.ptes, at).p && !Get(k.ptes, at).s
    ensures Cleared(a, dir, lo, j) in Refined(k, cap)
  {
    var b, c := Cleared(a, dir, lo, i), Cleared(a, dir, lo, j);
    forall at
      ensures Look(c, at) == Look(b, at)
    {
      if at.dir == dir && i <= at.page < j {
        Untouched(k, b, at);
      }
    }
    LooksSame(k, cap, b, c);
  }

  lemma {:induction false} LooksSame(k: State, cap: int, b: Memory, c: Memory)
    requires b in Refined(k, cap) && forall at :: Look(c, at) == Look(b, at)
    ensures c in Refined(k, cap)
  {
    forall at
      ensures Matches(Content(k, at), Look(c, at))
    {
      assert Matches(Content(k, at), Look(b, at));
    }
  }

  /** One page of deallocuvm (vm.c:290-312). A frame 0 would be a panic; there is none. */
  method DeallocPage(k: State, cap: int, at: At, ghost a: Memory) returns (k': State, r: Outcome)
    requires a in Refined(k, cap)
    ensures r.Ok? && k'.tabs == k.tabs && a - {at} in Refined(k', cap) && Frames(k'.free) >= Frames(k.free)
    ensures k'.ptes == if Get(k.ptes, at).p || Get(k.ptes, at).s then k.ptes[at := NOPTE] else k.ptes
  {
    var e := Get(k.ptes, at);
    k', r := k, Ok;
    if e.p {
      PresentFacts(k, cap, a, at);
      UnmappedRefined(k, cap, a, at);
      k', r := KFree(k', e.frame);
      k' := k'.(ptes := k'.ptes[at := NOPTE]);
      assert k' == Unmapped(k, at);
    } else if e.s {
      k' := SwapFree(k', cap, at, a);
    } else {
      Untouched(k, a, at);
      assert forall x :: Look(a - {at}, x) == Look(a, x);
      LooksSame(k, cap, a, a - {at});
    }
  }

  /** Pages of a missing page table are untouched. */
  lemma {:induction false} SkippedTable(k: State, cap: int, a: Memory, dir: int, i: int)
    requires a in Refined(k, cap) && TabOf(At(dir, i)) !in k.tabs
    ensures forall at: At :: at.dir == dir && i <= at.page < (i / NPTENTRIES + 1) * NPTENTRIES ==>
            !Get(k.ptes, at).p && !Get(k.ptes, at).s
  {
    forall at: At | at.dir == dir && i <= at.page < (i / NPTENTRIES + 1) * NPTENTRIES
      ensures !Get(k.ptes, at).p && !Get(k.ptes, at).s
    {
      assert TabOf(at) == TabOf(At(dir, i));
      AbsentFacts(k, cap, a, at);
    }
  }

  /** What deallocuvm leaves of an entry. */
  function Emptied(ptes: map<At, Pte>, dir: int, lo: int, hi: int, at: At): Pte
  {
    if at.dir == dir && lo <= at.page < hi && (Get(ptes, at).p || Get(ptes, at).s) then NOPTE else Get(ptes, at)
  }

  ghost predicate IsEmptied(ptes: map<At, Pte>, ptes': map<At, Pte>, dir: int, lo: int, hi: int)
  {
    forall at {:trigger Get(ptes', at)} :: Get(ptes', at) == Emptied(ptes, dir, lo, hi, at)
  }

  lemma {:induction false} EmptiedPage(ptes: map<At, Pte>, ptes': map<At, Pte>, dir: int, lo: int, i: int)
    requires IsEmptied(ptes, ptes', dir, lo, i) && lo <= i
    ensures var at := At(dir, i);
            IsEmptied(ptes, if Get(ptes', at).p || Get(ptes', at).s then ptes'[at := NOPTE] else ptes', dir, lo, i + 1)
  {
    assert Get(ptes', At(dir, i)) == Get(ptes, At(dir, i));
    var at := At(dir, i);
    var ptes'' := if Get(ptes', at).p || Get(ptes', at).s then ptes'[at := NOPTE] else ptes';
    forall x
      ensures Get(ptes'', x) == Emptied(ptes, dir, lo, i + 1, x)
    {
      assert Get(ptes', x) == Emptied(ptes, dir, lo, i, x);
      if x.dir == dir && x.page == i {
        assert x == at;
      }
    }
  }

  lemma {:induction false} EmptiedSkip(ptes: map<At, Pte>, ptes': map<At, Pte>, dir: int, lo: int, i: int, j: int)
    requires IsEmptied(ptes, ptes', dir, lo, i) && lo <= i <= j
    requires forall at: At :: at.dir == dir && i <= at.page < j ==> !Get(ptes', at).p && !Get(ptes', at).s
    ensures IsEmptied(ptes, ptes', dir, lo, j)
  {
    forall x
      ensures Get(ptes', x) == Emptied(ptes, dir, lo, j, x)
    {
      assert Get(ptes', x) == Emptied(ptes, dir, lo, i, x);
    }
  }

  lemma {:induction false} ClearedPage(a: Memory, dir: int, lo: int, i: int)
    requires lo <= i
    ensures Cleared(a, dir, lo, i + 1) == Cleared(a, dir, lo, i) - {At(dir, i)}
  {
    forall x
      ensures x in Cleared(a, dir, lo, i + 1) <==> x in Cleared(a, dir, lo, i) - {At(dir, i)}
    {
      if x.dir == dir && x.page == i {
        assert x == At(dir, i);
      }
    }
  }

  lemma {:induction false} ClearedNone(a: Memory, dir: int, lo: int, hi: int)
    requires hi <= lo
    ensures Cleared(a, dir, lo, hi) == a
  {
  }

  /** deallocuvm (vm.c:281-317): the pages from PGROUNDUP(newsz) up to oldsz are pages of zeroes
      again, their frames and slots are given back, and no other page changes. */
  method DeallocUvm(k: State, cap: int, dir: int, oldsz: int, newsz: int, ghost a: Memory)
    returns (k': State, sz: int, r: Outcome)
    requires a in Refined(k, cap) && 0 <= newsz
    ensures r.Ok? && sz == (if newsz >= oldsz then oldsz else newsz) && k'.tabs == k.tabs
    ensures Cleared(a, dir, Pages(newsz), Pages(oldsz)) in Refined(k', cap)
    ensures IsEmptied(k.ptes, k'.ptes, dir, Pages(newsz), Pages(oldsz)) && Frames(k'.free) >= Frames(k.free)
  {
    ghost var lo, hi := Pages(newsz), Pages(oldsz);
    r, k' := Ok, k;
    if newsz >= oldsz {
      ClearedNone(a, dir, lo, hi);
      return k, oldsz, Ok;
    }
    ClearedNone(a, dir, lo, lo);
    sz := newsz;
    var i := Pages(newsz);
    while i * PGSIZE < oldsz
      invariant r.Ok? && lo <= Least(i, hi) && k'.tabs == k.tabs && Frames(k'.free) >= Frames(k.free)
      invariant Cleared(a, dir, lo, Least(i, hi)) in Refined(k', cap)
      invariant IsEmptied(k.ptes, k'.ptes, dir, lo, Least(i, hi))
      decreases oldsz - i * PGSIZE
    {
      ghost var b, j := Cleared(a, dir, lo, i), i;
      if TabOf(At(dir, i)) !in k'.tabs {
        SkippedTable(k', cap, b, dir, i);
        i := (i / NPTENTRIES + 1) * NPTENTRIES;
        ClearedMore(k', cap, a, dir, lo, j, Least(i, hi));
        EmptiedSkip(k.ptes, k'.ptes, dir, lo, j, Least(i, hi));
      } else {
        EmptiedPage(k.ptes, k'.ptes, dir, lo, i);
        ClearedPage(a, dir, lo, i);
        k', r := DeallocPage(k', cap, At(dir, i), b);
        i := i + 1;
      }
    }
  }

  ghost predicate NoEntries(ptes: map<At, Pte>, dir: int)
  {
    forall at: At {:trigger Get(ptes, at)} :: at.dir == dir ==> !Get(ptes, at).p && !Get(ptes, at).s
  }

  lemma {:induction false} AllEmptied(k: State, cap: int, a: Memory, ptes': map<At, Pte>, dir: int)
    requires a in Refined(k, cap) && IsEmptied(k.ptes, ptes', dir, 0, KERNPAGES)
    ensures NoEntries(ptes', dir)
  {
    forall at: At | at.dir == dir
      ensures !Get(ptes', at).p && !Get(ptes', at).s
    {
      assert Get(ptes', at) == Emptied(k.ptes, dir, 0, KERNPAGES, at);
      AbsentFacts(k, cap, a, at);
      if TabOf(at) in k.tabs {
        assert k.tabs[TabOf(at)] == k.tabs[TabOf(at)];
      }
    }
  }

  /** One page table of freevm (vm.c:330-335). */
  method FreeTab(k: State, cap: int, t: Tab, ghost a: Memory) returns (k': State)
    requires a in Refined(k, cap) && NoEntries(k.ptes, t.dir)
    requires t.index == -1 ==> forall x :: x in k.tabs && x.dir == t.dir ==> x == t
    ensures a in Refined(k', cap) && k'.ptes == k.ptes && k'.tabs == k.tabs - {t}
    ensures Frames(k'.free) >= Frames(k.free)
  {
    k' := k;
    if t in k.tabs {
      forall at | at in k.ptes && TabOf(at) == t
        ensures !k.ptes[at].p && !k.ptes[at].s
      {
        assert k.ptes[at] == Get(k.ptes, at);
      }
      TabFreedRefined(k, cap, a, t);
      var f := k'.tabs[t];
      k' := k'.(tabs := k'.tabs - {t});
      var r;
      k', r := KFree(k', f);
    }
  }

  /** The page tables without those of `dir` with an index below `i`. */
  ghost function TabsBut(tabs: map<Tab, int>, dir: int, i: int): map<Tab, int>
  {
    map t | t in tabs && !(t.dir == dir && 0 <= t.index < i) :: tabs[t]
  }

  lemma {:induction false} TabsButOne(tabs: map<Tab, int>, dir: int, i: int)
    requires 0 <= i
    ensures TabsBut(tabs, dir, i + 1) == TabsBut(tabs, dir, i) - {Tab(dir, i)}
  {
    forall t
      ensures t in TabsBut(tabs, dir, i + 1) <==> t in TabsBut(tabs, dir, i) - {Tab(dir, i)}
    {
      if t.dir == dir && t.index == i {
        assert t == Tab(dir, i);
      }
    }
  }

  method FreeTabs(k: State, cap: int, dir: int, ghost a: Memory) returns (k': State)
    requires a in Refined(k, cap) && NoEntries(k.ptes, dir)
    ensures a in Refined(k', cap) && k'.ptes == k.ptes && k'.tabs == TabsBut(k.tabs, dir, USERTABS)
    ensures Frames(k'.free) >= Frames(k.free)
  {
    k' := k;
    assert TabsBut(k.tabs, dir, 0) == k.tabs;
    var i := 0;
    while i < USERTABS
      invariant 0 <= i <= USERTABS && a in Refined(k', cap) && k'.ptes == k.ptes && k'.tabs == TabsBut(k.tabs, dir, i)
      invariant Frames(k'.free) >= Frames(k.free)
    {
      TabsButOne(k.tabs, dir, i);
      k' := FreeTab(k', cap, Tab(dir, i), a);
      i := i + 1;
    }
  }

  lemma {:induction false} LastTab(tabs: map<Tab, int>, dir: int)
    requires DirsOk(tabs)
    ensures forall t :: t in TabsBut(tabs, dir, USERTABS) && t.dir == dir ==> t == Tab(dir, -1)
    ensures forall t :: t in TabsBut(tabs, dir, USERTABS) - {Tab(dir, -1)} <==> t in tabs && t.dir != dir
  {
    forall t | t in tabs && t.dir == dir
      ensures -1 <= t.index < USERTABS && t == Tab(dir, t.index)
    {
      assert tabs[t] == tabs[t];
    }
  }

  /** freevm (vm.c:322-337), without the kernel half of the directory: all frames, slots, page
      tables and the directory of an address space are given back. */
  method FreeVm(k: State, cap: int, dir: int, ghost a: Memory) returns (k': State)
    requires a in Refined(k, cap)
    ensures Cleared(a, dir, 0, KERNPAGES) in Refined(k', cap)
    ensures IsEmptied(k.ptes, k'.ptes, dir, 0, KERNPAGES) && Frames(k'.free) >= Frames(k.free)
    ensures forall t :: t in k'.tabs <==> t in k.tabs && t.dir != dir
  {
    var sz, r;
    LastTab(k.tabs, dir);
    k', sz, r := DeallocUvm(k, cap, dir, KERNPAGES * PGSIZE, 0, a);
    AllEmptied(k, cap, a, k'.ptes, dir);
    ghost var b := Cleared(a, dir, 0, KERNPAGES);
    k' := FreeTabs(k', cap, dir, b);
    k' := FreeTab(k', cap, Tab(dir, -1), b);
  }

  // ----- Fork -----

  /** Private memory after the pages 1 to i - 1 of `dir` were copied to `d`. */
  function CopyPages(a: Memory, dir: int, d: int, i: int): Memory
  {
    if i <= 1 then a else CopyPages(a, dir, d, i - 1)[At(d, i - 1) := Look(a, At(dir, i - 1))]
  }

  lemma {:induction false} CopyPagesAt(a: Memory, dir: int, d: int, i: int, at: At)
    requires dir != d
    ensures Look(CopyPages(a, dir, d, i), at) == if at.dir == d && 1 <= at.page < i
            then Look(a, At(dir, at.page)) else Look(a, at)
    decreases i
  {
    if i > 1 {
      CopyPagesAt(a, dir, d, i - 1, at);
      assert at.dir == d && at.page == i - 1 ==> at == At(d, i - 1);
    }
  }

  /** No page table went away, and at most one was made. */
  ghost predicate TabsGrown(tabs: map<Tab, int>, tabs': map<Tab, int>, t: Tab)
  {
    forall x {:trigger x in tabs'} :: x in tabs' <==> x in tabs || (x == t && t in tabs')
  }

  /** The entry of a shared page, in the parent and in the child. */
  function ShareMark(e: Pte): Pte
  {
    e.(w := false, c := true)
  }

  /** The parent's entry is marked, and the child's page table is made (vm.c:373-379). */
  method MarkPage(k: State, cap: int, at: At, child: At, ghost a: Memory) returns (k': State, found: bool)
    requires a in Refined(k, cap) && Get(k.ptes, at).p && InDir(k.tabs, child)
    ensures a in Refined(k', cap) && k'.ptes == k.ptes[at := ShareMark(k.ptes[at])]
    ensures TabsGrown(k.tabs, k'.tabs, TabOf(child)) && (found <==> TabOf(child) in k'.tabs)
    ensures k'.swapped == k.swapped && Frames(k'.free) >= Frames(k.free) - 1 && (!found ==> k.free.Nil?)
  {
    MarkedRefined(k, cap, a, at);
    k' := k.(ptes := k.ptes[at := k.ptes[at].(w := false, c := true)]);
    if k'.free.Run? {
      FreeHead(k', cap, a);
      if TabOf(child) !in k'.tabs {
        WalkedRefined(k', cap, a, child);
      }
    }
    k', found := WalkPgdir(k', child, true);
  }

  /** The child's entry is made and the frame is counted once more (vm.c:374-382). */
  method LinkPage(k: State, cap: int, at: At, child: At, ghost a: Memory) returns (k': State)
    requires a in Refined(k, cap) && Get(k.ptes, at).p && k.ptes[at].c && TabOf(child) in k.tabs
    requires !Get(k.ptes, child).p && !Get(k.ptes, child).s
    ensures a[child := Look(a, at)] in Refined(k', cap) && k'.tabs == k.tabs && k'.ptes == k.ptes[child := k.ptes[at]]
    ensures k'.swapped == k.swapped && k'.free == k.free
  {
    PresentFacts(k, cap, a, at);
    SharedRefined(k, cap, a, at, child);
    SharedMarked(k, at, child);
    var e, r := k.ptes[at], Ok;
    k', r := MapPage(k, child, e.frame, e);
    k' := k'.(ref := k'.ref[e.frame := k'.ref[e.frame] + 1]);
  }

  /** Marking a marked entry again changes nothing. */
  lemma {:induction false} SharedMarked(k: State, at: At, child: At)
    requires at in k.ptes && k.ptes[at].frame in k.ref && k.ptes[at].c && !k.ptes[at].w && k.ptes[at].p
    ensures var e := k.ptes[at];
            Shared(k, at, child) == k.(ptes := k.ptes[child := e.(frame := e.frame, p := true)],
              ref := k.ref[e.frame := k.ref[e.frame] + 1])
  {
    assert k.ptes[at := k.ptes[at]] == k.ptes;
  }

  /** What copying one page does to the entries. */
  ghost predicate PageCopied(k: State, k': State, at: At, child: At)
  {
    && TabsGrown(k.tabs, k'.tabs, TabOf(child))
    && (forall x {:trigger Get(k'.ptes, x)} :: x != at && x != child ==> Get(k'.ptes, x) == Get(k.ptes, x))
    && (forall x {:trigger x in k'.swapped} :: x != at ==>
       (x in k'.swapped <==> x in k.swapped) && (x in k.swapped ==> k'.swapped[x] == k.swapped[x]))
  }

  /** A page of copyuvm that is present, or untouched (vm.c:368-382). */
  method SharePage(k: State, cap: int, at: At, child: At, ghost a: Memory) returns (k': State, r: Outcome)
    requires a in Refined(k, cap) && at != child && InDir(k.tabs, child) && !Get(k.ptes, at).s
    requires !Get(k.ptes, child).p && !Get(k.ptes, child).s
    ensures !r.Panic? && PageCopied(k, k', at, child) && Frames(k'.free) >= Frames(k.free) - 1
    ensures r.Ok? ==> a[child := Look(a, at)] in Refined(k', cap)
    ensures r.Ok? ==> var e := Get(k.ptes, at); k'.ptes == if e.p
            then k.ptes[at := ShareMark(e)][child := ShareMark(e)] else k.ptes
    ensures r.Fail? ==> a in Refined(k', cap) && Get(k'.ptes, child) == Get(k.ptes, child) && k.free.Nil?
  {
    if !Get(k.ptes, at).p {
      Untouched(k, a, at);
      Untouched(k, a, child);
      assert forall x :: Look(a[child := Look(a, at)], x) == Look(a, x);
      LooksSame(k, cap, a, a[child := Look(a, at)]);
      return k, Ok;
    }
    var found;
    k', found := MarkPage(k, cap, at, child, a);
    if !found {
      return k', Fail;
    }
    k' := LinkPage(k', cap, at, child, a);
    r := Ok;
  }

  /** One page of copyuvm (vm.c:362-386): the child finds what the parent finds. */
  method CopyPage(k: State, cap: int, at: At, child: At, ghost a: Memory) returns (k': State, r: Outcome)
    requires a in Refined(k, cap) && at != child && InDir(k.tabs, child)
    requires !Get(k.ptes, child).p && !Get(k.ptes, child).s
    ensures r.Ok? ==> a[child := Look(a, at)] in Refined(k', cap)
    ensures r.Fail? ==> a in Refined(k', cap) && Get(k'.ptes, child) == Get(k.ptes, child) && Scarce(k)
    ensures !r.Panic? ==> PageCopied(k, k', at, child) && Frames(k'.free) >= Frames(k.free) - 2
    ensures r.Ok? && (Get(k.ptes, at).p || Get(k.ptes, at).s) ==>
            Get(k'.ptes, child) == Get(k'.ptes, at) == ShareMark(Get(k'.ptes, at))
    ensures r.Ok? && Get(k.ptes, at).p ==> Get(k'.ptes, at) == ShareMark(Get(k.ptes, at))
    ensures r.Ok? ==> if Get(k.ptes, at).p || Get(k.ptes, at).s then Get(k'.ptes, at).p && !Get(k'.ptes, at).s
                      else k'.ptes == k.ptes
    ensures Get(k.ptes, at).s ==> at in k.swapped
    ensures r.Panic? <==> TabOf(at) !in k.tabs || (Get(k.ptes, at).s && Unrestorable(k, cap, at))
  {
    AbsentFacts(k, cap, a, at);
    if Get(k.ptes, at).s {
      SwappedFacts(k, cap, a, at);
    }
    var found;
    k', found := WalkPgdir(k, at, false);
    if !found {
      return k', Panic;
    }
    if Get(k.ptes, at).s {
      k', r := SwapRestore(k, cap, at, a);
      if r.Panic? {
        return;
      }
    }
    ghost var k1 := k';
    k', r := SharePage(k', cap, at, child, a);
    assert PageCopied(k1, k', at, child);
  }

  /** The pages of an address space from `i` on are untouched. */
  ghost predicate UntouchedFrom(ptes: map<At, Pte>, d: int, i: int)
  {
    forall at: At {:trigger Get(ptes, at)} :: at.dir == d && at.page >= i ==> !Get(ptes, at).p && !Get(ptes, at).s
  }

  lemma {:induction false} StillUntouched(k: State, k': State, dir: int, d: int, i: int)
    requires UntouchedFrom(k.ptes, d, i) && PageCopied(k, k', At(dir, i), At(d, i)) && dir != d
    ensures UntouchedFrom(k'.ptes, d, i + 1)
  {
  }

  /** A failed copyuvm leaves no trace of the child: what it found is what was there before. */
  lemma {:induction false} ChildGone(k: State, cap: int, a: Memory, k': State, dir: int, d: int, i: int)
    requires a in Views(k) && dir != d && UntouchedFrom(k.ptes, d, 0) && i <= KERNPAGES
    requires Cleared(CopyPages(a, dir, d, i), d, 0, KERNPAGES) in Refined(k', cap)
    ensures a in Refined(k', cap)
  {
    var b := Cleared(CopyPages(a, dir, d, i), d, 0, KERNPAGES);
    forall at
      ensures Look(a, at) == Look(b, at)
    {
      CopyPagesAt(a, dir, d, i, at);
      if at.dir == d && at.page >= 0 {
        Untouched(k, a, at);
      }
    }
    LooksSame(k', cap, b, a);
  }

  /** Every page table of `tabs` is left, and the others belong to `d`. */
  ghost predicate TabsAdded(tabs: map<Tab, int>, tabs': map<Tab, int>, d: int)
  {
    forall t {:trigger t in tabs'} :: (t in tabs ==> t in tabs') && (t in tabs' ==> t in tabs || t.dir == d)
  }

  /** The page has an entry that can be brought back if it is swapped, given a frame. */
  ghost predicate Forkable(k: State, cap: int, dir: int, i: int)
  {
    var at := At(dir, i);
    TabOf(at) in k.tabs && (Get(k.ptes, at).s ==> at in k.swapped && k.swapped[at].slot < cap)
  }

  /** All pages from PGSIZE up to page `n` can be copied. */
  ghost predicate AllForkable(k: State, cap: int, dir: int, n: int)
  {
    forall j {:trigger Forkable(k, cap, dir, j)} :: 1 <= j < n ==> Forkable(k, cap, dir, j)
  }

  lemma {:induction false} ForkableNext(k: State, cap: int, dir: int, n: int)
    requires AllForkable(k, cap, dir, n) && Forkable(k, cap, dir, n)
    ensures AllForkable(k, cap, dir, n + 1)
  {
  }

  /** Some page has to be brought back to be copied. */
  ghost predicate SomeSwapped(k: State, dir: int, n: int)
  {
    exists j {:trigger At(dir, j)} :: 1 <= j < n && Get(k.ptes, At(dir, j)).s
  }

  /** Frames that copying a page may take: one to bring it back, one for a page table. */
  const PERPAGE: int := 2

  ghost predicate SameFrom(k: State, k': State, dir: int, i: int)
  {
    forall j {:trigger At(dir, j)} :: i <= j ==>
      var at := At(dir, j);
      && Get(k'.ptes, at) == Get(k.ptes, at) && (at in k'.swapped <==> at in k.swapped)
      && (at in k.swapped ==> k'.swapped[at] == k.swapped[at])
  }

  /** An entry of another directory is as it was. */
  ghost predicate Spares(ptes: map<At, Pte>, ptes': map<At, Pte>, dir: int, d: int, at: At)
  {
    at.dir != dir && at.dir != d ==> Get(ptes', at) == Get(ptes, at)
  }

  ghost predicate Spared(ptes: map<At, Pte>, ptes': map<At, Pte>, dir: int, d: int)
  {
    forall at {:trigger Spares(ptes, ptes', dir, d, at)} :: Spares(ptes, ptes', dir, d, at)
  }

  lemma {:induction false} SparedNext(ptes: map<At, Pte>, k: State, k': State, dir: int, d: int, n: int)
    requires Spared(ptes, k.ptes, dir, d) && PageCopied(k, k', At(dir, n), At(d, n))
    ensures Spared(ptes, k'.ptes, dir, d)
  {
    forall at
      ensures Spares(ptes, k'.ptes, dir, d, at)
    {
      assert Spares(ptes, k.ptes, dir, d, at);
    }
  }

  /** A page that is copied lazily: if the parent had it, it is present, read-only and marked in both directories,
      with one frame for the two; otherwise it is in neither. */
  ghost predicate LazyPage(ptes: map<At, Pte>, ptes': map<At, Pte>, dir: int, d: int, j: int)
  {
    var e, e', f := Get(ptes, At(dir, j)), Get(ptes', At(dir, j)), Get(ptes', At(d, j));
    !e'.s && if e.p || e.s then e'.p && e'.c && !e'.w && f == e' else !e'.p && !f.p && !f.s
  }

  ghost predicate Lazily(ptes: map<At, Pte>, ptes': map<At, Pte>, dir: int, d: int, n: int)
  {
    && (forall j {:trigger LazyPage(ptes, ptes', dir, d, j)} :: 1 <= j < n ==> LazyPage(ptes, ptes', dir, d, j))
    && Spared(ptes, ptes', dir, d)
  }

  lemma {:induction false} LazilyNext(k0: State, k: State, k': State, dir: int, d: int, n: int)
    requires Lazily(k0.ptes, k.ptes, dir, d, n) && PageCopied(k, k', At(dir, n), At(d, n)) && dir != d
    requires Get(k.ptes, At(dir, n)) == Get(k0.ptes, At(dir, n))
    requires !Get(k.ptes, At(d, n)).p && !Get(k.ptes, At(d, n)).s
    requires var e, e' := Get(k.ptes, At(dir, n)), Get(k'.ptes, At(dir, n));
             if e.p || e.s then e'.p && !e'.s && Get(k'.ptes, At(d, n)) == e' == ShareMark(e') else k'.ptes == k.ptes
    ensures Lazily(k0.ptes, k'.ptes, dir, d, n + 1)
  {
    SparedNext(k0.ptes, k, k', dir, d, n);
    forall j | 1 <= j < n + 1
      ensures LazyPage(k0.ptes, k'.ptes, dir, d, j)
    {
      if j < n {
        assert LazyPage(k0.ptes, k.ptes, dir, d, j);
      }
    }
  }

  /** The states in which copyuvm has copied the pages below `n` from `dir` to `d`, starting
      from the state `k` in which `d` was empty. */
  ghost function Copying(k: State, cap: int, dir: int, d: int, a: Memory, n: int): iset<State>
  {
    iset k': State |
      && CopyPages(a, dir, d, n) in Refined(k', cap) && Tab(d, -1) in k'.tabs && TabsAdded(k.tabs, k'.tabs, d)
      && UntouchedFrom(k'.ptes, d, n) && SameFrom(k, k', dir, n) && Lazily(k.ptes, k'.ptes, dir, d, n)
  }

  /** Pages not yet copied are as they were. */
  lemma {:induction false} StillForkable(k0: State, k: State, cap: int, dir: int, d: int, a: Memory, n: int)
    requires k in Copying(k0, cap, dir, d, a, n) && dir != d
    ensures Forkable(k, cap, dir, n) <==> Forkable(k0, cap, dir, n)
    ensures Get(k.ptes, At(dir, n)) == Get(k0.ptes, At(dir, n))
  {
    var at := At(dir, n);
    assert TabOf(at) in k.tabs <==> TabOf(at) in k0.tabs;
  }

  lemma {:induction false} StillSame(k0: State, k: State, k': State, dir: int, d: int, n: int)
    requires SameFrom(k0, k, dir, n) && PageCopied(k, k', At(dir, n), At(d, n)) && dir != d
    ensures SameFrom(k0, k', dir, n + 1)
  {
    forall j | n + 1 <= j
      ensures var at := At(dir, j);
              && Get(k'.ptes, at) == Get(k0.ptes, at) && (at in k'.swapped <==> at in k0.swapped)
              && (at in k0.swapped ==> k'.swapped[at] == k0.swapped[at])
    {
      var at := At(dir, j);
      assert Get(k.ptes, at) == Get(k0.ptes, at);
    }
  }

  /** One turn of the loop of copyuvm. */
  method CopyTurn(k: State, cap: int, dir: int, d: int, n: int, ghost k0: State, ghost a: Memory)
    returns (k': State, r: Outcome)
    requires k in Copying(k0, cap, dir, d, a, n) && dir != d && 1 <= n < KERNPAGES
    ensures r.Ok? ==> k' in Copying(k0, cap, dir, d, a, n + 1)
    ensures r.Fail? ==> CopyPages(a, dir, d, n) in Refined(k', cap) && TabsAdded(k0.tabs, k'.tabs, d) &&
                        Spared(k0.ptes, k'.ptes, dir, d)
    ensures !r.Panic? ==> Frames(k'.free) >= Frames(k.free) - PERPAGE
    ensures r.Ok? ==> Forkable(k0, cap, dir, n)
    ensures !r.Ok? ==> !Forkable(k0, cap, dir, n) || Frames(k.free) < PERPAGE
    ensures r.Panic? ==> !Forkable(k0, cap, dir, n) || Get(k0.ptes, At(dir, n)).s
  {
    StillForkable(k0, k, cap, dir, d, a, n);
    CopyPagesAt(a, dir, d, n, At(dir, n));
    k', r := CopyPage(k, cap, At(dir, n), At(d, n), CopyPages(a, dir, d, n));
    if !r.Panic? {
      StillUntouched(k, k', dir, d, n);
      StillSame(k0, k, k', dir, d, n);
      if r.Fail? {
        SparedNext(k0.ptes, k, k', dir, d, n);
      } else {
        LazilyNext(k0, k, k', dir, d, n);
      }
    }
  }

  /** How the loop of copyuvm may end, over `m` pages, with the first `i` copied. */
  ghost predicate CopyEnd(k: State, k': State, cap: int, dir: int, d: int, m: int, a: Memory, r: Outcome, i: int)
  {
    && (!r.Panic? ==> TabsAdded(k.tabs, k'.tabs, d) && i <= KERNPAGES && CopyPages(a, dir, d, i) in Refined(k', cap))
    && (!r.Panic? ==> Spared(k.ptes, k'.ptes, dir, d) && Frames(k'.free) >= Frames(k.free) - PERPAGE * (if m > 1
       then m - 1 else 0))
    && (r.Ok? ==> i == m || (i == 1 && m <= 1))
    && (r.Ok? ==> k' in Copying(k, cap, dir, d, a, i) && AllForkable(k, cap, dir, m))
    && (!r.Ok? ==> !AllForkable(k, cap, dir, m) || Frames(k.free) < PERPAGE * (m - 1))
    && (r.Panic? ==> !AllForkable(k, cap, dir, m) || SomeSwapped(k, dir, m))
  }

  ghost function CopyEnds(k: State, cap: int, dir: int, d: int, m: int, a: Memory, r: Outcome, i: int): iset<State>
  {
    iset k': State | CopyEnd(k, k', cap, dir, d, m, a, r, i)
  }

  lemma {:induction false} CopyStops(k: State, k1: State, k': State, cap: int, dir: int, d: int, m: int, a: Memory,
                                     r: Outcome, n: int)
    requires !r.Ok? && 1 <= n < m <= KERNPAGES && Frames(k1.free) >= Frames(k.free) - PERPAGE * (n - 1)
    requires r.Fail? ==> CopyPages(a, dir, d, n) in Refined(k', cap) && TabsAdded(k.tabs, k'.tabs, d) &&
                         Spared(k.ptes, k'.ptes, dir, d) && Frames(k'.free) >= Frames(k1.free) - PERPAGE
    requires !Forkable(k, cap, dir, n) || Frames(k1.free) < PERPAGE
    requires r.Panic? ==> !Forkable(k, cap, dir, n) || Get(k.ptes, At(dir, n)).s
    ensures k' in CopyEnds(k, cap, dir, d, m, a, r, n)
  {
    assert CopyEnd(k, k', cap, dir, d, m, a, r, n);
  }

  lemma {:induction false} CopyDone(k: State, k': State, cap: int, dir: int, d: int, m: int, a: Memory, n: int)
    requires k' in CopiedTo(k, cap, dir, d, a, n) && 1 <= n && m <= n <= KERNPAGES && (n == 1 || n <= m)
    ensures k' in CopyEnds(k, cap, dir, d, m, a, Ok, n)
  {
    assert CopyEnd(k, k', cap, dir, d, m, a, Ok, n);
  }

  /** As Copying, when all the pages could be copied and took no more frames than they may. */
  ghost function CopiedTo(k: State, cap: int, dir: int, d: int, a: Memory, n: int): iset<State>
  {
    iset k': State |
      && k' in Copying(k, cap, dir, d, a, n) && AllForkable(k, cap, dir, n)
      && Frames(k'.free) >= Frames(k.free) - PERPAGE * (n - 1)
  }

  lemma {:induction false} CopyNext(k: State, k1: State, k': State, cap: int, dir: int, d: int, a: Memory, n: int)
    requires k1 in CopiedTo(k, cap, dir, d, a, n) && k' in Copying(k, cap, dir, d, a, n + 1)
    requires Forkable(k, cap, dir, n) && Frames(k'.free) >= Frames(k1.free) - PERPAGE
    ensures k' in CopiedTo(k, cap, dir, d, a, n + 1)
  {
    ForkableNext(k, cap, dir, n);
  }

  /** One turn, towards `m` pages. */
  method CopyOn(k: State, cap: int, dir: int, d: int, n: int, ghost m: int, ghost k0: State, ghost a: Memory)
    returns (k': State, r: Outcome)
    requires k in CopiedTo(k0, cap, dir, d, a, n) && dir != d && 1 <= n < m <= KERNPAGES
    ensures r.Ok? ==> k' in CopiedTo(k0, cap, dir, d, a, n + 1)
    ensures !r.Ok? ==> k' in CopyEnds(k0, cap, dir, d, m, a, r, n)
  {
    k', r := CopyTurn(k, cap, dir, d, n, k0, a);
    if r.Ok? {
      CopyNext(k0, k, k', cap, dir, d, a, n);
    } else {
      CopyStops(k0, k, k', cap, dir, d, m, a, r, n);
    }
  }

  lemma {:induction false} CopyStarts(k: State, cap: int, dir: int, d: int, a: Memory)
    requires a in Refined(k, cap) && Tab(d, -1) in k.tabs && UntouchedFrom(k.ptes, d, 0)
    ensures k in CopiedTo(k, cap, dir, d, a, 1)
  {
    assert Lazily(k.ptes, k.ptes, dir, d, 1) && SameFrom(k, k, dir, 1) && UntouchedFrom(k.ptes, d, 1);
  }

  /** The loop of copyuvm (vm.c:362-386). After a failure the first `i` pages are copied. */
  method CopyRange(k: State, cap: int, dir: int, d: int, sz: int, ghost a: Memory)
    returns (k': State, r: Outcome, ghost i: int)
    requires k in CopiedTo(k, cap, dir, d, a, 1) && dir != d && 0 <= sz <= KERNPAGES * PGSIZE
    ensures k' in CopyEnds(k, cap, dir, d, Pages(sz), a, r, i)
  {
    ghost var m := Pages(sz);
    k', r := k, Ok;
    var n := 1;
    while n * PGSIZE < sz
      invariant 1 <= n && (n == 1 || n <= m) && k' in CopiedTo(k, cap, dir, d, a, n)
    {
      i := n;
      k', r := CopyOn(k', cap, dir, d, n, m, k, a);
      if !r.Ok? {
        return;
      }
      n := n + 1;
    }
    i, r := n, Ok;
    CopyDone(k, k', cap, dir, d, m, a, n);
  }

  /** copyuvm (vm.c:354-392), without the kernel half of the new directory. Either the child
      finds in every page from PGSIZE up to the size what the parent finds, or there is no
      child and nobody notices. A page of the parent without a page table is a panic. */
  method CopyUvm(k: State, cap: int, dir: int, sz: int, ghost a: Memory) returns (k': State, d: int, r: Outcome)
    requires a in Refined(k, cap) && Tab(dir, -1) in k.tabs && 0 <= sz <= KERNPAGES * PGSIZE
    ensures r.Ok? ==> d != dir && CopyPages(a, dir, d, Pages(sz)) in Refined(k', cap) && Tab(d, -1) in k'.tabs
    ensures r.Ok? ==> forall t :: t in k.tabs ==> t.dir != d
    ensures r.Fail? ==> a in Refined(k', cap)
    ensures !r.Panic? ==> KeepsTabs(k, k') && Frames(k'.free) >= Frames(k.free) - PERPAGE * Pages(sz) - 1
    ensures !r.Panic? ==> OthersKept(k, k', dir)
    ensures r.Ok? ==> Lazily(k.ptes, k'.ptes, dir, d, Pages(sz))
    ensures r.Ok? ==> AllForkable(k, cap, dir, Pages(sz))
    ensures !r.Ok? ==> !AllForkable(k, cap, dir, Pages(sz)) || Frames(k.free) <= PERPAGE * Pages(sz)
    ensures r.Panic? ==> !AllForkable(k, cap, dir, Pages(sz)) || SomeSwapped(k, dir, Pages(sz))
  {
    d := 0;
    if k.free.Nil? {
      return k, d, Fail;
    }
    DirMadeRefined(k, cap, a);
    d := k.free.frame;
    assert UntouchedFrom(k.ptes, d, 0);
    k' := DirMade(k);
    CopyStarts(k', cap, dir, d, a);
    ghost var i;
    ghost var k1 := k';
    k', r, i := CopyRange(k', cap, dir, d, sz, a);
    SameForkable(k, k1, cap, dir, Pages(sz));
    if r.Fail? {
      ghost var k2 := k';
      k' := FreeVm(k', cap, d, CopyPages(a, dir, d, i));
      ChildGone(k, cap, a, k', dir, d, i);
      OthersStay(k, k2.ptes, k', dir, d, KERNPAGES);
    } else if r.Ok? {
      OthersStay(k, k'.ptes, k', dir, d, 0);
    }
  }

  /** The entries of the other directories there were are as they were. */
  ghost predicate OthersKept(k: State, k': State, dir: int)
  {
    forall at: At {:trigger Get(k'.ptes, at)} ::
      at.dir != dir && Tab(at.dir, -1) in k.tabs ==> Get(k'.ptes, at) == Get(k.ptes, at)
  }

  lemma {:induction false} OthersStay(k: State, ptes: map<At, Pte>, k': State, dir: int, d: int, n: int)
    requires Spared(k.ptes, ptes, dir, d) && IsEmptied(ptes, k'.ptes, d, 0, n) && forall t :: t in k.tabs ==> t.dir != d
    ensures OthersKept(k, k', dir)
  {
    forall at: At | at.dir != dir && Tab(at.dir, -1) in k.tabs
      ensures Get(k'.ptes, at) == Get(k.ptes, at)
    {
      assert Spares(k.ptes, ptes, dir, d, at);
      assert Get(k'.ptes, at) == Emptied(ptes, d, 0, n, at);
    }
  }

  /** A new directory changes nothing for the others. */
  lemma {:induction false} SameForkable(k: State, k1: State, cap: int, dir: int, n: int)
    requires k1.ptes == k.ptes && k1.swapped == k.swapped && forall t: Tab {:trigger t in k1.tabs} ::
             t.dir == dir ==> (t in k1.tabs <==> t in k.tabs)
    ensures AllForkable(k1, cap, dir, n) <==> AllForkable(k, cap, dir, n)
    ensures SomeSwapped(k1, dir, n) <==> SomeSwapped(k, dir, n)
  {
    forall j
      ensures Forkable(k1, cap, dir, j) <==> Forkable(k, cap, dir, j)
    {
      assert TabOf(At(dir, j)) in k1.tabs <==> TabOf(At(dir, j)) in k.tabs;
    }
  }

  // ----- Growing eagerly -----

  /** The pages [lo, hi) of an address space are untouched. */
  ghost predicate UntouchedIn(ptes: map<At, Pte>, d: int, lo: int, hi: int)
  {
    forall at: At {:trigger Get(ptes, at)} :: at.dir == d && lo <= at.page < hi ==> !Get(ptes, at).p && !Get(ptes, at).s
  }

  /** None of them is swapped or shared. */
  ghost predicate OwnPages(ptes: map<At, Pte>, d: int, lo: int, hi: int)
  {
    forall at: At {:trigger Get(ptes, at)} :: at.dir == d && lo <= at.page < hi ==> !Get(ptes, at).s && !Get(ptes, at).c
  }

  ghost predicate SameEntries(ptes: map<At, Pte>, ptes': map<At, Pte>, d: int, lo: int, hi: int)
  {
    forall at: At {:trigger Get(ptes', at)} :: at.dir == d && lo <= at.page < hi ==> Get(ptes', at) == Get(ptes, at)
  }

  /** All of them may be stored to. */
  ghost predicate Writable(ptes: map<At, Pte>, d: int, lo: int, hi: int)
  {
    forall at: At {:trigger Get(ptes, at)} :: at.dir == d && lo <= at.page < hi ==> Permits(Get(ptes, at), true)
  }

  /** allocuvm (vm.c:247-274) on pages that are neither swapped nor shared. On untouched pages: all of
      them become present, as pages of zeroes, or none of them is. A page that is present already is a
      panic; if the frames run out before it, it is given back with the new ones. */
  method AllocUvm(k: State, cap: int, dir: int, oldsz: int, newsz: int, ghost a: Memory)
    returns (k': State, sz: int, r: Outcome)
    requires a in Refined(k, cap) && Tab(dir, -1) in k.tabs && 0 <= oldsz && 0 <= newsz
    requires OwnPages(k.ptes, dir, Pages(oldsz), Pages(newsz))
    ensures r.Panic? ==> !UntouchedIn(k.ptes, dir, Pages(oldsz), Pages(newsz)) && newsz < KERNPAGES * PGSIZE
    ensures newsz < KERNPAGES * PGSIZE && !UntouchedIn(k.ptes, dir, Pages(oldsz), Pages(newsz)) ==>
              r.Panic? || Frames(k.free) < PERPAGE * (Pages(newsz) - Pages(oldsz))
    ensures r.Ok? ==> a in Refined(k', cap) && sz == (if newsz < oldsz then oldsz else newsz)
    ensures r.Ok? ==> Writable(k'.ptes, dir, Pages(oldsz), Pages(newsz))
    ensures r.Fail? ==>
            sz == 0 && (newsz >= KERNPAGES * PGSIZE || Frames(k.free) < PERPAGE * (Pages(newsz) - Pages(oldsz)))
    ensures r.Fail? && newsz >= KERNPAGES * PGSIZE ==> k' == k
    ensures r.Fail? && newsz < KERNPAGES * PGSIZE ==> Cleared(a, dir, Pages(oldsz), Pages(newsz)) in Refined(k', cap)
    ensures r.Fail? && UntouchedIn(k.ptes, dir, Pages(oldsz), Pages(newsz)) ==> a in Refined(k', cap)
    ensures r.Fail? && newsz < KERNPAGES * PGSIZE ==> UntouchedIn(k'.ptes, dir, Pages(oldsz), Pages(newsz))
  {
    if newsz >= KERNPAGES * PGSIZE {
      return k, 0, Fail;
    }
    if newsz < oldsz {
      return k, oldsz, Ok;
    }
    ghost var lo, hi := Pages(oldsz), Pages(newsz);
    k' := k;
    var i := Pages(oldsz);
    while i * PGSIZE < newsz
      invariant lo <= i && (i == lo || i <= hi) && a in Refined(k', cap) && Tab(dir, -1) in k'.tabs
      invariant SameEntries(k.ptes, k'.ptes, dir, i, hi) && UntouchedIn(k.ptes, dir, lo, i)
      invariant Writable(k'.ptes, dir, lo, i)
      invariant Frames(k'.free) >= Frames(k.free) - PERPAGE * (i - lo)
    {
      ghost var k1 := k';
      assert Get(k'.ptes, At(dir, i)) == Get(k.ptes, At(dir, i));
      k', r := LazyAlloc(k', cap, At(dir, i), a);
      if r.Panic? {
        return k', 0, Panic;
      }
      if r.Fail? {
        k' := GiveBack(k, k', cap, dir, oldsz, newsz, a);
        return k', 0, Fail;
      }
      NextAlloc(k.ptes, k1.ptes, dir, lo, i, hi, UserEntry(k1.free.frame));
      i := i + 1;
    }
    return k', newsz, Ok;
  }

  /** The frames ran out: what allocuvm made so far goes back (vm.c:259-270). */
  method GiveBack(ghost k0: State, k: State, cap: int, dir: int, oldsz: int, newsz: int, ghost a: Memory)
    returns (k': State)
    requires a in Refined(k0, cap) && a in Refined(k, cap) && Tab(dir, -1) in k.tabs &&
             0 <= oldsz <= newsz < KERNPAGES * PGSIZE
    ensures Cleared(a, dir, Pages(oldsz), Pages(newsz)) in Refined(k', cap)
    ensures UntouchedIn(k0.ptes, dir, Pages(oldsz), Pages(newsz)) ==> a in Refined(k', cap)
    ensures UntouchedIn(k'.ptes, dir, Pages(oldsz), Pages(newsz))
  {
    var sz, r;
    k', sz, r := DeallocUvm(k, cap, dir, newsz, oldsz, a);
    AllGone(k.ptes, k'.ptes, dir, Pages(oldsz), Pages(newsz));
    if UntouchedIn(k0.ptes, dir, Pages(oldsz), Pages(newsz)) {
      RolledBack(k0, cap, a, k', dir, Pages(oldsz), Pages(newsz));
    }
  }

  lemma {:induction false} NextAlloc(ptes: map<At, Pte>, ptes1: map<At, Pte>, d: int, lo: int, i: int, hi: int, e: Pte)
    requires SameEntries(ptes, ptes1, d, i, hi) && UntouchedIn(ptes, d, lo, i) && lo <= i < hi &&
             !Get(ptes, At(d, i)).p && !Get(ptes, At(d, i)).s
    requires Writable(ptes1, d, lo, i) && Permits(e, true)
    ensures SameEntries(ptes, ptes1[At(d, i) := e], d, i + 1, hi) && UntouchedIn(ptes, d, lo, i + 1)
    ensures Writable(ptes1[At(d, i) := e], d, lo, i + 1)
  {
    var ptes2 := ptes1[At(d, i) := e];
    forall at: At | at.dir == d && i + 1 <= at.page < hi
      ensures Get(ptes2, at) == Get(ptes, at)
    {
      assert Get(ptes1, at) == Get(ptes, at);
    }
    forall at: At | at.dir == d && lo <= at.page < i + 1
      ensures !Get(ptes, at).p && !Get(ptes, at).s && Permits(Get(ptes2, at), true)
    {
      assert at.page == i ==> at == At(d, i);
      assert at.page < i ==> Permits(Get(ptes1, at), true);
    }
  }

  lemma {:induction false} AllGone(ptes: map<At, Pte>, ptes': map<At, Pte>, d: int, lo: int, hi: int)
    requires IsEmptied(ptes, ptes', d, lo, hi)
    ensures UntouchedIn(ptes', d, lo, hi)
  {
    forall at: At | at.dir == d && lo <= at.page < hi
      ensures !Get(ptes', at).p && !Get(ptes', at).s
    {
      assert Get(ptes', at) == Emptied(ptes, d, lo, hi, at);
    }
  }

  /** After a failure the pages that were made are gone, and they were pages of zeroes. */
  lemma {:induction false} RolledBack(k: State, cap: int, a: Memory, k': State, dir: int, lo: int, hi: int)
    requires a in Refined(k, cap) && UntouchedIn(k.ptes, dir, lo, hi) && Cleared(a, dir, lo, hi) in Refined(k', cap)
    ensures a in Refined(k', cap)
  {
    forall at
      ensures Look(a, at) == Look(Cleared(a, dir, lo, hi), at)
    {
      if at.dir == dir && lo <= at.page < hi {
        assert !Get(k.ptes, at).p;
        Untouched(k, a, at);
      }
    }
    LooksSame(k', cap, Cleared(a, dir, lo, hi), a);
  }

  // ----- Swapping out -----

  /** What one pass of swap makes of an entry: a page that was accessed gets a second chance, and
      a page that may be shared stays. */
  function Passed(e: Pte): Pte
  {
    if !e.p || e.c then e else if e.a then e.(a := false) else e.(p := false, s := true)
  }

  lemma {:induction false} AllUsed(used: set<int>, n: nat)
    requires forall i :: 0 <= i < n ==> i in used
    ensures |used| >= n
    decreases n
  {
    if n > 0 {
      AllUsed(used - {n - 1}, n - 1);
    }
  }

  /** One page of swap (vm.c:487-515). When a page falls on the bitmap, that is taken as a panic. */
  method SwapPage(k: State, cap: int, at: At, ghost a: Memory) returns (k': State, r: Outcome)
    requires a in Refined(k, cap)
    ensures !r.Fail? && (r.Panic? ==> |k.used| > cap) && Frames(k'.free) >= Frames(k.free)
    ensures r.Ok? ==> a in Refined(k', cap) && k'.tabs == k.tabs && |k'.used| <= |k.used| + 1
    ensures var e, e' := Get(k.ptes, at), Get(k'.ptes, at);
            && (r.Ok? && e.p && !e.c && !e.a ==> e' == e.(p := false, s := true))
            && (r.Ok? && e.p && !e.c && e.a ==> e' == e.(a := false))
            && (r.Ok? && (!e.p || e.c) ==> e' == e)
    ensures r.Ok? ==> forall x {:trigger Get(k'.ptes, x)} :: x != at ==> Get(k'.ptes, x) == Get(k.ptes, x)
  {
    var found;
    k', found := WalkPgdir(k, at, false);
    AbsentFacts(k, cap, a, at);
    if !found {
      return k, Ok;
    }
    r := Ok;
    var e := Get(k.ptes, at);
    if e.p && !e.c {
      if e.a {
        AccessedRefined(k, cap, a, at, false);
        k' := k'.(ptes := k'.ptes[at := e.(a := false)]);
      } else {
        var slot;
        k', slot := SwapWrite(k', cap, at, a);
        if slot > cap {
          r := Panic;
          AllUsed(k.used, cap + 1);
        }
      }
    }
  }

  /** The entries after the pages [0, i) of a directory were passed over. */
  ghost predicate PassedOver(ptes: map<At, Pte>, ptes': map<At, Pte>, dir: int, i: int)
  {
    forall at: At {:trigger Get(ptes', at)} ::
      Get(ptes', at) == if at.dir == dir && 0 <= at.page < i then Passed(Get(ptes, at)) else Get(ptes, at)
  }

  /** The pages of one process in swap (vm.c:483-515). */
  method SwapSpace(k: State, cap: int, p: Space, ghost a: Memory) returns (k': State, r: Outcome)
    requires a in Refined(k, cap) && p.sz >= 0
    ensures !r.Fail? && (r.Panic? ==> |k.used| + Pages(p.sz) > cap + 1) && Frames(k'.free) >= Frames(k.free)
    ensures r.Ok? ==> a in Refined(k', cap) && k'.tabs == k.tabs && |k'.used| <= |k.used| + Pages(p.sz)
    ensures r.Ok? ==> PassedOver(k.ptes, k'.ptes, p.dir, Pages(p.sz))
    ensures r.Ok? ==> forall page {:trigger At(p.dir, page)} :: 0 <= page && page * PGSIZE < p.sz ==>
              var e, e' := Get(k.ptes, At(p.dir, page)), Get(k'.ptes, At(p.dir, page));
              && (e.p && !e.c && !e.a ==> e' == e.(p := false, s := true))
              && (e.p && !e.c && e.a ==> e' == e.(a := false))
              && (!e.p || e.c ==> e' == e)
    ensures r.Ok? ==> forall at: At {:trigger Get(k'.ptes, at)} ::
              at.dir != p.dir || at.page < 0 || p.sz <= at.page * PGSIZE ==> Get(k'.ptes, at) == Get(k.ptes, at)
  {
    k', r := k, Ok;
    var i := 0;
    while i < Pages(p.sz)
      invariant 0 <= i <= Pages(p.sz) && r.Ok? && a in Refined(k', cap) && k'.tabs == k.tabs &&
                |k'.used| <= |k.used| + i && Frames(k'.free) >= Frames(k.free)
      invariant PassedOver(k.ptes, k'.ptes, p.dir, i)
    {
      ghost var k1 := k';
      k', r := SwapPage(k', cap, At(p.dir, i), a);
      if r.Panic? {
        return;
      }
      PassedNext(k.ptes, k1.ptes, k'.ptes, p.dir, i);
      i := i + 1;
    }
  }

  lemma {:induction false} PassedNext(ptes: map<At, Pte>, ptes1: map<At, Pte>, ptes2: map<At, Pte>, dir: int, i: int)
    requires PassedOver(ptes, ptes1, dir, i) && i >= 0 && Get(ptes2, At(dir, i)) == Passed(Get(ptes1, At(dir, i)))
    requires forall x {:trigger Get(ptes2, x)} :: x != At(dir, i) ==> Get(ptes2, x) == Get(ptes1, x)
    ensures PassedOver(ptes, ptes2, dir, i + 1)
  {
    forall at: At
      ensures Get(ptes2, at) == if at.dir == dir && 0 <= at.page < i + 1 then Passed(Get(ptes, at)) else Get(ptes, at)
    {
      assert Get(ptes1, at) == if at.dir == dir && 0 <= at.page < i then Passed(Get(ptes, at)) else Get(ptes, at);
      assert at.dir == dir && at.page == i ==> at == At(dir, i);
    }
  }

  /** Whether a page belongs to one of the address spaces. */
  ghost predicate Within(table: seq<Space>, at: At)
  {
    exists n :: 0 <= n < |table| && table[n].dir == at.dir && 0 <= at.page < Pages(table[n].sz)
  }

  function AllPages(table: seq<Space>): nat
  {
    if table == [] then 0
    else AllPages(table[..|table| - 1]) + (if table[|table| - 1].sz > 0 then Pages(table[|table| - 1].sz) else 0)
  }

  ghost predicate PassedAll(ptes: map<At, Pte>, ptes': map<At, Pte>, table: seq<Space>)
  {
    forall at: At {:trigger Get(ptes', at)} :: Get(ptes', at) == if Within(table, at)
      then Passed(Get(ptes, at)) else Get(ptes, at)
  }

  /** swap (vm.c:468-532) over the processes in the table: every page below their sizes is passed
      over once, and no process notices. It stops only when the slots may run out. */
  method SwapAll(k: State, cap: int, table: seq<Space>, ghost a: Memory) returns (k': State, r: Outcome)
    requires a in Refined(k, cap) && forall i, j :: 0 <= i < j < |table| ==> table[i].dir != table[j].dir
    requires forall i :: 0 <= i < |table| ==> table[i].sz >= 0
    ensures !r.Fail? && (r.Panic? ==> |k.used| + AllPages(table) > cap + 1) && Frames(k'.free) >= Frames(k.free)
    ensures r.Ok? ==> a in Refined(k', cap) && k'.tabs == k.tabs && PassedAll(k.ptes, k'.ptes, table)
    ensures r.Ok? ==> forall n, page {:trigger At(table[n].dir, page)} ::
              0 <= n < |table| && 0 <= page && page * PGSIZE < table[n].sz ==>
              var e, e' := Get(k.ptes, At(table[n].dir, page)), Get(k'.ptes, At(table[n].dir, page));
              && (e.p && !e.c && !e.a ==> e' == e.(p := false, s := true))
              && (e.p && !e.c && e.a ==> e' == e.(a := false))
              && (!e.p || e.c ==> e' == e)
    ensures r.Ok? ==> forall at: At {:trigger Get(k'.ptes, at)} ::
              (forall n :: 0 <= n < |table| && table[n].dir == at.dir ==>
                             at.page < 0 || table[n].sz <= at.page * PGSIZE) ==> Get(k'.ptes, at) == Get(k.ptes, at)
  {
    k', r := k, Ok;
    var n := 0;
    while n < |table|
      invariant 0 <= n <= |table| && r.Ok? && a in Refined(k', cap) && k'.tabs == k.tabs &&
                Frames(k'.free) >= Frames(k.free)
      invariant |k'.used| <= |k.used| + AllPages(table[..n]) && PassedAll(k.ptes, k'.ptes, table[..n])
    {
      ghost var k1 := k';
      k', r := SwapSpace(k', cap, table[n], a);
      AllPagesNext(table, n);
      if r.Panic? {
        return;
      }
      PassedSpace(k.ptes, k1.ptes, k'.ptes, table, n);
      n := n + 1;
    }
    assert table[..n] == table;
    forall i, page | 0 <= i < |table| && 0 <= page && page * PGSIZE < table[i].sz
      ensures Get(k'.ptes, At(table[i].dir, page)) == Passed(Get(k.ptes, At(table[i].dir, page)))
    {
      assert Within(table, At(table[i].dir, page));
    }
  }

  lemma {:induction false} AllPagesNext(table: seq<Space>, n: int)
    requires 0 <= n < |table| && table[n].sz >= 0
    ensures AllPages(table[..n + 1]) == AllPages(table[..n]) + Pages(table[n].sz) &&
            AllPages(table[..n + 1]) <= AllPages(table)
    decreases |table| - n
  {
    assert table[..n + 1][..n] == table[..n];
    if n + 1 == |table| {
      assert table[..n + 1] == table;
    } else {
      AllPagesGrows(table, n + 1);
    }
  }

  lemma {:induction false} AllPagesGrows(table: seq<Space>, n: int)
    requires 0 <= n <= |table|
    ensures AllPages(table[..n]) <= AllPages(table)
    decreases |table| - n
  {
    if n == |table| {
      assert table[..n] == table;
    } else {
      assert table[..n + 1][..n] == table[..n];
      AllPagesGrows(table, n + 1);
    }
  }

  lemma {:induction false} PassedSpace(ptes: map<At, Pte>, ptes1: map<At, Pte>, ptes2: map<At, Pte>,
                                       table: seq<Space>, n: int)
    requires 0 <= n < |table| && forall i, j :: 0 <= i < j < |table| ==> table[i].dir != table[j].dir
    requires PassedAll(ptes, ptes1, table[..n]) && PassedOver(ptes1, ptes2, table[n].dir, Pages(table[n].sz))
    ensures PassedAll(ptes, ptes2, table[..n + 1])
  {
    forall at: At
      ensures Get(ptes2, at) == if Within(table[..n + 1], at) then Passed(Get(ptes, at)) else Get(ptes, at)
    {
      assert Get(ptes1, at) == if Within(table[..n], at) then Passed(Get(ptes, at)) else Get(ptes, at);
      if at.dir == table[n].dir && 0 <= at.page < Pages(table[n].sz) {
        assert table[..n + 1][n] == table[n];
        assert Within(table[..n + 1], at) && !Within(table[..n], at);
      } else {
        if Within(table[..n], at) {
          var m :| 0 <= m < |table[..n]| && table[..n][m].dir == at.dir && 0 <= at.page < Pages(table[..n][m].sz);
          assert table[..n + 1][m] == table[..n][m];
        }
        if Within(table[..n + 1], at) {
          var m :| 0 <= m < |table[..n + 1]| && table[..n + 1][m].dir == at.dir &&
            0 <= at.page < Pages(table[..n + 1][m].sz);
          assert table[..n][m] == table[..n + 1][m];
        }
      }
    }
  }
}
