/** The memory of the machine as the kernel sees it: page tables, physical frames with their
    reference counts and the free list, and the pages that were moved to the swap file.

    The operations here are the smallest changes that vm.c, kalloc.c and fs.c make together.
    Each is shown to keep the bookkeeping sound and to change the contents of at most the
    page it is about. */
module VmState {
  import opened Common
  import SwapFile

  const NPTENTRIES: int := 1024

  type Byte = bv8

  datatype Bytes = Page(bytes: seq<Byte>)

  type Page = p: Bytes | |p.bytes| == PGSIZE witness Page(seq(PGSIZE, (i: int) => 0 as Byte))

  /** A page filled with one byte, as memset leaves it. */
  function Fill(v: Byte): Page
  {
    Page(seq(PGSIZE, (i: int) => v))
  }

  const ZERO: Page := Fill(0)

  /** What kfree fills a page with (kalloc.c:92). */
  const JUNK: Page := Fill(1)

  /** A page of an address space; an address space is named by the frame of its directory. */
  datatype At = At(dir: int, page: int)

  /** A page table entry. `frame` is PTE_ADDR / PGSIZE and stays behind in a swapped entry. */
  datatype Pte = Pte(frame: int, p: bool, w: bool, u: bool, a: bool, s: bool, c: bool)

  const NOPTE: Pte := Pte(0, false, false, false, false, false, false)

  /** A page table: the part of a directory that maps pages index * 1024 and up. Index -1
      names the directory page itself. */
  datatype Tab = Tab(dir: int, index: int)

  /** kmem.freelist, threaded through the free frames. */
  datatype FreeList = Nil | Run(frame: int, next: FreeList)

  /** What the swap map knows of a swapped page: its old frame and its slot. */
  datatype Entry = Entry(pa: int, slot: int)

  /** A node of the swap map: `pa` is the number of the old frame, `la` that of the page, `ptes` the
      entries of the node. */
  datatype SwapNode = SwapNode(pa: int, la: int, slot: int, ptes: seq<At>)

  type Bins = map<int, seq<SwapNode>>

  /** The swap map and the swap file as they are; `end` is the physical address of the end of the
      kernel. */
  datatype Device = Device(end: int, bins: Bins, file: SwapFile.Swap)

  /** `swapped`, `used` and `slots` are what the swap map, the bitmap and the slots of `dev` stand for. */
  datatype State = State(
    ptes: map<At, Pte>, tabs: map<Tab, int>,
    free: FreeList, ref: map<int, int>, mem: map<int, Page>,
    swapped: map<At, Entry>, used: set<int>, slots: map<int, Page>, dev: Device)

  function Get(ptes: map<At, Pte>, at: At): Pte
  {
    if at in ptes then ptes[at] else NOPTE
  }

  /** The page table that holds the entry of a page. */
  function TabOf(at: At): Tab
  {
    Tab(at.dir, if at.page < 0 then -2 else at.page / NPTENTRIES)
  }

  /** What a process finds in a page, were it to look: the frame, the slot, or a page of
      zeroes. `None` when the slot lies beyond what the swap file can hold. */
  function Content(k: State, at: At): Option<Page>
  {
    var e := Get(k.ptes, at);
    if e.p then (if e.frame in k.mem then Some(k.mem[e.frame]) else None)
    else if e.s then
      (if at in k.swapped && k.swapped[at].slot in k.slots then Some(k.slots[k.swapped[at].slot]) else None)
    else Some(ZERO)
  }

  // ----- Soundness of the bookkeeping -----

  ghost function Elems(l: FreeList): set<int>
  {
    match l
    case Nil => {}
    case Run(f, next) => {f} + Elems(next)
  }

  ghost predicate NoDup(l: FreeList)
  {
    match l
    case Nil => true
    case Run(f, next) => f !in Elems(next) && NoDup(next)
  }

  /** The page table entries that name a frame. */
  ghost function Owners(ptes: map<At, Pte>, f: int): set<At>
  {
    set at | at in ptes && ptes[at].p && ptes[at].frame == f
  }

  /** The count of a frame is the number of entries that name it, or 1 when the kernel itself
      holds it. */
  ghost predicate Counted(ptes: map<At, Pte>, ref: map<int, int>, f: int)
    requires f in ref
  {
    ref[f] == |Owners(ptes, f)| || (ref[f] == 1 && Owners(ptes, f) == {})
  }

  ghost predicate ListOk(free: FreeList, ref: map<int, int>)
  {
    NoDup(free) && forall f {:trigger f in Elems(free)} :: f in Elems(free) <==> f in ref && ref[f] == 0
  }

  ghost predicate EntryOk(tabs: map<Tab, int>, ref: map<int, int>, swapped: map<At, Entry>, at: At, e: Pte)
  {
    && (e.p || e.s ==> TabOf(at) in tabs && e.frame in ref && (e.c <==> !e.w))
    && (e.p ==> !e.s && (!e.c ==> ref[e.frame] == 1))
    && (!e.p && !e.s ==> !e.c)
    && (e.s ==> !e.c && at in swapped && swapped[at].pa == e.frame)
  }

  /** A swapped page has a set bit, and its slot is kept if the swap file can hold it. */
  ghost predicate SlotOk(ptes: map<At, Pte>, swapped: map<At, Entry>, used: set<int>, slots: map<int, Page>,
                         cap: int, at: At)
    requires at in swapped
  {
    Get(ptes, at).s && swapped[at].slot in used && (swapped[at].slot in slots <==> swapped[at].slot < cap)
  }

  ghost predicate SameSlot(swapped: map<At, Entry>, x: At, y: At)
  {
    x in swapped && y in swapped && swapped[x].slot == swapped[y].slot
  }

  ghost predicate Owned(swapped: map<At, Entry>, s: int)
  {
    exists at :: at in swapped && swapped[at].slot == s
  }

  /** Swapped pages and set bits correspond one to one. */
  ghost predicate SwapOk(ptes: map<At, Pte>, swapped: map<At, Entry>, used: set<int>, slots: map<int, Page>, cap: int)
  {
    && (forall at {:trigger SlotOk(ptes, swapped, used, slots, cap, at)} :: at in swapped ==>
       SlotOk(ptes, swapped, used, slots, cap, at))
    && (forall x, y {:trigger SameSlot(swapped, x, y)} :: SameSlot(swapped, x, y) ==> x == y)
    && (forall s {:trigger Owned(swapped, s)} :: s in used ==> Owned(swapped, s))
  }

  ghost predicate TabOk(ptes: map<At, Pte>, tabs: map<Tab, int>, ref: map<int, int>, t: Tab)
    requires t in tabs
  {
    tabs[t] in ref && ref[tabs[t]] == 1 && Owners(ptes, tabs[t]) == {}
  }

  ghost predicate SameFrame(tabs: map<Tab, int>, t: Tab, t': Tab)
  {
    t in tabs && t' in tabs && tabs[t] == tabs[t']
  }

  /** Page tables lie in frames of their own, held by the kernel. */
  ghost predicate TabsOk(ptes: map<At, Pte>, tabs: map<Tab, int>, ref: map<int, int>)
  {
    && (forall t {:trigger TabOk(ptes, tabs, ref, t)} :: t in tabs ==> TabOk(ptes, tabs, ref, t))
    && (forall t, t' {:trigger SameFrame(tabs, t, t')} :: SameFrame(tabs, t, t') ==> t == t')
  }

  ghost predicate CountsOk(ptes: map<At, Pte>, ref: map<int, int>)
  {
    forall f {:trigger Counted(ptes, ref, f)} :: f in ref ==> Counted(ptes, ref, f)
  }

  ghost predicate EntriesOk(ptes: map<At, Pte>, tabs: map<Tab, int>, ref: map<int, int>, swapped: map<At, Entry>)
  {
    forall at {:trigger EntryOk(tabs, ref, swapped, at, ptes[at])} :: at in ptes ==>
      EntryOk(tabs, ref, swapped, at, ptes[at])
  }

  ghost predicate Inv(k: State, cap: int)
  {
    && k.mem.Keys == k.ref.Keys
    && ListOk(k.free, k.ref)
    && CountsOk(k.ptes, k.ref)
    && EntriesOk(k.ptes, k.tabs, k.ref, k.swapped)
    && SwapOk(k.ptes, k.swapped, k.used, k.slots, cap)
    && TabsOk(k.ptes, k.tabs, k.ref)
  }

  /** The sound states. A set and not a predicate: where a predicate is checked the verifier takes it
      apart into its conjuncts, while most proofs only pass membership on. */
  ghost function Sound(cap: int): iset<State>
  {
    iset k: State | Inv(k, cap)
  }

  // ----- What a change of one entry or one count does to each part -----

  lemma {:induction false} OwnersSet(ptes: map<At, Pte>, at: At, e: Pte, f: int)
    ensures Owners(ptes[at := e], f) ==
            if e.p && e.frame == f then Owners(ptes, f) + {at} else Owners(ptes, f) - {at}
  {
  }

  ghost predicate Names(e: Pte, f: int)
  {
    e.p && e.frame == f
  }

  /** A change of one entry and of the count of one frame leaves the other frames counted. */
  lemma {:induction false} CountsUpdate(ptes: map<At, Pte>, ref: map<int, int>, at: At, e: Pte, f: int, n: int)
    requires CountsOk(ptes, ref)
    requires forall x :: x != f ==> (Names(Get(ptes, at), x) <==> Names(e, x))
    requires f in ref && Counted(ptes[at := e], ref[f := n], f)
    ensures CountsOk(ptes[at := e], ref[f := n])
  {
    forall x | x in ref && x != f
      ensures Counted(ptes[at := e], ref[f := n], x)
    {
      assert Counted(ptes, ref, x);
      OwnersSet(ptes, at, e, x);
      assert Names(Get(ptes, at), x) <==> Names(e, x);
      assert Owners(ptes[at := e], x) == Owners(ptes, x);
    }
  }

  /** The same when only the count changes. */
  lemma {:induction false} CountsRef(ptes: map<At, Pte>, ref: map<int, int>, f: int, n: int)
    requires CountsOk(ptes, ref) && f in ref && Counted(ptes, ref[f := n], f)
    ensures CountsOk(ptes, ref[f := n])
  {
    forall x | x in ref && x != f
      ensures Counted(ptes, ref[f := n], x)
    {
      assert Counted(ptes, ref, x);
    }
  }

  /** No entry but `at` names frame `f` without the copy-on-write mark. */
  ghost predicate AloneAt(ptes: map<At, Pte>, f: int, at: At)
  {
    forall x :: x in ptes && x != at && Names(ptes[x], f) ==> ptes[x].c
  }

  lemma {:induction false} EntriesUpdate(ptes: map<At, Pte>, tabs: map<Tab, int>, ref: map<int, int>,
                                         swapped: map<At, Entry>,
                                         at: At, e: Pte, f: int, n: int, swapped': map<At, Entry>)
    requires EntriesOk(ptes, tabs, ref, swapped)
    requires swapped' - {at} == swapped - {at}
    requires f in ref && (n == 1 || AloneAt(ptes, f, at))
    requires EntryOk(tabs, ref[f := n], swapped', at, e)
    ensures EntriesOk(ptes[at := e], tabs, ref[f := n], swapped')
  {
    forall x | x in ptes && x != at
      ensures EntryOk(tabs, ref[f := n], swapped', x, ptes[x])
    {
      assert EntryOk(tabs, ref, swapped, x, ptes[x]);
      assert x in swapped ==> x in swapped - {at} && (swapped' - {at})[x] == swapped[x];
    }
  }

  lemma {:induction false} EntriesRef(ptes: map<At, Pte>, tabs: map<Tab, int>, ref: map<int, int>, swapped: map<At,
                                      Entry>, f: int, n: int)
    requires EntriesOk(ptes, tabs, ref, swapped) && f in ref && Owners(ptes, f) == {}
    ensures EntriesOk(ptes, tabs, ref[f := n], swapped)
  {
    forall x | x in ptes
      ensures EntryOk(tabs, ref[f := n], swapped, x, ptes[x])
    {
      assert EntryOk(tabs, ref, swapped, x, ptes[x]);
      assert ptes[x].p ==> x in Owners(ptes, ptes[x].frame);
    }
  }

  lemma {:induction false} SwapKept(ptes: map<At, Pte>, swapped: map<At, Entry>, used: set<int>, slots: map<int,
                                    Page>, cap: int, at: At, e: Pte)
    requires SwapOk(ptes, swapped, used, slots, cap) && Get(ptes, at).s == e.s
    ensures SwapOk(ptes[at := e], swapped, used, slots, cap)
  {
    forall x | x in swapped
      ensures SlotOk(ptes[at := e], swapped, used, slots, cap, x)
    {
      assert SlotOk(ptes, swapped, used, slots, cap, x);
    }
  }

  lemma {:induction false} TabsKept(ptes: map<At, Pte>, tabs: map<Tab, int>, ref: map<int, int>, at: At, e: Pte,
                                    f: int, n: int)
    requires TabsOk(ptes, tabs, ref) && (forall t :: t in tabs ==> tabs[t] != f)
    requires e.p ==> e.frame == f || Names(Get(ptes, at), e.frame)
    ensures TabsOk(ptes[at := e], tabs, ref[f := n])
  {
    forall t | t in tabs
      ensures TabOk(ptes[at := e], tabs, ref[f := n], t)
    {
      assert TabOk(ptes, tabs, ref, t);
      OwnersSet(ptes, at, e, tabs[t]);
      assert Names(Get(ptes, at), tabs[t]) ==> at in Owners(ptes, tabs[t]);
    }
  }

  lemma {:induction false} TabsRef(ptes: map<At, Pte>, tabs: map<Tab, int>, ref: map<int, int>, f: int, n: int)
    requires TabsOk(ptes, tabs, ref) && (f in ref ==> ref[f] != 1 || forall t :: t in tabs ==> tabs[t] != f)
    ensures TabsOk(ptes, tabs, ref[f := n]) && forall t :: t in tabs ==> tabs[t] != f
  {
    forall t | t in tabs
      ensures TabOk(ptes, tabs, ref[f := n], t) && tabs[t] != f
    {
      assert TabOk(ptes, tabs, ref, t);
    }
  }

  /** The frame is held by the kernel: taken from the free list, in no page table entry. */
  ghost predicate KernelHeld(k: State, f: int)
  {
    f in k.ref && k.ref[f] == 1 && Owners(k.ptes, f) == {} && forall t :: t in k.tabs ==> k.tabs[t] != f
  }

  // ----- The changes, one at a time -----

  /** kalloc (kalloc.c:120-141) when a frame is left. */
  function Taken(k: State): State
    requires k.free.Run?
  {
    k.(free := k.free.next, ref := k.ref[k.free.frame := 1])
  }

  lemma {:induction false} TakenSound(k: State, cap: int)
    requires k in Sound(cap) && k.free.Run?
    ensures Taken(k) in Sound(cap) && KernelHeld(Taken(k), k.free.frame)
  {
    var f := k.free.frame;
    assert f in Elems(k.free);
    assert Counted(k.ptes, k.ref, f);
    CountsRef(k.ptes, k.ref, f, 1);
    EntriesRef(k.ptes, k.tabs, k.ref, k.swapped, f, 1);
    assert ListOk(k.free.next, k.ref[f := 1]);
    TabsRef(k.ptes, k.tabs, k.ref, f, 1);
    assert k.mem.Keys == k.ref[f := 1].Keys;
  }

  /** A frame the kernel holds is filled. */
  function Filled(k: State, f: int, page: Page): State
  {
    k.(mem := k.mem[f := page])
  }

  lemma {:induction false} FilledSound(k: State, cap: int, f: int, page: Page)
    requires k in Sound(cap) && KernelHeld(k, f)
    ensures Filled(k, f, page) in Sound(cap) && KernelHeld(Filled(k, f, page), f)
  {
    assert k.mem[f := page].Keys == k.ref.Keys;
  }

  /** kfree (kalloc.c:75-114). */
  function Freed(k: State, f: int): State
    requires f in k.ref
  {
    if k.ref[f] == 1 then k.(mem := k.mem[f := JUNK], ref := k.ref[f := 0], free := Run(f, k.free))
    else if k.ref[f] == 0 then k.(free := Run(f, k.free))
    else k.(ref := k.ref[f := k.ref[f] - 1])
  }

  lemma {:induction false} FreedSound(k: State, cap: int, f: int)
    requires k in Sound(cap) && KernelHeld(k, f)
    ensures Freed(k, f) in Sound(cap)
  {
    assert k.mem[f := JUNK].Keys == k.ref[f := 0].Keys;
    CountsRef(k.ptes, k.ref, f, 0);
    EntriesRef(k.ptes, k.tabs, k.ref, k.swapped, f, 0);
    assert ListOk(Run(f, k.free), k.ref[f := 0]);
    TabsRef(k.ptes, k.tabs, k.ref, f, 0);
  }

  /** mappage (vm.c:78-88) of a frame the kernel holds. */
  function Mapped(k: State, at: At, e: Pte): State
  {
    k.(ptes := k.ptes[at := e])
  }

  lemma {:induction false} MappedSound(k: State, cap: int, at: At, e: Pte)
    requires k in Sound(cap) && KernelHeld(k, e.frame) && e.p && !e.s && !e.c && e.w && TabOf(at) in k.tabs
    requires !Get(k.ptes, at).p && !Get(k.ptes, at).s
    ensures Mapped(k, at, e) in Sound(cap)
  {
    var f := e.frame;
    OwnersSet(k.ptes, at, e, f);
    assert k.ref[f := 1] == k.ref;
    assert Counted(k.ptes[at := e], k.ref, f);
    CountsUpdate(k.ptes, k.ref, at, e, f, 1);
    EntriesUpdate(k.ptes, k.tabs, k.ref, k.swapped, at, e, f, 1, k.swapped);
    SwapKept(k.ptes, k.swapped, k.used, k.slots, cap, at, e);
    TabsKept(k.ptes, k.tabs, k.ref, at, e, f, 1);
  }

  /** deallocuvm (vm.c:293-299) of a present page: kfree and an empty entry. */
  function Unmapped(k: State, at: At): State
    requires at in k.ptes && k.ptes[at].frame in k.ref
  {
    var k1 := Freed(k, k.ptes[at].frame);
    k1.(ptes := k1.ptes[at := NOPTE])
  }

  lemma {:induction false} UnmappedSound(k: State, cap: int, at: At)
    requires k in Sound(cap) && Get(k.ptes, at).p
    ensures k.ptes[at].frame in k.ref && Unmapped(k, at) in Sound(cap)
  {
    var e, f := k.ptes[at], k.ptes[at].frame;
    assert EntryOk(k.tabs, k.ref, k.swapped, at, e);
    var n := k.ref[f] - 1;
    assert Counted(k.ptes, k.ref, f) && at in Owners(k.ptes, f);
    OwnersSet(k.ptes, at, NOPTE, f);
    assert |Owners(k.ptes, f) - {at}| == n;
    assert Counted(k.ptes[at := NOPTE], k.ref[f := n], f);
    CountsUpdate(k.ptes, k.ref, at, NOPTE, f, n);
    OnlyOwner(k, cap, at);
    EntriesUpdate(k.ptes, k.tabs, k.ref, k.swapped, at, NOPTE, f, n, k.swapped);
    SwapKept(k.ptes, k.swapped, k.used, k.slots, cap, at, NOPTE);
    NotATable(k, cap, at);
    TabsKept(k.ptes, k.tabs, k.ref, at, NOPTE, f, n);
    LessKeys(k, f, n);
  }

  lemma {:induction false} LessKeys(k: State, f: int, n: int)
    requires k.mem.Keys == k.ref.Keys && f in k.ref && k.ref[f] > 0 && n == k.ref[f] - 1 && ListOk(k.free, k.ref)
    ensures Freed(k, f).mem.Keys == Freed(k, f).ref.Keys && Freed(k, f).ref == k.ref[f := n]
    ensures ListOk(Freed(k, f).free, k.ref[f := n])
  {
    assert k.mem[f := JUNK].Keys == k.ref.Keys && k.ref[f := n].Keys == k.ref.Keys;
    assert f !in Elems(k.free);
  }

  /** If `at` is not shared, no other entry names its frame; else every other one carries the
      copy-on-write mark. */
  lemma {:induction false} OnlyOwner(k: State, cap: int, at: At)
    requires k in Sound(cap) && Get(k.ptes, at).p
    ensures AloneAt(k.ptes, k.ptes[at].frame, at)
    ensures k.ptes[at].frame in k.ref && (k.ref[k.ptes[at].frame] == 1 ==> Owners(k.ptes, k.ptes[at].frame) == {at})
  {
    var f := k.ptes[at].frame;
    assert EntryOk(k.tabs, k.ref, k.swapped, at, k.ptes[at]);
    assert Counted(k.ptes, k.ref, f) && at in Owners(k.ptes, f);
    if k.ref[f] == 1 {
      Singleton(Owners(k.ptes, f), at);
    }
    forall x | x in k.ptes && x != at && Names(k.ptes[x], f)
      ensures k.ptes[x].c
    {
      assert EntryOk(k.tabs, k.ref, k.swapped, x, k.ptes[x]);
      assert x in Owners(k.ptes, f);
    }
  }

  lemma {:induction false} Singleton<T>(s: set<T>, x: T)
    requires |s| == 1 && x in s
    ensures s == {x}
  {
    assert |s - {x}| == 0;
    assert s - {x} == {};
    assert s == (s - {x}) + {x};
  }

  lemma {:induction false} NotATable(k: State, cap: int, at: At)
    requires k in Sound(cap) && Get(k.ptes, at).p
    ensures forall t :: t in k.tabs ==> k.tabs[t] != k.ptes[at].frame
  {
    assert at in Owners(k.ptes, k.ptes[at].frame);
    forall t | t in k.tabs
      ensures k.tabs[t] != k.ptes[at].frame
    {
      assert TabOk(k.ptes, k.tabs, k.ref, t);
    }
  }

  /** One page of copyuvm (vm.c:373-382): parent and child name the frame, both marked. */
  function Shared(k: State, at: At, child: At): State
    requires at in k.ptes && k.ptes[at].frame in k.ref
  {
    var e := k.ptes[at].(w := false, c := true);
    k.(ptes := k.ptes[at := e][child := e], ref := k.ref[e.frame := k.ref[e.frame] + 1])
  }

  lemma {:induction false} SharedSound(k: State, cap: int, at: At, child: At)
    requires k in Sound(cap) && Get(k.ptes, at).p && TabOf(child) in k.tabs
    requires !Get(k.ptes, child).p && !Get(k.ptes, child).s
    ensures k.ptes[at].frame in k.ref && Shared(k, at, child) in Sound(cap)
  {
    var f := k.ptes[at].frame;
    var e := k.ptes[at].(w := false, c := true);
    assert EntryOk(k.tabs, k.ref, k.swapped, at, k.ptes[at]);
    MarkedSound(k, cap, at);
    var k1 := Marked(k, at);
    OnlyOwner(k1, cap, at);
    var n := k.ref[f] + 1;
    assert Counted(k1.ptes, k1.ref, f) && at in Owners(k1.ptes, f);
    OwnersSet(k1.ptes, child, e, f);
    assert Counted(k1.ptes[child := e], k1.ref[f := n], f);
    CountsUpdate(k1.ptes, k1.ref, child, e, f, n);
    assert AloneAt(k1.ptes, f, child);
    EntriesUpdate(k1.ptes, k1.tabs, k1.ref, k1.swapped, child, e, f, n, k1.swapped);
    SwapKept(k1.ptes, k1.swapped, k1.used, k1.slots, cap, child, e);
    NotATable(k1, cap, at);
    TabsKept(k1.ptes, k1.tabs, k1.ref, child, e, f, n);
    assert k.mem.Keys == k.ref[f := n].Keys;
    assert ListOk(k.free, k.ref[f := n]);
  }

  /** The parent's half of sharing (vm.c:373). */
  function Marked(k: State, at: At): State
    requires at in k.ptes
  {
    k.(ptes := k.ptes[at := k.ptes[at].(w := false, c := true)])
  }

  /** An entry that goes on naming its frame changes its marks. */
  lemma {:induction false} RemarkSound(k: State, cap: int, at: At, e: Pte)
    requires k in Sound(cap) && Get(k.ptes, at).p && e.p && !e.s && e.frame == k.ptes[at].frame
    requires EntryOk(k.tabs, k.ref, k.swapped, at, e)
    ensures k.(ptes := k.ptes[at := e]) in Sound(cap)
  {
    var f := e.frame;
    assert k.ref[f := k.ref[f]] == k.ref;
    assert Counted(k.ptes, k.ref, f) && at in Owners(k.ptes, f);
    OwnersSet(k.ptes, at, e, f);
    assert Owners(k.ptes[at := e], f) == Owners(k.ptes, f);
    CountsUpdate(k.ptes, k.ref, at, e, f, k.ref[f]);
    OnlyOwner(k, cap, at);
    EntriesUpdate(k.ptes, k.tabs, k.ref, k.swapped, at, e, f, k.ref[f], k.swapped);
    assert EntryOk(k.tabs, k.ref, k.swapped, at, k.ptes[at]);
    SwapKept(k.ptes, k.swapped, k.used, k.slots, cap, at, e);
    NotATable(k, cap, at);
    TabsKept(k.ptes, k.tabs, k.ref, at, e, f, k.ref[f]);
  }

  /** Whether a user may touch the page is nothing the bookkeeping looks at. */
  lemma {:induction false} UserFlagSound(k: State, cap: int, at: At, u: bool)
    requires k in Sound(cap) && at in k.ptes
    ensures k.(ptes := k.ptes[at := k.ptes[at].(u := u)]) in Sound(cap)
  {
    var e := k.ptes[at].(u := u);
    var ptes := k.ptes[at := e];
    forall f
      ensures Owners(ptes, f) == Owners(k.ptes, f)
    {
      OwnersSet(k.ptes, at, e, f);
    }
    assert CountsOk(ptes, k.ref) by {
      forall f | f in k.ref
        ensures Counted(ptes, k.ref, f)
      {
        assert Counted(k.ptes, k.ref, f);
      }
    }
    assert EntriesOk(ptes, k.tabs, k.ref, k.swapped) by {
      forall x | x in ptes
        ensures EntryOk(k.tabs, k.ref, k.swapped, x, ptes[x])
      {
        assert EntryOk(k.tabs, k.ref, k.swapped, x, k.ptes[x]);
      }
    }
    SwapKept(k.ptes, k.swapped, k.used, k.slots, cap, at, e);
    assert TabsOk(ptes, k.tabs, k.ref) by {
      forall t | t in k.tabs
        ensures TabOk(ptes, k.tabs, k.ref, t)
      {
        assert TabOk(k.ptes, k.tabs, k.ref, t);
      }
    }
  }

  lemma {:induction false} MarkedSound(k: State, cap: int, at: At)
    requires k in Sound(cap) && Get(k.ptes, at).p
    ensures Marked(k, at) in Sound(cap)
  {
    assert EntryOk(k.tabs, k.ref, k.swapped, at, k.ptes[at]);
    RemarkSound(k, cap, at, k.ptes[at].(w := false, c := true));
  }

  /** copy_on_write (vm.c:590-603) of a frame with one owner. */
  function Claimed(k: State, at: At): State
    requires at in k.ptes
  {
    k.(ptes := k.ptes[at := k.ptes[at].(w := true, c := false)])
  }

  /** The hardware sets the accessed bit; swap clears it (vm.c:496-497). */
  function Accessed(k: State, at: At, a: bool): State
    requires at in k.ptes
  {
    k.(ptes := k.ptes[at := k.ptes[at].(a := a)])
  }

  /** copy_on_write (vm.c:604-618) of a shared frame: the entry moves to a frame of its own. */
  function Replaced(k: State, at: At, e: Pte): State
    requires at in k.ptes && k.ptes[at].frame in k.ref
  {
    var g := k.ptes[at].frame;
    k.(ptes := k.ptes[at := e], ref := k.ref[g := k.ref[g] - 1])
  }

  lemma {:induction false} ReplacedIs(k: State, cap: int, at: At, e: Pte)
    requires k in Sound(cap) && Get(k.ptes, at).p && k.ptes[at].frame in k.ref && k.ref[k.ptes[at].frame] > 1
    ensures Replaced(k, at, e) == Mapped(Unmapped(k, at), at, e)
    ensures forall f :: f != k.ptes[at].frame && KernelHeld(k, f) ==> KernelHeld(Unmapped(k, at), f)
  {
    assert k.ptes[at := NOPTE][at := e] == k.ptes[at := e];
    forall f | f != k.ptes[at].frame && KernelHeld(k, f)
      ensures KernelHeld(Unmapped(k, at), f)
    {
      OwnersSet(k.ptes, at, NOPTE, f);
    }
  }

  lemma {:induction false} ReplacedSound(k: State, cap: int, at: At, e: Pte)
    requires k in Sound(cap) && Get(k.ptes, at).p && k.ptes[at].frame in k.ref && k.ref[k.ptes[at].frame] > 1
    requires KernelHeld(k, e.frame) && e.p && !e.s && !e.c && e.w
    ensures Replaced(k, at, e) in Sound(cap)
  {
    assert EntryOk(k.tabs, k.ref, k.swapped, at, k.ptes[at]);
    UnmappedSound(k, cap, at);
    ReplacedIs(k, cap, at, e);
    assert KernelHeld(Unmapped(k, at), e.frame);
    MappedSound(Unmapped(k, at), cap, at, e);
  }

  /** The bookkeeping half of swapwrite_file: node, bitmap bit, slot and entry. */
  function Parked(k: State, cap: int, at: At, e: Pte, slot: int, page: Page): State
  {
    k.(ptes := k.ptes[at := e], swapped := k.swapped[at := Entry(e.frame, slot)], used := k.used + {slot},
       slots := if slot < cap then k.slots[slot := page] else k.slots - {slot})
  }

  lemma {:induction false} ParkedSwap(ptes: map<At, Pte>, swapped: map<At, Entry>, used: set<int>, slots: map<int,
                                      Page>, cap: int,
                                      at: At, e: Pte, slot: int, page: Page)
    requires SwapOk(ptes, swapped, used, slots, cap) && !Get(ptes, at).s && e.s && slot !in used
    ensures SwapOk(ptes[at := e], swapped[at := Entry(e.frame, slot)], used + {slot},
                   if slot < cap then slots[slot := page] else slots - {slot}, cap)
  {
    var swapped' := swapped[at := Entry(e.frame, slot)];
    var slots' := if slot < cap then slots[slot := page] else slots - {slot};
    forall x | x in swapped'
      ensures SlotOk(ptes[at := e], swapped', used + {slot}, slots', cap, x) &&
              (x != at ==> x in swapped && swapped[x].slot != slot)
    {
      assert x != at ==> SlotOk(ptes, swapped, used, slots, cap, x);
    }
    forall x, y | SameSlot(swapped', x, y)
      ensures x == y
    {
      assert SameSlot(swapped, x, y) || x == at || y == at;
    }
    forall s | s in used + {slot}
      ensures Owned(swapped', s)
    {
      if s == slot {
        assert swapped'[at].slot == s;
      } else {
        assert Owned(swapped, s);
        var x :| x in swapped && swapped[x].slot == s;
        assert at in swapped ==> SlotOk(ptes, swapped, used, slots, cap, at);
        assert x in swapped' && swapped'[x].slot == s;
      }
    }
  }

  lemma {:induction false} ParkedSound(k: State, cap: int, at: At, e: Pte, slot: int, page: Page)
    requires k in Sound(cap) && !Get(k.ptes, at).p && !Get(k.ptes, at).s && TabOf(at) in k.tabs
    requires e.s && !e.p && !e.c && e.w && e.frame in k.ref && slot !in k.used
    ensures Parked(k, cap, at, e, slot, page) in Sound(cap)
  {
    ParkedSwap(k.ptes, k.swapped, k.used, k.slots, cap, at, e, slot, page);
    UnnamedParts(k, cap, at, e, k.swapped[at := Entry(e.frame, slot)]);
  }

  /** An entry that names no frame, before and after, does not touch the counts. */
  lemma {:induction false} UnnamedParts(k: State, cap: int, at: At, e: Pte, swapped': map<At, Entry>)
    requires k in Sound(cap) && !Get(k.ptes, at).p && !e.p && swapped' - {at} == k.swapped - {at}
    requires EntryOk(k.tabs, k.ref, swapped', at, e)
    ensures CountsOk(k.ptes[at := e], k.ref) && EntriesOk(k.ptes[at := e], k.tabs, k.ref, swapped')
    ensures TabsOk(k.ptes[at := e], k.tabs, k.ref)
  {
    forall f
      ensures Owners(k.ptes[at := e], f) == Owners(k.ptes, f)
    {
      OwnersSet(k.ptes, at, e, f);
    }
    forall f | f in k.ref
      ensures Counted(k.ptes[at := e], k.ref, f)
    {
      assert Counted(k.ptes, k.ref, f);
    }
    forall t | t in k.tabs
      ensures TabOk(k.ptes[at := e], k.tabs, k.ref, t)
    {
      assert TabOk(k.ptes, k.tabs, k.ref, t);
    }
    forall x | x in k.ptes && x != at
      ensures EntryOk(k.tabs, k.ref, swapped', x, k.ptes[x])
    {
      assert EntryOk(k.tabs, k.ref, k.swapped, x, k.ptes[x]);
      assert x in k.swapped ==> x in k.swapped - {at} && (swapped' - {at})[x] == k.swapped[x];
    }
  }

  /** swapfree_file and an empty entry: node, bitmap bit and slot are given up. */
  function Dropped(k: State, cap: int, at: At): State
    requires at in k.swapped
  {
    var slot := k.swapped[at].slot;
    k.(ptes := k.ptes[at := NOPTE], swapped := k.swapped - {at}, used := k.used - {slot},
       slots := if slot < cap then k.slots[slot := ZERO] else k.slots)
  }

  lemma {:induction false} DroppedSwap(ptes: map<At, Pte>, swapped: map<At, Entry>, used: set<int>, slots: map<int,
                                       Page>, cap: int, at: At)
    requires SwapOk(ptes, swapped, used, slots, cap) && at in swapped
    ensures var slot := swapped[at].slot;
            SwapOk(ptes[at := NOPTE], swapped - {at}, used - {slot}, if slot < cap
              then slots[slot := ZERO] else slots, cap)
  {
    var slot := swapped[at].slot;
    var swapped', slots' := swapped - {at}, if slot < cap then slots[slot := ZERO] else slots;
    assert SlotOk(ptes, swapped, used, slots, cap, at);
    forall x | x in swapped'
      ensures SlotOk(ptes[at := NOPTE], swapped', used - {slot}, slots', cap, x)
    {
      assert SlotOk(ptes, swapped, used, slots, cap, x) && !SameSlot(swapped, x, at);
    }
    forall x, y | SameSlot(swapped', x, y)
      ensures x == y
    {
      assert SameSlot(swapped, x, y);
    }
    forall s | s in used - {slot}
      ensures Owned(swapped', s)
    {
      assert Owned(swapped, s);
      var x :| x in swapped && swapped[x].slot == s;
      assert x in swapped' && swapped'[x].slot == s;
    }
  }

  lemma {:induction false} DroppedSound(k: State, cap: int, at: At)
    requires k in Sound(cap) && Get(k.ptes, at).s
    ensures at in k.swapped && Dropped(k, cap, at) in Sound(cap)
  {
    assert EntryOk(k.tabs, k.ref, k.swapped, at, k.ptes[at]);
    DroppedSwap(k.ptes, k.swapped, k.used, k.slots, cap, at);
    UnnamedParts(k, cap, at, NOPTE, k.swapped - {at});
  }

  /** A store by the processor, or by the kernel through the entry's frame. */
  function Stored(k: State, at: At, page: Page): State
    requires at in k.ptes
  {
    k.(mem := k.mem[k.ptes[at].frame := page])
  }

  lemma {:induction false} StoredSound(k: State, cap: int, at: At, page: Page)
    requires k in Sound(cap) && Get(k.ptes, at).p
    ensures Stored(k, at, page) in Sound(cap)
  {
    assert EntryOk(k.tabs, k.ref, k.swapped, at, k.ptes[at]);
    assert k.mem[k.ptes[at].frame := page].Keys == k.ref.Keys;
  }

  lemma {:induction false} DevSound(k: State, cap: int, dev: Device)
    requires k in Sound(cap)
    ensures k.(dev := dev) in Sound(cap)
  {
  }

  /** A new page table, or a new directory, in a frame the kernel holds. */
  function TabAdded(k: State, t: Tab, f: int): State
  {
    k.(tabs := k.tabs[t := f])
  }

  lemma {:induction false} TabAddedSound(k: State, cap: int, t: Tab, f: int)
    requires k in Sound(cap) && KernelHeld(k, f) && t !in k.tabs
    ensures TabAdded(k, t, f) in Sound(cap)
  {
    var tabs' := k.tabs[t := f];
    forall at | at in k.ptes
      ensures EntryOk(tabs', k.ref, k.swapped, at, k.ptes[at])
    {
      assert EntryOk(k.tabs, k.ref, k.swapped, at, k.ptes[at]);
    }
    forall x | x in tabs'
      ensures TabOk(k.ptes, tabs', k.ref, x)
    {
      assert x != t ==> TabOk(k.ptes, k.tabs, k.ref, x);
    }
    forall x, y | SameFrame(tabs', x, y)
      ensures x == y
    {
      assert SameFrame(k.tabs, x, y) || x == t || y == t;
    }
  }

  /** A page table that maps nothing is unlinked; the kernel still holds its frame. */
  function TabRemoved(k: State, t: Tab): State
  {
    k.(tabs := k.tabs - {t})
  }

  lemma {:induction false} TabRemovedSound(k: State, cap: int, t: Tab)
    requires k in Sound(cap) && t in k.tabs
    requires forall at :: at in k.ptes && TabOf(at) == t ==> !k.ptes[at].p && !k.ptes[at].s
    ensures TabRemoved(k, t) in Sound(cap) && KernelHeld(TabRemoved(k, t), k.tabs[t])
  {
    var tabs' := k.tabs - {t};
    assert TabOk(k.ptes, k.tabs, k.ref, t);
    forall at | at in k.ptes
      ensures EntryOk(tabs', k.ref, k.swapped, at, k.ptes[at])
    {
      assert EntryOk(k.tabs, k.ref, k.swapped, at, k.ptes[at]);
    }
    forall x | x in tabs'
      ensures TabOk(k.ptes, tabs', k.ref, x) && tabs'[x] != k.tabs[t]
    {
      assert TabOk(k.ptes, k.tabs, k.ref, x) && !SameFrame(k.tabs, x, t);
    }
    forall x, y | SameFrame(tabs', x, y)
      ensures x == y
    {
      assert SameFrame(k.tabs, x, y);
    }
  }
}
