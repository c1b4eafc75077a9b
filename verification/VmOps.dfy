/** The operations of vm.c as compositions of the smallest changes, each shown to keep the
    bookkeeping sound and to do to private memory what it should. */
module VmOps {
  import opened Common
  import opened VmState
  import opened VmContents
  import SwapFile
  import SwapMap

  /** User pages end below KERNBASE, so a directory has 512 user page tables. */
  const USERTABS: int := 512
  const KERNPAGES: int := 524288

  /** Every page table belongs to a directory, and a directory is named by its frame. */
  ghost predicate DirsOk(tabs: map<Tab, int>)
  {
    forall t {:trigger tabs[t]} :: t in tabs ==>
      && -1 <= t.index < USERTABS && Tab(t.dir, -1) in tabs
      && (t.index == -1 ==> tabs[t] == t.dir)
  }

  /** Whether a page may be looked up in a directory. */
  predicate InDir(tabs: map<Tab, int>, at: At)
  {
    0 <= at.page < KERNPAGES && Tab(at.dir, -1) in tabs
  }

  /** How many slots fit behind a bitmap of `bmap` bytes. */
  function CapOf(bmap: int): int
  {
    (SwapFile.MAXBYTES - bmap) / PGSIZE
  }

  /** The pages in the slots that are in use. A slot that does not fit may hold anything. */
  ghost function PagesOf(used: set<int>, slots: map<int, Page>): map<int, seq<Byte>>
  {
    map i | i in used :: if i in slots then slots[i].bytes else ZERO.bytes
  }

  /** The bins hold exactly the nodes of the swapped pages; the bits that are set are the slots in use;
      and the slots that fit hold their pages, byte by byte. */
  ghost predicate Backed(dev: Device, swapped: map<At, Entry>, used: set<int>, slots: map<int, Page>, cap: int)
  {
    && SwapMap.Represents(dev.end, dev.bins, swapped)
    && SwapFile.Represents(dev.file, PagesOf(used, slots)) && dev.file.off <= |dev.file.file|
    && dev.file.bmap >= 3 && cap == CapOf(dev.file.bmap)
    && forall i {:trigger i in used} :: i in used ==> 0 <= i <= cap
  }

  ghost function Backing(swapped: map<At, Entry>, used: set<int>, slots: map<int, Page>, cap: int): iset<Device>
  {
    iset dev: Device | Backed(dev, swapped, used, slots, cap)
  }

  /** The private memories that a sound state shows. */
  ghost function Refined(k: State, cap: int): iset<Memory>
  {
    iset a: Memory | k in Sound(cap) && a in Views(k) && DirsOk(k.tabs) && 0 !in k.ref &&
      k.dev in Backing(k.swapped, k.used, k.slots, cap)
  }

  /** walkpgdir with `alloc` (vm.c:65-73): a page table of empty entries in a new frame. */
  function Walked(k: State, t: Tab): State
    requires k.free.Run?
  {
    TabAdded(Filled(Taken(k), k.free.frame, ZERO), t, k.free.frame)
  }

  lemma {:induction false} WalkedSound(k: State, cap: int, a: Memory, t: Tab)
    requires k in Sound(cap) && a in Views(k) && k.free.Run? && t !in k.tabs
    ensures Walked(k, t) in Sound(cap) && a in Views(Walked(k, t))
  {
    var f := k.free.frame;
    TakenSound(k, cap);
    TakenViews(k, a);
    FilledSound(Taken(k), cap, f, ZERO);
    FilledViews(Taken(k), a, f, ZERO);
    TabAddedSound(Filled(Taken(k), f, ZERO), cap, t, f);
    TabViews(Filled(Taken(k), f, ZERO), a, k.tabs[t := f]);
  }

  lemma {:induction false} WalkedKeeps(k: State, cap: int, t: Tab, f: int)
    requires k in Sound(cap) && k.free.Run? && t !in k.tabs && KernelHeld(k, f)
    ensures KernelHeld(Walked(k, t), f) && f in k.mem && f in Walked(k, t).mem && Walked(k, t).mem[f] == k.mem[f]
  {
    assert k.free.frame in Elems(k.free);
    assert f in k.ref.Keys;
  }

  /** The entry lazyalloc and copy_on_write make: writable and accessible to the user. */
  function UserEntry(f: int): Pte
  {
    NOPTE.(p := true, w := true, u := true, frame := f)
  }

  /** lazyalloc (vm.c:570-577) up to the mapping: a frame of zeroes, and a page table. */
  function Prepared(k: State, t: Tab): State
    requires k.free.Run?
  {
    var k1 := Filled(Taken(k), k.free.frame, ZERO);
    if t !in k1.tabs && k1.free.Run? then Walked(k1, t) else k1
  }

  lemma {:induction false} PreparedSound(k: State, cap: int, a: Memory, t: Tab)
    requires k in Sound(cap) && a in Views(k) && k.free.Run?
    ensures Prepared(k, t) in Sound(cap) && a in Views(Prepared(k, t))
    ensures KernelHeld(Prepared(k, t), k.free.frame)
    ensures k.free.frame in Prepared(k, t).mem && Prepared(k, t).mem[k.free.frame] == ZERO
  {
    var f := k.free.frame;
    TakenSound(k, cap);
    TakenViews(k, a);
    FilledSound(Taken(k), cap, f, ZERO);
    FilledViews(Taken(k), a, f, ZERO);
    var k1 := Filled(Taken(k), f, ZERO);
    if t !in k1.tabs && k1.free.Run? {
      WalkedSound(k1, cap, a, t);
      WalkedKeeps(k1, cap, t, f);
    }
  }

  lemma {:induction false} PreparedKeeps(k: State, t: Tab)
    requires k.free.Run?
    ensures Prepared(k, t).ptes == k.ptes
  {
  }

  lemma {:induction false} Untouched(k: State, a: Memory, at: At)
    requires a in Views(k) && !Get(k.ptes, at).p && !Get(k.ptes, at).s
    ensures Look(a, at) == ZERO
  {
    assert Matches(Content(k, at), Look(a, at));
  }

  /** A frame of zeroes mapped into an untouched page changes nothing. */
  lemma {:induction false} MapZeroes(k: State, cap: int, a: Memory, at: At, f: int)
    requires k in Sound(cap) && a in Views(k) && KernelHeld(k, f) && f in k.mem && k.mem[f] == ZERO &&
             TabOf(at) in k.tabs
    requires !Get(k.ptes, at).p && !Get(k.ptes, at).s
    ensures Mapped(k, at, UserEntry(f)) in Sound(cap) && a in Views(Mapped(k, at, UserEntry(f)))
  {
    Untouched(k, a, at);
    MappedSound(k, cap, at, UserEntry(f));
    MappedViews(k, a, a, at, UserEntry(f));
  }

  /** lazyalloc of an untouched page keeps everything as it was, contents included. */
  lemma {:induction false} LazySound(k: State, cap: int, a: Memory, at: At)
    requires k in Sound(cap) && a in Views(k) && k.free.Run? && TabOf(at) in Prepared(k, TabOf(at)).tabs
    requires !Get(k.ptes, at).p && !Get(k.ptes, at).s
    ensures Mapped(Prepared(k, TabOf(at)), at, UserEntry(k.free.frame)) in Sound(cap)
    ensures a in Views(Mapped(Prepared(k, TabOf(at)), at, UserEntry(k.free.frame)))
  {
    PreparedSound(k, cap, a, TabOf(at));
    PreparedKeeps(k, TabOf(at));
    MapZeroes(Prepared(k, TabOf(at)), cap, a, at, k.free.frame);
  }

  lemma {:induction false} LazyFailSound(k: State, cap: int, a: Memory, t: Tab)
    requires k in Sound(cap) && a in Views(k) && k.free.Run?
    ensures k.free.frame in Prepared(k, t).ref
    ensures Freed(Prepared(k, t), k.free.frame) in Sound(cap) && a in Views(Freed(Prepared(k, t), k.free.frame))
  {
    PreparedSound(k, cap, a, t);
    FreedSound(Prepared(k, t), cap, k.free.frame);
    FreedViews(Prepared(k, t), a, k.free.frame);
  }

  /** lazyalloc (vm.c:565-583) of a page that is neither present nor swapped: nobody notices,
      the process least of all, which finds the zeroes it would have found. */
  lemma {:induction false} LazyRefined(k: State, cap: int, a: Memory, at: At)
    requires a in Refined(k, cap) && k.free.Run? && TabOf(at) in Prepared(k, TabOf(at)).tabs && InDir(k.tabs, at)
    requires !Get(k.ptes, at).p && !Get(k.ptes, at).s
    ensures a in Refined(Mapped(Prepared(k, TabOf(at)), at, UserEntry(k.free.frame)), cap)
  {
    LazySound(k, cap, a, at);
    PreparedDirs(k, cap, at);
  }

  lemma {:induction false} PreparedDirs(k: State, cap: int, at: At)
    requires k in Sound(cap) && DirsOk(k.tabs) && 0 !in k.ref && k.free.Run? && InDir(k.tabs, at)
    ensures DirsOk(Prepared(k, TabOf(at)).tabs) && 0 !in Prepared(k, TabOf(at)).ref
  {
    assert k.free.frame in Elems(k.free);
    var k1 := Taken(k);
    if k1.free.Run? {
      assert k1.free.frame in Elems(k.free);
    }
  }

  /** The frame goes back when no page table can be made. */
  lemma {:induction false} LazyFailRefined(k: State, cap: int, a: Memory, at: At)
    requires a in Refined(k, cap) && k.free.Run? && InDir(k.tabs, at)
    ensures k.free.frame in Prepared(k, TabOf(at)).ref
    ensures a in Refined(Freed(Prepared(k, TabOf(at)), k.free.frame), cap)
  {
    LazyFailSound(k, cap, a, TabOf(at));
    PreparedDirs(k, cap, at);
  }

  lemma {:induction false} WalkedRefined(k: State, cap: int, a: Memory, at: At)
    requires a in Refined(k, cap) && k.free.Run? && TabOf(at) !in k.tabs && InDir(k.tabs, at)
    ensures a in Refined(Walked(k, TabOf(at)), cap)
  {
    WalkedSound(k, cap, a, TabOf(at));
    assert k.free.frame in Elems(k.free);
  }

  /** kfree and an empty entry: the page is a page of zeroes again. */
  lemma {:induction false} UnmappedRefined(k: State, cap: int, a: Memory, at: At)
    requires a in Refined(k, cap) && Get(k.ptes, at).p
    ensures k.ptes[at].frame in k.ref && a - {at} in Refined(Unmapped(k, at), cap)
  {
    UnmappedSound(k, cap, at);
    UnmappedViews(k, cap, a, at);
  }

  lemma {:induction false} DroppedRefined(k: State, cap: int, a: Memory, at: At, dev: Device)
    requires a in Refined(k, cap) && Get(k.ptes, at).s && at in k.swapped
    requires var k' := Dropped(k, cap, at); dev in Backing(k'.swapped, k'.used, k'.slots, cap)
    ensures a - {at} in Refined(Dropped(k, cap, at).(dev := dev), cap)
  {
    DroppedSound(k, cap, at);
    DroppedViews(k, cap, a, at);
    DevRefined(Dropped(k, cap, at), cap, a - {at}, dev);
  }

  lemma {:induction false} DevRefined(k: State, cap: int, a: Memory, dev: Device)
    requires k in Sound(cap) && a in Views(k) && DirsOk(k.tabs) && 0 !in k.ref.Keys
    requires dev in Backing(k.swapped, k.used, k.slots, cap)
    ensures a in Refined(k.(dev := dev), cap)
  {
    DevSound(k, cap, dev);
    DevViews(k, a, dev);
  }

  /** Sharing a page is copying it. */
  lemma {:induction false} SharedRefined(k: State, cap: int, a: Memory, at: At, child: At)
    requires a in Refined(k, cap) && Get(k.ptes, at).p && TabOf(child) in k.tabs
    requires !Get(k.ptes, child).p && !Get(k.ptes, child).s
    ensures k.ptes[at].frame in k.ref && a[child := Look(a, at)] in Refined(Shared(k, at, child), cap)
  {
    SharedSound(k, cap, at, child);
    SharedViews(k, a, at, child);
  }

  lemma {:induction false} RemarkRefined(k: State, cap: int, a: Memory, at: At, e: Pte)
    requires a in Refined(k, cap) && Get(k.ptes, at).p && e.p && !e.s && e.frame == k.ptes[at].frame
    requires EntryOk(k.tabs, k.ref, k.swapped, at, e)
    ensures a in Refined(k.(ptes := k.ptes[at := e]), cap)
  {
    RemarkSound(k, cap, at, e);
    RemarkViews(k, a, at, e);
  }

  lemma {:induction false} UserFlagRefined(k: State, cap: int, a: Memory, at: At, u: bool)
    requires a in Refined(k, cap) && at in k.ptes
    ensures a in Refined(k.(ptes := k.ptes[at := k.ptes[at].(u := u)]), cap)
  {
    UserFlagSound(k, cap, at, u);
    ViewsSame(k, k.(ptes := k.ptes[at := k.ptes[at].(u := u)]), a);
  }

  lemma {:induction false} MarkedRefined(k: State, cap: int, a: Memory, at: At)
    requires a in Refined(k, cap) && Get(k.ptes, at).p
    ensures a in Refined(Marked(k, at), cap)
  {
    assert EntryOk(k.tabs, k.ref, k.swapped, at, k.ptes[at]);
    RemarkRefined(k, cap, a, at, k.ptes[at].(w := false, c := true));
  }

  lemma {:induction false} AccessedRefined(k: State, cap: int, a: Memory, at: At, acc: bool)
    requires a in Refined(k, cap) && Get(k.ptes, at).p
    ensures a in Refined(Accessed(k, at, acc), cap)
  {
    assert EntryOk(k.tabs, k.ref, k.swapped, at, k.ptes[at]);
    RemarkRefined(k, cap, a, at, k.ptes[at].(a := acc));
  }

  lemma {:induction false} ClaimedRefined(k: State, cap: int, a: Memory, at: At)
    requires a in Refined(k, cap) && Get(k.ptes, at).p && k.ptes[at].frame in k.ref && k.ref[k.ptes[at].frame] == 1
    ensures a in Refined(Claimed(k, at), cap)
  {
    assert EntryOk(k.tabs, k.ref, k.swapped, at, k.ptes[at]);
    RemarkRefined(k, cap, a, at, k.ptes[at].(w := true, c := false));
  }

  /** copy_on_write (vm.c:604-618) of a shared page: its own frame, with the same contents. */
  function Copied(k: State, at: At): State
    requires k.free.Run? && at in k.ptes && k.ptes[at].frame in k.mem && k.ptes[at].frame in k.ref
  {
    var f := k.free.frame;
    Replaced(Filled(Taken(k), f, k.mem[k.ptes[at].frame]), at, UserEntry(f))
  }

  lemma {:induction false} CopiedRefined(k: State, cap: int, a: Memory, at: At)
    requires a in Refined(k, cap) && Get(k.ptes, at).p && k.ptes[at].frame in k.ref && k.ref[k.ptes[at].frame] > 1 &&
             k.free.Run?
    ensures k.ptes[at].frame in k.mem && a in Refined(Copied(k, at), cap)
  {
    var f, g := k.free.frame, k.ptes[at].frame;
    assert f in Elems(k.free) && g in k.ref.Keys;
    var k1 := Filled(Taken(k), f, k.mem[g]);
    FilledTaken(k, cap, a, k.mem[g]);
    ReplacedSound(k1, cap, at, UserEntry(f));
    ReplacedViews(k1, cap, a, at, UserEntry(f));
  }

  /** What copy_on_write leaves: the frame when it has one owner, else a copy. */
  function Unshared(k: State, at: At): State
  {
    if at !in k.ptes then k
    else
      var g := k.ptes[at].frame;
      if g in k.ref && k.ref[g] == 1 then Claimed(k, at)
      else if k.free.Run? && g in k.mem && g in k.ref then Copied(k, at)
      else k
  }

  /** copy_on_write makes one entry writable and unshared, and no other entry changes. */
  lemma {:induction false} UnsharedEntries(k: State, cap: int, a: Memory, at: At)
    requires a in Refined(k, cap) && Get(k.ptes, at).p
    requires k.ptes[at].frame in k.ref && (k.ref[k.ptes[at].frame] == 1 || k.free.Run?)
    ensures var k' := Unshared(k, at);
            && at in k'.ptes && k'.ptes == k.ptes[at := k'.ptes[at]] && k'.tabs == k.tabs
            && k'.ptes[at].p && k'.ptes[at].w && !k'.ptes[at].c && !k'.ptes[at].s &&
               (k'.ptes[at].u <==> k.ptes[at].u || k.ref[k.ptes[at].frame] != 1)
  {
    PresentFacts(k, cap, a, at);
  }

  lemma {:induction false} FilledTaken(k: State, cap: int, a: Memory, page: Page)
    requires k in Sound(cap) && a in Views(k) && k.free.Run?
    ensures var k1 := Filled(Taken(k), k.free.frame, page);
            k1 in Sound(cap) && a in Views(k1) && KernelHeld(k1, k.free.frame)
  {
    TakenSound(k, cap);
    TakenViews(k, a);
    FilledSound(Taken(k), cap, k.free.frame, page);
    FilledViews(Taken(k), a, k.free.frame, page);
  }

  /** swapwrite_file (fs.c:899-961) of an unshared page. */
  function SwappedOut(k: State, cap: int, at: At, slot: int): State
    requires at in k.ptes && k.ptes[at].frame in k.ref && k.ptes[at].frame in k.mem
  {
    Parked(Unmapped(k, at), cap, at, k.ptes[at].(s := true, p := false), slot, k.mem[k.ptes[at].frame])
  }

  /** Nobody notices that a page is swapped out, as long as its slot lies in the file. */
  lemma {:induction false} SwappedOutRefined(k: State, cap: int, a: Memory, at: At, slot: int, dev: Device)
    requires a in Refined(k, cap) && Get(k.ptes, at).p && !k.ptes[at].c && slot !in k.used
    requires k.ptes[at].frame in k.ref && k.ptes[at].frame in k.mem
    requires var k' := SwappedOut(k, cap, at, slot); dev in Backing(k'.swapped, k'.used, k'.slots, cap)
    ensures a in Refined(SwappedOut(k, cap, at, slot).(dev := dev), cap)
  {
    SwappedOutSound(k, cap, a, at, slot);
    DevRefined(SwappedOut(k, cap, at, slot), cap, a, dev);
  }

  lemma {:induction false} SwappedOutSound(k: State, cap: int, a: Memory, at: At, slot: int)
    requires a in Refined(k, cap) && Get(k.ptes, at).p && !k.ptes[at].c && slot !in k.used
    ensures k.ptes[at].frame in k.ref && k.ptes[at].frame in k.mem
    ensures SwappedOut(k, cap, at, slot) in Sound(cap) && a in Views(SwappedOut(k, cap, at, slot))
    ensures SwappedOut(k, cap, at, slot).tabs == k.tabs && SwappedOut(k, cap, at, slot).ref.Keys == k.ref.Keys
  {
    var e := k.ptes[at];
    assert EntryOk(k.tabs, k.ref, k.swapped, at, e);
    assert e.frame in k.ref.Keys;
    assert Matches(Content(k, at), Look(a, at));
    UnmappedRefined(k, cap, a, at);
    ParkedAgain(Unmapped(k, at), cap, a - {at}, a, at, e.(s := true, p := false), slot, k.mem[e.frame]);
  }

  lemma {:induction false} ParkedAgain(k: State, cap: int, a: Memory, a': Memory, at: At, e: Pte, slot: int, page: Page)
    requires k in Sound(cap) && a in Views(k) && !Get(k.ptes, at).p && !Get(k.ptes, at).s && TabOf(at) in k.tabs
    requires e.s && !e.p && !e.c && e.w && e.frame in k.ref && slot !in k.used
    requires a' - {at} == a - {at} && Look(a', at) == page
    ensures Parked(k, cap, at, e, slot, page) in Sound(cap) && a' in Views(Parked(k, cap, at, e, slot, page))
  {
    ParkedSound(k, cap, at, e, slot, page);
    ParkedViews(k, cap, a, a', at, e, slot, page);
  }

  /** swapread_file (fs.c:1009-1091): the page comes back in a new frame, with its old marks. */
  function SwappedIn(k: State, cap: int, at: At): State
    requires k.free.Run? && at in k.ptes && at in k.swapped && k.swapped[at].slot in k.slots
  {
    var f := k.free.frame;
    var k1 := Filled(Taken(k), f, k.slots[k.swapped[at].slot]);
    Mapped(Dropped(k1, cap, at), at, k.ptes[at].(s := false, p := true, frame := f))
  }

  lemma {:induction false} SwappedInRefined(k: State, cap: int, a: Memory, at: At, dev: Device)
    requires a in Refined(k, cap) && Get(k.ptes, at).s && k.free.Run? && at in k.swapped &&
             k.swapped[at].slot in k.slots
    requires var k' := SwappedIn(k, cap, at); dev in Backing(k'.swapped, k'.used, k'.slots, cap)
    ensures a in Refined(SwappedIn(k, cap, at).(dev := dev), cap)
  {
    assert 0 !in k.ref.Keys;
    SwappedInSound(k, cap, a, at);
    DevRefined(SwappedIn(k, cap, at), cap, a, dev);
  }

  lemma {:induction false} SwappedInSound(k: State, cap: int, a: Memory, at: At)
    requires k in Sound(cap) && a in Views(k) && Get(k.ptes, at).s && k.free.Run? && at in k.swapped &&
             k.swapped[at].slot in k.slots
    ensures SwappedIn(k, cap, at) in Sound(cap) && a in Views(SwappedIn(k, cap, at))
    ensures SwappedIn(k, cap, at).tabs == k.tabs && SwappedIn(k, cap, at).ref.Keys == k.ref.Keys
  {
    var f, page := k.free.frame, k.slots[k.swapped[at].slot];
    var e := k.ptes[at];
    assert EntryOk(k.tabs, k.ref, k.swapped, at, e);
    assert f in Elems(k.free);
    assert Matches(Content(k, at), Look(a, at));
    FilledTaken(k, cap, a, page);
    var k1 := Filled(Taken(k), f, page);
    DroppedKeeps(k1, cap, a, at, f);
    MappedAgain(Dropped(k1, cap, at), cap, a - {at}, a, at, e.(s := false, p := true, frame := f));
  }

  lemma {:induction false} DroppedKeeps(k: State, cap: int, a: Memory, at: At, f: int)
    requires k in Sound(cap) && a in Views(k) && Get(k.ptes, at).s && KernelHeld(k, f)
    ensures at in k.swapped && Dropped(k, cap, at) in Sound(cap) && a - {at} in Views(Dropped(k, cap, at))
    ensures KernelHeld(Dropped(k, cap, at), f)
  {
    DroppedSound(k, cap, at);
    DroppedViews(k, cap, a, at);
    OwnersSet(k.ptes, at, NOPTE, f);
  }

  lemma {:induction false} MappedAgain(k: State, cap: int, a: Memory, a': Memory, at: At, e: Pte)
    requires k in Sound(cap) && a in Views(k) && KernelHeld(k, e.frame) && e.p && !e.s && !e.c && e.w &&
             TabOf(at) in k.tabs
    requires !Get(k.ptes, at).p && !Get(k.ptes, at).s
    requires a' - {at} == a - {at} && e.frame in k.mem && Look(a', at) == k.mem[e.frame]
    ensures Mapped(k, at, e) in Sound(cap) && a' in Views(Mapped(k, at, e))
  {
    MappedSound(k, cap, at, e);
    MappedViews(k, a, a', at, e);
  }

  lemma {:induction false} StoredRefined(k: State, cap: int, a: Memory, at: At, page: Page)
    requires a in Refined(k, cap) && Get(k.ptes, at).p && !k.ptes[at].c
    ensures a[at := page] in Refined(Stored(k, at, page), cap)
  {
    StoredSound(k, cap, at, page);
    StoredViews(k, cap, a, at, page);
  }

  /** The first two frames of the free list have count 0. */
  lemma {:induction false} FreeHead(k: State, cap: int, a: Memory)
    requires a in Refined(k, cap) && k.free.Run?
    ensures k.free.frame in k.ref && k.ref[k.free.frame] == 0
    ensures k.free.next.Run? ==>
            k.free.next.frame != k.free.frame && k.free.next.frame in k.ref && k.ref[k.free.next.frame] == 0
  {
    assert k.free.frame in Elems(k.free);
    if k.free.next.Run? {
      assert k.free.next.frame in Elems(k.free.next);
    }
  }

  /** A present entry names a frame with a positive count, and not one on the free list. */
  lemma {:induction false} PresentFacts(k: State, cap: int, a: Memory, at: At)
    requires a in Refined(k, cap) && Get(k.ptes, at).p
    ensures var g := k.ptes[at].frame;
            && g in k.ref && g in k.mem && k.ref[g] >= 1 && g != 0 && TabOf(at) in k.tabs && !k.ptes[at].s
            && (k.ptes[at].c <==> !k.ptes[at].w) && (!k.ptes[at].c ==> k.ref[g] == 1)
            && (k.free.Run? ==> k.free.frame != g)
  {
    var g := k.ptes[at].frame;
    assert EntryOk(k.tabs, k.ref, k.swapped, at, k.ptes[at]);
    assert g in k.ref.Keys;
    assert Counted(k.ptes, k.ref, g) && at in Owners(k.ptes, g);
    if k.free.Run? {
      assert k.free.frame in Elems(k.free);
    }
  }

  lemma {:induction false} SwappedFacts(k: State, cap: int, a: Memory, at: At)
    requires a in Refined(k, cap) && Get(k.ptes, at).s
    ensures at in k.swapped && k.swapped[at].pa == k.ptes[at].frame && k.ptes[at].frame != 0 &&
            k.swapped[at].slot in k.used
    ensures !k.ptes[at].p && !k.ptes[at].c && k.ptes[at].w && TabOf(at) in k.tabs
    ensures k.swapped[at].slot in k.slots <==> k.swapped[at].slot < cap
  {
    assert EntryOk(k.tabs, k.ref, k.swapped, at, k.ptes[at]);
    assert SlotOk(k.ptes, k.swapped, k.used, k.slots, cap, at);
  }

  /** An entry that is neither present nor swapped carries no copy-on-write mark, and a page
      without a page table has no other entry. */
  lemma {:induction false} AbsentFacts(k: State, cap: int, a: Memory, at: At)
    requires a in Refined(k, cap)
    ensures !Get(k.ptes, at).p && !Get(k.ptes, at).s ==> !Get(k.ptes, at).c
    ensures TabOf(at) !in k.tabs ==> !Get(k.ptes, at).p && !Get(k.ptes, at).s
  {
    if at in k.ptes {
      assert EntryOk(k.tabs, k.ref, k.swapped, at, k.ptes[at]);
    }
  }

  /** lazyalloc over a present page (vm.c:577 through vm.c:79): the old frame loses an entry
      but keeps its count. */
  lemma {:induction false} OverwriteLeaks(k: State, cap: int, a: Memory, at: At, page: Page)
    requires a in Refined(k, cap) && Get(k.ptes, at).p && k.free.Run?
    ensures var k', g := Mapped(Filled(Taken(k), k.free.frame, page), at, UserEntry(k.free.frame)), k.ptes[at].frame;
            g in k'.ref && k'.ref[g] == |Owners(k'.ptes, g)| + 1
  {
    var g := k.ptes[at].frame;
    PresentFacts(k, cap, a, at);
    assert Counted(k.ptes, k.ref, g) && at in Owners(k.ptes, g);
    OwnersSet(k.ptes, at, UserEntry(k.free.frame), g);
  }

  /** swapwrite_file step by step: bit, slot and node; kfree; entry. */
  lemma {:induction false} SwappedOutIs(k: State, cap: int, at: At, slot: int)
    requires at in k.ptes && k.ptes[at].frame in k.ref && k.ptes[at].frame in k.mem
    ensures var e := k.ptes[at];
            var k1 := k.(used := k.used + {slot}, swapped := k.swapped[at := Entry(e.frame, slot)],
                         slots := if slot < cap then k.slots[slot := k.mem[e.frame]] else k.slots - {slot});
            var k2 := Freed(k1, e.frame);
            SwappedOut(k, cap, at, slot) == k2.(ptes := k2.ptes[at := e.(s := true, p := false)])
  {
    var e := k.ptes[at].(s := true, p := false);
    assert k.ptes[at := NOPTE][at := e] == k.ptes[at := e];
  }

  /** swapread_file step by step: frame; node, bit and slot; entry. */
  lemma {:induction false} SwappedInIs(k: State, cap: int, at: At)
    requires k.free.Run? && at in k.ptes && at in k.swapped && k.swapped[at].slot in k.slots && k.swapped[at].slot < cap
    ensures var slot, f := k.swapped[at].slot, k.free.frame;
            var k1 := Filled(Taken(k), f, k.slots[slot]);
            SwappedIn(k, cap, at) ==
            k1.(swapped := k1.swapped - {at}, used := k1.used - {slot}, slots := k1.slots[slot := ZERO],
                ptes := k1.ptes[at := k.ptes[at].(s := false, p := true, frame := f)])
  {
    var e := k.ptes[at].(s := false, p := true, frame := k.free.frame);
    assert k.ptes[at := NOPTE][at := e] == k.ptes[at := e];
  }

  /** A page table that maps nothing, or a directory without page tables, is given back. */
  function TabFreed(k: State, t: Tab): State
    requires t in k.tabs && k.tabs[t] in k.ref
  {
    Freed(TabRemoved(k, t), k.tabs[t])
  }

  lemma {:induction false} TabFreedRefined(k: State, cap: int, a: Memory, t: Tab)
    requires a in Refined(k, cap) && t in k.tabs
    requires forall at :: at in k.ptes && TabOf(at) == t ==> !k.ptes[at].p && !k.ptes[at].s
    requires t.index == -1 ==> forall x :: x in k.tabs && x.dir == t.dir ==> x == t
    ensures k.tabs[t] in k.ref && a in Refined(TabFreed(k, t), cap)
  {
    TabRemovedSound(k, cap, t);
    TabViews(k, a, k.tabs - {t});
    var k1, f := TabRemoved(k, t), k.tabs[t];
    FreedSound(k1, cap, f);
    FreedViews(k1, a, f);
    forall x | x in k1.tabs
      ensures -1 <= x.index < USERTABS && Tab(x.dir, -1) in k1.tabs && (x.index == -1 ==> k1.tabs[x] == x.dir)
    {
      assert k.tabs[x] == k1.tabs[x];
    }
  }

  /** A new directory, in a frame taken from the free list. */
  function DirMade(k: State): State
    requires k.free.Run?
  {
    Walked(k, Tab(k.free.frame, -1))
  }

  lemma {:induction false} DirMadeRefined(k: State, cap: int, a: Memory)
    requires a in Refined(k, cap) && k.free.Run?
    ensures a in Refined(DirMade(k), cap)
    ensures forall t :: t in k.tabs ==> t.dir != k.free.frame
    ensures forall at: At :: at.dir == k.free.frame ==> !Get(k.ptes, at).p && !Get(k.ptes, at).s
  {
    var f := k.free.frame;
    assert f in Elems(k.free);
    forall t | t in k.tabs
      ensures t.dir != f
    {
      assert k.tabs[t] == k.tabs[t];
      assert Tab(t.dir, -1) in k.tabs && k.tabs[Tab(t.dir, -1)] == t.dir;
      assert TabOk(k.ptes, k.tabs, k.ref, Tab(t.dir, -1));
    }
    forall at: At | at.dir == f
      ensures !Get(k.ptes, at).p && !Get(k.ptes, at).s
    {
      AbsentFacts(k, cap, a, at);
    }
    WalkedSound(k, cap, a, Tab(f, -1));
  }

  // ----- The swap map and the swap file -----

  /** Which slots fit, and up to where the seek to a slot lies in the file. */
  lemma {:induction false} FitsIff(s: SwapFile.Swap, i: int)
    requires 0 <= i && 0 <= s.bmap <= SwapFile.MAXBYTES
    ensures SwapFile.Fits(s, i) <==> i < CapOf(s.bmap)
    ensures SwapFile.Reaches(s, i) <==> i <= CapOf(s.bmap)
  {
  }

  /** What a slot that does not fit should hold does not matter. */
  lemma {:induction false} UnfitAny(s: SwapFile.Swap, m: map<int, seq<Byte>>, m': map<int, seq<Byte>>)
    requires SwapFile.Represents(s, m) && m'.Keys == m.Keys
    requires forall i {:trigger m'[i]} :: i in m && SwapFile.Fits(s, i) ==> m'[i] == m[i]
    ensures SwapFile.Represents(s, m')
  {
    forall i | 0 <= i < 8 * s.bmap
      ensures SwapFile.UsedBit(s, i) <==> i in m'
    {
      assert SwapFile.UsedBit(s, i) <==> i in m;
      assert i in m.Keys <==> i in m'.Keys;
    }
    forall i | i in m' && SwapFile.Fits(s, i)
      ensures SwapFile.Stored(s, i) && SwapFile.Slot(s, i) == m'[i]
    {
      assert i in m.Keys;
      assert SwapFile.Stored(s, i) && m'[i] == m[i];
    }
    forall i | i in m' && SwapFile.Reaches(s, i)
      ensures SwapFile.Begins(s, i)
    {
      assert i in m.Keys;
      assert SwapFile.Begins(s, i);
    }
    forall i | i in m'
      ensures 0 <= i < 8 * s.bmap
    {
      assert i in m.Keys;
    }
  }

  /** A page went to a free slot and a node into the bins. */
  lemma {:induction false} OutBacked(dev: Device, swapped: map<At, Entry>, used: set<int>, slots: map<int, Page>,
                                     cap: int,
                                     at: At, pa: int, slot: int, page: Page, bins: Bins, file: SwapFile.Swap)
    requires dev in Backing(swapped, used, slots, cap) && slot !in used && 0 <= slot <= cap
    requires SwapMap.Represents(dev.end, bins, swapped[at := Entry(pa, slot)])
    requires SwapFile.Represents(file, PagesOf(used, slots)[slot := page.bytes]) && file.off <= |file.file| &&
             file.bmap == dev.file.bmap
    ensures Device(dev.end, bins, file) in
            Backing(swapped[at := Entry(pa, slot)], used + {slot}, if slot < cap
              then slots[slot := page] else slots - {slot}, cap)
  {
    var slots' := if slot < cap then slots[slot := page] else slots - {slot};
    var m, m' := PagesOf(used, slots)[slot := page.bytes], PagesOf(used + {slot}, slots');
    forall i | i in m && SwapFile.Fits(file, i)
      ensures m'[i] == m[i]
    {
      FitsIff(file, i);
    }
    UnfitAny(file, m, m');
  }

  /** A slot was given up and its node removed. */
  lemma {:induction false} DropBacked(dev: Device, swapped: map<At, Entry>, used: set<int>, slots: map<int, Page>,
                                      cap: int,
                                      at: At, bins: Bins, file: SwapFile.Swap)
    requires dev in Backing(swapped, used, slots, cap) && at in swapped
    requires SwapMap.Represents(dev.end, bins, swapped - {at})
    requires SwapFile.Represents(file, PagesOf(used, slots) - {swapped[at].slot})
    requires file.off <= |file.file| && file.bmap == dev.file.bmap
    ensures var slot := swapped[at].slot;
            Device(dev.end, bins, file) in
            Backing(swapped - {at}, used - {slot}, if slot < cap then slots[slot := ZERO] else slots, cap)
  {
    var slot := swapped[at].slot;
    assert PagesOf(used - {slot}, if slot < cap then slots[slot := ZERO] else slots) == PagesOf(used, slots) - {slot};
  }

  /** What the device holds of a swapped page: its node, its slot below the limit, and, when the slot
      fits, the bytes of the page in the file. */
  lemma {:induction false} SwappedOnDevice(k: State, cap: int, a: Memory, at: At)
    requires a in Refined(k, cap) && Get(k.ptes, at).s
    ensures at in k.swapped && k.swapped[at].pa == k.ptes[at].frame
    ensures var slot, file := k.swapped[at].slot, k.dev.file;
            && slot in PagesOf(k.used, k.slots) && 0 <= slot <= cap && SwapFile.Valid(file) && file.bmap >= 3
            && SwapFile.Reaches(file, slot) && (SwapFile.Fits(file, slot) <==> slot < cap)
            && (slot < cap ==> SwapFile.Stored(file, slot) && SwapFile.Slot(file, slot) == Look(a, at).bytes)
  {
    SwappedFacts(k, cap, a, at);
    var slot := k.swapped[at].slot;
    assert SlotOk(k.ptes, k.swapped, k.used, k.slots, cap, at);
    assert slot in k.used;
    FitsIff(k.dev.file, slot);
    assert SwapFile.Fits(k.dev.file, slot) ==> SwapFile.Stored(k.dev.file, slot);
    assert Matches(Content(k, at), Look(a, at));
  }
}
