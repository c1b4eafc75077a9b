/** What each change of the memory state does to what processes find in their pages, stated
    against private memory: a map from page to contents that nobody shares. */
module VmContents {
  import opened Common
  import opened VmState

  /** Private memory. A page that is not in the map is a page of zeroes. */
  type Memory = map<At, Page>

  function Look(a: Memory, at: At): Page
  {
    if at in a then a[at] else ZERO
  }

  ghost predicate Matches(c: Option<Page>, page: Page)
  {
    c.None? || c.value == page
  }

  /** The private memories that a state shows. A page whose slot the swap file could not hold
      is not looked at: to read it stops the machine. */
  ghost function Views(k: State): iset<Memory>
  {
    iset a: Memory | Agrees(k, a)
  }

  ghost predicate Agrees(k: State, a: Memory)
  {
    forall at {:trigger Matches(Content(k, at), Look(a, at))} :: Matches(Content(k, at), Look(a, at))
  }

  /** A step that changes the contents of one page has to look at that page only. */
  lemma {:induction false} ViewsUpdate(k: State, k': State, a: Memory, a': Memory, at: At)
    requires a in Views(k) && a' - {at} == a - {at}
    requires forall x :: x != at ==> Content(k', x) == Content(k, x)
    requires Matches(Content(k', at), Look(a', at))
    ensures a' in Views(k')
  {
    forall x | x != at
      ensures Matches(Content(k', x), Look(a', x))
    {
      assert Matches(Content(k, x), Look(a, x));
      assert x in a ==> x in a - {at} && (a' - {at})[x] == a[x];
      assert x in a' ==> x in a' - {at} && (a - {at})[x] == a'[x];
    }
  }

  lemma {:induction false} ViewsSame(k: State, k': State, a: Memory)
    requires a in Views(k) && forall x :: Content(k', x) == Content(k, x)
    ensures a in Views(k')
  {
    forall x
      ensures Matches(Content(k', x), Look(a, x))
    {
      assert Matches(Content(k, x), Look(a, x));
    }
  }

  lemma {:induction false} TakenViews(k: State, a: Memory)
    requires a in Views(k) && k.free.Run?
    ensures a in Views(Taken(k))
  {
    ViewsSame(k, Taken(k), a);
  }

  lemma {:induction false} FilledViews(k: State, a: Memory, f: int, page: Page)
    requires a in Views(k) && KernelHeld(k, f)
    ensures a in Views(Filled(k, f, page))
  {
    forall at
      ensures Content(Filled(k, f, page), at) == Content(k, at)
    {
      assert Get(k.ptes, at).p ==> at in Owners(k.ptes, k.ptes[at].frame);
    }
    ViewsSame(k, Filled(k, f, page), a);
  }

  lemma {:induction false} FreedViews(k: State, a: Memory, f: int)
    requires a in Views(k) && KernelHeld(k, f)
    ensures a in Views(Freed(k, f))
  {
    forall at
      ensures Content(Freed(k, f), at) == Content(k, at)
    {
      assert Get(k.ptes, at).p ==> at in Owners(k.ptes, k.ptes[at].frame);
    }
    ViewsSame(k, Freed(k, f), a);
  }

  lemma {:induction false} MappedViews(k: State, a: Memory, a': Memory, at: At, e: Pte)
    requires a in Views(k) && e.p && e.frame in k.mem && a' - {at} == a - {at} && Look(a', at) == k.mem[e.frame]
    ensures a' in Views(Mapped(k, at, e))
  {
    ViewsUpdate(k, Mapped(k, at, e), a, a', at);
  }

  lemma {:induction false} UnmappedContent(k: State, at: At, x: At)
    requires at in k.ptes && k.ptes[at].frame in k.ref && x != at
    requires k.ref[k.ptes[at].frame] == 1 ==> !Names(Get(k.ptes, x), k.ptes[at].frame)
    ensures Content(Unmapped(k, at), x) == Content(k, x)
  {
  }

  lemma {:induction false} UnmappedViews(k: State, cap: int, a: Memory, at: At)
    requires k in Sound(cap) && a in Views(k) && Get(k.ptes, at).p
    ensures k.ptes[at].frame in k.ref && a - {at} in Views(Unmapped(k, at))
  {
    OnlyOwner(k, cap, at);
    var f := k.ptes[at].frame;
    var k' := Unmapped(k, at);
    forall x | x != at
      ensures Content(k', x) == Content(k, x)
    {
      assert Names(Get(k.ptes, x), f) ==> x in Owners(k.ptes, f);
      UnmappedContent(k, at, x);
    }
    assert Get(k'.ptes, at) == NOPTE;
    ViewsUpdate(k, k', a, a - {at}, at);
  }

  /** After sharing, the child finds what the parent finds, and nobody else notices. */
  lemma {:induction false} SharedViews(k: State, a: Memory, at: At, child: At)
    requires a in Views(k) && Get(k.ptes, at).p && k.ptes[at].frame in k.ref && at != child
    ensures a[child := Look(a, at)] in Views(Shared(k, at, child))
  {
    assert Content(Shared(k, at, child), child) == Content(k, at);
    ViewsUpdate(k, Shared(k, at, child), a, a[child := Look(a, at)], child);
  }

  /** A change of the marks of an entry. */
  lemma {:induction false} RemarkViews(k: State, a: Memory, at: At, e: Pte)
    requires a in Views(k) && Get(k.ptes, at).p && e.p && e.frame == k.ptes[at].frame
    ensures a in Views(k.(ptes := k.ptes[at := e]))
  {
    ViewsSame(k, k.(ptes := k.ptes[at := e]), a);
  }

  /** After copy_on_write of a shared frame nobody notices, when the copy was made. */
  lemma {:induction false} ReplacedViews(k: State, cap: int, a: Memory, at: At, e: Pte)
    requires k in Sound(cap) && a in Views(k) && Get(k.ptes, at).p
    requires k.ptes[at].frame in k.ref && k.ref[k.ptes[at].frame] > 1 && k.ptes[at].frame in k.mem
    requires e.p && e.frame in k.mem && k.mem[e.frame] == k.mem[k.ptes[at].frame]
    ensures a in Views(Replaced(k, at, e))
  {
    ViewsSame(k, Replaced(k, at, e), a);
  }

  lemma {:induction false} ParkedViews(k: State, cap: int, a: Memory, a': Memory, at: At, e: Pte, slot: int, page: Page)
    requires k in Sound(cap) && a in Views(k) && e.s && !e.p && slot !in k.used
    requires a' - {at} == a - {at} && Look(a', at) == page
    ensures a' in Views(Parked(k, cap, at, e, slot, page))
  {
    var k' := Parked(k, cap, at, e, slot, page);
    forall x | x != at
      ensures Content(k', x) == Content(k, x)
    {
      assert x in k.swapped ==> SlotOk(k.ptes, k.swapped, k.used, k.slots, cap, x);
    }
    ViewsUpdate(k, k', a, a', at);
  }

  lemma {:induction false} DroppedViews(k: State, cap: int, a: Memory, at: At)
    requires k in Sound(cap) && a in Views(k) && at in k.swapped
    ensures a - {at} in Views(Dropped(k, cap, at))
  {
    var k' := Dropped(k, cap, at);
    forall x | x != at
      ensures Content(k', x) == Content(k, x)
    {
      assert !SameSlot(k.swapped, x, at);
    }
    ViewsUpdate(k, k', a, a - {at}, at);
  }

  /** A store through an unshared entry is seen in its page only. */
  lemma {:induction false} StoredViews(k: State, cap: int, a: Memory, at: At, page: Page)
    requires k in Sound(cap) && a in Views(k) && Get(k.ptes, at).p && !k.ptes[at].c
    ensures a[at := page] in Views(Stored(k, at, page))
  {
    OnlyOwner(k, cap, at);
    assert EntryOk(k.tabs, k.ref, k.swapped, at, k.ptes[at]);
    var f := k.ptes[at].frame;
    forall x | x != at
      ensures Content(Stored(k, at, page), x) == Content(k, x)
    {
      assert Names(Get(k.ptes, x), f) ==> x in Owners(k.ptes, f);
    }
    ViewsUpdate(k, Stored(k, at, page), a, a[at := page], at);
  }

  lemma {:induction false} TabViews(k: State, a: Memory, tabs: map<Tab, int>)
    requires a in Views(k)
    ensures a in Views(k.(tabs := tabs))
  {
    ViewsSame(k, k.(tabs := tabs), a);
  }

  lemma {:induction false} DevViews(k: State, a: Memory, dev: Device)
    requires a in Views(k)
    ensures a in Views(k.(dev := dev))
  {
    ViewsSame(k, k.(dev := dev), a);
  }
}
