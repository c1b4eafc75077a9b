/** What a sound memory state promises, in the words of those who rely on it. */
module VmTheorems {
  import opened Common
  import opened VmState
  import opened VmContents
  import opened VmOps
  import SwapFile
  import SwapMap

  /** How often a frame is on the free list. */
  function Occurrences(l: FreeList, f: int): nat
  {
    match l
    case Nil => 0
    case Run(g, next) => (if g == f then 1 else 0) + Occurrences(next, f)
  }

  lemma {:induction false} OccursOnce(l: FreeList, f: int)
    requires NoDup(l)
    ensures Occurrences(l, f) == if f in Elems(l) then 1 else 0
    decreases l
  {
    if l.Run? {
      OccursOnce(l.next, f);
    }
  }

  /** A frame is on the free list, exactly once, if and only if its count is 0; otherwise its count
      is the number of page table entries that name it, or 1 when the kernel holds it. */
  lemma {:induction false} FrameAccounting(k: State, cap: int, f: int)
    requires k in Sound(cap) && f in k.ref
    ensures Occurrences(k.free, f) == if k.ref[f] == 0 then 1 else 0
    ensures k.ref[f] == |Owners(k.ptes, f)| || (k.ref[f] == 1 && Owners(k.ptes, f) == {})
  {
    OccursOnce(k.free, f);
    assert f in Elems(k.free) <==> k.ref[f] == 0;
    assert Counted(k.ptes, k.ref, f);
  }

  /** A present entry that is not marked copy-on-write is the only one that names its frame, so what
      swap picks is never shared. */
  lemma {:induction false} UnmarkedIsAlone(k: State, cap: int, at: At)
    requires k in Sound(cap) && Get(k.ptes, at).p && !k.ptes[at].c
    ensures k.ptes[at].frame in k.ref && k.ref[k.ptes[at].frame] == 1 && Owners(k.ptes, k.ptes[at].frame) == {at}
  {
    assert EntryOk(k.tabs, k.ref, k.swapped, at, k.ptes[at]);
    OnlyOwner(k, cap, at);
  }

  // ----- Swap bookkeeping -----

  ghost function SlotsOf(swapped: map<At, Entry>): set<int>
  {
    set at | at in swapped :: swapped[at].slot
  }

  lemma {:induction false} SlotsOfCount(swapped: map<At, Entry>)
    requires forall x, y {:trigger SameSlot(swapped, x, y)} :: SameSlot(swapped, x, y) ==> x == y
    ensures |SlotsOf(swapped)| == |swapped|
    decreases |swapped|
  {
    if swapped.Keys == {} {
      assert SlotsOf(swapped) == {};
    } else {
      var x :| x in swapped.Keys;
      var rest := swapped - {x};
      forall y, z | SameSlot(rest, y, z)
        ensures y == z
      {
        assert SameSlot(swapped, y, z);
      }
      SlotsOfCount(rest);
      assert rest.Keys == swapped.Keys - {x};
      forall y | y in rest
        ensures swapped[y].slot != swapped[x].slot
      {
        assert !SameSlot(swapped, x, y);
      }
      forall s
        ensures s in SlotsOf(swapped) <==> s in SlotsOf(rest) + {swapped[x].slot}
      {
        if s in SlotsOf(swapped) && s != swapped[x].slot {
          var y :| y in swapped && swapped[y].slot == s;
          assert y in rest && rest[y].slot == s;
        }
        if s in SlotsOf(rest) {
          var y :| y in rest && rest[y].slot == s;
          assert y in swapped && swapped[y].slot == s;
        }
      }
      assert swapped[x].slot !in SlotsOf(rest);
      assert SlotsOf(swapped) == SlotsOf(rest) + {swapped[x].slot};
    }
  }

  /** Entries marked swapped, nodes of the swap map, slots and set bits correspond one to one: the
      marked entries are the keys of the map, each keyed by the frame it still names, and the set
      bits are its slots, as many as there are entries. */
  lemma {:induction false} SwapBijection(k: State, cap: int)
    requires k in Sound(cap)
    ensures forall at :: Get(k.ptes, at).s <==> at in k.swapped
    ensures forall at :: at in k.swapped ==> at in k.ptes && k.swapped[at].pa == k.ptes[at].frame && !k.ptes[at].p
    ensures k.used == SlotsOf(k.swapped) && |k.used| == |k.swapped|
  {
    forall at
      ensures Get(k.ptes, at).s <==> at in k.swapped
      ensures at in k.swapped ==>
              at in k.ptes && k.swapped[at].pa == k.ptes[at].frame && !k.ptes[at].p && k.swapped[at].slot in k.used
    {
      assert at in k.ptes ==> EntryOk(k.tabs, k.ref, k.swapped, at, k.ptes[at]);
      assert at in k.swapped ==> SlotOk(k.ptes, k.swapped, k.used, k.slots, cap, at);
    }
    forall s | s in k.used
      ensures s in SlotsOf(k.swapped)
    {
      assert Owned(k.swapped, s);
    }
    SlotsOfCount(k.swapped);
  }

  /** The node is in some bin of the swap map. */
  ghost predicate InBins(bins: Bins, n: SwapNode)
  {
    exists h, i {:trigger SwapMap.BinAt(bins, h)[i]} ::
      0 <= i < |SwapMap.BinAt(bins, h)| && SwapMap.BinAt(bins, h)[i] == n
  }

  /** A node belongs to a marked entry, which still names the frame it is keyed by, and its slot is in
      use. */
  lemma {:induction false} NodeIs(k: State, cap: int, a: Memory, n: SwapNode)
    requires a in Refined(k, cap) && InBins(k.dev.bins, n)
    ensures |n.ptes| == 1 && n.ptes[0] in k.swapped && k.swapped[n.ptes[0]] == Entry(n.pa, n.slot)
    ensures Get(k.ptes, n.ptes[0]).s && k.ptes[n.ptes[0]].frame == n.pa && n.ptes[0].page == n.la
    ensures SwapFile.Valid(k.dev.file) && 0 <= n.slot < 8 * k.dev.file.bmap && SwapFile.UsedBit(k.dev.file, n.slot)
  {
    var h, i :| 0 <= i < |SwapMap.BinAt(k.dev.bins, h)| && SwapMap.BinAt(k.dev.bins, h)[i] == n;
    assert SwapMap.NodeOk(k.dev.end, k.swapped, h, SwapMap.BinAt(k.dev.bins, h)[i]);
    var at := n.ptes[0];
    assert SlotOk(k.ptes, k.swapped, k.used, k.slots, cap, at);
    assert at in k.ptes && EntryOk(k.tabs, k.ref, k.swapped, at, k.ptes[at]);
    assert n.slot in PagesOf(k.used, k.slots);
    assert SwapFile.UsedBit(k.dev.file, n.slot) <==> n.slot in PagesOf(k.used, k.slots);
  }

  /** A marked entry has its node. */
  lemma {:induction false} NodeOf(k: State, cap: int, a: Memory, at: At)
    requires a in Refined(k, cap) && at in k.swapped
    ensures InBins(k.dev.bins, SwapNode(k.swapped[at].pa, at.page, k.swapped[at].slot, [at]))
  {
    var h := SwapMap.Hash(k.dev.end, k.swapped[at].pa, at.page);
    var bin := SwapMap.BinAt(k.dev.bins, h);
    assert SwapMap.Present(bin, at);
    var i :| 0 <= i < |bin| && bin[i].ptes == [at];
    assert SwapMap.NodeOk(k.dev.end, k.swapped, h, SwapMap.BinAt(k.dev.bins, h)[i]);
    assert [at][0] == at;
    assert SwapMap.BinAt(k.dev.bins, h)[i] == SwapNode(k.swapped[at].pa, at.page, k.swapped[at].slot, [at]);
  }

  /** The same on the device: marked entries, nodes in the bins and set bits of the file correspond one to
      one, each node keyed by the frame its entry still names. */
  lemma {:induction false} DeviceBijection(k: State, cap: int, a: Memory)
    requires a in Refined(k, cap)
    ensures SwapFile.Valid(k.dev.file)
    ensures forall n {:trigger InBins(k.dev.bins, n)} :: InBins(k.dev.bins, n) ==>
              && |n.ptes| == 1 && Get(k.ptes, n.ptes[0]).s && k.ptes[n.ptes[0]].frame == n.pa && n.ptes[0].page == n.la
              && 0 <= n.slot < 8 * k.dev.file.bmap && SwapFile.UsedBit(k.dev.file, n.slot)
    ensures forall n, m {:trigger InBins(k.dev.bins, n), InBins(k.dev.bins, m)} ::
              InBins(k.dev.bins, n) && InBins(k.dev.bins, m) && n.slot == m.slot ==> n == m
    ensures forall at {:trigger Get(k.ptes, at)} :: Get(k.ptes, at).s ==>
              at in k.swapped && InBins(k.dev.bins, SwapNode(k.ptes[at].frame, at.page, k.swapped[at].slot, [at]))
    ensures forall i {:trigger SwapFile.UsedBit(k.dev.file, i)} ::
              0 <= i < 8 * k.dev.file.bmap && SwapFile.UsedBit(k.dev.file, i) ==>
                exists n :: InBins(k.dev.bins, n) && n.slot == i
  {
    SwapBijection(k, cap);
    forall n | InBins(k.dev.bins, n)
      ensures |n.ptes| == 1 && Get(k.ptes, n.ptes[0]).s && k.ptes[n.ptes[0]].frame == n.pa && n.ptes[0].page == n.la
      ensures 0 <= n.slot < 8 * k.dev.file.bmap && SwapFile.UsedBit(k.dev.file, n.slot)
    {
      NodeIs(k, cap, a, n);
    }
    forall n, m | InBins(k.dev.bins, n) && InBins(k.dev.bins, m) && n.slot == m.slot
      ensures n == m
    {
      OneNode(k, cap, a, n, m);
    }
    forall at | Get(k.ptes, at).s
      ensures InBins(k.dev.bins, SwapNode(k.ptes[at].frame, at.page, k.swapped[at].slot, [at]))
    {
      NodeOf(k, cap, a, at);
    }
    forall i | 0 <= i < 8 * k.dev.file.bmap && SwapFile.UsedBit(k.dev.file, i)
      ensures exists n :: InBins(k.dev.bins, n) && n.slot == i
    {
      NodeOfBit(k, cap, a, i);
    }
  }

  lemma {:induction false} OneNode(k: State, cap: int, a: Memory, n: SwapNode, m: SwapNode)
    requires a in Refined(k, cap) && InBins(k.dev.bins, n) && InBins(k.dev.bins, m) && n.slot == m.slot
    ensures n == m
  {
    NodeIs(k, cap, a, n);
    NodeIs(k, cap, a, m);
    assert SameSlot(k.swapped, n.ptes[0], m.ptes[0]);
    assert n.ptes == [n.ptes[0]] && m.ptes == [m.ptes[0]];
  }

  lemma {:induction false} NodeOfBit(k: State, cap: int, a: Memory, i: int)
    requires a in Refined(k, cap) && SwapFile.Valid(k.dev.file) && 0 <= i < 8 * k.dev.file.bmap
    requires SwapFile.UsedBit(k.dev.file, i)
    ensures exists n :: InBins(k.dev.bins, n) && n.slot == i
  {
    assert i in PagesOf(k.used, k.slots);
    assert i in k.used && Owned(k.swapped, i);
    var at :| at in k.swapped && k.swapped[at].slot == i;
    NodeOf(k, cap, a, at);
    assert SwapNode(k.swapped[at].pa, at.page, i, [at]).slot == i;
  }

  /** A slot that fits holds the page: what went out is what a restore brings back. */
  lemma {:induction false} RestoreBringsBack(k: State, cap: int, a: Memory, at: At, slot: int)
    requires a in Refined(k, cap) && Get(k.ptes, at).p && !k.ptes[at].c && slot !in k.used && slot < cap && k.free.Run?
    ensures k.ptes[at].frame in k.ref && k.ptes[at].frame in k.mem
    ensures var k1 := SwappedOut(k, cap, at, slot);
            && k1.free.Run? && at in k1.ptes && at in k1.swapped && k1.swapped[at].slot in k1.slots
            && Content(SwappedIn(k1, cap, at), at) == Content(k, at) == Some(Look(a, at))
  {
    PresentFacts(k, cap, a, at);
    assert Matches(Content(k, at), Look(a, at));
    SwappedOutSound(k, cap, a, at, slot);
    var k1 := SwappedOut(k, cap, at, slot);
    SwappedInSound(k1, cap, a, at);
    var k2 := SwappedIn(k1, cap, at);
    assert Matches(Content(k2, at), Look(a, at));
  }
}
