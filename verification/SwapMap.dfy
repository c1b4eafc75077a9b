/** The map of swapped pages: bins of lists (unordered_map.c, LinkedList.c), as swapwrite_file,
    swapread_file and swapfree_file of fs.c use it.

    A node is keyed by the frame the page had and by its address. Once the frame is used again,
    another page may be swapped out under the same key; the list of page table entries in the
    node tells the two apart. A bin is the sequence of nodes of its list. */
module SwapMap {
  import opened Common
  import opened VmState

  /** PHYSTOP / PGSIZE. */
  const NBINS: int := 57344
  /** SwapMapHash (unordered_map.c:47-51); `end` is the physical address of the end of the kernel. */
  function Hash(end: int, pa: int, la: int): (h: int)
    ensures 0 <= h < NBINS
  {
    (la + (pa * PGSIZE - end) % TWO32 / PGSIZE) % NBINS
  }

  /** UnorderedMapGetBin (unordered_map.c:35-44): a missing bin is an empty one. */
  function BinAt(bins: Bins, h: int): seq<SwapNode>
  {
    if h in bins then bins[h] else []
  }

  // ----- What the bins stand for -----

  ghost predicate NodeOk(end: int, swapped: map<At, Entry>, h: int, n: SwapNode)
  {
    && |n.ptes| == 1 && n.ptes[0] in swapped && swapped[n.ptes[0]] == Entry(n.pa, n.slot) && n.ptes[0].page == n.la
    && h == Hash(end, n.pa, n.la)
  }

  /** Some node of the bin belongs to the entry. */
  ghost predicate Present(bin: seq<SwapNode>, x: At)
  {
    exists i :: 0 <= i < |bin| && bin[i].ptes == [x]
  }

  ghost predicate OneEach(bin: seq<SwapNode>)
  {
    forall i, j {:trigger bin[i], bin[j]} :: 0 <= i < j < |bin| ==> bin[i].ptes != bin[j].ptes
  }

  /** Every swapped entry is in exactly one node, in the bin of its key, and nothing else is in the
      bins. */
  ghost predicate Represents(end: int, bins: Bins, swapped: map<At, Entry>)
  {
    && (forall h, i {:trigger BinAt(bins, h)[i]} :: 0 <= i < |BinAt(bins, h)| ==>
       NodeOk(end, swapped, h, BinAt(bins, h)[i]))
    && (forall h {:trigger OneEach(BinAt(bins, h))} :: OneEach(BinAt(bins, h)))
    && (forall x {:trigger Present(BinAt(bins, Hash(end, swapped[x].pa, x.page)), x)} ::
          x in swapped ==> Present(BinAt(bins, Hash(end, swapped[x].pa, x.page)), x))
  }

  // ----- The code -----

  /** The bookkeeping of swapwrite_file (fs.c:912-937): a new node at the end of the bin. */
  method Insert(end: int, bins: Bins, x: At, pa: int, slot: int, ghost swapped: map<At, Entry>) returns (bins': Bins)
    requires Represents(end, bins, swapped) && x !in swapped
    ensures Represents(end, bins', swapped[x := Entry(pa, slot)])
  {
    var h := Hash(end, pa, x.page);
    var node := SwapNode(pa, x.page, slot, []);
    node := node.(ptes := node.ptes + [x]);
    assert node.ptes == [x];
    bins' := bins[h := BinAt(bins, h) + [node]];
    InsertKeeps(end, bins, x, pa, slot, swapped);
  }

  lemma {:induction false} InsertKeeps(end: int, bins: Bins, x: At, pa: int, slot: int, swapped: map<At, Entry>)
    requires Represents(end, bins, swapped) && x !in swapped
    ensures var h := Hash(end, pa, x.page);
            Represents(end, bins[h := BinAt(bins, h) + [SwapNode(pa, x.page, slot, [x])]],
              swapped[x := Entry(pa, slot)])
  {
    var h := Hash(end, pa, x.page);
    var bin, swapped' := BinAt(bins, h), swapped[x := Entry(pa, slot)];
    var bins' := bins[h := bin + [SwapNode(pa, x.page, slot, [x])]];
    forall g, i | 0 <= i < |BinAt(bins', g)|
      ensures NodeOk(end, swapped', g, BinAt(bins', g)[i])
    {
      if !(g == h && i == |bin|) {
        assert BinAt(bins', g)[i] == BinAt(bins, g)[i];
      }
    }
    forall g
      ensures OneEach(BinAt(bins', g))
    {
      assert OneEach(BinAt(bins, g));
      forall i | 0 <= i < |bin|
        ensures bin[i].ptes != [x]
      {
        assert NodeOk(end, swapped, h, BinAt(bins, h)[i]);
      }
    }
    forall y | y in swapped'
      ensures Present(BinAt(bins', Hash(end, swapped'[y].pa, y.page)), y)
    {
      var g := Hash(end, swapped'[y].pa, y.page);
      if y == x {
        assert BinAt(bins', h)[|bin|].ptes == [x];
      } else {
        assert Present(BinAt(bins, g), y);
        var i :| 0 <= i < |BinAt(bins, g)| && BinAt(bins, g)[i].ptes == [y];
        assert BinAt(bins', g)[i].ptes == [y];
      }
    }
  }

  /** The search of swapread_file and swapfree_file (fs.c:1024-1045, fs.c:1120-1145): among the nodes
      with the key, the one that lists the entry. */
  method Find(bin: seq<SwapNode>, x: At, pa: int) returns (i: int)
    ensures 0 <= i <= |bin|
    ensures i < |bin| ==> bin[i].pa == pa && bin[i].la == x.page && x in bin[i].ptes
    ensures forall j :: 0 <= j < i ==> !(bin[j].pa == pa && bin[j].la == x.page && x in bin[j].ptes)
  {
    i := 0;
    while i < |bin|
      invariant 0 <= i <= |bin|
      invariant forall j :: 0 <= j < i ==> !(bin[j].pa == pa && bin[j].la == x.page && x in bin[j].ptes)
    {
      if bin[i].pa == pa && bin[i].la == x.page {
        if x in bin[i].ptes {
          return;
        }
      }
      i := i + 1;
    }
  }

  /** The bookkeeping of swapread_file (fs.c:1013-1076): the node of the entry is found, whatever other
      nodes have the same key, and removed. A panic when there is none. */
  method Remove(end: int, bins: Bins, x: At, pa: int, ghost swapped: map<At, Entry>)
    returns (bins': Bins, slot: Option<int>)
    requires Represents(end, bins, swapped)
    ensures slot.Some? <==> x in swapped && swapped[x].pa == pa
    ensures slot.Some? ==> slot.value == swapped[x].slot && Represents(end, bins', swapped - {x})
    ensures slot.None? ==> bins' == bins
  {
    var h := Hash(end, pa, x.page);
    var bin := BinAt(bins, h);
    var i := Find(bin, x, pa);
    if x in swapped && swapped[x].pa == pa {
      assert Present(BinAt(bins, Hash(end, swapped[x].pa, x.page)), x);
      ghost var k :| 0 <= k < |bin| && bin[k].ptes == [x];
      assert NodeOk(end, swapped, h, BinAt(bins, h)[k]);
      assert x in bin[k].ptes;
    }
    if i == |bin| {
      return bins, None;
    }
    assert NodeOk(end, swapped, h, BinAt(bins, h)[i]);
    assert bin[i].ptes == [x];
    RemoveKeeps(end, bins, h, i, x, swapped);
    return bins[h := bin[..i] + bin[i + 1..]], Some(bin[i].slot);
  }

  lemma {:induction false} RemoveKeeps(end: int, bins: Bins, h: int, i: int, x: At, swapped: map<At, Entry>)
    requires Represents(end, bins, swapped) && 0 <= i < |BinAt(bins, h)| && BinAt(bins, h)[i].ptes == [x]
    ensures Represents(end, bins[h := BinAt(bins, h)[..i] + BinAt(bins, h)[i + 1..]], swapped - {x})
  {
    var bin, swapped' := BinAt(bins, h), swapped - {x};
    var bins' := bins[h := bin[..i] + bin[i + 1..]];
    forall g, k | 0 <= k < |BinAt(bins', g)|
      ensures NodeOk(end, swapped', g, BinAt(bins', g)[k])
    {
      RemovedNode(end, bins, h, i, x, swapped, g, k);
    }
    forall g
      ensures OneEach(BinAt(bins', g))
    {
      assert OneEach(BinAt(bins, g));
      if g == h {
        RemovedOnce(bin, i);
      }
    }
    forall y | y in swapped'
      ensures Present(BinAt(bins', Hash(end, swapped'[y].pa, y.page)), y)
    {
      var g := Hash(end, swapped[y].pa, y.page);
      assert Present(BinAt(bins, g), y);
      if g == h {
        RemovedPresent(bin, i, x, y);
      }
    }
  }

  lemma {:induction false} RemovedNode(end: int, bins: Bins, h: int, i: int, x: At, swapped: map<At, Entry>, g: int,
                                       k: int)
    requires Represents(end, bins, swapped) && 0 <= i < |BinAt(bins, h)| && BinAt(bins, h)[i].ptes == [x]
    requires 0 <= k < |BinAt(bins[h := BinAt(bins, h)[..i] + BinAt(bins, h)[i + 1..]], g)|
    ensures NodeOk(end, swapped - {x}, g, BinAt(bins[h := BinAt(bins, h)[..i] + BinAt(bins, h)[i + 1..]], g)[k])
  {
    var bins' := bins[h := BinAt(bins, h)[..i] + BinAt(bins, h)[i + 1..]];
    var k' := if g == h && k >= i then k + 1 else k;
    var n := BinAt(bins, g)[k'];
    assert BinAt(bins', g)[k] == n;
    assert NodeOk(end, swapped, g, BinAt(bins, g)[k']) && NodeOk(end, swapped, h, BinAt(bins, h)[i]);
    assert n.ptes[0] != x by {
      assert OneEach(BinAt(bins, h));
      assert n.ptes == [n.ptes[0]];
    }
  }

  lemma {:induction false} RemovedOnce(bin: seq<SwapNode>, i: int)
    requires OneEach(bin) && 0 <= i < |bin|
    ensures OneEach(bin[..i] + bin[i + 1..])
  {
  }

  lemma {:induction false} RemovedPresent(bin: seq<SwapNode>, i: int, x: At, y: At)
    requires Present(bin, y) && 0 <= i < |bin| && bin[i].ptes == [x] && x != y
    ensures Present(bin[..i] + bin[i + 1..], y)
  {
    var k :| 0 <= k < |bin| && bin[k].ptes == [y];
    assert [x][0] != [y][0];
    assert (bin[..i] + bin[i + 1..])[if k > i then k - 1 else k].ptes == [y];
  }

  /** The bookkeeping of swapfree_file (fs.c:1109-1158): the entry leaves the list of its node, and the
      node goes when that was its last entry, which it always is. */
  method Free(end: int, bins: Bins, x: At, pa: int, ghost swapped: map<At, Entry>)
    returns (bins': Bins, slot: Option<int>)
    requires Represents(end, bins, swapped)
    ensures slot.Some? <==> x in swapped && swapped[x].pa == pa
    ensures slot.Some? ==> slot.value == swapped[x].slot && Represents(end, bins', swapped - {x})
  {
    var h := Hash(end, pa, x.page);
    var bin := BinAt(bins, h);
    var i := Find(bin, x, pa);
    if x in swapped && swapped[x].pa == pa {
      assert Present(BinAt(bins, Hash(end, swapped[x].pa, x.page)), x);
      ghost var k :| 0 <= k < |bin| && bin[k].ptes == [x];
      assert NodeOk(end, swapped, h, BinAt(bins, h)[k]);
      assert x in bin[k].ptes;
    }
    if i == |bin| {
      return bins, None;
    }
    assert NodeOk(end, swapped, h, BinAt(bins, h)[i]);
    assert bin[i].ptes == [x];
    RemoveKeeps(end, bins, h, i, x, swapped);
    var ptes := Without(bin[i].ptes, x);
    var left := bin[i := bin[i].(ptes := ptes)];
    if |ptes| == 0 {
      left := left[..i] + left[i + 1..];
    }
    assert left == bin[..i] + bin[i + 1..];
    return bins[h := left], Some(bin[i].slot);
  }

  /** The list without the first occurrence of an entry. */
  function Without(ptes: seq<At>, x: At): (r: seq<At>)
    ensures x in ptes ==> |r| == |ptes| - 1
  {
    if ptes == [] then [] else if ptes[0] == x then ptes[1..] else [ptes[0]] + Without(ptes[1..], x)
  }
}
