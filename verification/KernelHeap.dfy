/** The kernel heap of kalloc.c: kmalloc, kmallocfree and morecore over a circular free list
    kept in address order.

    Addresses count headers of 8 bytes. Every block, free or live, starts with its header. */
module KernelHeap {
  import opened Common
  import opened Sums

  const UNITS: int := 512
  const BASE: int := 0

  // ----- Blocks -----

  /** Blocks do not overlap, and no two free blocks touch. */
  ghost predicate Apart(blocks: map<int, int>, free: set<int>)
  {
    forall x, y {:trigger blocks[x], blocks[y]} :: x in blocks && y in blocks && x < y ==>
      x + blocks[x] <= y && (x in free && y in free ==> x + blocks[x] < y)
  }

  /** The successor of a free block is the next one by address, or the base after the last. */
  ghost predicate Link(ptr: map<int, int>, free: set<int>, x: int)
  {
    x in ptr && ptr[x] in free &&
    (forall y :: y in free ==> y <= x || (x < ptr[x] <= y)) &&
    (ptr[x] <= x ==> ptr[x] == BASE)
  }

  ghost predicate Ring(ptr: map<int, int>, free: set<int>)
  {
    BASE in free && forall x {:trigger Link(ptr, free, x)} :: x in free ==> Link(ptr, free, x)
  }

  /** The headers agree with the blocks; only the base is empty; blocks lie in pages obtained. */
  ghost predicate BlockOk(size: map<int, int>, blocks: map<int, int>, pages: set<int>, x: int)
    requires x in blocks
  {
    && x in size && size[x] == blocks[x]
    && (x == BASE ==> blocks[x] == 0)
    && (x != BASE ==> blocks[x] >= 1 && x >= UNITS)
    && (forall u :: x <= u < x + blocks[x] ==> PageOf(u) in pages)
  }

  function PageOf(u: int): int
  {
    u / UNITS
  }

  ghost predicate BlocksOk(size: map<int, int>, blocks: map<int, int>, pages: set<int>)
  {
    forall x {:trigger BlockOk(size, blocks, pages, x)} :: x in blocks ==> BlockOk(size, blocks, pages, x)
  }

  /** The headers of the heap with what they stand for: all blocks, which of them are free, and
      the pages obtained from kalloc. */
  datatype Arena = Arena(ptr: map<int, int>, size: map<int, int>, blocks: map<int, int>, free: set<int>,
    pages: set<int>)

  ghost predicate HeapOk(h: Arena)
  {
    && h.free <= h.blocks.Keys && Ring(h.ptr, h.free) && Apart(h.blocks, h.free) && BlocksOk(h.size, h.blocks, h.pages)
    && Sum(h.blocks) == UNITS * |h.pages|
  }

  /** The sound heaps. A set and not a predicate: where a predicate is checked the verifier takes it
      apart into its conjuncts, while most proofs only pass membership on. */
  ghost function Sound(): iset<Arena>
  {
    iset h: Arena | HeapOk(h)
  }

  /** The live blocks: header address to units. */
  ghost function Live(h: Arena): map<int, int>
  {
    map x | x in h.blocks && x !in h.free :: h.blocks[x]
  }

  // ----- Changes of the ring -----

  /** A block that lies between `p` and its successor enters the ring after `p`. */
  lemma {:induction false} RingInsert(ptr: map<int, int>, ptr': map<int, int>, free: set<int>, p: int, b: int)
    requires Ring(ptr, free) && p in free && p in ptr && b !in free && p < b && (ptr[p] > b || ptr[p] <= p)
    requires b in ptr' && p in ptr' && ptr'[b] == ptr[p] && ptr'[p] == b
    requires forall x :: x in ptr && x in free && x != p ==> x in ptr' && ptr'[x] == ptr[x]
    ensures Ring(ptr', free + {b})
  {
    assert Link(ptr, free, p);
    forall x | x in free + {b}
      ensures Link(ptr', free + {b}, x)
    {
      assert x in free ==> Link(ptr, free, x);
    }
  }

  /** The successor of `p` leaves the ring. */
  lemma {:induction false} RingRemove(ptr: map<int, int>, ptr': map<int, int>, free: set<int>, p: int)
    requires Ring(ptr, free) && p in free && p in ptr && ptr[p] != BASE && ptr[p] in ptr
    requires p in ptr' && ptr'[p] == ptr[ptr[p]]
    requires forall x :: x in ptr && x in free && x != p ==> x in ptr' && ptr'[x] == ptr[x]
    ensures Ring(ptr', free - {ptr[p]})
  {
    var q := ptr[p];
    assert Link(ptr, free, p) && Link(ptr, free, q);
    forall x | x in free - {q}
      ensures Link(ptr', free - {q}, x)
    {
      assert Link(ptr, free, x);
    }
  }

  lemma {:induction false} RingSame(ptr: map<int, int>, ptr': map<int, int>, free: set<int>)
    requires Ring(ptr, free) && forall x :: x in ptr && x in free ==> x in ptr' && ptr'[x] == ptr[x]
    ensures Ring(ptr', free)
  {
    forall x | x in free
      ensures Link(ptr', free, x)
    {
      assert Link(ptr, free, x);
    }
  }

  // ----- Changes of the blocks -----

  /** Two blocks that touch become one, at the address of the first. */
  ghost function Joined(blocks: map<int, int>, x: int, y: int): map<int, int>
    requires x in blocks && y in blocks
  {
    (blocks - {y})[x := blocks[x] + blocks[y]]
  }

  lemma {:induction false} JoinedApart(blocks: map<int, int>, free: set<int>, x: int, y: int)
    requires Apart(blocks, free) && x in blocks && y in blocks && x + blocks[x] == y && y !in free &&
             blocks[x] >= 0 && blocks[y] >= 1
    requires x in free ==> forall z :: z in free && z > y && z in blocks ==> y + blocks[y] < z
    ensures Apart(Joined(blocks, x, y), free)
  {
    var b := Joined(blocks, x, y);
    forall u, v | u in b && v in b && u < v
      ensures u + b[u] <= v && (u in free && v in free ==> u + b[u] < v)
    {
      assert u in blocks && v in blocks;
      assert blocks[y] == blocks[y] && blocks[x] == blocks[x] && blocks[u] == blocks[u] && blocks[v] == blocks[v];
    }
  }

  lemma {:induction false} JoinedOk(size: map<int, int>, size': map<int, int>, blocks: map<int, int>,
                                    pages: set<int>, x: int, y: int)
    requires BlocksOk(size, blocks, pages) && x in blocks && y in blocks && x + blocks[x] == y && x != BASE &&
             y != BASE && x != y
    requires x in size' && size'[x] == blocks[x] + blocks[y]
    requires forall z :: z in blocks && z in size && z != x && z != y ==> z in size' && size'[z] == size[z]
    ensures BlocksOk(size', Joined(blocks, x, y), pages) && Sum(Joined(blocks, x, y)) == Sum(blocks)
  {
    var b := Joined(blocks, x, y);
    assert BlockOk(size, blocks, pages, x) && BlockOk(size, blocks, pages, y);
    forall z | z in b
      ensures BlockOk(size', b, pages, z)
    {
      assert BlockOk(size, blocks, pages, z);
    }
    SumRemove(blocks, y);
    SumPut(blocks - {y}, x, blocks[x] + blocks[y]);
  }

  /** A block is cut in two, at the end of its first `n` units. */
  ghost function Cut(blocks: map<int, int>, x: int, n: int): map<int, int>
    requires x in blocks
  {
    blocks[x := n][x + n := blocks[x] - n]
  }

  lemma {:induction false} CutApart(blocks: map<int, int>, free: set<int>, x: int, n: int)
    requires Apart(blocks, free) && x in blocks && 0 < n < blocks[x] && free <= blocks.Keys
    requires forall z :: z in blocks ==> blocks[z] >= 0
    ensures x + n !in blocks && Apart(Cut(blocks, x, n), free)
  {
    forall z | z in blocks && z > x
      ensures x + blocks[x] <= z
    {
      var w := blocks[z];
    }
    var b := Cut(blocks, x, n);
    forall u, v | u in b && v in b && u < v
      ensures u + b[u] <= v && (u in free && v in free ==> u + b[u] < v)
    {
      if u in blocks && v in blocks {
        var w, w' := blocks[u], blocks[v];
      }
    }
  }

  lemma {:induction false} CutOk(size: map<int, int>, size': map<int, int>, blocks: map<int, int>, pages: set<int>,
                                 x: int, n: int)
    requires BlocksOk(size, blocks, pages) && x in blocks && x != BASE && 0 < n < blocks[x] && x + n !in blocks
    requires x in size' && size'[x] == n && x + n in size' && size'[x + n] == blocks[x] - n
    requires forall z :: z in blocks && z in size && z != x ==> z in size' && size'[z] == size[z]
    ensures BlocksOk(size', Cut(blocks, x, n), pages) && Sum(Cut(blocks, x, n)) == Sum(blocks)
  {
    var b := Cut(blocks, x, n);
    assert BlockOk(size, blocks, pages, x);
    forall z | z in b
      ensures BlockOk(size', b, pages, z)
    {
      assert z in blocks ==> BlockOk(size, blocks, pages, z);
    }
    SumPut(blocks, x, n);
    SumPut(blocks[x := n], x + n, blocks[x] - n);
  }

  /** No block reaches into a page that was not obtained. */
  lemma {:induction false} NotInPage(size: map<int, int>, blocks: map<int, int>, pages: set<int>, f: int, z: int)
    requires z in blocks && BlockOk(size, blocks, pages, z) && f >= 1 && f !in pages
    ensures z != f * UNITS
    ensures z < f * UNITS ==> z + blocks[z] <= f * UNITS
    ensures z > f * UNITS ==> (f + 1) * UNITS <= z
  {
    assert PageOf(f * UNITS) == f;
    assert f * UNITS <= z < (f + 1) * UNITS ==> PageOf(z) == f;
  }

  /** A page from kalloc, not seen before, is one more block. */
  lemma {:induction false} PageOk(size: map<int, int>, blocks: map<int, int>, free: set<int>, pages: set<int>, f: int)
    requires Apart(blocks, free) && BlocksOk(size, blocks, pages) && f >= 1 && f !in pages && free <= blocks.Keys
    ensures f * UNITS !in blocks && Sum(blocks[f * UNITS := UNITS]) == Sum(blocks) + UNITS
    ensures Apart(blocks[f * UNITS := UNITS], free) && BlocksOk(size[f * UNITS := UNITS], blocks[f * UNITS := UNITS],
            pages + {f})
  {
    var x := f * UNITS;
    var b, size' := blocks[x := UNITS], size[x := UNITS];
    forall z | z in blocks
      ensures z != x && (z < x ==> z + blocks[z] <= x) && (z > x ==> x + UNITS <= z)
      ensures BlockOk(size', b, pages + {f}, z)
    {
      assert BlockOk(size, blocks, pages, z);
      NotInPage(size, blocks, pages, f, z);
    }
    assert BlockOk(size', b, pages + {f}, x) by {
      assert forall u :: x <= u < x + UNITS ==> PageOf(u) == f;
    }
    SumPut(blocks, x, UNITS);
  }

  // ----- What freeing does -----

  /** `bp` is a live block that belongs between the free block `p` and its successor. */
  ghost predicate Belongs(h: Arena, p: int, bp: int)
  {
    && p in h.free && p in h.ptr && p in h.blocks && p in h.size && bp in h.blocks && bp in h.size && bp !in h.free
    && p < bp && (h.ptr[p] > bp || h.ptr[p] <= p)
  }

  lemma {:induction false} BelongsFacts(h: Arena, p: int, bp: int)
    requires h in Sound() && Belongs(h, p, bp)
    ensures Link(h.ptr, h.free, p) && BlockOk(h.size, h.blocks, h.pages, bp) && BlockOk(h.size, h.blocks, h.pages, p)
    ensures h.ptr[p] in h.blocks && h.ptr[p] in h.ptr && BlockOk(h.size, h.blocks, h.pages, h.ptr[p]) &&
            Link(h.ptr, h.free, h.ptr[p])
  {
    assert Link(h.ptr, h.free, p);
    assert Link(h.ptr, h.free, h.ptr[p]);
  }

  /** A live block takes in the free block right after it. */
  ghost function TookUpper(h: Arena, p: int, bp: int): Arena
    requires Belongs(h, p, bp) && h.ptr[p] in h.blocks && h.ptr[p] in h.ptr
  {
    var q := h.ptr[p];
    Arena(h.ptr[p := h.ptr[q]], h.size[bp := h.blocks[bp] + h.blocks[q]], Joined(h.blocks, bp, q), h.free - {q},
      h.pages)
  }

  lemma {:induction false} TookUpperSound(h: Arena, p: int, bp: int)
    requires h in Sound() && Belongs(h, p, bp) && bp + h.blocks[bp] == h.ptr[p]
    ensures h.ptr[p] in h.blocks && h.ptr[p] in h.ptr
    ensures var h' := TookUpper(h, p, bp);
            && h' in Sound() && Belongs(h', p, bp) && bp + h'.blocks[bp] != h'.ptr[p]
            && Live(h') - {bp} == Live(h) - {bp} && h'.blocks[p] == h.blocks[p]
  {
    BelongsFacts(h, p, bp);
    var q := h.ptr[p];
    RingRemove(h.ptr, h.ptr[p := h.ptr[q]], h.free, p);
    assert Apart(h.blocks, h.free - {q});
    JoinedApart(h.blocks, h.free - {q}, bp, q);
    JoinedOk(h.size, h.size[bp := h.blocks[bp] + h.blocks[q]], h.blocks, h.pages, bp, q);
    var w := h.blocks[h.ptr[q]];
  }

  /** A live block that touches no free block joins the ring. */
  ghost function LinkedIn(h: Arena, p: int, bp: int): Arena
    requires Belongs(h, p, bp)
  {
    h.(ptr := h.ptr[bp := h.ptr[p]][p := bp], free := h.free + {bp})
  }

  lemma {:induction false} LinkedInSound(h: Arena, p: int, bp: int)
    requires h in Sound() && Belongs(h, p, bp) && bp + h.blocks[bp] != h.ptr[p] && p + h.blocks[p] != bp
    ensures LinkedIn(h, p, bp) in Sound() && Live(LinkedIn(h, p, bp)) == Live(h) - {bp}
  {
    BelongsFacts(h, p, bp);
    RingInsert(h.ptr, h.ptr[bp := h.ptr[p]][p := bp], h.free, p, bp);
    LinkedInApart(h, p, bp);
  }

  lemma {:induction false} LinkedInApart(h: Arena, p: int, bp: int)
    requires Belongs(h, p, bp) && bp + h.blocks[bp] != h.ptr[p] && p + h.blocks[p] != bp
    requires Apart(h.blocks, h.free) && Link(h.ptr, h.free, p) && h.ptr[p] in h.blocks && h.blocks[p] >= 0
    ensures Apart(h.blocks, h.free + {bp})
  {
    forall x | x in h.blocks && x in h.free
      ensures x < bp ==> x + h.blocks[x] < bp
      ensures x > bp ==> bp + h.blocks[bp] < x
    {
      var w, w', w'' := h.blocks[x], h.blocks[p], h.blocks[h.ptr[p]];
    }
  }

  /** A live block joins the free block right before it. */
  ghost function TookLower(h: Arena, p: int, bp: int): Arena
    requires Belongs(h, p, bp)
  {
    h.(size := h.size[p := h.blocks[p] + h.blocks[bp]], blocks := Joined(h.blocks, p, bp))
  }

  lemma {:induction false} TookLowerSound(h: Arena, p: int, bp: int)
    requires h in Sound() && Belongs(h, p, bp) && bp + h.blocks[bp] != h.ptr[p] && p + h.blocks[p] == bp
    ensures TookLower(h, p, bp) in Sound() && Live(TookLower(h, p, bp)) == Live(h) - {bp}
  {
    BelongsFacts(h, p, bp);
    AfterLast(h, p, bp);
    LowerBlocks(h.size, h.blocks, h.free, h.pages, p, bp);
    LowerLive(h, p, bp);
    assert h.free <= Joined(h.blocks, p, bp).Keys;
  }

  lemma {:induction false} LowerBlocks(size: map<int, int>, blocks: map<int, int>, free: set<int>, pages: set<int>,
                                       p: int, bp: int)
    requires Apart(blocks, free) && BlocksOk(size, blocks, pages) && p in blocks && bp in blocks && bp !in free &&
             p + blocks[p] == bp && p < bp
    requires p in size && bp in size && bp != BASE && BlockOk(size, blocks, pages, bp) &&
             BlockOk(size, blocks, pages, p)
    requires forall z :: z in free && z > bp && z in blocks ==> bp + blocks[bp] < z
    ensures Apart(Joined(blocks, p, bp), free) && BlocksOk(size[p := blocks[p] + blocks[bp]], Joined(blocks, p, bp),
            pages)
    ensures Sum(Joined(blocks, p, bp)) == Sum(blocks)
  {
    JoinedApart(blocks, free, p, bp);
    JoinedOk(size, size[p := blocks[p] + blocks[bp]], blocks, pages, p, bp);
  }

  lemma {:induction false} LowerLive(h: Arena, p: int, bp: int)
    requires Belongs(h, p, bp)
    ensures Live(TookLower(h, p, bp)) == Live(h) - {bp}
  {
  }

  lemma {:induction false} AfterLast(h: Arena, p: int, bp: int)
    requires Apart(h.blocks, h.free) && Belongs(h, p, bp) && Link(h.ptr, h.free, p) && h.ptr[p] in h.blocks &&
             bp + h.blocks[bp] != h.ptr[p]
    ensures forall z :: z in h.free && z > bp && z in h.blocks ==> bp + h.blocks[bp] < z
  {
    forall z | z in h.free && z > bp && z in h.blocks
      ensures bp + h.blocks[bp] < z
    {
      var w, w' := h.blocks[z], h.blocks[h.ptr[p]];
    }
  }

  /** The link of a block that is not free does not matter. */
  lemma {:induction false} StaleLink(h: Arena, x: int, y: int)
    requires h in Sound() && x !in h.free
    ensures h.(ptr := h.ptr[x := y]) in Sound() && Live(h.(ptr := h.ptr[x := y])) == Live(h)
  {
    RingSame(h.ptr, h.ptr[x := y], h.free);
  }

  /** Some free block has room for `n` units. */
  ghost predicate Fits(h: Arena, n: int)
  {
    exists x :: x in h.free && x in h.blocks && h.blocks[x] >= n
  }

  /** The first half of kmallocfree (kalloc.c:275-279), with the link of `bp` set. */
  ghost function UpperHalf(h: Arena, p: int, bp: int): Arena
    requires Placed(h, p, bp)
  {
    var q := h.ptr[p];
    if bp + h.size[bp] == q
    then Arena(h.ptr[bp := h.ptr[q]], h.size[bp := h.size[bp] + h.size[q]], Joined(h.blocks, bp, q), h.free - {q},
      h.pages)
    else h.(ptr := h.ptr[bp := q])
  }

  /** The place is found, and the headers that are looked at are there. */
  ghost predicate Placed(h: Arena, p: int, bp: int)
  {
    && Belongs(h, p, bp) && h.ptr[p] in h.blocks && h.ptr[p] in h.ptr && h.ptr[p] in h.size
    && h.size[p] == h.blocks[p] >= 0 && h.size[bp] == h.blocks[bp] >= 1 && h.size[h.ptr[p]] == h.blocks[h.ptr[p]] >= 0
  }

  /** The headers after kmallocfree has put `bp` after `p` (kalloc.c:275-284). */
  function Rewired(ptr: map<int, int>, size: map<int, int>, p: int, bp: int): (r: (map<int, int>, map<int, int>))
    requires p in ptr && ptr[p] in ptr && p in size && bp in size && ptr[p] in size
  {
    var q := ptr[p];
    var link := if bp + size[bp] == q then ptr[bp := ptr[q]] else ptr[bp := q];
    var units := if bp + size[bp] == q then size[bp := size[bp] + size[q]] else size;
    if p + units[p] == bp then (link[p := link[bp]], units[p := units[p] + units[bp]]) else (link[p := bp], units)
  }

  /** What kmallocfree leaves, once the place after `p` is found. */
  ghost function FreedArena(h: Arena, p: int, bp: int): Arena
    requires Placed(h, p, bp)
  {
    var u := UpperHalf(h, p, bp);
    var r := Rewired(h.ptr, h.size, p, bp);
    if p + u.size[p] == bp then Arena(r.0, r.1, Joined(u.blocks, p, bp), u.free, h.pages)
    else Arena(r.0, r.1, u.blocks, u.free + {bp}, h.pages)
  }

  lemma {:induction false} PlacedIn(h: Arena, p: int, bp: int)
    requires h in Sound() && Belongs(h, p, bp)
    ensures Placed(h, p, bp)
  {
    BelongsFacts(h, p, bp);
  }

  lemma {:induction false} UpperHalfSound(h: Arena, p: int, bp: int)
    requires h in Sound() && Placed(h, p, bp)
    ensures var u := UpperHalf(h, p, bp); var u' := u.(ptr := u.ptr[p := u.ptr[bp]]);
            u' in Sound() && Placed(u', p, bp) && bp + u'.blocks[bp] != u'.ptr[p] && Live(u') - {bp} == Live(h) - {bp}
  {
    BelongsFacts(h, p, bp);
    var q := h.ptr[p];
    if bp + h.blocks[bp] == q {
      TookUpperSound(h, p, bp);
      StaleLink(TookUpper(h, p, bp), bp, h.ptr[q]);
      assert h.ptr[p := h.ptr[q]][bp := h.ptr[q]] == h.ptr[bp := h.ptr[q]][p := h.ptr[q]];
      BelongsFacts(TookUpper(h, p, bp), p, bp);
    } else {
      StaleLink(h, bp, q);
      assert h.ptr[bp := q][p := q] == h.ptr[bp := q];
    }
  }

  /** The second half of kmallocfree (kalloc.c:280-284). */
  ghost function LowerHalf(u: Arena, p: int, bp: int): Arena
    requires p in u.size && bp in u.size && bp in u.ptr && p in u.blocks && bp in u.blocks
  {
    if p + u.size[p] == bp
    then u.(ptr := u.ptr[p := u.ptr[bp]], size := u.size[p := u.size[p] + u.size[bp]],
      blocks := Joined(u.blocks, p, bp))
    else u.(ptr := u.ptr[p := bp], free := u.free + {bp})
  }

  lemma {:induction false} FreedHalves(h: Arena, p: int, bp: int)
    requires Placed(h, p, bp)
    ensures var u := UpperHalf(h, p, bp);
            p in u.size && bp in u.size && bp in u.ptr && p in u.blocks && bp in u.blocks &&
              FreedArena(h, p, bp) == LowerHalf(u, p, bp)
  {
  }

  lemma {:induction false} LowerHalfSound(u: Arena, u': Arena, p: int, bp: int)
    requires bp in u.ptr && bp != p && u' == u.(ptr := u.ptr[p := u.ptr[bp]])
    requires u' in Sound() && Placed(u', p, bp) && bp + u'.blocks[bp] != u'.ptr[p]
    ensures var h' := LowerHalf(u, p, bp); h' in Sound() && Live(h') == Live(u') - {bp} && p in h'.free
  {
    if p + u'.blocks[p] == bp {
      TookLowerSound(u', p, bp);
    } else {
      LinkedInSound(u', p, bp);
      assert u'.ptr[bp := u'.ptr[p]][p := bp] == u.ptr[p := bp];
    }
  }

  lemma {:induction false} FreedSound(h: Arena, p: int, bp: int)
    requires h in Sound() && Placed(h, p, bp)
    ensures FreedArena(h, p, bp) in Sound() && Live(FreedArena(h, p, bp)) == Live(h) - {bp} &&
            p in FreedArena(h, p, bp).free
  {
    UpperHalfSound(h, p, bp);
    FreedHalves(h, p, bp);
    var u := UpperHalf(h, p, bp);
    LowerHalfSound(u, u.(ptr := u.ptr[p := u.ptr[bp]]), p, bp);
  }

  lemma {:induction false} FreedFits(h: Arena, p: int, bp: int)
    requires Placed(h, p, bp)
    ensures Fits(FreedArena(h, p, bp), h.blocks[bp])
  {
    var h' := FreedArena(h, p, bp);
    var u := UpperHalf(h, p, bp);
    var w := if p + u.size[p] == bp then p else bp;
    assert w in h'.free && w in h'.blocks && h'.blocks[w] >= h.blocks[bp];
  }

  // ----- What allocating does -----

  /** The successor of `p` leaves the ring and is live (kalloc.c:319-320). */
  ghost function Unlinked(h: Arena, p: int): Arena
    requires p in h.ptr && h.ptr[p] in h.ptr
  {
    h.(ptr := h.ptr[p := h.ptr[h.ptr[p]]], free := h.free - {h.ptr[p]})
  }

  lemma {:induction false} UnlinkedSound(h: Arena, p: int)
    requires h in Sound() && p in h.free && p in h.ptr && h.ptr[p] != BASE
    ensures h.ptr[p] in h.ptr && h.ptr[p] in h.blocks && Unlinked(h, p) in Sound()
    ensures h.ptr[p] !in Live(h) && Live(Unlinked(h, p)) == Live(h)[h.ptr[p] := h.blocks[h.ptr[p]]]
  {
    assert Link(h.ptr, h.free, p);
    assert Link(h.ptr, h.free, h.ptr[p]);
    RingRemove(h.ptr, h.ptr[p := h.ptr[h.ptr[p]]], h.free, p);
  }

  /** A free block keeps its first `m` units; the `n` after them become a live block
      (kalloc.c:322-324). */
  ghost function CutTail(h: Arena, p: int, m: int, n: int): Arena
  {
    h.(size := h.size[p := m][p + m := n], blocks := h.blocks[p := m][p + m := n])
  }

  lemma {:induction false} CutTailSound(h: Arena, p: int, m: int, n: int)
    requires h in Sound() && p in h.free && p in h.blocks && 0 < n && 0 < m && m + n == h.blocks[p]
    ensures CutTail(h, p, m, n) in Sound() && p + m !in Live(h) && Live(CutTail(h, p, m, n)) == Live(h)[p + m := n]
  {
    assert BlockOk(h.size, h.blocks, h.pages, p);
    forall z | z in h.blocks
      ensures h.blocks[z] >= 0
    {
      assert BlockOk(h.size, h.blocks, h.pages, z);
    }
    CutApart(h.blocks, h.free, p, m);
    CutOk(h.size, h.size[p := m][p + m := n], h.blocks, h.pages, p, m);
    assert Cut(h.blocks, p, m) == h.blocks[p := m][p + m := n];
  }

  /** Going round the ring from `from`, the free block `y` was passed before `p` is reached. */
  predicate Passed(from: int, p: int, y: int)
  {
    if p > from then from < y < p else y > from || y < p
  }

  /** No free block passed so far has room. */
  ghost predicate Searched(h: Arena, from: int, p: int, n: int)
  {
    forall y {:trigger h.blocks[y]} :: y in h.free && y in h.blocks && Passed(from, p, y) ==> h.blocks[y] < n
  }

  /** The rest of the round, from `p` to `from`. */
  ghost function Ahead(free: set<int>, from: int, p: int): int
  {
    if p <= from then |set y | y in free && p < y <= from| else |free| + |set y | y in free && y > p|
  }

  lemma {:induction false} RoundStart(h: Arena, from: int, n: int)
    requires h in Sound() && from in h.free
    ensures from in h.ptr && h.ptr[from] in h.free && h.ptr[from] in h.ptr && Searched(h, from, h.ptr[from], n)
  {
    assert Link(h.ptr, h.free, from);
    assert Link(h.ptr, h.free, h.ptr[from]);
    forall y | y in h.free && y in h.blocks
      ensures !Passed(from, h.ptr[from], y)
    {
      assert BlockOk(h.size, h.blocks, h.pages, y);
    }
  }

  lemma {:induction false} RoundStep(h: Arena, from: int, p: int, n: int)
    requires h in Sound() && from in h.free && p in h.free && p != from && Searched(h, from, p, n) &&
             p in h.blocks && h.blocks[p] < n
    ensures p in h.ptr && h.ptr[p] in h.free && h.ptr[p] in h.ptr && Searched(h, from, h.ptr[p], n)
    ensures Ahead(h.free, from, h.ptr[p]) < Ahead(h.free, from, p)
  {
    assert Link(h.ptr, h.free, p);
    assert Link(h.ptr, h.free, h.ptr[p]);
    var q := h.ptr[p];
    assert BlockOk(h.size, h.blocks, h.pages, from);
    forall y | y in h.free && y in h.blocks && Passed(from, q, y)
      ensures h.blocks[y] < n
    {
      assert BlockOk(h.size, h.blocks, h.pages, y);
      assert y == p || Passed(from, p, y);
    }
    if p < from {
      Smaller((set y | y in h.free && q < y <= from), (set y | y in h.free && p < y <= from), q);
    } else if q <= from {
      Smaller((set y | y in h.free && q < y <= from), h.free, p);
    } else {
      Smaller((set y | y in h.free && y > q), (set y | y in h.free && y > p), q);
    }
  }

  lemma {:induction false} RoundEnd(h: Arena, from: int, n: int)
    requires Searched(h, from, from, n) && from in h.blocks && h.blocks[from] < n
    ensures !Fits(h, n)
  {
    forall y | y in h.free && y in h.blocks
      ensures h.blocks[y] < n
    {
      assert y == from || Passed(from, from, y);
    }
  }

  // ----- The code -----

  const NULL: int := -1

  /** Each step of the search comes closer to the place. */
  lemma {:induction false} Closer(ptr: map<int, int>, free: set<int>, p: int, bp: int)
    requires Link(ptr, free, p) && p in free && bp !in free && bp > BASE && (p > bp || bp > ptr[p] > p)
    ensures var q := ptr[p];
            (if q < bp then |set y | y in free && q < y < bp| else |free| + |set y | y in free && y > q|)
            < (if p < bp then |set y | y in free && p < y < bp| else |free| + |set y | y in free && y > p|)
  {
    var q := ptr[p];
    if p < bp {
      Smaller((set y | y in free && q < y < bp), (set y | y in free && p < y < bp), q);
    } else if q < bp {
      Smaller((set y | y in free && q < y < bp), free, p);
    } else {
      Smaller((set y | y in free && y > q), (set y | y in free && y > p), q);
    }
  }

  lemma {:induction false} Smaller(s: set<int>, t: set<int>, x: int)
    requires s <= t && x in t && x !in s
    ensures |s| < |t|
  {
    assert s <= t - {x};
    Subset(s, t - {x});
  }

  lemma {:induction false} Subset(s: set<int>, t: set<int>)
    requires s <= t
    ensures |s| <= |t|
    decreases |s|
  {
    if s != {} {
      var x := AnyOf(s);
      Subset(s - {x}, t - {x});
    }
  }

  class Heap {
    /** The headers: s.ptr and s.size by address of the header. */
    var ptr: map<int, int>
    var size: map<int, int>
    var freep: int
    /** The pages kalloc would return, in order. */
    var frames: seq<int>
    ghost var blocks: map<int, int>
    ghost var free: set<int>
    ghost var pages: set<int>

    ghost function Now(): Arena
      reads this
    {
      Arena(ptr, size, blocks, free, pages)
    }

    /** Before the first kmalloc, with the pages kalloc will return. */
    constructor (frames: seq<int>)
      requires forall i :: 0 <= i < |frames| ==> frames[i] >= 1
      requires forall i, j :: 0 <= i < j < |frames| ==> frames[i] != frames[j]
      ensures Valid() && this.frames == frames && freep == NULL && Live(Now()) == map[]
    {
      ptr, size, freep, this.frames := map[], map[], NULL, frames;
      blocks, free, pages := map[], {}, {};
    }

    /** The search of kmallocfree (kalloc.c:272-274): the free block after which `bp` belongs. */
    method FindPlace(bp: int) returns (p: int)
      requires Now() in Sound() && freep in free && bp in Live(Now())
      ensures Belongs(Now(), p, bp)
    {
      p := freep;
      ghost var h := Now();
      assert BlockOk(size, blocks, pages, bp) && Link(ptr, free, p);
      while !(bp > p && bp < ptr[p])
        invariant p in free && p in ptr && Link(ptr, free, p)
        decreases if p < bp then |set y | y in free && p < y < bp| else |free| + |set y | y in free && y > p|
      {
        if p >= ptr[p] && (bp > p || bp < ptr[p]) {
          break;
        }
        assert Link(ptr, free, ptr[p]);
        Closer(ptr, free, p, bp);
        p := ptr[p];
      }
      assert BlockOk(size, blocks, pages, p);
    }

    /** kmallocfree (kalloc.c:268-286) of a live block: it is free, and no other live block
        changes. */
    method KMallocFree(bp: int)
      requires Now() in Sound() && freep in free && bp in Live(Now())
      modifies this`ptr, this`size, this`freep, this`blocks, this`free
      ensures Now() in Sound() && freep in free && Live(Now()) == Live(old(Now())) - {bp} &&
              Fits(Now(), Live(old(Now()))[bp])
    {
      var p := FindPlace(bp);
      ghost var h := Now();
      PlacedIn(h, p, bp);
      FreedSound(h, p, bp);
      FreedFits(h, p, bp);
      var link, units := Rewire(ptr, size, p, bp);
      ghost var h' := FreedArena(h, p, bp);
      ptr, size, freep, blocks, free := link, units, p, h'.blocks, h'.free;
    }

    static method Rewire(ptr: map<int, int>, size: map<int, int>, p: int, bp: int)
      returns (link: map<int, int>, units: map<int, int>)
      requires p in ptr && ptr[p] in ptr && p in size && bp in size && ptr[p] in size
      ensures (link, units) == Rewired(ptr, size, p, bp)
    {
      link, units := ptr, size;
      if bp + units[bp] == link[p] {
        units := units[bp := units[bp] + units[link[p]]];
        link := link[bp := link[link[p]]];
      } else {
        link := link[bp := link[p]];
      }
      if p + units[p] == bp {
        units := units[p := units[p] + units[bp]];
        link := link[p := link[bp]];
      } else {
        link := link[p := bp];
      }
    }

    /** The pages kalloc will return are new to the heap. */
    ghost predicate FramesOk()
      reads this
    {
      && (forall i :: 0 <= i < |frames| ==> frames[i] >= 1 && frames[i] !in pages)
      && (forall i, j :: 0 <= i < j < |frames| ==> frames[i] != frames[j])
    }

    /** morecore (kalloc.c:289-305). The guard multiplies in 32 bits. */
    method MoreCore(nu: int) returns (ok: bool)
      requires Now() in Sound() && freep in free && FramesOk()
      modifies this
      ensures Now() in Sound() && freep in free && FramesOk() && Live(Now()) == Live(old(Now()))
      ensures ok <==> nu * 8 % TWO32 < PGSIZE && old(frames) != []
      ensures ok ==> frames == old(frames)[1..] && pages == old(pages) + {old(frames)[0]} && Fits(Now(), UNITS)
      ensures !ok ==> frames == old(frames) && Now() == old(Now()) && freep == old(freep)
    {
      if nu * 8 % TWO32 >= PGSIZE || frames == [] {
        return false;
      }
      var f := frames[0];
      frames := frames[1..];
      ghost var h := Now();
      PageSound(h, f);
      var hp := f * UNITS;
      size := size[hp := UNITS];
      blocks, pages := blocks[hp := UNITS], pages + {f};
      KMallocFree(hp);
      return true;
    }

    /** The heap before the first kmalloc, or a sound heap. */
    ghost predicate Valid()
      reads this
    {
      FramesOk() &&
      if freep == NULL then blocks == map[] && free == {} && pages == {} else Now() in Sound() && freep in free
    }

    /** The block `p` after `prevp` has room: take it, or its last units (kalloc.c:318-328). */
    method Take(prevp: int, p: int, nunits: int) returns (r: int)
      requires Now() in Sound() && prevp in free && prevp in ptr && ptr[prevp] == p && p in blocks && nunits >= 1 &&
               blocks[p] >= nunits
      modifies this`ptr, this`size, this`freep, this`blocks, this`free
      ensures Now() in Sound() && freep in free && r != NULL && r - 1 !in Live(old(Now())) &&
              Live(Now()) == Live(old(Now()))[r - 1 := nunits]
    {
      assert Link(ptr, free, prevp) && BlockOk(size, blocks, pages, p);
      var b := p;
      ghost var h := Now();
      if size[p] == nunits {
        UnlinkedSound(h, prevp);
        ptr := ptr[prevp := ptr[p]];
        free := free - {p};
      } else {
        var m := size[p] - nunits;
        CutTailSound(h, p, m, nunits);
        b := p + m;
        size := size[p := m][b := nunits];
        blocks := blocks[p := m][b := nunits];
      }
      freep := prevp;
      return b + 1;
    }

    /** The loop of kmalloc (kalloc.c:317-332): the first block with room, counting from the one
        after freep; more core when the round ends without one. Unless the guard of morecore
        lets a request through that no page can meet, it is asked at most once. */
    method Search(nunits: int) returns (r: int)
      requires Now() in Sound() && freep in free && FramesOk() && nunits >= 1
      modifies this
      ensures Now() in Sound() && freep in free && FramesOk()
      ensures r != NULL ==> r - 1 !in Live(old(Now())) && Live(Now()) == Live(old(Now()))[r - 1 := nunits]
      ensures r == NULL ==> Live(Now()) == Live(old(Now()))
      ensures nunits < UNITS || nunits * 8 % TWO32 >= PGSIZE ==>
                && (r == NULL <==> !Fits(old(Now()), nunits) && (nunits * 8 % TWO32 >= PGSIZE || old(frames) == []))
                && (frames == old(frames) || (old(frames) != [] && frames == old(frames)[1..]))
      ensures r == NULL && nunits * 8 % TWO32 < PGSIZE ==> frames == []
    {
      RoundStart(Now(), freep, nunits);
      var prevp := freep;
      var p := ptr[prevp];
      ghost var grown := false;
      while true
        invariant Now() in Sound() && freep in free && FramesOk()
        invariant prevp in free && prevp in ptr && ptr[prevp] == p && p in free && Searched(Now(), freep, p, nunits)
        invariant Live(Now()) == Live(old(Now()))
        invariant !grown ==> frames == old(frames) && Now() == old(Now())
        invariant grown ==> |frames| < |old(frames)| && nunits * 8 % TWO32 < PGSIZE
        invariant grown && nunits < UNITS ==>
                  frames == old(frames)[1..] && Fits(Now(), nunits) && !Fits(old(Now()), nunits)
        decreases |frames|, Ahead(free, freep, p)
      {
        InRing(Now(), p);
        if size[p] >= nunits {
          r := Take(prevp, p, nunits);
          return;
        }
        if p == freep {
          RoundEnd(Now(), freep, nunits);
          var ok := MoreCore(nunits);
          if !ok {
            return NULL;
          }
          grown := true;
          p := freep;
          RoundStart(Now(), freep, nunits);
        } else {
          RoundStep(Now(), freep, p, nunits);
        }
        prevp := p;
        p := ptr[p];
      }
    }

    /** kmalloc (kalloc.c:308-333): a new live block of the units asked for. It fails only when
        no free block has room and either the request reaches a page or no page is left; at most
        one page is taken. The exception is the requests on which the guard of morecore wraps
        around: they eat all pages. */
    method KMalloc(nbytes: int) returns (r: int)
      requires Valid() && 0 <= nbytes < TWO32
      modifies this
      ensures Valid() && freep != NULL
      ensures r != NULL ==> r - 1 !in Live(old(Now())) && Live(Now()) == Live(old(Now()))[r - 1 := Units(nbytes)]
      ensures r == NULL ==> Live(Now()) == Live(old(Now()))
      ensures !Wraps(nbytes) ==> (r == NULL <==>
              !Fits(old(Now()), Units(nbytes)) && (Units(nbytes) >= UNITS || old(frames) == []))
      ensures !Wraps(nbytes) ==> frames == old(frames) || (old(frames) != [] && frames == old(frames)[1..])
      ensures Wraps(nbytes) && r == NULL ==> frames == []
    {
      var nunits := (nbytes + 7) % TWO32 / 8 + 1;
      GuardWraps(nbytes);
      if freep == NULL {
        freep := BASE;
        ptr, size := ptr[BASE := BASE], size[BASE := 0];
        blocks, free := map[BASE := 0], {BASE};
        FirstArena(Now());
        assert !Fits(Now(), nunits);
      }
      r := Search(nunits);
      InRing(Now(), freep);
    }
  }

  // ----- Whole runs -----

  /** A caller asks for memory, or gives back what call number `call` returned. */
  datatype Call = Malloc(nbytes: int) | Free(call: nat)

  /** The live blocks after a call that returned `r`, the calls before it having returned `rs`: a block
      handed out must not be live. */
  function After(live: map<int, int>, rs: seq<int>, c: Call, r: int): Option<map<int, int>>
  {
    match c
    case Malloc(nbytes) =>
      if r == NULL then Some(live) else if r - 1 in live then None else Some(live[r - 1 := Units(nbytes)])
    case Free(i) => if i < |rs| && rs[i] - 1 in live then Some(live - {rs[i] - 1}) else Some(live)
  }

  function Replay(calls: seq<Call>, rs: seq<int>): Option<map<int, int>>
    requires |rs| <= |calls|
  {
    if rs == [] then Some(map[])
    else
      var n := |rs| - 1;
      var live := Replay(calls, rs[..n]);
      if live.None? then None else After(live.value, rs[..n], calls[n], rs[n])
  }

  /** Any run of kmalloc and kmallocfree from boot: the live blocks are always those of a caller that
      never gets a live block, of the units asked for, and the heap stays sound: live blocks do not
      overlap (`LiveApart`) and units are conserved (`Conserved`). */
  method Run(frames: seq<int>, calls: seq<Call>) returns (heap: Heap, rs: seq<int>)
    requires (forall i :: 0 <= i < |frames| ==> frames[i] >= 1)
    requires (forall i, j :: 0 <= i < j < |frames| ==> frames[i] != frames[j])
    requires forall i :: 0 <= i < |calls| && calls[i].Malloc? ==> 0 <= calls[i].nbytes < TWO32
    ensures fresh(heap) && heap.Valid() && |rs| == |calls| && Replay(calls, rs) == Some(Live(heap.Now()))
  {
    heap := new Heap(frames);
    rs := [];
    var live: map<int, int> := map[];
    while |rs| < |calls|
      invariant |rs| <= |calls| && heap.Valid() && fresh(heap)
      invariant live == Live(heap.Now()) && Replay(calls, rs) == Some(live)
      decreases |calls| - |rs|
    {
      var c, r := calls[|rs|], NULL;
      match c {
        case Malloc(nbytes) =>
          r := heap.KMalloc(nbytes);
          live := if r == NULL then live else live[r - 1 := Units(nbytes)];
        case Free(i) =>
          if i < |rs| && rs[i] - 1 in live {
            heap.KMallocFree(rs[i] - 1);
            InRing(heap.Now(), heap.freep);
            live := live - {rs[i] - 1};
          }
      }
      assert (rs + [r])[..|rs|] == rs;
      rs := rs + [r];
    }
  }

  lemma {:induction false} InRing(h: Arena, p: int)
    requires h in Sound() && p in h.free
    ensures p != NULL && p in h.ptr && p in h.blocks && p in h.size && h.size[p] == h.blocks[p]
  {
    assert BlockOk(h.size, h.blocks, h.pages, p) && Link(h.ptr, h.free, p);
  }

  /** Headers for a request of `nbytes`, as the code computes it in 32 bits (kalloc.c:312). */
  function Units(nbytes: int): int
  {
    (nbytes + 7) % TWO32 / 8 + 1
  }

  /** The requests for which the guard of morecore multiplies to zero. */
  predicate Wraps(nbytes: int)
  {
    TWO32 - 15 <= nbytes <= TWO32 - 8
  }

  /** The guard of morecore is the intended one except on those requests. */
  lemma {:induction false} GuardWraps(nbytes: int)
    requires 0 <= nbytes < TWO32
    ensures Wraps(nbytes) <==> Units(nbytes) == TWO32 / 8
    ensures !Wraps(nbytes) ==> (Units(nbytes) * 8 % TWO32 < PGSIZE <==> Units(nbytes) < UNITS)
    ensures Wraps(nbytes) ==> Units(nbytes) * 8 % TWO32 < PGSIZE
  {
  }

  /** A block has room for the request, header not counted, unless the request is so large that
      adding 7 to it wraps around. */
  lemma {:induction false} PayloadSuffices(nbytes: int)
    requires 0 <= nbytes < TWO32
    ensures (Units(nbytes) - 1) * 8 >= nbytes <==> nbytes + 7 < TWO32
  {
  }

  lemma {:induction false} FirstArena(h: Arena)
    requires h.blocks == map[BASE := 0] && h.free == {BASE} && h.pages == {} && BASE in h.ptr &&
             h.ptr[BASE] == BASE && BASE in h.size && h.size[BASE] == 0
    ensures h in Sound() && Live(h) == map[]
  {
    assert Link(h.ptr, h.free, BASE);
    assert BlockOk(h.size, h.blocks, h.pages, BASE);
    SumPut(map[], BASE, 0);
  }

  /** The arena with a new page in it, as a live block. */
  ghost function WithPage(h: Arena, f: int): Arena
  {
    h.(size := h.size[f * UNITS := UNITS], blocks := h.blocks[f * UNITS := UNITS], pages := h.pages + {f})
  }

  lemma {:induction false} PageSound(h: Arena, f: int)
    requires h in Sound() && f >= 1 && f !in h.pages
    ensures WithPage(h, f) in Sound() && f * UNITS !in h.blocks
    ensures f * UNITS in Live(WithPage(h, f)) && Live(WithPage(h, f))[f * UNITS] == UNITS &&
            Live(WithPage(h, f)) - {f * UNITS} == Live(h)
  {
    PageOk(h.size, h.blocks, h.free, h.pages, f);
  }

  // ----- What a sound heap promises -----

  /** Live blocks overlap neither each other nor a free block. */
  lemma {:induction false} LiveApart(h: Arena, x: int, y: int)
    requires h in Sound() && x in Live(h) && y in h.blocks && x != y
    ensures x + h.blocks[x] <= y || y + h.blocks[y] <= x
  {
    var u, v := h.blocks[x], h.blocks[y];
  }

  /** Free and live units together are the units of the pages obtained. */
  lemma {:induction false} Conserved(h: Arena)
    requires h in Sound()
    ensures Sum(Part(h.blocks, h.free, true)) + Sum(Live(h)) == UNITS * |h.pages|
  {
    SumParts(h.blocks, h.free);
    assert Live(h) == Part(h.blocks, h.free, false);
  }

  /** No two free blocks touch. */
  lemma {:induction false} FreeNotAdjacent(h: Arena, x: int, y: int)
    requires h in Sound() && x in h.free && y in h.free
    ensures x in h.blocks && (x + h.blocks[x] == y ==> x == y == BASE)
  {
    assert x in h.blocks && y in h.blocks;
    var u, v := h.blocks[x], h.blocks[y];
    assert BlockOk(h.size, h.blocks, h.pages, x);
  }
}
