/** Inode contents and block allocation of fs.c: balloc, bfree, bmap, itrunc, readi, writei.

    A block is 512 bytes. In an indirect block they are 128 block numbers of four bytes each. */
module Inodes {
  import opened Common

  const BSIZE: int := 512
  const NDIRECT: int := 12
  const NINDIRECT: int := 128
  const MAXFILE: int := 140
  const BPB: int := 4096
  /** `addrs` holds 12 direct block numbers and that of the indirect block; 0 is none. */
  datatype Inode = Inode(size: int, addrs: seq<int>)

  /** `used` is the free bit map; `meta` the blocks of boot, super block, log, inodes and bit map,
      which mkfs marks in use. */
  datatype Fs = Fs(nblocks: int, meta: set<int>, used: set<int>, bytes: map<int, seq<int>>, inodes: map<int, Inode>)

  /** The block numbers in an indirect block, least significant byte first. */
  function WordsOf(bs: seq<int>): (r: seq<int>)
    requires |bs| == BSIZE
    ensures |r| == NINDIRECT
  {
    seq(NINDIRECT, j requires 0 <= j < NINDIRECT => Word(bs, j))
  }

  function Word(bs: seq<int>, j: int): int
    requires |bs| == BSIZE && 0 <= j < NINDIRECT
  {
    bs[4 * j] + 0x100 * bs[4 * j + 1] + 0x1_0000 * bs[4 * j + 2] + 0x100_0000 * bs[4 * j + 3]
  }

  /** The block after `a[j] = w`. */
  function WithWord(bs: seq<int>, j: int, w: int): (r: seq<int>)
    requires |bs| == BSIZE && 0 <= j < NINDIRECT && 0 <= w
    ensures |r| == BSIZE
  {
    bs[4 * j := w % 0x100][4 * j + 1 := w / 0x100 % 0x100]
      [4 * j + 2 := w / 0x1_0000 % 0x100][4 * j + 3 := w / 0x100_0000]
  }

  /** That changes this block number and no other. */
  lemma {:induction false} WithWordIs(bs: seq<int>, j: int, w: int)
    requires |bs| == BSIZE && 0 <= j < NINDIRECT && 0 <= w
    ensures WordsOf(WithWord(bs, j, w)) == WordsOf(bs)[j := w]
  {
    var bs' := WithWord(bs, j, w);
    forall k | 0 <= k < NINDIRECT
      ensures Word(bs', k) == if k == j then w else Word(bs, k)
    {
      if k == j {
        assert bs'[4 * j] == w % 0x100 && bs'[4 * j + 1] == w / 0x100 % 0x100;
        assert bs'[4 * j + 2] == w / 0x1_0000 % 0x100 && bs'[4 * j + 3] == w / 0x100_0000;
        FourBytes(w);
      } else {
        assert forall x :: 4 * k <= x < 4 * k + 4 ==> bs'[x] == bs[x];
      }
    }
  }

  lemma {:induction false} FourBytes(w: int)
    requires 0 <= w
    ensures w == w % 0x100 + 0x100 * (w / 0x100 % 0x100) + 0x1_0000 * (w / 0x1_0000 % 0x100) +
                 0x100_0000 * (w / 0x100_0000)
  {
    var a := w / 0x100;
    var b := a / 0x100;
    assert w / 0x1_0000 == b && w / 0x100_0000 == b / 0x100;
  }

  lemma {:induction false} ZeroWords()
    ensures WordsOf(Zeros(BSIZE)) == Zeros(NINDIRECT)
  {
    forall j | 0 <= j < NINDIRECT
      ensures Word(Zeros(BSIZE), j) == 0
    {
    }
  }

  /** A place that may hold a block number: 0 to 11 direct, 12 the indirect block, and from 13 on
      the entries of the indirect block. */
  datatype Slot = Slot(ino: int, k: int)

  function Ptr(fs: Fs, s: Slot): int
  {
    if s.ino !in fs.inodes || |fs.inodes[s.ino].addrs| != NDIRECT + 1 then 0
    else
      var addrs := fs.inodes[s.ino].addrs;
      if 0 <= s.k <= NDIRECT then addrs[s.k]
      else if NDIRECT < s.k <= NDIRECT + NINDIRECT && addrs[NDIRECT] != 0 && addrs[NDIRECT] in fs.bytes &&
        |fs.bytes[addrs[NDIRECT]]| == BSIZE
      then WordsOf(fs.bytes[addrs[NDIRECT]])[s.k - NDIRECT - 1] else 0
  }

  /** The place of the number of the nth block of a file. */
  function DataSlot(ino: int, n: int): Slot
  {
    Slot(ino, if n < NDIRECT then n else n + 1)
  }

  function BlockOf(fs: Fs, ino: int, n: int): int
  {
    Ptr(fs, DataSlot(ino, n))
  }

  /** The byte of a file at an offset. */
  function ByteAt(fs: Fs, ino: int, i: int): int
  {
    var b := BlockOf(fs, ino, i / BSIZE);
    if b in fs.bytes && |fs.bytes[b]| == BSIZE then fs.bytes[b][i % BSIZE] else 0
  }

  // ----- Soundness -----

  ghost predicate BlockOk(fs: Fs, b: int)
  {
    b in fs.bytes && |fs.bytes[b]| == BSIZE
  }

  ghost predicate PtrOk(fs: Fs, s: Slot)
  {
    Ptr(fs, s) != 0 ==> 0 < Ptr(fs, s) < fs.nblocks && Ptr(fs, s) in fs.used && Ptr(fs, s) !in fs.meta
  }

  ghost predicate SamePtr(fs: Fs, s: Slot, t: Slot)
  {
    Ptr(fs, s) == Ptr(fs, t) != 0
  }

  /** The inode is well formed, and every block of the file is there. */
  ghost predicate InodeOk(fs: Fs, ino: int)
    requires ino in fs.inodes
  {
    && |fs.inodes[ino].addrs| == NDIRECT + 1 && 0 <= fs.inodes[ino].size <= MAXFILE * BSIZE
    && forall n {:trigger BlockOf(fs, ino, n)} :: 0 <= n && n * BSIZE < fs.inodes[ino].size ==> BlockOf(fs, ino, n) != 0
  }

  /** No block has two owners, none of them is free or belongs to the file system itself. */
  ghost predicate Inv(fs: Fs)
  {
    && 0 in fs.meta && fs.meta <= fs.used
    && (forall b {:trigger BlockOk(fs, b)} :: 0 <= b < fs.nblocks ==> BlockOk(fs, b))
    && (forall s {:trigger PtrOk(fs, s)} :: PtrOk(fs, s))
    && (forall s, t {:trigger SamePtr(fs, s, t)} :: SamePtr(fs, s, t) ==> s == t)
    && (forall ino {:trigger InodeOk(fs, ino)} :: ino in fs.inodes ==> InodeOk(fs, ino))
  }

  /** The sound images. A set and not a predicate: where a predicate is checked the verifier takes it
      apart into its conjuncts, while most proofs only pass membership on. */
  ghost function Sound(): iset<Fs>
  {
    iset fs: Fs | Inv(fs)
  }

  function Zeros(n: int): (r: seq<int>)
    requires n >= 0
    ensures |r| == n && forall i :: 0 <= i < n ==> r[i] == 0
  {
    seq(n, i => 0)
  }

  function Numbers(n: int): (r: set<int>)
    ensures forall b :: b in r <==> 0 <= b < n
  {
    if n <= 0 then {} else Numbers(n - 1) + {n - 1}
  }

  /** An image with empty files: every block zero, and only the blocks of the file system itself in
      use. */
  function Image(nblocks: int, meta: set<int>, inos: set<int>): Fs
  {
    Fs(nblocks, meta, meta, map b | b in Numbers(nblocks) :: Zeros(BSIZE),
       map ino | ino in inos :: Inode(0, Zeros(NDIRECT + 1)))
  }

  lemma {:induction false} ImageSound(nblocks: int, meta: set<int>, inos: set<int>)
    requires 0 in meta
    ensures Image(nblocks, meta, inos) in Sound()
  {
    var fs := Image(nblocks, meta, inos);
    forall s
      ensures Ptr(fs, s) == 0 && PtrOk(fs, s)
    {
    }
    forall b | 0 <= b < fs.nblocks
      ensures BlockOk(fs, b)
    {
    }
    forall s, t
      ensures !SamePtr(fs, s, t)
    {
      assert Ptr(fs, s) == 0;
    }
    forall ino | ino in fs.inodes
      ensures InodeOk(fs, ino)
    {
    }
  }

  // ----- Allocation -----

  /** balloc (fs.c:70-90) when `b` is the first free block: marked, and zeroed. */
  function Allocated(fs: Fs, b: int): Fs
  {
    fs.(used := fs.used + {b}, bytes := fs.bytes[b := Zeros(BSIZE)])
  }

  lemma {:induction false} AllocatedPtr(fs: Fs, b: int, s: Slot)
    requires fs in Sound() && 0 <= b < fs.nblocks && b !in fs.used
    ensures Ptr(Allocated(fs, b), s) == Ptr(fs, s)
  {
    assert PtrOk(fs, Slot(s.ino, NDIRECT));
    assert PtrOk(fs, s);
  }

  lemma {:induction false} AllocatedSound(fs: Fs, b: int)
    requires fs in Sound() && 0 <= b < fs.nblocks && b !in fs.used
    ensures Allocated(fs, b) in Sound() && b !in fs.meta && forall s ::
            Ptr(Allocated(fs, b), s) == Ptr(fs, s) && Ptr(fs, s) != b
  {
    var fs' := Allocated(fs, b);
    forall s
      ensures Ptr(fs', s) == Ptr(fs, s) && Ptr(fs, s) != b && PtrOk(fs', s)
    {
      AllocatedPtr(fs, b, s);
      assert PtrOk(fs, s);
    }
    forall x | 0 <= x < fs'.nblocks
      ensures BlockOk(fs', x)
    {
      assert BlockOk(fs, x);
    }
    forall s, t | SamePtr(fs', s, t)
      ensures s == t
    {
      assert SamePtr(fs, s, t);
    }
    forall ino | ino in fs'.inodes
      ensures InodeOk(fs', ino)
    {
      assert InodeOk(fs, ino);
      forall n | 0 <= n && n * BSIZE < fs'.inodes[ino].size
        ensures BlockOf(fs', ino, n) != 0
      {
        assert BlockOf(fs, ino, n) != 0;
      }
    }
  }

  lemma {:induction false} AllocatedBytes(fs: Fs, b: int, ino: int, i: int)
    requires fs in Sound() && 0 <= b < fs.nblocks && b !in fs.used
    ensures ByteAt(Allocated(fs, b), ino, i) == ByteAt(fs, ino, i)
  {
    AllocatedSound(fs, b);
  }

  // ----- A block number is written -----

  /** The state after a block number is put into an empty place. */
  function Linked(fs: Fs, s: Slot, b: int): Fs
    requires s.ino in fs.inodes && |fs.inodes[s.ino].addrs| == NDIRECT + 1 && 0 <= s.k <= NDIRECT + NINDIRECT && 0 <= b
  {
    var ip := fs.inodes[s.ino];
    if s.k <= NDIRECT then fs.(inodes := fs.inodes[s.ino := ip.(addrs := ip.addrs[s.k := b])])
    else
      var ind := ip.addrs[NDIRECT];
      if ind in fs.bytes && |fs.bytes[ind]| == BSIZE
      then fs.(bytes := fs.bytes[ind := WithWord(fs.bytes[ind], s.k - NDIRECT - 1, b)]) else fs
  }

  /** `b` is in use, zeroed, and in no place yet. */
  ghost predicate Fresh(fs: Fs, b: int)
  {
    && 0 < b < fs.nblocks && b in fs.used && b !in fs.meta && b in fs.bytes && fs.bytes[b] == Zeros(BSIZE)
    && forall s {:trigger Ptr(fs, s)} :: Ptr(fs, s) != b
  }

  lemma {:induction false} LinkedPtr(fs: Fs, s: Slot, b: int, t: Slot)
    requires fs in Sound() && s.ino in fs.inodes && |fs.inodes[s.ino].addrs| == NDIRECT + 1 &&
             0 <= s.k <= NDIRECT + NINDIRECT
    requires Ptr(fs, s) == 0 && Fresh(fs, b) && (s.k > NDIRECT ==> fs.inodes[s.ino].addrs[NDIRECT] != 0)
    ensures Ptr(Linked(fs, s, b), t) == if t == s then b else Ptr(fs, t)
  {
    var ind := Slot(s.ino, NDIRECT);
    assert PtrOk(fs, ind) && PtrOk(fs, Slot(t.ino, NDIRECT));
    assert Ptr(fs, ind) != 0 ==> BlockOk(fs, Ptr(fs, ind));
    assert SamePtr(fs, ind, Slot(t.ino, NDIRECT)) ==> s.ino == t.ino;
    ZeroWords();
    if s.k > NDIRECT {
      WithWordIs(fs.bytes[Ptr(fs, ind)], s.k - NDIRECT - 1, b);
    }
  }

  lemma {:induction false} LinkedSound(fs: Fs, s: Slot, b: int)
    requires fs in Sound() && s.ino in fs.inodes && |fs.inodes[s.ino].addrs| == NDIRECT + 1 &&
             0 <= s.k <= NDIRECT + NINDIRECT
    requires Ptr(fs, s) == 0 && Fresh(fs, b) && (s.k > NDIRECT ==> fs.inodes[s.ino].addrs[NDIRECT] != 0)
    ensures Linked(fs, s, b) in Sound() && forall t :: Ptr(Linked(fs, s, b), t) == if t == s then b else Ptr(fs, t)
  {
    var fs' := Linked(fs, s, b);
    forall t
      ensures Ptr(fs', t) == (if t == s then b else Ptr(fs, t)) && PtrOk(fs', t)
    {
      LinkedPtr(fs, s, b, t);
      assert PtrOk(fs, t);
    }
    forall x | 0 <= x < fs'.nblocks
      ensures BlockOk(fs', x)
    {
      assert BlockOk(fs, x);
    }
    forall t, u | SamePtr(fs', t, u)
      ensures t == u
    {
      assert SamePtr(fs, t, u) || t == s || u == s;
      assert Ptr(fs, t) != b && Ptr(fs, u) != b;
    }
    forall ino | ino in fs'.inodes
      ensures InodeOk(fs', ino)
    {
      assert InodeOk(fs, ino);
      forall n | 0 <= n && n * BSIZE < fs'.inodes[ino].size
        ensures BlockOf(fs', ino, n) != 0
      {
        assert BlockOf(fs, ino, n) != 0;
      }
    }
  }

  /** No size has changed, nor any byte of a block that a file had. */
  ghost predicate SameFiles(fs: Fs, fs': Fs)
  {
    && fs'.inodes.Keys == fs.inodes.Keys && fs'.meta == fs.meta && fs'.nblocks == fs.nblocks
    && (forall ino {:trigger fs'.inodes[ino]} :: ino in fs.inodes ==> fs'.inodes[ino].size == fs.inodes[ino].size)
    && (forall ino, i {:trigger ByteAt(fs', ino, i)} :: 0 <= i && BlockOf(fs, ino, i / BSIZE) != 0 ==>
          BlockOf(fs', ino, i / BSIZE) == BlockOf(fs, ino, i / BSIZE) && ByteAt(fs', ino, i) == ByteAt(fs, ino, i))
  }

  lemma {:induction false} AllocatedFiles(fs: Fs, b: int)
    requires fs in Sound() && 0 <= b < fs.nblocks && b !in fs.used
    ensures SameFiles(fs, Allocated(fs, b))
  {
    AllocatedSound(fs, b);
    forall ino, i | 0 <= i && BlockOf(fs, ino, i / BSIZE) != 0
      ensures ByteAt(Allocated(fs, b), ino, i) == ByteAt(fs, ino, i)
    {
      AllocatedBytes(fs, b, ino, i);
    }
  }

  lemma {:induction false} LinkedFiles(fs: Fs, s: Slot, b: int)
    requires fs in Sound() && s.ino in fs.inodes && |fs.inodes[s.ino].addrs| == NDIRECT + 1 &&
             0 <= s.k <= NDIRECT + NINDIRECT
    requires Ptr(fs, s) == 0 && Fresh(fs, b) && (s.k > NDIRECT ==> fs.inodes[s.ino].addrs[NDIRECT] != 0)
    ensures SameFiles(fs, Linked(fs, s, b))
  {
    LinkedSound(fs, s, b);
    var fs' := Linked(fs, s, b);
    assert fs'.inodes.Keys == fs.inodes.Keys;
    forall ino, i | 0 <= i && BlockOf(fs, ino, i / BSIZE) != 0
      ensures BlockOf(fs', ino, i / BSIZE) == BlockOf(fs, ino, i / BSIZE) && ByteAt(fs', ino, i) == ByteAt(fs, ino, i)
    {
      assert DataSlot(ino, i / BSIZE) != s;
      assert !SamePtr(fs, DataSlot(ino, i / BSIZE), Slot(s.ino, NDIRECT));
    }
  }

  lemma {:induction false} SameFilesTrans(f: Fs, g: Fs, h: Fs)
    requires SameFiles(f, g) && SameFiles(g, h)
    ensures SameFiles(f, h)
  {
    forall ino | ino in f.inodes
      ensures h.inodes[ino].size == f.inodes[ino].size
    {
      assert g.inodes[ino].size == f.inodes[ino].size;
    }
    forall ino, i | 0 <= i && BlockOf(f, ino, i / BSIZE) != 0
      ensures BlockOf(h, ino, i / BSIZE) == BlockOf(f, ino, i / BSIZE) && ByteAt(h, ino, i) == ByteAt(f, ino, i)
    {
      assert ByteAt(g, ino, i) == ByteAt(f, ino, i);
      assert ByteAt(h, ino, i) == ByteAt(g, ino, i);
    }
  }

  // ----- The code -----

  predicate FullDisk(fs: Fs)
  {
    forall b :: 0 <= b < fs.nblocks ==> b in fs.used
  }

  /** balloc (fs.c:70-90): the lowest free block, or a panic when there is none. */
  method Balloc(fs: Fs) returns (fs': Fs, addr: Option<int>)
    ensures addr.None? ==> fs' == fs && FullDisk(fs)
    ensures addr.Some? ==> 0 <= addr.value < fs.nblocks && addr.value !in fs.used && fs' == Allocated(fs, addr.value)
    ensures addr.Some? ==> forall b :: 0 <= b < addr.value ==> b in fs.used
  {
    var b := 0;
    while b < fs.nblocks
      invariant 0 <= b
      invariant forall x :: 0 <= x < b && x < fs.nblocks ==> x in fs.used
      decreases fs.nblocks - b
    {
      var bi := 0;
      while bi < BPB && b + bi < fs.nblocks
        invariant 0 <= bi <= BPB && 0 <= b
        invariant forall x :: 0 <= x < b + bi && x < fs.nblocks ==> x in fs.used
      {
        if b + bi !in fs.used {
          fs' := fs.(used := fs.used + {b + bi});
          fs' := fs'.(bytes := fs'.bytes[b + bi := Zeros(BSIZE)]);
          return fs', Some(b + bi);
        }
        bi := bi + 1;
      }
      b := b + BPB;
    }
    return fs, None;
  }

  /** A place that holds no block number gets a new block. */
  method Attach(fs: Fs, s: Slot) returns (fs': Fs, addr: Option<int>)
    requires fs in Sound() && s.ino in fs.inodes && 0 <= s.k <= NDIRECT + NINDIRECT && Ptr(fs, s) == 0
    requires |fs.inodes[s.ino].addrs| == NDIRECT + 1 && (s.k > NDIRECT ==> fs.inodes[s.ino].addrs[NDIRECT] != 0)
    ensures fs' in Sound() && SameFiles(fs, fs')
    ensures addr.Some? ==> addr.value != 0 && forall t :: Ptr(fs', t) == if t == s then addr.value else Ptr(fs, t)
    ensures addr.None? ==> fs' == fs && FullDisk(fs)
  {
    fs', addr := Balloc(fs);
    if addr.Some? {
      var b := addr.value;
      AllocatedSound(fs, b);
      AllocatedFiles(fs, b);
      assert 0 in fs.used;
      assert Fresh(fs', b);
      assert Ptr(fs', s) == 0;
      LinkedSound(fs', s, b);
      LinkedFiles(fs', s, b);
      SameFilesTrans(fs, fs', Linked(fs', s, b));
      fs' := Linked(fs', s, b);
    }
  }

  /** bmap (fs.c:375-404): the number of the nth block of a file, allocating what is missing. A
      file that has the block is not touched. */
  method Bmap(fs: Fs, ino: int, bn: int) returns (fs': Fs, addr: Option<int>)
    requires fs in Sound() && ino in fs.inodes && 0 <= bn
    ensures fs' in Sound() && SameFiles(fs, fs')
    ensures addr.Some? ==> bn < MAXFILE && addr.value == BlockOf(fs', ino, bn) != 0
    ensures BlockOf(fs, ino, bn) != 0 && bn < MAXFILE ==> fs' == fs && addr.Some?
    ensures bn >= MAXFILE ==> addr.None? && fs' == fs
    ensures bn < MAXFILE && addr.None? ==> FullDisk(fs')
  {
    assert InodeOk(fs, ino);
    fs' := fs;
    if bn < NDIRECT {
      if fs.inodes[ino].addrs[bn] == 0 {
        fs', addr := Attach(fs, Slot(ino, bn));
        return;
      }
      return fs, Some(fs.inodes[ino].addrs[bn]);
    }
    var n := bn - NDIRECT;
    if n < NINDIRECT {
      if fs.inodes[ino].addrs[NDIRECT] == 0 {
        fs', addr := Attach(fs, Slot(ino, NDIRECT));
        if addr.None? {
          return;
        }
        assert Ptr(fs', Slot(ino, NDIRECT)) == addr.value;
        assert InodeOk(fs', ino);
      }
      var ind := fs'.inodes[ino].addrs[NDIRECT];
      assert PtrOk(fs', Slot(ino, NDIRECT));
      assert BlockOk(fs', ind);
      var a := WordsOf(fs'.bytes[ind]);
      if a[n] == 0 {
        ghost var mid := fs';
        fs', addr := Attach(fs', Slot(ino, NDIRECT + 1 + n));
        SameFilesTrans(fs, mid, fs');
        return;
      }
      return fs', Some(a[n]);
    }
    return fs, None;
  }

  // ----- Reading and writing -----

  /** A file as a byte sequence. */
  function Contents(fs: Fs, ino: int): (r: seq<int>)
    requires ino in fs.inodes && fs.inodes[ino].size >= 0
    ensures |r| == fs.inodes[ino].size && forall i :: 0 <= i < |r| ==> r[i] == ByteAt(fs, ino, i)
  {
    seq(fs.inodes[ino].size, i requires 0 <= i < fs.inodes[ino].size => ByteAt(fs, ino, i))
  }

  /** readi (fs.c:455-477): the bytes asked for, as far as the file has them. It allocates
      nothing. */
  method ReadI(fs: Fs, ino: int, off: int, n: int) returns (fs': Fs, data: Option<seq<int>>)
    requires fs in Sound() && ino in fs.inodes && 0 <= off < TWO32 && 0 <= n < TWO32
    ensures fs' == fs && fs.inodes[ino].size >= 0
    ensures data == if off > fs.inodes[ino].size || off + n >= TWO32 then None
                    else Some(Contents(fs, ino)[off..Least(off + n, fs.inodes[ino].size)])
  {
    assert InodeOk(fs, ino);
    fs' := fs;
    if off > fs.inodes[ino].size || (off + n) % TWO32 < off {
      return fs, None;
    }
    var len := n;
    if off + n > fs.inodes[ino].size {
      len := fs.inodes[ino].size - off;
    }
    var dst: seq<int> := [];
    var tot := 0;
    while tot < len
      invariant 0 <= tot <= len && |dst| == tot && fs' == fs
      invariant forall j :: 0 <= j < tot ==> dst[j] == ByteAt(fs, ino, off + j)
    {
      var o := off + tot;
      assert BlockOf(fs, ino, o / BSIZE) != 0;
      var b;
      fs', b := Bmap(fs', ino, o / BSIZE);
      assert PtrOk(fs, DataSlot(ino, o / BSIZE));
      assert BlockOk(fs, b.value);
      var m := Least(len - tot, BSIZE - o % BSIZE);
      var piece := fs.bytes[b.value][o % BSIZE..o % BSIZE + m];
      forall j | 0 <= j < m
        ensures piece[j] == ByteAt(fs, ino, o + j)
      {
        assert (o + j) / BSIZE == o / BSIZE && (o + j) % BSIZE == o % BSIZE + j;
      }
      dst := dst + piece;
      tot := tot + m;
    }
    assert dst == Contents(fs, ino)[off..off + len];
    return fs', Some(dst);
  }

  /** memmove into a block and log_write: the bytes from `o` on are replaced. */
  function Stored(fs: Fs, b: int, o: int, piece: seq<int>): Fs
    requires b in fs.bytes && 0 <= o && o + |piece| <= |fs.bytes[b]|
  {
    fs.(bytes := fs.bytes[b := fs.bytes[b][..o] + piece + fs.bytes[b][o + |piece|..]])
  }

  /** A store into a block of a file is seen in those bytes of that file only. */
  lemma {:induction false} StoredBytes(fs: Fs, ino: int, bn: int, o: int, piece: seq<int>, ino': int, i: int)
    requires fs in Sound() && 0 <= bn && BlockOf(fs, ino, bn) != 0 && BlockOk(fs, BlockOf(fs, ino, bn)) && 0 <= o &&
             o + |piece| <= BSIZE && 0 <= i
    ensures var fs' := Stored(fs, BlockOf(fs, ino, bn), o, piece);
            && BlockOf(fs', ino', i / BSIZE) == BlockOf(fs, ino', i / BSIZE)
            && ByteAt(fs', ino', i) == if ino' == ino && i / BSIZE == bn && o <= i % BSIZE < o + |piece|
               then piece[i % BSIZE - o] else ByteAt(fs, ino', i)
  {
    StoredPtr(fs, ino, bn, o, piece, DataSlot(ino', i / BSIZE));
    assert SamePtr(fs, DataSlot(ino, bn), DataSlot(ino', i / BSIZE)) ==> ino == ino' && bn == i / BSIZE;
  }

  /** It changes no block number, because no indirect block is a block of data. */
  lemma {:induction false} StoredPtr(fs: Fs, ino: int, bn: int, o: int, piece: seq<int>, s: Slot)
    requires fs in Sound() && BlockOf(fs, ino, bn) != 0 && BlockOk(fs, BlockOf(fs, ino, bn)) && 0 <= o &&
             o + |piece| <= BSIZE
    ensures Ptr(Stored(fs, BlockOf(fs, ino, bn), o, piece), s) == Ptr(fs, s)
  {
    assert !SamePtr(fs, DataSlot(ino, bn), Slot(s.ino, NDIRECT));
  }

  lemma {:induction false} StoredSound(fs: Fs, ino: int, bn: int, o: int, piece: seq<int>)
    requires fs in Sound() && BlockOf(fs, ino, bn) != 0 && BlockOk(fs, BlockOf(fs, ino, bn)) && 0 <= o &&
             o + |piece| <= BSIZE
    ensures Stored(fs, BlockOf(fs, ino, bn), o, piece) in Sound()
    ensures forall s :: Ptr(Stored(fs, BlockOf(fs, ino, bn), o, piece), s) == Ptr(fs, s)
  {
    var fs' := Stored(fs, BlockOf(fs, ino, bn), o, piece);
    forall s
      ensures Ptr(fs', s) == Ptr(fs, s) && PtrOk(fs', s)
    {
      StoredPtr(fs, ino, bn, o, piece, s);
      assert PtrOk(fs, s);
    }
    forall x | 0 <= x < fs'.nblocks
      ensures BlockOk(fs', x)
    {
      assert BlockOk(fs, x);
    }
    forall s, t | SamePtr(fs', s, t)
      ensures s == t
    {
      assert SamePtr(fs, s, t);
    }
    forall ino | ino in fs'.inodes
      ensures InodeOk(fs', ino)
    {
      assert InodeOk(fs, ino);
      forall n | 0 <= n && n * BSIZE < fs'.inodes[ino].size
        ensures BlockOf(fs', ino, n) != 0
      {
        assert BlockOf(fs, ino, n) != 0;
      }
    }
  }

  datatype Written = Wrote | Refused | Panicked

  /** How far a write has come: the bytes from `off` to `off + tot` are those of `src`, and no
      other byte of any file has changed. */
  ghost predicate Partly(fs: Fs, fs': Fs, ino: int, off: int, src: seq<int>, tot: int)
  {
    && fs'.inodes.Keys == fs.inodes.Keys && fs'.meta == fs.meta && fs'.nblocks == fs.nblocks
    && (forall x {:trigger fs'.inodes[x]} :: x in fs.inodes ==> fs'.inodes[x].size == fs.inodes[x].size)
    && (forall x, i {:trigger ByteKept(fs, fs', ino, off, src, tot, x, i)} ::
       ByteKept(fs, fs', ino, off, src, tot, x, i))
  }

  ghost predicate ByteKept(fs: Fs, fs': Fs, ino: int, off: int, src: seq<int>, tot: int, x: int, i: int)
  {
    && (x == ino && off <= i < off + tot && i - off < |src| ==>
       BlockOf(fs', x, i / BSIZE) != 0 && ByteAt(fs', x, i) == src[i - off])
    && (!(x == ino && off <= i < off + tot) && 0 <= i && BlockOf(fs, x, i / BSIZE) != 0 ==>
          BlockOf(fs', x, i / BSIZE) != 0 && ByteAt(fs', x, i) == ByteAt(fs, x, i))
  }

  /** One turn of the loop of writei (fs.c:498-504). */
  method WriteTurn(fs: Fs, ino: int, off: int, src: seq<int>, tot: int, ghost fs0: Fs) returns (fs': Fs, m: int)
    requires fs in Sound() && ino in fs.inodes && 0 <= off && 0 <= tot < |src| && off + |src| <= MAXFILE * BSIZE &&
             Partly(fs0, fs, ino, off, src, tot)
    ensures fs' in Sound() && fs'.inodes.Keys == fs.inodes.Keys && 0 <= m && tot + m <= |src| &&
            (m > 0 ==> Partly(fs0, fs', ino, off, src, tot + m))
    ensures m == 0 ==> FullDisk(fs')
  {
    var o := off + tot;
    var b;
    fs', b := Bmap(fs, ino, o / BSIZE);
    if b.None? {
      return fs', 0;
    }
    m := Least(|src| - tot, BSIZE - o % BSIZE);
    assert PtrOk(fs', DataSlot(ino, o / BSIZE));
    assert BlockOk(fs', b.value);
    ghost var mid := fs';
    var piece := src[tot..tot + m];
    StoredSound(mid, ino, o / BSIZE, o % BSIZE, piece);
    fs' := Stored(fs', b.value, o % BSIZE, piece);
    ghost var done := tot + m;
    forall x, i
      ensures ByteKept(fs0, fs', ino, off, src, done, x, i)
    {
      if 0 <= i {
        StoredBytes(mid, ino, o / BSIZE, o % BSIZE, piece, x, i);
        assert ByteKept(fs0, fs, ino, off, src, tot, x, i);
        assert BlockOf(fs, x, i / BSIZE) != 0 ==> ByteAt(mid, x, i) == ByteAt(fs, x, i);
        if o <= i < o + m {
          assert i / BSIZE == o / BSIZE && i % BSIZE - o % BSIZE == i - o;
        }
      }
    }
  }

  /** The file after a write: replaced from `off` on, and longer if need be. */
  function Overwritten(was: seq<int>, off: int, src: seq<int>): seq<int>
    requires 0 <= off <= |was|
  {
    was[..off] + src + if off + |src| < |was| then was[off + |src|..] else []
  }

  /** The size grows over bytes that were all written. */
  lemma {:induction false} Resized(fs: Fs, fs': Fs, ino: int, off: int, src: seq<int>)
    requires fs in Sound() && fs' in Sound() && ino in fs.inodes && 0 <= off <= fs.inodes[ino].size &&
             off + |src| <= MAXFILE * BSIZE
    requires Partly(fs, fs', ino, off, src, |src|)
    ensures var size := fs.inodes[ino].size; var newsize := if off + |src| > size then off + |src| else size;
            var g := fs'.(inodes := fs'.inodes[ino := fs'.inodes[ino].(size := newsize)]);
            && g in Sound() && (forall s :: Ptr(g, s) == Ptr(fs', s)) &&
               (forall x, i :: ByteAt(g, x, i) == ByteAt(fs', x, i))
  {
    var size := fs.inodes[ino].size;
    var newsize := if off + |src| > size then off + |src| else size;
    var g := fs'.(inodes := fs'.inodes[ino := fs'.inodes[ino].(size := newsize)]);
    forall s
      ensures Ptr(g, s) == Ptr(fs', s) && PtrOk(g, s)
    {
      assert PtrOk(fs', s);
    }
    forall x | 0 <= x < g.nblocks
      ensures BlockOk(g, x)
    {
      assert BlockOk(fs', x);
    }
    forall s, t | SamePtr(g, s, t)
      ensures s == t
    {
      assert SamePtr(fs', s, t);
    }
    assert InodeOk(fs', ino) && InodeOk(fs, ino);
    forall n | 0 <= n && n * BSIZE < newsize
      ensures BlockOf(g, ino, n) != 0
    {
      assert n * BSIZE < size ==> BlockOf(fs', ino, n) != 0;
      var i := if n * BSIZE < off then off else n * BSIZE;
      if n * BSIZE >= size {
        assert ByteKept(fs, fs', ino, off, src, |src|, ino, n * BSIZE);
        assert n * BSIZE / BSIZE == n;
      }
    }
    forall x | x in g.inodes && x != ino
      ensures InodeOk(g, x)
    {
      assert InodeOk(fs', x);
      forall n | 0 <= n && n * BSIZE < g.inodes[x].size
        ensures BlockOf(g, x, n) != 0
      {
        assert BlockOf(fs', x, n) != 0;
      }
    }
    assert InodeOk(g, ino);
  }

  lemma {:induction false} WrittenContents(fs: Fs, mid: Fs, g: Fs, ino: int, off: int, src: seq<int>)
    requires fs in Sound() && ino in fs.inodes && 0 <= off <= fs.inodes[ino].size &&
             Partly(fs, mid, ino, off, src, |src|)
    requires g.inodes.Keys == fs.inodes.Keys && g.inodes[ino].size == if off + |src| > fs.inodes[ino].size
             then off + |src| else fs.inodes[ino].size
    requires forall x :: x in fs.inodes && x != ino ==> g.inodes[x].size == fs.inodes[x].size
    requires forall x, i :: ByteAt(g, x, i) == ByteAt(mid, x, i)
    ensures Contents(g, ino) == Overwritten(Contents(fs, ino), off, src)
    ensures forall x :: x in fs.inodes && x != ino ==> SameContents(fs, g, x)
  {
    var was, now := Contents(fs, ino), Contents(g, ino);
    assert InodeOk(fs, ino);
    forall i | 0 <= i < |now|
      ensures now[i] == Overwritten(was, off, src)[i]
    {
      assert ByteKept(fs, mid, ino, off, src, |src|, ino, i);
      assert i < |was| ==> BlockOf(fs, ino, i / BSIZE) != 0;
    }
    forall x | x in fs.inodes && x != ino
      ensures SameContents(fs, g, x)
    {
      assert InodeOk(fs, x);
      forall i | 0 <= i < fs.inodes[x].size
        ensures ByteAt(g, x, i) == ByteAt(fs, x, i)
      {
        assert ByteKept(fs, mid, ino, off, src, |src|, x, i);
        assert BlockOf(fs, x, i / BSIZE) != 0;
      }
    }
  }

  /** writei (fs.c:483-511): the file is overwritten from `off` on, and no other file changes. The
      write is refused when it would leave a hole, wrap around or exceed the largest file. */
  method WriteI(fs: Fs, ino: int, off: int, src: seq<int>) returns (fs': Fs, r: Written)
    requires fs in Sound() && ino in fs.inodes && 0 <= off < TWO32 && |src| < TWO32
    ensures fs' in Sound() && fs'.inodes.Keys == fs.inodes.Keys && fs.inodes[ino].size >= 0 && fs'.inodes[ino].size >= 0
    ensures r.Refused? <==> off > fs.inodes[ino].size || off + |src| > MAXFILE * BSIZE
    ensures r.Refused? ==> fs' == fs
    ensures r.Panicked? ==> FullDisk(fs')
    ensures r.Wrote? ==> Contents(fs', ino) == Overwritten(Contents(fs, ino), off, src)
    ensures r.Wrote? ==> forall x :: x in fs.inodes && x != ino ==> SameContents(fs, fs', x)
  {
    assert InodeOk(fs, ino);
    fs' := fs;
    if off > fs.inodes[ino].size || (off + |src|) % TWO32 < off {
      return fs, Refused;
    }
    if off + |src| > MAXFILE * BSIZE {
      return fs, Refused;
    }
    var tot := 0;
    while tot < |src|
      invariant 0 <= tot <= |src| && fs' in Sound() && Partly(fs, fs', ino, off, src, tot)
    {
      var m;
      fs', m := WriteTurn(fs', ino, off, src, tot, fs);
      if m == 0 {
        assert InodeOk(fs', ino);
        return fs', Panicked;
      }
      tot := tot + m;
    }
    ghost var mid := fs';
    Resized(fs, fs', ino, off, src);
    if |src| > 0 && off + |src| > fs'.inodes[ino].size {
      fs' := fs'.(inodes := fs'.inodes[ino := fs'.inodes[ino].(size := off + |src|)]);
    }
    WrittenContents(fs, mid, fs', ino, off, src);
    return fs', Wrote;
  }

  ghost predicate SameContents(fs: Fs, fs': Fs, ino: int)
  {
    ino in fs.inodes && ino in fs'.inodes && fs.inodes[ino].size == fs'.inodes[ino].size >= 0 &&
      Contents(fs', ino) == Contents(fs, ino)
  }

  // ----- Truncation -----

  /** The blocks in the places [lo, hi) of an inode. */
  ghost function OwnedIn(fs: Fs, ino: int, lo: int, hi: int): set<int>
    decreases hi - lo
  {
    if hi <= lo then {}
    else OwnedIn(fs, ino, lo, hi - 1) + if Ptr(fs, Slot(ino, hi - 1)) != 0 then {Ptr(fs, Slot(ino, hi - 1))} else {}
  }

  lemma {:induction false} OwnedInIs(fs: Fs, ino: int, lo: int, hi: int, b: int)
    ensures b in OwnedIn(fs, ino, lo, hi) <==> b != 0 && exists k :: lo <= k < hi && Ptr(fs, Slot(ino, k)) == b
    decreases hi - lo
  {
    if hi > lo {
      OwnedInIs(fs, ino, lo, hi - 1, b);
    }
  }

  /** A place not yet visited holds a block that is still in use. */
  lemma {:induction false} StillOwned(fs: Fs, ino: int, lo: int, hi: int, k: int)
    requires fs in Sound() && (k < lo || k >= hi) && Ptr(fs, Slot(ino, k)) != 0
    ensures Ptr(fs, Slot(ino, k)) !in OwnedIn(fs, ino, lo, hi)
  {
    var b := Ptr(fs, Slot(ino, k));
    OwnedInIs(fs, ino, lo, hi, b);
    forall j | lo <= j < hi
      ensures Ptr(fs, Slot(ino, j)) != b
    {
      assert SamePtr(fs, Slot(ino, j), Slot(ino, k)) ==> j == k;
    }
  }

  /** bfree (fs.c:94-106): a panic when the block is free. */
  method Bfree(used: set<int>, b: int) returns (used': set<int>, ok: bool)
    ensures ok <==> b in used
    ensures used' == used - {b}
  {
    if b !in used {
      return used - {b}, false;
    }
    return used - {b}, true;
  }

  /** The loop over the direct blocks (fs.c:418-423). */
  method FreeDirect(fs: Fs, ino: int) returns (used: set<int>, addrs: seq<int>, ok: bool)
    requires fs in Sound() && ino in fs.inodes && |fs.inodes[ino].addrs| == NDIRECT + 1
    ensures ok && used == fs.used - OwnedIn(fs, ino, 0, NDIRECT)
    ensures |addrs| == NDIRECT + 1 && addrs[NDIRECT] == fs.inodes[ino].addrs[NDIRECT] && forall i ::
            0 <= i < NDIRECT ==> addrs[i] == 0
  {
    used, addrs, ok := fs.used, fs.inodes[ino].addrs, true;
    var i := 0;
    while i < NDIRECT
      invariant 0 <= i <= NDIRECT && ok && used == fs.used - OwnedIn(fs, ino, 0, i)
      invariant |addrs| == NDIRECT + 1 && (forall j :: 0 <= j < i ==> addrs[j] == 0) &&
                (forall j :: i <= j <= NDIRECT ==> addrs[j] == fs.inodes[ino].addrs[j])
    {
      assert Ptr(fs, Slot(ino, i)) == addrs[i];
      if addrs[i] != 0 {
        StillOwned(fs, ino, 0, i, i);
        assert PtrOk(fs, Slot(ino, i));
        used, ok := Bfree(used, addrs[i]);
        addrs := addrs[i := 0];
      }
      i := i + 1;
    }
  }

  /** The loop over the entries of the indirect block (fs.c:425-436), and that block itself. */
  method FreeIndirect(fs: Fs, ino: int, direct: set<int>) returns (used: set<int>, ok: bool)
    requires fs in Sound() && ino in fs.inodes && |fs.inodes[ino].addrs| == NDIRECT + 1 &&
             fs.inodes[ino].addrs[NDIRECT] != 0
    requires direct == fs.used - OwnedIn(fs, ino, 0, NDIRECT)
    ensures ok && used == fs.used - OwnedIn(fs, ino, 0, NDIRECT) - OwnedIn(fs, ino, NDIRECT + 1,
            NDIRECT + NINDIRECT + 1) - {fs.inodes[ino].addrs[NDIRECT]}
  {
    var ind := fs.inodes[ino].addrs[NDIRECT];
    assert PtrOk(fs, Slot(ino, NDIRECT)) && Ptr(fs, Slot(ino, NDIRECT)) == ind;
    assert BlockOk(fs, ind);
    var a := WordsOf(fs.bytes[ind]);
    used, ok := direct, true;
    var j := 0;
    while j < NINDIRECT
      invariant 0 <= j <= NINDIRECT && ok
      invariant used == fs.used - OwnedIn(fs, ino, 0, NDIRECT) - OwnedIn(fs, ino, NDIRECT + 1, NDIRECT + 1 + j)
    {
      assert Ptr(fs, Slot(ino, NDIRECT + 1 + j)) == a[j];
      if a[j] != 0 {
        StillOwned(fs, ino, 0, NDIRECT, NDIRECT + 1 + j);
        StillOwned(fs, ino, NDIRECT + 1, NDIRECT + 1 + j, NDIRECT + 1 + j);
        assert PtrOk(fs, Slot(ino, NDIRECT + 1 + j));
        used, ok := Bfree(used, a[j]);
      }
      j := j + 1;
    }
    StillOwned(fs, ino, 0, NDIRECT, NDIRECT);
    StillOwned(fs, ino, NDIRECT + 1, NDIRECT + 1 + NINDIRECT, NDIRECT);
    used, ok := Bfree(used, ind);
  }

  /** The state after itrunc. */
  ghost function Truncated(fs: Fs, ino: int): Fs
  {
    fs.(used := fs.used - OwnedIn(fs, ino, 0, NDIRECT + NINDIRECT + 1),
      inodes := fs.inodes[ino := Inode(0, Zeros(NDIRECT + 1))])
  }

  /** itrunc (fs.c:412-438): frees exactly the blocks of the inode, and never one that is free. */
  method ITrunc(fs: Fs, ino: int) returns (fs': Fs, ok: bool)
    requires fs in Sound() && ino in fs.inodes
    ensures ok && fs' == Truncated(fs, ino)
  {
    assert InodeOk(fs, ino);
    var used, addrs;
    used, addrs, ok := FreeDirect(fs, ino);
    assert Ptr(fs, Slot(ino, NDIRECT)) == addrs[NDIRECT];
    if addrs[NDIRECT] != 0 {
      used, ok := FreeIndirect(fs, ino, used);
      addrs := addrs[NDIRECT := 0];
    }
    AllOwned(fs, ino);
    assert addrs == Zeros(NDIRECT + 1);
    fs' := fs.(used := used, inodes := fs.inodes[ino := Inode(0, addrs)]);
  }

  /** All places are the direct ones, the entries of the indirect block and that block. */
  lemma {:induction false} AllOwned(fs: Fs, ino: int)
    ensures var ind := Ptr(fs, Slot(ino, NDIRECT));
            OwnedIn(fs, ino, 0, NDIRECT + NINDIRECT + 1)
            == OwnedIn(fs, ino, 0, NDIRECT) + OwnedIn(fs, ino, NDIRECT + 1, NDIRECT + NINDIRECT + 1) + if ind != 0
              then {ind} else {}
    ensures Ptr(fs, Slot(ino, NDIRECT)) == 0 ==> OwnedIn(fs, ino, NDIRECT + 1, NDIRECT + NINDIRECT + 1) == {}
  {
    var ind := Ptr(fs, Slot(ino, NDIRECT));
    var all, direct := OwnedIn(fs, ino, 0, NDIRECT + NINDIRECT + 1), OwnedIn(fs, ino, 0, NDIRECT);
    var entries, self := OwnedIn(fs, ino, NDIRECT + 1, NDIRECT + NINDIRECT + 1), if ind != 0 then {ind} else {};
    forall b
      ensures b in all <==> b in direct || b in entries || b in self
      ensures ind == 0 ==> b !in entries
    {
      OwnedInIs(fs, ino, 0, NDIRECT + NINDIRECT + 1, b);
      OwnedInIs(fs, ino, 0, NDIRECT, b);
      OwnedInIs(fs, ino, NDIRECT + 1, NDIRECT + NINDIRECT + 1, b);
    }
  }

  lemma {:induction false} TruncatedPtr(fs: Fs, ino: int, s: Slot)
    ensures Ptr(Truncated(fs, ino), s) == if s.ino == ino then 0 else Ptr(fs, s)
  {
  }

  /** Afterwards the file is empty, the other files are as before, and exactly the blocks of the
      inode are free that were not. */
  lemma {:induction false} TruncatedSound(fs: Fs, ino: int)
    requires fs in Sound() && ino in fs.inodes
    ensures Truncated(fs, ino) in Sound() && Truncated(fs, ino).inodes[ino].size == 0
    ensures forall x :: x in fs.inodes && x != ino ==> SameContents(fs, Truncated(fs, ino), x)
    ensures forall b :: b in fs.used && b !in Truncated(fs, ino).used <==> b != 0 && exists k ::
            0 <= k <= NDIRECT + NINDIRECT && Ptr(fs, Slot(ino, k)) == b
  {
    var fs' := Truncated(fs, ino);
    forall s
      ensures Ptr(fs', s) == (if s.ino == ino then 0 else Ptr(fs, s)) && PtrOk(fs', s)
    {
      TruncatedPtr(fs, ino, s);
      assert PtrOk(fs, s);
      OwnedInIs(fs, ino, 0, NDIRECT + NINDIRECT + 1, Ptr(fs, s));
      forall k | 0 <= k <= NDIRECT + NINDIRECT
        ensures SamePtr(fs, s, Slot(ino, k)) ==> s.ino == ino
      {
      }
    }
    forall b
      ensures b in fs.used && b !in fs'.used <==> b != 0 && exists k ::
              0 <= k <= NDIRECT + NINDIRECT && Ptr(fs, Slot(ino, k)) == b
      ensures b in fs.meta ==> b in fs'.used
    {
      OwnedInIs(fs, ino, 0, NDIRECT + NINDIRECT + 1, b);
      forall k | 0 <= k <= NDIRECT + NINDIRECT && Ptr(fs, Slot(ino, k)) == b
        ensures b != 0 ==> b in fs.used && b !in fs.meta
      {
        assert PtrOk(fs, Slot(ino, k));
      }
    }
    forall x | 0 <= x < fs'.nblocks
      ensures BlockOk(fs', x)
    {
      assert BlockOk(fs, x);
    }
    forall s, t | SamePtr(fs', s, t)
      ensures s == t
    {
      assert SamePtr(fs, s, t);
    }
    forall x | x in fs'.inodes
      ensures InodeOk(fs', x) && (x != ino ==> SameContents(fs, fs', x))
    {
      assert InodeOk(fs, x);
      forall n | 0 <= n && n * BSIZE < fs'.inodes[x].size
        ensures BlockOf(fs', x, n) != 0
      {
        assert BlockOf(fs, x, n) != 0;
      }
      if x != ino {
        assert forall i :: ByteAt(fs', x, i) == ByteAt(fs, x, i);
      }
    }
  }

  // ----- Whole runs -----

  datatype Op = Read(ino: int, off: int, n: int) | Write(ino: int, off: int, src: seq<int>) | Trunc(ino: int)

  /** What a call returns: bytes, or whether it did what was asked. */
  datatype Result = Data(data: Option<seq<int>>) | Did(ok: bool)

  /** Files as byte sequences, and nothing else. */
  type Files = map<int, seq<int>>

  /** What a call does to files that are byte sequences. */
  function Effect(files: Files, op: Op): Files
  {
    if op.ino !in files then files
    else match op
      case Read(_, _, _) => files
      case Write(ino, off, src) =>
        if 0 <= off <= |files[ino]| && off + |src| <= MAXFILE * BSIZE
          then files[ino := Overwritten(files[ino], off, src)] else files
      case Trunc(ino) => files[ino := []]
  }

  /** What it returns. */
  function Returns(files: Files, op: Op): Result
  {
    match op
    case Read(ino, off, n) =>
      if ino in files && 0 <= off <= |files[ino]| && 0 <= n && off + n < TWO32
      then Data(Some(files[ino][off..Least(off + n, |files[ino]|)])) else Data(None)
    case Write(ino, off, src) => Did(ino in files && 0 <= off <= |files[ino]| && off + |src| <= MAXFILE * BSIZE)
    case Trunc(ino) => Did(ino in files)
  }

  /** The call takes the files from one state to the next and returns what it should. */
  predicate Follows(files: Files, op: Op, res: Result, files': Files)
  {
    files' == Effect(files, op) && res == Returns(files, op)
  }

  predicate InRange(op: Op)
  {
    match op
    case Read(_, off, n) => 0 <= off < TWO32 && 0 <= n < TWO32
    case Write(_, off, src) => 0 <= off < TWO32 && |src| < TWO32
    case Trunc(_) => true
  }

  ghost function FilesOf(fs: Fs): Files
    requires fs in Sound()
  {
    map ino | ino in fs.inodes && InodeOk(fs, ino) :: Contents(fs, ino)
  }

  lemma {:induction false} FilesOfAll(fs: Fs, ino: int)
    requires fs in Sound()
    ensures ino in FilesOf(fs) <==> ino in fs.inodes
    ensures ino in fs.inodes ==>
            fs.inodes[ino].size >= 0 && FilesOf(fs)[ino] == Contents(fs, ino) &&
            |FilesOf(fs)[ino]| == fs.inodes[ino].size
  {
    assert ino in fs.inodes ==> InodeOk(fs, ino);
  }

  /** Only one file differs. */
  lemma {:induction false} FilesDiffer(fs: Fs, fs': Fs, ino: int, now: seq<int>)
    requires fs in Sound() && fs' in Sound() && fs'.inodes.Keys == fs.inodes.Keys && ino in fs.inodes &&
             fs'.inodes[ino].size >= 0 && Contents(fs', ino) == now
    requires forall x :: x in fs.inodes && x != ino ==> SameContents(fs, fs', x)
    ensures FilesOf(fs') == FilesOf(fs)[ino := now]
  {
    forall x
      ensures x in FilesOf(fs') <==> x in FilesOf(fs)[ino := now]
      ensures x in FilesOf(fs') ==> FilesOf(fs')[x] == FilesOf(fs)[ino := now][x]
    {
      FilesOfAll(fs, x);
      FilesOfAll(fs', x);
      if x in fs.inodes && x != ino {
        assert SameContents(fs, fs', x);
      }
    }
  }

  /** The files a sound state shows. */
  ghost function Shown(fs: Fs): iset<Files>
  {
    iset files: Files | Shows(fs, files)
  }

  ghost predicate Shows(fs: Fs, files: Files)
  {
    fs in Sound() && files == FilesOf(fs)
  }

  method CallWrite(fs: Fs, ino: int, off: int, src: seq<int>, ghost files: Files) returns (fs': Fs, res: Option<Result>)
    requires files in Shown(fs) && InRange(Write(ino, off, src)) && ino in fs.inodes
    ensures fs' in Sound() && (res.None? ==> FullDisk(fs'))
    ensures res.Some? ==>
            Follows(files, Write(ino, off, src), res.value, Effect(files, Write(ino, off, src))) &&
            Effect(files, Write(ino, off, src)) in Shown(fs')
  {
    FilesOfAll(fs, ino);
    var w;
    fs', w := WriteI(fs, ino, off, src);
    if w.Wrote? {
      FilesDiffer(fs, fs', ino, Overwritten(Contents(fs, ino), off, src));
    }
    res := if w.Panicked? then None else Some(Did(w.Wrote?));
  }

  /** One call on an inode that may not exist. `None` stands for the panic of balloc. */
  method Call(fs: Fs, op: Op, ghost files: Files) returns (fs': Fs, res: Option<Result>)
    requires files in Shown(fs) && InRange(op)
    ensures fs' in Sound() && (res.None? ==> op.Write? && FullDisk(fs'))
    ensures res.Some? ==> Follows(files, op, res.value, Effect(files, op)) && Effect(files, op) in Shown(fs')
  {
    FilesOfAll(fs, op.ino);
    fs' := fs;
    if op.ino !in fs.inodes {
      return fs, Some(if op.Read? then Data(None) else Did(false));
    }
    match op {
      case Read(ino, off, n) =>
        var data;
        fs', data := ReadI(fs, ino, off, n);
        res := Some(Data(data));
      case Write(ino, off, src) =>
        fs', res := CallWrite(fs, ino, off, src, files);
      case Trunc(ino) =>
        var ok;
        fs', ok := ITrunc(fs, ino);
        TruncatedSound(fs, ino);
        assert Contents(fs', ino) == [];
        FilesDiffer(fs, fs', ino, []);
        res := Some(Did(ok));
    }
  }

  /** Any sequence of calls: every read returns the bytes last written, and the files go through
      the states byte sequences would go through. */
  method Calls(fs: Fs, ops: seq<Op>, ghost files: Files) returns (fs': Fs, rs: seq<Result>, ghost states: seq<Files>)
    requires files in Shown(fs) && forall i :: 0 <= i < |ops| ==> InRange(ops[i])
    ensures |rs| <= |ops| && |states| == |rs| + 1 && states[0] == files
    ensures forall i :: 0 <= i < |rs| ==> Follows(states[i], ops[i], rs[i], states[i + 1])
    ensures |rs| == |ops| ==> states[|rs|] in Shown(fs')
    ensures |rs| < |ops| ==> ops[|rs|].Write? && FullDisk(fs')
  {
    fs', rs, states := fs, [], [files];
    while |rs| < |ops|
      invariant |rs| <= |ops| && |states| == |rs| + 1 && states[0] == files && states[|rs|] in Shown(fs')
      invariant forall i :: 0 <= i < |rs| ==> Follows(states[i], ops[i], rs[i], states[i + 1])
    {
      var res;
      ghost var now := states[|rs|];
      ghost var next := Effect(now, ops[|rs|]);
      fs', res := Call(fs', ops[|rs|], now);
      if res.None? {
        return;
      }
      states := states + [next];
      rs := rs + [res.value];
    }
  }
}
