/** The swap file: the bitmap and the slots that fs.c:680-786 keeps in one inode, reached through
    the chunked reads and writes of file.c. */
module SwapFile {
  import opened Common

  /** The largest file: MAXFILE * BSIZE. */
  const MAXBYTES: int := 71680

  /** What filewrite puts into one transaction (file.c:128). */
  const CHUNK: int := 1536

  type Byte = bv8

  /** The bytes of the inode, the offset of the open file, and the size of the bitmap in bytes.
      Slot `i` is the page after the bitmap and `i` pages. */
  datatype Swap = Swap(file: seq<Byte>, off: int, bmap: int)

  // ----- Bits of a byte -----

  /** 1 << j. */
  function Mask(j: int): Byte
    requires 0 <= j < 8
  {
    match j
    case 0 => 1
    case 1 => 2
    case 2 => 4
    case 3 => 8
    case 4 => 16
    case 5 => 32
    case 6 => 64
    case _ => 128
  }

  predicate Bit(v: Byte, j: int)
    requires 0 <= j < 8
  {
    v & Mask(j) != 0
  }

  /** The bit cleared, and then set if asked for (fs.c:699-701). */
  function WithBit(v: Byte, j: int, b: bool): Byte
    requires 0 <= j < 8
  {
    var w := v & !(v & Mask(j));
    if b then w | Mask(j) else w
  }

  lemma {:induction false} WithBitIs(v: Byte, j: int, b: bool, k: int)
    requires 0 <= j < 8 && 0 <= k < 8
    ensures Bit(WithBit(v, j, b), k) <==> if k == j then b else Bit(v, k)
  {
  }

  /** A byte is its eight bits. */
  lemma {:induction false} BitsTell(v: Byte, w: Byte)
    requires forall j {:trigger Bit(v, j)} :: 0 <= j < 8 ==> (Bit(v, j) <==> Bit(w, j))
    ensures v == w
  {
    assert Bit(v, 0) <==> Bit(w, 0);
    assert Bit(v, 1) <==> Bit(w, 1);
    assert Bit(v, 2) <==> Bit(w, 2);
    assert Bit(v, 3) <==> Bit(w, 3);
    assert Bit(v, 4) <==> Bit(w, 4);
    assert Bit(v, 5) <==> Bit(w, 5);
    assert Bit(v, 6) <==> Bit(w, 6);
    assert Bit(v, 7) <==> Bit(w, 7);
  }

  // ----- The file -----

  /** A file overwritten from `off` on. */
  function Over(file: seq<Byte>, off: int, src: seq<Byte>): (r: seq<Byte>)
    requires 0 <= off <= |file|
    ensures |r| == if off + |src| < |file| then |file| else off + |src|
    ensures forall i :: 0 <= i < |r| ==> r[i] == if off <= i < off + |src| then src[i - off] else file[i]
  {
    file[..off] + src + if off + |src| < |file| then file[off + |src|..] else []
  }

  lemma {:induction false} OverTwice(file: seq<Byte>, off: int, a: seq<Byte>, b: seq<Byte>)
    requires 0 <= off <= |file|
    ensures Over(Over(file, off, a), off + |a|, b) == Over(file, off, a + b)
  {
  }

  datatype Whence = SeekSet | SeekCur | SeekEnd | Other

  const TWO31: int := 0x8000_0000
  /** fileseek (file.c:153-196), whose comparisons are unsigned. SEEK_END counts on from the end of the
      file instead of back from it. */
  method FileSeek(s: Swap, offset: int, whence: Whence) returns (s': Swap, ok: bool)
    requires |s.file| <= MAXBYTES && -TWO31 <= offset < TWO31 && (whence.SeekCur? ==> 0 <= s.off < TWO31)
    ensures s' == s.(off := s'.off) && (!ok ==> s' == s)
    ensures whence.SeekSet? ==> (ok <==> 0 <= offset <= |s.file|) && (ok ==> s'.off == offset)
    ensures whence.SeekCur? ==> (ok <==> 0 <= s.off + offset <= |s.file|) && (ok ==> s'.off == s.off + offset)
    ensures whence.SeekEnd? ==> (ok <==> 0 <= offset <= |s.file|) && (ok ==> s'.off == |s.file| + offset)
    ensures whence.Other? ==> !ok
  {
    match whence {
      case SeekSet =>
        if offset % TWO32 > |s.file| {
          return s, false;
        }
        return s.(off := offset), true;
      case SeekCur =>
        if (s.off + offset) % TWO32 > |s.file| {
          return s, false;
        }
        return s.(off := (s.off + offset) % TWO32), true;
      case SeekEnd =>
        if offset % TWO32 > |s.file| {
          return s, false;
        }
        return s.(off := (|s.file| + offset) % TWO32), true;
      case Other =>
        return s, false;
    }
  }

  /** fileread (file.c:93-108) over readi. */
  method FileRead(s: Swap, n: int) returns (s': Swap, data: seq<Byte>)
    requires 0 <= s.off <= |s.file| && 0 <= n
    ensures data == s.file[s.off..Least(s.off + n, |s.file|)] && s' == s.(off := s.off + |data|)
  {
    var end := Least(s.off + n, |s.file|);
    data := s.file[s.off..end];
    s' := s.(off := end);
  }

  /** How much of `len` bytes goes into the file from `off` on: whole chunks, as long as the largest
      file has room for them. */
  function Room(off: int, len: int): (r: int)
    requires 0 <= len
    ensures 0 <= r <= len && (off + len <= MAXBYTES ==> r == len) && (r > 0 ==> off + r <= MAXBYTES)
    decreases len
  {
    var c := Least(len, CHUNK);
    if len == 0 || off + c > MAXBYTES then 0 else c + Room(off + c, len - c)
  }

  /** filewrite (file.c:113-150) over writei: it stops at the first chunk that the largest file has
      no room for. `i` is how much was written. */
  method FileWrite(s: Swap, src: seq<Byte>) returns (s': Swap, i: int)
    requires 0 <= s.off <= |s.file| <= MAXBYTES
    ensures i == Room(s.off, |src|) && s' == s.(file := Over(s.file, s.off, src[..i]), off := s.off + i) &&
            |s'.file| <= MAXBYTES
  {
    s', i := s, 0;
    assert src[..0] == [];
    while i < |src|
      invariant 0 <= i <= |src| && i + Room(s.off + i, |src| - i) == Room(s.off, |src|)
      invariant s' == s.(file := Over(s.file, s.off, src[..i]), off := s.off + i) && |s'.file| <= MAXBYTES
    {
      var n1 := Least(|src| - i, CHUNK);
      if s'.off + n1 > MAXBYTES {
        return;
      }
      OverTwice(s.file, s.off, src[..i], src[i..i + n1]);
      assert src[..i] + src[i..i + n1] == src[..i + n1];
      s' := s'.(file := Over(s'.file, s'.off, src[i..i + n1]), off := s'.off + n1);
      i := i + n1;
    }
    assert src[..i] == src;
  }

  // ----- Bitmap and slots -----

  /** The largest bitmap: a bit for each page below PHYSTOP (fs.c:846). */
  const MAXBMAP: int := 7168

  /** The bitmap is there. */
  predicate Valid(s: Swap)
  {
    0 < s.bmap <= MAXBMAP && s.bmap <= |s.file| <= MAXBYTES && 0 <= s.off
  }

  predicate UsedBit(s: Swap, i: int)
    requires Valid(s) && 0 <= i < 8 * s.bmap
  {
    Bit(s.file[i / 8], i % 8)
  }

  /** The slot lies in the largest file. */
  predicate Fits(s: Swap, i: int)
  {
    s.bmap + (i + 1) * PGSIZE <= MAXBYTES
  }

  predicate Stored(s: Swap, i: int)
  {
    0 <= i && 0 < s.bmap && s.bmap + (i + 1) * PGSIZE <= |s.file|
  }

  function Slot(s: Swap, i: int): seq<Byte>
    requires Stored(s, i)
  {
    s.file[s.bmap + i * PGSIZE..s.bmap + (i + 1) * PGSIZE]
  }

  ghost predicate SameBits(s: Swap, s': Swap)
    requires Valid(s) && Valid(s')
  {
    s'.bmap == s.bmap && forall i {:trigger UsedBit(s', i)} :: 0 <= i < 8 * s.bmap ==>
      (UsedBit(s', i) <==> UsedBit(s, i))
  }

  ghost predicate SameSlots(s: Swap, s': Swap, except: int)
  {
    s'.bmap == s.bmap && forall i {:trigger Stored(s', i)} :: Stored(s, i) && i != except ==>
      Stored(s', i) && Slot(s', i) == Slot(s, i)
  }

  /** The file with one bit as given, standing behind its byte. */
  function WithUsed(s: Swap, i: int, bit: bool): Swap
    requires Valid(s) && 0 <= i < 8 * s.bmap
  {
    s.(file := s.file[i / 8 := WithBit(s.file[i / 8], i % 8, bit)], off := i / 8 + 1)
  }

  /** swapfile_bitmap_set (fs.c:680-722): one bit changes, and nothing else. */
  method BitmapSet(s: Swap, bit: bool, i: int) returns (s': Swap, ok: bool)
    requires Valid(s) && 0 <= i < 8 * s.bmap
    ensures ok && s' == WithUsed(s, i, bit) && Valid(s') && SameSlots(s, s', -1)
    ensures forall k {:trigger UsedBit(s', k)} :: 0 <= k < 8 * s.bmap ==>
            (UsedBit(s', k) <==> if k == i then bit else UsedBit(s, k))
  {
    var value, data;
    s', ok := FileSeek(s, i / 8, SeekSet);
    s', data := FileRead(s', 1);
    value := if |data| > 0 then data[0] else 0;
    assert value == s.file[i / 8];
    value := WithBit(value, i % 8, bit);
    s', ok := FileSeek(s', i / 8, SeekSet);
    var n;
    s', n := FileWrite(s', [value]);
    assert [value][..1] == [value];
    assert s'.file == WithUsed(s, i, bit).file;
    WithUsedIs(s, i, bit);
  }

  lemma {:induction false} WithUsedIs(s: Swap, i: int, bit: bool)
    requires Valid(s) && 0 <= i < 8 * s.bmap
    ensures var s' := WithUsed(s, i, bit);
            && Valid(s') && SameSlots(s, s', -1)
            && forall k {:trigger UsedBit(s', k)} :: 0 <= k < 8 * s.bmap ==>
               (UsedBit(s', k) <==> if k == i then bit else UsedBit(s, k))
  {
    var s' := WithUsed(s, i, bit);
    forall k | 0 <= k < 8 * s.bmap
      ensures UsedBit(s', k) <==> if k == i then bit else UsedBit(s, k)
    {
      WithBitIs(s.file[i / 8], i % 8, bit, k % 8);
    }
    forall k | Stored(s, k)
      ensures Stored(s', k) && Slot(s', k) == Slot(s, k)
    {
    }
  }

  /** The readbuf of swapfile_get_free_page holds a whole page of the bitmap. */
  const BUFBITS: int := 32768

  /** The loop of swapfile_get_free_page (fs.c:727-752): the lowest clear bit, although the bitmap
      is read one page at a time. */
  method Scan(s: Swap) returns (s': Swap, i: int)
    requires Valid(s)
    ensures s' == s.(off := s'.off) && 0 <= s'.off && 0 <= i <= 8 * s.bmap
    ensures i < 8 * s.bmap ==> !UsedBit(s, i)
    ensures forall j {:trigger UsedBit(s, j)} :: 0 <= j < i ==> UsedBit(s, j)
  {
    var ok;
    s', ok := FileSeek(s, 0, SeekSet);
    var readbuf: seq<Byte> := [];
    i := 0;
    ghost var lo, hi := 0, 0;
    while i < s.bmap * 8
      invariant 0 <= i <= 8 * s.bmap && s' == s.(off := hi) && 0 <= lo <= hi <= s.bmap
      invariant lo % PGSIZE == 0 && readbuf == s.file[lo..hi] && 8 * lo <= i <= 8 * hi && (lo < hi ==> 8 * lo < i) &&
                hi <= lo + PGSIZE && (lo == hi ==> lo == 0)
      invariant hi == lo + PGSIZE || hi == s.bmap || lo == hi == 0
      invariant forall j {:trigger UsedBit(s, j)} :: 0 <= j < i ==> UsedBit(s, j)
    {
      if i % BUFBITS == 0 {
        NewChunk(i, lo, hi, s.bmap);
        s', readbuf := FileRead(s', Least(PGSIZE, s.bmap - i / 8));
        lo := hi;
        hi := s'.off;
      } else {
        SameChunk(i, lo, hi, s.bmap);
      }
      InChunk(i, lo, hi, s.bmap);
      assert readbuf[i / 8 % PGSIZE] == s.file[i / 8];
      if !Bit(readbuf[i / 8 % PGSIZE], i % 8) {
        return;
      }
      i := i + 1;
    }
  }

  lemma {:induction false} NewChunk(i: int, lo: int, hi: int, bmap: int)
    requires 0 <= i < 8 * bmap && i % BUFBITS == 0 && 0 <= lo <= hi <= bmap && lo % PGSIZE == 0 &&
             8 * lo <= i <= 8 * hi && (lo < hi ==> 8 * lo < i)
    requires hi <= lo + PGSIZE && (lo == hi ==> lo == 0)
    ensures i == 8 * hi && hi % PGSIZE == 0
  {
    var a, b := i / BUFBITS, lo / PGSIZE;
    assert i == BUFBITS * a && lo == PGSIZE * b;
    assert lo < hi ==> a >= b + 1;
  }

  lemma {:induction false} SameChunk(i: int, lo: int, hi: int, bmap: int)
    requires 0 <= i < 8 * bmap && i % BUFBITS != 0 && lo % PGSIZE == 0 && 8 * lo <= i <= 8 * hi
    requires hi == lo + PGSIZE || hi == bmap || lo == hi == 0
    ensures i < 8 * hi
  {
    var b := lo / PGSIZE;
    assert lo == PGSIZE * b;
    if hi == lo + PGSIZE {
      assert 8 * hi == BUFBITS * (b + 1);
    }
  }

  lemma {:induction false} InChunk(i: int, lo: int, hi: int, bmap: int)
    requires 0 <= i < 8 * bmap && 0 <= lo <= hi <= bmap && lo % PGSIZE == 0 && 8 * lo <= i < 8 * hi && hi <= lo + PGSIZE
    ensures i / 8 % PGSIZE == i / 8 - lo && lo <= i / 8 < hi
  {
  }

  /** swapfile_get_free_page (fs.c:724-754): the lowest clear bit is returned, and set; a panic when
      all bits are set. */
  method GetFreePage(s: Swap) returns (s': Swap, slot: Option<int>)
    requires Valid(s)
    ensures Valid(s') && s'.bmap == s.bmap && |s'.file| == |s.file| && SameSlots(s, s', -1)
    ensures slot.Some? ==> 0 <= slot.value < 8 * s.bmap && s' == WithUsed(s, slot.value, true)
    ensures slot.None? ==> SameBits(s, s') && forall j {:trigger UsedBit(s, j)} :: 0 <= j < 8 * s.bmap ==> UsedBit(s, j)
    ensures slot.Some? ==> !UsedBit(s, slot.value) && forall j {:trigger UsedBit(s, j)} :: 0 <= j < slot.value ==>
            UsedBit(s, j)
    ensures slot.Some? ==> forall k {:trigger UsedBit(s', k)} :: 0 <= k < 8 * s.bmap ==>
            (UsedBit(s', k) <==> k == slot.value || UsedBit(s, k))
  {
    var i, ok;
    s', i := Scan(s);
    assert forall k {:trigger UsedBit(s', k)} :: 0 <= k < 8 * s.bmap ==> (UsedBit(s', k) <==> UsedBit(s, k));
    assert forall k :: Stored(s, k) ==> Stored(s', k) && Slot(s', k) == Slot(s, k);
    if i == 8 * s.bmap {
      return s', None;
    }
    ghost var mid := s';
    s', ok := BitmapSet(s', true, i);
    forall k | Stored(s, k)
      ensures Stored(s', k) && Slot(s', k) == Slot(s, k)
    {
      assert Stored(mid, k) && Slot(mid, k) == Slot(s, k);
      assert Stored(s', k);
    }
    return s', Some(i);
  }

  /** The file with a page written where it stands. */
  function Pasted(s: Swap, page: seq<Byte>): Swap
    requires 0 <= s.off <= |s.file|
  {
    s.(file := Over(s.file, s.off, page), off := s.off + |page|)
  }

  /** swapfile_write_page (fs.c:757-766). When the slot begins within the file, a slot that fits
      holds the page afterwards, and no bit and no other slot changes. When it begins beyond the
      file, the seek fails unnoticed and the page goes where the file stands. */
  method WritePage(s: Swap, src: seq<Byte>, i: int) returns (s': Swap)
    requires Valid(s) && s.off <= |s.file| && |src| == PGSIZE && 0 <= i < 8 * s.bmap
    ensures Valid(s') && s'.bmap == s.bmap && |s'.file| >= |s.file| && s'.off <= |s'.file|
    ensures s.bmap + i * PGSIZE <= |s.file| ==>
            SameBits(s, s') && SameSlots(s, s', i) && (Fits(s, i) ==> Stored(s', i) && Slot(s', i) == src)
    ensures s.bmap + i * PGSIZE > |s.file| ==> s' == Pasted(s, src[..Room(s.off, PGSIZE)])
  {
    var ok, n;
    s', ok := FileSeek(s, s.bmap + i * PGSIZE, SeekSet);
    s', n := FileWrite(s', src);
    assert src[..PGSIZE] == src;
    if s.bmap + i * PGSIZE <= |s.file| {
      forall k | 0 <= k < 8 * s.bmap
        ensures UsedBit(s', k) <==> UsedBit(s, k)
      {
      }
      forall k | Stored(s, k) && k != i
        ensures Stored(s', k) && Slot(s', k) == Slot(s, k)
      {
        Disjoint(i, k);
      }
    }
  }

  lemma {:induction false} Disjoint(i: int, k: int)
    requires i != k
    ensures (i + 1) * PGSIZE <= k * PGSIZE || (k + 1) * PGSIZE <= i * PGSIZE
  {
  }

  function Zeros(n: int): (r: seq<Byte>)
    requires 0 <= n
    ensures |r| == n && forall i :: 0 <= i < n ==> r[i] == 0
  {
    seq(n, (k: int) => 0 as Byte)
  }

  /** filetruncate (file.c:198-224): zeroes are written from the current offset on, as many as the
      new length, if the largest file has room for them. */
  method FileTruncate(s: Swap, length: int) returns (s': Swap, ok: bool)
    requires 0 <= s.off <= |s.file| <= MAXBYTES && length > 0
    ensures |s.file| > length ==> !ok && s' == s
    ensures |s.file| == length ==> ok && s' == s
    ensures |s.file| < length ==> (ok <==> s.off + length <= MAXBYTES)
    ensures |s.file| < length && ok ==> s' == s.(file := Over(s.file, s.off, Zeros(length)), off := s.off + length)
  {
    if |s.file| > length {
      return s, false;
    } else if |s.file| == length {
      return s, true;
    }
    s' := s;
    var left := length;
    ghost var done := 0;
    while left > 0
      invariant 0 <= done && done == (if left > 0 then length - left else length) && |s'.file| <= MAXBYTES
      invariant s' == s.(file := Over(s.file, s.off, Zeros(done)), off := s.off + done)
    {
      var zeros := Zeros(Least(CHUNK, left));
      var n;
      OverTwice(s.file, s.off, Zeros(done), zeros);
      assert Zeros(done) + zeros == Zeros(done + |zeros|);
      s', n := FileWrite(s', zeros);
      if n < |zeros| {
        return s', false;
      }
      assert zeros[..n] == zeros;
      done := done + |zeros|;
      left := left - CHUNK;
    }
    return s', true;
  }

  /** swapfile_read_page (fs.c:767-779): what the slot holds. A file that is too short for the slot is
      filled up with zeroes from where it stands, or the machine panics. */
  method ReadPage(s: Swap, i: int) returns (s': Swap, page: Option<seq<Byte>>)
    requires Valid(s) && s.off <= |s.file| && 0 <= i < 8 * s.bmap
    ensures Stored(s, i) ==> page == Some(Slot(s, i)) && s' == s.(off := s.bmap + (i + 1) * PGSIZE)
    ensures !Stored(s, i) ==> (page.Some? <==> s.off + s.bmap + (i + 1) * PGSIZE <= MAXBYTES)
    ensures !Stored(s, i) && page.Some? ==>
              var filled := s.(file := Over(s.file, s.off, Zeros(s.bmap + (i + 1) * PGSIZE)));
              Stored(filled, i) && page == Some(Slot(filled, i)) && s' == filled.(off := s.bmap + (i + 1) * PGSIZE)
  {
    s' := s;
    if |s.file| < s.bmap + (i + 1) * PGSIZE {
      var done;
      s', done := FileTruncate(s, s.bmap + (i + 1) * PGSIZE);
      if !done {
        return s', None;
      }
    }
    var ok, data;
    s', ok := FileSeek(s', s.bmap + i * PGSIZE, SeekSet);
    s', data := FileRead(s', PGSIZE);
    return s', Some(data);
  }

  /** swapinit_file (fs.c:838-851) on the new, empty inode: a bitmap of clear bits. */
  method Init(bmap: int) returns (s: Swap, ok: bool)
    requires 0 < bmap <= MAXBMAP
    ensures ok && Represents(s, map[]) && s.bmap == bmap && |s.file| == bmap && s.off <= bmap
  {
    s, ok := FileTruncate(Swap([], 0, bmap), bmap);
    forall i | 0 <= i < 8 * bmap
      ensures !UsedBit(s, i)
    {
      assert s.file[i / 8] == 0;
    }
  }

  /** swapfile_free_page (fs.c:781-786): the bit is cleared and the slot zeroed. When the slot begins
      beyond the file, the zeroes go over the bitmap and what follows it. */
  method FreePage(s: Swap, i: int) returns (s': Swap)
    requires Valid(s) && 0 <= i < 8 * s.bmap
    ensures Valid(s') && s'.bmap == s.bmap && s'.off <= |s'.file| && |s'.file| >= |s.file|
    ensures s.bmap + i * PGSIZE <= |s.file| ==> SameSlots(s, s', i)
    ensures s.bmap + i * PGSIZE <= |s.file| ==>
              forall k {:trigger UsedBit(s', k)} :: 0 <= k < 8 * s.bmap ==>
                (UsedBit(s', k) <==> k != i && UsedBit(s, k))
    ensures s.bmap + i * PGSIZE > |s.file| ==> s' == Pasted(WithUsed(s, i, false), Zeros(PGSIZE))
  {
    var ok;
    s', ok := BitmapSet(s, false, i);
    ghost var mid := s';
    s' := WritePage(s', Zeros(PGSIZE), i);
    if s.bmap + i * PGSIZE > |s.file| {
      assert Zeros(PGSIZE)[..Room(mid.off, PGSIZE)] == Zeros(PGSIZE);
      return;
    }
    forall k | Stored(s, k) && k != i
      ensures Stored(s', k) && Slot(s', k) == Slot(s, k)
    {
      assert Stored(mid, k) && Slot(mid, k) == Slot(s, k);
      assert Stored(s', k);
    }
    forall k | 0 <= k < 8 * s.bmap
      ensures UsedBit(s', k) <==> k != i && UsedBit(s, k)
    {
      assert UsedBit(mid, k) <==> k != i && UsedBit(s, k);
    }
  }

  // ----- The swap file as a map -----

  /** The bits are the slots in the map, and every slot that fits holds its page. */
  ghost predicate Represents(s: Swap, m: map<int, seq<Byte>>)
  {
    && Valid(s) && (forall i {:trigger i in m} :: i in m ==> 0 <= i < 8 * s.bmap)
    && (forall i {:trigger UsedBit(s, i)} :: 0 <= i < 8 * s.bmap ==> (UsedBit(s, i) <==> i in m))
    && (forall i {:trigger Stored(s, i)} :: i in m && Fits(s, i) ==> Stored(s, i) && Slot(s, i) == m[i])
    && (forall i {:trigger Begins(s, i)} :: i in m && Reaches(s, i) ==> Begins(s, i))
  }

  /** The slots before this one fit. */
  predicate Reaches(s: Swap, i: int)
  {
    i == 0 || Fits(s, i - 1)
  }

  /** The slot begins within the file. */
  predicate Begins(s: Swap, i: int)
  {
    s.bmap + i * PGSIZE <= |s.file|
  }

  /** The slot that is found begins within the file, because all lower slots are in use and were
      written, as long as they fit. */
  lemma {:induction false} SeekInFile(s: Swap, m: map<int, seq<Byte>>, i: int)
    requires Represents(s, m) && 0 <= i < 8 * s.bmap && (forall j {:trigger j in m} :: 0 <= j < i ==> j in m)
    requires Reaches(s, i)
    ensures Begins(s, i)
  {
    if i > 0 {
      assert i - 1 in m;
      assert Stored(s, i - 1);
    }
  }

  /** A page is swapped out, as in swapwrite_file (fs.c:903-907): the lowest free slot gets it. As long
      as the slots before it fit, the file represents the map with the page. From there on the seek
      fails, the page goes over the bitmap and what follows it, and the file represents that map if
      and only if the page equals the bytes it falls on. */
  method Out(s: Swap, page: seq<Byte>, ghost m: map<int, seq<Byte>>) returns (s': Swap, slot: Option<int>)
    requires Represents(s, m) && |page| == PGSIZE
    ensures slot.None? ==> forall j :: 0 <= j < 8 * s.bmap ==> j in m
    ensures slot.Some? ==>
            0 <= slot.value < 8 * s.bmap && slot.value !in m && (forall j :: 0 <= j < slot.value ==> j in m)
    ensures slot.Some? ==> Valid(s') && s'.off <= |s'.file| && s'.bmap == s.bmap
    ensures slot.Some? && Reaches(s, slot.value) ==> Represents(s', m[slot.value := page])
    ensures slot.Some? && !Reaches(s, slot.value) ==>
              var t := WithUsed(s, slot.value, true);
              && t.off + PGSIZE <= |t.file| && s' == Pasted(t, page)
              && (Represents(s', m[slot.value := page]) <==> page == t.file[t.off..t.off + PGSIZE])
  {
    s', slot := GetFreePage(s);
    if slot.Some? {
      var i := slot.value;
      forall j | 0 <= j <= i
        ensures j in m <==> j < i
      {
        assert UsedBit(s, j) <==> j in m;
      }
      ghost var mid := s';
      s' := WritePage(s', page, i);
      if Reaches(s, i) {
        SeekInFile(s, m, i);
        OutKeeps(s, mid, s', m, i, page);
      } else {
        assert page[..PGSIZE] == page;
        LostIff(s, m, i, page);
      }
    } else {
      forall j | 0 <= j < 8 * s.bmap
        ensures j in m
      {
        assert UsedBit(s, j) <==> j in m;
      }
    }
  }

  /** The bits of the file after a slot is marked are the map with the slot. */
  lemma {:induction false} MarkedBits(s: Swap, m: map<int, seq<Byte>>, i: int, k: int)
    requires Represents(s, m) && 0 <= i < 8 * s.bmap && 0 <= k < 8 * s.bmap
    ensures Valid(WithUsed(s, i, true)) && (UsedBit(WithUsed(s, i, true), k) <==> k == i || k in m)
  {
    WithBitIs(s.file[i / 8], i % 8, true, k % 8);
    assert UsedBit(s, k) <==> k in m;
  }

  lemma {:induction false} FirstSlotStored(s: Swap, m: map<int, seq<Byte>>, i: int)
    requires Represents(s, m) && 0 < i < 8 * s.bmap && 0 in m && !Reaches(s, i)
    ensures Stored(s, 0) && Slot(s, 0) == m[0] && i / 8 + 1 <= s.bmap && s.bmap + PGSIZE <= |s.file|
  {
    assert Fits(s, 0);
    assert Stored(s, 0);
  }

  lemma {:induction false} LostIff(s: Swap, m: map<int, seq<Byte>>, i: int, page: seq<Byte>)
    requires Represents(s, m) && 0 < i < 8 * s.bmap && i !in m && 0 in m && !Reaches(s, i) && |page| == PGSIZE
    ensures var t := WithUsed(s, i, true);
            && t.off + PGSIZE <= |t.file|
            && (Represents(Pasted(t, page), m[i := page]) <==> page == t.file[t.off..t.off + PGSIZE])
  {
    var t := WithUsed(s, i, true);
    FirstSlotStored(s, m, i);
    var s', m' := Pasted(t, page), m[i := page];
    if page == t.file[t.off..t.off + PGSIZE] {
      assert s'.file == t.file;
      PastedAlike(s, m, i, page);
    }
    if Represents(s', m') {
      assert Stored(s', 0) && Slot(s', 0) == m[0] == Slot(s, 0);
      forall j | t.off <= j < t.off + PGSIZE
        ensures s'.file[j] == t.file[j]
      {
        if j < t.bmap {
          SameByte(s, m, i, page, j);
        } else {
          assert Slot(s', 0)[j - t.bmap] == Slot(s, 0)[j - t.bmap];
        }
      }
      assert page == s'.file[t.off..t.off + PGSIZE];
    }
  }

  lemma {:induction false} PastedAlike(s: Swap, m: map<int, seq<Byte>>, i: int, page: seq<Byte>)
    requires Represents(s, m) && 0 < i < 8 * s.bmap && i !in m && !Reaches(s, i) && |page| == PGSIZE &&
             i / 8 + 1 <= s.bmap
    requires var t := WithUsed(s, i, true); Pasted(t, page).file == t.file
    ensures Represents(Pasted(WithUsed(s, i, true), page), m[i := page])
  {
    var t := WithUsed(s, i, true);
    var s', m' := Pasted(t, page), m[i := page];
    forall k | 0 <= k < 8 * s'.bmap
      ensures UsedBit(s', k) <==> k in m'
    {
      MarkedBits(s, m, i, k);
    }
    forall k | k in m' && Fits(s', k)
      ensures Stored(s', k) && Slot(s', k) == m'[k]
    {
      assert Stored(s, k) && Slot(s, k) == m[k];
    }
    forall k | k in m' && Reaches(s', k)
      ensures Begins(s', k)
    {
      assert Begins(s, k);
    }
  }

  lemma {:induction false} SameByte(s: Swap, m: map<int, seq<Byte>>, i: int, page: seq<Byte>, j: int)
    requires Represents(s, m) && 0 < i < 8 * s.bmap && |page| == PGSIZE && i / 8 + 1 <= s.bmap && 0 <= j < s.bmap
    requires Represents(Pasted(WithUsed(s, i, true), page), m[i := page])
    ensures Pasted(WithUsed(s, i, true), page).file[j] == WithUsed(s, i, true).file[j]
  {
    var t := WithUsed(s, i, true);
    var s' := Pasted(t, page);
    forall b | 0 <= b < 8
      ensures Bit(s'.file[j], b) <==> Bit(t.file[j], b)
    {
      var k := 8 * j + b;
      assert k / 8 == j && k % 8 == b;
      MarkedBits(s, m, i, k);
      assert UsedBit(s', k) <==> k in m[i := page];
    }
    BitsTell(s'.file[j], t.file[j]);
  }

  /** The bytes of the bitmap from this one on belong to free slots. */
  lemma {:induction false} ClearByte(s: Swap, m: map<int, seq<Byte>>, j: int)
    requires Represents(s, m) && 0 <= j < s.bmap && forall k :: k in m ==> k < 8 * j
    ensures s.file[j] == 0
  {
    forall b | 0 <= b < 8
      ensures Bit(s.file[j], b) <==> Bit(0, b)
    {
      var k := 8 * j + b;
      assert k / 8 == j && k % 8 == b;
      assert UsedBit(s, k) <==> k in m;
    }
    BitsTell(s.file[j], 0);
  }

  /** The slots in use are those below `n`. */
  ghost predicate Lowest(m: map<int, seq<Byte>>, n: int)
  {
    forall k {:trigger k in m} :: k in m <==> 0 <= k < n
  }

  /** What the first page that is lost falls on, when pages `fill` have taken the slots below `i`. */
  function Fallen(bmap: int, i: int, fill: seq<Byte>): (r: seq<Byte>)
    requires |fill| == PGSIZE && 0 <= i < 8 * bmap
    ensures |r| == PGSIZE
  {
    seq(PGSIZE, j requires 0 <= j < PGSIZE => if i / 8 + 1 + j < bmap then 0 else fill[i / 8 + 1 + j - bmap])
  }

  /** Out when the slots below `i` are those in use. */
  method OutAt(s: Swap, page: seq<Byte>, ghost m: map<int, seq<Byte>>, ghost i: int) returns (s': Swap)
    requires Represents(s, m) && |page| == PGSIZE && Lowest(m, i) && 0 <= i < 8 * s.bmap
    ensures Valid(s') && s'.bmap == s.bmap && Lowest(m[i := page], i + 1)
    ensures Reaches(s, i) ==> Represents(s', m[i := page])
    ensures !Reaches(s, i) ==>
              var t := WithUsed(s, i, true);
              t.off + PGSIZE <= |t.file| && (Represents(s', m[i := page]) <==> page == t.file[t.off..t.off + PGSIZE])
  {
    var slot;
    s', slot := Out(s, page, m);
    assert i !in m;
    assert slot.Some? && slot.value <= i;
    assert slot.value !in m;
  }

  /** Swapping out page after page from a new file comes to that point for every size of the bitmap:
      the file holds what it should if and only if the last page is what was there before. */
  method FillUp(bmap: int, fill: seq<Byte>, last: seq<Byte>) returns (s: Swap, i: int, ghost m: map<int, seq<Byte>>)
    requires 3 <= bmap <= MAXBMAP && |fill| == |last| == PGSIZE
    ensures s.bmap == bmap && 0 < i < 8 * bmap && Valid(s) && Lowest(m, i + 1) && m[i] == last
    ensures forall k :: 0 <= k < i ==> m[k] == fill
    ensures Represents(s, m) <==> last == Fallen(bmap, i, fill)
  {
    var ok;
    s, ok := Init(bmap);
    i, m := 0, map[];
    while s.bmap + i * PGSIZE <= MAXBYTES
      invariant 0 <= i <= 18 && s.bmap == bmap && Represents(s, m) && Lowest(m, i) && (i > 0 ==> Reaches(s, i - 1))
      invariant forall k :: 0 <= k < i ==> m[k] == fill
      decreases 18 - i
    {
      s := OutAt(s, fill, m, i);
      m := m[i := fill];
      i := i + 1;
    }
    FallenIs(s, m, i, fill);
    s := OutAt(s, last, m, i);
    m := m[i := last];
  }

  lemma {:induction false} FallenIs(s: Swap, m: map<int, seq<Byte>>, i: int, fill: seq<Byte>)
    requires Represents(s, m) && 0 < i < 8 * s.bmap && !Reaches(s, i) && |fill| == PGSIZE
    requires Lowest(m, i) && forall k :: 0 <= k < i ==> m[k] == fill
    ensures var t := WithUsed(s, i, true);
            t.off + PGSIZE <= |t.file| && t.file[t.off..t.off + PGSIZE] == Fallen(s.bmap, i, fill)
  {
    FirstSlotStored(s, m, i);
    var t := WithUsed(s, i, true);
    forall j | 0 <= j < PGSIZE
      ensures t.file[t.off + j] == Fallen(s.bmap, i, fill)[j]
    {
      if t.off + j < s.bmap {
        ClearByte(s, m, t.off + j);
      } else {
        assert Slot(s, 0)[t.off + j - s.bmap] == s.file[t.off + j];
      }
    }
  }

  lemma {:induction false} OutKeeps(s: Swap, mid: Swap, s': Swap, m: map<int, seq<Byte>>, i: int, page: seq<Byte>)
    requires Represents(s, m) && Valid(mid) && Valid(s') && 0 <= i < 8 * s.bmap && mid.bmap == s.bmap
    requires SameSlots(s, mid, -1) && SameBits(mid, s') && SameSlots(mid, s', i) &&
             (Fits(mid, i) ==> Stored(s', i) && Slot(s', i) == page)
    requires forall k {:trigger UsedBit(mid, k)} :: 0 <= k < 8 * s.bmap ==>
             (UsedBit(mid, k) <==> k == i || UsedBit(s, k))
    requires |s'.file| >= |s.file| && Begins(s, i)
    ensures Represents(s', m[i := page])
  {
    var m' := m[i := page];
    forall k | 0 <= k < 8 * s'.bmap
      ensures UsedBit(s', k) <==> k in m'
    {
      assert UsedBit(mid, k) <==> k == i || UsedBit(s, k);
    }
    forall k | k in m' && Fits(s', k)
      ensures Stored(s', k) && Slot(s', k) == m'[k]
    {
      if k != i {
        assert Stored(s, k) && Slot(s, k) == m[k];
        assert Stored(mid, k) && Slot(mid, k) == Slot(s, k);
        assert Stored(s', k) && Slot(s', k) == Slot(mid, k);
      }
    }
    forall k | k in m' && Reaches(s', k)
      ensures Begins(s', k)
    {
      assert k != i ==> Begins(s, k);
    }
  }

  /** Where the file stands does not matter to what it holds. */
  lemma {:induction false} OffsetOnly(s: Swap, m: map<int, seq<Byte>>, off: int)
    requires Represents(s, m) && 0 <= off
    ensures Represents(s.(off := off), m)
  {
    var t := s.(off := off);
    forall i | 0 <= i < 8 * t.bmap
      ensures UsedBit(t, i) <==> i in m
    {
      assert UsedBit(s, i) <==> i in m;
    }
    forall i | i in m && Fits(t, i)
      ensures Stored(t, i) && Slot(t, i) == m[i]
    {
      assert Stored(s, i) && Slot(t, i) == Slot(s, i);
    }
    forall i | i in m && Reaches(t, i)
      ensures Begins(t, i)
    {
      assert Begins(s, i);
    }
  }

  /** A page is given up, as in swapfree_file (fs.c:1158): its slot is free. For a slot behind the file the
      zeroes go over the bitmap. */
  method Drop(s: Swap, i: int, ghost m: map<int, seq<Byte>>) returns (s': Swap)
    requires Represents(s, m) && i in m
    ensures s'.off <= |s'.file| && s'.bmap == s.bmap
    ensures Reaches(s, i) ==> Represents(s', m - {i})
    ensures !Reaches(s, i) ==> s' == Pasted(WithUsed(s, i, false), Zeros(PGSIZE))
  {
    s' := FreePage(s, i);
    if Reaches(s, i) {
      assert Begins(s, i);
      DropKeeps(s, s', m, i);
    }
  }

  lemma {:induction false} DropKeeps(s: Swap, s': Swap, m: map<int, seq<Byte>>, i: int)
    requires Represents(s, m) && Valid(s') && SameSlots(s, s', i) && |s'.file| >= |s.file|
    requires forall k {:trigger UsedBit(s', k)} :: 0 <= k < 8 * s.bmap ==> (UsedBit(s', k) <==> k != i && UsedBit(s, k))
    ensures Represents(s', m - {i})
  {
    var m' := m - {i};
    forall k | 0 <= k < 8 * s'.bmap
      ensures UsedBit(s', k) <==> k in m'
    {
      assert UsedBit(s, k) <==> k in m;
    }
    forall k | k in m' && Fits(s', k)
      ensures Stored(s', k) && Slot(s', k) == m'[k]
    {
      assert Stored(s, k) && Slot(s, k) == m[k];
      assert Stored(s', k) && Slot(s', k) == Slot(s, k);
    }
    forall k | k in m' && Reaches(s', k)
      ensures Begins(s', k)
    {
      assert k in m && Reaches(s, k);
      assert Begins(s, k);
    }
  }

  /** A page is swapped in, as in swapread_file (fs.c:1083-1084): the page that went out comes back, and
      its slot is free. A slot that does not fit stops the machine. */
  method In(s: Swap, i: int, ghost m: map<int, seq<Byte>>) returns (s': Swap, page: Option<seq<Byte>>)
    requires Represents(s, m) && s.off <= |s.file| && i in m
    ensures page.Some? <==> Fits(s, i)
    ensures page.Some? ==> page.value == m[i] && Represents(s', m - {i}) && s'.off <= |s'.file| && s'.bmap == s.bmap
  {
    assert Fits(s, i) ==> Stored(s, i);
    s', page := ReadPage(s, i);
    if page.Some? {
      OffsetOnly(s, m, s'.off);
      s' := Drop(s', i, m);
    }
  }
}
