/** The ring of buffers of bio.c: binit, bget and the release half of brelse.

    The order of the ring is described by stamps: the time at which a buffer was last moved to
    the front. */
module BufferCache {
  import opened Common

  /** The list head is no buffer. */
  const HEAD: int := 30

  datatype Buf = Buf(dev: int, blockno: int, valid: bool, dirty: bool, refcnt: int)

  predicate IsBuf(x: int)
  {
    0 <= x < NBUF
  }

  // ----- The ring -----

  /** `y` comes after `x` on the way from the front to the back; everything comes after HEAD. */
  predicate After(stamp: map<int, int>, x: int, y: int)
  {
    y in stamp && (x == HEAD || (x in stamp && stamp[y] < stamp[x]))
  }

  predicate Before(stamp: map<int, int>, x: int, y: int)
  {
    y in stamp && (x == HEAD || (x in stamp && stamp[x] < stamp[y]))
  }

  /** The link leads to the first buffer after `x`, or to HEAD when there is none. */
  ghost predicate NextOk(next: map<int, int>, stamp: map<int, int>, x: int)
  {
    && x in next && (next[x] == HEAD || After(stamp, x, next[x]))
    && forall y {:trigger After(stamp, x, y)} :: After(stamp, x, y) ==>
       next[x] != HEAD && (y == next[x] || After(stamp, next[x], y))
  }

  ghost predicate PrevOk(prev: map<int, int>, stamp: map<int, int>, x: int)
  {
    && x in prev && (prev[x] == HEAD || Before(stamp, x, prev[x]))
    && forall y {:trigger Before(stamp, x, y)} :: Before(stamp, x, y) ==>
       prev[x] != HEAD && (y == prev[x] || Before(stamp, prev[x], y))
  }

  /** The stamped buffers are in the ring, and the links follow the stamps both ways. */
  ghost predicate Ring(next: map<int, int>, prev: map<int, int>, stamp: map<int, int>)
  {
    && HEAD !in stamp
    && (forall x, y {:trigger stamp[x], stamp[y]} :: x in stamp && y in stamp && stamp[x] == stamp[y] ==> x == y)
    && (forall x {:trigger NextOk(next, stamp, x)} :: x in stamp || x == HEAD ==> NextOk(next, stamp, x))
    && (forall x {:trigger PrevOk(prev, stamp, x)} :: x in stamp || x == HEAD ==> PrevOk(prev, stamp, x))
  }

  /** Of two buffers one comes after the other. */
  lemma {:induction false} Ordered(stamp: map<int, int>, next: map<int, int>, prev: map<int, int>, x: int, y: int)
    requires Ring(next, prev, stamp) && x in stamp && y in stamp && x != y
    ensures (After(stamp, x, y) && Before(stamp, y, x)) || (After(stamp, y, x) && Before(stamp, x, y))
  {
    var a, b := stamp[x], stamp[y];
  }

  /** The two directions are inverse to each other. */
  lemma {:induction false} RingInverse(next: map<int, int>, prev: map<int, int>, stamp: map<int, int>, x: int)
    requires Ring(next, prev, stamp) && (x in stamp || x == HEAD)
    ensures x in next && x in prev && next[x] in prev && prev[x] in next && prev[next[x]] == x && next[prev[x]] == x
  {
    assert NextOk(next, stamp, x) && PrevOk(prev, stamp, x);
    var n, p := next[x], prev[x];
    assert PrevOk(prev, stamp, n) && NextOk(next, stamp, p);
    var m, q := prev[n], next[p];
    if x == HEAD {
      assert m != HEAD ==> After(stamp, HEAD, m);
      assert q != HEAD ==> Before(stamp, HEAD, q);
    } else {
      assert Before(stamp, n, x) && After(stamp, p, x);
      if m != HEAD && m != x {
        Ordered(stamp, next, prev, m, x);
      }
      if q != HEAD && q != x {
        Ordered(stamp, next, prev, q, x);
      }
    }
  }

  /** The first two assignments of brelse (bio.c:142-143): the buffer leaves the ring. */
  lemma {:induction false} Unlinked(next: map<int, int>, prev: map<int, int>, stamp: map<int, int>, b: int)
    requires Ring(next, prev, stamp) && b in stamp
    ensures b in next && b in prev && Ring(next[prev[b] := next[b]], prev[next[b] := prev[b]], stamp - {b})
  {
    RingInverse(next, prev, stamp, b);
    assert NextOk(next, stamp, b) && PrevOk(prev, stamp, b);
    var s, n, p := stamp - {b}, next[prev[b] := next[b]], prev[next[b] := prev[b]];
    forall x | x in s || x == HEAD
      ensures NextOk(n, s, x)
    {
      assert NextOk(next, stamp, x);
      RingInverse(next, prev, stamp, x);
      forall y | After(s, x, y)
        ensures n[x] != HEAD && (y == n[x] || After(s, n[x], y))
      {
        assert After(stamp, x, y);
        assert After(stamp, b, y) ==> After(stamp, next[b], y) || y == next[b];
      }
    }
    forall x | x in s || x == HEAD
      ensures PrevOk(p, s, x)
    {
      assert PrevOk(prev, stamp, x);
      RingInverse(next, prev, stamp, x);
      forall y | Before(s, x, y)
        ensures p[x] != HEAD && (y == p[x] || Before(s, p[x], y))
      {
        assert Before(stamp, x, y);
        assert Before(stamp, b, y) ==> Before(stamp, prev[b], y) || y == prev[b];
      }
    }
  }

  /** The four assignments of binit and brelse (bio.c:50-54, bio.c:144-147): the buffer enters the
      ring at the front. */
  lemma {:induction false} Pushed(next: map<int, int>, prev: map<int, int>, stamp: map<int, int>, b: int, now: int)
    requires Ring(next, prev, stamp) && b !in stamp && b != HEAD && forall x :: x in stamp ==> stamp[x] < now
    ensures HEAD in next && Ring(next[b := next[HEAD]][HEAD := b], prev[b := HEAD][next[HEAD] := b], stamp[b := now])
  {
    assert NextOk(next, stamp, HEAD);
    var f := next[HEAD];
    var s, n, p := stamp[b := now], next[b := f][HEAD := b], prev[b := HEAD][f := b];
    forall x | x in s || x == HEAD
      ensures NextOk(n, s, x)
    {
      assert x in stamp || x == HEAD ==> NextOk(next, stamp, x);
      forall y | After(s, x, y)
        ensures n[x] != HEAD && (y == n[x] || After(s, n[x], y))
      {
        assert y != b ==> After(stamp, HEAD, y);
        assert x != b && x != HEAD ==> After(stamp, x, y);
      }
    }
    forall x | x in s || x == HEAD
      ensures PrevOk(p, s, x)
    {
      assert x in stamp || x == HEAD ==> PrevOk(prev, stamp, x);
      assert x in stamp ==> After(stamp, HEAD, x);
      assert x in stamp && x != f ==> Before(stamp, x, f);
      assert f != HEAD ==> Before(stamp, HEAD, f);
      forall y | Before(s, x, y)
        ensures p[x] != HEAD && (y == p[x] || Before(s, p[x], y))
      {
        assert y != b ==> After(stamp, HEAD, y);
        assert x != b && y != b ==> Before(stamp, x, y);
      }
    }
  }

  // ----- Identities -----

  /** At most one buffer has any identity but the one all buffers start with. */
  ghost predicate Unique(buf: map<int, Buf>)
  {
    forall x, y {:trigger buf[x], buf[y]} ::
      x in buf && y in buf && SameBlock(buf[x], buf[y]) && !(buf[x].dev == 0 && buf[x].blockno == 0) ==> x == y
  }

  predicate SameBlock(x: Buf, y: Buf)
  {
    x.dev == y.dev && x.blockno == y.blockno
  }

  /** A buffer takes an identity that no other buffer has, or keeps its own. */
  lemma {:induction false} UniqueKept(buf: map<int, Buf>, b: int, q: Buf)
    requires Unique(buf) && b in buf
    requires SameBlock(q, buf[b]) || forall x {:trigger buf[x]} :: x in buf ==> !SameBlock(buf[x], q)
    ensures Unique(buf[b := q])
  {
    var buf' := buf[b := q];
    forall x, y | x in buf' && y in buf' && SameBlock(buf'[x], buf'[y]) && !(buf'[x].dev == 0 && buf'[x].blockno == 0)
      ensures x == y
    {
      var u, v := buf[x], buf[y];
    }
  }

  /** A buffer that may be given to another block. */
  predicate Idle(b: Buf)
  {
    b.refcnt == 0 && !b.dirty
  }

  /** The block is not cached, and every buffer is in use. */
  ghost predicate NoRoom(buf: map<int, Buf>, dev: int, blockno: int)
  {
    forall x {:trigger buf[x]} :: x in buf ==> !(buf[x].dev == dev && buf[x].blockno == blockno) && !Idle(buf[x])
  }

  lemma {:induction false} SomeRoom(buf: map<int, Buf>, dev: int, blockno: int, x: int)
    requires x in buf && ((buf[x].dev == dev && buf[x].blockno == blockno) || Idle(buf[x]))
    ensures !NoRoom(buf, dev, blockno)
  {
    var b := buf[x];
  }

  /** The block lies on the one disk there is (memide.c:47-50). */
  predicate OnDisk(dev: int, blockno: int, disksize: int)
  {
    dev == 1 && blockno < disksize
  }

  class Cache {
    var next: map<int, int>
    var prev: map<int, int>
    var buf: map<int, Buf>
    /** When a buffer was last moved to the front, and the time now. */
    ghost var stamp: map<int, int>
    ghost var now: int

    ghost predicate Valid()
      reads this
    {
      && Ring(next, prev, stamp) && (forall x :: x in stamp ==> stamp[x] < now)
      && (forall x {:trigger x in stamp} {:trigger x in buf} :: (x in stamp <==> IsBuf(x)) && (x in buf <==> IsBuf(x)))
      && Unique(buf) && (forall x {:trigger buf[x]} :: x in buf ==>
         buf[x].refcnt >= 0 && (buf[x].dirty ==> buf[x].valid))
    }

    /** binit (bio.c:39-56). */
    constructor ()
      ensures Valid() && forall x :: IsBuf(x) ==> x in buf && buf[x] == Buf(0, 0, false, false, 0)
    {
      next, prev := map[HEAD := HEAD], map[HEAD := HEAD];
      buf, stamp, now := map[], map[], 0;
      new;
      var b := 0;
      while b < NBUF
        invariant 0 <= b <= NBUF && now == b && Ring(next, prev, stamp)
        invariant forall x {:trigger x in stamp} {:trigger x in buf} ::
                  (x in stamp <==> 0 <= x < b) && (x in buf <==> 0 <= x < b)
        invariant forall x :: x in stamp ==> stamp[x] < now
        invariant forall x {:trigger buf[x]} :: x in buf ==> buf[x] == Buf(0, 0, false, false, 0)
      {
        Pushed(next, prev, stamp, b, now);
        var first := next[HEAD];
        next := next[b := first];
        prev := prev[b := HEAD];
        buf := buf[b := Buf(0, 0, false, false, 0)];
        prev := prev[first := b];
        next := next[HEAD := b];
        stamp, now := stamp[b := now], now + 1;
        b := b + 1;
      }
    }

    /** The first search of bget (bio.c:72-82). */
    method Find(dev: int, blockno: int) returns (b: Option<int>)
      requires Valid()
      ensures b.Some? ==> IsBuf(b.value) && b.value in buf && buf[b.value].dev == dev && buf[b.value].blockno == blockno
      ensures b.None? ==> forall x {:trigger buf[x]} :: x in buf ==> !(buf[x].dev == dev && buf[x].blockno == blockno)
    {
      assert NextOk(next, stamp, HEAD);
      assert forall y :: y in stamp ==> After(stamp, HEAD, y);
      var x := next[HEAD];
      while x != HEAD
        invariant x == HEAD || x in stamp
        invariant forall y {:trigger buf[y]} :: y in stamp && (x == HEAD || stamp[y] > stamp[x]) ==>
                  !(buf[y].dev == dev && buf[y].blockno == blockno)
        decreases if x == HEAD then 0 else 1 + |set y | y in stamp && After(stamp, x, y)|
      {
        assert NextOk(next, stamp, x);
        if buf[x].dev == dev && buf[x].blockno == blockno {
          return Some(x);
        }
        forall y | y in stamp && (next[x] == HEAD || stamp[y] > stamp[next[x]])
          ensures y == x || stamp[y] > stamp[x]
        {
          assert After(stamp, x, y) || y == x || stamp[y] > stamp[x];
        }
        if next[x] != HEAD {
          Fewer(stamp, x, next[x]);
        }
        x := next[x];
      }
      return None;
    }

    /** The second search of bget (bio.c:87-98): of the buffers that may be recycled, the one that
        was moved to the front longest ago. */
    method Victim() returns (b: Option<int>)
      requires Valid()
      ensures b.Some? ==> b.value in buf && b.value in stamp && Idle(buf[b.value])
                          && forall y {:trigger buf[y]} :: y in buf && Idle(buf[y]) ==>
                             y in stamp && stamp[b.value] <= stamp[y]
      ensures b.None? ==> forall y {:trigger buf[y]} :: y in buf ==> !Idle(buf[y])
    {
      assert PrevOk(prev, stamp, HEAD);
      assert forall y :: y in stamp ==> Before(stamp, HEAD, y);
      var x := prev[HEAD];
      while x != HEAD
        invariant x == HEAD || x in stamp
        invariant forall y {:trigger buf[y]} :: y in stamp && (x == HEAD || stamp[y] < stamp[x]) ==> !Idle(buf[y])
        decreases if x == HEAD then 0 else 1 + |set y | y in stamp && Before(stamp, x, y)|
      {
        assert PrevOk(prev, stamp, x);
        if Idle(buf[x]) {
          return Some(x);
        }
        forall y | y in stamp && (prev[x] == HEAD || stamp[y] < stamp[prev[x]])
          ensures y == x || stamp[y] < stamp[x]
        {
          assert Before(stamp, x, y) || y == x || stamp[y] < stamp[x];
        }
        if prev[x] != HEAD {
          FewerBefore(stamp, x, prev[x]);
        }
        x := prev[x];
      }
      return None;
    }

    /** bget (bio.c:62-100), without the sleep lock. `None` is the panic. */
    method BGet(dev: int, blockno: int) returns (b: Option<int>)
      requires Valid()
      modifies this`buf
      ensures Valid()
      ensures b.None? <==> NoRoom(old(buf), dev, blockno)
      ensures b.None? ==> buf == old(buf)
      ensures b.Some? ==>
              b.value in buf && buf[b.value].dev == dev && buf[b.value].blockno == blockno && buf[b.value].refcnt >= 1
      ensures b.Some? ==> buf == old(buf)[b.value := buf[b.value]]
      ensures b.Some? && b.value in old(buf) && !(old(buf)[b.value].dev == dev &&
              old(buf)[b.value].blockno == blockno) ==>
                && Idle(old(buf)[b.value]) && buf[b.value] == Buf(dev, blockno, false, false, 1)
                && (forall y :: y in old(buf) && Idle(old(buf)[y]) ==>
                   y in stamp && b.value in stamp && stamp[b.value] <= stamp[y])
      ensures b.Some? && b.value in old(buf) && old(buf)[b.value].dev == dev && old(buf)[b.value].blockno == blockno ==>
                buf[b.value] == old(buf)[b.value].(refcnt := old(buf)[b.value].refcnt + 1)
    {
      ghost var was := buf;
      b := Find(dev, blockno);
      if b.Some? {
        SomeRoom(was, dev, blockno, b.value);
        UniqueKept(was, b.value, was[b.value].(refcnt := was[b.value].refcnt + 1));
        buf := buf[b.value := buf[b.value].(refcnt := buf[b.value].refcnt + 1)];
        return;
      }
      assert forall x {:trigger was[x]} :: x in was ==> !(was[x].dev == dev && was[x].blockno == blockno);
      b := Victim();
      if b.Some? {
        SomeRoom(was, dev, blockno, b.value);
        UniqueKept(was, b.value, Buf(dev, blockno, false, false, 1));
        buf := buf[b.value := Buf(dev, blockno, false, false, 1)];
      } else {
        assert forall x {:trigger was[x]} :: x in was ==> !Idle(was[x]);
        assert NoRoom(was, dev, blockno);
      }
    }

    /** A held buffer changes its flags and keeps its identity. */
    method Flag(b: int, valid: bool, dirty: bool)
      requires Valid() && b in buf && (dirty ==> valid)
      modifies this`buf
      ensures Valid() && buf == old(buf)[b := old(buf)[b].(valid := valid, dirty := dirty)]
    {
      UniqueKept(buf, b, buf[b].(valid := valid, dirty := dirty));
      buf := buf[b := buf[b].(valid := valid, dirty := dirty)];
    }

    /** log_write pins a buffer that was read (log.c:231). */
    method Pin(b: int)
      requires Valid() && b in buf && buf[b].refcnt >= 1 && buf[b].valid
      modifies this`buf
      ensures Valid() && buf == old(buf)[b := old(buf)[b].(dirty := true)] && !Idle(buf[b])
    {
      Flag(b, true, true);
    }

    /** iderw (memide.c:38-60) on a disk of `disksize` blocks: a dirty buffer is written, an invalid one is
        read. A panic without the lock, when there is nothing to do, and off the disk. */
    method Iderw(b: int, held: bool, disksize: int) returns (ok: bool, written: bool)
      requires Valid() && b in buf
      modifies this`buf
      ensures ok <==>
              held && (old(buf)[b].dirty || !old(buf)[b].valid) &&
              OnDisk(old(buf)[b].dev, old(buf)[b].blockno, disksize)
      ensures written <==> ok && old(buf)[b].dirty
      ensures Valid() && buf == if ok then old(buf)[b := old(buf)[b].(valid := true, dirty := false)] else old(buf)
    {
      if !held || (buf[b].valid && !buf[b].dirty) || buf[b].dev != 1 || buf[b].blockno >= disksize {
        return false, false;
      }
      ok, written := true, buf[b].dirty;
      Flag(b, true, false);
    }

    /** bread (bio.c:104-116): the buffer of the block, read from disk if it was not valid. A panic without a
        buffer, and when a block off the disk would have to be read. */
    method BRead(dev: int, blockno: int, disksize: int) returns (b: Option<int>, ok: bool)
      requires Valid()
      modifies this`buf
      ensures Valid() && (b.None? <==> NoRoom(old(buf), dev, blockno))
      ensures b.Some? ==> b.value in buf && buf[b.value].dev == dev && buf[b.value].blockno == blockno
      ensures b.Some? ==> buf[b.value].refcnt >= 1 && (ok <==> buf[b.value].valid)
      ensures b.Some? && OnDisk(dev, blockno, disksize) ==> ok
      ensures b.None? ==> !ok
      ensures b.Some? ==> forall x {:trigger buf[x]} :: x in old(buf) && !Idle(old(buf)[x]) ==>
              x in buf && SameBlock(buf[x], old(buf)[x]) && buf[x].dirty == old(buf)[x].dirty
    {
      b := BGet(dev, blockno);
      ok := b.Some?;
      if b.Some? && !buf[b.value].valid {
        var written;
        ok, written := Iderw(b.value, true, disksize);
      }
    }

    /** bwrite (bio.c:120-126): the buffer is written and clean, also one that was never read. A panic
        without the lock, and off the disk. */
    method BWrite(b: int, held: bool, disksize: int) returns (ok: bool)
      requires Valid() && b in buf
      modifies this`buf
      ensures ok <==> held && OnDisk(old(buf)[b].dev, old(buf)[b].blockno, disksize)
      ensures ok ==> Valid() && buf == old(buf)[b := old(buf)[b].(valid := true, dirty := false)]
    {
      if !held {
        return false;
      }
      Flag(b, true, true);
      var written;
      ok, written := Iderw(b, held, disksize);
    }

    /** The end of brelse (bio.c:138-148): a buffer nobody waits for moves to the front. */
    method BRelse(b: int)
      requires Valid() && IsBuf(b) && b in buf && buf[b].refcnt >= 1
      modifies this
      ensures Valid() && buf == old(buf)[b := old(buf)[b].(refcnt := old(buf)[b].refcnt - 1)]
      ensures old(buf)[b].refcnt > 1 ==> stamp == old(stamp)
      ensures old(buf)[b].refcnt == 1 ==> stamp == old(stamp)[b := old(now)] && now == old(now) + 1
    {
      UniqueKept(buf, b, buf[b].(refcnt := buf[b].refcnt - 1));
      buf := buf[b := buf[b].(refcnt := buf[b].refcnt - 1)];
      if buf[b].refcnt == 0 {
        Unlinked(next, prev, stamp, b);
        var after, before := next[b], prev[b];
        var p := prev[after := before];
        var n := next[before := after];
        Pushed(n, p, stamp - {b}, b, now);
        assert stamp[b := now] == (stamp - {b})[b := now];
        var first := n[HEAD];
        next := n[b := first][HEAD := b];
        prev := p[b := HEAD][first := b];
        stamp, now := stamp[b := now], now + 1;
      }
    }
  }

  lemma {:induction false} Fewer(stamp: map<int, int>, x: int, n: int)
    requires x in stamp && n in stamp && stamp[n] < stamp[x] && HEAD !in stamp
    ensures |set y | y in stamp && After(stamp, n, y)| < |set y | y in stamp && After(stamp, x, y)|
  {
    var s, t := set y | y in stamp && After(stamp, n, y), set y | y in stamp && After(stamp, x, y);
    assert n in t && n !in s && s <= t;
    SmallerSet(s, t, n);
  }

  lemma {:induction false} FewerBefore(stamp: map<int, int>, x: int, n: int)
    requires x in stamp && n in stamp && stamp[x] < stamp[n] && HEAD !in stamp
    ensures |set y | y in stamp && Before(stamp, n, y)| < |set y | y in stamp && Before(stamp, x, y)|
  {
    var s, t := set y | y in stamp && Before(stamp, n, y), set y | y in stamp && Before(stamp, x, y);
    assert n in t && n !in s && s <= t;
    SmallerSet(s, t, n);
  }

  lemma {:induction false} SmallerSet(s: set<int>, t: set<int>, x: int)
    requires s <= t && x in t && x !in s
    ensures |s| < |t|
  {
    assert s <= t - {x};
    var u := t - {x} - s;
    assert t == s + u + {x} && s !! u && x !in s + u;
    assert |t| == |s + u| + 1 == |s| + |u| + 1;
  }
}
