/** pipe.c: any number of readers and writers of one pipe. A step is what one process does while
    it holds the pipe's lock, from taking the lock or waking up to sleeping or returning. */
module PipeFifo {
  import opened Common

  const PIPESIZE: int := 512

  datatype Pipe = Pipe(data: seq<int>, nread: int, nwrite: int, readopen: bool, writeopen: bool)

  predicate Full(p: Pipe)
  {
    p.nwrite == (p.nread + PIPESIZE) % TWO32
  }

  predicate Empty(p: Pipe)
  {
    p.nread == p.nwrite
  }

  /** One byte goes in (pipe.c:93). */
  function Put(p: Pipe, v: int): Pipe
    requires |p.data| == PIPESIZE && 0 <= p.nwrite
  {
    p.(data := p.data[p.nwrite % PIPESIZE := v], nwrite := (p.nwrite + 1) % TWO32)
  }

  /** What is left of a write that goes on until the pipe is full: the pipe and the position. */
  function Filled(p: Pipe, src: seq<int>, i: int): (r: (Pipe, int))
    requires |p.data| == PIPESIZE && 0 <= p.nwrite && 0 <= i <= |src|
    ensures i <= r.1 <= |src| && |r.0.data| == PIPESIZE && 0 <= r.0.nwrite && (r.1 == |src| || Full(r.0))
    decreases |src| - i
  {
    if i == |src| || Full(p) then (p, i) else Filled(Put(p, src[i]), src, i + 1)
  }

  /** The bytes a read takes (pipe.c:113-117), and the pipe after it. */
  function Drained(p: Pipe, n: int): (r: (Pipe, seq<int>))
    requires |p.data| == PIPESIZE && 0 <= p.nread
    ensures |r.0.data| == PIPESIZE
    decreases n
  {
    if n <= 0 || Empty(p) then (p, [])
    else
      var rest := Drained(p.(nread := (p.nread + 1) % TWO32), n - 1);
      (rest.0, [p.data[p.nread % PIPESIZE]] + rest.1)
  }

  // ----- The loops as code -----

  /** The copying of pipewrite (pipe.c:84-94), as far as it gets without sleeping. */
  method Fill(p: Pipe, src: seq<int>, from: int) returns (p': Pipe, i: int)
    requires |p.data| == PIPESIZE && 0 <= p.nwrite && 0 <= from <= |src|
    ensures (p', i) == Filled(p, src, from)
  {
    p', i := p, from;
    while i < |src| && p'.nwrite != (p'.nread + PIPESIZE) % TWO32
      invariant from <= i <= |src| && |p'.data| == PIPESIZE && 0 <= p'.nwrite
      invariant Filled(p, src, from) == Filled(p', src, i)
    {
      p' := p'.(data := p'.data[p'.nwrite % PIPESIZE := src[i]], nwrite := (p'.nwrite + 1) % TWO32);
      i := i + 1;
    }
  }

  /** The copying of piperead (pipe.c:113-117). */
  method Drain(p: Pipe, n: int) returns (p': Pipe, out: seq<int>)
    requires |p.data| == PIPESIZE && 0 <= p.nread
    ensures p' == Drained(p, n).0 && out == Drained(p, n).1
  {
    p', out := p, [];
    var i := 0;
    while i < n
      invariant 0 <= i && (i <= n || n < 0 == i) && |p'.data| == PIPESIZE && 0 <= p'.nread
      invariant Drained(p, n).0 == Drained(p', n - i).0 && Drained(p, n).1 == out + Drained(p', n - i).1
    {
      if p'.nread == p'.nwrite {
        break;
      }
      out := out + [p'.data[p'.nread % PIPESIZE]];
      p' := p'.(nread := (p'.nread + 1) % TWO32);
      i := i + 1;
    }
  }

  // ----- Steps -----

  /** Where a process is. */
  datatype Act =
    | Away
    | AsleepW(src: seq<int>, i: int)
    | ReadyW(src: seq<int>, i: int)
    | AsleepR(n: int)
    | ReadyR(n: int)

  /** What a call returned: the number of bytes written, the bytes read, or -1. */
  datatype Ret = Wrote(n: int) | NotWritten | Took(bytes: seq<int>) | NotRead

  /** `put` and `got` are all bytes ever put in and taken out, `rets` what the last call of each process
      that came to its end returned. */
  datatype State = State(
    pipe: Pipe, put: seq<int>, got: seq<int>, acts: map<int, Act>, killed: set<int>, rets: map<int, Ret>)

  datatype Label =
    | Write(p: int, src: seq<int>)
    | Read(p: int, n: int)
    | Resume(p: int)
    | Kill(p: int)
    | CloseWrite
    | CloseRead

  function ActOf(s: State, p: int): Act
  {
    if p in s.acts then s.acts[p] else Away
  }

  function WakeReaders(acts: map<int, Act>): map<int, Act>
  {
    map p | p in acts :: if acts[p].AsleepR? then ReadyR(acts[p].n) else acts[p]
  }

  function WakeWriters(acts: map<int, Act>): map<int, Act>
  {
    map p | p in acts :: if acts[p].AsleepW? then ReadyW(acts[p].src, acts[p].i) else acts[p]
  }

  /** A section of pipewrite (pipe.c:79-98). */
  function WriteOn(s: State, p: int, src: seq<int>, i: int): State
    requires |s.pipe.data| == PIPESIZE && 0 <= s.pipe.nwrite && 0 <= i <= |src|
  {
    var r := Filled(s.pipe, src, i);
    var t := s.(pipe := r.0, put := s.put + src[i..r.1]);
    if r.1 == |src| then t.(acts := WakeReaders(s.acts)[p := Away], rets := s.rets[p := Wrote(|src|)])
    else if !s.pipe.readopen || p in s.killed then t.(acts := s.acts[p := Away], rets := s.rets[p := NotWritten])
    else t.(acts := WakeReaders(s.acts)[p := AsleepW(src, r.1)])
  }

  /** A section of piperead (pipe.c:101-121). */
  function ReadOn(s: State, p: int, n: int): State
    requires |s.pipe.data| == PIPESIZE && 0 <= s.pipe.nread
  {
    if Empty(s.pipe) && s.pipe.writeopen then
      if p in s.killed then s.(acts := s.acts[p := Away], rets := s.rets[p := NotRead])
      else s.(acts := s.acts[p := AsleepR(n)])
    else
      var r := Drained(s.pipe, n);
      s.(pipe := r.0, got := s.got + r.1, acts := WakeWriters(s.acts)[p := Away], rets := s.rets[p := Took(r.1)])
  }

  ghost predicate NoWriter(s: State)
  {
    forall p :: !ActOf(s, p).AsleepW? && !ActOf(s, p).ReadyW?
  }

  ghost predicate NoReader(s: State)
  {
    forall p :: !ActOf(s, p).AsleepR? && !ActOf(s, p).ReadyR?
  }

  ghost predicate ShapeOk(s: State)
  {
    && |s.pipe.data| == PIPESIZE && 0 <= s.pipe.nread < TWO32 && 0 <= s.pipe.nwrite < TWO32
    && forall p {:trigger ActOf(s, p)} :: ActOf(s, p).AsleepW? || ActOf(s, p).ReadyW? ==>
       0 <= ActOf(s, p).i <= |ActOf(s, p).src|
  }

  /** One step; `None` when it is not possible. An end of the pipe is closed only when no process
      is inside a call on it. */
  ghost function Step(s: State, l: Label): Option<State>
  {
    if !ShapeOk(s) then None
    else match l
      case Write(p, src) => if ActOf(s, p).Away? && s.pipe.writeopen then Some(WriteOn(s, p, src, 0)) else None
      case Read(p, n) => if ActOf(s, p).Away? && s.pipe.readopen then Some(ReadOn(s, p, n)) else None
      case Resume(p) =>
        var a := ActOf(s, p);
        if a.ReadyW? then (if 0 <= a.i <= |a.src| then Some(WriteOn(s, p, a.src, a.i)) else None)
        else if a.ReadyR? then Some(ReadOn(s, p, a.n)) else None
      case Kill(p) =>
        var a := ActOf(s, p);
        Some(s.(killed := s.killed + {p},
                acts := if a.AsleepW? then s.acts[p := ReadyW(a.src, a.i)] else if a.AsleepR?
                  then s.acts[p := ReadyR(a.n)] else s.acts))
      case CloseWrite =>
        if NoWriter(s) then Some(s.(pipe := s.pipe.(writeopen := false), acts := WakeReaders(s.acts))) else None
      case CloseRead =>
        if NoReader(s) then Some(s.(pipe := s.pipe.(readopen := false), acts := WakeWriters(s.acts))) else None
  }

  ghost function Runs(s: State, ls: seq<Label>): Option<State>
    decreases |ls|
  {
    if ls == [] then Some(s)
    else
      var t := Step(s, ls[0]);
      if t.None? then None else Runs(t.value, ls[1..])
  }

  // ----- The bytes -----

  /** The counters count the bytes in and out, in 32 bits; what came out is a prefix of what went
      in; the ring holds the rest. */
  ghost predicate Fifo(p: Pipe, put: seq<int>, got: seq<int>)
  {
    && |p.data| == PIPESIZE && p.nwrite == |put| % TWO32 && p.nread == |got| % TWO32
    && |got| <= |put| <= |got| + PIPESIZE && (forall k {:trigger got[k]} :: 0 <= k < |got| ==> got[k] == put[k])
    && (forall k {:trigger put[k]} :: |got| <= k < |put| ==> p.data[k % PIPESIZE] == put[k])
  }

  lemma {:induction false} ModMod(x: int)
    requires 0 <= x
    ensures x % TWO32 % PIPESIZE == x % PIPESIZE
  {
    var q, r := x / TWO32, x % TWO32;
    assert x == PIPESIZE * (q * 0x80_0000) + r;
    var a, b := r / PIPESIZE, r % PIPESIZE;
    assert x == PIPESIZE * (q * 0x80_0000 + a) + b;
  }

  /** The wrapped counters tell a full pipe and an empty one. */
  lemma {:induction false} CountsTell(p: Pipe, put: seq<int>, got: seq<int>)
    requires Fifo(p, put, got)
    ensures Full(p) <==> |put| - |got| == PIPESIZE
    ensures Empty(p) <==> |put| == |got|
  {
    var d := |put| - |got|;
    var q, r := |got| / TWO32, |got| % TWO32;
    assert |put| == TWO32 * q + (r + d);
    WrapSum(q, r, d);
    WrapSum(q, r, PIPESIZE);
  }

  lemma {:induction false} WrapSum(q: int, r: int, d: int)
    requires 0 <= r < TWO32 && 0 <= d <= PIPESIZE && 0 <= q
    ensures (TWO32 * q + (r + d)) % TWO32 == if r + d < TWO32 then r + d else r + d - TWO32
    ensures (r + d) % TWO32 == if r + d < TWO32 then r + d else r + d - TWO32
  {
    var s := if r + d < TWO32 then r + d else r + d - TWO32;
    var c := if r + d < TWO32 then q else q + 1;
    assert TWO32 * q + (r + d) == TWO32 * c + s;
  }

  lemma {:induction false} PutFifo(p: Pipe, put: seq<int>, got: seq<int>, v: int)
    requires Fifo(p, put, got) && !Full(p)
    ensures Fifo(Put(p, v), put + [v], got)
  {
    CountsTell(p, put, got);
    ModMod(|put|);
    NextCount(|put|);
    var p', put' := Put(p, v), put + [v];
    forall k | |got| <= k < |put'|
      ensures p'.data[k % PIPESIZE] == put'[k]
    {
      if k < |put| {
        assert p.data[k % PIPESIZE] == put[k];
        Apart(k, |put|);
      }
    }
  }

  lemma {:induction false} NextCount(n: int)
    requires 0 <= n
    ensures (n % TWO32 + 1) % TWO32 == (n + 1) % TWO32
  {
    WrapSum(n / TWO32, n % TWO32, 1);
  }

  lemma {:induction false} Apart(k: int, n: int)
    requires 0 <= k < n < k + PIPESIZE
    ensures k % PIPESIZE != n % PIPESIZE
  {
  }

  lemma {:induction false} FilledFifo(p: Pipe, put: seq<int>, got: seq<int>, src: seq<int>, i: int)
    requires Fifo(p, put, got) && 0 <= i <= |src|
    ensures Fifo(Filled(p, src, i).0, put + src[i..Filled(p, src, i).1], got)
    ensures Filled(p, src, i).0.readopen == p.readopen && Filled(p, src, i).0.writeopen == p.writeopen
    decreases |src| - i
  {
    var r := Filled(p, src, i);
    if i == |src| || Full(p) {
      assert put + src[i..i] == put;
    } else {
      PutFifo(p, put, got, src[i]);
      FilledFifo(Put(p, src[i]), put + [src[i]], got, src, i + 1);
      assert put + [src[i]] + src[i + 1..r.1] == put + src[i..r.1];
    }
  }

  lemma {:induction false} DrainedFifo(p: Pipe, put: seq<int>, got: seq<int>, n: int)
    requires Fifo(p, put, got)
    ensures Fifo(Drained(p, n).0, put, got + Drained(p, n).1)
    ensures Drained(p, n).0.readopen == p.readopen && Drained(p, n).0.writeopen == p.writeopen
    decreases n
  {
    if n <= 0 || Empty(p) {
      assert got + [] == got;
    } else {
      CountsTell(p, put, got);
      ModMod(|got|);
      NextCount(|got|);
      var v := p.data[p.nread % PIPESIZE];
      assert put[|got|] == v;
      var p1 := p.(nread := (p.nread + 1) % TWO32);
      assert Fifo(p1, put, got + [v]);
      DrainedFifo(p1, put, got + [v], n - 1);
      var rest := Drained(p1, n - 1);
      assert got + [v] + rest.1 == got + ([v] + rest.1);
    }
  }

  // ----- What every step keeps -----

  /** A sleeping writer has a full pipe before it, a sleeping reader a pipe with its write end open. */
  ghost predicate ActOk(s: State, a: Act)
  {
    match a
    case Away => true
    case AsleepW(src, i) => 0 <= i <= |src| && Full(s.pipe) && s.pipe.readopen && s.pipe.writeopen
    case ReadyW(src, i) => 0 <= i <= |src| && s.pipe.writeopen
    case AsleepR(n) => s.pipe.readopen && s.pipe.writeopen
    case ReadyR(n) => s.pipe.readopen
  }

  ghost predicate Inv(s: State)
  {
    Fifo(s.pipe, s.put, s.got) && forall p {:trigger ActOf(s, p)} :: ActOk(s, ActOf(s, p))
  }

  lemma {:induction false} InvShape(s: State)
    requires Inv(s)
    ensures ShapeOk(s)
  {
    forall p
      ensures ActOf(s, p).AsleepW? || ActOf(s, p).ReadyW? ==> 0 <= ActOf(s, p).i <= |ActOf(s, p).src|
    {
      assert ActOk(s, ActOf(s, p));
    }
  }

  lemma {:induction false} WriteKeeps(s: State, p: int, src: seq<int>, i: int)
    requires Inv(s) && s.pipe.writeopen && 0 <= i <= |src| && (ActOf(s, p).Away? || ActOf(s, p).ReadyW?)
    ensures Inv(WriteOn(s, p, src, i))
  {
    var r, t := Filled(s.pipe, src, i), WriteOn(s, p, src, i);
    FilledFifo(s.pipe, s.put, s.got, src, i);
    if r.1 == i {
      assert src[i..r.1] == [];
    }
    assert Full(s.pipe) ==> r == (s.pipe, i);
    forall q
      ensures ActOk(t, ActOf(t, q))
    {
      assert ActOk(s, ActOf(s, q));
    }
  }

  lemma {:induction false} ReadKeeps(s: State, p: int, n: int)
    requires Inv(s) && s.pipe.readopen && (ActOf(s, p).Away? || ActOf(s, p).ReadyR?)
    ensures Inv(ReadOn(s, p, n))
  {
    var t := ReadOn(s, p, n);
    DrainedFifo(s.pipe, s.put, s.got, n);
    CountsTell(s.pipe, s.put, s.got);
    forall q
      ensures ActOk(t, ActOf(t, q))
    {
      assert ActOk(s, ActOf(s, q));
    }
  }

  lemma {:induction false} StepKeeps(s: State, l: Label)
    requires Inv(s) && Step(s, l).Some?
    ensures Inv(Step(s, l).value)
  {
    InvShape(s);
    match l {
      case Write(p, src) => WriteKeeps(s, p, src, 0);
      case Read(p, n) => ReadKeeps(s, p, n);
      case Resume(p) =>
        assert ActOk(s, ActOf(s, p));
        if ActOf(s, p).ReadyW? {
          WriteKeeps(s, p, ActOf(s, p).src, ActOf(s, p).i);
        } else {
          ReadKeeps(s, p, ActOf(s, p).n);
        }
      case _ =>
        var t := Step(s, l).value;
        forall q
          ensures ActOk(t, ActOf(t, q))
        {
          assert ActOk(s, ActOf(s, q));
        }
    }
  }

  /** When each step is possible: a call while its end of the pipe is open, going on once woken, a signal at
      any time, and closing an end when no process is inside a call on it. */
  lemma {:induction false} EnabledIff(s: State, l: Label)
    requires Inv(s)
    ensures Step(s, l).Some? <==>
            match l
            case Write(p, _) => s.pipe.writeopen && ActOf(s, p) == Away
            case Read(p, _) => s.pipe.readopen && ActOf(s, p) == Away
            case Resume(p) => ActOf(s, p).ReadyW? || ActOf(s, p).ReadyR?
            case Kill(_) => true
            case CloseWrite => forall p :: p in s.acts ==> !s.acts[p].AsleepW? && !s.acts[p].ReadyW?
            case CloseRead => forall p :: p in s.acts ==> !s.acts[p].AsleepR? && !s.acts[p].ReadyR?
  {
    InvShape(s);
    assert l.CloseWrite? ==> forall p :: p in s.acts ==> ActOf(s, p) == s.acts[p];
    assert l.CloseRead? ==> forall p :: p in s.acts ==> ActOf(s, p) == s.acts[p];
  }

  lemma {:induction false} RunKeeps(s: State, ls: seq<Label>)
    requires Inv(s) && Runs(s, ls).Some?
    ensures Inv(Runs(s, ls).value)
    decreases |ls|
  {
    if ls != [] {
      StepKeeps(s, ls[0]);
      RunKeeps(Step(s, ls[0]).value, ls[1..]);
    }
  }

  /** A new pipe (pipe.c:31-34). */
  predicate Fresh(s: State)
  {
    |s.pipe.data| == PIPESIZE && s.pipe.nread == 0 && s.pipe.nwrite == 0 && s.pipe.readopen && s.pipe.writeopen
    && s.put == [] && s.got == [] && s.acts == map[] && s.rets == map[]
  }

  /** Bytes come out in the order they went in, and the difference of the 32-bit counters is the
      number of bytes in the pipe, between 0 and 512, however often they have wrapped around. */
  lemma {:induction false} FirstInFirstOut(s: State, ls: seq<Label>)
    requires Fresh(s) && Runs(s, ls).Some?
    ensures var t := Runs(s, ls).value;
            t.got <= t.put && (t.pipe.nwrite - t.pipe.nread) % TWO32 == |t.put| - |t.got| <= PIPESIZE
  {
    RunKeeps(s, ls);
    var t := Runs(s, ls).value;
    var q, r, d := |t.got| / TWO32, |t.got| % TWO32, |t.put| - |t.got|;
    assert |t.put| == TWO32 * q + (r + d);
    WrapSum(q, r, d);
  }

  // ----- What one section does -----

  /** How far filling gets: all of the rest, or as much as there is room for. */
  lemma {:induction false} FilledTo(p: Pipe, put: seq<int>, got: seq<int>, src: seq<int>, i: int)
    requires Fifo(p, put, got) && 0 <= i <= |src|
    ensures Filled(p, src, i).1 == i + Least(|src| - i, PIPESIZE - (|put| - |got|))
  {
    var r := Filled(p, src, i);
    FilledFifo(p, put, got, src, i);
    CountsTell(r.0, put + src[i..r.1], got);
  }

  /** Draining stops only when enough bytes were taken or none are left. */
  lemma {:induction false} DrainedCount(p: Pipe, n: int)
    requires |p.data| == PIPESIZE && 0 <= p.nread
    ensures n <= 0 ==> Drained(p, n).1 == []
    ensures n > 0 ==> |Drained(p, n).1| <= n && (|Drained(p, n).1| == n || Empty(Drained(p, n).0))
    decreases n
  {
    if n > 0 && !Empty(p) {
      DrainedCount(p.(nread := (p.nread + 1) % TWO32), n - 1);
    }
  }

  /** The bytes taken are the next ones: as many as asked for, or all there are. */
  lemma {:induction false} DrainedTo(p: Pipe, put: seq<int>, got: seq<int>, n: int)
    requires Fifo(p, put, got)
    ensures var k := if n < 0 then 0 else Least(n, |put| - |got|);
            Drained(p, n).1 == put[|got|..|got| + k]
  {
    var r := Drained(p, n);
    DrainedFifo(p, put, got, n);
    DrainedCount(p, n);
    CountsTell(r.0, put, got + r.1);
    forall j | 0 <= j < |r.1|
      ensures r.1[j] == put[|got| + j]
    {
      assert (got + r.1)[|got| + j] == r.1[j];
    }
  }

  /** The call that a section of pipewrite belongs to: its buffer, and how much of it went in before. */
  function Source(s: State, l: Label): seq<int>
    requires Writes(s, l)
  {
    if l.Write? then l.src else ActOf(s, l.p).src
  }

  function From(s: State, l: Label): int
    requires Writes(s, l)
  {
    if l.Write? then 0 else ActOf(s, l.p).i
  }

  /** A section of pipewrite (pipe.c:79-98) in terms of the bytes: it puts in the next ones of its buffer,
      as many as there is room for. With the last one it returns their number. Otherwise it returns -1
      if the read end is closed or the process is killed, and sleeps if not, with its position. Unless
      it returns -1, all sleeping readers are woken; nothing else changes. */
  lemma {:induction false} WriteSection(s: State, l: Label)
    requires Inv(s) && Step(s, l).Some? && Writes(s, l)
    ensures 0 <= From(s, l) <= |Source(s, l)|
    ensures var t, src, i := Step(s, l).value, Source(s, l), From(s, l);
            var k := Least(|src| - i, PIPESIZE - (|s.put| - |s.got|));
            var fails := i + k < |src| && (!s.pipe.readopen || l.p in s.killed);
            && 0 <= k && t.put == s.put + src[i..i + k] && t.got == s.got && t.killed == s.killed
            && t.pipe.readopen == s.pipe.readopen && t.pipe.writeopen == s.pipe.writeopen
            && (i + k == |src| ==> ActOf(t, l.p) == Away && t.rets == s.rets[l.p := Wrote(|src|)])
            && (fails ==> ActOf(t, l.p) == Away && t.rets == s.rets[l.p := NotWritten])
            && (i + k < |src| && !fails ==> ActOf(t, l.p) == AsleepW(src, i + k) && t.rets == s.rets)
            && (forall q {:trigger ActOf(t, q)} :: q != l.p ==>
                  ActOf(t, q) == if ActOf(s, q).AsleepR? && !fails then ReadyR(ActOf(s, q).n) else ActOf(s, q))
  {
    InvShape(s);
    assert ActOk(s, ActOf(s, l.p));
    FilledTo(s.pipe, s.put, s.got, Source(s, l), From(s, l));
    FilledFifo(s.pipe, s.put, s.got, Source(s, l), From(s, l));
  }

  /** The step is a section of piperead. */
  predicate Reads(s: State, l: Label)
  {
    l.Read? || (l.Resume? && ActOf(s, l.p).ReadyR?)
  }

  function Asked(s: State, l: Label): int
    requires Reads(s, l)
  {
    if l.Read? then l.n else ActOf(s, l.p).n
  }

  /** A section of piperead (pipe.c:101-121): with no byte in the pipe and its write end open it returns -1
      if the process is killed and sleeps if not. Otherwise it returns the next bytes, as many as asked
      for or all there are, and all sleeping writers are woken. Nothing else changes. */
  lemma {:induction false} ReadSection(s: State, l: Label)
    requires Inv(s) && Step(s, l).Some? && Reads(s, l)
    ensures var t, n := Step(s, l).value, Asked(s, l);
            var k := if n < 0 then 0 else Least(n, |s.put| - |s.got|);
            var waits := |s.put| == |s.got| && s.pipe.writeopen;
            && 0 <= k && t.put == s.put && t.killed == s.killed
            && t.pipe.readopen == s.pipe.readopen && t.pipe.writeopen == s.pipe.writeopen
            && (waits ==> t.got == s.got)
            && (waits && l.p in s.killed ==> ActOf(t, l.p) == Away && t.rets == s.rets[l.p := NotRead])
            && (waits && l.p !in s.killed ==> ActOf(t, l.p) == AsleepR(n) && t.rets == s.rets)
            && (!waits ==> t.got == s.got + s.put[|s.got|..|s.got| + k])
            && (!waits ==> ActOf(t, l.p) == Away && t.rets == s.rets[l.p := Took(s.put[|s.got|..|s.got| + k])])
            && (forall q {:trigger ActOf(t, q)} :: q != l.p ==>
                  ActOf(t, q) == if ActOf(s, q).AsleepW? && !waits then ReadyW(ActOf(s, q).src, ActOf(s, q).i)
                                 else ActOf(s, q))
  {
    InvShape(s);
    CountsTell(s.pipe, s.put, s.got);
    DrainedTo(s.pipe, s.put, s.got, Asked(s, l));
    DrainedFifo(s.pipe, s.put, s.got, Asked(s, l));
  }

  /** Killing and closing move no byte and end no call: kill wakes the process (proc.c:507-524), closing an
      end wakes those who sleep at the other one (pipe.c:60-76). */
  lemma {:induction false} OtherSection(s: State, l: Label)
    requires Inv(s) && Step(s, l).Some? && (l.Kill? || l.CloseWrite? || l.CloseRead?)
    ensures var t := Step(s, l).value;
            && t.put == s.put && t.got == s.got && t.rets == s.rets
            && t.killed == (if l.Kill? then s.killed + {l.p} else s.killed)
            && t.pipe == s.pipe.(readopen := s.pipe.readopen && !l.CloseRead?,
                                 writeopen := s.pipe.writeopen && !l.CloseWrite?)
            && (forall q {:trigger ActOf(t, q)} ::
                  var a := ActOf(s, q);
                  ActOf(t, q) ==
                  if a.AsleepR? && (l.CloseWrite? || l == Kill(q)) then ReadyR(a.n)
                  else if a.AsleepW? && (l.CloseRead? || l == Kill(q)) then ReadyW(a.src, a.i) else a)
  {
  }

  // ----- What a whole write call does -----

  /** The buffer of the last write call of a process in a run. */
  function Given(ls: seq<Label>, p: int): seq<int>
  {
    if ls == [] then []
    else
      var l := ls[|ls| - 1];
      if l.Write? && l.p == p then l.src else Given(ls[..|ls| - 1], p)
  }

  /** The bytes by which the pipe grew in the sections of that call. */
  ghost function Poured(s: State, ls: seq<Label>, p: int): seq<int>
    requires Runs(s, ls).Some?
    decreases |ls|
  {
    if ls == [] then []
    else
      var l, ms := ls[|ls| - 1], ls[..|ls| - 1];
      RunsLast(s, ls);
      var t := Runs(s, ms).value;
      var more := Grown(t.put, Runs(s, ls).value.put);
      if l == Resume(p) && ActOf(t, p).ReadyW? then Poured(s, ms, p) + more
      else if l.Write? && l.p == p then more
      else Poured(s, ms, p)
  }

  /** What was appended to `x`. */
  function Grown(x: seq<int>, y: seq<int>): seq<int>
  {
    if |x| <= |y| then y[|x|..] else []
  }

  lemma {:induction false} RunsLast(s: State, ls: seq<Label>)
    requires Runs(s, ls).Some? && ls != []
    ensures Runs(s, ls[..|ls| - 1]).Some?
    ensures Step(Runs(s, ls[..|ls| - 1]).value, ls[|ls| - 1]) == Runs(s, ls)
    decreases |ls|
  {
    var ms := ls[..|ls| - 1];
    if |ls| == 1 {
      assert ms == [] && ls[1..] == [];
    } else {
      RunsLast(Step(s, ls[0]).value, ls[1..]);
      assert ms[0] == ls[0] && ms[1..] == ls[1..][..|ls| - 2];
    }
  }

  /** Where a process stands in its last write call, seen from outside. */
  ghost predicate CallOk(t: State, p: int, src: seq<int>, poured: seq<int>)
  {
    var a := ActOf(t, p);
    if a.AsleepW? || a.ReadyW? then a.src == src && 0 <= a.i <= |src| && poured == src[..a.i]
    else
      && poured <= src
      && (p in t.rets && t.rets[p].Wrote? ==> poured == src && t.rets[p].n == |src|)
      && (p in t.rets && t.rets[p].NotWritten? ==> poured != src)
  }

  /** One more section of the call itself. */
  lemma {:induction false} CallGoesOn(s: State, l: Label, p: int, src: seq<int>, poured: seq<int>)
    requires Inv(s) && Step(s, l).Some? && CallOk(s, p, src, poured) && Writes(s, l) && l.p == p
    ensures var t := Step(s, l).value;
            var more := Grown(s.put, t.put);
            if l.Resume? then CallOk(t, p, src, poured + more) else CallOk(t, p, l.src, more)
  {
    WriteSection(s, l);
    var k := Least(|Source(s, l)| - From(s, l), PIPESIZE - (|s.put| - |s.got|));
    PourMore(s.put, Source(s, l), From(s, l), k);
  }

  /** One more step of anything else. */
  lemma {:induction false} CallStays(s: State, l: Label, p: int, src: seq<int>, poured: seq<int>)
    requires Inv(s) && Step(s, l).Some? && CallOk(s, p, src, poured) && !(Writes(s, l) && l.p == p)
    ensures CallOk(Step(s, l).value, p, src, poured)
  {
    var t := Step(s, l).value;
    assert ActOf(t, p) == ActOf(t, p);
    if Writes(s, l) {
      WriteSection(s, l);
    } else if Reads(s, l) {
      ReadSection(s, l);
    } else {
      OtherSection(s, l);
    }
  }

  /** One more step. */
  lemma {:induction false} CallNext(s: State, l: Label, p: int, src: seq<int>, poured: seq<int>)
    requires Inv(s) && Step(s, l).Some? && CallOk(s, p, src, poured)
    ensures var t := Step(s, l).value;
            var more := Grown(s.put, t.put);
            if l == Resume(p) && ActOf(s, p).ReadyW? then CallOk(t, p, src, poured + more)
            else if l.Write? && l.p == p then CallOk(t, p, l.src, more)
            else CallOk(t, p, src, poured)
  {
    if Writes(s, l) && l.p == p {
      CallGoesOn(s, l, p, src, poured);
    } else {
      CallStays(s, l, p, src, poured);
    }
  }

  lemma {:induction false} PourMore(put: seq<int>, src: seq<int>, i: int, k: int)
    requires 0 <= i <= i + k <= |src|
    ensures Grown(put, put + src[i..i + k]) == src[i..i + k] && src[..i] + src[i..i + k] == src[..i + k]
    ensures i == 0 ==> src[i..i + k] == src[..k]
    ensures i + k == |src| ==> src[..i + k] == src
  {
  }

  /** Over every run: a write call that has not come to its end has put in exactly the bytes of its buffer
      before its position, each once and in order. One that returned n has put in its whole buffer, and
      one that returned -1 a proper prefix of it. */
  lemma {:induction false} WritesItsBuffer(s: State, ls: seq<Label>, p: int)
    requires Fresh(s) && Runs(s, ls).Some?
    ensures CallOk(Runs(s, ls).value, p, Given(ls, p), Poured(s, ls, p))
    decreases |ls|
  {
    if ls != [] {
      RunsLast(s, ls);
      var ms := ls[..|ls| - 1];
      WritesItsBuffer(s, ms, p);
      RunKeeps(s, ms);
      CallNext(Runs(s, ms).value, ls[|ls| - 1], p, Given(ms, p), Poured(s, ms, p));
    }
  }

  // ----- Sleeping readers -----

  /** Every sleeping reader has an empty pipe before it. */
  ghost predicate Calm(s: State)
  {
    forall q {:trigger ActOf(s, q)} :: ActOf(s, q).AsleepR? ==> Empty(s.pipe)
  }

  /** The step is a section of pipewrite. */
  predicate Writes(s: State, l: Label)
  {
    l.Write? || (l.Resume? && ActOf(s, l.p).ReadyW?)
  }

  /** The bytes it still has to put in. */
  function Left(s: State, l: Label): int
    requires Writes(s, l)
  {
    if l.Write? then |l.src| else |ActOf(s, l.p).src| - ActOf(s, l.p).i
  }

  /** A killed writer goes on with more bytes than an empty pipe has room for. */
  predicate KilledWriter(s: State, l: Label)
  {
    Writes(s, l) && l.p in s.killed && Left(s, l) > PIPESIZE
  }

  /** Filling an empty pipe leaves it empty, holding all that was left, or full. */
  lemma {:induction false} FilledFromEmpty(p: Pipe, put: seq<int>, got: seq<int>, src: seq<int>, i: int)
    requires Fifo(p, put, got) && Empty(p) && 0 <= i <= |src|
    ensures Filled(p, src, i).1 == (if |src| - i <= PIPESIZE then |src| else i + PIPESIZE)
    ensures Empty(Filled(p, src, i).0) <==> i == |src|
  {
    var r := Filled(p, src, i);
    FilledFifo(p, put, got, src, i);
    CountsTell(p, put, got);
    CountsTell(r.0, put + src[i..r.1], got);
  }

  /** A reader asleep before an empty pipe is left asleep before one that is not empty by exactly one
      kind of step: a section of a killed writer with more than PIPESIZE bytes left. */
  lemma {:induction false} StrandedIff(s: State, l: Label, q: int)
    requires Inv(s) && Step(s, l).Some? && ActOf(s, q).AsleepR? && Empty(s.pipe)
    ensures ActOf(Step(s, l).value, q).AsleepR? && !Empty(Step(s, l).value.pipe) <==> KilledWriter(s, l)
  {
    assert ActOk(s, ActOf(s, q));
    if Writes(s, l) {
      assert ActOk(s, ActOf(s, l.p));
      FilledFromEmpty(s.pipe, s.put, s.got, if l.Write? then l.src else ActOf(s, l.p).src,
                      if l.Write? then 0 else ActOf(s, l.p).i);
    }
  }

  /** The step strands a reader. */
  ghost predicate Strands(s: State, l: Label)
  {
    KilledWriter(s, l) && exists q :: ActOf(s, q).AsleepR?
  }

  lemma {:induction false} CalmIff(s: State, l: Label)
    requires Inv(s) && Calm(s) && Step(s, l).Some?
    ensures Calm(Step(s, l).value) <==> !Strands(s, l)
  {
    var t := Step(s, l).value;
    if exists q :: ActOf(s, q).AsleepR? {
      var q :| ActOf(s, q).AsleepR?;
      StrandedIff(s, l, q);
      assert KilledWriter(s, l) ==> ActOf(t, q).AsleepR?;
    }
    forall q | ActOf(t, q).AsleepR? && !Strands(s, l)
      ensures Empty(t.pipe)
    {
      if ActOf(s, q).AsleepR? {
        StrandedIff(s, l, q);
      }
    }
  }

  ghost predicate AlwaysCalm(s: State, ls: seq<Label>)
    requires Runs(s, ls).Some?
    decreases |ls|
  {
    Calm(s) && (ls == [] || AlwaysCalm(Step(s, ls[0]).value, ls[1..]))
  }

  ghost predicate NeverStrands(s: State, ls: seq<Label>)
    requires Runs(s, ls).Some?
    decreases |ls|
  {
    ls == [] || (!Strands(s, ls[0]) && NeverStrands(Step(s, ls[0]).value, ls[1..]))
  }

  /** Through a whole run every sleeping reader has an empty pipe before it, if and only if no killed
      writer with more than PIPESIZE bytes left goes on while a reader sleeps. */
  lemma {:induction false} CalmRunIff(s: State, ls: seq<Label>)
    requires Inv(s) && Calm(s) && Runs(s, ls).Some?
    ensures AlwaysCalm(s, ls) <==> NeverStrands(s, ls)
    decreases |ls|
  {
    if ls != [] {
      var t := Step(s, ls[0]).value;
      StepKeeps(s, ls[0]);
      CalmIff(s, ls[0]);
      if Calm(t) {
        CalmRunIff(t, ls[1..]);
      }
    }
  }

  lemma {:induction false} CalmAtEnd(s: State, ls: seq<Label>)
    requires Runs(s, ls).Some? && AlwaysCalm(s, ls)
    ensures Calm(Runs(s, ls).value)
    decreases |ls|
  {
    if ls != [] {
      CalmAtEnd(Step(s, ls[0]).value, ls[1..]);
    }
  }

  /** A sleeping reader has the write end open, and an empty pipe unless a step of the run stranded a
      reader. */
  lemma {:induction false} ReaderSleepsOnEmpty(s: State, ls: seq<Label>, p: int)
    requires Fresh(s) && Runs(s, ls).Some? && ActOf(Runs(s, ls).value, p).AsleepR?
    ensures Runs(s, ls).value.pipe.writeopen
    ensures NeverStrands(s, ls) ==> |Runs(s, ls).value.put| == |Runs(s, ls).value.got|
  {
    RunKeeps(s, ls);
    var t := Runs(s, ls).value;
    assert ActOk(t, ActOf(t, p));
    CalmRunIff(s, ls);
    if NeverStrands(s, ls) {
      CalmAtEnd(s, ls);
      CountsTell(t.pipe, t.put, t.got);
    }
  }

  /** A writer sleeps before a full pipe with its read end open. */
  lemma {:induction false} WriterSleepsOnFull(s: State, ls: seq<Label>, p: int)
    requires Fresh(s) && Runs(s, ls).Some? && ActOf(Runs(s, ls).value, p).AsleepW?
    ensures |Runs(s, ls).value.put| - |Runs(s, ls).value.got| == PIPESIZE && Runs(s, ls).value.pipe.readopen
  {
    RunKeeps(s, ls);
    var t := Runs(s, ls).value;
    assert ActOk(t, ActOf(t, p));
    CountsTell(t.pipe, t.put, t.got);
  }

  /** The exit that does not wake readers: a killed writer with more bytes than fit leaves a full
      pipe before a sleeping reader. */
  lemma {:induction false} KilledWriterStrandsReader(s: State, r: int, w: int, src: seq<int>)
    requires Fresh(s) && r != w && r !in s.killed && w in s.killed && |src| > PIPESIZE
    ensures Runs(s, [Read(r, 1), Write(w, src)]).Some?
    ensures var t := Runs(s, [Read(r, 1), Write(w, src)]).value; ActOf(t, r).AsleepR? && Full(t.pipe)
  {
    assert Inv(s);
    InvShape(s);
    var s1 := Step(s, Read(r, 1)).value;
    StepKeeps(s, Read(r, 1));
    InvShape(s1);
    FilledFifo(s1.pipe, s1.put, s1.got, src, 0);
    var f := Filled(s1.pipe, src, 0);
    CountsTell(f.0, s1.put + src[0..f.1], s1.got);
    assert [Read(r, 1), Write(w, src)][1..] == [Write(w, src)] && [Write(w, src)][1..] == [];
    assert Step(s1, Write(w, src)) == Some(WriteOn(s1, w, src, 0));
    assert Runs(s1, [Write(w, src)]) == Runs(WriteOn(s1, w, src, 0), []);
  }
}
