/** Private memory, which whole runs of the machine are measured by: a map from page to contents for
    each process, fork an eager copy, pages never stored to zero. */
module VmRuns {
  import opened Common
  import opened VmState
  import opened VmContents
  import opened VmOps
  import opened Vm

  // ----- Private memory -----

  datatype Cell = Cell(pid: int, page: int)

  /** What the processes should find: a private map from page to contents for each, absent
      pages being zero, and the size of each. */
  datatype Private = Private(mem: map<Cell, Page>, sz: map<int, int>)

  function Peek(mem: map<Cell, Page>, c: Cell): Page
  {
    if c in mem then mem[c] else ZERO
  }

  function ByteAt(page: Page, addr: int): Byte
  {
    page.bytes[addr % PGSIZE]
  }

  function WithByte(page: Page, addr: int, v: Byte): Page
  {
    Page(page.bytes[addr % PGSIZE := v])
  }

  /** fork copies every page from PGSIZE up to the size. */
  function CopyCells(mem: map<Cell, Page>, p: int, c: int, n: int): map<Cell, Page>
  {
    if n <= 1 then mem else CopyCells(mem, p, c, n - 1)[Cell(c, n - 1) := Peek(mem, Cell(p, n - 1))]
  }

  /** The pages [lo, hi) of a process become pages of zeroes. */
  function CutOut(mem: map<Cell, Page>, p: int, lo: int, hi: int): map<Cell, Page>
  {
    map c | c in mem && !(c.pid == p && lo <= c.page < hi) :: mem[c]
  }

  /** All pages of a process become pages of zeroes. */
  function Without(mem: map<Cell, Page>, p: int): map<Cell, Page>
  {
    map c | c in mem && c.pid != p :: mem[c]
  }

  /** What happened in a step of the machine. */
  datatype Event =
    | Read(p: int, addr: int, v: Byte)
    | Wrote(p: int, addr: int, v: Byte)
    | Forked(p: int, c: int)
    | Grown(p: int, n: int)
    | Shrunk(p: int, newsz: int)
    | Wiped(p: int)
    | Exited(p: int)
    | Unseen

  /** What the event does to private memory; a read must have found what is there. */
  function Apply(m: Private, e: Event): Option<Private>
  {
    match e
    case Read(p, addr, v) =>
      if p in m.sz && v == ByteAt(Peek(m.mem, Cell(p, addr / PGSIZE)), addr) then Some(m) else None
    case Wrote(p, addr, v) =>
      var c := Cell(p, addr / PGSIZE);
      if p in m.sz then Some(m.(mem := m.mem[c := WithByte(Peek(m.mem, c), addr, v)])) else None
    case Forked(p, c) =>
      if p in m.sz && c !in m.sz
      then Some(Private(CopyCells(Without(m.mem, c), p, c, Pages(m.sz[p])), m.sz[c := m.sz[p]])) else None
    case Grown(p, n) =>
      if p in m.sz && n >= 0 then Some(m.(sz := m.sz[p := m.sz[p] + n])) else None
    case Shrunk(p, newsz) =>
      if p in m.sz && 0 <= newsz <= m.sz[p]
      then Some(Private(CutOut(m.mem, p, Pages(newsz), Pages(m.sz[p])), m.sz[p := newsz])) else None
    case Wiped(p) =>
      if p in m.sz then Some(m.(mem := CutOut(m.mem, p, 0, Pages(m.sz[p])))) else None
    case Exited(p) =>
      if p in m.sz then Some(Private(Without(m.mem, p), m.sz - {p})) else None
    case Unseen => Some(m)
  }

  function Replay(m: Private, es: seq<Event>): Option<Private>
    decreases |es|
  {
    if es == [] then Some(m)
    else
      var m1 := Apply(m, es[0]);
      if m1.None? then None else Replay(m1.value, es[1..])
  }

  lemma {:induction false} ReplayMore(m: Private, es: seq<Event>, e: Event)
    requires Replay(m, es).Some?
    ensures Replay(m, es + [e]) == Apply(Replay(m, es).value, e)
    decreases |es|
  {
    if es == [] {
      assert es + [e] == [e] && [e][1..] == [];
    } else {
      assert (es + [e])[1..] == es[1..] + [e] && (es + [e])[0] == es[0];
      ReplayMore(Apply(m, es[0]).value, es[1..], e);
    }
  }

  // ----- The machine -----

  /** Live processes with distinct directories. */
  ghost predicate TableOk(k: State, procs: map<int, Space>)
  {
    && (forall p {:trigger procs[p]} :: p in procs ==>
       Tab(procs[p].dir, -1) in k.tabs && 0 <= procs[p].sz)
    && (forall p, q {:trigger procs[p], procs[q]} :: p in procs && q in procs && procs[p].dir == procs[q].dir ==>
       p == q)
  }

  /** One page of one process: the private page is the one found through the directory. */
  ghost predicate CellOk(procs: map<int, Space>, a: Memory, mem: map<Cell, Page>, p: int, page: int)
    requires p in procs
  {
    Peek(mem, Cell(p, page)) == Look(a, At(procs[p].dir, page))
  }

  ghost predicate Shows(procs: map<int, Space>, a: Memory, m: Private)
  {
    && procs.Keys == m.sz.Keys
    && (forall p {:trigger procs[p]} :: p in procs ==> procs[p].sz == m.sz[p])
    && (forall p, page {:trigger CellOk(procs, a, m.mem, p, page)} :: p in procs ==> CellOk(procs, a, m.mem, p, page))
  }

  // ----- Loads and stores -----

  /** A fault there is refused (vm.c:628-639): the page at address 0, the kernel, and pages that begin
      beyond the size. The page that begins exactly at the size is not among them. */
  predicate Outside(p: Space, addr: int)
  {
    addr / PGSIZE == 0 || addr / PGSIZE >= KERNPAGES || addr / PGSIZE * PGSIZE > p.sz
  }

  /** A page that stops the machine when it is touched: a guard page, or a swapped page that
      cannot be brought back. */
  predicate Stuck(k: State, cap: int, at: At)
  {
    var e := Get(k.ptes, at);
    ((e.p || e.s) && !e.u) || (e.s && at in k.swapped && Unrestorable(k, cap, at))
  }

  /** A user load (or a fetch, or a load by the kernel for the user): fault as often as needed,
      set the accessed bit, and read the byte. `Panic` also stands for a process that touches
      its guard page. */
  method LoadByte(k: State, cap: int, p: Space, addr: int, ghost a: Memory) returns (k': State, v: Byte, r: Outcome)
    requires a in Refined(k, cap) && Tab(p.dir, -1) in k.tabs && 0 <= addr
    ensures !r.Panic? ==> a in Refined(k', cap) && KeepsTabs(k, k') && Frames(k'.free) >= Frames(k.free) - 2
    ensures !r.Panic? ==> forall x {:trigger Get(k'.ptes, x)} ::
              x != At(p.dir, addr / PGSIZE) ==> Get(k'.ptes, x) == Get(k.ptes, x)
    ensures r.Fail? ==> Scarce(k) || Outside(p, addr)
    ensures r.Panic? ==> Stuck(k, cap, At(p.dir, addr / PGSIZE))
    ensures r.Ok? ==> v == ByteAt(Look(a, At(p.dir, addr / PGSIZE)), addr)
    ensures r.Ok? ==> Permits(Get(k'.ptes, At(p.dir, addr / PGSIZE)), false) && Get(k'.ptes, At(p.dir, addr / PGSIZE)).a
    ensures Permits(Get(k.ptes, At(p.dir, addr / PGSIZE)), false) ==> r.Ok?
  {
    var at := At(p.dir, addr / PGSIZE);
    v := 0;
    k', r := Touch(k, cap, p, addr, false, a);
    if !r.Ok? {
      return;
    }
    FoundPage(k', cap, a, at);
    v := ByteAt(k'.mem[k'.ptes[at].frame], addr);
  }

  /** The page is made accessible and marked as accessed. */
  method Touch(k: State, cap: int, p: Space, addr: int, write: bool, ghost a: Memory) returns (k': State, r: Outcome)
    requires a in Refined(k, cap) && Tab(p.dir, -1) in k.tabs && 0 <= addr
    ensures !r.Panic? ==> a in Refined(k', cap) && KeepsTabs(k, k') && Frames(k'.free) >= Frames(k.free) - 2
    ensures !r.Panic? ==> forall x {:trigger Get(k'.ptes, x)} ::
              x != At(p.dir, addr / PGSIZE) ==> Get(k'.ptes, x) == Get(k.ptes, x)
    ensures r.Fail? ==> Scarce(k) || Outside(p, addr)
    ensures r.Panic? ==> Stuck(k, cap, At(p.dir, addr / PGSIZE))
    ensures Permits(Get(k.ptes, At(p.dir, addr / PGSIZE)), write) ==> r.Ok?
    ensures r.Ok? ==> Permits(Get(k'.ptes, At(p.dir, addr / PGSIZE)), write) && Get(k'.ptes, At(p.dir, addr / PGSIZE)).a
  {
    var at := At(p.dir, addr / PGSIZE);
    var e := Get(k.ptes, at);
    if (e.p || e.s) && !e.u {
      return k, Panic;
    }
    k', r := k, Ok;
    if !Permits(e, write) {
      k', r := HandlePageFault(k, cap, p, addr, write, a);
      if !r.Ok? {
        return;
      }
    }
    AccessedRefined(k', cap, a, at, true);
    k' := k'.(ptes := k'.ptes[at := k'.ptes[at].(a := true)]);
  }

  lemma {:induction false} FoundPage(k: State, cap: int, a: Memory, at: At)
    requires a in Refined(k, cap) && Get(k.ptes, at).p
    ensures k.ptes[at].frame in k.mem && k.mem[k.ptes[at].frame] == Look(a, at)
  {
    PresentFacts(k, cap, a, at);
    assert Matches(Content(k, at), Look(a, at));
  }

  /** A user store. */
  method StoreByte(k: State, cap: int, p: Space, addr: int, v: Byte, ghost a: Memory)
    returns (k': State, ghost a': Memory, r: Outcome)
    requires a in Refined(k, cap) && Tab(p.dir, -1) in k.tabs && 0 <= addr
    ensures !r.Panic? ==> a' in Refined(k', cap) && KeepsTabs(k, k') && Frames(k'.free) >= Frames(k.free) - 2
    ensures !r.Panic? ==> forall x {:trigger Get(k'.ptes, x)} ::
              x != At(p.dir, addr / PGSIZE) ==> Get(k'.ptes, x) == Get(k.ptes, x)
    ensures r.Fail? ==> Scarce(k) || Outside(p, addr)
    ensures r.Panic? ==> Stuck(k, cap, At(p.dir, addr / PGSIZE))
    ensures r.Ok? ==> Permits(Get(k'.ptes, At(p.dir, addr / PGSIZE)), true) && Get(k'.ptes, At(p.dir, addr / PGSIZE)).a
    ensures a' == var at := At(p.dir, addr / PGSIZE); if r.Ok? then a[at := WithByte(Look(a, at), addr, v)] else a
  {
    var at := At(p.dir, addr / PGSIZE);
    a' := a;
    k', r := Touch(k, cap, p, addr, true, a);
    if !r.Ok? {
      return;
    }
    FoundPage(k', cap, a, at);
    PresentFacts(k', cap, a, at);
    var f := k'.ptes[at].frame;
    StoredRefined(k', cap, a, at, WithByte(k'.mem[f], addr, v));
    a' := a[at := WithByte(Look(a, at), addr, v)];
    k' := k'.(mem := k'.mem[f := WithByte(k'.mem[f], addr, v)]);
  }

  // ----- What each event does to the correspondence -----

  lemma {:induction false} ShowsWrote(procs: map<int, Space>, a: Memory, m: Private, p: int, addr: int, v: Byte)
    requires Shows(procs, a, m) && p in procs
    requires forall q :: q in procs && q != p ==> procs[q].dir != procs[p].dir
    ensures var at := At(procs[p].dir, addr / PGSIZE);
            Apply(m, Wrote(p, addr, v)).Some? &&
            Shows(procs, a[at := WithByte(Look(a, at), addr, v)], Apply(m, Wrote(p, addr, v)).value)
  {
    var at, c := At(procs[p].dir, addr / PGSIZE), Cell(p, addr / PGSIZE);
    var a', mem' := a[at := WithByte(Look(a, at), addr, v)], m.mem[c := WithByte(Peek(m.mem, c), addr, v)];
    assert CellOk(procs, a, m.mem, p, addr / PGSIZE);
    forall q, page | q in procs
      ensures CellOk(procs, a', mem', q, page)
    {
      assert CellOk(procs, a, m.mem, q, page);
    }
  }

  /** Giving back pages is cutting them out of private memory. */
  lemma {:induction false} ShowsCutOut(procs: map<int, Space>, a: Memory, m: Private, p: int, lo: int, hi: int, sz: int)
    requires Shows(procs, a, m) && p in procs
    requires forall q :: q in procs && q != p ==> procs[q].dir != procs[p].dir
    ensures Shows(procs[p := procs[p].(sz := sz)], Cleared(a, procs[p].dir, lo, hi),
            Private(CutOut(m.mem, p, lo, hi), m.sz[p := sz]))
  {
    var procs', a', mem' := procs[p := procs[p].(sz := sz)], Cleared(a, procs[p].dir, lo, hi), CutOut(m.mem, p, lo, hi);
    forall q, page | q in procs'
      ensures CellOk(procs', a', mem', q, page)
    {
      assert CellOk(procs, a, m.mem, q, page);
      assert procs'[q].dir == procs[q].dir;
      assert Peek(mem', Cell(q, page)) == if q == p && lo <= page < hi then ZERO else Peek(m.mem, Cell(q, page));
    }
  }

  lemma {:induction false} ShowsGrown(procs: map<int, Space>, a: Memory, m: Private, p: int, n: int)
    requires Shows(procs, a, m) && p in procs && n >= 0
    ensures Apply(m, Grown(p, n)).Some? && Shows(procs[p := procs[p].(sz := procs[p].sz + n)], a,
            Apply(m, Grown(p, n)).value)
  {
    var procs' := procs[p := procs[p].(sz := procs[p].sz + n)];
    forall q, page | q in procs'
      ensures CellOk(procs', a, m.mem, q, page)
    {
      assert CellOk(procs, a, m.mem, q, page);
    }
  }

  lemma {:induction false} CopyCellsAt(mem: map<Cell, Page>, p: int, c: int, n: int, x: Cell)
    requires p != c
    ensures Peek(CopyCells(mem, p, c, n), x) == if x.pid == c && 1 <= x.page < n
            then Peek(mem, Cell(p, x.page)) else Peek(mem, x)
    decreases n
  {
    if n > 1 {
      CopyCellsAt(mem, p, c, n - 1, x);
      assert x.pid == c && x.page == n - 1 ==> x == Cell(c, n - 1);
    }
  }

  lemma {:induction false} ShowsForked(procs: map<int, Space>, a: Memory, m: Private, p: int, c: int, d: int)
    requires Shows(procs, a, m) && p in procs && c !in procs && procs[p].dir != d
    requires forall q :: q in procs ==> procs[q].dir != d
    requires forall page {:trigger At(d, page)} :: Look(a, At(d, page)) == ZERO
    ensures Apply(m, Forked(p, c)).Some?
    ensures Shows(procs[c := Space(d, procs[p].sz)], CopyPages(a, procs[p].dir, d, Pages(procs[p].sz)),
            Apply(m, Forked(p, c)).value)
  {
    var n := Pages(procs[p].sz);
    var procs', a' := procs[c := Space(d, procs[p].sz)], CopyPages(a, procs[p].dir, d, n);
    var mem1 := Without(m.mem, c);
    var mem' := CopyCells(mem1, p, c, n);
    forall q, page | q in procs'
      ensures CellOk(procs', a', mem', q, page)
    {
      CopyCellsAt(mem1, p, c, n, Cell(q, page));
      CopyPagesAt(a, procs[p].dir, d, n, At(procs'[q].dir, page));
      if q == c {
        assert CellOk(procs, a, m.mem, p, page);
        assert Peek(mem1, Cell(p, page)) == Peek(m.mem, Cell(p, page));
      } else {
        assert CellOk(procs, a, m.mem, q, page);
        assert Peek(mem1, Cell(q, page)) == Peek(m.mem, Cell(q, page));
      }
    }
  }

  lemma {:induction false} ShowsExited(procs: map<int, Space>, a: Memory, a': Memory, m: Private, p: int)
    requires Shows(procs, a, m) && p in procs
    requires forall q, page {:trigger At(procs[q].dir, page)} :: q in procs && q != p ==>
             Look(a', At(procs[q].dir, page)) == Look(a, At(procs[q].dir, page))
    ensures Shows(procs - {p}, a', Private(Without(m.mem, p), m.sz - {p}))
  {
    var procs', mem' := procs - {p}, Without(m.mem, p);
    forall q, page | q in procs'
      ensures CellOk(procs', a', mem', q, page)
    {
      assert CellOk(procs, a, m.mem, q, page);
      assert At(procs[q].dir, page) == At(procs'[q].dir, page);
    }
  }

  // ----- Zeroes beyond the end -----

  /** Nobody has anything but zeroes beyond the end. */
  ghost predicate Clean(m: Private)
  {
    forall p, page {:trigger Cell(p, page)} :: p in m.sz && page >= Pages(m.sz[p]) ==>
      Peek(m.mem, Cell(p, page)) == ZERO
  }

  /** The event is a store of something else than zero beyond the end. */
  predicate Spills(m: Private, e: Event)
  {
    e.Wrote? && e.p in m.sz && e.addr / PGSIZE >= Pages(m.sz[e.p]) && e.v != 0
  }

  /** A byte of a page of zeroes. */
  lemma {:induction false} ZeroByte(addr: int, v: Byte)
    ensures ByteAt(ZERO, addr) == 0 && ByteAt(WithByte(ZERO, addr, v), addr) == v
    ensures WithByte(ZERO, addr, v) == ZERO <==> v == 0
  {
    assert WithByte(ZERO, addr, v).bytes[addr % PGSIZE] == v;
    if v == 0 {
      assert ZERO.bytes[addr % PGSIZE := 0] == ZERO.bytes;
    }
  }

  /** Exactly a store of something else than zero beyond the end leaves something else there. */
  lemma {:induction false} CleanIff(m: Private, e: Event)
    requires Clean(m) && Apply(m, e).Some?
    ensures Clean(Apply(m, e).value) <==> !Spills(m, e)
  {
    var m' := Apply(m, e).value;
    if e.Wrote? {
      var c := Cell(e.p, e.addr / PGSIZE);
      ZeroByte(e.addr, e.v);
      assert Peek(m'.mem, c) == WithByte(Peek(m.mem, c), e.addr, e.v);
      assert c.page >= Pages(m.sz[e.p]) ==> Peek(m.mem, c) == ZERO;
    }
    forall p, page | p in m'.sz && page >= Pages(m'.sz[p]) && !Spills(m, e)
      ensures Peek(m'.mem, Cell(p, page)) == ZERO
    {
      if e.Forked? {
        CopyCellsAt(Without(m.mem, e.c), e.p, e.c, Pages(m.sz[e.p]), Cell(p, page));
        assert p != e.c ==> Peek(Without(m.mem, e.c), Cell(p, page)) == Peek(m.mem, Cell(p, page));
      } else if p in m.sz && page >= Pages(m.sz[p]) {
        assert Peek(m.mem, Cell(p, page)) == ZERO;
      } else {
        assert e.Shrunk? && e.p == p;
      }
    }
  }

  ghost predicate AlwaysClean(m: Private, es: seq<Event>)
    requires Replay(m, es).Some?
    decreases |es|
  {
    Clean(m) && (es == [] || AlwaysClean(Apply(m, es[0]).value, es[1..]))
  }

  ghost predicate NeverSpills(m: Private, es: seq<Event>)
    requires Replay(m, es).Some?
    decreases |es|
  {
    es == [] || (!Spills(m, es[0]) && NeverSpills(Apply(m, es[0]).value, es[1..]))
  }

  /** Through a whole run there is nothing but zeroes beyond the ends, if and only if nothing else is
      ever stored there. */
  lemma {:induction false} CleanRunIff(m: Private, es: seq<Event>)
    requires Clean(m) && Replay(m, es).Some?
    ensures AlwaysClean(m, es) <==> NeverSpills(m, es)
    decreases |es|
  {
    if es != [] {
      CleanIff(m, es[0]);
      if !Spills(m, es[0]) {
        CleanRunIff(Apply(m, es[0]).value, es[1..]);
      }
    }
  }

  // ----- Memory as it is meant -----

  /** Private memory in which what a process grows over is zero. */
  function Meant(m: Private, e: Event): Option<Private>
  {
    if e.Grown? && e.p in m.sz && e.n >= 0
    then Some(Private(CutOut(m.mem, e.p, Pages(m.sz[e.p]), Pages(m.sz[e.p] + e.n)), m.sz[e.p := m.sz[e.p] + e.n]))
    else Apply(m, e)
  }

  function ReplayMeant(m: Private, es: seq<Event>): Option<Private>
    decreases |es|
  {
    if es == [] then Some(m)
    else
      var m1 := Meant(m, es[0]);
      if m1.None? then None else ReplayMeant(m1.value, es[1..])
  }

  /** The same contents, whichever of the zero pages are in the map. */
  ghost predicate Alike(m: Private, m': Private)
  {
    m.sz == m'.sz && forall c {:trigger Peek(m'.mem, c)} :: Peek(m'.mem, c) == Peek(m.mem, c)
  }

  lemma {:induction false} MeantAlike(m: Private, m': Private, e: Event)
    requires Clean(m) && Alike(m, m') && Apply(m, e).Some?
    ensures Meant(m', e).Some? && Alike(Apply(m, e).value, Meant(m', e).value)
  {
    var n := Apply(m, e).value;
    assert Meant(m', e).Some? by {
      if e.Read? {
        assert Peek(m'.mem, Cell(e.p, e.addr / PGSIZE)) == Peek(m.mem, Cell(e.p, e.addr / PGSIZE));
      }
    }
    var n' := Meant(m', e).value;
    forall c
      ensures Peek(n'.mem, c) == Peek(n.mem, c)
    {
      assert Peek(m'.mem, c) == Peek(m.mem, c);
      if e.Forked? {
        CopyCellsAt(Without(m.mem, e.c), e.p, e.c, Pages(m.sz[e.p]), c);
        CopyCellsAt(Without(m'.mem, e.c), e.p, e.c, Pages(m.sz[e.p]), c);
        assert Peek(m'.mem, Cell(e.p, c.page)) == Peek(m.mem, Cell(e.p, c.page));
      } else if e.Grown? {
        assert c == Cell(c.pid, c.page);
      }
    }
  }

  /** A run that stores nothing but zeroes beyond the ends is a run on memory as it is meant: what a
      process grows over is zero, whatever was there before. */
  lemma {:induction false} MeantRun(m: Private, m': Private, es: seq<Event>)
    requires Clean(m) && Alike(m, m') && Replay(m, es).Some? && NeverSpills(m, es)
    ensures ReplayMeant(m', es).Some? && Alike(Replay(m, es).value, ReplayMeant(m', es).value)
    decreases |es|
  {
    if es != [] {
      CleanIff(m, es[0]);
      MeantAlike(m, m', es[0]);
      MeantRun(Apply(m, es[0]).value, Meant(m', es[0]).value, es[1..]);
    }
  }

  /** A store at the page that begins at the end, growth over it, and a load. */
  function EndRun(p: int, addr: int, v: Byte, n: int, x: Byte): seq<Event>
  {
    [Wrote(p, addr, v), Grown(p, n), Read(p, addr, x)]
  }

  /** The load finds the byte that was stored, where memory as it is meant has a zero: the two agree if
      and only if a zero was stored. */
  lemma {:induction false} EndPageExposed(m: Private, p: int, addr: int, v: Byte, n: int, x: Byte)
    requires Clean(m) && p in m.sz && addr / PGSIZE == Pages(m.sz[p]) && n >= PGSIZE
    ensures Replay(m, EndRun(p, addr, v, n, x)).Some? <==> x == v
    ensures ReplayMeant(m, EndRun(p, addr, v, n, x)).Some? <==> x == 0
    ensures (Replay(m, EndRun(p, addr, v, n, v)).Some? && ReplayMeant(m, EndRun(p, addr, v, n, v)).Some?) <==> v == 0
  {
    EndLoads(m, p, addr, v, n, x);
    EndLoads(m, p, addr, v, n, v);
  }

  lemma {:induction false} ReplayOne(m: Private, e: Event)
    ensures Replay(m, [e]) == Apply(m, e) && ReplayMeant(m, [e]) == Meant(m, e)
  {
    assert [e][1..] == [];
  }

  lemma {:induction false} EndLoads(m: Private, p: int, addr: int, v: Byte, n: int, x: Byte)
    requires Clean(m) && p in m.sz && addr / PGSIZE == Pages(m.sz[p]) && n >= PGSIZE
    ensures Replay(m, EndRun(p, addr, v, n, x)).Some? <==> x == v
    ensures ReplayMeant(m, EndRun(p, addr, v, n, x)).Some? <==> x == 0
  {
    var es, c := EndRun(p, addr, v, n, x), Cell(p, addr / PGSIZE);
    assert es[1..] == [Grown(p, n), Read(p, addr, x)] && es[1..][1..] == [Read(p, addr, x)] && es[1..][1..][1..] == [];
    assert Peek(m.mem, c) == ZERO;
    ZeroByte(addr, v);
    var m1 := Apply(m, Wrote(p, addr, v)).value;
    assert Peek(m1.mem, c) == WithByte(ZERO, addr, v);
    var m2, n2 := Apply(m1, Grown(p, n)).value, Meant(m1, Grown(p, n)).value;
    assert Pages(m1.sz[p] + n) > Pages(m1.sz[p]);
    assert Peek(n2.mem, c) == ZERO;
    assert Peek(m2.mem, c) == WithByte(ZERO, addr, v);
    assert Apply(m2, Read(p, addr, x)).Some? <==> x == v;
    ReplayOne(m2, Read(p, addr, x));
    ReplayOne(n2, Read(p, addr, x));
    assert Replay(m1, es[1..]) == Replay(m2, [Read(p, addr, x)]);
    assert Replay(m, es) == Replay(m1, es[1..]);
    assert ReplayMeant(m1, es[1..]) == ReplayMeant(n2, [Read(p, addr, x)]);
    assert ReplayMeant(m, es) == ReplayMeant(m1, es[1..]);
  }
}
