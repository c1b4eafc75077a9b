/** The log refines a disk with atomic transactions: a current contents that operations
    read and write, and a durable contents that only the header write replaces. */
module LogRefinement {
  import opened Common
  import opened LogMachine

  /** The transactional disk. `drafts` holds data a process has put into a locked buffer and
      not yet logged. */
  datatype Abs = Abs(durable: seq<Block>, current: seq<Block>, drafts: map<int, Block>)

  datatype Action = Skip | Draft(b: int, data: Block) | Publish(b: int) | Commit | Revert

  function Apply(a: Abs, act: Action): Abs
  {
    match act
    case Skip => a
    case Draft(b, data) => a.(drafts := a.drafts[b := data])
    case Publish(b) =>
      if b in a.drafts && 0 <= b < |a.current|
      then a.(current := a.current[b := a.drafts[b]], drafts := a.drafts - {b}) else a
    case Commit => a.(durable := a.current)
    case Revert => a.(current := a.durable, drafts := map[])
  }

  /** What a step does to the transactional disk. */
  function Effect(s: State, l: Label): Action
  {
    match l
    case Modify(_, b, data) => Draft(b, data)
    case LogWrite(_, b) => Publish(b)
    case Tick => if s.phase.WriteHead? then Commit else Skip
    case Crash => Revert
    case _ => Skip
  }

  // ----- The relation kept by every step -----

  /** `p` maps each entry of `e` from position `from` on to its position, so no such entry
      occurs twice. */
  ghost predicate Spans(e: seq<int>, from: int, p: map<int, int>)
  {
    && (forall i :: 0 <= from <= i < |e| ==> e[i] in p && p[e[i]] == i)
    && (forall b :: b in p ==> 0 <= from <= p[b] < |e| && e[p[b]] == b)
  }

  ghost function IndexMap(e: seq<int>, from: int): map<int, int>
    decreases |e| - from
  {
    if from >= |e| || from < 0 then map[] else IndexMap(e, from + 1)[e[from] := from]
  }

  lemma {:induction false} SpansUnique(e: seq<int>, from: int, p: map<int, int>)
    requires Spans(e, from, p) && 0 <= from <= |e|
    ensures p == IndexMap(e, from)
    decreases |e| - from
  {
    if from < |e| {
      var q := p - {e[from]};
      assert Spans(e, from + 1, q);
      SpansUnique(e, from + 1, q);
      assert p == q[e[from] := from];
    } else {
      assert forall b :: b !in p;
    }
  }

  ghost predicate LayoutOk(lay: Layout, disk: seq<Block>)
  {
    0 <= lay.start < lay.start + lay.size <= lay.total == |disk|
  }

  /** A list of home blocks that fits the log. */
  ghost predicate HeaderOk(lay: Layout, lh: seq<int>)
  {
    |lh| <= LOGSIZE && |lh| < lay.size && forall i :: 0 <= i < |lh| ==> Home(lay, lh[i])
  }

  /** The header block lists exactly the entries `e`. */
  ghost predicate Lists(h: Block, e: seq<int>)
  {
    |h.words| == WORDS && |e| <= LOGSIZE && h.words[0] == |e| && forall i :: 0 <= i < |e| ==> h.words[1 + i] == e[i]
  }

  lemma {:induction false} ListsEntries(h: Block)
    requires |h.words| == WORDS && 0 <= h.words[0] <= LOGSIZE
    ensures Lists(h, Entries(h))
  {
  }

  lemma {:induction false} ListsUnique(h: Block, e: seq<int>)
    requires Lists(h, e)
    ensures Entries(h) == e
  {
  }

  ghost predicate LogHolds(lay: Layout, disk: seq<Block>, contents: seq<Block>, e: seq<int>, t: int)
    requires LayoutOk(lay, disk) && |disk| == |contents| && HeaderOk(lay, e)
  {
    0 <= t <= |e| && forall i :: 0 <= i < t ==> disk[lay.start + 1 + i] == contents[e[i]]
  }

  /** Away from the blocks of `p`, the home blocks on disk have the given contents. */
  ghost predicate HomeHolds(lay: Layout, disk: seq<Block>, contents: seq<Block>, p: map<int, int>)
    requires LayoutOk(lay, disk) && |disk| == |contents|
  {
    forall b {:trigger Home(lay, b)} :: Home(lay, b) && b !in p ==> disk[b] == contents[b]
  }

  /** What of a state the relation looks at, whatever the phase: `listed` is what the on-disk
      header lists, and `places` where; `pending` are the entries of `lh`, from `from` on,
      that are not in place at home yet. */
  datatype View = View(lay: Layout, disk: seq<Block>, cache: map<int, Buf>,
                       lh: seq<int>, from: int, pending: map<int, int>,
                       listed: seq<int>, places: map<int, int>, ops: set<int>, up: bool)

  /** What recovery would make of the disk is the durable contents. */
  ghost predicate RecoverOk(v: View, durable: seq<Block>)
    requires LayoutOk(v.lay, v.disk) && |v.disk| == |durable|
  {
    && Lists(v.disk[v.lay.start], v.listed) && HeaderOk(v.lay, v.listed)
    && Spans(v.listed, 0, v.places)
    && LogHolds(v.lay, v.disk, durable, v.listed, |v.listed|)
    && HomeHolds(v.lay, v.disk, durable, v.places)
  }

  /** One cached copy agrees with the transactional disk. Recovery reads a listed block only to overwrite
      it. */
  ghost predicate BufOk(v: View, a: Abs, b: int, buf: Buf)
    requires |v.disk| == |a.current| == v.lay.total
  {
    && 0 <= b < |v.disk|
    && (buf.dirty ==> b in v.pending)
    && (buf.touched <==> b in a.drafts)
    && (!v.up ==> buf.user.None? && !buf.dirty)
    && if Home(v.lay, b) then
         if buf.touched then buf.data == a.drafts[b] && buf.user.Some? && buf.user.value in v.ops
         else v.up || b !in v.pending ==> buf.data == a.current[b]
       else buf.data == v.disk[b] && buf.user.None? && !buf.touched
  }

  /** A clean copy that nobody has the lock of. */
  predicate Copy(buf: Buf, d: Block)
  {
    buf.data == d && !buf.dirty && buf.user.None? && !buf.touched
  }

  ghost predicate CacheOk(v: View, a: Abs)
    requires |v.disk| == |a.current| == v.lay.total
  {
    && (forall b :: b in v.cache ==> BufOk(v, a, b, v.cache[b]))
    && (forall b :: b in a.drafts ==> b in v.cache)
  }

  ghost predicate Pinned(cache: map<int, Buf>, p: map<int, int>)
  {
    forall b :: b in p ==> b in cache && cache[b].dirty
  }

  ghost predicate Core(v: View, a: Abs)
  {
    && LayoutOk(v.lay, v.disk)
    && |v.disk| == |a.durable| == |a.current|
    && HeaderOk(v.lay, v.lh) && 0 <= v.from <= |v.lh|
    && Spans(v.lh, v.from, v.pending)
    && RecoverOk(v, a.durable)
    && CacheOk(v, a)
    && HomeHolds(v.lay, v.disk, a.current, v.pending)
    && (v.up ==> Pinned(v.cache, v.pending))
  }

  /** The transactional disks that agree with a view. A set and not a predicate: where a predicate is
      checked the verifier takes it apart into its conjuncts, while most proofs only pass membership on. */
  ghost function Models(v: View): iset<Abs>
  {
    iset a: Abs | Core(v, a)
  }

  function From(s: State): int
  {
    match s.phase
    case Install(_, t) => t
    case Erase(_) => |s.lh|
    case _ => 0
  }

  function Listed(s: State): seq<int>
  {
    match s.phase
    case Install(_, _) => s.lh
    case Erase(_) => s.lh
    case Down => if 0 <= s.lay.start < |s.disk| then Entries(s.disk[s.lay.start]) else []
    case _ => []
  }

  function Header(s: State): seq<int>
  {
    if s.phase.Down? then Listed(s) else s.lh
  }

  ghost function ViewOf(s: State): View
  {
    View(s.lay, s.disk, s.cache, Header(s), From(s), IndexMap(Header(s), From(s)), Listed(s), IndexMap(Listed(s), 0),
      s.ops.Keys, s.phase.Up())
  }

  ghost predicate Quiet(s: State, a: Abs)
  {
    s.ops == map[] && a.drafts == map[]
  }

  ghost predicate PhaseOk(s: State, a: Abs)
    requires a in Models(ViewOf(s))
  {
    match s.phase
    case Idle => s.ops == map[] ==> s.lh == []
    case WriteLog(t) => Quiet(s, a) && 0 <= t < |s.lh| && LogHolds(s.lay, s.disk, a.current, s.lh, t)
    case WriteHead => Quiet(s, a) && 0 < |s.lh| && LogHolds(s.lay, s.disk, a.current, s.lh, |s.lh|)
    case Install(_, t) => Quiet(s, a) && t < |s.lh| && a.durable == a.current
    case Erase(_) => Quiet(s, a) && a.durable == a.current
    case Finish => Quiet(s, a) && s.lh == []
    case Down => Quiet(s, a) && s.lh == [] && a.durable == a.current
  }

  /** The transactional disks that a state of the log stands for. */
  ghost function Refined(s: State): iset<Abs>
  {
    iset a: Abs | a in Models(ViewOf(s)) && PhaseOk(s, a)
  }

  // ----- What a change of one block does to the relation -----

  /** A step that changes one block, in the cache and possibly on disk, has to look at that
      block only. */
  lemma {:induction false} CacheUpdate(v: View, v': View, a: Abs, a': Abs, b: int)
    requires |v.disk| == |a.current| == v.lay.total && CacheOk(v, a)
    requires |v'.disk| == |a'.current| == v'.lay.total && v'.lay == v.lay && v'.up == v.up && v.ops <= v'.ops
    requires b in v'.cache && v'.cache - {b} == v.cache - {b}
    requires forall x :: 0 <= x < |v.disk| && x != b ==> v'.disk[x] == v.disk[x] && a'.current[x] == a.current[x]
    requires a'.drafts - {b} == a.drafts - {b}
    requires forall x :: x in v.pending ==> x in v'.pending || x == b
    requires BufOk(v', a', b, v'.cache[b])
    ensures CacheOk(v', a')
  {
    forall x | x in v'.cache && x != b
      ensures BufOk(v', a', x, v'.cache[x])
    {
      assert x in v'.cache - {b} && x in v.cache - {b};
      assert v'.cache[x] == (v'.cache - {b})[x] == (v.cache - {b})[x] == v.cache[x];
      assert BufOk(v, a, x, v.cache[x]);
      assert x in a.drafts <==> x in a.drafts - {b};
      assert x in a'.drafts <==> x in a'.drafts - {b};
      assert x in a.drafts ==> a.drafts[x] == (a.drafts - {b})[x] == a'.drafts[x];
    }
    forall x | x in a'.drafts
      ensures x in v'.cache
    {
      if x != b {
        assert x in a'.drafts - {b};
        assert x in v.cache;
        assert x in v.cache - {b};
      }
    }
  }

  /** One buffer changes, the disk does not. */
  lemma {:induction false} CoreBuf(v: View, a: Abs, a': Abs, b: int, buf: Buf)
    requires a in Models(v)
    requires a'.durable == a.durable && a'.current == a.current && a'.drafts - {b} == a.drafts - {b}
    requires BufOk(v, a', b, buf)
    requires b in v.pending && v.up ==> buf.dirty
    ensures a' in Models(v.(cache := v.cache[b := buf]))
  {
    var v' := v.(cache := v.cache[b := buf]);
    CacheUpdate(v, v', a, a', b);
    assert Core(v', a');
  }

  /** A block of the log is overwritten while the on-disk header lists nothing. */
  lemma {:induction false} CoreLogBlock(v: View, a: Abs, b: int, d: Block, buf: Buf)
    requires a in Models(v) && v.lay.start < b < v.lay.start + v.lay.size && v.listed == [] && Copy(buf, d)
    ensures a in Models(v.(disk := v.disk[b := d], cache := v.cache[b := buf]))
  {
    var v' := v.(disk := v.disk[b := d], cache := v.cache[b := buf]);
    assert !Home(v.lay, b);
    NoDraft(v, a, b);
    CacheUpdate(v, v', a, a, b);
    assert Core(v', a);
  }

  lemma {:induction false} NoDraft(v: View, a: Abs, b: int)
    requires a in Models(v) && 0 <= b < |v.disk| && !Home(v.lay, b)
    ensures b !in a.drafts && b !in v.pending
  {
    assert b in v.cache ==> BufOk(v, a, b, v.cache[b]);
    assert forall i :: v.from <= i < |v.lh| ==> Home(v.lay, v.lh[i]);
  }

  /** The header is overwritten: the relation follows when the new header lists something
      recovery may act on. */
  lemma {:induction false} CoreHeader(v: View, a: Abs, h: Block, listed: seq<int>, places: map<int, int>,
                                      durable: seq<Block>, buf: Buf)
    requires a in Models(v) && Lists(h, listed) && HeaderOk(v.lay, listed) && Spans(listed, 0, places)
    requires |durable| == |v.disk| && LogHolds(v.lay, v.disk, durable, listed, |listed|) && Copy(buf, h)
    requires HomeHolds(v.lay, v.disk, durable, places)
    ensures a.(durable := durable)
            in Models(v.(disk := v.disk[v.lay.start := h], cache := v.cache[v.lay.start := buf],
                         listed := listed, places := places))
  {
    var b := v.lay.start;
    var v' := v.(disk := v.disk[b := h], cache := v.cache[b := buf], listed := listed, places := places);
    var a' := a.(durable := durable);
    assert !Home(v.lay, b);
    NoDraft(v, a, b);
    CacheUpdate(v, v', a, a', b);
    assert Core(v', a');
  }

  /** One entry of a committed transaction is copied home. */
  lemma {:induction false} CoreHome(v: View, a: Abs, b: int, d: Block, buf: Buf)
    requires a in Models(v) && v.listed == v.lh && v.from < |v.lh| && a.durable == a.current && a.drafts == map[]
    requires b == v.lh[v.from] && 0 <= b < |v.disk| && 0 <= v.lay.start + 1 + v.from < |v.disk|
    requires d == v.disk[v.lay.start + 1 + v.from] && Copy(buf, d)
    ensures a in Models(v.(disk := v.disk[b := d], cache := v.cache[b := buf],
                           from := v.from + 1, pending := v.pending - {b}))
  {
    assert Home(v.lay, b);
    assert d == a.current[b];
    var v' := v.(disk := v.disk[b := d], cache := v.cache[b := buf], from := v.from + 1, pending := v.pending - {b});
    CacheUpdate(v, v', a, a, b);
    assert forall x :: 0 <= x < |v.disk| && !Home(v.lay, x) ==> v'.disk[x] == v.disk[x];
    assert Core(v', a);
  }

  /** A cached block of the log is a copy of the disk. */
  lemma {:induction false} LogBlockCached(s: State, a: Abs, b: int)
    requires a in Models(ViewOf(s)) && b in s.cache && !Home(s.lay, b)
    ensures 0 <= b < |s.disk| && Copy(s.cache[b], s.disk[b])
  {
    assert BufOk(ViewOf(s), a, b, s.cache[b]);
    NoDraft(ViewOf(s), a, b);
  }

  /** Who waits for a buffer does not matter. */
  lemma {:induction false} CoreWaits(v: View, a: Abs, b: int, w: set<int>)
    requires a in Models(v) && b in v.cache
    ensures a in Models(v.(cache := v.cache[b := v.cache[b].(waits := w)]))
  {
    assert BufOk(v, a, b, v.cache[b]);
    CoreBuf(v, a, a, b, v.cache[b].(waits := w));
  }

  // ----- Each step keeps the relation -----

  lemma {:induction false} BeginRefines(s: State, a: Abs, p: int)
    requires a in Refined(s) && BeginStep(s, p).Next?
    ensures a in Refined(BeginStep(s, p).s)
  {
    var v, v' := ViewOf(s), ViewOf(BeginStep(s, p).s);
    assert v' == v.(ops := v'.ops) && v.ops <= v'.ops;
    forall b | b in v.cache
      ensures BufOk(v', a, b, v.cache[b])
    {
      assert BufOk(v, a, b, v.cache[b]);
    }
    assert Core(v', a);
  }

  lemma {:induction false} GetRefines(s: State, a: Abs, p: int, b: int)
    requires a in Refined(s) && GetStep(s, p, b).Next?
    ensures a in Refined(GetStep(s, p, b).s)
  {
    var v := ViewOf(s);
    if b in s.cache {
      CoreWaits(v, a, b, s.cache[b].waits + {p});
    } else {
      MissRefines(v, a, b, {p});
    }
    var buf := GetStep(s, p, b).s.cache[b];
    assert ViewOf(GetStep(s, p, b).s) == v.(cache := v.cache[b := buf]);
  }

  /** A block that is not cached is read from disk. */
  lemma {:induction false} MissRefines(v: View, a: Abs, b: int, w: set<int>)
    requires a in Models(v) && 0 <= b < |v.disk| && b !in v.cache
    ensures a in Models(v.(cache := v.cache[b := Buf(v.disk[b], false, None, false, w)]))
  {
    assert v.up ==> b !in v.pending;
    assert b !in a.drafts;
    CoreBuf(v, a, a, b, Buf(v.disk[b], false, None, false, w));
  }

  lemma {:induction false} BreadRefines(s: State, a: Abs, p: int, b: int)
    requires a in Refined(s) && BreadStep(s, p, b).Next?
    ensures a in Refined(BreadStep(s, p, b).s)
    ensures 0 <= b < |a.current| && BreadStep(s, p, b).s.cache[b].data == a.current[b]
  {
    var v := ViewOf(s);
    assert BufOk(v, a, b, s.cache[b]);
    var buf := BreadStep(s, p, b).s.cache[b];
    CoreBuf(v, a, a, b, buf);
    assert ViewOf(BreadStep(s, p, b).s) == v.(cache := v.cache[b := buf]);
  }

  lemma {:induction false} ModifyRefines(s: State, a: Abs, p: int, b: int, data: Block)
    requires a in Refined(s) && ModifyStep(s, p, b, data).Next?
    ensures Apply(a, Draft(b, data)) in Refined(ModifyStep(s, p, b, data).s)
  {
    var v := ViewOf(s);
    assert BufOk(v, a, b, s.cache[b]);
    var buf := ModifyStep(s, p, b, data).s.cache[b];
    CoreBuf(v, a, Apply(a, Draft(b, data)), b, buf);
    assert ViewOf(ModifyStep(s, p, b, data).s) == v.(cache := v.cache[b := buf]);
  }

  lemma {:induction false} HeaderGrows(lay: Layout, lh: seq<int>, p: map<int, int>, b: int)
    requires HeaderOk(lay, lh) && Spans(lh, 0, p) && Home(lay, b) && |lh| < LOGSIZE && |lh| < lay.size - 1
    ensures b in lh <==> b in p
    ensures b !in lh ==> HeaderOk(lay, lh + [b]) && Spans(lh + [b], 0, p[b := |lh|])
  {
    if b in lh {
      var i :| 0 <= i < |lh| && lh[i] == b;
      assert b in p;
    }
  }

  /** log_write makes the draft the current contents and pins it. */
  lemma {:induction false} CoreLogWrite(v: View, a: Abs, b: int, lh: seq<int>, p: map<int, int>)
    requires a in Models(v) && v.up && v.from == 0 && b in v.cache && v.cache[b].user.Some?
    requires HeaderOk(v.lay, lh) && Spans(lh, 0, p) && p.Keys == v.pending.Keys + {b}
    ensures Apply(a, Publish(b)) in Models(v.(lh := lh, pending := p,
            cache := v.cache[b := v.cache[b].(dirty := true, touched := false)]))
  {
    var v' := v.(lh := lh, pending := p, cache := v.cache[b := v.cache[b].(dirty := true, touched := false)]);
    var a' := Apply(a, Publish(b));
    assert BufOk(v, a, b, v.cache[b]);
    CacheUpdate(v, v', a, a', b);
    assert HomeHolds(v'.lay, v'.disk, a'.current, p);
    assert Pinned(v'.cache, p);
    assert Core(v', a');
  }

  lemma {:induction false} LogWriteIs(s: State, p: int, b: int)
    requires s.phase.Idle? && LogWriteStep(s, p, b).Next?
    ensures var s' := LogWriteStep(s, p, b).s;
            && p in s'.ops && s'.phase.Idle?
            && s'.lh == (if b in s.lh then s.lh else s.lh + [b]) && |s.lh| < LOGSIZE && |s.lh| < s.lay.size - 1
            && b in s.cache && s.cache[b].user.Some?
            && ViewOf(s') == ViewOf(s).(lh := s'.lh, pending := IndexMap(s'.lh, 0),
               cache := s.cache[b := s.cache[b].(dirty := true, touched := false)])
  {
    assert LogWriteStep(s, p, b).s.ops.Keys == s.ops.Keys;
  }

  lemma {:induction false} LogWriteRefines(s: State, a: Abs, p: int, b: int)
    requires a in Refined(s) && LogWriteStep(s, p, b).Next?
    ensures Apply(a, Publish(b)) in Refined(LogWriteStep(s, p, b).s)
  {
    assert s.phase.Idle?;
    LogWriteIs(s, p, b);
    var v := ViewOf(s);
    assert BufOk(v, a, b, s.cache[b]);
    HeaderGrows(s.lay, s.lh, v.pending, b);
    var lh' := LogWriteStep(s, p, b).s.lh;
    var q := if b in s.lh then v.pending else v.pending[b := |s.lh|];
    SpansUnique(lh', 0, q);
    CoreLogWrite(v, a, b, lh', q);
  }

  lemma {:induction false} BrelseRefines(s: State, a: Abs, p: int, b: int)
    requires a in Refined(s) && BrelseStep(s, p, b).Next?
    ensures a in Refined(BrelseStep(s, p, b).s)
  {
    var v := ViewOf(s);
    assert BufOk(v, a, b, s.cache[b]);
    var buf := s.cache[b].(user := None);
    CoreBuf(v, a, a, b, buf);
    assert ViewOf(BrelseStep(s, p, b).s) == v.(cache := v.cache[b := buf]);
  }

  lemma {:induction false} EvictRefines(s: State, a: Abs, b: int)
    requires a in Refined(s) && EvictStep(s, b).Next?
    ensures a in Refined(EvictStep(s, b).s)
  {
    var v := ViewOf(s);
    var v' := v.(cache := v.cache - {b});
    assert BufOk(v, a, b, s.cache[b]);
    assert CacheOk(v', a) by {
      forall x | x in v'.cache
        ensures BufOk(v', a, x, v'.cache[x])
      {
        assert BufOk(v, a, x, v.cache[x]);
      }
    }
    assert Core(v', a);
    assert ViewOf(EvictStep(s, b).s) == v';
  }

  lemma {:induction false} EndRefines(s: State, a: Abs, p: int)
    requires a in Refined(s) && EndStep(s, p).Next?
    ensures a in Refined(EndStep(s, p).s)
  {
    var v := ViewOf(s);
    var s' := EndStep(s, p).s;
    var v' := v.(ops := s'.ops.Keys);
    forall b | b in s.cache
      ensures BufOk(v', a, b, s.cache[b])
    {
      assert BufOk(v, a, b, s.cache[b]);
    }
    assert Core(v', a);
    assert ViewOf(s') == v';
    forall b | b in a.drafts
      ensures s.cache[b].user.value in s'.ops
    {
      assert BufOk(v', a, b, s.cache[b]);
    }
    assert s'.ops == map[] ==> a.drafts == map[];
  }

  lemma {:induction false} CoreCrash(v: View, a: Abs)
    requires a in Models(v)
    ensures 0 <= v.lay.start < |v.disk| && Entries(v.disk[v.lay.start]) == v.listed
    ensures Apply(a, Revert) in Models(View(v.lay, v.disk, map[], v.listed, 0, v.places, v.listed, v.places, {}, false))
  {
    ListsUnique(v.disk[v.lay.start], v.listed);
    assert Core(View(v.lay, v.disk, map[], v.listed, 0, v.places, v.listed, v.places, {}, false), Apply(a, Revert));
  }

  lemma {:induction false} CrashIs(s: State, e: seq<int>)
    requires 0 <= s.lay.start < |s.disk| && Entries(s.disk[s.lay.start]) == e
    ensures ViewOf(CrashStep(s)) == View(s.lay, s.disk, map[], e, 0, IndexMap(e, 0), e, IndexMap(e, 0), {}, false)
  {
  }

  lemma {:induction false} CrashRefines(s: State, a: Abs)
    requires a in Refined(s)
    ensures Apply(a, Revert) in Refined(CrashStep(s))
  {
    CoreCrash(ViewOf(s), a);
    CrashIs(s, Listed(s));
  }

  lemma {:induction false} WriteLogIs(s: State, t: int)
    requires s.phase == WriteLog(t) && WriteLogTick(s, t).Next?
    ensures var l, h := s.lay.start + 1 + t, s.lh[t];
            && l in s.cache && h in s.cache && 0 <= l < |s.disk| && (l != h ==> s.cache[l].user.None?)
            && ViewOf(WriteLogTick(s, t).s)
               == var d := s.cache[h].data;
                  var c := s.cache[l := Written(s.cache[l], d)];
                  ViewOf(s).(disk := s.disk[l := d], cache := c[h := Left(c[h])])
  {
  }

  lemma {:induction false} HomeBlockPinned(v: View, a: Abs, i: int)
    requires a in Models(v) && v.up && v.from <= i < |v.lh| && a.drafts == map[]
    ensures 0 <= v.lh[i] < |v.disk| && v.lh[i] in v.cache && v.cache[v.lh[i]].data == a.current[v.lh[i]]
  {
    assert Home(v.lay, v.lh[i]) && v.lh[i] in v.pending;
    assert BufOk(v, a, v.lh[i], v.cache[v.lh[i]]);
  }

  lemma {:induction false} LogCopied(v: View, a: Abs, t: int)
    requires a in Models(v) && 0 <= t < |v.lh| && LogHolds(v.lay, v.disk, a.current, v.lh, t)
    ensures v.lay.start + 1 + t < |v.disk| && 0 <= v.lh[t] < |v.disk|
    ensures LogHolds(v.lay, v.disk[v.lay.start + 1 + t := a.current[v.lh[t]]], a.current, v.lh, t + 1)
  {
    assert Home(v.lay, v.lh[t]);
  }

  lemma {:induction false} WriteLogRefines(s: State, a: Abs)
    requires a in Refined(s) && s.phase.WriteLog? && WriteLogTick(s, s.phase.tail).Next?
    ensures a in Refined(WriteLogTick(s, s.phase.tail).s)
  {
    var t := s.phase.tail;
    var l, h, v := s.lay.start + 1 + t, s.lh[t], ViewOf(s);
    HomeBlockPinned(v, a, t);
    WriteLogIs(s, t);
    assert !Home(s.lay, l);
    LogBlockCached(s, a, l);
    var d := a.current[h];
    CoreLogBlock(v, a, l, d, Written(s.cache[l], d));
    var v1 := v.(disk := v.disk[l := d], cache := v.cache[l := Written(s.cache[l], d)]);
    CoreWaits(v1, a, h, v1.cache[h].waits - {LOGGER});
    LogCopied(v, a, t);
  }

  lemma {:induction false} WriteHeadIs(s: State)
    requires s.phase.WriteHead? && WriteHeadTick(s).Next?
    ensures 0 <= s.lay.start < |s.disk| && |WriteHeadTick(s).s.disk| == |s.disk| && s.lay.start in s.cache
    ensures Lists(WriteHeadTick(s).s.disk[s.lay.start], s.lh)
    ensures var h := WriteHeadTick(s).s.disk[s.lay.start];
            ViewOf(WriteHeadTick(s).s)
            == ViewOf(s).(disk := s.disk[s.lay.start := h],
                          cache := s.cache[s.lay.start := Written(s.cache[s.lay.start], h)],
                          listed := s.lh, places := IndexMap(s.lh, 0))
  {
    ListsEntries(WriteHeadTick(s).s.disk[s.lay.start]);
  }

  /** The commit point: recovery now yields the current contents. */
  lemma {:induction false} WriteHeadRefines(s: State, a: Abs)
    requires a in Refined(s) && s.phase.WriteHead? && WriteHeadTick(s).Next?
    ensures Apply(a, Commit) in Refined(WriteHeadTick(s).s)
  {
    WriteHeadIs(s);
    assert !Home(s.lay, s.lay.start);
    LogBlockCached(s, a, s.lay.start);
    var h := WriteHeadTick(s).s.disk[s.lay.start];
    CoreHeader(ViewOf(s), a, h, s.lh, IndexMap(s.lh, 0), a.current, Written(s.cache[s.lay.start], h));
  }

  function AfterCopy(s: State): Phase
    requires s.phase.Install?
  {
    if s.phase.tail + 1 < |s.lh| then Install(s.phase.recovering, s.phase.tail + 1) else Erase(s.phase.recovering)
  }

  lemma {:induction false} CopyHomeIs(s: State)
    requires s.phase.Install? && CopyHome(s, s.phase.tail, AfterCopy(s)).Next?
    ensures var l, h := s.lay.start + 1 + s.phase.tail, s.lh[s.phase.tail];
            && l in s.cache && h in s.cache && 0 <= h < |s.disk| && s.cache[h].user.None?
            && ViewOf(CopyHome(s, s.phase.tail, AfterCopy(s)).s)
               == var d := s.cache[l].data;
                  var c := s.cache[h := Written(s.cache[h], d)];
                  ViewOf(s).(disk := s.disk[h := d], cache := c[l := Left(c[l])],
                             from := From(s) + 1, pending := IndexMap(s.lh, From(s) + 1))
  {
  }

  lemma {:induction false} CopyHomeView(v: View, a: Abs, b: int, d: Block, buf: Buf)
    requires a in Models(v) && v.listed == v.lh && v.from < |v.lh| && a.durable == a.current && a.drafts == map[]
    requires b == v.lh[v.from] && 0 <= b < |v.disk| && 0 <= v.lay.start + 1 + v.from < |v.disk|
    requires d == v.disk[v.lay.start + 1 + v.from] && Copy(buf, d)
    ensures a in Models(v.(disk := v.disk[b := d], cache := v.cache[b := buf],
                           from := v.from + 1, pending := IndexMap(v.lh, v.from + 1)))
  {
    CoreHome(v, a, b, d, buf);
    SpansUnique(v.lh, v.from + 1, v.pending - {b});
  }

  lemma {:induction false} CopyHomeRefines(s: State, a: Abs)
    requires a in Refined(s) && s.phase.Install? && CopyHome(s, s.phase.tail, AfterCopy(s)).Next?
    ensures a in Refined(CopyHome(s, s.phase.tail, AfterCopy(s)).s)
  {
    var l, h, v := s.lay.start + 1 + s.phase.tail, s.lh[s.phase.tail], ViewOf(s);
    CopyHomeIs(s);
    assert !Home(s.lay, l);
    LogBlockCached(s, a, l);
    assert BufOk(v, a, h, s.cache[h]);
    var d := s.cache[l].data;
    var buf := Written(s.cache[h], d);
    CopyHomeView(v, a, h, d, buf);
    var v1 := v.(disk := v.disk[h := d], cache := v.cache[h := buf], from := v.from + 1,
                 pending := IndexMap(v.lh, v.from + 1));
    CoreWaits(v1, a, l, v1.cache[l].waits - {LOGGER});
  }

  lemma {:induction false} CoreErase(v: View, a: Abs, h: Block, buf: Buf)
    requires a in Models(v) && v.from == |v.lh| && Lists(h, []) && a.durable == a.current && a.drafts == map[]
    requires Copy(buf, h)
    ensures a in Models(View(v.lay, v.disk[v.lay.start := h], v.cache[v.lay.start := buf], [],
                             0, map[], [], map[], v.ops, true))
  {
    assert forall b :: b !in v.pending;
    CoreHeader(v, a, h, [], map[], a.durable, buf);
    var mid := v.(disk := v.disk[v.lay.start := h], cache := v.cache[v.lay.start := buf], listed := [],
      places := map[]);
    var v' := mid.(lh := [], from := 0, pending := map[], up := true);
    forall b | b in mid.cache
      ensures BufOk(v', a, b, mid.cache[b])
    {
      assert BufOk(mid, a, b, mid.cache[b]);
    }
    assert Core(v', a);
  }

  lemma {:induction false} EraseIs(s: State, next: Phase)
    requires s.phase.Erase? && EraseHead(s, next).Next? && (next.Idle? || next.Finish?)
    ensures 0 <= s.lay.start < |s.disk| && |EraseHead(s, next).s.disk| == |s.disk| && s.lay.start in s.cache
    ensures var h := EraseHead(s, next).s.disk[s.lay.start];
            && Lists(h, [])
            && ViewOf(EraseHead(s, next).s)
               == View(s.lay, s.disk[s.lay.start := h], s.cache[s.lay.start := Written(s.cache[s.lay.start], h)], [], 0,
                       map[], [], map[], s.ops.Keys, true)
  {
  }

  lemma {:induction false} EraseHeadRefines(s: State, a: Abs, next: Phase)
    requires a in Refined(s) && s.phase.Erase? && EraseHead(s, next).Next? && (next.Idle? || next.Finish?)
    ensures a in Refined(EraseHead(s, next).s)
  {
    EraseIs(s, next);
    assert !Home(s.lay, s.lay.start);
    LogBlockCached(s, a, s.lay.start);
    var h := EraseHead(s, next).s.disk[s.lay.start];
    CoreErase(ViewOf(s), a, h, Written(s.cache[s.lay.start], h));
  }

  lemma {:induction false} ReadHeadRefines(s: State, a: Abs)
    requires a in Refined(s) && s.phase.Down? && ReadHeadTick(s).Next?
    ensures a in Refined(ReadHeadTick(s).s)
  {
    var l, v := s.lay.start, ViewOf(s);
    assert !Home(s.lay, l);
    LogBlockCached(s, a, l);
    CoreWaits(v, a, l, s.cache[l].waits - {LOGGER});
    assert ViewOf(ReadHeadTick(s).s) == v.(cache := v.cache[l := Left(v.cache[l])]);
  }

  lemma {:induction false} FinishRefines(s: State, a: Abs)
    requires a in Refined(s) && s.phase.Finish?
    ensures a in Refined(s.(phase := Idle, sleepers := {}))
  {
    assert ViewOf(s.(phase := Idle, sleepers := {})) == ViewOf(s);
  }

  lemma {:induction false} TickCases(s: State)
    ensures s.phase.WriteLog? ==> TickStep(s) == WriteLogTick(s, s.phase.tail)
    ensures s.phase.WriteHead? ==> TickStep(s) == WriteHeadTick(s)
    ensures s.phase.Install? ==> TickStep(s) == CopyHome(s, s.phase.tail, AfterCopy(s))
    ensures s.phase.Erase? ==> TickStep(s) == EraseHead(s, if s.phase.recovering then Idle else Finish)
    ensures s.phase.Finish? ==> TickStep(s) == Next(s.(phase := Idle, sleepers := {}))
    ensures s.phase.Down? ==> TickStep(s) == ReadHeadTick(s)
    ensures s.phase.Idle? ==> TickStep(s) == Blocked
    ensures Effect(s, Tick) == if s.phase.WriteHead? then Commit else Skip
  {
  }

  lemma {:induction false} TickRefines(s: State, a: Abs)
    requires a in Refined(s) && TickStep(s).Next?
    ensures Apply(a, Effect(s, Tick)) in Refined(TickStep(s).s)
  {
    TickCases(s);
    match s.phase {
      case WriteLog(_) => WriteLogRefines(s, a);
      case WriteHead => WriteHeadRefines(s, a);
      case Install(_, _) => CopyHomeRefines(s, a);
      case Erase(r) => EraseHeadRefines(s, a, if r then Idle else Finish);
      case Finish => FinishRefines(s, a);
      case Down => ReadHeadRefines(s, a);
    }
  }

  /** Every step of every process, of the commit and of recovery, and every power failure,
      is a step of the transactional disk. */
  lemma {:induction false} StepRefines(s: State, a: Abs, l: Label)
    requires a in Refined(s) && Step(s, l).Next?
    ensures Apply(a, Effect(s, l)) in Refined(Step(s, l).s)
  {
    match l
    case Begin(p) => BeginRefines(s, a, p);
    case Get(p, b) => GetRefines(s, a, p, b);
    case Bread(p, b) => BreadRefines(s, a, p, b);
    case Modify(p, b, data) => ModifyRefines(s, a, p, b, data);
    case LogWrite(p, b) => LogWriteRefines(s, a, p, b);
    case Brelse(p, b) => BrelseRefines(s, a, p, b);
    case Load(b) => GetRefines(s, a, LOGGER, b);
    case Evict(b) => EvictRefines(s, a, b);
    case End(p) => EndRefines(s, a, p);
    case Tick => TickRefines(s, a);
    case Crash => CrashRefines(s, a);
  }

  // ----- Whole runs -----

  /** A run goes on where another ends. */
  lemma {:induction false} RunAppend(s: State, ls: seq<Label>, ms: seq<Label>)
    requires Run(s, ls).Next?
    ensures Run(s, ls + ms) == Run(Run(s, ls).s, ms)
    decreases |ls|
  {
    if ls == [] {
      assert ls + ms == ms;
    } else {
      assert (ls + ms)[0] == ls[0] && (ls + ms)[1..] == ls[1..] + ms;
      RunAppend(Step(s, ls[0]).s, ls[1..], ms);
    }
  }

  lemma {:induction false} RunOne(s: State, l: Label)
    ensures Run(s, [l]) == Step(s, l)
  {
    assert [l][1..] == [];
    if Step(s, l).Next? {
      RunNone(Step(s, l).s);
    }
  }

  lemma {:induction false} RunNone(s: State)
    ensures Run(s, []) == Next(s)
  {
  }

  /** The transactional disk after a run. */
  function AbsRun(s: State, a: Abs, ls: seq<Label>): Abs
    requires Run(s, ls).Next?
    decreases |ls|
  {
    if ls == [] then a
    else AbsRun(Step(s, ls[0]).s, Apply(a, Effect(s, ls[0])), ls[1..])
  }

  lemma {:induction false} RunRefines(s: State, a: Abs, ls: seq<Label>)
    requires a in Refined(s) && Run(s, ls).Next?
    ensures AbsRun(s, a, ls) in Refined(Run(s, ls).s)
    decreases |ls|
  {
    if ls != [] {
      StepRefines(s, a, ls[0]);
      RunRefines(Step(s, ls[0]).s, Apply(a, Effect(s, ls[0])), ls[1..]);
    }
  }
}
