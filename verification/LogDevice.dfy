/** log.c as the code it is: a log object over a disk and a cache, with the loops of
    write_log, install_trans, read_head, write_head and log_write.

    Each turn of a loop that writes a block is one step of the step machine, so the theorems
    about interleavings and power failures speak about this code. Each whole method says, in
    addition, outright what ends up on disk. */
module LogDevice {
  import opened Common
  import opened LogMachine
  import opened LogRefinement

  function Clean(d: Block): Buf
  {
    Buf(d, false, None, false, {})
  }

  /** The state after write_log copied entry `t`. */
  function LogTurn(s: State, t: int): State
    requires 0 <= t < |s.lh| && 0 <= s.lay.start + 1 + t < |s.disk|
    requires s.lay.start + 1 + t in s.cache && s.lh[t] in s.cache
  {
    var l, h := s.lay.start + 1 + t, s.lh[t];
    s.(disk := s.disk[l := s.cache[h].data],
       cache := s.cache[l := Written(s.cache[l], s.cache[h].data)][h := Left(s.cache[h])],
       phase := if t + 1 < |s.lh| then WriteLog(t + 1) else WriteHead)
  }

  /** The state after install_trans copied entry `t`. */
  function HomeTurn(s: State, t: int, r: bool): State
    requires 0 <= t < |s.lh| && 0 <= s.lh[t] < |s.disk|
    requires s.lay.start + 1 + t in s.cache && s.lh[t] in s.cache
  {
    var l, h := s.lay.start + 1 + t, s.lh[t];
    s.(disk := s.disk[h := s.cache[l].data],
       cache := s.cache[h := Written(s.cache[h], s.cache[l].data)][l := Left(s.cache[l])],
       phase := if t + 1 < |s.lh| then Install(r, t + 1) else Erase(r))
  }

  /** A turn of the loop of write_log, after its two reads, is one step of the machine. */
  lemma {:induction false} LogTurnIsTick(s: State, t: int)
    requires s.phase == WriteLog(t) && 0 <= t < |s.lh| && LayoutOk(s.lay, s.disk) && t + 1 < s.lay.size
    requires Home(s.lay, s.lh[t]) && Ready(s, s.lay.start + 1 + t) && Ready(s, s.lh[t])
    ensures Step(s, Tick) == Next(LogTurn(s, t))
  {
    assert TickStep(s) == WriteLogTick(s, t);
  }

  /** A turn of the loop of install_trans, after its two reads, is one step of the machine. */
  lemma {:induction false} HomeTurnIsTick(s: State, t: int, r: bool)
    requires s.phase == Install(r, t) && 0 <= t < |s.lh| && LayoutOk(s.lay, s.disk) && t + 1 < s.lay.size
    requires Home(s.lay, s.lh[t]) && Ready(s, s.lay.start + 1 + t) && Ready(s, s.lh[t])
    ensures Step(s, Tick) == Next(HomeTurn(s, t, r))
  {
    assert TickStep(s) == CopyHome(s, t, if t + 1 < |s.lh| then Install(r, t + 1) else Erase(r));
  }

  /** An operation is the last one if and only if none is left without it. */
  lemma {:induction false} LastOp(ops: map<int, int>, p: int)
    requires p in ops
    ensures |ops| == 1 <==> ops - {p} == map[]
  {
    assert |(ops - {p}).Keys| == |ops.Keys - {p}|;
    assert (ops - {p}).Keys == ops.Keys - {p};
    assert |ops.Keys| == |ops|;
    if |ops| == 1 {
      assert (ops - {p}).Keys == {};
    }
  }

  /** The state that a run ends in, if no label of it is blocked or panics. */
  ghost function Reached(s: State, ls: seq<Label>): iset<State>
  {
    iset s': State | Run(s, ls) == Next(s')
  }

  lemma {:induction false} ReachedNone(s: State)
    ensures s in Reached(s, [])
  {
    RunNone(s);
  }

  lemma {:induction false} ReachedMore(s: State, ls: seq<Label>, s1: State, ms: seq<Label>, s2: State)
    requires s1 in Reached(s, ls) && s2 in Reached(s1, ms)
    ensures s2 in Reached(s, ls + ms)
  {
    RunAppend(s, ls, ms);
  }

  /** What the step of end_op does when no commit runs. */
  lemma {:induction false} EndIs(s: State, p: int)
    requires s.phase.Idle? && p in s.ops && !HoldsTouched(s, p)
    ensures var s' := s.(ops := s.ops - {p});
            (if s'.ops == map[] then s'.(phase := if |s.lh| > 0 then WriteLog(0) else Finish)
              else s'.(sleepers := {})) in Reached(s, [End(p)])
  {
    RunOne(s, End(p));
  }

  /** A run after the end of the last operation that panics. */
  lemma {:induction false} EndThen(s: State, p: int, s1: State, ms: seq<Label>)
    requires s1 in Reached(s, [End(p)])
    ensures Run(s1, ms).Panic? ==> Run(s, [End(p)] + ms).Panic?
  {
    RunAppend(s, [End(p)], ms);
  }

  lemma {:induction false} FinishIs(s: State)
    requires s.phase.Finish?
    ensures s.(phase := Idle, sleepers := {}) in Reached(s, [Tick])
  {
    RunOne(s, Tick);
  }

  /** The header block was read and can be written. */
  ghost predicate HeadReady(s: State)
  {
    LayoutOk(s.lay, s.disk) && Ready(s, s.lay.start) && |s.cache[s.lay.start].data.words| == WORDS && |s.lh| <= LOGSIZE
  }

  /** write_head as the commit point, after its read, is one step of the machine. */
  lemma {:induction false} HeadTurnIsTick(s: State)
    requires s.phase.WriteHead? && HeadReady(s)
    ensures var h := WithEntries(s.cache[s.lay.start].data, s.lh);
            Step(s, Tick) == Next(Put(s, s.lay.start, h).(phase := Install(false, 0)))
  {
  }

  /** `log.lh.n = 0; write_head()`, after its read, is one step of the machine. */
  lemma {:induction false} EraseTurnIsTick(s: State, r: bool)
    requires s.phase == Erase(r) && HeadReady(s)
    ensures var h := WithEntries(s.cache[s.lay.start].data, []);
            Step(s, Tick) == Next(Put(s, s.lay.start, h).(lh := [], phase := if r then Idle else Finish))
  {
  }

  /** read_head, after its read, is one step of the machine. */
  lemma {:induction false} ReadTurnIsTick(s: State)
    requires s.phase.Down? && HeadReady(s)
    ensures var h := s.cache[s.lay.start].data;
            Step(s, Tick)
            == if !GoodHeader(s.lay, h) then Panic
               else Next(Leave(s, s.lay.start).(lh := Entries(h),
                         phase := if |Entries(h)| > 0 then Install(true, 0) else Erase(true)))
  {
  }

  /** The disk after the first `t` turns of install_trans. */
  function Installed(disk: seq<Block>, e: seq<int>, start: int, t: int): (r: seq<Block>)
    ensures |r| == |disk|
  {
    if 0 < t <= |e| && 0 <= start + t < |disk| && 0 <= e[t - 1] < |disk|
    then Installed(disk, e, start, t - 1)[e[t - 1] := disk[start + t]] else disk
  }

  // ----- What the reads and writes of the commit do to the cache -----

  /** Outside a turn of the commit: no more blocks than buffers, and those of the log are clean copies
      that nobody uses. */
  ghost predicate Tidy(lay: Layout, c: map<int, Buf>, disk: seq<Block>)
  {
    && |c| <= NBUF
    && (forall b {:trigger c[b]} :: b in c ==> LOGGER !in c[b].waits)
    && (forall b {:trigger Home(lay, b)} :: b in c && !Home(lay, b) ==> 0 <= b < |disk| && c[b] == Clean(disk[b]))
  }

  /** What bget of a process does: at most one recyclable buffer gets another block. */
  ghost predicate Fetched(c: map<int, Buf>, c': map<int, Buf>, disk: seq<Block>, b: int, p: int)
  {
    && 0 <= b < |disk| && b in c' && |c'| <= NBUF
    && (b in c ==> c' == c[b := c[b].(waits := c[b].waits + {p})])
    && (b !in c ==> c'[b] == Buf(disk[b], false, None, false, {p}))
    && (forall x {:trigger x in c'} :: x in c' && x != b ==> x in c && c'[x] == c[x])
    && (forall x {:trigger x in c} :: x in c && !Recyclable(c[x]) ==> x in c')
  }

  /** Home blocks in use stay cached, and no other ones appear. */
  ghost predicate Kept(lay: Layout, c: map<int, Buf>, c': map<int, Buf>)
  {
    forall b {:trigger Home(lay, b)} :: Home(lay, b) ==>
      && (b in c' ==> b in c && c'[b] == c[b])
      && (b in c && !Recyclable(c[b]) ==> b in c')
  }

  lemma {:induction false} KeptMore(lay: Layout, c: map<int, Buf>, c1: map<int, Buf>, c2: map<int, Buf>)
    requires Kept(lay, c, c1) && Kept(lay, c1, c2)
    ensures Kept(lay, c, c2)
  {
  }

  /** The cache after a turn of write_log. */
  lemma {:induction false} LogTurnCache(lay: Layout, c: map<int, Buf>, c1: map<int, Buf>, c2: map<int, Buf>,
                                        disk: seq<Block>, l: int, h: int)
    requires Tidy(lay, c, disk) && Fetched(c, c1, disk, l, LOGGER) && Fetched(c1, c2, disk, h, LOGGER) &&
             !Home(lay, l) && Home(lay, h)
    requires h in c && c[h].dirty
    ensures h in c2 && l in c2 && c2[h].data == c[h].data && c2[h].user == c[h].user && c2[l].user.None?
    ensures var c3 := c2[l := Written(c2[l], c[h].data)][h := Left(c2[h])];
            Tidy(lay, c3, disk[l := c[h].data]) && l in c3 && Kept(lay, c, c3)
  {
    var d := c[h].data;
    var c3 := c2[l := Written(c2[l], d)][h := Left(c2[h])];
    assert h in c1 && c1[h] == c[h];
    assert c2 == c1[h := c1[h].(waits := c1[h].waits + {LOGGER})];
    assert l in c ==> c[l] == Clean(disk[l]);
    assert c1[l] == Clean(disk[l]).(waits := {LOGGER});
    assert Written(c2[l], d) == Clean(d);
    assert Left(c2[h]) == c[h] by {
      assert c[h].waits + {LOGGER} - {LOGGER} == c[h].waits;
    }
    assert c3.Keys == c1.Keys;
    assert |c3| == |c3.Keys| && |c1| == |c1.Keys|;
    assert c3 == c1[l := Clean(d)];
  }

  /** The buffers after a turn of install_trans. */
  lemma {:induction false} HomeTurnBufs(lay: Layout, c: map<int, Buf>, c1: map<int, Buf>, c2: map<int, Buf>,
                                        disk: seq<Block>, l: int, h: int)
    requires Tidy(lay, c, disk) && Fetched(c, c1, disk, l, LOGGER) && Fetched(c1, c2, disk, h, LOGGER) &&
             !Home(lay, l) && Home(lay, h)
    requires h in c ==> c[h].user.None?
    ensures l in c2 && c2[l] == Clean(disk[l]).(waits := {LOGGER}) && Left(c2[l]) == Clean(disk[l])
    ensures h in c2 && c2[h].user.None? && LOGGER !in Written(c2[h], disk[l]).waits
    ensures h in c ==> Written(c2[h], disk[l]).waits == c[h].waits
    ensures h !in c ==> Written(c2[h], disk[l]) == Clean(disk[l])
    ensures |c2| <= NBUF && forall b {:trigger b in c2} :: b in c2 && b != l && b != h ==> b in c && c2[b] == c[b]
    ensures forall b {:trigger b in c} :: b in c && b != h && !Recyclable(c[b]) ==> b in c2
  {
    assert l in c ==> c[l] == Clean(disk[l]);
    assert c1[l] == Clean(disk[l]).(waits := {LOGGER});
    assert h in c1 ==> h in c && c1[h] == c[h];
    forall b | b in c2 && b != l && b != h
      ensures b in c && c2[b] == c[b]
    {
      assert b in c1;
    }
    forall b | b in c && b != h && !Recyclable(c[b])
      ensures b in c2
    {
      assert b in c1 && c1[b].dirty == c[b].dirty && c1[b].user == c[b].user && c[b].waits <= c1[b].waits;
    }
  }

  /** The cache after a turn of install_trans. */
  lemma {:induction false} HomeTurnCache(lay: Layout, c: map<int, Buf>, c2: map<int, Buf>, disk: seq<Block>, l: int,
                                         h: int, lbuf: Buf, hbuf: Buf)
    requires Tidy(lay, c, disk) && !Home(lay, l) && Home(lay, h) && 0 <= l < |disk| && 0 <= h < |disk|
    requires lbuf == Clean(disk[l]) && LOGGER !in hbuf.waits && l in c2 && h in c2
    requires |c2| <= NBUF && forall b {:trigger b in c2} :: b in c2 && b != l && b != h ==> b in c && c2[b] == c[b]
    requires forall b {:trigger b in c} :: b in c && b != h && !Recyclable(c[b]) ==> b in c2
    ensures var c3 := c2[h := hbuf][l := lbuf];
            && Tidy(lay, c3, disk[h := disk[l]]) && l in c3 && Kept(lay, c - {h}, c3 - {h})
            && (AllFree(c) && Recyclable(hbuf) ==> AllFree(c3))
  {
    var c3 := c2[h := hbuf][l := lbuf];
    assert c3.Keys == c2.Keys;
    assert |c3| == |c3.Keys| && |c2| == |c2.Keys|;
    forall b | b in c3 && b != l && b != h
      ensures b in c && c3[b] == c[b]
    {
      assert b in c2;
    }
    forall b | Home(lay, b) && b in c - {h} && !Recyclable((c - {h})[b])
      ensures b in c3 - {h}
    {
      assert b in c && b in c2;
    }
  }

  /** The two together. */
  lemma {:induction false} HomeTurnCaches(lay: Layout, c: map<int, Buf>, c1: map<int, Buf>, c2: map<int, Buf>,
                                          disk: seq<Block>, l: int, h: int)
    requires Tidy(lay, c, disk) && Fetched(c, c1, disk, l, LOGGER) && Fetched(c1, c2, disk, h, LOGGER) &&
             !Home(lay, l) && Home(lay, h)
    requires h in c ==> c[h].user.None?
    ensures l in c2 && c2[l] == Clean(disk[l]).(waits := {LOGGER}) && h in c2 && c2[h].user.None?
    ensures LOGGER in c2[h].waits
    ensures var c3 := c2[h := Written(c2[h], disk[l])][l := Left(c2[l])];
            && Tidy(lay, c3, disk[h := disk[l]]) && l in c3 && Kept(lay, c - {h}, c3 - {h})
            && (AllFree(c) ==> AllFree(c3))
  {
    HomeTurnBufs(lay, c, c1, c2, disk, l, h);
    var hbuf := Written(c2[h], disk[l]);
    HomeTurnCache(lay, c, c2, disk, l, h, Clean(disk[l]), hbuf);
    assert AllFree(c) && h in c ==> c[h].waits == {};
  }

  /** The cache after the header block was read and written or left. */
  lemma {:induction false} HeadCache(lay: Layout, c: map<int, Buf>, c1: map<int, Buf>, disk: seq<Block>, d: Block)
    requires Tidy(lay, c, disk) && Fetched(c, c1, disk, lay.start, LOGGER) && !Home(lay, lay.start)
    ensures c1[lay.start] == Clean(disk[lay.start]).(waits := {LOGGER})
    ensures var c2 := c1[lay.start := Written(c1[lay.start], d)];
            Tidy(lay, c2, disk[lay.start := d]) && Kept(lay, c, c2)
    ensures Written(c1[lay.start], disk[lay.start]) == Left(c1[lay.start])
  {
    var l := lay.start;
    assert l in c ==> c[l] == Clean(disk[l]);
    assert c1[l] == Clean(disk[l]).(waits := {LOGGER});
    assert Written(c1[l], d) == Clean(d);
    var c2 := c1[l := Clean(d)];
    assert c2.Keys == c1.Keys;
    assert |c2| == |c2.Keys| && |c1| == |c1.Keys|;
  }

  /** install_trans leaves the log alone. */
  lemma {:induction false} InstalledKeepsLog(lay: Layout, disk: seq<Block>, e: seq<int>, t: int)
    requires LayoutOk(lay, disk) && HeaderOk(lay, e) && 0 <= t <= |e|
    ensures forall b :: lay.start <= b < lay.start + lay.size ==> Installed(disk, e, lay.start, t)[b] == disk[b]
    decreases t
  {
    if t > 0 {
      InstalledKeepsLog(lay, disk, e, t - 1);
      assert Home(lay, e[t - 1]);
    }
  }

  /** install_trans puts into every listed block what the log holds for it, and changes no
      other block. */
  lemma {:induction false} InstalledIs(lay: Layout, disk: seq<Block>, e: seq<int>, t: int, b: int)
    requires LayoutOk(lay, disk) && HeaderOk(lay, e) && 0 <= t <= |e| && 0 <= b < |disk|
    requires forall i, j :: 0 <= i < j < |e| ==> e[i] != e[j]
    ensures forall i :: 0 <= i < t && e[i] == b ==> Installed(disk, e, lay.start, t)[b] == disk[lay.start + 1 + i]
    ensures (forall i :: 0 <= i < t ==> e[i] != b) ==> Installed(disk, e, lay.start, t)[b] == disk[b]
    decreases t
  {
    if t > 0 {
      InstalledIs(lay, disk, e, t - 1, b);
      assert Home(lay, e[t - 1]);
    }
  }

  lemma {:induction false} IndexMapSpans(e: seq<int>, from: int)
    requires 0 <= from <= |e| && forall i, j :: 0 <= i < j < |e| ==> e[i] != e[j]
    ensures Spans(e, from, IndexMap(e, from))
    decreases |e| - from
  {
    if from < |e| {
      IndexMapSpans(e, from + 1);
    }
  }

  /** The log and the home blocks agree with what recovery will make of the disk. */
  lemma {:induction false} RecoveredParts(lay: Layout, disk: seq<Block>, e: seq<int>)
    requires LayoutOk(lay, disk) && HeaderOk(lay, e) && forall i, j :: 0 <= i < j < |e| ==> e[i] != e[j]
    ensures Spans(e, 0, IndexMap(e, 0)) && LogHolds(lay, disk, Installed(disk, e, lay.start, |e|), e, |e|)
    ensures HomeHolds(lay, disk, Installed(disk, e, lay.start, |e|), IndexMap(e, 0))
  {
    var d := Installed(disk, e, lay.start, |e|);
    IndexMapSpans(e, 0);
    forall i | 0 <= i < |e|
      ensures disk[lay.start + 1 + i] == d[e[i]]
    {
      InstalledIs(lay, disk, e, |e|, e[i]);
    }
    forall b | Home(lay, b) && b !in IndexMap(e, 0)
      ensures disk[b] == d[b]
    {
      InstalledIs(lay, disk, e, |e|, b);
    }
  }

  /** A machine that starts from any disk with a good header stands for the disk that recovery will
      make of it, so the theorems about runs apply from the start. */
  lemma {:induction false} BootRefined(s: State)
    requires s.phase.Down? && s.cache == map[] && s.lh == [] && s.ops == map[] && LayoutOk(s.lay, s.disk) &&
             GoodHeader(s.lay, s.disk[s.lay.start])
    requires var e := Entries(s.disk[s.lay.start]);
             (forall i :: 0 <= i < |e| ==> Home(s.lay, e[i])) && (forall i, j :: 0 <= i < j < |e| ==> e[i] != e[j])
    ensures var e := Entries(s.disk[s.lay.start]);
            var d := Installed(s.disk, e, s.lay.start, |e|);
            Abs(d, d, map[]) in Refined(s)
  {
    var e := Entries(s.disk[s.lay.start]);
    var d := Installed(s.disk, e, s.lay.start, |e|);
    ListsEntries(s.disk[s.lay.start]);
    RecoveredParts(s.lay, s.disk, e);
    var v := View(s.lay, s.disk, map[], e, 0, IndexMap(e, 0), e, IndexMap(e, 0), {}, false);
    assert ViewOf(s) == v;
    BootCore(v, d);
  }

  lemma {:induction false} BootCore(v: View, d: seq<Block>)
    requires LayoutOk(v.lay, v.disk) && |d| == |v.disk| && v.cache == map[] && v.from == 0 && !v.up &&
             v.listed == v.lh && v.places == v.pending
    requires HeaderOk(v.lay, v.lh) && Spans(v.lh, 0, v.pending) && Lists(v.disk[v.lay.start], v.lh)
    requires LogHolds(v.lay, v.disk, d, v.lh, |v.lh|) && HomeHolds(v.lay, v.disk, d, v.pending)
    ensures Abs(d, d, map[]) in Models(v)
  {
  }

  /** The cached data of the listed blocks. */
  function Data(cache: map<int, Buf>, e: seq<int>): (r: seq<Block>)
    requires forall i :: 0 <= i < |e| ==> e[i] in cache
    ensures |r| == |e| && forall i :: 0 <= i < |e| ==> r[i] == cache[e[i]].data
  {
    seq(|e|, i requires 0 <= i < |e| => cache[e[i]].data)
  }

  /** The disk after write_log: `ds` lies after the header. */
  function Logged(disk: seq<Block>, start: int, ds: seq<Block>): (r: seq<Block>)
    requires 0 <= start && start + |ds| < |disk|
    ensures |r| == |disk|
  {
    disk[..start + 1] + ds + disk[start + 1 + |ds|..]
  }

  lemma {:induction false} LoggedNext(disk: seq<Block>, start: int, ds: seq<Block>, t: int)
    requires 0 <= start && start + |ds| < |disk| && 0 <= t < |ds|
    ensures Logged(disk, start, ds[..t + 1]) == Logged(disk, start, ds[..t])[start + 1 + t := ds[t]]
  {
  }

  /** write_log leaves the header alone. */
  lemma {:induction false} LoggedKeeps(disk: seq<Block>, start: int, ds: seq<Block>, t: int)
    requires 0 <= start && start + |ds| < |disk| && 0 <= t <= |ds|
    ensures Logged(disk, start, ds[..t])[start] == disk[start]
  {
  }

  /** The disk after write_head. */
  function Headed(disk: seq<Block>, start: int, e: seq<int>): (r: seq<Block>)
    requires 0 <= start < |disk| && |disk[start].words| == WORDS && |e| <= LOGSIZE
    ensures |r| == |disk|
  {
    disk[start := WithEntries(disk[start], e)]
  }

  /** The words of a header block. */
  lemma {:induction false} WordsAre(h: Block, e: seq<int>, w: seq<int>)
    requires |h.words| == |w| == WORDS && |e| <= LOGSIZE && w[0] == |e|
    requires (forall k :: 0 <= k < |e| ==> w[1 + k] == e[k]) && (forall k :: |e| < k < WORDS ==> w[k] == h.words[k])
    ensures Block(w) == WithEntries(h, e)
  {
    var r := WithEntries(h, e).words;
    forall k | 0 <= k < WORDS
      ensures w[k] == r[k]
    {
      if 0 < k <= |e| {
        assert w[1 + (k - 1)] == e[k - 1];
      }
    }
  }

  /** The disk after commit: log, header, installation, empty header. */
  function CommitDisk(disk: seq<Block>, start: int, e: seq<int>, ds: seq<Block>): (r: seq<Block>)
    requires 0 <= start && start + |ds| < |disk| && |disk[start].words| == WORDS && |e| <= LOGSIZE
    ensures |r| == |disk|
  {
    var headed := Headed(Logged(disk, start, ds), start, e);
    var installed := Installed(headed, e, start, |e|);
    if |installed[start].words| == WORDS then Headed(installed, start, []) else installed
  }

  /** A commit puts the new data of every listed block in place, leaves every other home block
      alone, and leaves a header that lists nothing. */
  lemma {:induction false} CommitDiskIs(lay: Layout, disk: seq<Block>, e: seq<int>, ds: seq<Block>, b: int)
    requires LayoutOk(lay, disk) && HeaderOk(lay, e) && |ds| == |e| && |disk[lay.start].words| == WORDS
    requires forall i, j :: 0 <= i < j < |e| ==> e[i] != e[j]
    requires Home(lay, b)
    ensures forall i :: 0 <= i < |e| && e[i] == b ==> CommitDisk(disk, lay.start, e, ds)[b] == ds[i]
    ensures (forall i :: 0 <= i < |e| ==> e[i] != b) ==> CommitDisk(disk, lay.start, e, ds)[b] == disk[b]
    ensures Entries(CommitDisk(disk, lay.start, e, ds)[lay.start]) == []
  {
    var headed := Headed(Logged(disk, lay.start, ds), lay.start, e);
    HeadedIs(lay, disk, e, ds);
    InstalledIs(lay, headed, e, |e|, b);
    InstalledIs(lay, headed, e, |e|, lay.start);
    assert forall i :: 0 <= i < |e| ==> Home(lay, e[i]);
  }

  /** The commit of one block. */
  lemma {:induction false} CommitOne(lay: Layout, disk: seq<Block>, b: int, data: Block)
    requires LayoutOk(lay, disk) && lay.size > 1 && |disk[lay.start].words| == WORDS && Home(lay, b)
    ensures var d := CommitDisk(disk, lay.start, [b], [data]);
            && d[b] == data && Entries(d[lay.start]) == []
            && (forall x {:trigger Home(lay, x)} :: Home(lay, x) && x != b ==> d[x] == disk[x])
  {
    CommitDiskIs(lay, disk, [b], [data], b);
    assert [b][0] == b;
    forall x | Home(lay, x) && x != b
      ensures CommitDisk(disk, lay.start, [b], [data])[x] == disk[x]
    {
      CommitDiskIs(lay, disk, [b], [data], x);
    }
  }

  /** The disk at the commit point: the data behind the header, the header, and the old home blocks. */
  lemma {:induction false} HeadedIs(lay: Layout, disk: seq<Block>, e: seq<int>, ds: seq<Block>)
    requires LayoutOk(lay, disk) && HeaderOk(lay, e) && |ds| == |e| && |disk[lay.start].words| == WORDS
    ensures Logged(disk, lay.start, ds)[lay.start] == disk[lay.start]
    ensures var headed := Headed(Logged(disk, lay.start, ds), lay.start, e);
            && |headed[lay.start].words| == WORDS
            && (forall i :: 0 <= i < |e| ==> headed[lay.start + 1 + i] == ds[i])
            && (forall b :: Home(lay, b) ==> headed[b] == disk[b])
  {
  }

  // ----- One read -----

  /** The step in which a process, or the commit, calls bget. */
  function Fetch(p: int, b: int): Label
  {
    if p == LOGGER then Load(b) else Get(p, b)
  }

  predicate MayFetch(s: State, p: int, b: int)
  {
    if p == LOGGER then Wants(s, b) else MayGet(s, p, b)
  }

  /** The block is cached, or a buffer has no block yet. */
  lemma {:induction false} GetFetches(s: State, p: int, b: int)
    requires 0 <= b < |s.disk| && MayFetch(s, p, b) && |s.cache| <= NBUF && (b in s.cache || |s.cache| < NBUF)
    ensures GetStep(s, p, b).Next? && GetStep(s, p, b).s in Reached(s, [Fetch(p, b)])
    ensures Fetched(s.cache, GetStep(s, p, b).s.cache, s.disk, b, p)
  {
    RunOne(s, Fetch(p, b));
    if b in s.cache {
      assert GetStep(s, p, b).s.cache.Keys == s.cache.Keys;
      assert |GetStep(s, p, b).s.cache| == |s.cache.Keys| == |s.cache|;
    }
  }

  /** Another block is recycled first. */
  lemma {:induction false} EvictFetches(s: State, v: int, p: int, b: int)
    requires 0 <= b < |s.disk| && MayFetch(s, p, b) && |s.cache| <= NBUF
    requires b !in s.cache && v in s.cache && Recyclable(s.cache[v])
    ensures var s' := s.(cache := (s.cache - {v})[b := Buf(s.disk[b], false, None, false, {p})]);
            s' in Reached(s, [Evict(v), Fetch(p, b)]) && Fetched(s.cache, s'.cache, s.disk, b, p)
  {
    var s1 := s.(cache := s.cache - {v});
    assert Step(s, Evict(v)) == Next(s1);
    assert s1.cache.Keys == s.cache.Keys - {v};
    assert |s1.cache| == |s1.cache.Keys| == |s.cache.Keys| - 1 == |s.cache| - 1;
    assert Needs(s1) == Needs(s);
    assert forall x :: Taken(s1, x) <==> Taken(s, x);
    GetFetches(s1, p, b);
    RunOne(s, Evict(v));
    ReachedMore(s, [Evict(v)], s1, [Fetch(p, b)], GetStep(s1, p, b).s);
    assert [Evict(v)] + [Fetch(p, b)] == [Evict(v), Fetch(p, b)];
  }

  /** A cached block of the log can be recycled, so bget finds a buffer. */
  lemma {:induction false} LogBlockFrees(s: State, b: int, x: int)
    requires Tidy(s.lay, s.cache, s.disk) && x in s.cache && !Home(s.lay, x)
    ensures !Starved(s, b)
  {
    assert s.cache[x] == Clean(s.disk[x]);
    assert Recyclable(s.cache[x]);
  }

  /** With one buffer in use there is another one. */
  lemma {:induction false} OtherFrees(s: State, b: int, x: int)
    requires forall y :: y in s.cache && y != x ==> Recyclable(s.cache[y])
    ensures !Starved(s, b)
  {
    if |s.cache| >= NBUF {
      var rest := s.cache.Keys - {x};
      assert s.cache.Keys <= rest + {x};
      assert |s.cache.Keys| == |s.cache|;
      assert |rest| >= |s.cache.Keys| - 1;
      var y :| y in rest;
      assert Recyclable(s.cache[y]);
    }
  }

  /** The first read of a turn of write_log or install_trans. */
  lemma {:induction false} FirstWanted(s: State, t: int)
    requires 0 <= t < |s.lh| && (s.phase == WriteLog(t) || (s.phase.Install? && s.phase.tail == t))
    requires Tidy(s.lay, s.cache, s.disk)
    ensures Wants(s, s.lay.start + 1 + t)
  {
  }

  /** The second read finds its block cached or, in recovery, a buffer. */
  lemma {:induction false} SecondWanted(s: State, s1: State, t: int)
    requires 0 <= t < |s.lh| && (s.phase == WriteLog(t) || (s.phase.Install? && s.phase.tail == t))
    requires s1 == s.(cache := s1.cache) && Tidy(s.lay, s.cache, s.disk) && s.lh[t] != s.lay.start + 1 + t
    requires Fetched(s.cache, s1.cache, s.disk, s.lay.start + 1 + t, LOGGER)
    requires AllFree(s.cache) || (s.lh[t] in s.cache && s.cache[s.lh[t]].dirty)
    ensures Wants(s1, s.lh[t]) && !Starved(s1, s.lh[t]) && |s1.cache| <= NBUF
  {
    var l, h := s.lay.start + 1 + t, s.lh[t];
    assert Needs(s1) == [l, h];
    assert l in s.cache ==> LOGGER in s1.cache[l].waits;
    assert h in s1.cache ==> s1.cache[h] == s.cache[h];
    if AllFree(s.cache) {
      forall y | y in s1.cache && y != l
        ensures Recyclable(s1.cache[y])
      {
        assert y in s.cache && s1.cache[y] == s.cache[y];
      }
      OtherFrees(s1, h, l);
    }
  }

  /** A turn of write_log, after its two reads. */
  lemma {:induction false} LogTurnReads(s: State, s1: State, s2: State, t: int)
    requires 0 <= t < |s.lh| && LayoutOk(s.lay, s.disk) && t + 1 < s.lay.size
    requires s1 == s.(cache := s1.cache) && s2 == s.(cache := s2.cache)
    requires Tidy(s.lay, s.cache, s.disk) && Home(s.lay, s.lh[t])
    requires s.lh[t] in s.cache && s.cache[s.lh[t]].dirty && s.cache[s.lh[t]].user.None?
    requires Fetched(s.cache, s1.cache, s.disk, s.lay.start + 1 + t, LOGGER) &&
             Fetched(s1.cache, s2.cache, s.disk, s.lh[t], LOGGER)
    ensures Ready(s2, s.lay.start + 1 + t) && Ready(s2, s.lh[t])
    ensures var s3 := LogTurn(s2, t);
            && Tidy(s.lay, s3.cache, s3.disk) && s.lay.start + 1 + t in s3.cache && Kept(s.lay, s.cache, s3.cache)
            && s3.disk == s.disk[s.lay.start + 1 + t := s.cache[s.lh[t]].data]
  {
    var l, h := s.lay.start + 1 + t, s.lh[t];
    assert !Home(s.lay, l);
    LogTurnCache(s.lay, s.cache, s1.cache, s2.cache, s.disk, l, h);
    assert LOGGER in s1.cache[l].waits && l in s2.cache && s2.cache[l] == s1.cache[l];
  }

  lemma {:induction false} LogTurnRun(s: State, s2: State, t: int, ls: seq<Label>)
    requires s2.phase == WriteLog(t) && 0 <= t < |s2.lh| && LayoutOk(s2.lay, s2.disk) && t + 1 < s2.lay.size
    requires Home(s2.lay, s2.lh[t]) && Ready(s2, s2.lay.start + 1 + t) && Ready(s2, s2.lh[t])
    requires s2 in Reached(s, ls)
    ensures LogTurn(s2, t) in Reached(s, ls + [Tick])
  {
    LogTurnIsTick(s2, t);
    ThenTick(s, ls, s2, LogTurn(s2, t));
  }

  /** A turn of install_trans, after its two reads. */
  lemma {:induction false} HomeTurnReads(s: State, s1: State, s2: State, t: int, r: bool)
    requires 0 <= t < |s.lh| && LayoutOk(s.lay, s.disk) && t + 1 < s.lay.size
    requires s1 == s.(cache := s1.cache) && s2 == s.(cache := s2.cache)
    requires Tidy(s.lay, s.cache, s.disk) && forall i :: 0 <= i < |s.lh| ==> Home(s.lay, s.lh[i])
    requires Installable(s.cache, s.lh, t, r)
    requires Fetched(s.cache, s1.cache, s.disk, s.lay.start + 1 + t, LOGGER) &&
             Fetched(s1.cache, s2.cache, s.disk, s.lh[t], LOGGER)
    ensures Ready(s2, s.lay.start + 1 + t) && Ready(s2, s.lh[t])
    ensures var s3 := HomeTurn(s2, t, r);
            && Tidy(s.lay, s3.cache, s3.disk) && s.lay.start + 1 + t in s3.cache &&
               Installable(s3.cache, s.lh, t + 1, r)
            && s3.disk == s.disk[s.lh[t] := s.disk[s.lay.start + 1 + t]]
  {
    var l, h := s.lay.start + 1 + t, s.lh[t];
    assert !Home(s.lay, l);
    assert h in s.cache ==> s.cache[h].user.None?;
    HomeTurnCaches(s.lay, s.cache, s1.cache, s2.cache, s.disk, l, h);
    InstallableNext(s.lay, s.cache, HomeTurn(s2, t, r).cache, s.lh, t, r);
  }

  lemma {:induction false} HomeTurnRun(s: State, s2: State, t: int, r: bool, ls: seq<Label>)
    requires s2.phase == Install(r, t) && 0 <= t < |s2.lh| && LayoutOk(s2.lay, s2.disk) && t + 1 < s2.lay.size
    requires Home(s2.lay, s2.lh[t]) && Ready(s2, s2.lay.start + 1 + t) && Ready(s2, s2.lh[t])
    requires s2 in Reached(s, ls)
    ensures HomeTurn(s2, t, r) in Reached(s, ls + [Tick])
  {
    HomeTurnIsTick(s2, t, r);
    ThenTick(s, ls, s2, HomeTurn(s2, t, r));
  }

  /** Reads and a step of the machine. */
  lemma {:induction false} ThenTick(s0: State, ls: seq<Label>, s1: State, s2: State)
    requires s1 in Reached(s0, ls) && Step(s1, Tick) == Next(s2)
    ensures s2 in Reached(s0, ls + [Tick])
  {
    RunOne(s1, Tick);
    ReachedMore(s0, ls, s1, [Tick], s2);
  }

  /** The read of the header block. */
  lemma {:induction false} HeadWanted(s: State)
    requires s.phase.WriteHead? || s.phase.Erase? || s.phase.Down?
    requires Tidy(s.lay, s.cache, s.disk)
    ensures Wants(s, s.lay.start)
  {
  }

  /** The header write of a commit, after its read. */
  lemma {:induction false} CommitHeadRun(s: State, s1: State, ls: seq<Label>)
    requires s.phase.WriteHead? && LayoutOk(s.lay, s.disk) && |s.disk[s.lay.start].words| == WORDS && |s.lh| <= LOGSIZE
    requires s1 == s.(cache := s1.cache) && Tidy(s.lay, s.cache, s.disk) &&
             Fetched(s.cache, s1.cache, s.disk, s.lay.start, LOGGER)
    requires s1 in Reached(s, ls)
    ensures s.lay.start in s1.cache && s1.cache[s.lay.start].data == s.disk[s.lay.start]
    ensures var s2 := Put(s1, s.lay.start, WithEntries(s.disk[s.lay.start], s.lh)).(phase := Install(false, 0));
            && s2 in Reached(s, ls + [Tick]) && Tidy(s.lay, s2.cache, s2.disk) && Kept(s.lay, s.cache, s2.cache)
  {
    var h := WithEntries(s.disk[s.lay.start], s.lh);
    assert !Home(s.lay, s.lay.start);
    HeadCache(s.lay, s.cache, s1.cache, s.disk, h);
    HeadTurnIsTick(s1);
    ThenTick(s, ls, s1, Put(s1, s.lay.start, h).(phase := Install(false, 0)));
  }

  /** The emptied header, after its read. */
  lemma {:induction false} EraseHeadRun(s: State, s1: State, r: bool, ls: seq<Label>)
    requires s.phase == Erase(r) && LayoutOk(s.lay, s.disk) && |s.disk[s.lay.start].words| == WORDS && |s.lh| <= LOGSIZE
    requires s1 == s.(cache := s1.cache) && Tidy(s.lay, s.cache, s.disk) &&
             Fetched(s.cache, s1.cache, s.disk, s.lay.start, LOGGER)
    requires s1 in Reached(s, ls)
    ensures s.lay.start in s1.cache && s1.cache[s.lay.start].data == s.disk[s.lay.start]
    ensures var s2 := Put(s1, s.lay.start, WithEntries(s.disk[s.lay.start], []))
                        .(lh := [], phase := if r then Idle else Finish);
            && s2 in Reached(s, ls + [Tick]) && Tidy(s.lay, s2.cache, s2.disk) && Kept(s.lay, s.cache, s2.cache)
            && (AllFree(s.cache) ==> AllFree(s2.cache))
  {
    var h := WithEntries(s.disk[s.lay.start], []);
    assert !Home(s.lay, s.lay.start);
    HeadCache(s.lay, s.cache, s1.cache, s.disk, h);
    EraseTurnIsTick(s1, r);
    ThenTick(s, ls, s1, Put(s1, s.lay.start, h).(lh := [], phase := if r then Idle else Finish));
  }

  /** read_head after power-on, after its read. */
  lemma {:induction false} ReadHeadRun(s: State, s1: State, ls: seq<Label>)
    requires s.phase.Down? && LayoutOk(s.lay, s.disk) && |s.disk[s.lay.start].words| == WORDS && |s.lh| <= LOGSIZE
    requires s1 == s.(cache := s1.cache) && s.cache == map[] && Fetched(s.cache, s1.cache, s.disk, s.lay.start, LOGGER)
    requires s1 in Reached(s, ls)
    ensures var h := s.disk[s.lay.start];
            var s2 := s.(cache := map[s.lay.start := Clean(h)], lh := Entries(h),
                         phase := if |Entries(h)| > 0 then Install(true, 0) else Erase(true));
            && s1.cache == map[s.lay.start := Clean(h).(waits := {LOGGER})]
            && (if GoodHeader(s.lay, h) then s2 in Reached(s, ls + [Tick]) else Run(s, ls + [Tick]).Panic?)
            && Tidy(s.lay, s2.cache, s2.disk) && AllFree(s2.cache)
  {
    var h := s.disk[s.lay.start];
    assert !Home(s.lay, s.lay.start);
    assert forall x :: x in s1.cache ==> x == s.lay.start;
    assert s1.cache == map[s.lay.start := Clean(h).(waits := {LOGGER})];
    assert Left(Clean(h).(waits := {LOGGER})) == Clean(h);
    assert Leave(s1, s.lay.start).cache == map[s.lay.start := Clean(h)];
    ReadTurnIsTick(s1);
    RunOne(s1, Tick);
    RunAppend(s, ls, [Tick]);
  }

  /** A read by a process leaves the log alone. */
  lemma {:induction false} GotTidy(lay: Layout, c: map<int, Buf>, c1: map<int, Buf>, disk: seq<Block>, b: int, p: int)
    requires Tidy(lay, c, disk) && Fetched(c, c1, disk, b, p) && Home(lay, b) && p != LOGGER
    requires b in c ==> c[b].user.None? && c[b].waits == {}
    ensures b in c1 && c1[b] == (if b in c then c[b] else Clean(disk[b])).(waits := {p})
    ensures Tidy(lay, c1[b := c1[b].(user := Some(p), waits := {})], disk)
  {
    var c2 := c1[b := c1[b].(user := Some(p), waits := {})];
    assert c2.Keys == c1.Keys;
    assert |c2| == |c2.Keys| && |c1| == |c1.Keys|;
    forall x | x in c2
      ensures LOGGER !in c2[x].waits && (!Home(lay, x) ==> 0 <= x < |disk| && c2[x] == Clean(disk[x]))
    {
      assert x != b ==> x in c1 && x in c && c2[x] == c[x];
    }
  }

  /** A change of one home block leaves the log alone. */
  lemma {:induction false} OneTidy(lay: Layout, c: map<int, Buf>, c1: map<int, Buf>, disk: seq<Block>, b: int)
    requires Tidy(lay, c, disk) && b in c && b in c1 && c1 == c[b := c1[b]] && Home(lay, b) && LOGGER !in c1[b].waits
    ensures Tidy(lay, c1, disk)
  {
    assert c1.Keys == c.Keys;
    assert |c1| == |c1.Keys| && |c| == |c.Keys|;
  }

  /** Its lock is free. */
  lemma {:induction false} LockStep(s: State, p: int, b: int)
    requires s.phase.Up() && p != LOGGER && Home(s.lay, b) && b in s.cache
    requires s.cache[b].waits == {p} && s.cache[b].user.None?
    ensures s.(cache := s.cache[b := s.cache[b].(user := Some(p), waits := {})]) in Reached(s, [Label.Bread(p, b)])
  {
    assert s.cache[b].waits - {p} == {};
    RunOne(s, Label.Bread(p, b));
  }

  // ----- The blocks that install_trans is going to overwrite -----

  ghost predicate Distinct(e: seq<int>)
  {
    forall i, j {:trigger e[i], e[j]} :: 0 <= i < j < |e| ==> e[i] != e[j]
  }

  /** The listed blocks from `t` on are pinned and nobody has their locks. */
  ghost predicate Waiting(c: map<int, Buf>, e: seq<int>, t: int)
  {
    forall i {:trigger e[i]} :: 0 <= t <= i < |e| ==> e[i] in c && c[e[i]].dirty && c[e[i]].user.None?
  }

  ghost predicate AllFree(c: map<int, Buf>)
  {
    forall b {:trigger c[b]} :: b in c ==> Recyclable(c[b])
  }

  /** In a commit the listed blocks wait; in recovery nobody uses any buffer. */
  ghost predicate Installable(c: map<int, Buf>, e: seq<int>, t: int, recovering: bool)
  {
    if recovering then AllFree(c) else Distinct(e) && Waiting(c, e, t)
  }

  lemma {:induction false} InstallableNext(lay: Layout, c: map<int, Buf>, c': map<int, Buf>, e: seq<int>, t: int,
                                           r: bool)
    requires Installable(c, e, t, r) && 0 <= t < |e| && Kept(lay, c - {e[t]}, c' - {e[t]}) &&
             (AllFree(c) ==> AllFree(c'))
    requires forall i :: 0 <= i < |e| ==> Home(lay, e[i])
    ensures Installable(c', e, t + 1, r)
  {
    if !r {
      forall i | t + 1 <= i < |e|
        ensures e[i] in c' && c'[e[i]].dirty && c'[e[i]].user.None?
      {
        assert e[t] != e[i];
        assert Home(lay, e[i]) && e[i] in c - {e[t]} && (c - {e[t]})[e[i]] == c[e[i]];
        assert e[i] in c' - {e[t]} && (c' - {e[t]})[e[i]] == c'[e[i]];
      }
    }
  }

  /** The listed blocks wait as long as they are kept. */
  lemma {:induction false} KeptWaiting(lay: Layout, c: map<int, Buf>, c': map<int, Buf>, e: seq<int>)
    requires Kept(lay, c, c') && Waiting(c, e, 0) && forall i :: 0 <= i < |e| ==> Home(lay, e[i])
    ensures Waiting(c', e, 0)
  {
  }

  class Log {
    const lay: Layout
    const disk: array<Block>
    const block: array<int>
    var n: int
    var cache: map<int, Buf>
    ghost var phase: Phase
    ghost var ops: map<int, int>
    ghost var sleepers: set<int>

    ghost function Snapshot(): State
      reads this, disk, block
      requires 0 <= n <= block.Length
    {
      State(lay, disk[..], cache, block[..n], phase, ops, sleepers)
    }

    ghost predicate Shape()
      reads this, disk, block
    {
      && block.Length == LOGSIZE && 0 <= n <= LOGSIZE && n < lay.size
      && 0 <= lay.start < lay.start + lay.size <= lay.total == disk.Length
      && (disk as object) != block
      && |disk[lay.start].words| == WORDS
    }

    /** The listed blocks lie outside the log. */
    ghost predicate ListsHome()
      reads this, block
    {
      0 <= n <= block.Length && forall i :: 0 <= i < n ==> Home(lay, block[i])
    }

    ghost predicate CacheTidy()
      reads this, disk
    {
      Tidy(lay, cache, disk[..])
    }

    /** The machine after power-on, before recovery (log.c:54-65). */
    constructor (lay: Layout, disk: array<Block>)
      requires 0 <= lay.start < lay.start + lay.size <= lay.total == disk.Length && |disk[lay.start].words| == WORDS
      ensures Shape() && this.lay == lay && this.disk == disk && fresh(block)
      ensures n == 0 && cache == map[] && phase == Down && ops == map[] && sleepers == {}
    {
      this.lay, this.disk := lay, disk;
      block := new int[LOGSIZE];
      n, cache, phase, ops, sleepers := 0, map[], Down, map[], {};
    }

    /** bget (bio.c:62-100), and the data when the block was not cached. It fails when no buffer can be
        recycled. */
    method Bget(p: int, b: int) returns (ok: bool, ghost ls: seq<Label>)
      requires Shape() && |cache| <= NBUF && 0 <= b < disk.Length && MayFetch(Snapshot(), p, b)
      modifies this`cache
      ensures ok <==> !Starved(old(Snapshot()), b)
      ensures !ok ==> cache == old(cache) && ls == [Fetch(p, b)] && Step(old(Snapshot()), Fetch(p, b)).Panic?
      ensures ok ==> Fetched(old(cache), cache, disk[..], b, p) && Snapshot() in Reached(old(Snapshot()), ls)
    {
      ghost var s := Snapshot();
      ls := [Fetch(p, b)];
      if b in cache {
        GetFetches(s, p, b);
        cache := cache[b := cache[b].(waits := cache[b].waits + {p})];
        return true, ls;
      }
      if |cache| < NBUF {
        GetFetches(s, p, b);
      } else if v :| v in cache && Recyclable(cache[v]) {
        EvictFetches(s, v, p, b);
        ls := [Evict(v), Fetch(p, b)];
        cache := cache - {v};
      } else {
        return false, ls;
      }
      cache := cache[b := Buf(disk[b], false, None, false, {p})];
      ok := true;
    }

    /** A change of the data, bwrite and brelse (bio.c:120-151). */
    method Bwrite(b: int, data: Block)
      requires 0 <= b < disk.Length && b in cache
      modifies this`cache, disk
      ensures disk[..] == old(disk[..])[b := data] && cache == old(cache)[b := Written(old(cache)[b], data)]
    {
      disk[b] := data;
      cache := cache[b := Written(cache[b], data)];
    }

    /** brelse (bio.c:130-151). */
    method Brelse(b: int)
      requires b in cache
      modifies this`cache
      ensures cache == old(cache)[b := Left(old(cache)[b])]
    {
      cache := cache[b := Left(cache[b])];
    }

    /** The two reads of a turn of write_log or install_trans. Only the first one may find no buffer. */
    method ReadPair(tail: int) returns (ok: bool, ghost c1: map<int, Buf>, ghost ls: seq<Label>)
      requires Shape() && ListsHome() && CacheTidy() && 0 <= tail < n
      requires phase == Phase.WriteLog(tail) || (phase.Install? && phase.tail == tail)
      requires AllFree(cache) || (block[tail] in cache && cache[block[tail]].dirty)
      modifies this`cache
      ensures ok <==> !Starved(old(Snapshot()), lay.start + 1 + tail)
      ensures !ok ==> cache == old(cache) && ls == [Load(lay.start + 1 + tail)]
      ensures !ok ==> Step(old(Snapshot()), Load(lay.start + 1 + tail)).Panic?
      ensures ok ==>
              Fetched(old(cache), c1, disk[..], lay.start + 1 + tail, LOGGER) &&
              Fetched(c1, cache, disk[..], block[tail], LOGGER)
      ensures ok ==> Snapshot() in Reached(old(Snapshot()), ls)
    {
      ghost var s := Snapshot();
      FirstWanted(s, tail);
      ok, ls := Bget(LOGGER, lay.start + tail + 1);
      c1 := cache;
      if ok {
        ghost var s1, ms := Snapshot(), [];
        SecondWanted(s, s1, tail);
        ok, ms := Bget(LOGGER, block[tail]);
        ReachedMore(s, ls, s1, ms, Snapshot());
        ls := ls + ms;
      }
    }

    /** A turn of the loop of write_log, after its two reads. */
    method CopyToLog(tail: int)
      requires Shape() && 0 <= tail < n && lay.start + 1 + tail in cache && block[tail] in cache
      requires block[tail] != lay.start + 1 + tail
      modifies this`cache, this`phase, disk
      ensures Snapshot() == LogTurn(old(Snapshot()), tail)
    {
      var l := lay.start + tail + 1;
      Bwrite(l, cache[block[tail]].data);
      Brelse(block[tail]);
      phase := if tail + 1 < n then Phase.WriteLog(tail + 1) else Phase.WriteHead;
    }

    /** A turn of the loop of write_log, as a run of the machine. It fails when there is no buffer for the
        log block. */
    method LogStep(tail: int) returns (ok: bool, ghost ls: seq<Label>)
      requires Shape() && ListsHome() && CacheTidy() && 0 <= tail < n && phase == Phase.WriteLog(tail)
      requires block[tail] in cache && cache[block[tail]].dirty && cache[block[tail]].user.None?
      modifies this`cache, this`phase, disk
      ensures ok <==> !Starved(old(Snapshot()), lay.start + 1 + tail)
      ensures !ok ==> Snapshot() == old(Snapshot()) && ls == [Load(lay.start + 1 + tail)]
      ensures !ok ==> Step(old(Snapshot()), Load(lay.start + 1 + tail)).Panic?
      ensures ok ==> CacheTidy() && lay.start + 1 + tail in cache && Kept(lay, old(cache), cache)
      ensures ok ==> disk[..] == old(disk[..])[lay.start + 1 + tail := old(cache[block[tail]].data)]
      ensures ok ==> phase == if tail + 1 < n then Phase.WriteLog(tail + 1) else Phase.WriteHead
      ensures ok ==> Snapshot() in Reached(old(Snapshot()), ls)
    {
      ghost var s, c1 := Snapshot(), cache;
      ok, c1, ls := ReadPair(tail);
      if ok {
        LogTurnReads(s, s.(cache := c1), Snapshot(), tail);
        LogTurnRun(s, Snapshot(), tail, ls);
        CopyToLog(tail);
        ls := ls + [Tick];
      }
    }

    /** A turn of the loop of install_trans, after its two reads. */
    method CopyToHome(tail: int, ghost recovering: bool)
      requires Shape() && 0 <= tail < n && lay.start + 1 + tail in cache && block[tail] in cache
      requires 0 <= block[tail] < disk.Length && block[tail] != lay.start + 1 + tail
      modifies this`cache, this`phase, disk
      ensures Snapshot() == HomeTurn(old(Snapshot()), tail, recovering)
    {
      var l := lay.start + tail + 1;
      Bwrite(block[tail], cache[l].data);
      Brelse(l);
      phase := if tail + 1 < n then Install(recovering, tail + 1) else Erase(recovering);
    }

    /** A turn of the loop of install_trans, as a run of the machine. There is always a buffer. */
    method HomeStep(tail: int, ghost recovering: bool) returns (ghost ls: seq<Label>)
      requires Shape() && ListsHome() && CacheTidy() && 0 <= tail < n && phase == Install(recovering, tail)
      requires lay.start + tail in cache && Installable(cache, block[..n], tail, recovering)
      modifies this`cache, this`phase, disk
      ensures CacheTidy() && lay.start + 1 + tail in cache && Installable(cache, block[..n], tail + 1, recovering)
      ensures disk[..] == old(disk[..])[block[tail] := old(disk[lay.start + 1 + tail])]
      ensures phase == if tail + 1 < n then Install(recovering, tail + 1) else Erase(recovering)
      ensures Snapshot() in Reached(old(Snapshot()), ls)
    {
      ghost var s, c1 := Snapshot(), cache;
      LogBlockFrees(s, lay.start + 1 + tail, lay.start + tail);
      assert block[..n][tail] == block[tail];
      var ok;
      ok, c1, ls := ReadPair(tail);
      HomeTurnReads(s, s.(cache := c1), Snapshot(), tail, recovering);
      HomeTurnRun(s, Snapshot(), tail, recovering, ls);
      CopyToHome(tail, recovering);
      ls := ls + [Tick];
    }

    /** The listed blocks as they were at the start of the commit. */
    ghost predicate ListedIn(c: map<int, Buf>, ds: seq<Block>)
      reads this, block
    {
      && 0 <= n <= block.Length && |ds| == n && Waiting(c, block[..n], 0)
      && forall i :: 0 <= i < n ==> ds[i] == c[block[..n][i]].data
    }

    /** The loop of write_log has copied the first `tail` blocks. */
    ghost predicate InLog(d: seq<Block>, c: map<int, Buf>, ds: seq<Block>, tail: int)
      reads this, disk
    {
      && 0 <= lay.start && lay.start + |ds| < |d| && 0 <= tail <= n == |ds|
      && disk[..] == Logged(d, lay.start, ds[..tail]) && CacheTidy() && Kept(lay, c, cache)
      && (tail > 0 ==> lay.start + tail in cache)
      && (n > 0 ==> phase == if tail < n then Phase.WriteLog(tail) else Phase.WriteHead)
    }

    /** A turn of the loop of write_log, in the middle of it: only the first one may find no buffer. */
    method LogNext(tail: int, ghost d: seq<Block>, ghost c: map<int, Buf>, ghost ds: seq<Block>)
      returns (ok: bool, ghost ls: seq<Label>)
      requires Shape() && ListsHome() && |d| == disk.Length && tail < n && InLog(d, c, ds, tail) && ListedIn(c, ds)
      modifies this`cache, this`phase, disk
      ensures ok <==> tail > 0 || !Starved(old(Snapshot()), lay.start + 1 + tail)
      ensures !ok ==> Snapshot() == old(Snapshot()) && ls == [Load(lay.start + 1 + tail)]
      ensures !ok ==> Step(old(Snapshot()), Load(lay.start + 1 + tail)).Panic?
      ensures ok ==> Shape() && InLog(d, c, ds, tail + 1) && Snapshot() in Reached(old(Snapshot()), ls)
    {
      ghost var s := Snapshot();
      assert block[..n][tail] == block[tail] && Home(lay, block[tail]);
      assert cache[block[tail]] == c[block[tail]];
      if tail > 0 {
        LogBlockFrees(s, lay.start + 1 + tail, lay.start + tail);
      }
      ok, ls := LogStep(tail);
      if ok {
        LoggedNext(d, lay.start, ds, tail);
        LoggedKeeps(d, lay.start, ds, tail);
        KeptMore(lay, c, s.cache, cache);
        assert disk[lay.start] == disk[..][lay.start] == s.disk[lay.start];
      }
    }

    /** write_log: afterwards the blocks after the header hold the cached data of the listed
        blocks, in order; nothing else on disk, and no cached home block in use, has changed. It fails
        when its first read finds no buffer. */
    method WriteLog() returns (ok: bool, ghost ls: seq<Label>)
      requires Shape() && ListsHome() && CacheTidy() && (n > 0 ==> phase == Phase.WriteLog(0))
      requires Waiting(cache, block[..n], 0)
      modifies this`cache, this`phase, disk
      ensures ok <==> n == 0 || !Starved(old(Snapshot()), lay.start + 1)
      ensures !ok ==> Snapshot() == old(Snapshot()) && ls == [Load(lay.start + 1)]
      ensures !ok ==> Step(old(Snapshot()), Load(lay.start + 1)).Panic?
      ensures ok ==> Shape() && CacheTidy() && (n > 0 ==> phase == Phase.WriteHead && lay.start + n in cache)
      ensures ok ==> disk[..] == Logged(old(disk[..]), lay.start, Data(old(cache), block[..n]))
      ensures ok ==> Kept(lay, old(cache), cache) && Snapshot() in Reached(old(Snapshot()), ls)
    {
      ghost var d, c, ds := disk[..], cache, Data(cache, block[..n]);
      var tail := 0;
      ok, ls := true, [];
      assert Logged(d, lay.start, ds[..0]) == d;
      ReachedNone(Snapshot());
      while tail < n
        invariant ok && Shape() && InLog(d, c, ds, tail) && Snapshot() in Reached(old(Snapshot()), ls)
        invariant tail == 0 ==> Snapshot() == old(Snapshot()) && ls == []
        invariant tail > 0 ==> !Starved(old(Snapshot()), lay.start + 1)
      {
        ghost var s1 := Snapshot();
        ghost var ms;
        ok, ms := LogNext(tail, d, c, ds);
        if !ok {
          return ok, ms;
        }
        ReachedMore(old(Snapshot()), ls, s1, ms, Snapshot());
        ls := ls + ms;
        tail := tail + 1;
      }
      assert ds[..n] == ds;
    }

    /** The loop of install_trans has copied the first `tail` blocks. */
    ghost predicate InInstall(d: seq<Block>, e: seq<int>, tail: int, recovering: bool)
      reads this, disk
    {
      && 0 <= tail <= n == |e| && disk[..] == Installed(d, e, lay.start, tail)
      && CacheTidy() && lay.start + tail in cache && Installable(cache, e, tail, recovering)
      && phase == if tail < n then Install(recovering, tail) else Erase(recovering)
    }

    /** A turn of the loop of install_trans, in the middle of it. */
    method HomeNext(tail: int, ghost d: seq<Block>, ghost recovering: bool) returns (ghost ls: seq<Label>)
      requires Shape() && ListsHome() && |d| == disk.Length && tail < n && InInstall(d, block[..n], tail, recovering)
      modifies this`cache, this`phase, disk
      ensures Shape() && InInstall(d, block[..n], tail + 1, recovering) && Snapshot() in Reached(old(Snapshot()), ls)
    {
      ghost var s, e := Snapshot(), block[..n];
      InstalledKeepsLog(lay, d, e, tail);
      assert disk[lay.start + 1 + tail] == disk[..][lay.start + 1 + tail];
      ls := HomeStep(tail, recovering);
      assert block[..n] == e && e[tail] == block[tail];
      InstalledKeepsLog(lay, d, e, tail + 1);
      assert disk[..] == Installed(d, e, lay.start, tail + 1);
      assert disk[lay.start] == disk[..][lay.start] == s.disk[lay.start];
    }

    /** install_trans. */
    method InstallTrans(ghost recovering: bool) returns (ghost ls: seq<Label>)
      requires Shape() && ListsHome() && CacheTidy()
      requires phase == if n > 0 then Install(recovering, 0) else Erase(recovering)
      requires lay.start in cache && Installable(cache, block[..n], 0, recovering)
      modifies this`cache, this`phase, disk
      ensures phase == Erase(recovering)
      ensures disk[..] == Installed(old(disk[..]), block[..n], lay.start, n)
      ensures Shape() && CacheTidy() && lay.start + n in cache && Installable(cache, block[..n], n, recovering)
      ensures Snapshot() in Reached(old(Snapshot()), ls)
    {
      var tail := 0;
      ghost var d := disk[..];
      ls := [];
      ReachedNone(Snapshot());
      while tail < n
        invariant Shape() && InInstall(d, block[..n], tail, recovering) && Snapshot() in Reached(old(Snapshot()), ls)
      {
        ghost var s1 := Snapshot();
        ghost var ms := HomeNext(tail, d, recovering);
        ReachedMore(old(Snapshot()), ls, s1, ms, Snapshot());
        ls := ls + ms;
        tail := tail + 1;
      }
    }

    /** write_head, after its read: the header block on disk lists the entries of the in-memory header;
        its words past the last entry are kept. */
    method WriteHead()
      requires Shape() && lay.start in cache && cache[lay.start].data == disk[lay.start]
      modifies this`cache, disk
      ensures disk[..] == Headed(old(disk[..]), lay.start, block[..n])
      ensures cache == old(cache)[lay.start := Written(old(cache)[lay.start], disk[lay.start])]
    {
      var buf := cache[lay.start].data;
      var w := buf.words[0 := n];
      var i := 0;
      while i < n
        invariant 0 <= i <= n && |w| == WORDS && w[0] == n
        invariant forall k :: 0 <= k < i ==> w[1 + k] == block[k]
        invariant forall k :: i < k < WORDS ==> w[k] == buf.words[k]
      {
        w := w[1 + i := block[i]];
        i := i + 1;
      }
      WordsAre(buf, block[..n], w);
      Bwrite(lay.start, Block(w));
    }

    /** write_head at the commit point (log.c:197). */
    method CommitHead() returns (ghost ls: seq<Label>)
      requires Shape() && CacheTidy() && phase == Phase.WriteHead && lay.start + n in cache
      modifies this`cache, this`phase, disk
      ensures disk[..] == Headed(old(disk[..]), lay.start, block[..n]) && phase == Install(false, 0)
      ensures Shape() && CacheTidy() && lay.start in cache && Kept(lay, old(cache), cache)
      ensures Snapshot() in Reached(old(Snapshot()), ls)
    {
      ghost var s := Snapshot();
      LogBlockFrees(s, lay.start, lay.start + n);
      HeadWanted(s);
      var ok;
      ok, ls := Bget(LOGGER, lay.start);
      CommitHeadRun(s, Snapshot(), ls);
      WriteHead();
      phase := Install(false, 0);
      assert disk[..][lay.start] == disk[lay.start];
      ls := ls + [Tick];
    }

    /** The header is emptied (log.c:120-121 and log.c:199-200). */
    method EraseHead(ghost recovering: bool) returns (ghost ls: seq<Label>)
      requires Shape() && CacheTidy() && phase == Erase(recovering) && lay.start + n in cache
      modifies this`cache, this`phase, this`n, disk
      ensures n == 0 && disk[..] == Headed(old(disk[..]), lay.start, []) && phase == if recovering then Idle else Finish
      ensures Shape() && CacheTidy() && Kept(lay, old(cache), cache) && (AllFree(old(cache)) ==> AllFree(cache))
      ensures Snapshot() in Reached(old(Snapshot()), ls)
    {
      ghost var s := Snapshot();
      LogBlockFrees(s, lay.start, lay.start + n);
      HeadWanted(s);
      var ok;
      ok, ls := Bget(LOGGER, lay.start);
      EraseHeadRun(s, Snapshot(), recovering, ls);
      n := 0;
      assert block[..n] == [];
      WriteHead();
      phase := if recovering then Idle else Finish;
      assert disk[..][lay.start] == disk[lay.start];
      ls := ls + [Tick];
    }

    /** read_head: the in-memory header becomes what the header block lists. For a count that does not
        fit the array of the header the source runs past it; that is `!ok`. */
    method ReadHead() returns (ok: bool)
      requires Shape() && lay.start in cache && cache[lay.start].data == disk[lay.start]
      modifies this`cache, this`n, block
      ensures ok <==> GoodHeader(lay, disk[lay.start])
      ensures Shape() && (ok ==> block[..n] == Entries(disk[lay.start])) && (!ok ==> n == old(n))
      ensures disk[..] == old(disk[..]) && cache == old(cache)[lay.start := Left(old(cache)[lay.start])]
    {
      var buf := cache[lay.start].data;
      Brelse(lay.start);
      ok := 0 <= buf.words[0] <= LOGSIZE && buf.words[0] < lay.size;
      if !ok {
        return;
      }
      n := buf.words[0];
      var i := 0;
      while i < n
        invariant 0 <= i <= n == buf.words[0]
        invariant forall k :: 0 <= k < i ==> block[k] == buf.words[1 + k]
        invariant disk[..] == old(disk[..])
        modifies block
      {
        block[i] := buf.words[1 + i];
        i := i + 1;
      }
      assert block[..n] == buf.words[1..1 + n];
    }

    /** write_log and the commit point (log.c:196-197). */
    method LogAndHead() returns (ok: bool, ghost ls: seq<Label>)
      requires Shape() && ListsHome() && CacheTidy() && n > 0 && phase == Phase.WriteLog(0)
      requires Waiting(cache, block[..n], 0)
      modifies this`cache, this`phase, disk
      ensures ok <==> !Starved(old(Snapshot()), lay.start + 1)
      ensures !ok ==> Snapshot() == old(Snapshot()) && ls == [Load(lay.start + 1)]
      ensures !ok ==> Step(old(Snapshot()), Load(lay.start + 1)).Panic?
      ensures ok ==> Shape() && CacheTidy() && phase == Install(false, 0) && lay.start in cache
      ensures ok ==> disk[..] == Headed(Logged(old(disk[..]), lay.start, Data(old(cache), block[..n])), lay.start,
                                        block[..n])
      ensures ok ==> Kept(lay, old(cache), cache) && Snapshot() in Reached(old(Snapshot()), ls)
    {
      ok, ls := WriteLog();
      if ok {
        ghost var s1 := Snapshot();
        assert disk[..][lay.start] == disk[lay.start];
        ghost var ms := CommitHead();
        KeptMore(lay, old(cache), s1.cache, cache);
        ReachedMore(old(Snapshot()), ls, s1, ms, Snapshot());
        ls := ls + ms;
      }
    }

    /** install_trans and the emptied header (log.c:198-200 and log.c:119-121). */
    method InstallAndErase(ghost recovering: bool) returns (ghost ls: seq<Label>)
      requires Shape() && ListsHome() && CacheTidy()
      requires phase == if n > 0 then Install(recovering, 0) else Erase(recovering)
      requires lay.start in cache && Installable(cache, block[..n], 0, recovering)
      modifies this`cache, this`phase, this`n, disk
      ensures Shape() && CacheTidy() && n == 0 && phase == if recovering then Idle else Finish
      ensures recovering ==> AllFree(cache)
      ensures var d := Installed(old(disk[..]), old(block[..n]), lay.start, old(n));
              |d[lay.start].words| == WORDS && disk[..] == Headed(d, lay.start, [])
      ensures Snapshot() in Reached(old(Snapshot()), ls)
    {
      ls := InstallTrans(recovering);
      ghost var s1 := Snapshot();
      assert disk[..][lay.start] == disk[lay.start];
      ghost var ms := EraseHead(recovering);
      ReachedMore(old(Snapshot()), ls, s1, ms, Snapshot());
      ls := ls + ms;
    }

    /** The listed blocks are different blocks of the file system, logged and with their locks free. */
    ghost predicate Listing()
      reads this, block
    {
      ListsHome() && Distinct(block[..n]) && Waiting(cache, block[..n], 0)
    }

    /** commit: the disk becomes the committed one, by a run of the step machine. It panics if and only
        if its first read finds no buffer. */
    method Commit() returns (ok: bool, ghost ls: seq<Label>)
      requires Shape() && Listing() && CacheTidy() && phase == if n > 0 then Phase.WriteLog(0) else Finish
      modifies this`cache, this`phase, this`n, disk
      ensures ok <==> old(n) == 0 || !Starved(old(Snapshot()), lay.start + 1)
      ensures !ok ==> disk[..] == old(disk[..]) && Run(old(Snapshot()), ls).Panic?
      ensures ok ==> Shape() && CacheTidy() && n == 0 && phase == Finish && Snapshot() in Reached(old(Snapshot()), ls)
      ensures ok ==> disk[..] == if old(n) == 0 then old(disk[..])
                else CommitDisk(old(disk[..]), lay.start, block[..old(n)], Data(old(cache), block[..old(n)]))
    {
      ok, ls := true, [];
      ReachedNone(Snapshot());
      if n > 0 {
        ghost var s := Snapshot();
        ok, ls := LogAndHead();
        if ok {
          ghost var s1 := Snapshot();
          KeptWaiting(lay, s.cache, cache, block[..n]);
          ghost var ms := InstallAndErase(false);
          ReachedMore(s, ls, s1, ms, Snapshot());
          ls := ls + ms;
        } else {
          RunOne(s, Load(lay.start + 1));
        }
      }
    }

    /** One round of begin_op (log.c:126-141): the process is admitted, or falls asleep. */
    method BeginOp(ghost p: int, outstanding: int, committing: bool) returns (waits: bool)
      requires 0 <= n <= block.Length && p !in ops && p !in sleepers
      requires outstanding == |ops| && phase.Up() && committing == phase.Committing()
      modifies this`ops, this`sleepers
      ensures waits <==> committing || n + (outstanding + 1) * MAXOPBLOCKS > LOGSIZE
      ensures ops == (if waits then old(ops) else old(ops)[p := 0])
      ensures sleepers == (if waits then old(sleepers) + {p} else old(sleepers))
      ensures Step(old(Snapshot()), Begin(p)) == Next(Snapshot())
    {
      waits := committing || n + (outstanding + 1) * MAXOPBLOCKS > LOGSIZE;
      assert |block[..n]| == n;
      if waits {
        sleepers := sleepers + {p};
      } else {
        ops := ops[p := 0];
      }
    }

    /** end_op (log.c:146-174) of a process that has logged what it changed: the last one commits and
        wakes the sleepers, any other only wakes them. A panic while a commit runs, and when the commit
        finds no buffer for its first read. */
    method EndOp(ghost p: int, outstanding: int, committing: bool) returns (ok: bool, ghost ls: seq<Label>)
      requires Shape() && p in ops && outstanding == |ops| && phase.Up() && committing == phase.Committing()
      requires !HoldsTouched(Snapshot(), p) && (!committing ==> Listing() && CacheTidy())
      modifies this, disk
      ensures ok <==> !committing && (outstanding > 1 || old(n) == 0 || !Starved(old(Snapshot()), lay.start + 1))
      ensures !ok ==> disk[..] == old(disk[..]) && Run(old(Snapshot()), ls).Panic?
      ensures ok ==> Shape() && CacheTidy() && phase == Idle && sleepers == {} && ops == old(ops) - {p}
      ensures ok ==> Snapshot() in Reached(old(Snapshot()), ls)
      ensures ok && outstanding > 1 ==> disk[..] == old(disk[..]) && n == old(n) && cache == old(cache)
      ensures ok && outstanding == 1 ==> n == 0 && disk[..] == if old(n) == 0 then old(disk[..])
                else CommitDisk(old(disk[..]), lay.start, block[..old(n)], Data(old(cache), block[..old(n)]))
    {
      ls := [End(p)];
      ghost var s := Snapshot();
      if committing {
        RunOne(s, End(p));
        return false, ls;
      }
      LastOp(ops, p);
      EndIs(s, p);
      ops := ops - {p};
      ok := true;
      if outstanding - 1 == 0 {
        phase := if n > 0 then Phase.WriteLog(0) else Finish;
        ghost var s1, ms := Snapshot(), [];
        ok, ms := CommitAndWake();
        EndThen(s, p, s1, ms);
        ls := ls + ms;
        if ok {
          ReachedMore(s, [End(p)], s1, ms, Snapshot());
        }
      } else {
        sleepers := {};
      }
    }

    /** The second half of end_op: the commit, and the end of committing (log.c:165-173). */
    method CommitAndWake() returns (ok: bool, ghost ls: seq<Label>)
      requires Shape() && Listing() && CacheTidy() && phase == if n > 0 then Phase.WriteLog(0) else Finish
      modifies this`cache, this`phase, this`n, this`sleepers, disk
      ensures ok <==> old(n) == 0 || !Starved(old(Snapshot()), lay.start + 1)
      ensures !ok ==> disk[..] == old(disk[..]) && Run(old(Snapshot()), ls).Panic?
      ensures ok ==> Shape() && CacheTidy() && n == 0 && phase == Idle && sleepers == {}
      ensures ok ==> Snapshot() in Reached(old(Snapshot()), ls)
      ensures ok ==> disk[..] == if old(n) == 0 then old(disk[..])
                else CommitDisk(old(disk[..]), lay.start, block[..old(n)], Data(old(cache), block[..old(n)]))
    {
      ghost var s := Snapshot();
      ok, ls := Commit();
      if ok {
        ghost var s1 := Snapshot();
        FinishIs(s1);
        phase, sleepers := Idle, {};
        ReachedMore(s, ls, s1, [Tick], Snapshot());
        ls := ls + [Tick];
      }
    }

    /** recover_from_log: if the header on disk lists blocks, the log's contents for them go
        home; nothing else at home changes, and the log is left empty; all by a run of the step
        machine. */
    method RecoverFromLog() returns (ok: bool, ghost ls: seq<Label>)
      requires Shape() && cache == map[] && phase == Down
      requires forall i :: 0 <= i < |Entries(disk[lay.start])| ==> Home(lay, Entries(disk[lay.start])[i])
      modifies this, disk, block
      ensures ok <==> GoodHeader(lay, old(disk[..])[lay.start])
      ensures !ok ==> disk[..] == old(disk[..]) && Run(old(Snapshot()), ls).Panic?
      ensures ok ==> Shape() && CacheTidy() && AllFree(cache) && n == 0 && phase == Idle
      ensures ok ==> Entries(disk[lay.start]) == [] && ops == old(ops) && sleepers == old(sleepers)
      ensures ok ==> Snapshot() in Reached(old(Snapshot()), ls)
      ensures ok ==> forall b :: Home(lay, b) ==>
                var was := old(disk[..]);
                disk[b] == Installed(was, Entries(was[lay.start]), lay.start, |Entries(was[lay.start])|)[b]
    {
      ghost var s, was := Snapshot(), disk[..];
      ok, ls := StartRecovery();
      if ok {
        ghost var s1 := Snapshot();
        ghost var ms := InstallAndErase(true);
        ReachedMore(s, ls, s1, ms, Snapshot());
        ls := ls + ms;
        assert disk[..][lay.start] == disk[lay.start];
        assert forall b :: Home(lay, b) ==> disk[b] == disk[..][b];
      }
    }

    /** Its first half: the header is read. */
    method StartRecovery() returns (ok: bool, ghost ls: seq<Label>)
      requires Shape() && cache == map[] && phase == Down
      modifies this`cache, this`n, this`phase, block
      ensures ok <==> GoodHeader(lay, disk[lay.start])
      ensures !ok ==> Run(old(Snapshot()), ls).Panic?
      ensures disk[..] == old(disk[..])
      ensures ok ==>
              Shape() && block[..n] == Entries(disk[lay.start]) && CacheTidy() && AllFree(cache) && lay.start in cache
      ensures ok ==> phase == (if n > 0 then Install(true, 0) else Erase(true))
      ensures ok ==> Snapshot() in Reached(old(Snapshot()), ls)
    {
      ghost var s, h := Snapshot(), disk[lay.start];
      HeadWanted(s);
      ok, ls := Bget(LOGGER, lay.start);
      ReadHeadRun(s, Snapshot(), ls);
      ls := ls + [Tick];
      ghost var c := cache;
      ok := ReadHead();
      assert cache == c[lay.start := Left(c[lay.start])];
      if ok {
        phase := if n > 0 then Install(true, 0) else Erase(true);
        assert Left(Clean(h).(waits := {LOGGER})) == Clean(h);
        assert cache == map[lay.start := Clean(h)];
      }
    }

    /** log_write (log.c:214-233): panics when the header is full, even for a block it already lists;
        otherwise the block is listed once and its buffer is dirty. It is one step of the machine. */
    method LogWrite(ghost p: int, b: int, outstanding: int) returns (ok: bool)
      requires Shape() && b in cache
      requires outstanding == |ops| && (outstanding >= 1 ==> phase.Up() && p in ops && Holds(Snapshot(), p, b))
      modifies this`n, this`cache, this`ops, block
      ensures Shape() && (Home(lay, b) && old(ListsHome()) ==> ListsHome())
      ensures old(Distinct(block[..n])) ==> Distinct(block[..n])
      ensures ok <==> old(n) < LOGSIZE && old(n) < lay.size - 1 && outstanding >= 1
      ensures !ok ==> cache == old(cache) && block[..n] == old(block[..n])
      ensures ok ==> block[..n] == if b in old(block[..n]) then old(block[..n]) else old(block[..n]) + [b]
      ensures ok ==> cache == old(cache)[b := old(cache[b]).(dirty := true, touched := false)]
      ensures outstanding >= 1 ==> ops.Keys == old(ops.Keys)
      ensures outstanding >= 1 ==> Step(old(Snapshot()), Label.LogWrite(p, b)) == if ok then Next(Snapshot()) else Panic
    {
      if n >= LOGSIZE || n >= lay.size - 1 || outstanding < 1 {
        return false;
      }
      var i := 0;
      while i < n
        invariant 0 <= i <= n
        invariant forall k :: 0 <= k < i ==> block[k] != b
      {
        if block[i] == b {
          break;
        }
        i := i + 1;
      }
      ghost var was := block[..n];
      block[i] := b;
      if i == n {
        n := n + 1;
        ops := ops[p := ops[p] + 1];
        assert block[..n] == was + [b];
      } else {
        assert was[i] == b && block[..n] == was;
      }
      cache := cache[b := cache[b].(dirty := true, touched := false)];
      ok := true;
    }

    /** bread (bio.c:104-116) by a process, of a block nobody has. It fails when there is no buffer. */
    method Bread(p: int, b: int) returns (ok: bool, ghost ls: seq<Label>)
      requires Shape() && CacheTidy() && MayGet(Snapshot(), p, b)
      requires b in cache ==> cache[b].user.None? && cache[b].waits == {}
      modifies this`cache
      ensures ok <==> !Starved(old(Snapshot()), b)
      ensures !ok ==> cache == old(cache) && Run(old(Snapshot()), ls).Panic?
      ensures ok ==> CacheTidy() && b in cache && Snapshot() in Reached(old(Snapshot()), ls)
      ensures ok ==> cache[b] == (if b in old(cache) then old(cache)[b] else Clean(disk[b])).(user := Some(p))
      ensures ok ==> forall x :: x in cache && x != b ==> x in old(cache) && cache[x] == old(cache)[x]
      ensures ok ==> forall x :: x in old(cache) && !Recyclable(old(cache)[x]) ==> x in cache
    {
      ghost var s := Snapshot();
      ok, ls := Bget(p, b);
      if ok {
        ghost var s1 := Snapshot();
        GotTidy(lay, s.cache, cache, disk[..], b, p);
        LockStep(s1, p, b);
        cache := cache[b := cache[b].(user := Some(p), waits := {})];
        ReachedMore(s, ls, s1, [Label.Bread(p, b)], Snapshot());
        ls := ls + [Label.Bread(p, b)];
      } else {
        RunOne(s, Get(p, b));
      }
    }

    /** A process changes the data of a block it has (the memmove of a caller). */
    method Change(ghost p: int, b: int, data: Block)
      requires 0 <= n <= block.Length && phase.Up() && p in ops && Holds(Snapshot(), p, b)
      modifies this`cache
      ensures cache == old(cache)[b := old(cache)[b].(data := data, touched := true)]
      ensures Step(old(Snapshot()), Modify(p, b, data)) == Next(Snapshot())
    {
      cache := cache[b := cache[b].(data := data, touched := true)];
    }

    /** brelse by a process that has logged what it changed. */
    method Release(ghost p: int, b: int)
      requires 0 <= n <= block.Length && phase.Up() && Holds(Snapshot(), p, b) && !cache[b].touched
      modifies this`cache
      ensures cache == old(cache)[b := old(cache)[b].(user := None)]
      ensures Step(old(Snapshot()), Label.Brelse(p, b)) == Next(Snapshot())
    {
      cache := cache[b := cache[b].(user := None)];
    }

    /** An operation begins, and reads and changes a block. */
    method ReadAndChange(p: int, b: int, data: Block)
      requires Shape() && CacheTidy() && AllFree(cache) && phase == Idle && n == 0
      requires ops == map[] && sleepers == {} && Home(lay, b) && p != LOGGER
      modifies this`cache, this`ops, this`sleepers
      ensures Shape() && CacheTidy() && ops == map[p := 0] && sleepers == {}
      ensures b in cache && cache[b] == Clean(data).(user := Some(p), touched := true)
      ensures forall x :: x in cache && x != b ==> Recyclable(cache[x])
    {
      var waits := BeginOp(p, 0, false);
      var ok;
      ghost var ls;
      OtherFrees(Snapshot(), b, b);
      ok, ls := Bread(p, b);
      ghost var c := cache;
      Change(p, b, data);
      OneTidy(lay, c, cache, disk[..], b);
    }

    /** It logs and releases the block. */
    method LogBlock(p: int, b: int, data: Block)
      requires Shape() && CacheTidy() && AllFree(cache) && phase == Idle && n == 0 && lay.size > 1
      requires ops == map[] && sleepers == {} && Home(lay, b) && p != LOGGER
      modifies this`cache, this`n, this`ops, this`sleepers, block
      ensures Shape() && CacheTidy() && n == 1 && block[0] == b && ops.Keys == {p}
      ensures b in cache && cache[b] == Clean(data).(dirty := true)
      ensures forall x :: x in cache && x != b ==> Recyclable(cache[x])
    {
      ReadAndChange(p, b, data);
      ghost var c := cache;
      var ok := LogWrite(p, b, 1);
      Release(p, b);
      OneTidy(lay, c, cache, disk[..], b);
      assert block[..n] == [b] && block[..n][0] == block[0];
    }

    /** A whole operation on one block, from begin_op to the end of the commit: afterwards the block has
        the data on disk, every other home block is as before, and the header lists nothing. */
    method Transact(p: int, b: int, data: Block)
      requires Shape() && CacheTidy() && AllFree(cache) && phase == Idle && n == 0 && lay.size > 1
      requires ops == map[] && sleepers == {} && Home(lay, b) && p != LOGGER
      modifies this, disk, block
      ensures Shape() && CacheTidy() && phase == Idle && n == 0 && ops == map[]
      ensures disk[b] == data && (forall x :: Home(lay, x) && x != b ==> disk[x] == old(disk[..])[x])
      ensures Entries(disk[lay.start]) == []
    {
      ghost var d := disk[..];
      LogBlock(p, b, data);
      assert block[..n] == [b];
      assert |ops| == |ops.Keys| == 1;
      assert Data(cache, block[..n]) == [data];
      OtherFrees(Snapshot(), lay.start + 1, b);
      var ok;
      ghost var ls;
      ok, ls := EndOp(p, 1, false);
      CommitOne(lay, d, b, data);
      assert disk[..][lay.start] == disk[lay.start];
      assert forall x :: Home(lay, x) ==> disk[..][x] == disk[x];
    }
  }

  /** From power-on: recovery, and then an operation on one block. */
  method PowerOn(lay: Layout, disk: array<Block>, p: int, b: int, data: Block) returns (log: Log, ok: bool)
    requires 0 <= lay.start < lay.start + lay.size <= lay.total == disk.Length && lay.size > 1
    requires |disk[lay.start].words| == WORDS && Home(lay, b) && p != LOGGER
    requires forall i :: 0 <= i < |Entries(disk[lay.start])| ==> Home(lay, Entries(disk[lay.start])[i])
    modifies disk
    ensures ok <==> GoodHeader(lay, old(disk[..])[lay.start])
    ensures ok ==> fresh(log) && log.disk == disk && log.Shape() && log.phase == Idle && disk[b] == data
    ensures ok ==> forall x :: Home(lay, x) && x != b ==>
              var was := old(disk[..]);
              disk[x] == Installed(was, Entries(was[lay.start]), lay.start, |Entries(was[lay.start])|)[x]
  {
    log := new Log(lay, disk);
    ghost var ls;
    ok, ls := log.RecoverFromLog();
    if ok {
      ghost var d := disk[..];
      assert forall x :: Home(lay, x) ==> d[x] == disk[x];
      log.Transact(p, b, data);
    }
  }
}
