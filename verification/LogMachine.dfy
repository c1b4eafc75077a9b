/** The write-ahead log of log.c over the buffer cache of bio.c, as a step machine.

    A step is one critical section of one process, or one block write of the committing
    process, or one block write of recovery. Power may fail after any step. Every way the
    processes can be interleaved is a sequence of labels. The cache has NBUF buffers. */
module LogMachine {
  import opened Common

  const MAXOPBLOCKS: int := 10
  const LOGSIZE: int := 30

  /** BSIZE / sizeof(int). */
  const WORDS: int := 128

  /** A block is seen as the machine words it holds, because the log header is an overlay of
      ints on a block. */
  datatype Block = Block(words: seq<int>)

  /** A cached block. `user` is the process holding the buffer's sleep lock; `touched` says
      that this process changed the data and has not called log_write yet. `waits` are the
      processes that bget has given the buffer to and that do not hold its lock yet: the count
      of the buffer is that of `user` and `waits`. */
  datatype Buf = Buf(data: Block, dirty: bool, user: Option<int>, touched: bool, waits: set<int>)

  /** The process that commits or recovers, as a user of buffers. */
  const LOGGER: int := -1

  /** Where the log lies on a disk of `total` blocks: its header is block `start`, its
      entries the `size - 1` blocks after it. */
  datatype Layout = Layout(start: int, size: int, total: int)

  /** Where the commit or the recovery is. `Idle` is neither. Recovery goes through the
      installation and the erasure of the header too, with `recovering` set. */
  datatype Phase =
    | Idle
    | WriteLog(tail: int)
    | WriteHead
    | Install(recovering: bool, tail: int)
    | Erase(recovering: bool)
    | Finish
    | Down
  {
    predicate Up() {
      !Down? && (Install? || Erase? ==> !recovering)
    }

    predicate Committing() {
      !Idle? && Up()
    }
  }

  /** `ops` maps each process inside begin_op/end_op to the number of log entries it added;
      `sleepers` are the processes asleep in begin_op. */
  datatype State = State(
    lay: Layout, disk: seq<Block>, cache: map<int, Buf>,
    lh: seq<int>, phase: Phase,
    ops: map<int, int>, sleepers: set<int>)

  datatype Label =
    | Begin(p: int)
    | Get(p: int, b: int)
    | Bread(p: int, b: int)
    | Modify(p: int, b: int, data: Block)
    | LogWrite(p: int, b: int)
    | Brelse(p: int, b: int)
    | Load(b: int)
    | Evict(b: int)
    | End(p: int)
    | Tick
    | Crash

  datatype Outcome = Next(s: State) | Blocked | Panic

  /** A block of the file system: on the disk and not in the log. */
  predicate Home(lay: Layout, b: int)
  {
    0 <= b < lay.total && !(lay.start <= b < lay.start + lay.size)
  }

  // ----- The on-disk header -----

  predicate GoodHeader(lay: Layout, h: Block)
  {
    |h.words| == WORDS && 0 <= h.words[0] <= LOGSIZE && h.words[0] < lay.size
  }

  /** The block numbers a header block lists (read_head, log.c:86-96). */
  function Entries(h: Block): seq<int>
  {
    if |h.words| == WORDS && 0 <= h.words[0] <= LOGSIZE then h.words[1..1 + h.words[0]] else []
  }

  /** The header block after write_head (log.c:102-113): the words past the last entry keep
      whatever they held. */
  function WithEntries(h: Block, e: seq<int>): (r: Block)
    requires |e| <= LOGSIZE && |h.words| == WORDS
    ensures |r.words| == WORDS && r.words[0] == |e| && Entries(r) == e
    ensures r.words[1 + |e|..] == h.words[1 + |e|..]
  {
    Block([|e|] + e + h.words[1 + |e|..])
  }

  // ----- Buffers -----

  /** bget may give the buffer to another block (bio.c:88). */
  predicate Recyclable(buf: Buf)
  {
    !buf.dirty && buf.user.None? && buf.waits == {}
  }

  /** bget finds no buffer (bio.c:99). */
  predicate NoBuffer(s: State)
  {
    |s.cache| >= NBUF && forall b :: b in s.cache ==> !Recyclable(s.cache[b])
  }

  /** bget of a block that is not cached finds no buffer. */
  predicate Starved(s: State, b: int)
  {
    b !in s.cache && NoBuffer(s)
  }

  /** The committing process has called bget for the block. */
  predicate Taken(s: State, b: int)
  {
    b in s.cache && LOGGER in s.cache[b].waits
  }

  /** It can have the lock too. */
  predicate Ready(s: State, b: int)
  {
    Taken(s, b) && s.cache[b].user.None?
  }

  /** brelse by the committing process. */
  function Left(buf: Buf): Buf
  {
    buf.(waits := buf.waits - {LOGGER})
  }

  /** A change of the data, bwrite and brelse by the committing process. */
  function Written(buf: Buf, d: Block): Buf
  {
    Left(buf).(data := d, dirty := false)
  }

  function Leave(s: State, b: int): State
    requires b in s.cache
  {
    s.(cache := s.cache[b := Left(s.cache[b])])
  }

  function Put(s: State, b: int, d: Block): State
    requires 0 <= b < |s.disk| && b in s.cache
  {
    s.(disk := s.disk[b := d], cache := s.cache[b := Written(s.cache[b], d)])
  }

  // ----- Steps -----

  /** Whether begin_op has to wait (log.c:130-134). */
  predicate MustWait(s: State)
  {
    s.phase.Committing() || |s.lh| + (|s.ops| + 1) * MAXOPBLOCKS > LOGSIZE
  }

  /** begin_op (log.c:126-141), up to where it returns or falls asleep. */
  function BeginStep(s: State, p: int): Outcome
  {
    if !s.phase.Up() || p in s.ops || p in s.sleepers then Blocked
    else if MustWait(s) then Next(s.(sleepers := s.sleepers + {p}))
    else Next(s.(ops := s.ops[p := 0]))
  }

  /** bget (bio.c:62-100), up to where it waits for the lock of the buffer, with the data of the disk
      when the block was not cached. When all buffers have blocks, one has to be recycled first;
      when none can be, it panics. */
  function GetStep(s: State, p: int, b: int): Outcome
  {
    if !(0 <= b < |s.disk|) then Blocked
    else if b in s.cache then Next(s.(cache := s.cache[b := s.cache[b].(waits := s.cache[b].waits + {p})]))
    else if NoBuffer(s) then Panic
    else if |s.cache| >= NBUF then Blocked
    else Next(s.(cache := s.cache[b := Buf(s.disk[b], false, None, false, {p})]))
  }

  /** A process calls bread (bio.c:104-116) of a block of the file system. */
  predicate MayGet(s: State, p: int, b: int)
  {
    s.phase.Up() && Home(s.lay, b) && p != LOGGER && !Holds(s, p, b)
  }

  /** bread returns: the process has the lock. */
  function BreadStep(s: State, p: int, b: int): Outcome
  {
    if !s.phase.Up() || p == LOGGER || !Home(s.lay, b) then Blocked
    else if b !in s.cache || p !in s.cache[b].waits || s.cache[b].user.Some? then Blocked
    else Next(s.(cache := s.cache[b := s.cache[b].(user := Some(p), waits := s.cache[b].waits - {p})]))
  }

  /** The blocks that the committing process or recovery reads before its next step, in order. */
  function Needs(s: State): seq<int>
  {
    match s.phase
    case WriteLog(t) => Pair(s, t)
    case Install(_, t) => Pair(s, t)
    case WriteHead => [s.lay.start]
    case Erase(_) => [s.lay.start]
    case Down => [s.lay.start]
    case Idle => []
    case Finish => []
  }

  function Pair(s: State, t: int): seq<int>
  {
    if 0 <= t < |s.lh| then [s.lay.start + 1 + t, s.lh[t]] else []
  }

  /** `b` is the next of them. */
  predicate Wants(s: State, b: int)
  {
    var need := Needs(s);
    && !Taken(s, b)
    && ((|need| >= 1 && b == need[0]) || (|need| == 2 && b == need[1] && Taken(s, need[0])))
  }

  /** bread by the committing process or by recovery, up to where it waits for the lock. */
  function LoadStep(s: State, b: int): Outcome
  {
    if Wants(s, b) then GetStep(s, LOGGER, b) else Blocked
  }

  predicate Holds(s: State, p: int, b: int)
  {
    b in s.cache && s.cache[b].user == Some(p)
  }

  function ModifyStep(s: State, p: int, b: int, data: Block): Outcome
  {
    if !s.phase.Up() || p !in s.ops || !Holds(s, p, b) then Blocked
    else Next(s.(cache := s.cache[b := s.cache[b].(data := data, touched := true)]))
  }

  /** log_write (log.c:214-233): absorption when the block is already in the header. */
  function LogWriteStep(s: State, p: int, b: int): Outcome
  {
    if !s.phase.Up() || p !in s.ops || !Holds(s, p, b) then Blocked
    else if |s.lh| >= LOGSIZE || |s.lh| >= s.lay.size - 1 then Panic
    else
      var s' := s.(cache := s.cache[b := s.cache[b].(dirty := true, touched := false)]);
      if b in s.lh then Next(s')
      else Next(s'.(lh := s.lh + [b], ops := s.ops[p := s.ops[p] + 1]))
  }

  function BrelseStep(s: State, p: int, b: int): Outcome
  {
    if !s.phase.Up() || !Holds(s, p, b) || s.cache[b].touched then Blocked
    else Next(s.(cache := s.cache[b := s.cache[b].(user := None)]))
  }

  /** Recycling in bget (bio.c:87-98): only a clean buffer nobody has or waits for loses its block. */
  function EvictStep(s: State, b: int): Outcome
  {
    if b !in s.cache || !Recyclable(s.cache[b]) then Blocked
    else Next(s.(cache := s.cache - {b}))
  }

  predicate HoldsTouched(s: State, p: int)
  {
    exists b :: b in s.cache && s.cache[b].user == Some(p) && s.cache[b].touched
  }

  /** end_op (log.c:146-163): the last operation starts the commit, any other wakes the
      sleepers. */
  function EndStep(s: State, p: int): Outcome
  {
    if !s.phase.Up() || p !in s.ops || HoldsTouched(s, p) then Blocked
    else if s.phase.Committing() then Panic
    else
      var s' := s.(ops := s.ops - {p});
      if s'.ops == map[] then Next(s'.(phase := if |s.lh| > 0 then WriteLog(0) else Finish))
      else Next(s'.(sleepers := {}))
  }

  /** One block of write_log (log.c:182-189). */
  function WriteLogTick(s: State, t: int): Outcome
  {
    if !(0 <= t < |s.lh| && 0 <= s.lay.start + 1 + t < |s.disk| && 0 <= s.lh[t] < |s.disk|) then Panic
    else if !Ready(s, s.lay.start + 1 + t) || !Ready(s, s.lh[t]) then Blocked
    else
      var s' := Leave(Put(s, s.lay.start + 1 + t, s.cache[s.lh[t]].data), s.lh[t]);
      Next(s'.(phase := if t + 1 < |s.lh| then WriteLog(t + 1) else WriteHead))
  }

  /** write_head at log.c:197: the commit point. */
  function WriteHeadTick(s: State): Outcome
  {
    if !(0 <= s.lay.start < |s.disk|) then Panic
    else if !Ready(s, s.lay.start) then Blocked
    else if |s.lh| > LOGSIZE || |s.cache[s.lay.start].data.words| != WORDS then Panic
    else Next(Put(s, s.lay.start, WithEntries(s.cache[s.lay.start].data, s.lh)).(phase := Install(false, 0)))
  }

  /** One block of install_trans (log.c:74-81), for commit and for recovery. */
  function CopyHome(s: State, t: int, next: Phase): Outcome
  {
    if !(0 <= t < |s.lh| && 0 <= s.lay.start + 1 + t < |s.disk| && 0 <= s.lh[t] < |s.disk|) then Panic
    else if !Ready(s, s.lay.start + 1 + t) || !Ready(s, s.lh[t]) then Blocked
    else Next(Leave(Put(s, s.lh[t], s.cache[s.lay.start + 1 + t].data), s.lay.start + 1 + t).(phase := next))
  }

  /** `log.lh.n = 0; write_head()` (log.c:120-121 and log.c:199-200). */
  function EraseHead(s: State, next: Phase): Outcome
  {
    if !(0 <= s.lay.start < |s.disk|) then Panic
    else if !Ready(s, s.lay.start) then Blocked
    else if |s.cache[s.lay.start].data.words| != WORDS then Panic
    else Next(Put(s, s.lay.start, WithEntries(s.cache[s.lay.start].data, [])).(lh := [], phase := next))
  }

  /** read_head (log.c:86-96). A count that does not fit the array of the header is a panic here. */
  function ReadHeadTick(s: State): Outcome
  {
    if !(0 <= s.lay.start < |s.disk|) then Panic
    else if !Ready(s, s.lay.start) then Blocked
    else if !GoodHeader(s.lay, s.cache[s.lay.start].data) then Panic
    else
      var lh := Entries(s.cache[s.lay.start].data);
      Next(Leave(s, s.lay.start).(lh := lh, phase := if |lh| > 0 then Install(true, 0) else Erase(true)))
  }

  /** One block write of commit (log.c:193-202) or recover_from_log (log.c:116-122). */
  function TickStep(s: State): Outcome
  {
    match s.phase
    case Idle => Blocked
    case WriteLog(t) => WriteLogTick(s, t)
    case WriteHead => WriteHeadTick(s)
    case Install(r, t) => CopyHome(s, t, if t + 1 < |s.lh| then Install(r, t + 1) else Erase(r))
    case Erase(r) => EraseHead(s, if r then Idle else Finish)
    case Finish => Next(s.(phase := Idle, sleepers := {}))
    case Down => ReadHeadTick(s)
  }

  function CrashStep(s: State): State
  {
    s.(cache := map[], lh := [], phase := Down, ops := map[], sleepers := {})
  }

  /** What one label does; `Blocked` when it is not possible now. The rules that the
      clients of the log keep are guards of the steps: only blocks outside the log are read
      and logged, data is changed only between begin_op and end_op, and a changed buffer is
      logged before it is released and before end_op. */
  function Step(s: State, l: Label): Outcome
  {
    match l
    case Begin(p) => BeginStep(s, p)
    case Get(p, b) => if MayGet(s, p, b) then GetStep(s, p, b) else Blocked
    case Bread(p, b) => BreadStep(s, p, b)
    case Modify(p, b, data) => ModifyStep(s, p, b, data)
    case LogWrite(p, b) => LogWriteStep(s, p, b)
    case Brelse(p, b) => BrelseStep(s, p, b)
    case Load(b) => LoadStep(s, b)
    case Evict(b) => EvictStep(s, b)
    case End(p) => EndStep(s, p)
    case Tick => TickStep(s)
    case Crash => Next(CrashStep(s))
  }

  /** The outcome of a whole run: the first label that is not possible, or panics, ends it. */
  function Run(s: State, ls: seq<Label>): Outcome
    decreases |ls|
  {
    if ls == [] then Next(s)
    else
      var o := Step(s, ls[0]);
      if o.Next? then Run(o.s, ls[1..]) else o
  }
}
