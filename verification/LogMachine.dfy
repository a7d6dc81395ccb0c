/** Whole runs of the logging layer: system calls bracketed by `begin_op` and
    `end_op`, group commit, buffers loaded and recycled by the cache, and a crash
    possible before and after every single block write, recovery included. */
module LogMachine {
  import opened Blocks
  import Lists
  import opened RedoLog

  datatype Buf = Buf(data: Block, dirty: bool)

  /** An operation between `begin_op` and `end_op`; `added` counts the log entries that its
      `log_write`s have added. */
  datatype Op = Op(id: nat, added: nat)

  datatype Panic = TooBig | LogCommitting

  datatype Phase =
    | Running
    | Committing(from: LogDisk, data: seq<Block>, k: nat)  // `k` writes of commit() done
    | Recovering(from: LogDisk, k: nat)                    // `k` writes of recover_from_log() done
    | Panicked(why: Panic)

  /** A `log_write` of block `bno` by operation `op`. */
  datatype Tagged = Tagged(op: nat, bno: int, data: Block)

  /** The writes of one commit; its operations are those numbered `lo..hi`. */
  datatype Group = Group(lo: nat, hi: nat, writes: seq<Tagged>)

  /** What has happened: operations so far, committed groups, writes not yet committed. */
  datatype History = History(nextOp: nat, born: nat, groups: seq<Group>, pending: seq<Tagged>)

  datatype State = State(size: nat, disk: LogDisk, cache: map<int, Buf>, lh: seq<int>,
                         ops: seq<Op>, phase: Phase, hist: History)

  datatype Event =
    | Begin
    | LogWrite(i: nat, bno: int, data: Block)
    | End(i: nat)
    | DiskWrite
    | Finish
    | Load(bno: int)
    | Evict(bno: int)
    | Crash

  // ---------- steps ----------

  /** The content that the file system sees: the cached buffer, else the disk. */
  function View(s: State, b: int): Block
    requires b in s.disk.home
  {
    if b in s.cache then s.cache[b].data else s.disk.home[b]
  }

  predicate Enabled(s: State, e: Event) {
    match e
    case Begin =>
      // else begin_op sleeps
      s.phase.Running? && |s.lh| + (|s.ops| + 1) * MAXOPBLOCKS <= LOGSIZE
    case LogWrite(i, b, _) => !s.phase.Panicked? && i < |s.ops| && b in s.disk.home
    case End(i) => !s.phase.Panicked? && i < |s.ops| && forall j :: 0 <= j < |s.lh| ==> s.lh[j] in s.disk.home
    case DiskWrite =>
      || (s.phase.Committing? && |s.lh| == |s.phase.data| && s.phase.k < |CommitWrites(s.lh, s.phase.data)|)
      || (s.phase.Recovering? && s.phase.from.Valid() && s.phase.k < |RecoveryWrites(s.phase.from)|)
    case Finish =>
      || (s.phase.Committing? && |s.lh| == |s.phase.data| && s.phase.k == |CommitWrites(s.lh, s.phase.data)|)
      || (s.phase.Recovering? && s.phase.from.Valid() && s.phase.k == |RecoveryWrites(s.phase.from)|)
    case Load(b) => !s.phase.Panicked? && b in s.disk.home && b !in s.cache
    case Evict(b) => b in s.cache && !s.cache[b].dirty
    case Crash => s.disk.Valid()
  }

  /** `log_write`: absorb, or append to the in-memory header. */
  function DoLogWrite(s: State, i: nat, b: int, x: Block): State
    requires i < |s.ops|
  {
    if |s.lh| >= LOGSIZE || |s.lh| >= s.size - 1 then s.(phase := Panicked(TooBig))
    else
      s.(lh := if b in s.lh then s.lh else s.lh + [b],
         cache := s.cache[b := Buf(x, true)],
         ops := if b in s.lh then s.ops else s.ops[i := s.ops[i].(added := s.ops[i].added + 1)],
         hist := s.hist.(pending := s.hist.pending + [Tagged(s.ops[i].id, b, x)]))
  }

  /** `end_op`: the last operation starts the commit. */
  function DoEnd(s: State, i: nat): State
    requires Enabled(s, End(i))
  {
    var ops := s.ops[..i] + s.ops[i + 1..];
    if s.phase.Committing? then s.(phase := Panicked(LogCommitting))
    else if ops == [] then
      s.(ops := [],
         phase := Committing(s.disk, seq(|s.lh|, j requires 0 <= j < |s.lh| => View(s, s.lh[j])), 0))
    else s.(ops := ops)
  }

  /** The next block write of commit() or recover_from_log(). The write that sets a
      non-empty header is the commit point. */
  function DoDiskWrite(s: State): State
    requires Enabled(s, DiskWrite)
  {
    var w := if s.phase.Committing? then CommitWrites(s.lh, s.phase.data)[s.phase.k]
             else RecoveryWrites(s.phase.from)[s.phase.k];
    var h := s.hist;
    s.(disk := Apply1(s.disk, w),
       cache := if w.HomeW? && w.bno in s.cache then s.cache[w.bno := Buf(w.data, false)] else s.cache,
       phase := s.phase.(k := s.phase.k + 1),
       hist := if w.HeadW? && w.bs != []
               then h.(born := h.nextOp, groups := h.groups + [Group(h.born, h.nextOp, h.pending)], pending := [])
               else h)
  }

  function Do(s: State, e: Event): State
    requires Enabled(s, e)
  {
    match e
    case Begin =>
      s.(ops := s.ops + [Op(s.hist.nextOp, 0)], hist := s.hist.(nextOp := s.hist.nextOp + 1))
    case LogWrite(i, b, x) => DoLogWrite(s, i, b, x)
    case End(i) => DoEnd(s, i)
    case DiskWrite => DoDiskWrite(s)
    case Finish => s.(phase := Running, lh := [])
    case Load(b) => s.(cache := s.cache[b := Buf(s.disk.home[b], false)])
    case Evict(b) => s.(cache := s.cache - {b})
    case Crash =>
      s.(cache := map[], lh := [], ops := [], phase := Recovering(s.disk, 0),
         hist := s.hist.(born := s.hist.nextOp, pending := []))
  }

  // ---------- the meaning of a run ----------

  function Replay(m: map<int, Block>, ts: seq<Tagged>): map<int, Block> {
    if ts == [] then m
    else Replay(m, ts[..|ts| - 1])[ts[|ts| - 1].bno := ts[|ts| - 1].data]
  }

  function ReplayGroups(m: map<int, Block>, gs: seq<Group>): map<int, Block> {
    if gs == [] then m else Replay(ReplayGroups(m, gs[..|gs| - 1]), gs[|gs| - 1].writes)
  }

  ghost function ViewMap(s: State): map<int, Block> {
    map b | b in s.disk.home :: View(s, b)
  }

  /** Machine switched on over disk `d`: `initlog` starts recovery. */
  function Boot(d: LogDisk, size: nat): State {
    State(size, d, map[], [], [], Recovering(d, 0), History(0, 0, [], []))
  }

  predicate DiskOk(d: LogDisk, size: nat) {
    d.Valid() && forall i :: 0 <= i < size - 1 ==> i in d.slot
  }

  ghost predicate GroupOk(g: Group) {
    forall j :: 0 <= j < |g.writes| ==> g.lo <= g.writes[j].op < g.hi
  }

  /** Operations of different groups are numbered apart, and apart from the pending ones. */
  ghost predicate HistOk(s: State) {
    var h := s.hist;
    && h.born <= h.nextOp
    && (forall j :: 0 <= j < |h.pending| ==> h.born <= h.pending[j].op < h.nextOp)
    && (forall j :: 0 <= j < |s.ops| ==> h.born <= s.ops[j].id < h.nextOp)
    && (forall a :: 0 <= a < |h.groups| ==> h.groups[a].hi <= h.born && GroupOk(h.groups[a]))
    && (forall a, c :: 0 <= a < c < |h.groups| ==> h.groups[a].hi <= h.groups[c].lo)
    && (s.phase.Committing? ==> s.ops == [])
  }

  /** Clean buffers agree with the disk. */
  ghost predicate CacheOk(s: State) {
    forall b :: b in s.cache ==>
                  b in s.disk.home && (!s.cache[b].dirty ==> s.cache[b].data == s.disk.home[b])
  }

  ghost predicate RunningOk(s: State) {
    && s.disk.head == [] && CacheOk(s)
    && Loggable(s.disk, s.lh)
    && (forall b :: b in s.cache && s.cache[b].dirty <==> b in s.lh)
    && ViewMap(s) == Replay(s.disk.home, s.hist.pending)
  }

  /** The `i`-th logged buffer is pinned with its content until it is installed. */
  ghost predicate Pinned(s: State, i: int)
    requires s.phase.Committing? && |s.lh| == |s.phase.data| && 0 <= i < |s.lh|
  {
    var b := s.lh[i];
    if s.phase.k <= |s.lh| + 1 + i then b in s.cache && s.cache[b] == Buf(s.phase.data[i], true)
    else b in s.disk.home && s.disk.home[b] == s.phase.data[i] && (b in s.cache ==> !s.cache[b].dirty)
  }

  /** The first `k` writes of commit() are on disk. */
  ghost predicate CommitDiskOk(s: State)
    requires s.phase.Committing?
  {
    var d, data, k := s.phase.from, s.phase.data, s.phase.k;
    && d.Valid() && d.head == [] && Loggable(d, s.lh) && |s.lh| == |data|
    && k <= |CommitWrites(s.lh, data)|
    && s.disk == Apply(d, CommitWrites(s.lh, data)[..k])
  }

  ghost predicate CommitCacheOk(s: State)
    requires s.phase.Committing? && |s.lh| == |s.phase.data|
  {
    && CacheOk(s)
    && (forall b :: b in s.cache && s.cache[b].dirty ==> b in s.lh)
    && (forall i :: 0 <= i < |s.lh| ==> Pinned(s, i))
  }

  ghost predicate CommittingOk(s: State)
    requires s.phase.Committing?
  {
    && CommitDiskOk(s) && CommitCacheOk(s)
    && if s.phase.k <= |s.lh|
       then Overwrite(s.phase.from.home, s.lh, s.phase.data) == Replay(s.phase.from.home, s.hist.pending)
       else s.hist.pending == []
  }

  ghost predicate RecoveringOk(s: State)
    requires s.phase.Recovering?
  {
    && s.ops == [] && s.lh == [] && s.hist.pending == []
    && s.phase.from.Valid() && s.phase.k <= |RecoveryWrites(s.phase.from)|
    && s.disk == Apply(s.phase.from, RecoveryWrites(s.phase.from)[..s.phase.k])
    && CacheOk(s) && forall b :: b in s.cache ==> !s.cache[b].dirty
  }

  /** What is on disk and in the cache, phase by phase. */
  ghost predicate PhaseOk(s: State) {
    match s.phase
    case Running => RunningOk(s)
    case Committing(_, _, _) => CommittingOk(s)
    case Recovering(_, _) => RecoveringOk(s)
    case Panicked(why) => why == TooBig && CacheOk(s)
  }

  /** `init` is what was durable when the machine was first switched on. */
  ghost predicate Inv(s: State, init: map<int, Block>) {
    && DiskOk(s.disk, s.size) && HistOk(s) && PhaseOk(s)
    && DurableMap(s.disk) == ReplayGroups(init, s.hist.groups)
  }

  // ---------- every step keeps the invariant ----------

  lemma KeepHist(s: State, e: Event)
    requires HistOk(s) && Enabled(s, e) && (s.ops != [] ==> s.phase.Running? || s.phase.Panicked?)
    ensures HistOk(Do(s, e))
  {
  }

  /** A write is logged: no panic. */
  ghost predicate Logs(s: State, i: nat, b: int, x: Block) {
    && DiskOk(s.disk, s.size) && RunningOk(s) && s.phase.Running? && Enabled(s, LogWrite(i, b, x))
    && !DoLogWrite(s, i, b, x).phase.Panicked?
  }

  lemma LogWriteHeader(s: State, i: nat, b: int, x: Block)
    requires Logs(s, i, b, x)
    ensures Loggable(s.disk, DoLogWrite(s, i, b, x).lh)
    ensures forall c :: c in DoLogWrite(s, i, b, x).lh <==> c in s.lh || c == b
  {
    assert b !in s.lh ==> Lists.Distinct(s.lh + [b]);
  }

  lemma LogWriteCache(s: State, i: nat, b: int, x: Block)
    requires Logs(s, i, b, x)
    ensures CacheOk(DoLogWrite(s, i, b, x))
    ensures var t := DoLogWrite(s, i, b, x); forall c :: c in t.cache && t.cache[c].dirty <==> c in s.lh || c == b
  {
  }

  /** The logged write joins the pending ones, and the view. */
  lemma LogWriteView(s: State, i: nat, b: int, x: Block)
    requires Logs(s, i, b, x)
    ensures var t := DoLogWrite(s, i, b, x); ViewMap(t) == Replay(t.disk.home, t.hist.pending)
  {
    var t := DoLogWrite(s, i, b, x);
    assert t.hist.pending[..|t.hist.pending| - 1] == s.hist.pending;
    assert ViewMap(t) == ViewMap(s)[b := x];
  }

  lemma KeepLogWrite(s: State, init: map<int, Block>, i: nat, b: int, x: Block)
    requires Inv(s, init) && Enabled(s, LogWrite(i, b, x))
    ensures Inv(DoLogWrite(s, i, b, x), init)
  {
    KeepHist(s, LogWrite(i, b, x));
    if !DoLogWrite(s, i, b, x).phase.Panicked? {
      LogWriteHeader(s, i, b, x);
      LogWriteCache(s, i, b, x);
      LogWriteView(s, i, b, x);
    }
  }

  /** The snapshot that commit() will log is the file system's current view. */
  lemma SnapshotIsView(s: State, data: seq<Block>)
    requires DiskOk(s.disk, s.size) && RunningOk(s)
    requires |data| == |s.lh| && forall j :: 0 <= j < |s.lh| ==> data[j] == View(s, s.lh[j])
    ensures Overwrite(s.disk.home, s.lh, data) == ViewMap(s)
  {
    OverwriteAt(s.disk.home, s.lh, data);
    OverwriteKeys(s.disk.home, s.lh, data);
    var m := Overwrite(s.disk.home, s.lh, data);
    forall b | b in s.disk.home ensures m[b] == View(s, b) {
      if b in s.lh {
        var j :| 0 <= j < |s.lh| && s.lh[j] == b;
        assert m[s.lh[j]] == data[j];
      }
    }
  }

  lemma StartCommitCache(s: State, i: nat)
    requires RunningOk(s) && s.phase.Running? && Enabled(s, End(i)) && |s.ops| == 1
    ensures CommitCacheOk(DoEnd(s, i))
  {
    var t := DoEnd(s, i);
    forall j | 0 <= j < |t.lh| ensures Pinned(t, j) { assert t.lh[j] in s.cache; }
  }

  lemma StartCommit(s: State, i: nat)
    requires DiskOk(s.disk, s.size) && s.phase.Running? && RunningOk(s) && Enabled(s, End(i)) && |s.ops| == 1
    ensures PhaseOk(DoEnd(s, i))
  {
    var t := DoEnd(s, i);
    StartCommitCache(s, i);
    SnapshotIsView(s, t.phase.data);
    assert CommitWrites(t.lh, t.phase.data)[..0] == [];
  }

  lemma KeepEnd(s: State, init: map<int, Block>, i: nat)
    requires Inv(s, init) && Enabled(s, End(i))
    ensures Inv(DoEnd(s, i), init)
  {
    var t := DoEnd(s, i);
    KeepHist(s, End(i));
    if |s.ops| == 1 { StartCommit(s, i); } else { assert ViewMap(t) == ViewMap(s); }
  }

  lemma CommitStepDisk(s: State)
    requires s.phase.Committing? && CommitDiskOk(s) && DiskOk(s.disk, s.size) && Enabled(s, DiskWrite)
    ensures CommitDiskOk(DoDiskWrite(s)) && DiskOk(DoDiskWrite(s).disk, s.size)
    ensures DurableMap(DoDiskWrite(s).disk) == DurableAt(s.phase.from, s.lh, s.phase.data, s.phase.k + 1)
    ensures DurableMap(s.disk) == DurableAt(s.phase.from, s.lh, s.phase.data, s.phase.k)
  {
    var d, data, k := s.phase.from, s.phase.data, s.phase.k;
    var w := CommitWrites(s.lh, data)[k];
    ApplyStep(d, CommitWrites(s.lh, data), k, s.disk);
    CommitDurable(d, s.lh, data, k, s.disk);
    CommitDurable(d, s.lh, data, k + 1, Apply1(s.disk, w));
    MoreSlots(s.disk, w);
  }

  lemma MoreSlots(d: LogDisk, w: Write)
    ensures forall i :: i in d.slot ==> i in Apply1(d, w).slot
  {
  }

  /** Installing a block unpins its buffer; no other buffer changes. */
  lemma CommitStepCache(s: State)
    requires s.phase.Committing? && |s.lh| == |s.phase.data| && CommitCacheOk(s) && Enabled(s, DiskWrite)
    requires Lists.Distinct(s.lh)
    ensures CommitCacheOk(DoDiskWrite(s))
  {
    var t := DoDiskWrite(s);
    CommitWriteAt(s.lh, s.phase.data, s.phase.k);
    forall i | 0 <= i < |s.lh| ensures Pinned(t, i) { assert Pinned(s, i); }
  }

  lemma KeepCommitWrite(s: State, init: map<int, Block>)
    requires Inv(s, init) && s.phase.Committing? && Enabled(s, DiskWrite)
    ensures Inv(DoDiskWrite(s), init)
    ensures DurableMap(DoDiskWrite(s).disk) ==
            if s.phase.k == |s.lh| then Replay(DurableMap(s.disk), s.hist.pending) else DurableMap(s.disk)
  {
    KeepHist(s, DiskWrite);
    CommitStepDisk(s);
    CommitStepCache(s);
    CommitWriteAt(s.lh, s.phase.data, s.phase.k);
    assert DoDiskWrite(s).hist.groups[..|s.hist.groups|] == s.hist.groups;
  }

  lemma RecoveryCache(s: State)
    requires s.phase.Recovering? && RecoveringOk(s) && Enabled(s, DiskWrite)
    ensures CacheOk(DoDiskWrite(s)) && forall b :: b in DoDiskWrite(s).cache ==> !DoDiskWrite(s).cache[b].dirty
  {
  }

  lemma KeepRecoveryWrite(s: State, init: map<int, Block>)
    requires Inv(s, init) && s.phase.Recovering? && Enabled(s, DiskWrite)
    ensures Inv(DoDiskWrite(s), init)
  {
    KeepHist(s, DiskWrite);
    RecoveryCache(s);
    RecoveryStep(s.phase.from, s.phase.k);
  }

  lemma AllInstalled(s: State)
    requires s.phase.Committing? && CommittingOk(s) && Enabled(s, Finish)
    ensures forall b :: b in s.cache ==> !s.cache[b].dirty
  {
    forall b | b in s.cache ensures !s.cache[b].dirty {
      if b in s.lh {
        var i :| 0 <= i < |s.lh| && s.lh[i] == b;
        assert Pinned(s, i);
      }
    }
  }

  lemma KeepCommitDone(s: State, init: map<int, Block>)
    requires Inv(s, init) && s.phase.Committing? && Enabled(s, Finish)
    ensures Inv(Do(s, Finish), init)
  {
    var t := Do(s, Finish);
    CommitAtomic(s.phase.from, s.lh, s.phase.data, s.phase.k);
    AllInstalled(s);
    assert ViewMap(t) == t.disk.home;
  }

  lemma KeepRecoveryDone(s: State, init: map<int, Block>)
    requires Inv(s, init) && s.phase.Recovering? && Enabled(s, Finish)
    ensures Inv(Do(s, Finish), init)
  {
    RecoveryAtomic(s.phase.from, s.phase.k);
    assert ViewMap(Do(s, Finish)) == s.disk.home;
  }

  /** Loading a block or recycling an unpinned buffer changes no content. */
  lemma CacheMoveView(s: State, e: Event)
    requires CacheOk(s) && Enabled(s, e) && (e.Load? || e.Evict?)
    ensures CacheOk(Do(s, e)) && ViewMap(Do(s, e)) == ViewMap(s)
  {
  }

  lemma CacheMovePinned(s: State, e: Event)
    requires s.phase.Committing? && CommittingOk(s) && Enabled(s, e) && (e.Load? || e.Evict?)
    ensures CommittingOk(Do(s, e))
  {
    CacheMoveView(s, e);
    forall i | 0 <= i < |s.lh| ensures Pinned(Do(s, e), i) { assert Pinned(s, i); }
  }

  lemma KeepCacheMove(s: State, init: map<int, Block>, e: Event)
    requires Inv(s, init) && Enabled(s, e) && (e.Load? || e.Evict?)
    ensures Inv(Do(s, e), init)
  {
    KeepHist(s, e);
    CacheMoveView(s, e);
    if s.phase.Committing? { CacheMovePinned(s, e); }
  }

  lemma Keep(s: State, init: map<int, Block>, e: Event)
    requires Inv(s, init) && Enabled(s, e)
    ensures Inv(Do(s, e), init)
  {
    match e
    case Begin =>
    case LogWrite(i, b, x) => KeepLogWrite(s, init, i, b, x);
    case End(i) => KeepEnd(s, init, i);
    case DiskWrite =>
      if s.phase.Recovering? { KeepRecoveryWrite(s, init); } else { KeepCommitWrite(s, init); }
    case Finish => if s.phase.Committing? { KeepCommitDone(s, init); } else { KeepRecoveryDone(s, init); }
    case Load(b) => KeepCacheMove(s, init, e);
    case Evict(b) => KeepCacheMove(s, init, e);
    case Crash => assert RecoveryWrites(s.disk)[..0] == [];
  }

  // ---------- runs ----------

  predicate CanRun(s: State, es: seq<Event>)
    decreases |es|
  {
    es == [] || (Enabled(s, es[0]) && CanRun(Do(s, es[0]), es[1..]))
  }

  function Exec(s: State, es: seq<Event>): State
    requires CanRun(s, es)
    decreases |es|
  {
    if es == [] then s else Exec(Do(s, es[0]), es[1..])
  }

  lemma {:induction false} InvOverRun(s: State, init: map<int, Block>, es: seq<Event>)
    requires Inv(s, init) && CanRun(s, es)
    ensures Inv(Exec(s, es), init)
    decreases |es|
  {
    if es != [] {
      Keep(s, init, es[0]);
      InvOverRun(Do(s, es[0]), init, es[1..]);
    }
  }

  lemma BootInv(d: LogDisk, size: nat)
    requires DiskOk(d, size)
    ensures Inv(Boot(d, size), DurableMap(d))
  {
    assert RecoveryWrites(d)[..0] == [];
  }

  /** While a commit is under way the file system already sees the whole transaction. */
  lemma CommittingView(s: State)
    requires s.phase.Committing? && CommittingOk(s) && DiskOk(s.disk, s.size)
    ensures ViewMap(s) == Overwrite(s.phase.from.home, s.lh, s.phase.data)
  {
    var d, data, k := s.phase.from, s.phase.data, s.phase.k;
    CommitOutside(d, s.lh, data, k);
    OverwriteAt(d.home, s.lh, data);
    OverwriteKeys(d.home, s.lh, data);
    var m := Overwrite(d.home, s.lh, data);
    forall b | b in s.disk.home ensures View(s, b) == m[b] {
      if b in s.lh {
        var i :| 0 <= i < |s.lh| && s.lh[i] == b;
        assert Pinned(s, i) && m[s.lh[i]] == data[i];
      }
    }
  }

  /** Except during recovery, readers see everything committed plus everything pending. */
  lemma ReadersSee(s: State, init: map<int, Block>)
    requires Inv(s, init) && (s.phase.Running? || s.phase.Committing?)
    ensures ViewMap(s) == Replay(ReplayGroups(init, s.hist.groups), s.hist.pending)
  {
    if s.phase.Running? {
      assert DurableMap(s.disk) == s.disk.home;
    } else {
      CommittingView(s);
      CommitAtomic(s.phase.from, s.lh, s.phase.data, s.phase.k);
    }
  }

  /** An operation's writes all fall into one commit group, or are all still pending. */
  lemma OneGroupPerOperation(s: State, init: map<int, Block>, a: nat, c: nat, j: nat, l: nat)
    requires Inv(s, init) && a < |s.hist.groups| && c < |s.hist.groups|
    requires j < |s.hist.groups[a].writes|
    ensures l < |s.hist.pending| ==> s.hist.groups[a].writes[j].op != s.hist.pending[l].op
    ensures l < |s.hist.groups[c].writes| && a != c ==>
              s.hist.groups[a].writes[j].op != s.hist.groups[c].writes[l].op
  {
    assert GroupOk(s.hist.groups[a]) && GroupOk(s.hist.groups[c]);
    assert a < c ==> s.hist.groups[a].hi <= s.hist.groups[c].lo;
    assert c < a ==> s.hist.groups[c].hi <= s.hist.groups[a].lo;
  }

  /** Every run, with crashes anywhere: on disk, once the log is replayed, are exactly
      the committed groups, in order, on top of what was durable at the start;
      the "log.committing" panic is never reached and an open operation excludes a commit. */
  lemma RunsAreAtomic(d: LogDisk, size: nat, es: seq<Event>)
    requires DiskOk(d, size) && CanRun(Boot(d, size), es)
    ensures var s := Exec(Boot(d, size), es);
            var committed := ReplayGroups(DurableMap(d), s.hist.groups);
            && s.disk.Valid() && DurableMap(s.disk) == committed
            && (s.phase.Running? ==> s.disk.home == committed)
            && (s.phase.Running? || s.phase.Committing? ==>
                  ViewMap(s) == Replay(committed, s.hist.pending))
            && (s.ops != [] ==> s.phase.Running? || s.phase.Panicked?)
            && s.phase != Panicked(LogCommitting)
  {
    BootInv(d, size);
    InvOverRun(Boot(d, size), DurableMap(d), es);
    var s := Exec(Boot(d, size), es);
    if s.phase.Running? || s.phase.Committing? { ReadersSee(s, DurableMap(d)); }
    assert s.phase.Running? ==> DurableMap(s.disk) == s.disk.home;
  }
}
