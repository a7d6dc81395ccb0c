/** thread_safe_pread and thread_safe_pwrite of uthread.c: concurrent threads around
    one readers-writer lock, where a positional read is one step (readi under the
    inode lock) and a positional write is one step per filewrite transaction, with
    the inode unlocked in between. What RwLock assumes of the threads is assumed here. */
module GuardedFile {
  import opened RwLock
  import FileOps
  import FileSystem

  datatype Job = PRead(off: int, n: int) | PWrite(off: int, data: seq<int>)

  datatype Result = Error | Bytes(bytes: seq<int>)

  /** A finished pread: its arguments, its result, and how many pwrites had finished by then. */
  datatype ReadDone = ReadDone(off: int, n: int, result: Result, after: nat)

  /** `stable` is the content after the finished pwrites `writes`. */
  datatype State = State(lock: Rw, bytes: seq<int>, jobs: map<int, Job>, at: map<int, int>, didRead: set<int>,
                         stable: seq<int>, writes: seq<Job>, seen: seq<ReadDone>)

  datatype Event = Start(t: int, job: Job) | LockStep(t: int) | ReadStep(t: int) | ChunkStep(t: int)

  predicate JobOk(j: Job) { j.off >= 0 && (j.PRead? ==> j.n >= 0) }

  /** pread of `n` bytes at `off` from content `c`. */
  function ReadOf(c: seq<int>, off: int, n: int): Result
    requires 0 <= off && 0 <= n
  {
    if off > |c| then Error else Bytes(FileSystem.Slice(c, off, n))
  }

  /** A whole pwrite applied to content `c`; see FileOps.FileWriteIs for what it amounts to. */
  function WriteOf(c: seq<int>, j: Job): seq<int> {
    if j.PWrite? && j.off >= 0 then FileOps.WriteFrom(c, j.off, j.data, 0).0 else c
  }

  function Replay(c: seq<int>, ws: seq<Job>): seq<int> {
    if ws == [] then c else WriteOf(Replay(c, ws[..|ws| - 1]), ws[|ws| - 1])
  }

  /** The next transaction of thread `t`'s pwrite is still to come. */
  predicate Unfinished(s: State, t: int) {
    && t in s.jobs && t in s.at && s.jobs[t].PWrite?
    && 0 <= s.at[t] < |s.jobs[t].data|
    && !FileOps.ChunkFails(s.bytes, s.jobs[t].off, s.jobs[t].data, s.at[t])
  }

  predicate Enabled(s: State, e: Event) {
    e.t in s.lock.pc &&
    match e
    case Start(t, j) => s.lock.pc[t].Idle? && JobOk(j)
    case LockStep(t) =>
      && !s.lock.pc[t].Idle?
      && (s.lock.pc[t].Reading? ==> t in s.didRead)
      && (s.lock.pc[t].Writing? ==> t in s.jobs && !Unfinished(s, t))
    case ReadStep(t) => s.lock.pc[t].Reading? && t !in s.didRead && t in s.jobs && s.jobs[t].PRead? && JobOk(s.jobs[t])
    case ChunkStep(t) => s.lock.pc[t].Writing? && Unfinished(s, t) && JobOk(s.jobs[t])
  }

  function Do(s: State, e: Event): State
    requires Enabled(s, e)
  {
    match e
    case Start(t, j) =>
      s.(lock := Next(s.lock, t, j.PWrite?), jobs := s.jobs[t := j], at := s.at[t := 0], didRead := s.didRead - {t})
    case LockStep(t) =>
      var s1 := s.(lock := Next(s.lock, t, false));
      if s.lock.pc[t].Writing? then s1.(stable := s.bytes, writes := s.writes + [s.jobs[t]]) else s1
    case ReadStep(t) =>
      var j := s.jobs[t];
      s.(didRead := s.didRead + {t},
         seen := s.seen + [ReadDone(j.off, j.n, ReadOf(s.bytes, j.off, j.n), |s.writes|)])
    case ChunkStep(t) =>
      var j, i := s.jobs[t], s.at[t];
      var n1 := FileOps.ChunkLength(j.data, i);
      s.(bytes := FileSystem.Splice(s.bytes, j.off + i, j.data[i..i + n1]), at := s.at[t := i + n1])
  }

  function Init(threads: set<int>, bytes: seq<int>): State {
    State(RwLock.Init(threads), bytes, map[], map[], {}, bytes, [], [])
  }

  // ---------- invariant ----------

  /** On its way to a write. */
  predicate ToWrite(p: Pc) { p.W1? || p.W1q? || p.W2? || p.W2q? }

  ghost predicate WriterOk(s: State, t: int) {
    && t in s.lock.pc
    && (ToWrite(s.lock.pc[t]) ==> t in s.jobs && t in s.at && s.jobs[t].PWrite? && s.jobs[t].off >= 0 && s.at[t] == 0)
    && (s.lock.pc[t].Writing? ==>
          && t in s.jobs && t in s.at && s.jobs[t].PWrite? && s.jobs[t].off >= 0
          && 0 <= s.at[t] <= |s.jobs[t].data|
          && FileOps.WriteFrom(s.bytes, s.jobs[t].off, s.jobs[t].data, s.at[t])
             == FileOps.WriteFrom(s.stable, s.jobs[t].off, s.jobs[t].data, 0))
  }

  ghost predicate ReadOk(r: ReadDone, init: seq<int>, ws: seq<Job>) {
    r.off >= 0 && r.n >= 0 && r.after <= |ws| && r.result == ReadOf(Replay(init, ws[..r.after]), r.off, r.n)
  }

  ghost predicate Inv(s: State, init: seq<int>) {
    && RwLock.Inv(s.lock)
    && s.stable == Replay(init, s.writes)
    && ((forall t :: t in s.lock.pc ==> !s.lock.pc[t].Writing?) ==> s.bytes == s.stable)
    && (forall t :: t in s.lock.pc ==> WriterOk(s, t))
    && (forall i :: 0 <= i < |s.seen| ==> ReadOk(s.seen[i], init, s.writes))
  }

  /** A step that unlocks a semaphore. */
  predicate Unlocks(p: Pc) { p.R5? || p.R6? || p.E3? || p.E4? || p.V1? || p.V2? }

  /** Without an unlock, only the thread itself moves. */
  lemma AloneMoves(s: Rw, u: int, write: bool)
    requires u in s.pc && !Unlocks(s.pc[u])
    ensures Next(s, u, write).pc.Keys == s.pc.Keys
    ensures forall v :: v in s.pc && v != u ==> v in Next(s, u, write).pc && Next(s, u, write).pc[v] == s.pc[v]
  {
  }

  /** With one, the first in the queue moves too. */
  lemma UnlockMoves(s: Rw, u: int, write: bool)
    requires u in s.pc && Unlocks(s.pc[u])
    ensures var q := if s.pc[u].R6? || s.pc[u].V2? then s.in_.queue
                     else if s.pc[u].R5? || s.pc[u].E4? then s.mx.queue else s.wrt.queue;
            var pc := if q == [] then s.pc else s.pc[q[0] := Granted(PcOf(s, q[0]))];
            u in Next(s, u, write).pc && Next(s, u, write).pc == pc[u := Next(s, u, write).pc[u]]
  {
    var p := Next(s, u, write).pc[u];
    match s.pc[u]
    case R5 => assert Next(s, u, write).pc == UnlockMx(s).pc[u := p];
    case R6 => assert Next(s, u, write).pc == UnlockIn(s).pc[u := p];
    case E3 => assert Next(s, u, write).pc == UnlockWrt(s).pc[u := p];
    case E4 => assert Next(s, u, write).pc == UnlockMx(s).pc[u := p];
    case V1 => assert Next(s, u, write).pc == UnlockWrt(s).pc[u := p];
    case V2 => assert Next(s, u, write).pc == UnlockIn(s).pc[u := p];
  }

  /** What a lock step of thread `u` does to another thread: nothing, or a grant. */
  lemma OthersMove(s: Rw, u: int, write: bool, v: int)
    requires u in s.pc && v in s.pc && v != u
    ensures v in Next(s, u, write).pc
    ensures Next(s, u, write).pc[v] == s.pc[v] || Next(s, u, write).pc[v] == Granted(s.pc[v])
  {
    if Unlocks(s.pc[u]) { UnlockMoves(s, u, write); } else { AloneMoves(s, u, write); }
  }

  /** Whoever is next to be given a semaphore is one of the threads. */
  predicate HeadsIn(s: Rw) {
    && (s.in_.queue != [] ==> s.in_.queue[0] in s.pc)
    && (s.mx.queue != [] ==> s.mx.queue[0] in s.pc)
    && (s.wrt.queue != [] ==> s.wrt.queue[0] in s.pc)
  }

  lemma Heads(s: Rw)
    requires RwLock.Inv(s)
    ensures HeadsIn(s)
  {
    assert s.in_.queue != [] ==> s.in_.queue[0] in s.in_.queue && QueuedIn(PcOf(s, s.in_.queue[0]));
    assert s.mx.queue != [] ==> s.mx.queue[0] in s.mx.queue && QueuedMx(PcOf(s, s.mx.queue[0]));
    assert s.wrt.queue != [] ==> s.wrt.queue[0] in s.wrt.queue && PcOf(s, s.wrt.queue[0]).W2q?;
  }

  lemma KeysKept(s: Rw, u: int, write: bool)
    requires RwLock.Inv(s) && u in s.pc
    ensures Next(s, u, write).pc.Keys == s.pc.Keys
  {
    Heads(s);
    if Unlocks(s.pc[u]) { UnlockMoves(s, u, write); } else { AloneMoves(s, u, write); }
  }

  /** Whoever becomes the writer finds no writer. */
  lemma NewWriterAlone(s: Rw, u: int, write: bool, t: int)
    requires RwLock.Inv(s) && u in s.pc && t in s.pc && !s.pc[t].Writing?
    requires t in Next(s, u, write).pc && Next(s, u, write).pc[t].Writing?
    ensures forall v :: v in s.pc ==> !s.pc[v].Writing?
  {
  }

  /** How a lock step of a thread that is not writing moves threads to and from writing. */
  lemma LockMoves(s: Rw, t: int, v: int)
    requires RwLock.Inv(s) && t in s.pc && v in s.pc && !s.pc[t].Writing? && !s.pc[t].Idle?
    ensures v in Next(s, t, false).pc
    ensures var p, q := s.pc[v], Next(s, t, false).pc[v];
      (p.Writing? ==> q.Writing?) && (ToWrite(q) ==> ToWrite(p)) && (q.Writing? ==> p.Writing? || ToWrite(p))
  {
    if v != t { OthersMove(s, t, false, v); } else { KeysKept(s, t, false); }
  }

  lemma LockStepWriter(s: State, init: seq<int>, t: int, v: int)
    requires Inv(s, init) && Enabled(s, LockStep(t)) && !s.lock.pc[t].Writing? && v in s.lock.pc
    ensures WriterOk(Do(s, LockStep(t)), v)
    ensures s.lock.pc[v].Writing? ==> Do(s, LockStep(t)).lock.pc[v].Writing?
  {
    LockMoves(s.lock, t, v);
    assert WriterOk(s, v);
    if Next(s.lock, t, false).pc[v].Writing? && !s.lock.pc[v].Writing? { NewWriterAlone(s.lock, t, false, v); }
  }

  /** A lock step that is not the end of a write. */
  lemma KeepLockStep(s: State, init: seq<int>, t: int)
    requires Inv(s, init) && Enabled(s, LockStep(t)) && !s.lock.pc[t].Writing?
    ensures Inv(Do(s, LockStep(t)), init)
  {
    var s' := Do(s, LockStep(t));
    RwLock.Keep(s.lock, t, false);
    KeysKept(s.lock, t, false);
    forall v | v in s.lock.pc ensures WriterOk(s', v) && (s.lock.pc[v].Writing? ==> s'.lock.pc[v].Writing?) {
      LockStepWriter(s, init, t, v);
    }
  }

  lemma KeepStart(s: State, init: seq<int>, t: int, j: Job)
    requires Inv(s, init) && Enabled(s, Start(t, j))
    ensures Inv(Do(s, Start(t, j)), init)
  {
    var s' := Do(s, Start(t, j));
    RwLock.Keep(s.lock, t, j.PWrite?);
    forall v | v in s'.lock.pc ensures WriterOk(s', v) { assert WriterOk(s, v); }
    assert (forall v :: v in s'.lock.pc ==> !s'.lock.pc[v].Writing?) ==>
             forall v :: v in s.lock.pc ==> !s.lock.pc[v].Writing? by {
      assert forall v :: v in s.lock.pc ==> v == t || s'.lock.pc[v] == s.lock.pc[v];
    }
  }

  /** With no transaction to come, the content is that of the whole write. */
  lemma WriteDoneBytes(s: State, t: int)
    requires WriterOk(s, t) && s.lock.pc[t].Writing? && !Unfinished(s, t)
    ensures t in s.jobs && s.bytes == WriteOf(s.stable, s.jobs[t])
  {
    assert FileOps.WriteFrom(s.bytes, s.jobs[t].off, s.jobs[t].data, s.at[t]).0 == s.bytes;
  }

  lemma WriteDoneWriter(s: State, t: int, v: int)
    requires RwLock.Inv(s.lock) && Enabled(s, LockStep(t)) && s.lock.pc[t].Writing? && WriterOk(s, v)
    ensures WriterOk(Do(s, LockStep(t)), v) && !Do(s, LockStep(t)).lock.pc[v].Writing?
  {
    if v != t { Exclusion(s.lock, t, v); }
  }

  lemma WriteDoneReads(s: State, init: seq<int>, j: Job)
    requires forall i :: 0 <= i < |s.seen| ==> ReadOk(s.seen[i], init, s.writes)
    ensures forall i :: 0 <= i < |s.seen| ==> ReadOk(s.seen[i], init, s.writes + [j])
  {
    forall i | 0 <= i < |s.seen| ensures ReadOk(s.seen[i], init, s.writes + [j]) {
      assert ReadOk(s.seen[i], init, s.writes);
      assert (s.writes + [j])[..s.seen[i].after] == s.writes[..s.seen[i].after];
    }
  }

  lemma ReplaySnoc(c: seq<int>, ws: seq<Job>, j: Job)
    ensures Replay(c, ws + [j]) == WriteOf(Replay(c, ws), j)
  {
    assert (ws + [j])[..|ws|] == ws;
  }

  /** The end of a write: its effect, all at once, becomes part of the history. */
  lemma KeepWriteDone(s: State, init: seq<int>, t: int)
    requires Inv(s, init) && Enabled(s, LockStep(t)) && s.lock.pc[t].Writing?
    ensures Inv(Do(s, LockStep(t)), init)
    ensures Do(s, LockStep(t)).stable == WriteOf(s.stable, s.jobs[t])
  {
    var s' := Do(s, LockStep(t));
    RwLock.Keep(s.lock, t, false);
    assert WriterOk(s, t);
    WriteDoneBytes(s, t);
    ReplaySnoc(init, s.writes, s.jobs[t]);
    forall v | v in s'.lock.pc ensures WriterOk(s', v) {
      assert WriterOk(s, v);
      WriteDoneWriter(s, t, v);
    }
    WriteDoneReads(s, init, s.jobs[t]);
  }

  lemma KeepReadStep(s: State, init: seq<int>, t: int)
    requires Inv(s, init) && Enabled(s, ReadStep(t))
    ensures Inv(Do(s, ReadStep(t)), init)
  {
    var s' := Do(s, ReadStep(t));
    forall v | v in s.lock.pc ensures !s.lock.pc[v].Writing? && WriterOk(s', v) {
      assert WriterOk(s, v);
      if v != t && s.lock.pc[v].Writing? { Exclusion(s.lock, v, t); }
    }
    assert s.writes[..|s.writes|] == s.writes;
  }

  lemma KeepChunkStep(s: State, init: seq<int>, t: int)
    requires Inv(s, init) && Enabled(s, ChunkStep(t))
    ensures Inv(Do(s, ChunkStep(t)), init)
  {
    var s' := Do(s, ChunkStep(t));
    assert WriterOk(s, t);
    forall v | v in s.lock.pc ensures WriterOk(s', v) {
      assert WriterOk(s, v);
      if v != t { Exclusion(s.lock, t, v); }
    }
  }

  // ---------- runs ----------

  predicate CanRun(s: State, es: seq<Event>)
    decreases |es|
  {
    es == [] || (Enabled(s, es[0]) && CanRun(Do(s, es[0]), es[1..]))
  }

  function Exec(s: State, es: seq<Event>): State
    requires CanRun(s, es)
    decreases |es|
  {
    if es == [] then s else Exec(Do(s, es[0]), es[1..])
  }

  lemma {:induction false} ExecInv(s: State, init: seq<int>, es: seq<Event>)
    requires Inv(s, init) && CanRun(s, es)
    ensures Inv(Exec(s, es), init)
    decreases |es|
  {
    if es != [] {
      match es[0] {
        case Start(t, j) => KeepStart(s, init, t, j);
        case LockStep(t) => if s.lock.pc[t].Writing? { KeepWriteDone(s, init, t); } else { KeepLockStep(s, init, t); }
        case ReadStep(t) => KeepReadStep(s, init, t);
        case ChunkStep(t) => KeepChunkStep(s, init, t);
      }
      ExecInv(Do(s, es[0]), init, es[1..]);
    }
  }

  /** Every guarded read, in every run, returns what it would return after some sequence of
      complete guarded writes: it never sees part of one. */
  lemma ReadsSeeWholeWrites(threads: set<int>, bytes: seq<int>, es: seq<Event>)
    requires (forall t :: t in threads ==> 0 <= t) && CanRun(Init(threads, bytes), es)
    ensures var s := Exec(Init(threads, bytes), es);
            forall i :: 0 <= i < |s.seen| ==> ReadOk(s.seen[i], bytes, s.writes)
  {
    RwLock.InitInv(threads);
    ExecInv(Init(threads, bytes), bytes, es);
  }
}
