/** The readers-writer lock of xem.c (`in`, `mx`, `wrt` and the reader counter) as
    steps of concurrent threads over atomic first-come-first-served semaphores.
    `RwSeam.AllowedUse` shows that it makes only calls that those allow, and
    `Semaphore.Linearises` that xem_wait and xem_unlock move the permit as those calls
    do. Two things are assumed of the threads: they are at most XEMQSZ, which
    `Semaphore.QueueFullExactly` shows to be what xem_wait needs, and one that is given
    a permit wakes up, of which `Semaphore.AwakeExactly` says when it is so. */
module RwLock {
  import opened Fcfs
  import Lists

  const READERS := -2

  datatype Pc =
    | Idle
    // rwlock_acquire_readlock
    | R1 | R1q      // xem_wait(in); q: queued
    | R2 | R2q      // xem_wait(mx)
    | R3            // ctr++
    | R4 | R4q      // xem_wait(wrt), first reader only
    | R5            // xem_unlock(mx)
    | R6            // xem_unlock(in)
    | Reading
    // rwlock_release_readlock
    | E1 | E1q      // xem_wait(mx)
    | E2            // ctr--
    | E3            // xem_unlock(wrt), last reader only
    | E4            // xem_unlock(mx)
    // rwlock_acquire_writelock
    | W1 | W1q      // xem_wait(in)
    | W2 | W2q      // xem_wait(wrt)
    | Writing
    // rwlock_release_writelock
    | V1            // xem_unlock(wrt)
    | V2            // xem_unlock(in)

  /** `readers`: who is counted in `ctr`. `arrived` and `entered`: who asked for `in` and who
      was given it, in order. */
  datatype Rw = Rw(in_: Sem, mx: Sem, wrt: Sem, ctr: int, pc: map<int, Pc>,
                   readers: set<int>, arrived: seq<int>, entered: seq<int>)

  /** A queued thread that is given the semaphore it waits for. */
  function Granted(p: Pc): Pc {
    match p
    case R1q => R2
    case W1q => W2
    case R2q => R3
    case E1q => E2
    case R4q => R5
    case W2q => Writing
    case _ => p
  }

  function At(s: Rw, t: int, p: Pc): Rw { s.(pc := s.pc[t := p]) }

  function PcOf(s: Rw, t: int): Pc { if t in s.pc then s.pc[t] else Idle }

  /** Who is on record as holding `wrt` when thread `t` with queued pc `p` gets it. */
  function WrtBy(t: int, p: Pc): int { if p.R4q? then READERS else t }

  function WaitIn(s: Rw, t: int, got: Pc, queued: Pc): Rw {
    var s1 := s.(arrived := s.arrived + [t]);
    if s.in_.owner == NONE then At(s1.(in_ := Wait(s.in_, t), entered := s.entered + [t]), t, got)
    else At(s1.(in_ := Wait(s.in_, t)), t, queued)
  }

  function WaitMx(s: Rw, t: int, got: Pc, queued: Pc): Rw {
    At(s.(mx := Wait(s.mx, t)), t, if s.mx.owner == NONE then got else queued)
  }

  function WaitWrt(s: Rw, t: int, got: Pc, queued: Pc): Rw {
    if s.wrt.owner == NONE then At(s.(wrt := Wait(s.wrt, t).(owner := WrtBy(t, queued))), t, got)
    else At(s.(wrt := Wait(s.wrt, t)), t, queued)
  }

  function UnlockIn(s: Rw): Rw {
    if s.in_.queue == [] then s.(in_ := Unlock(s.in_))
    else
      var u := s.in_.queue[0];
      At(s.(in_ := Unlock(s.in_), entered := s.entered + [u]), u, Granted(PcOf(s, u)))
  }

  function UnlockMx(s: Rw): Rw {
    if s.mx.queue == [] then s.(mx := Unlock(s.mx))
    else
      var u := s.mx.queue[0];
      At(s.(mx := Unlock(s.mx)), u, Granted(PcOf(s, u)))
  }

  function UnlockWrt(s: Rw): Rw {
    if s.wrt.queue == [] then s.(wrt := Unlock(s.wrt))
    else
      var u := s.wrt.queue[0];
      At(s.(wrt := Unlock(s.wrt).(owner := WrtBy(u, PcOf(s, u)))), u, Granted(PcOf(s, u)))
  }

  /** The next step of thread `t`; `write` chooses what an idle thread asks for. A queued
      thread stays put. */
  function Next(s: Rw, t: int, write: bool): Rw
    requires t in s.pc
  {
    match s.pc[t]
    case Idle => At(s, t, if write then W1 else R1)
    case R1 => WaitIn(s, t, R2, R1q)
    case R2 => WaitMx(s, t, R3, R2q)
    case R3 => At(s.(ctr := s.ctr + 1, readers := s.readers + {t}), t, if s.ctr + 1 == 1 then R4 else R5)
    case R4 => WaitWrt(s, t, R5, R4q)
    case R5 => At(UnlockMx(s), t, R6)
    case R6 => At(UnlockIn(s), t, Reading)
    case Reading => At(s, t, E1)
    case E1 => WaitMx(s, t, E2, E1q)
    case E2 => At(s.(ctr := s.ctr - 1, readers := s.readers - {t}), t, if s.ctr - 1 == 0 then E3 else E4)
    case E3 => At(UnlockWrt(s), t, E4)
    case E4 => At(UnlockMx(s), t, Idle)
    case W1 => WaitIn(s, t, W2, W1q)
    case W2 => WaitWrt(s, t, Writing, W2q)
    case Writing => At(s, t, V1)
    case V1 => At(UnlockWrt(s), t, V2)
    case V2 => At(UnlockIn(s), t, Idle)
    case _ => s
  }

  /** rwlock_init, with `threads` as its users. */
  function Init(threads: set<int>): Rw {
    Rw(Sem(NONE, []), Sem(NONE, []), Sem(NONE, []), 0, map t | t in threads :: Idle, {}, [], [])
  }

  // ---------- invariant ----------

  predicate HoldsIn(p: Pc) {
    p.R2? || p.R2q? || p.R3? || p.R4? || p.R4q? || p.R5? || p.R6? || p.W2? || p.W2q? || p.Writing? || p.V1? || p.V2?
  }

  predicate HoldsMx(p: Pc) { p.R3? || p.R4? || p.R4q? || p.R5? || p.E2? || p.E3? || p.E4? }

  /** Counted in `ctr`. */
  predicate Counted(p: Pc) {
    p.R4? || p.R4q? || p.R5? || p.R6? || p.Reading? || p.E1? || p.E1q? || p.E2?
  }

  predicate QueuedIn(p: Pc) { p.R1q? || p.W1q? }
  predicate QueuedMx(p: Pc) { p.R2q? || p.E1q? }
  predicate Blocked(p: Pc) { QueuedIn(p) || QueuedMx(p) || p.R4q? || p.W2q? }

  ghost predicate InOk(s: Rw) {
    && (forall t :: t in s.pc ==> 0 <= t && (HoldsIn(s.pc[t]) <==> t == s.in_.owner))
    && (s.in_.owner != NONE ==> s.in_.owner in s.pc)
    && Lists.Distinct(s.in_.queue) && (forall t :: t in s.in_.queue <==> QueuedIn(PcOf(s, t)))
    && (s.in_.owner == NONE ==> s.in_.queue == [])
  }

  ghost predicate MxOk(s: Rw) {
    && (forall t :: t in s.pc ==> 0 <= t && (HoldsMx(s.pc[t]) <==> t == s.mx.owner))
    && (s.mx.owner != NONE ==> s.mx.owner in s.pc)
    && Lists.Distinct(s.mx.queue) && (forall t :: t in s.mx.queue <==> QueuedMx(PcOf(s, t)))
    && (s.mx.owner == NONE ==> s.mx.queue == [])
  }

  /** `wrt` is held for the readers: some are counted and the first of them is past its wait,
      or the last one has left the count and is about to release. */
  predicate ForReaders(s: Rw) {
    (s.readers != {} && !PcOf(s, s.mx.owner).R4?) || PcOf(s, s.mx.owner).E3?
  }

  /** `wrt` is held by the one writer, or for the readers; only a writer queues for it. */
  ghost predicate WrtOk(s: Rw) {
    && (forall t :: t in s.pc ==> 0 <= t && (s.pc[t].Writing? || s.pc[t].V1? <==> t == s.wrt.owner))
    && (s.wrt.owner == NONE || s.wrt.owner == READERS || s.wrt.owner in s.pc)
    && (s.wrt.owner == READERS <==> ForReaders(s))
    && (forall t :: t in s.pc ==> !s.pc[t].R4q?)
    && (forall t :: t in s.wrt.queue <==> PcOf(s, t).W2q?)
    && |s.wrt.queue| <= 1
    && (s.wrt.owner == NONE ==> s.wrt.queue == [])
  }

  /** A first reader about to take `wrt` is the only counted reader; a last reader about to
      release it leaves none. */
  ghost predicate CtrOk(s: Rw) {
    && s.ctr == |s.readers|
    && (forall t :: t in s.readers <==> Counted(PcOf(s, t)))
    && (PcOf(s, s.mx.owner).R4? ==> s.readers == {s.mx.owner})
    && (PcOf(s, s.mx.owner).E3? ==> s.readers == {})
  }

  /** Threads enter in the order in which they asked. */
  ghost predicate FifoOk(s: Rw) {
    && s.arrived == s.entered + s.in_.queue
    && (s.in_.owner != NONE ==> s.entered != [] && s.entered[|s.entered| - 1] == s.in_.owner)
  }

  ghost predicate Inv(s: Rw) { InOk(s) && MxOk(s) && WrtOk(s) && CtrOk(s) && FifoOk(s) }

  lemma InitInv(threads: set<int>)
    requires forall t :: t in threads ==> 0 <= t
    ensures Inv(Init(threads))
  {
  }

  // ---------- every step keeps the invariant ----------

  /** Thread `t` moves to `p`, in a way that one of the semaphores does not notice. */
  lemma InSame(s: Rw, s': Rw, t: int, p: Pc)
    requires InOk(s) && t in s.pc && s'.pc == s.pc[t := p] && s'.in_ == s.in_
    requires HoldsIn(p) == HoldsIn(s.pc[t]) && QueuedIn(p) == QueuedIn(s.pc[t])
    ensures InOk(s')
  {
  }

  lemma MxSame(s: Rw, s': Rw, t: int, p: Pc)
    requires MxOk(s) && t in s.pc && s'.pc == s.pc[t := p] && s'.mx == s.mx
    requires HoldsMx(p) == HoldsMx(s.pc[t]) && QueuedMx(p) == QueuedMx(s.pc[t])
    ensures MxOk(s')
  {
  }

  lemma WrtSame(s: Rw, s': Rw, t: int, p: Pc)
    requires WrtOk(s) && t in s.pc && s'.pc == s.pc[t := p] && s'.wrt == s.wrt
    requires ForReaders(s') == ForReaders(s) && !p.R4q?
    requires (p.Writing? || p.V1?) == (s.pc[t].Writing? || s.pc[t].V1?) && p.W2q? == s.pc[t].W2q?
    ensures WrtOk(s')
  {
  }

  lemma CtrSame(s: Rw, s': Rw, t: int, p: Pc)
    requires CtrOk(s) && t in s.pc && s'.pc == s.pc[t := p] && s'.ctr == s.ctr && s'.readers == s.readers
    requires Counted(p) == Counted(s.pc[t])
    requires PcOf(s', s'.mx.owner).R4? ==> PcOf(s, s.mx.owner).R4? && s'.mx.owner == s.mx.owner
    requires PcOf(s', s'.mx.owner).E3? ==> PcOf(s, s.mx.owner).E3?
    ensures CtrOk(s')
  {
  }

  lemma KeepLocal(s: Rw, t: int, write: bool)
    requires Inv(s) && t in s.pc && (s.pc[t].Idle? || s.pc[t].Reading? || s.pc[t].Writing?)
    ensures Inv(Next(s, t, write))
  {
    var s' := Next(s, t, write);
    var p := s'.pc[t];
    InSame(s, s', t, p);
    MxSame(s, s', t, p);
    WrtSame(s, s', t, p);
    CtrSame(s, s', t, p);
  }

  lemma Append(q: seq<int>, t: int)
    requires Lists.Distinct(q) && t !in q
    ensures Lists.Distinct(q + [t]) && forall u :: u in q + [t] <==> u in q || u == t
  {
  }

  lemma JoinIn(s: Rw, t: int, got: Pc, queued: Pc)
    requires InOk(s) && FifoOk(s) && t in s.pc && !HoldsIn(s.pc[t]) && !QueuedIn(s.pc[t]) && t != NONE
    requires HoldsIn(got) && !QueuedIn(got) && QueuedIn(queued) && !HoldsIn(queued)
    ensures InOk(WaitIn(s, t, got, queued)) && FifoOk(WaitIn(s, t, got, queued))
  {
    Append(s.in_.queue, t);
  }

  lemma JoinMx(s: Rw, t: int, got: Pc, queued: Pc)
    requires MxOk(s) && t in s.pc && !HoldsMx(s.pc[t]) && !QueuedMx(s.pc[t]) && t != NONE
    requires HoldsMx(got) && !QueuedMx(got) && QueuedMx(queued) && !HoldsMx(queued)
    ensures MxOk(WaitMx(s, t, got, queued))
  {
    Append(s.mx.queue, t);
  }

  lemma WaitInRest(s: Rw, t: int, write: bool)
    requires Inv(s) && t in s.pc && (s.pc[t].R1? || s.pc[t].W1?)
    ensures var s' := Next(s, t, write); MxOk(s') && WrtOk(s') && CtrOk(s')
  {
    var s' := Next(s, t, write);
    var p := s'.pc[t];
    MxSame(s, s', t, p);
    WrtSame(s, s', t, p);
    CtrSame(s, s', t, p);
  }

  lemma KeepWaitIn(s: Rw, t: int, write: bool)
    requires Inv(s) && t in s.pc && (s.pc[t].R1? || s.pc[t].W1?)
    ensures Inv(Next(s, t, write))
  {
    if s.pc[t].R1? { JoinIn(s, t, R2, R1q); } else { JoinIn(s, t, W2, W1q); }
    WaitInRest(s, t, write);
  }

  lemma KeepWaitMx(s: Rw, t: int, write: bool)
    requires Inv(s) && t in s.pc && (s.pc[t].R2? || s.pc[t].E1?)
    ensures Inv(Next(s, t, write))
  {
    var s' := Next(s, t, write);
    var p := s'.pc[t];
    if s.pc[t].R2? { JoinMx(s, t, R3, R2q); } else { JoinMx(s, t, E2, E1q); }
    InSame(s, s', t, p);
    WrtSame(s, s', t, p);
    CtrSame(s, s', t, p);
  }

  lemma KeepCount(s: Rw, t: int, write: bool)
    requires Inv(s) && t in s.pc && (s.pc[t].R3? || s.pc[t].E2?)
    ensures Inv(Next(s, t, write))
  {
    var s' := Next(s, t, write);
    var p := s'.pc[t];
    InSame(s, s', t, p);
    MxSame(s, s', t, p);
    assert CtrOk(s');
    WrtSame(s, s', t, p);
  }

  /** The first reader's wait on `wrt` finds it free. */
  lemma FirstReaderNeverWaits(s: Rw, t: int)
    requires Inv(s) && t in s.pc && s.pc[t].R4?
    ensures s.wrt.owner == NONE
  {
    assert t == s.mx.owner && t == s.in_.owner;
  }

  lemma KeepR4(s: Rw, t: int, write: bool)
    requires Inv(s) && t in s.pc && s.pc[t].R4?
    ensures Inv(Next(s, t, write))
  {
    FirstReaderNeverWaits(s, t);
    var s' := Next(s, t, write);
    InSame(s, s', t, R5);
    MxSame(s, s', t, R5);
    CtrSame(s, s', t, R5);
  }

  /** Only the holder of `in` can be queued on `wrt`. */
  lemma NoWriterQueued(s: Rw, t: int)
    requires InOk(s) && WrtOk(s) && t in s.pc && HoldsIn(s.pc[t]) && !s.pc[t].W2q?
    ensures s.wrt.queue == []
  {
    assert |s.wrt.queue| > 0 ==> s.wrt.queue[0] in s.wrt.queue && PcOf(s, s.wrt.queue[0]).W2q?;
  }

  lemma KeepW2(s: Rw, t: int, write: bool)
    requires Inv(s) && t in s.pc && s.pc[t].W2?
    ensures Inv(Next(s, t, write))
  {
    var s' := Next(s, t, write);
    InSame(s, s', t, s'.pc[t]);
    MxSame(s, s', t, s'.pc[t]);
    CtrSame(s, s', t, s'.pc[t]);
    NoWriterQueued(s, t);
  }

  // Releases: the first in the queue, if any, moves on at the same step.

  lemma LeaveIn(s: Rw, t: int, p: Pc)
    requires InOk(s) && FifoOk(s) && t in s.pc && HoldsIn(s.pc[t]) && !HoldsIn(p) && !QueuedIn(p)
    ensures InOk(At(UnlockIn(s), t, p)) && FifoOk(At(UnlockIn(s), t, p))
  {
    if s.in_.queue != [] {
      var u := s.in_.queue[0];
      assert u in s.in_.queue;
      assert forall v :: v in s.in_.queue <==> v == u || v in s.in_.queue[1..];
      assert s.arrived == s.entered + [u] + s.in_.queue[1..];
    }
  }

  lemma LeaveMx(s: Rw, t: int, p: Pc)
    requires MxOk(s) && t in s.pc && HoldsMx(s.pc[t]) && !HoldsMx(p) && !QueuedMx(p)
    ensures MxOk(At(UnlockMx(s), t, p))
  {
    if s.mx.queue != [] {
      var u := s.mx.queue[0];
      assert u in s.mx.queue;
      assert forall v :: v in s.mx.queue <==> v == u || v in s.mx.queue[1..];
    }
  }

  lemma InHead(s: Rw, t: int)
    requires InOk(s) && t in s.pc && HoldsIn(s.pc[t]) && s.in_.queue != []
    ensures var u := s.in_.queue[0]; u in s.pc && u != t && QueuedIn(s.pc[u])
  {
    assert s.in_.queue[0] in s.in_.queue;
  }

  lemma MxHead(s: Rw, t: int)
    requires MxOk(s) && t in s.pc && HoldsMx(s.pc[t]) && s.mx.queue != []
    ensures var u := s.mx.queue[0]; u in s.pc && u != t && QueuedMx(s.pc[u])
  {
    assert s.mx.queue[0] in s.mx.queue;
  }

  lemma GrantInRest(s: Rw, t: int)
    requires Inv(s) && t in s.pc && HoldsIn(s.pc[t])
    ensures var s1 := UnlockIn(s); MxOk(s1) && WrtOk(s1) && CtrOk(s1) && t in s1.pc && s1.pc[t] == s.pc[t]
  {
    if s.in_.queue != [] {
      InHead(s, t);
      var s1, u := UnlockIn(s), s.in_.queue[0];
      MxSame(s, s1, u, s1.pc[u]);
      WrtSame(s, s1, u, s1.pc[u]);
      CtrSame(s, s1, u, s1.pc[u]);
    }
  }

  lemma LeaveInRest(s: Rw, t: int, p: Pc)
    requires Inv(s) && t in s.pc && ((s.pc[t].R6? && p == Reading) || (s.pc[t].V2? && p == Idle))
    ensures var s2 := At(UnlockIn(s), t, p); MxOk(s2) && WrtOk(s2) && CtrOk(s2)
  {
    GrantInRest(s, t);
    var s1, s2 := UnlockIn(s), At(UnlockIn(s), t, p);
    MxSame(s1, s2, t, p);
    WrtSame(s1, s2, t, p);
    CtrSame(s1, s2, t, p);
  }

  /** Unlocking `in`: R6 and V2. */
  lemma KeepUnlockIn(s: Rw, t: int, write: bool)
    requires Inv(s) && t in s.pc && (s.pc[t].R6? || s.pc[t].V2?)
    ensures Inv(Next(s, t, write))
  {
    var p := if s.pc[t].R6? then Reading else Idle;
    LeaveIn(s, t, p);
    LeaveInRest(s, t, p);
  }

  lemma GrantMxRest(s: Rw, t: int)
    requires Inv(s) && t in s.pc && (s.pc[t].R5? || s.pc[t].E4?)
    ensures var s1 := UnlockMx(s); InOk(s1) && WrtOk(s1) && CtrOk(s1) && t in s1.pc && s1.pc[t] == s.pc[t]
  {
    if s.mx.queue != [] {
      MxHead(s, t);
      var s1, u := UnlockMx(s), s.mx.queue[0];
      InSame(s, s1, u, s1.pc[u]);
      WrtSame(s, s1, u, s1.pc[u]);
      CtrSame(s, s1, u, s1.pc[u]);
    }
  }

  lemma LeaveMxRest(s: Rw, t: int, p: Pc)
    requires Inv(s) && t in s.pc && ((s.pc[t].R5? && p == R6) || (s.pc[t].E4? && p == Idle))
    ensures var s2 := At(UnlockMx(s), t, p); InOk(s2) && WrtOk(s2) && CtrOk(s2)
  {
    GrantMxRest(s, t);
    var s1, s2 := UnlockMx(s), At(UnlockMx(s), t, p);
    InSame(s1, s2, t, p);
    WrtSame(s1, s2, t, p);
    CtrSame(s1, s2, t, p);
  }

  /** Unlocking `mx`: R5 and E4. */
  lemma KeepUnlockMx(s: Rw, t: int, write: bool)
    requires Inv(s) && t in s.pc && (s.pc[t].R5? || s.pc[t].E4?)
    ensures Inv(Next(s, t, write))
  {
    var p := if s.pc[t].R5? then R6 else Idle;
    LeaveMx(s, t, p);
    LeaveMxRest(s, t, p);
  }

  lemma GrantWrtRest(s: Rw, t: int)
    requires Inv(s) && t in s.pc && (s.pc[t].E3? || s.pc[t].V1?)
    ensures var s1 := UnlockWrt(s); InOk(s1) && MxOk(s1) && CtrOk(s1) && t in s1.pc && s1.pc[t] == s.pc[t]
  {
    if s.wrt.queue != [] {
      var s1, u := UnlockWrt(s), s.wrt.queue[0];
      assert u in s.wrt.queue;
      InSame(s, s1, u, Writing);
      MxSame(s, s1, u, Writing);
      CtrSame(s, s1, u, Writing);
    }
  }

  lemma LeaveWrt(s: Rw, t: int, p: Pc)
    requires Inv(s) && t in s.pc && ((s.pc[t].E3? && p == E4) || (s.pc[t].V1? && p == V2))
    ensures WrtOk(At(UnlockWrt(s), t, p)) && FifoOk(At(UnlockWrt(s), t, p))
  {
    assert s.wrt.queue != [] ==> s.wrt.queue[0] in s.wrt.queue;
  }

  lemma LeaveWrtRest(s: Rw, t: int, p: Pc)
    requires Inv(s) && t in s.pc && ((s.pc[t].E3? && p == E4) || (s.pc[t].V1? && p == V2))
    ensures var s2 := At(UnlockWrt(s), t, p); InOk(s2) && MxOk(s2) && CtrOk(s2)
  {
    GrantWrtRest(s, t);
    var s1, s2 := UnlockWrt(s), At(UnlockWrt(s), t, p);
    InSame(s1, s2, t, p);
    MxSame(s1, s2, t, p);
    CtrSame(s1, s2, t, p);
  }

  /** Unlocking `wrt`: E3 and V1. */
  lemma KeepUnlockWrt(s: Rw, t: int, write: bool)
    requires Inv(s) && t in s.pc && (s.pc[t].E3? || s.pc[t].V1?)
    ensures Inv(Next(s, t, write))
  {
    var p := if s.pc[t].E3? then E4 else V2;
    LeaveWrt(s, t, p);
    LeaveWrtRest(s, t, p);
  }

  lemma Keep(s: Rw, t: int, write: bool)
    requires Inv(s) && t in s.pc
    ensures Inv(Next(s, t, write))
  {
    match s.pc[t]
    case Idle => KeepLocal(s, t, write);
    case Reading => KeepLocal(s, t, write);
    case Writing => KeepLocal(s, t, write);
    case R1 => KeepWaitIn(s, t, write);
    case W1 => KeepWaitIn(s, t, write);
    case R2 => KeepWaitMx(s, t, write);
    case E1 => KeepWaitMx(s, t, write);
    case R3 => KeepCount(s, t, write);
    case E2 => KeepCount(s, t, write);
    case R4 => KeepR4(s, t, write);
    case W2 => KeepW2(s, t, write);
    case R5 => KeepUnlockMx(s, t, write);
    case E4 => KeepUnlockMx(s, t, write);
    case R6 => KeepUnlockIn(s, t, write);
    case V2 => KeepUnlockIn(s, t, write);
    case E3 => KeepUnlockWrt(s, t, write);
    case V1 => KeepUnlockWrt(s, t, write);
    case _ =>
  }

  // ---------- what the lock promises ----------

  /** A writer excludes everybody else; holding `in` while waiting excludes later entrants too. */
  lemma Exclusion(s: Rw, t: int, u: int)
    requires Inv(s) && t in s.pc && u in s.pc && t != u && s.pc[t].Writing?
    ensures !s.pc[u].Writing? && !s.pc[u].Reading?
  {
    assert s.pc[u].Reading? ==> u in s.readers;
    assert PcOf(s, s.mx.owner).R4? ==> s.mx.owner == s.in_.owner;
  }

  /** Nobody can wait for ever on everybody: if some thread is inside an operation, some
      thread inside an operation is not blocked. */
  lemma NoDeadlock(s: Rw, t: int) returns (u: int)
    requires Inv(s) && t in s.pc && !s.pc[t].Idle?
    ensures u in s.pc && !s.pc[u].Idle? && !Blocked(s.pc[u])
  {
    u := t;
    if QueuedIn(s.pc[u]) {
      assert u in s.in_.queue;
      u := s.in_.owner;
    }
    if s.pc[u].W2q? {
      u := WrtHolder(s, u);
    }
    if QueuedMx(s.pc[u]) {
      assert u in s.mx.queue;
      u := s.mx.owner;
    }
  }

  /** A queued writer waits for readers that are already in, not for another writer. */
  lemma WrtHolder(s: Rw, t: int) returns (u: int)
    requires Inv(s) && t in s.pc && s.pc[t].W2q?
    ensures u in s.pc && (Counted(s.pc[u]) || s.pc[u].E3?) && s.wrt.owner == READERS
  {
    assert t in s.wrt.queue && t == s.in_.owner;
    assert s.wrt.owner in s.pc ==> s.wrt.owner == s.in_.owner;
    assert s.wrt.owner == READERS;
    if PcOf(s, s.mx.owner).E3? {
      u := s.mx.owner;
    } else {
      var none: set<int> := {};
      assert (forall v :: v in s.readers <==> v in none) ==> s.readers == none;
      u :| u in s.readers;
    }
  }

  /** First come, first served: while thread `w` holds `in` (a writer: from its grant to the end
      of its release), everybody who has entered asked no later than `w`, and everybody who
      asked later is still queued. */
  lemma NoOvertaking(s: Rw, w: int)
    requires Inv(s) && w in s.pc && HoldsIn(s.pc[w])
    ensures s.entered <= s.arrived && s.entered != [] && s.entered[|s.entered| - 1] == w
    ensures s.arrived[|s.entered|..] == s.in_.queue
  {
  }

  // ---------- runs ----------

  /** One step: a thread, and what it asks for if it is idle. */
  datatype Move = Move(t: int, write: bool)

  predicate CanRun(s: Rw, ms: seq<Move>)
    decreases |ms|
  {
    ms == [] || (ms[0].t in s.pc && CanRun(Next(s, ms[0].t, ms[0].write), ms[1..]))
  }

  function Exec(s: Rw, ms: seq<Move>): Rw
    requires CanRun(s, ms)
    decreases |ms|
  {
    if ms == [] then s else Exec(Next(s, ms[0].t, ms[0].write), ms[1..])
  }

  lemma {:induction false} ExecInv(s: Rw, ms: seq<Move>)
    requires Inv(s) && CanRun(s, ms)
    ensures Inv(Exec(s, ms))
    decreases |ms|
  {
    if ms != [] {
      Keep(s, ms[0].t, ms[0].write);
      ExecInv(Next(s, ms[0].t, ms[0].write), ms[1..]);
    }
  }

  /** Every interleaving of readers and writers: writers exclude, the first reader does not wait
      on `wrt`, the counter counts, threads enter in the order they asked, no deadlock. */
  lemma LockSafe(threads: set<int>, ms: seq<Move>)
    requires (forall t :: t in threads ==> 0 <= t) && CanRun(Init(threads), ms)
    ensures var s := Exec(Init(threads), ms);
            && (forall t, u :: t in s.pc && u in s.pc && t != u && s.pc[t].Writing? ==>
                                 !s.pc[u].Writing? && !s.pc[u].Reading?)
            && (forall t :: t in s.pc && s.pc[t].R4? ==> s.wrt.owner == NONE)
            && s.ctr == |s.readers| && (forall t :: t in s.pc && s.pc[t].Reading? ==> t in s.readers)
            && s.entered <= s.arrived
            && ((exists t :: t in s.pc && !s.pc[t].Idle?) ==>
                  exists u :: u in s.pc && !s.pc[u].Idle? && !Blocked(s.pc[u]))
  {
    InitInv(threads);
    ExecInv(Init(threads), ms);
    var s := Exec(Init(threads), ms);
    forall t, u | t in s.pc && u in s.pc && t != u && s.pc[t].Writing?
      ensures !s.pc[u].Writing? && !s.pc[u].Reading?
    {
      Exclusion(s, t, u);
    }
    forall t | t in s.pc && s.pc[t].R4? ensures s.wrt.owner == NONE { FirstReaderNeverWaits(s, t); }
    if t :| t in s.pc && !s.pc[t].Idle? {
      var u := NoDeadlock(s, t);
    }
  }
}
