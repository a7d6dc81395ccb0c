/** How the readers-writer lock of RwLock uses its three semaphores: the calls that a run makes on
    each of them are calls that Fcfs allows, and those are what module Semaphore shows the code of
    xem.c to serve. The last reader unlocks `wrt`, not the one that waited on it: the duty to unlock
    passes from a reader that leaves to one that stays. */
module RwSeam {
  import Fcfs
  import opened RwLock

  const NONE := Fcfs.NONE

  /** `wrt` with the reader that is to unlock it by name. */
  function WrtOf(s: Rw, duty: int): Fcfs.Sem {
    s.wrt.(owner := if s.wrt.owner == READERS then duty else s.wrt.owner)
  }

  /** The duty lies with a counted reader, or with the last one on its way to unlock. */
  predicate DutyOk(s: Rw, duty: int) {
    s.wrt.owner == READERS ==> duty in s.pc && (duty in s.readers || s.pc[duty].E3?)
  }

  function InCalls(s: Rw, t: int): seq<Fcfs.Call>
    requires t in s.pc
  {
    var p := s.pc[t];
    if p.R1? || p.W1? then [Fcfs.Ask(t)] else if p.R6? || p.V2? then [Fcfs.Give(t)] else []
  }

  function MxCalls(s: Rw, t: int): seq<Fcfs.Call>
    requires t in s.pc
  {
    var p := s.pc[t];
    if p.R2? || p.E1? then [Fcfs.Ask(t)] else if p.R5? || p.E4? then [Fcfs.Give(t)] else []
  }

  function WrtCalls(s: Rw, t: int): seq<Fcfs.Call>
    requires t in s.pc
  {
    var p := s.pc[t];
    if p.R4? || p.W2? then [Fcfs.Ask(t)] else if p.E3? || p.V1? then [Fcfs.Give(t)] else []
  }

  /** The waits and unlocks among the calls. */
  function Plain(cs: seq<Fcfs.Call>): seq<Fcfs.Call> {
    if cs == [] then [] else (if cs[0].Hand? then [] else [cs[0]]) + Plain(cs[1..])
  }

  lemma {:induction false} PlainThen(cs: seq<Fcfs.Call>, ds: seq<Fcfs.Call>)
    ensures Plain(cs + ds) == Plain(cs) + Plain(ds)
  {
    if cs == [] {
      assert cs + ds == ds;
    } else {
      assert (cs + ds)[0] == cs[0] && (cs + ds)[1..] == cs[1..] + ds;
      PlainThen(cs[1..], ds);
    }
  }

  /** What the calls `cs` make of semaphore `m` is `n`, and they are allowed. */
  predicate Becomes(m: Fcfs.Sem, cs: seq<Fcfs.Call>, n: Fcfs.Sem) { Fcfs.Legal(m, cs) && Fcfs.Serial(m, cs) == n }

  lemma OneBecomes(m: Fcfs.Sem, c: Fcfs.Call)
    requires Fcfs.May(m, c)
    ensures Becomes(m, [c], Fcfs.Do(m, c))
  {
    Fcfs.OneCall(m, c);
  }

  lemma InStep(s: Rw, t: int, write: bool)
    requires Inv(s) && t in s.pc
    ensures Becomes(s.in_, InCalls(s, t), Next(s, t, write).in_)
  {
    var p := s.pc[t];
    if p.R1? || p.W1? {
      assert !HoldsIn(p) && !QueuedIn(PcOf(s, t));
      OneBecomes(s.in_, Fcfs.Ask(t));
    } else if p.R6? || p.V2? {
      assert HoldsIn(p);
      OneBecomes(s.in_, Fcfs.Give(t));
    } else {
      SameIn(s, t, write);
    }
  }

  lemma SameIn(s: Rw, t: int, write: bool)
    requires t in s.pc && InCalls(s, t) == []
    ensures Next(s, t, write).in_ == s.in_
  {
  }

  lemma MxStep(s: Rw, t: int, write: bool)
    requires Inv(s) && t in s.pc
    ensures Becomes(s.mx, MxCalls(s, t), Next(s, t, write).mx)
  {
    var p := s.pc[t];
    if p.R2? || p.E1? {
      assert !HoldsMx(p) && !QueuedMx(PcOf(s, t));
      OneBecomes(s.mx, Fcfs.Ask(t));
    } else if p.R5? || p.E4? {
      assert HoldsMx(p);
      OneBecomes(s.mx, Fcfs.Give(t));
    } else {
      SameMx(s, t, write);
    }
  }

  lemma SameMx(s: Rw, t: int, write: bool)
    requires t in s.pc && MxCalls(s, t) == []
    ensures Next(s, t, write).mx == s.mx
  {
  }

  // ---------- wrt ----------

  /** The steps that use `wrt`. */
  predicate UsesWrt(p: Pc) { p.R4? || p.W2? || p.E3? || p.V1? }

  lemma SameWrt(s: Rw, t: int, write: bool)
    requires t in s.pc && !UsesWrt(s.pc[t])
    ensures Next(s, t, write).wrt == s.wrt
  {
  }

  /** The first reader waits on it, and does not have to wait. */
  lemma WrtFirst(s: Rw, t: int, write: bool, duty: int)
    requires Inv(s) && t in s.pc && s.pc[t].R4?
    ensures Becomes(WrtOf(s, duty), [Fcfs.Ask(t)], WrtOf(Next(s, t, write), t)) && DutyOk(Next(s, t, write), t)
  {
    FirstReaderNeverWaits(s, t);
    OneBecomes(WrtOf(s, duty), Fcfs.Ask(t));
    assert Counted(PcOf(s, t));
  }

  /** A writer waits on it. */
  lemma WrtWriter(s: Rw, t: int, write: bool, duty: int)
    requires Inv(s) && t in s.pc && s.pc[t].W2? && DutyOk(s, duty)
    ensures Becomes(WrtOf(s, duty), [Fcfs.Ask(t)], WrtOf(Next(s, t, write), duty)) && DutyOk(Next(s, t, write), duty)
  {
    assert !Counted(PcOf(s, t)) && t !in s.readers && !PcOf(s, t).W2q?;
    OneBecomes(WrtOf(s, duty), Fcfs.Ask(t));
  }

  /** The writer unlocks it. */
  lemma WrtWritten(s: Rw, t: int, write: bool, duty: int)
    requires Inv(s) && t in s.pc && s.pc[t].V1?
    ensures Becomes(WrtOf(s, duty), [Fcfs.Give(t)], WrtOf(Next(s, t, write), duty)) && DutyOk(Next(s, t, write), duty)
  {
    assert t == s.wrt.owner && t >= 0;
    OneBecomes(WrtOf(s, duty), Fcfs.Give(t));
    Granting(s, t, write);
  }

  /** The last reader unlocks it, and the duty is its own. */
  lemma WrtRead(s: Rw, t: int, write: bool, duty: int)
    requires Inv(s) && t in s.pc && s.pc[t].E3? && DutyOk(s, duty)
    ensures Becomes(WrtOf(s, duty), [Fcfs.Give(t)], WrtOf(Next(s, t, write), duty)) && DutyOk(Next(s, t, write), duty)
  {
    assert HoldsMx(s.pc[t]) && t == s.mx.owner && s.readers == {} && s.wrt.owner == READERS;
    assert s.pc[duty].E3? && HoldsMx(s.pc[duty]);
    assert duty == t;
    OneBecomes(WrtOf(s, duty), Fcfs.Give(t));
    Granting(s, t, write);
  }

  /** Whoever gets `wrt` by an unlock is a writer. */
  lemma Granting(s: Rw, t: int, write: bool)
    requires Inv(s) && t in s.pc && (s.pc[t].E3? || s.pc[t].V1?)
    ensures var n := Next(s, t, write).wrt;
      n == Fcfs.Unlock(s.wrt) && n.owner != READERS
  {
    if s.wrt.queue != [] {
      var u := s.wrt.queue[0];
      assert u in s.wrt.queue && PcOf(s, u).W2q? && u in s.pc && u >= 0;
    }
  }

  /** A reader with the duty leaves while others stay: one of them takes it. */
  lemma WrtLeft(s: Rw, t: int, write: bool, u: int)
    requires Inv(s) && t in s.pc && s.pc[t].E2? && s.wrt.owner == READERS && u in s.readers && u != t
    ensures Becomes(WrtOf(s, t), [Fcfs.Hand(t, u)], WrtOf(Next(s, t, write), u)) && DutyOk(Next(s, t, write), u)
  {
    assert Counted(PcOf(s, u)) && u in s.pc && !PcOf(s, u).W2q?;
    OneBecomes(WrtOf(s, t), Fcfs.Hand(t, u));
  }

  /** Any other step leaves the duty where it is. */
  lemma WrtSame(s: Rw, t: int, write: bool, duty: int)
    requires Inv(s) && t in s.pc && !UsesWrt(s.pc[t]) && DutyOk(s, duty)
    requires s.pc[t].E2? && s.wrt.owner == READERS && duty == t ==> s.readers == {t}
    ensures WrtOf(Next(s, t, write), duty) == WrtOf(s, duty) && DutyOk(Next(s, t, write), duty)
  {
    SameWrt(s, t, write);
    if s.wrt.owner == READERS { KeepsDuty(s, t, write, duty); }
  }

  lemma KeepsDuty(s: Rw, t: int, write: bool, duty: int)
    requires Inv(s) && t in s.pc && !UsesWrt(s.pc[t]) && duty in s.pc && (duty in s.readers || s.pc[duty].E3?)
    requires s.pc[t].E2? && duty == t ==> s.readers == {t}
    ensures var n := Next(s, t, write); duty in n.pc && (duty in n.readers || n.pc[duty].E3?)
  {
    if duty in s.readers && !(s.pc[t].E2? && duty == t) {
      ReadersKept(s, t, write, duty);
    } else if s.pc[t].E2? {
      assert s.ctr == |s.readers|;
    } else {
      assert HoldsMx(s.pc[duty]) && duty == s.mx.owner;
      LastWaits(s, t, write, duty);
    }
  }

  /** A reader stays counted until it leaves the count itself. */
  lemma ReadersKept(s: Rw, t: int, write: bool, u: int)
    requires t in s.pc && u in s.pc && u in s.readers && !(s.pc[t].E2? && u == t)
    ensures var n := Next(s, t, write); u in n.pc && u in n.readers
  {
    if s.pc[t].E2? { assert u in s.readers - {t}; }
  }

  /** The last reader on its way to unlock `wrt` is not moved by others. */
  lemma LastWaits(s: Rw, t: int, write: bool, u: int)
    requires Inv(s) && t in s.pc && u in s.pc && s.pc[u].E3? && t != u
    ensures u in Next(s, t, write).pc && Next(s, t, write).pc[u].E3?
  {
    assert s.in_.queue != [] ==> s.in_.queue[0] in s.in_.queue && QueuedIn(PcOf(s, s.in_.queue[0]));
    assert s.mx.queue != [] ==> s.mx.queue[0] in s.mx.queue && QueuedMx(PcOf(s, s.mx.queue[0]));
    assert s.wrt.queue != [] ==> s.wrt.queue[0] in s.wrt.queue && PcOf(s, s.wrt.queue[0]).W2q?;
  }

  /** A step of the lock: its call on `wrt`, if it makes one, is allowed, and besides the duty may
      pass on. */
  lemma WrtStep(s: Rw, t: int, write: bool, duty: int) returns (cs: seq<Fcfs.Call>, duty': int)
    requires Inv(s) && t in s.pc && DutyOk(s, duty)
    ensures Plain(cs) == WrtCalls(s, t)
    ensures Becomes(WrtOf(s, duty), cs, WrtOf(Next(s, t, write), duty')) && DutyOk(Next(s, t, write), duty')
  {
    var p := s.pc[t];
    duty' := duty;
    if p.R4? {
      cs, duty' := [Fcfs.Ask(t)], t;
      WrtFirst(s, t, write, duty);
    } else if p.W2? {
      cs := [Fcfs.Ask(t)];
      WrtWriter(s, t, write, duty);
    } else if p.V1? {
      cs := [Fcfs.Give(t)];
      WrtWritten(s, t, write, duty);
    } else if p.E3? {
      cs := [Fcfs.Give(t)];
      WrtRead(s, t, write, duty);
    } else if p.E2? && s.wrt.owner == READERS && duty == t {
      cs, duty' := LeaveDuty(s, t, write);
    } else {
      cs := [];
      WrtSame(s, t, write, duty);
    }
  }

  /** A leaving reader hands its duty on, or is the last. */
  lemma LeaveDuty(s: Rw, t: int, write: bool) returns (cs: seq<Fcfs.Call>, duty': int)
    requires Inv(s) && t in s.pc && s.pc[t].E2? && s.wrt.owner == READERS && DutyOk(s, t)
    ensures Plain(cs) == []
    ensures Becomes(WrtOf(s, t), cs, WrtOf(Next(s, t, write), duty')) && DutyOk(Next(s, t, write), duty')
  {
    if u :| u in s.readers && u != t {
      cs, duty' := [Fcfs.Hand(t, u)], u;
      WrtLeft(s, t, write, u);
    } else {
      cs, duty' := [], t;
      assert Counted(PcOf(s, t)) && t in s.readers;
      assert forall u :: u in s.readers <==> u == t;
      assert s.readers == {t};
      WrtSame(s, t, write, t);
    }
  }

  // ---------- runs ----------

  lemma BecomesThen(m: Fcfs.Sem, cs: seq<Fcfs.Call>, n: Fcfs.Sem, ds: seq<Fcfs.Call>, o: Fcfs.Sem)
    requires Becomes(m, cs, n) && Becomes(n, ds, o)
    ensures Becomes(m, cs + ds, o)
  {
    Fcfs.Append(m, cs, ds);
  }

  /** The calls that a run of the lock makes on each semaphore, in order. */
  function InRun(s: Rw, ms: seq<Move>): seq<Fcfs.Call>
    requires CanRun(s, ms)
    decreases |ms|
  {
    if ms == [] then [] else InCalls(s, ms[0].t) + InRun(Next(s, ms[0].t, ms[0].write), ms[1..])
  }

  function MxRun(s: Rw, ms: seq<Move>): seq<Fcfs.Call>
    requires CanRun(s, ms)
    decreases |ms|
  {
    if ms == [] then [] else MxCalls(s, ms[0].t) + MxRun(Next(s, ms[0].t, ms[0].write), ms[1..])
  }

  function WrtRun(s: Rw, ms: seq<Move>): seq<Fcfs.Call>
    requires CanRun(s, ms)
    decreases |ms|
  {
    if ms == [] then [] else WrtCalls(s, ms[0].t) + WrtRun(Next(s, ms[0].t, ms[0].write), ms[1..])
  }

  lemma {:induction false} InUse(s: Rw, ms: seq<Move>)
    requires Inv(s) && CanRun(s, ms)
    ensures Becomes(s.in_, InRun(s, ms), Exec(s, ms).in_)
    decreases |ms|
  {
    if ms == [] {
    } else {
      var t, write := ms[0].t, ms[0].write;
      var n := Next(s, t, write);
      Keep(s, t, write);
      InStep(s, t, write);
      InUse(n, ms[1..]);
      BecomesThen(s.in_, InCalls(s, t), n.in_, InRun(n, ms[1..]), Exec(s, ms).in_);
    }
  }

  lemma {:induction false} MxUse(s: Rw, ms: seq<Move>)
    requires Inv(s) && CanRun(s, ms)
    ensures Becomes(s.mx, MxRun(s, ms), Exec(s, ms).mx)
    decreases |ms|
  {
    if ms == [] {
    } else {
      var t, write := ms[0].t, ms[0].write;
      var n := Next(s, t, write);
      Keep(s, t, write);
      MxStep(s, t, write);
      MxUse(n, ms[1..]);
      BecomesThen(s.mx, MxCalls(s, t), n.mx, MxRun(n, ms[1..]), Exec(s, ms).mx);
    }
  }

  /** On `wrt` the calls of the run are allowed once the passing on of the duty is put in between. */
  lemma {:induction false} WrtUse(s: Rw, ms: seq<Move>, duty: int) returns (cs: seq<Fcfs.Call>, duty': int)
    requires Inv(s) && CanRun(s, ms) && DutyOk(s, duty)
    ensures Plain(cs) == WrtRun(s, ms) && DutyOk(Exec(s, ms), duty')
    ensures Becomes(WrtOf(s, duty), cs, WrtOf(Exec(s, ms), duty'))
    decreases |ms|
  {
    if ms == [] {
      cs, duty' := [], duty;
    } else {
      var t, write := ms[0].t, ms[0].write;
      var n := Next(s, t, write);
      Keep(s, t, write);
      var c, d := WrtStep(s, t, write, duty);
      var ds;
      ds, duty' := WrtUse(n, ms[1..], d);
      BecomesThen(WrtOf(s, duty), c, WrtOf(n, d), ds, WrtOf(Exec(s, ms), duty'));
      PlainThen(c, ds);
      cs := c + ds;
    }
  }

  /** Every interleaving from initialisation, where all three are free: the calls that the run
      makes are allowed and lead to where the semaphores are. */
  lemma AllowedUse(threads: set<int>, ms: seq<Move>) returns (wrts: seq<Fcfs.Call>, duty: int)
    requires (forall t :: t in threads ==> 0 <= t) && CanRun(Init(threads), ms)
    ensures var s, r, free := Init(threads), Exec(Init(threads), ms), Fcfs.Sem(NONE, []);
      && Becomes(free, InRun(s, ms), r.in_) && Becomes(free, MxRun(s, ms), r.mx)
      && Plain(wrts) == WrtRun(s, ms) && Becomes(free, wrts, WrtOf(r, duty)) && DutyOk(r, duty)
  {
    var s := Init(threads);
    InitInv(threads);
    InUse(s, ms);
    MxUse(s, ms);
    wrts, duty := WrtUse(s, ms, NONE);
  }
}
