/** xem_wait and xem_unlock of xem.c over futex_wait and futex_wake of futex.c, as
    steps of concurrent threads: every access to the guard, the count, the ring
    queue and the futex is a step of its own. A futex sleeper is woken by
    futex_wake only. The thread that unlocks need not be the one that waited: the duty
    to unlock may be passed on. */
module Semaphore {
  import opened RingQueue
  import Fcfs

  const NONE := Fcfs.NONE

  datatype Pc =
    | Idle
    // xem_wait
    | WTas                 // about to test and set the guard
    | WDec                 // about to decrement the count
    | WGot                 // has the permit, about to clear the guard
    | WEnq                 // queue_add
    | WQueued(slot: int)   // in the queue, about to clear the guard and then call futex_wait
    | WFutex(slot: int)    // futex_wait: compare under the futex lock
    | Sleeping(slot: int)
    | Failed               // returned -1 with the guard still set
    | Held                 // returned 0
    // xem_unlock
    | UTas
    | UInc                 // about to increment the count
    | UWake                // futex_wake(queue_head)
    | URemove              // queue_remove
    | URel                 // about to clear the guard

  /** `who` set the guard; `owner` is to unlock; `arrived` and `granted` record the order in
      which threads asked for and were given the permit, and `duty` through whose hands the
      duty to unlock has gone since the last grant. */
  datatype Sem = Sem(guard: bool, count: int, q: Ring, pc: map<int, Pc>,
                     who: int, owner: int, arrived: seq<int>, granted: seq<int>, duty: seq<int>)

  function At(s: Sem, t: int, p: Pc): Sem { s.(pc := s.pc[t := p]) }

  function Unguard(s: Sem): Sem { s.(guard := false, who := NONE) }

  function Take(s: Sem, t: int, p: Pc): Sem {
    if s.guard then s else At(s.(guard := true, who := t), t, p)
  }

  /** xem_wait under the guard. */
  function Dec(s: Sem, t: int): Sem {
    var s1 := s.(count := s.count - 1, arrived := s.arrived + [t]);
    if s1.count >= 0 then At(s1.(owner := t, granted := s.granted + [t], duty := [t]), t, WGot) else At(s1, t, WEnq)
  }

  /** xem_unlock under the guard: the permit passes to the head of the queue. */
  function Inc(s: Sem, t: int): Sem
    requires Shape(s.q)
  {
    var s1 := s.(count := s.count + 1);
    if s.q.head != s.q.rear then
      var u := s.q.slots[s.q.head];
      At(s1.(owner := u, granted := s.granted + [u], duty := [u]), t, UWake)
    else At(s1.(owner := NONE), t, URel)
  }

  function Wake(s: Sem, t: int): Sem
    requires Shape(s.q)
  {
    var u := s.q.slots[s.q.head];
    At(if u in s.pc && s.pc[u].Sleeping? then At(s, u, Held) else s, t, URemove)
  }

  /** Thread `t` takes its next step; a spinning, sleeping or failed thread stays put. */
  function Next(s: Sem, t: int): Sem
    requires t in s.pc && Shape(s.q)
  {
    match s.pc[t]
    case Idle => At(s, t, WTas)
    case WTas => Take(s, t, WDec)
    case WDec => Dec(s, t)
    case WGot => Unguard(At(s, t, Held))
    case WEnq => if Full(s.q) then At(s, t, Failed) else At(s.(q := Add(s.q, t)), t, WQueued(s.q.rear))
    case WQueued(j) => Unguard(At(s, t, WFutex(j)))
    case WFutex(j) => if 0 <= j < XEMQSZ && s.q.slots[j] == t then At(s, t, Sleeping(j)) else At(s, t, Held)
    case Sleeping(_) => s
    case Failed => s
    case Held => At(s, t, UTas)
    case UTas => Take(s, t, UInc)
    case UInc => Inc(s, t)
    case UWake => Wake(s, t)
    case URemove => At(s.(q := Remove(s.q)), t, URel)
    case URel => Unguard(At(s, t, Idle))
  }

  /** xem_init, with `threads` as its users. */
  function Init(threads: set<int>): Sem {
    Sem(false, 1, Ring(0, 0, seq(XEMQSZ, _ => UNUSED)), map t | t in threads :: Idle, NONE, NONE, [], [], [])
  }

  // ---------- invariant ----------

  predicate InGuard(p: Pc) {
    p.WDec? || p.WGot? || p.WEnq? || p.WQueued? || p.Failed? || p.UInc? || p.UWake? || p.URemove? || p.URel?
  }

  predicate InLine(p: Pc) { p.WQueued? || p.WFutex? || p.Sleeping? }

  predicate Owning(p: Pc) { p.WGot? || p.Held? || p.UTas? || p.UInc? }

  function PcOf(s: Sem, t: int): Pc { if t in s.pc then s.pc[t] else Idle }

  /** The permit has been passed on, but its new owner is still at the head of the queue. */
  predicate Handing(s: Sem) { PcOf(s, s.who).UWake? || PcOf(s, s.who).URemove? }

  /** At most one thread is between setting and clearing the guard. */
  ghost predicate GuardOk(s: Sem) {
    && (s.guard <==> s.who != NONE)
    && (s.who != NONE ==> s.who in s.pc)
    && (forall t :: t in s.pc ==> 0 <= t && (InGuard(s.pc[t]) <==> t == s.who))
  }

  /** Queued threads are distinct and each waits on its own slot. */
  ghost predicate QueueOk(s: Sem) {
    && Valid(s.q)
    && var w := Waiting(s.q);
    && (forall i, j :: 0 <= i < j < |w| ==> w[i] != w[j])
    && (forall i :: 0 <= i < |w| ==> w[i] in s.pc)
    && (forall i :: 0 <= i < |w| && (i > 0 || !Handing(s)) ==>
                      InLine(s.pc[w[i]]) && s.pc[w[i]].slot == Pos(s.q, i) && w[i] != s.owner)
    && (Handing(s) ==> w != [] && s.owner == w[0])
    && (Handing(s) && InLine(s.pc[w[0]]) ==> s.pc[w[0]].slot == s.q.head)
    && (Handing(s) ==> InLine(s.pc[w[0]]) || (PcOf(s, s.who).URemove? && (s.pc[w[0]].Held? || s.pc[w[0]].UTas?)))
  }

  /** Whoever holds the permit, or has been handed it, is the owner. */
  ghost predicate OwnerOk(s: Sem)
    requires Shape(s.q)
  {
    && (s.owner != NONE ==> s.owner in s.pc && (Owning(s.pc[s.owner]) || InLine(s.pc[s.owner])))
    && (forall t :: t in s.pc && Owning(s.pc[t]) ==> t == s.owner)
    && (forall t :: t in s.pc && InLine(s.pc[t]) ==> t == s.owner || t in Waiting(s.q))
    && (Waiting(s.q) != [] || PcOf(s, s.who).WEnq? || PcOf(s, s.who).Failed? ==> s.owner != NONE)
  }

  function B2i(b: bool): int { if b then 1 else 0 }

  ghost predicate CountOk(s: Sem)
    requires Shape(s.q)
  {
    s.count == 1 - B2i(s.owner != NONE) - |Waiting(s.q)| + B2i(Handing(s))
               - B2i(PcOf(s, s.who).WEnq? || PcOf(s, s.who).Failed?)
  }

  /** Threads asked in the order: already granted, then the queue, then the one about to join it. */
  ghost predicate FifoOk(s: Sem)
    requires Shape(s.q)
  {
    && (Handing(s) ==> Waiting(s.q) != [])
    && s.arrived == s.granted + (if Handing(s) then Waiting(s.q)[1..] else Waiting(s.q))
                    + (if PcOf(s, s.who).WEnq? || PcOf(s, s.who).Failed? then [s.who] else [])
  }

  /** The duty to unlock has come to the owner from the thread granted the permit last. */
  predicate GrantOk(s: Sem) {
    s.owner != NONE ==>
      && s.granted != [] && s.duty != []
      && s.duty[0] == s.granted[|s.granted| - 1] && s.duty[|s.duty| - 1] == s.owner
  }

  ghost predicate Inv(s: Sem) {
    GuardOk(s) && QueueOk(s) && OwnerOk(s) && CountOk(s) && FifoOk(s) && GrantOk(s)
  }

  lemma InitInv(threads: set<int>)
    requires forall t :: t in threads ==> 0 <= t
    ensures Inv(Init(threads))
  {
    assert Waiting(Init(threads).q) == [];
  }

  /** Thread `t` goes from `p` to `q` without a change in its part: outside the guard, it waits in
      the same slot, or holds the permit, or neither. */
  predicate SamePart(p: Pc, q: Pc) {
    && !InGuard(p) && !InGuard(q)
    && (InLine(p) <==> InLine(q)) && (Owning(p) <==> Owning(q)) && (InLine(p) ==> p.slot == q.slot)
    && (p.Held? || p.UTas? <==> q.Held? || q.UTas?)
  }

  lemma MoveLine(s: Sem, t: int, q: Pc)
    requires GuardOk(s) && QueueOk(s) && t in s.pc && SamePart(s.pc[t], q)
    ensures GuardOk(At(s, t, q)) && QueueOk(At(s, t, q)) && (Handing(At(s, t, q)) <==> Handing(s))
  {
    assert PcOf(At(s, t, q), s.who) == PcOf(s, s.who);
  }

  lemma MoveRest(s: Sem, t: int, q: Pc)
    requires Inv(s) && t in s.pc && SamePart(s.pc[t], q)
    ensures var r := At(s, t, q); OwnerOk(r) && CountOk(r) && FifoOk(r) && GrantOk(r)
  {
    assert PcOf(At(s, t, q), s.who) == PcOf(s, s.who);
  }

  lemma KeepMove(s: Sem, t: int, q: Pc)
    requires Inv(s) && t in s.pc && SamePart(s.pc[t], q)
    ensures Inv(At(s, t, q))
  {
    MoveLine(s, t, q);
    MoveRest(s, t, q);
  }

  lemma TasLine(s: Sem, t: int)
    requires GuardOk(s) && QueueOk(s) && t in s.pc && (s.pc[t].WTas? || s.pc[t].UTas?)
    ensures GuardOk(Next(s, t)) && QueueOk(Next(s, t))
  {
  }

  lemma TasRest(s: Sem, t: int)
    requires Inv(s) && t in s.pc && (s.pc[t].WTas? || s.pc[t].UTas?)
    ensures var r := Next(s, t); Shape(r.q) && OwnerOk(r) && CountOk(r) && FifoOk(r) && GrantOk(r)
  {
  }

  lemma KeepTas(s: Sem, t: int)
    requires Inv(s) && t in s.pc && (s.pc[t].WTas? || s.pc[t].UTas?)
    ensures Inv(Next(s, t))
  {
    TasLine(s, t);
    TasRest(s, t);
  }

  lemma InLineSlot(s: Sem, t: int)
    requires GuardOk(s) && QueueOk(s) && OwnerOk(s) && t in s.pc && s.pc[t].WFutex? && t in Waiting(s.q)
    ensures 0 <= s.pc[t].slot < XEMQSZ && s.q.slots[s.pc[t].slot] == t
  {
    var w := Waiting(s.q);
    var i :| 0 <= i < |w| && w[i] == t;
    PosApart(s.q, i, 0);
  }

  /** futex_wait returns at once only to the owner: the slot no longer names the thread. */
  lemma FutexReturn(s: Sem, t: int)
    requires Inv(s) && t in s.pc && s.pc[t].WFutex? && Next(s, t).pc[t].Held?
    ensures s.owner == t && t !in Waiting(s.q)
  {
    if t in Waiting(s.q) { InLineSlot(s, t); }
  }

  lemma KeepReturn(s: Sem, t: int)
    requires Inv(s) && t in s.pc && s.pc[t].WFutex? && s.owner == t && t !in Waiting(s.q)
    ensures Inv(At(s, t, Held))
  {
  }

  lemma KeepFutex(s: Sem, t: int)
    requires Inv(s) && t in s.pc && s.pc[t].WFutex?
    ensures Inv(Next(s, t))
  {
    if Next(s, t).pc[t].Held? {
      FutexReturn(s, t);
      KeepReturn(s, t);
    } else {
      KeepMove(s, t, Sleeping(s.pc[t].slot));
    }
  }

  lemma DecLine(s: Sem, t: int)
    requires Inv(s) && t in s.pc && s.pc[t].WDec?
    ensures GuardOk(Next(s, t)) && QueueOk(Next(s, t))
  {
  }

  lemma DecRest(s: Sem, t: int)
    requires Inv(s) && t in s.pc && s.pc[t].WDec?
    ensures var r := Next(s, t); Shape(r.q) && OwnerOk(r) && CountOk(r) && FifoOk(r) && GrantOk(r)
  {
  }

  lemma KeepDec(s: Sem, t: int)
    requires Inv(s) && t in s.pc && s.pc[t].WDec?
    ensures Inv(Next(s, t))
  {
    DecLine(s, t);
    DecRest(s, t);
  }

  lemma KeepGot(s: Sem, t: int)
    requires Inv(s) && t in s.pc && s.pc[t].WGot?
    ensures Inv(Next(s, t))
  {
  }

  lemma KeepQueued(s: Sem, t: int)
    requires Inv(s) && t in s.pc && s.pc[t].WQueued?
    ensures Inv(Next(s, t))
  {
  }

  lemma EnqueueLine(s: Sem, t: int)
    requires Inv(s) && t in s.pc && s.pc[t].WEnq?
    ensures GuardOk(Next(s, t)) && QueueOk(Next(s, t))
  {
    if !Full(s.q) { AddAppends(s.q, t); }
  }

  lemma EnqueueRest(s: Sem, t: int)
    requires Inv(s) && t in s.pc && s.pc[t].WEnq? && QueueOk(Next(s, t))
    ensures OwnerOk(Next(s, t)) && CountOk(Next(s, t)) && FifoOk(Next(s, t)) && GrantOk(Next(s, t))
  {
    if !Full(s.q) { AddAppends(s.q, t); }
  }

  lemma KeepEnqueue(s: Sem, t: int)
    requires Inv(s) && t in s.pc && s.pc[t].WEnq?
    ensures Inv(Next(s, t))
  {
    EnqueueLine(s, t);
    EnqueueRest(s, t);
  }

  lemma IncGuard(s: Sem, t: int)
    requires Shape(s.q) && GuardOk(s) && t in s.pc && s.pc[t].UInc?
    ensures GuardOk(Next(s, t)) && s.who == t && !Handing(s)
  {
  }

  lemma IncLine(s: Sem, t: int)
    requires QueueOk(s) && t in s.pc && s.pc[t].UInc? && s.who == t && !Handing(s)
    ensures QueueOk(Next(s, t))
  {
    FullIs(s.q);
    var r, w := Next(s, t), Waiting(s.q);
    assert Waiting(r.q) == w && forall i :: 0 <= i < |w| ==> w[i] != t;
    if s.q.head != s.q.rear { assert w != [] && r.owner == w[0]; }
  }

  lemma IncRest(s: Sem, t: int)
    requires Inv(s) && t in s.pc && s.pc[t].UInc? && QueueOk(Next(s, t))
    ensures OwnerOk(Next(s, t)) && CountOk(Next(s, t)) && FifoOk(Next(s, t)) && GrantOk(Next(s, t))
  {
    FullIs(s.q);
    assert s.who == t == s.owner && !Handing(s);
    if s.q.head != s.q.rear { HandedOver(s, t); } else { GivenUp(s, t); }
  }

  /** Somebody waits: the head of the queue becomes the owner. */
  lemma HandedOver(s: Sem, t: int)
    requires Inv(s) && t in s.pc && s.pc[t].UInc? && s.who == t == s.owner && s.q.head != s.q.rear
    ensures var r := Next(s, t); Shape(r.q) && OwnerOk(r) && CountOk(r) && FifoOk(r) && GrantOk(r)
  {
    var r, w := Next(s, t), Waiting(s.q);
    assert w != [] && w[0] == s.q.slots[s.q.head] && Waiting(r.q) == w;
    assert InLine(s.pc[w[0]]) && w[0] != t && r.pc == s.pc[t := UWake] && r.owner == w[0];
    assert s.granted + w == (s.granted + [w[0]]) + w[1..];
  }

  /** Nobody waits. */
  lemma GivenUp(s: Sem, t: int)
    requires Inv(s) && t in s.pc && s.pc[t].UInc? && s.who == t == s.owner && s.q.head == s.q.rear
    ensures var r := Next(s, t); Shape(r.q) && OwnerOk(r) && CountOk(r) && FifoOk(r) && GrantOk(r)
  {
    assert Waiting(s.q) == [];
  }

  lemma KeepInc(s: Sem, t: int)
    requires Inv(s) && t in s.pc && s.pc[t].UInc?
    ensures Inv(Next(s, t))
  {
    IncGuard(s, t);
    IncLine(s, t);
    IncRest(s, t);
  }

  /** futex_wake touches the guard's holder and, if it sleeps, the head of the queue. */
  lemma WakeLine(s: Sem, t: int)
    requires Inv(s) && t in s.pc && s.pc[t].UWake?
    ensures GuardOk(Next(s, t)) && QueueOk(Next(s, t))
  {
    WakeQueue(s, t);
    assert s.q.slots[s.q.head] == s.owner;
  }

  lemma WakeQueue(s: Sem, t: int)
    requires QueueOk(s) && t in s.pc && s.pc[t].UWake? && s.who == t
    ensures QueueOk(Next(s, t)) && s.q.slots[s.q.head] == s.owner == Waiting(s.q)[0]
  {
    var r, w := Next(s, t), Waiting(s.q);
    var u := w[0];
    assert Handing(s) && u == s.q.slots[s.q.head] == s.owner && InLine(s.pc[u]);
    assert Handing(r) && r.q == s.q && r.owner == u;
    forall i | 0 < i < |w| ensures r.pc[w[i]] == s.pc[w[i]] {
      assert w[i] != u && InLine(s.pc[w[i]]);
    }
  }

  lemma WakeRest(s: Sem, t: int)
    requires Inv(s) && t in s.pc && s.pc[t].UWake?
    ensures var r := Next(s, t); Shape(r.q) && OwnerOk(r) && CountOk(r) && FifoOk(r) && GrantOk(r)
  {
    var u := Waiting(s.q)[0];
    assert s.who == t && Handing(s) && u == s.q.slots[s.q.head] == s.owner;
  }

  lemma KeepWake(s: Sem, t: int)
    requires Inv(s) && t in s.pc && s.pc[t].UWake?
    ensures Inv(Next(s, t))
  {
    WakeLine(s, t);
    WakeRest(s, t);
  }

  lemma KeepRel(s: Sem, t: int)
    requires Inv(s) && t in s.pc && s.pc[t].URel?
    ensures Inv(Next(s, t))
  {
  }

  lemma RemoveQueue(s: Sem, t: int)
    requires QueueOk(s) && t in s.pc && s.pc[t].URemove? && s.who == t
    ensures QueueOk(Next(s, t))
  {
    FullIs(s.q);
    var r, w := Next(s, t), Waiting(s.q);
    assert Handing(s) && s.q.head != s.q.rear;
    RemoveDrops(s.q);
    assert !Handing(r) && r.pc == s.pc[t := URel] && r.owner == w[0] && Waiting(r.q) == w[1..];
    forall i | 0 <= i < |w| - 1
      ensures w[1..][i] in r.pc && InLine(r.pc[w[1..][i]]) && r.pc[w[1..][i]].slot == Pos(r.q, i) && w[1..][i] != r.owner
    {
      assert w[1..][i] == w[i + 1] && InLine(s.pc[w[i + 1]]) && w[i + 1] != w[0];
    }
  }

  lemma RemoveLine(s: Sem, t: int)
    requires Inv(s) && t in s.pc && s.pc[t].URemove?
    ensures GuardOk(Next(s, t)) && QueueOk(Next(s, t))
  {
    RemoveQueue(s, t);
  }

  lemma RemoveRest(s: Sem, t: int)
    requires Inv(s) && t in s.pc && s.pc[t].URemove?
    ensures var r := Next(s, t); Shape(r.q) && OwnerOk(r) && CountOk(r) && FifoOk(r) && GrantOk(r)
  {
    FullIs(s.q);
    RemoveDrops(s.q);
    assert s.who == t && Handing(s) && s.owner == Waiting(s.q)[0];
  }

  lemma KeepRemove(s: Sem, t: int)
    requires Inv(s) && t in s.pc && s.pc[t].URemove?
    ensures Inv(Next(s, t))
  {
    RemoveLine(s, t);
    RemoveRest(s, t);
  }

  lemma Keep(s: Sem, t: int)
    requires Inv(s) && t in s.pc
    ensures Inv(Next(s, t))
  {
    match s.pc[t]
    case Idle => KeepMove(s, t, WTas);
    case Held => KeepMove(s, t, UTas);
    case WDec => KeepDec(s, t);
    case WGot => KeepGot(s, t);
    case WQueued(_) => KeepQueued(s, t);
    case WTas => KeepTas(s, t);
    case UTas => KeepTas(s, t);
    case WFutex(_) => KeepFutex(s, t);
    case WEnq => KeepEnqueue(s, t);
    case UInc => KeepInc(s, t);
    case UWake => KeepWake(s, t);
    case URemove => KeepRemove(s, t);
    case URel => KeepRel(s, t);
    case Sleeping(_) =>
    case Failed =>
  }

  // ---------- passing the duty on ----------

  /** Thread `t`, whose xem_wait has returned, leaves the unlocking to `u`. While the permit is on
      its way from a queue entry it is not passed on; `u` would find the guard set then anyway. */
  predicate CanHand(s: Sem, t: int, u: int) {
    t in s.pc && u in s.pc && s.pc[t].Held? && s.pc[u].Idle? && !Handing(s)
  }

  function Hand(s: Sem, t: int, u: int): Sem {
    s.(pc := s.pc[t := Idle][u := Held], owner := u, duty := s.duty + [u])
  }

  lemma HandLine(s: Sem, t: int, u: int)
    requires Inv(s) && CanHand(s, t, u)
    ensures GuardOk(Hand(s, t, u)) && QueueOk(Hand(s, t, u)) && !Handing(Hand(s, t, u))
  {
    assert PcOf(Hand(s, t, u), s.who) == PcOf(s, s.who);
    assert t == s.owner && u != t;
  }

  lemma HandRest(s: Sem, t: int, u: int)
    requires Inv(s) && CanHand(s, t, u)
    ensures var r := Hand(s, t, u); OwnerOk(r) && CountOk(r) && FifoOk(r) && GrantOk(r)
  {
    assert PcOf(Hand(s, t, u), s.who) == PcOf(s, s.who);
    assert t == s.owner && u != t;
  }

  lemma KeepHand(s: Sem, t: int, u: int)
    requires Inv(s) && CanHand(s, t, u)
    ensures Inv(Hand(s, t, u))
  {
    HandLine(s, t, u);
    HandRest(s, t, u);
  }

  // ---------- runs ----------

  /** A step of a thread, or the passing of the duty to unlock from one thread to another. */
  datatype Move = Go(t: int) | HandOn(t: int, u: int)

  predicate Of(s: Sem, mv: Move) { mv.t in s.pc && (mv.HandOn? ==> mv.u in s.pc) }

  predicate Users(s: Sem, ms: seq<Move>) { forall i :: 0 <= i < |ms| ==> Of(s, ms[i]) }

  /** Steps neither add nor remove threads. */
  function Step(s: Sem, t: int): (s': Sem)
    requires t in s.pc && Shape(s.q)
    ensures Shape(s'.q) && s'.pc.Keys == s.pc.Keys
  {
    Next(s, t)
  }

  /** A duty that cannot be passed on stays. */
  function Do(s: Sem, mv: Move): (s': Sem)
    requires Of(s, mv) && Shape(s.q)
    ensures Shape(s'.q) && s'.pc.Keys == s.pc.Keys
  {
    match mv
    case Go(t) => Step(s, t)
    case HandOn(t, u) => if CanHand(s, t, u) then Hand(s, t, u) else s
  }

  function Exec(s: Sem, ms: seq<Move>): Sem
    requires Users(s, ms) && Shape(s.q)
    decreases |ms|
  {
    if ms == [] then s else Exec(Do(s, ms[0]), ms[1..])
  }

  lemma KeepDo(s: Sem, mv: Move)
    requires Inv(s) && Of(s, mv)
    ensures Inv(Do(s, mv))
  {
    match mv
    case Go(t) => Keep(s, t);
    case HandOn(t, u) => if CanHand(s, t, u) { KeepHand(s, t, u); }
  }

  lemma {:induction false} ExecInv(s: Sem, ms: seq<Move>)
    requires Inv(s) && Users(s, ms)
    ensures Inv(Exec(s, ms)) && Exec(s, ms).pc.Keys == s.pc.Keys
    decreases |ms|
  {
    if ms != [] {
      KeepDo(s, ms[0]);
      ExecInv(Do(s, ms[0]), ms[1..]);
    }
  }

  /** Every interleaving: one thread at most is to unlock, and its duty has come to it from the
      thread granted the permit last; between guard sections the count is one less the holder
      less the queue, and a queue implies a holder; the permit is granted in the order in which
      threads asked for it. */
  lemma SemaphoreSafe(threads: set<int>, ms: seq<Move>)
    requires (forall t :: t in threads ==> 0 <= t) && Users(Init(threads), ms)
    ensures var s := Exec(Init(threads), ms);
            && Shape(s.q)
            && (forall t, u :: t in s.pc && u in s.pc && Owning(s.pc[t]) && Owning(s.pc[u]) ==> t == u)
            && (forall t :: t in s.pc && Owning(s.pc[t]) ==>
                  && t == s.owner && s.granted != [] && s.duty != []
                  && s.duty[0] == s.granted[|s.granted| - 1] && s.duty[|s.duty| - 1] == t)
            && (!s.guard ==> s.count == 1 - B2i(s.owner != NONE) - |Waiting(s.q)|)
            && (!s.guard && Waiting(s.q) != [] ==> s.owner != NONE)
            && s.granted <= s.arrived
            && (!s.guard ==> s.arrived == s.granted + Waiting(s.q))
  {
    InitInv(threads);
    ExecInv(Init(threads), ms);
  }

  // ---------- a first-come-first-served semaphore ----------

  /** The permit and those who wait for it, whatever stage of the code they are at. */
  ghost function Permit(s: Sem): Fcfs.Sem
    requires Inv(s)
  {
    Fcfs.Sem(s.owner, s.arrived[|s.granted|..])
  }

  /** The queue of the permit is the ring's, less a thread that is being handed the permit and
      with the thread that is about to join. */
  lemma PermitQueue(s: Sem)
    requires Inv(s)
    ensures !s.guard ==> Permit(s).queue == Waiting(s.q)
    ensures Permit(s).queue == (if Handing(s) then Waiting(s.q)[1..] else Waiting(s.q))
                               + (if PcOf(s, s.who).WEnq? || PcOf(s, s.who).Failed? then [s.who] else [])
  {
  }

  /** A thread that neither waits nor holds is neither the owner nor in the permit's queue. */
  lemma Outside(s: Sem, t: int)
    requires Inv(s) && t in s.pc && (s.pc[t].Idle? || s.pc[t].WDec?)
    ensures t != s.owner && t !in Permit(s).queue
  {
    PermitQueue(s);
    NotInLine(s, t);
  }

  lemma NotInLine(s: Sem, t: int)
    requires QueueOk(s) && t in s.pc && !InLine(s.pc[t])
    ensures Handing(s) ==> Waiting(s.q) != [] && t !in Waiting(s.q)[1..]
    ensures !Handing(s) ==> t !in Waiting(s.q)
  {
    var w := Waiting(s.q);
    forall i | 0 <= i < |w| && (i > 0 || !Handing(s)) ensures w[i] != t { assert InLine(s.pc[w[i]]); }
  }

  lemma AskStep(s: Sem, t: int)
    requires Inv(s) && t in s.pc && s.pc[t].WDec? && Inv(Next(s, t))
    ensures Permit(Next(s, t)) == Fcfs.Wait(Permit(s), t)
  {
    assert s.who == t && !Handing(s);
    PermitQueue(s);
    assert s.count > 0 <==> s.owner == NONE;
  }

  lemma GiveStep(s: Sem, t: int)
    requires Inv(s) && t in s.pc && s.pc[t].UInc? && Inv(Next(s, t))
    ensures t == s.owner && Permit(Next(s, t)) == Fcfs.Unlock(Permit(s))
  {
    assert s.who == t && !Handing(s);
    PermitQueue(s);
    FullIs(s.q);
    if s.q.head != s.q.rear { assert s.q.slots[s.q.head] == Waiting(s.q)[0]; }
  }

  lemma OtherStep(s: Sem, t: int)
    requires t in s.pc && !s.pc[t].WDec? && !s.pc[t].UInc? && Shape(s.q)
    ensures var s1 := Next(s, t); s1.owner == s.owner && s1.arrived == s.arrived && s1.granted == s.granted
  {
  }

  /** The wait, unlock or passing on that takes effect with a move, if any. */
  function CallOf(s: Sem, mv: Move): seq<Fcfs.Call>
    requires Of(s, mv)
  {
    match mv
    case Go(t) => if s.pc[t].WDec? then [Fcfs.Ask(t)] else if s.pc[t].UInc? then [Fcfs.Give(t)] else []
    case HandOn(t, u) => if CanHand(s, t, u) then [Fcfs.Hand(t, u)] else []
  }

  /** The decrement is an atomic wait, the increment an atomic unlock by whoever has the duty,
      passing the duty on is just that, and no other step moves the permit or the order of those
      who wait. */
  lemma PermitStep(s: Sem, mv: Move)
    requires Inv(s) && Of(s, mv)
    ensures Inv(Do(s, mv)) && Fcfs.Legal(Permit(s), CallOf(s, mv))
    ensures Permit(Do(s, mv)) == Fcfs.Serial(Permit(s), CallOf(s, mv))
  {
    KeepDo(s, mv);
    var t := mv.t;
    if mv.HandOn? {
      if CanHand(s, t, mv.u) {
        Outside(s, mv.u);
        Fcfs.OneCall(Permit(s), Fcfs.Hand(t, mv.u));
      }
    } else if s.pc[t].WDec? {
      AskStep(s, t);
      Outside(s, t);
      Fcfs.OneCall(Permit(s), Fcfs.Ask(t));
    } else if s.pc[t].UInc? {
      GiveStep(s, t);
      Fcfs.OneCall(Permit(s), Fcfs.Give(t));
    } else {
      OtherStep(s, t);
    }
  }

  /** The waits, unlocks and passings on of a run, in the order in which they take effect. */
  function Calls(s: Sem, ms: seq<Move>): seq<Fcfs.Call>
    requires Users(s, ms) && Shape(s.q)
    decreases |ms|
  {
    if ms == [] then [] else CallOf(s, ms[0]) + Calls(Do(s, ms[0]), ms[1..])
  }

  /** Every interleaving of machine steps moves the permit as its waits and unlocks would if each
      took effect at once, and uses it as is allowed. */
  lemma {:induction false} Linearises(s: Sem, ms: seq<Move>)
    requires Inv(s) && Users(s, ms)
    ensures Inv(Exec(s, ms)) && Permit(Exec(s, ms)) == Fcfs.Serial(Permit(s), Calls(s, ms))
    ensures Fcfs.Legal(Permit(s), Calls(s, ms))
    decreases |ms|
  {
    if ms != [] {
      PermitStep(s, ms[0]);
      var s1 := Do(s, ms[0]);
      Linearises(s1, ms[1..]);
      Fcfs.Append(Permit(s), CallOf(s, ms[0]), Calls(s1, ms[1..]));
    }
  }

  // ---------- queue_add fails exactly with more than XEMQSZ users ----------

  lemma {:induction false} DistinctBound(w: seq<int>, all: set<int>)
    requires forall i :: 0 <= i < |w| ==> w[i] in all
    requires forall i, j :: 0 <= i < j < |w| ==> w[i] != w[j]
    ensures |w| <= |all|
  {
    if w != [] { DistinctBound(w[1..], all - {w[0]}); }
  }

  lemma RoomInQueue(s: Sem, t: int)
    requires Inv(s) && t in s.pc && s.pc[t].WEnq? && |s.pc.Keys| <= XEMQSZ
    ensures !Full(s.q)
  {
    var rest := s.pc.Keys - {t, s.owner};
    assert t != s.owner && {t, s.owner} <= s.pc.Keys;
    assert |rest| == |s.pc.Keys| - |{t, s.owner}|;
    DistinctBound(Waiting(s.q), rest);
    FullIs(s.q);
  }

  ghost predicate AnyFailed(s: Sem) { exists t :: t in s.pc && s.pc[t].Failed? }

  lemma NoFailStep(s: Sem, t: int)
    requires Inv(s) && t in s.pc && |s.pc.Keys| <= XEMQSZ && !AnyFailed(s)
    ensures !AnyFailed(Next(s, t))
  {
    if s.pc[t].WEnq? { RoomInQueue(s, t); }
  }

  lemma {:induction false} NeverFails(s: Sem, ms: seq<Move>)
    requires Inv(s) && Users(s, ms) && |s.pc.Keys| <= XEMQSZ && !AnyFailed(s)
    ensures !AnyFailed(Exec(s, ms))
    decreases |ms|
  {
    if ms != [] {
      KeepDo(s, ms[0]);
      if ms[0].Go? { NoFailStep(s, ms[0].t); }
      NeverFails(Do(s, ms[0]), ms[1..]);
    }
  }

  lemma {:induction false} ExecAppend(s: Sem, ts: seq<Move>, us: seq<Move>)
    requires Users(s, ts) && Users(s, us) && Shape(s.q)
    ensures Users(s, ts + us) && Shape(Exec(s, ts).q) && Users(Exec(s, ts), us)
    ensures Exec(s, ts + us) == Exec(Exec(s, ts), us)
    decreases |ts|
  {
    if ts == [] {
      assert ts + us == us;
    } else {
      assert (ts + us)[0] == ts[0] && (ts + us)[1..] == ts[1..] + us;
      ExecAppend(Do(s, ts[0]), ts[1..], us);
    }
  }

  function Gos(t: int, n: nat): seq<Move> { seq(n, _ => Go(t)) }

  /** `n` steps of thread `t` alone. */
  function Solo(s: Sem, t: int, n: nat): Sem
    requires t in s.pc && Shape(s.q)
    decreases n
  {
    if n == 0 then s else Solo(Step(s, t), t, n - 1)
  }

  lemma SoloTwo(s: Sem, t: int, n: nat)
    requires t in s.pc && Shape(s.q)
    ensures Solo(s, t, n + 2) == Solo(Step(Step(s, t), t), t, n)
  {
    assert Solo(s, t, n + 2) == Solo(Step(s, t), t, n + 1);
  }

  lemma {:induction false} SoloRun(s: Sem, t: int, n: nat)
    requires t in s.pc && Shape(s.q)
    ensures Users(s, Gos(t, n)) && Exec(s, Gos(t, n)) == Solo(s, t, n)
    decreases n
  {
    if n > 0 {
      assert Gos(t, n)[1..] == Gos(t, n - 1);
      SoloRun(Step(s, t), t, n - 1);
    }
  }

  /** `hs[0]` holds the permit, `hs[1..m+1]` are queued and the others have not started. */
  ghost predicate Lined(s: Sem, hs: seq<int>, m: nat)
    requires m < |hs|
  {
    && Valid(s.q) && !s.guard && s.count == 0 - m && Waiting(s.q) == hs[1..m + 1]
    && (forall i :: 0 <= i < |hs| ==> hs[i] in s.pc)
    && (forall i :: m < i < |hs| ==> s.pc[hs[i]].Idle?)
    && (forall i :: 0 < i <= m ==> s.pc[hs[i]].WFutex?)
    && s.pc[hs[0]].Held?
  }

  /** Five steps take the next thread into the queue. */
  lemma JoinQueue(s: Sem, hs: seq<int>, m: nat)
    requires m + 1 < |hs| && m < XEMQSZ - 1 && Lined(s, hs, m)
    requires forall i, j :: 0 <= i < j < |hs| ==> hs[i] != hs[j]
    ensures Lined(Solo(s, hs[m + 1], 5), hs, m + 1)
  {
    var t := hs[m + 1];
    FullIs(s.q);
    AddAppends(s.q, t);
    QueueUp(s, t);
    LinedNext(s, Solo(s, t, 5), hs, m);
  }

  lemma LinedNext(s: Sem, s': Sem, hs: seq<int>, m: nat)
    requires m + 1 < |hs| && Lined(s, hs, m) && forall i, j :: 0 <= i < j < |hs| ==> hs[i] != hs[j]
    requires Valid(s'.q) && Waiting(s'.q) == Waiting(s.q) + [hs[m + 1]] && s'.count == s.count - 1 && !s'.guard
    requires s'.pc == s.pc[hs[m + 1] := WFutex(s.q.rear)]
    ensures Lined(s', hs, m + 1)
  {
    assert hs[1..m + 2] == hs[1..m + 1] + [hs[m + 1]];
  }

  /** Three steps into xem_wait, with no permit to be had. */
  lemma AskInVain(s: Sem, t: int)
    requires t in s.pc && s.pc[t].Idle? && !s.guard && s.count <= 0 && Shape(s.q)
    ensures Step(Step(Step(s, t), t), t)
         == s.(guard := true, who := t, count := s.count - 1, arrived := s.arrived + [t], pc := s.pc[t := WEnq])
  {
    assert s.pc[t := WTas][t := WDec] == s.pc[t := WDec];
    assert s.pc[t := WDec][t := WEnq] == s.pc[t := WEnq];
  }

  lemma QueueUp(s: Sem, t: int)
    requires t in s.pc && s.pc[t].Idle? && !s.guard && s.count <= 0 && Shape(s.q) && !Full(s.q)
    ensures var s' := Solo(s, t, 5);
      s'.q == Add(s.q, t) && s'.pc == s.pc[t := WFutex(s.q.rear)] && s'.count == s.count - 1 && !s'.guard
  {
    AskInVain(s, t);
    var s3 := Step(Step(Step(s, t), t), t);
    SoloTwo(s, t, 3);
    assert Solo(Step(Step(s, t), t), t, 3) == Solo(s3, t, 2);
    SoloTwo(s3, t, 0);
    assert s.pc[t := WEnq][t := WQueued(s.q.rear)] == s.pc[t := WQueued(s.q.rear)];
    assert s.pc[t := WQueued(s.q.rear)][t := WFutex(s.q.rear)] == s.pc[t := WFutex(s.q.rear)];
  }

  lemma FirstHolder(threads: set<int>, hs: seq<int>)
    requires hs != [] && forall i :: 0 <= i < |hs| ==> hs[i] in threads
    requires forall i, j :: 0 <= i < j < |hs| ==> hs[i] != hs[j]
    ensures Lined(Solo(Init(threads), hs[0], 4), hs, 0)
  {
    var s, t := Init(threads), hs[0];
    var s1 := Step(s, t);
    var s2 := Step(s1, t);
    var s3 := Step(s2, t);
    var s4 := Step(s3, t);
    assert s4.pc == s.pc[t := Held] && s4.q == s.q;
    SoloTwo(s, t, 2);
    SoloTwo(s2, t, 0);
    assert Waiting(s.q) == [] == hs[1..1];
  }

  /** A run, and then `n` steps of thread `t` alone. */
  lemma ThenSolo(s: Sem, ts: seq<Move>, t: int, n: nat)
    requires Users(s, ts) && Shape(s.q) && t in s.pc
    ensures var us := Gos(t, n); Users(s, ts + us) && Shape(Exec(s, ts).q) && t in Exec(s, ts).pc
    ensures var us := Gos(t, n); Users(s, ts + us) && Exec(s, ts + us) == Solo(Exec(s, ts), t, n)
  {
    var us := Gos(t, n);
    ExecAppend(s, ts, us);
    ExecKeys(s, ts);
    SoloRun(Exec(s, ts), t, n);
  }

  lemma {:induction false} ExecKeys(s: Sem, ts: seq<Move>)
    requires Users(s, ts) && Shape(s.q)
    ensures Exec(s, ts).pc.Keys == s.pc.Keys
    decreases |ts|
  {
    if ts != [] { ExecKeys(Do(s, ts[0]), ts[1..]); }
  }

  lemma {:induction false} LineUp(threads: set<int>, hs: seq<int>, m: nat) returns (ts: seq<Move>)
    requires m < |hs| && m < XEMQSZ && forall i :: 0 <= i < |hs| ==> hs[i] in threads
    requires forall i, j :: 0 <= i < j < |hs| ==> hs[i] != hs[j]
    ensures Users(Init(threads), ts) && Lined(Exec(Init(threads), ts), hs, m)
    decreases m
  {
    var s := Init(threads);
    if m == 0 {
      ts := Gos(hs[0], 4);
      SoloRun(s, hs[0], 4);
      FirstHolder(threads, hs);
    } else {
      ts := LineUp(threads, hs, m - 1);
      ThenSolo(s, ts, hs[m], 5);
      JoinQueue(Exec(s, ts), hs, m - 1);
      ts := ts + Gos(hs[m], 5);
    }
  }

  /** With the queue full, four steps of one more thread end in failure. */
  lemma OneTooMany(s: Sem, hs: seq<int>)
    requires |hs| > XEMQSZ && Lined(s, hs, XEMQSZ - 1)
    ensures var s' := Solo(s, hs[XEMQSZ], 4); hs[XEMQSZ] in s'.pc && s'.pc[hs[XEMQSZ]].Failed?
  {
    var t := hs[XEMQSZ];
    FullIs(s.q);
    var s1 := Step(s, t);
    var s2 := Step(s1, t);
    var s3 := Step(s2, t);
    var s4 := Step(s3, t);
    assert s4.pc[t].Failed?;
    SoloTwo(s, t, 2);
    SoloTwo(s2, t, 0);
  }

  lemma Some(all: set<int>) returns (t: int)
    requires |all| > 0
    ensures t in all
  {
    var none: set<int> := {};
    assert (forall t :: t in all <==> t in none) ==> all == none;
    t :| t in all;
  }

  lemma {:induction false} Enumerate(all: set<int>, n: nat) returns (hs: seq<int>)
    requires n <= |all|
    ensures |hs| == n && (forall i :: 0 <= i < n ==> hs[i] in all)
    ensures forall i, j :: 0 <= i < j < n ==> hs[i] != hs[j]
    decreases n
  {
    if n == 0 {
      hs := [];
    } else {
      var t := Some(all);
      hs := Enumerate(all - {t}, n - 1);
      hs := hs + [t];
    }
  }

  ghost predicate CanFail(threads: set<int>) {
    exists ts :: Users(Init(threads), ts) && AnyFailed(Exec(Init(threads), ts))
  }

  /** xem_wait can find the queue full exactly when the semaphore has more than XEMQSZ users. */
  lemma QueueFullExactly(threads: set<int>)
    requires forall t :: t in threads ==> 0 <= t
    ensures CanFail(threads) <==> |threads| > XEMQSZ
  {
    var s := Init(threads);
    assert s.pc.Keys == threads;
    if |threads| > XEMQSZ {
      var hs := Enumerate(threads, XEMQSZ + 1);
      var ts := LineUp(threads, hs, XEMQSZ - 1);
      var us := Gos(hs[XEMQSZ], 4);
      ExecAppend(s, ts, us);
      SoloRun(Exec(s, ts), hs[XEMQSZ], 4);
      OneTooMany(Exec(s, ts), hs);
      assert AnyFailed(Exec(s, ts + us));
    } else {
      InitInv(threads);
      forall ts | Users(s, ts) ensures !AnyFailed(Exec(s, ts)) { NeverFails(s, ts); }
    }
  }

  // ---------- the lost wake-up ----------

  /** The permit belongs to a sleeper that no queue entry names any more. */
  ghost predicate Lost(s: Sem)
    requires Shape(s.q)
  {
    s.owner in s.pc && s.pc[s.owner].Sleeping? && s.owner !in Waiting(s.q)
  }

  /** Then nobody is ever granted the permit again, whatever runs next. */
  lemma LostStays(s: Sem, t: int)
    requires Inv(s) && Lost(s) && t in s.pc
    ensures Lost(Next(s, t)) && Next(s, t).granted == s.granted
  {
    if s.pc[t].WEnq? && !Full(s.q) { AddAppends(s.q, t); }
  }

  lemma {:induction false} LostForever(s: Sem, ms: seq<Move>)
    requires Inv(s) && Lost(s) && Users(s, ms)
    ensures Shape(Exec(s, ms).q) && Lost(Exec(s, ms)) && Exec(s, ms).granted == s.granted
    decreases |ms|
  {
    if ms != [] {
      KeepDo(s, ms[0]);
      if ms[0].Go? { LostStays(s, ms[0].t); }
      LostForever(Do(s, ms[0]), ms[1..]);
    }
  }

  /** A holder sets the guard to unlock. */
  lemma ToUnlock(s: Sem, a: int)
    requires a in s.pc && s.pc[a].Held? && !s.guard && Shape(s.q)
    ensures Step(Step(s, a), a) == s.(guard := true, who := a, pc := s.pc[a := UInc])
  {
    assert s.pc[a := UTas][a := UInc] == s.pc[a := UInc];
  }

  /** It passes the permit to the head of the queue and wakes nobody, if that one is not asleep. */
  lemma ToRemove(s: Sem, a: int, b: int)
    requires a in s.pc && s.pc[a].UInc? && Shape(s.q) && s.q.head != s.q.rear && s.q.slots[s.q.head] == b
    requires a != b && b in s.pc && !s.pc[b].Sleeping?
    ensures var s' := Step(Step(s, a), a); s'.q == s.q && s'.owner == b && s'.pc == s.pc[a := URemove]
  {
    assert s.pc[a := UWake][a := URemove] == s.pc[a := URemove];
  }

  /** Four steps of holder `a`: futex_wake has found `b` not asleep yet; `b` is still at the head. */
  lemma WakeTooEarly(s: Sem, a: int, b: int)
    requires a != b && Lined(s, [a, b], 1) && b in s.pc && s.pc[b] == WFutex(s.q.head)
    ensures var s4 := Solo(s, a, 4);
            && s4.q == s.q && s4.owner == b && s4.pc == s.pc[a := URemove]
            && s.q.head != s.q.rear && Length(s.q) == 1 && s.q.slots[s.q.head] == b
  {
    assert [a, b][0] == a && [a, b][1] == b && Waiting(s.q) == [b];
    FullIs(s.q);
    RemoveDrops(s.q);
    ToUnlock(s, a);
    var s2 := Step(Step(s, a), a);
    ToRemove(s2, a, b);
    SoloTwo(s, a, 2);
    SoloTwo(s2, a, 0);
  }

  /** Then `b` compares, finds its id in the slot, and sleeps for good. */
  lemma SleepTooLate(s4: Sem, a: int, b: int)
    requires Valid(s4.q) && a != b && a in s4.pc && b in s4.pc && s4.pc[a].URemove? && s4.pc[b].WFutex?
    requires s4.q.head != s4.q.rear && Length(s4.q) == 1 && s4.pc[b].slot == s4.q.head && s4.q.slots[s4.q.head] == b
    requires s4.owner == b
    ensures Lost(Step(Step(s4, b), a))
  {
    RemoveDrops(s4.q);
  }

  lemma LinedSlot(s: Sem, a: int, b: int)
    requires Inv(s) && Lined(s, [a, b], 1)
    ensures a in s.pc && b in s.pc && s.pc[b] == WFutex(s.q.head)
  {
    assert [a, b][0] == a && [a, b][1] == b && Waiting(s.q)[0] == b;
    assert Pos(s.q, 0) == s.q.head;
  }

  lemma ExecTwo(s: Sem, t: int, u: int)
    requires t in s.pc && u in s.pc && Shape(s.q)
    ensures Users(s, [Go(t), Go(u)]) && Exec(s, [Go(t), Go(u)]) == Step(Step(s, t), u)
  {
    assert [Go(t), Go(u)][1..] == [Go(u)] && [Go(u)][1..] == [];
    assert Exec(Step(s, t), [Go(u)]) == Exec(Step(Step(s, t), u), []);
  }

  lemma LoseWakeUp(s: Sem, a: int, b: int) returns (ts: seq<Move>)
    requires a != b && Lined(s, [a, b], 1) && a in s.pc && b in s.pc && s.pc[b] == WFutex(s.q.head)
    ensures Users(s, ts) && Shape(Exec(s, ts).q) && Lost(Exec(s, ts))
  {
    SoloRun(s, a, 4);
    WakeTooEarly(s, a, b);
    SleepTooLate(Solo(s, a, 4), a, b);
    ExecTwo(Solo(s, a, 4), b, a);
    assert Users(s, [Go(b), Go(a)]);
    ExecAppend(s, Gos(a, 4), [Go(b), Go(a)]);
    ts := Gos(a, 4) + [Go(b), Go(a)];
  }

  /** Two threads are enough: some run of theirs ends with the permit lost. */
  lemma LostIsReachable() returns (ts: seq<Move>)
    ensures Users(Init({0, 1}), ts) && Shape(Exec(Init({0, 1}), ts).q) && Lost(Exec(Init({0, 1}), ts))
  {
    var s := Init({0, 1});
    InitInv({0, 1});
    ts := LineUp({0, 1}, [0, 1], 1);
    ExecInv(s, ts);
    LinedSlot(Exec(s, ts), 0, 1);
    var us := LoseWakeUp(Exec(s, ts), 0, 1);
    ExecAppend(s, ts, us);
    ts := ts + us;
  }

  /** The head of the queue does its futex compare after futex_wake and before queue_remove. */
  predicate Race(s: Sem, t: int)
    requires t in s.pc && Shape(s.q)
  {
    s.pc[t].WFutex? && PcOf(s, s.who).URemove? && s.q.slots[s.q.head] == t
  }

  /** No sleeper is, or is about to be, forgotten. */
  ghost predicate Awake(s: Sem)
    requires Shape(s.q)
  {
    !Lost(s) && (PcOf(s, s.who).URemove? ==> !PcOf(s, s.q.slots[s.q.head]).Sleeping?)
  }

  lemma AwakeFutex(s: Sem, t: int)
    requires Inv(s) && Awake(s) && t in s.pc && s.pc[t].WFutex?
    ensures Awake(Next(s, t)) <==> !Race(s, t)
  {
    FullIs(s.q);
    if Handing(s) { RemoveDrops(s.q); }
    if t in Waiting(s.q) { InLineSlot(s, t); } else { SlotElsewhere(s, t); }
  }

  /** A thread that is not queued is named by no slot. */
  lemma SlotElsewhere(s: Sem, t: int)
    requires GuardOk(s) && QueueOk(s) && t in s.pc && t !in Waiting(s.q)
    ensures forall j :: 0 <= j < XEMQSZ ==> s.q.slots[j] != t
  {
    forall j | 0 <= j < XEMQSZ ensures s.q.slots[j] != t {
      var i := Wrap(j - s.q.head);
      if i < Length(s.q) { assert Pos(s.q, i) == j && Waiting(s.q)[i] == s.q.slots[j]; }
    }
  }

  lemma AwakeInc(s: Sem, t: int)
    requires Inv(s) && Awake(s) && t in s.pc && s.pc[t].UInc?
    ensures Awake(Next(s, t))
  {
    FullIs(s.q);
    if s.q.head != s.q.rear { RemoveDrops(s.q); }
  }

  lemma AwakeWake(s: Sem, t: int)
    requires Inv(s) && Awake(s) && t in s.pc && s.pc[t].UWake?
    ensures Awake(Next(s, t))
  {
    FullIs(s.q);
    RemoveDrops(s.q);
    assert s.who == t && Handing(s) && s.owner == Waiting(s.q)[0] == s.q.slots[s.q.head];
  }

  lemma AwakeRemove(s: Sem, t: int)
    requires Inv(s) && Awake(s) && t in s.pc && s.pc[t].URemove?
    ensures Shape(Next(s, t).q) && Awake(Next(s, t))
  {
    FullIs(s.q);
    RemoveDrops(s.q);
    assert s.who == t && Handing(s) && s.owner == Waiting(s.q)[0] == s.q.slots[s.q.head];
  }

  lemma AwakeUnlock(s: Sem, t: int)
    requires Inv(s) && Awake(s) && t in s.pc && (s.pc[t].UInc? || s.pc[t].UWake? || s.pc[t].URemove? || s.pc[t].URel?)
    ensures Shape(Next(s, t).q) && Awake(Next(s, t))
  {
    if s.pc[t].UInc? { AwakeInc(s, t); }
    else if s.pc[t].UWake? { AwakeWake(s, t); }
    else if s.pc[t].URemove? { AwakeRemove(s, t); }
  }

  /** One step: a wake-up gets lost exactly by a race. */
  lemma AwakeUnlessRace(s: Sem, t: int)
    requires Inv(s) && Awake(s) && t in s.pc
    ensures Shape(Next(s, t).q) && (Awake(Next(s, t)) <==> !Race(s, t))
  {
    if s.pc[t].WFutex? {
      AwakeFutex(s, t);
    } else if s.pc[t].UInc? || s.pc[t].UWake? || s.pc[t].URemove? || s.pc[t].URel? {
      AwakeUnlock(s, t);
    } else {
      AwakeWait(s, t);
    }
  }

  lemma AwakeWait(s: Sem, t: int)
    requires Inv(s) && Awake(s) && t in s.pc && !s.pc[t].WFutex?
    requires !s.pc[t].UInc? && !s.pc[t].UWake? && !s.pc[t].URemove? && !s.pc[t].URel?
    ensures Shape(Next(s, t).q) && Awake(Next(s, t))
  {
    if s.pc[t].WEnq? && !Full(s.q) { AddAppends(s.q, t); }
  }

  /** Some step of the run is a race. */
  predicate Races(s: Sem, ms: seq<Move>)
    requires Users(s, ms) && Shape(s.q)
    decreases |ms|
  {
    ms != [] && ((ms[0].Go? && Race(s, ms[0].t)) || Races(Do(s, ms[0]), ms[1..]))
  }

  lemma AwakeHand(s: Sem, t: int, u: int)
    requires Inv(s) && Awake(s) && CanHand(s, t, u)
    ensures Awake(Hand(s, t, u))
  {
    assert PcOf(Hand(s, t, u), s.who) == PcOf(s, s.who);
  }

  /** The head of the queue has gone to sleep on an entry that is about to be removed. */
  ghost predicate Doomed(s: Sem)
    requires Shape(s.q)
  {
    PcOf(s, s.who).URemove? && PcOf(s, s.q.slots[s.q.head]).Sleeping?
  }

  lemma DoomedStep(s: Sem, t: int)
    requires Inv(s) && Doomed(s) && t in s.pc && Inv(Next(s, t))
    ensures Doomed(Next(s, t)) || Lost(Next(s, t))
  {
    FullIs(s.q);
    assert s.who in s.pc && Handing(s) && s.q.head != s.q.rear;
    RemoveDrops(s.q);
    var u := s.q.slots[s.q.head];
    assert u == Waiting(s.q)[0] == s.owner && u in s.pc && s.pc[u].Sleeping? && u != s.who;
    if t == s.who { DoomedLost(s, t); } else { DoomedOther(s, t); }
  }

  lemma DoomedLost(s: Sem, t: int)
    requires QueueOk(s) && t in s.pc && s.pc[t].URemove? && s.who == t && s.q.head != s.q.rear
    requires s.owner == Waiting(s.q)[0] && s.owner in s.pc && s.owner != t && s.pc[s.owner].Sleeping?
    ensures Lost(Next(s, t))
  {
    RemoveDrops(s.q);
    var w := Waiting(s.q);
    forall i | 0 < i < |w| ensures w[i] != w[0] { }
  }

  /** The guard is set by another thread: `t` does not get at the queue. */
  lemma DoomedOther(s: Sem, t: int)
    requires GuardOk(s) && Shape(s.q) && t in s.pc && t != s.who && s.who in s.pc && Doomed(s)
    ensures Doomed(Next(s, t))
  {
    assert !InGuard(s.pc[t]) && s.guard;
  }

  /** Once a wake-up is lost, or about to be, that is so for good. */
  lemma AsleepStays(s: Sem, mv: Move)
    requires Inv(s) && !Awake(s) && Of(s, mv)
    ensures Shape(Do(s, mv).q) && !Awake(Do(s, mv))
  {
    if mv.Go? {
      Keep(s, mv.t);
      if Lost(s) { LostStays(s, mv.t); } else { DoomedStep(s, mv.t); }
    }
  }

  /** From a state with no wake-up lost, none is at the end of the run exactly if nobody raced. */
  lemma {:induction false} AwakeOver(s: Sem, ms: seq<Move>)
    requires Inv(s) && Users(s, ms)
    ensures Shape(Exec(s, ms).q) && (Awake(Exec(s, ms)) <==> Awake(s) && !Races(s, ms))
    decreases |ms|
  {
    if ms != [] {
      KeepDo(s, ms[0]);
      AwakeMove(s, ms[0]);
      AwakeOver(Do(s, ms[0]), ms[1..]);
    }
  }

  lemma AwakeMove(s: Sem, mv: Move)
    requires Inv(s) && Of(s, mv)
    ensures Shape(Do(s, mv).q) && (Awake(Do(s, mv)) <==> Awake(s) && !(mv.Go? && Race(s, mv.t)))
  {
    if !Awake(s) {
      AsleepStays(s, mv);
    } else {
      match mv
      case Go(t) => AwakeUnlessRace(s, t);
      case HandOn(t, u) => if CanHand(s, t, u) { AwakeHand(s, t, u); }
    }
  }

  /** Over every interleaving: a wake-up is lost, or about to be, exactly if somebody has raced. */
  lemma AwakeExactly(threads: set<int>, ms: seq<Move>)
    requires (forall t :: t in threads ==> 0 <= t) && Users(Init(threads), ms)
    ensures Shape(Exec(Init(threads), ms).q) && (Awake(Exec(Init(threads), ms)) <==> !Races(Init(threads), ms))
  {
    InitInv(threads);
    assert Waiting(Init(threads).q) == [];
    AwakeOver(Init(threads), ms);
  }
}
