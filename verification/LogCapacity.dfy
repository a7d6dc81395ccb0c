/** Log space. `begin_op` reserves MAXOPBLOCKS entries per operation out of LOGSIZE,
    while `log_write` panics at LOGSIZE entries or at `log.size - 1`, whichever is
    less, and before it looks whether the block is logged already. New entries within
    the reservation are safe exactly when `log.size` exceeds LOGSIZE, and mkfs.c makes
    it equal to LOGSIZE; a block that is logged already cannot be written once more
    when the log is full. */
module LogCapacity {
  import opened Blocks
  import Lists
  import opened RedoLog
  import opened LogMachine

  /** Operation `i` adds a log entry only within its reservation. A `log_write` of a block that
      is logged already adds none. */
  predicate KeepsTo(s: State, e: Event)
    requires Enabled(s, e)
  {
    e.LogWrite? && e.bno !in s.lh ==> s.ops[e.i].added < MAXOPBLOCKS
  }

  /** No operation adds more than MAXOPBLOCKS log entries. */
  predicate Disciplined(s: State, es: seq<Event>)
    requires CanRun(s, es)
    decreases |es|
  {
    es != [] ==> KeepsTo(s, es[0]) && Disciplined(Do(s, es[0]), es[1..])
  }

  /** Log entries that the open operations have reserved and not used. */
  function Unused(ops: seq<Op>): int {
    if ops == [] then 0 else (MAXOPBLOCKS - ops[0].added) + Unused(ops[1..])
  }

  lemma {:induction false} UnusedSplit(a: seq<Op>, b: seq<Op>)
    ensures Unused(a + b) == Unused(a) + Unused(b)
  {
    if a == [] {
      assert a + b == b;
    } else {
      assert (a + b)[1..] == a[1..] + b;
      UnusedSplit(a[1..], b);
    }
  }

  lemma UnusedAt(ops: seq<Op>, i: nat)
    requires i < |ops|
    ensures Unused(ops) == Unused(ops[..i]) + (MAXOPBLOCKS - ops[i].added) + Unused(ops[i + 1..])
  {
    assert ops == ops[..i] + ([ops[i]] + ops[i + 1..]);
    UnusedSplit(ops[..i], [ops[i]] + ops[i + 1..]);
    UnusedSplit([ops[i]], ops[i + 1..]);
  }

  predicate WithinReservation(ops: seq<Op>) {
    forall i :: 0 <= i < |ops| ==> ops[i].added <= MAXOPBLOCKS
  }

  lemma {:induction false} UnusedBounds(ops: seq<Op>)
    requires WithinReservation(ops)
    ensures 0 <= Unused(ops) <= MAXOPBLOCKS * |ops|
  {
    if ops != [] { UnusedBounds(ops[1..]); }
  }

  /** The reservation invariant of `begin_op`. */
  ghost predicate Reserved(s: State) {
    && WithinReservation(s.ops)
    && |s.lh| + Unused(s.ops) <= LOGSIZE
  }

  /** An operation within its reservation has room for a new entry. */
  lemma RoomForNew(s: State, i: nat)
    requires Reserved(s) && i < |s.ops| && s.ops[i].added < MAXOPBLOCKS
    ensures |s.lh| < LOGSIZE
  {
    UnusedAt(s.ops, i);
    UnusedBounds(s.ops[..i]);
    UnusedBounds(s.ops[i + 1..]);
  }

  lemma ReservedLogWrite(s: State, i: nat, b: int, x: Block)
    requires s.phase.Running? && Reserved(s) && i < |s.ops| && (b !in s.lh ==> s.ops[i].added < MAXOPBLOCKS)
    ensures Reserved(DoLogWrite(s, i, b, x))
  {
    var t := DoLogWrite(s, i, b, x);
    if !t.phase.Panicked? && b !in s.lh {
      UnusedAt(s.ops, i);
      UnusedAt(t.ops, i);
      assert t.ops[..i] == s.ops[..i] && t.ops[i + 1..] == s.ops[i + 1..];
    }
  }

  lemma ReservedEnd(s: State, i: nat)
    requires Reserved(s) && Enabled(s, End(i))
    ensures Reserved(DoEnd(s, i))
  {
    UnusedBounds(s.ops);
    UnusedAt(s.ops, i);
    UnusedSplit(s.ops[..i], s.ops[i + 1..]);
  }

  lemma KeepReserved(s: State, init: map<int, Block>, e: Event)
    requires Inv(s, init) && Reserved(s) && Enabled(s, e) && KeepsTo(s, e)
    ensures Reserved(Do(s, e))
  {
    UnusedBounds(s.ops);
    match e
    case Begin => UnusedSplit(s.ops, [Op(s.hist.nextOp, 0)]);
    case LogWrite(i, b, x) => ReservedLogWrite(s, i, b, x);
    case End(i) => ReservedEnd(s, i);
    case _ =>
  }

  lemma {:induction false} ReservedOver(s: State, init: map<int, Block>, es: seq<Event>)
    requires Inv(s, init) && Reserved(s) && CanRun(s, es) && Disciplined(s, es)
    ensures Inv(Exec(s, es), init) && Reserved(Exec(s, es)) && Exec(s, es).size == s.size
    decreases |es|
  {
    if es != [] {
      Keep(s, init, es[0]);
      KeepReserved(s, init, es[0]);
      ReservedOver(Do(s, es[0]), init, es[1..]);
    }
  }

  /** After any disciplined run from boot, a further disciplined `log_write` panics exactly when
      LOGSIZE or `log.size - 1` entries are in use. If `log.size` exceeds LOGSIZE, that is when
      the log is full; then every open operation has used up its reservation, and the block is
      one that is logged already. */
  lemma PanicExactly(d: LogDisk, size: nat, es: seq<Event>, i: nat, b: int, x: Block)
    requires DiskOk(d, size) && CanRun(Boot(d, size), es) && Disciplined(Boot(d, size), es)
    requires var s := Exec(Boot(d, size), es);
             Enabled(s, LogWrite(i, b, x)) && KeepsTo(s, LogWrite(i, b, x))
    ensures var s := Exec(Boot(d, size), es);
            && (DoLogWrite(s, i, b, x).phase == Panicked(TooBig) <==> |s.lh| >= LOGSIZE || |s.lh| >= size - 1)
            && |s.lh| <= LOGSIZE
            && (|s.lh| == LOGSIZE ==> b in s.lh && forall j :: 0 <= j < |s.ops| ==> s.ops[j].added == MAXOPBLOCKS)
            && (size > LOGSIZE && b !in s.lh ==> DoLogWrite(s, i, b, x).phase.Running?)
  {
    BootInv(d, size);
    ReservedOver(Boot(d, size), DurableMap(d), es);
    var s := Exec(Boot(d, size), es);
    UnusedBounds(s.ops);
    forall j | 0 <= j < |s.ops| ensures |s.lh| == LOGSIZE ==> s.ops[j].added == MAXOPBLOCKS {
      if s.ops[j].added < MAXOPBLOCKS { RoomForNew(s, j); }
    }
    if b !in s.lh { RoomForNew(s, i); }
  }

  // ---------- a run that panics when log.size <= LOGSIZE ----------

  lemma {:induction false} RunSnoc(s: State, es: seq<Event>, e: Event)
    requires CanRun(s, es) && Disciplined(s, es) && Enabled(Exec(s, es), e)
    requires KeepsTo(Exec(s, es), e)
    ensures CanRun(s, es + [e]) && Disciplined(s, es + [e])
    ensures Exec(s, es + [e]) == Do(Exec(s, es), e)
    decreases |es|
  {
    if es == [] {
      assert es + [e] == [e];
    } else {
      assert (es + [e])[0] == es[0] && (es + [e])[1..] == es[1..] + [e];
      RunSnoc(Do(s, es[0]), es[1..], e);
    }
  }

  /** Three operations are open and have logged the first `m` of the blocks `hs`, ten each. */
  ghost predicate Filled(s: State, size: nat, hs: seq<int>, m: nat)
    requires m <= |hs|
  {
    && s.size == size && s.phase.Running? && s.lh == hs[..m] && |s.ops| == 3
    && (forall i :: 0 <= i < |hs| ==> hs[i] in s.disk.home)
    && (forall i :: 0 <= i < 3 ==>
                      s.ops[i].added == (if m < 10 * i then 0 else if m < 10 * (i + 1) then m - 10 * i else 10))
  }

  /** The first `k` writes of recovery. */
  lemma {:induction false} Recover(d: LogDisk, size: nat, hs: seq<int>, k: nat) returns (es: seq<Event>)
    requires DiskOk(d, size) && k <= |RecoveryWrites(d)| && forall i :: 0 <= i < |hs| ==> hs[i] in d.home
    ensures CanRun(Boot(d, size), es) && Disciplined(Boot(d, size), es)
    ensures var s := Exec(Boot(d, size), es);
            && s.size == size && s.phase == Recovering(d, k) && s.lh == [] && s.ops == []
            && forall i :: 0 <= i < |hs| ==> hs[i] in s.disk.home
    decreases k
  {
    if k == 0 {
      es := [];
    } else {
      es := Recover(d, size, hs, k - 1);
      RunSnoc(Boot(d, size), es, DiskWrite);
      es := es + [DiskWrite];
    }
  }

  lemma OpenThree(d: LogDisk, size: nat, hs: seq<int>) returns (es: seq<Event>)
    requires DiskOk(d, size)
    requires forall i :: 0 <= i < |hs| ==> hs[i] in d.home
    ensures CanRun(Boot(d, size), es) && Disciplined(Boot(d, size), es)
    ensures Filled(Exec(Boot(d, size), es), size, hs, 0)
  {
    var s := Boot(d, size);
    es := Recover(d, size, hs, |RecoveryWrites(d)|);
    RunSnoc(s, es, Finish);     es := es + [Finish];
    RunSnoc(s, es, Begin);      es := es + [Begin];
    RunSnoc(s, es, Begin);      es := es + [Begin];
    RunSnoc(s, es, Begin);      es := es + [Begin];
  }

  lemma {:induction false} Fill(d: LogDisk, size: nat, hs: seq<int>, m: nat) returns (es: seq<Event>)
    requires DiskOk(d, size)
    requires Lists.Distinct(hs) && |hs| == LOGSIZE && forall i :: 0 <= i < |hs| ==> hs[i] in d.home
    requires m <= LOGSIZE && m < size
    ensures CanRun(Boot(d, size), es) && Disciplined(Boot(d, size), es)
    ensures Filled(Exec(Boot(d, size), es), size, hs, m)
    decreases m
  {
    if m == 0 {
      es := OpenThree(d, size, hs);
    } else {
      es := Fill(d, size, hs, m - 1);
      var s, e := Exec(Boot(d, size), es), LogWrite((m - 1) / 10, hs[m - 1], Zero());
      RunSnoc(Boot(d, size), es, e);
      es := es + [e];
      assert hs[m - 1] !in hs[..m - 1];
      assert hs[..m] == hs[..m - 1] + [hs[m - 1]];
    }
  }

  /** Some disciplined run from boot ends at a disciplined `log_write` that panics; `isNew`
      says whether of a block that is not logged yet. */
  ghost predicate CanPanic(d: LogDisk, size: nat, isNew: bool) {
    exists es, i, b, x ::
      CanRun(Boot(d, size), es) && Disciplined(Boot(d, size), es) && PanicsAt(Exec(Boot(d, size), es), i, b, x, isNew)
  }

  predicate PanicsAt(s: State, i: nat, b: int, x: Block, isNew: bool) {
    && Enabled(s, LogWrite(i, b, x)) && KeepsTo(s, LogWrite(i, b, x))
    && DoLogWrite(s, i, b, x).phase == Panicked(TooBig) && (isNew <==> b !in s.lh)
  }

  /** A new log entry within the reservation can hit "too big a transaction" exactly when
      `log.size <= LOGSIZE`. */
  lemma CapacityExact(d: LogDisk, size: nat, hs: seq<int>)
    requires DiskOk(d, size)
    requires Lists.Distinct(hs) && |hs| == LOGSIZE && forall i :: 0 <= i < |hs| ==> hs[i] in d.home
    ensures CanPanic(d, size, true) <==> size <= LOGSIZE
  {
    if size <= LOGSIZE {
      var m := if size == 0 then 0 else size - 1;
      var es;
      if size == 0 { es := OpenThree(d, size, hs); } else { es := Fill(d, size, hs, m); }
      assert hs[m] !in hs[..m];
      assert PanicsAt(Exec(Boot(d, size), es), m / 10, hs[m], Zero(), true);
    } else {
      forall es, i, b, x | CanRun(Boot(d, size), es) && Disciplined(Boot(d, size), es)
        ensures !PanicsAt(Exec(Boot(d, size), es), i, b, x, true)
      {
        var s := Exec(Boot(d, size), es);
        if Enabled(s, LogWrite(i, b, x)) && KeepsTo(s, LogWrite(i, b, x)) { PanicExactly(d, size, es, i, b, x); }
      }
    }
  }

  /** With no log slot, no block is ever logged. */
  lemma {:induction false} NothingLogged(s: State, es: seq<Event>)
    requires CanRun(s, es) && s.size <= 1 && s.lh == []
    ensures Exec(s, es).lh == []
    decreases |es|
  {
    if es != [] { NothingLogged(Do(s, es[0]), es[1..]); }
  }

  /** Writing a logged block once more can hit it whatever the size is, as long as blocks can be
      logged at all: the test for a full log comes before the search for the block. */
  lemma AbsorbedPanic(d: LogDisk, size: nat, hs: seq<int>)
    requires DiskOk(d, size)
    requires Lists.Distinct(hs) && |hs| == LOGSIZE && forall i :: 0 <= i < |hs| ==> hs[i] in d.home
    ensures CanPanic(d, size, false) <==> size > 1
  {
    if size > 1 {
      var m := if size <= LOGSIZE then size - 1 else LOGSIZE;
      var es := Fill(d, size, hs, m);
      assert hs[..m][0] == hs[0];
      assert PanicsAt(Exec(Boot(d, size), es), 0, hs[0], Zero(), false);
    } else {
      forall es, i, b, x | CanRun(Boot(d, size), es) && Disciplined(Boot(d, size), es)
        ensures !PanicsAt(Exec(Boot(d, size), es), i, b, x, false)
      {
        NothingLogged(Boot(d, size), es);
      }
    }
  }
}
