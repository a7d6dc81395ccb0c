/** The MLFQ part of ptable as proc.c and thread.c work on it: searches that walk the thread
    ring and the queues, list updates one thread at a time, and the boost. Each method is
    proved to do what the functions of module Mlfq say. */
module MlfqTable {
  import opened Lists
  import opened Mlfq
  import opened MlfqCpus

  lemma FirstSkips(r: seq<int>, ok: set<int>, c: int)
    requires 0 <= c < |r| && r[c] !in ok
    ensures First(r[c..], ok) == First(r[c + 1..], ok)
  {
    assert r[c..][1..] == r[c + 1..];
  }

  /** The entry after position `i` in a circular list of `n`. */
  function Next(i: int, n: int): int { if i + 1 < n then i + 1 else 0 }

  lemma TurnedAt(q: seq<int>, i: int, c: int)
    requires 0 <= i < |q| && 0 <= c < |q| - 1
    ensures |q[i + 1..] + q[..i]| == |q| - 1
    ensures (q[i + 1..] + q[..i])[c] == q[if i + 1 + c < |q| then i + 1 + c else i + 1 + c - |q|]
  {
  }

  /** What a list walk that starts after position `i` meets. */
  lemma RoundAt(q: seq<int>, t: int, c: int)
    requires t in q && 0 <= c < |q| - 1
    ensures |Round(q, t)| == |q| - 1
    ensures var i := Index(q, t); Round(q, t)[c] == q[if i + 1 + c < |q| then i + 1 + c else i + 1 + c - |q|]
  {
    TurnedAt(q, Index(q, t), c);
  }

  /** Levels or ticks with those of the processes whose main thread is in `done` set to 0. */
  ghost function Zeroed(m: map<int, int>, s: State, done: set<int>): map<int, int> {
    map p | p in m :: if p in s.ring && s.ring[p] != [] && s.ring[p][0] in done then 0 else m[p]
  }

  ghost function InQueue(s: State, l: int): set<int>
    requires 0 <= l < |s.queue|
  {
    set t | t in s.queue[l]
  }

  ghost function Sleepers(s: State): set<int> { set t | t in s.run && s.run[t].Sleeping? }

  ghost function WithZeroed(s: State, s0: State, done: set<int>): State {
    s.(level := Zeroed(s0.level, s0, done), ticks := Zeroed(s0.ticks, s0, done))
  }

  /** The threads in the queues from level 1 up to `l`. */
  ghost function Below(s: State, l: int): set<int>
    requires |s.queue| == QSIZE
  {
    (if l > 1 then InQueue(s, 1) else {}) + (if l > 2 then InQueue(s, 2) else {})
  }

  /** The state in priority_boost's loop before level `l`. */
  ghost function Stage(s: State, l: int): State
    requires |s.queue| == |s.pin| == QSIZE
  {
    WithZeroed(if l <= 1 then s else if l == 2 then Concat(s, 1) else Concat(Concat(s, 1), 2), s, Below(s, l))
  }

  lemma NoneZeroed(s: State)
    requires |s.queue| == |s.pin| == QSIZE
    ensures Stage(s, 1) == s
  {
    assert Zeroed(s.level, s, Below(s, 1)) == s.level && Zeroed(s.ticks, s, Below(s, 1)) == s.ticks;
  }

  lemma StageNext(s: State, l: int)
    requires |s.queue| == |s.pin| == QSIZE && 1 <= l < QSIZE
    ensures |Stage(s, l).queue| == |Stage(s, l).pin| == QSIZE && Stage(s, l).queue[l] == s.queue[l]
    ensures Stage(s, l + 1) == WithZeroed(Concat(Stage(s, l), l), s, Below(s, l) + InQueue(s, l))
  {
    assert Below(s, l) + InQueue(s, l) == Below(s, l + 1);
  }

  lemma BoostedIs(s: State)
    requires Groups(s)
    ensures WithZeroed(Stage(s, 3), s, Below(s, 3) + Sleepers(s)).(clock := 0) == Boosted(s)
  {
    var all, b := Below(s, 3) + Sleepers(s), Boosted(s);
    forall p | p in s.ring && p in s.level && s.ring[p] != [] ensures s.ring[p][0] in all <==> Visited(s, p) { }
    assert forall p :: p in s.ring ==> ProcOk(s, p);
    assert Zeroed(s.level, s, all) == b.level;
    assert Zeroed(s.ticks, s, all) == b.ticks;
  }

  lemma ZeroedNext(m: map<int, int>, s: State, done: set<int>, t: int)
    requires Groups(s) && t in s.pid && s.pid[t] in m
    ensures var p := s.pid[t];
      Zeroed(m, s, done + {t}) == if s.ring[p][0] == t then Zeroed(m, s, done)[p := 0] else Zeroed(m, s, done)
  {
    var p, a, b := s.pid[t], Zeroed(m, s, done + {t}), Zeroed(m, s, done);
    var c := if s.ring[p][0] == t then b[p := 0] else b;
    assert a.Keys == c.Keys == m.Keys;
    forall q | q in m ensures a[q] == c[q] {
      assert q in s.ring && s.ring[q] != [] ==> s.ring[q][0] in s.ring[q];
      assert q in s.ring && s.ring[q] != [] && s.ring[q][0] == t ==> q == p;
    }
  }

  /** Active threads of a pinned process are in the queue of its level. */
  lemma MlfqHere(s: State, t: int, m: int)
    requires Groups(s) && Levels(s) && t in s.pid && Pinned(s, t)
    requires m in s.pid && s.pid[m] == s.pid[t] && Active(s, m)
    ensures m in s.queue[Level(s, m)]
  {
    var l := Level(s, t);
    assert Queued(s, s.pin[l], l);
    assert Queued(s, m, l);
  }

  /** threads_apply0(p, __routine_dequeue_proc) over the threads `r`. */
  method DeleteEach(q0: seq<int>, r: seq<int>, ok: set<int>) returns (q: seq<int>)
    ensures q == RemoveAll(q0, Keep(r, ok))
  {
    q := q0;
    assert r[0..] == r;
    for c := 0 to |r|
      invariant RemoveAll(q, Keep(r[c..], ok)) == RemoveAll(q0, Keep(r, ok))
    {
      KeepNext(r, ok, c);
      if r[c] in ok { q := Remove(q, r[c]); }
    }
  }

  /** threads_apply1(p, __routine_enqueue_remain, p) over the threads `r`. */
  method AddEach(q0: seq<int>, p: int, r: seq<int>, ok: set<int>) returns (q: seq<int>)
    ensures q == InsertAll(q0, p, Keep(r, ok))
  {
    q := q0;
    assert r[0..] == r;
    for c := 0 to |r|
      invariant InsertAll(q, p, Keep(r[c..], ok)) == InsertAll(q0, p, Keep(r, ok))
    {
      KeepNext(r, ok, c);
      if r[c] in ok { q := InsertAfter(q, p, r[c]); }
    }
  }

  lemma KeepNext(r: seq<int>, ok: set<int>, c: int)
    requires 0 <= c < |r|
    ensures r[c] !in ok ==> Keep(r[c..], ok) == Keep(r[c + 1..], ok)
    ensures r[c] in ok ==> Keep(r[c..], ok) == [r[c]] + Keep(r[c + 1..], ok)
    ensures r[c] in ok ==> Keep(r[c..], ok)[1..] == Keep(r[c + 1..], ok)
  {
    assert r[c..][1..] == r[c + 1..];
  }

  /** The walk round list `q`, on from `t`: the first thread in `ok`. */
  method WalkQueue(q: seq<int>, t: int, ok: set<int>) returns (n: int)
    requires t in q
    ensures n == First(Round(q, t), ok)
  {
    ghost var r := Round(q, t);
    var i := Index(q, t);
    var j, c := Next(i, |q|), 0;
    assert r[0..] == r;
    while j != i
      invariant 0 <= c <= |q| - 1 == |r|
      invariant j == if i + 1 + c < |q| then i + 1 + c else i + 1 + c - |q|
      invariant First(r, ok) == First(r[c..], ok)
      decreases |q| - c
    {
      RoundAt(q, t, c);
      if q[j] in ok { return q[j]; }
      FirstSkips(r, ok, c);
      j, c := Next(j, |q|), c + 1;
    }
    n := NONE;
  }

  class Table {
    var s: State

    constructor (p: int, t: int)
      ensures s == Init(p, t)
    {
      s := Init(p, t);
    }

    /** ready_thread, ready_or_running_thread: the first thread in `ok` of the process of `t`. */
    method FirstThread(t: int, ok: set<int>) returns (n: int)
      requires Groups(s) && t in s.pid
      ensures n == First(Around(s, t), ok)
    {
      var ring := s.ring[s.pid[t]];
      ghost var r := Around(s, t);
      var i := Index(ring, t);
      var j, c := Next(i, |ring|), 0;
      assert r[0..] == r;
      while c < |ring|
        invariant 0 <= c <= |ring| == |r|
        invariant c < |ring| ==> j == if i + 1 + c < |ring| then i + 1 + c else i + 1 + c - |ring|
        invariant First(r, ok) == First(r[c..], ok)
      {
        var th := ring[j];
        if c < |ring| - 1 { RoundAt(ring, t, c); }
        assert th == r[c];
        if th in ok { return th; }
        FirstSkips(r, ok, c);
        j, c := Next(j, |ring|), c + 1;
      }
      n := NONE;
    }

    method FindReady(t: int) returns (n: int)
      requires Groups(s) && t in s.pid
      ensures n == ReadyThread(s, t)
    {
      n := FirstThread(t, Ready(s));
    }

    method FindActive(t: int) returns (n: int)
      requires Groups(s) && t in s.pid
      ensures n == ReadyOrRunning(s, t)
    {
      n := FirstThread(t, Actives(s));
    }

    /** ready_proc: on from `t` round its queue. */
    method FindProc(t: int) returns (n: int)
      requires Groups(s) && Levels(s) && t in s.pid && t in s.queue[Level(s, t)]
      ensures n == ReadyProc(s, t)
    {
      n := WalkQueue(s.queue[Level(s, t)], t, ReadyOthers(s, t));
    }

    /** pin_next_thread. */
    method PinNextThread(t: int, self: bool)
      requires Groups(s) && Levels(s) && t in s.pid
      modifies this
      ensures s == Mlfq.PinNextThread(old(s), t, self)
    {
      var l := Level(s, t);
      if s.pin[l] in s.ring[s.pid[t]] {
        NoPinPanic(s, t);
        ReadyOrRunningIs(s, t);
        var n := FindReady(t);
        if n == NONE || (!self && n == t) {
          var m := FindActive(t);
          MlfqHere(s, t, m);
          n := FindProc(m);
        }
        s := s.(pin := s.pin[l := n]);
      }
    }

    /** pin_next_proc. */
    method PinNextProc(t: int, self: bool)
      requires Groups(s) && Levels(s) && t in s.pid
      modifies this
      ensures s == Mlfq.PinNextProc(old(s), t, self)
    {
      var l := Level(s, t);
      if s.pin[l] in s.ring[s.pid[t]] {
        NoPinPanic(s, t);
        ReadyOrRunningIs(s, t);
        var m := FindActive(t);
        MlfqHere(s, t, m);
        var n := FindProc(m);
        if n == NONE && self {
          n := FindReady(t);
        }
        s := s.(pin := s.pin[l := n]);
      }
    }

    /** dequeue_thread. */
    method DequeueThread(t: int)
      requires Groups(s) && Levels(s) && t in s.pid
      modifies this
      ensures s == Mlfq.DequeueThread(old(s), t)
    {
      PinNextThread(t, false);
      var l := Level(s, t);
      s := s.(queue := s.queue[l := Remove(s.queue[l], t)]);
    }

    /** dequeue_proc: threads_apply0 deletes the active threads one by one. */
    method DequeueProc(t: int)
      requires Groups(s) && Levels(s) && t in s.pid
      modifies this
      ensures s == Mlfq.DequeueProc(old(s), t)
    {
      PinNextProc(t, false);
      assert Actives(s) == Actives(old(s));
      var l := Level(s, t);
      var q := DeleteEach(s.queue[l], Round(s.ring[s.pid[t]], t) + [t], Actives(s));
      s := s.(queue := s.queue[l := q]);
    }

    /** enqueue_thread, after wakeup1 or thread_create has made `t` RUNNABLE. */
    method EnqueueThread(t: int)
      requires Groups(s) && t in s.pid
      modifies this
      ensures s == Mlfq.EnqueueThread(old(s), t)
    {
      var pivot := FindActive(t);
      var l := Level(s, t);
      if pivot == t {
        s := s.(queue := s.queue[l := s.queue[l] + [t]]);
      } else {
        s := s.(queue := s.queue[l := InsertAfter(s.queue[l], pivot, t)]);
      }
    }

    /** enqueue_proc: `t` at the tail, then the other active threads one by one after it. */
    method EnqueueProc(t: int)
      requires Groups(s) && t in s.pid
      modifies this
      ensures s == Mlfq.EnqueueProc(old(s), t)
    {
      var l := Level(s, t);
      var q := AddEach(s.queue[l] + [t], t, Round(s.ring[s.pid[t]], t), Actives(s));
      s := s.(queue := s.queue[l := q]);
    }

    /** mlfqselect's branch for a candidate `p` that runs on another CPU. */
    method MovePin(p: int, l: int)
      requires Groups(s) && Levels(s) && 0 <= l < QSIZE && s.queue[l] != [] && p == Candidate(s, l) && Runs(s, p)
      modifies this
      ensures p in old(s).pid && s == Moved(old(s), p) && Groups(s) && Levels(s) && s == old(s).(pin := s.pin)
    {
      CandidateIs(s, l);
      MovedIs(s, l);
      PinLevels(s, Moved(s, p), l);
      ghost var r := Mlfq.PinNextThread(s, p, false);
      PinNextThreadIs(s, p, false);
      assert r.pin == s.pin[l := r.pin[l]];
      PinLevels(s, r, l);
      PinNextThread(p, false);
      if s.pin[l] == NONE { PinNextProc(p, false); }
    }

    /** mlfqselect. */
    method MlfqSelect() returns (p: int)
      requires Groups(s) && Levels(s)
      modifies this
      ensures (s, p) == SelectFrom(old(s), 0) && SelectedFrom(old(s), 0, s, p)
      // On one CPU, between slices: the first ready thread of the highest level.
      ensures Inv(old(s)) && old(s).phase.Idle? && Top(old(s)) == QSIZE ==> p == NONE && s == old(s)
      ensures Inv(old(s)) && old(s).phase.Idle? && Top(old(s)) < QSIZE ==>
        p == Choice(old(s)) && s == old(s).(pin := old(s).pin[Top(old(s)) := p])
    {
      SelectFromIs(s, 0);
      if Inv(s) && s.phase.Idle? { ReadyUnlessElsewhere(s); }
      p := SelectLoop();
    }

    method SelectLoop() returns (p: int)
      requires Groups(s) && Levels(s)
      modifies this
      ensures (s, p) == SelectFrom(old(s), 0)
    {
      for l := 0 to QSIZE
        invariant Groups(s) && Levels(s) && SelectFrom(s, l) == SelectFrom(old(s), 0)
      {
        if s.queue[l] != [] {
          CandidateIs(s, l);
          p := if s.pin[l] == NONE then s.queue[l][0] else s.pin[l];
          if s.run[p].Running? {
            MovePin(p, l);
            if s.pin[l] == NONE { continue; }
          }
          s := s.(pin := s.pin[l := p]);
          return;
        }
      }
      p := NONE;
    }

    /** mlfqlogic's demotion of a process that has used up its allotment. */
    method Demote(t: int)
      requires Groups(s) && Levels(s) && t in s.pid && Level(s, t) < QSIZE - 1 && s.ticks[s.pid[t]] >= Ta(Level(s, t))
      modifies this
      ensures s == MlfqLogic(old(s), t)
    {
      var p, l := s.pid[t], Level(s, t);
      KeepDemoted(s, t);
      DequeueProc(t);
      s := s.(level := s.level[p := l + 1], ticks := s.ticks[p := 0]);
      assert s == Demoted(old(s), t);
      ReadyOrRunningIs(s, t);
      var m := FindActive(t);
      if m != NONE {
        EnqueueProc(m);
      }
    }

    /** mlfqlogic. */
    method EndOfSlice(t: int)
      requires Groups(s) && Levels(s) && t in s.pid
      modifies this
      ensures s == MlfqLogic(old(s), t)
    {
      var p, l := s.pid[t], Level(s, t);
      if l < QSIZE - 1 && s.ticks[p] >= Ta(l) {
        Demote(t);
      } else if s.ticks[p] % Tq(l) == 0 {
        PinNextProc(t, true);
      } else {
        PinNextThread(t, true);
      }
    }

    /** priority_boost's visit to a thread: what it resets matters only for a main thread. */
    method Reset(t: int, ghost s0: State, ghost done: set<int>)
      requires Groups(s0) && t in s0.pid && s.ring == s0.ring && s.pid == s0.pid
      requires s.level == Zeroed(s0.level, s0, done) && s.ticks == Zeroed(s0.ticks, s0, done)
      modifies this
      ensures s == WithZeroed(old(s), s0, done + {t})
    {
      ZeroedNext(s0.level, s0, done, t);
      ZeroedNext(s0.ticks, s0, done, t);
      var p := s.pid[t];
      if s.ring[p][0] == t {
        s := s.(level := s.level[p := 0], ticks := s.ticks[p := 0]);
      }
    }

    /** priority_boost's loop over the queue of level `l`. */
    method ResetAll(q: seq<int>, ghost s0: State, ghost done: set<int>)
      requires Groups(s0) && (forall t :: t in q ==> t in s0.pid) && s.ring == s0.ring && s.pid == s0.pid
      requires s.level == Zeroed(s0.level, s0, done) && s.ticks == Zeroed(s0.ticks, s0, done)
      modifies this
      ensures s == WithZeroed(old(s), s0, done + (set t | t in q))
    {
      ghost var d := done;
      for i := 0 to |q|
        invariant d == done + (set t | t in q[..i]) && s == WithZeroed(old(s), s0, d)
      {
        Reset(q[i], s0, d);
        d := d + {q[i]};
        assert q[..i + 1] == q[..i] + [q[i]];
      }
      assert q[..|q|] == q;
    }

    /** priority_boost's work on level `l`: reset the processes in its queue, move it to level 0. */
    method BoostLevel(l: int, ghost s0: State, ghost done: set<int>)
      requires Groups(s0) && Levels(s0) && 0 < l < QSIZE && |s.queue| == |s.pin| == QSIZE && s.queue[l] == s0.queue[l]
      requires s.ring == s0.ring && s.pid == s0.pid
      requires s.level == Zeroed(s0.level, s0, done) && s.ticks == Zeroed(s0.ticks, s0, done)
      modifies this
      ensures s == WithZeroed(Concat(old(s), l), s0, done + InQueue(s0, l))
    {
      var q := s.queue[l];
      assert forall t :: t in q ==> Queued(s0, t, l);
      ResetAll(q, s0, done);
      var dst, spin := s.queue[0], s.pin[l];
      if dst == [] && spin != NONE {
        s := s.(pin := s.pin[0 := spin]);
      }
      s := s.(pin := s.pin[l := NONE], queue := s.queue[0 := dst + q][l := []]);
    }

    /** priority_boost's walk along the sleep list. */
    method BoostSleepers(ghost s0: State, ghost done: set<int>)
      requires Groups(s0) && s.ring == s0.ring && s.pid == s0.pid && s.run == s0.run
      requires s.level == Zeroed(s0.level, s0, done) && s.ticks == Zeroed(s0.ticks, s0, done)
      modifies this
      ensures s == WithZeroed(old(s), s0, done + Sleepers(s0))
    {
      var sleep := set t | t in s.run && s.run[t].Sleeping?;
      ghost var d := done;
      while sleep != {}
        invariant sleep <= s0.pid.Keys && d + sleep == done + Sleepers(s0)
        invariant s == WithZeroed(old(s), s0, d)
        decreases |sleep|
      {
        var none: set<int> := {};
        assert (forall t :: t in sleep <==> t in none) ==> sleep == none;
        var t :| t in sleep;
        Reset(t, s0, d);
        d, sleep := d + {t}, sleep - {t};
      }
    }

    /** priority_boost. */
    method PriorityBoost()
      requires Groups(s) && Levels(s)
      modifies this
      ensures s == Boosted(old(s))
    {
      ghost var s0 := s;
      NoneZeroed(s0);
      for l := 1 to QSIZE
        invariant s == Stage(s0, l)
      {
        StageNext(s0, l);
        BoostLevel(l, s0, Below(s0, l));
      }
      BoostSleepers(s0, Below(s0, QSIZE));
      s := s.(clock := 0);
      BoostedIs(s0);
    }

    /** sched. */
    method Sched()
      requires Groups(s) && s.cur in s.pid
      modifies this
      ensures s == Mlfq.Sched(old(s))
    {
      var n := FindReady(s.cur);
      if n == NONE || s.ticks[s.pid[s.cur]] % DTQ == 0 {
        s := s.(phase := Over);
      } else {
        s := s.(run := s.run[n := Running], cur := n);
      }
    }

    /** yield. */
    method Yield()
      requires Inv(s) && s.phase.Busy?
      modifies this
      ensures Inv(s) && s == Do(old(s), Tick)
    {
      KeepInv(s, Tick);
      SameGroups(s, Ticked(s));
      var p := s.pid[s.cur];
      var ticks := s.ticks[p := s.ticks[p] + 1];
      var clock := if p !in s.stride then s.clock + 1 else s.clock;
      s := s.(ticks := ticks, clock := clock, run := s.run[s.cur := Runnable]);
      assert s == Ticked(old(s));
      Sched();
    }

    /** sleep. */
    method GoToSleep()
      requires Inv(s) && s.phase.Busy?
      modifies this
      ensures Inv(s) && s == Do(old(s), Sleep)
    {
      KeepInv(s, Sleep);
      SameGroups(s, Left(s, Sleeping));
      if s.pid[s.cur] !in s.stride {
        DequeueThread(s.cur);
      }
      s := s.(run := s.run[s.cur := Sleeping]);
      Sched();
    }

    /** wakeup1's work on a sleeping thread. */
    method WakeUp(t: int)
      requires Inv(s) && Enabled(s, Wake(t))
      modifies this
      ensures Inv(s) && s == Do(old(s), Wake(t))
    {
      KeepInv(s, Wake(t));
      s := s.(run := s.run[t := Runnable]);
      SameGroups(old(s), s);
      if s.pid[t] !in s.stride {
        EnqueueThread(t);
      }
    }

    /** scheduler, once the process has come back. */
    method FinishSlice()
      requires Inv(s) && s.phase.Over?
      modifies this
      ensures Inv(s) && s == Do(old(s), EndSlice)
    {
      KeepInv(s, EndSlice);
      LogicInv(s);
      if s.pid[s.cur] !in s.stride {
        EndOfSlice(s.cur);
      }
      if s.clock >= BOOST_INTERVAL {
        PriorityBoost();
      }
      s := s.(phase := Idle, cur := NONE);
    }
  }
}
