/** The multi-level feedback queue of proc.c on one CPU: three queues of threads, each with
    a pin, kept by select, yield, sleep, wake-up, exit, thread creation and exit, fork,
    set_cpu_share, the end-of-slice rule and the priority boost. */
module Mlfq {
  import opened Lists

  const QSIZE := 3
  const DTQ := 5
  const BOOST_INTERVAL := 200

  /** Time quantum and time allotment of a level, in ticks. */
  function Tq(l: int): int { if l == 0 then 5 else 10 * l }
  function Ta(l: int): int { 4 * Tq(l) }

  datatype Run = Sleeping | Runnable | Running | Zombie

  /** Whether the CPU is in the scheduler looking for a process, runs `cur`, or is back in the
      scheduler with `cur` the last thread that ran. */
  datatype Phase = Idle | Busy | Over

  datatype State = State(
    ring: map<int, seq<int>>,   // the threads of each process, the main thread first
    pid: Pids, run: map<int, Run>,
    stride: set<int>,           // the processes of type STRIDE
    level: map<int, int>, ticks: map<int, int>, clock: int,
    queue: seq<seq<int>>, pin: seq<int>,
    phase: Phase, cur: int)

  datatype Event =
    | Select                                      // mlfqselect, and run its choice
    | SelectStride(t: int)
    | Tick                                        // yield
    | Sleep | ThreadExit | Exit
    | Wake(t: int)
    | Create(t: int)
    | Fork(p: int, ts: seq<int>, first: int, asleep: set<int>)
    | Join(t: int)
    | Reap(p: int)
    | Share                                       // set_cpu_share by an MLFQ process
    | EndSlice                                    // mlfqlogic and priority_boost

  /** What userinit leaves: process `p` with the one thread `t`, ready and in the first queue. */
  function Init(p: int, t: int): State {
    State(map[p := [t]], map[t := p], map[t := Runnable], {}, map[p := 0], map[p := 0], 0,
          [[t], [], []], [NONE, NONE, NONE], Idle, NONE)
  }

  // ---------- well-formed states ----------

  predicate Active(s: State, t: int) {
    t in s.run && (s.run[t].Runnable? || s.run[t].Running?)
  }

  ghost predicate ProcOk(s: State, p: int) {
    && p in s.ring && s.ring[p] != [] && Distinct(s.ring[p])
    && p in s.level && 0 <= s.level[p] < QSIZE && p in s.ticks
  }

  /** Thread groups: who belongs to which process. */
  ghost predicate Groups(s: State) {
    && s.run.Keys == s.pid.Keys
    && (forall t :: t in s.pid ==> t >= 0 && ProcOk(s, s.pid[t]) && t in s.ring[s.pid[t]])
    && (forall p :: p in s.ring ==> ProcOk(s, p))
    && (forall p, t :: p in s.ring && t in s.ring[p] ==> t in s.pid && s.pid[t] == p)
    && |s.queue| == |s.pin| == QSIZE
  }

  /** Groups depend on nothing else. */
  lemma SameGroups(s: State, r: State)
    requires Groups(s) && r.ring == s.ring && r.pid == s.pid && r.run.Keys == s.run.Keys
    requires r.level.Keys == s.level.Keys && r.ticks.Keys == s.ticks.Keys && |r.queue| == |r.pin| == QSIZE
    requires forall p :: p in s.level ==> r.level[p] == s.level[p] || 0 <= r.level[p] < QSIZE
    ensures Groups(r)
  {
    assert forall p :: ProcOk(s, p) ==> ProcOk(r, p);
  }

  /** A process whose main thread is dead has no other threads. */
  ghost predicate Mains(s: State) {
    forall p :: p in s.ring && s.ring[p] != [] && s.ring[p][0] in s.run && s.run[s.ring[p][0]].Zombie?
      ==> |s.ring[p]| == 1
  }

  /** Thread `t` belongs in the queue of level `l`. */
  predicate Queued(s: State, t: int, l: int) {
    Active(s, t) && t in s.pid && s.pid[t] !in s.stride && s.pid[t] in s.level && s.level[s.pid[t]] == l
  }

  ghost predicate LevelOk(s: State, l: int)
    requires |s.queue| == |s.pin| == QSIZE && 0 <= l < QSIZE
  {
    && QueueOk(s.queue[l], s.pid)
    && (forall t :: t in s.queue[l] <==> Queued(s, t, l))
    && (s.pin[l] == NONE || s.pin[l] in s.queue[l])
  }

  ghost predicate Levels(s: State)
    requires |s.queue| == |s.pin| == QSIZE
  {
    LevelOk(s, 0) && LevelOk(s, 1) && LevelOk(s, 2)
  }

  /** Only the thread on the CPU is RUNNING. */
  ghost predicate Cpu(s: State) {
    && (forall t :: t in s.run && s.run[t].Running? ==> s.phase.Busy? && t == s.cur)
    && (s.phase.Busy? ==> s.cur in s.run && s.run[s.cur].Running?)
    && (s.phase.Over? ==> s.cur in s.run)
  }

  ghost predicate Inv(s: State) {
    Groups(s) && Mains(s) && Levels(s) && Cpu(s)
  }

  // ---------- searches ----------

  function Ready(s: State): set<int> { set t | t in s.run && s.run[t].Runnable? }
  function Actives(s: State): set<int> { set t | t in s.run && Active(s, t) }

  /** The order in which threads_apply0 visits the threads, from the next of `t` to `t`. */
  ghost function Around(s: State, t: int): seq<int>
    requires Groups(s) && t in s.pid
  {
    Round(s.ring[s.pid[t]], t) + [t]
  }

  lemma AroundIs(s: State, t: int)
    requires Groups(s) && t in s.pid
    ensures forall u :: u in Around(s, t) <==> u in s.pid && s.pid[u] == s.pid[t]
  {
    RoundIs(s.ring[s.pid[t]], t);
  }

  ghost function ReadyThread(s: State, t: int): int
    requires Groups(s) && t in s.pid
  {
    First(Around(s, t), Ready(s))
  }

  ghost function ReadyOrRunning(s: State, t: int): int
    requires Groups(s) && t in s.pid
  {
    First(Around(s, t), Actives(s))
  }

  lemma ReadyThreadIs(s: State, t: int)
    requires Groups(s) && t in s.pid
    ensures var n := ReadyThread(s, t);
      n != NONE ==> n in s.pid && s.pid[n] == s.pid[t] && s.run[n].Runnable?
    ensures ReadyThread(s, t) == NONE <==> forall u :: u in s.pid && s.pid[u] == s.pid[t] ==> !s.run[u].Runnable?
  {
    AroundIs(s, t);
    FirstIs(Around(s, t), Ready(s));
  }

  lemma ReadyOrRunningIs(s: State, t: int)
    requires Groups(s) && t in s.pid
    ensures var n := ReadyOrRunning(s, t);
      n != NONE ==> n in s.pid && s.pid[n] == s.pid[t] && Active(s, n)
    ensures ReadyOrRunning(s, t) == NONE <==> forall u :: u in s.pid && s.pid[u] == s.pid[t] ==> !Active(s, u)
  {
    AroundIs(s, t);
    FirstIs(Around(s, t), Actives(s));
  }

  function Level(s: State, t: int): int
    requires t in s.pid && s.pid[t] in s.level
  {
    s.level[s.pid[t]]
  }

  /** Runnable threads of other processes than that of `t`. */
  function ReadyOthers(s: State, t: int): set<int>
    requires t in s.pid
  {
    set u | u in s.run && s.run[u].Runnable? && u in s.pid && s.pid[u] != s.pid[t]
  }

  ghost function ReadyProc(s: State, t: int): int
    requires Groups(s) && t in s.pid
  {
    First(Round(s.queue[Level(s, t)], t), ReadyOthers(s, t))
  }

  lemma ReadyProcIs(s: State, t: int)
    requires Groups(s) && Levels(s) && t in s.pid
    ensures var n := ReadyProc(s, t);
      n != NONE ==> n in s.queue[Level(s, t)] && n in s.pid && s.pid[n] != s.pid[t] && s.run[n].Runnable?
  {
    RoundIs(s.queue[Level(s, t)], t);
    FirstIs(Round(s.queue[Level(s, t)], t), ReadyOthers(s, t));
  }

  // ---------- pins ----------

  ghost predicate Pinned(s: State, t: int)
    requires Groups(s) && t in s.pid
  {
    s.pin[Level(s, t)] in s.ring[s.pid[t]]
  }

  ghost function PinNextThread(s: State, t: int, self: bool): (r: State)
    requires Groups(s) && t in s.pid
    ensures r == s.(pin := r.pin) && |r.pin| == QSIZE
  {
    if !Pinned(s, t) then s
    else
      var n := ReadyThread(s, t);
      var to := if n != NONE && (self || n != t) then n
                else var m := ReadyOrRunning(s, t); if m in s.pid then ReadyProc(s, m) else NONE;
      s.(pin := s.pin[Level(s, t) := to])
  }

  ghost function PinNextProc(s: State, t: int, self: bool): (r: State)
    requires Groups(s) && t in s.pid
    ensures r == s.(pin := r.pin) && |r.pin| == QSIZE
  {
    if !Pinned(s, t) then s
    else
      var m := ReadyOrRunning(s, t);
      var n := if m in s.pid then ReadyProc(s, m) else NONE;
      var to := if n != NONE then n else if self then ReadyThread(s, t) else NONE;
      s.(pin := s.pin[Level(s, t) := to])
  }

  /** panic("pin next thread") and panic("pin next proc"): the process of `t` is pinned but has
      no thread that is ready or running. */
  ghost predicate PinPanics(s: State, t: int)
    requires Groups(s) && t in s.pid
  {
    Pinned(s, t) && ReadyOrRunning(s, t) == NONE
  }

  /** A pinned process has a thread in the queue of its level. */
  lemma PinnedQueued(s: State, t: int)
    requires Groups(s) && Levels(s) && t in s.pid && Pinned(s, t)
    ensures var l := Level(s, t); s.pin[l] in s.queue[l] && s.pin[l] in s.pid && s.pid[s.pin[l]] == s.pid[t]
    ensures var l := Level(s, t); Queued(s, s.pin[l], l)
  {
    var l := Level(s, t);
    assert LevelOk(s, l) && s.pin[l] in s.ring[s.pid[t]];
    assert s.pin[l] in s.pid && s.pin[l] in s.queue[l];
  }

  lemma NoPinPanic(s: State, t: int)
    requires Groups(s) && Levels(s) && t in s.pid
    ensures !PinPanics(s, t)
  {
    ReadyOrRunningIs(s, t);
    if Pinned(s, t) { PinnedQueued(s, t); }
  }

  /** What a pin may be after it was moved away from thread `t`: still of its level, and not `t`. */
  lemma PinNextThreadIs(s: State, t: int, self: bool)
    requires Groups(s) && Levels(s) && t in s.pid
    ensures var r, l := PinNextThread(s, t, self), Level(s, t);
      && (forall m :: 0 <= m < QSIZE && m != l ==> r.pin[m] == s.pin[m])
      && (r.pin[l] == NONE || r.pin[l] in s.queue[l])
      && (!self ==> r.pin[l] != t)
  {
    var l := Level(s, t);
    if Pinned(s, t) {
      PinnedQueued(s, t);
      ReadyThreadIs(s, t);
      ReadyOrRunningIs(s, t);
      var n, m := ReadyThread(s, t), ReadyOrRunning(s, t);
      assert n != NONE ==> Queued(s, n, l);
      ReadyProcIs(s, m);
    }
  }

  lemma PinNextProcIs(s: State, t: int, self: bool)
    requires Groups(s) && Levels(s) && t in s.pid
    ensures var r, l := PinNextProc(s, t, self), Level(s, t);
      && (forall m :: 0 <= m < QSIZE && m != l ==> r.pin[m] == s.pin[m])
      && (r.pin[l] == NONE || (r.pin[l] in s.queue[l] && (!self ==> r.pin[l] in s.pid && s.pid[r.pin[l]] != s.pid[t])))
  {
    var l := Level(s, t);
    if Pinned(s, t) {
      PinnedQueued(s, t);
      ReadyThreadIs(s, t);
      ReadyOrRunningIs(s, t);
      var n, m := ReadyThread(s, t), ReadyOrRunning(s, t);
      assert n != NONE ==> Queued(s, n, l);
      ReadyProcIs(s, m);
    }
  }

  // ---------- queues ----------

  /** A level that an operation does not touch. */
  lemma Untouched(s: State, r: State, l: int)
    requires |s.queue| == |s.pin| == |r.queue| == |r.pin| == QSIZE && 0 <= l < QSIZE
    requires LevelOk(s, l) && r.queue[l] == s.queue[l] && r.pin[l] == s.pin[l]
    requires forall t :: Queued(s, t, l) <==> Queued(r, t, l)
    requires forall t :: t in s.pid && t in s.queue[l] ==> t in r.pid && r.pid[t] == s.pid[t]
    ensures LevelOk(r, l)
  {
    assert forall i :: 0 <= i < |s.queue[l]| ==> s.queue[l][i] in s.queue[l];
  }

  ghost function DequeueThread(s: State, t: int): (r: State)
    requires Groups(s) && t in s.pid
    ensures r == s.(pin := r.pin, queue := r.queue)
  {
    var r, l := PinNextThread(s, t, false), Level(s, t);
    r.(queue := s.queue[l := Remove(s.queue[l], t)])
  }

  ghost function DequeueProc(s: State, t: int): (r: State)
    requires Groups(s) && t in s.pid
    ensures r == s.(pin := r.pin, queue := r.queue)
  {
    var r, l := PinNextProc(s, t, false), Level(s, t);
    r.(queue := s.queue[l := RemoveAll(s.queue[l], Keep(Around(s, t), Actives(s)))])
  }

  ghost function EnqueueThread(s: State, t: int): (r: State)
    requires Groups(s) && t in s.pid
    ensures r == s.(queue := r.queue)
  {
    var pivot, l := ReadyOrRunning(s, t), Level(s, t);
    s.(queue := s.queue[l := if pivot == t then s.queue[l] + [t] else InsertAfter(s.queue[l], pivot, t)])
  }

  ghost function EnqueueProc(s: State, t: int): (r: State)
    requires Groups(s) && t in s.pid
    ensures r == s.(queue := r.queue)
  {
    var l := Level(s, t);
    var others := Keep(Round(s.ring[s.pid[t]], t), Actives(s));
    s.(queue := s.queue[l := InsertAll(s.queue[l] + [t], t, others)])
  }

  /** Thread `t` is out of its queue and not pinned. */
  lemma DequeueThreadIs(s: State, t: int)
    requires Groups(s) && Levels(s) && t in s.pid
    ensures var r, l := DequeueThread(s, t), Level(s, t);
      && |r.pin| == |r.queue| == QSIZE && QueueOk(r.queue[l], s.pid)
      && (forall u :: u in r.queue[l] <==> u in s.queue[l] && u != t)
      && (r.pin[l] == NONE || r.pin[l] in r.queue[l])
      && (forall m :: 0 <= m < QSIZE && m != l ==> r.pin[m] == s.pin[m] && r.queue[m] == s.queue[m])
  {
    PinNextThreadIs(s, t, false);
    RemoveOk(s.queue[Level(s, t)], s.pid, t);
  }

  /** The process of `t` is out of its queue and not pinned. */
  lemma DequeueProcIs(s: State, t: int)
    requires Groups(s) && Levels(s) && t in s.pid
    ensures var r, l := DequeueProc(s, t), Level(s, t);
      && |r.pin| == |r.queue| == QSIZE && QueueOk(r.queue[l], s.pid)
      && (forall u :: u in r.queue[l] <==> Queued(s, u, l) && s.pid[u] != s.pid[t])
      && (r.pin[l] == NONE || r.pin[l] in r.queue[l])
      && (forall m :: 0 <= m < QSIZE && m != l ==> r.pin[m] == s.pin[m] && r.queue[m] == s.queue[m])
  {
    var l, ts := Level(s, t), Keep(Around(s, t), Actives(s));
    PinNextProcIs(s, t, false);
    AroundIs(s, t);
    KeepIs(Around(s, t), Actives(s));
    RemoveAllOk(s.queue[l], s.pid, ts);
    assert forall u :: u in s.queue[l] ==> (u in ts <==> s.pid[u] == s.pid[t]);
  }

  /** Thread `t` has joined its process, or the end of its queue. */
  lemma EnqueueThreadIs(s: State, t: int)
    requires Groups(s) && t in s.pid
    requires Queued(s, t, Level(s, t)) && QueueOk(s.queue[Level(s, t)], s.pid)
    requires forall u :: u in s.queue[Level(s, t)] <==> Queued(s, u, Level(s, t)) && u != t
    ensures var q := EnqueueThread(s, t).queue; var l := Level(s, t);
      && |q| == QSIZE && QueueOk(q[l], s.pid) && (forall u :: u in q[l] <==> Queued(s, u, l))
      && (forall m :: 0 <= m < QSIZE && m != l ==> q[m] == s.queue[m])
  {
    var pivot, l := ReadyOrRunning(s, t), Level(s, t);
    ReadyOrRunningIs(s, t);
    if pivot == t {
      OnlyOne(s, t);
      AppendOk(s.queue[l], s.pid, [t]);
    } else {
      InsertAfterOk(s.queue[l], s.pid, pivot, t);
    }
  }

  /** threads_apply0 comes to `t` last. */
  lemma OnlyOne(s: State, t: int)
    requires Groups(s) && t in s.pid && ReadyOrRunning(s, t) == t
    ensures forall u :: u in s.pid && s.pid[u] == s.pid[t] && u != t ==> !Active(s, u)
  {
    var r, ok := Round(s.ring[s.pid[t]], t), Actives(s);
    RoundIs(s.ring[s.pid[t]], t);
    FirstOfAppend(r, [t], ok);
    FirstIs(r, ok);
  }

  lemma EnqueueProcIs(s: State, t: int)
    requires Groups(s) && t in s.pid
    requires Queued(s, t, Level(s, t)) && QueueOk(s.queue[Level(s, t)], s.pid)
    requires forall u :: u in s.queue[Level(s, t)] <==> Queued(s, u, Level(s, t)) && s.pid[u] != s.pid[t]
    ensures var q := EnqueueProc(s, t).queue; var l := Level(s, t);
      && |q| == QSIZE && QueueOk(q[l], s.pid) && (forall u :: u in q[l] <==> Queued(s, u, l))
      && (forall m :: 0 <= m < QSIZE && m != l ==> q[m] == s.queue[m])
  {
    var l, r := Level(s, t), Round(s.ring[s.pid[t]], t);
    RoundIs(s.ring[s.pid[t]], t);
    KeepIs(r, Actives(s));
    AppendOk(s.queue[l], s.pid, [t]);
    InsertAllOk(s.queue[l] + [t], s.pid, t, Keep(r, Actives(s)));
  }

  // ---------- steps ----------

  predicate IsMlfq(s: State, t: int)
    requires t in s.pid
  {
    s.pid[t] !in s.stride
  }

  /** sched, once the state of the current thread has changed. */
  ghost function Sched(s: State): (r: State)
    requires Groups(s) && s.cur in s.pid
    ensures r == s.(run := r.run, phase := r.phase, cur := r.cur)
  {
    var n := ReadyThread(s, s.cur);
    if n == NONE || s.ticks[s.pid[s.cur]] % DTQ == 0 then s.(phase := Over)
    else s.(run := s.run[n := Running], cur := n)
  }

  /** yield, before sched. */
  ghost function Ticked(s: State): State
    requires Groups(s) && s.cur in s.pid
  {
    var p := s.pid[s.cur];
    s.(ticks := s.ticks[p := s.ticks[p] + 1], clock := s.clock + (if IsMlfq(s, s.cur) then 1 else 0),
       run := s.run[s.cur := Runnable])
  }

  /** The current thread goes to sleep or exits: it leaves its queue. */
  ghost function Left(s: State, x: Run): (r: State)
    requires Groups(s) && s.cur in s.pid
    ensures r == s.(pin := r.pin, queue := r.queue, run := r.run)
  {
    (if IsMlfq(s, s.cur) then DequeueThread(s, s.cur) else s).(run := s.run[s.cur := x])
  }

  /** The current process exits. */
  ghost function Exited(s: State): (r: State)
    requires Groups(s) && s.cur in s.pid
    ensures r == s.(pin := r.pin, queue := r.queue, run := r.run)
  {
    (if IsMlfq(s, s.cur) then DequeueProc(s, s.cur) else s).(run := s.run[s.cur := Zombie])
  }

  ghost function DoTick(s: State): State
    requires Groups(s) && s.cur in s.pid
  {
    SameGroups(s, Ticked(s));
    Sched(Ticked(s))
  }

  ghost function DoLeave(s: State, x: Run): State
    requires Groups(s) && s.cur in s.pid
  {
    SameGroups(s, Left(s, x));
    Sched(Left(s, x))
  }

  ghost function DoExit(s: State): State
    requires Groups(s) && s.cur in s.pid
  {
    SameGroups(s, Exited(s));
    Sched(Exited(s))
  }

  ghost function DoWake(s: State, t: int): State
    requires Groups(s) && t in s.pid
  {
    var r := s.(run := s.run[t := Runnable]);
    if IsMlfq(s, t) then EnqueueThread(r, t) else r
  }

  ghost function Created(s: State, t: int): State
    requires Groups(s) && s.cur in s.pid
  {
    var p := s.pid[s.cur];
    s.(ring := s.ring[p := s.ring[p] + [t]], pid := s.pid[t := p], run := s.run[t := Runnable])
  }

  ghost function DoCreate(s: State, t: int): State
    requires Groups(s) && s.cur in s.pid && t !in s.pid && t >= 0
  {
    KeepCreated(s, t);
    var r := Created(s, t);
    if IsMlfq(r, t) then EnqueueThread(r, t) else r
  }

  lemma KeepCreated(s: State, t: int)
    requires Groups(s) && s.cur in s.pid && t !in s.pid && t >= 0
    ensures Groups(Created(s, t))
  {
    var r, p := Created(s, t), s.pid[s.cur];
    assert forall u :: u in s.ring[p] ==> u in s.pid;
    forall u | u in r.pid ensures ProcOk(r, r.pid[u]) && u in r.ring[r.pid[u]] {
      assert u == t || ProcOk(s, s.pid[u]);
    }
  }

  /** fork: a process at level 0 with a thread for each live one of the parent. */
  ghost function Forked(s: State, p: int, ts: seq<int>, asleep: set<int>): State {
    s.(ring := s.ring[p := ts], stride := s.stride - {p},
       pid := map t | t in s.pid.Keys + (set u | u in ts) :: if t in ts then p else s.pid[t],
       run := map t | t in s.run.Keys + (set u | u in ts) ::
                if t !in ts then s.run[t] else if t in asleep then Sleeping else Runnable,
       level := s.level[p := 0], ticks := s.ticks[p := 0])
  }

  ghost predicate CanFork(s: State, p: int, ts: seq<int>, first: int, asleep: set<int>) {
    && p !in s.ring && Distinct(ts) && first in ts && first !in asleep
    && forall t :: t in ts ==> t >= 0 && t !in s.pid
  }

  lemma KeepForked(s: State, p: int, ts: seq<int>, first: int, asleep: set<int>)
    requires Groups(s) && CanFork(s, p, ts, first, asleep)
    ensures Groups(Forked(s, p, ts, asleep))
  {
    var r := Forked(s, p, ts, asleep);
    assert r.pid.Keys == r.run.Keys;
    ForkedProcs(s, p, ts, first, asleep);
    forall u | u in r.pid ensures u >= 0 && ProcOk(r, r.pid[u]) && u in r.ring[r.pid[u]] {
      assert u !in ts ==> ProcOk(s, s.pid[u]) && s.pid[u] in r.ring;
    }
  }

  lemma ForkedProcs(s: State, p: int, ts: seq<int>, first: int, asleep: set<int>)
    requires Groups(s) && CanFork(s, p, ts, first, asleep)
    ensures var r := Forked(s, p, ts, asleep);
      && (forall q :: q in r.ring ==> ProcOk(r, q))
      && (forall q, t :: q in r.ring && t in r.ring[q] ==> t in r.pid && r.pid[t] == q)
  {
    var r := Forked(s, p, ts, asleep);
    forall q | q in r.ring ensures ProcOk(r, q) { assert q != p ==> ProcOk(s, q); }
    forall q, t | q in r.ring && t in r.ring[q] ensures t in r.pid && r.pid[t] == q {
      assert q != p ==> t in s.ring[q] && t in s.pid && s.pid[t] == q;
    }
  }

  ghost function DoFork(s: State, p: int, ts: seq<int>, first: int, asleep: set<int>): State
    requires Groups(s) && CanFork(s, p, ts, first, asleep)
  {
    KeepForked(s, p, ts, first, asleep);
    EnqueueProc(Forked(s, p, ts, asleep), first)
  }

  /** thread_join frees the exited thread `t`. */
  ghost function Joined(s: State, t: int): State
    requires Groups(s) && t in s.pid
  {
    var p := s.pid[t];
    s.(ring := s.ring[p := Remove(s.ring[p], t)], pid := s.pid - {t}, run := s.run - {t})
  }

  /** wait frees the exited process `p`. */
  ghost function Reaped(s: State, p: int): State
    requires Groups(s) && p in s.ring
  {
    var t := s.ring[p][0];
    s.(ring := s.ring - {p}, level := s.level - {p}, ticks := s.ticks - {p}, stride := s.stride - {p},
       pid := s.pid - {t}, run := s.run - {t})
  }

  ghost function Shared(s: State): State
    requires Groups(s) && s.cur in s.pid
  {
    DequeueProc(s, s.cur).(stride := s.stride + {s.pid[s.cur]})
  }

  ghost function Demoted(s: State, t: int): State
    requires Groups(s) && t in s.pid
  {
    var p := s.pid[t];
    DequeueProc(s, t).(level := s.level[p := s.level[p] + 1], ticks := s.ticks[p := 0])
  }

  lemma KeepDemoted(s: State, t: int)
    requires Groups(s) && t in s.pid && Level(s, t) < QSIZE - 1
    ensures Groups(Demoted(s, t))
  {
    SameGroups(s, Demoted(s, t));
  }

  ghost function MlfqLogic(s: State, t: int): State
    requires Groups(s) && t in s.pid
  {
    var p, l := s.pid[t], Level(s, t);
    if l < QSIZE - 1 && s.ticks[p] >= Ta(l) then
      KeepDemoted(s, t);
      var r := Demoted(s, t);
      var m := ReadyOrRunning(r, t);
      if m in r.pid then EnqueueProc(r, m) else r
    else if s.ticks[p] % Tq(l) == 0 then PinNextProc(s, t, true)
    else PinNextThread(s, t, true)
  }

  lemma LogicGroups(s: State, t: int)
    requires Groups(s) && t in s.pid
    ensures Groups(MlfqLogic(s, t))
  {
    var r := MlfqLogic(s, t);
    if Level(s, t) < QSIZE - 1 && s.ticks[s.pid[t]] >= Ta(Level(s, t)) {
      KeepDemoted(s, t);
      SameGroups(Demoted(s, t), r);
    } else {
      SameGroups(s, r);
    }
  }

  /** concatqueue(src, 0). */
  ghost function Concat(s: State, src: int): State
    requires |s.queue| == |s.pin| == QSIZE && 0 < src < QSIZE
  {
    var to := if s.queue[0] == [] && s.pin[src] != NONE then s.pin[src] else s.pin[0];
    s.(queue := s.queue[0 := s.queue[0] + s.queue[src]][src := []], pin := s.pin[0 := to][src := NONE])
  }

  /** priority_boost visits the main thread of `p`, in a lower queue or in the sleep list. */
  ghost predicate Visited(s: State, p: int)
    requires |s.queue| == QSIZE && p in s.ring && s.ring[p] != []
  {
    var m := s.ring[p][0];
    m in s.queue[1] || m in s.queue[2] || (m in s.run && s.run[m].Sleeping?)
  }

  ghost function Boosted(s: State): State
    requires Groups(s)
  {
    Concat(Concat(s, 1), 2).(
      level := map p | p in s.level :: if p in s.ring && Visited(s, p) then 0 else s.level[p],
      ticks := map p | p in s.ticks :: if p in s.ring && Visited(s, p) then 0 else s.ticks[p],
      clock := 0)
  }

  ghost function AfterLogic(s: State): State
    requires Groups(s) && s.cur in s.pid
  {
    if IsMlfq(s, s.cur) then MlfqLogic(s, s.cur) else s
  }

  ghost function DoEndSlice(s: State): State
    requires Groups(s) && s.cur in s.pid
  {
    LogicGroups(s, s.cur);
    var r := AfterLogic(s);
    var b := if r.clock >= BOOST_INTERVAL then Boosted(r) else r;
    b.(phase := Idle, cur := NONE)
  }

  /** The level that mlfqselect stops at. */
  function Top(s: State): (l: int)
    requires |s.queue| == QSIZE
    ensures 0 <= l <= QSIZE && (l < QSIZE ==> s.queue[l] != []) && forall m :: 0 <= m < l ==> s.queue[m] == []
  {
    if s.queue[0] != [] then 0 else if s.queue[1] != [] then 1 else if s.queue[2] != [] then 2 else QSIZE
  }

  /** What mlfqselect chooses there. */
  function Choice(s: State): int
    requires |s.queue| == |s.pin| == QSIZE && Top(s) < QSIZE
  {
    var l := Top(s);
    if s.pin[l] == NONE then s.queue[l][0] else s.pin[l]
  }

  ghost function DoSelect(s: State): State
    requires Groups(s)
  {
    if Top(s) == QSIZE then s
    else
      var t := Choice(s);
      s.(pin := s.pin[Top(s) := t], run := s.run[t := Running], phase := Busy, cur := t)
  }

  /** A thread runs on the CPU. */
  predicate Busied(s: State) { s.phase.Busy? && s.cur in s.pid }

  ghost predicate Enabled(s: State, ev: Event)
    requires Groups(s)
  {
    match ev
    case Select => s.phase.Idle?
    case SelectStride(t) => s.phase.Idle? && t in s.pid && !IsMlfq(s, t) && s.run[t].Runnable?
    case Tick => Busied(s)
    case Sleep => Busied(s)
    case ThreadExit => Busied(s) && s.cur != s.ring[s.pid[s.cur]][0]
    case Exit => Busied(s) && s.ring[s.pid[s.cur]] == [s.cur]
    case Wake(t) => !s.phase.Over? && t in s.pid && s.run[t].Sleeping?
    case Create(t) => Busied(s) && t >= 0 && t !in s.pid
    case Fork(p, ts, first, asleep) => Busied(s) && CanFork(s, p, ts, first, asleep)
    case Join(t) => Busied(s) && t in s.pid && s.run[t].Zombie? && t != s.ring[s.pid[t]][0]
    case Reap(p) => Busied(s) && p in s.ring && s.ring[p][0] in s.run && s.run[s.ring[p][0]].Zombie?
    case Share => Busied(s) && IsMlfq(s, s.cur)
    case EndSlice => s.phase.Over? && s.cur in s.pid
  }

  ghost function Do(s: State, ev: Event): State
    requires Groups(s) && Enabled(s, ev)
  {
    match ev
    case Select => DoSelect(s)
    case SelectStride(t) => s.(run := s.run[t := Running], phase := Busy, cur := t)
    case Tick => DoTick(s)
    case Sleep => DoLeave(s, Sleeping)
    case ThreadExit => DoLeave(s, Zombie)
    case Exit => DoExit(s)
    case Wake(t) => DoWake(s, t)
    case Create(t) => DoCreate(s, t)
    case Fork(p, ts, first, asleep) => DoFork(s, p, ts, first, asleep)
    case Join(t) => Joined(s, t)
    case Reap(p) => Reaped(s, p)
    case Share => Shared(s)
    case EndSlice => DoEndSlice(s)
  }

  // ---------- every step keeps the invariant ----------

  /** Both states have the same threads in the queues. */
  ghost predicate SameQueued(s: State, r: State) {
    && s.queue == r.queue && s.pin == r.pin
    && (forall t :: Active(s, t) && t in s.pid ==> t in r.pid && r.pid[t] == s.pid[t])
    && forall t, l :: Queued(s, t, l) <==> Queued(r, t, l)
  }

  lemma SameLevels(s: State, r: State)
    requires |s.queue| == |s.pin| == QSIZE && SameQueued(s, r) && Levels(s)
    ensures Levels(r)
  {
    Untouched(s, r, 0);
    Untouched(s, r, 1);
    Untouched(s, r, 2);
  }

  lemma KeepSched(s: State)
    requires Groups(s) && Mains(s) && Levels(s) && s.phase.Busy? && s.cur in s.pid
    requires forall t :: t in s.run ==> !s.run[t].Running?
    ensures Inv(Sched(s))
  {
    var r, n := Sched(s), ReadyThread(s, s.cur);
    ReadyThreadIs(s, s.cur);
    SameLevels(s, r);
    SameGroups(s, r);
  }

  lemma KeepTick(s: State)
    requires Inv(s) && s.phase.Busy?
    ensures Inv(DoTick(s))
  {
    var r := Ticked(s);
    SameGroups(s, r);
    SameLevels(s, r);
    KeepSched(r);
  }

  /** Levels other than the one a dequeue or enqueue worked on. */
  lemma OtherLevels(s: State, r: State, l: int)
    requires |s.queue| == |s.pin| == |r.queue| == |r.pin| == QSIZE && 0 <= l < QSIZE
    requires Levels(s) && LevelOk(r, l)
    requires forall m :: 0 <= m < QSIZE && m != l ==> r.queue[m] == s.queue[m] && r.pin[m] == s.pin[m]
    requires forall t, m :: m != l ==> (Queued(s, t, m) <==> Queued(r, t, m))
    requires forall t :: t in s.pid ==> t in r.pid && r.pid[t] == s.pid[t]
    ensures Levels(r)
  {
    if l != 0 { Untouched(s, r, 0); }
    if l != 1 { Untouched(s, r, 1); }
    if l != 2 { Untouched(s, r, 2); }
  }

  lemma LeftLevels(s: State, x: Run)
    requires Groups(s) && Levels(s) && s.cur in s.pid && (x.Sleeping? || x.Zombie?)
    ensures Groups(Left(s, x)) && Levels(Left(s, x))
  {
    var r, l := Left(s, x), Level(s, s.cur);
    SameGroups(s, r);
    assert forall t, m :: t != s.cur ==> (Queued(s, t, m) <==> Queued(r, t, m));
    if IsMlfq(s, s.cur) {
      DequeueThreadIs(s, s.cur);
      OtherLevels(s, r, l);
    } else {
      SameLevels(s, r);
    }
  }

  lemma KeepLeft(s: State, x: Run)
    requires Inv(s) && s.phase.Busy? && (x.Sleeping? || x.Zombie?)
    requires x.Zombie? ==> s.cur != s.ring[s.pid[s.cur]][0]
    ensures Inv(DoLeave(s, x))
  {
    LeftLevels(s, x);
    KeepSched(Left(s, x));
  }

  lemma ExitedLevels(s: State)
    requires Groups(s) && Levels(s) && s.cur in s.pid && s.ring[s.pid[s.cur]] == [s.cur]
    ensures Groups(Exited(s)) && Levels(Exited(s))
  {
    var r, l := Exited(s), Level(s, s.cur);
    SameGroups(s, r);
    assert forall t :: t in s.pid && s.pid[t] == s.pid[s.cur] ==> t in s.ring[s.pid[t]];
    assert forall t, m :: t != s.cur ==> (Queued(s, t, m) <==> Queued(r, t, m));
    if IsMlfq(s, s.cur) {
      DequeueProcIs(s, s.cur);
      OtherLevels(s, r, l);
    } else {
      SameLevels(s, r);
    }
  }

  lemma KeepExit(s: State)
    requires Inv(s) && s.phase.Busy? && s.ring[s.pid[s.cur]] == [s.cur]
    ensures Inv(DoExit(s))
  {
    ExitedLevels(s);
    assert Mains(Exited(s)) by {
      assert forall p :: p in s.ring && p != s.pid[s.cur] ==> ProcOk(s, p) && s.ring[p][0] != s.cur;
    }
    KeepSched(Exited(s));
  }

  /** A step after which no more threads are dead. */
  lemma SameMains(s: State, r: State)
    requires Mains(s) && r.ring == s.ring
    requires forall t :: t in r.run && r.run[t].Zombie? ==> t in s.run && s.run[t].Zombie?
    ensures Mains(r)
  {
    forall p | p in r.ring && r.ring[p] != [] && r.ring[p][0] in r.run && r.run[r.ring[p][0]].Zombie?
      ensures |r.ring[p]| == 1
    {
      var m := r.ring[p][0];
      assert m in r.run && r.run[m].Zombie?;
      assert m in s.run && s.ring[p][0] == m;
    }
  }

  lemma WokenLevels(s: State, t: int)
    requires Groups(s) && Levels(s) && t in s.pid && s.run[t].Sleeping?
    ensures Groups(DoWake(s, t)) && Levels(DoWake(s, t))
  {
    var r := s.(run := s.run[t := Runnable]);
    SameGroups(s, r);
    assert forall u, m :: u != t ==> (Queued(s, u, m) <==> Queued(r, u, m));
    if IsMlfq(s, t) {
      EnqueuedLevels(s, r, t);
    } else {
      SameLevels(s, r);
    }
  }

  /** Thread `t` has become active and joins its queue. */
  lemma EnqueuedLevels(s: State, r: State, t: int)
    requires Groups(s) && Levels(s) && Groups(r) && t in r.pid && Queued(r, t, Level(r, t))
    requires r.queue == s.queue && r.pin == s.pin && forall u :: u in s.pid ==> u in r.pid && r.pid[u] == s.pid[u]
    requires forall u, m :: Queued(s, u, m) <==> Queued(r, u, m) && u != t
    ensures Groups(EnqueueThread(r, t)) && Levels(EnqueueThread(r, t))
  {
    var d, l := EnqueueThread(r, t), Level(r, t);
    assert LevelOk(s, l);
    GrownPids(s, r, l);
    EnqueueThreadIs(r, t);
    SameGroups(r, d);
    assert forall u, m :: Queued(d, u, m) <==> Queued(r, u, m);
    assert LevelOk(d, l);
    OtherLevels(s, d, l);
  }

  lemma KeepWake(s: State, t: int)
    requires Inv(s) && t in s.pid && s.run[t].Sleeping?
    ensures Inv(DoWake(s, t))
  {
    WokenLevels(s, t);
    SameMains(s, DoWake(s, t));
  }

  lemma CreatedLevels(s: State, t: int)
    requires Groups(s) && Levels(s) && s.cur in s.pid && t !in s.pid && t >= 0
    ensures Groups(DoCreate(s, t)) && Levels(DoCreate(s, t))
  {
    KeepCreated(s, t);
    var r := Created(s, t);
    assert forall u, m :: u != t ==> (Queued(s, u, m) <==> Queued(r, u, m));
    assert forall m :: !Queued(s, t, m);
    if IsMlfq(r, t) {
      EnqueuedLevels(s, r, t);
    } else {
      SameLevels(s, r);
    }
  }

  lemma CreatedMains(s: State, t: int)
    requires Groups(s) && Mains(s) && s.cur in s.run && s.run[s.cur].Running? && t !in s.pid
    ensures Mains(Created(s, t))
  {
    var r, p := Created(s, t), s.pid[s.cur];
    assert ProcOk(s, p) && r.ring[p][0] == s.ring[p][0] && s.ring[p][0] in s.ring[p];
    assert s.cur in s.ring[p] && (|s.ring[p]| == 1 ==> s.ring[p][0] == s.cur);
    assert !s.run[s.ring[p][0]].Zombie?;
    forall q | q in r.ring && r.ring[q] != [] && r.ring[q][0] in r.run && r.run[r.ring[q][0]].Zombie?
      ensures |r.ring[q]| == 1
    {
      assert ProcOk(s, q) && s.ring[q][0] in s.ring[q];
    }
  }

  lemma KeepCreate(s: State, t: int)
    requires Inv(s) && s.phase.Busy? && t !in s.pid && t >= 0
    ensures Inv(DoCreate(s, t))
  {
    CreatedLevels(s, t);
    CreatedRest(s, t);
  }

  lemma CreatedRest(s: State, t: int)
    requires Groups(s) && Mains(s) && Cpu(s) && s.phase.Busy? && t !in s.pid && t >= 0
    ensures Mains(DoCreate(s, t)) && Cpu(DoCreate(s, t))
  {
    KeepCreated(s, t);
    CreatedMains(s, t);
    var r, d := Created(s, t), DoCreate(s, t);
    assert d.ring == r.ring && d.run == r.run && d.phase == r.phase && d.cur == r.cur;
    SameMains(r, d);
  }

  /** New threads change nothing for those in the queues. */
  lemma GrownPids(s: State, r: State, l: int)
    requires Groups(s) && Levels(s) && 0 <= l < QSIZE && r.queue == s.queue
    requires forall t :: t in s.pid ==> t in r.pid && r.pid[t] == s.pid[t]
    ensures QueueOk(r.queue[l], r.pid)
  {
    var q := s.queue[l];
    assert LevelOk(s, l);
    forall i | 0 <= i < |q| ensures q[i] in s.pid && q[i] in r.pid && r.pid[q[i]] == s.pid[q[i]] {
      var t := q[i];
      assert t in q && Queued(s, t, l);
      assert t in s.pid && t in r.pid;
    }
  }

  lemma ForkedLevels(s: State, p: int, ts: seq<int>, first: int, asleep: set<int>)
    requires Groups(s) && Levels(s) && CanFork(s, p, ts, first, asleep)
    ensures Groups(DoFork(s, p, ts, first, asleep)) && Levels(DoFork(s, p, ts, first, asleep))
  {
    KeepForked(s, p, ts, first, asleep);
    var r, d := Forked(s, p, ts, asleep), DoFork(s, p, ts, first, asleep);
    assert forall u :: u in s.pid ==> s.pid[u] != p;
    assert forall u, m :: u !in ts ==> (Queued(s, u, m) <==> Queued(r, u, m));
    GrownPids(s, r, 0);
    EnqueueProcIs(r, first);
    OtherLevels(s, d, 0);
    SameGroups(r, d);
  }

  lemma ForkedMains(s: State, p: int, ts: seq<int>, first: int, asleep: set<int>)
    requires Groups(s) && Mains(s) && CanFork(s, p, ts, first, asleep)
    ensures Mains(Forked(s, p, ts, asleep))
  {
    var r := Forked(s, p, ts, asleep);
    assert ts[0] in ts;
    forall q | q in r.ring && r.ring[q] != [] && r.ring[q][0] in r.run && r.run[r.ring[q][0]].Zombie?
      ensures |r.ring[q]| == 1
    {
      assert q != p ==> ProcOk(s, q) && s.ring[q][0] in s.ring[q];
    }
  }

  lemma KeepFork(s: State, p: int, ts: seq<int>, first: int, asleep: set<int>)
    requires Inv(s) && s.phase.Busy? && CanFork(s, p, ts, first, asleep)
    ensures Inv(DoFork(s, p, ts, first, asleep))
  {
    ForkedLevels(s, p, ts, first, asleep);
    ForkedMains(s, p, ts, first, asleep);
    SameMains(Forked(s, p, ts, asleep), DoFork(s, p, ts, first, asleep));
  }

  lemma JoinedGroups(s: State, t: int)
    requires Groups(s) && t in s.pid && t != s.ring[s.pid[t]][0]
    ensures Groups(Joined(s, t)) && Joined(s, t).ring[s.pid[t]][0] == s.ring[s.pid[t]][0]
  {
    var r, p := Joined(s, t), s.pid[t];
    RemoveIs(s.ring[p], t);
    forall q | q in r.ring ensures ProcOk(r, q) {
      assert ProcOk(s, q);
    }
    assert r.run.Keys == r.pid.Keys;
  }

  lemma KeepJoin(s: State, t: int)
    requires Inv(s) && s.phase.Busy? && t in s.pid && s.run[t].Zombie? && t != s.ring[s.pid[t]][0]
    ensures Inv(Joined(s, t))
  {
    JoinedGroups(s, t);
    SameLevels(s, Joined(s, t));
    RemoveIs(s.ring[s.pid[t]], t);
  }

  lemma ReapedGroups(s: State, p: int)
    requires Groups(s) && p in s.ring && |s.ring[p]| == 1
    ensures Groups(Reaped(s, p))
    ensures forall u :: u in s.pid && u != s.ring[p][0] ==> s.pid[u] != p
  {
    var r, t := Reaped(s, p), s.ring[p][0];
    assert ProcOk(s, p) && s.ring[p] == [t] && t in s.ring[p];
    forall u | u in s.pid && u != t ensures s.pid[u] != p && ProcOk(r, s.pid[u]) {
      assert ProcOk(s, s.pid[u]) && u in s.ring[s.pid[u]];
    }
    forall q | q in r.ring ensures ProcOk(r, q) { assert ProcOk(s, q); }
    forall q, u | q in r.ring && u in r.ring[q] ensures u in r.pid && r.pid[u] == q {
      assert u in s.ring[q] && s.pid[u] == q && s.pid[t] == p;
    }
    assert r.run.Keys == r.pid.Keys;
  }

  lemma KeepReap(s: State, p: int)
    requires Inv(s) && s.phase.Busy? && p in s.ring && s.ring[p][0] in s.run && s.run[s.ring[p][0]].Zombie?
    ensures Inv(Reaped(s, p))
  {
    ReapedGroups(s, p);
    SameLevels(s, Reaped(s, p));
  }

  lemma SharedLevels(s: State)
    requires Groups(s) && Levels(s) && s.cur in s.pid && IsMlfq(s, s.cur)
    ensures Groups(Shared(s)) && Levels(Shared(s))
  {
    var r, l, p := Shared(s), Level(s, s.cur), s.pid[s.cur];
    SameGroups(s, r);
    DequeueProcIs(s, s.cur);
    assert forall t, m :: Queued(r, t, m) <==> Queued(s, t, m) && s.pid[t] != p;
    OtherLevels(s, r, l);
  }

  lemma KeepShare(s: State)
    requires Inv(s) && s.phase.Busy? && IsMlfq(s, s.cur)
    ensures Inv(Shared(s))
  {
    SharedLevels(s);
    SameMains(s, Shared(s));
  }

  /** mlfqselect chooses a runnable thread, at the highest level that has any, and does not
      meet its panic. */
  lemma SelectIs(s: State)
    requires Inv(s) && s.phase.Idle? && Top(s) < QSIZE
    ensures var t := Choice(s); t in s.pid && s.run[t].Runnable? && IsMlfq(s, t) && Level(s, t) == Top(s)
    ensures forall u :: u in s.pid && s.run[u].Runnable? && IsMlfq(s, u) ==> Top(s) <= Level(s, u)
  {
    var l, t := Top(s), Choice(s);
    assert t in s.queue[l] && Queued(s, t, l);
    forall u | u in s.pid && s.run[u].Runnable? && IsMlfq(s, u) ensures l <= Level(s, u) {
      assert Queued(s, u, Level(s, u)) && u in s.queue[Level(s, u)];
    }
  }

  lemma KeepSelect(s: State)
    requires Inv(s) && s.phase.Idle?
    ensures Inv(DoSelect(s))
  {
    if Top(s) < QSIZE {
      SelectIs(s);
      var r, t := DoSelect(s), Choice(s);
      SameGroups(s, r);
      assert forall u, m :: Queued(s, u, m) <==> Queued(r, u, m);
      OtherLevels(s, r, Top(s));
    }
  }

  lemma KeepSelectStride(s: State, t: int)
    requires Inv(s) && s.phase.Idle? && t in s.pid && s.run[t].Runnable?
    ensures Inv(s.(run := s.run[t := Running], phase := Busy, cur := t))
  {
    var r := s.(run := s.run[t := Running], phase := Busy, cur := t);
    SameGroups(s, r);
    SameLevels(s, r);
  }

  // ---------- the end of a slice ----------

  lemma DemotedLevels(s: State, t: int)
    requires Groups(s) && Levels(s) && t in s.pid && IsMlfq(s, t) && Level(s, t) < QSIZE - 1
    requires s.ticks[s.pid[t]] >= Ta(Level(s, t))
    ensures Levels(MlfqLogic(s, t))
  {
    var l, d := Level(s, t), Demoted(s, t);
    KeepDemoted(s, t);
    DemotedIs(s, t);
    ReadyOrRunningIs(d, t);
    var m := ReadyOrRunning(d, t);
    if m in d.pid {
      Requeued(d, m, l + 1);
    } else {
      assert LevelOk(d, l + 1);
    }
  }

  /** A queue that lacks just the process of `t` is right once that is back in it. */
  lemma Requeued(d: State, t: int, n: int)
    requires Groups(d) && t in d.pid && 0 <= n < QSIZE && Queued(d, t, n)
    requires forall m :: 0 <= m < QSIZE && m != n ==> LevelOk(d, m)
    requires QueueOk(d.queue[n], d.pid) && (d.pin[n] == NONE || d.pin[n] in d.queue[n])
    requires forall u :: u in d.queue[n] <==> Queued(d, u, n) && d.pid[u] != d.pid[t]
    ensures Levels(EnqueueProc(d, t))
  {
    var r := EnqueueProc(d, t);
    EnqueueProcIs(d, t);
    assert forall u, m :: Queued(r, u, m) <==> Queued(d, u, m);
    forall m | 0 <= m < QSIZE && m != n ensures LevelOk(r, m) { Untouched(d, r, m); }
    assert LevelOk(r, n);
  }

  /** The process is out of its old queue; the next queue lacks just the process. */
  lemma DemotedIs(s: State, t: int)
    requires Groups(s) && Levels(s) && t in s.pid && IsMlfq(s, t) && Level(s, t) < QSIZE - 1
    ensures var l, d, p := Level(s, t), Demoted(s, t), s.pid[t];
      && |d.queue| == |d.pin| == QSIZE && d.level[p] == l + 1
      && (forall m :: 0 <= m < QSIZE && m != l + 1 ==> LevelOk(d, m))
      && QueueOk(d.queue[l + 1], d.pid) && (d.pin[l + 1] == NONE || d.pin[l + 1] in d.queue[l + 1])
      && (forall u :: u in d.queue[l + 1] <==> Queued(d, u, l + 1) && d.pid[u] != p)
  {
    var l, d, p := Level(s, t), Demoted(s, t), s.pid[t];
    DequeueProcIs(s, t);
    assert forall u, k :: u in s.pid && s.pid[u] != p ==> (Queued(s, u, k) <==> Queued(d, u, k));
    forall m | 0 <= m < QSIZE && m != l + 1 ensures LevelOk(d, m) {
      assert LevelOk(s, m);
    }
    var n := l + 1;
    assert LevelOk(s, n);
    forall u ensures u in d.queue[n] <==> Queued(d, u, n) && d.pid[u] != p {
      assert u in s.queue[n] <==> Queued(s, u, n);
    }
  }

  lemma PinnedLevels(s: State, t: int)
    requires Groups(s) && Levels(s) && t in s.pid
    ensures Levels(PinNextProc(s, t, true)) && Levels(PinNextThread(s, t, true))
  {
    PinNextProcIs(s, t, true);
    PinNextThreadIs(s, t, true);
    PinsMoved(s, PinNextProc(s, t, true), Level(s, t));
    PinsMoved(s, PinNextThread(s, t, true), Level(s, t));
  }

  lemma PinsMoved(s: State, r: State, l: int)
    requires Groups(s) && Levels(s) && r == s.(pin := r.pin) && |r.pin| == QSIZE && 0 <= l < QSIZE
    requires r.pin[l] == NONE || r.pin[l] in s.queue[l]
    requires forall m :: 0 <= m < QSIZE && m != l ==> r.pin[m] == s.pin[m]
    ensures Levels(r)
  {
    assert forall u, m :: Queued(s, u, m) <==> Queued(r, u, m);
    OtherLevels(s, r, l);
  }

  lemma KeepLogic(s: State, t: int)
    requires Groups(s) && Levels(s) && t in s.pid && IsMlfq(s, t)
    ensures Groups(MlfqLogic(s, t)) && Levels(MlfqLogic(s, t))
  {
    var l := Level(s, t);
    LogicGroups(s, t);
    if l < QSIZE - 1 && s.ticks[s.pid[t]] >= Ta(l) {
      DemotedLevels(s, t);
    } else {
      PinnedLevels(s, t);
    }
  }

  /** After a boost every MLFQ process with a thread in the queues is at level 0. */
  lemma AllAtTop(s: State, t: int)
    requires Groups(s) && Mains(s) && Levels(s) && Active(s, t) && t in s.pid && IsMlfq(s, t)
    ensures Boosted(s).level[s.pid[t]] == 0
  {
    var p, l := s.pid[t], Level(s, t);
    var ring := s.ring[p];
    var m := ring[0];
    assert m in ring && (|ring| == 1 ==> t == m);
    assert Queued(s, m, l) || s.run[m].Sleeping?;
  }

  /** The concatenated queue is in order: no process is in two of its parts. */
  lemma BoostedQueue(s: State)
    requires Groups(s) && Levels(s)
    ensures QueueOk(s.queue[0] + s.queue[1] + s.queue[2], s.pid)
  {
    var q0, q1, q2 := s.queue[0], s.queue[1], s.queue[2];
    assert forall t :: (t in q0 ==> Queued(s, t, 0)) && (t in q1 ==> Queued(s, t, 1)) && (t in q2 ==> Queued(s, t, 2));
    AppendOk(q0, s.pid, q1);
    AppendOk(q0 + q1, s.pid, q2);
  }

  lemma BoostedMember(s: State, t: int)
    requires Groups(s) && Mains(s) && Levels(s)
    ensures var r := Boosted(s);
      && (t in s.queue[0] + s.queue[1] + s.queue[2] <==> Queued(r, t, 0))
      && !Queued(r, t, 1) && !Queued(r, t, 2)
  {
    var r := Boosted(s);
    if Active(s, t) && t in s.pid && IsMlfq(s, t) {
      AllAtTop(s, t);
      assert Queued(s, t, Level(s, t)) && t in s.queue[Level(s, t)];
    } else {
      assert !Queued(s, t, 0) && !Queued(s, t, 1) && !Queued(s, t, 2);
    }
  }

  /** Each pin is still of its queue: the first of the pins met goes along to level 0. */
  lemma BoostedPins(s: State)
    requires Groups(s) && Levels(s)
    ensures var r := Boosted(s);
      && r.queue[0] == s.queue[0] + s.queue[1] + s.queue[2] && r.queue[1] == [] && r.queue[2] == []
      && (r.pin[0] == NONE || r.pin[0] in r.queue[0]) && r.pin[1] == NONE && r.pin[2] == NONE
  {
    var r := Boosted(s);
    assert r.queue[0] == s.queue[0] + s.queue[1] + s.queue[2];
  }

  lemma BoostedGroups(s: State)
    requires Groups(s)
    ensures Groups(Boosted(s))
  {
    var r := Boosted(s);
    assert r.level.Keys == s.level.Keys && r.ticks.Keys == s.ticks.Keys;
    SameGroups(s, r);
  }

  lemma BoostedLevels(s: State)
    requires Groups(s) && Mains(s) && Levels(s)
    ensures Groups(Boosted(s)) && Levels(Boosted(s))
  {
    BoostedGroups(s);
    BoostedLevel(s, 0);
    BoostedLevel(s, 1);
    BoostedLevel(s, 2);
  }

  lemma BoostedLevel(s: State, l: int)
    requires Groups(s) && Mains(s) && Levels(s) && 0 <= l < QSIZE
    ensures |Boosted(s).queue| == |Boosted(s).pin| == QSIZE && LevelOk(Boosted(s), l)
  {
    var r := Boosted(s);
    BoostedPins(s);
    BoostedQueue(s);
    forall t ensures t in r.queue[l] <==> Queued(r, t, l) { BoostedMember(s, t); }
  }

  lemma LogicInv(s: State)
    requires Inv(s) && s.phase.Over?
    ensures var r := AfterLogic(s); Groups(r) && Mains(r) && Levels(r) && r.run == s.run
  {
    LogicGroups(s, s.cur);
    if IsMlfq(s, s.cur) { KeepLogic(s, s.cur); }
    LogicRun(s, s.cur);
    SameMains(s, AfterLogic(s));
  }

  /** mlfqlogic changes the state of no thread. */
  lemma LogicRun(s: State, t: int)
    requires Groups(s) && t in s.pid
    ensures MlfqLogic(s, t).run == s.run && MlfqLogic(s, t).ring == s.ring
  {
  }

  lemma SliceEnded(r: State)
    requires Groups(r) && Mains(r) && Levels(r)
    ensures var d := (if r.clock >= BOOST_INTERVAL then Boosted(r) else r).(phase := Idle, cur := NONE);
      Groups(d) && Mains(d) && Levels(d) && d.run == r.run
  {
    var b := if r.clock >= BOOST_INTERVAL then Boosted(r) else r;
    if r.clock >= BOOST_INTERVAL { BoostedLevels(r); }
    var d := b.(phase := Idle, cur := NONE);
    SameGroups(b, d);
    SameLevels(b, d);
    SameMains(r, d);
  }

  lemma KeepEndSlice(s: State)
    requires Inv(s) && s.phase.Over?
    ensures Inv(DoEndSlice(s))
  {
    LogicInv(s);
    LogicGroups(s, s.cur);
    SliceEnded(AfterLogic(s));
    EndCpu(s);
  }

  lemma EndCpu(s: State)
    requires Groups(s) && Cpu(s) && s.phase.Over? && s.cur in s.pid
    ensures Cpu(DoEndSlice(s))
  {
    LogicGroups(s, s.cur);
    LogicRun(s, s.cur);
    assert DoEndSlice(s).run == s.run && DoEndSlice(s).phase.Idle?;
    assert forall t :: t in s.run ==> !s.run[t].Running?;
  }

  lemma KeepInv(s: State, ev: Event)
    requires Inv(s) && Enabled(s, ev)
    ensures Inv(Do(s, ev))
  {
    match ev
    case Select => KeepSelect(s);
    case SelectStride(t) => KeepSelectStride(s, t);
    case Tick => KeepTick(s);
    case Sleep => KeepLeft(s, Sleeping);
    case ThreadExit => KeepLeft(s, Zombie);
    case Exit => KeepExit(s);
    case Wake(t) => KeepWake(s, t);
    case Create(t) => KeepCreate(s, t);
    case Fork(p, ts, first, asleep) => KeepFork(s, p, ts, first, asleep);
    case Join(t) => KeepJoin(s, t);
    case Reap(p) => KeepReap(s, p);
    case Share => KeepShare(s);
    case EndSlice => KeepEndSlice(s);
  }
}
