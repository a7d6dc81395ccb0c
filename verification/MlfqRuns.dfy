/** Whole runs of the MLFQ machine: no panic, the right choice, and the allotment rule. */
module MlfqRuns {
  import opened Lists
  import opened Mlfq

  ghost predicate CanRun(s: State, evs: seq<Event>)
    requires Inv(s)
    decreases |evs|
  {
    evs == [] || (Enabled(s, evs[0]) && (KeepInv(s, evs[0]); CanRun(Do(s, evs[0]), evs[1..])))
  }

  ghost function Exec(s: State, evs: seq<Event>): (r: State)
    requires Inv(s) && CanRun(s, evs)
    ensures Inv(r)
    decreases |evs|
  {
    if evs == [] then s else KeepInv(s, evs[0]); Exec(Do(s, evs[0]), evs[1..])
  }

  lemma InitGroups(p: int, t: int)
    requires t >= 0
    ensures Groups(Init(p, t)) && Mains(Init(p, t)) && Cpu(Init(p, t))
  {
    var r := Init(p, t);
    assert r.ring[p] == [t] && ProcOk(r, p);
  }

  lemma InitLevels(p: int, t: int)
    ensures Levels(Init(p, t))
  {
    var r := Init(p, t);
    assert forall u, l :: Queued(r, u, l) <==> u == t && l == 0;
    assert r.queue[0] == [t] && r.queue[1] == [] && r.queue[2] == [];
  }

  /** userinit leaves a consistent state. */
  lemma InitInv(p: int, t: int)
    requires t >= 0
    ensures Inv(Init(p, t)) && Allotted(Init(p, t))
  {
    InitGroups(p, t);
    InitLevels(p, t);
    assert Ta(0) == 20;
  }

  /** It gets there by enqueue_proc from empty queues. */
  lemma UserInit(p: int, t: int)
    requires t >= 0
    ensures var s := Init(p, t).(queue := [[], [], []]); Groups(s) && EnqueueProc(s, t) == Init(p, t)
  {
    InitGroups(p, t);
    var s := Init(p, t).(queue := [[], [], []]);
    SameGroups(Init(p, t), s);
    assert Round([t], t) == [];
    assert s.queue[0] + [t] == [t];
  }

  /** The step would end in one of the panics of pin_next_thread, pin_next_proc, ready_proc,
      enqueue_thread, enqueue_proc, mlfqselect or sched. */
  ghost predicate Panics(s: State, ev: Event)
    requires Groups(s) && Enabled(s, ev)
  {
    match ev
    case Select => Top(s) < QSIZE && !(Choice(s) in s.pid && Level(s, Choice(s)) == Top(s))
    case Sleep => IsMlfq(s, s.cur) && PinPanics(s, s.cur)
    case ThreadExit => IsMlfq(s, s.cur) && PinPanics(s, s.cur)
    case Exit => IsMlfq(s, s.cur) && PinPanics(s, s.cur)
    case Share => PinPanics(s, s.cur)
    case EndSlice => IsMlfq(s, s.cur) && PinPanics(s, s.cur)
    case Wake(t) => IsMlfq(s, t) && ReadyOrRunning(s.(run := s.run[t := Runnable]), t) == NONE
    case Create(t) => Groups(Created(s, t)) && ReadyOrRunning(Created(s, t), t) == NONE
    case Fork(p, ts, first, asleep) => !Active(Forked(s, p, ts, asleep), first)
    case SelectStride(_) => false
    case Tick => false
    case Join(_) => false
    case Reap(_) => false
  }

  lemma NoPanic(s: State, ev: Event)
    requires Inv(s) && Enabled(s, ev)
    ensures !Panics(s, ev)
  {
    match ev
    case Select => if Top(s) < QSIZE { SelectIs(s); }
    case Wake(t) =>
      var r := s.(run := s.run[t := Runnable]);
      SameGroups(s, r);
      ReadyOrRunningIs(r, t);
    case Create(t) =>
      KeepCreated(s, t);
      ReadyOrRunningIs(Created(s, t), t);
    case Sleep => NoPinPanic(s, s.cur);
    case ThreadExit => NoPinPanic(s, s.cur);
    case Exit => NoPinPanic(s, s.cur);
    case Share => NoPinPanic(s, s.cur);
    case EndSlice => NoPinPanic(s, s.cur);
    case Fork(_, _, _, _) =>
    case SelectStride(_) =>
    case Tick =>
    case Join(_) =>
    case Reap(_) =>
  }

  // ---------- allotment ----------

  /** Process `p` has used less than the allotment of its level; just after the tick that ends
      its slice it may have used all of it. */
  ghost predicate Within(s: State, p: int)
    requires p in s.ring && p in s.level && p in s.ticks
  {
    p !in s.stride && s.level[p] < QSIZE - 1 ==>
      && 0 <= s.ticks[p] <= Ta(s.level[p])
      && (s.ticks[p] == Ta(s.level[p]) ==> s.phase.Over? && s.cur in s.pid && s.pid[s.cur] == p)
  }

  ghost predicate Allotted(s: State) {
    forall p :: p in s.ring && p in s.level && p in s.ticks ==> Within(s, p)
  }

  lemma SchedAllotted(s: State)
    requires Groups(s) && s.phase.Busy? && s.cur in s.pid
    requires forall p :: p in s.ring && p in s.level && p in s.ticks && p != s.pid[s.cur] ==> Within(s, p)
    requires Within(s.(phase := Over), s.pid[s.cur])
    ensures Allotted(Sched(s))
  {
    ReadyThreadIs(s, s.cur);
    var p := s.pid[s.cur];
    assert Ta(0) == 20 && Ta(1) == 40;
    assert s.level[p] == 0 || s.level[p] == 1 || s.level[p] == 2;
  }

  /** Processes of `r` are at the same level as in `s` and have used as much, or are new. */
  ghost predicate SameUses(s: State, r: State) {
    forall p :: p in r.ring && p in r.level && p in r.ticks && p !in r.stride ==>
      (p in s.ring && p in s.level && p in s.ticks && p !in s.stride
       && r.level[p] == s.level[p] && r.ticks[p] == s.ticks[p]) || r.ticks[p] == 0
  }

  /** A step after which the same processes have used as much as before. */
  lemma SameAllotted(s: State, r: State)
    requires Allotted(s) && !s.phase.Over? && Groups(r)
    requires SameUses(s, r)
    ensures Allotted(r)
  {
    assert Ta(0) == 20 && Ta(1) == 40;
    forall p | p in r.ring && p in r.level && p in r.ticks ensures Within(r, p) {
      assert ProcOk(r, p);
      assert p in s.ring && p in s.level && p in s.ticks ==> Within(s, p);
    }
  }

  /** What mlfqlogic does to the level and the ticks of process `p`. */
  lemma LogicMoves(s: State, p: int)
    requires Groups(s) && s.phase.Over? && s.cur in s.pid && p in s.ring
    ensures p in s.level && p in s.ticks && 0 <= s.level[p] < QSIZE
    ensures var r := AfterLogic(s);
      && p in r.level && p in r.ticks && r.clock == s.clock && r.ring == s.ring && r.stride == s.stride
      && (if p == s.pid[s.cur] && p !in s.stride && s.level[p] < QSIZE - 1 && s.ticks[p] >= Ta(s.level[p])
          then r.level[p] == s.level[p] + 1 && r.ticks[p] == 0
          else r.level[p] == s.level[p] && r.ticks[p] == s.ticks[p])
  {
    assert ProcOk(s, p);
    var c := s.cur;
    if IsMlfq(s, c) && Level(s, c) < QSIZE - 1 && s.ticks[s.pid[c]] >= Ta(Level(s, c)) { KeepDemoted(s, c); }
  }

  lemma LogicAllotted(s: State)
    requires Groups(s) && Allotted(s) && s.phase.Over? && s.cur in s.pid
    ensures Groups(AfterLogic(s)) && Allotted(AfterLogic(s).(phase := Idle, cur := NONE))
  {
    LogicGroups(s, s.cur);
    var i := AfterLogic(s).(phase := Idle, cur := NONE);
    assert Ta(0) == 20 && Ta(1) == 40;
    forall q | q in i.ring && q in i.level && q in i.ticks ensures Within(i, q) {
      LogicMoves(s, q);
      assert Within(s, q);
    }
  }

  lemma BoostAllotted(s: State)
    requires Groups(s) && Allotted(s) && s.phase.Idle?
    ensures Allotted(Boosted(s))
  {
    var r := Boosted(s);
    assert Ta(0) == 20;
    forall q | q in r.ring && q in r.level && q in r.ticks ensures Within(r, q) {
      assert Within(s, q);
    }
  }

  lemma BoostedIdle(s: State)
    requires Groups(s) && Groups(s.(phase := Idle, cur := NONE))
    ensures Boosted(s).(phase := Idle, cur := NONE) == Boosted(s.(phase := Idle, cur := NONE))
  {
  }

  lemma EndAllotted(s: State)
    requires Groups(s) && Allotted(s) && s.phase.Over? && s.cur in s.pid
    ensures Allotted(DoEndSlice(s))
  {
    LogicAllotted(s);
    var r := AfterLogic(s);
    var i := r.(phase := Idle, cur := NONE);
    SameGroups(r, i);
    BoostedIdle(r);
    if r.clock >= BOOST_INTERVAL { BoostAllotted(i); }
  }

  predicate IsCpuStep(ev: Event) { ev.Select? || ev.SelectStride? || ev.Sleep? || ev.ThreadExit? || ev.Exit? }

  lemma LeaveSame(s: State, x: Run)
    requires Groups(s) && s.cur in s.pid
    ensures var r := DoLeave(s, x); r.ring == s.ring && r.level == s.level && r.ticks == s.ticks && r.stride == s.stride
  {
    SameGroups(s, Left(s, x));
  }

  lemma ExitSame(s: State)
    requires Groups(s) && s.cur in s.pid
    ensures var r := DoExit(s); r.ring == s.ring && r.level == s.level && r.ticks == s.ticks && r.stride == s.stride
  {
    SameGroups(s, Exited(s));
  }

  lemma CpuSame(s: State, ev: Event)
    requires Groups(s) && Enabled(s, ev) && IsCpuStep(ev)
    ensures var r := Do(s, ev); r.ring == s.ring && r.level == s.level && r.ticks == s.ticks && r.stride == s.stride
  {
    match ev
    case Sleep => LeaveSame(s, Sleeping);
    case ThreadExit => LeaveSame(s, Zombie);
    case Exit => ExitSame(s);
    case Select =>
    case SelectStride(_) =>
  }

  lemma SameUseCpu(s: State, ev: Event)
    requires Inv(s) && Enabled(s, ev) && IsCpuStep(ev)
    ensures SameUses(s, Do(s, ev))
  {
    CpuSame(s, ev);
  }

  lemma SameUseThreads(s: State, ev: Event)
    requires Inv(s) && Enabled(s, ev) && !IsCpuStep(ev) && !ev.EndSlice? && !ev.Tick?
    ensures SameUses(s, Do(s, ev))
  {
  }

  /** Steps within a slice and thread births and deaths leave levels and ticks alone, but for yield. */
  lemma SameUse(s: State, ev: Event)
    requires Inv(s) && Enabled(s, ev) && !ev.EndSlice? && !ev.Tick?
    ensures SameUses(s, Do(s, ev))
  {
    if IsCpuStep(ev) { SameUseCpu(s, ev); } else { SameUseThreads(s, ev); }
  }

  lemma TickAllotted(s: State)
    requires Inv(s) && Enabled(s, Tick) && Allotted(s)
    ensures Allotted(DoTick(s))
  {
    var p, r := s.pid[s.cur], Ticked(s);
    assert Within(s, p);
    SameGroups(s, r);
    forall q | q in r.ring && q in r.level && q in r.ticks && q != p ensures Within(r, q) { assert Within(s, q); }
    SchedAllotted(r);
  }

  lemma KeepAllotted(s: State, ev: Event)
    requires Inv(s) && Enabled(s, ev) && Allotted(s)
    ensures Allotted(Do(s, ev))
  {
    KeepInv(s, ev);
    if ev.EndSlice? {
      EndAllotted(s);
    } else if ev.Tick? {
      TickAllotted(s);
    } else {
      SameUse(s, ev);
      SameAllotted(s, Do(s, ev));
    }
  }

  lemma SameLevel(s: State, ev: Event, p: int)
    requires Groups(s) && Enabled(s, ev) && !ev.EndSlice? && p in s.ring
    ensures p in Do(s, ev).level ==> Do(s, ev).level[p] == s.level[p]
  {
  }

  lemma BoostMoves(s: State, p: int)
    requires Groups(s) && p in s.ring
    ensures var r := Boosted(s);
      && p in r.level && p in r.ticks && p in s.level && p in s.ticks
      && (r.level[p] == 0 || (r.level[p] == s.level[p] && r.ticks[p] == s.ticks[p]))
  {
    assert ProcOk(s, p);
  }

  lemma EndLevel(s: State, p: int)
    requires Groups(s) && Allotted(s) && s.phase.Over? && s.cur in s.pid && p in s.ring && p !in s.stride
    ensures p in s.level && p in s.ticks
    ensures LevelMoved(s, DoEndSlice(s), p)
  {
    LogicMoves(s, p);
    assert Within(s, p);
    LogicGroups(s, s.cur);
    BoostMoves(AfterLogic(s), p);
  }

  /** The level of `p` is as before, or one more after exactly the allotment, or 0 by a boost. */
  ghost predicate LevelMoved(s: State, r: State, p: int)
    requires p in s.level && p in s.ticks
  {
    && p in r.level && p in r.ticks
    && (r.level[p] != s.level[p] ==>
        || (r.level[p] == s.level[p] + 1 && s.cur in s.pid && s.pid[s.cur] == p
            && s.ticks[p] == Ta(s.level[p]) && r.ticks[p] == 0)
        || (r.level[p] == 0 && s.clock >= BOOST_INTERVAL))
  }

  /** A level changes only at the end of a slice: by one when the allotment is used up to the
      tick, or back to 0 by a boost. */
  lemma LevelRule(s: State, ev: Event, p: int)
    requires Inv(s) && Enabled(s, ev) && Allotted(s)
    requires p in s.ring && p in Do(s, ev).level && p !in s.stride
    ensures p in s.level && p in s.ticks
    ensures Do(s, ev).level[p] != s.level[p] ==> ev.EndSlice? && LevelMoved(s, Do(s, ev), p)
  {
    assert ProcOk(s, p);
    if ev.EndSlice? {
      EndLevel(s, p);
    } else {
      SameLevel(s, ev, p);
    }
  }

  ghost predicate BelowAllotment(s: State) {
    forall p :: p in s.ring && p in s.level && p in s.ticks && p !in s.stride && s.level[p] < QSIZE - 1
                ==> 0 <= s.ticks[p] < Ta(s.level[p])
  }

  /** Over every run from a consistent state: no panic next, and every MLFQ process within its
      allotment between slices. */
  lemma {:induction false} SafeFrom(s: State, evs: seq<Event>, ev: Event)
    requires Inv(s) && Allotted(s) && CanRun(s, evs) && Enabled(Exec(s, evs), ev)
    ensures var r := Exec(s, evs);
      && !Panics(r, ev) && Allotted(r)
      && (r.phase.Idle? ==> BelowAllotment(r))
    decreases |evs|
  {
    if evs == [] {
      NoPanic(s, ev);
      if s.phase.Idle? {
        forall p | p in s.ring && p in s.level && p in s.ticks && p !in s.stride && s.level[p] < QSIZE - 1
          ensures 0 <= s.ticks[p] < Ta(s.level[p])
        {
          assert Within(s, p);
        }
      }
    } else {
      KeepInv(s, evs[0]);
      KeepAllotted(s, evs[0]);
      SafeFrom(Do(s, evs[0]), evs[1..], ev);
    }
  }

  /** The same over every run from boot. */
  lemma RunsAreSafe(p: int, main: int, evs: seq<Event>, ev: Event)
    requires main >= 0 && Inv(Init(p, main)) && CanRun(Init(p, main), evs) && Enabled(Exec(Init(p, main), evs), ev)
    ensures var r := Exec(Init(p, main), evs);
      && !Panics(r, ev) && Allotted(r)
      && (r.phase.Idle? ==> BelowAllotment(r))
  {
    InitInv(p, main);
    SafeFrom(Init(p, main), evs, ev);
  }

  // ---------- a run from boot ----------

  /** Thread `t` is one of process `p`, in the first queue, while `main` is pinned there and runs. */
  ghost predicate InFirst(s: State, t: int, p: int, main: int) {
    && Inv(s) && s.phase.Busy? && s.cur == main && s.pin[0] == main && s.queue[0] != []
    && t in s.pid && s.pid[t] == p && Queued(s, t, 0) && t in s.queue[0]
  }

  lemma SelectFirst(p: int, main: int)
    requires main >= 0 && Inv(Init(p, main))
    ensures InFirst(Do(Init(p, main), Select), main, p, main)
    ensures var r := Do(Init(p, main), Select); r.pid == map[main := p] && r.ring == map[p := [main]]
  {
    var s := Init(p, main);
    KeepInv(s, Select);
    assert s.queue[0][0] == main && Top(s) == 0;
    assert Queued(Do(s, Select), main, 0);
  }

  lemma CreateSecond(s: State, p: int, main: int, u: int)
    requires InFirst(s, main, p, main) && u >= 0 && u !in s.pid
    ensures InFirst(Do(s, Create(u)), main, p, main) && InFirst(Do(s, Create(u)), u, p, main)
    ensures var r := Do(s, Create(u)); r.pid.Keys == s.pid.Keys + {u} && r.ring.Keys == s.ring.Keys
  {
    KeepInv(s, Create(u));
    var r := Do(s, Create(u));
    assert Queued(r, main, 0) && Queued(r, u, 0);
  }

  lemma ForkThird(s: State, t: int, p: int, main: int, c: int, v: int)
    requires InFirst(s, t, p, main) && CanFork(s, c, [v], v, {}) && main in s.pid
    ensures var r := Do(s, Fork(c, [v], v, {})); InFirst(r, t, p, main) && InFirst(r, v, c, main)
  {
    var ev := Fork(c, [v], v, {});
    KeepInv(s, ev);
    var r := Do(s, ev);
    assert v in [v];
    assert Queued(r, t, 0) && Queued(r, v, 0);
  }

  lemma ThreeEvents(s: State, a: Event, b: Event, c: Event)
    requires Inv(s) && Enabled(s, a) && Inv(Do(s, a)) && Enabled(Do(s, a), b)
    requires Inv(Do(Do(s, a), b)) && Enabled(Do(Do(s, a), b), c)
    ensures CanRun(s, [a, b, c]) && Exec(s, [a, b, c]) == Do(Do(Do(s, a), b), c)
  {
    assert [a, b, c][1..] == [b, c] && [b, c][1..] == [c] && [c][1..] == [];
    var s2 := Do(Do(s, a), b);
    KeepInv(s2, c);
    assert CanRun(Do(s2, c), []) && Exec(Do(s2, c), []) == Do(s2, c);
    assert CanRun(s2, [c]) && Exec(s2, [c]) == Do(s2, c);
    assert CanRun(Do(s, a), [b, c]) && Exec(Do(s, a), [b, c]) == Do(s2, c);
  }

  /** The first process runs and creates thread `u`. */
  lemma TwoThreads(p: int, main: int, u: int)
    requires main >= 0 && u >= 0 && main != u
    ensures Inv(Init(p, main)) && Enabled(Init(p, main), Select)
    ensures var s1 := Do(Init(p, main), Select);
      && Inv(s1) && Enabled(s1, Create(u))
      && var s2 := Do(s1, Create(u));
         && InFirst(s2, main, p, main) && InFirst(s2, u, p, main) && s2.pid.Keys == {main, u} && s2.ring.Keys == {p}
  {
    InitInv(p, main);
    SelectFirst(p, main);
    CreateSecond(Do(Init(p, main), Select), p, main, u);
  }

  /** It then forks process `c` with thread `v`: all three threads are in the first queue. */
  lemma FirstRun(p: int, main: int, u: int, c: int, v: int) returns (evs: seq<Event>)
    requires main >= 0 && u >= 0 && v >= 0 && main != u && main != v && u != v && p != c
    ensures Inv(Init(p, main)) && CanRun(Init(p, main), evs)
    ensures var r := Exec(Init(p, main), evs);
      InFirst(r, main, p, main) && InFirst(r, u, p, main) && InFirst(r, v, c, main)
  {
    TwoThreads(p, main, u);
    var s := Do(Do(Init(p, main), Select), Create(u));
    assert CanFork(s, c, [v], v, {});
    ForkThird(s, main, p, main, c, v);
    ForkThird(s, u, p, main, c, v);
    ThreeEvents(Init(p, main), Select, Create(u), Fork(c, [v], v, {}));
    evs := [Select, Create(u), Fork(c, [v], v, {})];
  }

  /** Over every run from boot: a ready or running MLFQ thread is in the queue of its process's
      level, once, and in no other; whatever stands between two threads of a process there is of
      that process; and the pin of the level is the list head or a thread of the queue. */
  lemma QueuesAreRight(p: int, main: int, evs: seq<Event>, t: int)
    requires Inv(Init(p, main)) && CanRun(Init(p, main), evs)
    requires var r := Exec(Init(p, main), evs); t in r.pid && IsMlfq(r, t) && Active(r, t)
    ensures var r := Exec(Init(p, main), evs);
      var l, q := Level(r, t), r.queue[Level(r, t)];
      && (forall m :: 0 <= m < QSIZE ==> (t in r.queue[m] <==> m == l))
      && (forall i, j :: 0 <= i < j < |q| ==> q[i] != q[j])
      && (forall i, j, k :: 0 <= i < j < k < |q| && r.pid[q[i]] == r.pid[q[k]] ==> r.pid[q[j]] == r.pid[q[i]])
      && (r.pin[l] == NONE || r.pin[l] in q)
  {
    var r := Exec(Init(p, main), evs);
    assert Queued(r, t, Level(r, t));
    assert forall m :: 0 <= m < QSIZE ==> LevelOk(r, m);
  }
}
