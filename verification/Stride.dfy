/** Stride scheduling of proc.c on one CPU, a scheduling slice at a time: select the
    entity with the least pass, let it run (it may call set_cpu_share or exit),
    charge it. The entities are the MLFQ as a whole and each stride process. */
module Stride {
  const TOTAL := 100
  const RESERVE := 20
  const LARGENUM := 1000
  const BARRIER := 0x6fffffff
  const MLFQ := -1

  /** STRD: the stride of an entity with `t` tickets. */
  function Strd(t: int): int
    requires t > 0
  {
    LARGENUM / t
  }

  /** Who has the CPU. A stride process that exits keeps its pass until the slice ends. */
  datatype Cur =
    | Nobody                    // between slices
    | OfMlfq                    // an MLFQ process, or nothing runnable
    | OfStride(p: int)
    | Exited(pass: int)

  /** Passes, tickets and charges so far, by entity; the key MLFQ stands for the MLFQ. */
  datatype Sched = Sched(pass: map<int, int>, tickets: map<int, int>, charges: map<int, int>, cur: Cur)

  datatype Event =
    | SelectMlfq
    | SelectStride(p: int)
    | Share(p: int, share: int)   // set_cpu_share by the running process p
    | Exit
    | Charge                      // stridelogic

  /** pinit: the MLFQ holds all the tickets. */
  function Init(): Sched { Sched(map[MLFQ := 0], map[MLFQ := TOTAL], map[MLFQ := 0], Nobody) }

  predicate Wf(s: Sched) {
    && MLFQ in s.pass && s.pass.Keys == s.tickets.Keys == s.charges.Keys
    && (forall e :: e in s.tickets ==> s.tickets[e] > 0)
    && (s.cur.OfStride? ==> s.cur.p in s.pass && s.cur.p != MLFQ)
  }

  /** No entity in the heap has a lesser pass: all stride processes if the MLFQ runs. */
  predicate LeastInHeap(s: Sched, x: int)
    requires s.pass.Keys == s.tickets.Keys
  {
    forall e :: e in s.pass && e != MLFQ ==> x <= s.pass[e]
  }

  predicate Enabled(s: Sched, ev: Event) {
    Wf(s) &&
    match ev
    // The heap goes first only with a pass strictly below the MLFQ's.
    case SelectMlfq => s.cur.Nobody? && LeastInHeap(s, s.pass[MLFQ])
    case SelectStride(p) =>
      s.cur.Nobody? && p in s.pass && p != MLFQ && s.pass[p] < s.pass[MLFQ] && LeastInHeap(s, s.pass[p])
    case Share(p, share) =>
      (s.cur.OfMlfq? && p != MLFQ && p !in s.pass) || s.cur == OfStride(p)
    case Exit => s.cur.OfStride?
    case Charge => !s.cur.Nobody?
  }

  /** The pass with which a process becomes a stride process: the least there is. */
  ghost function EntryPass(s: Sched): int
    requires Wf(s)
  {
    Least(s.pass)
  }

  ghost predicate IsLeast(m: map<int, int>, x: int) {
    (exists e :: e in m && m[e] == x) && forall e :: e in m ==> x <= m[e]
  }

  lemma {:induction false} LeastExists(m: map<int, int>, e: int)
    requires e in m
    ensures exists x :: IsLeast(m, x)
    decreases |m|
  {
    if f :| f in m && m[f] < m[e] {
      var m1 := m - {e};
      assert m1.Keys == m.Keys - {e};
      LeastExists(m1, f);
      var x :| IsLeast(m1, x);
      var g :| g in m1 && m1[g] == x;
      assert g in m && m[g] == x;
      assert x <= m1[f] < m[e];
      assert forall h :: h in m ==> h == e || h in m1;
      assert IsLeast(m, x);
    } else {
      assert IsLeast(m, m[e]);
    }
  }

  ghost function Least(m: map<int, int>): (x: int)
    requires MLFQ in m
    ensures IsLeast(m, x)
  {
    LeastExists(m, MLFQ);
    var x :| IsLeast(m, x);
    x
  }

  /** The tickets that set_cpu_share finds available to process `p`. */
  function Remain(s: Sched, p: int): int
    requires Wf(s)
  {
    s.tickets[MLFQ] + if p in s.tickets && p != MLFQ then s.tickets[p] else 0
  }

  /** set_cpu_share refuses, and changes nothing. */
  predicate Refused(s: Sched, p: int, share: int)
    requires Wf(s)
  {
    share < 1 || share > TOTAL - RESERVE || Remain(s, p) - share < RESERVE
  }

  ghost function DoShare(s: Sched, p: int, share: int): Sched
    requires Wf(s) && p != MLFQ
  {
    if Refused(s, p, share) then s
    else
      var t := s.tickets[MLFQ := Remain(s, p) - share][p := share];
      if p in s.pass then s.(tickets := t)
      else s.(tickets := t, pass := s.pass[p := EntryPass(s)], charges := s.charges[p := 0], cur := OfStride(p))
  }

  function DoExit(s: Sched): Sched
    requires Wf(s) && s.cur.OfStride?
  {
    var p := s.cur.p;
    Sched(s.pass - {p}, (s.tickets - {p})[MLFQ := s.tickets[MLFQ] + s.tickets[p]], s.charges - {p}, Exited(s.pass[p]))
  }

  /** The pass of the entity to be charged. */
  function ChargedPass(s: Sched): int
    requires Wf(s) && !s.cur.Nobody?
  {
    match s.cur
    case OfMlfq => s.pass[MLFQ]
    case OfStride(p) => s.pass[p]
    case Exited(x) => x
  }

  /** stridelogic's overflow handling: the heap, the run list and the MLFQ are moved back; a
      stride process being charged is in neither list. */
  function Renormalised(s: Sched): map<int, int>
    requires Wf(s) && !s.cur.Nobody?
  {
    if ChargedPass(s) > BARRIER
    then map e | e in s.pass :: if s.cur == OfStride(e) then s.pass[e] else s.pass[e] - ChargedPass(s)
    else s.pass
  }

  function DoCharge(s: Sched): Sched
    requires Wf(s) && !s.cur.Nobody?
  {
    var m := Renormalised(s);
    if s.cur.Exited? then s.(pass := m, cur := Nobody)
    else
      var e := if s.cur.OfMlfq? then MLFQ else s.cur.p;
      s.(pass := m[e := m[e] + Strd(s.tickets[e])], charges := s.charges[e := s.charges[e] + 1], cur := Nobody)
  }

  ghost function Do(s: Sched, ev: Event): Sched
    requires Enabled(s, ev)
  {
    match ev
    case SelectMlfq => s.(cur := OfMlfq)
    case SelectStride(p) => s.(cur := OfStride(p))
    case Share(p, share) => DoShare(s, p, share)
    case Exit => DoExit(s)
    case Charge => DoCharge(s)
  }

  // ---------- tickets ----------

  lemma SomeKey(m: map<int, int>)
    requires m != map[]
    ensures exists k :: k in m
  {
    var none: map<int, int> := map[];
    assert (forall k :: k in m <==> k in none) ==> m == none;
  }

  ghost function Sum(m: map<int, int>): int
    decreases |m|
  {
    if m == map[] then 0
    else
      SomeKey(m);
      var k :| k in m;
      assert (m - {k}).Keys == m.Keys - {k};
      m[k] + Sum(m - {k})
  }

  lemma {:induction false} SumAt(m: map<int, int>, k: int)
    requires k in m
    ensures Sum(m) == m[k] + Sum(m - {k})
    decreases |m|
  {
    var j :| j in m && Sum(m) == m[j] + Sum(m - {j});
    if j != k {
      assert (m - {j}).Keys == m.Keys - {j} && (m - {k}).Keys == m.Keys - {k};
      SumAt(m - {j}, k);
      SumAt(m - {k}, j);
      assert m - {j} - {k} == m - {k} - {j};
    }
  }

  lemma SumUpdate(m: map<int, int>, k: int, v: int)
    ensures Sum(m[k := v]) == Sum(m - {k}) + v
  {
    SumAt(m[k := v], k);
    assert m[k := v] - {k} == m - {k};
  }

  lemma {:induction false} SumBound(m: map<int, int>)
    requires forall e :: e in m ==> m[e] > 0
    ensures |m| <= Sum(m)
    decreases |m|
  {
    if m != map[] {
      SomeKey(m);
      var k :| k in m;
      assert (m - {k}).Keys == m.Keys - {k};
      SumAt(m, k);
      SumBound(m - {k});
    }
  }

  /** All tickets are accounted for and the MLFQ keeps its reserve. */
  ghost predicate TicketsOk(s: Sched) {
    Wf(s) && Sum(s.tickets) == TOTAL && s.tickets[MLFQ] >= RESERVE
  }

  lemma ShareTickets(s: Sched, p: int, share: int)
    requires TicketsOk(s) && Enabled(s, Share(p, share)) && !Refused(s, p, share)
    ensures TicketsOk(DoShare(s, p, share))
  {
    var r := Remain(s, p) - share;
    var t := s.tickets[MLFQ := r];
    SumUpdate(s.tickets, MLFQ, r);
    SumAt(s.tickets, MLFQ);
    SumUpdate(t, p, share);
    if p in s.tickets { SumAt(t, p); } else { assert t - {p} == t; }
  }

  lemma ExitTickets(s: Sched)
    requires TicketsOk(s) && Enabled(s, Exit)
    ensures TicketsOk(DoExit(s))
  {
    var p := s.cur.p;
    SumAt(s.tickets, p);
    SumAt(s.tickets - {p}, MLFQ);
    SumUpdate(s.tickets - {p}, MLFQ, s.tickets[MLFQ] + s.tickets[p]);
  }

  lemma KeepTickets(s: Sched, ev: Event)
    requires TicketsOk(s) && Enabled(s, ev)
    ensures TicketsOk(Do(s, ev))
  {
    match ev
    case Share(p, share) => if !Refused(s, p, share) { ShareTickets(s, p, share); }
    case Exit => ExitTickets(s);
    case SelectMlfq =>
    case SelectStride(_) =>
    case Charge =>
  }

  /** At most 80 stride processes, so the heap of NPROC entries never overflows. */
  lemma FewStrideProcesses(s: Sched)
    requires TicketsOk(s)
    ensures |s.tickets| - 1 <= TOTAL - RESERVE
  {
    SumAt(s.tickets, MLFQ);
    assert (s.tickets - {MLFQ}).Keys == s.tickets.Keys - {MLFQ};
    SumBound(s.tickets - {MLFQ});
  }

  // ---------- fairness ----------

  /** All passes are within LARGENUM of each other, and whoever runs has the least. */
  ghost predicate Close(s: Sched) {
    && (forall e, f :: e in s.pass && f in s.pass ==> s.pass[e] - s.pass[f] <= LARGENUM)
    && (s.cur.OfMlfq? && MLFQ in s.pass ==> forall f :: f in s.pass ==> s.pass[MLFQ] <= s.pass[f])
    && (s.cur.OfStride? && s.cur.p in s.pass ==> forall f :: f in s.pass ==> s.pass[s.cur.p] <= s.pass[f])
  }

  /** No charge starts from a pass above the barrier. */
  predicate BelowBarrier(s: Sched, ev: Event)
    requires Enabled(s, ev)
  {
    ev.Charge? ==> ChargedPass(s) <= BARRIER
  }

  /** The entity that ran had the least pass; its stride is at most LARGENUM. */
  lemma ChargeClose(s: Sched)
    requires Wf(s) && Close(s) && !s.cur.Nobody? && ChargedPass(s) <= BARRIER
    ensures Close(DoCharge(s))
  {
    if !s.cur.Exited? {
      var e := if s.cur.OfMlfq? then MLFQ else s.cur.p;
      var t := DoCharge(s);
      assert 0 <= Strd(s.tickets[e]) <= LARGENUM;
      forall f, g | f in t.pass && g in t.pass ensures t.pass[f] - t.pass[g] <= LARGENUM {
        assert s.pass[f] - s.pass[g] <= LARGENUM && s.pass[e] <= s.pass[g];
      }
    }
  }

  lemma ShareClose(s: Sched, p: int, share: int)
    requires Wf(s) && Close(s) && p != MLFQ && ((s.cur.OfMlfq? && p !in s.pass) || s.cur == OfStride(p))
    ensures Close(DoShare(s, p, share))
  {
    var t := DoShare(s, p, share);
    if !Refused(s, p, share) && p !in s.pass {
      var x := EntryPass(s);
      assert IsLeast(s.pass, x);
      var e :| e in s.pass && s.pass[e] == x;
    }
  }

  lemma KeepClose(s: Sched, ev: Event)
    requires Enabled(s, ev) && Close(s) && BelowBarrier(s, ev)
    ensures Close(Do(s, ev))
  {
    match ev
    case Charge => ChargeClose(s);
    case Share(p, share) => ShareClose(s, p, share);
    case SelectMlfq =>
    case SelectStride(_) =>
    case Exit =>
  }

  /** Passes stay between 0 and a bound well below 2^31, and whoever runs has the least pass,
      whether or not the barrier is crossed. */
  ghost predicate InRange(s: Sched) {
    && MLFQ in s.pass && s.pass[MLFQ] <= BARRIER + LARGENUM
    && (forall e :: e in s.pass ==> 0 <= s.pass[e] <= BARRIER + 2 * LARGENUM)
    && (s.cur.OfMlfq? ==> forall f :: f in s.pass ==> s.pass[MLFQ] <= s.pass[f])
    && (s.cur.OfStride? && s.cur.p in s.pass ==> forall f :: f in s.pass ==> s.pass[s.cur.p] <= s.pass[f])
    && (s.cur.Exited? ==> 0 <= s.cur.pass && forall f :: f in s.pass ==> s.cur.pass <= s.pass[f])
  }

  lemma ChargeInRange(s: Sched)
    requires Wf(s) && InRange(s) && !s.cur.Nobody?
    ensures InRange(DoCharge(s))
  {
    var m, x := Renormalised(s), ChargedPass(s);
    forall e | e in m ensures 0 <= m[e] <= s.pass[e] && (s.cur == OfStride(e) ==> m[e] == x) {
      assert x <= s.pass[e];
    }
    assert m[MLFQ] <= BARRIER + LARGENUM && (s.cur.OfMlfq? ==> m[MLFQ] <= BARRIER);
    forall t: int | t > 0 ensures 0 <= Strd(t) <= LARGENUM { }
  }

  lemma KeepInRange(s: Sched, ev: Event)
    requires Enabled(s, ev) && InRange(s)
    ensures InRange(Do(s, ev))
  {
    if ev.Charge? {
      ChargeInRange(s);
    }
  }

  // ---------- runs ----------

  /** `evs` is a run from `s` that stays below the barrier and in which entity `a` has `ta`
      tickets throughout. */
  ghost predicate Steady(s: Sched, evs: seq<Event>, a: int, ta: int)
    decreases |evs|
  {
    && a in s.tickets && s.tickets[a] == ta
    && (evs != [] ==> Enabled(s, evs[0]) && BelowBarrier(s, evs[0]) && Steady(Do(s, evs[0]), evs[1..], a, ta))
  }

  ghost predicate CanRun(s: Sched, evs: seq<Event>)
    decreases |evs|
  {
    evs == [] || (Enabled(s, evs[0]) && CanRun(Do(s, evs[0]), evs[1..]))
  }

  ghost function Exec(s: Sched, evs: seq<Event>): Sched
    requires CanRun(s, evs)
    decreases |evs|
  {
    if evs == [] then s else Exec(Do(s, evs[0]), evs[1..])
  }

  /** Tickets are conserved over every run, overflow handling included. */
  lemma {:induction false} TicketsConserved(s: Sched, evs: seq<Event>)
    requires TicketsOk(s) && CanRun(s, evs)
    ensures TicketsOk(Exec(s, evs))
    decreases |evs|
  {
    if evs != [] {
      KeepTickets(s, evs[0]);
      TicketsConserved(Do(s, evs[0]), evs[1..]);
    }
  }

  /** No pass ever overflows a 32-bit int. */
  lemma {:induction false} NoOverflow(s: Sched, evs: seq<Event>)
    requires InRange(s) && CanRun(s, evs)
    ensures InRange(Exec(s, evs))
    decreases |evs|
  {
    if evs != [] {
      KeepInRange(s, evs[0]);
      NoOverflow(Do(s, evs[0]), evs[1..]);
    }
  }

  lemma InitOk()
    ensures TicketsOk(Init()) && Close(Init()) && InRange(Init())
  {
    SumAt(Init().tickets, MLFQ);
    assert Init().tickets - {MLFQ} == map[];
  }

  /** One event: entity `a` moves by its stride if it is charged, else not at all. */
  lemma StepPass(s: Sched, ev: Event, a: int)
    requires Enabled(s, ev) && BelowBarrier(s, ev) && a in s.pass && a in Do(s, ev).tickets
    requires Do(s, ev).tickets[a] == s.tickets[a]
    ensures Wf(Do(s, ev))
    ensures var s' := Do(s, ev);
            || (s'.pass[a] == s.pass[a] && s'.charges[a] == s.charges[a])
            || (s'.pass[a] == s.pass[a] + Strd(s.tickets[a]) && s'.charges[a] == s.charges[a] + 1)
  {
  }

  lemma Distribute(x: int, k: int)
    ensures (x + 1) * k == x * k + k
  {
  }

  /** An entity whose tickets do not change moves by its stride, once per charge. */
  lemma {:induction false} PassPerCharge(s: Sched, evs: seq<Event>, a: int, ta: int)
    requires ta > 0 && Steady(s, evs, a, ta) && Close(s) && Wf(s)
    ensures CanRun(s, evs) && Close(Exec(s, evs))
    ensures var s' := Exec(s, evs);
            && a in s'.pass && a in s'.charges && a in s.pass && a in s.charges
            && s'.pass[a] - s.pass[a] == (s'.charges[a] - s.charges[a]) * Strd(ta)
    decreases |evs|
  {
    if evs != [] {
      var s1 := Do(s, evs[0]);
      KeepClose(s, evs[0]);
      assert Steady(s1, evs[1..], a, ta);
      StepPass(s, evs[0], a);
      PassPerCharge(s1, evs[1..], a, ta);
      Distribute(Exec(s1, evs[1..]).charges[a] - s1.charges[a], Strd(ta));
    }
  }

  /** From `s` to `s'`, times charged multiplied by stride differ by at most twice LARGENUM. */
  ghost predicate Fair(s: Sched, s': Sched, a: int, ta: int, b: int, tb: int)
    requires ta > 0 && tb > 0
  {
    && a in s'.charges && b in s'.charges && a in s.charges && b in s.charges
    && var wa := (s'.charges[a] - s.charges[a]) * Strd(ta);
       var wb := (s'.charges[b] - s.charges[b]) * Strd(tb);
       -2 * LARGENUM <= wa - wb <= 2 * LARGENUM
  }

  /** Fairness over any interval, for two entities with fixed tickets. */
  lemma Fairness(s: Sched, evs: seq<Event>, a: int, ta: int, b: int, tb: int)
    requires Wf(s) && Close(s) && ta > 0 && tb > 0
    requires Steady(s, evs, a, ta) && Steady(s, evs, b, tb)
    ensures CanRun(s, evs)
    ensures Fair(s, Exec(s, evs), a, ta, b, tb)
  {
    PassPerCharge(s, evs, a, ta);
    PassPerCharge(s, evs, b, tb);
    var s' := Exec(s, evs);
    assert s.pass[a] - s.pass[b] <= LARGENUM && s.pass[b] - s.pass[a] <= LARGENUM;
    assert s'.pass[a] - s'.pass[b] <= LARGENUM && s'.pass[b] - s'.pass[a] <= LARGENUM;
  }

  /** No charge of the run starts from a pass above the barrier. */
  ghost predicate StaysBelow(s: Sched, evs: seq<Event>)
    requires CanRun(s, evs)
    decreases |evs|
  {
    evs != [] ==> BelowBarrier(s, evs[0]) && StaysBelow(Do(s, evs[0]), evs[1..])
  }

  lemma {:induction false} CloseOverRun(s: Sched, evs: seq<Event>)
    requires Wf(s) && Close(s) && CanRun(s, evs) && StaysBelow(s, evs)
    ensures Wf(Exec(s, evs)) && Close(Exec(s, evs))
    decreases |evs|
  {
    if evs != [] {
      KeepClose(s, evs[0]);
      KeepWf(s, evs[0]);
      CloseOverRun(Do(s, evs[0]), evs[1..]);
    }
  }

  lemma KeepWf(s: Sched, ev: Event)
    requires Enabled(s, ev)
    ensures Wf(Do(s, ev))
  {
  }

  /** Fairness over any interval of any run from boot that stays below the barrier. */
  lemma FairFromBoot(before: seq<Event>, evs: seq<Event>, a: int, ta: int, b: int, tb: int)
    requires CanRun(Init(), before) && StaysBelow(Init(), before) && ta > 0 && tb > 0
    requires Steady(Exec(Init(), before), evs, a, ta) && Steady(Exec(Init(), before), evs, b, tb)
    ensures CanRun(Exec(Init(), before), evs)
    ensures Fair(Exec(Init(), before), Exec(Exec(Init(), before), evs), a, ta, b, tb)
  {
    InitOk();
    CloseOverRun(Init(), before);
    Fairness(Exec(Init(), before), evs, a, ta, b, tb);
  }

  // ---------- overflow handling ----------

  /** Charging the entity `e` that ran moves it by its stride against everybody else. */
  ghost predicate GapsKept(s: Sched, e: int)
    requires Wf(s) && !s.cur.Nobody? && e in s.pass
  {
    var s' := DoCharge(s);
    forall f :: f in s.pass && f != e ==>
                  f in s'.pass && e in s'.pass
                  && s'.pass[e] - s'.pass[f] == s.pass[e] + Strd(s.tickets[e]) - s.pass[f]
  }

  /** Moving everybody back keeps the gaps when the MLFQ is charged, but when a stride process is
      charged they are kept exactly while its pass has not crossed the barrier. */
  lemma RenormalisedGaps(s: Sched)
    requires Wf(s) && (s.cur.OfMlfq? || s.cur.OfStride?)
    ensures s.cur.OfMlfq? ==> GapsKept(s, MLFQ)
    ensures s.cur.OfStride? ==> (GapsKept(s, s.cur.p) <==> s.pass[s.cur.p] <= BARRIER)
  {
    if s.cur.OfStride? && s.pass[s.cur.p] > BARRIER {
      var s' := DoCharge(s);
      assert MLFQ in s.pass && MLFQ != s.cur.p;
      assert s'.pass[s.cur.p] - s'.pass[MLFQ] != s.pass[s.cur.p] + Strd(s.tickets[s.cur.p]) - s.pass[MLFQ];
    }
  }

  // ---------- a run that crosses the barrier ----------

  lemma {:induction false} RunSnoc(s: Sched, evs: seq<Event>, ev: Event)
    requires CanRun(s, evs) && Enabled(Exec(s, evs), ev)
    ensures CanRun(s, evs + [ev]) && Exec(s, evs + [ev]) == Do(Exec(s, evs), ev)
    decreases |evs|
  {
    if evs == [] {
      assert evs + [ev] == [ev];
    } else {
      assert (evs + [ev])[0] == evs[0] && (evs + [ev])[1..] == evs[1..] + [ev];
      RunSnoc(Do(s, evs[0]), evs[1..], ev);
    }
  }

  /** Process 0 has a share of 60: it has been charged `a` times and the MLFQ `b` times. */
  function Shared60(a: int, b: int): Sched {
    Sched(map[MLFQ := 25 * b, 0 := 16 * a], map[MLFQ := 40, 0 := 60], map[MLFQ := b, 0 := a], Nobody)
  }

  lemma RunTwo(evs: seq<Event>, e: Event, s: Sched, s': Sched)
    requires CanRun(Init(), evs) && Exec(Init(), evs) == s && Enabled(s, e) && Enabled(Do(s, e), Charge)
    requires Do(Do(s, e), Charge) == s'
    ensures CanRun(Init(), evs + [e] + [Charge]) && Exec(Init(), evs + [e] + [Charge]) == s'
  {
    RunSnoc(Init(), evs, e);
    RunSnoc(Init(), evs + [e], Charge);
  }

  /** The process has the lesser pass and is charged. */
  lemma ChargeProcess(a: int, b: int)
    requires 16 * a < 25 * b && 16 * a <= BARRIER
    ensures Enabled(Shared60(a, b), SelectStride(0)) && Enabled(Do(Shared60(a, b), SelectStride(0)), Charge)
    ensures Do(Do(Shared60(a, b), SelectStride(0)), Charge) == Shared60(a + 1, b)
  {
    var s := Do(Do(Shared60(a, b), SelectStride(0)), Charge);
    assert Strd(60) == 16;
    assert s.pass == Shared60(a + 1, b).pass && s.charges == Shared60(a + 1, b).charges;
  }

  /** The MLFQ has the lesser pass, or the same, and is charged. */
  lemma ChargeMlfq(a: int, b: int)
    requires 25 * b <= 16 * a && 25 * b <= BARRIER
    ensures Enabled(Shared60(a, b), SelectMlfq) && Enabled(Do(Shared60(a, b), SelectMlfq), Charge)
    ensures Do(Do(Shared60(a, b), SelectMlfq), Charge) == Shared60(a, b + 1)
  {
    var s := Do(Do(Shared60(a, b), SelectMlfq), Charge);
    assert Strd(40) == 25;
    assert s.pass == Shared60(a, b + 1).pass && s.charges == Shared60(a, b + 1).charges;
  }

  lemma TakeShare() returns (evs: seq<Event>)
    ensures CanRun(Init(), evs) && Exec(Init(), evs) == Shared60(1, 0)
  {
    var s := Init();
    evs := [];
    RunSnoc(s, evs, SelectMlfq);    evs := evs + [SelectMlfq];
    var s1 := Exec(s, evs);
    assert EntryPass(s1) == 0;
    RunSnoc(s, evs, Share(0, 60));  evs := evs + [Share(0, 60)];
    var s2 := Exec(s, evs);
    assert s2.cur == OfStride(0) && s2.tickets == map[MLFQ := 40, 0 := 60] && s2.pass == map[MLFQ := 0, 0 := 0];
    RunSnoc(s, evs, Charge);        evs := evs + [Charge];
    assert Strd(60) == 16;
    assert Exec(s, evs).pass == Shared60(1, 0).pass && Exec(s, evs).charges == Shared60(1, 0).charges;
  }

  /** Whose turn it is once the process has been charged `a` times. */
  lemma Turn(a: int)
    requires 1 < a && 16 * a <= BARRIER + 1
    ensures var b := 16 * (a - 1) / 25 + 1;
      && 16 * (a - 1) < 25 * b
      && 16 * a / 25 + 1 == (if 25 * b <= 16 * a then b + 1 else b)
      && (25 * b <= 16 * a ==> 25 * b <= BARRIER)
  {
  }

  /** The process is charged up to the barrier, the MLFQ as often as is its turn. */
  lemma ChargeFirst() returns (evs: seq<Event>)
    ensures CanRun(Init(), evs) && Exec(Init(), evs) == Shared60(1, 1)
  {
    evs := TakeShare();
    ChargeMlfq(1, 0);
    RunTwo(evs, SelectMlfq, Shared60(1, 0), Shared60(1, 1));
    evs := evs + [SelectMlfq] + [Charge];
  }

  lemma ChargeNext(evs0: seq<Event>, a: int, b: int) returns (evs: seq<Event>)
    requires CanRun(Init(), evs0) && Exec(Init(), evs0) == Shared60(a - 1, b)
    requires 16 * (a - 1) < 25 * b && 16 * a <= BARRIER + 1 && (25 * b <= 16 * a ==> 25 * b <= BARRIER)
    ensures CanRun(Init(), evs) && Exec(Init(), evs) == Shared60(a, if 25 * b <= 16 * a then b + 1 else b)
  {
    ChargeProcess(a - 1, b);
    RunTwo(evs0, SelectStride(0), Shared60(a - 1, b), Shared60(a, b));
    evs := evs0 + [SelectStride(0)] + [Charge];
    if 25 * b <= 16 * a {
      ChargeMlfq(a, b);
      RunTwo(evs, SelectMlfq, Shared60(a, b), Shared60(a, b + 1));
      evs := evs + [SelectMlfq] + [Charge];
    }
  }

  lemma {:induction false} ChargeUpTo(a: int) returns (evs: seq<Event>)
    requires 1 <= a && 16 * a <= BARRIER + 1
    ensures CanRun(Init(), evs) && Exec(Init(), evs) == Shared60(a, 16 * a / 25 + 1)
    decreases a
  {
    if a == 1 {
      evs := ChargeFirst();
    } else {
      Turn(a);
      evs := ChargeUpTo(a - 1);
      evs := ChargeNext(evs, a, 16 * (a - 1) / 25 + 1);
    }
  }

  /** A run from boot ends with a stride process about to be charged above the barrier; its gap
      to the MLFQ is then not kept. */
  lemma GapLost() returns (evs: seq<Event>)
    ensures CanRun(Init(), evs)
    ensures var s := Exec(Init(), evs);
            Enabled(s, Charge) && s.cur == OfStride(0) && s.pass[0] == BARRIER + 1 && !GapsKept(s, 0)
  {
    var a := 117440512;
    evs := ChargeUpTo(a);
    RunSnoc(Init(), evs, SelectStride(0));
    evs := evs + [SelectStride(0)];
    RenormalisedGaps(Exec(Init(), evs));
  }
}
