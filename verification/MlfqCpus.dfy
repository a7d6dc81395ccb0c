/** mlfqselect while other CPUs may run threads of the MLFQ: the whole function, with its branch
    for a candidate that is RUNNING. */
module MlfqCpus {
  import opened Lists
  import opened Mlfq

  /** The thread that mlfqselect looks at in a queue that is not empty. */
  function Candidate(s: State, l: int): int
    requires |s.queue| == |s.pin| == QSIZE && 0 <= l < QSIZE && s.queue[l] != []
  {
    if s.pin[l] == NONE then s.queue[l][0] else s.pin[l]
  }

  predicate Runs(s: State, t: int) { t in s.run && s.run[t].Running? }

  /** The pin is moved away from the running thread `p`. */
  ghost function Moved(s: State, p: int): State
    requires Groups(s) && p in s.pid
  {
    var r := PinNextThread(s, p, false);
    SameGroups(s, r);
    if r.pin[Level(s, p)] == NONE then PinNextProc(r, p, false) else r
  }

  /** mlfqselect from level `l` on: the new pins and the thread. */
  ghost function SelectFrom(s: State, l: int): (State, int)
    requires Groups(s) && 0 <= l <= QSIZE
    decreases QSIZE - l
  {
    if l == QSIZE then (s, NONE)
    else if s.queue[l] == [] then SelectFrom(s, l + 1)
    else
      var p := Candidate(s, l);
      if Runs(s, p) && p in s.pid then
        var r := Moved(s, p);
        SameGroups(s, r);
        if r.pin[l] == NONE then SelectFrom(r, l + 1) else (r.(pin := r.pin[l := p]), p)
      else (s.(pin := s.pin[l := p]), p)
  }

  lemma CandidateIs(s: State, l: int)
    requires Groups(s) && Levels(s) && 0 <= l < QSIZE && s.queue[l] != []
    ensures var p := Candidate(s, l); p in s.queue[l] && Queued(s, p, l) && p in s.pid && Level(s, p) == l
  {
    assert LevelOk(s, l);
  }

  /** The pin moves to a ready thread of the same queue, or to the list head. */
  lemma MovedIs(s: State, l: int)
    requires Groups(s) && Levels(s) && 0 <= l < QSIZE && s.queue[l] != [] && Runs(s, Candidate(s, l))
    ensures Candidate(s, l) in s.pid
    ensures var r := Moved(s, Candidate(s, l));
      && r == s.(pin := s.pin[l := r.pin[l]])
      && (r.pin[l] == NONE || (r.pin[l] in s.queue[l] && r.pin[l] in s.run && s.run[r.pin[l]].Runnable?))
  {
    CandidateIs(s, l);
    var p := Candidate(s, l);
    var r := PinNextThread(s, p, false);
    PinNextThreadIs(s, p, false);
    if Pinned(s, p) {
      PinMoved(s, p, l);
    } else {
      assert r == s && s.pin[l] == NONE;
    }
    assert r.pin == s.pin[l := r.pin[l]];
    if r.pin[l] == NONE { HeadStays(s, r, p, l); }
  }

  /** pin_next_thread pins a ready thread, of the same process or of another, or nothing. */
  lemma PinMoved(s: State, p: int, l: int)
    requires Groups(s) && Levels(s) && p in s.pid && Level(s, p) == l && Pinned(s, p) && Runs(s, p)
    ensures var r := PinNextThread(s, p, false);
      r.pin[l] == NONE || (r.pin[l] in s.run && s.run[r.pin[l]].Runnable?)
  {
    ReadyThreadIs(s, p);
    ReadyOrRunningIs(s, p);
    var n, m := ReadyThread(s, p), ReadyOrRunning(s, p);
    if n == NONE {
      assert Active(s, p) && m in s.pid;
      ReadyProcIs(s, m);
    }
  }

  /** A pin at the list head pins no process. */
  lemma HeadStays(s: State, r: State, p: int, l: int)
    requires Groups(s) && p in s.pid && Level(s, p) == l && r == s.(pin := r.pin) && |r.pin| == QSIZE && r.pin[l] == NONE
    ensures Groups(r) && PinNextProc(r, p, false) == r
  {
    SameGroups(s, r);
    assert NONE in s.ring[s.pid[p]] ==> NONE in s.pid;
  }

  lemma PinLevels(s: State, r: State, l: int)
    requires Groups(s) && Levels(s) && 0 <= l < QSIZE && |r.pin| == QSIZE && r == s.(pin := s.pin[l := r.pin[l]])
    requires r.pin[l] == NONE || r.pin[l] in s.queue[l]
    ensures Groups(r) && Levels(r)
  {
    SameGroups(s, r);
    assert LevelOk(s, 0) && LevelOk(s, 1) && LevelOk(s, 2);
    assert forall t, m :: Queued(s, t, m) <==> Queued(r, t, m);
  }

  // ---------- which levels are passed over, and what is returned ----------

  predicate IsReady(s: State, t: int) { t in s.run && s.run[t].Runnable? }

  ghost predicate SomeReady(s: State, l: int)
    requires 0 <= l < |s.queue|
  {
    exists t :: t in s.queue[l] && IsReady(s, t)
  }

  /** A ready thread of another process is found from any thread of the queue. */
  lemma FindsOther(s: State, m: int, u: int)
    requires Groups(s) && Levels(s) && m in s.pid && u in s.queue[Level(s, m)] && IsReady(s, u) && u in s.pid
    requires s.pid[u] != s.pid[m]
    ensures ReadyProc(s, m) != NONE
  {
    var q, ok := s.queue[Level(s, m)], ReadyOthers(s, m);
    assert LevelOk(s, Level(s, m));
    RoundIs(q, m);
    FirstIs(Round(q, m), ok);
    assert u in Round(q, m) && u in ok;
  }

  /** From a pinned running thread, pin_next_thread finds a ready thread of the queue if any. */
  lemma PinFinds(s: State, p: int, l: int, u: int)
    requires Groups(s) && Levels(s) && p in s.pid && Level(s, p) == l && Pinned(s, p) && Runs(s, p)
    requires u in s.queue[l] && IsReady(s, u)
    ensures PinNextThread(s, p, false).pin[l] != NONE
  {
    assert LevelOk(s, l) && Queued(s, u, l);
    ReadyThreadIs(s, p);
    ReadyOrRunningIs(s, p);
    var n, m := ReadyThread(s, p), ReadyOrRunning(s, p);
    if n == NONE {
      assert Active(s, p) && m in s.pid && s.pid[u] != s.pid[p];
      FindsOther(s, m, u);
    }
  }

  /** The pin is moved off a running candidate to a ready thread exactly if it was pinned itself,
      and not just the first of its queue, and the queue has a ready thread. */
  lemma MovedExactly(s: State, l: int)
    requires Groups(s) && Levels(s) && 0 <= l < QSIZE && s.queue[l] != [] && Runs(s, Candidate(s, l))
    ensures Candidate(s, l) in s.pid
    ensures Moved(s, Candidate(s, l)).pin[l] != NONE <==> s.pin[l] != NONE && SomeReady(s, l)
  {
    CandidateIs(s, l);
    MovedIs(s, l);
    var p := Candidate(s, l);
    if s.pin[l] == NONE {
      HeadStays(s, s, p, l);
      assert NONE in s.ring[s.pid[p]] ==> NONE in s.pid;
      assert PinNextThread(s, p, false) == s;
    } else if u :| u in s.queue[l] && IsReady(s, u) {
      assert Pinned(s, p);
      PinFinds(s, p, l, u);
    }
  }

  /** mlfqselect goes on to the next level. */
  ghost predicate Skipped(s: State, l: int)
    requires |s.queue| == |s.pin| == QSIZE && 0 <= l < QSIZE
  {
    s.queue[l] == [] || (Runs(s, Candidate(s, l)) && (s.pin[l] == NONE || !SomeReady(s, l)))
  }

  /** The first level from `l` on that is not skipped. */
  ghost function Open(s: State, l: int): (k: int)
    requires |s.queue| == |s.pin| == QSIZE && 0 <= l <= QSIZE
    ensures l <= k <= QSIZE && (k < QSIZE ==> !Skipped(s, k)) && forall m :: l <= m < k ==> Skipped(s, m)
    decreases QSIZE - l
  {
    if l == QSIZE || !Skipped(s, l) then l else Open(s, l + 1)
  }

  /** From level `l` on, mlfqselect returns the candidate of level `k` and pins it; the pins of the
      levels that it leaves for a running candidate go to the list head. */
  ghost predicate Selected(s: State, l: int, k: int, r: State, p: int)
    requires |s.queue| == |s.pin| == QSIZE && 0 <= l <= k <= QSIZE
  {
    && r == s.(pin := r.pin) && |r.pin| == QSIZE
    && (k < QSIZE ==> s.queue[k] != [] && p == Candidate(s, k) && r.pin[k] == p) && (k == QSIZE ==> p == NONE)
    && (forall m :: l <= m < k ==> r.pin[m] == if s.queue[m] == [] then s.pin[m] else NONE)
    && (forall m :: 0 <= m < QSIZE && (m < l || m > k) ==> r.pin[m] == s.pin[m])
  }

  /** Levels other than `l` look the same in `s` and `n`. */
  lemma SameOpen(s: State, n: State, l: int, j: int)
    requires |s.queue| == |s.pin| == QSIZE && 0 <= l < j <= QSIZE && |n.pin| == QSIZE
    requires n == s.(pin := s.pin[l := n.pin[l]])
    ensures Open(n, j) == Open(s, j)
    decreases QSIZE - j
  {
    if j < QSIZE {
      assert s.queue[j] != [] ==> Candidate(n, j) == Candidate(s, j);
      assert SomeReady(n, j) == SomeReady(s, j);
      assert Skipped(n, j) == Skipped(s, j);
      SameOpen(s, n, l, j + 1);
    }
  }

  /** The candidate of level `l` is taken. */
  lemma SelectTaken(s: State, l: int)
    requires Groups(s) && Levels(s) && 0 <= l < QSIZE && !Skipped(s, l)
    ensures var (r, p) := SelectFrom(s, l);
      Groups(r) && Levels(r) && p == Candidate(s, l) && r == s.(pin := s.pin[l := p])
  {
    CandidateIs(s, l);
    var p := Candidate(s, l);
    if Runs(s, p) {
      MovedIs(s, l);
      MovedExactly(s, l);
      assert Moved(s, p).pin[l := p] == s.pin[l := p];
    }
    PinLevels(s, s.(pin := s.pin[l := p]), l);
  }

  /** Level `l` is left for its running candidate. */
  lemma SelectSkipped(s: State, l: int)
    requires Groups(s) && Levels(s) && 0 <= l < QSIZE && Skipped(s, l) && s.queue[l] != []
    ensures var n := s.(pin := s.pin[l := NONE]);
      Groups(n) && Levels(n) && SelectFrom(s, l) == SelectFrom(n, l + 1) && Open(n, l + 1) == Open(s, l + 1)
  {
    CandidateIs(s, l);
    MovedIs(s, l);
    MovedExactly(s, l);
    var n := Moved(s, Candidate(s, l));
    PinLevels(s, n, l);
    SameOpen(s, n, l, l + 1);
  }

  /** Queues and pins are right after mlfqselect, and its result is the candidate of the first level
      from `l` on that is not skipped. */
  ghost predicate SelectedFrom(s: State, l: int, r: State, p: int)
    requires Groups(s) && 0 <= l <= QSIZE
  {
    Groups(r) && Levels(r) && Selected(s, l, Open(s, l), r, p)
  }

  lemma TakenIs(s: State, l: int, r: State, p: int)
    requires Groups(s) && Levels(s) && 0 <= l < QSIZE && !Skipped(s, l)
    requires Groups(r) && Levels(r) && p == Candidate(s, l) && r == s.(pin := s.pin[l := p])
    ensures SelectedFrom(s, l, r, p)
  {
    assert Open(s, l) == l;
  }

  lemma EmptyIs(s: State, l: int, r: State, p: int)
    requires Groups(s) && 0 <= l < QSIZE && s.queue[l] == [] && SelectedFrom(s, l + 1, r, p)
    ensures SelectedFrom(s, l, r, p)
  {
    assert Open(s, l) == Open(s, l + 1);
  }

  /** Going on to the next level, with the pin of this one at the list head. */
  lemma SkippedIs(s: State, n: State, l: int, r: State, p: int)
    requires Groups(s) && 0 <= l < QSIZE && Groups(n) && s.queue[l] != []
    requires n == s.(pin := s.pin[l := NONE]) && Skipped(s, l) && Open(n, l + 1) == Open(s, l + 1)
    requires SelectedFrom(n, l + 1, r, p)
    ensures SelectedFrom(s, l, r, p)
  {
    var k := Open(s, l);
    assert k == Open(s, l + 1) && (k < QSIZE ==> Candidate(n, k) == Candidate(s, k));
  }

  /** mlfqselect with any number of CPUs. Its panic is not met. */
  lemma {:induction false} SelectFromIs(s: State, l: int)
    requires Groups(s) && Levels(s) && 0 <= l <= QSIZE
    ensures SelectedFrom(s, l, SelectFrom(s, l).0, SelectFrom(s, l).1)
    decreases QSIZE - l
  {
    var r, p := SelectFrom(s, l).0, SelectFrom(s, l).1;
    if l == QSIZE {
    } else if s.queue[l] == [] {
      SelectFromIs(s, l + 1);
      EmptyIs(s, l, r, p);
    } else if Skipped(s, l) {
      SelectSkipped(s, l);
      var n := s.(pin := s.pin[l := NONE]);
      SelectFromIs(n, l + 1);
      SkippedIs(s, n, l, r, p);
    } else {
      SelectTaken(s, l);
      TakenIs(s, l, r, p);
    }
  }

  /** The highest level that has a ready thread. */
  ghost function ReadyTop(s: State): (k: int)
    requires |s.queue| == QSIZE
    ensures 0 <= k <= QSIZE && (k < QSIZE ==> SomeReady(s, k)) && forall m :: 0 <= m < k ==> !SomeReady(s, m)
  {
    if SomeReady(s, 0) then 0 else if SomeReady(s, 1) then 1 else if SomeReady(s, 2) then 2 else QSIZE
  }

  /** A queue without a ready thread is skipped: its threads all run. */
  lemma NoneReady(s: State, m: int)
    requires Groups(s) && Levels(s) && 0 <= m < QSIZE && !SomeReady(s, m)
    ensures Skipped(s, m)
  {
    if s.queue[m] != [] {
      CandidateIs(s, m);
      assert !IsReady(s, Candidate(s, m));
    }
  }

  /** When mlfqselect keeps its promise, whatever runs on other CPUs: it returns a ready thread of
      the highest level that has one exactly if the thread that it looks at there does not run. If
      that one runs and is pinned, it is returned; if it is the first and nobody is pinned, the
      level is passed over. */
  lemma ChoiceExactly(s: State)
    requires Groups(s) && Levels(s)
    ensures var p, k := SelectFrom(s, 0).1, ReadyTop(s);
      && (k == QSIZE ==> p == NONE)
      && (k < QSIZE ==>
          && s.queue[k] != []
          && ((IsReady(s, p) && p in s.queue[k]) <==> !Runs(s, Candidate(s, k)))
          && (Runs(s, Candidate(s, k)) ==>
              if s.pin[k] != NONE then p == Candidate(s, k) else Open(s, 0) > k && p !in s.queue[k]))
  {
    var p, k, o := SelectFrom(s, 0).1, ReadyTop(s), Open(s, 0);
    SelectFromIs(s, 0);
    OpenBelow(s);
    if k < QSIZE {
      PassedOverExactly(s, k);
      CandidateIs(s, k);
      if o > k { LowerResult(s, k, o, p); }
    }
  }

  /** No level above the highest ready thread is open. */
  lemma OpenBelow(s: State)
    requires Groups(s) && Levels(s)
    ensures ReadyTop(s) <= Open(s, 0)
  {
    forall m | 0 <= m < ReadyTop(s) ensures Skipped(s, m) { NoneReady(s, m); }
  }

  /** What is selected on a lower level is not in the queue of this one. */
  lemma LowerResult(s: State, k: int, o: int, p: int)
    requires Groups(s) && Levels(s) && 0 <= k < o <= QSIZE
    requires if o < QSIZE then s.queue[o] != [] && p == Candidate(s, o) else p == NONE
    ensures p !in s.queue[k]
  {
    assert LevelOk(s, k) && (p in s.queue[k] ==> Queued(s, p, k));
    if o < QSIZE { CandidateIs(s, o); }
  }

  /** Returned although it runs, or passed over although ready: at level `m`, exactly so. */
  lemma PassedOverExactly(s: State, m: int)
    requires Groups(s) && Levels(s) && 0 <= m < QSIZE && SomeReady(s, m)
    ensures s.queue[m] != []
    ensures Skipped(s, m) <==> s.pin[m] == NONE && Runs(s, s.queue[m][0])
  {
    var t :| t in s.queue[m] && IsReady(s, t);
  }

  /** Where no thread runs, as between slices on one CPU, the choice is of a ready thread. */
  lemma ReadyUnlessElsewhere(s: State)
    requires Groups(s) && Levels(s) && forall t :: t in s.run ==> !s.run[t].Running?
    ensures SelectFrom(s, 0) == if Top(s) == QSIZE then (s, NONE)
                                else (s.(pin := s.pin[Top(s) := Choice(s)]), Choice(s))
  {
    assert SelectFrom(s, 3) == (s, NONE);
    assert Top(s) >= 2 ==> SelectFrom(s, 1) == SelectFrom(s, 2);
  }

  /** Two CPUs: a process with a thread that runs and a thread that is ready; the first may be
      pinned. */
  function TwoCpus(pinned: bool): State {
    State(map[0 := [0, 1]], map[0 := 0, 1 := 0], map[0 := Running, 1 := Runnable], {}, map[0 := 0], map[0 := 0], 0,
          [[0, 1], [], []], [if pinned then 0 else NONE, NONE, NONE], Idle, NONE)
  }

  lemma TwoCpusOk(pinned: bool)
    ensures var s := TwoCpus(pinned);
      Groups(s) && Levels(s) && ReadyTop(s) == 0 && s.queue[0] != [] && Candidate(s, 0) == 0 && Open(s, 1) == QSIZE
  {
    var s := TwoCpus(pinned);
    assert s.ring[0] == [0, 1] && ProcOk(s, 0);
    assert forall t, l :: Queued(s, t, l) <==> (t == 0 || t == 1) && l == 0;
    assert s.queue[0] == [0, 1] && s.queue[1] == [] && s.queue[2] == [];
    assert 1 in s.queue[0] && IsReady(s, 1);
    assert Skipped(s, 1) && Skipped(s, 2);
    assert Open(s, 2) == QSIZE;
  }

  /** mlfqselect returns a thread that runs on another CPU although another one is ready. */
  lemma RunningChosen()
    ensures var s := TwoCpus(true);
      Groups(s) && Levels(s) && SelectFrom(s, 0).1 == 0 && s.run[0].Running? && s.run[1].Runnable? && 1 in s.queue[0]
  {
    TwoCpusOk(true);
    ChoiceExactly(TwoCpus(true));
    assert TwoCpus(true).queue[0] == [0, 1];
  }

  /** mlfqselect finds nothing although a thread is ready. */
  lemma ReadyPassedOver()
    ensures var s := TwoCpus(false);
      Groups(s) && Levels(s) && SelectFrom(s, 0).1 == NONE && s.run[0].Running? && s.run[1].Runnable? && 1 in s.queue[0]
  {
    var s := TwoCpus(false);
    TwoCpusOk(false);
    ChoiceExactly(s);
    SelectFromIs(s, 0);
    assert s.queue[0] == [0, 1];
    assert Skipped(s, 0) && Open(s, 0) == Open(s, 1);
  }
}
