/** The stride part of ptable in proc.c: the heap array, getminpass, set_cpu_share, the
    select step of scheduler(), exit's return of tickets, and stridelogic. Each method
    that changes the table is proved to do one step of module Stride. */
module StrideTable {
  import opened MinHeap
  import S = Stride

  const NPROC := 256
  const MAXINT := 0x7fffffff

  /** The stride processes that are in the heap: all but the one that runs. */
  ghost function Queued(s: S.Sched): set<int> {
    s.pass.Keys - {S.MLFQ} - (if s.cur.OfStride? then {s.cur.p} else {})
  }

  ghost predicate HeapOk(h: seq<int>, n: int, s: S.Sched) {
    Heap(h, n, s.pass) && Entries(h, n) == multiset(Queued(s))
  }

  lemma QueuedIn(h: seq<int>, n: int, s: S.Sched, i: int)
    requires HeapOk(h, n, s) && 1 <= i <= n
    ensures h[i] in Queued(s)
  {
    var q := h[1..n + 1];
    assert q[i - 1] in multiset(q);
  }

  lemma QueuedFound(h: seq<int>, n: int, s: S.Sched, e: int)
    requires HeapOk(h, n, s) && e in Queued(s)
    ensures exists i :: 1 <= i <= n && h[i] == e
  {
    var q := h[1..n + 1];
    assert e in multiset(q);
    var k :| 0 <= k < |q| && q[k] == e;
    assert h[k + 1] == e;
  }

  lemma QueuedOnce(h: seq<int>, n: int, s: S.Sched, i: int, j: int)
    requires HeapOk(h, n, s) && 1 <= i < j <= n
    ensures h[i] != h[j]
  {
    var q := h[1..n + 1];
    var u, v := q[..j - 1], q[j - 1..];
    assert q == u + v;
    assert u[i - 1] in multiset(u) && v[0] in multiset(v);
    assert multiset(q) == multiset(u) + multiset(v);
    assert multiset(q)[h[i]] <= 1;
  }

  /** Where the heap's processes are in the array. */
  lemma QueuedAt(h: seq<int>, n: int, s: S.Sched)
    requires HeapOk(h, n, s)
    ensures forall i :: 1 <= i <= n ==> h[i] in Queued(s)
    ensures forall e :: e in Queued(s) ==> exists i :: 1 <= i <= n && h[i] == e
    ensures forall i, j :: 1 <= i < j <= n ==> h[i] != h[j]
  {
    forall i | 1 <= i <= n ensures h[i] in Queued(s) { QueuedIn(h, n, s, i); }
    forall e | e in Queued(s) ensures exists i :: 1 <= i <= n && h[i] == e { QueuedFound(h, n, s, e); }
    forall i, j | 1 <= i < j <= n ensures h[i] != h[j] { QueuedOnce(h, n, s, i, j); }
  }

  /** The heap has room for every stride process. */
  lemma Room(h: seq<int>, n: int, s: S.Sched)
    requires HeapOk(h, n, s) && S.TicketsOk(s)
    ensures n <= S.TOTAL - S.RESERVE
  {
    S.FewStrideProcesses(s);
    assert n == |h[1..n + 1]| == |Entries(h, n)| == |Queued(s)|;
    var all := s.tickets.Keys - {S.MLFQ};
    assert Queued(s) == all * Queued(s);
  }

  /** Moving every queued process back by the same amount keeps the heap in order. */
  lemma ShiftedHeap(h: seq<int>, n: int, s: S.Sched, pass: map<int, int>, d: int)
    requires HeapOk(h, n, s) && Queued(s) <= pass.Keys
    requires forall e :: e in Queued(s) ==> pass[e] == s.pass[e] - d
    ensures Heap(h, n, pass)
  {
    QueuedAt(h, n, s);
    forall k | 1 <= k <= n ensures Above(h, n, pass, k, 0) {
      assert Above(h, n, s.pass, k, 0);
    }
  }

  ghost predicate Sound(s: S.Sched) { S.TicketsOk(s) && S.InRange(s) }

  lemma KeepSound(s: S.Sched, ev: S.Event)
    requires Sound(s) && S.Enabled(s, ev)
    ensures Sound(S.Do(s, ev))
  {
    S.KeepTickets(s, ev);
    S.KeepInRange(s, ev);
  }

  /** A process becomes a stride process and runs. */
  lemma Joined(h: seq<int>, n: int, s: S.Sched, p: int, share: int, entry: int)
    requires HeapOk(h, n, s) && S.Enabled(s, S.Share(p, share)) && s.cur.OfMlfq?
    requires !S.Refused(s, p, share) && entry <= s.pass[S.MLFQ]
    requires forall e :: e in Queued(s) ==> entry <= s.pass[e]
    requires entry == s.pass[S.MLFQ] || exists e :: e in Queued(s) && entry == s.pass[e]
    ensures HeapOk(h, n, S.DoShare(s, p, share))
    ensures S.DoShare(s, p, share)
         == S.Sched(s.pass[p := entry], s.tickets[S.MLFQ := s.tickets[S.MLFQ] - share][p := share],
                    s.charges[p := 0], S.OfStride(p))
  {
    assert S.IsLeast(s.pass, entry);
    var t := S.DoShare(s, p, share);
    assert Queued(t) == Queued(s);
    ShiftedHeap(h, n, s, t.pass, 0);
  }

  /** What popping process `p` off the heap leaves. */
  lemma Popped(h: seq<int>, n: int, g: seq<int>, s: S.Sched, p: int)
    requires HeapOk(h, n, s) && s.cur.Nobody? && Heap(g, n - 1, s.pass)
    requires Entries(h, n) == Entries(g, n - 1) + multiset{p}
    requires p in s.pass && forall q :: q in Entries(h, n) ==> q in s.pass && s.pass[p] <= s.pass[q]
    ensures p in Queued(s) && HeapOk(g, n - 1, s.(cur := S.OfStride(p)))
    ensures forall q :: q in Queued(s) ==> s.pass[p] <= s.pass[q]
  {
    assert p in Entries(h, n);
    var t := s.(cur := S.OfStride(p));
    assert Queued(s) == Queued(t) + {p};
    assert multiset(Queued(s)) == multiset(Queued(t)) + multiset{p};
    assert Entries(g, n - 1) == Entries(h, n) - multiset{p} == multiset(Queued(t));
  }

  /** The popped process, if below the MLFQ, is the machine's choice. */
  lemma SelectsStride(h: seq<int>, n: int, g: seq<int>, s: S.Sched, p: int, e: int)
    requires Sound(s) && HeapOk(h, n, s) && s.cur.Nobody? && Heap(g, n - 1, s.pass)
    requires Entries(h, n) == Entries(g, n - 1) + multiset{p}
    requires p in s.pass && forall q :: q in Entries(h, n) ==> q in s.pass && s.pass[p] <= s.pass[q]
    requires e in Queued(s) && s.pass[e] < s.pass[S.MLFQ]
    ensures S.Enabled(s, S.SelectStride(p)) && p != S.MLFQ
    ensures var t := s.(cur := S.OfStride(p)); t == S.Do(s, S.SelectStride(p)) && Sound(t) && HeapOk(g, n - 1, t)
  {
    Popped(h, n, g, s, p);
    KeepSound(s, S.SelectStride(p));
  }

  lemma SelectsMlfq(h: seq<int>, n: int, s: S.Sched)
    requires Sound(s) && HeapOk(h, n, s) && s.cur.Nobody?
    requires forall e :: e in Queued(s) ==> s.pass[S.MLFQ] <= s.pass[e]
    ensures S.Enabled(s, S.SelectMlfq)
    ensures var t := s.(cur := S.OfMlfq); Sound(t) && HeapOk(h, n, t)
  {
    KeepSound(s, S.SelectMlfq);
    assert Queued(s.(cur := S.OfMlfq)) == Queued(s);
  }

  /** The running stride process exits: it is not in the heap. */
  lemma Left(h: seq<int>, n: int, s: S.Sched)
    requires Sound(s) && HeapOk(h, n, s) && s.cur.OfStride?
    ensures HeapOk(h, n, S.DoExit(s))
  {
    var t := S.DoExit(s);
    assert Queued(t) == Queued(s);
    ShiftedHeap(h, n, s, t.pass, 0);
  }

  /** stridelogic charges the MLFQ, or a process that has exited: the heap keeps its entries. */
  lemma ChargedMlfq(h: seq<int>, n: int, s: S.Sched)
    requires Sound(s) && HeapOk(h, n, s) && (s.cur.OfMlfq? || s.cur.Exited?)
    ensures HeapOk(h, n, S.DoCharge(s))
  {
    var t := S.DoCharge(s);
    assert Queued(t) == Queued(s);
    ShiftedHeap(h, n, s, t.pass, if S.ChargedPass(s) > S.BARRIER then S.ChargedPass(s) else 0);
  }

  lemma ChargedIs(s: S.Sched, m: map<int, int>)
    requires S.Wf(s) && s.cur.OfStride? && m == S.Renormalised(s)
    ensures s.cur.p in m && s.cur.p in s.charges && s.cur.p in s.tickets
    ensures var p := s.cur.p;
      S.DoCharge(s) == S.Sched(m[p := m[p] + S.Strd(s.tickets[p])], s.tickets, s.charges[p := s.charges[p] + 1], S.Nobody)
  {
  }

  /** It charges a stride process: that one has to be pushed. */
  lemma ChargedStride(h: seq<int>, n: int, s: S.Sched)
    requires Sound(s) && HeapOk(h, n, s) && s.cur.OfStride?
    ensures Heap(h, n, S.DoCharge(s).pass)
    ensures multiset(Queued(S.DoCharge(s))) == Entries(h, n) + multiset{s.cur.p}
  {
    var t := S.DoCharge(s);
    assert Queued(t) == Queued(s) + {s.cur.p};
    ShiftedHeap(h, n, s, t.pass, if S.ChargedPass(s) > S.BARRIER then S.ChargedPass(s) else 0);
  }

  /** All that stridelogic's charge of a stride process rests on. */
  lemma ChargeFacts(h: seq<int>, n: int, s: S.Sched, m: map<int, int>)
    requires Sound(s) && HeapOk(h, n, s) && s.cur.OfStride? && m == S.Renormalised(s)
    ensures s.cur.p in m && s.cur.p in s.charges && s.cur.p in s.tickets && s.tickets[s.cur.p] > 0
    ensures var p, t := s.cur.p, S.DoCharge(s);
      && t == S.Sched(m[p := m[p] + S.Strd(s.tickets[p])], s.tickets, s.charges[p := s.charges[p] + 1], S.Nobody)
      && Sound(t) && Heap(h, n, t.pass) && p in t.pass && n <= S.TOTAL - S.RESERVE
      && multiset(Queued(t)) == Entries(h, n) + multiset{p}
  {
    KeepSound(s, S.Charge);
    ChargedStride(h, n, s);
    Room(h, n, s);
    ChargedIs(s, m);
  }

  lemma ChargedMlfqIs(s: S.Sched, m: map<int, int>)
    requires S.Wf(s) && (s.cur.OfMlfq? || s.cur.Exited?) && m == S.Renormalised(s)
    ensures S.MLFQ in m && S.MLFQ in s.charges && S.MLFQ in s.tickets && s.tickets[S.MLFQ] > 0
    ensures S.DoCharge(s) ==
      if s.cur.Exited? then S.Sched(m, s.tickets, s.charges, S.Nobody)
      else S.Sched(m[S.MLFQ := m[S.MLFQ] + S.Strd(s.tickets[S.MLFQ])], s.tickets,
                   s.charges[S.MLFQ := s.charges[S.MLFQ] + 1], S.Nobody)
  {
  }

  /** All that stridelogic's charge of the MLFQ rests on. */
  lemma ChargeMlfqFacts(h: seq<int>, n: int, s: S.Sched, m: map<int, int>)
    requires Sound(s) && HeapOk(h, n, s) && (s.cur.OfMlfq? || s.cur.Exited?) && m == S.Renormalised(s)
    ensures S.MLFQ in m && S.MLFQ in s.charges && S.MLFQ in s.tickets && s.tickets[S.MLFQ] > 0
    ensures var t := S.DoCharge(s);
      && Sound(t) && HeapOk(h, n, t)
      && t == if s.cur.Exited? then S.Sched(m, s.tickets, s.charges, S.Nobody)
              else S.Sched(m[S.MLFQ := m[S.MLFQ] + S.Strd(s.tickets[S.MLFQ])], s.tickets,
                           s.charges[S.MLFQ := s.charges[S.MLFQ] + 1], S.Nobody)
  {
    KeepSound(s, S.Charge);
    ChargedMlfq(h, n, s);
    ChargedMlfqIs(s, m);
  }

  class Table {
    const minheap: array<int>   // entries 1 to size
    var size: int
    var st: S.Sched             // passes, tickets, charges, who runs

    ghost predicate Valid()
      reads this, minheap
    {
      && minheap.Length == NPROC && Sound(st) && HeapOk(minheap[..], size, st)
    }

    constructor ()
      ensures Valid() && st == S.Init() && fresh(minheap)
    {
      minheap := new int[NPROC](_ => 0);
      size, st := 0, S.Init();
      new;
      S.InitOk();
      assert minheap[..][1..1] == [];
      assert Queued(st) == {};
    }

    /** getminpass. */
    method GetMinPass() returns (m: int)
      requires Valid()
      ensures size == 0 ==> m == MAXINT
      ensures size > 0 ==> exists p :: p in Queued(st) && st.pass[p] == m
      ensures forall e :: e in Queued(st) ==> m <= st.pass[e]
    {
      QueuedAt(minheap[..], size, st);
      if size > 0 {
        PopMinimum(minheap[..], size, st.pass);
        m := st.pass[minheap[1]];
      } else {
        m := MAXINT;
      }
    }

    /** popheap, when a queued process `e` is below the MLFQ. */
    method PopLeast(ghost e: int) returns (p: int)
      requires Valid() && st.cur.Nobody? && e in Queued(st) && st.pass[e] < st.pass[S.MLFQ] && size > 0
      modifies this`size, this`st, minheap
      ensures Valid() && p != S.MLFQ
      ensures S.Enabled(old(st), S.SelectStride(p)) && st == S.Do(old(st), S.SelectStride(p))
    {
      p := PopTop(e);
      size := size - 1;
      st := st.(cur := S.OfStride(p));
    }

    /** Its work on the array. */
    method PopTop(ghost e: int) returns (p: int)
      requires Valid() && st.cur.Nobody? && e in Queued(st) && st.pass[e] < st.pass[S.MLFQ] && size > 0
      modifies minheap
      ensures p != S.MLFQ && S.Enabled(st, S.SelectStride(p))
      ensures var t := st.(cur := S.OfStride(p));
        t == S.Do(st, S.SelectStride(p)) && Sound(t) && HeapOk(minheap[..], size - 1, t)
    {
      ghost var h := minheap[..];
      p := PopHeap(minheap, size, st.pass);
      SelectsStride(h, size, minheap[..], st, p, e);
    }

    /** scheduler's selection: popheap if its least pass is below the MLFQ's, else the MLFQ. */
    method Select() returns (p: int)
      requires Valid() && st.cur.Nobody?
      modifies this`size, this`st, minheap
      ensures Valid()
      ensures p == S.MLFQ ==> S.Enabled(old(st), S.SelectMlfq) && st == S.Do(old(st), S.SelectMlfq)
      ensures p != S.MLFQ ==> S.Enabled(old(st), S.SelectStride(p)) && st == S.Do(old(st), S.SelectStride(p))
    {
      var m := GetMinPass();
      if m < st.pass[S.MLFQ] {
        ghost var e :| e in Queued(st) && st.pass[e] == m;
        p := PopLeast(e);
      } else {
        p := S.MLFQ;
        SelectsMlfq(minheap[..], size, st);
        st := st.(cur := S.OfMlfq);
      }
    }

    /** set_cpu_share called by the running process `p`. */
    method SetCpuShare(p: int, share: int) returns (r: int)
      requires Valid() && S.Enabled(st, S.Share(p, share))
      modifies this`st
      ensures Valid() && st == S.Do(old(st), S.Share(p, share))
      ensures r == -1 <==> S.Refused(old(st), p, share)
      ensures r != -1 ==> r == 0 && p in st.tickets && st.tickets[p] == share
    {
      KeepSound(st, S.Share(p, share));
      if share < 1 || share > 100 - S.RESERVE { return -1; }
      var remain := st.tickets[S.MLFQ];
      if st.cur.OfStride? { remain := remain + st.tickets[p]; }
      if remain - share < S.RESERVE { return -1; }
      if st.cur.OfMlfq? {
        Join(p, share);
      } else {
        st := st.(tickets := st.tickets[S.MLFQ := remain - share][p := share]);
      }
      r := 0;
    }

    /** set_cpu_share's change of an MLFQ process to a stride process. */
    method Join(p: int, share: int)
      requires Valid() && S.Enabled(st, S.Share(p, share)) && st.cur.OfMlfq? && !S.Refused(st, p, share)
      modifies this`st
      ensures st == S.DoShare(old(st), p, share) && HeapOk(minheap[..], size, st)
    {
      var minpass := GetMinPass();
      var mlfqpass := st.pass[S.MLFQ];
      var entry := if minpass < mlfqpass then minpass else mlfqpass;
      Joined(minheap[..], size, st, p, share, entry);
      st := S.Sched(st.pass[p := entry], st.tickets[S.MLFQ := st.tickets[S.MLFQ] - share][p := share],
                    st.charges[p := 0], S.OfStride(p));
    }

    /** exit by the running stride process: its tickets go back to the MLFQ. */
    method Exit()
      requires Valid() && st.cur.OfStride?
      modifies this`st
      ensures Valid() && st == S.Do(old(st), S.Exit)
    {
      KeepSound(st, S.Exit);
      Left(minheap[..], size, st);
      var p := st.cur.p;
      var t := st.tickets[S.MLFQ] + st.tickets[p];
      st := S.Sched(st.pass - {p}, (st.tickets - {p})[S.MLFQ := t], st.charges - {p}, S.Exited(st.pass[p]));
    }

    /** stridelogic's loop over the heap. */
    method MoveBack(minpass: int) returns (pass: map<int, int>)
      requires Valid()
      ensures pass.Keys == st.pass.Keys
      ensures forall e :: e in pass ==> pass[e] == st.pass[e] - if e in Queued(st) then minpass else 0
    {
      QueuedAt(minheap[..], size, st);
      pass := st.pass;
      for i := 1 to size + 1
        invariant pass.Keys == st.pass.Keys
        invariant forall j :: 1 <= j < i ==> pass[minheap[j]] == st.pass[minheap[j]] - minpass
        invariant forall j :: i <= j <= size ==> pass[minheap[j]] == st.pass[minheap[j]]
        invariant forall e :: e in pass && e !in Queued(st) ==> pass[e] == st.pass[e]
      {
        pass := pass[minheap[i] := pass[minheap[i]] - minpass];
      }
    }

    /** stridelogic's overflow handling. The run list holds no process here: on one CPU the
        process that ran has just left it. */
    method Renormalise() returns (pass: map<int, int>)
      requires Valid() && !st.cur.Nobody?
      ensures pass == S.Renormalised(st)
    {
      var minpass := S.ChargedPass(st);
      pass := st.pass;
      if minpass > S.BARRIER {
        pass := MoveBack(minpass);
        pass := pass[S.MLFQ := pass[S.MLFQ] - minpass];
      }
    }

    /** stridelogic's charge of a stride process, which goes back to the heap. */
    method ChargeStride(renormalised: map<int, int>)
      requires Valid() && st.cur.OfStride? && renormalised == S.Renormalised(st)
      modifies this`size, this`st, minheap
      ensures Valid() && st == S.DoCharge(old(st))
    {
      ghost var t := S.DoCharge(st);
      ChargeFacts(minheap[..], size, st, renormalised);
      var p := st.cur.p;
      var pass := renormalised[p := renormalised[p] + S.Strd(st.tickets[p])];
      st := S.Sched(pass, st.tickets, st.charges[p := st.charges[p] + 1], S.Nobody);
      assert st == t;
      Push(p);
    }

    /** stridelogic's pushheap of the process charged. */
    method Push(p: int)
      requires minheap.Length == NPROC && Sound(st) && Heap(minheap[..], size, st.pass) && p in st.pass
      requires size <= S.TOTAL - S.RESERVE && multiset(Queued(st)) == Entries(minheap[..], size) + multiset{p}
      modifies this`size, minheap
      ensures Valid()
    {
      PushHeap(minheap, size, st.pass, p);
      size := size + 1;
    }

    /** stridelogic. */
    method StrideLogic()
      requires Valid() && !st.cur.Nobody?
      modifies this`size, this`st, minheap
      ensures Valid() && st == S.Do(old(st), S.Charge)
    {
      var pass := Renormalise();
      if st.cur.OfStride? {
        ChargeStride(pass);
      } else {
        ChargeMlfq(pass);
      }
    }

    /** stridelogic's charge of the MLFQ; a process that has exited is not charged. */
    method ChargeMlfq(renormalised: map<int, int>)
      requires Valid() && (st.cur.OfMlfq? || st.cur.Exited?) && renormalised == S.Renormalised(st)
      modifies this`st
      ensures Valid() && st == S.DoCharge(old(st))
    {
      ghost var t := S.DoCharge(st);
      ChargeMlfqFacts(minheap[..], size, st, renormalised);
      if st.cur.OfMlfq? {
        var pass := renormalised[S.MLFQ := renormalised[S.MLFQ] + S.Strd(st.tickets[S.MLFQ])];
        st := S.Sched(pass, st.tickets, st.charges[S.MLFQ := st.charges[S.MLFQ] + 1], S.Nobody);
      } else {
        st := S.Sched(renormalised, st.tickets, st.charges, S.Nobody);
      }
      assert st == t;
    }
  }
}
