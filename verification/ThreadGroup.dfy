/** Thread groups of thread.c and the proc slots of proc.c: which slots are free, the ring of
    threads of each process, thread ids, user stacks, and the thmain links that say which
    thread joins which. A process is named by the slot of its main thread. */
module ThreadGroup {
  import opened Lists

  const PGSIZE := 4096
  const USTACKSIZE := 4096
  const MAIN := 0   // the tid of a main thread

  datatype Table = Table(
    free: seq<int>, nproc: int,
    ring: map<int, seq<int>>,   // the threads of each process, from the main thread on
    group: map<int, int>,       // the process of each thread
    tid: map<int, int>, ustack: map<int, int>, thmain: map<int, int>,
    zombie: set<int>)

  function PageDown(a: int): int { a - a % PGSIZE }

  /** A thread's guard page and stack: from Bottom up to Top. */
  function Bottom(ustack: int): int { PageDown(ustack) - PGSIZE }
  function Top(ustack: int): int { ustack + USTACKSIZE }

  ghost predicate FreeOk(t: Table) {
    t.nproc == |t.free| && Distinct(t.free) && forall s :: s in t.free ==> s !in t.group
  }

  /** Entry `j` of a ring comes after entry `i`: a greater tid and a stack below, apart. */
  predicate After(t: Table, q: seq<int>, i: int, j: int)
    requires 0 <= i < |q| && 0 <= j < |q|
  {
    && q[i] in t.tid && q[j] in t.tid && t.tid[q[i]] < t.tid[q[j]]
    && q[i] in t.ustack && q[j] in t.ustack && Top(t.ustack[q[j]]) <= Bottom(t.ustack[q[i]])
  }

  ghost predicate Ordered(t: Table, q: seq<int>) {
    forall i, j :: 0 <= i < j < |q| ==> After(t, q, i, j)
  }

  ghost predicate RingOk(t: Table, p: int) {
    && p in t.ring && t.ring[p] != [] && t.ring[p][0] == p && p in t.group
    && (forall s :: s in t.ring[p] ==> s in t.group && t.group[s] == p)
    && Ordered(t, t.ring[p])
  }

  /** Thread `s` is in its ring and its thmain link leads to an earlier thread of it that lives. */
  ghost predicate ThreadOk(t: Table, s: int)
    requires s in t.group
  {
    var p := t.group[s];
    && p in t.ring && s in t.ring[p] && s in t.tid && s in t.ustack && s in t.thmain
    && (if s == p then t.thmain[s] == p && t.tid[s] == MAIN
        else t.thmain[s] in t.group && t.group[t.thmain[s]] == p && t.thmain[s] !in t.zombie
             && t.thmain[s] in t.tid && t.tid[t.thmain[s]] < t.tid[s])
  }

  ghost predicate Inv(t: Table) {
    && FreeOk(t) && t.zombie <= t.group.Keys
    && (forall p :: p in t.ring ==> RingOk(t, p))
    && (forall s :: s in t.group ==> ThreadOk(t, s))
    && (forall p :: p in t.ring && p in t.zombie ==> t.ring[p] == [p])
  }

  // ---------- steps ----------

  datatype Event =
    | Spawn(ustack: int)             // a process with one thread: userinit, and fork of one
    | Create(cur: int)               // thread_create
    | Exit(cur: int)                 // thread_exit
    | Join(cur: int, s: int)         // thread_join
    | ProcExit(p: int)
    | Reap(p: int)                   // wait

  function DoSpawn(t: Table, ustack: int): Table
    requires t.free != []
  {
    var s := t.free[0];
    Table(t.free[1..], t.nproc - 1, t.ring[s := [s]], t.group[s := s], t.tid[s := MAIN], t.ustack[s := ustack],
          t.thmain[s := s], t.zombie - {s})
  }

  function DoCreate(t: Table, cur: int): Table
    requires t.free != [] && cur in t.group && t.group[cur] in t.ring && t.ring[t.group[cur]] != []
  {
    var s, p := t.free[0], t.group[cur];
    var last := t.ring[p][|t.ring[p]| - 1];
    var sp := PageDown(if last in t.ustack then t.ustack[last] else 0) - PGSIZE;
    Table(t.free[1..], t.nproc - 1, t.ring[p := t.ring[p] + [s]], t.group[s := p],
          t.tid[s := (if last in t.tid then t.tid[last] else 0) + 1], t.ustack[s := sp - USTACKSIZE],
          t.thmain[s := cur], t.zombie - {s})
  }

  /** The threads that `cur` would have joined are handed to the main thread. */
  function DoExit(t: Table, cur: int): Table
    requires cur in t.group
  {
    var p := t.group[cur];
    t.(thmain := map s | s in t.thmain :: if s in t.group && t.group[s] == p && t.thmain[s] == cur then p else t.thmain[s],
       zombie := t.zombie + {cur})
  }

  function DoJoin(t: Table, s: int): Table
    requires s in t.group && t.group[s] in t.ring
  {
    var p := t.group[s];
    Table([s] + t.free, t.nproc + 1, t.ring[p := Remove(t.ring[p], s)], t.group - {s}, t.tid - {s}, t.ustack - {s},
          t.thmain - {s}, t.zombie - {s})
  }

  function DoReap(t: Table, p: int): Table {
    Table([p] + t.free, t.nproc + 1, t.ring - {p}, t.group - {p}, t.tid - {p}, t.ustack - {p}, t.thmain - {p}, t.zombie - {p})
  }

  ghost predicate Enabled(t: Table, ev: Event) {
    match ev
    case Spawn(_) => t.free != []
    case Create(cur) =>
      t.free != [] && cur in t.group && cur !in t.zombie && t.group[cur] in t.ring && t.ring[t.group[cur]] != []
    case Exit(cur) => cur in t.group && cur !in t.zombie && cur in t.thmain && t.thmain[cur] != cur
    case Join(cur, s) => s in t.group && s in t.zombie && s in t.thmain && t.thmain[s] == cur && s != cur && t.group[s] in t.ring
    case ProcExit(p) => p in t.ring && p !in t.zombie && t.ring[p] == [p]
    case Reap(p) => p in t.ring && p in t.zombie
  }

  function Do(t: Table, ev: Event): Table
    requires Enabled(t, ev)
  {
    match ev
    case Spawn(u) => DoSpawn(t, u)
    case Create(cur) => DoCreate(t, cur)
    case Exit(cur) => DoExit(t, cur)
    case Join(_, s) => DoJoin(t, s)
    case ProcExit(p) => t.(zombie := t.zombie + {p})
    case Reap(p) => DoReap(t, p)
  }

  lemma KeepFreeTaken(t: Table, r: Table, s: int)
    requires FreeOk(t) && t.free != [] && s == t.free[0] && r.free == t.free[1..] && r.nproc == t.nproc - 1
    requires r.group.Keys == t.group.Keys + {s}
    ensures FreeOk(r) && s !in t.group
  {
    assert s in t.free;
    assert forall x :: x in r.free ==> x in t.free && x != s;
  }

  lemma KeepFreeGiven(t: Table, r: Table, s: int)
    requires FreeOk(t) && s in t.group && r.free == [s] + t.free && r.nproc == t.nproc + 1
    requires r.group.Keys == t.group.Keys - {s}
    ensures FreeOk(r)
  {
    assert forall i :: 0 <= i < |t.free| ==> t.free[i] in t.free;
    assert r.free[1..] == t.free;
  }

  /** A ring none of whose threads changed. */
  lemma SameRing(t: Table, r: Table, p: int)
    requires RingOk(t, p) && p in r.ring && r.ring[p] == t.ring[p]
    requires forall s :: s in t.ring[p] ==> s in r.group && s in t.group && r.group[s] == t.group[s] && SameStack(t, r, s)
    ensures RingOk(r, p)
  {
    var q := t.ring[p];
    assert q[0] in q;
    forall i, j | 0 <= i < j < |q| ensures After(r, q, i, j) {
      assert After(t, q, i, j) && q[i] in q && q[j] in q;
      assert SameStack(t, r, q[i]) && SameStack(t, r, q[j]);
    }
  }

  /** Rings of processes that a step does not touch. */
  lemma OtherRings(t: Table, r: Table, p: int)
    requires forall x :: x in t.ring ==> RingOk(t, x)
    requires forall x :: x in r.ring && x != p ==> x in t.ring && r.ring[x] == t.ring[x]
    requires forall s :: s in t.group && t.group[s] != p ==> s in r.group && r.group[s] == t.group[s] && SameStack(t, r, s)
    ensures forall x :: x in r.ring && x != p ==> RingOk(r, x)
  {
    forall x | x in r.ring && x != p ensures RingOk(r, x) {
      assert RingOk(t, x);
      SameRing(t, r, x);
    }
  }

  predicate SameStack(t: Table, r: Table, s: int) {
    && (s in t.tid ==> s in r.tid && r.tid[s] == t.tid[s])
    && (s in t.ustack ==> s in r.ustack && r.ustack[s] == t.ustack[s])
  }

  lemma SpawnRings(t: Table, ustack: int)
    requires Inv(t) && t.free != []
    ensures var r := DoSpawn(t, ustack); forall p :: p in r.ring ==> RingOk(r, p)
  {
    var r, s := DoSpawn(t, ustack), t.free[0];
    KeepFreeTaken(t, r, s);
    forall x | x in t.group && t.group[x] != s ensures SameStack(t, r, x) { assert x != s; }
    OtherRings(t, r, s);
  }

  lemma SpawnThread(t: Table, ustack: int, x: int)
    requires Inv(t) && t.free != [] && x in DoSpawn(t, ustack).group
    ensures ThreadOk(DoSpawn(t, ustack), x)
  {
    KeepFreeTaken(t, DoSpawn(t, ustack), t.free[0]);
    assert x in t.group ==> ThreadOk(t, x);
  }

  lemma KeepSpawn(t: Table, ustack: int)
    requires Inv(t) && t.free != []
    ensures Inv(DoSpawn(t, ustack))
  {
    var r := DoSpawn(t, ustack);
    KeepFreeTaken(t, r, t.free[0]);
    SpawnRings(t, ustack);
    forall x | x in r.group ensures ThreadOk(r, x) { SpawnThread(t, ustack, x); }
  }

  lemma CreatedRing(t: Table, cur: int)
    requires Inv(t) && Enabled(t, Create(cur))
    ensures RingOk(DoCreate(t, cur), t.group[cur])
  {
    var r, s, p := DoCreate(t, cur), t.free[0], t.group[cur];
    KeepFreeTaken(t, r, s);
    assert RingOk(t, p);
    var q, n := t.ring[p], |t.ring[p]| - 1;
    assert q[n] in q && ThreadOk(t, q[n]);
    forall i, j | 0 <= i < j < |r.ring[p]| ensures After(r, r.ring[p], i, j) {
      assert q[i] in q;
      if j <= n {
        assert After(t, q, i, j) && q[j] in q;
      } else {
        assert i < n ==> After(t, q, i, n);
      }
    }
  }

  lemma CreatedThread(t: Table, cur: int, x: int)
    requires Inv(t) && Enabled(t, Create(cur)) && x in DoCreate(t, cur).group
    ensures ThreadOk(DoCreate(t, cur), x)
  {
    var r, s := DoCreate(t, cur), t.free[0];
    KeepFreeTaken(t, r, s);
    if x != s { CreatedOther(t, cur, x); } else { CreatedNew(t, cur); }
  }

  lemma CreatedOther(t: Table, cur: int, x: int)
    requires Inv(t) && Enabled(t, Create(cur)) && x in t.group && t.free[0] !in t.group
    ensures ThreadOk(DoCreate(t, cur), x)
  {
    var r, p := DoCreate(t, cur), t.group[x];
    assert ThreadOk(t, x) && x != t.free[0];
    assert x in r.ring[p];
  }

  lemma CreatedNew(t: Table, cur: int)
    requires Inv(t) && Enabled(t, Create(cur)) && t.free[0] !in t.group
    ensures ThreadOk(DoCreate(t, cur), t.free[0])
  {
    var r, s, p := DoCreate(t, cur), t.free[0], t.group[cur];
    CreatedLast(t, cur);
    assert ThreadOk(t, cur) && s != p && s != cur;
    assert r.ring[p][|t.ring[p]|] == s;
  }

  lemma CreatedRings(t: Table, cur: int)
    requires Inv(t) && Enabled(t, Create(cur))
    ensures var r := DoCreate(t, cur); forall p :: p in r.ring ==> RingOk(r, p)
  {
    var r, s, p := DoCreate(t, cur), t.free[0], t.group[cur];
    KeepFreeTaken(t, r, s);
    CreatedRing(t, cur);
    forall x | x in t.group && t.group[x] != p ensures SameStack(t, r, x) { assert x != s; }
    OtherRings(t, r, p);
  }

  lemma KeepCreate(t: Table, cur: int)
    requires Inv(t) && Enabled(t, Create(cur))
    ensures Inv(DoCreate(t, cur))
  {
    var r := DoCreate(t, cur);
    KeepFreeTaken(t, r, t.free[0]);
    CreatedRings(t, cur);
    CreatedLast(t, cur);
    forall x | x in r.group ensures ThreadOk(r, x) { CreatedThread(t, cur, x); }
  }

  /** The last thread of a ring has the greatest tid. */
  lemma CreatedLast(t: Table, cur: int)
    requires Inv(t) && Enabled(t, Create(cur))
    ensures var q := t.ring[t.group[cur]]; q[|q| - 1] in t.tid && cur in t.tid && t.tid[cur] <= t.tid[q[|q| - 1]]
    ensures t.group[cur] !in t.zombie
  {
    var p := t.group[cur];
    assert ThreadOk(t, cur) && RingOk(t, p);
    var q, n := t.ring[p], |t.ring[p]| - 1;
    var i :| 0 <= i < |q| && q[i] == cur;
    assert i < n ==> After(t, q, i, n);
    assert q[0] in q;
  }

  lemma ExitRings(t: Table, r: Table)
    requires Inv(t) && r.ring == t.ring && r.group == t.group && r.tid == t.tid && r.ustack == t.ustack
    ensures forall p :: p in r.ring ==> RingOk(r, p)
  {
    forall p | p in r.ring ensures RingOk(r, p) {
      assert RingOk(t, p);
      SameRing(t, r, p);
    }
  }

  lemma ExitThread(t: Table, cur: int, x: int)
    requires Inv(t) && Enabled(t, Exit(cur)) && x in t.group
    ensures ThreadOk(DoExit(t, cur), x)
  {
    var p := t.group[cur];
    assert ThreadOk(t, cur) && ThreadOk(t, x) && RingOk(t, p);
    Positive(t, x);
    Positive(t, cur);
  }

  lemma KeepExit(t: Table, cur: int)
    requires Inv(t) && Enabled(t, Exit(cur))
    ensures Inv(DoExit(t, cur))
  {
    var r := DoExit(t, cur);
    ExitRings(t, r);
    assert ThreadOk(t, cur);
    forall x | x in r.group ensures ThreadOk(r, x) { ExitThread(t, cur, x); }
  }

  /** Only main threads have tid 0. */
  lemma Positive(t: Table, s: int)
    requires Inv(t) && s in t.group
    ensures s in t.tid && t.group[s] in t.tid && t.tid[t.group[s]] == MAIN && (s != t.group[s] ==> t.tid[s] > MAIN)
  {
    var p := t.group[s];
    assert ThreadOk(t, s) && RingOk(t, p);
    assert ThreadOk(t, p);
    var q := t.ring[p];
    var i :| 0 <= i < |q| && q[i] == s;
    assert i > 0 ==> After(t, q, 0, i);
  }

  lemma JoinedRing(t: Table, s: int)
    requires Inv(t) && s in t.group && s != t.group[s] && t.group[s] in t.ring
    ensures RingOk(DoJoin(t, s), t.group[s])
    ensures forall x :: x in DoJoin(t, s).ring[t.group[s]] <==> x in t.ring[t.group[s]] && x != s
  {
    var r, p := DoJoin(t, s), t.group[s];
    assert RingOk(t, p) && ThreadOk(t, s);
    var q, m := t.ring[p], Remove(t.ring[p], s);
    RingDistinct(t, p);
    RemoveIs(q, s);
    var k := Index(q, s);
    forall i, j | 0 <= i < j < |m| ensures After(r, m, i, j) {
      var x, y := if i < k then i else i + 1, if j < k then j else j + 1;
      assert m[i] == q[x] && m[j] == q[y] && After(t, q, x, y) && m[i] in m && m[j] in m;
    }
  }

  lemma RingDistinct(t: Table, p: int)
    requires RingOk(t, p)
    ensures Distinct(t.ring[p])
  {
    var q := t.ring[p];
    forall i, j | 0 <= i < j < |q| ensures q[i] != q[j] { assert After(t, q, i, j); }
  }

  lemma JoinStacks(t: Table, s: int)
    requires s in t.group && t.group[s] in t.ring
    ensures var r := DoJoin(t, s);
      forall x :: x in t.group && t.group[x] != t.group[s] ==> x in r.group && r.group[x] == t.group[x] && SameStack(t, r, x)
  {
    var r := DoJoin(t, s);
    forall x | x in t.group && t.group[x] != t.group[s]
      ensures x in r.group && r.group[x] == t.group[x] && SameStack(t, r, x)
    {
      assert x != s;
    }
  }

  lemma JoinRings(t: Table, s: int)
    requires Inv(t) && s in t.group && s != t.group[s] && t.group[s] in t.ring
    ensures var r := DoJoin(t, s); forall p :: p in r.ring ==> RingOk(r, p)
  {
    var r, p := DoJoin(t, s), t.group[s];
    JoinedRing(t, s);
    JoinStacks(t, s);
    OtherRings(t, r, p);
  }

  lemma JoinThread(t: Table, cur: int, s: int, x: int)
    requires Inv(t) && Enabled(t, Join(cur, s)) && x in t.group && x != s && s != t.group[s]
    ensures ThreadOk(DoJoin(t, s), x)
  {
    assert ThreadOk(t, x) && ThreadOk(t, s);
    JoinedRing(t, s);
  }

  lemma KeepJoin(t: Table, cur: int, s: int)
    requires Inv(t) && Enabled(t, Join(cur, s))
    ensures Inv(DoJoin(t, s))
  {
    var r, p := DoJoin(t, s), t.group[s];
    assert ThreadOk(t, s);
    KeepFreeGiven(t, r, s);
    JoinRings(t, s);
    JoinedRing(t, s);
    forall x | x in r.group ensures ThreadOk(r, x) { JoinThread(t, cur, s, x); }
    JoinZombies(t, s);
  }

  /** A process whose main thread is dead has no thread to join. */
  lemma JoinZombies(t: Table, s: int)
    requires Inv(t) && s in t.group && s != t.group[s] && t.group[s] in t.ring
    ensures var r := DoJoin(t, s); forall p :: p in r.ring && p in r.zombie ==> r.ring[p] == [p]
  {
    var r, p := DoJoin(t, s), t.group[s];
    assert ThreadOk(t, s) && s in t.ring[p] && RingOk(t, p);
    assert p !in t.zombie;
  }

  lemma ReapRings(t: Table, p: int)
    requires Inv(t) && Enabled(t, Reap(p))
    ensures var r := DoReap(t, p); forall x :: x in r.ring ==> RingOk(r, x)
  {
    var r := DoReap(t, p);
    forall x | x in t.group && t.group[x] != p ensures x != p && SameStack(t, r, x) { assert RingOk(t, p); }
    OtherRings(t, r, p);
  }

  lemma ReapThread(t: Table, p: int, x: int)
    requires Inv(t) && Enabled(t, Reap(p)) && x in t.group && x != p
    ensures ThreadOk(DoReap(t, p), x)
  {
    assert RingOk(t, p) && t.ring[p] == [p];
    assert ThreadOk(t, x) && x in t.ring[t.group[x]];
  }

  lemma KeepReap(t: Table, p: int)
    requires Inv(t) && Enabled(t, Reap(p))
    ensures Inv(DoReap(t, p))
  {
    var r := DoReap(t, p);
    assert RingOk(t, p);
    KeepFreeGiven(t, r, p);
    ReapRings(t, p);
    forall x | x in r.group ensures ThreadOk(r, x) { ReapThread(t, p, x); }
  }

  lemma KeepProcExit(t: Table, p: int)
    requires Inv(t) && Enabled(t, ProcExit(p))
    ensures Inv(t.(zombie := t.zombie + {p}))
  {
    var r := t.(zombie := t.zombie + {p});
    assert RingOk(t, p);
    ExitRings(t, r);
    forall x | x in r.group ensures ThreadOk(r, x) {
      assert ThreadOk(t, x) && x in t.ring[t.group[x]];
    }
  }

  lemma KeepInv(t: Table, ev: Event)
    requires Inv(t) && Enabled(t, ev)
    ensures Inv(Do(t, ev))
  {
    match ev
    case Spawn(u) => KeepSpawn(t, u);
    case Create(cur) => KeepCreate(t, cur);
    case Exit(cur) => KeepExit(t, cur);
    case Join(cur, s) => KeepJoin(t, cur, s);
    case ProcExit(p) => KeepProcExit(t, p);
    case Reap(p) => KeepReap(t, p);
  }

  // ---------- runs ----------

  /** pinit: all slots free. */
  function Init(slots: seq<int>): Table {
    Table(slots, |slots|, map[], map[], map[], map[], map[], {})
  }

  ghost predicate CanRun(t: Table, evs: seq<Event>)
    decreases |evs|
  {
    evs == [] || (Enabled(t, evs[0]) && CanRun(Do(t, evs[0]), evs[1..]))
  }

  ghost function Exec(t: Table, evs: seq<Event>): Table
    requires CanRun(t, evs)
    decreases |evs|
  {
    if evs == [] then t else Exec(Do(t, evs[0]), evs[1..])
  }

  lemma {:induction false} ExecInv(t: Table, evs: seq<Event>)
    requires Inv(t) && CanRun(t, evs)
    ensures Inv(Exec(t, evs))
    decreases |evs|
  {
    if evs != [] {
      KeepInv(t, evs[0]);
      ExecInv(Do(t, evs[0]), evs[1..]);
    }
  }

  function Rank(t: Table, s: int): int { if s in t.tid then t.tid[s] else 0 }

  /** Where main_thread ends: the thmain links are followed to a thread that is its own. */
  ghost function Root(t: Table, s: int): (m: int)
    requires Inv(t) && s in t.group
    ensures m == t.group[s]
    decreases Rank(t, s)
  {
    assert ThreadOk(t, s);
    Positive(t, s);
    if t.thmain[s] == s then s else
      Positive(t, t.thmain[s]);
      Root(t, t.thmain[s])
  }

  /** Over every run from boot: the free count is right, and from every thread the thmain links
      lead, over live slots, to the thread with tid 0. */
  lemma RunsAreSound(slots: seq<int>, evs: seq<Event>, s: int)
    requires Distinct(slots) && CanRun(Init(slots), evs) && s in Exec(Init(slots), evs).group
    ensures var r := Exec(Init(slots), evs);
      && Inv(r) && r.nproc == |r.free| && s !in r.free
      && s in r.thmain && r.thmain[s] in r.group && r.thmain[s] !in r.free
      && Root(r, s) in r.tid && r.tid[Root(r, s)] == MAIN
  {
    ExecInv(Init(slots), evs);
    var r := Exec(Init(slots), evs);
    assert ThreadOk(r, s);
    assert r.thmain[s] in r.group;
    assert forall x :: x in r.free ==> x !in r.group;
    Positive(r, s);
  }

  /** Stack regions of two threads of a process have no address in common. */
  lemma StacksApart(t: Table, a: int, b: int, x: int)
    requires Inv(t) && a in t.group && b in t.group && t.group[a] == t.group[b] && a != b
    ensures a in t.ustack && b in t.ustack
    ensures !(Bottom(t.ustack[a]) <= x < Top(t.ustack[a]) && Bottom(t.ustack[b]) <= x < Top(t.ustack[b]))
  {
    var p := t.group[a];
    assert ThreadOk(t, a) && ThreadOk(t, b) && RingOk(t, p);
    var q := t.ring[p];
    var i :| 0 <= i < |q| && q[i] == a;
    var j :| 0 <= j < |q| && q[j] == b;
    assert i < j ==> After(t, q, i, j);
    assert j < i ==> After(t, q, j, i);
  }

  lemma LastIsGreatest(t: Table, s: int)
    requires Inv(t) && s in t.group
    ensures s in t.tid && t.group[s] in t.ring
    ensures var q := t.ring[t.group[s]]; q != [] && q[|q| - 1] in t.tid && t.tid[s] <= t.tid[q[|q| - 1]]
  {
    var p := t.group[s];
    assert ThreadOk(t, s) && RingOk(t, p);
    var q := t.ring[p];
    assert q[|q| - 1] in q && ThreadOk(t, q[|q| - 1]);
    var i :| 0 <= i < |q| && q[i] == s;
    assert i < |q| - 1 ==> After(t, q, i, |q| - 1);
  }

  lemma ExitLinks(t: Table, cur: int, links: map<int, int>)
    requires Inv(t) && cur in t.group && links.Keys == t.thmain.Keys
    requires t.group[cur] in t.ring
    requires forall s :: s in t.group ==> (s in t.ring[t.group[cur]] <==> t.group[s] == t.group[cur])
    requires forall s :: s in links ==>
      links[s] == if s in t.ring[t.group[cur]] && t.thmain[s] == cur then t.group[cur] else t.thmain[s]
    ensures links == DoExit(t, cur).thmain
  {
    var m := DoExit(t, cur).thmain;
    assert RingOk(t, t.group[cur]);
    assert m.Keys == links.Keys;
    forall s | s in m ensures m[s] == links[s] { }
    assert m == links;
  }

  /** threads_apply1(cur, __routine_handle_orphan_thread, cur) over the ring `q`. */
  method HandOver(q: seq<int>, thmain: map<int, int>, cur: int, m: int) returns (links: map<int, int>)
    requires forall i :: 0 <= i < |q| ==> q[i] in thmain
    ensures links.Keys == thmain.Keys
    ensures forall s :: s in links ==> links[s] == if s in q && thmain[s] == cur then m else thmain[s]
  {
    links := thmain;
    for i := 0 to |q|
      invariant links.Keys == thmain.Keys
      invariant forall s :: s in links ==> links[s] == if s in q[..i] && thmain[s] == cur then m else thmain[s]
    {
      assert q[..i + 1] == q[..i] + [q[i]];
      if links[q[i]] == cur {
        links := links[q[i] := m];
      }
    }
    assert q[..|q|] == q;
  }

  class Threads {
    var t: Table

    constructor (slots: seq<int>)
      requires Distinct(slots)
      ensures Inv(t) && t == Init(slots)
    {
      t := Init(slots);
    }

    /** main_thread. */
    method MainThread(s: int) returns (m: int)
      requires Inv(t) && s in t.group
      ensures m == t.group[s] && m in t.tid && t.tid[m] == MAIN
    {
      m := s;
      assert ThreadOk(t, m);
      while m != t.thmain[m]
        invariant m in t.group && t.group[m] == t.group[s] && ThreadOk(t, m)
        decreases Rank(t, m)
      {
        Positive(t, m);
        m := t.thmain[m];
        assert ThreadOk(t, m);
      }
      Positive(t, m);
    }

    /** thread_create; `stack` says whether the stack could be allocated. */
    method ThreadCreate(cur: int, stack: bool) returns (tid: int)
      requires Inv(t) && cur in t.group && cur !in t.zombie
      modifies this
      ensures Inv(t) && (tid == -1 <==> old(t).free == [] || !stack)
      ensures tid == -1 ==> t == old(t)
      ensures tid != -1 ==> Enabled(old(t), Create(cur)) && t == Do(old(t), Create(cur))
      ensures tid != -1 ==> forall s :: s in old(t).group && s in old(t).tid && old(t).group[s] == old(t).group[cur] ==> old(t).tid[s] < tid
    {
      var m := MainThread(cur);
      assert RingOk(t, m);
      ghost var t0 := t;
      if t.free == [] { return -1; }
      KeepInv(t, Create(cur));
      CreatedLast(t, cur);
      var last := t.ring[m][|t.ring[m]| - 1];
      assert last in t.ring[m] && ThreadOk(t, last);
      var s := t.free[0];
      var sp := PageDown(t.ustack[last]) - PGSIZE;
      if !stack { return -1; }
      tid := t.tid[last] + 1;
      t := Table(t.free[1..], t.nproc - 1, t.ring[m := t.ring[m] + [s]], t.group[s := m], t.tid[s := tid],
                 t.ustack[s := sp - USTACKSIZE], t.thmain[s := cur], t.zombie - {s});
      forall x | x in t0.group && t0.group[x] == m ensures x in t0.tid && t0.tid[x] < tid { LastIsGreatest(t0, x); }
      Positive(t0, last);
    }

    /** thread_exit: the loop hands the threads that `cur` created to the main thread. */
    method ThreadExit(cur: int)
      requires Inv(t) && Enabled(t, Exit(cur))
      modifies this
      ensures Inv(t) && t == Do(old(t), Exit(cur))
    {
      KeepInv(t, Exit(cur));
      var m := MainThread(cur);
      assert RingOk(t, m) && ThreadOk(t, cur);
      var q := t.ring[m];
      forall i | 0 <= i < |q| ensures q[i] in t.thmain { assert q[i] in q && ThreadOk(t, q[i]); }
      var links := HandOver(q, t.thmain, cur, m);
      forall s | s in t.group ensures s in q <==> t.group[s] == m { assert ThreadOk(t, s); }
      ExitLinks(t, cur, links);
      t := t.(thmain := links, zombie := t.zombie + {cur});
    }

    /** thread_join's search: the thread of this process with the given tid. */
    method GetThread(cur: int, tid: int) returns (found: bool, s: int)
      requires Inv(t) && cur in t.group
      ensures found ==> s in t.group && t.group[s] == t.group[cur] && s in t.tid && t.tid[s] == tid
      ensures !found ==> forall x :: x in t.group && x in t.tid && t.group[x] == t.group[cur] ==> t.tid[x] != tid
    {
      var m := MainThread(cur);
      assert RingOk(t, m);
      var q := t.ring[m];
      for i := 0 to |q|
        invariant forall k :: 0 <= k < i ==> q[k] in t.tid && t.tid[q[k]] != tid
      {
        assert q[i] in q && ThreadOk(t, q[i]);
        if t.tid[q[i]] == tid { return true, q[i]; }
      }
      forall x | x in t.group && t.group[x] == m ensures x in t.tid && t.tid[x] != tid {
        assert ThreadOk(t, x);
        var k :| 0 <= k < |q| && q[k] == x;
      }
      found, s := false, NONE;
    }
  }
}
