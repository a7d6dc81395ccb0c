/** The log under the file system: whatever is on disk after a crash and a completed recovery is what
    the file system saw at a moment when no system call was under way. So the files are in order after
    every crash, and have the contents that the committed calls have left. */
module CrashConsistency {
  import opened Blocks
  import opened RedoLog
  import opened LogMachine
  import FileIndex
  import FileSystem

  /** The contents of the home blocks. */
  type Home = map<int, Block>

  /** The last open operation ends: nothing is half done. */
  predicate Rests(s: State, e: Event) { e.End? && s.phase.Running? && |s.ops| == 1 }

  /** What the file system sees at such moments of a run. */
  ghost function Restful(s: State, es: seq<Event>): set<Home>
    requires CanRun(s, es)
    decreases |es|
  {
    if es == [] then {}
    else (if Rests(s, es[0]) then {ViewMap(s)} else {}) + Restful(Do(s, es[0]), es[1..])
  }

  /** What is durable, and what a commit under way is making durable, is in `seen`. */
  ghost predicate Kept(s: State, seen: set<Home>) {
    s.disk.Valid() && DurableMap(s.disk) in seen && (s.phase.Committing? ==> ViewMap(s) in seen)
  }

  lemma KeptEnd(s: State, init: Home, i: nat, seen: set<Home>)
    requires Inv(s, init) && Enabled(s, End(i)) && Kept(s, seen) && (Rests(s, End(i)) ==> ViewMap(s) in seen)
    ensures Kept(Do(s, End(i)), seen)
  {
    if s.phase.Running? { assert ViewMap(Do(s, End(i))) == ViewMap(s); }
  }

  lemma KeptCommitWrite(s: State, init: Home, seen: set<Home>)
    requires Inv(s, init) && s.phase.Committing? && Enabled(s, DiskWrite) && Kept(s, seen)
    ensures Kept(Do(s, DiskWrite), seen)
  {
    var t := Do(s, DiskWrite);
    KeepCommitWrite(s, init);
    CommittingView(s);
    CommittingView(t);
    CommitStepDisk(s);
  }

  lemma KeptStep(s: State, init: Home, e: Event, seen: set<Home>)
    requires Inv(s, init) && Enabled(s, e) && Kept(s, seen) && (Rests(s, e) ==> ViewMap(s) in seen)
    ensures Kept(Do(s, e), seen)
  {
    match e
    case Begin =>
    case LogWrite(i, b, x) =>
    case End(i) => KeptEnd(s, init, i, seen);
    case DiskWrite =>
      if s.phase.Recovering? { RecoveryStep(s.phase.from, s.phase.k); } else { KeptCommitWrite(s, init, seen); }
    case Finish =>
    case Load(b) => CacheMoveView(s, e);
    case Evict(b) => CacheMoveView(s, e);
    case Crash =>
  }

  lemma {:induction false} KeptOverRun(s: State, init: Home, es: seq<Event>, seen: set<Home>)
    requires Inv(s, init) && CanRun(s, es) && Kept(s, seen) && Restful(s, es) <= seen
    ensures Kept(Exec(s, es), seen)
    decreases |es|
  {
    if es == [] {
    } else {
      KeptStep(s, init, es[0], seen);
      Keep(s, init, es[0]);
      KeptOverRun(Do(s, es[0]), init, es[1..], seen);
    }
  }

  /** Every run, with crashes anywhere: what a recovery finds is what was there at the start, or what
      the file system saw when no operation was open. */
  lemma RecoversRest(d: LogDisk, size: nat, es: seq<Event>)
    requires DiskOk(d, size) && CanRun(Boot(d, size), es)
    ensures var s := Exec(Boot(d, size), es);
            var seen := {DurableMap(d)} + Restful(Boot(d, size), es);
            && s.disk.Valid() && DurableMap(s.disk) in seen && (s.phase.Running? ==> s.disk.home in seen)
  {
    var s0 := Boot(d, size);
    BootInv(d, size);
    KeptOverRun(s0, DurableMap(d), es, {DurableMap(d)} + Restful(s0, es));
    RunsAreAtomic(d, size, es);
  }

  /** So whatever holds of the blocks at the start and at those moments holds after every recovery. */
  lemma RecoversAny(ok: Home -> bool, d: LogDisk, size: nat, es: seq<Event>)
    requires DiskOk(d, size) && CanRun(Boot(d, size), es) && ok(DurableMap(d))
    requires forall m :: m in Restful(Boot(d, size), es) ==> ok(m)
    ensures var s := Exec(Boot(d, size), es);
            var home := ReplayGroups(DurableMap(d), s.hist.groups);
            && s.disk.Valid() && DurableMap(s.disk) == home && ok(home) && (s.phase.Running? ==> s.disk.home == home)
  {
    RecoversRest(d, size, es);
    RunsAreAtomic(d, size, es);
  }

  // ---------- the files in the blocks ----------

  const IPB := 8           // inodes per block
  const DINODE := 64       // bytes of an inode on disk

  /** Where mkfs put things: `meta` blocks of metadata, with inodes from block `inodes` on and the bitmap
      from block `bitmap` on. */
  datatype Layout = Layout(size: nat, meta: nat, inodes: nat, ninodes: nat, bitmap: nat)

  function BlockAt(m: Home, b: int): (x: Block)
    ensures x.Valid()
  {
    if b in m && m[b].Valid() then m[b] else Zero()
  }

  function DiskOf(l: Layout, m: Home): seq<Block> { seq(l.size, b => BlockAt(m, b)) }

  function BitmapOf(l: Layout, m: Home): seq<bv8> {
    seq((l.size + 7) / 8, i requires 0 <= i =>
      var x := BlockAt(m, l.bitmap + i / BSIZE).bytes[i % BSIZE];
      if 0 <= x < 256 then x as bv8 else 0)
  }

  /** Word `i` of inode `p` on disk: type and link count, size, and the block addresses. */
  function InodeWord(l: Layout, m: Home, p: int, i: int): int
    requires 0 <= p && 0 <= i < DINODE / 4
  {
    Word(BlockAt(m, l.inodes + p / IPB), p % IPB * (DINODE / 4) + i)
  }

  predicate InUse(l: Layout, m: Home, p: int) { 0 <= p < l.ninodes && InodeWord(l, m, p, 0) % 0x1_0000 != 0 }

  ghost function AddrsOf(l: Layout, m: Home): map<int, seq<int>> {
    map p | 0 <= p < l.ninodes && InUse(l, m, p) ::
      seq(FileIndex.NADDRS, i requires 0 <= i < FileIndex.NADDRS => InodeWord(l, m, p, 3 + i))
  }

  ghost function SizesOf(l: Layout, m: Home): map<int, int> {
    map p | 0 <= p < l.ninodes && InUse(l, m, p) :: InodeWord(l, m, p, 2)
  }

  /** The files in the blocks are in order: trees of their own, sizes that fit, an exact bitmap. */
  ghost predicate FilesIn(l: Layout, m: Home) {
    FileSystem.FilesOk(DiskOf(l, m), BitmapOf(l, m), AddrsOf(l, m), l.meta, SizesOf(l, m))
  }

  // ---------- calls of the file system ----------

  datatype Call = Write(p: int, off: int, src: seq<int>) | Truncate(p: int)

  /** The bytes of every file. */
  type Contents = map<int, seq<int>>

  ghost function ContentsOf(l: Layout, m: Home): Contents {
    Bytewise(DiskOf(l, m), AddrsOf(l, m), SizesOf(l, m))
  }

  ghost function Bytewise(d: seq<Block>, ino: FileSystem.Inodes, sizes: map<int, int>): Contents {
    map p | p in ino :: FileSystem.Bytes(d, ino, p, if p in sizes && sizes[p] >= 0 then sizes[p] else 0)
  }

  /** What a call makes of the files. */
  function Effect(c: Contents, call: Call): Contents {
    match call
    case Write(p, off, src) =>
      if p in c && 0 <= off <= |c[p]| then c[p := FileSystem.Splice(c[p], off, src)] else c
    case Truncate(p) => if p in c then c[p := []] else c
  }

  function EffectAll(c: Contents, calls: seq<Call>): Contents
    decreases |calls|
  {
    if calls == [] then c else EffectAll(Effect(c, calls[0]), calls[1..])
  }

  /** From blocks `m` to blocks `n` writei or itrunc was done, as FileSystem promises them. */
  ghost predicate Made(l: Layout, m: Home, n: Home, call: Call) {
    var d, ino, sizes := DiskOf(l, m), AddrsOf(l, m), SizesOf(l, m);
    var e, bits, ino', sizes' := DiskOf(l, n), BitmapOf(l, n), AddrsOf(l, n), SizesOf(l, n);
    match call
    case Write(p, off, src) => FileSystem.DidWrite(d, ino, sizes, e, bits, ino', sizes', l.meta, p, off, src)
    case Truncate(p) => FileSystem.DidTrunc(d, ino, sizes, e, bits, ino', sizes', l.meta, p)
  }

  lemma MadeIs(l: Layout, m: Home, n: Home, call: Call)
    requires FilesIn(l, m) && Made(l, m, n, call)
    ensures FilesIn(l, n) && ContentsOf(l, n) == Effect(ContentsOf(l, m), call)
  {
    var d, ino, sizes := DiskOf(l, m), AddrsOf(l, m), SizesOf(l, m);
    var e, ino', sizes' := DiskOf(l, n), AddrsOf(l, n), SizesOf(l, n);
    match call
    case Write(p, off, src) => WriteIs(d, ino, sizes, e, BitmapOf(l, n), ino', sizes', l.meta, p, off, src);
    case Truncate(p) => TruncIs(d, ino, sizes, e, BitmapOf(l, n), ino', sizes', l.meta, p);
  }

  lemma WriteIs(d: seq<Block>, ino: FileSystem.Inodes, sizes: map<int, int>,
                e: seq<Block>, bits: seq<bv8>, ino': FileSystem.Inodes, sizes': map<int, int>, meta: int, p: int, off: int, src: seq<int>)
    requires FileSystem.DidWrite(d, ino, sizes, e, bits, ino', sizes', meta, p, off, src)
    ensures Bytewise(e, ino', sizes') == Effect(Bytewise(d, ino, sizes), Write(p, off, src))
  {
    var c, x := Bytewise(e, ino', sizes'), Effect(Bytewise(d, ino, sizes), Write(p, off, src));
    assert c.Keys == x.Keys;
    forall q | q in c ensures c[q] == x[q] { assert q in ino && q in sizes && q in sizes'; }
  }

  lemma TruncIs(d: seq<Block>, ino: FileSystem.Inodes, sizes: map<int, int>,
                e: seq<Block>, bits: seq<bv8>, ino': FileSystem.Inodes, sizes': map<int, int>, meta: int, p: int)
    requires FileSystem.DidTrunc(d, ino, sizes, e, bits, ino', sizes', meta, p)
    ensures Bytewise(e, ino', sizes') == Effect(Bytewise(d, ino, sizes), Truncate(p))
  {
    var c, x := Bytewise(e, ino', sizes'), Effect(Bytewise(d, ino, sizes), Truncate(p));
    assert c.Keys == x.Keys;
    forall q | q in c ensures c[q] == x[q] { assert q in ino && q in sizes && q in sizes'; }
  }

  /** The same for calls one after another. */
  ghost predicate MadeAll(l: Layout, m: Home, n: Home, calls: seq<Call>)
    decreases |calls|
  {
    if calls == [] then m == n
    else exists mid :: Made(l, m, mid, calls[0]) && MadeAll(l, mid, n, calls[1..])
  }

  lemma {:induction false} MadeAllIs(l: Layout, m: Home, n: Home, calls: seq<Call>)
    requires FilesIn(l, m) && MadeAll(l, m, n, calls)
    ensures FilesIn(l, n) && ContentsOf(l, n) == EffectAll(ContentsOf(l, m), calls)
    decreases |calls|
  {
    if calls == [] {
    } else {
      var mid :| Made(l, m, mid, calls[0]) && MadeAll(l, mid, n, calls[1..]);
      MadeIs(l, m, mid, calls[0]);
      MadeAllIs(l, mid, n, calls[1..]);
    }
  }

  lemma {:induction false} EffectAppend(c: Contents, a: seq<Call>, b: seq<Call>)
    ensures EffectAll(c, a + b) == EffectAll(EffectAll(c, a), b)
    decreases |a|
  {
    if a == [] {
      assert a + b == b;
    } else {
      assert (a + b)[0] == a[0] && (a + b)[1..] == a[1..] + b;
      EffectAppend(Effect(c, a[0]), a[1..], b);
    }
  }

  // ---------- which calls survive ----------

  /** The operations of each group have done the calls of the next list in `gs`, in some order one
      after another. */
  ghost predicate Serves(l: Layout, s: State, es: seq<Event>, gs: seq<seq<Call>>)
    requires CanRun(s, es)
    decreases |es|
  {
    if es == [] then true
    else if Rests(s, es[0]) then
      gs != [] && MadeAll(l, s.disk.home, ViewMap(s), gs[0]) && Serves(l, Do(s, es[0]), es[1..], gs[1..])
    else Serves(l, Do(s, es[0]), es[1..], gs)
  }

  /** The group is durable from this step on: its header is written, or there is nothing to write. */
  predicate CommitPoint(s: State, e: Event) {
    s.phase.Committing? && if s.lh == [] then e.Finish? else e.DiskWrite? && s.phase.k == |s.lh|
  }

  /** The calls that a run makes durable; `open` are those of a group whose commit is under way. */
  ghost function Survive(s: State, es: seq<Event>, gs: seq<seq<Call>>, open: seq<Call>): seq<Call>
    requires CanRun(s, es)
    decreases |es|
  {
    if es == [] then []
    else
      var n := Do(s, es[0]);
      if Rests(s, es[0]) && gs != [] then Survive(n, es[1..], gs[1..], gs[0])
      else if CommitPoint(s, es[0]) then open + Survive(n, es[1..], gs, [])
      else Survive(n, es[1..], gs, if es[0].Crash? then [] else open)
  }

  /** The files on disk are in order, and the calls of the group being committed lead from them to
      what readers see. */
  ghost predicate InOrder(l: Layout, s: State, open: seq<Call>) {
    && s.disk.Valid() && FilesIn(l, DurableMap(s.disk))
    && (s.phase.Committing? ==>
          FilesIn(l, ViewMap(s)) && ContentsOf(l, ViewMap(s)) == EffectAll(ContentsOf(l, DurableMap(s.disk)), open))
  }

  lemma RestMoves(s: State, init: Home, e: Event)
    requires Inv(s, init) && Enabled(s, e) && Rests(s, e)
    ensures var t := Do(s, e); t.disk == s.disk && s.disk.Valid() && DurableMap(s.disk) == s.disk.home && ViewMap(t) == ViewMap(s)
  {
  }

  lemma OrderRests(l: Layout, s: State, t: State, open: seq<Call>)
    requires s.disk.Valid() && FilesIn(l, DurableMap(s.disk)) && MadeAll(l, s.disk.home, ViewMap(s), open)
    requires t.disk == s.disk && DurableMap(s.disk) == s.disk.home && ViewMap(t) == ViewMap(s)
    ensures InOrder(l, t, open)
  {
    MadeAllIs(l, s.disk.home, ViewMap(s), open);
  }

  /** A block write of commit: what readers see stays, and is durable from the header on. */
  lemma CommitMoves(s: State, init: Home)
    requires Inv(s, init) && s.phase.Committing? && Enabled(s, DiskWrite)
    ensures var t := Do(s, DiskWrite);
      && t.disk.Valid() && ViewMap(t) == ViewMap(s)
      && DurableMap(t.disk) == if s.phase.k == |s.lh| then ViewMap(s) else DurableMap(s.disk)
  {
    KeepCommitWrite(s, init);
    CommittingView(s);
    CommittingView(Do(s, DiskWrite));
    CommitStepDisk(s);
  }

  lemma OrderCommits(l: Layout, s: State, init: Home, e: Event, open: seq<Call>)
    requires Inv(s, init) && Enabled(s, e) && CommitPoint(s, e) && InOrder(l, s, open)
    ensures var t := Do(s, e);
      && t.disk.Valid() && InOrder(l, t, [])
      && ContentsOf(l, DurableMap(t.disk)) == EffectAll(ContentsOf(l, DurableMap(s.disk)), open)
  {
    if e.DiskWrite? {
      CommitMoves(s, init);
    } else {
      CommittingView(s);
      CommitAtomic(s.phase.from, s.lh, s.phase.data, s.phase.k);
    }
  }

  /** Any other step. */
  lemma OrderStays(l: Layout, s: State, init: Home, e: Event, open: seq<Call>)
    requires Inv(s, init) && Enabled(s, e) && !Rests(s, e) && !CommitPoint(s, e) && InOrder(l, s, open)
    ensures var t := Do(s, e);
      && t.disk.Valid() && DurableMap(t.disk) == DurableMap(s.disk) && InOrder(l, t, if e.Crash? then [] else open)
  {
    match e
    case Begin =>
    case LogWrite(i, b, x) =>
    case End(i) =>
    case DiskWrite => if s.phase.Recovering? { RecoveryStep(s.phase.from, s.phase.k); } else { CommitMoves(s, init); }
    case Finish =>
    case Load(b) => CacheMoveView(s, e);
    case Evict(b) => CacheMoveView(s, e);
    case Crash =>
  }

  lemma {:induction false} SurviveFrom(l: Layout, s: State, init: Home, es: seq<Event>, gs: seq<seq<Call>>, open: seq<Call>)
    requires Inv(s, init) && CanRun(s, es) && Serves(l, s, es, gs) && InOrder(l, s, open)
    ensures var r := Exec(s, es);
      && r.disk.Valid() && FilesIn(l, DurableMap(r.disk))
      && ContentsOf(l, DurableMap(r.disk)) == EffectAll(ContentsOf(l, DurableMap(s.disk)), Survive(s, es, gs, open))
    decreases |es|
  {
    if es == [] {
    } else {
      var e, t := es[0], Do(s, es[0]);
      Keep(s, init, e);
      if Rests(s, e) {
        RestMoves(s, init, e);
        OrderRests(l, s, t, gs[0]);
        SurviveFrom(l, t, init, es[1..], gs[1..], gs[0]);
      } else if CommitPoint(s, e) {
        OrderCommits(l, s, init, e, open);
        SurviveFrom(l, t, init, es[1..], gs, []);
        EffectAppend(ContentsOf(l, DurableMap(s.disk)), open, Survive(t, es[1..], gs, []));
      } else {
        OrderStays(l, s, init, e, open);
        SurviveFrom(l, t, init, es[1..], gs, if e.Crash? then [] else open);
      }
    }
  }

  /** Crash consistency: over every run of groups of calls of the file system, with crashes anywhere,
      the files that a recovery finds are in order, and they are what the calls of the committed
      groups, one after another, make of the files at the start. */
  lemma CrashConsistent(l: Layout, d: LogDisk, size: nat, es: seq<Event>, gs: seq<seq<Call>>)
    requires DiskOk(d, size) && CanRun(Boot(d, size), es) && FilesIn(l, DurableMap(d)) && Serves(l, Boot(d, size), es, gs)
    ensures var s := Exec(Boot(d, size), es);
            && s.disk.Valid() && FilesIn(l, DurableMap(s.disk))
            && ContentsOf(l, DurableMap(s.disk))
               == EffectAll(ContentsOf(l, DurableMap(d)), Survive(Boot(d, size), es, gs, []))
            && (s.phase.Running? ==> s.disk.home == DurableMap(s.disk))
  {
    BootInv(d, size);
    SurviveFrom(l, Boot(d, size), DurableMap(d), es, gs, []);
    RunsAreAtomic(d, size, es);
  }
}
