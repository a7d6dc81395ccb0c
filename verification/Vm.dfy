/** User address spaces of vm.c: growing and shrinking one, freeing it, and copying it for fork.
    Sizes are in bytes, pages are numbered; a method that fails may leave new, empty page
    tables in the directory, as the source does. */
module Vm {
  import opened PageTables
  import opened FrameCount
  import opened CopyPlan
  import Lists

  const PGSIZE := 4096
  const KERNBASE := 0x8000_0000
  const PTE_W := 2
  const PTE_U := 4

  /** PGROUNDUP(sz) / PGSIZE. */
  function Pages(sz: int): int { (sz + PGSIZE - 1) / PGSIZE }

  /** The frame is free or in use as something. */
  predicate Has(m: Mem, f: int) { f in m.free || f in m.dirs || f in m.tables || f in m.data }

  /** No frame is lost or made up. */
  ghost predicate Conserved(m: Mem, r: Mem) { forall f :: Has(m, f) <==> Has(r, f) }

  // ---------- deallocuvm ----------

  function DeallocPage(m: Mem, d: int, v: int): (r: Mem)
    requires d in m.dirs
    ensures r.dirs == m.dirs
  {
    if Look(m, d, v).Some? then Unmap(m, d, v) else m
  }

  /** Page by page. */
  ghost function Dealloc(m: Mem, d: int, lo: int, hi: int): (r: Mem)
    requires d in m.dirs
    ensures r.dirs == m.dirs
    decreases hi - lo
  {
    if lo >= hi then m else Dealloc(DeallocPage(m, d, lo), d, lo + 1, hi)
  }

  /** Frame `f` is mapped at a page from `lo` to `hi`. */
  ghost predicate MappedIn(m: Mem, d: int, lo: int, hi: int, f: int)
    requires d in m.dirs
  {
    exists v :: lo <= v < hi && Look(m, d, v).Some? && Look(m, d, v).value.frame == f
  }

  /** `r` is `m` without the pages of `d` from `lo` to `hi`, their frames returned. */
  ghost predicate Shrunk(m: Mem, r: Mem, d: int, lo: int, hi: int)
    requires d in m.dirs
  {
    && r.dirs == m.dirs && r.tables.Keys == m.tables.Keys && Conserved(m, r)
    && (forall v :: lo <= v < hi ==> Look(r, d, v) == None)
    && (forall c, v :: c in m.dirs && (c != d || !(lo <= v < hi)) ==> SameLook(m, r, c, v))
    && (forall f :: f in r.data <==> f in m.data && !MappedIn(m, d, lo, hi, f))
    && (forall f :: f in r.data ==> r.data[f] == m.data[f])
  }

  lemma UnmapShrinks(m: Mem, d: int, v: int)
    requires Inv(m) && d in m.dirs && Look(m, d, v).Some?
    ensures Shrunk(m, Unmap(m, d, v), d, v, v + 1)
  {
    UnmapOk(m, d, v);
    var n, f := Unmap(m, d, v), Look(m, d, v).value.frame;
    assert n.free[0] == f && n.free[1..] == m.free;
    assert forall g :: g in n.free <==> g == f || g in m.free;
    assert n.tables.Keys == m.tables.Keys;
    var w := v + 1;
    assert forall g :: MappedIn(m, d, v, w, g) <==> g == f;
  }

  lemma {:induction false} DeallocOk(m: Mem, d: int, lo: int, hi: int)
    requires Inv(m) && d in m.dirs && lo <= hi
    ensures Inv(Dealloc(m, d, lo, hi)) && Shrunk(m, Dealloc(m, d, lo, hi), d, lo, hi)
    decreases hi - lo
  {
    if lo < hi {
      var n := DeallocPage(m, d, lo);
      if Look(m, d, lo).Some? {
        UnmapOk(m, d, lo);
        UnmapShrinks(m, d, lo);
      }
      DeallocOk(n, d, lo + 1, hi);
      ShrunkTwice(m, n, Dealloc(m, d, lo, hi), d, lo, lo + 1, hi);
    }
  }

  lemma ShrunkTwice(m: Mem, n: Mem, r: Mem, d: int, lo: int, mid: int, hi: int)
    requires d in m.dirs && d in n.dirs && lo <= mid <= hi && Shrunk(m, n, d, lo, mid) && Shrunk(n, r, d, mid, hi)
    ensures Shrunk(m, r, d, lo, hi)
  {
    forall f ensures MappedIn(m, d, lo, hi, f) <==> MappedIn(m, d, lo, mid, f) || MappedIn(n, d, mid, hi, f) {
      if v :| lo <= v < hi && Look(m, d, v).Some? && Look(m, d, v).value.frame == f {
        assert v >= mid ==> SameLook(m, n, d, v);
      }
      if v :| mid <= v < hi && Look(n, d, v).Some? && Look(n, d, v).value.frame == f {
        assert SameLook(m, n, d, v);
      }
    }
    forall c, v | c in m.dirs && (c != d || !(lo <= v < hi)) ensures SameLook(m, r, c, v) {
      assert SameLook(m, n, c, v) && SameLook(n, r, c, v);
    }
    forall v | lo <= v < hi ensures Look(r, d, v) == None {
      assert v < mid ==> SameLook(n, r, d, v);
    }
  }

  /** Pages that are not mapped can be skipped. */
  lemma {:induction false} Skip(m: Mem, d: int, v: int, w: int, hi: int)
    requires d in m.dirs && v <= w && forall u :: v <= u < w ==> Look(m, d, u) == None
    ensures Dealloc(m, d, v, hi) == Dealloc(m, d, w, hi)
    decreases w - v
  {
    if v < w && v < hi {
      assert Look(m, d, v) == None;
      Skip(m, d, v + 1, w, hi);
    }
  }

  /** deallocuvm's jump: nothing is mapped up to the next directory entry. */
  lemma Jump(m: Mem, d: int, v: int, hi: int)
    requires d in m.dirs && v >= 0 && Pdx(v) !in m.dirs[d]
    ensures var w := (Pdx(v) + 1) * NPTENTRIES; v < w && Dealloc(m, d, v, hi) == Dealloc(m, d, w, hi)
  {
    var w := (Pdx(v) + 1) * NPTENTRIES;
    forall u | v <= u < w ensures Look(m, d, u) == None { assert Pdx(u) == Pdx(v); }
    Skip(m, d, v, w, hi);
  }

  // ---------- adding pages ----------

  datatype Outcome = Ok | NoMemory | Panic

  /** What a page is to be mapped as. */
  datatype Want = Want(flags: int, page: Page)

  ghost predicate PointedBy(m: Mem, d: int, t: int) { exists i :: Points(m, d, i, t) }

  /** Page `u` of `d` is mapped as wanted, to a frame that was not a page before. */
  ghost predicate NewPage(m0: Mem, m: Mem, d: int, u: int, w: Want) {
    && d in m0.dirs && d in m.dirs && Look(m0, d, u) == None && Look(m, d, u).Some?
    && var e := Look(m, d, u).value; e.flags == w.flags && e.frame !in m0.data && e.frame in m.data && m.data[e.frame] == w.page
  }

  /** New page tables hang on `d`. */
  ghost predicate NewTables(m0: Mem, m: Mem, d: int) {
    && (forall t :: t in m.tables ==> t in m0.tables || PointedBy(m, d, t))
    && (forall t :: t in m0.tables ==> t in m.tables && (PointedBy(m, d, t) <==> PointedBy(m0, d, t)))
  }

  /** New pages are those wanted. */
  ghost predicate NewData(m0: Mem, m: Mem, d: int, want: map<int, Want>)
    requires d in m.dirs
  {
    && (forall f :: f in m0.data ==> f in m.data && m.data[f] == m0.data[f])
    && (forall f :: f in m.data && f !in m0.data ==> exists u :: u in want && Look(m, d, u).Some? && Look(m, d, u).value.frame == f)
  }

  /** `m` is `m0` with the pages of `want` added to `d`, and nothing else changed. */
  ghost predicate Filled(m0: Mem, m: Mem, d: int, want: map<int, Want>) {
    && d in m0.dirs && m.dirs.Keys == m0.dirs.Keys && Conserved(m0, m) && NewTables(m0, m, d) && NewData(m0, m, d, want)
    && (forall u :: u in want ==> NewPage(m0, m, d, u, want[u]))
    && (forall c, u :: c in m0.dirs && (c != d || u !in want) ==> SameLook(m0, m, c, u))
  }

  /** The pages of `want` are those of `w0` and those from `lo` to `hi`. */
  ghost predicate Extends(want: map<int, Want>, w0: map<int, Want>, lo: int, hi: int) {
    forall u :: u in want <==> u in w0 || lo <= u < hi
  }

  lemma ExtendsNext(want: map<int, Want>, w0: map<int, Want>, lo: int, v: int, w: Want)
    requires Extends(want, w0, lo, v) && lo <= v
    ensures Extends(want[v := w], w0, lo, v + 1)
  {
  }

  ghost predicate AllZero(want: map<int, Want>) {
    forall u :: u in want ==> want[u] == ZERO
  }

  lemma FilledStart(m: Mem, d: int)
    requires Inv(m) && d in m.dirs
    ensures Filled(m, m, d, map[])
  {
  }

  lemma DataSame(m0: Mem, m: Mem, n: Mem, d: int, want: map<int, Want>)
    requires d in m.dirs && d in n.dirs && NewData(m0, m, d, want) && n.data == m.data
    requires forall u :: u in want ==> SameLook(m, n, d, u)
    ensures NewData(m0, n, d, want)
  {
    forall f | f in n.data && f !in m0.data
      ensures exists u :: u in want && Look(n, d, u).Some? && Look(n, d, u).value.frame == f
    {
      var u :| u in want && Look(m, d, u).Some? && Look(m, d, u).value.frame == f;
      assert SameLook(m, n, d, u);
    }
  }

  /** A change that shows at no page. */
  lemma FilledSame(m0: Mem, m: Mem, n: Mem, d: int, want: map<int, Want>)
    requires Filled(m0, m, d, want) && n.dirs.Keys == m.dirs.Keys && n.data == m.data
    requires forall c, u :: c in m.dirs ==> SameLook(m, n, c, u)
    requires Conserved(m0, n) && NewTables(m0, n, d)
    ensures Filled(m0, n, d, want)
  {
    forall u | u in want ensures NewPage(m0, n, d, u, want[u]) {
      assert NewPage(m0, m, d, u, want[u]) && SameLook(m, n, d, u);
    }
    forall c, u | c in m0.dirs && (c != d || u !in want) ensures SameLook(m0, n, c, u) {
      assert SameLook(m0, m, c, u) && SameLook(m, n, c, u);
    }
    DataSame(m0, m, n, d, want);
  }

  lemma TableConserved(m: Mem, d: int, i: int)
    requires m.free != [] && d in m.dirs
    ensures Conserved(m, AddTable(m, d, i))
  {
    var n, t := AddTable(m, d, i), m.free[0];
    assert m.free == [t] + n.free;
    assert n.dirs.Keys == m.dirs.Keys;
  }

  lemma TableNew(m0: Mem, m: Mem, d: int, i: int)
    requires Inv(m) && NewTables(m0, m, d) && m.free != [] && d in m.dirs && i !in m.dirs[d]
    ensures NewTables(m0, AddTable(m, d, i), d)
  {
    var n, t := AddTable(m, d, i), m.free[0];
    assert t in m.free && t !in m.tables;
    assert forall k, u :: Points(n, d, k, u) <==> Points(m, d, k, u) || (k == i && u == t);
    assert Points(n, d, i, t);
    assert forall u :: PointedBy(n, d, u) <==> PointedBy(m, d, u) || u == t;
  }

  lemma SameNewTables(m0: Mem, m: Mem, n: Mem, d: int)
    requires NewTables(m0, m, d) && n.dirs == m.dirs && n.tables.Keys == m.tables.Keys
    ensures NewTables(m0, n, d)
  {
    assert forall i, t :: Points(n, d, i, t) <==> Points(m, d, i, t);
    assert forall t :: PointedBy(n, d, t) <==> PointedBy(m, d, t);
  }

  /** `m` with page `f` given back. */
  ghost function Back(m: Mem, f: int): Mem { m.(data := m.data - {f}, free := [f] + m.free) }

  /** All of Filled, but for a page `f` that nothing maps yet. */
  ghost predicate FilledBut(m0: Mem, m: Mem, d: int, want: map<int, Want>, f: int) {
    && f !in m0.data && f in m.data && (forall t, j :: !Maps(m, t, j, f))
    && Filled(m0, Back(m, f), d, want)
  }

  /** kalloc, and the page gets contents `x`. */
  lemma ButTaken(m0: Mem, m: Mem, d: int, want: map<int, Want>, x: Page)
    requires Inv(m) && Filled(m0, m, d, want) && m.free != []
    ensures Inv(TakePage(m, x)) && FilledBut(m0, TakePage(m, x), d, want, m.free[0])
  {
    TakePageOk(m, x);
    var n, f := TakePage(m, x), m.free[0];
    assert n.data - {f} == m.data && [f] + n.free == m.free;
    assert Back(n, f) == m;
  }

  /** kfree undoes kalloc. */
  lemma TakenBack(m: Mem, x: Page)
    requires Inv(m) && m.free != []
    ensures DropPage(TakePage(m, x), m.free[0]) == m
  {
    assert m.free[0] in m.free;
    var n := DropPage(TakePage(m, x), m.free[0]);
    assert n.free == m.free && n.data == m.data;
  }

  lemma ButTable(m0: Mem, n: Mem, d: int, want: map<int, Want>, f: int, i: int)
    requires Inv(n) && FilledBut(m0, n, d, want, f) && n.free != [] && i !in n.dirs[d] && 0 <= i < NPDENTRIES
    ensures Inv(AddTable(n, d, i)) && FilledBut(m0, AddTable(n, d, i), d, want, f)
  {
    var a := AddTable(n, d, i);
    var b, c := Back(n, f), Back(a, f);
    AddTableOk(n, d, i);
    SameNewTables(m0, b, n, d);
    TableNew(m0, n, d, i);
    SameNewTables(m0, a, c, d);
    ButConserved(m0, n, d, f, i);
    forall e, u | e in b.dirs ensures SameLook(b, c, e, u) { assert SameLook(n, a, e, u); }
    FilledSame(m0, b, c, d, want);
    assert forall t, j :: Maps(a, t, j, f) ==> Maps(n, t, j, f);
  }

  lemma ButConserved(m0: Mem, n: Mem, d: int, f: int, i: int)
    requires Conserved(m0, Back(n, f)) && f in n.data && n.free != [] && d in n.dirs
    ensures Conserved(m0, Back(AddTable(n, d, i), f))
  {
    TableConserved(n, d, i);
    var a := AddTable(n, d, i);
    assert forall g :: Has(Back(n, f), g) <==> Has(n, g);
    assert forall g :: Has(Back(a, f), g) <==> Has(a, g);
  }

  lemma ButMapped(m0: Mem, n: Mem, d: int, want: map<int, Want>, f: int, v: int, flags: int)
    requires Inv(n) && FilledBut(m0, n, d, want, f) && v !in want && Look(n, d, v) == None
    requires Pdx(v) in n.dirs[d] && n.dirs[d][Pdx(v)] in n.tables
    ensures Inv(SetPte(n, d, v, Pte(f, flags)))
    ensures Filled(m0, SetPte(n, d, v, Pte(f, flags)), d, want[v := Want(flags, n.data[f])])
  {
    var a, b, w := SetPte(n, d, v, Pte(f, flags)), Back(n, f), want[v := Want(flags, n.data[f])];
    SetPteOk(n, d, v, Pte(f, flags));
    assert forall e, u :: e in n.dirs && (e != d || u != v) ==> SameLook(n, a, e, u);
    assert SameLook(m0, b, d, v);
    forall u | u in w ensures NewPage(m0, a, d, u, w[u]) {
      if u != v {
        assert NewPage(m0, b, d, u, want[u]) && SameLook(n, a, d, u);
      }
    }
    forall e, u | e in m0.dirs && (e != d || u !in w) ensures SameLook(m0, a, e, u) {
      assert SameLook(m0, b, e, u) && SameLook(n, a, e, u);
    }
    MappedData(m0, n, a, d, want, f, v, flags);
    SameNewTables(m0, b, a, d);
    assert forall g :: Has(a, g) <==> Has(b, g);
  }

  lemma MappedData(m0: Mem, n: Mem, a: Mem, d: int, want: map<int, Want>, f: int, v: int, flags: int)
    requires d in n.dirs && d in a.dirs && NewData(m0, Back(n, f), d, want) && v !in want && f in n.data && f !in m0.data
    requires a.data == n.data && Look(a, d, v) == Some(Pte(f, flags)) && forall u :: u != v ==> SameLook(n, a, d, u)
    ensures NewData(m0, a, d, want[v := Want(flags, n.data[f])])
  {
    var b, w := Back(n, f), want[v := Want(flags, n.data[f])];
    forall g | g in a.data && g !in m0.data
      ensures exists u :: u in w && Look(a, d, u).Some? && Look(a, d, u).value.frame == g
    {
      if g == f {
        assert v in w;
      } else {
        var u :| u in want && Look(b, d, u).Some? && Look(b, d, u).value.frame == g;
        assert SameLook(n, a, d, u) && u in w;
      }
    }
  }

  // ---------- how many frames ----------

  /** The pages of `want` were added to `d`, which took frames from the free list. */
  ghost predicate Balanced(m0: Mem, m: Mem, d: int, want: map<int, Want>) {
    && d in m0.dirs && d in m.dirs
    && Adds(m0.dirs[d].Keys, m.dirs[d].Keys, want.Keys, |m0.free|, |m.free|)
  }

  lemma BalancedStart(m: Mem, d: int)
    requires d in m.dirs
    ensures Balanced(m, m, d, map[])
  {
    var none: map<int, Want> := map[];
    AddsNone(m.dirs[d].Keys, |m.free|);
    assert none.Keys == {};
  }

  lemma BalancedNext(m0: Mem, m: Mem, n: Mem, d: int, want: map<int, Want>, v: int, w: Want)
    requires Balanced(m0, m, d, want) && v !in want && d in n.dirs && n.dirs[d].Keys == m.dirs[d].Keys + {Pdx(v)}
    requires |n.free| == |m.free| - Cost(m.dirs[d].Keys, v)
    ensures Balanced(m0, n, d, want[v := w])
  {
    AddsNext(m0.dirs[d].Keys, m.dirs[d].Keys, want.Keys, |m0.free|, |m.free|, v);
    KeysNext(want, v, w);
  }

  lemma KeysNext(want: map<int, Want>, v: int, w: Want)
    ensures want[v := w].Keys == want.Keys + {v}
  {
  }

  /** The first page from `lo` on that is mapped, or `hi`. */
  ghost function FirstMapped(m: Mem, d: int, lo: int, hi: int): (k: int)
    requires d in m.dirs && lo <= hi
    ensures lo <= k <= hi && Unmapped(m, d, lo, k) && (k < hi ==> Look(m, d, k).Some?)
    decreases hi - lo
  {
    if lo == hi || Look(m, d, lo).Some? then lo else FirstMapped(m, d, lo + 1, hi)
  }

  /** The frames that allocuvm needs to fill pages `lo` to `hi` of `d`, or to get to the first that
      is already mapped and take a frame for it. */
  ghost function Needed(m: Mem, d: int, lo: int, hi: int): int
    requires d in m.dirs && lo <= hi
  {
    Taken(m.dirs[d].Keys, Run(lo, NeededTop(m, d, lo, hi)))
  }

  ghost function NeededTop(m: Mem, d: int, lo: int, hi: int): (top: int)
    requires d in m.dirs && lo <= hi
    ensures lo <= top <= hi
    ensures forall v :: lo <= v < hi && Unmapped(m, d, lo, v) ==> v < top
  {
    var k := FirstMapped(m, d, lo, hi);
    if k < hi then k + 1 else hi
  }

  /** With nothing in the way: the pages, and the page tables that are missing. */
  lemma NeededIs(m: Mem, d: int, lo: int, hi: int)
    requires d in m.dirs && lo <= hi && Unmapped(m, d, lo, hi)
    ensures Needed(m, d, lo, hi) == hi - lo + |Entries(Run(lo, hi)) - m.dirs[d].Keys|
  {
    var k := FirstMapped(m, d, lo, hi);
    assert k == hi;
    RunSize(lo, hi);
  }

  lemma WantIs(want: map<int, Want>, lo: int, hi: int)
    requires lo <= hi && Extends(want, map[], lo, hi)
    ensures want.Keys == Run(lo, hi)
  {
    forall u ensures u in want.Keys <==> u in Run(lo, hi) { InRun(lo, hi, u); }
  }

  lemma NeededAll(m0: Mem, m: Mem, d: int, lo: int, hi: int, want: map<int, Want>)
    requires Balanced(m0, m, d, want) && lo <= hi && Extends(want, map[], lo, hi) && Unmapped(m0, d, lo, hi)
    ensures |m.free| == |m0.free| - Needed(m0, d, lo, hi)
  {
    WantIs(want, lo, hi);
    var k := FirstMapped(m0, d, lo, hi);
    assert k == hi;
  }

  /** The loop of allocuvm at page `v`, with too few free frames for it. */
  lemma NeededMore(m0: Mem, m: Mem, d: int, lo: int, v: int, hi: int, want: map<int, Want>)
    requires Balanced(m0, m, d, want) && lo <= v < hi && Extends(want, map[], lo, v) && Unmapped(m0, d, lo, v)
    requires |m.free| < Cost(m.dirs[d].Keys, v)
    ensures |m0.free| < Needed(m0, d, lo, hi)
  {
    WantIs(want, lo, v);
    var top := NeededTop(m0, d, lo, hi);
    assert v < top;
    RunShort(m0.dirs[d].Keys, m.dirs[d].Keys, lo, v, top, |m0.free|, |m.free|);
  }

  /** The same with enough frames for page `v`, which is mapped already. */
  lemma NeededLess(m0: Mem, m: Mem, d: int, lo: int, v: int, hi: int, want: map<int, Want>)
    requires Balanced(m0, m, d, want) && lo <= v < hi && Extends(want, map[], lo, v) && Unmapped(m0, d, lo, v)
    requires |m.free| >= Cost(m.dirs[d].Keys, v) && Look(m0, d, v).Some?
    ensures |m0.free| >= Needed(m0, d, lo, hi)
  {
    WantIs(want, lo, v);
    assert NeededTop(m0, d, lo, hi) == v + 1;
    RunEnough(m0.dirs[d].Keys, m.dirs[d].Keys, lo, v, |m0.free|, |m.free|);
  }

  /** What allocuvm's loop has done when it comes to page `v`. */
  ghost predicate Grown(m0: Mem, m: Mem, d: int, lo: int, v: int, want: map<int, Want>) {
    Filled(m0, m, d, want) && GrownBook(m0, m, d, lo, v, want)
  }

  /** Which pages were added, and with how many frames. */
  ghost predicate GrownBook(m0: Mem, m: Mem, d: int, lo: int, v: int, want: map<int, Want>) {
    Balanced(m0, m, d, want) && Extends(want, map[], lo, v) && AllZero(want) && Unmapped(m0, d, lo, v)
  }

  const ZERO := Want(PTE_W + PTE_U, ZeroPage())

  lemma GrownNext(m0: Mem, m: Mem, n: Mem, d: int, lo: int, v: int, want: map<int, Want>)
    requires GrownBook(m0, m, d, lo, v, want) && lo <= v && Look(m0, d, v) == None
    requires d in n.dirs && n.dirs[d].Keys == m.dirs[d].Keys + {Pdx(v)} && |n.free| == |m.free| - Cost(m.dirs[d].Keys, v)
    ensures GrownBook(m0, n, d, lo, v + 1, want[v := ZERO])
  {
    BalancedNext(m0, m, n, d, want, v, ZERO);
    ExtendsNext(want, map[], lo, v, ZERO);
  }

  /** The mappings and the pages are as before; page tables may have been added. */
  ghost predicate Restored(m0: Mem, m: Mem) {
    && m.dirs.Keys == m0.dirs.Keys && m.data == m0.data && Conserved(m0, m)
    && forall c, u :: c in m0.dirs ==> SameLook(m0, m, c, u)
  }

  ghost predicate Unmapped(m: Mem, d: int, lo: int, hi: int)
    requires d in m.dirs
  {
    forall u :: lo <= u < hi ==> Look(m, d, u) == None
  }

  lemma RolledBackData(m0: Mem, m: Mem, r: Mem, d: int, want: map<int, Want>, lo: int, hi: int)
    requires Filled(m0, m, d, want) && (forall u :: u in want ==> lo <= u < hi)
    requires Unmapped(m0, d, lo, hi)
    requires forall f :: f in r.data <==> f in m.data && !MappedIn(m, d, lo, hi, f)
    requires forall f :: f in r.data ==> r.data[f] == m.data[f]
    ensures r.data == m0.data
  {
    forall v | lo <= v < hi && v !in want ensures Look(m, d, v) == None { assert SameLook(m0, m, d, v); }
    forall v | v in want ensures Look(m, d, v).Some? && Look(m, d, v).value.frame !in m0.data {
      assert NewPage(m0, m, d, v, want[v]);
    }
    forall f ensures f in r.data <==> f in m0.data {
      if f in m.data && f !in m0.data {
        var u :| u in want && Look(m, d, u).Some? && Look(m, d, u).value.frame == f;
        assert MappedIn(m, d, lo, hi, f);
      }
    }
    assert r.data.Keys == m0.data.Keys;
    assert forall f :: f in r.data ==> f in m.data && r.data[f] == m.data[f] == m0.data[f];
  }

  lemma RolledBack(m0: Mem, m: Mem, r: Mem, d: int, want: map<int, Want>, lo: int, hi: int)
    requires Filled(m0, m, d, want) && (forall u :: u in want ==> lo <= u < hi)
    requires Unmapped(m0, d, lo, hi) && Shrunk(m, r, d, lo, hi)
    ensures Restored(m0, r)
  {
    RolledBackData(m0, m, r, d, want, lo, hi);
    forall c, u | c in m0.dirs ensures SameLook(m0, r, c, u) {
      if c != d || !(lo <= u < hi) {
        assert SameLook(m0, m, c, u) && SameLook(m, r, c, u);
      }
    }
  }

  /** No frame is free, and one page is mapped where the address space is to grow to: undoing the
      growth takes that page away. */
  lemma RollBackLoses() returns (m: Mem, d: int)
    ensures Inv(m) && d in m.dirs && m.free == [] && !Unmapped(m, d, Pages(0), Pages(2 * PGSIZE))
    ensures var r := Dealloc(m, d, Pages(0), Pages(2 * PGSIZE));
            Look(m, d, 1).Some? && Look(r, d, 1) == None && !Restored(m, r)
  {
    d := 10;
    m := Mem([], map[10 := map[0 := 11]], map[11 := map[1 := Pte(12, PTE_W + PTE_U)]], map[12 := ZeroPage()]);
    assert Pages(0) == 0 && Pages(2 * PGSIZE) == 2 && Pdx(1) == 0 && Ptx(1) == 1;
    assert forall c, i, t :: Points(m, c, i, t) <==> c == 10 && i == 0 && t == 11;
    assert forall t, j, f :: Maps(m, t, j, f) <==> t == 11 && j == 1 && f == 12;
    DeallocOk(m, d, 0, 2);
    assert !SameLook(m, Dealloc(m, d, 0, 2), d, 1);
  }

  // ---------- whole address spaces ----------

  /** kfree of the page table at entry `i` of `d`. */
  function DropTable(m: Mem, d: int, i: int): Mem
    requires d in m.dirs && i in m.dirs[d]
  {
    var t := m.dirs[d][i];
    m.(free := [t] + m.free, dirs := m.dirs[d := m.dirs[d] - {i}], tables := m.tables - {t})
  }

  lemma DropTableLook(m: Mem, d: int, i: int, c: int, v: int)
    requires Inv(m) && d in m.dirs && i in m.dirs[d] && c in m.dirs && c != d
    ensures SameLook(m, DropTable(m, d, i), c, v)
  {
    assert Points(m, d, i, m.dirs[d][i]);
    if Pdx(v) in m.dirs[c] { assert Points(m, c, Pdx(v), m.dirs[c][Pdx(v)]); }
  }

  lemma DropTableFrames(m: Mem, d: int, i: int)
    requires Inv(m) && d in m.dirs && i in m.dirs[d]
    ensures Frames(DropTable(m, d, i)) && Conserved(m, DropTable(m, d, i))
  {
    var n, t := DropTable(m, d, i), m.dirs[d][i];
    assert Points(m, d, i, t);
    assert n.free[0] == t && n.free[1..] == m.free;
    assert forall f :: f in n.free <==> f == t || f in m.free;
    assert forall k :: 0 <= k < |m.free| ==> m.free[k] in m.free;
  }

  lemma DropTableOk(m: Mem, d: int, i: int)
    requires Inv(m) && d in m.dirs && i in m.dirs[d]
    ensures Inv(DropTable(m, d, i)) && Conserved(m, DropTable(m, d, i))
    ensures var n := DropTable(m, d, i);
      && (forall c, v :: c in m.dirs && c != d ==> SameLook(m, n, c, v))
      && (forall k, t :: Points(n, d, k, t) <==> Points(m, d, k, t) && k != i)
  {
    var n, t := DropTable(m, d, i), m.dirs[d][i];
    DropTableFrames(m, d, i);
    assert Points(m, d, i, t);
    assert forall e, k, u :: Points(n, e, k, u) <==> Points(m, e, k, u) && !(e == d && k == i);
    assert forall u, j, g :: Maps(n, u, j, g) <==> Maps(m, u, j, g) && u != t;
    forall c, v | c in m.dirs && c != d ensures SameLook(m, n, c, v) { DropTableLook(m, d, i, c, v); }
  }

  /** `r` is `m` without address space `d`, all its page tables and user pages returned. */
  ghost predicate Gone(m: Mem, r: Mem, d: int)
    requires d in m.dirs
  {
    && r.dirs.Keys == m.dirs.Keys - {d} && Conserved(m, r)
    && (forall c, v :: c in m.dirs && c != d ==> SameLook(m, r, c, v))
    && (forall t :: t in r.tables <==> t in m.tables && !PointedBy(m, d, t))
    && (forall f :: f in r.data <==> f in m.data && !MappedIn(m, d, 0, KERNPAGES, f))
    && (forall f :: f in r.data ==> r.data[f] == m.data[f])
  }

  /** Page table `t` is at an entry of `d` below `i`. */
  ghost predicate Early(m: Mem, d: int, i: int, t: int) { exists k :: Points(m, d, k, t) && k < i }

  lemma EarlyNext(m: Mem, d: int, i: int)
    ensures var j := i + 1; forall t :: Early(m, d, j, t) <==> Early(m, d, i, t) || Points(m, d, i, t)
  {
  }

  /** kfree of an empty page directory. */
  lemma DropDirOk(m: Mem, d: int)
    requires Inv(m) && d in m.dirs && m.dirs[d] == map[]
    ensures var n := m.(free := [d] + m.free, dirs := m.dirs - {d});
      Inv(n) && Conserved(m, n) && forall c, v :: c in n.dirs ==> SameLook(m, n, c, v)
  {
    var n := m.(free := [d] + m.free, dirs := m.dirs - {d});
    assert forall e, k, u :: Points(n, e, k, u) <==> Points(m, e, k, u);
    assert forall u, j, g :: Maps(n, u, j, g) <==> Maps(m, u, j, g);
    assert n.free[0] == d && n.free[1..] == m.free;
    assert forall f :: f in n.free <==> f == d || f in m.free;
    assert forall k :: 0 <= k < |m.free| ==> m.free[k] in m.free;
  }

  /** freevm's three parts together. */
  lemma GoneIs(m0: Mem, m1: Mem, m2: Mem, d: int)
    requires d in m0.dirs && Shrunk(m0, m1, d, 0, KERNPAGES)
    requires m2.dirs.Keys == m1.dirs.Keys && m2.data == m1.data && Conserved(m1, m2)
    requires forall t :: t in m2.tables <==> t in m1.tables && !PointedBy(m1, d, t)
    requires forall c, v :: c in m1.dirs && c != d ==> SameLook(m1, m2, c, v)
    ensures Gone(m0, m2.(free := [d] + m2.free, dirs := m2.dirs - {d}), d)
  {
    var r := m2.(free := [d] + m2.free, dirs := m2.dirs - {d});
    assert forall k, t :: Points(m1, d, k, t) <==> Points(m0, d, k, t);
    assert forall t :: PointedBy(m1, d, t) <==> PointedBy(m0, d, t);
    assert forall f :: Has(r, f) <==> Has(m2, f);
    forall c, v | c in m0.dirs && c != d ensures SameLook(m0, r, c, v) {
      assert SameLook(m0, m1, c, v) && SameLook(m1, m2, c, v);
    }
  }

  const KERNENTRY := 512   // the directory entry of KERNBASE

  /** The directory entries that kmap covers: I/O space, kernel and memory up to PHYSTOP, devices. */
  predicate IsKernelEntry(i: int) { 512 <= i < 568 || 1016 <= i < 1024 }

  /** How many of them are below `i`. */
  function KernelBelow(i: int): int {
    if i <= 568 then i - 512 else if i <= 1016 then 56 else i - 960
  }

  const KERNFRAMES := 65   // a directory and the page tables of the kernel half

  /** `m` is `m0` with a new address space `d` that has no user page. */
  ghost predicate Empty(m0: Mem, m: Mem, d: int) {
    && d !in m0.dirs && m.dirs.Keys == m0.dirs.Keys + {d} && m.data == m0.data && Conserved(m0, m)
    && (forall i :: i in m.dirs[d] ==> KERNENTRY <= i < NPDENTRIES)
    && (forall c, v :: c in m0.dirs ==> SameLook(m0, m, c, v))
    && (forall t :: t in m.tables <==> t in m0.tables || PointedBy(m, d, t))
    && (forall t :: t in m0.tables ==> !PointedBy(m, d, t))
  }

  /** Mappings, page tables and pages are as before, and so are the free frames, in some order. */
  ghost predicate Undone(m0: Mem, m: Mem) { Restored(m0, m) && m.tables.Keys == m0.tables.Keys }

  lemma NewDirOk(m: Mem)
    requires Inv(m) && m.free != []
    ensures var d := m.free[0];
      var n := m.(free := m.free[1..], dirs := m.dirs[d := map[]]);
      Inv(n) && Empty(m, n, d)
  {
    var d := m.free[0];
    var n := m.(free := m.free[1..], dirs := m.dirs[d := map[]]);
    assert d in m.free && m.free == [d] + n.free;
    assert forall e, k, u :: Points(n, e, k, u) <==> Points(m, e, k, u);
    assert forall u, j, g :: Maps(n, u, j, g) <==> Maps(m, u, j, g);
    assert forall t :: !PointedBy(n, d, t);
  }

  lemma EmptyTable(m0: Mem, m: Mem, d: int, i: int)
    requires Inv(m) && Empty(m0, m, d) && m.free != [] && i !in m.dirs[d] && KERNENTRY <= i < NPDENTRIES
    ensures Inv(AddTable(m, d, i)) && Empty(m0, AddTable(m, d, i), d)
  {
    AddTableOk(m, d, i);
    TableConserved(m, d, i);
    var n, t := AddTable(m, d, i), m.free[0];
    assert t in m.free && Has(m, t);
    assert forall k, u :: Points(n, d, k, u) <==> Points(m, d, k, u) || (k == i && u == t);
    assert Points(n, d, i, t);
    assert forall u :: PointedBy(n, d, u) <==> PointedBy(m, d, u) || u == t;
    forall c, v | c in m0.dirs ensures SameLook(m0, n, c, v) {
      assert SameLook(m0, m, c, v) && SameLook(m, n, c, v);
    }
  }

  /** Freeing an address space without user pages undoes its set-up. */
  lemma EmptyGone(m0: Mem, m: Mem, d: int, r: Mem)
    requires Empty(m0, m, d) && Gone(m, r, d)
    ensures Undone(m0, r)
  {
    forall v | 0 <= v < KERNPAGES ensures Look(m, d, v) == None { assert Pdx(v) < KERNENTRY; }
    assert forall f :: !MappedIn(m, d, 0, KERNPAGES, f);
    forall c, v | c in m0.dirs ensures SameLook(m0, r, c, v) {
      assert SameLook(m0, m, c, v) && SameLook(m, r, c, v);
    }
    forall f ensures f in r.data <==> f in m0.data { assert !MappedIn(m, d, 0, KERNPAGES, f); }
    forall t ensures t in r.tables <==> t in m0.tables { assert PointedBy(m, d, t) || !PointedBy(m, d, t); }
    assert r.data.Keys == m0.data.Keys && r.tables.Keys == m0.tables.Keys;
    assert forall f :: f in r.data ==> r.data[f] == m0.data[f];
  }

  // ---------- fork's copy ----------

  /** Flags and contents of page `u` of `d`. */
  ghost predicate CopyOf(m: Mem, d: int, u: int, w: Want) {
    && d in m.dirs && Look(m, d, u).Some? && Look(m, d, u).value.frame in m.data
    && w == Want(Look(m, d, u).value.flags, m.data[Look(m, d, u).value.frame])
  }

  ghost predicate Copies(m: Mem, d: int, want: map<int, Want>) {
    forall u :: u in want ==> CopyOf(m, d, u, want[u])
  }

  lemma CopiesNext(m: Mem, d: int, want: map<int, Want>, v: int, w: Want)
    requires Copies(m, d, want) && CopyOf(m, d, v, w)
    ensures Copies(m, d, want[v := w])
  {
  }

  lemma CopyUndone(m0: Mem, m1: Mem, m: Mem, r: Mem, d: int, want: map<int, Want>)
    requires Empty(m0, m1, d) && Filled(m1, m, d, want) && (forall u :: u in want ==> 0 <= u < KERNPAGES) && Gone(m, r, d)
    ensures Undone(m0, r)
  {
    forall v | 0 <= v < KERNPAGES ensures Look(m1, d, v) == None { assert Pdx(v) < KERNENTRY; }
    RolledBackData(m1, m, r, d, want, 0, KERNPAGES);
    forall c, v | c in m0.dirs ensures SameLook(m0, r, c, v) {
      assert SameLook(m0, m1, c, v) && SameLook(m1, m, c, v) && SameLook(m, r, c, v);
    }
    forall t ensures t in r.tables <==> t in m0.tables {
      assert t in m0.tables ==> !PointedBy(m1, d, t);
      assert t in m1.tables ==> (PointedBy(m, d, t) <==> PointedBy(m1, d, t));
    }
    assert r.tables.Keys == m0.tables.Keys;
  }

  /** `d` is a new address space whose user pages are `want`: copies of those of `d0`, in frames
      of their own. */
  ghost predicate Copied(m0: Mem, m: Mem, d0: int, d: int, want: map<int, Want>) {
    && d !in m0.dirs && m.dirs.Keys == m0.dirs.Keys + {d} && Conserved(m0, m) && Copies(m0, d0, want)
    && (forall u :: u in want ==> Look(m, d, u).Some? && IsCopy(m0, m, Look(m, d, u).value, want[u]))
    && (forall u :: 0 <= u < KERNPAGES && u !in want ==> Look(m, d, u) == None)
    && (forall f :: f in m0.data ==> f in m.data && m.data[f] == m0.data[f])
    && (forall c, u :: c in m0.dirs ==> SameLook(m0, m, c, u))
  }

  ghost predicate IsCopy(m0: Mem, m: Mem, e: Pte, w: Want) {
    e.flags == w.flags && e.frame !in m0.data && e.frame in m.data && m.data[e.frame] == w.page
  }

  lemma CopiedIs(m0: Mem, m1: Mem, m: Mem, d0: int, d: int, want: map<int, Want>)
    requires Empty(m0, m1, d) && Filled(m1, m, d, want) && d0 in m0.dirs && Copies(m1, d0, want)
    ensures Copied(m0, m, d0, d, want)
  {
    forall u | u in want ensures Look(m, d, u).Some? && IsCopy(m0, m, Look(m, d, u).value, want[u]) && CopyOf(m0, d0, u, want[u]) {
      assert NewPage(m1, m, d, u, want[u]) && CopyOf(m1, d0, u, want[u]) && SameLook(m0, m1, d0, u);
    }
    forall u | 0 <= u < KERNPAGES && u !in want ensures Look(m, d, u) == None {
      assert Pdx(u) < KERNENTRY && SameLook(m1, m, d, u);
    }
    forall c, u | c in m0.dirs ensures SameLook(m0, m, c, u) {
      assert SameLook(m0, m1, c, u) && SameLook(m1, m, c, u);
    }
  }

  ghost predicate Covers(want: map<int, Want>, rs: seq<Range>) { forall u :: u in want <==> InRanges(rs, u) }

  lemma CoversIs(want: map<int, Want>, rs: seq<Range>)
    requires want.Keys == PagesOf(Listed(rs))
    ensures Covers(want, rs)
  {
    forall u ensures u in want <==> InRanges(rs, u) { InListed(rs, u); }
  }

  /** All pages wanted are below the kernel. */
  ghost predicate UserPages(want: map<int, Want>) {
    forall u :: u in want ==> 0 <= u < KERNPAGES
  }

  ghost predicate NoUser(m: Mem, d: int) {
    d in m.dirs && forall u :: 0 <= u < KERNPAGES ==> Look(m, d, u) == None
  }

  /** What the copying loops have done when they come to the k-th page. */
  ghost predicate CopyDone(m1: Mem, m: Mem, d0: int, d: int, ps: seq<int>, k: int, want: map<int, Want>) {
    Filled(m1, m, d, want) && CopyBook(m1, m, d0, d, ps, k, want)
  }

  /** Which pages were copied, how, and with how many frames. */
  ghost predicate CopyBook(m1: Mem, m: Mem, d0: int, d: int, ps: seq<int>, k: int, want: map<int, Want>) {
    Visited(m1, d0, ps, k, want.Keys) && Copies(m1, d0, want) && Balanced(m1, m, d, want)
  }

  lemma CopyStart(m: Mem, d0: int, d: int, ps: seq<int>)
    requires Inv(m) && d0 in m.dirs && d in m.dirs
    ensures CopyDone(m, m, d0, d, ps, 0, map[])
  {
    FilledStart(m, d);
    BalancedStart(m, d);
  }

  lemma CopyNext(m1: Mem, m: Mem, n: Mem, d0: int, d: int, ps: seq<int>, k: int, want: map<int, Want>, w: Want,
                 k1: int, want1: map<int, Want>)
    requires CopyBook(m1, m, d0, d, ps, k, want) && k < |ps| && ps[k] !in want && CopyOf(m1, d0, ps[k], w)
    requires d in n.dirs && n.dirs[d].Keys == m.dirs[d].Keys + {Pdx(ps[k])}
    requires |n.free| == |m.free| - Cost(m.dirs[d].Keys, ps[k])
    requires k1 == k + 1 && want1 == want[ps[k] := w]
    ensures CopyBook(m1, n, d0, d, ps, k1, want1)
  {
    BalancedNext(m1, m, n, d, want, ps[k], w);
    KeysNext(want, ps[k], w);
    VisitedNext(m1, d0, ps, k, want.Keys, want1.Keys);
    CopiesNext(m1, d0, want, ps[k], w);
  }

  lemma EmptyNoUser(m0: Mem, m1: Mem, d: int, ps: seq<int>)
    requires Empty(m0, m1, d) && UserList(ps)
    ensures NoUser(m1, d) && forall i :: 0 <= i < |ps| ==> Pdx(ps[i]) !in m1.dirs[d].Keys
  {
    forall u | 0 <= u < KERNPAGES ensures Look(m1, d, u) == None { assert Pdx(u) < KERNENTRY; }
    forall i | 0 <= i < |ps| ensures Pdx(ps[i]) !in m1.dirs[d].Keys { assert Pdx(ps[i]) < KERNENTRY; }
  }

  class Machine {
    var m: Mem

    constructor (free: seq<int>)
      requires Lists.Distinct(free)
      ensures Inv(m) && m == Mem(free, map[], map[], map[])
    {
      m := Mem(free, map[], map[], map[]);
    }

    /** deallocuvm. */
    method DeallocUvm(d: int, oldsz: int, newsz: int) returns (sz: int)
      requires Inv(m) && d in m.dirs && 0 <= newsz && oldsz <= KERNBASE
      modifies this
      ensures Inv(m)
      ensures newsz >= oldsz ==> sz == oldsz && m == old(m)
      ensures newsz < oldsz ==> sz == newsz && m == Dealloc(old(m), d, Pages(newsz), Pages(oldsz))
    {
      if newsz >= oldsz { return oldsz; }
      ghost var lo, hi := Pages(newsz), Pages(oldsz);
      DeallocOk(m, d, lo, hi);
      var v := Pages(newsz);
      while v * PGSIZE < oldsz
        invariant lo <= v && m.dirs == old(m.dirs) && Dealloc(m, d, v, hi) == Dealloc(old(m), d, lo, hi)
        decreases oldsz - v * PGSIZE
      {
        assert v < hi;
        if Pdx(v) !in m.dirs[d] {
          Jump(m, d, v, hi);
          v := (Pdx(v) + 1) * NPTENTRIES - 1;
        } else if Look(m, d, v).Some? {
          m := Unmap(m, d, v);
        }
        v := v + 1;
      }
      assert v >= hi;
      sz := newsz;
    }

    /** walkpgdir with alloc set: the page table of page `v`, made if it is missing. */
    method Walk(d: int, v: int, f: int, ghost m0: Mem, ghost want: map<int, Want>) returns (ok: bool)
      requires Inv(m) && FilledBut(m0, m, d, want, f) && v !in want && IsPage(v)
      modifies this
      ensures Inv(m) && FilledBut(m0, m, d, want, f) && m.data == old(m).data
      ensures ok <==> |old(m).free| + 1 >= Cost(old(m).dirs[d].Keys, v)
      ensures !ok ==> m == old(m)
      ensures ok ==> Pdx(v) in m.dirs[d] && m.dirs[d][Pdx(v)] in m.tables && m.dirs[d].Keys == old(m).dirs[d].Keys + {Pdx(v)}
      ensures ok ==> |m.free| == |old(m).free| + 1 - Cost(old(m).dirs[d].Keys, v)
      ensures Look(m, d, v) == Look(m0, d, v)
    {
      ok := true;
      if Pdx(v) !in m.dirs[d] {
        if m.free == [] {
          ok := false;
        } else {
          ButTable(m0, m, d, want, f, Pdx(v));
          m := AddTable(m, d, Pdx(v));
        }
      }
      assert ok ==> Points(m, d, Pdx(v), m.dirs[d][Pdx(v)]);
      assert SameLook(m0, Back(m, f), d, v);
    }

    /** mappages for one page. */
    method MapPage(d: int, v: int, f: int, flags: int, ghost m0: Mem, ghost want: map<int, Want>) returns (r: Outcome)
      requires Inv(m) && FilledBut(m0, m, d, want, f) && v !in want && IsPage(v)
      modifies this
      ensures Inv(m) && (r.Panic? ==> Look(m0, d, v).Some?)
      ensures r.Ok? ==> f in old(m).data && Filled(m0, m, d, want[v := Want(flags, old(m).data[f])])
      ensures r.Ok? ==> |m.free| == |old(m).free| + 1 - Cost(old(m).dirs[d].Keys, v)
      ensures r.Ok? ==> d in m.dirs && m.dirs[d].Keys == old(m).dirs[d].Keys + {Pdx(v)} && Look(m0, d, v) == None
      ensures r.NoMemory? ==> FilledBut(m0, m, d, want, f) && m == old(m)
      ensures r.NoMemory? <==> |old(m).free| + 1 < Cost(old(m).dirs[d].Keys, v)
    {
      var ok := Walk(d, v, f, m0, want);
      if !ok { return NoMemory; }
      if Look(m, d, v).Some? { return Panic; }
      ButMapped(m0, m, d, want, f, v, flags);
      m := SetPte(m, d, v, Pte(f, flags));
      r := Ok;
    }

    /** A frame from kalloc, filled with `x` and mapped; kfree if the mapping fails. */
    method AddPage(d: int, v: int, flags: int, x: Page, ghost m0: Mem, ghost want: map<int, Want>) returns (r: Outcome)
      requires Inv(m) && Filled(m0, m, d, want) && v !in want && IsPage(v)
      modifies this
      ensures Inv(m) && (r.Panic? ==> Look(m0, d, v).Some?)
      ensures r.Ok? ==> Filled(m0, m, d, want[v := Want(flags, x)]) && Look(m0, d, v) == None
      ensures r.Ok? ==> |m.free| == |old(m).free| - Cost(old(m).dirs[d].Keys, v)
      ensures r.Ok? ==> d in m.dirs && m.dirs[d].Keys == old(m).dirs[d].Keys + {Pdx(v)}
      ensures r.NoMemory? ==> m == old(m)
      ensures r.NoMemory? <==> |old(m).free| < Cost(old(m).dirs[d].Keys, v)
    {
      if m.free == [] { return NoMemory; }
      var f := m.free[0];
      ButTaken(m0, m, d, want, x);
      m := TakePage(m, x);
      r := MapPage(d, v, f, flags, m0, want);
      if r.NoMemory? {
        TakenBack(old(m), x);
        m := DropPage(m, f);
      }
    }

    /** allocuvm's clean-up when memory runs out. */
    method RollBack(d: int, oldsz: int, newsz: int, ghost m0: Mem, ghost want: map<int, Want>)
      requires Inv(m) && Filled(m0, m, d, want) && 0 <= oldsz < newsz < KERNBASE
      requires forall u :: u in want ==> Pages(oldsz) <= u < Pages(newsz)
      modifies this
      ensures Inv(m) && (Unmapped(m0, d, Pages(oldsz), Pages(newsz)) <==> Restored(m0, m))
      ensures m == Dealloc(old(m), d, Pages(oldsz), Pages(newsz))
    {
      ghost var n, lo, hi := m, Pages(oldsz), Pages(newsz);
      DeallocOk(m, d, lo, hi);
      var _ := DeallocUvm(d, newsz, oldsz);
      if Unmapped(m0, d, lo, hi) {
        RolledBack(m0, n, m, d, want, lo, hi);
      } else {
        ghost var u :| lo <= u < hi && Look(m0, d, u) != None;
        assert !SameLook(m0, m, d, u);
      }
    }

    /** One round of allocuvm's loop. */
    method AddZero(d: int, v: int, ghost lo: int, ghost hi: int, ghost m0: Mem, ghost want: map<int, Want>)
      returns (r: Outcome, ghost w: map<int, Want>)
      requires Inv(m) && Grown(m0, m, d, lo, v, want) && 0 <= lo <= v < hi <= KERNPAGES
      modifies this
      ensures Inv(m) && (r.Panic? ==> Look(m0, d, v).Some?)
      ensures r.Ok? ==> Grown(m0, m, d, lo, v + 1, w)
      ensures r.NoMemory? ==> m == old(m)
      ensures old(m).free == [] ==> r.NoMemory?
      ensures !r.Ok? ==> (r.NoMemory? <==> |m0.free| < Needed(m0, d, lo, hi))
    {
      ghost var n := m;
      r := AddPage(d, v, PTE_W + PTE_U, ZeroPage(), m0, want);
      w := want;
      if r.Ok? {
        GrownNext(m0, n, m, d, lo, v, want);
        w := want[v := ZERO];
      } else if r.NoMemory? {
        NeededMore(m0, n, d, lo, v, hi, want);
      } else {
        NeededLess(m0, n, d, lo, v, hi, want);
      }
    }

    /** allocuvm's loop. */
    method AddPages(d: int, oldsz: int, newsz: int) returns (r: Outcome, ghost want: map<int, Want>)
      requires Inv(m) && d in m.dirs && 0 <= oldsz <= newsz < KERNBASE
      modifies this
      ensures Inv(m) && AllZero(want)
      ensures !r.Panic? ==> Filled(old(m), m, d, want) && forall u :: u in want ==> Pages(oldsz) <= u < Pages(newsz)
      ensures r.Ok? ==> Grown(old(m), m, d, Pages(oldsz), Pages(newsz), want)
      ensures r.Panic? ==> !Unmapped(old(m), d, Pages(oldsz), Pages(newsz))
      ensures !r.Ok? ==> (r.NoMemory? <==> |old(m).free| < Needed(old(m), d, Pages(oldsz), Pages(newsz)))
      ensures r.NoMemory? ==> Pages(oldsz) < Pages(newsz)
      ensures Pages(oldsz) < Pages(newsz) && old(m).free == [] ==> r.NoMemory? && m == old(m)
    {
      want := map[];
      ghost var m0, lo, hi := m, Pages(oldsz), Pages(newsz);
      FilledStart(m, d);
      BalancedStart(m, d);
      var v := Pages(oldsz);
      while v * PGSIZE < newsz
        invariant lo <= v <= hi && Inv(m) && Grown(m0, m, d, lo, v, want)
        invariant m0.free == [] ==> m == m0 && v == lo
        decreases newsz - v * PGSIZE
      {
        assert v < hi;
        ghost var w;
        r, w := AddZero(d, v, lo, hi, m0, want);
        if !r.Ok? { return r, want; }
        want := w;
        v := v + 1;
      }
      r := Ok;
    }

    /** allocuvm. */
    method AllocUvm(d: int, oldsz: int, newsz: int) returns (r: Outcome, sz: int, ghost want: map<int, Want>)
      requires Inv(m) && d in m.dirs && 0 <= oldsz && 0 <= newsz
      modifies this
      ensures Inv(m)
      ensures newsz >= KERNBASE ==> r == NoMemory && sz == 0 && m == old(m)
      ensures newsz < KERNBASE && newsz < oldsz ==> r == Ok && sz == oldsz && m == old(m)
      // Success: exactly the missing pages, zeroed.
      ensures oldsz <= newsz < KERNBASE && r.Ok? ==> sz == newsz && Filled(old(m), m, d, want)
      ensures oldsz <= newsz < KERNBASE && r.Ok? ==> Extends(want, map[], Pages(oldsz), Pages(newsz))
      ensures AllZero(want)
      ensures oldsz <= newsz < KERNBASE && r.Ok? ==> Unmapped(old(m), d, Pages(oldsz), Pages(newsz))
      // Failure: all is as before exactly if nothing was mapped in the way.
      ensures oldsz <= newsz && r.NoMemory? ==> sz == 0
      ensures oldsz <= newsz < KERNBASE && r.NoMemory? ==>
        (Restored(old(m), m) <==> Unmapped(old(m), d, Pages(oldsz), Pages(newsz)))
      ensures Pages(oldsz) < Pages(newsz) && newsz < KERNBASE && old(m).free == [] ==>
        r.NoMemory? && m == Dealloc(old(m), d, Pages(oldsz), Pages(newsz))
      // It fails exactly if there are too few frames, and panics exactly if there are enough to get
      // to a page in the way.
      ensures oldsz <= newsz < KERNBASE ==>
        (r.NoMemory? <==> |old(m).free| < Needed(old(m), d, Pages(oldsz), Pages(newsz)))
      ensures oldsz <= newsz < KERNBASE && r.Ok? ==>
        |m.free| == |old(m).free| - Needed(old(m), d, Pages(oldsz), Pages(newsz))
      ensures r.Panic? <==> oldsz <= newsz < KERNBASE && !r.NoMemory? && !Unmapped(old(m), d, Pages(oldsz), Pages(newsz))
    {
      want := map[];
      if newsz >= KERNBASE { return NoMemory, 0, want; }
      if newsz < oldsz { return Ok, oldsz, want; }
      ghost var m0 := m;
      r, want := AddPages(d, oldsz, newsz);
      if r.NoMemory? {
        RollBack(d, oldsz, newsz, m0, want);
      } else if r.Ok? {
        NeededAll(m0, m, d, Pages(oldsz), Pages(newsz), want);
      }
      sz := if r.Ok? then newsz else 0;
    }

    /** freevm's loop over the page tables. */
    method FreeTables(d: int)
      requires Inv(m) && d in m.dirs
      modifies this
      ensures Inv(m) && m.dirs.Keys == old(m).dirs.Keys && m.dirs[d] == map[] && m.data == old(m).data && Conserved(old(m), m)
      ensures forall t :: t in m.tables <==> t in old(m).tables && !PointedBy(old(m), d, t)
      ensures forall c, v :: c in old(m).dirs && c != d ==> SameLook(old(m), m, c, v)
    {
      ghost var m0 := m;
      for i := 0 to NPDENTRIES
        invariant Inv(m) && m.dirs.Keys == m0.dirs.Keys && m.data == m0.data && Conserved(m0, m)
        invariant forall k, t :: Points(m, d, k, t) <==> Points(m0, d, k, t) && k >= i
        invariant forall t :: t in m.tables <==> t in m0.tables && !Early(m0, d, i, t)
        invariant forall c :: c in m0.dirs && c != d ==> m.dirs[c] == m0.dirs[c]
        invariant forall c, v :: c in m0.dirs && c != d ==> SameLook(m0, m, c, v)
      {
        EarlyNext(m0, d, i);
        ghost var n := m;
        if i in m.dirs[d] {
          DropTableOk(m, d, i);
          assert Points(m, d, i, m.dirs[d][i]);
          m := DropTable(m, d, i);
        }
        forall c, v | c in m0.dirs && c != d ensures SameLook(m0, m, c, v) {
          assert SameLook(m0, n, c, v) && SameLook(n, m, c, v);
        }
      }
      forall k ensures k !in m.dirs[d] {
        if k in m.dirs[d] {
          assert Points(m, d, k, m.dirs[d][k]);
          assert false;
        }
      }
      assert m.dirs[d] == map[];
      assert forall t :: Early(m0, d, NPDENTRIES, t) <==> PointedBy(m0, d, t);
    }

    /** freevm's deallocuvm of all user pages. */
    method FreeUser(d: int)
      requires Inv(m) && d in m.dirs
      modifies this
      ensures Inv(m) && Shrunk(old(m), m, d, 0, KERNPAGES)
    {
      DeallocOk(m, d, 0, KERNPAGES);
      var _ := DeallocUvm(d, KERNBASE, 0);
    }

    /** freevm. */
    method FreeVm(d: int)
      requires Inv(m) && d in m.dirs
      modifies this
      ensures Inv(m) && Gone(old(m), m, d)
    {
      ghost var m0 := m;
      FreeUser(d);
      ghost var m1 := m;
      FreeTables(d);
      ghost var m2 := m;
      DropDirOk(m, d);
      m := m.(free := [d] + m.free, dirs := m.dirs - {d});
      GoneIs(m0, m1, m2, d);
    }

    /** setupkvm at a new directory entry: a page table, or all is undone. */
    method KernelTable(d: int, i: int, ghost m0: Mem) returns (ok: bool)
      requires Inv(m) && Empty(m0, m, d) && i !in m.dirs[d] && KERNENTRY <= i < NPDENTRIES
      modifies this
      ensures Inv(m) && (ok <==> old(m).free != [])
      ensures ok ==> Empty(m0, m, d) && |m.free| == |old(m).free| - 1
      ensures ok ==> forall k :: k in m.dirs[d] <==> k in old(m).dirs[d] || k == i
      ensures !ok ==> Undone(m0, m)
    {
      ok := m.free != [];
      if ok {
        EmptyTable(m0, m, d, i);
        m := AddTable(m, d, i);
      } else {
        ghost var n := m;
        FreeVm(d);
        EmptyGone(m0, n, d, m);
      }
    }

    /** setupkvm: a directory with page tables for the kernel half, and no user page. */
    method SetupKvm() returns (r: Outcome, d: int)
      requires Inv(m)
      modifies this
      ensures Inv(m) && !r.Panic?
      ensures r.Ok? ==> Empty(old(m), m, d) && forall i :: i in m.dirs[d] <==> IsKernelEntry(i)
      ensures r.NoMemory? ==> Undone(old(m), m)
      ensures r.NoMemory? <==> |old(m).free| < KERNFRAMES
      ensures r.Ok? ==> |m.free| == |old(m).free| - KERNFRAMES
    {
      ghost var m0 := m;
      if m.free == [] { return NoMemory, 0; }
      d := m.free[0];
      NewDirOk(m);
      m := m.(free := m.free[1..], dirs := m.dirs[d := map[]]);
      for i := KERNENTRY to NPDENTRIES
        invariant Inv(m) && Empty(m0, m, d) && (forall k :: k in m.dirs[d] <==> k < i && IsKernelEntry(k))
        invariant |m.free| + 1 + KernelBelow(i) == |m0.free|
      {
        if IsKernelEntry(i) {
          var ok := KernelTable(d, i, m0);
          if !ok { return NoMemory, 0; }
        }
      }
      r := Ok;
    }

    /** Copying page `v` of `d0` to `d`: the loop body of copyuvm and __routine_copy_ustack. A frame
        is taken first, and only then does mappages see that the page was copied before. */
    method CopyPage(d0: int, d: int, v: int, ghost m1: Mem, ghost want: map<int, Want>) returns (r: Outcome, ghost w: Want)
      requires Inv(m) && Tree(m1) && Filled(m1, m, d, want) && d0 in m1.dirs && d0 != d && IsPage(v) && Look(m1, d, v) == None
      modifies this
      ensures Inv(m)
      ensures r.Panic? <==> Look(m1, d0, v) == None || (v in want && old(m).free != [])
      ensures r.NoMemory? <==>
        Look(m1, d0, v).Some? && |old(m).free| < if v in want then 1 else Cost(old(m).dirs[d].Keys, v)
      ensures r.NoMemory? ==> m == old(m)
      ensures r.Ok? ==> v !in want && CopyOf(m1, d0, v, w) && Filled(m1, m, d, want[v := w])
      ensures r.Ok? ==> |m.free| == |old(m).free| - Cost(old(m).dirs[d].Keys, v)
      ensures r.Ok? ==> d in m.dirs && m.dirs[d].Keys == old(m).dirs[d].Keys + {Pdx(v)}
    {
      w := Want(0, ZeroPage());
      assert SameLook(m1, m, d0, v);
      assert v in want ==> NewPage(m1, m, d, v, want[v]);
      assert v !in want ==> SameLook(m1, m, d, v);
      if Look(m, d0, v) == None { return Panic, w; }
      if m.free == [] { return NoMemory, w; }
      if Look(m, d, v).Some? { return Panic, w; }
      var e := Look(m, d0, v).value;
      assert Maps(m1, m1.dirs[d0][Pdx(v)], Ptx(v), e.frame);
      w := Want(e.flags, m.data[e.frame]);
      r := AddPage(d, v, e.flags, m.data[e.frame], m1, want);
    }

    /** The same for the k-th page of the list. */
    method CopyOne(d0: int, d: int, v: int, ghost m1: Mem, ghost ps: seq<int>, ghost k: int, ghost want: map<int, Want>)
      returns (r: Outcome, ghost k1: int, ghost want1: map<int, Want>)
      requires Inv(m) && Tree(m1) && NoUser(m1, d) && CopyDone(m1, m, d0, d, ps, k, want) && d0 != d
      requires k < |ps| && v == ps[k] && UserList(ps)
      modifies this
      ensures Inv(m)
      ensures r.Ok? ==> k1 == k + 1 && CopyDone(m1, m, d0, d, ps, k1, want1)
      ensures !r.Ok? ==> k1 == k && want1 == want
      ensures r.NoMemory? ==> m == old(m)
      ensures r.Panic? ==> !NoneBad(m1, d0, ps, |ps|)
      ensures !r.Ok? ==> (r.NoMemory? <==> |m1.free| < CopyNeed(m1, d0, ps, m1.dirs[d].Keys))
    {
      ghost var n, w := m, Want(0, ZeroPage());
      r, w := CopyPage(d0, d, v, m1, want);
      k1, want1 := k, want;
      if r.Ok? {
        k1, want1 := k + 1, want[v := w];
        CopyNext(m1, n, m, d0, d, ps, k, want, w, k1, want1);
      } else if r.NoMemory? {
        VisitedShort(m1, d0, ps, k, want.Keys, m1.dirs[d].Keys, n.dirs[d].Keys, |m1.free|, |n.free|);
      } else {
        VisitedBad(m1, d0, ps, k, want.Keys, m1.dirs[d].Keys, n.dirs[d].Keys, |m1.free|, |n.free|);
      }
    }

    /** Copying the pages `rg`. */
    method CopyRange(d0: int, d: int, rg: Range, ghost m1: Mem, ghost ps: seq<int>, ghost k0: int, ghost w0: map<int, Want>)
      returns (r: Outcome, ghost k: int, ghost want: map<int, Want>)
      requires Inv(m) && Tree(m1) && NoUser(m1, d) && CopyDone(m1, m, d0, d, ps, k0, w0) && d0 != d && UserList(ps)
      requires At(ps, k0, rg) && rg.lo <= rg.hi
      modifies this
      ensures Inv(m)
      ensures r.Ok? ==> k == k0 + rg.hi - rg.lo && CopyDone(m1, m, d0, d, ps, k, want)
      ensures r.NoMemory? ==> Filled(m1, m, d, want) && UserPages(want)
      ensures r.Panic? ==> !NoneBad(m1, d0, ps, |ps|)
      ensures !r.Ok? ==> (r.NoMemory? <==> |m1.free| < CopyNeed(m1, d0, ps, m1.dirs[d].Keys))
    {
      want, k := w0, k0;
      for v := rg.lo to rg.hi
        invariant k == k0 + v - rg.lo && Inv(m) && CopyDone(m1, m, d0, d, ps, k, want)
      {
        assert ps[k] == v;
        r, k, want := CopyOne(d0, d, v, m1, ps, k, want);
        if !r.Ok? {
          VisitedUser(m1, d0, ps, k, want.Keys);
          return r, k, want;
        }
      }
      r := Ok;
    }

    /** The copying loops of copyuvm, over the image and over the threads' stacks. */
    method CopyRanges(d0: int, d: int, rs: seq<Range>, ghost m1: Mem) returns (r: Outcome, ghost want: map<int, Want>)
      requires Inv(m) && m == m1 && d0 in m.dirs && d0 != d && NoUser(m, d)
      requires forall i :: 0 <= i < |rs| ==> 0 <= rs[i].lo <= rs[i].hi <= KERNPAGES
      modifies this
      ensures Inv(m)
      ensures r.Ok? ==> Filled(m1, m, d, want) && Copies(m1, d0, want) && want.Keys == PagesOf(Listed(rs))
      ensures r.NoMemory? ==> Filled(m1, m, d, want) && UserPages(want)
      ensures !r.NoMemory? ==> (r.Ok? <==> AllThere(m1, d0, rs))
      ensures r.NoMemory? <==> |m1.free| < CopyNeed(m1, d0, Listed(rs), m1.dirs[d].Keys)
    {
      want := map[];
      ghost var ps := Listed(rs);
      ListedUser(rs);
      CopyStart(m, d0, d, ps);
      ghost var k := 0;
      for i := 0 to |rs|
        invariant k == |Listed(rs[..i])| && Inv(m) && CopyDone(m1, m, d0, d, ps, k, want)
      {
        RangeAt(rs, i);
        r, k, want := CopyRange(d0, d, rs[i], m1, ps, k, want);
        if !r.Ok? { return r, want; }
      }
      assert rs[..|rs|] == rs;
      VisitedAll(m1, d0, ps, want.Keys, m1.dirs[d].Keys, m.dirs[d].Keys, |m1.free|, |m.free|);
      r := Ok;
    }

    /** copyuvm: a new address space with copies of the pages `rs` of `d0`. The first range is the
        process image, the others the stacks of its threads. */
    method CopyUvm(d0: int, rs: seq<Range>) returns (r: Outcome, d: int, ghost want: map<int, Want>)
      requires Inv(m) && d0 in m.dirs && forall i :: 0 <= i < |rs| ==> 0 <= rs[i].lo <= rs[i].hi <= KERNPAGES
      modifies this
      ensures Inv(m)
      ensures r.Ok? ==> Copied(old(m), m, d0, d, want) && Covers(want, rs)
      ensures r.NoMemory? ==> Undone(old(m), m)
      // It fails exactly if there are too few frames, and panics exactly if there are enough to get
      // to a page that is not mapped or was copied before.
      ensures r.NoMemory? <==> |old(m).free| < KERNFRAMES + CopyNeed(old(m), d0, Listed(rs), {})
      ensures r.Panic? <==> !r.NoMemory? && !AllThere(old(m), d0, rs)
    {
      ghost var m0 := m;
      want := map[];
      r, d := SetupKvm();
      if !r.Ok? { return r, d, want; }
      ghost var m1 := m;
      ListedUser(rs);
      EmptyNoUser(m0, m1, d, Listed(rs));
      CopyNeedSame(m0, m1, d0, Listed(rs), m1.dirs[d].Keys);
      SameBad(m0, m1, d0, Listed(rs));
      r, want := CopyRanges(d0, d, rs, m1);
      if r.NoMemory? {
        ghost var n := m;
        FreeVm(d);
        CopyUndone(m0, m1, n, m, d, want);
      } else if r.Ok? {
        CopiedIs(m0, m1, m, d0, d, want);
        CoversIs(want, rs);
      }
    }
  }
}
