/** Two-level page tables and the page free list of vm.c and kalloc.c. A page directory and a
    page table are frames whose present entries are a map; entries for the kernel half are kept
    only down to the page table. Addresses are page numbers. */
module PageTables {
  import Lists

  const NPDENTRIES := 1024
  const NPTENTRIES := 1024
  const KERNPAGES := 0x80000   // KERNBASE / PGSIZE

  datatype Option<T> = None | Some(value: T)
  datatype Page = Page(bytes: seq<int>)
  datatype Pte = Pte(frame: int, flags: int)

  /** The free list, and what is in the frames in use: page directories, page tables, pages. */
  datatype Mem = Mem(
    free: seq<int>,
    dirs: map<int, map<int, int>>,
    tables: map<int, map<int, Pte>>,
    data: map<int, Page>)

  function ZeroPage(): Page { Page(seq(4096, _ => 0)) }

  function Pdx(v: int): int { v / NPTENTRIES }
  function Ptx(v: int): int { v % NPTENTRIES }

  predicate IsPage(v: int) { 0 <= v < NPDENTRIES * NPTENTRIES }

  /** Directory `d` has page table `t` at entry `i`. */
  predicate Points(m: Mem, d: int, i: int, t: int) {
    d in m.dirs && i in m.dirs[d] && m.dirs[d][i] == t
  }

  /** Page table `t` maps frame `f` at entry `j`. */
  predicate Maps(m: Mem, t: int, j: int, f: int) {
    t in m.tables && j in m.tables[t] && m.tables[t][j].frame == f
  }

  /** A frame has one use. */
  ghost predicate Frames(m: Mem) {
    && Lists.Distinct(m.free)
    && (forall f :: f in m.free ==> f !in m.dirs && f !in m.tables && f !in m.data)
    && (forall f :: f in m.dirs ==> f !in m.tables && f !in m.data)
    && (forall f :: f in m.tables ==> f !in m.data)
  }

  /** Entries point to page tables and pages, each from one place. */
  ghost predicate Tree(m: Mem) {
    && (forall d, i, t :: Points(m, d, i, t) ==> t in m.tables && 0 <= i < NPDENTRIES)
    && (forall t, j, f :: Maps(m, t, j, f) ==> f in m.data)
    && (forall d, i, e, k, t :: Points(m, d, i, t) && Points(m, e, k, t) ==> d == e && i == k)
    && (forall t, j, u, k, f :: Maps(m, t, j, f) && Maps(m, u, k, f) ==> t == u && j == k)
  }

  ghost predicate Inv(m: Mem) { Frames(m) && Tree(m) }

  /** The entry that walkpgdir finds for page `v`. */
  function Look(m: Mem, d: int, v: int): Option<Pte>
    requires d in m.dirs
  {
    if Pdx(v) in m.dirs[d] && m.dirs[d][Pdx(v)] in m.tables && Ptx(v) in m.tables[m.dirs[d][Pdx(v)]]
    then Some(m.tables[m.dirs[d][Pdx(v)]][Ptx(v)]) else None
  }

  /** Both memories map page `v` of `d` alike. */
  ghost predicate SameLook(m: Mem, n: Mem, d: int, v: int) {
    d in m.dirs && d in n.dirs && Look(m, d, v) == Look(n, d, v)
  }

  /** A page has one directory and one table entry. */
  lemma PageNumber(v: int, w: int)
    ensures Pdx(v) == Pdx(w) && Ptx(v) == Ptx(w) ==> v == w
  {
  }

  // ---------- the elementary changes ----------

  /** kalloc and memset: a frame becomes a page with contents `x`. */
  function TakePage(m: Mem, x: Page): Mem
    requires m.free != []
  {
    m.(free := m.free[1..], data := m.data[m.free[0] := x])
  }

  /** kfree of a page that is not mapped. */
  function DropPage(m: Mem, f: int): Mem {
    m.(free := [f] + m.free, data := m.data - {f})
  }

  /** walkpgdir's new page table for entry `i` of directory `d`. */
  function AddTable(m: Mem, d: int, i: int): Mem
    requires m.free != [] && d in m.dirs
  {
    var t := m.free[0];
    m.(free := m.free[1..], dirs := m.dirs[d := m.dirs[d][i := t]], tables := m.tables[t := map[]])
  }

  function SetPte(m: Mem, d: int, v: int, e: Pte): Mem
    requires d in m.dirs && Pdx(v) in m.dirs[d] && m.dirs[d][Pdx(v)] in m.tables
  {
    var t := m.dirs[d][Pdx(v)];
    m.(tables := m.tables[t := m.tables[t][Ptx(v) := e]])
  }

  /** deallocuvm's work on a present page: kfree, then clear the entry. */
  function Unmap(m: Mem, d: int, v: int): Mem
    requires d in m.dirs && Look(m, d, v).Some?
  {
    var t, f := m.dirs[d][Pdx(v)], Look(m, d, v).value.frame;
    m.(free := [f] + m.free, data := m.data - {f}, tables := m.tables[t := m.tables[t] - {Ptx(v)}])
  }

  lemma TakePageOk(m: Mem, x: Page)
    requires Inv(m) && m.free != []
    ensures Inv(TakePage(m, x)) && m.free[0] !in m.data
    ensures forall t, j :: !Maps(TakePage(m, x), t, j, m.free[0])
  {
    var n, f := TakePage(m, x), m.free[0];
    assert f in m.free;
    assert forall g :: g in n.free ==> g in m.free && g != f;
    assert forall t, j, g :: Maps(n, t, j, g) <==> Maps(m, t, j, g);
    assert forall d, i, t :: Points(n, d, i, t) <==> Points(m, d, i, t);
  }

  lemma AddTableLook(m: Mem, d: int, i: int, e: int, v: int)
    requires Inv(m) && m.free != [] && d in m.dirs && i !in m.dirs[d] && e in m.dirs
    ensures SameLook(m, AddTable(m, d, i), e, v)
  {
    assert m.free[0] in m.free;
    if Pdx(v) in m.dirs[e] { assert Points(m, e, Pdx(v), m.dirs[e][Pdx(v)]); }
  }

  lemma AddTableOk(m: Mem, d: int, i: int)
    requires Inv(m) && m.free != [] && d in m.dirs && i !in m.dirs[d] && 0 <= i < NPDENTRIES
    ensures Inv(AddTable(m, d, i))
    ensures forall e, v :: e in m.dirs ==> SameLook(m, AddTable(m, d, i), e, v)
  {
    var n, t := AddTable(m, d, i), m.free[0];
    assert t in m.free;
    assert forall g :: g in n.free ==> g in m.free && g != t;
    assert forall u, j, g :: Maps(n, u, j, g) <==> Maps(m, u, j, g);
    assert forall e, k, u :: Points(n, e, k, u) <==> Points(m, e, k, u) || (e == d && k == i && u == t);
    forall e, v | e in m.dirs ensures SameLook(m, n, e, v) { AddTableLook(m, d, i, e, v); }
  }

  /** A change to one entry of one page table shows at one page of one directory. */
  lemma OtherLook(m: Mem, n: Mem, d: int, v: int, e: int, w: int)
    requires Inv(m) && d in m.dirs && Pdx(v) in m.dirs[d] && n.dirs == m.dirs && e in m.dirs && (e != d || w != v)
    requires n.tables.Keys == m.tables.Keys
    requires forall t, j :: t in m.tables && (t != m.dirs[d][Pdx(v)] || j != Ptx(v)) ==>
      (j in m.tables[t] <==> j in n.tables[t]) && (j in m.tables[t] ==> n.tables[t][j] == m.tables[t][j])
    ensures SameLook(m, n, e, w)
  {
    assert Points(m, d, Pdx(v), m.dirs[d][Pdx(v)]);
    if Pdx(w) in m.dirs[e] { assert Points(m, e, Pdx(w), m.dirs[e][Pdx(w)]); }
    PageNumber(v, w);
  }

  lemma SetPteOk(m: Mem, d: int, v: int, e: Pte)
    requires Inv(m) && d in m.dirs && Pdx(v) in m.dirs[d] && m.dirs[d][Pdx(v)] in m.tables
    requires Look(m, d, v).None? && e.frame in m.data && forall t, j :: !Maps(m, t, j, e.frame)
    ensures var n := SetPte(m, d, v, e); Inv(n) && Look(n, d, v) == Some(e)
    ensures forall c, w :: c in m.dirs && (c != d || w != v) ==> SameLook(m, SetPte(m, d, v, e), c, w)
  {
    var n, t := SetPte(m, d, v, e), m.dirs[d][Pdx(v)];
    assert forall u, j, g :: Maps(n, u, j, g) <==> Maps(m, u, j, g) || (u == t && j == Ptx(v) && g == e.frame);
    assert forall c, k, u :: Points(n, c, k, u) <==> Points(m, c, k, u);
    forall c, w | c in m.dirs && (c != d || w != v) ensures SameLook(m, n, c, w) { OtherLook(m, n, d, v, c, w); }
  }

  lemma UnmapOk(m: Mem, d: int, v: int)
    requires Inv(m) && d in m.dirs && Look(m, d, v).Some?
    ensures var n := Unmap(m, d, v); Inv(n) && Look(n, d, v) == None
    ensures Look(m, d, v).value.frame in m.data
    ensures forall c, w :: c in m.dirs && (c != d || w != v) ==> SameLook(m, Unmap(m, d, v), c, w)
  {
    var n, t, f := Unmap(m, d, v), m.dirs[d][Pdx(v)], Look(m, d, v).value.frame;
    assert Maps(m, t, Ptx(v), f);
    assert forall u, j, g :: Maps(n, u, j, g) <==> Maps(m, u, j, g) && !(u == t && j == Ptx(v));
    assert forall c, k, u :: Points(n, c, k, u) <==> Points(m, c, k, u);
    assert n.free[0] == f && n.free[1..] == m.free;
    assert forall i :: 0 <= i < |m.free| ==> m.free[i] in m.free;
    forall c, w | c in m.dirs && (c != d || w != v) ensures SameLook(m, n, c, w) { OtherLook(m, n, d, v, c, w); }
  }
}
