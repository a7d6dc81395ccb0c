/** The free list of umalloc.c, in units of one Header: a circular list through the ptr fields,
    in address order from the header `base`, with adjacent blocks merged. Live and free blocks
    together tile the units obtained from morecore. */
module FreeList {
  const BASE := 0   // the static header `base`, below all memory from sbrk

  /** ptr and size of the headers in memory. */
  datatype Heap = Heap(ptr: map<int, int>, size: map<int, int>)

  function At(l: seq<int>, i: int): int
    requires 0 <= i <= |l| && l != []
  {
    if i == |l| then l[0] else l[i]
  }

  predicate Links(h: Heap, l: seq<int>, i: int)
    requires 0 <= i < |l|
  {
    l[i] in h.ptr && h.ptr[l[i]] == At(l, i + 1)
  }

  /** A header of the list: `base` has no units, others have some. */
  predicate Sized(h: Heap, l: seq<int>, i: int)
    requires 0 <= i < |l|
  {
    l[i] in h.size && (if i == 0 then l[i] == BASE && h.size[l[i]] == 0 else h.size[l[i]] > 0)
  }

  /** `l` is the free list from `base` on: a ring in address order, blocks not overlapping. */
  ghost predicate IsList(h: Heap, l: seq<int>) {
    && l != []
    && (forall i :: 0 <= i < |l| ==> Links(h, l, i) && Sized(h, l, i))
    && (forall i, j :: 0 <= i < j < |l| ==> Before(h, l, i, j))
  }

  predicate Before(h: Heap, l: seq<int>, i: int, j: int)
    requires 0 <= i < |l| && 0 <= j < |l|
  {
    l[i] < l[j] && l[i] in h.size && l[i] + h.size[l[i]] <= l[j]
  }

  /** Block `i` does not touch the next: it needs no merging. */
  predicate Apart(h: Heap, l: seq<int>, i: int)
    requires 0 <= i < |l|
  {
    i + 1 < |l| ==> l[i] in h.size && l[i] + h.size[l[i]] < l[i + 1]
  }

  ghost predicate Coalesced(h: Heap, l: seq<int>) {
    forall i :: 0 <= i < |l| ==> Apart(h, l, i)
  }

  predicate IsBlock(l: seq<int>, live: set<int>, a: int) {
    a in live || (a in l && a != BASE)
  }

  /** Unit `u` lies in a block, the one `owner` names. */
  predicate UnitOk(h: Heap, l: seq<int>, live: set<int>, owner: map<int, int>, u: int)
    requires u in owner
  {
    IsBlock(l, live, owner[u]) && owner[u] in h.size && owner[u] <= u < owner[u] + h.size[owner[u]]
  }

  /** All units of block `a` are its own. */
  ghost predicate BlockOk(h: Heap, owner: map<int, int>, a: int) {
    a in h.size && forall u :: a <= u < a + h.size[a] ==> u in owner && owner[u] == a
  }

  predicate LiveOk(h: Heap, l: seq<int>, a: int) {
    a in h.size && h.size[a] > 0 && a > BASE && a !in l
  }

  /** Units and blocks match: each obtained unit lies in the block `owner` names, and in no other. */
  ghost predicate Tiles(h: Heap, l: seq<int>, live: set<int>, owner: map<int, int>) {
    && (forall a :: a in live ==> LiveOk(h, l, a))
    && (forall u :: u in owner ==> UnitOk(h, l, live, owner, u))
    && (forall a :: IsBlock(l, live, a) ==> BlockOk(h, owner, a))
  }

  ghost predicate Valid(h: Heap, l: seq<int>, live: set<int>, owner: map<int, int>) {
    IsList(h, l) && Coalesced(h, l) && Tiles(h, l, live, owner)
  }

  /** No two blocks overlap. */
  lemma Disjoint(h: Heap, l: seq<int>, live: set<int>, owner: map<int, int>, a: int, b: int)
    requires Tiles(h, l, live, owner) && IsBlock(l, live, a) && IsBlock(l, live, b) && a != b
    requires a in h.size && b in h.size && h.size[a] > 0 && h.size[b] > 0
    ensures a + h.size[a] <= b || b + h.size[b] <= a
  {
    assert BlockOk(h, owner, a) && BlockOk(h, owner, b);
    assert a in owner && owner[a] == a && b in owner && owner[b] == b;
  }

  // ---------- the three list changes ----------

  /** Block `b` is linked in after position `k`. */
  function Inserted(h: Heap, l: seq<int>, k: int, b: int): Heap
    requires 0 <= k < |l|
  {
    h.(ptr := h.ptr[b := At(l, k + 1)][l[k] := b])
  }

  function WithNode(l: seq<int>, k: int, b: int): seq<int>
    requires 0 <= k < |l|
  {
    l[..k + 1] + [b] + l[k + 1..]
  }

  /** Block `b` fits in the gap after position `k`. */
  ghost predicate Fits(h: Heap, l: seq<int>, k: int, b: int) {
    && 0 <= k < |l| && b in h.size && h.size[b] > 0
    && l[k] < b && l[k] in h.size && l[k] + h.size[l[k]] <= b
    && (k + 1 < |l| ==> b + h.size[b] <= l[k + 1])
  }

  lemma FitsAt(h: Heap, l: seq<int>, k: int, b: int, x: int)
    requires IsList(h, l) && Fits(h, l, k, b) && 0 <= x < |l|
    ensures x <= k ==> l[x] < b && l[x] in h.size && l[x] + h.size[l[x]] <= b
    ensures x > k ==> b + h.size[b] <= l[x]
  {
    assert x < k ==> Before(h, l, x, k);
    assert k + 1 < x ==> Before(h, l, k + 1, x);
  }

  lemma InsertOrder(h: Heap, l: seq<int>, k: int, b: int)
    requires IsList(h, l) && Fits(h, l, k, b)
    ensures var g, m := Inserted(h, l, k, b), WithNode(l, k, b);
      forall i, j :: 0 <= i < j < |m| ==> Before(g, m, i, j)
  {
    var g, m := Inserted(h, l, k, b), WithNode(l, k, b);
    forall i, j | 0 <= i < j < |m| ensures Before(g, m, i, j) {
      var x, y := if i <= k then i else i - 1, if j <= k then j else j - 1;
      assert x < y ==> Before(h, l, x, y);
      FitsAt(h, l, k, b, x);
      FitsAt(h, l, k, b, y);
    }
  }

  lemma InsertLinks(h: Heap, l: seq<int>, k: int, b: int, i: int)
    requires IsList(h, l) && Fits(h, l, k, b) && 0 <= i <= |l|
    ensures var g, m := Inserted(h, l, k, b), WithNode(l, k, b); Links(g, m, i) && Sized(g, m, i)
  {
    var m := WithNode(l, k, b);
    var x := if i <= k then i else i - 1;
    assert Links(h, l, x) && Sized(h, l, x);
    FitsAt(h, l, k, b, x);
    assert x < k ==> Before(h, l, x, k);
    assert x > k ==> Before(h, l, k, x);
    assert m[i] == if i == k + 1 then b else l[x];
    assert i != k ==> At(m, i + 1) == At(l, x + 1);
  }

  lemma InsertOk(h: Heap, l: seq<int>, k: int, b: int)
    requires IsList(h, l) && Fits(h, l, k, b)
    ensures var g, m := Inserted(h, l, k, b), WithNode(l, k, b);
      && IsList(g, m)
      && (forall i :: 0 <= i < k && Apart(h, l, i) ==> Apart(g, m, i))
      && (forall i :: k + 1 < i < |m| && Apart(h, l, i - 1) ==> Apart(g, m, i))
  {
    InsertOrder(h, l, k, b);
    forall i | 0 <= i <= |l| { InsertLinks(h, l, k, b, i); }
  }

  /** The block after position `k` is merged into the one at `k`. */
  function Merged(h: Heap, l: seq<int>, k: int): Heap
    requires 0 <= k < |l| - 1 && l[k] in h.size && l[k + 1] in h.size && l[k + 1] in h.ptr
  {
    Heap(h.ptr[l[k] := h.ptr[l[k + 1]]], h.size[l[k] := h.size[l[k]] + h.size[l[k + 1]]])
  }

  function Without(l: seq<int>, k: int): seq<int>
    requires 0 <= k < |l|
  {
    l[..k] + l[k + 1..]
  }

  /** Where an entry of the shorter list was. */
  function Was(k: int, i: int): int { if i < k then i else i + 1 }

  lemma Differ(h: Heap, l: seq<int>, i: int, j: int)
    requires IsList(h, l) && 0 <= i < |l| && 0 <= j < |l| && i != j
    ensures l[i] != l[j]
  {
    assert i < j ==> Before(h, l, i, j);
    assert j < i ==> Before(h, l, j, i);
  }

  ghost predicate Touching(h: Heap, l: seq<int>, k: int) {
    && 0 < k < |l| - 1 && Links(h, l, k + 1) && Sized(h, l, k + 1)
    && l[k] in h.size && l[k] + h.size[l[k]] == l[k + 1]
  }

  lemma MergeOrder(h: Heap, l: seq<int>, k: int, i: int, j: int)
    requires IsList(h, l) && Touching(h, l, k) && 0 <= i < j < |l| - 1
    ensures Before(Merged(h, l, k), Without(l, k + 1), i, j)
  {
    var x, y := Was(k + 1, i), Was(k + 1, j);
    assert Before(h, l, x, y);
    assert k + 1 < y ==> Before(h, l, k + 1, y);
    if x != k { Differ(h, l, x, k); }
  }

  lemma MergeLinks(h: Heap, l: seq<int>, k: int, i: int)
    requires IsList(h, l) && Touching(h, l, k) && 0 <= i < |l| - 1
    ensures Links(Merged(h, l, k), Without(l, k + 1), i) && Sized(Merged(h, l, k), Without(l, k + 1), i)
  {
    var x, m := Was(k + 1, i), Without(l, k + 1);
    assert Links(h, l, x) && Sized(h, l, x);
    if x != k { Differ(h, l, x, k); }
    assert At(m, i + 1) == if i == k then At(l, k + 2) else At(l, x + 1);
  }

  lemma MergeOk(h: Heap, l: seq<int>, k: int)
    requires IsList(h, l) && Touching(h, l, k)
    ensures var g, m := Merged(h, l, k), Without(l, k + 1);
      && IsList(g, m)
      && (forall i :: 0 <= i < |m| && Apart(h, l, Was(k, i)) ==> Apart(g, m, i))
  {
    var g, m := Merged(h, l, k), Without(l, k + 1);
    forall i, j | 0 <= i < j < |m| ensures Before(g, m, i, j) { MergeOrder(h, l, k, i, j); }
    forall i | 0 <= i < |m| ensures Links(g, m, i) && Sized(g, m, i) { MergeLinks(h, l, k, i); }
    forall i | 0 <= i < |m| && Apart(h, l, Was(k, i)) ensures Apart(g, m, i) {
      if i != k { Differ(h, l, Was(k + 1, i), k); }
    }
  }

  /** The block at `k` is taken off the list. */
  function Unlinked(h: Heap, l: seq<int>, k: int): Heap
    requires 0 < k < |l| && l[k] in h.ptr
  {
    h.(ptr := h.ptr[l[k - 1] := h.ptr[l[k]]])
  }

  lemma UnlinkOk(h: Heap, l: seq<int>, k: int)
    requires IsList(h, l) && Coalesced(h, l) && 0 < k < |l| && Links(h, l, k)
    ensures IsList(Unlinked(h, l, k), Without(l, k)) && Coalesced(Unlinked(h, l, k), Without(l, k))
  {
    var g, m := Unlinked(h, l, k), Without(l, k);
    forall i, j | 0 <= i < j < |m| ensures Before(g, m, i, j) {
      assert Before(h, l, Was(k, i), Was(k, j));
    }
    forall i | 0 <= i < |m| ensures Links(g, m, i) && Sized(g, m, i) && Apart(g, m, i) {
      var x := Was(k, i);
      assert Links(h, l, x) && Sized(h, l, x) && Apart(h, l, x) && Apart(h, l, k);
      if x != k - 1 { Differ(h, l, x, k - 1); }
      assert At(m, i + 1) == if i == k - 1 then At(l, k + 1) else At(l, x + 1);
      assert x + 1 < |l| ==> Before(h, l, x, x + 1);
      assert k + 1 < |l| ==> Before(h, l, k, k + 1);
    }
  }

  /** The block at `k` keeps its first `n` units. */
  lemma ShrinkOk(h: Heap, l: seq<int>, k: int, n: int, q: int, nq: int)
    requires IsList(h, l) && Coalesced(h, l) && 0 < k < |l| && l[k] in h.size && 0 < n < h.size[l[k]] && q !in l
    ensures var g := h.(size := h.size[l[k] := n][q := nq]); IsList(g, l) && Coalesced(g, l)
  {
    var g := h.(size := h.size[l[k] := n][q := nq]);
    forall i, j | 0 <= i < j < |l| ensures Before(g, l, i, j) {
      assert Before(h, l, i, j) && l[i] in l;
      if i != k { Differ(h, l, i, k); }
    }
    forall i | 0 <= i < |l| ensures Links(g, l, i) && Sized(g, l, i) && Apart(g, l, i) {
      assert Links(h, l, i) && Sized(h, l, i) && Apart(h, l, i) && l[i] in l;
      if i != k { Differ(h, l, i, k); }
    }
  }

  // ---------- what the changes do to the blocks ----------

  lemma WithNodeIs(l: seq<int>, k: int, b: int)
    requires 0 <= k < |l|
    ensures forall a :: a in WithNode(l, k, b) <==> a in l || a == b
  {
    var m := WithNode(l, k, b);
    assert m[k + 1] == b;
    forall a | a in l ensures a in m {
      var i :| 0 <= i < |l| && l[i] == a;
      assert if i <= k then m[i] == a else m[i + 1] == a;
    }
  }

  lemma WithoutIs(h: Heap, l: seq<int>, k: int)
    requires IsList(h, l) && 0 <= k < |l|
    ensures forall a :: a in Without(l, k) <==> a in l && a != l[k]
  {
    var m := Without(l, k);
    forall a | a in l && a != l[k] ensures a in m {
      var i :| 0 <= i < |l| && l[i] == a;
      assert if i < k then m[i] == a else m[i - 1] == a;
    }
    forall a | a in m ensures a in l && a != l[k] {
      var i :| 0 <= i < |m| && m[i] == a;
      assert l[Was(k, i)] == a;
      Differ(h, l, Was(k, i), k);
    }
  }

  /** A live block becomes a free one. */
  lemma FreedTiles(h: Heap, l: seq<int>, live: set<int>, owner: map<int, int>, k: int, b: int)
    requires Tiles(h, l, live, owner) && 0 <= k < |l| && b in live
    ensures Tiles(Inserted(h, l, k, b), WithNode(l, k, b), live - {b}, owner)
  {
    WithNodeIs(l, k, b);
    var m := WithNode(l, k, b);
    assert forall a :: IsBlock(m, live - {b}, a) <==> IsBlock(l, live, a);
    forall u | u in owner ensures UnitOk(Inserted(h, l, k, b), m, live - {b}, owner, u) {
      assert UnitOk(h, l, live, owner, u);
    }
    forall a | IsBlock(m, live - {b}, a) ensures BlockOk(Inserted(h, l, k, b), owner, a) {
      assert BlockOk(h, owner, a);
    }
  }

  /** Units of block `b` become units of block `a`. */
  ghost function Reowned(owner: map<int, int>, b: int, a: int): map<int, int> {
    map u | u in owner :: if owner[u] == b then a else owner[u]
  }

  lemma MergedTiles(h: Heap, l: seq<int>, live: set<int>, owner: map<int, int>, k: int)
    requires IsList(h, l) && Tiles(h, l, live, owner) && Touching(h, l, k)
    ensures Tiles(Merged(h, l, k), Without(l, k + 1), live, Reowned(owner, l[k + 1], l[k]))
  {
    var m := Without(l, k + 1);
    WithoutIs(h, l, k + 1);
    Differ(h, l, k, k + 1);
    Differ(h, l, 0, k);
    assert Sized(h, l, 0) && Sized(h, l, k) && l[k] in l && l[k + 1] in l;
    assert forall a :: IsBlock(m, live, a) <==> IsBlock(l, live, a) && a != l[k + 1];
    var g, o := Merged(h, l, k), Reowned(owner, l[k + 1], l[k]);
    forall u | u in o ensures UnitOk(g, m, live, o, u) {
      assert UnitOk(h, l, live, owner, u);
    }
    forall a | IsBlock(m, live, a) ensures BlockOk(g, o, a) {
      assert BlockOk(h, owner, a) && (a == l[k] ==> BlockOk(h, owner, l[k + 1]));
    }
  }

  /** A whole free block becomes live. */
  lemma TakenTiles(h: Heap, l: seq<int>, live: set<int>, owner: map<int, int>, k: int)
    requires IsList(h, l) && Tiles(h, l, live, owner) && 0 < k < |l| && Links(h, l, k)
    ensures Tiles(Unlinked(h, l, k), Without(l, k), live + {l[k]}, owner)
  {
    var m := Without(l, k);
    WithoutIs(h, l, k);
    assert Before(h, l, 0, k) && Sized(h, l, 0) && Sized(h, l, k) && l[k] in l;
    assert forall a :: IsBlock(m, live + {l[k]}, a) <==> IsBlock(l, live, a);
    forall u | u in owner ensures UnitOk(Unlinked(h, l, k), m, live + {l[k]}, owner, u) {
      assert UnitOk(h, l, live, owner, u);
    }
    forall a | IsBlock(m, live + {l[k]}, a) ensures BlockOk(Unlinked(h, l, k), owner, a) {
      assert BlockOk(h, owner, a);
    }
  }

  /** The tail of the free block `p` from `q` on becomes a live block. */
  ghost function CutOwner(owner: map<int, int>, p: int, q: int): map<int, int> {
    map u | u in owner :: if owner[u] == p && q <= u then q else owner[u]
  }

  /** A unit inside a block is no header of another block. */
  lemma Inside(h: Heap, l: seq<int>, live: set<int>, owner: map<int, int>, q: int)
    requires IsList(h, l) && Tiles(h, l, live, owner) && q > BASE && (q in owner ==> owner[q] != q)
    ensures q !in l && q !in live
  {
    assert IsBlock(l, live, q) ==> BlockOk(h, owner, q);
    forall i | 0 <= i < |l| ensures l[i] != q {
      assert Sized(h, l, i);
    }
  }

  ghost function Cut(h: Heap, p: int, n: int): Heap
    requires p in h.size
  {
    h.(size := h.size[p := n][p + n := h.size[p] - n])
  }

  lemma CutInside(h: Heap, l: seq<int>, live: set<int>, owner: map<int, int>, k: int, n: int)
    requires IsList(h, l) && Tiles(h, l, live, owner) && 0 < k < |l| && l[k] in h.size && 0 < n < h.size[l[k]]
    ensures l[k] > BASE && IsBlock(l, live, l[k]) && l[k] + n !in l && l[k] + n !in live
  {
    var p := l[k];
    assert Before(h, l, 0, k) && Sized(h, l, 0) && p in l;
    assert BlockOk(h, owner, p);
    assert p + n in owner;
    Inside(h, l, live, owner, p + n);
  }

  lemma CutBlock(h: Heap, owner: map<int, int>, p: int, n: int, a: int)
    requires p in h.size && 0 < n < h.size[p] && BlockOk(h, owner, p)
    requires a == p + n || BlockOk(h, owner, a)
    ensures BlockOk(Cut(h, p, n), CutOwner(owner, p, p + n), a)
  {
    var g, o := Cut(h, p, n), CutOwner(owner, p, p + n);
    forall u | a <= u < a + g.size[a] ensures u in o && o[u] == a {
      assert u in owner && owner[u] == if a == p + n then p else a;
    }
  }

  lemma CutUnit(h: Heap, l: seq<int>, live: set<int>, owner: map<int, int>, p: int, n: int, u: int)
    requires p in h.size && 0 < n < h.size[p] && !IsBlock(l, live, p + n) && u in owner && UnitOk(h, l, live, owner, u)
    ensures UnitOk(Cut(h, p, n), l, live + {p + n}, CutOwner(owner, p, p + n), u)
  {
  }

  lemma CutLive(h: Heap, l: seq<int>, live: set<int>, p: int, n: int)
    requires forall a :: a in live ==> LiveOk(h, l, a)
    requires p > BASE && p !in live && p in h.size && 0 < n < h.size[p] && p + n !in l
    ensures forall a :: a in live + {p + n} ==> LiveOk(Cut(h, p, n), l, a)
  {
    forall a | a in live + {p + n} ensures LiveOk(Cut(h, p, n), l, a) {
      assert a in live ==> LiveOk(h, l, a);
    }
  }

  lemma CutUnits(h: Heap, l: seq<int>, live: set<int>, owner: map<int, int>, p: int, n: int)
    requires Tiles(h, l, live, owner) && p in h.size && 0 < n < h.size[p] && !IsBlock(l, live, p + n)
    ensures var o := CutOwner(owner, p, p + n);
      forall u :: u in o ==> UnitOk(Cut(h, p, n), l, live + {p + n}, o, u)
  {
    var o := CutOwner(owner, p, p + n);
    forall u | u in o ensures UnitOk(Cut(h, p, n), l, live + {p + n}, o, u) {
      assert UnitOk(h, l, live, owner, u);
      CutUnit(h, l, live, owner, p, n, u);
    }
  }

  lemma CutBlocks(h: Heap, l: seq<int>, live: set<int>, owner: map<int, int>, p: int, n: int)
    requires Tiles(h, l, live, owner) && p in h.size && 0 < n < h.size[p] && IsBlock(l, live, p)
    ensures var g, o, more := Cut(h, p, n), CutOwner(owner, p, p + n), live + {p + n};
      forall a :: IsBlock(l, more, a) ==> BlockOk(g, o, a)
  {
    assert BlockOk(h, owner, p);
    var g, o, more := Cut(h, p, n), CutOwner(owner, p, p + n), live + {p + n};
    forall a | IsBlock(l, more, a) ensures BlockOk(g, o, a) {
      if a != p + n { assert IsBlock(l, live, a) && BlockOk(h, owner, a); }
      CutBlock(h, owner, p, n, a);
    }
  }

  lemma CutTiles(h: Heap, l: seq<int>, live: set<int>, owner: map<int, int>, p: int, n: int)
    requires Tiles(h, l, live, owner) && p > BASE && IsBlock(l, live, p) && p !in live
    requires p in h.size && 0 < n < h.size[p] && p + n !in l && p + n !in live
    ensures Tiles(Cut(h, p, n), l, live + {p + n}, CutOwner(owner, p, p + n))
  {
    CutLive(h, l, live, p, n);
    CutUnits(h, l, live, owner, p, n);
    CutBlocks(h, l, live, owner, p, n);
  }

  /** Units `p` to `p + n`, all of block `p`. */
  ghost function Span(p: int, n: nat): (m: map<int, int>)
    ensures forall u :: u in m <==> p <= u < p + n
    ensures forall u :: u in m ==> m[u] == p
  {
    if n == 0 then map[] else Span(p, n - 1)[p + n - 1 := p]
  }

  /** The list does not see a header outside it. */
  lemma SizeElsewhere(h: Heap, l: seq<int>, p: int, n: int)
    requires IsList(h, l) && p !in l
    ensures IsList(h.(size := h.size[p := n]), l)
    ensures Coalesced(h, l) ==> Coalesced(h.(size := h.size[p := n]), l)
  {
    var g := h.(size := h.size[p := n]);
    forall i | 0 <= i < |l| ensures Links(g, l, i) && Sized(g, l, i) && (Apart(h, l, i) ==> Apart(g, l, i)) {
      assert Links(h, l, i) && Sized(h, l, i) && l[i] in l;
    }
    forall i, j | 0 <= i < j < |l| ensures Before(g, l, i, j) {
      assert Before(h, l, i, j) && l[i] in l;
    }
  }

  /** A fresh block from sbrk. */
  lemma GrantedTiles(h: Heap, l: seq<int>, live: set<int>, owner: map<int, int>, p: int, n: nat)
    requires IsList(h, l) && Tiles(h, l, live, owner) && n > 0 && p > BASE && forall u :: u in owner ==> u < p
    ensures p !in l && p !in live
    ensures Tiles(h.(size := h.size[p := n]), l, live + {p}, owner + Span(p, n))
  {
    Inside(h, l, live, owner, p);
    var g, o := h.(size := h.size[p := n]), owner + Span(p, n);
    forall u | u in o ensures UnitOk(g, l, live + {p}, o, u) {
      assert u in owner ==> u < p && UnitOk(h, l, live, owner, u);
    }
    forall a | IsBlock(l, live + {p}, a) ensures BlockOk(g, o, a) {
      assert a != p ==> IsBlock(l, live, a) && BlockOk(h, owner, a);
    }
  }

  // ---------- conservation ----------

  /** Units in the blocks `bs`. */
  ghost function Total(h: Heap, bs: set<int>): int
    requires forall a :: a in bs ==> a in h.size
    decreases |bs|
  {
    if bs == {} then 0
    else
      SomeBlock(bs);
      var a :| a in bs;
      h.size[a] + Total(h, bs - {a})
  }

  lemma SomeBlock(bs: set<int>)
    requires bs != {}
    ensures exists a :: a in bs
  {
    var none: set<int> := {};
    assert (forall a :: a in bs <==> a in none) ==> bs == none;
  }

  lemma {:induction false} SpanSize(p: int, n: nat)
    ensures |Span(p, n)| == n
    decreases n
  {
    if n > 0 {
      SpanSize(p, n - 1);
      assert p + n - 1 !in Span(p, n - 1);
      assert Span(p, n).Keys == Span(p, n - 1).Keys + {p + n - 1};
    }
  }

  /** The units of `owner` are exactly those of the blocks `bs`. */
  ghost predicate Exact(h: Heap, bs: set<int>, owner: map<int, int>) {
    && (forall a :: a in bs ==> BlockOk(h, owner, a) && h.size[a] > 0)
    && (forall u :: u in owner ==> owner[u] in bs && owner[u] in h.size && owner[u] <= u < owner[u] + h.size[owner[u]])
  }

  /** The units of all blocks but `a`. */
  lemma Others(h: Heap, bs: set<int>, owner: map<int, int>, a: int)
    requires Exact(h, bs, owner) && a in bs
    ensures Exact(h, bs - {a}, owner - Span(a, h.size[a]).Keys)
  {
    var rest := owner - Span(a, h.size[a]).Keys;
    assert BlockOk(h, owner, a);
    assert forall u :: u in rest ==> u in owner && rest[u] == owner[u] && owner[u] != a;
    forall b | b in bs - {a} ensures BlockOk(h, rest, b) {
      assert BlockOk(h, owner, b);
      forall u | b <= u < b + h.size[b] ensures u in rest && rest[u] == b {
        assert u in owner && owner[u] == b;
      }
    }
  }

  lemma {:induction false} TotalIs(h: Heap, bs: set<int>, owner: map<int, int>)
    requires Exact(h, bs, owner)
    ensures Total(h, bs) == |owner|
    decreases |bs|
  {
    if bs != {} {
      SomeBlock(bs);
      var a :| a in bs && Total(h, bs) == h.size[a] + Total(h, bs - {a});
      var s := Span(a, h.size[a]);
      SpanSize(a, h.size[a]);
      assert BlockOk(h, owner, a);
      assert s.Keys <= owner.Keys;
      var rest := owner - s.Keys;
      assert rest.Keys == owner.Keys - s.Keys;
      Others(h, bs, owner, a);
      TotalIs(h, bs - {a}, rest);
    } else {
      var none: map<int, int> := map[];
      assert (forall u :: u in owner <==> u in none) ==> owner == none;
    }
  }

  /** Free and live units together are the units obtained. */
  lemma Conserved(h: Heap, l: seq<int>, live: set<int>, owner: map<int, int>)
    requires Valid(h, l, live, owner)
    ensures var bs := live + (set a | a in l) - {BASE};
      (forall a :: a in bs ==> a in h.size) && Total(h, bs) == |owner|
  {
    var bs := live + (set a | a in l) - {BASE};
    forall a | a in bs ensures IsBlock(l, live, a) && BlockOk(h, owner, a) && h.size[a] > 0 {
      assert a in live ==> LiveOk(h, l, a);
      assert BlockOk(h, owner, a);
      if a !in live {
        var i :| 0 <= i < |l| && l[i] == a;
        assert Sized(h, l, i);
      }
    }
    forall u | u in owner ensures owner[u] in bs && owner[u] in h.size && owner[u] <= u < owner[u] + h.size[owner[u]] {
      assert UnitOk(h, l, live, owner, u);
      assert owner[u] in live ==> LiveOk(h, l, owner[u]);
    }
    TotalIs(h, bs, owner);
  }
}
