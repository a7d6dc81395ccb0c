/** malloc and free of umalloc.c on the free list of module FreeList. Addresses and sizes are in
    units of one Header of 8 bytes. What sbrk answers is a parameter. */
module Malloc {
  import opened FreeList

  const NONE := -1              // the null pointer
  const MIN_GRANT := 4096       // units that morecore asks for at least
  const WORD := 0x1_0000_0000   // 2^32
  const HALF := 0x8000_0000     // 2^31

  // ---------- sizes ----------

  /** malloc's nunits, in 32-bit unsigned arithmetic. */
  function Nunits(nbytes: int): int { ((nbytes + 7) % WORD) / 8 + 1 }

  /** The number of bytes that sbrk is asked for, as the signed int it takes. */
  function Asked(nu: int): int {
    var n := (nu * 8) % WORD;
    if n < HALF then n else n - WORD
  }

  /** A block of Nunits has room for its header and the request exactly if the sum does not wrap. */
  lemma RoomExactly(nbytes: int)
    requires 0 <= nbytes < WORD
    ensures nbytes <= 8 * (Nunits(nbytes) - 1) <==> nbytes + 7 < WORD
    ensures 0 < Nunits(nbytes) <= WORD / 8
  {
  }

  /** sbrk is asked for the bytes of the block exactly if they are fewer than 2^31. */
  lemma AskedExactly(nu: int)
    requires 0 < nu <= WORD / 8
    ensures Asked(nu) == nu * 8 <==> nu * 8 < HALF
    ensures nu * 8 >= HALF ==> Asked(nu) <= 0
  {
  }

  /** The largest request that wraps gets a block with no room at all, and one of 2^31 bytes makes
      malloc ask for a negative amount. */
  lemma TooMuch()
    ensures Nunits(WORD - 1) == 1 && Asked(Nunits(HALF)) < 0
  {
  }

  // ---------- free ----------

  /** The last entry below address `b`. */
  ghost function Slot(l: seq<int>, b: int): (k: int)
    requires l != [] && l[0] < b
    ensures 0 <= k < |l| && l[k] < b
    ensures k + 1 < |l| ==> l[k + 1] >= b
  {
    if |l| == 1 || l[1] >= b then 0 else 1 + Slot(l[1..], b)
  }

  /** free's loop stops at entry `i` exactly if it is the slot. */
  lemma StopsAt(h: Heap, l: seq<int>, b: int, i: int)
    requires IsList(h, l) && BASE < b && b !in l && 0 <= i < |l| && l[0] < b && Links(h, l, i)
    ensures var p, n := l[i], h.ptr[l[i]];
      (p < b < n || (p >= n && (b > p || b < n))) <==> i == Slot(l, b)
  {
    var k := Slot(l, b);
    assert Sized(h, l, 0);
    assert i < k ==> Before(h, l, i, k);
    assert i + 1 < |l| ==> Before(h, l, i, i + 1);
    assert i + 1 < k ==> Before(h, l, i + 1, k);
    assert k < i ==> Before(h, l, k, i);
    assert k + 1 < i ==> Before(h, l, k + 1, i);
    assert i > 0 ==> Before(h, l, 0, i);
    assert l[i] in l && (k + 1 < |l| ==> l[k + 1] in l);
  }

  /** A live block fits where free puts it. */
  lemma SlotFits(h: Heap, l: seq<int>, live: set<int>, owner: map<int, int>, b: int)
    requires IsList(h, l) && Tiles(h, l, live, owner) && b in live
    ensures l[0] < b && b !in l && Fits(h, l, Slot(l, b), b)
  {
    assert LiveOk(h, l, b) && Sized(h, l, 0);
    var k := Slot(l, b);
    assert Sized(h, l, k) && l[k] in l;
    if k > 0 {
      assert Before(h, l, 0, k);
      Disjoint(h, l, live, owner, l[k], b);
    }
    if k + 1 < |l| {
      assert Sized(h, l, k + 1) && l[k + 1] in l && Before(h, l, 0, k + 1);
      Disjoint(h, l, live, owner, l[k + 1], b);
    }
  }

  /** Headers, free list, live blocks, and whose each unit is. */
  datatype View = View(h: Heap, l: seq<int>, live: set<int>, owner: map<int, int>)

  ghost predicate Ok(v: View) { IsList(v.h, v.l) && Tiles(v.h, v.l, v.live, v.owner) }

  ghost predicate AllOk(v: View) { Ok(v) && Coalesced(v.h, v.l) }

  /** Entry `k` ends where the next begins. */
  predicate Touches(v: View, k: int) {
    0 <= k < |v.l| - 1 && v.l[k] in v.h.size && v.l[k] + v.h.size[v.l[k]] == v.l[k + 1]
  }

  ghost function MergeAt(v: View, k: int): View
    requires Ok(v) && Touches(v, k)
  {
    assert Links(v.h, v.l, k + 1) && Sized(v.h, v.l, k + 1);
    View(Merged(v.h, v.l, k), Without(v.l, k + 1), v.live, Reowned(v.owner, v.l[k + 1], v.l[k]))
  }

  lemma MergeAtOk(v: View, k: int)
    requires Ok(v) && Touches(v, k)
    ensures Ok(MergeAt(v, k))
    ensures var w := MergeAt(v, k);
      forall i :: 0 <= i < |w.l| && Apart(v.h, v.l, Was(k, i)) ==> Apart(w.h, w.l, i)
  {
    assert Links(v.h, v.l, k + 1) && Sized(v.h, v.l, k + 1) && Sized(v.h, v.l, k);
    assert Before(v.h, v.l, 0, k + 1) && Sized(v.h, v.l, 0);
    MergeOk(v.h, v.l, k);
    MergedTiles(v.h, v.l, v.live, v.owner, k);
  }

  ghost function FreeInserted(v: View, b: int): View
    requires v.l != [] && v.l[0] < b
  {
    var k := Slot(v.l, b);
    View(Inserted(v.h, v.l, k, b), WithNode(v.l, k, b), v.live - {b}, v.owner)
  }

  lemma FreeInsertedOk(v: View, b: int)
    requires AllOk(v) && b in v.live
    ensures v.l[0] < b && Ok(FreeInserted(v, b))
    ensures var w, k := FreeInserted(v, b), Slot(v.l, b);
      forall i :: 0 <= i < |w.l| && i != k && i != k + 1 ==> Apart(w.h, w.l, i)
  {
    SlotFits(v.h, v.l, v.live, v.owner, b);
    var k := Slot(v.l, b);
    InsertOk(v.h, v.l, k, b);
    FreedTiles(v.h, v.l, v.live, v.owner, k, b);
    var w := FreeInserted(v, b);
    forall i | 0 <= i < |w.l| && i != k && i != k + 1 ensures Apart(w.h, w.l, i) {
      assert Apart(v.h, v.l, if i < k then i else i - 1);
    }
  }

  ghost function LowerMerged(x: View, k: int): View
    requires Ok(x)
  {
    if Touches(x, k) then MergeAt(x, k) else x
  }

  /** free: insertion, then merging with the upper and with the lower neighbour. */
  ghost function Freed(v: View, b: int): View
    requires AllOk(v) && b in v.live
  {
    FreeInsertedOk(v, b);
    var k, w := Slot(v.l, b), FreeInserted(v, b);
    if Touches(w, k + 1) then MergeAtOk(w, k + 1); LowerMerged(MergeAt(w, k + 1), k)
    else LowerMerged(w, k)
  }

  lemma LowerOk(x: View, k: int)
    requires Ok(x) && 0 <= k < |x.l| && forall i :: 0 <= i < |x.l| && i != k ==> Apart(x.h, x.l, i)
    ensures AllOk(LowerMerged(x, k))
  {
    assert Sized(x.h, x.l, k) && (k + 1 < |x.l| ==> Before(x.h, x.l, k, k + 1));
    if Touches(x, k) {
      MergeAtOk(x, k);
      var y := MergeAt(x, k);
      forall i | 0 <= i < |y.l| ensures Apart(y.h, y.l, i) {
        assert Was(k, i) != k && Apart(x.h, x.l, Was(k, i));
      }
    }
  }

  lemma FreedOk(v: View, b: int)
    requires AllOk(v) && b in v.live
    ensures AllOk(Freed(v, b))
  {
    FreeInsertedOk(v, b);
    var k, w := Slot(v.l, b), FreeInserted(v, b);
    assert Sized(w.h, w.l, k + 1) && (k + 2 < |w.l| ==> Before(w.h, w.l, k + 1, k + 2));
    if Touches(w, k + 1) {
      MergeAtOk(w, k + 1);
      var x := MergeAt(w, k + 1);
      forall i | 0 <= i < |x.l| && i != k ensures Apart(x.h, x.l, i) {
        assert Apart(w.h, w.l, Was(k + 1, i));
      }
      LowerOk(x, k);
    } else {
      LowerOk(w, k);
    }
  }

  /** What free leaves as it was: the units there are, the other live blocks, and which units
      are in one block. */
  ghost predicate Kept(v: View, w: View, b: int) {
    && w.live == v.live - {b} && w.owner.Keys == v.owner.Keys
    && (forall a :: a in w.live && a in v.h.size ==> a in w.h.size && w.h.size[a] == v.h.size[a])
    && (forall x, y :: x in v.owner && y in v.owner && v.owner[x] == v.owner[y] ==> w.owner[x] == w.owner[y])
  }

  lemma MergeKept(v: View, w: View, b: int, k: int)
    requires Kept(v, w, b) && Ok(w) && Touches(w, k)
    ensures Kept(v, MergeAt(w, k), b)
  {
    assert w.l[k] in w.l;
    assert forall a :: a in w.live ==> LiveOk(w.h, w.l, a);
  }

  lemma FreedKept(v: View, b: int)
    requires AllOk(v) && b in v.live
    ensures Kept(v, Freed(v, b), b)
  {
    FreeInsertedOk(v, b);
    var k, w := Slot(v.l, b), FreeInserted(v, b);
    assert Kept(v, w, b);
    if Touches(w, k + 1) {
      MergeAtOk(w, k + 1);
      MergeKept(v, w, b, k + 1);
      var x := MergeAt(w, k + 1);
      if Touches(x, k) { MergeKept(v, x, b, k); }
    } else {
      if Touches(w, k) { MergeKept(v, w, b, k); }
    }
  }

  /** The freed units are in one free block of at least their size. */
  lemma FreedRoom(v: View, b: int)
    requires AllOk(v) && b in v.live
    ensures LiveOk(v.h, v.l, b)
    ensures var w := Freed(v, b); exists i :: 0 < i < |w.l| && w.l[i] in w.h.size && w.h.size[w.l[i]] >= v.h.size[b]
  {
    assert LiveOk(v.h, v.l, b) && BlockOk(v.h, v.owner, b);
    var w, n := Freed(v, b), v.h.size[b];
    FreedOk(v, b);
    FreedKept(v, b);
    var e := b + n - 1;
    assert v.owner[b] == b == v.owner[e];
    var a := w.owner[b];
    assert UnitOk(w.h, w.l, w.live, w.owner, b) && UnitOk(w.h, w.l, w.live, w.owner, e);
    assert a in w.live ==> IsBlock(v.l, v.live, a) && BlockOk(v.h, v.owner, a);
    assert a in w.l && a != BASE;
    var i :| 0 <= i < |w.l| && w.l[i] == a;
    assert Sized(w.h, w.l, 0);
  }

  /** free's first assignments, once it has found `p`: to the fields of the freed block. */
  function FreeUpper(h: Heap, p: int, b: int): Heap
    requires p in h.ptr && b in h.size && h.ptr[p] in h.size && h.ptr[p] in h.ptr
  {
    var n := h.ptr[p];
    if b + h.size[b] == n then Heap(h.ptr[b := h.ptr[n]], h.size[b := h.size[b] + h.size[n]])
    else h.(ptr := h.ptr[b := n])
  }

  /** And its last ones, to those of `p`. */
  function FreeLower(g: Heap, p: int, b: int): Heap
    requires p in g.size && b in g.size && b in g.ptr
  {
    if p + g.size[p] == b then Heap(g.ptr[p := g.ptr[b]], g.size[p := g.size[p] + g.size[b]])
    else g.(ptr := g.ptr[p := b])
  }

  ghost function UpperMerged(v: View, b: int): View
    requires AllOk(v) && b in v.live
  {
    FreeInsertedOk(v, b);
    var k, w := Slot(v.l, b), FreeInserted(v, b);
    if Touches(w, k + 1) then MergeAt(w, k + 1) else w
  }

  /** Linking `b` in after `p` and merging it with what follows, in either order. */
  lemma UpperHeap(h: Heap, w: Heap, l: seq<int>, j: int, p: int, b: int)
    requires p in h.ptr && b in h.size && h.ptr[p] in h.size && h.ptr[p] in h.ptr && p < b < h.ptr[p]
    requires w == h.(ptr := h.ptr[b := h.ptr[p]][p := b]) && b + h.size[b] == h.ptr[p]
    requires 0 <= j < |l| - 1 && l[j] == b && l[j + 1] == h.ptr[p]
    ensures Merged(w, l, j) == (var g := FreeUpper(h, p, b); g.(ptr := g.ptr[p := b]))
  {
    var to: int := h.ptr[h.ptr[p]];
    var once: map<int, int>, twice: map<int, int> := h.ptr[b := to], h.ptr[b := h.ptr[p]][p := b];
    assert once[p := b] == twice[b := to];
  }

  lemma UpperIs(v: View, b: int)
    requires AllOk(v) && b in v.live && v.l[0] < b
    ensures var k, x := Slot(v.l, b), UpperMerged(v, b);
      var p := v.l[k];
      && p in v.h.ptr && b in v.h.size && v.h.ptr[p] in v.h.size && v.h.ptr[p] in v.h.ptr
      && |x.l| > k + 1 && x.l[k] == p && x.l[k + 1] == b
      && x.h == (var g := FreeUpper(v.h, p, b); g.(ptr := g.ptr[p := b]))
  {
    FreeInsertedOk(v, b);
    SlotPlace(v, b);
    var k, w := Slot(v.l, b), FreeInserted(v, b);
    if k + 1 < |v.l| && b + v.h.size[b] == v.h.ptr[v.l[k]] { UpperHeap(v.h, w.h, w.l, k + 1, v.l[k], b); }
  }

  /** Where block `b` goes: after the entry `p` of its slot and before what `p` points to, which is
      above `b` or the base. */
  lemma SlotPlace(v: View, b: int)
    requires AllOk(v) && b in v.live && v.l[0] < b
    ensures var k, w := Slot(v.l, b), FreeInserted(v, b);
      var p := v.l[k];
      && p in v.h.ptr && b in v.h.size && v.h.ptr[p] in v.h.size && v.h.ptr[p] in v.h.ptr
      && |w.l| == |v.l| + 1 && w.l[k] == p && w.l[k + 1] == b
      && (if k + 1 < |v.l| then w.l[k + 2] == v.h.ptr[p] > b else b + v.h.size[b] > v.h.ptr[p])
      && p < b && b !in v.l && v.h.ptr[p] in v.l && w.h == v.h.(ptr := v.h.ptr[b := v.h.ptr[p]][p := b])
  {
    SlotFits(v.h, v.l, v.live, v.owner, b);
    var k := Slot(v.l, b);
    var j := if k + 1 < |v.l| then k + 1 else 0;
    assert Links(v.h, v.l, k) && Links(v.h, v.l, j) && Sized(v.h, v.l, j) && Sized(v.h, v.l, 0);
    assert LiveOk(v.h, v.l, b);
  }

  lemma FreeIs(v: View, b: int)
    requires AllOk(v) && b in v.live && v.l[0] < b
    ensures var p, x := v.l[Slot(v.l, b)], Freed(v, b);
      && p in v.h.ptr && p in v.h.size && b in v.h.size && v.h.ptr[p] in v.h.size && v.h.ptr[p] in v.h.ptr
      && p != b && x.h == FreeLower(FreeUpper(v.h, p, b), p, b)
  {
    UpperIs(v, b);
    var k := Slot(v.l, b);
    assert Sized(v.h, v.l, k);
    SlotFits(v.h, v.l, v.live, v.owner, b);
    FreedLower(v, b);
    LowerHeap(v.h, UpperMerged(v, b), k, v.l[k], b);
  }

  lemma FreedLower(v: View, b: int)
    requires AllOk(v) && b in v.live && v.l[0] < b
    ensures Ok(UpperMerged(v, b)) && 0 <= Slot(v.l, b) < |UpperMerged(v, b).l|
    ensures Freed(v, b) == LowerMerged(UpperMerged(v, b), Slot(v.l, b))
  {
    FreeInsertedOk(v, b);
    var k, w := Slot(v.l, b), FreeInserted(v, b);
    if Touches(w, k + 1) { MergeAtOk(w, k + 1); }
  }

  /** Merging entry `k` with the block after it, or not, is what free's last assignments do. */
  lemma LowerHeap(h: Heap, x: View, k: int, p: int, b: int)
    requires p in h.ptr && p in h.size && b in h.size && h.ptr[p] in h.size && h.ptr[p] in h.ptr && p != b
    requires Ok(x) && 0 <= k < |x.l| - 1 && x.l[k] == p && x.l[k + 1] == b
    requires x.h == (var g := FreeUpper(h, p, b); g.(ptr := g.ptr[p := b]))
    ensures var g := FreeUpper(h, p, b);
      p in g.size && b in g.size && b in g.ptr && LowerMerged(x, k).h == FreeLower(g, p, b)
  {
  }

  // ---------- malloc ----------

  /** The fields that malloc changes to take `n` units off the block `p` after `prev`. */
  function TakeAt(h: Heap, prev: int, p: int, n: int): Heap
    requires p in h.size && p in h.ptr
  {
    if h.size[p] == n then h.(ptr := h.ptr[prev := h.ptr[p]])
    else h.(size := h.size[p := h.size[p] - n][p + h.size[p] - n := n])
  }

  /** The header of the block that malloc hands out. */
  function TakenHeader(h: Heap, p: int, n: int): int
    requires p in h.size
  {
    p + h.size[p] - n
  }

  ghost function Taken(v: View, k: int, n: int): View
    requires Ok(v) && 0 < k < |v.l| && v.l[k] in v.h.size && v.l[k] in v.h.ptr
  {
    var p := v.l[k];
    var q := TakenHeader(v.h, p, n);
    View(TakeAt(v.h, v.l[k - 1], p, n), if v.h.size[p] == n then Without(v.l, k) else v.l,
         v.live + {q}, if v.h.size[p] == n then v.owner else CutOwner(v.owner, p, q))
  }

  /** malloc takes the whole block. */
  lemma TakenWhole(v: View, k: int)
    requires AllOk(v) && 0 < k < |v.l| && v.l[k] in v.h.size && v.l[k] in v.h.ptr
    ensures AllOk(Taken(v, k, v.h.size[v.l[k]])) && v.l[k] !in v.live
    ensures v.h.size[v.l[k]] > 0
  {
    assert Links(v.h, v.l, k) && Sized(v.h, v.l, k) && v.l[k] in v.l;
    UnlinkOk(v.h, v.l, k);
    TakenTiles(v.h, v.l, v.live, v.owner, k);
  }

  /** malloc takes the tail of the block. */
  lemma TakenTail(v: View, k: int, n: int)
    requires AllOk(v) && 0 < k < |v.l| && v.l[k] in v.h.size && v.l[k] in v.h.ptr && 0 < n < v.h.size[v.l[k]]
    ensures AllOk(Taken(v, k, n)) && v.l[k] + v.h.size[v.l[k]] - n !in v.live
  {
    var p, m := v.l[k], v.h.size[v.l[k]] - n;
    assert Links(v.h, v.l, k) && p in v.l;
    CutInside(v.h, v.l, v.live, v.owner, k, m);
    ShrinkOk(v.h, v.l, k, m, p + m, n);
    CutTiles(v.h, v.l, v.live, v.owner, p, m);
  }

  lemma TakenOk(v: View, k: int, n: int)
    requires AllOk(v) && 0 < k < |v.l| && v.l[k] in v.h.size && v.l[k] in v.h.ptr && 0 < n <= v.h.size[v.l[k]]
    ensures AllOk(Taken(v, k, n))
    ensures var w, q := Taken(v, k, n), TakenHeader(v.h, v.l[k], n);
      q !in v.live && q in w.h.size && w.h.size[q] == n && w.owner.Keys == v.owner.Keys
  {
    if v.h.size[v.l[k]] == n { TakenWhole(v, k); } else { TakenTail(v, k, n); }
  }

  // ---------- the allocator ----------

  /** Entry `j` was met on the way from just after `f` to `i`. */
  predicate Passed(f: int, i: int, j: int) { if i >= f then f < j <= i else j > f || j <= i }

  /** The entry that free stops at is on the list afterwards. */
  lemma FreedHas(v: View, b: int)
    requires AllOk(v) && b in v.live && v.l[0] < b
    ensures v.l[Slot(v.l, b)] in Freed(v, b).l
  {
    UpperIs(v, b);
    FreeInsertedOk(v, b);
    var k, x := Slot(v.l, b), UpperMerged(v, b);
    if Touches(FreeInserted(v, b), k + 1) { MergeAtOk(FreeInserted(v, b), k + 1); }
    var y := LowerMerged(x, k);
    assert y == Freed(v, b);
    assert y.l[k] == x.l[k];
  }

  /** No entry of the list has `n` units. */
  ghost predicate NoFit(v: View, n: int) {
    forall i :: 0 <= i < |v.l| && v.l[i] in v.h.size ==> v.h.size[v.l[i]] < n
  }

  /** Live blocks stay live and keep their size. */
  ghost predicate SameLive(v: View, w: View) {
    forall a :: a in v.live && a in v.h.size ==> a in w.live && a in w.h.size && w.h.size[a] == v.h.size[a]
  }

  lemma TakenSame(v: View, k: int, n: int)
    requires Ok(v) && 0 < k < |v.l| && v.l[k] in v.h.size && v.l[k] in v.h.ptr && 0 < n <= v.h.size[v.l[k]]
    ensures SameLive(v, Taken(v, k, n))
  {
    if n < v.h.size[v.l[k]] {
      CutInside(v.h, v.l, v.live, v.owner, k, v.h.size[v.l[k]] - n);
    }
    assert v.l[k] in v.l && forall a :: a in v.live ==> LiveOk(v.h, v.l, a);
  }

  /** How many units morecore asks for. */
  function Chunk(nu: int): int { if nu < MIN_GRANT then MIN_GRANT else nu }

  /** sbrk adds memory above all it has given so far. */
  ghost predicate GrantOk(owner: map<int, int>, grant: int) {
    grant != NONE ==> grant > BASE && forall u :: u in owner ==> u < grant
  }

  /** All about one call of free. */
  lemma FreeFacts(v: View, b: int)
    requires AllOk(v) && b in v.live
    ensures b > BASE && b !in v.l && v.l[0] < b
    ensures var p, w := v.l[Slot(v.l, b)], Freed(v, b);
      && p in v.h.ptr && p in v.h.size && b in v.h.size && v.h.ptr[p] in v.h.size && v.h.ptr[p] in v.h.ptr
      && p != b && w.h == FreeLower(FreeUpper(v.h, p, b), p, b)
      && AllOk(w) && Kept(v, w, b) && p in w.l
  {
    assert LiveOk(v.h, v.l, b) && Sized(v.h, v.l, 0);
    FreeIs(v, b);
    FreedOk(v, b);
    FreedKept(v, b);
    FreedHas(v, b);
  }

  /** How morecore ends. `Stray`: sbrk was asked for no memory, or to give some back, and the next
      thing is a store of a header outside of the memory obtained. */
  datatype More = Refused | Granted | Stray

  class Allocator {
    var h: Heap
    var freep: int
    ghost var l: seq<int>
    ghost var live: set<int>
    ghost var owner: map<int, int>   // its keys are the units obtained from morecore

    ghost function V(): View
      reads this
    {
      View(h, l, live, owner)
    }

    ghost predicate Ready()
      reads this
    {
      AllOk(V()) && freep in l
    }

    /** Before the first call, freep is null. */
    ghost predicate Valid()
      reads this
    {
      if freep == NONE then l == [] && live == {} && owner == map[] else Ready()
    }

    constructor ()
      ensures Valid() && live == {} && owner == map[]
    {
      h, freep := Heap(map[], map[]), NONE;
      l, live, owner := [], {}, map[];
    }

    /** free's loop: the entry after which block `b` belongs. */
    method FindSlot(b: int) returns (p: int)
      requires Ready() && b > BASE && b !in l
      ensures l[0] < b && p == l[Slot(l, b)]
    {
      assert Sized(h, l, 0);
      p := freep;
      ghost var k := Slot(l, b);
      ghost var i :| 0 <= i < |l| && l[i] == p;
      assert Links(h, l, i);
      while !(b > p && b < h.ptr[p])
        invariant 0 <= i < |l| && p == l[i] && Links(h, l, i)
        decreases if i <= k then k - i else |l| - i + k
      {
        StopsAt(h, l, b, i);
        if p >= h.ptr[p] && (b > p || b < h.ptr[p]) { break; }
        p := h.ptr[p];
        i := if i + 1 == |l| then 0 else i + 1;
        assert Links(h, l, i);
      }
      StopsAt(h, l, b, i);
    }

    /** free's assignments, once it has found `p`. */
    method Relink(p: int, b: int)
      requires p in h.ptr && p in h.size && b in h.size && h.ptr[p] in h.size && h.ptr[p] in h.ptr
      modifies `h
      ensures h == FreeLower(FreeUpper(old(h), p, b), p, b)
    {
      var n := h.ptr[p];
      if b + h.size[b] == n {
        h := Heap(h.ptr[b := h.ptr[n]], h.size[b := h.size[b] + h.size[n]]);
      } else {
        h := h.(ptr := h.ptr[b := n]);
      }
      if p + h.size[p] == b {
        h := Heap(h.ptr[p := h.ptr[b]], h.size[p := h.size[p] + h.size[b]]);
      } else {
        h := h.(ptr := h.ptr[p := b]);
      }
    }

    /** free of the block with header `b`. */
    method Free(b: int)
      requires Ready() && b in live
      modifies this
      ensures Ready() && V() == Freed(old(V()), b) && Kept(old(V()), V(), b)
    {
      ghost var v, w := V(), Freed(V(), b);
      FreeFacts(v, b);
      var p := FindSlot(b);
      Relink(p, b);
      freep := p;
      l, live, owner := w.l, w.live, w.owner;
      assert V() == w;
    }

    /** malloc's loop: the first block that is large enough, on from freep, and the entry before
        it; or NONE once it is back at freep. */
    method Search(nunits: int) returns (prevp: int, p: int)
      requires Ready() && nunits > 0
      ensures p == NONE <==> forall i :: 0 <= i < |l| && l[i] in h.size ==> h.size[l[i]] < nunits
      ensures p != NONE ==> exists k :: 0 < k < |l| && p == l[k] && prevp == l[k - 1] && p in h.size && h.size[p] >= nunits
    {
      ghost var f :| 0 <= f < |l| && l[f] == freep;
      ghost var i := f;
      assert Links(h, l, f) && Sized(h, l, 0);
      prevp := freep;
      p := h.ptr[prevp];
      while true
        invariant 0 <= i < |l| && prevp == l[i] && p == At(l, i + 1)
        invariant forall j :: 0 <= j < |l| && Passed(f, i, j) ==> l[j] in h.size && h.size[l[j]] < nunits
        invariant i != f ==> Passed(f, i, i)
        decreases if i >= f then |l| - i + f else f - i
      {
        ghost var j := if i + 1 == |l| then 0 else i + 1;
        assert Links(h, l, j) && Sized(h, l, j);
        if h.size[p] >= nunits {
          assert p == l[j] && j > 0 && Before(h, l, 0, j);
          return;
        }
        if p == freep {
          if j != f { Differ(h, l, j, f); }
          forall m | 0 <= m < |l| && l[m] in h.size ensures h.size[l[m]] < nunits {
            assert m == f || Passed(f, i, m);
          }
          p := NONE;
          return;
        }
        prevp, p := p, h.ptr[p];
        i := j;
      }
    }

    /** morecore. `grant` is where the memory that sbrk adds begins, or NONE if it refuses. */
    method Morecore(nu: int, grant: int) returns (r: More)
      requires Ready() && nu > 0 && GrantOk(owner, grant)
      modifies this
      ensures Ready() && live == old(live) && (r.Refused? <==> grant == NONE)
      ensures r.Stray? <==> grant != NONE && Asked(Chunk(nu)) != 8 * Chunk(nu)
      ensures !r.Granted? ==> V() == old(V()) && freep == old(freep)
      ensures r.Granted? ==> owner.Keys == old(owner.Keys) + Span(grant, Chunk(nu)).Keys && !NoFit(V(), nu)
      ensures SameLive(old(V()), V())
    {
      if grant == NONE { return Refused; }
      var n := Chunk(nu);
      if Asked(n) != 8 * n { return Stray; }
      ghost var v := V();
      GrantedTiles(h, l, live, owner, grant, n);
      SizeElsewhere(h, l, grant, n);
      h := h.(size := h.size[grant := n]);
      live, owner := live + {grant}, owner + Span(grant, n);
      FreedRoom(V(), grant);
      Free(grant);
      assert v.live + {grant} - {grant} == v.live;
      r := Granted;
    }

    /** The block `p` after `prevp` is large enough: malloc takes it, or its tail. */
    method Take(prevp: int, p: int, nunits: int, ghost k: int) returns (q: int)
      requires Ready() && nunits > 0 && 0 < k < |l| && p == l[k] && prevp == l[k - 1]
      requires p in h.size && h.size[p] >= nunits
      modifies this
      ensures Ready() && q !in old(live) && live == old(live) + {q} && owner.Keys == old(owner.Keys)
      ensures q in h.size && h.size[q] == nunits && q > BASE && SameLive(old(V()), V())
    {
      ghost var v := V();
      assert Links(h, l, k) && l[k] in l;
      ghost var w := Taken(v, k, nunits);
      TakenOk(v, k, nunits);
      TakenSame(v, k, nunits);
      if h.size[p] == nunits {
        h := h.(ptr := h.ptr[prevp := h.ptr[p]]);
        q := p;
      } else {
        h := h.(size := h.size[p := h.size[p] - nunits]);
        q := p + h.size[p];
        h := h.(size := h.size[q := nunits]);
      }
      assert h == w.h;
      freep := prevp;
      l, live, owner := w.l, w.live, w.owner;
      assert LiveOk(h, l, q);
    }

    /** malloc's first call: a list of `base` alone. */
    method Start(ghost n: int)
      requires Valid() && freep == NONE && n > 0
      modifies this
      ensures Ready() && live == old(live) && owner == old(owner) && NoFit(V(), n)
    {
      h, freep := Heap(h.ptr[BASE := BASE], h.size[BASE := 0]), BASE;
      l := [BASE];
      assert Links(h, l, 0) && Sized(h, l, 0) && Apart(h, l, 0);
    }

    /** malloc. The result is one unit past the header of the new block. `stray`: morecore goes
        astray, and what the program does from then on is not modelled. */
    method Malloc(nbytes: int, grant: int) returns (r: int, stray: bool)
      requires Valid() && 0 <= nbytes < WORD && GrantOk(owner, grant)
      modifies this
      ensures Ready()
      ensures stray <==> grant != NONE && NoFit(old(V()), Nunits(nbytes)) && 8 * Nunits(nbytes) >= HALF
      ensures r == NONE <==> stray || (grant == NONE && NoFit(old(V()), Nunits(nbytes)))
      ensures r == NONE ==> live == old(live) && owner == old(owner)
      ensures r != NONE ==>
        && r - 1 !in old(live) && live == old(live) + {r - 1} && r - 1 in h.size && h.size[r - 1] == Nunits(nbytes)
        && (nbytes <= 8 * (h.size[r - 1] - 1) <==> nbytes + 7 < WORD)
      // Units are obtained only if no free block fits, and once.
      ensures owner.Keys == old(owner.Keys) + if r != NONE && NoFit(old(V()), Nunits(nbytes))
                                              then Span(grant, Chunk(Nunits(nbytes))).Keys else {}
      ensures SameLive(old(V()), V())
    {
      RoomExactly(nbytes);
      var nunits := Nunits(nbytes);
      if freep == NONE { Start(nunits); }
      var prevp, p := Search(nunits);
      if p == NONE {
        AskedExactly(Chunk(nunits));
        var more := Morecore(nunits, grant);
        if !more.Granted? { return NONE, more.Stray?; }
        prevp, p := Search(nunits);
      }
      ghost var k :| 0 < k < |l| && p == l[k] && prevp == l[k - 1] && p in h.size && h.size[p] >= nunits;
      var q := Take(prevp, p, nunits, k);
      return q + 1, false;
    }
  }
}
