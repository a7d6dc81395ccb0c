/** Inode contents of fs.c: balloc, bfree, bmap, itrunc, readi and writei over the
    buffer-cache view of the disk (what bread returns and log_write records). */
module FileSystem {
  import opened Blocks
  import opened BlockTree
  import opened BlockNeed
  import opened FileIndex
  import opened FileNeed
  import Bitmap

  const MAXBYTES := 18432000      // MAXFILE * BSIZE, with MAXFILE = FSSIZE * 0.9

  ghost predicate StoreOk(d: Disk, m: seq<bv8>, meta: int) {
    && 0 < meta <= |d| <= WORD_LIMIT && |d| <= 8 * |m|
    && (forall b :: 0 <= b < |d| ==> d[b].Valid())
    && (forall b :: 0 <= b < meta ==> Bitmap.Used(m, b))
  }

  /** From bitmap `m` to `m'` exactly the free data blocks `added` have been allocated. */
  ghost predicate Took(m: seq<bv8>, m': seq<bv8>, meta: int, n: int, added: set<int>) {
    && (forall b :: b in added ==> meta <= b < n && !Bitmap.Used(m, b))
    && (forall b :: Bitmap.Used(m', b) <==> b in added || Bitmap.Used(m, b))
  }

  lemma TookMore(m: seq<bv8>, m1: seq<bv8>, m2: seq<bv8>, meta: int, n: int, first: set<int>, next: set<int>)
    requires Took(m, m1, meta, n, first) && Took(m1, m2, meta, n, next)
    ensures Took(m, m2, meta, n, first + next) && first !! next
  {
    forall b | b in first ensures b !in next { assert Bitmap.Used(m1, b); }
  }

  /** The free blocks among the first `n`. */
  ghost function FreeSet(m: seq<bv8>, n: int): set<int> {
    set b | 0 <= b < n && !Bitmap.Used(m, b)
  }

  lemma TookFree(m: seq<bv8>, m': seq<bv8>, meta: int, n: int, added: set<int>)
    requires 0 <= meta && Took(m, m', meta, n, added)
    ensures |FreeSet(m', n)| == |FreeSet(m, n)| - |added|
  {
    assert FreeSet(m', n) == FreeSet(m, n) - added && added <= FreeSet(m, n);
  }

  lemma NoneFreeIs(m: seq<bv8>, n: int)
    requires forall b :: 0 <= b < n ==> Bitmap.Used(m, b)
    ensures |FreeSet(m, n)| == 0
  {
    assert FreeSet(m, n) == {};
  }

  /** What a successful walk leaves: index `k` of the tree is data block `r`, the tree has
      gained exactly `added`, and a newly allocated data block is zeroed. */
  ghost predicate Walked(d: Disk, e: Disk, a: int, h: nat, meta: int, added: set<int>, k: int, r: int)
    requires h <= MAXHEIGHT && 0 <= k < Span(h)
  {
    && WF(e, a, h, meta) && Grown(d, a, e, a, h, added, k) && OnlyChanged(d, e, a, h, added)
    && Look(e, a, h, k) == r != 0
    && (Look(d, a, h, k) == 0 ==> r in added && 0 <= r < |e| && e[r] == Zero())
  }

  /** `d1` is `d` once child `c` of block `a` exists. */
  ghost predicate Linked(d: Disk, d1: Disk, a: int, i: int, c: int)
    requires 0 <= i < NINDIRECT
  {
    if Child(d, a, i) != 0 then d1 == d && c == Child(d, a, i)
    else
      && 0 <= a < |d| && 0 <= c < |d| <= WORD_LIMIT && d[a].Valid()
      && d1 == d[c := Zero()][a := SetWord(d[a], i, c)]
  }

  lemma WalkInto(d: Disk, d1: Disk, a: int, h: nat, meta: int, c: int, k: int)
    requires 0 < h <= MAXHEIGHT && a != 0 && 0 <= k < Span(h) && 0 < meta && WF(d, a, h, meta)
    requires Linked(d, d1, a, Ix(h, k), c)
    requires Child(d, a, Ix(h, k)) == 0 ==> meta <= c && c != a
    ensures c != 0 && WF(d1, c, h - 1, meta)
    ensures forall b :: InTree(d1, c, h - 1, b) ==> InTree(d, a, h, b) || b == c
    ensures Look(d, a, h, k) != 0 ==> d1 == d && Look(d1, c, h - 1, Rem(h, k)) == Look(d, a, h, k)
    ensures Child(d, a, Ix(h, k)) == 0 && h > 1 ==> Look(d1, c, h - 1, Rem(h, k)) == 0
  {
    if Child(d, a, Ix(h, k)) == 0 { ZeroTree(d1, c, h - 1, meta); }
  }

  lemma WalkBase(d: Disk, a: int, meta: int)
    requires a != 0 && WF(d, a, 0, meta)
    ensures Walked(d, d, a, 0, meta, {}, 0, a)
  {
  }

  /** The block that the step itself allocated. */
  ghost function First(d: Disk, a: int, h: nat, k: int, c: int): set<int>
    requires 0 < h <= MAXHEIGHT && 0 <= k < Span(h)
  {
    if Child(d, a, Ix(h, k)) == 0 then {c} else {}
  }

  lemma WalkUpNew(d: Disk, d1: Disk, e: Disk, a: int, h: nat, meta: int, c: int, added: set<int>, k: int, r: int)
    requires 0 < h <= MAXHEIGHT && a != 0 && 0 <= k < Span(h) && 0 < meta && WF(d, a, h, meta)
    requires Linked(d, d1, a, Ix(h, k), c)
    requires Child(d, a, Ix(h, k)) == 0 && meta <= c && c != a && c !in added
    requires NewTo(d, a, h, First(d, a, h, k, c) + added)
    requires Walked(d1, e, c, h - 1, meta, added, Rem(h, k), r)
    ensures Walked(d, e, a, h, meta, First(d, a, h, k, c) + added, k, r)
  {
    WalkNewZero(d, d1, e, a, h, meta, c, added, k, r);
    StepNew(d, d1, e, a, h, meta, c, added, k);
  }

  /** The data block at the end of a new path is new and zeroed. */
  lemma WalkNewZero(d: Disk, d1: Disk, e: Disk, a: int, h: nat, meta: int, c: int, added: set<int>, k: int, r: int)
    requires 0 < h <= MAXHEIGHT && a != 0 && 0 <= k < Span(h) && 0 < meta && WF(d, a, h, meta)
    requires Linked(d, d1, a, Ix(h, k), c)
    requires Child(d, a, Ix(h, k)) == 0 && meta <= c && c != a && c !in added
    requires NewTo(d, a, h, First(d, a, h, k, c) + added)
    requires Walked(d1, e, c, h - 1, meta, added, Rem(h, k), r)
    ensures r in {c} + added && 0 <= r < |e| && e[r] == Zero()
    ensures JustAdded(d, d1, e, a, h, meta, c, added, k)
  {
    ZeroTree(d1, c, h - 1, meta);
    if h == 1 { assert r == c && !Inner(d1, c, 0, c); }
  }

  lemma WalkUp(d: Disk, d1: Disk, e: Disk, a: int, h: nat, meta: int, c: int, added: set<int>, k: int, r: int)
    requires 0 < h <= MAXHEIGHT && a != 0 && 0 <= k < Span(h) && 0 < meta && WF(d, a, h, meta)
    requires Linked(d, d1, a, Ix(h, k), c)
    requires Child(d, a, Ix(h, k)) == 0 ==> meta <= c && c != a && c !in added
    requires NewTo(d, a, h, First(d, a, h, k, c) + added)
    requires Walked(d1, e, c, h - 1, meta, added, Rem(h, k), r)
    ensures Walked(d, e, a, h, meta, First(d, a, h, k, c) + added, k, r)
  {
    if Child(d, a, Ix(h, k)) == 0 {
      WalkUpNew(d, d1, e, a, h, meta, c, added, k, r);
    } else {
      assert {} + added == added;
      StepOld(d, e, a, h, meta, added, k);
    }
  }

  /** One step of the walk and the walk below it, together. */
  lemma WalkDone(d: Disk, d1: Disk, e: Disk, m: seq<bv8>, m1: seq<bv8>, m2: seq<bv8>,
                 a: int, h: nat, meta: int, c: int, added: set<int>, k: int, r: int)
    requires 0 < h <= MAXHEIGHT && a != 0 && 0 <= k < Span(h) && 0 < meta && WF(d, a, h, meta)
    requires forall b :: InTree(d, a, h, b) ==> Bitmap.Used(m, b)
    requires Linked(d, d1, a, Ix(h, k), c) && (Child(d, a, Ix(h, k)) == 0 ==> meta <= c && c != a)
    requires Took(m, m1, meta, |e|, First(d, a, h, k, c)) && Took(m1, m2, meta, |e|, added)
    requires r != -1 ==> Walked(d1, e, c, h - 1, meta, added, Rem(h, k), r)
    ensures Took(m, m2, meta, |e|, First(d, a, h, k, c) + added)
    ensures r != -1 ==> Walked(d, e, a, h, meta, First(d, a, h, k, c) + added, k, r)
  {
    var first := First(d, a, h, k, c);
    TookMore(m, m1, m2, meta, |e|, first, added);
    assert c in first ==> c !in added;
    if r != -1 { WalkUp(d, d1, e, a, h, meta, c, added, k, r); }
  }

  /** What the step and the walk below it need, together. */
  lemma WalkNeed(d: Disk, d1: Disk, e: Disk, m: seq<bv8>, m1: seq<bv8>, m2: seq<bv8>,
                 a: int, h: nat, meta: int, c: int, added: set<int>, k: int, r: int)
    requires 0 < h <= MAXHEIGHT && a != 0 && 0 <= k < Span(h) && 0 < meta && WF(d, a, h, meta)
    requires forall b :: InTree(d, a, h, b) ==> Bitmap.Used(m, b)
    requires Linked(d, d1, a, Ix(h, k), c) && (Child(d, a, Ix(h, k)) == 0 ==> meta <= c && c != a)
    requires Took(m, m1, meta, |e|, First(d, a, h, k, c)) && Took(m1, m2, meta, |e|, added)
    requires Enough(d1, c, h - 1, Rem(h, k), added, r != -1)
    requires r != -1 ==> Walked(d1, e, c, h - 1, meta, added, Rem(h, k), r) && Paved(d1, c, e, c, h - 1, Rem(h, k))
    ensures Enough(d, a, h, k, First(d, a, h, k, c) + added, r != -1)
    ensures r != -1 ==> Paved(d, a, e, a, h, k)
  {
    var first := First(d, a, h, k, c);
    TookMore(m, m1, m2, meta, |e|, first, added);
    assert c in first ==> c !in added;
    WalkCount(d, d1, a, h, meta, c, added, k, r != -1);
    if r != -1 { WalkPaved(d, d1, e, m, a, h, meta, c, added, k, r); }
  }

  /** As many blocks as are missing on the way have been allocated, or fewer if it failed. */
  ghost predicate Enough(d: Disk, a: int, h: nat, k: int, added: set<int>, ok: bool)
    requires h <= MAXHEIGHT && 0 <= k < Span(h)
  {
    if ok then |added| == Missing(d, a, h, k) else |added| < Missing(d, a, h, k)
  }

  lemma ZeroMissing(d: Disk, c: int, h: nat, k: int)
    requires h <= MAXHEIGHT && 0 <= k < Span(h) && 0 < c < |d| && d[c] == Zero()
    ensures (forall i :: 0 <= i < NINDIRECT ==> Child(d, c, i) == 0) && Missing(d, c, h, k) == h
  {
    forall i | 0 <= i < NINDIRECT ensures Child(d, c, i) == 0 { ZeroWords(i); }
  }

  lemma WalkCount(d: Disk, d1: Disk, a: int, h: nat, meta: int, c: int, added: set<int>, k: int, ok: bool)
    requires 0 < h <= MAXHEIGHT && a != 0 && 0 <= k < Span(h) && 0 < meta
    requires Linked(d, d1, a, Ix(h, k), c) && (Child(d, a, Ix(h, k)) == 0 ==> meta <= c && c != a && c !in added)
    requires Enough(d1, c, h - 1, Rem(h, k), added, ok)
    ensures Enough(d, a, h, k, First(d, a, h, k, c) + added, ok)
  {
    if Child(d, a, Ix(h, k)) == 0 {
      ZeroMissing(d1, c, h - 1, Rem(h, k));
    } else {
      assert {} + added == added;
    }
  }

  lemma WalkPavedNew(d: Disk, d1: Disk, e: Disk, a: int, h: nat, meta: int, c: int, added: set<int>, k: int)
    requires JustAdded(d, d1, e, a, h, meta, c, added, k) && Paved(d1, c, e, c, h - 1, Rem(h, k))
    ensures Paved(d, a, e, a, h, k)
  {
    NewEntry(d, d1, e, a, h, meta, c, added, k);
    SiblingsInner(d, e, a, h, meta, Ix(h, k), {c} + added);
    ZeroMissing(d1, c, h - 1, Rem(h, k));
    PavedNew(d, d1, e, c, h - 1, Rem(h, k));
    PavedUp(d, e, a, h, k);
  }

  lemma WalkPavedOld(d: Disk, e: Disk, a: int, h: nat, meta: int, added: set<int>, k: int)
    requires 0 < h <= MAXHEIGHT && a != 0 && 0 <= k < Span(h) && 0 < meta && WF(d, a, h, meta) && NewTo(d, a, h, added)
    requires var c := Child(d, a, Ix(h, k));
             c != 0 && OnlyChanged(d, e, c, h - 1, added) && Paved(d, c, e, c, h - 1, Rem(h, k))
    ensures Paved(d, a, e, a, h, k)
  {
    var i := Ix(h, k);
    var c := Child(d, a, i);
    assert InTree(d, a, h, a);
    assert !Inner(d, c, h - 1, a) by { if Inner(d, c, h - 1, a) { InnerInTree(d, c, h - 1, a); } }
    assert e[a] == d[a];
    SiblingsInner(d, e, a, h, meta, i, added);
    PavedUp(d, e, a, h, k);
  }

  /** One step of the walk and the walk below it complete the way to index `k`, and no other. */
  lemma WalkPaved(d: Disk, d1: Disk, e: Disk, m: seq<bv8>, a: int, h: nat, meta: int, c: int, added: set<int>, k: int, r: int)
    requires 0 < h <= MAXHEIGHT && a != 0 && 0 <= k < Span(h) && 0 < meta && WF(d, a, h, meta)
    requires forall b :: InTree(d, a, h, b) ==> Bitmap.Used(m, b)
    requires Linked(d, d1, a, Ix(h, k), c) && (Child(d, a, Ix(h, k)) == 0 ==> meta <= c && c != a && c !in added)
    requires forall b :: b in First(d, a, h, k, c) + added ==> !Bitmap.Used(m, b)
    requires Walked(d1, e, c, h - 1, meta, added, Rem(h, k), r) && Paved(d1, c, e, c, h - 1, Rem(h, k))
    ensures Paved(d, a, e, a, h, k)
  {
    assert NewTo(d, a, h, First(d, a, h, k, c) + added);
    if Child(d, a, Ix(h, k)) == 0 {
      WalkNewZero(d, d1, e, a, h, meta, c, added, k, r);
      WalkPavedNew(d, d1, e, a, h, meta, c, added, k);
    } else {
      assert {} + added == added;
      WalkPavedOld(d, e, a, h, meta, added, k);
    }
  }

  /** What a walk leaves: it has taken `added`, enough or not, and if enough completed the way. */
  ghost predicate WalkEnds(d: Disk, m: seq<bv8>, e: Disk, m': seq<bv8>, a: int, h: nat, meta: int, k: int, added: set<int>, r: int)
    requires h <= MAXHEIGHT && 0 <= k < Span(h)
  {
    && Took(m, m', meta, |e|, added) && Enough(d, a, h, k, added, r != -1)
    && (r != -1 ==> Walked(d, e, a, h, meta, added, k, r) && Paved(d, a, e, a, h, k))
  }

  lemma WalkEndsBase(d: Disk, m: seq<bv8>, a: int, meta: int)
    requires a != 0 && a != -1 && WF(d, a, 0, meta)
    ensures WalkEnds(d, m, d, m, a, 0, meta, 0, {}, a)
  {
    WalkBase(d, a, meta);
    PavedNone(d, a);
  }

  /** The walk has come from block `a` to its child `c`. */
  ghost predicate Stepped(d: Disk, m: seq<bv8>, d1: Disk, m1: seq<bv8>, a: int, h: nat, meta: int, k: int, c: int)
    requires 0 < h <= MAXHEIGHT && 0 <= k < Span(h)
  {
    && Linked(d, d1, a, Ix(h, k), c) && (Child(d, a, Ix(h, k)) == 0 ==> meta <= c && c != a)
    && Took(m, m1, meta, |d|, First(d, a, h, k, c))
    && c != 0 && WF(d1, c, h - 1, meta) && (forall b :: InTree(d1, c, h - 1, b) ==> Bitmap.Used(m1, b))
    && (Look(d, a, h, k) != 0 ==> d1 == d && m1 == m && First(d, a, h, k, c) == {} && Look(d1, c, h - 1, Rem(h, k)) != 0)
  }

  lemma WalkEndsUp(d: Disk, d1: Disk, e: Disk, m: seq<bv8>, m1: seq<bv8>, m2: seq<bv8>,
                   a: int, h: nat, meta: int, c: int, added: set<int>, all: set<int>, k: int, r: int)
    requires 0 < h <= MAXHEIGHT && a != 0 && 0 <= k < Span(h) && 0 < meta && WF(d, a, h, meta) && |e| == |d|
    requires all == First(d, a, h, k, c) + added
    requires forall b :: InTree(d, a, h, b) ==> Bitmap.Used(m, b)
    requires Stepped(d, m, d1, m1, a, h, meta, k, c) && WalkEnds(d1, m1, e, m2, c, h - 1, meta, Rem(h, k), added, r)
    ensures WalkEnds(d, m, e, m2, a, h, meta, k, all, r)
  {
    WalkDone(d, d1, e, m, m1, m2, a, h, meta, c, added, k, r);
    WalkNeed(d, d1, e, m, m1, m2, a, h, meta, c, added, k, r);
  }

  // ---------- all inodes together ----------

  type Inodes = map<int, seq<int>>

  /** `b` belongs to slot `s` of inode `p`. */
  ghost predicate InRoot(d: Disk, ino: Inodes, p: int, s: int, b: int) {
    p in ino && |ino[p]| == NADDRS && 0 <= s < NADDRS && InTree(d, ino[p][s], Height(s), b)
  }

  ghost predicate Owned(d: Disk, ino: Inodes, b: int) {
    exists p, s :: InRoot(d, ino, p, s, b)
  }

  ghost predicate RootOk(d: Disk, a: seq<int>, s: int, meta: int) {
    |a| == NADDRS && 0 <= s < NADDRS && WF(d, a[s], Height(s), meta)
  }

  ghost predicate RootsOk(d: Disk, ino: Inodes, meta: int) {
    forall p, s :: p in ino && 0 <= s < NADDRS ==> RootOk(d, ino[p], s, meta)
  }

  /** No block belongs to two slots. */
  ghost predicate RootsApart(d: Disk, ino: Inodes) {
    forall p, s, q, t, b :: InRoot(d, ino, p, s, b) && InRoot(d, ino, q, t, b) ==> p == q && s == t
  }

  /** The bitmap marks the metadata and the blocks of some inode, and nothing else. */
  ghost predicate UsedExactly(d: Disk, m: seq<bv8>, ino: Inodes, meta: int) {
    forall b :: 0 <= b < |d| ==> (Bitmap.Used(m, b) <==> b < meta || Owned(d, ino, b))
  }

  ghost predicate FsOk(d: Disk, m: seq<bv8>, ino: Inodes, meta: int) {
    StoreOk(d, m, meta) && RootsOk(d, ino, meta) && RootsApart(d, ino) && UsedExactly(d, m, ino, meta)
  }

  lemma RootUsed(d: Disk, m: seq<bv8>, ino: Inodes, meta: int, p: int, s: int, b: int)
    requires FsOk(d, m, ino, meta) && InRoot(d, ino, p, s, b)
    ensures meta <= b < |d| && Bitmap.Used(m, b)
  {
    assert RootOk(d, ino[p], s, meta);
    TreeRange(d, ino[p][s], Height(s), meta, b);
    assert Owned(d, ino, b);
  }

  /** Slot `s` of inode `p` went from tree `ino[p][s]` to tree `a`, gaining `added`. */
  ghost predicate RootGrown(d: Disk, e: Disk, ino: Inodes, p: int, s: int, a: int, meta: int, added: set<int>, k: int) {
    && p in ino && |ino[p]| == NADDRS && 0 <= s < NADDRS
    && WF(e, a, Height(s), meta) && Grown(d, ino[p][s], e, a, Height(s), added, k)
    && OnlyChanged(d, e, ino[p][s], Height(s), added)
  }

  lemma OtherInner(d: Disk, m: seq<bv8>, ino: Inodes, meta: int, e: Disk, p: int, s: int, a: int,
                   added: set<int>, k: int, q: int, t: int)
    requires FsOk(d, m, ino, meta) && RootGrown(d, e, ino, p, s, a, meta, added, k)
    requires forall b :: b in added ==> !Bitmap.Used(m, b)
    requires q in ino && 0 <= t < NADDRS && (q != p || t != s)
    ensures |ino[q]| == NADDRS && WF(d, ino[q][t], Height(t), meta) && SameInner(d, e, ino[q][t], Height(t))
  {
    assert RootOk(d, ino[q], t, meta);
    forall b | Inner(d, ino[q][t], Height(t), b) && 0 <= b < |d| ensures e[b] == d[b] {
      InnerInTree(d, ino[q][t], Height(t), b);
      assert InRoot(d, ino, q, t, b);
      RootUsed(d, m, ino, meta, q, t, b);
      assert InRoot(d, ino, p, s, b) <==> InTree(d, ino[p][s], Height(s), b);
      if Inner(d, ino[p][s], Height(s), b) { InnerInTree(d, ino[p][s], Height(s), b); }
    }
  }

  /** Every other slot of every inode keeps its tree. */
  lemma OtherRoot(d: Disk, m: seq<bv8>, ino: Inodes, meta: int, e: Disk, p: int, s: int, a: int,
                  added: set<int>, k: int, q: int, t: int)
    requires FsOk(d, m, ino, meta) && RootGrown(d, e, ino, p, s, a, meta, added, k)
    requires forall b :: b in added ==> !Bitmap.Used(m, b)
    requires q in ino && 0 <= t < NADDRS && (q != p || t != s)
    ensures |ino[q]| == NADDRS && WF(e, ino[q][t], Height(t), meta) && SameTree(d, e, ino[q][t], Height(t))
  {
    OtherInner(d, m, ino, meta, e, p, s, a, added, k, q, t);
    Frame(d, e, ino[q][t], Height(t), meta);
  }

  /** After slot `s` of inode `p` has grown, all inodes together are in order again. */
  lemma RootsGrow(d: Disk, m: seq<bv8>, ino: Inodes, meta: int, e: Disk, m': seq<bv8>, ino': Inodes,
                  p: int, s: int, a: int, added: set<int>, k: int)
    requires FsOk(d, m, ino, meta) && RootGrown(d, e, ino, p, s, a, meta, added, k)
    requires Took(m, m', meta, |d|, added) && StoreOk(e, m', meta)
    requires ino' == ino[p := ino[p][s := a]]
    ensures FsOk(e, m', ino', meta)
  {
    forall q, t, b ensures InRoot(e, ino', q, t, b) <==> InRoot(d, ino, q, t, b) || (q == p && t == s && b in added) {
      if q in ino && 0 <= t < NADDRS && (q != p || t != s) {
        OtherRoot(d, m, ino, meta, e, p, s, a, added, k, q, t);
      }
    }
    forall q, t | q in ino' && 0 <= t < NADDRS ensures RootOk(e, ino'[q], t, meta) {
      if q != p || t != s { OtherRoot(d, m, ino, meta, e, p, s, a, added, k, q, t); }
    }
    forall b, q, t | b in added && InRoot(d, ino, q, t, b) ensures false {
      RootUsed(d, m, ino, meta, q, t, b);
    }
    RootsUsedGrow(d, m, ino, meta, e, m', ino', p, s, added);
  }

  lemma RootsUsedGrow(d: Disk, m: seq<bv8>, ino: Inodes, meta: int, e: Disk, m': seq<bv8>, ino': Inodes,
                      p: int, s: int, added: set<int>)
    requires |d| == |e| && UsedExactly(d, m, ino, meta) && Took(m, m', meta, |d|, added)
    requires forall q, t, b :: InRoot(e, ino', q, t, b) <==> InRoot(d, ino, q, t, b) || (q == p && t == s && b in added)
    ensures UsedExactly(e, m', ino', meta)
  {
    forall b ensures Owned(e, ino', b) <==> Owned(d, ino, b) || b in added {
      if Owned(d, ino, b) {
        var q, t :| InRoot(d, ino, q, t, b);
        assert InRoot(e, ino', q, t, b);
      }
      if b in added { assert InRoot(e, ino', p, s, b); }
    }
  }

  // ---------- the index of a file ----------

  /** The disk block of file block `bn`, 0 if there is none. */
  function FileLook(d: Disk, a: seq<int>, bn: int): int
    requires |a| == NADDRS && 0 <= bn < MAXBLOCKS
  {
    Look(d, a[Slot(bn)], Height(Slot(bn)), Offset(bn))
  }

  /** Block `bn` of inode `p` is disk block `x`. */
  ghost predicate Maps(d: Disk, ino: Inodes, p: int, bn: int, x: int) {
    p in ino && |ino[p]| == NADDRS && 0 <= bn < MAXBLOCKS && FileLook(d, ino[p], bn) == x != 0
  }

  lemma MapsInRoot(d: Disk, m: seq<bv8>, ino: Inodes, meta: int, p: int, bn: int, x: int)
    requires FsOk(d, m, ino, meta) && Maps(d, ino, p, bn, x)
    ensures InRoot(d, ino, p, Slot(bn), x) && !Inner(d, ino[p][Slot(bn)], Height(Slot(bn)), x)
    ensures meta <= x < |d| && Bitmap.Used(m, x)
  {
    var s := Slot(bn);
    assert RootOk(d, ino[p], s, meta);
    LookInTree(d, ino[p][s], Height(s), meta, Offset(bn));
    RootUsed(d, m, ino, meta, p, s, x);
  }

  /** bmap is injective, over all inodes at once. */
  lemma MapsInjective(d: Disk, m: seq<bv8>, ino: Inodes, meta: int, p: int, bn: int, q: int, cn: int, x: int)
    requires FsOk(d, m, ino, meta) && Maps(d, ino, p, bn, x) && Maps(d, ino, q, cn, x)
    ensures p == q && bn == cn
  {
    MapsInRoot(d, m, ino, meta, p, bn, x);
    MapsInRoot(d, m, ino, meta, q, cn, x);
    var s := Slot(bn);
    assert RootOk(d, ino[p], s, meta);
    LookInjective(d, ino[p][s], Height(s), meta, Offset(bn), Offset(cn));
    SlotOffset(bn, cn);
  }

  /** No mapped data block is an indirect block of any inode. */
  lemma MappedNotInner(d: Disk, m: seq<bv8>, ino: Inodes, meta: int, p: int, bn: int, x: int, q: int, t: int)
    requires FsOk(d, m, ino, meta) && Maps(d, ino, p, bn, x) && q in ino && 0 <= t < NADDRS
    ensures |ino[q]| == NADDRS && !Inner(d, ino[q][t], Height(t), x)
  {
    MapsInRoot(d, m, ino, meta, p, bn, x);
    assert RootOk(d, ino[q], t, meta);
    assert InRoot(d, ino, q, t, x) <==> InTree(d, ino[q][t], Height(t), x);
    if Inner(d, ino[q][t], Height(t), x) { InnerInTree(d, ino[q][t], Height(t), x); }
  }

  /** `d1` is `d` once slot `s` of inode `p` holds a root block `a`. */
  ghost predicate RootLinked(d: Disk, m: seq<bv8>, ino: Inodes, d1: Disk, m1: seq<bv8>, meta: int, p: int, s: int, a: int) {
    && p in ino && |ino[p]| == NADDRS && 0 <= s < NADDRS
    && if ino[p][s] != 0 then d1 == d && m1 == m && a == ino[p][s]
       else 0 < meta <= a < |d| && d1 == d[a := Zero()] && Took(m, m1, meta, |d|, {a})
  }

  lemma RootInto(d: Disk, m: seq<bv8>, ino: Inodes, d1: Disk, m1: seq<bv8>, meta: int, p: int, s: int, a: int)
    requires FsOk(d, m, ino, meta) && RootLinked(d, m, ino, d1, m1, meta, p, s, a)
    ensures a != 0 && WF(d1, a, Height(s), meta)
    ensures forall b :: InTree(d1, a, Height(s), b) ==> Bitmap.Used(m1, b)
  {
    assert RootOk(d, ino[p], s, meta);
    if ino[p][s] == 0 {
      ZeroTree(d1, a, Height(s), meta);
    } else {
      forall b | InTree(d1, a, Height(s), b) ensures Bitmap.Used(m1, b) {
        RootUsed(d, m, ino, meta, p, s, b);
      }
    }
  }

  lemma RootUp(d: Disk, m: seq<bv8>, ino: Inodes, d1: Disk, m1: seq<bv8>, e: Disk, m': seq<bv8>, meta: int,
               p: int, s: int, a: int, added: set<int>, k: int, r: int)
    requires FsOk(d, m, ino, meta) && RootLinked(d, m, ino, d1, m1, meta, p, s, a)
    requires 0 <= k < Span(Height(s)) && Walked(d1, e, a, Height(s), meta, added, k, r)
    requires Took(m1, m', meta, |d|, added)
    ensures var all := (if ino[p][s] == 0 then {a} else {}) + added;
            && Took(m, m', meta, |d|, all)
            && RootGrown(d, e, ino, p, s, a, meta, all, k)
            && (Look(d, ino[p][s], Height(s), k) == 0 ==> r in all && 0 <= r < |e| && e[r] == Zero())
  {
    if ino[p][s] == 0 {
      TookMore(m, m1, m', meta, |d|, {a}, added);
      NewRoot(d, d1, e, a, Height(s), meta, added, k, r);
    } else {
      assert {} + added == added;
    }
  }

  /** A root block that bmap has just allocated, and the tree it then grew below it. */
  lemma NewRoot(d: Disk, d1: Disk, e: Disk, a: int, h: nat, meta: int, added: set<int>, k: int, r: int)
    requires h <= MAXHEIGHT && 0 <= k < Span(h) && 0 < meta <= a < |d| && d1 == d[a := Zero()] && a !in added
    requires Walked(d1, e, a, h, meta, added, k, r)
    ensures Grown(d, 0, e, a, h, {a} + added, k) && OnlyChanged(d, e, 0, h, {a} + added)
    ensures r in {a} + added && 0 <= r < |e| && e[r] == Zero()
  {
    ZeroTree(d1, a, h, meta);
    if h > 0 {
      assert Look(d1, a, h, k) == 0;
    } else {
      forall b | b in added ensures b == a { assert InTree(e, a, h, b); }
      assert added == {};
    }
    NewRootGrown(d, d1, e, a, h, meta, added, k);
  }

  lemma NewRootGrown(d: Disk, d1: Disk, e: Disk, a: int, h: nat, meta: int, added: set<int>, k: int)
    requires h <= MAXHEIGHT && 0 <= k < Span(h) && 0 < meta <= a < |d| && d1 == d[a := Zero()]
    requires Grown(d1, a, e, a, h, added, k) && OnlyChanged(d1, e, a, h, added)
    ensures Grown(d, 0, e, a, h, {a} + added, k) && OnlyChanged(d, e, 0, h, {a} + added)
  {
    ZeroTree(d1, a, h, meta);
  }

  /** What bmap leaves for block `bn` of inode `p`: it maps to `r`; no other block of any
      inode is remapped; no mapped data block changes; a call that finds the block
      changes nothing; a block that is new was free and is zeroed. */
  ghost predicate Mapped(d: Disk, m: seq<bv8>, ino: Inodes, e: Disk, m': seq<bv8>, ino': Inodes,
                         meta: int, p: int, bn: int, r: int) {
    && FsOk(e, m', ino', meta) && |d| == |e| && ino'.Keys == ino.Keys
    && Maps(e, ino', p, bn, r) && 0 <= r < |e|
    && (forall q, cn, x :: q != p || cn != bn ==> (Maps(e, ino', q, cn, x) <==> Maps(d, ino, q, cn, x)))
    && (forall q, cn, x :: Maps(d, ino, q, cn, x) && 0 <= x < |d| ==> e[x] == d[x])
    && (if Maps(d, ino, p, bn, r) then e == d && m' == m && ino' == ino
        else e[r] == Zero() && !Bitmap.Used(m, r) && forall x :: !Maps(d, ino, p, bn, x))
  }

  /** Another block of an inode stays where it is. */
  lemma MappedOther(d: Disk, m: seq<bv8>, ino: Inodes, e: Disk, ino': Inodes,
                    meta: int, p: int, bn: int, a: int, all: set<int>, q: int, cn: int, x: int)
    requires FsOk(d, m, ino, meta) && 0 <= bn < MAXBLOCKS && forall b :: b in all ==> !Bitmap.Used(m, b)
    requires RootGrown(d, e, ino, p, Slot(bn), a, meta, all, Offset(bn))
    requires ino' == ino[p := ino[p][Slot(bn) := a]] && (q != p || cn != bn)
    ensures Maps(e, ino', q, cn, x) <==> Maps(d, ino, q, cn, x)
  {
    if q in ino && 0 <= cn < MAXBLOCKS {
      assert RootOk(d, ino[q], Slot(cn), meta);
      SlotOffset(bn, cn);
      if q != p || Slot(cn) != Slot(bn) {
        OtherRoot(d, m, ino, meta, e, p, Slot(bn), a, all, Offset(bn), q, Slot(cn));
      }
    }
  }

  lemma MappedFrom(d: Disk, m: seq<bv8>, ino: Inodes, e: Disk, m': seq<bv8>, ino': Inodes,
                   meta: int, p: int, bn: int, a: int, all: set<int>, r: int)
    requires FsOk(d, m, ino, meta) && FsOk(e, m', ino', meta) && 0 <= bn < MAXBLOCKS
    requires RootGrown(d, e, ino, p, Slot(bn), a, meta, all, Offset(bn)) && Took(m, m', meta, |d|, all)
    requires ino' == ino[p := ino[p][Slot(bn) := a]]
    requires Look(e, a, Height(Slot(bn)), Offset(bn)) == r != 0
    requires Look(d, ino[p][Slot(bn)], Height(Slot(bn)), Offset(bn)) == 0 ==> r in all && 0 <= r < |e| && e[r] == Zero()
    requires Look(d, ino[p][Slot(bn)], Height(Slot(bn)), Offset(bn)) != 0 ==> e == d && m' == m && ino' == ino
    ensures Mapped(d, m, ino, e, m', ino', meta, p, bn, r)
  {
    forall q, cn, x | q != p || cn != bn ensures Maps(e, ino', q, cn, x) <==> Maps(d, ino, q, cn, x) {
      MappedOther(d, m, ino, e, ino', meta, p, bn, a, all, q, cn, x);
    }
    forall q, cn, x | Maps(d, ino, q, cn, x) && 0 <= x < |d| ensures e[x] == d[x] {
      MapsInRoot(d, m, ino, meta, q, cn, x);
      MappedNotInner(d, m, ino, meta, q, cn, x, p, Slot(bn));
    }
    MapsInRoot(e, m', ino', meta, p, bn, r);
  }

  lemma BmapDone(d: Disk, m: seq<bv8>, ino: Inodes, d1: Disk, m1: seq<bv8>, e: Disk, m': seq<bv8>, ino': Inodes,
                 meta: int, p: int, bn: int, a: int, added: set<int>, r: int)
    requires FsOk(d, m, ino, meta) && StoreOk(e, m', meta) && 0 <= bn < MAXBLOCKS
    requires RootLinked(d, m, ino, d1, m1, meta, p, Slot(bn), a) && ino' == ino[p := ino[p][Slot(bn) := a]]
    requires Walked(d1, e, a, Height(Slot(bn)), meta, added, Offset(bn), r)
    requires Took(m1, m', meta, |d|, added)
    requires Look(d1, a, Height(Slot(bn)), Offset(bn)) != 0 ==> e == d1 && m' == m1
    ensures Mapped(d, m, ino, e, m', ino', meta, p, bn, r)
  {
    var s, k := Slot(bn), Offset(bn);
    RootUp(d, m, ino, d1, m1, e, m', meta, p, s, a, added, k, r);
    var all := (if ino[p][s] == 0 then {a} else {}) + added;
    RootsGrow(d, m, ino, meta, e, m', ino', p, s, a, all, k);
    assert ino[p][s] != 0 ==> ino[p][s := a] == ino[p] && ino' == ino;
    MappedFrom(d, m, ino, e, m', ino', meta, p, bn, a, all, r);
  }

  /** There were enough free blocks for the places `gone` of a file with addresses `a`, and then those
      and no others were filled, each with one of the free blocks; or there were not. */
  ghost predicate Spent(d: Disk, m: seq<bv8>, a: seq<int>, e: Disk, m': seq<bv8>, a': seq<int>, gone: set<Spot>, ok: bool) {
    && (ok <==> |FreeSet(m, |d|)| >= |gone|)
    && (ok ==> |FreeSet(m', |d|)| == |FreeSet(m, |d|)| - |gone| && Placed(d, a, e, a', gone))
  }

  /** bmap completes the way to block `bn` of inode `p`, and to no other, with as many blocks as
      are missing on it. */
  lemma BmapPaved(d: Disk, m: seq<bv8>, ino: Inodes, e: Disk, ino': Inodes, meta: int, p: int, bn: int, a: int, all: set<int>)
    requires FsOk(d, m, ino, meta) && p in ino && 0 <= bn < MAXBLOCKS && forall b :: b in all ==> !Bitmap.Used(m, b)
    requires RootGrown(d, e, ino, p, Slot(bn), a, meta, all, Offset(bn)) && ino' == ino[p := ino[p][Slot(bn) := a]]
    requires Paved(d, ino[p][Slot(bn)], e, a, Height(Slot(bn)), Offset(bn))
    ensures PavedAt(d, ino[p], e, ino'[p], bn)
  {
    var s, k := Slot(bn), Offset(bn);
    forall cn | 0 <= cn < MAXBLOCKS
      ensures MissingAt(e, ino'[p], cn) == Min(MissingAt(d, ino[p], cn), MeetAt(bn, cn))
    {
      var t := Slot(cn);
      if t != s {
        OtherInner(d, m, ino, meta, e, p, s, a, all, k, p, t);
        MissingSame(d, e, ino[p][t], Height(t), Offset(cn));
      }
    }
  }

  lemma BmapNeed(d: Disk, m: seq<bv8>, ino: Inodes, d1: Disk, m1: seq<bv8>, e: Disk, m': seq<bv8>, ino': Inodes,
                 meta: int, p: int, bn: int, a: int, added: set<int>, r: int)
    requires FsOk(d, m, ino, meta) && 0 <= bn < MAXBLOCKS
    requires RootLinked(d, m, ino, d1, m1, meta, p, Slot(bn), a) && ino' == ino[p := ino[p][Slot(bn) := a]]
    requires Walked(d1, e, a, Height(Slot(bn)), meta, added, Offset(bn), r) && Took(m1, m', meta, |d|, added)
    requires Paved(d1, a, e, a, Height(Slot(bn)), Offset(bn))
    ensures PavedAt(d, ino[p], e, ino'[p], bn)
  {
    var s, k := Slot(bn), Offset(bn);
    RootUp(d, m, ino, d1, m1, e, m', meta, p, s, a, added, k, r);
    var all := (if ino[p][s] == 0 then {a} else {}) + added;
    if ino[p][s] == 0 {
      ZeroMissing(d1, a, Height(s), k);
      PavedNew(d, d1, e, a, Height(s), k);
    }
    BmapPaved(d, m, ino, e, ino', meta, p, bn, a, all);
  }

  lemma BmapCount(d: Disk, m: seq<bv8>, ino: Inodes, d1: Disk, m1: seq<bv8>, m': seq<bv8>, n: int,
                  meta: int, p: int, bn: int, a: int, added: set<int>, ok: bool)
    requires 0 < meta && 0 <= bn < MAXBLOCKS && n == |d| && RootLinked(d, m, ino, d1, m1, meta, p, Slot(bn), a)
    requires Took(m1, m', meta, n, added) && Enough(d1, a, Height(Slot(bn)), Offset(bn), added, ok)
    requires !ok ==> forall b :: 0 <= b < n ==> Bitmap.Used(m', b)
    ensures ok ==> |FreeSet(m', n)| == |FreeSet(m, n)| - |Spots(d, ino[p], bn)|
    ensures !ok ==> |FreeSet(m, n)| < |Spots(d, ino[p], bn)|
  {
    var s, k := Slot(bn), Offset(bn);
    SpotsSize(d, ino[p], bn);
    TookFree(m1, m', meta, n, added);
    if ino[p][s] == 0 {
      ZeroMissing(d1, a, Height(s), k);
      TookFree(m, m1, meta, n, {a});
    }
    if !ok { NoneFreeIs(m', n); }
  }

  lemma SubsetSize(x: set<Spot>, y: set<Spot>)
    requires x <= y
    ensures |x| <= |y|
  {
    assert y == x + (y - x);
  }

  /** One use of free blocks after another: what was filled already costs nothing. */
  lemma SpentThen(d: Disk, m: seq<bv8>, a: seq<int>, d1: Disk, m1: seq<bv8>, a1: seq<int>, e: Disk, m': seq<bv8>, a': seq<int>,
                  gone: set<Spot>, more: set<Spot>, all: set<Spot>, ok: bool)
    requires |d1| == |d| && Spent(d, m, a, d1, m1, a1, gone, true) && Spent(d1, m1, a1, e, m', a', more, ok)
    requires gone + more == all && gone !! more
    ensures Spent(d, m, a, e, m', a', all, ok)
  {
    assert |all| == |gone| + |more|;
    if ok { PlacedThen(d, a, d1, a1, e, a', gone, more); }
  }

  lemma BmapSpent(d: Disk, m: seq<bv8>, ino: Inodes, d1: Disk, m1: seq<bv8>, e: Disk, m': seq<bv8>, ino': Inodes,
                  meta: int, p: int, bn: int, a: int, added: set<int>, r: int)
    requires FsOk(d, m, ino, meta) && 0 <= bn < MAXBLOCKS && |d| == |e|
    requires RootLinked(d, m, ino, d1, m1, meta, p, Slot(bn), a) && ino' == ino[p := ino[p][Slot(bn) := a]]
    requires WalkEnds(d1, m1, e, m', a, Height(Slot(bn)), meta, Offset(bn), added, r)
    requires r == -1 ==> forall b :: 0 <= b < |e| ==> Bitmap.Used(m', b)
    ensures Spent(d, m, ino[p], e, m', ino'[p], Spots(d, ino[p], bn), r != -1)
  {
    BmapCount(d, m, ino, d1, m1, m', |d|, meta, p, bn, a, added, r != -1);
    if r != -1 {
      BmapNeed(d, m, ino, d1, m1, e, m', ino', meta, p, bn, a, added, r);
      PavedPlaces(d, ino[p], e, ino'[p], bn);
    }
  }

  /** No block is free for the root. */
  lemma NoRoot(d: Disk, m: seq<bv8>, ino: Inodes, e: Disk, meta: int, p: int, bn: int)
    requires p in ino && |ino[p]| == NADDRS && 0 <= bn < MAXBLOCKS && ino[p][Slot(bn)] == 0
    requires forall b :: 0 <= b < |d| ==> Bitmap.Used(m, b)
    ensures Spent(d, m, ino[p], e, m, ino[p], Spots(d, ino[p], bn), false)
  {
    SpotsSize(d, ino[p], bn);
    NoneFreeIs(m, |d|);
  }

  // ---------- truncation ----------

  /** `b` is in one of the first `n` children of `a`. */
  ghost predicate InFirst(d: Disk, a: int, h: nat, n: int, b: int)
    requires h > 0 && n <= NINDIRECT
  {
    exists j :: 0 <= j < n && InTree(d, Child(d, a, j), h - 1, b)
  }

  lemma FirstNext(d: Disk, a: int, h: nat, i: int)
    requires h > 0 && 0 <= i < NINDIRECT
    ensures forall b :: InFirst(d, a, h, i + 1, b) <==> InFirst(d, a, h, i, b) || InTree(d, Child(d, a, i), h - 1, b)
  {
  }

  lemma NotInFirst(d: Disk, a: int, h: nat, meta: int, i: int, b: int)
    requires h > 0 && a != 0 && 0 <= i < NINDIRECT && WF(d, a, h, meta) && InTree(d, Child(d, a, i), h - 1, b)
    ensures !InFirst(d, a, h, i, b)
  {
    forall j | 0 <= j < i ensures !InTree(d, Child(d, a, j), h - 1, b) {
      assert Apart(d, Child(d, a, j), h - 1, Child(d, a, i), h - 1);
    }
  }

  /** Freeing the blocks of one slot and zeroing it leaves all inodes together in order. */
  lemma DropRoot(d: Disk, m: seq<bv8>, ino: Inodes, meta: int, m': seq<bv8>, p: int, s: int)
    requires FsOk(d, m, ino, meta) && p in ino && |ino[p]| == NADDRS && 0 <= s < NADDRS && |m'| == |m|
    requires forall b :: Bitmap.Used(m', b) <==> Bitmap.Used(m, b) && !InRoot(d, ino, p, s, b)
    ensures FsOk(d, m', ino[p := ino[p][s := 0]], meta)
  {
    var ino' := ino[p := ino[p][s := 0]];
    forall q, t | q in ino' && 0 <= t < NADDRS ensures RootOk(d, ino'[q], t, meta) {
      assert RootOk(d, ino[q], t, meta);
    }
    forall q, t, b ensures InRoot(d, ino', q, t, b) <==> InRoot(d, ino, q, t, b) && (q != p || t != s) {
    }
    forall b | 0 <= b < meta ensures Bitmap.Used(m', b) {
      if InRoot(d, ino, p, s, b) { RootUsed(d, m, ino, meta, p, s, b); }
    }
    forall b ensures Owned(d, ino', b) <==> Owned(d, ino, b) && !InRoot(d, ino, p, s, b) {
      if Owned(d, ino, b) && !InRoot(d, ino, p, s, b) {
        var q, t :| InRoot(d, ino, q, t, b);
        assert InRoot(d, ino', q, t, b);
      }
    }
  }

  // ---------- file contents ----------

  /** Byte `o` of inode `p`. */
  ghost function ByteAt(d: Disk, ino: Inodes, p: int, o: int): int {
    if p in ino && |ino[p]| == NADDRS && 0 <= o < MAXBYTES then
      var x := FileLook(d, ino[p], o / BSIZE);
      if 0 <= x < |d| && d[x].Valid() then d[x].bytes[o % BSIZE] else 0
    else 0
  }

  ghost function Bytes(d: Disk, ino: Inodes, p: int, n: int): (c: seq<int>)
    requires 0 <= n
    ensures |c| == n
  {
    seq(n, o => ByteAt(d, ino, p, o))
  }

  /** No holes: every block that starts below byte `n` is mapped. */
  ghost predicate Solid(d: Disk, ino: Inodes, p: int, n: int) {
    && p in ino && |ino[p]| == NADDRS
    && forall bn :: 0 <= bn < MAXBLOCKS && bn * BSIZE < n ==> FileLook(d, ino[p], bn) != 0
  }

  function Slice(c: seq<int>, off: int, n: int): seq<int>
    requires 0 <= off <= |c| && 0 <= n
  {
    if off + n > |c| then c[off..] else c[off..off + n]
  }

  lemma SolidAt(d: Disk, ino: Inodes, p: int, n: int, o: int)
    requires Solid(d, ino, p, n) && 0 <= o < n <= MAXBYTES
    ensures 0 <= o / BSIZE < MAXBLOCKS && FileLook(d, ino[p], o / BSIZE) != 0
    ensures Maps(d, ino, p, o / BSIZE, FileLook(d, ino[p], o / BSIZE))
  {
  }

  lemma InBlock(o: int, j: int)
    requires 0 <= o && 0 <= j && o % BSIZE + j < BSIZE
    ensures (o + j) / BSIZE == o / BSIZE && (o + j) % BSIZE == o % BSIZE + j
  {
  }

  lemma BytesInBlock(d: Disk, ino: Inodes, p: int, n: int, o: int, m: int, r: int)
    requires p in ino && |ino[p]| == NADDRS && 0 <= o && 0 <= m && o % BSIZE + m <= BSIZE && o + m <= n <= MAXBYTES
    requires o / BSIZE < MAXBLOCKS && r == FileLook(d, ino[p], o / BSIZE) && 0 <= r < |d| && d[r].Valid()
    ensures d[r].bytes[o % BSIZE..o % BSIZE + m] == Bytes(d, ino, p, n)[o..o + m]
  {
    var u, v := d[r].bytes[o % BSIZE..o % BSIZE + m], Bytes(d, ino, p, n)[o..o + m];
    forall j | 0 <= j < m ensures u[j] == v[j] {
      InBlock(o, j);
      assert v[j] == ByteAt(d, ino, p, o + j);
    }
  }

  function Max(x: int, y: int): int {
    if x < y then y else x
  }

  /** `c` with `src` written over it from `off` on, extended if `src` runs past the end. */
  function Splice(c: seq<int>, off: int, src: seq<int>): seq<int>
    requires 0 <= off <= |c|
  {
    c[..off] + src + if off + |src| < |c| then c[off + |src|..] else []
  }

  /** File `p` had `n` bytes on `d`; on `e`, `src` has been written at `off`. */
  ghost predicate Written(d: Disk, ino: Inodes, e: Disk, ino': Inodes, p: int, n: int, off: int, src: seq<int>) {
    forall o :: 0 <= o < Max(n, off + |src|) ==>
                  ByteAt(e, ino', p, o) == if off <= o < off + |src| then src[o - off] else ByteAt(d, ino, p, o)
  }

  /** File `q` of `n` bytes is as it was. */
  ghost predicate Untouched(d: Disk, ino: Inodes, e: Disk, ino': Inodes, q: int, n: int) {
    Solid(e, ino', q, n) && forall o :: 0 <= o < n ==> ByteAt(e, ino', q, o) == ByteAt(d, ino, q, o)
  }

  /** Writing a mapped data block changes no tree and no other data block. */
  lemma WriteData(d: Disk, m: seq<bv8>, ino: Inodes, meta: int, p: int, bn: int, r: int, x: Block)
    requires FsOk(d, m, ino, meta) && Maps(d, ino, p, bn, r) && x.Valid()
    ensures 0 <= r < |d| && FsOk(d[r := x], m, ino, meta)
    ensures forall q, cn, y :: Maps(d[r := x], ino, q, cn, y) <==> Maps(d, ino, q, cn, y)
  {
    MapsInRoot(d, m, ino, meta, p, bn, r);
    var e := d[r := x];
    forall q, t | q in ino && 0 <= t < NADDRS
      ensures RootOk(e, ino[q], t, meta) && SameTree(d, e, ino[q][t], Height(t))
    {
      assert RootOk(d, ino[q], t, meta);
      MappedNotInner(d, m, ino, meta, p, bn, r, q, t);
      Frame(d, e, ino[q][t], Height(t), meta);
    }
    assert forall q, t, b :: InRoot(e, ino, q, t, b) <==> InRoot(d, ino, q, t, b);
    SameOwners(d, e, ino);
  }

  lemma SameOwners(d: Disk, e: Disk, ino: Inodes)
    requires forall q, t, b :: InRoot(e, ino, q, t, b) <==> InRoot(d, ino, q, t, b)
    ensures forall b :: Owned(e, ino, b) <==> Owned(d, ino, b)
  {
    forall b ensures Owned(e, ino, b) <==> Owned(d, ino, b) {
      if Owned(d, ino, b) { var q, t :| InRoot(d, ino, q, t, b); assert InRoot(e, ino, q, t, b); }
    }
  }

  /** bmap, then a write to the block it returned: everything stays in order. */
  lemma PutOk(d: Disk, m: seq<bv8>, ino: Inodes, e: Disk, m': seq<bv8>, ino': Inodes,
              meta: int, p: int, bn: int, r: int, x: Block)
    requires FsOk(d, m, ino, meta) && Mapped(d, m, ino, e, m', ino', meta, p, bn, r) && x.Valid()
    ensures FsOk(e[r := x], m', ino', meta) && Maps(e[r := x], ino', p, bn, r)
    ensures forall q, cn, y :: Maps(e[r := x], ino', q, cn, y) <==> Maps(e, ino', q, cn, y)
  {
    WriteData(e, m', ino', meta, p, bn, r, x);
  }

  /** Every byte of every file outside the written block stays mapped and stays what it was. */
  lemma PutKeeps(d: Disk, m: seq<bv8>, ino: Inodes, e: Disk, m': seq<bv8>, ino': Inodes,
                 meta: int, p: int, bn: int, r: int, x: Block, q: int, o: int, y: int)
    requires FsOk(d, m, ino, meta) && Mapped(d, m, ino, e, m', ino', meta, p, bn, r) && x.Valid()
    requires 0 <= o < MAXBYTES && (q != p || o / BSIZE != bn)
    requires Maps(d, ino, q, o / BSIZE, y)
    ensures Maps(e[r := x], ino', q, o / BSIZE, y)
    ensures ByteAt(e[r := x], ino', q, o) == ByteAt(d, ino, q, o)
  {
    PutOk(d, m, ino, e, m', ino', meta, p, bn, r, x);
    assert Maps(e, ino', q, o / BSIZE, y);
    MapsInRoot(e, m', ino', meta, q, o / BSIZE, y);
    if y == r { MapsInjective(e, m', ino', meta, p, bn, q, o / BSIZE, r); }
  }

  /** Bytes of a block that was mapped before: old content except for the part written. */
  lemma PutInside(d: Disk, m: seq<bv8>, ino: Inodes, e: Disk, m': seq<bv8>, ino': Inodes,
                  meta: int, p: int, bn: int, r: int, x: Block, o: int)
    requires FsOk(d, m, ino, meta) && Mapped(d, m, ino, e, m', ino', meta, p, bn, r) && x.Valid()
    requires 0 <= o < MAXBYTES && o / BSIZE == bn
    ensures Maps(e[r := x], ino', p, bn, r)
    ensures ByteAt(e[r := x], ino', p, o) == x.bytes[o % BSIZE]
    ensures forall y :: Maps(d, ino, p, bn, y) ==> ByteAt(d, ino, p, o) == e[r].bytes[o % BSIZE]
  {
    PutOk(d, m, ino, e, m', ino', meta, p, bn, r, x);
    assert forall y :: Maps(d, ino, p, bn, y) ==> Maps(d, ino, p, bn, r);
  }

  /** Other files. */
  lemma PutUntouched(d: Disk, m: seq<bv8>, ino: Inodes, e: Disk, m': seq<bv8>, ino': Inodes,
                     meta: int, p: int, bn: int, r: int, x: Block, q: int, n: int)
    requires FsOk(d, m, ino, meta) && Mapped(d, m, ino, e, m', ino', meta, p, bn, r) && x.Valid()
    requires q != p && q in ino && 0 <= n <= MAXBYTES && Solid(d, ino, q, n)
    ensures Untouched(d, ino, e[r := x], ino', q, n)
  {
    forall o | 0 <= o < n ensures ByteAt(e[r := x], ino', q, o) == ByteAt(d, ino, q, o) {
      SolidAt(d, ino, q, n, o);
      PutKeeps(d, m, ino, e, m', ino', meta, p, bn, r, x, q, o, FileLook(d, ino[q], o / BSIZE));
    }
    assert q in ino' && RootOk(e, ino'[q], 0, meta);
    forall cn | 0 <= cn < MAXBLOCKS && cn * BSIZE < n ensures FileLook(e[r := x], ino'[q], cn) != 0 {
      SolidAt(d, ino, q, n, cn * BSIZE);
      assert cn * BSIZE / BSIZE == cn;
      PutKeeps(d, m, ino, e, m', ino', meta, p, bn, r, x, q, cn * BSIZE, FileLook(d, ino[q], cn));
    }
  }

  /** The file itself, byte by byte, after the next piece of `src` is in place. */
  lemma PutByte(d: Disk, m: seq<bv8>, ino: Inodes, e: Disk, m': seq<bv8>, ino': Inodes,
                meta: int, p: int, bn: int, r: int, x: Block,
                d0: Disk, ino0: Inodes, n: int, off: int, src: seq<int>, tot: int, len: int, o: int)
    requires FsOk(d, m, ino, meta) && Mapped(d, m, ino, e, m', ino', meta, p, bn, r) && x.Valid()
    requires 0 <= off <= n <= MAXBYTES && 0 <= tot && 0 < len && tot + len <= |src| && off + |src| <= MAXBYTES
    requires bn == (off + tot) / BSIZE && (off + tot) % BSIZE + len <= BSIZE
    requires Solid(d, ino, p, Max(n, off + tot)) && Written(d0, ino0, d, ino, p, n, off, src[..tot])
    requires x == Block(e[r].bytes[..(off + tot) % BSIZE] + src[tot..tot + len] + e[r].bytes[(off + tot) % BSIZE + len..])
    requires 0 <= o < Max(n, off + tot + len)
    ensures FileLook(e[r := x], ino'[p], o / BSIZE) != 0
    ensures ByteAt(e[r := x], ino', p, o) == if off <= o < off + tot + len then src[o - off] else ByteAt(d0, ino0, p, o)
  {
    if o < Max(n, off + tot) { SolidAt(d, ino, p, Max(n, off + tot), o); }
    if o / BSIZE == bn {
      PutInside(d, m, ino, e, m', ino', meta, p, bn, r, x, o);
    } else {
      PutKeeps(d, m, ino, e, m', ino', meta, p, bn, r, x, p, o, FileLook(d, ino[p], o / BSIZE));
    }
  }

  lemma PutWritten(d: Disk, m: seq<bv8>, ino: Inodes, e: Disk, m': seq<bv8>, ino': Inodes,
                   meta: int, p: int, bn: int, r: int, x: Block,
                d0: Disk, ino0: Inodes, n: int, off: int, src: seq<int>, tot: int, len: int)
    requires FsOk(d, m, ino, meta) && Mapped(d, m, ino, e, m', ino', meta, p, bn, r) && x.Valid()
    requires 0 <= off <= n <= MAXBYTES && 0 <= tot && 0 < len && tot + len <= |src| && off + |src| <= MAXBYTES
    requires bn == (off + tot) / BSIZE && (off + tot) % BSIZE + len <= BSIZE
    requires Solid(d, ino, p, Max(n, off + tot)) && Written(d0, ino0, d, ino, p, n, off, src[..tot])
    requires x == Block(e[r].bytes[..(off + tot) % BSIZE] + src[tot..tot + len] + e[r].bytes[(off + tot) % BSIZE + len..])
    ensures Solid(e[r := x], ino', p, Max(n, off + tot + len))
    ensures Written(d0, ino0, e[r := x], ino', p, n, off, src[..tot + len])
  {
    assert p in ino' && RootOk(e, ino'[p], 0, meta);
    var f, t := e[r := x], src[..tot + len];
    forall o | 0 <= o < Max(n, off + |t|)
      ensures ByteAt(f, ino', p, o) == if off <= o < off + |t| then t[o - off] else ByteAt(d0, ino0, p, o)
    {
      PutByte(d, m, ino, e, m', ino', meta, p, bn, r, x, d0, ino0, n, off, src, tot, len, o);
    }
    forall cn | 0 <= cn < MAXBLOCKS && cn * BSIZE < Max(n, off + tot + len) ensures FileLook(e[r := x], ino'[p], cn) != 0 {
      assert cn * BSIZE / BSIZE == cn;
      PutByte(d, m, ino, e, m', ino', meta, p, bn, r, x, d0, ino0, n, off, src, tot, len, cn * BSIZE);
    }
  }

  /** Every inode: size in range and no hole below it. */
  ghost predicate FilesOk(d: Disk, m: seq<bv8>, ino: Inodes, meta: int, sizes: map<int, int>) {
    && FsOk(d, m, ino, meta) && sizes.Keys == ino.Keys
    && forall p :: p in ino ==> 0 <= sizes[p] <= MAXBYTES && Solid(d, ino, p, sizes[p])
  }

  /** `src` was written to file `p` at `off`: all files are in order, `p` has it spliced in, and the others
      are as they were. */
  ghost predicate DidWrite(d: Disk, ino: Inodes, sizes: map<int, int>, e: Disk, m': seq<bv8>, ino': Inodes, sizes': map<int, int>,
                           meta: int, p: int, off: int, src: seq<int>) {
    && FilesOk(e, m', ino', meta, sizes') && ino'.Keys == ino.Keys == sizes.Keys && p in ino && 0 <= off <= sizes[p]
    && Bytes(e, ino', p, sizes'[p]) == Splice(Bytes(d, ino, p, sizes[p]), off, src)
    && OthersKept(d, ino, sizes, e, ino', sizes', p)
  }

  /** File `p` was emptied. */
  ghost predicate DidTrunc(d: Disk, ino: Inodes, sizes: map<int, int>, e: Disk, m': seq<bv8>, ino': Inodes, sizes': map<int, int>,
                           meta: int, p: int) {
    && FilesOk(e, m', ino', meta, sizes') && ino'.Keys == ino.Keys == sizes.Keys && p in ino && sizes'[p] == 0
    && OthersKept(d, ino, sizes, e, ino', sizes', p)
  }

  ghost predicate OthersKept(d: Disk, ino: Inodes, sizes: map<int, int>, e: Disk, ino': Inodes, sizes': map<int, int>, p: int) {
    forall q :: q in ino && q != p ==>
                  && q in sizes && q in sizes' && 0 <= sizes[q] && 0 <= sizes'[q]
                  && Bytes(e, ino', q, sizes'[q]) == Bytes(d, ino, q, sizes[q])
  }

  /** memmove of `piece` into a block at byte `at`. */
  function Patch(b: Block, at: int, piece: seq<int>): (x: Block)
    requires b.Valid() && 0 <= at && at + |piece| <= BSIZE
    ensures x.Valid()
  {
    Block(b.bytes[..at] + piece + b.bytes[at + |piece|..])
  }

  /** The state of writei's loop once the prefix `done` of the source has been written. */
  ghost predicate SoFar(d: Disk, ino: Inodes, sizes: map<int, int>, e: Disk, m: seq<bv8>, ino': Inodes,
                        meta: int, p: int, off: int, done: seq<int>) {
    && FsOk(e, m, ino', meta) && ino'.Keys == ino.Keys == sizes.Keys && p in ino
    && Solid(e, ino', p, Max(sizes[p], off + |done|))
    && Written(d, ino, e, ino', p, sizes[p], off, done)
    && forall q :: q in ino && q != p ==> Untouched(d, ino, e, ino', q, sizes[q])
  }

  /** What writei's loop has done after `tot` bytes of `src`, and with how many blocks. */
  ghost predicate WriteSoFar(d: Disk, m: seq<bv8>, ino: Inodes, sizes: map<int, int>, e: Disk, m': seq<bv8>, ino': Inodes,
                             meta: int, p: int, off: int, src: seq<int>, tot: int) {
    && 0 <= tot <= |src| && SoFar(d, ino, sizes, e, m', ino', meta, p, off, src[..tot])
    && |e| == |d| && p in ino' && Spent(d, m, ino[p], e, m', ino'[p], WriteLacks(d, ino[p], off, tot), true)
  }

  lemma WriteGoesOn(d: Disk, m: seq<bv8>, ino: Inodes, sizes: map<int, int>, e: Disk, m': seq<bv8>, ino': Inodes,
                    meta: int, p: int, off: int, src: seq<int>, tot: int, len: int, n: int, ok: bool)
    requires ok && 0 <= tot && 0 <= len && tot + len <= |src| && |e| == |d| && n == tot + len
    requires SoFar(d, ino, sizes, e, m', ino', meta, p, off, src[..tot + len])
    requires p in ino' && Spent(d, m, ino[p], e, m', ino'[p], WriteLacks(d, ino[p], off, n), ok)
    ensures WriteSoFar(d, m, ino, sizes, e, m', ino', meta, p, off, src, n)
  {
  }

  /** A write to the data block changes nothing about what is missing. */
  lemma PutSpent(d: Disk, m: seq<bv8>, a: seq<int>, e: Disk, m': seq<bv8>, ino': Inodes, meta: int, p: int, bn: int, r: int,
                 x: Block, gone: set<Spot>)
    requires FsOk(e, m', ino', meta) && Maps(e, ino', p, bn, r) && 0 <= r < |e| && Spent(d, m, a, e, m', ino'[p], gone, true)
    ensures Spent(d, m, a, e[r := x], m', ino'[p], gone, true)
  {
    forall cn | 0 <= cn < MAXBLOCKS ensures Spots(e[r := x], ino'[p], cn) == Spots(e, ino'[p], cn) {
      var t := Slot(cn);
      MappedNotInner(e, m', ino', meta, p, bn, r, p, t);
      MissingSame(e, e[r := x], ino'[p][t], Height(t), Offset(cn));
    }
  }

  /** The file block after the last of `n` bytes from byte `off` on. */
  function BlocksTo(off: int, n: int): int {
    if n == 0 then off / BSIZE else (off + n - 1) / BSIZE + 1
  }

  lemma BlocksNext(off: int, tot: int, len: int)
    requires 0 <= off && 0 <= tot && 0 < len && (off + tot) % BSIZE + len <= BSIZE
    ensures var bn := (off + tot) / BSIZE;
      off / BSIZE <= bn <= BlocksTo(off, tot) <= bn + 1 && BlocksTo(off, tot + len) == bn + 1
  {
  }

  lemma BlocksMono(off: int, n: int, k: int)
    requires 0 <= off && 0 <= n <= k
    ensures off / BSIZE <= BlocksTo(off, n) <= BlocksTo(off, k)
  {
  }

  /** What writing `n` bytes at `off` lacks. */
  ghost function WriteLacks(d: Disk, a: seq<int>, off: int, n: int): set<Spot> {
    Lacking(d, a, off / BSIZE, BlocksTo(off, n))
  }

  lemma LacksNext(d: Disk, a: seq<int>, d1: Disk, a1: seq<int>, off: int, tot: int, len: int, n: int)
    requires 0 <= off && 0 <= tot && 0 < len && (off + tot) % BSIZE + len <= BSIZE && off + tot + len <= MAXBYTES
    requires Placed(d, a, d1, a1, WriteLacks(d, a, off, tot)) && n == tot + len
    ensures var gone, more := WriteLacks(d, a, off, tot), Spots(d1, a1, (off + tot) / BSIZE);
      gone + more == WriteLacks(d, a, off, n) && gone !! more
  {
    BlocksNext(off, tot, len);
    PlacedNext(d, a, d1, a1, off / BSIZE, (off + tot) / BSIZE, BlocksTo(off, tot), BlocksTo(off, n));
  }

  /** Another block written: what was needed so far, and for the next. */
  lemma ChunkSpent(d: Disk, m: seq<bv8>, a: seq<int>, d1: Disk, m1: seq<bv8>, a1: seq<int>, e: Disk, m': seq<bv8>, a': seq<int>,
                   off: int, tot: int, len: int, n: int, ok: bool)
    requires 0 <= off && 0 <= tot && 0 < len && (off + tot) % BSIZE + len <= BSIZE && off + tot + len <= MAXBYTES && |d1| == |d|
    requires Spent(d, m, a, d1, m1, a1, WriteLacks(d, a, off, tot), true) && n == tot + len
    requires Spent(d1, m1, a1, e, m', a', Spots(d1, a1, (off + tot) / BSIZE), ok)
    ensures Spent(d, m, a, e, m', a', WriteLacks(d, a, off, n), ok)
  {
    LacksNext(d, a, d1, a1, off, tot, len, n);
    SpentThen(d, m, a, d1, m1, a1, e, m', a', WriteLacks(d, a, off, tot), Spots(d1, a1, (off + tot) / BSIZE),
              WriteLacks(d, a, off, n), ok);
  }

  ghost predicate AllMapped(d: Disk, a: seq<int>, lo: int, hi: int)
    requires |a| == NADDRS && 0 <= lo && hi <= MAXBLOCKS
  {
    forall bn :: lo <= bn < hi ==> FileLook(d, a, bn) != 0
  }

  lemma MappedNext(d: Disk, a: seq<int>, lo: int, k: int, hi: int)
    requires |a| == NADDRS && 0 <= lo <= k && hi == k + 1 <= MAXBLOCKS
    ensures AllMapped(d, a, lo, hi) <==> AllMapped(d, a, lo, k) && FileLook(d, a, k) != 0
  {
  }

  /** Nothing is lacking exactly where every block of the range is mapped. */
  lemma {:induction false} LacksNone(d: Disk, a: seq<int>, lo: int, hi: int)
    requires |a| == NADDRS && 0 <= lo && hi <= MAXBLOCKS
    ensures Lacking(d, a, lo, hi) == {} <==> AllMapped(d, a, lo, hi)
    decreases hi - lo
  {
    if lo < hi {
      var k := hi - 1;
      LacksNone(d, a, lo, k);
      SpotsNone(d, a, k);
      NeitherNor(Lacking(d, a, lo, k), Spots(d, a, k));
      MappedNext(d, a, lo, k, hi);
    }
  }

  lemma SpotsNone(d: Disk, a: seq<int>, bn: int)
    requires |a| == NADDRS && 0 <= bn < MAXBLOCKS
    ensures Spots(d, a, bn) == {} <==> FileLook(d, a, bn) != 0
  {
    SpotsSize(d, a, bn);
    MissingLook(d, a[Slot(bn)], Height(Slot(bn)), Offset(bn));
  }

  lemma NeitherNor(x: set<Spot>, y: set<Spot>)
    ensures x + y == {} <==> x == {} && y == {}
  {
    if x + y == {} {
      assert forall u :: u in x ==> u in x + y;
      assert forall u :: u in y ==> u in x + y;
    }
  }

  /** Writing over bytes that the file has needs no block. */
  lemma OverwriteLacks(d: Disk, ino: Inodes, p: int, n: int, off: int, len: int)
    requires Solid(d, ino, p, n) && 0 <= off && 0 <= len && off + len <= n <= MAXBYTES
    ensures WriteLacks(d, ino[p], off, len) == {}
  {
    var lo, hi := off / BSIZE, BlocksTo(off, len);
    forall bn | lo <= bn < hi ensures FileLook(d, ino[p], bn) != 0 { assert bn * BSIZE < n; }
    LacksNone(d, ino[p], lo, hi);
  }

  lemma LacksMono(d: Disk, a: seq<int>, off: int, n: int, k: int)
    requires 0 <= off && 0 <= n <= k
    ensures |WriteLacks(d, a, off, n)| <= |WriteLacks(d, a, off, k)|
  {
    BlocksMono(off, n, k);
    LackingMono(d, a, off / BSIZE, BlocksTo(off, n), BlocksTo(off, k));
    SubsetSize(WriteLacks(d, a, off, n), WriteLacks(d, a, off, k));
  }

  lemma SpentShort(d: Disk, m: seq<bv8>, a: seq<int>, e: Disk, m': seq<bv8>, a': seq<int>, off: int, n: int, k: int, ok: bool)
    requires !ok && 0 <= off && 0 <= n <= k && Spent(d, m, a, e, m', a', WriteLacks(d, a, off, n), ok)
    ensures Spent(d, m, a, e, m', a', WriteLacks(d, a, off, k), ok)
  {
    LacksMono(d, a, off, n, k);
  }

  lemma ChunkEnds(d: Disk, m: seq<bv8>, a: seq<int>, d1: Disk, m1: seq<bv8>, a1: seq<int>, e: Disk, m': seq<bv8>, a': seq<int>,
                  off: int, tot: int, len: int, n: int, k: int, ok: bool)
    requires 0 <= off && 0 <= tot && 0 < len && (off + tot) % BSIZE + len <= BSIZE && off + tot + len <= MAXBYTES && |d1| == |d|
    requires Spent(d, m, a, d1, m1, a1, WriteLacks(d, a, off, tot), true) && n == tot + len <= k
    requires Spent(d1, m1, a1, e, m', a', Spots(d1, a1, (off + tot) / BSIZE), ok)
    ensures ok ==> Spent(d, m, a, e, m', a', WriteLacks(d, a, off, n), ok)
    ensures !ok ==> Spent(d, m, a, e, m', a', WriteLacks(d, a, off, k), ok)
  {
    ChunkSpent(d, m, a, d1, m1, a1, e, m', a', off, tot, len, n, ok);
    if !ok { SpentShort(d, m, a, e, m', a', off, n, k, ok); }
  }

  /** One write after another, right behind it. */
  lemma LacksJoin(d: Disk, a: seq<int>, d1: Disk, a1: seq<int>, off: int, i: int, pos: int, len: int, n: int)
    requires 0 <= off && 0 <= i && 0 < len && n == i + len && off + n <= MAXBYTES && pos == off + i
    requires Placed(d, a, d1, a1, WriteLacks(d, a, off, i))
    ensures var gone, more := WriteLacks(d, a, off, i), WriteLacks(d1, a1, pos, len);
      gone + more == WriteLacks(d, a, off, n) && gone !! more
  {
    var lo, k, mid, hi := off / BSIZE, pos / BSIZE, BlocksTo(off, i), BlocksTo(off, n);
    assert BlocksTo(pos, len) == hi && lo <= k <= mid <= hi <= MAXBLOCKS;
    LackingJoin(d, a, lo, k, mid, hi);
    LackingPlaced(d, a, d1, a1, WriteLacks(d, a, off, i), k, hi);
  }

  lemma SpentJoin(d: Disk, m: seq<bv8>, a: seq<int>, d1: Disk, m1: seq<bv8>, a1: seq<int>, e: Disk, m': seq<bv8>, a': seq<int>,
                  off: int, i: int, pos: int, len: int, n: int, ok: bool)
    requires 0 <= off && 0 <= i && 0 < len && n == i + len && off + n <= MAXBYTES && pos == off + i && |d1| == |d|
    requires Spent(d, m, a, d1, m1, a1, WriteLacks(d, a, off, i), true)
    requires Spent(d1, m1, a1, e, m', a', WriteLacks(d1, a1, pos, len), ok)
    ensures Spent(d, m, a, e, m', a', WriteLacks(d, a, off, n), ok)
  {
    LacksJoin(d, a, d1, a1, off, i, pos, len, n);
    SpentThen(d, m, a, d1, m1, a1, e, m', a', WriteLacks(d, a, off, i), WriteLacks(d1, a1, pos, len),
              WriteLacks(d, a, off, n), ok);
  }

  lemma SpentNothing(d: Disk, m: seq<bv8>, a: seq<int>, off: int)
    ensures Spent(d, m, a, d, m, a, WriteLacks(d, a, off, 0), true)
  {
    assert WriteLacks(d, a, off, 0) == {};
  }

  lemma ChunkStep(d: Disk, ino: Inodes, sizes: map<int, int>, d1: Disk, m1: seq<bv8>, ino1: Inodes,
                  e: Disk, m': seq<bv8>, ino': Inodes, meta: int, p: int, off: int, src: seq<int>, tot: int, len: int, r: int)
    requires 0 <= tot && 0 < len && tot + len <= |src| && 0 <= off && off + |src| <= MAXBYTES
    requires SoFar(d, ino, sizes, d1, m1, ino1, meta, p, off, src[..tot])
    requires forall q :: q in sizes ==> 0 <= sizes[q] <= MAXBYTES
    requires off <= sizes[p] && (off + tot) % BSIZE + len <= BSIZE
    requires Mapped(d1, m1, ino1, e, m', ino', meta, p, (off + tot) / BSIZE, r) && e[r].Valid()
    ensures SoFar(d, ino, sizes, e[r := Patch(e[r], (off + tot) % BSIZE, src[tot..tot + len])], m', ino', meta, p, off,
                  src[..tot + len])
  {
    var bn, x := (off + tot) / BSIZE, Patch(e[r], (off + tot) % BSIZE, src[tot..tot + len]);
    PutOk(d1, m1, ino1, e, m', ino', meta, p, bn, r, x);
    PutWritten(d1, m1, ino1, e, m', ino', meta, p, bn, r, x, d, ino, sizes[p], off, src, tot, len);
    forall q | q in ino && q != p ensures Untouched(d, ino, e[r := x], ino', q, sizes[q]) {
      assert Untouched(d, ino, d1, ino1, q, sizes[q]);
      PutUntouched(d1, m1, ino1, e, m', ino', meta, p, bn, r, x, q, sizes[q]);
    }
  }

  lemma WriteDone(d: Disk, ino: Inodes, sizes: map<int, int>, e: Disk, m: seq<bv8>, ino': Inodes, meta: int,
                  p: int, off: int, src: seq<int>)
    requires SoFar(d, ino, sizes, e, m, ino', meta, p, off, src)
    requires 0 <= off <= sizes[p] && off + |src| <= MAXBYTES
    requires forall q :: q in sizes ==> 0 <= sizes[q] <= MAXBYTES
    ensures var sizes' := sizes[p := Max(sizes[p], off + |src|)];
            && FilesOk(e, m, ino', meta, sizes')
            && Bytes(e, ino', p, sizes'[p]) == Splice(Bytes(d, ino, p, sizes[p]), off, src)
            && forall q :: q in ino && q != p ==> Bytes(e, ino', q, sizes'[q]) == Bytes(d, ino, q, sizes[q])
  {
    var a, b := Bytes(e, ino', p, Max(sizes[p], off + |src|)), Splice(Bytes(d, ino, p, sizes[p]), off, src);
    assert |a| == |b|;
    forall o | 0 <= o < |a| ensures a[o] == b[o] {
      assert a[o] == ByteAt(e, ino', p, o);
    }
    forall q | q in ino && q != p ensures Bytes(e, ino', q, sizes[q]) == Bytes(d, ino, q, sizes[q]) {
      assert Untouched(d, ino, e, ino', q, sizes[q]);
    }
  }

  /** An inode table that differs in inode `p` only gives the other files the same bytes. */
  lemma OtherFilesKept(d: Disk, m: seq<bv8>, ino: Inodes, meta: int, sizes: map<int, int>, m': seq<bv8>, ino': Inodes, p: int)
    requires FilesOk(d, m, ino, meta, sizes) && FsOk(d, m', ino', meta) && p in ino
    requires ino' == ino[p := seq(NADDRS, _ => 0)]
    ensures FilesOk(d, m', ino', meta, sizes[p := 0])
    ensures forall q :: q in ino && q != p ==> Bytes(d, ino', q, sizes[q]) == Bytes(d, ino, q, sizes[q])
  {
    forall q | q in ino && q != p
      ensures Solid(d, ino', q, sizes[q]) && Bytes(d, ino', q, sizes[q]) == Bytes(d, ino, q, sizes[q])
    {
      assert ino'[q] == ino[q] && Solid(d, ino, q, sizes[q]);
      assert forall o :: ByteAt(d, ino', q, o) == ByteAt(d, ino, q, o);
    }
  }

  lemma SliceGrows(c: seq<int>, off: int, tot: int, m: int)
    requires 0 <= off && 0 <= tot && 0 <= m && off + tot + m <= |c|
    ensures c[off..off + tot] + c[off + tot..off + tot + m] == c[off..off + tot + m]
  {
  }

  /** How many of the `left` bytes from byte `o` on are in its block. */
  function Share(o: int, left: int): (m: int)
    requires 0 <= o && 0 < left
    ensures 0 < m <= left && o % BSIZE + m <= BSIZE
  {
    if left < BSIZE - o % BSIZE then left else BSIZE - o % BSIZE
  }

  class FS {
    const meta: int                  // blocks 0..meta: boot, super, log, inodes, bitmap
    var disk: Disk
    var bitmap: seq<bv8>
    var addrs: map<int, seq<int>>    // by inode number: its block addresses
    var isize: map<int, int>         // by inode number: its size in bytes

    constructor (disk: Disk, bitmap: seq<bv8>, meta: int, addrs: Inodes, isize: map<int, int>)
      requires FilesOk(disk, bitmap, addrs, meta, isize)
      ensures Inv() && this.meta == meta && this.disk == disk && this.addrs == addrs && this.isize == isize
    {
      this.disk, this.bitmap, this.meta, this.addrs, this.isize := disk, bitmap, meta, addrs, isize;
    }

    /** Allocate a zeroed block; -1 is the "out of blocks" panic. */
    method Balloc() returns (b: int)
      requires StoreOk(disk, bitmap, meta)
      modifies this`disk, this`bitmap
      ensures StoreOk(disk, bitmap, meta) && |disk| == old(|disk|)
      ensures b == -1 <==> forall c :: 0 <= c < |disk| ==> old(Bitmap.Used(bitmap, c))
      ensures b == -1 ==> disk == old(disk) && bitmap == old(bitmap)
      ensures b != -1 ==> meta <= b < |disk| && !old(Bitmap.Used(bitmap, b)) && disk == old(disk)[b := Zero()]
      ensures b != -1 ==> forall c :: Bitmap.Used(bitmap, c) <==> c == b || old(Bitmap.Used(bitmap, c))
    {
      b := Bitmap.FindFree(bitmap, |disk|);
      if b != -1 {
        bitmap := Bitmap.Mark(bitmap, b);
        disk := disk[b := Zero()];
      }
    }

    /** Free a block; false is the "freeing free block" panic. */
    method Bfree(b: int) returns (ok: bool)
      requires 0 <= b < 8 * |bitmap|
      modifies this`bitmap
      ensures |bitmap| == old(|bitmap|) && ok == old(Bitmap.Used(bitmap, b))
      ensures forall c :: Bitmap.Used(bitmap, c) <==> c != b && old(Bitmap.Used(bitmap, c))
    {
      ok := Bitmap.Used(bitmap, b);
      bitmap := Bitmap.Clear(bitmap, b);
    }

    /** Child `i` of indirect block `a`, allocated and entered there if it is missing. */
    method ChildOrAlloc(a: int, i: int) returns (c: int)
      requires StoreOk(disk, bitmap, meta) && 0 <= i < NINDIRECT && 0 <= a < |disk| && Bitmap.Used(bitmap, a)
      modifies this`disk, this`bitmap
      ensures StoreOk(disk, bitmap, meta) && |disk| == old(|disk|)
      ensures old(Child(disk, a, i)) != 0 ==> c == old(Child(disk, a, i)) && disk == old(disk) && bitmap == old(bitmap)
      ensures old(Child(disk, a, i)) == 0 && c == -1 ==>
                bitmap == old(bitmap) && forall b :: 0 <= b < |disk| ==> Bitmap.Used(bitmap, b)
      ensures old(Child(disk, a, i)) == 0 && c != -1 ==>
                && meta <= c < |disk| && c != a && Took(old(bitmap), bitmap, meta, |disk|, {c})
                && disk == old(disk)[c := Zero()][a := SetWord(old(disk[a]), i, c)]
    {
      c := Word(disk[a], i);
      if c == 0 {
        c := Balloc();
        if c != -1 {
          disk := disk[a := SetWord(disk[a], i, c)];
        }
      }
    }

    /** The walk that bmap makes down from a non-zero address, allocating what is missing. */
    method Walk(a: int, h: nat, k: int) returns (r: int, ghost added: set<int>)
      requires StoreOk(disk, bitmap, meta) && h <= MAXHEIGHT && 0 <= k < Span(h)
      requires a != 0 && WF(disk, a, h, meta)
      requires forall b :: InTree(disk, a, h, b) ==> Bitmap.Used(bitmap, b)
      modifies this`disk, this`bitmap
      ensures StoreOk(disk, bitmap, meta) && |disk| == old(|disk|)
      ensures r == -1 ==> forall c :: 0 <= c < |disk| ==> Bitmap.Used(bitmap, c)
      ensures WalkEnds(old(disk), old(bitmap), disk, bitmap, a, h, meta, k, added, r)
      ensures old(Look(disk, a, h, k)) != 0 ==> r != -1 && added == {} && disk == old(disk) && bitmap == old(bitmap)
      decreases h, 1
    {
      if h == 0 {
        WalkEndsBase(disk, bitmap, a, meta);
        return a, {};
      }
      ghost var d, m := disk, bitmap;
      var c := StepDown(a, h, k);
      if c == -1 {
        return -1, {};
      }
      r, added := WalkBelow(a, h, k, c, d, m);
    }

    /** The rest of it. */
    method WalkBelow(a: int, h: nat, k: int, c: int, ghost d: Disk, ghost m: seq<bv8>) returns (r: int, ghost added: set<int>)
      requires StoreOk(disk, bitmap, meta) && 0 < h <= MAXHEIGHT && 0 <= k < Span(h) && |d| == |disk|
      requires a != 0 && WF(d, a, h, meta) && forall b :: InTree(d, a, h, b) ==> Bitmap.Used(m, b)
      requires Stepped(d, m, disk, bitmap, a, h, meta, k, c)
      modifies this`disk, this`bitmap
      ensures StoreOk(disk, bitmap, meta) && |disk| == old(|disk|)
      ensures r == -1 ==> forall b :: 0 <= b < |disk| ==> Bitmap.Used(bitmap, b)
      ensures WalkEnds(d, m, disk, bitmap, a, h, meta, k, added, r)
      ensures Look(d, a, h, k) != 0 ==> r != -1 && added == {} && disk == old(disk) && bitmap == old(bitmap)
      decreases h, 0
    {
      ghost var d1, m1, more := disk, bitmap, {};
      r, more := Walk(c, h - 1, Rem(h, k));
      added := First(d, a, h, k, c) + more;
      WalkEndsUp(d, d1, disk, m, m1, bitmap, a, h, meta, c, more, added, k, r);
    }

    /** One step of it: to the child that holds index `k`. */
    method StepDown(a: int, h: nat, k: int) returns (c: int)
      requires StoreOk(disk, bitmap, meta) && 0 < h <= MAXHEIGHT && 0 <= k < Span(h)
      requires a != 0 && WF(disk, a, h, meta)
      requires forall b :: InTree(disk, a, h, b) ==> Bitmap.Used(bitmap, b)
      modifies this`disk, this`bitmap
      ensures StoreOk(disk, bitmap, meta) && |disk| == old(|disk|)
      ensures c == -1 ==> bitmap == old(bitmap) && old(Child(disk, a, Ix(h, k))) == 0
      ensures c == -1 ==> forall b :: 0 <= b < |disk| ==> Bitmap.Used(bitmap, b)
      ensures c != -1 ==> Stepped(old(disk), old(bitmap), disk, bitmap, a, h, meta, k, c)
    {
      ghost var d, m := disk, bitmap;
      c := ChildOrAlloc(a, Ix(h, k));
      if c != -1 { WalkInto(d, disk, a, h, meta, c, k); }
    }

    /** Slot `s` of inode `p`, allocated and entered there if it is missing. */
    method RootOrAlloc(p: int, s: int) returns (a: int)
      requires StoreOk(disk, bitmap, meta) && p in addrs && |addrs[p]| == NADDRS && 0 <= s < NADDRS
      modifies this`disk, this`bitmap, this`addrs
      ensures StoreOk(disk, bitmap, meta) && |disk| == old(|disk|)
      ensures old(addrs[p][s]) != 0 ==>
                a == old(addrs[p][s]) && disk == old(disk) && bitmap == old(bitmap) && addrs == old(addrs)
      ensures old(addrs[p][s]) == 0 && a == -1 ==>
                addrs == old(addrs) && bitmap == old(bitmap) && forall b :: 0 <= b < |disk| ==> Bitmap.Used(bitmap, b)
      ensures old(addrs[p][s]) == 0 && a != -1 ==>
                && meta <= a < |disk| && Took(old(bitmap), bitmap, meta, |disk|, {a})
                && disk == old(disk)[a := Zero()] && addrs == old(addrs)[p := old(addrs[p])[s := a]]
    {
      a := addrs[p][s];
      if a == 0 {
        a := Balloc();
        if a != -1 {
          addrs := addrs[p := addrs[p][s := a]];
        }
      }
    }

    /** bmap: the disk block of file block `bn` of inode `p`, allocated if missing.
        -1 is one of its panics: block number out of range, or no free block. */
    method Bmap(p: int, bn: int) returns (r: int)
      requires FsOk(disk, bitmap, addrs, meta) && p in addrs && 0 <= bn
      modifies this`disk, this`bitmap, this`addrs
      ensures |disk| == old(|disk|)
      ensures r == -1 ==> bn >= MAXBLOCKS || forall c :: 0 <= c < |disk| ==> Bitmap.Used(bitmap, c)
      ensures r == -1 ==> forall x :: !old(Maps(disk, addrs, p, bn, x))
      ensures r != -1 ==> Mapped(old(disk), old(bitmap), old(addrs), disk, bitmap, addrs, meta, p, bn, r)
      // It fails exactly if more blocks are missing on the way than are free.
      ensures p in addrs && (bn < MAXBLOCKS ==>
        Spent(old(disk), old(bitmap), old(addrs)[p], disk, bitmap, addrs[p], Spots(old(disk), old(addrs)[p], bn), r != -1))
    {
      if bn >= MAXBLOCKS {
        return -1;
      }
      var s, k := Slot(bn), Offset(bn);
      ghost var d, m, ino := disk, bitmap, addrs;
      assert RootOk(d, ino[p], s, meta);
      var a := RootOrAlloc(p, s);
      if a == -1 {
        NoRoot(d, m, ino, disk, meta, p, bn);
        return -1;
      }
      ghost var d1, m1 := disk, bitmap;
      RootInto(d, m, ino, d1, m1, meta, p, s, a);
      ghost var added;
      r, added := Walk(a, Height(s), k);
      assert ino[p][s] != 0 ==> ino[p][s := a] == ino[p];
      assert addrs == ino[p := ino[p][s := a]];
      if r != -1 {
        BmapDone(d, m, ino, d1, m1, disk, bitmap, addrs, meta, p, bn, a, added, r);
      }
      BmapSpent(d, m, ino, d1, m1, disk, bitmap, addrs, meta, p, bn, a, added, r);
    }

    /** The loops of itrunc over one tree: its blocks are freed depth first, the root last. */
    method FreeTree(a: int, h: nat)
      requires |disk| <= 8 * |bitmap| && 0 < meta && a != 0 && WF(disk, a, h, meta)
      requires forall b :: 0 <= b < |disk| ==> disk[b].Valid()
      requires forall b :: InTree(disk, a, h, b) ==> Bitmap.Used(bitmap, b)
      modifies this`bitmap
      ensures |bitmap| == old(|bitmap|)
      ensures forall b :: Bitmap.Used(bitmap, b) <==> old(Bitmap.Used(bitmap, b)) && !InTree(disk, a, h, b)
      decreases h
    {
      if h > 0 {
        var i := 0;
        while i < NINDIRECT
          invariant 0 <= i <= NINDIRECT && |bitmap| == old(|bitmap|)
          invariant forall b :: Bitmap.Used(bitmap, b) <==> old(Bitmap.Used(bitmap, b)) && !InFirst(disk, a, h, i, b)
        {
          var c := Word(disk[a], i);
          assert c == Child(disk, a, i);
          if c != 0 {
            forall b | InTree(disk, c, h - 1, b) ensures Bitmap.Used(bitmap, b) {
              assert InTree(disk, a, h, b);
              NotInFirst(disk, a, h, meta, i, b);
            }
            FreeTree(c, h - 1);
          }
          FirstNext(disk, a, h, i);
          i := i + 1;
        }
        assert !InFirst(disk, a, h, NINDIRECT, a);
        assert forall b :: InTree(disk, a, h, b) <==> b == a || InFirst(disk, a, h, NINDIRECT, b);
      }
      assert Bitmap.Used(bitmap, a);
      var ok := Bfree(a);
      assert ok;
    }

    /** The tree in slot `s`, if there is one, is freed and the slot cleared. */
    method FreeSlot(p: int, s: int)
      requires FsOk(disk, bitmap, addrs, meta) && p in addrs && 0 <= s < NADDRS
      modifies this`bitmap, this`addrs
      ensures FsOk(disk, bitmap, addrs, meta)
      ensures |old(addrs)[p]| == NADDRS && addrs == old(addrs)[p := old(addrs)[p][s := 0]]
      ensures forall b :: Bitmap.Used(bitmap, b) <==> old(Bitmap.Used(bitmap, b)) && !InRoot(disk, old(addrs), p, s, b)
    {
      assert RootOk(disk, addrs[p], s, meta);
      ghost var m := bitmap;
      var a := addrs[p][s];
      if a != 0 {
        forall b | InTree(disk, a, Height(s), b) ensures Bitmap.Used(bitmap, b) {
          RootUsed(disk, bitmap, addrs, meta, p, s, b);
        }
        FreeTree(a, Height(s));
      }
      DropRoot(disk, m, addrs, meta, bitmap, p, s);
      addrs := addrs[p := addrs[p][s := 0]];
    }

    /** itrunc: exactly the blocks of inode `p` become free, each once. */
    method Itrunc(p: int)
      requires FsOk(disk, bitmap, addrs, meta) && p in addrs
      modifies this`bitmap, this`addrs, this`isize
      ensures FsOk(disk, bitmap, addrs, meta)
      ensures addrs == old(addrs)[p := seq(NADDRS, _ => 0)] && isize == old(isize)[p := 0]
      ensures forall b :: Bitmap.Used(bitmap, b) <==>
                            old(Bitmap.Used(bitmap, b)) && !exists s :: InRoot(disk, old(addrs), p, s, b)
      ensures old(Inv()) ==> Inv() && Content(p) == []
      ensures old(Inv()) ==> forall q :: q in addrs && q != p ==> Content(q) == old(Content(q))
      ensures old(Inv()) ==> DidTrunc(old(disk), old(addrs), old(isize), disk, bitmap, addrs, isize, meta, p)
    {
      ghost var ino := addrs;
      assert RootOk(disk, addrs[p], 0, meta);
      var s := 0;
      while s < NADDRS
        invariant 0 <= s <= NADDRS && FsOk(disk, bitmap, addrs, meta) && isize == old(isize)
        invariant p in addrs && |addrs[p]| == NADDRS == |ino[p]| && addrs == ino[p := addrs[p]]
        invariant forall t :: 0 <= t < NADDRS ==> addrs[p][t] == if t < s then 0 else ino[p][t]
        invariant forall b :: Bitmap.Used(bitmap, b) <==>
                                old(Bitmap.Used(bitmap, b)) && !exists t :: t < s && InRoot(disk, ino, p, t, b)
      {
        assert forall b :: InRoot(disk, addrs, p, s, b) <==> InRoot(disk, ino, p, s, b);
        FreeSlot(p, s);
        s := s + 1;
      }
      assert addrs[p] == seq(NADDRS, _ => 0);
      isize := isize[p := 0];
      if old(Inv()) { OtherFilesKept(disk, old(bitmap), ino, meta, old(isize), bitmap, addrs, p); }
    }

    ghost predicate Inv()
      reads this
    {
      FilesOk(disk, bitmap, addrs, meta, isize)
    }

    /** The bytes of file `p`. */
    ghost function Content(p: int): seq<int>
      reads this
      requires Inv() && p in addrs
    {
      Bytes(disk, addrs, p, isize[p])
    }

    /** One turn of readi's loop: `m` bytes from offset `o`, all in one block. */
    method ReadChunk(p: int, o: int, m: int) returns (x: seq<int>)
      requires Inv() && p in addrs && 0 <= o && 0 < m && o + m <= isize[p] && o % BSIZE + m <= BSIZE
      modifies this`disk, this`bitmap, this`addrs
      ensures disk == old(disk) && bitmap == old(bitmap) && addrs == old(addrs) && Inv()
      ensures x == Content(p)[o..o + m]
    {
      SolidAt(disk, addrs, p, isize[p], o);
      var r := Bmap(p, o / BSIZE);
      assert Maps(disk, addrs, p, o / BSIZE, r);
      BytesInBlock(disk, addrs, p, isize[p], o, m, r);
      x := disk[r].bytes[o % BSIZE..o % BSIZE + m];
    }

    /** readi's loop. */
    method ReadAll(p: int, off: int, n: int) returns (dst: seq<int>)
      requires Inv() && p in addrs && 0 <= off && 0 <= n && off + n <= isize[p]
      modifies this`disk, this`bitmap, this`addrs
      ensures disk == old(disk) && bitmap == old(bitmap) && addrs == old(addrs) && Inv()
      ensures dst == Content(p)[off..off + n]
    {
      dst := [];
      var tot := 0;
      while tot < n
        invariant 0 <= tot <= n && disk == old(disk) && bitmap == old(bitmap) && addrs == old(addrs)
        invariant dst == Content(p)[off..off + tot]
      {
        var m := Share(off + tot, n - tot);
        var x := ReadChunk(p, off + tot, m);
        SliceGrows(Content(p), off, tot, m);
        dst := dst + x;
        tot := tot + m;
      }
    }

    /** readi of `n` bytes at `off`, both 32-bit; -1 on error. */
    method Readi(p: int, off: int, n: int) returns (res: int, dst: seq<int>)
      requires Inv() && p in addrs && 0 <= off < WORD_LIMIT && 0 <= n < WORD_LIMIT
      modifies this`disk, this`bitmap, this`addrs
      ensures disk == old(disk) && bitmap == old(bitmap) && addrs == old(addrs) && Inv()
      ensures res == -1 <==> off > isize[p] || off + n >= WORD_LIMIT
      ensures res != -1 ==> res == |dst| && dst == Slice(Content(p), off, n)
    {
      dst := [];
      if off > isize[p] || (off + n) % WORD_LIMIT < off {
        return -1, [];
      }
      var want := if off + n > isize[p] then isize[p] - off else n;
      dst := ReadAll(p, off, want);
      res := want;
    }

    /** One turn of writei's loop: bytes `tot..tot+m` of `src` into one block. */
    method WriteChunk(p: int, off: int, src: seq<int>, tot: int, m: int, ghost d: Disk, ghost ino: Inodes)
      returns (ok: bool)
      requires 0 <= tot && 0 < m && tot + m <= |src| && 0 <= off && off + |src| <= MAXBYTES
      requires SoFar(d, ino, isize, disk, bitmap, addrs, meta, p, off, src[..tot])
      requires forall q :: q in isize ==> 0 <= isize[q] <= MAXBYTES
      requires off <= isize[p] && (off + tot) % BSIZE + m <= BSIZE
      modifies this`disk, this`bitmap, this`addrs
      ensures ok ==> SoFar(d, ino, isize, disk, bitmap, addrs, meta, p, off, src[..tot + m])
      ensures !ok ==> forall c :: 0 <= c < |disk| ==> Bitmap.Used(bitmap, c)
      ensures |disk| == old(|disk|) && p in old(addrs) && p in addrs
      ensures Spent(old(disk), old(bitmap), old(addrs)[p], disk, bitmap, addrs[p],
                    Spots(old(disk), old(addrs)[p], (off + tot) / BSIZE), ok)
    {
      var o := off + tot;
      ghost var d1, m1, ino1 := disk, bitmap, addrs;
      var r := Bmap(p, o / BSIZE);
      if r == -1 {
        return false;
      }
      ChunkStep(d, ino, isize, d1, m1, ino1, disk, bitmap, addrs, meta, p, off, src, tot, m, r);
      PutSpent(d1, m1, ino1[p], disk, bitmap, addrs, meta, p, o / BSIZE, r,
               Patch(disk[r], o % BSIZE, src[tot..tot + m]), Spots(d1, ino1[p], o / BSIZE));
      disk := disk[r := Patch(disk[r], o % BSIZE, src[tot..tot + m])];
      ok := true;
    }

    /** The same, with the count of blocks. */
    method WriteNext(p: int, off: int, src: seq<int>, tot: int, m: int, ghost d: Disk, ghost bits: seq<bv8>, ghost ino: Inodes)
      returns (ok: bool, ghost tot1: int)
      requires 0 <= tot && 0 < m && tot + m <= |src| && 0 <= off && off + |src| <= MAXBYTES
      requires WriteSoFar(d, bits, ino, isize, disk, bitmap, addrs, meta, p, off, src, tot)
      requires forall q :: q in isize ==> 0 <= isize[q] <= MAXBYTES
      requires off <= isize[p] && (off + tot) % BSIZE + m <= BSIZE
      modifies this`disk, this`bitmap, this`addrs
      ensures tot1 == tot + m && (ok ==> WriteSoFar(d, bits, ino, isize, disk, bitmap, addrs, meta, p, off, src, tot1))
      ensures !ok ==> forall c :: 0 <= c < |disk| ==> Bitmap.Used(bitmap, c)
      ensures !ok ==> |disk| == |d| && p in addrs
      ensures !ok ==> Spent(d, bits, ino[p], disk, bitmap, addrs[p], WriteLacks(d, ino[p], off, |src|), ok)
    {
      ghost var d1, m1, a1 := disk, bitmap, addrs[p];
      tot1 := tot + m;
      ok := WriteChunk(p, off, src, tot, m, d, ino);
      ChunkEnds(d, bits, ino[p], d1, m1, a1, disk, bitmap, addrs[p], off, tot, m, tot1, |src|, ok);
      if ok { WriteGoesOn(d, bits, ino, isize, disk, bitmap, addrs, meta, p, off, src, tot, m, tot1, ok); }
    }

    /** writei's loop. */
    method WriteAll(p: int, off: int, src: seq<int>) returns (ok: bool)
      requires Inv() && p in addrs && 0 <= off <= isize[p] && off + |src| <= MAXBYTES
      modifies this`disk, this`bitmap, this`addrs
      ensures ok ==> SoFar(old(disk), old(addrs), isize, disk, bitmap, addrs, meta, p, off, src)
      ensures !ok ==> forall c :: 0 <= c < |disk| ==> Bitmap.Used(bitmap, c)
      ensures |disk| == old(|disk|) && p in addrs
      ensures Spent(old(disk), old(bitmap), old(addrs)[p], disk, bitmap, addrs[p],
                    WriteLacks(old(disk), old(addrs)[p], off, |src|), ok)
    {
      ghost var d, bits, ino := disk, bitmap, addrs;
      var tot := 0;
      SpentNothing(d, bits, ino[p], off);
      ghost var now := 0;
      while tot < |src|
        invariant tot == now <= |src| && WriteSoFar(d, bits, ino, isize, disk, bitmap, addrs, meta, p, off, src, now)
      {
        var m := Share(off + tot, |src| - tot);
        ok, now := WriteNext(p, off, src, tot, m, d, bits, ino);
        if !ok { return; }
        tot := tot + m;
      }
      assert src[..tot] == src;
      ok := true;
    }

    /** writei of `src` at `off`; -1 on error, -2 when the kernel panics for want of blocks. */
    method Writei(p: int, off: int, src: seq<int>) returns (res: int)
      requires Inv() && p in addrs && 0 <= off < WORD_LIMIT && |src| < WORD_LIMIT
      modifies this`disk, this`bitmap, this`addrs, this`isize
      ensures res == -1 <==> off > old(isize[p]) || off + |src| >= WORD_LIMIT || off + |src| > MAXBYTES
      ensures res == -1 ==> disk == old(disk) && bitmap == old(bitmap) && addrs == old(addrs) && isize == old(isize)
      ensures res == -2 ==> forall c :: 0 <= c < |disk| ==> Bitmap.Used(bitmap, c)
      // It panics exactly if fewer blocks are free than are missing in the range.
      ensures res != -1 ==> |disk| == old(|disk|) && p in addrs
      ensures res != -1 ==> Spent(old(disk), old(bitmap), old(addrs)[p], disk, bitmap, addrs[p],
                                  WriteLacks(old(disk), old(addrs)[p], off, |src|), res != -2)
      ensures res == -1 || res == -2 || res == |src|
      ensures res >= 0 ==> Inv() && addrs.Keys == old(addrs).Keys && Content(p) == Splice(old(Content(p)), off, src)
      ensures res >= 0 ==> forall q :: q in addrs && q != p ==> Content(q) == old(Content(q))
      ensures res >= 0 ==> DidWrite(old(disk), old(addrs), old(isize), disk, bitmap, addrs, isize, meta, p, off, src)
    {
      var n := |src|;
      if off > isize[p] || (off + n) % WORD_LIMIT < off {
        return -1;
      }
      if off + n > MAXBYTES {
        return -1;
      }
      ghost var d, ino := disk, addrs;
      var ok := WriteAll(p, off, src);
      if !ok {
        return -2;
      }
      WriteDone(d, ino, isize, disk, bitmap, addrs, meta, p, off, src);
      assert isize[p := isize[p]] == isize;
      if n > 0 && off + n > isize[p] {
        isize := isize[p := off + n];
      }
      res := n;
    }
  }
}
