/** The indirect-block trees of fs.c. A tree of height 0 is one data block; a
    tree of height h+1 is an indirect block whose NINDIRECT words are trees of
    height h. Address 0 is the empty tree. */
module BlockTree {
  import opened Blocks

  const NINDIRECT := 128
  const MAXHEIGHT := 3

  type Disk = seq<Block>

  /** Word `i` of indirect block `a`. */
  function Child(d: Disk, a: int, i: int): int
    requires 0 <= i < NINDIRECT
  {
    if 0 <= a < |d| && d[a].Valid() then Word(d[a], i) else 0
  }

  /** Number of data blocks that a tree of height `h` can hold: 1, NINDIRECT, NINDIRECT2, NINDIRECT3. */
  function Span(h: nat): int
    requires h <= MAXHEIGHT
  {
    if h == 0 then 1 else if h == 1 then 128 else if h == 2 then 16384 else 2097152
  }

  /** Which child of a tree of height `h` holds index `k`. */
  function Ix(h: nat, k: int): (i: int)
    requires 0 < h <= MAXHEIGHT && 0 <= k < Span(h)
    ensures 0 <= i < NINDIRECT
  {
    k / Span(h - 1)
  }

  /** Where in that child. */
  function Rem(h: nat, k: int): (r: int)
    requires 0 < h <= MAXHEIGHT && 0 <= k < Span(h)
    ensures 0 <= r < Span(h - 1)
  {
    k % Span(h - 1)
  }

  lemma IxRem(h: nat, k: int, l: int)
    requires 0 < h <= MAXHEIGHT && 0 <= k < Span(h) && 0 <= l < Span(h)
    ensures k == l <==> Ix(h, k) == Ix(h, l) && Rem(h, k) == Rem(h, l)
  {
  }

  /** The data block at index `k` of the tree, 0 if it is not allocated. */
  function Look(d: Disk, a: int, h: nat, k: int): int
    requires h <= MAXHEIGHT && 0 <= k < Span(h)
    decreases h
  {
    if a == 0 || h == 0 then a
    else Look(d, Child(d, a, Ix(h, k)), h - 1, Rem(h, k))
  }

  /** `b` is a block of the tree. */
  ghost predicate InTree(d: Disk, a: int, h: nat, b: int)
    decreases h
  {
    a != 0 && (b == a || (h > 0 && exists i :: 0 <= i < NINDIRECT && InTree(d, Child(d, a, i), h - 1, b)))
  }

  /** `b` is an indirect block of the tree. */
  ghost predicate Inner(d: Disk, a: int, h: nat, b: int)
    decreases h
  {
    a != 0 && h > 0 && (b == a || exists i :: 0 <= i < NINDIRECT && Inner(d, Child(d, a, i), h - 1, b))
  }

  /** The trees rooted at `a` and `c` share no block. */
  ghost predicate Apart(d: Disk, a: int, g: nat, c: int, h: nat) {
    forall b :: !(InTree(d, a, g, b) && InTree(d, c, h, b))
  }

  /** No block occurs twice, and every block is in `lo..|d|`. */
  ghost predicate WF(d: Disk, a: int, h: nat, lo: int)
    decreases h
  {
    a == 0 ||
    (&& lo <= a < |d|
     && (h > 0 ==>
           && (forall i :: 0 <= i < NINDIRECT ==>
                             WF(d, Child(d, a, i), h - 1, lo) && !InTree(d, Child(d, a, i), h - 1, a))
           && (forall i, j :: 0 <= i < j < NINDIRECT ==> Apart(d, Child(d, a, i), h - 1, Child(d, a, j), h - 1))))
  }

  lemma {:induction false} InnerInTree(d: Disk, a: int, h: nat, b: int)
    requires Inner(d, a, h, b)
    ensures InTree(d, a, h, b)
    decreases h
  {
    if b != a {
      var i :| 0 <= i < NINDIRECT && Inner(d, Child(d, a, i), h - 1, b);
      InnerInTree(d, Child(d, a, i), h - 1, b);
    }
  }

  lemma {:induction false} TreeRange(d: Disk, a: int, h: nat, lo: int, b: int)
    requires WF(d, a, h, lo) && InTree(d, a, h, b)
    ensures lo <= b < |d|
    decreases h
  {
    if b != a {
      var i :| 0 <= i < NINDIRECT && InTree(d, Child(d, a, i), h - 1, b);
      TreeRange(d, Child(d, a, i), h - 1, lo, b);
    }
  }

  /** Disk `e` holds the same indirect blocks for this tree as `d`. */
  ghost predicate SameInner(d: Disk, e: Disk, a: int, h: nat) {
    |d| == |e| && forall b :: Inner(d, a, h, b) && 0 <= b < |d| ==> e[b] == d[b]
  }

  /** Same blocks, same indirect blocks, same index. */
  ghost predicate SameTree(d: Disk, e: Disk, a: int, h: nat) {
    && (forall b :: InTree(e, a, h, b) <==> InTree(d, a, h, b))
    && (forall b :: Inner(e, a, h, b) <==> Inner(d, a, h, b))
    && (h <= MAXHEIGHT ==> forall k :: 0 <= k < Span(h) ==> Look(e, a, h, k) == Look(d, a, h, k))
  }

  /** A tree depends on its indirect blocks only. */
  lemma {:induction false} Frame(d: Disk, e: Disk, a: int, h: nat, lo: int)
    requires SameInner(d, e, a, h) && WF(d, a, h, lo)
    ensures WF(e, a, h, lo) && SameTree(d, e, a, h)
    decreases h
  {
    if a != 0 && h > 0 {
      assert Inner(d, a, h, a);
      forall i | 0 <= i < NINDIRECT
        ensures Child(e, a, i) == Child(d, a, i)
        ensures WF(e, Child(d, a, i), h - 1, lo) && SameTree(d, e, Child(d, a, i), h - 1)
      {
        assert SameInner(d, e, Child(d, a, i), h - 1);
        Frame(d, e, Child(d, a, i), h - 1, lo);
      }
      SameFromChildren(d, e, a, h);
      forall i, j | 0 <= i < j < NINDIRECT ensures Apart(e, Child(e, a, i), h - 1, Child(e, a, j), h - 1) {
        assert Apart(d, Child(d, a, i), h - 1, Child(d, a, j), h - 1);
      }
    }
  }

  lemma SameFromChildren(d: Disk, e: Disk, a: int, h: nat)
    requires h > 0
    requires forall i :: 0 <= i < NINDIRECT ==>
                           Child(e, a, i) == Child(d, a, i) && SameTree(d, e, Child(d, a, i), h - 1)
    ensures SameTree(d, e, a, h)
  {
    forall b ensures InTree(e, a, h, b) <==> InTree(d, a, h, b) {
      if InTree(d, a, h, b) && b != a {
        var i :| 0 <= i < NINDIRECT && InTree(d, Child(d, a, i), h - 1, b);
        assert InTree(e, Child(e, a, i), h - 1, b);
      }
    }
    forall b ensures Inner(e, a, h, b) <==> Inner(d, a, h, b) {
      if Inner(d, a, h, b) && b != a {
        var i :| 0 <= i < NINDIRECT && Inner(d, Child(d, a, i), h - 1, b);
        assert Inner(e, Child(e, a, i), h - 1, b);
      }
    }
    if h <= MAXHEIGHT {
      forall k | 0 <= k < Span(h) ensures Look(e, a, h, k) == Look(d, a, h, k) {
        assert SameTree(d, e, Child(d, a, Ix(h, k)), h - 1);
      }
    }
  }

  /** A block is in the tree of one child only. */
  lemma OneChild(d: Disk, a: int, h: nat, lo: int, i: int, j: int, b: int)
    requires 0 < h && a != 0 && WF(d, a, h, lo) && 0 <= i < NINDIRECT && 0 <= j < NINDIRECT
    requires InTree(d, Child(d, a, i), h - 1, b) && InTree(d, Child(d, a, j), h - 1, b)
    ensures i == j
  {
    var g := h - 1;
    assert forall x, y :: 0 <= x < y < NINDIRECT ==> Apart(d, Child(d, a, x), g, Child(d, a, y), g);
  }

  /** What `Look` finds is a data block of the tree. */
  lemma {:induction false} LookInTree(d: Disk, a: int, h: nat, lo: int, k: int)
    requires h <= MAXHEIGHT && 0 <= k < Span(h) && WF(d, a, h, lo) && Look(d, a, h, k) != 0
    ensures InTree(d, a, h, Look(d, a, h, k)) && !Inner(d, a, h, Look(d, a, h, k))
    decreases h
  {
    if h > 0 {
      var i, r := Ix(h, k), Look(d, a, h, k);
      LookInTree(d, Child(d, a, i), h - 1, lo, Rem(h, k));
      forall j | 0 <= j < NINDIRECT && Inner(d, Child(d, a, j), h - 1, r) ensures j == i {
        InnerInTree(d, Child(d, a, j), h - 1, r);
        OneChild(d, a, h, lo, i, j, r);
      }
    }
  }

  /** Distinct indexes reach distinct data blocks. */
  lemma {:induction false} LookInjective(d: Disk, a: int, h: nat, lo: int, k: int, l: int)
    requires h <= MAXHEIGHT && 0 <= k < Span(h) && 0 <= l < Span(h) && WF(d, a, h, lo)
    requires Look(d, a, h, k) == Look(d, a, h, l) != 0
    ensures k == l
    decreases h
  {
    if h > 0 {
      IxRem(h, k, l);
      SameChild(d, a, h, lo, k, l);
      var i := Ix(h, k);
      assert WF(d, Child(d, a, i), h - 1, lo);
      LookInjective(d, Child(d, a, i), h - 1, lo, Rem(h, k), Rem(h, l));
    }
  }

  /** Indexes that reach the same data block go through the same child. */
  lemma SameChild(d: Disk, a: int, h: nat, lo: int, k: int, l: int)
    requires 0 < h <= MAXHEIGHT && 0 <= k < Span(h) && 0 <= l < Span(h) && WF(d, a, h, lo)
    requires Look(d, a, h, k) == Look(d, a, h, l) != 0
    ensures Ix(h, k) == Ix(h, l)
  {
    var i, j, b := Ix(h, k), Ix(h, l), Look(d, a, h, k);
    assert WF(d, Child(d, a, i), h - 1, lo) && WF(d, Child(d, a, j), h - 1, lo);
    LookInTree(d, Child(d, a, i), h - 1, lo, Rem(h, k));
    LookInTree(d, Child(d, a, j), h - 1, lo, Rem(h, l));
    OneChild(d, a, h, lo, i, j, b);
  }

  // ---------- growing a tree ----------

  /** From tree `a` on `d` to tree `c` on `e` exactly the blocks `added` have come in,
      and no index but `k` has changed. */
  ghost predicate Grown(d: Disk, a: int, e: Disk, c: int, h: nat, added: set<int>, k: int)
    requires h <= MAXHEIGHT
  {
    && (forall b :: InTree(e, c, h, b) <==> InTree(d, a, h, b) || b in added)
    && (forall b :: Inner(e, c, h, b) ==> Inner(d, a, h, b) || b in added)
    && (forall l :: 0 <= l < Span(h) && l != k ==> Look(e, c, h, l) == Look(d, a, h, l))
  }

  /** A zeroed block is a tree with no children. */
  lemma ZeroTree(d: Disk, c: int, h: nat, lo: int)
    requires lo <= c < |d| && 0 < lo && d[c] == Zero() && h <= MAXHEIGHT
    ensures WF(d, c, h, lo)
    ensures forall b :: InTree(d, c, h, b) <==> b == c
    ensures forall b :: Inner(d, c, h, b) ==> b == c
    ensures forall k :: 0 <= k < Span(h) ==> Look(d, c, h, k) == if h == 0 then c else 0
  {
    if h > 0 {
      forall i | 0 <= i < NINDIRECT ensures Child(d, c, i) == 0 { ZeroWords(i); }
      assert forall i :: 0 <= i < NINDIRECT ==> WF(d, Child(d, c, i), h - 1, lo) && !InTree(d, Child(d, c, i), h - 1, c);
      assert forall i, j :: 0 <= i < j < NINDIRECT ==> Apart(d, Child(d, c, i), h - 1, Child(d, c, j), h - 1);
    }
  }

  /** All children of `a` but number `i` are the same trees on `d` and `e`. */
  ghost predicate OthersSame(d: Disk, e: Disk, a: int, h: nat, lo: int, i: int)
    requires h > 0
  {
    forall j :: 0 <= j < NINDIRECT && j != i ==>
                  && Child(e, a, j) == Child(d, a, j)
                  && WF(e, Child(e, a, j), h - 1, lo) && SameTree(d, e, Child(d, a, j), h - 1)
  }

  lemma GrowChildBlock(d: Disk, e: Disk, a: int, h: nat, lo: int, added: set<int>, k: int, b: int)
    requires 0 < h <= MAXHEIGHT && a != 0 && 0 <= k < Span(h)
    requires OthersSame(d, e, a, h, lo, Ix(h, k))
    requires Grown(d, Child(d, a, Ix(h, k)), e, Child(e, a, Ix(h, k)), h - 1, added, Rem(h, k))
    requires InTree(e, a, h, b)
    ensures InTree(d, a, h, b) || b in added
  {
    if b != a {
      var j :| 0 <= j < NINDIRECT && InTree(e, Child(e, a, j), h - 1, b);
      assert j != Ix(h, k) ==> InTree(d, Child(d, a, j), h - 1, b);
    }
  }

  lemma KeepChildBlock(d: Disk, e: Disk, a: int, h: nat, lo: int, added: set<int>, k: int, b: int)
    requires 0 < h <= MAXHEIGHT && a != 0 && 0 <= k < Span(h)
    requires OthersSame(d, e, a, h, lo, Ix(h, k))
    requires Grown(d, Child(d, a, Ix(h, k)), e, Child(e, a, Ix(h, k)), h - 1, added, Rem(h, k))
    requires InTree(d, a, h, b) || b in added
    ensures InTree(e, a, h, b)
  {
    if b in added {
      assert InTree(e, Child(e, a, Ix(h, k)), h - 1, b);
    } else if b != a {
      var j :| 0 <= j < NINDIRECT && InTree(d, Child(d, a, j), h - 1, b);
      assert InTree(e, Child(e, a, j), h - 1, b);
    }
  }

  lemma GrowChildInner(d: Disk, e: Disk, a: int, h: nat, lo: int, added: set<int>, k: int, b: int)
    requires 0 < h <= MAXHEIGHT && a != 0 && 0 <= k < Span(h)
    requires OthersSame(d, e, a, h, lo, Ix(h, k))
    requires Grown(d, Child(d, a, Ix(h, k)), e, Child(e, a, Ix(h, k)), h - 1, added, Rem(h, k))
    requires Inner(e, a, h, b)
    ensures Inner(d, a, h, b) || b in added
  {
    if b != a {
      var j :| 0 <= j < NINDIRECT && Inner(e, Child(e, a, j), h - 1, b);
      assert j != Ix(h, k) ==> Inner(d, Child(d, a, j), h - 1, b);
    }
  }

  lemma GrowChildBlocks(d: Disk, e: Disk, a: int, h: nat, lo: int, added: set<int>, k: int)
    requires 0 < h <= MAXHEIGHT && a != 0 && 0 <= k < Span(h)
    requires OthersSame(d, e, a, h, lo, Ix(h, k))
    requires Grown(d, Child(d, a, Ix(h, k)), e, Child(e, a, Ix(h, k)), h - 1, added, Rem(h, k))
    ensures Grown(d, a, e, a, h, added, k)
  {
    forall b ensures InTree(e, a, h, b) <==> InTree(d, a, h, b) || b in added {
      if InTree(e, a, h, b) { GrowChildBlock(d, e, a, h, lo, added, k, b); }
      if InTree(d, a, h, b) || b in added { KeepChildBlock(d, e, a, h, lo, added, k, b); }
    }
    forall b | Inner(e, a, h, b) ensures Inner(d, a, h, b) || b in added {
      GrowChildInner(d, e, a, h, lo, added, k, b);
    }
    forall l | 0 <= l < Span(h) && l != k ensures Look(e, a, h, l) == Look(d, a, h, l) {
      IxRem(h, k, l);
    }
  }

  ghost predicate NewTo(d: Disk, a: int, h: nat, added: set<int>) {
    forall b :: b in added ==> !InTree(d, a, h, b)
  }

  lemma GrowApart(d: Disk, e: Disk, p: int, q: int, q': int, g: nat, added: set<int>, k: int)
    requires g <= MAXHEIGHT && (Apart(d, p, g, q, g) || Apart(d, q, g, p, g))
    requires SameTree(d, e, p, g) && Grown(d, q, e, q', g, added, k) && NewTo(d, p, g, added)
    ensures Apart(e, p, g, q', g) && Apart(e, q', g, p, g)
  {
  }

  lemma ChildrenApart(d: Disk, e: Disk, a: int, h: nat, lo: int, added: set<int>, k: int, j: int, l: int)
    requires 0 < h <= MAXHEIGHT && a != 0 && 0 <= k < Span(h)
    requires |d| == |e| && WF(d, a, h, lo) && NewTo(d, a, h, added)
    requires OthersSame(d, e, a, h, lo, Ix(h, k))
    requires WF(e, Child(e, a, Ix(h, k)), h - 1, lo)
    requires Grown(d, Child(d, a, Ix(h, k)), e, Child(e, a, Ix(h, k)), h - 1, added, Rem(h, k))
    requires 0 <= j < l < NINDIRECT
    ensures Apart(e, Child(e, a, j), h - 1, Child(e, a, l), h - 1)
  {
    var i := Ix(h, k);
    var o := if j == i then l else j;
    assert Apart(d, Child(d, a, j), h - 1, Child(d, a, l), h - 1);
    if j == i || l == i {
      assert NewTo(d, Child(d, a, o), h - 1, added);
      GrowApart(d, e, Child(d, a, o), Child(d, a, i), Child(e, a, i), h - 1, added, Rem(h, k));
    }
  }

  /** One child of `a` grew by blocks new to `a` and the other children did not change:
      `a` is still well-formed and grew by the same blocks. */
  lemma GrowChild(d: Disk, e: Disk, a: int, h: nat, lo: int, added: set<int>, k: int)
    requires 0 < h <= MAXHEIGHT && a != 0 && 0 <= k < Span(h)
    requires |d| == |e| && WF(d, a, h, lo) && NewTo(d, a, h, added)
    requires OthersSame(d, e, a, h, lo, Ix(h, k))
    requires WF(e, Child(e, a, Ix(h, k)), h - 1, lo)
    requires Grown(d, Child(d, a, Ix(h, k)), e, Child(e, a, Ix(h, k)), h - 1, added, Rem(h, k))
    ensures WF(e, a, h, lo) && Grown(d, a, e, a, h, added, k)
  {
    GrowChildBlocks(d, e, a, h, lo, added, k);
    assert InTree(d, a, h, a);
    forall j | 0 <= j < NINDIRECT ensures !InTree(e, Child(e, a, j), h - 1, a) {
      assert j != Ix(h, k) ==> SameTree(d, e, Child(d, a, j), h - 1);
    }
    forall j, l | 0 <= j < l < NINDIRECT ensures Apart(e, Child(e, a, j), h - 1, Child(e, a, l), h - 1) {
      ChildrenApart(d, e, a, h, lo, added, k, j, l);
    }
  }

  /** Outside `added`, only indirect blocks of the tree differ between `d` and `e`. */
  ghost predicate OnlyChanged(d: Disk, e: Disk, a: int, h: nat, added: set<int>) {
    |d| == |e| && forall b :: 0 <= b < |d| && b !in added && !Inner(d, a, h, b) ==> e[b] == d[b]
  }

  /** A child that is changed inside or beside itself leaves its siblings alone. */
  lemma SiblingsInner(d: Disk, e: Disk, a: int, h: nat, lo: int, i: int, added: set<int>)
    requires h > 0 && a != 0 && 0 <= i < NINDIRECT && WF(d, a, h, lo) && |d| == |e|
    requires NewTo(d, a, h, added)
    requires forall b :: 0 <= b < |d| && b != a && b !in added && !Inner(d, Child(d, a, i), h - 1, b) ==> e[b] == d[b]
    ensures forall j :: 0 <= j < NINDIRECT && j != i ==> SameInner(d, e, Child(d, a, j), h - 1)
  {
    forall j | 0 <= j < NINDIRECT && j != i ensures SameInner(d, e, Child(d, a, j), h - 1) {
      var c := Child(d, a, j);
      assert j < i ==> Apart(d, c, h - 1, Child(d, a, i), h - 1);
      assert i < j ==> Apart(d, Child(d, a, i), h - 1, c, h - 1);
      forall b | Inner(d, c, h - 1, b) && 0 <= b < |d| ensures e[b] == d[b] {
        InnerInTree(d, c, h - 1, b);
        assert InTree(d, a, h, b);
        if Inner(d, Child(d, a, i), h - 1, b) { InnerInTree(d, Child(d, a, i), h - 1, b); }
      }
    }
  }

  lemma SiblingsSame(d: Disk, e: Disk, a: int, h: nat, lo: int, i: int, added: set<int>)
    requires h > 0 && a != 0 && 0 <= i < NINDIRECT && WF(d, a, h, lo) && |d| == |e|
    requires NewTo(d, a, h, added)
    requires forall j :: 0 <= j < NINDIRECT && j != i ==> Child(e, a, j) == Child(d, a, j)
    requires forall b :: 0 <= b < |d| && b != a && b !in added && !Inner(d, Child(d, a, i), h - 1, b) ==> e[b] == d[b]
    ensures OthersSame(d, e, a, h, lo, i)
  {
    SiblingsInner(d, e, a, h, lo, i, added);
    forall j | 0 <= j < NINDIRECT && j != i
      ensures WF(e, Child(e, a, j), h - 1, lo) && SameTree(d, e, Child(d, a, j), h - 1)
    {
      Frame(d, e, Child(d, a, j), h - 1, lo);
    }
  }

  /** bmap's step through a child that exists. */
  lemma StepOld(d: Disk, e: Disk, a: int, h: nat, lo: int, added: set<int>, k: int)
    requires 0 < h <= MAXHEIGHT && a != 0 && 0 <= k < Span(h)
    requires 0 < lo && WF(d, a, h, lo) && NewTo(d, a, h, added)
    requires var c := Child(d, a, Ix(h, k));
             && OnlyChanged(d, e, c, h - 1, added)
             && WF(e, c, h - 1, lo) && Grown(d, c, e, c, h - 1, added, Rem(h, k))
    ensures WF(e, a, h, lo) && Grown(d, a, e, a, h, added, k) && OnlyChanged(d, e, a, h, added)
    ensures Look(e, a, h, k) == Look(e, Child(d, a, Ix(h, k)), h - 1, Rem(h, k))
  {
    var i := Ix(h, k);
    var c := Child(d, a, i);
    assert InTree(d, a, h, a);
    assert !Inner(d, c, h - 1, a) by { if Inner(d, c, h - 1, a) { InnerInTree(d, c, h - 1, a); } }
    assert e[a] == d[a];
    SiblingsSame(d, e, a, h, lo, i, added);
    GrowChild(d, e, a, h, lo, added, k);
    assert forall b :: Inner(d, c, h - 1, b) ==> Inner(d, a, h, b);
  }

  /** bmap has just allocated child `c`, and `e` is the disk after the steps below it. */
  ghost predicate JustAdded(d: Disk, d1: Disk, e: Disk, a: int, h: nat, lo: int, c: int, added: set<int>, k: int) {
    && 0 < h <= MAXHEIGHT && a != 0 && 0 <= k < Span(h) && 0 < lo && WF(d, a, h, lo)
    && Child(d, a, Ix(h, k)) == 0 && d[a].Valid()
    && lo <= c < |d| <= WORD_LIMIT && NewTo(d, a, h, {c} + added) && c != a
    && d1 == d[c := Zero()][a := SetWord(d[a], Ix(h, k), c)]
    && OnlyChanged(d1, e, c, h - 1, added)
    && WF(e, c, h - 1, lo) && Grown(d1, c, e, c, h - 1, added, Rem(h, k))
  }

  /** The new child grew from nothing. */
  lemma NewGrown(d: Disk, d1: Disk, e: Disk, a: int, h: nat, lo: int, c: int, added: set<int>, k: int)
    requires JustAdded(d, d1, e, a, h, lo, c, added, k)
    ensures Grown(d, 0, e, c, h - 1, {c} + added, Rem(h, k))
  {
    ZeroTree(d1, c, h - 1, lo);
  }

  /** Only the entry for the new child changed in `a`, and nothing outside the new blocks. */
  lemma NewEntry(d: Disk, d1: Disk, e: Disk, a: int, h: nat, lo: int, c: int, added: set<int>, k: int)
    requires JustAdded(d, d1, e, a, h, lo, c, added, k)
    ensures |e| == |d| && Child(e, a, Ix(h, k)) == c
    ensures forall j :: 0 <= j < NINDIRECT && j != Ix(h, k) ==> Child(e, a, j) == Child(d, a, j)
    ensures forall b :: 0 <= b < |d| && b != a && b !in {c} + added ==> e[b] == d[b]
  {
    ZeroTree(d1, c, h - 1, lo);
    assert InTree(d, a, h, a);
    assert e[a] == d1[a];
  }

  /** bmap's step through a child that it has just allocated as block `c`. */
  lemma StepNew(d: Disk, d1: Disk, e: Disk, a: int, h: nat, lo: int, c: int, added: set<int>, k: int)
    requires JustAdded(d, d1, e, a, h, lo, c, added, k)
    ensures WF(e, a, h, lo) && Grown(d, a, e, a, h, {c} + added, k) && OnlyChanged(d, e, a, h, {c} + added)
    ensures Look(e, a, h, k) == Look(e, c, h - 1, Rem(h, k))
  {
    var all := {c} + added;
    NewGrown(d, d1, e, a, h, lo, c, added, k);
    NewEntry(d, d1, e, a, h, lo, c, added, k);
    SiblingsSame(d, e, a, h, lo, Ix(h, k), all);
    GrowChild(d, e, a, h, lo, all, k);
    assert Inner(d, a, h, a);
  }
}
