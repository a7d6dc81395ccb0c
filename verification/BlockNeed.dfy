/** How many blocks bmap has to allocate: those missing on the way down to a data block, and for
    several data blocks those missing on any of the ways, each once. */
module BlockNeed {
  import opened BlockTree

  function Min(x: int, y: int): int { if x < y then x else y }

  /** How many blocks are missing on the way to index `k` of the tree; they are the lowest ones. */
  function Missing(d: Disk, a: int, h: nat, k: int): (n: nat)
    requires h <= MAXHEIGHT && 0 <= k < Span(h)
    ensures n <= h + 1
    decreases h
  {
    if a == 0 then h + 1
    else if h == 0 then 0
    else Missing(d, Child(d, a, Ix(h, k)), h - 1, Rem(h, k))
  }

  lemma {:induction false} MissingLook(d: Disk, a: int, h: nat, k: int)
    requires h <= MAXHEIGHT && 0 <= k < Span(h)
    ensures Missing(d, a, h, k) == 0 <==> Look(d, a, h, k) != 0
    decreases h
  {
    if a != 0 && h != 0 { MissingLook(d, Child(d, a, Ix(h, k)), h - 1, Rem(h, k)); }
  }

  /** The height at which the ways to indexes `k` and `l` meet. */
  function Meet(h: nat, k: int, l: int): (j: nat)
    requires h <= MAXHEIGHT && 0 <= k < Span(h) && 0 <= l < Span(h)
    ensures j <= h
    decreases h
  {
    if h == 0 then 0
    else if Ix(h, k) != Ix(h, l) then h
    else Meet(h - 1, Rem(h, k), Rem(h, l))
  }

  /** They are the same from there up. */
  lemma {:induction false} MeetIs(h: nat, k: int, l: int, j: nat)
    requires j <= h <= MAXHEIGHT && 0 <= k < Span(h) && 0 <= l < Span(h)
    ensures k / Span(j) == l / Span(j) <==> Meet(h, k, l) <= j
    decreases h
  {
    if h == 0 {
    } else if j == h {
      assert k / Span(j) == 0 && l / Span(j) == 0;
    } else {
      IxRemAt(h, k, l, j);
      MeetIs(h - 1, Rem(h, k), Rem(h, l), j);
    }
  }

  lemma IxRemAt(h: nat, k: int, l: int, j: nat)
    requires j < h <= MAXHEIGHT && 0 <= k < Span(h) && 0 <= l < Span(h)
    ensures k / Span(j) == l / Span(j) <==> Ix(h, k) == Ix(h, l) && Rem(h, k) / Span(j) == Rem(h, l) / Span(j)
  {
    IxRemSplit(h, k, j);
    IxRemSplit(h, l, j);
    Digits(Span(h - 1 - j), Ix(h, k), Rem(h, k) / Span(j), Ix(h, l), Rem(h, l) / Span(j));
  }

  lemma IxRemSplit(h: nat, k: int, j: nat)
    requires j < h <= MAXHEIGHT && 0 <= k < Span(h)
    ensures k / Span(j) == Span(h - 1 - j) * Ix(h, k) + Rem(h, k) / Span(j)
    ensures 0 <= Rem(h, k) / Span(j) < Span(h - 1 - j)
  {
    if h == 1 {
    } else if h == 2 {
      if j == 0 { }
    } else {
      if j == 0 { } else if j == 1 { }
    }
  }

  lemma Digits(b: int, x: int, y: int, u: int, v: int)
    requires 0 <= y < b && 0 <= v < b
    ensures b * x + y == b * u + v <==> x == u && y == v
  {
    if x < u { assert b * x + b == b * (x + 1) <= b * u; }
    if u < x { assert b * u + b == b * (u + 1) <= b * x; }
  }

  /** A block on the way to both is missing on both or on neither. */
  lemma {:induction false} MissingShared(d: Disk, a: int, h: nat, k: int, l: int, j: nat)
    requires h <= MAXHEIGHT && 0 <= k < Span(h) && 0 <= l < Span(h) && Meet(h, k, l) <= j <= h
    ensures j < Missing(d, a, h, k) <==> j < Missing(d, a, h, l)
    decreases h
  {
    if a != 0 && h != 0 && Ix(h, k) == Ix(h, l) && j < h {
      MissingShared(d, Child(d, a, Ix(h, k)), h - 1, Rem(h, k), Rem(h, l), j);
    }
  }

  lemma {:induction false} MissingSame(d: Disk, e: Disk, a: int, h: nat, k: int)
    requires h <= MAXHEIGHT && 0 <= k < Span(h) && SameInner(d, e, a, h)
    ensures Missing(e, a, h, k) == Missing(d, a, h, k)
    decreases h
  {
    if a != 0 && h != 0 {
      assert Inner(d, a, h, a);
      var c := Child(d, a, Ix(h, k));
      assert Child(e, a, Ix(h, k)) == c;
      assert SameInner(d, e, c, h - 1);
      MissingSame(d, e, c, h - 1, Rem(h, k));
    }
  }

  /** From tree `a` on `d` to tree `c` on `e` exactly the way to index `k` has been completed. */
  ghost predicate Paved(d: Disk, a: int, e: Disk, c: int, h: nat, k: int)
    requires h <= MAXHEIGHT && 0 <= k < Span(h)
  {
    forall l :: 0 <= l < Span(h) ==> Missing(e, c, h, l) == Min(Missing(d, a, h, l), Meet(h, k, l))
  }

  lemma PavedNone(d: Disk, a: int)
    requires a != 0
    ensures Paved(d, a, d, a, 0, 0)
  {
  }

  /** A new, empty block, and the way that was then completed below it. */
  lemma PavedNew(d: Disk, d1: Disk, e: Disk, c: int, h: nat, k: int)
    requires h <= MAXHEIGHT && 0 <= k < Span(h) && c != 0 && Paved(d1, c, e, c, h, k)
    requires forall i :: 0 <= i < NINDIRECT ==> Child(d1, c, i) == 0
    ensures Paved(d, 0, e, c, h, k) && Missing(d1, c, h, k) == h
  {
    forall l | 0 <= l < Span(h) ensures Missing(d1, c, h, l) == h { }
  }

  /** The way through a child, and the other children as they were. */
  lemma PavedUp(d: Disk, e: Disk, a: int, h: nat, k: int)
    requires 0 < h <= MAXHEIGHT && 0 <= k < Span(h) && a != 0
    requires Paved(d, Child(d, a, Ix(h, k)), e, Child(e, a, Ix(h, k)), h - 1, Rem(h, k))
    requires forall j :: 0 <= j < NINDIRECT && j != Ix(h, k) ==> Child(e, a, j) == Child(d, a, j)
    requires forall j :: 0 <= j < NINDIRECT && j != Ix(h, k) ==> SameInner(d, e, Child(d, a, j), h - 1)
    ensures Paved(d, a, e, a, h, k)
  {
    forall l | 0 <= l < Span(h) ensures Missing(e, a, h, l) == Min(Missing(d, a, h, l), Meet(h, k, l)) {
      var j := Ix(h, l);
      if j != Ix(h, k) { MissingSame(d, e, Child(d, a, j), h - 1, Rem(h, l)); }
    }
  }
}
