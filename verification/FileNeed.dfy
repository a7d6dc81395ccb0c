/** The blocks that a file lacks for a range of its bytes: data blocks and indirect blocks, each
    once however many data blocks hang below it. */
module FileNeed {
  import opened BlockTree
  import opened BlockNeed
  import opened FileIndex

  /** How many blocks are missing on the way to file block `bn`. */
  function MissingAt(d: Disk, a: seq<int>, bn: int): (n: nat)
    ensures n <= MAXHEIGHT + 1
  {
    if |a| == NADDRS && 0 <= bn < MAXBLOCKS then Missing(d, a[Slot(bn)], Height(Slot(bn)), Offset(bn)) else 0
  }

  /** The height at which the ways to two file blocks meet. */
  function MeetAt(bn: int, cn: int): nat
    requires 0 <= bn < MAXBLOCKS && 0 <= cn < MAXBLOCKS
  {
    if Slot(bn) == Slot(cn) then Meet(Height(Slot(bn)), Offset(bn), Offset(cn)) else MAXHEIGHT + 1
  }

  /** A place for a block: the one at height `height` on the way to some file blocks. */
  datatype Spot = Spot(slot: int, height: int, index: int)

  function SpotAt(bn: int, j: int): Spot
    requires 0 <= bn < MAXBLOCKS && 0 <= j <= MAXHEIGHT
  {
    Spot(Slot(bn), j, Offset(bn) / Span(j))
  }

  lemma SpotShared(bn: int, cn: int, j: nat)
    requires 0 <= bn < MAXBLOCKS && 0 <= cn < MAXBLOCKS && j <= Height(Slot(cn))
    ensures SpotAt(bn, j) == SpotAt(cn, j) <==> MeetAt(bn, cn) <= j
  {
    if Slot(bn) == Slot(cn) { MeetIs(Height(Slot(bn)), Offset(bn), Offset(cn), j); }
  }

  /** The lowest `n` places on the way to file block `bn`. */
  ghost function Lowest(bn: int, n: nat): set<Spot>
    requires 0 <= bn < MAXBLOCKS && n <= MAXHEIGHT + 1
  {
    if n == 0 then {} else Lowest(bn, n - 1) + {SpotAt(bn, n - 1)}
  }

  lemma {:induction false} InLowest(bn: int, n: nat, x: Spot)
    requires 0 <= bn < MAXBLOCKS && n <= MAXHEIGHT + 1
    ensures x in Lowest(bn, n) <==> 0 <= x.height < n && x == SpotAt(bn, x.height)
    ensures |Lowest(bn, n)| == n
  {
    if n == 0 {
    } else {
      var j := n - 1;
      InLowest(bn, j, x);
      InLowest(bn, j, SpotAt(bn, j));
      assert Lowest(bn, n) == Lowest(bn, j) + {SpotAt(bn, j)} && SpotAt(bn, j) !in Lowest(bn, j);
    }
  }

  /** The places on the way to file block `bn` that have no block. */
  ghost function Spots(d: Disk, a: seq<int>, bn: int): set<Spot> {
    if 0 <= bn < MAXBLOCKS then Lowest(bn, MissingAt(d, a, bn)) else {}
  }

  lemma SpotsSize(d: Disk, a: seq<int>, bn: int)
    requires 0 <= bn < MAXBLOCKS
    ensures |Spots(d, a, bn)| == MissingAt(d, a, bn)
  {
    InLowest(bn, MissingAt(d, a, bn), SpotAt(bn, 0));
  }

  /** From `d` with addresses `a` to `e` with addresses `b` exactly the places `gone` were filled. */
  ghost predicate Placed(d: Disk, a: seq<int>, e: Disk, b: seq<int>, gone: set<Spot>) {
    forall cn :: 0 <= cn < MAXBLOCKS ==> Spots(e, b, cn) == Spots(d, a, cn) - gone
  }

  /** Exactly the way to file block `bn` was completed. */
  ghost predicate PavedAt(d: Disk, a: seq<int>, e: Disk, b: seq<int>, bn: int)
    requires 0 <= bn < MAXBLOCKS
  {
    forall cn :: 0 <= cn < MAXBLOCKS ==> MissingAt(e, b, cn) == Min(MissingAt(d, a, cn), MeetAt(bn, cn))
  }

  lemma PavedSpot(d: Disk, a: seq<int>, e: Disk, b: seq<int>, bn: int, cn: int, x: Spot)
    requires |a| == NADDRS && 0 <= bn < MAXBLOCKS && 0 <= cn < MAXBLOCKS && PavedAt(d, a, e, b, bn)
    ensures x in Spots(e, b, cn) <==> x in Spots(d, a, cn) && x !in Spots(d, a, bn)
  {
    InLowest(cn, MissingAt(d, a, cn), x);
    InLowest(cn, MissingAt(e, b, cn), x);
    InLowest(bn, MissingAt(d, a, bn), x);
    if x in Spots(d, a, cn) {
      var j := x.height;
      SpotShared(bn, cn, j);
      if MeetAt(bn, cn) <= j { MissingShared(d, a[Slot(bn)], Height(Slot(bn)), Offset(bn), Offset(cn), j); }
    }
  }

  lemma PavedPlaces(d: Disk, a: seq<int>, e: Disk, b: seq<int>, bn: int)
    requires |a| == NADDRS && 0 <= bn < MAXBLOCKS && PavedAt(d, a, e, b, bn)
    ensures Placed(d, a, e, b, Spots(d, a, bn))
  {
    forall cn | 0 <= cn < MAXBLOCKS ensures Spots(e, b, cn) == Spots(d, a, cn) - Spots(d, a, bn) {
      forall x ensures x in Spots(e, b, cn) <==> x in Spots(d, a, cn) - Spots(d, a, bn) {
        PavedSpot(d, a, e, b, bn, cn, x);
      }
    }
  }

  lemma PlacedThen(d: Disk, a: seq<int>, e: Disk, b: seq<int>, f: Disk, c: seq<int>, gone: set<Spot>, more: set<Spot>)
    requires Placed(d, a, e, b, gone) && Placed(e, b, f, c, more)
    ensures Placed(d, a, f, c, gone + more)
  {
    forall cn | 0 <= cn < MAXBLOCKS ensures Spots(f, c, cn) == Spots(d, a, cn) - (gone + more) {
      assert Spots(e, b, cn) == Spots(d, a, cn) - gone;
    }
  }

  /** The places without a block on the ways to file blocks `lo` to `hi`. */
  ghost function Lacking(d: Disk, a: seq<int>, lo: int, hi: int): set<Spot>
    decreases hi - lo
  {
    if lo >= hi then {} else Lacking(d, a, lo, hi - 1) + Spots(d, a, hi - 1)
  }

  lemma LackingNext(d: Disk, a: seq<int>, lo: int, bn: int, hi: int, top: int)
    requires lo <= bn <= hi <= top == bn + 1
    ensures Lacking(d, a, lo, hi) + Spots(d, a, bn) == Lacking(d, a, lo, top)
  {
    if hi == top { assert Spots(d, a, bn) <= Lacking(d, a, lo, hi); }
  }

  /** The next block of a range whose places were filled so far. */
  lemma PlacedNext(d: Disk, a: seq<int>, d1: Disk, a1: seq<int>, lo: int, bn: int, hi: int, top: int)
    requires 0 <= bn < MAXBLOCKS && lo <= bn <= hi <= top == bn + 1 && Placed(d, a, d1, a1, Lacking(d, a, lo, hi))
    ensures var gone, more := Lacking(d, a, lo, hi), Spots(d1, a1, bn);
      gone + more == Lacking(d, a, lo, top) && gone !! more
  {
    LackingNext(d, a, lo, bn, hi, top);
    var gone := Lacking(d, a, lo, hi);
    assert Spots(d1, a1, bn) == Spots(d, a, bn) - gone;
    assert gone + (Spots(d, a, bn) - gone) == gone + Spots(d, a, bn);
  }

  lemma {:induction false} LackingMono(d: Disk, a: seq<int>, lo: int, k: int, hi: int)
    requires k <= hi
    ensures Lacking(d, a, lo, k) <= Lacking(d, a, lo, hi)
    decreases hi - k
  {
    if k < hi { LackingMono(d, a, lo, k, hi - 1); }
  }

  lemma {:induction false} LackingPlaced(d: Disk, a: seq<int>, e: Disk, b: seq<int>, gone: set<Spot>, lo: int, hi: int)
    requires Placed(d, a, e, b, gone) && 0 <= lo && hi <= MAXBLOCKS
    ensures Lacking(e, b, lo, hi) == Lacking(d, a, lo, hi) - gone
    decreases hi - lo
  {
    if lo >= hi {
    } else {
      LackingPlaced(d, a, e, b, gone, lo, hi - 1);
      assert Spots(e, b, hi - 1) == Spots(d, a, hi - 1) - gone;
    }
  }

  /** Two ranges that overlap or touch. */
  lemma {:induction false} LackingJoin(d: Disk, a: seq<int>, lo: int, k: int, mid: int, hi: int)
    requires lo <= k <= mid <= hi
    ensures Lacking(d, a, lo, mid) + Lacking(d, a, k, hi) == Lacking(d, a, lo, hi)
    decreases hi - mid
  {
    if mid == hi {
      LackingSub(d, a, lo, k, hi);
    } else {
      LackingJoin(d, a, lo, k, mid, hi - 1);
    }
  }

  lemma {:induction false} LackingSub(d: Disk, a: seq<int>, lo: int, k: int, hi: int)
    requires lo <= k
    ensures Lacking(d, a, k, hi) <= Lacking(d, a, lo, hi)
    decreases hi - lo
  {
    if k < hi { LackingSub(d, a, lo, k, hi - 1); }
  }
}
