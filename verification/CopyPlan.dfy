/** What copyuvm is to copy: the pages of the process image and of the threads' stacks, in the order
    in which it visits them, and how many frames that takes. */
module CopyPlan {
  import opened PageTables
  import opened FrameCount

  /** Pages `lo` to `hi`. */
  datatype Range = Range(lo: int, hi: int)

  ghost predicate InRanges(rs: seq<Range>, u: int) {
    exists i :: 0 <= i < |rs| && rs[i].lo <= u < rs[i].hi
  }

  function RangeList(rg: Range): seq<int> { if rg.lo <= rg.hi then List(rg.lo, rg.hi) else [] }

  lemma InRangeList(rg: Range, u: int)
    ensures u in RangeList(rg) <==> rg.lo <= u < rg.hi
  {
    if rg.lo <= u < rg.hi { assert RangeList(rg)[u - rg.lo] == u; }
  }

  /** The pages of the ranges. */
  ghost function Listed(rs: seq<Range>): seq<int> {
    if rs == [] then [] else Listed(rs[..|rs| - 1]) + RangeList(rs[|rs| - 1])
  }

  lemma InRangesLast(rs: seq<Range>, u: int)
    requires rs != []
    ensures var n := |rs| - 1; InRanges(rs, u) <==> InRanges(rs[..n], u) || rs[n].lo <= u < rs[n].hi
  {
    var n := |rs| - 1;
    if k :| 0 <= k < n && rs[..n][k].lo <= u < rs[..n][k].hi { assert rs[k] == rs[..n][k]; }
    if k :| 0 <= k < |rs| && rs[k].lo <= u < rs[k].hi { assert k < n ==> rs[..n][k] == rs[k]; }
  }

  lemma {:induction false} InListed(rs: seq<Range>, u: int)
    ensures u in Listed(rs) <==> InRanges(rs, u)
  {
    if rs == [] {
    } else {
      InListed(rs[..|rs| - 1], u);
      InRangesLast(rs, u);
      InRangeList(rs[|rs| - 1], u);
    }
  }

  /** From place `k` of the list on come the pages of `rg`. */
  ghost predicate At(ps: seq<int>, k: int, rg: Range) {
    0 <= k <= k + rg.hi - rg.lo <= |ps| && forall j :: k <= j < k + rg.hi - rg.lo ==> ps[j] == rg.lo + j - k
  }

  /** Where the i-th range is in the list. */
  lemma {:induction false} ListedAt(rs: seq<Range>, i: int)
    requires 0 <= i < |rs|
    ensures Listed(rs[..i]) + RangeList(rs[i]) <= Listed(rs)
    ensures Listed(rs[..i + 1]) == Listed(rs[..i]) + RangeList(rs[i])
  {
    assert rs[..i + 1][..i] == rs[..i];
    if i == |rs| - 1 {
      assert rs[..i + 1] == rs;
    } else {
      var n := |rs| - 1;
      ListedAt(rs[..n], i);
      assert rs[..n][..i] == rs[..i] && rs[..n][i] == rs[i];
    }
  }

  lemma RangeAt(rs: seq<Range>, i: int)
    requires 0 <= i < |rs| && rs[i].lo <= rs[i].hi
    ensures var k := |Listed(rs[..i])|; At(Listed(rs), k, rs[i]) && |Listed(rs[..i + 1])| == k + rs[i].hi - rs[i].lo
  {
    ListedAt(rs, i);
    var ps, qs, k := Listed(rs), RangeList(rs[i]), |Listed(rs[..i])|;
    var all := Listed(rs[..i]) + qs;
    assert forall j :: k <= j < k + |qs| ==> all[j] == qs[j - k];
    assert forall j :: 0 <= j < |all| ==> ps[j] == all[j];
  }

  /** The pages are user pages. */
  ghost predicate UserList(ps: seq<int>) { forall i :: 0 <= i < |ps| ==> 0 <= ps[i] < KERNPAGES }

  lemma ListedUser(rs: seq<Range>)
    requires forall i :: 0 <= i < |rs| ==> 0 <= rs[i].lo <= rs[i].hi <= KERNPAGES
    ensures UserList(Listed(rs))
  {
    var ps := Listed(rs);
    forall i | 0 <= i < |ps| ensures 0 <= ps[i] < KERNPAGES { InListed(rs, ps[i]); }
  }

  /** The k-th page of the list is not mapped in `d`, or was listed before: a panic. */
  ghost predicate Bad(m: Mem, d: int, ps: seq<int>, k: int)
    requires d in m.dirs && 0 <= k < |ps|
  {
    Look(m, d, ps[k]) == None || ps[k] in ps[..k]
  }

  ghost predicate NoneBad(m: Mem, d: int, ps: seq<int>, k: int)
    requires d in m.dirs && k <= |ps|
  {
    forall j :: 0 <= j < k ==> !Bad(m, d, ps, j)
  }

  ghost function FirstBad(m: Mem, d: int, ps: seq<int>, k: int): (r: int)
    requires d in m.dirs && 0 <= k <= |ps| && NoneBad(m, d, ps, k)
    ensures k <= r <= |ps| && NoneBad(m, d, ps, r) && (r < |ps| ==> Bad(m, d, ps, r))
    decreases |ps| - k
  {
    if k == |ps| || Bad(m, d, ps, k) then k else FirstBad(m, d, ps, k + 1)
  }

  lemma FirstBadIs(m: Mem, d: int, ps: seq<int>, k: int)
    requires d in m.dirs && 0 <= k <= |ps| && NoneBad(m, d, ps, k)
    ensures k <= FirstBad(m, d, ps, 0) && (k < |ps| && Bad(m, d, ps, k) ==> FirstBad(m, d, ps, 0) == k)
  {
    var j := FirstBad(m, d, ps, 0);
    if k < j { assert !Bad(m, d, ps, k); }
  }

  /** All pages of the ranges are mapped, and none is listed twice. */
  ghost predicate AllThere(m: Mem, d: int, rs: seq<Range>) {
    d in m.dirs && NoneBad(m, d, Listed(rs), |Listed(rs)|)
  }

  /** The frames that copying the pages `ps` of `d` takes, where `has` are the directory entries of
      the copy; or getting to the first bad page. That is seen before a frame is taken for it if it
      is not mapped, and after if it was copied before. */
  ghost function CopyNeed(m: Mem, d: int, ps: seq<int>, has: set<int>): int
    requires d in m.dirs
  {
    var k := FirstBad(m, d, ps, 0);
    Taken(has, PagesOf(ps[..k])) + if k < |ps| && Look(m, d, ps[k]).Some? then 1 else 0
  }

  /** With nothing bad: a frame for each page, and one for each page table they are in. */
  lemma CopyNeedIs(m: Mem, d: int, rs: seq<Range>)
    requires AllThere(m, d, rs)
    ensures var us := PagesOf(Listed(rs)); CopyNeed(m, d, Listed(rs), {}) == |us| + |Entries(us)|
  {
    var ps := Listed(rs);
    FirstBadIs(m, d, ps, |ps|);
    assert ps[..|ps|] == ps;
    assert Entries(PagesOf(ps)) - {} == Entries(PagesOf(ps));
  }

  /** `us` are the first `k` pages, and none of them is bad. */
  ghost predicate Visited(m: Mem, d: int, ps: seq<int>, k: int, us: set<int>) {
    0 <= k <= |ps| && d in m.dirs && NoneBad(m, d, ps, k) && us == PagesOf(ps[..k])
  }

  lemma VisitedNext(m: Mem, d: int, ps: seq<int>, k: int, us: set<int>, us1: set<int>)
    requires Visited(m, d, ps, k, us) && k < |ps| && Look(m, d, ps[k]).Some? && ps[k] !in us && us1 == us + {ps[k]}
    ensures Visited(m, d, ps, k + 1, us1)
  {
    PagesOfNext(ps, k);
    assert ps[k] !in ps[..k];
    assert !Bad(m, d, ps, k);
  }

  lemma VisitedUser(m: Mem, d: int, ps: seq<int>, k: int, us: set<int>)
    requires Visited(m, d, ps, k, us) && UserList(ps)
    ensures forall u :: u in us ==> 0 <= u < KERNPAGES
  {
  }

  /** Too few frames for the k-th page. */
  lemma VisitedShort(m: Mem, d: int, ps: seq<int>, k: int, us: set<int>, has: set<int>, keys: set<int>, n0: int, n: int)
    requires Visited(m, d, ps, k, us) && k < |ps| && Look(m, d, ps[k]).Some? && Adds(has, keys, us, n0, n)
    requires n < if ps[k] in us then 1 else Cost(keys, ps[k])
    ensures n0 < CopyNeed(m, d, ps, has)
  {
    FirstBadIs(m, d, ps, k);
    if ps[k] in us {
      assert Bad(m, d, ps, k);
    } else {
      var j := FirstBad(m, d, ps, 0);
      assert ps[k] !in ps[..k];
      assert !Bad(m, d, ps, k);
      PagesOfNext(ps, k);
      PagesOfMono(ps, k + 1, j);
      AddsShort(has, keys, us, n0, n, ps[k], PagesOf(ps[..j]));
    }
  }

  /** The k-th page is bad, and there were enough frames to see it. */
  lemma VisitedBad(m: Mem, d: int, ps: seq<int>, k: int, us: set<int>, has: set<int>, keys: set<int>, n0: int, n: int)
    requires Visited(m, d, ps, k, us) && k < |ps| && Adds(has, keys, us, n0, n) && n >= 0
    requires Look(m, d, ps[k]) == None || (ps[k] in us && n > 0)
    ensures !NoneBad(m, d, ps, |ps|) && n0 >= CopyNeed(m, d, ps, has)
  {
    assert Bad(m, d, ps, k);
    FirstBadIs(m, d, ps, k);
  }

  lemma VisitedAll(m: Mem, d: int, ps: seq<int>, us: set<int>, has: set<int>, keys: set<int>, n0: int, n: int)
    requires Visited(m, d, ps, |ps|, us) && Adds(has, keys, us, n0, n) && n >= 0
    ensures us == PagesOf(ps) && NoneBad(m, d, ps, |ps|) && n0 >= CopyNeed(m, d, ps, has)
  {
    FirstBadIs(m, d, ps, |ps|);
    assert ps[..|ps|] == ps;
  }

  /** Bad pages are the same where the mappings are. */
  lemma SameBad(m0: Mem, m1: Mem, d: int, ps: seq<int>)
    requires d in m0.dirs && d in m1.dirs && forall u :: SameLook(m0, m1, d, u)
    ensures FirstBad(m1, d, ps, 0) == FirstBad(m0, d, ps, 0)
    ensures NoneBad(m0, d, ps, |ps|) <==> NoneBad(m1, d, ps, |ps|)
  {
    forall k | 0 <= k < |ps| ensures Bad(m0, d, ps, k) <==> Bad(m1, d, ps, k) { assert SameLook(m0, m1, d, ps[k]); }
    FirstBadIs(m1, d, ps, FirstBad(m0, d, ps, 0));
    FirstBadIs(m0, d, ps, FirstBad(m1, d, ps, 0));
  }

  /** Directory entries for other pages are of no help. */
  lemma CopyNeedSame(m0: Mem, m1: Mem, d: int, ps: seq<int>, has: set<int>)
    requires d in m0.dirs && d in m1.dirs && forall u :: SameLook(m0, m1, d, u)
    requires forall i :: 0 <= i < |ps| ==> Pdx(ps[i]) !in has
    ensures CopyNeed(m1, d, ps, has) == CopyNeed(m0, d, ps, {})
  {
    SameBad(m0, m1, d, ps);
    var k := FirstBad(m0, d, ps, 0);
    assert k < |ps| ==> SameLook(m0, m1, d, ps[k]);
    var us := PagesOf(ps[..k]);
    assert Entries(us) - has == Entries(us) - {};
  }
}
