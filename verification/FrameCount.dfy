/** How many frames it takes to add pages to an address space: one for each page, and one for each
    page table that is missing. */
module FrameCount {
  import opened PageTables

  /** The directory entries of the pages `us`. */
  function Entries(us: set<int>): set<int> { set u | u in us :: Pdx(u) }

  /** The frames for the pages `us`, where `has` are the directory entries that are present. */
  function Taken(has: set<int>, us: set<int>): (n: int)
    ensures n >= |us|
  {
    |us| + |Entries(us) - has|
  }

  /** The frames for one page. */
  function Cost(has: set<int>, v: int): int { if Pdx(v) in has then 1 else 2 }

  lemma EntriesNext(us: set<int>, v: int)
    ensures Entries(us + {v}) == Entries(us) + {Pdx(v)}
  {
  }

  /** Page by page, the frames add up. */
  lemma TakenNext(has: set<int>, us: set<int>, v: int)
    requires v !in us
    ensures Taken(has, us + {v}) == Taken(has, us) + Cost(has + Entries(us), v)
  {
    EntriesNext(us, v);
    var was := Entries(us) - has;
    if Pdx(v) in has + Entries(us) {
      assert Entries(us + {v}) - has == was;
    } else {
      assert Entries(us + {v}) - has == was + {Pdx(v)};
    }
  }

  lemma SubsetSize(a: set<int>, b: set<int>)
    requires a <= b
    ensures |a| <= |b|
  {
    assert b == a + (b - a);
    assert |b| == |a| + |b - a|;
  }

  lemma TakenMono(has: set<int>, us: set<int>, vs: set<int>)
    requires us <= vs
    ensures Taken(has, us) <= Taken(has, vs)
  {
    SubsetSize(us, vs);
    SubsetSize(Entries(us) - has, Entries(vs) - has);
  }

  /** `has` and `keys` are the entries before and now, `n0` and `n` the free frames before and now,
      and `us` the pages added in between. */
  ghost predicate Adds(has: set<int>, keys: set<int>, us: set<int>, n0: int, n: int) {
    keys == has + Entries(us) && n + Taken(has, us) == n0
  }

  lemma AddsNone(has: set<int>, n: int)
    ensures Adds(has, has, {}, n, n)
  {
    assert Entries({}) == {} && has + {} == has;
  }

  lemma AddsNext(has: set<int>, keys: set<int>, us: set<int>, n0: int, n: int, v: int)
    requires Adds(has, keys, us, n0, n) && v !in us
    ensures Adds(has, keys + {Pdx(v)}, us + {v}, n0, n - Cost(keys, v))
  {
    EntriesNext(us, v);
    TakenNext(has, us, v);
    assert keys + {Pdx(v)} == has + (Entries(us) + {Pdx(v)});
  }

  /** The free frames do not suffice for one more page: then not for all that are to come. */
  lemma AddsShort(has: set<int>, keys: set<int>, us: set<int>, n0: int, n: int, v: int, all: set<int>)
    requires Adds(has, keys, us, n0, n) && v !in us && us + {v} <= all && n < Cost(keys, v)
    ensures n0 < Taken(has, all)
  {
    TakenNext(has, us, v);
    TakenMono(has, us + {v}, all);
  }

  /** The pages of a list. */
  function PagesOf(ps: seq<int>): set<int> { set u | u in ps }

  lemma PagesOfNext(ps: seq<int>, k: int)
    requires 0 <= k < |ps|
    ensures PagesOf(ps[..k + 1]) == PagesOf(ps[..k]) + {ps[k]}
  {
    assert ps[..k + 1] == ps[..k] + [ps[k]];
  }

  lemma PagesOfMono(ps: seq<int>, j: int, k: int)
    requires 0 <= j <= k <= |ps|
    ensures PagesOf(ps[..j]) <= PagesOf(ps[..k])
  {
    assert ps[..j] == ps[..k][..j];
  }

  /** Pages `lo` to `hi`, in order. */
  function List(lo: int, hi: int): (ps: seq<int>)
    requires lo <= hi
    ensures |ps| == hi - lo && forall i :: 0 <= i < |ps| ==> ps[i] == lo + i
  {
    seq(hi - lo, i => lo + i)
  }

  function Run(lo: int, hi: int): set<int>
    requires lo <= hi
  {
    PagesOf(List(lo, hi))
  }

  lemma InRun(lo: int, hi: int, u: int)
    requires lo <= hi
    ensures u in Run(lo, hi) <==> lo <= u < hi
  {
    if lo <= u < hi { assert List(lo, hi)[u - lo] == u; }
  }

  lemma RunNext(lo: int, v: int)
    requires lo <= v
    ensures Run(lo, v + 1) == Run(lo, v) + {v} && v !in Run(lo, v)
  {
    var w := v + 1;
    forall u ensures u in Run(lo, w) <==> u in Run(lo, v) || u == v {
      InRun(lo, w, u);
      InRun(lo, v, u);
    }
    InRun(lo, v, v);
  }

  lemma {:induction false} RunSize(lo: int, hi: int)
    requires lo <= hi
    ensures |Run(lo, hi)| == hi - lo
    decreases hi - lo
  {
    if lo == hi {
      assert Run(lo, hi) == {};
    } else {
      RunNext(lo, hi - 1);
      RunSize(lo, hi - 1);
    }
  }

  lemma RunMono(lo: int, k: int, hi: int)
    requires lo <= k <= hi
    ensures Run(lo, k) <= Run(lo, hi)
  {
    forall u | u in Run(lo, k) ensures u in Run(lo, hi) {
      InRun(lo, k, u);
      InRun(lo, hi, u);
    }
  }

  lemma RunShort(has: set<int>, keys: set<int>, lo: int, v: int, top: int, n0: int, n: int)
    requires lo <= v < top && Adds(has, keys, Run(lo, v), n0, n) && n < Cost(keys, v)
    ensures n0 < Taken(has, Run(lo, top))
  {
    RunNext(lo, v);
    RunMono(lo, v + 1, top);
    AddsShort(has, keys, Run(lo, v), n0, n, v, Run(lo, top));
  }

  lemma RunEnough(has: set<int>, keys: set<int>, lo: int, v: int, n0: int, n: int)
    requires lo <= v && Adds(has, keys, Run(lo, v), n0, n) && n >= Cost(keys, v)
    ensures n0 >= Taken(has, Run(lo, v + 1))
  {
    RunNext(lo, v);
    AddsNext(has, keys, Run(lo, v), n0, n, v);
  }
}
