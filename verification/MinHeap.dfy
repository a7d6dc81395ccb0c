/** pushheap and popheap of proc.c: an array min-heap, indexed from 1, of processes
    whose keys (the pass of their main threads) live elsewhere. */
module MinHeap {
  type Keys = map<int, int>

  /** Entries `1..n` of `h` are processes with a key. */
  predicate Keyed(h: seq<int>, n: int, key: Keys) {
    0 <= n < |h| && forall i :: 1 <= i <= n ==> h[i] in key
  }

  /** The entry at `k` is no greater than its children, leaving child `x` out of account. */
  predicate Above(h: seq<int>, n: int, key: Keys, k: int, x: int)
    requires Keyed(h, n, key) && 1 <= k <= n
  {
    && (2 * k <= n && 2 * k != x ==> key[h[k]] <= key[h[2 * k]])
    && (2 * k + 1 <= n && 2 * k + 1 != x ==> key[h[k]] <= key[h[2 * k + 1]])
  }

  ghost predicate Heap(h: seq<int>, n: int, key: Keys) {
    Keyed(h, n, key) && forall k :: 1 <= k <= n ==> Above(h, n, key, k, 0)
  }

  ghost function Entries(h: seq<int>, n: int): multiset<int>
    requires 0 <= n < |h|
  {
    multiset(h[1..n + 1])
  }

  lemma {:induction false} RootIsLeast(h: seq<int>, n: int, key: Keys, j: int)
    requires Heap(h, n, key) && 1 <= j <= n
    ensures key[h[1]] <= key[h[j]]
    decreases j
  {
    if j > 1 {
      assert Above(h, n, key, j / 2, 0);
      RootIsLeast(h, n, key, j / 2);
    }
  }

  lemma SwapEntries(h: seq<int>, n: int, i: int, k: int)
    requires 0 <= n < |h| && 1 <= i <= n && 1 <= k <= n
    ensures Entries(h[i := h[k]][k := h[i]], n) == Entries(h, n)
  {
    var a, b := h[1..n + 1], h[i := h[k]][k := h[i]][1..n + 1];
    assert b == a[i - 1 := a[k - 1]][k - 1 := a[i - 1]];
  }

  // ---------- pushheap ----------

  /** A heap but for the entry at `i`, which may be smaller than its parent; its children are
      no smaller than that parent. */
  ghost predicate UpHeap(h: seq<int>, n: int, key: Keys, i: int) {
    && Keyed(h, n, key) && 1 <= i <= n
    && (forall k :: 1 <= k <= n ==> Above(h, n, key, k, i))
    && (i > 1 && 2 * i <= n ==> key[h[i / 2]] <= key[h[2 * i]])
    && (i > 1 && 2 * i + 1 <= n ==> key[h[i / 2]] <= key[h[2 * i + 1]])
  }

  lemma UpStep(h: seq<int>, n: int, key: Keys, i: int)
    requires UpHeap(h, n, key, i) && i > 1 && key[h[i]] < key[h[i / 2]]
    ensures UpHeap(h[i := h[i / 2]][i / 2 := h[i]], n, key, i / 2)
    ensures Entries(h[i := h[i / 2]][i / 2 := h[i]], n) == Entries(h, n)
  {
    var k := i / 2;
    var g := h[i := h[k]][k := h[i]];
    SwapEntries(h, n, i, k);
    assert Above(h, n, key, k, i) && Above(h, n, key, i, i);
    assert k > 1 ==> Above(h, n, key, k / 2, i);
    forall l | 1 <= l <= n ensures Above(g, n, key, l, k) {
      assert Above(h, n, key, l, i);
    }
  }

  lemma PushStart(h: seq<int>, n: int, key: Keys, p: int)
    requires Heap(h, n, key) && n + 1 < |h| && p in key
    ensures UpHeap(h[n + 1 := p], n + 1, key, n + 1)
    ensures Entries(h[n + 1 := p], n + 1) == Entries(h, n) + multiset{p}
  {
    var v, m := h[n + 1 := p], n + 1;
    assert v[1..n + 2] == h[1..n + 1] + [p];
    forall k | 1 <= k <= m ensures Above(v, m, key, k, m) {
      assert k <= n ==> Above(h, n, key, k, 0);
    }
  }

  lemma PushDone(h: seq<int>, n: int, key: Keys, i: int)
    requires UpHeap(h, n, key, i) && (i == 1 || key[h[i / 2]] <= key[h[i]])
    ensures Heap(h, n, key)
  {
    forall k | 1 <= k <= n ensures Above(h, n, key, k, 0) { assert Above(h, n, key, k, i); }
  }

  /** `v` is the array with `p` in the hole at `i`. */
  ghost predicate HoleAt(a: array<int>, v: seq<int>, i: int, p: int)
    reads a
  {
    |v| == a.Length && 0 <= i < |v| && v[i] == p && forall j :: 0 <= j < |v| && j != i ==> v[j] == a[j]
  }

  method PushHeap(a: array<int>, n: int, key: Keys, p: int)
    requires Heap(a[..], n, key) && n + 1 < a.Length && p in key
    modifies a
    ensures Heap(a[..], n + 1, key)
    ensures Entries(a[..], n + 1) == old(Entries(a[..], n)) + multiset{p}
  {
    PushStart(a[..], n, key, p);
    Rise(a, n + 1, key, p);
  }

  /** pushheap's loop: `p` rises from the end to its place. */
  method Rise(a: array<int>, n: int, key: Keys, p: int)
    requires 0 < n < a.Length && UpHeap(a[..][n := p], n, key, n)
    modifies a
    ensures Heap(a[..], n, key)
    ensures Entries(a[..], n) == Entries(old(a[..])[n := p], n)
  {
    var i := n;
    ghost var v0 := a[..][n := p];
    ghost var v := v0;
    ParentKept(a, v, n, key, i, p);
    while i != 1 && key[p] < key[a[i / 2]]
      invariant HoleAt(a, v, i, p) && UpHeap(v, n, key, i) && Parent(a, v, key, i)
      invariant Entries(v, n) == Entries(v0, n)
      decreases i
    {
      i, v := SiftUp(a, n, key, p, i, v);
    }
    PushDone(v, n, key, i);
    a[i] := p;
    assert a[..] == v;
  }

  /** The parent of the hole at `i` is the one of `v`. */
  ghost predicate Parent(a: array<int>, v: seq<int>, key: Keys, i: int)
    reads a
  {
    i > 1 ==> i / 2 < a.Length && i / 2 < |v| && a[i / 2] == v[i / 2] && v[i / 2] in key
  }

  lemma ParentKept(a: array<int>, v: seq<int>, n: int, key: Keys, i: int, p: int)
    requires HoleAt(a, v, i, p) && UpHeap(v, n, key, i)
    ensures Parent(a, v, key, i)
  {
  }

  /** One turn of pushheap's loop: the parent moves down into the hole. */
  method SiftUp(a: array<int>, n: int, key: Keys, p: int, i: int, ghost v: seq<int>) returns (c: int, ghost w: seq<int>)
    requires HoleAt(a, v, i, p) && UpHeap(v, n, key, i) && i > 1 && key[p] < key[v[i / 2]]
    modifies a
    ensures 1 <= c < i && HoleAt(a, w, c, p) && UpHeap(w, n, key, c) && Parent(a, w, key, c)
    ensures Entries(w, n) == Entries(v, n)
  {
    UpStep(v, n, key, i);
    c := i / 2;
    w := v[i := v[c]][c := v[i]];
    Shift(a, v, i, c, p);
    ParentKept(a, w, n, key, c, p);
  }

  // ---------- popheap ----------

  /** A heap but for the entry at `i`, which may be greater than its children; those are no
      smaller than its parent. */
  ghost predicate DownHeap(h: seq<int>, n: int, key: Keys, i: int) {
    && Keyed(h, n, key) && 1 <= i <= n
    && (forall k :: 1 <= k <= n && k != i ==> Above(h, n, key, k, 0))
    && (i > 1 && 2 * i <= n ==> key[h[i / 2]] <= key[h[2 * i]])
    && (i > 1 && 2 * i + 1 <= n ==> key[h[i / 2]] <= key[h[2 * i + 1]])
  }

  /** The child of `i` that popheap compares with: the lesser of the two. */
  function Lesser(h: seq<int>, n: int, key: Keys, i: int): int
    requires Keyed(h, n, key) && 1 <= i && 2 * i <= n
  {
    if 2 * i < n && key[h[2 * i]] > key[h[2 * i + 1]] then 2 * i + 1 else 2 * i
  }

  lemma DownStep(h: seq<int>, n: int, key: Keys, i: int)
    requires DownHeap(h, n, key, i) && 2 * i <= n
    requires var c := Lesser(h, n, key, i); key[h[c]] < key[h[i]]
    ensures var c := Lesser(h, n, key, i); DownHeap(h[i := h[c]][c := h[i]], n, key, c)
    ensures var c := Lesser(h, n, key, i); Entries(h[i := h[c]][c := h[i]], n) == Entries(h, n)
  {
    var c := Lesser(h, n, key, i);
    var g := h[i := h[c]][c := h[i]];
    SwapEntries(h, n, i, c);
    assert Above(h, n, key, c, 0) && c / 2 == i;
    assert i > 1 ==> Above(h, n, key, i / 2, 0);
    forall k | 1 <= k <= n && k != c ensures Above(g, n, key, k, 0) {
      assert k != i ==> Above(h, n, key, k, 0);
    }
  }

  lemma PopMinimum(h: seq<int>, n: int, key: Keys)
    requires Heap(h, n, key) && n > 0
    ensures forall p :: p in Entries(h, n) ==> p in key && key[h[1]] <= key[p]
  {
    forall p | p in Entries(h, n) ensures p in key && key[h[1]] <= key[p] {
      var j :| 0 <= j < n && h[1..n + 1][j] == p;
      RootIsLeast(h, n, key, j + 1);
    }
  }

  lemma PopEntries(h: seq<int>, n: int)
    requires 0 < n < |h|
    ensures Entries(h, n) == Entries(h[1 := h[n]], n - 1) + multiset{h[1]}
  {
    var g := h[1 := h[n]];
    if n == 1 {
      assert h[1..2] == [h[1]] && g[1..1] == [];
    } else {
      assert h[1..n + 1] == [h[1]] + h[2..n] + [h[n]];
      assert g[1..n] == [h[n]] + h[2..n];
    }
  }

  lemma PopStart(h: seq<int>, n: int, key: Keys)
    requires Heap(h, n, key) && n > 1
    ensures DownHeap(h[1 := h[n]], n - 1, key, 1)
  {
    var v, m := h[1 := h[n]], n - 1;
    forall k | 1 < k <= m ensures Above(v, m, key, k, 0) { assert Above(h, n, key, k, 0); }
  }

  lemma PopDone(h: seq<int>, n: int, key: Keys, i: int)
    requires DownHeap(h, n, key, i) && (2 * i <= n ==> key[h[i]] <= key[h[Lesser(h, n, key, i)]])
    ensures Heap(h, n, key)
  {
    assert Above(h, n, key, i, 0);
  }

  /** The entry at `c` moves into the hole, which moves to `c`. */
  method Shift(a: array<int>, ghost v: seq<int>, i: int, c: int, ghost p: int)
    requires HoleAt(a, v, i, p) && 0 <= c < a.Length && c != i
    modifies a
    ensures HoleAt(a, v[i := v[c]][c := v[i]], c, p)
  {
    a[i] := a[c];
  }

  /** One turn of popheap's loop: the lesser child moves up, or `last` has found its place and
      `c` is 0. */
  method SiftOne(a: array<int>, size: int, key: Keys, last: int, parent: int, ghost v: seq<int>)
    returns (c: int, ghost w: seq<int>)
    requires HoleAt(a, v, parent, last) && DownHeap(v, size, key, parent) && 2 * parent <= size
    modifies a
    ensures c == 0 ==> HoleAt(a, v, parent, last) && Heap(v, size, key)
    ensures c != 0 ==> parent < c && HoleAt(a, w, c, last) && DownHeap(w, size, key, c)
    ensures c != 0 ==> Entries(w, size) == Entries(v, size)
  {
    var child := 2 * parent;
    assert a[child] == v[child] && (child < size ==> a[child + 1] == v[child + 1]);
    c := child;
    w := v;
    if child < size && key[a[child]] > key[a[child + 1]] {
      c := child + 1;
    }
    assert c == Lesser(v, size, key, parent);
    if key[last] <= key[a[c]] {
      PopDone(v, size, key, parent);
      c := 0;
    } else {
      DownStep(v, size, key, parent);
      Shift(a, v, parent, c, last);
      w := v[parent := v[c]][c := v[parent]];
    }
  }

  /** popheap's loop: `last` sinks from the root to its place among the remaining entries. */
  method SiftDown(a: array<int>, size: int, key: Keys, last: int)
    requires 0 < size < a.Length && DownHeap(a[..][1 := last], size, key, 1)
    modifies a
    ensures Heap(a[..], size, key)
    ensures Entries(a[..], size) == Entries(old(a[..])[1 := last], size)
  {
    var parent := 1;
    ghost var v0 := a[..][1 := last];
    ghost var v := v0;
    while 2 * parent <= size
      invariant 1 <= parent <= size && HoleAt(a, v, parent, last) && DownHeap(v, size, key, parent)
      invariant Entries(v, size) == Entries(v0, size)
      decreases size - parent
    {
      var c;
      ghost var w;
      c, w := SiftOne(a, size, key, last, parent, v);
      if c == 0 { break; }
      parent, v := c, w;
    }
    if 2 * parent > size { PopDone(v, size, key, parent); }
    a[parent] := last;
    assert a[..] == v;
  }

  method PopHeap(a: array<int>, n: int, key: Keys) returns (min: int)
    requires Heap(a[..], n, key) && n > 0
    modifies a
    ensures Heap(a[..], n - 1, key)
    ensures old(Entries(a[..], n)) == Entries(a[..], n - 1) + multiset{min}
    ensures min in key && forall p :: p in old(Entries(a[..], n)) ==> p in key && key[min] <= key[p]
  {
    PopMinimum(a[..], n, key);
    PopEntries(a[..], n);
    min := a[1];
    if n == 1 {
      a[1] := a[n];
    } else {
      PopStart(a[..], n, key);
      SiftDown(a, n - 1, key, a[n]);
    }
  }
}
