/** The circular doubly linked lists of list.h. A list is the cycle of nodes met on the way
    from its head along next pointers; each operation on the pointers is proved to do the
    matching operation on that cycle, and to leave alone every list it does not touch. */
module ListHead {
  import opened Lists

  /** All the prev and next fields, by node. */
  datatype Links = Links(next: map<int, int>, prev: map<int, int>)

  predicate Linked(k: Links, a: int, b: int) {
    a in k.next && b in k.prev && k.next[a] == b && k.prev[b] == a
  }

  /** The i-th node of cycle `c`, whose end is its start. */
  function At(c: seq<int>, i: int): int
    requires 0 <= i <= |c| && c != []
  {
    if i == |c| then c[0] else c[i]
  }

  predicate Step(k: Links, c: seq<int>, i: int)
    requires 0 <= i < |c|
  {
    Linked(k, c[i], At(c, i + 1))
  }

  /** The nodes of `c`, the list head first, are linked in that order and back round. */
  ghost predicate Cycle(k: Links, c: seq<int>) {
    c != [] && Distinct(c) && forall i :: 0 <= i < |c| ==> Step(k, c, i)
  }

  lemma AtDistinct(c: seq<int>, i: int, j: int)
    requires Distinct(c) && 0 <= i < |c| && 0 <= j < |c| && i != j
    ensures c[i] != c[j] && At(c, i + 1) != At(c, j + 1)
  {
  }

  /** A list none of whose nodes was written to. */
  lemma Frame(k: Links, r: Links, c: seq<int>)
    requires Cycle(k, c)
    requires forall x :: x in c && x in k.next && x in k.prev ==>
      x in r.next && x in r.prev && r.next[x] == k.next[x] && r.prev[x] == k.prev[x]
    ensures Cycle(r, c)
  {
    forall i | 0 <= i < |c| ensures Step(r, c, i) {
      Both(k, c, i);
      Both(k, c, if i + 1 == |c| then 0 else i + 1);
    }
  }

  /** Every node of a list has both pointers. */
  lemma Both(k: Links, c: seq<int>, i: int)
    requires Cycle(k, c) && 0 <= i < |c|
    ensures c[i] in k.next && c[i] in k.prev && k.next[c[i]] == At(c, i + 1)
    ensures k.prev[c[i]] == c[if i == 0 then |c| - 1 else i - 1]
  {
    var j := if i == 0 then |c| - 1 else i - 1;
    assert Step(k, c, i) && Step(k, c, j);
  }

  /** list_head_init. */
  function Init(k: Links, head: int): Links {
    Links(k.next[head := head], k.prev[head := head])
  }

  /** __list_add. */
  function Add(k: Links, x: int, prev: int, next: int): Links {
    Links(k.next[x := next][prev := x], k.prev[next := x][x := prev])
  }

  /** Adding between position `i` of the cycle and the next: list_add, list_add_after,
      list_add_tail. */
  lemma AddIs(k: Links, c: seq<int>, i: int, x: int)
    requires Cycle(k, c) && 0 <= i < |c| && x !in c
    ensures Cycle(Add(k, x, c[i], At(c, i + 1)), c[..i + 1] + [x] + c[i + 1..])
  {
    var r, d := Add(k, x, c[i], At(c, i + 1)), c[..i + 1] + [x] + c[i + 1..];
    assert forall j :: 0 <= j <= i ==> d[j] == c[j];
    assert forall j :: i < j < |c| ==> d[j + 1] == c[j];
    InsertDistinct(c, i, d);
    forall j | 0 <= j < |d| ensures Step(r, d, j) {
      if j == i || j == i + 1 { AddHere(k, c, i, x); } else { AddElsewhere(k, c, i, x, j); }
    }
  }

  lemma AddElsewhere(k: Links, c: seq<int>, i: int, x: int, j: int)
    requires Cycle(k, c) && 0 <= i < |c| && x !in c && 0 <= j <= |c| && j != i && j != i + 1
    ensures Step(Add(k, x, c[i], At(c, i + 1)), c[..i + 1] + [x] + c[i + 1..], j)
  {
    var d, m := c[..i + 1] + [x] + c[i + 1..], if j < i then j else j - 1;
    assert d[j] == c[m] && At(d, j + 1) == At(c, m + 1) && Step(k, c, m);
    AtDistinct(c, m, i);
  }

  lemma AddHere(k: Links, c: seq<int>, i: int, x: int)
    requires Cycle(k, c) && 0 <= i < |c| && x !in c
    ensures var r, d := Add(k, x, c[i], At(c, i + 1)), c[..i + 1] + [x] + c[i + 1..];
      Step(r, d, i) && Step(r, d, i + 1)
  {
    var d := c[..i + 1] + [x] + c[i + 1..];
    assert d[i] == c[i] && d[i + 1] == x && At(d, i + 2) == At(c, i + 1);
    assert Step(k, c, i);
  }

  /** list_del. */
  function Del(k: Links, x: int): Links
    requires x in k.next && x in k.prev
  {
    var p, n := k.prev[x], k.next[x];
    Links(k.next[p := n] - {x}, k.prev[n := p] - {x})
  }

  lemma DelIs(k: Links, c: seq<int>, i: int)
    requires Cycle(k, c) && 0 < i < |c|
    ensures c[i] in k.next && c[i] in k.prev && Cycle(Del(k, c[i]), c[..i] + c[i + 1..])
  {
    Both(k, c, i);
    var r, d := Del(k, c[i]), c[..i] + c[i + 1..];
    assert forall j :: 0 <= j < |d| ==> d[j] == c[if j < i then j else j + 1];
    forall j | 0 <= j < |d| && j != i - 1 ensures Step(r, d, j) {
      var m := if j < i then j else j + 1;
      assert d[j] == c[m] && At(d, j + 1) == At(c, m + 1) && Step(k, c, m);
      AtDistinct(c, m, i);
      AtDistinct(c, m, i - 1);
    }
    assert d[i - 1] == c[i - 1] && At(d, i) == At(c, i + 1);
    assert Step(r, d, i - 1);
  }

  /** list_bulk_move_tail. */
  function BulkMove(k: Links, src: int, dst: int): Links
    requires src in k.next && src in k.prev && dst in k.prev
  {
    if k.next[src] == src then k
    else
      var first, last, tail := k.next[src], k.prev[src], k.prev[dst];
      Links(k.next[tail := first][last := dst][src := src], k.prev[first := tail][dst := last][src := src])
  }

  lemma AppendDistinct(d: seq<int>, q: seq<int>)
    requires Distinct(d) && Distinct(q) && forall x :: x in q ==> x !in d
    ensures Distinct(d + q)
  {
    var e := d + q;
    assert forall j :: |d| <= j < |e| ==> e[j] == q[j - |d|] && q[j - |d|] in q;
  }

  lemma BulkMoveIs(k: Links, c: seq<int>, d: seq<int>)
    requires Cycle(k, c) && Cycle(k, d) && forall x :: x in c ==> x !in d
    ensures c[0] in k.next && c[0] in k.prev && d[0] in k.prev
    ensures var r := BulkMove(k, c[0], d[0]); Cycle(r, [c[0]]) && Cycle(r, d + c[1..])
  {
    Both(k, c, 0);
    Both(k, d, 0);
    var r, e := BulkMove(k, c[0], d[0]), d + c[1..];
    if |c| == 1 {
      assert e == d;
    } else {
      AppendDistinct(d, c[1..]);
      Both(k, c, 1);
      forall j | 0 <= j < |d| - 1 ensures Step(r, e, j) {
        assert Step(k, d, j);
        AtDistinct(d, j, |d| - 1);
        assert d[j] in d && d[j + 1] in d && c[0] in c && c[1] in c && c[|c| - 1] in c;
      }
      forall j | |d| <= j < |e| - 1 ensures Step(r, e, j) {
        var m := j - |d| + 1;
        assert e[j] == c[m] && e[j + 1] == c[m + 1] && Step(k, c, m);
        AtDistinct(c, m, |c| - 1);
        assert c[m] in c && c[m + 1] in c && d[0] in d && d[|d| - 1] in d;
      }
      assert c[1] in c && c[|c| - 1] in c && d[|d| - 1] in d && d[0] in d;
      assert Step(r, e, |d| - 1) && Step(r, e, |e| - 1) && Step(r, [c[0]], 0);
    }
  }

  /** Any other list, sharing no node with `c` nor `x`, is still a list. */
  ghost predicate OthersKept(k: Links, r: Links, c: seq<int>, x: int) {
    forall d :: Cycle(k, d) && x !in d && (forall y :: y in d ==> y !in c) ==> Cycle(r, d)
  }

  lemma AddOthers(k: Links, c: seq<int>, i: int, x: int)
    requires Cycle(k, c) && 0 <= i < |c| && x !in c
    ensures OthersKept(k, Add(k, x, c[i], At(c, i + 1)), c, x)
  {
    assert c[i] in c && At(c, i + 1) in c;
    forall d | Cycle(k, d) && x !in d && (forall y :: y in d ==> y !in c)
      ensures Cycle(Add(k, x, c[i], At(c, i + 1)), d)
    {
      Frame(k, Add(k, x, c[i], At(c, i + 1)), d);
    }
  }

  lemma DelOthers(k: Links, c: seq<int>, i: int)
    requires Cycle(k, c) && 0 < i < |c|
    ensures c[i] in k.next && c[i] in k.prev && OthersKept(k, Del(k, c[i]), c, c[i])
  {
    Both(k, c, i);
    assert c[i - 1] in c && At(c, i + 1) in c;
    forall d | Cycle(k, d) && c[i] !in d && (forall y :: y in d ==> y !in c) ensures Cycle(Del(k, c[i]), d) {
      Frame(k, Del(k, c[i]), d);
    }
  }

  lemma BulkMoveOthers(k: Links, c: seq<int>, d: seq<int>, e: seq<int>)
    requires Cycle(k, c) && Cycle(k, d) && Cycle(k, e)
    requires forall x :: x in e ==> x !in c && x !in d
    ensures c[0] in k.next && c[0] in k.prev && d[0] in k.prev && Cycle(BulkMove(k, c[0], d[0]), e)
  {
    Both(k, c, 0);
    Both(k, d, 0);
    assert c[0] in c && c[|c| - 1] in c && At(c, 1) in c && d[0] in d && d[|d| - 1] in d;
    Frame(k, BulkMove(k, c[0], d[0]), e);
  }

  /** The pointers in memory, and the operations of list.h on them; `c` is the list at hand, its
      head first. */
  class Memory {
    var k: Links

    constructor ()
      ensures k == Links(map[], map[])
    {
      k := Links(map[], map[]);
    }

    method HeadInit(head: int)
      modifies this
      ensures Cycle(k, [head])
    {
      k := Init(k, head);
      assert Step(k, [head], 0);
    }

    method Insert(x: int, prev: int, next: int)
      modifies this
      ensures k == Add(old(k), x, prev, next)
    {
      k := k.(prev := k.prev[next := x]);
      k := k.(next := k.next[x := next]);
      k := k.(prev := k.prev[x := prev]);
      k := k.(next := k.next[prev := x]);
    }

    /** list_add (node is the head, i is 0) and list_add_after. */
    method AddAfter(x: int, node: int, ghost c: seq<int>, ghost i: int)
      requires Cycle(k, c) && 0 <= i < |c| && c[i] == node && x !in c
      modifies this
      ensures Cycle(k, c[..i + 1] + [x] + c[i + 1..]) && OthersKept(old(k), k, c, x)
    {
      Both(k, c, i);
      AddIs(k, c, i, x);
      AddOthers(k, c, i, x);
      Insert(x, node, k.next[node]);
    }

    /** list_add_tail. */
    method AddTail(x: int, head: int, ghost c: seq<int>)
      requires Cycle(k, c) && c[0] == head && x !in c
      modifies this
      ensures Cycle(k, c + [x]) && OthersKept(old(k), k, c, x)
    {
      ghost var i := |c| - 1;
      Both(k, c, 0);
      AddIs(k, c, i, x);
      AddOthers(k, c, i, x);
      assert c[..i + 1] + [x] + c[i + 1..] == c + [x];
      Insert(x, k.prev[head], head);
    }

    /** list_del. */
    method Delete(x: int, ghost c: seq<int>, ghost i: int)
      requires Cycle(k, c) && 0 < i < |c| && c[i] == x
      modifies this
      ensures Cycle(k, c[..i] + c[i + 1..]) && OthersKept(old(k), k, c, x)
    {
      DelIs(k, c, i);
      DelOthers(k, c, i);
      var prev, next := k.prev[x], k.next[x];
      k := k.(next := k.next[prev := next]);
      k := k.(prev := k.prev[next := prev]);
      k := Links(k.next - {x}, k.prev - {x});
    }

    /** list_bulk_move_tail of list `c` to list `d`. */
    method BulkMoveTail(src: int, dst: int, ghost c: seq<int>, ghost d: seq<int>)
      requires Cycle(k, c) && Cycle(k, d) && c[0] == src && d[0] == dst && forall x :: x in c ==> x !in d
      modifies this
      ensures Cycle(k, [src]) && Cycle(k, d + c[1..])
      ensures forall e :: old(Cycle(k, e)) && (forall x :: x in e ==> x !in c && x !in d) ==> Cycle(k, e)
    {
      BulkMoveIs(k, c, d);
      forall e | Cycle(k, e) && (forall x :: x in e ==> x !in c && x !in d) ensures Cycle(BulkMove(k, src, dst), e) {
        BulkMoveOthers(k, c, d, e);
      }
      if k.next[src] != src {
        var first, last, tail := k.next[src], k.prev[src], k.prev[dst];
        k := Links(k.next[tail := first], k.prev[first := tail]);
        k := Links(k.next[last := dst], k.prev[dst := last]);
        k := Links(k.next[src := src], k.prev[src := src]);
      }
    }
  }
}
