/** List operations on sequences of nodes: searches that start after a given node and go
    round, deletion, insertion after a node, and what they do to the grouping of an MLFQ
    queue's threads by process. Module ListHead has the pointers. */
module Lists {
  const NONE := -1   // no thread; as a pin, the list head

  /** Which process each thread belongs to. */
  type Pids = map<int, int>

  /** The first thread of `r` in `ok`, or NONE. */
  function First(r: seq<int>, ok: set<int>): int {
    if r == [] then NONE else if r[0] in ok then r[0] else First(r[1..], ok)
  }

  lemma {:induction false} FirstIs(r: seq<int>, ok: set<int>)
    requires NONE !in ok
    ensures First(r, ok) != NONE ==> First(r, ok) in r && First(r, ok) in ok
    ensures First(r, ok) == NONE <==> forall t :: t in r ==> t !in ok
  {
    if r != [] {
      FirstIs(r[1..], ok);
      assert forall t :: t in r <==> t == r[0] || t in r[1..];
    }
  }

  lemma {:induction false} FirstOfAppend(r: seq<int>, q: seq<int>, ok: set<int>)
    requires NONE !in ok
    ensures First(r + q, ok) == if First(r, ok) != NONE then First(r, ok) else First(q, ok)
    decreases |r|
  {
    if r == [] {
      assert r + q == q;
    } else {
      assert (r + q)[1..] == r[1..] + q;
      FirstOfAppend(r[1..], q, ok);
    }
  }

  /** The threads of `r` in `ok`, in order. */
  function Keep(r: seq<int>, ok: set<int>): seq<int> {
    if r == [] then [] else (if r[0] in ok then [r[0]] else []) + Keep(r[1..], ok)
  }

  lemma {:induction false} KeepIs(r: seq<int>, ok: set<int>)
    ensures forall t :: t in Keep(r, ok) <==> t in r && t in ok
    ensures Distinct(r) ==> Distinct(Keep(r, ok))
  {
    if r != [] {
      KeepIs(r[1..], ok);
      assert forall t :: t in r <==> t == r[0] || t in r[1..];
    }
  }

  function Index(q: seq<int>, t: int): (i: nat)
    ensures i <= |q| && (i < |q| ==> q[i] == t) && (t in q ==> i < |q|)
  {
    if q == [] || q[0] == t then 0 else 1 + Index(q[1..], t)
  }

  /** The others of list `q`, in the order met on the way round from `t`. */
  function Round(q: seq<int>, t: int): seq<int> {
    var i := Index(q, t);
    if i < |q| then q[i + 1..] + q[..i] else q
  }

  predicate Distinct(q: seq<int>) {
    forall i, j :: 0 <= i < j < |q| ==> q[i] != q[j]
  }

  lemma RoundIs(q: seq<int>, t: int)
    requires Distinct(q)
    ensures Distinct(Round(q, t)) && forall u :: u in Round(q, t) <==> u in q && u != t
  {
    var i := Index(q, t);
    if i < |q| {
      var r := Round(q, t);
      forall u | u in q && u != t ensures u in r {
        var k := Index(q, u);
        assert if k < i then r[|q| - i - 1 + k] == u else r[k - i - 1] == u;
      }
    }
  }

  // ---------- grouping ----------

  /** The threads of a process are side by side. */
  ghost predicate Grouped(q: seq<int>, pid: Pids) {
    && (forall i :: 0 <= i < |q| ==> q[i] in pid)
    && (forall i, j, k :: 0 <= i < j < k < |q| && pid[q[i]] == pid[q[k]] ==> pid[q[j]] == pid[q[i]])
  }

  ghost predicate QueueOk(q: seq<int>, pid: Pids) { Distinct(q) && Grouped(q, pid) }

  /** list_del. */
  function Remove(q: seq<int>, t: int): seq<int> {
    var i := Index(q, t);
    if i < |q| then q[..i] + q[i + 1..] else q
  }

  lemma RemoveIs(q: seq<int>, t: int)
    requires Distinct(q)
    ensures Distinct(Remove(q, t))
    ensures forall u :: u in Remove(q, t) <==> u in q && u != t
    ensures q != [] && q[0] != t ==> Remove(q, t) != [] && Remove(q, t)[0] == q[0]
  {
    var i := Index(q, t);
    if i < |q| {
      var r := Remove(q, t);
      forall u | u in q && u != t ensures u in r {
        var k := Index(q, u);
        assert if k < i then r[k] == u else r[k - 1] == u;
      }
      assert forall k :: 0 <= k < |r| ==> r[k] == q[if k < i then k else k + 1];
    }
  }

  lemma RemoveOk(q: seq<int>, pid: Pids, t: int)
    requires QueueOk(q, pid)
    ensures QueueOk(Remove(q, t), pid)
    ensures forall u :: u in Remove(q, t) <==> u in q && u != t
  {
    RemoveIs(q, t);
    var i, r := Index(q, t), Remove(q, t);
    assert i < |q| ==> forall k :: 0 <= k < |r| ==> r[k] == q[if k < i then k else k + 1];
  }

  /** list_del of each of `ts` in turn. */
  function RemoveAll(q: seq<int>, ts: seq<int>): seq<int>
    decreases |ts|
  {
    if ts == [] then q else RemoveAll(Remove(q, ts[0]), ts[1..])
  }

  lemma {:induction false} RemoveAllOk(q: seq<int>, pid: Pids, ts: seq<int>)
    requires QueueOk(q, pid)
    ensures QueueOk(RemoveAll(q, ts), pid)
    ensures forall u :: u in RemoveAll(q, ts) <==> u in q && u !in ts
    decreases |ts|
  {
    if ts != [] {
      RemoveOk(q, pid, ts[0]);
      RemoveAllOk(Remove(q, ts[0]), pid, ts[1..]);
      assert forall u :: u in ts <==> u == ts[0] || u in ts[1..];
    }
  }

  /** list_add_after. */
  function InsertAfter(q: seq<int>, pivot: int, t: int): seq<int> {
    var i := Index(q, pivot);
    if i < |q| then q[..i + 1] + [t] + q[i + 1..] else q
  }

  lemma InsertGrouped(q: seq<int>, pid: Pids, at: int, r: seq<int>)
    requires Grouped(q, pid) && 0 <= at < |q| == |r| - 1
    requires forall k :: 0 <= k < |r| ==> r[k] in pid
    requires pid[r[at + 1]] == pid[q[at]]
    requires forall k :: 0 <= k <= at ==> r[k] == q[k]
    requires forall k :: at < k < |q| ==> r[k + 1] == q[k]
    ensures Grouped(r, pid)
  {
    forall i, j, k | 0 <= i < j < k < |r| && pid[r[i]] == pid[r[k]] ensures pid[r[j]] == pid[r[i]] {
      var x, y, z := Source(at, i), Source(at, j), Source(at, k);
      assert pid[r[i]] == pid[q[x]] && pid[r[j]] == pid[q[y]] && pid[r[k]] == pid[q[z]];
      assert x <= y <= z;
    }
  }

  /** Where an entry of the list after list_add_after at `at` comes from; the new one counts as
      its pivot. */
  function Source(at: int, k: int): int { if k <= at then k else k - 1 }

  lemma InsertMembers(q: seq<int>, at: int, r: seq<int>)
    requires 0 <= at < |q| == |r| - 1
    requires forall k :: 0 <= k <= at ==> r[k] == q[k]
    requires forall k :: at < k < |q| ==> r[k + 1] == q[k]
    ensures forall u :: u in r <==> u in q || u == r[at + 1]
  {
    forall u | u in q ensures u in r {
      var k :| 0 <= k < |q| && q[k] == u;
      assert if k <= at then r[k] == u else r[k + 1] == u;
    }
    forall u | u in r ensures u in q || u == r[at + 1] {
      var k :| 0 <= k < |r| && r[k] == u;
      assert k != at + 1 ==> r[k] == q[Source(at, k)];
    }
  }

  lemma InsertDistinct(q: seq<int>, at: int, r: seq<int>)
    requires Distinct(q) && 0 <= at < |q| == |r| - 1 && r[at + 1] !in q
    requires forall k :: 0 <= k <= at ==> r[k] == q[k]
    requires forall k :: at < k < |q| ==> r[k + 1] == q[k]
    ensures Distinct(r)
    ensures forall u :: u in r <==> u in q || u == r[at + 1]
  {
    InsertMembers(q, at, r);
    forall i, j | 0 <= i < j < |r| ensures r[i] != r[j] {
      assert i != at + 1 ==> r[i] == q[Source(at, i)];
      assert j != at + 1 ==> r[j] == q[Source(at, j)];
    }
  }

  lemma InsertAfterOk(q: seq<int>, pid: Pids, pivot: int, t: int)
    requires QueueOk(q, pid) && pivot in q && t !in q && t in pid && pid[t] == pid[pivot]
    ensures QueueOk(InsertAfter(q, pivot, t), pid)
    ensures forall u :: u in InsertAfter(q, pivot, t) <==> u in q || u == t
  {
    var i, r := Index(q, pivot), InsertAfter(q, pivot, t);
    InsertDistinct(q, i, r);
    InsertGrouped(q, pid, i, r);
  }

  /** list_add_after of each of `ts` in turn, all after `pivot`. */
  function InsertAll(q: seq<int>, pivot: int, ts: seq<int>): seq<int>
    decreases |ts|
  {
    if ts == [] then q else InsertAll(InsertAfter(q, pivot, ts[0]), pivot, ts[1..])
  }

  lemma {:induction false} InsertAllOk(q: seq<int>, pid: Pids, pivot: int, ts: seq<int>)
    requires QueueOk(q, pid) && pivot in q && Distinct(ts)
    requires forall t :: t in ts ==> t !in q && t in pid && pid[t] == pid[pivot]
    ensures QueueOk(InsertAll(q, pivot, ts), pid)
    ensures forall u :: u in InsertAll(q, pivot, ts) <==> u in q || u in ts
    decreases |ts|
  {
    if ts != [] {
      InsertAfterOk(q, pid, pivot, ts[0]);
      InsertAllOk(InsertAfter(q, pivot, ts[0]), pid, pivot, ts[1..]);
      assert forall u :: u in ts <==> u == ts[0] || u in ts[1..];
    }
  }

  /** list_add_tail of a process that is not in the queue, and list_bulk_move_tail of a queue
      none of whose processes are. */
  lemma AppendOk(q: seq<int>, pid: Pids, r: seq<int>)
    requires QueueOk(q, pid) && QueueOk(r, pid)
    requires forall t, u :: t in q && u in r ==> pid[t] != pid[u]
    ensures QueueOk(q + r, pid)
  {
    var s := q + r;
    assert forall k :: 0 <= k < |s| ==> s[k] == if k < |q| then q[k] else r[k - |q|];
    assert forall i, k :: 0 <= i < |q| <= k < |s| ==> pid[s[i]] != pid[s[k]];
  }
}
