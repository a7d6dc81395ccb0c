/** The waiting queue of xem.c: a ring of XEMQSZ slots, one always empty. Waiters
    keep the address of their slot, so slot positions are part of the model. */
module RingQueue {
  const XEMQSZ := 64
  const UNUSED := -1

  /** queue_t. */
  datatype Ring = Ring(head: int, rear: int, slots: seq<int>)

  /** `i % XEMQSZ` for the indexes that occur, without the division. */
  function Wrap(i: int): int { if i < 0 then i + XEMQSZ else if i >= XEMQSZ then i - XEMQSZ else i }

  lemma WrapIsMod(i: int)
    requires 0 <= i < 2 * XEMQSZ
    ensures Wrap(i) == i % XEMQSZ
  {
  }

  function Length(r: Ring): int { Wrap(r.rear - r.head) }

  /** The slot of the `i`-th waiter. */
  function Pos(r: Ring, i: int): int { Wrap(r.head + i) }

  /** The waiting thread ids, first come first. */
  function Waiting(r: Ring): (w: seq<int>)
    requires Shape(r)
    ensures |w| == Length(r)
  {
    seq(Length(r), i requires 0 <= i < Length(r) => r.slots[Pos(r, i)])
  }

  predicate Shape(r: Ring) {
    |r.slots| == XEMQSZ && 0 <= r.head < XEMQSZ && 0 <= r.rear < XEMQSZ
  }

  /** Slots outside the queue are UNUSED. */
  predicate Valid(r: Ring) {
    && Shape(r)
    && forall j :: 0 <= j < XEMQSZ && Wrap(j - r.head) >= Length(r) ==> r.slots[j] == UNUSED
  }

  /** queue_add fails when only the spare slot is left. */
  predicate Full(r: Ring) { Wrap(r.rear + 1) == r.head }

  function Add(r: Ring, key: int): Ring
    requires Shape(r)
  {
    Ring(r.head, Wrap(r.rear + 1), r.slots[r.rear := key])
  }

  function Remove(r: Ring): Ring
    requires Shape(r)
  {
    Ring(Wrap(r.head + 1), r.rear, r.slots[r.head := UNUSED])
  }

  lemma PosApart(r: Ring, i: int, j: int)
    requires Shape(r) && 0 <= i < XEMQSZ && 0 <= j < XEMQSZ
    ensures 0 <= Pos(r, i) < XEMQSZ && (Pos(r, i) == Pos(r, j) <==> i == j)
    ensures Wrap(Pos(r, i) - r.head) == i
  {
  }

  lemma AddAppends(r: Ring, key: int)
    requires Valid(r) && !Full(r)
    ensures Valid(Add(r, key)) && Waiting(Add(r, key)) == Waiting(r) + [key]
    ensures r.rear == Pos(r, Length(r)) && Length(r) < XEMQSZ - 1
    ensures forall j :: 0 <= j < XEMQSZ && j != r.rear ==> Add(r, key).slots[j] == r.slots[j]
  {
    var s := Add(r, key);
    assert Length(s) == Length(r) + 1;
    forall i | 0 <= i < Length(r) ensures Waiting(s)[i] == Waiting(r)[i] {
      PosApart(r, i, Length(r));
    }
  }

  lemma ShiftHead(r: Ring, j: int)
    requires Shape(r) && 0 <= j < XEMQSZ
    ensures Wrap(j - Wrap(r.head + 1)) == if j == r.head then XEMQSZ - 1 else Wrap(j - r.head) - 1
  {
  }

  lemma RemoveDrops(r: Ring)
    requires Valid(r) && r.head != r.rear
    ensures Waiting(r) != [] && Waiting(r)[0] == r.slots[r.head]
    ensures Valid(Remove(r)) && Waiting(Remove(r)) == Waiting(r)[1..]
    ensures forall i :: 0 <= i < Length(r) - 1 ==> Pos(Remove(r), i) == Pos(r, i + 1)
  {
    var s := Remove(r);
    assert Length(s) == Length(r) - 1;
    forall j | 0 <= j < XEMQSZ && Wrap(j - s.head) >= Length(s) ensures s.slots[j] == UNUSED {
      ShiftHead(r, j);
    }
    forall i | 0 <= i < Length(s) ensures Waiting(s)[i] == Waiting(r)[i + 1] {
      PosApart(r, 0, i + 1);
    }
  }

  lemma FullIs(r: Ring)
    requires Shape(r)
    ensures Full(r) <==> Length(r) == XEMQSZ - 1
    ensures r.head == r.rear <==> Length(r) == 0
  {
  }

  /** The same queue as the in-place array of xem.c. */
  class Queue {
    var head: int
    var rear: int
    const queue: array<int>

    ghost function Value(): Ring
      reads this, queue
    {
      Ring(head, rear, queue[..])
    }

    /** queue_init. */
    constructor ()
      ensures fresh(queue) && Valid(Value()) && Waiting(Value()) == []
    {
      queue := new int[XEMQSZ](_ => UNUSED);
      head, rear := 0, 0;
    }

    /** queue_empty. */
    method Empty() returns (e: bool)
      requires Valid(Value())
      ensures e <==> Waiting(Value()) == []
    {
      FullIs(Value());
      e := head == rear;
    }

    /** queue_add: the slot that now holds `key`, or -1. */
    method Enqueue(key: int) returns (slot: int)
      requires Valid(Value())
      modifies this`rear, queue
      ensures Valid(Value())
      ensures slot == -1 <==> |old(Waiting(Value()))| == XEMQSZ - 1
      ensures slot == -1 ==> Value() == old(Value())
      ensures slot != -1 ==> Value() == Add(old(Value()), key) && slot == old(rear)
      ensures slot != -1 ==> Waiting(Value()) == old(Waiting(Value())) + [key]
    {
      FullIs(Value());
      WrapIsMod(rear + 1);
      var nxt := (rear + 1) % XEMQSZ;
      if nxt != head {
        AddAppends(Value(), key);
        slot := rear;
        queue[rear] := key;
        rear := nxt;
      } else {
        slot := -1;
      }
    }

    /** queue_remove. */
    method Dequeue()
      requires Valid(Value()) && Waiting(Value()) != []
      modifies this`head, queue
      ensures Valid(Value()) && Value() == Remove(old(Value()))
      ensures Waiting(Value()) == old(Waiting(Value()))[1..]
    {
      FullIs(Value());
      RemoveDrops(Value());
      WrapIsMod(head + 1);
      queue[head] := UNUSED;
      head := (head + 1) % XEMQSZ;
    }
  }
}
