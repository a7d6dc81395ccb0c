/** A first-come-first-served semaphore with one permit, as a value, and how it may be used.
    Module Semaphore shows that the code of xem.c behaves as one, and module RwSeam that the
    readers-writer lock uses it so. */
module Fcfs {
  const NONE := -1

  /** Who holds the permit (NONE if nobody does) and who waits for it. */
  datatype Sem = Sem(owner: int, queue: seq<int>)

  function Wait(m: Sem, t: int): Sem {
    if m.owner == NONE then Sem(t, []) else Sem(m.owner, m.queue + [t])
  }

  function Unlock(m: Sem): Sem {
    if m.queue == [] then Sem(NONE, []) else Sem(m.queue[0], m.queue[1..])
  }

  /** A wait, an unlock, and the passing on of the duty to unlock. */
  datatype Call = Ask(t: int) | Give(t: int) | Hand(t: int, u: int)

  function Do(m: Sem, c: Call): Sem {
    match c
    case Ask(t) => Wait(m, t)
    case Give(_) => Unlock(m)
    case Hand(_, u) => m.(owner := u)
  }

  /** Nobody waits twice, and only the owner gives the permit or the duty away. */
  predicate May(m: Sem, c: Call) {
    match c
    case Ask(t) => t != NONE && t != m.owner && t !in m.queue
    case Give(t) => t == m.owner && t != NONE
    case Hand(t, u) => t == m.owner && t != NONE && u != NONE && u != t && u !in m.queue
  }

  /** The calls of `cs`, one after the other. */
  function Serial(m: Sem, cs: seq<Call>): Sem
    decreases |cs|
  {
    if cs == [] then m else Serial(Do(m, cs[0]), cs[1..])
  }

  predicate Legal(m: Sem, cs: seq<Call>)
    decreases |cs|
  {
    cs != [] ==> May(m, cs[0]) && Legal(Do(m, cs[0]), cs[1..])
  }

  lemma {:induction false} Append(m: Sem, cs: seq<Call>, ds: seq<Call>)
    requires Legal(m, cs) && Legal(Serial(m, cs), ds)
    ensures Legal(m, cs + ds) && Serial(m, cs + ds) == Serial(Serial(m, cs), ds)
    decreases |cs|
  {
    if cs == [] {
      assert cs + ds == ds;
    } else {
      assert (cs + ds)[0] == cs[0] && (cs + ds)[1..] == cs[1..] + ds;
      Append(Do(m, cs[0]), cs[1..], ds);
    }
  }

  lemma OneCall(m: Sem, c: Call)
    requires May(m, c)
    ensures Legal(m, [c]) && Serial(m, [c]) == Do(m, c)
  {
    assert [c][1..] == [];
    assert Legal(Do(m, c), []) && Serial(Do(m, c), []) == Do(m, c);
  }
}
