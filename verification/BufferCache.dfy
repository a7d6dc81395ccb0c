/** The buffer cache of bio.c, one atomic section at a time, so that any interleaving of
    threads is a sequence of these calls: the part of bget under bcache.lock, taking a
    buffer's sleep lock, bread's disk read, the holder's change of the data, bwrite, the
    B_DIRTY mark of log_write, and brelse. iderw is an atomic disk transfer. */
module BufferCache {
  import opened Blocks
  import opened ListHead
  import Lists

  const NBUF := 30
  const HEAD := NBUF   // bcache.head, as a list node

  datatype Key = Key(dev: int, blockno: int)
  datatype Buf = Buf(key: Key, refcnt: int, valid: bool, dirty: bool, data: Block)

  /** Not to be recycled. */
  predicate InUse(b: Buf) { b.refcnt != 0 || b.dirty }

  ghost predicate Unique(bufs: seq<Buf>) {
    forall i, j :: 0 <= i < j < |bufs| && bufs[i].key == bufs[j].key ==> bufs[i].key.dev == 0
  }

  ghost predicate Cached(bufs: seq<Buf>, key: Key) {
    exists i :: 0 <= i < |bufs| && bufs[i].key == key
  }

  /** Buffer `b` agrees with the last contents given to its block; unless they still have to go to
      the disk, so does the disk. A block whose holder changed it and let it go unwritten has no
      entry in `latest`. */
  ghost predicate Agrees(b: Buf, touched: bool, disk: map<Key, Block>, latest: map<Key, Block>) {
    && b.refcnt >= 0 && (b.dirty ==> b.valid) && (touched ==> b.valid && b.refcnt > 0)
    && (b.valid && b.key.dev != 0 ==> b.key in disk)
    && (b.valid && b.key.dev != 0 && b.key in latest ==>
        latest[b.key] == b.data && (!b.dirty && !touched ==> b.key in disk && disk[b.key] == b.data))
  }

  /** The block holds its last contents on the disk, or a buffer has them. */
  ghost predicate OnDisk(bufs: seq<Buf>, key: Key, disk: map<Key, Block>, latest: map<Key, Block>) {
    && key in latest && key in disk
    && (disk[key] == latest[key] || exists i :: 0 <= i < |bufs| && bufs[i].key == key && bufs[i].valid)
  }

  ghost predicate Good(bufs: seq<Buf>, touched: set<int>, disk: map<Key, Block>, latest: map<Key, Block>) {
    && |bufs| == NBUF && Unique(bufs) && latest.Keys <= disk.Keys
    && (forall i :: 0 <= i < NBUF ==> Agrees(bufs[i], i in touched, disk, latest))
    && (forall key :: key in latest && key.dev != 0 ==> OnDisk(bufs, key, disk, latest))
  }

  /** A change to buffer `i` that is not about its block or data. */
  lemma KeepBlock(bufs: seq<Buf>, touched: set<int>, disk: map<Key, Block>, latest: map<Key, Block>, i: int, b: Buf)
    requires Good(bufs, touched, disk, latest) && 0 <= i < NBUF
    requires b.key == bufs[i].key && b.valid == bufs[i].valid && Agrees(b, i in touched, disk, latest)
    ensures Good(bufs[i := b], touched, disk, latest)
  {
    var r := bufs[i := b];
    forall key | key in latest && key.dev != 0 ensures OnDisk(r, key, disk, latest) {
      assert OnDisk(bufs, key, disk, latest);
      if j :| 0 <= j < NBUF && bufs[j].key == key && bufs[j].valid {
        assert r[j].key == key && r[j].valid;
      }
    }
  }

  /** Recycling an unused buffer loses nothing. */
  lemma Recycle(bufs: seq<Buf>, touched: set<int>, disk: map<Key, Block>, latest: map<Key, Block>, i: int, key: Key)
    requires Good(bufs, touched, disk, latest) && 0 <= i < NBUF && !InUse(bufs[i]) && !Cached(bufs, key)
    ensures Good(bufs[i := Buf(key, 1, false, false, bufs[i].data)], touched, disk, latest)
  {
    var r := bufs[i := Buf(key, 1, false, false, bufs[i].data)];
    assert Agrees(bufs[i], i in touched, disk, latest);
    forall o | o in latest && o.dev != 0 ensures OnDisk(r, o, disk, latest) {
      assert OnDisk(bufs, o, disk, latest);
      if j :| 0 <= j < NBUF && bufs[j].key == o && bufs[j].valid {
        assert j != i ==> r[j].key == o && r[j].valid;
      }
    }
  }

  lemma Filled(bufs: seq<Buf>, touched: set<int>, disk: map<Key, Block>, latest: map<Key, Block>, b: int)
    requires Good(bufs, touched, disk, latest) && 0 <= b < NBUF && !bufs[b].valid
    requires bufs[b].key in disk && bufs[b].key.dev != 0
    ensures Good(bufs[b := bufs[b].(data := disk[bufs[b].key], valid := true)], touched, disk, latest)
  {
    var key := bufs[b].key;
    var r := bufs[b := bufs[b].(data := disk[key], valid := true)];
    assert Agrees(bufs[b], b in touched, disk, latest);
    assert key in latest ==> OnDisk(bufs, key, disk, latest) && disk[key] == latest[key];
    forall o | o in latest && o.dev != 0 ensures OnDisk(r, o, disk, latest) {
      assert OnDisk(bufs, o, disk, latest);
      if j :| 0 <= j < NBUF && bufs[j].key == o && bufs[j].valid {
        assert r[j].key == o && r[j].valid;
      }
    }
  }

  lemma Changed(bufs: seq<Buf>, touched: set<int>, disk: map<Key, Block>, latest: map<Key, Block>, b: int, x: Block)
    requires Good(bufs, touched, disk, latest) && 0 <= b < NBUF
    requires bufs[b].valid && bufs[b].refcnt > 0 && bufs[b].key.dev != 0
    ensures Good(bufs[b := bufs[b].(data := x)], touched + {b}, disk, latest[bufs[b].key := x])
  {
    var key := bufs[b].key;
    var r, l := bufs[b := bufs[b].(data := x)], latest[key := x];
    assert Agrees(bufs[b], b in touched, disk, latest);
    forall i | 0 <= i < NBUF ensures Agrees(r[i], i in touched + {b}, disk, l) {
      assert Agrees(bufs[i], i in touched, disk, latest);
      assert i != b ==> bufs[i].key != key;
    }
    forall o | o in l && o.dev != 0 ensures OnDisk(r, o, disk, l) {
      assert o != key ==> OnDisk(bufs, o, disk, latest);
      assert r[b].key == key && r[b].valid;
      if j :| 0 <= j < NBUF && bufs[j].key == o && bufs[j].valid {
        assert r[j].key == o && r[j].valid;
      }
    }
  }

  lemma Written(bufs: seq<Buf>, touched: set<int>, disk: map<Key, Block>, latest: map<Key, Block>, b: int)
    requires Good(bufs, touched, disk, latest) && 0 <= b < NBUF && bufs[b].valid && bufs[b].key.dev != 0
    ensures Good(bufs[b := bufs[b].(dirty := false)], touched - {b}, disk[bufs[b].key := bufs[b].data],
                 latest[bufs[b].key := bufs[b].data])
  {
    var key := bufs[b].key;
    var r, d, l := bufs[b := bufs[b].(dirty := false)], disk[key := bufs[b].data], latest[key := bufs[b].data];
    assert Agrees(bufs[b], b in touched, disk, latest);
    forall i | 0 <= i < NBUF ensures Agrees(r[i], i in touched - {b}, d, l) {
      assert Agrees(bufs[i], i in touched, disk, latest);
      assert i != b ==> bufs[i].key != key;
    }
    forall o | o in l && o.dev != 0 ensures OnDisk(r, o, d, l) {
      assert o != key ==> OnDisk(bufs, o, disk, latest);
      if j :| 0 <= j < NBUF && bufs[j].key == o && bufs[j].valid {
        assert r[j].key == o && r[j].valid;
      }
    }
  }

  /** The buffer's data are the last contents given to its block. */
  function Given(latest: map<Key, Block>, b: Buf): map<Key, Block> {
    if b.key.dev != 0 then latest[b.key := b.data] else latest
  }

  lemma Marked(bufs: seq<Buf>, touched: set<int>, disk: map<Key, Block>, latest: map<Key, Block>, b: int)
    requires Good(bufs, touched, disk, latest) && 0 <= b < NBUF && bufs[b].valid
    ensures Good(bufs[b := bufs[b].(dirty := true)], touched - {b}, disk, Given(latest, bufs[b]))
  {
    var key := bufs[b].key;
    var r, l := bufs[b := bufs[b].(dirty := true)], Given(latest, bufs[b]);
    assert Agrees(bufs[b], b in touched, disk, latest);
    forall i | 0 <= i < NBUF ensures Agrees(r[i], i in touched - {b}, disk, l) {
      assert Agrees(bufs[i], i in touched, disk, latest);
      assert i != b ==> bufs[i].key != key || key.dev == 0;
    }
    forall o | o in l && o.dev != 0 ensures OnDisk(r, o, disk, l) {
      assert o != key ==> OnDisk(bufs, o, disk, latest);
      assert r[b].key == key && r[b].valid;
      if j :| 0 <= j < NBUF && bufs[j].key == o && bufs[j].valid {
        assert r[j].key == o && r[j].valid;
      }
    }
  }

  /** What is known of the blocks once the holder of `b` lets it go: nothing of its block if it
      was changed and neither written nor logged. */
  function LetGo(bufs: seq<Buf>, touched: set<int>, latest: map<Key, Block>, b: int): map<Key, Block>
    requires 0 <= b < |bufs|
  {
    if b in touched && !bufs[b].dirty then latest - {bufs[b].key} else latest
  }

  lemma Released(bufs: seq<Buf>, touched: set<int>, disk: map<Key, Block>, latest: map<Key, Block>, b: int)
    requires Good(bufs, touched, disk, latest) && 0 <= b < NBUF && bufs[b].refcnt > 0
    ensures Good(bufs[b := bufs[b].(refcnt := bufs[b].refcnt - 1)], touched - {b}, disk, LetGo(bufs, touched, latest, b))
  {
    var r, l := bufs[b := bufs[b].(refcnt := bufs[b].refcnt - 1)], LetGo(bufs, touched, latest, b);
    forall i | 0 <= i < NBUF ensures Agrees(r[i], i in touched - {b}, disk, l) {
      assert Agrees(bufs[i], i in touched, disk, latest);
    }
    forall o | o in l && o.dev != 0 ensures OnDisk(r, o, disk, l) {
      assert OnDisk(bufs, o, disk, latest);
      if j :| 0 <= j < NBUF && bufs[j].key == o && bufs[j].valid {
        assert r[j].key == o && r[j].valid;
      }
    }
  }

  /** The numbers of all buffers, in some order. */
  ghost predicate Permutation(order: seq<int>) {
    |order| == NBUF && Lists.Distinct(order) && InRange(order, NBUF) && forall i :: 0 <= i < NBUF ==> i in order
  }

  ghost predicate InRange(order: seq<int>, n: int) {
    forall m :: 0 <= m < |order| ==> 0 <= order[m] < n
  }

  lemma Moved(order: seq<int>, b: int)
    requires Permutation(order) && 0 <= b < NBUF
    ensures Permutation([b] + Lists.Remove(order, b))
  {
    Lists.RemoveIs(order, b);
    var rest := Lists.Remove(order, b);
    var r := [b] + rest;
    assert b in order;
    forall m | 0 <= m < |rest| ensures 0 <= rest[m] < NBUF && rest[m] != b {
      assert rest[m] in rest;
    }
    forall i | 0 <= i < NBUF ensures i in r {
      assert i in order;
      assert i != b ==> i in rest;
    }
  }

  class Cache {
    const buf: array<Buf>
    var k: Links                       // prev and next of the buffers and of the head
    var disk: map<Key, Block>
    var locked: set<int>               // buffers whose sleep lock is held
    ghost var order: seq<int>          // the list from head.next on
    ghost var touched: set<int>        // changed by their holder since the last bwrite or log_write
    ghost var latest: map<Key, Block>  // last contents given to each block, where known

    ghost predicate ListOk()
      reads this
    {
      Cycle(k, [HEAD] + order) && Permutation(order)
    }

    ghost predicate Valid()
      reads this, buf
    {
      && buf.Length == NBUF && ListOk() && Good(buf[..], touched, disk, latest)
      && touched <= locked && (forall i :: i in locked ==> 0 <= i < NBUF && buf[i].refcnt > 0)
    }

    /** binit. */
    constructor (disk: map<Key, Block>)
      ensures Valid() && this.disk == latest == disk && locked == {} && fresh(buf)
    {
      this.disk, this.latest, locked, touched := disk, disk, {}, {};
      buf := new Buf[NBUF](_ => Buf(Key(0, 0), 0, false, false, Zero()));
      k := Init(Links(map[], map[]), HEAD);
      order := [];
      new;
      assert Step(k, [HEAD], 0) && [HEAD] + order == [HEAD];
      for b := 0 to NBUF
        invariant |order| == b && Cycle(k, [HEAD] + order)
        invariant Lists.Distinct(order) && InRange(order, b)
        invariant forall i :: 0 <= i < b ==> i in order
        invariant buf.Length == NBUF && forall i :: 0 <= i < NBUF ==> buf[i] == Buf(Key(0, 0), 0, false, false, Zero())
        invariant this.disk == latest == disk && locked == touched == {}
      {
        PushFront(b);
      }
    }

    /** Linking `b` in at the front, as binit and brelse do. */
    method PushFront(b: int)
      requires Cycle(k, [HEAD] + order) && b != HEAD && b !in order
      modifies `k, `order
      ensures Cycle(k, [HEAD] + order) && order == [b] + old(order)
    {
      ghost var c := [HEAD] + order;
      Both(k, c, 0);
      AddIs(k, c, 0, b);
      var first := k.next[HEAD];
      k := Add(k, b, HEAD, first);
      order := [b] + order;
      assert c[..1] + [b] + c[1..] == [HEAD] + order;
    }

    /** bget's first loop: the buffer that holds the block. */
    method Lookup(key: Key) returns (b: int)
      requires buf.Length == NBUF && ListOk()
      ensures b == HEAD <==> !Cached(buf[..], key)
      ensures b != HEAD ==> 0 <= b < NBUF && buf[b].key == key
    {
      ghost var c := [HEAD] + order;
      Both(k, c, 0);
      b := k.next[HEAD];
      ghost var i := 1;
      while b != HEAD
        invariant 1 <= i <= |c| && b == At(c, i)
        invariant forall j :: 0 <= j < i - 1 ==> buf[order[j]].key != key
        decreases |c| - i
      {
        assert i < |c| && b == order[i - 1];
        if buf[b].key == key { return; }
        Both(k, c, i);
        b, i := k.next[b], i + 1;
      }
      assert i == |c|;
      forall j | 0 <= j < NBUF ensures buf[j].key != key {
        assert j in order;
        var m :| 0 <= m < NBUF && order[m] == j;
        assert buf[order[m]].key != key;
      }
    }

    /** bget's second loop: the least recently used buffer that is not in use. */
    method FindUnused() returns (b: int)
      requires buf.Length == NBUF && ListOk()
      ensures b == HEAD <==> forall i :: 0 <= i < NBUF ==> InUse(buf[i])
      ensures b != HEAD ==> exists m :: 0 <= m < NBUF && b == order[m] && !InUse(buf[b])
                                        && forall j :: m < j < NBUF ==> InUse(buf[order[j]])
    {
      ghost var c := [HEAD] + order;
      Both(k, c, 0);
      b := k.prev[HEAD];
      ghost var m := NBUF - 1;
      while b != HEAD
        invariant -1 <= m < NBUF && b == c[m + 1]
        invariant forall j :: m < j < NBUF ==> InUse(buf[order[j]])
        decreases m
      {
        assert m >= 0 && b == order[m];
        if !InUse(buf[b]) { return; }
        Both(k, c, m + 1);
        b, m := k.prev[b], m - 1;
      }
      assert m == -1;
      forall i | 0 <= i < NBUF ensures InUse(buf[i]) {
        assert i in order;
        var j :| 0 <= j < NBUF && order[j] == i;
        assert InUse(buf[order[j]]);
      }
    }

    /** The part of bget under bcache.lock. -1 stands for the panic. */
    method Bget(key: Key) returns (r: int)
      requires Valid() && key.dev != 0
      modifies buf
      ensures Valid()
      // The panic: not cached, and all buffers in use.
      ensures r == -1 <==> !old(Cached(buf[..], key)) && forall i :: 0 <= i < NBUF ==> InUse(old(buf[..])[i])
      ensures r == -1 ==> buf[..] == old(buf[..])
      ensures r != -1 ==> 0 <= r < NBUF && buf[r].key == key && buf[r].refcnt > 0
      // A recycled buffer is the least recently used of those not in use.
      ensures r != -1 && !old(Cached(buf[..], key)) ==>
        && buf[r] == Buf(key, 1, false, false, old(buf[..])[r].data)
        && exists m :: 0 <= m < NBUF && r == order[m] && !InUse(old(buf[..])[r])
                       && forall j :: m < j < NBUF ==> InUse(old(buf[..])[order[j]])
      // A buffer in use, or with this block, keeps its block and its data; others are as before.
      ensures forall i :: 0 <= i < NBUF && (i != r || InUse(old(buf[..])[i]) || old(buf[..])[i].key == key) ==>
        buf[i] == old(buf[..])[i].(refcnt := old(buf[..])[i].refcnt + if i == r then 1 else 0)
    {
      ghost var bufs := buf[..];
      r := Lookup(key);
      if r != HEAD {
        var b := buf[r].(refcnt := buf[r].refcnt + 1);
        assert Agrees(buf[r], r in touched, disk, latest);
        KeepBlock(bufs, touched, disk, latest, r, b);
        buf[r] := b;
        assert buf[..] == bufs[r := b];
        return;
      }
      r := FindUnused();
      if r == HEAD { return -1; }
      Recycle(bufs, touched, disk, latest, r, key);
      buf[r] := Buf(key, 1, false, false, buf[r].data);
      assert buf[..] == bufs[r := buf[r]];
    }

    /** brelse's relinking of `b`. */
    method MoveToFront(b: int)
      requires ListOk() && 0 <= b < NBUF
      modifies `k, `order
      ensures ListOk() && order == [b] + Lists.Remove(old(order), b)
    {
      Moved(order, b);
      assert b in order;
      ghost var m := Lists.Index(order, b);
      ghost var c := [HEAD] + order;
      DelIs(k, c, m + 1);
      k := Del(k, b);
      order := Lists.Remove(order, b);
      assert c[..m + 1] + c[m + 2..] == [HEAD] + order;
      Lists.RemoveIs(old(order), b);
      PushFront(b);
    }

    /** acquiresleep. */
    method Acquire(b: int)
      requires Valid() && 0 <= b < NBUF && buf[b].refcnt > 0 && b !in locked
      modifies `locked
      ensures Valid() && locked == old(locked) + {b}
    {
      locked := locked + {b};
    }

    /** bread, once it has the lock: the buffer holds the last contents given to its block. */
    method Fill(b: int)
      requires Valid() && b in locked && buf[b].key in disk && buf[b].key.dev != 0
      modifies buf
      ensures Valid() && buf[b].valid && (buf[b].key in latest ==> buf[b].data == latest[buf[b].key])
      ensures !old(buf[b]).valid ==> buf[b].data == old(disk[buf[b].key])
      ensures buf[..] == old(buf[..])[b := old(buf[b]).(valid := true, data := buf[b].data)]
    {
      ghost var bufs := buf[..];
      if !buf[b].valid {
        buf[b] := buf[b].(data := disk[buf[b].key], valid := true);
        Filled(bufs, touched, disk, latest, b);
        assert buf[..] == bufs[b := buf[b]];
      } else {
        assert Agrees(bufs[b], b in touched, disk, latest);
        assert bufs[b := bufs[b].(valid := true, data := bufs[b].data)] == bufs;
      }
    }

    /** The holder changes the data. */
    method Change(b: int, x: Block)
      requires Valid() && b in locked && buf[b].valid && buf[b].key.dev != 0
      modifies buf, `touched, `latest
      ensures Valid() && touched == old(touched) + {b} && latest == old(latest)[buf[b].key := x]
      ensures buf[..] == old(buf[..])[b := old(buf[b]).(data := x)]
    {
      ghost var bufs := buf[..];
      Changed(bufs, touched, disk, latest, b, x);
      buf[b] := buf[b].(data := x);
      touched, latest := touched + {b}, latest[buf[b].key := x];
      assert buf[..] == bufs[b := buf[b]];
    }

    /** bwrite: B_DIRTY goes up, iderw writes the block and takes it down. */
    method Bwrite(b: int)
      requires Valid() && b in locked && buf[b].valid && buf[b].key.dev != 0
      modifies buf, `touched, `disk, `latest
      ensures Valid() && touched == old(touched) - {b} && disk == old(disk)[buf[b].key := buf[b].data]
      ensures latest == old(latest)[buf[b].key := buf[b].data]
      ensures buf[..] == old(buf[..])[b := old(buf[b]).(dirty := false)]
    {
      ghost var bufs := buf[..];
      Written(bufs, touched, disk, latest, b);
      buf[b] := buf[b].(dirty := true);
      disk := disk[buf[b].key := buf[b].data];
      buf[b] := buf[b].(dirty := false);
      touched, latest := touched - {b}, latest[buf[b].key := buf[b].data];
      assert buf[..] == bufs[b := buf[b]];
    }

    /** log_write's mark: the buffer stays in the cache until install_trans writes it home. */
    method MarkDirty(b: int)
      requires Valid() && b in locked && buf[b].valid
      modifies buf, `touched, `latest
      ensures Valid() && touched == old(touched) - {b} && latest == Given(old(latest), buf[b])
      ensures buf[..] == old(buf[..])[b := old(buf[b]).(dirty := true)]
    {
      ghost var bufs := buf[..];
      Marked(bufs, touched, disk, latest, b);
      buf[b] := buf[b].(dirty := true);
      touched, latest := touched - {b}, Given(latest, buf[b]);
      assert buf[..] == bufs[b := buf[b]];
    }

    /** brelse; its two sections are taken as one. A buffer nobody waits for goes to the front. */
    method Brelse(b: int)
      requires Valid() && b in locked
      modifies buf, `locked, `k, `order, `touched, `latest
      ensures Valid() && locked == old(locked) - {b} && touched == old(touched) - {b}
      ensures latest == old(LetGo(buf[..], touched, latest, b))
      ensures buf[..] == old(buf[..])[b := old(buf[b]).(refcnt := old(buf[b]).refcnt - 1)]
      ensures old(buf[b]).refcnt > 1 ==> order == old(order)
      ensures old(buf[b]).refcnt == 1 ==> order == [b] + Lists.Remove(old(order), b)
    {
      ghost var bufs := buf[..];
      var x := buf[b].(refcnt := buf[b].refcnt - 1);
      Released(bufs, touched, disk, latest, b);
      locked := locked - {b};
      touched, latest := touched - {b}, LetGo(bufs, touched, latest, b);
      buf[b] := x;
      assert buf[..] == bufs[b := x];
      if buf[b].refcnt == 0 {
        MoveToFront(b);
      }
    }
  }
}
