/** log.c over the flat disk: the header block's format, and the loops of
    write_log, write_head, install_trans, read_head, log_write and the functions
    built from them. Each is proved to issue exactly the block writes of RedoLog. */
module LogOnDisk {
  import opened Blocks
  import Lists
  import opened RedoLog

  predicate HeaderOk(b: Block) {
    b.Valid() && 0 <= Word(b, 0) <= LOGSIZE
  }

  /** The logged block numbers that a header block lists. */
  function HeadOf(b: Block): seq<int>
    requires HeaderOk(b)
  {
    seq(Word(b, 0), i requires 0 <= i < Word(b, 0) => Word(b, 1 + i))
  }

  predicate OnDisk(start: int, size: int, disk: seq<Block>) {
    0 <= start && 0 < size && start + size <= |disk| <= WORD_LIMIT && HeaderOk(disk[start])
  }

  function SlotAt(start: int, disk: seq<Block>, i: int): Block
    requires 0 <= start + 1 + i < |disk|
  {
    disk[start + 1 + i]
  }

  predicate IsHome(start: int, size: int, disk: seq<Block>, b: int) {
    0 <= b < |disk| && !(start <= b < start + size)
  }

  /** The home blocks are the same on `was` and on `disk`. */
  ghost predicate SameHome(start: int, size: int, was: seq<Block>, disk: seq<Block>) {
    |disk| == |was| && forall b :: IsHome(start, size, disk, b) ==> disk[b] == was[b]
  }

  /** The disk as header, slots and home blocks. */
  ghost function Split(start: int, size: int, disk: seq<Block>): LogDisk
    requires OnDisk(start, size, disk)
  {
    LogDisk(HeadOf(disk[start]),
            map i | 0 <= i < size - 1 :: SlotAt(start, disk, i),
            map b | 0 <= b < |disk| && IsHome(start, size, disk, b) :: disk[b])
  }

  lemma SplitHead(start: int, size: int, disk: seq<Block>, hb: Block)
    requires OnDisk(start, size, disk) && HeaderOk(hb)
    ensures Split(start, size, disk[start := hb]) == Apply1(Split(start, size, disk), HeadW(HeadOf(hb)))
  {
  }

  lemma SplitSlot(start: int, size: int, disk: seq<Block>, i: int, x: Block)
    requires OnDisk(start, size, disk) && 0 <= i < size - 1
    ensures Split(start, size, disk[start + 1 + i := x]) == Apply1(Split(start, size, disk), SlotW(i, x))
  {
  }

  lemma SplitHome(start: int, size: int, disk: seq<Block>, b: int, x: Block)
    requires OnDisk(start, size, disk) && IsHome(start, size, disk, b)
    ensures Split(start, size, disk[b := x]) == Apply1(Split(start, size, disk), HomeW(b, x))
  {
  }

  /** The first `n` log slots. */
  ghost function SlotSeq(start: int, disk: seq<Block>, n: int): seq<Block>
    requires 0 <= start && 0 <= n && start + 1 + n <= |disk|
  {
    seq(n, i requires 0 <= i < n => SlotAt(start, disk, i))
  }

  /** bread: the pinned buffer if there is one, else the disk block. */
  function Bread(disk: seq<Block>, pinned: map<int, Block>, b: int): Block
    requires 0 <= b < |disk|
  {
    if b in pinned then pinned[b] else disk[b]
  }

  /** The contents that commit() copies to the log for the blocks `lh`. */
  ghost function Snapshot(disk: seq<Block>, pinned: map<int, Block>, lh: seq<int>): seq<Block>
    requires forall i :: 0 <= i < |lh| ==> 0 <= lh[i] < |disk|
  {
    seq(|lh|, i requires 0 <= i < |lh| => Bread(disk, pinned, lh[i]))
  }

  lemma SlotWritesNext(d: LogDisk, data: seq<Block>, k: nat)
    requires k < |data|
    ensures SlotWrites(data)[..k + 1] == SlotWrites(data)[..k] + [SlotW(k, data[k])]
    ensures Apply(d, SlotWrites(data)[..k + 1]) == Apply1(Apply(d, SlotWrites(data)[..k]), SlotW(k, data[k]))
  {
    ApplySnoc(d, SlotWrites(data)[..k], SlotW(k, data[k]));
    assert SlotWrites(data)[..k + 1] == SlotWrites(data)[..k] + [SlotW(k, data[k])];
  }

  lemma HomeWritesNext(d: LogDisk, bs: seq<int>, data: seq<Block>, k: nat)
    requires |bs| == |data| && k < |data|
    ensures HomeWrites(bs, data)[..k + 1] == HomeWrites(bs, data)[..k] + [HomeW(bs[k], data[k])]
    ensures Apply(d, HomeWrites(bs, data)[..k + 1]) == Apply1(Apply(d, HomeWrites(bs, data)[..k]), HomeW(bs[k], data[k]))
  {
    ApplySnoc(d, HomeWrites(bs, data)[..k], HomeW(bs[k], data[k]));
    assert HomeWrites(bs, data)[..k + 1] == HomeWrites(bs, data)[..k] + [HomeW(bs[k], data[k])];
  }

  lemma AfterHeader(d: LogDisk, bs: seq<int>, data: seq<Block>)
    requires |bs| == |data|
    ensures var e := Apply1(Apply(d, SlotWrites(data)), HeadW(bs));
            forall i :: 0 <= i < |bs| ==> i in e.slot && e.slot[i] == data[i]
  {
    ApplySlots(d, data, |data|);
    assert SlotWrites(data)[..|data|] == SlotWrites(data);
  }

  lemma CommitInParts(d: LogDisk, bs: seq<int>, data: seq<Block>)
    requires |bs| == |data| > 0
    ensures Apply(d, CommitWrites(bs, data)) ==
            Apply1(Apply(Apply1(Apply(d, SlotWrites(data)), HeadW(bs)), HomeWrites(bs, data)), HeadW([]))
  {
    ApplySnoc(d, SlotWrites(data), HeadW(bs));
    ApplyAppend(d, SlotWrites(data) + [HeadW(bs)], HomeWrites(bs, data));
    ApplySnoc(d, SlotWrites(data) + [HeadW(bs)] + HomeWrites(bs, data), HeadW([]));
  }

  lemma TraceInParts(t: seq<Write>, a: seq<Write>, b: seq<Write>, c: seq<Write>, d: seq<Write>)
    ensures t + a + b + c + d == t + (a + b + c + d)
  {
  }

  lemma TraceNext(t: seq<Write>, ws: seq<Write>, k: int)
    requires 0 <= k < |ws|
    ensures t + ws[..k] + [ws[k]] == t + ws[..k + 1]
  {
  }

  lemma UnpinNext(pinned: map<int, Block>, bs: seq<int>, b: int)
    ensures pinned - (set x | x in bs) - {b} == pinned - (set x | x in bs + [b])
  {
  }

  class Log {
    const start: int
    const size: int
    var disk: seq<Block>
    var lh: seq<int>               // log.lh.block[0..log.lh.n]
    var pinned: map<int, Block>    // contents of the B_DIRTY buffers
    var outstanding: int
    var committing: bool
    ghost var trace: seq<Write>    // block writes issued so far

    ghost predicate Valid()
      reads this
    {
      && OnDisk(start, size, disk)
      && |lh| <= LOGSIZE && |lh| < size && Lists.Distinct(lh)
      && (forall i :: 0 <= i < |lh| ==> IsHome(start, size, disk, lh[i]))
    }

    ghost function View(): LogDisk
      reads this
      requires OnDisk(start, size, disk)
    {
      Split(start, size, disk)
    }

    constructor (disk: seq<Block>, start: int, size: int)
      requires OnDisk(start, size, disk)
      ensures Valid() && this.disk == disk && this.start == start && this.size == size
      ensures lh == [] && pinned == map[] && outstanding == 0 && !committing && trace == []
    {
      this.disk, this.start, this.size := disk, start, size;
      lh, pinned, outstanding, committing, trace := [], map[], 0, false, [];
    }

    /** write_head: overwrite the count and the entries in use, then one block write. */
    method WriteHead()
      requires Valid()
      modifies this`disk, this`trace
      ensures Valid() && View() == Apply1(old(View()), HeadW(lh))
      ensures trace == old(trace) + [HeadW(lh)]
    {
      var hb := SetWord(disk[start], 0, |lh|);
      for i := 0 to |lh|
        invariant hb.Valid() && Word(hb, 0) == |lh|
        invariant forall j :: 0 <= j < i ==> Word(hb, 1 + j) == lh[j]
      {
        hb := SetWord(hb, 1 + i, lh[i]);
      }
      assert HeadOf(hb) == lh;
      SplitHead(start, size, disk, hb);
      disk := disk[start := hb];
      trace := trace + [HeadW(lh)];
    }

    /** read_head. */
    method ReadHead()
      requires Valid() && View().Valid()
      modifies this`lh
      ensures Valid() && lh == View().head
    {
      var n := Word(disk[start], 0);
      var bs: seq<int> := [];
      for i := 0 to n
        invariant |bs| == i && forall j :: 0 <= j < i ==> bs[j] == Word(disk[start], 1 + j)
      {
        bs := bs + [Word(disk[start], 1 + i)];
      }
      assert bs == View().head;
      assert forall i :: 0 <= i < |bs| ==> View().head[i] in View().home;
      assert n > 0 ==> n - 1 in View().slot;
      lh := bs;
    }

    /** bwrite of log block `start + 1 + i`. */
    method BwriteSlot(i: int, x: Block)
      requires OnDisk(start, size, disk) && 0 <= i < size - 1
      modifies this`disk, this`trace
      ensures OnDisk(start, size, disk) && |disk| == old(|disk|)
      ensures View() == Apply1(old(View()), SlotW(i, x)) && trace == old(trace) + [SlotW(i, x)]
      ensures SameHome(start, size, old(disk), disk)
    {
      SplitSlot(start, size, disk, i, x);
      disk := disk[start + 1 + i := x];
      trace := trace + [SlotW(i, x)];
    }

    /** bwrite of home block `b`, which clears B_DIRTY. */
    method BwriteHome(b: int, x: Block)
      requires OnDisk(start, size, disk) && IsHome(start, size, disk, b)
      modifies this`disk, this`trace, this`pinned
      ensures OnDisk(start, size, disk) && |disk| == old(|disk|)
      ensures View() == Apply1(old(View()), HomeW(b, x)) && trace == old(trace) + [HomeW(b, x)]
      ensures pinned == old(pinned) - {b}
      ensures forall i :: 0 <= i < size - 1 ==> SlotAt(start, disk, i) == old(SlotAt(start, disk, i))
    {
      SplitHome(start, size, disk, b, x);
      disk := disk[b := x];
      pinned := pinned - {b};
      trace := trace + [HomeW(b, x)];
    }

    /** One turn of write_log's loop. */
    method LogBlock(tail: int, ghost was: seq<Block>)
      requires Valid() && 0 <= tail < |lh| && SameHome(start, size, was, disk)
      modifies this`disk, this`trace
      ensures Valid() && SameHome(start, size, was, disk)
      ensures 0 <= lh[tail] < |was|
      ensures var w := SlotW(tail, Bread(was, pinned, lh[tail]));
              View() == Apply1(old(View()), w) && trace == old(trace) + [w]
    {
      assert IsHome(start, size, disk, lh[tail]);
      var from := Bread(disk, pinned, lh[tail]);
      BwriteSlot(tail, from);
    }

    /** write_log: copy the modified blocks from the cache to the log slots. */
    method WriteLog()
      requires Valid()
      modifies this`disk, this`trace
      ensures Valid() && View() == Apply(old(View()), SlotWrites(old(Snapshot(disk, pinned, lh))))
      ensures trace == old(trace) + SlotWrites(old(Snapshot(disk, pinned, lh)))
    {
      ghost var data, d0 := Snapshot(disk, pinned, lh), View();
      ghost var ws := SlotWrites(data);
      var tail := 0;
      while tail < |lh|
        invariant tail <= |lh| && Valid() && SameHome(start, size, old(disk), disk)
        invariant View() == Apply(d0, ws[..tail]) && trace == old(trace) + ws[..tail]
      {
        LogBlock(tail, old(disk));
        assert data[tail] == Bread(old(disk), pinned, lh[tail]);
        SlotWritesNext(d0, data, tail);
        TraceNext(old(trace), ws, tail);
        tail := tail + 1;
      }
      assert ws[..tail] == ws;
    }

    /** install_trans: copy the logged blocks from the log to their home locations. */
    method InstallTrans()
      requires Valid()
      modifies this`disk, this`trace, this`pinned
      ensures Valid()
      ensures var ws := HomeWrites(lh, old(SlotSeq(start, disk, |lh|)));
              View() == Apply(old(View()), ws) && trace == old(trace) + ws
      ensures pinned == old(pinned) - (set b | b in lh)
    {
      ghost var data, d0 := SlotSeq(start, disk, |lh|), View();
      ghost var ws := HomeWrites(lh, data);
      var tail := 0;
      while tail < |lh|
        invariant tail <= |lh| && OnDisk(start, size, disk) && |disk| == old(|disk|)
        invariant forall i :: 0 <= i < size - 1 ==> SlotAt(start, disk, i) == old(SlotAt(start, disk, i))
        invariant View() == Apply(d0, ws[..tail]) && trace == old(trace) + ws[..tail]
        invariant pinned == old(pinned) - (set b | b in lh[..tail])
      {
        var lbuf := SlotAt(start, disk, tail);
        assert lbuf == data[tail];
        BwriteHome(lh[tail], lbuf);
        HomeWritesNext(d0, lh, data, tail);
        TraceNext(old(trace), ws, tail);
        UnpinNext(old(pinned), lh[..tail], lh[tail]);
        assert lh[..tail + 1] == lh[..tail] + [lh[tail]];
        tail := tail + 1;
      }
      assert ws[..tail] == ws && lh[..tail] == lh;
    }

    /** commit up to its commit point. */
    method LogAndHead()
      requires Valid() && View().Valid()
      modifies this`disk, this`trace
      ensures Valid() && SlotSeq(start, disk, |lh|) == old(Snapshot(disk, pinned, lh))
      ensures var ws := SlotWrites(old(Snapshot(disk, pinned, lh)));
              View() == Apply1(Apply(old(View()), ws), HeadW(lh)) && trace == old(trace) + ws + [HeadW(lh)]
    {
      ghost var d0, bs, data := View(), lh, Snapshot(disk, pinned, lh);
      WriteLog();
      WriteHead();
      AfterHeader(d0, bs, data);
      assert forall i :: 0 <= i < |bs| ==> View().slot[i] == SlotAt(start, disk, i);
    }

    /** commit. */
    method Commit()
      requires Valid() && View().Valid() && View().head == []
      modifies this`disk, this`trace, this`pinned, this`lh
      ensures Valid() && lh == []
      ensures var ws := CommitWrites(old(lh), old(Snapshot(disk, pinned, lh)));
              View() == Apply(old(View()), ws) && trace == old(trace) + ws
      ensures pinned == old(pinned) - (set b | b in old(lh))
    {
      if |lh| > 0 {
        ghost var d0, bs, data := View(), lh, Snapshot(disk, pinned, lh);
        LogAndHead();
        InstallTrans();
        lh := [];
        WriteHead();
        CommitInParts(d0, bs, data);
        TraceInParts(old(trace), SlotWrites(data), [HeadW(bs)], HomeWrites(bs, data), [HeadW([])]);
      }
    }

    /** recover_from_log. */
    method RecoverFromLog()
      requires Valid() && View().Valid()
      modifies this`disk, this`trace, this`pinned, this`lh
      ensures Valid() && lh == []
      ensures View() == Apply(old(View()), RecoveryWrites(old(View())))
      ensures trace == old(trace) + RecoveryWrites(old(View()))
    {
      ghost var d0 := View();
      ReadHead();
      assert SlotSeq(start, disk, |lh|) == Slots(d0);
      InstallTrans();
      ghost var ws := HomeWrites(d0.head, Slots(d0));
      assert View() == Apply(d0, ws) && trace == old(trace) + ws;
      ApplySnoc(d0, ws, HeadW([]));
      assert RecoveryWrites(d0) == ws + [HeadW([])] && old(trace) + ws + [HeadW([])] == old(trace) + (ws + [HeadW([])]);
      lh := [];
      WriteHead();
    }

    /** One turn of begin_op's loop: false means sleep and try again. */
    method BeginOp() returns (started: bool)
      modifies this`outstanding
      ensures started <==> !committing && |lh| + (old(outstanding) + 1) * MAXOPBLOCKS <= LOGSIZE
      ensures outstanding == old(outstanding) + if started then 1 else 0
    {
      started := false;
      if !committing && |lh| + (outstanding + 1) * MAXOPBLOCKS <= LOGSIZE {
        outstanding := outstanding + 1;
        started := true;
      }
    }

    /** end_op; false is its panic. The last operation commits all that the group has logged. */
    method EndOp() returns (ok: bool)
      requires Valid() && View().Valid() && View().head == []
      modifies this
      ensures Valid() && ok == !old(committing) && committing == old(committing) && outstanding == old(outstanding) - 1
      ensures ok && old(outstanding) == 1 ==> lh == [] && pinned == old(pinned) - (set b | b in old(lh))
      ensures ok && old(outstanding) == 1 ==>
        var ws := CommitWrites(old(lh), old(Snapshot(disk, pinned, lh)));
        View() == Apply(old(View()), ws) && trace == old(trace) + ws
      ensures !(ok && old(outstanding) == 1) ==>
        disk == old(disk) && trace == old(trace) && lh == old(lh) && pinned == old(pinned)
    {
      outstanding := outstanding - 1;
      if committing { return false; }
      if outstanding == 0 {
        committing := true;
        Commit();
        committing := false;
      }
      ok := true;
    }

    /** log_write of a buffer with content `x`; false is one of its two panics. */
    method LogWrite(b: int, x: Block) returns (ok: bool)
      requires Valid() && IsHome(start, size, disk, b)
      modifies this`lh, this`pinned
      ensures Valid()
      ensures ok <==> old(|lh|) < LOGSIZE && old(|lh|) < size - 1 && outstanding >= 1
      ensures ok ==> lh == (if b in old(lh) then old(lh) else old(lh) + [b])
      ensures ok ==> pinned == old(pinned)[b := x]
      ensures !ok ==> lh == old(lh) && pinned == old(pinned)
    {
      if |lh| >= LOGSIZE || |lh| >= size - 1 || outstanding < 1 {
        return false;
      }
      var i := 0;
      while i < |lh| && lh[i] != b
        invariant i <= |lh| && forall j :: 0 <= j < i ==> lh[j] != b
      {
        i := i + 1;
      }
      if i == |lh| {
        lh := lh + [b];
      } else {
        lh := lh[i := b];
      }
      pinned := pinned[b := x];
      ok := true;
    }
  }
}
