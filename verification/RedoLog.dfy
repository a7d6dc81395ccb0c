/** The redo log of log.c seen as block writes: what `commit` and
    `recover_from_log` write, in which order, and what a stop between any two of
    those writes leaves behind. `LogDisk` splits the disk into the header block,
    the log slots and the home blocks; module LogOnDisk ties it to the flat disk. */
module RedoLog {
  import opened Blocks
  import Lists

  const MAXOPBLOCKS := 10
  const LOGSIZE := 30

  /** The header's block numbers, the log slots, and every block outside the log. */
  datatype LogDisk = LogDisk(head: seq<int>, slot: map<int, Block>, home: map<int, Block>) {
    /** Logged block numbers are distinct, are home blocks, and have a log slot. */
    predicate Valid() {
      && Lists.Distinct(head)
      && forall i :: 0 <= i < |head| ==> head[i] in home && i in slot
    }
  }

  /** One atomic block write. */
  datatype Write = SlotW(i: int, data: Block) | HeadW(bs: seq<int>) | HomeW(bno: int, data: Block)

  function Apply1(d: LogDisk, w: Write): LogDisk {
    match w
    case SlotW(i, x) => d.(slot := d.slot[i := x])
    case HeadW(bs) => d.(head := bs)
    case HomeW(b, x) => d.(home := d.home[b := x])
  }

  function Apply(d: LogDisk, ws: seq<Write>): LogDisk {
    if ws == [] then d else Apply1(Apply(d, ws[..|ws| - 1]), ws[|ws| - 1])
  }

  lemma ApplySnoc(d: LogDisk, ws: seq<Write>, w: Write)
    ensures Apply(d, ws + [w]) == Apply1(Apply(d, ws), w)
  {
    assert (ws + [w])[..|ws|] == ws;
  }

  lemma {:induction false} ApplyAppend(d: LogDisk, u: seq<Write>, v: seq<Write>)
    ensures Apply(d, u + v) == Apply(Apply(d, u), v)
  {
    if v == [] {
      assert u + v == u;
    } else {
      var k := |v| - 1;
      ApplyAppend(d, u, v[..k]);
      assert (u + v)[..|u + v| - 1] == u + v[..k];
    }
  }

  /** Home block `b` once the log has been replayed. */
  ghost function Durable(d: LogDisk, b: int): Block
    requires d.Valid() && b in d.home
  {
    if b in d.head then
      var i :| 0 <= i < |d.head| && d.head[i] == b;
      d.slot[i]
    else d.home[b]
  }

  ghost function DurableMap(d: LogDisk): map<int, Block>
    requires d.Valid()
  {
    map b | b in d.home :: Durable(d, b)
  }

  // ---------- what commit and recovery write ----------

  function SlotWrites(data: seq<Block>): seq<Write> {
    seq(|data|, i requires 0 <= i < |data| => SlotW(i, data[i]))
  }

  function HomeWrites(bs: seq<int>, data: seq<Block>): seq<Write>
    requires |bs| == |data|
  {
    seq(|bs|, i requires 0 <= i < |bs| => HomeW(bs[i], data[i]))
  }

  /** `commit`: `write_log`, `write_head`, `install_trans`, `write_head`. */
  function CommitWrites(bs: seq<int>, data: seq<Block>): seq<Write>
    requires |bs| == |data|
  {
    if bs == [] then []
    else SlotWrites(data) + [HeadW(bs)] + HomeWrites(bs, data) + [HeadW([])]
  }

  lemma CommitWriteAt(bs: seq<int>, data: seq<Block>, k: nat)
    requires |bs| == |data| && k < |CommitWrites(bs, data)|
    ensures CommitWrites(bs, data)[k] ==
            (if k < |bs| then SlotW(k, data[k])
             else if k == |bs| then HeadW(bs)
             else if k <= 2 * |bs| then HomeW(bs[k - |bs| - 1], data[k - |bs| - 1])
             else HeadW([]))
  {
  }

  function Slots(d: LogDisk): seq<Block>
    requires d.Valid()
  {
    seq(|d.head|, i requires 0 <= i < |d.head| => d.slot[i])
  }

  /** `recover_from_log`: `read_head`, `install_trans`, `write_head`. */
  function RecoveryWrites(d: LogDisk): seq<Write>
    requires d.Valid()
  {
    HomeWrites(d.head, Slots(d)) + [HeadW([])]
  }

  /** `was` overwritten with the transaction's blocks. */
  function Overwrite(was: map<int, Block>, bs: seq<int>, data: seq<Block>): map<int, Block>
    requires |bs| == |data|
  {
    if bs == [] then was
    else var k := |bs| - 1; Overwrite(was, bs[..k], data[..k])[bs[k] := data[k]]
  }

  lemma {:induction false} OverwriteIn(was: map<int, Block>, bs: seq<int>, data: seq<Block>, b: int)
    requires |bs| == |data|
    ensures b in Overwrite(was, bs, data) <==> b in was || b in bs
    ensures b in was && b !in bs ==> Overwrite(was, bs, data)[b] == was[b]
    decreases |bs|
  {
    if bs != [] {
      var k := |bs| - 1;
      OverwriteIn(was, bs[..k], data[..k], b);
      InInit(bs);
    }
  }

  lemma {:induction false} OverwriteIth(was: map<int, Block>, bs: seq<int>, data: seq<Block>, i: nat)
    requires |bs| == |data| && Lists.Distinct(bs) && i < |bs|
    ensures bs[i] in Overwrite(was, bs, data) && Overwrite(was, bs, data)[bs[i]] == data[i]
    decreases |bs|
  {
    var k := |bs| - 1;
    if i < k {
      OverwriteIth(was, bs[..k], data[..k], i);
    }
  }

  lemma OverwriteAt(was: map<int, Block>, bs: seq<int>, data: seq<Block>)
    requires |bs| == |data| && Lists.Distinct(bs)
    ensures var m := Overwrite(was, bs, data);
            && (forall b :: b in m <==> b in was || b in bs)
            && (forall i :: 0 <= i < |bs| ==> m[bs[i]] == data[i])
            && (forall b :: b in was && b !in bs ==> m[b] == was[b])
  {
    var m := Overwrite(was, bs, data);
    forall b ensures (b in m <==> b in was || b in bs) && (b in was && b !in bs ==> m[b] == was[b]) {
      OverwriteIn(was, bs, data, b);
    }
    forall i | 0 <= i < |bs| ensures m[bs[i]] == data[i] {
      OverwriteIth(was, bs, data, i);
    }
  }

  lemma InInit(bs: seq<int>)
    requires bs != []
    ensures var k := |bs| - 1; forall b :: b in bs <==> b in bs[..k] || b == bs[k]
  {
    var k := |bs| - 1;
    assert bs == bs[..k] + [bs[k]];
  }

  lemma {:induction false} ApplySlots(d: LogDisk, data: seq<Block>, k: nat)
    requires k <= |data|
    ensures var e := Apply(d, SlotWrites(data)[..k]);
            && e.head == d.head && e.home == d.home
            && (forall i :: 0 <= i < k ==> i in e.slot && e.slot[i] == data[i])
            && d.slot.Keys <= e.slot.Keys
  {
    if k > 0 {
      ApplySlots(d, data, k - 1);
      assert SlotWrites(data)[..k][..k - 1] == SlotWrites(data)[..k - 1];
    }
  }

  lemma {:induction false} ApplyHomes(d: LogDisk, bs: seq<int>, data: seq<Block>, k: nat)
    requires |bs| == |data| && k <= |bs|
    ensures Apply(d, HomeWrites(bs, data)[..k]) == d.(home := Overwrite(d.home, bs[..k], data[..k]))
  {
    if k > 0 {
      ApplyHomes(d, bs, data, k - 1);
      assert HomeWrites(bs, data)[..k][..k - 1] == HomeWrites(bs, data)[..k - 1];
      assert bs[..k][..k - 1] == bs[..k - 1] && data[..k][..k - 1] == data[..k - 1];
    }
  }

  // ---------- atomicity ----------

  /** What is durable, block by block. */
  lemma DurableIs(d: LogDisk, b: int)
    requires d.Valid() && b in d.home
    ensures forall i :: 0 <= i < |d.head| && d.head[i] == b ==> Durable(d, b) == d.slot[i]
    ensures b !in d.head ==> Durable(d, b) == d.home[b]
  {
  }

  lemma OverwriteKeys(was: map<int, Block>, bs: seq<int>, data: seq<Block>)
    requires |bs| == |data| && Lists.Distinct(bs) && forall i :: 0 <= i < |bs| ==> bs[i] in was
    ensures Overwrite(was, bs, data).Keys == was.Keys
  {
    OverwriteAt(was, bs, data);
    assert forall b :: b in bs ==> b in was;
  }

  lemma OverwriteDurable(d: LogDisk, k: nat, b: int)
    requires d.Valid() && k <= |d.head| && b in d.home
    requires d.(home := Overwrite(d.home, d.head[..k], Slots(d)[..k])).Valid()
    requires b in Overwrite(d.home, d.head[..k], Slots(d)[..k])
    ensures Durable(d.(home := Overwrite(d.home, d.head[..k], Slots(d)[..k])), b) == Durable(d, b)
  {
    var e := d.(home := Overwrite(d.home, d.head[..k], Slots(d)[..k]));
    DurableIs(d, b);
    DurableIs(e, b);
    if b !in d.head {
      OverwriteAt(d.home, d.head[..k], Slots(d)[..k]);
      assert b !in d.head[..k];
    } else {
      var i :| 0 <= i < |d.head| && d.head[i] == b;
      assert Durable(d, b) == d.slot[i] == Durable(e, b);
    }
  }

  lemma OverwriteLogged(d: LogDisk, k: nat)
    requires d.Valid() && k <= |d.head|
    ensures var e := d.(home := Overwrite(d.home, d.head[..k], Slots(d)[..k]));
            e.Valid() && DurableMap(e) == DurableMap(d)
  {
    var e := d.(home := Overwrite(d.home, d.head[..k], Slots(d)[..k]));
    OverwriteKeys(d.home, d.head[..k], Slots(d)[..k]);
    forall b | b in d.home ensures Durable(e, b) == Durable(d, b) { OverwriteDurable(d, k, b); }
  }

  /** Installing part of the log changes nothing durable. */
  lemma InstallPartly(d: LogDisk, k: nat)
    requires d.Valid() && k <= |d.head|
    ensures var e := Apply(d, HomeWrites(d.head, Slots(d))[..k]);
            && e.Valid() && e.head == d.head && e.slot == d.slot && DurableMap(e) == DurableMap(d)
  {
    ApplyHomes(d, d.head, Slots(d), k);
    OverwriteLogged(d, k);
  }

  /** Installing all of it and clearing the header changes nothing durable either,
      and leaves every home block at its durable content. */
  lemma InstallFully(d: LogDisk)
    requires d.Valid()
    ensures var e := Apply(d, RecoveryWrites(d));
            && e.Valid() && e.head == [] && e.slot == d.slot
            && e.home == DurableMap(d) == DurableMap(e)
  {
    var bs, n := d.head, |d.head|;
    ApplySnoc(d, HomeWrites(bs, Slots(d)), HeadW([]));
    ApplyHomes(d, bs, Slots(d), n);
    assert HomeWrites(bs, Slots(d))[..n] == HomeWrites(bs, Slots(d)) && bs[..n] == bs && Slots(d)[..n] == Slots(d);
    OverwriteIsDurable(d);
    var e := Apply(d, RecoveryWrites(d));
    assert DurableMap(e) == e.home;
  }

  /** Home blocks overwritten with all of the log. */
  lemma OverwriteIsDurable(d: LogDisk)
    requires d.Valid()
    ensures Overwrite(d.home, d.head, Slots(d)) == DurableMap(d)
  {
    var m := Overwrite(d.home, d.head, Slots(d));
    OverwriteKeys(d.home, d.head, Slots(d));
    OverwriteAt(d.home, d.head, Slots(d));
    forall b | b in d.home ensures m[b] == Durable(d, b) {
      DurableIs(d, b);
      if b in d.head {
        var i :| 0 <= i < |d.head| && d.head[i] == b;
        assert m[d.head[i]] == Slots(d)[i];
      }
    }
  }

  /** The transaction can be logged: distinct home blocks, each with a log slot. */
  predicate Loggable(d: LogDisk, bs: seq<int>) {
    Lists.Distinct(bs) && forall i :: 0 <= i < |bs| ==> bs[i] in d.home && i in d.slot
  }

  /** The disk right after the commit point: header and slots hold the transaction. */
  lemma AtCommitPoint(d: LogDisk, bs: seq<int>, data: seq<Block>)
    requires d.Valid() && d.head == [] && Loggable(d, bs) && |bs| == |data|
    ensures var e := Apply(d, SlotWrites(data) + [HeadW(bs)]);
            && e.Valid() && e.head == bs && Slots(e) == data && e.home == d.home && d.slot.Keys <= e.slot.Keys
            && DurableMap(e) == Overwrite(d.home, bs, data)
  {
    ApplySnoc(d, SlotWrites(data), HeadW(bs));
    ApplySlots(d, data, |data|);
    assert SlotWrites(data)[..|data|] == SlotWrites(data);
    var e := Apply(d, SlotWrites(data) + [HeadW(bs)]);
    assert Slots(e) == data;
    OverwriteIsDurable(e);
  }

  /** The writes of commit up to the k-th, from the commit point on. */
  lemma CommitPrefix(bs: seq<int>, data: seq<Block>, k: nat)
    requires |bs| == |data| && |bs| < k <= |CommitWrites(bs, data)|
    ensures var c := SlotWrites(data) + [HeadW(bs)]; var hs := HomeWrites(bs, data);
      CommitWrites(bs, data)[..k] == if k <= 2 * |bs| + 1 then c + hs[..k - |bs| - 1] else c + (hs + [HeadW([])])
  {
    var c, hs, ws := SlotWrites(data) + [HeadW(bs)], HomeWrites(bs, data), CommitWrites(bs, data);
    assert ws == c + (hs + [HeadW([])]);
    assert |c| == |bs| + 1;
    if k <= 2 * |bs| + 1 {
      PrefixOfAppend(c, hs + [HeadW([])], k);
      PrefixOfLeft(hs, [HeadW([])], k - |c|);
    } else {
      assert ws[..k] == ws;
    }
  }

  lemma PrefixOfAppend(u: seq<Write>, v: seq<Write>, k: nat)
    requires |u| <= k <= |u + v|
    ensures (u + v)[..k] == u + v[..k - |u|]
  {
  }

  lemma PrefixOfLeft(u: seq<Write>, v: seq<Write>, k: nat)
    requires k <= |u|
    ensures (u + v)[..k] == u[..k]
  {
  }

  /** Once the header is written: installing and the last write. */
  lemma AfterCommitPoint(d: LogDisk, bs: seq<int>, data: seq<Block>, k: nat)
    requires d.Valid() && d.head == [] && Loggable(d, bs) && |bs| == |data|
    requires |bs| < k <= |CommitWrites(bs, data)|
    ensures var e := Apply(d, CommitWrites(bs, data)[..k]);
            && e.Valid() && d.slot.Keys <= e.slot.Keys && DurableMap(e) == Overwrite(d.home, bs, data)
            && (if k == |CommitWrites(bs, data)| then e.head == [] && e.home == DurableMap(e) else e.head == bs)
  {
    var n, c := |bs|, SlotWrites(data) + [HeadW(bs)];
    var dc := Apply(d, c);
    AtCommitPoint(d, bs, data);
    CommitPrefix(bs, data, k);
    if k <= 2 * n + 1 {
      ApplyAppend(d, c, HomeWrites(bs, data)[..k - n - 1]);
      InstallPartly(dc, k - n - 1);
    } else {
      ApplyAppend(d, c, RecoveryWrites(dc));
      InstallFully(dc);
    }
  }

  /** Crash atomicity of `commit`: after any number `k` of its writes the durable
      contents are all old (the header is not yet written) or all new. */
  lemma CommitAtomic(d: LogDisk, bs: seq<int>, data: seq<Block>, k: nat)
    requires d.Valid() && d.head == [] && Loggable(d, bs) && |bs| == |data|
    requires k <= |CommitWrites(bs, data)|
    ensures var e := Apply(d, CommitWrites(bs, data)[..k]);
            && e.Valid() && d.slot.Keys <= e.slot.Keys
            && DurableMap(e) == (if k <= |bs| then d.home else Overwrite(d.home, bs, data))
            && (k == |CommitWrites(bs, data)| ==> e.head == [] && e.home == DurableMap(e))
            && (k <= |bs| ==> e.home == d.home && e.head == [])
            && (e.head == [] || e.head == bs)
  {
    if k <= |bs| {
      assert CommitWrites(bs, data)[..k] == SlotWrites(data)[..k];
      ApplySlots(d, data, k);
      var e := Apply(d, CommitWrites(bs, data)[..k]);
      assert DurableMap(e) == e.home;
    } else {
      AfterCommitPoint(d, bs, data, k);
    }
  }

  /** Home blocks outside the transaction are never touched. */
  lemma CommitOutside(d: LogDisk, bs: seq<int>, data: seq<Block>, k: nat)
    requires d.Valid() && d.head == [] && Loggable(d, bs) && |bs| == |data|
    requires k <= |CommitWrites(bs, data)|
    ensures var e := Apply(d, CommitWrites(bs, data)[..k]);
            e.home.Keys == d.home.Keys && forall b :: b in d.home && b !in bs ==> e.home[b] == d.home[b]
  {
    CommitAtomic(d, bs, data, k);
    OverwriteAt(d.home, bs, data);
    var e := Apply(d, CommitWrites(bs, data)[..k]);
    assert DurableMap(e).Keys == e.home.Keys;
    assert forall b :: b in e.home && b !in bs ==> DurableMap(e)[b] == e.home[b];
  }

  lemma ApplyStep(d: LogDisk, ws: seq<Write>, k: nat, e: LogDisk)
    requires k < |ws| && e == Apply(d, ws[..k])
    ensures Apply(d, ws[..k + 1]) == Apply1(e, ws[k])
  {
    assert ws[..k + 1] == ws[..k] + [ws[k]];
    ApplySnoc(d, ws[..k], ws[k]);
  }

  /** What is durable after `k` writes of commit. */
  function DurableAt(d: LogDisk, bs: seq<int>, data: seq<Block>, k: nat): map<int, Block>
    requires |bs| == |data|
  {
    if k <= |bs| then d.home else Overwrite(d.home, bs, data)
  }

  lemma CommitDurable(d: LogDisk, bs: seq<int>, data: seq<Block>, k: nat, e: LogDisk)
    requires d.Valid() && d.head == [] && Loggable(d, bs) && |bs| == |data|
    requires k <= |CommitWrites(bs, data)| && e == Apply(d, CommitWrites(bs, data)[..k])
    ensures e.Valid() && DurableMap(e) == DurableAt(d, bs, data, k)
  {
    CommitAtomic(d, bs, data, k);
  }

  /** A recovery stopped after any number of writes loses nothing and adds nothing. */
  lemma RecoveryAtomic(d: LogDisk, k: nat)
    requires d.Valid() && k <= |RecoveryWrites(d)|
    ensures var e := Apply(d, RecoveryWrites(d)[..k]);
            && e.Valid() && e.slot == d.slot && DurableMap(e) == DurableMap(d)
            && (k == |RecoveryWrites(d)| ==> e.head == [] && e.home == DurableMap(d))
  {
    if k <= |d.head| {
      assert RecoveryWrites(d)[..k] == HomeWrites(d.head, Slots(d))[..k];
      InstallPartly(d, k);
    } else {
      assert RecoveryWrites(d)[..k] == RecoveryWrites(d);
      InstallFully(d);
    }
  }

  lemma RecoveryStep(d: LogDisk, k: nat)
    requires d.Valid() && k < |RecoveryWrites(d)|
    ensures var e, f := Apply(d, RecoveryWrites(d)[..k]), Apply(d, RecoveryWrites(d)[..k + 1]);
      && e.Valid() && f.Valid() && f == Apply1(e, RecoveryWrites(d)[k]) && f.slot == e.slot
      && DurableMap(f) == DurableMap(e) && (RecoveryWrites(d)[k].HomeW? || RecoveryWrites(d)[k] == HeadW([]))
  {
    var ws := RecoveryWrites(d);
    assert ws[..k + 1] == ws[..k] + [ws[k]];
    ApplySnoc(d, ws[..k], ws[k]);
    RecoveryAtomic(d, k);
    RecoveryAtomic(d, k + 1);
  }

  /** `e` is what recoveries stopped after `cuts[0]`, `cuts[1]`, ... writes make of `d`. */
  ghost predicate Interrupted(d: LogDisk, cuts: seq<nat>, e: LogDisk)
    requires d.Valid()
    decreases |cuts|
  {
    if cuts == [] then e == d
    else
      && cuts[0] <= |RecoveryWrites(d)|
      && var d' := Apply(d, RecoveryWrites(d)[..cuts[0]]);
         d'.Valid() && Interrupted(d', cuts[1..], e)
  }

  lemma {:induction false} InterruptedKeeps(d: LogDisk, cuts: seq<nat>, e: LogDisk)
    requires d.Valid() && Interrupted(d, cuts, e)
    ensures e.Valid() && DurableMap(e) == DurableMap(d)
    decreases |cuts|
  {
    if cuts != [] {
      RecoveryAtomic(d, cuts[0]);
      InterruptedKeeps(Apply(d, RecoveryWrites(d)[..cuts[0]]), cuts[1..], e);
    }
  }

  /** Stop `commit` after any `k` writes, interrupt recovery any number of times,
      then let it finish: the home blocks hold all of the old contents or all of
      the transaction's, never a mixture. */
  lemma CrashAtomicity(d: LogDisk, bs: seq<int>, data: seq<Block>, k: nat,
                       c: LogDisk, cuts: seq<nat>, e: LogDisk)
    requires d.Valid() && d.head == [] && Loggable(d, bs) && |bs| == |data|
    requires k <= |CommitWrites(bs, data)| && c == Apply(d, CommitWrites(bs, data)[..k])
    requires c.Valid() && Interrupted(c, cuts, e) && e.Valid()
    ensures Apply(e, RecoveryWrites(e)).home == if k <= |bs| then d.home else Overwrite(d.home, bs, data)
  {
    CommitAtomic(d, bs, data, k);
    InterruptedKeeps(c, cuts, e);
    InstallFully(e);
  }
}
