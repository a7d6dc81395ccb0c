/** fileread and filewrite of file.c on an inode: shared-offset and positional
    reads, and writes split into transactions of at most MAXCHUNK bytes. */
module FileOps {
  import opened Blocks
  import opened BlockTree
  import Bitmap
  import FileSystem

  const MAXCHUNK := 1536   // ((MAXOPBLOCKS-1-1-2) / 2) * 512

  /** What one transaction of filewrite does to a file's bytes: writei, or nothing on error. */
  function ChunkLength(data: seq<int>, i: int): int
    requires 0 <= i < |data|
  {
    if |data| - i > MAXCHUNK then MAXCHUNK else |data| - i
  }

  predicate ChunkFails(c: seq<int>, off: int, data: seq<int>, i: int)
    requires 0 <= i < |data|
  {
    off + i > |c| || off + i + ChunkLength(data, i) > FileSystem.MAXBYTES
  }

  /** filewrite from byte `i` on, at offset `off`, on a file with bytes `c`:
      the bytes it leaves and how far it gets. */
  function WriteFrom(c: seq<int>, off: int, data: seq<int>, i: int): (r: (seq<int>, int))
    requires 0 <= off && 0 <= i <= |data|
    decreases |data| - i
  {
    if i == |data| || ChunkFails(c, off, data, i) then (c, i)
    else
      var n1 := ChunkLength(data, i);
      WriteFrom(FileSystem.Splice(c, off + i, data[i..i + n1]), off, data, i + n1)
  }

  /** What a transaction from byte `i` on makes of bytes `c`; `r` is writei's result. */
  predicate Wrote(c: seq<int>, c': seq<int>, off: int, data: seq<int>, i: int, r: int)
    requires 0 <= off && 0 <= i < |data|
  {
    if ChunkFails(c, off, data, i) then r == -1 && c' == c
    else r == ChunkLength(data, i) && c' == FileSystem.Splice(c, off + i, data[i..i + r])
  }

  /** It ends the write, or the rest of the write completes it. */
  predicate Advanced(c: seq<int>, c': seq<int>, off: int, data: seq<int>, i: int, r: int)
    requires 0 <= off && 0 <= i < |data|
  {
    if r < 0 then WriteFrom(c, off, data, i) == (c', i)
    else 0 < r && i + r <= |data| && off + i + r <= FileSystem.MAXBYTES && WriteFrom(c', off, data, i + r) == WriteFrom(c, off, data, i)
  }

  /** Every block of the disk is in use. */
  ghost predicate NoneFree(disk: int, bitmap: seq<bv8>) {
    forall c :: 0 <= c < disk ==> Bitmap.Used(bitmap, c)
  }

  /** A transaction that does not fail is part of what the write gets done. */
  lemma WriteReaches(c: seq<int>, off: int, data: seq<int>, i: int)
    requires 0 <= off && 0 <= i < |data|
    ensures WriteFrom(c, off, data, i).1 >= i
    ensures !ChunkFails(c, off, data, i) ==> WriteFrom(c, off, data, i).1 >= i + ChunkLength(data, i)
  {
    WriteGoesUp(c, off, data, i);
    if !ChunkFails(c, off, data, i) {
      var n1 := ChunkLength(data, i);
      WriteGoesUp(FileSystem.Splice(c, off + i, data[i..i + n1]), off, data, i + n1);
    }
  }

  lemma {:induction false} WriteGoesUp(c: seq<int>, off: int, data: seq<int>, i: int)
    requires 0 <= off && 0 <= i <= |data|
    ensures WriteFrom(c, off, data, i).1 >= i
    decreases |data| - i
  {
    if i < |data| && !ChunkFails(c, off, data, i) {
      var n1 := ChunkLength(data, i);
      WriteGoesUp(FileSystem.Splice(c, off + i, data[i..i + n1]), off, data, i + n1);
    }
  }

  lemma WroteNext(c: seq<int>, c': seq<int>, off: int, data: seq<int>, i: int, r: int)
    requires 0 <= off && 0 <= i < |data| && Wrote(c, c', off, data, i, r)
    ensures Advanced(c, c', off, data, i, r)
  {
  }

  lemma ChunkWrote(c: seq<int>, c': seq<int>, off: int, data: seq<int>, i: int, pos: int, src: seq<int>, r: int)
    requires 0 <= off && 0 <= i < |data| && pos == off + i && src == data[i..i + ChunkLength(data, i)]
    requires r == -1 <==> pos > |c| || pos + |src| > FileSystem.MAXBYTES
    requires r == -1 || r == -2 || r == |src|
    requires (r == -1 ==> c' == c) && (r >= 0 ==> c' == FileSystem.Splice(c, pos, src))
    ensures r != -2 ==> Advanced(c, c', off, data, i, r)
    ensures r != -1 ==> !ChunkFails(c, off, data, i)
  {
    if r != -2 { WroteNext(c, c', off, data, i, r); }
  }

  lemma AdvancedNext(c: seq<int>, c': seq<int>, off: int, data: seq<int>, i: int, r: int, n: int, w: (seq<int>, int))
    requires 0 <= off && 0 <= i < |data| && Advanced(c, c', off, data, i, r) && w == WriteFrom(c, off, data, i)
    requires n == if r >= 0 then i + r else i
    ensures r >= 0 ==> i < n <= |data| && off + n <= FileSystem.MAXBYTES && w == WriteFrom(c', off, data, n)
    ensures r < 0 ==> w == (c', n)
  {
  }

  lemma SpliceTwice(c: seq<int>, off: int, data: seq<int>, i: int, n1: int)
    requires 0 <= off && 0 <= i && 0 <= n1 && i + n1 <= |data| && off <= |c|
    ensures FileSystem.Splice(FileSystem.Splice(c, off, data[..i]), off + i, data[i..i + n1])
            == FileSystem.Splice(c, off, data[..i + n1])
  {
    var a := FileSystem.Splice(c, off, data[..i]);
    var l, r := FileSystem.Splice(a, off + i, data[i..i + n1]), FileSystem.Splice(c, off, data[..i + n1]);
    assert |l| == |r|;
    forall o | 0 <= o < |l| ensures l[o] == r[o] {
    }
  }

  /** How many bytes a positional write of `data` at `off` writes to a file of `size` bytes. */
  function Fit(size: int, off: int, data: seq<int>): int
    requires 0 <= off
  {
    if off > size then 0
    else if off + |data| <= FileSystem.MAXBYTES then |data|
    else if off >= FileSystem.MAXBYTES then 0
    else (FileSystem.MAXBYTES - off) / MAXCHUNK * MAXCHUNK
  }

  lemma {:induction false} WriteFromIs(c: seq<int>, off: int, data: seq<int>, i: int)
    requires 0 <= off <= |c| && 0 <= i <= |data| && (i % MAXCHUNK == 0 || i == |data|)
    requires |c| <= FileSystem.MAXBYTES && (i == 0 || off + i <= FileSystem.MAXBYTES)
    ensures var k := Fit(|c|, off, data);
            i <= k <= |data| && WriteFrom(FileSystem.Splice(c, off, data[..i]), off, data, i)
                                == (FileSystem.Splice(c, off, data[..k]), k)
    decreases |data| - i
  {
    var a := FileSystem.Splice(c, off, data[..i]);
    if i < |data| && !ChunkFails(a, off, data, i) {
      var n1 := ChunkLength(data, i);
      SpliceTwice(c, off, data, i, n1);
      WriteFromIs(c, off, data, i + n1);
    }
  }

  /** A whole filewrite at `off`: a prefix of `data` is written, all of it exactly when the
      offset is not past the end of the file and the result is within the maximum size. */
  lemma FileWriteIs(c: seq<int>, off: int, data: seq<int>)
    requires 0 <= off && |c| <= FileSystem.MAXBYTES
    ensures var k := Fit(|c|, off, data);
            && 0 <= k <= |data|
            && WriteFrom(c, off, data, 0) == (if off <= |c| then FileSystem.Splice(c, off, data[..k]) else c, k)
            && (k == |data| <==> data == [] || (off <= |c| && off + |data| <= FileSystem.MAXBYTES))
  {
    if off <= |c| {
      assert FileSystem.Splice(c, off, data[..0]) == c;
      WriteFromIs(c, off, data, 0);
    }
  }

  /** What a transaction at byte `pos` costs: the blocks missing for its bytes, and it panics exactly if
      fewer are free; on error it costs nothing. */
  ghost predicate Costs(d: Disk, m: seq<bv8>, ino: FileSystem.Inodes, e: Disk, m': seq<bv8>, ino': FileSystem.Inodes, ip: int, pos: int,
                        data: seq<int>, i: int, r: int)
    requires 0 <= i < |data|
  {
    && |e| == |d| && ip in ino && ip in ino' && (r >= 0 ==> r == ChunkLength(data, i))
    && (r == -1 ==> e == d && m' == m && ino' == ino)
    && (r != -1 ==> FileSystem.Spent(d, m, ino[ip], e, m', ino'[ip],
                                     FileSystem.WriteLacks(d, ino[ip], pos, ChunkLength(data, i)), r != -2))
  }

  lemma CostsIs(d: Disk, m: seq<bv8>, ino: FileSystem.Inodes, e: Disk, m': seq<bv8>, ino': FileSystem.Inodes, ip: int, pos: int,
                data: seq<int>, i: int, len: int, r: int)
    requires 0 <= i < |data| && len == ChunkLength(data, i) && |e| == |d| && ip in ino && ip in ino' && (r >= 0 ==> r == len)
    requires r == -1 ==> e == d && m' == m && ino' == ino
    requires r != -1 ==> FileSystem.Spent(d, m, ino[ip], e, m', ino'[ip], FileSystem.WriteLacks(d, ino[ip], pos, len), r != -2)
    ensures Costs(d, m, ino, e, m', ino', ip, pos, data, i, r)
  {
  }

  /** What the first `i` bytes have cost. */
  ghost predicate CostSoFar(d: Disk, m: seq<bv8>, a: seq<int>, e: Disk, m': seq<bv8>, ino': FileSystem.Inodes, ip: int, off: int, i: int) {
    && |e| == |d| && ip in ino'
    && FileSystem.Spent(d, m, a, e, m', ino'[ip], FileSystem.WriteLacks(d, a, off, i), true)
  }

  /** A panic for want of blocks: `k` bytes from `off` on lack more than were free. */
  ghost predicate Panics(d: Disk, m: seq<bv8>, a: seq<int>, e: Disk, m': seq<bv8>, ino': FileSystem.Inodes, ip: int, off: int, k: int) {
    ip in ino' && FileSystem.Spent(d, m, a, e, m', ino'[ip], FileSystem.WriteLacks(d, a, off, k), false)
  }

  /** One more transaction, the last if it fails; `k` bytes are to be written in all. */
  lemma CostNext(d: Disk, m: seq<bv8>, a: seq<int>, d1: Disk, m1: seq<bv8>, ino1: FileSystem.Inodes, e: Disk, m': seq<bv8>, ino': FileSystem.Inodes,
                 ip: int, off: int, pos: int, data: seq<int>, i: int, r: int, n: int, k: int)
    requires 0 <= i < |data| && 0 <= off && pos == off + i && CostSoFar(d, m, a, d1, m1, ino1, ip, off, i)
    requires Costs(d1, m1, ino1, e, m', ino', ip, pos, data, i, r) && r != -1 && n == i + ChunkLength(data, i) <= k
    requires off + n <= FileSystem.MAXBYTES
    ensures r != -2 ==> CostSoFar(d, m, a, e, m', ino', ip, off, n)
    ensures r == -2 ==> Panics(d, m, a, e, m', ino', ip, off, k)
  {
    var ok := r != -2;
    FileSystem.SpentJoin(d, m, a, d1, m1, ino1[ip], e, m', ino'[ip], off, i, pos, ChunkLength(data, i), n, ok);
    if !ok { FileSystem.SpentShort(d, m, a, e, m', ino'[ip], off, n, k, ok); }
  }

  lemma CostEnds(d: Disk, m: seq<bv8>, a: seq<int>, d1: Disk, m1: seq<bv8>, ino1: FileSystem.Inodes,
                 e: Disk, m': seq<bv8>, ino': FileSystem.Inodes,
                 ip: int, off: int, pos: int, data: seq<int>, i: int, r: int, n: int, k: int)
    requires 0 <= i < |data| && 0 <= off && pos == off + i && CostSoFar(d, m, a, d1, m1, ino1, ip, off, i)
    requires Costs(d1, m1, ino1, e, m', ino', ip, pos, data, i, r) && r >= -2 && n == if r >= 0 then i + r else i
    requires r != -1 ==> i + ChunkLength(data, i) <= k && off + i + ChunkLength(data, i) <= FileSystem.MAXBYTES
    ensures r != -2 ==> CostSoFar(d, m, a, e, m', ino', ip, off, n)
    ensures r == -2 ==> Panics(d, m, a, e, m', ino', ip, off, k)
  {
    if r >= 0 {
      CostNext(d, m, a, d1, m1, ino1, e, m', ino', ip, off, pos, data, i, r, n, k);
    } else if r == -2 {
      var n1 := i + ChunkLength(data, i);
      CostNext(d, m, a, d1, m1, ino1, e, m', ino', ip, off, pos, data, i, r, n1, k);
    }
  }

  class File {
    const fs: FileSystem.FS
    const ip: int
    const readable: bool
    const writable: bool
    var off: int

    ghost predicate Valid()
      reads this, fs
    {
      fs.Inv() && ip in fs.addrs && 0 <= off <= FileSystem.MAXBYTES
    }

    /** The bytes of all other files. */
    ghost function Others(): map<int, seq<int>>
      requires Valid()
      reads this, fs
    {
      map q | q in fs.addrs && q != ip :: fs.Content(q)
    }

    constructor (fs: FileSystem.FS, ip: int, readable: bool, writable: bool)
      requires fs.Inv() && ip in fs.addrs
      ensures Valid() && this.fs == fs && this.ip == ip && off == 0
    {
      this.fs, this.ip, this.readable, this.writable, off := fs, ip, readable, writable, 0;
    }

    /** fileread of an inode: `at < 0` reads at the shared offset and moves it. */
    method FileRead(n: int, at: int) returns (r: int, dst: seq<int>)
      requires Valid() && 0 <= n < 0x8000_0000 && at < 0x8000_0000
      modifies this`off, fs`disk, fs`bitmap, fs`addrs
      ensures Valid() && fs.disk == old(fs.disk) && fs.bitmap == old(fs.bitmap) && fs.addrs == old(fs.addrs)
      ensures var o := if at < 0 then old(off) else at;
              && (r == -1 <==> !readable || o > |fs.Content(ip)|)
              && (r != -1 ==> r == |dst| && dst == FileSystem.Slice(fs.Content(ip), o, n))
      ensures off == old(off) + if at < 0 && r > 0 then r else 0
    {
      if !readable {
        return -1, [];
      }
      if at < 0 {
        r, dst := fs.Readi(ip, off, n);
        if r > 0 { off := off + r; }
      } else {
        r, dst := fs.Readi(ip, at, n);
      }
    }

    /** One transaction of filewrite: the chunk from byte `i` on, at the shared offset if `at < 0`
        and at `o` else, and that offset moves on. A short write does not occur. */
    method WriteOne(data: seq<int>, i: int, at: int, o: int, ghost off0: int, ghost pos: int) returns (r: int, o': int)
      requires Valid() && |data| < 0x8000_0000 && 0 <= i < |data| && 0 <= off0
      requires off0 + i == pos == (if at < 0 then off else o) < WORD_LIMIT
      modifies this`off, fs
      ensures r != -2 ==> Valid() && fs.addrs.Keys == old(fs.addrs.Keys) && Others() == old(Others())
      ensures r != -2 ==> off == old(off) + (if at < 0 && r > 0 then r else 0)
      ensures r != -2 ==> o' == o + (if at >= 0 && r > 0 then r else 0)
      ensures r != -2 ==> Advanced(old(fs.Content(ip)), fs.Content(ip), off0, data, i, r)
      ensures r == -2 ==> NoneFree(|fs.disk|, fs.bitmap)
      ensures Costs(old(fs.disk), old(fs.bitmap), old(fs.addrs), fs.disk, fs.bitmap, fs.addrs, ip, pos, data, i, r)
      ensures r >= -2 && (r != -1 ==> !ChunkFails(old(fs.Content(ip)), off0, data, i))
    {
      o' := o;
      if at < 0 {
        r := WriteAt(data, i, off, off0);
        if r > 0 { off := off + r; }
      } else {
        r := WriteAt(data, i, o, off0);
        if r > 0 { o' := o + r; }
      }
    }

    /** One transaction's writei. */
    method Transact(src: seq<int>, pos: int) returns (r: int)
      requires Valid() && |src| < WORD_LIMIT && 0 <= pos < WORD_LIMIT
      modifies fs
      ensures r != -2 ==> Valid() && fs.addrs.Keys == old(fs.addrs.Keys) && Others() == old(Others())
      ensures r == -1 <==> pos > |old(fs.Content(ip))| || pos + |src| > FileSystem.MAXBYTES
      ensures r == -1 || r == -2 || r == |src|
      ensures r == -1 ==> fs.disk == old(fs.disk) && fs.bitmap == old(fs.bitmap) && fs.addrs == old(fs.addrs)
      ensures r == -1 ==> fs.Content(ip) == old(fs.Content(ip))
      ensures r >= 0 ==> fs.Content(ip) == FileSystem.Splice(old(fs.Content(ip)), pos, src)
      ensures r == -2 ==> NoneFree(|fs.disk|, fs.bitmap)
      ensures |fs.disk| == old(|fs.disk|) && ip in fs.addrs
      ensures r != -1 ==> FileSystem.Spent(old(fs.disk), old(fs.bitmap), old(fs.addrs)[ip], fs.disk, fs.bitmap, fs.addrs[ip],
                                           FileSystem.WriteLacks(old(fs.disk), old(fs.addrs)[ip], pos, |src|), r != -2)
    {
      r := fs.Writei(ip, pos, src);
    }

    /** The same for the chunk from byte `i` on at byte `pos` of the file. */
    method WriteAt(data: seq<int>, i: int, pos: int, ghost off0: int) returns (r: int)
      requires Valid() && |data| < 0x8000_0000 && 0 <= i < |data| && 0 <= off0 && off0 + i == pos < WORD_LIMIT
      modifies fs
      ensures r != -2 ==> Valid() && fs.addrs.Keys == old(fs.addrs.Keys) && Others() == old(Others())
      ensures r != -2 ==> Advanced(old(fs.Content(ip)), fs.Content(ip), off0, data, i, r)
      ensures r == -2 ==> NoneFree(|fs.disk|, fs.bitmap)
      ensures Costs(old(fs.disk), old(fs.bitmap), old(fs.addrs), fs.disk, fs.bitmap, fs.addrs, ip, pos, data, i, r)
      ensures r >= -2 && (r != -1 ==> !ChunkFails(old(fs.Content(ip)), off0, data, i))
    {
      ghost var c, d, m, ino := fs.Content(ip), fs.disk, fs.bitmap, fs.addrs;
      var n1 := if |data| - i > MAXCHUNK then MAXCHUNK else |data| - i;
      var src := data[i..i + n1];
      r := Transact(src, pos);
      ghost var c1 := if r != -2 then fs.Content(ip) else c;
      ChunkWrote(c, c1, off0, data, i, pos, src, r);
      CostsIs(d, m, ino, fs.disk, fs.bitmap, fs.addrs, ip, pos, data, i, |src|, r);
    }

    /** filewrite of an inode. -1 on error, -2 when the kernel panics for want of blocks. */
    method FileWrite(data: seq<int>, at: int) returns (r: int)
      requires Valid() && |data| < 0x8000_0000 && at < 0x8000_0000
      modifies this`off, fs
      ensures r != -2 && writable ==>
                && Valid() && fs.addrs.Keys == old(fs.addrs.Keys)
                && var w := WriteFrom(old(fs.Content(ip)), if at < 0 then old(off) else at, data, 0);
                   && fs.Content(ip) == w.0 && r == (if w.1 == |data| then |data| else -1)
                   && off == old(off) + if at < 0 then w.1 else 0
      ensures r != -2 && writable ==> forall q :: q in fs.addrs && q != ip ==> fs.Content(q) == old(fs.Content(q))
      ensures !writable ==> r == -1 && off == old(off) && unchanged(fs)
      // The panic comes exactly if fewer blocks are free than the bytes to be written lack.
      ensures r == -2 ==> NoneFree(|fs.disk|, fs.bitmap)
      ensures writable ==> ip in fs.addrs && var o := if at < 0 then old(off) else at;
        FileSystem.Spent(old(fs.disk), old(fs.bitmap), old(fs.addrs)[ip], fs.disk, fs.bitmap, fs.addrs[ip],
                         FileSystem.WriteLacks(old(fs.disk), old(fs.addrs)[ip], o, WriteFrom(old(fs.Content(ip)), o, data, 0).1),
                         r != -2)
    {
      if !writable {
        return -1;
      }
      var i := WriteAll(data, at);
      if i == -2 {
        return -2;
      }
      r := if i == |data| then |data| else -1;
      assert forall q :: q in fs.addrs && q != ip ==> fs.Content(q) == Others()[q];
    }

    /** A transaction, with what it costs; `w` is what the whole write is to come to. */
    method WriteStep(data: seq<int>, i: int, at: int, o: int, ghost off0: int, ghost w: (seq<int>, int),
                     ghost d: Disk, ghost m: seq<bv8>, ghost a: seq<int>)
      returns (r: int, o': int, ghost n: int)
      requires Valid() && |data| < 0x8000_0000 && 0 <= i < |data| && 0 <= off0
      requires off0 + i == (if at < 0 then off else o) < WORD_LIMIT
      requires CostSoFar(d, m, a, fs.disk, fs.bitmap, fs.addrs, ip, off0, i) && w == WriteFrom(fs.Content(ip), off0, data, i)
      modifies this`off, fs
      ensures r != -2 ==> Valid() && fs.addrs.Keys == old(fs.addrs.Keys) && Others() == old(Others())
      ensures r != -2 ==> off == old(off) + (if at < 0 && r > 0 then r else 0)
      ensures r != -2 ==> o' == o + (if at >= 0 && r > 0 then r else 0)
      ensures r >= 0 ==> n == i + r && i < n <= |data| && off0 + n <= FileSystem.MAXBYTES
      ensures r >= 0 ==> w == WriteFrom(fs.Content(ip), off0, data, n)
      ensures r == -1 ==> n == i && w == (fs.Content(ip), n)
      ensures r == -2 ==> NoneFree(|fs.disk|, fs.bitmap) && Panics(d, m, a, fs.disk, fs.bitmap, fs.addrs, ip, off0, w.1)
      ensures r >= -2
      ensures r != -2 ==> CostSoFar(d, m, a, fs.disk, fs.bitmap, fs.addrs, ip, off0, n)
    {
      ghost var d1, m1, ino1, c, pos := fs.disk, fs.bitmap, fs.addrs, fs.Content(ip), off0 + i;
      r, o' := WriteOne(data, i, at, o, off0, pos);
      n := if r >= 0 then i + r else i;
      if r != -2 { AdvancedNext(c, fs.Content(ip), off0, data, i, r, n, w); }
      WriteReaches(c, off0, data, i);
      CostEnds(d, m, a, d1, m1, ino1, fs.disk, fs.bitmap, fs.addrs, ip, off0, pos, data, i, r, n, w.1);
    }

    /** filewrite's loop: how many bytes it has written, or -2 if no block was free. */
    method WriteAll(data: seq<int>, at: int) returns (i: int)
      requires Valid() && |data| < 0x8000_0000 && at < 0x8000_0000
      modifies this`off, fs
      ensures i == -2 || (0 <= i <= |data| && Valid() && fs.addrs.Keys == old(fs.addrs.Keys))
      ensures i != -2 ==> off == old(off) + if at < 0 then i else 0
      ensures i != -2 ==> WriteFrom(old(fs.Content(ip)), if at < 0 then old(off) else at, data, 0) == (fs.Content(ip), i)
      ensures i != -2 ==> Others() == old(Others())
      ensures i == -2 ==> NoneFree(|fs.disk|, fs.bitmap)
      ensures ip in fs.addrs && var o := if at < 0 then old(off) else at;
        FileSystem.Spent(old(fs.disk), old(fs.bitmap), old(fs.addrs)[ip], fs.disk, fs.bitmap, fs.addrs[ip],
                         FileSystem.WriteLacks(old(fs.disk), old(fs.addrs)[ip], o, WriteFrom(old(fs.Content(ip)), o, data, 0).1),
                         i != -2)
    {
      ghost var c, d, m, a := fs.Content(ip), fs.disk, fs.bitmap, fs.addrs[ip];
      ghost var off0 := if at < 0 then off else at;
      ghost var w := WriteFrom(c, off0, data, 0);
      FileSystem.SpentNothing(d, m, a, off0);
      var o := at;
      i := 0;
      ghost var n := 0;
      while i < |data|
        invariant 0 <= i <= |data| && Valid() && fs.addrs.Keys == old(fs.addrs.Keys)
        invariant off == old(off) + (if at < 0 then i else 0) && (at >= 0 ==> o == at + i)
        invariant Others() == old(Others())
        invariant n == i && w == WriteFrom(fs.Content(ip), off0, data, n)
        invariant CostSoFar(d, m, a, fs.disk, fs.bitmap, fs.addrs, ip, off0, n)
      {
        var r;
        r, o, n := WriteStep(data, i, at, o, off0, w, d, m, a);
        if r == -2 {
          return -2;
        }
        if r < 0 {
          return;
        }
        i := i + r;
      }
    }
  }
}
