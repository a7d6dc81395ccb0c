/** The free-block bitmap of fs.c: one bit a block, the lowest bit of a byte first. */
module Bitmap {
  const BPB := 4096   // bits per bitmap block

  function Mask(i: int): bv8
    requires 0 <= i < 8
  {
    (1 as bv8) << i
  }

  predicate ByteBit(x: bv8, i: int)
    requires 0 <= i < 8
  {
    x & Mask(i) != 0
  }

  lemma SetByteBit(x: bv8, i: int, j: int)
    requires 0 <= i < 8 && 0 <= j < 8
    ensures ByteBit(x | Mask(i), j) == (i == j || ByteBit(x, j))
  {
    MaskCases(i); MaskCases(j);
  }

  lemma ClearByteBit(x: bv8, i: int, j: int)
    requires 0 <= i < 8 && 0 <= j < 8
    ensures ByteBit(x & !Mask(i), j) == (i != j && ByteBit(x, j))
  {
    MaskCases(i); MaskCases(j);
  }

  lemma MaskCases(i: int)
    requires 0 <= i < 8
    ensures Mask(i) == (if i == 0 then 1 else if i == 1 then 2 else if i == 2 then 4 else if i == 3 then 8
                        else if i == 4 then 16 else if i == 5 then 32 else if i == 6 then 64 else 128)
  {
  }

  /** Block `b` is marked in use. */
  predicate Used(m: seq<bv8>, b: int) {
    0 <= b < 8 * |m| && ByteBit(m[b / 8], b % 8)
  }

  function Mark(m: seq<bv8>, b: int): (r: seq<bv8>)
    requires 0 <= b < 8 * |m|
    ensures |r| == |m| && forall c :: Used(r, c) <==> c == b || Used(m, c)
  {
    var r := m[b / 8 := m[b / 8] | Mask(b % 8)];
    assert forall c :: Used(r, c) <==> c == b || Used(m, c) by {
      forall c | 0 <= c < 8 * |m| ensures Used(r, c) <==> c == b || Used(m, c) {
        SetByteBit(m[b / 8], b % 8, c % 8);
      }
    }
    r
  }

  function Clear(m: seq<bv8>, b: int): (r: seq<bv8>)
    requires 0 <= b < 8 * |m|
    ensures |r| == |m| && forall c :: Used(r, c) <==> c != b && Used(m, c)
  {
    var r := m[b / 8 := m[b / 8] & !Mask(b % 8)];
    assert forall c :: Used(r, c) <==> c != b && Used(m, c) by {
      forall c | 0 <= c < 8 * |m| ensures Used(r, c) <==> c != b && Used(m, c) {
        ClearByteBit(m[b / 8], b % 8, c % 8);
      }
    }
    r
  }

  /** Bit `bi` of the bitmap block that starts at byte `b / 8` is that of block `b + bi`. */
  lemma BitOf(m: seq<bv8>, b: int, bi: int)
    requires 0 <= b && b % BPB == 0 && 0 <= bi < BPB && b + bi < 8 * |m|
    ensures 0 <= b / 8 + bi / 8 < |m| && (ByteBit(m[b / 8 + bi / 8], bi % 8) <==> Used(m, b + bi))
  {
    ByteOf(b, bi);
  }

  lemma ByteOf(b: int, bi: int)
    requires 0 <= b && b % BPB == 0 && 0 <= bi
    ensures (b + bi) / 8 == b / 8 + bi / 8 && (b + bi) % 8 == bi % 8
  {
    var n, q, r := 512 * (b / BPB), bi / 8, bi % 8;
    assert b == 8 * n && b + bi == 8 * (n + q) + r;
    Octet(n, 0);
    Octet(n + q, r);
  }

  lemma Octet(n: int, r: int)
    requires 0 <= r < 8
    ensures (8 * n + r) / 8 == n && (8 * n + r) % 8 == r
  {
  }

  /** balloc's loop over one bitmap block: the first free block it tells of, or -1. */
  method ScanBlock(m: seq<bv8>, size: int, b: int) returns (r: int)
    requires 0 <= b < size <= 8 * |m| && b % BPB == 0
    ensures r == -1 ==> forall c :: b <= c < b + BPB && c < size ==> Used(m, c)
    ensures r != -1 ==> b <= r < size && !Used(m, r) && forall c :: b <= c < r ==> Used(m, c)
  {
    var bi := 0;
    while bi < BPB && b + bi < size
      invariant 0 <= bi <= BPB && forall c :: b <= c < b + bi ==> Used(m, c)
    {
      BitOf(m, b, bi);
      if m[b / 8 + bi / 8] & Mask(bi % 8) == 0 {
        return b + bi;
      }
      bi := bi + 1;
    }
    r := -1;
  }

  /** balloc's search: bitmap block by bitmap block, bit by bit. -1 is the
      "out of blocks" panic; otherwise the first free block below `size`. */
  method FindFree(m: seq<bv8>, size: int) returns (r: int)
    requires 0 <= size <= 8 * |m|
    ensures r == -1 <==> forall c :: 0 <= c < size ==> Used(m, c)
    ensures r != -1 ==> 0 <= r < size && !Used(m, r) && forall c :: 0 <= c < r ==> Used(m, c)
  {
    var b := 0;
    while b < size
      invariant 0 <= b && b % BPB == 0
      invariant forall c :: 0 <= c < b && c < size ==> Used(m, c)
    {
      r := ScanBlock(m, size, b);
      if r != -1 { return; }
      b := b + BPB;
    }
    r := -1;
  }
}
