/** Disk blocks: BSIZE bytes, which log.c and fs.c also read as an array of
    32-bit little-endian words (block numbers). */
module Blocks {
  const BSIZE := 512
  const NWORDS := 128
  const WORD_LIMIT := 0x1_0000_0000

  datatype Block = Block(bytes: seq<int>) {
    predicate Valid() { |bytes| == BSIZE }
  }

  /** A zeroed block. */
  function Zero(): (b: Block)
    ensures b.Valid() && forall i :: 0 <= i < BSIZE ==> b.bytes[i] == 0
  {
    Block(seq(BSIZE, _ => 0))
  }

  /** Word `i` of the block. */
  function Word(b: Block, i: int): int
    requires b.Valid() && 0 <= i < NWORDS
  {
    b.bytes[4 * i] + 0x100 * b.bytes[4 * i + 1]
    + 0x1_0000 * b.bytes[4 * i + 2] + 0x100_0000 * b.bytes[4 * i + 3]
  }

  function LittleEndian(w: int): (s: seq<int>)
    requires 0 <= w < WORD_LIMIT
    ensures |s| == 4 && s[0] + 0x100 * s[1] + 0x1_0000 * s[2] + 0x100_0000 * s[3] == w
  {
    var q1 := w / 0x100;
    var q2 := q1 / 0x100;
    [w % 0x100, q1 % 0x100, q2 % 0x100, q2 / 0x100]
  }

  /** The block with word `i` set to `w`. */
  function SetWord(b: Block, i: int, w: int): (r: Block)
    requires b.Valid() && 0 <= i < NWORDS && 0 <= w < WORD_LIMIT
    ensures r.Valid() && Word(r, i) == w
    ensures forall j :: 0 <= j < NWORDS && j != i ==> Word(r, j) == Word(b, j)
  {
    var r := b.bytes[..4 * i] + LittleEndian(w) + b.bytes[4 * i + 4..];
    assert r[4 * i] == LittleEndian(w)[0] && r[4 * i + 1] == LittleEndian(w)[1];
    assert r[4 * i + 2] == LittleEndian(w)[2] && r[4 * i + 3] == LittleEndian(w)[3];
    assert forall t :: 0 <= t < BSIZE && !(4 * i <= t < 4 * i + 4) ==> r[t] == b.bytes[t];
    Block(r)
  }

  lemma ZeroWords(i: int)
    requires 0 <= i < NWORDS
    ensures Word(Zero(), i) == 0
  {
  }
}
