/** Where the blocks of a file hang: the slots of an inode's addresses and the trees in them. */
module FileIndex {
  import opened BlockTree

  const NDIRECT := 10
  const NADDRS := 13
  const MAXBLOCKS := 2113674      // NDIRECT + NINDIRECT + NINDIRECT2 + NINDIRECT3

  /** The height of the tree in `addrs[s]`. */
  function Height(s: int): nat
    requires 0 <= s < NADDRS
  {
    if s < NDIRECT then 0 else s - NDIRECT + 1
  }

  /** The slot of `addrs` whose tree holds file block `bn`, and the index in that tree. */
  function Slot(bn: int): (s: int)
    requires 0 <= bn < MAXBLOCKS
    ensures 0 <= s < NADDRS
  {
    if bn < NDIRECT then bn
    else if bn - NDIRECT < Span(1) then NDIRECT
    else if bn - NDIRECT - Span(1) < Span(2) then NDIRECT + 1
    else NDIRECT + 2
  }

  function Offset(bn: int): (k: int)
    requires 0 <= bn < MAXBLOCKS
    ensures 0 <= k < Span(Height(Slot(bn)))
  {
    if bn < NDIRECT then 0
    else if bn - NDIRECT < Span(1) then bn - NDIRECT
    else if bn - NDIRECT - Span(1) < Span(2) then bn - NDIRECT - Span(1)
    else bn - NDIRECT - Span(1) - Span(2)
  }

  lemma SlotOffset(bn: int, cn: int)
    requires 0 <= bn < MAXBLOCKS && 0 <= cn < MAXBLOCKS
    ensures bn == cn <==> Slot(bn) == Slot(cn) && Offset(bn) == Offset(cn)
  {
  }
}
