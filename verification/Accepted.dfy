/**
 * What an accepted block may carry without making a received block wrong, exactly; and that
 * acceptance alone does not ensure it.
 */
module Accepted {
  import opened Bytes
  import opened Layout
  import opened Engine

  /** Where block `k` of piece `i` starts and ends: the last one ends with its piece. */
  function BlockStart(t: Torrent, k: nat): nat { k * t.blockLength }

  function BlockEnd(t: Torrent, i: nat, k: nat): nat
    requires t.WellFormed() && i < t.NumPieces()
  {
    var end := (k + 1) * t.blockLength;
    if end <= t.PieceLength(i) then end else t.PieceLength(i)
  }

  /** Every block of a piece is a non-empty range of it, apart from the others. */
  lemma BlockRange(t: Torrent, i: nat, k: nat)
    requires t.WellFormed() && i < t.NumPieces() && k < t.NumBlocks(i)
    ensures BlockStart(t, k) < BlockEnd(t, i, k) <= t.PieceLength(i)
    ensures forall p: nat :: BlockStart(t, k) <= p < BlockEnd(t, i, k) ==> p / t.blockLength == k
  {
    RequestOffsetInRange(t, i, k);
    MulStrict(k, k + 1, t.blockLength);
    forall p: nat | BlockStart(t, k) <= p < BlockEnd(t, i, k) ensures p / t.blockLength == k {
      QuotientIs(p, t.blockLength, k);
    }
  }

  /** A request is for exactly the block it names in every piece iff the block length fits. */
  lemma RequestsAreBlocksIffFit(t: Torrent)
    requires t.WellFormed()
    ensures t.BlocksFit() <==>
      forall i: nat, k: nat :: i < t.NumPieces() && k < t.NumBlocks(i) ==>
        t.RequestLength(i, k) == BlockEnd(t, i, k) - BlockStart(t, k)
  {
    RequestsTileIffBlocksFit(t);
    forall i: nat | i < t.NumPieces()
      ensures t.RequestsTile(i) <==> forall k: nat :: k < t.NumBlocks(i) ==>
        t.RequestLength(i, k) == BlockEnd(t, i, k) - BlockStart(t, k)
    {
      forall k: nat | k < t.NumBlocks(i)
        ensures BlockStart(t, k) < BlockEnd(t, i, k)
        ensures BlockEnd(t, i, k) == if k + 1 < t.NumBlocks(i) then (k + 1) * t.blockLength else t.PieceLength(i)
      {
        BlockRange(t, i, k);
        LastBlockEnds(t, i, k);
      }
    }
  }

  lemma LastBlockEnds(t: Torrent, i: nat, k: nat)
    requires t.WellFormed() && i < t.NumPieces() && k < t.NumBlocks(i)
    ensures BlockEnd(t, i, k) == if k + 1 < t.NumBlocks(i) then (k + 1) * t.blockLength else t.PieceLength(i)
  {
    assert t.LaidOut(i);
    CeilDivBounds(t.PieceLength(i), t.blockLength);
    if k + 1 < t.NumBlocks(i) { RequestOffsetInRange(t, i, k + 1); }
  }

  /** Every byte of a piece belongs to the block its index divides into. */
  lemma ByteInItsBlock(t: Torrent, i: nat, p: nat)
    requires t.WellFormed() && i < t.NumPieces() && p < t.PieceLength(i)
    ensures var k := BlockIndex(t, i, p);
      && k == p / t.blockLength && k < t.NumBlocks(i)
      && BlockStart(t, k) <= p < BlockEnd(t, i, k)
  {
    var k := BlockIndex(t, i, p);
    DivMod(p, t.blockLength);
    MulStrict(k, k + 1, t.blockLength);
  }

  // ---------------------------------------------------------------- slots with the right bytes

  /** Every received block of the slot holds the right bytes. */
  ghost predicate TrueSlot(t: Torrent, i: nat, slot: Slot, content: seq<byte>)
    requires t.WellFormed() && i < t.NumPieces()
  {
    && |slot.data| == |content| == t.PieceLength(i) && |slot.blocks| == t.NumBlocks(i)
    && forall p: nat :: p < |content| && slot.blocks[BlockIndex(t, i, p)] == Have ==> slot.data[p] == content[p]
  }

  lemma AllHaveIsTrue(t: Torrent, i: nat, slot: Slot, content: seq<byte>)
    requires t.WellFormed() && i < t.NumPieces() && TrueSlot(t, i, slot, content) && AllHave(slot.blocks)
    ensures slot.data == content
  {
    forall p: nat | p < |content| ensures slot.data[p] == content[p] {
      assert slot.blocks[BlockIndex(t, i, p)] == Have;
    }
  }

  // ---------------------------------------------------------------- accepted blocks

  /**
   * The block starts at its block's start, covers that block, and is right wherever it lies in
   * that block or in one already received.
   */
  ghost predicate Covering(t: Torrent, i: nat, b: Block, blocks: seq<BlockState>, content: seq<byte>)
    requires t.WellFormed() && i < t.NumPieces() && b.piece == i && ValidBlock(t, b)
    requires |content| == t.PieceLength(i) && |blocks| == t.NumBlocks(i)
  {
    var k := BlockIndex(t, i, b.offset);
    && b.offset == BlockStart(t, k)
    && BlockEnd(t, i, k) <= b.offset + |b.data|
    && forall p: nat :: b.offset <= p < b.offset + |b.data| ==>
         (BlockIndex(t, i, p) == k || blocks[BlockIndex(t, i, p)] == Have) ==> b.data[p - b.offset] == content[p]
  }

  /** Whatever was in the slot, if its received blocks were right they still are after the write. */
  ghost predicate KeepsReceivedRight(t: Torrent, i: nat, b: Block, blocks: seq<BlockState>, content: seq<byte>)
    requires t.WellFormed() && i < t.NumPieces() && b.piece == i && ValidBlock(t, b)
  {
    forall data: seq<byte> :: TrueSlot(t, i, Slot(data, blocks), content) ==>
      TrueSlot(t, i, Written(t, i, b, Slot(data, blocks)), content)
  }

  lemma CoveringKeepsTrueSlot(t: Torrent, i: nat, b: Block, slot: Slot, content: seq<byte>)
    requires t.WellFormed() && i < t.NumPieces() && b.piece == i && ValidBlock(t, b)
    requires TrueSlot(t, i, slot, content) && Covering(t, i, b, slot.blocks, content)
    ensures TrueSlot(t, i, Written(t, i, b, slot), content)
  {
    var k := BlockIndex(t, i, b.offset);
    var now := Written(t, i, b, slot);
    forall p: nat | p < |content| && now.blocks[BlockIndex(t, i, p)] == Have ensures now.data[p] == content[p] {
      ByteInItsBlock(t, i, p);
      if b.offset <= p < b.offset + |b.data| {
        assert now.data[p] == b.data[p - b.offset];
      } else {
        assert now.data[p] == slot.data[p];
      }
    }
  }

  /** Right wherever a block is received, wrong everywhere else. */
  function Stale(t: Torrent, i: nat, blocks: seq<BlockState>, content: seq<byte>): (data: seq<byte>)
    requires t.WellFormed() && i < t.NumPieces()
    requires |content| == t.PieceLength(i) && |blocks| == t.NumBlocks(i)
    ensures TrueSlot(t, i, Slot(data, blocks), content)
    ensures forall p: nat :: p < |content| && blocks[BlockIndex(t, i, p)] != Have ==> data[p] != content[p]
  {
    seq(|content|, p requires 0 <= p < |content| =>
      if blocks[BlockIndex(t, i, p)] == Have then content[p] else !content[p])
  }

  lemma KeepingIsCovering(t: Torrent, i: nat, b: Block, blocks: seq<BlockState>, content: seq<byte>)
    requires t.WellFormed() && i < t.NumPieces() && b.piece == i && ValidBlock(t, b)
    requires |content| == t.PieceLength(i) && |blocks| == t.NumBlocks(i)
    requires blocks[BlockIndex(t, i, b.offset)] != Have
    requires KeepsReceivedRight(t, i, b, blocks, content)
    ensures Covering(t, i, b, blocks, content)
  {
    var k := BlockIndex(t, i, b.offset);
    var was := Slot(Stale(t, i, blocks, content), blocks);
    var now := Written(t, i, b, was);
    assert TrueSlot(t, i, now, content);
    ByteInItsBlock(t, i, b.offset);
    BlockRange(t, i, k);
    // a byte of block k that the write misses would be a wrong byte of a received block
    MustBeWritten(t, i, b, was, content, BlockStart(t, k));
    MustBeWritten(t, i, b, was, content, BlockEnd(t, i, k) - 1);
    forall p: nat | b.offset <= p < b.offset + |b.data|
        && (BlockIndex(t, i, p) == k || blocks[BlockIndex(t, i, p)] == Have)
      ensures b.data[p - b.offset] == content[p]
    {
      assert now.blocks[BlockIndex(t, i, p)] == Have;
      assert now.data[p] == b.data[p - b.offset];
    }
  }

  lemma MustBeWritten(t: Torrent, i: nat, b: Block, was: Slot, content: seq<byte>, p: nat)
    requires t.WellFormed() && i < t.NumPieces() && b.piece == i && ValidBlock(t, b)
    requires |was.data| == |content| == t.PieceLength(i) && |was.blocks| == t.NumBlocks(i)
    requires TrueSlot(t, i, Written(t, i, b, was), content)
    requires p < |content| && was.data[p] != content[p]
    requires BlockStart(t, BlockIndex(t, i, b.offset)) <= p < BlockEnd(t, i, BlockIndex(t, i, b.offset))
    ensures b.offset <= p < b.offset + |b.data|
  {
    BlockRange(t, i, BlockIndex(t, i, b.offset));
    assert BlockIndex(t, i, p) == p / t.blockLength;
    assert Written(t, i, b, was).blocks[BlockIndex(t, i, p)] == Have;
  }

  /**
   * The exact condition: a block that the client accepts keeps every received block right,
   * whatever bytes the slot held before, if and only if it covers the block at its offset and
   * is right there and in all received blocks it runs into.
   */
  lemma KeepsReceivedRightIffCovering(t: Torrent, i: nat, b: Block, blocks: seq<BlockState>, content: seq<byte>)
    requires t.WellFormed() && i < t.NumPieces() && b.piece == i && ValidBlock(t, b)
    requires |content| == t.PieceLength(i) && |blocks| == t.NumBlocks(i)
    requires blocks[BlockIndex(t, i, b.offset)] != Have
    ensures KeepsReceivedRight(t, i, b, blocks, content) <==> Covering(t, i, b, blocks, content)
  {
    if Covering(t, i, b, blocks, content) {
      forall data: seq<byte> | TrueSlot(t, i, Slot(data, blocks), content)
        ensures TrueSlot(t, i, Written(t, i, b, Slot(data, blocks)), content)
      {
        CoveringKeepsTrueSlot(t, i, b, Slot(data, blocks), content);
      }
    } else if KeepsReceivedRight(t, i, b, blocks, content) {
      KeepingIsCovering(t, i, b, blocks, content);
    }
  }
}
