/**
 * src/buffer.cpp: a fixed array of slots, reused as pieces come and go, and a map from piece
 * index to slot. It refines a bounded map from piece index to bytes and block states.
 */
module Buffers {
  import opened Bytes
  import opened Engine

  /** An element of `buffer_`; a freed slot keeps the bytes and states it had. */
  datatype BufferPiece = BufferPiece(pieceIndex: nat, data: seq<byte>, blocks: seq<BlockState>, empty: bool)

  /** The slot map is a bijection between the mapped pieces and the slots not marked empty. */
  ghost predicate SlotMap(slots: seq<BufferPiece>, m: map<nat, nat>) {
    && (forall p :: p in m ==> m[p] < |slots| && !slots[m[p]].empty && slots[m[p]].pieceIndex == p)
    && (forall i :: 0 <= i < |slots| && !slots[i].empty ==>
          slots[i].pieceIndex in m && m[slots[i].pieceIndex] == i)
  }

  /** The map that the slots represent. */
  ghost function Abstract(slots: seq<BufferPiece>, m: map<nat, nat>): (r: map<nat, Slot>)
    requires SlotMap(slots, m)
    ensures r.Keys == m.Keys
  {
    map p | p in m :: Slot(slots[m[p]].data, slots[m[p]].blocks)
  }

  /** Two pieces never share a slot. */
  lemma SlotMapInjective(slots: seq<BufferPiece>, m: map<nat, nat>, p: nat, q: nat)
    requires SlotMap(slots, m) && p in m && q in m && m[p] == m[q]
    ensures p == q
  {
  }

  lemma RemoveFromMap(m: map<nat, nat>, p: nat)
    requires p in m
    ensures |m - {p}| == |m| - 1
  {
    assert (m - {p}).Keys == m.Keys - {p};
  }

  /** The slot map without its last slot and the piece, if any, that is in it. */
  function WithoutLast(slots: seq<BufferPiece>, m: map<nat, nat>): map<nat, nat>
    requires |slots| > 0
  {
    var last := slots[|slots| - 1];
    if last.empty then m else m - {last.pieceIndex}
  }

  lemma DropLastSlot(slots: seq<BufferPiece>, m: map<nat, nat>)
    requires SlotMap(slots, m) && |slots| > 0
    ensures var last := |slots| - 1;
      && SlotMap(slots[..last], WithoutLast(slots, m))
      && |WithoutLast(slots, m)| == if slots[last].empty then |m| else |m| - 1
  {
    var last := |slots| - 1;
    if !slots[last].empty { RemoveFromMap(m, slots[last].pieceIndex); }
  }

  /** Pigeonhole: the map never outgrows the slots, and while it is smaller a slot is free. */
  lemma {:induction false} FreeSlotExists(slots: seq<BufferPiece>, m: map<nat, nat>)
    requires SlotMap(slots, m)
    ensures |m| <= |slots|
    ensures |m| < |slots| <==> exists i :: 0 <= i < |slots| && slots[i].empty
    decreases |slots|
  {
    if |slots| == 0 {
      assert m.Keys == {};
      assert |m| == |m.Keys|;
    } else {
      var last := |slots| - 1;
      DropLastSlot(slots, m);
      FreeSlotExists(slots[..last], WithoutLast(slots, m));
      assert forall i :: 0 <= i < last ==> slots[..last][i].empty == slots[i].empty;
    }
  }

  /** Changing the contents of one piece's slot changes that piece and no other. */
  lemma UpdateSlot(slots: seq<BufferPiece>, m: map<nat, nat>, p: nat, data: seq<byte>, blocks: seq<BlockState>)
    requires SlotMap(slots, m) && p in m
    ensures var slots' := slots[m[p] := BufferPiece(p, data, blocks, false)];
      SlotMap(slots', m) && Abstract(slots', m) == Abstract(slots, m)[p := Slot(data, blocks)]
  {
    var slots' := slots[m[p] := BufferPiece(p, data, blocks, false)];
    assert SlotMap(slots', m);
    assert Abstract(slots', m) == Abstract(slots, m)[p := Slot(data, blocks)];
  }

  /** Taking a free slot for a piece not in the buffer adds that piece and touches no other. */
  lemma TakeSlot(slots: seq<BufferPiece>, m: map<nat, nat>, p: nat, i: nat, data: seq<byte>, blocks: seq<BlockState>)
    requires SlotMap(slots, m) && p !in m && i < |slots| && slots[i].empty
    ensures var slots' := slots[i := BufferPiece(p, data, blocks, false)];
      SlotMap(slots', m[p := i]) && Abstract(slots', m[p := i]) == Abstract(slots, m)[p := Slot(data, blocks)]
  {
    var slots' := slots[i := BufferPiece(p, data, blocks, false)];
    assert SlotMap(slots', m[p := i]);
    assert Abstract(slots', m[p := i]) == Abstract(slots, m)[p := Slot(data, blocks)];
  }

  /** Marking a slot empty and unmapping its piece removes that piece and touches no other. */
  lemma FreeSlot(slots: seq<BufferPiece>, m: map<nat, nat>, p: nat)
    requires SlotMap(slots, m) && p in m
    ensures var slots' := slots[m[p] := slots[m[p]].(empty := true)];
      SlotMap(slots', m - {p}) && Abstract(slots', m - {p}) == Abstract(slots, m) - {p}
  {
    var slots' := slots[m[p] := slots[m[p]].(empty := true)];
    assert SlotMap(slots', m - {p});
    assert Abstract(slots', m - {p}) == Abstract(slots, m) - {p};
  }

  class Buffer {
    const blockLength: nat
    const slots: array<BufferPiece>
    var pieceBufferMap: map<nat, nat>

    ghost predicate Valid()
      reads this, slots
    {
      blockLength > 0 && SlotMap(slots[..], pieceBufferMap)
    }

    ghost function Contents(): map<nat, Slot>
      reads this, slots
      requires Valid()
    {
      Abstract(slots[..], pieceBufferMap)
    }

    constructor (blockLength: nat, pieceLength: nat, bufferSize: nat)
      requires blockLength > 0
      ensures Valid() && fresh(slots)
      ensures this.blockLength == blockLength && slots.Length == bufferSize
      ensures Contents() == map[]
    {
      this.blockLength := blockLength;
      var numBlocks := pieceLength / blockLength;
      slots := new BufferPiece[bufferSize](
        _ => BufferPiece(0, Zeros(pieceLength), seq(numBlocks, _ => DontHave), true));
      pieceBufferMap := map[];
    }

    /** The pieces in the buffer, each once, in no particular order. */
    method GetPiecesInBuffer() returns (res: seq<nat>)
      requires Valid()
      ensures forall p :: p in Contents() ==> p in res
      ensures forall k :: 0 <= k < |res| ==> res[k] in Contents()
      ensures forall j, k :: 0 <= j < k < |res| ==> res[j] != res[k]
    {
      res := [];
      var left := pieceBufferMap.Keys;
      while left != {}
        invariant left <= pieceBufferMap.Keys
        invariant forall p :: p in pieceBufferMap <==> p in left || p in res
        invariant forall p :: p in left ==> p !in res
        invariant forall j, k :: 0 <= j < k < |res| ==> res[j] != res[k]
        decreases left
      {
        var p :| p in left;
        res := res + [p];
        left := left - {p};
      }
    }

    method IsFull() returns (full: bool)
      requires Valid()
      ensures full <==> |Contents()| == slots.Length
    {
      full := |pieceBufferMap| == slots.Length;
      SameSize();
    }

    lemma SameSize()
      requires Valid()
      ensures |Contents()| == |pieceBufferMap| <= slots.Length
    {
      FreeSlotExists(slots[..], pieceBufferMap);
      assert Contents().Keys == pieceBufferMap.Keys;
      assert |Contents()| == |Contents().Keys|;
    }

    /**
     * Puts a piece not yet in the buffer into the first free slot. Its bytes are what the slot
     * held before, cut or zero-padded to the piece's length; none of its blocks is received.
     */
    method AddPieceToBuffer(pieceIndex: nat, numBlocks: nat, pieceLength: nat)
      returns (added: bool, ghost stale: seq<byte>)
      requires Valid() && pieceIndex !in Contents()
      modifies this`pieceBufferMap, slots
      ensures Valid()
      ensures added <==> |old(Contents())| < slots.Length
      ensures !added ==> Contents() == old(Contents())
      ensures added ==>
        && |stale| == pieceLength
        && (exists i :: 0 <= i < slots.Length && old(slots[i].empty)
             && stale == Resize(old(slots[i].data), pieceLength))
        && Contents() == old(Contents())[pieceIndex := Fresh(stale, numBlocks)]
    {
      stale := [];
      SameSize();
      if |pieceBufferMap| == slots.Length {
        return false, stale;
      }
      FreeSlotExists(slots[..], pieceBufferMap);
      var emptyIdx: int := -1;
      var i := 0;
      while i < slots.Length
        invariant 0 <= i <= slots.Length
        invariant emptyIdx == -1 && forall j :: 0 <= j < i ==> !slots[j].empty
      {
        if slots[i].empty {
          emptyIdx := i;
          break;
        }
        i := i + 1;
      }
      assert 0 <= emptyIdx < slots.Length && slots[emptyIdx].empty;

      var data := Resize(slots[emptyIdx].data, pieceLength);
      var blocks := ResizeBlocks(slots[emptyIdx].blocks, numBlocks);
      var k := 0;
      while k < |blocks|
        invariant 0 <= k <= |blocks| == numBlocks
        invariant forall j :: 0 <= j < k ==> blocks[j] == DontHave
      {
        blocks := blocks[k := DontHave];
        k := k + 1;
      }
      stale := data;
      assert Fresh(stale, numBlocks) == Slot(data, blocks);
      TakeSlot(slots[..], pieceBufferMap, pieceIndex, emptyIdx, data, blocks);
      ghost var before := slots[..];
      slots[emptyIdx] := BufferPiece(pieceIndex, data, blocks, false);
      assert slots[..] == before[emptyIdx := BufferPiece(pieceIndex, data, blocks, false)];
      pieceBufferMap := pieceBufferMap[pieceIndex := emptyIdx];
      added := true;
    }

    /**
     * Marks the first block that is neither requested nor received, and says whether none
     * such is left afterwards.
     */
    method GetBlockIndexToRetrieve(pieceIndex: nat)
      returns (allRequestedOrCompleted: bool, chosen: Option<nat>)
      requires Valid() && pieceIndex in Contents()
      modifies slots
      ensures Valid()
      ensures chosen == FirstDontHave(old(Contents())[pieceIndex].blocks, 0)
      ensures var was := old(Contents())[pieceIndex];
        var blocks := if chosen.Some? then was.blocks[chosen.value := Requested] else was.blocks;
        && Contents() == old(Contents())[pieceIndex := was.(blocks := blocks)]
        && allRequestedOrCompleted == NoDontHave(blocks)
    {
      var idx := pieceBufferMap[pieceIndex];
      var piece := slots[idx];
      var blocks := piece.blocks;
      chosen := None;
      var i := 0;
      while i < |piece.blocks|
        invariant 0 <= i <= |piece.blocks|
        invariant chosen == None && blocks == piece.blocks
        invariant FirstDontHave(piece.blocks, 0) == FirstDontHave(piece.blocks, i)
      {
        if blocks[i] == DontHave {
          chosen := Some(i);
          blocks := blocks[i := Requested];
          break;
        }
        i := i + 1;
      }
      assert chosen == FirstDontHave(piece.blocks, 0);
      allRequestedOrCompleted := NoDontHave(blocks);
      UpdateSlot(slots[..], pieceBufferMap, pieceIndex, piece.data, blocks);
      ghost var before := slots[..];
      slots[idx] := piece.(blocks := blocks);
      assert slots[..] == before[idx := BufferPiece(pieceIndex, piece.data, blocks, false)];
    }

    /** Copies a block into its piece, marks it received, and says whether the piece is complete. */
    method WriteBlockToBuffer(b: Block) returns (completed: bool, data: seq<byte>)
      requires Valid() && b.piece in Contents()
      requires b.offset + |b.data| <= |Contents()[b.piece].data|
      requires b.offset / blockLength < |Contents()[b.piece].blocks|
      modifies slots
      ensures Valid()
      ensures var was := old(Contents())[b.piece];
        var now := Slot(Splice(was.data, b.offset, b.data), was.blocks[b.offset / blockLength := Have]);
        && Contents() == old(Contents())[b.piece := now]
        && data == now.data && completed == AllHave(now.blocks)
    {
      var idx := pieceBufferMap[b.piece];
      var piece := slots[idx];
      data := Splice(piece.data, b.offset, b.data);
      var blocks := piece.blocks[b.offset / blockLength := Have];
      completed := AllHave(blocks);
      UpdateSlot(slots[..], pieceBufferMap, b.piece, data, blocks);
      ghost var before := slots[..];
      slots[idx] := piece.(data := data, blocks := blocks);
      assert slots[..] == before[idx := BufferPiece(b.piece, data, blocks, false)];
    }

    /** Whether a block is wanted: its piece is in the buffer and the block not yet received. */
    method ShouldWriteBlock(blockOffset: nat, pieceIndex: nat) returns (should: bool)
      requires Valid()
      requires pieceIndex in Contents() ==> blockOffset / blockLength < |Contents()[pieceIndex].blocks|
      ensures should <==>
        pieceIndex in Contents() && Contents()[pieceIndex].blocks[blockOffset / blockLength] != Have
    {
      var blockIndex := blockOffset / blockLength;
      if pieceIndex in pieceBufferMap {
        var state := slots[pieceBufferMap[pieceIndex]].blocks[blockIndex];
        should := state == Requested || state == DontHave;
      } else {
        should := false;
      }
    }

    method RemovePieceFromBuffer(pieceIndex: nat)
      requires Valid() && pieceIndex in Contents()
      modifies this`pieceBufferMap, slots
      ensures Valid()
      ensures Contents() == old(Contents()) - {pieceIndex}
    {
      var idx := pieceBufferMap[pieceIndex];
      FreeSlot(slots[..], pieceBufferMap, pieceIndex);
      ghost var before := slots[..];
      slots[idx] := slots[idx].(empty := true);
      assert slots[..] == before[idx := before[idx].(empty := true)];
      pieceBufferMap := pieceBufferMap - {pieceIndex};
    }

    /** Every requested block of the piece is free to be requested again. */
    method ClearAllRequested(pieceIndex: nat)
      requires Valid() && pieceIndex in Contents()
      modifies slots
      ensures Valid()
      ensures var was := old(Contents())[pieceIndex];
        Contents() == old(Contents())[pieceIndex := was.(blocks := ClearRequested(was.blocks))]
    {
      var idx := pieceBufferMap[pieceIndex];
      var piece := slots[idx];
      var vec := piece.blocks;
      var i := 0;
      while i < |vec|
        invariant 0 <= i <= |vec| == |piece.blocks|
        invariant forall j :: 0 <= j < i ==> vec[j] == Forgotten(piece.blocks[j])
        invariant forall j :: i <= j < |vec| ==> vec[j] == piece.blocks[j]
      {
        if vec[i] == Requested {
          vec := vec[i := DontHave];
        }
        i := i + 1;
      }
      assert vec == ClearRequested(piece.blocks);
      UpdateSlot(slots[..], pieceBufferMap, pieceIndex, piece.data, vec);
      ghost var before := slots[..];
      slots[idx] := piece.(blocks := vec);
      assert slots[..] == before[idx := BufferPiece(pieceIndex, piece.data, vec, false)];
    }
  }

  /** `std::vector::resize` of the block states; new entries are overwritten by the caller. */
  function ResizeBlocks(blocks: seq<BlockState>, n: nat): (r: seq<BlockState>)
    ensures |r| == n
    ensures forall k :: 0 <= k < n ==> r[k] == if k < |blocks| then blocks[k] else Have
  {
    if n <= |blocks| then blocks[..n] else blocks + seq(n - |blocks|, _ => Have)
  }
}
