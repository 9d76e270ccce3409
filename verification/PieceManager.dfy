/**
 * src/piece_manager.cpp: the object that peers register with, ask for blocks and deliver them
 * to. Each method updates its fields, its buffer and its file manager in place, and is proved
 * to do to their common abstract state what the engine's function for that event does.
 */
module PieceManagers {
  import opened Bytes
  import opened Layout
  import opened FileManagers
  import opened Engine
  import opened EngineInvariant
  import opened Safety
  import opened Buffers
  import Sha1Spec
  import Sha1

  class PieceManager {
    const torrent: Torrent
    const buffer: Buffer
    const fileManager: FileManager
    /** The `state` fields of `pieces_`; the other fields of that vector are in `torrent`. */
    var pieces: seq<PieceState>
    var peerPieceAffinity: map<nat, nat>
    var peersBitfield: map<nat, seq<bool>>
    var numPiecesCompleted: nat
    /** Every piece saved so far, in order. */
    ghost var log: seq<Saved>

    /** The parts fit together; this holds even where a method is half way through an update. */
    ghost predicate Assembled()
      reads this, buffer, buffer.slots, fileManager
    {
      && torrent.WellFormed()
      && (forall data :: torrent.hash(data) == Sha1Spec.Digest(data))
      && buffer.Valid() && fileManager.Valid()
      && buffer.slots.Length == torrent.bufferSize && buffer.blockLength == torrent.blockLength
      && fileManager.numPieces == torrent.NumPieces()
      && fileManager.fileLengths == torrent.FileLengths()
    }

    ghost function View(): State
      reads this, buffer, buffer.slots, fileManager
      requires Assembled()
    {
      State(pieces, buffer.Contents(), peerPieceAffinity, peersBitfield, numPiecesCompleted,
            fileManager.writeQueue, fileManager.writeCount, fileManager.Disk(), log)
    }

    ghost predicate Valid()
      reads this, buffer, buffer.slots, fileManager
    {
      Assembled() && Inv(torrent, View())
    }

    /** Lays out the pieces; nothing is started and the disk is all zeros. */
    constructor (hashes: seq<seq<byte>>, pieceLength: nat, totalLength: nat, files: seq<nat>,
                 blockLength: nat, bufferSize: nat)
      requires 0 < pieceLength < 0x1_0000_0000 && 0 < blockLength < 0x1_0000_0000 && 0 < totalLength
      requires |hashes| == CeilDiv(totalLength, pieceLength) < 0x1_0000_0000 && bufferSize < 0x8000_0000
      requires Sum(if files == [] then [totalLength] else files) == totalLength
      ensures Valid() && fresh(buffer) && fresh(buffer.slots) && fresh(fileManager)
      ensures View() == Initial(torrent)
      ensures torrent.pieceLength == pieceLength && torrent.totalLength == totalLength
      ensures torrent.blockLength == blockLength && torrent.bufferSize == bufferSize
      ensures torrent.files == files
      ensures fileManager.fileLengths == if files == [] then [totalLength] else files
      ensures Lengths(fileManager.openFiles) == fileManager.fileLengths
      ensures |torrent.pieces| == |hashes| && forall i :: 0 <= i < |hashes| ==> torrent.pieces[i].hash == hashes[i]
    {
      var numPieces := |hashes|;
      var metadata: seq<PieceMetadata> := [];
      var lastPieceLength := totalLength % pieceLength;
      for i := 0 to numPieces
        invariant |metadata| == i
        invariant forall j :: 0 <= j < i ==>
          && metadata[j].hash == hashes[j]
          && metadata[j].length == CurrentPieceLength(pieceLength, totalLength, numPieces, j)
          && metadata[j].numBlocks == CeilDiv(metadata[j].length, blockLength)
      {
        var length := if i == numPieces - 1 && lastPieceLength != 0 then lastPieceLength else pieceLength;
        var numBlocks := (length + blockLength - 1) / blockLength;
        metadata := metadata + [PieceMetadata(hashes[i], length, numBlocks)];
      }
      var t := Torrent(pieceLength, totalLength, blockLength, bufferSize, files, metadata, Sha1Spec.Digest);
      CeilDivBounds(totalLength, pieceLength);
      assert t.WellFormed();
      InitialInv(t);
      torrent := t;
      buffer := new Buffer(blockLength, pieceLength, bufferSize);
      fileManager := new FileManager(numPieces, totalLength, files);
      pieces := seq(numPieces, _ => NotStarted);
      peerPieceAffinity := map[];
      peersBitfield := map[];
      numPiecesCompleted := 0;
      log := [];
    }

    /** Drops the affinity of every peer bound to the piece. */
    method RemoveAffinity(pieceIndex: nat)
      modifies this`peerPieceAffinity
      ensures peerPieceAffinity == Unbind(old(peerPieceAffinity), pieceIndex)
    {
      ghost var before := peerPieceAffinity;
      var rest := peerPieceAffinity.Keys;
      while rest != {}
        invariant rest <= before.Keys
        invariant peerPieceAffinity == map p | p in before && (p in rest || before[p] != pieceIndex) :: before[p]
        decreases rest
      {
        var p :| p in rest;
        if peerPieceAffinity[p] == pieceIndex {
          peerPieceAffinity := peerPieceAffinity - {p};
        }
        rest := rest - {p};
      }
    }

    method UpdatePieceFrequencies(bitfield: seq<byte>, peerId: nat)
      requires Valid() && |bitfield| == torrent.NumPieces()
      modifies this`peersBitfield
      ensures Valid()
      ensures View() == UpdateBitfield(old(View()), peerId, Ones(bitfield))
      ensures peerId in peersBitfield && |peersBitfield[peerId]| == |bitfield|
      ensures forall i :: 0 <= i < |bitfield| ==> (peersBitfield[peerId][i] <==> bitfield[i] == 1)
    {
      hide Inv, SlotMap, Abstract, Torrent.WellFormed;
      var converted: seq<bool> := seq(|bitfield|, _ => true);
      for i := 0 to |bitfield|
        invariant |converted| == |bitfield|
        invariant forall j :: 0 <= j < i ==> (converted[j] <==> bitfield[j] == 1)
      {
        converted := converted[i := bitfield[i] == 1];
      }
      assert converted == Ones(bitfield);
      NextKeepsInv(torrent, View(), Bitfield(peerId, converted));
      peersBitfield := peersBitfield[peerId := converted];
    }

    method RemovePeer(peerId: nat)
      requires Valid()
      modifies this`peerPieceAffinity, this`peersBitfield
      ensures Valid()
      ensures View() == Engine.RemovePeer(old(View()), peerId)
    {
      hide Inv, SlotMap, Abstract;
      NextKeepsInv(torrent, View(), PeerGone(peerId));
      peerPieceAffinity := peerPieceAffinity - {peerId};
      peersBitfield := peersBitfield - {peerId};
    }

    method IsDownloadComplete() returns (complete: bool)
      requires Valid()
      ensures complete <==> forall i :: 0 <= i < |pieces| ==> pieces[i] == Completed
    {
      hide Inv, SlotMap, Abstract;
      Sizes(torrent, View());
      CompleteIffAllCompleted(torrent, View());
      complete := numPiecesCompleted == |pieces|;
    }

    /** The writer thread's loop, one pass at a time. */
    method RunWriter(stop: bool) returns (running: bool)
      requires Valid()
      modifies fileManager
      ensures Valid()
      ensures View() == WriterPass(torrent, old(View()), stop)
      ensures running == (!stop && old(fileManager.writeCount) != torrent.NumPieces())
    {
      hide Inv, SlotMap, Abstract;
      ghost var before := View();
      Sizes(torrent, before);
      WriterPassKeepsInv(torrent, before, stop);
      if fileManager.writeQueue != [] { HeadIsWritable(torrent, before); }
      running := fileManager.FileWriterPass(stop);
      if running && before.queue != [] {
        PassIs(torrent, before, fileManager.Disk());
      }
    }

    /** A pass that has a job: the job leaves the queue, is counted, and is spliced into the disk. */
    lemma PassIs(t: Torrent, s: State, disk: seq<byte>)
      requires Inv(t, s) && s.written != t.NumPieces() && s.queue != []
      requires s.queue[0].offset + |s.queue[0].data| <= |s.disk|
      requires disk == Splice(s.disk, s.queue[0].offset, s.queue[0].data)
      ensures WriterPass(t, s, false) == s.(queue := s.queue[1..], written := s.written + 1, disk := disk)
    {
      hide Inv;
    }

    /**
     * The first piece not started that the peer has goes into the buffer, which has room, and
     * becomes the peer's piece.
     */
    method HandleBufferNotFullCase(peerId: nat) returns (chosen: Option<nat>, ghost stale: seq<byte>)
      requires Valid() && peerId in peersBitfield && |buffer.Contents()| < torrent.bufferSize
      modifies this`pieces, this`peerPieceAffinity, buffer, buffer.slots
      ensures Valid()
      ensures chosen == ToAdd(torrent, old(View()), peerId)
      ensures chosen.None? ==> View() == old(View())
      ensures chosen.Some? ==>
        && |stale| == torrent.PieceLength(chosen.value)
        && View() == AddPiece(torrent, old(View()), peerId, chosen.value, stale)
    {
      hide Inv, FirstWanted, SlotMap, Abstract;
      stale := [];
      ghost var before := View();
      Sizes(torrent, before);
      var bitfield := peersBitfield[peerId];
      chosen := FindWanted(pieces, bitfield);
      assert chosen == ToAdd(torrent, before, peerId);

      if chosen.Some? {
        var pieceIndex := chosen.value;
        var added;
        added, stale := buffer.AddPieceToBuffer(
          pieceIndex, torrent.pieces[pieceIndex].numBlocks, torrent.pieces[pieceIndex].length);
        pieces := pieces[pieceIndex := Buffered];
        peerPieceAffinity := peerPieceAffinity[peerId := pieceIndex];
        AddPieceKeepsInv(torrent, before, peerId, pieceIndex, stale);
        assert View() == AddPiece(torrent, before, peerId, pieceIndex, stale);
      }
    }

    /**
     * Probes the pieces in the buffer, in any order and from any starting point, once around,
     * for one the peer has; it finds one exactly when there is one.
     */
    method HandleBufferFullOrNoPieceToAdd(peerId: nat) returns (chosen: Option<nat>)
      requires Valid() && peerId in peersBitfield
      modifies this`pieces, this`peerPieceAffinity, buffer.slots
      ensures Valid()
      ensures chosen.Some? <==> HasAdvertised(old(View()), peerId)
      ensures chosen.None? ==> View() == old(View())
      ensures chosen.Some? ==>
        && Advertised(old(View()), peerId, chosen.value)
        && View() == JoinPiece(old(View()), peerId, chosen.value)
    {
      hide Inv, SlotMap, Abstract;
      ghost var before := View();
      Sizes(torrent, before);
      var bitfield := peersBitfield[peerId];
      var inBuffer := buffer.GetPiecesInBuffer();
      chosen := None;
      if |inBuffer| > 0 {
        var found: bool, at: nat := Probe(inBuffer, bitfield);
        if found {
          var pieceIndex := inBuffer[at];
          assert pieceIndex in before.buffer && Advertised(before, peerId, pieceIndex);
          JoinPieceKeepsInv(torrent, before, peerId, pieceIndex);
          chosen := Some(pieceIndex);
          peerPieceAffinity := peerPieceAffinity[peerId := pieceIndex];
          if pieces[pieceIndex] == AllRequested {
            buffer.ClearAllRequested(pieceIndex);
            pieces := pieces[pieceIndex := Buffered];
          }
          assert View() == JoinPiece(before, peerId, pieceIndex);
        }
      }
    }

    /** The length of the request for a block: short only for the last block of the last piece. */
    method CalculateBlockLength(pieceIndex: nat, blockIdx: nat) returns (blockLen: nat)
      requires Valid() && pieceIndex < torrent.NumPieces()
      ensures blockLen == torrent.RequestLength(pieceIndex, blockIdx)
    {
      hide Inv;
      blockLen := torrent.blockLength;
      Sizes(torrent, View());
      if pieceIndex == |pieces| - 1 {
        var lastBlockLength := torrent.pieces[|pieces| - 1].length % torrent.blockLength;
        var numberOfBlocks := torrent.pieces[|pieces| - 1].length / torrent.blockLength;
        if blockIdx < numberOfBlocks {
          return torrent.blockLength;
        } else {
          return lastBlockLength;
        }
      }
    }

    /**
     * Chooses a piece for the peer and the first free block of it. The oracle returned says
     * which of the possible outcomes of the probe, and which stale bytes, this call met.
     */
    method SelectNextBlock(peerId: nat) returns (request: Option<BlockRequest>, ghost o: Oracle)
      requires Valid()
      modifies this`pieces, this`peerPieceAffinity, buffer, buffer.slots
      ensures Valid()
      ensures Possible(torrent, old(View()), peerId, o)
      ensures (View(), request) == Select(torrent, old(View()), peerId, o)
    {
      hide Inv, SlotMap, Abstract, Possible, Choose, MarkRequested;
      o := Oracle(0, []);
      ghost var before := View();
      if peerId !in peersBitfield {
        UnregisteredIsPossible(torrent, before, peerId, o);
        return None, o;
      }
      var chosen;
      chosen, o := ChoosePiece(peerId);
      ChooseKeepsInv(torrent, before, peerId, o);
      if chosen.None? {
        return None, o;
      }

      var pieceIndex := chosen.value;
      ghost var mid := View();
      Sizes(torrent, mid);
      request := RetrieveBlock(pieceIndex);
    }

    lemma UnregisteredIsPossible(t: Torrent, s: State, peer: nat, o: Oracle)
      requires Inv(t, s) && peer !in s.bitfields
      ensures Possible(t, s, peer, o)
    {
    }

    /** Steps 1 to 3 of the selection. */
    method ChoosePiece(peerId: nat) returns (chosen: Option<nat>, ghost o: Oracle)
      requires Valid() && peerId in peersBitfield
      modifies this`pieces, this`peerPieceAffinity, buffer, buffer.slots
      ensures Valid()
      ensures Possible(torrent, old(View()), peerId, o)
      ensures (View(), chosen) == Choose(torrent, old(View()), peerId, o)
    {
      hide Inv, SlotMap, Abstract, AddPiece, JoinPiece, FirstWanted;
      ghost var before := View();
      ghost var stale: seq<byte> := [];
      Sizes(torrent, before);
      RoomLeft(torrent, before);
      chosen := None;
      // 1. the peer's own piece
      if peerId in peerPieceAffinity {
        chosen := Some(peerPieceAffinity[peerId]);
      }
      // 2. a new piece for the buffer
      var full := buffer.IsFull();
      if chosen.None? && !full {
        chosen, stale := HandleBufferNotFullCase(peerId);
      }
      // 3. a piece that is already there
      if chosen.None? {
        chosen := HandleBufferFullOrNoPieceToAdd(peerId);
      }
      o := Oracle(if chosen.Some? then chosen.value else 0, stale);
    }

    /** Marks the first free block of the piece and makes a request of it. */
    method RetrieveBlock(pieceIndex: nat) returns (request: Option<BlockRequest>)
      requires Valid() && pieceIndex in buffer.Contents() && pieceIndex < |pieces| == torrent.NumPieces()
      modifies this`pieces, this`peerPieceAffinity, buffer.slots
      ensures Valid()
      ensures (View(), request) == Retrieve(torrent, old(View()), pieceIndex)
    {
      hide Inv, SlotMap, Abstract, Torrent.RequestLength, FirstDontHave;
      ghost var before := View();
      MarkRequestedKeepsInv(torrent, before, pieceIndex);
      var allRequestedOrCompleted, blockIdx := buffer.GetBlockIndexToRetrieve(pieceIndex);
      if allRequestedOrCompleted {
        pieces := pieces[pieceIndex := AllRequested];
        RemoveAffinity(pieceIndex);
      }
      assert View() == MarkRequested(before, pieceIndex, blockIdx);
      if blockIdx.None? {
        return None;
      }
      var blockLen := CalculateBlockLength(pieceIndex, blockIdx.value);
      return Some(BlockRequest(pieceIndex, blockIdx.value * torrent.blockLength, blockLen));
    }

    /** A block must name a piece, start inside it and not run past its end. */
    method IsValidBlockData(b: Block) returns (valid: bool)
      requires Valid()
      ensures valid <==> ValidBlock(torrent, b)
      ensures valid <==>
        && b.piece < |torrent.pieces| && b.offset < torrent.pieces[b.piece].length
        && b.offset + |b.data| <= torrent.pieces[b.piece].length
    {
      hide Inv;
      Sizes(torrent, View());
      if b.piece >= |pieces| {
        return false;
      }
      if b.offset >= torrent.pieces[b.piece].length {
        return false;
      }
      var lengthRemaining := torrent.pieces[b.piece].length - b.offset;
      return |b.data| <= lengthRemaining;
    }

    /** The SHA-1 digest of the bytes against the piece's hash. */
    method IsVerifiedPiece(pieceIndex: nat, data: seq<byte>) returns (ok: bool)
      requires Assembled() && pieceIndex < torrent.NumPieces()
      ensures ok <==> torrent.hash(data) == torrent.pieces[pieceIndex].hash
    {
      hide Sha1Spec.Digest;
      ok := Sha1.IsVerified(data, torrent.pieces[pieceIndex].hash);
    }

    /** Hands the bytes of a verified piece to the writer, at the piece's position. */
    method SavePiece(pieceIndex: nat, data: seq<byte>)
      requires Assembled()
      modifies fileManager`writeQueue, this`log
      ensures Assembled()
      ensures log == old(log) + [Saved(pieceIndex, data)]
      ensures fileManager.writeQueue == old(fileManager.writeQueue) + [JobOf(torrent, Saved(pieceIndex, data))]
    {
      var fileOffset := pieceIndex * torrent.pieceLength;
      fileManager.SavePiece(fileOffset, data);
      log := log + [Saved(pieceIndex, data)];
    }

    method RemovePieceFromBuffer(pieceIndex: nat)
      requires Assembled() && pieceIndex in buffer.Contents()
      modifies this`peerPieceAffinity, buffer, buffer.slots
      ensures Assembled()
      ensures View() == Evict(old(View()), pieceIndex)
    {
      hide SlotMap, Abstract;
      RemoveAffinity(pieceIndex);
      buffer.RemovePieceFromBuffer(pieceIndex);
    }

    /**
     * Takes any block from any peer: one that is valid and wanted is written; a piece that is
     * thereby complete is checked, saved or started afresh, and leaves the buffer either way.
     */
    method AddBlock(peerId: nat, b: Block)
      requires Valid()
      modifies this, buffer, buffer.slots, fileManager`writeQueue
      ensures Valid()
      ensures View() == Engine.AddBlock(torrent, old(View()), b)
    {
      hide Inv, SlotMap, Abstract, BlockIndex, Engine.FinishPiece, BufferInv, Splice;
      ghost var before := View();
      var valid := IsValidBlockData(b);
      if !valid {
        return;
      }
      WriteIsInRange(torrent, before, b);
      var should := buffer.ShouldWriteBlock(b.offset, b.piece);
      if !should {
        return;
      }
      AddBlockKeepsInv(torrent, before, b);
      var completed, completedPiece := buffer.WriteBlockToBuffer(b);
      assert View() == before.(buffer := before.buffer[b.piece := WriteBlock(torrent, before, b)]);
      if completed {
        FinishPiece(b.piece, completedPiece);
      }
    }

    /** Checks, saves or restarts a piece whose blocks are all received, and frees its slot. */
    method FinishPiece(pieceIndex: nat, data: seq<byte>)
      requires Assembled() && pieceIndex in buffer.Contents()
      requires pieceIndex < |pieces| == torrent.NumPieces() && |data| == torrent.PieceLength(pieceIndex)
      modifies this, buffer, buffer.slots, fileManager`writeQueue
      ensures Assembled()
      ensures View() == Engine.FinishPiece(torrent, old(View()), pieceIndex, data)
    {
      hide SlotMap, Abstract, Unbind, Flatten, Torrent.WellFormed;
      var verified := IsVerifiedPiece(pieceIndex, data);
      if verified {
        SavePiece(pieceIndex, data);
        pieces := pieces[pieceIndex := Completed];
        numPiecesCompleted := numPiecesCompleted + 1;
      } else {
        pieces := pieces[pieceIndex := NotStarted];
      }
      RemovePieceFromBuffer(pieceIndex);
    }

    /** A valid block of a buffered piece falls inside its slot, so no index is out of range. */
    lemma WriteIsInRange(t: Torrent, s: State, b: Block)
      requires Inv(t, s) && ValidBlock(t, b)
      ensures BufferInv(t, s.pieces, s.buffer)
      ensures BlockIndex(t, b.piece, b.offset) == b.offset / t.blockLength
      ensures b.piece in s.buffer ==>
        && |s.buffer[b.piece].data| == t.PieceLength(b.piece)
        && b.offset / t.blockLength < |s.buffer[b.piece].blocks|
    {
    }

    /** The oldest queued job, if any, lies in the files. */
    lemma HeadIsWritable(t: Torrent, s: State)
      requires Inv(t, s) && s.queue != []
      ensures s.queue[0].offset < t.totalLength && s.queue[0].offset + |s.queue[0].data| <= t.totalLength
    {
      JobInRange(t, s.log[s.written]);
    }

    lemma RoomLeft(t: Torrent, s: State)
      requires Inv(t, s)
      ensures |s.buffer| <= t.bufferSize
    {
    }
  }

  /** Scans for the first piece that is not started and that the peer has. */
  method FindWanted(pieces: seq<PieceState>, bitfield: seq<bool>) returns (chosen: Option<nat>)
    requires |bitfield| == |pieces|
    ensures chosen == FirstWanted(pieces, bitfield, 0)
  {
    chosen := None;
    var i := 0;
    while i < |bitfield|
      invariant 0 <= i <= |bitfield| && chosen == None
      invariant FirstWanted(pieces, bitfield, 0) == FirstWanted(pieces, bitfield, i)
    {
      if pieces[i] == NotStarted && bitfield[i] {
        chosen := Some(i);
        break;
      }
      i := i + 1;
    }
  }

  /** The bitfield as a vector of flags: only the value one means "has". */
  function Ones(bitfield: seq<byte>): (r: seq<bool>)
    ensures |r| == |bitfield|
    ensures forall i :: 0 <= i < |r| ==> (r[i] <==> bitfield[i] == 1)
  {
    seq(|bitfield|, i requires 0 <= i < |bitfield| => bitfield[i] == 1)
  }

  /**
   * The cyclic do-while of the probe: from an arbitrary start, each entry is looked at once
   * until one the peer has is met.
   */
  method Probe(entries: seq<nat>, has: seq<bool>) returns (found: bool, at: nat)
    requires |entries| > 0 && forall k :: 0 <= k < |entries| ==> entries[k] < |has|
    ensures found <==> exists k :: 0 <= k < |entries| && has[entries[k]]
    ensures found ==> at < |entries| && has[entries[at]]
  {
    var n := |entries|;
    var start: nat :| start < n;
    var i := start;
    ghost var seen := 0;
    while true
      invariant 0 <= seen < n && 0 <= i < n
      invariant i == if start + seen < n then start + seen else start + seen - n
      invariant forall k :: 0 <= k < n && Passed(k, start, seen, n) ==> !has[entries[k]]
      decreases n - seen
    {
      if has[entries[i]] {
        return true, i;
      }
      CyclicNext(i, n);
      i := (i + 1) % n;
      seen := seen + 1;
      if i == start {
        break;
      }
    }
    assert forall k :: 0 <= k < n ==> Passed(k, start, n, n);
    return false, 0;
  }

  lemma CyclicNext(i: nat, n: nat)
    requires i < n
    ensures (i + 1) % n == if i + 1 < n then i + 1 else 0
  {
    QuotientIs(i + 1, n, if i + 1 < n then 0 else 1);
  }

  /** Entry `k` is among the first `seen` that a cyclic scan from `start` visits. */
  ghost predicate Passed(k: nat, start: nat, seen: nat, n: nat) {
    start <= k < start + seen || k + n < start + seen
  }
}
