/**
 * Runs in which every block that is written covers its block with the right bytes, as the reply
 * to an exact request does: no verification ever fails and the disk ends up as the content.
 */
module Honest {
  import opened Bytes
  import opened Layout
  import opened Engine
  import opened EngineInvariant
  import opened Accepted
  import opened Safety

  /** `truth` is content, piece by piece, that matches the torrent's lengths and hashes. */
  ghost predicate IsContent(t: Torrent, truth: seq<seq<byte>>) {
    && |truth| == t.NumPieces()
    && forall i :: 0 <= i < |truth| ==> |truth[i]| == t.PieceLength(i) && t.hash(truth[i]) == t.pieces[i].hash
  }

  /** The setting of all honest runs. */
  ghost predicate Setting(t: Torrent, truth: seq<seq<byte>>) {
    t.WellFormed() && IsContent(t, truth)
  }

  /** The reply to a request for block `k`: exactly its bytes, up to the end of the piece. */
  function Reply(t: Torrent, i: nat, k: nat, content: seq<byte>): Block
    requires t.WellFormed() && i < t.NumPieces() && k < t.NumBlocks(i)
    requires |content| == t.PieceLength(i)
  {
    BlockRange(t, i, k);
    Block(i, BlockStart(t, k), content[BlockStart(t, k)..BlockEnd(t, i, k)])
  }

  lemma ReplyIsValid(t: Torrent, i: nat, k: nat, content: seq<byte>)
    requires t.WellFormed() && i < t.NumPieces() && k < t.NumBlocks(i)
    requires |content| == t.PieceLength(i)
    ensures ValidBlock(t, Reply(t, i, k, content))
    ensures BlockIndex(t, i, Reply(t, i, k, content).offset) == k
  {
    BlockRange(t, i, k);
    assert BlockStart(t, k) / t.blockLength == k;
  }

  // ---------------------------------------------------------------- honest runs

  ghost predicate TrueBuffer(t: Torrent, truth: seq<seq<byte>>, buffer: map<nat, Slot>)
    requires Setting(t, truth)
  {
    forall i :: i in buffer ==> i < t.NumPieces() && TrueSlot(t, i, buffer[i], truth[i])
  }

  ghost predicate TrueLog(t: Torrent, truth: seq<seq<byte>>, log: seq<Saved>) {
    |truth| == t.NumPieces()
    && forall k :: 0 <= k < |log| ==> log[k].index < |truth| && log[k].data == truth[log[k].index]
  }

  /** All received blocks, and all saved pieces, are the right bytes. */
  ghost predicate HonestInv(t: Torrent, truth: seq<seq<byte>>, s: State)
    requires Setting(t, truth)
  {
    TrueBuffer(t, truth, s.buffer) && TrueLog(t, truth, s.log)
  }

  /** If the block is written at all, it is one that keeps every received block right. */
  ghost predicate HonestBlock(t: Torrent, truth: seq<seq<byte>>, s: State, b: Block)
    requires Setting(t, truth) && BufferInv(t, s.pieces, s.buffer)
  {
    ValidBlock(t, b) && ShouldWrite(t, s, b) ==>
      Covering(t, b.piece, b, s.buffer[b.piece].blocks, truth[b.piece])
  }

  ghost predicate HonestEvent(t: Torrent, truth: seq<seq<byte>>, s: State, e: Event)
    requires Setting(t, truth)
  {
    e.Receive? ==> BufferInv(t, s.pieces, s.buffer) && HonestBlock(t, truth, s, e.block)
  }

  /** States of blocks may change between requested and not requested without touching bytes. */
  lemma RelabelKeepsTrueSlot(t: Torrent, i: nat, slot: Slot, content: seq<byte>, blocks: seq<BlockState>)
    requires t.WellFormed() && i < t.NumPieces() && TrueSlot(t, i, slot, content)
    requires |blocks| == |slot.blocks|
    requires forall k :: 0 <= k < |blocks| && blocks[k] == Have ==> slot.blocks[k] == Have
    ensures TrueSlot(t, i, slot.(blocks := blocks), content)
  {
  }

  lemma FreshIsTrue(t: Torrent, i: nat, stale: seq<byte>, content: seq<byte>)
    requires t.WellFormed() && i < t.NumPieces() && |stale| == |content| == t.PieceLength(i)
    ensures TrueSlot(t, i, Fresh(stale, t.NumBlocks(i)), content)
  {
  }

  lemma PutKeepsTrue(t: Torrent, truth: seq<seq<byte>>, buffer: map<nat, Slot>, i: nat, slot: Slot)
    requires Setting(t, truth) && TrueBuffer(t, truth, buffer)
    requires i < t.NumPieces() && TrueSlot(t, i, slot, truth[i])
    ensures TrueBuffer(t, truth, buffer[i := slot])
  {
    hide TrueSlot;
  }

  lemma SlotHasBlocks(t: Torrent, truth: seq<seq<byte>>, s: State, i: nat)
    requires Setting(t, truth) && Inv(t, s) && i in s.buffer
    ensures i < t.NumPieces() && |s.buffer[i].blocks| == t.NumBlocks(i)
    ensures |s.buffer[i].data| == |truth[i]| == t.PieceLength(i)
  {
  }

  lemma JoinKeepsTrue(t: Torrent, truth: seq<seq<byte>>, s: State, peer: nat, i: nat)
    requires Setting(t, truth) && Inv(t, s) && HonestInv(t, truth, s) && i in s.buffer
    ensures HonestInv(t, truth, JoinPiece(s, peer, i))
  {
    hide Inv, TrueSlot;
    Sizes(t, s);
    var slot := s.buffer[i];
    SlotHasBlocks(t, truth, s, i);
    RelabelKeepsTrueSlot(t, i, slot, truth[i], ClearRequested(slot.blocks));
    PutKeepsTrue(t, truth, s.buffer, i, slot.(blocks := ClearRequested(slot.blocks)));
  }

  lemma ChooseKeepsTrue(t: Torrent, truth: seq<seq<byte>>, s: State, peer: nat, o: Oracle)
    requires Setting(t, truth) && Inv(t, s) && HonestInv(t, truth, s)
    requires peer in s.bitfields && Possible(t, s, peer, o)
    ensures HonestInv(t, truth, Choose(t, s, peer, o).0)
  {
    hide Inv, TrueSlot, TrueBuffer;
    Sizes(t, s);
    if peer !in s.affinity {
      match ToAdd(t, s, peer)
      case Some(i) =>
        FreshIsTrue(t, i, o.stale, truth[i]);
        PutKeepsTrue(t, truth, s.buffer, i, Fresh(o.stale, t.NumBlocks(i)));
      case None => if HasAdvertised(s, peer) { JoinKeepsTrue(t, truth, s, peer, o.pick); }
    }
  }

  lemma MarkKeepsTrue(t: Torrent, truth: seq<seq<byte>>, s: State, i: nat)
    requires Setting(t, truth) && Inv(t, s) && HonestInv(t, truth, s) && i in s.buffer
    ensures HonestInv(t, truth, MarkRequested(s, i, FirstDontHave(s.buffer[i].blocks, 0)))
  {
    hide Inv, TrueSlot;
    Sizes(t, s);
    var found := FirstDontHave(s.buffer[i].blocks, 0);
    var slot := s.buffer[i];
    var blocks := if found.Some? then slot.blocks[found.value := Requested] else slot.blocks;
    RelabelKeepsTrueSlot(t, i, slot, truth[i], blocks);
    PutKeepsTrue(t, truth, s.buffer, i, slot.(blocks := blocks));
  }

  lemma SelectKeepsTrue(t: Torrent, truth: seq<seq<byte>>, s: State, peer: nat, o: Oracle)
    requires Setting(t, truth) && Inv(t, s) && HonestInv(t, truth, s) && Possible(t, s, peer, o)
    ensures HonestInv(t, truth, Select(t, s, peer, o).0)
  {
    hide Inv, Choose, HonestInv, MarkRequested, Possible;
    if peer in s.bitfields {
      ChooseKeepsTrue(t, truth, s, peer, o);
      ChooseKeepsInv(t, s, peer, o);
      var (s1, chosen) := Choose(t, s, peer, o);
      if chosen.Some? { MarkKeepsTrue(t, truth, s1, chosen.value); }
    }
  }

  /** An honest block keeps its slot right, and a piece it completes verifies. */
  lemma HonestAddBlock(t: Torrent, truth: seq<seq<byte>>, s: State, b: Block)
    requires Setting(t, truth) && Inv(t, s) && HonestInv(t, truth, s) && HonestBlock(t, truth, s, b)
    ensures ValidBlock(t, b) && ShouldWrite(t, s, b) ==>
      var slot := WriteBlock(t, s, b);
      && TrueSlot(t, b.piece, slot, truth[b.piece])
      && (AllHave(slot.blocks) ==> slot.data == truth[b.piece] && t.hash(slot.data) == t.pieces[b.piece].hash)
  {
    hide LogInv, WriterInv, PeerInv, TrueSlot, Covering, BlockIndex;
    if ValidBlock(t, b) && ShouldWrite(t, s, b) {
      var slot := WriteBlock(t, s, b);
      assert TrueSlot(t, b.piece, s.buffer[b.piece], truth[b.piece]);
      CoveringKeepsTrueSlot(t, b.piece, b, s.buffer[b.piece], truth[b.piece]);
      if AllHave(slot.blocks) { AllHaveIsTrue(t, b.piece, slot, truth[b.piece]); }
    }
  }

  /** The reply to an exact request covers its block with the right bytes, in any state. */
  lemma ReplyIsHonest(t: Torrent, truth: seq<seq<byte>>, s: State, i: nat, k: nat)
    requires Setting(t, truth) && i < t.NumPieces() && k < t.NumBlocks(i) && BufferInv(t, s.pieces, s.buffer)
    ensures var b := Reply(t, i, k, truth[i]);
      && b.piece == i && HonestBlock(t, truth, s, b) && ValidBlock(t, b) && BlockIndex(t, i, b.offset) == k
  {
    ReplyIsValid(t, i, k, truth[i]);
    BlockRange(t, i, k);
  }

  /** Honest blocks keep every slot and every saved piece right, and no piece falls back. */
  lemma HonestAddBlockKeeps(t: Torrent, truth: seq<seq<byte>>, s: State, b: Block)
    requires Setting(t, truth) && Inv(t, s) && HonestInv(t, truth, s) && HonestBlock(t, truth, s, b)
    ensures HonestInv(t, truth, AddBlock(t, s, b))
    ensures NoFallback(s, AddBlock(t, s, b))
  {
    hide Inv, TrueSlot, WriteBlock, HonestBlock;
    Sizes(t, s);
    HonestAddBlock(t, truth, s, b);
  }

  ghost predicate NoFallback(s: State, s': State) {
    |s'.pieces| == |s.pieces|
    && forall i :: 0 <= i < |s.pieces| && s'.pieces[i] == NotStarted ==> s.pieces[i] == NotStarted
  }

  lemma MarkNoFallback(s: State, i: nat, found: Option<nat>)
    requires i in s.buffer && i < |s.pieces| && InBuffer(s.pieces[i])
    requires found.Some? ==> found.value < |s.buffer[i].blocks|
    ensures NoFallback(s, MarkRequested(s, i, found))
  {
  }

  lemma SelectNoFallback(t: Torrent, s: State, peer: nat, o: Oracle)
    requires Inv(t, s) && Possible(t, s, peer, o)
    ensures NoFallback(s, Select(t, s, peer, o).0)
  {
    hide Inv, Possible, Choose, MarkRequested;
    if peer in s.bitfields {
      ChooseKeepsInv(t, s, peer, o);
      ChooseNoFallback(t, s, peer, o);
      var (s1, chosen) := Choose(t, s, peer, o);
      if chosen.Some? {
        Sizes(t, s1);
        MarkNoFallback(s1, chosen.value, FirstDontHave(s1.buffer[chosen.value].blocks, 0));
      }
    }
  }

  lemma ChooseNoFallback(t: Torrent, s: State, peer: nat, o: Oracle)
    requires Inv(t, s) && peer in s.bitfields && Possible(t, s, peer, o)
    ensures NoFallback(s, Choose(t, s, peer, o).0)
  {
    hide LogInv, WriterInv;
  }

  /** An honest event keeps all bytes right, and no piece goes back to NOT_STARTED. */
  lemma HonestStep(t: Torrent, truth: seq<seq<byte>>, s: State, e: Event)
    requires Setting(t, truth) && Inv(t, s) && HonestInv(t, truth, s) && Enabled(t, s, e)
    requires HonestEvent(t, truth, s, e)
    ensures HonestInv(t, truth, Next(t, s, e)) && NoFallback(s, Next(t, s, e))
  {
    hide Inv, Select, AddBlock, Possible, Setting;
    match e
    case SelectNext(peer, o) =>
      SelectKeepsTrue(t, truth, s, peer, o);
      SelectNoFallback(t, s, peer, o);
    case Receive(b) => HonestAddBlockKeeps(t, truth, s, b);
    case _ =>
  }

  ghost predicate IsHonestRun(t: Torrent, truth: seq<seq<byte>>, states: seq<State>, events: seq<Event>) {
    && IsRun(t, states, events)
    && Setting(t, truth)
    && forall k :: 0 <= k < |events| ==> HonestEvent(t, truth, states[k], events[k])
  }

  /** In an honest run every received block is right at every point, and no piece falls back. */
  lemma {:induction false} HonestRun(t: Torrent, truth: seq<seq<byte>>, states: seq<State>, events: seq<Event>, k: nat)
    requires IsHonestRun(t, truth, states, events) && k < |states|
    ensures HonestInv(t, truth, states[k])
    ensures k > 0 ==> NoFallback(states[k - 1], states[k])
  {
    hide Inv, Next, Enabled, HonestInv, HonestEvent, Setting, NoFallback;
    if k == 0 {
      InitialIsTrue(t, truth);
    } else {
      HonestRun(t, truth, states, events, k - 1);
      RunStep(t, states, events, k - 1);
      assert HonestEvent(t, truth, states[k - 1], events[k - 1]);
      HonestStep(t, truth, states[k - 1], events[k - 1]);
    }
  }

  lemma InitialIsTrue(t: Torrent, truth: seq<seq<byte>>)
    requires Setting(t, truth)
    ensures HonestInv(t, truth, Initial(t))
  {
  }

  /** An honest run that is completely written leaves exactly the content on disk. */
  lemma HonestDisk(t: Torrent, truth: seq<seq<byte>>, states: seq<State>, events: seq<Event>, k: nat)
    requires IsHonestRun(t, truth, states, events) && OffsetsFit(t)
    requires k < |states| && states[k].written == t.NumPieces()
    ensures states[k].disk == Flatten(truth)
  {
    HonestRun(t, truth, states, events, k);
    RunKeepsInv(t, states, events, k);
    HonestStateDisk(t, truth, states[k]);
  }

  /** Unless the content ends in a piece of zeros, the same holds only under the guard. */
  lemma HonestDiskIffOffsetsFit(t: Torrent, truth: seq<seq<byte>>, states: seq<State>, events: seq<Event>, k: nat)
    requires IsHonestRun(t, truth, states, events)
    requires k < |states| && states[k].written == t.NumPieces()
    requires truth[|truth| - 1] != Zeros(|truth[|truth| - 1]|)
    ensures states[k].disk == Flatten(truth) <==> OffsetsFit(t)
  {
    hide IsRun, HonestEvent, OffsetsFit;
    if OffsetsFit(t) {
      HonestDisk(t, truth, states, events, k);
    } else {
      LastPieceLost(t, states, events, k);
      var last := |truth| - 1;
      PiecesPartitionTotal(t, last);
      FlattenAppend(truth[..last], truth[last]);
      assert truth == truth[..last] + [truth[last]];
    }
  }

  lemma HonestStateDisk(t: Torrent, truth: seq<seq<byte>>, s: State)
    requires Setting(t, truth) && Inv(t, s) && HonestInv(t, truth, s)
    requires OffsetsFit(t) && s.written == t.NumPieces()
    ensures s.disk == Flatten(truth)
  {
    hide TrueBuffer, BufferInv, PeerInv;
    QueueCounts(t, s);
    assert s.log[..s.written] == s.log;
    forall i | 0 <= i < |truth| ensures truth[i] == PieceOnDisk(t, s.disk, i) {
      assert i in Indices(s.log);
      var w :| 0 <= w < |s.log| && s.log[w].index == i;
      ReplayKeepsPieces(t, s.log, w);
    }
    DiskIsItsPieces(t, s.disk, truth);
  }
}
