/** What a selection and a delivered block change, and what they leave alone. */
module EngineEffects {
  import opened Bytes
  import opened Layout
  import opened Engine
  import opened EngineInvariant

  /** Nothing about any piece but `i` differs. */
  ghost predicate OnlyPiece(s: State, s': State, i: nat) {
    && |s'.pieces| == |s.pieces|
    && (forall j :: 0 <= j < |s.pieces| && j != i ==> s'.pieces[j] == s.pieces[j])
    && (forall j :: j != i ==> (j in s'.buffer <==> j in s.buffer))
    && (forall j :: j != i && j in s.buffer ==> s'.buffer[j] == s.buffer[j])
  }

  /** Neither the peers' bitfields nor anything saved or written differs. */
  ghost predicate SameRecords(s: State, s': State) {
    && s'.bitfields == s.bitfields && s'.completed == s.completed && s'.log == s.log
    && s'.queue == s.queue && s'.written == s.written && s'.disk == s.disk
  }

  /** The same bytes, and the same blocks received. */
  ghost predicate SameReceived(a: Slot, b: Slot) {
    && a.data == b.data && |a.blocks| == |b.blocks|
    && forall k :: 0 <= k < |a.blocks| ==> (a.blocks[k] == Have <==> b.blocks[k] == Have)
  }

  /** Outstanding requests stay, or are all forgotten if the piece had no free block left. */
  ghost predicate Rejoined(s: State, i: nat, was: Slot, now: Slot) {
    && SameReceived(was, now) && i < |s.pieces|
    && if s.pieces[i] == AllRequested then forall j :: 0 <= j < |now.blocks| ==> now.blocks[j] != Requested
       else now.blocks == was.blocks
  }

  ghost predicate NothingAsked(slot: Slot) {
    forall j :: 0 <= j < |slot.blocks| ==> slot.blocks[j] == DontHave
  }

  lemma OnlyPieceTransitive(s: State, s1: State, s2: State, i: nat)
    requires OnlyPiece(s, s1, i) && OnlyPiece(s1, s2, i)
    ensures OnlyPiece(s, s2, i)
  {
  }

  /** The peer is bound to the piece that step 1, 2 or 3 chose for it. */
  ghost predicate Bound(s: State, s1: State, peer: nat, i: nat)
    requires peer in s.bitfields
  {
    && OnlyPiece(s, s1, i) && SameRecords(s, s1) && s1.affinity == s.affinity[peer := i]
    && i < |s.bitfields[peer]|
    && (s.bitfields[peer][i] || (peer in s.affinity && s.affinity[peer] == i))
    && i in s1.buffer
    && if i in s.buffer then Rejoined(s, i, s.buffer[i], s1.buffer[i]) else NothingAsked(s1.buffer[i])
  }

  lemma JoinBinds(s: State, peer: nat, i: nat)
    requires peer in s.bitfields && i in s.buffer && i < |s.pieces| == |s.bitfields[peer]| && s.bitfields[peer][i]
    ensures Bound(s, JoinPiece(s, peer, i), peer, i)
  {
  }

  lemma AddBinds(t: Torrent, s: State, peer: nat, i: nat, stale: seq<byte>)
    requires peer in s.bitfields && i !in s.buffer && i < |s.pieces| == |s.bitfields[peer]| == t.NumPieces()
    requires s.bitfields[peer][i]
    ensures Bound(s, AddPiece(t, s, peer, i, stale), peer, i)
  {
  }

  lemma KeepsOwnPiece(t: Torrent, s: State, peer: nat)
    requires Inv(t, s) && peer in s.affinity
    ensures peer in s.bitfields && Bound(s, s, peer, s.affinity[peer])
  {
    assert s.affinity[peer := s.affinity[peer]] == s.affinity;
  }

  lemma ChooseBinds(t: Torrent, s: State, peer: nat, o: Oracle)
    requires Inv(t, s) && peer in s.bitfields && Possible(t, s, peer, o)
    ensures var (s1, chosen) := Choose(t, s, peer, o);
      if chosen.Some? then Bound(s, s1, peer, chosen.value) else s1 == s
  {
    hide Inv, FirstWanted, AddPiece, JoinPiece, Bound;
    Sizes(t, s);
    if peer in s.affinity {
      KeepsOwnPiece(t, s, peer);
    } else {
      match ToAdd(t, s, peer)
      case Some(i) => AddBinds(t, s, peer, i, o.stale);
      case None => if HasAdvertised(s, peer) { JoinBinds(s, peer, o.pick); }
    }
  }

  /** The first free block is marked; a piece with none left is ALL_REQUESTED and nobody's own. */
  ghost predicate Marked(s: State, s': State, i: nat, k: nat) {
    && OnlyPiece(s, s', i) && SameRecords(s, s')
    && i in s.buffer && i in s'.buffer && s'.buffer[i].data == s.buffer[i].data
    && k < |s.buffer[i].blocks| && s.buffer[i].blocks[k] == DontHave
    && (forall j :: 0 <= j < k ==> s.buffer[i].blocks[j] != DontHave)
    && s'.buffer[i].blocks == s.buffer[i].blocks[k := Requested]
    && i < |s.pieces| == |s'.pieces|
    && if NoDontHave(s'.buffer[i].blocks)
       then s'.pieces[i] == AllRequested && s'.affinity == Unbind(s.affinity, i)
       else s'.pieces[i] == s.pieces[i] && s'.affinity == s.affinity
  }

  lemma MarkingMarks(s: State, i: nat, k: nat)
    requires i in s.buffer && i < |s.pieces|
    requires FirstDontHave(s.buffer[i].blocks, 0) == Some(k)
    ensures Marked(s, MarkRequested(s, i, Some(k)), i, k)
  {
  }

  /**
   * Block `k` of a piece that was in the buffer is the one now requested: bytes and received
   * marks stay, and so do the other requests, unless all were out and are forgotten.
   */
  ghost predicate OnlyBlockAsked(s: State, i: nat, was: Slot, now: Slot, k: nat) {
    && SameReceived(was, now) && i < |s.pieces|
    && k < |was.blocks| && was.blocks[k] != Have
    && if s.pieces[i] == AllRequested then forall j :: 0 <= j < |now.blocks| && j != k ==> now.blocks[j] != Requested
       else now.blocks == was.blocks[k := Requested]
  }

  /** No peer but `peer` is newly bound, and only bindings to piece `i` are lost. */
  ghost predicate OtherBindings(s: State, s': State, peer: nat, i: nat) {
    && (forall p :: p in s'.affinity && p != peer ==> p in s.affinity && s'.affinity[p] == s.affinity[p])
    && (forall p :: p in s.affinity && p != peer && s.affinity[p] != i ==> p in s'.affinity)
  }

  /**
   * A request is for a block that has not been received, inside its piece, of a piece the peer
   * was bound to or advertises; the block is the first free one, is now marked requested and no
   * other is newly so, bytes and received marks stay, the peer stays bound to the piece while it
   * has free blocks, and no other piece and no other peer's binding to one is touched.
   */
  ghost predicate RequestsBlock(t: Torrent, s: State, peer: nat, s': State, r: BlockRequest, i: nat, k: nat)
    requires t.WellFormed()
  {
    && i < t.NumPieces() && k < t.NumBlocks(i)
    && r.piece == i && r.offset == k * t.blockLength && r.offset < t.PieceLength(i)
    && (t.BlocksFit() ==> 0 < r.length && r.offset + r.length <= t.PieceLength(i))
    && peer in s.bitfields && i < |s.bitfields[peer]|
    && (s.bitfields[peer][i] || (peer in s.affinity && s.affinity[peer] == i))
    && OnlyPiece(s, s', i) && SameRecords(s, s')
    && i in s'.buffer && k < |s'.buffer[i].blocks| && s'.buffer[i].blocks[k] == Requested
    && (forall j :: 0 <= j < k ==> s'.buffer[i].blocks[j] != DontHave)
    && (if i in s.buffer then OnlyBlockAsked(s, i, s.buffer[i], s'.buffer[i], k)
        else forall j :: 0 <= j < |s'.buffer[i].blocks| && j != k ==> s'.buffer[i].blocks[j] == DontHave)
    && OtherBindings(s, s', peer, i)
    && i < |s'.pieces|
    && (s'.pieces[i] == Buffered ==> peer in s'.affinity && s'.affinity[peer] == i)
  }

  lemma RequestEffect(t: Torrent, s: State, peer: nat, o: Oracle) returns (i: nat, k: nat)
    requires Inv(t, s) && Possible(t, s, peer, o) && Select(t, s, peer, o).1.Some?
    ensures RequestsBlock(t, s, peer, Select(t, s, peer, o).0, Select(t, s, peer, o).1.value, i, k)
  {
    hide Inv, Possible, Choose, MarkRequested, RequestsBlock;
    Sizes(t, s);
    ChooseKeepsInv(t, s, peer, o);
    ChooseBinds(t, s, peer, o);
    var (s1, chosen) := Choose(t, s, peer, o);
    i := chosen.value;
    Sizes(t, s1);
    k := FirstDontHave(s1.buffer[i].blocks, 0).value;
    SlotSizes(t, s1, i);
    MarkingMarks(s1, i, k);
    RequestInPiece(t, i, k);
    BoundThenMarked(t, s, s1, Select(t, s, peer, o).0, peer, i, k);
  }

  lemma BoundThenMarked(t: Torrent, s: State, s1: State, s': State, peer: nat, i: nat, k: nat)
    requires t.WellFormed() && peer in s.bitfields && i < t.NumPieces() && k < t.NumBlocks(i)
    requires Bound(s, s1, peer, i) && Marked(s1, s', i, k)
    requires var r := RequestFor(t, i, k);
      && r.offset < t.PieceLength(i)
      && (t.BlocksFit() ==> 0 < r.length && r.offset + r.length <= t.PieceLength(i))
    ensures RequestsBlock(t, s, peer, s', RequestFor(t, i, k), i, k)
  {
    OnlyPieceTransitive(s, s1, s', i);
  }

  lemma RequestInPiece(t: Torrent, i: nat, k: nat)
    requires t.WellFormed() && i < t.NumPieces() && k < t.NumBlocks(i)
    ensures var r := RequestFor(t, i, k);
      && r.piece == i && r.offset < t.PieceLength(i)
      && (t.BlocksFit() ==> 0 < r.length && r.offset + r.length <= t.PieceLength(i))
  {
    RequestOffsetInRange(t, i, k);
    if t.BlocksFit() {
      RequestsTileIffBlocksFit(t);
      assert t.RequestsTile(i);
      if k + 1 < t.NumBlocks(i) { RequestOffsetInRange(t, i, k + 1); }
    }
  }

  /** The log, the queue and the counter stay, or gain one verified entry for piece `i`. */
  ghost predicate LogGains(t: Torrent, s: State, s': State, i: nat) {
    || (s'.log == s.log && s'.queue == s.queue && s'.completed == s.completed)
    || exists e :: Gained(t, s, s', e) && e.index == i && Verified(t, e)
  }

  ghost predicate Gained(t: Torrent, s: State, s': State, e: Saved) {
    s'.log == s.log + [e] && s'.queue == s.queue + [JobOf(t, e)] && s'.completed == s.completed + 1
  }

  /** No peer is newly bound, and only bindings to piece `i` are lost. */
  ghost predicate KeepsBindings(s: State, s': State, i: nat) {
    && (forall p :: p in s'.affinity ==> p in s.affinity && s'.affinity[p] == s.affinity[p])
    && (forall p :: p in s.affinity && s.affinity[p] != i ==> p in s'.affinity)
  }

  lemma SelectKeepsBitfields(t: Torrent, s: State, peer: nat, o: Oracle)
    requires Inv(t, s) && Possible(t, s, peer, o)
    ensures Select(t, s, peer, o).0.bitfields == s.bitfields
  {
    hide Inv, Possible, FirstWanted;
  }

  /** The bytes land at the offset, the block there is received, everything else of the piece stays. */
  ghost predicate OnlyRange(was: Slot, now: Slot, offset: nat, data: seq<byte>, k: nat) {
    && |now.data| == |was.data| && offset + |data| <= |was.data|
    && now.data[offset..offset + |data|] == data
    && (forall p :: 0 <= p < |was.data| && !(offset <= p < offset + |data|) ==> now.data[p] == was.data[p])
    && k < |was.blocks| && now.blocks == was.blocks[k := Have]
  }

  lemma FinishTouchesOnePiece(t: Torrent, s: State, i: nat, data: seq<byte>)
    requires i < |s.pieces| == t.NumPieces() && |data| == t.PieceLength(i)
    ensures var s' := FinishPiece(t, s, i, data);
      && OnlyPiece(s, s', i) && i !in s'.buffer && LogGains(t, s, s', i) && KeepsBindings(s, s', i)
      && s'.bitfields == s.bitfields && s'.disk == s.disk && s'.written == s.written
      && (s'.pieces[i] == Completed <==> t.hash(data) == t.pieces[i].hash)
  {
    var e := Saved(i, data);
    assert Verified(t, e) <==> t.hash(data) == t.pieces[i].hash;
    if t.hash(data) == t.pieces[i].hash { assert Gained(t, s, FinishPiece(t, s, i, data), e); }
  }

  /**
   * A delivered block changes nothing but its own piece, and nothing at all unless it is valid
   * and wanted; log, queue and counter grow only by that piece, verified; only bindings to it
   * are lost.
   */
  lemma BlockEffect(t: Torrent, s: State, b: Block)
    requires Inv(t, s)
    ensures var s' := AddBlock(t, s, b);
      && OnlyPiece(s, s', b.piece) && LogGains(t, s, s', b.piece) && KeepsBindings(s, s', b.piece)
      && s'.bitfields == s.bitfields && s'.disk == s.disk && s'.written == s.written
    ensures !(ValidBlock(t, b) && ShouldWrite(t, s, b)) ==> AddBlock(t, s, b) == s
  {
    hide LogInv, WriterInv, PeerInv, FinishPiece, LogGains, KeepsBindings, BlockIndex;
    if ValidBlock(t, b) && ShouldWrite(t, s, b) {
      var slot := WriteBlock(t, s, b);
      var s1 := s.(buffer := s.buffer[b.piece := slot]);
      NothingGained(t, s, s1, b.piece);
      if AllHave(slot.blocks) {
        FinishTouchesOnePiece(t, s1, b.piece, slot.data);
        OnlyPieceTransitive(s, s1, AddBlock(t, s, b), b.piece);
        GainedFrom(t, s, s1, AddBlock(t, s, b), b.piece);
      }
    } else {
      NothingGained(t, s, s, b.piece);
    }
  }

  /**
   * A wanted block lands where it says, marks the block of its offset received and touches
   * nothing else of the piece; the piece leaves the buffer exactly when no other block was
   * missing, and is then COMPLETED exactly if the bytes verify.
   */
  lemma WantedBlockEffect(t: Torrent, s: State, b: Block) returns (now: Slot)
    requires Inv(t, s) && ValidBlock(t, b) && ShouldWrite(t, s, b)
    ensures now == WriteBlock(t, s, b)
    ensures b.piece in s.buffer && OnlyRange(s.buffer[b.piece], now, b.offset, b.data, b.offset / t.blockLength)
    ensures s.buffer[b.piece].blocks[b.offset / t.blockLength] != Have
    ensures var s' := AddBlock(t, s, b);
      && b.piece < |s'.pieces| == |s.pieces|
      && if AllHave(now.blocks) then
           && b.piece !in s'.buffer
           && s'.pieces[b.piece] == if t.hash(now.data) == t.pieces[b.piece].hash then Completed else NotStarted
         else s' == s.(buffer := s.buffer[b.piece := now])
  {
    hide LogInv, WriterInv, PeerInv, BufferInv, OnlyRange, Evict;
    Sizes(t, s);
    now := WriteTouchesRange(t, s, b);
    EvictedIsGone(s.(buffer := s.buffer[b.piece := now]), b.piece);
  }

  /**
   * A delivered block changes the state exactly if its range starts inside a piece, does not run
   * past its end, the piece is in the buffer, and the block its offset divides into is missing.
   */
  lemma BlockAcceptedIff(t: Torrent, s: State, b: Block)
    requires Inv(t, s)
    ensures AddBlock(t, s, b) != s <==>
      && b.piece < t.NumPieces() && b.offset < t.PieceLength(b.piece)
      && b.offset + |b.data| <= t.PieceLength(b.piece)
      && b.piece in s.buffer && b.offset / t.blockLength < |s.buffer[b.piece].blocks|
      && s.buffer[b.piece].blocks[b.offset / t.blockLength] != Have
  {
    hide LogInv, WriterInv, PeerInv, FinishPiece, OnlyRange, WriteBlock, AddBlock;
    if ValidBlock(t, b) && ShouldWrite(t, s, b) {
      var now := WantedBlockEffect(t, s, b);
      RangeChanges(s.buffer[b.piece], now, b.offset, b.data, b.offset / t.blockLength);
    } else {
      BlockEffect(t, s, b);
      if ValidBlock(t, b) && b.piece in s.buffer { SlotSizes(t, s, b.piece); }
    }
  }

  lemma RangeChanges(was: Slot, now: Slot, offset: nat, data: seq<byte>, k: nat)
    requires OnlyRange(was, now, offset, data, k) && was.blocks[k] != Have
    ensures now != was
  {
    assert now.blocks[k] == Have;
  }

  lemma WriteTouchesRange(t: Torrent, s: State, b: Block) returns (now: Slot)
    requires t.WellFormed() && BufferInv(t, s.pieces, s.buffer) && ValidBlock(t, b) && ShouldWrite(t, s, b)
    ensures now == WriteBlock(t, s, b)
    ensures OnlyRange(s.buffer[b.piece], now, b.offset, b.data, b.offset / t.blockLength)
  {
    now := WriteBlock(t, s, b);
    assert SlotFits(t, b.piece, s.buffer[b.piece]);
    hide Inv, BufferInv, Torrent.WellFormed;
    SpliceSlice(s.buffer[b.piece].data, b.offset, b.data, b.offset, b.offset + |b.data|);
  }

  lemma EvictedIsGone(s: State, i: nat)
    ensures i !in Evict(s, i).buffer && Evict(s, i).pieces == s.pieces
  {
  }

  lemma NothingGained(t: Torrent, s: State, s': State, i: nat)
    requires s'.log == s.log && s'.queue == s.queue && s'.completed == s.completed && s'.affinity == s.affinity
    ensures LogGains(t, s, s', i) && KeepsBindings(s, s', i)
  {
  }

  lemma GainedFrom(t: Torrent, s: State, s1: State, s2: State, i: nat)
    requires s1.log == s.log && s1.queue == s.queue && s1.completed == s.completed && s1.affinity == s.affinity
    requires LogGains(t, s1, s2, i) && KeepsBindings(s1, s2, i)
    ensures LogGains(t, s, s2, i) && KeepsBindings(s, s2, i)
  {
    if e :| Gained(t, s1, s2, e) && e.index == i && Verified(t, e) { assert Gained(t, s, s2, e); }
  }
}
