/**
 * When a peer that answers every request with exactly the length asked for can complete the
 * download: if and only if the block length fits the pieces.
 */
module Completion {
  import opened Bytes
  import opened Layout
  import opened Engine
  import opened EngineInvariant
  import opened EngineEffects
  import opened Accepted
  import opened Safety
  import opened Honest
  import opened Recovery

  /** The block has the piece, offset and length of a request the client makes. */
  ghost predicate AnswersRequest(t: Torrent, b: Block)
    requires t.blockLength > 0
  {
    b.piece < t.NumPieces()
    && exists k: nat :: k < t.NumBlocks(b.piece) && HasShape(t, b, k)
  }

  predicate HasShape(t: Torrent, b: Block, k: nat)
    requires t.blockLength > 0 && b.piece < t.NumPieces()
  {
    b.offset == k * t.blockLength && |b.data| == t.RequestLength(b.piece, k)
  }

  /** A run in which every delivered block answers some request in full, whatever its bytes. */
  ghost predicate IsAnsweringRun(t: Torrent, states: seq<State>, events: seq<Event>) {
    |states| == |events| + 1 && IsRun(t, states, events)
    && forall k :: 0 <= k < |events| && events[k].Receive? ==> AnswersRequest(t, events[k].block)
  }

  // ---------------------------------------------------------------- a block length that does not fit

  /** The full answer for the last block of a piece before the last runs past the piece's end. */
  lemma LastAnswerIsInvalid(t: Torrent, b: Block)
    requires t.WellFormed() && !t.BlocksFit() && b.piece < t.NumPieces() - 1
    requires t.NumBlocks(b.piece) > 0 && HasShape(t, b, t.NumBlocks(b.piece) - 1)
    ensures !ValidBlock(t, b)
  {
    var l, d, n := t.PieceLength(b.piece), t.blockLength, t.NumBlocks(b.piece);
    assert t.LaidOut(b.piece);
    CeilDivBounds(l, d);
    if n * d == l { QuotientIs(l, d, n); DivMod(l, d); }
    assert (n - 1) * d + d == n * d;
  }

  /** The last block of piece `i` has not been received. */
  ghost predicate LastMissing(t: Torrent, s: State, i: nat)
    requires i < t.NumPieces()
  {
    && i < |s.pieces| && s.pieces[i] != Completed
    && (i in s.buffer ==> |s.buffer[i].blocks| == t.NumBlocks(i) > 0 && s.buffer[i].blocks[t.NumBlocks(i) - 1] != Have)
  }

  lemma SelectLastMissing(t: Torrent, s: State, peer: nat, o: Oracle, i: nat)
    requires Inv(t, s) && Possible(t, s, peer, o) && i < t.NumPieces() && LastMissing(t, s, i)
    ensures LastMissing(t, Select(t, s, peer, o).0, i)
  {
    hide Inv, Possible, Choose, MarkRequested, Bound, LastMissing;
    if peer in s.bitfields {
      ChooseKeepsInv(t, s, peer, o);
      ChooseBinds(t, s, peer, o);
      var (s1, chosen) := Choose(t, s, peer, o);
      if chosen.Some? {
        BoundLastMissing(t, s, s1, peer, chosen.value, i);
        MarkedLastMissing(t, s1, chosen.value, i);
      }
    }
  }

  lemma BoundLastMissing(t: Torrent, s: State, s1: State, peer: nat, c: nat, i: nat)
    requires Inv(t, s) && Inv(t, s1) && peer in s.bitfields && Bound(s, s1, peer, c)
    requires i < t.NumPieces() && LastMissing(t, s, i)
    ensures LastMissing(t, s1, i)
  {
    hide Inv;
    Sizes(t, s1);
    AtLeastOneBlock(t, i);
    if i in s1.buffer { SlotSizes(t, s1, i); }
  }

  lemma MarkedLastMissing(t: Torrent, s: State, c: nat, i: nat)
    requires Inv(t, s) && c in s.buffer && i < t.NumPieces() && LastMissing(t, s, i)
    ensures LastMissing(t, MarkRequested(s, c, FirstDontHave(s.buffer[c].blocks, 0)), i)
  {
    hide Inv;
    Sizes(t, s);
  }

  lemma AnswerLastMissing(t: Torrent, s: State, b: Block, i: nat)
    requires Inv(t, s) && i < t.NumPieces() - 1 && LastMissing(t, s, i)
    requires !t.BlocksFit() && AnswersRequest(t, b)
    ensures LastMissing(t, AddBlock(t, s, b), i)
  {
    hide LogInv, WriterInv, PeerInv, BufferInv, AddBlock, BlockIndex, LogGains, FinishPiece;
    BlockEffect(t, s, b);
    if b.piece == i && ValidBlock(t, b) && ShouldWrite(t, s, b) {
      var k: nat :| k < t.NumBlocks(i) && HasShape(t, b, k);
      if k == t.NumBlocks(i) - 1 { LastAnswerIsInvalid(t, b); }
      QuotientIs(b.offset, t.blockLength, k);
      var now := WantedBlockEffect(t, s, b);
      assert now.blocks[t.NumBlocks(i) - 1] != Have;
    }
  }

  /** So no piece before the last is ever completed. */
  lemma {:induction false} EarlierPieceNeverCompletes(t: Torrent, states: seq<State>, events: seq<Event>,
                                                      k: nat, i: nat)
    requires IsAnsweringRun(t, states, events) && !t.BlocksFit() && k < |states| && i < t.NumPieces() - 1
    ensures LastMissing(t, states[k], i)
  {
    hide Inv, LastMissing, Select, AddBlock, Possible;
    if k == 0 {
      InitiallyMissing(t, i);
    } else {
      EarlierPieceNeverCompletes(t, states, events, k - 1, i);
      RunStep(t, states, events, k - 1);
      var s, e := states[k - 1], events[k - 1];
      match e
      case SelectNext(peer, o) => SelectLastMissing(t, s, peer, o, i);
      case Receive(b) => AnswerLastMissing(t, s, b, i);
      case _ => OtherLastMissing(t, s, states[k], i);
    }
  }

  lemma InitiallyMissing(t: Torrent, i: nat)
    requires i < t.NumPieces()
    ensures LastMissing(t, Initial(t), i)
  {
  }

  lemma OtherLastMissing(t: Torrent, s: State, s': State, i: nat)
    requires i < t.NumPieces() && LastMissing(t, s, i) && s'.pieces == s.pieces && s'.buffer == s.buffer
    ensures LastMissing(t, s', i)
  {
  }

  // ---------------------------------------------------------------- a block length that fits

  lemma PeerAnswers(t: Torrent, truth: seq<seq<byte>>, peer: nat, e: Event)
    requires Setting(t, truth) && t.BlocksFit() && e.Receive? && FromPeer(t, truth, peer, e)
    ensures AnswersRequest(t, e.block)
  {
    hide AnswersRequest, Reply;
    var i: nat, k: nat :| IsReply(t, truth, i, k, e.block);
    ReplyAnswers(t, truth, i, k);
  }

  lemma ReplyAnswers(t: Torrent, truth: seq<seq<byte>>, i: nat, k: nat)
    requires Setting(t, truth) && t.BlocksFit() && i < t.NumPieces() && k < t.NumBlocks(i)
    ensures AnswersRequest(t, Reply(t, i, k, truth[i]))
  {
    BlockRange(t, i, k);
    RequestsAreBlocksIffFit(t);
    assert HasShape(t, Reply(t, i, k, truth[i]), k);
  }

  lemma AnsweringRunExists(t: Torrent, truth: seq<seq<byte>>) returns (states: seq<State>, events: seq<Event>)
    requires Setting(t, truth) && t.BlocksFit() && t.bufferSize > 0
    ensures IsAnsweringRun(t, states, events) && states[|events|].completed == t.NumPieces()
  {
    hide IsRun, HonestEvent, AnswersRequest, FromPeer;
    states, events := FinishedRunExists(t, truth);
    RunShape(t, states, events);
    forall k | 0 <= k < |events| && events[k].Receive? ensures AnswersRequest(t, events[k].block) {
      PeerAnswers(t, truth, 0, events[k]);
    }
  }

  /**
   * For any torrent and content that matches its hashes: a run in which all blocks answer
   * requests in full can complete the download if and only if the block length fits.
   */
  lemma CompletableIffBlocksFit(t: Torrent, truth: seq<seq<byte>>)
    requires t.WellFormed() && IsContent(t, truth) && t.bufferSize > 0
    ensures t.BlocksFit() <==>
      exists states: seq<State>, events: seq<Event> ::
        IsAnsweringRun(t, states, events) && states[|events|].completed == t.NumPieces()
  {
    hide Inv, IsRun;
    if t.BlocksFit() {
      var states, events := AnsweringRunExists(t, truth);
    } else {
      forall states: seq<State>, events: seq<Event> | IsAnsweringRun(t, states, events)
        ensures states[|events|].completed != t.NumPieces()
      {
        NeverComplete(t, states, events);
      }
    }
  }

  lemma NeverComplete(t: Torrent, states: seq<State>, events: seq<Event>)
    requires IsAnsweringRun(t, states, events) && !t.BlocksFit() && t.NumPieces() > 1
    ensures states[|events|].completed != t.NumPieces()
  {
    hide Inv, IsRun;
    EarlierPieceNeverCompletes(t, states, events, |events|, 0);
    RunKeepsInv(t, states, events, |events|);
    Sizes(t, states[|events|]);
    CompleteIffAllCompleted(t, states[|events|]);
  }
}
