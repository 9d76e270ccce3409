/** One honest seed that has every piece, asked and answered in turn, completes the download. */
module Seed {
  import opened Bytes
  import opened Layout
  import opened Engine
  import opened EngineInvariant
  import opened Accepted
  import opened Honest
  import opened Counting

  // ---------------------------------------------------------------- rounds of one seed

  /** The seed advertises everything and has no request outstanding. */
  ghost predicate Ready(t: Torrent, truth: seq<seq<byte>>, s: State, peer: nat) {
    && Setting(t, truth) && Inv(t, s) && HonestInv(t, truth, s)
    && peer in s.bitfields
    && (forall i :: 0 <= i < |s.bitfields[peer]| ==> s.bitfields[peer][i])
    && (forall i :: i in s.buffer ==> NoneRequested(s.buffer[i].blocks))
  }

  ghost predicate NoneRequested(blocks: seq<BlockState>) {
    forall k :: 0 <= k < |blocks| ==> blocks[k] != Requested
  }

  /** Every buffered piece of a ready state is BUFFERED and has a free block. */
  lemma ReadyHasFreeBlocks(t: Torrent, truth: seq<seq<byte>>, s: State, peer: nat, i: nat)
    requires Ready(t, truth, s, peer) && i in s.buffer
    ensures s.pieces[i] == Buffered && !NoDontHave(s.buffer[i].blocks)
  {
    hide LogInv, WriterInv, PeerInv, HonestInv, Setting;
    var blocks := s.buffer[i].blocks;
    assert SlotFits(t, i, s.buffer[i]);
    var b :| 0 <= b < |blocks| && blocks[b] != Have;
    assert blocks[b] == DontHave;
  }

  /** `s1` is `s` with piece `i`, not completed, in its buffer and at least one of its blocks free. */
  ghost predicate ChosenFrom(t: Torrent, s: State, s1: State, i: nat) {
    && i < |s.pieces| == t.NumPieces() && s.pieces[i] != Completed
    && i in s1.buffer && !NoDontHave(s1.buffer[i].blocks) && NoneRequested(s1.buffer[i].blocks)
    && s1.bitfields == s.bitfields
    && if i in s.buffer then s1.buffer == s.buffer && s1.pieces == s.pieces
       else
         && (forall k :: 0 <= k < |s1.buffer[i].blocks| ==> s1.buffer[i].blocks[k] == DontHave)
         && s1.buffer == s.buffer[i := s1.buffer[i]] && s1.pieces == s.pieces[i := Buffered]
  }

  /** While a piece is missing and the buffer has a slot, the seed's piece is found. */
  lemma ReadyChooses(t: Torrent, truth: seq<seq<byte>>, s: State, peer: nat, o: Oracle)
    requires Ready(t, truth, s, peer) && Possible(t, s, peer, o) && t.bufferSize > 0
    requires exists i :: 0 <= i < |s.pieces| && s.pieces[i] != Completed
    ensures var (s1, chosen) := Choose(t, s, peer, o);
      chosen.Some? && ChosenFrom(t, s, s1, chosen.value)
  {
    hide Inv, HonestInv, Setting, NoneRequested, NoDontHave, FirstWanted;
    Sizes(t, s);
    var (s1, chosen) := Choose(t, s, peer, o);
    if peer in s.affinity {
      AffinityIsBuffered(t, s, peer);
      ReadyHasFreeBlocks(t, truth, s, peer, s.affinity[peer]);
    } else {
      match ToAdd(t, s, peer)
      case Some(i) =>
        FreshIsFree(t, i, o.stale);
      case None =>
        SomethingBuffered(t, truth, s, peer);
        ReadyHasFreeBlocks(t, truth, s, peer, o.pick);
    }
  }

  lemma AffinityIsBuffered(t: Torrent, s: State, peer: nat)
    requires Inv(t, s) && peer in s.affinity
    ensures s.affinity[peer] in s.buffer
  {
  }

  lemma FreshIsFree(t: Torrent, i: nat, stale: seq<byte>)
    requires t.WellFormed() && i < t.NumPieces()
    ensures var blocks := Fresh(stale, t.NumBlocks(i)).blocks; !NoDontHave(blocks) && NoneRequested(blocks)
  {
    AtLeastOneBlock(t, i);
    assert Fresh(stale, t.NumBlocks(i)).blocks[0] == DontHave;
  }

  /** With nothing to add and something missing, the buffer holds a piece. */
  lemma SomethingBuffered(t: Torrent, truth: seq<seq<byte>>, s: State, peer: nat)
    requires Ready(t, truth, s, peer) && t.bufferSize > 0 && ToAdd(t, s, peer).None?
    requires exists i :: 0 <= i < |s.pieces| && s.pieces[i] != Completed
    ensures HasAdvertised(s, peer)
  {
    hide LogInv, WriterInv, HonestInv, Setting;
    if |s.buffer| == t.bufferSize {
      assert s.buffer.Keys != {};
      var p :| p in s.buffer;
      assert Advertised(s, peer, p);
    } else {
      var p :| 0 <= p < |s.pieces| && s.pieces[p] != Completed;
      assert p in s.buffer && Advertised(s, peer, p);
    }
  }

  /** The piece and block a round is about. */
  datatype Target = Target(piece: nat, block: nat, blocks: seq<BlockState>)

  /** `s1` is `s` with the free block `g.block` of piece `g.piece` marked as requested. */
  ghost predicate Asked(t: Torrent, s: State, s1: State, g: Target) {
    && g.piece < t.NumPieces() == |s.pieces| == |s1.pieces|
    && g.block < |g.blocks| == t.NumBlocks(g.piece)
    && g.blocks[g.block] == DontHave && NoneRequested(g.blocks)
    && s.pieces[g.piece] != Completed
    && g.piece in s1.buffer && s1.buffer[g.piece].blocks == g.blocks[g.block := Requested]
    && s1.bitfields == s.bitfields && s1.pieces[g.piece] != Completed
    && (forall j :: j != g.piece && j in s1.buffer ==> j in s.buffer && s1.buffer[j] == s.buffer[j])
    && (forall j :: j != g.piece && j in s.buffer ==> j in s1.buffer)
    && (forall j :: 0 <= j < |s.pieces| && j != g.piece ==> s1.pieces[j] == s.pieces[j])
  }

  lemma MarkedIsAsked(t: Torrent, s: State, c: State, i: nat, k: nat)
    requires |s.pieces| == t.NumPieces() && ChosenFrom(t, s, c, i)
    requires |c.buffer[i].blocks| == t.NumBlocks(i) && k < t.NumBlocks(i) && c.buffer[i].blocks[k] == DontHave
    ensures Asked(t, s, MarkRequested(c, i, Some(k)), Target(i, k, c.buffer[i].blocks))
  {
  }

  /** What the selection asks for: the first free block of a piece not completed. */
  lemma ReadySelects(t: Torrent, truth: seq<seq<byte>>, s: State, peer: nat, o: Oracle) returns (g: Target)
    requires Ready(t, truth, s, peer) && Possible(t, s, peer, o) && t.bufferSize > 0
    requires exists i :: 0 <= i < |s.pieces| && s.pieces[i] != Completed
    ensures var (s1, r) := Select(t, s, peer, o);
      && Inv(t, s1) && HonestInv(t, truth, s1) && Asked(t, s, s1, g)
      && r == Some(RequestFor(t, g.piece, g.block))
  {
    hide Inv, HonestInv, Setting, RequestFor, Possible, Choose, MarkRequested, ChosenFrom, Asked;
    ReadyChooses(t, truth, s, peer, o);
    ChooseKeepsInv(t, s, peer, o);
    SelectKeepsInv(t, s, peer, o);
    SelectKeepsTrue(t, truth, s, peer, o);
    var (c, chosen) := Choose(t, s, peer, o);
    var i := chosen.value;
    Sizes(t, s);
    SlotSizes(t, c, i);
    var blocks := c.buffer[i].blocks;
    var found := FirstDontHave(blocks, 0);
    HasFree(t, s, c, i);
    g := Target(i, found.value, blocks);
    MarkedIsAsked(t, s, c, i, found.value);
  }

  lemma HasFree(t: Torrent, s: State, c: State, i: nat)
    requires ChosenFrom(t, s, c, i)
    ensures FirstDontHave(c.buffer[i].blocks, 0).Some?
  {
  }

  /** One round: the seed is asked for a block and answers with its bytes. */
  ghost predicate Round(t: Torrent, truth: seq<seq<byte>>, s: State, peer: nat, o: Oracle, s': State) {
    && Setting(t, truth) && Inv(t, s) && Possible(t, s, peer, o)
    && var (s1, r) := Select(t, s, peer, o);
      && Inv(t, s1) && r.Some?
      && exists i, k :: 0 <= i < t.NumPieces() && 0 <= k < t.NumBlocks(i) && r.value == RequestFor(t, i, k)
           && s' == AddBlock(t, s1, Reply(t, i, k, truth[i]))
  }

  /** A request determines its piece and its block. */
  lemma RequestIsInjective(t: Torrent, i: nat, k: nat, j: nat, m: nat)
    requires t.WellFormed() && i < t.NumPieces() && k < t.NumBlocks(i) && j < t.NumPieces() && m < t.NumBlocks(j)
    requires RequestFor(t, i, k) == RequestFor(t, j, m)
    ensures i == j && k == m
  {
    RequestOffsetInRange(t, i, k);
    RequestOffsetInRange(t, j, m);
  }

  /** `s2` is `s1` with piece `i` holding `blocks`, or completed and gone from the buffer. */
  ghost predicate Answered(s1: State, s2: State, i: nat, blocks: seq<BlockState>) {
    && s2.bitfields == s1.bitfields && i < |s1.pieces|
    && if AllHave(blocks) then s2.pieces == s1.pieces[i := Completed] && s2.buffer == s1.buffer - {i}
       else s2.pieces == s1.pieces && exists slot :: s2.buffer == s1.buffer[i := slot] && slot.blocks == blocks
  }

  lemma AnswerEffect(t: Torrent, truth: seq<seq<byte>>, s1: State, i: nat, k: nat)
    requires Setting(t, truth) && Inv(t, s1) && HonestInv(t, truth, s1)
    requires i in s1.buffer && k < |s1.buffer[i].blocks| == t.NumBlocks(i) && s1.buffer[i].blocks[k] != Have
    ensures Answered(s1, AddBlock(t, s1, Reply(t, i, k, truth[i])), i, s1.buffer[i].blocks[k := Have])
  {
    hide LogInv, WriterInv, PeerInv, HonestInv, Reply, TrueSlot, BlockIndex;
    var b := Reply(t, i, k, truth[i]);
    ReplyIsHonest(t, truth, s1, i, k);
    HonestAddBlock(t, truth, s1, b);
    var slot := WriteBlock(t, s1, b);
    assert slot.blocks == s1.buffer[i].blocks[k := Have];
    EvictForgets(s1.buffer, i, slot);
  }

  lemma AnswerLeavesNoRequest(t: Torrent, s: State, s1: State, s2: State, g: Target)
    requires Asked(t, s, s1, g) && Answered(s1, s2, g.piece, g.blocks[g.block := Have])
    requires forall j :: j in s.buffer ==> NoneRequested(s.buffer[j].blocks)
    ensures forall j :: j in s2.buffer ==> NoneRequested(s2.buffer[j].blocks)
  {
  }

  /** The answer is received: exactly one block less is missing, and the state is ready again. */
  lemma AnswerReceived(t: Torrent, truth: seq<seq<byte>>, s: State, peer: nat, s1: State, g: Target)
    requires Ready(t, truth, s, peer) && Inv(t, s1) && HonestInv(t, truth, s1) && Asked(t, s, s1, g)
    ensures var s' := AddBlock(t, s1, Reply(t, g.piece, g.block, truth[g.piece]));
      && Ready(t, truth, s', peer) && |s'.pieces| == |s1.pieces| == t.NumPieces()
      && Missing(t, s1) == Missing(t, s') + 1
  {
    hide LogInv, WriterInv, PeerInv, BufferInv, HonestInv, Reply, AddBlock, Missing, NoneRequested;
    var i, b := g.piece, Reply(t, g.piece, g.block, truth[g.piece]);
    var s' := AddBlock(t, s1, b);
    ReplyIsHonest(t, truth, s1, i, g.block);
    HonestAddBlockKeeps(t, truth, s1, b);
    AddBlockKeepsInv(t, s1, b);
    AnswerEffect(t, truth, s1, i, g.block);
    assert g.blocks[g.block := Requested][g.block := Have] == g.blocks[g.block := Have];
    WantedBlockCounts(t, truth, s1, b);
    AnswerLeavesNoRequest(t, s, s1, s', g);
  }

  /** The state in which the seed has just registered with an empty client. */
  function Registered(t: Torrent, peer: nat): State {
    UpdateBitfield(Initial(t), peer, seq(t.NumPieces(), _ => true))
  }

  lemma RegisteredIsReady(t: Torrent, truth: seq<seq<byte>>, peer: nat)
    requires Setting(t, truth)
    ensures Ready(t, truth, Registered(t, peer), peer)
    ensures Missing(t, Registered(t, peer)) == BlocksBelow(t, t.NumPieces())
  {
    InitialInv(t);
    NextKeepsInv(t, Initial(t), Bitfield(peer, seq(t.NumPieces(), _ => true)));
    NothingStartedMissing(t, Registered(t, peer), t.NumPieces());
  }

  /** A completed client asks for nothing. */
  lemma CompleteAsksNothing(t: Torrent, truth: seq<seq<byte>>, s: State, peer: nat, o: Oracle)
    requires Ready(t, truth, s, peer) && Possible(t, s, peer, o)
    requires forall i :: 0 <= i < |s.pieces| ==> s.pieces[i] == Completed
    ensures Select(t, s, peer, o).1.None?
  {
    hide LogInv, WriterInv, HonestInv, Setting;
  }

  /** A round leaves one block less missing and the seed ready for the next. */
  lemma RoundProgress(t: Torrent, truth: seq<seq<byte>>, s: State, peer: nat, o: Oracle, s': State)
    requires Ready(t, truth, s, peer) && t.bufferSize > 0 && Round(t, truth, s, peer, o, s')
    ensures Ready(t, truth, s', peer) && |s.pieces| == |s'.pieces| == t.NumPieces()
    ensures Missing(t, s) == Missing(t, s') + 1
  {
    hide Inv, HonestInv, Select, Possible, Reply, AddBlock, Asked, RequestFor, Missing, NoneRequested;
    Sizes(t, s);
    if forall i :: 0 <= i < |s.pieces| ==> s.pieces[i] == Completed {
      CompleteAsksNothing(t, truth, s, peer, o);
    }
    var g := ReadySelects(t, truth, s, peer, o);
    var (s1, r) := Select(t, s, peer, o);
    var i, k :| 0 <= i < t.NumPieces() && 0 <= k < t.NumBlocks(i) && r.value == RequestFor(t, i, k)
      && s' == AddBlock(t, s1, Reply(t, i, k, truth[i]));
    TargetInRange(t, s, s1, g);
    RequestIsInjective(t, i, k, g.piece, g.block);
    SelectSameProgress(t, s, peer, o);
    SameProgressCounts(t, s, s1);
    AnswerReceived(t, truth, s, peer, s1, g);
  }

  lemma TargetInRange(t: Torrent, s: State, s1: State, g: Target)
    requires Asked(t, s, s1, g)
    ensures g.piece < t.NumPieces() && g.block < t.NumBlocks(g.piece)
  {
  }

  /** While something is missing a round is possible, whatever the probe does. */
  lemma RoundPossible(t: Torrent, truth: seq<seq<byte>>, s: State, peer: nat, o: Oracle)
    requires Ready(t, truth, s, peer) && t.bufferSize > 0 && Possible(t, s, peer, o)
    requires |s.pieces| == t.NumPieces() && Missing(t, s) > 0
    ensures exists s' :: Round(t, truth, s, peer, o, s')
  {
    hide Inv, HonestInv, Select, Possible, Reply, AddBlock, Asked, RequestFor, NoneRequested, MissingBelow;
    NothingMissing(t, s, t.NumPieces());
    var g := ReadySelects(t, truth, s, peer, o);
    var (s1, r) := Select(t, s, peer, o);
    TargetInRange(t, s, s1, g);
    assert Round(t, truth, s, peer, o, AddBlock(t, s1, Reply(t, g.piece, g.block, truth[g.piece])));
  }

  /** `states` are the states that successive rounds with the seed lead through. */
  ghost predicate IsSeedRun(t: Torrent, truth: seq<seq<byte>>, peer: nat, states: seq<State>, os: seq<Oracle>) {
    && Setting(t, truth) && t.bufferSize > 0
    && |states| == |os| + 1 && states[0] == Registered(t, peer)
    && forall k: nat :: k < |os| ==> RoundAt(t, truth, peer, states, os, k)
  }

  ghost predicate RoundAt(t: Torrent, truth: seq<seq<byte>>, peer: nat, states: seq<State>, os: seq<Oracle>, k: nat)
    requires |states| == |os| + 1 && k < |os|
  {
    Round(t, truth, states[k], peer, os[k], states[k + 1])
  }

  lemma {:induction false} SeedRunCounts(t: Torrent, truth: seq<seq<byte>>, peer: nat,
                                         states: seq<State>, os: seq<Oracle>, k: nat)
    requires IsSeedRun(t, truth, peer, states, os) && k < |states|
    ensures Ready(t, truth, states[k], peer) && |states[k].pieces| == t.NumPieces()
    ensures Missing(t, states[k]) + k == BlocksBelow(t, t.NumPieces())
  {
    hide Ready, Round, Missing, Setting, Registered;
    if k == 0 {
      RegisteredIsReady(t, truth, peer);
      RegisteredSize(t, peer);
    } else {
      SeedRunCounts(t, truth, peer, states, os, k - 1);
      var taken := RoundAt(t, truth, peer, states, os, k - 1);
      assert taken;
      RoundProgress(t, truth, states[k - 1], peer, os[k - 1], states[k]);
    }
  }

  lemma RegisteredSize(t: Torrent, peer: nat)
    ensures |Registered(t, peer).pieces| == t.NumPieces()
  {
  }

  /**
   * One seed completes the download after exactly as many requests as there are blocks: no run
   * of rounds is longer, a run is complete exactly when it is that long, and a shorter one can
   * go on from wherever the probe starts.
   */
  lemma SeedCompletesDownload(t: Torrent, truth: seq<seq<byte>>, peer: nat, states: seq<State>, os: seq<Oracle>)
    requires IsSeedRun(t, truth, peer, states, os)
    ensures |os| <= BlocksBelow(t, t.NumPieces())
    ensures var last := states[|os|];
      && (last.completed == t.NumPieces() <==> |os| == BlocksBelow(t, t.NumPieces()))
      && (|os| < BlocksBelow(t, t.NumPieces()) ==>
            Inv(t, last) && forall o :: Possible(t, last, peer, o) ==> exists s' :: Round(t, truth, last, peer, o, s'))
  {
    var last := states[|os|];
    SeedRunCounts(t, truth, peer, states, os, |os|);
    CompleteIffNothingMissing(t, last);
    if |os| < BlocksBelow(t, t.NumPieces()) {
      forall o | Possible(t, last, peer, o) ensures exists s' :: Round(t, truth, last, peer, o, s') {
        RoundPossible(t, truth, last, peer, o);
      }
    }
  }
}
