/** The blocks still missing: in an honest run exactly the wanted blocks count. */
module Counting {
  import opened Bytes
  import opened Layout
  import opened Engine
  import opened EngineInvariant
  import opened EngineEffects
  import opened Accepted
  import opened Safety
  import opened Honest

  function MissingBlocks(blocks: seq<BlockState>): nat {
    if blocks == [] then 0 else (if blocks[0] == Have then 0 else 1) + MissingBlocks(blocks[1..])
  }

  lemma {:induction false} ReceiveOne(blocks: seq<BlockState>, k: nat)
    requires k < |blocks| && blocks[k] != Have
    ensures MissingBlocks(blocks) == MissingBlocks(blocks[k := Have]) + 1
  {
    if k > 0 {
      ReceiveOne(blocks[1..], k - 1);
      assert blocks[k := Have][1..] == blocks[1..][k - 1 := Have];
    } else {
      assert blocks[0 := Have][1..] == blocks[1..];
    }
  }

  lemma {:induction false} SameMissing(a: seq<BlockState>, b: seq<BlockState>)
    requires |a| == |b| && forall k :: 0 <= k < |a| ==> (a[k] == Have <==> b[k] == Have)
    ensures MissingBlocks(a) == MissingBlocks(b)
  {
    if a != [] { SameMissing(a[1..], b[1..]); }
  }

  lemma {:induction false} NoneMissing(blocks: seq<BlockState>)
    ensures AllHave(blocks) <==> MissingBlocks(blocks) == 0
  {
    if blocks != [] {
      NoneMissing(blocks[1..]);
      assert AllHave(blocks) <==> blocks[0] == Have && AllHave(blocks[1..]) by {
        if blocks[0] == Have && AllHave(blocks[1..]) {
          assert forall k :: 1 <= k < |blocks| ==> blocks[k] == blocks[1..][k - 1];
        }
      }
    }
  }

  lemma {:induction false} AllMissing(blocks: seq<BlockState>)
    requires forall k :: 0 <= k < |blocks| ==> blocks[k] != Have
    ensures MissingBlocks(blocks) == |blocks|
  {
    if blocks != [] { AllMissing(blocks[1..]); }
  }

  /** Blocks of piece `i` that have not been received. */
  function MissingIn(t: Torrent, s: State, i: nat): nat
    requires i < |s.pieces| == t.NumPieces()
  {
    if s.pieces[i] == Completed then 0
    else if i in s.buffer then MissingBlocks(s.buffer[i].blocks)
    else t.NumBlocks(i)
  }

  function MissingBelow(t: Torrent, s: State, n: nat): nat
    requires n <= |s.pieces| == t.NumPieces()
  {
    if n == 0 then 0 else MissingBelow(t, s, n - 1) + MissingIn(t, s, n - 1)
  }

  /** Blocks of the whole torrent that have not been received. */
  function Missing(t: Torrent, s: State): nat
    requires |s.pieces| == t.NumPieces()
  {
    MissingBelow(t, s, t.NumPieces())
  }

  /** The number of blocks of the first `n` pieces. */
  function BlocksBelow(t: Torrent, n: nat): nat
    requires n <= t.NumPieces()
  {
    if n == 0 then 0 else BlocksBelow(t, n - 1) + t.NumBlocks(n - 1)
  }

  lemma {:induction false} MissingChangesAt(t: Torrent, s: State, s': State, i: nat, n: nat, d: nat)
    requires n <= |s.pieces| == |s'.pieces| == t.NumPieces() && i < t.NumPieces()
    requires forall j: nat :: j < t.NumPieces() && j != i ==> MissingIn(t, s, j) == MissingIn(t, s', j)
    requires MissingIn(t, s, i) == MissingIn(t, s', i) + d
    ensures MissingBelow(t, s, n) == MissingBelow(t, s', n) + if i < n then d else 0
  {
    if n > 0 { MissingChangesAt(t, s, s', i, n - 1, d); }
  }

  lemma {:induction false} NothingStartedMissing(t: Torrent, s: State, n: nat)
    requires n <= |s.pieces| == t.NumPieces()
    requires forall i: nat :: i < n ==> s.pieces[i] == NotStarted && i !in s.buffer
    ensures MissingBelow(t, s, n) == BlocksBelow(t, n)
  {
    if n > 0 { NothingStartedMissing(t, s, n - 1); }
  }

  lemma PieceMissing(t: Torrent, s: State, i: nat)
    requires Inv(t, s) && i < t.NumPieces()
    ensures |s.pieces| == t.NumPieces()
    ensures MissingIn(t, s, i) == 0 <==> s.pieces[i] == Completed
  {
    hide LogInv, WriterInv, PeerInv;
    AtLeastOneBlock(t, i);
    if i in s.buffer {
      assert SlotFits(t, i, s.buffer[i]);
      NoneMissing(s.buffer[i].blocks);
    }
  }

  /** Nothing is missing exactly when every piece is completed. */
  lemma {:induction false} NothingMissing(t: Torrent, s: State, n: nat)
    requires Inv(t, s) && n <= t.NumPieces()
    ensures |s.pieces| == t.NumPieces()
    ensures MissingBelow(t, s, n) == 0 <==> forall i :: 0 <= i < n ==> s.pieces[i] == Completed
  {
    hide Inv, MissingIn;
    Sizes(t, s);
    if n > 0 {
      NothingMissing(t, s, n - 1);
      PieceMissing(t, s, n - 1);
    }
  }

  // ---------------------------------------------------------------- what each event changes

  /** No piece has more or fewer blocks missing. */
  ghost predicate SameProgress(t: Torrent, s: State, s': State) {
    && |s'.pieces| == |s.pieces| == t.NumPieces()
    && forall j: nat :: j < t.NumPieces() ==> MissingIn(t, s, j) == MissingIn(t, s', j)
  }

  lemma SameProgressCounts(t: Torrent, s: State, s': State)
    requires SameProgress(t, s, s')
    ensures Missing(t, s) == Missing(t, s')
  {
    hide MissingIn;
    if t.NumPieces() > 0 { MissingChangesAt(t, s, s', 0, t.NumPieces(), 0); }
  }

  lemma ChangedOnlyAt(t: Torrent, s: State, s': State, i: nat, j: nat)
    requires OnlyPiece(s, s', i) && j != i && j < |s.pieces| == t.NumPieces()
    ensures MissingIn(t, s, j) == MissingIn(t, s', j)
  {
    hide MissingBlocks;
  }

  /** Binding a peer to a piece changes no received mark; a piece taken up has all its blocks missing. */
  lemma BindingSameProgress(t: Torrent, s: State, s1: State, peer: nat, i: nat)
    requires Inv(t, s) && Inv(t, s1) && Advances(s, s1)
    requires peer in s.bitfields && i < |s.pieces| && Bound(s, s1, peer, i)
    ensures SameProgress(t, s, s1)
  {
    hide Inv, MissingIn, SameReceived, NothingAsked;
    Sizes(t, s);
    Sizes(t, s1);
    SlotSizes(t, s1, i);
    OwnPieceSameProgress(t, s, s1, i);
    forall j: nat | j < t.NumPieces() && j != i ensures MissingIn(t, s, j) == MissingIn(t, s1, j) {
      ChangedOnlyAt(t, s, s1, i, j);
    }
  }

  lemma OwnPieceSameProgress(t: Torrent, s: State, s1: State, i: nat)
    requires i < |s.pieces| == |s1.pieces| == t.NumPieces() && i in s1.buffer
    requires s1.pieces[i] != Completed && s.pieces[i] != Completed
    requires |s1.buffer[i].blocks| == t.NumBlocks(i)
    requires if i in s.buffer then SameReceived(s.buffer[i], s1.buffer[i]) else NothingAsked(s1.buffer[i])
    ensures MissingIn(t, s, i) == MissingIn(t, s1, i)
  {
    if i in s.buffer {
      SameMissing(s.buffer[i].blocks, s1.buffer[i].blocks);
    } else {
      AllMissing(s1.buffer[i].blocks);
    }
  }

  lemma MarkingSameProgress(t: Torrent, s: State, i: nat)
    requires Inv(t, s) && i in s.buffer
    ensures SameProgress(t, s, MarkRequested(s, i, FirstDontHave(s.buffer[i].blocks, 0)))
  {
    hide Inv, MissingBlocks;
    Sizes(t, s);
    var found := FirstDontHave(s.buffer[i].blocks, 0);
    var s' := MarkRequested(s, i, found);
    SameMissing(s.buffer[i].blocks, s'.buffer[i].blocks);
  }

  lemma SelectSameProgress(t: Torrent, s: State, peer: nat, o: Oracle)
    requires Inv(t, s) && Possible(t, s, peer, o)
    ensures SameProgress(t, s, Select(t, s, peer, o).0)
  {
    hide Inv, Possible, Choose, MarkRequested, Bound, MissingIn, Advances;
    Sizes(t, s);
    if peer in s.bitfields {
      ChooseKeepsInv(t, s, peer, o);
      ChooseBinds(t, s, peer, o);
      ChooseAdvances(t, s, peer, o);
      var (s1, chosen) := Choose(t, s, peer, o);
      if chosen.Some? {
        Sizes(t, s1);
        BindingSameProgress(t, s, s1, peer, chosen.value);
        MarkingSameProgress(t, s1, chosen.value);
      }
    }
  }

  /** A wanted honest block is the only event that counts, and it counts one. */
  predicate Counts(t: Torrent, s: State, e: Event)
    requires t.WellFormed() && BufferInv(t, s.pieces, s.buffer)
  {
    e.Receive? && ValidBlock(t, e.block) && ShouldWrite(t, s, e.block)
  }

  lemma WantedBlockCounts(t: Torrent, truth: seq<seq<byte>>, s: State, b: Block)
    requires Setting(t, truth) && Inv(t, s) && HonestInv(t, truth, s) && HonestBlock(t, truth, s, b)
    requires ValidBlock(t, b) && ShouldWrite(t, s, b)
    ensures var s' := AddBlock(t, s, b);
      |s'.pieces| == |s.pieces| == t.NumPieces() && Missing(t, s) == Missing(t, s') + 1
  {
    hide LogInv, WriterInv, PeerInv, BufferInv, HonestInv, HonestBlock, AddBlock, MissingIn, TrueSlot,
      WriteBlock, LogGains, Setting;
    Sizes(t, s);
    HonestAddBlock(t, truth, s, b);
    BlockEffect(t, s, b);
    var now := WantedBlockEffect(t, s, b);
    var s' := AddBlock(t, s, b);
    forall j: nat | j < t.NumPieces() && j != b.piece ensures MissingIn(t, s, j) == MissingIn(t, s', j) {
      ChangedOnlyAt(t, s, s', b.piece, j);
    }
    OwnPieceCounts(t, s, s', b.piece, now.blocks, b.offset / t.blockLength);
    MissingChangesAt(t, s, s', b.piece, t.NumPieces(), 1);
  }

  lemma OwnPieceCounts(t: Torrent, s: State, s': State, i: nat, blocks: seq<BlockState>, k: nat)
    requires i < |s.pieces| == |s'.pieces| == t.NumPieces() && i in s.buffer && s.pieces[i] != Completed
    requires k < |s.buffer[i].blocks| && s.buffer[i].blocks[k] != Have
    requires blocks == s.buffer[i].blocks[k := Have]
    requires if AllHave(blocks) then s'.pieces[i] == Completed
      else s'.pieces == s.pieces && i in s'.buffer && s'.buffer[i].blocks == blocks
    ensures MissingIn(t, s, i) == MissingIn(t, s', i) + 1
  {
    ReceiveOne(s.buffer[i].blocks, k);
    NoneMissing(blocks);
  }

  /** What one event of an honest run does to the number of missing blocks. */
  lemma HonestStepCounts(t: Torrent, truth: seq<seq<byte>>, s: State, e: Event)
    requires Setting(t, truth) && Inv(t, s) && HonestInv(t, truth, s) && Enabled(t, s, e)
    requires HonestEvent(t, truth, s, e)
    ensures |Next(t, s, e).pieces| == |s.pieces| == t.NumPieces()
    ensures Missing(t, s) == Missing(t, Next(t, s, e)) + if Counts(t, s, e) then 1 else 0
  {
    hide HonestInv, Select, AddBlock, Possible, Setting, Missing, HonestBlock, BufferInv, LogInv, PeerInv, WriterInv;
    Sizes(t, s);
    if e.SelectNext? {
      SelectSameProgress(t, s, e.peer, e.oracle);
      SameProgressCounts(t, s, Next(t, s, e));
    } else if Counts(t, s, e) {
      WantedBlockCounts(t, truth, s, e.block);
    } else if e.Receive? {
      BlockEffect(t, s, e.block);
    } else {
      SameProgressCounts(t, s, Next(t, s, e));
    }
  }

  /** How many of the first `k` events delivered a wanted block. */
  ghost function Wanted(t: Torrent, states: seq<State>, events: seq<Event>, k: nat): nat
    requires IsRun(t, states, events) && k <= |events|
  {
    if k == 0 then 0
    else
      var before := Wanted(t, states, events, k - 1);
      assert StepAt(t, states, events, k - 1);
      before + if Counts(t, states[k - 1], events[k - 1]) then 1 else 0
  }

  /**
   * In every honest run, of any peers and in any order, each wanted block counts one and nothing
   * else counts: the blocks missing are all blocks less the wanted ones, and the download is
   * complete exactly when as many wanted blocks were delivered as the torrent has blocks.
   */
  lemma {:induction false} HonestRunCounts(t: Torrent, truth: seq<seq<byte>>,
                                           states: seq<State>, events: seq<Event>, k: nat)
    requires IsHonestRun(t, truth, states, events) && k < |states|
    ensures |states[k].pieces| == t.NumPieces()
    ensures Missing(t, states[k]) + Wanted(t, states, events, k) == BlocksBelow(t, t.NumPieces())
    ensures states[k].completed == t.NumPieces() <==> Wanted(t, states, events, k) == BlocksBelow(t, t.NumPieces())
  {
    hide Inv, Next, Enabled, HonestInv, Setting, Missing, HonestEvent, Counts, BlocksBelow;
    RunKeepsInv(t, states, events, k);
    Sizes(t, states[k]);
    if k == 0 {
      NothingAtFirst(t);
    } else {
      HonestRunCounts(t, truth, states, events, k - 1);
      HonestRun(t, truth, states, events, k - 1);
      RunStep(t, states, events, k - 1);
      assert HonestEvent(t, truth, states[k - 1], events[k - 1]);
      HonestStepCounts(t, truth, states[k - 1], events[k - 1]);
    }
    CompleteIffNothingMissing(t, states[k]);
  }

  lemma NothingAtFirst(t: Torrent)
    ensures |Initial(t).pieces| == t.NumPieces()
    ensures Missing(t, Initial(t)) == BlocksBelow(t, t.NumPieces())
  {
    NothingStartedMissing(t, Initial(t), t.NumPieces());
  }

  lemma CompleteIffNothingMissing(t: Torrent, s: State)
    requires Inv(t, s)
    ensures |s.pieces| == t.NumPieces() && (s.completed == t.NumPieces() <==> Missing(t, s) == 0)
  {
    hide Inv, MissingBelow;
    Sizes(t, s);
    NothingMissing(t, s, t.NumPieces());
    CompleteIffAllCompleted(t, s);
  }
}
