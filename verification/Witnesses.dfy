/** Concrete torrents and runs that meet the hypotheses of the results about what goes wrong. */
module Witnesses {
  import opened Bytes
  import opened Layout
  import opened Engine
  import opened EngineInvariant
  import opened Safety
  import opened Honest
  import opened Recovery

  // ---------------------------------------------------------------- a last piece beyond 32 bits

  const HALF: nat := 0x8000_0000

  /** Two pieces of 2^31 bytes and one of a single byte, which is one, under any hash. */
  function HugeTorrent(h: seq<byte> -> seq<byte>): Torrent {
    Torrent(HALF, 2 * HALF + 1, 0x4000, 32, [],
      [PieceMetadata(h(Zeros(HALF)), HALF, 0x2_0000), PieceMetadata(h(Zeros(HALF)), HALF, 0x2_0000),
       PieceMetadata(h([1]), 1, 1)], h)
  }

  function HugeContent(): seq<seq<byte>> { [Zeros(HALF), Zeros(HALF), [1]] }

  lemma HugeTorrentDoesNotFit(h: seq<byte> -> seq<byte>)
    ensures var t := HugeTorrent(h); Setting(t, HugeContent()) && t.BlocksFit() && !OffsetsFit(t)
  {
    var t := HugeTorrent(h);
    assert t.FileLengths() == [2 * HALF + 1];
    assert Sum(t.FileLengths()) == 2 * HALF + 1 + Sum([]);
  }

  /**
   * For any hash that tells the two one-byte strings apart, its download can be finished by an
   * honest peer with every piece verified, and the last piece on disk still fails its hash.
   */
  lemma HugeDownloadFails(h: seq<byte> -> seq<byte>) returns (states: seq<State>, events: seq<Event>)
    requires h([0]) != h([1])
    ensures var t := HugeTorrent(h);
      && IsHonestRun(t, HugeContent(), states, events) && |states| == |events| + 1
      && states[|events|].written == t.NumPieces() == 3 && |states[|events|].disk| == t.totalLength
      && PieceOnDisk(t, states[|events|].disk, 2) == [0]
      && t.hash(PieceOnDisk(t, states[|events|].disk, 2)) != t.pieces[2].hash
      && states[|events|].disk != Flatten(HugeContent())
  {
    var t := HugeTorrent(h);
    HugeTorrentDoesNotFit(h);
    hide IsRun, OffsetsFit, PieceOnDisk, Flatten, HonestEvent, Setting;
    states, events := FinishedRunExists(t, HugeContent());
    RunShape(t, states, events);
    LastPieceLost(t, states, events, |events|);
    assert Zeros(1) == [0];
    assert HugeContent()[2][0] == 1;
    HonestDiskIffOffsetsFit(t, HugeContent(), states, events, |events|);
  }

  // ---------------------------------------------------------------- received, and not right

  /** One piece of three blocks of two bytes, all one, under any hash. */
  function SmallTorrent(h: seq<byte> -> seq<byte>): Torrent {
    Torrent(6, 6, 2, 1, [], [PieceMetadata(h(Ones()), 6, 3)], h)
  }

  function Ones(): seq<byte> { [1, 1, 1, 1, 1, 1] }

  lemma SmallTorrentIsWellFormed(h: seq<byte> -> seq<byte>)
    ensures Setting(SmallTorrent(h), [Ones()])
  {
    assert SmallTorrent(h).FileLengths() == [6];
    assert Sum([6]) == 6 + Sum([]);
  }

  function Holding(s: State, data: seq<byte>, blocks: seq<BlockState>): State {
    s.(buffer := map[0 := Slot(data, blocks)], pieces := [Buffered], affinity := map[7 := 0])
  }

  predicate IsHolding(s: State, data: seq<byte>, blocks: seq<BlockState>) {
    s.log == [] && s.buffer == map[0 := Slot(data, blocks)] && s.pieces == [Buffered]
  }

  /** Peer 7 registers and is asked for the first block; the slot still holds zeros. */
  function Begun(h: seq<byte> -> seq<byte>): State {
    Holding(UpdateBitfield(Initial(SmallTorrent(h)), 7, [true]), [0, 0, 0, 0, 0, 0], [Requested, DontHave, DontHave])
  }

  lemma BeginRun(h: seq<byte> -> seq<byte>) returns (states: seq<State>, events: seq<Event>)
    ensures IsRun(SmallTorrent(h), states, events) && |states| == 3 && |events| == 2
    ensures IsHolding(states[2], [0, 0, 0, 0, 0, 0], [Requested, DontHave, DontHave])
  {
    var t := SmallTorrent(h);
    SmallTorrentIsWellFormed(h);
    InitialInv(t);
    var s0 := Initial(t);
    var e0 := Bitfield(7, [true]);
    var s1 := Next(t, s0, e0);
    NextKeepsInv(t, s0, e0);
    var o := Oracle(0, [0, 0, 0, 0, 0, 0]);
    var e1 := SelectNext(7, o);
    FirstSelection(h, o);
    states, events := [s0, s1, Begun(h)], [e0, e1];
    forall k: nat | k < |events| ensures StepAt(t, states, events, k) {
      hide Inv, Select;
      if k == 0 {} else {}
    }
  }

  lemma FirstSelection(h: seq<byte> -> seq<byte>, o: Oracle)
    requires o.stale == [0, 0, 0, 0, 0, 0]
    ensures var t := SmallTorrent(h); var s := UpdateBitfield(Initial(t), 7, [true]);
      Inv(t, s) && Possible(t, s, 7, o) && Select(t, s, 7, o).0 == Begun(h)
  {
    var t := SmallTorrent(h);
    SmallTorrentIsWellFormed(h);
    InitialInv(t);
    var s := UpdateBitfield(Initial(t), 7, [true]);
    NextKeepsInv(t, Initial(t), Bitfield(7, [true]));
    hide Inv, AddPiece, MarkRequested;
    assert s.pieces == [NotStarted];
    assert ToAdd(t, s, 7) == Some(0);
    FirstPieceAdded(h, s, o.stale);
    FirstBlockMarked(s, o.stale);
  }

  lemma FirstPieceAdded(h: seq<byte> -> seq<byte>, s: State, stale: seq<byte>)
    requires s == UpdateBitfield(Initial(SmallTorrent(h)), 7, [true])
    ensures |s.pieces| == 1
    ensures AddPiece(SmallTorrent(h), s, 7, 0, stale) == Holding(s, stale, [DontHave, DontHave, DontHave])
  {
    assert Fresh(stale, 3).blocks == [DontHave, DontHave, DontHave];
    assert s.pieces[0 := Buffered] == [Buffered];
  }

  lemma FirstBlockMarked(s: State, stale: seq<byte>)
    ensures var blocks := [DontHave, DontHave, DontHave];
      && FirstDontHave(blocks, 0) == Some(0)
      && MarkRequested(Holding(s, stale, blocks), 0, Some(0)) == Holding(s, stale, [Requested, DontHave, DontHave])
  {
    var marked := [DontHave, DontHave, DontHave][0 := Requested];
    assert marked == [Requested, DontHave, DontHave];
    assert marked[1] == DontHave;
  }

  /** A delivered block as one more step of a run. */
  lemma Deliver(h: seq<byte> -> seq<byte>, states: seq<State>, events: seq<Event>, b: Block)
    returns (states': seq<State>, events': seq<Event>)
    requires |states| == |events| + 1 && IsRun(SmallTorrent(h), states, events)
    ensures var t := SmallTorrent(h);
      && IsRun(t, states', events') && events' == events + [Receive(b)] && Inv(t, states[|events|])
      && |states'| == |events| + 2 && states <= states'
      && states'[|events| + 1] == AddBlock(t, states[|events|], b)
  {
    var t := SmallTorrent(h);
    RunKeepsInv(t, states, events, |events|);
    hide Inv, AddBlock, SmallTorrent, IsRun;
    var s := states[|events|];
    var s' := AddBlock(t, s, b);
    assert Step(t, s, Receive(b), s');
    RunAppend(t, states, events, Receive(b), s');
    states', events' := states + [s'], events + [Receive(b)];
  }

  /** Block `k` is wanted, and at least block `j` is still missing after it. */
  lemma Wanted(h: seq<byte> -> seq<byte>, s: State, data: seq<byte>, blocks: seq<BlockState>, b: Block, k: nat, j: nat)
    requires Inv(SmallTorrent(h), s) && IsHolding(s, data, blocks) && |data| == 6 && |blocks| == 3
    requires b.piece == 0 && b.offset == 2 * k && k < 3 && b.offset + |b.data| <= 6
    requires blocks[k] != Have && j < 3 && j != k && blocks[j] != Have
    ensures var t := SmallTorrent(h);
      && ValidBlock(t, b)
      && IsHolding(AddBlock(t, s, b), Splice(data, b.offset, b.data), blocks[k := Have])
  {
    var t := SmallTorrent(h);
    SmallTorrentIsWellFormed(h);
    hide LogInv, WriterInv, PeerInv, FinishPiece;
    assert BlockIndex(t, 0, b.offset) == k;
    assert blocks[k := Have][j] != Have;
  }

  lemma RightSoFar(h: seq<byte> -> seq<byte>, s: State, data: seq<byte>, blocks: seq<BlockState>)
    requires IsHolding(s, data, blocks) && |data| == 6 && |blocks| == 3
    requires forall p: nat :: p < 6 && blocks[p / 2] == Have ==> data[p] == 1
    ensures Setting(SmallTorrent(h), [Ones()]) && HonestInv(SmallTorrent(h), [Ones()], s)
  {
    SmallTorrentIsWellFormed(h);
  }

  lemma WrongAt(h: seq<byte> -> seq<byte>, s: State, data: seq<byte>, blocks: seq<BlockState>, p: nat)
    requires IsHolding(s, data, blocks) && |data| == 6 && |blocks| == 3
    requires p < 6 && blocks[p / 2] == Have && data[p] != 1
    ensures Setting(SmallTorrent(h), [Ones()]) && !HonestInv(SmallTorrent(h), [Ones()], s)
  {
    SmallTorrentIsWellFormed(h);
    assert BlockIndex(SmallTorrent(h), 0, p) == p / 2;
    assert Ones()[p] == 1;
  }

  /** A short block marks a whole block received while one of its bytes is still stale. */
  lemma ShortBlockLeavesStaleBytes(h: seq<byte> -> seq<byte>) returns (states: seq<State>, events: seq<Event>)
    ensures var t := SmallTorrent(h); var b := Block(0, 2, [1]);
      && Setting(t, [Ones()]) && IsRun(t, states, events) && |states| == 4 && |events| == 3
      && events[2] == Receive(b) && ValidBlock(t, b)
      && IsHolding(states[3], [0, 0, 1, 0, 0, 0], [Requested, Have, DontHave])
      && HonestInv(t, [Ones()], states[2]) && !HonestInv(t, [Ones()], states[3])
  {
    hide IsRun, Inv, AddBlock, HonestInv, Setting, ValidBlock, ShouldWrite, SmallTorrent, IsHolding, Ones;
    var data, blocks := [0, 0, 0, 0, 0, 0], [Requested, DontHave, DontHave];
    states, events := BeginRun(h);
    var begun := states[2];
    RightSoFar(h, begun, data, blocks);
    states, events := Deliver(h, states, events, Block(0, 2, [1]));
    assert states[2] == begun;
    Wanted(h, begun, data, blocks, Block(0, 2, [1]), 1, 2);
    assert blocks[1 := Have] == [Requested, Have, DontHave];
    assert Splice(data, 2, [1]) == [0, 0, 1, 0, 0, 0];
    WrongAt(h, states[3], [0, 0, 1, 0, 0, 0], [Requested, Have, DontHave], 3);
  }

  /** A received block that was right is overwritten by the over-long block before it. */
  lemma LongBlockSpoilsItsNeighbour(h: seq<byte> -> seq<byte>) returns (states: seq<State>, events: seq<Event>)
    ensures var t := SmallTorrent(h); var b := Block(0, 0, [1, 1, 9]);
      && Setting(t, [Ones()]) && IsRun(t, states, events) && |states| == 5 && |events| == 4
      && events[3] == Receive(b) && ValidBlock(t, b)
      && IsHolding(states[3], [0, 0, 1, 1, 0, 0], [Requested, Have, DontHave])
      && IsHolding(states[4], [1, 1, 9, 1, 0, 0], [Have, Have, DontHave])
      && HonestInv(t, [Ones()], states[3]) && !HonestInv(t, [Ones()], states[4])
  {
    hide IsRun, Inv, AddBlock, HonestInv, Setting, ValidBlock, ShouldWrite, SmallTorrent, IsHolding, Ones;
    var data, blocks := [0, 0, 0, 0, 0, 0], [Requested, DontHave, DontHave];
    var data1, blocks1 := [0, 0, 1, 1, 0, 0], [Requested, Have, DontHave];
    states, events := BeginRun(h);
    var begun := states[2];
    states, events := Deliver(h, states, events, Block(0, 2, [1, 1]));
    Wanted(h, begun, data, blocks, Block(0, 2, [1, 1]), 1, 2);
    assert blocks[1 := Have] == blocks1;
    assert Splice(data, 2, [1, 1]) == data1;
    var half := states[3];
    RightSoFar(h, half, data1, blocks1);
    states, events := Deliver(h, states, events, Block(0, 0, [1, 1, 9]));
    assert states[3] == half;
    Wanted(h, half, data1, blocks1, Block(0, 0, [1, 1, 9]), 0, 2);
    assert blocks1[0 := Have] == [Have, Have, DontHave];
    assert Splice(data1, 0, [1, 1, 9]) == [1, 1, 9, 1, 0, 0];
    WrongAt(h, states[4], [1, 1, 9, 1, 0, 0], [Have, Have, DontHave], 2);
  }
}
