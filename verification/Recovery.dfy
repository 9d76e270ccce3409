/**
 * That every run can be finished: one peer that has everything suffices, whatever other peers
 * left requested and whatever wrong bytes they delivered.
 */
module Recovery {
  import opened Bytes
  import opened Layout
  import opened Engine
  import opened EngineInvariant
  import opened EngineEffects
  import opened Accepted
  import opened Safety
  import opened Honest
  import opened Counting
  import opened Progress

  // ---------------------------------------------------------------- a peer that has everything

  /** The peer is registered and advertises every piece. */
  predicate FullPeer(s: State, peer: nat) {
    peer in s.bitfields && forall i :: 0 <= i < |s.bitfields[peer]| ==> s.bitfields[peer][i]
  }

  /** The peer is asked for a block, or a block is answered with exactly its bytes. */
  ghost predicate FromPeer(t: Torrent, truth: seq<seq<byte>>, peer: nat, e: Event)
    requires Setting(t, truth)
  {
    || (e.SelectNext? && e.peer == peer)
    || (e.Receive? && exists i: nat, k: nat :: IsReply(t, truth, i, k, e.block))
  }

  ghost predicate IsReply(t: Torrent, truth: seq<seq<byte>>, i: nat, k: nat, b: Block)
    requires Setting(t, truth)
  {
    i < t.NumPieces() && k < t.NumBlocks(i) && b == Reply(t, i, k, truth[i])
  }

  /** The events after the first `from` are the peer's. */
  ghost predicate PeerSince(t: Torrent, truth: seq<seq<byte>>, peer: nat, from: nat, events: seq<Event>)
    requires Setting(t, truth)
  {
    forall m :: from <= m < |events| ==> FromPeer(t, truth, peer, events[m])
  }

  lemma HonestAppend(t: Torrent, truth: seq<seq<byte>>, states: seq<State>, events: seq<Event>, e: Event, s': State)
    requires IsHonestRun(t, truth, states, events) && Step(t, states[|events|], e, s')
    requires HonestEvent(t, truth, states[|events|], e)
    ensures IsHonestRun(t, truth, states + [s'], events + [e])
  {
    hide Step, HonestEvent, Setting;
    RunAppend(t, states, events, e, s');
    RunShape(t, states, events);
    hide IsRun;
  }

  /** The run goes on, and is honest if it was. */
  ghost predicate GoesOn(t: Torrent, truth: seq<seq<byte>>, states: seq<State>, events: seq<Event>,
                         states': seq<State>, events': seq<Event>) {
    && IsRun(t, states', events') && states <= states' && events <= events'
    && (IsHonestRun(t, truth, states, events) ==> IsHonestRun(t, truth, states', events'))
  }

  lemma GoesOnStep(t: Torrent, truth: seq<seq<byte>>, states: seq<State>, events: seq<Event>, e: Event, s': State)
    requires IsRun(t, states, events) && Setting(t, truth) && Step(t, states[|events|], e, s')
    requires HonestEvent(t, truth, states[|events|], e)
    ensures GoesOn(t, truth, states, events, states + [s'], events + [e])
  {
    hide IsHonestRun;
    RunAppend(t, states, events, e, s');
    hide IsRun, Step, HonestEvent;
    if IsHonestRun(t, truth, states, events) { HonestAppend(t, truth, states, events, e, s'); }
  }

  /** While a block is missing, a peer that has everything can be served. */
  lemma FullPeerIsServable(t: Torrent, s: State, peer: nat)
    requires Inv(t, s) && FullPeer(s, peer) && t.bufferSize > 0
    requires |s.pieces| == t.NumPieces() && Missing(t, s) > 0
    ensures Servable(t, s, peer)
  {
    hide Inv, MissingBelow;
    NothingMissing(t, s, t.NumPieces());
    Sizes(t, s);
    var i :| 0 <= i < t.NumPieces() && s.pieces[i] != Completed;
    if i in s.buffer {
      assert Advertised(s, peer, i);
    } else if |s.buffer| == t.bufferSize {
      assert s.buffer.Keys != {};
      var p :| p in s.buffer;
      assert Advertised(s, peer, p);
    } else {
      assert s.pieces[i] == NotStarted;
    }
  }

  /** The block just requested is wanted. */
  lemma RequestedIsWanted(t: Torrent, truth: seq<seq<byte>>, s: State, i: nat, k: nat)
    requires Setting(t, truth) && Inv(t, s) && i in s.buffer && i < t.NumPieces() && k < t.NumBlocks(i)
    requires k < |s.buffer[i].blocks| && s.buffer[i].blocks[k] == Requested
    ensures var b := Reply(t, i, k, truth[i]);
      ValidBlock(t, b) && ShouldWrite(t, s, b) && HonestBlock(t, truth, s, b)
  {
    hide LogInv, WriterInv, PeerInv, BufferInv, Reply, HonestBlock;
    ReplyIsHonest(t, truth, s, i, k);
  }

  // ---------------------------------------------------------------- wrong bytes are found out

  /** The buffered pieces with a received block that is not right. */
  ghost function Tainted(t: Torrent, truth: seq<seq<byte>>, s: State): (r: set<nat>)
    requires Setting(t, truth)
    ensures forall i :: i in r <==> i in s.buffer && i < t.NumPieces() && !TrueSlot(t, i, s.buffer[i], truth[i])
  {
    set i | i in s.buffer && i < t.NumPieces() && !TrueSlot(t, i, s.buffer[i], truth[i])
  }

  lemma MarkTaintsNothing(t: Torrent, truth: seq<seq<byte>>, s: State, c: nat)
    requires Setting(t, truth) && Inv(t, s) && c in s.buffer
    ensures Tainted(t, truth, MarkRequested(s, c, FirstDontHave(s.buffer[c].blocks, 0))) <= Tainted(t, truth, s)
  {
    hide Inv, TrueSlot;
    Sizes(t, s);
    var found := FirstDontHave(s.buffer[c].blocks, 0);
    var s' := MarkRequested(s, c, found);
    if TrueSlot(t, c, s.buffer[c], truth[c]) {
      RelabelKeepsTrueSlot(t, c, s.buffer[c], truth[c], s'.buffer[c].blocks);
    }
  }

  lemma BindingTaintsNothing(t: Torrent, truth: seq<seq<byte>>, s: State, s1: State, peer: nat, c: nat)
    requires Setting(t, truth) && Inv(t, s) && Inv(t, s1) && peer in s.bitfields && Bound(s, s1, peer, c)
    ensures Tainted(t, truth, s1) <= Tainted(t, truth, s)
  {
    hide Inv, TrueSlot;
    Sizes(t, s1);
    SlotHasBlocks(t, truth, s1, c);
    if c in s.buffer {
      if TrueSlot(t, c, s.buffer[c], truth[c]) {
        RelabelKeepsTrueSlot(t, c, s.buffer[c], truth[c], s1.buffer[c].blocks);
      }
    } else {
      NothingAskedIsTrue(t, c, s1.buffer[c], truth[c]);
    }
  }

  lemma NothingAskedIsTrue(t: Torrent, i: nat, slot: Slot, content: seq<byte>)
    requires t.WellFormed() && i < t.NumPieces() && NothingAsked(slot)
    requires |slot.data| == |content| == t.PieceLength(i) && |slot.blocks| == t.NumBlocks(i)
    ensures TrueSlot(t, i, slot, content)
  {
  }

  lemma SelectTaintsNothing(t: Torrent, truth: seq<seq<byte>>, s: State, peer: nat, o: Oracle)
    requires Setting(t, truth) && Inv(t, s) && Possible(t, s, peer, o)
    ensures Tainted(t, truth, Select(t, s, peer, o).0) <= Tainted(t, truth, s)
  {
    hide Inv, Possible, Choose, MarkRequested, Bound, Setting, Tainted;
    if peer in s.bitfields {
      ChooseKeepsInv(t, s, peer, o);
      ChooseBinds(t, s, peer, o);
      var (s1, chosen) := Choose(t, s, peer, o);
      if chosen.Some? {
        BindingTaintsNothing(t, truth, s, s1, peer, chosen.value);
        MarkTaintsNothing(t, truth, s1, chosen.value);
      }
    }
  }

  /** The measure of one answer: one tainted piece less, or as many and one block less missing. */
  ghost predicate Closer(t: Torrent, truth: seq<seq<byte>>, s: State, s': State)
    requires Setting(t, truth)
  {
    && |s.pieces| == |s'.pieces| == t.NumPieces()
    && |Tainted(t, truth, s')| <= |Tainted(t, truth, s)|
    && (|Tainted(t, truth, s')| < |Tainted(t, truth, s)| || Missing(t, s') < Missing(t, s))
  }

  /**
   * A wanted reply counts, except if it completes a piece whose bytes do not verify: such a
   * piece was tainted, and is not any more.
   */
  lemma ReplyComesCloser(t: Torrent, truth: seq<seq<byte>>, s: State, i: nat, k: nat)
    requires Setting(t, truth) && Inv(t, s) && i < t.NumPieces() && k < t.NumBlocks(i)
    requires ValidBlock(t, Reply(t, i, k, truth[i])) && ShouldWrite(t, s, Reply(t, i, k, truth[i]))
    ensures Closer(t, truth, s, AddBlock(t, s, Reply(t, i, k, truth[i])))
  {
    hide LogInv, WriterInv, PeerInv, BufferInv, AddBlock, MissingIn, TrueSlot, WriteBlock, LogGains, Setting, Reply,
      Tainted, Missing;
    SettingSizes(t, truth, i);
    var b := Reply(t, i, k, truth[i]);
    Sizes(t, s);
    ReplyIsHonest(t, truth, s, i, k);
    BlockEffect(t, s, b);
    var now := WantedBlockEffect(t, s, b);
    var s' := AddBlock(t, s, b);
    ReplyKeepsSlotRight(t, truth, s, i, k);
    ReplyTaintsNothing(t, truth, s, s', i, now);
    if AllHave(now.blocks) && s'.pieces[i] != Completed {
      MismatchWasTainted(t, truth, s, i, now);
    } else {
      ReplyCounts(t, s, s', i, now.blocks, b.offset / t.blockLength);
    }
  }

  lemma ReplyKeepsSlotRight(t: Torrent, truth: seq<seq<byte>>, s: State, i: nat, k: nat)
    requires Setting(t, truth) && Inv(t, s) && i < t.NumPieces() && k < t.NumBlocks(i)
    requires var b := Reply(t, i, k, truth[i]);
      ValidBlock(t, b) && ShouldWrite(t, s, b) && HonestBlock(t, truth, s, b)
    ensures TrueSlot(t, i, s.buffer[i], truth[i]) ==>
      TrueSlot(t, i, WriteBlock(t, s, Reply(t, i, k, truth[i])), truth[i])
  {
    hide LogInv, WriterInv, PeerInv, TrueSlot, Covering, BlockIndex;
    if TrueSlot(t, i, s.buffer[i], truth[i]) {
      CoveringKeepsTrueSlot(t, i, Reply(t, i, k, truth[i]), s.buffer[i], truth[i]);
    }
  }

  lemma ReplyTaintsNothing(t: Torrent, truth: seq<seq<byte>>, s: State, s': State, i: nat, now: Slot)
    requires Setting(t, truth) && OnlyPiece(s, s', i) && i in s.buffer && i < t.NumPieces()
    requires i in s'.buffer ==> s'.buffer[i] == now
    requires TrueSlot(t, i, s.buffer[i], truth[i]) ==> TrueSlot(t, i, now, truth[i])
    ensures Tainted(t, truth, s') <= Tainted(t, truth, s)
    ensures |Tainted(t, truth, s')| <= |Tainted(t, truth, s)|
    ensures i in Tainted(t, truth, s) && i !in s'.buffer ==> |Tainted(t, truth, s')| < |Tainted(t, truth, s)|
  {
    hide TrueSlot;
    var a, b := Tainted(t, truth, s'), Tainted(t, truth, s);
    assert a <= b;
    SubsetSize(a, b);
    if i in b && i !in s'.buffer {
      assert a <= b - {i};
      SubsetSize(a, b - {i});
    }
  }

  lemma MismatchWasTainted(t: Torrent, truth: seq<seq<byte>>, s: State, i: nat, now: Slot)
    requires Setting(t, truth) && i < t.NumPieces() && i in s.buffer
    requires TrueSlot(t, i, s.buffer[i], truth[i]) ==> TrueSlot(t, i, now, truth[i])
    requires AllHave(now.blocks) && t.hash(now.data) != t.pieces[i].hash
    ensures i in Tainted(t, truth, s)
  {
    if TrueSlot(t, i, now, truth[i]) { AllHaveIsTrue(t, i, now, truth[i]); }
  }

  lemma ReplyCounts(t: Torrent, s: State, s': State, i: nat, blocks: seq<BlockState>, k: nat)
    requires OnlyPiece(s, s', i) && i < |s.pieces| == t.NumPieces() && i in s.buffer && s.pieces[i] != Completed
    requires k < |s.buffer[i].blocks| && s.buffer[i].blocks[k] != Have
    requires blocks == s.buffer[i].blocks[k := Have]
    requires if AllHave(blocks) then s'.pieces[i] == Completed
      else s'.pieces == s.pieces && i in s'.buffer && s'.buffer[i].blocks == blocks
    ensures Missing(t, s') == Missing(t, s) - 1
  {
    hide MissingIn;
    forall j: nat | j < t.NumPieces() && j != i ensures MissingIn(t, s, j) == MissingIn(t, s', j) {
      ChangedOnlyAt(t, s, s', i, j);
    }
    OwnPieceCounts(t, s, s', i, blocks, k);
    MissingChangesAt(t, s, s', i, t.NumPieces(), 1);
  }

  /** A request and its answer. */
  lemma RequestAndAnswer(t: Torrent, truth: seq<seq<byte>>, s: State, peer: nat, o: Oracle)
    returns (s1: State, b: Block, s2: State)
    requires Setting(t, truth) && Inv(t, s) && FullPeer(s, peer)
    requires Possible(t, s, peer, o) && Select(t, s, peer, o).1.Some?
    ensures Step(t, s, SelectNext(peer, o), s1) && Step(t, s1, Receive(b), s2)
    ensures HonestEvent(t, truth, s1, Receive(b)) && FromPeer(t, truth, peer, Receive(b))
    ensures FullPeer(s2, peer) && Closer(t, truth, s, s2)
  {
    hide LogInv, WriterInv, PeerInv, BufferInv, HonestBlock, Select, AddBlock, Possible, Reply, Setting,
      Missing, LogGains, OnlyPiece, OnlyBlockAsked, OtherBindings, Tainted;
    s1 := Select(t, s, peer, o).0;
    var i, k := RequestEffect(t, s, peer, o);
    SelectKeepsInv(t, s, peer, o);
    SelectSameProgress(t, s, peer, o);
    SameProgressCounts(t, s, s1);
    SelectTaintsNothing(t, truth, s, peer, o);
    SubsetSize(Tainted(t, truth, s1), Tainted(t, truth, s));
    SelectKeepsBitfields(t, s, peer, o);
    RequestedIsWanted(t, truth, s1, i, k);
    SettingSizes(t, truth, i);
    b := Reply(t, i, k, truth[i]);
    assert IsReply(t, truth, i, k, b);
    s2 := AddBlock(t, s1, b);
    ReplyComesCloser(t, truth, s1, i, k);
    BlockEffect(t, s1, b);
  }

  lemma SettingSizes(t: Torrent, truth: seq<seq<byte>>, i: nat)
    requires Setting(t, truth) && i < t.NumPieces()
    ensures t.WellFormed() && |truth| == t.NumPieces() && |truth[i]| == t.PieceLength(i)
  {
  }

  /** Fewer tainted pieces, or fewer missing blocks, or fewer pieces that only look requestable. */
  ghost predicate Descends(t: Torrent, truth: seq<seq<byte>>, s: State, s': State)
    requires Setting(t, truth)
  {
    && |s.pieces| == |s'.pieces| == t.NumPieces()
    && |Tainted(t, truth, s')| <= |Tainted(t, truth, s)|
    && (|| |Tainted(t, truth, s')| < |Tainted(t, truth, s)|
        || Missing(t, s') < Missing(t, s)
        || (Missing(t, s') == Missing(t, s) && |Exhausted(s')| < |Exhausted(s)|))
  }

  /** One more call for a block, and its answer if there is one. */
  lemma OneMove(t: Torrent, truth: seq<seq<byte>>, peer: nat, states: seq<State>, events: seq<Event>)
    returns (states': seq<State>, events': seq<Event>)
    requires IsRun(t, states, events) && Setting(t, truth) && t.bufferSize > 0
    requires FullPeer(states[|events|], peer)
    requires |states[|events|].pieces| == t.NumPieces() && Missing(t, states[|events|]) > 0
    ensures GoesOn(t, truth, states, events, states', events')
    ensures |states'| == |events'| + 1 && PeerSince(t, truth, peer, |events|, events')
    ensures FullPeer(states'[|events'|], peer) && Descends(t, truth, states[|events|], states'[|events'|])
  {
    hide Inv, HonestEvent, Setting, Missing, Select, Possible, Servable, FullPeer, IsRun, IsHonestRun, Step,
      Exhausted, Tainted;
    RunShape(t, states, events);
    var s := states[|events|];
    RunKeepsInv(t, states, events, |events|);
    FullPeerIsServable(t, s, peer);
    SelectionIsPossible(t, s, peer);
    var o :| Possible(t, s, peer, o);
    CallIsHonest(t, truth, s, peer, o);
    if Select(t, s, peer, o).1.None? {
      var s' := CallIsStep(t, truth, s, peer, o);
      GoesOnStep(t, truth, states, events, SelectNext(peer, o), s');
      states', events' := states + [s'], events + [SelectNext(peer, o)];
    } else {
      var s1, b, s2 := RequestAndAnswer(t, truth, s, peer, o);
      GoesOnStep(t, truth, states, events, SelectNext(peer, o), s1);
      var ss, es := states + [s1], events + [SelectNext(peer, o)];
      GoesOnStep(t, truth, ss, es, Receive(b), s2);
      states', events' := ss + [s2], es + [Receive(b)];
    }
  }

  lemma CallIsHonest(t: Torrent, truth: seq<seq<byte>>, s: State, peer: nat, o: Oracle)
    requires Setting(t, truth)
    ensures HonestEvent(t, truth, s, SelectNext(peer, o)) && FromPeer(t, truth, peer, SelectNext(peer, o))
  {
  }

  /** A call that yields nothing. */
  lemma CallIsStep(t: Torrent, truth: seq<seq<byte>>, s: State, peer: nat, o: Oracle) returns (s': State)
    requires Setting(t, truth) && Inv(t, s) && Servable(t, s, peer) && FullPeer(s, peer)
    requires Possible(t, s, peer, o) && Select(t, s, peer, o).1.None?
    ensures Step(t, s, SelectNext(peer, o), s') && FullPeer(s', peer) && Descends(t, truth, s, s')
  {
    hide Inv, Select, Possible, Missing, Servable, Tainted, Exhausted, Setting;
    s' := Select(t, s, peer, o).0;
    UnservedCallProgresses(t, s, peer, o);
    SelectSameProgress(t, s, peer, o);
    SameProgressCounts(t, s, s');
    SelectTaintsNothing(t, truth, s, peer, o);
    SubsetSize(Tainted(t, truth, s'), Tainted(t, truth, s));
    SelectKeepsBitfields(t, s, peer, o);
  }

  lemma {:induction false} PeerCompletes(t: Torrent, truth: seq<seq<byte>>, peer: nat,
                                         states: seq<State>, events: seq<Event>)
    returns (states': seq<State>, events': seq<Event>)
    requires IsRun(t, states, events) && Setting(t, truth) && t.bufferSize > 0
    requires FullPeer(states[|events|], peer) && |states[|events|].pieces| == t.NumPieces()
    ensures GoesOn(t, truth, states, events, states', events')
    ensures |states'| == |events'| + 1 && PeerSince(t, truth, peer, |events|, events')
    ensures states'[|events'|].completed == t.NumPieces()
    decreases |Tainted(t, truth, states[|events|])|, Missing(t, states[|events|]), |Exhausted(states[|events|])|
  {
    hide Inv, Missing, IsRun, IsHonestRun, Setting, HonestEvent, FromPeer, FullPeer, Tainted, Exhausted;
    RunShape(t, states, events);
    if Missing(t, states[|events|]) == 0 {
      states', events' := states, events;
      RunKeepsInv(t, states, events, |events|);
      CompleteIffNothingMissing(t, states[|events|]);
    } else {
      var ss, es := OneMove(t, truth, peer, states, events);
      states', events' := PeerCompletes(t, truth, peer, ss, es);
      forall m | |events| <= m < |events'| ensures FromPeer(t, truth, peer, events'[m]) {
        if m < |es| { assert events'[m] == es[m]; }
      }
    }
  }

  // ---------------------------------------------------------------- the writer catches up

  /** Any run goes on with writer passes until everything queued is on disk. */
  lemma {:induction false} WriterCatchesUp(t: Torrent, states: seq<State>, events: seq<Event>)
    returns (states': seq<State>, events': seq<Event>)
    requires IsRun(t, states, events)
    ensures IsRun(t, states', events') && states <= states' && events <= events'
    ensures forall m :: |events| <= m < |events'| ==> events'[m] == Writer(false)
    ensures states'[|events'|].queue == [] && states'[|events'|].completed == states[|events|].completed
    decreases |states[|events|].queue|
  {
    hide Inv, IsRun;
    RunShape(t, states, events);
    var s := states[|events|];
    if s.queue == [] {
      states', events' := states, events;
    } else {
      RunKeepsInv(t, states, events, |events|);
      var s' := OnePass(t, s);
      RunAppend(t, states, events, Writer(false), s');
      var ss, es := states + [s'], events + [Writer(false)];
      states', events' := WriterCatchesUp(t, ss, es);
      RunShape(t, states', events');
      forall m | |events| <= m < |events'| ensures events'[m] == Writer(false) {
        if m < |es| { assert events'[m] == es[m]; }
      }
    }
  }

  lemma OnePass(t: Torrent, s: State) returns (s': State)
    requires Inv(t, s) && s.queue != []
    ensures Step(t, s, Writer(false), s') && |s'.queue| < |s.queue| && s'.completed == s.completed
  {
    hide Inv;
    QueueCounts(t, s);
    s' := WriterPass(t, s, false);
  }

  lemma StillHonest(t: Torrent, truth: seq<seq<byte>>, states: seq<State>, events: seq<Event>,
                    states': seq<State>, events': seq<Event>)
    requires IsHonestRun(t, truth, states, events) && IsRun(t, states', events')
    requires states <= states' && events <= events'
    requires forall m :: |events| <= m < |events'| ==> !events'[m].Receive?
    ensures IsHonestRun(t, truth, states', events')
  {
    RunShape(t, states, events);
    RunShape(t, states', events');
    hide IsRun, Setting, HonestBlock, BufferInv;
    forall k | 0 <= k < |events'| ensures HonestEvent(t, truth, states'[k], events'[k]) {
      if k < |events| {
        assert events'[k] == events[k] && states'[k] == states[k];
        assert HonestEvent(t, truth, states[k], events[k]);
      }
    }
  }

  // ---------------------------------------------------------------- any run can be finished

  /**
   * From every reachable state, whatever other peers left requested and whatever wrong bytes
   * they delivered, one peer that has everything suffices: the run goes on, with nothing but
   * calls for that peer, its answers and writer passes, until every piece is on disk.
   */
  lemma OnePeerCanFinish(t: Torrent, truth: seq<seq<byte>>, peer: nat, states: seq<State>, events: seq<Event>)
    returns (states': seq<State>, events': seq<Event>)
    requires IsRun(t, states, events) && Setting(t, truth) && t.bufferSize > 0 && FullPeer(states[|events|], peer)
    ensures GoesOn(t, truth, states, events, states', events') && |states'| == |events'| + 1
    ensures forall m :: |events| <= m < |events'| ==>
      FromPeer(t, truth, peer, events'[m]) || events'[m] == Writer(false)
    ensures var last := states'[|events'|];
      last.completed == last.written == t.NumPieces() && last.queue == []
  {
    hide Inv, IsRun, IsHonestRun, Setting, HonestEvent, FromPeer, FullPeer;
    RunShape(t, states, events);
    RunKeepsInv(t, states, events, |events|);
    Sizes(t, states[|events|]);
    var ss, es := PeerCompletes(t, truth, peer, states, events);
    states', events' := WriterCatchesUp(t, ss, es);
    RunShape(t, states', events');
    if IsHonestRun(t, truth, states, events) { StillHonest(t, truth, ss, es, states', events'); }
    forall m | |events| <= m < |events'| ensures FromPeer(t, truth, peer, events'[m]) || events'[m] == Writer(false) {
      if m < |es| { assert events'[m] == es[m]; }
    }
    RunKeepsInv(t, states', events', |events'|);
    QueueCounts(t, states'[|events'|]);
  }

  /** From the empty client: a peer registers everything, and the run is finished. */
  lemma FinishedRunExists(t: Torrent, truth: seq<seq<byte>>) returns (states: seq<State>, events: seq<Event>)
    requires Setting(t, truth) && t.bufferSize > 0
    ensures IsHonestRun(t, truth, states, events)
    ensures states[|events|].completed == states[|events|].written == t.NumPieces()
    ensures forall k :: 0 <= k < |events| && events[k].Receive? ==> FromPeer(t, truth, 0, events[k])
  {
    hide Inv, Setting, FromPeer;
    var has := seq(t.NumPieces(), _ => true);
    var e := Bitfield(0, has);
    var s := UpdateBitfield(Initial(t), 0, has);
    RegistrationRun(t, truth, e, s);
    states, events := OnePeerCanFinish(t, truth, 0, [Initial(t), s], [e]);
    RunShape(t, states, events);
    forall k | 0 <= k < |events| && events[k].Receive? ensures FromPeer(t, truth, 0, events[k]) {
      assert k > 0 by { assert [e][0] == events[0]; }
    }
  }

  lemma RegistrationRun(t: Torrent, truth: seq<seq<byte>>, e: Event, s: State)
    requires Setting(t, truth) && e.Bitfield? && |e.has| == t.NumPieces()
    requires s == UpdateBitfield(Initial(t), e.peer, e.has)
    ensures IsHonestRun(t, truth, [Initial(t), s], [e])
  {
    InitialInv(t);
    hide Inv;
    RunAppend(t, [Initial(t)], [], e, s);
    assert [Initial(t)] + [s] == [Initial(t), s] && [] + [e] == [e];
  }
}
