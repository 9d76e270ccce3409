/** Every event of the engine keeps its invariant, so every state of every run satisfies it. */
module EngineInvariant {
  import opened Bytes
  import opened Layout
  import opened FileManagers
  import opened Engine

  lemma InitialInv(t: Torrent)
    requires t.WellFormed()
    ensures Inv(t, Initial(t))
  {
    assert CompletedSet(Initial(t).pieces) == {};
    assert Indices([]) == {};
  }

  /** The sizes that the code's indexing relies on. */
  lemma Sizes(t: Torrent, s: State)
    requires Inv(t, s)
    ensures t.WellFormed()
    ensures |s.pieces| == t.NumPieces()
    ensures forall p :: p in s.bitfields ==> |s.bitfields[p]| == |s.pieces|
    ensures forall i: nat :: i in s.buffer <==> i < |s.pieces| && InBuffer(s.pieces[i])
  {
  }

  lemma SlotSizes(t: Torrent, s: State, i: nat)
    requires Inv(t, s) && i in s.buffer
    ensures |s.buffer[i].blocks| == t.NumBlocks(i) && |s.buffer[i].data| == t.PieceLength(i)
  {
  }

  /** Putting a piece into the buffer, or changing the slot it has there. */
  lemma SlotUpdateKeepsBuffer(t: Torrent, pieces: seq<PieceState>, buffer: map<nat, Slot>,
                              i: nat, p: PieceState, slot: Slot)
    requires BufferInv(t, pieces, buffer) && i < |pieces|
    requires i in buffer || |buffer| < t.bufferSize
    requires InBuffer(p) && SlotFits(t, i, slot)
    requires p == AllRequested ==> NoDontHave(slot.blocks)
    ensures BufferInv(t, pieces[i := p], buffer[i := slot])
  {
  }

  lemma BindKeepsPeers(pieces: seq<PieceState>, bitfields: map<nat, seq<bool>>, affinity: map<nat, nat>,
                       peer: nat, i: nat)
    requires PeerInv(pieces, bitfields, affinity) && i < |pieces| && peer in bitfields
    ensures PeerInv(pieces[i := Buffered], bitfields, affinity[peer := i])
  {
  }

  lemma UnbindKeepsPeers(pieces: seq<PieceState>, bitfields: map<nat, seq<bool>>, affinity: map<nat, nat>,
                         i: nat, p: PieceState)
    requires PeerInv(pieces, bitfields, affinity) && i < |pieces|
    ensures PeerInv(pieces[i := p], bitfields, Unbind(affinity, i))
  {
  }

  lemma CompletedUnchanged(pieces: seq<PieceState>, i: nat, p: PieceState)
    requires i < |pieces| && pieces[i] != Completed && p != Completed
    ensures CompletedSet(pieces[i := p]) == CompletedSet(pieces)
  {
  }

  lemma AddPieceKeepsInv(t: Torrent, s: State, peer: nat, i: nat, stale: seq<byte>)
    requires Inv(t, s) && peer in s.bitfields
    requires ToAdd(t, s, peer) == Some(i) && |stale| == t.PieceLength(i)
    ensures Inv(t, AddPiece(t, s, peer, i, stale))
  {
    var slot := Fresh(stale, t.NumBlocks(i));
    AtLeastOneBlock(t, i);
    assert slot.blocks[0] != Have;
    SlotUpdateKeepsBuffer(t, s.pieces, s.buffer, i, Buffered, slot);
    BindKeepsPeers(s.pieces, s.bitfields, s.affinity, peer, i);
    CompletedUnchanged(s.pieces, i, Buffered);
  }

  lemma ClearedSlotFits(t: Torrent, i: nat, slot: Slot)
    requires i < t.NumPieces() && SlotFits(t, i, slot)
    ensures SlotFits(t, i, slot.(blocks := ClearRequested(slot.blocks)))
  {
    var b :| 0 <= b < |slot.blocks| && slot.blocks[b] != Have;
    assert ClearRequested(slot.blocks)[b] != Have;
  }

  lemma JoinPieceKeepsInv(t: Torrent, s: State, peer: nat, i: nat)
    requires Inv(t, s) && peer in s.bitfields && i in s.buffer
    ensures Inv(t, JoinPiece(s, peer, i)) && JoinPiece(s, peer, i).pieces[i] == Buffered
  {
    BindKeepsPeers(s.pieces, s.bitfields, s.affinity, peer, i);
    if s.pieces[i] == AllRequested {
      var slot := s.buffer[i].(blocks := ClearRequested(s.buffer[i].blocks));
      ClearedSlotFits(t, i, s.buffer[i]);
      SlotUpdateKeepsBuffer(t, s.pieces, s.buffer, i, Buffered, slot);
      CompletedUnchanged(s.pieces, i, Buffered);
    } else {
      assert s.pieces[i := Buffered] == s.pieces;
    }
  }

  /** After step 3 the chosen piece, if any, is BUFFERED. */
  lemma ChooseKeepsInv(t: Torrent, s: State, peer: nat, o: Oracle)
    requires Inv(t, s) && peer in s.bitfields && Possible(t, s, peer, o)
    ensures var (s1, chosen) := Choose(t, s, peer, o);
      Inv(t, s1) && (chosen.Some? ==> chosen.value in s1.buffer && s1.pieces[chosen.value] == Buffered)
  {
    if peer !in s.affinity {
      match ToAdd(t, s, peer)
      case Some(i) => AddPieceKeepsInv(t, s, peer, i, o.stale);
      case None => if HasAdvertised(s, peer) { JoinPieceKeepsInv(t, s, peer, o.pick); }
    }
  }

  lemma RequestedSlotFits(t: Torrent, i: nat, slot: Slot, b: nat)
    requires i < t.NumPieces() && SlotFits(t, i, slot) && b < |slot.blocks|
    ensures SlotFits(t, i, slot.(blocks := slot.blocks[b := Requested]))
  {
    assert slot.blocks[b := Requested][b] != Have;
  }

  lemma MarkRequestedKeepsInv(t: Torrent, s: State, i: nat)
    requires Inv(t, s) && i in s.buffer
    ensures Inv(t, MarkRequested(s, i, FirstDontHave(s.buffer[i].blocks, 0)))
  {
    var found := FirstDontHave(s.buffer[i].blocks, 0);
    var s' := MarkRequested(s, i, found);
    var slot := s'.buffer[i];
    if found.Some? { RequestedSlotFits(t, i, s.buffer[i], found.value); }
    var p := s'.pieces[i];
    assert s'.pieces == s.pieces[i := p];
    SlotUpdateKeepsBuffer(t, s.pieces, s.buffer, i, p, slot);
    UnbindKeepsPeers(s.pieces, s.bitfields, s.affinity, i, p);
    CompletedUnchanged(s.pieces, i, p);
  }

  lemma SelectKeepsInv(t: Torrent, s: State, peer: nat, o: Oracle)
    requires Inv(t, s) && Possible(t, s, peer, o)
    ensures Inv(t, Select(t, s, peer, o).0)
  {
    if peer in s.bitfields {
      ChooseKeepsInv(t, s, peer, o);
      var (s1, chosen) := Choose(t, s, peer, o);
      if chosen.Some? { MarkRequestedKeepsInv(t, s1, chosen.value); }
    }
  }

  lemma EvictKeepsBuffer(t: Torrent, pieces: seq<PieceState>, buffer: map<nat, Slot>, i: nat, p: PieceState)
    requires BufferInv(t, pieces, buffer) && i in buffer && !InBuffer(p)
    ensures BufferInv(t, pieces[i := p], buffer - {i})
  {
    assert (buffer - {i}).Keys <= buffer.Keys;
    SubsetSize((buffer - {i}).Keys, buffer.Keys);
  }

  lemma EvictForgets(buffer: map<nat, Slot>, i: nat, slot: Slot)
    ensures buffer[i := slot] - {i} == buffer - {i}
  {
  }

  lemma IndicesAppend(log: seq<Saved>, e: Saved)
    ensures Indices(log + [e]) == Indices(log) + {e.index}
  {
    var l := log + [e];
    assert l[|log|] == e;
    forall k | 0 <= k < |log| ensures l[k] == log[k] {}
    forall i | i in Indices(log) ensures i in Indices(l) {
      var k :| 0 <= k < |log| && log[k].index == i;
      assert l[k].index == i;
    }
  }

  lemma LogAppend(t: Torrent, log: seq<Saved>, pieces: seq<PieceState>, completed: nat, e: Saved)
    requires LogInv(t, log, CompletedSet(pieces), completed) && Verified(t, e)
    requires e.index < |pieces| && pieces[e.index] != Completed
    ensures LogInv(t, log + [e], CompletedSet(pieces[e.index := Completed]), completed + 1)
  {
    IndicesAppend(log, e);
    assert CompletedSet(pieces[e.index := Completed]) == CompletedSet(pieces) + {e.index};
    assert e.index !in Indices(log);
  }

  lemma Enqueue(t: Torrent, log: seq<Saved>, queue: seq<Job>, written: nat, disk: seq<byte>, e: Saved)
    requires t.WellFormed() && (forall k :: 0 <= k < |log| ==> Verified(t, log[k])) && Verified(t, e)
    requires WriterInv(t, log, queue, written, disk)
    ensures forall k :: 0 <= k < |log + [e]| ==> Verified(t, (log + [e])[k])
    ensures WriterInv(t, log + [e], queue + [JobOf(t, e)], written, disk)
  {
    assert (log + [e])[..written] == log[..written];
  }

  lemma Dequeue(t: Torrent, log: seq<Saved>, queue: seq<Job>, written: nat, disk: seq<byte>)
    requires t.WellFormed() && (forall k :: 0 <= k < |log| ==> Verified(t, log[k]))
    requires WriterInv(t, log, queue, written, disk) && queue != []
    ensures queue[0].data != [] && queue[0].offset + |queue[0].data| <= |disk|
    ensures WriterInv(t, log, queue[1..], written + 1, Splice(disk, queue[0].offset, queue[0].data))
  {
    assert queue[0] == JobOf(t, log[written + 0]);
    JobInRange(t, log[written]);
    assert log[..written + 1][..written] == log[..written];
    forall k | 0 <= k < |queue[1..]| ensures queue[1..][k] == JobOf(t, log[written + 1 + k]) {
      assert queue[1..][k] == queue[k + 1] == JobOf(t, log[written + (k + 1)]);
    }
  }

  lemma CompletePieceKeepsInv(t: Torrent, s: State, b: Block)
    requires Inv(t, s) && ValidBlock(t, b) && ShouldWrite(t, s, b)
    requires AllHave(WriteBlock(t, s, b).blocks)
    requires t.hash(WriteBlock(t, s, b).data) == t.pieces[b.piece].hash
    ensures Inv(t, AddBlock(t, s, b))
  {
    var e := Saved(b.piece, WriteBlock(t, s, b).data);
    EvictKeepsBuffer(t, s.pieces, s.buffer, b.piece, Completed);
    EvictForgets(s.buffer, b.piece, WriteBlock(t, s, b));
    UnbindKeepsPeers(s.pieces, s.bitfields, s.affinity, b.piece, Completed);
    LogAppend(t, s.log, s.pieces, s.completed, e);
    Enqueue(t, s.log, s.queue, s.written, s.disk, e);
  }

  lemma AddBlockKeepsInv(t: Torrent, s: State, b: Block)
    requires Inv(t, s)
    ensures Inv(t, AddBlock(t, s, b))
  {
    if ValidBlock(t, b) && ShouldWrite(t, s, b) {
      var slot := WriteBlock(t, s, b);
      if !AllHave(slot.blocks) {
        SlotUpdateKeepsBuffer(t, s.pieces, s.buffer, b.piece, s.pieces[b.piece], slot);
        assert s.pieces[b.piece := s.pieces[b.piece]] == s.pieces;
      } else if t.hash(slot.data) == t.pieces[b.piece].hash {
        CompletePieceKeepsInv(t, s, b);
      } else {
        EvictKeepsBuffer(t, s.pieces, s.buffer, b.piece, NotStarted);
        EvictForgets(s.buffer, b.piece, slot);
        UnbindKeepsPeers(s.pieces, s.bitfields, s.affinity, b.piece, NotStarted);
        CompletedUnchanged(s.pieces, b.piece, NotStarted);
      }
    }
  }

  lemma WriterPassKeepsInv(t: Torrent, s: State, stop: bool)
    requires Inv(t, s)
    ensures Inv(t, WriterPass(t, s, stop))
  {
    if s.queue != [] {
      Dequeue(t, s.log, s.queue, s.written, s.disk);
    }
  }

  /** Every event keeps the invariant. */
  lemma NextKeepsInv(t: Torrent, s: State, e: Event)
    requires Inv(t, s) && Enabled(t, s, e)
    ensures Inv(t, Next(t, s, e))
  {
    match e
    case Bitfield(peer, has) =>
    case SelectNext(peer, o) => SelectKeepsInv(t, s, peer, o);
    case Receive(b) => AddBlockKeepsInv(t, s, b);
    case PeerGone(peer) =>
    case Writer(stop) => WriterPassKeepsInv(t, s, stop);
  }

  /** In a reachable state no selection is stuck: some outcome of the probe is possible. */
  lemma SelectionIsPossible(t: Torrent, s: State, peer: nat)
    requires Inv(t, s)
    ensures exists o :: Possible(t, s, peer, o)
  {
    var o := Oracle(0, []);
    if peer in s.bitfields && peer !in s.affinity {
      match ToAdd(t, s, peer)
      case Some(i) => o := Oracle(0, Zeros(t.PieceLength(i)));
      case None =>
        if HasAdvertised(s, peer) {
          var i :| i in s.buffer && Advertised(s, peer, i);
          o := Oracle(i, []);
        }
    }
    assert Possible(t, s, peer, o);
  }

  /** Only a piece that is not COMPLETED changes its state, and the log only grows. */
  ghost predicate Advances(s: State, s': State) {
    && |s'.pieces| == |s.pieces|
    && (forall i :: 0 <= i < |s.pieces| && s.pieces[i] == Completed ==> s'.pieces[i] == Completed)
    && s.log <= s'.log
  }

  lemma AdvancesTransitive(s: State, s1: State, s2: State)
    requires Advances(s, s1) && Advances(s1, s2)
    ensures Advances(s, s2)
  {
  }

  lemma MarkRequestedAdvances(s: State, i: nat, found: Option<nat>)
    requires i in s.buffer && i < |s.pieces| && s.pieces[i] != Completed
    requires found.Some? ==> found.value < |s.buffer[i].blocks|
    ensures Advances(s, MarkRequested(s, i, found))
  {
  }

  lemma ChooseAdvances(t: Torrent, s: State, peer: nat, o: Oracle)
    requires Inv(t, s) && peer in s.bitfields && Possible(t, s, peer, o)
    ensures Advances(s, Choose(t, s, peer, o).0)
  {
    hide Inv, Possible;
    Sizes(t, s);
    if peer !in s.affinity && ToAdd(t, s, peer).None? && HasAdvertised(s, peer) {
      ProbeEndsAdvertised(t, s, peer, o);
    }
  }

  lemma ProbeEndsAdvertised(t: Torrent, s: State, peer: nat, o: Oracle)
    requires Inv(t, s) && peer in s.bitfields && Possible(t, s, peer, o)
    requires peer !in s.affinity && |s.bitfields[peer]| == |s.pieces| && ToAdd(t, s, peer).None?
    requires HasAdvertised(s, peer)
    ensures Advertised(s, peer, o.pick)
  {
    hide Inv;
  }

  lemma SelectAdvances(t: Torrent, s: State, peer: nat, o: Oracle)
    requires Inv(t, s) && Possible(t, s, peer, o)
    ensures Advances(s, Select(t, s, peer, o).0)
  {
    if peer in s.bitfields {
      var (s1, chosen) := Choose(t, s, peer, o);
      ChooseKeepsInv(t, s, peer, o);
      ChooseAdvances(t, s, peer, o);
      if chosen.Some? {
        var i := chosen.value;
        MarkRequestedAdvances(s1, i, FirstDontHave(s1.buffer[i].blocks, 0));
        AdvancesTransitive(s, s1, Retrieve(t, s1, i).0);
      }
    }
  }

  lemma FinishPieceAdvances(t: Torrent, s: State, i: nat, data: seq<byte>)
    requires i < |s.pieces| == t.NumPieces() && s.pieces[i] != Completed
    ensures Advances(s, FinishPiece(t, s, i, data))
  {
  }

  lemma AddBlockAdvances(t: Torrent, s: State, b: Block)
    requires Inv(t, s)
    ensures Advances(s, AddBlock(t, s, b))
  {
    hide FinishPiece, WriteBlock, WriterInv, LogInv, PeerInv;
    if ValidBlock(t, b) && ShouldWrite(t, s, b) {
      var slot := WriteBlock(t, s, b);
      var s' := s.(buffer := s.buffer[b.piece := slot]);
      if AllHave(slot.blocks) { FinishPieceAdvances(t, s', b.piece, slot.data); }
    }
  }

  /** COMPLETED is never left, whatever the event. */
  lemma NextAdvances(t: Torrent, s: State, e: Event)
    requires Inv(t, s) && Enabled(t, s, e)
    ensures Advances(s, Next(t, s, e))
  {
    match e
    case SelectNext(peer, o) => SelectAdvances(t, s, peer, o);
    case Receive(b) => AddBlockAdvances(t, s, b);
    case _ =>
  }

  lemma RunStep(t: Torrent, states: seq<State>, events: seq<Event>, k: nat)
    requires IsRun(t, states, events) && k < |events|
    ensures Step(t, states[k], events[k], states[k + 1])
  {
    var taken := StepAt(t, states, events, k);
    assert taken;
  }

  lemma StepAdvances(t: Torrent, s: State, e: Event, s': State)
    requires Step(t, s, e, s')
    ensures Inv(t, s') && Advances(s, s')
  {
    NextKeepsInv(t, s, e);
    NextAdvances(t, s, e);
  }

  /** Every state of every run satisfies the invariant, the last one included. */
  lemma RunKeepsInv(t: Torrent, states: seq<State>, events: seq<Event>, k: nat)
    requires IsRun(t, states, events) && k < |states|
    ensures Inv(t, states[k])
  {
    hide Step, Inv, Next;
    if k == 0 {
      InitialInv(t);
    } else {
      RunStep(t, states, events, k - 1);
      StepAdvances(t, states[k - 1], events[k - 1], states[k]);
    }
  }

  /** In every run a completed piece stays completed and keeps its entry in the log. */
  lemma {:induction false} RunAdvances(t: Torrent, states: seq<State>, events: seq<Event>, j: nat, k: nat)
    requires IsRun(t, states, events) && j <= k < |states|
    ensures Advances(states[j], states[k])
  {
    hide Step, Inv, Next;
    if j < k {
      RunAdvances(t, states, events, j, k - 1);
      RunStep(t, states, events, k - 1);
      StepAdvances(t, states[k - 1], events[k - 1], states[k]);
      AdvancesTransitive(states[j], states[k - 1], states[k]);
    }
  }

  lemma RunShape(t: Torrent, states: seq<State>, events: seq<Event>)
    requires IsRun(t, states, events)
    ensures |states| == |events| + 1 && states[0] == Initial(t) && t.WellFormed()
  {
  }

  /** A run can be continued by any event that is possible where it ends. */
  lemma RunAppend(t: Torrent, states: seq<State>, events: seq<Event>, e: Event, s': State)
    requires IsRun(t, states, events) && Step(t, states[|events|], e, s')
    ensures IsRun(t, states + [s'], events + [e])
  {
    hide Step, Torrent.WellFormed, Initial;
    var ss, es := states + [s'], events + [e];
    forall k: nat | k < |es| ensures StepAt(t, ss, es, k) {
      if k < |events| {
        var taken := StepAt(t, states, events, k);
        assert taken;
      }
    }
  }
}
