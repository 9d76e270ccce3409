/**
 * What the fields say about the run that led to them: whose bitfield is held, why a piece was
 * chosen, how long a peer stays bound, and how much the writer has written.
 */
module Histories {
  import opened Bytes
  import opened Layout
  import opened Engine
  import opened EngineInvariant
  import opened EngineEffects
  import opened Safety

  // ---------------------------------------------------------------- bitfields

  /** The last bitfield the peer sent since it last went away. */
  function LastSent(events: seq<Event>, peer: nat): Option<seq<bool>> {
    if events == [] then None
    else
      var before := events[..|events| - 1];
      match events[|events| - 1]
      case Bitfield(p, has) => if p == peer then Some(has) else LastSent(before, peer)
      case PeerGone(p) => if p == peer then None else LastSent(before, peer)
      case _ => LastSent(before, peer)
  }

  /** The bitfield held for a peer. */
  function Held(s: State, peer: nat): Option<seq<bool>> {
    if peer in s.bitfields then Some(s.bitfields[peer]) else None
  }

  /** In every run the bitfield held for a peer is the last one it sent, while it is there. */
  lemma {:induction false} HeldIsLastSent(t: Torrent, states: seq<State>, events: seq<Event>, k: nat, peer: nat)
    requires IsRun(t, states, events) && k < |states|
    ensures Held(states[k], peer) == LastSent(events[..k], peer)
  {
    hide IsRun, Inv, Step;
    RunShape(t, states, events);
    if k > 0 {
      HeldIsLastSent(t, states, events, k - 1, peer);
      RunStep(t, states, events, k - 1);
      var now := events[..k];
      assert now[|now| - 1] == events[k - 1] && now[..|now| - 1] == events[..k - 1];
      HeldStep(t, states[k - 1], events[k - 1], states[k], peer);
    }
  }

  lemma HeldStep(t: Torrent, s: State, e: Event, s': State, peer: nat)
    requires Step(t, s, e, s')
    ensures Held(s', peer) == match e
      case Bitfield(p, has) => if p == peer then Some(has) else Held(s, peer)
      case PeerGone(p) => if p == peer then None else Held(s, peer)
      case _ => Held(s, peer)
  {
    hide Inv, Select, AddBlock, Possible;
    match e
    case SelectNext(p, o) => SelectKeepsBitfields(t, s, p, o);
    case Receive(b) => BlockEffect(t, s, b);
    case _ =>
  }

  // ---------------------------------------------------------------- bindings

  /** Peers that come and go touch no piece, no block, no byte and nothing saved. */
  lemma RegistrationTouchesNoPiece(t: Torrent, s: State, e: Event, s': State)
    requires Step(t, s, e, s') && (e.Bitfield? || e.PeerGone?)
    ensures s'.pieces == s.pieces && s'.buffer == s.buffer && s'.completed == s.completed && s'.queue == s.queue
    ensures s'.written == s.written && s'.disk == s.disk && s'.log == s.log
    ensures forall p :: p in s.affinity && e != PeerGone(p) ==> p in s'.affinity && s'.affinity[p] == s.affinity[p]
  {
    hide Inv;
  }

  /**
   * A binding lasts, through new bitfields and whatever other peers do, until the peer goes away
   * or the piece has no free block left or leaves the buffer; and only being asked for a block
   * binds a peer.
   */
  lemma BindingLasts(t: Torrent, s: State, e: Event, s': State, p: nat)
    requires Step(t, s, e, s')
    ensures p in s.affinity && e != PeerGone(p) ==>
      (s.affinity[p] < |s'.pieces| && s'.pieces[s.affinity[p]] == Buffered ==>
        p in s'.affinity && s'.affinity[p] == s.affinity[p])
    ensures p in s'.affinity && !(e.SelectNext? && e.peer == p) ==>
      p in s.affinity && s'.affinity[p] == s.affinity[p]
  {
    hide Inv, Select, AddBlock, Possible;
    match e
    case SelectNext(peer, o) => SelectionKeepsBindings(t, s, peer, o, p);
    case Receive(b) => BlockKeepsBindings(t, s, b, p);
    case _ =>
  }

  lemma BlockKeepsBindings(t: Torrent, s: State, b: Block, p: nat)
    requires Inv(t, s)
    ensures var s' := AddBlock(t, s, b);
      && (p in s.affinity && s.affinity[p] < |s'.pieces| && s'.pieces[s.affinity[p]] == Buffered ==>
            p in s'.affinity && s'.affinity[p] == s.affinity[p])
      && (p in s'.affinity ==> p in s.affinity && s'.affinity[p] == s.affinity[p])
  {
    hide LogInv, WriterInv, PeerInv, BufferInv, AddBlock, LogGains, OnlyPiece, OnlyRange, WriteBlock;
    BlockEffect(t, s, b);
    if ValidBlock(t, b) && ShouldWrite(t, s, b) {
      var now := WantedBlockEffect(t, s, b);
    }
  }

  lemma SelectionKeepsBindings(t: Torrent, s: State, peer: nat, o: Oracle, p: nat)
    requires Inv(t, s) && Possible(t, s, peer, o)
    ensures var s' := Select(t, s, peer, o).0;
      && (p in s.affinity && s.affinity[p] < |s'.pieces| && s'.pieces[s.affinity[p]] == Buffered ==>
            p in s'.affinity && s'.affinity[p] == s.affinity[p])
      && (p in s'.affinity && p != peer ==> p in s.affinity && s'.affinity[p] == s.affinity[p])
  {
    hide Inv, Possible, FirstWanted, FirstDontHave, AddPiece, JoinPiece, MarkRequested;
    if peer in s.bitfields {
      ChooseKeepsInv(t, s, peer, o);
      ChoosingBindsOne(t, s, peer, o);
      var (s1, chosen) := Choose(t, s, peer, o);
      ChosenIsBuffered(t, s, peer, o);
      if chosen.Some? { MarkingUnbinds(t, s1, chosen.value); }
    }
  }

  lemma ChoosingBindsOne(t: Torrent, s: State, peer: nat, o: Oracle)
    requires Inv(t, s) && peer in s.bitfields && Possible(t, s, peer, o)
    ensures var (s1, chosen) := Choose(t, s, peer, o);
      && (chosen.Some? ==> s1.affinity == s.affinity[peer := chosen.value])
      && (chosen.None? ==> s1 == s)
      && (peer in s.affinity ==> chosen == Some(s.affinity[peer]))
  {
    hide Inv, Bound;
    ChooseBinds(t, s, peer, o);
    var (s1, chosen) := Choose(t, s, peer, o);
    if chosen.Some? { BoundAffinity(s, s1, peer, chosen.value); }
  }

  lemma BoundAffinity(s: State, s1: State, peer: nat, i: nat)
    requires peer in s.bitfields && Bound(s, s1, peer, i)
    ensures s1.affinity == s.affinity[peer := i]
  {
  }

  lemma MarkingUnbinds(t: Torrent, s: State, i: nat)
    requires Inv(t, s) && i in s.buffer && i < |s.pieces|
    ensures var s' := MarkRequested(s, i, FirstDontHave(s.buffer[i].blocks, 0));
      && |s'.pieces| == |s.pieces|
      && (s'.affinity == s.affinity || (s'.pieces[i] == AllRequested && s'.affinity == Unbind(s.affinity, i)))
  {
    hide Inv;
  }

  // ---------------------------------------------------------------- the order of the choice

  /** The piece is one the peer can start on. */
  predicate Startable(s: State, peer: nat, i: nat) {
    peer in s.bitfields && i < |s.pieces| && i < |s.bitfields[peer]|
    && s.pieces[i] == NotStarted && s.bitfields[peer][i]
  }

  /**
   * The peer's own piece comes first; without one, the first piece it can start on if there is
   * room; and only otherwise a piece already in the buffer.
   */
  ghost predicate InOrder(t: Torrent, s: State, peer: nat, i: nat) {
    if peer in s.affinity then i == s.affinity[peer]
    else if |s.buffer| < t.bufferSize && exists w: nat :: Startable(s, peer, w) then
      Startable(s, peer, i) && forall w: nat :: w < i ==> !Startable(s, peer, w)
    else peer in s.bitfields && Advertised(s, peer, i)
  }

  /** There is no piece to ask the peer for. */
  ghost predicate NothingFor(t: Torrent, s: State, peer: nat) {
    && peer !in s.affinity
    && (|s.buffer| < t.bufferSize ==> forall w: nat :: !Startable(s, peer, w))
    && (peer in s.bitfields ==> forall i :: i in s.buffer ==> !Advertised(s, peer, i))
  }

  lemma ChosenInOrder(t: Torrent, s: State, peer: nat, o: Oracle)
    requires Inv(t, s) && peer in s.bitfields && Possible(t, s, peer, o)
    ensures var chosen := Choose(t, s, peer, o).1;
      && (chosen.Some? ==> InOrder(t, s, peer, chosen.value))
      && (chosen.None? ==> NothingFor(t, s, peer))
  {
    hide LogInv, WriterInv, AddPiece, JoinPiece, FirstWanted;
    if peer !in s.affinity && |s.buffer| < t.bufferSize {
      var found := FirstWanted(s.pieces, s.bitfields[peer], 0);
      if found.Some? { assert Startable(s, peer, found.value); }
    }
  }

  /** Every request is for the piece whose turn it is. */
  lemma RequestInOrder(t: Torrent, s: State, peer: nat, o: Oracle)
    requires Inv(t, s) && Possible(t, s, peer, o) && Select(t, s, peer, o).1.Some?
    ensures InOrder(t, s, peer, Select(t, s, peer, o).1.value.piece)
  {
    hide Inv, Possible, Choose, MarkRequested, InOrder, NothingFor, FirstDontHave;
    ChosenInOrder(t, s, peer, o);
  }

  /**
   * A call returns no request for three reasons: the peer is not registered, there is nothing
   * for it, or the piece whose turn it is has no free block and is now marked so.
   */
  lemma NoRequestMeans(t: Torrent, s: State, peer: nat, o: Oracle)
    requires Inv(t, s) && Possible(t, s, peer, o) && Select(t, s, peer, o).1.None?
    ensures var s' := Select(t, s, peer, o).0;
      || (peer !in s.bitfields && s' == s)
      || (NothingFor(t, s, peer) && s' == s)
      || exists i :: i in s'.buffer && InOrder(t, s, peer, i) && i < |s'.pieces|
           && s'.pieces[i] == AllRequested && NoDontHave(s'.buffer[i].blocks)
  {
    hide Inv, Possible, Choose, InOrder, NothingFor;
    if peer in s.bitfields {
      ChooseKeepsInv(t, s, peer, o);
      ChosenInOrder(t, s, peer, o);
      ChooseBinds(t, s, peer, o);
      var (s1, chosen) := Choose(t, s, peer, o);
      if chosen.Some? {
        Sizes(t, s1);
        assert chosen.value in Select(t, s, peer, o).0.buffer;
      }
    }
  }

  // ---------------------------------------------------------------- the writer

  /** How many passes of the writer ran with the stop flag unset and something queued. */
  function Passes(states: seq<State>, events: seq<Event>, k: nat): nat
    requires |states| == |events| + 1 && k <= |events|
  {
    if k == 0 then 0
    else Passes(states, events, k - 1) + if events[k - 1] == Writer(false) && states[k - 1].queue != [] then 1 else 0
  }

  /** In every run the writer has written one piece in each such pass and none in any other. */
  lemma {:induction false} WrittenIsPasses(t: Torrent, states: seq<State>, events: seq<Event>, k: nat)
    requires IsRun(t, states, events) && k < |states|
    ensures states[k].written == Passes(states, events, k)
  {
    hide IsRun, Inv, Step;
    RunShape(t, states, events);
    if k > 0 {
      WrittenIsPasses(t, states, events, k - 1);
      RunStep(t, states, events, k - 1);
      WrittenStep(t, states[k - 1], events[k - 1], states[k]);
    }
  }

  lemma WrittenStep(t: Torrent, s: State, e: Event, s': State)
    requires Step(t, s, e, s')
    ensures s'.written == s.written + if e == Writer(false) && s.queue != [] then 1 else 0
    ensures s'.written == s.written ==> s'.disk == s.disk
  {
    hide Inv, Select, AddBlock, Possible;
    match e
    case SelectNext(p, o) => SelectKeepsDisk(t, s, p, o);
    case Receive(b) => BlockEffect(t, s, b);
    case Writer(_) => QueueCounts(t, s);
    case _ =>
  }

  lemma SelectKeepsDisk(t: Torrent, s: State, peer: nat, o: Oracle)
    requires Inv(t, s) && Possible(t, s, peer, o)
    ensures Select(t, s, peer, o).0.written == s.written && Select(t, s, peer, o).0.disk == s.disk
  {
    hide Inv, Possible, FirstWanted;
  }
}
