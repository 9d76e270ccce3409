/** A peer that can be served is served after a bounded number of calls. */
module Progress {
  import opened Bytes
  import opened Layout
  import opened Engine
  import opened EngineInvariant

  /** The pieces still BUFFERED although every one of their blocks is requested or received. */
  function Exhausted(s: State): (r: set<nat>)
    ensures forall i :: i in r <==>
      i in s.buffer && i < |s.pieces| && s.pieces[i] == Buffered && NoDontHave(s.buffer[i].blocks)
  {
    set i | i in s.buffer && i < |s.pieces| && s.pieces[i] == Buffered && NoDontHave(s.buffer[i].blocks)
  }

  /** The peer has a piece that is in the buffer, or one not started for which there is room. */
  ghost predicate Servable(t: Torrent, s: State, peer: nat)
    requires Inv(t, s)
  {
    peer in s.bitfields && (HasAdvertised(s, peer) || HasNew(t, s, peer))
  }

  ghost predicate HasNew(t: Torrent, s: State, peer: nat)
    requires Inv(t, s) && peer in s.bitfields
  {
    |s.buffer| < t.bufferSize
    && exists i :: 0 <= i < |s.pieces| && s.pieces[i] == NotStarted && s.bitfields[peer][i]
  }

  lemma NewIsAdded(t: Torrent, s: State, peer: nat)
    requires Inv(t, s) && peer in s.bitfields
    ensures HasNew(t, s, peer) <==> ToAdd(t, s, peer).Some?
  {
    hide LogInv, WriterInv;
  }

  /** Giving up the outstanding requests of an ALL_REQUESTED piece frees at least one block. */
  lemma ReclaimYieldsBlock(t: Torrent, s: State, peer: nat, i: nat)
    requires Inv(t, s) && peer in s.bitfields && i in s.buffer && s.pieces[i] == AllRequested
    ensures var s1 := JoinPiece(s, peer, i);
      FirstDontHave(s1.buffer[i].blocks, 0).Some? && Retrieve(t, s1, i).1.Some?
  {
    var blocks := s.buffer[i].blocks;
    assert SlotFits(t, i, s.buffer[i]);
    var b :| 0 <= b < |blocks| && blocks[b] != Have;
    assert ClearRequested(blocks)[b] == DontHave;
  }

  /** A piece just added has a block to ask for. */
  lemma NewPieceYieldsBlock(t: Torrent, s: State, peer: nat, i: nat, stale: seq<byte>)
    requires Inv(t, s) && i < t.NumPieces()
    ensures FirstDontHave(AddPiece(t, s, peer, i, stale).buffer[i].blocks, 0).Some?
  {
    AtLeastOneBlock(t, i);
    assert Fresh(stale, t.NumBlocks(i)).blocks[0] == DontHave;
  }

  /** When a call that could be served returns nothing, it met an exhausted piece. */
  lemma UnservedMeetsExhausted(t: Torrent, s: State, peer: nat, o: Oracle)
    requires Inv(t, s) && Servable(t, s, peer) && Possible(t, s, peer, o)
    requires Select(t, s, peer, o).1.None?
    ensures var (s1, chosen) := Choose(t, s, peer, o);
      && chosen.Some? && chosen.value in Exhausted(s)
      && s1.buffer == s.buffer && s1.pieces == s.pieces && s1.bitfields == s.bitfields
  {
    hide Inv, FirstWanted;
    Sizes(t, s);
    ChooseKeepsInv(t, s, peer, o);
    NewIsAdded(t, s, peer);
    if peer !in s.affinity {
      match ToAdd(t, s, peer)
      case Some(i) => NewPieceYieldsBlock(t, s, peer, i, o.stale);
      case None => if s.pieces[o.pick] == AllRequested { ReclaimYieldsBlock(t, s, peer, o.pick); }
    }
  }

  /** Such a call takes that piece out of the exhausted ones, and the peer can still be served. */
  lemma UnservedCallProgresses(t: Torrent, s: State, peer: nat, o: Oracle)
    requires Inv(t, s) && Servable(t, s, peer) && Possible(t, s, peer, o)
    requires Select(t, s, peer, o).1.None?
    ensures var s' := Select(t, s, peer, o).0;
      Inv(t, s') && Servable(t, s', peer) && |Exhausted(s')| == |Exhausted(s)| - 1
  {
    hide LogInv, WriterInv;
    SelectKeepsInv(t, s, peer, o);
    UnservedMeetsExhausted(t, s, peer, o);
    var (s1, chosen) := Choose(t, s, peer, o);
    var s' := Select(t, s, peer, o).0;
    MarkingExhausted(s1, chosen.value);
    assert Exhausted(s1) == Exhausted(s);
    StaysServable(t, s, s', peer, chosen.value);
  }

  lemma MarkingExhausted(s: State, i: nat)
    requires i in Exhausted(s)
    ensures var s' := MarkRequested(s, i, FirstDontHave(s.buffer[i].blocks, 0));
      && s'.pieces == s.pieces[i := AllRequested] && s'.buffer == s.buffer && s'.bitfields == s.bitfields
      && Exhausted(s') == Exhausted(s) - {i} && |Exhausted(s')| == |Exhausted(s)| - 1
  {
    var s' := MarkRequested(s, i, FirstDontHave(s.buffer[i].blocks, 0));
    assert s'.buffer == s.buffer;
    assert Exhausted(s') == Exhausted(s) - {i};
  }

  lemma StaysServable(t: Torrent, s: State, s': State, peer: nat, i: nat)
    requires Inv(t, s) && Inv(t, s') && Servable(t, s, peer)
    requires i < |s.pieces| && s.pieces[i] == Buffered
    requires s'.pieces == s.pieces[i := AllRequested] && s'.buffer == s.buffer && s'.bitfields == s.bitfields
    ensures Servable(t, s', peer)
  {
    if HasAdvertised(s, peer) {
      var a :| a in s.buffer && Advertised(s, peer, a);
      assert Advertised(s', peer, a);
    } else {
      var w :| 0 <= w < |s.pieces| && s.pieces[w] == NotStarted && s.bitfields[peer][w];
      assert s'.pieces[w] == NotStarted && s'.bitfields[peer][w];
    }
  }

  /** Each oracle in turn is possible for the state the earlier calls lead to. */
  ghost predicate Calls(t: Torrent, s: State, peer: nat, os: seq<Oracle>)
    decreases |os|
  {
    hide Inv, Select, Possible;
    os == [] || (Inv(t, s) && Possible(t, s, peer, os[0]) && Calls(t, Select(t, s, peer, os[0]).0, peer, os[1..]))
  }

  /** One of the consecutive calls returns a request. */
  ghost predicate Served(t: Torrent, s: State, peer: nat, os: seq<Oracle>)
    requires Calls(t, s, peer, os)
    decreases |os|
  {
    hide Inv, Select, Possible;
    os != [] && (Select(t, s, peer, os[0]).1.Some? || Served(t, Select(t, s, peer, os[0]).0, peer, os[1..]))
  }

  /**
   * Bounded progress: a servable peer gets a request within one call more than there are
   * exhausted pieces, wherever the probes start.
   */
  lemma {:induction false} ServedWithinBound(t: Torrent, s: State, peer: nat, os: seq<Oracle>)
    requires Inv(t, s) && Servable(t, s, peer) && Calls(t, s, peer, os)
    requires |os| == |Exhausted(s)| + 1
    ensures Served(t, s, peer, os)
    decreases |os|
  {
    hide Inv, Possible, Select, Servable;
    if Select(t, s, peer, os[0]).1.None? {
      UnservedCallProgresses(t, s, peer, os[0]);
      ServedWithinBound(t, Select(t, s, peer, os[0]).0, peer, os[1..]);
    }
  }
}
