/**
 * src/peer_manager.cpp and include/simpletorrent/StateTransition.h: which addresses have a
 * connection, and how often each is tried.
 */
module PeerManagers {
  import opened Bytes

  datatype PeerState = NotConnected | Connected1 | Connected2 | Disconnected1 | Disconnected2

  /** The next state; `None` is the exception thrown when there is none. */
  function GetNextPeerState(s: PeerState): (r: Option<PeerState>)
    ensures r.None? <==> s == Disconnected2
    ensures r.Some? ==>
      TransitionsLeft(r.value) == TransitionsLeft(s) - 1 && (IsConnected(r.value) <==> !IsConnected(s))
  {
    match s
    case NotConnected => Some(Connected1)
    case Connected1 => Some(Disconnected1)
    case Disconnected1 => Some(Connected2)
    case Connected2 => Some(Disconnected2)
    case Disconnected2 => None
  }

  predicate IsConnected(s: PeerState) {
    s == Connected1 || s == Connected2
  }

  predicate Connectable(s: PeerState) {
    s == NotConnected || s == Disconnected1
  }

  function Following(s: PeerState): PeerState
    requires s != Disconnected2
  {
    GetNextPeerState(s).value
  }

  const MAX_NUM_CONNECTED_PEERS: nat := 60

  // ---------------------------------------------------------------- the abstract roster

  /** The ids of the live peers, the state of each address, and how often each was started. */
  datatype Roster = Roster(live: set<nat>, states: seq<PeerState>, starts: seq<nat>)

  /** How often an address in this state has been started. */
  function StartsOf(s: PeerState): nat {
    match s
    case NotConnected => 0
    case Connected1 => 1
    case Disconnected1 => 1
    case _ => 2
  }

  /** An address is connected iff it has a live peer; the cap and the counts hold. */
  ghost predicate RosterInv(r: Roster) {
    && |r.starts| == |r.states|
    && (forall i :: i in r.live <==> 0 <= i < |r.states| && IsConnected(r.states[i]))
    && |r.live| <= MAX_NUM_CONNECTED_PEERS
    && (forall i :: 0 <= i < |r.states| ==> r.starts[i] == StartsOf(r.states[i]))
  }

  function Start(r: Roster, i: nat): Roster
    requires i < |r.states| == |r.starts| && r.states[i] != Disconnected2
  {
    Roster(r.live + {i}, r.states[i := Following(r.states[i])], r.starts[i := r.starts[i] + 1])
  }

  /** Starts every address in order until `room` connections are reached. */
  function StartAll(r: Roster, from: nat): (r': Roster)
    requires from <= |r.states| == |r.starts|
    ensures |r'.states| == |r.states| && |r'.starts| == |r.starts|
    decreases |r.states| - from
  {
    if from == |r.states| then r
    else if Connectable(r.states[from]) then
      if |r.live| >= MAX_NUM_CONNECTED_PEERS then r else StartAll(Start(r, from), from + 1)
    else StartAll(r, from + 1)
  }

  function Fresh(n: nat): Roster {
    Roster({}, seq(n, _ => NotConnected), seq(n, _ => 0))
  }

  ghost predicate CanMove(states: seq<PeerState>, gone: set<nat>) {
    forall i :: i in gone ==> 0 <= i < |states| && states[i] != Disconnected2
  }

  /** The addresses in `gone` moved on to their next state. */
  function Moved(states: seq<PeerState>, gone: set<nat>): (r: seq<PeerState>)
    requires CanMove(states, gone)
    ensures |r| == |states|
    ensures forall i :: 0 <= i < |r| ==> r[i] == if i in gone then Following(states[i]) else states[i]
  {
    seq(|states|, i requires 0 <= i < |states| => if i in gone then Following(states[i]) else states[i])
  }

  /** Drops the live peers that have exited and moves their addresses on. */
  function Cleanup(r: Roster, exited: set<nat>): Roster
    requires RosterInv(r)
  {
    Roster(r.live - exited, Moved(r.states, r.live * exited), r.starts)
  }

  /** One cleanup and open round. */
  function Round(r: Roster, exited: set<nat>): Roster
    requires RosterInv(r)
  {
    StartAll(Cleanup(r, exited), 0)
  }

  // ---------------------------------------------------------------- the invariant over rounds

  lemma FreshInv(n: nat)
    ensures RosterInv(Fresh(n))
  {
  }

  lemma StartKeepsInv(r: Roster, i: nat)
    requires RosterInv(r) && i < |r.states| && Connectable(r.states[i]) && |r.live| < MAX_NUM_CONNECTED_PEERS
    ensures i !in r.live && RosterInv(Start(r, i)) && |Start(r, i).live| == |r.live| + 1
  {
    assert i !in r.live;
  }

  lemma {:induction false} StartAllKeepsInv(r: Roster, from: nat)
    requires RosterInv(r) && from <= |r.states|
    ensures RosterInv(StartAll(r, from))
    decreases |r.states| - from
  {
    hide RosterInv, Start;
    RosterSizes(r);
    if from < |r.states| {
      if Connectable(r.states[from]) {
        if |r.live| < MAX_NUM_CONNECTED_PEERS {
          StartKeepsInv(r, from);
          StartSizes(r, from);
          StartAllKeepsInv(Start(r, from), from + 1);
        }
      } else {
        StartAllKeepsInv(r, from + 1);
      }
    }
  }

  lemma StartAllStep(r: Roster, i: nat)
    requires i < |r.states| == |r.starts|
    ensures Connectable(r.states[i]) && |r.live| < MAX_NUM_CONNECTED_PEERS ==>
      StartAll(r, i) == StartAll(Start(r, i), i + 1)
    ensures Connectable(r.states[i]) && |r.live| >= MAX_NUM_CONNECTED_PEERS ==> StartAll(r, i) == r
    ensures !Connectable(r.states[i]) ==> StartAll(r, i) == StartAll(r, i + 1)
  {
    hide Start;
  }

  lemma StartAllDone(r: Roster)
    requires |r.states| == |r.starts|
    ensures StartAll(r, |r.states|) == r
  {
  }

  lemma RosterSizes(r: Roster)
    requires RosterInv(r)
    ensures |r.starts| == |r.states| && |r.live| <= MAX_NUM_CONNECTED_PEERS
  {
  }

  lemma StartSizes(r: Roster, i: nat)
    requires i < |r.states| == |r.starts| && r.states[i] != Disconnected2
    ensures |Start(r, i).states| == |r.states| == |Start(r, i).starts|
  {
  }

  lemma CleanupKeepsInv(r: Roster, exited: set<nat>)
    requires RosterInv(r)
    ensures RosterInv(Cleanup(r, exited))
  {
    SubsetSize(r.live - exited, r.live);
  }

  /** Every round keeps the invariant. */
  lemma RoundKeepsInv(r: Roster, exited: set<nat>)
    requires RosterInv(r)
    ensures RosterInv(Round(r, exited))
  {
    hide RosterInv, Cleanup;
    CleanupKeepsInv(r, exited);
    StartAllKeepsInv(Cleanup(r, exited), 0);
  }

  /** After opening, either the cap is reached or no address is left to start. */
  lemma {:induction false} StartAllExhausts(r: Roster, from: nat)
    requires from <= |r.states| == |r.starts|
    requires forall i :: 0 <= i < from ==> !Connectable(r.states[i])
    ensures var r' := StartAll(r, from);
      |r'.live| >= MAX_NUM_CONNECTED_PEERS || forall i :: 0 <= i < |r'.states| ==> !Connectable(r'.states[i])
    decreases |r.states| - from
  {
    if from < |r.states| {
      if Connectable(r.states[from]) {
        if |r.live| < MAX_NUM_CONNECTED_PEERS { StartAllExhausts(Start(r, from), from + 1); }
      } else {
        StartAllExhausts(r, from + 1);
      }
    }
  }

  /** Exactly the addresses in `[from, cut)` that can be started are started. */
  ghost predicate StartedBetween(r: Roster, r': Roster, from: nat, cut: nat) {
    && |r'.states| == |r.states|
    && (forall i: nat :: i < |r.states| ==>
         r'.states[i] == if from <= i < cut && Connectable(r.states[i]) then Following(r.states[i]) else r.states[i])
    && (forall i: nat :: i < |r.states| ==>
         (i in r'.live <==> i in r.live || (from <= i < cut && Connectable(r.states[i]))))
  }

  /**
   * Which addresses are started: up to some address all that can be, and none after it; and it
   * is the end of the list unless the 60 connections are used up there.
   */
  lemma {:induction false} StartAllIsGreedy(r: Roster, from: nat) returns (cut: nat)
    requires RosterInv(r) && from <= |r.states|
    ensures from <= cut <= |r.states| && StartedBetween(r, StartAll(r, from), from, cut)
    ensures cut < |r.states| ==> Connectable(r.states[cut]) && |StartAll(r, from).live| == 60
    decreases |r.states| - from
  {
    hide RosterInv, Start, StartedBetween;
    RosterSizes(r);
    cut := from;
    NoneStarted(r, from);
    if from < |r.states| {
      if Connectable(r.states[from]) {
        if |r.live| < MAX_NUM_CONNECTED_PEERS {
          StartKeepsInv(r, from);
          StartSizes(r, from);
          cut := StartAllIsGreedy(Start(r, from), from + 1);
          OneMoreStarted(r, StartAll(r, from), from, cut);
        }
      } else {
        cut := StartAllIsGreedy(r, from + 1);
        SkipOne(r, StartAll(r, from), from, cut);
      }
    }
  }

  lemma NoneStarted(r: Roster, from: nat)
    ensures StartedBetween(r, r, from, from)
  {
  }

  lemma OneMoreStarted(r: Roster, r': Roster, from: nat, cut: nat)
    requires from < cut <= |r.states| == |r.starts| && Connectable(r.states[from])
    requires StartedBetween(Start(r, from), r', from + 1, cut)
    ensures StartedBetween(r, r', from, cut)
    ensures cut < |r.states| ==> Start(r, from).states[cut] == r.states[cut]
  {
    hide Following;
  }

  lemma SkipOne(r: Roster, r': Roster, from: nat, cut: nat)
    requires from < cut <= |r.states| && !Connectable(r.states[from])
    requires StartedBetween(r, r', from + 1, cut)
    ensures StartedBetween(r, r', from, cut)
  {
    hide Following;
  }

  // ---------------------------------------------------------------- runs

  /** The rosters that successive rounds lead through; `exits` says who has exited each time. */
  ghost predicate IsLifecycle(n: nat, rosters: seq<Roster>, exits: seq<set<nat>>) {
    && |rosters| == |exits| + 1
    && rosters[0] == StartAll(Fresh(n), 0)
    && forall k: nat :: k < |exits| ==> RoundAt(rosters, exits, k)
  }

  ghost predicate RoundAt(rosters: seq<Roster>, exits: seq<set<nat>>, k: nat)
    requires |rosters| == |exits| + 1 && k < |exits|
  {
    RosterInv(rosters[k]) && rosters[k + 1] == Round(rosters[k], exits[k])
  }

  lemma {:induction false} LifecycleInv(n: nat, rosters: seq<Roster>, exits: seq<set<nat>>, k: nat)
    requires IsLifecycle(n, rosters, exits) && k < |rosters|
    ensures RosterInv(rosters[k]) && |rosters[k].states| == n
  {
    hide RosterInv;
    if k == 0 {
      FreshInv(n);
      StartAllKeepsInv(Fresh(n), 0);
    } else {
      LifecycleInv(n, rosters, exits, k - 1);
      var taken := RoundAt(rosters, exits, k - 1);
      assert taken;
      RoundKeepsInv(rosters[k - 1], exits[k - 1]);
    }
  }

  /**
   * In every run: an address is connected iff it has a live peer, no more than 60 peers are
   * live, and no address is started more than twice.
   */
  lemma LifecycleBounds(n: nat, rosters: seq<Roster>, exits: seq<set<nat>>, k: nat)
    requires IsLifecycle(n, rosters, exits) && k < |rosters|
    ensures var r := rosters[k];
      && |r.states| == n == |r.starts|
      && |r.live| <= 60
      && (forall i :: 0 <= i < n ==> (IsConnected(r.states[i]) <==> i in r.live))
      && (forall i :: 0 <= i < n ==> r.starts[i] <= 2)
  {
    LifecycleInv(n, rosters, exits, k);
  }

  /** After a round no peer is live exactly when every address has used up both attempts. */
  lemma NoPeersIffExhausted(n: nat, rosters: seq<Roster>, exits: seq<set<nat>>, k: nat)
    requires IsLifecycle(n, rosters, exits) && k < |rosters|
    ensures rosters[k].live == {} <==>
      forall i :: 0 <= i < |rosters[k].states| ==> rosters[k].states[i] == Disconnected2
  {
    LifecycleInv(n, rosters, exits, k);
    hide StartAll, Cleanup;
    if k == 0 {
      StartAllExhausts(Fresh(n), 0);
    } else {
      LifecycleInv(n, rosters, exits, k - 1);
      var taken := RoundAt(rosters, exits, k - 1);
      assert taken;
      CleanupSizes(rosters[k - 1], exits[k - 1]);
      StartAllExhausts(Cleanup(rosters[k - 1], exits[k - 1]), 0);
    }
  }

  lemma CleanupSizes(r: Roster, exited: set<nat>)
    requires RosterInv(r)
    ensures |Cleanup(r, exited).states| == |Cleanup(r, exited).starts| == |r.states|
  {
  }

  // ---------------------------------------------------------------- the transitions left

  function TransitionsLeft(s: PeerState): nat {
    match s
    case NotConnected => 4
    case Connected1 => 3
    case Disconnected1 => 2
    case Connected2 => 1
    case Disconnected2 => 0
  }

  function TotalLeft(states: seq<PeerState>): nat {
    if states == [] then 0 else TransitionsLeft(states[0]) + TotalLeft(states[1..])
  }

  lemma {:induction false} OneTransition(states: seq<PeerState>, i: nat)
    requires i < |states| && states[i] != Disconnected2
    ensures TotalLeft(states) == TotalLeft(states[i := Following(states[i])]) + 1
  {
    if i > 0 {
      OneTransition(states[1..], i - 1);
      assert states[i := Following(states[i])][1..] == states[1..][i - 1 := Following(states[i])];
    } else {
      assert states[0 := Following(states[0])][1..] == states[1..];
    }
  }

  /** Opening uses up one transition for each peer it starts. */
  lemma {:induction false} StartAllUses(r: Roster, from: nat)
    requires RosterInv(r) && from <= |r.states|
    ensures var r' := StartAll(r, from);
      r.live <= r'.live && TotalLeft(r.states) == TotalLeft(r'.states) + |r'.live| - |r.live|
    decreases |r.states| - from
  {
    if from < |r.states| {
      if Connectable(r.states[from]) {
        if |r.live| < MAX_NUM_CONNECTED_PEERS {
          StartKeepsInv(r, from);
          OneTransition(r.states, from);
          StartAllUses(Start(r, from), from + 1);
        }
      } else {
        StartAllUses(r, from + 1);
      }
    }
  }

  /** Moving a set of addresses on uses up one transition each. */
  lemma {:induction false} MovedUses(states: seq<PeerState>, gone: set<nat>)
    requires CanMove(states, gone)
    ensures TotalLeft(states) == TotalLeft(Moved(states, gone)) + |gone|
    decreases |gone|
  {
    hide TotalLeft, Following;
    if gone == {} {
      assert Moved(states, gone) == states;
    } else {
      var i :| i in gone;
      var rest := gone - {i};
      MovedUses(states, rest);
      MovedOne(states, rest, i);
      OneTransition(Moved(states, rest), i);
      assert rest + {i} == gone;
    }
  }

  lemma MovedOne(states: seq<PeerState>, gone: set<nat>, i: nat)
    requires CanMove(states, gone + {i}) && i !in gone
    ensures CanMove(states, gone) && Moved(states, gone)[i] == states[i] != Disconnected2
    ensures Moved(states, gone + {i}) == Moved(states, gone)[i := Following(states[i])]
  {
    hide Following;
    assert i in gone + {i};
  }

  lemma CleanupUses(r: Roster, exited: set<nat>)
    requires RosterInv(r)
    ensures TotalLeft(r.states) == TotalLeft(Cleanup(r, exited).states) + |r.live * exited|
  {
    hide TotalLeft;
    MovedUses(r.states, r.live * exited);
  }

  /**
   * The total number of transitions left falls by one for every peer that leaves and every
   * peer that is started, so it strictly decreases in every round in which anything happens.
   */
  lemma RoundUsesTransitions(r: Roster, exited: set<nat>)
    requires RosterInv(r)
    ensures var r' := Round(r, exited);
      TotalLeft(r.states) == TotalLeft(r'.states) + |r.live * exited| + |r'.live - (r.live - exited)|
  {
    hide StartAll, TotalLeft, RosterInv;
    CleanupUses(r, exited);
    CleanupKeepsInv(r, exited);
    var c := Cleanup(r, exited);
    StartAllUses(c, 0);
    var r' := StartAll(c, 0);
    DifferenceSize(r'.live, c.live);
  }

  lemma DifferenceSize(a: set<nat>, b: set<nat>)
    requires b <= a
    ensures |a - b| == |a| - |b|
  {
    assert (a - b) + b == a && (a - b) * b == {};
  }

  // ---------------------------------------------------------------- the class

  ghost predicate NoDuplicates(ids: seq<nat>) {
    forall j, k :: 0 <= j < k < |ids| ==> ids[j] != ids[k]
  }

  function Ids(ids: seq<nat>): (r: set<nat>)
    ensures forall i :: i in r <==> i in ids
  {
    set i | i in ids
  }

  lemma {:induction false} IdsSize(ids: seq<nat>)
    requires NoDuplicates(ids)
    ensures |Ids(ids)| == |ids|
  {
    if ids != [] {
      var last := |ids| - 1;
      IdsSize(ids[..last]);
      assert Ids(ids) == Ids(ids[..last]) + {ids[last]};
    }
  }

  class PeerManager {
    /** The ids of `peers_`, in the order of the vector. */
    var peers: seq<nat>
    var peersState: seq<PeerState>
    /** How often a peer was created for each address. */
    ghost var starts: seq<nat>

    ghost function View(): Roster
      reads this
    {
      Roster(Ids(peers), peersState, starts)
    }

    ghost predicate Valid()
      reads this
    {
      NoDuplicates(peers) && RosterInv(View())
    }

    /** Starts the addresses in order, up to the cap. */
    constructor (numAddresses: nat)
      ensures Valid()
      ensures View() == StartAll(Fresh(numAddresses), 0)
    {
      peers := [];
      peersState := seq(numAddresses, _ => NotConnected);
      starts := seq(numAddresses, _ => 0);
      new;
      FreshInv(numAddresses);
      assert View() == Fresh(numAddresses);
      StartAllKeepsInv(Fresh(numAddresses), 0);
      var i := 0;
      hide RosterInv, StartAll;
      while i < numAddresses
        invariant 0 <= i <= numAddresses == |peersState| == |starts| && i < MAX_NUM_CONNECTED_PEERS
        invariant Valid() && |peers| == i
        invariant forall j :: i <= j < numAddresses ==> peersState[j] == NotConnected
        invariant StartAll(View(), i) == StartAll(Fresh(numAddresses), 0)
      {
        IdsSize(peers);
        StartAllStep(View(), i);
        StartPeer(i);
        IdsSize(peers);
        i := i + 1;
        if i == MAX_NUM_CONNECTED_PEERS {
          AtCap(View(), i);
          break;
        }
      }
      if i == numAddresses { StartAllDone(View()); }
    }

    /** Creates a peer for the address and moves the address on. */
    method StartPeer(i: nat)
      requires Valid() && i < |peersState| && Connectable(peersState[i]) && |peers| < MAX_NUM_CONNECTED_PEERS
      modifies this
      ensures Valid()
      ensures i < |old(peersState)| == |old(starts)| && View() == Start(old(View()), i)
      ensures |peers| == |old(peers)| + 1
    {
      ghost var before := View();
      IdsSize(peers);
      StartKeepsInv(before, i);
      AppendId(peers, i);
      hide RosterInv;
      peers := peers + [i];
      starts := starts[i := starts[i] + 1];
      peersState := peersState[i := GetNextPeerState(peersState[i]).value];
      assert View() == Start(before, i);
    }

    /** Unregisters each of the given peers from the piece manager and moves its address on. */
    method TransitionAll(gone: seq<nat>) returns (removed: seq<nat>)
      requires NoDuplicates(gone) && CanMove(peersState, Ids(gone))
      modifies this`peersState
      ensures peersState == Moved(old(peersState), Ids(gone))
      ensures removed == gone
    {
      hide Moved, NoDuplicates;
      ghost var before := peersState;
      NothingMoved(before);
      removed := [];
      var it := 0;
      while it < |gone|
        invariant 0 <= it <= |gone| && removed == gone[..it]
        invariant CanMove(before, Ids(gone[..it])) && peersState == Moved(before, Ids(gone[..it]))
      {
        var peerId := gone[it];
        TakeOne(gone, it);
        MovedOne(before, Ids(gone[..it]), peerId);
        removed := removed + [peerId];
        var peerState := peersState[peerId];
        peersState := peersState[peerId := GetNextPeerState(peerState).value];
        it := it + 1;
      }
      assert gone[..it] == gone;
    }

    /**
     * Separates the live peers from the exited ones, moves the latter's addresses on, drops them.
     * `removed` are the ids unregistered from the piece manager, in order.
     */
    method CleanupConnections(exited: set<nat>) returns (removed: seq<nat>)
      requires Valid()
      modifies this
      ensures Valid()
      ensures View() == Cleanup(old(View()), exited)
      ensures View().live == old(View()).live - exited
      ensures NoDuplicates(removed) && Ids(removed) == old(View()).live * exited
    {
      hide RosterInv, Moved;
      ghost var before := View();
      CleanupKeepsInv(before, exited);
      var parted, removeIter := Partition(peers, exited);
      PartitionFacts(peers, parted, removeIter, exited);
      LiveCanMove(before, before.live * exited, exited);
      removed := TransitionAll(parted[removeIter..]);
      peers := parted[..removeIter];
    }

    /** Starts addresses that may be tried, in order, while there is room. */
    method OpenConnections()
      requires Valid()
      modifies this
      ensures Valid()
      ensures View() == StartAll(old(View()), 0)
    {
      hide RosterInv, StartAll;
      ghost var before := View();
      RosterSizes(before);
      StartAllKeepsInv(before, 0);
      var i := 0;
      while i < |peersState|
        invariant 0 <= i <= |peersState| == |starts| == |before.states|
        invariant Valid()
        invariant StartAll(View(), i) == StartAll(before, 0)
      {
        IdsSize(peers);
        RosterSizes(View());
        StartAllStep(View(), i);
        if peersState[i] == NotConnected || peersState[i] == Disconnected1 {
          if |peers| >= MAX_NUM_CONNECTED_PEERS {
            return;
          }
          StartPeer(i);
        }
        i := i + 1;
      }
      RosterSizes(View());
      StartAllDone(View());
    }

    /**
     * One pass of the loop in `cleanup_and_open_connections`; `outOfPeers` is when the download
     * is stopped because nobody is left to download from.
     */
    method CleanupAndOpenConnections(exited: set<nat>) returns (removed: seq<nat>, outOfPeers: bool)
      requires Valid()
      modifies this
      ensures Valid()
      ensures NoDuplicates(removed) && Ids(removed) == old(View()).live * exited
      ensures View() == Round(old(View()), exited)
      ensures outOfPeers <==> View().live == {}
    {
      removed := CleanupConnections(exited);
      OpenConnections();
      IdsSize(peers);
      outOfPeers := |peers| == 0;
    }
  }

  lemma NothingMoved(states: seq<PeerState>)
    ensures CanMove(states, {}) && Moved(states, {}) == states && Ids([]) == {}
  {
  }

  /** Addresses with a live peer are connected, so they have a next state. */
  lemma LiveCanMove(r: Roster, gone: set<nat>, exited: set<nat>)
    requires RosterInv(r) && gone <= r.live * exited
    ensures CanMove(r.states, gone)
  {
  }

  lemma TakeOne(ids: seq<nat>, k: nat)
    requires NoDuplicates(ids) && k < |ids|
    ensures ids[k] !in Ids(ids[..k]) && Ids(ids[..k + 1]) == Ids(ids[..k]) + {ids[k]}
    ensures Ids(ids[..k + 1]) <= Ids(ids)
  {
    assert ids[..k + 1] == ids[..k] + [ids[k]];
  }

  lemma AppendId(ids: seq<nat>, i: nat)
    ensures Ids(ids + [i]) == Ids(ids) + {i}
    ensures NoDuplicates(ids) && i !in ids ==> NoDuplicates(ids + [i])
  {
  }

  lemma AtCap(r: Roster, from: nat)
    requires from <= |r.states| == |r.starts| && |r.live| >= MAX_NUM_CONNECTED_PEERS
    ensures StartAll(r, from) == r
    decreases |r.states| - from
  {
    if from < |r.states| && !Connectable(r.states[from]) { AtCap(r, from + 1); }
  }

  /** `std::partition` of the ids by not being in `exited`: it swaps from both ends. */
  method Partition(ids: seq<nat>, exited: set<nat>) returns (r: seq<nat>, middle: nat)
    ensures multiset(r) == multiset(ids)
    ensures middle <= |r|
    ensures forall k :: 0 <= k < middle ==> r[k] !in exited
    ensures forall k :: middle <= k < |r| ==> r[k] in exited
  {
    r := ids;
    var first, last := 0, |ids|;
    while true
      invariant 0 <= first <= last <= |r| == |ids|
      invariant multiset(r) == multiset(ids)
      invariant forall k :: 0 <= k < first ==> r[k] !in exited
      invariant forall k :: last <= k < |r| ==> r[k] in exited
      decreases last - first
    {
      while first != last && r[first] !in exited
        invariant first <= last
        invariant forall k :: 0 <= k < first ==> r[k] !in exited
        decreases last - first
      {
        first := first + 1;
      }
      if first == last {
        return r, first;
      }
      last := last - 1;
      while first != last && r[last] in exited
        invariant first <= last < |r|
        invariant forall k :: last < k < |r| ==> r[k] in exited
        decreases last - first
      {
        last := last - 1;
      }
      if first == last {
        return r, first;
      }
      Swapped(r, first, last);
      r := r[first := r[last]][last := r[first]];
      first := first + 1;
    }
  }

  lemma Swapped(s: seq<nat>, i: nat, j: nat)
    requires i < j < |s|
    ensures multiset(s[i := s[j]][j := s[i]]) == multiset(s)
  {
  }

  lemma {:induction false} CountInNoDuplicates(ids: seq<nat>)
    requires NoDuplicates(ids)
    ensures forall x :: multiset(ids)[x] <= 1
  {
    if ids != [] {
      var last := |ids| - 1;
      CountInNoDuplicates(ids[..last]);
      assert ids == ids[..last] + [ids[last]];
      assert ids[last] !in ids[..last];
    }
  }

  lemma RepeatCounts(ids: seq<nat>, j: nat, k: nat)
    requires j < k < |ids| && ids[j] == ids[k]
    ensures multiset(ids)[ids[j]] >= 2
  {
    assert ids == ids[..k] + [ids[k]] + ids[k + 1..];
    assert ids[j] in ids[..k];
  }

  /** A permutation of distinct ids, split by membership. */
  lemma PartitionFacts(ids: seq<nat>, parted: seq<nat>, middle: nat, exited: set<nat>)
    requires NoDuplicates(ids) && multiset(parted) == multiset(ids) && middle <= |parted|
    requires forall k :: 0 <= k < middle ==> parted[k] !in exited
    requires forall k :: middle <= k < |parted| ==> parted[k] in exited
    ensures NoDuplicates(parted)
    ensures Ids(parted[..middle]) == Ids(ids) - exited
    ensures Ids(parted[middle..]) == Ids(ids) * exited
    ensures forall k :: 0 <= k < |parted| ==> parted[k] in Ids(ids)
  {
    CountInNoDuplicates(ids);
    forall j, k | 0 <= j < k < |parted| ensures parted[j] != parted[k] {
      if parted[j] == parted[k] { RepeatCounts(parted, j, k); }
    }
    assert forall x :: x in parted <==> x in multiset(parted);
    assert forall x :: x in ids <==> x in multiset(ids);
    assert parted == parted[..middle] + parted[middle..];
  }
}
