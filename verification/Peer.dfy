/**
 * src/peer.cpp: the two coroutines of a connection, as the segments they run between
 * suspension points; any interleaving of the segments is possible.
 */
module Peers {

  const MAX_IN_FLIGHT: nat := 5
  const UINT8_LIMIT: nat := 0x100

  /** Where the receiving coroutine, which starts the sending one, is; an exception can leave it. */
  datatype MainPhase = MainRunning | MainEnded | MainAborted

  /**
   * Where the sending coroutine is: not spawned, between two calls of `send_block_requests`,
   * at that function's loop test, suspended in a write, or ended either way.
   */
  datatype SenderPhase = NotSpawned | Waiting | AtTest | Writing | EndedNormally | EndedByError

  /**
   * The fields of a `Peer` with the places of its coroutines. `sent` counts the requests handed
   * to the socket and `received` the piece messages that were counted.
   */
  datatype Session = Session(
    numInFlight: nat,
    isChoked: bool,
    continueConnection: bool,
    mainRoutineHasExited: bool,
    spawnedRoutineHasExited: bool,
    main: MainPhase,
    sender: SenderPhase,
    sent: nat,
    received: nat)

  /**
   * One segment of a coroutine, or an exception in one. `StartAborts` leaves `start` outside its
   * `try` blocks: an address text that does not parse does so before the first, and a failed
   * allocation while spawning the sender may do so before or after the flag for it is cleared.
   * `SenderFails` is an exception on the way from the loop test to the suspended write, caught
   * by the loop of the sender; `SenderAborts` is one in its timer wait, which is outside the
   * `try` block. A write that fails is no exception: it yields its error code as a value,
   * resumes the coroutine and is counted, so it is a `WriteDone`.
   */
  datatype Event =
    | SetChoked(choked: bool)
    | Timeout
    | Spawn
    | Wake
    | LoopTest(hasRequest: bool)
    | WriteDone
    | SenderFails
    | SenderAborts
    | StartAborts(flagCleared: bool)
    | PieceMessage(payloadLength: nat)
    | MainEnds

  function Initial(): Session {
    Session(0, true, true, false, true, MainRunning, NotSpawned, 0, 0)
  }

  predicate HasExited(p: Session) {
    p.mainRoutineHasExited && p.spawnedRoutineHasExited
  }

  predicate SenderActive(p: Session) {
    p.sender == Waiting || p.sender == AtTest || p.sender == Writing
  }

  /** When the segment that an event stands for can run. */
  predicate Enabled(p: Session, e: Event) {
    match e
    case SetChoked(_) => p.main == MainRunning && p.sender != NotSpawned
    case Timeout => true
    case Spawn => p.main == MainRunning && p.sender == NotSpawned
    case Wake => p.sender == Waiting
    case LoopTest(_) => p.sender == AtTest
    case WriteDone => p.sender == Writing
    case SenderFails => p.sender == AtTest
    case SenderAborts => p.sender == Waiting
    case StartAborts(flagCleared) => p.main == MainRunning && (flagCleared ==> p.sender == NotSpawned)
    case PieceMessage(_) => p.main == MainRunning && p.sender != NotSpawned
    case MainEnds => p.main == MainRunning
  }

  function Next(p: Session, e: Event): Session
    requires Enabled(p, e)
  {
    match e
    case SetChoked(c) => p.(isChoked := c)
    case Timeout => p.(continueConnection := false)
    case Spawn => p.(spawnedRoutineHasExited := false, sender := Waiting)
    case Wake =>
      if !p.continueConnection then p.(spawnedRoutineHasExited := true, sender := EndedNormally)
      else if p.isChoked then p
      else p.(sender := AtTest)
    case LoopTest(hasRequest) =>
      if p.numInFlight < MAX_IN_FLIGHT && hasRequest then p.(sender := Writing, sent := p.sent + 1)
      else p.(sender := Waiting)
    case WriteDone => p.(numInFlight := (p.numInFlight + 1) % UINT8_LIMIT, sender := AtTest)
    case SenderFails => p.(continueConnection := false, sender := EndedByError)
    case SenderAborts => p.(sender := EndedByError)
    case StartAborts(flagCleared) =>
      p.(spawnedRoutineHasExited := p.spawnedRoutineHasExited && !flagCleared, main := MainAborted)
    case PieceMessage(n) =>
      if n < 9 then p
      else p.(numInFlight := (p.numInFlight + UINT8_LIMIT - 1) % UINT8_LIMIT, received := p.received + 1)
    case MainEnds =>
      p.(continueConnection := p.continueConnection && p.sender == NotSpawned,
         mainRoutineHasExited := true, main := MainEnded)
  }

  /** An interleaving from a new connection. */
  ghost predicate IsRun(ps: seq<Session>, es: seq<Event>) {
    && |ps| == |es| + 1
    && ps[0] == Initial()
    && forall k: nat :: k < |es| ==> StepAt(ps, es, k)
  }

  ghost predicate StepAt(ps: seq<Session>, es: seq<Event>, k: nat)
    requires |ps| == |es| + 1 && k < |es|
  {
    Enabled(ps[k], es[k]) && ps[k + 1] == Next(ps[k], es[k])
  }

  // ---------------------------------------------------------------- the exit flags

  /** A coroutine has been left by an exception before it set its flag. */
  predicate Abandoned(p: Session) {
    p.main == MainAborted || p.sender == EndedByError
  }

  /** The flags say where the coroutines are, but for a coroutine left by an exception. */
  ghost predicate FlagsInv(p: Session) {
    && (p.mainRoutineHasExited <==> p.main == MainEnded)
    && (p.spawnedRoutineHasExited ==> p.sender == NotSpawned || p.sender == EndedNormally)
    && (p.sender == EndedNormally ==> p.spawnedRoutineHasExited)
    && (p.sender == NotSpawned && p.main != MainAborted ==> p.spawnedRoutineHasExited)
  }

  lemma StepKeepsFlags(p: Session, e: Event)
    requires FlagsInv(p) && Enabled(p, e)
    ensures FlagsInv(Next(p, e))
  {
  }

  lemma {:induction false} RunKeepsFlags(ps: seq<Session>, es: seq<Event>, k: nat)
    requires IsRun(ps, es) && k < |ps|
    ensures FlagsInv(ps[k])
  {
    if k > 0 {
      RunKeepsFlags(ps, es, k - 1);
      var taken := StepAt(ps, es, k - 1);
      assert taken;
      StepKeepsFlags(ps[k - 1], es[k - 1]);
    }
  }

  /** Neither coroutine runs, however they stopped. */
  predicate Stopped(p: Session) {
    p.main != MainRunning && !SenderActive(p)
  }

  /** A peer that reports having exited has no coroutine left to run, so it can be destroyed. */
  lemma ExitedMeansIdle(ps: seq<Session>, es: seq<Event>, k: nat)
    requires IsRun(ps, es) && k < |ps|
    ensures HasExited(ps[k]) ==> Stopped(ps[k]) && !Abandoned(ps[k])
  {
    RunKeepsFlags(ps, es, k);
  }

  /** An exception that leaves a coroutine before it sets its flag. */
  predicate Unflagged(e: Event) {
    e.SenderFails? || e.SenderAborts? || e.StartAborts?
  }

  ghost predicate AnyUnflagged(es: seq<Event>) {
    exists j :: 0 <= j < |es| && Unflagged(es[j])
  }

  /** A coroutine is abandoned exactly when such an exception has happened. */
  lemma {:induction false} AbandonedIffUnflagged(ps: seq<Session>, es: seq<Event>, k: nat)
    requires IsRun(ps, es) && k < |ps|
    ensures Abandoned(ps[k]) <==> AnyUnflagged(es[..k])
  {
    if k > 0 {
      AbandonedIffUnflagged(ps, es, k - 1);
      var taken := StepAt(ps, es, k - 1);
      assert taken;
      AbandonedStep(ps[k - 1], es[k - 1]);
      AnyUnflaggedAppend(es[..k - 1], es[k - 1]);
      assert es[..k] == es[..k - 1] + [es[k - 1]];
    }
  }

  lemma AbandonedStep(p: Session, e: Event)
    requires Enabled(p, e)
    ensures Abandoned(Next(p, e)) <==> Abandoned(p) || Unflagged(e)
  {
  }

  lemma AnyUnflaggedAppend(es: seq<Event>, e: Event)
    ensures AnyUnflagged(es + [e]) <==> AnyUnflagged(es) || Unflagged(e)
  {
    if AnyUnflagged(es) {
      var j :| 0 <= j < |es| && Unflagged(es[j]);
      assert Unflagged((es + [e])[j]);
    }
    if Unflagged(e) { assert Unflagged((es + [e])[|es|]); }
  }

  /** Once neither coroutine runs, the peer reports its exit iff no such exception has happened. */
  lemma ReportedIffNeverUnflagged(ps: seq<Session>, es: seq<Event>, k: nat)
    requires IsRun(ps, es) && k < |ps| && Stopped(ps[k])
    ensures HasExited(ps[k]) <==> !AnyUnflagged(es[..k])
  {
    RunKeepsFlags(ps, es, k);
    AbandonedIffUnflagged(ps, es, k);
  }

  /** After such an exception the exit is never reported, whatever else happens. */
  lemma UnflaggedIsNeverReported(ps: seq<Session>, es: seq<Event>, j: nat, k: nat)
    requires IsRun(ps, es) && j < k < |ps| && Unflagged(es[j])
    ensures !HasExited(ps[k])
  {
    RunKeepsFlags(ps, es, k);
    AbandonedIffUnflagged(ps, es, k);
    assert Unflagged(es[..k][j]);
  }

  /** An address text that does not parse: nothing ever runs, and the exit is not reported. */
  lemma UnparsableAddressIsReachable()
    ensures var ps := [Initial(), Next(Initial(), StartAborts(false))];
      IsRun(ps, [StartAborts(false)]) && Stopped(ps[1]) && !HasExited(ps[1])
  {
    var ps := [Initial(), Next(Initial(), StartAborts(false))];
    assert StepAt(ps, [StartAborts(false)], 0);
  }

  /** A failed allocation for a request: both coroutines stop, and the exit is not reported. */
  lemma FailedSenderIsReachable() returns (ps: seq<Session>, es: seq<Event>)
    ensures IsRun(ps, es) && SenderFails in es
    ensures ps[|es|].main == MainEnded && Stopped(ps[|es|]) && !HasExited(ps[|es|])
  {
    es := [Spawn, SetChoked(false), Wake, SenderFails, MainEnds];
    var p0 := Initial();
    var p1 := Next(p0, es[0]);
    var p2 := Next(p1, es[1]);
    var p3 := Next(p2, es[2]);
    var p4 := Next(p3, es[3]);
    var p5 := Next(p4, es[4]);
    ps := [p0, p1, p2, p3, p4, p5];
    forall k: nat | k < |es| ensures StepAt(ps, es, k) {
      if k == 0 {} else if k == 1 {} else if k == 2 {} else if k == 3 {} else {}
    }
  }

  // ---------------------------------------------------------------- fields as histories

  /** A peer is choked until told otherwise: the last choke or unchoke message decides. */
  predicate Choked(es: seq<Event>) {
    if es == [] then true
    else match es[|es| - 1]
      case SetChoked(choked) => choked
      case _ => Choked(es[..|es| - 1])
  }

  /** Something told the sender to stop: a timeout, its own error, or the end of the receiver after it was spawned. */
  predicate Discontinued(es: seq<Event>) {
    if es == [] then false
    else
      var before := es[..|es| - 1];
      match es[|es| - 1]
      case Timeout => true
      case SenderFails => true
      case MainEnds => Discontinued(before) || Spawn in before
      case _ => Discontinued(before)
  }

  /** The piece messages long enough for a piece index, an offset and a byte of data. */
  function Replies(es: seq<Event>): nat {
    if es == [] then 0
    else
      var last := es[|es| - 1];
      Replies(es[..|es| - 1]) + if last.PieceMessage? && last.payloadLength >= 4 + 4 + 1 then 1 else 0
  }

  /** The writes started among the first `k` steps: from the loop test into a suspended write. */
  function Requests(ps: seq<Session>, k: nat): nat
    requires k < |ps|
  {
    if k == 0 then 0
    else Requests(ps, k - 1) + if ps[k - 1].sender == AtTest && ps[k].sender == Writing then 1 else 0
  }

  /** Every field but the counter is what the events so far make of it. */
  lemma {:induction false} FieldsAreHistories(ps: seq<Session>, es: seq<Event>, k: nat)
    requires IsRun(ps, es) && k < |ps|
    ensures ps[k].isChoked == Choked(es[..k])
    ensures ps[k].continueConnection == !Discontinued(es[..k])
    ensures ps[k].received == Replies(es[..k]) && ps[k].sent == Requests(ps, k)
    ensures ps[k].sender != NotSpawned <==> Spawn in es[..k]
  {
    if k > 0 {
      FieldsAreHistories(ps, es, k - 1);
      var taken := StepAt(ps, es, k - 1);
      assert taken;
      var now := es[..k];
      assert now[|now| - 1] == es[k - 1] && now[..|now| - 1] == es[..k - 1];
      assert now == es[..k - 1] + [es[k - 1]];
      HistoriesStep(now, ps[k - 1], es[k - 1]);
    }
  }

  lemma HistoriesStep(now: seq<Event>, p: Session, e: Event)
    requires now != [] && now[|now| - 1] == e && Enabled(p, e)
    requires var before := now[..|now| - 1];
      && p.isChoked == Choked(before) && p.continueConnection == !Discontinued(before)
      && p.received == Replies(before) && (p.sender != NotSpawned <==> Spawn in before)
    ensures Next(p, e).isChoked == Choked(now) && Next(p, e).continueConnection == !Discontinued(now)
    ensures Next(p, e).received == Replies(now)
    ensures Next(p, e).sender != NotSpawned <==> p.sender != NotSpawned || e == Spawn
    ensures Next(p, e).sent == p.sent + if p.sender == AtTest && Next(p, e).sender == Writing then 1 else 0
  {
  }

  /**
   * A waiting sender that wakes up ends exactly if something told it to stop, and otherwise
   * goes on to request blocks exactly if the last message about it was an unchoke.
   */
  lemma WakingIff(ps: seq<Session>, es: seq<Event>, k: nat)
    requires IsRun(ps, es) && k < |ps| && ps[k].sender == Waiting
    ensures Next(ps[k], Wake).sender == EndedNormally <==> Discontinued(es[..k])
    ensures Next(ps[k], Wake).sender == AtTest <==> !Discontinued(es[..k]) && !Choked(es[..k])
  {
    FieldsAreHistories(ps, es, k);
  }

  /** Not in a call of `send_block_requests`. */
  predicate Quiet(p: Session) {
    p.sender != AtTest && p.sender != Writing
  }

  /** From a choked state between calls, nothing is sent until the next unchoke message. */
  lemma {:induction false} ChokedSendsNothing(ps: seq<Session>, es: seq<Event>, j: nat, k: nat)
    requires IsRun(ps, es) && j <= k < |ps| && ps[j].isChoked && Quiet(ps[j])
    requires forall m :: j <= m < k ==> es[m] != SetChoked(false)
    ensures ps[k].isChoked && Quiet(ps[k]) && ps[k].sent == ps[j].sent
  {
    if j < k {
      ChokedSendsNothing(ps, es, j, k - 1);
      var taken := StepAt(ps, es, k - 1);
      assert taken;
      assert es[k - 1] != SetChoked(false);
    }
  }

  /** In particular nothing is ever sent to a peer that never unchoked. */
  lemma NothingBeforeUnchoke(ps: seq<Session>, es: seq<Event>, k: nat)
    requires IsRun(ps, es) && k < |ps| && SetChoked(false) !in es[..k]
    ensures ps[k].sent == 0 && Quiet(ps[k])
  {
    forall m: nat | m < k ensures es[m] != SetChoked(false) { assert es[m] == es[..k][m]; }
    ChokedSendsNothing(ps, es, 0, k);
  }

  /** Once told to stop, a sender between calls sends nothing more, and its next wake-up is its last. */
  lemma {:induction false} StoppedSendsNothing(ps: seq<Session>, es: seq<Event>, j: nat, k: nat)
    requires IsRun(ps, es) && j <= k < |ps| && Discontinued(es[..j]) && ps[j].sender == Waiting
    ensures ps[k].sent == ps[j].sent && Quiet(ps[k]) && !ps[k].continueConnection
    ensures Wake in es[j..k] ==> ps[k].sender == EndedNormally || ps[k].sender == EndedByError
    ensures ps[k].sender == Waiting || ps[k].sender == EndedNormally || ps[k].sender == EndedByError
  {
    if j == k {
      FieldsAreHistories(ps, es, j);
    } else {
      StoppedSendsNothing(ps, es, j, k - 1);
      var taken := StepAt(ps, es, k - 1);
      assert taken;
      assert es[j..k] == es[j..k - 1] + [es[k - 1]];
    }
  }

  // ---------------------------------------------------------------- the pipeline

  /** Requests whose write has finished and been counted. */
  function Counted(p: Session): int {
    if p.sender == Writing then p.sent - 1 else p.sent
  }

  /** The 8-bit counter is the number of counted requests not yet answered, modulo 256. */
  ghost predicate CounterInv(p: Session) {
    p.numInFlight == (Counted(p) - p.received) % UINT8_LIMIT
  }

  lemma RemainderIs(n: int, q: int, r: nat)
    requires n == q * UINT8_LIMIT + r && r < UINT8_LIMIT
    ensures n % UINT8_LIMIT == r
  {
  }

  /** Incrementing and decrementing the 8-bit counter is counting modulo 256. */
  lemma WrapUp(n: int)
    ensures (n % UINT8_LIMIT + 1) % UINT8_LIMIT == (n + 1) % UINT8_LIMIT
    ensures (n % UINT8_LIMIT + UINT8_LIMIT - 1) % UINT8_LIMIT == (n - 1) % UINT8_LIMIT
  {
    var q, r := n / UINT8_LIMIT, n % UINT8_LIMIT;
    if r == UINT8_LIMIT - 1 {
      RemainderIs(n + 1, q + 1, 0);
    } else {
      RemainderIs(n + 1, q, r + 1);
    }
    if r == 0 {
      RemainderIs(n - 1, q - 1, UINT8_LIMIT - 1);
    } else {
      RemainderIs(n - 1, q, r - 1);
      RemainderIs(r + UINT8_LIMIT - 1, 1, r - 1);
    }
  }

  lemma StepKeepsCounter(p: Session, e: Event)
    requires CounterInv(p) && Enabled(p, e)
    ensures CounterInv(Next(p, e))
  {
    WrapUp(Counted(p) - p.received);
  }

  lemma {:induction false} RunKeepsCounter(ps: seq<Session>, es: seq<Event>, k: nat)
    requires IsRun(ps, es) && k < |ps|
    ensures CounterInv(ps[k])
  {
    if k > 0 {
      RunKeepsCounter(ps, es, k - 1);
      var taken := StepAt(ps, es, k - 1);
      assert taken;
      StepKeepsCounter(ps[k - 1], es[k - 1]);
    }
  }

  /** Every counted piece message answers a request sent before it. */
  ghost predicate Solicited(ps: seq<Session>) {
    forall k :: 0 <= k < |ps| ==> ps[k].received <= ps[k].sent
  }

  /** With a peer that only answers, no more than five requests are ever outstanding. */
  lemma {:induction false} AtMostFiveOutstanding(ps: seq<Session>, es: seq<Event>, k: nat)
    requires IsRun(ps, es) && Solicited(ps) && k < |ps|
    ensures 0 <= ps[k].sent - ps[k].received <= 5
  {
    if k > 0 {
      AtMostFiveOutstanding(ps, es, k - 1);
      RunKeepsCounter(ps, es, k - 1);
      var taken := StepAt(ps, es, k - 1);
      assert taken;
      assert ps[k].received <= ps[k].sent;
    }
  }

  /**
   * At every loop test the counter is exactly the number of outstanding requests. While a write
   * is suspended it is one less, and reads 255 when the answer overtook the count.
   */
  lemma CounterIsExact(ps: seq<Session>, es: seq<Event>, k: nat)
    requires IsRun(ps, es) && Solicited(ps) && k < |ps|
    ensures ps[k].sender != Writing ==> ps[k].numInFlight == ps[k].sent - ps[k].received
    ensures ps[k].sender == Writing ==>
      && (ps[k].sent > ps[k].received ==> ps[k].numInFlight == ps[k].sent - ps[k].received - 1)
      && (ps[k].sent == ps[k].received ==> ps[k].numInFlight == 255)
  {
    AtMostFiveOutstanding(ps, es, k);
    RunKeepsCounter(ps, es, k);
    assert ps[k].received <= ps[k].sent;
  }

  /**
   * Against any peer: at a loop test the counter is the number of outstanding requests exactly
   * when no more replies were counted than requests sent, up to the width of the counter.
   */
  lemma CounterExactIffSolicited(ps: seq<Session>, es: seq<Event>, k: nat)
    requires IsRun(ps, es) && k < |ps| && ps[k].sender == AtTest
    ensures ps[k].numInFlight == ps[k].sent - ps[k].received
      <==> ps[k].received <= ps[k].sent < ps[k].received + 256
  {
    RunKeepsCounter(ps, es, k);
  }

  /** At a loop test a write starts iff a block was chosen and the wrapped difference is below five. */
  lemma WriteStartsIff(ps: seq<Session>, es: seq<Event>, k: nat, hasRequest: bool)
    requires IsRun(ps, es) && k < |ps| && ps[k].sender == AtTest
    ensures Next(ps[k], LoopTest(hasRequest)).sender == Writing
      <==> hasRequest && (ps[k].sent - ps[k].received) % 256 < 5
  {
    RunKeepsCounter(ps, es, k);
  }

  /** More replies were counted than requests sent, by no more than the counter's spare range. */
  predicate Overtaken(p: Session) {
    1 <= p.received - p.sent <= 251
  }

  /**
   * Once a session is overtaken nothing is ever sent again, until the replies counted exceed
   * the requests by more than the spare range: at its loop tests the counter reads five or more.
   */
  lemma {:induction false} OvertakenSendsNothing(ps: seq<Session>, es: seq<Event>, j: nat, k: nat)
    requires IsRun(ps, es) && j <= k < |ps| && Overtaken(ps[j])
    requires ps[k].received - ps[j].sent <= 251
    ensures ps[k].sent == ps[j].sent && Overtaken(ps[k])
  {
    if j < k {
      RunKeepsCounter(ps, es, k - 1);
      var taken := StepAt(ps, es, k - 1);
      assert taken;
      hide Next, Enabled, CounterInv;
      RepliesGrow(ps[k - 1], es[k - 1]);
      OvertakenSendsNothing(ps, es, j, k - 1);
      OvertakenStep(ps[k - 1], es[k - 1]);
    }
  }

  lemma RepliesGrow(p: Session, e: Event)
    requires Enabled(p, e)
    ensures p.received <= Next(p, e).received
  {
  }

  lemma OvertakenStep(p: Session, e: Event)
    requires CounterInv(p) && Enabled(p, e) && Overtaken(p)
    ensures Next(p, e).sent == p.sent
  {
  }

  /** An overtaken session: one unsolicited piece message before the first request. */
  lemma UnsolicitedPieceStalls() returns (ps: seq<Session>, es: seq<Event>)
    ensures IsRun(ps, es) && |es| > 0
    ensures ps[|es|].sender == AtTest && ps[|es|].numInFlight == 255 && Overtaken(ps[|es|])
    ensures Next(ps[|es|], LoopTest(true)).sender == Waiting
  {
    es := [Spawn, SetChoked(false), PieceMessage(9), Wake];
    var p0 := Initial();
    var p1 := Next(p0, es[0]);
    var p2 := Next(p1, es[1]);
    var p3 := Next(p2, es[2]);
    var p4 := Next(p3, es[3]);
    ps := [p0, p1, p2, p3, p4];
    forall k: nat | k < |es| ensures StepAt(ps, es, k) {
      if k == 0 {} else if k == 1 {} else if k == 2 {} else {}
    }
  }

  // ---------------------------------------------------------------- the class

  class Peer {
    var numInFlight: nat
    var isChoked: bool
    var continueConnection: bool
    var mainRoutineHasExited: bool
    var spawnedRoutineHasExited: bool
    ghost var main: MainPhase
    ghost var sender: SenderPhase
    ghost var sent: nat
    ghost var received: nat

    ghost function View(): Session
      reads this
    {
      Session(numInFlight, isChoked, continueConnection, mainRoutineHasExited, spawnedRoutineHasExited,
              main, sender, sent, received)
    }

    /** The flags say where the coroutines are, the counter what is outstanding modulo 256. */
    ghost predicate Valid()
      reads this
    {
      FlagsInv(View()) && CounterInv(View())
    }

    constructor ()
      ensures Valid() && View() == Initial()
    {
      numInFlight := 0;
      isChoked := true;
      continueConnection := true;
      mainRoutineHasExited := false;
      spawnedRoutineHasExited := true;
      main, sender, sent, received := MainRunning, NotSpawned, 0, 0;
    }

    /** Says so only when both coroutines have ended in their own way, or the sender never existed. */
    method ReportExited() returns (exited: bool)
      requires Valid()
      ensures exited <==> main == MainEnded && (sender == NotSpawned || sender == EndedNormally)
    {
      exited := mainRoutineHasExited && spawnedRoutineHasExited;
    }

    /** `start` before it spawns the sending coroutine and goes on to receive. */
    method SpawnSender()
      requires Valid() && Enabled(View(), Spawn)
      modifies this
      ensures Valid()
      ensures View() == Next(old(View()), Spawn)
    {
      spawnedRoutineHasExited := false;
      sender := Waiting;
    }

    /** `start` gives up before the sending coroutine is spawned. */
    method AbortStart()
      requires Valid() && Enabled(View(), MainEnds) && sender == NotSpawned
      modifies this
      ensures Valid()
      ensures View() == Next(old(View()), MainEnds)
    {
      mainRoutineHasExited := true;
      main := MainEnded;
    }

    /** `start` ends after receiving, normally or by an error, and tells the sender to stop. */
    method EndReceiving()
      requires Valid() && Enabled(View(), MainEnds) && sender != NotSpawned
      modifies this
      ensures Valid()
      ensures View() == Next(old(View()), MainEnds)
    {
      continueConnection := false;
      mainRoutineHasExited := true;
      main := MainEnded;
    }

    /** The loop of `send_messages` up to the loop test of `send_block_requests`, or its end. */
    method WakeSender() returns (calls: bool)
      requires Valid() && Enabled(View(), Wake)
      modifies this
      ensures Valid()
      ensures View() == Next(old(View()), Wake)
      ensures calls <==> sender == AtTest
      ensures calls <==> old(continueConnection) && !old(isChoked)
      ensures sender == EndedNormally <==> !old(continueConnection)
    {
      if !continueConnection {
        spawnedRoutineHasExited := true;
        sender := EndedNormally;
        return false;
      }
      if isChoked {
        return false;
      }
      sender := AtTest;
      return true;
    }

    /** The loop test and, if a block is chosen, the start of the write. */
    method TestLoop(hasRequest: bool) returns (writes: bool)
      requires Valid() && Enabled(View(), LoopTest(hasRequest))
      modifies this
      ensures Valid()
      ensures View() == Next(old(View()), LoopTest(hasRequest))
      ensures writes <==> sender == Writing
    {
      if numInFlight < MAX_IN_FLIGHT {
        if hasRequest {
          sender, sent := Writing, sent + 1;
          return true;
        }
      }
      sender := Waiting;
      return false;
    }

    /** The write has finished. */
    method FinishWrite()
      requires Valid() && Enabled(View(), WriteDone)
      modifies this
      ensures Valid()
      ensures View() == Next(old(View()), WriteDone)
    {
      WrapUp(Counted(View()) - received);
      numInFlight := (numInFlight + 1) % UINT8_LIMIT;
      sender := AtTest;
    }

    /** An exception in `send_block_requests`: the coroutine returns without setting its flag. */
    method FailSender()
      requires Valid() && Enabled(View(), SenderFails)
      modifies this
      ensures Valid()
      ensures View() == Next(old(View()), SenderFails)
    {
      continueConnection := false;
      sender := EndedByError;
    }

    /** An exception in the timer wait of `send_messages`: no field changes. */
    method AbortSender()
      requires Valid() && Enabled(View(), SenderAborts)
      modifies this
      ensures Valid()
      ensures View() == Next(old(View()), SenderAborts)
    {
      sender := EndedByError;
    }

    /** An exception outside the `try` blocks of `start`, before or after it clears the flag. */
    method LeaveStart(flagCleared: bool)
      requires Valid() && Enabled(View(), StartAborts(flagCleared))
      modifies this
      ensures Valid()
      ensures View() == Next(old(View()), StartAborts(flagCleared))
    {
      if flagCleared {
        spawnedRoutineHasExited := false;
      }
      main := MainAborted;
    }

    /** A piece message; one that is too short for its header is ignored. */
    method HandlePieceMessage(payloadLength: nat)
      requires Valid() && Enabled(View(), PieceMessage(payloadLength))
      modifies this
      ensures Valid()
      ensures View() == Next(old(View()), PieceMessage(payloadLength))
      ensures numInFlight == if payloadLength < 9 then old(numInFlight) else (old(numInFlight) + 255) % 256
    {
      if payloadLength < 9 {
        return;
      }
      WrapUp(Counted(View()) - received);
      numInFlight := (numInFlight + UINT8_LIMIT - 1) % UINT8_LIMIT;
      received := received + 1;
    }
  }
}
