/**
 * The download engine as a state machine on values: what `PieceManager`, its `Buffer` and its
 * `FileManager` hold together, and what each event does to it. The classes that update this
 * state in place are proved against these functions; the theorems about runs are proved of them.
 */
module Engine {
  import opened Bytes
  import opened Layout
  import opened FileManagers

  datatype BlockState = Have | DontHave | Requested
  datatype PieceState = NotStarted | AllRequested | Buffered | Completed

  /** A piece in the buffer: its bytes so far and the state of each of its blocks. */
  datatype Slot = Slot(data: seq<byte>, blocks: seq<BlockState>)

  /** A block received from a peer: any piece, any offset, any bytes. */
  datatype Block = Block(piece: nat, offset: nat, data: seq<byte>)

  datatype BlockRequest = BlockRequest(piece: nat, offset: nat, length: nat)

  /** A verified piece handed to the writer. */
  datatype Saved = Saved(index: nat, data: seq<byte>)

  /**
   * What a selection depends on besides the state: where the pseudo-random probe of the buffer
   * ends, and the bytes an earlier piece left behind in the slot that is reused.
   */
  datatype Oracle = Oracle(pick: nat, stale: seq<byte>)

  /** `log` is a history variable: every piece ever queued, oldest first. */
  datatype State = State(
    pieces: seq<PieceState>,
    buffer: map<nat, Slot>,
    affinity: map<nat, nat>,
    bitfields: map<nat, seq<bool>>,
    completed: nat,
    queue: seq<Job>,
    written: nat,
    disk: seq<byte>,
    log: seq<Saved>)

  // ---------------------------------------------------------------- block states

  predicate NoDontHave(blocks: seq<BlockState>) {
    forall b :: 0 <= b < |blocks| ==> blocks[b] != DontHave
  }

  predicate AllHave(blocks: seq<BlockState>) {
    forall b :: 0 <= b < |blocks| ==> blocks[b] == Have
  }

  /** The first block at or after `from` that is neither requested nor received. */
  function FirstDontHave(blocks: seq<BlockState>, from: nat): (r: Option<nat>)
    requires from <= |blocks|
    ensures r.Some? ==>
      && from <= r.value < |blocks| && blocks[r.value] == DontHave
      && forall b :: from <= b < r.value ==> blocks[b] != DontHave
    ensures r.None? ==> forall b :: from <= b < |blocks| ==> blocks[b] != DontHave
    decreases |blocks| - from
  {
    if from == |blocks| then None
    else if blocks[from] == DontHave then Some(from)
    else FirstDontHave(blocks, from + 1)
  }

  function Forgotten(b: BlockState): BlockState {
    if b == Requested then DontHave else b
  }

  /** Every outstanding request is forgotten. */
  function ClearRequested(blocks: seq<BlockState>): (r: seq<BlockState>)
    ensures |r| == |blocks|
    ensures forall b :: 0 <= b < |r| ==> r[b] == Forgotten(blocks[b])
  {
    seq(|blocks|, b requires 0 <= b < |blocks| => Forgotten(blocks[b]))
  }

  function Fresh(stale: seq<byte>, numBlocks: nat): (r: Slot)
    ensures r.data == stale && |r.blocks| == numBlocks
    ensures forall b :: 0 <= b < numBlocks ==> r.blocks[b] == DontHave
  {
    Slot(stale, seq(numBlocks, _ => DontHave))
  }

  // ---------------------------------------------------------------- the invariant

  function CompletedSet(pieces: seq<PieceState>): (r: set<nat>)
    ensures forall i: nat :: i in r <==> i < |pieces| && pieces[i] == Completed
  {
    set i: nat | i < |pieces| && pieces[i] == Completed
  }

  /** The pieces the writer has been given so far. */
  function Indices(log: seq<Saved>): (r: set<nat>)
    ensures forall k :: 0 <= k < |log| ==> log[k].index in r
    ensures forall i :: i in r ==> exists k :: 0 <= k < |log| && log[k].index == i
  {
    set k | 0 <= k < |log| :: log[k].index
  }

  predicate InBuffer(p: PieceState) {
    p == Buffered || p == AllRequested
  }

  ghost predicate SlotFits(t: Torrent, i: nat, s: Slot)
    requires i < t.NumPieces()
  {
    && |s.data| == t.PieceLength(i)
    && |s.blocks| == t.NumBlocks(i)
    && !AllHave(s.blocks)
  }

  /** A piece is in the buffer iff it is BUFFERED or ALL_REQUESTED, with a slot of its size. */
  ghost predicate BufferInv(t: Torrent, pieces: seq<PieceState>, buffer: map<nat, Slot>) {
    && |pieces| == t.NumPieces()
    && |buffer| <= t.bufferSize
    && (forall i: nat :: i in buffer <==> i < |pieces| && InBuffer(pieces[i]))
    && (forall i :: i in buffer ==> SlotFits(t, i, buffer[i]))
    && (forall i :: i in buffer && pieces[i] == AllRequested ==> NoDontHave(buffer[i].blocks))
  }

  /** Affinity binds registered peers to BUFFERED pieces; every bitfield covers all pieces. */
  ghost predicate PeerInv(pieces: seq<PieceState>, bitfields: map<nat, seq<bool>>, affinity: map<nat, nat>) {
    && (forall p :: p in bitfields ==> |bitfields[p]| == |pieces|)
    && (forall p :: p in affinity ==>
          p in bitfields && affinity[p] < |pieces| && pieces[affinity[p]] == Buffered)
  }

  ghost predicate Verified(t: Torrent, e: Saved) {
    e.index < t.NumPieces() && |e.data| == t.PieceLength(e.index) && t.hash(e.data) == t.pieces[e.index].hash
  }

  /** The log lists exactly the COMPLETED pieces, each once, each verified. */
  ghost predicate LogInv(t: Torrent, log: seq<Saved>, done: set<nat>, completed: nat) {
    && (forall k :: 0 <= k < |log| ==> Verified(t, log[k]))
    && (forall j, k :: 0 <= j < k < |log| ==> log[j].index != log[k].index)
    && Indices(log) == done
    && completed == |log|
  }

  function JobOf(t: Torrent, e: Saved): Job {
    Job(t.PieceOffset(e.index) % OFFSET_LIMIT, e.data)
  }

  /** The bytes left by writing the given pieces one after another over zeroed files. */
  ghost function Replay(t: Torrent, log: seq<Saved>): (r: seq<byte>)
    requires t.WellFormed() && forall k :: 0 <= k < |log| ==> Verified(t, log[k])
    ensures |r| == t.totalLength
  {
    if log == [] then Zeros(t.totalLength)
    else
      var e := log[|log| - 1];
      JobInRange(t, e);
      Splice(Replay(t, log[..|log| - 1]), JobOf(t, e).offset, e.data)
  }

  /** The queue is the tail of the log that is not yet written, the disk the head that is. */
  ghost predicate WriterInv(t: Torrent, log: seq<Saved>, queue: seq<Job>, written: nat, disk: seq<byte>)
    requires t.WellFormed() && forall k :: 0 <= k < |log| ==> Verified(t, log[k])
  {
    && written <= |log|
    && |queue| == |log| - written
    && (forall k :: 0 <= k < |queue| ==> queue[k] == JobOf(t, log[written + k]))
    && disk == Replay(t, log[..written])
  }

  ghost predicate Inv(t: Torrent, s: State) {
    && t.WellFormed()
    && BufferInv(t, s.pieces, s.buffer)
    && PeerInv(s.pieces, s.bitfields, s.affinity)
    && LogInv(t, s.log, CompletedSet(s.pieces), s.completed)
    && WriterInv(t, s.log, s.queue, s.written, s.disk)
  }

  /** Narrowing the offset to 32 bits never moves a write out of the files. */
  lemma JobInRange(t: Torrent, e: Saved)
    requires t.WellFormed() && Verified(t, e)
    ensures e.data != [] && JobOf(t, e).offset + |e.data| <= t.totalLength
  {
    PiecesPartitionTotal(t, e.index);
    DivMod(t.PieceOffset(e.index), OFFSET_LIMIT);
  }

  function Initial(t: Torrent): State {
    State(seq(t.NumPieces(), _ => NotStarted), map[], map[], map[], 0, [], 0, Zeros(t.totalLength), [])
  }

  // ---------------------------------------------------------------- selecting a block

  function Unbind(affinity: map<nat, nat>, piece: nat): map<nat, nat> {
    map p | p in affinity && affinity[p] != piece :: affinity[p]
  }

  /** The first piece not started that the peer has, scanning from `from`. */
  function FirstWanted(pieces: seq<PieceState>, has: seq<bool>, from: nat): (r: Option<nat>)
    requires |has| == |pieces| && from <= |pieces|
    ensures r.Some? ==>
      && from <= r.value < |pieces| && pieces[r.value] == NotStarted && has[r.value]
      && forall i :: from <= i < r.value ==> !(pieces[i] == NotStarted && has[i])
    ensures r.None? ==> forall i :: from <= i < |pieces| ==> !(pieces[i] == NotStarted && has[i])
    decreases |pieces| - from
  {
    if from == |pieces| then None
    else if pieces[from] == NotStarted && has[from] then Some(from)
    else FirstWanted(pieces, has, from + 1)
  }

  /** What step 2 of the selection adds to the buffer, if anything. */
  function ToAdd(t: Torrent, s: State, peer: nat): (r: Option<nat>)
    requires peer in s.bitfields && |s.bitfields[peer]| == |s.pieces|
    ensures r.Some? ==> r.value < |s.pieces| && s.pieces[r.value] == NotStarted && s.bitfields[peer][r.value]
  {
    if |s.buffer| == t.bufferSize then None else FirstWanted(s.pieces, s.bitfields[peer], 0)
  }

  predicate Advertised(s: State, peer: nat, i: nat)
    requires peer in s.bitfields
  {
    i in s.buffer && i < |s.bitfields[peer]| && s.bitfields[peer][i]
  }

  predicate HasAdvertised(s: State, peer: nat)
    requires peer in s.bitfields
  {
    exists i :: i in s.buffer && Advertised(s, peer, i)
  }

  /** The oracle describes an outcome that the probe and the reused slot can have. */
  ghost predicate Possible(t: Torrent, s: State, peer: nat, o: Oracle)
    requires Inv(t, s)
  {
    peer in s.bitfields && peer !in s.affinity ==>
      match ToAdd(t, s, peer)
      case Some(i) => |o.stale| == t.PieceLength(i)
      case None => HasAdvertised(s, peer) ==> Advertised(s, peer, o.pick)
  }

  function AddPiece(t: Torrent, s: State, peer: nat, i: nat, stale: seq<byte>): State
    requires i < |s.pieces| == t.NumPieces()
  {
    s.(buffer := s.buffer[i := Fresh(stale, t.NumBlocks(i))],
       pieces := s.pieces[i := Buffered],
       affinity := s.affinity[peer := i])
  }

  /** Binds the peer to a piece already buffered, giving up its outstanding requests if all are out. */
  function JoinPiece(s: State, peer: nat, i: nat): State
    requires i in s.buffer && i < |s.pieces|
  {
    var bound := s.(affinity := s.affinity[peer := i]);
    if s.pieces[i] == AllRequested then
      bound.(buffer := s.buffer[i := s.buffer[i].(blocks := ClearRequested(s.buffer[i].blocks))],
             pieces := s.pieces[i := Buffered])
    else bound
  }

  /** Steps 1 to 3 of `select_next_block`: the piece to ask the peer for. */
  function Choose(t: Torrent, s: State, peer: nat, o: Oracle): (r: (State, Option<nat>))
    requires Inv(t, s) && peer in s.bitfields && Possible(t, s, peer, o)
  {
    if peer in s.affinity then (s, Some(s.affinity[peer]))
    else match ToAdd(t, s, peer)
      case Some(i) => (AddPiece(t, s, peer, i, o.stale), Some(i))
      case None =>
        if HasAdvertised(s, peer) then (JoinPiece(s, peer, o.pick), Some(o.pick)) else (s, None)
  }

  /** Marks block `found`, if any, as requested; a piece with no free block left is ALL_REQUESTED. */
  function MarkRequested(s: State, i: nat, found: Option<nat>): State
    requires i in s.buffer && i < |s.pieces|
    requires found.Some? ==> found.value < |s.buffer[i].blocks|
  {
    var blocks := s.buffer[i].blocks;
    var blocks' := if found.Some? then blocks[found.value := Requested] else blocks;
    var marked := s.(buffer := s.buffer[i := s.buffer[i].(blocks := blocks')]);
    if NoDontHave(blocks')
      then marked.(pieces := s.pieces[i := AllRequested], affinity := Unbind(s.affinity, i))
      else marked
  }

  function RequestFor(t: Torrent, i: nat, b: nat): BlockRequest
    requires t.blockLength > 0 && i < t.NumPieces()
  {
    BlockRequest(i, b * t.blockLength, t.RequestLength(i, b))
  }

  /** The rest of `select_next_block`: the first free block of the chosen piece. */
  function Retrieve(t: Torrent, s: State, i: nat): (r: (State, Option<BlockRequest>))
    requires t.blockLength > 0 && i in s.buffer && i < |s.pieces| == t.NumPieces()
  {
    var found := FirstDontHave(s.buffer[i].blocks, 0);
    (MarkRequested(s, i, found), if found.Some? then Some(RequestFor(t, i, found.value)) else None)
  }

  function Select(t: Torrent, s: State, peer: nat, o: Oracle): (r: (State, Option<BlockRequest>))
    requires Inv(t, s) && Possible(t, s, peer, o)
  {
    if peer !in s.bitfields then (s, None)
    else
      var (s1, chosen) := Choose(t, s, peer, o);
      ChosenIsBuffered(t, s, peer, o);
      match chosen
      case Some(i) => Retrieve(t, s1, i)
      case None => (s1, None)
  }

  lemma ChosenIsBuffered(t: Torrent, s: State, peer: nat, o: Oracle)
    requires Inv(t, s) && peer in s.bitfields && Possible(t, s, peer, o)
    ensures var (s1, chosen) := Choose(t, s, peer, o);
      |s1.pieces| == t.NumPieces()
      && (chosen.Some? ==> chosen.value in s1.buffer && chosen.value < |s1.pieces|)
  {
  }

  // ---------------------------------------------------------------- the other events

  predicate ValidBlock(t: Torrent, b: Block)
    requires t.WellFormed()
  {
    && b.piece < t.NumPieces()
    && b.offset < t.PieceLength(b.piece)
    && |b.data| <= t.PieceLength(b.piece) - b.offset
  }

  /** Whether the block is for a buffered piece and not yet received; offsets need not be aligned. */
  predicate ShouldWrite(t: Torrent, s: State, b: Block)
    requires t.WellFormed() && BufferInv(t, s.pieces, s.buffer) && ValidBlock(t, b)
  {
    b.piece in s.buffer && s.buffer[b.piece].blocks[BlockIndex(t, b.piece, b.offset)] != Have
  }

  /** The slot after the block is written. */
  function Written(t: Torrent, i: nat, b: Block, slot: Slot): (r: Slot)
    requires t.WellFormed() && i < t.NumPieces() && b.piece == i && ValidBlock(t, b)
    requires |slot.data| == t.PieceLength(i) && |slot.blocks| == t.NumBlocks(i)
  {
    Slot(Splice(slot.data, b.offset, b.data), slot.blocks[BlockIndex(t, i, b.offset) := Have])
  }

  function WriteBlock(t: Torrent, s: State, b: Block): (r: Slot)
    requires t.WellFormed() && BufferInv(t, s.pieces, s.buffer) && ValidBlock(t, b) && ShouldWrite(t, s, b)
    ensures |r.data| == t.PieceLength(b.piece) && |r.blocks| == t.NumBlocks(b.piece)
  {
    Written(t, b.piece, b, s.buffer[b.piece])
  }

  function Evict(s: State, i: nat): State {
    s.(buffer := s.buffer - {i}, affinity := Unbind(s.affinity, i))
  }

  /** The end of `add_block` for a piece whose blocks are all received. */
  function FinishPiece(t: Torrent, s: State, i: nat, data: seq<byte>): State
    requires i < |s.pieces| == t.NumPieces()
  {
    if t.hash(data) == t.pieces[i].hash then
      var e := Saved(i, data);
      Evict(s, i).(
        pieces := s.pieces[i := Completed],
        completed := s.completed + 1,
        queue := s.queue + [JobOf(t, e)],
        log := s.log + [e])
    else
      Evict(s, i).(pieces := s.pieces[i := NotStarted])
  }

  function AddBlock(t: Torrent, s: State, b: Block): State
    requires Inv(t, s)
  {
    if !ValidBlock(t, b) || !ShouldWrite(t, s, b) then s
    else
      var slot := WriteBlock(t, s, b);
      var s' := s.(buffer := s.buffer[b.piece := slot]);
      if AllHave(slot.blocks) then FinishPiece(t, s', b.piece, slot.data) else s'
  }

  function UpdateBitfield(s: State, peer: nat, has: seq<bool>): State {
    s.(bitfields := s.bitfields[peer := has])
  }

  function RemovePeer(s: State, peer: nat): State {
    s.(affinity := s.affinity - {peer}, bitfields := s.bitfields - {peer})
  }

  /** One pass of the writer thread's loop, given the value it reads from the stop flag. */
  function WriterPass(t: Torrent, s: State, stop: bool): State
    requires Inv(t, s)
  {
    if stop || s.written == t.NumPieces() || s.queue == [] then s
    else
      var job := s.queue[0];
      JobInRange(t, s.log[s.written]);
      s.(queue := s.queue[1..], written := s.written + 1, disk := Splice(s.disk, job.offset, job.data))
  }

  // ---------------------------------------------------------------- runs

  datatype Event =
    | Bitfield(peer: nat, has: seq<bool>)
    | SelectNext(peer: nat, oracle: Oracle)
    | Receive(block: Block)
    | PeerGone(peer: nat)
    | Writer(stop: bool)

  /** An event the environment can produce in a state that satisfies the invariant. */
  ghost predicate Enabled(t: Torrent, s: State, e: Event)
    requires Inv(t, s)
  {
    match e
    case Bitfield(_, has) => |has| == t.NumPieces()
    case SelectNext(peer, o) => Possible(t, s, peer, o)
    case _ => true
  }

  function Next(t: Torrent, s: State, e: Event): State
    requires Inv(t, s) && Enabled(t, s, e)
  {
    match e
    case Bitfield(peer, has) => UpdateBitfield(s, peer, has)
    case SelectNext(peer, o) => Select(t, s, peer, o).0
    case Receive(b) => AddBlock(t, s, b)
    case PeerGone(peer) => RemovePeer(s, peer)
    case Writer(stop) => WriterPass(t, s, stop)
  }

  ghost predicate Step(t: Torrent, s: State, e: Event, s': State) {
    Inv(t, s) && Enabled(t, s, e) && s' == Next(t, s, e)
  }

  /** `states` are the states an interleaving `events` goes through from the initial one. */
  ghost predicate IsRun(t: Torrent, states: seq<State>, events: seq<Event>) {
    && t.WellFormed()
    && |states| == |events| + 1
    && states[0] == Initial(t)
    && forall k: nat :: k < |events| ==> StepAt(t, states, events, k)
  }

  ghost predicate StepAt(t: Torrent, states: seq<State>, events: seq<Event>, k: nat)
    requires |states| == |events| + 1 && k < |events|
  {
    Step(t, states[k], events[k], states[k + 1])
  }
}
