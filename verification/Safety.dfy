/**
 * What is on disk after any interleaving of peers, arbitrary bytes and writer passes.
 */
module Safety {
  import opened Bytes
  import opened Layout
  import opened FileManagers
  import opened Engine
  import opened EngineInvariant

  /** The guard under which no queued offset loses bits in the 32-bit field of the queue. */
  predicate OffsetsFit(t: Torrent)
    requires t.NumPieces() > 0
  {
    (t.NumPieces() - 1) * t.pieceLength < 0x1_0000_0000
  }

  /** Every piece is queued under its own flat position exactly when the guard holds. */
  lemma StoredOffsetsExact(t: Torrent, data: seq<byte>)
    requires t.WellFormed()
    ensures OffsetsFit(t) <==>
      forall i: nat :: i < t.NumPieces() ==> JobOf(t, Saved(i, data)).offset == t.PieceOffset(i)
  {
    var n := t.NumPieces();
    if OffsetsFit(t) {
      forall i: nat | i < n ensures JobOf(t, Saved(i, data)).offset == t.PieceOffset(i) {
        if i < n - 1 { MulStrict(i, n - 1, t.pieceLength); }
      }
    } else {
      assert JobOf(t, Saved(n - 1, data)).offset < OFFSET_LIMIT <= t.PieceOffset(n - 1);
    }
  }

  /** The bytes that lie on disk in the range of piece `i`. */
  function PieceOnDisk(t: Torrent, disk: seq<byte>, i: nat): seq<byte>
    requires t.WellFormed() && i < t.NumPieces() && |disk| == t.totalLength
  {
    PiecesPartitionTotal(t, i);
    disk[t.PieceOffset(i)..t.PieceOffset(i) + t.PieceLength(i)]
  }

  ghost predicate AllVerified(t: Torrent, log: seq<Saved>) {
    forall k :: 0 <= k < |log| ==> Verified(t, log[k])
  }

  ghost predicate NoRepeats(log: seq<Saved>) {
    forall j, k :: 0 <= j < k < |log| ==> log[j].index != log[k].index
  }

  /** Overwriting the range of one piece shows the new bytes there and nothing elsewhere. */
  lemma WriteOnePiece(t: Torrent, disk: seq<byte>, e: Saved, i: nat)
    requires t.WellFormed() && OffsetsFit(t) && Verified(t, e) && i < t.NumPieces() && |disk| == t.totalLength
    ensures JobOf(t, e).offset + |e.data| <= |disk|
    ensures PieceOnDisk(t, Splice(disk, JobOf(t, e).offset, e.data), i)
      == if i == e.index then e.data else PieceOnDisk(t, disk, i)
  {
    JobInRange(t, e);
    StoredOffsetsExact(t, e.data);
    assert Saved(e.index, e.data) == e;
    PiecesPartitionTotal(t, i);
    PiecesPartitionTotal(t, e.index);
    if i < e.index { PiecesDisjoint(t, i, e.index); }
    if e.index < i { PiecesDisjoint(t, e.index, i); }
    SpliceSlice(disk, t.PieceOffset(e.index), e.data, t.PieceOffset(i), t.PieceOffset(i) + t.PieceLength(i));
  }

  /** Whatever the order of the writes, each written piece keeps its bytes. */
  lemma {:induction false} ReplayKeepsPieces(t: Torrent, log: seq<Saved>, k: nat)
    requires t.WellFormed() && OffsetsFit(t) && AllVerified(t, log) && NoRepeats(log) && k < |log|
    ensures PieceOnDisk(t, Replay(t, log), log[k].index) == log[k].data
  {
    hide OffsetsFit, PieceOnDisk, JobOf, Splice, Torrent.WellFormed;
    var last := |log| - 1;
    var before := log[..last];
    WriteOnePiece(t, Replay(t, before), log[last], log[k].index);
    if k < last { ReplayKeepsPieces(t, before, k); }
  }

  /**
   * Safety: at every point of every run, each piece the writer has written so far lies on disk
   * in its own range, with exactly the bytes that were verified against the torrent's hash.
   */
  lemma WrittenPiecesAreVerified(t: Torrent, states: seq<State>, events: seq<Event>, k: nat, w: nat)
    requires IsRun(t, states, events) && OffsetsFit(t) && k < |states| && w < states[k].written
    ensures |states[k].disk| == t.totalLength && w < |states[k].log|
    ensures states[k].log[w].index < t.NumPieces() == |states[k].pieces|
    ensures var i := states[k].log[w].index; var onDisk := PieceOnDisk(t, states[k].disk, i);
      && states[k].pieces[i] == Completed
      && |onDisk| == t.PieceLength(i) && t.hash(onDisk) == t.pieces[i].hash
  {
    RunKeepsInv(t, states, events, k);
    WrittenPieceIsVerified(t, states[k], w);
  }

  lemma WrittenPieceIsVerified(t: Torrent, s: State, w: nat)
    requires Inv(t, s) && OffsetsFit(t) && w < s.written
    ensures |s.disk| == t.totalLength && w < |s.log|
    ensures s.log[w].index < t.NumPieces() == |s.pieces|
    ensures var i := s.log[w].index; var onDisk := PieceOnDisk(t, s.disk, i);
      && s.pieces[i] == Completed
      && |onDisk| == t.PieceLength(i) && t.hash(onDisk) == t.pieces[i].hash
  {
    var done := s.log[..s.written];
    assert done[w] == s.log[w];
    ReplayKeepsPieces(t, done, w);
    assert s.log[w].index in Indices(s.log);
  }

  // ---------------------------------------------------------------- the finished download

  function UpTo(n: nat): (r: set<nat>)
    ensures forall i: nat :: i in r <==> i < n
  {
    if n == 0 then {} else UpTo(n - 1) + {n - 1}
  }

  lemma {:induction false} UpToSize(n: nat)
    ensures |UpTo(n)| == n
  {
    if n > 0 {
      UpToSize(n - 1);
    }
  }

  lemma {:induction false} DistinctIndices(log: seq<Saved>)
    requires NoRepeats(log)
    ensures |Indices(log)| == |log|
  {
    if log != [] {
      var last := |log| - 1;
      var before, e := log[..last], log[last];
      DistinctIndices(before);
      IndicesAppend(before, e);
      assert log == before + [e];
      assert e.index !in Indices(before);
    }
  }

  /** As many pieces are written or queued as are completed. */
  lemma QueueCounts(t: Torrent, s: State)
    requires Inv(t, s)
    ensures s.written + |s.queue| == |s.log| == |CompletedSet(s.pieces)| == s.completed <= t.NumPieces()
    ensures s.completed == t.NumPieces() <==> CompletedSet(s.pieces) == UpTo(t.NumPieces())
  {
    DistinctIndices(s.log);
    UpToSize(t.NumPieces());
    assert CompletedSet(s.pieces) <= UpTo(t.NumPieces());
    SubsetSize(CompletedSet(s.pieces), UpTo(t.NumPieces()));
    if s.completed == t.NumPieces() {
      FullSubset(CompletedSet(s.pieces), UpTo(t.NumPieces()));
    }
  }

  lemma {:induction false} FullSubset<T>(a: set<T>, b: set<T>)
    requires a <= b && |a| == |b|
    ensures a == b
  {
    if x :| x in b && x !in a {
      SubsetSize(a, b - {x});
      assert false;
    }
  }

  /** The counter reaches the number of pieces iff every piece is COMPLETED. */
  lemma CompleteIffAllCompleted(t: Torrent, s: State)
    requires Inv(t, s)
    ensures s.completed == |s.pieces| == t.NumPieces()
      <==> forall i :: 0 <= i < |s.pieces| ==> s.pieces[i] == Completed
  {
    hide LogInv, WriterInv, BufferInv;
    Sizes(t, s);
    QueueCounts(t, s);
    if forall i :: 0 <= i < |s.pieces| ==> s.pieces[i] == Completed {
      assert CompletedSet(s.pieces) == UpTo(t.NumPieces());
    }
  }

  /**
   * Queue conservation: in every run the pieces written so far followed by those queued, in the
   * order of their completion, list exactly the completed pieces, once each.
   */
  lemma QueueConservation(t: Torrent, states: seq<State>, events: seq<Event>, k: nat)
    requires IsRun(t, states, events) && k < |states|
    ensures var s := states[k];
      && s.written + |s.queue| == |s.log| == s.completed <= t.NumPieces()
      && NoRepeats(s.log) && Indices(s.log) == CompletedSet(s.pieces) && AllVerified(t, s.log)
      && (forall q :: 0 <= q < |s.queue| ==> s.queue[q] == JobOf(t, s.log[s.written + q]))
      && t.WellFormed() && s.disk == Replay(t, s.log[..s.written])
  {
    hide IsRun, BufferInv, PeerInv, Replay, JobOf;
    RunKeepsInv(t, states, events, k);
    QueueCounts(t, states[k]);
  }

  /** The writer's count reaches the number of pieces iff all are completed and the queue is empty. */
  lemma WriterDoneIffAllOnDisk(t: Torrent, states: seq<State>, events: seq<Event>, k: nat)
    requires IsRun(t, states, events) && k < |states|
    ensures var s := states[k];
      s.written == t.NumPieces() <==>
        s.queue == [] && forall i :: 0 <= i < |s.pieces| ==> s.pieces[i] == Completed
  {
    hide IsRun, WriterInv, LogInv, BufferInv;
    RunKeepsInv(t, states, events, k);
    Sizes(t, states[k]);
    QueueCounts(t, states[k]);
    CompleteIffAllCompleted(t, states[k]);
  }

  /** The bytes of the disk are the concatenation of the pieces that lie on it. */
  lemma {:induction false} DiskIsItsPieces(t: Torrent, disk: seq<byte>, parts: seq<seq<byte>>)
    requires t.WellFormed() && |disk| == t.totalLength && |parts| <= t.NumPieces()
    requires forall i :: 0 <= i < |parts| ==> parts[i] == PieceOnDisk(t, disk, i)
    ensures var end := if |parts| < t.NumPieces() then t.PieceOffset(|parts|) else t.totalLength;
      end <= |disk| && Flatten(parts) == disk[..end]
  {
    if |parts| == 0 {
      assert t.PieceOffset(0) == 0;
    } else {
      var m := |parts| - 1;
      DiskIsItsPieces(t, disk, parts[..m]);
      PiecesPartitionTotal(t, m);
      FlattenAppend(parts[..m], parts[m]);
      assert parts == parts[..m] + [parts[m]];
    }
  }

  /**
   * When the writer thread exits because its count reached the number of pieces, the files
   * concatenated are verified pieces in order, one for each entry of the torrent, and nothing
   * is left in the queue.
   */
  lemma FinishedDownload(t: Torrent, states: seq<State>, events: seq<Event>, k: nat)
    returns (parts: seq<seq<byte>>)
    requires IsRun(t, states, events) && OffsetsFit(t)
    requires k < |states| && states[k].written == t.NumPieces()
    ensures states[k].queue == [] && |parts| == t.NumPieces()
    ensures forall i :: 0 <= i < |parts| ==>
      |parts[i]| == t.PieceLength(i) && t.hash(parts[i]) == t.pieces[i].hash
    ensures states[k].disk == Flatten(parts)
  {
    RunKeepsInv(t, states, events, k);
    var s := states[k];
    QueueCounts(t, s);
    parts := seq(t.NumPieces(), i requires 0 <= i < t.NumPieces() => PieceOnDisk(t, s.disk, i));
    DiskIsItsPieces(t, s.disk, parts);
    forall i | 0 <= i < |parts|
      ensures |parts[i]| == t.PieceLength(i) && t.hash(parts[i]) == t.pieces[i].hash
    {
      assert i in Indices(s.log);
      var w :| 0 <= w < |s.log| && s.log[w].index == i;
      WrittenPieceIsVerified(t, s, w);
    }
  }

  /**
   * The same, file by file: when the writer thread exits by count, each of the files, of the
   * lengths the torrent lists, holds exactly its own range of the verified pieces.
   */
  lemma FinishedFiles(t: Torrent, states: seq<State>, events: seq<Event>, k: nat, files: seq<seq<byte>>)
    returns (parts: seq<seq<byte>>)
    requires IsRun(t, states, events) && OffsetsFit(t)
    requires k < |states| && states[k].written == t.NumPieces()
    requires Lengths(files) == t.FileLengths() && Flatten(files) == states[k].disk
    ensures |parts| == t.NumPieces()
    ensures forall i :: 0 <= i < |parts| ==>
      |parts[i]| == t.PieceLength(i) && t.hash(parts[i]) == t.pieces[i].hash
    ensures |files| == if t.files == [] then 1 else |t.files|
    ensures forall f: nat :: f < |files| ==>
      var start := FlatPosition(Lengths(files), f, 0);
      && |files[f]| == (if t.files == [] then t.totalLength else t.files[f])
      && start + |files[f]| <= |Flatten(parts)|
      && files[f] == Flatten(parts)[start..start + |files[f]|]
  {
    hide IsRun, Flatten, Sum, FlatPosition, OffsetsFit;
    parts := FinishedDownload(t, states, events, k);
    forall f: nat | f < |files|
      ensures var start := FlatPosition(Lengths(files), f, 0);
        && start + |files[f]| <= |Flatten(parts)|
        && files[f] == Flatten(parts)[start..start + |files[f]|]
      ensures |files[f]| == if t.files == [] then t.totalLength else t.files[f]
    {
      FileIsItsRange(files, f);
      assert |files[f]| == Lengths(files)[f];
    }
  }

  // ---------------------------------------------------------------- beyond 32 bits

  /** When the guard fails, no queued piece reaches into the last piece's range: not even the last. */
  lemma NarrowedJobStaysBelow(t: Torrent, e: Saved)
    requires t.WellFormed() && Verified(t, e) && !OffsetsFit(t)
    ensures JobOf(t, e).offset + |e.data| <= t.PieceOffset(t.NumPieces() - 1)
  {
    var last := t.NumPieces() - 1;
    PiecesPartitionTotal(t, e.index);
    DivMod(t.PieceOffset(e.index), OFFSET_LIMIT);
    if e.index < last { PiecesDisjoint(t, e.index, last); }
  }

  lemma {:induction false} ReplayMissesLastPiece(t: Torrent, log: seq<Saved>, p: nat)
    requires t.WellFormed() && AllVerified(t, log) && !OffsetsFit(t)
    requires t.PieceOffset(t.NumPieces() - 1) <= p < t.totalLength
    ensures Replay(t, log)[p] == 0
  {
    if log != [] {
      var last := |log| - 1;
      NarrowedJobStaysBelow(t, log[last]);
      ReplayMissesLastPiece(t, log[..last], p);
      JobInRange(t, log[last]);
    }
  }

  /** Without the guard the last piece is lost: in every run its range on disk stays zero. */
  lemma LastPieceLost(t: Torrent, states: seq<State>, events: seq<Event>, k: nat)
    requires IsRun(t, states, events) && k < |states| && !OffsetsFit(t)
    ensures |states[k].disk| == t.totalLength
    ensures var last := t.NumPieces() - 1;
      PieceOnDisk(t, states[k].disk, last) == Zeros(t.PieceLength(last))
  {
    RunKeepsInv(t, states, events, k);
    var s := states[k];
    var done := s.log[..s.written];
    var last := t.NumPieces() - 1;
    PiecesPartitionTotal(t, last);
    forall p: nat | t.PieceOffset(last) <= p < t.totalLength ensures s.disk[p] == 0 {
      ReplayMissesLastPiece(t, done, p);
    }
    assert PieceOnDisk(t, s.disk, last) == Zeros(t.PieceLength(last));
  }

  /**
   * The guard is exact: unless the last piece is one that zeros verify, a finished download
   * checks against its hashes, piece by piece, if and only if the guard holds.
   */
  lemma DownloadVerifiesIffOffsetsFit(t: Torrent, states: seq<State>, events: seq<Event>, k: nat)
    requires IsRun(t, states, events) && k < |states| && states[k].written == t.NumPieces()
    requires var last := t.NumPieces() - 1; t.hash(Zeros(t.PieceLength(last))) != t.pieces[last].hash
    ensures |states[k].disk| == t.totalLength
    ensures OffsetsFit(t) <==>
      forall i: nat :: i < t.NumPieces() ==> t.hash(PieceOnDisk(t, states[k].disk, i)) == t.pieces[i].hash
  {
    hide IsRun, OffsetsFit, BufferInv, PeerInv, PieceOnDisk, Replay;
    RunKeepsInv(t, states, events, k);
    var s := states[k];
    if OffsetsFit(t) {
      QueueCounts(t, s);
      forall i: nat | i < t.NumPieces() ensures t.hash(PieceOnDisk(t, s.disk, i)) == t.pieces[i].hash {
        assert i in Indices(s.log);
        var w :| 0 <= w < |s.log| && s.log[w].index == i;
        WrittenPieceIsVerified(t, s, w);
      }
    } else {
      LastPieceLost(t, states, events, k);
      assert t.NumPieces() - 1 < t.NumPieces();
    }
  }
}
