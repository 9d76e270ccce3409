/**
 * src/file_manager.cpp: the write queue and the writer thread that scatters each queued piece
 * over the torrent's files. A file is its sequence of bytes.
 */
module FileManagers {
  import opened Bytes

  /** One entry of `write_info`: which file, where in it, how many bytes. */
  datatype Segment = Segment(file: nat, offset: nat, count: nat)

  /** An entry of `write_queue_`; the offset has already been narrowed to 32 bits. */
  datatype Job = Job(offset: nat, data: seq<byte>)

  const OFFSET_LIMIT: nat := 0x1_0000_0000

  /** Position of byte `offset` of file `file` in the concatenation of all the files. */
  function FlatPosition(lens: seq<nat>, file: nat, offset: nat): nat
    requires file <= |lens|
  {
    Sum(lens[..file]) + offset
  }

  ghost predicate InBounds(lens: seq<nat>, s: Segment) {
    s.file < |lens| && s.offset + s.count <= lens[s.file]
  }

  /**
   * The segments lie inside their files, follow one another in the concatenation of the files
   * and cover exactly the bytes `[pos, pos + len)` of it.
   */
  ghost predicate Covers(lens: seq<nat>, info: seq<Segment>, pos: nat, len: nat) {
    if info == [] then len == 0
    else
      && InBounds(lens, info[0])
      && FlatPosition(lens, info[0].file, info[0].offset) == pos
      && info[0].count <= len
      && Covers(lens, info[1..], pos + info[0].count, len - info[0].count)
  }

  lemma {:induction false} CoversAppend(lens: seq<nat>, info: seq<Segment>, pos: nat, len: nat, s: Segment)
    requires Covers(lens, info, pos, len)
    requires InBounds(lens, s) && FlatPosition(lens, s.file, s.offset) == pos + len
    ensures Covers(lens, info + [s], pos, len + s.count)
  {
    if info == [] {
      assert (info + [s])[1..] == [];
      assert Covers(lens, [], pos + s.count, 0);
    } else {
      CoversAppend(lens, info[1..], pos + info[0].count, len - info[0].count, s);
      assert (info + [s])[1..] == info[1..] + [s];
    }
  }

  /** Writing inside one file is one write at the flat position, everything else unchanged. */
  lemma {:induction false} WriteInFileIsFlatWrite(files: seq<seq<byte>>, s: Segment, d: seq<byte>)
    requires InBounds(Lengths(files), s) && |d| == s.count
    ensures var lens := Lengths(files);
      var files' := files[s.file := Splice(files[s.file], s.offset, d)];
      && Lengths(files') == lens
      && FlatPosition(lens, s.file, s.offset) + |d| <= |Flatten(files)|
      && Flatten(files') == Splice(Flatten(files), FlatPosition(lens, s.file, s.offset), d)
  {
    var lens := Lengths(files);
    var f := Splice(files[s.file], s.offset, d);
    var files' := files[s.file := f];
    assert lens[1..] == Lengths(files[1..]);
    if s.file == 0 {
      assert lens[..0] == [];
      assert files'[1..] == files[1..];
      assert Flatten(files') == f + Flatten(files[1..]);
      assert Flatten(files') == Splice(Flatten(files), s.offset, d);
    } else {
      var s' := s.(file := s.file - 1);
      WriteInFileIsFlatWrite(files[1..], s', d);
      assert files'[1..] == files[1..][s'.file := f];
      assert lens[..s.file][1..] == lens[1..][..s'.file];
      var p := FlatPosition(lens[1..], s'.file, s'.offset);
      assert FlatPosition(lens, s.file, s.offset) == |files[0]| + p;
      assert Flatten(files') == files[0] + Splice(Flatten(files[1..]), p, d);
      assert Flatten(files') == Splice(Flatten(files), |files[0]| + p, d);
    }
  }

  /** Writing the next segment extends the part of the job already on disk. */
  lemma ExtendFlatWrite(disk: seq<byte>, files: seq<seq<byte>>, job: Job, done: nat, s: Segment)
    requires InBounds(Lengths(files), s) && done + s.count <= |job.data|
    requires job.offset + |job.data| <= |disk|
    requires FlatPosition(Lengths(files), s.file, s.offset) == job.offset + done
    requires Flatten(files) == Splice(disk, job.offset, job.data[..done])
    ensures var files' := files[s.file := Splice(files[s.file], s.offset, job.data[done..done + s.count])];
      && Lengths(files') == Lengths(files)
      && Flatten(files') == Splice(disk, job.offset, job.data[..done + s.count])
  {
    var chunk := job.data[done..done + s.count];
    WriteInFileIsFlatWrite(files, s, chunk);
    SpliceTwice(disk, job.offset, job.data[..done], chunk);
    assert job.data[..done] + chunk == job.data[..done + s.count];
  }

  class FileManager {
    const numPieces: nat
    const fileLengths: seq<nat>
    var openFiles: seq<seq<byte>>
    var writeQueue: seq<Job>
    var writeCount: nat

    /** The concatenation of the files: what the torrent's byte positions address. */
    ghost function Disk(): seq<byte>
      reads this
    {
      Flatten(openFiles)
    }

    ghost predicate Valid()
      reads this
    {
      Lengths(openFiles) == fileLengths
    }

    /** The job's range lies in the files. The loop that looks for its first file relies on this. */
    predicate Writable(job: Job) {
      job.offset < Sum(fileLengths) && job.offset + |job.data| <= Sum(fileLengths)
    }

    /** With no file list the torrent is a single file of the total length. */
    constructor (numPieces: nat, totalLength: nat, files: seq<nat>)
      ensures Valid()
      ensures this.numPieces == numPieces
      ensures fileLengths == if files == [] then [totalLength] else files
      ensures Disk() == Zeros(Sum(fileLengths)) && writeQueue == [] && writeCount == 0
    {
      var lens := if files == [] then [totalLength] else files;
      this.numPieces := numPieces;
      this.fileLengths := lens;
      this.openFiles := seq(|lens|, k requires 0 <= k < |lens| => Zeros(lens[k]));
      this.writeQueue := [];
      this.writeCount := 0;
      new;
      ZeroFiles(openFiles);
    }

    /** Queues one piece; the pair stored in the queue keeps only 32 bits of the offset. */
    method SavePiece(fileOffset: nat, data: seq<byte>)
      requires Valid()
      modifies this`writeQueue
      ensures Valid()
      ensures writeQueue == old(writeQueue) + [Job(fileOffset % 0x1_0000_0000, data)]
    {
      writeQueue := writeQueue + [Job(fileOffset % OFFSET_LIMIT, data)];
    }

    /**
     * Splits a write at `offset` of the concatenated files into one segment per file touched;
     * files of length zero are stepped over or given an empty segment.
     */
    method CalculateFilesWriteInfo(offset: nat, pieceLength: nat) returns (info: seq<Segment>)
      requires offset < Sum(fileLengths) && offset + pieceLength <= Sum(fileLengths)
      ensures Covers(fileLengths, info, offset, pieceLength)
    {
      assert fileLengths[..|fileLengths|] == fileLengths;
      var currentFile: nat := 0;
      var currentFileOffset: nat := offset;
      while currentFileOffset >= fileLengths[currentFile]
        invariant currentFile < |fileLengths|
        invariant offset == FlatPosition(fileLengths, currentFile, currentFileOffset)
        decreases |fileLengths| - currentFile
      {
        SumPrefixStep(fileLengths, currentFile);
        currentFileOffset := currentFileOffset - fileLengths[currentFile];
        currentFile := currentFile + 1;
      }

      info := [];
      var remaining: nat := pieceLength;
      while remaining > 0
        invariant remaining <= pieceLength
        invariant currentFile <= |fileLengths|
        invariant remaining > 0 ==>
          && FlatPosition(fileLengths, currentFile, currentFileOffset) == offset + (pieceLength - remaining)
          && (currentFile < |fileLengths| ==> currentFileOffset <= fileLengths[currentFile])
        invariant Covers(fileLengths, info, offset, pieceLength - remaining)
        decreases |fileLengths| - currentFile
      {
        var room := fileLengths[currentFile] - currentFileOffset;
        var bytesToWrite := if remaining <= room then remaining else room;
        var s := Segment(currentFile, currentFileOffset, bytesToWrite);
        CoversAppend(fileLengths, info, offset, pieceLength - remaining, s);
        SumPrefixStep(fileLengths, currentFile);
        info := info + [s];
        remaining := remaining - bytesToWrite;
        currentFile := currentFile + 1;
        currentFileOffset := 0;
      }
    }

    /**
     * One pass of the writer thread's loop: the stop flag is tested before the count; an empty
     * queue is slept over; otherwise the oldest job is written. `running` says the loop goes on.
     */
    method FileWriterPass(stop: bool) returns (running: bool)
      requires Valid()
      requires !stop && writeCount != numPieces && writeQueue != [] ==> Writable(writeQueue[0])
      modifies this
      ensures Valid()
      ensures running == (!stop && old(writeCount) != numPieces)
      ensures !running || old(writeQueue) == [] ==>
        openFiles == old(openFiles) && writeQueue == old(writeQueue) && writeCount == old(writeCount)
      ensures running && old(writeQueue) != [] ==>
        var job := old(writeQueue)[0];
        && writeQueue == old(writeQueue)[1..] && writeCount == old(writeCount) + 1
        && job.offset + |job.data| <= |old(Disk())|
        && Disk() == Splice(old(Disk()), job.offset, job.data)
    {
      running := !stop && writeCount != numPieces;
      if !running || writeQueue == [] {
        return;
      }
      var job := writeQueue[0];
      FlattenLength(openFiles);
      WriteJob(job);
      writeQueue := writeQueue[1..];
      writeCount := writeCount + 1;
    }

    /** Seek-and-write of every segment, with a running offset into the piece's data. */
    method WriteJob(job: Job)
      requires Valid()
      requires Writable(job)
      modifies this`openFiles
      ensures Valid()
      ensures job.offset + |job.data| <= |old(Disk())|
      ensures Disk() == Splice(old(Disk()), job.offset, job.data)
    {
      hide Flatten, Sum, Lengths;
      var info := CalculateFilesWriteInfo(job.offset, |job.data|);
      var currDataOffset: nat := 0;
      FlattenLength(openFiles);
      ghost var disk := Disk();
      var k := 0;
      assert info[0..] == info;
      while k < |info|
        invariant 0 <= k <= |info| && currDataOffset <= |job.data|
        invariant Lengths(openFiles) == fileLengths
        invariant Covers(fileLengths, info[k..], job.offset + currDataOffset, |job.data| - currDataOffset)
        invariant Disk() == Splice(disk, job.offset, job.data[..currDataOffset])
      {
        var s := info[k];
        var chunk := job.data[currDataOffset..currDataOffset + s.count];
        assert info[k..][0] == s && info[k..][1..] == info[k + 1..];
        ExtendFlatWrite(disk, openFiles, job, currDataOffset, s);
        openFiles := openFiles[s.file := Splice(openFiles[s.file], s.offset, chunk)];
        currDataOffset := currDataOffset + s.count;
        k := k + 1;
      }
      assert info[k..] == [];
      assert job.data[..currDataOffset] == job.data;
    }
  }

  /** File `f` is what lies in its own range of the concatenation. */
  lemma {:induction false} FileIsItsRange(files: seq<seq<byte>>, f: nat)
    requires f < |files|
    ensures var start := FlatPosition(Lengths(files), f, 0);
      start + |files[f]| <= |Flatten(files)| && Flatten(files)[start..start + |files[f]|] == files[f]
  {
    if f > 0 {
      var rest := files[1..];
      FileIsItsRange(rest, f - 1);
      assert Lengths(files)[..f][1..] == Lengths(rest)[..f - 1];
      var start := FlatPosition(Lengths(rest), f - 1, 0);
      assert Flatten(files)[|files[0]| + start..|files[0]| + start + |files[f]|]
        == Flatten(rest)[start..start + |files[f]|];
    }
  }

  lemma SumPrefixStep(lens: seq<nat>, k: nat)
    requires k < |lens|
    ensures Sum(lens[..k + 1]) == Sum(lens[..k]) + lens[k]
  {
    assert lens[..k + 1] == lens[..k] + [lens[k]];
    SumAppend(lens[..k], lens[k]);
  }

  lemma {:induction false} ZeroFiles(files: seq<seq<byte>>)
    requires forall k :: 0 <= k < |files| ==> files[k] == Zeros(|files[k]|)
    ensures Flatten(files) == Zeros(Sum(Lengths(files)))
  {
    if files != [] {
      ZeroFiles(files[1..]);
      assert Lengths(files)[1..] == Lengths(files[1..]);
    }
  }
}
