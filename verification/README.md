# simpletorrent: a verified model

simpletorrent is a BitTorrent client. This project models the parts of it whose correctness is
not obvious from reading one function, and proves what they are for:

* **The download engine** (`PieceManager`, its `Buffer`, its `FileManager`). Peers register
  bitfields, ask for blocks, deliver any bytes at any offset, and vanish; a bounded buffer of
  slots is reused; verified pieces pass through a queue to a writer that scatters them over the
  torrent's files. The state machine over all interleavings is in `Engine.dfy`; the classes in
  `PieceManager.dfy`, `Buffer.dfy` and `FileManager.dfy` update their fields in place as the
  source does, and each of their methods is proved to do what the engine's function for its
  event does.
* **The bencode codec**: the decoder with an explicit stack of pointers and one shared
  dictionary key, against a recursive grammar, and that against a description of the texts that
  spell a value which mentions no reading order and no error; the encoder; exact bounded digits.
* **SHA-1**: the unrolled in-place compression and the streaming object, against FIPS 180-4.
* **The connection roster and the request pipeline** of a peer.

## How the engine's theorems are stated

`Engine.State` is everything the three objects hold, with one history variable: `log`, the
pieces handed to the writer so far. `Engine.IsRun(t, states, events)` says that `states` are the
states an interleaving `events` goes through from the empty client. An event is a bitfield (new
or resent), a selection for a peer, an arbitrary block, a peer that goes away, or one pass of
the writer thread's loop with the value it reads from the stop flag.

* A step is defined where `Inv` holds. This never blocks a run: `RunKeepsInv` shows that `Inv`
  holds in every state of every run, the last one included, so every event the environment can
  produce can be appended (`RunAppend`).
* A selection depends on a pseudo-random probe and on bytes left in a reused slot. Both are in
  the event's `Oracle`; nothing is assumed about them but that the probe ends on a piece the
  peer has when there is one (which `Probe` proves of the loop) and that the slot has been
  resized. `SelectionIsPossible` shows that such an outcome always exists.
* `hash` is any function in these theorems. `PieceManager` instantiates it with the SHA-1 of
  `Sha1Spec.dfy`, which the code's `SHA1` object is proved to compute.
* Only the writer thread touches the files and only the downloading thread the other fields; the
  two meet in the queue. One loop pass of the writer is therefore one step.
* The theorem about finished files is about the writer ending by its count. The loop tests the
  stop flag first, and a stopped writer leaves its queue as it is.

## Where the code does less than it promises

* The queue holds offsets as `uint32_t` (include/simpletorrent/FileManager.h:23) although they
  are computed in 64 bits. Offsets survive exactly when the last piece starts below 2^32
  (`StoredOffsetsExact`). When it does not, the last piece's range on disk stays zero in every
  run (`LastPieceLost`), so finished files check against their hashes if and only if the guard
  `OffsetsFit` holds (`DownloadVerifiesIffOffsetsFit`, `HonestDiskIffOffsetsFit`), leaving aside
  torrents whose last piece is one that zeros verify. `HugeDownloadFails` is a download that one
  honest peer finishes, and whose last piece on disk fails its hash.
* Only the last piece's last block is shortened (src/piece_manager.cpp:241-256). Requests tile
  the pieces if and only if the block length divides the piece length or there is just one piece
  (`RequestsTileIffBlocksFit`). Otherwise the full answer to the last request of every piece but
  the last runs past the piece and is refused, so answers to the client's requests can complete a
  download if and only if the block length fits (`CompletableIffBlocksFit`).
* A block is accepted at any offset inside its piece, with any length that does not run past its
  end (src/piece_manager.cpp:86-100), so a block marked as received need not hold the right
  bytes: a short block leaves stale bytes in it (`ShortBlockLeavesStaleBytes`), and an over-long
  one spoils a received neighbour (`LongBlockSpoilsItsNeighbour`). An accepted block keeps every
  received block right, whatever the slot held before, if and only if it starts where its block
  starts, covers it, and is right there and in the received blocks it runs into
  (`KeepsReceivedRightIffCovering`). Safety rests on the piece hash alone. So does recovery: from
  every reachable state, whatever wrong bytes were taken, one peer that has everything can finish
  the download (`OnePeerCanFinish`).
* Every piece message lowers the 8-bit in-flight counter, solicited or not (src/peer.cpp:288-302).
  At a loop test the counter is the number of outstanding requests exactly when no more replies
  were counted than requests sent, up to its width (`CounterExactIffSolicited`). Once more
  replies were counted than requests sent, no request is ever sent again until the difference
  exceeds 251 (`OvertakenSendsNothing`); one unsolicited message before the first request is
  enough (`UnsolicitedPieceStalls`). A write that is suspended when the session is overtaken is
  still counted, and changes nothing in this.
* An exception that leaves a coroutine of a peer before it sets its flag keeps the peer from ever
  being cleaned up. Three do: one outside the `try` blocks of `start`, first of all an address
  text that does not parse (src/peer.cpp:36), such as a host name in a tracker's list
  (src/http_tracker.cpp:61-71), or a failed allocation while the sender is spawned
  (src/peer.cpp:86-88); one on the way from the loop test to the suspended write of a request
  (src/peer.cpp:240-245); and one in the sender's timer wait (src/peer.cpp:247-249). Once neither
  coroutine runs, the peer reports its exit if and only if none of them has happened
  (`ReportedIffNeverUnflagged`; `UnparsableAddressIsReachable` and `FailedSenderIsReachable` are
  runs with one). A write that fails on the connection is no exception: it is awaited with
  `asio::as_tuple` (src/peer.cpp:281-282), which returns the error code, and is counted like one
  that succeeded.
* A decoded dictionary is re-encoded to compute the info hash (src/parser.cpp:23-28). The bytes
  come back if and only if they were canonical (`ReencodesIffCanonical`), also for a value stored
  inside a dictionary (`StoredReencodesIffCanonical`); not all accepted input is
  (`NotAllIsCanonical`).

## Model

| member | source | states |
|---|---|---|
| EngineInvariant.RunKeepsInv | src/piece_manager.cpp:34-239 | in every state of every run: a piece is in the buffer iff BUFFERED or ALL_REQUESTED, ALL_REQUESTED has no free block, every buffered piece lacks a block, affinity binds registered peers to BUFFERED pieces, the log lists exactly the COMPLETED pieces once each and verified, queue and disk are its tail and head |
| EngineInvariant.RunAdvances | src/piece_manager.cpp:102-126 | along a run COMPLETED is never left, and what was queued and written stays so, in the same order |
| EngineInvariant.SelectionIsPossible | src/piece_manager.cpp:214-239 | in every state that satisfies the invariant a selection has a possible outcome, so the runs cover all selections |
| EngineInvariant.NextKeepsInv | src/piece_manager.cpp:34-178 | every event keeps the whole invariant |
| EngineInvariant.SelectKeepsInv | src/piece_manager.cpp:34-84 | a selection keeps it, for every probe and every stale content of the reused slot |
| EngineInvariant.AddBlockKeepsInv | src/piece_manager.cpp:102-126 | a block with any bytes at any offset keeps it, whether its piece then verifies or not |
| EngineInvariant.WriterPassKeepsInv | src/file_manager.cpp:90-122 | a writer pass moves one piece from the queue's head to the disk, never outside the files |
| EngineEffects.RequestEffect | src/piece_manager.cpp:34-84 | a request is for the first free block, not yet received, of a piece the peer has or is already bound to, non-empty and inside the piece when block lengths fit; that block becomes requested and no other newly so, bytes and received marks of the piece stay, other requests stay unless all were out, the peer stays bound while blocks are free, other pieces and other peers' bindings to them are untouched |
| EngineEffects.BlockEffect | src/piece_manager.cpp:86-126 | a block with any bytes changes nothing but its own piece, and nothing if invalid or unwanted; log, queue and counter stay or gain that piece, verified; only bindings to that piece are lost, and none is new |
| EngineEffects.WantedBlockEffect | src/buffer.cpp:81-101 | a wanted block's bytes land at its offset, the block there becomes received, all other bytes and marks of the piece stay; the piece leaves the buffer iff nothing of it is missing then, and is COMPLETED if its bytes verify, else NOT_STARTED |
| EngineEffects.BlockAcceptedIff | src/piece_manager.cpp:86-110 | a delivered block changes the state iff it starts inside a piece, does not run past its end, the piece is in the buffer and the block its offset divides into is missing; any alignment and any length within that |
| Histories.HeldIsLastSent | src/piece_manager.cpp:128-155 | in every run the bitfield held for a peer is the last one it sent since it last went away, bit for bit, and there is none otherwise |
| Histories.RegistrationTouchesNoPiece | src/piece_manager.cpp:128-155 | a bitfield or a peer that goes away touches no piece, no block, no byte, nothing saved, and no other peer's binding; a new bitfield leaves the peer's own binding |
| Histories.BindingLasts | src/piece_manager.cpp:34-187 | a binding lasts until its peer goes away or its piece has no free block or leaves the buffer, and only a selection for a peer binds it |
| Histories.RequestInOrder | src/piece_manager.cpp:40-62 | a request is for the peer's own piece; without one, for the first not-started piece it has if there is room; and only otherwise for a buffered one it has |
| Histories.NoRequestMeans | src/piece_manager.cpp:34-75 | a call without a request means an unregistered peer, nothing for it by that order, or that the piece whose turn it is has no free block and is now ALL_REQUESTED |
| Histories.WrittenIsPasses | src/file_manager.cpp:90-122 | in every run the writer has written one piece in each pass with the stop flag unset and something queued, and none in any other |
| Safety.WrittenPiecesAreVerified | src/piece_manager.cpp:102-126 | safety of every run of a torrent whose offsets fit 32 bits: each piece written so far is COMPLETED and lies on disk in its own range with its own length and bytes that match its hash |
| Safety.QueueConservation | src/file_manager.cpp:36-38 | in every run the pieces written followed by the pieces queued list exactly the completed ones, once each, verified, in the order of completion; the disk is what writing the former leaves |
| Safety.CompleteIffAllCompleted | src/piece_manager.cpp:139-141 | the counter reaches the number of pieces iff every piece is COMPLETED |
| Safety.WriterDoneIffAllOnDisk | src/file_manager.cpp:90-122 | in every run the write count reaches the number of pieces iff all pieces are completed and the queue is empty |
| Safety.FinishedDownload | src/file_manager.cpp:90-122 | when offsets fit and the writer ends by count, the files concatenated are one verified piece per torrent entry, in order, and nothing is queued |
| Safety.FinishedFiles | src/file_manager.cpp:9-28 | then each file, of the length listed for it, or the one file of the total length, holds exactly its own range of the verified pieces |
| Safety.StoredOffsetsExact | include/simpletorrent/FileManager.h:23 | every piece is queued under its own position iff the last piece starts below 2^32, written out as a number |
| Safety.LastPieceLost | src/file_manager.cpp:36-38 | otherwise, in every run, the last piece's range on disk stays zero |
| Safety.DownloadVerifiesIffOffsetsFit | src/file_manager.cpp:36-38 | a finished download whose last piece is not one of zeros matches all its hashes iff that guard holds |
| Safety.ReplayKeepsPieces | src/file_manager.cpp:104-113 | when offsets fit, every written piece keeps its bytes, whatever the order of the writes |
| Safety.DiskIsItsPieces | src/piece_manager.cpp:19-31 | the ranges of the pieces, in order, concatenate to the whole disk |
| Accepted.KeepsReceivedRightIffCovering | src/buffer.cpp:81-101 | for every torrent, an accepted block keeps all received blocks right, for every earlier content of the slot, iff it starts at its block's start, covers it to the end of the piece at most, and is right there and in the received blocks it overlaps |
| Accepted.RequestsAreBlocksIffFit | src/piece_manager.cpp:241-256 | all requests are for exactly the block they name, no more and no less, iff the block length fits |
| Witnesses.ShortBlockLeavesStaleBytes | src/piece_manager.cpp:86-100 | for any hash, a run in which a one-byte block marks a two-byte block received with a stale byte in it |
| Witnesses.LongBlockSpoilsItsNeighbour | src/piece_manager.cpp:86-100 | for any hash, a run in which a received block that was right is overwritten by the block before it |
| Honest.HonestAddBlock | src/buffer.cpp:81-101 | a covering block keeps received blocks right, and a piece it completes has the right bytes and verifies |
| Honest.HonestRun | src/piece_manager.cpp:102-126 | if every block that is written is covering, at every point all received blocks are right, all saved pieces are the content, and no step sends a piece back to NOT_STARTED |
| Honest.ReplyIsHonest | src/piece_manager.cpp:77-83 | the exact answer to a request is valid and covering in every state |
| Honest.HonestDisk | src/file_manager.cpp:90-122 | when offsets fit, such a run, once fully written, leaves exactly the content on disk |
| Honest.HonestDiskIffOffsetsFit | src/file_manager.cpp:36-38 | unless the content ends in a piece of zeros it does so only under the 32-bit guard |
| Counting.HonestStepCounts | src/piece_manager.cpp:34-178 | in an honest run a wanted block leaves one block less missing, and no other event of any peer or of the writer changes how many are |
| Counting.HonestRunCounts | src/piece_manager.cpp:139-141 | in every honest run, of any peers in any order, the missing blocks are all blocks less the wanted ones delivered, and the download is complete iff as many were delivered as there are blocks |
| Completion.CompletableIffBlocksFit | src/piece_manager.cpp:241-256 | a run in which all blocks have the offset and length of requests can complete the download iff the block length divides the piece length or there is one piece |
| Completion.EarlierPieceNeverCompletes | src/piece_manager.cpp:241-256 | when it does not fit, no piece before the last ever completes in such a run, whatever the bytes |
| Completion.LastAnswerIsInvalid | src/piece_manager.cpp:86-100 | because the full answer to the last request of such a piece is refused |
| Recovery.OnePeerCanFinish | src/piece_manager.cpp:34-126 | from every reachable state of every run, whatever other peers left requested and whatever wrong bytes they delivered, calls for one peer that has everything, its answers and writer passes lead to every piece on disk |
| Recovery.ReplyComesCloser | src/piece_manager.cpp:102-126 | the exact answer to a request leaves a block less missing, or sends back a piece that held wrong bytes, and never makes another piece wrong |
| Recovery.SelectTaintsNothing | src/piece_manager.cpp:34-84 | no selection makes a received block of any piece wrong, reused slots included |
| Recovery.WriterCatchesUp | src/file_manager.cpp:90-122 | any run goes on with writer passes until the queue is empty |
| Recovery.FinishedRunExists | src/piece_manager.cpp:34-126 | from the empty client, for any torrent and content, an honest run that ends with every piece completed and written |
| Witnesses.HugeTorrentDoesNotFit | src/file_manager.cpp:36-38 | for any hash, a well-formed torrent of three pieces with content for which the 32-bit guard fails |
| Witnesses.HugeDownloadFails | src/file_manager.cpp:36-38 | for any hash that tells a zero byte from a one, an honest run that finishes this download, with every piece verified and written, and whose last piece on disk fails its hash |
| Seed.RoundProgress | src/piece_manager.cpp:34-126 | asking one honest seed and receiving its answer leaves exactly one block less missing |
| Seed.RoundPossible | src/piece_manager.cpp:34-84 | while a block is missing the seed is asked for one, wherever the probe starts |
| Seed.SeedCompletesDownload | src/piece_manager.cpp:139-141 | one seed completes the download after exactly the sum of all block counts: no run of rounds is longer, it is complete iff that long, and a shorter one can always go on |
| Progress.ServedWithinBound | src/piece_manager.cpp:34-84 | a registered peer that has a buffered piece, or a new piece for which there is room, gets a request within S+1 consecutive calls, S being the BUFFERED pieces without a free block, wherever the probes start |
| Progress.UnservedCallProgresses | src/piece_manager.cpp:64-75 | a call that returns nothing to such a peer has turned one of those S pieces into ALL_REQUESTED, and the peer can still be served |
| Progress.ReclaimYieldsBlock | src/piece_manager.cpp:229-232 | joining an ALL_REQUESTED piece always frees a block to request |
| Progress.NewPieceYieldsBlock | src/piece_manager.cpp:203-210 | adding a piece always yields a block to request |
| PieceManagers.PieceManager.constructor | src/piece_manager.cpp:12-32 | a well-formed torrent with the given lengths, hashes, buffer size and list of files, opened as files of those lengths, in the initial state of the engine, checked with SHA-1 |
| PieceManagers.PieceManager.SelectNextBlock | src/piece_manager.cpp:34-84 | new state and request are the engine's selection for a possible outcome of the probe |
| PieceManagers.PieceManager.ChoosePiece | src/piece_manager.cpp:40-62 | own piece first, then a new one, then a buffered one |
| PieceManagers.PieceManager.RetrieveBlock | src/piece_manager.cpp:64-83 | first free block of the piece marked and asked for; with none left the piece is ALL_REQUESTED and nobody's own |
| PieceManagers.PieceManager.HandleBufferNotFullCase | src/piece_manager.cpp:189-212 | the first not-started piece the peer has enters the buffer as the peer's own; otherwise nothing changes |
| PieceManagers.PieceManager.HandleBufferFullOrNoPieceToAdd | src/piece_manager.cpp:214-239 | a buffered piece the peer has is joined, and one is found iff there is one |
| PieceManagers.Probe | src/piece_manager.cpp:222-236 | the cyclic scan from any start finds a match iff one exists |
| PieceManagers.FindWanted | src/piece_manager.cpp:194-201 | the scan finds the first piece that is not started and that the peer has |
| PieceManagers.PieceManager.CalculateBlockLength | src/piece_manager.cpp:241-256 | the request length used in the tiling theorem |
| PieceManagers.PieceManager.IsValidBlockData | src/piece_manager.cpp:86-100 | exactly the blocks that start inside an existing piece and do not run past its end, with the bounds written out |
| PieceManagers.PieceManager.AddBlock | src/piece_manager.cpp:102-126 | the engine's step for a received block, with no index out of range |
| PieceManagers.PieceManager.FinishPiece | src/piece_manager.cpp:113-125 | a complete piece is saved or restarted and leaves the buffer either way |
| PieceManagers.PieceManager.IsVerifiedPiece | src/piece_manager.cpp:157-164 | true iff the SHA-1 digest of the bytes is the piece's hash |
| PieceManagers.PieceManager.SavePiece | src/piece_manager.cpp:166-171 | the piece is queued at its own position, narrowed by the queue |
| PieceManagers.PieceManager.RemovePieceFromBuffer | src/piece_manager.cpp:173-176 | the slot is freed and every peer bound to the piece released |
| PieceManagers.PieceManager.RemoveAffinity | src/piece_manager.cpp:178-187 | exactly the bindings to that piece are dropped |
| PieceManagers.PieceManager.UpdatePieceFrequencies | src/piece_manager.cpp:143-155 | the peer's bitfield is replaced by the one sent, HAVE exactly where it holds a one; its binding survives |
| PieceManagers.PieceManager.RemovePeer | src/piece_manager.cpp:128-132 | bitfield and binding of the peer are forgotten, its requested blocks stay requested |
| PieceManagers.PieceManager.IsDownloadComplete | src/piece_manager.cpp:139-141 | true iff every piece is COMPLETED |
| PieceManagers.PieceManager.RunWriter | src/file_manager.cpp:90-122 | one loop pass of the writer thread is the engine's writer step |
| Buffers.FreeSlotExists | src/buffer.cpp:30-41 | pigeonhole: the map never outgrows the slots, and a slot is marked empty iff the map is smaller |
| Buffers.SlotMapInjective | src/buffer.cpp:53-54 | two pieces never share a slot |
| Buffers.UpdateSlot | src/buffer.cpp:81-101 | writing one piece's slot changes that piece in the represented map and no other |
| Buffers.TakeSlot | src/buffer.cpp:43-55 | filling a free slot adds one entry to the represented map and changes no other |
| Buffers.FreeSlot | src/buffer.cpp:116-121 | marking a slot empty removes exactly its piece |
| Buffers.Buffer.constructor | src/buffer.cpp:10-18 | represents the empty map |
| Buffers.Buffer.GetPiecesInBuffer | src/buffer.cpp:20-26 | lists each buffered piece once |
| Buffers.Buffer.AddPieceToBuffer | src/buffer.cpp:28-56 | succeeds iff there is room; the piece gets a free slot's old bytes resized, no block received, all other pieces unchanged |
| Buffers.Buffer.GetBlockIndexToRetrieve | src/buffer.cpp:58-79 | the first free block is marked, and the flag says whether none is left after that |
| Buffers.Buffer.WriteBlockToBuffer | src/buffer.cpp:81-101 | the bytes land at the offset, that block is received, completion means all blocks are; other pieces unchanged |
| Buffers.Buffer.ShouldWriteBlock | src/buffer.cpp:103-114 | true iff the piece is buffered and the block not received |
| Buffers.Buffer.RemovePieceFromBuffer | src/buffer.cpp:116-121 | exactly that piece leaves |
| Buffers.Buffer.IsFull | src/buffer.cpp:123 | true iff the represented map has as many entries as there are slots |
| Buffers.Buffer.ClearAllRequested | src/buffer.cpp:125-134 | requested blocks of the piece become free, received ones and bytes stay |
| FileManagers.FileManager.constructor | src/file_manager.cpp:9-28 | one file of the total length without a file list; all files zero; empty queue |
| FileManagers.FileManager.SavePiece | src/file_manager.cpp:36-38 | appends to the queue with the offset modulo 2^32 |
| FileManagers.FileManager.CalculateFilesWriteInfo | src/file_manager.cpp:40-72 | for any file lengths, zero included, the segments are in bounds, consecutive and cover exactly the range |
| FileManagers.FileManager.WriteJob | src/file_manager.cpp:104-113 | the scattered writes equal one write at the flat position, all other bytes unchanged |
| FileManagers.FileManager.FileWriterPass | src/file_manager.cpp:90-122 | goes on iff not stopped and the count is short; writes the oldest job, if any, and counts it |
| FileManagers.WriteInFileIsFlatWrite | src/file_manager.cpp:107-112 | a write inside one file is a write at the flat position of the concatenation |
| FileManagers.FileIsItsRange | src/file_manager.cpp:40-52 | file f is what lies between the sum of the lengths before it and its own end in the concatenation |
| FileManagers.CoversAppend | src/file_manager.cpp:58-69 | a segment that starts where the covered range ends extends it |
| Layout.PiecesPartitionTotal | src/piece_manager.cpp:19-31 | piece ranges are non-empty, adjacent, and end at the total length |
| Layout.PiecesDisjoint | src/piece_manager.cpp:166-171 | ranges of different pieces do not overlap |
| Layout.BlockIndexInRange | src/buffer.cpp:81-106 | every offset that passes validation divides into an existing block |
| Layout.RequestOffsetInRange | src/piece_manager.cpp:77-83 | the offset of every request is inside its piece, so it does not overflow 32 bits |
| Layout.RequestsTileIffBlocksFit | src/piece_manager.cpp:241-256 | the requests of every piece are non-empty, consecutive and end with the piece iff the block length divides the piece length or there is one piece |
| BencodeDecoder.BasicDecode | external/include/bencode.hpp:448-527 | on every input, the value, stop position, or error and its position that the recursive grammar gives, duplicate keys and nesting included; which values those are is said by DecodesIffSpelled |
| BencodeDecoder.DecodeInt | external/include/bencode.hpp:365-384 | an optional minus, digits in the signed 64-bit range, and the closing token, or the first error |
| BencodeDecoder.DecodeStr | external/include/bencode.hpp:435-444 | a length in the unsigned 64-bit range, a colon and that many bytes, or the first error |
| BencodeDecoder.Store | external/include/bencode.hpp:469-486 | the thing becomes the root, the last list item or a new entry under the current key, the pointer returned reaches it, and a taken key is a duplicate; nothing else of a dictionary is lost, see InsertAdds |
| BencodeSpelling.InsertAdds | external/include/bencode.hpp:476-482 | an entry stored under a new key is added to the entries there, and none is lost |
| BencodeSpelling.DecodesIffSpelled | external/include/bencode.hpp:448-527 | decoding at a position gives a value and an end iff the range between them spells it: integers and lengths by their digits within 64 bits, lists item by item, dictionaries by exactly the entries that stand there, in any order and each key once; everything else is rejected |
| BencodeDecoder.TopPointer | external/include/bencode.hpp:461-468 | the pointer on top of the stack reaches the innermost container, and assigning through it changes nothing else of the tree |
| BencodeDecoder.PopResumes | external/include/bencode.hpp:492-495 | closing a container continues the parse of the one outside, or completes the root |
| BencodeDigits.DecodeDigits | external/include/bencode.hpp:318-363 | reads what the specification of bounded digits says, with every intermediate result inside the type |
| BencodeDigits.DigitsExact | external/include/bencode.hpp:318-363 | a run of at most digits10+1 digits is read as its mathematical value iff it fits the type, and is an over- or underflow otherwise, as is every longer run; at most digits10 digits at the end of the input are an end of input error |
| BencodeDigits.CheckOverflowExact | external/include/bencode.hpp:292-299 | fires iff appending the digit exceeds the maximum |
| BencodeDigits.CheckUnderflowExact | external/include/bencode.hpp:301-308 | fires iff appending the digit goes below the minimum, with truncating division |
| BencodeDigits.StandardTypes | external/include/bencode.hpp:326-338 | both types used meet what the unchecked loop relies on |
| BencodeDigits.TextFitsBuffer | external/include/bencode.hpp:645-659 | the printed form of every value of both types fits the buffer |
| BencodeDigits.CanonicalIffReprinted | external/include/bencode.hpp:645-659 | a digit string is what printing its value gives iff it has no leading zero |
| BencodeRoundTrip.ValueRoundTrip | external/include/bencode.hpp:662-716 | wherever the encoding of a value stands in an input, parsing there gives the value and stops after it |
| BencodeRoundTrip.RoundTrip | external/include/bencode.hpp:662-716 | decoding an encoding followed by any suffix gives the value and stops at the suffix |
| BencodeRoundTrip.EncodingIsPrefixFree | external/include/bencode.hpp:662-716 | no encoding is a prefix of that of another value |
| BencodeRoundTrip.EncodesExamples | external/include/bencode.hpp:662-690 | the examples of the bencoding section of BEP 3 are encoded as they stand there |
| BencodeCanonical.CanonicalReencodes | src/parser.cpp:23-28 | what the canonical recogniser accepts parses to a value whose encoding is the input |
| BencodeCanonical.EncodingIsCanonical | external/include/bencode.hpp:662-690 | every encoding is accepted by the recogniser |
| BencodeCanonical.ParsedIsRepresentable | external/include/bencode.hpp:449-527 | a decoded value has integers and lengths in range and strictly sorted keys |
| BencodeCanonical.ReencodesIffCanonical | src/parser.cpp:23-28 | for every input that decodes, encoding gives back the same bytes iff they are canonical |
| BencodeCanonical.StoredReencodesIffCanonical | src/parser.cpp:23-28 | a value stored under a key was decoded from the range of the input right after that key, and its encoding alone is that range iff the range is canonical |
| BencodeCanonical.NotAllIsCanonical | external/include/bencode.hpp:318-384 | an input with a leading zero that decodes and is not reproduced |
| Sha1.Transform | external/include/sha1.hpp:121-221 | the 80 unrolled rounds with rotating roles compute the compression of section 6.1.2 of FIPS 180-4 |
| Sha1.BlkIsNextWord | external/include/sha1.hpp:68-72 | the circular in-place update computes word t of the 80-word schedule and keeps the latest sixteen |
| Sha1.RewrittenFunctions | external/include/sha1.hpp:78-107 | the rewritten Ch and Maj are those of section 4.1.1 |
| Sha1Spec.ConstantsAreSquareRoots | external/include/sha1.hpp:78-115 | the four round constants are 2^30 times the square roots of 2, 3, 5 and 10, rounded down |
| Sha1Spec.InitialHashPattern | external/include/sha1.hpp:53-57 | the initial value follows its pattern of hexadecimal digits, byte by byte |
| Sha1.R0 | external/include/sha1.hpp:78-83 | one round of the first sixteen advances the working variables of the standard |
| Sha1.R1 | external/include/sha1.hpp:85-91 | the same for rounds 16 to 19, extending the schedule in place |
| Sha1.R2 | external/include/sha1.hpp:93-99 | the same for rounds 20 to 39 |
| Sha1.R3 | external/include/sha1.hpp:101-107 | the same for rounds 40 to 59 |
| Sha1.R4 | external/include/sha1.hpp:109-115 | the same for rounds 60 to 79 |
| Sha1.BufferToBlock | external/include/sha1.hpp:223-231 | sixteen big-endian words of the bytes |
| Sha1.Sha1.constructor | external/include/sha1.hpp:233 | an object that has absorbed nothing |
| Sha1.Sha1.Reset | external/include/sha1.hpp:50-62 | the initial hash value of section 5.3.1 and no input |
| Sha1.Sha1.Update | external/include/sha1.hpp:235-253 | absorbs exactly the bytes given, in any chunking |
| Sha1.Sha1.HashPadding | external/include/sha1.hpp:259-283 | the digest is the fold of the compression over the padding of section 5.1.1 |
| Sha1.Sha1.Final | external/include/sha1.hpp:259-296 | prints the digest of everything absorbed and returns to the initial state |
| Sha1.PadInOneBlock | external/include/sha1.hpp:263-283 | marker and length fit in the block of the last bytes |
| Sha1.PadInTwoBlocks | external/include/sha1.hpp:273-283 | they take two blocks otherwise |
| Sha1.TotalBits | external/include/sha1.hpp:260-261 | the wrapping counters give the bit length modulo 2^64 |
| Sha1.DigestOfParts | external/include/sha1.hpp:235-296 | any split of a message into updates prints the digest of the whole |
| Sha1.IsVerified | src/piece_manager.cpp:157-164 | comparing the decoded hexadecimal digest is comparing the digest |
| Hex.HexRoundTrip | include/simpletorrent/Util.h:12-23 | decoding the printed digest gives back its bytes |
| Hex.HexStringAt | external/include/sha1.hpp:285-290 | each byte is printed as its high and then its low lower-case digit |
| Hex.HexDecode | include/simpletorrent/Util.h:12-23 | two digits at a time, the bytes they stand for |
| PeerManagers.GetNextPeerState | include/simpletorrent/StateTransition.h:6-18 | it throws only for DISCONNECTED_2; otherwise it alternates between connected and not, and one transition less is left |
| PeerManagers.RoundKeepsInv | src/peer_manager.cpp:84-119 | a round keeps: an address is connected iff it has a live peer, at most 60 are live, starts match states |
| PeerManagers.LifecycleBounds | src/peer_manager.cpp:52-119 | over all runs of rounds: connected iff live, at most 60 live, no address started more than twice |
| PeerManagers.NoPeersIffExhausted | src/peer_manager.cpp:67-73 | no peer is live after a round iff every address is DISCONNECTED_2 |
| PeerManagers.RoundUsesTransitions | src/peer_manager.cpp:84-119 | the transitions left fall by one for each peer that leaves and each that is started |
| PeerManagers.StartAllExhausts | src/peer_manager.cpp:102-119 | after opening, the cap is reached or no address can be started |
| PeerManagers.StartAllIsGreedy | src/peer_manager.cpp:102-119 | exactly the startable addresses up to some point of the list are started, and that point is the end unless 60 connections are used up there |
| PeerManagers.PeerManager.constructor | src/peer_manager.cpp:11-33 | the first addresses up to the cap are started |
| PeerManagers.PeerManager.CleanupConnections | src/peer_manager.cpp:84-100 | exactly the exited live peers are dropped, unregistered once each and their addresses moved on; no transition throws |
| PeerManagers.PeerManager.TransitionAll | src/peer_manager.cpp:91-97 | each given address moves to its next state, no other does |
| PeerManagers.PeerManager.OpenConnections | src/peer_manager.cpp:102-119 | startable addresses are started in order while there is room |
| PeerManagers.PeerManager.CleanupAndOpenConnections | src/peer_manager.cpp:59-73 | one round; the download is stopped iff nobody is left |
| PeerManagers.Partition | src/peer_manager.cpp:86-88 | a permutation with the peers that have not exited before those that have |
| Peers.ExitedMeansIdle | src/peer.cpp:29-31 | a peer reported as exited has no coroutine left to run, and neither was left by an exception |
| Peers.UnflaggedIsNeverReported | src/peer.cpp:240-249 | after an exception that leaves a coroutine before its flag is set, the exit is never reported, whatever else happens |
| Peers.FailedSenderIsReachable | src/peer.cpp:240-245 | a run that ends with both coroutines stopped after a failed request and the exit not reported |
| Peers.ReportedIffNeverUnflagged | src/peer.cpp:29-102 | once neither coroutine runs, the exit is reported iff no such exception has happened |
| Peers.UnparsableAddressIsReachable | src/peer.cpp:36 | a run that ends before its first suspension with the exit not reported |
| Peers.FieldsAreHistories | src/peer.cpp:201-302 | in every interleaving: choked iff the last choke or unchoke message says so, or none came; told to stop iff a timeout, an error of the sender or the end of the receiver has happened; `received` counts the piece messages of nine bytes or more, `sent` the writes started |
| Peers.WakingIff | src/peer.cpp:236-270 | a waiting sender ends iff told to stop, and goes on to request blocks iff not and the last such message was an unchoke |
| Peers.ChokedSendsNothing | src/peer.cpp:268-270 | from a choked state between calls nothing is sent until the next unchoke message |
| Peers.NothingBeforeUnchoke | src/peer.cpp:268-270 | nothing is ever sent to a peer that has not unchoked |
| Peers.StoppedSendsNothing | src/peer.cpp:236-255 | once told to stop, a sender between calls sends nothing more and its next wake-up is its last |
| Peers.AtMostFiveOutstanding | src/peer.cpp:267-286 | with solicited replies only, at most five requests are outstanding at every point of every interleaving |
| Peers.CounterIsExact | src/peer.cpp:267-302 | then the counter is the number of outstanding requests, one less while a write is suspended, 255 when the reply overtook the write |
| Peers.CounterExactIffSolicited | src/peer.cpp:272-300 | against any peer, at a loop test, the counter is exact iff replies counted do not exceed requests sent, up to 256 |
| Peers.OvertakenSendsNothing | src/peer.cpp:272-300 | in every run, once 1 to 251 more replies were counted than requests sent, no request is sent for as long as they are no more than that |
| Peers.WriteStartsIff | src/peer.cpp:272-282 | at a loop test of any run a write starts iff a block was chosen and requests sent less replies counted is below five modulo 256 |
| Peers.UnsolicitedPieceStalls | src/peer.cpp:288-302 | one unsolicited piece message before the first request reaches the state from which nothing is sent |
| Peers.WrapUp | src/peer.cpp:284-300 | incrementing and decrementing the 8-bit counter is counting modulo 256 |
| Peers.Peer.ReportExited | src/peer.cpp:29-31 | true iff the receiver has ended in its own way and the sender never started or ended in its own |
| Peers.Peer.WakeSender | src/peer.cpp:236-270 | the sender ends iff told to stop, waits again while choked, or reaches the loop test iff neither |
| Peers.Peer.TestLoop | src/peer.cpp:272-282 | a write starts iff the counter is below five and a block was chosen; flags and counter keep telling where the coroutines are and what is outstanding modulo 256 |
| Peers.Peer.HandlePieceMessage | src/peer.cpp:288-302 | payloads of nine bytes or more lower the counter by one modulo 256, shorter ones leave it; it stays what is outstanding modulo 256 |

## Left out

- Sockets, timers, coroutine scheduling, name resolution, trackers and the torrent file parser beyond its bencode decoding: network and plumbing; peer messages are arbitrary events.
- Real files and streams: a file is a sequence of bytes of its final length, zero where nothing was written. The source resizes a file and then reopens it truncated (src/file_manager.cpp:81-86), so until its last bytes are written a real file can be shorter than this; bytes skipped by a seek read as zero.
- The writer's branch for an empty list of files (src/file_manager.cpp:97-102): the constructor always opens at least one file, so it is never taken.
- The lock-free queue: a first-in first-out sequence. Joining the writer thread on destruction is not modelled.
- Iteration order of `unordered_map` and the generator behind the probe: any order and any start, so the results hold for all of them.
- Malformed metadata: lengths are positive, the number of pieces is the rounded-up quotient, the files add up to the total. The parser that produces them is not part of this model.
- Slot numbers are unbounded in `Buffer`, where the source searches with a 32-bit `int`: the buffer size is below 2^31.
- Buffers.Buffer.AddPieceToBuffer: does not model adding a piece that is already in the buffer, which would leave its first slot unreachable; it is only called for pieces that are not started, and the invariant puts those outside the buffer.
- PieceManagers.PieceManager.UpdatePieceFrequencies: does not model a bitfield whose length is not the number of pieces; its one caller passes a vector of exactly that length (src/peer.cpp:257-264, include/simpletorrent/MessageUtil.h:148-151).
- FileManagers.FileManager.WriteJob: does not model a job outside the files, for which the source reads past the list of lengths; every piece queued by `PieceManager` lies in them.
- The calls that unregister exited peers from the piece manager: `CleanupConnections` returns the list of ids, and `RemovePeer` is the engine's step for each.
- The lambda that spawns `peers_.back()->start()` (src/peer_manager.cpp:114-115), and the one over the first peers (src/peer_manager.cpp:37-40), are taken as starting the peer just pushed, or each peer, whenever they run.
- Eventual cleanup of every peer: false, see `UnflaggedIsNeverReported`; when a peer has exited is an input of a round.
- Handshakes, request messages and bitfield bytes, client ids, statistics, logging, the progress bar and signal handling: small or without state of interest.
- BencodeDecoder.DecodeStr: does not model a failing allocation for an absurd length; such a string ends in an end of input error. It models the reader for input iterators; a read at the end sees no digit and no token, as with the stream iterator the parser uses.
- BencodeDecoder.BasicDecode: does not model `data_view`, the boost variants or the reference-counted `map_proxy`; a dictionary is a strictly sorted list of entries, and a character is any `char`, of which bytes are a subset. Pointers on the stack are access paths into the tree.
- Hex.HexDecode: does not model odd-length or non-hexadecimal text, which the verification of pieces never produces.
- Sha1.Sha1.Update: does not model reading from a stream other than one over the given bytes.
- Sha1.Sha1.Final: hashes messages of 2^64 bits and more with the length that the wrapping counters give, as the code does; FIPS 180-4 does not define those.
- PeerManagers.PeerManager.CleanupAndOpenConnections: one pass of the loop; the sleeps and the test whether to continue are not modelled.
