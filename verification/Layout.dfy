/**
 * Where pieces and blocks lie: the arithmetic of the PieceManager constructor and of
 * `calculate_block_length` (src/piece_manager.cpp).
 */
module Layout {
  import opened Bytes

  /** What the PieceManager constructor computes for each piece (`PieceMetadata`). */
  datatype PieceMetadata = PieceMetadata(hash: seq<byte>, length: nat, numBlocks: nat)

  /** The length of piece `i`: the last piece is shorter unless the piece length divides the total. */
  function CurrentPieceLength(pieceLength: nat, totalLength: nat, numPieces: nat, i: nat): nat
    requires pieceLength > 0
  {
    var last := totalLength % pieceLength;
    if i == numPieces - 1 && last != 0 then last else pieceLength
  }

  function CeilDiv(x: nat, d: nat): nat
    requires d > 0
  {
    (x + d - 1) / d
  }

  /**
   * A torrent as the client lays it out. `hash` is the digest a piece is checked with; the
   * theorems about runs hold for any such function.
   */
  datatype Torrent = Torrent(
    pieceLength: nat,
    totalLength: nat,
    blockLength: nat,
    bufferSize: nat,
    files: seq<nat>,
    pieces: seq<PieceMetadata>,
    hash: seq<byte> -> seq<byte>)
  {
    function NumPieces(): nat { |pieces| }

    /** Without a file list there is one file of the total length. */
    function FileLengths(): seq<nat> { if files == [] then [totalLength] else files }

    ghost predicate WellFormed() {
      && 0 < pieceLength < 0x1_0000_0000
      && 0 < blockLength < 0x1_0000_0000
      && 0 < totalLength
      && 0 < NumPieces() < 0x1_0000_0000
      && Sum(FileLengths()) == totalLength
      && bufferSize < 0x8000_0000
      && (forall i: nat :: i < NumPieces() ==> LaidOut(i))
    }

    /** The number of pieces matches the total, and piece `i` has the length and blocks due to it. */
    ghost predicate LaidOut(i: nat)
      requires pieceLength > 0 && blockLength > 0 && i < NumPieces()
    {
      && NumPieces() == CeilDiv(totalLength, pieceLength)
      && pieces[i].length == CurrentPieceLength(pieceLength, totalLength, NumPieces(), i)
      && pieces[i].numBlocks == CeilDiv(pieces[i].length, blockLength)
    }

    /** Flat position of a piece, computed in 64 bits. */
    function PieceOffset(i: nat): nat { i * pieceLength }

    function PieceLength(i: nat): nat
      requires i < NumPieces()
    {
      pieces[i].length
    }

    function NumBlocks(i: nat): nat
      requires i < NumPieces()
    {
      pieces[i].numBlocks
    }

    /** The length asked for in a request: only the last piece's last block is shortened. */
    function RequestLength(i: nat, b: nat): nat
      requires blockLength > 0 && i < NumPieces()
    {
      if i == NumPieces() - 1 then
        if b < PieceLength(i) / blockLength then blockLength else PieceLength(i) % blockLength
      else
        blockLength
    }

    /** The requests of piece `i` are non-empty, follow one another and end where the piece ends. */
    ghost predicate RequestsTile(i: nat)
      requires blockLength > 0 && i < NumPieces()
    {
      forall b: nat :: b < NumBlocks(i) ==>
        && RequestLength(i, b) > 0
        && b * blockLength + RequestLength(i, b)
           == if b + 1 < NumBlocks(i) then (b + 1) * blockLength else PieceLength(i)
    }

    /** The condition on the client's block length under which requests fit every piece. */
    predicate BlocksFit()
      requires blockLength > 0
    {
      pieceLength % blockLength == 0 || NumPieces() == 1
    }
  }

  lemma CeilDivBounds(x: nat, d: nat)
    requires d > 0
    ensures var q := CeilDiv(x, d);
      && q * d >= x
      && (x > 0 ==> q > 0 && (q - 1) * d < x)
  {
  }

  lemma DivMod(x: nat, d: nat)
    requires d > 0
    ensures x == (x / d) * d + x % d && 0 <= x % d < d
  {
  }

  lemma MulStrict(a: nat, b: nat, d: nat)
    requires a < b
    ensures a * d + d <= b * d && (a + 1) * d == a * d + d
  {
    var k: nat := b - a - 1;
    assert b * d == (a + 1 + k) * d == (a + 1) * d + k * d;
    assert k * d >= 0;
  }

  /** The quotient is the one multiple of `d` that brackets `x`. */
  lemma QuotientIs(x: nat, d: nat, q: nat)
    requires q * d <= x < q * d + d
    ensures x / d == q && x % d == x - q * d
  {
    DivMod(x, d);
    if x / d < q { MulStrict(x / d, q, d); }
    if q < x / d { MulStrict(q, x / d, d); }
  }

  /** The remainder of the total by the piece length is what sticks out of the last full piece. */
  lemma LastPieceArithmetic(x: nat, l: nat, n: nat)
    requires x > 0 && l > 0 && n == CeilDiv(x, l)
    ensures n > 0 && (n - 1) * l + (if x % l != 0 then x % l else l) == x
  {
    CeilDivBounds(x, l);
    MulStrict(n - 1, n, l);
    QuotientIs(x, l, if x < n * l then n - 1 else n);
  }

  /** Piece ranges are non-empty, adjacent, and the last one ends at the total length. */
  lemma PiecesPartitionTotal(t: Torrent, i: nat)
    requires t.WellFormed() && i < t.NumPieces()
    ensures 0 < t.PieceLength(i) <= t.pieceLength
    ensures t.PieceOffset(i) + t.PieceLength(i)
      == if i + 1 < t.NumPieces() then t.PieceOffset(i + 1) else t.totalLength
    ensures t.PieceOffset(i) + t.PieceLength(i) <= t.totalLength
  {
    var n, l, x := t.NumPieces(), t.pieceLength, t.totalLength;
    assert t.LaidOut(i);
    LastPieceArithmetic(x, l, n);
    DivMod(x, l);
    MulStrict(i, i + 1, l);
    if i + 1 < n - 1 { MulStrict(i + 1, n - 1, l); }
  }

  /** Different pieces occupy disjoint ranges. */
  lemma PiecesDisjoint(t: Torrent, i: nat, j: nat)
    requires t.WellFormed() && i < j < t.NumPieces()
    ensures t.PieceOffset(i) + t.PieceLength(i) <= t.PieceOffset(j)
  {
    PiecesPartitionTotal(t, i);
    MulStrict(i, j, t.pieceLength);
  }

  /** Every byte offset of a piece falls into one of its blocks. */
  lemma BlockIndexInRange(t: Torrent, i: nat, offset: nat)
    requires t.WellFormed() && i < t.NumPieces() && offset < t.PieceLength(i)
    ensures offset / t.blockLength < t.NumBlocks(i)
  {
    var q, b := offset / t.blockLength, t.blockLength;
    assert t.LaidOut(i);
    DivMod(offset, b);
    CeilDivBounds(t.PieceLength(i), b);
    if q >= t.NumBlocks(i) {
      if q > t.NumBlocks(i) { MulStrict(t.NumBlocks(i), q, b); }
      assert false;
    }
  }

  function BlockIndex(t: Torrent, i: nat, offset: nat): (r: nat)
    requires t.WellFormed() && i < t.NumPieces() && offset < t.PieceLength(i)
    ensures r < t.NumBlocks(i)
  {
    BlockIndexInRange(t, i, offset);
    offset / t.blockLength
  }

  /** A request's offset is inside the piece, so the 32-bit product of the source does not wrap. */
  lemma RequestOffsetInRange(t: Torrent, i: nat, b: nat)
    requires t.WellFormed() && i < t.NumPieces() && b < t.NumBlocks(i)
    ensures b * t.blockLength < t.PieceLength(i) < 0x1_0000_0000
    ensures (b * t.blockLength) / t.blockLength == b
  {
    PiecesPartitionTotal(t, i);
    assert t.LaidOut(i);
    CeilDivBounds(t.PieceLength(i), t.blockLength);
    if b < t.NumBlocks(i) - 1 { MulStrict(b, t.NumBlocks(i) - 1, t.blockLength); }
    QuotientIs(b * t.blockLength, t.blockLength, b);
  }

  lemma AtLeastOneBlock(t: Torrent, i: nat)
    requires t.WellFormed() && i < t.NumPieces()
    ensures t.NumBlocks(i) > 0
  {
    PiecesPartitionTotal(t, i);
    assert t.LaidOut(i);
    CeilDivBounds(t.PieceLength(i), t.blockLength);
  }

  /** The last piece's requests always tile it. */
  lemma LastPieceTiles(t: Torrent)
    requires t.WellFormed()
    ensures t.RequestsTile(t.NumPieces() - 1)
  {
    var i := t.NumPieces() - 1;
    assert t.LaidOut(i);
    PiecesPartitionTotal(t, i);
    forall b: nat | b < t.NumBlocks(i)
      ensures t.RequestLength(i, b) > 0
      ensures b * t.blockLength + t.RequestLength(i, b)
        == if b + 1 < t.NumBlocks(i) then (b + 1) * t.blockLength else t.PieceLength(i)
    {
      LastBlockArithmetic(t.PieceLength(i), t.blockLength, b);
    }
  }

  lemma LastBlockArithmetic(len: nat, d: nat, b: nat)
    requires d > 0 && len > 0 && b < CeilDiv(len, d)
    ensures var nb := CeilDiv(len, d); var r := if b < len / d then d else len % d;
      r > 0 && b * d + r == if b + 1 < nb then (b + 1) * d else len
  {
    var nb, q := CeilDiv(len, d), len / d;
    CeilDivBounds(len, d);
    DivMod(len, d);
    assert (b + 1) * d == b * d + d;
    if q < nb - 1 { MulStrict(q, nb - 1, d); }
    if q > nb { MulStrict(nb, q, d); }
    assert nb * d == (nb - 1) * d + d;
    if b < nb - 1 {
    } else if b < q {
      assert q == nb;
    } else {
      assert b == q == nb - 1;
    }
  }

  /** A piece before the last is tiled exactly when the block length divides the piece length. */
  lemma EarlierPieceTiles(t: Torrent, i: nat)
    requires t.WellFormed() && i + 1 < t.NumPieces()
    ensures t.RequestsTile(i) <==> t.pieceLength % t.blockLength == 0
  {
    var d, len := t.blockLength, t.pieceLength;
    assert t.LaidOut(i);
    assert t.PieceLength(i) == len;
    AtLeastOneBlock(t, i);
    DivMod(len, d);
    if len % d == 0 {
      forall b: nat | b < t.NumBlocks(i)
        ensures t.RequestLength(i, b) > 0
        ensures b * d + t.RequestLength(i, b) == if b + 1 < t.NumBlocks(i) then (b + 1) * d else len
      {
        LastBlockArithmetic(len, d, b);
      }
    } else {
      var b := t.NumBlocks(i) - 1;
      LastBlockArithmetic(len, d, b);
      assert b * d + (if b < len / d then d else len % d) == len;
      if b < len / d { MulStrict(b, len / d, d); }
      assert b * d + t.RequestLength(i, b) != len;
    }
  }

  /**
   * The requests of every piece tile it if and only if the block length divides the piece
   * length or there is a single piece.
   */
  lemma RequestsTileIffBlocksFit(t: Torrent)
    requires t.WellFormed()
    ensures (forall i: nat :: i < t.NumPieces() ==> t.RequestsTile(i)) <==> t.BlocksFit()
  {
    LastPieceTiles(t);
    if t.BlocksFit() {
      forall i: nat | i < t.NumPieces() ensures t.RequestsTile(i) {
        if i + 1 < t.NumPieces() { EarlierPieceTiles(t, i); }
      }
    } else {
      EarlierPieceTiles(t, 0);
      assert !t.RequestsTile(0);
    }
  }
}
