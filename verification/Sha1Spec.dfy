/**
 * SHA-1 as FIPS 180-4 defines it: the functions and constants of sections 4.1.1 and 4.2.1,
 * padding and parsing (5.1.1, 5.2.1), the initial value (5.3.1) and the computation (6.1.2).
 */
module Sha1Spec {
  import opened Bytes

  type word = bv32

  datatype Regs = Regs(a: word, b: word, c: word, d: word, e: word)

  const BLOCK_BYTES: nat := 64

  const INITIAL_HASH := Regs(0x67452301, 0xefcdab89, 0x98badcfe, 0x10325476, 0xc3d2e1f0)

  /** Addition modulo 2^32. */
  function Plus(x: word, y: word): word { x + y }
  function Xor4(x: word, y: word, z: word, u: word): word { x ^ y ^ z ^ u }

  function Rotl(x: word, n: nat): word
    requires 0 < n < 32
  {
    (x << n) | (x >> (32 - n))
  }

  function Ch(x: word, y: word, z: word): word { (x & y) ^ (!x & z) }
  function Parity(x: word, y: word, z: word): word { x ^ y ^ z }
  function Maj(x: word, y: word, z: word): word { (x & y) ^ (x & z) ^ (y & z) }

  function F(t: nat, x: word, y: word, z: word): word {
    if t < 20 then Ch(x, y, z)
    else if t < 40 then Parity(x, y, z)
    else if t < 60 then Maj(x, y, z)
    else Parity(x, y, z)
  }

  function K(t: nat): word {
    if t < 20 then 0x5a827999
    else if t < 40 then 0x6ed9eba1
    else if t < 60 then 0x8f1bbcdc
    else 0xca62c1d6
  }

  /** The constants are 2^30 times the square roots of 2, 3, 5 and 10, rounded down. */
  lemma ConstantsAreSquareRoots(t: nat)
    ensures var n := if t < 20 then 2 else if t < 40 then 3 else if t < 60 then 5 else 10;
      var k := K(t) as nat;
      k * k <= n * 0x1000_0000_0000_0000 < (k + 1) * (k + 1)
  {
  }

  /** Byte `j` of a word, least significant first. */
  function LowByte(w: word, j: nat): nat
    requires j < 4
  {
    if j == 0 then (w & 0xff) as nat else if j == 1 then ((w >> 8) & 0xff) as nat
    else if j == 2 then ((w >> 16) & 0xff) as nat else ((w >> 24) & 0xff) as nat
  }

  /**
   * The initial value, least significant bytes first, counts its hexadecimal digits up from 0 to
   * f, back down, and then up and down at once.
   */
  lemma InitialHashPattern(j: nat)
    requires j < 4
    ensures LowByte(INITIAL_HASH.a, j) == 0x01 + 0x22 * j && LowByte(INITIAL_HASH.b, j) == 0x89 + 0x22 * j
    ensures LowByte(INITIAL_HASH.c, j) == 0xfe - 0x22 * j && LowByte(INITIAL_HASH.d, j) == 0x76 - 0x22 * j
    ensures LowByte(INITIAL_HASH.e, j) == 0xf0 - 0x0f * j
  {
  }

  /** The message schedule of 80 words. */
  function W(m: seq<word>, t: nat): word
    requires |m| == 16
  {
    if t < 16 then m[t]
    else Rotl(Xor4(W(m, t - 3), W(m, t - 8), W(m, t - 14), W(m, t - 16)), 1)
  }

  /** The word called T in the standard. */
  function Temp(t: nat, r: Regs, w: word): word {
    Plus(Plus(Plus(Plus(Rotl(r.a, 5), F(t, r.b, r.c, r.d)), r.e), K(t)), w)
  }

  function Round(t: nat, r: Regs, w: word): Regs {
    Regs(Temp(t, r, w), r.a, Rotl(r.b, 30), r.c, r.d)
  }

  /** The working variables after the first `t` rounds. */
  function Vars(h: Regs, m: seq<word>, t: nat): Regs
    requires |m| == 16
  {
    if t == 0 then h else Round(t - 1, Vars(h, m, t - 1), W(m, t - 1))
  }

  function AddRegs(h: Regs, v: Regs): Regs {
    Regs(Plus(h.a, v.a), Plus(h.b, v.b), Plus(h.c, v.c), Plus(h.d, v.d), Plus(h.e, v.e))
  }

  function Compress(h: Regs, m: seq<word>): Regs
    requires |m| == 16
  {
    AddRegs(h, Vars(h, m, 80))
  }

  /** Four bytes as a word, most significant first. */
  function WordAt(b: seq<byte>, i: nat): word
    requires 4 * i + 4 <= |b|
  {
    (b[4 * i] as word << 24) | (b[4 * i + 1] as word << 16) | (b[4 * i + 2] as word << 8) | b[4 * i + 3] as word
  }

  /** A 64-byte block parsed into sixteen words. */
  function BlockWords(b: seq<byte>): (r: seq<word>)
    requires |b| == BLOCK_BYTES
    ensures |r| == 16 && forall i :: 0 <= i < 16 ==> r[i] == WordAt(b, i)
  {
    seq(16, i requires 0 <= i < 16 => WordAt(b, i))
  }

  /** The intermediate hash value after all the whole blocks in `data`. */
  function HashBlocks(data: seq<byte>): Regs
    requires |data| % BLOCK_BYTES == 0
  {
    if data == [] then INITIAL_HASH
    else
      var before := |data| - BLOCK_BYTES;
      Compress(HashBlocks(data[..before]), BlockWords(data[before..]))
  }

  /** A 64-bit number as eight bytes, most significant first. */
  function LengthBytes(l: bv64): (r: seq<byte>)
    ensures |r| == 8
  {
    [((l >> 56) & 0xff) as byte, ((l >> 48) & 0xff) as byte, ((l >> 40) & 0xff) as byte, ((l >> 32) & 0xff) as byte,
     ((l >> 24) & 0xff) as byte, ((l >> 16) & 0xff) as byte, ((l >> 8) & 0xff) as byte, (l & 0xff) as byte]
  }

  /** The length of a message in bits; messages below 2^64 bits are those the standard covers. */
  function BitLength(msg: seq<byte>): bv64 {
    (|msg| * 8 % 0x1_0000_0000_0000_0000) as bv64
  }

  /** The fewest zero bytes that, after the one bit's byte, leave room for the length. */
  function ZeroCount(n: nat): (k: nat)
    ensures (n + 1 + k + 8) % BLOCK_BYTES == 0 && k < BLOCK_BYTES
  {
    (119 - n % BLOCK_BYTES) % BLOCK_BYTES
  }

  /** A one bit, the fewest zero bits that leave room for the length, and the length. */
  function Pad(msg: seq<byte>): (r: seq<byte>)
    ensures |r| % BLOCK_BYTES == 0
  {
    hide BitLength, LengthBytes;
    msg + [0x80] + Zeros(ZeroCount(|msg|)) + LengthBytes(BitLength(msg))
  }

  function WordBytes(w: word): (r: seq<byte>)
    ensures |r| == 4
  {
    [((w >> 24) & 0xff) as byte, ((w >> 16) & 0xff) as byte, ((w >> 8) & 0xff) as byte, (w & 0xff) as byte]
  }

  function RegsBytes(r: Regs): (b: seq<byte>)
    ensures |b| == 20
  {
    WordBytes(r.a) + WordBytes(r.b) + WordBytes(r.c) + WordBytes(r.d) + WordBytes(r.e)
  }

  /** The message digest. */
  function Digest(msg: seq<byte>): seq<byte> {
    RegsBytes(HashBlocks(Pad(msg)))
  }
}
