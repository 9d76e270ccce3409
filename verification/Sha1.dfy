/** external/include/sha1.hpp: unrolled compression with an in-place schedule, and streaming. */
module Sha1 {
  import opened Bytes
  import opened Sha1Spec
  import opened Hex

  const UINT64_LIMIT: nat := 0x1_0000_0000_0000_0000

  /** The next schedule word, computed from the sixteen held in the circular block. */
  function Blk(block: seq<word>, i: nat): word
    requires |block| == 16 && i < 16
  {
    Rotl(Xor4(block[(i + 13) % 16], block[(i + 8) % 16], block[(i + 2) % 16], block[i]), 1)
  }

  /** The latest schedule index below `max(t, 16)` that is congruent to `j` modulo 16. */
  function Latest(t: nat, j: nat): (u: nat)
    requires j < 16
  {
    if t <= 16 || t < j + 1 then j else j + (t - 1 - j) / 16 * 16
  }

  lemma LatestBefore(t: nat, d: nat)
    requires 16 <= t && 1 <= d <= 16
    ensures Latest(t, (t - d) % 16) == t - d
  {
  }

  lemma LatestStep(t: nat, j: nat)
    requires j < 16
    ensures Latest(t + 1, j) == if t >= 16 && t % 16 == j then t else Latest(t, j)
  {
  }

  /** The block before round `t`: the sixteen latest schedule words, word `u` at `u % 16`. */
  function Circular(m: seq<word>, t: nat): (r: seq<word>)
    requires |m| == 16
    ensures |r| == 16
  {
    seq(16, j requires 0 <= j < 16 => W(m, Latest(t, j)))
  }

  lemma ScheduleStart(m: seq<word>, t: nat)
    requires |m| == 16 && t < 16
    ensures W(m, t) == m[t]
  {
  }

  lemma ScheduleStep(m: seq<word>, t: nat)
    requires |m| == 16 && t >= 16
    ensures W(m, t) == Rotl(Xor4(W(m, t - 3), W(m, t - 8), W(m, t - 14), W(m, t - 16)), 1)
  {
    hide Rotl, Xor4;
  }

  lemma CircularAt(m: seq<word>, t: nat, d: nat)
    requires |m| == 16 && 16 <= t && 1 <= d <= 16
    ensures Circular(m, t)[(t - d) % 16] == W(m, t - d)
  {
    hide W;
    LatestBefore(t, d);
  }

  lemma CircularStep(m: seq<word>, t: nat, next: nat)
    requires |m| == 16 && t >= 16 && next == t + 1
    ensures Circular(m, t)[t % 16 := W(m, t)] == Circular(m, next)
  {
    hide W, Latest;
    var b := Circular(m, t)[t % 16 := W(m, t)];
    forall j | 0 <= j < 16 ensures b[j] == Circular(m, next)[j] {
      LatestStep(t, j);
    }
  }

  lemma CircularIndex(t: nat, d: nat)
    requires 1 <= d <= 16 <= t
    ensures (t % 16 + (16 - d)) % 16 == (t - d) % 16
  {
    var q, i := t / 16, t % 16;
    assert t - d == 16 * (q - 1) + (i + (16 - d));
  }

  /** The word `d` rounds back, as the code finds it from the place of the current one. */
  lemma CircularWord(m: seq<word>, t: nat, d: nat)
    requires |m| == 16 && 1 <= d <= 16 <= t
    ensures Circular(m, t)[(t % 16 + (16 - d)) % 16] == W(m, t - d)
  {
    hide W, Circular;
    CircularAt(m, t, d);
    CircularIndex(t, d);
  }

  lemma CircularWords(m: seq<word>, t: nat, block: seq<word>, i: nat)
    requires |m| == 16 <= t && block == Circular(m, t) && i == t % 16
    ensures block[(i + 13) % 16] == W(m, t - 3) && block[(i + 8) % 16] == W(m, t - 8)
    ensures block[(i + 2) % 16] == W(m, t - 14) && block[i] == W(m, t - 16)
  {
    hide W, Circular;
    CircularWord(m, t, 3);
    CircularWord(m, t, 8);
    CircularWord(m, t, 14);
    CircularWord(m, t, 16);
  }

  lemma BlkOfWords(m: seq<word>, t: nat, block: seq<word>, i: nat)
    requires |m| == 16 <= t && block == Circular(m, t) && i == t % 16
    ensures Blk(block, i) == Rotl(Xor4(W(m, t - 3), W(m, t - 8), W(m, t - 14), W(m, t - 16)), 1)
  {
    hide W, Circular, Rotl, Xor4;
    CircularWords(m, t, block, i);
  }

  /** The circular update computes the next word of the schedule, in place. */
  lemma BlkIsNextWord(m: seq<word>, t: nat)
    requires |m| == 16 && t >= 16
    ensures Blk(Circular(m, t), t % 16) == W(m, t)
    ensures Circular(m, t)[t % 16 := W(m, t)] == Circular(m, t + 1)
  {
    hide W, Circular, Rotl, Blk, Xor4;
    CircularStep(m, t, t + 1);
    BlkOfWords(m, t, Circular(m, t), t % 16);
    ScheduleStep(m, t);
  }

  lemma CircularBeforeSchedule(m: seq<word>, t: nat)
    requires |m| == 16 && t <= 16
    ensures Circular(m, t) == m
  {
    hide W;
    forall j | 0 <= j < 16 ensures Circular(m, t)[j] == m[j] {
      ScheduleStart(m, j);
    }
  }

  /** The forms of Ch and Maj used by the code are those of section 4.1.1. */
  lemma RewrittenFunctions(w: word, x: word, y: word)
    ensures (w & (x ^ y)) ^ y == Ch(w, x, y)
    ensures ((w | x) & y) | (w & x) == Maj(w, x, y)
  {
  }

  /**
   * `v, w, x, y, z` play the roles of the working variables `a, b, c, d, e` of round `t`: the
   * next round sees `z', v, w', x, y`. One such contract serves all five kinds of step.
   */
  ghost predicate InRound(block: seq<word>, h: Regs, m: seq<word>, t: nat,
                          v: word, w: word, x: word, y: word, z: word)
    requires |m| == 16
  {
    block == Circular(m, t) && Vars(h, m, t) == Regs(v, w, x, y, z)
  }

  lemma VarsStep(h: Regs, m: seq<word>, t: nat)
    requires |m| == 16
    ensures Vars(h, m, t + 1) == Round(t, Vars(h, m, t), W(m, t))
  {
    hide W, Round, Temp, Rotl;
  }

  lemma PlusCommutes(x: word, y: word)
    ensures Plus(x, y) == Plus(y, x)
  {
  }

  lemma PlusAssociates(x: word, y: word, z: word)
    ensures Plus(Plus(x, y), z) == Plus(x, Plus(y, z))
  {
    calc {
      Plus(Plus(x, y), z);
      Plus(x + y, z);
      x + y + z;
      x + (y + z);
      Plus(x, y + z);
      Plus(x, Plus(y, z));
    }
  }

  lemma SumOrder(r: word, f: word, z: word, k: word, s: word)
    ensures Plus(z, Plus(Plus(Plus(f, s), k), r)) == Plus(Plus(Plus(Plus(r, f), z), k), s)
  {
    hide Plus;
    var rf, fs := Plus(r, f), Plus(f, s);
    PlusCommutes(Plus(fs, k), r);
    PlusAssociates(r, fs, k);
    PlusAssociates(r, f, s);
    PlusAssociates(z, Plus(rf, s), k);
    PlusAssociates(z, rf, s);
    PlusCommutes(z, rf);
    var q := Plus(rf, z);
    PlusAssociates(q, s, k);
    PlusCommutes(s, k);
    PlusAssociates(q, k, s);
  }

  /** The order in which the code adds the five words does not matter. */
  lemma TempIs(t: nat, r: Regs, f: word, s: word, k: word)
    requires f == F(t, r.b, r.c, r.d) && k == K(t)
    ensures Plus(r.e, Plus(Plus(Plus(f, s), k), Rotl(r.a, 5))) == Temp(t, r, s)
  {
    hide F, K, Rotl, Plus;
    SumOrder(Rotl(r.a, 5), f, r.e, k, s);
  }

  lemma RoundStep(h: Regs, m: seq<word>, t: nat, v: word, w: word, x: word, y: word, z: word)
    requires |m| == 16 && Vars(h, m, t) == Regs(v, w, x, y, z)
    ensures Vars(h, m, t + 1) == Regs(Temp(t, Regs(v, w, x, y, z), W(m, t)), v, Rotl(w, 30), x, y)
  {
    hide W, Vars, Temp, Rotl;
    VarsStep(h, m, t);
  }

  method R0(block: array<word>, v: word, w: word, x: word, y: word, z: word, i: nat,
            ghost h: Regs, ghost m: seq<word>, ghost t: nat) returns (w': word, z': word)
    requires block.Length == 16 && |m| == 16 && t < 16 && i == t % 16
    requires InRound(block[..], h, m, t, v, w, x, y, z)
    ensures InRound(block[..], h, m, t + 1, z', v, w', x, y)
  {
    hide W, Circular, Vars, Rotl, Plus, Temp;
    CircularBeforeSchedule(m, t);
    CircularBeforeSchedule(m, t + 1);
    ScheduleStart(m, t);
    RewrittenFunctions(w, x, y);
    var f := ((w & (x ^ y)) ^ y);
    TempIs(t, Regs(v, w, x, y, z), f, block[i], 0x5a827999);
    z' := Plus(z, Plus(Plus(Plus(f, block[i]), 0x5a827999), Rotl(v, 5)));
    w' := Rotl(w, 30);
    RoundStep(h, m, t, v, w, x, y, z);
  }

  method R1(block: array<word>, v: word, w: word, x: word, y: word, z: word, i: nat,
            ghost h: Regs, ghost m: seq<word>, ghost t: nat) returns (w': word, z': word)
    requires block.Length == 16 && |m| == 16 && 16 <= t < 20 && i == t % 16
    requires InRound(block[..], h, m, t, v, w, x, y, z)
    modifies block
    ensures InRound(block[..], h, m, t + 1, z', v, w', x, y)
  {
    hide W, Circular, Vars, Blk, Rotl, Plus, Temp;
    ghost var before := block[..];
    BlkIsNextWord(m, t);
    block[i] := Blk(block[..], i);
    assert block[..] == before[i := W(m, t)];
    RewrittenFunctions(w, x, y);
    var f := ((w & (x ^ y)) ^ y);
    TempIs(t, Regs(v, w, x, y, z), f, block[i], 0x5a827999);
    z' := Plus(z, Plus(Plus(Plus(f, block[i]), 0x5a827999), Rotl(v, 5)));
    w' := Rotl(w, 30);
    RoundStep(h, m, t, v, w, x, y, z);
  }

  method R2(block: array<word>, v: word, w: word, x: word, y: word, z: word, i: nat,
            ghost h: Regs, ghost m: seq<word>, ghost t: nat) returns (w': word, z': word)
    requires block.Length == 16 && |m| == 16 && 20 <= t < 40 && i == t % 16
    requires InRound(block[..], h, m, t, v, w, x, y, z)
    modifies block
    ensures InRound(block[..], h, m, t + 1, z', v, w', x, y)
  {
    hide W, Circular, Vars, Blk, Rotl, Plus, Temp;
    ghost var before := block[..];
    BlkIsNextWord(m, t);
    block[i] := Blk(block[..], i);
    assert block[..] == before[i := W(m, t)];
    var f := (w ^ x ^ y);
    TempIs(t, Regs(v, w, x, y, z), f, block[i], 0x6ed9eba1);
    z' := Plus(z, Plus(Plus(Plus(f, block[i]), 0x6ed9eba1), Rotl(v, 5)));
    w' := Rotl(w, 30);
    RoundStep(h, m, t, v, w, x, y, z);
  }

  method R3(block: array<word>, v: word, w: word, x: word, y: word, z: word, i: nat,
            ghost h: Regs, ghost m: seq<word>, ghost t: nat) returns (w': word, z': word)
    requires block.Length == 16 && |m| == 16 && 40 <= t < 60 && i == t % 16
    requires InRound(block[..], h, m, t, v, w, x, y, z)
    modifies block
    ensures InRound(block[..], h, m, t + 1, z', v, w', x, y)
  {
    hide W, Circular, Vars, Blk, Rotl, Plus, Temp;
    ghost var before := block[..];
    BlkIsNextWord(m, t);
    block[i] := Blk(block[..], i);
    assert block[..] == before[i := W(m, t)];
    RewrittenFunctions(w, x, y);
    var f := (((w | x) & y) | (w & x));
    TempIs(t, Regs(v, w, x, y, z), f, block[i], 0x8f1bbcdc);
    z' := Plus(z, Plus(Plus(Plus(f, block[i]), 0x8f1bbcdc), Rotl(v, 5)));
    w' := Rotl(w, 30);
    RoundStep(h, m, t, v, w, x, y, z);
  }

  method R4(block: array<word>, v: word, w: word, x: word, y: word, z: word, i: nat,
            ghost h: Regs, ghost m: seq<word>, ghost t: nat) returns (w': word, z': word)
    requires block.Length == 16 && |m| == 16 && 60 <= t < 80 && i == t % 16
    requires InRound(block[..], h, m, t, v, w, x, y, z)
    modifies block
    ensures InRound(block[..], h, m, t + 1, z', v, w', x, y)
  {
    hide W, Circular, Vars, Blk, Rotl, Plus, Temp;
    ghost var before := block[..];
    BlkIsNextWord(m, t);
    block[i] := Blk(block[..], i);
    assert block[..] == before[i := W(m, t)];
    var f := (w ^ x ^ y);
    TempIs(t, Regs(v, w, x, y, z), f, block[i], 0xca62c1d6);
    z' := Plus(z, Plus(Plus(Plus(f, block[i]), 0xca62c1d6), Rotl(v, 5)));
    w' := Rotl(w, 30);
    RoundStep(h, m, t, v, w, x, y, z);
  }

  lemma RoundsBegin(h: Regs, m: seq<word>)
    requires |m| == 16
    ensures InRound(m, h, m, 0, h.a, h.b, h.c, h.d, h.e)
  {
    CircularBeforeSchedule(m, 0);
  }

  lemma RoundsEnd(block: seq<word>, h: Regs, m: seq<word>, a: word, b: word, c: word, d: word, e: word)
    requires |m| == 16 && InRound(block, h, m, 80, a, b, c, d, e)
    ensures Compress(h, m) == Regs(Plus(h.a, a), Plus(h.b, b), Plus(h.c, c), Plus(h.d, d), Plus(h.e, e))
  {
    hide Vars, Plus, Circular;
  }

  /** Hashes one block: the digest becomes what section 6.1.2 computes from it and the block. */
  method Transform(digest: array<word>, block: array<word>, transforms: nat) returns (transforms': nat)
    requires digest.Length == 5 && block.Length == 16 && digest != block
    modifies digest, block
    ensures DigestRegs(digest[..]) == Compress(DigestRegs(old(digest[..])), old(block[..]))
    ensures transforms' == (transforms + 1) % UINT64_LIMIT
  {
    var a, b, c, d, e := digest[0], digest[1], digest[2], digest[3], digest[4];
    ghost var h, m := DigestRegs(digest[..]), block[..];
    hide W, Circular, Vars, Rotl, Plus, Temp, InRound, Compress;
    RoundsBegin(h, m);
    a, b, c, d, e := FirstRounds(block, a, b, c, d, e, h, m);
    a, b, c, d, e := SecondRounds(block, a, b, c, d, e, h, m);
    a, b, c, d, e := ThirdRounds(block, a, b, c, d, e, h, m);
    a, b, c, d, e := FourthRounds(block, a, b, c, d, e, h, m);
    RoundsEnd(block[..], h, m, a, b, c, d, e);

    digest[0] := Plus(digest[0], a);
    digest[1] := Plus(digest[1], b);
    digest[2] := Plus(digest[2], c);
    digest[3] := Plus(digest[3], d);
    digest[4] := Plus(digest[4], e);

    transforms' := (transforms + 1) % UINT64_LIMIT;
  }

  /** The five digest words as registers. */
  function DigestRegs(d: seq<word>): Regs
    requires |d| == 5
  {
    Regs(d[0], d[1], d[2], d[3], d[4])
  }

  /** The 80 unrolled rounds, twenty at a time; the roles of the variables rotate. */
  method FirstRounds(block: array<word>, a0: word, b0: word, c0: word, d0: word, e0: word,
                     ghost h: Regs, ghost m: seq<word>)
    returns (a: word, b: word, c: word, d: word, e: word)
    requires block.Length == 16 && |m| == 16
    requires InRound(block[..], h, m, 0, a0, b0, c0, d0, e0)
    modifies block
    ensures InRound(block[..], h, m, 20, a, b, c, d, e)
  {
    hide InRound, Vars, W, Circular, Rotl, Plus, Temp;
    a, b, c, d, e := a0, b0, c0, d0, e0;
    b, e := R0(block, a, b, c, d, e, 0, h, m, 0);
    a, d := R0(block, e, a, b, c, d, 1, h, m, 1);
    e, c := R0(block, d, e, a, b, c, 2, h, m, 2);
    d, b := R0(block, c, d, e, a, b, 3, h, m, 3);
    c, a := R0(block, b, c, d, e, a, 4, h, m, 4);
    b, e := R0(block, a, b, c, d, e, 5, h, m, 5);
    a, d := R0(block, e, a, b, c, d, 6, h, m, 6);
    e, c := R0(block, d, e, a, b, c, 7, h, m, 7);
    d, b := R0(block, c, d, e, a, b, 8, h, m, 8);
    c, a := R0(block, b, c, d, e, a, 9, h, m, 9);
    b, e := R0(block, a, b, c, d, e, 10, h, m, 10);
    a, d := R0(block, e, a, b, c, d, 11, h, m, 11);
    e, c := R0(block, d, e, a, b, c, 12, h, m, 12);
    d, b := R0(block, c, d, e, a, b, 13, h, m, 13);
    c, a := R0(block, b, c, d, e, a, 14, h, m, 14);
    b, e := R0(block, a, b, c, d, e, 15, h, m, 15);
    a, d := R1(block, e, a, b, c, d, 0, h, m, 16);
    e, c := R1(block, d, e, a, b, c, 1, h, m, 17);
    d, b := R1(block, c, d, e, a, b, 2, h, m, 18);
    c, a := R1(block, b, c, d, e, a, 3, h, m, 19);
  }

  method SecondRounds(block: array<word>, a0: word, b0: word, c0: word, d0: word, e0: word,
                     ghost h: Regs, ghost m: seq<word>)
    returns (a: word, b: word, c: word, d: word, e: word)
    requires block.Length == 16 && |m| == 16
    requires InRound(block[..], h, m, 20, a0, b0, c0, d0, e0)
    modifies block
    ensures InRound(block[..], h, m, 40, a, b, c, d, e)
  {
    hide InRound, Vars, W, Circular, Rotl, Plus, Temp;
    a, b, c, d, e := a0, b0, c0, d0, e0;
    b, e := R2(block, a, b, c, d, e, 4, h, m, 20);
    a, d := R2(block, e, a, b, c, d, 5, h, m, 21);
    e, c := R2(block, d, e, a, b, c, 6, h, m, 22);
    d, b := R2(block, c, d, e, a, b, 7, h, m, 23);
    c, a := R2(block, b, c, d, e, a, 8, h, m, 24);
    b, e := R2(block, a, b, c, d, e, 9, h, m, 25);
    a, d := R2(block, e, a, b, c, d, 10, h, m, 26);
    e, c := R2(block, d, e, a, b, c, 11, h, m, 27);
    d, b := R2(block, c, d, e, a, b, 12, h, m, 28);
    c, a := R2(block, b, c, d, e, a, 13, h, m, 29);
    b, e := R2(block, a, b, c, d, e, 14, h, m, 30);
    a, d := R2(block, e, a, b, c, d, 15, h, m, 31);
    e, c := R2(block, d, e, a, b, c, 0, h, m, 32);
    d, b := R2(block, c, d, e, a, b, 1, h, m, 33);
    c, a := R2(block, b, c, d, e, a, 2, h, m, 34);
    b, e := R2(block, a, b, c, d, e, 3, h, m, 35);
    a, d := R2(block, e, a, b, c, d, 4, h, m, 36);
    e, c := R2(block, d, e, a, b, c, 5, h, m, 37);
    d, b := R2(block, c, d, e, a, b, 6, h, m, 38);
    c, a := R2(block, b, c, d, e, a, 7, h, m, 39);
  }

  method ThirdRounds(block: array<word>, a0: word, b0: word, c0: word, d0: word, e0: word,
                     ghost h: Regs, ghost m: seq<word>)
    returns (a: word, b: word, c: word, d: word, e: word)
    requires block.Length == 16 && |m| == 16
    requires InRound(block[..], h, m, 40, a0, b0, c0, d0, e0)
    modifies block
    ensures InRound(block[..], h, m, 60, a, b, c, d, e)
  {
    hide InRound, Vars, W, Circular, Rotl, Plus, Temp;
    a, b, c, d, e := a0, b0, c0, d0, e0;
    b, e := R3(block, a, b, c, d, e, 8, h, m, 40);
    a, d := R3(block, e, a, b, c, d, 9, h, m, 41);
    e, c := R3(block, d, e, a, b, c, 10, h, m, 42);
    d, b := R3(block, c, d, e, a, b, 11, h, m, 43);
    c, a := R3(block, b, c, d, e, a, 12, h, m, 44);
    b, e := R3(block, a, b, c, d, e, 13, h, m, 45);
    a, d := R3(block, e, a, b, c, d, 14, h, m, 46);
    e, c := R3(block, d, e, a, b, c, 15, h, m, 47);
    d, b := R3(block, c, d, e, a, b, 0, h, m, 48);
    c, a := R3(block, b, c, d, e, a, 1, h, m, 49);
    b, e := R3(block, a, b, c, d, e, 2, h, m, 50);
    a, d := R3(block, e, a, b, c, d, 3, h, m, 51);
    e, c := R3(block, d, e, a, b, c, 4, h, m, 52);
    d, b := R3(block, c, d, e, a, b, 5, h, m, 53);
    c, a := R3(block, b, c, d, e, a, 6, h, m, 54);
    b, e := R3(block, a, b, c, d, e, 7, h, m, 55);
    a, d := R3(block, e, a, b, c, d, 8, h, m, 56);
    e, c := R3(block, d, e, a, b, c, 9, h, m, 57);
    d, b := R3(block, c, d, e, a, b, 10, h, m, 58);
    c, a := R3(block, b, c, d, e, a, 11, h, m, 59);
  }

  method FourthRounds(block: array<word>, a0: word, b0: word, c0: word, d0: word, e0: word,
                     ghost h: Regs, ghost m: seq<word>)
    returns (a: word, b: word, c: word, d: word, e: word)
    requires block.Length == 16 && |m| == 16
    requires InRound(block[..], h, m, 60, a0, b0, c0, d0, e0)
    modifies block
    ensures InRound(block[..], h, m, 80, a, b, c, d, e)
  {
    hide InRound, Vars, W, Circular, Rotl, Plus, Temp;
    a, b, c, d, e := a0, b0, c0, d0, e0;
    b, e := R4(block, a, b, c, d, e, 12, h, m, 60);
    a, d := R4(block, e, a, b, c, d, 13, h, m, 61);
    e, c := R4(block, d, e, a, b, c, 14, h, m, 62);
    d, b := R4(block, c, d, e, a, b, 15, h, m, 63);
    c, a := R4(block, b, c, d, e, a, 0, h, m, 64);
    b, e := R4(block, a, b, c, d, e, 1, h, m, 65);
    a, d := R4(block, e, a, b, c, d, 2, h, m, 66);
    e, c := R4(block, d, e, a, b, c, 3, h, m, 67);
    d, b := R4(block, c, d, e, a, b, 4, h, m, 68);
    c, a := R4(block, b, c, d, e, a, 5, h, m, 69);
    b, e := R4(block, a, b, c, d, e, 6, h, m, 70);
    a, d := R4(block, e, a, b, c, d, 7, h, m, 71);
    e, c := R4(block, d, e, a, b, c, 8, h, m, 72);
    d, b := R4(block, c, d, e, a, b, 9, h, m, 73);
    c, a := R4(block, b, c, d, e, a, 10, h, m, 74);
    b, e := R4(block, a, b, c, d, e, 11, h, m, 75);
    a, d := R4(block, e, a, b, c, d, 12, h, m, 76);
    e, c := R4(block, d, e, a, b, c, 13, h, m, 77);
    d, b := R4(block, c, d, e, a, b, 14, h, m, 78);
    c, a := R4(block, b, c, d, e, a, 15, h, m, 79);
  }

  /** Parses a 64-byte string into sixteen big-endian words. */
  method BufferToBlock(buffer: seq<byte>, block: array<word>)
    requires |buffer| == BLOCK_BYTES && block.Length == 16
    modifies block
    ensures block[..] == BlockWords(buffer)
  {
    for i := 0 to 16
      invariant forall j :: 0 <= j < i ==> block[j] == WordAt(buffer, j)
    {
      OrOrder(buffer[4 * i] as word << 24, buffer[4 * i + 1] as word << 16,
              buffer[4 * i + 2] as word << 8, buffer[4 * i + 3] as word);
      block[i] := buffer[4 * i + 3] as word | (buffer[4 * i + 2] as word << 8)
                | (buffer[4 * i + 1] as word << 16) | (buffer[4 * i] as word << 24);
    }
  }

  lemma OrOrder(a: word, b: word, c: word, d: word)
    ensures d | c | b | a == a | b | c | d
  {
  }

  // ---------------------------------------------------------------- streaming

  /** `regs` and `transforms` account for all of `msg` but its last bytes, which are in `buffer`. */
  ghost predicate Absorbed(regs: Regs, transforms: nat, buffer: seq<byte>, msg: seq<byte>) {
    && |buffer| <= |msg|
    && var whole := |msg| - |buffer|;
      && whole % BLOCK_BYTES == 0
      && msg[whole..] == buffer
      && regs == HashBlocks(msg[..whole])
      && transforms == whole / BLOCK_BYTES % UINT64_LIMIT
  }

  lemma AbsorbBytes(regs: Regs, transforms: nat, buffer: seq<byte>, msg: seq<byte>, x: seq<byte>)
    requires Absorbed(regs, transforms, buffer, msg)
    ensures Absorbed(regs, transforms, buffer + x, msg + x)
  {
    hide HashBlocks;
    var whole := |msg| - |buffer|;
    assert (msg + x)[..whole] == msg[..whole];
    assert (msg + x)[whole..] == msg[whole..] + x;
  }

  lemma NextBlock(before: seq<byte>, block: seq<byte>)
    requires |before| % BLOCK_BYTES == 0 && |block| == BLOCK_BYTES
    ensures HashBlocks(before + block) == Compress(HashBlocks(before), BlockWords(block))
  {
    hide Compress, BlockWords;
    var data := before + block;
    assert data[..|before|] == before && data[|before|..] == block;
  }

  lemma CountStep(whole: nat)
    requires whole % BLOCK_BYTES == 0
    ensures (whole / BLOCK_BYTES % UINT64_LIMIT + 1) % UINT64_LIMIT
      == (whole + BLOCK_BYTES) / BLOCK_BYTES % UINT64_LIMIT
    ensures (whole + BLOCK_BYTES) % BLOCK_BYTES == 0
  {
  }

  lemma AbsorbBlock(regs: Regs, transforms: nat, buffer: seq<byte>, msg: seq<byte>)
    requires Absorbed(regs, transforms, buffer, msg) && |buffer| == BLOCK_BYTES
    ensures Absorbed(Compress(regs, BlockWords(buffer)), (transforms + 1) % UINT64_LIMIT, [], msg)
  {
    hide HashBlocks, Compress, BlockWords;
    var whole := |msg| - |buffer|;
    CountStep(whole);
    NextBlock(msg[..whole], buffer);
    assert msg[..whole] + buffer == msg && msg[..|msg|] == msg;
  }

  lemma WrapOnce(x: nat, k: nat)
    ensures (x + k * UINT64_LIMIT) % UINT64_LIMIT == x % UINT64_LIMIT
  {
  }

  lemma WrappedProduct(q: nat, rest: nat)
    ensures ((q % UINT64_LIMIT * BLOCK_BYTES % UINT64_LIMIT + rest) % UINT64_LIMIT) * 8 % UINT64_LIMIT
      == (q * BLOCK_BYTES + rest) * 8 % UINT64_LIMIT
  {
    var k0 := q / UINT64_LIMIT;
    var a := q % UINT64_LIMIT * BLOCK_BYTES;
    var k1 := a / UINT64_LIMIT;
    var b := a % UINT64_LIMIT + rest;
    var k2 := b / UINT64_LIMIT;
    var c := b % UINT64_LIMIT * 8;
    assert q == q % UINT64_LIMIT + k0 * UINT64_LIMIT;
    assert a == a % UINT64_LIMIT + k1 * UINT64_LIMIT;
    assert b == b % UINT64_LIMIT + k2 * UINT64_LIMIT;
    assert (q * BLOCK_BYTES + rest) * 8 == c + (512 * k0 + 8 * k1 + 8 * k2) * UINT64_LIMIT;
    WrapOnce(c, 512 * k0 + 8 * k1 + 8 * k2);
  }

  /** The wrapping 64-bit arithmetic of the code yields the bit length modulo 2^64. */
  lemma TotalBits(regs: Regs, transforms: nat, buffer: seq<byte>, msg: seq<byte>)
    requires Absorbed(regs, transforms, buffer, msg)
    ensures ((transforms * BLOCK_BYTES % UINT64_LIMIT + |buffer|) % UINT64_LIMIT) * 8 % UINT64_LIMIT
      == |msg| * 8 % UINT64_LIMIT
  {
    hide HashBlocks;
    WrappedProduct((|msg| - |buffer|) / BLOCK_BYTES, |buffer|);
  }

  /** The two length words of the last block are the eight length bytes. */
  lemma LengthWords(l: bv64)
    ensures WordAt(LengthBytes(l), 0) == (l >> 32) as word
    ensures WordAt(LengthBytes(l), 1) == (l & 0xffff_ffff) as word
  {
  }

  /** The last bytes of a message, the marker, zeros, and the length words still to be set. */
  function Marked(buffer: seq<byte>): (r: seq<byte>)
    requires |buffer| < BLOCK_BYTES
    ensures |r| == BLOCK_BYTES
  {
    buffer + [0x80] + Zeros(BLOCK_BYTES - 1 - |buffer|)
  }

  function WithLength(words: seq<word>, l: bv64): (r: seq<word>)
    requires |words| == 16
    ensures |r| == 16
  {
    words[15 := (l & 0xffff_ffff) as word][14 := (l >> 32) as word]
  }

  lemma LastBlockWords(head: seq<byte>, full: seq<byte>, l: bv64)
    requires |head| == BLOCK_BYTES - 8 && |full| == BLOCK_BYTES && full[..BLOCK_BYTES - 8] == head
    ensures BlockWords(head + LengthBytes(l)) == WithLength(BlockWords(full), l)
  {
    hide LengthBytes;
    var b := head + LengthBytes(l);
    LengthWords(l);
    SameWord(b, 14, LengthBytes(l), 0);
    SameWord(b, 15, LengthBytes(l), 1);
    forall j | 0 <= j < 14 ensures WordAt(b, j) == WordAt(full, j) {
      assert b[4 * j..4 * j + 4] == head[4 * j..4 * j + 4] == full[4 * j..4 * j + 4];
      SameWord(b, j, full, j);
    }
  }

  lemma SameWord(b: seq<byte>, i: nat, c: seq<byte>, j: nat)
    requires 4 * i + 4 <= |b| && 4 * j + 4 <= |c|
    requires b[4 * i..4 * i + 4] == c[4 * j..4 * j + 4]
    ensures WordAt(b, i) == WordAt(c, j)
  {
    var four := b[4 * i..4 * i + 4];
    assert four[0] == b[4 * i] && four[1] == b[4 * i + 1] && four[2] == b[4 * i + 2] && four[3] == b[4 * i + 3];
    assert four[0] == c[4 * j] && four[1] == c[4 * j + 1] && four[2] == c[4 * j + 2] && four[3] == c[4 * j + 3];
  }

  lemma ZeroWords(b: seq<byte>)
    requires b == Zeros(BLOCK_BYTES)
    ensures BlockWords(b) == seq(16, _ => 0)
  {
    forall j | 0 <= j < 16 ensures WordAt(b, j) == 0 {
      assert b[4 * j] == 0 && b[4 * j + 1] == 0 && b[4 * j + 2] == 0 && b[4 * j + 3] == 0;
    }
  }

  lemma ZeroCountIs(whole: nat, rest: nat)
    requires whole % BLOCK_BYTES == 0 && rest < BLOCK_BYTES
    ensures ZeroCount(whole + rest)
      == if rest + 1 <= BLOCK_BYTES - 8 then BLOCK_BYTES - 9 - rest else 2 * BLOCK_BYTES - 9 - rest
  {
  }

  /** The marker and the length fit in the block of the message's last bytes. */
  lemma PadInOneBlock(regs: Regs, transforms: nat, buffer: seq<byte>, msg: seq<byte>)
    requires Absorbed(regs, transforms, buffer, msg) && |buffer| + 1 <= BLOCK_BYTES - 8
    ensures HashBlocks(Pad(msg)) == Compress(regs, WithLength(BlockWords(Marked(buffer)), BitLength(msg)))
  {
    hide HashBlocks, Compress, BlockWords, LengthBytes, BitLength, WithLength, ZeroCount;
    var whole := |msg| - |buffer|;
    var l := LengthBytes(BitLength(msg));
    var head := buffer + [0x80] + Zeros(BLOCK_BYTES - 9 - |buffer|);
    LastBlockWords(head, Marked(buffer), BitLength(msg));
    NextBlock(msg[..whole], head + l);
    assert msg == msg[..whole] + buffer;
    ZeroCountIs(whole, |buffer|);
    assert Pad(msg) == msg[..whole] + (head + l);
  }

  /** They do not: the marker ends one block and the length fills another. */
  lemma PadInTwoBlocks(regs: Regs, transforms: nat, buffer: seq<byte>, msg: seq<byte>)
    requires Absorbed(regs, transforms, buffer, msg) && BLOCK_BYTES - 8 < |buffer| + 1 <= BLOCK_BYTES
    ensures var first := Compress(regs, BlockWords(Marked(buffer)));
      HashBlocks(Pad(msg)) == Compress(first, WithLength(seq(16, _ => 0), BitLength(msg)))
  {
    hide HashBlocks, Compress, BlockWords, LengthBytes, BitLength, WithLength, ZeroCount;
    var whole := |msg| - |buffer|;
    var l := LengthBytes(BitLength(msg));
    var head := Zeros(BLOCK_BYTES - 8);
    ZeroWords(Zeros(BLOCK_BYTES));
    LastBlockWords(head, Zeros(BLOCK_BYTES), BitLength(msg));
    NextBlock(msg[..whole], Marked(buffer));
    NextBlock(msg[..whole] + Marked(buffer), head + l);
    assert msg == msg[..whole] + buffer;
    ZeroCountIs(whole, |buffer|);
    assert Pad(msg) == msg[..whole] + Marked(buffer) + (head + l);
  }

  class Sha1 {
    const digest: array<word>
    var buffer: seq<byte>
    var transforms: nat
    /** Everything given to `Update` since the last reset. */
    ghost var message: seq<byte>

    ghost predicate Valid()
      reads this, digest
    {
      && digest.Length == 5
      && |buffer| < BLOCK_BYTES
      && Absorbed(DigestRegs(digest[..]), transforms, buffer, message)
    }

    constructor ()
      ensures Valid() && fresh(digest) && message == []
    {
      digest := new word[5];
      buffer := [];
      transforms := 0;
      message := [];
      new;
      Reset();
    }

    /** Back to the initial hash value and no input. */
    method Reset()
      requires digest.Length == 5
      modifies this, digest
      ensures Valid() && message == []
      ensures DigestRegs(digest[..]) == INITIAL_HASH && buffer == [] && transforms == 0
    {
      digest[0] := 0x67452301;
      digest[1] := 0xefcdab89;
      digest[2] := 0x98badcfe;
      digest[3] := 0x10325476;
      digest[4] := 0xc3d2e1f0;
      buffer := [];
      transforms := 0;
      message := [];
    }

    /** Reads the input in chunks that fill the buffer, compressing each full block. */
    method Update(s: seq<byte>)
      requires Valid()
      modifies this, digest
      ensures Valid() && message == old(message) + s
    {
      hide Absorbed, HashBlocks, Compress, BlockWords;
      var pos := 0;
      assert message == old(message) + s[..0];
      while true
        invariant 0 <= pos <= |s| && Valid()
        invariant message == old(message) + s[..pos]
        decreases |s| - pos
      {
        var room := BLOCK_BYTES - |buffer|;
        var count := if room <= |s| - pos then room else |s| - pos;
        var chunk := s[pos..pos + count];
        AbsorbBytes(DigestRegs(digest[..]), transforms, buffer, message, chunk);
        buffer := buffer + chunk;
        message := message + chunk;
        pos := pos + count;
        assert s[..pos] == s[..pos - count] + chunk;
        if |buffer| != BLOCK_BYTES {
          assert s[..pos] == s;
          return;
        }
        var block := new word[16];
        BufferToBlock(buffer, block);
        AbsorbBlock(DigestRegs(digest[..]), transforms, buffer, message);
        transforms := Transform(digest, block, transforms);
        buffer := [];
      }
    }

    /** Pads what is left of the message and hashes the last one or two blocks. */
    method HashPadding()
      requires Valid()
      modifies this, digest
      ensures digest.Length == 5 && DigestRegs(digest[..]) == HashBlocks(Pad(old(message)))
    {
      hide Absorbed, Compress, BlockWords, HashBlocks, WithLength, BitLength, Pad;
      ghost var regs, tail := DigestRegs(digest[..]), buffer;
      var totalBits := ((transforms * BLOCK_BYTES % UINT64_LIMIT + |buffer|) % UINT64_LIMIT) * 8 % UINT64_LIMIT;
      TotalBits(regs, transforms, tail, message);
      LengthIs(message, totalBits);

      buffer := buffer + [0x80];
      var origSize := |buffer|;
      while |buffer| < BLOCK_BYTES
        modifies this`buffer
        invariant origSize <= |buffer| <= BLOCK_BYTES
        invariant buffer == tail + [0x80] + Zeros(|buffer| - origSize)
      {
        buffer := buffer + [0x00];
      }
      assert buffer == Marked(tail);

      var block := new word[16];
      BufferToBlock(buffer, block);
      if origSize > BLOCK_BYTES - 8 {
        PadInTwoBlocks(regs, transforms, tail, message);
        transforms := Transform(digest, block, transforms);
        ClearWords(block);
      } else {
        PadInOneBlock(regs, transforms, tail, message);
      }
      AppendLength(block, totalBits as bv64);
      transforms := Transform(digest, block, transforms);
    }

    /** Pads, hashes, prints the digest, and starts afresh. */
    method Final() returns (text: string)
      requires Valid()
      modifies this, digest
      ensures text == HexString(Digest(old(message)))
      ensures Valid() && message == []
      ensures DigestRegs(digest[..]) == INITIAL_HASH && buffer == [] && transforms == 0
    {
      hide HashBlocks, Pad, HexString, WordBytes;
      HashPadding();
      text := HexString(WordBytes(digest[0]) + WordBytes(digest[1]) + WordBytes(digest[2])
                      + WordBytes(digest[3]) + WordBytes(digest[4]));
      Reset();
    }
  }

  /** Zeroes the words before the length. */
  method ClearWords(block: array<word>)
    requires block.Length == 16
    modifies block
    ensures forall l :: WithLength(block[..], l) == WithLength(seq(16, _ => 0), l)
  {
    for i := 0 to 14
      invariant forall j :: 0 <= j < i ==> block[j] == 0
    {
      block[i] := 0;
    }
    var zeros: seq<word> := seq(16, _ => 0);
    forall l ensures WithLength(block[..], l) == WithLength(zeros, l) {
      LengthOverwrites(block[..], zeros, l);
    }
  }

  /** Splits the bit length into the last two words. */
  method AppendLength(block: array<word>, bits: bv64)
    requires block.Length == 16
    modifies block
    ensures block[..] == WithLength(old(block[..]), bits)
  {
    block[15] := (bits & 0xffff_ffff) as word;
    block[14] := (bits >> 32) as word;
  }

  lemma LengthIs(msg: seq<byte>, total: nat)
    requires total == |msg| * 8 % UINT64_LIMIT
    ensures total as bv64 == BitLength(msg)
  {
  }

  /** Only the first fourteen words matter: the length replaces the other two. */
  lemma LengthOverwrites(a: seq<word>, b: seq<word>, l: bv64)
    requires |a| == 16 && |b| == 16 && a[..14] == b[..14]
    ensures WithLength(a, l) == WithLength(b, l)
  {
    assert forall j :: 0 <= j < 14 ==> a[j] == a[..14][j] == b[..14][j] == b[j];
  }

  /** `is_verified_piece`: one update with the whole piece, compared in binary. */
  method IsVerified(data: seq<byte>, hash: seq<byte>) returns (ok: bool)
    ensures ok <==> Digest(data) == hash
  {
    hide Digest, HexString, HexBytes, Absorbed, DigestRegs;
    var checksum := new Sha1();
    checksum.Update(data);
    assert checksum.message == data;
    var pieceHash := checksum.Final();
    HexRoundTrip(Digest(data));
    var decoded := HexDecode(pieceHash);
    ok := decoded == hash;
  }

  /** However a message is split into updates, the printed digest is that of the whole. */
  method DigestOfParts(parts: seq<seq<byte>>) returns (text: string)
    ensures text == HexString(Digest(Flatten(parts)))
  {
    assert Flatten(parts[..0]) == [];
    hide Digest, HexString, Absorbed, Flatten, DigestRegs;
    var checksum := new Sha1();
    var i := 0;
    while i < |parts|
      invariant 0 <= i <= |parts|
      invariant fresh(checksum) && fresh(checksum.digest)
      invariant checksum.Valid() && checksum.message == Flatten(parts[..i])
    {
      FlattenAppend(parts[..i], parts[i]);
      assert parts[..i + 1] == parts[..i] + [parts[i]];
      checksum.Update(parts[i]);
      i := i + 1;
    }
    assert parts[..i] == parts;
    text := checksum.Final();
  }
}
