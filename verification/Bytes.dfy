/** Byte strings, in-place overwriting and concatenation, shared by every other module. */
module Bytes {

  type byte = bv8

  datatype Option<+T> = None | Some(value: T)

  function Zeros(n: nat): (r: seq<byte>)
    ensures |r| == n
  {
    seq(n, _ => 0)
  }

  /** Overwrites `|d|` bytes of `a` from position `off` on, leaving the length alone. */
  function Splice(a: seq<byte>, off: nat, d: seq<byte>): (r: seq<byte>)
    requires off + |d| <= |a|
    ensures |r| == |a|
    ensures forall k :: 0 <= k < |a| ==> r[k] == if off <= k < off + |d| then d[k - off] else a[k]
  {
    a[..off] + d + a[off + |d|..]
  }

  /** `std::string::resize`: keeps a prefix, or pads with zero bytes. */
  function Resize(a: seq<byte>, n: nat): (r: seq<byte>)
    ensures |r| == n
    ensures forall k :: 0 <= k < n ==> r[k] == if k < |a| then a[k] else 0
  {
    if n <= |a| then a[..n] else a + Zeros(n - |a|)
  }

  function Sum(lens: seq<nat>): nat {
    if lens == [] then 0 else lens[0] + Sum(lens[1..])
  }

  function Flatten(parts: seq<seq<byte>>): seq<byte> {
    if parts == [] then [] else parts[0] + Flatten(parts[1..])
  }

  function Lengths(parts: seq<seq<byte>>): (r: seq<nat>)
    ensures |r| == |parts|
    ensures forall k :: 0 <= k < |parts| ==> r[k] == |parts[k]|
  {
    seq(|parts|, k requires 0 <= k < |parts| => |parts[k]|)
  }

  /** Two adjacent writes are one longer write. */
  lemma SpliceTwice(a: seq<byte>, p: nat, x: seq<byte>, y: seq<byte>)
    requires p + |x| + |y| <= |a|
    ensures Splice(Splice(a, p, x), p + |x|, y) == Splice(a, p, x + y)
  {
    var l, r := Splice(Splice(a, p, x), p + |x|, y), Splice(a, p, x + y);
    forall k | 0 <= k < |a| ensures l[k] == r[k] {}
  }

  lemma SpliceSlice(a: seq<byte>, p: nat, x: seq<byte>, lo: nat, hi: nat)
    requires p + |x| <= |a| && lo <= hi <= |a|
    ensures lo == p && hi == p + |x| ==> Splice(a, p, x)[lo..hi] == x
    ensures hi <= p || p + |x| <= lo ==> Splice(a, p, x)[lo..hi] == a[lo..hi]
  {
  }

  lemma {:induction false} FlattenLength(parts: seq<seq<byte>>)
    ensures |Flatten(parts)| == Sum(Lengths(parts))
  {
    if parts != [] {
      FlattenLength(parts[1..]);
      assert Lengths(parts)[1..] == Lengths(parts[1..]);
    }
  }

  lemma {:induction false} SumSplit(lens: seq<nat>, k: nat)
    requires k <= |lens|
    ensures Sum(lens) == Sum(lens[..k]) + Sum(lens[k..])
  {
    if k > 0 {
      SumSplit(lens[1..], k - 1);
      assert lens[..k][1..] == lens[1..][..k - 1];
      assert lens[1..][k - 1..] == lens[k..];
    } else {
      assert lens[k..] == lens;
    }
  }

  lemma SumAppend(lens: seq<nat>, x: nat)
    ensures Sum(lens + [x]) == Sum(lens) + x
  {
    SumSplit(lens + [x], |lens|);
    assert (lens + [x])[..|lens|] == lens && (lens + [x])[|lens|..] == [x];
    assert Sum([x]) == x + Sum([]);
  }

  lemma {:induction false} FlattenSplit(a: seq<seq<byte>>, b: seq<seq<byte>>)
    ensures Flatten(a + b) == Flatten(a) + Flatten(b)
  {
    if a == [] {
      assert a + b == b;
    } else {
      FlattenSplit(a[1..], b);
      assert (a + b)[1..] == a[1..] + b;
    }
  }

  lemma FlattenAppend(a: seq<seq<byte>>, x: seq<byte>)
    ensures Flatten(a + [x]) == Flatten(a) + x
  {
    FlattenSplit(a, [x]);
    assert Flatten([x]) == x + Flatten([]);
  }

  /** A subset is no larger. */
  lemma {:induction false} SubsetSize<T>(a: set<T>, b: set<T>)
    requires a <= b
    ensures |a| <= |b|
  {
    if a != {} {
      var x :| x in a;
      SubsetSize(a - {x}, b - {x});
    }
  }
}
