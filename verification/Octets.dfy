/** Byte strings, big-endian integers and the bit operations the wire format uses. */
module Octets {

  type byte = b: int | 0 <= b < 256
  type bytes = seq<byte>

  datatype Option<+T> = None | Some(value: T)

  datatype Result<+T, +E> = Ok(value: T) | Err(error: E)

  const TWO_16 := 0x1_0000
  const TWO_31 := 0x8000_0000
  const TWO_32 := 0x1_0000_0000
  const TWO_63 := 0x8000_0000_0000_0000
  const TWO_64 := 0x1_0000_0000_0000_0000

  type int64 = n: int | -TWO_63 <= n < TWO_63

  /** Two's complement wrap-around at 64 bits. */
  function WrapInt64(n: int): int64 { var u := n % TWO_64; if u >= TWO_63 then u - TWO_64 else u }

  function Octet(c: char): byte { c as int % 256 }

  /** The bytes of an ASCII string. */
  function Ascii(s: string): bytes {
    seq(|s|, i requires 0 <= i < |s| => Octet(s[i]))
  }

  // ----- subsequences

  ghost predicate Increasing(idx: seq<nat>) {
    forall i, j :: 0 <= i < j < |idx| ==> idx[i] < idx[j]
  }

  /** `ys` is what `xs` holds at the strictly increasing positions `idx`. */
  ghost predicate Picks<T>(ys: seq<T>, xs: seq<T>, idx: seq<nat>) {
    && |idx| == |ys|
    && Increasing(idx)
    && forall i :: 0 <= i < |idx| ==> idx[i] < |xs| && ys[i] == xs[idx[i]]
  }

  function At(xs: seq<nat>, idx: seq<nat>): seq<nat>
    requires forall i :: 0 <= i < |idx| ==> idx[i] < |xs|
  {
    seq(|idx|, i requires 0 <= i < |idx| => xs[idx[i]])
  }

  /** A choice from a choice is a choice. */
  lemma PicksCompose<T>(zs: seq<T>, ys: seq<T>, xs: seq<T>, inner: seq<nat>, outer: seq<nat>)
    requires Picks(zs, ys, inner) && Picks(ys, xs, outer)
    ensures Picks(zs, xs, At(outer, inner))
  {
    var idx := At(outer, inner);
    forall i, j | 0 <= i < j < |idx| ensures idx[i] < idx[j] { assert inner[i] < inner[j]; }
  }

  // ----- shifts and bitwise or

  /** `v << k` on unbounded naturals; callers truncate to their own width. */
  function Shl(v: nat, k: nat): nat {
    if k == 0 then v else 2 * Shl(v, k - 1)
  }

  function BitOr(x: nat, y: nat): nat
    decreases x + y
  {
    if x == 0 && y == 0 then 0
    else 2 * BitOr(x / 2, y / 2) + (if x % 2 == 1 || y % 2 == 1 then 1 else 0)
  }

  lemma {:induction false} BitOrZero(x: nat)
    ensures BitOr(x, 0) == x
  {
    if x != 0 { BitOrZero(x / 2); }
  }

  lemma {:induction false} ShlOrdered(k: nat, m: nat)
    requires k <= m
    ensures Shl(1, k) <= Shl(1, m)
  {
    if k < m { ShlOrdered(k, m - 1); }
  }

  /** Or-ing a value shifted left by `k` with a value below 2^k is addition. */
  lemma {:induction false} BitOrDisjoint(a: nat, k: nat, b: nat)
    requires b < Shl(1, k)
    ensures BitOr(Shl(a, k), b) == Shl(a, k) + b
  {
    if k == 0 {
      BitOrZero(a);
    } else {
      BitOrDisjoint(a, k - 1, b / 2);
    }
  }

  lemma {:induction false} ShlByte(v: nat)
    ensures Shl(v, 8) == 256 * v
  {
    assert Shl(v, 4) == 2 * Shl(v, 3) == 4 * Shl(v, 2) == 8 * Shl(v, 1) == 16 * v;
    assert Shl(v, 8) == 2 * Shl(v, 7) == 4 * Shl(v, 6) == 8 * Shl(v, 5) == 16 * Shl(v, 4);
  }

  /** One link of an or-chain: the high part is shifted past the byte that fills the gap below it. */
  lemma {:induction false} OrByte(high: nat, b: byte, k: nat)
    ensures BitOr(Shl(high, k + 8), Shl(b, k)) == Shl(high * 256 + b, k)
  {
    if k == 0 {
      ShlByte(high);
      ShlByte(1);
      BitOrDisjoint(high, 8, b);
    } else {
      OrByte(high, b, k - 1);
    }
  }

  // ----- 64-bit big-endian counters

  /** The eight `byte(v >> n)` stores of a big-endian counter. */
  function PutUint64(v: nat): (s: bytes)
    ensures |s| == 8
  {
    [ (v / 0x100_0000_0000_0000) % 256, (v / 0x1_0000_0000_0000) % 256,
      (v / 0x100_0000_0000) % 256, (v / 0x1_0000_0000) % 256,
      (v / 0x100_0000) % 256, (v / 0x1_0000) % 256, (v / 0x100) % 256, v % 256 ]
  }

  /** The or-chain that reads a big-endian counter back. */
  function Uint64(s: bytes): nat
    requires |s| >= 8
  {
    BitOr(BitOr(BitOr(BitOr(BitOr(BitOr(BitOr(
      Shl(s[0], 56), Shl(s[1], 48)), Shl(s[2], 40)), Shl(s[3], 32)),
      Shl(s[4], 24)), Shl(s[5], 16)), Shl(s[6], 8)), s[7])
  }

  /** The value of the first `n` bytes read most significant byte first. */
  function BigEndian(s: bytes, n: nat): (v: nat)
    requires n <= |s|
  {
    if n == 0 then 0 else BigEndian(s, n - 1) * 256 + s[n - 1]
  }

  lemma OrTwoBytes(high: nat, b: byte, c: byte, k: nat)
    ensures BitOr(BitOr(Shl(high, k + 16), Shl(b, k + 8)), Shl(c, k)) == Shl((high * 256 + b) * 256 + c, k)
  {
    OrByte(high, b, k + 8);
    OrByte(high * 256 + b, c, k);
  }

  lemma BigEndianTwo(s: bytes, n: nat)
    requires n + 2 <= |s|
    ensures BigEndian(s, n + 2) == (BigEndian(s, n) * 256 + s[n]) * 256 + s[n + 1]
  {
  }

  function HighWord(s: bytes): nat
    requires |s| >= 8
  {
    BitOr(BitOr(BitOr(Shl(s[0], 56), Shl(s[1], 48)), Shl(s[2], 40)), Shl(s[3], 32))
  }

  lemma HighWordIsBigEndian(s: bytes)
    requires |s| >= 8
    ensures HighWord(s) == Shl(BigEndian(s, 4), 32)
  {
    assert BigEndian(s, 1) == s[0];
    assert BigEndian(s, 2) == BigEndian(s, 1) * 256 + s[1];
    OrByte(BigEndian(s, 1), s[1], 48);
    OrTwoBytes(BigEndian(s, 2), s[2], s[3], 32);
    BigEndianTwo(s, 2);
  }

  lemma LowWordIsBigEndian(s: bytes, high: nat)
    requires |s| >= 8 && high == BigEndian(s, 4)
    ensures BitOr(BitOr(BitOr(BitOr(Shl(high, 32), Shl(s[4], 24)), Shl(s[5], 16)), Shl(s[6], 8)), Shl(s[7], 0))
            == Shl(BigEndian(s, 8), 0)
  {
    OrTwoBytes(high, s[4], s[5], 16);
    BigEndianTwo(s, 4);
    OrTwoBytes(BigEndian(s, 6), s[6], s[7], 0);
    BigEndianTwo(s, 6);
  }

  lemma OrIsBigEndian(s: bytes)
    requires |s| >= 8
    ensures Uint64(s) == BigEndian(s, 8)
  {
    HighWordIsBigEndian(s);
    LowWordIsBigEndian(s, BigEndian(s, 4));
    assert Shl(s[7], 0) == s[7] && Shl(BigEndian(s, 8), 0) == BigEndian(s, 8);
  }

  /** Splitting a counter into bytes loses nothing: dividing by 256 eight times. */
  lemma Quotients(v: nat)
    ensures v / 0x1_0000 == v / 0x100 / 0x100
    ensures v / 0x100_0000 == v / 0x1_0000 / 0x100
    ensures v / 0x1_0000_0000 == v / 0x100_0000 / 0x100
    ensures v / 0x100_0000_0000 == v / 0x1_0000_0000 / 0x100
    ensures v / 0x1_0000_0000_0000 == v / 0x100_0000_0000 / 0x100
    ensures v / 0x100_0000_0000_0000 == v / 0x1_0000_0000_0000 / 0x100
  {
  }

  /** Reading back what was written gives the counter. */
  lemma ReadWrite64(v: nat)
    requires v < TWO_64
    ensures Uint64(PutUint64(v)) == BigEndian(PutUint64(v), 8) == v
  {
    var s := PutUint64(v);
    Quotients(v);
    OrIsBigEndian(s);
    assert BigEndian(s, 1) == v / 0x100_0000_0000_0000;
    assert BigEndian(s, 2) == v / 0x1_0000_0000_0000;
    assert BigEndian(s, 3) == v / 0x100_0000_0000;
    assert BigEndian(s, 4) == v / 0x1_0000_0000;
    assert BigEndian(s, 5) == v / 0x100_0000;
    assert BigEndian(s, 6) == v / 0x1_0000;
    assert BigEndian(s, 7) == v / 0x100;
    assert BigEndian(s, 8) == v;
  }

  lemma BigEndianBound(s: bytes, n: nat, m: nat)
    requires 0 < n <= |s| && BigEndian(s, n - 1) < m
    ensures BigEndian(s, n) < 256 * m
  {
  }

  lemma Below64(s: bytes)
    requires |s| >= 8
    ensures Uint64(s) == BigEndian(s, 8) < TWO_64
  {
    OrIsBigEndian(s);
    BigEndianBound(s, 1, 1); BigEndianBound(s, 2, 0x100); BigEndianBound(s, 3, 0x1_0000);
    BigEndianBound(s, 4, 0x100_0000); BigEndianBound(s, 5, 0x1_0000_0000); BigEndianBound(s, 6, 0x100_0000_0000);
    BigEndianBound(s, 7, 0x1_0000_0000_0000); BigEndianBound(s, 8, 0x100_0000_0000_0000);
  }

  /** Distinct counters below 2^64 are written as distinct bytes. */
  lemma PutInjective(v: nat, w: nat)
    requires v < TWO_64 && w < TWO_64 && PutUint64(v) == PutUint64(w)
    ensures v == w
  {
    ReadWrite64(v);
    ReadWrite64(w);
  }

  // ----- IPv4 addresses

  /** binary.BigEndian.Uint32 of four bytes of a packet. */
  function Uint32At(s: bytes, i: nat): (v: nat)
    requires i + 4 <= |s|
    ensures v < TWO_32
  {
    var b0: int, b1: int, b2: int, b3: int := s[i], s[i + 1], s[i + 2], s[i + 3];
    b0 * 0x100_0000 + b1 * 0x1_0000 + b2 * 0x100 + b3
  }

  /** It is the big-endian value of those four bytes. */
  lemma Uint32IsBigEndian(s: bytes, i: nat)
    requires i + 4 <= |s|
    ensures Uint32At(s, i) == BigEndian(s[i..i + 4], 4)
  {
    var t := s[i..i + 4];
    assert t[0] == s[i] && t[1] == s[i + 1] && t[2] == s[i + 2] && t[3] == s[i + 3];
    assert BigEndian(t, 1) == t[0];
    assert BigEndian(t, 2) == BigEndian(t, 1) * 256 + t[1];
    assert BigEndian(t, 3) == BigEndian(t, 2) * 256 + t[2];
    assert BigEndian(t, 4) == BigEndian(t, 3) * 256 + t[3];
  }
}
