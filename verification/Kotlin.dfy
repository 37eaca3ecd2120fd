/**
 * The Android Session of Crypto.kt: the same wire format over signed bytes and
 * signed 64-bit Longs.  Its methods are proved against the Go frame functions.
 */
module Kotlin {
  import opened Octets
  import opened Framing
  import GoSession

  type jbyte = b: int | -128 <= b < 128
  type jbytes = seq<jbyte>
  type jlong = int64

  // ----- two's complement

  function ToByte(n: int): jbyte { var u := n % 256; if u >= 128 then u - 256 else u }
  function U8(b: jbyte): byte { b % 256 }
  function U64(n: jlong): (u: nat) ensures u < TWO_64 { n % TWO_64 }

  function Unsigned(s: jbytes): bytes { seq(|s|, i requires 0 <= i < |s| => U8(s[i])) }
  function Signed(s: bytes): jbytes { seq(|s|, i requires 0 <= i < |s| => ToByte(s[i])) }

  /** `n ushr k`, with `d` the power of two 2^k. */
  function Ushr(n: jlong, d: nat): jlong
    requires d > 0
  {
    WrapInt64(U64(n) / d)
  }

  function ShlLong(n: nat, k: nat): jlong { WrapInt64(Shl(n, k)) }
  function OrLong(a: jlong, b: jlong): jlong { WrapInt64(BitOr(U64(a), U64(b))) }

  /** java.lang.Long.compareUnsigned(a, b) <= 0, as the JDK computes it. */
  predicate AtMostUnsigned(a: jlong, b: jlong) {
    WrapInt64(a - TWO_63) <= WrapInt64(b - TWO_63)
  }

  lemma SignedRoundTrip(s: bytes)
    ensures Unsigned(Signed(s)) == s
  {
  }

  lemma U64Signed(v: nat)
    requires v < TWO_64
    ensures U64(WrapInt64(v)) == v
  {
  }

  lemma ByteOfLong(q: nat)
    requires q < TWO_64
    ensures U8(ToByte(WrapInt64(q))) == q % 256
  {
  }

  lemma UnsignedOrder(a: jlong, b: jlong)
    ensures AtMostUnsigned(a, b) <==> U64(a) <= U64(b)
  {
  }

  // ----- counters

  function CounterBytes(ctr: jlong): (s: jbytes)
    ensures |s| == 8
  {
    [ ToByte(Ushr(ctr, 0x100_0000_0000_0000)), ToByte(Ushr(ctr, 0x1_0000_0000_0000)),
      ToByte(Ushr(ctr, 0x100_0000_0000)), ToByte(Ushr(ctr, 0x1_0000_0000)),
      ToByte(Ushr(ctr, 0x100_0000)), ToByte(Ushr(ctr, 0x1_0000)), ToByte(Ushr(ctr, 0x100)), ToByte(ctr) ]
  }

  function ReadCounter(src: jbytes): jlong
    requires |src| >= 8
  {
    OrLong(OrLong(OrLong(OrLong(OrLong(OrLong(OrLong(
      ShlLong(U8(src[0]), 56), ShlLong(U8(src[1]), 48)), ShlLong(U8(src[2]), 40)), ShlLong(U8(src[3]), 32)),
      ShlLong(U8(src[4]), 24)), ShlLong(U8(src[5]), 16)), ShlLong(U8(src[6]), 8)), U8(src[7]))
  }

  lemma UshrByte(ctr: jlong, d: nat)
    requires d > 0
    ensures U8(ToByte(Ushr(ctr, d))) == (U64(ctr) / d) % 256
  {
    ByteOfLong(U64(ctr) / d);
  }

  /** Signed shifts write the same eight bytes as the Go code, over the whole range. */
  lemma CounterBytesAgree(ctr: jlong)
    ensures Unsigned(CounterBytes(ctr)) == PutUint64(U64(ctr))
  {
    UshrByte(ctr, 0x100_0000_0000_0000); UshrByte(ctr, 0x1_0000_0000_0000); UshrByte(ctr, 0x100_0000_0000);
    UshrByte(ctr, 0x1_0000_0000); UshrByte(ctr, 0x100_0000); UshrByte(ctr, 0x1_0000); UshrByte(ctr, 0x100);
    LowByte(ctr);
    Pointwise(CounterBytes(ctr), PutUint64(U64(ctr)));
  }

  lemma LowByte(ctr: jlong)
    ensures U8(ToByte(ctr)) == U64(ctr) % 256
  {
  }

  lemma Pointwise(s: jbytes, t: bytes)
    requires |s| == |t| == 8
    requires U8(s[0]) == t[0] && U8(s[1]) == t[1] && U8(s[2]) == t[2] && U8(s[3]) == t[3]
    requires U8(s[4]) == t[4] && U8(s[5]) == t[5] && U8(s[6]) == t[6] && U8(s[7]) == t[7]
    ensures Unsigned(s) == t
  {
  }

  lemma {:induction false} BitOrBelow(x: nat, y: nat, k: nat)
    requires x < Shl(1, k) && y < Shl(1, k)
    ensures BitOr(x, y) < Shl(1, k)
  {
    if k > 0 && (x != 0 || y != 0) { BitOrBelow(x / 2, y / 2, k - 1); }
  }

  lemma {:induction false} ShlStep(v: nat, k: nat)
    ensures Shl(v, k + 8) == 256 * Shl(v, k)
  {
    assert Shl(v, k + 4) == 2 * Shl(v, k + 3) == 4 * Shl(v, k + 2) == 8 * Shl(v, k + 1) == 16 * Shl(v, k);
    assert Shl(v, k + 8) == 2 * Shl(v, k + 7) == 4 * Shl(v, k + 6) == 8 * Shl(v, k + 5) == 16 * Shl(v, k + 4);
  }

  lemma {:induction false} ShlBound(b: byte, k: nat)
    ensures Shl(b, k) < Shl(1, k + 8)
  {
    if k == 0 { ShlByte(1); } else { ShlBound(b, k - 1); }
  }

  lemma WordSize()
    ensures Shl(1, 64) == TWO_64
  {
    ShlStep(1, 0); ShlStep(1, 8); ShlStep(1, 16); ShlStep(1, 24);
    ShlStep(1, 32); ShlStep(1, 40); ShlStep(1, 48); ShlStep(1, 56);
  }

  /** One link of the signed or-chain computes what the unsigned one does. */
  lemma OrLongAgrees(acc: jlong, value: nat, b: byte, k: nat)
    requires U64(acc) == value && k <= 56
    ensures U64(OrLong(acc, ShlLong(b, k))) == BitOr(value, Shl(b, k)) < TWO_64
  {
    WordSize();
    ShlBound(b, k);
    ShlOrdered(k + 8, 64);
    U64Signed(Shl(b, k));
    BitOrBelow(value, Shl(b, k), 64);
    U64Signed(BitOr(value, Shl(b, k)));
  }

  lemma TwoLinksAgree(acc: jlong, value: nat, b: byte, c: byte, k: nat)
    requires U64(acc) == value && k <= 48
    ensures U64(OrLong(OrLong(acc, ShlLong(b, k + 8)), ShlLong(c, k))) == BitOr(BitOr(value, Shl(b, k + 8)), Shl(c, k))
  {
    OrLongAgrees(acc, value, b, k + 8);
    OrLongAgrees(OrLong(acc, ShlLong(b, k + 8)), BitOr(value, Shl(b, k + 8)), c, k);
  }

  function HighHalfLong(u: bytes): jlong
    requires |u| >= 8
  {
    OrLong(OrLong(OrLong(ShlLong(u[0], 56), ShlLong(u[1], 48)), ShlLong(u[2], 40)), ShlLong(u[3], 32))
  }

  lemma HighHalfAgrees(u: bytes)
    requires |u| >= 8
    ensures U64(HighHalfLong(u)) == HighWord(u)
  {
    WordSize();
    ShlBound(u[0], 56);
    U64Signed(Shl(u[0], 56));
    var acc, value := ShlLong(u[0], 56), Shl(u[0], 56);
    OrLongAgrees(acc, value, u[1], 48);
    TwoLinksAgree(OrLong(acc, ShlLong(u[1], 48)), BitOr(value, Shl(u[1], 48)), u[2], u[3], 32);
  }

  lemma LowHalfAgrees(acc: jlong, value: nat, u: bytes)
    requires |u| >= 8 && U64(acc) == value
    ensures U64(OrLong(OrLong(OrLong(OrLong(acc, ShlLong(u[4], 24)), ShlLong(u[5], 16)), ShlLong(u[6], 8)),
                       ShlLong(u[7], 0)))
            == BitOr(BitOr(BitOr(BitOr(value, Shl(u[4], 24)), Shl(u[5], 16)), Shl(u[6], 8)), Shl(u[7], 0))
  {
    TwoLinksAgree(acc, value, u[4], u[5], 16);
    TwoLinksAgree(OrLong(OrLong(acc, ShlLong(u[4], 24)), ShlLong(u[5], 16)),
                  BitOr(BitOr(value, Shl(u[4], 24)), Shl(u[5], 16)), u[6], u[7], 0);
  }

  lemma UnshiftedByte(b: byte)
    ensures Shl(b, 0) == b && ShlLong(b, 0) == b
  {
  }

  /** The signed or-chain reads the same counter as the Go code. */
  lemma ReadCounterAgrees(src: jbytes)
    requires |src| >= 8
    ensures U64(ReadCounter(src)) == Uint64(Unsigned(src))
  {
    var u := Unsigned(src);
    HighHalfAgrees(u);
    LowHalfAgrees(HighHalfLong(u), HighWord(u), u);
    UnshiftedByte(u[7]);
  }

  // ----- frames

  function Nonce(ctr: jlong): jbytes { [0, 0, 0, 0] + CounterBytes(ctr) }

  function PlainBytes(payload: jbytes, pad: jbytes): jbytes {
    [ToByte(|payload| / 256), ToByte(|payload|)] + payload + pad
  }

  function Encrypt(a: Aead, key: jbytes, nonce: jbytes, pt: jbytes): jbytes {
    Signed(a.seal(Unsigned(key), Unsigned(nonce), Unsigned(pt)))
  }

  function Decrypt(a: Aead, key: jbytes, nonce: jbytes, ct: jbytes): Option<jbytes> {
    match a.open(Unsigned(key), Unsigned(nonce), Unsigned(ct))
    case None => None
    case Some(pt) => Some(Signed(pt))
  }

  lemma UnsignedConcat(s: jbytes, t: jbytes)
    ensures Unsigned(s + t) == Unsigned(s) + Unsigned(t)
  {
  }

  lemma UnsignedSlice(s: jbytes, i: nat, j: nat)
    requires i <= j <= |s|
    ensures Unsigned(s[i..j]) == Unsigned(s)[i..j]
  {
  }

  lemma NonceAgrees(ctr: jlong)
    ensures Unsigned(Nonce(ctr)) == NonceFor(U64(ctr))
  {
    CounterBytesAgree(ctr);
    UnsignedConcat([0, 0, 0, 0], CounterBytes(ctr));
    assert Unsigned([0, 0, 0, 0]) == [0, 0, 0, 0];
  }

  lemma HeaderAgrees(size: nat)
    ensures Unsigned([ToByte(size / 256), ToByte(size)]) == [(size / 256) % 256, size % 256]
  {
  }

  lemma PlainAgrees(payload: jbytes, pad: jbytes)
    ensures Unsigned(PlainBytes(payload, pad)) == Plaintext(Unsigned(payload), Unsigned(pad))
  {
    HeaderAgrees(|payload|);
    var head := [ToByte(|payload| / 256), ToByte(|payload|)];
    UnsignedConcat(head, payload);
    UnsignedConcat(head + payload, pad);
  }

  /** A frame put together from signed parts is the Go frame. */
  lemma SealAgrees(a: Aead, key: jbytes, ctr: jlong, payload: jbytes, pad: jbytes)
    ensures Unsigned(CounterBytes(ctr) + Encrypt(a, key, Nonce(ctr), PlainBytes(payload, pad)))
            == SealFrame(a, Unsigned(key), U64(ctr), Unsigned(payload), Unsigned(pad))
  {
    var ct := Encrypt(a, key, Nonce(ctr), PlainBytes(payload, pad));
    UnsignedConcat(CounterBytes(ctr), ct);
    CounterBytesAgree(ctr);
    NonceAgrees(ctr);
    PlainAgrees(payload, pad);
    SignedRoundTrip(a.seal(Unsigned(key), Unsigned(Nonce(ctr)), Unsigned(PlainBytes(payload, pad))));
  }

  /** The tag check on signed bytes sees the Go counter and the Go plaintext. */
  lemma AuthenticateAgrees(a: Aead, key: jbytes, frame: jbytes)
    requires |frame| >= 8
    ensures var plain := Decrypt(a, key, Nonce(ReadCounter(frame)), frame[8..]);
            match Authenticate(a, Unsigned(key), Unsigned(frame))
            case Ok((ctr, pt)) => plain.Some? && Unsigned(plain.value) == pt && U64(ReadCounter(frame)) == ctr
            case Err(e) => plain.None? && e == AuthFailed
  {
    ReadCounterAgrees(frame);
    OrIsBigEndian(Unsigned(frame));
    NonceAgrees(ReadCounter(frame));
    UnsignedSlice(frame, 8, |frame|);
    assert Unsigned(frame)[8..] == Unsigned(frame[8..]);
    match a.open(Unsigned(key), Unsigned(Nonce(ReadCounter(frame))), Unsigned(frame[8..]))
    case None =>
    case Some(pt) => SignedRoundTrip(pt);
  }

  /** System.arraycopy of a whole source into `dst` at `at`. */
  method ArrayCopy(src: jbytes, dst: array<jbyte>, at: nat)
    requires at + |src| <= dst.Length
    modifies dst
    ensures dst[..] == old(dst[..at]) + src + old(dst[at + |src|..])
  {
    forall i | 0 <= i < |src| { dst[at + i] := src[i]; }
  }

  method FillPlaintext(payload: jbytes, pad: jbytes) returns (pt: array<jbyte>)
    ensures fresh(pt) && pt[..] == PlainBytes(payload, pad)
  {
    pt := new jbyte[2 + |payload| + |pad|](_ => 0);
    pt[0] := ToByte(|payload| / 256);
    pt[1] := ToByte(|payload|);
    ghost var head := pt[..2];
    ArrayCopy(payload, pt, 2);
    ArrayCopy(pad, pt, 2 + |payload|);
    assert head == [ToByte(|payload| / 256), ToByte(|payload|)];
  }

  method JoinFrame(ctr: jlong, ct: jbytes) returns (frame: jbytes)
    ensures frame == CounterBytes(ctr) + ct
  {
    var out := new jbyte[8 + |ct|](_ => 0);
    ArrayCopy(CounterBytes(ctr), out, 0);
    ArrayCopy(ct, out, 8);
    frame := out[..];
  }

  lemma NextCounter(ctr: jlong)
    ensures U64(WrapInt64(ctr + 1)) == (U64(ctr) + 1) % TWO_64
  {
  }

  class Session {
    const aead: Aead
    const sendKey: jbytes
    const recvKey: jbytes
    var sendCtr: jlong
    var recvMax: jlong
    var recvSeen: bool

    /** The receive state as the Go session would hold it. */
    ghost function Receiver(): Recv reads this { Recv(U64(recvMax), recvSeen) }

    constructor (aead: Aead, sendKey: jbytes, recvKey: jbytes)
      ensures this.aead == aead && this.sendKey == sendKey && this.recvKey == recvKey
      ensures sendCtr == 0 && Receiver() == FRESH
    {
      this.aead, this.sendKey, this.recvKey := aead, sendKey, recvKey;
      sendCtr, recvMax, recvSeen := 0, 0, false;
    }

    /** Emits the bytes the Go session emits for the same key, counter, packet and pad. */
    method SealRaw(plaintext: jbytes, offset: nat, length: nat, pad: jbytes) returns (frame: jbytes)
      requires offset + length <= |plaintext|
      modifies this`sendCtr
      ensures Unsigned(frame) == SealFrame(aead, Unsigned(sendKey), U64(old(sendCtr)),
                                           Unsigned(plaintext[offset..offset + length]), Unsigned(pad))
      ensures U64(sendCtr) == (U64(old(sendCtr)) + 1) % TWO_64
    {
      var ctr := sendCtr;
      sendCtr := WrapInt64(sendCtr + 1);
      var payload := plaintext[offset..offset + length];
      var pt := FillPlaintext(payload, pad);
      var ct := Encrypt(aead, sendKey, Nonce(ctr), pt[..]);
      frame := JoinFrame(ctr, ct);
      NextCounter(ctr);
      SealAgrees(aead, sendKey, ctr, payload, pad);
    }

    /** Accepts and rejects what the Go session does, with the same payload and the same next state. */
    method Open(frame: jbytes) returns (packet: Result<jbytes, OpenError>)
      modifies this`recvMax, this`recvSeen
      ensures var (out, r) := OpenFrame(aead, Unsigned(recvKey), old(Receiver()), Unsigned(frame));
              Receiver() == r && SameOutcome(packet, out)
    {
      if |frame| < 8 { return Err(ShortFrame); }
      var ctr := ReadCounter(frame);
      AuthenticateAgrees(aead, recvKey, frame);
      var plain := Decrypt(aead, recvKey, Nonce(ctr), frame[8..]);
      if plain.None? { return Err(AuthFailed); }
      var pt := plain.value;
      UnsignedOrder(ctr, recvMax);
      if recvSeen && AtMostUnsigned(ctr, recvMax) { return Err(Replayed); }
      recvMax := ctr;
      recvSeen := true;
      if |pt| < 2 { return Err(ShortFrame); }
      var realLen := BitOr(Shl(U8(pt[0]), 8), U8(pt[1]));
      OrIsLength(Unsigned(pt));
      if realLen > |pt| - 2 { return Err(ShortFrame); }
      UnsignedSlice(pt, 2, 2 + realLen);
      return Ok(pt[2..2 + realLen]);
    }
  }

  ghost predicate SameOutcome(kotlin: Result<jbytes, OpenError>, go: Result<bytes, OpenError>) {
    match (kotlin, go)
    case (Ok(p), Ok(q)) => Unsigned(p) == q
    case (Err(e), Err(f)) => e == f
    case _ => false
  }

  // ----- whole runs

  datatype Op = Seal(payload: bytes, pad: bytes) | Open(frame: bytes)

  datatype Output = Frame(frame: bytes) | Packet(packet: Result<bytes, OpenError>)

  /** The two sessions hold the same keys and the same counters. */
  ghost predicate Matched(go: GoSession.Session, kt: Session) reads go, kt {
    && go.Valid() && go.aead == kt.aead
    && go.sendKey == Unsigned(kt.sendKey) && go.recvKey == Unsigned(kt.recvKey)
    && go.sendCtr == U64(kt.sendCtr) && go.Receiver() == kt.Receiver()
  }

  function Plain(r: Result<jbytes, OpenError>): Result<bytes, OpenError> {
    match r
    case Ok(p) => Ok(Unsigned(p))
    case Err(e) => Err(e)
  }

  /** From matching states, every run of seals and opens gives the same frames, packets and errors on both. */
  method Lockstep(go: GoSession.Session, kt: Session, ops: seq<Op>) returns (goOut: seq<Output>, ktOut: seq<Output>)
    requires Matched(go, kt)
    modifies go, kt
    ensures Matched(go, kt)
    ensures goOut == ktOut && |goOut| == |ops|
  {
    goOut, ktOut := [], [];
    for i := 0 to |ops|
      invariant Matched(go, kt)
      invariant goOut == ktOut && |goOut| == i
    {
      match ops[i]
      case Seal(payload, pad) =>
        var f := go.SealRaw(payload, pad);
        SignedRoundTrip(payload);
        SignedRoundTrip(pad);
        var g := kt.SealRaw(Signed(payload), 0, |payload|, Signed(pad));
        assert Signed(payload)[0..|payload|] == Signed(payload);
        goOut, ktOut := goOut + [Frame(f)], ktOut + [Frame(Unsigned(g))];
      case Open(frame) =>
        var p := go.Open(frame);
        SignedRoundTrip(frame);
        var q := kt.Open(Signed(frame));
        goOut, ktOut := goOut + [Packet(p)], ktOut + [Packet(Plain(q))];
    }
  }
}
