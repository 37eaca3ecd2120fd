/**
 * The data-frame format and the receive rule of internal/protocol/crypto.go, as
 * functions on values.  ChaCha20-Poly1305 is a parameter: a pair of functions.
 */
module Framing {
  import opened Octets

  type Key = bytes

  /** An AEAD as the session uses it: no additional data, a 12-byte nonce. */
  datatype Aead = Aead(seal: (Key, bytes, bytes) -> bytes, open: (Key, bytes, bytes) -> Option<bytes>)

  /** Opening what was sealed under the same key and nonce gives the plaintext. */
  ghost predicate Correct(a: Aead) {
    forall k: Key, n: bytes, p: bytes :: a.open(k, n, a.seal(k, n, p)) == Some(p)
  }

  datatype OpenError = ShortFrame | AuthFailed | Replayed

  /** Receive-side replay state: the highest counter accepted, once one has been. */
  datatype Recv = Recv(max: nat, seen: bool)

  const FRESH := Recv(0, false)

  function NonceFor(ctr: nat): (n: bytes)
    ensures |n| == 12
  {
    [0, 0, 0, 0] + PutUint64(ctr)
  }

  /** realLen(2) || payload || pad; the length is truncated to 16 bits as the code does. */
  function Plaintext(payload: bytes, pad: bytes): bytes {
    [(|payload| / 256) % 256, |payload| % 256] + payload + pad
  }

  function SealFrame(a: Aead, key: Key, ctr: nat, payload: bytes, pad: bytes): bytes {
    PutUint64(ctr) + a.seal(key, NonceFor(ctr), Plaintext(payload, pad))
  }

  /** What Open does before it takes the lock: read the counter and verify the tag. */
  function Authenticate(a: Aead, key: Key, frame: bytes): Result<(nat, bytes), OpenError> {
    if |frame| < 8 then Err(ShortFrame)
    else
      var ctr := BigEndian(frame, 8);
      match a.open(key, NonceFor(ctr), frame[8..])
      case None => Err(AuthFailed)
      case Some(pt) => Ok((ctr, pt))
  }

  /** The locked check: an authenticated counter must strictly advance. */
  predicate Advances(r: Recv, ctr: nat) {
    !(r.seen && ctr <= r.max)
  }

  function Strip(pt: bytes): Result<bytes, OpenError> {
    if |pt| < 2 then Err(ShortFrame)
    else
      var realLen := BigEndian(pt, 2);
      if realLen > |pt| - 2 then Err(ShortFrame) else Ok(pt[2..2 + realLen])
  }

  function OpenFrame(a: Aead, key: Key, r: Recv, frame: bytes): (Result<bytes, OpenError>, Recv) {
    match Authenticate(a, key, frame)
    case Err(e) => (Err(e), r)
    case Ok((ctr, pt)) =>
      if Advances(r, ctr) then (Strip(pt), Recv(ctr, true)) else (Err(Replayed), r)
  }

  // ----- properties

  /** What the two-byte length header lets through. */
  function Carried(payload: bytes): bytes {
    payload[..|payload| % TWO_16]
  }

  function CarriedAll(payloads: seq<bytes>): seq<bytes> {
    seq(|payloads|, i requires 0 <= i < |payloads| => Carried(payloads[i]))
  }

  lemma NonceInjective(i: nat, j: nat)
    requires i < TWO_64 && j < TWO_64 && NonceFor(i) == NonceFor(j)
    ensures i == j
  {
    assert PutUint64(i) == NonceFor(i)[4..] == NonceFor(j)[4..] == PutUint64(j);
    PutInjective(i, j);
  }

  /** `int(pt[0])<<8 | int(pt[1])` is the big-endian length. */
  lemma OrIsLength(pt: bytes)
    requires |pt| >= 2
    ensures BitOr(Shl(pt[0], 8), pt[1]) == BigEndian(pt, 2)
  {
    OrByte(pt[0], pt[1], 0);
    assert BigEndian(pt, 1) == pt[0];
  }

  lemma LowBytes(size: nat)
    ensures (size / 256) % 256 * 256 + size % 256 == size % TWO_16
  {
    var q, q' := size / 256, size / 256 / 256;
    assert size == q' * TWO_16 + (q % 256 * 256 + size % 256);
  }

  lemma StripPlaintext(payload: bytes, pad: bytes)
    ensures Strip(Plaintext(payload, pad)) == Ok(Carried(payload))
  {
    var pt := Plaintext(payload, pad);
    var n := |payload| % TWO_16;
    LowBytes(|payload|);
    assert BigEndian(pt, 1) == pt[0];
    assert BigEndian(pt, 2) == n;
    assert pt == pt[..2] + payload + pad;
    assert pt[2..2 + n] == Carried(payload);
  }

  lemma {:induction false} BigEndianPrefix(s: bytes, t: bytes, n: nat)
    requires n <= |s| <= |t| && s == t[..|s|]
    ensures BigEndian(s, n) == BigEndian(t, n)
  {
    if n > 0 { BigEndianPrefix(s, t, n - 1); }
  }

  /** The counter and plaintext that Open sees are the ones sealRaw used. */
  lemma AuthenticateSealed(a: Aead, key: Key, ctr: nat, payload: bytes, pad: bytes)
    requires Correct(a) && ctr < TWO_64
    ensures Authenticate(a, key, SealFrame(a, key, ctr, payload, pad)) == Ok((ctr, Plaintext(payload, pad)))
  {
    var frame := SealFrame(a, key, ctr, payload, pad);
    ReadWrite64(ctr);
    BigEndianPrefix(PutUint64(ctr), frame, 8);
    assert frame[8..] == a.seal(key, NonceFor(ctr), Plaintext(payload, pad));
  }

  /**
   * Opening a sealed frame: accepted exactly when its counter advances, and then
   * the payload comes back unchanged exactly when its length fits the header.
   */
  lemma OpenSealed(a: Aead, key: Key, r: Recv, ctr: nat, payload: bytes, pad: bytes)
    requires Correct(a) && ctr < TWO_64
    ensures var (out, r') := OpenFrame(a, key, r, SealFrame(a, key, ctr, payload, pad));
            if Advances(r, ctr) then out == Ok(Carried(payload)) && r' == Recv(ctr, true)
            else out == Err(Replayed) && r' == r
    ensures Carried(payload) == payload <==> |payload| < TWO_16
  {
    AuthenticateSealed(a, key, ctr, payload, pad);
    StripPlaintext(payload, pad);
    CarriedWhole(payload);
  }

  lemma CarriedWhole(payload: bytes)
    ensures Carried(payload) == payload <==> |payload| < TWO_16
  {
    if |payload| < TWO_16 { assert Carried(payload) == payload; }
  }

  lemma AllCarriedWhole(payloads: seq<bytes>)
    requires forall i :: 0 <= i < |payloads| ==> |payloads[i]| < TWO_16
    ensures CarriedAll(payloads) == payloads
  {
    forall i | 0 <= i < |payloads| ensures Carried(payloads[i]) == payloads[i] { CarriedWhole(payloads[i]); }
  }

  // ----- many frames, one after the other

  /** The packets Open returns for these frames, and the receive state after them. */
  function OpenAll(a: Aead, key: Key, r: Recv, frames: seq<bytes>): (seq<bytes>, Recv) {
    if frames == [] then ([], r)
    else
      var (packets, r') := OpenAll(a, key, r, frames[..|frames| - 1]);
      match OpenFrame(a, key, r', frames[|frames| - 1])
      case (Ok(p), r'') => (packets + [p], r'')
      case (Err(_), r'') => (packets, r'')
  }

  function Verifying(a: Aead, key: Key, frames: seq<bytes>): seq<bytes> {
    if frames == [] then []
    else
      var last := frames[|frames| - 1];
      Verifying(a, key, frames[..|frames| - 1]) + (if Authenticate(a, key, last).Ok? then [last] else [])
  }

  /** Short frames and frames whose tag fails might as well not have come: same packets, same state. */
  lemma {:induction false} ForgeriesLeaveNoTrace(a: Aead, key: Key, r: Recv, frames: seq<bytes>)
    ensures OpenAll(a, key, r, Verifying(a, key, frames)) == OpenAll(a, key, r, frames)
  {
    if frames != [] {
      var front, last := frames[..|frames| - 1], frames[|frames| - 1];
      ForgeriesLeaveNoTrace(a, key, r, front);
      var kept := Verifying(a, key, front);
      assert (kept + [last])[..|kept|] == kept && kept + [] == kept;
    }
  }

  // ----- the bytes on the wire

  lemma {:induction false} BigEndianZeros(t: bytes, n: nat)
    requires n <= |t|
    ensures BigEndian([0, 0, 0, 0] + t, 4 + n) == BigEndian(t, n)
  {
    var s := [0, 0, 0, 0] + t;
    if n == 0 {
      assert BigEndian(s, 1) == BigEndian(s, 0) * 256 + s[0] == 0;
      assert BigEndian(s, 2) == BigEndian(s, 1) * 256 + s[1] == 0;
      assert BigEndian(s, 3) == BigEndian(s, 2) * 256 + s[2] == 0;
      assert BigEndian(s, 4) == BigEndian(s, 3) * 256 + s[3] == 0;
    } else {
      BigEndianZeros(t, n - 1);
    }
  }

  /** The nonce is the counter as a 12-byte big-endian number; the frame starts with it as an 8-byte one. */
  lemma CounterOnWire(a: Aead, key: Key, ctr: nat, payload: bytes, pad: bytes)
    requires ctr < TWO_64
    ensures BigEndian(NonceFor(ctr), 12) == ctr
    ensures var frame := SealFrame(a, key, ctr, payload, pad);
            && |frame| >= 8 && BigEndian(frame[..8], 8) == ctr
            && frame[8..] == a.seal(key, NonceFor(ctr), Plaintext(payload, pad))
  {
    ReadWrite64(ctr);
    BigEndianZeros(PutUint64(ctr), 8);
    var frame := SealFrame(a, key, ctr, payload, pad);
    assert frame[..8] == PutUint64(ctr);
  }

  /** The sealed text is the low 16 bits of the length, big-endian, then the payload, then the pad. */
  lemma PlaintextOnWire(payload: bytes, pad: bytes)
    ensures var pt := Plaintext(payload, pad);
            && |pt| == 2 + |payload| + |pad| && BigEndian(pt[..2], 2) == |payload| % 65536
            && pt[2..2 + |payload|] == payload && pt[2 + |payload|..] == pad
  {
    var pt := Plaintext(payload, pad);
    LowBytes(|payload|);
    assert BigEndian(pt[..2], 1) == pt[0];
    assert pt == pt[..2] + payload + pad;
  }

  /** Stripping succeeds exactly on a payload of fewer than 65536 bytes under its header, whatever follows. */
  lemma StripExactly(pt: bytes, p: bytes)
    ensures Strip(pt) == Ok(p) <==> |p| < 65536 && exists pad :: pt == Plaintext(p, pad)
  {
    if Strip(pt) == Ok(p) {
      var pad := pt[2 + |p|..];
      var hi: int, lo: int := pt[0], pt[1];
      assert BigEndian(pt, 1) == BigEndian(pt, 0) * 256 + hi == hi;
      assert BigEndian(pt, 2) == BigEndian(pt, 1) * 256 + lo;
      assert pt == [pt[0], pt[1]] + p + pad;
      assert pt == Plaintext(p, pad);
    }
    if |p| < 65536 {
      if pad :| pt == Plaintext(p, pad) {
        StripPlaintext(p, pad);
        CarriedWhole(p);
      }
    }
  }

  /**
   * Open returns a packet exactly when the frame has a counter above the highest
   * accepted one and its body opens, under that counter, to the packet with its
   * length in front and any pad behind.
   */
  lemma OpensExactly(a: Aead, key: Key, r: Recv, frame: bytes, p: bytes)
    ensures OpenFrame(a, key, r, frame).0 == Ok(p) <==>
              && |frame| >= 8 && (r.seen ==> r.max < BigEndian(frame[..8], 8)) && |p| < 65536
              && exists pad ::
                   a.open(key, NonceFor(BigEndian(frame[..8], 8)), frame[8..]) == Some(Plaintext(p, pad))
  {
    if |frame| >= 8 {
      BigEndianPrefix(frame[..8], frame, 8);
      match Authenticate(a, key, frame)
      case Err(_) =>
      case Ok((_, pt)) => StripExactly(pt, p);
    }
  }
}
