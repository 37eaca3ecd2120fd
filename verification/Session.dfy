/** The Go Session of internal/protocol/crypto.go: fields updated in place, buffers filled by index. */
module GoSession {
  import opened Octets
  import opened Framing

  /** The plaintext buffer: two length bytes stored by index, then the payload and the pad copied in. */
  method FillPlaintext(payload: bytes, pad: bytes) returns (pt: array<byte>)
    ensures fresh(pt) && pt[..] == Plaintext(payload, pad)
  {
    pt := new byte[2 + |payload| + |pad|](_ => 0);
    var size := |payload|;
    pt[0] := (size / 256) % 256;
    pt[1] := size % 256;
    forall i | 0 <= i < size { pt[2 + i] := payload[i]; }
    forall i | 0 <= i < |pad| { pt[2 + size + i] := pad[i]; }
  }

  /** Add(1) - 1 on a wrapping counter is the value before the add. */
  lemma FetchedBefore(ctr: nat)
    requires ctr < TWO_64
    ensures ((ctr + 1) % TWO_64 - 1) % TWO_64 == ctr
  {
  }

  /** The counter of a session after `n` seals: the atomic wraps at 2^64. */
  function CounterAfter(n: nat): (ctr: nat)
    ensures ctr < TWO_64
  {
    if n == 0 then 0 else (CounterAfter(n - 1) + 1) % TWO_64
  }

  lemma {:induction false} CounterIsRemainder(n: nat)
    ensures CounterAfter(n) == n % TWO_64
  {
    if n > 0 { CounterIsRemainder(n - 1); }
  }

  /** The n-th and the m-th seal of a session use one nonce exactly when n and m agree modulo 2^64. */
  lemma NonceRepeats(n: nat, m: nat)
    ensures NonceFor(CounterAfter(n)) == NonceFor(CounterAfter(m)) <==> n % TWO_64 == m % TWO_64
  {
    CounterIsRemainder(n);
    CounterIsRemainder(m);
    if NonceFor(CounterAfter(n)) == NonceFor(CounterAfter(m)) { NonceInjective(CounterAfter(n), CounterAfter(m)); }
  }

  class Session {
    const aead: Aead
    const sendKey: Key
    const recvKey: Key
    var sendCtr: nat
    var recvMax: nat
    var recvSeen: bool
    ghost var seals: nat // how often SealRaw was called

    ghost predicate Valid() reads this { sendCtr == CounterAfter(seals) && recvMax < TWO_64 }

    ghost function Receiver(): Recv reads this { Recv(recvMax, recvSeen) }

    constructor (aead: Aead, sendKey: Key, recvKey: Key)
      ensures Valid() && this.aead == aead && this.sendKey == sendKey && this.recvKey == recvKey
      ensures sendCtr == seals == 0 && Receiver() == FRESH
    {
      this.aead, this.sendKey, this.recvKey := aead, sendKey, recvKey;
      sendCtr, recvMax, recvSeen, seals := 0, 0, false, 0;
    }

    /** One atomic fetch of the counter, then the frame sealed under it; the counter wraps at 2^64. */
    method SealRaw(payload: bytes, pad: bytes) returns (frame: bytes)
      requires Valid()
      modifies this`sendCtr, this`seals
      ensures Valid() && seals == old(seals) + 1
      ensures frame == SealFrame(aead, sendKey, old(sendCtr), payload, pad)
      ensures sendCtr == (old(sendCtr) + 1) % TWO_64
    {
      sendCtr, seals := (sendCtr + 1) % TWO_64, seals + 1;
      var ctr := (sendCtr - 1) % TWO_64;
      FetchedBefore(old(sendCtr));
      var nonce := NonceFor(ctr);
      var pt := FillPlaintext(payload, pad);
      frame := PutUint64(ctr) + aead.seal(sendKey, nonce, pt[..]);
    }

    /** Verify, then check and advance the counter, then strip the padding. */
    method Open(frame: bytes) returns (packet: Result<bytes, OpenError>)
      requires Valid()
      modifies this`recvMax, this`recvSeen
      ensures Valid()
      ensures (packet, Receiver()) == OpenFrame(aead, recvKey, old(Receiver()), frame)
    {
      if |frame| < 8 { return Err(ShortFrame); }
      var ctr := Uint64(frame);
      Below64(frame);
      var plain := aead.open(recvKey, NonceFor(ctr), frame[8..]);
      if plain.None? { return Err(AuthFailed); }
      var pt := plain.value;
      if recvSeen && ctr <= recvMax { return Err(Replayed); }
      recvMax := ctr;
      recvSeen := true;
      if |pt| < 2 { return Err(ShortFrame); }
      var realLen := BitOr(Shl(pt[0], 8), pt[1]);
      OrIsLength(pt);
      if realLen > |pt| - 2 { return Err(ShortFrame); }
      return Ok(pt[2..2 + realLen]);
    }
  }
}
