/** The desktop client's end of a session: ReadPacket and WritePacket of internal/client/tunnel.go. */
module ClientTunnel {
  import opened Octets
  import opened Framing
  import G = GoSession

  /** A WebSocket message: control JSON, or a data frame. */
  datatype Message = Text | Binary(frame: bytes)

  datatype ReadError = Closed | Decrypt(error: OpenError)

  /** The first data frame at or after `i`; the length if there is none. */
  function NextBinary(msgs: seq<Message>, i: nat): (k: nat)
    requires i <= |msgs|
    ensures i <= k <= |msgs| && (k < |msgs| ==> msgs[k].Binary?)
    ensures forall j :: i <= j < k ==> msgs[j].Text?
    decreases |msgs| - i
  {
    if i == |msgs| || msgs[i].Binary? then i else NextBinary(msgs, i + 1)
  }

  class Tunnel {
    const session: G.Session
    const incoming: seq<Message> // what the transport delivers before it ends
    var pos: nat
    var outgoing: seq<Message>
    var rxBytes: nat
    var txBytes: nat

    ghost predicate Valid() reads this, session {
      session.Valid() && pos <= |incoming| && rxBytes < TWO_64 && txBytes < TWO_64
    }

    constructor (session: G.Session, incoming: seq<Message>)
      requires session.Valid()
      ensures Valid() && this.session == session && this.incoming == incoming
      ensures pos == 0 && outgoing == [] && rxBytes == 0 && txBytes == 0
    {
      this.session, this.incoming := session, incoming;
      pos, outgoing, rxBytes, txBytes := 0, [], 0, 0;
    }

    /** Skips control messages; opens the next data frame, once; counts the bytes of an accepted packet. */
    method ReadPacket() returns (r: Result<bytes, ReadError>)
      requires Valid()
      modifies this`pos, this`rxBytes, session`recvMax, session`recvSeen
      ensures Valid()
      ensures var k := NextBinary(incoming, old(pos));
              if k == |incoming| then
                && r == Err(Closed) && pos == k && rxBytes == old(rxBytes)
                && session.Receiver() == old(session.Receiver())
              else
                var (out, rx) := OpenFrame(session.aead, session.recvKey, old(session.Receiver()), incoming[k].frame);
                && pos == k + 1 && session.Receiver() == rx
                && match out
                   case Ok(p) => r == Ok(p) && rxBytes == (old(rxBytes) + |p|) % TWO_64
                   case Err(e) => r == Err(Decrypt(e)) && rxBytes == old(rxBytes)
    {
      while pos < |incoming|
        invariant Valid() && old(pos) <= pos
        invariant NextBinary(incoming, old(pos)) == NextBinary(incoming, pos)
        invariant rxBytes == old(rxBytes) && session.Receiver() == old(session.Receiver())
        decreases |incoming| - pos
      {
        var m := incoming[pos];
        pos := pos + 1;
        if m.Text? { continue; }
        var out := session.Open(m.frame);
        if out.Err? { return Err(Decrypt(out.error)); }
        rxBytes := (rxBytes + |out.value|) % TWO_64;
        return Ok(out.value);
      }
      return Err(Closed);
    }

    /** Seals first, then writes; a failed write loses the frame but not its counter. */
    method WritePacket(pkt: bytes, pad: bytes, writable: bool)
      requires Valid()
      modifies this`outgoing, this`txBytes, session`sendCtr, session`seals
      ensures Valid() && session.sendCtr == (old(session.sendCtr) + 1) % TWO_64
      ensures var frame := SealFrame(session.aead, session.sendKey, old(session.sendCtr), pkt, pad);
              if writable then outgoing == old(outgoing) + [Binary(frame)] && txBytes == (old(txBytes) + |pkt|) % TWO_64
              else outgoing == old(outgoing) && txBytes == old(txBytes)
    {
      var frame := session.SealRaw(pkt, pad);
      if !writable { return; }
      outgoing := outgoing + [Binary(frame)];
      txBytes := (txBytes + |pkt|) % TWO_64;
    }
  }

  // ----- a whole conversation

  datatype Sending = Sending(pkt: bytes, pad: bytes, ping: bool)

  /** The messages a peer writes for these packets: frame i under counter i, a control message before some. */
  function Stream(a: Aead, key: Key, sends: seq<Sending>, n: nat): seq<Message>
    requires n <= |sends|
  {
    if n == 0 then []
    else
      var s := sends[n - 1];
      Stream(a, key, sends, n - 1) + (if s.ping then [Text] else []) + [Binary(SealFrame(a, key, n - 1, s.pkt, s.pad))]
  }

  lemma {:induction false} StreamPrefix(a: Aead, key: Key, sends: seq<Sending>, i: nat, n: nat)
    requires i <= n <= |sends|
    ensures Stream(a, key, sends, i) <= Stream(a, key, sends, n)
  {
    if i < n { StreamPrefix(a, key, sends, i, n - 1); }
  }

  /** After the first `i` packets, the next data frame is frame `i`, and it ends the stretch for packet `i`. */
  lemma NextInStream(a: Aead, key: Key, sends: seq<Sending>, i: nat)
    requires i < |sends|
    ensures var msgs, at := Stream(a, key, sends, |sends|), |Stream(a, key, sends, i)|;
            && at <= |msgs|
            && var k := NextBinary(msgs, at);
            && k < |msgs| && k + 1 == |Stream(a, key, sends, i + 1)|
            && msgs[k] == Binary(SealFrame(a, key, i, sends[i].pkt, sends[i].pad))
  {
    var msgs := Stream(a, key, sends, |sends|);
    var before, after := Stream(a, key, sends, i), Stream(a, key, sends, i + 1);
    StreamPrefix(a, key, sends, i + 1, |sends|);
    assert forall j :: 0 <= j < |after| ==> msgs[j] == after[j];
    if sends[i].ping { assert after[|before|] == Text; }
  }

  method SendAll(a: Aead, key: Key, otherKey: Key, sends: seq<Sending>) returns (msgs: seq<Message>)
    requires |sends| < TWO_64
    ensures msgs == Stream(a, key, sends, |sends|)
  {
    var peer := new G.Session(a, key, otherKey);
    msgs := [];
    for i := 0 to |sends|
      invariant peer.Valid() && peer.aead == a && peer.sendKey == key && peer.sendCtr == i
      invariant msgs == Stream(a, key, sends, i)
    {
      var s := sends[i];
      CounterBelow(i);
      var frame := peer.SealRaw(s.pkt, s.pad);
      StreamStep(a, key, sends, i, frame);
      msgs := msgs + (if s.ping then [Text] else []) + [Binary(frame)];
    }
  }

  lemma CounterBelow(i: nat)
    requires i + 1 < TWO_64
    ensures (i + 1) % TWO_64 == i + 1
  {
  }

  lemma StreamStep(a: Aead, key: Key, sends: seq<Sending>, i: nat, frame: bytes)
    requires i < |sends| && frame == SealFrame(a, key, i, sends[i].pkt, sends[i].pad)
    ensures Stream(a, key, sends, i + 1)
            == Stream(a, key, sends, i) + (if sends[i].ping then [Text] else []) + [Binary(frame)]
  {
  }

  /** One read at the start of packet `i`'s stretch returns packet `i`. */
  method ReadNext(t: Tunnel, ghost sends: seq<Sending>, ghost i: nat) returns (pkt: bytes)
    requires t.Valid() && Correct(t.session.aead) && i < |sends| < TWO_64 && |sends[i].pkt| < TWO_16
    requires t.incoming == Stream(t.session.aead, t.session.recvKey, sends, |sends|)
    requires t.pos == |Stream(t.session.aead, t.session.recvKey, sends, i)|
    requires Advances(t.session.Receiver(), i)
    modifies t, t.session
    ensures t.Valid() && pkt == sends[i].pkt && t.session.Receiver() == Recv(i, true)
    ensures t.pos == |Stream(t.session.aead, t.session.recvKey, sends, i + 1)|
  {
    NextInStream(t.session.aead, t.session.recvKey, sends, i);
    OpenSealed(t.session.aead, t.session.recvKey, t.session.Receiver(), i, sends[i].pkt, sends[i].pad);
    var r := t.ReadPacket();
    return r.value;
  }

  /** Everything a peer seals, in order and among control messages, ReadPacket returns unchanged and in order. */
  method Converse(a: Aead, key: Key, otherKey: Key, sends: seq<Sending>) returns (received: seq<bytes>)
    requires Correct(a) && |sends| < TWO_64
    requires forall i :: 0 <= i < |sends| ==> |sends[i].pkt| < TWO_16
    ensures |received| == |sends| && forall i :: 0 <= i < |sends| ==> received[i] == sends[i].pkt
  {
    var msgs := SendAll(a, key, otherKey, sends);
    var mine := new G.Session(a, otherKey, key);
    var t := new Tunnel(mine, msgs);
    received := [];
    for i := 0 to |sends|
      invariant t.Valid() && t.session == mine && t.incoming == msgs
      invariant t.pos == |Stream(a, key, sends, i)|
      invariant Advances(mine.Receiver(), i)
      invariant |received| == i && forall j :: 0 <= j < i ==> received[j] == sends[j].pkt
    {
      var pkt := ReadNext(t, sends, i);
      received := received + [pkt];
    }
  }
}
