/**
 * Uplink: whose packets reach the TUN device.  What a client sends is arbitrary
 * bytes; the last result adds an ideal AEAD and separate keys.
 */
module Uplink {
  import opened Octets
  import opened Framing
  import opened AddressPool
  import opened Flow
  import opened Tunnel
  import C = Channel
  import O = Ownership

  type Written = seq<(ConnId, bytes)>

  /** The packets one session has written to the TUN, in order. */
  function WrittenBy(out: Written, c: ConnId): seq<bytes> {
    if out == [] then []
    else
      var last := out[|out| - 1];
      WrittenBy(out[..|out| - 1], c) + (if last.0 == c then [last.1] else [])
  }

  function InHand(pending: Option<bytes>): seq<bytes> { if pending.Some? then [pending.value] else [] }

  /** A session forwards exactly the decrypted packets that pass the checks, in order. */
  ghost predicate ForwardsExactly(out: Written, c: ConnId, f: Flow, ip: nat) {
    WrittenBy(out, c) + InHand(f.pending) == Select(f.decrypted, ip)
  }

  predicate SentBy(slots: O.Slots, c: ConnId, pkt: bytes) {
    c in slots && Greeted(slots[c].phase) && Passes(pkt, slots[c].ip)
  }

  // ----- invariant; it needs nothing of the pool, the AEAD, the MTU or the clock

  ghost predicate UpOk(s: State, c: ConnId)
    requires c in s.flows
  {
    var f := s.flows[c];
    && c in s.own.slots && ForwardsExactly(s.tunOut, c, f, s.own.slots[c].ip)
    && (f.pending.Some? ==> s.own.slots[c].phase.Serving? && SentBy(s.own.slots, c, f.pending.value))
  }

  ghost predicate WritesOk(out: Written, slots: O.Slots, flows: map<ConnId, Flow>) {
    forall i :: 0 <= i < |out| ==> out[i].0 in flows && SentBy(slots, out[i].0, out[i].1)
  }

  ghost predicate Up(s: State) {
    && FlowsExist(s.own.slots, s.flows) && WritesOk(s.tunOut, s.own.slots, s.flows)
    && forall c :: c in s.flows ==> UpOk(s, c)
  }

  lemma WrittenSnoc(out: Written, c: ConnId, pkt: bytes, d: ConnId)
    ensures WrittenBy(out + [(c, pkt)], d) == WrittenBy(out, d) + (if d == c then [pkt] else [])
  {
    assert (out + [(c, pkt)])[..|out|] == out;
  }

  lemma {:induction false} NothingWritten(out: Written, c: ConnId)
    requires forall i :: 0 <= i < |out| ==> out[i].0 != c
    ensures WrittenBy(out, c) == []
  {
    if out != [] { NothingWritten(out[..|out| - 1], c); }
  }

  lemma OnlyTunWriteWrites(s: State, step: Step)
    requires !step.TunWrite?
    ensures Apply(s, step).tunOut == s.tunOut
  {
  }

  lemma StepWrites(s: State, step: Step)
    requires Up(s)
    ensures WritesOk(Apply(s, step).tunOut, Apply(s, step).own.slots, Apply(s, step).flows)
  {
    var s' := Apply(s, step);
    StepForward(s, step);
    forall c | c in s.flows ensures c in s'.flows { KeysStay(s, step, c); }
    if Enabled(s, step) && step.TunWrite? {
      assert UpOk(s, step.c);
    } else {
      if !step.TunWrite? { OnlyTunWriteWrites(s, step); }
    }
  }

  // ----- one session under each step

  predicate SameUp(f: Flow, g: Flow) { g.pending == f.pending && g.decrypted == f.decrypted }

  lemma TouchedSameUp(s: State, step: Step)
    requires Enabled(s, step) && Touched(s, step).Some? && !step.Greet? && !step.ServerRead? && !step.TunWrite?
    ensures Touched(s, step).value in s.flows && SameUp(s.flows[Touched(s, step).value], FlowAfter(s, step))
  {
  }

  lemma SameUpOtherwise(s: State, step: Step, d: ConnId)
    requires FlowsExist(s.own.slots, s.flows) && d in s.flows
    requires !((step.ServerRead? || step.TunWrite?) && step.c == d)
    ensures d in Apply(s, step).flows && SameUp(s.flows[d], Apply(s, step).flows[d])
  {
    if Enabled(s, step) && Touched(s, step) == Some(d) {
      if step.Greet? { GreetKeepsExist(s.own, step.c, s.flows, FlowAfter(s, step)); } else { TouchedSameUp(s, step); }
    }
  }

  /** A session with a packet in hand stays in its read loop until it has written it. */
  lemma StaysServing(s: State, step: Step, d: ConnId)
    requires Serving(s, d) && s.flows[d].pending.Some?
    ensures d in Apply(s, step).own.slots && Apply(s, step).own.slots[d].phase.Serving?
  {
    if Enabled(s, step) && LifeOf(s, step).Some? { LifeKeepsServing(s.own, LifeOf(s, step).value, d); }
  }

  lemma LifeKeepsServing(o: O.Own, l: O.Step, c: ConnId)
    requires c in o.slots && o.slots[c].phase.Serving? && l != O.Leave(c)
    ensures c in O.Apply(o, l).slots && O.Apply(o, l).slots[c].phase.Serving?
  {
  }

  lemma TunWriteKeeps(s: State, c: ConnId, d: ConnId)
    requires Enabled(s, TunWrite(c)) && d in s.flows && UpOk(s, d)
    ensures UpOk(Apply(s, TunWrite(c)), d)
  {
    WrittenSnoc(s.tunOut, c, s.flows[c].pending.value, d);
  }

  lemma OpenedForwards(s: State, c: ConnId, frame: bytes)
    requires Serving(s, c) && s.flows[c].pending.None? && UpOk(s, c)
    ensures var g, ip := Opened(s, c, frame), s.own.slots[c].ip;
            ForwardsExactly(s.tunOut, c, g, ip) && (g.pending.Some? ==> Passes(g.pending.value, ip))
    ensures var g := Opened(s, c, frame);
            g.pending.Some? ==> OpenFrame(s.aead, s.flows[c].server.recv, s.flows[c].up, frame).0.Ok?
  {
    var f := s.flows[c];
    match OpenFrame(s.aead, f.server.recv, f.up, frame)
    case (Ok(pkt), _) => SelectSnoc(f.decrypted, pkt, s.own.slots[c].ip);
    case (Err(_), _) =>
  }

  lemma ServerReadKeeps(s: State, c: ConnId, frame: bytes)
    requires Enabled(s, ServerRead(c, frame)) && UpOk(s, c)
    ensures UpOk(Apply(s, ServerRead(c, frame)), c)
  {
    var s' := Apply(s, ServerRead(c, frame));
    OpenedForwards(s, c, frame);
    LeaveKeepsSlot(s.own, c);
    assert s'.flows[c] == Opened(s, c, frame) && s'.tunOut == s.tunOut;
    if OpenFrame(s.aead, s.flows[c].server.recv, s.flows[c].up, frame).0.Ok? {
      assert s'.own.slots == s.own.slots;
    } else {
      assert s'.own == O.Apply(s.own, O.Leave(c));
    }
  }

  lemma LeaveKeepsSlot(o: O.Own, c: ConnId)
    requires c in o.slots && Greeted(o.slots[c].phase)
    ensures var o' := O.Apply(o, O.Leave(c));
            c in o'.slots && Greeted(o'.slots[c].phase) && o'.slots[c].ip == o.slots[c].ip
  {
  }

  lemma OtherKeeps(s: State, step: Step, d: ConnId)
    requires FlowsExist(s.own.slots, s.flows) && d in s.flows && UpOk(s, d)
    requires !step.TunWrite? && !(step.ServerRead? && step.c == d)
    ensures d in Apply(s, step).flows && UpOk(Apply(s, step), d)
  {
    OnlyTunWriteWrites(s, step);
    SameUpOtherwise(s, step, d);
    StepForward(s, step);
    if s.flows[d].pending.Some? { StaysServing(s, step, d); }
  }

  lemma GreetedUpOk(s: State, step: Step)
    requires Up(s) && step.Greet? && Enabled(s, step)
    ensures step.c in Apply(s, step).flows && UpOk(Apply(s, step), step.c)
  {
    GreetKeepsExist(s.own, step.c, s.flows, FlowAfter(s, step));
    NothingWritten(s.tunOut, step.c);
  }

  lemma StepUpOk(s: State, step: Step, d: ConnId)
    requires Up(s) && Enabled(s, step) && d in Apply(s, step).flows
    ensures UpOk(Apply(s, step), d)
  {
    if d !in s.flows {
      OnlyGreetAdds(s, step, d);
      GreetedUpOk(s, step);
    } else if step.TunWrite? {
      TunWriteKeeps(s, step.c, d);
    } else if step.ServerRead? && step.c == d {
      ServerReadKeeps(s, d, step.frame);
    } else {
      OtherKeeps(s, step, d);
    }
  }

  lemma StepKeepsUp(s: State, step: Step)
    requires Up(s)
    ensures Up(Apply(s, step))
  {
    var s' := Apply(s, step);
    StepExists(s, step);
    StepWrites(s, step);
    if Enabled(s, step) {
      forall d | d in s'.flows ensures UpOk(s', d) { StepUpOk(s, step, d); }
    }
  }

  lemma {:induction false} RunUp(d: Setup, steps: seq<Step>)
    ensures Up(Run(Init(d), steps))
  {
    if steps != [] {
      RunUp(d, steps[..|steps| - 1]);
      StepKeepsUp(Run(Init(d), steps[..|steps| - 1]), steps[|steps| - 1]);
    }
  }

  // ----- main result: attribution

  /** The session is the registered client at its address and the only live one that holds it. */
  ghost predicate SoleOwner(o: O.Own, c: ConnId)
    requires c in o.slots
  {
    && o.slots[c].ip in o.clients && o.clients[o.slots[c].ip] == c
    && forall d :: O.Holder(o.slots, d) && d != c ==> o.slots[d].ip != o.slots[c].ip
  }

  /** The session's writes, the one in hand included, are exactly its decrypted packets from its own address. */
  ghost predicate WritesExactly(s: State, c: ConnId, idx: seq<nat>)
    requires c in s.flows && c in s.own.slots
  {
    && Picks(WrittenBy(s.tunOut, c) + InHand(s.flows[c].pending), s.flows[c].decrypted, idx)
    && forall i :: 0 <= i < |s.flows[c].decrypted| ==>
         (i in idx <==> IsFrom(s.flows[c].decrypted[i], s.own.slots[c].ip))
  }

  lemma UpWritesExactly(s: State, c: ConnId) returns (idx: seq<nat>)
    requires c in s.flows && UpOk(s, c)
    ensures WritesExactly(s, c, idx)
  {
    idx := Selected(s.flows[c].decrypted, s.own.slots[c].ip);
    SelectPicks(s.flows[c].decrypted, s.own.slots[c].ip);
    SelectedExactly(s.flows[c].decrypted, s.own.slots[c].ip);
  }

  /**
   * Uplink attribution, on arbitrary bytes from the clients: every packet ever
   * written to the TUN is IPv4 and carries its session's address in its source bytes;
   * a session's writes are exactly, and in order, the packets it decrypted that do;
   * and whenever a session is about to write one, it is the registered client at
   * that address and no other live session holds it.
   */
  lemma UplinkAttributed(d: Setup, steps: seq<Step>, c: ConnId)
    requires Valid(d.pool) && d.pool.held == {}
    ensures var s := Run(Init(d), steps);
            && (forall i :: 0 <= i < |s.tunOut| ==>
                  s.tunOut[i].0 in s.own.slots && IsFrom(s.tunOut[i].1, s.own.slots[s.tunOut[i].0].ip))
            && (c in s.flows ==> c in s.own.slots && exists idx :: WritesExactly(s, c, idx))
            && (c in s.flows && s.flows[c].pending.Some? ==> Serving(s, c) && SoleOwner(s.own, c))
  {
    var s := Run(Init(d), steps);
    RunUp(d, steps);
    RunOwned(d, steps);
    forall i | 0 <= i < |s.tunOut| ensures IsFrom(s.tunOut[i].1, s.own.slots[s.tunOut[i].0].ip) {
      PassesExactly(s.tunOut[i].1, s.own.slots[s.tunOut[i].0].ip);
    }
    if c in s.flows {
      assert UpOk(s, c);
      var idx := UpWritesExactly(s, c);
      assert s.flows[c].pending.Some? ==> O.Holder(s.own.slots, c);
    }
  }

  // ----- with an ideal AEAD and separate keys

  /** Nobody else seals with the key this session receives with. */
  ghost predicate Separate(s: State, c: ConnId)
    requires c in s.flows
  {
    && (forall d :: d in s.flows && d != c ==> s.flows[d].client.send != s.flows[c].server.recv)
    && (forall d :: d in s.flows ==> s.flows[d].server.send != s.flows[c].server.recv)
  }

  ghost predicate PeerOk(s: State, c: ConnId)
    requires c in s.flows
  {
    Separate(s, c) && !s.flows[c].forged ==> OpenedGenuine(s.flows[c])
  }

  ghost predicate Peers(s: State) {
    FlowsExist(s.own.slots, s.flows) && forall c :: c in s.flows ==> PeerOk(s, c)
  }

  lemma SeparateBefore(s: State, step: Step, c: ConnId)
    requires FlowsExist(s.own.slots, s.flows) && c in s.flows
    requires c in Apply(s, step).flows && Separate(Apply(s, step), c)
    ensures Separate(s, c)
  {
    KeysStay(s, step, c);
    forall d | d in s.flows ensures d in Apply(s, step).flows && SameKeys(s.flows[d], Apply(s, step).flows[d]) {
      KeysStay(s, step, d);
    }
  }

  /** An accepted frame that was not forged carries what this session's client sealed. */
  lemma ReadGenuine(s: State, c: ConnId, frame: bytes)
    requires Serving(s, c) && OpenedGenuine(s.flows[c]) && Separate(s, c)
    requires Unforged(s, s.flows[c].server.recv, frame)
    ensures OpenedGenuine(Opened(s, c, frame))
  {
    var f := s.flows[c];
    match Authenticate(s.aead, f.server.recv, frame)
    case Err(_) =>
    case Ok((ctr, pt)) =>
      var d: ConnId, i: nat :| d in s.flows && s.flows[d].client.send == f.server.recv && i < |s.flows[d].sent|
                               && NonceFor(i) == NonceFor(ctr) && pt == C.PlaintextOf(s.flows[d].sent[i]);
      OpenKeepsGenuine(s.aead, f, frame, i);
  }

  lemma ReadStepGenuine(s: State, c: ConnId, frame: bytes)
    requires Enabled(s, ServerRead(c, frame)) && Separate(s, c) && PeerOk(s, c) && !Opened(s, c, frame).forged
    ensures OpenedGenuine(Opened(s, c, frame))
  {
    ReadGenuine(s, c, frame);
  }

  predicate SamePeer(f: Flow, g: Flow) {
    g.sent == f.sent && g.counters == f.counters && g.decrypted == f.decrypted && g.up == f.up && g.forged == f.forged
  }

  lemma TouchedSamePeer(s: State, step: Step)
    requires Enabled(s, step) && Touched(s, step).Some? && !step.Greet? && !step.ServerRead? && !step.ClientSend?
    ensures Touched(s, step).value in s.flows && SamePeer(s.flows[Touched(s, step).value], FlowAfter(s, step))
  {
  }

  lemma SamePeerOtherwise(s: State, step: Step, d: ConnId)
    requires FlowsExist(s.own.slots, s.flows) && d in s.flows
    requires !((step.ServerRead? || step.ClientSend?) && step.c == d)
    ensures d in Apply(s, step).flows && SamePeer(s.flows[d], Apply(s, step).flows[d])
  {
    if Enabled(s, step) && Touched(s, step) == Some(d) {
      if step.Greet? { GreetKeepsExist(s.own, step.c, s.flows, FlowAfter(s, step)); } else { TouchedSamePeer(s, step); }
    }
  }

  lemma StepPeerOk(s: State, step: Step, d: ConnId)
    requires FlowsExist(s.own.slots, s.flows) && (d in s.flows ==> PeerOk(s, d))
    requires Enabled(s, step) && d in Apply(s, step).flows
    requires Separate(Apply(s, step), d) && !Apply(s, step).flows[d].forged
    ensures OpenedGenuine(Apply(s, step).flows[d])
  {
    var g := Apply(s, step).flows[d];
    if d !in s.flows {
      OnlyGreetAdds(s, step, d);
    } else {
      SeparateBefore(s, step, d);
      if step.ServerRead? && step.c == d {
        assert g == Opened(s, d, step.frame);
        ReadStepGenuine(s, d, step.frame);
      } else if step.ClientSend? && step.c == d {
        SendKeepsGenuine(s.flows[d], step.packet);
      } else {
        SamePeerOtherwise(s, step, d);
        SameGenuine(s.flows[d], g);
      }
    }
  }

  lemma SameGenuine(f: Flow, g: Flow)
    requires OpenedGenuine(f) && SamePeer(f, g)
    ensures OpenedGenuine(g)
  {
  }

  lemma StepKeepsPeers(s: State, step: Step)
    requires Peers(s)
    ensures Peers(Apply(s, step))
  {
    var s' := Apply(s, step);
    StepExists(s, step);
    if Enabled(s, step) {
      forall d | d in s'.flows ensures PeerOk(s', d) {
        if Separate(s', d) && !s'.flows[d].forged { StepPeerOk(s, step, d); }
      }
    }
  }

  lemma {:induction false} RunPeers(d: Setup, steps: seq<Step>)
    ensures Peers(Run(Init(d), steps))
  {
    if steps != [] {
      RunPeers(d, steps[..|steps| - 1]);
      StepKeepsPeers(Run(Init(d), steps[..|steps| - 1]), steps[|steps| - 1]);
    }
  }

  /** The session's writes, the one in hand included, stand at these positions of what its client sealed. */
  ghost predicate ChosenFromSent(s: State, c: ConnId, idx: seq<nat>)
    requires c in s.flows
  {
    Picks(WrittenBy(s.tunOut, c) + InHand(s.flows[c].pending), CarriedAll(Payloads(s.flows[c].sent)), idx)
  }

  /**
   * Under an adversarial network that hands the server any bytes: if nothing was
   * forged and nobody else seals with this session's key, the packets the session
   * writes to the TUN are an in-order, duplicate-free choice of the packets its
   * own client sealed, as their headers carry them.
   */
  lemma UplinkGenuine(d: Setup, steps: seq<Step>, c: ConnId)
    requires var s := Run(Init(d), steps); c in s.flows && Separate(s, c) && !s.flows[c].forged
    ensures exists idx :: ChosenFromSent(Run(Init(d), steps), c, idx)
  {
    var s := Run(Init(d), steps);
    RunUp(d, steps);
    RunPeers(d, steps);
    assert UpOk(s, c) && PeerOk(s, c);
    var idx := WritesChosen(s, c);
    assert ChosenFromSent(s, c, idx);
  }

  lemma WritesChosen(s: State, c: ConnId) returns (idx: seq<nat>)
    requires c in s.flows && UpOk(s, c) && OpenedGenuine(s.flows[c])
    ensures ChosenFromSent(s, c, idx)
  {
    var f, ip := s.flows[c], s.own.slots[c].ip;
    SelectPicks(f.decrypted, ip);
    PicksCompose(Select(f.decrypted, ip), f.decrypted, CarriedAll(Payloads(f.sent)),
                 Selected(f.decrypted, ip), f.counters);
    idx := At(f.counters, Selected(f.decrypted, ip));
  }
}
