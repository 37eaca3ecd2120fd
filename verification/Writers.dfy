/**
 * The client's sending side over an ordered transport.  WritePacket seals before
 * it takes the write lock, so what the server makes of it depends on how many
 * callers there are.
 */
module Writers {
  import opened Octets
  import opened Framing
  import opened AddressPool
  import opened Flow
  import opened Auth
  import opened Tunnel
  import opened Uplink
  import A = Admission
  import C = Channel
  import O = Ownership
  import R = Replay

  // ----- what holds of one session

  /** How many of the frames read the server accepted: all, or all but the one that ended the session. */
  function Accepted(f: Flow): nat { if f.lane.denied && f.lane.got > 0 then f.lane.got - 1 else f.lane.got }

  /** Every caller holds, and every frame on the transport has, a counter that was sealed under. */
  ghost predicate LaneBounds(f: Flow) {
    && |f.sent| <= TWO_64
    && (forall w :: w in f.lane.writers ==> f.lane.writers[w] < |f.sent|)
    && (forall i :: 0 <= i < |f.lane.wire| ==> f.lane.wire[i] < |f.sent|)
  }

  /** The receive state after the first n frames. */
  function RecvAfter(wire: seq<nat>, n: nat): Recv
    requires n <= |wire|
  {
    if n == 0 then FRESH else Recv(wire[n - 1], true)
  }

  ghost predicate InStep(f: Flow) {
    && f.lane.got <= |f.lane.wire| && (f.lane.denied ==> f.lane.got > 1)
    && var n := Accepted(f);
    && f.counters == f.lane.wire[..n] && Increasing(f.counters) && f.up == RecvAfter(f.lane.wire, n)
    && Picks(f.decrypted, CarriedAll(Payloads(f.sent)), f.counters)
    && (f.lane.denied ==> f.lane.wire[n] <= f.lane.wire[n - 1])
  }

  /** The two ends agree on the key and the transport has kept the order. */
  predicate Orderly(f: Flow) { f.client.send == f.server.recv && f.lane.ordered }

  ghost predicate LaneOk(f: Flow) { LaneBounds(f) && (Orderly(f) ==> InStep(f)) }

  lemma SealUpKeeps(f: Flow, w: nat, p: C.Packet)
    requires LaneOk(f) && |f.sent| < TWO_64
    ensures LaneOk(SealUp(f, w, p))
  {
    var g := SealUp(f, w, p);
    if Orderly(f) {
      var xs, ys := CarriedAll(Payloads(f.sent)), CarriedAll(Payloads(g.sent));
      assert forall i :: 0 <= i < |xs| ==> ys[i] == xs[i];
    }
  }

  lemma WriteUpKeeps(f: Flow, w: nat)
    requires LaneOk(f) && w in f.lane.writers
    ensures LaneOk(WriteUp(f, w))
  {
    var g := WriteUp(f, w);
    if Orderly(f) { assert g.lane.wire[..Accepted(f)] == f.lane.wire[..Accepted(f)]; }
  }

  /** The next frame in order is accepted exactly when its counter is above the last one's. */
  lemma NextOpens(a: Aead, f: Flow, frame: bytes)
    requires Correct(a) && LaneOk(f) && Orderly(f) && !f.lane.denied && NextUp(a, f, frame)
    ensures var n := f.lane.got;
            var ctr := f.lane.wire[n];
            OpenFrame(a, f.server.recv, f.up, frame)
            == if n == 0 || f.lane.wire[n - 1] < ctr then (Ok(Carried(f.sent[ctr].payload)), Recv(ctr, true))
               else (Err(Replayed), f.up)
  {
    var ctr := f.lane.wire[f.lane.got];
    OpenSealed(a, f.server.recv, f.up, ctr, f.sent[ctr].payload, f.sent[ctr].pad);
  }

  lemma {:induction false} IncreasingSnoc(xs: seq<nat>, x: nat)
    requires Increasing(xs) && (xs == [] || xs[|xs| - 1] < x)
    ensures Increasing(xs + [x])
  {
  }

  lemma AcceptedInStep(f: Flow, g: Flow, pkt: bytes)
    requires LaneOk(f) && Orderly(f) && !f.lane.denied && f.lane.got < |f.lane.wire|
    requires var n, ctr := f.lane.got, f.lane.wire[f.lane.got];
             && (n == 0 || f.lane.wire[n - 1] < ctr) && pkt == Carried(f.sent[ctr].payload)
             && g.lane == f.lane.(got := n + 1) && g.sent == f.sent && g.up == Recv(ctr, true)
             && g.counters == f.counters + [ctr] && g.decrypted == f.decrypted + [pkt]
    ensures InStep(g)
  {
    var n, ctr := f.lane.got, f.lane.wire[f.lane.got];
    assert f.lane.wire[..n + 1] == f.lane.wire[..n] + [ctr];
    IncreasingSnoc(f.counters, ctr);
  }

  lemma ReadKeepsLane(s: State, c: ConnId, frame: bytes)
    requires Serving(s, c) && Correct(s.aead) && LaneOk(s.flows[c]) && !s.flows[c].lane.denied
    ensures LaneOk(Opened(s, c, frame))
  {
    var f, g := s.flows[c], Opened(s, c, frame);
    if Orderly(g) {
      NextOpens(s.aead, f, frame);
      match OpenFrame(s.aead, f.server.recv, f.up, frame)
      case (Ok(pkt), _) => AcceptedInStep(f, g, pkt);
      case (Err(_), _) => DeniedInStep(f, g);
    }
  }

  lemma DeniedInStep(f: Flow, g: Flow)
    requires LaneOk(f) && Orderly(f) && !f.lane.denied && 0 < f.lane.got < |f.lane.wire|
    requires f.lane.wire[f.lane.got] <= f.lane.wire[f.lane.got - 1]
    requires g.lane == f.lane.(got := f.lane.got + 1, denied := true) && g.sent == f.sent && g.up == f.up
    requires g.counters == f.counters && g.decrypted == f.decrypted
    ensures InStep(g)
  {
  }

  // ----- every step

  /** Past the read loop. */
  predicate Left(p: O.Phase) { p.Leaving? || p.Unmapped? || p.Released? || p.Ended? }

  /** A session that refused a frame has left its read loop. */
  ghost predicate LaneAt(s: State, c: ConnId)
    requires c in s.flows
  {
    LaneOk(s.flows[c]) && (s.flows[c].lane.denied ==> c in s.own.slots && Left(s.own.slots[c].phase))
  }

  ghost predicate Lanes(s: State) {
    && Correct(s.aead) && FlowsExist(s.own.slots, s.flows)
    && forall c :: c in s.flows ==> LaneAt(s, c)
  }

  predicate SameLane(f: Flow, g: Flow) {
    && g.lane == f.lane && g.sent == f.sent && g.counters == f.counters && g.decrypted == f.decrypted && g.up == f.up
    && SameKeys(f, g)
  }

  predicate LaneStep(step: Step) { step.ServerRead? || step.ClientSend? || step.ClientWrite? }

  lemma TouchedSameLane(s: State, step: Step)
    requires Enabled(s, step) && Touched(s, step).Some? && !step.Greet? && !LaneStep(step)
    ensures Touched(s, step).value in s.flows && SameLane(s.flows[Touched(s, step).value], FlowAfter(s, step))
  {
  }

  lemma SameLaneOtherwise(s: State, step: Step, d: ConnId)
    requires FlowsExist(s.own.slots, s.flows) && d in s.flows && !(LaneStep(step) && step.c == d)
    ensures d in Apply(s, step).flows && SameLane(s.flows[d], Apply(s, step).flows[d])
  {
    if Enabled(s, step) && Touched(s, step) == Some(d) {
      if step.Greet? { GreetKeepsExist(s.own, step.c, s.flows, FlowAfter(s, step)); } else { TouchedSameLane(s, step); }
    }
  }

  lemma SameLaneOk(f: Flow, g: Flow)
    requires LaneOk(f) && SameLane(f, g)
    ensures LaneOk(g)
  {
  }

  /** Nobody who has left the read loop comes back. */
  lemma StaysLeft(s: State, step: Step, d: ConnId)
    requires d in s.own.slots && Left(s.own.slots[d].phase)
    ensures d in Apply(s, step).own.slots && Left(Apply(s, step).own.slots[d].phase)
  {
    if Enabled(s, step) && LifeOf(s, step).Some? { LifeStaysLeft(s.own, LifeOf(s, step).value, d); }
  }

  lemma LifeStaysLeft(o: O.Own, l: O.Step, c: ConnId)
    requires c in o.slots && Left(o.slots[c].phase)
    ensures c in O.Apply(o, l).slots && Left(O.Apply(o, l).slots[c].phase)
  {
  }

  lemma ReadKeepsLaneAt(s: State, c: ConnId, frame: bytes)
    requires Correct(s.aead) && Enabled(s, ServerRead(c, frame)) && LaneAt(s, c)
    ensures LaneAt(Apply(s, ServerRead(c, frame)), c)
  {
    ReadKeepsLane(s, c, frame);
  }

  lemma StepLaneAt(s: State, step: Step, d: ConnId)
    requires Correct(s.aead) && FlowsExist(s.own.slots, s.flows) && (d in s.flows ==> LaneAt(s, d))
    requires Enabled(s, step) && d in Apply(s, step).flows
    ensures LaneAt(Apply(s, step), d)
  {
    if d !in s.flows {
      OnlyGreetAdds(s, step, d);
    } else if step.ServerRead? && step.c == d {
      ReadKeepsLaneAt(s, d, step.frame);
    } else {
      if s.flows[d].lane.denied { StaysLeft(s, step, d); }
      if step.ClientSend? && step.c == d {
        SealUpKeeps(s.flows[d], step.writer, step.packet);
      } else if step.ClientWrite? && step.c == d {
        WriteUpKeeps(s.flows[d], step.writer);
      } else {
        SameLaneOtherwise(s, step, d);
        SameLaneOk(s.flows[d], Apply(s, step).flows[d]);
      }
    }
  }

  lemma StepKeepsLanes(s: State, step: Step)
    requires Lanes(s)
    ensures Lanes(Apply(s, step))
  {
    var s' := Apply(s, step);
    StepExists(s, step);
    ConstantsStay(s, step);
    if Enabled(s, step) {
      forall d | d in s'.flows ensures LaneAt(s', d) { StepLaneAt(s, step, d); }
    }
  }

  lemma {:induction false} RunLanes(d: Setup, steps: seq<Step>)
    requires Correct(d.aead)
    ensures Lanes(Run(Init(d), steps))
  {
    if steps != [] {
      RunLanes(d, steps[..|steps| - 1]);
      StepKeepsLanes(Run(Init(d), steps[..|steps| - 1]), steps[|steps| - 1]);
    }
  }

  // ----- main result, for any number of callers

  /** What the frames the server accepted carry, in the order of the transport. */
  ghost function Arrived(f: Flow): seq<bytes>
    requires Accepted(f) <= |f.lane.wire| && forall i :: 0 <= i < |f.lane.wire| ==> f.lane.wire[i] < |f.sent|
  {
    seq(Accepted(f), i requires 0 <= i < Accepted(f) => Carried(f.sent[f.lane.wire[i]].payload))
  }

  /**
   * Over an ordered transport the server refuses a frame exactly when the frames it
   * read were not written in the order they were sealed; what it writes to the TUN
   * is exactly, in order, the passing ones of the packets that arrived before.
   */
  lemma UplinkExact(d: Setup, steps: seq<Step>, c: ConnId)
    requires Correct(d.aead)
    requires var s := Run(Init(d), steps); c in s.flows && Orderly(s.flows[c])
    ensures var s := Run(Init(d), steps);
            var f := s.flows[c];
            && f.lane.got <= |f.lane.wire| && LaneBounds(f) && c in s.own.slots
            && (f.lane.denied <==> !Increasing(f.lane.wire[..f.lane.got]))
            && WrittenBy(s.tunOut, c) + InHand(f.pending) == Select(Arrived(f), s.own.slots[c].ip)
  {
    var s := Run(Init(d), steps);
    RunLanes(d, steps);
    RunUp(d, steps);
    assert LaneAt(s, c) && UpOk(s, c);
    DeniedExactly(s.flows[c]);
    assert s.flows[c].decrypted == Arrived(s.flows[c]);
  }

  lemma DeniedExactly(f: Flow)
    requires InStep(f)
    ensures f.lane.denied <==> !Increasing(f.lane.wire[..f.lane.got])
  {
    var n := Accepted(f);
    if f.lane.denied {
      var read := f.lane.wire[..f.lane.got];
      assert read[n - 1] >= read[n];
    }
  }

  // ----- one caller

  /** Frames go out in the order they were sealed, none left out. */
  ghost predicate Solo(f: Flow, w: nat) {
    && (forall v :: v in f.lane.writers ==> v == w)
    && (forall i :: 0 <= i < |f.lane.wire| ==> f.lane.wire[i] == i)
    && (if w in f.lane.writers then f.lane.writers[w] == |f.lane.wire| && |f.sent| == |f.lane.wire| + 1
        else |f.sent| == |f.lane.wire|)
  }

  /** Every packet of this client is sent by one caller of WritePacket, as the pump does. */
  ghost predicate SoleWriter(steps: seq<Step>, c: ConnId, w: nat) {
    forall i :: 0 <= i < |steps| && steps[i].ClientSend? && steps[i].c == c ==> steps[i].writer == w
  }

  lemma SealUpSolo(f: Flow, w: nat, p: C.Packet)
    requires Solo(f, w) && w !in f.lane.writers
    ensures Solo(SealUp(f, w, p), w)
  {
  }

  lemma WriteUpSolo(f: Flow, w: nat, v: nat)
    requires Solo(f, w) && v in f.lane.writers
    ensures Solo(WriteUp(f, v), w)
  {
  }

  lemma StepSolo(s: State, step: Step, c: ConnId, w: nat)
    requires FlowsExist(s.own.slots, s.flows) && (c in s.flows ==> Solo(s.flows[c], w))
    requires step.ClientSend? && step.c == c ==> step.writer == w
    ensures c in Apply(s, step).flows ==> Solo(Apply(s, step).flows[c], w)
  {
    if Enabled(s, step) && c in Apply(s, step).flows {
      if c !in s.flows {
        OnlyGreetAdds(s, step, c);
      } else if step.ClientSend? && step.c == c {
        SealUpSolo(s.flows[c], w, step.packet);
      } else if step.ClientWrite? && step.c == c {
        WriteUpSolo(s.flows[c], w, step.writer);
      } else if !(step.ServerRead? && step.c == c) {
        SameLaneOtherwise(s, step, c);
      }
    }
  }

  lemma {:induction false} RunSolo(d: Setup, steps: seq<Step>, c: ConnId, w: nat)
    requires SoleWriter(steps, c, w)
    ensures var s := Run(Init(d), steps); FlowsExist(s.own.slots, s.flows) && (c in s.flows ==> Solo(s.flows[c], w))
  {
    if steps != [] {
      var front := steps[..|steps| - 1];
      RunSolo(d, front, c, w);
      StepExists(Run(Init(d), front), steps[|steps| - 1]);
      StepSolo(Run(Init(d), front), steps[|steps| - 1], c, w);
    }
  }

  /**
   * With one caller the server never refuses a frame, and what it writes to the TUN
   * is exactly, in order, the passing packets of a prefix of what the client sent.
   */
  lemma OneWriterExact(d: Setup, steps: seq<Step>, c: ConnId, w: nat)
    requires Correct(d.aead) && SoleWriter(steps, c, w)
    requires var s := Run(Init(d), steps);
             c in s.flows && Provisioned(d.cfg, s.flows[c].exchange) && s.flows[c].lane.ordered
    ensures var s := Run(Init(d), steps);
            var f := s.flows[c];
            && !f.lane.denied && f.lane.got <= |f.sent| && c in s.own.slots
            && WrittenBy(s.tunOut, c) + InHand(f.pending)
               == Select(CarriedAll(Payloads(f.sent))[..f.lane.got], s.own.slots[c].ip)
  {
    var f := Run(Init(d), steps).flows[c];
    ProvisionedAgree(d, steps, c);
    UplinkExact(d, steps, c);
    RunSolo(d, steps, c, w);
    SoloArrives(f, w);
  }

  lemma SoloArrives(f: Flow, w: nat)
    requires Solo(f, w) && LaneBounds(f) && f.lane.got <= |f.lane.wire|
    ensures Increasing(f.lane.wire[..f.lane.got]) && f.lane.got <= |f.sent|
    ensures !f.lane.denied ==> Arrived(f) == CarriedAll(Payloads(f.sent))[..f.lane.got]
  {
  }

  // ----- two callers

  lemma LaneOnly(s: State, step: Step)
    requires Enabled(s, step) && (step.ClientSend? || step.ClientWrite?)
    ensures Apply(s, step) == s.(flows := s.flows[step.c := FlowAfter(s, step)])
  {
    assert s.own.closed + {} == s.own.closed;
  }

  const EMPTY := C.Packet([], [])

  lemma RunPair(s: State, x: Step, y: Step)
    ensures Run(s, [x, y]) == Apply(Apply(s, x), y)
  {
    A.RunSnoc(s, [], x);
    A.RunSnoc(s, [x], y);
    assert [] + [x] == [x] && [x] + [y] == [x, y];
  }

  function Replaced(s: State, c: ConnId, f: Flow): State { s.(flows := s.flows[c := f]) }

  lemma SealBoth(s: State, c: ConnId, w: nat, v: nat)
    requires c in s.flows && |s.flows[c].sent| + 1 < TWO_64 && w != v
    requires w !in s.flows[c].lane.writers && v !in s.flows[c].lane.writers
    ensures Run(s, [ClientSend(c, w, EMPTY), ClientSend(c, v, EMPTY)])
            == Replaced(s, c, SealUp(SealUp(s.flows[c], w, EMPTY), v, EMPTY))
  {
    var f := SealUp(s.flows[c], w, EMPTY);
    RunPair(s, ClientSend(c, w, EMPTY), ClientSend(c, v, EMPTY));
    LaneOnly(s, ClientSend(c, w, EMPTY));
    LaneOnly(Replaced(s, c, f), ClientSend(c, v, EMPTY));
    assert s.flows[c := f][c := SealUp(f, v, EMPTY)] == s.flows[c := SealUp(f, v, EMPTY)];
  }

  lemma WriteBoth(s: State, c: ConnId, w: nat, v: nat)
    requires c in s.flows && w != v && w in s.flows[c].lane.writers && v in s.flows[c].lane.writers
    ensures Run(s, [ClientWrite(c, v), ClientWrite(c, w)]) == Replaced(s, c, WriteUp(WriteUp(s.flows[c], v), w))
  {
    var f := WriteUp(s.flows[c], v);
    RunPair(s, ClientWrite(c, v), ClientWrite(c, w));
    LaneOnly(s, ClientWrite(c, v));
    LaneOnly(Replaced(s, c, f), ClientWrite(c, w));
    assert s.flows[c := f][c := WriteUp(f, w)] == s.flows[c := WriteUp(f, w)];
  }

  /** Two callers have sealed, and the second wrote first. */
  function CrossedFlow(f: Flow): Flow { f.(sent := [EMPTY, EMPTY], lane := EMPTY_LANE.(wire := [1, 0])) }

  lemma CrossedByBoth(f: Flow, w: nat, v: nat)
    requires f.sent == [] && f.lane == EMPTY_LANE && w != v
    ensures var writers := SealUp(SealUp(f, w, EMPTY), v, EMPTY).lane.writers; v in writers && w in writers
    ensures WriteUp(WriteUp(SealUp(SealUp(f, w, EMPTY), v, EMPTY), v), w) == CrossedFlow(f)
  {
    assert map[w := 0, v := 1] - {v} == map[w := 0] && map[w := 0] - {w} == map[];
  }

  function Crossing(c: ConnId, w: nat, v: nat): seq<Step> {
    [ClientSend(c, w, EMPTY), ClientSend(c, v, EMPTY)] + [ClientWrite(c, v), ClientWrite(c, w)]
  }

  lemma CrossingRun(s: State, c: ConnId, w: nat, v: nat)
    requires c in s.flows && s.flows[c].sent == [] && s.flows[c].lane == EMPTY_LANE && w != v
    ensures Run(s, Crossing(c, w, v)) == Replaced(s, c, CrossedFlow(s.flows[c]))
  {
    var f := SealUp(SealUp(s.flows[c], w, EMPTY), v, EMPTY);
    SealBoth(s, c, w, v);
    CrossedByBoth(s.flows[c], w, v);
    WriteBoth(Replaced(s, c, f), c, w, v);
    A.RunConcat(s, [ClientSend(c, w, EMPTY), ClientSend(c, v, EMPTY)], [ClientWrite(c, v), ClientWrite(c, w)]);
    assert s.flows[c := f][c := CrossedFlow(s.flows[c])] == s.flows[c := CrossedFlow(s.flows[c])];
  }

  function FrameOf(s: State, c: ConnId, ctr: nat): bytes
    requires c in s.flows
  {
    SealFrame(s.aead, s.flows[c].client.send, ctr, [], [])
  }

  /** The server reads the two frames as the transport has them and refuses the second. */
  lemma CrossedRefused(s: State, c: ConnId)
    requires Correct(s.aead) && Serving(s, c) && s.flows[c].pending.None?
    requires s.flows[c].client.send == s.flows[c].server.recv
    requires s.flows[c].up == FRESH && s.flows[c].sent == [EMPTY, EMPTY]
    requires s.flows[c].lane == EMPTY_LANE.(wire := [1, 0])
    ensures var s' := Run(s, [ServerRead(c, FrameOf(s, c, 1)), ServerRead(c, FrameOf(s, c, 0))]);
            && c in s'.flows && s'.flows[c].exchange == s.flows[c].exchange
            && s'.flows[c].lane.ordered && s'.flows[c].lane.denied
  {
    var key := s.flows[c].client.send;
    RunPair(s, ServerRead(c, FrameOf(s, c, 1)), ServerRead(c, FrameOf(s, c, 0)));
    OpenSealed(s.aead, key, FRESH, 1, [], []);
    OpenSealed(s.aead, key, Recv(1, true), 0, [], []);
    var s1 := Apply(s, ServerRead(c, FrameOf(s, c, 1)));
    FirstRead(s, c);
    assert Enabled(s1, ServerRead(c, FrameOf(s, c, 0)));
  }

  lemma FirstRead(s: State, c: ConnId)
    requires Correct(s.aead) && Serving(s, c) && s.flows[c].pending.None?
    requires s.flows[c].client.send == s.flows[c].server.recv
    requires s.flows[c].up == FRESH && s.flows[c].sent == [EMPTY, EMPTY]
    requires s.flows[c].lane == EMPTY_LANE.(wire := [1, 0])
    ensures var s' := Apply(s, ServerRead(c, FrameOf(s, c, 1)));
            && Serving(s', c) && s'.aead == s.aead && SameKeys(s.flows[c], s'.flows[c])
            && var f := s'.flows[c];
            && f.pending.None? && f.up == Recv(1, true) && f.sent == [EMPTY, EMPTY]
            && f.lane == Lane(map[], [1, 0], 1, true, false)
  {
    OpenSealed(s.aead, s.flows[c].client.send, FRESH, 1, [], []);
  }

  // ----- a session to show it in

  function FirstHello(d: Setup, salt: bytes): R.Hello
    requires R.InEra(d.clock)
  {
    R.ClientHello(d.cfg, salt, d.clock)
  }

  /** The first client connects, is admitted and settles. */
  function ServeSteps(d: Setup, salt: bytes): seq<Step>
    requires R.InEra(d.clock)
  {
    A.Arrival(0, FirstHello(d, salt)) + A.Settling(0, 0, salt, Client(d.cfg.psk, salt))
  }

  /** A fresh session of a provisioned client, in its read loop. */
  ghost predicate FreshlyServed(d: Setup, s: State, c: ConnId) {
    && Serving(s, c) && s.aead == d.aead
    && var f := s.flows[c];
    && Provisioned(d.cfg, f.exchange) && f.client.send == f.server.recv
    && f.sent == [] && f.lane == EMPTY_LANE && f.up == FRESH && f.pending.None?
  }

  lemma Served(d: Setup, salt: bytes)
    requires |salt| == SALT_LEN && Valid(d.pool) && d.pool.held == {} && R.InEra(d.clock)
    ensures FreshlyServed(d, Run(Init(d), ServeSteps(d, salt)), 0)
  {
    var ex := Exchange(FirstHello(d, salt), salt, Client(d.cfg.psk, salt));
    R.ClientHelloAdmissible(d.cfg, salt, d.clock);
    A.FirstServed(d, FirstHello(d, salt), salt, Client(d.cfg.psk, salt));
    KeysAgree(d.cfg, ex);
  }

  // ----- exactly one caller

  ghost predicate Uses(steps: seq<Step>, writers: iset<nat>) {
    forall i :: 0 <= i < |steps| && steps[i].ClientSend? ==> steps[i].writer in writers
  }

  /** No provisioned client's frame is refused on any run over ordered transports with these callers. */
  ghost predicate NeverRefused(d: Setup, writers: iset<nat>) {
    forall steps: seq<Step>, c: ConnId ::
      Uses(steps, writers) && c in Run(Init(d), steps).flows
      && Provisioned(d.cfg, Run(Init(d), steps).flows[c].exchange) && Run(Init(d), steps).flows[c].lane.ordered
      ==> !Run(Init(d), steps).flows[c].lane.denied
  }

  lemma UsesConcat(xs: seq<Step>, ys: seq<Step>, writers: iset<nat>)
    requires Uses(xs, writers) && Uses(ys, writers)
    ensures Uses(xs + ys, writers)
  {
  }

  lemma QuietUses(gates: seq<R.Step>, writers: iset<nat>)
    ensures Uses(A.Admissions(gates), writers)
  {
  }

  lemma ServeUses(d: Setup, salt: bytes, writers: iset<nat>)
    requires R.InEra(d.clock)
    ensures Uses(ServeSteps(d, salt), writers)
  {
    var h, gates := FirstHello(d, salt), R.Handshake(0, FirstHello(d, salt));
    QuietUses(gates, writers);
    UsesConcat([Life(O.Connect(0))], A.Admissions(gates), writers);
    UsesConcat(A.Arrival(0, h), A.Settling(0, 0, salt, Client(d.cfg.psk, salt)), writers);
  }

  /** From a fresh session, the crossing of two callers ends in a refused frame. */
  lemma CrossingRefused(d: Setup, s: State, w: nat, v: nat) returns (steps: seq<Step>)
    requires Correct(d.aead) && FreshlyServed(d, s, 0) && w != v
    ensures var s' := Run(s, steps);
            && 0 in s'.flows && Provisioned(d.cfg, s'.flows[0].exchange)
            && s'.flows[0].lane.ordered && s'.flows[0].lane.denied
    ensures forall i :: 0 <= i < |steps| && steps[i].ClientSend? ==> steps[i].writer == w || steps[i].writer == v
  {
    CrossingRun(s, 0, w, v);
    var crossed := Replaced(s, 0, CrossedFlow(s.flows[0]));
    CrossedRefused(crossed, 0);
    var both := [ServerRead(0, FrameOf(crossed, 0, 1)), ServerRead(0, FrameOf(crossed, 0, 0))];
    A.RunConcat(s, Crossing(0, w, v), both);
    steps := Crossing(0, w, v) + both;
  }

  lemma TwoWritersRefused(d: Setup, writers: iset<nat>, w: nat, v: nat)
    requires Correct(d.aead) && Valid(d.pool) && d.pool.held == {} && R.InEra(d.clock)
    requires w in writers && v in writers && w != v
    ensures !NeverRefused(d, writers)
  {
    var salt := seq(SALT_LEN, _ => 0);
    Served(d, salt);
    var steps := CrossingRefused(d, Run(Init(d), ServeSteps(d, salt)), w, v);
    A.RunConcat(Init(d), ServeSteps(d, salt), steps);
    ServeUses(d, salt, writers);
    UsesConcat(ServeSteps(d, salt), steps, writers);
  }

  /**
   * The exact condition for a session never to end on a refused frame: no two callers
   * of WritePacket, which is what the pump provides and WritePacket alone does not.
   */
  lemma OneWriterNeeded(d: Setup, writers: iset<nat>)
    requires Correct(d.aead) && Valid(d.pool) && d.pool.held == {} && R.InEra(d.clock)
    ensures NeverRefused(d, writers) <==> forall w, v :: w in writers && v in writers ==> w == v
  {
    if w, v :| w in writers && v in writers && w != v {
      TwoWritersRefused(d, writers, w, v);
    } else {
      forall steps: seq<Step>, c: ConnId
        | Uses(steps, writers) && c in Run(Init(d), steps).flows
          && Provisioned(d.cfg, Run(Init(d), steps).flows[c].exchange) && Run(Init(d), steps).flows[c].lane.ordered
        ensures !Run(Init(d), steps).flows[c].lane.denied
      {
        var w :| w in writers || writers == iset{};
        OneWriterExact(d, steps, c, w);
      }
    }
  }
}
