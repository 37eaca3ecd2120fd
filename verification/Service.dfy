/**
 * What the server does for its clients, from every state it can reach: a new hello
 * is served, a packet down or up gets through, a ping is answered, and a connection
 * can always end and give its address back.
 */
module Service {
  import opened Octets
  import opened Framing
  import opened AddressPool
  import opened Flow
  import opened Tunnel
  import opened Downlink
  import opened Uplink
  import opened Writers
  import A = Admission
  import C = Channel
  import O = Ownership
  import R = Replay

  // ----- a connection can always end

  /** How far a connection is from its end. */
  function Rank(p: O.Phase): nat {
    match p
    case Ended => 0
    case Released => 1
    case Unmapped => 2
    case Leaving => 3
    case Serving => 4
    case Welcomed => 5
    case Rejecting => 1
    case Allocated => 2
    case Handshaking => 1
  }

  /** The thread's next step when the peer is gone. */
  function Exit(p: O.Phase, c: ConnId): O.Step {
    match p
    case Handshaking => O.Refuse(c)
    case Allocated => O.Welcome(c, false)
    case Rejecting => O.ReleaseRejected(c)
    case Welcomed => O.Register(c)
    case Serving => O.Leave(c)
    case Leaving => O.Unmap(c)
    case Unmapped => O.Release(c)
    case Released => O.Close(c)
    case Ended => O.Close(c)
  }

  /** The client map without this connection. */
  ghost function Without(clients: map<u32, ConnId>, c: ConnId): map<u32, ConnId> {
    map k | k in clients && clients[k] != c :: clients[k]
  }

  ghost predicate SlotsSame(o: O.Own, o': O.Own, c: ConnId) {
    && c in o.slots && c in o'.slots && o'.slots.Keys == o.slots.Keys
    && forall d :: d in o.slots && d != c ==> o'.slots[d] == o.slots[d]
  }

  /** The client object exists and its thread has not ended. */
  predicate Live(p: O.Phase) { Greeted(p) && !p.Ended? }

  /** What the thread held is given back when it stops holding it; nobody else is touched. */
  ghost predicate Retreats(o: O.Own, o': O.Own, c: ConnId) {
    && SlotsSame(o, o', c)
    && o'.pool.held == (if O.Holder(o.slots, c) && !O.Holder(o'.slots, c) then o.pool.held - {o.slots[c].ip}
                        else o.pool.held)
    && (O.Holder(o'.slots, c) ==> O.Holder(o.slots, c) && o'.slots[c].ip == o.slots[c].ip)
    && (Live(o.slots[c].phase) ==> Live(o'.slots[c].phase) || c in o'.closed)
    && (c in o.closed ==> c in o'.closed)
    && Without(o'.clients, c) == Without(o.clients, c)
  }

  /** One step of the way out. */
  ghost predicate StepsBack(o: O.Own, c: ConnId)
    requires c in o.slots
  {
    var o' := O.Apply(o, Exit(o.slots[c].phase, c));
    Retreats(o, o', c) && Rank(o'.slots[c].phase) < Rank(o.slots[c].phase)
  }

  lemma MoveRetreats(o: O.Own, c: ConnId, phase: O.Phase)
    requires c in o.slots && O.Holds(phase) == O.Holds(o.slots[c].phase)
    requires Live(o.slots[c].phase) ==> Live(phase)
    ensures Retreats(o, O.Move(o, c, phase), c)
  {
  }

  lemma MoveBack(o: O.Own, c: ConnId)
    requires c in o.slots
    requires o.slots[c].phase.Handshaking? || o.slots[c].phase.Allocated? || o.slots[c].phase.Serving?
    ensures StepsBack(o, c)
  {
    match o.slots[c].phase
    case Handshaking => MoveRetreats(o, c, O.Ended);
    case Allocated => MoveRetreats(o, c, O.Rejecting);
    case Serving => MoveRetreats(o, c, O.Leaving);
  }

  lemma CloseBack(o: O.Own, c: ConnId)
    requires c in o.slots && o.slots[c].phase.Released?
    ensures StepsBack(o, c)
  {
  }

  lemma FreeRetreats(o: O.Own, c: ConnId, phase: O.Phase)
    requires O.Holder(o.slots, c) && !O.Holds(phase) && (Live(o.slots[c].phase) ==> Live(phase))
    ensures Retreats(o, O.Free(o, c, phase), c)
  {
  }

  lemma FreeBack(o: O.Own, c: ConnId)
    requires c in o.slots && (o.slots[c].phase.Rejecting? || o.slots[c].phase.Unmapped?)
    ensures StepsBack(o, c)
  {
    if o.slots[c].phase.Rejecting? { FreeRetreats(o, c, O.Ended); } else { FreeRetreats(o, c, O.Released); }
  }

  lemma RegisterBack(o: O.Own, c: ConnId)
    requires O.Inv(o) && c in o.slots && o.slots[c].phase.Welcomed?
    ensures StepsBack(o, c)
  {
    O.RegisterFindsNone(o, c);
    MoveRetreats(o, c, O.Serving);
    assert Without(o.clients[o.slots[c].ip := c], c) == Without(o.clients, c);
  }

  lemma UnmapBack(o: O.Own, c: ConnId)
    requires c in o.slots && o.slots[c].phase.Leaving?
    ensures StepsBack(o, c)
  {
    MoveRetreats(o, c, O.Unmapped);
    assert Without(O.UnmapStep(o.clients, o.slots[c].ip, c), c) == Without(o.clients, c);
  }

  lemma ExitRetreats(o: O.Own, c: ConnId)
    requires O.Inv(o) && c in o.slots && !o.slots[c].phase.Ended?
    ensures StepsBack(o, c)
  {
    match o.slots[c].phase
    case Rejecting => FreeBack(o, c);
    case Unmapped => FreeBack(o, c);
    case Welcomed => RegisterBack(o, c);
    case Leaving => UnmapBack(o, c);
    case Released => CloseBack(o, c);
    case _ => MoveBack(o, c);
  }

  lemma RetreatsOn(o: O.Own, o': O.Own, o'': O.Own, c: ConnId)
    requires Retreats(o, o', c) && Retreats(o', o'', c)
    ensures Retreats(o, o'', c)
  {
  }

  lemma RetreatsSame(o: O.Own, c: ConnId)
    requires c in o.slots
    ensures Retreats(o, o, c)
  {
  }

  /** A step of this connection's own thread. */
  predicate OwnStep(step: Step, c: ConnId) {
    || (step.Life? && step.life.c == c)
    || step == HangUp(c) || step == TunWrite(c)
  }

  ghost predicate OwnSteps(steps: seq<Step>, c: ConnId) { forall i :: 0 <= i < |steps| ==> OwnStep(steps[i], c) }

  lemma OwnStepsCons(step: Step, rest: seq<Step>, c: ConnId)
    requires OwnStep(step, c) && OwnSteps(rest, c)
    ensures OwnSteps([step] + rest, c)
  {
  }

  /** The other sessions' queues, counters and histories are as they were. */
  ghost predicate FlowsSame(s: State, s': State, c: ConnId) {
    && s'.flows.Keys == s.flows.Keys
    && forall d :: d in s.flows && d != c ==> s'.flows[d] == s.flows[d]
  }

  lemma RunCons(s: State, x: Step, ys: seq<Step>)
    ensures Run(s, [x] + ys) == Run(Apply(s, x), ys)
  {
    A.RunConcat(s, [x], ys);
    A.RunSnoc(s, [], x);
    assert [] + [x] == [x];
  }

  /** With a packet in hand, the thread first writes it. */
  lemma WriteFirst(s: State, c: ConnId)
    requires Serving(s, c) && s.flows[c].pending.Some?
    ensures var s' := Apply(s, TunWrite(c));
            s'.own == s.own && FlowsSame(s, s', c) && Serving(s', c) && s'.flows[c].pending.None?
  {
    assert s.own.closed + {} == s.own.closed;
  }

  lemma ExitStep(s: State, c: ConnId) returns (step: Step)
    requires FlowsExist(s.own.slots, s.flows) && c in s.own.slots && !s.own.slots[c].phase.Ended?
    requires Serving(s, c) ==> s.flows[c].pending.None?
    ensures OwnStep(step, c)
    ensures Apply(s, step) == s.(own := O.Apply(s.own, Exit(s.own.slots[c].phase, c)))
  {
    if s.own.slots[c].phase.Serving? { step := HangUp(c); } else { step := Life(Exit(s.own.slots[c].phase, c)); }
  }

  /** One step nearer to the end. */
  lemma NearerToEnd(s: State, c: ConnId) returns (step: Step)
    requires O.Inv(s.own) && FlowsExist(s.own.slots, s.flows) && c in s.own.slots && !s.own.slots[c].phase.Ended?
    ensures OwnStep(step, c)
    ensures var s' := Apply(s, step);
            && O.Inv(s'.own) && FlowsExist(s'.own.slots, s'.flows)
            && Retreats(s.own, s'.own, c) && FlowsSame(s, s', c)
            && Distance(s', c) < Distance(s, c)
  {
    if Serving(s, c) && s.flows[c].pending.Some? {
      step := TunWrite(c);
      WriteFirst(s, c);
      RetreatsSame(s.own, c);
    } else {
      step := ExitStep(s, c);
      ExitRetreats(s.own, c);
    }
    StepOwned(s, step);
    StepExists(s, step);
  }

  function Distance(s: State, c: ConnId): nat
    requires c in s.own.slots
  {
    2 * Rank(s.own.slots[c].phase) + (if Serving(s, c) && s.flows[c].pending.Some? then 1 else 0)
  }

  lemma FlowsSameOn(s: State, s': State, s'': State, c: ConnId)
    requires FlowsSame(s, s', c) && FlowsSame(s', s'', c)
    ensures FlowsSame(s, s'', c)
  {
    assert forall d :: d in s.flows <==> d in s.flows.Keys;
    assert forall d :: d in s'.flows <==> d in s'.flows.Keys;
  }

  lemma EndsFrom(s: State, c: ConnId) returns (steps: seq<Step>)
    requires O.Inv(s.own) && FlowsExist(s.own.slots, s.flows) && c in s.own.slots
    ensures OwnSteps(steps, c)
    ensures var s' := Run(s, steps);
            Retreats(s.own, s'.own, c) && FlowsSame(s, s', c) && s'.own.slots[c].phase.Ended?
    decreases Distance(s, c)
  {
    if s.own.slots[c].phase.Ended? {
      steps := [];
      RetreatsSame(s.own, c);
    } else {
      var step := NearerToEnd(s, c);
      var rest := EndsFrom(Apply(s, step), c);
      OneMoreStep(s, c, step, rest);
      OwnStepsCons(step, rest, c);
      steps := [step] + rest;
    }
  }

  lemma OneMoreStep(s: State, c: ConnId, step: Step, rest: seq<Step>)
    requires var s' := Apply(s, step);
             && Retreats(s.own, s'.own, c) && FlowsSame(s, s', c)
             && Retreats(s'.own, Run(s', rest).own, c) && FlowsSame(s', Run(s', rest), c)
    ensures var s'' := Run(s, [step] + rest); Retreats(s.own, s''.own, c) && FlowsSame(s, s'', c)
    ensures Run(s, [step] + rest) == Run(Apply(s, step), rest)
  {
    var s' := Apply(s, step);
    RunCons(s, step, rest);
    RetreatsOn(s.own, s'.own, Run(s', rest).own, c);
    FlowsSameOn(s, s', Run(s', rest), c);
  }

  /**
   * From every reachable state, every connection's own steps lead to its end: the
   * address it held is then in neither the pool's held set nor the client map, and
   * the other sessions are as they were.
   */
  lemma ConnectionEnds(d: Setup, steps: seq<Step>, c: ConnId) returns (more: seq<Step>)
    requires Valid(d.pool) && d.pool.held == {} && c in Run(Init(d), steps).own.slots
    ensures OwnSteps(more, c)
    ensures var s := Run(Init(d), steps);
            var s' := Run(Init(d), steps + more);
            && c in s'.own.slots && s'.own.slots[c].phase.Ended?
            && SlotsSame(s.own, s'.own, c) && FlowsSame(s, s', c)
            && (Live(s.own.slots[c].phase) ==> c in s'.own.closed)
            && (O.Holder(s.own.slots, c) ==>
                  && s'.own.pool.held == s.own.pool.held - {s.own.slots[c].ip}
                  && s.own.slots[c].ip !in s'.own.clients)
            && (!O.Holder(s.own.slots, c) ==> s'.own.pool.held == s.own.pool.held)
  {
    var s := Run(Init(d), steps);
    RunOwned(d, steps);
    RunUp(d, steps);
    more := EndsFrom(s, c);
    A.RunConcat(Init(d), steps, more);
    var s' := Run(s, more);
    RunOwned(d, steps + more);
    if O.Holder(s.own.slots, c) { AddressGone(s.own, s'.own, c); }
  }

  lemma AddressGone(o: O.Own, o': O.Own, c: ConnId)
    requires O.HoldersDistinct(o.slots) && O.MapExact(o'.clients, o'.slots)
    requires SlotsSame(o, o', c) && O.Holder(o.slots, c) && o'.slots[c].phase.Ended?
    ensures o.slots[c].ip !in o'.clients
  {
    var ip := o.slots[c].ip;
    forall e | O.Holder(o'.slots, e) ensures o'.slots[e].ip != ip { assert O.Holder(o.slots, e) && e != c; }
    assert forall k :: k in o'.clients ==> O.MappedAt(o'.slots, o'.clients[k], k);
  }

  // ----- a packet down

  /** The session is registered, its writer runs, and everything sent so far has been read. */
  ghost predicate Ready(s: State, c: ConnId) {
    && Serving(s, c) && c !in s.own.closed
    && var f := s.flows[c];
    && f.writing && f.queue == [] && f.got == |f.wire| && |f.sealed| < TWO_64 && Agreed(f)
  }

  lemma ReadStep(s: State, pkt: bytes)
    requires s.tun.Idle? && |pkt| <= s.mtu + 64 && IPv4(pkt)
    ensures Apply(s, TunRead(pkt)) == s.(tunIn := s.tunIn + [pkt], tun := Reading(|s.tunIn|))
  {
    assert s.own.closed + {} == s.own.closed;
  }

  lemma LookupStep(s: State, c: ConnId)
    requires O.MapExact(s.own.clients, s.own.slots) && Serving(s, c)
    requires s.tun.Reading? && s.tun.index < |s.tunIn| && Routable(s.tunIn[s.tun.index], s.own.slots[c].ip)
    ensures Apply(s, TunLookup) == s.(tun := Routed(s.tun.index, c))
  {
    assert s.own.closed + {} == s.own.closed;
    assert s.own.slots[c].ip in s.own.clients && s.own.clients[s.own.slots[c].ip] == c;
  }

  lemma SealStep(s: State, c: ConnId, pad: bytes)
    requires s.tun.Routed? && s.tun.c == c && s.tun.index < |s.tunIn| && c in s.flows && |s.flows[c].sealed| < TWO_64
    ensures var f := s.flows[c];
            Apply(s, TunSeal(pad))
            == s.(flows := s.flows[c := f.(sealed := f.sealed + [Stamp(s.tun.index, pad)])],
                  tun := Carrying(c, SealedMsg(s.aead, f, s.tunIn[s.tun.index], pad)))
  {
    assert s.own.closed + {} == s.own.closed;
  }

  /** Read from the TUN, looked up and sealed for the client at its destination. */
  lemma RoutedAndSealed(s: State, c: ConnId, pkt: bytes, pad: bytes)
    requires O.MapExact(s.own.clients, s.own.slots) && Ready(s, c) && s.tun.Idle?
    requires |pkt| <= s.mtu + 64 && Routable(pkt, s.own.slots[c].ip)
    ensures var f := s.flows[c];
            var f' := f.(sealed := f.sealed + [Stamp(|s.tunIn|, pad)]);
            Run(s, [TunRead(pkt), TunLookup, TunSeal(pad)])
            == s.(tunIn := s.tunIn + [pkt], flows := s.flows[c := f'],
                  tun := Carrying(c, SealedMsg(s.aead, f, pkt, pad)))
  {
    var s1 := s.(tunIn := s.tunIn + [pkt], tun := Reading(|s.tunIn|));
    ReadStep(s, pkt);
    LookupStep(s1, c);
    SealStep(s1.(tun := Routed(|s.tunIn|, c)), c, pad);
    RunTriple(s, TunRead(pkt), TunLookup, TunSeal(pad));
  }

  lemma RunTriple(s: State, x: Step, y: Step, z: Step)
    ensures Run(s, [x, y, z]) == Apply(Apply(Apply(s, x), y), z)
  {
    RunPair(s, x, y);
    A.RunSnoc(s, [x, y], z);
    assert [x, y] + [z] == [x, y, z];
  }

  lemma EnqueuedAndWritten(s: State, c: ConnId, m: Msg)
    requires s.tun == Carrying(c, m) && Serving(s, c) && c !in s.own.closed
    requires s.flows[c].writing && s.flows[c].queue == []
    ensures Run(s, [TunEnqueue, WriterSend(c)])
            == s.(tun := Idle, flows := s.flows[c := s.flows[c].(wire := s.flows[c].wire + [m])])
  {
    var f := s.flows[c];
    var s1 := s.(tun := Idle, flows := s.flows[c := f.(queue := [m])]);
    assert s.own.closed + {} == s.own.closed;
    assert f.queue + [m] == [m];
    assert Apply(s, TunEnqueue) == s1;
    assert [m][1..] == [] && s1.flows[c := f.(wire := f.wire + [m])] == s.flows[c := f.(wire := f.wire + [m])];
    RunPair(s, TunEnqueue, WriterSend(c));
  }

  /** The route of a packet from the TUN device to the client. */
  function DownRoute(c: ConnId, pkt: bytes, pad: bytes): seq<Step> {
    [TunRead(pkt), TunLookup, TunSeal(pad)] + [TunEnqueue, WriterSend(c)] + [ClientRead(c)]
  }

  lemma {:induction false} RunKeepsDown(s: State, steps: seq<Step>)
    requires Down(s)
    ensures Down(Run(s, steps))
  {
    if steps != [] {
      RunKeepsDown(s, steps[..|steps| - 1]);
      StepKeepsDown(Run(s, steps[..|steps| - 1]), steps[|steps| - 1]);
    }
  }

  lemma WrittenDown(s: State, c: ConnId, pkt: bytes, pad: bytes)
    requires O.MapExact(s.own.clients, s.own.slots) && Ready(s, c) && s.tun.Idle?
    requires |pkt| <= s.mtu + 64 && Routable(pkt, s.own.slots[c].ip)
    ensures var f := s.flows[c];
            var f' := f.(sealed := f.sealed + [Stamp(|s.tunIn|, pad)],
                          wire := f.wire + [SealedMsg(s.aead, f, pkt, pad)]);
            Run(s, [TunRead(pkt), TunLookup, TunSeal(pad)] + [TunEnqueue, WriterSend(c)])
            == s.(tunIn := s.tunIn + [pkt], flows := s.flows[c := f'])
  {
    var f, m := s.flows[c], SealedMsg(s.aead, s.flows[c], pkt, pad);
    var s3 := Run(s, [TunRead(pkt), TunLookup, TunSeal(pad)]);
    RoutedAndSealed(s, c, pkt, pad);
    EnqueuedAndWritten(s3, c, m);
    A.RunConcat(s, [TunRead(pkt), TunLookup, TunSeal(pad)], [TunEnqueue, WriterSend(c)]);
    var f' := f.(sealed := f.sealed + [Stamp(|s.tunIn|, pad)], wire := f.wire + [m]);
    assert s3.flows[c := f'] == s.flows[c := f'];
  }

  /** The reader gets what the header carries of the packet that was just written to it. */
  lemma LastFrameRead(s: State, c: ConnId, n: nat, m: Msg)
    requires Correct(s.aead) && Serving(s, c) && FlowOkAt(s, c) && m.Data? && n < |s.tunIn|
    requires var f := s.flows[c];
             && f.wire != [] && f.wire[|f.wire| - 1] == m && f.got == |f.wire| - 1 && Agreed(f)
             && m.mark < |f.sealed| && f.sealed[m.mark].index == n
    ensures Apply(s, ClientRead(c)).flows[c].delivered == s.flows[c].delivered + [Carried(s.tunIn[n])]
  {
    NextFrameAccepted(s.aead, s.flows[c], s.own.slots[c].ip, s.tunIn, Bound(s.tun, s.tunIn), Tail(s.tun, c));
  }

  /** From every reachable state: an IPv4 packet to a ready session's address reaches its client. */
  lemma PacketDelivered(d: Setup, steps: seq<Step>, c: ConnId, pkt: bytes, pad: bytes)
    requires Correct(d.aead) && Valid(d.pool) && d.pool.held == {}
    requires var s := Run(Init(d), steps);
             && Ready(s, c) && s.tun.Idle? && IsTo(pkt, s.own.slots[c].ip) && |pkt| <= d.mtu + 64
    ensures var s := Run(Init(d), steps);
            var s' := Run(Init(d), steps + DownRoute(c, pkt, pad));
            c in s'.flows && s'.flows[c].delivered == s.flows[c].delivered + [Carried(pkt)]
  {
    var s := Run(Init(d), steps);
    RunDown(d, steps);
    RunFits(d, steps);
    RoutableExactly(pkt, s.own.slots[c].ip);
    WrittenDown(s, c, pkt, pad);
    var sent := [TunRead(pkt), TunLookup, TunSeal(pad)] + [TunEnqueue, WriterSend(c)];
    RunKeepsDown(s, sent);
    assert FlowOkAt(Run(s, sent), c);
    LastFrameRead(Run(s, sent), c, |s.tunIn|, SealedMsg(s.aead, s.flows[c], pkt, pad));
    A.RunSnoc(s, sent, ClientRead(c));
    A.RunConcat(Init(d), steps, DownRoute(c, pkt, pad));
  }

  /** A ping to a session with an empty queue puts a pong on its transport. */
  lemma PingAnswered(s: State, c: ConnId)
    requires Serving(s, c) && s.flows[c].pending.None? && c !in s.own.closed
    requires s.flows[c].writing && s.flows[c].queue == []
    ensures var s' := Run(s, [Ping(c), WriterSend(c)]);
            c in s'.flows && s'.flows[c] == s.flows[c].(wire := s.flows[c].wire + [Pong])
  {
    RunPair(s, Ping(c), WriterSend(c));
    assert s.flows[c].queue + [Pong] == [Pong] && [Pong][1..] == [];
  }

  // ----- a packet up

  /** The session is in its read loop with nothing in hand, and has read all its client wrote, in order. */
  ghost predicate Listening(s: State, c: ConnId) {
    && Serving(s, c)
    && var f := s.flows[c];
    && f.pending.None? && Orderly(f) && !f.lane.denied && f.lane.got == |f.lane.wire| && |f.sent| < TWO_64
  }

  lemma SentAndWritten(s: State, c: ConnId, w: nat, p: C.Packet)
    requires c in s.flows && |s.flows[c].sent| < TWO_64 && w !in s.flows[c].lane.writers
    ensures Run(s, [ClientSend(c, w, p), ClientWrite(c, w)]) == Replaced(s, c, WriteUp(SealUp(s.flows[c], w, p), w))
  {
    var f := SealUp(s.flows[c], w, p);
    RunPair(s, ClientSend(c, w, p), ClientWrite(c, w));
    LaneOnly(s, ClientSend(c, w, p));
    LaneOnly(Replaced(s, c, f), ClientWrite(c, w));
    assert s.flows[c := f][c := WriteUp(f, w)] == s.flows[c := WriteUp(f, w)];
  }

  /** The next frame up opens to its packet. */
  lemma NextFrameOpens(a: Aead, f: Flow, w: nat, p: C.Packet)
    requires Correct(a) && LaneOk(f) && Orderly(f) && !f.lane.denied && f.lane.got == |f.lane.wire| && |f.sent| < TWO_64
    ensures OpenFrame(a, f.server.recv, f.up, SealFrame(a, f.client.send, |f.sent|, p.payload, p.pad))
            == (Ok(Carried(p.payload)), Recv(|f.sent|, true))
  {
    OpenSealed(a, f.server.recv, f.up, |f.sent|, p.payload, p.pad);
  }

  /** The route of a packet from the client to the server's session. */
  function UpRoute(s: State, c: ConnId, w: nat, p: C.Packet): seq<Step>
    requires c in s.flows
  {
    [ClientSend(c, w, p), ClientWrite(c, w)]
    + [ServerRead(c, SealFrame(s.aead, s.flows[c].client.send, |s.flows[c].sent|, p.payload, p.pad))]
  }

  lemma ReadUpward(s: State, c: ConnId, w: nat, p: C.Packet)
    requires Correct(s.aead) && Listening(s, c) && LaneOk(s.flows[c])
    requires w !in s.flows[c].lane.writers && |p.payload| < 65536
    ensures var s' := Run(s, UpRoute(s, c, w, p));
            && Serving(s', c) && s'.own == s.own && s'.tunOut == s.tunOut
            && s'.flows[c].pending == if IsFrom(p.payload, s.own.slots[c].ip) then Some(p.payload) else None
  {
    var frame := SealFrame(s.aead, s.flows[c].client.send, |s.flows[c].sent|, p.payload, p.pad);
    var f := WriteUp(SealUp(s.flows[c], w, p), w);
    SentAndWritten(s, c, w, p);
    NextFrameOpens(s.aead, s.flows[c], w, p);
    CarriedWhole(p.payload);
    A.RunSnoc(s, [ClientSend(c, w, p), ClientWrite(c, w)], ServerRead(c, frame));
    OpenedReads(Replaced(s, c, f), c, frame, p.payload);
  }

  /** A frame that opens leaves its packet in hand exactly when it is from the session's address. */
  lemma OpenedReads(s: State, c: ConnId, frame: bytes, pkt: bytes)
    requires Serving(s, c) && s.flows[c].pending.None?
    requires OpenFrame(s.aead, s.flows[c].server.recv, s.flows[c].up, frame).0 == Ok(pkt)
    ensures var s' := Apply(s, ServerRead(c, frame));
            && Serving(s', c) && s'.own == s.own && s'.tunOut == s.tunOut
            && s'.flows[c].pending == if IsFrom(pkt, s.own.slots[c].ip) then Some(pkt) else None
  {
    PassesExactly(pkt, s.own.slots[c].ip);
    assert s.own.closed + {} == s.own.closed;
  }

  /**
   * From every reachable state: a packet a listening session's client sends is written to
   * the TUN next, whole, exactly when it is IPv4 from the session's address; otherwise it
   * is skipped and the session goes on.
   */
  lemma PacketForwarded(d: Setup, steps: seq<Step>, c: ConnId, w: nat, p: C.Packet)
    requires Correct(d.aead)
    requires var s := Run(Init(d), steps);
             Listening(s, c) && w !in s.flows[c].lane.writers && |p.payload| < 65536
    ensures var s := Run(Init(d), steps);
            var s' := Run(Init(d), steps + UpRoute(s, c, w, p));
            && Serving(s', c) && s'.tunOut == s.tunOut
            && (IsFrom(p.payload, s.own.slots[c].ip) ==> Apply(s', TunWrite(c)).tunOut == s.tunOut + [(c, p.payload)])
            && (!IsFrom(p.payload, s.own.slots[c].ip) ==> s'.flows[c].pending.None?)
  {
    var s := Run(Init(d), steps);
    RunLanes(d, steps);
    assert LaneAt(s, c);
    AeadStays(d, steps);
    ReadUpward(s, c, w, p);
    A.RunConcat(Init(d), steps, UpRoute(s, c, w, p));
    if IsFrom(p.payload, s.own.slots[c].ip) { InHandWritten(Run(s, UpRoute(s, c, w, p)), c); }
  }

  lemma InHandWritten(s: State, c: ConnId)
    requires Serving(s, c) && s.flows[c].pending.Some?
    ensures Apply(s, TunWrite(c)).tunOut == s.tunOut + [(c, s.flows[c].pending.value)]
  {
  }

  lemma {:induction false} AeadStays(d: Setup, steps: seq<Step>)
    ensures Run(Init(d), steps).aead == d.aead
  {
    if steps != [] {
      AeadStays(d, steps[..|steps| - 1]);
      ConstantsStay(Run(Init(d), steps[..|steps| - 1]), steps[|steps| - 1]);
    }
  }

  // ----- a writer that has ended stays silent

  lemma TouchedSilent(s: State, step: Step)
    requires Enabled(s, step) && Touched(s, step).Some? && !step.Greet?
    requires Touched(s, step).value in s.flows && Touched(s, step).value in s.own.closed
    ensures var f := s.flows[Touched(s, step).value];
            FlowAfter(s, step).wire == f.wire && (!f.writing ==> !FlowAfter(s, step).writing)
  {
  }

  lemma ClosedStays(o: O.Own, l: O.Step, c: ConnId)
    requires c in o.closed
    ensures c in O.Apply(o, l).closed
  {
  }

  lemma StepSilent(s: State, step: Step, c: ConnId)
    requires FlowsExist(s.own.slots, s.flows) && c in s.flows && c in s.own.closed
    ensures var s' := Apply(s, step);
            && c in s'.flows && c in s'.own.closed && s'.flows[c].wire == s.flows[c].wire
            && (!s.flows[c].writing ==> !s'.flows[c].writing)
  {
    KeysStay(s, step, c);
    if Enabled(s, step) {
      if LifeOf(s, step).Some? { ClosedStays(s.own, LifeOf(s, step).value, c); }
      if Touched(s, step) == Some(c) {
        if step.Greet? { GreetKeepsExist(s.own, c, s.flows, FlowAfter(s, step)); } else { TouchedSilent(s, step); }
      }
    }
  }

  /** Nothing is sent on a closed connection, whatever happens next. */
  lemma {:induction false} ClosedIsSilent(s: State, steps: seq<Step>, c: ConnId)
    requires FlowsExist(s.own.slots, s.flows) && c in s.flows && c in s.own.closed
    ensures var s' := Run(s, steps);
            && FlowsExist(s'.own.slots, s'.flows) && c in s'.flows && c in s'.own.closed
            && s'.flows[c].wire == s.flows[c].wire && (!s.flows[c].writing ==> !s'.flows[c].writing)
  {
    if steps != [] {
      var front := steps[..|steps| - 1];
      ClosedIsSilent(s, front, c);
      StepExists(Run(s, front), steps[|steps| - 1]);
      StepSilent(Run(s, front), steps[|steps| - 1], c);
    }
  }

  /** A failed frame or keepalive, or a close, ends the writer for good: the connection is closed and stays silent. */
  lemma WriterEnds(s: State, step: Step, c: ConnId, more: seq<Step>)
    requires FlowsExist(s.own.slots, s.flows) && Enabled(s, step)
    requires step == WriterStop(c) || (step == WriterFail(c) && s.flows[c].queue[0].Data?)
    ensures var s' := Run(Apply(s, step), more);
            && c in s'.own.closed && c in s'.flows && !s'.flows[c].writing
            && s'.flows[c].wire == s.flows[c].wire
  {
    StepExists(s, step);
    ClosedIsSilent(Apply(s, step), more, c);
  }

  /** A failed pong does not: the writer goes on with the next message. */
  lemma PongFailureGoesOn(s: State, c: ConnId)
    requires Enabled(s, WriterFail(c)) && s.flows[c].queue[0].Pong?
    ensures var s' := Apply(s, WriterFail(c));
            && s'.own.closed == s.own.closed && c in s'.flows && s'.flows[c].writing
            && s'.flows[c].queue == s.flows[c].queue[1..] && s'.flows[c].lost == s.flows[c].lost
  {
    assert Count([s.flows[c].queue[0]]) == 0;
  }
}
