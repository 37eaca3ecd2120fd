/** Downlink end to end: from the TUN device through queue, writer and transport to the client's reader. */
module Downlink {
  import opened Octets
  import opened Framing
  import opened AddressPool
  import opened Flow
  import opened Tunnel
  import O = Ownership

  // ----- invariant

  ghost predicate TunOk(tun: Tun, tunIn: seq<bytes>, slots: O.Slots, flows: map<ConnId, Flow>) {
    match tun
    case Idle => true
    case Reading(i) => i + 1 == |tunIn| && IPv4(tunIn[i])
    case Routed(i, c) => i + 1 == |tunIn| && c in slots && c in flows && Routable(tunIn[i], slots[c].ip)
    case Carrying(c, m) => c in flows && m.Data?
  }

  /** TUN packets before this position may have been sealed. */
  function Bound(tun: Tun, tunIn: seq<bytes>): nat {
    if tun.Reading? || tun.Routed? then tun.index else |tunIn|
  }

  /** The frame the TUN thread holds for this session. */
  function Tail(tun: Tun, c: ConnId): seq<Msg> {
    if tun.Carrying? && tun.c == c then [tun.msg] else []
  }

  ghost predicate FlowOkAt(s: State, c: ConnId)
    requires c in s.flows && c in s.own.slots
  {
    FlowOk(s.aead, s.flows[c], s.own.slots[c].ip, s.tunIn, Bound(s.tun, s.tunIn), Tail(s.tun, c))
  }

  /** Sessions whose two ends agree on the key are in order. */
  ghost predicate FlowsOk(s: State) {
    forall c :: c in s.flows && c in s.own.slots && Agreed(s.flows[c]) ==> FlowOkAt(s, c)
  }

  ghost predicate Down(s: State) {
    && Correct(s.aead) && O.Inv(s.own) && FlowsExist(s.own.slots, s.flows)
    && TunOk(s.tun, s.tunIn, s.own.slots, s.flows) && FlowsOk(s)
  }

  // ----- the TUN thread's position

  lemma TunForward(tun: Tun, tunIn: seq<bytes>, slots: O.Slots, flows: map<ConnId, Flow>,
                   slots': O.Slots, flows': map<ConnId, Flow>)
    requires TunOk(tun, tunIn, slots, flows) && FlowsExist(slots, flows) && Forward(slots, slots')
    requires forall c :: c in flows ==> c in flows'
    ensures TunOk(tun, tunIn, slots', flows')
  {
  }

  lemma LookupFinds(s: State)
    requires O.MapExact(s.own.clients, s.own.slots) && FlowsExist(s.own.slots, s.flows)
    requires TunOk(s.tun, s.tunIn, s.own.slots, s.flows) && Enabled(s, TunLookup)
    ensures TunOk(Apply(s, TunLookup).tun, s.tunIn, s.own.slots, s.flows)
  {
    var dst := Dst(s.tunIn[s.tun.index]);
    if dst in s.own.clients { assert O.MappedAt(s.own.slots, s.own.clients[dst], dst); }
  }

  predicate TunStep(step: Step) { step.TunRead? || step.TunLookup? || step.TunSeal? || step.TunEnqueue? }

  lemma OtherStepsLeaveTun(s: State, step: Step)
    requires !TunStep(step)
    ensures Apply(s, step).tun == s.tun && Apply(s, step).tunIn == s.tunIn
  {
  }

  lemma StepTunOk(s: State, step: Step)
    requires O.MapExact(s.own.clients, s.own.slots) && FlowsExist(s.own.slots, s.flows)
    requires TunOk(s.tun, s.tunIn, s.own.slots, s.flows)
    ensures var s' := Apply(s, step); TunOk(s'.tun, s'.tunIn, s'.own.slots, s'.flows)
  {
    if Enabled(s, step) && step.TunLookup? {
      LookupFinds(s);
    } else if !TunStep(step) {
      var s' := Apply(s, step);
      OtherStepsLeaveTun(s, step);
      StepForward(s, step);
      forall c | c in s.flows ensures c in s'.flows { KeysStay(s, step, c); }
      TunForward(s.tun, s.tunIn, s.own.slots, s.flows, s'.own.slots, s'.flows);
    }
  }

  // ----- one session under each step

  /** A later bound over the same TUN history. */
  lemma LaterBound(s: State, tun: Tun, c: ConnId)
    requires c in s.flows && c in s.own.slots && FlowOkAt(s, c) && Tail(s.tun, c) == Tail(tun, c)
    requires Bound(s.tun, s.tunIn) <= Bound(tun, s.tunIn) <= |s.tunIn|
    ensures FlowOk(s.aead, s.flows[c], s.own.slots[c].ip, s.tunIn, Bound(tun, s.tunIn), Tail(tun, c))
  {
    GrowKeeps(s.aead, s.flows[c], s.own.slots[c].ip, s.tunIn, Bound(s.tun, s.tunIn), Tail(s.tun, c),
              [], Bound(tun, s.tunIn));
    assert s.tunIn + [] == s.tunIn;
  }

  lemma TunReadKeeps(s: State, pkt: bytes, d: ConnId)
    requires Enabled(s, TunRead(pkt)) && d in s.flows && d in s.own.slots && FlowOkAt(s, d)
    ensures FlowOkAt(Apply(s, TunRead(pkt)), d)
  {
    var s' := Apply(s, TunRead(pkt));
    GrowKeeps(s.aead, s.flows[d], s.own.slots[d].ip, s.tunIn, |s.tunIn|, [], [pkt], Bound(s'.tun, s'.tunIn));
  }

  lemma TunLookupKeeps(s: State, d: ConnId)
    requires TunOk(s.tun, s.tunIn, s.own.slots, s.flows) && Enabled(s, TunLookup)
    requires d in s.flows && d in s.own.slots && FlowOkAt(s, d)
    ensures FlowOkAt(Apply(s, TunLookup), d)
  {
    LaterBound(s, Apply(s, TunLookup).tun, d);
  }

  /** Sealing for a looked-up client, even if it has left and its address has a new holder. */
  lemma TunSealKeeps(s: State, pad: bytes, d: ConnId)
    requires TunOk(s.tun, s.tunIn, s.own.slots, s.flows) && Enabled(s, TunSeal(pad))
    requires d in s.flows && d in s.own.slots && FlowOkAt(s, d)
    ensures FlowOkAt(Apply(s, TunSeal(pad)), d)
  {
    if d == s.tun.c {
      SealKeeps(s.aead, s.flows[d], s.own.slots[d].ip, s.tunIn, s.tun.index, pad);
    } else {
      LaterBound(s, Apply(s, TunSeal(pad)).tun, d);
    }
  }

  lemma TunEnqueueKeeps(s: State, d: ConnId)
    requires TunOk(s.tun, s.tunIn, s.own.slots, s.flows) && Enabled(s, TunEnqueue)
    requires d in s.flows && d in s.own.slots && FlowOkAt(s, d)
    ensures FlowOkAt(Apply(s, TunEnqueue), d)
  {
    if d == s.tun.c { EnqueueKeeps(s.aead, s.flows[d], s.own.slots[d].ip, s.tunIn, |s.tunIn|, s.tun.msg); }
  }

  lemma TunStepKeeps(s: State, step: Step, d: ConnId)
    requires TunOk(s.tun, s.tunIn, s.own.slots, s.flows) && TunStep(step) && Enabled(s, step)
    requires d in s.flows && d in s.own.slots && FlowOkAt(s, d)
    ensures d in Apply(s, step).flows && d in Apply(s, step).own.slots && FlowOkAt(Apply(s, step), d)
  {
    match step
    case TunRead(pkt) => TunReadKeeps(s, pkt, d);
    case TunLookup => TunLookupKeeps(s, d);
    case TunSeal(pad) => TunSealKeeps(s, pad, d);
    case TunEnqueue => TunEnqueueKeeps(s, d);
  }

  /** Steps of the session's own writer and of its client's reader. */
  predicate PipeStep(step: Step) { step.WriterSend? || step.WriterFail? || step.ClientRead? || step.Ping? }

  lemma PipeStepKeeps(s: State, step: Step)
    requires PipeStep(step) && Enabled(s, step) && Correct(s.aead)
    requires step.c in s.own.slots && Agreed(s.flows[step.c]) && FlowOkAt(s, step.c)
    ensures FlowOk(s.aead, Apply(s, step).flows[step.c], s.own.slots[step.c].ip,
                   s.tunIn, Bound(s.tun, s.tunIn), Tail(s.tun, step.c))
  {
    var f, ip, bound, tail := s.flows[step.c], s.own.slots[step.c].ip, Bound(s.tun, s.tunIn), Tail(s.tun, step.c);
    match step
    case WriterSend(_) => WriteKeeps(s.aead, f, ip, s.tunIn, bound, tail);
    case WriterFail(_) => WriteFailsKeeps(s.aead, f, ip, s.tunIn, bound, tail);
    case ClientRead(_) => ReadKeeps(s.aead, f, ip, s.tunIn, bound, tail);
    case Ping(_) => PongKeeps(s.aead, f, ip, s.tunIn, bound, tail);
  }

  /** Everything else leaves what is on its way down alone. */
  lemma TouchedSameDown(s: State, step: Step)
    requires Enabled(s, step) && Touched(s, step).Some? && !step.Greet? && !TunStep(step) && !PipeStep(step)
    ensures Touched(s, step).value in s.flows && SameDown(s.flows[Touched(s, step).value], FlowAfter(s, step))
  {
  }

  lemma SameDownOtherwise(s: State, step: Step, d: ConnId)
    requires FlowsExist(s.own.slots, s.flows) && Enabled(s, step) && d in s.flows
    requires !TunStep(step) && !(PipeStep(step) && step.c == d)
    ensures d in Apply(s, step).flows && SameDown(s.flows[d], Apply(s, step).flows[d])
  {
    if Touched(s, step) == Some(d) {
      if step.Greet? { GreetKeepsExist(s.own, step.c, s.flows, FlowAfter(s, step)); } else { TouchedSameDown(s, step); }
    }
  }

  lemma OtherStepKeeps(s: State, step: Step, d: ConnId)
    requires Correct(s.aead) && FlowsExist(s.own.slots, s.flows) && !TunStep(step) && Enabled(s, step)
    requires d in s.flows && d in s.own.slots && Agreed(s.flows[d]) && FlowOkAt(s, d)
    ensures d in Apply(s, step).flows && d in Apply(s, step).own.slots && FlowOkAt(Apply(s, step), d)
  {
    var s' := Apply(s, step);
    OtherStepsLeaveTun(s, step);
    StepForward(s, step);
    ConstantsStay(s, step);
    if PipeStep(step) && step.c == d {
      PipeStepKeeps(s, step);
    } else {
      SameDownOtherwise(s, step, d);
      UplinkKeeps(s.aead, s.flows[d], s.own.slots[d].ip, s.tunIn, Bound(s.tun, s.tunIn), Tail(s.tun, d), s'.flows[d]);
    }
  }

  lemma GreetedFlowOk(s: State, step: Step)
    requires Down(s) && step.Greet? && Enabled(s, step) && step.c in Apply(s, step).own.slots
    ensures step.c !in s.flows && step.c in Apply(s, step).flows && FlowOkAt(Apply(s, step), step.c)
  {
    var f := FlowAfter(s, step);
    GreetKeepsExist(s.own, step.c, s.flows, f);
    assert Tail(s.tun, step.c) == [];
    NewFlowOk(s.aead, f.exchange, f.server, f.client,
              Apply(s, step).own.slots[step.c].ip, s.tunIn, Bound(s.tun, s.tunIn));
  }

  lemma StepFlowOk(s: State, step: Step, d: ConnId)
    requires Down(s) && Enabled(s, step)
    requires d in Apply(s, step).flows && d in Apply(s, step).own.slots && Agreed(Apply(s, step).flows[d])
    ensures FlowOkAt(Apply(s, step), d)
  {
    if d in s.flows {
      KeysStay(s, step, d);
      assert FlowOkAt(s, d);
      if TunStep(step) { TunStepKeeps(s, step, d); } else { OtherStepKeeps(s, step, d); }
    } else {
      OnlyGreetAdds(s, step, d);
      GreetedFlowOk(s, step);
    }
  }

  lemma StepKeepsDown(s: State, step: Step)
    requires Down(s)
    ensures Down(Apply(s, step))
  {
    var s' := Apply(s, step);
    StepOwned(s, step);
    StepExists(s, step);
    StepTunOk(s, step);
    ConstantsStay(s, step);
    if Enabled(s, step) {
      forall d | d in s'.flows && d in s'.own.slots && Agreed(s'.flows[d]) ensures FlowOkAt(s', d) {
        StepFlowOk(s, step, d);
      }
    }
  }

  lemma {:induction false} RunDown(d: Setup, steps: seq<Step>)
    requires Correct(d.aead) && Valid(d.pool) && d.pool.held == {}
    ensures Down(Run(Init(d), steps))
  {
    if steps != [] {
      RunDown(d, steps[..|steps| - 1]);
      StepKeepsDown(Run(Init(d), steps[..|steps| - 1]), steps[|steps| - 1]);
    }
  }

  // ----- sizes

  /** The TUN buffer holds MTU + 64 bytes. */
  ghost predicate Fits(d: Setup, s: State) {
    s.mtu == d.mtu && forall i :: 0 <= i < |s.tunIn| ==> |s.tunIn[i]| <= d.mtu + 64
  }

  lemma StepFits(d: Setup, s: State, step: Step)
    requires Fits(d, s)
    ensures Fits(d, Apply(s, step))
  {
    ConstantsStay(s, step);
  }

  lemma {:induction false} RunFits(d: Setup, steps: seq<Step>)
    ensures Fits(d, Run(Init(d), steps))
  {
    if steps != [] {
      RunFits(d, steps[..|steps| - 1]);
      StepFits(d, Run(Init(d), steps[..|steps| - 1]), steps[|steps| - 1]);
    }
  }

  // ----- main result, over every interleaving

  /** The delivered packets stand at these positions of the TUN history, all addressed to the session. */
  ghost predicate Chosen(s: State, c: ConnId, idx: seq<nat>)
    requires c in s.flows && c in s.own.slots
  {
    && Picks(s.flows[c].delivered, CarriedAll(s.tunIn), idx)
    && forall i :: 0 <= i < |idx| ==> IsTo(s.tunIn[idx[i]], s.own.slots[c].ip)
  }

  /** What a client has received, set against everything read from the TUN so far. */
  ghost predicate Received(s: State, c: ConnId)
    requires c in s.flows
  {
    var f := s.flows[c];
    && c in s.own.slots && !f.refused
    && (exists idx :: Chosen(s, c, idx))
    && (forall i :: 0 <= i < |f.sealed| ==> f.sealed[i].index < |s.tunIn|)
    && (f.lost == 0 ==> f.delivered <= SealedFor(f, s.tunIn))
    && (f.lost == 0 && f.queue == [] && Tail(s.tun, c) == [] && f.got == |f.wire|
        ==> f.delivered == SealedFor(f, s.tunIn))
    && f.got <= |f.wire| && |f.delivered| == Count(f.wire[..f.got])
    && |f.sealed| == Count(f.wire) + Count(f.queue) + Count(Tail(s.tun, c)) + f.lost
  }

  lemma DownReceives(s: State, c: ConnId)
    requires Down(s) && c in s.flows && Agreed(s.flows[c])
    ensures Received(s, c)
  {
    assert FlowOkAt(s, c);
    DeliveredInOrder(s.aead, s.flows[c], s.own.slots[c].ip, s.tunIn, Bound(s.tun, s.tunIn), Tail(s.tun, c));
    var idx, ip := Origins(s.flows[c]), s.own.slots[c].ip;
    forall i | 0 <= i < |idx| ensures IsTo(s.tunIn[idx[i]], ip) { RoutableExactly(s.tunIn[idx[i]], ip); }
    assert Chosen(s, c, idx);
    if s.flows[c].lost == 0 {
      NothingSkipped(s.aead, s.flows[c], s.own.slots[c].ip, s.tunIn, Bound(s.tun, s.tunIn), Tail(s.tun, c));
    }
  }

  /**
   * Downlink, end to end: whatever the interleaving, a client that made its own
   * hello with the server's key never refuses a frame, and what it gets is an
   * in-order, duplicate-free choice of the TUN packets addressed to it, whole if
   * MTU + 64 fits the length header.  Nothing is lost silently: every frame read
   * off the transport was delivered, every sealed frame is on the transport, queued,
   * in the TUN thread's hand, or counted as lost, and as long as none is lost the
   * client has exactly a prefix of what was sealed for it.
   */
  lemma DownlinkInOrder(d: Setup, steps: seq<Step>, c: ConnId)
    requires Correct(d.aead) && Valid(d.pool) && d.pool.held == {}
    requires var s := Run(Init(d), steps); c in s.flows && Provisioned(d.cfg, s.flows[c].exchange)
    ensures Received(Run(Init(d), steps), c)
    ensures d.mtu + 64 < TWO_16 ==> CarriedAll(Run(Init(d), steps).tunIn) == Run(Init(d), steps).tunIn
  {
    var s := Run(Init(d), steps);
    RunDown(d, steps);
    RunFits(d, steps);
    ProvisionedAgree(d, steps, c);
    DownReceives(s, c);
    if d.mtu + 64 < TWO_16 { AllCarriedWhole(s.tunIn); }
  }

  // ----- what is lost, and what is sealed

  lemma StepQueue(s: State, step: Step, c: ConnId)
    requires c in s.flows ==> |s.flows[c].queue| <= 256
    ensures c in Apply(s, step).flows ==> |Apply(s, step).flows[c].queue| <= 256
  {
    if Enabled(s, step) && Touched(s, step) == Some(c) { TouchedQueue(s, step); }
  }

  lemma TouchedQueue(s: State, step: Step)
    requires Enabled(s, step) && Touched(s, step).Some?
    requires Touched(s, step).value in s.flows ==> |s.flows[Touched(s, step).value].queue| <= 256
    ensures |FlowAfter(s, step).queue| <= 256
  {
  }

  /** No queue ever holds more than 256 messages. */
  lemma {:induction false} QueueBounded(d: Setup, steps: seq<Step>, c: ConnId)
    ensures c in Run(Init(d), steps).flows ==> |Run(Init(d), steps).flows[c].queue| <= 256
  {
    if steps != [] {
      QueueBounded(d, steps[..|steps| - 1], c);
      StepQueue(Run(Init(d), steps[..|steps| - 1]), steps[|steps| - 1], c);
    }
  }

  /** The step loses a frame of this session: its queue is full, or the write of a frame fails. */
  ghost predicate Loses(s: State, step: Step, c: ConnId) {
    && Enabled(s, step) && c in s.flows
    && ((step.TunEnqueue? && s.tun.c == c && s.tun.msg.Data? && |s.flows[c].queue| >= 256)
        || (step == WriterFail(c) && s.flows[c].queue[0].Data?))
  }

  ghost function Losses(d: Setup, steps: seq<Step>, c: ConnId): nat {
    if steps == [] then 0
    else
      var front := steps[..|steps| - 1];
      Losses(d, front, c) + (if Loses(Run(Init(d), front), steps[|steps| - 1], c) then 1 else 0)
  }

  lemma TouchedLost(s: State, step: Step)
    requires Enabled(s, step) && Touched(s, step).Some? && !step.Greet?
    ensures var c := Touched(s, step).value;
            c in s.flows && FlowAfter(s, step).lost == s.flows[c].lost + (if Loses(s, step, c) then 1 else 0)
  {
    assert forall m: Msg :: Count([m]) == if m.Data? then 1 else 0;
  }

  lemma StepLost(s: State, step: Step, c: ConnId)
    requires FlowsExist(s.own.slots, s.flows) && c in s.flows
    ensures c in Apply(s, step).flows
    ensures Apply(s, step).flows[c].lost == s.flows[c].lost + (if Loses(s, step, c) then 1 else 0)
  {
    KeysStay(s, step, c);
    if Enabled(s, step) && Touched(s, step) == Some(c) {
      if step.Greet? { GreetKeepsExist(s.own, c, s.flows, FlowAfter(s, step)); } else { TouchedLost(s, step); }
    }
  }

  /** A frame is lost only at a full queue or by a failed write, each time exactly one. */
  lemma {:induction false} LostExactly(d: Setup, steps: seq<Step>, c: ConnId)
    ensures var s := Run(Init(d), steps);
            && FlowsExist(s.own.slots, s.flows)
            && Losses(d, steps, c) == if c in s.flows then s.flows[c].lost else 0
  {
    if steps != [] {
      var s, step := Run(Init(d), steps[..|steps| - 1]), steps[|steps| - 1];
      LostExactly(d, steps[..|steps| - 1], c);
      StepExists(s, step);
      if c in s.flows { StepLost(s, step, c); } else if c in Apply(s, step).flows { OnlyGreetAdds(s, step, c); }
    }
  }

  /** The TUN packet a lookup found this session for. */
  ghost function FoundAt(s: State, step: Step, c: ConnId): seq<nat> {
    if Enabled(s, step) && step.TunLookup?
    then
      var dst := BigEndian(s.tunIn[s.tun.index][16..20], 4);
      if dst in s.own.clients && s.own.clients[dst] == c then [s.tun.index] else []
    else []
  }

  /** All of them, in the order of the run. */
  ghost function FoundFor(d: Setup, steps: seq<Step>, c: ConnId): seq<nat> {
    if steps == [] then []
    else
      var front := steps[..|steps| - 1];
      FoundFor(d, front, c) + FoundAt(Run(Init(d), front), steps[|steps| - 1], c)
  }

  /** What was sealed for a session, and what the TUN thread is about to seal for it. */
  ghost function SealedOrHeld(s: State, c: ConnId): seq<nat> {
    (if c in s.flows
     then seq(|s.flows[c].sealed|, i requires 0 <= i < |s.flows[c].sealed| => s.flows[c].sealed[i].index)
     else [])
    + (if s.tun.Routed? && s.tun.c == c then [s.tun.index] else [])
  }

  lemma TouchedSealed(s: State, step: Step)
    requires Enabled(s, step) && Touched(s, step).Some? && !step.Greet? && !step.TunSeal?
    ensures Touched(s, step).value in s.flows && FlowAfter(s, step).sealed == s.flows[Touched(s, step).value].sealed
  {
  }

  /** What the TUN thread's part needs: no premise on the AEAD. */
  ghost predicate TunSound(s: State) {
    O.Inv(s.own) && FlowsExist(s.own.slots, s.flows) && TunOk(s.tun, s.tunIn, s.own.slots, s.flows)
  }

  lemma {:induction false} RunTunSound(d: Setup, steps: seq<Step>)
    requires Valid(d.pool) && d.pool.held == {}
    ensures TunSound(Run(Init(d), steps))
  {
    if steps != [] {
      var s, step := Run(Init(d), steps[..|steps| - 1]), steps[|steps| - 1];
      RunTunSound(d, steps[..|steps| - 1]);
      StepOwned(s, step);
      StepExists(s, step);
      StepTunOk(s, step);
    }
  }

  lemma SealedStays(s: State, step: Step, c: ConnId)
    requires FlowsExist(s.own.slots, s.flows) && Enabled(s, step) && !TunStep(step)
    requires s.tun.Routed? ==> s.tun.c in s.flows
    ensures SealedOrHeld(Apply(s, step), c) == SealedOrHeld(s, c)
  {
    OtherStepsLeaveTun(s, step);
    if c in s.flows {
      KeysStay(s, step, c);
      if Touched(s, step) == Some(c) {
        if step.Greet? { GreetKeepsExist(s.own, c, s.flows, FlowAfter(s, step)); } else { TouchedSealed(s, step); }
      }
    } else if c in Apply(s, step).flows {
      OnlyGreetAdds(s, step, c);
    }
  }

  lemma LookupHolds(s: State, c: ConnId)
    requires Enabled(s, TunLookup)
    ensures SealedOrHeld(Apply(s, TunLookup), c) == SealedOrHeld(s, c) + FoundAt(s, TunLookup, c)
  {
    Uint32IsBigEndian(s.tunIn[s.tun.index], 16);
  }

  lemma SealMoves(s: State, pad: bytes, c: ConnId)
    requires Enabled(s, TunSeal(pad))
    ensures SealedOrHeld(Apply(s, TunSeal(pad)), c) == SealedOrHeld(s, c)
  {
  }

  lemma EnqueueStays(s: State, c: ConnId)
    requires Enabled(s, TunEnqueue)
    ensures SealedOrHeld(Apply(s, TunEnqueue), c) == SealedOrHeld(s, c)
  {
  }

  lemma StepSealed(s: State, step: Step, c: ConnId)
    requires TunSound(s) && Enabled(s, step)
    ensures SealedOrHeld(Apply(s, step), c) == SealedOrHeld(s, c) + FoundAt(s, step, c)
  {
    if !TunStep(step) {
      SealedStays(s, step, c);
    } else {
      match step
      case TunRead(_) =>
      case TunLookup => LookupHolds(s, c);
      case TunSeal(pad) => SealMoves(s, pad, c);
      case TunEnqueue => EnqueueStays(s, c);
    }
  }

  /**
   * What is sealed for a session is exactly the TUN packets whose destination it was
   * registered at when they were looked up, in order, the one in the thread's hand included.
   */
  lemma {:induction false} SealedExactly(d: Setup, steps: seq<Step>, c: ConnId)
    requires Valid(d.pool) && d.pool.held == {}
    ensures SealedOrHeld(Run(Init(d), steps), c) == FoundFor(d, steps, c)
  {
    if steps != [] {
      var s, step := Run(Init(d), steps[..|steps| - 1]), steps[|steps| - 1];
      SealedExactly(d, steps[..|steps| - 1], c);
      RunTunSound(d, steps[..|steps| - 1]);
      if Enabled(s, step) { StepSealed(s, step, c); }
    }
  }
}
