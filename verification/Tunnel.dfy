/**
 * The whole server as one interleaved machine: connection threads, the single
 * TUN thread, one writer per client, the replay gate in front of Allocate, and
 * the clients' readers and writers at the other end of their connections.
 */
module Tunnel {
  import opened Octets
  import opened Base64
  import opened Framing
  import opened KeySchedule
  import opened AddressPool
  import opened Flow
  import C = Channel
  import O = Ownership
  import R = Replay

  type ConnId = O.ConnId

  /** Where tunReadLoop is: the index is the packet's position in the TUN history. */
  datatype Tun =
    | Idle
    | Reading(index: nat)           // read an IPv4 packet, client not looked up yet
    | Routed(index: nat, c: ConnId) // holds a client pointer, frame not sealed yet
    | Carrying(c: ConnId, msg: Msg) // sealed, not enqueued yet

  /** What a server starts from. */
  datatype Setup = Setup(aead: Aead, mtu: nat, pool: Pool, cfg: R.Config, clock: int)

  datatype State = State(
    aead: Aead,
    mtu: nat,
    own: O.Own,
    gate: R.State,
    flows: map<ConnId, Flow>,
    tun: Tun,
    tunIn: seq<bytes>,             // every packet read from the TUN
    tunOut: seq<(ConnId, bytes)>)  // every packet written to it, and by whom

  datatype Step =
    | Admission(gate: R.Step)
    | Life(life: O.Step)
    | Greet(c: ConnId, entry: nat, serverSalt: bytes, peer: Client) // the welcome is sent, both ends derive their keys
    | TunRead(pkt: bytes)
    | TunLookup
    | TunSeal(pad: bytes)
    | TunEnqueue
    | WriterSend(c: ConnId)
    | WriterFail(c: ConnId)                        // a write fails
    | WriterStop(c: ConnId)                        // the client was closed, or a keepalive ping fails
    | ClientRead(c: ConnId)
    | ClientSend(c: ConnId, writer: nat, packet: C.Packet) // WritePacket seals
    | ClientWrite(c: ConnId, writer: nat)          // and writes, under writeMu
    | ServerRead(c: ConnId, frame: bytes)          // any bytes at all
    | Ping(c: ConnId)
    | TunWrite(c: ConnId)
    | HangUp(c: ConnId)                            // ReadMessage fails

  function Init(d: Setup): State {
    State(d.aead, d.mtu, O.Init(d.pool), R.Init(d.cfg, d.clock), map[], Idle, [], [])
  }

  // ----- the exchange of salts

  ghost function ServerKeys(cfg: R.Config, ex: Exchange): Keys {
    DeriveSession(cfg.hmac, cfg.psk, R.SaltOf(ex.hello.salt), ex.serverSalt, true)
  }

  /** The client reads the server's salt back from the text in the welcome. */
  ghost function ClientKeys(cfg: R.Config, ex: Exchange): Keys {
    DeriveSession(cfg.hmac, ex.peer.psk, ex.peer.salt, R.SaltOf(EncodeStd(ex.serverSalt)), false)
  }

  /** The hello is the one the peer makes, and the peer has the server's key. */
  predicate Provisioned(cfg: R.Config, ex: Exchange) {
    ex.peer.psk == cfg.psk && ex.hello == R.ClientHello(cfg, ex.peer.salt, ex.hello.ts)
  }

  /** Through both base64 texts and both derivations, each end receives with what the other sends with. */
  lemma KeysAgree(cfg: R.Config, ex: Exchange)
    requires Provisioned(cfg, ex)
    ensures ClientKeys(cfg, ex).recv == ServerKeys(cfg, ex).send && ClientKeys(cfg, ex).send == ServerKeys(cfg, ex).recv
    ensures var prk := cfg.hmac(ex.peer.salt + ex.serverSalt, cfg.psk);
            && ServerKeys(cfg, ex).send == cfg.hmac(prk, Ascii("arnos-s2c-v1") + [1])
            && ServerKeys(cfg, ex).recv == cfg.hmac(prk, Ascii("arnos-c2s-v1") + [1])
  {
    DecodeStdSpelling(ex.peer.salt, 0);
    DecodeStdSpelling(ex.serverSalt, 0);
    DerivedKeys(cfg.hmac, cfg.psk, ex.peer.salt, ex.serverSalt);
  }

  // ----- steps

  predicate Serving(s: State, c: ConnId) { c in s.flows && c in s.own.slots && s.own.slots[c].phase.Serving? }

  /** The connection's hello passed the replay guard. */
  ghost predicate Admitted(g: R.State, c: ConnId) { exists i :: 0 <= i < |g.log| && g.log[i].caller == c }

  ghost predicate Enabled(s: State, step: Step) {
    match step
    case Admission(_) => true
    case Life(l) => !l.Leave? && !(l.Welcome? && l.sent) && (l.Allocate? ==> Admitted(s.gate, l.c))
    case Greet(c, entry, _, _) =>
      O.Enabled(s.own, O.Welcome(c, true)) && entry < |s.gate.log| && s.gate.log[entry].caller == c
    case TunRead(pkt) => s.tun.Idle? && |pkt| <= s.mtu + 64
    case TunLookup => s.tun.Reading? && s.tun.index < |s.tunIn| && |s.tunIn[s.tun.index]| >= 20
    case TunSeal(_) =>
      s.tun.Routed? && s.tun.index < |s.tunIn| && s.tun.c in s.flows && |s.flows[s.tun.c].sealed| < TWO_64
    case TunEnqueue => s.tun.Carrying? && s.tun.c in s.flows
    case WriterSend(c) => c in s.flows && s.flows[c].writing && s.flows[c].queue != [] && c !in s.own.closed
    case WriterFail(c) => c in s.flows && s.flows[c].writing && s.flows[c].queue != []
    case WriterStop(c) => c in s.flows && s.flows[c].writing
    case ClientRead(c) => c in s.flows && s.flows[c].got < |s.flows[c].wire| && !s.flows[c].refused
    case ClientSend(c, w, _) => c in s.flows && |s.flows[c].sent| < TWO_64 && w !in s.flows[c].lane.writers
    case ClientWrite(c, w) => c in s.flows && w in s.flows[c].lane.writers
    case ServerRead(c, _) => Serving(s, c) && s.flows[c].pending.None?
    case Ping(c) => Serving(s, c) && s.flows[c].pending.None?
    case TunWrite(c) => Serving(s, c) && s.flows[c].pending.Some?
    case HangUp(c) => Serving(s, c) && s.flows[c].pending.None?
  }

  /** Some client sealed this under the key and a counter with the same nonce. */
  ghost predicate SealedByClient(s: State, key: Key, ctr: nat, pt: bytes) {
    exists d: ConnId, i: nat :: d in s.flows && s.flows[d].client.send == key && i < |s.flows[d].sent|
                                && NonceFor(i) == NonceFor(ctr) && pt == C.PlaintextOf(s.flows[d].sent[i])
  }

  /** The server sealed under this key for some session. */
  ghost predicate SealedByServer(s: State, key: Key) { exists d :: d in s.flows && s.flows[d].server.send == key }

  /** Ideal AEAD over the whole run: what verifies was sealed under that key. */
  ghost predicate Unforged(s: State, key: Key, frame: bytes) {
    match Authenticate(s.aead, key, frame)
    case Err(_) => true
    case Ok((ctr, pt)) => SealedByClient(s, key, ctr, pt) || SealedByServer(s, key)
  }

  /** The session's uplink after Open, with the packet noted if there is one. */
  ghost function Opened(s: State, c: ConnId, frame: bytes): Flow
    requires Serving(s, c)
  {
    var f := s.flows[c].(lane := ReadUp(s.aead, s.flows[c], frame),
                         forged := s.flows[c].forged || !Unforged(s, s.flows[c].server.recv, frame));
    match OpenFrame(s.aead, f.server.recv, f.up, frame)
    case (Err(_), up) => f.(up := up)
    case (Ok(pkt), up) =>
      f.(up := up, counters := f.counters + [up.max], decrypted := f.decrypted + [pkt],
         pending := if Passes(pkt, s.own.slots[c].ip) then Some(pkt) else None)
  }

  ghost function Greeting(s: State, entry: nat, serverSalt: bytes, peer: Client): Flow
    requires entry < |s.gate.log|
  {
    var ex := Exchange(s.gate.log[entry].hello, serverSalt, peer);
    NewFlow(ex, ServerKeys(s.gate.cfg, ex), ClientKeys(s.gate.cfg, ex))
  }

  /** Which session's flow a step replaces, if any. */
  function Touched(s: State, step: Step): Option<ConnId> {
    match step
    case Greet(c, _, _, _) => Some(c)
    case TunSeal(_) => if s.tun.Routed? then Some(s.tun.c) else None
    case TunEnqueue => if s.tun.Carrying? then Some(s.tun.c) else None
    case WriterSend(c) => Some(c)
    case WriterFail(c) => Some(c)
    case WriterStop(c) => Some(c)
    case ClientRead(c) => Some(c)
    case ClientSend(c, _, _) => Some(c)
    case ClientWrite(c, _) => Some(c)
    case ServerRead(c, _) => Some(c)
    case Ping(c) => Some(c)
    case TunWrite(c) => Some(c)
    case _ => None
  }

  /** The touched session's flow after the step. */
  ghost function FlowAfter(s: State, step: Step): Flow
    requires Enabled(s, step) && Touched(s, step).Some?
  {
    match step
    case Greet(_, entry, serverSalt, peer) => Greeting(s, entry, serverSalt, peer)
    case TunSeal(pad) => var f := s.flows[s.tun.c]; f.(sealed := f.sealed + [Stamp(s.tun.index, pad)])
    case TunEnqueue => Enqueue(s.flows[s.tun.c], s.tun.msg)
    case WriterSend(c) => WriteOne(s.flows[c])
    case WriterFail(c) => WriteFails(s.flows[c])
    case WriterStop(c) => s.flows[c].(writing := false)
    case ClientRead(c) => ReadOne(s.aead, s.flows[c])
    case ClientSend(c, w, p) => SealUp(s.flows[c], w, p)
    case ClientWrite(c, w) => WriteUp(s.flows[c], w)
    case ServerRead(c, frame) => Opened(s, c, frame)
    case Ping(c) => Enqueue(s.flows[c], Pong)
    case TunWrite(c) => s.flows[c].(pending := None)
  }

  ghost function FlowsAfter(s: State, step: Step): map<ConnId, Flow>
    requires Enabled(s, step)
  {
    match Touched(s, step)
    case Some(c) => s.flows[c := FlowAfter(s, step)]
    case None => s.flows
  }

  /** The lifecycle step a step makes, if any; an error from Open ends readLoop. */
  function LifeOf(s: State, step: Step): Option<O.Step> {
    match step
    case Life(l) => Some(l)
    case Greet(c, _, _, _) => Some(O.Welcome(c, true))
    case HangUp(c) => Some(O.Leave(c))
    case ServerRead(c, frame) =>
      if c in s.flows && OpenFrame(s.aead, s.flows[c].server.recv, s.flows[c].up, frame).0.Err? then Some(O.Leave(c))
      else None
    case _ => None
  }

  /** The connections a writer closes when it returns. */
  function Closes(s: State, step: Step): set<ConnId>
    requires step.WriterFail? ==> step.c in s.flows && s.flows[step.c].queue != []
  {
    match step
    case WriterFail(c) => if WriteFails(s.flows[c]).writing then {} else {c}
    case WriterStop(c) => {c}
    case _ => {}
  }

  ghost function OwnAfter(s: State, step: Step): O.Own
    requires Enabled(s, step)
  {
    match LifeOf(s, step)
    case Some(l) => O.Apply(s.own, l)
    case None => s.own.(closed := s.own.closed + Closes(s, step))
  }

  ghost function TunAfter(s: State, step: Step): Tun
    requires Enabled(s, step)
  {
    match step
    case TunRead(pkt) => if IPv4(pkt) then Reading(|s.tunIn|) else Idle
    case TunLookup =>
      var dst := Dst(s.tunIn[s.tun.index]);
      if dst in s.own.clients then Routed(s.tun.index, s.own.clients[dst]) else Idle
    case TunSeal(pad) => Carrying(s.tun.c, SealedMsg(s.aead, s.flows[s.tun.c], s.tunIn[s.tun.index], pad))
    case TunEnqueue => Idle
    case _ => s.tun
  }

  ghost function Apply(s: State, step: Step): State {
    if !Enabled(s, step) then s
    else s.(
      gate := if step.Admission? then R.Apply(s.gate, step.gate) else s.gate,
      own := OwnAfter(s, step),
      flows := FlowsAfter(s, step),
      tun := TunAfter(s, step),
      tunIn := if step.TunRead? then s.tunIn + [step.pkt] else s.tunIn,
      tunOut := if step.TunWrite? then s.tunOut + [(step.c, s.flows[step.c].pending.value)] else s.tunOut)
  }

  ghost function Run(s: State, steps: seq<Step>): State {
    if steps == [] then s else Apply(Run(s, steps[..|steps| - 1]), steps[|steps| - 1])
  }

  // ----- what every step keeps, for all results

  /** The client object exists from the welcome on. */
  predicate Greeted(p: O.Phase) { !p.Handshaking? && !p.Allocated? && !p.Rejecting? }

  ghost predicate FlowsExist(slots: O.Slots, flows: map<ConnId, Flow>) {
    && (forall c :: c in flows ==> c in slots && Greeted(slots[c].phase))
    && (forall c :: c in slots && Greeted(slots[c].phase) && !slots[c].phase.Ended? ==> c in flows)
  }

  /** Nobody goes back across the welcome, and an address told to a client never changes. */
  ghost predicate Forward(slots: O.Slots, slots': O.Slots) {
    forall c :: c in slots ==>
      c in slots' && (Greeted(slots[c].phase) ==> Greeted(slots'[c].phase) && slots'[c].ip == slots[c].ip)
  }

  lemma LifeForward(o: O.Own, l: O.Step)
    ensures Forward(o.slots, O.Apply(o, l).slots)
  {
  }

  lemma LifeKeepsExist(o: O.Own, l: O.Step, flows: map<ConnId, Flow>)
    requires FlowsExist(o.slots, flows) && !(l.Welcome? && l.sent)
    ensures FlowsExist(O.Apply(o, l).slots, flows)
  {
  }

  lemma GreetKeepsExist(o: O.Own, c: ConnId, flows: map<ConnId, Flow>, f: Flow)
    requires FlowsExist(o.slots, flows) && O.Enabled(o, O.Welcome(c, true))
    ensures c !in flows && FlowsExist(O.Apply(o, O.Welcome(c, true)).slots, flows[c := f])
  {
  }

  lemma StepForward(s: State, step: Step)
    ensures Forward(s.own.slots, Apply(s, step).own.slots)
  {
    if Enabled(s, step) {
      if LifeOf(s, step).Some? { LifeForward(s.own, LifeOf(s, step).value); }
    }
  }

  lemma StepOwned(s: State, step: Step)
    requires O.Inv(s.own)
    ensures O.Inv(Apply(s, step).own)
  {
    if Enabled(s, step) {
      if LifeOf(s, step).Some? { O.StepKeepsInv(s.own, LifeOf(s, step).value); }
    }
  }

  lemma TouchedExists(s: State, step: Step)
    requires Enabled(s, step) && !step.Greet? && Touched(s, step).Some?
    ensures Touched(s, step).value in s.flows
  {
  }

  lemma FlowsStay(s: State, step: Step)
    requires Enabled(s, step) && !step.Greet?
    ensures Apply(s, step).flows.Keys == s.flows.Keys
  {
    if Touched(s, step).Some? { TouchedExists(s, step); }
  }

  lemma ExistByKeys(slots: O.Slots, flows: map<ConnId, Flow>, flows': map<ConnId, Flow>)
    requires FlowsExist(slots, flows) && flows'.Keys == flows.Keys
    ensures FlowsExist(slots, flows')
  {
    assert forall c :: c in flows' <==> c in flows'.Keys;
    assert forall c :: c in flows <==> c in flows.Keys;
  }

  lemma StepExists(s: State, step: Step)
    requires FlowsExist(s.own.slots, s.flows)
    ensures FlowsExist(Apply(s, step).own.slots, Apply(s, step).flows)
  {
    if Enabled(s, step) {
      if step.Greet? {
        GreetKeepsExist(s.own, step.c, s.flows, FlowAfter(s, step));
      } else {
        FlowsStay(s, step);
        ExistByKeys(s.own.slots, s.flows, Apply(s, step).flows);
        if LifeOf(s, step).Some? { LifeKeepsExist(s.own, LifeOf(s, step).value, Apply(s, step).flows); }
      }
    }
  }

  // ----- keys never change

  ghost predicate KeyedFlow(cfg: R.Config, f: Flow) {
    f.server == ServerKeys(cfg, f.exchange) && f.client == ClientKeys(cfg, f.exchange)
  }

  ghost predicate Keyed(s: State) { forall c :: c in s.flows ==> KeyedFlow(s.gate.cfg, s.flows[c]) }

  /** Same keys from the same exchange. */
  predicate SameKeys(f: Flow, g: Flow) { g.exchange == f.exchange && g.server == f.server && g.client == f.client }

  lemma TouchedKeys(s: State, step: Step)
    requires Enabled(s, step) && !step.Greet? && Touched(s, step).Some?
    ensures Touched(s, step).value in s.flows && SameKeys(s.flows[Touched(s, step).value], FlowAfter(s, step))
  {
  }

  lemma KeysStay(s: State, step: Step, d: ConnId)
    requires FlowsExist(s.own.slots, s.flows) && d in s.flows
    ensures d in Apply(s, step).flows && SameKeys(s.flows[d], Apply(s, step).flows[d])
  {
    if Enabled(s, step) && Touched(s, step) == Some(d) {
      if step.Greet? { GreetKeepsExist(s.own, step.c, s.flows, FlowAfter(s, step)); } else { TouchedKeys(s, step); }
    }
  }

  lemma ConstantsStay(s: State, step: Step)
    ensures Apply(s, step).gate.cfg == s.gate.cfg && Apply(s, step).aead == s.aead && Apply(s, step).mtu == s.mtu
  {
  }

  lemma OnlyGreetAdds(s: State, step: Step, d: ConnId)
    requires d in Apply(s, step).flows && d !in s.flows
    ensures Enabled(s, step) && step.Greet? && step.c == d && Apply(s, step).flows[d] == FlowAfter(s, step)
  {
    if Enabled(s, step) && !step.Greet? { FlowsStay(s, step); }
  }

  lemma StepKeyed(s: State, step: Step)
    requires Keyed(s) && FlowsExist(s.own.slots, s.flows)
    ensures Keyed(Apply(s, step))
  {
    var flows := Apply(s, step).flows;
    ConstantsStay(s, step);
    forall d | d in flows ensures KeyedFlow(s.gate.cfg, flows[d]) {
      if d in s.flows { KeysStay(s, step, d); } else { OnlyGreetAdds(s, step, d); }
    }
  }

  lemma {:induction false} RunKeyed(d: Setup, steps: seq<Step>)
    ensures var s := Run(Init(d), steps); Keyed(s) && FlowsExist(s.own.slots, s.flows) && s.gate.cfg == d.cfg
  {
    if steps != [] {
      var s, last := Run(Init(d), steps[..|steps| - 1]), steps[|steps| - 1];
      RunKeyed(d, steps[..|steps| - 1]);
      StepExists(s, last);
      StepKeyed(s, last);
      ConstantsStay(s, last);
    }
  }

  /** The keys agree, in both directions, for a client that made its own hello with the server's key. */
  lemma ProvisionedAgree(d: Setup, steps: seq<Step>, c: ConnId)
    requires c in Run(Init(d), steps).flows && Provisioned(d.cfg, Run(Init(d), steps).flows[c].exchange)
    ensures var f := Run(Init(d), steps).flows[c]; Agreed(f) && f.client.send == f.server.recv
  {
    RunKeyed(d, steps);
    KeysAgree(d.cfg, Run(Init(d), steps).flows[c].exchange);
  }

  lemma {:induction false} RunOwned(d: Setup, steps: seq<Step>)
    requires Valid(d.pool) && d.pool.held == {}
    ensures O.Inv(Run(Init(d), steps).own)
  {
    if steps != [] {
      RunOwned(d, steps[..|steps| - 1]);
      StepOwned(Run(Init(d), steps[..|steps| - 1]), steps[|steps| - 1]);
    }
  }
}
