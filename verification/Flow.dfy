/**
 * One session.  Down: frames sealed by the TUN thread, a bounded queue that drops
 * when full, one FIFO writer, an ordered transport and the client's reader.  Up:
 * what the client sealed, what the server opened and what of it passes its checks.
 */
module Flow {
  import opened Octets
  import opened Framing
  import C = Channel
  import opened KeySchedule
  import R = Replay

  const QUEUE_CAP := 256

  /** A queued message; nil frames ask the writer for a pong.  `mark` says which seal made the frame. */
  datatype Msg = Pong | Data(frame: bytes, mark: nat)

  /** What one seal was for: the TUN packet's position in the TUN history, and its pad. */
  datatype Stamp = Stamp(index: nat, pad: bytes)

  /** The client at the other end of a connection: the key it was provisioned with and the salt it drew. */
  datatype Client = Client(psk: bytes, salt: bytes)

  /** What a session's keys came from: the hello it was admitted on, the server's salt, and who sent the hello. */
  datatype Exchange = Exchange(hello: R.Hello, serverSalt: bytes, peer: Client)

  /** The client's sending side, from WritePacket to the server's read. */
  datatype Lane = Lane(
    writers: map<nat, nat>,  // callers of WritePacket that have sealed and not written yet, with their counter
    wire: seq<nat>,          // counters of the frames written to the transport, in order
    got: nat,                // how many frames the server has read
    ordered: bool,           // each of them was the next one on the transport
    denied: bool)            // the server's Open returned an error

  const EMPTY_LANE := Lane(map[], [], 0, true, false)

  datatype Flow = Flow(
    exchange: Exchange,
    server: Keys,            // the server session's keys
    client: Keys,            // the client session's keys
    sealed: seq<Stamp>,      // every seal so far; its length is the send counter
    queue: seq<Msg>,         // the channel c.send
    writing: bool,           // writeLoop has not returned
    lost: nat,               // frames dropped at a full queue or by a failed write
    wire: seq<Msg>,          // written to the transport, in order
    got: nat,                // how much of it the client has read
    rx: Recv,                // the client session's receive state
    delivered: seq<bytes>,   // packets ReadPacket returned
    took: seq<nat>,          // their marks
    refused: bool,           // ReadPacket returned a decrypt error
    up: Recv,                // the server session's receive state
    sent: seq<C.Packet>,     // what the client has sealed; its length is the client's send counter
    lane: Lane,
    counters: seq<nat>,       // the counters of the frames the server session decrypted
    decrypted: seq<bytes>,   // and their packets
    forged: bool,            // a frame verified that nobody sealed under the key
    pending: Option<bytes>)  // uplink packet past the checks in readLoop, not written to the TUN yet

  function NewFlow(exchange: Exchange, server: Keys, client: Keys): Flow {
    Flow(exchange, server, client, [], [], true, 0, [], 0,
         FRESH, [], [], false, FRESH, [], EMPTY_LANE, [], [], false, None)
  }

  /** The client opens with the key the server seals with. */
  predicate Agreed(f: Flow) { f.client.recv == f.server.send }

  /** How many data frames, and which, in a run of messages. */
  function Count(msgs: seq<Msg>): nat {
    if msgs == [] then 0 else Count(msgs[..|msgs| - 1]) + (if msgs[|msgs| - 1].Data? then 1 else 0)
  }

  function Marks(msgs: seq<Msg>): seq<nat> {
    if msgs == [] then []
    else
      var last := msgs[|msgs| - 1];
      Marks(msgs[..|msgs| - 1]) + (if last.Data? then [last.mark] else [])
  }

  // ----- events

  function SealedMsg(a: Aead, f: Flow, pkt: bytes, pad: bytes): Msg {
    Data(SealFrame(a, f.server.send, |f.sealed|, pkt, pad), |f.sealed|)
  }

  /** select { case c.send <- m: default: } */
  function Enqueue(f: Flow, m: Msg): Flow {
    if |f.queue| < QUEUE_CAP then f.(queue := f.queue + [m]) else f.(lost := f.lost + Count([m]))
  }

  function WriteOne(f: Flow): Flow
    requires f.queue != []
  {
    f.(queue := f.queue[1..], wire := f.wire + [f.queue[0]])
  }

  /** A failed write loses the message; a failed data frame also ends the writer, a failed pong does not. */
  function WriteFails(f: Flow): Flow
    requires f.queue != []
  {
    f.(queue := f.queue[1..], writing := f.writing && f.queue[0].Pong?, lost := f.lost + Count([f.queue[0]]))
  }

  /** One turn of the client's ReadPacket loop. */
  function ReadOne(a: Aead, f: Flow): Flow
    requires f.got < |f.wire|
  {
    var g := f.(got := f.got + 1);
    match f.wire[f.got]
    case Pong => g
    case Data(frame, mark) =>
      match OpenFrame(a, f.client.recv, f.rx, frame)
      case (Ok(pkt), rx) => g.(rx := rx, delivered := f.delivered + [pkt], took := f.took + [mark])
      case (Err(_), rx) => g.(rx := rx, refused := true)
  }

  /** WritePacket seals before it takes the write lock. */
  function SealUp(f: Flow, writer: nat, p: C.Packet): Flow {
    f.(sent := f.sent + [p], lane := f.lane.(writers := f.lane.writers[writer := |f.sent|]))
  }

  function WriteUp(f: Flow, writer: nat): Flow
    requires writer in f.lane.writers
  {
    f.(lane := f.lane.(writers := f.lane.writers - {writer}, wire := f.lane.wire + [f.lane.writers[writer]]))
  }

  /** The frame is the next one on the client's transport. */
  predicate NextUp(a: Aead, f: Flow, frame: bytes) {
    && f.lane.got < |f.lane.wire| && f.lane.wire[f.lane.got] < |f.sent|
    && var ctr := f.lane.wire[f.lane.got];
    frame == SealFrame(a, f.client.send, ctr, f.sent[ctr].payload, f.sent[ctr].pad)
  }

  function ReadUp(a: Aead, f: Flow, frame: bytes): Lane {
    f.lane.(got := f.lane.got + 1, ordered := f.lane.ordered && NextUp(a, f, frame),
            denied := f.lane.denied || OpenFrame(a, f.server.recv, f.up, frame).0.Err?)
  }

  // ----- invariant

  function Dst(pkt: bytes): nat
    requires |pkt| >= 20
  {
    Uint32At(pkt, 16)
  }

  function Src(pkt: bytes): nat
    requires |pkt| >= 20
  {
    Uint32At(pkt, 12)
  }

  predicate IPv4(pkt: bytes) { |pkt| >= 20 && pkt[0] / 16 == 4 }

  /** An IPv4 packet whose source address, bytes 12 to 15, is `ip` (section 3.1 of RFC 791). */
  predicate IsFrom(pkt: bytes, ip: nat) { |pkt| >= 20 && pkt[0] / 16 == 4 && BigEndian(pkt[12..16], 4) == ip }

  /** An IPv4 packet whose destination address, bytes 16 to 19, is `ip`. */
  predicate IsTo(pkt: bytes, ip: nat) { |pkt| >= 20 && pkt[0] / 16 == 4 && BigEndian(pkt[16..20], 4) == ip }

  predicate Routable(pkt: bytes, ip: nat) { IPv4(pkt) && Dst(pkt) == ip }

  /** The seals are for packets to this session's address, in TUN order, all before `bound`. */
  ghost predicate StampsOk(sealed: seq<Stamp>, ip: nat, tunIn: seq<bytes>, bound: nat) {
    && |sealed| <= TWO_64 && bound <= |tunIn|
    && (forall i :: 0 <= i < |sealed| ==> sealed[i].index < bound && Routable(tunIn[sealed[i].index], ip))
    && (forall i, j :: 0 <= i < j < |sealed| ==> sealed[i].index < sealed[j].index)
  }

  /** The message is the frame its mark says. */
  ghost predicate Genuine(a: Aead, key: Key, sealed: seq<Stamp>, tunIn: seq<bytes>, m: Msg) {
    m.Data? ==>
      && m.mark < |sealed| && sealed[m.mark].index < |tunIn|
      && m.frame == SealFrame(a, key, m.mark, tunIn[sealed[m.mark].index], sealed[m.mark].pad)
  }

  /** The client has not gone past this message. */
  ghost predicate Ahead(rx: Recv, took: seq<nat>, m: Msg) {
    m.Data? ==> Advances(rx, m.mark) && forall i :: 0 <= i < |took| ==> took[i] < m.mark
  }

  predicate Before(m: Msg, n: Msg) { m.Data? && n.Data? ==> m.mark < n.mark }

  ghost predicate Ordered(pipe: seq<Msg>) { forall i, j :: 0 <= i < j < |pipe| ==> Before(pipe[i], pipe[j]) }

  ghost predicate AllGenuine(a: Aead, f: Flow, tunIn: seq<bytes>, pipe: seq<Msg>) {
    forall i :: 0 <= i < |pipe| ==> Genuine(a, f.server.send, f.sealed, tunIn, pipe[i])
  }

  ghost predicate AllAhead(f: Flow, pipe: seq<Msg>) {
    forall i :: 0 <= i < |pipe| ==> Ahead(f.rx, f.took, pipe[i])
  }

  ghost predicate PipeOk(a: Aead, f: Flow, tunIn: seq<bytes>, pipe: seq<Msg>) {
    Ordered(pipe) && AllGenuine(a, f, tunIn, pipe) && AllAhead(f, pipe)
  }

  /** Everything on its way to the client; `tail` is the frame the TUN thread still holds. */
  ghost function Pipe(f: Flow, tail: seq<Msg>): seq<Msg>
    requires f.got <= |f.wire|
  {
    f.wire[f.got..] + f.queue + tail
  }

  ghost predicate DeliveredOk(f: Flow, tunIn: seq<bytes>) {
    && !f.refused && |f.took| == |f.delivered| && Increasing(f.took) && (f.rx.seen ==> f.rx.max < |f.sealed|)
    && (forall i :: 0 <= i < |f.took| ==>
          && f.took[i] < |f.sealed| && f.sealed[f.took[i]].index < |tunIn|
          && f.delivered[i] == Carried(tunIn[f.sealed[f.took[i]].index]))
  }

  /** Every frame read off the transport was delivered, and every sealed frame is accounted for. */
  ghost predicate Accounted(f: Flow, tail: seq<Msg>) {
    && f.got <= |f.wire| && f.took == Marks(f.wire[..f.got])
    && |f.sealed| == Count(f.wire) + Count(f.queue) + Count(tail) + f.lost
  }

  ghost predicate OrderOk(a: Aead, f: Flow, ip: nat, tunIn: seq<bytes>, bound: nat, tail: seq<Msg>) {
    && StampsOk(f.sealed, ip, tunIn, bound) && DeliveredOk(f, tunIn)
    && f.got <= |f.wire| && PipeOk(a, f, tunIn, Pipe(f, tail))
  }

  ghost predicate FlowOk(a: Aead, f: Flow, ip: nat, tunIn: seq<bytes>, bound: nat, tail: seq<Msg>) {
    OrderOk(a, f, ip, tunIn, bound, tail) && Accounted(f, tail)
  }

  // ----- the uplink filter

  /** readLoop's checks: an IPv4 packet whose source is the session's address. */
  predicate Passes(pkt: bytes, ip: nat) { IPv4(pkt) && Src(pkt) == ip }

  lemma PassesExactly(pkt: bytes, ip: nat)
    ensures Passes(pkt, ip) <==> IsFrom(pkt, ip)
  {
    if |pkt| >= 20 { Uint32IsBigEndian(pkt, 12); }
  }

  lemma RoutableExactly(pkt: bytes, ip: nat)
    ensures Routable(pkt, ip) <==> IsTo(pkt, ip)
  {
    if |pkt| >= 20 { Uint32IsBigEndian(pkt, 16); }
  }

  function Select(pkts: seq<bytes>, ip: nat): seq<bytes> {
    if pkts == [] then []
    else
      var last := pkts[|pkts| - 1];
      Select(pkts[..|pkts| - 1], ip) + (if Passes(last, ip) then [last] else [])
  }

  lemma SelectSnoc(pkts: seq<bytes>, pkt: bytes, ip: nat)
    ensures Select(pkts + [pkt], ip) == Select(pkts, ip) + (if Passes(pkt, ip) then [pkt] else [])
  {
    assert (pkts + [pkt])[..|pkts|] == pkts;
  }

  /** Where the selected packets stand. */
  function Selected(pkts: seq<bytes>, ip: nat): seq<nat> {
    if pkts == [] then []
    else
      var n := |pkts| - 1;
      Selected(pkts[..n], ip) + (if Passes(pkts[n], ip) then [n] else [])
  }

  lemma {:induction false} SelectPicks(pkts: seq<bytes>, ip: nat)
    ensures Picks(Select(pkts, ip), pkts, Selected(pkts, ip))
  {
    if pkts != [] {
      var front := pkts[..|pkts| - 1];
      SelectPicks(front, ip);
      var idx := Selected(front, ip);
      assert forall i :: 0 <= i < |idx| ==> idx[i] < |front| && pkts[idx[i]] == front[idx[i]];
    }
  }

  /** Selected are exactly the packets from that address. */
  lemma {:induction false} SelectedExactly(pkts: seq<bytes>, ip: nat)
    ensures forall i :: i in Selected(pkts, ip) <==> 0 <= i < |pkts| && IsFrom(pkts[i], ip)
  {
    if pkts != [] {
      var n := |pkts| - 1;
      SelectedExactly(pkts[..n], ip);
      PassesExactly(pkts[n], ip);
      assert forall i :: 0 <= i < n ==> pkts[..n][i] == pkts[i];
    }
  }

  // ----- what the server opened

  function Payloads(sent: seq<C.Packet>): seq<bytes> {
    seq(|sent|, i requires 0 <= i < |sent| => sent[i].payload)
  }

  /** Every packet the server decrypted is one its client sealed, under strictly advancing counters. */
  ghost predicate OpenedGenuine(f: Flow) { OpensGenuine(f.sent, f.counters, f.decrypted, f.up) }

  ghost predicate OpensGenuine(sent: seq<C.Packet>, counters: seq<nat>, decrypted: seq<bytes>, up: Recv) {
    && |sent| <= TWO_64
    && Picks(decrypted, CarriedAll(Payloads(sent)), counters)
    && forall i :: 0 <= i < |counters| ==> up.seen && counters[i] <= up.max
  }

  lemma SendKeepsGenuine(f: Flow, p: C.Packet)
    requires OpenedGenuine(f) && |f.sent| < TWO_64
    ensures OpenedGenuine(f.(sent := f.sent + [p]))
  {
    var xs, ys := CarriedAll(Payloads(f.sent)), CarriedAll(Payloads(f.sent + [p]));
    assert forall i :: 0 <= i < |xs| ==> ys[i] == xs[i];
  }

  /** A frame that carries what the client sealed under its counter. */
  lemma OpenKeepsGenuine(a: Aead, f: Flow, frame: bytes, i: nat)
    requires OpenedGenuine(f) && Authenticate(a, f.server.recv, frame).Ok? && i < |f.sent|
    requires var (ctr, pt) := Authenticate(a, f.server.recv, frame).value;
             NonceFor(i) == NonceFor(ctr) && pt == C.PlaintextOf(f.sent[i])
    ensures match OpenFrame(a, f.server.recv, f.up, frame)
            case (Err(_), up) => up == f.up
            case (Ok(pkt), up) =>
              OpenedGenuine(f.(up := up, counters := f.counters + [up.max], decrypted := f.decrypted + [pkt]))
  {
    var (ctr, pt) := Authenticate(a, f.server.recv, frame).value;
    Below64(frame);
    NonceInjective(i, ctr);
    StripPlaintext(f.sent[i].payload, f.sent[i].pad);
  }

  // ----- counting

  lemma {:induction false} CountConcat(s: seq<Msg>, t: seq<Msg>)
    ensures Count(s + t) == Count(s) + Count(t)
  {
    if t == [] {
      assert s + t == s;
    } else {
      CountConcat(s, t[..|t| - 1]);
      assert (s + t)[..|s + t| - 1] == s + t[..|t| - 1];
    }
  }

  lemma MarksSnoc(s: seq<Msg>, m: Msg)
    ensures Marks(s + [m]) == Marks(s) + (if m.Data? then [m.mark] else [])
  {
    assert (s + [m])[..|s|] == s;
  }

  lemma {:induction false} MarksCount(s: seq<Msg>)
    ensures |Marks(s)| == Count(s)
  {
    if s != [] { MarksCount(s[..|s| - 1]); }
  }

  lemma QueueHead(f: Flow)
    requires f.queue != []
    ensures Count(f.queue) == Count([f.queue[0]]) + Count(f.queue[1..])
    ensures Count(f.wire + [f.queue[0]]) == Count(f.wire) + Count([f.queue[0]])
  {
    CountConcat([f.queue[0]], f.queue[1..]);
    assert f.queue == [f.queue[0]] + f.queue[1..];
    CountConcat(f.wire, [f.queue[0]]);
  }

  lemma ReadAccounted(f: Flow, tail: seq<Msg>)
    requires Accounted(f, tail) && f.got < |f.wire|
    ensures var m := f.wire[f.got]; Marks(f.wire[..f.got + 1]) == f.took + (if m.Data? then [m.mark] else [])
  {
    MarksSnoc(f.wire[..f.got], f.wire[f.got]);
    assert f.wire[..f.got + 1] == f.wire[..f.got] + [f.wire[f.got]];
  }

  // ----- pipes

  lemma PipeDrop(a: Aead, f: Flow, tunIn: seq<bytes>, pipe: seq<Msg>, k: nat)
    requires PipeOk(a, f, tunIn, pipe) && k < |pipe|
    ensures PipeOk(a, f, tunIn, pipe[..k] + pipe[k + 1..])
  {
    var rest := pipe[..k] + pipe[k + 1..];
    assert forall i :: 0 <= i < |rest| ==> rest[i] == pipe[if i < k then i else i + 1];
  }

  lemma PipeInsertPong(a: Aead, f: Flow, tunIn: seq<bytes>, left: seq<Msg>, right: seq<Msg>)
    requires PipeOk(a, f, tunIn, left + right)
    ensures PipeOk(a, f, tunIn, left + [Pong] + right)
  {
    var pipe, more, k := left + right, left + [Pong] + right, |left|;
    assert forall i :: 0 <= i < |more| ==> more[i] == if i == k then Pong else pipe[if i < k then i else i - 1];
  }

  /** PipeOk looks only at the session's key, seals and receive state. */
  lemma PipeFrame(a: Aead, f: Flow, g: Flow, tunIn: seq<bytes>, pipe: seq<Msg>)
    requires PipeOk(a, f, tunIn, pipe)
    requires g.server == f.server && g.sealed == f.sealed && g.rx == f.rx && g.took == f.took
    ensures PipeOk(a, g, tunIn, pipe)
  {
  }

  // ----- each event keeps the order

  /** More TUN packets change nothing for a session. */
  lemma GrowKeepsOrder(a: Aead, f: Flow, ip: nat, tunIn: seq<bytes>, bound: nat, tail: seq<Msg>,
                       more: seq<bytes>, bound': nat)
    requires OrderOk(a, f, ip, tunIn, bound, tail) && bound <= bound' <= |tunIn + more|
    ensures OrderOk(a, f, ip, tunIn + more, bound', tail)
  {
    assert forall i :: 0 <= i < |tunIn| ==> (tunIn + more)[i] == tunIn[i];
  }

  lemma NewFlowOrder(a: Aead, ex: Exchange, server: Keys, client: Keys, ip: nat, tunIn: seq<bytes>, bound: nat)
    requires bound <= |tunIn|
    ensures OrderOk(a, NewFlow(ex, server, client), ip, tunIn, bound, [])
  {
    assert Pipe(NewFlow(ex, server, client), []) == [];
  }

  /** The two differ at most on the uplink side and in whether the writer runs. */
  predicate SameDown(f: Flow, g: Flow) {
    g == f.(up := g.up, sent := g.sent, lane := g.lane, counters := g.counters,
            decrypted := g.decrypted, forged := g.forged,
            pending := g.pending, writing := g.writing)
  }

  lemma UplinkKeepsOrder(a: Aead, f: Flow, ip: nat, tunIn: seq<bytes>, bound: nat, tail: seq<Msg>, g: Flow)
    requires OrderOk(a, f, ip, tunIn, bound, tail) && SameDown(f, g)
    ensures OrderOk(a, g, ip, tunIn, bound, tail)
  {
    assert Pipe(g, tail) == Pipe(f, tail);
    PipeFrame(a, f, g, tunIn, Pipe(f, tail));
  }

  lemma SealPipe(a: Aead, f: Flow, tunIn: seq<bytes>, i: nat, pad: bytes, pipe: seq<Msg>)
    requires PipeOk(a, f, tunIn, pipe) && i < |tunIn| && DeliveredOk(f, tunIn)
    ensures PipeOk(a, f.(sealed := f.sealed + [Stamp(i, pad)]), tunIn, pipe + [SealedMsg(a, f, tunIn[i], pad)])
  {
    var g := f.(sealed := f.sealed + [Stamp(i, pad)]);
    var m := SealedMsg(a, f, tunIn[i], pad);
    assert Genuine(a, g.server.send, g.sealed, tunIn, m) && Ahead(g.rx, g.took, m);
    forall k | 0 <= k < |pipe| ensures Genuine(a, g.server.send, g.sealed, tunIn, pipe[k]) && Before(pipe[k], m) {
      assert Genuine(a, f.server.send, f.sealed, tunIn, pipe[k]);
    }
  }

  lemma SealKeepsOrder(a: Aead, f: Flow, ip: nat, tunIn: seq<bytes>, i: nat, pad: bytes)
    requires OrderOk(a, f, ip, tunIn, i, []) && i < |tunIn| && Routable(tunIn[i], ip) && |f.sealed| < TWO_64
    ensures OrderOk(a, f.(sealed := f.sealed + [Stamp(i, pad)]), ip, tunIn, i + 1, [SealedMsg(a, f, tunIn[i], pad)])
  {
    var g := f.(sealed := f.sealed + [Stamp(i, pad)]);
    var m := SealedMsg(a, f, tunIn[i], pad);
    SealPipe(a, f, tunIn, i, pad, Pipe(f, []));
    assert Pipe(g, [m]) == Pipe(f, []) + [m];
  }

  lemma EnqueueKeepsOrder(a: Aead, f: Flow, ip: nat, tunIn: seq<bytes>, bound: nat, m: Msg)
    requires OrderOk(a, f, ip, tunIn, bound, [m])
    ensures OrderOk(a, Enqueue(f, m), ip, tunIn, bound, [])
  {
    var g := Enqueue(f, m);
    var pipe := Pipe(f, [m]);
    if |f.queue| < QUEUE_CAP {
      assert Pipe(g, []) == pipe;
      PipeFrame(a, f, g, tunIn, pipe);
    } else {
      PipeLast(a, f, tunIn, f.wire[f.got..] + f.queue, m);
      assert Pipe(g, []) == f.wire[f.got..] + f.queue;
      PipeFrame(a, f, g, tunIn, Pipe(g, []));
    }
  }

  lemma PipeLast(a: Aead, f: Flow, tunIn: seq<bytes>, pipe: seq<Msg>, m: Msg)
    requires PipeOk(a, f, tunIn, pipe + [m])
    ensures PipeOk(a, f, tunIn, pipe)
  {
    assert forall i :: 0 <= i < |pipe| ==> pipe[i] == (pipe + [m])[i];
  }

  lemma PongKeepsOrder(a: Aead, f: Flow, ip: nat, tunIn: seq<bytes>, bound: nat, tail: seq<Msg>)
    requires OrderOk(a, f, ip, tunIn, bound, tail)
    ensures OrderOk(a, Enqueue(f, Pong), ip, tunIn, bound, tail)
  {
    var g := Enqueue(f, Pong);
    if |f.queue| < QUEUE_CAP {
      var left := f.wire[f.got..] + f.queue;
      PipeInsertPong(a, f, tunIn, left, tail);
      assert Pipe(g, tail) == left + [Pong] + tail;
      PipeFrame(a, f, g, tunIn, Pipe(g, tail));
    } else {
      PipeFrame(a, f, g, tunIn, Pipe(g, tail));
    }
  }

  lemma WriteKeepsOrder(a: Aead, f: Flow, ip: nat, tunIn: seq<bytes>, bound: nat, tail: seq<Msg>)
    requires OrderOk(a, f, ip, tunIn, bound, tail) && f.queue != []
    ensures OrderOk(a, WriteOne(f), ip, tunIn, bound, tail)
  {
    var g := WriteOne(f);
    assert g.wire[g.got..] == f.wire[f.got..] + [f.queue[0]];
    assert f.queue == [f.queue[0]] + f.queue[1..];
    assert Pipe(g, tail) == Pipe(f, tail);
    PipeFrame(a, f, g, tunIn, Pipe(f, tail));
  }

  lemma WriteFailsKeepsOrder(a: Aead, f: Flow, ip: nat, tunIn: seq<bytes>, bound: nat, tail: seq<Msg>)
    requires OrderOk(a, f, ip, tunIn, bound, tail) && f.queue != []
    ensures OrderOk(a, WriteFails(f), ip, tunIn, bound, tail)
  {
    var g := WriteFails(f);
    var pipe, k := Pipe(f, tail), |f.wire| - f.got;
    PipeDrop(a, f, tunIn, pipe, k);
    assert Pipe(g, tail) == pipe[..k] + pipe[k + 1..];
    PipeFrame(a, f, g, tunIn, Pipe(g, tail));
  }

  /** The client accepts the next frame, and gets what its header carries of the packet that was sealed. */
  lemma NextFrameAccepted(a: Aead, f: Flow, ip: nat, tunIn: seq<bytes>, bound: nat, tail: seq<Msg>)
    requires Correct(a) && Agreed(f) && OrderOk(a, f, ip, tunIn, bound, tail) && f.got < |f.wire| && f.wire[f.got].Data?
    ensures var m := f.wire[f.got];
            && m.mark < |f.sealed| && f.sealed[m.mark].index < |tunIn|
            && OpenFrame(a, f.client.recv, f.rx, m.frame)
               == (Ok(Carried(tunIn[f.sealed[m.mark].index])), Recv(m.mark, true))
  {
    var m := f.wire[f.got];
    assert Pipe(f, tail)[0] == m;
    assert Genuine(a, f.server.send, f.sealed, tunIn, m) && Ahead(f.rx, f.took, m);
    var pkt := tunIn[f.sealed[m.mark].index];
    OpenSealed(a, f.client.recv, f.rx, m.mark, pkt, f.sealed[m.mark].pad);
  }

  lemma ReadPipe(a: Aead, f: Flow, g: Flow, tunIn: seq<bytes>, pipe: seq<Msg>)
    requires PipeOk(a, f, tunIn, pipe) && pipe != [] && pipe[0].Data?
    requires g.server == f.server && g.sealed == f.sealed
    requires g.rx == Recv(pipe[0].mark, true) && g.took == f.took + [pipe[0].mark]
    ensures PipeOk(a, g, tunIn, pipe[1..])
  {
    var rest := pipe[1..];
    forall i | 0 <= i < |rest|
      ensures Genuine(a, g.server.send, g.sealed, tunIn, rest[i]) && Ahead(g.rx, g.took, rest[i])
    {
      assert rest[i] == pipe[i + 1];
      assert Genuine(a, f.server.send, f.sealed, tunIn, pipe[i + 1]) && Ahead(f.rx, f.took, pipe[i + 1]);
      assert Before(pipe[0], pipe[i + 1]);
    }
  }

  lemma PongReadKeepsOrder(a: Aead, f: Flow, ip: nat, tunIn: seq<bytes>, bound: nat, tail: seq<Msg>)
    requires OrderOk(a, f, ip, tunIn, bound, tail) && f.got < |f.wire|
    ensures OrderOk(a, f.(got := f.got + 1), ip, tunIn, bound, tail)
  {
    var g := f.(got := f.got + 1);
    var pipe := Pipe(f, tail);
    PipeDrop(a, f, tunIn, pipe, 0);
    assert Pipe(g, tail) == pipe[..0] + pipe[1..];
    PipeFrame(a, f, g, tunIn, Pipe(g, tail));
  }

  function Accept(f: Flow, mark: nat, pkt: bytes): Flow {
    f.(got := f.got + 1, rx := Recv(mark, true), delivered := f.delivered + [pkt], took := f.took + [mark])
  }

  lemma AcceptKeepsDelivered(f: Flow, tunIn: seq<bytes>, m: Msg, pkt: bytes)
    requires DeliveredOk(f, tunIn) && m.Data? && Ahead(f.rx, f.took, m)
    requires m.mark < |f.sealed| && f.sealed[m.mark].index < |tunIn| && pkt == Carried(tunIn[f.sealed[m.mark].index])
    ensures DeliveredOk(Accept(f, m.mark, pkt), tunIn)
  {
  }

  lemma AcceptKeepsOrder(a: Aead, f: Flow, ip: nat, tunIn: seq<bytes>, bound: nat, tail: seq<Msg>, m: Msg, pkt: bytes)
    requires OrderOk(a, f, ip, tunIn, bound, tail) && f.got < |f.wire| && f.wire[f.got] == m && m.Data?
    requires m.mark < |f.sealed| && f.sealed[m.mark].index < |tunIn| && pkt == Carried(tunIn[f.sealed[m.mark].index])
    ensures OrderOk(a, Accept(f, m.mark, pkt), ip, tunIn, bound, tail)
  {
    var g := Accept(f, m.mark, pkt);
    var pipe := Pipe(f, tail);
    assert pipe[0] == m && Pipe(g, tail) == pipe[1..];
    assert Ahead(f.rx, f.took, pipe[0]);
    AcceptKeepsDelivered(f, tunIn, m, pkt);
    ReadPipe(a, f, g, tunIn, pipe);
  }

  lemma DataReadKeepsOrder(a: Aead, f: Flow, ip: nat, tunIn: seq<bytes>, bound: nat, tail: seq<Msg>)
    requires Correct(a) && Agreed(f) && OrderOk(a, f, ip, tunIn, bound, tail) && f.got < |f.wire| && f.wire[f.got].Data?
    ensures OrderOk(a, ReadOne(a, f), ip, tunIn, bound, tail)
  {
    var m := f.wire[f.got];
    NextFrameAccepted(a, f, ip, tunIn, bound, tail);
    AcceptKeepsOrder(a, f, ip, tunIn, bound, tail, m, Carried(tunIn[f.sealed[m.mark].index]));
  }

  lemma ReadKeepsOrder(a: Aead, f: Flow, ip: nat, tunIn: seq<bytes>, bound: nat, tail: seq<Msg>)
    requires Correct(a) && Agreed(f) && OrderOk(a, f, ip, tunIn, bound, tail) && f.got < |f.wire|
    ensures OrderOk(a, ReadOne(a, f), ip, tunIn, bound, tail)
  {
    if f.wire[f.got].Pong? {
      PongReadKeepsOrder(a, f, ip, tunIn, bound, tail);
    } else {
      DataReadKeepsOrder(a, f, ip, tunIn, bound, tail);
    }
  }

  // ----- each event keeps the accounts

  lemma SealAccounted(f: Flow, stamp: Stamp, m: Msg)
    requires Accounted(f, []) && m.Data?
    ensures Accounted(f.(sealed := f.sealed + [stamp]), [m])
  {
  }

  lemma EnqueueAccounted(f: Flow, m: Msg, tail: seq<Msg>)
    requires Accounted(f, if m.Data? then [m] else tail) && (m.Data? ==> tail == [])
    ensures Accounted(Enqueue(f, m), tail)
  {
    EnqueueCounts(f, m);
    assert Count([m]) == if m.Data? then 1 else 0;
  }

  lemma EnqueueCounts(f: Flow, m: Msg)
    ensures Count(Enqueue(f, m).queue) + Enqueue(f, m).lost == Count(f.queue) + f.lost + Count([m])
  {
    CountConcat(f.queue, [m]);
  }

  lemma WriteAccounted(f: Flow, tail: seq<Msg>)
    requires Accounted(f, tail) && f.queue != []
    ensures Accounted(WriteOne(f), tail) && Accounted(WriteFails(f), tail)
  {
    QueueHead(f);
    assert WriteOne(f).wire[..f.got] == f.wire[..f.got];
  }

  lemma ReadOneAccounted(a: Aead, f: Flow, tail: seq<Msg>)
    requires Accounted(f, tail) && f.got < |f.wire|
    requires f.wire[f.got].Data? ==> OpenFrame(a, f.client.recv, f.rx, f.wire[f.got].frame).0.Ok?
    ensures Accounted(ReadOne(a, f), tail)
  {
    ReadAccounted(f, tail);
  }

  // ----- each event keeps the invariant

  /** More TUN packets change nothing for a session. */
  lemma GrowKeeps(a: Aead, f: Flow, ip: nat, tunIn: seq<bytes>, bound: nat, tail: seq<Msg>,
                  more: seq<bytes>, bound': nat)
    requires FlowOk(a, f, ip, tunIn, bound, tail) && bound <= bound' <= |tunIn + more|
    ensures FlowOk(a, f, ip, tunIn + more, bound', tail)
  {
    GrowKeepsOrder(a, f, ip, tunIn, bound, tail, more, bound');
  }

  lemma NewFlowOk(a: Aead, ex: Exchange, server: Keys, client: Keys, ip: nat, tunIn: seq<bytes>, bound: nat)
    requires bound <= |tunIn|
    ensures FlowOk(a, NewFlow(ex, server, client), ip, tunIn, bound, [])
  {
    NewFlowOrder(a, ex, server, client, ip, tunIn, bound);
  }

  lemma UplinkKeeps(a: Aead, f: Flow, ip: nat, tunIn: seq<bytes>, bound: nat, tail: seq<Msg>, g: Flow)
    requires FlowOk(a, f, ip, tunIn, bound, tail) && SameDown(f, g)
    ensures FlowOk(a, g, ip, tunIn, bound, tail)
  {
    UplinkKeepsOrder(a, f, ip, tunIn, bound, tail, g);
  }

  lemma SealKeeps(a: Aead, f: Flow, ip: nat, tunIn: seq<bytes>, i: nat, pad: bytes)
    requires FlowOk(a, f, ip, tunIn, i, []) && i < |tunIn| && Routable(tunIn[i], ip) && |f.sealed| < TWO_64
    ensures FlowOk(a, f.(sealed := f.sealed + [Stamp(i, pad)]), ip, tunIn, i + 1, [SealedMsg(a, f, tunIn[i], pad)])
  {
    SealKeepsOrder(a, f, ip, tunIn, i, pad);
    SealAccounted(f, Stamp(i, pad), SealedMsg(a, f, tunIn[i], pad));
  }

  lemma EnqueueKeeps(a: Aead, f: Flow, ip: nat, tunIn: seq<bytes>, bound: nat, m: Msg)
    requires FlowOk(a, f, ip, tunIn, bound, [m]) && m.Data?
    ensures FlowOk(a, Enqueue(f, m), ip, tunIn, bound, [])
  {
    EnqueueKeepsOrder(a, f, ip, tunIn, bound, m);
    EnqueueAccounted(f, m, []);
  }

  lemma PongKeeps(a: Aead, f: Flow, ip: nat, tunIn: seq<bytes>, bound: nat, tail: seq<Msg>)
    requires FlowOk(a, f, ip, tunIn, bound, tail)
    ensures FlowOk(a, Enqueue(f, Pong), ip, tunIn, bound, tail)
  {
    PongKeepsOrder(a, f, ip, tunIn, bound, tail);
    EnqueueAccounted(f, Pong, tail);
  }

  lemma WriteKeeps(a: Aead, f: Flow, ip: nat, tunIn: seq<bytes>, bound: nat, tail: seq<Msg>)
    requires FlowOk(a, f, ip, tunIn, bound, tail) && f.queue != []
    ensures FlowOk(a, WriteOne(f), ip, tunIn, bound, tail)
  {
    WriteKeepsOrder(a, f, ip, tunIn, bound, tail);
    WriteAccounted(f, tail);
  }

  lemma WriteFailsKeeps(a: Aead, f: Flow, ip: nat, tunIn: seq<bytes>, bound: nat, tail: seq<Msg>)
    requires FlowOk(a, f, ip, tunIn, bound, tail) && f.queue != []
    ensures FlowOk(a, WriteFails(f), ip, tunIn, bound, tail)
  {
    WriteFailsKeepsOrder(a, f, ip, tunIn, bound, tail);
    WriteAccounted(f, tail);
  }

  lemma ReadKeeps(a: Aead, f: Flow, ip: nat, tunIn: seq<bytes>, bound: nat, tail: seq<Msg>)
    requires Correct(a) && Agreed(f) && FlowOk(a, f, ip, tunIn, bound, tail) && f.got < |f.wire|
    ensures FlowOk(a, ReadOne(a, f), ip, tunIn, bound, tail)
  {
    ReadKeepsOrder(a, f, ip, tunIn, bound, tail);
    if f.wire[f.got].Data? { NextFrameAccepted(a, f, ip, tunIn, bound, tail); }
    ReadOneAccounted(a, f, tail);
  }

  // ----- what it means

  /** Where in the TUN history each delivered packet came from. */
  ghost function Origins(f: Flow): seq<nat>
    requires forall i :: 0 <= i < |f.took| ==> f.took[i] < |f.sealed|
  {
    seq(|f.took|, i requires 0 <= i < |f.took| => f.sealed[f.took[i]].index)
  }

  /** The client's packets are an in-order, duplicate-free choice of the TUN packets to its address, as carried. */
  lemma DeliveredInOrder(a: Aead, f: Flow, ip: nat, tunIn: seq<bytes>, bound: nat, tail: seq<Msg>)
    requires FlowOk(a, f, ip, tunIn, bound, tail)
    ensures Picks(f.delivered, CarriedAll(tunIn), Origins(f))
    ensures forall i :: 0 <= i < |f.delivered| ==> Routable(tunIn[Origins(f)[i]], ip)
    ensures |f.delivered| == Count(f.wire[..f.got])
  {
    MarksCount(f.wire[..f.got]);
    var idx := Origins(f);
    forall i, j | 0 <= i < j < |idx| ensures idx[i] < idx[j] { assert f.took[i] < f.took[j]; }
  }

  // ----- nothing lost, nothing skipped

  /** What the session's seals carry, in order. */
  ghost function SealedFor(f: Flow, tunIn: seq<bytes>): seq<bytes>
    requires forall i :: 0 <= i < |f.sealed| ==> f.sealed[i].index < |tunIn|
  {
    seq(|f.sealed|, i requires 0 <= i < |f.sealed| => Carried(tunIn[f.sealed[i].index]))
  }

  /** Which message a mark comes from. */
  lemma {:induction false} MarkedBy(pipe: seq<Msg>, j: nat) returns (k: nat)
    requires j < |Marks(pipe)|
    ensures k < |pipe| && pipe[k].Data? && pipe[k].mark == Marks(pipe)[j]
  {
    var n := |pipe| - 1;
    if pipe[n].Data? && j == |Marks(pipe)| - 1 { k := n; } else { k := MarkedBy(pipe[..n], j); }
  }

  lemma {:induction false} MarksIncrease(pipe: seq<Msg>)
    requires Ordered(pipe)
    ensures Increasing(Marks(pipe))
  {
    if pipe != [] {
      var n := |pipe| - 1;
      var front := pipe[..n];
      MarksIncrease(front);
      if pipe[n].Data? {
        forall j | 0 <= j < |Marks(front)| ensures Marks(front)[j] < pipe[n].mark {
          var k := MarkedBy(front, j);
          assert Before(pipe[k], pipe[n]);
        }
      }
    }
  }

  /** The marks of what is on its way increase, stay below the number of seals and above everything taken. */
  lemma MarksOrdered(a: Aead, f: Flow, tunIn: seq<bytes>, pipe: seq<Msg>)
    requires PipeOk(a, f, tunIn, pipe) && Increasing(f.took)
    ensures Increasing(f.took + Marks(pipe))
    ensures forall j :: 0 <= j < |Marks(pipe)| ==> Marks(pipe)[j] < |f.sealed|
  {
    MarksIncrease(pipe);
    forall j | 0 <= j < |Marks(pipe)|
      ensures Marks(pipe)[j] < |f.sealed| && forall i :: 0 <= i < |f.took| ==> f.took[i] < Marks(pipe)[j]
    {
      var k := MarkedBy(pipe, j);
      assert Genuine(a, f.server.send, f.sealed, tunIn, pipe[k]) && Ahead(f.rx, f.took, pipe[k]);
    }
  }

  /** An increasing list of n numbers below n counts up from zero. */
  lemma {:induction false} IncreasingFull(xs: seq<nat>, n: nat)
    requires Increasing(xs) && |xs| == n && forall i :: 0 <= i < n ==> xs[i] < n
    ensures forall i :: 0 <= i < n ==> xs[i] == i
  {
    if n > 0 {
      assert forall i :: 0 <= i < n - 1 ==> xs[i] < xs[n - 1];
      IncreasingFull(xs[..n - 1], n - 1);
      assert forall i :: 0 <= i < n - 1 ==> xs[i] == xs[..n - 1][i] == i;
      assert n > 1 ==> xs[n - 2] < xs[n - 1];
    }
  }

  lemma MarksOfAll(a: Aead, f: Flow, ip: nat, tunIn: seq<bytes>, bound: nat, tail: seq<Msg>)
    requires FlowOk(a, f, ip, tunIn, bound, tail)
    ensures |f.took + Marks(Pipe(f, tail))| + f.lost == |f.sealed|
  {
    var done, rest := f.wire[..f.got], f.wire[f.got..];
    assert done + rest == f.wire;
    CountConcat(done, rest);
    CountConcat(rest + f.queue, tail);
    CountConcat(rest, f.queue);
    MarksCount(done);
    MarksCount(Pipe(f, tail));
  }

  /** When no frame was dropped or failed to be written, the client has exactly a prefix of what was sealed for it. */
  lemma NothingSkipped(a: Aead, f: Flow, ip: nat, tunIn: seq<bytes>, bound: nat, tail: seq<Msg>)
    requires FlowOk(a, f, ip, tunIn, bound, tail) && f.lost == 0
    ensures f.delivered <= SealedFor(f, tunIn)
    ensures f.queue == [] && tail == [] && f.got == |f.wire| ==> f.delivered == SealedFor(f, tunIn)
  {
    var all := f.took + Marks(Pipe(f, tail));
    MarksOfAll(a, f, ip, tunIn, bound, tail);
    MarksOrdered(a, f, tunIn, Pipe(f, tail));
    IncreasingFull(all, |f.sealed|);
    assert forall i :: 0 <= i < |f.took| ==> all[i] == f.took[i];
    if f.queue == [] && tail == [] && f.got == |f.wire| { assert Pipe(f, tail) == []; }
  }
}
