/**
 * One direction of a session under an adversarial network: any number of Seal
 * callers race for counters, any number of Open callers race for the receive
 * lock, and the network hands over whatever bytes it likes.  The AEAD is ideal:
 * a frame opens only to a plaintext that was sealed under that key and nonce.
 */
module Channel {
  import opened Octets
  import opened Framing

  datatype Packet = Packet(payload: bytes, pad: bytes)

  datatype State = State(
    aead: Aead,
    key: Key,
    issued: seq<Packet>,             // what each fetched counter was fetched for; its length is the send counter
    sealing: map<nat, nat>,          // Seal callers between the fetch and the AEAD call, with their counter
    uses: seq<nat>,                  // counters the AEAD sealed under, in call order
    recv: Recv,
    opening: map<nat, (nat, bytes)>, // Open callers past the tag check, waiting for the lock
    accepted: seq<(nat, Result<bytes, OpenError>)>) // what passed the locked check, in check order

  datatype Step =
    | Fetch(caller: nat, packet: Packet)
    | Encrypt(caller: nat)
    | Deliver(caller: nat, frame: bytes)
    | Check(caller: nat)

  function Init(aead: Aead, key: Key): State {
    State(aead, key, [], map[], [], FRESH, map[], [])
  }

  /** Ideal AEAD: what verifies is in the log of sealed (nonce, plaintext) pairs. */
  ghost predicate Unforged(s: State, frame: bytes) {
    match Authenticate(s.aead, s.key, frame)
    case Err(_) => true
    case Ok((ctr, pt)) =>
      exists i :: 0 <= i < |s.uses| && s.uses[i] < |s.issued|
        && NonceFor(s.uses[i]) == NonceFor(ctr) && pt == PlaintextOf(s.issued[s.uses[i]])
  }

  function PlaintextOf(p: Packet): bytes { Plaintext(p.payload, p.pad) }

  ghost predicate Enabled(s: State, step: Step) {
    match step
    case Fetch(c, _) => c !in s.sealing && |s.issued| < TWO_64
    case Encrypt(c) => c in s.sealing
    case Deliver(c, frame) => c !in s.opening && Unforged(s, frame)
    case Check(c) => c in s.opening
  }

  ghost function Apply(s: State, step: Step): State {
    if !Enabled(s, step) then s else
    match step
    case Fetch(c, p) => s.(sealing := s.sealing[c := |s.issued|], issued := s.issued + [p])
    case Encrypt(c) => s.(uses := s.uses + [s.sealing[c]], sealing := s.sealing - {c})
    case Deliver(c, frame) =>
      (match Authenticate(s.aead, s.key, frame)
       case Err(_) => s
       case Ok(pair) => s.(opening := s.opening[c := pair]))
    case Check(c) =>
      var (ctr, pt) := s.opening[c];
      var s' := s.(opening := s.opening - {c});
      if Advances(s.recv, ctr) then s'.(recv := Recv(ctr, true), accepted := s.accepted + [(ctr, Strip(pt))]) else s'
  }

  ghost function Run(s: State, steps: seq<Step>): State {
    if steps == [] then s else Apply(Run(s, steps[..|steps| - 1]), steps[|steps| - 1])
  }

  // ----- invariant

  ghost predicate CountersFresh(issued: seq<Packet>, sealing: map<nat, nat>, uses: seq<nat>) {
    && |issued| <= TWO_64
    && (forall i :: 0 <= i < |uses| ==> uses[i] < |issued|)
    && (forall i, j :: 0 <= i < j < |uses| ==> uses[i] != uses[j])
    && (forall c :: c in sealing ==> sealing[c] < |issued| && sealing[c] !in uses)
    && (forall c, d :: c in sealing && d in sealing && c != d ==> sealing[c] != sealing[d])
  }

  ghost predicate Genuine(issued: seq<Packet>, pair: (nat, bytes)) {
    pair.0 < |issued| && pair.1 == PlaintextOf(issued[pair.0])
  }

  ghost predicate OpeningGenuine(issued: seq<Packet>, opening: map<nat, (nat, bytes)>) {
    forall c :: c in opening ==> Genuine(issued, opening[c])
  }

  /** An accepted entry carries the payload its counter was fetched for. */
  ghost predicate Faithful(issued: seq<Packet>, entry: (nat, Result<bytes, OpenError>)) {
    entry.0 < |issued| && entry.1 == Ok(Carried(issued[entry.0].payload))
  }

  ghost predicate AcceptedFaithful(issued: seq<Packet>, accepted: seq<(nat, Result<bytes, OpenError>)>) {
    forall i :: 0 <= i < |accepted| ==> Faithful(issued, accepted[i])
  }

  ghost predicate CheckOrdered(accepted: seq<(nat, Result<bytes, OpenError>)>, recv: Recv) {
    && (forall i, j :: 0 <= i < j < |accepted| ==> accepted[i].0 < accepted[j].0)
    && (forall i :: 0 <= i < |accepted| ==> recv.seen && accepted[i].0 <= recv.max)
  }

  ghost predicate Inv(s: State) {
    && CountersFresh(s.issued, s.sealing, s.uses) && OpeningGenuine(s.issued, s.opening)
    && AcceptedFaithful(s.issued, s.accepted) && CheckOrdered(s.accepted, s.recv)
  }

  lemma DeliverGenuine(s: State, frame: bytes)
    requires CountersFresh(s.issued, s.sealing, s.uses) && Unforged(s, frame) && Authenticate(s.aead, s.key, frame).Ok?
    ensures Genuine(s.issued, Authenticate(s.aead, s.key, frame).value)
  {
    var (ctr, pt) := Authenticate(s.aead, s.key, frame).value;
    Below64(frame);
    var i :| 0 <= i < |s.uses| && NonceFor(s.uses[i]) == NonceFor(ctr) && pt == PlaintextOf(s.issued[s.uses[i]]);
    NonceInjective(s.uses[i], ctr);
  }

  lemma FetchKeepsInv(s: State, c: nat, p: Packet)
    requires Inv(s) && Enabled(s, Fetch(c, p))
    ensures Inv(Apply(s, Fetch(c, p)))
  {
    FetchKeepsCounters(s.issued, s.sealing, s.uses, c, p);
    var issued := s.issued + [p];
    assert forall i :: 0 <= i < |s.issued| ==> issued[i] == s.issued[i];
    forall d | d in s.opening ensures Genuine(issued, s.opening[d]) { assert Genuine(s.issued, s.opening[d]); }
    forall i | 0 <= i < |s.accepted| ensures Faithful(issued, s.accepted[i]) {
      assert Faithful(s.issued, s.accepted[i]);
    }
  }

  lemma FetchKeepsCounters(issued: seq<Packet>, sealing: map<nat, nat>, uses: seq<nat>, c: nat, p: Packet)
    requires CountersFresh(issued, sealing, uses) && c !in sealing && |issued| < TWO_64
    ensures CountersFresh(issued + [p], sealing[c := |issued|], uses)
  {
    assert |issued| !in uses;
  }

  lemma EncryptKeepsCounters(issued: seq<Packet>, sealing: map<nat, nat>, uses: seq<nat>, c: nat)
    requires CountersFresh(issued, sealing, uses) && c in sealing
    ensures CountersFresh(issued, sealing - {c}, uses + [sealing[c]])
  {
  }

  lemma AcceptKeepsOrder(accepted: seq<(nat, Result<bytes, OpenError>)>, recv: Recv,
                         entry: (nat, Result<bytes, OpenError>))
    requires CheckOrdered(accepted, recv) && Advances(recv, entry.0)
    ensures CheckOrdered(accepted + [entry], Recv(entry.0, true))
  {
  }

  lemma CheckKeepsInv(s: State, c: nat)
    requires Inv(s) && Enabled(s, Check(c))
    ensures Inv(Apply(s, Check(c)))
  {
    var (ctr, pt) := s.opening[c];
    assert Genuine(s.issued, s.opening[c]);
    if Advances(s.recv, ctr) {
      var p := s.issued[ctr];
      StripPlaintext(p.payload, p.pad);
      assert Faithful(s.issued, (ctr, Strip(pt)));
      AcceptKeepsOrder(s.accepted, s.recv, (ctr, Strip(pt)));
    }
  }

  lemma StepKeepsInv(s: State, step: Step)
    requires Inv(s)
    ensures Inv(Apply(s, step)) && Apply(s, step).key == s.key
  {
    if Enabled(s, step) {
      match step
      case Fetch(c, p) => FetchKeepsInv(s, c, p);
      case Encrypt(c) => EncryptKeepsCounters(s.issued, s.sealing, s.uses, c);
      case Deliver(_, frame) =>
        if Authenticate(s.aead, s.key, frame).Ok? { DeliverGenuine(s, frame); }
      case Check(c) => CheckKeepsInv(s, c);
    }
  }

  lemma {:induction false} RunInv(aead: Aead, key: Key, steps: seq<Step>)
    ensures Inv(Run(Init(aead, key), steps)) && Run(Init(aead, key), steps).key == key
  {
    if steps != [] {
      RunInv(aead, key, steps[..|steps| - 1]);
      StepKeepsInv(Run(Init(aead, key), steps[..|steps| - 1]), steps[|steps| - 1]);
    }
  }

  // ----- main results

  function Sealed(s: State): seq<Result<bytes, OpenError>> {
    seq(|s.issued|, i requires 0 <= i < |s.issued| => Ok(Carried(s.issued[i].payload)))
  }

  function Delivered(s: State): seq<Result<bytes, OpenError>> {
    seq(|s.accepted|, i requires 0 <= i < |s.accepted| => s.accepted[i].1)
  }

  function Counters(s: State): seq<nat> {
    seq(|s.accepted|, i requires 0 <= i < |s.accepted| => s.accepted[i].0)
  }

  /**
   * Whatever the network reorders, repeats, drops or makes up, what Open accepts
   * is an in-order, duplicate-free subsequence of what the peer sealed.
   */
  lemma AcceptedInOrder(aead: Aead, key: Key, steps: seq<Step>)
    ensures var s := Run(Init(aead, key), steps); Picks(Delivered(s), Sealed(s), Counters(s))
  {
    RunInv(aead, key, steps);
    var s := Run(Init(aead, key), steps);
    forall i | 0 <= i < |s.accepted|
      ensures Counters(s)[i] < |s.issued| && Delivered(s)[i] == Sealed(s)[Counters(s)[i]]
    {
      assert Faithful(s.issued, s.accepted[i]);
    }
  }

  /** The steps that are not deliveries of short frames or of frames whose tag does not verify. */
  function WithoutBadTags(aead: Aead, key: Key, steps: seq<Step>): seq<Step> {
    if steps == [] then []
    else
      var last := steps[|steps| - 1];
      WithoutBadTags(aead, key, steps[..|steps| - 1])
      + (if last.Deliver? && Authenticate(aead, key, last.frame).Err? then [] else [last])
  }

  lemma BadTagStep(s: State, step: Step)
    requires step.Deliver? && Authenticate(s.aead, s.key, step.frame).Err?
    ensures Apply(s, step) == s
  {
  }

  lemma KeyStays(s: State, step: Step)
    ensures Apply(s, step).aead == s.aead && Apply(s, step).key == s.key
  {
  }

  /** Leaving every bad-tag delivery out of a run, wherever it stood, ends in the same state. */
  lemma {:induction false} BadTagsLeaveNoTrace(aead: Aead, key: Key, steps: seq<Step>)
    ensures Run(Init(aead, key), WithoutBadTags(aead, key, steps)) == Run(Init(aead, key), steps)
    ensures Run(Init(aead, key), steps).aead == aead && Run(Init(aead, key), steps).key == key
  {
    if steps != [] {
      var front, last := steps[..|steps| - 1], steps[|steps| - 1];
      BadTagsLeaveNoTrace(aead, key, front);
      var kept := WithoutBadTags(aead, key, front);
      assert (kept + [last])[..|kept|] == kept && kept + [] == kept;
      KeyStays(Run(Init(aead, key), front), last);
      if last.Deliver? && Authenticate(aead, key, last.frame).Err? { BadTagStep(Run(Init(aead, key), front), last); }
    }
  }

  /** The (key, nonce) pairs an endpoint has sealed under. */
  function KeyUses(s: State): seq<(Key, bytes)> {
    seq(|s.uses|, i requires 0 <= i < |s.uses| => (s.key, NonceFor(s.uses[i])))
  }

  ghost predicate Distinct<T>(xs: seq<T>) {
    forall i, j :: 0 <= i < j < |xs| ==> xs[i] != xs[j]
  }

  lemma UsesDistinct(s: State)
    requires CountersFresh(s.issued, s.sealing, s.uses)
    ensures Distinct(KeyUses(s))
  {
    forall i, j | 0 <= i < j < |s.uses| ensures KeyUses(s)[i] != KeyUses(s)[j] {
      if NonceFor(s.uses[i]) == NonceFor(s.uses[j]) { NonceInjective(s.uses[i], s.uses[j]); }
    }
  }

  /**
   * Over both directions of a connection and every interleaving of its Seal
   * callers, no (key, nonce) pair is used twice, provided the two keys differ.
   */
  lemma NonceNeverReused(aead: Aead, c2s: Key, s2c: Key, up: seq<Step>, down: seq<Step>)
    requires c2s != s2c
    ensures Distinct(KeyUses(Run(Init(aead, c2s), up)) + KeyUses(Run(Init(aead, s2c), down)))
  {
    RunInv(aead, c2s, up);
    RunInv(aead, s2c, down);
    UsesDistinct(Run(Init(aead, c2s), up));
    UsesDistinct(Run(Init(aead, s2c), down));
  }

  // ----- nothing is withheld

  /** The receive state is the last accepted counter. */
  ghost predicate RecvIsLast(s: State) {
    s.recv == if s.accepted == [] then FRESH else Recv(s.accepted[|s.accepted| - 1].0, true)
  }

  /** Every counter fetched was sealed under, or is about to be. */
  ghost predicate AllInUse(issued: seq<Packet>, sealing: map<nat, nat>, uses: seq<nat>) {
    forall n :: 0 <= n < |issued| ==> n in uses || n in sealing.Values
  }

  lemma FetchUses(issued: seq<Packet>, sealing: map<nat, nat>, uses: seq<nat>, c: nat, p: Packet)
    requires AllInUse(issued, sealing, uses) && c !in sealing
    ensures AllInUse(issued + [p], sealing[c := |issued|], uses)
  {
    var sealing' := sealing[c := |issued|];
    assert sealing'[c] == |issued|;
    forall n | n in sealing.Values ensures n in sealing'.Values {
      var d :| d in sealing && sealing[d] == n;
      assert sealing'[d] == n;
    }
  }

  lemma EncryptUses(issued: seq<Packet>, sealing: map<nat, nat>, uses: seq<nat>, c: nat)
    requires AllInUse(issued, sealing, uses) && c in sealing
    ensures AllInUse(issued, sealing - {c}, uses + [sealing[c]])
  {
    var rest, uses' := sealing - {c}, uses + [sealing[c]];
    forall n | 0 <= n < |issued| ensures n in uses' || n in rest.Values {
      if n !in uses && n != sealing[c] {
        var d :| d in sealing && sealing[d] == n;
        assert rest[d] == n;
      } else if n == sealing[c] {
        assert uses'[|uses|] == n;
      }
    }
  }

  lemma {:induction false} RunWithholdsNothing(aead: Aead, key: Key, steps: seq<Step>)
    ensures var s := Run(Init(aead, key), steps); RecvIsLast(s) && AllInUse(s.issued, s.sealing, s.uses)
  {
    if steps != [] {
      var s, step := Run(Init(aead, key), steps[..|steps| - 1]), steps[|steps| - 1];
      RunWithholdsNothing(aead, key, steps[..|steps| - 1]);
      if Enabled(s, step) {
        match step
        case Fetch(c, p) => FetchUses(s.issued, s.sealing, s.uses, c, p);
        case Encrypt(c) => EncryptUses(s.issued, s.sealing, s.uses, c);
        case Deliver(_, _) =>
        case Check(_) =>
      }
    }
  }

  /** After every run, a caller at the lock gets its packet exactly when its counter is above all accepted ones. */
  lemma CheckedExactly(aead: Aead, key: Key, steps: seq<Step>, c: nat)
    requires c in Run(Init(aead, key), steps).opening
    ensures var s := Run(Init(aead, key), steps);
            var ctr := s.opening[c].0;
            && ctr < |s.issued| && c !in Apply(s, Check(c)).opening
            && Apply(s, Check(c)).accepted
               == if forall i :: 0 <= i < |s.accepted| ==> s.accepted[i].0 < ctr
                  then s.accepted + [(ctr, Ok(Carried(s.issued[ctr].payload)))] else s.accepted
  {
    var s := Run(Init(aead, key), steps);
    RunInv(aead, key, steps);
    RunWithholdsNothing(aead, key, steps);
    assert Genuine(s.issued, s.opening[c]);
    var ctr := s.opening[c].0;
    StripPlaintext(s.issued[ctr].payload, s.issued[ctr].pad);
    if s.accepted != [] && s.accepted[|s.accepted| - 1].0 < ctr {
      assert forall i :: 0 <= i < |s.accepted| ==> s.accepted[i].0 <= s.recv.max;
    }
  }

  /** After every run, a frame sealed under any counter and delivered whole gets past the tag check. */
  lemma SealedGetsThrough(aead: Aead, key: Key, steps: seq<Step>, c: nat, n: nat)
    requires Correct(aead)
    requires var s := Run(Init(aead, key), steps); n in s.uses && c !in s.opening
    ensures var s := Run(Init(aead, key), steps);
            && n < |s.issued|
            && var p := s.issued[n];
            var s' := Apply(s, Deliver(c, SealFrame(aead, key, n, p.payload, p.pad)));
            c in s'.opening && s'.opening[c] == (n, PlaintextOf(p))
  {
    var s := Run(Init(aead, key), steps);
    RunInv(aead, key, steps);
    BadTagsLeaveNoTrace(aead, key, steps);
    var i :| 0 <= i < |s.uses| && s.uses[i] == n;
    var p := s.issued[n];
    AuthenticateSealed(aead, key, n, p.payload, p.pad);
    assert Unforged(s, SealFrame(aead, key, n, p.payload, p.pad));
  }
}
