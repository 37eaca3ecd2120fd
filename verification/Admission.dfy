/** Who gets a session: the replay gate in front of Allocate, seen from the whole machine. */
module Admission {
  import opened Octets
  import opened Base64
  import opened AddressPool
  import opened Flow
  import opened Tunnel
  import O = Ownership
  import R = Replay

  /** The gate's own steps in a run. */
  function GateSteps(steps: seq<Step>): seq<R.Step> {
    if steps == [] then []
    else
      var last := steps[|steps| - 1];
      GateSteps(steps[..|steps| - 1]) + (if last.Admission? then [last.gate] else [])
  }

  /** Inside every run of the machine, the gate makes a run of its own. */
  lemma {:induction false} GateRuns(d: Setup, steps: seq<Step>)
    ensures Run(Init(d), steps).gate == R.Run(R.Init(d.cfg, d.clock), GateSteps(steps))
  {
    if steps != [] {
      var front, last := steps[..|steps| - 1], steps[|steps| - 1];
      GateRuns(d, front);
      GateMoves(Run(Init(d), front), last);
      if last.Admission? {
        R.RunSnoc(R.Init(d.cfg, d.clock), GateSteps(front), last.gate);
      } else {
        assert GateSteps(steps) == GateSteps(front);
      }
    }
  }

  lemma GateMoves(s: State, step: Step)
    ensures Apply(s, step).gate == if step.Admission? then R.Apply(s.gate, step.gate) else s.gate
  {
  }

  // ----- no address without admission

  predicate Granted(s: State, c: ConnId) { c in s.own.slots && s.own.slots[c].grants > 0 }

  ghost predicate AllAdmitted(s: State) { forall c :: Granted(s, c) ==> Admitted(s.gate, c) }

  lemma AdmittedStays(g: R.State, step: R.Step, c: ConnId)
    requires Admitted(g, c)
    ensures Admitted(R.Apply(g, step), c)
  {
    var i :| 0 <= i < |g.log| && g.log[i].caller == c;
    assert R.Apply(g, step).log[i] == g.log[i];
  }

  /** Only Allocate makes a connection one that was granted an address. */
  lemma GrantMoves(s: State, step: Step, c: ConnId)
    requires Granted(Apply(s, step), c) && !Granted(s, c)
    ensures Enabled(s, step) && step == Life(O.Allocate(c))
  {
    if Enabled(s, step) && LifeOf(s, step).Some? { LifeGrants(s.own, LifeOf(s, step).value, c); }
  }

  lemma LifeGrants(o: O.Own, l: O.Step, c: ConnId)
    requires c in O.Apply(o, l).slots && O.Apply(o, l).slots[c].grants > 0
    ensures (c in o.slots && o.slots[c].grants > 0) || l == O.Allocate(c)
  {
  }

  lemma StepAdmitted(s: State, step: Step)
    requires AllAdmitted(s)
    ensures AllAdmitted(Apply(s, step))
  {
    var s' := Apply(s, step);
    GateMoves(s, step);
    forall c | Granted(s', c) ensures Admitted(s'.gate, c) {
      if !Granted(s, c) { GrantMoves(s, step, c); }
      if step.Admission? { AdmittedStays(s.gate, step.gate, c); }
    }
  }

  /** Whatever the AEAD, the MTU, the pool and the clock: whoever was granted an address was admitted. */
  lemma {:induction false} RunAdmitted(d: Setup, steps: seq<Step>)
    ensures AllAdmitted(Run(Init(d), steps))
  {
    if steps != [] {
      RunAdmitted(d, steps[..|steps| - 1]);
      StepAdmitted(Run(Init(d), steps[..|steps| - 1]), steps[|steps| - 1]);
    }
  }

  // ----- one session for each hello

  /** Two connections were admitted on hellos with one salt text and timestamp. */
  ghost predicate OnOneText(g: R.State, c: ConnId, c': ConnId) {
    exists i, j :: 0 <= i < |g.log| && 0 <= j < |g.log| && g.log[i].caller == c && g.log[j].caller == c'
                   && R.SameText(g.log[i].hello, g.log[j].hello)
  }

  /** Two connections were admitted on hellos with one salt and timestamp, however the salt was written. */
  ghost predicate OnOneSalt(g: R.State, c: ConnId, c': ConnId) {
    exists i, j :: 0 <= i < |g.log| && 0 <= j < |g.log| && g.log[i].caller == c && g.log[j].caller == c'
                   && R.SameSalt(g.log[i].hello, g.log[j].hello)
  }

  /**
   * With at most 4 s from skew check to sweep, no two connections that were ever
   * granted an address were admitted on one (salt text, ts), and both were admitted.
   */
  lemma OneSessionPerHello(d: Setup, steps: seq<Step>, c: ConnId, c': ConnId)
    requires d.cfg.limit <= 4 && R.InEra(d.clock) && c != c'
    requires Granted(Run(Init(d), steps), c) && Granted(Run(Init(d), steps), c')
    ensures var g := Run(Init(d), steps).gate; Admitted(g, c) && Admitted(g, c') && !OnOneText(g, c, c')
  {
    RunAdmitted(d, steps);
    GateRuns(d, steps);
    R.AcceptedOnce(d.cfg, d.clock, GateSteps(steps));
    SymmetricText(Run(Init(d), steps).gate);
  }

  lemma SymmetricText(g: R.State)
    requires R.NoRepeat(g)
    ensures forall i, j :: 0 <= i < |g.log| && 0 <= j < |g.log| && i != j
              ==> !R.SameText(g.log[i].hello, g.log[j].hello)
  {
  }

  // ----- one session for each salt

  /** Every hello that arrives has a salt text the server lets through. */
  ghost predicate Screened(steps: seq<Step>, allowed: iset<string>) {
    forall i :: 0 <= i < |steps| && steps[i].Admission? && steps[i].gate.Arrive? ==> steps[i].gate.hello.salt in allowed
  }

  lemma {:induction false} GateScreened(steps: seq<Step>, allowed: iset<string>)
    requires Screened(steps, allowed)
    ensures R.Screened(GateSteps(steps), allowed)
  {
    if steps != [] { GateScreened(steps[..|steps| - 1], allowed); }
  }

  ghost predicate OneSessionEach(d: Setup, allowed: iset<string>) {
    forall steps: seq<Step>, c: ConnId, c': ConnId ::
      Screened(steps, allowed) && c != c' && Granted(Run(Init(d), steps), c) && Granted(Run(Init(d), steps), c')
      ==> !OnOneSalt(Run(Init(d), steps).gate, c, c')
  }

  lemma SaltsApart(d: Setup, steps: seq<Step>, allowed: iset<string>, c: ConnId, c': ConnId)
    requires d.cfg.limit <= 4 && R.InEra(d.clock) && R.OneTextPerSalt(allowed) && Screened(steps, allowed) && c != c'
    ensures !OnOneSalt(Run(Init(d), steps).gate, c, c')
  {
    GateRuns(d, steps);
    GateScreened(steps, allowed);
    R.SaltAcceptedOnce(d.cfg, d.clock, GateSteps(steps), allowed);
    SymmetricSalt(Run(Init(d), steps).gate);
  }

  lemma SymmetricSalt(g: R.State)
    requires R.NoSaltRepeat(g)
    ensures forall i, j :: 0 <= i < |g.log| && 0 <= j < |g.log| && i != j
              ==> !R.SameSalt(g.log[i].hello, g.log[j].hello)
  {
  }

  // ----- a run with two sessions on one salt

  lemma RunSnoc(s: State, steps: seq<Step>, last: Step)
    ensures Run(s, steps + [last]) == Apply(Run(s, steps), last)
  {
    assert (steps + [last])[..|steps|] == steps;
  }

  function Admissions(gates: seq<R.Step>): seq<Step> {
    seq(|gates|, i requires 0 <= i < |gates| => Admission(gates[i]))
  }

  lemma {:induction false} RunAdmissions(s: State, gates: seq<R.Step>)
    ensures Run(s, Admissions(gates)) == s.(gate := R.Run(s.gate, gates))
  {
    if gates != [] {
      var front := gates[..|gates| - 1];
      RunAdmissions(s, front);
      RunSnoc(s, Admissions(front), Admission(gates[|gates| - 1]));
      AdmissionsSnoc(gates);
      AdmissionOnly(s.(gate := R.Run(s.gate, front)), gates[|gates| - 1]);
    }
  }

  lemma AdmissionsSnoc(gates: seq<R.Step>)
    requires gates != []
    ensures Admissions(gates) == Admissions(gates[..|gates| - 1]) + [Admission(gates[|gates| - 1])]
  {
  }

  lemma AdmissionOnly(s: State, g: R.Step)
    ensures Apply(s, Admission(g)) == s.(gate := R.Apply(s.gate, g))
  {
    assert s.own.closed + {} == s.own.closed;
  }

  lemma {:induction false} RunConcat(s: State, xs: seq<Step>, ys: seq<Step>)
    ensures Run(s, xs + ys) == Run(Run(s, xs), ys)
  {
    if ys == [] {
      assert xs + ys == xs;
    } else {
      RunConcat(s, xs, ys[..|ys| - 1]);
      assert (xs + ys)[..|xs + ys| - 1] == xs + ys[..|ys| - 1];
    }
  }

  function Lives(ls: seq<O.Step>): seq<Step> { seq(|ls|, i requires 0 <= i < |ls| => Life(ls[i])) }

  lemma {:induction false} RunLives(s: State, ls: seq<O.Step>)
    requires forall i :: 0 <= i < |ls| ==> Enabled(s, Life(ls[i]))
    ensures Run(s, Lives(ls)) == s.(own := O.Run(s.own, ls))
  {
    if ls != [] {
      var front, last := ls[..|ls| - 1], ls[|ls| - 1];
      RunLives(s, front);
      RunSnoc(s, Lives(front), Life(last));
      assert Lives(ls) == Lives(front) + [Life(last)];
      assert Enabled(s, Life(last));
    }
  }

  const CONNECT_BOTH := [O.Connect(0), O.Connect(1)]

  /** The first connection allocates, fails to send its welcome and releases; then the second allocates. */
  const ALLOCATE_IN_TURN := [O.Allocate(0), O.Welcome(0, false), O.ReleaseRejected(0), O.Allocate(1)]

  /** Two connections are admitted and are granted an address one after the other. */
  function TwoSessions(h: R.Hello, h': R.Hello): seq<Step> {
    Lives(CONNECT_BOTH) + (Admissions(R.Handshake(0, h) + R.Handshake(1, h')) + Lives(ALLOCATE_IN_TURN))
  }

  lemma OwnSnoc(o: O.Own, steps: seq<O.Step>, last: O.Step)
    ensures O.Run(o, steps + [last]) == O.Apply(O.Run(o, steps), last)
  {
    assert (steps + [last])[..|steps|] == steps;
  }

  lemma OwnTwo(o: O.Own, a: O.Step, b: O.Step)
    ensures O.Run(o, [a, b]) == O.Apply(O.Apply(o, a), b)
  {
    OwnSnoc(o, [], a);
    OwnSnoc(o, [a], b);
    assert [] + [a] == [a] && [a] + [b] == [a, b];
  }

  lemma OwnFour(o: O.Own, a: O.Step, b: O.Step, c: O.Step, d: O.Step)
    ensures O.Run(o, [a, b, c, d]) == O.Apply(O.Apply(O.Apply(O.Apply(o, a), b), c), d)
  {
    OwnTwo(o, a, b);
    OwnSnoc(o, [a, b], c);
    OwnSnoc(o, [a, b, c], d);
    assert [a, b] + [c] == [a, b, c] && [a, b, c] + [d] == [a, b, c, d];
  }

  /** A pool with nothing held grants, and after the release it does so again. */
  lemma GrantsAgain(pool: Pool)
    requires Valid(pool) && pool.held == {}
    ensures AllocateStep(pool).1.Granted?
    ensures AllocateStep(ReleaseStep(AllocateStep(pool).0, AllocateStep(pool).1.addr)).1.Granted?
  {
    Capacity(pool);
    GrantsBelowCapacity(pool);
    AllocateKeepsValid(pool);
    var again := ReleaseStep(AllocateStep(pool).0, AllocateStep(pool).1.addr);
    assert again.held == {};
    Capacity(again);
    GrantsBelowCapacity(again);
  }

  lemma AllocateInTurn(o: O.Own)
    requires Valid(o.pool) && o.pool.held == {} && 0 in o.slots && 1 in o.slots
    requires o.slots[0].phase.Handshaking? && o.slots[1].phase.Handshaking?
    ensures var slots := O.Run(o, ALLOCATE_IN_TURN).slots;
            0 in slots && 1 in slots && slots[0].grants == 1 && slots[1].grants == 1
  {
    GrantsAgain(o.pool);
    OwnFour(o, O.Allocate(0), O.Welcome(0, false), O.ReleaseRejected(0), O.Allocate(1));
  }

  /** Both are granted an address, whatever the pool, once they are admitted. */
  lemma AdmittedAllocate(s: State)
    requires Valid(s.own.pool) && s.own.pool.held == {} && 0 in s.own.slots && 1 in s.own.slots
    requires s.own.slots[0].phase.Handshaking? && s.own.slots[1].phase.Handshaking?
    requires Admitted(s.gate, 0) && Admitted(s.gate, 1)
    ensures var s' := Run(s, Lives(ALLOCATE_IN_TURN)); s'.gate == s.gate && Granted(s', 0) && Granted(s', 1)
  {
    RunLives(s, ALLOCATE_IN_TURN);
    AllocateInTurn(s.own);
  }

  lemma ConnectBoth(d: Setup)
    ensures var s := Run(Init(d), Lives(CONNECT_BOTH));
            var waiting := O.Slot(O.Handshaking, 0, 0, 0);
            s == Init(d).(own := Init(d).own.(slots := map[0 := waiting, 1 := waiting]))
  {
    RunLives(Init(d), CONNECT_BOTH);
    OwnTwo(Init(d).own, O.Connect(0), O.Connect(1));
  }

  lemma TwoSessionsRun(d: Setup, h: R.Hello, h': R.Hello)
    requires Valid(d.pool) && d.pool.held == {}
    requires R.Admissible(d.cfg, h) && R.Admissible(d.cfg, h') && R.SkewOk(d.clock, h.ts) && R.SkewOk(d.clock, h'.ts)
    requires !R.SameText(h, h') && R.SameSalt(h, h')
    ensures var s := Run(Init(d), TwoSessions(h, h')); Granted(s, 0) && Granted(s, 1) && OnOneSalt(s.gate, 0, 1)
  {
    var gates := R.Handshake(0, h) + R.Handshake(1, h');
    R.BothAccepted(d.cfg, d.clock, h, h');
    ConnectBoth(d);
    var connected := Run(Init(d), Lives(CONNECT_BOTH));
    RunAdmissions(connected, gates);
    var s := Run(connected, Admissions(gates));
    assert s.gate.log[0].caller == 0 && s.gate.log[1].caller == 1;
    assert R.SameSalt(s.gate.log[0].hello, s.gate.log[1].hello);
    AdmittedAllocate(s);
    RunConcat(connected, Admissions(gates), Lives(ALLOCATE_IN_TURN));
    RunConcat(Init(d), Lives(CONNECT_BOTH), Admissions(gates) + Lives(ALLOCATE_IN_TURN));
  }

  lemma TwoSessionsScreened(h: R.Hello, h': R.Hello, allowed: iset<string>)
    requires h.salt in allowed && h'.salt in allowed
    ensures Screened(TwoSessions(h, h'), allowed)
  {
    var gates := R.Handshake(0, h) + R.Handshake(1, h');
    assert forall i :: 0 <= i < |gates| && gates[i].Arrive? ==> gates[i].hello.salt in allowed;
    ScreenedConcat(Admissions(gates), Lives(ALLOCATE_IN_TURN), allowed);
    ScreenedConcat(Lives(CONNECT_BOTH), Admissions(gates) + Lives(ALLOCATE_IN_TURN), allowed);
  }

  lemma ScreenedConcat(xs: seq<Step>, ys: seq<Step>, allowed: iset<string>)
    requires Screened(xs, allowed) && Screened(ys, allowed)
    ensures Screened(xs + ys, allowed)
  {
  }

  lemma TwoTextsTwoSessions(d: Setup, allowed: iset<string>, t: string, t': string)
    requires Valid(d.pool) && d.pool.held == {} && R.InEra(d.clock)
    requires t in allowed && t' in allowed && R.IsSalt(t) && DecodeStd(t) == DecodeStd(t') && t != t'
    ensures !OneSessionEach(d, allowed)
  {
    var h := R.TokenFor(d.cfg, t, d.clock);
    var h' := h.(salt := t');
    TwoSessionsRun(d, h, h');
    TwoSessionsScreened(h, h', allowed);
  }

  /**
   * A salt opens one session only, however it is written, exactly when the server
   * lets no two texts of one salt through; canonical texts are such a set.
   */
  lemma OneSessionPerSalt(d: Setup, allowed: iset<string>)
    requires d.cfg.limit <= 4 && R.InEra(d.clock) && Valid(d.pool) && d.pool.held == {}
    ensures OneSessionEach(d, allowed) <==> R.OneTextPerSalt(allowed)
    ensures R.OneTextPerSalt(iset t: string | Canonical(t))
  {
    if R.OneTextPerSalt(allowed) {
      forall steps: seq<Step>, c: ConnId, c': ConnId
        | Screened(steps, allowed) && c != c' && Granted(Run(Init(d), steps), c) && Granted(Run(Init(d), steps), c')
        ensures !OnOneSalt(Run(Init(d), steps).gate, c, c')
      {
        SaltsApart(d, steps, allowed, c, c');
      }
    } else {
      var t, t' :| t in allowed && t' in allowed && R.IsSalt(t) && DecodeStd(t) == DecodeStd(t') && t != t';
      TwoTextsTwoSessions(d, allowed, t, t');
    }
  }

  // ----- nobody gets a session without the key's token

  /** The connection was admitted on a hello that carried its token and was at most 90 s off when checked. */
  ghost predicate AdmittedOnToken(g: R.State, c: ConnId) {
    exists i :: 0 <= i < |g.log| && g.log[i].caller == c
                && R.Authentic(g.cfg, g.log[i].hello) && -90 <= g.log[i].at - g.log[i].hello.ts <= 90
  }

  /** Every connection ever granted an address presented a valid token within the window. */
  lemma GrantedOnToken(d: Setup, steps: seq<Step>, c: ConnId)
    requires R.InEra(d.clock) && Granted(Run(Init(d), steps), c)
    ensures Run(Init(d), steps).gate.cfg == d.cfg && AdmittedOnToken(Run(Init(d), steps).gate, c)
  {
    RunAdmitted(d, steps);
    GateRuns(d, steps);
    RunKeyed(d, steps);
    var g := Run(Init(d), steps).gate;
    var i :| 0 <= i < |g.log| && g.log[i].caller == c;
    R.AcceptedAuthentic(d.cfg, d.clock, GateSteps(steps), i);
  }

  // ----- a new hello is served

  lemma ConnectStep(s: State, c: ConnId)
    requires c !in s.own.slots
    ensures Apply(s, Life(O.Connect(c))) == s.(own := s.own.(slots := s.own.slots[c := O.Slot(O.Handshaking, 0, 0, 0)]))
  {
  }

  /** Allocate for an admitted connection: the pool's answer decides. */
  lemma AllocateStepTo(s: State, c: ConnId)
    requires c in s.own.slots && s.own.slots[c].phase.Handshaking? && Admitted(s.gate, c)
    ensures var s' := Apply(s, Life(O.Allocate(c)));
            match AllocateStep(s.own.pool)
            case (pool, Granted(a)) =>
              s' == s.(own := s.own.(pool := pool, slots := s.own.slots[c := O.Slot(O.Allocated, a, 1, 0)]))
            case (_, _) => s' == s.(own := O.Move(s.own, c, O.Ended))
  {
  }

  lemma GreetStep(s: State, c: ConnId, entry: nat, serverSalt: bytes, peer: Client)
    requires c in s.own.slots && s.own.slots[c].phase.Allocated?
    requires entry < |s.gate.log| && s.gate.log[entry].caller == c
    ensures Apply(s, Greet(c, entry, serverSalt, peer))
            == s.(own := O.Move(s.own, c, O.Welcomed), flows := s.flows[c := Greeting(s, entry, serverSalt, peer)])
  {
  }

  lemma RegisterStepTo(s: State, c: ConnId)
    requires c in s.own.slots && s.own.slots[c].phase.Welcomed?
    ensures var s' := Apply(s, Life(O.Register(c)));
            s' == s.(own := s'.own) && s'.own.slots == O.Move(s.own, c, O.Serving).slots
  {
  }

  /** Connect, pass the checks and the guard; then Allocate, the welcome and register. */
  function Arrival(c: ConnId, h: R.Hello): seq<Step> { [Life(O.Connect(c))] + Admissions(R.Handshake(c, h)) }

  function Settling(c: ConnId, entry: nat, serverSalt: bytes, peer: Client): seq<Step> {
    [Life(O.Allocate(c))] + [Greet(c, entry, serverSalt, peer)] + [Life(O.Register(c))]
  }

  lemma Arrived(s: State, c: ConnId, h: R.Hello)
    requires c !in s.own.slots
    ensures Run(s, Arrival(c, h))
            == s.(own := s.own.(slots := s.own.slots[c := O.Slot(O.Handshaking, 0, 0, 0)]),
                  gate := R.Run(s.gate, R.Handshake(c, h)))
  {
    ConnectStep(s, c);
    RunSnoc(s, [], Life(O.Connect(c)));
    assert [] + [Life(O.Connect(c))] == [Life(O.Connect(c))];
    RunConcat(s, [Life(O.Connect(c))], Admissions(R.Handshake(c, h)));
    RunAdmissions(Apply(s, Life(O.Connect(c))), R.Handshake(c, h));
  }

  /** The connection is in its read loop at this address, with keys from this exchange, and nobody else has moved. */
  ghost predicate ServedAt(s: State, s': State, c: ConnId, a: u32, ex: Exchange) {
    && Serving(s', c) && s'.own.slots[c].ip == a
    && s'.flows[c] == NewFlow(ex, ServerKeys(s.gate.cfg, ex), ClientKeys(s.gate.cfg, ex))
    && (forall e :: e in s.own.slots && e != c ==> e in s'.own.slots && s'.own.slots[e] == s.own.slots[e])
    && (forall e :: e in s.flows && e != c ==> e in s'.flows && s'.flows[e] == s.flows[e])
    && s'.aead == s.aead && s'.tunIn == s.tunIn && s'.tunOut == s.tunOut && s'.tun == s.tun
  }

  lemma RunSettling(s: State, c: ConnId, entry: nat, serverSalt: bytes, peer: Client)
    ensures Run(s, Settling(c, entry, serverSalt, peer))
            == Apply(Apply(Apply(s, Life(O.Allocate(c))), Greet(c, entry, serverSalt, peer)), Life(O.Register(c)))
  {
    RunSnoc(s, [], Life(O.Allocate(c)));
    assert [] + [Life(O.Allocate(c))] == [Life(O.Allocate(c))];
    RunSnoc(s, [Life(O.Allocate(c))], Greet(c, entry, serverSalt, peer));
    RunSnoc(s, [Life(O.Allocate(c))] + [Greet(c, entry, serverSalt, peer)], Life(O.Register(c)));
  }

  /** From the grant on. */
  lemma GrantedServes(s: State, s1: State, c: ConnId, a: u32, entry: nat, serverSalt: bytes, peer: Client)
    requires c in s.own.slots && entry < |s.gate.log| && s.gate.log[entry].caller == c
    requires s1 == s.(own := s1.own) && s1.own.slots == s.own.slots[c := O.Slot(O.Allocated, a, 1, 0)]
    ensures ServedAt(s, Apply(Apply(s1, Greet(c, entry, serverSalt, peer)), Life(O.Register(c))), c, a,
                     Exchange(s.gate.log[entry].hello, serverSalt, peer))
  {
    GreetStep(s1, c, entry, serverSalt, peer);
    RegisterStepTo(Apply(s1, Greet(c, entry, serverSalt, peer)), c);
  }

  lemma Settled(s: State, c: ConnId, entry: nat, serverSalt: bytes, peer: Client)
    requires c in s.own.slots && s.own.slots[c].phase.Handshaking? && Scan(s.own.pool, 0).Granted?
    requires entry < |s.gate.log| && s.gate.log[entry].caller == c
    ensures ServedAt(s, Run(s, Settling(c, entry, serverSalt, peer)), c, Scan(s.own.pool, 0).addr,
                     Exchange(s.gate.log[entry].hello, serverSalt, peer))
  {
    assert Admitted(s.gate, c);
    AllocateStepTo(s, c);
    GrantedServes(s, Apply(s, Life(O.Allocate(c))), c, Scan(s.own.pool, 0).addr, entry, serverSalt, peer);
    RunSettling(s, c, entry, serverSalt, peer);
  }

  lemma ServedFromArrival(s: State, s1: State, s': State, c: ConnId, a: u32, ex: Exchange)
    requires ServedAt(s1, s', c, a, ex) && s1.gate.cfg == s.gate.cfg && s1.flows == s.flows
    requires s1.aead == s.aead && s1.tunIn == s.tunIn && s1.tunOut == s.tunOut && s1.tun == s.tun
    requires forall e :: e in s.own.slots && e != c ==> e in s1.own.slots && s1.own.slots[e] == s.own.slots[e]
    ensures ServedAt(s, s', c, a, ex)
  {
  }

  /**
   * From every reachable state: a new connection whose hello carries its token, is at most
   * 90 s off and was not accepted before is served, as long as an address is free: it gets
   * the pool's next free address, and the other sessions are as they were.
   */
  lemma HelloServed(d: Setup, steps: seq<Step>, c: ConnId, h: R.Hello, serverSalt: bytes, peer: Client)
    requires d.cfg.limit <= 4 && R.InEra(d.clock) && Valid(d.pool) && d.pool.held == {}
    requires var s := Run(Init(d), steps);
             && c !in s.own.slots && c !in s.gate.threads && |s.own.pool.held| < |UsableSet(s.own.pool)|
             && R.Authentic(d.cfg, h) && -90 <= s.gate.clock - h.ts <= 90 && !R.InLog(s.gate, h)
    ensures var s := Run(Init(d), steps);
            var s' := Run(Init(d), steps + (Arrival(c, h) + Settling(c, |s.gate.log|, serverSalt, peer)));
            && Scan(s.own.pool, 0).Granted?
            && ServedAt(s, s', c, Scan(s.own.pool, 0).addr, Exchange(h, serverSalt, peer))
  {
    var s := Run(Init(d), steps);
    RunOwned(d, steps);
    GrantsBelowCapacity(s.own.pool);
    GateAccepts(d, steps, c, h);
    Arrived(s, c, h);
    var s1 := Run(s, Arrival(c, h));
    Settled(s1, c, |s.gate.log|, serverSalt, peer);
    var settling := Settling(c, |s.gate.log|, serverSalt, peer);
    ServedFromArrival(s, s1, Run(s1, settling), c, Scan(s.own.pool, 0).addr, Exchange(h, serverSalt, peer));
    RunConcat(s, Arrival(c, h), settling);
    RunConcat(Init(d), steps, Arrival(c, h) + settling);
  }

  lemma GateAccepts(d: Setup, steps: seq<Step>, c: ConnId, h: R.Hello)
    requires d.cfg.limit <= 4 && R.InEra(d.clock)
    requires var g := Run(Init(d), steps).gate;
             && c !in g.threads && R.Authentic(d.cfg, h) && -90 <= g.clock - h.ts <= 90 && !R.InLog(g, h)
    ensures var g := Run(Init(d), steps).gate;
            var g' := R.Run(g, R.Handshake(c, h));
            && g'.cfg == g.cfg && |g'.log| == |g.log| + 1
            && g'.log[|g.log|].caller == c && g'.log[|g.log|].hello == h
  {
    GateRuns(d, steps);
    R.AdmissibleExactly(d.cfg, h);
    R.FreshHelloAccepted(d.cfg, d.clock, GateSteps(steps), c, h);
    HandshakeKeepsConfig(Run(Init(d), steps).gate, c, h);
  }

  lemma HandshakeKeepsConfig(g: R.State, c: nat, h: R.Hello)
    ensures R.Run(g, R.Handshake(c, h)).cfg == g.cfg
  {
    R.RunThree(g, R.Arrive(c, h), R.Stamp(c), R.Guard(c));
  }

  /** The first connection of all, whatever the delays allowed. */
  lemma FirstServed(d: Setup, h: R.Hello, serverSalt: bytes, peer: Client)
    requires Valid(d.pool) && d.pool.held == {} && R.InEra(d.clock) && R.Admissible(d.cfg, h) && h.ts == d.clock
    ensures Scan(d.pool, 0).Granted?
    ensures ServedAt(Init(d), Run(Init(d), Arrival(0, h) + Settling(0, 0, serverSalt, peer)), 0, Scan(d.pool, 0).addr,
                     Exchange(h, serverSalt, peer))
  {
    var s := Init(d);
    GrantsAgain(d.pool);
    R.HandshakeAccepted(s.gate, 0, h);
    Arrived(s, 0, h);
    var s1 := Run(s, Arrival(0, h));
    Settled(s1, 0, 0, serverSalt, peer);
    ServedFromArrival(s, s1, Run(s1, Settling(0, 0, serverSalt, peer)),
                      0, Scan(d.pool, 0).addr, Exchange(h, serverSalt, peer));
    RunConcat(s, Arrival(0, h), Settling(0, 0, serverSalt, peer));
  }
}
