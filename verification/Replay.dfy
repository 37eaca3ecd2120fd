/**
 * The handshake replay guard of internal/server/replay.go and the skew check of
 * internal/server/server.go that precedes it, as threads interleave.
 */
module Replay {
  import opened Octets
  import opened Decimal
  import opened Base64
  import opened Auth
  import opened KeySchedule

  const AUTH_WINDOW := 90
  const TTL := 2 * AUTH_WINDOW + 5

  /** salt + "|" + decimal(ts) */
  function Key(salt: string, ts: int): string { salt + ['|'] + FormatInt(ts) }

  type Seen = map<string, int>

  function Live(seen: Seen, now: int): Seen {
    map k | k in seen && seen[k] > now :: seen[k]
  }

  /** What observe does under its lock, given the clock value it read before. */
  function ObserveStep(seen: Seen, key: string, now: int): (Seen, bool) {
    var live := Live(seen, now);
    if key in live then (live, false) else (live[key := now + TTL], true)
  }

  class ReplayGuard {
    var seen: Seen

    constructor ()
      ensures seen == map[]
    {
      seen := map[];
    }

    /** Sweeps the expired entries one by one, then looks the key up and records it. */
    method Observe(salt: string, ts: int, now: int) returns (ok: bool)
      modifies this
      ensures (seen, ok) == ObserveStep(old(seen), Key(salt, ts), now)
    {
      var key := Key(salt, ts);
      var todo := seen.Keys;
      while todo != {}
        invariant todo <= seen.Keys <= old(seen).Keys
        invariant forall k :: k in seen ==> seen[k] == old(seen)[k] && (k in todo || seen[k] > now)
        invariant forall k :: k in old(seen) && old(seen)[k] > now ==> k in seen
        decreases |todo|
      {
        var k :| k in todo;
        todo := todo - {k};
        if seen[k] <= now { seen := seen - {k}; }
      }
      assert seen == Live(old(seen), now);
      if key in seen { return false; }
      seen := seen[key := now + TTL];
      return true;
    }
  }

  // ----- keys

  /** Distinct (salt text, timestamp) pairs have distinct keys, whatever the salt text holds. */
  lemma KeyInjective(salt: string, ts: int, salt': string, ts': int)
    requires Key(salt, ts) == Key(salt', ts')
    ensures salt == salt' && ts == ts'
  {
    var s, t := FormatInt(ts), FormatInt(ts');
    var k := Key(salt, ts);
    assert k[|salt|] == '|' && k[|salt'|] == '|';
    if |salt| < |salt'| { FormatAlphabet(ts, |salt'| - |salt| - 1); }
    if |salt'| < |salt| { FormatAlphabet(ts', |salt| - |salt'| - 1); }
    assert salt == k[..|salt|] == salt' && s == k[|salt| + 1..] == t;
    FormatInjective(ts, ts');
  }

  // ----- what a hello must pass before the guard

  /** The fields of a hello that matter here; `ts` is an int64 as JSON decoding makes it. */
  datatype Hello = Hello(salt: string, ts: int64, auth: string)

  datatype Config = Config(
    hmac: Hmac,
    psk: bytes,
    limit: nat) // longest time, in seconds, from skew check to guarded sweep

  /** `skew := now - ts` in wrapping int64 arithmetic, within the window. */
  predicate SkewOk(now: int, ts: int) {
    -AUTH_WINDOW <= WrapInt64(now - ts) <= AUTH_WINDOW
  }

  /** The salt text decodes to 16 bytes and the token verifies for those bytes. */
  predicate Admissible(cfg: Config, h: Hello) {
    IsSalt(h.salt) && VerifyAuth(cfg.hmac, cfg.psk, DecodeStd(h.salt).value, h.ts, h.auth)
  }

  predicate IsSalt(t: string) { DecodeStd(t).Some? && |DecodeStd(t).value| == SALT_LEN }

  /** What a salt text decodes to; nothing if it does not. */
  function SaltOf(t: string): bytes { if DecodeStd(t).Some? then DecodeStd(t).value else [] }

  /** The hello a client makes. */
  function ClientHello(cfg: Config, salt: bytes, ts: int64): Hello {
    Hello(EncodeStd(salt), ts, ComputeAuth(cfg.hmac, cfg.psk, salt, ts))
  }

  /** A hello with this salt text and the token of the salt it decodes to. */
  function TokenFor(cfg: Config, t: string, ts: int64): Hello {
    Hello(t, ts, ComputeAuth(cfg.hmac, cfg.psk, SaltOf(t), ts))
  }

  // ----- handshake threads

  datatype Phase =
    | Checked(hello: Hello, at: int)           // passed the checks when the clock read `at`
    | Stamped(hello: Hello, at: int, now: int) // entered observe and read the clock as `now`

  datatype Entry = Entry(caller: nat, hello: Hello, at: int, now: int)

  datatype State = State(
    cfg: Config,
    clock: int,
    seen: Seen,
    threads: map<nat, Phase>,
    log: seq<Entry>)          // every accepted handshake, never forgotten

  datatype Step =
    | Tick(seconds: nat)
    | Arrive(caller: nat, hello: Hello)
    | Stamp(caller: nat)
    | Drop(caller: nat)  // the connection died
    | Guard(caller: nat)

  /** Unix time after 1970, early enough for every expiry to fit an int64. */
  predicate InEra(clock: int) { 0 <= clock < TWO_63 - TTL }

  function Init(cfg: Config, clock: int): State { State(cfg, clock, map[], map[], []) }

  predicate Enabled(s: State, step: Step) {
    match step
    case Tick(d) => InEra(s.clock + d)
    case Arrive(c, h) => c !in s.threads && Admissible(s.cfg, h) && SkewOk(s.clock, h.ts)
    case Stamp(c) => c in s.threads && s.threads[c].Checked?
    case Drop(c) => c in s.threads
    case Guard(c) => c in s.threads && s.threads[c].Stamped? && s.clock - s.threads[c].at <= s.cfg.limit
  }

  function Apply(s: State, step: Step): State {
    if !Enabled(s, step) then s else
    match step
    case Tick(d) => s.(clock := s.clock + d)
    case Arrive(c, h) => s.(threads := s.threads[c := Checked(h, s.clock)])
    case Stamp(c) => s.(threads := s.threads[c := Stamped(s.threads[c].hello, s.threads[c].at, s.clock)])
    case Drop(c) => s.(threads := s.threads - {c})
    case Guard(c) =>
      var t := s.threads[c];
      var (seen, ok) := ObserveStep(s.seen, Key(t.hello.salt, t.hello.ts), t.now);
      s.(threads := s.threads - {c}, seen := seen,
         log := if ok then s.log + [Entry(c, t.hello, t.at, t.now)] else s.log)
  }

  function Run(s: State, steps: seq<Step>): State {
    if steps == [] then s else Apply(Run(s, steps[..|steps| - 1]), steps[|steps| - 1])
  }

  // ----- invariant

  function KeyOf(h: Hello): string { Key(h.salt, h.ts) }

  predicate Timed(s: State, h: Hello, at: int, now: int) {
    0 <= at <= now <= s.clock && SkewOk(at, h.ts)
  }

  ghost predicate ThreadsTimed(s: State) {
    forall c :: c in s.threads ==>
      var t := s.threads[c]; Timed(s, t.hello, t.at, if t.Stamped? then t.now else t.at)
  }

  /** Every accepted handshake is still in the cache, or too old to matter. */
  ghost predicate Remembered(s: State, e: Entry) {
    (KeyOf(e.hello) in s.seen && s.seen[KeyOf(e.hello)] == e.now + TTL) || e.now + TTL <= s.clock
  }

  ghost predicate LogRemembered(s: State) {
    forall i :: 0 <= i < |s.log| ==> Timed(s, s.log[i].hello, s.log[i].at, s.log[i].now) && Remembered(s, s.log[i])
  }

  predicate SameText(h: Hello, h': Hello) { h.salt == h'.salt && h.ts == h'.ts }

  ghost predicate InLog(s: State, h: Hello) { exists i :: 0 <= i < |s.log| && SameText(s.log[i].hello, h) }

  ghost predicate CacheExplained(s: State) {
    forall k :: k in s.seen ==> exists i :: 0 <= i < |s.log| && KeyOf(s.log[i].hello) == k
  }

  ghost predicate NoRepeat(s: State) {
    forall i, j :: 0 <= i < j < |s.log| ==> !SameText(s.log[i].hello, s.log[j].hello)
  }

  ghost predicate Inv(s: State) {
    InEra(s.clock) && ThreadsTimed(s) && LogRemembered(s) && CacheExplained(s) && NoRepeat(s)
  }

  /** Two clocks that both pass the skew check for one timestamp are at most 180 s apart, wrapped or not. */
  lemma WindowWidth(a: int, b: int, ts: int)
    requires 0 <= a < TWO_63 && 0 <= b < TWO_63 && -TWO_63 <= ts < TWO_63 && SkewOk(a, ts) && SkewOk(b, ts)
    ensures a - b <= 2 * AUTH_WINDOW
  {
  }

  /** The guard's verdict is the verdict of a log that never forgets. */
  lemma GuardAgrees(s: State, c: nat)
    requires Inv(s) && s.cfg.limit <= 4 && Enabled(s, Guard(c))
    ensures var t := s.threads[c]; ObserveStep(s.seen, KeyOf(t.hello), t.now).1 <==> !InLog(s, t.hello)
  {
    var t := s.threads[c];
    var k := KeyOf(t.hello);
    if InLog(s, t.hello) {
      var i :| 0 <= i < |s.log| && SameText(s.log[i].hello, t.hello);
      var e := s.log[i];
      assert Timed(s, e.hello, e.at, e.now) && Remembered(s, e);
      WindowWidth(t.at, e.at, t.hello.ts);
    } else if k in Live(s.seen, t.now) {
      var i :| 0 <= i < |s.log| && KeyOf(s.log[i].hello) == k;
      KeyInjective(s.log[i].hello.salt, s.log[i].hello.ts, t.hello.salt, t.hello.ts);
    }
  }

  lemma GuardKeepsLog(s: State, c: nat)
    requires Inv(s) && s.cfg.limit <= 4 && Enabled(s, Guard(c))
    ensures LogRemembered(Apply(s, Guard(c)))
  {
    var t := s.threads[c];
    var k := KeyOf(t.hello);
    var s' := Apply(s, Guard(c));
    forall i | 0 <= i < |s.log|
      ensures Timed(s', s.log[i].hello, s.log[i].at, s.log[i].now) && Remembered(s', s.log[i])
    {
      var e := s.log[i];
      assert Timed(s, e.hello, e.at, e.now) && Remembered(s, e);
      if k == KeyOf(e.hello) {
        KeyInjective(e.hello.salt, e.hello.ts, t.hello.salt, t.hello.ts);
        assert InLog(s, t.hello);
        GuardAgrees(s, c);
      }
    }
  }

  lemma GuardKeepsCache(s: State, c: nat)
    requires Inv(s) && Enabled(s, Guard(c))
    ensures CacheExplained(Apply(s, Guard(c)))
  {
    var s' := Apply(s, Guard(c));
    forall k | k in s'.seen ensures exists i :: 0 <= i < |s'.log| && KeyOf(s'.log[i].hello) == k {
      if k in s.seen {
        var i :| 0 <= i < |s.log| && KeyOf(s.log[i].hello) == k;
        assert s'.log[i] == s.log[i];
      } else {
        assert KeyOf(s'.log[|s'.log| - 1].hello) == k;
      }
    }
  }

  lemma StepKeepsInv(s: State, step: Step)
    requires Inv(s) && s.cfg.limit <= 4
    ensures Inv(Apply(s, step)) && Apply(s, step).cfg == s.cfg
  {
    if Enabled(s, step) && step.Guard? {
      GuardKeepsLog(s, step.caller);
      GuardKeepsCache(s, step.caller);
      GuardAgrees(s, step.caller);
    }
  }

  lemma {:induction false} RunInv(cfg: Config, clock: int, steps: seq<Step>)
    requires cfg.limit <= 4 && InEra(clock)
    ensures Inv(Run(Init(cfg, clock), steps)) && Run(Init(cfg, clock), steps).cfg == cfg
  {
    if steps != [] {
      RunInv(cfg, clock, steps[..|steps| - 1]);
      StepKeepsInv(Run(Init(cfg, clock), steps[..|steps| - 1]), steps[|steps| - 1]);
    }
  }

  // ----- main results on salt texts

  /** On every run with at most 4 s from skew check to sweep, no two accepted handshakes share (salt text, ts). */
  lemma AcceptedOnce(cfg: Config, clock: int, steps: seq<Step>)
    requires cfg.limit <= 4 && InEra(clock)
    ensures NoRepeat(Run(Init(cfg, clock), steps))
  {
    RunInv(cfg, clock, steps);
  }

  /** After any run, the next guarded decision is the one an unbounded log would make. */
  lemma RefinesUnboundedLog(cfg: Config, clock: int, steps: seq<Step>, c: nat)
    requires cfg.limit <= 4 && InEra(clock) && Enabled(Run(Init(cfg, clock), steps), Guard(c))
    ensures var s := Run(Init(cfg, clock), steps);
            |Apply(s, Guard(c)).log| == |s.log| + 1 <==> !InLog(s, s.threads[c].hello)
  {
    RunInv(cfg, clock, steps);
    GuardAgrees(Run(Init(cfg, clock), steps), c);
  }

  // ----- runs in which a hello is accepted

  lemma RunSnoc(s: State, steps: seq<Step>, last: Step)
    ensures Run(s, steps + [last]) == Apply(Run(s, steps), last)
  {
    assert (steps + [last])[..|steps|] == steps;
  }

  lemma {:induction false} RunConcat(s: State, xs: seq<Step>, ys: seq<Step>)
    ensures Run(s, xs + ys) == Run(Run(s, xs), ys)
  {
    if ys == [] {
      assert xs + ys == xs;
    } else {
      RunConcat(s, xs, ys[..|ys| - 1]);
      assert (xs + ys)[..|xs + ys| - 1] == xs + ys[..|ys| - 1];
    }
  }

  lemma RunTwo(s: State, a: Step, b: Step)
    ensures Run(s, [a, b]) == Apply(Apply(s, a), b)
  {
    RunSnoc(s, [], a);
    RunSnoc(s, [a], b);
    assert [] + [a] == [a] && [a] + [b] == [a, b];
  }

  lemma RunThree(s: State, a: Step, b: Step, c: Step)
    ensures Run(s, [a, b, c]) == Apply(Apply(Apply(s, a), b), c)
  {
    RunTwo(s, a, b);
    RunSnoc(s, [a, b], c);
    assert [a, b] + [c] == [a, b, c];
  }

  lemma Ticks(s: State, seconds: nat)
    requires InEra(s.clock + seconds)
    ensures Apply(s, Tick(seconds)) == s.(clock := s.clock + seconds)
  {
  }

  lemma Arrives(s: State, c: nat, h: Hello)
    requires c !in s.threads && Admissible(s.cfg, h) && SkewOk(s.clock, h.ts)
    ensures Apply(s, Arrive(c, h)) == s.(threads := s.threads[c := Checked(h, s.clock)])
  {
  }

  /** Check, sweep and record with no time passing. */
  function Handshake(c: nat, h: Hello): seq<Step> { [Arrive(c, h), Stamp(c), Guard(c)] }

  function Recorded(s: State, c: nat, h: Hello): State {
    s.(seen := Live(s.seen, s.clock)[KeyOf(h) := s.clock + TTL], log := s.log + [Entry(c, h, s.clock, s.clock)])
  }

  lemma HandshakeAccepted(s: State, c: nat, h: Hello)
    requires c !in s.threads && Admissible(s.cfg, h) && SkewOk(s.clock, h.ts) && KeyOf(h) !in Live(s.seen, s.clock)
    ensures Run(s, Handshake(c, h)) == Recorded(s, c, h)
  {
    RunThree(s, Arrive(c, h), Stamp(c), Guard(c));
    Arrives(s, c, h);
    var stamped := s.(threads := s.threads[c := Stamped(h, s.clock, s.clock)]);
    assert Apply(Apply(s, Arrive(c, h)), Stamp(c)) == stamped;
    GuardRecords(stamped, c);
    assert stamped.threads - {c} == s.threads;
  }

  /** The guard accepts a key that is not in the cache, or no longer. */
  lemma GuardRecords(s: State, c: nat)
    requires Enabled(s, Guard(c)) && s.threads[c].now == s.clock && KeyOf(s.threads[c].hello) !in Live(s.seen, s.clock)
    ensures var t := s.threads[c];
            Apply(s, Guard(c)) == s.(threads := s.threads - {c},
                                     seen := Live(s.seen, s.clock)[KeyOf(t.hello) := s.clock + TTL],
                                     log := s.log + [Entry(c, t.hello, t.at, t.now)])
  {
  }

  /** Two hellos with different keys are both accepted at one instant. */
  lemma BothAccepted(cfg: Config, clock: int, h: Hello, h': Hello)
    requires Admissible(cfg, h) && Admissible(cfg, h') && SkewOk(clock, h.ts) && SkewOk(clock, h'.ts)
    requires !SameText(h, h')
    ensures Run(Init(cfg, clock), Handshake(0, h) + Handshake(1, h')).log
            == [Entry(0, h, clock, clock), Entry(1, h', clock, clock)]
  {
    var s := Init(cfg, clock);
    HandshakeAccepted(s, 0, h);
    var s' := Recorded(s, 0, h);
    if KeyOf(h') == KeyOf(h) { KeyInjective(h.salt, h.ts, h'.salt, h'.ts); }
    HandshakeAccepted(s', 1, h');
    RunConcat(s, Handshake(0, h), Handshake(1, h'));
  }

  lemma ClientHelloAdmissible(cfg: Config, salt: bytes, ts: int64)
    requires |salt| == SALT_LEN
    ensures Admissible(cfg, ClientHello(cfg, salt, ts))
  {
    DecodeStdSpelling(salt, 0);
  }

  // ----- the margin of five seconds

  /** A hello accepted at the start of its window and replayed at the end, five seconds from the check to the sweep. */
  function SlowReplay(h: Hello): seq<Step> {
    Handshake(0, h) + ([Tick(180), Arrive(1, h), Tick(5)] + [Stamp(1), Guard(1)])
  }

  lemma WaitsFiveSeconds(s: State, h: Hello)
    requires 1 !in s.threads && Admissible(s.cfg, h) && SkewOk(s.clock + 180, h.ts)
    requires InEra(s.clock) && InEra(s.clock + 185)
    ensures Run(s, [Tick(180), Arrive(1, h), Tick(5)])
            == s.(clock := s.clock + 185, threads := s.threads[1 := Checked(h, s.clock + 180)])
  {
    var later := s.(clock := s.clock + 180);
    var checked := later.(threads := s.threads[1 := Checked(h, s.clock + 180)]);
    assert Apply(s, Tick(180)) == later by { Ticks(s, 180); }
    assert Apply(later, Arrive(1, h)) == checked by { Arrives(later, 1, h); }
    assert Apply(checked, Tick(5)) == checked.(clock := s.clock + 185) by { Ticks(checked, 5); }
    RunThree(s, Tick(180), Arrive(1, h), Tick(5));
  }

  /** The second half: by the sweep the first acceptance has expired. */
  lemma ReplayedSlowly(s: State, h: Hello)
    requires 1 !in s.threads && Admissible(s.cfg, h) && SkewOk(s.clock + 180, h.ts) && s.cfg.limit >= 5
    requires InEra(s.clock) && InEra(s.clock + 185) && s.seen == map[KeyOf(h) := s.clock + TTL]
    ensures Run(s, [Tick(180), Arrive(1, h), Tick(5)] + [Stamp(1), Guard(1)]).log
            == s.log + [Entry(1, h, s.clock + 180, s.clock + 185)]
  {
    var late := s.(clock := s.clock + 185, threads := s.threads[1 := Checked(h, s.clock + 180)]);
    WaitsFiveSeconds(s, h);
    RunTwo(late, Stamp(1), Guard(1));
    GuardRecords(Apply(late, Stamp(1)), 1);
    RunConcat(s, [Tick(180), Arrive(1, h), Tick(5)], [Stamp(1), Guard(1)]);
  }

  lemma WindowEdges(clock: int)
    ensures SkewOk(clock, clock + AUTH_WINDOW) && SkewOk(clock + 180, clock + AUTH_WINDOW)
  {
  }

  /** With five seconds or more, every admissible hello can be accepted twice, at any time. */
  lemma SlowReplayAccepted(cfg: Config, clock: int, h: Hello)
    requires cfg.limit >= 5 && InEra(clock) && InEra(clock + 185) && Admissible(cfg, h) && h.ts == clock + AUTH_WINDOW
    ensures !NoRepeat(Run(Init(cfg, clock), SlowReplay(h)))
  {
    var s := Init(cfg, clock);
    WindowEdges(clock);
    HandshakeAccepted(s, 0, h);
    ReplayedSlowly(Recorded(s, 0, h), h);
    RunConcat(s, Handshake(0, h), [Tick(180), Arrive(1, h), Tick(5)] + [Stamp(1), Guard(1)]);
    var log := Run(s, SlowReplay(h)).log;
    assert SameText(log[0].hello, log[1].hello);
  }

  /** The safety margin is exactly five seconds: the guard is safe on all runs exactly below it. */
  lemma MarginExact(cfg: Config)
    ensures (forall clock: int, steps: seq<Step> :: InEra(clock) ==> NoRepeat(Run(Init(cfg, clock), steps)))
            <==> cfg.limit <= 4
  {
    if cfg.limit <= 4 {
      forall clock: int, steps: seq<Step> | InEra(clock) ensures NoRepeat(Run(Init(cfg, clock), steps)) {
        AcceptedOnce(cfg, clock, steps);
      }
    } else {
      var salt := seq(SALT_LEN, _ => 0);
      var h := ClientHello(cfg, salt, 1090);
      ClientHelloAdmissible(cfg, salt, 1090);
      SlowReplayAccepted(cfg, 1000, h);
      assert InEra(1000);
    }
  }

  // ----- main results on salt bytes

  /** Both decode to one salt, and their timestamps agree. */
  predicate SameSalt(h: Hello, h': Hello) { DecodeStd(h.salt) == DecodeStd(h'.salt) && h.ts == h'.ts }

  ghost predicate NoSaltRepeat(s: State) {
    forall i, j :: 0 <= i < j < |s.log| ==> !SameSalt(s.log[i].hello, s.log[j].hello)
  }

  /** Every hello that arrives has one of the salt texts the server lets through. */
  ghost predicate Screened(steps: seq<Step>, allowed: iset<string>) {
    forall i :: 0 <= i < |steps| && steps[i].Arrive? ==> steps[i].hello.salt in allowed
  }

  /** Every hello past the checks, and every accepted one, is one of these. */
  ghost predicate Vetted(s: State, good: iset<Hello>) {
    && (forall c :: c in s.threads ==> s.threads[c].hello in good)
    && (forall i :: 0 <= i < |s.log| ==> s.log[i].hello in good)
  }

  lemma StepVetted(s: State, step: Step, good: iset<Hello>)
    requires Vetted(s, good) && (Enabled(s, step) && step.Arrive? ==> step.hello in good)
    ensures Vetted(Apply(s, step), good) && Apply(s, step).cfg == s.cfg
  {
  }

  ghost function Passing(cfg: Config, allowed: iset<string>): iset<Hello> {
    iset h: Hello | h.salt in allowed && Admissible(cfg, h)
  }

  lemma {:induction false} RunVetted(cfg: Config, clock: int, steps: seq<Step>, allowed: iset<string>)
    requires Screened(steps, allowed)
    ensures Vetted(Run(Init(cfg, clock), steps), Passing(cfg, allowed)) && Run(Init(cfg, clock), steps).cfg == cfg
  {
    if steps != [] {
      RunVetted(cfg, clock, steps[..|steps| - 1], allowed);
      StepVetted(Run(Init(cfg, clock), steps[..|steps| - 1]), steps[|steps| - 1], Passing(cfg, allowed));
    }
  }

  /** No two allowed texts decode to one 16-byte salt. */
  ghost predicate OneTextPerSalt(allowed: iset<string>) {
    forall t, t' :: t in allowed && t' in allowed && IsSalt(t) && DecodeStd(t) == DecodeStd(t') ==> t == t'
  }

  lemma SaltAcceptedOnce(cfg: Config, clock: int, steps: seq<Step>, allowed: iset<string>)
    requires cfg.limit <= 4 && InEra(clock) && Screened(steps, allowed) && OneTextPerSalt(allowed)
    ensures NoSaltRepeat(Run(Init(cfg, clock), steps))
  {
    AcceptedOnce(cfg, clock, steps);
    RunVetted(cfg, clock, steps, allowed);
  }

  /** Two texts of one salt: the token made for one verifies for the other, and both are accepted at once. */
  lemma OneSaltTwice(cfg: Config, clock: int, h: Hello, t: string)
    requires Admissible(cfg, h) && SkewOk(clock, h.ts) && DecodeStd(t) == DecodeStd(h.salt) && t != h.salt
    ensures Admissible(cfg, h.(salt := t))
    ensures !NoSaltRepeat(Run(Init(cfg, clock), Handshake(0, h) + Handshake(1, h.(salt := t))))
  {
    BothAccepted(cfg, clock, h, h.(salt := t));
    var log := Run(Init(cfg, clock), Handshake(0, h) + Handshake(1, h.(salt := t))).log;
    assert SameSalt(log[0].hello, log[1].hello);
  }

  ghost predicate SafeOn(cfg: Config, allowed: iset<string>) {
    forall clock: int, steps: seq<Step> ::
      InEra(clock) && Screened(steps, allowed) ==> NoSaltRepeat(Run(Init(cfg, clock), steps))
  }

  /**
   * Which salt texts a server may let through so that no (salt bytes, ts) is ever
   * accepted twice: exactly those sets in which no two texts decode to one salt.
   */
  lemma SaltOnceExact(cfg: Config, allowed: iset<string>)
    requires cfg.limit <= 4
    ensures SafeOn(cfg, allowed) <==> OneTextPerSalt(allowed)
  {
    if OneTextPerSalt(allowed) {
      forall clock: int, steps: seq<Step> | InEra(clock) && Screened(steps, allowed)
        ensures NoSaltRepeat(Run(Init(cfg, clock), steps))
      {
        SaltAcceptedOnce(cfg, clock, steps, allowed);
      }
    }
    if SafeOn(cfg, allowed) {
      forall t, t' | t in allowed && t' in allowed && IsSalt(t) && DecodeStd(t) == DecodeStd(t') ensures t == t' {
        if t != t' { TwoTextsUnsafe(cfg, allowed, t, t'); }
      }
    }
  }

  lemma TwoTextsUnsafe(cfg: Config, allowed: iset<string>, t: string, t': string)
    requires t in allowed && t' in allowed && IsSalt(t) && DecodeStd(t) == DecodeStd(t') && t != t'
    ensures !SafeOn(cfg, allowed)
  {
    var h := TokenFor(cfg, t, 1000);
    OneSaltTwice(cfg, 1000, h, t');
    var steps := Handshake(0, h) + Handshake(1, h.(salt := t'));
    assert InEra(1000) && Screened(steps, allowed);
  }

  /** The check a server can make first, `salt == EncodeStd(DecodeStd(salt))`, makes every run safe. */
  lemma CanonicalSaltOnce(cfg: Config)
    requires cfg.limit <= 4
    ensures SafeOn(cfg, iset s: string | Canonical(s))
  {
    SaltOnceExact(cfg, iset s: string | Canonical(s));
  }

  /** And no weaker one does: a text it refuses, let through beside the encoder's text of its salt, breaks some run. */
  lemma CanonicalNeeded(cfg: Config, t: string, canon: string)
    requires cfg.limit <= 4 && IsSalt(t) && canon == EncodeStd(DecodeStd(t).value)
    ensures SafeOn(cfg, iset{t, canon}) <==> t == canon
  {
    DecodeStdSpelling(DecodeStd(t).value, 0);
    SaltOnceExact(cfg, iset{t, canon});
    assert t in iset{t, canon} && canon in iset{t, canon};
  }

  /** Every 16-byte salt has texts it refuses: the fifteen other values of the four spare bits in its 22nd symbol. */
  lemma EverySaltRespelled(salt: bytes, k: nat) returns (t: string)
    requires |salt| == SALT_LEN && 0 < k < 16
    ensures DecodeStd(t) == Some(salt) && t != EncodeStd(salt)
    ensures Spare(|salt|) == 16 && t == Spelling(salt, k)
  {
    t := Respelled(salt, k);
  }

  // ----- who is let through

  /**
   * The token of a hello, outright: the salt text decodes to 16 bytes, and the token is the base64
   * of HMAC under the server's key of the label, those bytes and the decimal timestamp.
   */
  predicate Authentic(cfg: Config, h: Hello) {
    && DecodeStd(h.salt).Some? && |DecodeStd(h.salt).value| == 16
    && h.auth == EncodeStd(cfg.hmac(cfg.psk, Ascii("arnos-auth-v1") + DecodeStd(h.salt).value + Ascii(FormatInt(h.ts))))
  }

  lemma AdmissibleExactly(cfg: Config, h: Hello)
    ensures Admissible(cfg, h) <==> Authentic(cfg, h)
  {
  }

  /** In the era the int64 subtraction never wraps. */
  lemma SkewExactly(clock: int, ts: int)
    requires InEra(clock) && -TWO_63 <= ts < TWO_63
    ensures SkewOk(clock, ts) <==> -90 <= clock - ts <= 90
  {
  }

  ghost predicate AllTimed(s: State) {
    && InEra(s.clock) && ThreadsTimed(s)
    && forall i :: 0 <= i < |s.log| ==> Timed(s, s.log[i].hello, s.log[i].at, s.log[i].now)
  }

  lemma StepTimed(s: State, step: Step)
    requires AllTimed(s)
    ensures AllTimed(Apply(s, step))
  {
  }

  lemma {:induction false} RunTimed(cfg: Config, clock: int, steps: seq<Step>)
    requires InEra(clock)
    ensures AllTimed(Run(Init(cfg, clock), steps))
  {
    if steps != [] {
      RunTimed(cfg, clock, steps[..|steps| - 1]);
      StepTimed(Run(Init(cfg, clock), steps[..|steps| - 1]), steps[|steps| - 1]);
    }
  }

  /** The salt texts that come in on a run. */
  ghost function Arriving(steps: seq<Step>): iset<string> {
    iset i | 0 <= i < |steps| && steps[i].Arrive? :: steps[i].hello.salt
  }

  /** On every run, whatever the delays, every accepted hello carried its token, at most 90 s off when checked. */
  lemma AcceptedAuthentic(cfg: Config, clock: int, steps: seq<Step>, i: nat)
    requires InEra(clock) && i < |Run(Init(cfg, clock), steps).log|
    ensures var e := Run(Init(cfg, clock), steps).log[i];
            Authentic(cfg, e.hello) && -90 <= e.at - e.hello.ts <= 90
  {
    var s := Run(Init(cfg, clock), steps);
    var e := s.log[i];
    RunTimed(cfg, clock, steps);
    RunVetted(cfg, clock, steps, Arriving(steps));
    assert Timed(s, e.hello, e.at, e.now);
    SkewExactly(e.at, e.hello.ts);
  }

  /** On every run, a hello gets as far as the guard exactly when it carries its token and is at most 90 s off. */
  lemma LetThroughExactly(cfg: Config, clock: int, steps: seq<Step>, c: nat, h: Hello)
    requires InEra(clock) && c !in Run(Init(cfg, clock), steps).threads
    ensures var s := Run(Init(cfg, clock), steps);
            && (c in Apply(s, Arrive(c, h)).threads <==> Authentic(cfg, h) && -90 <= s.clock - h.ts <= 90)
            && (c in Apply(s, Arrive(c, h)).threads ==> Apply(s, Arrive(c, h)).threads[c] == Checked(h, s.clock))
  {
    RunTimed(cfg, clock, steps);
    RunVetted(cfg, clock, steps, Arriving(steps));
    SkewExactly(Run(Init(cfg, clock), steps).clock, h.ts);
  }

  /** On every run within the margin, an authentic hello of at most 90 s skew is accepted exactly when it is new. */
  lemma FreshHelloAccepted(cfg: Config, clock: int, steps: seq<Step>, c: nat, h: Hello)
    requires InEra(clock) && cfg.limit <= 4 && Admissible(cfg, h)
    requires var s := Run(Init(cfg, clock), steps); c !in s.threads && -90 <= s.clock - h.ts <= 90
    ensures var s := Run(Init(cfg, clock), steps);
            var s' := Run(s, Handshake(c, h));
            s'.log == if InLog(s, h) then s.log else s.log + [Entry(c, h, s.clock, s.clock)]
  {
    var s := Run(Init(cfg, clock), steps);
    RunInv(cfg, clock, steps);
    SkewExactly(s.clock, h.ts);
    ArriveAndStamp(s, c, h);
    var stamped := s.(threads := s.threads[c := Stamped(h, s.clock, s.clock)]);
    StampedInv(s, c, h);
    GuardAgrees(stamped, c);
    GuardLogs(stamped, c);
  }

  lemma ArriveAndStamp(s: State, c: nat, h: Hello)
    requires c !in s.threads && Admissible(s.cfg, h) && SkewOk(s.clock, h.ts)
    ensures Run(s, Handshake(c, h)) == Apply(s.(threads := s.threads[c := Stamped(h, s.clock, s.clock)]), Guard(c))
  {
    RunThree(s, Arrive(c, h), Stamp(c), Guard(c));
    Arrives(s, c, h);
    assert s.threads[c := Checked(h, s.clock)][c := Stamped(h, s.clock, s.clock)]
           == s.threads[c := Stamped(h, s.clock, s.clock)];
  }

  lemma StampedInv(s: State, c: nat, h: Hello)
    requires Inv(s) && SkewOk(s.clock, h.ts)
    ensures Inv(s.(threads := s.threads[c := Stamped(h, s.clock, s.clock)]))
  {
    var s' := s.(threads := s.threads[c := Stamped(h, s.clock, s.clock)]);
    assert forall i :: 0 <= i < |s.log|
             ==> Timed(s, s.log[i].hello, s.log[i].at, s.log[i].now) && Remembered(s, s.log[i]);
  }

  lemma GuardLogs(s: State, c: nat)
    requires Enabled(s, Guard(c))
    ensures var t := s.threads[c];
            Apply(s, Guard(c)).log == if ObserveStep(s.seen, KeyOf(t.hello), t.now).1
                                      then s.log + [Entry(c, t.hello, t.at, t.now)] else s.log
  {
  }

  /** A connection that dies before the guard leaves no trace: its hello can still be presented. */
  lemma DiedBeforeGuard(s: State, c: nat, h: Hello)
    requires c !in s.threads
    ensures Run(s, [Arrive(c, h), Drop(c)]) == s && Run(s, [Arrive(c, h), Stamp(c), Drop(c)]) == s
  {
    RunTwo(s, Arrive(c, h), Drop(c));
    RunThree(s, Arrive(c, h), Stamp(c), Drop(c));
    assert s.threads[c := Checked(h, s.clock)] - {c} == s.threads;
    assert s.threads[c := Checked(h, s.clock)][c := Stamped(h, s.clock, s.clock)] - {c} == s.threads;
  }
}
