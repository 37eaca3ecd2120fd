/**
 * Session lifecycle of internal/server/server.go: every connection thread goes
 * through handshake, Allocate, welcome, register, read loop, unmap, Release and
 * close, each a separate atomic step, interleaved in any order with the others.
 */
module Ownership {
  import opened AddressPool

  type ConnId = nat

  datatype Phase =
    | Handshaking // before Allocate
    | Allocated   // holds an address, welcome not sent yet
    | Rejecting   // welcome failed, address not released yet
    | Welcomed    // handshake returned, not registered yet
    | Serving     // registered, in readLoop
    | Leaving     // readLoop returned, still registered
    | Unmapped    // removed from clients, address not released yet
    | Released    // address released, connection not closed yet
    | Ended

  /** A connection thread: where it is, its address once granted, and how often it was granted and released one. */
  datatype Slot = Slot(phase: Phase, ip: u32, grants: nat, releases: nat)

  datatype Own = Own(
    pool: Pool,
    clients: map<u32, ConnId>,
    slots: map<ConnId, Slot>,
    closed: set<ConnId>,
    displaced: set<ConnId>) // clients closed by another one's register

  // ----- the critical sections of register and deregister

  /** register: a client already at this address is closed, then replaced. */
  function RegisterStep(clients: map<u32, ConnId>, closed: set<ConnId>, ip: u32, c: ConnId)
    : (map<u32, ConnId>, set<ConnId>)
  {
    (clients[ip := c], if ip in clients then closed + {clients[ip]} else closed)
  }

  /** deregister under the lock: remove the entry only if it is still this client. */
  function UnmapStep(clients: map<u32, ConnId>, ip: u32, c: ConnId): map<u32, ConnId> {
    if ip in clients && clients[ip] == c then clients - {ip} else clients
  }

  class Server {
    const pool: IpPool
    var clients: map<u32, ConnId>
    var closed: set<ConnId>

    constructor (pool: IpPool)
      ensures this.pool == pool && clients == map[] && closed == {}
    {
      this.pool, clients, closed := pool, map[], {};
    }

    method Register(c: ConnId, ip: u32)
      modifies this
      ensures (clients, closed) == RegisterStep(old(clients), old(closed), ip, c)
      ensures clients == old(clients)[ip := c] && (ip in old(clients) ==> old(clients)[ip] in closed)
    {
      if ip in clients { closed := closed + {clients[ip]}; }
      clients := clients[ip := c];
    }

    /** Unmap, then release the address, then close. */
    method Deregister(c: ConnId, ip: u32)
      modifies this, pool
      ensures clients == UnmapStep(old(clients), ip, c)
      ensures forall k :: k in clients <==> k in old(clients) && !(k == ip && old(clients)[k] == c)
      ensures pool.View() == ReleaseStep(old(pool.View()), ip)
      ensures closed == old(closed) + {c}
    {
      if ip in clients && clients[ip] == c { clients := clients - {ip}; }
      pool.Release(ip);
      closed := closed + {c};
    }
  }

  // ----- interleaved steps

  datatype Step =
    | Connect(c: ConnId)
    | Refuse(c: ConnId)             // the handshake fails before Allocate
    | Allocate(c: ConnId)
    | Welcome(c: ConnId, sent: bool)
    | ReleaseRejected(c: ConnId)
    | Register(c: ConnId)
    | Leave(c: ConnId)
    | Unmap(c: ConnId)
    | Release(c: ConnId)
    | Close(c: ConnId)

  function Init(pool: Pool): Own { Own(pool, map[], map[], {}, {}) }

  /** The phase a step starts from. */
  function From(step: Step): Phase {
    match step
    case Connect(_) => Handshaking
    case Refuse(_) => Handshaking
    case Allocate(_) => Handshaking
    case Welcome(_, _) => Allocated
    case ReleaseRejected(_) => Rejecting
    case Register(_) => Welcomed
    case Leave(_) => Serving
    case Unmap(_) => Leaving
    case Release(_) => Unmapped
    case Close(_) => Released
  }

  predicate Enabled(o: Own, step: Step) {
    if step.Connect? then step.c !in o.slots else step.c in o.slots && o.slots[step.c].phase == From(step)
  }

  function Move(o: Own, c: ConnId, phase: Phase): Own
    requires c in o.slots
  {
    o.(slots := o.slots[c := o.slots[c].(phase := phase)])
  }

  function Free(o: Own, c: ConnId, phase: Phase): Own
    requires c in o.slots
  {
    var slot := o.slots[c];
    o.(pool := ReleaseStep(o.pool, slot.ip),
       slots := o.slots[c := slot.(phase := phase, releases := slot.releases + 1)])
  }

  function Apply(o: Own, step: Step): Own {
    if !Enabled(o, step) then o else
    match step
    case Connect(c) => o.(slots := o.slots[c := Slot(Handshaking, 0, 0, 0)])
    case Refuse(c) => Move(o, c, Ended)
    case Allocate(c) =>
      (match AllocateStep(o.pool)
       case (pool, Granted(a)) => o.(pool := pool, slots := o.slots[c := Slot(Allocated, a, 1, 0)])
       case (_, _) => Move(o, c, Ended))
    case Welcome(c, sent) => Move(o, c, if sent then Welcomed else Rejecting)
    case ReleaseRejected(c) => Free(o, c, Ended)
    case Register(c) =>
      var ip := o.slots[c].ip;
      var (clients, closed) := RegisterStep(o.clients, o.closed, ip, c);
      Move(o, c, Serving).(clients := clients, closed := closed,
                           displaced := if ip in o.clients then o.displaced + {o.clients[ip]} else o.displaced)
    case Leave(c) => Move(o, c, Leaving)
    case Unmap(c) => Move(o, c, Unmapped).(clients := UnmapStep(o.clients, o.slots[c].ip, c))
    case Release(c) => Free(o, c, Released)
    case Close(c) => Move(o, c, Ended).(closed := o.closed + {c})
  }

  function Run(o: Own, steps: seq<Step>): Own {
    if steps == [] then o else Apply(Run(o, steps[..|steps| - 1]), steps[|steps| - 1])
  }

  // ----- invariant

  type Slots = map<ConnId, Slot>

  /** The thread has allocated and not yet released. */
  predicate Holds(phase: Phase) { !phase.Handshaking? && !phase.Released? && !phase.Ended? }

  predicate Mapped(phase: Phase) { phase.Serving? || phase.Leaving? }

  predicate Holder(slots: Slots, c: ConnId) { c in slots && Holds(slots[c].phase) }

  predicate HoldsAt(slots: Slots, c: ConnId, a: u32) { Holder(slots, c) && slots[c].ip == a }

  /** The assigned set is exactly the holders' addresses, and no two holders share one. */
  ghost predicate HeldByHolders(held: set<u32>, slots: Slots) {
    && (forall c :: Holder(slots, c) ==> slots[c].ip in held)
    && (forall a :: a in held ==> exists c :: HoldsAt(slots, c, a))
    && HoldersDistinct(slots)
  }

  ghost predicate HoldersDistinct(slots: Slots) {
    forall c, d :: Holder(slots, c) && Holder(slots, d) && c != d ==> slots[c].ip != slots[d].ip
  }

  predicate MappedAt(slots: Slots, c: ConnId, k: u32) { c in slots && Mapped(slots[c].phase) && slots[c].ip == k }

  /** clients[k] is c exactly when c is a registered session with address k. */
  ghost predicate MapExact(clients: map<u32, ConnId>, slots: Slots) {
    && (forall k :: k in clients ==> MappedAt(slots, clients[k], k))
    && (forall c :: c in slots && Mapped(slots[c].phase) ==> slots[c].ip in clients && clients[slots[c].ip] == c)
  }

  predicate SlotBalanced(s: Slot) {
    && s.grants == s.releases + (if Holds(s.phase) then 1 else 0)
    && s.grants <= 1 && (s.phase.Handshaking? ==> s.grants == 0)
  }

  ghost predicate Balanced(slots: Slots) { forall c :: c in slots ==> SlotBalanced(slots[c]) }

  ghost predicate Inv(o: Own) {
    && Valid(o.pool) && HeldByHolders(o.pool.held, o.slots) && MapExact(o.clients, o.slots) && Balanced(o.slots)
    && o.displaced == {}
  }

  // ----- each part under an update of one slot

  /** Dropping holders, or moving one without changing its address, keeps them distinct. */
  lemma FewerDistinct(slots: Slots, slots': Slots)
    requires HoldersDistinct(slots)
    requires forall d :: Holder(slots', d) ==> Holder(slots, d) && slots'[d].ip == slots[d].ip
    ensures HoldersDistinct(slots')
  {
  }

  lemma HeldSame(held: set<u32>, slots: Slots, c: ConnId, s: Slot)
    requires HeldByHolders(held, slots)
    requires Holds(s.phase) <==> Holder(slots, c)
    requires Holds(s.phase) ==> slots[c].ip == s.ip
    ensures HeldByHolders(held, slots[c := s])
  {
    var slots' := slots[c := s];
    FewerDistinct(slots, slots');
    forall a | a in held ensures exists d :: HoldsAt(slots', d, a) {
      var d :| HoldsAt(slots, d, a);
      assert HoldsAt(slots', d, a);
    }
  }

  lemma HeldMore(held: set<u32>, slots: Slots, c: ConnId, s: Slot)
    requires HeldByHolders(held, slots) && !Holder(slots, c) && Holds(s.phase) && s.ip !in held
    ensures HeldByHolders(held + {s.ip}, slots[c := s])
  {
    var slots' := slots[c := s];
    assert forall d :: d != c && Holder(slots', d) ==> Holder(slots, d) && slots[d].ip in held;
    forall a | a in held + {s.ip} ensures exists d :: HoldsAt(slots', d, a) {
      if a == s.ip {
        assert HoldsAt(slots', c, a);
      } else {
        var d :| HoldsAt(slots, d, a);
        assert HoldsAt(slots', d, a);
      }
    }
  }

  lemma HeldLess(held: set<u32>, slots: Slots, c: ConnId, s: Slot)
    requires HeldByHolders(held, slots) && Holder(slots, c) && !Holds(s.phase)
    ensures HeldByHolders(held - {slots[c].ip}, slots[c := s])
  {
    var slots' := slots[c := s];
    FewerDistinct(slots, slots');
    forall d | Holder(slots', d) ensures slots'[d].ip in held - {slots[c].ip} { assert Holder(slots, d) && d != c; }
    forall a | a in held - {slots[c].ip} ensures exists d :: HoldsAt(slots', d, a) {
      var d :| HoldsAt(slots, d, a);
      assert HoldsAt(slots', d, a);
    }
  }

  lemma MapSame(clients: map<u32, ConnId>, slots: Slots, c: ConnId, s: Slot)
    requires MapExact(clients, slots)
    requires Mapped(s.phase) <==> c in slots && Mapped(slots[c].phase)
    requires Mapped(s.phase) ==> slots[c].ip == s.ip
    ensures MapExact(clients, slots[c := s])
  {
    var slots' := slots[c := s];
    assert forall k :: k in clients ==> MappedAt(slots, clients[k], k);
  }

  lemma MapMore(clients: map<u32, ConnId>, slots: Slots, c: ConnId, s: Slot)
    requires MapExact(clients, slots) && c in slots && !Mapped(slots[c].phase) && Mapped(s.phase) && s.ip !in clients
    ensures MapExact(clients[s.ip := c], slots[c := s])
  {
    var slots' := slots[c := s];
    forall k | k in clients && k != s.ip ensures MappedAt(slots', clients[k], k) {
      assert MappedAt(slots, clients[k], k);
    }
  }

  lemma MapLess(clients: map<u32, ConnId>, slots: Slots, c: ConnId, s: Slot)
    requires MapExact(clients, slots) && c in slots && Mapped(slots[c].phase) && !Mapped(s.phase)
    ensures slots[c].ip in clients && clients[slots[c].ip] == c
    ensures MapExact(clients - {slots[c].ip}, slots[c := s])
  {
    var slots' := slots[c := s];
    forall k | k in clients && k != slots[c].ip ensures MappedAt(slots', clients[k], k) {
      assert MappedAt(slots, clients[k], k);
    }
  }

  // ----- each step keeps the invariant

  lemma MoveKeepsInv(o: Own, c: ConnId, phase: Phase)
    requires Inv(o) && c in o.slots && Holds(phase) == Holds(o.slots[c].phase)
    requires Mapped(phase) == Mapped(o.slots[c].phase) && !phase.Handshaking?
    ensures Inv(Move(o, c, phase))
  {
    HeldSame(o.pool.held, o.slots, c, o.slots[c].(phase := phase));
    MapSame(o.clients, o.slots, c, o.slots[c].(phase := phase));
  }

  lemma AllocateKeepsInv(o: Own, c: ConnId)
    requires Inv(o) && Enabled(o, Allocate(c))
    ensures Inv(Apply(o, Allocate(c)))
  {
    FirstFree(o.pool);
    AllocateKeepsValid(o.pool);
    match AllocateStep(o.pool).1
    case Granted(a) =>
      HeldMore(o.pool.held, o.slots, c, Slot(Allocated, a, 1, 0));
      MapSame(o.clients, o.slots, c, Slot(Allocated, a, 1, 0));
    case _ => MoveKeepsInv(o, c, Ended);
  }

  lemma FreeKeepsInv(o: Own, c: ConnId, phase: Phase)
    requires Inv(o) && Holder(o.slots, c) && !Mapped(o.slots[c].phase) && (phase.Released? || phase.Ended?)
    ensures Inv(Free(o, c, phase))
  {
    var s := o.slots[c].(phase := phase, releases := o.slots[c].releases + 1);
    HeldLess(o.pool.held, o.slots, c, s);
    MapSame(o.clients, o.slots, c, s);
    assert SlotBalanced(s) by { assert SlotBalanced(o.slots[c]); }
    assert Free(o, c, phase) == o.(pool := ReleaseStep(o.pool, o.slots[c].ip), slots := o.slots[c := s]);
  }

  /** Register never finds another client at its address. */
  lemma RegisterFindsNone(o: Own, c: ConnId)
    requires Inv(o) && Enabled(o, Register(c))
    ensures o.slots[c].ip !in o.clients
  {
    var ip := o.slots[c].ip;
    assert Holder(o.slots, c);
    if ip in o.clients {
      assert MappedAt(o.slots, o.clients[ip], ip);
      assert Holder(o.slots, o.clients[ip]);
    }
  }

  lemma RegisterKeepsInv(o: Own, c: ConnId)
    requires Inv(o) && Enabled(o, Register(c))
    ensures Inv(Apply(o, Register(c)))
  {
    RegisterFindsNone(o, c);
    HeldSame(o.pool.held, o.slots, c, o.slots[c].(phase := Serving));
    MapMore(o.clients, o.slots, c, o.slots[c].(phase := Serving));
  }

  lemma UnmapKeepsInv(o: Own, c: ConnId)
    requires Inv(o) && Enabled(o, Unmap(c))
    ensures Inv(Apply(o, Unmap(c)))
  {
    var s := o.slots[c].(phase := Unmapped);
    HeldSame(o.pool.held, o.slots, c, s);
    MapLess(o.clients, o.slots, c, s);
    assert SlotBalanced(s) by { assert SlotBalanced(o.slots[c]); }
    assert Apply(o, Unmap(c)) == o.(slots := o.slots[c := s], clients := o.clients - {s.ip});
  }

  lemma ConnectKeepsInv(o: Own, c: ConnId)
    requires Inv(o) && c !in o.slots
    ensures Inv(Apply(o, Connect(c)))
  {
    HeldSame(o.pool.held, o.slots, c, Slot(Handshaking, 0, 0, 0));
    MapSame(o.clients, o.slots, c, Slot(Handshaking, 0, 0, 0));
  }

  lemma StepKeepsInv(o: Own, step: Step)
    requires Inv(o)
    ensures Inv(Apply(o, step))
  {
    if Enabled(o, step) {
      match step
      case Connect(c) => ConnectKeepsInv(o, c);
      case Refuse(c) => MoveKeepsInv(o, c, Ended);
      case Allocate(c) => AllocateKeepsInv(o, c);
      case Welcome(c, sent) => MoveKeepsInv(o, c, if sent then Welcomed else Rejecting);
      case ReleaseRejected(c) => FreeKeepsInv(o, c, Ended);
      case Register(c) => RegisterKeepsInv(o, c);
      case Leave(c) => MoveKeepsInv(o, c, Leaving);
      case Unmap(c) => UnmapKeepsInv(o, c);
      case Release(c) => FreeKeepsInv(o, c, Released);
      case Close(c) => MoveKeepsInv(o, c, Ended);
    }
  }

  lemma {:induction false} RunInv(pool: Pool, steps: seq<Step>)
    requires Valid(pool) && pool.held == {}
    ensures Inv(Run(Init(pool), steps))
  {
    if steps != [] {
      RunInv(pool, steps[..|steps| - 1]);
      StepKeepsInv(Run(Init(pool), steps[..|steps| - 1]), steps[|steps| - 1]);
    }
  }

  // ----- main results, over every interleaving

  /** The addresses of the sessions that have allocated and not yet released. */
  ghost function HeldAddresses(o: Own): set<u32> {
    set c | c in o.slots && Holds(o.slots[c].phase) :: o.slots[c].ip
  }

  /**
   * Under every interleaving: the assigned set is exactly the live sessions'
   * addresses, pairwise distinct, never gateway, network or broadcast, and
   * clients[k] is such a session with address k.
   */
  lemma OwnershipExact(pool: Pool, steps: seq<Step>)
    requires Valid(pool) && pool.held == {}
    ensures var o := Run(Init(pool), steps);
            && o.pool.held == HeldAddresses(o)
            && HoldersDistinct(o.slots)
            && (forall a :: a in o.pool.held ==> Usable(o.pool, a))
            && (forall k :: k in o.clients ==> Holder(o.slots, o.clients[k]) && o.slots[o.clients[k]].ip == k)
  {
    RunInv(pool, steps);
    var o := Run(Init(pool), steps);
    forall a | a in o.pool.held ensures a in HeldAddresses(o) {
      var c :| HoldsAt(o.slots, c, a);
    }
    forall a | a in HeldAddresses(o) ensures a in o.pool.held {
      var c :| c in o.slots && Holds(o.slots[c].phase) && o.slots[c].ip == a;
      assert Holder(o.slots, c);
    }
    forall k | k in o.clients ensures Holder(o.slots, o.clients[k]) && o.slots[o.clients[k]].ip == k {
      assert MappedAt(o.slots, o.clients[k], k);
    }
  }

  /**
   * What the TUN thread's lookup finds: c exactly when c is registered with that
   * address; and then no other live session holds the address.
   */
  lemma LookupExact(pool: Pool, steps: seq<Step>, dst: u32, c: ConnId)
    requires Valid(pool) && pool.held == {}
    ensures var o := Run(Init(pool), steps);
            && (dst in o.clients && o.clients[dst] == c <==> MappedAt(o.slots, c, dst))
            && (dst in o.clients && o.clients[dst] == c ==> forall d :: HoldsAt(o.slots, d, dst) <==> d == c)
  {
    RunInv(pool, steps);
    var o := Run(Init(pool), steps);
    if dst in o.clients && o.clients[dst] == c {
      assert MappedAt(o.slots, c, dst);
      assert Holder(o.slots, c);
    }
  }

  /** Register's displacement branch is never taken, and deregister's identity check always succeeds. */
  lemma BranchesDecided(pool: Pool, steps: seq<Step>, c: ConnId)
    requires Valid(pool) && pool.held == {}
    ensures var o := Run(Init(pool), steps);
            && o.displaced == {}
            && (Enabled(o, Register(c)) ==> o.slots[c].ip !in o.clients)
            && (Enabled(o, Unmap(c)) ==> o.slots[c].ip in o.clients && o.clients[o.slots[c].ip] == c)
  {
    RunInv(pool, steps);
    var o := Run(Init(pool), steps);
    if Enabled(o, Register(c)) { RegisterFindsNone(o, c); }
  }

  /**
   * No address leaks: a thread releases once what it was granted once, on every
   * path; and when all threads have ended the pool is empty and grants again up
   * to its whole capacity.
   */
  lemma NoAddressLeaks(pool: Pool, steps: seq<Step>)
    requires Valid(pool) && pool.held == {}
    ensures var o := Run(Init(pool), steps);
            && (forall c :: c in o.slots && o.slots[c].phase.Ended? ==> o.slots[c].releases == o.slots[c].grants <= 1)
            && ((forall c :: c in o.slots ==> o.slots[c].phase.Ended?) ==> o.pool.held == {})
            && (Scan(o.pool, 0).Granted? <==> |HeldAddresses(o)| < |UsableSet(o.pool)|)
  {
    RunInv(pool, steps);
    OwnershipExact(pool, steps);
    var o := Run(Init(pool), steps);
    GrantsBelowCapacity(o.pool);
    assert (forall c :: c in o.slots ==> o.slots[c].phase.Ended?) ==> HeldAddresses(o) == {};
  }
}
