/**
 * The tunnel address pool of internal/server/pool.go: a round-robin scan in
 * wrapping uint32 arithmetic.  Every prefix length 0..32 is modelled.
 */
module AddressPool {
  import opened Octets

  type u32 = n: int | 0 <= n < TWO_32

  function Wrap(n: int): u32 { n % TWO_32 }

  /** The unsigned remainder `x % m`, by subtraction. */
  function Mod(x: nat, m: nat): (r: nat)
    requires m > 0
    ensures r < m && r <= x
  {
    if x < m then x else Mod(x - m, m)
  }

  /** Subtraction computes the operator. */
  lemma {:induction false} ModIsRemainder(x: nat, m: nat)
    requires m > 0
    ensures Mod(x, m) == x % m
  {
    if x >= m {
      ModIsRemainder(x - m, m);
      var q, r := (x - m) / m, (x - m) % m;
      assert x == (q + 1) * m + r;
      RemainderUnique(x, m, q + 1, r);
    } else {
      RemainderUnique(x, m, 0, x);
    }
  }

  lemma SmallMultiple(d: int, m: nat)
    requires -1 * m < d * m < m
    ensures d == 0
  {
  }

  lemma RemainderUnique(x: nat, m: nat, q: nat, r: nat)
    requires m > 0 && x == q * m + r && r < m
    ensures x % m == r
  {
    var d := x / m - q;
    assert d * m == r - x % m;
    SmallMultiple(d, m);
  }

  /** The fields of ipPool; `held` is the Go map `assigned`, whose values are always true. */
  datatype Pool = Pool(base: u32, size: u32, gateway: u32, next: u32, held: set<u32>)

  datatype Outcome = Granted(addr: u32) | Exhausted | Panic

  /** `uint32(1) << (32 - ones)`; shifting by all 32 bits gives zero. */
  function SizeOf(ones: nat): u32
    requires ones <= 32
  {
    Wrap(Shl(1, 32 - ones))
  }

  /** The masked network address: `ones` prefix bits followed by zeros. */
  function Network(prefix: nat, ones: nat): u32
    requires ones <= 32 && prefix < Shl(1, ones)
  {
    NetworkFits(prefix, ones);
    Shl(prefix, 32 - ones)
  }

  /** newIPPool after parsing the CIDR and the gateway. */
  function NewPool(prefix: nat, ones: nat, gateway: u32): Pool
    requires ones <= 32 && prefix < Shl(1, ones)
  {
    var base := Network(prefix, ones);
    Pool(base, SizeOf(ones), gateway, Wrap(base + 1), {})
  }

  lemma NetworkFits(prefix: nat, ones: nat)
    requires ones <= 32 && prefix < Shl(1, ones)
    ensures Shl(prefix, 32 - ones) + Shl(1, 32 - ones) <= TWO_32 && 0 < Shl(1, 32 - ones)
  {
    ShlOrdered(0, 32 - ones);
    ShlSum(prefix, 1, 32 - ones);
    ShlLess(prefix + 1, Shl(1, ones), 32 - ones);
    ShlAdd(ones, 32 - ones);
    Doublings(32);
  }

  lemma {:induction false} ShlSum(x: nat, y: nat, k: nat)
    ensures Shl(x, k) + Shl(y, k) == Shl(x + y, k)
  {
    if k > 0 { ShlSum(x, y, k - 1); }
  }

  lemma {:induction false} ShlLess(x: nat, y: nat, k: nat)
    requires x <= y
    ensures Shl(x, k) <= Shl(y, k)
  {
    if k > 0 { ShlLess(x, y, k - 1); }
  }

  /** The candidate the scan looks at in iteration `i`, with every operation truncated to 32 bits. */
  function CandidateAt(base: u32, size: u32, next: u32, i: u32): u32
    requires size != 2
  {
    assert Wrap(size - 2) != 0;
    Wrap(Wrap(base + 1) + Mod(Wrap(Wrap(Wrap(next - base) - 1) + i), Wrap(size - 2)))
  }

  function Candidate(p: Pool, i: u32): u32
    requires p.size != 2
  {
    CandidateAt(p.base, p.size, p.next, i)
  }

  predicate Free(p: Pool, a: u32) { a != p.gateway && a !in p.held }

  /** The outcome of the scan from iteration `i` on. */
  function Scan(p: Pool, i: nat): Outcome
    decreases p.size - i
  {
    if i >= p.size then Exhausted
    else if p.size == 2 then Panic // remainder by zero
    else if Free(p, Candidate(p, i)) then Granted(Candidate(p, i))
    else Scan(p, i + 1)
  }

  function AllocateStep(p: Pool): (Pool, Outcome) {
    match Scan(p, 0)
    case Granted(a) => (p.(held := p.held + {a}, next := Wrap(a + 1)), Granted(a))
    case o => (p, o)
  }

  function ReleaseStep(p: Pool, a: u32): Pool { p.(held := p.held - {a}) }

  // ----- the pool as the code keeps it: fields updated in place under a mutex

  class IpPool {
    const base: u32
    const size: u32
    const gateway: u32
    var next: u32
    var held: set<u32>

    ghost function View(): Pool reads this { Pool(base, size, gateway, next, held) }

    constructor (prefix: nat, ones: nat, gateway: u32)
      requires ones <= 32 && prefix < Shl(1, ones)
      ensures View() == NewPool(prefix, ones, gateway)
    {
      var network: int := Network(prefix, ones);
      this.base, this.size, this.gateway := network, SizeOf(ones), gateway;
      this.next, this.held := Wrap(network + 1), {};
    }

    method Allocate() returns (o: Outcome)
      modifies this
      ensures (View(), o) == AllocateStep(old(View()))
    {
      ghost var p := View();
      var i := 0;
      while i < size
        invariant 0 <= i <= size
        invariant next == p.next && held == p.held
        invariant Scan(p, 0) == Scan(p, i)
      {
        if size == 2 { return Panic; }
        var cand: int := CandidateAt(base, size, next, i);
        if cand == gateway || cand in held {
          i := i + 1;
          continue;
        }
        held := held + {cand};
        next := Wrap(cand + 1);
        return Granted(cand);
      }
      return Exhausted;
    }

    method Release(a: u32)
      modifies this`held
      ensures View() == ReleaseStep(old(View()), a)
    {
      held := held - {a};
    }
  }

  // ----- prefix lengths 1..30: nothing wraps

  /** What a pool with prefix length 1..30 satisfies from construction on. */
  ghost predicate Valid(p: Pool) {
    && 4 <= p.size <= TWO_31
    && p.base + p.size <= TWO_32
    && p.base < p.next < p.base + p.size
    && forall a :: a in p.held ==> Usable(p, a)
  }

  /** Neither the network nor the broadcast address, and not the gateway. */
  predicate Usable(p: Pool, a: u32) { p.base < a < p.base + p.size - 1 && a != p.gateway }

  lemma {:induction false} PrefixSizes(ones: nat)
    requires ones <= 32
    ensures ones == 0 ==> SizeOf(ones) == 0
    ensures 1 <= ones <= 30 ==> 4 <= SizeOf(ones) == Shl(1, 32 - ones) <= TWO_31
    ensures ones == 31 ==> SizeOf(ones) == 2
    ensures ones == 32 ==> SizeOf(ones) == 1
  {
    Doublings(32 - ones);
  }

  lemma WordSizes()
    ensures Shl(1, 31) == TWO_31 && Shl(1, 32) == TWO_32
  {
    ShlByte(1);
    ShlAdd(8, 8); ShlByte(0x100);
    ShlAdd(16, 8); ShlByte(0x1_0000);
    ShlAdd(24, 8); ShlByte(0x100_0000);
  }

  /** 2^k is at least 4 from k = 2 on and at most 2^31 up to k = 31. */
  lemma Doublings(k: nat)
    requires k <= 32
    ensures k == 0 ==> Shl(1, k) == 1
    ensures k == 1 ==> Shl(1, k) == 2
    ensures 2 <= k <= 31 ==> 4 <= Shl(1, k) <= TWO_31
    ensures k == 32 ==> Shl(1, k) == TWO_32
  {
    WordSizes();
    if 2 <= k <= 31 { ShlOrdered(2, k); ShlOrdered(k, 31); }
  }

  lemma {:induction false} ShlAdd(k: nat, m: nat)
    ensures Shl(1, k + m) == Shl(Shl(1, k), m)
  {
    if m > 0 { ShlAdd(k, m - 1); }
  }

  lemma NewPoolValid(prefix: nat, ones: nat, gateway: u32)
    requires 1 <= ones <= 30 && prefix < Shl(1, ones)
    ensures Valid(NewPool(prefix, ones, gateway))
  {
    PrefixSizes(ones);
    NetworkFits(prefix, ones);
    WrapSmall(Network(prefix, ones) + 1);
  }

  /** How many usable offsets there are, the gateway's included. */
  ghost function Span(p: Pool): nat
    requires Valid(p)
  {
    p.size - 2
  }

  /** The iteration in which a scan first looks at `a`: its cyclic distance from the cursor. */
  ghost function Index(p: Pool, a: u32): (i: nat)
    requires Valid(p) && p.base < a < p.base + p.size - 1
    ensures i < Span(p)
  {
    if a >= p.next then a - p.next else a - p.next + Span(p)
  }

  /** No uint32 step overflows: the candidate is the cursor's offset plus `i`, reduced into the range. */
  lemma CandidateExact(p: Pool, i: nat)
    requires Valid(p) && i < p.size
    ensures p.next - p.base - 1 + i < TWO_32 && p.base + 1 + p.size - 2 <= TWO_32
    ensures Candidate(p, i) == p.base + 1 + Mod(p.next - p.base - 1 + i, Span(p))
    ensures p.base < Candidate(p, i) < p.base + p.size - 1
  {
    var cursor := p.next - p.base - 1;
    WrapSmall(p.next - p.base);
    WrapSmall(cursor);
    WrapSmall(cursor + i);
    WrapSmall(p.base + 1);
    WrapSmall(p.size - 2);
    WrapSmall(p.base + 1 + Mod(cursor + i, p.size - 2));
  }

  lemma WrapSmall(n: int)
    requires 0 <= n < TWO_32
    ensures Wrap(n) == n
  {
  }

  lemma ModReduced(x: nat, m: nat)
    requires m > 0 && x < 3 * m
    ensures Mod(x, m) == if x < m then x else if x < 2 * m then x - m else x - 2 * m
  {
  }

  /** The scan looks at every address of the range, each first at its index. */
  lemma IndexHits(p: Pool, a: u32)
    requires Valid(p) && p.base < a < p.base + p.size - 1
    ensures Candidate(p, Index(p, a)) == a
  {
    CandidateExact(p, Index(p, a));
    ModReduced(p.next - p.base - 1 + Index(p, a), Span(p));
  }

  lemma IndexOfCandidate(p: Pool, i: nat)
    requires Valid(p) && i < p.size
    ensures p.base < Candidate(p, i) < p.base + p.size - 1
    ensures Index(p, Candidate(p, i)) == if i < Span(p) then i else i - Span(p)
  {
    CandidateExact(p, i);
    ModReduced(p.next - p.base - 1 + i, Span(p));
  }

  /** Everything looked at before iteration `i` was taken. */
  ghost predicate TakenBefore(p: Pool, i: nat)
    requires Valid(p)
  {
    forall b: u32 :: p.base < b < p.base + p.size - 1 && Index(p, b) < i ==> !Free(p, b)
  }

  ghost predicate ScanResult(p: Pool, o: Outcome)
    requires Valid(p)
  {
    match o
    case Granted(a) =>
      Usable(p, a) && a !in p.held && forall b: u32 :: Usable(p, b) && Index(p, b) < Index(p, a) ==> b in p.held
    case Exhausted => forall b: u32 :: Usable(p, b) ==> b in p.held
    case Panic => false
  }

  lemma {:induction false} ScanFrom(p: Pool, i: nat)
    requires Valid(p) && i <= p.size && TakenBefore(p, i)
    ensures ScanResult(p, Scan(p, i))
    decreases p.size - i
  {
    if i < p.size {
      IndexOfCandidate(p, i);
      if !Free(p, Candidate(p, i)) {
        forall b: u32 | p.base < b < p.base + p.size - 1 && Index(p, b) < i + 1 ensures !Free(p, b) {
          if Index(p, b) == i { IndexHits(p, b); }
        }
        ScanFrom(p, i + 1);
      }
    } else {
      forall b: u32 | Usable(p, b) ensures b in p.held { assert Index(p, b) < i; }
    }
  }

  /**
   * Allocate grants the first free address in cyclic order from the cursor, and
   * fails exactly when every usable non-gateway address is held.
   */
  lemma FirstFree(p: Pool)
    requires Valid(p)
    ensures ScanResult(p, Scan(p, 0))
    ensures Scan(p, 0) == Exhausted <==> forall a: u32 :: Usable(p, a) ==> a in p.held
  {
    ScanFrom(p, 0);
  }

  lemma AllocateKeepsValid(p: Pool)
    requires Valid(p)
    ensures Valid(AllocateStep(p).0)
  {
    FirstFree(p);
    var o := Scan(p, 0);
    if o.Granted? { WrapSmall(o.addr + 1); }
  }

  // ----- capacity

  ghost function UsableSet(p: Pool): set<u32> { set a: u32 | 0 <= a < TWO_32 && Usable(p, a) }

  lemma {:induction false} IntervalSize(s: set<u32>, lo: int, hi: int)
    requires lo <= hi && forall a :: a in s <==> lo <= a < hi
    ensures |s| == hi - lo
    decreases hi - lo
  {
    if lo == hi {
      assert s == {};
    } else {
      assert lo in s;
      IntervalSize(s - {lo}, lo + 1, hi);
    }
  }

  /** All addresses but network and broadcast, and the gateway if it lies between them. */
  lemma Capacity(p: Pool)
    requires Valid(p)
    ensures |UsableSet(p)| == p.size - 2 - (if p.base < p.gateway < p.base + p.size - 1 then 1 else 0)
  {
    var s := UsableSet(p);
    if p.base < p.gateway < p.base + p.size - 1 {
      IntervalSize(s + {p.gateway}, p.base + 1, p.base + p.size - 1);
    } else {
      IntervalSize(s, p.base + 1, p.base + p.size - 1);
    }
  }

  lemma SmallerExactly(s: set<u32>, t: set<u32>)
    requires s <= t
    ensures |s| < |t| <==> !(t <= s)
  {
    assert t == s + (t - s);
    assert t - s != {} <==> !(t <= s);
  }

  /** The pool grants exactly while fewer addresses are held than its capacity. */
  lemma GrantsBelowCapacity(p: Pool)
    requires Valid(p)
    ensures Scan(p, 0).Granted? <==> |p.held| < |UsableSet(p)|
  {
    GrantsUnlessAllHeld(p);
    HeldUsable(p);
    SmallerExactly(p.held, UsableSet(p));
  }

  lemma HeldUsable(p: Pool)
    requires Valid(p)
    ensures p.held <= UsableSet(p)
  {
  }

  lemma GrantsUnlessAllHeld(p: Pool)
    requires Valid(p)
    ensures Scan(p, 0).Granted? <==> !(UsableSet(p) <= p.held)
  {
    ScanFrom(p, 0);
    match Scan(p, 0)
    case Granted(a) => assert a in UsableSet(p);
    case Exhausted =>
  }

  // ----- the prefix lengths that are not a pool

  /** A fresh pool with prefix length 1..30 has room for at least one client. */
  lemma FreshPoolServes(prefix: nat, ones: nat, gateway: u32)
    requires 1 <= ones <= 30 && prefix < Shl(1, ones)
    ensures var p := NewPool(prefix, ones, gateway);
            p.size == Shl(1, 32 - ones) && Scan(p, 0).Granted? && Usable(p, Scan(p, 0).addr)
  {
    PrefixSizes(ones);
    NewPoolValid(prefix, ones, gateway);
    var p := NewPool(prefix, ones, gateway);
    FirstFree(p);
    var a: u32 := if p.base + 1 == gateway then p.base + 2 else p.base + 1;
    assert Usable(p, a);
  }

  /**
   * What a fresh pool answers, for every prefix length: an address of its own
   * network exactly for 1..30; /0 serves nothing, /31 divides by zero, and /32
   * hands out the address after its only one.
   */
  lemma FreshPoolByPrefix(prefix: nat, ones: nat, gateway: u32)
    requires ones <= 32 && prefix < Shl(1, ones)
    ensures var p := NewPool(prefix, ones, gateway);
            var o := AllocateStep(p).1;
            && ((o.Granted? && p.base <= o.addr < p.base + Shl(1, 32 - ones)) <==> 1 <= ones <= 30)
            && (ones == 0 ==> o == Exhausted)
            && (ones == 31 ==> o == Panic)
            && (ones == 32 ==> o == if gateway == Wrap(p.base + 1) then Exhausted else Granted(Wrap(p.base + 1)))
  {
    var p := NewPool(prefix, ones, gateway);
    AllocateOutcome(p);
    if 1 <= ones <= 30 {
      FreshPoolServes(prefix, ones, gateway);
    } else {
      PrefixSizes(ones);
      if ones == 32 { SingleHost(p); }
    }
  }

  lemma AllocateOutcome(p: Pool)
    ensures AllocateStep(p).1 == Scan(p, 0)
  {
  }

  lemma SingleHost(p: Pool)
    requires p.size == 1 && p.next == Wrap(p.base + 1) && p.held == {}
    ensures Scan(p, 0) == if p.gateway == Wrap(p.base + 1) then Exhausted else Granted(Wrap(p.base + 1))
    ensures Shl(1, 0) == 1 && Wrap(p.base + 1) != p.base
  {
    FirstCandidate(p);
  }

  /** The cursor starts one past the base, wherever that wraps to, so the first offset is zero. */
  lemma FirstCandidate(p: Pool)
    requires p.size == 1 && p.next == Wrap(p.base + 1)
    ensures Candidate(p, 0) == Wrap(p.base + 1)
  {
    assert Wrap(Wrap(p.next - p.base) - 1) == 0;
    assert Mod(0, Wrap(p.size - 2)) == 0;
  }

  // ----- which network it is

  lemma {:induction false} ShlIsProduct(v: nat, k: nat)
    ensures Shl(v, k) == v * Shl(1, k)
  {
    if k > 0 {
      ShlIsProduct(v, k - 1);
      TwiceProduct(v, Shl(1, k - 1));
    }
  }

  lemma TwiceProduct(v: nat, x: nat)
    ensures v * (2 * x) == 2 * (v * x)
  {
  }

  lemma QuotientExactly(a: nat, m: nat, q: nat)
    requires m > 0
    ensures q * m <= a < q * m + m <==> a / m == q
  {
    var d := a / m - q;
    if q * m <= a < q * m + m {
      assert d * m == a - a % m - q * m;
      SmallMultiple(d, m);
    }
  }

  /** The range is exactly the addresses with the given prefix, the gateway the given one, and nothing is held. */
  lemma NewPoolIs(prefix: nat, ones: nat, gateway: u32, a: u32)
    requires 1 <= ones <= 30 && prefix < Shl(1, ones)
    ensures var p := NewPool(prefix, ones, gateway);
            && Shl(1, 32 - ones) > 0
            && (p.base <= a < p.base + p.size <==> a / Shl(1, 32 - ones) == prefix)
            && p.gateway == gateway && p.held == {} && p.next == p.base + 1
  {
    PrefixSizes(ones);
    NetworkFits(prefix, ones);
    WrapSmall(Network(prefix, ones) + 1);
    ShlIsProduct(prefix, 32 - ones);
    QuotientExactly(a, Shl(1, 32 - ones), prefix);
  }
}
