/** Whole runs of the address pool: what lies between two grants of the same address. */
module PoolRuns {
  import opened AddressPool

  datatype Op = Take | Give(addr: u32)

  function Step(p: Pool, op: Op): Pool {
    match op
    case Take => AllocateStep(p).0
    case Give(a) => ReleaseStep(p, a)
  }

  /** The pool before operation `k`. */
  function At(p: Pool, ops: seq<Op>, k: nat): Pool
    requires k <= |ops|
  {
    if k == 0 then p else Step(At(p, ops, k - 1), ops[k - 1])
  }

  /** Operation `k` is an Allocate that grants `a`. */
  ghost predicate Grants(p: Pool, ops: seq<Op>, k: nat, a: u32)
    requires k < |ops|
  {
    ops[k].Take? && AllocateStep(At(p, ops, k)).1 == Granted(a)
  }

  /** A scan of `p` looks at `b` and passes over it because it is held. */
  ghost predicate FoundHeld(p: Pool, b: u32)
    requires Valid(p)
  {
    && Usable(p, b) && b in p.held
    && match Scan(p, 0)
       case Granted(g) => p.base < g < p.base + p.size - 1 && Index(p, b) < Index(p, g)
       case _ => true
  }

  lemma {:induction false} RunValid(p: Pool, ops: seq<Op>, k: nat)
    requires Valid(p) && k <= |ops|
    ensures Valid(At(p, ops, k))
    ensures var q := At(p, ops, k); q.base == p.base && q.size == p.size && q.gateway == p.gateway
  {
    if k > 0 {
      RunValid(p, ops, k - 1);
      AllocateKeepsValid(At(p, ops, k - 1));
    }
  }

  /** Operation `k` grants `b`, or scans past it while it is held. */
  ghost predicate Touches(p: Pool, ops: seq<Op>, k: nat, b: u32)
    requires Valid(p) && k < |ops|
  {
    RunValid(p, ops, k);
    ops[k].Take? && (Grants(p, ops, k, b) || FoundHeld(At(p, ops, k), b))
  }

  ghost predicate TouchedBetween(p: Pool, ops: seq<Op>, lo: nat, hi: nat, b: u32)
    requires Valid(p) && hi <= |ops|
  {
    exists k :: lo < k < hi && Touches(p, ops, k, b)
  }

  // ----- cyclic distances from a fixed address

  /** How far `b` lies after `a`, going round the range. */
  ghost function Distance(p: Pool, a: u32, b: u32): (d: nat)
    requires Valid(p) && p.base < a < p.base + p.size - 1 && p.base < b < p.base + p.size - 1
    ensures d < Span(p)
  {
    if b >= a then b - a else b - a + Span(p)
  }

  /** How far the cursor lies after `a`, counted 1..Span: a cursor at `a` has gone all the way round. */
  ghost function CursorDistance(p: Pool, a: u32): (d: nat)
    requires Valid(p) && p.base < a < p.base + p.size - 1
    ensures 1 <= d <= Span(p)
  {
    if p.next > a then p.next - a else p.next - a + Span(p)
  }

  lemma IndexByDistance(p: Pool, a: u32, b: u32)
    requires Valid(p) && p.base < a < p.base + p.size - 1 && p.base < b < p.base + p.size - 1
    ensures var d, c := Distance(p, a, b), CursorDistance(p, a);
            Index(p, b) == if d >= c then d - c else d - c + Span(p)
  {
  }

  /** One Allocate either touches `b` or leaves the cursor at or before it. */
  lemma Sweep(p: Pool, a: u32, b: u32)
    requires Valid(p) && Usable(p, a) && Usable(p, b) && a != b
    requires Distance(p, a, b) >= CursorDistance(p, a)
    ensures Valid(AllocateStep(p).0)
    ensures || AllocateStep(p).1 == Granted(b)
            || FoundHeld(p, b)
            || (AllocateStep(p).1 != Granted(a) && Distance(p, a, b) >= CursorDistance(AllocateStep(p).0, a))
  {
    AllocateKeepsValid(p);
    FirstFree(p);
    IndexByDistance(p, a, b);
    match Scan(p, 0)
    case Exhausted =>
    case Granted(g) =>
      IndexByDistance(p, a, g);
      WrapSmall(g + 1);
      if Index(p, g) <= Index(p, b) {
        if b != g { assert CursorDistance(AllocateStep(p).0, a) == Distance(p, a, g) + 1; }
      }
  }

  lemma TouchedLater(p: Pool, ops: seq<Op>, lo: nat, hi: nat, b: u32)
    requires Valid(p) && hi < |ops| && TouchedBetween(p, ops, lo, hi, b)
    ensures TouchedBetween(p, ops, lo, hi + 1, b)
  {
    var m :| lo < m < hi && Touches(p, ops, m, b);
  }

  /** One operation either touches `b` or leaves the cursor at or before it. */
  lemma ProgressStep(p: Pool, ops: seq<Op>, s: nat, k: nat, a: u32, b: u32)
    requires Valid(p) && s < k < |ops| && Usable(p, a) && Usable(p, b) && a != b
    requires Valid(At(p, ops, k)) && At(p, ops, k).base == p.base && At(p, ops, k).size == p.size
    requires Distance(p, a, b) >= CursorDistance(At(p, ops, k), a)
    ensures Valid(At(p, ops, k + 1)) && At(p, ops, k + 1).base == p.base && At(p, ops, k + 1).size == p.size
    ensures TouchedBetween(p, ops, s, k + 1, b) || Distance(p, a, b) >= CursorDistance(At(p, ops, k + 1), a)
  {
    RunValid(p, ops, k);
    RunValid(p, ops, k + 1);
    var q := At(p, ops, k);
    if ops[k].Take? {
      Sweep(q, a, b);
      if AllocateStep(q).1 == Granted(b) || FoundHeld(q, b) { assert Touches(p, ops, k, b); }
    }
  }

  lemma {:induction false} Progress(p: Pool, ops: seq<Op>, s: nat, k: nat, a: u32, b: u32)
    requires Valid(p) && s < k <= |ops| && Grants(p, ops, s, a)
    requires Usable(p, a) && Usable(p, b) && a != b
    ensures Valid(At(p, ops, k)) && At(p, ops, k).base == p.base && At(p, ops, k).size == p.size
    ensures TouchedBetween(p, ops, s, k, b) || Distance(p, a, b) >= CursorDistance(At(p, ops, k), a)
  {
    RunValid(p, ops, k);
    if k == s + 1 {
      WrapSmall(a + 1);
    } else {
      Progress(p, ops, s, k - 1, a, b);
      if TouchedBetween(p, ops, s, k - 1, b) {
        TouchedLater(p, ops, s, k - 1, b);
      } else {
        ProgressStep(p, ops, s, k - 1, a, b);
      }
    }
  }

  /**
   * Between two grants of the same address, every other usable address was
   * granted, or was found held by a scan (the one making the second grant included).
   */
  lemma ReuseDistance(p: Pool, ops: seq<Op>, s: nat, t: nat, a: u32, b: u32)
    requires Valid(p) && s < t < |ops|
    requires Grants(p, ops, s, a) && Grants(p, ops, t, a)
    requires Usable(p, b) && a != b
    ensures TouchedBetween(p, ops, s, t + 1, b)
  {
    RunValid(p, ops, s);
    FirstFree(At(p, ops, s));
    Progress(p, ops, s, t, a, b);
    RunValid(p, ops, t);
    if TouchedBetween(p, ops, s, t, b) {
      TouchedLater(p, ops, s, t, b);
    } else {
      Sweep(At(p, ops, t), a, b);
      assert Touches(p, ops, t, b);
    }
  }
}
