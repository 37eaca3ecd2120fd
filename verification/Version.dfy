/** The update check's version order: isNewer and parseVersion of internal/client/update.go. */
module Version {
  import opened Octets
  import opened Decimal
  import opened Query
  import opened Text

  // ----- parsing

  /** strings.Split around a one-character separator. */
  function Split(s: string, c: char): (parts: seq<string>)
    ensures parts != []
    decreases |s|
  {
    var (head, rest, found) := Cut(s, c);
    if found && s != [] then [head] + Split(rest, c) else [head]
  }

  /** A part up to its first '-' or '+'. */
  function Core(p: string): string {
    if p == [] || p[0] == '-' || p[0] == '+' then [] else [p[0]] + Core(p[1..])
  }

  function PartValue(p: string): Option<int> { Atoi(Core(p)) }

  function Bare(v: string): string {
    var t := TrimSpace(v);
    if t != [] && t[0] == 'v' then t[1..] else t
  }

  /** The numbers of all parts, if every part is one. */
  function Numbers(parts: seq<string>): Option<seq<int>> {
    if forall i :: 0 <= i < |parts| ==> PartValue(parts[i]).Some?
    then Some(seq(|parts|, i requires 0 <= i < |parts| => PartValue(parts[i]).value))
    else None
  }

  function Parsed(v: string): Option<seq<int>> {
    if Bare(v) == [] then None else Numbers(Split(Bare(v), '.'))
  }

  method CollectNumbers(parts: seq<string>) returns (r: Option<seq<int>>)
    ensures r == Numbers(parts)
  {
    var nums: seq<int> := [];
    for i := 0 to |parts|
      invariant |nums| == i
      invariant forall j :: 0 <= j < i ==> PartValue(parts[j]) == Some(nums[j])
    {
      var n := PartValue(parts[i]);
      if n.None? { return None; }
      nums := nums + [n.value];
    }
    NumbersAre(parts, nums);
    return Some(nums);
  }

  lemma NumbersAre(parts: seq<string>, nums: seq<int>)
    requires |nums| == |parts| && forall j :: 0 <= j < |parts| ==> PartValue(parts[j]) == Some(nums[j])
    ensures Numbers(parts) == Some(nums)
  {
    assert Numbers(parts).Some? && nums == Numbers(parts).value;
  }

  method ParseVersion(v: string) returns (r: Option<seq<int>>)
    ensures r == Parsed(v)
  {
    var bare := Bare(v);
    if bare == [] { return None; }
    r := CollectNumbers(Split(bare, '.'));
  }

  // ----- the order

  /** The number at position `i`, zero past the end. */
  function Num(p: seq<int>, i: nat): int { if i < |p| then p[i] else 0 }

  ghost predicate SameBelow(p: seq<int>, q: seq<int>, n: nat) {
    forall i :: 0 <= i < n ==> Num(p, i) == Num(q, i)
  }

  /** `i` is the first position where the two differ, and `p` is greater there. */
  ghost predicate GreaterAt(p: seq<int>, q: seq<int>, i: nat) {
    SameBelow(p, q, i) && Num(p, i) > Num(q, i)
  }

  ghost predicate Greater(p: seq<int>, q: seq<int>) {
    exists i: nat :: GreaterAt(p, q, i)
  }

  ghost predicate Newer(a: string, b: string) {
    match (Parsed(a), Parsed(b))
    case (Some(p), Some(q)) => Greater(p, q)
    case _ => a != [] && a != b
  }

  /** The comparison loop. */
  method Compare(p: seq<int>, q: seq<int>) returns (greater: bool)
    ensures greater <==> Greater(p, q)
  {
    var i := 0;
    while i < |p| || i < |q|
      invariant SameBelow(p, q, i)
      decreases |p| + |q| - i
    {
      var x, y := 0, 0;
      if i < |p| { x := p[i]; }
      if i < |q| { y := q[i]; }
      if x != y {
        DecidedAt(p, q, i);
        return x > y;
      }
      i := i + 1;
    }
    assert forall k: nat :: Num(p, k) == Num(q, k);
    return false;
  }

  lemma DecidedAt(p: seq<int>, q: seq<int>, i: nat)
    requires SameBelow(p, q, i) && Num(p, i) != Num(q, i)
    ensures Greater(p, q) <==> Num(p, i) > Num(q, i)
  {
    if Num(p, i) > Num(q, i) {
      assert GreaterAt(p, q, i);
    } else {
      forall k: nat ensures !GreaterAt(p, q, k) {
        assert k < i ==> Num(p, k) == Num(q, k);
        assert k > i && SameBelow(p, q, k) ==> Num(p, i) == Num(q, i);
      }
    }
  }

  method IsNewer(a: string, b: string) returns (newer: bool)
    ensures newer <==> Newer(a, b)
  {
    var pa := ParseVersion(a);
    var pb := ParseVersion(b);
    if pa.None? || pb.None? { return a != [] && a != b; }
    newer := Compare(pa.value, pb.value);
  }

  lemma GreaterAsymmetric(p: seq<int>, q: seq<int>)
    requires Greater(p, q)
    ensures !Greater(q, p)
  {
    var i: nat :| GreaterAt(p, q, i);
    assert SameBelow(q, p, i);
    DecidedAt(q, p, i);
  }

  lemma GreaterTransitive(p: seq<int>, q: seq<int>, r: seq<int>)
    requires Greater(p, q) && Greater(q, r)
    ensures Greater(p, r)
  {
    var i: nat :| GreaterAt(p, q, i);
    var j: nat :| GreaterAt(q, r, j);
    var k := if i < j then i else j;
    assert GreaterAt(p, r, k);
  }

  /** The list without its trailing zeros. */
  function Significant(p: seq<int>): seq<int> {
    if p != [] && p[|p| - 1] == 0 then Significant(p[..|p| - 1]) else p
  }

  lemma {:induction false} SignificantNum(p: seq<int>, i: nat)
    ensures Num(Significant(p), i) == Num(p, i)
    ensures Significant(p) != [] ==> Significant(p)[|Significant(p)| - 1] != 0
    ensures |Significant(p)| <= |p|
  {
    if p != [] && p[|p| - 1] == 0 { SignificantNum(p[..|p| - 1], i); }
  }

  lemma {:induction false} FirstDifference(p: seq<int>, q: seq<int>, n: nat)
    ensures SameBelow(p, q, n) || Greater(p, q) || Greater(q, p)
  {
    if n > 0 {
      FirstDifference(p, q, n - 1);
      if SameBelow(p, q, n - 1) && Num(p, n - 1) != Num(q, n - 1) {
        assert GreaterAt(p, q, n - 1) || GreaterAt(q, p, n - 1);
      }
    }
  }

  lemma SameSignificant(p: seq<int>, q: seq<int>)
    requires forall i: nat :: Num(p, i) == Num(q, i)
    ensures Significant(p) == Significant(q)
  {
    var s, t := Significant(p), Significant(q);
    forall i: nat ensures Num(s, i) == Num(t, i) { SignificantNum(p, i); SignificantNum(q, i); }
    SignificantNum(p, 0);
    SignificantNum(q, 0);
    if t != [] { assert Num(s, |t| - 1) == Num(t, |t| - 1) != 0; }
    if s != [] { assert Num(t, |s| - 1) == Num(s, |s| - 1) != 0; }
    assert forall i :: 0 <= i < |s| ==> s[i] == Num(s, i) == Num(t, i) == t[i];
  }

  /** Two versions are unordered exactly when they agree up to trailing zeros. */
  lemma UnorderedExactly(p: seq<int>, q: seq<int>)
    ensures !Greater(p, q) && !Greater(q, p) <==> Significant(p) == Significant(q)
  {
    if !Greater(p, q) && !Greater(q, p) {
      forall i: nat ensures Num(p, i) == Num(q, i) { FirstDifference(p, q, i + 1); }
      SameSignificant(p, q);
    }
    if Significant(p) == Significant(q) {
      forall i: nat ensures Num(p, i) == Num(q, i) { SignificantNum(p, i); SignificantNum(q, i); }
    }
  }

  // ----- whole update chains

  /** Each version is parsable and offered as an update of the one before. */
  ghost predicate UpdateChain(vs: seq<string>) {
    && (forall i :: 0 <= i < |vs| ==> Parsed(vs[i]).Some?)
    && (forall i :: 0 <= i < |vs| - 1 ==> Newer(vs[i + 1], vs[i]))
  }

  ghost predicate Rises(ps: seq<seq<int>>, k: nat)
    requires k + 1 < |ps|
  {
    Greater(ps[k + 1], ps[k])
  }

  lemma {:induction false} ChainAscends(ps: seq<seq<int>>, i: nat, j: nat)
    requires i < j < |ps| && forall k :: 0 <= k < |ps| - 1 ==> Rises(ps, k)
    ensures Greater(ps[j], ps[i])
  {
    assert Rises(ps, j - 1);
    if i + 1 < j {
      ChainAscends(ps, i, j - 1);
      GreaterTransitive(ps[j], ps[j - 1], ps[i]);
    }
  }

  /** A chain of offered updates never comes back to a version, or to an equal or older one. */
  lemma ChainNeverCycles(vs: seq<string>, i: nat, j: nat)
    requires UpdateChain(vs) && i < j < |vs|
    ensures Newer(vs[j], vs[i]) && !Newer(vs[i], vs[j]) && vs[i] != vs[j]
  {
    var ps := seq(|vs|, k requires 0 <= k < |vs| => Parsed(vs[k]).value);
    forall k | 0 <= k < |ps| - 1 ensures Rises(ps, k) { assert Newer(vs[k + 1], vs[k]); }
    ChainAscends(ps, i, j);
    GreaterAsymmetric(ps[j], ps[i]);
  }

  // ----- printing

  /** One part of a version text: a number, and what may follow it in a pre-release or build. */
  datatype Part = Part(number: nat, suffix: string)

  predicate IsSuffix(s: string) { s == [] || ((s[0] == '-' || s[0] == '+') && '.' !in s && !Space(s[|s| - 1])) }

  ghost predicate Printable(parts: seq<Part>) {
    parts != [] && forall i :: 0 <= i < |parts| ==> parts[i].number < TWO_63 && IsSuffix(parts[i].suffix)
  }

  function PartText(p: Part): string { FormatNat(p.number) + p.suffix }

  function Joined(parts: seq<Part>): string
    requires parts != []
  {
    if |parts| == 1 then PartText(parts[0]) else PartText(parts[0]) + ['.'] + Joined(parts[1..])
  }

  function Texts(parts: seq<Part>): seq<string> { seq(|parts|, i requires 0 <= i < |parts| => PartText(parts[i])) }

  function NumbersOf(parts: seq<Part>): seq<int> { seq(|parts|, i requires 0 <= i < |parts| => parts[i].number) }

  lemma PartEnds(p: Part)
    requires IsSuffix(p.suffix)
    ensures var t := PartText(p); t != [] && IsDigit(t[0]) && !Space(t[|t| - 1]) && '.' !in t
  {
    FormatNatValue(p.number);
  }

  lemma SplitFirst(head: string, rest: string)
    requires '.' !in head
    ensures Split(head, '.') == [head]
    ensures Split(head + ['.'] + rest, '.') == [head] + Split(rest, '.')
  {
    CutNone(head, '.');
    CutAt(head, '.', rest);
  }

  lemma {:induction false} SplitJoined(parts: seq<Part>)
    requires Printable(parts)
    ensures Split(Joined(parts), '.') == Texts(parts)
    decreases |parts|
  {
    PartEnds(parts[0]);
    if |parts| == 1 {
      SplitFirst(PartText(parts[0]), "");
    } else {
      SplitFirst(PartText(parts[0]), Joined(parts[1..]));
      SplitJoined(parts[1..]);
      TextsCons(parts);
    }
  }

  lemma TextsCons(parts: seq<Part>)
    requires parts != []
    ensures Texts(parts) == [PartText(parts[0])] + Texts(parts[1..])
  {
  }

  lemma {:induction false} JoinedEnds(parts: seq<Part>)
    requires Printable(parts)
    ensures var d := Joined(parts); d != [] && IsDigit(d[0]) && !Space(d[|d| - 1])
  {
    PartEnds(parts[0]);
    if |parts| > 1 { JoinedEnds(parts[1..]); }
  }

  lemma {:induction false} CoreCuts(digits: string, suffix: string)
    requires Digits(digits) && IsSuffix(suffix)
    ensures Core(digits + suffix) == digits
  {
    if digits == [] {
      assert digits + suffix == suffix;
    } else {
      CoreCuts(digits[1..], suffix);
      assert (digits + suffix)[1..] == digits[1..] + suffix;
    }
  }

  lemma PartNumber(p: Part)
    requires p.number < TWO_63 && IsSuffix(p.suffix)
    ensures PartValue(PartText(p)) == Some(p.number)
  {
    FormatNatValue(p.number);
    CoreCuts(FormatNat(p.number), p.suffix);
    AtoiFormat(p.number);
  }

  lemma NumbersOfTexts(parts: seq<Part>)
    requires Printable(parts)
    ensures Numbers(Texts(parts)) == Some(NumbersOf(parts))
  {
    forall i | 0 <= i < |parts| ensures PartValue(Texts(parts)[i]) == Some(NumbersOf(parts)[i]) {
      PartNumber(parts[i]);
    }
    NumbersAre(Texts(parts), NumbersOf(parts));
  }

  /**
   * Parsing inverts printing: blanks around the text, a "v" in front and
   * pre-release or build suffixes on the parts make no difference.
   */
  lemma ParseInvertsPrint(parts: seq<Part>, pre: string, v: string, post: string)
    requires Printable(parts) && Blank(pre) && Blank(post) && (v == "" || v == "v")
    ensures Parsed(pre + (v + Joined(parts)) + post) == Some(NumbersOf(parts))
  {
    var d := Joined(parts);
    SplitJoined(parts);
    JoinedEnds(parts);
    TrimBlanks(pre, v + d, post);
    assert Bare(pre + (v + d) + post) == d by { if v == "v" { assert (v + d)[1..] == d; } else { assert v + d == d; } }
    NumbersOfTexts(parts);
  }

  /** A text with nothing between blanks, or with a part that does not start with a number, is not a version. */
  lemma NotAVersion(head: string, rest: string)
    requires head != [] && !IsDigit(head[0]) && head[0] != 'v' && !Space(head[0]) && '.' !in head && rest != []
    requires !Space(rest[|rest| - 1]) && head[0] != '-' && head[0] != '+'
    ensures Parsed("") == None && Parsed(head + ['.'] + rest) == None
  {
    var t := head + ['.'] + rest;
    TrimNone(t);
    CutAt(head, '.', rest);
    assert Split(t, '.')[0] == head;
    assert Core(head)[0] == head[0];
    assert PartValue(Split(t, '.')[0]) == None;
  }

  function Plain(ns: seq<nat>): seq<Part> { seq(|ns|, i requires 0 <= i < |ns| => Part(ns[i], "")) }

  /** A dotted version, as releases are named. */
  function Dotted(ns: seq<nat>): string
    requires ns != []
  {
    Joined(Plain(ns))
  }

  lemma ParseDotted(ns: seq<nat>)
    requires ns != [] && forall i :: 0 <= i < |ns| ==> ns[i] < TWO_63
    ensures Parsed(Dotted(ns)) == Some(ns)
  {
    ParseInvertsPrint(Plain(ns), "", "", "");
    assert "" + ("" + Dotted(ns)) + "" == Dotted(ns);
    assert NumbersOf(Plain(ns)) == ns;
  }

  /** Of two releases, the newer is the one with the greater number at the first difference, whatever follows. */
  lemma FirstDifferenceDecides(common: seq<nat>, x: nat, xs: seq<nat>, y: nat, ys: seq<nat>)
    requires x != y && forall i :: 0 <= i < |common| ==> common[i] < TWO_63
    requires x < TWO_63 && forall i :: 0 <= i < |xs| ==> xs[i] < TWO_63
    requires y < TWO_63 && forall i :: 0 <= i < |ys| ==> ys[i] < TWO_63
    ensures Newer(Dotted(common + [x] + xs), Dotted(common + [y] + ys)) <==> x > y
  {
    var p, q, n := common + [x] + xs, common + [y] + ys, |common|;
    ParseDotted(p);
    ParseDotted(q);
    assert p[n] == x && q[n] == y;
    assert forall i :: 0 <= i < n ==> p[i] == common[i] == q[i];
    DecidedAt(p, q, n);
  }

  /** Without two versions to compare, any other non-empty text is offered. */
  lemma OfferedUnlessSame(a: string, b: string)
    requires Parsed(a).None? || Parsed(b).None?
    ensures Newer(a, b) <==> a != "" && a != b
  {
  }
}
