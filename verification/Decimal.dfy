/** Signed decimal text: strconv.FormatInt / Itoa, and strconv.Atoi for a 64-bit int. */
module Decimal {
  import opened Octets

  function Digit(d: nat): char
    requires d < 10
  {
    '0' + d as char
  }

  predicate IsDigit(c: char) { '0' <= c <= '9' }

  function FormatNat(n: nat): string {
    if n < 10 then [Digit(n)] else FormatNat(n / 10) + [Digit(n % 10)]
  }

  function FormatInt(n: int): string {
    if n < 0 then ['-'] + FormatNat(-n) else FormatNat(n)
  }

  predicate Digits(s: string) { forall i :: 0 <= i < |s| ==> IsDigit(s[i]) }

  function Value(s: string): nat
    requires Digits(s)
  {
    if s == [] then 0 else Value(s[..|s| - 1]) * 10 + (s[|s| - 1] as int - '0' as int)
  }

  /** An optional sign, at least one digit, nothing else, and a value that fits an int64. */
  function Atoi(s: string): Option<int> {
    var signed := s != [] && (s[0] == '-' || s[0] == '+');
    var digits := if signed then s[1..] else s;
    if digits == [] || !Digits(digits) then None
    else
      var n: int := if signed && s[0] == '-' then -(Value(digits) as int) else Value(digits);
      if -TWO_63 <= n < TWO_63 then Some(n) else None
  }

  lemma {:induction false} FormatNatValue(n: nat)
    ensures FormatNat(n) != [] && Digits(FormatNat(n)) && Value(FormatNat(n)) == n
  {
    var s := FormatNat(n);
    if n < 10 {
      assert s[..0] == [];
    } else {
      FormatNatValue(n / 10);
      assert s[..|s| - 1] == FormatNat(n / 10);
    }
  }

  /** Printing and reading back is the identity on every int64; no other number is read. */
  lemma AtoiFormat(n: int)
    ensures Atoi(FormatInt(n)) == if -TWO_63 <= n < TWO_63 then Some(n) else None
  {
    if n < 0 { AtoiSigned('-', -n); } else { AtoiUnsigned(n); }
  }

  lemma AtoiSigned(sign: char, n: nat)
    requires sign == '-' || sign == '+'
    ensures var v: int := if sign == '-' then -(n as int) else n;
            Atoi([sign] + FormatNat(n)) == if -TWO_63 <= v < TWO_63 then Some(v) else None
  {
    FormatNatValue(n);
    assert ([sign] + FormatNat(n))[1..] == FormatNat(n);
  }

  lemma AtoiUnsigned(n: nat)
    ensures Atoi(FormatNat(n)) == if n < TWO_63 then Some(n) else None
  {
    FormatNatValue(n);
    assert IsDigit(FormatNat(n)[0]);
  }

  /** A plus sign may stand in front. */
  lemma AtoiPlus(n: nat)
    requires n < TWO_63
    ensures Atoi("+" + FormatNat(n)) == Some(n)
  {
    AtoiSigned('+', n);
  }

  /** Nothing but digits may follow, and at least one must. */
  lemma AtoiRejects(s: string, i: nat)
    ensures Atoi("") == None && Atoi("-") == None && Atoi("+") == None
    ensures 0 < i < |s| && !IsDigit(s[i]) ==> Atoi(s) == None
    ensures s != [] && !IsDigit(s[0]) && s[0] != '-' && s[0] != '+' ==> Atoi(s) == None
  {
    if 0 < i < |s| && !IsDigit(s[i]) { assert s[1..][i - 1] == s[i]; }
  }

  /** Signed decimal printing is injective on all integers. */
  lemma FormatInjective(m: int, n: int)
    requires FormatInt(m) == FormatInt(n)
    ensures m == n
  {
    FormatNatValue(if m < 0 then -m else m);
    FormatNatValue(if n < 0 then -n else n);
    var s := FormatInt(m);
    if m < 0 { assert s[0] == '-' && s[1..] == FormatNat(-m); }
    if n < 0 { assert s[0] == '-' && s[1..] == FormatNat(-n); }
  }

  /** Decimal text is made of digits and a minus sign only. */
  lemma FormatAlphabet(n: int, i: nat)
    requires i < |FormatInt(n)|
    ensures IsDigit(FormatInt(n)[i]) || FormatInt(n)[i] == '-'
  {
    FormatNatValue(if n < 0 then -n else n);
  }
}
