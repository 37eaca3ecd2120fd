/** Base64 of RFC 4648: the unpadded URL alphabet (section 5) and the padded standard one (section 4). */
module Base64 {
  import opened Octets

  datatype Alphabet = Standard | UrlSafe

  function Symbol(a: Alphabet, v: nat): char
    requires v < 64
  {
    if v < 26 then 'A' + v as char
    else if v < 52 then 'a' + (v - 26) as char
    else if v < 62 then '0' + (v - 52) as char
    else if v == 62 then (if a.UrlSafe? then '-' else '+')
    else (if a.UrlSafe? then '_' else '/')
  }

  function Sextet(a: Alphabet, c: char): (r: Option<nat>)
    ensures r.Some? ==> r.value < 64
  {
    if 'A' <= c <= 'Z' then Some(c as int - 'A' as int)
    else if 'a' <= c <= 'z' then Some(c as int - 'a' as int + 26)
    else if '0' <= c <= '9' then Some(c as int - '0' as int + 52)
    else if c == (if a.UrlSafe? then '-' else '+') then Some(62)
    else if c == (if a.UrlSafe? then '_' else '/') then Some(63)
    else None
  }

  /** How many values the unused low bits of the last symbol can take: an encoder writes 0, a decoder ignores them. */
  function Spare(n: nat): (k: nat)
    ensures k > 0
  {
    if n % 3 == 0 then 1 else if n % 3 == 1 then 16 else 4
  }

  /** The symbols of `b`, with `k` in the spare bits of a short last group. */
  function Spell(a: Alphabet, b: bytes, k: nat): string
    requires k < Spare(|b|)
  {
    if b == [] then []
    else if |b| == 1 then [Symbol(a, b[0] / 4), Symbol(a, b[0] % 4 * 16 + k)]
    else if |b| == 2 then [Symbol(a, b[0] / 4), Symbol(a, b[0] % 4 * 16 + b[1] / 16), Symbol(a, b[1] % 16 * 4 + k)]
    else Group(a, b[0], b[1], b[2]) + Spell(a, b[3..], k)
  }

  function Group(a: Alphabet, x: byte, y: byte, z: byte): string {
    [Symbol(a, x / 4), Symbol(a, x % 4 * 16 + y / 16), Symbol(a, y % 16 * 4 + z / 64), Symbol(a, z % 64)]
  }

  /** EncodeToString without padding. */
  function EncodeRaw(a: Alphabet, b: bytes): string { Spell(a, b, 0) }

  function Unfolded(s: string): string {
    if s == [] then [] else (if s[0] == '\r' || s[0] == '\n' then [] else [s[0]]) + Unfolded(s[1..])
  }

  /** Decoding without padding: line breaks are skipped, spare low bits of a short last group are ignored. */
  function DecodeRaw(a: Alphabet, s: string): Option<bytes> { Groups(a, Unfolded(s)) }

  function Groups(a: Alphabet, s: string): Option<bytes> {
    if s == [] then Some([])
    else if |s| == 1 then None
    else
      match (Sextet(a, s[0]), Sextet(a, s[1]))
      case (Some(v0), Some(v1)) =>
        if |s| == 2 then Some([First(v0, v1)])
        else
          (match Sextet(a, s[2])
           case None => None
           case Some(v2) =>
             if |s| == 3 then Some([First(v0, v1), Second(v1, v2)])
             else
               match (Sextet(a, s[3]), Groups(a, s[4..]))
               case (Some(v3), Some(rest)) => Some([First(v0, v1), Second(v1, v2), Third(v2, v3)] + rest)
               case _ => None)
      case _ => None
  }

  function First(v0: nat, v1: nat): byte
    requires v0 < 64 && v1 < 64
  {
    v0 * 4 + v1 / 16
  }

  function Second(v1: nat, v2: nat): byte
    requires v1 < 64 && v2 < 64
  {
    v1 % 16 * 16 + v2 / 4
  }

  function Third(v2: nat, v3: nat): byte
    requires v2 < 64 && v3 < 64
  {
    v2 % 4 * 64 + v3
  }

  lemma SextetSymbol(a: Alphabet, v: nat)
    requires v < 64
    ensures Sextet(a, Symbol(a, v)) == Some(v)
    ensures Symbol(a, v) != '\r' && Symbol(a, v) != '\n' && Symbol(a, v) != '='
  {
  }

  lemma {:induction false} UnfoldedId(s: string)
    requires '\r' !in s && '\n' !in s
    ensures Unfolded(s) == s
  {
    if s != [] { UnfoldedId(s[1..]); }
  }

  ghost predicate Symbols(a: Alphabet, s: string) {
    forall i :: 0 <= i < |s| ==> Sextet(a, s[i]).Some?
  }

  lemma SymbolSextet(a: Alphabet, c: char)
    requires Sextet(a, c).Some?
    ensures Symbol(a, Sextet(a, c).value) == c && c != '='
  {
  }

  /** How many symbols `n` bytes take. */
  function SymbolCount(n: nat): nat {
    if n == 0 then 0 else if n < 3 then n + 1 else 4 + SymbolCount(n - 3)
  }

  lemma {:induction false} SpellSymbols(a: Alphabet, b: bytes, k: nat)
    requires k < Spare(|b|)
    ensures Symbols(a, Spell(a, b, k)) && |Spell(a, b, k)| == SymbolCount(|b|)
  {
    if |b| == 1 {
      SextetSymbol(a, b[0] / 4); SextetSymbol(a, b[0] % 4 * 16 + k);
    } else if |b| == 2 {
      SextetSymbol(a, b[0] / 4); SextetSymbol(a, b[0] % 4 * 16 + b[1] / 16); SextetSymbol(a, b[1] % 16 * 4 + k);
    } else if |b| > 2 {
      SextetSymbol(a, b[0] / 4); SextetSymbol(a, b[0] % 4 * 16 + b[1] / 16);
      SextetSymbol(a, b[1] % 16 * 4 + b[2] / 64); SextetSymbol(a, b[2] % 64);
      SpellSymbols(a, b[3..], k);
    }
  }

  // ----- decoding a spelling

  lemma SplitFirst(x: byte, k: nat)
    requires k < 16
    ensures First(x / 4, x % 4 * 16 + k) == x
  {
  }

  lemma SplitSecond(x: byte, y: byte, k: nat)
    requires k < 4
    ensures Second(x % 4 * 16 + y / 16, y % 16 * 4 + k) == y
  {
    LowPart(x % 4, y / 16, 16);
    LowPart(y % 16, k, 4);
  }

  /** A value put together from a high and a low part comes apart again. */
  lemma LowPart(high: nat, low: nat, m: nat)
    requires low < m && (m == 4 || m == 16 || m == 64)
    ensures (high * m + low) / m == high && (high * m + low) % m == low
  {
  }

  lemma SplitThird(y: byte, z: byte)
    ensures Third(y % 16 * 4 + z / 64, z % 64) == z
  {
  }

  lemma OneByte(a: Alphabet, x: byte, k: nat)
    requires k < 16
    ensures Groups(a, Spell(a, [x], k)) == Some([x])
  {
    SextetSymbol(a, x / 4); SextetSymbol(a, x % 4 * 16 + k);
    SplitFirst(x, k);
  }

  lemma TwoBytes(a: Alphabet, x: byte, y: byte, k: nat)
    requires k < 4
    ensures Groups(a, Spell(a, [x, y], k)) == Some([x, y])
  {
    SextetSymbol(a, x / 4); SextetSymbol(a, x % 4 * 16 + y / 16); SextetSymbol(a, y % 16 * 4 + k);
    SplitFirst(x, y / 16);
    SplitSecond(x, y, k);
  }

  /** A full group decodes to its three bytes in front of what follows. */
  lemma FullGroup(a: Alphabet, x: byte, y: byte, z: byte, t: string)
    requires Groups(a, t).Some?
    ensures Groups(a, Group(a, x, y, z) + t) == Some([x, y, z] + Groups(a, t).value)
  {
    SextetSymbol(a, x / 4); SextetSymbol(a, x % 4 * 16 + y / 16);
    SextetSymbol(a, y % 16 * 4 + z / 64); SextetSymbol(a, z % 64);
    SplitFirst(x, y / 16);
    SplitSecond(x, y, z / 64);
    SplitThird(y, z);
    assert (Group(a, x, y, z) + t)[4..] == t;
  }

  /** Whatever the spare bits hold, the bytes come back. */
  lemma {:induction false} GroupsSpell(a: Alphabet, b: bytes, k: nat)
    requires k < Spare(|b|)
    ensures Groups(a, Spell(a, b, k)) == Some(b)
  {
    if |b| == 1 {
      OneByte(a, b[0], k);
      assert b == [b[0]];
    } else if |b| == 2 {
      TwoBytes(a, b[0], b[1], k);
      assert b == [b[0], b[1]];
    } else if |b| > 2 {
      GroupsSpell(a, b[3..], k);
      GroupsSpellFull(a, b[..3], b[3..], k);
      assert b == b[..3] + b[3..];
    }
  }

  lemma GroupsSpellFull(a: Alphabet, head: bytes, rest: bytes, k: nat)
    requires |head| == 3 && k < Spare(|rest|) && Groups(a, Spell(a, rest, k)) == Some(rest)
    ensures k < Spare(|head + rest|) && Groups(a, Spell(a, head + rest, k)) == Some(head + rest)
  {
    SpellFull(a, head, rest, k);
    FullGroup(a, head[0], head[1], head[2], Spell(a, rest, k));
    assert head == [head[0], head[1], head[2]];
  }

  /** Decoding inverts encoding, for every byte string. */
  lemma DecodeEncode(a: Alphabet, b: bytes)
    ensures DecodeRaw(a, EncodeRaw(a, b)) == Some(b)
  {
    SpellSymbols(a, b, 0);
    UnfoldedId(EncodeRaw(a, b));
    GroupsSpell(a, b, 0);
  }

  // ----- spelling what was decoded

  /** The spare bits of a text that decodes to `n` bytes. */
  function SpareOf(a: Alphabet, s: string, n: nat): (k: nat)
    requires Symbols(a, s) && (n % 3 != 0 ==> s != [])
    ensures k < Spare(n)
  {
    if n % 3 == 0 then 0 else Sextet(a, s[|s| - 1]).value % Spare(n)
  }

  lemma {:induction false} GroupsSymbols(a: Alphabet, s: string)
    requires Groups(a, s).Some?
    ensures Symbols(a, s) && (s == [] <==> Groups(a, s).value == [])
    decreases |s|
  {
    if |s| >= 4 {
      GroupsSymbols(a, s[4..]);
      assert forall i :: 4 <= i < |s| ==> s[i] == s[4..][i - 4];
    }
  }

  lemma JoinSextets(v0: nat, v1: nat, v2: nat, v3: nat)
    requires v0 < 64 && v1 < 64 && v2 < 64 && v3 < 64
    ensures First(v0, v1) / 4 == v0 && First(v0, v1) % 4 * 16 + v1 % 16 == v1
    ensures First(v0, v1) % 4 * 16 + Second(v1, v2) / 16 == v1
    ensures Second(v1, v2) % 16 * 4 + v2 % 4 == v2
    ensures Second(v1, v2) % 16 * 4 + Third(v2, v3) / 64 == v2 && Third(v2, v3) % 64 == v3
  {
    LowPart(v0, v1 / 16, 4);
    LowPart(v1 % 16, v2 / 4, 16);
    LowPart(v2 % 4, v3, 64);
  }

  /** A text that decodes to `b` is a spelling of `b`. */
  lemma {:induction false} GroupsAreSpelling(a: Alphabet, s: string)
    requires Groups(a, s).Some?
    ensures Symbols(a, s) && (s == [] <==> Groups(a, s).value == [])
    ensures var b := Groups(a, s).value; s == Spell(a, b, SpareOf(a, s, |b|))
    decreases |s|
  {
    GroupsSymbols(a, s);
    if |s| == 2 || |s| == 3 {
      ShortSpelling(a, s);
    } else if |s| >= 4 {
      GroupsAreSpelling(a, s[4..]);
      LongSpelling(a, s, Groups(a, s[4..]).value);
    }
  }

  lemma LongSpelling(a: Alphabet, s: string, rest: bytes)
    requires |s| >= 4 && Groups(a, s).Some? && Groups(a, s[4..]) == Some(rest) && Symbols(a, s)
    requires Symbols(a, s[4..]) && (s[4..] == [] <==> rest == [])
    requires s[4..] == Spell(a, rest, SpareOf(a, s[4..], |rest|))
    ensures var b := Groups(a, s).value; b != [] && s == Spell(a, b, SpareOf(a, s, |b|))
  {
    var head := FullSpelling(a, s);
    SameSpare(a, s, |rest|);
    SpellFull(a, head, rest, SpareOf(a, s[4..], |rest|));
  }

  lemma SpellFull(a: Alphabet, head: bytes, rest: bytes, k: nat)
    requires |head| == 3 && k < Spare(|rest|)
    ensures |head + rest| == |rest| + 3 && Spare(|rest|) == Spare(|rest| + 3)
    ensures Spell(a, head + rest, k) == Group(a, head[0], head[1], head[2]) + Spell(a, rest, k)
  {
    assert (head + rest)[3..] == rest;
  }

  lemma SameSpare(a: Alphabet, s: string, n: nat)
    requires |s| >= 4 && Symbols(a, s) && Symbols(a, s[4..]) && (n % 3 != 0 ==> s[4..] != [])
    ensures SpareOf(a, s, n + 3) == SpareOf(a, s[4..], n)
  {
  }

  lemma ShortSpelling(a: Alphabet, s: string)
    requires Groups(a, s).Some? && Symbols(a, s) && 2 <= |s| <= 3
    ensures var b := Groups(a, s).value; |b| == |s| - 1 && s == Spell(a, b, SpareOf(a, s, |b|))
  {
    if |s| == 2 {
      OneByteBack(a, s, Sextet(a, s[0]).value, Sextet(a, s[1]).value);
    } else {
      TwoBytesBack(a, s, Sextet(a, s[0]).value, Sextet(a, s[1]).value, Sextet(a, s[2]).value);
    }
  }

  lemma SpellShort(a: Alphabet, x: byte, y: byte, j: nat, k: nat)
    requires j < 16 && k < 4
    ensures Spell(a, [x], j) == [Symbol(a, x / 4), Symbol(a, x % 4 * 16 + j)]
    ensures Spell(a, [x, y], k) == [Symbol(a, x / 4), Symbol(a, x % 4 * 16 + y / 16), Symbol(a, y % 16 * 4 + k)]
  {
  }

  lemma ShortBack(a: Alphabet, v0: nat, v1: nat, v2: nat)
    requires v0 < 64 && v1 < 64 && v2 < 64
    ensures Spell(a, [First(v0, v1)], v1 % 16) == [Symbol(a, v0), Symbol(a, v1)]
    ensures Spell(a, [First(v0, v1), Second(v1, v2)], v2 % 4) == [Symbol(a, v0), Symbol(a, v1), Symbol(a, v2)]
  {
    var x, y := First(v0, v1), Second(v1, v2);
    SpellShort(a, x, y, v1 % 16, v2 % 4);
    assert x / 4 == v0 && x % 4 * 16 + v1 % 16 == v1 && x % 4 * 16 + y / 16 == v1 && y % 16 * 4 + v2 % 4 == v2 by {
      JoinSextets(v0, v1, v2, 0);
    }
  }

  lemma OneByteBack(a: Alphabet, s: string, v0: nat, v1: nat)
    requires |s| == 2 && Sextet(a, s[0]) == Some(v0) && Sextet(a, s[1]) == Some(v1)
    ensures s == Spell(a, [First(v0, v1)], v1 % 16)
  {
    ShortBack(a, v0, v1, 0);
    SymbolSextet(a, s[0]); SymbolSextet(a, s[1]);
  }

  lemma TwoBytesBack(a: Alphabet, s: string, v0: nat, v1: nat, v2: nat)
    requires |s| == 3 && Sextet(a, s[0]) == Some(v0) && Sextet(a, s[1]) == Some(v1) && Sextet(a, s[2]) == Some(v2)
    ensures s == Spell(a, [First(v0, v1), Second(v1, v2)], v2 % 4)
  {
    ShortBack(a, v0, v1, v2);
    SymbolSextet(a, s[0]); SymbolSextet(a, s[1]); SymbolSextet(a, s[2]);
  }

  /** The bytes of the first full group, and the group back from them. */
  lemma FullSpelling(a: Alphabet, s: string) returns (head: bytes)
    requires |s| >= 4 && Groups(a, s).Some?
    ensures |head| == 3 && Groups(a, s[4..]).Some? && Groups(a, s).value == head + Groups(a, s[4..]).value
    ensures s == Group(a, head[0], head[1], head[2]) + s[4..]
  {
    var v0, v1, v2, v3 := Sextet(a, s[0]).value, Sextet(a, s[1]).value, Sextet(a, s[2]).value, Sextet(a, s[3]).value;
    head := [First(v0, v1), Second(v1, v2), Third(v2, v3)];
    HeadBack(a, s, v0, v1, v2, v3);
  }

  lemma HeadBack(a: Alphabet, s: string, v0: nat, v1: nat, v2: nat, v3: nat)
    requires |s| >= 4 && Sextet(a, s[0]) == Some(v0) && Sextet(a, s[1]) == Some(v1)
    requires Sextet(a, s[2]) == Some(v2) && Sextet(a, s[3]) == Some(v3)
    ensures s == Group(a, First(v0, v1), Second(v1, v2), Third(v2, v3)) + s[4..]
  {
    GroupBack(a, v0, v1, v2, v3);
    SymbolSextet(a, s[0]); SymbolSextet(a, s[1]); SymbolSextet(a, s[2]); SymbolSextet(a, s[3]);
    assert s == [s[0], s[1], s[2], s[3]] + s[4..];
  }

  lemma GroupBack(a: Alphabet, v0: nat, v1: nat, v2: nat, v3: nat)
    requires v0 < 64 && v1 < 64 && v2 < 64 && v3 < 64
    ensures Group(a, First(v0, v1), Second(v1, v2), Third(v2, v3))
            == [Symbol(a, v0), Symbol(a, v1), Symbol(a, v2), Symbol(a, v3)]
  {
    JoinSextets(v0, v1, v2, v3);
  }

  lemma SymbolInjective(a: Alphabet, v: nat, w: nat)
    requires v < 64 && w < 64 && Symbol(a, v) == Symbol(a, w)
    ensures v == w
  {
    SextetSymbol(a, v);
    SextetSymbol(a, w);
  }

  lemma {:induction false} SpellInjective(a: Alphabet, b: bytes, k: nat, m: nat)
    requires k < Spare(|b|) && m < Spare(|b|) && Spell(a, b, k) == Spell(a, b, m)
    ensures k == m
  {
    if |b| == 1 {
      SymbolInjective(a, b[0] % 4 * 16 + k, b[0] % 4 * 16 + m);
    } else if |b| == 2 {
      SymbolInjective(a, b[1] % 16 * 4 + k, b[1] % 16 * 4 + m);
    } else if |b| > 2 {
      SpellRest(a, b, k);
      SpellRest(a, b, m);
      SpellInjective(a, b[3..], k, m);
    }
  }

  lemma SpellRest(a: Alphabet, b: bytes, k: nat)
    requires |b| > 2 && k < Spare(|b|)
    ensures k < Spare(|b[3..]|) && |Spell(a, b, k)| >= 4 && Spell(a, b, k)[4..] == Spell(a, b[3..], k)
  {
  }

  // ----- the padded standard encoding

  function Padding(n: nat): string { if n % 3 == 1 then "==" else if n % 3 == 2 then "=" else "" }

  function EncodeStd(b: bytes): string { EncodeRaw(Standard, b) + Padding(|b|) }

  function Unpadded(s: string): string {
    if |s| >= 2 && s[|s| - 2] == '=' && s[|s| - 1] == '=' then s[..|s| - 2]
    else if |s| >= 1 && s[|s| - 1] == '=' then s[..|s| - 1]
    else s
  }

  /** DecodeString of the padded encoding, which is not strict: as DecodeRaw, on whole groups of four. */
  function DecodeStd(s: string): Option<bytes> {
    var t := Unfolded(s);
    if |t| % 4 != 0 then None else Groups(Standard, Unpadded(t))
  }

  function Spelling(b: bytes, k: nat): string
    requires k < Spare(|b|)
  {
    Spell(Standard, b, k) + Padding(|b|)
  }

  lemma SpellingDecodes(b: bytes, k: nat)
    requires k < Spare(|b|)
    ensures |Spelling(b, k)| % 4 == 0 && Groups(Standard, Unpadded(Spelling(b, k))) == Some(b)
    ensures '\r' !in Spelling(b, k) && '\n' !in Spelling(b, k)
  {
    GroupsSpell(Standard, b, k);
    SpellLength(b, k);
    UnpaddedSymbols(Spell(Standard, b, k), |b|);
  }

  lemma UnpaddedSymbols(s: string, n: nat)
    requires Symbols(Standard, s)
    ensures Unpadded(s + Padding(n)) == s && '\r' !in s + Padding(n) && '\n' !in s + Padding(n)
  {
    assert Sextet(Standard, '=').None?;
    var t := s + Padding(n);
    assert |Padding(n)| == if n % 3 == 1 then 2 else if n % 3 == 2 then 1 else 0;
    assert t[..|s|] == s;
  }

  /** Padding is as long as the last group needs. */
  lemma PaddingFits(t: string, n: nat)
    requires |t| % 4 == 0 && (|Unpadded(t)| + |Padding(n)|) % 4 == 0
    ensures t == Unpadded(t) + Padding(n)
  {
    var u := Unpadded(t);
    assert |u| <= |t| <= |u| + 2 && t[..|u|] == u;
    assert |t| - |u| == |Padding(n)|;
  }

  lemma SpellLength(b: bytes, k: nat)
    requires k < Spare(|b|)
    ensures Symbols(Standard, Spell(Standard, b, k)) && (|Spell(Standard, b, k)| + |Padding(|b|)|) % 4 == 0
  {
    SpellSymbols(Standard, b, k);
    CountPads(|b|);
  }

  lemma {:induction false} CountPads(n: nat)
    ensures (SymbolCount(n) + |Padding(n)|) % 4 == 0
  {
    if n >= 3 {
      CountPads(n - 3);
      assert n % 3 == (n - 3) % 3;
    }
  }

  /**
   * Which texts decode to `b`: its spellings, one for each value of the spare
   * bits, with line breaks anywhere.
   */
  lemma TextsOf(s: string, b: bytes)
    ensures DecodeStd(s) == Some(b) <==> exists k :: 0 <= k < Spare(|b|) && Unfolded(s) == Spelling(b, k)
  {
    if DecodeStd(s) == Some(b) { var k := SpellingOf(Unfolded(s), b); }
    if k: nat :| k < Spare(|b|) && Unfolded(s) == Spelling(b, k) { SpellingDecodes(b, k); }
  }

  lemma SpellingOf(t: string, b: bytes) returns (k: nat)
    requires |t| % 4 == 0 && Groups(Standard, Unpadded(t)) == Some(b)
    ensures k < Spare(|b|) && t == Spelling(b, k)
  {
    var u := Unpadded(t);
    GroupsAreSpelling(Standard, u);
    k := SpareOf(Standard, u, |b|);
    PaddedBack(t, b, k);
  }

  lemma PaddedBack(t: string, b: bytes, k: nat)
    requires |t| % 4 == 0 && k < Spare(|b|) && Unpadded(t) == Spell(Standard, b, k)
    ensures t == Spelling(b, k)
  {
    SpellLength(b, k);
    PaddingFits(t, |b|);
  }

  lemma DecodeStdSpelling(b: bytes, k: nat)
    requires k < Spare(|b|)
    ensures DecodeStd(Spelling(b, k)) == Some(b)
  {
    SpellingDecodes(b, k);
    UnfoldedId(Spelling(b, k));
  }

  /** Only with nothing in the spare bits is it what the encoder writes. */
  lemma EncoderSpelling(b: bytes, k: nat)
    requires k < Spare(|b|)
    ensures Spelling(b, k) == EncodeStd(b) <==> k == 0
  {
    if Spelling(b, k) == EncodeStd(b) {
      SpellSymbols(Standard, b, k);
      SpellSymbols(Standard, b, 0);
      assert Spelling(b, k)[..|Spell(Standard, b, k)|] == EncodeStd(b)[..|Spell(Standard, b, 0)|];
      SpellInjective(Standard, b, k, 0);
    }
  }

  /** Another text of the same bytes. */
  lemma Respelled(b: bytes, k: nat) returns (t: string)
    requires 0 < k < Spare(|b|)
    ensures t == Spelling(b, k) && DecodeStd(t) == Some(b) && t != EncodeStd(b)
  {
    t := Spelling(b, k);
    DecodeStdSpelling(b, k);
    EncoderSpelling(b, k);
  }

  /** The text is the one the encoder writes for what it decodes to. */
  predicate Canonical(s: string) { DecodeStd(s).Some? && s == EncodeStd(DecodeStd(s).value) }

  lemma EncodeStdInjective(b: bytes, c: bytes)
    requires EncodeStd(b) == EncodeStd(c)
    ensures b == c
  {
    DecodeStdSpelling(b, 0);
    DecodeStdSpelling(c, 0);
  }

  // ----- the encoding of RFC 4648

  lemma SixBits(x: int, y: int, z: int)
    requires 0 <= x < 256 && 0 <= y < 256 && 0 <= z < 256
    ensures var n := x * 65536 + y * 256 + z;
            n / 262144 == x / 4 && n / 4096 % 64 == x % 4 * 16 + y / 16
            && n / 64 % 64 == y % 16 * 4 + z / 64 && n % 64 == z % 64
  {
    var n := x * 65536 + y * 256 + z;
    var v0, v1, v2, v3 := x / 4, x % 4 * 16 + y / 16, y % 16 * 4 + z / 64, z % 64;
    assert n == ((v0 * 64 + v1) * 64 + v2) * 64 + v3;
    LowPart((v0 * 64 + v1) * 64 + v2, v3, 64);
    LowPart(v0 * 64 + v1, v2, 64);
    LowPart(v0, v1, 64);
    assert n / 64 == (v0 * 64 + v1) * 64 + v2;
    assert n / 4096 == n / 64 / 64 && n / 262144 == n / 4096 / 64;
  }

  /** Three bytes are a 24-bit number, most significant byte first, written as four six-bit digits of the alphabet. */
  lemma GroupDigits(a: Alphabet, x: byte, y: byte, z: byte)
    ensures var n: int := (x as int) * 65536 + (y as int) * 256 + z as int;
            EncodeRaw(a, [x, y, z])
            == [Symbol(a, n / 262144), Symbol(a, n / 4096 % 64), Symbol(a, n / 64 % 64), Symbol(a, n % 64)]
  {
    SixBits(x, y, z);
    assert Spell(a, [x, y, z], 0) == Group(a, x, y, z) + Spell(a, [], 0);
  }

  /** The test vectors of section 10, up to a group and a half. */
  lemma TestVectors()
    ensures EncodeStd([]) == "" && EncodeStd([102]) == "Zg==" && EncodeStd([102, 111]) == "Zm8="
    ensures EncodeStd([102, 111, 111]) == "Zm9v"
  {
  }

  /** The two last symbols of each alphabet. */
  lemma LastSymbols()
    ensures EncodeRaw(Standard, [251, 239, 190]) == "++++" && EncodeRaw(Standard, [255, 255, 255]) == "////"
    ensures EncodeRaw(UrlSafe, [251, 239, 190]) == "----" && EncodeRaw(UrlSafe, [255, 255, 255]) == "____"
  {
  }
}
