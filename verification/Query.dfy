/** Query strings as net/url writes and reads them: escaping, Values.Encode and Values.Get. */
module Query {
  import opened Octets

  /** Go strings are byte strings: one character per byte. */
  ghost predicate ByteString(s: string) { forall i :: 0 <= i < |s| ==> s[i] as int < 256 }

  predicate Unreserved(c: char) {
    'a' <= c <= 'z' || 'A' <= c <= 'Z' || '0' <= c <= '9' || c == '-' || c == '_' || c == '.' || c == '~'
  }

  function Hex(v: nat): char
    requires v < 16
  {
    if v < 10 then '0' + v as char else 'A' + (v - 10) as char
  }

  function Unhex(c: char): (r: Option<nat>)
    ensures r.Some? ==> r.value < 16
  {
    if '0' <= c <= '9' then Some(c as int - '0' as int)
    else if 'a' <= c <= 'f' then Some(c as int - 'a' as int + 10)
    else if 'A' <= c <= 'F' then Some(c as int - 'A' as int + 10)
    else None
  }

  function EscapeChar(c: char): string {
    if Unreserved(c) then [c]
    else if c == ' ' then ['+']
    else ['%', Hex(c as int / 16 % 16), Hex(c as int % 16)]
  }

  function Escape(s: string): string {
    if s == [] then [] else EscapeChar(s[0]) + Escape(s[1..])
  }

  function Prepend(c: char, r: Option<string>): Option<string> {
    match r
    case None => None
    case Some(t) => Some([c] + t)
  }

  function Unescape(s: string): Option<string> {
    if s == [] then Some([])
    else if s[0] == '%' then
      if |s| < 3 then None
      else
        match (Unhex(s[1]), Unhex(s[2]))
        case (Some(hi), Some(lo)) => Prepend((hi * 16 + lo) as char, Unescape(s[3..]))
        case _ => None
    else Prepend(if s[0] == '+' then ' ' else s[0], Unescape(s[1..]))
  }

  // ----- key=value pairs

  datatype Pair = Pair(key: string, value: string)

  function Segment(p: Pair): string { Escape(p.key) + ['='] + Escape(p.value) }

  /** Values.Encode over pairs already in key order. */
  function Encode(pairs: seq<Pair>): string {
    if pairs == [] then []
    else if |pairs| == 1 then Segment(pairs[0])
    else Segment(pairs[0]) + ['&'] + Encode(pairs[1..])
  }

  /** strings.Cut around the first `c`. */
  function Cut(s: string, c: char): (r: (string, string, bool))
    ensures |r.0| + |r.1| <= |s| && (s != [] ==> |r.1| < |s|)
  {
    if s == [] then ([], [], false)
    else if s[0] == c then ([], s[1..], true)
    else
      var (before, after, found) := Cut(s[1..], c);
      ([s[0]] + before, after, found)
  }

  /** The decoded pair of one segment; none if it is empty, has a semicolon or a bad escape. */
  function ParseSegment(seg: string): Option<Pair> {
    if seg == [] || ';' in seg then None
    else
      var (k, v, _) := Cut(seg, '=');
      match (Unescape(k), Unescape(v))
      case (Some(key), Some(value)) => Some(Pair(key, value))
      case _ => None
  }

  /** The first value under `key`, or the empty string: ParseQuery, then Values.Get. */
  function Get(query: string, key: string): string
    decreases |query|
  {
    if query == [] then []
    else
      var (seg, rest, _) := Cut(query, '&');
      match ParseSegment(seg)
      case Some(p) => if p.key == key then p.value else Get(rest, key)
      case None => Get(rest, key)
  }

  function Lookup(pairs: seq<Pair>, key: string): string {
    if pairs == [] then [] else if pairs[0].key == key then pairs[0].value else Lookup(pairs[1..], key)
  }

  // ----- properties

  /** Escaped text is unreserved characters, plus and percent signs. */
  predicate EscapedChar(c: char) { Unreserved(c) || c == '+' || c == '%' }

  predicate EscapedText(s: string) { forall i :: 0 <= i < |s| ==> EscapedChar(s[i]) }

  lemma {:induction false} EscapeText(s: string)
    ensures EscapedText(Escape(s))
  {
    if s != [] { EscapeText(s[1..]); }
  }

  lemma UnescapeStep(c: char, t: string)
    requires c as int < 256
    ensures Unescape(EscapeChar(c) + t) == Prepend(c, Unescape(t))
  {
    var s := EscapeChar(c) + t;
    if Unreserved(c) || c == ' ' {
      assert s[1..] == t;
    } else {
      HexRoundTrip(c);
      assert s[3..] == t;
    }
  }

  lemma HexRoundTrip(c: char)
    requires c as int < 256
    ensures var n := c as int; Unhex(Hex(n / 16 % 16)) == Some(n / 16) && Unhex(Hex(n % 16)) == Some(n % 16)
    ensures var n := c as int; (n / 16 * 16 + n % 16) as char == c
  {
  }

  /** Unescaping inverts escaping on every byte string. */
  lemma {:induction false} UnescapeEscape(s: string)
    requires ByteString(s)
    ensures Unescape(Escape(s)) == Some(s)
  {
    if s != [] {
      UnescapeEscape(s[1..]);
      UnescapeStep(s[0], Escape(s[1..]));
      assert s == [s[0]] + s[1..];
    }
  }

  lemma {:induction false} CutAt(a: string, c: char, b: string)
    requires c !in a
    ensures Cut(a + [c] + b, c) == (a, b, true)
  {
    var s := a + [c] + b;
    if a == [] {
      assert s[1..] == b;
    } else {
      CutAt(a[1..], c, b);
      assert s[1..] == a[1..] + [c] + b;
      assert a == [a[0]] + a[1..];
    }
  }

  lemma {:induction false} CutNone(a: string, c: char)
    requires c !in a
    ensures Cut(a, c) == (a, [], false)
  {
    if a != [] {
      CutNone(a[1..], c);
      assert a == [a[0]] + a[1..];
    }
  }

  lemma SegmentText(p: Pair)
    ensures '=' !in Escape(p.key) && ';' !in Segment(p) && '&' !in Segment(p) && Segment(p) != []
  {
    EscapeText(p.key);
    EscapeText(p.value);
  }

  lemma ParseSegmentOf(p: Pair)
    requires ByteString(p.key) && ByteString(p.value)
    ensures ParseSegment(Segment(p)) == Some(p) && '&' !in Segment(p)
  {
    var seg := Segment(p);
    SegmentText(p);
    CutAt(Escape(p.key), '=', Escape(p.value));
    assert Cut(seg, '=') == (Escape(p.key), Escape(p.value), true);
    UnescapeEscape(p.key);
    UnescapeEscape(p.value);
  }

  /** Getting a key from an encoded query finds exactly what was put under it. */
  lemma {:induction false} GetEncode(pairs: seq<Pair>, key: string)
    requires forall i :: 0 <= i < |pairs| ==> ByteString(pairs[i].key) && ByteString(pairs[i].value)
    ensures Get(Encode(pairs), key) == Lookup(pairs, key)
  {
    if |pairs| == 1 {
      ParseSegmentOf(pairs[0]);
      CutNone(Segment(pairs[0]), '&');
    } else if |pairs| > 1 {
      ParseSegmentOf(pairs[0]);
      CutAt(Segment(pairs[0]), '&', Encode(pairs[1..]));
      GetEncode(pairs[1..], key);
    }
  }

  predicate QueryText(s: string) { forall i :: 0 <= i < |s| ==> EscapedChar(s[i]) || s[i] == '&' || s[i] == '=' }

  lemma {:induction false} EncodeText(pairs: seq<Pair>)
    ensures QueryText(Encode(pairs))
    ensures pairs != [] ==> Encode(pairs) != []
  {
    if pairs != [] {
      EscapeText(pairs[0].key);
      EscapeText(pairs[0].value);
      EncodeText(pairs[1..]);
    }
  }

  const HEX_DIGITS := "0123456789ABCDEF"

  lemma HexDigits(v: nat)
    requires v < 16
    ensures Hex(v) == HEX_DIGITS[v]
  {
  }

  /**
   * Every byte: letters, digits and the four marks stand for themselves, a blank is
   * a plus sign, and anything else a percent sign and two capital hex digits.
   */
  lemma EscapeForms(c: char)
    requires c as int < 256
    ensures var literal := 'a' <= c <= 'z' || 'A' <= c <= 'Z' || '0' <= c <= '9' || c in {'-', '_', '.', '~'};
            Escape([c]) == if literal then [c] else if c == ' ' then "+"
                           else ['%', HEX_DIGITS[c as int / 16], HEX_DIGITS[c as int % 16]]
  {
    HexDigits(c as int / 16);
    HexDigits(c as int % 16);
    assert Escape([c]) == EscapeChar(c) + Escape([]);
  }

  lemma {:induction false} EscapeLiteral(s: string)
    requires forall i :: 0 <= i < |s| ==> Unreserved(s[i])
    ensures Escape(s) == s
  {
    if s != [] { EscapeLiteral(s[1..]); }
  }

  /** A segment that is empty, holds a semicolon or has a bad escape is skipped. */
  lemma MalformedSkipped(seg: string, query: string, key: string)
    requires '&' !in seg
    requires seg == [] || ';' in seg || Unescape(Cut(seg, '=').0).None? || Unescape(Cut(seg, '=').1).None?
    ensures Get(seg + ['&'] + query, key) == Get(query, key)
  {
    CutAt(seg, '&', query);
  }
}
