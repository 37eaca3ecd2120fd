/**
 * The arnos:// connect string of internal/provision/provision.go.  url.Parse is
 * modelled down to the authority and path check, which stays a parameter.
 */
module Provision {
  import opened Octets
  import opened Decimal
  import opened Base64
  import opened Query
  import opened Text

  datatype Profile = Profile(host: string, port: int, path: string, sni: string, psk: bytes, name: string)

  datatype UriError = BadUri | MissingHost | BadPsk

  const SCHEME := "arnos"

  // ----- printing

  /** The query pairs in the key order Values.Encode sorts them into. */
  function Pairs(p: Profile): seq<Pair> {
    [Pair("host", p.host)]
    + (if p.name != [] then [Pair("name", p.name)] else [])
    + [Pair("path", p.path), Pair("port", FormatInt(p.port)), Pair("psk", EncodeRaw(UrlSafe, p.psk)),
       Pair("sni", if p.sni == [] then p.host else p.sni)]
  }

  function Uri(p: Profile): string { Printed(Encode(Pairs(p))) }

  function Printed(query: string): string { PrintedAs(SCHEME, query) }

  function PrintedAs(scheme: string, query: string): string { scheme + "://connect?" + query }

  // ----- parsing

  predicate Letter(c: char) { 'a' <= c <= 'z' || 'A' <= c <= 'Z' }

  /** getScheme from position `i`: the scheme and the rest, an empty scheme, or none for a leading colon. */
  function SchemeFrom(s: string, i: nat): Option<(string, string)>
    requires i <= |s|
    decreases |s| - i
  {
    if i == |s| then Some(([], s))
    else if Letter(s[i]) then SchemeFrom(s, i + 1)
    else if IsDigit(s[i]) || s[i] == '+' || s[i] == '-' || s[i] == '.' then
      if i == 0 then Some(([], s)) else SchemeFrom(s, i + 1)
    else if s[i] == ':' then
      if i == 0 then None else Some((s[..i], s[i + 1..]))
    else Some(([], s))
  }

  function Lower(s: string): string {
    seq(|s|, i requires 0 <= i < |s| => if 'A' <= s[i] <= 'Z' then s[i] + ('a' as int - 'A' as int) as char else s[i])
  }

  predicate Control(c: char) { c < ' ' || c == 0x7f as char }

  predicate ValidEscapes(s: string) {
    s == []
    || (if s[0] == '%' then |s| >= 3 && Unhex(s[1]).Some? && Unhex(s[2]).Some? && ValidEscapes(s[3..])
        else ValidEscapes(s[1..]))
  }

  /** url.Parse, as far as the scheme and the raw query; `hierOk` checks authority and path. */
  function ParseUrl(raw: string, hierOk: string -> bool): Option<(string, string)> {
    var (u, fragment, _) := Cut(raw, '#');
    if (exists i :: 0 <= i < |u| && Control(u[i])) || !ValidEscapes(fragment) then None
    else
      match SchemeFrom(u, 0)
      case None => None
      case Some((scheme, rest)) =>
        var (hier, query, _) := Cut(rest, '?');
        if hier != [] && hier[0] == '/' && !hierOk(hier) then None else Some((Lower(scheme), query))
  }

  function ParseUri(s: string, hierOk: string -> bool): Result<Profile, UriError> {
    match ParseUrl(TrimSpace(s), hierOk)
    case None => Err(BadUri)
    case Some((scheme, q)) =>
      if scheme != SCHEME then Err(BadUri)
      else
        var host, path, sni := Get(q, "host"), Get(q, "path"), Get(q, "sni");
        if host == [] then Err(MissingHost)
        else
          var port := match Atoi(Get(q, "port")) case Some(n) => n case None => 443;
          match DecodeRaw(UrlSafe, Get(q, "psk"))
          case None => Err(BadPsk)
          case Some(psk) =>
            Ok(Profile(host, port, if path == [] then "/" else path,
                       if sni == [] then host else sni, psk, Get(q, "name")))
  }

  // ----- properties

  /** What ParseUri fills in for an empty path or server name. */
  function Completed(p: Profile): Profile {
    p.(path := if p.path == [] then "/" else p.path, sni := if p.sni == [] then p.host else p.sni)
  }

  /** Every string is a Go byte string, the port a Go int. */
  ghost predicate WellTyped(p: Profile) {
    && ByteString(p.host) && ByteString(p.path) && ByteString(p.sni) && ByteString(p.name)
    && -TWO_63 <= p.port < TWO_63
  }

  /** Printable ASCII other than white space, '#', '?' and ':'. */
  predicate Plain(c: char) { '!' <= c <= '~' && c != '#' && c != '?' && c != ':' }

  lemma QueryIsPlain(pairs: seq<Pair>)
    requires pairs != []
    ensures var q := Encode(pairs); q != [] && forall i :: 0 <= i < |q| ==> Plain(q[i])
  {
    var q := Encode(pairs);
    EncodeText(pairs);
    forall i | 0 <= i < |q| ensures Plain(q[i]) { QueryCharPlain(q[i]); }
  }

  lemma QueryCharPlain(c: char)
    requires EscapedChar(c) || c == '&' || c == '='
    ensures Plain(c)
  {
  }

  lemma {:induction false} SchemeLetters(s: string, n: nat, i: nat)
    requires 0 < n < |s| && i <= n && s[n] == ':'
    requires forall j :: 0 <= j < n ==> Letter(s[j])
    ensures SchemeFrom(s, i) == Some((s[..n], s[n + 1..]))
    decreases n - i
  {
    if i < n { SchemeLetters(s, n, i + 1); }
  }

  predicate IsScheme(s: string) { s != [] && forall i :: 0 <= i < |s| ==> Letter(s[i]) }

  predicate PlainText(q: string) { q != [] && forall i :: 0 <= i < |q| ==> Plain(q[i]) }

  lemma PrintedText(scheme: string, q: string)
    requires IsScheme(scheme) && PlainText(q)
    ensures var s := PrintedAs(scheme, q);
            && s != [] && !Space(s[0]) && !Space(s[|s| - 1])
            && '#' !in s && forall i :: 0 <= i < |s| ==> !Control(s[i])
  {
    var s, mid := PrintedAs(scheme, q), "://connect?";
    assert forall i :: 0 <= i < |mid| ==> Plain(mid[i]) || mid[i] == ':' || mid[i] == '?';
    assert forall i :: 0 <= i < |scheme| ==> s[i] == scheme[i] && Plain(s[i]);
    assert forall i :: 0 <= i < |mid| ==> s[|scheme| + i] == mid[i];
    assert forall i :: 0 <= i < |q| ==> s[|scheme| + |mid| + i] == q[i];
    forall i | 0 <= i < |s| ensures Plain(s[i]) || s[i] == ':' || s[i] == '?' {
      if |scheme| <= i < |scheme| + |mid| { assert s[i] == mid[i - |scheme|]; }
      if |scheme| + |mid| <= i { assert s[i] == q[i - |scheme| - |mid|]; }
    }
  }

  lemma PrintedScheme(scheme: string, q: string)
    requires IsScheme(scheme)
    ensures SchemeFrom(PrintedAs(scheme, q), 0) == Some((scheme, "//connect" + ['?'] + q))
  {
    var s, n := PrintedAs(scheme, q), |scheme|;
    assert forall j :: 0 <= j < n ==> s[j] == scheme[j];
    assert s[n] == ':';
    SchemeLetters(s, n, 0);
    assert s[..n] == scheme && s[n + 1..] == "//connect" + ['?'] + q;
  }

  /** The printed string parses to its own scheme and query. */
  lemma ParseUrlOf(scheme: string, q: string, hierOk: string -> bool)
    requires IsScheme(scheme) && PlainText(q) && hierOk("//connect")
    ensures ParseUrl(PrintedAs(scheme, q), hierOk) == Some((Lower(scheme), q))
  {
    PrintedText(scheme, q);
    CutNone(PrintedAs(scheme, q), '#');
    PrintedScheme(scheme, q);
    CutAt("//connect", '?', q);
  }

  lemma PairsTyped(p: Profile)
    requires WellTyped(p)
    ensures forall i :: 0 <= i < |Pairs(p)| ==> ByteString(Pairs(p)[i].key) && ByteString(Pairs(p)[i].value)
  {
    SpellSymbols(UrlSafe, p.psk, 0);
    forall i | 0 <= i < |FormatInt(p.port)| ensures FormatInt(p.port)[i] as int < 256 { FormatAlphabet(p.port, i); }
  }

  lemma KeysDiffer()
    ensures "path" != "port" && "host" != "path" && "host" != "port"
    ensures "name" != "path" && "name" != "port" && "psk" != "sni"
    ensures "host" != "name" && |"psk"| == |"sni"| == 3 && |"path"| == |"port"| == |"host"| == |"name"| == 4
  {
    assert "path"[1] == 'a' && "port"[1] == 'o' && "host"[0] == 'h';
    assert "name"[0] == 'n' && "psk"[0] == 'p' && "sni"[0] == 's';
  }

  lemma {:induction false} LookupAt(pairs: seq<Pair>, key: string, n: nat)
    requires n <= |pairs| && forall i :: 0 <= i < n ==> pairs[i].key != key
    ensures n < |pairs| && pairs[n].key == key ==> Lookup(pairs, key) == pairs[n].value
    ensures n == |pairs| ==> Lookup(pairs, key) == []
  {
    if n > 0 { LookupAt(pairs[1..], key, n - 1); }
  }

  lemma LookupPairs(p: Profile)
    ensures Lookup(Pairs(p), "host") == p.host && Lookup(Pairs(p), "name") == p.name
    ensures Lookup(Pairs(p), "path") == p.path && Lookup(Pairs(p), "port") == FormatInt(p.port)
    ensures Lookup(Pairs(p), "psk") == EncodeRaw(UrlSafe, p.psk)
    ensures Lookup(Pairs(p), "sni") == if p.sni == [] then p.host else p.sni
  {
    KeysDiffer();
    var n := if p.name == [] then 1 else 2;
    LookupAt(Pairs(p), "host", 0);
    LookupAt(Pairs(p), "name", if p.name == [] then 5 else 1);
    LookupAt(Pairs(p), "path", n);
    LookupAt(Pairs(p), "port", n + 1);
    LookupAt(Pairs(p), "psk", n + 2);
    LookupAt(Pairs(p), "sni", n + 3);
  }

  ghost predicate AllBytes(pairs: seq<Pair>) {
    forall i :: 0 <= i < |pairs| ==> ByteString(pairs[i].key) && ByteString(pairs[i].value)
  }

  /** What a list of pairs says, with the defaults: port 443, path "/", the host as server name, no label. */
  function Described(pairs: seq<Pair>): Result<Profile, UriError> {
    var host, path, sni := Lookup(pairs, "host"), Lookup(pairs, "path"), Lookup(pairs, "sni");
    if host == [] then Err(MissingHost)
    else if DecodeRaw(UrlSafe, Lookup(pairs, "psk")).None? then Err(BadPsk)
    else Ok(Profile(host,
                    if Atoi(Lookup(pairs, "port")).Some? then Atoi(Lookup(pairs, "port")).value else 443,
                    if path == "" then "/" else path,
                    if sni == "" then host else sni,
                    DecodeRaw(UrlSafe, Lookup(pairs, "psk")).value,
                    Lookup(pairs, "name")))
  }

  /** Any text that is, between blanks, the encoded pairs under some scheme. */
  lemma ParseTrimmed(scheme: string, pairs: seq<Pair>, text: string, hierOk: string -> bool)
    requires IsScheme(scheme) && pairs != [] && AllBytes(pairs) && hierOk("//connect")
    requires TrimSpace(text) == PrintedAs(scheme, Encode(pairs))
    ensures ParseUri(text, hierOk) == if Lower(scheme) == SCHEME then Described(pairs) else Err(BadUri)
  {
    QueryIsPlain(pairs);
    ParseUrlOf(scheme, Encode(pairs), hierOk);
    GetEncode(pairs, "host"); GetEncode(pairs, "path"); GetEncode(pairs, "sni");
    GetEncode(pairs, "port"); GetEncode(pairs, "psk"); GetEncode(pairs, "name");
  }

  /** Any encoded pairs, blanks around the string or not: ParseUri reads what they say, under this scheme only. */
  lemma ParseReadsPairs(scheme: string, pairs: seq<Pair>, pre: string, post: string, hierOk: string -> bool)
    requires IsScheme(scheme) && pairs != [] && AllBytes(pairs) && Blank(pre) && Blank(post) && hierOk("//connect")
    ensures ParseUri(pre + PrintedAs(scheme, Encode(pairs)) + post, hierOk)
            == if Lower(scheme) == "arnos" then Described(pairs) else Err(BadUri)
  {
    QueryIsPlain(pairs);
    PrintedText(scheme, Encode(pairs));
    TrimBlanks(pre, PrintedAs(scheme, Encode(pairs)), post);
    ParseTrimmed(scheme, pairs, pre + PrintedAs(scheme, Encode(pairs)) + post, hierOk);
  }

  lemma MinimalPairs(host: string, key: string)
    ensures var pairs := [Pair("host", host), Pair("psk", key)];
            && Lookup(pairs, "host") == host && Lookup(pairs, "psk") == key && Lookup(pairs, "path") == ""
            && Lookup(pairs, "sni") == "" && Lookup(pairs, "port") == "" && Lookup(pairs, "name") == ""
  {
    var pairs := [Pair("host", host), Pair("psk", key)];
    KeysDiffer();
    LookupAt(pairs, "host", 0); LookupAt(pairs, "psk", 1); LookupAt(pairs, "path", 2);
    LookupAt(pairs, "sni", 2); LookupAt(pairs, "port", 2); LookupAt(pairs, "name", 2);
  }

  lemma MinimalTyped(host: string, psk: bytes)
    requires ByteString(host)
    ensures AllBytes([Pair("host", host), Pair("psk", EncodeRaw(UrlSafe, psk))])
  {
    SpellSymbols(UrlSafe, psk, 0);
  }

  /** The shortest connect string: a host and a key, and the defaults for the rest. */
  lemma ParseMinimal(host: string, psk: bytes, hierOk: string -> bool)
    requires host != [] && ByteString(host) && hierOk("//connect")
    ensures ParseUri(Printed(Encode([Pair("host", host), Pair("psk", EncodeRaw(UrlSafe, psk))])), hierOk)
            == Ok(Profile(host, 443, "/", host, psk, ""))
  {
    MinimalTyped(host, psk);
    MinimalPairs(host, EncodeRaw(UrlSafe, psk));
    ParseArnos([Pair("host", host), Pair("psk", EncodeRaw(UrlSafe, psk))], hierOk);
    DecodeEncode(UrlSafe, psk);
  }

  lemma ParseArnos(pairs: seq<Pair>, hierOk: string -> bool)
    requires pairs != [] && AllBytes(pairs) && hierOk("//connect")
    ensures ParseUri(Printed(Encode(pairs)), hierOk) == Described(pairs)
  {
    OwnScheme();
    QueryIsPlain(pairs);
    PrintedText(SCHEME, Encode(pairs));
    TrimNone(Printed(Encode(pairs)));
    ParseTrimmed(SCHEME, pairs, Printed(Encode(pairs)), hierOk);
  }

  lemma OwnScheme()
    ensures IsScheme(SCHEME) && Lower(SCHEME) == SCHEME
  {
  }

  /**
   * ParseUri inverts Uri: over arbitrary byte strings, any int port and any key,
   * the profile comes back with its defaults filled in; without a host it is refused.
   */
  lemma ParseUriInverts(p: Profile, hierOk: string -> bool)
    requires WellTyped(p) && hierOk("//connect")
    ensures ParseUri(Uri(p), hierOk) == if p.host == [] then Err(MissingHost) else Ok(Completed(p))
  {
    PairsTyped(p);
    ParseArnos(Pairs(p), hierOk);
    LookupPairs(p);
    AtoiFormat(p.port);
    DecodeEncode(UrlSafe, p.psk);
  }

  /** What parses has a host, a path and a server name. */
  lemma ParsedComplete(s: string, hierOk: string -> bool)
    ensures match ParseUri(s, hierOk)
            case Ok(p) => p.host != [] && p.path != [] && p.sni != []
            case Err(_) => true
  {
  }

  // ----- the text

  predicate AllUnreserved(s: string) { forall i :: 0 <= i < |s| ==> Unreserved(s[i]) }

  lemma KeysUnreserved()
    ensures AllUnreserved("host") && AllUnreserved("name") && AllUnreserved("path")
    ensures AllUnreserved("port") && AllUnreserved("psk") && AllUnreserved("sni")
  {
  }

  /** key=value, with the value escaped. */
  function Field(key: string, value: string): string { key + "=" + Escape(value) }

  lemma SegmentIsField(p: Pair)
    requires AllUnreserved(p.key)
    ensures Segment(p) == Field(p.key, p.value)
  {
    EscapeLiteral(p.key);
  }

  lemma EncodeFive(a: Pair, b: Pair, c: Pair, d: Pair, e: Pair)
    ensures Encode([a, b, c, d, e])
            == Segment(a) + "&" + (Segment(b) + "&" + (Segment(c) + "&" + (Segment(d) + "&" + Segment(e))))
  {
    assert [a, b, c, d, e][1..] == [b, c, d, e] && [b, c, d, e][1..] == [c, d, e];
    assert [c, d, e][1..] == [d, e] && [d, e][1..] == [e];
    assert Encode([d, e]) == Segment(d) + "&" + Segment(e);
    assert Encode([c, d, e]) == Segment(c) + "&" + Encode([d, e]);
    assert Encode([b, c, d, e]) == Segment(b) + "&" + Encode([c, d, e]);
  }

  lemma FiveFields(a: Pair, b: Pair, c: Pair, d: Pair, e: Pair)
    requires AllUnreserved(a.key) && AllUnreserved(b.key) && AllUnreserved(c.key)
    requires AllUnreserved(d.key) && AllUnreserved(e.key)
    ensures Encode([a, b, c, d, e])
            == Field(a.key, a.value) + "&" + (Field(b.key, b.value) + "&" + (Field(c.key, c.value) + "&"
               + (Field(d.key, d.value) + "&" + Field(e.key, e.value))))
  {
    EncodeFive(a, b, c, d, e);
    SegmentIsField(a); SegmentIsField(b); SegmentIsField(c); SegmentIsField(d); SegmentIsField(e);
  }

  /** The connect string of a profile without a label, written out: keys in alphabetical order. */
  lemma UriText(p: Profile)
    requires p.name == []
    ensures Uri(p) == "arnos" + "://connect?"
                      + (Field("host", p.host) + "&" + (Field("path", p.path) + "&"
                         + (Field("port", FormatInt(p.port)) + "&"
                         + (Field("psk", EncodeRaw(UrlSafe, p.psk)) + "&"
                            + Field("sni", if p.sni == "" then p.host else p.sni)))))
  {
    KeysUnreserved();
    FiveFields(Pair("host", p.host), Pair("path", p.path), Pair("port", FormatInt(p.port)),
               Pair("psk", EncodeRaw(UrlSafe, p.psk)), Pair("sni", if p.sni == [] then p.host else p.sni));
    assert Pairs(p) == [Pair("host", p.host), Pair("path", p.path), Pair("port", FormatInt(p.port)),
                        Pair("psk", EncodeRaw(UrlSafe, p.psk)), Pair("sni", if p.sni == [] then p.host else p.sni)];
  }

  // ----- what is refused

  /** A control character, or an authority and path the URL parser does not take, is refused. */
  lemma Refused(s: string, i: nat, scheme: string, q: string, hierOk: string -> bool)
    requires IsScheme(scheme) && PlainText(q)
    ensures i < |TrimSpace(s)| && '#' !in TrimSpace(s) && Control(TrimSpace(s)[i]) ==>
              ParseUri(s, hierOk) == Err(BadUri)
    ensures !hierOk("//connect") ==> ParseUri(PrintedAs(scheme, q), hierOk) == Err(BadUri)
  {
    if '#' !in TrimSpace(s) { CutNone(TrimSpace(s), '#'); }
    PrintedText(scheme, q);
    TrimNone(PrintedAs(scheme, q));
    CutNone(PrintedAs(scheme, q), '#');
    PrintedScheme(scheme, q);
    CutAt("//connect", '?', q);
  }

  /** A fragment with valid escapes is ignored. */
  lemma FragmentIgnored(q: string, fragment: string, hierOk: string -> bool)
    requires PlainText(q) && hierOk("//connect") && ValidEscapes(fragment)
    ensures ParseUrl(Printed(q) + ['#'] + fragment, hierOk) == ParseUrl(Printed(q), hierOk) == Some((SCHEME, q))
  {
    OwnScheme();
    PrintedText(SCHEME, q);
    CutAt(Printed(q), '#', fragment);
    CutNone(Printed(q), '#');
    ParseUrlOf(SCHEME, q, hierOk);
  }
}
