/** The handshake token of internal/protocol/crypto.go, over a parameter HMAC. */
module Auth {
  import opened Octets
  import opened Decimal
  import opened Base64
  import KeySchedule

  const SALT_LEN := 16

  /** "arnos-auth-v1" || salt || decimal timestamp */
  function AuthContext(salt: bytes, ts: int): bytes {
    Ascii("arnos-auth-v1") + salt + Ascii(FormatInt(ts))
  }

  function ComputeAuth(h: KeySchedule.Hmac, psk: bytes, salt: bytes, ts: int): string {
    EncodeStd(h(psk, AuthContext(salt, ts)))
  }

  predicate VerifyAuth(h: KeySchedule.Hmac, psk: bytes, salt: bytes, ts: int, auth: string) {
    ComputeAuth(h, psk, salt, ts) == auth
  }

  lemma AsciiDecimalInjective(m: int, n: int)
    requires Ascii(FormatInt(m)) == Ascii(FormatInt(n))
    ensures m == n
  {
    var s, t := FormatInt(m), FormatInt(n);
    forall i | 0 <= i < |s| ensures s[i] == t[i] {
      FormatAlphabet(m, i);
      FormatAlphabet(n, i);
      assert Ascii(s)[i] == Octet(s[i]) && Ascii(t)[i] == Octet(t[i]);
    }
    assert |Ascii(s)| == |s| && |Ascii(t)| == |t|;
    assert s == t;
    FormatInjective(m, n);
  }

  /** With salts of one length, distinct (salt, ts) pairs never share an authenticated message. */
  lemma ContextInjective(salt: bytes, ts: int, salt': bytes, ts': int)
    requires |salt| == |salt'| == SALT_LEN && AuthContext(salt, ts) == AuthContext(salt', ts')
    ensures salt == salt' && ts == ts'
  {
    var c := AuthContext(salt, ts);
    var n := |Ascii("arnos-auth-v1")|;
    assert salt == c[n..n + SALT_LEN] == salt';
    assert Ascii(FormatInt(ts)) == c[n + SALT_LEN..] == Ascii(FormatInt(ts'));
    AsciiDecimalInjective(ts, ts');
  }

  /**
   * A token made for one handshake verifies for another exactly when HMAC maps the
   * two messages to the same tag, and those messages are the same only for the same pair.
   */
  lemma TokenBinds(h: KeySchedule.Hmac, psk: bytes, salt: bytes, ts: int, salt': bytes, ts': int)
    requires |salt| == |salt'| == SALT_LEN
    ensures VerifyAuth(h, psk, salt', ts', ComputeAuth(h, psk, salt, ts))
            <==> h(psk, AuthContext(salt, ts)) == h(psk, AuthContext(salt', ts'))
    ensures AuthContext(salt, ts) == AuthContext(salt', ts') <==> salt == salt' && ts == ts'
  {
    if ComputeAuth(h, psk, salt, ts) == ComputeAuth(h, psk, salt', ts') {
      EncodeStdInjective(h(psk, AuthContext(salt, ts)), h(psk, AuthContext(salt', ts')));
    }
    if AuthContext(salt, ts) == AuthContext(salt', ts') { ContextInjective(salt, ts, salt', ts'); }
  }
}
