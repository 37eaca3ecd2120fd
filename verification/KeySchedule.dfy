/**
 * Session keys: HKDF-SHA256 of RFC 5869 over a parameter HMAC, the Go derivation
 * that uses it in general form and the Kotlin one that writes out one block.
 */
module KeySchedule {
  import opened Octets
  import opened Framing
  import Channel

  const HASH_LEN := 32
  const KEY_LEN := 32

  ghost predicate Sized(h: (bytes, bytes) -> bytes) {
    forall k: bytes, m: bytes :: |h(k, m)| == HASH_LEN
  }

  /** HMAC-SHA256: some function of key and message that always returns 32 bytes. */
  type Hmac = h: (bytes, bytes) -> bytes | Sized(h)
    ghost witness (_, _) => seq(HASH_LEN, _ => 0)

  // ----- section 2 of RFC 5869

  function Extract(h: Hmac, salt: bytes, ikm: bytes): bytes { h(salt, ikm) }

  /** T(i) = HMAC(PRK, T(i-1) | info | i), with T(0) empty. */
  function Block(h: Hmac, prk: bytes, info: bytes, i: nat): bytes
    requires i < 256
  {
    if i == 0 then [] else h(prk, Block(h, prk, info, i - 1) + info + [i])
  }

  /** T(1) | T(2) | ... | T(n) */
  function Blocks(h: Hmac, prk: bytes, info: bytes, n: nat): bytes
    requires n < 256
  {
    if n == 0 then [] else Blocks(h, prk, info, n - 1) + Block(h, prk, info, n)
  }

  lemma {:induction false} BlocksSize(h: Hmac, prk: bytes, info: bytes, n: nat)
    requires n < 256
    ensures |Blocks(h, prk, info, n)| == n * HASH_LEN
  {
    if n > 0 { BlocksSize(h, prk, info, n - 1); }
  }

  /** The first `size` octets of T(1) | T(2) | ... | T(ceil(size / HashLen)). */
  ghost function Expand(h: Hmac, prk: bytes, info: bytes, size: nat): (okm: bytes)
    requires size <= 255 * HASH_LEN
    ensures |okm| == size
  {
    var n := (size + HASH_LEN - 1) / HASH_LEN;
    BlocksSize(h, prk, info, n);
    Blocks(h, prk, info, n)[..size]
  }

  // ----- the two implementations

  /** Go: hkdf.New(sha256.New, psk, salt, info) read for KeyLen bytes. */
  ghost function ExpandKey(h: Hmac, psk: bytes, salt: bytes, info: bytes): (key: Key)
    ensures |key| == KEY_LEN
  {
    Expand(h, Extract(h, salt, psk), info, KEY_LEN)
  }

  /** Kotlin: one HMAC over info | 0x01, cut (or zero-filled) to KEY_LEN. */
  function HkdfExpand32(h: Hmac, prk: bytes, info: bytes): bytes {
    var t := h(prk, info + [1]);
    if |t| >= KEY_LEN then t[..KEY_LEN] else t + seq(KEY_LEN - |t|, _ => 0)
  }

  datatype Keys = Keys(send: Key, recv: Key)

  const C2S_INFO := "arnos-c2s-v1"
  const S2C_INFO := "arnos-s2c-v1"

  ghost function DeriveSession(h: Hmac, psk: bytes, clientSalt: bytes, serverSalt: bytes, isServer: bool): Keys
  {
    var salt := clientSalt + serverSalt;
    var c2s := ExpandKey(h, psk, salt, Ascii(C2S_INFO));
    var s2c := ExpandKey(h, psk, salt, Ascii(S2C_INFO));
    if isServer then Keys(s2c, c2s) else Keys(c2s, s2c)
  }

  function KotlinDeriveSession(h: Hmac, psk: bytes, clientSalt: bytes, serverSalt: bytes): Keys {
    var prk := Extract(h, clientSalt + serverSalt, psk);
    Keys(HkdfExpand32(h, prk, Ascii(C2S_INFO)), HkdfExpand32(h, prk, Ascii(S2C_INFO)))
  }

  /** The two one-block messages expanded under `prk` do not collide. */
  ghost predicate Separated(h: Hmac, prk: bytes) {
    h(prk, Ascii(C2S_INFO) + [1]) != h(prk, Ascii(S2C_INFO) + [1])
  }

  // ----- properties

  /** One block is all of HKDF-Expand at L = 32. */
  lemma OneBlockIsExpand(h: Hmac, prk: bytes, info: bytes)
    ensures HkdfExpand32(h, prk, info) == Expand(h, prk, info, KEY_LEN) == h(prk, info + [1])
  {
    assert Blocks(h, prk, info, 0) == [] && Block(h, prk, info, 0) == [];
    assert [] + info + [1] == info + [1];
    assert Block(h, prk, info, 1) == h(prk, info + [1]);
    assert Blocks(h, prk, info, 1) == Block(h, prk, info, 1);
  }

  /** The Kotlin client derives the keys the Go client would. */
  lemma KotlinKeysAgree(h: Hmac, psk: bytes, clientSalt: bytes, serverSalt: bytes)
    ensures KotlinDeriveSession(h, psk, clientSalt, serverSalt) == DeriveSession(h, psk, clientSalt, serverSalt, false)
  {
    var prk := Extract(h, clientSalt + serverSalt, psk);
    OneBlockIsExpand(h, prk, Ascii(C2S_INFO));
    OneBlockIsExpand(h, prk, Ascii(S2C_INFO));
  }

  /**
   * What one end sends with, the other receives with; and the two directions use
   * different keys exactly when HMAC separates two messages, which are different.
   */
  lemma KeysCross(h: Hmac, psk: bytes, clientSalt: bytes, serverSalt: bytes)
    ensures var server := DeriveSession(h, psk, clientSalt, serverSalt, true);
            var client := DeriveSession(h, psk, clientSalt, serverSalt, false);
            && server.send == client.recv && server.recv == client.send
            && (client.send != client.recv <==> Separated(h, Extract(h, clientSalt + serverSalt, psk)))
    ensures Ascii(C2S_INFO) + [1] != Ascii(S2C_INFO) + [1]
  {
    var prk := Extract(h, clientSalt + serverSalt, psk);
    var c, s := Ascii(C2S_INFO), Ascii(S2C_INFO);
    OneBlockIsExpand(h, prk, c);
    OneBlockIsExpand(h, prk, s);
    assert (c + [1])[6] == 'c' as int && (s + [1])[6] == 's' as int;
  }

  /** With derived keys, no (key, nonce) pair repeats on a connection, in either direction or across them. */
  lemma ConnectionNoncesDistinct(h: Hmac, aead: Aead, psk: bytes, clientSalt: bytes, serverSalt: bytes,
                                 up: seq<Channel.Step>, down: seq<Channel.Step>)
    requires Separated(h, Extract(h, clientSalt + serverSalt, psk))
    ensures var client := DeriveSession(h, psk, clientSalt, serverSalt, false);
            var server := DeriveSession(h, psk, clientSalt, serverSalt, true);
            Channel.Distinct(Channel.KeyUses(Channel.Run(Channel.Init(aead, client.send), up))
                             + Channel.KeyUses(Channel.Run(Channel.Init(aead, server.send), down)))
  {
    KeysCross(h, psk, clientSalt, serverSalt);
    var client := DeriveSession(h, psk, clientSalt, serverSalt, false);
    Channel.NonceNeverReused(aead, client.send, client.recv, up, down);
  }

  /** The keys outright: HMAC under HMAC(clientSalt | serverSalt, psk) of the direction's label and the byte 1. */
  lemma DerivedKeys(h: Hmac, psk: bytes, clientSalt: bytes, serverSalt: bytes)
    ensures var c2s := h(h(clientSalt + serverSalt, psk), Ascii("arnos-c2s-v1") + [1]);
            var s2c := h(h(clientSalt + serverSalt, psk), Ascii("arnos-s2c-v1") + [1]);
            && DeriveSession(h, psk, clientSalt, serverSalt, false) == Keys(c2s, s2c)
            && DeriveSession(h, psk, clientSalt, serverSalt, true) == Keys(s2c, c2s)
  {
    var prk := Extract(h, clientSalt + serverSalt, psk);
    OneBlockIsExpand(h, prk, Ascii(C2S_INFO));
    OneBlockIsExpand(h, prk, Ascii(S2C_INFO));
  }
}
