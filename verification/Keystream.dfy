/** The cryptographic primitives both ends of a security-1 session rely on, and the one
    running AES-CTR keystream (section 6.5 of NIST SP 800-38A) that they share. */
module Keystream {
  import opened Common

  const PUBKEY_LEN := 32
  const RANDOM_LEN := 16
  const SESSION_KEY_LEN := 32

  /** A public key, shared secret or digest: always 32 bytes. */
  type Block32 = b: Bytes | |b| == 32 witness seq(32, _ => 0)

  /** The primitives, uninterpreted: public key of a private key, X25519, SHA-256 and the
      AES-256-CTR keystream byte at a position for a key and an IV. */
  datatype Suite = Suite(
    Public: Bytes -> Block32,
    Agree: (Bytes, Bytes) -> Block32,
    Hash: Bytes -> Block32,
    Stream: (Bytes, Bytes, nat) -> bv8)
  {
    /** Diffie-Hellman symmetry (section 6.1 of RFC 7748). */
    ghost predicate Symmetric() {
      forall a, b :: Agree(a, Public(b)) == Agree(b, Public(a))
    }
  }

  /** A multipart CTR operation: key, IV and the keystream position it has reached. */
  datatype Cipher = Cipher(key: Bytes, iv: Bytes, pos: nat) {
    function Advance(n: nat): Cipher {
      this.(pos := pos + n)
    }
  }

  /** CTR update: encryption and decryption are the same XOR with the keystream. */
  function Xform(su: Suite, c: Cipher, data: Bytes): (out: Bytes)
    ensures |out| == |data|
  {
    seq(|data|, i requires 0 <= i < |data| => data[i] ^ su.Stream(c.key, c.iv, c.pos + i))
  }

  function Xor(a: Bytes, b: Bytes): (r: Bytes)
    requires |a| == |b|
    ensures |r| == |a|
  {
    seq(|a|, i requires 0 <= i < |a| => a[i] ^ b[i])
  }

  /** The keystreams of two ciphers hold the same bytes at positions lo..hi. */
  ghost predicate AgreeOn(su: Suite, c: Cipher, d: Cipher, lo: nat, hi: nat) {
    forall i: nat :: lo <= i < hi ==> su.Stream(c.key, c.iv, i) == su.Stream(d.key, d.iv, i)
  }

  lemma XorCancel(a: bv8, b: bv8, c: bv8)
    ensures (a ^ b) ^ c == a <==> b == c
  {}

  lemma XformByte(su: Suite, c: Cipher, data: Bytes, i: nat)
    requires i < |data|
    ensures Xform(su, c, data)[i] == data[i] ^ su.Stream(c.key, c.iv, c.pos + i)
  {}

  /** One byte through two ciphers at one position. */
  lemma XformTwice(su: Suite, c: Cipher, d: Cipher, data: Bytes, i: nat)
    requires c.pos == d.pos && i < |data|
    ensures Xform(su, d, Xform(su, c, data))[i]
            == (data[i] ^ su.Stream(c.key, c.iv, c.pos + i)) ^ su.Stream(d.key, d.iv, c.pos + i)
  {
    XformByte(su, c, data, i);
    XformByte(su, d, Xform(su, c, data), i);
  }

  lemma InverseAgrees(su: Suite, c: Cipher, d: Cipher, data: Bytes)
    requires c.pos == d.pos && Xform(su, d, Xform(su, c, data)) == data
    ensures AgreeOn(su, c, d, c.pos, c.pos + |data|)
  {
    forall i: nat | c.pos <= i < c.pos + |data|
      ensures su.Stream(c.key, c.iv, i) == su.Stream(d.key, d.iv, i)
    {
      XformTwice(su, c, d, data, i - c.pos);
      XorCancel(data[i - c.pos], su.Stream(c.key, c.iv, i), su.Stream(d.key, d.iv, i));
    }
  }

  lemma AgreeInverts(su: Suite, c: Cipher, d: Cipher, data: Bytes)
    requires c.pos == d.pos && AgreeOn(su, c, d, c.pos, c.pos + |data|)
    ensures Xform(su, d, Xform(su, c, data)) == data
  {
    var back := Xform(su, d, Xform(su, c, data));
    forall i | 0 <= i < |data| ensures back[i] == data[i] {
      XformTwice(su, c, d, data, i);
      XorCancel(data[i], su.Stream(c.key, c.iv, c.pos + i), su.Stream(d.key, d.iv, c.pos + i));
    }
  }

  /** Decrypting with another cipher at the same position recovers the plaintext exactly when
      the two keystreams agree over the bytes used. */
  lemma XformInverse(su: Suite, c: Cipher, d: Cipher, data: Bytes)
    requires c.pos == d.pos
    ensures Xform(su, d, Xform(su, c, data)) == data <==> AgreeOn(su, c, d, c.pos, c.pos + |data|)
  {
    if Xform(su, d, Xform(su, c, data)) == data {
      InverseAgrees(su, c, d, data);
    }
    if AgreeOn(su, c, d, c.pos, c.pos + |data|) {
      AgreeInverts(su, c, d, data);
    }
  }

  /** XOR with a fixed buffer is injective, so two masks of one secret give one key only if
      they are the same mask. */
  lemma XorInjective(a: Bytes, b: Bytes, c: Bytes)
    requires |a| == |b| == |c|
    ensures Xor(a, b) == Xor(a, c) <==> b == c
  {
    if Xor(a, b) == Xor(a, c) {
      forall i | 0 <= i < |b| ensures b[i] == c[i] {
        assert Xor(a, b)[i] == Xor(a, c)[i];
        XorLeft(a[i], b[i], c[i]);
      }
    }
  }

  lemma XorLeft(a: bv8, b: bv8, c: bv8)
    ensures a ^ b == a ^ c <==> b == c
  {}

  /** XOR with zeroes changes nothing: the key without a proof of possession. */
  lemma XorZero(a: Bytes)
    ensures Xor(a, seq(|a|, _ => 0)) == a
  {
    assert forall i :: 0 <= i < |a| ==> Xor(a, seq(|a|, _ => 0))[i] == a[i];
  }

  /** A mask put on twice is off again. */
  lemma XorTwice(a: Bytes, b: Bytes)
    requires |a| == |b|
    ensures Xor(Xor(a, b), b) == a
  {
    forall i | 0 <= i < |a| ensures Xor(Xor(a, b), b)[i] == a[i] {
      XorBack(a[i], b[i]);
    }
  }

  lemma XorBack(a: bv8, b: bv8)
    ensures (a ^ b) ^ b == a
  {}

  /** The in-place mixing loop of both key derivations. */
  method MixInPlace(shared: array<bv8>, hash: Bytes)
    requires shared.Length == |hash|
    modifies shared
    ensures shared[..] == Xor(old(shared[..]), hash)
  {
    var i := 0;
    while i < shared.Length
      invariant 0 <= i <= shared.Length
      invariant forall k :: 0 <= k < i ==> shared[k] == old(shared[k]) ^ hash[k]
      invariant forall k :: i <= k < shared.Length ==> shared[k] == old(shared[k])
    {
      shared[i] := shared[i] ^ hash[i];
      i := i + 1;
    }
  }
}
