/** HMAC over an abstract SHA-256, as `crypto.subtle.sign('HMAC', …)` computes it for the task
    token and the webhook signature (RFC 2104 section 2, block size 64 bytes). */
module Crypto {
  import opened Bytes
  import opened Wrappers

  /** A SHA-256 digest: always 32 bytes (FIPS 180-4). */
  type Digest = s: seq<byte> | |s| == 32 witness seq(32, _ => 0)

  /** The hash function itself is not modelled; callers supply it. */
  type Sha256 = seq<byte> -> Digest

  const BlockSize: nat := 64
  const Ipad: byte := 0x36
  const Opad: byte := 0x5C

  /** Bitwise exclusive or of two naturals, one bit at a time from the least significant. */
  function BitXor(a: nat, b: nat): nat
    decreases a
  {
    if a == 0 then b
    else if b == 0 then a
    else 2 * BitXor(a / 2, b / 2) + (if a % 2 == b % 2 then 0 else 1)
  }

  lemma {:induction false} BitXorBound(a: nat, b: nat, n: nat)
    requires a < n && b < n && (n == 2 || n == 4 || n == 8 || n == 16 || n == 32 || n == 64 || n == 128 || n == 256)
    ensures BitXor(a, b) < n
    decreases a
  {
    if a != 0 && b != 0 {
      if n == 2 {
        assert a == 1 && b == 1;
      } else {
        BitXorBound(a / 2, b / 2, n / 2);
      }
    }
  }

  lemma {:induction false} BitXorInvolution(a: nat, b: nat)
    ensures BitXor(BitXor(a, b), b) == a
    decreases a
  {
    var c := BitXor(a, b);
    if a == 0 {
      BitXorSelf(b);
    } else if b != 0 {
      BitXorInvolution(a / 2, b / 2);
      if c != 0 {
        assert c / 2 == BitXor(a / 2, b / 2);
      } else {
        BitXorZero(a, b);
      }
    }
  }

  lemma {:induction false} BitXorSelf(a: nat)
    ensures BitXor(a, a) == 0
    decreases a
  {
    if a != 0 {
      BitXorSelf(a / 2);
    }
  }

  lemma {:induction false} BitXorZero(a: nat, b: nat)
    requires BitXor(a, b) == 0
    ensures a == b
    decreases a
  {
    if a != 0 && b != 0 {
      BitXorZero(a / 2, b / 2);
    }
  }

  function Xor(a: byte, b: byte): (r: byte) {
    BitXorBound(a, b, 256);
    BitXor(a, b)
  }

  lemma XorInvolution(a: byte, b: byte)
    ensures Xor(Xor(a, b), b) == a
  {
    BitXorInvolution(a, b);
  }

  /** Every byte of `k` combined with the pad byte. */
  function XorPad(k: seq<byte>, pad: byte): (r: seq<byte>)
    ensures |r| == |k|
    ensures forall i :: 0 <= i < |k| ==> r[i] == Xor(k[i], pad)
  {
    seq(|k|, i requires 0 <= i < |k| => Xor(k[i], pad))
  }

  /** Applying the same pad twice restores the key, so the inner and outer keys determine it. */
  lemma XorPadInvolution(k: seq<byte>, pad: byte)
    ensures XorPad(XorPad(k, pad), pad) == k
  {
    forall i | 0 <= i < |k|
      ensures XorPad(XorPad(k, pad), pad)[i] == k[i]
    {
      XorInvolution(k[i], pad);
    }
  }

  /** The key brought to exactly one block: hashed first when longer than a block, then
      right-padded with zero bytes. */
  function BlockKey(sha: Sha256, key: seq<byte>): (r: seq<byte>)
    ensures |r| == BlockSize
    ensures var k := if |key| > BlockSize then sha(key) else key;
      r[..|k|] == k && forall i :: |k| <= i < BlockSize ==> r[i] == 0
  {
    var k := if |key| > BlockSize then sha(key) else key;
    k + seq(BlockSize - |k|, _ => 0)
  }

  /** HMAC(K, m) = H((K' xor opad) || H((K' xor ipad) || m)). */
  function Hmac(sha: Sha256, key: seq<byte>, msg: seq<byte>): Digest {
    var k := BlockKey(sha, key);
    sha(XorPad(k, Opad) + sha(XorPad(k, Ipad) + msg))
  }

  /** A key longer than the block behaves exactly like its own digest. */
  lemma LongKeyIsHashed(sha: Sha256, key: seq<byte>, msg: seq<byte>)
    requires |key| > BlockSize
    ensures Hmac(sha, key, msg) == Hmac(sha, sha(key), msg)
  {
    assert BlockKey(sha, key) == BlockKey(sha, sha(key));
  }

  /** A short key and the same key with zero bytes appended up to the block give the same MAC. */
  lemma ZeroPaddedKey(sha: Sha256, key: seq<byte>, msg: seq<byte>, n: nat)
    requires |key| + n <= BlockSize
    ensures Hmac(sha, key, msg) == Hmac(sha, key + seq(n, _ => 0), msg)
  {
    var padded := key + seq(n, _ => 0);
    assert BlockKey(sha, key) == BlockKey(sha, padded);
  }

  /** The MAC of text, both key and message UTF-8 encoded as `TextEncoder` does. */
  function HmacText(sha: Sha256, secret: string, msg: string): Digest {
    Hmac(sha, Utf8(secret), Utf8(msg))
  }

  /** What `importKey` throws for a zero-length HMAC key; the runtime's own wording is not
      modelled. */
  const EmptyKeyRefused: string := "Zero-length key is not supported"

  /** `crypto.subtle.importKey('raw', encoder.encode(secret), {name: 'HMAC', …})` and then
      `crypto.subtle.sign`: the HMAC import operation of the W3C Web Cryptography API throws a
      `DataError` when the raw key data has length zero, so nothing is signed under an empty
      secret. */
  function Sign(sha: Sha256, secret: string, msg: string): (r: Result<Digest, string>)
    ensures r.Err? <==> |Utf8(secret)| == 0
    ensures r.Err? ==> r.error == EmptyKeyRefused
    ensures r.Ok? ==> r.value == Hmac(sha, Utf8(secret), Utf8(msg))
  {
    var key := Utf8(secret);
    if |key| == 0 then Err(EmptyKeyRefused) else Ok(Hmac(sha, key, Utf8(msg)))
  }

  /** Only the empty secret is refused: every character encodes to at least one byte. */
  lemma SignRefusesOnlyEmpty(sha: Sha256, secret: string, msg: string)
    ensures Sign(sha, secret, msg).Err? <==> secret == ""
    ensures Sign(sha, secret, msg).Ok? ==> Sign(sha, secret, msg).value == HmacText(sha, secret, msg)
  {
  }
}
