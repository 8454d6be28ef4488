/** HMAC-SHA-256: section 2 of RFC 2104 as a function, and hmac_sha256 of sha256.cpp against it. */
module Hmac {
  import opened Fips180
  import opened Sha256

  type Bytes = seq<bv8>

  function XorEach(block: Bytes, c: bv8): (r: Bytes)
    ensures |r| == |block|
  {
    seq(|block|, i requires 0 <= i < |block| => block[i] ^ c)
  }

  /** The key, hashed first when longer than a block, extended with zeros to one block. */
  function KeyBlock(key: Bytes): (r: Bytes)
    ensures |r| == BLOCK
  {
    var k := if |key| > BLOCK then Digest(key) else key;
    k + Zeros(BLOCK - |k|)
  }

  /** H(K XOR opad, H(K XOR ipad, text)). */
  function HmacOf(key: Bytes, text: Bytes): (r: Bytes)
    ensures |r| == 32
  {
    Digest(XorEach(KeyBlock(key), 0x5c) + Digest(XorEach(KeyBlock(key), 0x36) + text))
  }

  method Sha256Of(p: Bytes) returns (digest: Bytes)
    ensures digest == Digest(p)
  {
    digest := DigestOfTwo(p, []);
    assert p + [] == p;
  }

  /** Two updates and a final, as both halves of hmac_sha256 do. */
  method DigestOfTwo(a: Bytes, b: Bytes) returns (digest: Bytes)
    ensures digest == Digest(a + b)
  {
    hide Digest, Hasher.Absorbed;
    var out := new bv8[32];
    var s := new Hasher();
    s.Update(a);
    s.Update(b);
    s.Final(out);
    assert [] + a + b == a + b;
    digest := out[..];
  }

  method PaddedKey(key: Bytes) returns (k: Bytes)
    ensures k == KeyBlock(key)
  {
    hide Digest;
    var buffer := new bv8[BLOCK](_ => 0);
    var head := key;
    if |key| > BLOCK { head := Sha256Of(key); }
    for i := 0 to |head|
      invariant forall j | 0 <= j < BLOCK :: buffer[j] == if j < i then head[j] else 0
    {
      buffer[i] := head[i];
    }
    k := buffer[..];
  }

  /** HMAC as the C++ computes it; the 32 bytes it writes to `out` are the result here. */
  method HmacSha256(key: Bytes, msg: Bytes) returns (out: Bytes)
    ensures out == HmacOf(key, msg)
  {
    hide Digest, KeyBlock;
    var k := PaddedKey(key);
    var ipad, opad := [], [];
    for i := 0 to BLOCK
      invariant ipad == XorEach(k, 0x36)[..i] && opad == XorEach(k, 0x5c)[..i]
    {
      ipad, opad := ipad + [k[i] ^ 0x36], opad + [k[i] ^ 0x5c];
    }
    assert ipad == XorEach(k, 0x36) && opad == XorEach(k, 0x5c);
    var inner := DigestOfTwo(ipad, msg);
    out := DigestOfTwo(opad, inner);
  }
}
