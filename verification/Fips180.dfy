/** SHA-256 as FIPS 180-4 defines it (sections 3.2, 4.1.2, 4.2.2, 5.1.1, 5.2.1, 5.3.3 and 6.2.2), on byte sequences. */
module Fips180 {

  // ---- sections 3.2 and 4.1.2: functions ----

  /** Addition modulo 2^32. */
  function Add(x: bv32, y: bv32): bv32 {
    x + y
  }

  function Rotr(x: bv32, n: bv6): bv32
    requires n <= 32
  {
    (x >> n) | (x << (32 - n))
  }

  function Ch(x: bv32, y: bv32, z: bv32): bv32 { (x & y) ^ (!x & z) }

  function Maj(x: bv32, y: bv32, z: bv32): bv32 { (x & y) ^ (x & z) ^ (y & z) }

  function BigSigma0(x: bv32): bv32 { Rotr(x, 2) ^ Rotr(x, 13) ^ Rotr(x, 22) }

  function BigSigma1(x: bv32): bv32 { Rotr(x, 6) ^ Rotr(x, 11) ^ Rotr(x, 25) }

  function SmallSigma0(x: bv32): bv32 { Rotr(x, 7) ^ Rotr(x, 18) ^ (x >> 3) }

  function SmallSigma1(x: bv32): bv32 { Rotr(x, 17) ^ Rotr(x, 19) ^ (x >> 10) }

  // ---- section 4.2.2: constants ----

  function Constant(t: nat): bv32
    requires t < 64
  {
    if t < 16 then FirstConstants(t) else if t < 32 then SecondConstants(t)
    else if t < 48 then ThirdConstants(t) else FourthConstants(t)
  }

  function FirstConstants(t: nat): bv32
    requires 0 <= t < 16
  {
    match t
    case 0 => 0x428a2f98 case 1 => 0x71374491 case 2 => 0xb5c0fbcf case 3 => 0xe9b5dba5
    case 4 => 0x3956c25b case 5 => 0x59f111f1 case 6 => 0x923f82a4 case 7 => 0xab1c5ed5
    case 8 => 0xd807aa98 case 9 => 0x12835b01 case 10 => 0x243185be case 11 => 0x550c7dc3
    case 12 => 0x72be5d74 case 13 => 0x80deb1fe case 14 => 0x9bdc06a7 case _ => 0xc19bf174
  }

  function SecondConstants(t: nat): bv32
    requires 16 <= t < 32
  {
    match t
    case 16 => 0xe49b69c1 case 17 => 0xefbe4786 case 18 => 0x0fc19dc6 case 19 => 0x240ca1cc
    case 20 => 0x2de92c6f case 21 => 0x4a7484aa case 22 => 0x5cb0a9dc case 23 => 0x76f988da
    case 24 => 0x983e5152 case 25 => 0xa831c66d case 26 => 0xb00327c8 case 27 => 0xbf597fc7
    case 28 => 0xc6e00bf3 case 29 => 0xd5a79147 case 30 => 0x06ca6351 case _ => 0x14292967
  }

  function ThirdConstants(t: nat): bv32
    requires 32 <= t < 48
  {
    match t
    case 32 => 0x27b70a85 case 33 => 0x2e1b2138 case 34 => 0x4d2c6dfc case 35 => 0x53380d13
    case 36 => 0x650a7354 case 37 => 0x766a0abb case 38 => 0x81c2c92e case 39 => 0x92722c85
    case 40 => 0xa2bfe8a1 case 41 => 0xa81a664b case 42 => 0xc24b8b70 case 43 => 0xc76c51a3
    case 44 => 0xd192e819 case 45 => 0xd6990624 case 46 => 0xf40e3585 case _ => 0x106aa070
  }

  function FourthConstants(t: nat): bv32
    requires 48 <= t < 64
  {
    match t
    case 48 => 0x19a4c116 case 49 => 0x1e376c08 case 50 => 0x2748774c case 51 => 0x34b0bcb5
    case 52 => 0x391c0cb3 case 53 => 0x4ed8aa4a case 54 => 0x5b9cca4f case 55 => 0x682e6ff3
    case 56 => 0x748f82ee case 57 => 0x78a5636f case 58 => 0x84c87814 case 59 => 0x8cc70208
    case 60 => 0x90befffa case 61 => 0xa4506ceb case 62 => 0xbef9a3f7 case _ => 0xc67178f2
  }

  // ---- section 5.3.3: initial hash value ----

  const H0: seq<bv32> := [
    0x6a09e667, 0xbb67ae85, 0x3c6ef372, 0xa54ff53a, 0x510e527f, 0x9b05688c, 0x1f83d9ab, 0x5be0cd19
  ]

  // ---- sections 5.1.1 and 5.2.1: padding and parsing ----

  const BLOCK := 64
  const TWO_64 := 0x1_0000_0000_0000_0000

  function Zeros(k: nat): seq<bv8> {
    seq(k, _ => 0)
  }

  /** The k of section 5.1.1 in bytes; PaddingIsLeast proves that it is the least solution. */
  function ZeroCount(n: nat): nat {
    (119 - n % BLOCK) % BLOCK
  }

  function Pow256(n: nat): (p: nat)
    ensures p > 0
  {
    if n == 0 then 1 else 256 * Pow256(n - 1)
  }

  function ToByte(x: nat): bv8
    requires x < 256
  {
    x as bv8
  }

  function FromByte(b: bv8): (x: nat)
    ensures x < 256
  {
    b as nat
  }

  lemma ByteRoundTrip(x: nat)
    requires x < 256
    ensures FromByte(ToByte(x)) == x
  {
    ByteValue(x);
  }

  lemma ByteValue(x: nat)
    requires x < 256
    ensures (x as bv8) as nat == x
  {
    var b := ByteWith(x);
    ByteBack(b);
  }

  lemma {:induction false} ByteWith(x: nat) returns (b: bv8)
    requires x < 256
    ensures b as nat == x
  {
    if x == 0 {
      b := 0;
    } else {
      b := ByteWith(x - 1);
      NextByte(x - 1, b);
      b := b + 1;
    }
  }

  lemma NextByte(x: nat, b: bv8)
    requires b as nat == x < 255
    ensures (b + 1) as nat == x + 1
  {
  }

  lemma ByteBack(b: bv8)
    ensures (b as nat) as bv8 == b
  {
  }

  /** The low `n` bytes of `v`, most significant first. */
  function BytesOf(v: nat, n: nat): (r: seq<bv8>)
    ensures |r| == n
  {
    if n == 0 then [] else BytesOf(v / 256, n - 1) + [ToByte(v % 256)]
  }

  function ValueOf(b: seq<bv8>): nat {
    if b == [] then 0 else 256 * ValueOf(b[..|b| - 1]) + FromByte(b[|b| - 1])
  }

  /** The standard stops at 2^61 bytes; from there on the length field keeps its low 64 bits. */
  function LengthField(bytes: nat): (r: seq<bv8>)
    ensures |r| == 8
  {
    BytesOf(8 * bytes % TWO_64, 8)
  }

  function Pad(msg: seq<bv8>): (r: seq<bv8>)
    ensures |r| == |msg| + 1 + ZeroCount(|msg|) + 8
  {
    msg + [0x80] + Zeros(ZeroCount(|msg|)) + LengthField(|msg|)
  }

  predicate Fills(n: nat, zeros: nat) {
    (n + 1 + zeros + 8) % BLOCK == 0
  }

  lemma LeastZeros(n: nat, k: nat)
    ensures Fills(n, ZeroCount(n))
    ensures k < ZeroCount(n) ==> !Fills(n, k)
  {
    var q, r := n / BLOCK, n % BLOCK;
    assert n == BLOCK * q + r;
    if r <= 55 {
      assert ZeroCount(n) == 55 - r;
      assert n + 1 + ZeroCount(n) + 8 == BLOCK * (q + 1);
    } else {
      assert ZeroCount(n) == 119 - r;
      assert n + 1 + ZeroCount(n) + 8 == BLOCK * (q + 2);
    }
  }

  /** The zero bytes are complete exactly when 56 bytes are pending in the block. */
  lemma LastZero(n: nat, k: nat)
    requires k <= ZeroCount(n)
    ensures (n + 1 + k) % BLOCK == 56 <==> k == ZeroCount(n)
  {
    LeastZeros(n, k);
    assert Fills(n, k) <==> (n + 1 + k) % BLOCK == 56;
  }

  /** The padded length is a multiple of 64, and no smaller number of zero bytes would do. */
  lemma PaddingIsLeast(msg: seq<bv8>)
    ensures |Pad(msg)| % BLOCK == 0
    ensures forall k: nat | k < ZeroCount(|msg|) :: !Fills(|msg|, k)
  {
    LeastZeros(|msg|, 0);
    forall k: nat | k < ZeroCount(|msg|) ensures !Fills(|msg|, k) { LeastZeros(|msg|, k); }
  }

  // ---- section 6.2.2: the compression of one block ----

  function BigEndian(b0: bv8, b1: bv8, b2: bv8, b3: bv8): bv32 {
    (b0 as bv32 << 24) | (b1 as bv32 << 16) | (b2 as bv32 << 8) | b3 as bv32
  }

  /** W_t of step 1; the order of a sum modulo 2^32 does not matter. */
  function Extend(w2: bv32, w7: bv32, w15: bv32, w16: bv32): bv32 {
    Add(Add(Add(w16, SmallSigma0(w15)), w7), SmallSigma1(w2))
  }

  function W(block: seq<bv8>, t: nat): bv32
    requires |block| == BLOCK && t < 64
  {
    if t < 16 then BigEndian(block[4 * t], block[4 * t + 1], block[4 * t + 2], block[4 * t + 3])
    else Extend(W(block, t - 2), W(block, t - 7), W(block, t - 15), W(block, t - 16))
  }

  datatype Vars = Vars(a: bv32, b: bv32, c: bv32, d: bv32, e: bv32, f: bv32, g: bv32, h: bv32)

  function T1(v: Vars, k: bv32, w: bv32): bv32 {
    Add(Add(Add(Add(v.h, BigSigma1(v.e)), Ch(v.e, v.f, v.g)), k), w)
  }

  function T2(v: Vars): bv32 {
    Add(BigSigma0(v.a), Maj(v.a, v.b, v.c))
  }

  function Round(v: Vars, k: bv32, w: bv32): Vars {
    Vars(Add(T1(v, k, w), T2(v)), v.a, v.b, v.c, Add(v.d, T1(v, k, w)), v.e, v.f, v.g)
  }

  /** The working variables after `t` rounds. */
  function Rounds(hash: seq<bv32>, block: seq<bv8>, t: nat): Vars
    requires |hash| == 8 && |block| == BLOCK && t <= 64
  {
    if t == 0 then Vars(hash[0], hash[1], hash[2], hash[3], hash[4], hash[5], hash[6], hash[7])
    else Round(Rounds(hash, block, t - 1), Constant(t - 1), W(block, t - 1))
  }

  function Part(v: Vars, i: nat): bv32
    requires i < 8
  {
    match i
    case 0 => v.a case 1 => v.b case 2 => v.c case 3 => v.d
    case 4 => v.e case 5 => v.f case 6 => v.g case _ => v.h
  }

  function AddVars(hash: seq<bv32>, v: Vars): (r: seq<bv32>)
    requires |hash| == 8
    ensures |r| == 8
  {
    seq(8, i requires 0 <= i < 8 => Add(hash[i], Part(v, i)))
  }

  function Compress(hash: seq<bv32>, block: seq<bv8>): (r: seq<bv32>)
    requires |hash| == 8 && |block| == BLOCK
    ensures |r| == 8
  {
    AddVars(hash, Rounds(hash, block, 64))
  }

  /** The hash value after every block of `msg`. */
  function Chain(msg: seq<bv8>): (r: seq<bv32>)
    requires |msg| % BLOCK == 0
    ensures |r| == 8
  {
    if msg == [] then H0
    else Compress(Chain(msg[..|msg| - BLOCK]), msg[|msg| - BLOCK..])
  }

  function ByteOf(x: bv32, k: nat): bv8
    requires k < 4
  {
    if k == 0 then ((x >> 24) & 0xff) as bv8
    else if k == 1 then ((x >> 16) & 0xff) as bv8
    else if k == 2 then ((x >> 8) & 0xff) as bv8
    else (x & 0xff) as bv8
  }

  function Serialize(hash: seq<bv32>): (r: seq<bv8>)
    requires |hash| == 8
    ensures |r| == 32
  {
    seq(32, i requires 0 <= i < 32 => ByteOf(hash[i / 4], i % 4))
  }

  function Digest(msg: seq<bv8>): (r: seq<bv8>)
    ensures |r| == 32
  {
    PaddingIsLeast(msg);
    Serialize(Chain(Pad(msg)))
  }

  lemma ValueMore(b: seq<bv8>, x: bv8)
    ensures ValueOf(b + [x]) == 256 * ValueOf(b) + FromByte(x)
  {
    hide FromByte;
    assert (b + [x])[..|b|] == b;
  }

  lemma {:induction false} BytesOfValue(v: nat, n: nat)
    requires v < Pow256(n)
    ensures ValueOf(BytesOf(v, n)) == v
  {
    hide ToByte, FromByte;
    if n > 0 {
      BytesOfValue(v / 256, n - 1);
      ValueMore(BytesOf(v / 256, n - 1), ToByte(v % 256));
      hide ValueOf;
      ByteRoundTrip(v % 256);
    }
  }

  /** v >> 8 * k. */
  function ShiftBytes(v: nat, k: nat): nat {
    if k == 0 then v else ShiftBytes(v / 256, k - 1)
  }

  lemma {:induction false} BytesOfAt(v: nat, n: nat, i: nat)
    requires i < n
    ensures BytesOf(v, n)[i] == ToByte(ShiftBytes(v, n - 1 - i) % 256)
  {
    hide ToByte;
    if i < n - 1 { BytesOfAt(v / 256, n - 1, i); }
  }

  lemma PowersOf256()
    ensures Pow256(8) == TWO_64
  {
    assert Pow256(4) == 0x1_0000_0000;
    assert Pow256(6) == 0x1_0000_0000_0000;
  }

  /** Below 2^61 bytes the length field is the whole bit length, as section 5.1.1 asks. */
  lemma LengthFieldIsExact(msg: seq<bv8>)
    requires |msg| < 0x2000_0000_0000_0000
    ensures ValueOf(LengthField(|msg|)) == 8 * |msg|
    ensures LengthField(|msg|) == Pad(msg)[|Pad(msg)| - 8..]
  {
    hide BytesOf, ValueOf, ZeroCount, Zeros, Pow256;
    PowersOf256();
    BytesOfValue(8 * |msg|, 8);
  }
}
