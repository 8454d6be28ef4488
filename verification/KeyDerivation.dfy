/** The lock key and the gate MAC, derived by ovs_core.cpp and by its Dart twin. Text is its UTF-8 bytes. */
module KeyDerivation {
  import opened Fips180
  import opened Hmac
  import opened Text
  import Utf8

  // ---- literals hidden by obf.h ----

  function Ascii(s: string): (r: Bytes)
    ensures |r| == |s|
  {
    seq(|s|, i requires 0 <= i < |s| => ToByte(s[i] as int % 256))
  }

  /** Compile-time and run-time halves of OBF are the same XOR with (K + 7 * i) modulo 256. */
  function Scramble(b: Bytes, k: nat): (r: Bytes)
    ensures |r| == |b|
  {
    seq(|b|, i requires 0 <= i < |b| => b[i] ^ ToByte((k + i * 7) % 256))
  }

  lemma XorTwice(a: bv8, b: bv8)
    ensures (a ^ b) ^ b == a
  {
  }

  /** OBF(literal) on a given source line: what the program reads is the literal itself. */
  function Obf(literal: string, line: nat): (r: Bytes)
    ensures r == Ascii(literal)
  {
    var k := (line * 37 + 11) % 256;
    var b := Ascii(literal);
    assert Scramble(Scramble(b, k), k) == b by {
      forall i | 0 <= i < |b| ensures Scramble(Scramble(b, k), k)[i] == b[i] {
        XorTwice(b[i], ToByte((k + i * 7) % 256));
      }
    }
    Scramble(Scramble(b, k), k)
  }

  // ---- hexadecimal ----

  function HexDigit(d: nat): char
    requires d < 16
  {
    if d < 10 then (d + 48) as char else (d + 87) as char
  }

  lemma HexDigitRoundTrip(d: nat)
    requires d < 16
    ensures IsHexDigit(HexDigit(d)) && HexValue(HexDigit(d)) == d
  {
  }

  function HexOf(b: Bytes): (h: string)
    ensures |h| == 2 * |b|
  {
    if b == [] then ""
    else [HexDigit(FromByte(b[0]) / 16), HexDigit(FromByte(b[0]) % 16)] + HexOf(b[1..])
  }

  function PairByte(h: string): bv8
    requires |h| >= 2 && IsHexDigit(h[0]) && IsHexDigit(h[1])
  {
    ToByte(16 * HexValue(h[0]) + HexValue(h[1]))
  }

  /** Digit pairs up to the first pair that is not hexadecimal; a trailing odd digit is ignored. */
  function HexPairs(h: string): (b: Bytes)
    ensures |b| <= |h| / 2
    ensures (forall c <- h :: IsHexDigit(c)) ==> |b| == |h| / 2
  {
    if |h| < 2 || !IsHexDigit(h[0]) || !IsHexDigit(h[1]) then []
    else [PairByte(h)] + HexPairs(h[2..])
  }

  lemma ByteFromByte(b: bv8)
    ensures FromByte(b) < 256 && ToByte(FromByte(b)) == b
  {
  }

  lemma {:induction false} HexRoundTrip(b: Bytes)
    ensures HexPairs(HexOf(b)) == b
    ensures forall c <- HexOf(b) :: IsHexDigit(c)
  {
    hide ToByte, FromByte, HexDigit, HexValue, IsHexDigit;
    if b != [] {
      HexRoundTrip(b[1..]);
      ByteFromByte(b[0]);
      var v := FromByte(b[0]);
      HexDigitRoundTrip(v / 16);
      HexDigitRoundTrip(v % 16);
      assert HexOf(b)[2..] == HexOf(b[1..]);
    }
  }

  // ---- masking (secret_mask.dart) ----

  function MaskKey(index: nat, i: nat): bv8 {
    ToByte((index * 31 + i * 7) % 256)
  }

  function Apply(data: Bytes, mask: Bytes, index: nat): (r: Bytes)
    requires mask != []
    ensures |r| == |data|
  {
    seq(|data|, i requires 0 <= i < |data| => data[i] ^ mask[i % |mask|] ^ MaskKey(index, i))
  }

  /** What the build embeds for `secret`. */
  function Mask(secret: Bytes, maskHex: string, index: nat): string
    requires HexPairs(maskHex) != []
  {
    HexOf(Apply(secret, HexPairs(maskHex), index))
  }

  lemma XorThrice(d: bv8, m: bv8, k: bv8)
    ensures (d ^ m ^ k) ^ m ^ k == d
  {
  }

  lemma ApplyTwice(data: Bytes, mask: Bytes, index: nat)
    requires mask != []
    ensures Apply(Apply(data, mask, index), mask, index) == data
  {
    hide MaskKey;
    var r := Apply(Apply(data, mask, index), mask, index);
    forall i | 0 <= i < |data| ensures r[i] == data[i] {
      XorThrice(data[i], mask[i % |mask|], MaskKey(index, i));
    }
  }

  /** bytesOfHex in Dart, of whole pairs; None is a pair that int.parse rejects. */
  function DartPairs(h: string): Option<Bytes> {
    if |h| < 2 then Some([])
    else if !IsHexDigit(h[0]) || !IsHexDigit(h[1]) then None
    else match DartPairs(h[2..]) case None => None case Some(rest) => Some([PairByte(h)] + rest)
  }

  predicate OnlyHexPairs(h: string) {
    |h| < 2 || (IsHexDigit(h[0]) && IsHexDigit(h[1]) && OnlyHexPairs(h[2..]))
  }

  lemma {:induction false} DartPairsIff(h: string)
    ensures DartPairs(h) == if OnlyHexPairs(h) then Some(HexPairs(h)) else None
    ensures OnlyHexPairs(h) ==> |HexPairs(h)| == |h| / 2
  {
    hide PairByte, IsHexDigit;
    if |h| >= 2 { DartPairsIff(h[2..]); }
  }

  function OctetsOf(b: Bytes): (r: Utf8.Octets)
    ensures |r| == |b|
  {
    seq(|b|, i requires 0 <= i < |b| => FromByte(b[i]))
  }

  function BytesFrom(o: Utf8.Octets): (r: Bytes)
    ensures |r| == |o|
  {
    seq(|o|, i requires 0 <= i < |o| => ToByte(o[i]))
  }

  lemma OctetsBack(b: Bytes, o: Utf8.Octets)
    ensures BytesFrom(OctetsOf(b)) == b
    ensures BytesFrom(o) == b <==> o == OctetsOf(b)
  {
    forall x: nat | x < 256 ensures FromByte(ToByte(x)) == x { ByteRoundTrip(x); }
    hide ToByte, FromByte;
    forall i | 0 <= i < |b| ensures ToByte(FromByte(b[i])) == b[i] { ByteFromByte(b[i]); }
    if BytesFrom(o) == b {
      forall i | 0 <= i < |o| ensures o[i] == OctetsOf(b)[i] { assert FromByte(BytesFrom(o)[i]) == o[i]; }
    }
  }

  /** A Dart string made of these bytes by utf8.decode, as the bytes that utf8.encode gives back. */
  function Decoded(b: Bytes): Option<Bytes> {
    match Utf8.Read(OctetsOf(b)) case None => None case Some(t) => Some(BytesFrom(Utf8.Encode(t)))
  }

  /** Well-formed UTF-8 without a byte order mark in front. */
  predicate IsWhole(b: Bytes) {
    Utf8.Whole(OctetsOf(b))
  }

  lemma DecodedIff(b: Bytes)
    ensures Decoded(b) == Some(b) <==> IsWhole(b)
  {
    hide Utf8.Encode, Utf8.Read, Utf8.Whole;
    Utf8.ReadWriteIff(OctetsOf(b));
    if Utf8.Read(OctetsOf(b)).Some? { OctetsBack(b, Utf8.Encode(Utf8.Read(OctetsOf(b)).value)); }
  }

  /** unmask in Dart; None is a bad pair, malformed UTF-8, or the division by zero of an empty mask under a value. */
  function DartUnmask(embedded: string, maskHex: string, index: nat): Option<Bytes> {
    if maskHex == "" || embedded == "" then Some(Ascii(embedded))
    else
      match (DartPairs(embedded), DartPairs(maskHex))
      case (Some(data), Some(mask)) =>
        if mask != [] then Decoded(Apply(data, mask, index)) else if data == [] then Some([]) else None
      case _ => None
  }

  /** unmask in C++ returns the value itself when there is no usable mask. */
  function NativeUnmask(embedded: string, maskHex: string, index: nat): Bytes {
    if maskHex == "" || embedded == "" || HexPairs(maskHex) == [] then Ascii(embedded)
    else Apply(HexPairs(embedded), HexPairs(maskHex), index)
  }

  method FromHex(h: string) returns (out: Bytes)
    ensures out == HexPairs(h)
  {
    hide ToByte, HexValue, IsHexDigit;
    out := [];
    var i := 0;
    while i + 1 < |h|
      invariant i <= |h|
      invariant out + HexPairs(h[i..]) == HexPairs(h)
    {
      if !IsHexDigit(h[i]) || !IsHexDigit(h[i + 1]) { return; }
      assert h[i..][2..] == h[i + 2..];
      out := out + [ToByte(16 * HexValue(h[i]) + HexValue(h[i + 1]))];
      i := i + 2;
    }
  }

  method Unmask(embedded: string, maskHex: string, index: nat) returns (out: Bytes)
    ensures out == NativeUnmask(embedded, maskHex, index)
  {
    hide HexPairs, MaskKey, Ascii;
    if maskHex == "" || embedded == "" { return Ascii(embedded); }
    var data := FromHex(embedded);
    var mask := FromHex(maskHex);
    if mask == [] { return Ascii(embedded); }
    out := [];
    for i := 0 to |data|
      invariant out == Apply(data, mask, index)[..i]
    {
      out := out + [data[i] ^ mask[i % |mask|] ^ MaskKey(index, i)];
    }
  }

  /** Under every non-empty mask, at every index, the native reader recovers every secret, and the Dart
      reader exactly the secrets that a Dart string can carry. */
  lemma UnmaskUndoesMask(secret: Bytes, mask: Bytes, index: nat)
    requires mask != []
    ensures HexPairs(HexOf(mask)) == mask
    ensures NativeUnmask(Mask(secret, HexOf(mask), index), HexOf(mask), index) == secret
    ensures DartUnmask(Mask(secret, HexOf(mask), index), HexOf(mask), index) == Some(secret) <==> IsWhole(secret)
  {
    hide IsHexDigit, MaskKey, Decoded, IsWhole, HexPairs;
    HexRoundTrip(mask);
    HexRoundTrip(Apply(secret, mask, index));
    HexIsPairs(HexOf(mask));
    HexIsPairs(HexOf(Apply(secret, mask, index)));
    DartPairsIff(HexOf(mask));
    DartPairsIff(HexOf(Apply(secret, mask, index)));
    ApplyTwice(secret, mask, index);
    DecodedIff(secret);
    if secret == [] { EmptyIsWhole(); }
  }

  lemma {:induction false} HexIsPairs(h: string)
    requires forall c <- h :: IsHexDigit(c)
    ensures OnlyHexPairs(h)
  {
    hide IsHexDigit;
    if |h| >= 2 { HexIsPairs(h[2..]); }
  }

  lemma EmptyIsWhole()
    ensures IsWhole([])
  {
  }

  /** `mask` of a Dart string, and `unmask` of that: the same string, unless it begins with a byte order mark. */
  lemma TextSurvivesMask(text: seq<nat>, mask: Bytes, index: nat)
    requires Utf8.IsText(text) && mask != []
    ensures HexPairs(HexOf(mask)) == mask
    ensures var secret := BytesFrom(Utf8.Encode(text));
            var embedded := Mask(secret, HexOf(mask), index);
            DartUnmask(embedded, HexOf(mask), index) == Some(secret) <==> text == [] || text[0] != Utf8.BOM
  {
    hide DartUnmask, Mask, Utf8.Encode, Utf8.Whole;
    var secret := BytesFrom(Utf8.Encode(text));
    UnmaskUndoesMask(secret, mask, index);
    OctetsBack(secret, Utf8.Encode(text));
    Utf8.WholeText(text);
  }

  /** What the two readers need to agree on a masked value: hexadecimal pairs only, at least one of them in the
      mask, and bytes that a Dart string can carry. */
  predicate MaskReads(embedded: string, maskHex: string, index: nat) {
    maskHex == ""
    || (OnlyHexPairs(embedded) && OnlyHexPairs(maskHex) && |maskHex| != 1 && IsWhole(NativeUnmask(embedded, maskHex, index)))
  }

  /** The two readers agree exactly under that condition, or on an empty value. */
  lemma ReadersAgree(embedded: string, maskHex: string, index: nat)
    ensures DartUnmask(embedded, maskHex, index) == Some(NativeUnmask(embedded, maskHex, index))
       <==> embedded == "" || MaskReads(embedded, maskHex, index)
  {
    hide IsHexDigit, MaskKey, Decoded, IsWhole, OnlyHexPairs, HexPairs;
    DecodedIff(NativeUnmask(embedded, maskHex, index));
    DartPairsIff(embedded);
    DartPairsIff(maskHex);
    hide DartPairs;
    assert embedded != "" ==> |Ascii(embedded)| > 0;
  }

  // ---- the file key ----

  const MIX: Bytes := [0x5e, 0x27, 0x93, 0xc1, 0x6f, 0x0a, 0xd8, 0x44]
  const PARTS := 4
  const ROUNDS := 4096

  function MixPart(part: Bytes, p: nat): (r: Bytes)
    ensures |r| == |part|
  {
    seq(|part|, i requires 0 <= i < |part| => part[i] ^ MIX[i % 8] ^ ToByte(p * 31 % 256))
  }

  /** The inner loop of both assemblies. */
  method MixBytes(part: Bytes, p: nat) returns (r: Bytes)
    ensures r == MixPart(part, p)
  {
    hide ToByte;
    r := [];
    for i := 0 to |part|
      invariant r == MixPart(part, p)[..i]
    {
      r := r + [part[i] ^ MIX[i % 8] ^ ToByte(p * 31 % 256)];
    }
  }

  /** The mixed parts in order. */
  function Assemble(parts: seq<Bytes>): Bytes {
    if parts == [] then [] else Assemble(parts[..|parts| - 1]) + MixPart(parts[|parts| - 1], |parts| - 1)
  }

  function KeyMaterial(parts: seq<Bytes>, gen: int, env: Bytes): Bytes {
    Assemble(parts) + Ascii("ovsea|v3|gen") + Ascii(DecimalOf(gen)) +
    if env == [] then [] else Ascii("|env:") + env
  }

  /** `rounds` nested HMACs under one key, the innermost over `first`. */
  function Stretch(key: Bytes, first: Bytes, rounds: nat): Bytes {
    if rounds == 0 then first else HmacOf(key, Stretch(key, first, rounds - 1))
  }

  function FileKey(parts: seq<Bytes>, gen: int, salt: Bytes, env: Bytes): Bytes {
    Stretch(KeyMaterial(parts, gen, env), salt + Ascii("ovsea-lock-v3"), ROUNDS)
  }

  function Unmasked(embedded: seq<string>, maskHex: string): (r: seq<Bytes>)
    ensures |r| == |embedded|
  {
    seq(|embedded|, p requires 0 <= p < |embedded| => NativeUnmask(embedded[p], maskHex, p))
  }

  /** derive_file_key of ovs_core.cpp; None is its `false`. */
  method DeriveFileKey(embedded: seq<string>, maskHex: string, gen: int, salt: Bytes, env: Bytes)
    returns (out: Option<Bytes>)
    requires |embedded| == PARTS
    ensures "" in embedded ==> out == None
    ensures "" !in embedded ==> out == Some(FileKey(Unmasked(embedded, maskHex), gen, salt, env))
  {
    hide HmacOf, Ascii, NativeUnmask, MixPart, DecimalOf;
    for p := 0 to PARTS
      invariant "" !in embedded[..p]
    {
      if embedded[p] == "" { return None; }
      assert embedded[..p + 1] == embedded[..p] + [embedded[p]];
    }
    assert embedded[..PARTS] == embedded;
    ghost var parts := Unmasked(embedded, maskHex);
    var key: Bytes := [];
    for p := 0 to PARTS
      invariant key == Assemble(parts[..p])
    {
      var part := Unmask(embedded[p], maskHex, p);
      var mixed := MixBytes(part, p);
      key := key + mixed;
      assert parts[..p + 1][..p] == parts[..p];
    }
    assert parts[..PARTS] == parts;
    var tail := Obf("ovsea|v3|gen", 64) + Ascii(DecimalOf(gen));
    if env != [] { tail := tail + (Obf("|env:", 65) + env); }
    key := key + tail;
    assert key == KeyMaterial(parts, gen, env);
    var msg := salt + Obf("ovsea-lock-v3", 70);
    var acc := HmacSha256(key, msg);
    assert acc == Stretch(key, msg, 1);
    for i := 1 to ROUNDS
      invariant acc == Stretch(key, msg, i)
    {
      acc := HmacSha256(key, acc);
    }
    out := Some(acc);
  }

  function DartParts(embedded: seq<string>, maskHex: string): Option<seq<Bytes>> {
    if exists p | 0 <= p < |embedded| :: DartUnmask(embedded[p], maskHex, p) == None then None
    else Some(seq(|embedded|, p requires 0 <= p < |embedded| => DartUnmask(embedded[p], maskHex, p).value))
  }

  /** _assembleSecret of locked_config_codec.dart; None stands for its exceptions. */
  method DartAssemble(embedded: seq<string>, maskHex: string) returns (out: Option<Bytes>)
    requires |embedded| == PARTS
    ensures out == if "" in embedded || DartParts(embedded, maskHex) == None then None
                   else Some(Assemble(DartParts(embedded, maskHex).value))
  {
    hide Ascii, DartUnmask, MixPart;
    if "" in embedded { return None; }
    ghost var parts := DartParts(embedded, maskHex);
    var secret: Bytes := [];
    for p := 0 to PARTS
      invariant forall q | 0 <= q < p :: DartUnmask(embedded[q], maskHex, q) != None
      invariant parts.Some? ==> secret == Assemble(parts.value[..p])
    {
      var bytes := DartUnmask(embedded[p], maskHex, p);
      if bytes == None { return None; }
      var mixed := MixBytes(bytes.value, p);
      secret := secret + mixed;
      assert parts.Some? ==> parts.value[..p + 1][..p] == parts.value[..p];
    }
    assert parts.value[..PARTS] == parts.value;
    out := Some(secret);
  }

  /** _deriveKey of locked_config_codec.dart without the native core. */
  method DartDeriveKey(embedded: seq<string>, maskHex: string, gen: int, salt: Bytes, env: Bytes)
    returns (out: Option<Bytes>)
    requires |embedded| == PARTS
    ensures out == if "" in embedded || DartParts(embedded, maskHex) == None then None
                   else Some(FileKey(DartParts(embedded, maskHex).value, gen, salt, env))
  {
    hide HmacOf, Ascii, DartParts, Assemble, DecimalOf;
    var assembled := DartAssemble(embedded, maskHex);
    if assembled == None { return None; }
    var secret := assembled.value + Ascii("ovsea|v3|gen") + Ascii(DecimalOf(gen)) +
      if env == [] then [] else Ascii("|env:") + env;
    var first := salt + Ascii("ovsea-lock-v3");
    var acc := HmacOf(secret, first);
    assert acc == Stretch(secret, first, 1);
    for i := 1 to ROUNDS
      invariant acc == Stretch(secret, first, i)
    {
      acc := HmacOf(secret, acc);
    }
    out := Some(acc);
  }

  /** The two derivations start from the same parts exactly when every part reads alike. */
  lemma DerivationsAgree(embedded: seq<string>, maskHex: string)
    requires |embedded| == PARTS && "" !in embedded
    ensures DartParts(embedded, maskHex) == Some(Unmasked(embedded, maskHex))
       <==> forall p | 0 <= p < PARTS :: MaskReads(embedded[p], maskHex, p)
  {
    hide DartUnmask, NativeUnmask, MaskReads;
    forall p | 0 <= p < PARTS
      ensures DartUnmask(embedded[p], maskHex, p) == Some(NativeUnmask(embedded[p], maskHex, p))
         <==> MaskReads(embedded[p], maskHex, p)
    {
      assert embedded[p] != "";
      ReadersAgree(embedded[p], maskHex, p);
    }
    PartsEqualIff(embedded, maskHex, Unmasked(embedded, maskHex));
  }

  lemma PartsEqualIff(embedded: seq<string>, maskHex: string, parts: seq<Bytes>)
    requires |parts| == |embedded|
    ensures DartParts(embedded, maskHex) == Some(parts)
       <==> forall p | 0 <= p < |parts| :: DartUnmask(embedded[p], maskHex, p) == Some(parts[p])
  {
    hide DartUnmask;
    var d := DartParts(embedded, maskHex);
    if d == Some(parts) {
      forall p | 0 <= p < |parts| ensures DartUnmask(embedded[p], maskHex, p) == Some(parts[p]) {
        assert parts[p] == DartUnmask(embedded[p], maskHex, p).value;
      }
    }
    if forall p | 0 <= p < |parts| :: DartUnmask(embedded[p], maskHex, p) == Some(parts[p]) {
      assert d.value == parts;
    }
  }

  /** A release build embeds masked parts: the native derivation starts from the original secrets, and the
      Dart one does exactly when each of them is one that a Dart string can carry. */
  lemma MaskedBuild(secrets: seq<Bytes>, mask: Bytes, embedded: seq<string>)
    requires mask != [] && |embedded| == |secrets|
    requires forall p | 0 <= p < |secrets| ::
               HexPairs(HexOf(mask)) != [] && embedded[p] == Mask(secrets[p], HexOf(mask), p)
    ensures Unmasked(embedded, HexOf(mask)) == secrets
    ensures DartParts(embedded, HexOf(mask)) == Some(secrets) <==> forall s <- secrets :: IsWhole(s)
  {
    hide NativeUnmask, DartUnmask, Mask, IsWhole;
    forall p | 0 <= p < |secrets|
      ensures NativeUnmask(embedded[p], HexOf(mask), p) == secrets[p]
      ensures DartUnmask(embedded[p], HexOf(mask), p) == Some(secrets[p]) <==> IsWhole(secrets[p])
    {
      UnmaskUndoesMask(secrets[p], mask, p);
    }
    PartsEqualIff(embedded, HexOf(mask), secrets);
    assert forall p | 0 <= p < |secrets| :: secrets[p] in secrets;
  }

  // ---- the gate MAC ----

  /** The hexadecimal HMAC a token carries. */
  function GateMac(key: Bytes, code: Bytes, fp: Bytes, day: int): (h: string)
    ensures |h| == 64
  {
    HexOf(HmacOf(key, Ascii("ovsea-gate-v2|") + code + Ascii("|") + fp + Ascii("|") + Ascii(DecimalOf(day))))
  }

  /** The app key as a tampered environment changes it; an empty tag leaves the server's key. */
  function TaggedKey(key: Bytes, env: Bytes): Bytes {
    if env == [] then key else key + Ascii("|env:") + env
  }

  method ToHex(b: Bytes) returns (s: string)
    ensures s == HexOf(b)
  {
    hide FromByte, HexDigit;
    s := "";
    for i := 0 to |b|
      invariant s + HexOf(b[i..]) == HexOf(b)
    {
      assert b[i..][1..] == b[i + 1..];
      s := s + [HexDigit(FromByte(b[i]) / 16), HexDigit(FromByte(b[i]) % 16)];
    }
  }

  /** gate_mac of ovs_core.cpp; None is its `false`. */
  method NativeGateMac(gate: string, maskHex: string, code: Bytes, fp: Bytes, day: int, env: Bytes)
    returns (out: Option<string>)
    ensures out == if gate == "" then None
                   else Some(GateMac(TaggedKey(NativeUnmask(gate, maskHex, 4), env), code, fp, day))
  {
    hide HmacOf, Ascii, NativeUnmask, DecimalOf, HexOf;
    if gate == "" { return None; }
    var key := Unmask(gate, maskHex, 4);
    if env != [] { key := key + Obf("|env:", 90) + env; }
    var msg := Obf("ovsea-gate-v2|", 91) + code + Obf("|", 91) + fp + Obf("|", 91) + Ascii(DecimalOf(day));
    var mac := HmacSha256(key, msg);
    var hex := ToHex(mac);
    out := Some(hex);
  }
}
