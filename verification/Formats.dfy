/** The formats of keys, masks and tokens, byte by byte: what two programs have to agree on. */
module Formats {
  import opened Text
  import opened Fips180
  import opened Hmac
  import opened KeyDerivation
  import opened Token
  import Utf8
  import Stats

  // ---- HMAC (section 2 of RFC 2104) ----

  /** The key, padded with zeros to 64 bytes, with every byte changed by one constant. */
  predicate PaddedWith(pad: Bytes, key: Bytes, c: bv8) {
    |pad| == 64 && forall i | 0 <= i < 64 :: pad[i] == (if i < |key| then key[i] else 0) ^ c
  }

  lemma OnlyPad(pad: Bytes, key: Bytes, c: bv8)
    requires |key| <= 64
    ensures PaddedWith(pad, key, c) <==> pad == XorEach(KeyBlock(key), c)
  {
    hide Digest;
    var k := KeyBlock(key);
    assert forall i | 0 <= i < 64 :: k[i] == if i < |key| then key[i] else 0;
  }

  /** For keys of a block at most: the hash of the outer pad and of the hash of the inner pad and the text. */
  lemma HmacOfKey(key: Bytes, text: Bytes, inner: Bytes, outer: Bytes)
    requires |key| <= 64 && PaddedWith(inner, key, 0x36) && PaddedWith(outer, key, 0x5c)
    ensures HmacOf(key, text) == Digest(outer + Digest(inner + text))
  {
    OnlyPad(inner, key, 0x36);
    OnlyPad(outer, key, 0x5c);
    hide Digest, XorEach, KeyBlock;
  }

  /** Longer keys are hashed first. */
  lemma HmacOfLongKey(key: Bytes, text: Bytes)
    requires |key| > 64
    ensures HmacOf(key, text) == HmacOf(Digest(key), text)
  {
    assert KeyBlock(key) == KeyBlock(Digest(key));
    hide Digest, XorEach, KeyBlock;
  }

  // ---- the mask of a build ----

  /** Every embedded byte is the secret's, changed by the mask in turn and by 31 for the index and 7 for the place. */
  lemma MaskBytes(secret: Bytes, mask: Bytes, index: nat, i: nat)
    requires mask != [] && i < |secret|
    ensures HexPairs(HexOf(mask)) == mask
    ensures var embedded := HexPairs(Mask(secret, HexOf(mask), index));
            |embedded| == |secret| && embedded[i] == secret[i] ^ mask[i % |mask|] ^ ToByte((31 * index + 7 * i) % 256)
  {
    ApplyAt(secret, mask, index, i);
    hide Apply, HexPairs, HexOf, ToByte;
    HexRoundTrip(mask);
    HexRoundTrip(Apply(secret, mask, index));
  }

  lemma ApplyAt(data: Bytes, mask: Bytes, index: nat, i: nat)
    requires mask != [] && i < |data|
    ensures Apply(data, mask, index)[i] == data[i] ^ mask[i % |mask|] ^ ToByte((31 * index + 7 * i) % 256)
  {
    hide ToByte;
  }

  lemma FirstPair(c: char, d: char, rest: string)
    ensures var h := [c, d] + rest;
            HexPairs(h) == if IsHexDigit(c) && IsHexDigit(d) then [PairByte(h)] + HexPairs(rest) else []
  {
    hide IsHexDigit, PairByte;
    assert ([c, d] + rest)[2..] == rest;
  }

  lemma OnePair(x: bv8, rest: string)
    ensures HexPairs(HexOf([x]) + rest) == [x] + HexPairs(rest)
  {
    hide ToByte, FromByte, HexDigit, HexValue, IsHexDigit, HexPairs;
    ByteFromByte(x);
    var v := FromByte(x);
    var c, d := HexDigit(v / 16), HexDigit(v % 16);
    HexDigitRoundTrip(v / 16);
    HexDigitRoundTrip(v % 16);
    FirstPair(c, d, rest);
    assert HexOf([x]) == [c, d];
  }

  lemma HexMore(x: bv8, b: Bytes)
    ensures HexOf([]) == "" && HexOf([x] + b) == HexOf([x]) + HexOf(b)
  {
    hide FromByte, HexDigit;
    assert ([x] + b)[1..] == b;
  }

  lemma {:induction false} PairsAppend(b: Bytes, rest: string)
    ensures HexPairs(HexOf(b) + rest) == b + HexPairs(rest)
  {
    hide HexOf, HexPairs;
    if b == [] {
      HexMore(0, []);
      assert "" + rest == rest;
    } else {
      var x, more := b[0], b[1..];
      HexMore(x, more);
      OnePair(x, HexOf(more) + rest);
      PairsAppend(more, rest);
      assert b == [x] + more && HexOf(b) + rest == HexOf([x]) + (HexOf(more) + rest);
    }
  }

  /** The native reader stops at the first pair that is not hexadecimal, and drops an odd last digit. */
  lemma StopsAtBadPair(b: Bytes, x: char, y: char, rest: string)
    ensures HexPairs(HexOf(b) + [x]) == b
    ensures !IsHexDigit(x) || !IsHexDigit(y) ==> HexPairs(HexOf(b) + ([x, y] + rest)) == b
  {
    hide IsHexDigit, PairByte, HexOf;
    PairsAppend(b, [x]);
    PairsAppend(b, [x, y] + rest);
    FirstPair(x, y, rest);
  }

  /** Without a mask that has a byte, the native reader takes the value as it is. */
  lemma NoUsableMask(embedded: string, maskHex: string, index: nat)
    requires |maskHex| < 2 || !IsHexDigit(maskHex[0]) || !IsHexDigit(maskHex[1])
    ensures NativeUnmask(embedded, maskHex, index) == Ascii(embedded)
  {
    hide Ascii, IsHexDigit;
  }

  /** When the Dart reader throws: at a pair that is not hexadecimal, dividing by an empty mask, or at malformed UTF-8. */
  lemma DartFailsIff(embedded: string, maskHex: string, index: nat)
    ensures DartUnmask(embedded, maskHex, index) == None
       <==> && embedded != "" && maskHex != ""
            && (|| !OnlyHexPairs(embedded) || !OnlyHexPairs(maskHex)
                || (|maskHex| == 1 && |embedded| > 1)
                || (|maskHex| > 1 && Utf8.Decode(OctetsOf(NativeUnmask(embedded, maskHex, index))) == None))
  {
    hide Utf8.Decode, Utf8.Encode, Apply, OctetsOf, HexPairs, OnlyHexPairs, IsHexDigit, BytesFrom;
    DartPairsIff(embedded);
    DartPairsIff(maskHex);
    hide DartPairs;
  }

  /** Hexadecimal digits in lower case. */
  lemma HexDigits(d: nat)
    requires d < 16
    ensures HexDigit(d) == "0123456789abcdef"[d]
  {
  }

  // ---- the file key ----

  /** One part of the secret, mixed with the fixed constant and with 31 for its number. */
  predicate MixedPart(mixed: Bytes, part: Bytes, p: nat) {
    && |mixed| == |part|
    && forall i | 0 <= i < |part| ::
         mixed[i] == part[i] ^ [0x5e, 0x27, 0x93, 0xc1, 0x6f, 0x0a, 0xd8, 0x44][i % 8] ^ ToByte(31 * p % 256)
  }

  lemma OnlyMix(mixed: Bytes, part: Bytes, p: nat)
    ensures MixedPart(mixed, part, p) <==> mixed == MixPart(part, p)
  {
    hide ToByte;
    assert forall i | 0 <= i < |part| :: i % 8 < 8;
  }

  /** The key material is the four mixed parts in order, the generation, and the tag of a tampered environment. */
  lemma MaterialOf(parts: seq<Bytes>, mixed: seq<Bytes>, gen: int, env: Bytes)
    requires |parts| == |mixed| == 4 && forall p | 0 <= p < 4 :: MixedPart(mixed[p], parts[p], p)
    ensures KeyMaterial(parts, gen, env)
         == mixed[0] + mixed[1] + mixed[2] + mixed[3] + Ascii("ovsea|v3|gen" + DecimalOf(gen))
            + if env == [] then [] else Ascii("|env:") + env
  {
    hide MixPart, MixedPart, Ascii, DecimalOf;
    OnlyMix(mixed[0], parts[0], 0);
    OnlyMix(mixed[1], parts[1], 1);
    OnlyMix(mixed[2], parts[2], 2);
    OnlyMix(mixed[3], parts[3], 3);
    AsciiConcat("ovsea|v3|gen", DecimalOf(gen));
    assert parts[..3][..2] == parts[..2] && parts[..2][..1] == parts[..1] && parts[..1][..0] == [] && parts[..4] == parts;
    assert Assemble(parts[..1]) == mixed[0];
    assert Assemble(parts[..2]) == mixed[0] + mixed[1];
    assert Assemble(parts[..3]) == mixed[0] + mixed[1] + mixed[2];
  }

  /** 4096 rounds over salt and domain: each is the HMAC, under the same key, of the one before. */
  lemma RoundsOf(parts: seq<Bytes>, gen: int, salt: Bytes, env: Bytes, chain: seq<Bytes>)
    requires var key := KeyMaterial(parts, gen, env);
             |chain| == 4097 && chain[0] == salt + Ascii("ovsea-lock-v3")
             && forall i | 0 < i < 4097 :: chain[i] == HmacOf(key, chain[i - 1])
    ensures FileKey(parts, gen, salt, env) == chain[4096]
  {
    hide HmacOf, KeyMaterial, Ascii;
    RoundOf(KeyMaterial(parts, gen, env), chain, 4096);
  }

  lemma {:induction false} RoundOf(key: Bytes, chain: seq<Bytes>, i: nat)
    requires i < |chain| && forall j | 0 < j < |chain| :: chain[j] == HmacOf(key, chain[j - 1])
    ensures Stretch(key, chain[0], i) == chain[i]
  {
    hide HmacOf;
    if i > 0 { RoundOf(key, chain, i - 1); }
  }

  // ---- tokens ----

  /** Handle, day and MAC of a token, from the texts that are hashed. */
  lemma TokenIs(key: Bytes, code: string, fp: string, t: int)
    ensures var day := DecimalOf(Stats.Day(t));
            Token.Token(key, code, fp, t)
            == HexOf(Digest(Ascii("ovsea-code-id|" + code))[..8]) + "." + day + "."
               + HexOf(HmacOf(key, Ascii("ovsea-gate-v2|" + code + "|" + fp + "|" + day)))
  {
    hide HexOf, HmacOf, Digest, Ascii, DecimalOf, Stats.Day;
  }

  /** The key of a tampered environment. */
  lemma TaggedIs(key: Bytes, env: Bytes)
    ensures TaggedKey(key, []) == key
    ensures env != [] ==> TaggedKey(key, env) == key + Ascii("|env:") + env
  {
  }

  // ---- why a token is refused ----

  /** No keys, then no token, then its shape. */
  lemma RefusedEarly(tok: string, entries: Entries, keys: seq<Bytes>, now: int, skew: int)
    ensures keys == [] ==> CheckSkew(tok, entries, keys, now, skew) == (NoKeys, "")
    ensures keys != [] && tok == "" ==> CheckSkew(tok, entries, keys, now, skew) == (NoToken, "")
    ensures keys != [] && tok != "" && (forall a, b, c :: !ThreeTexts(tok, a, b, c)) ==>
              CheckSkew(tok, entries, keys, now, skew) == (BadFormat, "")
  {
    hide Stats.Day, MacMatches, ParseInt64, Split;
    if |Split(tok, '.')| == 3 {
      var p := Split(tok, '.');
      ThreeParts(tok);
      SplitParts(tok, '.');
      assert p[0] in p && p[1] in p && p[2] in p;
      assert ThreeTexts(tok, p[0], p[1], p[2]);
    }
  }

  /** Three texts without dots, between dots. */
  predicate ThreeTexts(tok: string, a: string, b: string, c: string) {
    '.' !in a && '.' !in b && '.' !in c && tok == a + "." + b + "." + c
  }

  /** Then the length of the MAC, the handle, the day and its window, and the MAC itself. */
  lemma RefusedLate(tok: string, a: string, b: string, c: string, entries: Entries, keys: seq<Bytes>, now: int, skew: int)
    requires keys != [] && ThreeTexts(tok, a, b, c)
    ensures var verdict := CheckSkew(tok, entries, keys, now, skew).0;
            if |c| != 64 then verdict == BadFormat
            else if a !in entries then verdict == UnknownCode
            else if ParseInt64(b) == None then verdict == BadFormat
            else if !(Stats.Day(now) - skew <= ParseInt64(b).value <= Stats.Day(now) + skew) then verdict == BadDay
            else verdict == if exists key <- keys :: c == Mac(key, entries[a].code, entries[a].creatorFp, ParseInt64(b).value)
                            then OK else BadMac
  {
    hide Stats.Day, ParseInt64, Split, Mac;
    SplitThree(a, b, c);
    if a in entries && ParseInt64(b).Some? {
      var e, day := entries[a], ParseInt64(b).value;
      assert (exists key <- keys :: c == Mac(key, e.code, e.creatorFp, day))
        <==> exists i | 0 <= i < |keys| :: Mac(keys[i], e.code, e.creatorFp, day) == c by {
        if key :| key in keys && c == Mac(key, e.code, e.creatorFp, day) {
          var i :| 0 <= i < |keys| && keys[i] == key;
        }
      }
    }
  }
}
