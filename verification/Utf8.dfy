/** UTF-8 (section 3 of RFC 3629) as dart:convert reads and writes it. A text is its Unicode scalar values. */
module Utf8 {
  import opened Text

  type Octet = x: nat | x < 256
  type Octets = seq<Octet>

  const BOM := 0xFEFF
  const BOM_OCTETS: Octets := [0xEF, 0xBB, 0xBF]

  /** Everything up to U+10FFFF but the surrogates. */
  predicate Scalar(v: nat) {
    v < 0xD800 || 0xE000 <= v < 0x11_0000
  }

  predicate IsText(text: seq<nat>) {
    forall i | 0 <= i < |text| :: Scalar(text[i])
  }

  // ---- writing ----

  function EncodeScalar(v: nat): (r: Octets)
    requires Scalar(v)
    ensures r != []
  {
    if v < 0x80 then [v]
    else if v < 0x800 then [0xC0 + v / 64, 0x80 + v % 64]
    else if v < 0x1_0000 then [0xE0 + v / 64 / 64, 0x80 + v / 64 % 64, 0x80 + v % 64]
    else [0xF0 + v / 64 / 64 / 64, 0x80 + v / 64 / 64 % 64, 0x80 + v / 64 % 64, 0x80 + v % 64]
  }

  /** utf8.encode. */
  function Encode(text: seq<nat>): Octets
    requires IsText(text)
  {
    if text == [] then [] else EncodeScalar(text[0]) + Encode(text[1..])
  }

  // ---- reading ----

  predicate Tail(o: nat) {
    0x80 <= o < 0xC0
  }

  function Six(v: nat, o: nat): nat
    requires Tail(o)
  {
    64 * v + (o - 0x80)
  }

  function Within(v: nat, n: nat, low: nat): Option<(nat, nat)> {
    if low <= v && Scalar(v) then Some((v, n)) else None
  }

  /** The first scalar value and the number of its octets; None for octets that the standard forbids,
      overlong forms and surrogates among them. */
  function First(b: Octets): Option<(nat, nat)>
    requires b != []
  {
    var o := b[0];
    if o < 0x80 then Some((o, 1))
    else if 0xC0 <= o < 0xE0 && |b| >= 2 && Tail(b[1]) then Within(Six(o - 0xC0, b[1]), 2, 0x80)
    else if 0xE0 <= o < 0xF0 && |b| >= 3 && Tail(b[1]) && Tail(b[2]) then
      Within(Six(Six(o - 0xE0, b[1]), b[2]), 3, 0x800)
    else if 0xF0 <= o < 0xF8 && |b| >= 4 && Tail(b[1]) && Tail(b[2]) && Tail(b[3]) then
      Within(Six(Six(Six(o - 0xF0, b[1]), b[2]), b[3]), 4, 0x1_0000)
    else None
  }

  lemma FirstLength(b: Octets)
    requires b != []
    ensures First(b).Some? ==> Scalar(First(b).value.0) && 1 <= First(b).value.1 <= |b|
  {
  }

  /** The strict reading; None is a FormatException. */
  function Decode(b: Octets): Option<seq<nat>> {
    if b == [] then Some([])
    else
      match First(b)
      case None => None
      case Some((v, n)) =>
        FirstLength(b);
        match Decode(b[n..]) case None => None case Some(t) => Some([v] + t)
  }

  // ---- the two are inverse ----

  lemma SixBack(v: nat)
    ensures Tail(0x80 + v % 64) && Six(v / 64, 0x80 + v % 64) == v
  {
  }

  lemma SixParts(v: nat, o: nat)
    requires Tail(o)
    ensures Six(v, o) / 64 == v && 0x80 + Six(v, o) % 64 == o
  {
  }

  lemma FirstOfEncoded(v: nat, rest: Octets)
    requires Scalar(v)
    ensures First(EncodeScalar(v) + rest) == Some((v, |EncodeScalar(v)|))
  {
    SixBack(v);
    SixBack(v / 64);
    SixBack(v / 64 / 64);
    hide Six, Tail;
    var b := EncodeScalar(v) + rest;
    if v < 0x80 {
    } else if v < 0x800 {
      assert v / 64 < 32;
    } else if v < 0x1_0000 {
      assert v / 64 / 64 < 16;
    } else {
      assert v / 64 / 64 / 64 < 8;
    }
  }

  lemma FirstEncodes(b: Octets)
    requires b != [] && First(b).Some?
    ensures var (v, n) := First(b).value; Scalar(v) && n <= |b| && EncodeScalar(v) == b[..n]
  {
    FirstLength(b);
    var (v, n) := First(b).value;
    if n == 2 {
      SixParts(b[0] - 0xC0, b[1]);
    } else if n == 3 {
      SixParts(b[0] - 0xE0, b[1]);
      SixParts(Six(b[0] - 0xE0, b[1]), b[2]);
    } else if n == 4 {
      SixParts(b[0] - 0xF0, b[1]);
      SixParts(Six(b[0] - 0xF0, b[1]), b[2]);
      SixParts(Six(Six(b[0] - 0xF0, b[1]), b[2]), b[3]);
    }
    hide Tail;
    assert n == 1 ==> b[..1] == [b[0]];
  }

  lemma {:induction false} DecodeEncode(text: seq<nat>)
    requires IsText(text)
    ensures Decode(Encode(text)) == Some(text)
  {
    hide First, EncodeScalar, Scalar;
    if text != [] {
      var v, rest := text[0], Encode(text[1..]);
      FirstOfEncoded(v, rest);
      DecodeEncode(text[1..]);
      assert (EncodeScalar(v) + rest)[|EncodeScalar(v)|..] == rest;
      assert [v] + text[1..] == text;
    }
  }

  lemma {:induction false} EncodeDecode(b: Octets)
    requires Decode(b).Some?
    ensures IsText(Decode(b).value) && Encode(Decode(b).value) == b
  {
    hide First, EncodeScalar, Scalar;
    if b != [] {
      FirstEncodes(b);
      FirstLength(b);
      var (v, n) := First(b).value;
      EncodeDecode(b[n..]);
      var t := Decode(b[n..]).value;
      assert ([v] + t)[1..] == t;
      assert b[..n] + b[n..] == b;
    }
  }

  // ---- at an ASCII character ----

  lemma FirstStops(a: Octets, c: Octet, b: Octets)
    requires a != [] && c < 0x80
    ensures First(a + [c] + b) == First(a)
  {
    var all := a + [c] + b;
    assert forall i | 0 <= i < |a| :: all[i] == a[i];
    assert all[|a|] == c;
    hide Six, Scalar;
  }

  /** An ASCII character never lies inside another one: what is well formed falls apart there. */
  lemma {:induction false} DecodeSplit(a: Octets, c: Octet, b: Octets)
    requires c < 0x80
    ensures Decode(a + [c] + b).Some? <==> Decode(a).Some? && Decode(b).Some?
  {
    hide First;
    var all := a + [c] + b;
    if a == [] {
      assert all[1..] == b && all[0] == c;
      FirstAscii(all);
    } else {
      FirstStops(a, c, b);
      FirstLength(a);
      if First(a).Some? {
        var n := First(a).value.1;
        DecodeSplit(a[n..], c, b);
        assert all[n..] == a[n..] + [c] + b;
      }
    }
  }

  lemma FirstAscii(b: Octets)
    requires b != [] && b[0] < 0x80
    ensures First(b) == Some((b[0], 1))
  {
  }

  // ---- the byte order mark ----

  /** utf8.decode: a leading byte order mark is dropped. */
  function Read(b: Octets): (r: Option<seq<nat>>)
    ensures r.Some? ==> IsText(r.value)
  {
    match Decode(b)
    case None => None
    case Some(t) =>
      EncodeDecode(b);
      Some(if t != [] && t[0] == BOM then t[1..] else t)
  }

  /** Octets that utf8.decode takes in full. */
  predicate Whole(b: Octets) {
    Decode(b).Some? && !(BOM_OCTETS <= b)
  }

  lemma StartsWithMark(text: seq<nat>)
    requires IsText(text)
    ensures BOM_OCTETS <= Encode(text) <==> text != [] && text[0] == BOM
  {
    var b := Encode(text);
    if text != [] {
      FirstOfEncoded(text[0], Encode(text[1..]));
      if BOM_OCTETS <= b { assert b[0] == 0xEF && b[1] == 0xBB && b[2] == 0xBF; }
    }
  }

  /** Reading and writing again gives the octets back exactly when they are well formed and have no mark. */
  lemma ReadWriteIff(b: Octets)
    ensures Read(b).Some? && Encode(Read(b).value) == b <==> Whole(b)
  {
    if Decode(b).Some? {
      EncodeDecode(b);
      StartsWithMark(Decode(b).value);
    }
  }

  /** The octets of a text are taken in full exactly when it does not begin with the mark. */
  lemma WholeText(text: seq<nat>)
    requires IsText(text)
    ensures Whole(Encode(text)) <==> text == [] || text[0] != BOM
  {
    DecodeEncode(text);
    StartsWithMark(text);
  }

  // ---- the standard's own table ----

  /** Section 3 of RFC 3629: the bits of a scalar value, six to a trailing octet and the rest in the first, whose upper
      bits count the octets. */
  lemma EncodedBits(v: nat)
    requires Scalar(v)
    ensures v < 0x80 ==> EncodeScalar(v) == [v]
    ensures 0x80 <= v < 0x800 ==> var b: seq<int> := EncodeScalar(v);
              |b| == 2 && v == (b[0] - 0xC0) * 64 + (b[1] - 0x80) && b[0] < 0xE0 && 0x80 <= b[1] < 0xC0
    ensures 0x800 <= v < 0x1_0000 ==> var b: seq<int> := EncodeScalar(v);
              && |b| == 3 && v == ((b[0] - 0xE0) * 64 + (b[1] - 0x80)) * 64 + (b[2] - 0x80)
              && b[0] < 0xF0 && 0x80 <= b[1] < 0xC0 && 0x80 <= b[2] < 0xC0
    ensures 0x1_0000 <= v ==> var b: seq<int> := EncodeScalar(v);
              && |b| == 4 && v == (((b[0] - 0xF0) * 64 + (b[1] - 0x80)) * 64 + (b[2] - 0x80)) * 64 + (b[3] - 0x80)
              && b[0] < 0xF8 && 0x80 <= b[1] < 0xC0 && 0x80 <= b[2] < 0xC0 && 0x80 <= b[3] < 0xC0
  {
    SixBack(v);
    SixBack(v / 64);
    SixBack(v / 64 / 64);
  }
}
