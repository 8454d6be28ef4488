/** The DER walk of http_client.dart: finding the public key of a certificate (section 4.1 of RFC 5280). */
module Der {
  import opened Text

  type Byte = x: int | 0 <= x < 256
  type Bytes = seq<Byte>

  // ---- reading, as the client does ----

  const INT64_COUNT := MAX_INT64 - MIN_INT64 + 1

  /** Dart's 64-bit integers wrap around. */
  function Wrap(x: int): int {
    var r := x % INT64_COUNT;
    if r > MAX_INT64 then r - INT64_COUNT else r
  }

  lemma NoWrap(x: int)
    requires MIN_INT64 <= x <= MAX_INT64
    ensures Wrap(x) == x
  {
  }

  datatype Tlv = Tlv(tag: Byte, start: int, valueStart: int, end: int)

  /** Length octets shifted in one by one. */
  function ShiftIn(octets: Bytes): int {
    if octets == [] then 0 else Wrap(ShiftIn(octets[..|octets| - 1]) * 256 + octets[|octets| - 1])
  }

  /** _Tlv.read; None is an index out of range. */
  function Read(b: Bytes, start: int): Option<Tlv> {
    if !(0 <= start && start + 1 < |b|) then None
    else if b[start + 1] < 128 then Some(Tlv(b[start], start, start + 2, Wrap(start + 2 + b[start + 1])))
    else
      var p := start + 2 + (b[start + 1] - 128);
      if p > |b| then None else Some(Tlv(b[start], start, p, Wrap(p + ShiftIn(b[start + 2..p]))))
  }

  method ReadTlv(b: Bytes, start: int) returns (r: Option<Tlv>)
    ensures r == Read(b, start)
  {
    hide Wrap;
    if start < 0 || start + 1 >= |b| { return None; }
    var tag := b[start];
    var p := start + 1;
    var len: int := b[p];
    p := p + 1;
    if len >= 128 {
      var n := len - 128;
      len := 0;
      for i := 0 to n
        invariant p == start + 2 + i <= |b|
        invariant len == ShiftIn(b[start + 2..p])
      {
        if p >= |b| { return None; }
        assert b[start + 2..p + 1] == b[start + 2..p] + [b[p]];
        len := Wrap(len * 256 + b[p]);
        p := p + 1;
      }
    }
    return Some(Tlv(tag, start, p, Wrap(p + len)));
  }

  /** The end of `n` elements in a row. */
  function Skip(b: Bytes, pos: int, n: nat): Option<int> {
    if n == 0 then Some(pos)
    else
      match Skip(b, pos, n - 1)
      case None => None
      case Some(p) => match Read(b, p) case None => None case Some(t) => Some(t.end)
  }

  function Slice(b: Bytes, t: Tlv): Option<Bytes> {
    if 0 <= t.start <= t.end <= |b| then Some(b[t.start..t.end]) else None
  }

  const VERSION_TAG: Byte := 0xA0

  /** Where the serial number starts. */
  function AfterVersion(b: Bytes, pos: int): Option<int> {
    match Read(b, pos)
    case None => None
    case Some(t) => Some(if t.tag == VERSION_TAG then t.end else pos)
  }

  function Extract(der: Bytes): Option<Bytes> {
    match Read(der, 0)
    case None => None
    case Some(cert) =>
      match Read(der, cert.valueStart)
      case None => None
      case Some(tbs) =>
        match AfterVersion(der, tbs.valueStart)
        case None => None
        case Some(pos) =>
          match Skip(der, pos, 5)
          case None => None
          case Some(end) => match Read(der, end) case None => None case Some(spki) => Slice(der, spki)
  }

  method ExtractSpki(der: Bytes) returns (r: Option<Bytes>)
    ensures r == Extract(der)
  {
    hide Read;
    var cert := ReadTlv(der, 0);
    if cert == None { return None; }
    var tbs := ReadTlv(der, cert.value.valueStart);
    if tbs == None { return None; }
    var pos := tbs.value.valueStart;
    var t := ReadTlv(der, pos);
    if t == None { return None; }
    if t.value.tag == VERSION_TAG { pos := t.value.end; }
    ghost var first := pos;
    for i := 0 to 5
      invariant Skip(der, first, i) == Some(pos)
    {
      var e := ReadTlv(der, pos);
      if e == None {
        SkipFails(der, first, i + 1, 5);
        return None;
      }
      pos := e.value.end;
    }
    var spki := ReadTlv(der, pos);
    if spki == None { return None; }
    return Slice(der, spki.value);
  }

  lemma {:induction false} SkipFails(b: Bytes, pos: int, i: nat, n: nat)
    requires i <= n && Skip(b, pos, i) == None
    ensures Skip(b, pos, n) == None
  {
    if i < n { SkipFails(b, pos, i, n - 1); }
  }

  // ---- encoding, as X.690 section 8.1.3 describes it ----

  function BigEndian(octets: Bytes): nat {
    if octets == [] then 0 else BigEndian(octets[..|octets| - 1]) * 256 + octets[|octets| - 1]
  }

  /** Short form, or long form with one to 126 further octets, leading zeros allowed. */
  predicate LengthOctets(octets: Bytes, length: nat) {
    || (length < 128 && octets == [length])
    || (1 < |octets| <= 127 && octets[0] == 127 + |octets| && BigEndian(octets[1..]) == length)
  }

  /** A definite-length element with its tag, its length octets and its contents. */
  datatype Element = Element(tag: Byte, octets: Bytes, content: Bytes)

  predicate WellFormed(e: Element) {
    LengthOctets(e.octets, |e.content|)
  }

  function Encode(e: Element): Bytes {
    [e.tag] + e.octets + e.content
  }

  function EncodeAll(es: seq<Element>): Bytes {
    if es == [] then [] else EncodeAll(es[..|es| - 1]) + Encode(es[|es| - 1])
  }

  lemma {:induction false} ShiftInExact(octets: Bytes)
    requires BigEndian(octets) <= MAX_INT64
    ensures ShiftIn(octets) == BigEndian(octets)
  {
    hide Wrap;
    if octets != [] {
      ShiftInExact(octets[..|octets| - 1]);
      NoWrap(BigEndian(octets));
    }
  }

  /** `part` lies in `b` at `pos`. */
  predicate At(b: Bytes, pos: nat, part: Bytes) {
    pos + |part| <= |b| && forall i | 0 <= i < |part| :: b[pos + i] == part[i]
  }

  lemma AtSlice(b: Bytes, pos: nat, part: Bytes)
    requires At(b, pos, part)
    ensures pos + |part| <= |b| && b[pos..pos + |part|] == part
  {
  }

  lemma AtPart(b: Bytes, pos: nat, left: Bytes, part: Bytes, right: Bytes)
    requires At(b, pos, left + part + right)
    ensures At(b, pos + |left|, part)
  {
    var all := left + part + right;
    forall i | 0 <= i < |part| ensures b[pos + |left| + i] == part[i] {
      assert all[|left| + i] == part[i];
    }
  }

  lemma ElementParts(b: Bytes, start: nat, e: Element)
    requires At(b, start, Encode(e))
    ensures start + 1 + |e.octets| + |e.content| == start + |Encode(e)| <= |b|
    ensures b[start] == e.tag && At(b, start + 1, e.octets) && At(b, start + 1 + |e.octets|, e.content)
  {
    var s := Encode(e);
    assert b[start + 0] == s[0];
    AtPart(b, start, [e.tag], e.octets, e.content);
    AtPart(b, start, [e.tag] + e.octets, e.content, []) by { assert [e.tag] + e.octets + e.content + [] == s; }
  }

  lemma ReadLength(b: Bytes, start: nat, octets: Bytes, length: nat)
    requires At(b, start + 1, octets) && LengthOctets(octets, length)
    requires start + 1 + |octets| + length <= |b| <= MAX_INT64
    ensures Read(b, start) == Some(Tlv(b[start], start, start + 1 + |octets|, start + 1 + |octets| + length))
  {
    hide Wrap, ShiftIn, BigEndian;
    NoWrap(start + 1 + |octets| + length);
    assert b[start + 1 + 0] == octets[0];
    if octets[0] >= 128 {
      assert b[start + 2..start + 1 + |octets|] == octets[1..];
      ShiftInExact(octets[1..]);
    }
  }

  /** Reading at an encoded element finds its tag, its contents and its end. */
  lemma ReadElement(b: Bytes, start: nat, e: Element)
    requires WellFormed(e) && |b| <= MAX_INT64 && At(b, start, Encode(e))
    ensures Read(b, start) == Some(Tlv(e.tag, start, start + 1 + |e.octets|, start + |Encode(e)|))
    ensures At(b, start + 1 + |e.octets|, e.content)
  {
    hide At, Read, Encode, LengthOctets;
    ElementParts(b, start, e);
    ReadLength(b, start, e.octets, |e.content|);
  }

  /** Elements in a row are skipped to the end of each. */
  lemma {:induction false} SkipElements(b: Bytes, pos: nat, es: seq<Element>, rest: Bytes)
    requires |b| <= MAX_INT64 && (forall i | 0 <= i < |es| :: WellFormed(es[i])) && At(b, pos, EncodeAll(es) + rest)
    ensures Skip(b, pos, |es|) == Some(pos + |EncodeAll(es)|) && At(b, pos + |EncodeAll(es)|, rest)
  {
    hide Read, At, WellFormed, Encode;
    var all := EncodeAll(es);
    AtPart(b, pos, all, rest, []) by { assert all + rest + [] == all + rest; }
    if es != [] {
      var n := |es| - 1;
      SkipStep(b, pos, EncodeAll(es[..n]), es[n], rest);
      SkipElements(b, pos, es[..n], Encode(es[n]) + rest);
    }
  }

  lemma SkipStep(b: Bytes, pos: nat, before: Bytes, e: Element, rest: Bytes)
    requires |b| <= MAX_INT64 && WellFormed(e) && At(b, pos, before + Encode(e) + rest)
    ensures At(b, pos, before + (Encode(e) + rest))
    ensures Read(b, pos + |before|).Some? && Read(b, pos + |before|).value.end == pos + |before| + |Encode(e)|
  {
    hide Read, At, WellFormed, Encode;
    assert before + Encode(e) + rest == before + (Encode(e) + rest);
    AtPart(b, pos, before, Encode(e), rest);
    ReadElement(b, pos + |before|, e);
  }

  // ---- certificates ----

  /** The fields of a TBSCertificate in order; `rest` are the optional fields after the key. */
  datatype Tbs = Tbs(version: Option<Element>, serial: Element, signatureAlg: Element, issuer: Element,
                     validity: Element, subject: Element, spki: Element, rest: Bytes)

  /** The five fields between the version and the key. */
  function Middle(t: Tbs): seq<Element> {
    [t.serial, t.signatureAlg, t.issuer, t.validity, t.subject]
  }

  function Version(t: Tbs): Bytes {
    if t.version.Some? then Encode(t.version.value) else []
  }

  function Contents(t: Tbs): Bytes {
    Version(t) + (EncodeAll(Middle(t)) + (Encode(t.spki) + t.rest))
  }

  predicate TbsShape(t: Tbs) {
    && (t.version.Some? ==> t.version.value.tag == 0xA0 && WellFormed(t.version.value))
    && t.serial.tag != 0xA0 && WellFormed(t.spki)
    && forall i | 0 <= i < 5 :: WellFormed(Middle(t)[i])
  }

  /** A certificate: an element holding the TBSCertificate element and whatever follows it. */
  predicate IsCertificate(der: Bytes, cert: Element, tbs: Element, t: Tbs) {
    && |der| <= MAX_INT64 && TbsShape(t) && WellFormed(cert) && WellFormed(tbs)
    && Encode(cert) <= der && Encode(tbs) <= cert.content && tbs.content == Contents(t)
  }

  /** For every certificate made of definite-length elements, with or without a version, the walk
      returns exactly the encoded subjectPublicKeyInfo. */
  lemma ExtractsTheKey(der: Bytes, cert: Element, tbs: Element, t: Tbs)
    requires IsCertificate(der, cert, tbs, t)
    ensures Extract(der) == Some(Encode(t.spki))
  {
    hide Read, WellFormed, At, Encode, TbsShape, AfterVersion, Skip, Slice, Contents;
    OuterElement(der, cert);
    InnerElement(der, 1 + |cert.octets|, cert.content, tbs);
    FieldsFound(der, 1 + |cert.octets| + 1 + |tbs.octets|, t);
  }

  lemma OuterElement(der: Bytes, cert: Element)
    requires |der| <= MAX_INT64 && WellFormed(cert) && Encode(cert) <= der
    ensures Read(der, 0).Some? && Read(der, 0).value.valueStart == 1 + |cert.octets|
    ensures At(der, 1 + |cert.octets|, cert.content)
  {
    assert At(der, 0, Encode(cert));
    hide Read, WellFormed, At, Encode;
    ReadElement(der, 0, cert);
  }

  lemma InnerElement(der: Bytes, start: nat, content: Bytes, tbs: Element)
    requires |der| <= MAX_INT64 && WellFormed(tbs) && Encode(tbs) <= content && At(der, start, content)
    ensures Read(der, start).Some? && Read(der, start).value.valueStart == start + 1 + |tbs.octets|
    ensures At(der, start + 1 + |tbs.octets|, tbs.content)
  {
    hide Read, WellFormed, At, Encode;
    var after := content[|Encode(tbs)|..];
    AtPart(der, start, [], Encode(tbs), after) by { assert [] + Encode(tbs) + after == content; }
    ReadElement(der, start, tbs);
  }

  lemma VersionSkipped(der: Bytes, pos: nat, t: Tbs)
    requires |der| <= MAX_INT64 && TbsShape(t) && At(der, pos, Contents(t))
    ensures AfterVersion(der, pos) == Some(pos + |Version(t)|)
  {
    var tail := EncodeAll(Middle(t)) + (Encode(t.spki) + t.rest);
    AtPart(der, pos, [], Version(t), tail) by { assert [] + Version(t) + tail == Contents(t); }
    if t.version.Some? {
      ReadElement(der, pos, t.version.value);
    } else {
      var others := EncodeAll(Middle(t)[1..]);
      FirstElement(Middle(t));
      var rest := others + (Encode(t.spki) + t.rest);
      AtPart(der, pos, [], Encode(t.serial), rest) by { assert [] + Encode(t.serial) + rest == Contents(t); }
      assert WellFormed(Middle(t)[0]);
      ReadElement(der, pos, t.serial);
    }
  }

  lemma {:induction false} FirstElement(es: seq<Element>)
    requires es != []
    ensures EncodeAll(es) == Encode(es[0]) + EncodeAll(es[1..])
  {
    hide Encode;
    var n := |es| - 1;
    if n > 0 {
      FirstElement(es[..n]);
      assert es[..n][1..] == es[1..][..n - 1];
    }
  }

  lemma FieldsFound(der: Bytes, pos: nat, t: Tbs)
    requires |der| <= MAX_INT64 && TbsShape(t) && At(der, pos, Contents(t))
    ensures AfterVersion(der, pos).Some? && Skip(der, AfterVersion(der, pos).value, 5).Some?
    ensures var at := Skip(der, AfterVersion(der, pos).value, 5).value;
            Read(der, at).Some? && Slice(der, Read(der, at).value) == Some(Encode(t.spki))
  {
    hide Read, WellFormed, Encode, At, EncodeAll, AfterVersion;
    VersionSkipped(der, pos, t);
    var first := pos + |Version(t)|;
    var tail := EncodeAll(Middle(t)) + (Encode(t.spki) + t.rest);
    AtPart(der, pos, Version(t), tail, []) by { assert Version(t) + tail + [] == Contents(t); }
    SkipElements(der, first, Middle(t), Encode(t.spki) + t.rest);
    var at := first + |EncodeAll(Middle(t))|;
    AtPart(der, at, [], Encode(t.spki), t.rest) by { assert [] + Encode(t.spki) + t.rest == Encode(t.spki) + t.rest; }
    ReadElement(der, at, t.spki);
    AtSlice(der, at, Encode(t.spki));
  }
}
