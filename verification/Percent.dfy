/** Percent-coding (section 2.1 of RFC 3986) and query strings as dart:core writes and reads them.
    A text here is its UTF-8 bytes, one character below 256 for each. */
module Percent {
  import opened Text
  import Utf8

  predicate IsAlnum(c: char) {
    'a' <= c <= 'z' || 'A' <= c <= 'Z' || '0' <= c <= '9'
  }

  /** Left alone by Uri.encodeQueryComponent (query) and by Uri.encodeComponent. */
  predicate Unreserved(c: char, query: bool) {
    IsAlnum(c) || c in "-_.~" || (!query && c in "!*'()")
  }

  function UpperHex(d: nat): char
    requires d < 16
  {
    if d < 10 then (d + 48) as char else (d + 55) as char
  }

  predicate IsBytes(s: string) {
    forall i | 0 <= i < |s| :: s[i] as int < 256
  }

  function OctetsOf(s: string): Utf8.Octets
    requires IsBytes(s)
  {
    seq(|s|, i requires 0 <= i < |s| => s[i] as int)
  }

  /** Well-formed UTF-8. */
  predicate IsUtf8(s: string) {
    IsBytes(s) && Utf8.Decode(OctetsOf(s)).Some?
  }

  /** A text is well formed exactly when its parts before and after an ASCII character are. */
  lemma SplitUtf8(a: string, c: char, b: string)
    requires c as int < 128
    ensures IsUtf8(a + [c] + b) <==> IsUtf8(a) && IsUtf8(b)
  {
    hide Utf8.Decode;
    var all := a + [c] + b;
    assert forall i | 0 <= i < |a| :: all[i] == a[i];
    assert forall i | 0 <= i < |b| :: all[|a| + 1 + i] == b[i];
    if IsBytes(a) && IsBytes(b) {
      assert OctetsOf(all) == OctetsOf(a) + [c as int] + OctetsOf(b);
      Utf8.DecodeSplit(OctetsOf(a), c as int, OctetsOf(b));
    }
  }

  lemma EmptyUtf8()
    ensures IsUtf8("")
  {
  }

  lemma {:induction false} AsciiUtf8(s: string)
    requires forall i | 0 <= i < |s| :: s[i] as int < 128
    ensures IsUtf8(s)
  {
    hide IsUtf8;
    EmptyUtf8();
    if s != "" {
      AsciiUtf8(s[1..]);
      SplitUtf8("", s[0], s[1..]);
      assert "" + [s[0]] + s[1..] == s;
    }
  }

  lemma TrimUtf8(s: string)
    requires IsUtf8(s)
    ensures IsUtf8(Trim(s))
  {
    hide IsUtf8;
    TrimLeftUtf8(s);
    TrimRightUtf8(TrimLeft(s));
  }

  lemma {:induction false} TrimLeftUtf8(s: string)
    requires IsUtf8(s)
    ensures IsUtf8(TrimLeft(s))
  {
    hide IsUtf8;
    if s != "" && IsSpace(s[0]) {
      SplitUtf8("", s[0], s[1..]);
      assert "" + [s[0]] + s[1..] == s;
      TrimLeftUtf8(s[1..]);
    }
  }

  lemma {:induction false} TrimRightUtf8(s: string)
    requires IsUtf8(s)
    ensures IsUtf8(TrimRight(s))
  {
    hide IsUtf8;
    if s != "" && IsSpace(s[|s| - 1]) {
      var front := s[..|s| - 1];
      SplitUtf8(front, s[|s| - 1], "");
      assert front + [s[|s| - 1]] + "" == s;
      TrimRightUtf8(front);
    }
  }

  function EncodeChar(c: char, query: bool): string
    requires c as int < 256
  {
    if Unreserved(c, query) then [c]
    else if query && c == ' ' then "+"
    else ['%', UpperHex(c as int / 16), UpperHex(c as int % 16)]
  }

  function Encode(s: string, query: bool): string
    requires IsBytes(s)
  {
    if s == "" then "" else EncodeChar(s[0], query) + Encode(s[1..], query)
  }

  /** The bytes of a percent-coded text; None is a malformed escape or a character that is not ASCII. */
  function DecodeBytes(s: string, query: bool): (r: Option<string>)
    ensures r.Some? ==> IsBytes(r.value) && (s != "" ==> r.value != "")
    decreases |s|
  {
    if s == "" then Some("")
    else if s[0] == '%' then
      if |s| < 3 || !IsHexDigit(s[1]) || !IsHexDigit(s[2]) then None
      else Prepend((16 * HexValue(s[1]) + HexValue(s[2])) as char, DecodeBytes(s[3..], query))
    else if s[0] as int > 127 then None
    else Prepend(if query && s[0] == '+' then ' ' else s[0], DecodeBytes(s[1..], query))
  }

  /** Bytes as utf8.decode takes them; None is malformed UTF-8. */
  function AsText(r: Option<string>): (t: Option<string>)
    ensures t.Some? ==> IsUtf8(t.value) && t == r
  {
    if r.Some? && IsUtf8(r.value) then r else None
  }

  /** Uri.decodeComponent and Uri.decodeQueryComponent; None is every way of throwing. */
  function Decode(s: string, query: bool): (r: Option<string>)
    ensures r.Some? ==> IsUtf8(r.value) && (s != "" ==> r.value != "")
  {
    AsText(DecodeBytes(s, query))
  }

  function Prepend(c: char, r: Option<string>): Option<string> {
    match r case None => None case Some(t) => Some([c] + t)
  }

  lemma UpperHexRoundTrip(d: nat)
    requires d < 16
    ensures IsHexDigit(UpperHex(d)) && HexValue(UpperHex(d)) == d && UpperHex(d) as int < 128
  {
  }

  lemma DecodeOne(c: char, rest: string, query: bool)
    requires c as int < 256
    ensures DecodeBytes(EncodeChar(c, query) + rest, query) == Prepend(c, DecodeBytes(rest, query))
  {
    var s := EncodeChar(c, query) + rest;
    if Unreserved(c, query) || (query && c == ' ') {
      assert s[1..] == rest;
    } else {
      UpperHexRoundTrip(c as int / 16);
      UpperHexRoundTrip(c as int % 16);
      assert s[3..] == rest;
    }
  }

  lemma {:induction false} BytesRoundTrip(s: string, query: bool)
    requires IsBytes(s)
    ensures DecodeBytes(Encode(s, query), query) == Some(s)
    ensures Encode(s, query) == "" <==> s == ""
  {
    if s != "" {
      BytesRoundTrip(s[1..], query);
      DecodeOne(s[0], Encode(s[1..], query), query);
      assert [s[0]] + s[1..] == s;
    }
  }

  /** Decoding undoes encoding, for components and for query components, exactly on well-formed UTF-8. */
  lemma RoundTrip(s: string, query: bool)
    requires IsBytes(s)
    ensures Decode(Encode(s, query), query) == Some(s) <==> IsUtf8(s)
    ensures Encode(s, query) == "" <==> s == ""
  {
    hide IsUtf8;
    BytesRoundTrip(s, query);
  }

  /** What stays as it is: letters, digits and the marks of section 2.3 of RFC 3986, and in components five more. */
  lemma LeftAlone(c: char, query: bool)
    requires c as int < 256
    ensures EncodeChar(c, query) == [c]
       <==> 'A' <= c <= 'Z' || 'a' <= c <= 'z' || '0' <= c <= '9' || c in "-._~" || (!query && c in "!*'()")
    ensures EncodeChar(' ', true) == "+"
  {
  }

  lemma UpperHexDigits(d: nat)
    requires d < 16
    ensures UpperHex(d) == "0123456789ABCDEF"[d]
  {
  }

  /** One character, or one escape with digits of either case; a plus is a space in a query only. */
  lemma DecodesOne(c: char, rest: string)
    ensures DecodeBytes("", true) == DecodeBytes("", false) == Some("")
    ensures c !in "%+" && c as int < 128 ==>
              forall query: bool :: DecodeBytes([c] + rest, query) == Prepend(c, DecodeBytes(rest, query))
    ensures DecodeBytes("+" + rest, true) == Prepend(' ', DecodeBytes(rest, true))
    ensures DecodeBytes("+" + rest, false) == Prepend('+', DecodeBytes(rest, false))
    ensures c as int > 127 ==> forall query: bool :: DecodeBytes([c] + rest, query) == None
  {
    assert ([c] + rest)[1..] == rest && ("+" + rest)[1..] == rest;
  }

  lemma DecodesEscape(x: char, y: char, rest: string, query: bool)
    ensures IsHexDigit(x) && IsHexDigit(y) ==>
              && HexValue(x) < 16 && HexValue(y) < 16
              && DecodeBytes(['%', x, y] + rest, query) == Prepend((16 * HexValue(x) + HexValue(y)) as char, DecodeBytes(rest, query))
    ensures !IsHexDigit(x) || !IsHexDigit(y) ==> DecodeBytes(['%', x, y] + rest, query) == None
    ensures DecodeBytes("%", query) == DecodeBytes(['%', x], query) == None
  {
    assert (['%', x, y] + rest)[3..] == rest;
  }

  // ---- query strings ----

  /** Characters an encoded query component never contains: the separators stay readable. */
  lemma {:induction false} NoSeparators(s: string)
    requires IsBytes(s)
    ensures '&' !in Encode(s, true) && '=' !in Encode(s, true)
  {
    if s != "" {
      NoSeparators(s[1..]);
      var c := s[0];
      assert forall d: nat | d < 16 :: IsAlnum(UpperHex(d));
      assert '&' !in EncodeChar(c, true) && '=' !in EncodeChar(c, true);
    }
  }

  type Pairs = seq<(string, string)>

  predicate ArePairs(es: Pairs) {
    forall i | 0 <= i < |es| :: IsUtf8(es[i].0) && IsUtf8(es[i].1) && es[i].0 != ""
  }

  function PrintPair(e: (string, string)): string
    requires IsBytes(e.0) && IsBytes(e.1)
  {
    Encode(e.0, true) + "=" + Encode(e.1, true)
  }

  /** The query part as the link writer prints it. */
  function PrintQuery(es: Pairs): string
    requires ArePairs(es)
  {
    Join(seq(|es|, i requires 0 <= i < |es| => PrintPair(es[i])), '&')
  }

  /** One piece of a query added to the parameters read so far; None is a malformed escape or text. */
  function AddPiece(q: map<string, string>, piece: string): Option<map<string, string>> {
    var i := IndexOf(piece, '=');
    if piece == "" || i == 0 then Some(q)
    else
      var k := Decode(piece[..i], true);
      var v := if i < |piece| then Decode(piece[i + 1..], true) else Some("");
      if k == None || v == None then None else Some(q[k.value := v.value])
  }

  function AddPieces(pieces: seq<string>): Option<map<string, string>> {
    if pieces == [] then Some(map[])
    else
      match AddPieces(pieces[..|pieces| - 1])
      case None => None
      case Some(q) => AddPiece(q, pieces[|pieces| - 1])
  }

  /** Uri.queryParameters: a later parameter replaces an earlier one, a nameless one is dropped. */
  function ParseQuery(text: string): Option<map<string, string>> {
    AddPieces(Split(text, '&'))
  }

  function Collect(es: Pairs): map<string, string> {
    if es == [] then map[] else Collect(es[..|es| - 1])[es[|es| - 1].0 := es[|es| - 1].1]
  }

  lemma AddPrinted(q: map<string, string>, e: (string, string))
    requires IsUtf8(e.0) && IsUtf8(e.1) && e.0 != ""
    ensures AddPiece(q, PrintPair(e)) == Some(q[e.0 := e.1])
  {
    hide Encode, Decode, IndexOf;
    var k, v := Encode(e.0, true), Encode(e.1, true);
    NoSeparators(e.0);
    RoundTrip(e.0, true);
    RoundTrip(e.1, true);
    IndexOfAppend(k, '=', v);
    assert PrintPair(e) == k + ['='] + v;
    assert PrintPair(e)[..|k|] == k && PrintPair(e)[|k| + 1..] == v;
  }

  lemma {:induction false} AddAllPrinted(es: Pairs)
    requires ArePairs(es)
    ensures AddPieces(seq(|es|, i requires 0 <= i < |es| => PrintPair(es[i]))) == Some(Collect(es))
  {
    hide PrintPair, AddPiece;
    var pieces := seq(|es|, i requires 0 <= i < |es| => PrintPair(es[i]));
    if es != [] {
      var n := |es| - 1;
      var shorter := es[..n];
      AddAllPrinted(shorter);
      assert pieces[..n] == seq(n, i requires 0 <= i < n => PrintPair(shorter[i]));
      AddPrinted(Collect(shorter), es[n]);
    }
  }

  /** Whatever the order in which the parameters are printed, they are read back as the same map. */
  lemma QueryRoundTrip(es: Pairs)
    requires ArePairs(es)
    ensures ParseQuery(PrintQuery(es)) == Some(Collect(es))
  {
    hide AddPiece;
    var pieces := seq(|es|, i requires 0 <= i < |es| => PrintPair(es[i]));
    forall p <- pieces ensures '&' !in p {
      var i :| 0 <= i < |es| && p == PrintPair(es[i]);
      NoSeparators(es[i].0);
      NoSeparators(es[i].1);
    }
    AddAllPrinted(es);
    if es == [] {
      SplitWhole("", '&');
      NothingToAdd();
    } else {
      SplitJoin(pieces, '&');
    }
  }

  lemma OneMorePiece(text: string, piece: string)
    requires '&' !in piece
    ensures ParseQuery(text + "&" + piece) == match ParseQuery(text) case None => None case Some(q) => AddPiece(q, piece)
  {
    hide AddPiece, Split;
    SplitConcat(text, piece, '&');
    SplitWhole(piece, '&');
    assert text + ['&'] + piece == text + "&" + piece;
    assert (Split(text, '&') + [piece])[..|Split(text, '&')|] == Split(text, '&');
  }

  /** One more parameter of a query: the last one of a name counts, without an equals sign it is blank, and a
      nameless or empty one is dropped. */
  lemma MoreParameters(text: string, name: string, value: string, k: string, v: string)
    requires ParseQuery(text).Some? && name != "" && '&' !in name && '=' !in name && '&' !in value
    requires Decode(name, true) == Some(k) && Decode(value, true) == Some(v)
    ensures var q := ParseQuery(text).value;
            && ParseQuery(text + "&" + (name + "=" + value)) == Some(q[k := v])
            && ParseQuery(text + "&" + name) == Some(q[k := ""])
            && ParseQuery(text + "&" + ("=" + value)) == Some(q) && ParseQuery(text + "&" + "") == Some(q)
  {
    hide Decode, IndexOf, ParseQuery;
    OneMorePiece(text, name + "=" + value);
    OneMorePiece(text, name);
    OneMorePiece(text, "=" + value);
    OneMorePiece(text, "");
    IndexOfAppend(name, '=', value);
    IndexOfAppend("", '=', value);
    assert name + ['='] + value == name + "=" + value && "" + ['='] + value == "=" + value;
    assert (name + "=" + value)[..|name|] == name && (name + "=" + value)[|name| + 1..] == value;
    assert IndexOf(name, '=') == |name| && name[..|name|] == name by { BeforeAll(name); }
  }

  lemma BeforeAll(s: string)
    requires '=' !in s
    ensures IndexOf(s, '=') == |s|
  {
  }

  lemma NothingToAdd()
    ensures AddPieces([""]) == Some(map[])
  {
    assert AddPiece(map[], "") == Some(map[]);
    assert [""][..0] == [];
  }
}
