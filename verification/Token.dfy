/** The gate token: Token and CheckSkew of gate.go, and the client's forKey of gate_token.dart. */
module Token {
  import opened Text
  import opened Fips180
  import opened Hmac
  import opened KeyDerivation
  import opened Stats

  datatype Entry = Entry(code: string, creatorFp: string, note: string)
  type Entries = map<string, Entry>

  datatype Verdict = OK | NoToken | BadFormat | UnknownCode | BadDay | BadMac | NoKeys

  lemma {:induction false} HexHasNoDot(b: Bytes)
    ensures '.' !in HexOf(b)
  {
    HexRoundTrip(b);
  }

  lemma {:induction false} HexPrefix(b: Bytes, n: nat)
    requires n <= |b|
    ensures HexOf(b)[..2 * n] == HexOf(b[..n])
  {
    if n > 0 {
      HexPrefix(b[1..], n - 1);
      assert b[..n][1..] == b[1..][..n - 1];
      assert HexOf(b)[..2 * n] == HexOf(b)[..2] + HexOf(b[1..])[..2 * (n - 1)];
    }
  }

  /** The non-secret handle of a code: the first eight digest bytes in hexadecimal. */
  function CodeId(code: string): (id: string)
    ensures |id| == 16 && '.' !in id
  {
    var h := Digest(Ascii("ovsea-code-id|" + code));
    HexHasNoDot(h[..8]);
    HexOf(h[..8])
  }

  /** A handle is lower-case and has no white space. */
  lemma CodeIdPlain(code: string)
    ensures Lower(CodeId(code)) == CodeId(code) && Trim(CodeId(code)) == CodeId(code)
  {
    hide HexDigit, Ascii, Digest;
    var b: Bytes := Digest(Ascii("ovsea-code-id|" + code))[..8];
    assert CodeId(code) == HexOf(b);
    HexPlain(b);
    var h := CodeId(code);
    assert forall i | 0 <= i < |h| :: h[i] in h;
    TrimFixpoint(h);
  }

  lemma {:induction false} HexPlain(b: Bytes)
    ensures forall c <- HexOf(b) :: LowerChar(c) == c && !IsSpace(c)
  {
    assert forall d: nat | d < 16 :: LowerChar(HexDigit(d)) == HexDigit(d) && !IsSpace(HexDigit(d));
    hide HexDigit, FromByte;
    if b != [] { HexPlain(b[1..]); }
  }

  /** codeId in Dart: the first 16 characters of the whole digest in hexadecimal. */
  function DartCodeId(code: string): (id: string)
    ensures id == CodeId(code)
  {
    var h := Digest(Ascii("ovsea-code-id|" + code));
    HexPrefix(h, 8);
    HexOf(h)[..16]
  }

  lemma AsciiConcat(a: string, b: string)
    ensures Ascii(a + b) == Ascii(a) + Ascii(b)
  {
  }

  function Message(code: string, fp: string, day: int): string {
    "ovsea-gate-v2|" + code + "|" + fp + "|" + DecimalOf(day)
  }

  function Mac(key: Bytes, code: string, fp: string, day: int): (m: string)
    ensures |m| == 64 && '.' !in m
  {
    HexHasNoDot(HmacOf(key, Ascii(Message(code, fp, day))));
    HexOf(HmacOf(key, Ascii(Message(code, fp, day))))
  }

  /** mac in Go hashes one message; it is the MAC of the native core for the same texts. */
  lemma MacIsGateMac(key: Bytes, code: string, fp: string, day: int)
    ensures Mac(key, code, fp, day) == GateMac(key, Ascii(code), Ascii(fp), day)
  {
    hide Ascii, HexOf, HmacOf, DecimalOf;
    AsciiConcat("ovsea-gate-v2|" + code + "|" + fp + "|", DecimalOf(day));
    AsciiConcat("ovsea-gate-v2|" + code + "|" + fp, "|");
    AsciiConcat("ovsea-gate-v2|" + code + "|", fp);
    AsciiConcat("ovsea-gate-v2|" + code, "|");
    AsciiConcat("ovsea-gate-v2|", code);
  }

  function TokenOf(key: Bytes, code: string, fp: string, day: int): string {
    CodeId(code) + "." + DecimalOf(day) + "." + Mac(key, code, fp, day)
  }

  /** Token in Go; `t` is the Unix time in seconds. */
  function Token(key: Bytes, code: string, fp: string, t: int): string {
    TokenOf(key, code, fp, Day(t))
  }

  // ---- the check ----

  function CheckSkew(tok: string, entries: Entries, keys: seq<Bytes>, now: int, skew: int): (Verdict, string) {
    if keys == [] then (NoKeys, "")
    else if tok == "" then (NoToken, "")
    else
      var parts := Split(tok, '.');
      if |parts| != 3 || |parts[2]| != 64 then (BadFormat, "")
      else if parts[0] !in entries then (UnknownCode, "")
      else
        var e, day := entries[parts[0]], ParseInt64(parts[1]);
        if day == None then (BadFormat, "")
        else if day.value < Day(now) - skew || day.value > Day(now) + skew then (BadDay, "")
        else if MacMatches(parts[2], keys, e, day.value) then (OK, parts[0])
        else (BadMac, "")
  }

  predicate MacMatches(mac: string, keys: seq<Bytes>, e: Entry, day: int) {
    exists i | 0 <= i < |keys| :: Mac(keys[i], e.code, e.creatorFp, day) == mac
  }

  method CompareMacs(mac: string, keys: seq<Bytes>, e: Entry, day: int) returns (good: bool)
    ensures good == MacMatches(mac, keys, e, day)
  {
    hide Mac;
    good := false;
    for i := 0 to |keys|
      invariant good <==> exists j | 0 <= j < i :: Mac(keys[j], e.code, e.creatorFp, day) == mac
    {
      if Mac(keys[i], e.code, e.creatorFp, day) == mac { good := true; }
    }
  }

  method Check(tok: string, entries: Entries, keys: seq<Bytes>, now: int, skew: int)
    returns (verdict: Verdict, id: string)
    ensures (verdict, id) == CheckSkew(tok, entries, keys, now, skew)
  {
    hide MacMatches, Day, Split, ParseInt64;
    if |keys| == 0 { return NoKeys, ""; }
    if tok == "" { return NoToken, ""; }
    var parts := Split(tok, '.');
    if |parts| != 3 || |parts[2]| != 64 { return BadFormat, ""; }
    if parts[0] !in entries { return UnknownCode, ""; }
    var e := entries[parts[0]];
    var day := ParseInt64(parts[1]);
    if day == None { return BadFormat, ""; }
    var cur := Day(now);
    if day.value < cur - skew || day.value > cur + skew { return BadDay, ""; }
    var good := CompareMacs(parts[2], keys, e, day.value);
    if !good { return BadMac, ""; }
    return OK, parts[0];
  }

  lemma JoinThree(a: string, b: string, c: string)
    ensures Join([a, b, c], '.') == a + "." + b + "." + c
  {
    assert [a, b, c][1..] == [b, c] && [b, c][1..] == [c];
    assert Join([b, c], '.') == b + "." + Join([c], '.');
    assert Join([a, b, c], '.') == a + "." + Join([b, c], '.');
  }

  lemma SplitThree(a: string, b: string, c: string)
    requires '.' !in a && '.' !in b && '.' !in c
    ensures Split(a + "." + b + "." + c, '.') == [a, b, c]
  {
    JoinThree(a, b, c);
    SplitJoin([a, b, c], '.');
  }

  lemma ThreeParts(tok: string)
    requires |Split(tok, '.')| == 3
    ensures var p := Split(tok, '.'); tok == p[0] + "." + p[1] + "." + p[2]
  {
    hide Split, Join;
    var p := Split(tok, '.');
    JoinSplit(tok, '.');
    assert p == [p[0], p[1], p[2]];
    JoinThree(p[0], p[1], p[2]);
  }

  /** A token with this handle, day text and MAC, for a listed entry, a configured key and a day in the window. */
  ghost predicate Genuine(tok: string, id: string, entries: Entries, keys: seq<Bytes>, cur: int, skew: int) {
    exists k: nat, text: string ::
      && k < |keys| && id in entries && tok == Shape(id, text, keys[k], entries[id])
      && ParseInt64(text).Some? && cur - skew <= ParseInt64(text).value <= cur + skew
  }

  function Shape(id: string, text: string, key: Bytes, e: Entry): string {
    var day := ParseInt64(text);
    if day == None then "" else id + "." + text + "." + Mac(key, e.code, e.creatorFp, day.value)
  }

  /** A token passes exactly when it is genuine for its handle. */
  lemma PassesIffGenuine(tok: string, id: string, entries: Entries, keys: seq<Bytes>, now: int, skew: int)
    requires forall i <- entries :: '.' !in i
    ensures CheckSkew(tok, entries, keys, now, skew) == (OK, id) <==> Genuine(tok, id, entries, keys, Day(now), skew)
  {
    hide Mac, Day, ParseInt64, Split;
    if CheckSkew(tok, entries, keys, now, skew) == (OK, id) {
      var parts := Split(tok, '.');
      ThreeParts(tok);
      var day := ParseInt64(parts[1]).value;
      var k :| 0 <= k < |keys| && parts[2] == Mac(keys[k], entries[id].code, entries[id].creatorFp, day);
      assert tok == Shape(id, parts[1], keys[k], entries[id]);
    }
    if Genuine(tok, id, entries, keys, Day(now), skew) {
      var k: nat, text: string :|
        && k < |keys| && tok == Shape(id, text, keys[k], entries[id])
        && ParseInt64(text).Some? && Day(now) - skew <= ParseInt64(text).value <= Day(now) + skew;
      ParsedHasNoDot(text);
      SplitThree(id, text, Mac(keys[k], entries[id].code, entries[id].creatorFp, ParseInt64(text).value));
    }
  }

  lemma ParsedHasNoDot(text: string)
    requires ParseInt64(text).Some?
    ensures '.' !in text
  {
    var body := if text[0] == '-' || text[0] == '+' then text[1..] else text;
    assert text == text[..1] + text[1..];
    forall c <- text ensures IsDigit(c) || c == '-' || c == '+' {
      assert c in text[..1] || c in text[1..];
    }
    assert !IsDigit('.');
  }

  /** What the app sends for a listed lock passes while the two days differ by at most the skew. */
  lemma TokenPasses(keys: seq<Bytes>, k: nat, code: string, fp: string, t: int, entries: Entries, now: int, skew: int)
    requires k < |keys| && CodeId(code) in entries
    requires entries[CodeId(code)].code == code && entries[CodeId(code)].creatorFp == fp
    requires Int64(Day(t)) && Day(now) - skew <= Day(t) <= Day(now) + skew
    ensures CheckSkew(Token(keys[k], code, fp, t), entries, keys, now, skew) == (OK, CodeId(code))
  {
    hide Mac, Day, CodeId, DecimalOf, ParseInt64, Split;
    ParseDecimal(Day(t));
    DecimalChars(Day(t));
    SplitThree(CodeId(code), DecimalOf(Day(t)), Mac(keys[k], code, fp, Day(t)));
    assert MacMatches(Mac(keys[k], code, fp, Day(t)), keys, entries[CodeId(code)], Day(t));
  }

  // ---- the client ----

  /** forKey in Dart: `ms` is the time in milliseconds, and ~/ rounds toward zero. */
  function DartForKey(appKey: Bytes, code: string, fp: string, ms: int, env: Bytes): string {
    var day := Quotient(ms, 86400000);
    DartCodeId(code) + "." + DecimalOf(day) + "."
    + GateMac(TaggedKey(appKey, env), Ascii(code), Ascii(fp), day)
  }

  /** The app key that `current` uses: as the native core reads it, when there is one that has a key. */
  function AppKey(native: bool, gate: string, maskHex: string): Option<Bytes> {
    if native && gate != "" then Some(NativeUnmask(gate, maskHex, 4)) else DartUnmask(gate, maskHex, 4)
  }

  /** current in Dart; None stands for its exceptions. */
  method DartCurrent(native: bool, gate: string, maskHex: string, code: string, fp: string, ms: int, env: Bytes)
    returns (tok: Option<string>)
    ensures tok == match AppKey(native, gate, maskHex)
                   case None => None
                   case Some(key) => Some(DartForKey(key, code, fp, ms, env))
  {
    hide GateMac, NativeUnmask, DartUnmask, Ascii, CodeId, DecimalOf, Quotient;
    if native && gate != "" {
      var day := Quotient(ms, 86400000);
      var mac := NativeGateMac(gate, maskHex, Ascii(code), Ascii(fp), day, env);
      if mac == None { return None; }
      return Some(DartCodeId(code) + "." + DecimalOf(day) + "." + mac.value);
    }
    var key := DartUnmask(gate, maskHex, 4);
    if key == None { return None; }
    tok := Some(DartForKey(key.value, code, fp, ms, env));
  }

  /** With and without the native core the app uses the same key exactly when the embedded one reads alike. */
  lemma AppKeysAgree(gate: string, maskHex: string)
    ensures AppKey(true, gate, maskHex) == AppKey(false, gate, maskHex) <==> gate == "" || MaskReads(gate, maskHex, 4)
  {
    hide NativeUnmask, DartUnmask, MaskReads;
    ReadersAgree(gate, maskHex, 4);
  }

  /** Go floors the time to seconds and then rounds the day toward zero. */
  lemma DaysAgree(ms: int)
    ensures Quotient(ms, 86400000) == Day(ms / 1000) <==> ms >= 0 || -ms % 86400000 <= 86399000
  {
    if ms < 0 {
      var y := -ms;
      var q, r := y / 86400000, y % 86400000;
      assert y == 86400000 * q + r;
      var up := -(ms / 1000);
      assert 1000 * up - 999 <= y <= 1000 * up;
    }
  }

  lemma DecimalInjective(a: int, b: int)
    ensures DecimalOf(a) == DecimalOf(b) <==> a == b
  {
    hide DigitsOf, DigitsValue;
    var x, y := if a < 0 then -a else a, if b < 0 then -b else b;
    DigitsRoundTrip(x);
    DigitsRoundTrip(y);
    assert a < 0 ==> DecimalOf(a)[0] == '-' && DecimalOf(a)[1..] == DigitsOf(x);
    assert b < 0 ==> DecimalOf(b)[0] == '-' && DecimalOf(b)[1..] == DigitsOf(y);
    assert DigitsOf(x)[0] in DigitsOf(x) && DigitsOf(y)[0] in DigitsOf(y);
  }

  /** The app's token is the server's for every time from 1970 on, and before 1970 except in the
      last second above each midnight. */
  lemma ClientAgrees(key: Bytes, code: string, fp: string, ms: int)
    ensures DartForKey(key, code, fp, ms, []) == Token(key, code, fp, ms / 1000)
       <==> ms >= 0 || -ms % 86400000 <= 86399000
  {
    hide Mac, GateMac, CodeId, DecimalOf, Day, Quotient, Ascii, Split;
    var d, g := Quotient(ms, 86400000), Day(ms / 1000);
    DaysAgree(ms);
    DecimalInjective(d, g);
    DecimalChars(d);
    DecimalChars(g);
    MacIsGateMac(key, code, fp, d);
    SplitThree(CodeId(code), DecimalOf(d), Mac(key, code, fp, d));
    SplitThree(CodeId(code), DecimalOf(g), Mac(key, code, fp, g));
  }
}
