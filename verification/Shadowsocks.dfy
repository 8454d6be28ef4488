/** Shadowsocks links: _fromSs and _ssLink of config_draft.dart against _shadowsocks of xray_config_builder.dart. */
module Shadowsocks {
  import opened Text
  import opened Percent
  import Utf8
  import opened Base64
  import opened Draft

  /** The server of a shadowsocks outbound. */
  datatype Server = Server(address: string, port: nat, cipher: string, password: string)

  /** The form's fields; `port` is text. */
  datatype SsForm = SsForm(address: string, port: string, ssMethod: string, secret: string)

  // ---- the two base64 readers ----

  function DropSpaces(s: string): string {
    if s == "" then "" else (if IsSpace(s[0]) then "" else [s[0]]) + DropSpaces(s[1..])
  }

  /** utf8.decode of _b64 in the form: URL alphabet mapped back, white space removed, padding restored. */
  function DraftB64(s: string): (r: Option<string>)
    ensures r.Some? ==> IsUtf8(r.value)
  {
    AsText(Decode64(Repad(DropSpaces(Each(s, FromUrl)))))
  }

  /** The builder's _b64 trims instead. */
  function BuilderB64(s: string): (r: Option<string>)
    ensures r.Some? ==> IsUtf8(r.value)
  {
    AsText(Decode64(Repad(Trim(Each(s, FromUrl)))))
  }

  predicate SymbolOrPad(c: char) {
    Value(c) >= 0 || c == '='
  }

  lemma LastChars(t: string)
    requires |t| == 4 && t[3] == '=' && DecodeLast(t).Some?
    ensures IsBytes(DecodeLast(t).value) && forall i | 0 <= i < |t| :: SymbolOrPad(t[i])
  {
    assert t[2..] == "==" ==> t[2..][0] == '=';
    assert forall i | 0 <= i < 3 :: t[i] == t[..3][i];
    assert forall i | 0 <= i < 2 :: t[i] == t[..2][i];
    hide Value;
  }

  lemma ThreeBytes(a: int, b: int, c: int, d: int)
    requires 0 <= a < 64 && 0 <= b < 64 && 0 <= c < 64 && 0 <= d < 64
    ensures IsBytes(Three(a, b, c, d))
  {
  }

  lemma {:induction false} DecodedChars(t: string)
    requires Decode64(t).Some?
    ensures IsBytes(Decode64(t).value)
    ensures forall i | 0 <= i < |t| :: SymbolOrPad(t[i])
    decreases |t|
  {
    hide DecodeLast, Three;
    if |t| == 4 && t[3] == '=' {
      LastChars(t);
    } else if |t| >= 4 {
      assert forall i | 0 <= i < 4 :: t[..4][i] == t[i] && Value(t[i]) < 64;
      ThreeBytes(Value(t[0]), Value(t[1]), Value(t[2]), Value(t[3]));
      hide Value;
      DecodedChars(t[4..]);
      assert forall i | 4 <= i < |t| :: t[i] == t[4..][i - 4];
    }
  }

  lemma {:induction false} NoSpacesToDrop(s: string)
    requires forall i | 0 <= i < |s| :: !IsSpace(s[i])
    ensures DropSpaces(s) == s
  {
    if s != "" { NoSpacesToDrop(s[1..]); }
  }

  lemma {:induction false} DropConcat(a: string, b: string)
    ensures DropSpaces(a + b) == DropSpaces(a) + DropSpaces(b)
  {
    if a == "" {
      assert a + b == b;
    } else {
      assert (a + b)[1..] == a[1..] + b;
      DropConcat(a[1..], b);
    }
  }

  lemma {:induction false} DropTrimLeft(s: string)
    ensures DropSpaces(TrimLeft(s)) == DropSpaces(s)
  {
    if s != "" && IsSpace(s[0]) { DropTrimLeft(s[1..]); }
  }

  lemma {:induction false} DropTrimRight(s: string)
    ensures DropSpaces(TrimRight(s)) == DropSpaces(s)
  {
    if s != "" && IsSpace(s[|s| - 1]) {
      var n := |s| - 1;
      DropTrimRight(s[..n]);
      DropConcat(s[..n], [s[n]]);
      assert s == s[..n] + [s[n]];
      assert DropSpaces([s[n]]) == "";
    }
  }

  /** Whatever the builder decodes, the form decodes to the same bytes. */
  lemma ReadersAgree(s: string)
    requires BuilderB64(s).Some?
    ensures DraftB64(s) == BuilderB64(s)
  {
    hide IsUtf8, AsText;
    var x := Each(s, FromUrl);
    var t := Trim(x);
    DecodedChars(Repad(t));
    forall i | 0 <= i < |t| ensures !IsSpace(t[i]) { assert t[i] == Repad(t)[i]; }
    NoSpacesToDrop(t);
    DropTrimLeft(x);
    DropTrimRight(TrimLeft(x));
  }

  // ---- taking a link apart; `body` follows "ss://" ----

  function StripSlashes(s: string): string {
    if s != "" && s[|s| - 1] == '/' then StripSlashes(s[..|s| - 1]) else s
  }

  predicate HasPlugin(query: string) {
    query != "" && ("plugin=" <= query || HasPlugin(query[1..]))
  }

  function WithoutFragment(body: string): string {
    Before(body, '#')
  }

  function Core(body: string): string {
    StripSlashes(Before(WithoutFragment(body), '?'))
  }

  /** User information and host with port, as both readers find them with their base64 reader. */
  function Halves(core: string, b64: string -> Option<string>): Option<(string, string)> {
    var at := LastIndexOf(core, '@');
    if at < |core| then
      var ui, hostport := core[..at], core[at + 1..];
      var plain := Decode(ui, false);
      if plain == None then None
      else if ':' in ui then Some((plain.value, hostport))
      else match b64(plain.value) case None => None case Some(u) => Some((u, hostport))
    else
      match b64(core)
      case None => None
      case Some(decoded) =>
        var i := LastIndexOf(decoded, '@');
        if i == |decoded| then None else Some((decoded[..i], decoded[i + 1..]))
  }

  function PortText(text: string): Option<Option<nat>> {
    if text == "" then Some(None)
    else match ParsePort(text) case None => None case Some(p) => Some(Some(p))
  }

  predicate HostChars(h: string) {
    forall c <- h :: !IsSpace(c) && c !in "@#?/[]%" && c as int < 128
  }

  /** Authority of a URI with scheme ss: the text up to a path, query or fragment. */
  function Authority(hostport: string): string {
    Before(Before(Before(hostport, '/'), '?'), '#')
  }

  /** Uri.host (lower case, without brackets) and the port of Uri.parse("ss://" + hostport). */
  function HostPort(hostport: string): Option<(string, Option<nat>)> {
    var a := Authority(hostport);
    if a != "" && a[0] == '[' then Bracketed(a)
    else
      var j := IndexOf(a, ':');
      if !HostChars(a[..j]) then None
      else if j == |a| then Some((Lower(a), None))
      else WithPort(Lower(a[..j]), PortText(a[j + 1..]))
  }

  function Bracketed(a: string): Option<(string, Option<nat>)>
    requires a != "" && a[0] == '['
  {
    var j := IndexOf(a, ']');
    if j == |a| || !HostChars(a[1..j]) || ':' !in a[1..j] then None
    else if j == |a| - 1 then Some((Lower(a[1..j]), None))
    else if a[j + 1] != ':' then None
    else WithPort(Lower(a[1..j]), PortText(a[j + 2..]))
  }

  function WithPort(host: string, port: Option<Option<nat>>): Option<(string, Option<nat>)> {
    match port case None => None case Some(p) => Some((host, p))
  }

  /** _shadowsocks; None is every way of throwing. */
  function Build(body: string): Option<Server> {
    var b := WithoutFragment(body);
    var qm := IndexOf(b, '?');
    if qm < |b| && HasPlugin(b[qm + 1..]) then None
    else
      match Halves(Core(body), BuilderB64)
      case None => None
      case Some((userinfo, hostport)) =>
        var c, hp := IndexOf(userinfo, ':'), HostPort(hostport);
        if c == |userinfo| || c == 0 || hp == None || hp.value.0 == "" || hp.value.1 == None then None
        else Some(Server(hp.value.0, hp.value.1.value, userinfo[..c], userinfo[c + 1..]))
  }

  /** _fromSs; None is every way of throwing. */
  function Read(body: string): Option<SsForm> {
    match Halves(Core(body), DraftB64)
    case None => None
    case Some((userinfo, hostport)) =>
      var c, hp := IndexOf(userinfo, ':'), HostPort(hostport);
      if c == |userinfo| || hp == None then None
      else
        var port := if hp.value.1 == None then "" else DecimalOf(hp.value.1.value);
        Some(SsForm(hp.value.0, port, userinfo[..c], userinfo[c + 1..]))
  }

  /** _ssLink without "ss://"; `remark` is the encoded name. */
  function Write(d: SsForm, remark: string): string
    requires IsBytes(d.ssMethod + ":" + Trim(d.secret))
  {
    UrlNoPad(d.ssMethod + ":" + Trim(d.secret)) + "@" + HostForUri(Trim(d.address)) + ":" + Trim(d.port) + "#" + remark
  }

  // ---- every link that builds reaches the base64url form ----

  lemma HalvesAgree(core: string)
    requires Halves(core, BuilderB64).Some?
    ensures Halves(core, DraftB64) == Halves(core, BuilderB64)
    ensures IsUtf8(Halves(core, BuilderB64).value.0)
  {
    hide Decode, BuilderB64, DraftB64, IsUtf8, LastIndexOf;
    var at := LastIndexOf(core, '@');
    if at < |core| {
      var ui := core[..at];
      if ':' !in ui { ReadersAgree(Decode(ui, false).value); }
    } else {
      ReadersAgree(core);
      var decoded := BuilderB64(core).value;
      var i := LastIndexOf(decoded, '@');
      assert decoded == decoded[..i] + ['@'] + decoded[i + 1..];
      SplitUtf8(decoded[..i], '@', decoded[i + 1..]);
    }
  }

  /** What the host of a parsed link looks like. */
  predicate PlainHost(h: string) {
    HostChars(h) && Lower(h) == h
  }

  lemma LowerHost(h: string)
    requires HostChars(h)
    ensures PlainHost(Lower(h)) && (':' in Lower(h) <==> ':' in h)
  {
    var l := Lower(h);
    forall c <- l ensures !IsSpace(c) && c !in "@#?/[]%" && c as int < 128 {
      var i :| 0 <= i < |l| && l[i] == c;
      assert h[i] in h;
    }
    if ':' in h {
      var i :| 0 <= i < |h| && h[i] == ':';
      assert l[i] == ':';
    }
    if ':' in l {
      var i :| 0 <= i < |l| && l[i] == ':';
      assert h[i] == ':';
    }
  }

  lemma HostIsPlain(hostport: string)
    requires HostPort(hostport).Some?
    ensures PlainHost(HostPort(hostport).value.0)
  {
    hide HostChars, Lower, PortText;
    var a := Authority(hostport);
    if a != "" && a[0] == '[' {
      LowerHost(a[1..IndexOf(a, ']')]);
    } else {
      LowerHost(a[..IndexOf(a, ':')]);
      assert a[..|a|] == a;
    }
  }

  lemma PlainHostTrimmed(h: string)
    requires PlainHost(h)
    ensures Trim(h) == h
  {
    assert h != "" ==> h[0] in h && h[|h| - 1] in h;
    TrimFixpoint(h);
  }

  lemma PortReads(port: nat)
    ensures PortText(DecimalOf(port)) == Some(Some(port))
    ensures DecimalOf(port) != "" && Trimmed(DecimalOf(port)) && forall c <- DecimalOf(port) :: IsDigit(c)
  {
    DecimalChars(port);
    DigitsRoundTrip(port);
  }

  lemma BeforeAll(s: string)
    requires '/' !in s && '?' !in s && '#' !in s
    ensures Authority(s) == s
  {
    hide Before;
    BeforeWhole(s, '/');
    BeforeWhole(s, '?');
    BeforeWhole(s, '#');
  }

  /** Host and port as the writer prints them. */
  function HostPortText(h: string, port: nat): string {
    HostForUri(h) + ":" + DecimalOf(port)
  }

  lemma NoSeparators(h: string, port: nat)
    requires PlainHost(h)
    ensures var a := HostPortText(h, port); '/' !in a && '?' !in a && '#' !in a && '@' !in a
    ensures '[' !in h && ']' !in h
    ensures var a := HostPortText(h, port); a != "" && IsDigit(a[|a| - 1])
  {
    PortReads(port);
    var a, dec := HostPortText(h, port), DecimalOf(port);
    hide DecimalOf, Lower;
    assert forall c <- a :: c in h || c in dec || c == '[' || c == ']' || c == ':';
    assert a[|a| - 1] == dec[|dec| - 1] && dec[|dec| - 1] in dec;
  }

  lemma BracketedReads(h: string, port: nat)
    requires PlainHost(h) && ':' in h && Authority(HostPortText(h, port)) == HostPortText(h, port)
    requires '[' !in h && ']' !in h
    ensures HostPort(HostPortText(h, port)) == Some((h, Some(port)))
  {
    var a, dec := HostPortText(h, port), DecimalOf(port);
    PortReads(port);
    hide Authority, PortText, DecimalOf, Lower, HostChars, IndexOf;
    assert HostForUri(h) == "[" + h + "]" by { assert h[0] in h; }
    BracketedParts(h, dec);
    IndexOfAppend("[" + h, ']', ":" + dec);
    assert a == ("[" + h) + [']'] + (":" + dec);
    hide HostPortText, HostForUri, Bracketed;
    BracketedAuthority(a, h, dec);
  }

  lemma BracketedParts(h: string, dec: string)
    ensures var a := ("[" + h) + [']'] + (":" + dec);
            a[0] == '[' && a[1..|h| + 1] == h && a[|h| + 2] == ':' && a[|h| + 3..] == dec && |a| > |h| + 2
  {
  }

  lemma BracketedAuthority(a: string, h: string, dec: string)
    requires a != "" && a[0] == '['
    requires var j := IndexOf(a, ']'); 1 <= j < |a| - 1 && a[1..j] == h && a[j + 1] == ':' && a[j + 2..] == dec
    requires HostChars(h) && Lower(h) == h && ':' in h
    ensures Bracketed(a) == WithPort(h, PortText(dec))
  {
    hide PortText, Lower, HostChars, IndexOf, WithPort;
  }

  lemma NamedReads(h: string, port: nat)
    requires PlainHost(h) && ':' !in h && Authority(HostPortText(h, port)) == HostPortText(h, port)
    requires '[' !in h
    ensures HostPort(HostPortText(h, port)) == Some((h, Some(port)))
  {
    var a, dec := HostPortText(h, port), DecimalOf(port);
    PortReads(port);
    hide Authority, PortText, DecimalOf, Lower, HostChars, IndexOf;
    IndexOfAppend(h, ':', dec);
    assert a == h + [':'] + dec && a[..|h|] == h && a[|h| + 1..] == dec;
    assert a[0] != '[' by { assert h != "" ==> a[0] == h[0] && h[0] in h; }
  }

  lemma HostPortReads(h: string, port: nat)
    requires PlainHost(h)
    ensures HostPort(HostPortText(h, port)) == Some((h, Some(port)))
  {
    hide HostPort, HostPortText, Authority, PlainHost;
    NoSeparators(h, port);
    BeforeAll(HostPortText(h, port));
    if ':' in h { BracketedReads(h, port); } else { NamedReads(h, port); }
  }

  lemma {:induction false} PlainBytes(s: string)
    requires forall i | 0 <= i < |s| :: s[i] != '%' && s[i] as int < 128
    ensures DecodeBytes(s, false) == Some(s)
  {
    if s != "" {
      PlainBytes(s[1..]);
      assert [s[0]] + s[1..] == s;
    }
  }

  lemma DecodePlain(s: string)
    requires forall i | 0 <= i < |s| :: s[i] != '%' && s[i] as int < 128
    ensures Decode(s, false) == Some(s)
  {
    hide IsUtf8;
    PlainBytes(s);
    AsciiUtf8(s);
  }

  lemma UserInfoReads(text: string)
    requires IsUtf8(text)
    ensures Decode(UrlNoPad(text), false) == Some(UrlNoPad(text)) && BuilderB64(UrlNoPad(text)) == Some(text)
    ensures forall c <- UrlNoPad(text) :: c !in "@#?:"
  {
    hide UrlNoPad, Decode64, Repad, Decode, Utf8.Decode;
    UrlChars(text);
    var u := UrlNoPad(text);
    assert forall i | 0 <= i < |u| :: u[i] in u;
    DecodePlain(u);
    var x := Each(u, FromUrl);
    forall i | 0 <= i < |x| ensures !IsSpace(x[i]) { assert x[i] == FromUrl(u[i]); }
    TrimFixpoint(x);
    UrlRoundTrip(text);
  }

  lemma CoreOf(front: string, remark: string)
    requires '#' !in front && '?' !in front && front != "" && IsDigit(front[|front| - 1])
    ensures WithoutFragment(front + "#" + remark) == front && Core(front + "#" + remark) == front
  {
    var body := front + ['#'] + remark;
    assert body == front + "#" + remark;
    IndexOfAppend(front, '#', remark);
    assert body[..|front|] == front;
    BeforeWhole(front, '?');
  }

  lemma HalvesOf(text: string, rest: string)
    requires IsUtf8(text) && '@' !in rest
    ensures Halves(UrlNoPad(text) + "@" + rest, BuilderB64) == Some((text, rest))
  {
    hide UrlNoPad, BuilderB64, Decode, LastIndexOf;
    var ui := UrlNoPad(text);
    UserInfoReads(text);
    LastIndexOfAppend(ui, '@', rest);
    var front := ui + ['@'] + rest;
    assert front == ui + "@" + rest && front[..|ui|] == ui && front[|ui| + 1..] == rest;
  }

  /** The printed link taken apart again, before its host and port are read. */
  lemma WrittenHalves(text: string, h: string, port: nat, remark: string)
    requires IsUtf8(text) && PlainHost(h)
    ensures var body := UrlNoPad(text) + "@" + HostPortText(h, port) + "#" + remark;
            '?' !in WithoutFragment(body) && Halves(Core(body), BuilderB64) == Some((text, HostPortText(h, port)))
  {
    hide UrlNoPad, BuilderB64, HostPortText, PlainHost, Core, WithoutFragment, Halves, Decode;
    var ui, rest := UrlNoPad(text), HostPortText(h, port);
    NoSeparators(h, port);
    UserInfoReads(text);
    var front := ui + "@" + rest;
    assert forall c <- front :: c in ui || c == '@' || c in rest;
    assert front[|front| - 1] == rest[|rest| - 1];
    CoreOf(front, remark);
    HalvesOf(text, rest);
  }

  lemma WrittenBuilds(m: string, p: string, h: string, port: nat, remark: string)
    requires IsUtf8(m) && IsUtf8(p) && PlainHost(h) && m != "" && ':' !in m && h != ""
    ensures IsBytes(m + ":" + Trim(p))
    ensures Build(Write(SsForm(h, DecimalOf(port), m, p), remark)) == Some(Server(h, port, m, Trim(p)))
  {
    hide UrlNoPad, BuilderB64, PlainHost, Core, WithoutFragment, Halves, HasPlugin, Trim, HostPort, DecimalOf, HostForUri;
    TrimUtf8(p);
    SplitUtf8(m, ':', Trim(p));
    assert m + [':'] + Trim(p) == m + ":" + Trim(p);
    hide Utf8.Decode, OctetsOf;
    PlainHostTrimmed(h);
    PortReads(port);
    TrimFixpoint(DecimalOf(port));
    var text := m + ":" + Trim(p);
    WrittenHalves(text, h, port, remark);
    HostPortReads(h, port);
    IndexOfAppend(m, ':', Trim(p));
    assert text == m + [':'] + Trim(p) && text[..|m|] == m && text[|m| + 1..] == Trim(p);
    var body := Write(SsForm(h, DecimalOf(port), m, p), remark);
    assert body == UrlNoPad(text) + "@" + HostPortText(h, port) + "#" + remark;
    NoQuestion(WithoutFragment(body));
  }

  lemma NoQuestion(b: string)
    requires '?' !in b
    ensures IndexOf(b, '?') == |b|
  {
  }

  /** Plain, base64 and legacy links that build are all read into the form, and the link it writes
      builds the same server, with the password trimmed: the same one exactly for a trimmed password. */
  lemma NormalForm(body: string, remark: string)
    requires Build(body).Some?
    ensures Read(body).Some? && IsBytes(Read(body).value.ssMethod + ":" + Trim(Read(body).value.secret))
    ensures var s := Build(body).value;
            && Read(body) == Some(SsForm(s.address, DecimalOf(s.port), s.cipher, s.password))
            && Build(Write(Read(body).value, remark)) == Some(s.(password := Trim(s.password)))
            && (Build(Write(Read(body).value, remark)) == Build(body) <==> Trimmed(s.password))
  {
    var core := Core(body);
    hide BuilderB64, DraftB64, Core, WithoutFragment, HasPlugin, PlainHost, Trim, Halves, HostPort, DecimalOf, Trimmed, Write;
    HalvesAgree(core);
    var (userinfo, hostport) := Halves(core, BuilderB64).value;
    var c := IndexOf(userinfo, ':');
    var m, p := userinfo[..c], userinfo[c + 1..];
    var h, port := HostPort(hostport).value.0, HostPort(hostport).value.1.value;
    assert userinfo == m + [':'] + p;
    SplitUtf8(m, ':', p);
    hide IsUtf8;
    HostIsPlain(hostport);
    TrimFixpoint(p);
    assert Read(body) == Some(SsForm(h, DecimalOf(port), m, p));
    WrittenBuilds(m, p, h, port, remark);
  }

  // ---- what each form of a link builds ----

  predicate Credentials(m: string, p: string) {
    IsUtf8(m + ":" + p) && m != "" && ':' !in m
  }

  /** From the halves of a link to its server. */
  lemma HalvesBuild(body: string, m: string, p: string, h: string, port: nat)
    requires Credentials(m, p) && PlainHost(h) && h != ""
    requires '?' !in WithoutFragment(body)
    requires Halves(Core(body), BuilderB64) == Some((m + ":" + p, HostPortText(h, port)))
    ensures Build(body) == Some(Server(h, port, m, p))
  {
    hide Core, WithoutFragment, Halves, HostPort, HostPortText, PlainHost, IsUtf8, HasPlugin;
    HostPortReads(h, port);
    NoQuestion(WithoutFragment(body));
    var text := m + [':'] + p;
    IndexOfAppend(m, ':', p);
    assert text == m + ":" + p && text[..|m|] == m && text[|m| + 1..] == p;
  }

  /** Method and password in base64url, then the address: the current form. */
  lemma Base64Link(m: string, p: string, h: string, port: nat, remark: string)
    requires Credentials(m, p) && PlainHost(h) && h != ""
    ensures Build(UrlNoPad(m + ":" + p) + "@" + HostPortText(h, port) + "#" + remark) == Some(Server(h, port, m, p))
  {
    hide Core, WithoutFragment, Halves, HostPortText, PlainHost, UrlNoPad, BuilderB64;
    WrittenHalves(m + ":" + p, h, port, remark);
    HalvesBuild(UrlNoPad(m + ":" + p) + "@" + HostPortText(h, port) + "#" + remark, m, p, h, port);
  }

  lemma PlainHalves(ui: string, rest: string)
    requires ':' in ui && Decode(ui, false) == Some(ui) && '@' !in rest
    ensures Halves(ui + "@" + rest, BuilderB64) == Some((ui, rest))
  {
    hide Decode, BuilderB64, LastIndexOf;
    LastIndexOfAppend(ui, '@', rest);
    var front := ui + ['@'] + rest;
    assert front == ui + "@" + rest && front[..|ui|] == ui && front[|ui| + 1..] == rest;
  }

  lemma PlainUserInfo(m: string, p: string)
    requires forall c <- m + p :: c as int < 128 && c !in "%@#?"
    ensures var ui := m + ":" + p;
            Decode(ui, false) == Some(ui) && IsUtf8(ui) && ':' in ui && '#' !in ui && '?' !in ui
  {
    hide Decode, IsUtf8;
    var ui := m + ":" + p;
    assert forall i | 0 <= i < |ui| :: ui[i] in m + p || ui[i] == ':';
    assert ui[|m|] == ':';
    DecodePlain(ui);
    AsciiUtf8(ui);
  }

  /** Method and password as they are. */
  lemma PlainLink(m: string, p: string, h: string, port: nat, remark: string)
    requires m != "" && ':' !in m && PlainHost(h) && h != ""
    requires forall c <- m + p :: c as int < 128 && c !in "%@#?"
    ensures Build(m + ":" + p + "@" + HostPortText(h, port) + "#" + remark) == Some(Server(h, port, m, p))
  {
    hide HostPortText, PlainHost, Core, WithoutFragment, Decode, IsUtf8, Halves, Build;
    var ui, rest := m + ":" + p, HostPortText(h, port);
    NoSeparators(h, port);
    PlainUserInfo(m, p);
    var front := ui + "@" + rest;
    assert forall c <- front :: c in ui || c == '@' || c in rest;
    assert front[|front| - 1] == rest[|rest| - 1];
    CoreOf(front, remark);
    PlainHalves(ui, rest);
    HalvesBuild(front + "#" + remark, m, p, h, port);
  }

  lemma LegacyHalves(ui: string, rest: string)
    requires IsUtf8(ui + ['@'] + rest) && '@' !in rest
    ensures Halves(UrlNoPad(ui + ['@'] + rest), BuilderB64) == Some((ui, rest))
  {
    hide BuilderB64, LastIndexOf, UrlNoPad;
    var text := ui + ['@'] + rest;
    assert IsBytes(text);
    hide IsUtf8;
    UserInfoReads(text);
    NoAt(UrlNoPad(text));
    LastIndexOfAppend(ui, '@', rest);
    assert text[..|ui|] == ui && text[|ui| + 1..] == rest;
  }

  lemma WholeCore(body: string)
    requires '#' !in body && '?' !in body && '/' !in body
    ensures WithoutFragment(body) == body && Core(body) == body
  {
    BeforeWhole(body, '#');
    BeforeWhole(body, '?');
    if body != "" { assert body[|body| - 1] in body; }
  }

  /** The whole of it in base64url, without a remark: the old form. */
  lemma LegacyLink(m: string, p: string, h: string, port: nat)
    requires Credentials(m, p) && PlainHost(h) && h != ""
    ensures IsUtf8(m + ":" + p + "@" + HostPortText(h, port))
    ensures Build(UrlNoPad(m + ":" + p + "@" + HostPortText(h, port))) == Some(Server(h, port, m, p))
  {
    hide HostPortText, PlainHost, IsUtf8, UrlNoPad, Core, WithoutFragment, Halves, Build;
    var ui, rest := m + ":" + p, HostPortText(h, port);
    NoSeparators(h, port);
    AsciiRest(h, port);
    SplitUtf8(ui, '@', rest);
    var text := ui + ['@'] + rest;
    assert text == m + ":" + p + "@" + rest;
    Utf8Bytes(text);
    UserInfoReads(text);
    NoSlash(text);
    WholeCore(UrlNoPad(text));
    LegacyHalves(ui, rest);
    HalvesBuild(UrlNoPad(text), m, p, h, port);
  }

  lemma Utf8Bytes(s: string)
    requires IsUtf8(s)
    ensures IsBytes(s)
  {
  }

  lemma NoAt(s: string)
    requires '@' !in s
    ensures LastIndexOf(s, '@') == |s|
  {
  }

  lemma AsciiRest(h: string, port: nat)
    requires PlainHost(h)
    ensures IsUtf8(HostPortText(h, port))
  {
    PortReads(port);
    var a, dec := HostPortText(h, port), DecimalOf(port);
    hide DecimalOf, Lower;
    assert forall c <- a :: c in h || c in dec || c == '[' || c == ']' || c == ':';
    assert forall i | 0 <= i < |a| :: a[i] in a && a[i] as int < 128;
    AsciiUtf8(a);
  }

  lemma NoSlash(text: string)
    requires IsBytes(text)
    ensures '/' !in UrlNoPad(text)
  {
    hide Encode64;
    UrlNoPadIs(text);
    EncodedShape(text);
    var e, u := Encode64(text), UrlNoPad(text);
    forall i | 0 <= i < |u| ensures u[i] != '/' { assert u[i] == ToUrl(e[i]); }
  }
}
