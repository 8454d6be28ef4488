/** Editing a vless or trojan link without changes: exactly when the Xray outbound stays the same. */
module DraftMeaning {
  import opened Text
  import opened Percent
  import opened Xray
  import opened Draft

  // ---- the condition, parameter by parameter ----

  predicate TrimmedAt(q: Query, k: Key) {
    Trimmed(Val(q, k, ""))
  }

  predicate AccountKept(scheme: Scheme, q: Query) {
    scheme == Vless ==>
      Val(q, Encryption, "none") != "" && Trimmed(Val(q, Encryption, "none")) && TrimmedAt(q, Flow)
  }

  predicate TransportKept(net: Network, q: Query) {
    match net
    case Tcp => Val(q, HeaderType, "none") == "http" ==> TrimmedAt(q, Path) && TrimmedAt(q, Host)
    case Ws => TrimmedAt(q, Path) && TrimmedAt(q, Host)
    case HttpUpgrade => TrimmedAt(q, Path) && TrimmedAt(q, Host)
    case Grpc => TrimmedAt(q, ServiceName) && (Trim(Val(q, Mode, "")) == "multi" ==> Val(q, Mode, "") == "multi")
    case Xhttp => TrimmedAt(q, Path) && TrimmedAt(q, Host) && TrimmedAt(q, Mode)
  }

  /** TLS takes its server name from `host`, on a transport whose host the writer drops. */
  predicate NameFromDroppedHost(net: Network, q: Query) {
    Val(q, Sni, "") == "" && Val(q, Host, "") != "" && !CarriesHost(net, Val(q, HeaderType, "none"))
  }

  predicate SecurityKept(net: Network, kind: SecurityKind, q: Query) {
    match kind
    case NoSecurity => true
    case TlsKind =>
      && TrimmedAt(q, Sni) && TrimmedAt(q, Fp) && TrimmedAt(q, Alpn) && TrimmedAt(q, Pcs) && TrimmedAt(q, Vcn)
      && !NameFromDroppedHost(net, q)
    case RealityKind =>
      TrimmedAt(q, Sni) && TrimmedAt(q, Fp) && TrimmedAt(q, Pbk) && TrimmedAt(q, Sid) && TrimmedAt(q, Spx)
  }

  predicate Preserved(l: Link)
    requires Build(l).Some?
  {
    && Trimmed(Decode(l.userInfo, false).value) && Trimmed(UriHost(l.hostText))
    && AccountKept(l.scheme, l.query)
    && TransportKept(NetworkOf(l.query).value, l.query)
    && SecurityKept(NetworkOf(l.query).value, SecurityKindOf(l.scheme, l.query).value, l.query)
  }

  // ---- what the written query holds ----

  lemma WrittenAt(d: Fields, k: Key)
    requires k in d.extra ==> Rank(d.scheme, k) == OTHERS
    ensures forall v: string :: Val(WrittenQuery(d), k, v)
              == if Shown(d, k).Some? then Shown(d, k).value else Val(d.extra, k, v)
    ensures Rank(d.scheme, k) < OTHERS ==>
              forall v: string :: Val(WrittenQuery(d), k, v) == if Shown(d, k).Some? then Shown(d, k).value else v
  {
    ShownKeys(d, k);
    hide Shown, Rank;
  }

  lemma ReadExtra(l: Link, k: Key)
    requires Read(l).Some?
    ensures k in Read(l).value.extra <==> k in l.query && Rank(l.scheme, k) == OTHERS
    ensures k in Read(l).value.extra ==> Read(l).value.extra[k] == l.query[k]
  {
    hide Decode, DraftNetwork, DraftSecurity, Lower, DecimalOf, UriHost;
  }

  /** Every parameter the form has no field for is written back unchanged. */
  lemma UnknownParametersSurvive(l: Link, k: Key)
    requires Read(l).Some? && k in l.query && Rank(l.scheme, k) == OTHERS
    ensures k in WrittenQuery(Read(l).value) && WrittenQuery(Read(l).value)[k] == l.query[k]
  {
    hide Decode, Trim, DraftNetwork, DraftSecurity, Lower, DecimalOf, UriHost;
    ReadExtra(l, k);
    WrittenAt(Read(l).value, k);
  }

  lemma TrimKeeps(v: string)
    ensures (if Put(v).Some? then Put(v).value else "") == Trim(v)
    ensures Trim(v) == v <==> Trimmed(v)
    ensures NonEmpty(Trim(v)) == NonEmpty(v) <==> Trimmed(v)
    ensures Trim(v) != "" ==> v != ""
    ensures Trimmed(Trim(v))
  {
    TrimFixpoint(v);
    TrimResult(v);
    TrimFixpoint(Trim(v));
    TrimFixpoint("");
  }

  // ---- names of networks and security layers ----

  lemma NetworkNames(net: Network)
    ensures NetworkNamed(Lower(NetworkName(net))) == Some(net)
  {
    assert Lower(NetworkName(net)) == NetworkName(net);
  }

  lemma SecurityNames(kind: SecurityKind)
    ensures SecurityNamed(Lower(SecurityName(kind))) == Some(kind)
  {
    assert Lower(SecurityName(kind)) == SecurityName(kind);
  }

  /** Where the builder accepts a name, the form reads the same one. */
  lemma SameNames(s: string)
    ensures NetworkNamed(s).Some? ==> DraftNetwork(s) == NetworkNamed(s).value
    ensures SecurityNamed(s).Some? ==> DraftSecurity(s) == SecurityNamed(s).value
  {
  }

  /** Where the builder refuses a name, the form shows TCP, or no security. */
  lemma UnknownNames(s: string)
    ensures NetworkNamed(s) == None ==> DraftNetwork(s) == Tcp
    ensures SecurityNamed(s) == None ==> DraftSecurity(s) == NoSecurity
  {
  }

  // ---- one part of the outbound at a time; `w` is the written query ----

  /** `w` is what the form writes for the parameters of `q`. */
  ghost predicate Rewritten(q: Query, w: Query, scheme: Scheme, net: Network, kind: SecurityKind) {
    && Val(w, Type, "tcp") == NetworkName(net) && Val(w, Security, DefaultSecurity(scheme)) == SecurityName(kind)
    && (scheme == Vless ==>
          Val(w, Encryption, "none") == (var e := Trim(Val(q, Encryption, "none")); if e == "" then "none" else e))
    && (scheme == Vless ==> Val(w, Flow, "") == Trim(Val(q, Flow, "")))
    && RewrittenTransport(q, w, net, CarriesHost(net, Val(q, HeaderType, "none")))
    && RewrittenSecurity(q, w, kind)
  }

  ghost predicate RewrittenTransport(q: Query, w: Query, net: Network, carries: bool) {
    && Val(w, Path, "") == (if carries then Trim(Val(q, Path, "")) else "")
    && Val(w, Host, "") == (if carries then Trim(Val(q, Host, "")) else "")
    && (net == Tcp ==> (Val(w, HeaderType, "none") == "http" <==> Val(q, HeaderType, "none") == "http"))
    && (net == Grpc ==> Val(w, ServiceName, "") == Trim(Val(q, ServiceName, "")))
    && (net in {Grpc, Xhttp} ==> Val(w, Mode, "") == Trim(Val(q, Mode, "")))
    && Val(w, Authority, "") == Val(q, Authority, "")
  }

  ghost predicate RewrittenSecurity(q: Query, w: Query, kind: SecurityKind) {
    && (kind != NoSecurity ==> Val(w, Sni, "") == Trim(Val(q, Sni, "")))
    && (kind != NoSecurity ==> Val(w, Fp, "") == Trim(Val(q, Fp, "chrome")))
    && (kind == TlsKind ==> Val(w, Alpn, "") == Trim(Val(q, Alpn, "")))
    && (kind == TlsKind ==> Val(w, Pcs, "") == Trim(Val(q, Pcs, "")) && Val(w, Vcn, "") == Trim(Val(q, Vcn, "")))
    && (kind == RealityKind ==> Val(w, Pbk, "") == Trim(Val(q, Pbk, "")))
    && (kind == RealityKind ==> Val(w, Sid, "") == Trim(Val(q, Sid, "")) && Val(w, Spx, "") == Trim(Val(q, Spx, "")))
    && Val(w, Ech, "") == Val(q, Ech, "")
  }

  lemma AccountIff(scheme: Scheme, secret: string, q: Query, w: Query, net: Network, kind: SecurityKind)
    requires Rewritten(q, w, scheme, net, kind)
    ensures AccountOf(scheme, Trim(secret), w) == AccountOf(scheme, secret, q)
       <==> Trimmed(secret) && AccountKept(scheme, q)
  {
    hide Trim, RewrittenTransport, RewrittenSecurity;
    TrimKeeps(secret);
    TrimKeeps(Val(q, Encryption, "none"));
    TrimKeeps(Val(q, Flow, ""));
  }

  lemma TransportIff(q: Query, w: Query, net: Network)
    requires RewrittenTransport(q, w, net, CarriesHost(net, Val(q, HeaderType, "none")))
    ensures TransportOf(net, w) == TransportOf(net, q) <==> TransportKept(net, q)
  {
    hide Trim, Trimmed, Split;
    TrimKeeps(Val(q, Path, ""));
    TrimKeeps(Val(q, Host, ""));
    TrimKeeps(Val(q, ServiceName, ""));
    TrimKeeps(Val(q, Mode, ""));
    SplitInjective(Val(w, Host, ""), Val(q, Host, ""), ',');
    RootPath(Val(q, Path, ""));
    MultiTrimmed();
  }

  lemma MultiTrimmed()
    ensures Trim("multi") == "multi"
  {
    TrimFixpoint("multi");
  }

  /** An empty path and "/" are the same request path, and both are trimmed. */
  lemma RootPath(p: string)
    ensures (if Trim(p) == "" then "/" else Trim(p)) == (if p == "" then "/" else p) <==> Trimmed(p)
  {
    TrimKeeps(p);
    assert Trimmed("/");
  }

  lemma ServerNameIff(q: Query, w: Query, net: Network)
    requires RewrittenTransport(q, w, net, CarriesHost(net, Val(q, HeaderType, "none")))
    requires Val(w, Sni, "") == Trim(Val(q, Sni, "")) && TransportKept(net, q)
    ensures ServerName(w) == ServerName(q) <==> TrimmedAt(q, Sni) && !NameFromDroppedHost(net, q)
  {
    hide Trim, Split;
    TrimKeeps(Val(q, Sni, ""));
    TrimKeeps(Val(q, Host, ""));
    if CarriesHost(net, Val(q, HeaderType, "none")) {
      assert Val(w, Host, "") == Val(q, Host, "");
      FirstPiece(Val(q, Host, ""), Val(q, Sni, ""));
    }
  }

  /** The first piece of a trimmed text does not start with white space. */
  lemma FirstPiece(host: string, sni: string)
    requires Trimmed(host)
    ensures sni != "" && Trim(sni) == "" ==> Split(host, ',')[0] != sni
  {
    TrimKeeps(sni);
    if host != "" {
      assert Split(host, ',')[0] == "" || Split(host, ',')[0][0] == host[0];
      if sni != "" && Trim(sni) == "" { BlankStarts(sni); }
    }
  }

  lemma BlankStarts(s: string)
    requires s != "" && Trim(s) == ""
    ensures IsSpace(s[0])
  {
    if !IsSpace(s[0]) {
      assert TrimLeft(s) == s;
      TrimRightKeepsStart(s);
    }
  }

  lemma {:induction false} TrimRightKeepsStart(s: string)
    requires s != "" && !IsSpace(s[0])
    ensures TrimRight(s) != ""
  {
    if IsSpace(s[|s| - 1]) { TrimRightKeepsStart(s[..|s| - 1]); }
  }

  lemma FingerprintIff(q: Query, w: Query)
    requires Val(w, Fp, "") == Trim(Val(q, Fp, "chrome"))
    ensures Fingerprint(w) == Fingerprint(q) <==> TrimmedAt(q, Fp)
  {
    hide Trim;
    TrimKeeps(Val(q, Fp, "chrome"));
    assert Trimmed("chrome");
  }

  lemma SecurityIff(q: Query, w: Query, net: Network, kind: SecurityKind)
    requires RewrittenTransport(q, w, net, CarriesHost(net, Val(q, HeaderType, "none")))
    requires RewrittenSecurity(q, w, kind) && TransportKept(net, q) && SecurityOf(kind, q).Some?
    ensures SecurityOf(kind, w) == SecurityOf(kind, q) <==> SecurityKept(net, kind, q)
  {
    hide Trim, Trimmed, Split, ServerName, Fingerprint, NameFromDroppedHost, TransportKept, RewrittenTransport;
    if kind != NoSecurity {
      FingerprintIff(q, w);
      TrimKeeps(Val(q, Sni, ""));
    }
    if kind == TlsKind {
      ServerNameIff(q, w, net);
      TrimKeeps(Val(q, Alpn, ""));
      TrimKeeps(Val(q, Pcs, ""));
      TrimKeeps(Val(q, Vcn, ""));
      SplitInjective(Val(w, Alpn, ""), Val(q, Alpn, ""), ',');
    }
    if kind == RealityKind {
      TrimKeeps(Val(q, Pbk, ""));
      TrimKeeps(Val(q, Sid, ""));
      TrimKeeps(Val(q, Spx, ""));
    }
  }

  // ---- the written link ----

  lemma FieldsOf(l: Link)
    requires Build(l).Some?
    ensures Read(l).Some?
    ensures var d, q := Read(l).value, l.query;
            && d.scheme == l.scheme && d.secret == Decode(l.userInfo, false).value
            && d.address == UriHost(l.hostText) && d.port == DecimalOf(l.port.value)
            && d.network == NetworkOf(q).value && d.security == SecurityKindOf(l.scheme, q).value
            && (l.scheme == Vless ==> d.encryption == Val(q, Encryption, "none") && d.flow == Val(q, Flow, ""))
            && d.path == Val(q, Path, "") && d.hostHeader == Val(q, Host, "") && d.serviceName == Val(q, ServiceName, "")
            && d.mode == Val(q, Mode, "") && d.headerType == Val(q, HeaderType, "none")
            && d.sni == Val(q, Sni, "") && d.fingerprint == Val(q, Fp, "chrome") && d.alpn == Val(q, Alpn, "")
            && d.publicKey == Val(q, Pbk, "") && d.shortId == Val(q, Sid, "") && d.spiderX == Val(q, Spx, "")
            && d.pinnedCert == Val(q, Pcs, "") && d.verifyName == Val(q, Vcn, "")
  {
    SameNames(Lower(Val(l.query, Type, "tcp")));
    SameNames(Lower(Val(l.query, Security, DefaultSecurity(l.scheme))));
    hide Decode, Lower, NetworkNamed, SecurityNamed, DraftNetwork, DraftSecurity, DecimalOf, UriHost, Left;
  }

  lemma FormParameter(l: Link, k: Key)
    requires Read(l).Some? && Rank(l.scheme, k) < OTHERS
    ensures forall v: string :: Val(WrittenQuery(Read(l).value), k, v)
              == if Shown(Read(l).value, k).Some? then Shown(Read(l).value, k).value else v
  {
    hide Read, Rank, Shown, WrittenQuery;
    ReadExtra(l, k);
    SchemeRead(l);
    WrittenAt(Read(l).value, k);
  }

  lemma SchemeRead(l: Link)
    requires Read(l).Some?
    ensures Read(l).value.scheme == l.scheme
  {
    hide Decode, Val, Lower, DraftNetwork, DraftSecurity, DecimalOf, UriHost;
  }

  lemma OtherParameter(l: Link, k: Key)
    requires Read(l).Some? && Rank(l.scheme, k) == OTHERS && Shown(Read(l).value, k) == None
    ensures forall v: string :: Val(WrittenQuery(Read(l).value), k, v) == Val(l.query, k, v)
  {
    hide Read, Rank, Shown, WrittenQuery;
    ReadExtra(l, k);
    SchemeRead(l);
    WrittenAt(Read(l).value, k);
  }

  lemma WrittenTransport(l: Link)
    requires Build(l).Some? && Read(l).Some?
    ensures var net := NetworkOf(l.query).value;
            RewrittenTransport(l.query, WrittenQuery(Read(l).value), net, CarriesHost(net, Val(l.query, HeaderType, "none")))
  {
    hide Read, WrittenQuery, Build, NetworkOf, SecurityKindOf, Trim, Val, Decode, DecimalOf, UriHost;
    FieldsOf(l);
    FormParameter(l, Path);
    FormParameter(l, Host);
    FormParameter(l, HeaderType);
    FormParameter(l, ServiceName);
    FormParameter(l, Mode);
    OtherParameter(l, Authority);
  }

  lemma WrittenSecurity(l: Link)
    requires Build(l).Some? && Read(l).Some?
    ensures RewrittenSecurity(l.query, WrittenQuery(Read(l).value), SecurityKindOf(l.scheme, l.query).value)
  {
    hide Read, WrittenQuery, Build, NetworkOf, SecurityKindOf, Trim, Val, Decode, DecimalOf, UriHost;
    FieldsOf(l);
    FormParameter(l, Sni);
    FormParameter(l, Fp);
    FormParameter(l, Alpn);
    FormParameter(l, Pcs);
    FormParameter(l, Vcn);
    FormParameter(l, Pbk);
    FormParameter(l, Sid);
    FormParameter(l, Spx);
    OtherParameter(l, Ech);
  }

  lemma WrittenNames(l: Link)
    requires Build(l).Some? && Read(l).Some?
    ensures Rewritten(l.query, WrittenQuery(Read(l).value), l.scheme, NetworkOf(l.query).value,
                      SecurityKindOf(l.scheme, l.query).value)
  {
    hide Read, WrittenQuery, Build, NetworkOf, SecurityKindOf, Trim, Val, Decode, DecimalOf, UriHost,
      RewrittenTransport, RewrittenSecurity;
    WrittenTransport(l);
    WrittenSecurity(l);
    FieldsOf(l);
    FormParameter(l, Type);
    FormParameter(l, Security);
    if l.scheme == Vless {
      FormParameter(l, Encryption);
      FormParameter(l, Flow);
    }
  }

  // ---- address and port ----

  lemma AddressKept(text: string)
    requires HostShape(text)
    ensures var h := UriHost(text); UriHost(HostForUri(Trim(h))) == Trim(h)
    ensures var h := UriHost(text); UriHost(HostForUri(Trim(h))) == h <==> Trimmed(h)
  {
    var h := UriHost(text);
    TrimFixpoint(h);
    TrimChars(h, '[');
    TrimChars(h, ']');
    var t := Trim(h);
    if t != "" { assert t[0] in t && t[|t| - 1] in t; }
    var bracketed := "[" + t + "]";
    assert bracketed[1..|bracketed| - 1] == t;
  }

  lemma PortKept(port: nat)
    ensures ParsePort(Trim(DecimalOf(port))) == Some(port)
  {
    DecimalChars(port);
    TrimFixpoint(DecimalOf(port));
    DigitsRoundTrip(port);
  }

  lemma Writable(l: Link)
    requires Read(l).Some?
    ensures IsUtf8(Trim(Read(l).value.secret)) && IsBytes(Trim(Read(l).value.secret))
  {
    hide Val, Lower, DraftNetwork, DraftSecurity, DecimalOf, UriHost, Trim;
    TrimUtf8(Decode(l.userInfo, false).value);
  }

  /** The written link, but for its query. */
  lemma WrittenLink(l: Link)
    requires Build(l).Some? && HostShape(l.hostText)
    ensures Read(l).Some? && IsBytes(Trim(Read(l).value.secret))
    ensures var l', secret := Write(Read(l).value), Decode(l.userInfo, false).value;
            && l'.scheme == l.scheme && l'.port == l.port && l'.query == WrittenQuery(Read(l).value)
            && Decode(l'.userInfo, false) == Some(Trim(secret)) && (l'.userInfo == "" <==> Trim(secret) == "")
            && UriHost(l'.hostText) == Trim(UriHost(l.hostText))
  {
    hide IsUtf8, IsBytes;
    FieldsOf(l);
    Writable(l);
    AddressKept(l.hostText);
    PortKept(l.port.value);
    RoundTrip(Trim(Read(l).value.secret), false);
    hide Read, WrittenQuery, NetworkOf, SecurityKindOf, Trim, Val, Encode, Decode, DecimalOf, UriHost, HostForUri, ParsePort,
      TransportOf, SecurityOf, AccountOf;
  }

  /** Opening a link in the editor and saving it unchanged: it then builds the same outbound exactly
      when `Preserved` holds, for every vless and trojan link that builds. */
  lemma EditingPreservesMeaningIff(l: Link)
    requires Build(l).Some? && HostShape(l.hostText)
    ensures Read(l).Some? && IsBytes(Trim(Read(l).value.secret))
    ensures Build(Write(Read(l).value)) == Build(l) <==> Preserved(l)
  {
    hide IsUtf8, IsBytes, Write, Read, WrittenQuery;
    WrittenLink(l);
    var q, w := l.query, WrittenQuery(Read(l).value);
    var net, kind := NetworkOf(q).value, SecurityKindOf(l.scheme, q).value;
    var secret := Decode(l.userInfo, false).value;
    WrittenNames(l);
    WrittenKinds(l, w, net, kind);
    AddressKept(l.hostText);
    TrimKeeps(secret);
    AccountIff(l.scheme, secret, q, w, net, kind);
    TransportIff(q, w, net);
    if TransportKept(net, q) { SecurityIff(q, w, net, kind); }
    hide NetworkOf, SecurityKindOf, Trim, Trimmed, Val, Encode, Decode, DecimalOf, UriHost, HostForUri,
      AccountOf, TransportOf, SecurityOf, AccountKept, TransportKept, SecurityKept, Rewritten, ParsePort;
  }

  lemma WrittenKinds(l: Link, w: Query, net: Network, kind: SecurityKind)
    requires Rewritten(l.query, w, l.scheme, net, kind)
    ensures NetworkOf(w) == Some(net) && SecurityKindOf(l.scheme, w) == Some(kind)
  {
    NetworkNames(net);
    SecurityNames(kind);
    hide Lower, NetworkNamed, SecurityNamed, NetworkName, SecurityName, RewrittenTransport, RewrittenSecurity;
  }

  /** A trojan link over plain TCP whose only server name is its `host` parameter loses that name. */
  lemma DroppedHostChangesMeaning()
    ensures var l := Link(Trojan, "p", "h", Some(443), map[Host := "c"]);
            && Build(l).Some? && HostShape(l.hostText) && NameFromDroppedHost(Tcp, l.query)
            && Read(l).Some? && IsBytes(Trim(Read(l).value.secret))
            && Build(Write(Read(l).value)) != Build(l)
  {
    var l := Link(Trojan, "p", "h", Some(443), map[Host := "c"]);
    assert Decode("p", false) == Some("p") by {
      assert "p"[1..] == "" && ['p'] + "" == "p";
      assert DecodeBytes("p", false) == Some("p");
      AsciiUtf8("p");
    }
    assert NetworkOf(l.query) == Some(Tcp) by { NetworkNames(Tcp); }
    assert SecurityKindOf(Trojan, l.query) == Some(TlsKind) by { SecurityNames(TlsKind); }
    assert NameFromDroppedHost(Tcp, l.query);
    hide Decode, NetworkOf, SecurityKindOf, Read, Write, NameFromDroppedHost;
    EditingPreservesMeaningIff(l);
  }
}
