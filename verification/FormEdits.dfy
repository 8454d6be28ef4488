/** What changing one field of the form does to the outbound that the written link builds. */
module FormEdits {
  import opened Text
  import opened Percent
  import opened Xray
  import opened Draft
  import M = DraftMeaning
  import P = LinkParameters

  // ---- forms and the links they write ----

  /** What the written link builds, if it does. */
  function Saved(d: Fields): Option<Outbound> {
    if IsBytes(Trim(d.secret)) then Build(Write(d)) else None
  }

  /** The form's other parameters are none of its own, as an opened link gives them. */
  predicate Apart(d: Fields) {
    forall k <- d.extra :: Rank(d.scheme, k) == OTHERS
  }

  lemma OpenedIsApart(l: Link)
    requires Read(l).Some?
    ensures Apart(Read(l).value)
  {
    M.SchemeRead(l);
    forall k <- Read(l).value.extra ensures Rank(l.scheme, k) == OTHERS { M.ReadExtra(l, k); }
    hide Read, Rank;
  }

  /** A parameter, or the default of the form when it is not given. */
  function Or(l: Link, k: Key, default: string): string {
    if k in l.query then l.query[k] else default
  }

  predicate OpenedServer(l: Link, d: Fields) {
    && d.scheme == l.scheme && d.address == UriHost(l.hostText) && Some(d.secret) == Decode(l.userInfo, false)
    && d.port == (if l.port == None then "" else DecimalOf(l.port.value))
    && d.encryption == (if l.scheme == Vless then Or(l, Encryption, "none") else "none")
    && d.flow == (if l.scheme == Vless then Or(l, Flow, "") else "")
  }

  predicate OpenedTransport(l: Link, d: Fields) {
    && d.network == (match P.TypeName(l) case "ws" => Ws case "httpupgrade" => HttpUpgrade case "grpc" => Grpc
                     case "xhttp" => Xhttp case "splithttp" => Xhttp case _ => Tcp)
    && d.path == Or(l, Path, "") && d.hostHeader == Or(l, Host, "") && d.serviceName == Or(l, ServiceName, "")
    && d.mode == Or(l, Mode, "") && d.headerType == Or(l, HeaderType, "none")
  }

  predicate OpenedSecurity(l: Link, d: Fields) {
    && d.security == (match P.SecurityLayer(l) case "tls" => TlsKind case "reality" => RealityKind case _ => NoSecurity)
    && d.sni == Or(l, Sni, "") && d.fingerprint == Or(l, Fp, "chrome") && d.alpn == Or(l, Alpn, "")
    && d.publicKey == Or(l, Pbk, "") && d.shortId == Or(l, Sid, "") && d.spiderX == Or(l, Spx, "")
    && d.pinnedCert == Or(l, Pcs, "") && d.verifyName == Or(l, Vcn, "")
  }

  lemma ServerOpened(l: Link)
    requires Read(l).Some?
    ensures OpenedServer(l, Read(l).value)
  {
    hide Decode, Lower, DecimalOf, UriHost, Left, DraftNetwork, DraftSecurity;
  }

  lemma TransportOpened(l: Link)
    requires Read(l).Some?
    ensures OpenedTransport(l, Read(l).value)
  {
    hide Decode, Lower, DecimalOf, UriHost, Left, DraftSecurity;
  }

  lemma SecurityOpened(l: Link)
    requires Read(l).Some?
    ensures OpenedSecurity(l, Read(l).value)
  {
    hide Decode, Lower, DecimalOf, UriHost, Left, DraftNetwork;
  }

  /** A link opens exactly when its user information can be decoded; every field is then its own parameter, or the
      default of the form, and a transport or security layer that the form does not know is shown as none. */
  lemma OpenedForm(l: Link)
    ensures Read(l).Some? <==> Decode(l.userInfo, false).Some?
    ensures Read(l).Some? ==> OpenedServer(l, Read(l).value) && OpenedTransport(l, Read(l).value) && OpenedSecurity(l, Read(l).value)
  {
    hide OpenedServer, OpenedTransport, OpenedSecurity, WithSecurity, WithTransport, WithAccount, Decode, DecimalOf, Left;
    if Read(l).Some? {
      ServerOpened(l);
      TransportOpened(l);
      SecurityOpened(l);
    }
  }

  lemma NamesLower(net: Network, kind: SecurityKind)
    ensures Lower(NetworkName(net)) == NetworkName(net) && Lower(SecurityName(kind)) == SecurityName(kind)
  {
  }

  /** The written link names the transport and the security layer of the form. */
  lemma WrittenKinds(d: Fields)
    requires IsBytes(Trim(d.secret)) && Apart(d)
    ensures P.TypeName(Write(d)) == NetworkName(d.network) && P.SecurityLayer(Write(d)) == SecurityName(d.security)
  {
    NamesLower(d.network, d.security);
    hide Lower, Trim, Encode, NetworkName, SecurityName, HostForUri, ParsePort;
  }

  function TextOf(v: Option<string>): string {
    if v == None then "" else v.value
  }

  lemma OwnParameter(d: Fields, k: Key)
    requires IsBytes(Trim(d.secret)) && Apart(d) && Rank(d.scheme, k) < OTHERS
    ensures P.Param(Write(d), k) == TextOf(Shown(d, k))
  {
    M.WrittenAt(d, k);
    hide Shown, Rank, WrittenQuery, Trim, Encode, HostForUri, ParsePort;
  }

  // ---- one field changed ----

  lemma BlankTransport(net: Network, q: Query, k: Key)
    requires k != Type
    ensures TransportOf(net, q - {k}) == TransportOf(net, q[k := ""])
  {
    hide Split;
  }

  lemma BlankSecurity(kind: SecurityKind, q: Query, k: Key)
    requires k != Security
    ensures SecurityOf(kind, q - {k}) == SecurityOf(kind, q[k := ""])
  {
    hide Split;
  }

  lemma BlankRest(scheme: Scheme, secret: string, q: Query, k: Key)
    requires k !in {Type, Security, Encryption}
    ensures AccountOf(scheme, secret, q - {k}) == AccountOf(scheme, secret, q[k := ""])
    ensures NetworkOf(q - {k}) == NetworkOf(q[k := ""]) && SecurityKindOf(scheme, q - {k}) == SecurityKindOf(scheme, q[k := ""])
  {
    hide Lower, NetworkNamed, SecurityNamed;
  }

  /** A parameter that is blank builds what one that is absent does. */
  lemma BlankIsAbsent(l: Link, k: Key)
    requires k !in {Type, Security, Encryption}
    ensures Build(l.(query := l.query - {k})) == Build(P.With(l, k, ""))
  {
    hide Decode, NetworkOf, SecurityKindOf, TransportOf, SecurityOf, AccountOf, UriHost;
    var q, q' := l.query - {k}, l.query[k := ""];
    var secret, net, kind := Decode(l.userInfo, false), NetworkOf(q), SecurityKindOf(l.scheme, q);
    BlankRest(l.scheme, if secret == None then "" else secret.value, l.query, k);
    if net.Some? && kind.Some? {
      BlankTransport(net.value, l.query, k);
      BlankSecurity(kind.value, l.query, k);
    }
  }

  /** The two forms show the same, but for one parameter. */
  ghost predicate OnlyDiffer(d: Fields, d': Fields, k: Key) {
    && d'.scheme == d.scheme && d'.extra == d.extra && Rank(d.scheme, k) < OTHERS
    && d'.address == d.address && d'.port == d.port && d'.secret == d.secret
    && forall x: Key | x != k :: Shown(d', x) == Shown(d, x)
  }

  lemma WrittenMember(d: Fields, x: Key)
    ensures x in WrittenQuery(d) <==> Shown(d, x).Some? || x in d.extra
    ensures x in WrittenQuery(d) ==> WrittenQuery(d)[x] == if Shown(d, x).Some? then Shown(d, x).value else d.extra[x]
  {
    ShownKeys(d, x);
    hide Shown, Rank;
  }

  lemma EditedQuery(d: Fields, d': Fields, k: Key)
    requires Apart(d) && OnlyDiffer(d, d', k)
    ensures WrittenQuery(d') == if Shown(d', k).Some? then WrittenQuery(d)[k := Shown(d', k).value] else WrittenQuery(d) - {k}
  {
    hide Shown, Rank, WrittenQuery;
    var q, q' := WrittenQuery(d), if Shown(d', k).Some? then WrittenQuery(d)[k := Shown(d', k).value] else WrittenQuery(d) - {k};
    assert k !in d.extra;
    forall x: Key ensures x in WrittenQuery(d') <==> x in q' {
      WrittenMember(d, x);
      WrittenMember(d', x);
    }
    forall x <- q' ensures WrittenQuery(d')[x] == q'[x] {
      WrittenMember(d, x);
      WrittenMember(d', x);
    }
  }

  /** The link of the changed form builds what setting that one parameter in the old link does. */
  lemma Edited(d: Fields, d': Fields, k: Key)
    requires Saved(d).Some? && Apart(d) && OnlyDiffer(d, d', k) && k !in {Type, Security}
    requires k == Encryption ==> Shown(d', k).Some?
    ensures Saved(d') == Build(P.With(Write(d), k, TextOf(Shown(d', k))))
  {
    hide Build, Shown, IsBytes, Trim, Rank, WrittenQuery, Encode, HostForUri, ParsePort;
    EditedQuery(d, d', k);
    if Shown(d', k) == None { BlankIsAbsent(Write(d), k); }
  }

  /** A field that is not shown changes nothing. */
  lemma Idle(d: Fields, d': Fields, k: Key)
    requires Apart(d) && OnlyDiffer(d, d', k) && Shown(d, k) == Shown(d', k) == None
    ensures Saved(d') == Saved(d)
  {
    hide Build, Shown, IsBytes, Trim, Rank, WrittenQuery, Encode, HostForUri, ParsePort;
    EditedQuery(d, d', k);
    WrittenMember(d, k);
    assert WrittenQuery(d) - {k} == WrittenQuery(d);
  }

  // ---- transport and security layer ----

  lemma KindNames(net: Network, kind: SecurityKind)
    ensures NetworkName(net) in {"ws", "httpupgrade", "xhttp", "splithttp"} <==> net in {Ws, HttpUpgrade, Xhttp}
    ensures NetworkName(net) in {"xhttp", "splithttp"} <==> net == Xhttp
    ensures (NetworkName(net) == "tcp" <==> net == Tcp) && (NetworkName(net) == "grpc" <==> net == Grpc)
    ensures (SecurityName(kind) == "tls" <==> kind == TlsKind) && (SecurityName(kind) == "reality" <==> kind == RealityKind)
  {
  }

  /** The transport has the kind that the form names; only plain TCP can be disguised as HTTP. */
  predicate TransportKind(t: Transport, d: Fields) {
    match d.network
    case Tcp => if d.headerType == "http" then t.TcpHttp? else t.TcpPlain?
    case Ws => t.WsSettings?
    case HttpUpgrade => t.HttpUpgradeSettings?
    case Grpc => t.GrpcSettings?
    case Xhttp => t.XhttpSettings?
  }

  predicate SecurityIsKind(s: SecuritySettings, d: Fields) {
    match d.security
    case NoSecurity => s.Plain?
    case TlsKind => s.Tls?
    case RealityKind => s.Reality?
  }

  lemma MatchesTransport(t: Transport, l: Link, d: Fields)
    requires P.TransportMatches(t, l) && P.TypeName(l) == NetworkName(d.network)
    requires d.network == Tcp ==> (P.Param(l, HeaderType) == "http" <==> d.headerType == "http")
    ensures TransportKind(t, d)
  {
    hide P.TypeName, P.Param, P.Given, P.GivenList;
  }

  lemma MatchesSecurity(s: SecuritySettings, l: Link, d: Fields)
    requires P.SecurityMatches(s, l) && P.SecurityLayer(l) == SecurityName(d.security)
    ensures SecurityIsKind(s, d)
  {
    hide P.SecurityLayer, P.Param, P.Given, P.GivenList, P.FirstOf;
  }

  lemma HeaderShown(d: Fields)
    requires d.network == Tcp
    ensures TextOf(Shown(d, HeaderType)) == if d.headerType == "http" then "http" else ""
  {
  }

  /** Transport and security of the outbound are of the kinds chosen in the form. */
  lemma ChosenKinds(d: Fields)
    requires Saved(d).Some? && Apart(d)
    ensures TransportKind(Saved(d).value.transport, d) && SecurityIsKind(Saved(d).value.security, d)
  {
    hide Build, Write, P.TypeName, P.SecurityLayer, P.Param, Trim, P.TransportMatches, P.SecurityMatches, Shown, Rank, Apart,
      NetworkName, SecurityName, TransportKind, SecurityIsKind, IsBytes;
    var l, o := Write(d), Saved(d).value;
    WrittenKinds(d);
    assert d.network == Tcp ==> (P.Param(l, HeaderType) == "http" <==> d.headerType == "http") by {
      HeaderRank(d);
      OwnParameter(d, HeaderType);
      if d.network == Tcp { HeaderShown(d); }
    }
    P.TransportIs(l);
    P.SecurityIs(l);
    MatchesTransport(o.transport, l, d);
    MatchesSecurity(o.security, l, d);
  }

  lemma HeaderRank(d: Fields)
    ensures Rank(d.scheme, HeaderType) < OTHERS
  {
  }

  // ---- the fields of the transport ----

  function WithPath(t: Transport, v: string): Transport {
    match t
    case TcpHttp(_, hosts) => TcpHttp(if v == "" then "/" else v, hosts)
    case WsSettings(_, host) => WsSettings(P.Opt(v), host)
    case HttpUpgradeSettings(_, host) => HttpUpgradeSettings(P.Opt(v), host)
    case XhttpSettings(_, host, mode) => XhttpSettings(P.Opt(v), host, mode)
    case _ => t
  }

  lemma PathSet(l: Link, v: string)
    requires Build(l).Some?
    ensures Build(P.With(l, Path, v)) == Some(Build(l).value.(transport := WithPath(Build(l).value.transport, v)))
  {
    P.SetPath(l, v);
    P.TransportIs(l);
    hide Build, P.With, P.TypeName, P.Param, P.Given, P.GivenList;
  }

  lemma PathShown(d: Fields, v: string)
    ensures OnlyDiffer(d, d.(path := v), Path)
    ensures Shown(d.(path := v), Path) == if CarriesHost(d.network, d.headerType) then Put(v) else None
    ensures !CarriesHost(d.network, d.headerType) ==> Shown(d, Path) == None
  {
    hide Trim;
  }

  /** The path of the form is the path of the transport, where the transport has one. */
  lemma EditPath(d: Fields, v: string)
    requires Saved(d).Some? && Apart(d)
    ensures var o := Saved(d).value; Saved(d.(path := v)) == Some(o.(transport := WithPath(o.transport, Trim(v))))
  {
    hide Trim, Build, Write, P.With, OnlyDiffer, IsBytes, Shown, Rank, Apart, WrittenQuery, Split, Put;
    PathShown(d, v);
    ChosenKinds(d);
    if CarriesHost(d.network, d.headerType) {
      WrittenKinds(d);
      Edited(d, d.(path := v), Path);
      M.TrimKeeps(v);
      PathSet(Write(d), Trim(v));
    } else {
      Idle(d, d.(path := v), Path);
    }
  }

  function WithService(t: Transport, v: string): Transport {
    match t
    case GrpcSettings(_, multi, authority) => GrpcSettings(v, multi, authority)
    case _ => t
  }

  lemma ServiceSet(l: Link, v: string)
    requires Build(l).Some? && P.TypeName(l) == "grpc"
    ensures Build(P.With(l, ServiceName, v)) == Some(Build(l).value.(transport := WithService(Build(l).value.transport, v)))
  {
    P.SetGrpc(l, v);
    P.TransportIs(l);
    hide Build, P.With, P.TypeName, P.Param, P.Given, P.GivenList;
  }

  lemma ServiceShown(d: Fields, v: string)
    ensures OnlyDiffer(d, d.(serviceName := v), ServiceName)
    ensures Shown(d.(serviceName := v), ServiceName) == if d.network == Grpc then Put(v) else None
    ensures d.network != Grpc ==> Shown(d, ServiceName) == None
  {
    hide Trim;
  }

  /** The service name is that of grpc. */
  lemma EditService(d: Fields, v: string)
    requires Saved(d).Some? && Apart(d)
    ensures var o := Saved(d).value; Saved(d.(serviceName := v)) == Some(o.(transport := WithService(o.transport, Trim(v))))
  {
    hide Trim, Build, Write, P.With, OnlyDiffer, IsBytes, Shown, Rank, Apart, WrittenQuery, Split, Put;
    ServiceShown(d, v);
    ChosenKinds(d);
    if d.network == Grpc {
      WrittenKinds(d);
      Edited(d, d.(serviceName := v), ServiceName);
      M.TrimKeeps(v);
      ServiceSet(Write(d), Trim(v));
    } else {
      Idle(d, d.(serviceName := v), ServiceName);
    }
  }

  function WithMode(t: Transport, v: string): Transport {
    match t
    case GrpcSettings(name, _, authority) => GrpcSettings(name, v == "multi", authority)
    case XhttpSettings(path, host, _) => XhttpSettings(path, host, P.Opt(v))
    case _ => t
  }

  lemma ModeSet(l: Link, v: string)
    requires Build(l).Some?
    ensures Build(P.With(l, Mode, v)) == Some(Build(l).value.(transport := WithMode(Build(l).value.transport, v)))
  {
    P.SetMode(l, v);
    P.TransportIs(l);
    hide Build, P.With, P.TypeName, P.Param, P.Given, P.GivenList;
  }

  lemma ModeShown(d: Fields, v: string)
    ensures OnlyDiffer(d, d.(mode := v), Mode)
    ensures Shown(d.(mode := v), Mode) == if d.network in {Grpc, Xhttp} then Put(v) else None
    ensures d.network !in {Grpc, Xhttp} ==> Shown(d, Mode) == None
  {
    hide Trim;
  }

  /** The mode is that of xhttp, and the multi mode of grpc. */
  lemma EditMode(d: Fields, v: string)
    requires Saved(d).Some? && Apart(d)
    ensures var o := Saved(d).value; Saved(d.(mode := v)) == Some(o.(transport := WithMode(o.transport, Trim(v))))
  {
    hide Trim, Build, Write, P.With, OnlyDiffer, IsBytes, Shown, Rank, Apart, WrittenQuery, Split, Put;
    ModeShown(d, v);
    ChosenKinds(d);
    if d.network in {Grpc, Xhttp} {
      WrittenKinds(d);
      Edited(d, d.(mode := v), Mode);
      M.TrimKeeps(v);
      ModeSet(Write(d), Trim(v));
    } else {
      Idle(d, d.(mode := v), Mode);
    }
  }

  function WithHost(t: Transport, v: string): Transport {
    match t
    case TcpHttp(path, _) => TcpHttp(path, if v == "" then None else Some(Split(v, ',')))
    case WsSettings(path, _) => WsSettings(path, P.Opt(v))
    case HttpUpgradeSettings(path, _) => HttpUpgradeSettings(path, P.Opt(v))
    case XhttpSettings(path, _, mode) => XhttpSettings(path, P.Opt(v), mode)
    case _ => t
  }

  lemma HostSet(l: Link, v: string)
    requires Build(l).Some?
    ensures var o := Build(l).value;
            Build(P.With(l, Host, v)) == Some(o.(transport := WithHost(o.transport, v), security := P.Named(l, o.security, v)))
  {
    P.SetHost(l, v);
    P.TransportIs(l);
    hide Build, P.With, P.TypeName, P.Param, P.Given, P.GivenList, P.Named, Split;
  }

  lemma HostShown(d: Fields, v: string)
    ensures OnlyDiffer(d, d.(hostHeader := v), Host)
    ensures Shown(d.(hostHeader := v), Host) == if CarriesHost(d.network, d.headerType) then Put(v) else None
    ensures !CarriesHost(d.network, d.headerType) ==> Shown(d, Host) == None
  {
    hide Trim;
  }

  lemma SniShown(d: Fields)
    requires d.security == TlsKind
    ensures TextOf(Shown(d, Sni)) == Trim(d.sni) && Rank(d.scheme, Sni) < OTHERS
  {
    hide Trim;
  }

  /** The first of the hosts names the server of a TLS layer without a name. */
  function NamedBy(s: SecuritySettings, sni: string, host: string): SecuritySettings {
    if s.Tls? && Trim(sni) == "" then s.(serverName := if host == "" then None else Some(Split(host, ',')[0])) else s
  }

  lemma NamedAs(d: Fields, v: string)
    requires Saved(d).Some? && Apart(d)
    ensures P.Named(Write(d), Saved(d).value.security, v) == NamedBy(Saved(d).value.security, d.sni, v)
  {
    hide Build, Write, P.Param, Trim, Shown, Rank, Apart, IsBytes, Split;
    ChosenKinds(d);
    if d.security == TlsKind {
      SniShown(d);
      OwnParameter(d, Sni);
    }
  }

  /** The host is the transport's, and the name of a TLS layer without one; nothing where the transport has no host. */
  lemma EditHost(d: Fields, v: string)
    requires Saved(d).Some? && Apart(d)
    ensures var o, d' := Saved(d).value, d.(hostHeader := v);
            Saved(d') == if CarriesHost(d.network, d.headerType)
                         then Some(o.(transport := WithHost(o.transport, Trim(v)),
                                      security := NamedBy(o.security, d.sni, Trim(v))))
                         else Some(o)
  {
    hide Trim, Build, Write, P.With, OnlyDiffer, IsBytes, Shown, Rank, Apart, WrittenQuery, Split, Put,
      P.Named, NamedBy, CarriesHost;
    HostShown(d, v);
    if CarriesHost(d.network, d.headerType) {
      Edited(d, d.(hostHeader := v), Host);
      M.TrimKeeps(v);
      HostSet(Write(d), Trim(v));
      NamedAs(d, Trim(v));
    } else {
      Idle(d, d.(hostHeader := v), Host);
    }
  }

  // ---- the fields of the security layer ----

  function WithName(s: SecuritySettings, v: string): SecuritySettings {
    match s
    case Plain => s
    case Tls(_, fp, alpn, ech, pinned, verify) => Tls(Some(v), fp, alpn, ech, pinned, verify)
    case Reality(_, fp, key, id, spider) => Reality(v, fp, key, id, spider)
  }

  lemma NameSet(l: Link, v: string)
    requires Build(l).Some? && (P.SecurityLayer(l) == "tls" || P.SecurityLayer(l) == "reality")
    requires P.SecurityLayer(l) == "tls" ==> v != ""
    ensures Build(P.With(l, Sni, v)) == Some(Build(l).value.(security := WithName(Build(l).value.security, v)))
  {
    hide Build, P.With, P.SecurityLayer, P.Param, P.Given, P.GivenList, P.FirstOf, P.Fingerprinted, Split;
    P.SecurityIs(l);
    if P.SecurityLayer(l) == "tls" { P.SetTls(l, v); }
    if P.SecurityLayer(l) == "reality" { P.SetReality(l, v); }
  }

  lemma NameShown(d: Fields, v: string)
    ensures OnlyDiffer(d, d.(sni := v), Sni)
    ensures Shown(d.(sni := v), Sni) == if d.security != NoSecurity then Put(v) else None
    ensures d.security == NoSecurity ==> Shown(d, Sni) == None
  {
    hide Trim;
  }

  /** The server name of the form is that of TLS or of Reality. (TLS without one is named by the host.) */
  lemma EditName(d: Fields, v: string)
    requires Saved(d).Some? && Apart(d)
    requires d.security == TlsKind ==> Trim(v) != ""
    ensures var o := Saved(d).value; Saved(d.(sni := v)) == Some(o.(security := WithName(o.security, Trim(v))))
  {
    hide Trim, Build, Write, P.With, OnlyDiffer, IsBytes, Shown, Rank, Apart, WrittenQuery, Split, Put;
    NameShown(d, v);
    ChosenKinds(d);
    if d.security != NoSecurity {
      WrittenKinds(d);
      Edited(d, d.(sni := v), Sni);
      M.TrimKeeps(v);
      NameSet(Write(d), Trim(v));
    } else {
      Idle(d, d.(sni := v), Sni);
    }
  }

  lemma FingerprintSet(l: Link, v: string)
    requires Build(l).Some? && (P.SecurityLayer(l) == "tls" || P.SecurityLayer(l) == "reality")
    ensures Build(P.With(l, Fp, v)) == Some(Build(l).value.(security := P.Fingerprinted(Build(l).value.security, v)))
  {
    hide Build, P.With, P.SecurityLayer, P.Fingerprinted, Split;
    if P.SecurityLayer(l) == "tls" { P.SetTls(l, v); } else { P.SetReality(l, v); }
  }

  lemma FingerprintShown(d: Fields, v: string)
    ensures OnlyDiffer(d, d.(fingerprint := v), Fp)
    ensures Shown(d.(fingerprint := v), Fp) == if d.security != NoSecurity then Put(v) else None
    ensures d.security == NoSecurity ==> Shown(d, Fp) == None
  {
    hide Trim;
  }

  /** The fingerprint of TLS or of Reality, `chrome` when it is left blank. */
  lemma EditFingerprint(d: Fields, v: string)
    requires Saved(d).Some? && Apart(d)
    ensures var o := Saved(d).value; Saved(d.(fingerprint := v)) == Some(o.(security := P.Fingerprinted(o.security, Trim(v))))
  {
    hide Trim, Build, Write, P.With, OnlyDiffer, IsBytes, Shown, Rank, Apart, WrittenQuery, Split, Put;
    FingerprintShown(d, v);
    ChosenKinds(d);
    if d.security != NoSecurity {
      WrittenKinds(d);
      Edited(d, d.(fingerprint := v), Fp);
      M.TrimKeeps(v);
      FingerprintSet(Write(d), Trim(v));
    } else {
      Idle(d, d.(fingerprint := v), Fp);
    }
  }

  function WithAlpn(s: SecuritySettings, v: string): SecuritySettings {
    match s
    case Tls(name, fp, alpn, ech, pinned, verify) =>
      Tls(name, fp, if v == "" then None else Some(Split(v, ',')), ech, pinned, verify)
    case _ => s
  }

  lemma AlpnSet(l: Link, v: string)
    requires Build(l).Some? && P.SecurityLayer(l) == "tls"
    ensures Build(P.With(l, Alpn, v)) == Some(Build(l).value.(security := WithAlpn(Build(l).value.security, v)))
  {
    hide Build, P.With, P.SecurityLayer, P.Param, P.Given, P.GivenList, P.FirstOf, P.Fingerprinted, Split;
    P.SecurityIs(l);
    P.SetTls(l, v);
  }

  lemma AlpnShown(d: Fields, v: string)
    ensures OnlyDiffer(d, d.(alpn := v), Alpn)
    ensures Shown(d.(alpn := v), Alpn) == if d.security == TlsKind then Put(v) else None
    ensures d.security != TlsKind ==> Shown(d, Alpn) == None
  {
    hide Trim;
  }

  /** The protocols of TLS. */
  lemma EditAlpn(d: Fields, v: string)
    requires Saved(d).Some? && Apart(d)
    ensures var o := Saved(d).value; Saved(d.(alpn := v)) == Some(o.(security := WithAlpn(o.security, Trim(v))))
  {
    hide Trim, Build, Write, P.With, OnlyDiffer, IsBytes, Shown, Rank, Apart, WrittenQuery, Split, Put;
    AlpnShown(d, v);
    ChosenKinds(d);
    if d.security == TlsKind {
      WrittenKinds(d);
      Edited(d, d.(alpn := v), Alpn);
      M.TrimKeeps(v);
      AlpnSet(Write(d), Trim(v));
    } else {
      Idle(d, d.(alpn := v), Alpn);
    }
  }

  function WithPinnedCert(s: SecuritySettings, v: string): SecuritySettings {
    match s
    case Tls(name, fp, alpn, ech, pinned, verify) => Tls(name, fp, alpn, ech, P.Opt(v), verify)
    case _ => s
  }

  lemma PinnedCertSet(l: Link, v: string)
    requires Build(l).Some? && P.SecurityLayer(l) == "tls"
    ensures Build(P.With(l, Pcs, v)) == Some(Build(l).value.(security := WithPinnedCert(Build(l).value.security, v)))
  {
    hide Build, P.With, P.SecurityLayer, P.Param, P.Given, P.GivenList, P.FirstOf, P.Fingerprinted, Split;
    P.SecurityIs(l);
    P.SetTls(l, v);
  }

  lemma PinnedCertShown(d: Fields, v: string)
    ensures OnlyDiffer(d, d.(pinnedCert := v), Pcs)
    ensures Shown(d.(pinnedCert := v), Pcs) == if d.security == TlsKind then Put(v) else None
    ensures d.security != TlsKind ==> Shown(d, Pcs) == None
  {
    hide Trim;
  }

  /** The certificate that TLS is pinned to. */
  lemma EditPinnedCert(d: Fields, v: string)
    requires Saved(d).Some? && Apart(d)
    ensures var o := Saved(d).value; Saved(d.(pinnedCert := v)) == Some(o.(security := WithPinnedCert(o.security, Trim(v))))
  {
    hide Trim, Build, Write, P.With, OnlyDiffer, IsBytes, Shown, Rank, Apart, WrittenQuery, Split, Put;
    PinnedCertShown(d, v);
    ChosenKinds(d);
    if d.security == TlsKind {
      WrittenKinds(d);
      Edited(d, d.(pinnedCert := v), Pcs);
      M.TrimKeeps(v);
      PinnedCertSet(Write(d), Trim(v));
    } else {
      Idle(d, d.(pinnedCert := v), Pcs);
    }
  }

  function WithVerifyName(s: SecuritySettings, v: string): SecuritySettings {
    match s
    case Tls(name, fp, alpn, ech, pinned, verify) => Tls(name, fp, alpn, ech, pinned, P.Opt(v))
    case _ => s
  }

  lemma VerifyNameSet(l: Link, v: string)
    requires Build(l).Some? && P.SecurityLayer(l) == "tls"
    ensures Build(P.With(l, Vcn, v)) == Some(Build(l).value.(security := WithVerifyName(Build(l).value.security, v)))
  {
    hide Build, P.With, P.SecurityLayer, P.Param, P.Given, P.GivenList, P.FirstOf, P.Fingerprinted, Split;
    P.SecurityIs(l);
    P.SetTls(l, v);
  }

  lemma VerifyNameShown(d: Fields, v: string)
    ensures OnlyDiffer(d, d.(verifyName := v), Vcn)
    ensures Shown(d.(verifyName := v), Vcn) == if d.security == TlsKind then Put(v) else None
    ensures d.security != TlsKind ==> Shown(d, Vcn) == None
  {
    hide Trim;
  }

  /** The name that TLS verifies. */
  lemma EditVerifyName(d: Fields, v: string)
    requires Saved(d).Some? && Apart(d)
    ensures var o := Saved(d).value; Saved(d.(verifyName := v)) == Some(o.(security := WithVerifyName(o.security, Trim(v))))
  {
    hide Trim, Build, Write, P.With, OnlyDiffer, IsBytes, Shown, Rank, Apart, WrittenQuery, Split, Put;
    VerifyNameShown(d, v);
    ChosenKinds(d);
    if d.security == TlsKind {
      WrittenKinds(d);
      Edited(d, d.(verifyName := v), Vcn);
      M.TrimKeeps(v);
      VerifyNameSet(Write(d), Trim(v));
    } else {
      Idle(d, d.(verifyName := v), Vcn);
    }
  }

  function WithPublicKey(s: SecuritySettings, v: string): SecuritySettings {
    match s
    case Reality(target, fp, key, id, spider) => Reality(target, fp, v, id, spider)
    case _ => s
  }

  lemma PublicKeySet(l: Link, v: string)
    requires Build(l).Some? && P.SecurityLayer(l) == "reality"
    requires v != ""
    ensures Build(P.With(l, Pbk, v)) == Some(Build(l).value.(security := WithPublicKey(Build(l).value.security, v)))
  {
    hide Build, P.With, P.SecurityLayer, P.Param, P.Given, P.GivenList, P.FirstOf, P.Fingerprinted, Split;
    P.SecurityIs(l);
    P.SetReality(l, v);
  }

  lemma PublicKeyShown(d: Fields, v: string)
    ensures OnlyDiffer(d, d.(publicKey := v), Pbk)
    ensures Shown(d.(publicKey := v), Pbk) == if d.security == RealityKind then Put(v) else None
    ensures d.security != RealityKind ==> Shown(d, Pbk) == None
  {
    hide Trim;
  }

  /** The public key of Reality, without which the link does not build. */
  lemma EditPublicKey(d: Fields, v: string)
    requires Saved(d).Some? && Apart(d)
    requires d.security == RealityKind ==> Trim(v) != ""
    ensures var o := Saved(d).value; Saved(d.(publicKey := v)) == Some(o.(security := WithPublicKey(o.security, Trim(v))))
  {
    hide Trim, Build, Write, P.With, OnlyDiffer, IsBytes, Shown, Rank, Apart, WrittenQuery, Split, Put;
    PublicKeyShown(d, v);
    ChosenKinds(d);
    if d.security == RealityKind {
      WrittenKinds(d);
      Edited(d, d.(publicKey := v), Pbk);
      M.TrimKeeps(v);
      PublicKeySet(Write(d), Trim(v));
    } else {
      Idle(d, d.(publicKey := v), Pbk);
    }
  }

  function WithShortId(s: SecuritySettings, v: string): SecuritySettings {
    match s
    case Reality(target, fp, key, id, spider) => Reality(target, fp, key, v, spider)
    case _ => s
  }

  lemma ShortIdSet(l: Link, v: string)
    requires Build(l).Some? && P.SecurityLayer(l) == "reality"
    ensures Build(P.With(l, Sid, v)) == Some(Build(l).value.(security := WithShortId(Build(l).value.security, v)))
  {
    hide Build, P.With, P.SecurityLayer, P.Param, P.Given, P.GivenList, P.FirstOf, P.Fingerprinted, Split;
    P.SecurityIs(l);
    P.SetReality(l, v);
  }

  lemma ShortIdShown(d: Fields, v: string)
    ensures OnlyDiffer(d, d.(shortId := v), Sid)
    ensures Shown(d.(shortId := v), Sid) == if d.security == RealityKind then Put(v) else None
    ensures d.security != RealityKind ==> Shown(d, Sid) == None
  {
    hide Trim;
  }

  /** The short id of Reality. */
  lemma EditShortId(d: Fields, v: string)
    requires Saved(d).Some? && Apart(d)
    ensures var o := Saved(d).value; Saved(d.(shortId := v)) == Some(o.(security := WithShortId(o.security, Trim(v))))
  {
    hide Trim, Build, Write, P.With, OnlyDiffer, IsBytes, Shown, Rank, Apart, WrittenQuery, Split, Put;
    ShortIdShown(d, v);
    ChosenKinds(d);
    if d.security == RealityKind {
      WrittenKinds(d);
      Edited(d, d.(shortId := v), Sid);
      M.TrimKeeps(v);
      ShortIdSet(Write(d), Trim(v));
    } else {
      Idle(d, d.(shortId := v), Sid);
    }
  }

  function WithSpiderX(s: SecuritySettings, v: string): SecuritySettings {
    match s
    case Reality(target, fp, key, id, spider) => Reality(target, fp, key, id, v)
    case _ => s
  }

  lemma SpiderXSet(l: Link, v: string)
    requires Build(l).Some? && P.SecurityLayer(l) == "reality"
    ensures Build(P.With(l, Spx, v)) == Some(Build(l).value.(security := WithSpiderX(Build(l).value.security, v)))
  {
    hide Build, P.With, P.SecurityLayer, P.Param, P.Given, P.GivenList, P.FirstOf, P.Fingerprinted, Split;
    P.SecurityIs(l);
    P.SetReality(l, v);
  }

  lemma SpiderXShown(d: Fields, v: string)
    ensures OnlyDiffer(d, d.(spiderX := v), Spx)
    ensures Shown(d.(spiderX := v), Spx) == if d.security == RealityKind then Put(v) else None
    ensures d.security != RealityKind ==> Shown(d, Spx) == None
  {
    hide Trim;
  }

  /** The spider path of Reality. */
  lemma EditSpiderX(d: Fields, v: string)
    requires Saved(d).Some? && Apart(d)
    ensures var o := Saved(d).value; Saved(d.(spiderX := v)) == Some(o.(security := WithSpiderX(o.security, Trim(v))))
  {
    hide Trim, Build, Write, P.With, OnlyDiffer, IsBytes, Shown, Rank, Apart, WrittenQuery, Split, Put;
    SpiderXShown(d, v);
    ChosenKinds(d);
    if d.security == RealityKind {
      WrittenKinds(d);
      Edited(d, d.(spiderX := v), Spx);
      M.TrimKeeps(v);
      SpiderXSet(Write(d), Trim(v));
    } else {
      Idle(d, d.(spiderX := v), Spx);
    }
  }

  // ---- account and server ----

  lemma FlowShown(d: Fields, v: string)
    requires d.scheme == Vless
    ensures OnlyDiffer(d, d.(flow := v), Flow) && Shown(d.(flow := v), Flow) == Put(v)
  {
    hide Trim;
  }

  lemma EncryptionShown(d: Fields, v: string)
    requires d.scheme == Vless
    ensures OnlyDiffer(d, d.(encryption := v), Encryption)
    ensures Shown(d.(encryption := v), Encryption) == Some(if Trim(v) == "" then "none" else Trim(v))
  {
    hide Trim;
  }

  /** Flow and encryption of a vless link; no encryption is `none`. */
  lemma EditAccount(d: Fields, v: string)
    requires Saved(d).Some? && Apart(d) && d.scheme == Vless
    ensures Saved(d).value.account.VlessUser?
    ensures var o := Saved(d).value;
            && Saved(d.(flow := v)) == Some(o.(account := o.account.(flow := P.Opt(Trim(v)))))
            && Saved(d.(encryption := v))
               == Some(o.(account := o.account.(encryption := if Trim(v) == "" then "none" else Trim(v))))
  {
    hide Trim, Build, AccountOf, Write, P.With, OnlyDiffer, IsBytes, Shown, Rank, Apart, WrittenQuery, Split, Put;
    var x := if Trim(v) == "" then "none" else Trim(v);
    AccountKind(d);
    FlowShown(d, v);
    EncryptionShown(d, v);
    Edited(d, d.(flow := v), Flow);
    Edited(d, d.(encryption := v), Encryption);
    M.TrimKeeps(v);
    P.SetAccount(Write(d), Trim(v));
    P.SetAccount(Write(d), x);
  }

  lemma AccountKind(d: Fields)
    requires Saved(d).Some?
    ensures d.scheme == Vless <==> Saved(d).value.account.VlessUser?
    ensures d.scheme == Write(d).scheme
  {
    hide Trim, Encode, WrittenQuery, HostForUri, ParsePort, NetworkOf, SecurityKindOf, TransportOf, SecurityOf, Decode, UriHost;
  }

  function WithSecret(a: Account, v: string): Account {
    match a case VlessUser(_, encryption, flow) => VlessUser(v, encryption, flow) case TrojanPassword(_) => TrojanPassword(v)
  }

  lemma ServerSet(l: Link, host: string, port: nat, user: string)
    requires Build(l).Some?
    ensures var o := Build(l).value;
            && (UriHost(host) != "" ==> Build(l.(hostText := host)) == Some(o.(address := UriHost(host))))
            && Build(l.(port := Some(port))) == Some(o.(port := port))
            && (user != "" && Decode(user, false).Some? ==>
                  Build(l.(userInfo := user)) == Some(o.(account := WithSecret(o.account, Decode(user, false).value))))
  {
    hide Decode, UriHost, NetworkOf, SecurityKindOf, TransportOf, SecurityOf;
  }

  lemma SameQuery(d: Fields, d': Fields)
    requires d' == d.(address := d'.address, port := d'.port, secret := d'.secret)
    ensures WrittenQuery(d') == WrittenQuery(d)
  {
    forall k: Key ensures Shown(d', k) == Shown(d, k) { SameShown(d, d', k); }
    hide Shown;
  }

  lemma SameShown(d: Fields, d': Fields, k: Key)
    requires d' == d.(address := d'.address, port := d'.port, secret := d'.secret)
    ensures Shown(d', k) == Shown(d, k)
  {
    hide Trim;
  }

  /** Address, port and secret are the server's. */
  lemma EditAddress(d: Fields, v: string)
    requires Saved(d).Some? && '[' !in v && ']' !in v && Trim(v) != ""
    ensures Saved(d.(address := v)) == Some(Saved(d).value.(address := Trim(v)))
  {
    hide Trim, Encode, WrittenQuery, HostForUri, ParsePort, UriHost, IsBytes, Build;
    BareHost(v);
    SameQuery(d, d.(address := v));
    ServerSet(Write(d), HostForUri(Trim(v)), 0, "");
  }

  lemma BareHost(v: string)
    requires '[' !in v && ']' !in v
    ensures UriHost(HostForUri(Trim(v))) == Trim(v)
  {
    TrimChars(v, '[');
    TrimChars(v, ']');
    var t := Trim(v);
    if t != "" { assert t[0] in t && t[|t| - 1] in t; }
    var bracketed := "[" + t + "]";
    assert bracketed[1..|bracketed| - 1] == t;
  }

  lemma EditPort(d: Fields, port: nat)
    requires Saved(d).Some?
    ensures Saved(d.(port := DecimalOf(port))) == Some(Saved(d).value.(port := port))
  {
    hide Trim, Encode, WrittenQuery, HostForUri, ParsePort, UriHost, IsBytes, Build, DecimalOf;
    M.PortKept(port);
    SameQuery(d, d.(port := DecimalOf(port)));
    ServerSet(Write(d), "", port, "");
  }

  lemma EditSecret(d: Fields, v: string)
    requires Saved(d).Some? && IsUtf8(v) && Trim(v) != ""
    ensures Saved(d.(secret := v)) == Some(Saved(d).value.(account := WithSecret(Saved(d).value.account, Trim(v))))
  {
    TrimUtf8(v);
    EncodedIsGiven(Trim(v));
    RoundTrip(Trim(v), false);
    hide Trim, Encode, WrittenQuery, HostForUri, ParsePort, UriHost, Build, Decode, WithSecret;
    SameQuery(d, d.(secret := v));
    ServerSet(Write(d), "", 0, Encode(Trim(v), false));
  }

  lemma EncodedIsGiven(v: string)
    requires IsBytes(v) && v != ""
    ensures Encode(v, false) != ""
  {
  }

  // ---- nothing else is written ----

  /** Whatever the form itself writes, the builder reads for this transport and security layer. */
  lemma NothingIdle(d: Fields, k: Key)
    requires IsBytes(Trim(d.secret)) && Apart(d) && k in WrittenQuery(d) && k !in d.extra
    ensures k in P.ReadsOf(Write(d))
  {
    hide Trim, IsBytes, Encode, HostForUri, ParsePort, WrittenQuery, P.TypeName, P.SecurityLayer, Apart, Rank;
    WrittenMember(d, k);
    WrittenKinds(d);
    KindNames(d.network, d.security);
    if k == HeaderType || k in {Path, Host} {
      HeaderRank(d);
      OwnParameter(d, HeaderType);
    }
  }
}
