/** What a vless or trojan share link means: the Xray outbound of xray_config_builder.dart. */
module Xray {
  import opened Text
  import opened Percent

  /** Query parameter names: those the builder reads, and every other one. */
  datatype Key =
    | Encryption | Flow | Security | Type | Path | Host | ServiceName | Mode | HeaderType
    | Sni | Fp | Alpn | Pcs | Vcn | Pbk | Sid | Spx | Ech | Authority | Other(name: string)

  type Query = map<Key, string>

  datatype Scheme = Vless | Trojan

  /** A link as Uri.parse takes it apart; `userInfo` is still percent-encoded, `query` is decoded. */
  datatype Link = Link(scheme: Scheme, userInfo: string, hostText: string, port: Option<nat>, query: Query)

  function Val(q: Query, k: Key, default: string): string {
    if k in q then q[k] else default
  }

  // ---- hosts ----

  /** Uri.host drops the brackets of an IPv6 literal. */
  function UriHost(text: string): string {
    if |text| >= 2 && text[0] == '[' && text[|text| - 1] == ']' then text[1..|text| - 1] else text
  }

  /** The host part of a parsed URI: an IPv6 literal in brackets, or a name without colon or bracket. */
  predicate HostShape(text: string) {
    var h := UriHost(text);
    '[' !in h && ']' !in h && (h != text <==> ':' in h)
  }

  // ---- the outbound ----

  datatype Network = Tcp | Ws | HttpUpgrade | Grpc | Xhttp
  datatype SecurityKind = NoSecurity | TlsKind | RealityKind

  datatype Transport =
    | TcpPlain
    | TcpHttp(requestPath: string, hosts: Option<seq<string>>)
    | WsSettings(path: Option<string>, host: Option<string>)
    | HttpUpgradeSettings(path: Option<string>, host: Option<string>)
    | GrpcSettings(serviceName: string, multiMode: bool, authority: Option<string>)
    | XhttpSettings(path: Option<string>, host: Option<string>, mode: Option<string>)

  datatype SecuritySettings =
    | Plain
    | Tls(serverName: Option<string>, fingerprint: string, alpn: Option<seq<string>>, ech: Option<string>,
          pinned: Option<string>, verifyName: Option<string>)
    | Reality(target: string, fingerprint: string, publicKey: string, shortId: string, spiderX: string)

  datatype Account = VlessUser(id: string, encryption: string, flow: Option<string>) | TrojanPassword(password: string)

  datatype Outbound = Outbound(address: string, port: nat, account: Account, transport: Transport, security: SecuritySettings)

  function NonEmpty(v: string): Option<string> {
    if v == "" then None else Some(v)
  }

  function NetworkNamed(s: string): Option<Network> {
    if s == "tcp" then Some(Tcp)
    else if s == "ws" then Some(Ws)
    else if s == "grpc" then Some(Grpc)
    else if s == "httpupgrade" then Some(HttpUpgrade)
    else if s == "xhttp" || s == "splithttp" then Some(Xhttp)
    else None
  }

  function SecurityNamed(s: string): Option<SecurityKind> {
    if s == "none" then Some(NoSecurity)
    else if s == "tls" then Some(TlsKind)
    else if s == "reality" then Some(RealityKind)
    else None
  }

  /** The settings of a transport, read from the query. */
  function TransportOf(net: Network, q: Query): Transport {
    var path, host := Val(q, Path, ""), Val(q, Host, "");
    match net
    case Tcp =>
      if Val(q, HeaderType, "none") == "http"
      then TcpHttp(if path == "" then "/" else path, if host == "" then None else Some(Split(host, ',')))
      else TcpPlain
    case Ws => WsSettings(NonEmpty(path), NonEmpty(host))
    case HttpUpgrade => HttpUpgradeSettings(NonEmpty(path), NonEmpty(host))
    case Grpc => GrpcSettings(Val(q, ServiceName, ""), Val(q, Mode, "") == "multi", NonEmpty(Val(q, Authority, "")))
    case Xhttp => XhttpSettings(NonEmpty(path), NonEmpty(host), NonEmpty(Val(q, Mode, "")))
  }

  function ServerName(q: Query): Option<string> {
    if Val(q, Sni, "") != "" then Some(q[Sni])
    else if Val(q, Host, "") != "" then Some(Split(q[Host], ',')[0])
    else None
  }

  function Fingerprint(q: Query): string {
    if Val(q, Fp, "") != "" then q[Fp] else "chrome"
  }

  /** The settings of a security layer; None is Reality without a public key. */
  function SecurityOf(kind: SecurityKind, q: Query): Option<SecuritySettings> {
    match kind
    case NoSecurity => Some(Plain)
    case TlsKind =>
      var alpn := Val(q, Alpn, "");
      Some(Tls(ServerName(q), Fingerprint(q), if alpn == "" then None else Some(Split(alpn, ',')),
               NonEmpty(Val(q, Ech, "")), NonEmpty(Val(q, Pcs, "")), NonEmpty(Val(q, Vcn, ""))))
    case RealityKind =>
      if Val(q, Pbk, "") == "" then None
      else Some(Reality(Val(q, Sni, ""), Fingerprint(q), q[Pbk], Val(q, Sid, ""), Val(q, Spx, "")))
  }

  function DefaultSecurity(scheme: Scheme): string {
    if scheme == Trojan then "tls" else "none"
  }

  function NetworkOf(q: Query): Option<Network> {
    NetworkNamed(Lower(Val(q, Type, "tcp")))
  }

  function SecurityKindOf(scheme: Scheme, q: Query): Option<SecurityKind> {
    SecurityNamed(Lower(Val(q, Security, DefaultSecurity(scheme))))
  }

  function AccountOf(scheme: Scheme, secret: string, q: Query): Account {
    match scheme
    case Vless => VlessUser(secret, Val(q, Encryption, "none"), NonEmpty(Val(q, Flow, "")))
    case Trojan => TrojanPassword(secret)
  }

  /** _vless and _trojan; None is every way of throwing. */
  function Build(l: Link): Option<Outbound> {
    var secret := Decode(l.userInfo, false);
    var net, kind := NetworkOf(l.query), SecurityKindOf(l.scheme, l.query);
    if l.userInfo == "" || UriHost(l.hostText) == "" || l.port == None || secret == None then None
    else if net == None || kind == None || SecurityOf(kind.value, l.query) == None then None
    else Some(Outbound(UriHost(l.hostText), l.port.value, AccountOf(l.scheme, secret.value, l.query),
                       TransportOf(net.value, l.query), SecurityOf(kind.value, l.query).value))
  }
}
