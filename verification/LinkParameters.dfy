/** What each part of a vless or trojan link does to the outbound it builds. */
module LinkParameters {
  import opened Text
  import opened Percent
  import opened Xray

  // ---- when a link builds ----

  /** The lower-case names of the transport and the security layer; a trojan link is over TLS by default. */
  function TypeName(l: Link): string {
    Lower(if Type in l.query then l.query[Type] else "tcp")
  }

  function SecurityLayer(l: Link): string {
    Lower(if Security in l.query then l.query[Security] else if l.scheme == Trojan then "tls" else "none")
  }

  /** The value of a parameter, blank when it is not given. */
  function Param(l: Link, k: Key): string {
    if k in l.query then l.query[k] else ""
  }

  lemma BuildsIff(l: Link)
    ensures Build(l).Some?
       <==> l.userInfo != "" && Decode(l.userInfo, false).Some? && UriHost(l.hostText) != "" && l.port.Some?
            && TypeName(l) in {"tcp", "ws", "grpc", "httpupgrade", "xhttp", "splithttp"}
            && SecurityLayer(l) in {"none", "tls", "reality"} && (SecurityLayer(l) == "reality" ==> Param(l, Pbk) != "")
  {
    hide Decode, Lower, Split;
  }

  // ---- what an outbound says of a link ----

  /** An option that is given exactly when the text is not blank. */
  predicate Given(o: Option<string>, v: string) {
    o == if v == "" then None else Some(v)
  }

  predicate GivenList(o: Option<seq<string>>, v: string) {
    if v == "" then o == None else o.Some? && Join(o.value, ',') == v && forall part <- o.value :: ',' !in part
  }

  predicate AccountMatches(a: Account, l: Link) {
    match l.scheme
    case Vless =>
      && a.VlessUser? && Decode(l.userInfo, false) == Some(a.id)
      && a.encryption == (if Encryption in l.query then l.query[Encryption] else "none") && Given(a.flow, Param(l, Flow))
    case Trojan => a.TrojanPassword? && Decode(l.userInfo, false) == Some(a.password)
  }

  predicate TransportMatches(t: Transport, l: Link) {
    match TypeName(l)
    case "tcp" =>
      if Param(l, HeaderType) == "http"
      then t.TcpHttp? && t.requestPath == (if Param(l, Path) == "" then "/" else Param(l, Path))
           && GivenList(t.hosts, Param(l, Host))
      else t.TcpPlain?
    case "ws" => t.WsSettings? && Given(t.path, Param(l, Path)) && Given(t.host, Param(l, Host))
    case "httpupgrade" => t.HttpUpgradeSettings? && Given(t.path, Param(l, Path)) && Given(t.host, Param(l, Host))
    case "grpc" =>
      && t.GrpcSettings? && t.serviceName == Param(l, ServiceName) && (t.multiMode <==> Param(l, Mode) == "multi")
      && Given(t.authority, Param(l, Authority))
    case _ =>
      && t.XhttpSettings? && Given(t.path, Param(l, Path)) && Given(t.host, Param(l, Host)) && Given(t.mode, Param(l, Mode))
  }

  /** The text before the first comma. */
  predicate FirstOf(name: string, list: string) {
    ',' !in name && (name == list || name + "," <= list)
  }

  predicate SecurityMatches(s: SecuritySettings, l: Link) {
    var fingerprint := if Param(l, Fp) == "" then "chrome" else Param(l, Fp);
    match SecurityLayer(l)
    case "none" => s.Plain?
    case "tls" =>
      && s.Tls? && s.fingerprint == fingerprint && GivenList(s.alpn, Param(l, Alpn)) && Given(s.ech, Param(l, Ech))
      && Given(s.pinned, Param(l, Pcs)) && Given(s.verifyName, Param(l, Vcn))
      && (if Param(l, Sni) != "" then s.serverName == Some(Param(l, Sni))
          else if Param(l, Host) != "" then s.serverName.Some? && FirstOf(s.serverName.value, Param(l, Host))
          else s.serverName == None)
    case _ =>
      && s.Reality? && s.target == Param(l, Sni) && s.fingerprint == fingerprint && s.publicKey == Param(l, Pbk)
      && s.shortId == Param(l, Sid) && s.spiderX == Param(l, Spx)
  }

  lemma ListIsGiven(v: string)
    requires v != ""
    ensures GivenList(Some(Split(v, ',')), v)
  {
    JoinSplit(v, ',');
    SplitParts(v, ',');
  }

  lemma {:induction false} FirstPart(v: string)
    ensures FirstOf(Split(v, ',')[0], v)
  {
    SplitParts(v, ',');
    JoinSplit(v, ',');
  }

  lemma TransportIs(l: Link)
    requires Build(l).Some?
    ensures TransportMatches(Build(l).value.transport, l)
  {
    BuildsIff(l);
    if Param(l, Host) != "" { ListIsGiven(Param(l, Host)); }
    hide Decode, Lower, Split, GivenList, UriHost, AccountOf, SecurityOf;
  }

  lemma SecurityIs(l: Link)
    requires Build(l).Some?
    ensures SecurityMatches(Build(l).value.security, l)
  {
    BuildsIff(l);
    if Param(l, Host) != "" { FirstPart(Param(l, Host)); }
    if Param(l, Alpn) != "" { ListIsGiven(Param(l, Alpn)); }
    hide Decode, Lower, Split, FirstOf, GivenList, UriHost, AccountOf, TransportOf;
  }

  /** Every field of the outbound, from the parameter it comes from. */
  lemma OutboundMatches(l: Link)
    requires Build(l).Some?
    ensures var o := Build(l).value;
            && o.address == UriHost(l.hostText) && Some(o.port) == l.port
            && AccountMatches(o.account, l) && TransportMatches(o.transport, l) && SecurityMatches(o.security, l)
  {
    TransportIs(l);
    SecurityIs(l);
    hide Decode, TransportMatches, SecurityMatches, TransportOf, SecurityOf, UriHost, NetworkOf, SecurityKindOf;
  }

  // ---- setting one parameter ----

  function With(l: Link, k: Key, v: string): Link {
    l.(query := l.query[k := v])
  }

  /** The parameters that a link of this transport and security layer is read for. */
  function ReadsOf(l: Link): set<Key> {
    {Type, Security}
    + (if l.scheme == Vless then {Encryption, Flow} else {})
    + (match TypeName(l)
       case "tcp" => if Param(l, HeaderType) == "http" then {HeaderType, Path, Host} else {HeaderType}
       case "grpc" => {ServiceName, Mode, Authority}
       case "ws" => {Path, Host}
       case "httpupgrade" => {Path, Host}
       case _ => {Path, Host, Mode})
    + (match SecurityLayer(l)
       case "none" => {}
       case "tls" => {Sni, Fp, Alpn, Ech, Pcs, Vcn} + (if Param(l, Sni) == "" then {Host} else {})
       case _ => {Sni, Fp, Pbk, Sid, Spx})
  }

  /** A parameter that names neither transport nor security layer leaves both of their kinds alone. */
  lemma WithBuilds(l: Link, k: Key, v: string)
    requires Build(l).Some? && k !in {Type, Security}
    ensures Decode(l.userInfo, false).Some? && NetworkOf(l.query).Some? && SecurityKindOf(l.scheme, l.query).Some?
    ensures var o, q, kind := Build(l).value, l.query[k := v], SecurityKindOf(l.scheme, l.query).value;
            var secret, net := Decode(l.userInfo, false).value, NetworkOf(l.query).value;
            && TransportOf(net, l.query) == o.transport && SecurityOf(kind, l.query) == Some(o.security)
            && AccountOf(l.scheme, secret, l.query) == o.account
            && Build(With(l, k, v))
               == match SecurityOf(kind, q)
                  case None => None
                  case Some(s) => Some(Outbound(o.address, o.port, AccountOf(l.scheme, secret, q), TransportOf(net, q), s))
  {
    hide Decode, Lower, UriHost, TransportOf, SecurityOf, AccountOf, NetworkNamed, SecurityNamed;
  }

  lemma AccountKept(l: Link, k: Key, v: string)
    requires l.scheme == Vless ==> k !in {Encryption, Flow}
    ensures forall secret: string :: AccountOf(l.scheme, secret, l.query[k := v]) == AccountOf(l.scheme, secret, l.query)
  {
  }

  lemma TransportKept(l: Link, k: Key, v: string)
    requires k !in {HeaderType, Path, Host, ServiceName, Mode, Authority}
    ensures forall net: Network :: TransportOf(net, l.query[k := v]) == TransportOf(net, l.query)
  {
    hide Split;
  }

  lemma SecurityKept(l: Link, k: Key, v: string)
    requires k !in {Host, Sni, Fp, Alpn, Ech, Pcs, Vcn, Pbk, Sid, Spx}
    ensures forall kind: SecurityKind :: SecurityOf(kind, l.query[k := v]) == SecurityOf(kind, l.query)
  {
    hide Split;
  }

  /** The names of the layers of a link that builds. */
  lemma Kinds(l: Link)
    requires Build(l).Some?
    ensures var net, name := NetworkOf(l.query).value, TypeName(l);
            && (net == Tcp <==> name == "tcp") && (net == Ws <==> name == "ws") && (net == Grpc <==> name == "grpc")
            && (net == HttpUpgrade <==> name == "httpupgrade") && (net == Xhttp <==> name in {"xhttp", "splithttp"})
    ensures var kind, name := SecurityKindOf(l.scheme, l.query).value, SecurityLayer(l);
            && (kind == NoSecurity <==> name == "none") && (kind == TlsKind <==> name == "tls")
            && (kind == RealityKind <==> name == "reality")
    ensures NetworkOf(l.query).Some? && SecurityKindOf(l.scheme, l.query).Some?
  {
    hide Decode, Lower, UriHost, TransportOf, SecurityOf, AccountOf;
  }

  function TransportReads(net: Network, q: Query): set<Key> {
    match net
    case Tcp => if Val(q, HeaderType, "") == "http" then {HeaderType, Path, Host} else {HeaderType}
    case Grpc => {ServiceName, Mode, Authority}
    case Ws => {Path, Host}
    case HttpUpgrade => {Path, Host}
    case Xhttp => {Path, Host, Mode}
  }

  function SecurityReads(kind: SecurityKind, q: Query): set<Key> {
    match kind
    case NoSecurity => {}
    case TlsKind => {Sni, Fp, Alpn, Ech, Pcs, Vcn} + (if Val(q, Sni, "") == "" then {Host} else {})
    case RealityKind => {Sni, Fp, Pbk, Sid, Spx}
  }

  lemma OtherTransport(net: Network, q: Query, k: Key, v: string)
    requires k !in TransportReads(net, q)
    ensures TransportOf(net, q[k := v]) == TransportOf(net, q)
  {
    hide Split;
  }

  lemma OtherSecurity(kind: SecurityKind, q: Query, k: Key, v: string)
    requires k !in SecurityReads(kind, q)
    ensures SecurityOf(kind, q[k := v]) == SecurityOf(kind, q)
  {
    hide Split;
  }

  lemma AllReads(l: Link)
    requires Build(l).Some?
    ensures NetworkOf(l.query).Some? && SecurityKindOf(l.scheme, l.query).Some?
    ensures TransportReads(NetworkOf(l.query).value, l.query) <= ReadsOf(l)
    ensures SecurityReads(SecurityKindOf(l.scheme, l.query).value, l.query) <= ReadsOf(l)
  {
    Kinds(l);
    hide NetworkOf, SecurityKindOf, TypeName, SecurityLayer, Build;
  }

  /** Setting a parameter of another transport, security layer or scheme, or an unknown one, changes nothing. */
  lemma OthersChangeNothing(l: Link, k: Key, v: string)
    requires Build(l).Some? && k !in ReadsOf(l)
    ensures Build(With(l, k, v)) == Build(l)
  {
    WithBuilds(l, k, v);
    AccountKept(l, k, v);
    AllReads(l);
    OtherTransport(NetworkOf(l.query).value, l.query, k, v);
    OtherSecurity(SecurityKindOf(l.scheme, l.query).value, l.query, k, v);
    hide Decode, AccountOf, TransportOf, SecurityOf, NetworkOf, SecurityKindOf, Build, With, ReadsOf;
  }

  function Opt(v: string): Option<string> {
    if v == "" then None else Some(v)
  }

  /** The account parameters change the account of a vless link, each its own field. */
  lemma SetAccount(l: Link, v: string)
    requires Build(l).Some? && l.scheme == Vless
    ensures var o := Build(l).value;
            && Build(With(l, Encryption, v)) == Some(o.(account := o.account.(encryption := v)))
            && Build(With(l, Flow, v)) == Some(o.(account := o.account.(flow := Opt(v))))
  {
    hide Decode, TransportOf, SecurityOf, AccountOf, NetworkOf, SecurityKindOf, Build, With;
    WithBuilds(l, Encryption, v);
    WithBuilds(l, Flow, v);
    TransportKept(l, Encryption, v);
    TransportKept(l, Flow, v);
    SecurityKept(l, Encryption, v);
    SecurityKept(l, Flow, v);
    VlessFields(Decode(l.userInfo, false).value, l.query, v);
  }

  lemma VlessFields(secret: string, q: Query, v: string)
    ensures var a := AccountOf(Vless, secret, q);
            && AccountOf(Vless, secret, q[Encryption := v]) == a.(encryption := v)
            && AccountOf(Vless, secret, q[Flow := v]) == a.(flow := Opt(v))
  {
  }

  /** The path is the transport's own, and nothing else's. */
  lemma SetPath(l: Link, v: string)
    requires Build(l).Some?
    ensures var o := Build(l).value;
            Build(With(l, Path, v))
            == if TypeName(l) in {"ws", "httpupgrade", "xhttp", "splithttp"}
               then Some(o.(transport := o.transport.(path := Opt(v))))
               else if o.transport.TcpHttp? then Some(o.(transport := o.transport.(requestPath := if v == "" then "/" else v)))
               else Some(o)
  {
    Kinds(l);
    WithBuilds(l, Path, v);
    AccountKept(l, Path, v);
    SecurityKept(l, Path, v);
    hide Decode, Split, AccountOf, SecurityOf, NetworkOf, SecurityKindOf, Build, With, TypeName, SecurityLayer;
  }

  /** The server name that `host` gives a TLS layer without a name of its own. */
  function Named(l: Link, s: SecuritySettings, host: string): SecuritySettings {
    if s.Tls? && Param(l, Sni) == "" then s.(serverName := if host == "" then None else Some(Split(host, ',')[0])) else s
  }

  lemma HostNames(l: Link, v: string)
    requires Build(l).Some?
    ensures SecurityOf(SecurityKindOf(l.scheme, l.query).value, l.query[Host := v]) == Some(Named(l, Build(l).value.security, v))
  {
    hide Decode, Split, AccountOf, TransportOf, NetworkOf, SecurityKindOf, Build, With, NonEmpty;
    WithBuilds(l, Host, v);
  }

  /** The host is the transport's own, and the name of a TLS layer that has none. */
  lemma SetHost(l: Link, v: string)
    requires Build(l).Some?
    ensures var o := Build(l).value;
            var named := o.(security := Named(l, o.security, v));
            Build(With(l, Host, v))
            == if TypeName(l) in {"ws", "httpupgrade", "xhttp", "splithttp"}
               then Some(named.(transport := o.transport.(host := Opt(v))))
               else if o.transport.TcpHttp?
               then Some(named.(transport := o.transport.(hosts := if v == "" then None else Some(Split(v, ',')))))
               else Some(named)
  {
    Kinds(l);
    HostNames(l, v);
    WithBuilds(l, Host, v);
    AccountKept(l, Host, v);
    hide Decode, Split, AccountOf, SecurityOf, Named, NetworkOf, SecurityKindOf, Build, With, TypeName, SecurityLayer;
  }

  /** The mode is that of xhttp, and the multi mode of grpc. */
  lemma SetMode(l: Link, v: string)
    requires Build(l).Some?
    ensures var o := Build(l).value;
            Build(With(l, Mode, v))
            == if TypeName(l) in {"xhttp", "splithttp"} then Some(o.(transport := o.transport.(mode := Opt(v))))
               else if TypeName(l) == "grpc" then Some(o.(transport := o.transport.(multiMode := v == "multi")))
               else Some(o)
  {
    Kinds(l);
    WithBuilds(l, Mode, v);
    AccountKept(l, Mode, v);
    SecurityKept(l, Mode, v);
    hide Decode, Split, AccountOf, SecurityOf, NetworkOf, SecurityKindOf, Build, With, TypeName, SecurityLayer;
  }

  lemma SetGrpc(l: Link, v: string)
    requires Build(l).Some? && TypeName(l) == "grpc"
    ensures var o := Build(l).value;
            && Build(With(l, ServiceName, v)) == Some(o.(transport := o.transport.(serviceName := v)))
            && Build(With(l, Authority, v)) == Some(o.(transport := o.transport.(authority := Opt(v))))
  {
    Kinds(l);
    WithBuilds(l, ServiceName, v);
    AccountKept(l, ServiceName, v);
    SecurityKept(l, ServiceName, v);
    WithBuilds(l, Authority, v);
    AccountKept(l, Authority, v);
    SecurityKept(l, Authority, v);
    hide Decode, Split, AccountOf, SecurityOf, NetworkOf, SecurityKindOf, Build, With, TypeName, SecurityLayer;
  }

  function Fingerprinted(s: SecuritySettings, v: string): SecuritySettings {
    var name := if v == "" then "chrome" else v;
    match s
    case Plain => s
    case Tls(server, _, alpn, ech, pinned, verify) => Tls(server, name, alpn, ech, pinned, verify)
    case Reality(target, _, key, id, spider) => Reality(target, name, key, id, spider)
  }

  /** A security parameter changes the security settings of the outbound and nothing else. */
  lemma SetSecurity(l: Link, k: Key, v: string, kind: SecurityKind)
    requires Build(l).Some? && k in {Sni, Fp, Alpn, Ech, Pcs, Vcn, Pbk, Sid, Spx}
    requires kind == SecurityKindOf(l.scheme, l.query).value
    ensures SecurityOf(kind, l.query) == Some(Build(l).value.security)
    ensures Build(With(l, k, v))
         == match SecurityOf(kind, l.query[k := v]) case None => None case Some(s) => Some(Build(l).value.(security := s))
  {
    WithBuilds(l, k, v);
    AccountKept(l, k, v);
    TransportKept(l, k, v);
    hide Decode, Split, AccountOf, TransportOf, SecurityOf, NetworkOf, SecurityKindOf, Build, With;
  }

  lemma TlsNames(q: Query, v: string)
    ensures SecurityOf(TlsKind, q).Some?
    ensures var s := SecurityOf(TlsKind, q).value;
            && (v != "" ==> SecurityOf(TlsKind, q[Sni := v]) == Some(s.(serverName := Some(v))))
            && SecurityOf(TlsKind, q[Fp := v]) == Some(Fingerprinted(s, v))
            && SecurityOf(TlsKind, q[Alpn := v]) == Some(s.(alpn := if v == "" then None else Some(Split(v, ','))))
  {
    hide Split;
  }

  lemma TlsPins(q: Query, v: string)
    ensures SecurityOf(TlsKind, q).Some?
    ensures var s := SecurityOf(TlsKind, q).value;
            && SecurityOf(TlsKind, q[Ech := v]) == Some(s.(ech := Opt(v)))
            && SecurityOf(TlsKind, q[Pcs := v]) == Some(s.(pinned := Opt(v)))
            && SecurityOf(TlsKind, q[Vcn := v]) == Some(s.(verifyName := Opt(v)))
  {
    hide Split;
  }

  lemma RealityFields(q: Query, v: string)
    requires SecurityOf(RealityKind, q).Some?
    ensures var s := SecurityOf(RealityKind, q).value;
            && SecurityOf(RealityKind, q[Sni := v]) == Some(s.(target := v))
            && SecurityOf(RealityKind, q[Fp := v]) == Some(Fingerprinted(s, v))
            && SecurityOf(RealityKind, q[Pbk := v]) == (if v == "" then None else Some(s.(publicKey := v)))
            && SecurityOf(RealityKind, q[Sid := v]) == Some(s.(shortId := v))
            && SecurityOf(RealityKind, q[Spx := v]) == Some(s.(spiderX := v))
  {
  }

  /** The parameters of TLS, each its own field. */
  lemma SetTls(l: Link, v: string)
    requires Build(l).Some? && SecurityLayer(l) == "tls"
    ensures var o := Build(l).value;
            && (v != "" ==> Build(With(l, Sni, v)) == Some(o.(security := o.security.(serverName := Some(v)))))
            && Build(With(l, Fp, v)) == Some(o.(security := Fingerprinted(o.security, v)))
            && Build(With(l, Alpn, v)) == Some(o.(security := o.security.(alpn := if v == "" then None else Some(Split(v, ',')))))
            && Build(With(l, Ech, v)) == Some(o.(security := o.security.(ech := Opt(v))))
            && Build(With(l, Pcs, v)) == Some(o.(security := o.security.(pinned := Opt(v))))
            && Build(With(l, Vcn, v)) == Some(o.(security := o.security.(verifyName := Opt(v))))
  {
    Kinds(l);
    hide Split, NetworkOf, SecurityOf, SecurityKindOf, Build, With, TypeName, SecurityLayer, Fingerprinted;
    TlsNames(l.query, v);
    TlsPins(l.query, v);
    SetSecurity(l, Sni, v, TlsKind);
    SetSecurity(l, Fp, v, TlsKind);
    SetSecurity(l, Alpn, v, TlsKind);
    SetSecurity(l, Ech, v, TlsKind);
    SetSecurity(l, Pcs, v, TlsKind);
    SetSecurity(l, Vcn, v, TlsKind);
  }

  /** The parameters of Reality, each its own field; without a public key the link no longer builds. */
  lemma SetReality(l: Link, v: string)
    requires Build(l).Some? && SecurityLayer(l) == "reality"
    ensures var o := Build(l).value;
            && Build(With(l, Sni, v)) == Some(o.(security := o.security.(target := v)))
            && Build(With(l, Fp, v)) == Some(o.(security := Fingerprinted(o.security, v)))
            && Build(With(l, Pbk, v)) == (if v == "" then None else Some(o.(security := o.security.(publicKey := v))))
            && Build(With(l, Sid, v)) == Some(o.(security := o.security.(shortId := v)))
            && Build(With(l, Spx, v)) == Some(o.(security := o.security.(spiderX := v)))
  {
    Kinds(l);
    hide Split, NetworkOf, SecurityOf, SecurityKindOf, Build, With, TypeName, SecurityLayer, Fingerprinted;
    SetSecurity(l, Sni, v, RealityKind);
    RealityFields(l.query, v);
    SetSecurity(l, Fp, v, RealityKind);
    SetSecurity(l, Pbk, v, RealityKind);
    SetSecurity(l, Sid, v, RealityKind);
    SetSecurity(l, Spx, v, RealityKind);
  }
}
