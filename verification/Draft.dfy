/** The editable form of a vless or trojan link: fromLink and toLink of config_draft.dart. */
module Draft {
  import opened Text
  import opened Percent
  import opened Xray

  datatype Fields = Fields(
    scheme: Scheme, address: string, port: string, secret: string, encryption: string, flow: string,
    network: Network, path: string, hostHeader: string, serviceName: string, mode: string, headerType: string,
    security: SecurityKind, sni: string, fingerprint: string, alpn: string,
    publicKey: string, shortId: string, spiderX: string, pinnedCert: string, verifyName: string,
    extra: Query)

  /** The order in which the form takes its parameters; the last number is for every other one. */
  function Rank(scheme: Scheme, k: Key): nat {
    match k
    case Encryption => if scheme == Vless then 0 else OTHERS
    case Flow => if scheme == Vless then 1 else OTHERS
    case Type => 2
    case Path => 3
    case Host => 4
    case ServiceName => 5
    case Mode => 6
    case HeaderType => 7
    case Security => 8
    case Sni => 9
    case Fp => 10
    case Alpn => 11
    case Pbk => 12
    case Sid => 13
    case Spx => 14
    case Pcs => 15
    case Vcn => 16
    case _ => OTHERS
  }

  const OTHERS := 17

  /** The query without the parameters of the first `n` ranks. */
  function Left(q: Query, scheme: Scheme, n: nat): Query {
    map k | k in q && Rank(scheme, k) >= n :: q[k]
  }

  /** Enum values by name; an unknown name is TCP, or no security. */
  function DraftNetwork(s: string): Network {
    if s == "ws" then Ws
    else if s == "httpupgrade" then HttpUpgrade
    else if s == "grpc" then Grpc
    else if s == "xhttp" || s == "splithttp" then Xhttp
    else Tcp
  }

  function DraftSecurity(s: string): SecurityKind {
    if s == "tls" then TlsKind else if s == "reality" then RealityKind else NoSecurity
  }

  function NetworkName(n: Network): string {
    match n case Tcp => "tcp" case Ws => "ws" case HttpUpgrade => "httpupgrade" case Grpc => "grpc" case Xhttp => "xhttp"
  }

  function SecurityName(k: SecurityKind): string {
    match k case NoSecurity => "none" case TlsKind => "tls" case RealityKind => "reality"
  }

  // ---- what the form reads and writes ----

  function Blank(scheme: Scheme, address: string, port: string, secret: string): Fields {
    Fields(scheme, address, port, secret, "none", "", Tcp, "", "", "", "", "none",
           NoSecurity, "", "chrome", "", "", "", "", "", "", map[])
  }

  function WithAccount(d: Fields, q: Query): Fields {
    if d.scheme == Vless then d.(encryption := Val(q, Encryption, "none"), flow := Val(q, Flow, "")) else d
  }

  function WithTransport(d: Fields, q: Query): Fields {
    d.(network := DraftNetwork(Lower(Val(q, Type, "tcp"))), path := Val(q, Path, ""), hostHeader := Val(q, Host, ""),
       serviceName := Val(q, ServiceName, ""), mode := Val(q, Mode, ""), headerType := Val(q, HeaderType, "none"))
  }

  function WithSecurity(d: Fields, q: Query): Fields {
    d.(security := DraftSecurity(Lower(Val(q, Security, DefaultSecurity(d.scheme)))),
       sni := Val(q, Sni, ""), fingerprint := Val(q, Fp, "chrome"), alpn := Val(q, Alpn, ""),
       publicKey := Val(q, Pbk, ""), shortId := Val(q, Sid, ""), spiderX := Val(q, Spx, ""),
       pinnedCert := Val(q, Pcs, ""), verifyName := Val(q, Vcn, ""))
  }

  /** The fields a link fills; None is user information that Uri.decodeComponent rejects. */
  function Read(l: Link): Option<Fields> {
    var secret := Decode(l.userInfo, false);
    if secret == None then None
    else
      var port := if l.port == None then "" else DecimalOf(l.port.value);
      var blank := Blank(l.scheme, UriHost(l.hostText), port, secret.value);
      var d := WithSecurity(WithTransport(WithAccount(blank, l.query), l.query), l.query);
      Some(d.(extra := Left(l.query, l.scheme, OTHERS)))
  }

  function Put(v: string): Option<string> {
    NonEmpty(Trim(v))
  }

  /** The transports whose path and host the writer keeps. */
  predicate CarriesHost(network: Network, headerType: string) {
    network in {Ws, HttpUpgrade, Xhttp} || (network == Tcp && headerType == "http")
  }

  function When(c: bool, v: Option<string>): Option<string> {
    if c then v else None
  }

  /** What the form itself writes for a parameter. */
  function Shown(d: Fields, k: Key): Option<string> {
    match k
    case Encryption => When(d.scheme == Vless, Some(if Trim(d.encryption) == "" then "none" else Trim(d.encryption)))
    case Flow => When(d.scheme == Vless, Put(d.flow))
    case Security => Some(SecurityName(d.security))
    case Type => Some(NetworkName(d.network))
    case Path => When(CarriesHost(d.network, d.headerType), Put(d.path))
    case Host => When(CarriesHost(d.network, d.headerType), Put(d.hostHeader))
    case HeaderType => When(d.network == Tcp && d.headerType == "http", Some("http"))
    case ServiceName => When(d.network == Grpc, Put(d.serviceName))
    case Mode => When(d.network in {Grpc, Xhttp}, Put(d.mode))
    case Sni => When(d.security != NoSecurity, Put(d.sni))
    case Fp => When(d.security != NoSecurity, Put(d.fingerprint))
    case Alpn => When(d.security == TlsKind, Put(d.alpn))
    case Pcs => When(d.security == TlsKind, Put(d.pinnedCert))
    case Vcn => When(d.security == TlsKind, Put(d.verifyName))
    case Pbk => When(d.security == RealityKind, Put(d.publicKey))
    case Sid => When(d.security == RealityKind, Put(d.shortId))
    case Spx => When(d.security == RealityKind, Put(d.spiderX))
    case _ => None
  }

  const ALL_SHOWN: set<Key> := {
    Encryption, Flow, Type, Path, Host, ServiceName, Mode, HeaderType,
    Security, Sni, Fp, Alpn, Pbk, Sid, Spx, Pcs, Vcn
  }

  /** The written query: what the form shows, then the parameters it has no field for. */
  function WrittenQuery(d: Fields): Query {
    map k | k in ALL_SHOWN + d.extra.Keys && (Shown(d, k).Some? || k in d.extra) ::
      if Shown(d, k).Some? then Shown(d, k).value else d.extra[k]
  }

  function HostForUri(h: string): string {
    if ':' in h && (h == "" || h[0] != '[') then "[" + h + "]" else h
  }

  function ParsePort(text: string): Option<nat> {
    if text == "" || exists c <- text :: !IsDigit(c) then None else Some(DigitsValue(text))
  }

  /** toLink, as Uri.parse takes the written text apart again. */
  function Write(d: Fields): Link
    requires IsBytes(Trim(d.secret))
  {
    Link(d.scheme, Encode(Trim(d.secret), false), HostForUri(Trim(d.address)), ParsePort(Trim(d.port)), WrittenQuery(d))
  }

  // ---- the form object ----

  class ConfigDraft {
    var f: Fields // the form's fields

    constructor (scheme: Scheme, address: string, port: string, secret: string)
      ensures f == Blank(scheme, address, port, secret)
    {
      f := Blank(scheme, address, port, secret);
    }

    /** The vless part of _fromUri. */
    method ReadAccount(query: Query) returns (q: Query)
      modifies this
      ensures f == WithAccount(old(f), query)
      ensures q == Left(query, old(f).scheme, 2)
    {
      hide Val, Left;
      AllLeft(query, f.scheme);
      q := query;
      if f.scheme == Vless {
        var v;
        v, q := Take(query, f.scheme, q, Encryption, "none");
        f := f.(encryption := v);
        v, q := Take(query, f.scheme, q, Flow, "");
        f := f.(flow := v);
      }
    }

    /** _readStream. */
    method ReadStream(ghost query: Query, rest: Query) returns (q: Query)
      requires rest == Left(query, f.scheme, 2)
      modifies this
      ensures f == WithSecurity(WithTransport(old(f), query), query)
      ensures q == Left(query, f.scheme, OTHERS)
    {
      hide Val, Lower, DraftNetwork, DraftSecurity, Left;
      var network, path, host, service, mode, header;
      network, path, host, service, mode, header, q := TakeTransport(query, f.scheme, rest);
      f := f.(network := network, path := path, hostHeader := host);
      f := f.(serviceName := service, mode := mode, headerType := header);
      var security, sni, fp, alpn, pbk, sid, spx, pcs, vcn;
      security, sni, fp, alpn, q := TakeTls(query, f.scheme, q);
      f := f.(security := security, sni := sni, fingerprint := fp, alpn := alpn);
      pbk, sid, spx, pcs, vcn, q := TakeReality(query, f.scheme, q);
      f := f.(publicKey := pbk, shortId := sid, spiderX := spx, pinnedCert := pcs, verifyName := vcn);
    }

    /** _uriLink: the query is filled parameter by parameter, the unknown ones only where free. */
    method UriLink() returns (l: Link)
      requires IsBytes(Trim(f.secret))
      ensures l == Write(f)
    {
      hide Filled;
      var q := WriteAccount(f);
      q := WriteTransport(f, q);
      q := WriteSecurity(f, q);
      q := WriteKeys(f, q);
      FilledIsWritten(f, q);
      q := f.extra + q;
      l := Link(f.scheme, Encode(Trim(f.secret), false), HostForUri(Trim(f.address)), ParsePort(Trim(f.port)), q);
    }
  }

  lemma AllLeft(query: Query, scheme: Scheme)
    ensures Left(query, scheme, if scheme == Vless then 0 else 2) == query
  {
    var q := Left(query, scheme, if scheme == Vless then 0 else 2);
    assert forall k :: k in q <==> k in query;
  }

  /** `remove` on the query: the parameter or its default, and the query without it. */
  method Take(ghost query: Query, ghost scheme: Scheme, q: Query, k: Key, default: string)
    returns (v: string, rest: Query)
    requires q == Left(query, scheme, Rank(scheme, k)) && Rank(scheme, k) < OTHERS
    ensures v == Val(query, k, default) && rest == Left(query, scheme, Rank(scheme, k) + 1)
  {
    v := Val(q, k, default);
    rest := q - {k};
    forall x: Key | Rank(scheme, x) == Rank(scheme, k) ensures x == k { RankUnique(scheme, x, k); }
    hide Rank;
    assert rest == Left(query, scheme, Rank(scheme, k) + 1);
  }

  method TakeTransport(ghost query: Query, ghost scheme: Scheme, rest: Query)
    returns (network: Network, path: string, host: string, service: string, mode: string, header: string, q: Query)
    requires rest == Left(query, scheme, 2)
    ensures network == DraftNetwork(Lower(Val(query, Type, "tcp"))) && path == Val(query, Path, "")
    ensures host == Val(query, Host, "") && service == Val(query, ServiceName, "")
    ensures mode == Val(query, Mode, "") && header == Val(query, HeaderType, "none")
    ensures q == Left(query, scheme, 8)
  {
    hide Val, Lower, DraftNetwork, Left;
    var net;
    net, q := Take(query, scheme, rest, Type, "tcp");
    network := DraftNetwork(Lower(net));
    path, q := Take(query, scheme, q, Path, "");
    host, q := Take(query, scheme, q, Host, "");
    service, q := Take(query, scheme, q, ServiceName, "");
    mode, q := Take(query, scheme, q, Mode, "");
    header, q := Take(query, scheme, q, HeaderType, "none");
  }

  method TakeTls(ghost query: Query, scheme: Scheme, rest: Query)
    returns (security: SecurityKind, sni: string, fp: string, alpn: string, q: Query)
    requires rest == Left(query, scheme, 8)
    ensures security == DraftSecurity(Lower(Val(query, Security, DefaultSecurity(scheme))))
    ensures sni == Val(query, Sni, "") && fp == Val(query, Fp, "chrome") && alpn == Val(query, Alpn, "")
    ensures q == Left(query, scheme, 12)
  {
    hide Val, Lower, DraftSecurity, Left;
    var sec;
    sec, q := Take(query, scheme, rest, Security, DefaultSecurity(scheme));
    security := DraftSecurity(Lower(sec));
    sni, q := Take(query, scheme, q, Sni, "");
    fp, q := Take(query, scheme, q, Fp, "chrome");
    alpn, q := Take(query, scheme, q, Alpn, "");
  }

  method TakeReality(ghost query: Query, ghost scheme: Scheme, rest: Query)
    returns (pbk: string, sid: string, spx: string, pcs: string, vcn: string, q: Query)
    requires rest == Left(query, scheme, 12)
    ensures pbk == Val(query, Pbk, "") && sid == Val(query, Sid, "") && spx == Val(query, Spx, "")
    ensures pcs == Val(query, Pcs, "") && vcn == Val(query, Vcn, "")
    ensures q == Left(query, scheme, OTHERS)
  {
    hide Val, Left;
    pbk, q := Take(query, scheme, rest, Pbk, "");
    sid, q := Take(query, scheme, q, Sid, "");
    spx, q := Take(query, scheme, q, Spx, "");
    pcs, q := Take(query, scheme, q, Pcs, "");
    vcn, q := Take(query, scheme, q, Vcn, "");
  }

  lemma RankUnique(scheme: Scheme, x: Key, k: Key)
    requires Rank(scheme, x) == Rank(scheme, k) < OTHERS
    ensures x == k
  {
  }

  /** _fromUri; null is every way of throwing. */
  method FromUri(l: Link) returns (d: ConfigDraft?)
    ensures d == null <==> Read(l) == None
    ensures d != null ==> fresh(d) && d.f == Read(l).value
  {
    hide Decode, WithAccount, WithTransport, WithSecurity, Blank, DecimalOf, UriHost;
    var secret := Decode(l.userInfo, false);
    if secret == None { return null; }
    var port := if l.port == None then "" else DecimalOf(l.port.value);
    d := new ConfigDraft(l.scheme, UriHost(l.hostText), port, secret.value);
    SchemeKept(l.scheme, UriHost(l.hostText), port, secret.value, l.query);
    var q := d.ReadAccount(l.query);
    q := d.ReadStream(l.query, q);
    d.f := d.f.(extra := q);
  }

  lemma SchemeKept(scheme: Scheme, address: string, port: string, secret: string, q: Query)
    ensures var d := Blank(scheme, address, port, secret);
            d.scheme == WithAccount(d, q).scheme == WithTransport(WithAccount(d, q), q).scheme == scheme
    ensures forall d: Fields :: WithSecurity(d, q).scheme == d.scheme
  {
  }

  // ---- writing the query ----

  /** `q` holds what the form shows for the parameters before rank `n`, and nothing else. */
  ghost predicate Filled(q: Query, d: Fields, n: nat) {
    forall k: Key :: if Rank(Vless, k) < n && Shown(d, k).Some?
                     then k in q && q[k] == Shown(d, k).value else k !in q
  }

  lemma FilledIsWritten(d: Fields, q: Query)
    requires Filled(q, d, OTHERS)
    ensures d.extra + q == WrittenQuery(d)
  {
    forall k: Key ensures Shown(d, k).Some? ==> k in ALL_SHOWN && Rank(Vless, k) < OTHERS { ShownKeys(d, k); }
    hide Shown, Rank;
    assert forall k :: k in d.extra + q <==> k in WrittenQuery(d);
  }

  lemma ShownKeys(d: Fields, k: Key)
    ensures Shown(d, k).Some? ==> k in ALL_SHOWN && Rank(Vless, k) < OTHERS
  {
    hide Trim;
  }

  lemma SetFills(q: Query, d: Fields, k: Key, v: string)
    requires Filled(q, d, Rank(Vless, k)) && Rank(Vless, k) < OTHERS && Shown(d, k) == Some(v)
    ensures Filled(q[k := v], d, Rank(Vless, k) + 1)
  {
    forall x: Key | Rank(Vless, x) == Rank(Vless, k) ensures x == k { RankUnique(Vless, x, k); }
    hide Shown, Rank;
  }

  lemma SkipFills(q: Query, d: Fields, k: Key)
    requires Filled(q, d, Rank(Vless, k)) && Rank(Vless, k) < OTHERS && Shown(d, k) == None
    ensures Filled(q, d, Rank(Vless, k) + 1)
  {
    forall x: Key | Rank(Vless, x) == Rank(Vless, k) ensures x == k { RankUnique(Vless, x, k); }
    hide Shown, Rank;
  }

  /** A conditional put: the parameter is shown under the same condition, when it is not blank. */
  method PutWhen(d: Fields, head: Query, k: Key, c: bool, v: string) returns (q: Query)
    requires Filled(head, d, Rank(Vless, k)) && Rank(Vless, k) < OTHERS && Shown(d, k) == When(c, Put(v))
    ensures Filled(q, d, Rank(Vless, k) + 1)
  {
    q := head;
    if c && Trim(v) != "" {
      SetFills(head, d, k, Trim(v));
      q := q[k := Trim(v)];
    } else {
      SkipFills(head, d, k);
    }
  }

  lemma NothingFilled(d: Fields)
    ensures Filled(map[], d, 0)
  {
  }

  method WriteAccount(d: Fields) returns (q: Query)
    ensures Filled(q, d, 2)
  {
    hide Filled, Trim;
    NothingFilled(d);
    q := map[];
    if d.scheme == Vless {
      var enc := if Trim(d.encryption) == "" then "none" else Trim(d.encryption);
      SetFills(q, d, Encryption, enc);
      q := q[Encryption := enc];
    } else {
      SkipFills(q, d, Encryption);
    }
    q := PutWhen(d, q, Flow, d.scheme == Vless, d.flow);
  }

  method WriteTransport(d: Fields, head: Query) returns (q: Query)
    requires Filled(head, d, 2)
    ensures Filled(q, d, 8)
  {
    hide Filled, Trim;
    var httpHeader := d.network == Tcp && d.headerType == "http";
    var carries := (d.network != Tcp && d.network != Grpc) || httpHeader;
    SetFills(head, d, Type, NetworkName(d.network));
    q := head[Type := NetworkName(d.network)];
    q := PutWhen(d, q, Path, carries, d.path);
    q := PutWhen(d, q, Host, carries, d.hostHeader);
    q := PutWhen(d, q, ServiceName, d.network == Grpc, d.serviceName);
    q := PutWhen(d, q, Mode, d.network == Grpc || d.network == Xhttp, d.mode);
    if httpHeader {
      SetFills(q, d, HeaderType, "http");
      q := q[HeaderType := "http"];
    } else {
      SkipFills(q, d, HeaderType);
    }
  }

  method WriteSecurity(d: Fields, head: Query) returns (q: Query)
    requires Filled(head, d, 8)
    ensures Filled(q, d, 12)
  {
    hide Filled, Trim;
    SetFills(head, d, Security, SecurityName(d.security));
    q := head[Security := SecurityName(d.security)];
    q := PutWhen(d, q, Sni, d.security != NoSecurity, d.sni);
    q := PutWhen(d, q, Fp, d.security != NoSecurity, d.fingerprint);
    q := PutWhen(d, q, Alpn, d.security == TlsKind, d.alpn);
  }

  method WriteKeys(d: Fields, head: Query) returns (q: Query)
    requires Filled(head, d, 12)
    ensures Filled(q, d, OTHERS)
  {
    hide Filled, Trim;
    q := PutWhen(d, head, Pbk, d.security == RealityKind, d.publicKey);
    q := PutWhen(d, q, Sid, d.security == RealityKind, d.shortId);
    q := PutWhen(d, q, Spx, d.security == RealityKind, d.spiderX);
    q := PutWhen(d, q, Pcs, d.security == TlsKind, d.pinnedCert);
    q := PutWhen(d, q, Vcn, d.security == TlsKind, d.verifyName);
  }
}
