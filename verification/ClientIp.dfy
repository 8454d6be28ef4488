/** ResolveClientIP of proxy.go: which address is the client's, and did it come through a trusted proxy. */
module ClientIp {
  import opened Text

  /** net.ParseIP and net.IP.String on addresses numbered by `nat`. */
  datatype Net = Net(parse: string -> Option<nat>, show: nat -> string)

  /** The CIDR blocks of proxies.txt, each as its membership test. */
  type Networks = seq<nat -> bool>

  datatype Provider = NoCdn | Cloudflare | Fastly | Generic
  datatype Headers = Headers(cfConnectingIp: string, fastlyClientIp: string, forwardedFor: seq<string>)

  predicate Trusted(nets: Networks, ip: nat) {
    exists i | 0 <= i < |nets| :: nets[i](ip)
  }

  method Contains(nets: Networks, ip: Option<nat>) returns (r: bool)
    ensures r == (ip.Some? && Trusted(nets, ip.value))
  {
    if ip == None { return false; }
    for i := 0 to |nets|
      invariant forall j | 0 <= j < i :: !nets[j](ip.value)
    {
      if nets[i](ip.value) { return true; }
    }
    return false;
  }

  function SingleIp(v: string, net: Net): string {
    var v := Trim(v);
    if v == "" || ',' in v || ' ' in v then ""
    else match net.parse(v) case Some(ip) => net.show(ip) case None => ""
  }

  /** What one X-Forwarded-For entry says: no address, a proxy of ours, or the client. */
  datatype Hop = Garbage | Proxy | Client(ip: nat)

  function HopOf(part: string, net: Net, nets: Networks): Hop {
    match net.parse(Trim(part))
    case None => Garbage
    case Some(ip) => if Trusted(nets, ip) then Proxy else Client(ip)
  }

  /** The answer of a chain: its rightmost entry that is not one of our proxies decides. */
  function FromRight(parts: seq<string>, host: string, net: Net, nets: Networks): string {
    if parts == [] then host
    else
      match HopOf(parts[|parts| - 1], net, nets)
      case Garbage => host
      case Client(ip) => net.show(ip)
      case Proxy => FromRight(parts[..|parts| - 1], host, net, nets)
  }

  function Chain(values: seq<string>): seq<string> {
    Split(Join(values, ','), ',')
  }

  predicate ViaProxy(host: string, net: Net, nets: Networks, provider: Provider) {
    provider != NoCdn && net.parse(host).Some? && Trusted(nets, net.parse(host).value)
  }

  function Resolve(host: string, h: Headers, net: Net, nets: Networks, provider: Provider): (string, bool) {
    if !ViaProxy(host, net, nets, provider) then (host, false)
    else
      match provider
      case Cloudflare => (OrHost(SingleIp(h.cfConnectingIp, net), host), true)
      case Fastly => (OrHost(SingleIp(h.fastlyClientIp, net), host), true)
      case Generic => (FromRight(Chain(h.forwardedFor), host, net, nets), true)
      case NoCdn => (host, true)
  }

  function OrHost(ip: string, host: string): string {
    if ip != "" then ip else host
  }

  method ResolveClientIP(host: string, h: Headers, net: Net, nets: Networks, provider: Provider)
    returns (ip: string, viaProxy: bool)
    ensures (ip, viaProxy) == Resolve(host, h, net, nets, provider)
  {
    hide Trusted, SingleIp;
    var peer := net.parse(host);
    var known := Contains(nets, peer);
    if provider == NoCdn || !known { return host, false; }
    match provider {
      case Cloudflare =>
        var single := SingleIp(h.cfConnectingIp, net);
        if single != "" { return single, true; }
      case Fastly =>
        var single := SingleIp(h.fastlyClientIp, net);
        if single != "" { return single, true; }
      case Generic =>
        var parts := Split(Join(h.forwardedFor, ','), ',');
        var i := |parts|;
        assert parts[..i] == parts;
        while i > 0
          invariant 0 <= i <= |parts|
          invariant FromRight(parts[..i], host, net, nets) == FromRight(parts, host, net, nets)
        {
          i := i - 1;
          assert parts[..i + 1][..i] == parts[..i];
          var cand := net.parse(Trim(parts[i]));
          if cand == None { return host, true; }
          var ours := Contains(nets, cand);
          if !ours { return net.show(cand.value), true; }
        }
      case NoCdn =>
    }
    return host, true;
  }

  // ---- properties ----

  /** Headers of a connection that is not from a trusted proxy change nothing; only such a one is direct. */
  lemma HeadersNeedTrust(host: string, h: Headers, h': Headers, net: Net, nets: Networks, provider: Provider)
    ensures Resolve(host, h, net, nets, provider).1 == ViaProxy(host, net, nets, provider)
    ensures !ViaProxy(host, net, nets, provider) ==>
              Resolve(host, h, net, nets, provider) == Resolve(host, h', net, nets, provider) == (host, false)
  {
  }

  /** Some entry of the chain is not one of our proxies. */
  predicate Decided(parts: seq<string>, net: Net, nets: Networks) {
    exists i | 0 <= i < |parts| :: HopOf(parts[i], net, nets) != Proxy
  }

  /** Entries to the left count only when every entry to their right is one of our proxies. */
  lemma {:induction false} LeftEntries(left: seq<string>, right: seq<string>, host: string, net: Net, nets: Networks)
    ensures FromRight(left + right, host, net, nets)
         == FromRight(if Decided(right, net, nets) then right else left, host, net, nets)
  {
    hide HopOf;
    if right == [] {
      assert left + right == left;
    } else {
      var n := |right| - 1;
      assert (left + right)[..|left| + n] == left + right[..n];
      LeftEntries(left, right[..n], host, net, nets);
      if HopOf(right[n], net, nets) == Proxy {
        assert Decided(right, net, nets) == Decided(right[..n], net, nets) by {
          assert forall i | 0 <= i < n :: right[..n][i] == right[i];
        }
      }
    }
  }

  /** Header lines a client puts before the proxies' own never change the answer, unless the
      proxies' lines name nobody but themselves. */
  lemma ClientLinesIgnored(client: seq<string>, proxies: seq<string>, host: string, h: Headers,
                           net: Net, nets: Networks)
    requires client != [] && proxies != [] && Decided(Chain(proxies), net, nets)
    ensures Resolve(host, h.(forwardedFor := client + proxies), net, nets, Generic)
         == Resolve(host, h.(forwardedFor := proxies), net, nets, Generic)
  {
    hide Trusted, HopOf;
    JoinConcat(client, proxies, ',');
    SplitConcat(Join(client, ','), Join(proxies, ','), ',');
    LeftEntries(Chain(client), Chain(proxies), host, net, nets);
  }

  /** The answer is the rightmost untrusted address when everything to its right is one of our proxies. */
  lemma {:induction false} RightmostUntrusted(parts: seq<string>, i: nat, host: string, net: Net, nets: Networks)
    requires i < |parts| && HopOf(parts[i], net, nets).Client?
    requires forall j | i < j < |parts| :: HopOf(parts[j], net, nets) == Proxy
    ensures FromRight(parts, host, net, nets) == net.show(HopOf(parts[i], net, nets).ip)
  {
    hide HopOf;
    if i < |parts| - 1 { RightmostUntrusted(parts[..|parts| - 1], i, host, net, nets); }
  }

  /** The peer is one of our proxies. */
  predicate PeerTrusted(host: string, net: Net, nets: Networks) {
    net.parse(host).Some? && exists i | 0 <= i < |nets| :: nets[i](net.parse(host).value)
  }

  /** What a header with one address says: that address, or nothing when it is blank, a list or no address. */
  predicate Says(header: string, net: Net, ip: nat) {
    var v := Trim(header);
    v != "" && ',' !in v && ' ' !in v && net.parse(v) == Some(ip) && net.show(ip) != ""
  }

  /** Each provider's own header names the client, and when it names nobody the proxy stands for it; no other header
      is looked at. */
  lemma ProviderHeaders(host: string, h: Headers, net: Net, nets: Networks, ip: nat)
    requires PeerTrusted(host, net, nets)
    ensures Says(h.cfConnectingIp, net, ip) ==> Resolve(host, h, net, nets, Cloudflare) == (net.show(ip), true)
    ensures (forall x: nat :: !Says(h.cfConnectingIp, net, x)) ==> Resolve(host, h, net, nets, Cloudflare) == (host, true)
    ensures Says(h.fastlyClientIp, net, ip) ==> Resolve(host, h, net, nets, Fastly) == (net.show(ip), true)
    ensures (forall x: nat :: !Says(h.fastlyClientIp, net, x)) ==> Resolve(host, h, net, nets, Fastly) == (host, true)
  {
    SingleSays(h.cfConnectingIp, net);
    SingleSays(h.fastlyClientIp, net);
    hide SingleIp, Says;
  }

  lemma SingleSays(header: string, net: Net)
    ensures forall ip: nat :: Says(header, net, ip) ==> SingleIp(header, net) == net.show(ip) != ""
    ensures (forall ip: nat :: !Says(header, net, ip)) ==> SingleIp(header, net) == ""
  {
    hide Trim;
    var found := net.parse(Trim(header));
    if found.Some? && SingleIp(header, net) != "" { assert Says(header, net, found.value); }
  }

  /** One of our proxies, as an entry of the chain. */
  predicate OurProxy(part: string, net: Net, nets: Networks) {
    PeerTrusted(Trim(part), net, nets)
  }

  /** The entries of every X-Forwarded-For line, one after another. */
  lemma {:induction false} AllProxies(parts: seq<string>, host: string, net: Net, nets: Networks)
    requires forall part <- parts :: OurProxy(part, net, nets)
    ensures FromRight(parts, host, net, nets) == host
  {
    if parts != [] {
      var n := |parts| - 1;
      assert parts[n] in parts && forall part <- parts[..n] :: part in parts;
      AllProxies(parts[..n], host, net, nets);
    }
  }

  lemma {:induction false} FirstStranger(parts: seq<string>, i: nat, host: string, net: Net, nets: Networks)
    requires i < |parts| && !OurProxy(parts[i], net, nets)
    requires forall j | i < j < |parts| :: OurProxy(parts[j], net, nets)
    ensures FromRight(parts, host, net, nets)
         == match net.parse(Trim(parts[i])) case Some(ip) => net.show(ip) case None => host
  {
    if i < |parts| - 1 { FirstStranger(parts[..|parts| - 1], i, host, net, nets); }
  }

  /** With a generic provider the client is the rightmost entry of all lines together that is not one of our proxies,
      if it is an address at all; when there is no such address the proxy stands for it. */
  lemma GenericAddress(host: string, h: Headers, net: Net, nets: Networks)
    requires PeerTrusted(host, net, nets)
    ensures var parts := Split(Join(h.forwardedFor, ','), ',');
            && ((forall part <- parts :: OurProxy(part, net, nets)) ==> Resolve(host, h, net, nets, Generic) == (host, true))
            && forall i: nat | i < |parts| && !OurProxy(parts[i], net, nets)
                               && (forall j | i < j < |parts| :: OurProxy(parts[j], net, nets)) ::
                 Resolve(host, h, net, nets, Generic)
                 == (match net.parse(Trim(parts[i])) case Some(ip) => net.show(ip) case None => host, true)
  {
    var parts := Split(Join(h.forwardedFor, ','), ',');
    if forall part <- parts :: OurProxy(part, net, nets) { AllProxies(parts, host, net, nets); }
    forall i: nat | i < |parts| && !OurProxy(parts[i], net, nets) && (forall j | i < j < |parts| :: OurProxy(parts[j], net, nets))
      ensures FromRight(parts, host, net, nets) == match net.parse(Trim(parts[i])) case Some(ip) => net.show(ip) case None => host
    {
      FirstStranger(parts, i, host, net, nets);
    }
    hide Split, Join, Trim, FromRight;
  }
}
