/** The request handler of newWithClock in gate.go, driving the limiter and the statistics. */
module Handler {
  import opened Text
  import opened Token
  import L = Limiter
  import S = Stats

  /** One request as the handler sees it: `t` is the handler's clock in nanoseconds since Go's zero
      time, `wall` the clock in Unix seconds that counting a refusal reads again. */
  datatype Request = Request(
    ip: string, viaProxy: bool, probePath: bool, nonceMatches: bool,
    tok: string, entries: Entries, keys: seq<seq<bv8>>, t: int, wall: int)

  datatype Options = Options(limiter: L.Config, cap: int, maxIPs: int, onlyProxy: bool, skewDays: int)

  /** None is an absent limiter or absent statistics. */
  datatype Gate = Gate(limiter: Option<L.Table>, stats: Option<S.State>)

  datatype Outcome = Forwarded(id: string) | Refused(reason: string) | ProbeAnswered | ProbeRefused

  function UnixSeconds(t: int): int {
    t / 1_000_000_000 - 62_135_596_800
  }

  function VerdictText(v: Verdict): string {
    match v
    case OK => "ok"
    case NoToken => "no_token"
    case BadFormat => "bad_format"
    case UnknownCode => "unknown_code"
    case BadDay => "bad_day"
    case BadMac => "bad_mac"
    case NoKeys => "no_keys"
  }

  function Checked(r: Request, o: Options): (Verdict, string) {
    CheckSkew(r.tok, r.entries, r.keys, UnixSeconds(r.t), if o.skewDays <= 0 then 1 else o.skewDays)
  }

  predicate IsBlocked(g: Gate, r: Request) {
    g.limiter.Some? && L.Blocked(g.limiter.value, r.ip, r.t)
  }

  predicate WithinCap(g: Gate, id: string, r: Request, o: Options, hash: string -> nat) {
    g.stats == None || S.Allows(g.stats.value, id, hash(r.ip), o.cap, UnixSeconds(r.t))
  }

  function Decide(g: Gate, r: Request, o: Options, hash: string -> nat): Outcome {
    if o.onlyProxy && !r.viaProxy then Refused("not_via_cdn")
    else if r.probePath then
      if IsBlocked(g, r) then Refused("blocked") else if r.nonceMatches then ProbeAnswered else ProbeRefused
    else
      var (verdict, id) := Checked(r, o);
      if verdict != OK then Refused(if IsBlocked(g, r) then "blocked" else VerdictText(verdict))
      else if WithinCap(g, id, r, o, hash) then Forwarded(id) else Refused("ip_cap")
  }

  /** Only an unblocked bad token or a wrong nonce counts as a failure. */
  predicate CountsAsFailure(outcome: Outcome) {
    outcome == ProbeRefused || (outcome.Refused? && outcome.reason !in {"not_via_cdn", "blocked", "ip_cap"})
  }

  function LimiterAfter(g: Gate, r: Request, o: Options, outcome: Outcome): Option<L.Table> {
    if g.limiter.Some? && CountsAsFailure(outcome)
    then Some(L.FailStep(g.limiter.value, r.ip, r.t, o.limiter)) else g.limiter
  }

  function StatsAfter(s: S.State, r: Request, o: Options, outcome: Outcome, hash: string -> nat): S.State {
    var now := UnixSeconds(r.t);
    match outcome
    case Forwarded(id) => S.Accept(S.AfterAllow(s, o.cap, now), id, hash(r.ip), o.maxIPs, now)
    case Refused(reason) =>
      S.Reject(if reason == "ip_cap" then S.AfterAllow(s, o.cap, now) else s, reason, r.wall)
    case _ => s
  }

  function After(g: Gate, r: Request, o: Options, hash: string -> nat): Gate {
    var outcome := Decide(g, r, o, hash);
    Gate(LimiterAfter(g, r, o, outcome),
         if g.stats.Some? then Some(StatsAfter(g.stats.value, r, o, outcome, hash)) else None)
  }

  // ---- the handler ----

  class Handler {
    const o: Options
    const limiter: L.Limiter?
    const stats: S.Stats?
    const hash: string -> nat
    var upstream: seq<Request>

    constructor (o: Options, limiter: L.Limiter?, stats: S.Stats?, hash: string -> nat)
      ensures this.o == o && this.limiter == limiter && this.stats == stats && this.hash == hash
      ensures upstream == []
    {
      this.o, this.limiter, this.stats, this.hash, upstream := o, limiter, stats, hash, [];
    }

    ghost predicate Valid()
      reads this, limiter, stats
    {
      && (limiter != null ==> limiter.c == o.limiter)
      && (stats != null ==> stats.maxIPs == o.maxIPs && stats.hash == hash)
    }

    ghost function Value(): Gate
      reads limiter, stats
    {
      Gate(if limiter != null then Some(limiter.m) else None,
           if stats != null then Some(stats.Value()) else None)
    }

    method Reject(reason: string, wall: int)
      requires Valid()
      modifies stats
      ensures Valid() && (limiter != null ==> limiter.m == old(limiter.m))
      ensures stats != null ==> stats.Value() == S.Reject(old(stats.Value()), reason, wall)
    {
      if stats != null { stats.RejectFor(reason, wall); }
    }

    method Fail(ip: string, t: int)
      requires Valid()
      modifies limiter
      ensures Valid() && (stats != null ==> stats.Value() == old(stats.Value()))
      ensures limiter != null ==> limiter.m == L.FailStep(old(limiter.m), ip, t, o.limiter)
    {
      if limiter != null { limiter.Fail(ip, t); }
    }

    method ServeHTTP(r: Request) returns (outcome: Outcome)
      requires Valid()
      modifies `upstream, limiter, stats
      ensures Valid()
      ensures outcome == Decide(old(Value()), r, o, hash)
      ensures Value() == After(old(Value()), r, o, hash)
      ensures upstream == old(upstream) + if outcome.Forwarded? then [r] else []
    {
      hide CheckSkew, S.Accept, S.Reject, S.AfterAllow, S.Allows, L.FailStep;
      if o.onlyProxy && !r.viaProxy {
        Reject("not_via_cdn", r.wall);
        return Refused("not_via_cdn");
      }
      var blocked := false;
      if limiter != null { blocked := limiter.IsBlocked(r.ip, r.t); }
      if blocked && r.probePath {
        Reject("blocked", r.wall);
        return Refused("blocked");
      }
      if r.probePath {
        if r.nonceMatches { return ProbeAnswered; }
        Fail(r.ip, r.t);
        return ProbeRefused;
      }
      var skew := if o.skewDays <= 0 then 1 else o.skewDays;
      var res, id := Check(r.tok, r.entries, r.keys, UnixSeconds(r.t), skew);
      if res != OK {
        if blocked {
          Reject("blocked", r.wall);
          return Refused("blocked");
        }
        Fail(r.ip, r.t);
        Reject(VerdictText(res), r.wall);
        return Refused(VerdictText(res));
      }
      if stats != null {
        var allowed := stats.AllowIP(id, r.ip, o.cap, UnixSeconds(r.t));
        if !allowed {
          Reject("ip_cap", r.wall);
          return Refused("ip_cap");
        }
        stats.AcceptIP(id, r.ip, UnixSeconds(r.t));
      }
      upstream := upstream + [r];
      return Forwarded(id);
    }
  }
}
