/** Statements over whole runs of the handler, one request at a time. */
module HandlerRuns {
  import opened Text
  import opened Token
  import opened Handler
  import L = Limiter
  import S = Stats

  type Hash = string -> nat

  /** The gate after every request of a run, and what became of each. */
  function Run(g: Gate, run: seq<Request>, o: Options, hash: Hash): Gate {
    if run == [] then g
    else After(Run(g, run[..|run| - 1], o, hash), run[|run| - 1], o, hash)
  }

  function OutcomeAt(g: Gate, run: seq<Request>, i: nat, o: Options, hash: Hash): Outcome
    requires i < |run|
  {
    Decide(Run(g, run[..i], o, hash), run[i], o, hash)
  }

  /** Go's zero time is the first of January of the year 1, 1969 years with their leap days before Unix time begins. */
  lemma EpochIs(t: int)
    ensures var days := 1969 * 365 + 1969 / 4 - 1969 / 100 + 1969 / 400;
            var s := UnixSeconds(t) + 86400 * days;
            1_000_000_000 * s <= t < 1_000_000_000 * (s + 1)
  {
  }

  // ---- what reaches the upstream ----

  /** A request is forwarded exactly when it is not a probe, came over the proxy where that is demanded, carries a
      genuine token of the lock for a day in the window, and the lock has room for its address. (No id has a dot.) */
  lemma ForwardedIff(g: Gate, r: Request, id: string, o: Options, hash: Hash)
    requires forall i <- r.entries :: '.' !in i
    ensures var skew := if o.skewDays <= 0 then 1 else o.skewDays;
            Decide(g, r, o, hash) == Forwarded(id)
            <==> (o.onlyProxy ==> r.viaProxy) && !r.probePath && WithinCap(g, id, r, o, hash)
                 && Genuine(r.tok, id, r.entries, r.keys, S.Day(UnixSeconds(r.t)), skew)
  {
    var skew := if o.skewDays <= 0 then 1 else o.skewDays;
    PassesIffGenuine(r.tok, id, r.entries, r.keys, UnixSeconds(r.t), skew);
    hide CheckSkew, WithinCap, Genuine;
    if Checked(r, o) == (OK, id) { CheckedId(r, o); }
  }

  lemma CheckedId(r: Request, o: Options)
    ensures Checked(r, o).0 == OK ==> Checked(r, o).1 in r.entries
  {
    hide MacMatches, S.Day, ParseInt64, Split;
  }

  // ---- the limiter never decides about ordinary requests ----

  /** Statistics that agree on the day and on every lock. */
  predicate Agree(x: S.State, y: S.State) {
    x.day == y.day && x.locks == y.locks
  }

  predicate SameLocks(a: Option<S.State>, b: Option<S.State>) {
    a.Some? == b.Some? && (a.Some? ==> Agree(a.value, b.value))
  }

  lemma AgreeingRolls(x: S.State, y: S.State, id: string, now: int)
    requires Agree(x, y)
    ensures Agree(S.Roll(x, now), S.Roll(y, now)) && S.Ips(S.Roll(x, now), id) == S.Ips(S.Roll(y, now), id)
  {
    hide S.Day;
  }

  lemma AgreeingSteps(x: S.State, y: S.State, id: string, ip: nat, cap: int, maxIPs: int, now: int)
    requires Agree(x, y)
    ensures S.Allows(x, id, ip, cap, now) == S.Allows(y, id, ip, cap, now)
    ensures Agree(S.AfterAllow(x, cap, now), S.AfterAllow(y, cap, now))
    ensures Agree(S.Accept(x, id, ip, maxIPs, now), S.Accept(y, id, ip, maxIPs, now))
  {
    AgreeingRolls(x, y, id, now);
    hide S.Roll, S.Ips;
  }

  lemma AgreeingRejects(x: S.State, y: S.State, reason: string, reason': string, wall: int)
    requires Agree(x, y)
    ensures Agree(S.Reject(x, reason, wall), S.Reject(y, reason', wall))
  {
  }

  lemma AgreeingOutcomes(x: S.State, y: S.State, r: Request, o: Options, a: Outcome, b: Outcome, hash: Hash)
    requires Agree(x, y) && Counted(a)
    requires a == b || (a.Refused? && b.Refused? && (a.reason == "ip_cap" <==> b.reason == "ip_cap"))
    ensures Agree(StatsAfter(x, r, o, a, hash), StatsAfter(y, r, o, b, hash))
  {
    hide S.Reject, S.AfterAllow, S.Accept, Agree;
    var now := UnixSeconds(r.t);
    var id := if a.Forwarded? then a.id else "";
    var x', y' := S.AfterAllow(x, o.cap, now), S.AfterAllow(y, o.cap, now);
    AgreeingSteps(x, y, id, hash(r.ip), o.cap, o.maxIPs, now);
    AgreeingSteps(x', y', id, hash(r.ip), o.cap, o.maxIPs, now);
    if a.Refused? {
      AgreeingRejects(x, y, a.reason, b.reason, r.wall);
      AgreeingRejects(x', y', a.reason, b.reason, r.wall);
    }
  }

  lemma SameForwarding(g: Gate, g': Gate, r: Request, o: Options, o': Options, hash: Hash)
    requires SameLocks(g.stats, g'.stats) && !r.probePath && o' == o.(limiter := o'.limiter)
    ensures var a, b := Decide(g, r, o, hash), Decide(g', r, o', hash);
            (a.Forwarded? || b.Forwarded? ==> a == b)
            && SameLocks(After(g, r, o, hash).stats, After(g', r, o', hash).stats)
  {
    hide CheckSkew, StatsAfter, S.Allows, Agree;
    var a, b := Decide(g, r, o, hash), Decide(g', r, o', hash);
    if g.stats.Some? {
      AgreeingSteps(g.stats.value, g'.stats.value, Checked(r, o).1, hash(r.ip), o.cap, o.maxIPs, UnixSeconds(r.t));
      AgreeingOutcomes(g.stats.value, g'.stats.value, r, o, a, b, hash);
      SameSettings(g'.stats.value, r, o, o', b, hash);
    }
  }

  lemma SameSettings(s: S.State, r: Request, o: Options, o': Options, outcome: Outcome, hash: Hash)
    requires o' == o.(limiter := o'.limiter)
    ensures StatsAfter(s, r, o, outcome, hash) == StatsAfter(s, r, o', outcome, hash)
  {
  }

  /** Whatever the limiters hold and however they are configured, both gates forward the same
      requests of a run without probe paths. */
  lemma {:induction false} LimiterNeverDecides(
      g: Gate, g': Gate, run: seq<Request>, i: nat, o: Options, o': Options, hash: Hash)
    requires SameLocks(g.stats, g'.stats) && o' == o.(limiter := o'.limiter)
    requires forall r <- run :: !r.probePath
    requires i < |run|
    ensures var a, b := OutcomeAt(g, run, i, o, hash), OutcomeAt(g', run, i, o', hash);
            a.Forwarded? || b.Forwarded? ==> a == b
  {
    hide Decide;
    LocksAgree(g, g', run[..i], o, o', hash);
    SameForwarding(Run(g, run[..i], o, hash), Run(g', run[..i], o', hash), run[i], o, o', hash);
  }

  lemma {:induction false} LocksAgree(g: Gate, g': Gate, run: seq<Request>, o: Options, o': Options, hash: Hash)
    requires SameLocks(g.stats, g'.stats) && o' == o.(limiter := o'.limiter)
    requires forall r <- run :: !r.probePath
    ensures SameLocks(Run(g, run, o, hash).stats, Run(g', run, o', hash).stats)
  {
    hide Decide, After, SameLocks;
    if run != [] {
      var n := |run| - 1;
      LocksAgree(g, g', run[..n], o, o', hash);
      SameForwarding(Run(g, run[..n], o, hash), Run(g', run[..n], o', hash), run[n], o, o', hash);
    }
  }

  // ---- a block in force is never extended ----

  lemma BlockKept(m: L.Table, ip: string, until: int, failing: string, now: int, c: L.Config)
    requires ip in m && m[ip].blockedUntil == until && now < until && failing != ip
    ensures ip in L.FailStep(m, failing, now, c) && L.FailStep(m, failing, now, c)[ip] == m[ip]
  {
  }

  /** While an address is blocked, no run of requests changes when its block ends. */
  lemma {:induction false} BlockNeverExtended(g: Gate, run: seq<Request>, ip: string, o: Options, hash: Hash)
    requires g.limiter.Some? && ip in g.limiter.value
    requires forall r <- run :: r.t < g.limiter.value[ip].blockedUntil
    ensures var end := Run(g, run, o, hash).limiter;
            end.Some? && ip in end.value && end.value[ip] == g.limiter.value[ip]
  {
    hide CheckSkew, L.FailStep, S.Day, WithinCap;
    if run != [] {
      var n := |run| - 1;
      BlockNeverExtended(g, run[..n], ip, o, hash);
      var before, r := Run(g, run[..n], o, hash), run[n];
      if r.ip != ip {
        BlockKept(before.limiter.value, ip, g.limiter.value[ip].blockedUntil, r.ip, r.t, o.limiter);
      } else {
        assert IsBlocked(before, r);
      }
    }
  }

  // ---- why a request is not forwarded ----

  /** Every outcome, from what the request carries: direct connections first, then probes, then tokens. */
  lemma OutcomeIs(g: Gate, r: Request, o: Options, hash: Hash)
    requires forall i <- r.entries :: '.' !in i
    ensures var outcome := Decide(g, r, o, hash);
            var blocked := g.limiter.Some? && L.Blocked(g.limiter.value, r.ip, r.t);
            if o.onlyProxy && !r.viaProxy then outcome == Refused("not_via_cdn")
            else if r.probePath then
              outcome == if blocked then Refused("blocked") else if r.nonceMatches then ProbeAnswered else ProbeRefused
            else if Checked(r, o).0 == OK then
              outcome == if WithinCap(g, Checked(r, o).1, r, o, hash) then Forwarded(Checked(r, o).1) else Refused("ip_cap")
            else
              outcome == Refused(if blocked then "blocked" else
                match Checked(r, o).0
                case NoToken => "no_token" case BadFormat => "bad_format" case UnknownCode => "unknown_code"
                case BadDay => "bad_day" case BadMac => "bad_mac" case _ => "no_keys")
  {
    hide CheckSkew, WithinCap, L.Blocked;
  }

  /** A refusal is counted under its reason. */
  lemma RefusalCounted(g: Gate, r: Request, o: Options, hash: Hash, reason: string, d: int)
    requires g.stats.Some? && OnDay(r, d) && Decide(g, r, o, hash) == Refused(reason)
    ensures var was, s' := Today(g.stats.value, d), After(g, r, o, hash).stats.value;
            && s'.day == d && s'.locks == was.locks && s'.rejects.Keys == was.rejects.Keys + {reason}
            && (forall k <- was.rejects :: k != reason ==> s'.rejects[k] == was.rejects[k])
            && s'.rejects[reason] == 1 + (if reason in was.rejects then was.rejects[reason] else 0)
  {
    var now := UnixSeconds(r.t);
    RolledIsToday(g.stats.value, o.cap, now, d);
    RolledIsToday(g.stats.value, o.cap, r.wall, d);
    RolledIsToday(S.AfterAllow(g.stats.value, o.cap, now), o.cap, r.wall, d);
    S.RejectMeans(Today(g.stats.value, d), reason, r.wall);
    hide S.Day, Decide;
  }

  // ---- every request is counted once ----

  /** Some key, the same one for equal sets. */
  ghost function Pick(s: set<string>): (k: string)
    requires s != {}
    ensures k in s
  {
    var k :| k in s; k
  }

  ghost function Sum(m: map<string, nat>): nat {
    if m == map[] then 0 else m[Pick(m.Keys)] + Sum(m - {Pick(m.Keys)})
  }

  lemma {:induction false} SumRemove(m: map<string, nat>, k: string)
    requires k in m
    ensures Sum(m) == m[k] + Sum(m - {k})
    decreases |m|
  {
    var j := Pick(m.Keys);
    if j != k {
      assert |m.Keys - {j}| < |m.Keys| && (m - {j}).Keys == m.Keys - {j};
      assert |m.Keys - {k}| < |m.Keys| && (m - {k}).Keys == m.Keys - {k};
      SumRemove(m - {j}, k);
      SumRemove(m - {k}, j);
      assert m - {j} - {k} == m - {k} - {j};
    }
  }

  lemma SumIncrement(m: map<string, nat>, k: string)
    ensures Sum(m[k := 1 + if k in m then m[k] else 0]) == Sum(m) + 1
  {
    var m' := m[k := 1 + if k in m then m[k] else 0];
    SumRemove(m', k);
    assert m' - {k} == m - {k};
    if k in m { SumRemove(m, k); } else { assert m - {k} == m; }
  }

  ghost function Accepted(s: S.State): map<string, nat> {
    map id | id in s.locks :: s.locks[id].accepted
  }

  /** Every admission and every refusal of the day. */
  ghost function Total(s: S.State): nat {
    Sum(Accepted(s)) + Sum(s.rejects)
  }

  /** Both clocks are on one day. */
  predicate OnDay(r: Request, d: int) {
    S.Day(UnixSeconds(r.t)) == d && S.Day(r.wall) == d
  }

  /** The counters as the first count of day `d` finds them. */
  function Today(s: S.State, d: int): S.State {
    if s.day == d then s else S.State(d, map[], map[])
  }

  predicate Counted(outcome: Outcome) {
    outcome.Forwarded? || outcome.Refused?
  }

  /** A probe-path request that gets as far as the nonce check. */
  predicate ReachesNonce(g: Gate, r: Request, o: Options) {
    r.probePath && (o.onlyProxy ==> r.viaProxy) && !IsBlocked(g, r)
  }

  lemma UncountedIff(g: Gate, r: Request, o: Options, hash: Hash)
    ensures !Counted(Decide(g, r, o, hash)) <==> ReachesNonce(g, r, o)
  {
    hide CheckSkew, WithinCap;
  }

  lemma RolledIsToday(s: S.State, cap: int, now: int, d: int)
    requires S.Day(now) == d
    ensures S.Roll(s, now) == Today(s, d) && S.Roll(S.AfterAllow(s, cap, now), now) == Today(s, d)
  {
    hide S.Day;
  }

  lemma AcceptCounts(s: S.State, id: string, ip: nat, maxIPs: int, now: int)
    ensures var was, s' := S.Roll(s, now), S.Accept(s, id, ip, maxIPs, now);
            s'.day == was.day && Total(s') == Total(was) + 1
  {
    hide S.Roll, Sum;
    var was, s' := S.Roll(s, now), S.Accept(s, id, ip, maxIPs, now);
    SumIncrement(Accepted(was), id);
    assert Accepted(s') == Accepted(was)[id := 1 + if id in Accepted(was) then Accepted(was)[id] else 0];
  }

  lemma RejectCounts(s: S.State, reason: string, now: int)
    ensures var was, s' := S.Roll(s, now), S.Reject(s, reason, now);
            s'.day == was.day && Total(s') == Total(was) + 1
  {
    hide S.Roll, Sum;
    SumIncrement(S.Roll(s, now).rejects, reason);
  }

  /** The counters as the check leaves them. */
  function AfterCheck(s: S.State, r: Request, o: Options, outcome: Outcome): S.State {
    if outcome.Forwarded? || outcome == Refused("ip_cap") then S.AfterAllow(s, o.cap, UnixSeconds(r.t)) else s
  }

  /** The day on which the request is counted: the handler's for an admission, and for a refusal the one that
      counting reads from the clock again. */
  function CountingDay(r: Request, outcome: Outcome): int {
    S.Day(if outcome.Forwarded? then UnixSeconds(r.t) else r.wall)
  }

  /** Whatever the clocks say, every request adds exactly one to the admissions and refusals of the day on which it
      is counted, but for a probe that reaches the nonce check: that changes no counter. */
  lemma OneCount(g: Gate, r: Request, o: Options, hash: Hash)
    requires g.stats.Some?
    ensures var outcome, s' := Decide(g, r, o, hash), After(g, r, o, hash).stats;
            var d, was := CountingDay(r, outcome), AfterCheck(g.stats.value, r, o, outcome);
            s'.Some? && if ReachesNonce(g, r, o) then s' == g.stats
                        else s'.value.day == d && Total(s'.value) == Total(Today(was, d)) + 1
  {
    UncountedIff(g, r, o, hash);
    var outcome, now := Decide(g, r, o, hash), UnixSeconds(r.t);
    var was := AfterCheck(g.stats.value, r, o, outcome);
    RolledIsToday(was, o.cap, now, S.Day(now));
    RolledIsToday(was, o.cap, r.wall, S.Day(r.wall));
    hide S.Day, S.Roll, S.AfterAllow, S.Accept, S.Reject, Total, ReachesNonce, Decide;
    match outcome {
      case Forwarded(id) => AcceptCounts(was, id, hash(r.ip), o.maxIPs, now);
      case Refused(reason) => RejectCounts(was, reason, r.wall);
      case _ =>
    }
  }

  lemma OneCountToday(g: Gate, r: Request, o: Options, hash: Hash, d: int)
    requires g.stats.Some? && OnDay(r, d)
    ensures var s' := After(g, r, o, hash).stats;
            s'.Some? && if ReachesNonce(g, r, o) then s' == g.stats
                        else s'.value.day == d && Total(s'.value) == Total(Today(g.stats.value, d)) + 1
  {
    OneCount(g, r, o, hash);
    RolledIsToday(g.stats.value, o.cap, UnixSeconds(r.t), d);
    hide Total, ReachesNonce, After, Decide, S.Day;
  }

  ghost function CountedIn(g: Gate, run: seq<Request>, o: Options, hash: Hash): nat {
    if run == [] then 0
    else
      var before := run[..|run| - 1];
      CountedIn(g, before, o, hash) + if ReachesNonce(Run(g, before, o, hash), run[|run| - 1], o) then 0 else 1
  }

  /** Over a run within one day, whatever day was counted before it, the day's admissions and refusals are as
      many more as there were requests, but for the probes that reached the nonce check. */
  lemma {:induction false} EveryRequestCounted(g: Gate, run: seq<Request>, o: Options, hash: Hash, d: int)
    requires g.stats.Some? && forall r <- run :: OnDay(r, d)
    ensures var end := Run(g, run, o, hash).stats;
            end.Some? && Total(Today(end.value, d)) == Total(Today(g.stats.value, d)) + CountedIn(g, run, o, hash)
  {
    hide After, Total, OnDay, ReachesNonce;
    if run != [] {
      var n := |run| - 1;
      EveryRequestCounted(g, run[..n], o, hash, d);
      OneCountToday(Run(g, run[..n], o, hash), run[n], o, hash, d);
    }
  }
}
