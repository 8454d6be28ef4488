/** The daily cap of the gate itself, over whole runs of requests. */
module GateCap {
  import opened Text
  import opened Token
  import opened Handler
  import opened HandlerRuns
  import C = CapProtocol
  import D = DailyCap
  import S = Stats

  /** The addresses, by their hashes, of the requests that were forwarded for a lock on day `d`. */
  function ForwardedOn(g: Gate, run: seq<Request>, id: string, d: int, o: Options, hash: Hash): set<nat> {
    if run == [] then {}
    else
      var before, r := run[..|run| - 1], run[|run| - 1];
      ForwardedOn(g, before, id, d, o, hash)
      + if Decide(Run(g, before, o, hash), r, o, hash) == Forwarded(id) && Today(r) == d then {hash(r.ip)} else {}
  }

  /** The day of a request, by the handler's clock. */
  function Today(r: Request): int {
    S.Day(UnixSeconds(r.t))
  }

  /** Neither clock goes back to an earlier day, nor past day `d`. */
  predicate DaysForward(run: seq<Request>, d: int) {
    && (forall r <- run :: Today(r) <= S.Day(r.wall) <= d)
    && forall i, j | 0 <= i < j < |run| :: S.Day(run[i].wall) <= Today(run[j])
  }

  // ---- what a request does to the statistics ----

  function LimitsOf(o: Options): C.Limits {
    C.Limits(o.cap, o.maxIPs)
  }

  /** A check of the cap for a good token, and the count of a refusal. */
  function EventsOf(r: Request, outcome: Outcome, o: Options, hash: Hash): seq<D.Event> {
    var visit := D.Visit(C.Request(Checked(r, o).1, hash(r.ip)), UnixSeconds(r.t));
    if outcome.Forwarded? then [visit]
    else if outcome == Refused("ip_cap") then [visit, D.Tick(r.wall)]
    else if outcome.Refused? then [D.Tick(r.wall)] else []
  }

  function Events(g: Gate, run: seq<Request>, o: Options, hash: Hash): seq<D.Event> {
    if run == [] then []
    else
      var before, r := run[..|run| - 1], run[|run| - 1];
      Events(g, before, o, hash) + EventsOf(r, Decide(Run(g, before, o, hash), r, o, hash), o, hash)
  }

  lemma OneEvent(es: seq<D.Event>, e: D.Event, id: string, d: int, l: C.Limits)
    ensures D.After(es + [e], l) == D.Serve(D.After(es, l), e, l)
    ensures D.AdmittedOn(es + [e], id, d, l) == D.AdmittedOn(es, id, d, l) + D.Admitted(D.After(es, l), e, id, d, l)
  {
    assert (es + [e])[..|es|] == es;
  }

  lemma TickSeen(s: S.State, x: S.State, reason: string, wall: int)
    requires Agree(s, x)
    ensures Agree(S.Reject(s, reason, wall), S.Roll(x, wall))
  {
    hide S.Day;
  }

  /** The lock that a check of the cap is about, and its answer. */
  lemma CapChecked(g: Gate, r: Request, o: Options, hash: Hash)
    requires g.stats.Some?
    ensures var outcome, id := Decide(g, r, o, hash), Checked(r, o).1;
            var allowed := S.Allows(g.stats.value, id, hash(r.ip), o.cap, UnixSeconds(r.t));
            (outcome.Forwarded? ==> outcome.id == id && allowed) && (outcome == Refused("ip_cap") ==> !allowed)
  {
    hide CheckSkew, S.Allows;
  }

  lemma VisitSeen(s: S.State, x: S.State, c: C.Request, now: int, l: C.Limits, id: string, d: int)
    requires Agree(s, x)
    ensures var visit, after := D.Visit(c, now), S.AfterAllow(s, l.cap, now);
            if S.Allows(s, c.id, c.ip, l.cap, now)
            then Agree(S.Accept(after, c.id, c.ip, l.maxIPs, now), D.Serve(x, visit, l))
                 && D.Admitted(x, visit, id, d, l) == if c.id == id && S.Day(now) == d then {c.ip} else {}
            else Agree(after, D.Serve(x, visit, l)) && D.Admitted(x, visit, id, d, l) == {}
  {
    AgreeingSteps(s, x, c.id, c.ip, l.cap, l.maxIPs, now);
    AgreeingSteps(S.AfterAllow(s, l.cap, now), S.AfterAllow(x, l.cap, now), c.id, c.ip, l.cap, l.maxIPs, now);
    hide S.Day, S.AfterAllow, S.Accept, S.Allows, Agree;
  }

  /** What one outcome does to the statistics, and what it forwards. */
  lemma OutcomeSeen(s: S.State, es: seq<D.Event>, r: Request, outcome: Outcome, o: Options, hash: Hash, id: string, d: int)
    requires Agree(s, D.After(es, LimitsOf(o)))
    requires var allowed := S.Allows(s, Checked(r, o).1, hash(r.ip), o.cap, UnixSeconds(r.t));
             (outcome.Forwarded? ==> outcome.id == Checked(r, o).1 && allowed) && (outcome == Refused("ip_cap") ==> !allowed)
    ensures var l, es' := LimitsOf(o), es + EventsOf(r, outcome, o, hash);
            && Agree(StatsAfter(s, r, o, outcome, hash), D.After(es', l))
            && D.AdmittedOn(es', id, d, l)
               == D.AdmittedOn(es, id, d, l) + if outcome == Forwarded(id) && Today(r) == d then {hash(r.ip)} else {}
  {
    hide S.Day, S.AfterAllow, S.Accept, S.Reject, S.Allows, D.After, D.AdmittedOn, Agree, Checked, UnixSeconds;
    var l, now := LimitsOf(o), UnixSeconds(r.t);
    var x, c, tick := D.After(es, l), C.Request(Checked(r, o).1, hash(r.ip)), D.Tick(r.wall);
    var visit := D.Visit(c, now);
    VisitSeen(s, x, c, now, l, id, d);
    if outcome.Forwarded? {
      OneEvent(es, visit, id, d, l);
    } else if outcome == Refused("ip_cap") {
      OneEvent(es, visit, id, d, l);
      TickSeen(S.AfterAllow(s, o.cap, now), D.After(es + [visit], l), outcome.reason, r.wall);
      OneEvent(es + [visit], tick, id, d, l);
      assert es + [visit, tick] == es + [visit] + [tick];
    } else if outcome.Refused? {
      TickSeen(s, x, outcome.reason, r.wall);
      OneEvent(es, tick, id, d, l);
    } else {
      assert es + [] == es;
    }
  }

  lemma EventsSeen(g: Gate, es: seq<D.Event>, r: Request, o: Options, hash: Hash, id: string, d: int)
    requires g.stats.Some? && Agree(g.stats.value, D.After(es, LimitsOf(o)))
    ensures var l, outcome := LimitsOf(o), Decide(g, r, o, hash);
            var es', s' := es + EventsOf(r, outcome, o, hash), After(g, r, o, hash).stats;
            && s'.Some? && Agree(s'.value, D.After(es', l))
            && D.AdmittedOn(es', id, d, l)
               == D.AdmittedOn(es, id, d, l) + if outcome == Forwarded(id) && Today(r) == d then {hash(r.ip)} else {}
  {
    CapChecked(g, r, o, hash);
    OutcomeSeen(g.stats.value, es, r, Decide(g, r, o, hash), o, hash, id, d);
    hide Decide, S.Allows, D.After, D.AdmittedOn, Agree, EventsOf, StatsAfter, Today;
  }

  /** From empty statistics, the day's locks are those of these events, and what they admit is what is forwarded. */
  lemma {:induction false} StatsSee(g: Gate, run: seq<Request>, o: Options, hash: Hash, id: string, d: int)
    requires g.stats == Some(S.INITIAL)
    ensures var l, es, s := LimitsOf(o), Events(g, run, o, hash), Run(g, run, o, hash).stats;
            && s.Some? && Agree(s.value, D.After(es, l))
            && D.AdmittedOn(es, id, d, l) == ForwardedOn(g, run, id, d, o, hash)
  {
    hide Decide, After, Agree, Today, EventsOf;
    if run == [] {
      assert Agree(S.INITIAL, S.INITIAL) by { Same(S.INITIAL); }
    } else {
      var before, r := run[..|run| - 1], run[|run| - 1];
      StatsSee(g, before, o, hash, id, d);
      EventsSeen(Run(g, before, o, hash), Events(g, before, o, hash), r, o, hash, id, d);
    }
  }

  lemma Same(s: S.State)
    ensures Agree(s, s)
  {
  }

  // ---- days ----

  lemma ForwardBefore(before: seq<Request>, r: Request, d: int)
    requires DaysForward(before + [r], d)
    ensures DaysForward(before, Today(r)) && Today(r) <= S.Day(r.wall) <= d
  {
    hide S.Day;
    var run := before + [r];
    assert run[|before|] == r && forall x <- before :: x in run;
    forall x <- before ensures Today(x) <= S.Day(x.wall) <= Today(r) {
      var i :| 0 <= i < |before| && before[i] == x;
      assert run[i] == x;
    }
    assert forall i | 0 <= i < |before| :: run[i] == before[i];
  }

  predicate Ascending(es: seq<D.Event>, d: int) {
    && (forall i | 0 <= i < |es| :: S.Day(es[i].now) <= d)
    && forall i, j | 0 <= i <= j < |es| :: S.Day(es[i].now) <= S.Day(es[j].now)
  }

  lemma AscendingOne(es: seq<D.Event>, e: D.Event, a: int, d: int)
    requires Ascending(es, a) && a <= S.Day(e.now) <= d
    ensures Ascending(es + [e], d)
  {
    hide S.Day;
    var all, n := es + [e], |es|;
    assert forall i | 0 <= i < n :: all[i] == es[i];
    assert all[n] == e;
  }

  lemma AscendingMore(es: seq<D.Event>, more: seq<D.Event>, a: int, d: int)
    requires Ascending(es, a) && a <= d && |more| <= 2
    requires forall e <- more :: a <= S.Day(e.now) <= d
    requires |more| == 2 ==> S.Day(more[0].now) <= S.Day(more[1].now)
    ensures Ascending(es + more, d)
  {
    if |more| == 0 {
      assert es + more == es;
    } else if |more| == 1 {
      AscendingOne(es, more[0], a, d);
      assert more == [more[0]];
    } else {
      AscendingOne(es, more[0], a, S.Day(more[0].now));
      AscendingOne(es + [more[0]], more[1], S.Day(more[0].now), d);
      assert es + more == es + [more[0]] + [more[1]];
    }
    hide S.Day;
  }

  lemma EventsDays(r: Request, outcome: Outcome, o: Options, hash: Hash, d: int)
    requires Today(r) <= S.Day(r.wall) <= d
    ensures var more := EventsOf(r, outcome, o, hash);
            && |more| <= 2 && (forall e <- more :: Today(r) <= S.Day(e.now) <= d)
            && (|more| == 2 ==> S.Day(more[0].now) <= S.Day(more[1].now))
  {
    hide S.Day, Checked;
  }

  lemma {:induction false} EventsAscend(g: Gate, run: seq<Request>, o: Options, hash: Hash, d: int)
    requires DaysForward(run, d)
    ensures Ascending(Events(g, run, o, hash), d)
  {
    hide S.Day, Ascending, EventsOf, Today, DaysForward, Decide, Run;
    if run == [] {
      NoEvents(d);
    } else {
      var before, r := run[..|run| - 1], run[|run| - 1];
      assert run == before + [r];
      ForwardBefore(before, r, d);
      EventsAscend(g, before, o, hash, Today(r));
      var outcome := Decide(Run(g, before, o, hash), r, o, hash);
      EventsDays(r, outcome, o, hash, d);
      AscendingMore(Events(g, before, o, hash), EventsOf(r, outcome, o, hash), Today(r), d);
    }
  }

  lemma NoEvents(d: int)
    ensures Ascending([], d)
  {
  }

  // ---- the cap ----

  lemma NextIsTogether(es: seq<D.Event>, now: int)
    requires Ascending(es, S.Day(now))
    ensures D.DaysTogether(D.Clock(es)) && D.DaysTogether(D.Clock(es + [D.Tick(now)]))
  {
    hide S.Day;
    var all := es + [D.Tick(now)];
    assert forall i | 0 <= i < |es| :: all[i] == es[i];
    D.AscendingDays(D.Clock(es));
    D.AscendingDays(D.Clock(all));
  }

  /** On today's events a check of the cap sees exactly the addresses admitted today. */
  lemma SeesToday(es: seq<D.Event>, id: string, now: int, l: C.Limits)
    requires 1 <= l.cap <= l.maxIPs && Ascending(es, S.Day(now))
    ensures S.Ips(S.Roll(D.After(es, l), now), id) == D.AdmittedOn(es, id, S.Day(now), l)
    ensures |D.AdmittedOn(es, id, S.Day(now), l)| <= l.cap
  {
    hide S.Day, D.AdmittedOn, D.After, Ascending, D.DaysTogether, D.Visited;
    var all, d := es + [D.Tick(now)], S.Day(now);
    NextIsTogether(es, now);
    assert all[..|es|] == es && all[|es|] == D.Tick(now);
    D.RecordsAreAdmissions(es, id, d, l);
    if D.Visited(es, d) { D.StillThatDay(all, d); }
  }

  /** While neither clock goes back to an earlier day, and 1 <= cap <= maxIPs: a request is forwarded exactly when it
      is not a probe, came over the proxy where that is demanded, carries a genuine token, and its address was
      forwarded for that lock today or fewer than `cap` addresses were; so no lock ever has more than `cap` a day. */
  lemma GateCapIff(g: Gate, run: seq<Request>, r: Request, id: string, o: Options, hash: Hash)
    requires g.stats == Some(S.INITIAL) && 1 <= o.cap <= o.maxIPs
    requires DaysForward(run, Today(r)) && forall i <- r.entries :: '.' !in i
    ensures var skew := if o.skewDays <= 0 then 1 else o.skewDays;
            var today := ForwardedOn(g, run, id, S.Day(UnixSeconds(r.t)), o, hash);
            && |today| <= o.cap
            && (Decide(Run(g, run, o, hash), r, o, hash) == Forwarded(id)
                <==> (o.onlyProxy ==> r.viaProxy) && !r.probePath && (hash(r.ip) in today || |today| < o.cap)
                     && Genuine(r.tok, id, r.entries, r.keys, S.Day(UnixSeconds(r.t)), skew))
  {
    hide S.Roll, D.After, Events, D.AdmittedOn, ForwardedOn, Run, Ascending, DaysForward, Genuine, Decide, S.Ips;
    var now, l, es := UnixSeconds(r.t), LimitsOf(o), Events(g, run, o, hash);
    StatsSee(g, run, o, hash, id, S.Day(now));
    EventsAscend(g, run, o, hash, S.Day(now));
    SeesToday(es, id, now, l);
    AgreeingRolls(Run(g, run, o, hash).stats.value, D.After(es, l), id, now);
    ForwardedIff(Run(g, run, o, hash), r, id, o, hash);
    hide S.Day, UnixSeconds;
  }

  /** Without statistics or without a cap, only the token decides. */
  lemma NoCap(g: Gate, r: Request, id: string, o: Options, hash: Hash)
    requires (g.stats == None || o.cap <= 0) && forall i <- r.entries :: '.' !in i
    ensures var skew := if o.skewDays <= 0 then 1 else o.skewDays;
            Decide(g, r, o, hash) == Forwarded(id)
            <==> (o.onlyProxy ==> r.viaProxy) && !r.probePath
                 && Genuine(r.tok, id, r.entries, r.keys, S.Day(UnixSeconds(r.t)), skew)
  {
    hide Decide, Genuine, S.Day;
    ForwardedIff(g, r, id, o, hash);
  }
}
