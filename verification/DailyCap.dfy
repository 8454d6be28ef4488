/** The distinct-IP cap when requests run one at a time, over whole runs of visits. */
module DailyCap {
  import opened Stats
  import opened CapProtocol

  /** A whole visit (AllowIP, then accept when allowed), or anything else that rolls the day. */
  datatype Event = Visit(req: Request, now: int) | Tick(now: int)

  predicate Admits(s: State, e: Event, l: Limits) {
    e.Visit? && Allows(s, e.req.id, e.req.ip, l.cap, e.now)
  }

  function Serve(s: State, e: Event, l: Limits): State {
    match e
    case Visit(r, now) =>
      if Admits(s, e, l) then Accept(AfterAllow(s, l.cap, now), r.id, r.ip, l.maxIPs, now)
      else AfterAllow(s, l.cap, now)
    case Tick(now) => Roll(s, now)
  }

  function After(events: seq<Event>, l: Limits): State {
    if events == [] then INITIAL
    else
      Serve(After(events[..|events| - 1], l), events[|events| - 1], l)
  }

  /** The distinct IPs admitted for a lock on day `d`. */
  function AdmittedOn(events: seq<Event>, id: string, d: int, l: Limits): set<nat> {
    if events == [] then {}
    else
      var before, e := events[..|events| - 1], events[|events| - 1];
      AdmittedOn(before, id, d, l) + Admitted(After(before, l), e, id, d, l)
  }

  function Admitted(s: State, e: Event, id: string, d: int, l: Limits): set<nat> {
    if Admits(s, e, l) && e.req.id == id && Day(e.now) == d then {e.req.ip} else {}
  }

  /** The times at which the events happen. */
  function Clock(events: seq<Event>): (r: seq<int>)
    ensures |r| == |events|
  {
    seq(|events|, i requires 0 <= i < |events| => events[i].now)
  }

  /** The events of each day follow one another; days may come in any order. */
  predicate DaysTogether(times: seq<int>) {
    forall i, j, k | 0 <= i <= j <= k < |times| && Day(times[i]) == Day(times[k]) :: Day(times[j]) == Day(times[k])
  }

  /** A clock that never goes back to an earlier day keeps each day together. */
  lemma AscendingDays(times: seq<int>)
    requires forall i, j | 0 <= i <= j < |times| :: Day(times[i]) <= Day(times[j])
    ensures DaysTogether(times)
  {
    hide Day;
  }

  lemma TogetherBefore(events: seq<Event>)
    requires events != [] && DaysTogether(Clock(events))
    ensures DaysTogether(Clock(events[..|events| - 1]))
  {
    hide Day;
    var n := |events| - 1;
    var times, before := Clock(events), Clock(events[..n]);
    assert forall i | 0 <= i < n :: before[i] == times[i];
    forall i, j, k | 0 <= i <= j <= k < n && Day(before[i]) == Day(before[k]) ensures Day(before[j]) == Day(before[k]) {
      assert Day(times[i]) == Day(times[k]);
    }
  }

  predicate Visited(events: seq<Event>, d: int) {
    exists e <- events :: Day(e.now) == d
  }

  lemma ServeRecords(s: State, e: Event, id: string, d: int, l: Limits, was: set<nat>)
    requires 1 <= l.cap <= l.maxIPs && |was| <= l.cap
    requires was == if d == s.day then Ips(s, id) else {}
    ensures var s', all := Serve(s, e, l), was + Admitted(s, e, id, d, l);
            && s'.day == Day(e.now) && |all| <= l.cap
            && (d == s'.day ==> all == Ips(s', id))
  {
    hide Day;
  }

  lemma ServeElsewhere(s: State, e: Event, id: string, d: int, l: Limits)
    requires l.cap >= 1 && d != Day(e.now)
    ensures Serve(s, e, l).day == Day(e.now) && Admitted(s, e, id, d, l) == {}
  {
    hide Day;
  }

  lemma VisitedMore(events: seq<Event>, e: Event, d: int)
    ensures Visited(events + [e], d) <==> Visited(events, d) || Day(e.now) == d
  {
    hide Day;
    var all := events + [e];
    assert e in all && forall x <- events :: x in all;
  }

  lemma {:induction false} RecordsAreAdmissions(events: seq<Event>, id: string, d: int, l: Limits)
    requires 1 <= l.cap <= l.maxIPs && DaysTogether(Clock(events))
    ensures events != [] ==> After(events, l).day == Day(events[|events| - 1].now)
    ensures d == After(events, l).day ==> AdmittedOn(events, id, d, l) == Ips(After(events, l), id)
    ensures !Visited(events, d) ==> AdmittedOn(events, id, d, l) == {}
    ensures |AdmittedOn(events, id, d, l)| <= l.cap
  {
    if events != [] {
      var n := |events| - 1;
      var before, e := events[..n], events[n];
      assert events == before + [e];
      TogetherBefore(events);
      VisitedMore(before, e, d);
      hide Serve, Admitted, Day, DaysTogether, Visited;
      RecordsAreAdmissions(before, id, d, l);
      if Day(e.now) != d {
        ServeElsewhere(After(before, l), e, id, d, l);
      } else {
        if Visited(before, d) { StillThatDay(events, d); }
        ServeRecords(After(before, l), e, id, d, l, AdmittedOn(before, id, d, l));
      }
    }
  }

  lemma StillThatDay(events: seq<Event>, d: int)
    requires events != [] && DaysTogether(Clock(events)) && Day(events[|events| - 1].now) == d
    requires Visited(events[..|events| - 1], d)
    ensures |events| >= 2 && Day(events[|events| - 2].now) == d
  {
    hide Day;
    var n := |events| - 1;
    var times := Clock(events);
    var i :| 0 <= i < n && Day(events[..n][i].now) == d;
    assert Day(times[i]) == Day(times[n]) && i <= n - 1 <= n;
    assert Day(times[n - 1]) == Day(times[n]);
  }

  /** With cap <= maxIPs, and each day's events together, a lock admits at most cap distinct IPs a day. */
  lemma SequentialCap(events: seq<Event>, id: string, d: int, l: Limits)
    requires 1 <= l.cap <= l.maxIPs && DaysTogether(Clock(events))
    ensures |AdmittedOn(events, id, d, l)| <= l.cap
  {
    RecordsAreAdmissions(events, id, d, l);
  }

  /** Under the same conditions an IP admitted today is admitted again today. */
  lemma AdmittedStaysAdmitted(events: seq<Event>, r: Request, now: int, l: Limits)
    requires 1 <= l.cap <= l.maxIPs && DaysTogether(Clock(events + [Visit(r, now)]))
    requires r.ip in AdmittedOn(events, r.id, Day(now), l)
    ensures Admits(After(events, l), Visit(r, now), l)
  {
    hide Day, AdmittedOn;
    var all := events + [Visit(r, now)];
    assert all[..|events|] == events;
    TogetherBefore(all);
    RecordsAreAdmissions(events, r.id, Day(now), l);
    StillThatDay(all, Day(now));
  }

  // ---- every clock ----

  function Min(a: nat, b: nat): nat {
    if a < b then a else b
  }

  /** How many IPs day `d` can have admitted since the last event on another day. */
  function Recent(times: seq<int>, d: int, cap: nat): (r: nat)
    ensures r <= cap
  {
    if times == [] || Day(times[|times| - 1]) != d then 0
    else Min(cap, Recent(times[..|times| - 1], d, cap) + 1)
  }

  /** How many IPs day `d` can have admitted at all: cap in each run of its events, or one an event. */
  function Room(times: seq<int>, d: int, cap: nat): nat {
    if times == [] then 0
    else
      var before := times[..|times| - 1];
      Room(before, d, cap) + if Day(times[|times| - 1]) == d && Recent(before, d, cap) < cap then 1 else 0
  }

  lemma RoomStep(before: seq<int>, t: int, d: int, cap: nat)
    ensures Recent(before + [t], d, cap) == if Day(t) == d then Min(cap, Recent(before, d, cap) + 1) else 0
    ensures Room(before + [t], d, cap)
         == Room(before, d, cap) + if Day(t) == d && Recent(before, d, cap) < cap then 1 else 0
  {
    hide Day;
    assert (before + [t])[..|before|] == before;
  }

  lemma MinStep(cap: nat, n: nat)
    ensures Min(cap, 0) == 0 && Min(cap, Min(cap, n) + 1) == Min(cap, n + 1)
    ensures Min(cap, n + 1) == Min(cap, n) + if Min(cap, n) < cap then 1 else 0
  {
  }

  /** A run of events on day `d` that does not continue an earlier one adds its length, cap at most. */
  lemma {:induction false} RoomOfRun(before: seq<int>, run: seq<int>, d: int, cap: nat)
    requires (forall t <- run :: Day(t) == d) && (before == [] || Day(before[|before| - 1]) != d)
    ensures Room(before + run, d, cap) == Room(before, d, cap) + Min(cap, |run|)
    ensures Recent(before + run, d, cap) == Min(cap, |run|)
  {
    if run == [] {
      hide Day, Room;
      assert before + run == before;
    } else {
      hide Day, Room, Recent, Min;
      var n := |run| - 1;
      assert run[n] in run && forall x <- run[..n] :: x in run;
      RoomOfRun(before, run[..n], d, cap);
      RoomStep(before + run[..n], run[n], d, cap);
      MinStep(cap, n);
      assert before + run == (before + run[..n]) + [run[n]];
    }
  }

  lemma {:induction false} RoomElsewhere(before: seq<int>, run: seq<int>, d: int, cap: nat)
    requires forall t <- run :: Day(t) != d
    ensures Room(before + run, d, cap) == Room(before, d, cap)
  {
    hide Day, Room, Recent;
    if run == [] {
      assert before + run == before;
    } else {
      var shorter, t := run[..|run| - 1], run[|run| - 1];
      assert t in run && forall x <- shorter :: x in run;
      RoomElsewhere(before, shorter, d, cap);
      RoomStep(before + shorter, t, d, cap);
      assert before + run == (before + shorter) + [t];
    }
  }

  /** The recorded IPs of day `d`, when that is the day being counted. */
  function Recorded(s: State, id: string, d: int): set<nat> {
    if s.day == d then Ips(s, id) else {}
  }

  predicate Fits(recorded: set<nat>, admitted: set<nat>, recent: nat, room: nat) {
    recorded <= admitted && |recorded| <= recent && |admitted| + recent <= room + |recorded|
  }

  lemma RollRecords(s: State, id: string, now: int)
    ensures var s' := Roll(s, now); s'.day == Day(now) && Ips(s', id) == Recorded(s, id, Day(now)) && Roll(s', now) == s'
  {
    hide Day;
  }

  lemma AcceptRecords(s: State, id: string, r: Request, maxIPs: int, now: int)
    requires Roll(s, now) == s
    ensures var s' := Accept(s, r.id, r.ip, maxIPs, now);
            s'.day == s.day && Ips(s', id) == Ips(s, id) + if id == r.id && |Ips(s, id)| < maxIPs then {r.ip} else {}
  {
    hide Roll;
  }

  /** On its own day an event records what it admits; a new IP is admitted exactly while there is room. */
  lemma ServeToday(s: State, e: Event, id: string, l: Limits)
    requires 1 <= l.cap <= l.maxIPs
    ensures var d := Day(e.now);
            var was, more := Recorded(s, id, d), Admitted(s, e, id, d, l);
            Serve(s, e, l).day == d && (|was| <= l.cap ==> Recorded(Serve(s, e, l), id, d) == was + more)
            && (more == {} || more <= was || |was| < l.cap)
            && (e.Visit? && e.req.id == id && |was| < l.cap ==> more == {e.req.ip})
            && (more != {} ==> e.Visit? && more == {e.req.ip})
  {
    var d := Day(e.now);
    var was, rolled, s' := Recorded(s, id, d), Roll(s, e.now), Serve(s, e, l);
    RollRecords(s, id, e.now);
    if e.Visit? {
      RollRecords(s, e.req.id, e.now);
      if Admits(s, e, l) { AcceptRecords(rolled, id, e.req, l.maxIPs, e.now); }
    }
    hide Day, Roll, Ips, Accept;
    if e.Visit? && Admits(s, e, l) && e.req.id == id && |was| <= l.cap {
      assert |was| == l.cap ==> e.req.ip in was && was + {e.req.ip} == was;
      assert Ips(s', id) == was + {e.req.ip} || |was| == l.cap;
    }
  }

  lemma OneMore(a: set<nat>, ip: nat)
    ensures |a + {ip}| == |a| + if ip in a then 0 else 1
  {
    if ip in a { assert a + {ip} == a; }
  }

  lemma ServeFits(s: State, e: Event, id: string, d: int, l: Limits, was: set<nat>, recent: nat, room: nat)
    requires 1 <= l.cap <= l.maxIPs && recent <= l.cap && Fits(Recorded(s, id, d), was, recent, room)
    ensures var s', today := Serve(s, e, l), Day(e.now) == d;
            s'.day == Day(e.now)
            && Fits(Recorded(s', id, d), was + Admitted(s, e, id, d, l), if today then Min(l.cap, recent + 1) else 0,
                    room + if today && recent < l.cap then 1 else 0)
  {
    hide Day, Serve, Admitted;
    if Day(e.now) != d {
      ServeElsewhere(s, e, id, d, l);
      assert was + {} == was;
    } else {
      ServeToday(s, e, id, l);
      hide Recorded;
      if Admitted(s, e, id, d, l) != {} {
        OneMore(was, e.req.ip);
        OneMore(Recorded(s, id, d), e.req.ip);
      } else {
        assert was + {} == was && Recorded(s, id, d) + {} == Recorded(s, id, d);
      }
    }
  }

  /** No run of events admits more than there is room for. */
  lemma {:induction false} AdmissionsFit(events: seq<Event>, id: string, d: int, l: Limits)
    requires 1 <= l.cap <= l.maxIPs
    ensures Fits(Recorded(After(events, l), id, d), AdmittedOn(events, id, d, l),
                 Recent(Clock(events), d, l.cap), Room(Clock(events), d, l.cap))
  {
    hide Serve, Admitted, Day, Fits, Recorded;
    if events == [] {
      NothingFits(id, d);
    } else {
      var n := |events| - 1;
      var before, times := events[..n], Clock(events);
      AdmissionsFit(before, id, d, l);
      assert times[..n] == Clock(before);
      ServeFits(After(before, l), events[n], id, d, l, AdmittedOn(before, id, d, l),
                Recent(Clock(before), d, l.cap), Room(Clock(before), d, l.cap));
    }
  }

  lemma NothingFits(id: string, d: int)
    ensures Fits(Recorded(INITIAL, id, d), {}, 0, 0)
  {
  }

  /** A different IP at each of these times. */
  function Visitors(times: seq<int>): (r: seq<Event>)
    ensures |r| == |times|
  {
    seq(|times|, i requires 0 <= i < |times| => Visit(Request(LOCK, i), times[i]))
  }

  lemma Fills(was: set<nat>, recorded: set<nat>, more: set<nat>, ip: nat, cap: nat)
    requires recorded <= was && ip !in was && |recorded| <= cap && more in {{}, {ip}} && (|recorded| < cap <==> more == {ip})
    ensures recorded + more <= was + more <= was + {ip}
    ensures |recorded + more| == Min(cap, |recorded| + 1) && |was + more| == |was| + if |recorded| < cap then 1 else 0
  {
    OneMore(was, ip);
    OneMore(recorded, ip);
    assert was + {} == was && recorded + {} == recorded;
  }

  lemma ServeFills(s: State, e: Event, d: int, l: Limits, was: set<nat>, recent: nat)
    requires 1 <= l.cap <= l.maxIPs && e.Visit? && e.req.id == LOCK && e.req.ip !in was
    requires Recorded(s, LOCK, d) <= was && |Recorded(s, LOCK, d)| == recent <= l.cap
    ensures var s', today, more := Serve(s, e, l), Day(e.now) == d, Admitted(s, e, LOCK, d, l);
            Recorded(s', LOCK, d) <= was + more <= was + {e.req.ip}
            && |Recorded(s', LOCK, d)| == (if today then Min(l.cap, recent + 1) else 0)
            && |was + more| == |was| + if today && recent < l.cap then 1 else 0
  {
    hide Day, Serve, Admitted;
    if Day(e.now) != d {
      ServeElsewhere(s, e, LOCK, d, l);
      assert was + {} == was;
    } else {
      hide Recorded;
      ServeToday(s, e, LOCK, l);
      Fills(was, Recorded(s, LOCK, d), Admitted(s, e, LOCK, d, l), e.req.ip, l.cap);
    }
  }

  /** Different visitors fill it. */
  lemma {:induction false} VisitorsFill(times: seq<int>, d: int, l: Limits)
    requires 1 <= l.cap <= l.maxIPs
    ensures var s, all := After(Visitors(times), l), AdmittedOn(Visitors(times), LOCK, d, l);
            && Recorded(s, LOCK, d) <= all && (forall ip <- all :: ip < |times|)
            && |Recorded(s, LOCK, d)| == Recent(times, d, l.cap) && |all| == Room(times, d, l.cap)
  {
    hide Serve, Admitted, Day, Recorded;
    if times == [] {
      NothingFits(LOCK, d);
    } else {
      var n := |times| - 1;
      var events := Visitors(times);
      VisitorsFill(times[..n], d, l);
      assert events[..n] == Visitors(times[..n]);
      ServeFills(After(events[..n], l), events[n], d, l, AdmittedOn(events[..n], LOCK, d, l), Recent(times[..n], d, l.cap));
    }
  }

  /** At these times, whoever visits, no lock admits more than cap IPs on any day. */
  ghost predicate CapKept(times: seq<int>, l: Limits) {
    forall events, id, d | Clock(events) == times :: |AdmittedOn(events, id, d, l)| <= l.cap
  }

  /** For every day, the runs of its events have room for cap IPs together. */
  ghost predicate HasRoom(times: seq<int>, cap: nat) {
    forall d :: Room(times, d, cap) <= cap
  }

  /** Exactly the clocks that keep the cap. */
  lemma CapKeptIff(times: seq<int>, l: Limits)
    requires 1 <= l.cap <= l.maxIPs
    ensures CapKept(times, l) <==> HasRoom(times, l.cap)
  {
    hide AdmittedOn, Room, Day;
    if HasRoom(times, l.cap) {
      forall events, id, d | Clock(events) == times ensures |AdmittedOn(events, id, d, l)| <= l.cap {
        AdmissionsFit(events, id, d, l);
        assert Room(times, d, l.cap) <= l.cap;
      }
    }
    if CapKept(times, l) {
      assert Clock(Visitors(times)) == times;
      forall d ensures Room(times, d, l.cap) <= l.cap {
        VisitorsFill(times, d, l);
        assert |AdmittedOn(Visitors(times), LOCK, d, l)| <= l.cap;
      }
    }
  }

  /** `n` different IPs visiting on one day. */
  function Crowd(n: nat): seq<Event> {
    if n == 0 then [] else Crowd(n - 1) + [Visit(Request(LOCK, n - 1), 0)]
  }

  lemma {:induction false} CrowdAdmitted(n: nat, l: Limits)
    requires l.cap > l.maxIPs >= 0
    ensures AdmittedOn(Crowd(n), LOCK, 0, l) == UpTo(n)
    ensures After(Crowd(n), l).day == 0 && |Ips(After(Crowd(n), l), LOCK)| <= l.maxIPs
  {
    if n > 0 {
      hide Serve, Admitted;
      CrowdAdmitted(n - 1, l);
      CrowdSize(n);
      CrowdSize(n - 1);
      assert Crowd(n)[..n - 1] == Crowd(n - 1);
      CrowdServed(After(Crowd(n - 1), l), Visit(Request(LOCK, n - 1), 0), l);
    }
  }

  lemma CrowdServed(s: State, e: Event, l: Limits)
    requires l.cap > l.maxIPs >= 0 && s.day == 0 && |Ips(s, LOCK)| <= l.maxIPs
    requires e.Visit? && e.req.id == LOCK && e.now == 0
    ensures Serve(s, e, l).day == 0 && |Ips(Serve(s, e, l), LOCK)| <= l.maxIPs
    ensures Admitted(s, e, LOCK, 0, l) == {e.req.ip}
  {
  }

  lemma {:induction false} CrowdSize(n: nat)
    ensures |Crowd(n)| == n && forall e <- Crowd(n) :: Day(e.now) == 0
  {
    if n > 0 { CrowdSize(n - 1); }
  }

  ghost predicate CapHolds(l: Limits) {
    forall events, id, d | DaysTogether(Clock(events)) :: |AdmittedOn(events, id, d, l)| <= l.cap
  }

  lemma CrowdTogether(n: nat)
    ensures DaysTogether(Clock(Crowd(n)))
  {
    hide Day;
    CrowdSize(n);
    var events := Crowd(n);
    assert forall i | 0 <= i < |events| :: Clock(events)[i] == events[i].now && events[i] in events;
  }

  /** With each day's events together, the daily cap holds on every run exactly when it does not exceed maxIPs. */
  lemma CapHoldsIff(l: Limits)
    requires l.cap >= 1 && l.maxIPs >= 0
    ensures CapHolds(l) <==> l.cap <= l.maxIPs
  {
    hide AdmittedOn, Crowd, DaysTogether, Clock;
    if l.cap <= l.maxIPs {
      forall events, id, d | DaysTogether(Clock(events)) ensures |AdmittedOn(events, id, d, l)| <= l.cap {
        SequentialCap(events, id, d, l);
      }
    } else {
      CrowdAdmitted(l.cap + 1, l);
      CrowdSize(l.cap + 1);
      CrowdTogether(l.cap + 1);
      assert |AdmittedOn(Crowd(l.cap + 1), LOCK, 0, l)| > l.cap;
    }
  }

  /** A clock that comes back to a day after another one breaks every cap, once the day had enough events. */
  lemma ClockGoingBack(day: seq<int>, between: seq<int>, again: int, l: Limits)
    requires 1 <= l.cap <= l.maxIPs && |day| >= l.cap && between != []
    requires forall t <- day :: Day(t) == Day(again)
    requires forall t <- between :: Day(t) != Day(again)
    ensures !CapKept(day + between + [again], l)
  {
    hide Day, CapKept;
    var d := Day(again);
    RoomOfRun([], day, d, l.cap);
    assert [] + day == day;
    RoomElsewhere(day, between, d, l.cap);
    assert between[|between| - 1] in between;
    RoomOfRun(day + between, [again], d, l.cap);
    CapKeptIff(day + between + [again], l);
    assert Room(day + between + [again], d, l.cap) == l.cap + 1;
  }
}
