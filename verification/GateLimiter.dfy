/** What the handler tells the limiter, over whole runs of requests. */
module GateLimiter {
  import opened Text
  import opened Token
  import opened Handler
  import opened HandlerRuns
  import L = Limiter
  import S = Stats

  // ---- the failures of a run ----

  /** A request that guesses: a probe with a wrong nonce, or an ordinary one whose token is no lock's. */
  ghost predicate Guesses(r: Request, o: Options) {
    && (o.onlyProxy ==> r.viaProxy)
    && if r.probePath then !r.nonceMatches
       else forall id: string :: !GenuineFor(r, id, o)
  }

  ghost predicate GenuineFor(r: Request, id: string, o: Options) {
    Genuine(r.tok, id, r.entries, r.keys, S.Day(UnixSeconds(r.t)), if o.skewDays <= 0 then 1 else o.skewDays)
  }

  /** The guesses of a run that come from addresses not blocked at the time, in order. */
  ghost function Failures(run: seq<Request>, o: Options): seq<L.Failure> {
    if run == [] then []
    else
      var before, r := Failures(run[..|run| - 1], o), run[|run| - 1];
      if Guesses(r, o) && !L.Blocked(L.After(before, o.limiter), r.ip, r.t) then before + [L.Failure(r.ip, r.t)] else before
  }

  /** No id of an allow-list has a dot. */
  predicate PlainEntries(run: seq<Request>) {
    forall r <- run :: forall i <- r.entries :: '.' !in i
  }

  lemma GuessesIff(r: Request, o: Options)
    requires !r.probePath && (o.onlyProxy ==> r.viaProxy) && forall i <- r.entries :: '.' !in i
    ensures Guesses(r, o) <==> Checked(r, o).0 != OK
  {
    hide CheckSkew, Genuine, S.Day;
    var skew := if o.skewDays <= 0 then 1 else o.skewDays;
    forall id: string
      ensures CheckSkew(r.tok, r.entries, r.keys, UnixSeconds(r.t), skew) == (OK, id) <==> GenuineFor(r, id, o)
    {
      PassesIffGenuine(r.tok, id, r.entries, r.keys, UnixSeconds(r.t), skew);
    }
    var (verdict, id) := Checked(r, o);
    if verdict == OK { assert Checked(r, o) == (OK, id); }
  }

  lemma StepReports(g: Gate, r: Request, o: Options, hash: Hash)
    requires g.limiter.Some? && forall i <- r.entries :: '.' !in i
    ensures After(g, r, o, hash).limiter
         == if Guesses(r, o) && !L.Blocked(g.limiter.value, r.ip, r.t)
            then Some(L.FailStep(g.limiter.value, r.ip, r.t, o.limiter)) else g.limiter
  {
    if !r.probePath && (o.onlyProxy ==> r.viaProxy) { GuessesIff(r, o); }
    hide CheckSkew, Genuine, S.Day, L.FailStep, L.Blocked, WithinCap, StatsAfter;
  }

  /** From an empty limiter, its table after any run is that of exactly these failures. */
  lemma {:induction false} LimiterSees(g: Gate, run: seq<Request>, o: Options, hash: Hash)
    requires g.limiter == Some(map[]) && PlainEntries(run)
    ensures Run(g, run, o, hash).limiter == Some(L.After(Failures(run, o), o.limiter))
  {
    hide Guesses, L.FailStep, L.Blocked, After;
    if run != [] {
      var before, r := run[..|run| - 1], run[|run| - 1];
      assert r in run && forall x <- before :: x in run;
      LimiterSees(g, before, o, hash);
      StepReports(Run(g, before, o, hash), r, o, hash);
      var was := Failures(before, o);
      assert (was + [L.Failure(r.ip, r.t)])[..|was|] == was;
    }
  }

  // ---- how many guesses leave an address blocked ----

  /** The handler's clock does not go back. */
  predicate InOrder(run: seq<Request>, now: int) {
    && now >= L.ZERO_TIME && PlainEntries(run)
    && (forall i | 0 <= i < |run| :: L.ZERO_TIME <= run[i].t <= now)
    && forall i, j | 0 <= i < j < |run| :: run[i].t <= run[j].t
  }

  lemma FailureStep(before: seq<Request>, r: Request, o: Options)
    ensures Failures([], o) == []
    ensures var was := Failures(before, o);
            Failures(before + [r], o)
            == if Guesses(r, o) && !L.Blocked(L.After(was, o.limiter), r.ip, r.t) then was + [L.Failure(r.ip, r.t)] else was
  {
    hide Guesses, L.Blocked, L.After;
    assert (before + [r])[..|before|] == before;
  }

  lemma OrderBefore(before: seq<Request>, r: Request, now: int)
    requires InOrder(before + [r], now)
    ensures InOrder(before, r.t) && L.ZERO_TIME <= r.t <= now
  {
    var run := before + [r];
    assert run[|before|] == r && forall x <- before :: x in run;
    assert forall i | 0 <= i < |before| :: run[i] == before[i] && run[i].t <= run[|before|].t;
  }

  lemma OrderedMore(was: seq<L.Failure>, f: L.Failure, now: int)
    requires L.Ordered(was, f.time) && f.time <= now
    ensures L.Ordered(was, now) && L.Ordered(was + [f], now) && L.Ordered(was + [f], f.time)
  {
  }

  lemma OrderedTimes(was: seq<L.Failure>, now: int)
    requires L.Ordered(was, now)
    ensures forall f <- was :: f.time <= now
  {
  }

  lemma {:induction false} FailuresOrdered(run: seq<Request>, o: Options, now: int)
    requires InOrder(run, now)
    ensures L.Ordered(Failures(run, o), now)
    ensures run != [] ==> forall f <- Failures(run, o) :: f.time <= run[|run| - 1].t
  {
    hide Guesses, L.Blocked, L.After, L.Ordered, Failures;
    if run == [] {
      FailureStep([], WrongProbe(0), o);
      NoFailures(now);
    } else {
      var before, r := run[..|run| - 1], run[|run| - 1];
      assert run == before + [r];
      OrderBefore(before, r, now);
      hide InOrder;
      FailuresOrdered(before, o, r.t);
      FailureStep(before, r, o);
      OrderedMore(Failures(before, o), L.Failure(r.ip, r.t), now);
      OrderedTimes(Failures(run, o), r.t);
    }
  }

  lemma NoFailures(now: int)
    requires now >= L.ZERO_TIME
    ensures L.Ordered([], now)
  {
  }

  /** Every failure of an address found it unblocked. */
  predicate FoundFree(times: seq<int>, c: L.Config) {
    forall j | 0 < j < |times| :: L.Fold(times[..j], c).blockedUntil <= times[j]
  }

  lemma {:induction false} FailuresFoundFree(run: seq<Request>, ip: string, o: Options, now: int)
    requires InOrder(run, now)
    ensures FoundFree(L.Times(Failures(run, o), ip), o.limiter)
  {
    hide Guesses, L.Fold, L.After, L.Blocked, Failures, FoundFree, L.Times, InOrder;
    if run == [] {
      NothingFound(ip, o);
    } else {
      var before, r := run[..|run| - 1], run[|run| - 1];
      assert run == before + [r];
      OrderBefore(before, r, now);
      FailuresFoundFree(before, ip, o, r.t);
      FailuresOrdered(before, o, r.t);
      FailureStep(before, r, o);
      var was, f := Failures(before, o), L.Failure(r.ip, r.t);
      L.BlockedIsFold(was, ip, r.t, o.limiter);
      TimesMore(was, f, ip);
      if Failures(run, o) != was && r.ip == ip { OneMoreTime(L.Times(was, ip), r.t, o.limiter); }
    }
  }

  lemma NothingFound(ip: string, o: Options)
    ensures FoundFree(L.Times(Failures([], o), ip), o.limiter)
  {
  }

  lemma TimesMore(failures: seq<L.Failure>, f: L.Failure, ip: string)
    ensures L.Times(failures + [f], ip) == if f.ip == ip then L.Times(failures, ip) + [f.time] else L.Times(failures, ip)
  {
    assert (failures + [f])[..|failures|] == failures;
  }

  lemma OneMoreTime(times: seq<int>, t: int, c: L.Config)
    requires FoundFree(times, c) && (times != [] ==> L.Fold(times, c).blockedUntil <= t)
    ensures FoundFree(times + [t], c)
  {
    hide L.Fold;
    var all := times + [t];
    assert all[..|times|] == times;
    assert forall j | 0 < j < |times| :: all[..j] == times[..j] && all[j] == times[j];
  }

  /** A block that outlasts the window leaves no count to go on from: the next failure starts a window. */
  lemma AlwaysCountsOn(times: seq<int>, a: nat, c: L.Config)
    requires a < |times| && L.Sorted(times) && c.maxFails >= 1 && 0 <= c.window < c.blockFor && FoundFree(times, c)
    ensures L.CountsOn(times, a, c)
  {
    hide L.Fold, L.TripsAt, L.CountsOn;
    if !L.CountsOn(times, a, c) {
      L.StartedByTrip(times, a, c);
      TripFound(times, a, c);
      assert false;
    }
  }

  lemma TripFound(times: seq<int>, a: nat, c: L.Config)
    requires 0 < a < |times| && L.Sorted(times) && L.TripsAt(times, a - 1, c)
    ensures L.Fold(times[..a], c).blockedUntil >= times[a - 1] + c.blockFor
  {
    var before := times[..a];
    assert before[..a - 1] == times[..a - 1];
    L.TripLasts(before, a - 1, c);
  }

  lemma FreeFailuresBlock(times: seq<int>, now: int, c: L.Config)
    requires c.maxFails >= 2 && 1 <= c.window < c.blockFor && L.Sorted(times) && FoundFree(times, c)
    requires L.Dense(times, 2 * c.maxFails - 2, now, c) && times[|times| - 1] <= now
    ensures now < L.Fold(times, c).blockedUntil
  {
    var a := |times| - (2 * c.maxFails - 2);
    AlwaysCountsOn(times, a, c);
    L.CountsOnTrips(times, a, c);
    var j :| a <= j < |times| && L.TripsAt(times, j, c);
    hide L.TripsAt;
    L.TripLasts(times, j, c);
  }

  /** `n` failures of an address within one window leave it blocked in the gate, in every run. */
  ghost predicate GateBlocks(n: nat, o: Options, hash: Hash) {
    forall g: Gate, run, ip, now | g.limiter == Some(map[]) && InOrder(run, now) :: BlocksThere(n, g, run, ip, now, o, hash)
  }

  ghost predicate BlocksThere(n: nat, g: Gate, run: seq<Request>, ip: string, now: int, o: Options, hash: Hash) {
    L.Dense(L.Times(Failures(run, o), ip), n, now, o.limiter) ==>
      var after := Run(g, run, o, hash).limiter; after.Some? && L.Blocked(after.value, ip, now)
  }

  /** How many, when a block outlasts the window. */
  function GateThreshold(c: L.Config): int {
    if c.window == 0 || c.maxFails == 1 then c.maxFails else 2 * c.maxFails - 2
  }

  lemma DenseBlocks(n: nat, times: seq<int>, now: int, c: L.Config)
    requires c.maxFails >= 1 && 0 <= c.window < c.blockFor && n >= GateThreshold(c)
    requires L.Sorted(times) && FoundFree(times, c) && L.Dense(times, n, now, c) && times != [] && times[|times| - 1] <= now
    ensures now < L.Fold(times, c).blockedUntil
  {
    hide L.Fold, FoundFree;
    if c.window == 0 { L.EmptyWindow(times, now, c); }
    else if c.maxFails == 1 { L.LongBlocks(times, now, c); }
    else { FreeFailuresBlock(times, now, c); }
  }

  lemma DenseIsSome(n: nat, times: seq<int>, now: int, c: L.Config)
    requires c.maxFails >= 1 && n >= GateThreshold(c) && L.Dense(times, n, now, c)
    ensures times != []
  {
  }

  lemma GuessesBlock(n: nat, g: Gate, run: seq<Request>, ip: string, now: int, o: Options, hash: Hash)
    requires var c := o.limiter; c.maxFails >= 1 && 0 <= c.window < c.blockFor && n >= GateThreshold(c)
    requires g.limiter == Some(map[]) && InOrder(run, now)
    ensures BlocksThere(n, g, run, ip, now, o, hash)
  {
    hide L.Fold, L.After, L.Blocked, L.Times, L.Dense, Failures, FoundFree, Run, L.Sorted, L.Ordered, GateThreshold;
    var failures := Failures(run, o);
    var times := L.Times(failures, ip);
    if L.Dense(times, n, now, o.limiter) {
      LimiterSees(g, run, o, hash);
      FailuresOrdered(run, o, now);
      FailuresFoundFree(run, ip, o, now);
      L.TimesOrdered(failures, ip, now);
      L.BlockedIsFold(failures, ip, now, o.limiter);
      DenseIsSome(n, times, now, o.limiter);
      assert times[|times| - 1] in times;
      DenseBlocks(n, times, now, o.limiter);
    }
  }

  lemma GuessesAreBlocked(n: nat, o: Options, hash: Hash)
    requires var c := o.limiter; c.maxFails >= 1 && 0 <= c.window < c.blockFor && n >= GateThreshold(c)
    ensures GateBlocks(n, o, hash)
  {
    hide BlocksThere, InOrder, GateThreshold;
    forall g: Gate, run, ip, now | g.limiter == Some(map[]) && InOrder(run, now) ensures BlocksThere(n, g, run, ip, now, o, hash) {
      GuessesBlock(n, g, run, ip, now, o, hash);
    }
  }

  // ---- and that fewer do not ----

  /** A probe with a wrong nonce, over the proxy. */
  function WrongProbe(t: int): Request {
    Request("a", true, true, false, "", map[], [], t, 0)
  }

  function Probes(times: seq<int>): seq<Request> {
    seq(|times|, i requires 0 <= i < |times| => WrongProbe(times[i]))
  }

  lemma ProbeGuesses(t: int, o: Options)
    ensures Guesses(WrongProbe(t), o)
  {
  }

  lemma {:induction false} FreeBefore(times: seq<int>, c: L.Config)
    requires FoundFree(times, c) && times != []
    ensures FoundFree(times[..|times| - 1], c)
  {
    hide L.Fold;
    var n := |times| - 1;
    assert forall j | 0 < j < n :: times[..n][..j] == times[..j];
  }

  /** Probes that never block their address are all reported. */
  lemma {:induction false} ProbesReported(times: seq<int>, o: Options)
    requires FoundFree(times, o.limiter) && L.Sorted(times) && (times != [] ==> times[0] >= L.ZERO_TIME)
    ensures Failures(Probes(times), o) == L.OneAddress(times, "a")
  {
    hide L.Fold, L.After, L.Blocked, Guesses, Failures;
    if times == [] {
      FailureStep([], WrongProbe(0), o);
    } else {
      var n := |times| - 1;
      var before, run, t := times[..n], Probes(times), times[n];
      assert n > 0 ==> L.Fold(times[..n], o.limiter).blockedUntil <= times[n];
      FreeBefore(times, o.limiter);
      hide FoundFree;
      ProbesReported(before, o);
      assert run == Probes(before) + [WrongProbe(t)];
      ProbeGuesses(t, o);
      FailureStep(Probes(before), WrongProbe(t), o);
      var was := L.OneAddress(before, "a");
      L.OneAddressTimes(before, "a");
      L.BlockedIsFold(was, "a", t, o.limiter);
      assert L.OneAddress(times, "a") == was + [L.Failure("a", t)];
    }
  }

  lemma TooFewGuesses(times: seq<int>, n: nat, now: int, o: Options, hash: Hash)
    requires FoundFree(times, o.limiter) && L.Sorted(times) && now >= L.ZERO_TIME
    requires times != [] ==> L.ZERO_TIME <= times[0] && times[|times| - 1] <= now && L.Fold(times, o.limiter).blockedUntil <= now
    requires L.Dense(times, n, now, o.limiter)
    ensures !GateBlocks(n, o, hash)
  {
    hide L.Fold, L.After, L.Blocked, Failures, Run, FoundFree, L.Dense, L.Times;
    var g, run := Gate(Some(map[]), None), Probes(times);
    ProbesReported(times, o);
    assert InOrder(run, now);
    LimiterSees(g, run, o, hash);
    L.OneAddressTimes(times, "a");
    L.BlockedIsFold(L.OneAddress(times, "a"), "a", now, o.limiter);
    assert !BlocksThere(n, g, run, "a", now, o, hash);
  }

  /** A history whose block never starts has none at any point. */
  lemma NeverBlocked(times: seq<int>, c: L.Config)
    requires times != [] && L.Sorted(times) && times[0] >= L.ZERO_TIME && c.blockFor > 0
    requires L.Fold(times, c).blockedUntil == L.ZERO_TIME
    ensures FoundFree(times, c)
  {
    forall j | 0 < j < |times| ensures L.Fold(times[..j], c).blockedUntil <= times[j] {
      BlockComes(times[..j], c);
      if k :| 0 <= k < j && L.TripsAt(times[..j], k, c) {
        assert times[..j][..k] == times[..k];
        L.TripLasts(times, k, c);
        assert false;
      }
    }
  }

  /** Only a trip starts a block. */
  lemma {:induction false} BlockComes(times: seq<int>, c: L.Config)
    requires times != []
    ensures L.Fold(times, c).blockedUntil == L.ZERO_TIME || exists k | 0 <= k < |times| :: L.TripsAt(times, k, c)
  {
    var n := |times| - 1;
    if !L.TripsAt(times, n, c) && n > 0 {
      var before := times[..n];
      BlockComes(before, c);
      if k :| 0 <= k < n && L.TripsAt(before, k, c) {
        assert before[..k] == times[..k];
        assert L.TripsAt(times, k, c);
      }
    }
  }

  /** The exact number for the gate, where a blocked address adds no failures: with blocks that outlast the window,
      2 * MaxFails - 2 guesses within a window always leave the address blocked, and fewer need not. */
  lemma GateBlocksIff(n: nat, o: Options, hash: Hash)
    requires var c := o.limiter; c.maxFails >= 1 && 0 <= c.window < c.blockFor
    ensures GateBlocks(n, o, hash) <==> n >= GateThreshold(o.limiter)
  {
    var c := o.limiter;
    hide GateBlocks;
    if n >= GateThreshold(c) {
      GuessesAreBlocked(n, o, hash);
    } else if n < c.maxFails {
      if n == 0 {
        TooFewGuesses([], 0, 0, o, hash);
      } else {
        L.AtOnce(n, c);
        NeverBlocked(L.Repeat(0, n), c);
        hide L.Fold;
        TooFewGuesses(L.Repeat(0, n), n, 0, o, hash);
      }
    } else {
      L.NeverTrips(c);
      var times := L.Untripped(c);
      NeverBlocked(times, c);
      hide L.Fold;
      TooFewGuesses(times, n, c.window + 1, o, hash);
    }
  }
}
