/** The per-IP failure limiter of limiter.go. Times are nanoseconds since Go's zero time, which is 0. */
module Limiter {

  datatype Bucket = Bucket(fails: int, windowStart: int, blockedUntil: int)
  datatype Config = Config(maxFails: int, window: int, blockFor: int)
  type Table = map<string, Bucket>

  const ZERO_TIME := 0
  const CAPACITY := 100000

  predicate Stale(b: Bucket, now: int, c: Config) {
    now > b.blockedUntil && now - b.windowStart > c.window
  }

  function Prune(m: Table, now: int, c: Config): Table {
    map ip | ip in m && !Stale(m[ip], now, c) :: m[ip]
  }

  function NewBucket(now: int): Bucket {
    Bucket(0, now, ZERO_TIME)
  }

  /** One failure at `now` counted in a bucket. */
  function Count(b: Bucket, now: int, c: Config): Bucket {
    var b := if now - b.windowStart > c.window then b.(fails := 0, windowStart := now) else b;
    if b.fails + 1 >= c.maxFails then Bucket(0, now, now + c.blockFor) else b.(fails := b.fails + 1)
  }

  /** A failure in the limiter that never deletes a bucket. */
  function FailKeeping(m: Table, ip: string, now: int, c: Config): Table {
    m[ip := Count(if ip in m then m[ip] else NewBucket(now), now, c)]
  }

  /** A failure in the limiter of the source, which prunes first when the table is large. */
  function FailStep(m: Table, ip: string, now: int, c: Config): Table {
    FailKeeping(if |m| > CAPACITY then Prune(m, now, c) else m, ip, now, c)
  }

  predicate Blocked(m: Table, ip: string, now: int) {
    ip in m && now < m[ip].blockedUntil
  }

  /** A failure of one address leaves the buckets of the others alone, but for old ones in a table of more than a
      hundred thousand: there it keeps exactly those that block, or count failures of a window not yet over. */
  lemma OthersPruned(m: Table, ip: string, now: int, c: Config, other: string)
    requires other != ip
    ensures other in FailStep(m, ip, now, c)
       <==> other in m && (|m| <= 100000 || now <= m[other].blockedUntil || now <= m[other].windowStart + c.window)
    ensures other in FailStep(m, ip, now, c) ==> FailStep(m, ip, now, c)[other] == m[other]
  {
    hide Count;
  }

  class Limiter {
    const c: Config
    var m: Table

    constructor (maxFails: int, window: int, blockFor: int)
      ensures c == Config(maxFails, window, blockFor) && m == map[]
    {
      c := Config(maxFails, window, blockFor);
      m := map[];
    }

    method IsBlocked(ip: string, now: int) returns (blocked: bool)
      ensures blocked == Blocked(m, ip, now)
    {
      blocked := ip in m && now < m[ip].blockedUntil;
    }

    method Fail(ip: string, now: int)
      modifies `m
      ensures m == FailStep(old(m), ip, now, c)
    {
      if |m| > CAPACITY {
        var todo := m.Keys;
        while todo != {}
          invariant todo <= old(m).Keys
          invariant m == map k | k in old(m) && (k in todo || !Stale(old(m)[k], now, c)) :: old(m)[k]
          decreases todo
        {
          var k :| k in todo;
          todo := todo - {k};
          if now > m[k].blockedUntil && now - m[k].windowStart > c.window {
            m := m - {k};
          }
        }
        assert m == Prune(old(m), now, c);
      }
      if ip !in m {
        m := m[ip := Bucket(0, now, ZERO_TIME)];
      }
      var b := m[ip];
      if now - b.windowStart > c.window {
        b := b.(fails := 0, windowStart := now);
      }
      b := b.(fails := b.fails + 1);
      if b.fails >= c.maxFails {
        b := b.(blockedUntil := now + c.blockFor);
        b := b.(fails := 0, windowStart := now);
      }
      m := m[ip := b];
    }
  }

  // ---- runs ----

  datatype Failure = Failure(ip: string, time: int)

  function After(run: seq<Failure>, c: Config): Table {
    if run == [] then map[]
    else var f := run[|run| - 1]; FailStep(After(run[..|run| - 1], c), f.ip, f.time, c)
  }

  function AfterKeeping(run: seq<Failure>, c: Config): Table {
    if run == [] then map[]
    else var f := run[|run| - 1]; FailKeeping(AfterKeeping(run[..|run| - 1], c), f.ip, f.time, c)
  }

  /** Clocks do not go back, and every time is after the zero time. */
  predicate Ordered(run: seq<Failure>, now: int) {
    && now >= ZERO_TIME
    && (forall i | 0 <= i < |run| :: ZERO_TIME <= run[i].time <= now)
    && forall i, j | 0 <= i < j < |run| :: run[i].time <= run[j].time
  }

  // ---- pruning is invisible ----

  /** A bucket that no longer blocks and whose window is over. */
  predicate Spent(b: Bucket, now: int, c: Config) {
    b.blockedUntil <= now && now - b.windowStart > c.window
  }

  /** Equal counts; equal blocks, unless both have expired. */
  predicate Alike(a: Bucket, b: Bucket, now: int) {
    && a.fails == b.fails && a.windowStart == b.windowStart
    && (a.blockedUntil == b.blockedUntil || (a.blockedUntil <= now && b.blockedUntil <= now))
  }

  predicate Simulates(pruned: Table, full: Table, now: int, c: Config) {
    && (forall ip | ip in pruned :: ip in full && Alike(pruned[ip], full[ip], now))
    && (forall ip | ip in full && ip !in pruned :: Spent(full[ip], now, c))
  }

  lemma FailSimulates(pruned: Table, full: Table, before: int, ip: string, now: int, c: Config)
    requires Simulates(pruned, full, before, c) && ZERO_TIME <= before <= now
    ensures Simulates(FailStep(pruned, ip, now, c), FailKeeping(full, ip, now, c), now, c)
  {
    var kept := if |pruned| > CAPACITY then Prune(pruned, now, c) else pruned;
    assert Simulates(kept, full, now, c);
  }

  lemma {:induction false} RunSimulates(run: seq<Failure>, now: int, c: Config)
    requires Ordered(run, now)
    ensures Simulates(After(run, c), AfterKeeping(run, c), now, c)
  {
    if run != [] {
      var f := run[|run| - 1];
      RunSimulates(run[..|run| - 1], f.time, c);
      FailSimulates(After(run[..|run| - 1], c), AfterKeeping(run[..|run| - 1], c), f.time, f.ip, f.time, c);
    }
  }

  /** Deleting stale buckets never changes an answer. */
  lemma PruningIsInvisible(run: seq<Failure>, ip: string, now: int, c: Config)
    requires Ordered(run, now)
    ensures Blocked(After(run, c), ip, now) == Blocked(AfterKeeping(run, c), ip, now)
  {
    RunSimulates(run, now, c);
  }

  // ---- one IP at a time ----

  function Times(run: seq<Failure>, ip: string): seq<int> {
    if run == [] then []
    else
      var f := run[|run| - 1];
      Times(run[..|run| - 1], ip) + if f.ip == ip then [f.time] else []
  }

  /** The bucket an IP has after failures at `times`. */
  function Fold(times: seq<int>, c: Config): Bucket
    requires times != []
  {
    var now := times[|times| - 1];
    Count(if |times| == 1 then NewBucket(now) else Fold(times[..|times| - 1], c), now, c)
  }

  lemma {:induction false} KeepingIsFold(run: seq<Failure>, ip: string, c: Config)
    ensures ip in AfterKeeping(run, c) <==> Times(run, ip) != []
    ensures ip in AfterKeeping(run, c) ==> AfterKeeping(run, c)[ip] == Fold(Times(run, ip), c)
  {
    if run != [] {
      KeepingIsFold(run[..|run| - 1], ip, c);
      var before := Times(run[..|run| - 1], ip);
      if run[|run| - 1].ip == ip {
        assert Times(run, ip) == before + [run[|run| - 1].time];
        assert Times(run, ip)[..|before|] == before;
      } else {
        assert Times(run, ip) == before;
      }
    }
  }

  predicate Sorted(times: seq<int>) {
    forall i, j | 0 <= i < j < |times| :: times[i] <= times[j]
  }

  lemma {:induction false} TimesOrdered(run: seq<Failure>, ip: string, now: int)
    requires Ordered(run, now)
    ensures Sorted(Times(run, ip))
    ensures forall t <- Times(run, ip) :: ZERO_TIME <= t <= now
  {
    if run != [] {
      var before := Times(run[..|run| - 1], ip);
      TimesOrdered(run[..|run| - 1], ip, run[|run| - 1].time);
      assert forall i | 0 <= i < |before| :: before[i] in before;
    }
  }

  // ---- a block needs MaxFails failures close together ----

  /** Failure `last` ends MaxFails failures within one window, and its block still runs at `now`. */
  predicate Burst(times: seq<int>, last: nat, now: int, c: Config) {
    && c.maxFails - 1 <= last < |times|
    && (c.maxFails >= 1 ==> times[last] - times[last - c.maxFails + 1] <= c.window)
    && now < times[last] + c.blockFor
  }

  /** The counted failures are the latest ones, none before the window started. */
  lemma {:induction false} FoldCounts(times: seq<int>, c: Config)
    requires times != [] && Sorted(times) && c.maxFails >= 1
    ensures var b := Fold(times, c);
            && 0 <= b.fails < c.maxFails && b.fails <= |times|
            && b.windowStart <= times[|times| - 1]
            && (forall i | |times| - b.fails <= i < |times| :: b.windowStart <= times[i])
  {
    if |times| > 1 { FoldCounts(times[..|times| - 1], c); }
  }

  /** A burst in a shorter history is one in the longer history. */
  lemma BurstStays(times: seq<int>, n: nat, now: int, c: Config, last: nat)
    requires n <= |times| && last < n && Burst(times[..n], last, now, c)
    ensures Burst(times, last, now, c)
  {
  }

  lemma TripIsBurst(times: seq<int>, now: int, c: Config, b: Bucket)
    requires times != [] && Sorted(times) && c.maxFails >= 1 && c.window >= 0
    requires var n := |times| - 1; Trips(b, times[n], c) && now < times[n] + c.blockFor
    requires var n := |times| - 1;
      0 <= b.fails <= n && (forall i | n - b.fails <= i < n :: b.windowStart <= times[i])
    ensures Burst(times, |times| - 1, now, c)
  {
    var n := |times| - 1;
    var first := n - c.maxFails + 1;
    if first < n { assert b.windowStart <= times[first]; }
  }

  lemma {:induction false} BlockNeedsBurst(times: seq<int>, now: int, c: Config)
    requires times != [] && Sorted(times) && times[|times| - 1] <= now
    requires c.maxFails >= 1 && c.window >= 0 && now >= ZERO_TIME
    requires now < Fold(times, c).blockedUntil
    ensures exists last: nat | last < |times| :: Burst(times, last, now, c)
  {
    var n := |times|;
    var t := times[n - 1];
    var b := if n == 1 then NewBucket(t) else Fold(times[..n - 1], c);
    if n > 1 { FoldCounts(times[..n - 1], c); }
    if Fold(times, c) == Bucket(0, t, t + c.blockFor) && now < t + c.blockFor && Trips(b, t, c) {
      hide Fold, Trips, Burst;
      TripIsBurst(times, now, c, b);
    } else {
      assert n > 1;
      hide Burst;
      BlockNeedsBurst(times[..n - 1], now, c);
      var last: nat :| last < n - 1 && Burst(times[..n - 1], last, now, c);
      BurstStays(times, n - 1, now, c, last);
    }
  }

  predicate Trips(b: Bucket, now: int, c: Config) {
    (if now - b.windowStart > c.window then 0 else b.fails) + 1 >= c.maxFails
  }

  /** An IP is refused at `now` only after MaxFails of its failures within one window. */
  lemma BlockedOnlyAfterBurst(run: seq<Failure>, ip: string, now: int, c: Config)
    requires Ordered(run, now) && c.maxFails >= 1 && c.window >= 0
    requires Blocked(After(run, c), ip, now)
    ensures exists last: nat | last < |Times(run, ip)| :: Burst(Times(run, ip), last, now, c)
  {
    PruningIsInvisible(run, ip, now, c);
    KeepingIsFold(run, ip, c);
    TimesOrdered(run, ip, now);
    assert Times(run, ip)[|Times(run, ip)| - 1] in Times(run, ip);
    BlockNeedsBurst(Times(run, ip), now, c);
  }

  // ---- 2 * MaxFails - 1 failures within one window always block ----

  /** Without a trip among the failures from `a` on, the count grows, dropping at most once. */
  lemma {:induction false} QuietCount(times: seq<int>, a: nat, c: Config)
    requires a < |times| && Sorted(times) && c.maxFails >= 1 && c.window >= 0
    requires times[|times| - 1] - times[a] <= c.window
    requires forall j | a <= j < |times| :: !TripsAt(times, j, c)
    ensures var b := Fold(times, c);
            || b.fails >= |times| - a
            || (b.windowStart >= times[a] && b.fails >= |times| - a - c.maxFails + 1)
  {
    var n := |times|;
    var before := times[..n - 1];
    assert !TripsAt(times, n - 1, c);
    if n > 1 {
      FoldCounts(before, c);
      if a < n - 1 {
        forall j | a <= j < n - 1 ensures !TripsAt(before, j, c) {
          assert times[..j] == before[..j];
          assert !TripsAt(times, j, c);
        }
        QuietCount(before, a, c);
      }
    }
  }

  /** The bucket that failure `j` finds. */
  function Found(times: seq<int>, j: nat, c: Config): Bucket
    requires j < |times|
  {
    if j == 0 then NewBucket(times[0]) else Fold(times[..j], c)
  }

  predicate TripsAt(times: seq<int>, j: nat, c: Config)
    requires j < |times|
  {
    Trips(Found(times, j, c), times[j], c)
  }

  lemma ManyFailuresTrip(times: seq<int>, a: nat, c: Config)
    requires Sorted(times) && c.maxFails >= 1 && c.window >= 0
    requires |times| == a + 2 * c.maxFails - 1
    requires times[|times| - 1] - times[a] <= c.window
    ensures exists j | a <= j < |times| :: TripsAt(times, j, c)
  {
    if forall j | a <= j < |times| :: !TripsAt(times, j, c) {
      QuietCount(times, a, c);
      FoldCounts(times, c);
      assert false;
    }
  }

  lemma {:induction false} TripLasts(times: seq<int>, j: nat, c: Config)
    requires j < |times| && Sorted(times) && TripsAt(times, j, c)
    ensures Fold(times, c).blockedUntil >= times[j] + c.blockFor
  {
    var n := |times|;
    if j < n - 1 {
      var before := times[..n - 1];
      assert before[..j] == times[..j];
      TripLasts(before, j, c);
    }
  }

  /** 2 * MaxFails - 1 failures of one IP within a window block it, whatever came before. */
  lemma ManyFailuresBlock(run: seq<Failure>, ip: string, a: nat, last: int, c: Config)
    requires Ordered(run, last) && c.maxFails >= 1 && c.window >= 0
    requires |Times(run, ip)| == a + 2 * c.maxFails - 1
    requires Times(run, ip)[|Times(run, ip)| - 1] - Times(run, ip)[a] <= c.window
    ensures exists j | a <= j < |Times(run, ip)| ::
              forall now | last <= now < Times(run, ip)[j] + c.blockFor :: Blocked(After(run, c), ip, now)
  {
    var times := Times(run, ip);
    TimesOrdered(run, ip, last);
    ManyFailuresTrip(times, a, c);
    var j :| a <= j < |times| && TripsAt(times, j, c);
    TripLasts(times, j, c);
    KeepingIsFold(run, ip, c);
    forall now | last <= now < times[j] + c.blockFor ensures Blocked(After(run, c), ip, now) {
      PruningIsInvisible(run, ip, now, c);
    }
    assert a <= j < |times| && forall now | last <= now < times[j] + c.blockFor :: Blocked(After(run, c), ip, now);
  }

  // ---- how many failures always leave an address blocked ----

  /** At least `n` of the failures at `times` lie within one window before `now`. */
  predicate Dense(times: seq<int>, n: nat, now: int, c: Config) {
    |times| >= n && (n > 0 ==> now - times[|times| - n] <= c.window)
  }

  /** `n` failures of an address within one window leave it blocked, in every run. */
  ghost predicate AlwaysBlocked(n: nat, c: Config) {
    forall run, ip, now | Ordered(run, now) && Dense(Times(run, ip), n, now, c) :: Blocked(After(run, c), ip, now)
  }

  /** What the limiter says about an address, from the times of its failures. */
  lemma BlockedIsFold(run: seq<Failure>, ip: string, now: int, c: Config)
    requires Ordered(run, now)
    ensures var times := Times(run, ip);
            Blocked(After(run, c), ip, now) <==> times != [] && now < Fold(times, c).blockedUntil
  {
    PruningIsInvisible(run, ip, now, c);
    KeepingIsFold(run, ip, c);
  }

  /** 2 * MaxFails - 1 failures within a window are enough when blocks outlast the window. */
  lemma LongBlocks(times: seq<int>, now: int, c: Config)
    requires c.maxFails >= 1 && 0 <= c.window < c.blockFor
    requires Sorted(times) && Dense(times, 2 * c.maxFails - 1, now, c)
    requires times[|times| - 1] <= now
    ensures now < Fold(times, c).blockedUntil
  {
    var a := |times| - (2 * c.maxFails - 1);
    ManyFailuresTrip(times, a, c);
    var j :| a <= j < |times| && TripsAt(times, j, c);
    TripLasts(times, j, c);
  }

  /** Failure `a` counts on top of an earlier one, or starts a window. */
  predicate CountsOn(times: seq<int>, a: nat, c: Config)
    requires a < |times|
  {
    var b := Found(times, a, c);
    a == 0 || b.fails >= 1 || times[a] - b.windowStart > c.window
  }

  /** Then the count grows without a trip, and drops at most once, one failure earlier than in QuietCount. */
  lemma {:induction false} QuietCountOn(times: seq<int>, a: nat, c: Config)
    requires a < |times| && Sorted(times) && c.maxFails >= 2 && c.window >= 0
    requires times[|times| - 1] - times[a] <= c.window
    requires forall j | a <= j < |times| :: !TripsAt(times, j, c)
    requires CountsOn(times, a, c)
    ensures var b := Fold(times, c);
            || b.fails >= |times| - a + 1
            || (b.windowStart >= times[a] && b.fails >= |times| - a - c.maxFails + 2)
  {
    var n := |times|;
    var before := times[..n - 1];
    assert !TripsAt(times, n - 1, c);
    if n > 1 { FoldCounts(before, c); }
    if a < n - 1 {
      assert times[..a] == before[..a];
      forall j | a <= j < n - 1 ensures !TripsAt(before, j, c) {
        assert times[..j] == before[..j];
        assert !TripsAt(times, j, c);
      }
      QuietCountOn(before, a, c);
    }
  }

  /** A count of zero is left by a trip at the last failure, and by nothing else. */
  lemma ZeroIsTrip(times: seq<int>, c: Config)
    requires times != [] && Sorted(times) && c.maxFails >= 1 && Fold(times, c).fails == 0
    ensures Fold(times, c).windowStart == times[|times| - 1] && TripsAt(times, |times| - 1, c)
  {
    if |times| > 1 { FoldCounts(times[..|times| - 1], c); }
  }

  lemma CountsOnTrips(times: seq<int>, a: nat, c: Config)
    requires c.maxFails >= 2 && c.window >= 0 && Sorted(times) && |times| == a + 2 * c.maxFails - 2
    requires times[|times| - 1] - times[a] <= c.window && CountsOn(times, a, c)
    ensures exists j | a <= j < |times| :: TripsAt(times, j, c)
  {
    if forall j | a <= j < |times| :: !TripsAt(times, j, c) {
      QuietCountOn(times, a, c);
      FoldCounts(times, c);
      assert false;
    }
  }

  lemma StartedByTrip(times: seq<int>, a: nat, c: Config)
    requires a < |times| && Sorted(times) && c.maxFails >= 1 && !CountsOn(times, a, c)
    ensures a > 0 && times[a] - times[a - 1] <= c.window && TripsAt(times, a - 1, c)
  {
    var before := times[..a];
    FoldCounts(before, c);
    ZeroIsTrip(before, c);
    assert before[..a - 1] == times[..a - 1];
  }

  /** One failure fewer is enough when blocks outlast two windows: the count can only have started at zero
      with a block that still runs. */
  lemma LongerBlocks(times: seq<int>, now: int, c: Config)
    requires c.maxFails >= 2 && c.window >= 0 && c.blockFor > 2 * c.window
    requires Sorted(times) && Dense(times, 2 * c.maxFails - 2, now, c)
    requires times[|times| - 1] <= now
    ensures now < Fold(times, c).blockedUntil
  {
    hide Fold, TripsAt, CountsOn;
    var a := |times| - (2 * c.maxFails - 2);
    if CountsOn(times, a, c) {
      CountsOnTrips(times, a, c);
      var j :| a <= j < |times| && TripsAt(times, j, c);
      TripLasts(times, j, c);
    } else {
      StartedByTrip(times, a, c);
      TripLasts(times, a - 1, c);
    }
  }

  /** With an empty window only failures at one instant count together. */
  lemma {:induction false} QuietInstant(times: seq<int>, a: nat, c: Config)
    requires a < |times| && Sorted(times) && c.maxFails >= 1 && c.window == 0 && times[|times| - 1] == times[a]
    requires forall j | a <= j < |times| :: !TripsAt(times, j, c)
    ensures Fold(times, c).fails >= |times| - a
  {
    var n := |times|;
    var before := times[..n - 1];
    assert !TripsAt(times, n - 1, c);
    if n > 1 { FoldCounts(before, c); }
    if a < n - 1 {
      forall j | a <= j < n - 1 ensures !TripsAt(before, j, c) {
        assert times[..j] == before[..j];
        assert !TripsAt(times, j, c);
      }
      QuietInstant(before, a, c);
    }
  }

  lemma InstantTrips(times: seq<int>, a: nat, c: Config)
    requires c.maxFails >= 1 && c.window == 0 && Sorted(times) && |times| == a + c.maxFails
    requires times[|times| - 1] == times[a]
    ensures exists j | a <= j < |times| :: TripsAt(times, j, c)
  {
    if forall j | a <= j < |times| :: !TripsAt(times, j, c) {
      QuietInstant(times, a, c);
      FoldCounts(times, c);
      assert false;
    }
  }

  lemma EmptyWindow(times: seq<int>, now: int, c: Config)
    requires c.maxFails >= 1 && c.window == 0 < c.blockFor
    requires Sorted(times) && Dense(times, c.maxFails, now, c) && times[|times| - 1] <= now
    ensures now < Fold(times, c).blockedUntil
  {
    var a := |times| - c.maxFails;
    InstantTrips(times, a, c);
    var j :| a <= j < |times| && TripsAt(times, j, c);
    TripLasts(times, j, c);
  }

  // ---- runs that end unblocked ----

  function Repeat(t: int, n: nat): (r: seq<int>)
    ensures |r| == n
  {
    seq(n, _ => t)
  }

  /** Failures at one instant, too few to trip and inside the window, only add to the count. */
  lemma {:induction false} CountRepeated(times: seq<int>, t: int, n: nat, c: Config)
    requires times != []
    requires t - Fold(times, c).windowStart <= c.window
    requires Fold(times, c).fails + n < c.maxFails
    ensures Fold(times + Repeat(t, n), c) == Fold(times, c).(fails := Fold(times, c).fails + n)
  {
    if n == 0 {
      assert times + Repeat(t, n) == times;
    } else {
      CountRepeated(times, t, n - 1, c);
      var all := times + Repeat(t, n);
      assert all[..|all| - 1] == times + Repeat(t, n - 1);
    }
  }

  /** A failure after the window, and more at the same instant, count from one again. */
  lemma CountRestarts(times: seq<int>, t: int, n: nat, c: Config)
    requires times != [] && t - Fold(times, c).windowStart > c.window >= 0
    requires 1 <= n < c.maxFails
    ensures Fold(times + Repeat(t, n), c) == Bucket(n, t, Fold(times, c).blockedUntil)
  {
    var next := times + [t];
    assert next[..|times|] == times;
    CountRepeated(next, t, n - 1, c);
    assert times + Repeat(t, n) == next + Repeat(t, n - 1);
  }

  function OneAddress(times: seq<int>, ip: string): seq<Failure> {
    seq(|times|, i requires 0 <= i < |times| => Failure(ip, times[i]))
  }

  lemma {:induction false} OneAddressTimes(times: seq<int>, ip: string)
    ensures Times(OneAddress(times, ip), ip) == times
  {
    if times != [] {
      var n := |times| - 1;
      OneAddressTimes(times[..n], ip);
      assert OneAddress(times, ip)[..n] == OneAddress(times[..n], ip);
      assert times[..n] + [times[n]] == times;
    }
  }

  /** A history with `n` failures in the window before `now` that ends unblocked refutes the bound. */
  lemma Refutes(times: seq<int>, n: nat, now: int, c: Config)
    requires Sorted(times) && (times != [] ==> ZERO_TIME <= times[0] && times[|times| - 1] <= now) && now >= ZERO_TIME
    requires Dense(times, n, now, c) && (times != [] ==> Fold(times, c).blockedUntil <= now)
    ensures !AlwaysBlocked(n, c)
  {
    var run := OneAddress(times, "a");
    OneAddressTimes(times, "a");
    BlockedIsFold(run, "a", now, c);
    hide Fold, After;
    assert Ordered(run, now) && Dense(Times(run, "a"), n, now, c) && !Blocked(After(run, c), "a", now);
  }

  lemma FirstTrip(c: Config)
    requires c.maxFails >= 1 && c.window >= 0
    ensures Fold(Repeat(0, c.maxFails), c) == Bucket(0, 0, c.blockFor)
  {
    var m := c.maxFails;
    var first := Repeat(0, m);
    assert Fold([0], c) == if m > 1 then Bucket(1, 0, ZERO_TIME) else Bucket(0, 0, c.blockFor);
    if m > 1 {
      CountRepeated([0], 0, m - 2, c);
      assert first[..m - 1] == [0] + Repeat(0, m - 2);
    } else {
      assert first == [0];
    }
  }

  /** A trip, MaxFails - 1 failures at the end of its window, as many at the end of the next: the block has
      ended when it lasts two windows at most. */
  lemma TwoWindows(n: nat, c: Config)
    requires c.maxFails >= 2 && c.window >= 1 && c.blockFor <= 2 * c.window && n <= 2 * c.maxFails - 2
    ensures !AlwaysBlocked(n, c)
  {
    var m, w := c.maxFails, c.window;
    var first := Repeat(0, m);
    var second := first + Repeat(w, m - 1);
    var times := second + Repeat(2 * w, m - 1);
    FirstTrip(c);
    hide Fold;
    CountRepeated(first, w, m - 1, c);
    CountRestarts(second, 2 * w, m - 1, c);
    Refutes(times, n, 2 * w, c);
  }

  /** One failure, MaxFails - 2 at the end of its window, MaxFails - 1 right after it. */
  function Untripped(c: Config): seq<int>
    requires c.maxFails >= 2
  {
    [0] + Repeat(c.window, c.maxFails - 2) + Repeat(c.window + 1, c.maxFails - 1)
  }

  lemma NeverTrips(c: Config)
    requires c.maxFails >= 2 && c.window >= 1
    ensures Fold(Untripped(c), c).blockedUntil == ZERO_TIME && Sorted(Untripped(c))
  {
    var m, w := c.maxFails, c.window;
    assert Fold([0], c) == Bucket(1, 0, ZERO_TIME);
    CountRepeated([0], w, m - 2, c);
    CountRestarts([0] + Repeat(w, m - 2), w + 1, m - 1, c);
    hide Fold;
  }

  lemma NeverTripped(n: nat, c: Config)
    requires c.maxFails >= 2 && c.window >= 1 && n <= 2 * c.maxFails - 3
    ensures !AlwaysBlocked(n, c)
  {
    NeverTrips(c);
    hide Fold;
    Refutes(Untripped(c), n, c.window + 1, c);
  }

  /** Whatever happened at one instant, its blocks end together. */
  lemma {:induction false} InstantBlocks(n: nat, c: Config)
    requires n >= 1
    ensures Fold(Repeat(0, n), c).blockedUntil in {ZERO_TIME, c.blockFor}
  {
    if n > 1 {
      InstantBlocks(n - 1, c);
      assert Repeat(0, n)[..n - 1] == Repeat(0, n - 1);
    }
  }

  /** Blocks that do not outlast the window: any number of failures at its start are forgotten at its end. */
  lemma ShortBlocks(n: nat, c: Config)
    requires c.window >= 0 && c.blockFor <= c.window
    ensures !AlwaysBlocked(n, c)
  {
    if n > 0 { InstantBlocks(n, c); }
    Refutes(Repeat(0, n), n, c.window, c);
  }

  lemma AtOnce(n: nat, c: Config)
    requires 0 < n < c.maxFails && c.window >= 0
    ensures Fold(Repeat(0, n), c).blockedUntil == ZERO_TIME
  {
    assert Fold([0], c).blockedUntil == ZERO_TIME;
    CountRepeated([0], 0, n - 1, c);
    assert Repeat(0, n) == [0] + Repeat(0, n - 1);
  }

  lemma TooFew(n: nat, c: Config)
    requires n < c.maxFails && c.window >= 0
    ensures !AlwaysBlocked(n, c)
  {
    if n > 0 { AtOnce(n, c); }
    Refutes(Repeat(0, n), n, 0, c);
  }

  /** How many failures within a window leave an address blocked, when a block outlasts the window. */
  function Threshold(c: Config): int {
    if c.window == 0 || c.maxFails == 1 then c.maxFails
    else if c.blockFor > 2 * c.window then 2 * c.maxFails - 2
    else 2 * c.maxFails - 1
  }

  lemma ManyAreBlocked(n: nat, c: Config)
    requires c.maxFails >= 1 && 0 <= c.window < c.blockFor && n >= Threshold(c)
    ensures AlwaysBlocked(n, c)
  {
    hide Fold, After;
    forall run, ip, now | Ordered(run, now) && Dense(Times(run, ip), n, now, c) ensures Blocked(After(run, c), ip, now) {
      var times := Times(run, ip);
      TimesOrdered(run, ip, now);
      BlockedIsFold(run, ip, now, c);
      assert times[|times| - 1] in times;
      if c.window == 0 { EmptyWindow(times, now, c); }
      else if n >= 2 * c.maxFails - 1 { LongBlocks(times, now, c); }
      else { LongerBlocks(times, now, c); }
    }
  }

  /** Exactly so many failures within a window leave an address blocked, whatever came before and between;
      none do when a block does not outlast the window. */
  lemma AlwaysBlockedIff(n: nat, c: Config)
    requires c.maxFails >= 1 && c.window >= 0
    ensures AlwaysBlocked(n, c) <==> c.blockFor > c.window && n >= Threshold(c)
  {
    hide AlwaysBlocked;
    if c.blockFor <= c.window { ShortBlocks(n, c); }
    else if n >= Threshold(c) { ManyAreBlocked(n, c); }
    else if n < c.maxFails { TooFew(n, c); }
    else if c.blockFor > 2 * c.window { NeverTripped(n, c); }
    else { TwoWindows(n, c); }
  }
}
