/** The distinct-IP cap when the check and the recording are separate critical sections. */
module CapProtocol {
  import opened Stats

  datatype Request = Request(id: string, ip: nat)
  datatype System = System(stats: State, waiting: seq<Request>)
  datatype Limits = Limits(cap: int, maxIPs: int)

  /** One critical section: AllowIP, the accept of a waiting request, or any other roll of the day. */
  datatype Step =
    | Check(req: Request, now: int)
    | Record(index: nat, now: int)
    | Other(now: int)

  function Apply(s: System, step: Step, l: Limits): System {
    match step
    case Check(r, now) =>
      System(AfterAllow(s.stats, l.cap, now),
             s.waiting + if Allows(s.stats, r.id, r.ip, l.cap, now) then [r] else [])
    case Record(i, now) =>
      if i >= |s.waiting| then s
      else
        System(Accept(s.stats, s.waiting[i].id, s.waiting[i].ip, l.maxIPs, now),
               s.waiting[..i] + s.waiting[i + 1..])
    case Other(now) => s.(stats := Roll(s.stats, now))
  }

  function Run(steps: seq<Step>, l: Limits): System {
    if steps == [] then System(INITIAL, [])
    else Apply(Run(steps[..|steps| - 1], l), steps[|steps| - 1], l)
  }

  /** Waiting requests for a lock from IPs outside `seen`. */
  function Unseen(waiting: seq<Request>, id: string, seen: set<nat>): nat {
    if waiting == [] then 0
    else
      var r := waiting[|waiting| - 1];
      Unseen(waiting[..|waiting| - 1], id, seen) + if r.id == id && r.ip !in seen then 1 else 0
  }

  /** Never more than k requests for the lock are between AllowIP and accept. */
  predicate Concurrency(steps: seq<Step>, id: string, k: nat, l: Limits) {
    && Unseen(Run(steps, l).waiting, id, {}) <= k
    && (steps != [] ==> Concurrency(steps[..|steps| - 1], id, k, l))
  }

  lemma {:induction false} UnseenShrinks(waiting: seq<Request>, id: string, a: set<nat>, b: set<nat>)
    requires a <= b
    ensures Unseen(waiting, id, b) <= Unseen(waiting, id, a)
  {
    if waiting != [] { UnseenShrinks(waiting[..|waiting| - 1], id, a, b); }
  }

  lemma {:induction false} UnseenWithout(waiting: seq<Request>, i: nat, id: string, seen: set<nat>)
    requires i < |waiting|
    ensures Unseen(waiting, id, seen)
         == Unseen(waiting[..i] + waiting[i + 1..], id, seen)
            + if waiting[i].id == id && waiting[i].ip !in seen then 1 else 0
  {
    var n := |waiting| - 1;
    var rest := waiting[..i] + waiting[i + 1..];
    if i == n {
      assert rest == waiting[..n];
    } else {
      UnseenWithout(waiting[..n], i, id, seen);
      assert rest[..n - 1] == waiting[..n][..i] + waiting[..n][i + 1..];
    }
  }

  /** Recorded IPs plus waiting newcomers. */
  function Load(s: System, id: string): nat {
    |Ips(s.stats, id)| + Unseen(s.waiting, id, Ips(s.stats, id))
  }

  lemma {:induction false} LoadBounded(steps: seq<Step>, id: string, k: nat, l: Limits)
    requires l.cap >= 1 && k >= 1 && Concurrency(steps, id, k, l)
    ensures Load(Run(steps, l), id) <= l.cap - 1 + k
  {
    if steps != [] {
      var n := |steps| - 1;
      LoadBounded(steps[..n], id, k, l);
      StepBounded(Run(steps[..n], l), steps[n], id, k, l);
    }
  }

  lemma RollBounded(s: System, now: int, id: string, k: nat, l: Limits)
    requires l.cap >= 1 && Unseen(s.waiting, id, {}) <= k && Load(s, id) <= l.cap - 1 + k
    ensures Load(s.(stats := Roll(s.stats, now)), id) <= l.cap - 1 + k
  {
  }

  lemma StepBounded(s: System, step: Step, id: string, k: nat, l: Limits)
    requires l.cap >= 1 && k >= 1
    requires Unseen(s.waiting, id, {}) <= k && Unseen(Apply(s, step, l).waiting, id, {}) <= k
    requires Load(s, id) <= l.cap - 1 + k
    ensures Load(Apply(s, step, l), id) <= l.cap - 1 + k
  {
    var rolled := s.(stats := Roll(s.stats, step.now));
    RollBounded(s, step.now, id, k, l);
    var s' := Apply(s, step, l);
    var ips := Ips(rolled.stats, id);
    match step {
      case Check(r, now) =>
        UnseenShrinks(s'.waiting, id, {}, ips);
        if Allows(s.stats, r.id, r.ip, l.cap, now) {
          assert s'.waiting[..|s.waiting|] == s.waiting;
        } else {
          assert s'.waiting == s.waiting;
        }
      case Record(i, now) =>
        if i < |s.waiting| {
          UnseenWithout(s.waiting, i, id, ips);
          UnseenShrinks(s'.waiting, id, ips, Ips(s'.stats, id));
        }
      case Other(now) =>
    }
  }

  /** With at most k requests of a lock between the check and the recording, under any
      interleaving and any day rolls, it never holds more than cap - 1 + k distinct IPs. */
  lemma ConcurrentCap(steps: seq<Step>, id: string, k: nat, l: Limits)
    requires l.cap >= 1 && k >= 1 && Concurrency(steps, id, k, l)
    ensures |Ips(Run(steps, l).stats, id)| <= l.cap - 1 + k
  {
    LoadBounded(steps, id, k, l);
  }

  // ---- the bound is reached ----

  function UpTo(n: nat): (s: set<nat>)
    ensures |s| == n
    ensures forall i: nat :: i in s <==> i < n
  {
    if n == 0 then {} else UpTo(n - 1) + {n - 1}
  }

  const LOCK := "lock"

  /** `n` visits one after another, then `k` checks at once. */
  function Rush(n: nat, k: nat): seq<Step>
    decreases n, k
  {
    if k > 0 then Rush(n, k - 1) + [Check(Request(LOCK, n + k - 1), 0)]
    else if n > 0 then Rush(n - 1, 0) + [Check(Request(LOCK, n - 1), 0)] + [Record(0, 0)]
    else []
  }

  /** The rush, then `j` of its requests recorded. */
  function Drain(n: nat, k: nat, j: nat): seq<Step> {
    if j == 0 then Rush(n, k) else Drain(n, k, j - 1) + [Record(0, 0)]
  }

  /** IPs 0 to n - 1 are recorded and the next `count` are waiting. */
  predicate Arrived(s: System, n: nat, count: nat)
    ensures Arrived(s, n, count) ==> |s.waiting| == count
  {
    && s.stats.day == 0 && Ips(s.stats, LOCK) == UpTo(n) && |s.waiting| == count
    && forall i | 0 <= i < count :: s.waiting[i] == Request(LOCK, n + i)
  }

  lemma NobodyArrived()
    ensures Arrived(System(INITIAL, []), 0, 0)
  {
  }

  lemma CheckArrives(s: System, n: nat, count: nat, l: Limits)
    requires Arrived(s, n, count) && n < l.cap
    ensures Arrived(Apply(s, Check(Request(LOCK, n + count), 0), l), n, count + 1)
  {
  }

  lemma RecordArrives(s: System, n: nat, count: nat, l: Limits)
    requires Arrived(s, n, count) && count >= 1 && n < l.maxIPs
    ensures Arrived(Apply(s, Record(0, 0), l), n + 1, count - 1)
  {
    var s' := Apply(s, Record(0, 0), l);
    assert s'.waiting == s.waiting[1..];
    assert Ips(s'.stats, LOCK) == UpTo(n) + {n} == UpTo(n + 1);
  }

  lemma {:induction false} UnseenAtMost(waiting: seq<Request>, id: string)
    ensures Unseen(waiting, id, {}) <= |waiting|
  {
    if waiting != [] { UnseenAtMost(waiting[..|waiting| - 1], id); }
  }

  lemma {:induction false} RushArrives(n: nat, k: nat, most: nat, l: Limits)
    requires n < l.cap && n <= l.maxIPs && k <= most && most >= 1
    ensures Arrived(Run(Rush(n, k), l), n, k)
    ensures Concurrency(Rush(n, k), LOCK, most, l)
    decreases n, k
  {
    hide Apply, Unseen, Arrived, UpTo;
    var steps := Rush(n, k);
    if k > 0 {
      RushArrives(n, k - 1, most, l);
      assert steps[..|steps| - 1] == Rush(n, k - 1);
      CheckArrives(Run(Rush(n, k - 1), l), n, k - 1, l);
    } else if n > 0 {
      var before := Rush(n - 1, 0);
      var checked := before + [Check(Request(LOCK, n - 1), 0)];
      RushArrives(n - 1, 0, most, l);
      assert checked[..|checked| - 1] == before && steps[..|steps| - 1] == checked;
      CheckArrives(Run(before, l), n - 1, 0, l);
      RecordArrives(Run(checked, l), n - 1, 1, l);
      UnseenAtMost(Run(checked, l).waiting, LOCK);
    } else {
      NobodyArrived();
    }
    UnseenAtMost(Run(steps, l).waiting, LOCK);
  }

  lemma {:induction false} DrainRecords(n: nat, k: nat, j: nat, l: Limits)
    requires n < l.cap && n + k <= l.maxIPs && 1 <= k && j <= k
    ensures Arrived(Run(Drain(n, k, j), l), n + j, k - j)
    ensures Concurrency(Drain(n, k, j), LOCK, k, l)
  {
    hide Apply, Unseen, Arrived, UpTo;
    if j == 0 {
      RushArrives(n, k, k, l);
    } else {
      DrainRecords(n, k, j - 1, l);
      RecordArrives(Run(Drain(n, k, j - 1), l), n + j - 1, k - j + 1, l);
      var steps := Drain(n, k, j);
      assert steps[..|steps| - 1] == Drain(n, k, j - 1);
      UnseenAtMost(Run(steps, l).waiting, LOCK);
    }
  }

  /** The bound of ConcurrentCap is exact: some run with concurrency k reaches it. */
  lemma ConcurrentCapIsTight(k: nat, l: Limits)
    requires l.cap >= 1 && k >= 1 && l.cap - 1 + k <= l.maxIPs
    ensures exists steps :: Concurrency(steps, LOCK, k, l) && |Ips(Run(steps, l).stats, LOCK)| == l.cap - 1 + k
  {
    DrainRecords(l.cap - 1, k, k, l);
    assert Concurrency(Drain(l.cap - 1, k, k), LOCK, k, l);
  }
}
