/** Per-lock, per-day counters of stats.go. Times are Unix seconds; an IP is its salted 64-bit hash. */
module Stats {

  const BUCKET_SECONDS := 86400

  /** Go's integer division rounds toward zero. */
  function Quotient(a: int, b: int): int
    requires b > 0
  {
    if a >= 0 then a / b else -(-a / b)
  }

  function Day(now: int): int {
    Quotient(now, BUCKET_SECONDS)
  }

  datatype LockStat = LockStat(accepted: nat, ips: set<nat>, last: int)
  datatype State = State(day: int, locks: map<string, LockStat>, rejects: map<string, nat>)

  const INITIAL := State(0, map[], map[])

  function Roll(s: State, now: int): State {
    if Day(now) != s.day then State(Day(now), map[], map[]) else s
  }

  function Ips(s: State, id: string): set<nat> {
    if id in s.locks then s.locks[id].ips else {}
  }

  /** AllowIP rolls the day unless there is no cap. */
  function AfterAllow(s: State, cap: int, now: int): State {
    if cap <= 0 then s else Roll(s, now)
  }

  predicate Allows(s: State, id: string, ip: nat, cap: int, now: int) {
    cap <= 0 || ip in Ips(Roll(s, now), id) || |Ips(Roll(s, now), id)| < cap
  }

  function Accept(s: State, id: string, ip: nat, maxIPs: int, now: int): State {
    var s := Roll(s, now);
    var was := if id in s.locks then s.locks[id] else LockStat(0, {}, 0);
    s.(locks := s.locks[id := LockStat(was.accepted + 1, if |was.ips| < maxIPs then was.ips + {ip} else was.ips, now)])
  }

  function Reject(s: State, reason: string, now: int): State {
    var s := Roll(s, now);
    s.(rejects := s.rejects[reason := 1 + if reason in s.rejects then s.rejects[reason] else 0])
  }

  /** Without a cap everybody is let in; with one, every address on a new day, and later the day's own addresses and
      as many more as the cap leaves room for. */
  lemma AllowMeans(s: State, id: string, ip: nat, cap: int, now: int)
    ensures cap <= 0 ==> Allows(s, id, ip, cap, now) && AfterAllow(s, cap, now) == s
    ensures cap > 0 && Day(now) != s.day ==>
              Allows(s, id, ip, cap, now) && AfterAllow(s, cap, now) == State(Day(now), map[], map[])
    ensures cap > 0 && Day(now) == s.day ==>
              && AfterAllow(s, cap, now) == s
              && (Allows(s, id, ip, cap, now)
                  <==> id !in s.locks || ip in s.locks[id].ips || |s.locks[id].ips| < cap)
  {
    hide Day;
  }

  /** An admission changes the lock's own counters and nothing else of the day: one more, the time, and the address
      while there is room. */
  lemma AcceptMeans(s: State, id: string, ip: nat, maxIPs: int, now: int)
    requires Day(now) == s.day
    ensures var s' := Accept(s, id, ip, maxIPs, now);
            && s'.day == s.day && s'.rejects == s.rejects && s'.locks.Keys == s.locks.Keys + {id}
            && (forall k <- s.locks :: k != id ==> s'.locks[k] == s.locks[k])
            && s'.locks[id].last == now
            && s'.locks[id].accepted == 1 + (if id in s.locks then s.locks[id].accepted else 0)
            && s'.locks[id].ips == Ips(s, id) + if |Ips(s, id)| < maxIPs then {ip} else {}
  {
    hide Day;
  }

  /** A refusal changes its own counter and nothing else of the day. */
  lemma RejectMeans(s: State, reason: string, now: int)
    requires Day(now) == s.day
    ensures var s' := Reject(s, reason, now);
            && s'.day == s.day && s'.locks == s.locks && s'.rejects.Keys == s.rejects.Keys + {reason}
            && (forall k <- s.rejects :: k != reason ==> s'.rejects[k] == s.rejects[k])
            && s'.rejects[reason] == 1 + (if reason in s.rejects then s.rejects[reason] else 0)
  {
    hide Day;
  }

  class Stats {
    const maxIPs: int
    const hash: string -> nat
    var day: int
    var locks: map<string, LockStat>
    var rejects: map<string, nat>

    constructor (hash: string -> nat)
      ensures Value() == INITIAL && maxIPs == 20000 && this.hash == hash
    {
      this.hash := hash;
      maxIPs := 20000;
      day, locks, rejects := 0, map[], map[];
    }

    function Value(): State
      reads this
    {
      State(day, locks, rejects)
    }

    method RollTo(now: int)
      modifies this
      ensures Value() == Roll(old(Value()), now)
    {
      var d := Quotient(now, BUCKET_SECONDS);
      if d != day {
        day, locks, rejects := d, map[], map[];
      }
    }

    method AllowIP(id: string, ip: string, cap: int, now: int) returns (allowed: bool)
      modifies this
      ensures allowed == Allows(old(Value()), id, hash(ip), cap, now)
      ensures Value() == AfterAllow(old(Value()), cap, now)
    {
      if cap <= 0 { return true; }
      RollTo(now);
      if id !in locks { return true; }
      if hash(ip) in locks[id].ips { return true; }
      return |locks[id].ips| < cap;
    }

    method AcceptIP(id: string, ip: string, now: int)
      modifies this
      ensures Value() == Accept(old(Value()), id, hash(ip), maxIPs, now)
    {
      RollTo(now);
      if id !in locks {
        locks := locks[id := LockStat(0, {}, 0)];
      }
      var ls := locks[id];
      ls := ls.(accepted := ls.accepted + 1, last := now);
      if |ls.ips| < maxIPs {
        ls := ls.(ips := ls.ips + {hash(ip)});
      }
      locks := locks[id := ls];
    }

    method RejectFor(reason: string, clock: int)
      modifies this
      ensures Value() == Reject(old(Value()), reason, clock)
    {
      RollTo(clock);
      rejects := rejects[reason := 1 + if reason in rejects then rejects[reason] else 0];
    }
  }
}
