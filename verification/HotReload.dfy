/** Hot reload of the allow-list (gate.go) racing with atomic replacements of the file (oversee.go). */
module HotReload {
  import opened Text
  import opened Token
  import opened AllowList

  /** One content of the file, put in place by a rename. */
  datatype Version = Version(text: string, modTime: int)

  /** One turn of the watcher whose stat saw `statTime`: the new list and recorded time. */
  function Turn(live: Entries, modTime: int, statTime: int, found: Option<Version>, id: CodeIds): (Entries, int) {
    if statTime == modTime then (live, modTime)
    else
      match found
      case None => (live, statTime)
      case Some(v) =>
        match GateParse(v.text, id)
        case None => (live, statTime)
        case Some(m) => (m, v.modTime)
  }

  class AllowListFile {
    const id: CodeIds
    var cur: Entries
    var modTime: int

    constructor (id: CodeIds, m: Entries, modTime: int)
      ensures this.id == id && cur == m && this.modTime == modTime
    {
      this.id, cur, this.modTime := id, m, modTime;
    }

    /** `found` is what os.Open found; false is an error. */
    method Reload(found: Option<Version>) returns (ok: bool)
      modifies this
      ensures ok == (found.Some? && GateParse(found.value.text, id).Some?)
      ensures ok ==> cur == GateParse(found.value.text, id).value && modTime == found.value.modTime
      ensures !ok ==> cur == old(cur) && modTime == old(modTime)
    {
      if found == None { return false; }
      var m := ParseAllowList(found.value.text, id);
      if m == None { return false; }
      cur := m.value;
      modTime := found.value.modTime;
      return true;
    }

    method WatchTurn(statTime: int, found: Option<Version>)
      modifies this
      ensures (cur, modTime) == Turn(old(cur), old(modTime), statTime, found, id)
    {
      if statTime == modTime { return; }
      var ok := Reload(found);
      if !ok { modTime := statTime; }
    }
  }

  // ---- the race ----

  /** Where the watcher is inside a turn; numbers are positions in the file's history. */
  datatype Poll = Idle | Stated(seen: nat) | Opened(seen: nat, found: nat)

  /** `shown` is the version whose parse is being served. */
  datatype State = State(history: seq<Version>, live: Entries, shown: nat, modTime: int, poll: Poll)

  datatype Step = Replace(v: Version) | Stat | Open | OpenFails | Finish

  predicate Shaped(s: State) {
    && s.history != []
    && (s.poll.Stated? ==> s.poll.seen < |s.history|)
    && (s.poll.Opened? ==> s.poll.seen <= s.poll.found < |s.history|)
  }

  function Last(s: State): nat
    requires Shaped(s)
  {
    |s.history| - 1
  }

  function Ended(s: State, seen: nat, found: Option<nat>, id: CodeIds): State
    requires Shaped(s) && seen < |s.history| && (found.Some? ==> found.value < |s.history|)
  {
    var v := if found == None then None else Some(s.history[found.value]);
    var (live, modTime) := Turn(s.live, s.modTime, s.history[seen].modTime, v, id);
    var shown := if found.Some? && Parses(s, found.value, id) then found.value else s.shown;
    s.(live := live, modTime := modTime, shown := shown, poll := Idle)
  }

  predicate Parses(s: State, i: nat, id: CodeIds)
    requires i < |s.history|
  {
    GateParse(s.history[i].text, id).Some?
  }

  function Next(s: State, step: Step, id: CodeIds): (r: State)
    requires Shaped(s)
    ensures Shaped(r)
  {
    match step
    case Replace(v) => s.(history := s.history + [v])
    case Stat =>
      if s.poll == Idle && s.history[Last(s)].modTime != s.modTime then s.(poll := Stated(Last(s))) else s
    case Open => if s.poll.Stated? then s.(poll := Opened(s.poll.seen, Last(s))) else s
    case OpenFails => if s.poll.Stated? then Ended(s, s.poll.seen, None, id) else s
    case Finish => if s.poll.Opened? then Ended(s, s.poll.seen, Some(s.poll.found), id) else s
  }

  /** LoadAllowList succeeded on the first version. */
  predicate Start(s: State, id: CodeIds) {
    && |s.history| == 1 && s.shown == 0 && s.poll == Idle
    && s.modTime == s.history[0].modTime && GateParse(s.history[0].text, id) == Some(s.live)
  }

  function Run(s: State, steps: seq<Step>, id: CodeIds): (r: State)
    requires Shaped(s)
    ensures Shaped(r)
  {
    if steps == [] then s else Next(Run(s, steps[..|steps| - 1], id), steps[|steps| - 1], id)
  }

  predicate DistinctTimes(history: seq<Version>) {
    forall i, j | 0 <= i < j < |history| :: history[i].modTime != history[j].modTime
  }

  // ---- what every step keeps ----

  /** The recorded time belongs to a version that is not older than the live one, and was there before
      the turn under way began. */
  predicate Recorded(s: State, i: nat)
    requires Shaped(s)
  {
    s.shown <= i < |s.history| && s.history[i].modTime == s.modTime && (s.poll != Idle ==> i <= s.poll.seen)
  }

  /** The live list is the parse of a version that parses; a turn under way saw a version that is not
      older than the live one. */
  predicate Safe(s: State, id: CodeIds)
    ensures Safe(s, id) ==> Shaped(s)
  {
    && Shaped(s) && s.shown < |s.history|
    && GateParse(s.history[s.shown].text, id) == Some(s.live)
    && (exists i: nat | i < |s.history| :: Recorded(s, i))
    && (s.poll != Idle ==> s.shown <= s.poll.seen && s.history[s.poll.seen].modTime != s.modTime)
  }

  lemma StepSafe(s: State, step: Step, id: CodeIds)
    requires Safe(s, id) && DistinctTimes(Next(s, step, id).history)
    ensures Safe(Next(s, step, id), id) && s.shown <= Next(s, step, id).shown
    ensures s.history <= Next(s, step, id).history
  {
    hide GateParse;
    var s' := Next(s, step, id);
    var i: nat :| i < |s.history| && Recorded(s, i);
    assert s'.history[i] == s.history[i];
    if s.poll != Idle && s'.poll == Idle {
      assert s.poll.Opened? && Parses(s, s.poll.found, id) ==> Recorded(s', s.poll.found);
      assert !(s.poll.Opened? && Parses(s, s.poll.found, id)) ==> Recorded(s', s.poll.seen);
    } else {
      assert Recorded(s', i);
    }
  }

  /** A good current version that is recorded as seen but not served. */
  predicate Lost(s: State, id: CodeIds)
    requires Shaped(s)
  {
    s.history[Last(s)].modTime == s.modTime && s.shown != Last(s) && Parses(s, Last(s), id)
  }

  /** The open that fails is the only step that loses the current version: the one it was to read. */
  lemma LostStep(s: State, step: Step, id: CodeIds)
    requires Safe(s, id) && DistinctTimes(Next(s, step, id).history)
    ensures var s' := Next(s, step, id);
            Lost(s', id)
            <==> Parses(s', Last(s'), id)
                 && ((step == OpenFails && s.poll == Stated(Last(s'))) || (Last(s') == Last(s) && Lost(s, id)))
  {
    hide GateParse;
    var s' := Next(s, step, id);
    var i: nat :| i < |s.history| && Recorded(s, i);
    assert s'.history[i] == s.history[i];
    assert s.history[Last(s)] == s'.history[Last(s)];
    if Lost(s, id) && Last(s') == Last(s) { assert i == Last(s) && s.poll == Idle; }
  }

  /** stat, open and finish with no replacement in between and no failing open. */
  function QuietPoll(s: State, id: CodeIds): State
    requires Shaped(s)
  {
    Next(Next(Next(s, Stat, id), Open, id), Finish, id)
  }

  /** An undisturbed poll serves the current version, if it parses, exactly when it was not lost. */
  lemma QuietPollInstallsIff(s: State, id: CodeIds)
    requires Safe(s, id) && s.poll == Idle && Parses(s, Last(s), id)
    ensures QuietPoll(s, id).shown == Last(s)
         && GateParse(s.history[Last(s)].text, id) == Some(QuietPoll(s, id).live)
       <==> !Lost(s, id)
  {
    hide GateParse;
  }

  predicate Monotone(s: State, s': State) {
    s.shown <= s'.shown && s.history <= s'.history
  }

  /** Over every run with distinct modification times the gate serves the parse of a version that
      parses, and never goes back to an older one. */
  lemma {:induction false} RunSafe(s: State, steps: seq<Step>, id: CodeIds)
    requires Safe(s, id) && DistinctTimes(Run(s, steps, id).history)
    ensures Safe(Run(s, steps, id), id) && Monotone(s, Run(s, steps, id))
  {
    hide Safe, Next;
    if steps != [] {
      var before := Run(s, steps[..|steps| - 1], id);
      HistoryGrows(before, steps[|steps| - 1], id);
      RunSafe(s, steps[..|steps| - 1], id);
      StepSafe(before, steps[|steps| - 1], id);
    }
  }

  lemma HistoryGrows(s: State, step: Step, id: CodeIds)
    requires Shaped(s)
    ensures s.history <= Next(s, step, id).history
  {
  }

  /** Some open failed after a stat that saw version `v`. */
  predicate MissedOpen(s: State, steps: seq<Step>, v: nat, id: CodeIds)
    requires Shaped(s)
  {
    exists k | 0 <= k < |steps| :: steps[k] == OpenFails && Run(s, steps[..k], id).poll == Stated(v)
  }

  lemma MissedMore(s: State, steps: seq<Step>, v: nat, id: CodeIds)
    requires Shaped(s) && steps != []
    ensures var before, step := steps[..|steps| - 1], steps[|steps| - 1];
            MissedOpen(s, steps, v, id)
            <==> MissedOpen(s, before, v, id) || (step == OpenFails && Run(s, before, id).poll == Stated(v))
  {
    hide Run;
    var before := steps[..|steps| - 1];
    assert forall k | 0 <= k <= |before| :: steps[..k] == before[..k];
    assert before[..|before|] == before;
  }

  /** A version not yet written has not been missed. */
  lemma {:induction false} NotMissedYet(s: State, steps: seq<Step>, v: nat, id: CodeIds)
    requires Shaped(s) && v >= |Run(s, steps, id).history|
    ensures !MissedOpen(s, steps, v, id)
  {
    hide Next, MissedOpen;
    if steps != [] {
      var before := steps[..|steps| - 1];
      HistoryGrows(Run(s, before, id), steps[|steps| - 1], id);
      NotMissedYet(s, before, v, id);
      MissedMore(s, steps, v, id);
    } else {
      NothingMissed(s, v, id);
    }
  }

  lemma NothingMissed(s: State, v: nat, id: CodeIds)
    requires Shaped(s)
    ensures !MissedOpen(s, [], v, id)
  {
  }

  /** Over every run with distinct modification times the current version is lost exactly when it parses and
      an open failed after a stat that saw it. */
  lemma {:induction false} LostIff(s: State, steps: seq<Step>, id: CodeIds)
    requires Safe(s, id) && !Lost(s, id) && DistinctTimes(Run(s, steps, id).history)
    ensures var end := Run(s, steps, id);
            Lost(end, id) <==> Parses(end, Last(end), id) && MissedOpen(s, steps, Last(end), id)
  {
    if steps == [] {
      NothingMissed(s, Last(s), id);
    } else {
      var before, step := steps[..|steps| - 1], steps[|steps| - 1];
      var s', end := Run(s, before, id), Run(s, steps, id);
      HistoryGrows(s', step, id);
      RunSafe(s, before, id);
      LostIff(s, before, id);
      LostStep(s', step, id);
      MissedMore(s, steps, Last(end), id);
      hide Safe, Next, Lost, Run, MissedOpen, GateParse;
      if Last(end) != Last(s') { NotMissedYet(s, before, Last(end), id); }
      SameVersion(s', end, id);
    }
  }

  lemma SameVersion(s: State, s': State, id: CodeIds)
    requires Shaped(s) && Shaped(s') && s.history <= s'.history
    ensures Last(s) == Last(s') ==> Parses(s, Last(s), id) == Parses(s', Last(s'), id)
  {
  }

  lemma StartIsSafe(s: State, id: CodeIds)
    requires Start(s, id)
    ensures Safe(s, id) && !Lost(s, id)
  {
    hide GateParse;
    assert Recorded(s, 0);
  }

  /** From a successful start, after any interleaving, one full poll after the last good edit serves it exactly
      when no open failed after a stat that saw that edit. */
  lemma LastGoodEditInstalledIff(s: State, steps: seq<Step>, id: CodeIds)
    requires Start(s, id) && DistinctTimes(Run(s, steps, id).history)
    requires var end := Run(s, steps, id); end.poll == Idle && Parses(end, Last(end), id)
    ensures var end := Run(s, steps, id);
            QuietPoll(end, id).shown == Last(end)
            && GateParse(end.history[Last(end)].text, id) == Some(QuietPoll(end, id).live)
            <==> !MissedOpen(s, steps, Last(end), id)
  {
    StartIsSafe(s, id);
    RunSafe(s, steps, id);
    LostIff(s, steps, id);
    QuietPollInstallsIff(Run(s, steps, id), id);
  }

  /** From a successful start, after any interleaving in which opens succeed, one full poll after the
      last edit installs it if it parses. */
  lemma LastGoodEditInstalled(s: State, steps: seq<Step>, id: CodeIds)
    requires Start(s, id) && DistinctTimes(Run(s, steps, id).history) && OpenFails !in steps
    requires var end := Run(s, steps, id); end.poll == Idle && Parses(end, Last(end), id)
    ensures var end := Run(s, steps, id);
            GateParse(end.history[Last(end)].text, id) == Some(QuietPoll(end, id).live)
  {
    hide GateParse, Run;
    LastGoodEditInstalledIff(s, steps, id);
  }

  /** A lost version does no lasting harm: an edit with a new modification time is served after one full poll. */
  lemma LaterEditRepairs(s: State, v: Version, id: CodeIds)
    requires Safe(s, id) && s.poll == Idle && v.modTime != s.modTime && GateParse(v.text, id).Some?
    ensures var s' := Next(s, Replace(v), id);
            QuietPoll(s', id).shown == Last(s') && GateParse(v.text, id) == Some(QuietPoll(s', id).live)
  {
    hide GateParse;
  }

  /** A bad edit keeps the list that was served. */
  lemma BadEditKeepsList(s: State, step: Step, id: CodeIds)
    requires Safe(s, id)
    ensures var s' := Next(s, step, id);
            s'.live == s.live || (s'.shown == s.poll.found && Parses(s, s'.shown, id)
                                  && GateParse(s.history[s'.shown].text, id) == Some(s'.live))
  {
    hide GateParse;
  }

  /** What is served never comes from a version with a bad line: over every run, no version served has one. */
  lemma BadVersionNeverServed(s: State, steps: seq<Step>, id: CodeIds)
    requires Start(s, id) && DistinctTimes(Run(s, steps, id).history)
    ensures var end := Run(s, steps, id);
            && end.shown < |end.history| && GateParse(end.history[end.shown].text, id) == Some(end.live)
            && forall l <- Split(end.history[end.shown].text, '\n') :: !Bad(l)
  {
    hide GateParse, Split, Bad;
    StartIsSafe(s, id);
    RunSafe(s, steps, id);
    var end := Run(s, steps, id);
    ParseFailsIff(end.history[end.shown].text, id);
  }

  /** A poll that finds a current version with a bad line keeps the list that was served. */
  lemma PollKeepsListFromBad(s: State, id: CodeIds)
    requires Safe(s, id) && s.poll == Idle && exists l <- Split(s.history[Last(s)].text, '\n') :: Bad(l)
    ensures QuietPoll(s, id).live == s.live && QuietPoll(s, id).shown == s.shown != Last(s)
  {
    hide GateParse, Split, Bad;
    ParseFailsIff(s.history[Last(s)].text, id);
  }

  // ---- why the two conditions are there ----

  /** An open that fails right after the stat loses a good version: its time is recorded although it
      was never read, and no later poll serves it. */
  lemma FailedOpenLoses(s: State, id: CodeIds)
    requires Safe(s, id) && s.poll == Stated(Last(s)) && s.shown != Last(s) && Parses(s, Last(s), id)
    ensures var s' := Next(s, OpenFails, id);
            s'.poll == Idle && Lost(s', id) && QuietPoll(s', id) == s'
  {
  }

  /** A replacement with the modification time already recorded is never looked at. */
  lemma EqualTimesLose(s: State, v: Version, id: CodeIds)
    requires Safe(s, id) && s.poll == Idle && v.modTime == s.modTime && GateParse(v.text, id).Some?
    ensures var s' := Next(s, Replace(v), id);
            !DistinctTimes(s'.history) && Lost(s', id) && QuietPoll(s', id) == s'
  {
    var s' := Next(s, Replace(v), id);
    var i: nat :| i < |s.history| && Recorded(s, i);
    assert s'.history[i].modTime == s'.history[Last(s')].modTime;
  }
}
