/** How many copies of the legacy configs the store holds, over every run of overlapping loads and crashes. */
module MigrationCopies {
  import opened VpnConfig
  import opened Migration

  predicate LoadsOnly(steps: seq<Step>) {
    forall s <- steps :: s.Await? || s.NewCall? || s.Crash?
  }

  function After(first: Disk, steps: seq<Step>): World {
    Run(World(first, []), steps)
  }

  // ---- an exact count ----

  /** Copies in the vault, and in the list that each call is about to save. */
  datatype Tally = Tally(vault: nat, calls: seq<nat>)

  function Count(t: Tally, w: World, step: Step): Tally {
    match step
    case Await(i) =>
      if i >= |w.calls| || i >= |t.calls| then t
      else if w.calls[i].LegacyRead? then t.(calls := t.calls[i := t.vault + 1])
      else if w.calls[i].ExistingRead? then t.(vault := t.calls[i])
      else t
    case NewCall => t.(calls := t.calls + [0])
    case Crash => t.(calls := [])
    case _ => t
  }

  function CountAll(first: Disk, steps: seq<Step>): Tally {
    if steps == [] then Tally(0, [])
    else
      var before := steps[..|steps| - 1];
      Count(CountAll(first, before), After(first, before), steps[|steps| - 1])
  }

  /** The old configs and `n` copies of the migrated ones. */
  function List(first: Disk, n: nat): seq<Config> {
    Configs(first.vault) + Copies(Kept(first), n)
  }

  predicate CallCounted(c: Call, n: nat, first: Disk) {
    match c
    case LegacyRead(list) => list == Configs(first.legacy)
    case ExistingRead(merged) => n >= 1 && merged == List(first, n)
    case _ => true
  }

  predicate Counted(w: World, t: Tally, first: Disk) {
    && |t.calls| == |w.calls|
    && Configs(w.disk.vault) == List(first, t.vault) && (if t.vault == 0 then !w.disk.vault.Broken? else w.disk.vault.Json?)
    && (w.disk.legacy == first.legacy || w.disk.legacy == Empty)
    && forall i | 0 <= i < |w.calls| :: CallCounted(w.calls[i], t.calls[i], first)
  }

  lemma OneMoreCopy(first: Disk, n: nat)
    ensures List(first, n) + MigrateAll(Configs(first.legacy)) == List(first, n + 1)
  {
    hide MigrateAll;
  }

  lemma StepCounted(w: World, t: Tally, step: Step, first: Disk)
    requires first.legacy.Json? && Counted(w, t, first) && (step.Await? || step.NewCall? || step.Crash?)
    ensures Counted(Next(w, step), Count(t, w, step), first)
  {
    OneMoreCopy(first, t.vault);
    hide MigrateAll, List;
    if step.Await? && step.i < |w.calls| { assert CallCounted(w.calls[step.i], t.calls[step.i], first); }
  }

  /** At every moment of every such run the vault holds exactly the counted copies: a save holds one more
      than the vault had when its call read it. */
  lemma {:induction false} CopiesCounted(first: Disk, steps: seq<Step>)
    requires Migratable(first) && first.legacy.Json? && LoadsOnly(steps)
    ensures Counted(After(first, steps), CountAll(first, steps), first)
  {
    hide Counted, Next, Count, Run;
    if steps == [] {
      NoneCounted(first);
    } else {
      var before, step := steps[..|steps| - 1], steps[|steps| - 1];
      assert steps == before + [step] && step in steps && forall s <- before :: s in steps;
      CopiesCounted(first, before);
      RunMore(World(first, []), before, step);
      StepCounted(After(first, before), CountAll(first, before), step, first);
    }
  }

  lemma VaultCounted(first: Disk, steps: seq<Step>)
    requires Migratable(first) && first.legacy.Json? && LoadsOnly(steps)
    ensures var d, n := After(first, steps).disk, CountAll(first, steps).vault;
            Configs(d.vault) == List(first, n) && (n >= 1 ==> d.vault.Json?)
  {
    hide After, CountAll, List, CallCounted;
    CopiesCounted(first, steps);
  }

  lemma NoneCounted(first: Disk)
    requires Migratable(first)
    ensures Counted(After(first, []), Tally(0, []), first)
  {
    assert Configs(first.vault) + [] == Configs(first.vault);
  }

  lemma RunMore(w: World, steps: seq<Step>, step: Step)
    ensures Run(w, steps + [step]) == Next(Run(w, steps), step)
  {
    assert (steps + [step])[..|steps|] == steps;
  }

  // ---- what the count says ----

  lemma ListLength(first: Disk, n: nat)
    ensures |List(first, n)| == |Configs(first.vault)| + n * |Kept(first)|
  {
    CopiesLength(Kept(first), n);
  }

  lemma {:induction false} ListPrefix(first: Disk, m: nat, n: nat)
    requires m <= n
    ensures List(first, m) <= List(first, n)
  {
    if m < n {
      ListPrefix(first, m, n - 1);
      var had, k := Configs(first.vault), Kept(first);
      assert had + Copies(k, n) == (had + Copies(k, n - 1)) + k;
    }
  }

  /** The vault holds a second copy of the migrated configs. */
  predicate Doubled(d: Disk, first: Disk) {
    List(first, 2) <= Configs(d.vault)
  }

  lemma DoubledIff(d: Disk, first: Disk, n: nat)
    requires Kept(first) != [] && Configs(d.vault) == List(first, n)
    ensures Doubled(d, first) <==> n >= 2
  {
    hide Kept, List;
    ListLength(first, 2);
    ListLength(first, n);
    if n >= 2 {
      ListPrefix(first, 2, n);
    } else {
      assert n * |Kept(first)| < 2 * |Kept(first)|;
    }
  }

  // ---- the events that double ----

  predicate Saves(w: World, step: Step) {
    step.Await? && step.i < |w.calls| && w.calls[step.i].ExistingRead?
  }

  predicate ReadsVault(w: World, step: Step, i: nat) {
    step == Await(i) && i < |w.calls| && w.calls[i].LegacyRead?
  }

  /** Some call has saved. */
  predicate SavedBefore(first: Disk, steps: seq<Step>) {
    exists k | 0 <= k < |steps| :: Saves(After(first, steps[..k]), steps[k])
  }

  /** Step `k` is call i reading the vault after a save, and the call has not moved since. */
  predicate ReadSaved(first: Disk, steps: seq<Step>, k: nat, i: nat)
    requires k < |steps|
  {
    && ReadsVault(After(first, steps[..k]), steps[k], i) && SavedBefore(first, steps[..k])
    && forall m | k < m < |steps| :: steps[m] != Await(i) && steps[m] != Crash
  }

  predicate ReadAfterSave(first: Disk, steps: seq<Step>, i: nat) {
    exists k: nat | k < |steps| :: ReadSaved(first, steps, k, i)
  }

  /** Some call has saved a list for which it had read the vault after another save. */
  predicate SavedTwice(first: Disk, steps: seq<Step>) {
    exists k | 0 <= k < |steps| :: Saves(After(first, steps[..k]), steps[k]) && ReadAfterSave(first, steps[..k], steps[k].i)
  }

  lemma SavedMore(first: Disk, steps: seq<Step>, step: Step)
    ensures SavedBefore(first, steps + [step]) <==> SavedBefore(first, steps) || Saves(After(first, steps), step)
  {
    hide Saves, After;
    var all := steps + [step];
    assert all[..|steps|] == steps && all[|steps|] == step;
    assert forall k | 0 <= k < |steps| :: all[k] == steps[k] && all[..k] == steps[..k];
  }

  lemma TwiceMore(first: Disk, steps: seq<Step>, step: Step)
    ensures SavedTwice(first, steps + [step])
       <==> SavedTwice(first, steps) || (Saves(After(first, steps), step) && ReadAfterSave(first, steps, step.i))
  {
    hide After, ReadAfterSave;
    var all := steps + [step];
    assert all[..|steps|] == steps && all[|steps|] == step;
    assert forall k | 0 <= k < |steps| :: all[k] == steps[k] && all[..k] == steps[..k];
  }

  lemma ReadMore(first: Disk, steps: seq<Step>, step: Step, i: nat)
    ensures ReadAfterSave(first, steps + [step], i)
       <==> (ReadsVault(After(first, steps), step, i) && SavedBefore(first, steps))
            || (ReadAfterSave(first, steps, i) && step != Await(i) && step != Crash)
  {
    hide ReadsVault, After, SavedBefore;
    var all, n := steps + [step], |steps|;
    assert all[..n] == steps && all[n] == step;
    assert forall k | 0 <= k < n :: all[k] == steps[k] && all[..k] == steps[..k];
    forall k: nat | k < n
      ensures ReadSaved(first, all, k, i) <==> ReadSaved(first, steps, k, i) && step != Await(i) && step != Crash
    {
      if ReadSaved(first, all, k, i) { assert all[n] != Await(i) && all[n] != Crash; }
    }
    assert ReadSaved(first, all, n, i) <==> ReadsVault(After(first, steps), step, i) && SavedBefore(first, steps);
  }

  /** What the count knows of the past. */
  predicate Remembers(first: Disk, steps: seq<Step>) {
    var w, t := After(first, steps), CountAll(first, steps);
    && |t.calls| == |w.calls|
    && (t.vault >= 1 <==> SavedBefore(first, steps))
    && forall i | 0 <= i < |w.calls| && w.calls[i].ExistingRead? ::
         t.calls[i] >= 1 && (t.calls[i] >= 2 <==> ReadAfterSave(first, steps, i))
  }

  lemma OneStep(first: Disk, steps: seq<Step>, step: Step)
    ensures After(first, steps + [step]) == Next(After(first, steps), step)
    ensures CountAll(first, steps + [step]) == Count(CountAll(first, steps), After(first, steps), step)
  {
    hide Next, Count;
    RunMore(World(first, []), steps, step);
    assert (steps + [step])[..|steps|] == steps;
  }

  lemma StepRemembers(first: Disk, steps: seq<Step>, step: Step)
    requires Remembers(first, steps) && (step.Await? || step.NewCall? || step.Crash?)
    ensures Remembers(first, steps + [step])
  {
    hide Run, After, CountAll, SavedBefore, ReadAfterSave, MigrateAll;
    var w, t := After(first, steps), CountAll(first, steps);
    var all := steps + [step];
    SavedMore(first, steps, step);
    OneStep(first, steps, step);
    var w', t' := Next(w, step), Count(t, w, step);
    forall i | 0 <= i < |w'.calls| && w'.calls[i].ExistingRead?
      ensures t'.calls[i] >= 1 && (t'.calls[i] >= 2 <==> ReadAfterSave(first, all, i))
    {
      ReadMore(first, steps, step, i);
    }
  }

  lemma {:induction false} RunRemembers(first: Disk, steps: seq<Step>)
    requires LoadsOnly(steps)
    ensures Remembers(first, steps)
  {
    hide Next, Count, Remembers;
    if steps == [] {
      NothingRemembered(first);
    } else {
      var before, step := steps[..|steps| - 1], steps[|steps| - 1];
      assert steps == before + [step] && step in steps && forall s <- before :: s in steps;
      RunRemembers(first, before);
      StepRemembers(first, before, step);
    }
  }

  lemma NothingRemembered(first: Disk)
    ensures Remembers(first, [])
  {
  }

  /** The vault holds two copies after some part of the run. */
  predicate EverDoubled(first: Disk, steps: seq<Step>) {
    exists n | 0 <= n <= |steps| :: Doubled(After(first, steps[..n]).disk, first)
  }

  lemma DoubledMore(first: Disk, steps: seq<Step>, step: Step)
    ensures EverDoubled(first, steps + [step]) <==> EverDoubled(first, steps) || Doubled(After(first, steps + [step]).disk, first)
  {
    hide Doubled, After;
    var all := steps + [step];
    assert all[..|all|] == all && steps[..|steps|] == steps;
    assert forall n | 0 <= n <= |steps| :: all[..n] == steps[..n];
  }

  lemma DoublesNowIff(first: Disk, steps: seq<Step>, step: Step)
    requires Migratable(first) && first.legacy.Json? && Kept(first) != [] && LoadsOnly(steps + [step])
    requires Remembers(first, steps)
    ensures Doubled(After(first, steps + [step]).disk, first)
       <==> if Saves(After(first, steps), step) then ReadAfterSave(first, steps, step.i)
            else Doubled(After(first, steps).disk, first)
  {
    var w, t := After(first, steps), CountAll(first, steps);
    var all := steps + [step];
    assert all[..|steps|] == steps && forall s <- steps :: s in all;
    assert CountAll(first, all) == Count(t, w, step);
    VaultCounted(first, steps);
    VaultCounted(first, all);
    hide Doubled, Kept, List, Configs, CountAll, After, ReadAfterSave, SavedBefore, Migratable, LoadsOnly;
    DoubledIff(w.disk, first, t.vault);
    DoubledIff(After(first, all).disk, first, Count(t, w, step).vault);
  }

  /** Over every run of overlapping loads and crashes: the vault comes to hold a second copy exactly when some call
      saves a list for which it had read the vault after an earlier save. No crash is needed. */
  lemma {:induction false} EverDoubledIff(first: Disk, steps: seq<Step>)
    requires Migratable(first) && first.legacy.Json? && Kept(first) != [] && LoadsOnly(steps)
    ensures EverDoubled(first, steps) <==> SavedTwice(first, steps)
  {
    hide After, Remembers, Doubled, Kept, Saves, ReadAfterSave, Migratable;
    if steps == [] {
      NeverDoubledAtFirst(first);
    } else {
      var before, step := steps[..|steps| - 1], steps[|steps| - 1];
      assert steps == before + [step] && forall s <- before :: s in steps;
      EverDoubledIff(first, before);
      RunRemembers(first, before);
      DoublesNowIff(first, before, step);
      DoubledMore(first, before, step);
      TwiceMore(first, before, step);
      assert before[..|before|] == before;
    }
  }

  lemma NeverDoubledAtFirst(first: Disk)
    requires Migratable(first) && Kept(first) != []
    ensures !EverDoubled(first, []) && !SavedTwice(first, [])
  {
    var steps: seq<Step> := [];
    assert steps[..0] == steps;
    NoneCounted(first);
    DoubledIff(first, first, 0);
    hide Kept, Doubled;
  }

  lemma OnlyOnce(n: nat, k: nat)
    requires k > 0
    ensures n * k == 1 * k <==> n == 1
  {
  }

  /** The vault is what an undisturbed migration leaves exactly when one copy is counted. */
  lemma LeavesSettledIff(first: Disk, steps: seq<Step>)
    requires Migratable(first) && first.legacy.Json? && Kept(first) != [] && LoadsOnly(steps)
    ensures After(first, steps).disk.vault == Settled(first).vault <==> CountAll(first, steps).vault == 1
  {
    var d, n := After(first, steps).disk, CountAll(first, steps).vault;
    VaultCounted(first, steps);
    OnceIsSettled(first);
    ListLength(first, n);
    ListLength(first, 1);
    OnlyOnce(n, |Kept(first)|);
    hide Kept, List, CountAll, After, Settled;
  }

  lemma OnceIsSettled(first: Disk)
    requires Migratable(first) && first.legacy.Json?
    ensures Settled(first).vault == Json(List(first, 1))
  {
    hide MigrateAll;
    assert Copies(Kept(first), 0) == [];
  }

  // ---- two loads at once ----

  /** Two calls that both find the legacy list, the second of which reads the vault after the first has saved. */
  function Overlap(): seq<Step> {
    [NewCall, NewCall, Await(0), Await(0), Await(1), Await(1), Await(0), Await(0), Await(1), Await(1)]
  }

  /** They double the configs of every store, without a crash. */
  lemma OverlapDoubles(first: Disk)
    requires Migratable(first) && first.legacy.Json?
    ensures var w := After(first, Overlap());
            Crash !in Overlap() && w.disk == first.(vault := Json(List(first, 2))) && w.calls == [Saved, Saved]
  {
    var list, one, two := Configs(first.legacy), List(first, 1), List(first, 2);
    var saved := first.(vault := Json(one));
    OneMoreCopy(first, 1);
    var steps := OverlapStarts(first);
    hide Run, After, List, MigrateAll, Configs, Kept;
    steps := Goes(first, steps, Await(0), World(first, [ExistingRead(one), LegacyRead(list)]));
    steps := Goes(first, steps, Await(0), World(saved, [Saved, LegacyRead(list)]));
    steps := Goes(first, steps, Await(1), World(saved, [Saved, ExistingRead(two)]));
    steps := Goes(first, steps, Await(1), World(first.(vault := Json(two)), [Saved, Saved]));
    assert steps == Overlap();
  }

  lemma OverlapStarts(first: Disk) returns (steps: seq<Step>)
    requires Migratable(first) && first.legacy.Json?
    ensures steps == [NewCall, NewCall, Await(0), Await(0), Await(1), Await(1)]
    ensures After(first, steps) == World(first, [LegacyRead(Configs(first.legacy)), LegacyRead(Configs(first.legacy))])
    ensures Configs(first.vault) + MigrateAll(Configs(first.legacy)) == List(first, 1)
  {
    var list := Configs(first.legacy);
    OneMoreCopy(first, 0);
    assert List(first, 0) == Configs(first.vault) by { assert Copies(Kept(first), 0) == []; }
    assert After(first, []) == World(first, []);
    hide Run, After, List, MigrateAll, Kept;
    steps := Goes(first, [], NewCall, World(first, [Started]));
    steps := Goes(first, steps, NewCall, World(first, [Started, Started]));
    steps := Goes(first, steps, Await(0), World(first, [SchemaRead, Started]));
    steps := Goes(first, steps, Await(0), World(first, [LegacyRead(list), Started]));
    steps := Goes(first, steps, Await(1), World(first, [LegacyRead(list), SchemaRead]));
    steps := Goes(first, steps, Await(1), World(first, [LegacyRead(list), LegacyRead(list)]));
  }

  lemma Goes(first: Disk, steps: seq<Step>, step: Step, w: World) returns (more: seq<Step>)
    requires Next(After(first, steps), step) == w
    ensures more == steps + [step] && After(first, more) == w
  {
    more := steps + [step];
    RunMore(World(first, []), steps, step);
  }
}
