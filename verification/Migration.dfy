/** The v1 to v2 store migration of config_store.dart, with crashes and overlapping calls. */
module Migration {
  import opened Text
  import opened VpnConfig

  /** A stored text: none, a list, or something jsonDecode rejects. */
  datatype Stored = Empty | Json(configs: seq<Config>) | Broken

  const CURRENT_SCHEMA := 2

  /** What survives a crash; the schema is 0 when it was never written. */
  datatype Disk = Disk(vault: Stored, schema: int, legacy: Stored)

  function Configs(s: Stored): seq<Config> {
    if s.Json? then s.configs else []
  }

  function Present(s: Option<string>): bool {
    s.Some? && s.value != ""
  }

  predicate Dropped(c: Config) {
    "locked:" <= c.raw
  }

  /** A config that came from a locked file is flagged and loses its visible server. */
  function Migrated(c: Config): Config {
    if c.locked || Present(c.adText) || Present(c.telegramUrl)
    then c.(locked := true, source := "locked", host := None, port := None) else c
  }

  function MigrateAll(list: seq<Config>): seq<Config> {
    if list == [] then []
    else
      var c := list[|list| - 1];
      MigrateAll(list[..|list| - 1]) + if Dropped(c) then [] else [Migrated(c)]
  }

  // ---- what becomes of a config ----

  /** The stored form of a legacy config: itself, or without its server and flagged when it came from a locked
      file, as a lock, an ad text or a channel link shows. */
  predicate Became(c: Config, m: Config) {
    && m.id == c.id && m.name == c.name && m.protocol == c.protocol && m.raw == c.raw && m.channelRef == c.channelRef
    && m.adText == c.adText && m.telegramUrl == c.telegramUrl
    && m.creator == c.creator && m.gateCode == c.gateCode && m.expiresAt == c.expiresAt
    && if c.locked || (c.adText.Some? && c.adText.value != "") || (c.telegramUrl.Some? && c.telegramUrl.value != "")
       then m.locked && m.source == "locked" && m.host == None && m.port == None
       else m == c
  }

  predicate StoredIn(c: Config, all: seq<Config>) {
    exists m <- all :: Became(c, m)
  }

  /** Every config of the list but those in the old format that no version opens. */
  predicate AllStored(list: seq<Config>, all: seq<Config>) {
    forall c <- list :: "locked:" <= c.raw || StoredIn(c, all)
  }

  lemma BecameIff(c: Config, m: Config)
    ensures Became(c, m) <==> m == Migrated(c)
  {
  }

  lemma StoredIff(c: Config, all: seq<Config>)
    ensures StoredIn(c, all) <==> Migrated(c) in all
  {
    hide Became, Migrated;
    BecameIff(c, Migrated(c));
    if StoredIn(c, all) {
      var m :| m in all && Became(c, m);
      BecameIff(c, m);
    }
  }

  /** The migrated list holds every config but the `locked:` ones, in its stored form, and nothing else. */
  lemma {:induction false} MigratedMembers(list: seq<Config>)
    ensures AllStored(list, MigrateAll(list))
    ensures forall m <- MigrateAll(list) :: !("locked:" <= m.raw) && exists c <- list :: Became(c, m)
  {
    hide Migrated, Became;
    if list != [] {
      var before, c := list[..|list| - 1], list[|list| - 1];
      var done, all := MigrateAll(before), MigrateAll(list);
      MigratedMembers(before);
      BecameIff(c, Migrated(c));
      assert list == before + [c];
      assert Migrated(c).raw == c.raw by { MigratedLink(c); }
      forall x <- list | !("locked:" <= x.raw) ensures StoredIn(x, all) {
        if x in before {
          assert StoredIn(x, done);
          var m :| m in done && Became(x, m);
          assert m in all;
        } else {
          assert Migrated(c) in all;
        }
      }
      forall m <- all ensures !("locked:" <= m.raw) && exists x <- list :: Became(x, m) {
        if m in done {
          var x :| x in before && Became(x, m);
          assert x in list;
        } else {
          assert c in list;
        }
      }
    }
  }

  lemma MigratedLink(c: Config)
    ensures Migrated(c).raw == c.raw
  {
  }

  /** The order is kept. */
  lemma {:induction false} MigrateConcat(a: seq<Config>, b: seq<Config>)
    ensures MigrateAll(a + b) == MigrateAll(a) + MigrateAll(b)
  {
    hide Migrated, Dropped;
    if b == [] {
      assert a + b == a;
    } else {
      MigrateConcat(a, b[..|b| - 1]);
      assert (a + b)[..|a + b| - 1] == a + b[..|b| - 1];
    }
  }

  // ---- the store object ----

  /** The disk after one undisturbed migration. */
  function Settled(d: Disk): Disk {
    if d.schema >= CURRENT_SCHEMA then d
    else
      match d.legacy
      case Empty => d.(schema := CURRENT_SCHEMA)
      case Broken => d
      case Json(list) =>
        if d.vault.Broken? then d
        else Disk(Json(Configs(d.vault) + MigrateAll(list)), CURRENT_SCHEMA, Empty)
  }

  /** An undisturbed migration adds the stored forms to what the vault had, wipes the legacy copy and marks the
      schema; it does nothing twice, and nothing when a text cannot be decoded. */
  lemma SettledMeans(d: Disk)
    ensures d.schema >= 2 ==> Settled(d) == d
    ensures d.schema < 2 && d.legacy == Empty ==> Settled(d) == d.(schema := 2)
    ensures d.schema < 2 && (d.legacy.Broken? || (d.legacy.Json? && d.vault.Broken?)) ==> Settled(d) == d
    ensures d.schema < 2 && d.legacy.Json? && !d.vault.Broken? ==>
              var s, had := Settled(d), if d.vault.Json? then d.vault.configs else [];
              && s.schema == 2 && s.legacy == Empty && s.vault.Json? && had <= s.vault.configs
              && AllStored(d.legacy.configs, s.vault.configs[|had|..])
              && forall m <- s.vault.configs[|had|..] :: !("locked:" <= m.raw) && exists c <- d.legacy.configs :: Became(c, m)
  {
    if d.legacy.Json? {
      MigratedMembers(d.legacy.configs);
      var had := Configs(d.vault);
      assert (had + MigrateAll(d.legacy.configs))[|had|..] == MigrateAll(d.legacy.configs);
    }
    hide MigrateAll, AllStored, Became;
  }

  class ConfigStore {
    var d: Disk

    constructor (d: Disk)
      ensures this.d == d
    {
      this.d := d;
    }

    /** _migrateIfNeeded: every statement that touches the disk is one awaited read or write. */
    method MigrateIfNeeded()
      modifies this
      ensures d == Settled(old(d))
    {
      if d.schema >= CURRENT_SCHEMA { return; }
      var legacyRaw := d.legacy;
      if legacyRaw != Empty {
        if legacyRaw.Broken? { return; }
        var list := legacyRaw.configs;
        var migrated := [];
        for i := 0 to |list|
          invariant migrated == MigrateAll(list[..i])
        {
          assert list[..i + 1][..i] == list[..i];
          var c := list[i];
          if "locked:" <= c.raw { continue; }
          var cameFromLockedFile := c.locked || Present(c.adText) || Present(c.telegramUrl);
          migrated := migrated + [if cameFromLockedFile
                                  then c.(locked := true, source := "locked", host := None, port := None) else c];
        }
        assert list[..|list|] == list;
        var existing := d.vault;
        if existing.Broken? { return; }
        var merged := (if existing.Json? then existing.configs else []) + migrated;
        d := d.(vault := Json(merged));
        d := d.(legacy := Empty);
      }
      d := d.(schema := CURRENT_SCHEMA);
    }

    /** add, which loads first; None is a vault that cannot be decoded. */
    method Add(incoming: seq<Config>) returns (r: Option<seq<Config>>)
      modifies this
      ensures var s := Settled(old(d));
              if s.vault.Broken? then r == None && d == s
              else r == Some(WithNew(Configs(s.vault), incoming)) && d == s.(vault := Json(r.value))
    {
      hide Settled, Links;
      MigrateIfNeeded();
      ghost var settled := d;
      if d.vault.Broken? { return None; }
      var current := Configs(d.vault);
      var seen, merged := Links(current), current;
      for i := 0 to |incoming|
        invariant merged == WithNew(current, incoming[..i]) && seen == Links(merged) && d == settled
      {
        assert incoming[..i + 1][..i] == incoming[..i];
        var c := incoming[i];
        if c.raw !in seen {
          LinksOfMore(merged, c);
          seen, merged := seen + {c.raw}, merged + [c];
        }
      }
      assert incoming[..|incoming|] == incoming;
      d := d.(vault := Json(merged));
      return Some(merged);
    }
  }

  // ---- adding ----

  /** The configs with each incoming one appended whose link is not there yet. */
  function WithNew(current: seq<Config>, incoming: seq<Config>): seq<Config> {
    if incoming == [] then current
    else
      var before, c := WithNew(current, incoming[..|incoming| - 1]), incoming[|incoming| - 1];
      if c.raw in Links(before) then before else before + [c]
  }

  lemma NothingNew(current: seq<Config>)
    ensures WithNew(current, []) == current
  {
  }

  lemma NewStep(current: seq<Config>, before: seq<Config>, c: Config)
    ensures var was := WithNew(current, before);
            WithNew(current, before + [c]) == if c.raw in Links(was) then was else was + [c]
  {
    assert (before + [c])[..|before|] == before;
  }

  /** Adding keeps what is stored, in place and in number, and stores every new link exactly once. */
  lemma {:induction false} AddCounts(current: seq<Config>, incoming: seq<Config>, link: string)
    ensures current <= WithNew(current, incoming)
    ensures Times(WithNew(current, incoming), link)
         == if link in Links(current) || link !in Links(incoming) then Times(current, link) else 1
  {
    hide Links, Times, WithNew;
    LinksOfNone();
    if incoming == [] {
      NothingNew(current);
    } else {
      var before, c := incoming[..|incoming| - 1], incoming[|incoming| - 1];
      var was := WithNew(current, before);
      AddCounts(current, before, link);
      NewStep(current, before, c);
      LinksOfMore(before, c);
      assert before + [c] == incoming;
      TimesOfLink(was, link);
      TimesOfLink(current, link);
      TimesConcat(was, [c], link);
      TimesOfOne(c, link);
    }
  }

  /** Adding the same configs again changes nothing. */
  lemma {:induction false} AddTwice(current: seq<Config>, incoming: seq<Config>)
    requires Links(incoming) <= Links(current)
    ensures WithNew(current, incoming) == current
  {
    hide Links;
    if incoming != [] {
      var before, c := incoming[..|incoming| - 1], incoming[|incoming| - 1];
      LinksOfMore(before, c);
      assert before + [c] == incoming;
      AddTwice(current, before);
    }
  }

  /** Every link of the added list is stored afterwards, so that a repeated add finds them all. */
  lemma AddSettles(current: seq<Config>, incoming: seq<Config>)
    ensures WithNew(WithNew(current, incoming), incoming) == WithNew(current, incoming)
  {
    hide Links, WithNew, Times;
    var all := WithNew(current, incoming);
    forall link <- Links(incoming) ensures link in Links(all) {
      AddCounts(current, incoming, link);
      TimesOfLink(current, link);
      TimesOfLink(all, link);
    }
    AddTwice(all, incoming);
  }

  // ---- calls that overlap at their awaits ----

  /** Where one call of load or add is; the comment names what it has done last. */
  datatype Call =
    | Started
    | SchemaRead                          // the schema was old
    | LegacyRead(list: seq<Config>)        // the legacy list decoded
    | ExistingRead(merged: seq<Config>)   // the merged list is in memory
    | Saved                               // the merged list is in the vault
    | Cleared                             // the legacy copy is gone, or there was none
    | MigrationDone                      // _migrateIfNeeded returned
    | Loaded(current: seq<Config>)        // load returned

  datatype World = World(disk: Disk, calls: seq<Call>)

  /** One await of call i, the save of an add, a save of any other list at any time, a new call, or a crash. */
  datatype Step = Await(i: nat) | SaveAdded(i: nat, added: seq<Config>) | Replace(configs: seq<Config>) | NewCall | Crash

  /** One await of a call: the new disk and where the call is then; a call that throws starts over. */
  function Advance(d: Disk, c: Call): (Disk, Call) {
    match c
    case Started => (d, if d.schema >= CURRENT_SCHEMA then MigrationDone else SchemaRead)
    case SchemaRead =>
      (d, match d.legacy case Empty => Cleared case Broken => MigrationDone case Json(list) => LegacyRead(list))
    case LegacyRead(list) =>
      (d, if d.vault.Broken? then MigrationDone else ExistingRead(Configs(d.vault) + MigrateAll(list)))
    case ExistingRead(merged) => (d.(vault := Json(merged)), Saved)
    case Saved => (d.(legacy := Empty), Cleared)
    case Cleared => (d.(schema := CURRENT_SCHEMA), MigrationDone)
    case MigrationDone => (d, if d.vault.Broken? then Started else Loaded(Configs(d.vault)))
    case Loaded(_) => (d, Started)
  }

  function Next(w: World, step: Step): World {
    match step
    case Await(i) =>
      if i >= |w.calls| then w
      else
        var (d, c) := Advance(w.disk, w.calls[i]);
        World(d, w.calls[i := c])
    case SaveAdded(i, added) =>
      if i >= |w.calls| || !w.calls[i].Loaded? then w
      else World(w.disk.(vault := Json(w.calls[i].current + added)), w.calls[i := Started])
    case Replace(configs) => w.(disk := w.disk.(vault := Json(configs)))
    case NewCall => w.(calls := w.calls + [Started])
    case Crash => w.(calls := [])
  }

  function Run(w: World, steps: seq<Step>): World {
    if steps == [] then w else Next(Run(w, steps[..|steps| - 1]), steps[|steps| - 1])
  }

  // ---- nothing is lost ----

  /** The configs of the first launch that have to survive. */
  function Kept(first: Disk): seq<Config> {
    MigrateAll(Configs(first.legacy))
  }

  predicate Includes(all: seq<Config>, some: seq<Config>) {
    forall m <- some :: m in all
  }

  predicate Holds(d: Disk, first: Disk) {
    Includes(Configs(d.vault), Kept(first))
  }

  /** The migration can run: neither text is broken and the schema is old. */
  predicate Migratable(first: Disk) {
    first.schema < CURRENT_SCHEMA && !first.legacy.Broken? && !first.vault.Broken?
  }

  /** The legacy list can be migrated, at once or when the vault can be read again. */
  predicate Convertible(first: Disk) {
    first.schema < CURRENT_SCHEMA && !first.legacy.Broken?
  }

  predicate CallSafe(c: Call, d: Disk, first: Disk) {
    if Convertible(first) then
      match c
      case Started => true
      case SchemaRead => true
      case LegacyRead(list) => list == Configs(first.legacy)
      case ExistingRead(merged) => Includes(merged, Kept(first))
      case MigrationDone => Holds(d, first) || d.vault.Broken?
      case Loaded(current) => Includes(current, Kept(first)) && Holds(d, first)
      case _ => Holds(d, first)
    else
      match c
      case SchemaRead => first.legacy.Broken?
      case LegacyRead(_) => false
      case ExistingRead(_) => false
      case Saved => false
      case Cleared => false
      case _ => true
  }

  predicate DiskSafe(d: Disk, first: Disk) {
    if Convertible(first) then
      && ((d.legacy == first.legacy && d.schema < CURRENT_SCHEMA) || Holds(d, first))
      && (d.legacy == first.legacy || d.legacy == Empty)
    else
      d.legacy == first.legacy && (first.schema >= CURRENT_SCHEMA ==> d.schema >= CURRENT_SCHEMA)
  }

  predicate Safe(w: World, first: Disk) {
    DiskSafe(w.disk, first) && forall i | 0 <= i < |w.calls| :: CallSafe(w.calls[i], w.disk, first)
  }

  lemma AdvanceSafe(d: Disk, c: Call, first: Disk)
    requires DiskSafe(d, first) && CallSafe(c, d, first)
    ensures var (d', c') := Advance(d, c);
            && DiskSafe(d', first) && CallSafe(c', d', first)
            && (Convertible(first) ==> (Holds(d, first) ==> Holds(d', first)) && (Holds(d', first) || d'.vault == d.vault))
  {
    assert MigrateAll([]) == [];
    hide MigrateAll;
  }

  /** Lists saved from outside the migration have the migrated configs in them. */
  predicate Keeps(step: Step, first: Disk) {
    step.Replace? ==> Includes(step.configs, Kept(first))
  }

  lemma StepSafe(w: World, step: Step, first: Disk)
    requires Safe(w, first) && Keeps(step, first)
    ensures Safe(Next(w, step), first)
  {
    hide Kept;
    var w' := Next(w, step);
    match step {
      case Await(i) =>
        if i < |w.calls| {
          AdvanceSafe(w.disk, w.calls[i], first);
          hide Advance;
          var (d, c) := Advance(w.disk, w.calls[i]);
          forall j | 0 <= j < |w.calls| && j != i ensures CallSafe(w.calls[j], d, first) {
            assert CallSafe(w.calls[j], w.disk, first);
          }
        }
      case SaveAdded(i, added) =>
        if i < |w.calls| && w.calls[i].Loaded? {
          assert CallSafe(w.calls[i], w.disk, first);
          forall j | 0 <= j < |w.calls| ensures CallSafe(w'.calls[j], w'.disk, first) {
            assert CallSafe(w.calls[j], w.disk, first);
          }
        }
      case Replace(configs) =>
        forall j | 0 <= j < |w.calls| ensures CallSafe(w'.calls[j], w'.disk, first) {
          assert CallSafe(w.calls[j], w.disk, first);
        }
      case NewCall =>
      case Crash =>
    }
  }

  predicate AllKeep(steps: seq<Step>, first: Disk) {
    forall s <- steps :: Keeps(s, first)
  }

  lemma {:induction false} RunSafe(w: World, steps: seq<Step>, first: Disk)
    requires Safe(w, first) && AllKeep(steps, first)
    ensures Safe(Run(w, steps), first)
  {
    hide Safe, Next, Keeps;
    if steps != [] {
      var before, step := steps[..|steps| - 1], steps[|steps| - 1];
      assert step in steps && forall s <- before :: s in steps;
      RunSafe(w, before, first);
      StepSafe(Run(w, before), step, first);
    }
  }

  /** The legacy copy is still there or the vault holds every legacy config in its stored form. */
  predicate Survive(d: Disk, first: Disk) {
    d.legacy == first.legacy || AllStored(Configs(first.legacy), Configs(d.vault))
  }

  lemma HoldsIff(d: Disk, first: Disk)
    ensures Holds(d, first) <==> AllStored(Configs(first.legacy), Configs(d.vault))
  {
    hide MigrateAll, Migrated, Became, StoredIn;
    var list, kept, all := Configs(first.legacy), Kept(first), Configs(d.vault);
    MigratedMembers(list);
    forall c: Config ensures StoredIn(c, all) <==> Migrated(c) in all { StoredIff(c, all); }
    forall c: Config ensures StoredIn(c, kept) <==> Migrated(c) in kept { StoredIff(c, kept); }
    if AllStored(list, all) {
      forall m <- kept ensures m in all {
        var c :| c in list && Became(c, m);
        BecameIff(c, m);
        SameLink(c, m);
      }
    }
  }

  lemma SameLink(c: Config, m: Config)
    requires Became(c, m)
    ensures c.raw == m.raw
  {
  }

  /** Over any run of overlapping loads and adds, with crashes at any await and any number of restarts, and with
      other saves of lists that keep the migrated configs, none of the legacy configs is lost. */
  lemma NothingIsLost(first: Disk, steps: seq<Step>)
    requires AllKeep(steps, first)
    ensures Survive(Run(World(first, []), steps).disk, first)
  {
    hide MigrateAll, Migrated, Dropped, Next, AllKeep, AllStored;
    RunSafe(World(first, []), steps, first);
    HoldsIff(Run(World(first, []), steps).disk, first);
  }

  /** The step that wipes the legacy copy finds every legacy config already in the vault. */
  lemma WipedOnlyWhenHeld(first: Disk, steps: seq<Step>, step: Step)
    requires AllKeep(steps, first)
    requires var w := Run(World(first, []), steps);
             w.disk.legacy != Empty && Next(w, step).disk.legacy == Empty
    ensures var d := Run(World(first, []), steps).disk;
            AllStored(Configs(first.legacy), Configs(d.vault))
  {
    hide MigrateAll, Migrated, Dropped, AllKeep, AllStored;
    var w := Run(World(first, []), steps);
    RunSafe(World(first, []), steps, first);
    HoldsIff(w.disk, first);
    assert step.Await? && w.calls[step.i] == Saved;
    assert CallSafe(w.calls[step.i], w.disk, first);
  }

  // ---- a list saved over the migration ----

  /** Before the wipe no call has finished migrating. */
  predicate Early(w: World, first: Disk) {
    && (w.disk.legacy == first.legacy || w.disk.legacy == Empty)
    && (w.disk.legacy == first.legacy ==>
          w.disk.schema < CURRENT_SCHEMA && !w.disk.vault.Broken?
          && forall i | 0 <= i < |w.calls| ::
               w.calls[i].Started? || w.calls[i].SchemaRead? || w.calls[i].LegacyRead?
                || w.calls[i].ExistingRead? || w.calls[i].Saved?)
  }

  lemma {:induction false} RunEarly(first: Disk, steps: seq<Step>)
    requires Migratable(first) && first.legacy.Json?
    ensures Early(Run(World(first, []), steps), first)
  {
    hide MigrateAll;
    if steps != [] { RunEarly(first, steps[..|steps| - 1]); }
  }

  /** Nothing is lost in whatever follows. */
  ghost predicate StaysSafe(w: World, first: Disk) {
    forall more | AllKeep(more, first) :: Survive(Run(w, more).disk, first)
  }

  lemma LostNow(w: World, first: Disk)
    requires !Survive(w.disk, first)
    ensures !StaysSafe(w, first)
  {
    assert AllKeep([], first) && Run(w, []) == w;
    hide Survive;
  }

  lemma LostNext(w: World, first: Disk, i: nat)
    requires i < |w.calls| && w.calls[i] == Saved && !Holds(w.disk, first) && first.legacy.Json?
    ensures !StaysSafe(w, first)
  {
    var steps := [Await(i)];
    assert AllKeep(steps, first) && steps[..0] == [];
    assert Run(w, []) == w;
    HoldsIff(Run(w, steps).disk, first);
    hide Holds;
  }

  /** A list saved at any time, from whatever knowledge of the store, does no harm exactly when it has the migrated
      configs in it, or comes while the legacy copy is there and no call is about to wipe it. */
  lemma ReplaceIsSafeIff(first: Disk, steps: seq<Step>, configs: seq<Config>)
    requires Migratable(first) && first.legacy.Json? && AllKeep(steps, first)
    ensures var w := Run(World(first, []), steps);
            StaysSafe(Next(w, Replace(configs)), first)
            <==> Includes(configs, Kept(first)) || (w.disk.legacy == first.legacy && Saved !in w.calls)
  {
    var w := Run(World(first, []), steps);
    var w' := Next(w, Replace(configs));
    RunSafe(World(first, []), steps, first);
    RunEarly(first, steps);
    HoldsIff(w'.disk, first);
    hide Run, Kept, AllKeep, StaysSafe;
    if Includes(configs, Kept(first)) {
      StepSafe(w, Replace(configs), first);
      SafeStays(w', first);
    } else if w.disk.legacy == first.legacy && Saved !in w.calls {
      forall i | 0 <= i < |w.calls| ensures CallSafe(w'.calls[i], w'.disk, first) {
        assert w.calls[i] in w.calls && CallSafe(w.calls[i], w.disk, first);
      }
      SafeStays(w', first);
    } else if w.disk.legacy == first.legacy {
      var i :| 0 <= i < |w.calls| && w.calls[i] == Saved;
      LostNext(w', first, i);
    } else {
      LostNow(w', first);
    }
  }

  lemma SafeStays(w: World, first: Disk)
    requires Safe(w, first)
    ensures StaysSafe(w, first)
  {
    hide AllKeep, Run, Kept;
    forall more | AllKeep(more, first) ensures Survive(Run(w, more).disk, first) {
      RunSafe(w, more, first);
      HoldsIff(Run(w, more).disk, first);
    }
  }

  // ---- and the migration does finish ----

  function Awaited(d: Disk, c: Call, n: nat): (Disk, Call) {
    if n == 0 then (d, c) else var (d', c') := Awaited(d, c, n - 1); Advance(d', c')
  }

  /** A call that nothing interrupts does what MigrateIfNeeded does, within six awaits. */
  lemma UndisturbedCallSettles(d: Disk)
    ensures exists n: nat | n <= 6 :: Awaited(d, Started, n) == (Settled(d), MigrationDone)
  {
    hide MigrateAll;
    var c0 := Awaited(d, Started, 0);
    var c1 := Awaited(d, Started, 1);
    assert c1 == Advance(d, Started);
    if d.schema < CURRENT_SCHEMA {
      var c2 := Awaited(d, Started, 2);
      assert c2 == Advance(d, SchemaRead);
      var c3 := Awaited(d, Started, 3);
      assert c3 == Advance(c2.0, c2.1);
      if d.legacy.Json? && !d.vault.Broken? {
        var merged := Configs(d.vault) + MigrateAll(d.legacy.configs);
        assert c3 == (d, ExistingRead(merged));
        assert Awaited(d, Started, 4) == (d.(vault := Json(merged)), Saved);
        assert Awaited(d, Started, 5) == (d.(vault := Json(merged), legacy := Empty), Cleared);
        assert Awaited(d, Started, 6) == (Settled(d), MigrationDone);
      }
    }
  }

  // ---- launches cut short ----

  /** `n` awaits of the first call of a launch, and a crash; six awaits and more are a whole migration. */
  function Launch(n: nat): seq<Step> {
    [NewCall] + seq(n, _ => Await(0)) + [Crash]
  }

  function Launches(cuts: seq<nat>): seq<Step> {
    if cuts == [] then [] else Launches(cuts[..|cuts| - 1]) + Launch(cuts[|cuts| - 1])
  }

  function DiskAfter(first: Disk, cuts: seq<nat>): Disk {
    Run(World(first, []), Launches(cuts)).disk
  }

  lemma {:induction false} RunConcat(w: World, a: seq<Step>, b: seq<Step>)
    ensures Run(w, a + b) == Run(Run(w, a), b)
  {
    hide Next;
    if b == [] {
      assert a + b == a;
    } else {
      RunConcat(w, a, b[..|b| - 1]);
      assert (a + b)[..|a + b| - 1] == a + b[..|b| - 1];
    }
  }

  lemma {:induction false} RunAwaits(d: Disk, n: nat)
    ensures Run(World(d, []), [NewCall] + seq(n, _ => Await(0))) == World(Awaited(d, Started, n).0, [Awaited(d, Started, n).1])
  {
    hide Advance;
    var steps := [NewCall] + seq(n, _ => Await(0));
    if n == 0 {
      assert steps == [NewCall] && steps[..0] == [];
    } else {
      RunAwaits(d, n - 1);
      assert steps[..n] == [NewCall] + seq(n - 1, _ => Await(0));
    }
  }

  lemma RunLaunch(d: Disk, n: nat)
    ensures Run(World(d, []), Launch(n)) == World(Awaited(d, Started, n).0, [])
  {
    RunAwaits(d, n);
    hide Awaited;
    var steps := [NewCall] + seq(n, _ => Await(0));
    assert Launch(n)[..|steps|] == steps;
  }

  lemma {:induction false} LaunchesEndCalls(first: Disk, cuts: seq<nat>)
    ensures Run(World(first, []), Launches(cuts)) == World(DiskAfter(first, cuts), [])
    decreases |cuts|, 1
  {
    hide Launch, Awaited, Run;
    if cuts != [] {
      LaunchStep(first, cuts);
    } else {
      NoSteps(World(first, []));
    }
  }

  lemma NoSteps(w: World)
    ensures Run(w, []) == w
  {
  }

  lemma {:induction false} LaunchStep(first: Disk, cuts: seq<nat>)
    requires cuts != []
    ensures var before, n := cuts[..|cuts| - 1], cuts[|cuts| - 1];
            Run(World(first, []), Launches(cuts)) == World(Awaited(DiskAfter(first, before), Started, n).0, [])
    decreases |cuts|, 0
  {
    hide Launch, Awaited, Run;
    var before, n := cuts[..|cuts| - 1], cuts[|cuts| - 1];
    RunConcat(World(first, []), Launches(before), Launch(n));
    LaunchesEndCalls(first, before);
    RunLaunch(DiskAfter(first, before), n);
  }

  /** Where a migration is after `n` awaits. */
  lemma {:induction false} Stages(d: Disk, n: nat)
    requires Migratable(d) && d.legacy.Json?
    ensures var merged := Json(Configs(d.vault) + MigrateAll(d.legacy.configs));
            var (d', c) := Awaited(d, Started, n);
            && (n == 1 ==> c == SchemaRead) && (n == 2 ==> c == LegacyRead(d.legacy.configs))
            && (n == 3 ==> c == ExistingRead(merged.configs)) && (n == 4 ==> c == Saved) && (n == 5 ==> c == Cleared)
            && (n >= 6 ==> c in {Started, MigrationDone, Loaded(merged.configs)})
            && d' == if n < 4 then d
                     else Disk(merged, if n < 6 then d.schema else CURRENT_SCHEMA, if n < 5 then d.legacy else Empty)
  {
    hide MigrateAll;
    if n > 0 { Stages(d, n - 1); }
  }

  /** Once the legacy copy is wiped, no launch touches the vault. */
  lemma {:induction false} WipedStages(d: Disk, n: nat)
    requires d.legacy == Empty && !d.vault.Broken?
    ensures var (d', c) := Awaited(d, Started, n);
            d'.vault == d.vault && d'.legacy == Empty
            && c in {Started, SchemaRead, Cleared, MigrationDone, Loaded(Configs(d.vault))}
  {
    if n > 0 { WipedStages(d, n - 1); }
  }

  // ---- when a crash duplicates ----

  predicate Wiped(cuts: seq<nat>) {
    exists i | 0 <= i < |cuts| :: cuts[i] >= 5
  }

  /** How often the legacy configs are saved: by every launch that saves, up to the one that wipes. */
  function Saves(cuts: seq<nat>): nat {
    if cuts == [] then 0
    else
      var before := cuts[..|cuts| - 1];
      Saves(before) + if !Wiped(before) && cuts[|cuts| - 1] >= 4 then 1 else 0
  }

  function Copies(kept: seq<Config>, n: nat): seq<Config> {
    if n == 0 then [] else Copies(kept, n - 1) + kept
  }

  lemma WipedMore(cuts: seq<nat>, n: nat)
    ensures Wiped(cuts + [n]) <==> Wiped(cuts) || n >= 5
  {
    var all := cuts + [n];
    assert all[|cuts|] == n && forall i | 0 <= i < |cuts| :: all[i] == cuts[i];
  }

  /** The old configs and so many copies of the migrated ones in the vault; the legacy copy wiped or intact. */
  predicate HoldsCopies(d: Disk, first: Disk, copies: nat, wiped: bool) {
    && Configs(d.vault) == Configs(first.vault) + Copies(Kept(first), copies) && !d.vault.Broken?
    && d.legacy == (if wiped then Empty else first.legacy) && (!wiped ==> d.schema < CURRENT_SCHEMA)
  }

  lemma LaunchStores(first: Disk, d: Disk, copies: nat, wiped: bool, n: nat)
    requires Migratable(first) && first.legacy.Json? && HoldsCopies(d, first, copies, wiped)
    ensures HoldsCopies(Awaited(d, Started, n).0, first, copies + if !wiped && n >= 4 then 1 else 0, wiped || n >= 5)
  {
    hide MigrateAll, Awaited;
    if wiped {
      WipedStages(d, n);
    } else {
      Stages(d, n);
      var had, k := Configs(first.vault), Kept(first);
      assert had + Copies(k, copies) + k == had + Copies(k, copies + 1);
    }
  }

  /** After any launches, each cut short anywhere: the vault holds the old configs and one copy of the migrated
      ones for every save. */
  lemma {:induction false} CopiesStored(first: Disk, cuts: seq<nat>)
    requires Migratable(first) && first.legacy.Json?
    ensures HoldsCopies(DiskAfter(first, cuts), first, Saves(cuts), Wiped(cuts))
  {
    if cuts == [] {
      NoSteps(World(first, []));
      hide Run;
      assert Configs(first.vault) + [] == Configs(first.vault);
    } else {
      var before, n := cuts[..|cuts| - 1], cuts[|cuts| - 1];
      assert before + [n] == cuts;
      hide Run, Launches, Awaited, Wiped, HoldsCopies, Migratable;
      CopiesStored(first, before);
      LaunchStep(first, cuts);
      WipedMore(before, n);
      LaunchStores(first, DiskAfter(first, before), Saves(before), Wiped(before), n);
    }
  }

  /** A launch cut between the save and the wipe, before any launch has wiped. */
  predicate CutAfterSave(cuts: seq<nat>) {
    exists i | 0 <= i < |cuts| :: cuts[i] == 4 && !Wiped(cuts[..i])
  }

  lemma CutMore(cuts: seq<nat>, n: nat)
    ensures CutAfterSave(cuts + [n]) <==> CutAfterSave(cuts) || (n == 4 && !Wiped(cuts))
  {
    hide Wiped;
    var all := cuts + [n];
    assert all[..|cuts|] == cuts && all[|cuts|] == n;
    assert forall i | 0 <= i < |cuts| :: all[i] == cuts[i] && all[..i] == cuts[..i];
  }

  lemma {:induction false} SavedOnceIff(cuts: seq<nat>)
    ensures Saves(cuts) >= if Wiped(cuts) then 1 else 0
    ensures Saves(cuts) == (if Wiped(cuts) then 1 else 0) <==> !CutAfterSave(cuts)
  {
    if cuts != [] {
      var before, n := cuts[..|cuts| - 1], cuts[|cuts| - 1];
      assert before + [n] == cuts;
      SavedOnceIff(before);
      WipedMore(before, n);
      CutMore(before, n);
      hide Wiped, CutAfterSave;
    }
  }

  lemma {:induction false} CopiesLength(kept: seq<Config>, n: nat)
    ensures |Copies(kept, n)| == n * |kept|
  {
    if n > 0 { CopiesLength(kept, n - 1); }
  }

  /** Whatever launches were cut short, the one that migrates leaves what an undisturbed migration leaves exactly
      when none was cut between the save and the wipe. */
  lemma DuplicatesIff(first: Disk, cuts: seq<nat>)
    requires Migratable(first) && first.legacy.Json? && Kept(first) != []
    ensures DiskAfter(first, cuts + [6]).vault == Settled(first).vault <==> !CutAfterSave(cuts)
  {
    var all := cuts + [6];
    CopiesStored(first, all);
    SavedOnceIff(all);
    WipedMore(cuts, 6);
    CutMore(cuts, 6);
    hide DiskAfter, Wiped, CutAfterSave, Saves, MigrateAll;
    var k := Kept(first);
    CopiesLength(k, Saves(all));
    CopiesLength(k, 1);
    assert Copies(k, 1) == k by { assert Copies(k, 0) == []; }
    hide Copies;
    assert Settled(first).vault == Json(Configs(first.vault) + k);
    if DiskAfter(first, all).vault == Settled(first).vault {
      assert |Copies(k, Saves(all))| == |k|;
    }
    assert all[|cuts|] == 6;
  }
}
