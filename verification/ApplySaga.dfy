/**
 The "apply" action of the profiles panel: one profile written across the profiles store,
 models.json, the materialised routing and Pi's settings, with compensation on failure
 (extensions/gentle-ai.ts:4204-4361; lib/profiles-orchestrator.ts:44-133).
 */
module ApplySaga {
  import opened Common
  import opened OrderedMaps
  import opened Frontmatter
  import opened ModelRouting
  import Text

  datatype ProfilesFile = ProfilesFile(profiles: map<Name, Config>, active: Option<Name>)

  /** Pi's settings.json; `printed` says whether its text is the one this extension would print. */
  datatype Settings =
    | NoSettings
    | BadSettings(id: Opaque)
    | Settings(provider: Option<string>, model: Option<string>, thinking: Option<string>, rest: Opaque, printed: bool)

  /** Everything the action can read or write. The faults of all writes are in `disk`. */
  datatype Machine = Machine(
    disk: Disk,
    stored: Option<ProfilesFile>,
    models: Option<Config>,
    settings: Settings,
    localPin: Option<Name>)

  /** `restored` is what the warning of a reverted apply reports. */
  datatype Outcome = Returned(file: ProfilesFile, restored: Option<string>) | Threw

  // ----- Normalising a profile -----

  predicate IsAgentNameChar(c: char) {
    'A' <= c <= 'Z' || 'a' <= c <= 'z' || '0' <= c <= '9' || c in "._:@/+%-"
  }

  predicate IsAgentName(name: Name) {
    name != "" && forall i :: 0 <= i < |name| ==> IsAgentNameChar(name[i])
  }

  function NormalizeKeepingClear(e: Entry): Option<Entry> {
    if e == CLEAR then Some(CLEAR) else NormalizeEntry(e)
  }

  function Unusable(config: Config): set<Name> {
    set k | k in config.at && (!IsAgentName(k) || NormalizeKeepingClear(config.at[k]).None?)
  }

  /** `normalizeModelConfig`: safe names with usable entries. */
  function NormalizeConfig(config: Config): Config {
    var kept := config.Remove(Unusable(config));
    OrderedMap(kept.order, map k | k in kept.at :: NormalizeKeepingClear(kept.at[k]).GetOr(CLEAR))
  }

  lemma NormalizeConfigNormalizes(config: Config)
    requires config.Valid()
    ensures NormalizeConfig(config).Valid() && AllNormalized(NormalizeConfig(config))
    ensures Unusable(NormalizeConfig(config)) == {}
  {
    config.RemoveValid(Unusable(config));
    var once := NormalizeConfig(config);
    forall k | k in once.at
      ensures IsAgentName(k) && Normalized(once.at[k]) && NormalizeKeepingClear(once.at[k]) == Some(once.at[k])
    {
      NormalizedIsFixed(once.at[k]);
    }
  }

  /** A safe agent name by its character codes: letters, digits and `._:@/+%-`. */
  lemma AgentNameIff(name: Name)
    ensures IsAgentName(name) <==> |name| > 0 && forall c :: c in name ==>
      48 <= c as int <= 57 || 65 <= c as int <= 90 || 97 <= c as int <= 122 || c in ['.', '_', ':', '@', '/', '+', '%', '-']
  {
    forall c ensures IsAgentNameChar(c) <==>
      48 <= c as int <= 57 || 65 <= c as int <= 90 || 97 <= c as int <= 122 || c in ['.', '_', ':', '@', '/', '+', '%', '-']
    {
    }
    assert forall i :: 0 <= i < |name| ==> name[i] in name;
  }

  /** Normalising keeps exactly the safe names with an entry that is clear or has a valid field, in order, with what is valid in them. */
  lemma NormalizeConfigKeeps(config: Config, name: Name)
    ensures name in NormalizeConfig(config).at <==>
      && name in config.at && IsAgentName(name)
      && (config.at[name] == CLEAR
          || NormalizeModelId(config.at[name].model).Some?
          || (config.at[name].thinking.Some? && config.at[name].thinking.value in THINKING_LEVELS))
    ensures name in NormalizeConfig(config).at ==>
      var e, kept := config.at[name], NormalizeConfig(config).at[name];
      && kept.model == NormalizeModelId(e.model)
      && kept.thinking == (if e.thinking.Some? && e.thinking.value in THINKING_LEVELS then e.thinking else None)
    ensures config.Valid() ==> NormalizeConfig(config).order == Without(config.order, set k | k in config.at && k !in NormalizeConfig(config).at)
  {
    if config.Valid() {
      assert (set k | k in config.at && k !in NormalizeConfig(config).at) == Unusable(config);
    }
  }

  /** A normalised configuration is a fixed point, so models.json holds what was applied. */
  lemma NormalizeConfigIsIdempotent(config: Config)
    requires config.Valid()
    ensures NormalizeConfig(NormalizeConfig(config)) == NormalizeConfig(config)
  {
    NormalizeConfigNormalizes(config);
    NormalizedConfigIsFixed(NormalizeConfig(config));
  }

  lemma NormalizedConfigIsFixed(once: Config)
    requires once.Valid() && AllNormalized(once) && Unusable(once) == {}
    ensures NormalizeConfig(once) == once
  {
    once.RemoveNothing();
    forall k | k in once.at ensures NormalizeKeepingClear(once.at[k]) == Some(once.at[k]) {
      NormalizedIsFixed(once.at[k]);
    }
  }

  // ----- The orchestrator's settings -----

  function ParseModelRef(id: string): Option<(string, string)> {
    var normalized := NormalizeModelId(Some(id));
    if normalized.None? then None
    else
      var separator := Text.IndexOf(normalized.value, "/", 0);
      if separator <= 0 || separator == |normalized.value| - 1 then None
      else Some((normalized.value[..separator], normalized.value[separator + 1..]))
  }

  datatype SettingsPlan = Invalid | Unchanged | Write(next: Settings)

  function PlanSettings(settings: Settings, e: Entry): SettingsPlan {
    if e.model.None? then Unchanged
    else
      var ref := ParseModelRef(e.model.value);
      if ref.None? || settings.BadSettings? then Invalid
      else
        var rest := if settings.Settings? then settings.rest else 0;
        var next := Settings(Some(ref.value.0), Some(ref.value.1), e.thinking, rest, true);
        if next == settings then Unchanged else Write(next)
  }

  function OrchestratorOf(profile: Config): Option<Entry> {
    if PROFILE_ORCHESTRATOR_KEY in profile.at then AsOption(profile.at[PROFILE_ORCHESTRATOR_KEY]) else None
  }

  // ----- Single writes -----

  predicate Fails(m: Machine) {
    m.disk.NextWriteFails()
  }

  function Attempted(m: Machine): Machine {
    m.(disk := m.disk.AfterAttempt())
  }

  function WriteStored(m: Machine, file: ProfilesFile): Machine {
    if Fails(m) then Attempted(m) else Attempted(m).(stored := Some(file))
  }

  function WriteModels(m: Machine, config: Config): Machine {
    if Fails(m) then Attempted(m) else Attempted(m).(models := Some(NormalizeConfig(config)))
  }

  function Materialize(m: Machine, agents: seq<Agent>, config: Config): Machine {
    m.(disk := ApplyProfile(m.disk, agents, config).disk)
  }

  // ----- The action -----

  function ActiveConfig(file: ProfilesFile): Option<Config> {
    if file.active.Some? && file.active.value in file.profiles
    then Some(NormalizeConfig(file.profiles[file.active.value])) else None
  }

  /** Rewriting and materialising the previously active profile; the flag says whether all of it succeeded. */
  function RestoreRouting(m: Machine, agents: seq<Agent>, previous: Config): (Machine, bool) {
    if Fails(m) then (WriteModels(m, previous), false)
    else
      var written := WriteModels(m, previous);
      (Materialize(written, agents, previous), ApplyProfile(written.disk, agents, previous).ok)
  }

  function AppendRestored(restored: string, what: string): string {
    if restored == "" then what else restored + " and " + what
  }

  /**
   `revertClaim`. No path reaches it after the settings were written, so its settings rollback never
   has anything to undo.
   */
  function Revert(m: Machine, agents: seq<Agent>, file: ProfilesFile, routingWritten: bool): (Machine, string) {
    var previous := ActiveConfig(file);
    var (routed, ok) := if routingWritten && previous.Some? then RestoreRouting(m, agents, previous.value) else (m, true);
    var restored := if previous.Some? && ok then "routing" else "";
    (WriteStored(routed, file),
     if Fails(routed) then if restored == "" then "nothing" else restored
     else AppendRestored(restored, "active marker"))
  }

  function Claimed(file: ProfilesFile, name: Name): ProfilesFile {
    file.(active := Some(name))
  }

  function Reverted(m: Machine, agents: seq<Agent>, file: ProfilesFile, routingWritten: bool): (Machine, Outcome) {
    var (after, restored) := Revert(m, agents, file, routingWritten);
    (after, Returned(file, Some(restored)))
  }

  /** The last leg: Pi's settings. A write that throws here is not caught. */
  function WriteOrchestrator(m: Machine, agents: seq<Agent>, file: ProfilesFile, name: Name, e: Option<Entry>): (Machine, Outcome) {
    var plan := if e.Some? then PlanSettings(m.settings, e.value) else Unchanged;
    match plan
    case Invalid => Reverted(m, agents, file, true)
    case Unchanged => (m, Returned(Claimed(file, name), None))
    case Write(next) =>
      if Fails(m) then (Attempted(m), Threw)
      else (Attempted(m).(settings := next), Returned(Claimed(file, name), None))
  }

  function ApplyAction(m: Machine, agents: seq<Agent>, file: ProfilesFile, name: Name, pinWins: bool): (Machine, Outcome) {
    if name !in file.profiles then (m, Returned(file, None))
    else if pinWins then
      (if Fails(m) then Attempted(m) else Attempted(m).(localPin := Some(name)), Returned(file, None))
    else
      var profile := NormalizeConfig(file.profiles[name]);
      var claimed := WriteStored(m, Claimed(file, name));
      if Fails(m) then (claimed, Returned(file, None))
      else if Fails(claimed) then Reverted(WriteModels(claimed, profile), agents, file, false)
      else
        MaterializeStage(WriteModels(claimed, profile), agents, file, name, profile)
  }

  /** The action from the moment models.json holds the profile. */
  function MaterializeStage(written: Machine, agents: seq<Agent>, file: ProfilesFile, name: Name, profile: Config)
    : (Machine, Outcome)
  {
    var materialized := Materialize(written, agents, profile);
    if !ApplyProfile(written.disk, agents, profile).ok then Reverted(materialized, agents, file, true)
    else WriteOrchestrator(materialized, agents, file, name, OrchestratorOf(profile))
  }

  // ----- What a run leaves behind -----

  ghost predicate ValidFile(file: ProfilesFile) {
    forall name :: name in file.profiles ==> file.profiles[name].Valid()
  }

  /** The action reached the end with the profile applied. */
  predicate Succeeded(o: Outcome, file: ProfilesFile, name: Name) {
    o == Returned(Claimed(file, name), None)
  }

  predicate ReportsMarker(restored: string) {
    restored == "active marker" || restored == "routing and active marker"
  }

  predicate ReportsRouting(restored: string) {
    restored == "routing" || restored == "routing and active marker"
  }

  /** The one write that may fail without being caught: Pi's settings, after everything else succeeded. */
  predicate SettingsWriteFails(m: Machine, agents: seq<Agent>, file: ProfilesFile, name: Name, pinWins: bool) {
    && name in file.profiles && !pinWins && !Fails(m)
    && var profile := NormalizeConfig(file.profiles[name]);
       var claimed := WriteStored(m, Claimed(file, name));
       var written := WriteModels(claimed, profile);
       && !Fails(claimed) && ApplyProfile(written.disk, agents, profile).ok
       && OrchestratorOf(profile).Some?
       && PlanSettings(m.settings, OrchestratorOf(profile).value).Write?
       && Fails(Materialize(written, agents, profile))
  }

  /** A winning pin moves the clone's pin and nothing else. */
  lemma WinningPinIsLocal(m: Machine, agents: seq<Agent>, file: ProfilesFile, name: Name)
    ensures var (after, o) := ApplyAction(m, agents, file, name, true);
      && o == Returned(file, None)
      && after.stored == m.stored && after.models == m.models && after.settings == m.settings
      && after.disk.(faults := m.disk.faults) == m.disk
      && (after.localPin == if name in file.profiles && !Fails(m) then Some(name) else m.localPin)
  {
  }

  /**
   For a failure at any write the store handed back is the one passed in and Pi's settings keep their
   content, unless the failing write is the settings file itself: exactly then the action throws, with the
   new profile still claimed in the store.
   */
  lemma FailureKeepsStoreAndSettings(m: Machine, agents: seq<Agent>, file: ProfilesFile, name: Name, pinWins: bool)
    ensures var (after, o) := ApplyAction(m, agents, file, name, pinWins);
      && (o.Returned? && !Succeeded(o, file, name) ==> o.file == file && after.settings == m.settings)
      && (o.Threw? <==> SettingsWriteFails(m, agents, file, name, pinWins))
      && (o.Threw? ==> after.settings == m.settings && after.stored == Some(Claimed(file, name)))
  {
  }

  /** What a revert reports about the store, and what it leaves in it. */
  lemma RevertReportsMarker(m: Machine, agents: seq<Agent>, file: ProfilesFile, routingWritten: bool)
    ensures var (after, restored) := Revert(m, agents, file, routingWritten);
      && (ReportsMarker(restored) ==> after.stored == Some(file))
      && (!ReportsMarker(restored) ==> after.stored == m.stored && (restored == "routing" || restored == "nothing"))
      && after.settings == m.settings && after.localPin == m.localPin
  {
    var previous := ActiveConfig(file);
    if routingWritten && previous.Some? {
      assert RestoreRouting(m, agents, previous.value).0.stored == m.stored;
    }
    assert AppendRestored("routing", "active marker") == "routing and active marker";
  }

  /** The warning says "active marker" exactly when the store rewrite put the passed-in store back. */
  lemma MarkerReportIsTrue(m: Machine, agents: seq<Agent>, file: ProfilesFile, name: Name, pinWins: bool)
    ensures var (after, o) := ApplyAction(m, agents, file, name, pinWins);
      o.Returned? && o.restored.Some? ==>
        && (ReportsMarker(o.restored.value) ==> after.stored == Some(file))
        && (!ReportsMarker(o.restored.value) ==> after.stored == Some(Claimed(file, name)))
  {
    if name in file.profiles && !pinWins && !Fails(m) {
      var profile := NormalizeConfig(file.profiles[name]);
      var claimed := WriteStored(m, Claimed(file, name));
      var written := WriteModels(claimed, profile);
      RevertReportsMarker(written, agents, file, false);
      RevertReportsMarker(Materialize(written, agents, profile), agents, file, true);
    }
  }

  // ----- The routing after a failure -----

  /** Files this apply may not write read the same afterwards, even when it stopped half way. */
  ghost predicate Protected(before: Disk, after: Disk, a: Agent) {
    && (a.source.Builtin? || IsReviewRole(a.name) ==> FileRouting(after, a) == FileRouting(before, a))
    && (IsReviewRole(a.name) ==> Stored(after.StoreFor(a.source), a.name) == Stored(before.StoreFor(a.source), a.name))
  }

  lemma WriteProfileProtects(p: Progress, source: Source, name: Name, e: Entry, b: Agent)
    requires !IsReviewRole(name)
    ensures Protected(p.disk, WriteProfile(p, source, name, e).disk, b)
  {
    UpdateProfileEffect(p.disk.StoreFor(source), name, e);
  }

  lemma OneAgentProtects(p: Progress, a: Agent, config: Config, b: Agent)
    requires a == b || Apart(a, b)
    ensures Protected(p.disk, ApplyAgent(p, a, config).disk, b)
  {
    if p.ok && Routed(a, config) {
      var e := config.at[a.name];
      var afterFile := if a.source.Builtin? then p else WriteFrontmatter(p, a, e);
      assert Protected(p.disk, afterFile.disk, b);
      WriteProfileProtects(afterFile, a.source, a.name, e, b);
    }
  }

  lemma {:induction false} AgentsProtect(p: Progress, agents: seq<Agent>, all: seq<Agent>, config: Config, i: nat)
    requires Discovered(all) && agents <= all && i < |all|
    ensures Protected(p.disk, ApplyAgents(p, agents, config).disk, all[i])
  {
    if agents != [] {
      var n := |agents| - 1;
      AgentsProtect(p, agents[..n], all, config, i);
      assert agents[n] == all[n] && (i == n || Apart(all[n], all[i]));
      OneAgentProtects(ApplyAgents(p, agents[..n], config), agents[n], config, all[i]);
    }
  }

  lemma {:induction false} UnlistedProtect(p: Progress, names: seq<Name>, agents: seq<Agent>, config: Config, b: Agent)
    ensures Protected(p.disk, ApplyUnlisted(p, names, agents, config).disk, b)
  {
    if names != [] {
      var front, name := names[..|names| - 1], names[|names| - 1];
      var before := ApplyUnlisted(p, front, agents, config);
      UnlistedProtect(p, front, agents, config, b);
      if ClearsUnlisted(name, agents, config) {
        WriteProfileProtects(before, User, name, CLEAR, b);
      }
    }
  }

  lemma ApplyProtects(disk: Disk, agents: seq<Agent>, profile: Config, i: nat)
    requires Discovered(agents) && i < |agents|
    ensures Protected(disk, ApplyProfile(disk, agents, profile).disk, agents[i])
  {
    var config := Pad(agents, profile);
    var start := Progress(disk, true, 0, 0);
    AgentsProtect(start, agents, agents, config, i);
    UnlistedProtect(ApplyAgents(start, agents, config), config.order, agents, config, agents[i]);
  }

  /** Where the routing itself is, whatever happened to the rest of the machine. */
  ghost predicate SameRouting(m: Machine, after: Machine) {
    after.models == m.models && after.disk.(faults := m.disk.faults) == m.disk
  }

  /** After a compensated failure every agent reads the previously active profile again. */
  lemma RestoredRoutingReadsBack(m: Machine, after: Machine, agents: seq<Agent>, profile: Config, previous: Config, i: nat)
    requires Discovered(agents) && previous.Valid() && AllNormalized(previous) && i < |agents|
    requires after.disk == ApplyProfile(m.disk, agents, profile).disk
    requires RestoreRouting(after, agents, previous).1
    ensures ReadBack(RestoreRouting(after, agents, previous).0.disk, agents[i]) == ReadsAfter(m.disk, agents[i], previous)
  {
    var written := WriteModels(after, previous);
    ApplyReadsBack(written.disk, agents, previous, i);
    ApplyProtects(m.disk, agents, profile, i);
  }

  /**
   The routing a finished action leaves. On success every agent reads the new profile; when the failure came
   before any routing was written nothing moved; and when routing had been written, a previously active
   profile existed and restoring it is reported, every agent reads that profile again.
   */
  lemma RoutingAfterAction(m: Machine, agents: seq<Agent>, file: ProfilesFile, name: Name, i: nat)
    requires Discovered(agents) && ValidFile(file) && i < |agents| && name in file.profiles && !Fails(m)
    ensures var (after, o) := ApplyAction(m, agents, file, name, false);
      var profile := NormalizeConfig(file.profiles[name]);
      var modelsFail := Fails(WriteStored(m, Claimed(file, name)));
      && (!modelsFail && !(o.Returned? && o.restored.Some?) ==>
            after.models == Some(profile) && ReadBack(after.disk, agents[i]) == ReadsAfter(m.disk, agents[i], profile))
      && (modelsFail ==> SameRouting(m, after))
      && (!modelsFail && o.Returned? && o.restored.Some? && ReportsRouting(o.restored.value) ==>
            && ActiveConfig(file).Some? && after.models == ActiveConfig(file)
            && ReadBack(after.disk, agents[i]) == ReadsAfter(m.disk, agents[i], ActiveConfig(file).value))
  {
    var profile := NormalizeConfig(file.profiles[name]);
    var claimed := WriteStored(m, Claimed(file, name));
    NormalizeConfigNormalizes(file.profiles[name]);
    NormalizeConfigIsIdempotent(file.profiles[name]);
    if !Fails(claimed) {
      var written := WriteModels(claimed, profile);
      assert written.models == Some(profile) && written.disk.(faults := m.disk.faults) == m.disk;
      RoutingAfterStage(m, written, agents, file, name, profile, i);
    }
  }

  lemma RoutingAfterStage(m: Machine, written: Machine, agents: seq<Agent>, file: ProfilesFile, name: Name, profile: Config, i: nat)
    requires Discovered(agents) && ValidFile(file) && i < |agents| && profile.Valid() && AllNormalized(profile)
    requires written.models == Some(profile) && written.disk.(faults := m.disk.faults) == m.disk
    ensures var (after, o) := MaterializeStage(written, agents, file, name, profile);
      && (!(o.Returned? && o.restored.Some?) ==>
            after.models == Some(profile) && ReadBack(after.disk, agents[i]) == ReadsAfter(m.disk, agents[i], profile))
      && (o.Returned? && o.restored.Some? && ReportsRouting(o.restored.value) ==>
            && ActiveConfig(file).Some? && after.models == ActiveConfig(file)
            && ReadBack(after.disk, agents[i]) == ReadsAfter(m.disk, agents[i], ActiveConfig(file).value))
  {
    var materialized := Materialize(written, agents, profile);
    RevertedRouting(written, materialized, agents, file, profile, i);
    if ActiveConfig(file).Some? {
      SameReads(m, written, agents[i], ActiveConfig(file).value);
    }
    if ApplyProfile(written.disk, agents, profile).ok {
      MaterializedReads(m, written, agents, profile, i);
    }
  }

  lemma MaterializedReads(m: Machine, written: Machine, agents: seq<Agent>, profile: Config, i: nat)
    requires Discovered(agents) && i < |agents| && profile.Valid() && AllNormalized(profile)
    requires written.disk.(faults := m.disk.faults) == m.disk
    ensures ApplyProfile(written.disk, agents, profile).ok ==>
      ReadBack(Materialize(written, agents, profile).disk, agents[i]) == ReadsAfter(m.disk, agents[i], profile)
  {
    SameReads(m, written, agents[i], profile);
    if ApplyProfile(written.disk, agents, profile).ok {
      ApplyReadsBack(written.disk, agents, profile, i);
    }
  }

  /** Writes to other files do not change what an agent reads. */
  lemma SameReads(m: Machine, after: Machine, a: Agent, profile: Config)
    requires after.disk.(faults := m.disk.faults) == m.disk
    ensures ReadsAfter(after.disk, a, profile) == ReadsAfter(m.disk, a, profile)
  {
  }

  lemma RevertedRouting(written: Machine, failed: Machine, agents: seq<Agent>, file: ProfilesFile, profile: Config, i: nat)
    requires Discovered(agents) && ValidFile(file) && i < |agents|
    requires failed.disk == ApplyProfile(written.disk, agents, profile).disk
    ensures var (after, restored) := Revert(failed, agents, file, true);
      ReportsRouting(restored) ==>
        && ActiveConfig(file).Some? && after.models == ActiveConfig(file)
        && ReadBack(after.disk, agents[i]) == ReadsAfter(written.disk, agents[i], ActiveConfig(file).value)
  {
    var previous := ActiveConfig(file);
    assert AppendRestored("", "active marker") == "active marker";
    if previous.Some? && RestoreRouting(failed, agents, previous.value).1 {
      NormalizeConfigNormalizes(file.profiles[file.active.value]);
      NormalizeConfigIsIdempotent(file.profiles[file.active.value]);
      RestoredRoutingReadsBack(written, failed, agents, profile, previous.value, i);
      var routed := RestoreRouting(failed, agents, previous.value).0;
      var after := WriteStored(routed, file);
      assert after.disk.(faults := routed.disk.faults) == routed.disk;
      assert ReadBack(after.disk, agents[i]) == ReadBack(routed.disk, agents[i]);
    }
  }

  // ----- A single failure is compensated -----

  /** Without further faults a revert puts back everything it can know about. */
  lemma RevertRestores(m: Machine, agents: seq<Agent>, file: ProfilesFile, routingWritten: bool)
    requires Healthy(m.disk)
    ensures var (after, restored) := Revert(m, agents, file, routingWritten);
      && after.stored == Some(file) && ReportsMarker(restored)
      && (routingWritten && ActiveConfig(file).Some? ==> ReportsRouting(restored))
  {
    var previous := ActiveConfig(file);
    var routed := if routingWritten && previous.Some? then RestoreRouting(m, agents, previous.value).0 else m;
    if routingWritten && previous.Some? { RestoreSucceeds(m, agents, previous.value); }
    AttemptUsesFault(routed.disk);
    assert !Fails(routed);
    assert AppendRestored("routing", "active marker") == "routing and active marker";
  }

  lemma RestoreSucceeds(m: Machine, agents: seq<Agent>, previous: Config)
    requires Healthy(m.disk)
    ensures RestoreRouting(m, agents, previous).1 && Healthy(RestoreRouting(m, agents, previous).0.disk)
  {
    AttemptUsesFault(m.disk);
    ApplyStopsAtItsFault(WriteModels(m, previous).disk, agents, Pad(agents, previous));
  }

  /** At most one thing goes wrong: one write, or settings the profile's orchestrator cannot be put into. */
  predicate OneFailure(m: Machine, profile: Config) {
    && OneFault(m.disk)
    && (OrchestratorOf(profile).Some? && PlanSettings(m.settings, OrchestratorOf(profile).value).Invalid? ==> Healthy(m.disk))
  }

  /**
   What a single failure leaves. The action succeeds; or it throws on the settings write; or the claim itself
   failed and nothing moved; or the store is back and, when routing had been written over a known profile,
   every agent reads that profile again.
   */
  lemma SingleFailureIsCompensated(m: Machine, agents: seq<Agent>, file: ProfilesFile, name: Name, i: nat)
    requires Discovered(agents) && ValidFile(file) && i < |agents| && name in file.profiles
    requires OneFailure(m, NormalizeConfig(file.profiles[name]))
    ensures var (after, o) := ApplyAction(m, agents, file, name, false);
      || Succeeded(o, file, name)
      || SettingsWriteFails(m, agents, file, name, false)
      || (Fails(m) && o == Returned(file, None) && after == Attempted(m))
      || (&& o.Returned? && o.restored.Some? && after.stored == Some(file) && after.settings == m.settings
          && (Fails(WriteStored(m, Claimed(file, name))) ==> SameRouting(m, after))
          && (!Fails(WriteStored(m, Claimed(file, name))) && ActiveConfig(file).Some? ==>
                && after.models == ActiveConfig(file)
                && ReadBack(after.disk, agents[i]) == ReadsAfter(m.disk, agents[i], ActiveConfig(file).value)))
  {
    FailureKeepsStoreAndSettings(m, agents, file, name, false);
    if !Fails(m) {
      RoutingAfterAction(m, agents, file, name, i);
      FailedActionReverts(m, agents, file, name);
    }
  }

  lemma FailedActionReverts(m: Machine, agents: seq<Agent>, file: ProfilesFile, name: Name)
    requires name in file.profiles && OneFailure(m, NormalizeConfig(file.profiles[name])) && !Fails(m)
    ensures var (after, o) := ApplyAction(m, agents, file, name, false);
      o.Returned? && o.restored.Some? ==>
        && after.stored == Some(file)
        && (!Fails(WriteStored(m, Claimed(file, name))) && ActiveConfig(file).Some? ==> ReportsRouting(o.restored.value))
    ensures var (after, o) := ApplyAction(m, agents, file, name, false);
      o.Returned? && o.restored.None? ==> Succeeded(o, file, name)
  {
    var profile := NormalizeConfig(file.profiles[name]);
    var claimed := WriteStored(m, Claimed(file, name));
    var written := WriteModels(claimed, profile);
    AttemptUsesFault(m.disk);
    AttemptUsesFault(claimed.disk);
    if Fails(claimed) {
      RevertRestores(written, agents, file, false);
    } else {
      var materialized := Materialize(written, agents, profile);
      ApplyStopsAtItsFault(written.disk, agents, Pad(agents, profile));
      if Healthy(materialized.disk) { RevertRestores(materialized, agents, file, true); }
    }
  }

  /** When nothing fails, the action succeeds with the profile claimed. */
  lemma HealthyActionSucceeds(m: Machine, agents: seq<Agent>, file: ProfilesFile, name: Name)
    requires Healthy(m.disk) && name in file.profiles
    requires var e := OrchestratorOf(NormalizeConfig(file.profiles[name]));
             e.Some? ==> !PlanSettings(m.settings, e.value).Invalid?
    ensures var (after, o) := ApplyAction(m, agents, file, name, false);
      Succeeded(o, file, name) && after.stored == Some(Claimed(file, name))
  {
    var profile := NormalizeConfig(file.profiles[name]);
    var claimed := WriteStored(m, Claimed(file, name));
    var written := WriteModels(claimed, profile);
    AttemptUsesFault(m.disk);
    AttemptUsesFault(claimed.disk);
    ApplyStopsAtItsFault(written.disk, agents, Pad(agents, profile));
    AttemptUsesFault(Materialize(written, agents, profile).disk);
  }

  // ----- What the settings hold after a success -----

  /** The two parts of a model id: a provider without a slash, and the model. */
  ghost predicate SplitsInto(id: string, provider: string, model: string) {
    id == provider + "/" + model && provider != "" && model != "" && '/' !in provider
  }

  lemma ModelRefSplits(id: string)
    requires ParseModelRef(id).Some? && IsModelId(id)
    ensures SplitsInto(id, ParseModelRef(id).value.0, ParseModelRef(id).value.1)
  {
    TrimmedModel(id);
    var separator := Text.IndexOf(id, "/", 0);
    assert Text.MatchesAt(id, "/", separator);
    assert id[separator..separator + 1] == "/";
    assert id == id[..separator] + id[separator..separator + 1] + id[separator + 1..];
    forall i | 0 <= i < separator ensures id[i] != '/' {
      assert !Text.MatchesAt(id, "/", i);
      assert id[i..i + 1] == [id[i]];
    }
  }

  /** The orchestrator a profile asks for: a model, and perhaps a thinking level. */
  function AskedOrchestrator(profile: Config): Option<Entry> {
    var e := profile.Get(PROFILE_ORCHESTRATOR_KEY);
    if e.Some? && e.value.model.Some? then e else None
  }

  /** No split into a provider and a model exists. */
  ghost predicate Unsplittable(id: string) {
    forall provider: string, model: string :: !SplitsInto(id, provider, model)
  }

  /** `after` names this orchestrator: its provider, its model and its thinking level or none; the rest is as in `before`. */
  ghost predicate SettingsName(after: Settings, before: Settings, asked: Option<Entry>)
    requires asked.Some? ==> asked.value.model.Some?
  {
    if asked.None? then after == before
    else
      && after.Settings? && after.provider.Some? && after.model.Some?
      && SplitsInto(asked.value.model.value, after.provider.value, after.model.value)
      && after.thinking == asked.value.thinking
      && after.rest == (if before.Settings? then before.rest else 0)
  }

  /**
   After a success the store claims the profile and nothing else in it changed, and Pi's settings name the profile's
   orchestrator. A profile without an orchestrator model leaves the settings alone.
   */
  lemma SettingsAfterSuccess(m: Machine, agents: seq<Agent>, file: ProfilesFile, name: Name)
    requires ValidFile(file) && name in file.profiles && !Fails(m)
    requires var o := ApplyAction(m, agents, file, name, false).1; o.Returned? && o.restored.None?
    ensures var after := ApplyAction(m, agents, file, name, false).0;
      && after.stored == Some(ProfilesFile(file.profiles, Some(name))) && after.localPin == m.localPin
      && SettingsName(after.settings, m.settings, AskedOrchestrator(NormalizeConfig(file.profiles[name])))
  {
    var profile := NormalizeConfig(file.profiles[name]);
    var claimed := WriteStored(m, Claimed(file, name));
    var materialized := Materialize(WriteModels(claimed, profile), agents, profile);
    NormalizeConfigNormalizes(file.profiles[name]);
    assert materialized.settings == m.settings && materialized.stored == Some(Claimed(file, name));
    SettingsStep(materialized, agents, file, name, profile);
  }

  /** The settings step on its own: what it leaves when it neither reverts nor throws, and when it must revert. */
  lemma SettingsStep(m: Machine, agents: seq<Agent>, file: ProfilesFile, name: Name, profile: Config)
    requires AllNormalized(profile)
    ensures var (after, o) := WriteOrchestrator(m, agents, file, name, OrchestratorOf(profile));
      o.Returned? && o.restored.None? ==>
        && after.stored == m.stored && after.localPin == m.localPin
        && SettingsName(after.settings, m.settings, AskedOrchestrator(profile))
    ensures AskedOrchestrator(profile).Some? && (m.settings.BadSettings? || Unsplittable(AskedOrchestrator(profile).value.model.value)) ==>
      WriteOrchestrator(m, agents, file, name, OrchestratorOf(profile)) == Reverted(m, agents, file, true)
  {
    var asked := AskedOrchestrator(profile);
    if asked.Some? {
      TrimmedModel(asked.value.model.value);
      PlannedSettings(m.settings, asked.value);
    }
  }

  lemma PlannedSettings(settings: Settings, e: Entry)
    requires e.model.Some? && IsModelId(e.model.value)
    ensures var plan := PlanSettings(settings, e);
      && (settings.BadSettings? || Unsplittable(e.model.value) ==> plan.Invalid?)
      && (plan.Unchanged? ==> SettingsName(settings, settings, Some(e)))
      && (plan.Write? ==> SettingsName(plan.next, settings, Some(e)))
  {
    var id := e.model.value;
    if ParseModelRef(id).Some? {
      ModelRefSplits(id);
      assert SplitsInto(id, ParseModelRef(id).value.0, ParseModelRef(id).value.1);
    }
  }

  /** An orchestrator model that is no provider and model, or settings that are no object: the routing is taken back. */
  lemma UnusableOrchestratorReverts(m: Machine, agents: seq<Agent>, file: ProfilesFile, name: Name)
    requires ValidFile(file) && name in file.profiles && !Fails(m)
    requires var asked := AskedOrchestrator(NormalizeConfig(file.profiles[name]));
             asked.Some? && (m.settings.BadSettings? || Unsplittable(asked.value.model.value))
    ensures var (after, o) := ApplyAction(m, agents, file, name, false);
            o.Returned? && o.restored.Some? && o.file == file && after.settings == m.settings
  {
    var profile := NormalizeConfig(file.profiles[name]);
    NormalizeConfigNormalizes(file.profiles[name]);
    var written := WriteModels(WriteStored(m, Claimed(file, name)), profile);
    SettingsStep(Materialize(written, agents, profile), agents, file, name, profile);
    FailureKeepsStoreAndSettings(m, agents, file, name, false);
  }

  // ----- A machine on which the settings write fails -----

  const ENTRY := Entry(Some("p/m"), None)
  const PROFILE: Config := OrderedMap([PROFILE_ORCHESTRATOR_KEY], map[PROFILE_ORCHESTRATOR_KEY := ENTRY])
  const FILE := ProfilesFile(map["a" := PROFILE], None)
  const MACHINE := Machine(Disk(map[], Missing, Missing, [false, false, true]), Some(FILE), None, NoSettings, None)

  /** A settings file that cannot be written leaves the new profile claimed and materialised, unreported. */
  lemma SettingsFaultLeavesProfileClaimed()
    ensures var (after, o) := ApplyAction(MACHINE, [], FILE, "a", false);
      o.Threw? && after.stored == Some(Claimed(FILE, "a")) && after.stored != Some(FILE) && after.settings == NoSettings
  {
    ThirdWriteIsSettings();
    FailureKeepsStoreAndSettings(MACHINE, [], FILE, "a", false);
  }

  lemma ThirdWriteIsSettings()
    ensures SettingsWriteFails(MACHINE, [], FILE, "a", false)
  {
    ModelIsUsable();
    ProfileIsNormalized();
    var claimed := WriteStored(MACHINE, Claimed(FILE, "a"));
    assert claimed.disk.faults == [false, true];
    var written := WriteModels(claimed, PROFILE);
    assert written.disk.faults == [true];
    NothingToApply(written.disk, PROFILE);
  }

  lemma ModelIsUsable()
    ensures Normalized(ENTRY) && NormalizeModelId(ENTRY.model) == ENTRY.model
    ensures Text.IndexOf("p/m", "/", 0) == 1
  {
    assert IsModelId("p/m");
    TrimmedModel("p/m");
    assert Text.MatchesAt("p/m", "/", 1) && !Text.MatchesAt("p/m", "/", 0);
  }

  lemma ProfileIsNormalized()
    ensures NormalizeConfig(PROFILE) == PROFILE
  {
    ModelIsUsable();
    NormalizedIsFixed(ENTRY);
    assert IsAgentName(PROFILE_ORCHESTRATOR_KEY);
    assert Unusable(PROFILE) == {};
    NormalizedConfigIsFixed(PROFILE);
  }

  lemma NothingToApply(disk: Disk, config: Config)
    requires config.order == [PROFILE_ORCHESTRATOR_KEY]
    ensures ApplyProfile(disk, [], config) == Progress(disk, true, 0, 0)
  {
    assert config.order[..0] == [];
    assert ApplyUnlisted(Progress(disk, true, 0, 0), [], [], config).ok;
  }

  // ----- The panel -----

  /** The files the panel writes. The routing files are those of `routing`. */
  class ProfilesPanel {
    const routing: RoutingDisk
    var stored: Option<ProfilesFile>
    var models: Option<Config>
    var settings: Settings
    var localPin: Option<Name>

    function View(): Machine
      reads this, routing
    {
      Machine(routing.disk, stored, models, settings, localPin)
    }

    constructor (routing: RoutingDisk, m: Machine)
      requires routing.disk == m.disk
      ensures this.routing == routing && View() == m
    {
      this.routing := routing;
      stored, models, settings, localPin := m.stored, m.models, m.settings, m.localPin;
    }

    method WriteProfilesFile(file: ProfilesFile) returns (ok: bool)
      modifies this, routing
      ensures ok == !Fails(old(View())) && View() == WriteStored(old(View()), file)
    {
      ok := routing.Attempt();
      if ok {
        stored := Some(file);
      }
    }

    method WriteModelConfig(config: Config) returns (ok: bool)
      modifies this, routing
      ensures ok == !Fails(old(View())) && View() == WriteModels(old(View()), config)
    {
      ok := routing.Attempt();
      if ok {
        models := Some(NormalizeConfig(config));
      }
    }

    /** Padding and materialising a profile. */
    method MaterializeProfile(agents: seq<Agent>, config: Config) returns (ok: bool)
      modifies this, routing
      ensures ok == ApplyProfile(old(View()).disk, agents, config).ok
      ensures View() == Materialize(old(View()), agents, config)
    {
      var padded := WithOmittedAgentsCleared(agents, config);
      var updated, skipped;
      ok, updated, skipped := routing.ApplyModelConfig(agents, padded);
    }

    method RestorePreviousRouting(agents: seq<Agent>, previous: Config) returns (ok: bool)
      modifies this, routing
      ensures (View(), ok) == RestoreRouting(old(View()), agents, previous)
    {
      ok := WriteModelConfig(previous);
      if ok {
        ok := MaterializeProfile(agents, previous);
      }
    }

    method RevertClaim(agents: seq<Agent>, file: ProfilesFile, routingWritten: bool) returns (restored: string)
      modifies this, routing
      ensures (View(), restored) == Revert(old(View()), agents, file, routingWritten)
    {
      ghost var before := View();
      var previous := ActiveConfig(file);
      restored := if previous.Some? then "routing" else "";
      ghost var ok := true;
      if routingWritten && previous.Some? {
        var routed := RestorePreviousRouting(agents, previous.value);
        ok := routed;
        if !routed {
          restored := "";
        }
      }
      assert (View(), ok) == if routingWritten && previous.Some? then RestoreRouting(before, agents, previous.value) else (before, true);
      var written := WriteProfilesFile(file);
      if written {
        restored := AppendRestored(restored, "active marker");
      } else if restored == "" {
        restored := "nothing";
      }
    }

    method ApplyProfileAction(agents: seq<Agent>, file: ProfilesFile, name: Name, pinWins: bool) returns (outcome: Outcome)
      modifies this, routing
      ensures (View(), outcome) == ApplyAction(old(View()), agents, file, name, pinWins)
    {
      if name !in file.profiles {
        return Returned(file, None);
      }
      if pinWins {
        var pinned := routing.Attempt();
        if pinned {
          localPin := Some(name);
        }
        return Returned(file, None);
      }
      var profile := NormalizeConfig(file.profiles[name]);
      var ok := WriteProfilesFile(Claimed(file, name));
      if !ok {
        return Returned(file, None);
      }
      ok := WriteModelConfig(profile);
      if !ok {
        var restored := RevertClaim(agents, file, false);
        return Returned(file, Some(restored));
      }
      ok := MaterializeProfile(agents, profile);
      if !ok {
        var restored := RevertClaim(agents, file, true);
        return Returned(file, Some(restored));
      }
      outcome := ApplyOrchestrator(agents, file, name, OrchestratorOf(profile));
    }

    method ApplyOrchestrator(agents: seq<Agent>, file: ProfilesFile, name: Name, e: Option<Entry>) returns (outcome: Outcome)
      modifies this, routing
      ensures (View(), outcome) == WriteOrchestrator(old(View()), agents, file, name, e)
    {
      if e.Some? {
        match PlanSettings(settings, e.value)
        case Invalid =>
          var restored := RevertClaim(agents, file, true);
          return Returned(file, Some(restored));
        case Unchanged =>
        case Write(next) =>
          var ok := routing.Attempt();
          if !ok {
            return Threw;
          }
          settings := next;
      }
      outcome := Returned(Claimed(file, name), None);
    }
  }
}
