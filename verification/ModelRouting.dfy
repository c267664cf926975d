/**
 Materialising model routing into agent files and `subagents.json`, and reading it back
 (extensions/gentle-ai.ts:2140-2287, 2477-2562, 2742-2791).

 Every write to disk may fail; `faults` says which of the coming writes do. A failed write leaves
 its file as it was and ends the operation the way an exception would.
 */
module ModelRouting {
  import opened Common
  import opened OrderedMaps
  import opened Frontmatter

  type Path = string
  type Name = string
  type Opaque = nat

  datatype Source = Project | User | Builtin

  datatype Agent = Agent(name: Name, source: Source, filePath: Option<Path>)

  type Config = OrderedMap<Name, Entry>

  const PROVIDER_REVIEW_ROLES: seq<Name> := ["review-refuter", "review-validator"]
  const PROFILE_ORCHESTRATOR_KEY: Name := "orchestrator"

  predicate IsReviewRole(name: Name) {
    name in PROVIDER_REVIEW_ROLES
  }

  // ----- subagents.json -----

  datatype Field = Text(text: string) | OtherField(id: Opaque)

  /** One value under `model_profiles`; a record keeps the order of its fields. */
  datatype Profile = Record(fields: seq<(string, Field)>) | NotARecord(id: Opaque)

  datatype Profiles = Absent | Malformed(id: Opaque) | Table(table: map<Name, Profile>)

  /** A `subagents.json`; `others` are the keys next to `model_profiles`. */
  datatype Store = Missing | Unreadable(id: Opaque) | Parsed(others: map<string, Opaque>, profiles: Profiles)

  function ProfileTable(store: Store): map<Name, Profile> {
    if store.Parsed? && store.profiles.Table? then store.profiles.table else map[]
  }

  function Others(store: Store): map<string, Opaque> {
    if store.Parsed? then store.others else map[]
  }

  /** `modelProfileForRoutingEntry`. */
  function ProfileFor(e: Entry): Option<Profile> {
    var fields :=
      (if e.model.Some? && e.model.value != "" then [("model", Text(e.model.value))] else [])
      + (if e.thinking.Some? && e.thinking.value != "" then [("effort", Text(e.thinking.value))] else []);
    if fields == [] then None else Some(Record(fields))
  }

  function Stored(store: Store, name: Name): Option<Profile> {
    var table := ProfileTable(store);
    if name in table then Some(table[name]) else None
  }

  /** The stored text already says this: nothing to write. */
  predicate UpToDate(store: Store, name: Name, e: Entry) {
    Stored(store, name) == ProfileFor(e)
  }

  function UpdateProfile(store: Store, name: Name, e: Entry): Store {
    if UpToDate(store, name, e) then store
    else
      var table := ProfileTable(store);
      var profile := ProfileFor(e);
      var next := if profile.Some? then table[name := profile.value] else table - {name};
      Parsed(Others(store), if next == map[] then Absent else Table(next))
  }

  function TextField(fields: seq<(string, Field)>, name: string): Option<string> {
    if fields == [] then None
    else if fields[0].0 == name then if fields[0].1.Text? then Some(fields[0].1.text) else None
    else TextField(fields[1..], name)
  }

  /** `routingEntryFromModelProfile` of the stored profile. */
  function ReadProfile(store: Store, name: Name): Option<Entry> {
    var profile := Stored(store, name);
    if profile.Some? && profile.value.Record?
    then NormalizeEntry(Entry(TextField(profile.value.fields, "model"), TextField(profile.value.fields, "effort")))
    else None
  }

  // ----- The disk -----

  datatype Disk = Disk(files: map<Path, string>, project: Store, home: Store, faults: seq<bool>)
  {
    /** Project agents use the project's store, all others the one in the agent home. */
    function StoreFor(source: Source): Store {
      if source.Project? then project else home
    }

    function WithStore(source: Source, store: Store): Disk {
      if source.Project? then this.(project := store) else this.(home := store)
    }

    predicate NextWriteFails() {
      faults != [] && faults[0]
    }

    function AfterAttempt(): Disk {
      if faults == [] then this else this.(faults := faults[1..])
    }
  }

  /** An operation under way: `ok` turns false when a write throws. */
  datatype Progress = Progress(disk: Disk, ok: bool, updated: nat, skipped: nat)

  function Skip(p: Progress): Progress {
    p.(skipped := p.skipped + 1)
  }

  function WriteProfile(p: Progress, source: Source, name: Name, e: Entry): Progress {
    if !p.ok then p
    else if UpToDate(p.disk.StoreFor(source), name, e) then Skip(p)
    else if p.disk.NextWriteFails() then p.(disk := p.disk.AfterAttempt(), ok := false)
    else
      p.(disk := p.disk.AfterAttempt().WithStore(source, UpdateProfile(p.disk.StoreFor(source), name, e)),
      updated := p.updated + 1)
  }

  function WriteFrontmatter(p: Progress, a: Agent, e: Entry): Progress {
    if !p.ok then p
    else if a.filePath.None? || a.filePath.value !in p.disk.files then Skip(p)
    else
      var path := a.filePath.value;
      var original := p.disk.files[path];
      if Update(original, e) == original then Skip(p)
      else if p.disk.NextWriteFails() then p.(disk := p.disk.AfterAttempt(), ok := false)
      else
        p.(disk := p.disk.AfterAttempt().(files := p.disk.files[path := Update(original, e)]),
        updated := p.updated + 1)
  }

  function ApplyAgent(p: Progress, a: Agent, config: Config): Progress {
    if !p.ok || IsReviewRole(a.name) then p
    else if a.name !in config.at then Skip(p)
    else
      var e := config.at[a.name];
      var afterFile := if a.source.Builtin? then p else WriteFrontmatter(p, a, e);
      WriteProfile(afterFile, a.source, a.name, e)
  }

  function ApplyAgents(p: Progress, agents: seq<Agent>, config: Config): Progress {
    if agents == [] then p else ApplyAgent(ApplyAgents(p, agents[..|agents| - 1], config), agents[|agents| - 1], config)
  }

  function Listed(agents: seq<Agent>): set<Name> {
    set i | 0 <= i < |agents| && !IsReviewRole(agents[i].name) :: agents[i].name
  }

  /** Cleared entries for agents that no longer exist remove their stored profiles. */
  predicate ClearsUnlisted(name: Name, agents: seq<Agent>, config: Config) {
    && !IsReviewRole(name) && name != PROFILE_ORCHESTRATOR_KEY
    && name !in Listed(agents) && name in config.at && config.at[name] == CLEAR
  }

  function ApplyUnlisted(p: Progress, names: seq<Name>, agents: seq<Agent>, config: Config): Progress {
    if names == [] then p
    else
      var before := ApplyUnlisted(p, names[..|names| - 1], agents, config);
      var name := names[|names| - 1];
      if before.ok && ClearsUnlisted(name, agents, config) then WriteProfile(before, User, name, CLEAR) else before
  }

  /** `applyModelConfigAsync`. */
  function Apply(disk: Disk, agents: seq<Agent>, config: Config): Progress {
    ApplyUnlisted(ApplyAgents(Progress(disk, true, 0, 0), agents, config), config.order, agents, config)
  }

  /** `withOmittedAgentsClearedAsync`: every listed agent the profile omits gets a clear entry. */
  function Pad(agents: seq<Agent>, config: Config): Config {
    if agents == [] then config
    else
      var padded := Pad(agents[..|agents| - 1], config);
      var name := agents[|agents| - 1].name;
      if IsReviewRole(name) || name in padded.at then padded else padded.Set(name, CLEAR)
  }

  // ----- Reading back -----

  function Merge(profile: Option<Entry>, frontmatter: Option<Entry>): Option<Entry> {
    if profile.None? then frontmatter
    else if frontmatter.None? then profile
    else
      NormalizeEntry(Entry(if profile.value.model.Some? then profile.value.model else frontmatter.value.model,
                           if profile.value.thinking.Some? then profile.value.thinking else frontmatter.value.thinking))
  }

  function FileRouting(disk: Disk, a: Agent): Option<Entry> {
    if a.filePath.None? || a.filePath.value !in disk.files then None else Read(disk.files[a.filePath.value])
  }

  /** `readMaterializedRoutingEntry`: what a launch of this agent resolves. */
  function ReadBack(disk: Disk, a: Agent): Option<Entry> {
    Merge(ReadProfile(disk.StoreFor(a.source), a.name), FileRouting(disk, a))
  }

  // ----- One store, one name -----

  function AsOption(e: Entry): Option<Entry> {
    if e == CLEAR then None else Some(e)
  }

  lemma NormalizedIsFixed(e: Entry)
    requires Normalized(e)
    ensures NormalizeEntry(e) == AsOption(e)
  {
    if e.model.Some? { TrimmedModel(e.model.value); }
  }

  lemma StoredProfileReadsBack(e: Entry)
    requires Normalized(e)
    ensures ProfileFor(e).None? <==> e == CLEAR
    ensures ProfileFor(e).Some? ==>
      var fields := ProfileFor(e).value.fields;
      NormalizeEntry(Entry(TextField(fields, "model"), TextField(fields, "effort"))) == Some(e)
  {
    NormalizedIsFixed(e);
    if e.thinking.Some? { TrimmedLevel(e.thinking.value); }
    if ProfileFor(e).Some? {
      var fields := ProfileFor(e).value.fields;
      if e.model.Some? { assert fields[0] == ("model", Text(e.model.value)); }
      assert TextField(fields, "model") == e.model;
      assert e.thinking.Some? ==> fields[|fields| - 1] == ("effort", Text(e.thinking.value));
      assert TextField(fields, "effort") == e.thinking;
    }
  }

  /** A stored profile that is up to date reads as its entry. */
  lemma UpToDateReads(store: Store, name: Name, e: Entry)
    requires Normalized(e) && UpToDate(store, name, e)
    ensures ReadProfile(store, name) == AsOption(e)
  {
    StoredProfileReadsBack(e);
  }

  /** An update is about one name: whatever the file held, every other name and key stays as it was. */
  lemma UpdateProfileEffect(store: Store, name: Name, e: Entry)
    ensures UpToDate(UpdateProfile(store, name, e), name, e)
    ensures Others(UpdateProfile(store, name, e)) == Others(store)
    ensures forall other :: other != name ==> Stored(UpdateProfile(store, name, e), other) == Stored(store, other)
  {
    var table, next := ProfileTable(store), ProfileTable(UpdateProfile(store, name, e));
    if !UpToDate(store, name, e) {
      assert next == if ProfileFor(e).Some? then table[name := ProfileFor(e).value] else table - {name};
    }
  }

  // ----- Applying to all agents -----

  /** What discovery returns: one agent per name, one file per agent. */
  ghost predicate Discovered(agents: seq<Agent>) {
    forall i, j :: 0 <= i < j < |agents| ==>
      && agents[i].name != agents[j].name
      && (agents[i].filePath.Some? ==> agents[i].filePath != agents[j].filePath)
  }

  ghost predicate AllNormalized(config: Config) {
    forall name :: name in config.at ==> Normalized(config.at[name])
  }

  predicate Routed(a: Agent, config: Config) {
    !IsReviewRole(a.name) && a.name in config.at
  }

  /** What the agent's own file becomes. */
  function FileAfter(a: Agent, config: Config, original: string): string {
    if Routed(a, config) && !a.source.Builtin? then Update(original, config.at[a.name]) else original
  }

  /** Neither this agent's file nor its stored profile changed. */
  ghost predicate Untouched(before: Disk, after: Disk, a: Agent) {
    && Stored(after.StoreFor(a.source), a.name) == Stored(before.StoreFor(a.source), a.name)
    && (a.filePath.Some? && a.filePath.value in before.files ==>
          a.filePath.value in after.files && after.files[a.filePath.value] == before.files[a.filePath.value])
  }

  ghost predicate AgentDone(before: Disk, after: Disk, a: Agent, config: Config) {
    && (a.filePath.Some? && a.filePath.value in before.files ==>
          && a.filePath.value in after.files
          && after.files[a.filePath.value] == FileAfter(a, config, before.files[a.filePath.value]))
    && (Routed(a, config) ==> UpToDate(after.StoreFor(a.source), a.name, config.at[a.name]))
    && (!Routed(a, config) ==> Untouched(before, after, a))
  }

  ghost predicate SameElsewhere(before: Disk, after: Disk) {
    && after.files.Keys == before.files.Keys
    && Others(after.home) == Others(before.home) && Others(after.project) == Others(before.project)
  }

  predicate Apart(a: Agent, b: Agent) {
    a.name != b.name && (a.filePath.None? || a.filePath != b.filePath)
  }

  lemma FrontmatterEffect(p: Progress, a: Agent, e: Entry)
    requires WriteFrontmatter(p, a, e).ok
    ensures var after := WriteFrontmatter(p, a, e).disk;
      && p.ok && after.home == p.disk.home && after.project == p.disk.project
      && after.files.Keys == p.disk.files.Keys
      && (a.filePath.Some? && a.filePath.value in p.disk.files ==>
            after.files[a.filePath.value] == Update(p.disk.files[a.filePath.value], e))
  {
  }

  lemma OneAgentEffect(p: Progress, a: Agent, config: Config)
    requires ApplyAgent(p, a, config).ok
    ensures p.ok && AgentDone(p.disk, ApplyAgent(p, a, config).disk, a, config)
    ensures SameElsewhere(p.disk, ApplyAgent(p, a, config).disk)
  {
    if Routed(a, config) {
      var e := config.at[a.name];
      var afterFile := if a.source.Builtin? then p else WriteFrontmatter(p, a, e);
      if !a.source.Builtin? { FrontmatterEffect(p, a, e); }
    }
  }

  /** Writes for one agent, failed or not, leave every other agent and everything else alone. */
  lemma OneAgentLeavesOthers(p: Progress, a: Agent, config: Config, b: Agent)
    requires Apart(a, b)
    ensures Untouched(p.disk, ApplyAgent(p, a, config).disk, b)
  {
    if Routed(a, config) && p.ok {
      var e := config.at[a.name];
      var afterFile := if a.source.Builtin? then p else WriteFrontmatter(p, a, e);
      assert Untouched(p.disk, afterFile.disk, b);
      UpdateProfileEffect(p.disk.StoreFor(a.source), a.name, e);
    }
  }

  lemma OneAgentKeepsElsewhere(p: Progress, a: Agent, config: Config)
    ensures SameElsewhere(p.disk, ApplyAgent(p, a, config).disk)
  {
    if Routed(a, config) && p.ok {
      var e := config.at[a.name];
      var afterFile := if a.source.Builtin? then p else WriteFrontmatter(p, a, e);
      assert SameElsewhere(p.disk, afterFile.disk);
    }
  }

  lemma {:induction false} AgentsLeaveOthers(p: Progress, agents: seq<Agent>, config: Config, b: Agent)
    requires forall i :: 0 <= i < |agents| ==> Apart(agents[i], b)
    ensures Untouched(p.disk, ApplyAgents(p, agents, config).disk, b)
  {
    if agents != [] {
      var front, last := agents[..|agents| - 1], agents[|agents| - 1];
      OneAgentLeavesOthers(ApplyAgents(p, front, config), last, config, b);
      AgentsLeaveOthers(p, front, config, b);
    }
  }

  lemma {:induction false} AgentsEffect(p: Progress, agents: seq<Agent>, config: Config, i: nat)
    requires Discovered(agents) && ApplyAgents(p, agents, config).ok && i < |agents|
    ensures AgentDone(p.disk, ApplyAgents(p, agents, config).disk, agents[i], config)
  {
    var front, last := agents[..|agents| - 1], agents[|agents| - 1];
    var middle := ApplyAgents(p, front, config);
    OneAgentEffect(middle, last, config);
    if i == |agents| - 1 {
      AgentsLeaveOthers(p, front, config, last);
    } else {
      AgentsEffect(p, front, config, i);
      assert Apart(last, agents[i]);
      OneAgentLeavesOthers(middle, last, config, agents[i]);
    }
  }

  lemma {:induction false} AgentsKeepElsewhere(p: Progress, agents: seq<Agent>, config: Config)
    ensures SameElsewhere(p.disk, ApplyAgents(p, agents, config).disk)
  {
    if agents != [] {
      var front, last := agents[..|agents| - 1], agents[|agents| - 1];
      OneAgentKeepsElsewhere(ApplyAgents(p, front, config), last, config);
      AgentsKeepElsewhere(p, front, config);
    }
  }

  lemma {:induction false} UnlistedLeavesListed(p: Progress, names: seq<Name>, agents: seq<Agent>, config: Config, b: Agent)
    ensures SameElsewhere(p.disk, ApplyUnlisted(p, names, agents, config).disk)
    ensures !ClearsUnlisted(b.name, agents, config) ==> Untouched(p.disk, ApplyUnlisted(p, names, agents, config).disk, b)
  {
    if names != [] {
      var front, name := names[..|names| - 1], names[|names| - 1];
      UnlistedLeavesListed(p, front, agents, config, b);
      UpdateProfileEffect(ApplyUnlisted(p, front, agents, config).disk.home, name, CLEAR);
    }
  }

  lemma {:induction false} UnlistedEffect(p: Progress, names: seq<Name>, agents: seq<Agent>, config: Config)
    requires ApplyUnlisted(p, names, agents, config).ok
    ensures p.ok
    ensures forall i :: 0 <= i < |names| && ClearsUnlisted(names[i], agents, config) ==>
      UpToDate(ApplyUnlisted(p, names, agents, config).disk.home, names[i], CLEAR)
  {
    if names != [] {
      var front, name := names[..|names| - 1], names[|names| - 1];
      UnlistedEffect(p, front, agents, config);
      UpdateProfileEffect(ApplyUnlisted(p, front, agents, config).disk.home, name, CLEAR);
    }
  }

  /** Where an apply ends when no write failed, whatever was on disk before. */
  lemma ApplyEffect(disk: Disk, agents: seq<Agent>, config: Config, i: nat)
    requires Discovered(agents) && Apply(disk, agents, config).ok && i < |agents|
    ensures AgentDone(disk, Apply(disk, agents, config).disk, agents[i], config)
    ensures SameElsewhere(disk, Apply(disk, agents, config).disk)
  {
    var start := Progress(disk, true, 0, 0);
    var middle := ApplyAgents(start, agents, config);
    UnlistedEffect(middle, config.order, agents, config);
    UnlistedLeavesListed(middle, config.order, agents, config, agents[i]);
    assert !IsReviewRole(agents[i].name) ==> agents[i].name in Listed(agents);
    AgentsEffect(start, agents, config, i);
    AgentsKeepElsewhere(start, agents, config);
  }

  // ----- Where a failed apply stops -----

  /** Of this agent at most the file was written. */
  ghost predicate AgentHalfDone(before: Disk, after: Disk, a: Agent, config: Config) {
    && Stored(after.StoreFor(a.source), a.name) == Stored(before.StoreFor(a.source), a.name)
    && (a.filePath.Some? && a.filePath.value in before.files ==>
          var path := a.filePath.value;
          && path in after.files
          && (after.files[path] == before.files[path] || after.files[path] == FileAfter(a, config, before.files[path])))
  }

  /** The agents before `n` are done, agent `n` is at most half done, and those after it are untouched. */
  ghost predicate StoppedAt(before: Disk, after: Disk, agents: seq<Agent>, config: Config, n: nat) {
    && n < |agents| && AgentHalfDone(before, after, agents[n], config)
    && (forall i :: 0 <= i < n ==> AgentDone(before, after, agents[i], config))
    && (forall i :: n < i < |agents| ==> Untouched(before, after, agents[i]))
  }

  lemma {:induction false} FailedAgentsStop(p: Progress, agents: seq<Agent>, config: Config) returns (n: nat)
    requires p.ok && Discovered(agents) && !ApplyAgents(p, agents, config).ok
    ensures StoppedAt(p.disk, ApplyAgents(p, agents, config).disk, agents, config, n)
  {
    var front, last := agents[..|agents| - 1], agents[|agents| - 1];
    var middle := ApplyAgents(p, front, config);
    assert agents == front + [last];
    if !middle.ok {
      n := FailedAgentsStop(p, front, config);
      AgentsLeaveOthers(p, front, config, last);
    } else {
      n := |front|;
      StopsAtLast(p, front, last, config);
    }
  }

  lemma StopsAtLast(p: Progress, front: seq<Agent>, last: Agent, config: Config)
    requires p.ok && Discovered(front + [last])
    requires ApplyAgents(p, front, config).ok && !ApplyAgent(ApplyAgents(p, front, config), last, config).ok
    ensures StoppedAt(p.disk, ApplyAgent(ApplyAgents(p, front, config), last, config).disk, front + [last], config, |front|)
  {
    var agents := front + [last];
    var middle := ApplyAgents(p, front, config);
    assert agents[|front|] == last && forall i :: 0 <= i < |front| ==> agents[i] == front[i];
    AgentsLeaveOthers(p, front, config, last);
    forall i | 0 <= i < |front| ensures AgentDone(p.disk, ApplyAgent(middle, last, config).disk, agents[i], config) {
      assert Apart(last, agents[i]);
      AgentsEffect(p, front, config, i);
      OneAgentLeavesOthers(middle, last, config, agents[i]);
    }
  }

  /**
   What a failed apply leaves: either the loop over the agents stopped at one of them, or every agent is done and
   the failure came while removing the profiles of agents that are gone. Nothing else on disk changed.
   */
  lemma FailedApplyLeaves(disk: Disk, agents: seq<Agent>, config: Config)
    requires Discovered(agents) && !Apply(disk, agents, config).ok
    ensures var after := Apply(disk, agents, config).disk;
      && SameElsewhere(disk, after)
      && ((exists n :: StoppedAt(disk, after, agents, config, n))
          || forall i :: 0 <= i < |agents| ==> AgentDone(disk, after, agents[i], config))
  {
    var start := Progress(disk, true, 0, 0);
    var middle := ApplyAgents(start, agents, config);
    AgentsKeepElsewhere(start, agents, config);
    UnlistedLeavesListed(middle, config.order, agents, config, Agent("", User, None));
    if !middle.ok {
      var n := FailedAgentsStop(start, agents, config);
      StopsAtFailureUnlisted(middle, config.order, agents, config);
    } else {
      forall i | 0 <= i < |agents| ensures AgentDone(disk, Apply(disk, agents, config).disk, agents[i], config) {
        AgentsEffect(start, agents, config, i);
        UnlistedLeavesListed(middle, config.order, agents, config, agents[i]);
        assert !IsReviewRole(agents[i].name) ==> agents[i].name in Listed(agents);
      }
    }
  }

  // ----- Padding -----

  /** The routing a profile asks for: its entry, or inherit when it omits the agent. */
  function Wanted(config: Config, name: Name): Option<Entry> {
    if name in config.at then AsOption(config.at[name]) else None
  }

  lemma {:induction false} PadCompletes(agents: seq<Agent>, config: Config)
    requires config.Valid()
    ensures Pad(agents, config).Valid()
    ensures forall i :: 0 <= i < |agents| && !IsReviewRole(agents[i].name) ==> agents[i].name in Pad(agents, config).at
    ensures forall name :: name in config.at ==> name in Pad(agents, config).at && Pad(agents, config).at[name] == config.at[name]
    ensures forall name :: name in Pad(agents, config).at && name !in config.at ==> Pad(agents, config).at[name] == CLEAR
    ensures AllNormalized(config) ==> AllNormalized(Pad(agents, config))
  {
    if agents != [] {
      PadCompletes(agents[..|agents| - 1], config);
    }
  }

  // ----- Applying a profile -----

  function ApplyProfile(disk: Disk, agents: seq<Agent>, profile: Config): Progress {
    Apply(disk, agents, Pad(agents, profile))
  }

  /** What every agent reads after a profile was applied to a disk with this content. */
  function ReadsAfter(disk: Disk, a: Agent, profile: Config): Option<Entry> {
    if IsReviewRole(a.name) then ReadBack(disk, a)
    else if a.source.Builtin? then Merge(Wanted(profile, a.name), FileRouting(disk, a))
    else Wanted(profile, a.name)
  }

  lemma MergeSame(e: Entry)
    requires Normalized(e)
    ensures Merge(AsOption(e), AsOption(e)) == AsOption(e) && Merge(AsOption(e), None) == AsOption(e)
  {
    NormalizedIsFixed(e);
  }

  /**
   Main result: whatever frontmatter and `subagents.json` held before, after an apply in which no write
   failed every agent reads exactly what the profile says; builtins read it over their own package file,
   and the roles the review provider owns are left alone.
   */
  lemma ApplyReadsBack(disk: Disk, agents: seq<Agent>, profile: Config, i: nat)
    requires Discovered(agents) && profile.Valid() && AllNormalized(profile)
    requires ApplyProfile(disk, agents, profile).ok && i < |agents|
    ensures ReadBack(ApplyProfile(disk, agents, profile).disk, agents[i]) == ReadsAfter(disk, agents[i], profile)
  {
    var padded := Pad(agents, profile);
    var after := ApplyProfile(disk, agents, profile).disk;
    var a := agents[i];
    PadCompletes(agents, profile);
    ApplyEffect(disk, agents, padded, i);
    if !IsReviewRole(a.name) {
      var e := padded.at[a.name];
      assert AsOption(e) == Wanted(profile, a.name);
      UpToDateReads(after.StoreFor(a.source), a.name, e);
      MergeSame(e);
      if a.filePath.Some? && a.filePath.value in disk.files {
        ReadAfterUpdate(disk.files[a.filePath.value], e);
      }
    }
  }

  function ModelOf(e: Option<Entry>): Option<string> {
    if e.Some? then e.value.model else None
  }

  function ThinkingOf(e: Option<Entry>): Option<string> {
    if e.Some? then e.value.thinking else None
  }

  /** Each field of `r` is that of `first` where it has one, and otherwise that of `second`. */
  ghost predicate FieldByField(r: Option<Entry>, first: Option<Entry>, second: Option<Entry>) {
    && ModelOf(r) == (if ModelOf(first).Some? then ModelOf(first) else ModelOf(second))
    && ThinkingOf(r) == (if ThinkingOf(first).Some? then ThinkingOf(first) else ThinkingOf(second))
    && (r.None? <==> first.None? && second.None?)
  }

  lemma MergeIsFieldByField(first: Option<Entry>, second: Option<Entry>)
    requires first.Some? ==> Normalized(first.value) && first.value != CLEAR
    requires second.Some? ==> Normalized(second.value) && second.value != CLEAR
    ensures FieldByField(Merge(first, second), first, second)
  {
    if first.Some? && second.Some? {
      NormalizedIsFixed(Entry(if first.value.model.Some? then first.value.model else second.value.model,
                              if first.value.thinking.Some? then first.value.thinking else second.value.thinking));
    }
  }

  /** On any disk a launch reads each field from the stored profile where it has one, and from the agent's file otherwise. */
  lemma ReadBackIsFieldByField(disk: Disk, a: Agent)
    ensures FieldByField(ReadBack(disk, a), ReadProfile(disk.StoreFor(a.source), a.name), FileRouting(disk, a))
  {
    MergeIsFieldByField(ReadProfile(disk.StoreFor(a.source), a.name), FileRouting(disk, a));
  }

  /** After an apply a builtin reads each field from the profile's entry where it has one, and from its untouched package file otherwise. */
  lemma BuiltinReadsFieldByField(disk: Disk, agents: seq<Agent>, profile: Config, i: nat)
    requires Discovered(agents) && profile.Valid() && AllNormalized(profile)
    requires ApplyProfile(disk, agents, profile).ok && i < |agents|
    requires agents[i].source.Builtin? && !IsReviewRole(agents[i].name)
    ensures FieldByField(ReadBack(ApplyProfile(disk, agents, profile).disk, agents[i]),
                         if agents[i].name in profile.at then AsOption(profile.at[agents[i].name]) else None,
                         FileRouting(disk, agents[i]))
  {
    ApplyReadsBack(disk, agents, profile, i);
    MergeIsFieldByField(Wanted(profile, agents[i].name), FileRouting(disk, agents[i]));
  }

  // ----- The counters -----

  /** Every counted update is one write that was attempted, and no other write was. */
  ghost predicate Counted(start: Disk, p: Progress) {
    p.ok ==> p.disk.faults == if p.updated <= |start.faults| then start.faults[p.updated..] else []
  }

  /** How many things an agent can count: its file and its stored profile, or one for a builtin or one left out. */
  function AgentItems(a: Agent, config: Config): nat {
    if IsReviewRole(a.name) then 0 else if a.name !in config.at || a.source.Builtin? then 1 else 2
  }

  function Items(agents: seq<Agent>, config: Config): nat {
    if agents == [] then 0 else Items(agents[..|agents| - 1], config) + AgentItems(agents[|agents| - 1], config)
  }

  function UnlistedItems(names: seq<Name>, agents: seq<Agent>, config: Config): nat {
    if names == [] then 0
    else UnlistedItems(names[..|names| - 1], agents, config) + if ClearsUnlisted(names[|names| - 1], agents, config) then 1 else 0
  }

  lemma WriteProfileCounts(start: Disk, p: Progress, source: Source, name: Name, e: Entry)
    requires p.ok && Counted(start, p)
    ensures var q := WriteProfile(p, source, name, e);
      Counted(start, q) && (q.ok ==> q.updated + q.skipped == p.updated + p.skipped + 1)
  {
  }

  lemma WriteFrontmatterCounts(start: Disk, p: Progress, a: Agent, e: Entry)
    requires p.ok && Counted(start, p)
    ensures var q := WriteFrontmatter(p, a, e);
      Counted(start, q) && (q.ok ==> q.updated + q.skipped == p.updated + p.skipped + 1)
  {
  }

  lemma ApplyAgentCounts(start: Disk, p: Progress, a: Agent, config: Config)
    requires p.ok && Counted(start, p)
    ensures var q := ApplyAgent(p, a, config);
      Counted(start, q) && (q.ok ==> q.updated + q.skipped == p.updated + p.skipped + AgentItems(a, config))
  {
    if Routed(a, config) {
      var e := config.at[a.name];
      var afterFile := if a.source.Builtin? then p else WriteFrontmatter(p, a, e);
      if !a.source.Builtin? { WriteFrontmatterCounts(start, p, a, e); }
      if afterFile.ok { WriteProfileCounts(start, afterFile, a.source, a.name, e); }
    }
  }

  lemma {:induction false} ApplyAgentsCount(start: Disk, agents: seq<Agent>, config: Config)
    ensures var q := ApplyAgents(Progress(start, true, 0, 0), agents, config);
      Counted(start, q) && (q.ok ==> q.updated + q.skipped == Items(agents, config))
  {
    if agents != [] {
      var front, last := agents[..|agents| - 1], agents[|agents| - 1];
      var before := ApplyAgents(Progress(start, true, 0, 0), front, config);
      ApplyAgentsCount(start, front, config);
      if before.ok { ApplyAgentCounts(start, before, last, config); }
    }
  }

  lemma {:induction false} ApplyUnlistedCounts(start: Disk, p: Progress, names: seq<Name>, agents: seq<Agent>, config: Config)
    requires Counted(start, p)
    ensures var q := ApplyUnlisted(p, names, agents, config);
      Counted(start, q) && (q.ok ==> p.ok && q.updated + q.skipped == p.updated + p.skipped + UnlistedItems(names, agents, config))
  {
    if names != [] {
      var front, last := names[..|names| - 1], names[|names| - 1];
      var before := ApplyUnlisted(p, front, agents, config);
      ApplyUnlistedCounts(start, p, front, agents, config);
      if before.ok { WriteProfileCounts(start, before, User, last, CLEAR); }
    }
  }

  /** The counts an apply reports: updates are exactly its writes, and with the skipped ones they are everything it looked at. */
  lemma ApplyCountsWrites(disk: Disk, agents: seq<Agent>, config: Config)
    requires Apply(disk, agents, config).ok
    ensures var q := Apply(disk, agents, config);
      && q.disk.faults == (if q.updated <= |disk.faults| then disk.faults[q.updated..] else [])
      && q.updated + q.skipped == Items(agents, config) + UnlistedItems(config.order, agents, config)
  {
    ApplyAgentsCount(disk, agents, config);
    ApplyUnlistedCounts(disk, ApplyAgents(Progress(disk, true, 0, 0), agents, config), config.order, agents, config);
  }

  /** History independence: after A then B every agent reads as after B alone. */
  lemma ApplyForgetsHistory(disk: Disk, agents: seq<Agent>, a: Config, b: Config, faults: seq<bool>, i: nat)
    requires Discovered(agents) && a.Valid() && AllNormalized(a) && b.Valid() && AllNormalized(b)
    requires ApplyProfile(disk, agents, a).ok && i < |agents|
    requires ApplyProfile(ApplyProfile(disk, agents, a).disk, agents, b).ok
    requires ApplyProfile(disk.(faults := faults), agents, b).ok
    ensures ReadBack(ApplyProfile(ApplyProfile(disk, agents, a).disk, agents, b).disk, agents[i])
         == ReadBack(ApplyProfile(disk.(faults := faults), agents, b).disk, agents[i])
  {
    var first := ApplyProfile(disk, agents, a).disk;
    ApplyReadsBack(first, agents, b, i);
    ApplyReadsBack(disk.(faults := faults), agents, b, i);
    ApplyReadsBack(disk, agents, a, i);
    ApplyEffect(disk, agents, Pad(agents, a), i);
  }

  // ----- How many writes fail -----

  /** No coming write fails. */
  predicate Healthy(disk: Disk) {
    forall i :: 0 <= i < |disk.faults| ==> !disk.faults[i]
  }

  /** At most one of the coming writes fails. */
  predicate OneFault(disk: Disk) {
    forall i, j :: 0 <= i < j < |disk.faults| ==> !(disk.faults[i] && disk.faults[j])
  }

  /** Once a write has failed, the one fault is used up; without faults nothing fails. */
  predicate Weathers(p: Progress, q: Progress) {
    && (p.ok && OneFault(p.disk) ==> OneFault(q.disk) && (!q.ok ==> Healthy(q.disk)))
    && (p.ok && Healthy(p.disk) ==> q.ok && Healthy(q.disk))
    && (!p.ok ==> q == p)
  }

  lemma AttemptUsesFault(disk: Disk)
    ensures Healthy(disk) ==> !disk.NextWriteFails() && Healthy(disk.AfterAttempt())
    ensures OneFault(disk) ==> OneFault(disk.AfterAttempt()) && (disk.NextWriteFails() ==> Healthy(disk.AfterAttempt()))
  {
    if disk.faults != [] {
      assert forall i :: 0 <= i < |disk.faults| - 1 ==> disk.AfterAttempt().faults[i] == disk.faults[i + 1];
    }
  }

  lemma WriteProfileWeathers(p: Progress, source: Source, name: Name, e: Entry)
    ensures Weathers(p, WriteProfile(p, source, name, e))
  {
    AttemptUsesFault(p.disk);
  }

  lemma ApplyAgentWeathers(p: Progress, a: Agent, config: Config)
    ensures Weathers(p, ApplyAgent(p, a, config))
  {
    AttemptUsesFault(p.disk);
    if a.name in config.at {
      var e := config.at[a.name];
      WriteProfileWeathers(if a.source.Builtin? then p else WriteFrontmatter(p, a, e), a.source, a.name, e);
    }
  }

  lemma {:induction false} ApplyAgentsWeathers(p: Progress, agents: seq<Agent>, config: Config)
    ensures Weathers(p, ApplyAgents(p, agents, config))
  {
    if agents != [] {
      var front, last := agents[..|agents| - 1], agents[|agents| - 1];
      ApplyAgentsWeathers(p, front, config);
      ApplyAgentWeathers(ApplyAgents(p, front, config), last, config);
    }
  }

  lemma {:induction false} ApplyUnlistedWeathers(p: Progress, names: seq<Name>, agents: seq<Agent>, config: Config)
    ensures Weathers(p, ApplyUnlisted(p, names, agents, config))
  {
    if names != [] {
      var front, last := names[..|names| - 1], names[|names| - 1];
      ApplyUnlistedWeathers(p, front, agents, config);
      WriteProfileWeathers(ApplyUnlisted(p, front, agents, config), User, last, CLEAR);
    }
  }

  /** An apply fails only when a write does, stops there, and a single fault is then used up. */
  lemma ApplyStopsAtItsFault(disk: Disk, agents: seq<Agent>, config: Config)
    ensures var p := Apply(disk, agents, config);
      && (OneFault(disk) ==> OneFault(p.disk) && (!p.ok ==> Healthy(p.disk)))
      && (Healthy(disk) ==> p.ok && Healthy(p.disk))
  {
    var start := Progress(disk, true, 0, 0);
    ApplyAgentsWeathers(start, agents, config);
    ApplyUnlistedWeathers(ApplyAgents(start, agents, config), config.order, agents, config);
  }

  // ----- A second apply writes nothing -----

  ghost predicate Quiet(p: Progress, q: Progress) {
    q.ok == p.ok && q.disk == p.disk && q.updated == p.updated
  }

  lemma {:induction false} SettledAgentsAreQuiet(p: Progress, agents: seq<Agent>, all: seq<Agent>, config: Config, before: Disk)
    requires p.ok && AllNormalized(config) && agents <= all
    requires forall i :: 0 <= i < |all| ==> AgentDone(before, p.disk, all[i], config)
    requires before.files.Keys == p.disk.files.Keys
    ensures Quiet(p, ApplyAgents(p, agents, config))
  {
    if agents != [] {
      var front, last := agents[..|agents| - 1], agents[|agents| - 1];
      SettledAgentsAreQuiet(p, front, all, config, before);
      assert last == all[|agents| - 1] && AgentDone(before, p.disk, last, config);
      if Routed(last, config) {
        NormalizedIsSingleLine(config.at[last.name]);
        if last.filePath.Some? && last.filePath.value in p.disk.files {
          UpdateIsIdempotent(before.files[last.filePath.value], config.at[last.name]);
        }
      }
    }
  }

  lemma {:induction false} SettledNamesAreQuiet(p: Progress, names: seq<Name>, agents: seq<Agent>, config: Config)
    requires p.ok
    requires forall i :: 0 <= i < |names| && ClearsUnlisted(names[i], agents, config) ==> UpToDate(p.disk.home, names[i], CLEAR)
    ensures Quiet(p, ApplyUnlisted(p, names, agents, config))
  {
    if names != [] {
      SettledNamesAreQuiet(p, names[..|names| - 1], agents, config);
    }
  }

  /** Applying the same configuration again reports no update, attempts no write and changes nothing. */
  lemma ReapplyIsQuiet(disk: Disk, agents: seq<Agent>, config: Config)
    requires Discovered(agents) && AllNormalized(config) && Apply(disk, agents, config).ok
    ensures var after := Apply(disk, agents, config).disk;
            var again := Apply(after, agents, config);
            again.ok && again.updated == 0 && again.disk == after
  {
    var after := Apply(disk, agents, config).disk;
    var start := Progress(after, true, 0, 0);
    forall i | 0 <= i < |agents| ensures AgentDone(disk, after, agents[i], config) {
      ApplyEffect(disk, agents, config, i);
    }
    var middle, nobody := ApplyAgents(Progress(disk, true, 0, 0), agents, config), Agent("", User, None);
    UnlistedEffect(middle, config.order, agents, config);
    UnlistedLeavesListed(middle, config.order, agents, config, nobody);
    AgentsKeepElsewhere(Progress(disk, true, 0, 0), agents, config);
    SettledAgentsAreQuiet(start, agents, agents, config, disk);
    SettledNamesAreQuiet(ApplyAgents(start, agents, config), config.order, agents, config);
  }

  // ----- The extension's loops over the disk -----

  /** The files on disk, with the writes of `applyModelConfigAsync` done in place. */
  class RoutingDisk {
    var disk: Disk

    constructor (disk: Disk)
      ensures this.disk == disk
    {
      this.disk := disk;
    }

    /** One attempt to write: the next fault decides. */
    method Attempt() returns (ok: bool)
      modifies this
      ensures ok == !old(disk).NextWriteFails() && disk == old(disk).AfterAttempt()
    {
      ok := !(disk.faults != [] && disk.faults[0]);
      if disk.faults != [] {
        disk := disk.(faults := disk.faults[1..]);
      }
    }

    /** `updateSubagentModelProfileAtPathAsync` and the counting around it. */
    method UpdateStore(source: Source, name: Name, e: Entry, updated: nat, skipped: nat)
      returns (ok: bool, updated': nat, skipped': nat)
      modifies this
      ensures Progress(disk, ok, updated', skipped')
           == WriteProfile(Progress(old(disk), true, updated, skipped), source, name, e)
    {
      var store := disk.StoreFor(source);
      if UpToDate(store, name, e) {
        return true, updated, skipped + 1;
      }
      var others := if store.Parsed? then store.others else map[];
      var profiles := if store.Parsed? && store.profiles.Table? then store.profiles.table else map[];
      var profile := ProfileFor(e);
      if profile.Some? {
        profiles := profiles[name := profile.value];
      } else {
        profiles := profiles - {name};
      }
      ok := Attempt();
      if !ok {
        return false, updated, skipped;
      }
      disk := disk.WithStore(source, Parsed(others, if profiles == map[] then Absent else Table(profiles)));
      updated', skipped' := updated + 1, skipped;
    }

    /** The frontmatter half of one agent's turn. */
    method UpdateAgentFile(a: Agent, e: Entry, updated: nat, skipped: nat)
      returns (ok: bool, updated': nat, skipped': nat)
      modifies this
      ensures Progress(disk, ok, updated', skipped')
           == WriteFrontmatter(Progress(old(disk), true, updated, skipped), a, e)
    {
      if a.filePath.None? || a.filePath.value !in disk.files {
        return true, updated, skipped + 1;
      }
      var path := a.filePath.value;
      var next := Update(disk.files[path], e);
      if next == disk.files[path] {
        return true, updated, skipped + 1;
      }
      ok := Attempt();
      if !ok {
        return false, updated, skipped;
      }
      disk := disk.(files := disk.files[path := next]);
      updated', skipped' := updated + 1, skipped;
    }

    method ApplyOne(a: Agent, config: Config, updated: nat, skipped: nat)
      returns (ok: bool, updated': nat, skipped': nat)
      modifies this
      ensures Progress(disk, ok, updated', skipped')
           == ApplyAgent(Progress(old(disk), true, updated, skipped), a, config)
    {
      ok, updated', skipped' := true, updated, skipped;
      if IsReviewRole(a.name) {
        return;
      }
      if a.name !in config.at {
        return true, updated, skipped + 1;
      }
      var e := config.at[a.name];
      if !a.source.Builtin? {
        ok, updated', skipped' := UpdateAgentFile(a, e, updated, skipped);
        if !ok {
          return;
        }
      }
      ok, updated', skipped' := UpdateStore(a.source, a.name, e, updated', skipped');
    }

    /** The loop over the discovered agents; also collects the names it saw. */
    method ApplyListed(agents: seq<Agent>, config: Config)
      returns (ok: bool, updated: nat, skipped: nat, seen: set<Name>)
      modifies this
      ensures Progress(disk, ok, updated, skipped) == ApplyAgents(Progress(old(disk), true, 0, 0), agents, config)
      ensures ok ==> seen == Listed(agents)
    {
      ghost var start := Progress(disk, true, 0, 0);
      ok, updated, skipped, seen := true, 0, 0, {};
      for i := 0 to |agents|
        invariant ok && Progress(disk, ok, updated, skipped) == ApplyAgents(start, agents[..i], config)
        invariant seen == Listed(agents[..i])
      {
        assert agents[..i + 1][..i] == agents[..i];
        ok, updated, skipped := ApplyOne(agents[i], config, updated, skipped);
        if !ok {
          StopsAtFailure(start, agents, i + 1, config);
          return;
        }
        if !IsReviewRole(agents[i].name) {
          seen := seen + {agents[i].name};
        }
      }
      assert agents[..|agents|] == agents;
    }

    /** The loop over the configuration's names, for agents that are gone. */
    method ApplyCleared(agents: seq<Agent>, config: Config, seen: set<Name>, updated0: nat, skipped0: nat)
      returns (ok: bool, updated: nat, skipped: nat)
      requires seen == Listed(agents)
      modifies this
      ensures Progress(disk, ok, updated, skipped)
           == ApplyUnlisted(Progress(old(disk), true, updated0, skipped0), config.order, agents, config)
    {
      ghost var start := Progress(disk, true, updated0, skipped0);
      ok, updated, skipped := true, updated0, skipped0;
      for i := 0 to |config.order|
        invariant ok && Progress(disk, ok, updated, skipped) == ApplyUnlisted(start, config.order[..i], agents, config)
      {
        var name := config.order[i];
        UnlistedSnoc(start, config.order, i, agents, config);
        if !IsReviewRole(name) && name != PROFILE_ORCHESTRATOR_KEY && name !in seen
           && name in config.at && config.at[name] == CLEAR {
          ok, updated, skipped := UpdateStore(User, name, config.at[name], updated, skipped);
          if !ok {
            UnlistedStopsAtFailure(start, config.order, i + 1, agents, config);
            return;
          }
        }
      }
      assert config.order[..|config.order|] == config.order;
    }

    method ApplyModelConfig(agents: seq<Agent>, config: Config) returns (ok: bool, updated: nat, skipped: nat)
      modifies this
      ensures Progress(disk, ok, updated, skipped) == Apply(old(disk), agents, config)
    {
      ghost var middle := ApplyAgents(Progress(disk, true, 0, 0), agents, config);
      var seen;
      ok, updated, skipped, seen := ApplyListed(agents, config);
      if ok {
        ok, updated, skipped := ApplyCleared(agents, config, seen, updated, skipped);
      } else {
        StopsAtFailureUnlisted(middle, config.order, agents, config);
      }
    }
  }

  method WithOmittedAgentsCleared(agents: seq<Agent>, config: Config) returns (completed: Config)
    ensures completed == Pad(agents, config)
  {
    completed := config;
    for i := 0 to |agents|
      invariant completed == Pad(agents[..i], config)
    {
      assert agents[..i + 1][..i] == agents[..i];
      var name := agents[i].name;
      if !IsReviewRole(name) && name !in completed.at {
        completed := completed.Set(name, CLEAR);
      }
    }
    assert agents[..|agents|] == agents;
  }

  /** Once a write has thrown, the rest of the agents are not reached. */
  lemma {:induction false} StopsAtFailure(p: Progress, agents: seq<Agent>, n: nat, config: Config)
    requires n <= |agents|
    ensures !ApplyAgents(p, agents[..n], config).ok ==> ApplyAgents(p, agents, config) == ApplyAgents(p, agents[..n], config)
    decreases |agents| - n
  {
    if n < |agents| {
      StopsAtFailure(p, agents, n + 1, config);
      assert agents[..n + 1][..n] == agents[..n];
    } else {
      assert agents[..n] == agents;
    }
  }

  lemma {:induction false} StopsAtFailureUnlisted(p: Progress, names: seq<Name>, agents: seq<Agent>, config: Config)
    requires !p.ok
    ensures ApplyUnlisted(p, names, agents, config) == p
  {
    if names != [] {
      StopsAtFailureUnlisted(p, names[..|names| - 1], agents, config);
    }
  }

  lemma UnlistedSnoc(p: Progress, names: seq<Name>, i: nat, agents: seq<Agent>, config: Config)
    requires i < |names|
    ensures ApplyUnlisted(p, names[..i + 1], agents, config)
         == var before := ApplyUnlisted(p, names[..i], agents, config);
            if before.ok && ClearsUnlisted(names[i], agents, config) then WriteProfile(before, User, names[i], CLEAR) else before
  {
    assert names[..i + 1][..i] == names[..i];
  }

  lemma {:induction false} UnlistedStopsAtFailure(p: Progress, names: seq<Name>, n: nat, agents: seq<Agent>, config: Config)
    requires n <= |names|
    ensures !ApplyUnlisted(p, names[..n], agents, config).ok ==>
              ApplyUnlisted(p, names, agents, config) == ApplyUnlisted(p, names[..n], agents, config)
    decreases |names| - n
  {
    if n < |names| {
      UnlistedStopsAtFailure(p, names, n + 1, agents, config);
      assert names[..n + 1][..n] == names[..n];
    } else {
      assert names[..n] == names;
    }
  }
}
