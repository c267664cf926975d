# Gentle Pi: a verified model of its stateful cores

Gentle Pi is a set of extensions for the Pi coding agent. This project models the parts of it that keep state across
calls, or that print and parse text which must agree with itself, and proves what they promise over every input, every
run and every interleaving. `dafny verify dfyconfig.toml` checks all of it.

| module | models |
|---|---|
| `SessionTransport` | session transports: overlapping asynchronous startups ordered by a generation counter, memoised closes, a pending set and shutdown |
| `Frontmatter`, `ModelRouting`, `ApplySaga` | model routing: the frontmatter printer and reader, the materialiser over two stores, the merging reader, and the apply action with its compensation |
| `Json`, `CaptureGroup`, `RouteTable` | the review capture client: canonical binding texts, capture selection, group submission against any provider, the 64-entry route table |
| `ConsentRegistry` | pending review consents: two indexes, one-shot answers, expiry by clock, a bounded memory |
| `PromptEditor`, `MultiSelect` | the double-Esc gates, the queued-text hand-off, and the toggle dialog loop |
| `EditSurface`, `Ledgers`, `AgentRoots` | the edit-surface path rule, the remediation command ledger and the blocker label, agent discovery |
| `Common`, `Text`, `Utf16Strings`, `OrderedMaps` | optional values; JavaScript string operations, UTF-16 order and insertion-ordered maps |

How the model is laid out:

- What the code computes is a function of values (`Step`, `ApplyAction`, `Sync`, `Play`, ...). Code that changes
  variables in place is a class or a loop whose `ensures` equates the new state with that function of the old one. The
  promises are then lemmas about the function, over all runs.
- An asynchronous operation is cut at its `await`s. One event is one synchronous stretch, so a run is an arbitrary
  interleaving, and the environment decides freely which pending promise settles, how, and when.
- A file is an entry in a map, or one store. `Disk.faults` says which of the coming writes fail; a failed write leaves
  its file as it was.
- A JavaScript `Map` is an `OrderedMap`: insertion order and contents.
- The provider, the dialog host, the clock and the collation are parameters about which nothing is assumed, except
  that the clock does not run backwards in `ConsentRegistry`, that a collation is a strict weak order, and that the
  reader of JSON number texts reads back what it printed.

## Findings

Promises that the code does not keep on every input, each with the condition under which it does and an input on which
it does not.

- A shutdown that overlaps an earlier one can return while the earlier one is still closing the transport, because
  only the earlier one waits for that close. When a shutdown returns, everything is closed if and only if no other
  shutdown still waits for an unfinished close (`ShutdownLeavesNothing`, `OverlappingShutdownReturnsEarly`); so the last
  of several shutdowns to return does leave everything closed (`LastShutdownClosesEverything`).
- Clearing the routing of a block that held only routing lines leaves an empty line behind, so a later update does not
  produce what it would have produced alone (`ClearLeavesEmptyLine`). `SecondUpdateOverwrites` shows that this is the
  only such case.
- The canonical binding text identifies values that differ only in how numbers print: a number that overflowed prints
  like `null`, and minus zero like zero (`CanonicalTextIsIdentity`, `OverflowTextsCollide`).
- A failing write of Pi's `settings.json` in the apply action is not caught. The action then throws and leaves the new
  profile claimed and materialised, exactly under the condition `SettingsWriteFails`. The rollback of the settings
  inside `revertClaim` never runs, because no path calls `revertClaim` after the rollback has been set.
- A consent is checked against its expiry when it is consumed, but the mode gate is awaited after that, so the
  provider can be called after the expiry (`CallCanFollowExpiry`); `CallIsInTimeIff` says exactly when it is not.
- `add` keeps the two consent indexes inverse if and only if no other session holds the id (`AddKeepsMutual`, `SharedIdBreaksIndexes`);
  fresh ids guarantee that.
- On a full route table, registering the offered routes can evict one of them. All end up registered if and only if at
  most 64 are offered and each offered one among the entries that must make room is appended again after its eviction
  (`SyncKeepsAllOfferedIff`). `RunForgetsAnOfferedRoute` is a run of 65 operations that ends with one of two offered
  routes missing.
- A draft of only white space comes back as Pi's own text after an abort with a blank queue, not as it was
  (`AbortRecoversQueue`, `BlankDraftIsLost`).

## Model

| member | source | states |
|---|---|---|
| SessionTransport.RunKeepsInv | extensions/gentle-agents.ts:549-628 | over every interleaving of starts, successes, failures, supersessions and shutdowns: each startup's resources, close promise and position agree, generations increase, and every unfinished close is waited for |
| SessionTransport.ActiveTransportIsCurrent | extensions/gentle-agents.ts:562-619 | in every run the active transport carries the current generation, owns all three resources, was never closed, and every other startup is older |
| SessionTransport.OnlyTheOwnerSpeaks | extensions/gentle-agents.ts:592-596 | a listener accepts a notification only if its startup is the active, unclosed one; the tools send through the same transport |
| SessionTransport.ToolsGetActiveTransportIff | extensions/gentle-agents.ts:629-633 | in every run the tools of a session manager get a transport if and only if it is the active one, that manager is the open session and started it, and its id is still the one it was started with |
| SessionTransport.DeliversIff | extensions/gentle-agents.ts:592-596 | in every run a startup delivers if and only if it is the active one and its session is open under the same id |
| SessionTransport.RegistryPublishesIff | extensions/gentle-agents.ts:587-605 | in every run a created registry leads to publication if and only if nothing throws, the startup is current and its session is open under the same id |
| SessionTransport.ListenerKeepsActiveIff | extensions/gentle-agents.ts:606-611 | in every run a started listener leaves its transport active if and only if it was and its session is open under the same id |
| SessionTransport.OnlyValidSessionsGetTransport | extensions/gentle-agents.ts:585-586 | in every run only sessions with a valid id wait for or hold transport resources |
| SessionTransport.ValidSessionIdIff | extensions/gentle-agents.ts:552-552 | which session ids are valid, by character codes and length |
| SessionTransport.UndisturbedStartTakesOver | extensions/gentle-agents.ts:562-605 | from any reachable state a start for the open session whose factories work becomes the active transport, receives and sends, and the previous one's close is requested and waited for |
| SessionTransport.ActiveTransportStays | extensions/gentle-agents.ts:562-628 | in every run only a new start, a shutdown, its own listener's failure or a lost session ends the active transport |
| SessionTransport.ClosedExactlyOnce | extensions/gentle-agents.ts:572-582 | in every run each registry, listener and client outside the active transport is closed exactly once (a listener that owns its registry counts for it), or its close is queued and waited for |
| SessionTransport.ShutdownLeavesNothing | extensions/gentle-agents.ts:620-628 | when a shutdown returns and nothing started since, nothing is active or pending and every startup settled; everything is closed if and only if no overlapping shutdown still waits for a close |
| SessionTransport.LastShutdownClosesEverything | extensions/gentle-agents.ts:620-628 | a shutdown that returns after every other one has, with no start since, leaves every resource closed |
| SessionTransport.OverlappingShutdownReturnsEarly | extensions/gentle-agents.ts:620-628 | a concrete run in which a second shutdown returns with the transport still open |
| SessionTransport.InternalStepsFinishWork | extensions/gentle-agents.ts:562-628 | every step the environment does not initiate strictly decreases the remaining work |
| SessionTransport.InternalRunsEnd | extensions/gentle-agents.ts:562-628 | after the last outside event only boundedly many steps are left |
| SessionTransport.QuietMeansDone | extensions/gentle-agents.ts:562-628 | no deadlock: with no step left, every startup settled, every shutdown returned, nothing is pending, and all but the active transport is closed once |
| SessionTransport.TransportHost.CloseSessionTransport | extensions/gentle-agents.ts:572-582 | asking for a close a second time changes nothing |
| SessionTransport.TransportHost.TrackTransportOperation | extensions/gentle-agents.ts:558-558 | the operation joins the pending set; leaving it again is `UntrackSettled` |
| SessionTransport.TransportHost.StartSessionTransport | extensions/gentle-agents.ts:562-587 | the variables after a start up to its first await are those of the protocol's `Start` step |
| SessionTransport.TransportHost.CatchStartupFailure | extensions/gentle-agents.ts:612-615 | a failure clears the active transport only if it has the same generation, and requests the close |
| SessionTransport.TransportHost.StopStaleStartup | extensions/gentle-agents.ts:588-591 | a superseded startup requests its close and waits for it |
| SessionTransport.TransportHost.OnRegistryCreated | extensions/gentle-agents.ts:587-606 | the stretch from the registry to the start of the listener is the protocol's `RegistryCreated` step, with each factory free to throw |
| SessionTransport.TransportHost.OnListenerStarted | extensions/gentle-agents.ts:606-611 | a startup that is stale when its listener is up withdraws and closes, otherwise it stays published |
| SessionTransport.TransportHost.OnStartupRejected | extensions/gentle-agents.ts:612-615 | a rejected registry or listener goes through the catch |
| SessionTransport.TransportHost.RunCloseMicrotask | extensions/gentle-agents.ts:574-580 | the queued close calls each existing resource once, and the registry only if no listener closes it |
| SessionTransport.TransportHost.UntrackSettled | extensions/gentle-agents.ts:559-559 | a settled operation leaves the pending set |
| SessionTransport.TransportHost.ShutdownSessionTransport | extensions/gentle-agents.ts:620-627 | shutdown takes the active transport, advances the generation, and waits for its close or for the pending set |
| SessionTransport.TransportHost.ContinueShutdown | extensions/gentle-agents.ts:624-627 | after each wait shutdown looks at the pending set again and returns only when it is empty |
| Frontmatter.UpdatesKeepBlocks | extensions/gentle-ai.ts:2093-2119 | no sequence of updates, with any text in the entries, creates or removes a block; a file without one stays as it is and never reads as routed |
| Frontmatter.LastUpdateWins | extensions/gentle-ai.ts:2093-2138 | after any non-empty sequence of updates a file reads as the last entry, keeps its body, and strips to what it stripped to before |
| Frontmatter.UpdateShape | extensions/gentle-ai.ts:2100-2119 | an updated file is the opening, the kept lines with the routing lines inserted, and the untouched tail; its fence and lines are found again there |
| Frontmatter.OtherLinesSurvive | extensions/gentle-ai.ts:2102-2106 | every line that starts with neither `model:` nor `thinking:` survives an update as often as it was there |
| Frontmatter.RoutingPlacement | extensions/gentle-ai.ts:2107-2118 | the routing lines, model before thinking, stand right below the first `description:` line, or else below the first line, and the other lines keep their order around them |
| Frontmatter.ReadTakesLastValid | extensions/gentle-ai.ts:2126-2138 | of any file with a block the reader takes the last `model:` and the last `thinking:` line, keeps the valid ones, and finds no routing when neither is |
| Frontmatter.ModelIdIff | lib/model-routing-authority.ts:28-28 | which model ids are valid, by character codes |
| Frontmatter.BodyUnchanged | extensions/gentle-ai.ts:2100-2119 | everything from the closing fence on survives an update unchanged |
| Frontmatter.StripIgnoresRouting | extensions/gentle-ai.ts:298-310 | stripping after any single-line update gives what stripping alone gives, which the drift audit relies on |
| Frontmatter.ReadAfterUpdate | extensions/gentle-ai.ts:2126-2138 | reading what was written gives the entry back for every text with a block and every normalised entry; a clear reads as none |
| Frontmatter.SecondUpdateOverwrites | extensions/gentle-ai.ts:2093-2119 | a second update overwrites the first if and only if it is not the case that a clear emptied a block of only routing lines and the second update fills it |
| Frontmatter.ClearLeavesEmptyLine | extensions/gentle-ai.ts:2093-2119 | a concrete file on which a clear followed by an update differs from the update alone |
| Frontmatter.TwiceUpdated | extensions/gentle-ai.ts:2093-2119 | what two updates write, in terms of the original file's kept lines |
| Frontmatter.KeptAfterUpdate | extensions/gentle-ai.ts:2102-2106 | the lines kept by a second update are those kept by the first, but for the empty line of a cleared block |
| Frontmatter.UpdateIsIdempotent | extensions/gentle-ai.ts:2093-2119 | the same update again changes nothing |
| Frontmatter.FenceAfter | extensions/gentle-ai.ts:2098-2101 | lines that do not look like a fence, joined in front of a fence, are found and split again exactly |
| ModelRouting.UpdateProfileEffect | extensions/gentle-ai.ts:2497-2528 | an update makes one name's stored profile the wanted one and leaves every other name and key as it was |
| ModelRouting.UpToDateReads | extensions/gentle-ai.ts:2140-2144 | a stored profile that matches an entry reads back as that entry |
| ModelRouting.ApplyEffect | extensions/gentle-ai.ts:2742-2791 | after an apply without a failed write every agent's file and stored profile are exactly what the configuration says, and nothing else changed |
| ModelRouting.PadCompletes | extensions/gentle-ai.ts:2276-2287 | padding gives every listed non-review agent an entry, keeps the profile's entries, and adds only clear ones |
| ModelRouting.ApplyReadsBack | extensions/gentle-ai.ts:2184-2202 | whatever the stores held before, after applying a profile every non-builtin agent reads the profile's entry or inherit, a builtin reads it merged over its package file, and review roles read as before |
| ModelRouting.ReadBackIsFieldByField | extensions/gentle-ai.ts:2146-2156 | on any disk a launch reads each field from the stored profile where it has one and from the agent's file otherwise |
| ModelRouting.BuiltinReadsFieldByField | extensions/gentle-ai.ts:2184-2202 | after an apply a builtin reads each field from the profile's entry where it has one and from its untouched package file otherwise |
| ModelRouting.ApplyCountsWrites | extensions/gentle-ai.ts:2746-2790 | the reported updates are exactly the writes, and with the skipped ones they are everything the apply looked at |
| ModelRouting.ApplyForgetsHistory | extensions/gentle-ai.ts:2269-2287 | applying A and then B reads back the same as applying B alone |
| ModelRouting.ReapplyIsQuiet | extensions/gentle-ai.ts:2742-2791 | applying the same configuration again succeeds, counts no update, attempts no write and changes nothing |
| ModelRouting.ApplyStopsAtItsFault | extensions/gentle-ai.ts:2742-2791 | an apply fails only when a write does, and attempts no write after it, so a single fault is used up by then; what is left on disk is `FailedApplyLeaves` |
| ModelRouting.FailedApplyLeaves | extensions/gentle-ai.ts:2742-2791 | after a failed apply either every agent before some position is done, the one there has at most its file written and the later ones are untouched, or all agents are done and the failure came while removing profiles of agents that are gone; nothing else changed |
| ModelRouting.WithOmittedAgentsCleared | extensions/gentle-ai.ts:2276-2287 | the loop computes the padded configuration |
| ModelRouting.RoutingDisk.UpdateStore | extensions/gentle-ai.ts:2497-2528 | no write when the stored profile already matches; otherwise one write that may fail |
| ModelRouting.RoutingDisk.UpdateAgentFile | extensions/gentle-ai.ts:2766-2779 | a missing or unchanged file is skipped; otherwise one write of the updated text that may fail |
| ModelRouting.RoutingDisk.ApplyOne | extensions/gentle-ai.ts:2749-2782 | the loop body for one agent: review roles ignored, unlisted ones counted as skipped, builtins only in the store |
| ModelRouting.RoutingDisk.ApplyListed | extensions/gentle-ai.ts:2746-2782 | the loop over the agents stops at the first failed write and collects the names seen |
| ModelRouting.RoutingDisk.ApplyCleared | extensions/gentle-ai.ts:2783-2789 | cleared entries for agents that are gone remove their profiles from the home store |
| ModelRouting.RoutingDisk.ApplyModelConfig | extensions/gentle-ai.ts:2742-2791 | the disk, the counters and the outcome are those of the specified apply |
| ApplySaga.NormalizeConfigNormalizes | extensions/gentle-ai.ts:2050-2055 | a normalised configuration is a proper map of normalised entries |
| ApplySaga.NormalizeConfigKeeps | lib/model-routing-authority.ts:73-82 | a name survives if and only if it is safe and its entry is clear or has a valid field; it keeps its place and exactly the valid fields |
| ApplySaga.AgentNameIff | lib/model-routing-authority.ts:29-29 | which names are safe, by character codes |
| ApplySaga.NormalizeConfigIsIdempotent | extensions/gentle-ai.ts:2050-2055 | normalising what was written gives the same configuration |
| ApplySaga.WinningPinIsLocal | extensions/gentle-ai.ts:4212-4236 | with a winning pin no global file is written, and the clone pins the profile exactly when that write succeeds |
| ApplySaga.FailureKeepsStoreAndSettings | extensions/gentle-ai.ts:4238-4361 | for a failure at any write the store handed back is the one passed in and the settings are untouched; the action throws if and only if the settings write itself fails after everything else succeeded |
| ApplySaga.SettingsFaultLeavesProfileClaimed | extensions/gentle-ai.ts:4323-4337 | a concrete machine on which that uncaught failure leaves the new profile claimed |
| ApplySaga.RevertReportsMarker | extensions/gentle-ai.ts:4259-4298 | a revert reports the active marker restored exactly when the store file holds the passed-in store again |
| ApplySaga.MarkerReportIsTrue | extensions/gentle-ai.ts:4259-4322 | what the warning of a failed action says about the marker is what the store file holds |
| ApplySaga.RestoredRoutingReadsBack | extensions/gentle-ai.ts:4259-4275 | after a compensated half-done apply every agent reads the previously active profile |
| ApplySaga.RoutingAfterAction | extensions/gentle-ai.ts:4238-4361 | success: every agent reads the new profile; failure before routing: nothing moved; reported restore: every agent reads the previous profile |
| ApplySaga.SingleFailureIsCompensated | extensions/gentle-ai.ts:4238-4361 | with at most one failure the action succeeds, or throws on the settings write, or claimed nothing and moved nothing, or has the store back and every agent reading the previously active profile whenever one is known |
| ApplySaga.RevertRestores | extensions/gentle-ai.ts:4259-4298 | when the compensating writes succeed the store is the passed-in one, and the previous profile is materialised and reported |
| ApplySaga.HealthyActionSucceeds | extensions/gentle-ai.ts:4238-4361 | when no write fails and the settings can take the orchestrator, the action succeeds with the profile claimed; what the settings then hold is `SettingsAfterSuccess` |
| ApplySaga.SettingsAfterSuccess | lib/profiles-orchestrator.ts:107-133 | after a success the store differs only in its active profile, and the settings hold the orchestrator's provider (the part of the model id before its first slash), its model, its thinking level or none, and everything else as before; without an orchestrator model they are unchanged |
| ApplySaga.UnusableOrchestratorReverts | lib/profiles-orchestrator.ts:112-120 | a model id without provider and model, or settings that are no object, always lead to a revert |
| ApplySaga.ApplyProtects | extensions/gentle-ai.ts:2749-2766 | even a half-done apply leaves review roles and the package files of builtins as they were |
| ApplySaga.ProfilesPanel.RevertClaim | extensions/gentle-ai.ts:4259-4298 | the compensation's writes and its report are the specified ones |
| ApplySaga.ProfilesPanel.ApplyProfileAction | extensions/gentle-ai.ts:4204-4322 | the files and the outcome of the action are the specified ones, for every pattern of failing writes |
| ApplySaga.ProfilesPanel.ApplyOrchestrator | lib/profiles-orchestrator.ts:44-133 | the settings step: unparsable settings revert, equal settings write nothing, a failing write throws |
| ApplySaga.ProfilesPanel.WriteModelConfig | extensions/gentle-ai.ts:2050-2055 | the file holds the normalised configuration, or is unchanged if the write fails |
| ApplySaga.ProfilesPanel.RestorePreviousRouting | extensions/gentle-ai.ts:4261-4275 | the previous configuration is written and materialised again; any failed write stops it |
| Json.ParseQuoted | extensions/gentle-ai.ts:7174-7177 | every string of code units, lone surrogates and controls included, is parsed back from its quoted form |
| Json.ParsePrint | extensions/gentle-ai.ts:7180-7189 | a printed value, followed by anything that ends it, parses to that value and that rest |
| Json.EscapedUnitIs | extensions/gentle-ai.ts:7174-7177 | how each code unit is written in a quoted text, as section 7 of RFC 8259 and `JSON.stringify` have it |
| Json.EscapedTextIs | extensions/gentle-ai.ts:7174-7177 | a surrogate pair is written as itself, any other first unit on its own |
| Json.EscapedIsWellFormed | extensions/gentle-ai.ts:7174-7177 | whatever a string holds, its quoted text has no control characters and no lone surrogate |
| Json.NumberTokenIff | extensions/gentle-ai.ts:7182-7183 | a number token is exactly what the grammar of section 6 of RFC 8259 derives |
| Json.CanonicalIsPrintedCanon | extensions/gentle-ai.ts:7173-7178 | the canonical text is the plain print of the value with sorted keys at every level |
| Json.CanonIsIdempotent | extensions/gentle-ai.ts:7173-7178 | canonicalising twice is canonicalising once |
| Json.SameTextSameCanon | extensions/gentle-ai.ts:7173-7178 | equal canonical texts and equal canonical values are the same thing |
| Json.CanonIffEquivalent | extensions/gentle-ai.ts:7173-7178 | canonical values are equal if and only if the values are equal up to object key order and number printing |
| Json.CanonicalTextIsIdentity | extensions/gentle-ai.ts:7173-7178 | two values print equally if and only if they are equal up to key order and number printing; with only finite numbers, up to key order |
| Json.OverflowCollidesWithNull | extensions/gentle-ai.ts:7174-7174 | an overflowed number and null are different values with one canonical text |
| Json.OverflowTextsCollide | extensions/gentle-ai.ts:7180-7189 | two submitted texts, one with a number that overflows and one with null, parse to different values and have the same canonical binding |
| Json.CanonicalTextReparses | extensions/gentle-ai.ts:7180-7189 | a canonical text parses to the canonical value and prints as itself |
| Json.CanonicalBindingIsFixpoint | extensions/gentle-ai.ts:7180-7189 | whatever text is submitted, its canonical form is a fixed point |
| Json.CanonicalTextIsBindingIff | extensions/gentle-ai.ts:7180-7189 | the canonical text of a value is its own binding if the value is an object, and no binding otherwise |
| Json.TrailingTextIsRejected | extensions/gentle-ai.ts:7182-7186 | a canonical text followed by a delimiter and more is no JSON text and no binding |
| Json.ParsedIsWellFormed | extensions/gentle-ai.ts:7180-7189 | every parsed value has distinct keys and numbers that read back |
| Utf16Strings.SortKeysCorrect | extensions/gentle-ai.ts:7177-7177 | key sorting yields the same keys in the order of section 3.2.3 of RFC 8785 |
| CaptureGroup.MatchingSpec | extensions/gentle-ai.ts:7263-7268 | the filter returns exactly one input if and only if exactly one position carries that binding |
| CaptureGroup.SelectionIsStructural | extensions/gentle-ai.ts:7244-7288 | a submitted value selects a capture if and only if STATUS speaks for the lineage and exactly one current input is structurally equal to it and carries the right lineage and target |
| CaptureGroup.ExactArgumentIff | extensions/gentle-ai.ts:7191-7194 | an argument has a value if and only if its name occurs exactly once |
| CaptureGroup.SelectedCaptureIsBound | extensions/gentle-ai.ts:7244-7288 | a selected capture prints as the binding and carries the lineage and STATUS's target, or its correction's own target |
| CaptureGroup.OfferedGroupIsBound | extensions/gentle-ai.ts:7312-7358 | a group is accepted if and only if every slot carries the same lineage, target, revision and repository context as STATUS and its subject, takes one reviewer result, and no two share binding, lens, order or subject |
| CaptureGroup.SuffixOfferedIff | extensions/gentle-ai.ts:7296-7301 | without a collect transition only the empty rest is offered; with nothing but capture results, exactly their bindings in order |
| CaptureGroup.CaptureResultsCons | extensions/gentle-ai.ts:7298-7298 | an input counts among the capture results if and only if it has that operation, and keeps its place |
| CaptureGroup.SelectGroup | extensions/gentle-ai.ts:7312-7358 | a group is accepted if and only if the bindings are the complete, distinct current reviewer group in provider order and every slot matches its subject and context |
| CaptureGroup.CheckSlots | extensions/gentle-ai.ts:7337-7356 | the loop with its three sets accepts if and only if each slot is right and no two share lens, order or subject |
| CaptureGroup.GroupCaptureIsSafe | extensions/gentle-ai.ts:7551-7645 | against any provider: submissions are a prefix of the bindings in order, each right after a STATUS offering exactly the rest; the reported count is the commits, or one less and flagged unknown; without acknowledgement, registration and an exact offer nothing runs |
| CaptureGroup.GroupCaptureIsExplained | extensions/gentle-ai.ts:7551-7645 | against any provider the log is a beginning of the one possible exchange; a closing, refused or unknown result is its last entry; it stops exactly where it has to; and reason, count and outcome of the report are determined by it |
| CaptureGroup.CooperativeGroupCompletes | extensions/gentle-ai.ts:7586-7645 | with a provider that offers the rest each time and accepts each result, every binding is committed and the report says completed |
| CaptureGroup.SubmitFromOk | extensions/gentle-ai.ts:7617-7645 | the same for the submission loop from any position |
| CaptureGroup.SubmittedReport | extensions/gentle-ai.ts:7536-7549 | what one submission reports against whether the provider committed it |
| CaptureGroup.ExecuteGroup | extensions/gentle-ai.ts:7551-7600 | the operation produces the specified exchange and report |
| CaptureGroup.ExecuteSelected | extensions/gentle-ai.ts:7586-7616 | after the selection: forecast without acknowledgement, the reviewers, then the submissions |
| CaptureGroup.SubmitAll | extensions/gentle-ai.ts:7617-7645 | the loop asks for STATUS before each submission, stops at the first obstacle and returns on a closing, refused or unknown result |
| RouteTable.KeysAreUnambiguous | extensions/gentle-ai.ts:6456-6462 | for absolute roots without NUL the keys of different lineages and bindings differ, and the two kinds never collide |
| RouteTable.TableStaysBounded | extensions/gentle-ai.ts:6473-6482 | over every run at most 64 entries, and no key holds the other kind of record |
| RouteTable.RetainEvictsOnlyWhenFull | extensions/gentle-ai.ts:6473-6482 | below the bound nothing is evicted, at the bound exactly the oldest entry is |
| RouteTable.CollisionChangesNothing | extensions/gentle-ai.ts:6542-6545 | a sync throws if and only if an offered binding is registered on a different route, and then changes nothing |
| RouteTable.UnusableStatusChangesNothing | extensions/gentle-ai.ts:6538-6540 | a status that is not terminal and is of no current target or no usable lineage changes nothing |
| RouteTable.KnownKeyKeepsItsPlace | extensions/gentle-ai.ts:6474-6481 | retaining a known key evicts nothing and keeps its place |
| Text.ProcessStringIff | lib/native-review-cli.ts:690-692 | a usable process string begins and ends with something visible and holds no control code |
| RouteTable.TerminalClearsRoutes | extensions/gentle-ai.ts:6562-6566 | in a terminal state no route of the lineage is left, other entries stay, and the untracked selection goes unless approved |
| RouteTable.SyncedRoutesAreOffered | extensions/gentle-ai.ts:6546-6548 | after a sync the routes of that worktree and lineage are among the offered ones and on the given base |
| RouteTable.SyncRegistersAllThatFit | extensions/gentle-ai.ts:6546-6548 | when the new bindings fit, the routes are exactly the offered ones and no other entry is lost; the exact condition is `SyncKeepsAllOfferedIff` |
| RouteTable.AddRoutesOrder | extensions/gentle-ai.ts:6473-6482 | registering keeps exactly the last 64 of what was there followed by what was appended |
| RouteTable.SyncKeepsAllOfferedIff | extensions/gentle-ai.ts:6538-6549 | a sync ends with exactly the offered routes registered if and only if at most 64 are offered and every offered one among the oldest entries that must make room is appended again |
| RouteTable.RunForgetsAnOfferedRoute | extensions/gentle-ai.ts:6473-6482 | a concrete run of 65 operations after which only one of two offered routes is registered |
| RouteTable.FullTableForgetsAnOfferedRoute | extensions/gentle-ai.ts:6473-6482 | on every full table whose oldest entry is an already registered offered binding, one new binding pushes that one out; `RunForgetsAnOfferedRoute` reaches such a table |
| RouteTable.RetainedSelections.MakeRoom | extensions/gentle-ai.ts:6475-6479 | the eviction loop leaves exactly the newest 63 entries |
| RouteTable.RetainedSelections.RetainSelection | extensions/gentle-ai.ts:6473-6482 | a known key keeps its place; a new one is appended after room was made |
| RouteTable.RetainedSelections.DeleteRoutes | extensions/gentle-ai.ts:6546-6547 | deleting while iterating removes exactly the lineage's routes that are not kept |
| RouteTable.RetainedSelections.RegisterOffered | extensions/gentle-ai.ts:6538-6549 | collision check, pruning and registration give the specified table or throw |
| RouteTable.RetainedSelections.ClearTerminal | extensions/gentle-ai.ts:6562-6566 | the terminal clearing is the specified one |
| RouteTable.RetainedSelections.SyncStatus | extensions/gentle-ai.ts:6568-6571 | clearing and registration in sequence give the specified table |
| ConsentRegistry.AddKeepsMutual | extensions/gentle-ai.ts:5890-5893 | `add` keeps session maps and index inverse if and only if no other session holds the id |
| ConsentRegistry.SharedIdBreaksIndexes | extensions/gentle-ai.ts:5890-5893 | one binding added under two sessions leaves the indexes out of step |
| ConsentRegistry.RetireKeepsMutual | extensions/gentle-ai.ts:5919-5929 | consume and expire keep the indexes inverse, succeed exactly on a live binding, and make it unresolvable, leaving all others alone |
| ConsentRegistry.TakeKeepsMutual | extensions/gentle-ai.ts:5939-5944 | a session's shutdown removes exactly its bindings from both indexes |
| ConsentRegistry.RememberRefinesHistory | extensions/gentle-ai.ts:5913-5917 | adding to the memory of 32 and evicting is adding to the full history and keeping its last 32 |
| ConsentRegistry.RunKeepsInv | extensions/gentle-ai.ts:5979-6021 | the joint invariant of the registry, the clock and the answers under way holds in every run |
| ConsentRegistry.IndexesStayInverse | extensions/gentle-ai.ts:5898-5911 | in every run a session holds a binding if and only if the index names that session |
| ConsentRegistry.RetirementIsOneShot | extensions/gentle-ai.ts:5904-5929 | in every run each binding is consumed or expired at most once, and answering it again does nothing |
| ConsentRegistry.AnsweredAtMostOnce | extensions/gentle-ai.ts:8132-8205 | in every run the provider is called at most once per binding, from the minting repository, after a consumption before the expiry |
| ConsentRegistry.AnswerGoesAheadIff | extensions/gentle-ai.ts:8139-8180 | in every run an answer goes ahead if and only if the binding is live, unexpired, intact and answered from its repository; then nobody resolves it and it is remembered as consumed |
| ConsentRegistry.AnswerEffect | extensions/gentle-ai.ts:8139-8180 | in every run an answer to an unknown binding changes nothing, on an expired one it retires exactly that binding as expired, and on a live one it changes nothing at all or consumes exactly that binding for this answer |
| ConsentRegistry.TimerEffect | extensions/gentle-ai.ts:5992-5996 | in every run a timer retires exactly its binding as expired while it is live, and otherwise changes nothing |
| ConsentRegistry.PruneEffect | extensions/gentle-ai.ts:6015-6021 | in every run pruning a session takes exactly its bindings whose time has come; every other binding resolves as before |
| ConsentRegistry.ConsentEffect | extensions/gentle-ai.ts:8425-8454 | in every run a start that needs consent changes nothing when a live binding of the same repository, view and digest exists; otherwise it adds one that lives ten minutes, drops the session's others of that view and leaves the rest |
| ConsentRegistry.GateEffect | extensions/gentle-ai.ts:8181-8203 | in every run an open gate makes exactly one call, with the answer that waited, and a closed one none |
| ConsentRegistry.ConsentHasLiveBinding | extensions/gentle-ai.ts:8425-8462 | in every run a start that needs consent ends with a live, unexpired binding for exactly its repository, view and digest |
| ConsentRegistry.MemoryIsEndOfHistory | extensions/gentle-ai.ts:5913-5937 | in every run the memory is exactly the last 32 of all retirements, in order and with their dispositions, and names no live binding |
| ConsentRegistry.OneLiveBindingPerView | extensions/gentle-ai.ts:8426-8436 | a start never leaves two live bindings of one candidate view in a session |
| ConsentRegistry.CallIsInTimeIff | extensions/gentle-ai.ts:8181-8203 | the call comes before the expiry if and only if the gate took less than the lifetime left at consumption |
| ConsentRegistry.CallCanFollowExpiry | extensions/gentle-ai.ts:8181-8203 | a concrete run in which the provider is called after the expiry |
| ConsentRegistry.PendingReviewConsentRegistry.AddPending | extensions/gentle-ai.ts:5879-5893 | both maps after `add` are the specified ones |
| ConsentRegistry.PendingReviewConsentRegistry.ResolveBinding | extensions/gentle-ai.ts:5898-5902 | a binding resolves to its owner and value whoever asks |
| ConsentRegistry.PendingReviewConsentRegistry.RemovePending | extensions/gentle-ai.ts:5904-5911 | removes only the identical pending object, and an emptied session with it |
| ConsentRegistry.PendingReviewConsentRegistry.RememberDisposition | extensions/gentle-ai.ts:5913-5917 | the eviction loop leaves exactly the newest 32 |
| ConsentRegistry.PendingReviewConsentRegistry.RetirePending | extensions/gentle-ai.ts:5919-5929 | consume and expire: remove and remember, or false and no change |
| ConsentRegistry.PendingReviewConsentRegistry.TakeSession | extensions/gentle-ai.ts:5939-5944 | empties one session and returns its bindings in order |
| PromptEditor.ExtractInvertsJoin | extensions/gentle-shell.ts:223-228 | extraction gives back the queue from Pi's join of any queue and draft, and the empty text for a blank queue |
| PromptEditor.ExtractedRejoins | extensions/gentle-shell.ts:223-228 | a non-blank extracted queue joined with the draft is what Pi had written |
| PromptEditor.ExtractIff | extensions/gentle-shell.ts:223-228 | the draft alone is an empty queue, a text that ends with a gap and the draft is the queue in front of it, and any other text is unknown |
| Text.TrimBlank | extensions/gentle-shell.ts:225-225 | trimming leaves nothing exactly for white space only, which is what the model calls a blank draft or queue |
| PromptEditor.ClearIsConfirmed | extensions/gentle-shell.ts:331-352 | in every run a draft is cleared only by a second Esc within 500 ms of one that saw the identical idle draft, with no other key or turn between, and the text goes to the history |
| PromptEditor.AbortIsConfirmed | extensions/gentle-shell.ts:303-321 | in every run, with the option on, a turn is aborted only by a second Esc within a second of an arming one in the same uninterrupted turn |
| PromptEditor.SecondPressConfirms | extensions/gentle-shell.ts:303-352 | after an arming press an immediate second one clears or aborts if and only if it comes inside the window, and the first changed no text |
| PromptEditor.KeyEffects | extensions/gentle-shell.ts:296-356 | a key is kept from Pi if and only if it is the interrupt, without autocomplete, during a turn or on a draft that is neither blank nor a shell command; with the option off the first one aborts |
| PromptEditor.AbortRecoversQueue | extensions/gentle-shell.ts:375-387 | after Pi's own restore an abort dispatches exactly the non-blank queue and puts the draft back |
| PromptEditor.BlankDraftIsLost | extensions/gentle-shell.ts:375-387 | a draft of two spaces is gone after an abort without a queue |
| PromptEditor.NoQueuedWordIsLost | extensions/gentle-shell.ts:1098-1130 | in every run within a session the texts recovered from aborts are, in order, exactly those sent, put back or pending |
| PromptEditor.PendingGrowsByAborts | extensions/gentle-shell.ts:971-971 | an abort with a queue appends it to the pending text; other keys and turn starts leave that alone |
| PromptEditor.SettleDelivers | extensions/gentle-shell.ts:1108-1130 | a settle of an idle Pi delivers the pending text exactly once, as a message or into the editor, and keeps it only without an editor |
| PromptEditor.PutBackKeepsDraft | extensions/gentle-shell.ts:1118-1127 | a text that cannot be sent is put in front of the draft so that extraction finds it again |
| PromptEditor.GentlePromptEditor.SetWorkingState | extensions/gentle-shell.ts:270-281 | starting a turn ends a pending clear, ending one ends a pending cancel |
| PromptEditor.GentlePromptEditor.AbortAndDispatchQueued | extensions/gentle-shell.ts:375-387 | the text left and the text dispatched are the specified ones |
| PromptEditor.GentlePromptEditor.HandleInput | extensions/gentle-shell.ts:296-356 | every key moves the editor and reports its effect as specified |
| PromptEditor.GentleShell.OnKey | extensions/gentle-shell.ts:971-971 | dispatched text joins the pending text |
| PromptEditor.GentleShell.OnAgentStart | extensions/gentle-shell.ts:1098-1104 | a turn start sends nothing and keeps the pending text |
| PromptEditor.GentleShell.OnAgentSettled | extensions/gentle-shell.ts:1108-1130 | the pending text goes out once, or back into the editor, or stays when there is no editor |
| MultiSelect.DialogsAreBounded | extensions/ask-user-question.ts:88-90 | never more dialogs than the cap, for any labels and any host |
| MultiSelect.CommittedAnswerIsOddPicks | extensions/ask-user-question.ts:110-129 | for distinct labels a committed answer is exactly the options picked an odd number of times, committed by Done or because all are on, within the cap |
| MultiSelect.AnswerHoldsOddPicks | extensions/ask-user-question.ts:93-101 | for distinct labels a label is in a committed answer if and only if it was picked an odd number of times; the answer keeps the order of the question without repeats |
| MultiSelect.DialogsEndRightly | extensions/ask-user-question.ts:110-129 | every dialog but the last was answered with an option as shown; the last one commits if and only if it was Done or turned everything on, and otherwise was cancelled, answered with something not shown, or the last of `max(32, n + 2)` |
| MultiSelect.PlayCommitsOddPicks | extensions/ask-user-question.ts:116-126 | the same from any round |
| MultiSelect.PickedOptionIsUnique | extensions/ask-user-question.ts:67-72 | for distinct labels the shown text of an option finds that option and no other |
| MultiSelect.EverySubsetIsReachable | extensions/ask-user-question.ts:81-90 | every subset of distinct options can be committed within the cap |
| MultiSelect.ReachedAnswerHoldsMask | extensions/ask-user-question.ts:81-90 | and that answer holds exactly the wanted options, in order |
| MultiSelect.AskMultiSelect | extensions/ask-user-question.ts:110-129 | the loop over the mutable toggles returns the specified answer after the specified number of dialogs |
| EditSurface.AcceptedPathsStayBelow | extensions/gentle-ai.ts:485-508 | an accepted path resolved from any root lies strictly below it, through a first name without glob characters |
| EditSurface.CurrentDirectoryStays | extensions/gentle-ai.ts:497-497 | dropping leading `./` does not change where a path leads, and none is left |
| EditSurface.PlainPathsAreAccepted | extensions/gentle-ai.ts:485-508 | relative paths of letters, digits, dashes and single dots, with globs below the first name, are accepted; only spaces need backticks |
| EditSurface.UnsafePathsAreRefused | extensions/gentle-ai.ts:487-508 | absolute, home-relative and upward paths, control characters, unquoted spaces and globs in the first name are refused |
| EditSurface.SameListSameSet | extensions/gentle-ai.ts:566-572 | comparing the sorted unique lists is comparing the declared sets |
| EditSurface.HasTaskScopedSurfaces | extensions/gentle-ai.ts:543-580 | accepts if and only if there is a section, each is valid and all declare the same set |
| Ledgers.CommandsAreConserved | extensions/gentle-agents.ts:152-174 | in every run commands run plus commands left are the authorised multiset, no call id runs twice, and at most 32 observations are held, each of a call that ran |
| Ledgers.AcceptedIff | extensions/gentle-agents.ts:157-161 | in every run a call is accepted if and only if the scope allows it, its command is left and its id is new; then one copy of the command is gone |
| Ledgers.FinishedIsObserved | extensions/gentle-agents.ts:162-173 | in every run a finished call is observed with its own command while there is room, and collecting it forgets only it |
| Ledgers.RemediationBash.ExecuteCall | extensions/gentle-agents.ts:157-161 | a call outside the authorisation changes nothing; an accepted one uses up its command and its id |
| Ledgers.RemediationBash.CaptureFinished | extensions/gentle-agents.ts:162-166 | when the command of an accepted call returns, it is observed unless 32 observations are held |
| Ledgers.RemediationBash.TakeResult | extensions/gentle-agents.ts:169-173 | an observation is returned once and then forgotten |
| Ledgers.StreamIsLabelChanges | extensions/gentle-ai.ts:1842-1854 | in every run the emitted stream is the history of effective labels without repeats |
| Ledgers.LabelPriority | extensions/gentle-ai.ts:1843-1849 | in every run a choice outranks a questionnaire, which outranks pending confirmations |
| Ledgers.FlagsFollowEvents | extensions/gentle-ai.ts:1856-1878 | the flags follow their events, and confirmations are counted up and down, never below none |
| Ledgers.HerdrLifecycle.EmitEffectiveBlocker | extensions/gentle-ai.ts:1842-1854 | emits exactly when the effective label changed |
| Ledgers.HerdrLifecycle.Handle | extensions/gentle-ai.ts:1856-1878 | each event moves the counters as specified; a settle without a pending confirmation does nothing |
| AgentRoots.MergeIsRight | extensions/gentle-ai.ts:2393-2427 | one root per real directory, ordered by last occurrence, with the last alias's source, managed if and only if some alias is, and then at the first managed alias's path |
| AgentRoots.MergeRoots | extensions/gentle-ai.ts:2403-2427 | the loop over the candidate roots returns those roots in that order |
| AgentRoots.LaterFilesOverride | extensions/gentle-ai.ts:2448-2450 | every name found is kept once, with the last file that has it |
| AgentRoots.OrderingIsPermutation | extensions/gentle-ai.ts:2467-2475 | ordering is a rearrangement: core names first in their fixed order, the others sorted |
| AgentRoots.CoreComesFirst | extensions/gentle-ai.ts:2467-2475 | the list starts with the core agents in their fixed order and ends with all the others, sorted by name |
| AgentRoots.ListedOnceWithLastFile | extensions/gentle-ai.ts:2440-2451 | whatever files are found, the list holds each name once and exactly the overriding files |

## Left out

- SessionTransport: a session manager whose id getter throws; the model gives it an invalid id, which ends the startup in the same way without a transport.
- Frontmatter: model ids are non-empty, trimmed and single-line, as the validation message at extensions/gentle-ai.ts:3462 promises; other entry text is covered by the laws that only need single lines.
- ModelRouting: the list of discovered agents is a parameter with one agent per name and one file per agent; reading names out of files by regular expression is not modelled.
- ModelRouting: `subagents.json` is modelled as its values, without its JSON text, and configuration names that JavaScript objects inherit are not treated specially.
- ModelRouting.RoutingDisk.UpdateAgentFile: the ownership manifest of package-managed assets, which is updated together with an agent file, is part of that one write.
- ApplySaga.ProfilesPanel.ApplyProfileAction: the live switch of a running session and the evaluation of pin layers, both after the settings write, are not modelled, and neither is a throw from them.
- ApplySaga: Pi's settings are present, absent or unparsable with a model choice; other keys of that file and the wording of notifications are not modelled, except which parts are reported restored.
- Json.CanonicalTextIsIdentity: turning a number text into a double and back is a parameter that must read back what it printed; floating-point conversion itself is not modelled.
- CaptureGroup: the contents of the reconciling STATUS after the loop, the reviewer models, single captures and candidate views; the lookup of retained routes is one yes-or-no input.
- CaptureGroup.GroupCaptureIsSafe: a registered group and an acknowledgement are inputs; parsing the request parameters comes before the model.
- RouteTable: digests and inventories of an untracked selection are one opaque value; the pre-lineage entry under the empty lineage is an ordinary one.
- ConsentRegistry: removing the candidate view of an expired binding, digests of the consent envelope and STATUS after a stale answer; ids are fresh, digests are opaque.
- PromptEditor: rendering, pulse animation and key names; `session_shutdown`, which drops the pending text on purpose, ends a run.
- PromptEditor.NoQueuedWordIsLost: what is accounted for is the text this code recovered; images in queued messages are dropped by Pi before it.
- EditSurface.HasTaskScopedSurfaces: finding headings and entries in Markdown rests on regular expressions; sections arrive as parsed lines.
- EditSurface.PlainPathsAreAccepted: host-specific absolute paths are those with a leading slash, backslash, tilde or drive letter.
- EditSurface.AcceptedPathsStayBelow: symbolic links are not resolved, as in the source.
- Ledgers.RemediationBash.ExecuteCall: whether the scope allows the working directory is one yes-or-no input.
- Ledgers.RemediationBash.CaptureFinished: an observation holds the command of its call, without working directory and exit code.
- AgentRoots.OrderingIsPermutation: `localeCompare` is any strict weak order.
- Task runner, task store, native command line, permission policies, terminal panels and shell guards: plumbing around the modelled cores, or rules that rest on a regular-expression engine.
