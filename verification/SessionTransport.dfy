/**
 The session transport of the agents extension (extensions/gentle-agents.ts:547-633).

 Startups run concurrently: each is an asynchronous operation that suspends while it creates a
 registry, while its listener starts, and while its resources close. `Step` is one synchronous
 stretch of code between two suspension points (or one decision of the environment), so a run is
 an arbitrary interleaving of any number of startups and shutdowns with any failures.
 */
module SessionTransport {
  import opened Common

  /** A session manager object; only its identity matters. */
  type Manager = nat

  /** Where a startup operation is suspended. */
  datatype Phase =
    | AwaitingRegistry
    | AwaitingListener
    | AwaitingClose
    | Settled

  /** The memoised close promise: absent, queued, its three closes issued, all of them settled. */
  datatype CloseState = Unrequested | Requested | Issued | Closed

  datatype Startup = Startup(
    generation: nat,
    manager: Manager,
    sessionId: string,
    phase: Phase,
    registry: bool,
    listener: bool,
    client: bool,
    closesRegistry: bool,
    close: CloseState,
    registryCloses: nat,
    listenerCloses: nat,
    clientCloses: nat)
  {
    /** How often the registry was closed, directly or by a listener that owns it. */
    function EffectiveRegistryCloses(): nat {
      registryCloses + if closesRegistry then listenerCloses else 0
    }

    predicate Bare() {
      !registry && !listener && !client
    }

    predicate Complete() {
      registry && listener && client
    }

    predicate ClosedOnce() {
      && clientCloses == (if client then 1 else 0)
      && listenerCloses == (if listener then 1 else 0)
      && EffectiveRegistryCloses() == (if registry then 1 else 0)
    }

    predicate NeverClosed() {
      registryCloses == listenerCloses == clientCloses == 0
    }

    /** Asking for a close twice yields the same promise. */
    function RequestClose(): Startup {
      if close.Unrequested? then this.(close := Requested) else this
    }

    /** The queued close runs: one call per resource that exists, none for a registry its listener closes. */
    function IssueClose(): Startup {
      this.(close := Issued,
      clientCloses := clientCloses + if client then 1 else 0,
      listenerCloses := listenerCloses + if listener then 1 else 0,
      registryCloses := registryCloses + if registry && (!listener || !closesRegistry) then 1 else 0)
    }
  }

  /** Members of the pending set: a startup operation, or the tracked close of a superseded transport. */
  datatype Token = Operation(startup: nat) | CloseOf(startup: nat)

  datatype ShutdownPhase =
    | AwaitingActiveClose(startup: nat)
    | Draining(snapshot: set<Token>)
    | Returned

  /** `startsBefore` remembers how many startups existed when the shutdown began. */
  datatype Shutdown = Shutdown(phase: ShutdownPhase, startsBefore: nat)

  datatype State = State(
    generation: nat,
    active: Option<nat>,
    sessions: Option<Manager>,
    ids: map<Manager, string>,
    startups: seq<Startup>,
    pending: set<Token>,
    shutdowns: seq<Shutdown>)
  {
    function SessionIdOf(manager: Manager): string {
      if manager in ids then ids[manager] else ""
    }

    /** The id of the session Pi has open; absent when there is none. */
    function ActiveSessionId(): Option<string> {
      if sessions.None? then None else Some(SessionIdOf(sessions.value))
    }

    predicate Superseded(manager: Manager, generation': nat) {
      sessions != Some(manager) || generation' != generation
    }
  }

  /** What the transport factory does once the registry exists. */
  datatype Wiring =
    | ListenerThrows
    | ClientThrows(ownsRegistry: bool)
    | StartThrows(ownsRegistry: bool)
    | Starting(ownsRegistry: bool)

  datatype Event =
    | SetSessions(sessions: Option<Manager>, ids: map<Manager, string>)
    | Start(manager: Manager, registryThrows: bool)
    | RegistryCreated(startup: nat, wiring: Wiring)
    | RegistryFailed(startup: nat)
    | ListenerStarted(startup: nat)
    | ListenerFailed(startup: nat)
    | RunClose(startup: nat)
    | CloseSettles(startup: nat)
    | ResumeAfterClose(startup: nat)
    | Untrack(token: Token)
    | BeginShutdown
    | ShutdownClosed(shutdown: nat)
    | ShutdownDrained(shutdown: nat)

  const InitialState := State(0, None, None, map[], [], {}, [])

  predicate IsSessionIdChar(c: char, first: bool) {
    || 'A' <= c <= 'Z' || 'a' <= c <= 'z' || '0' <= c <= '9'
    || (!first && (c == '_' || c == '-'))
  }

  predicate ValidSessionId(id: string) {
    1 <= |id| <= 128 && forall i :: 0 <= i < |id| ==> IsSessionIdChar(id[i], i == 0)
  }

  /** A usable session id by its character codes: up to 128 letters and digits, and after the first also `-` and `_`. */
  lemma ValidSessionIdIff(id: string)
    ensures ValidSessionId(id) <==>
      && 0 < |id| < 129
      && forall i :: 0 <= i < |id| ==>
          var code := id[i] as int;
          48 <= code <= 57 || 65 <= code <= 90 || 97 <= code <= 122 || (i > 0 && (code == 45 || code == 95))
  {
    forall i | 0 <= i < |id|
      ensures IsSessionIdChar(id[i], i == 0) <==>
        var code := id[i] as int;
        48 <= code <= 57 || 65 <= code <= 90 || 97 <= code <= 122 || (i > 0 && (code == 45 || code == 95))
    {
    }
  }

  function Put(s: State, i: nat, startup: Startup): State
    requires i < |s.startups|
  {
    s.(startups := s.startups[i := startup])
  }

  predicate TokenSettled(s: State, token: Token) {
    token.startup < |s.startups| &&
    match token
    case Operation(i) => s.startups[i].phase.Settled?
    case CloseOf(i) => s.startups[i].close.Closed?
  }

  /** When the environment or the scheduler may take a step. */
  predicate Enabled(s: State, e: Event) {
    match e
    case SetSessions(_, _) => true
    case Start(_, _) => true
    case RegistryCreated(i, _) => i < |s.startups| && s.startups[i].phase.AwaitingRegistry?
    case RegistryFailed(i) => i < |s.startups| && s.startups[i].phase.AwaitingRegistry?
    case ListenerStarted(i) => i < |s.startups| && s.startups[i].phase.AwaitingListener?
    case ListenerFailed(i) => i < |s.startups| && s.startups[i].phase.AwaitingListener?
    case RunClose(i) => i < |s.startups| && s.startups[i].close.Requested?
    case CloseSettles(i) => i < |s.startups| && s.startups[i].close.Issued?
    case ResumeAfterClose(i) =>
      i < |s.startups| && s.startups[i].phase.AwaitingClose? && s.startups[i].close.Closed?
    case Untrack(token) => token in s.pending && TokenSettled(s, token)
    case BeginShutdown => true
    case ShutdownClosed(k) =>
      && k < |s.shutdowns| && s.shutdowns[k].phase.AwaitingActiveClose?
      && s.shutdowns[k].phase.startup < |s.startups|
      && s.startups[s.shutdowns[k].phase.startup].close.Closed?
    case ShutdownDrained(k) =>
      && k < |s.shutdowns| && s.shutdowns[k].phase.Draining?
      // A token leaves the set before anyone who waits for its promise resumes.
      && forall t :: t in s.shutdowns[k].phase.snapshot ==> TokenSettled(s, t) && t !in s.pending
  }

  /** The `catch` of a startup, and every early exit after the registry exists. */
  function Abandon(s: State, i: nat, startup: Startup): State
    requires i < |s.startups|
  {
    var cleared :=
      if s.active.Some? && s.active.value < |s.startups|
         && s.startups[s.active.value].generation == startup.generation
      then s.(active := None) else s;
    Put(cleared, i, startup.RequestClose().(phase := AwaitingClose))
  }

  /** The previous transport is asked to close, and the close is tracked. */
  function ClosingActive(s: State): State {
    if s.active.Some? && s.active.value < |s.startups|
    then Put(s, s.active.value, s.startups[s.active.value].RequestClose())
         .(pending := s.pending + {CloseOf(s.active.value)})
    else s
  }

  /** A new startup up to its first await. */
  function Begun(s: State, manager: Manager, registryThrows: bool): Startup {
    var id := s.SessionIdOf(manager);
    var created := Startup(s.generation + 1, manager, id, AwaitingRegistry, false, false, false, false, Unrequested, 0, 0, 0);
    if !ValidSessionId(id) || s.sessions != Some(manager) then created.(phase := Settled)
    else if registryThrows then created.RequestClose().(phase := AwaitingClose)
    else created
  }

  function StartStep(s: State, manager: Manager, registryThrows: bool): State {
    var closing := ClosingActive(s);
    closing.(generation := s.generation + 1,
    active := None,
    startups := closing.startups + [Begun(s, manager, registryThrows)],
    pending := closing.pending + {Operation(|s.startups|)})
  }

  function RegistryStep(s: State, i: nat, wiring: Wiring): State
    requires i < |s.startups|
  {
    var withRegistry := s.startups[i].(registry := true);
    if s.Superseded(withRegistry.manager, withRegistry.generation) then
      Put(s, i, withRegistry.RequestClose().(phase := AwaitingClose))
    else if wiring.ListenerThrows? then
      Abandon(s, i, withRegistry)
    else
      var withListener := withRegistry.(listener := true, closesRegistry := wiring.ownsRegistry);
      if wiring.ClientThrows? then
        Abandon(s, i, withListener)
      else
        var complete := withListener.(client := true);
        if s.ActiveSessionId() != Some(complete.sessionId) then
          Put(s, i, complete.RequestClose().(phase := AwaitingClose))
        else
          var published := Put(s, i, complete.(phase := AwaitingListener)).(active := Some(i));
          if wiring.StartThrows? then Abandon(published, i, complete) else published
  }

  function ListenerStep(s: State, i: nat): State
    requires i < |s.startups|
  {
    var startup := s.startups[i];
    if s.Superseded(startup.manager, startup.generation) || s.ActiveSessionId() != Some(startup.sessionId) then
      var cleared := if s.active == Some(i) then s.(active := None) else s;
      Put(cleared, i, startup.RequestClose().(phase := AwaitingClose))
    else
      Put(s, i, startup.(phase := Settled))
  }

  function ShutdownStep(s: State): State {
    var stopped := s.(active := None, generation := s.generation + 1);
    if s.active.Some? && s.active.value < |s.startups| then
      var a := s.active.value;
      Put(stopped, a, s.startups[a].RequestClose())
      .(shutdowns := s.shutdowns + [Shutdown(AwaitingActiveClose(a), |s.startups|)])
    else
      stopped.(shutdowns := s.shutdowns + [Shutdown(NextDrain(s.pending), |s.startups|)])
  }

  /** The loop head of a shutdown: return when nothing is pending, otherwise wait for what is. */
  function NextDrain(pending: set<Token>): ShutdownPhase {
    if pending == {} then Returned else Draining(pending)
  }

  function DrainStep(s: State, k: nat): State
    requires k < |s.shutdowns|
  {
    s.(shutdowns := s.shutdowns[k := s.shutdowns[k].(phase := NextDrain(s.pending))])
  }

  /** One step of the protocol; a step that is not enabled changes nothing. */
  function Step(s: State, e: Event): State {
    if !Enabled(s, e) then s else
    match e
    case SetSessions(sessions, ids) => s.(sessions := sessions, ids := ids)
    case Start(manager, registryThrows) => StartStep(s, manager, registryThrows)
    case RegistryCreated(i, wiring) => RegistryStep(s, i, wiring)
    case RegistryFailed(i) => Abandon(s, i, s.startups[i])
    case ListenerStarted(i) => ListenerStep(s, i)
    case ListenerFailed(i) => Abandon(s, i, s.startups[i])
    case RunClose(i) => Put(s, i, s.startups[i].IssueClose())
    case CloseSettles(i) => Put(s, i, s.startups[i].(close := Closed))
    case ResumeAfterClose(i) => Put(s, i, s.startups[i].(phase := Settled))
    case Untrack(token) => s.(pending := s.pending - {token})
    case BeginShutdown => ShutdownStep(s)
    case ShutdownClosed(k) => DrainStep(s, k)
    case ShutdownDrained(k) => DrainStep(s, k)
  }

  function Run(events: seq<Event>): State {
    if events == [] then InitialState else Step(Run(events[..|events| - 1]), events[|events| - 1])
  }

  // ----- The invariant -----

  /** Somebody will see this startup's close through: the pending set or a shutdown. */
  ghost predicate CloseTracked(s: State, i: nat) {
    || CloseOf(i) in s.pending
    || exists k :: 0 <= k < |s.shutdowns| && s.shutdowns[k].phase == AwaitingActiveClose(i)
  }

  /** What is known of one startup, given whether it is active, pending, and its close is tracked. */
  ghost predicate Coherent(t: Startup, generation: nat, active: bool, pending: bool, closeTracked: bool) {
    && t.generation <= generation
    && (t.closesRegistry ==> t.listener) && (t.listener ==> t.registry) && (t.client ==> t.listener)
    && (t.close.Unrequested? || t.close.Requested? ==> t.NeverClosed())
    && (t.close.Issued? || t.close.Closed? ==> t.ClosedOnce())
    && (!t.phase.Settled? ==> pending)
    && (active ==> t.close.Unrequested? && t.Complete() && t.generation == generation)
    && match t.phase
       case AwaitingRegistry => t.Bare() && t.close.Unrequested?
       case AwaitingListener =>
         t.Complete() && (t.close.Unrequested? ==> active) && (t.close.Requested? || t.close.Issued? ==> closeTracked)
       case AwaitingClose => !t.close.Unrequested?
       case Settled =>
         && (t.close.Unrequested? ==> t.Bare() || active)
         && (t.close.Requested? || t.close.Issued? ==> closeTracked)
  }

  ghost predicate StartupOk(s: State, i: nat)
    requires i < |s.startups|
  {
    Coherent(s.startups[i], s.generation, s.active == Some(i), Operation(i) in s.pending, CloseTracked(s, i))
  }

  ghost predicate TokenOk(s: State, t: Token) {
    t.startup < |s.startups| && (t.CloseOf? ==> !s.startups[t.startup].close.Unrequested?)
  }

  ghost predicate ShutdownOk(s: State, k: nat)
    requires k < |s.shutdowns|
  {
    var d := s.shutdowns[k];
    && d.startsBefore <= |s.startups|
    && (forall i :: 0 <= i < d.startsBefore ==> s.startups[i].generation < s.generation)
    && match d.phase
       case AwaitingActiveClose(i) => i < d.startsBefore && !s.startups[i].close.Unrequested?
       case Draining(snapshot) => forall t :: t in snapshot ==> TokenOk(s, t)
       case Returned => true
  }

  ghost predicate Inv(s: State) {
    && (forall i :: 0 <= i < |s.startups| ==> StartupOk(s, i))
    && (forall i, j :: 0 <= i < j < |s.startups| ==> s.startups[i].generation < s.startups[j].generation)
    && (s.active.Some? ==> s.active.value < |s.startups|)
    && (forall t :: t in s.pending ==> TokenOk(s, t))
    && (forall k :: 0 <= k < |s.shutdowns| ==> ShutdownOk(s, k))
  }

  /** Nothing a step does to the other startups, the pending set or the shutdowns disturbs these. */
  ghost predicate Extends(s: State, s': State, changed: nat) {
    && |s.startups| <= |s'.startups|
    && s.generation <= s'.generation
    && s.pending <= s'.pending
    && |s.shutdowns| <= |s'.shutdowns|
    && s'.shutdowns[..|s.shutdowns|] == s.shutdowns
    && (forall j :: 0 <= j < |s.startups| ==>
          && s'.startups[j].generation == s.startups[j].generation
          && (!s.startups[j].close.Unrequested? ==> !s'.startups[j].close.Unrequested?))
    && (forall j :: 0 <= j < |s.startups| && j != changed ==>
          s'.startups[j] == s.startups[j] && (s'.active == Some(j) <==> s.active == Some(j)))
    && (s'.generation == s.generation || s.active.None? || s.active == Some(changed))
  }

  lemma ExtensionKeepsRest(s: State, s': State, changed: nat)
    requires Inv(s) && Extends(s, s', changed)
    ensures forall j :: 0 <= j < |s.startups| && j != changed ==> StartupOk(s', j)
    ensures forall k :: 0 <= k < |s.shutdowns| ==> ShutdownOk(s', k)
    ensures forall j :: CloseTracked(s, j) ==> CloseTracked(s', j)
  {
    forall j | CloseTracked(s, j) ensures CloseTracked(s', j) {
      if CloseOf(j) !in s.pending {
        var k :| 0 <= k < |s.shutdowns| && s.shutdowns[k].phase == AwaitingActiveClose(j);
        assert s'.shutdowns[..|s.shutdowns|][k] == s'.shutdowns[k];
      }
    }
    forall j | 0 <= j < |s.startups| && j != changed ensures StartupOk(s', j) {
      assert StartupOk(s, j);
    }
    forall k | 0 <= k < |s.shutdowns| ensures ShutdownOk(s', k) {
      assert s'.shutdowns[..|s.shutdowns|][k] == s'.shutdowns[k];
      assert ShutdownOk(s, k);
    }
  }

  lemma StartExtends(s: State, manager: Manager, registryThrows: bool)
    requires Inv(s)
    ensures Extends(s, StartStep(s, manager, registryThrows), if s.active.Some? then s.active.value else |s.startups|)
  {
    if s.active.Some? {
      assert StartupOk(s, s.active.value);
    }
  }

  lemma BegunIsOk(s: State, manager: Manager, registryThrows: bool)
    requires Inv(s)
    ensures StartupOk(StartStep(s, manager, registryThrows), |s.startups|)
    ensures s.active.Some? ==> StartupOk(StartStep(s, manager, registryThrows), s.active.value)
  {
    if s.active.Some? {
      assert StartupOk(s, s.active.value);
    }
  }

  lemma StartKeepsInv(s: State, manager: Manager, registryThrows: bool)
    requires Inv(s)
    ensures Inv(StartStep(s, manager, registryThrows))
  {
    var s' := StartStep(s, manager, registryThrows);
    StartExtends(s, manager, registryThrows);
    BegunIsOk(s, manager, registryThrows);
    ExtensionKeepsRest(s, s', if s.active.Some? then s.active.value else |s.startups|);
    forall i | 0 <= i < |s.startups| ensures s'.startups[i].generation < s'.generation {
      assert StartupOk(s, i);
    }
  }

  lemma RegistryExtends(s: State, i: nat, wiring: Wiring)
    requires Inv(s) && Enabled(s, RegistryCreated(i, wiring))
    ensures Extends(s, RegistryStep(s, i, wiring), i)
  {
    assert StartupOk(s, i);
    SameGenerationSameStartup(s, i);
  }

  lemma WiredIsOk(s: State, i: nat, wiring: Wiring)
    requires Inv(s) && Enabled(s, RegistryCreated(i, wiring))
    ensures StartupOk(RegistryStep(s, i, wiring), i)
  {
    assert StartupOk(s, i);
    SameGenerationSameStartup(s, i);
  }

  lemma RegistryKeepsInv(s: State, i: nat, wiring: Wiring)
    requires Inv(s) && Enabled(s, RegistryCreated(i, wiring))
    ensures Inv(RegistryStep(s, i, wiring))
  {
    RegistryExtends(s, i, wiring);
    WiredIsOk(s, i, wiring);
    ExtensionKeepsRest(s, RegistryStep(s, i, wiring), i);
  }

  /** Only the startup that carries the current generation can be, or become, the active one. */
  lemma SameGenerationSameStartup(s: State, i: nat)
    requires Inv(s) && i < |s.startups|
    ensures s.active.Some? ==>
              (s.startups[s.active.value].generation == s.startups[i].generation <==> s.active.value == i)
    ensures s.active.Some? ==> s.startups[s.active.value].generation == s.generation
  {
    if s.active.Some? {
      assert StartupOk(s, s.active.value);
    }
  }

  lemma AbandonKeepsInv(s: State, i: nat)
    requires Inv(s) && i < |s.startups|
    requires s.startups[i].phase.AwaitingRegistry? || s.startups[i].phase.AwaitingListener?
    ensures Inv(Abandon(s, i, s.startups[i]))
  {
    assert StartupOk(s, i);
    SameGenerationSameStartup(s, i);
    ExtensionKeepsRest(s, Abandon(s, i, s.startups[i]), i);
  }

  lemma ListenerKeepsInv(s: State, i: nat)
    requires Inv(s) && Enabled(s, ListenerStarted(i))
    ensures Inv(ListenerStep(s, i))
  {
    assert StartupOk(s, i);
    ExtensionKeepsRest(s, ListenerStep(s, i), i);
  }

  lemma CloseKeepsInv(s: State, i: nat, e: Event)
    requires Inv(s) && Enabled(s, e)
    requires e == RunClose(i) || e == CloseSettles(i) || e == ResumeAfterClose(i)
    ensures Inv(Step(s, e))
  {
    assert StartupOk(s, i);
    ExtensionKeepsRest(s, Step(s, e), i);
  }

  lemma UntrackKeepsInv(s: State, token: Token)
    requires Inv(s) && Enabled(s, Untrack(token))
    ensures Inv(Step(s, Untrack(token)))
  {
    var s' := Step(s, Untrack(token));
    forall i | 0 <= i < |s.startups| ensures StartupOk(s', i) {
      assert StartupOk(s, i);
    }
    forall k | 0 <= k < |s.shutdowns| ensures ShutdownOk(s', k) {
      assert ShutdownOk(s, k);
    }
  }

  lemma BeginShutdownKeepsInv(s: State)
    requires Inv(s)
    ensures Inv(ShutdownStep(s))
  {
    var s' := ShutdownStep(s);
    var k := |s.shutdowns|;
    var changed := if s.active.Some? then s.active.value else |s.startups|;
    if s.active.Some? {
      assert StartupOk(s, changed);
      assert s'.shutdowns[k].phase == AwaitingActiveClose(changed);
    }
    ExtensionKeepsRest(s, s', changed);
    forall i | 0 <= i < |s.startups| ensures s'.startups[i].generation < s'.generation {
      assert StartupOk(s, i);
    }
    assert ShutdownOk(s', k);
  }

  lemma DrainKeepsInv(s: State, k: nat, e: Event)
    requires Inv(s) && Enabled(s, e) && (e == ShutdownClosed(k) || e == ShutdownDrained(k))
    ensures Inv(DrainStep(s, k))
  {
    var s' := DrainStep(s, k);
    forall i | 0 <= i < |s.startups| ensures StartupOk(s', i) {
      assert StartupOk(s, i);
      if CloseTracked(s, i) && CloseOf(i) !in s.pending && !s.startups[i].close.Closed? {
        var w :| 0 <= w < |s.shutdowns| && s.shutdowns[w].phase == AwaitingActiveClose(i);
        assert s'.shutdowns[w] == s.shutdowns[w];
      }
    }
    forall j | 0 <= j < |s.shutdowns| ensures ShutdownOk(s', j) {
      assert ShutdownOk(s, j);
    }
  }

  lemma StepKeepsInv(s: State, e: Event)
    requires Inv(s)
    ensures Inv(Step(s, e))
  {
    if !Enabled(s, e) { return; }
    match e
    case SetSessions(_, _) => ExtensionKeepsRest(s, Step(s, e), |s.startups|);
    case Start(manager, registryThrows) => StartKeepsInv(s, manager, registryThrows);
    case RegistryCreated(i, wiring) => RegistryKeepsInv(s, i, wiring);
    case RegistryFailed(i) => AbandonKeepsInv(s, i);
    case ListenerStarted(i) => ListenerKeepsInv(s, i);
    case ListenerFailed(i) => AbandonKeepsInv(s, i);
    case RunClose(i) => CloseKeepsInv(s, i, e);
    case CloseSettles(i) => CloseKeepsInv(s, i, e);
    case ResumeAfterClose(i) => CloseKeepsInv(s, i, e);
    case Untrack(token) => UntrackKeepsInv(s, token);
    case BeginShutdown => BeginShutdownKeepsInv(s);
    case ShutdownClosed(k) => DrainKeepsInv(s, k, e);
    case ShutdownDrained(k) => DrainKeepsInv(s, k, e);
  }

  lemma {:induction false} RunKeepsInv(events: seq<Event>)
    ensures Inv(Run(events))
  {
    if events != [] {
      RunKeepsInv(events[..|events| - 1]);
      StepKeepsInv(Run(events[..|events| - 1]), events[|events| - 1]);
    }
  }

  // ----- Single ownership -----

  /** The guard of the listener's callback: may startup `i` deliver a notification now? */
  predicate AcceptsNotification(s: State, i: nat)
    requires i < |s.startups|
  {
    var t := s.startups[i];
    && s.active.Some? && s.active.value < |s.startups|
    && s.startups[s.active.value].generation == t.generation
    && s.startups[s.active.value].manager == t.manager
    && s.startups[s.active.value].sessionId == t.sessionId
    && s.sessions == Some(t.manager)
    && s.ActiveSessionId() == Some(t.sessionId)
  }

  /** The transport the messaging tools may use for a session manager. */
  function ActiveTransportFor(s: State, manager: Manager): Option<nat> {
    if && s.active.Some? && s.active.value < |s.startups|
       && s.startups[s.active.value].generation == s.generation
       && s.startups[s.active.value].manager == manager
       && s.startups[s.active.value].sessionId == s.SessionIdOf(manager)
       && s.sessions == Some(manager)
    then s.active else None
  }

  /** In every run the active transport carries the current generation, is complete and was never closed. */
  lemma ActiveTransportIsCurrent(events: seq<Event>)
    ensures var s := Run(events);
            s.active.Some? ==>
              && s.active.value < |s.startups|
              && s.startups[s.active.value].generation == s.generation
              && s.startups[s.active.value].Complete()
              && s.startups[s.active.value].NeverClosed()
              && forall j :: 0 <= j < |s.startups| && j != s.active.value ==>
                  s.startups[j].generation < s.generation
  {
    RunKeepsInv(events);
    var s := Run(events);
    if s.active.Some? {
      assert StartupOk(s, s.active.value);
      forall j | 0 <= j < |s.startups| && j != s.active.value
        ensures s.startups[j].generation < s.generation
      {
        assert StartupOk(s, j);
      }
    }
  }

  /** At most one startup can deliver, it is the active one, and the tools send through the same one. */
  lemma OnlyTheOwnerSpeaks(events: seq<Event>, i: nat, manager: Manager)
    requires i < |Run(events).startups|
    ensures AcceptsNotification(Run(events), i) ==>
              Run(events).active == Some(i) && Run(events).startups[i].NeverClosed()
    ensures AcceptsNotification(Run(events), i) && ActiveTransportFor(Run(events), manager).Some? ==>
              ActiveTransportFor(Run(events), manager) == Some(i) && manager == Run(events).startups[i].manager
  {
    RunKeepsInv(events);
    SameGenerationSameStartup(Run(events), i);
    assert StartupOk(Run(events), i);
  }

  /** In every run the tools get a transport exactly when it is the active one and was started for the open session they ask for. */
  lemma ToolsGetActiveTransportIff(events: seq<Event>, manager: Manager, a: nat)
    ensures var s := Run(events);
      ActiveTransportFor(s, manager) == Some(a) <==>
        && s.active == Some(a) && a < |s.startups| && s.sessions == Some(manager)
        && s.startups[a].manager == manager && s.startups[a].sessionId == s.SessionIdOf(manager)
  {
    ActiveTransportIsCurrent(events);
  }

  /** In every run a startup delivers exactly when it is the active one and the session it was started for is open. */
  lemma DeliversIff(events: seq<Event>, i: nat)
    requires i < |Run(events).startups|
    ensures var s := Run(events); var t := s.startups[i];
      AcceptsNotification(s, i) <==>
        s.active == Some(i) && s.sessions == Some(t.manager) && s.SessionIdOf(t.manager) == t.sessionId
  {
    OnlyTheOwnerSpeaks(events, i, 0);
  }

  /** In every run a created registry leads to publication exactly when nothing throws and its session is still the open one. */
  lemma RegistryPublishesIff(events: seq<Event>, i: nat, wiring: Wiring)
    requires Enabled(Run(events), RegistryCreated(i, wiring))
    ensures var s := Run(events); var t := s.startups[i];
      Step(s, RegistryCreated(i, wiring)).active == Some(i) <==>
        && wiring.Starting? && t.generation == s.generation
        && s.sessions == Some(t.manager) && s.SessionIdOf(t.manager) == t.sessionId
  {
    RunKeepsInv(events);
    assert StartupOk(Run(events), i);
  }

  /** In every run a started listener leaves its transport active exactly when it was and its session is still the open one. */
  lemma ListenerKeepsActiveIff(events: seq<Event>, i: nat)
    requires Enabled(Run(events), ListenerStarted(i))
    ensures var s := Run(events); var t := s.startups[i];
      Step(s, ListenerStarted(i)).active == Some(i) <==>
        s.active == Some(i) && s.sessions == Some(t.manager) && s.SessionIdOf(t.manager) == t.sessionId
  {
    RunKeepsInv(events);
    assert StartupOk(Run(events), i);
  }

  /** A session without a usable id never gets as far as a registry. */
  predicate IdOk(t: Startup) {
    ValidSessionId(t.sessionId) || (t.Bare() && !t.phase.AwaitingRegistry?)
  }

  /** In every run only sessions with a valid id wait for or hold transport resources. */
  lemma {:induction false} OnlyValidSessionsGetTransport(events: seq<Event>)
    ensures forall i :: 0 <= i < |Run(events).startups| ==> IdOk(Run(events).startups[i])
  {
    if events != [] {
      var s, e := Run(events[..|events| - 1]), events[|events| - 1];
      OnlyValidSessionsGetTransport(events[..|events| - 1]);
      forall i | 0 <= i < |Step(s, e).startups| ensures IdOk(Step(s, e).startups[i]) {
        StepKeepsId(s, e, i);
      }
    }
  }

  lemma StepKeepsId(s: State, e: Event, i: nat)
    requires i < |Step(s, e).startups|
    requires i < |s.startups| ==> IdOk(s.startups[i])
    ensures IdOk(Step(s, e).startups[i])
  {
    if Enabled(s, e) {
      match e
      case Start(manager, registryThrows) => StartKeepsId(s, manager, registryThrows, i);
      case RegistryCreated(j, wiring) => RegistryKeepsId(s, j, wiring, i);
      case RegistryFailed(j) => AbandonKeepsId(s, j, i);
      case ListenerStarted(j) => ListenerKeepsId(s, j, i);
      case ListenerFailed(j) => AbandonKeepsId(s, j, i);
      case RunClose(j) => PutKeepsId(s, j, s.startups[j].IssueClose(), i);
      case CloseSettles(j) => PutKeepsId(s, j, s.startups[j].(close := Closed), i);
      case ResumeAfterClose(j) => PutKeepsId(s, j, s.startups[j].(phase := Settled), i);
      case _ =>
    }
  }

  lemma PutKeepsId(s: State, j: nat, t: Startup, i: nat)
    requires j < |s.startups| && i < |s.startups| && IdOk(s.startups[i]) && (i == j ==> IdOk(t))
    ensures IdOk(Put(s, j, t).startups[i])
  {
  }

  lemma AbandonKeepsId(s: State, j: nat, i: nat)
    requires j < |s.startups| && i < |s.startups| && IdOk(s.startups[i])
    ensures IdOk(Abandon(s, j, s.startups[j]).startups[i])
  {
  }

  lemma ListenerKeepsId(s: State, j: nat, i: nat)
    requires j < |s.startups| && i < |s.startups| && IdOk(s.startups[i])
    ensures IdOk(ListenerStep(s, j).startups[i])
  {
  }

  lemma StartKeepsId(s: State, manager: Manager, registryThrows: bool, i: nat)
    requires i <= |s.startups| && (i < |s.startups| ==> IdOk(s.startups[i]))
    ensures IdOk(StartStep(s, manager, registryThrows).startups[i])
  {
    assert IdOk(Begun(s, manager, registryThrows));
  }

  lemma RegistryKeepsId(s: State, j: nat, wiring: Wiring, i: nat)
    requires Enabled(s, RegistryCreated(j, wiring)) && i < |s.startups| && IdOk(s.startups[i])
    ensures IdOk(Step(s, RegistryCreated(j, wiring)).startups[i])
  {
    if i == j { RegistryOwnerId(s, j, wiring); } else { RegistryOtherIds(s, j, wiring, i); }
  }

  lemma RegistryOwnerId(s: State, j: nat, wiring: Wiring)
    requires j < |s.startups| && ValidSessionId(s.startups[j].sessionId)
    ensures RegistryStep(s, j, wiring).startups[j].sessionId == s.startups[j].sessionId
  {
    var t := s.startups[j].(registry := true);
    if s.Superseded(t.manager, t.generation) || wiring.ListenerThrows? || wiring.ClientThrows? {
    } else if wiring.StartThrows? && s.ActiveSessionId() == Some(t.sessionId) {
    }
  }

  lemma RegistryOtherIds(s: State, j: nat, wiring: Wiring, i: nat)
    requires j < |s.startups| && i < |s.startups| && i != j
    ensures RegistryStep(s, j, wiring).startups[i] == s.startups[i]
  {
  }

  // ----- A startup that is left alone -----

  /**
   A start for the open session whose factories work takes over: it becomes the active transport, delivers and
   sends, and the one before it is asked to close, with somebody waiting for that.
   */
  lemma UndisturbedStartTakesOver(events: seq<Event>, manager: Manager, ownsRegistry: bool)
    requires Run(events).sessions == Some(manager) && ValidSessionId(Run(events).SessionIdOf(manager))
    ensures var s := Run(events); var i := |s.startups|;
            var started := Step(s, Start(manager, false));
            var s' := Step(started, RegistryCreated(i, Starting(ownsRegistry)));
      && Enabled(started, RegistryCreated(i, Starting(ownsRegistry)))
      && s'.active == Some(i) && AcceptsNotification(s', i) && ActiveTransportFor(s', manager) == Some(i)
      && (s.active.Some? ==> s.active.value < i && s'.startups[s.active.value].close.Requested? && CloseOf(s.active.value) in s'.pending)
  {
    RunKeepsInv(events);
    var s := Run(events);
    if s.active.Some? { assert StartupOk(s, s.active.value); }
  }

  /** An active transport is only ended by a new start, a shutdown, its own listener's failure, or a lost session. */
  lemma ActiveTransportStays(events: seq<Event>, e: Event)
    requires Run(events).active.Some? && Enabled(Run(events), e) && Step(Run(events), e).active != Run(events).active
    ensures var s := Run(events); var a := s.active.value;
      || e.Start? || e.BeginShutdown? || e == ListenerFailed(a)
      || (e == ListenerStarted(a) && a < |s.startups|
          && (s.sessions != Some(s.startups[a].manager) || s.ActiveSessionId() != Some(s.startups[a].sessionId)))
  {
    RunKeepsInv(events);
    StaysUnlessEnded(Run(events), e);
  }

  lemma StaysUnlessEnded(s: State, e: Event)
    requires Inv(s) && s.active.Some? && Enabled(s, e) && Step(s, e).active != s.active
    ensures var a := s.active.value;
      || e.Start? || e.BeginShutdown? || e == ListenerFailed(a)
      || (e == ListenerStarted(a)
          && (s.sessions != Some(s.startups[a].manager) || s.ActiveSessionId() != Some(s.startups[a].sessionId)))
  {
    var a := s.active.value;
    assert StartupOk(s, a);
    match e
    case RegistryCreated(i, _) => SameGenerationSameStartup(s, i);
    case RegistryFailed(i) => SameGenerationSameStartup(s, i);
    case ListenerStarted(i) => SameGenerationSameStartup(s, i);
    case ListenerFailed(i) => SameGenerationSameStartup(s, i);
    case _ =>
  }

  // ----- No leak -----

  /**
   In every run: the active transport is untouched; every other resource that was ever created has been
   closed exactly once, or its close is queued, has not run yet, and somebody waits for it.
   */
  lemma ClosedExactlyOnce(events: seq<Event>, i: nat)
    requires i < |Run(events).startups|
    ensures var s := Run(events); var t := s.startups[i];
            && (s.active == Some(i) ==> t.Complete() && t.NeverClosed())
            && (s.active != Some(i) ==> t.ClosedOnce() || (t.close.Requested? && t.NeverClosed()))
            && (t.close.Requested? || t.close.Issued? ==> CloseTracked(s, i) || Operation(i) in s.pending)
  {
    RunKeepsInv(events);
    assert StartupOk(Run(events), i);
  }

  // ----- Shutdown -----

  predicate StillOpen(t: Startup) {
    t.close.Requested? || t.close.Issued? || (t.close.Unrequested? && !t.Bare())
  }

  predicate EverythingClosed(s: State) {
    forall i :: 0 <= i < |s.startups| ==> s.startups[i].phase.Settled? && !StillOpen(s.startups[i])
  }

  /** Every shutdown that still waits for the transport it took over finds it closed. */
  predicate OtherShutdownsDone(s: State) {
    forall k :: 0 <= k < |s.shutdowns| && s.shutdowns[k].phase.AwaitingActiveClose? ==>
      var a := s.shutdowns[k].phase.startup;
      a < |s.startups| ==> s.startups[a].close.Closed?
  }

  /** The step in which shutdown `k` returns. */
  predicate Returns(s: State, e: Event, k: nat) {
    && k < |Step(s, e).shutdowns| && Step(s, e).shutdowns[k].phase.Returned?
    && (k < |s.shutdowns| ==> !s.shutdowns[k].phase.Returned?)
  }

  /**
   When a shutdown returns and no startup began since, nothing is active or pending, every startup has
   settled, and every resource is closed if and only if no overlapping shutdown is still closing one.
   */
  lemma ShutdownLeavesNothing(events: seq<Event>, e: Event, k: nat)
    requires Returns(Run(events), e, k)
    requires Step(Run(events), e).shutdowns[k].startsBefore == |Step(Run(events), e).startups|
    ensures var s := Step(Run(events), e);
            && s.active.None? && s.pending == {}
            && (forall i :: 0 <= i < |s.startups| ==> s.startups[i].phase.Settled?)
            && (EverythingClosed(s) <==> OtherShutdownsDone(s))
  {
    RunKeepsInv(events);
    StepKeepsInv(Run(events), e);
    ReturningFindsNothingPending(Run(events), e, k);
    DrainedStateIsClosed(Step(Run(events), e), k);
  }

  /** What a caller can rely on: a shutdown that returns after all others, with no start since, leaves nothing open. */
  lemma LastShutdownClosesEverything(events: seq<Event>, e: Event, k: nat)
    requires Returns(Run(events), e, k)
    requires Step(Run(events), e).shutdowns[k].startsBefore == |Step(Run(events), e).startups|
    requires forall j :: 0 <= j < |Run(events).shutdowns| && j != k ==> Run(events).shutdowns[j].phase.Returned?
    ensures EverythingClosed(Step(Run(events), e))
  {
    ShutdownLeavesNothing(events, e, k);
    OthersStayReturned(Run(events), e, k);
  }

  lemma OthersStayReturned(s: State, e: Event, k: nat)
    requires Returns(s, e, k)
    requires forall j :: 0 <= j < |s.shutdowns| && j != k ==> s.shutdowns[j].phase.Returned?
    ensures OtherShutdownsDone(Step(s, e))
  {
  }

  lemma ReturningFindsNothingPending(s: State, e: Event, k: nat)
    requires Returns(s, e, k)
    ensures Step(s, e).pending == {}
  {
  }

  lemma DrainedStateIsClosed(s: State, k: nat)
    requires Inv(s) && s.pending == {} && k < |s.shutdowns| && s.shutdowns[k].startsBefore == |s.startups|
    ensures s.active.None? && (forall i :: 0 <= i < |s.startups| ==> s.startups[i].phase.Settled?)
    ensures EverythingClosed(s) <==> OtherShutdownsDone(s)
  {
    assert ShutdownOk(s, k);
    forall i | 0 <= i < |s.startups|
      ensures s.active != Some(i) && s.startups[i].phase.Settled?
      ensures OtherShutdownsDone(s) ==> !StillOpen(s.startups[i])
    {
      assert StartupOk(s, i);
    }
    if EverythingClosed(s) {
      forall j | 0 <= j < |s.shutdowns| && s.shutdowns[j].phase.AwaitingActiveClose?
        ensures var a := s.shutdowns[j].phase.startup; a < |s.startups| ==> s.startups[a].close.Closed?
      {
        assert ShutdownOk(s, j);
      }
    }
  }

  /** A second shutdown that overlaps the first can return while the first is still closing the transport. */
  lemma OverlappingShutdownReturnsEarly()
    ensures var events := [
              SetSessions(Some(0), map[0 := "a"]), Start(0, false), RegistryCreated(0, Starting(false)),
              ListenerStarted(0), Untrack(Operation(0)), BeginShutdown];
            var s := Run(events + [BeginShutdown]);
            && Returns(Run(events), BeginShutdown, 1)
            && s.shutdowns[1].startsBefore == |s.startups|
            && !EverythingClosed(s)
  {
    var e0 := SetSessions(Some(0), map[0 := "a"]);
    var e1 := Start(0, false);
    var e2 := RegistryCreated(0, Starting(false));
    var e3 := ListenerStarted(0);
    var e4 := Untrack(Operation(0));
    var published := PublishedState();
    RunFive(e0, e1, e2, e3, e4);
    RunSnoc([e0, e1, e2, e3, e4], BeginShutdown);
    RunSnoc([e0, e1, e2, e3, e4, BeginShutdown], BeginShutdown);
    assert [e0, e1, e2, e3, e4, BeginShutdown] == [e0, e1, e2, e3, e4] + [BeginShutdown];
    ShutdownWhileClosing(published);
  }

  lemma RunThree(a: Event, b: Event, c: Event)
    ensures Run([a, b, c]) == Step(Step(Step(InitialState, a), b), c)
  {
    RunSnoc([], a);
    RunSnoc([a], b);
    RunSnoc([a, b], c);
    assert [] + [a] == [a] && [a] + [b] == [a, b] && [a, b] + [c] == [a, b, c];
  }

  lemma RunFive(a: Event, b: Event, c: Event, d: Event, e: Event)
    ensures Run([a, b, c, d, e]) == Step(Step(Step(Step(Step(InitialState, a), b), c), d), e)
  {
    RunThree(a, b, c);
    RunSnoc([a, b, c], d);
    RunSnoc([a, b, c, d], e);
    assert [a, b, c] + [d] == [a, b, c, d] && [a, b, c, d] + [e] == [a, b, c, d, e];
  }

  /** A transport whose startup has published it and still waits for its listener. */
  lemma PublishedState() returns (s: State)
    ensures s == Step(Step(Step(InitialState, SetSessions(Some(0), map[0 := "a"])), Start(0, false)),
                      RegistryCreated(0, Starting(false)))
    ensures |s.startups| == 1 && s.startups[0].phase.AwaitingListener? && s.startups[0].close.Unrequested?
    ensures s.active == Some(0) && s.sessions == Some(0) && s.startups[0].manager == 0
    ensures s.startups[0].generation == s.generation && s.ActiveSessionId() == Some(s.startups[0].sessionId)
    ensures s.pending == {Operation(0)} && s.shutdowns == []
  {
    var s0 := Step(InitialState, SetSessions(Some(0), map[0 := "a"]));
    assert ValidSessionId("a");
    var s1 := Step(s0, Start(0, false));
    assert s1.startups[0].phase.AwaitingRegistry? && s1.pending == {Operation(0)};
    s := Step(s1, RegistryCreated(0, Starting(false)));
  }

  lemma ShutdownWhileClosing(s: State)
    requires |s.startups| == 1 && s.startups[0].phase.AwaitingListener? && s.startups[0].close.Unrequested?
    requires s.active == Some(0) && s.sessions == Some(s.startups[0].manager)
    requires s.startups[0].generation == s.generation && s.ActiveSessionId() == Some(s.startups[0].sessionId)
    requires s.pending == {Operation(0)} && s.shutdowns == []
    ensures var first := Step(Step(Step(s, ListenerStarted(0)), Untrack(Operation(0))), BeginShutdown);
            var second := Step(first, BeginShutdown);
            && Returns(first, BeginShutdown, 1)
            && second.shutdowns[1].startsBefore == |second.startups|
            && !EverythingClosed(second)
  {
    var s3 := Step(s, ListenerStarted(0));
    assert s3.active == Some(0) && s3.startups[0].phase.Settled?;
    var s4 := Step(s3, Untrack(Operation(0)));
    assert s4.pending == {};
    var s5 := Step(s4, BeginShutdown);
    assert s5.startups[0].close.Requested? && s5.active.None?;
    var s6 := Step(s5, BeginShutdown);
    assert StillOpen(s6.startups[0]);
  }

  lemma RunSnoc(events: seq<Event>, e: Event)
    ensures Run(events + [e]) == Step(Run(events), e)
  {
    assert (events + [e])[..|events|] == events;
  }

  // ----- Every shutdown gets done -----

  /** Steps that only finish work already begun: promises settling and their continuations. */
  predicate Internal(e: Event) {
    !e.SetSessions? && !e.Start? && !e.BeginShutdown?
  }

  function StartupWork(t: Startup): nat {
    (match t.phase case AwaitingRegistry => 3 case AwaitingListener => 2 case AwaitingClose => 1 case Settled => 0)
    + (match t.close case Unrequested => 3 case Requested => 2 case Issued => 1 case Closed => 0)
  }

  function StartupsWork(ts: seq<Startup>): nat {
    if ts == [] then 0 else StartupWork(ts[0]) + StartupsWork(ts[1..])
  }

  function ShutdownWork(d: Shutdown, pending: set<Token>): nat {
    match d.phase
    case AwaitingActiveClose(_) => 3
    case Draining(snapshot) => if pending <= snapshot then 1 else 2
    case Returned => 0
  }

  function ShutdownsWork(ds: seq<Shutdown>, pending: set<Token>): nat {
    if ds == [] then 0 else ShutdownWork(ds[0], pending) + ShutdownsWork(ds[1..], pending)
  }

  function Work(s: State): nat {
    StartupsWork(s.startups) + |s.pending| + ShutdownsWork(s.shutdowns, s.pending)
  }

  lemma {:induction false} StartupsWorkUpdate(ts: seq<Startup>, i: nat, t: Startup)
    requires i < |ts|
    ensures StartupsWork(ts[i := t]) + StartupWork(ts[i]) == StartupsWork(ts) + StartupWork(t)
  {
    if i == 0 {
      assert ts[0 := t][1..] == ts[1..];
    } else {
      StartupsWorkUpdate(ts[1..], i - 1, t);
      assert ts[i := t][1..] == ts[1..][i - 1 := t];
    }
  }

  lemma {:induction false} ShutdownsWorkUpdate(ds: seq<Shutdown>, k: nat, d: Shutdown, pending: set<Token>)
    requires k < |ds|
    ensures ShutdownsWork(ds[k := d], pending) + ShutdownWork(ds[k], pending)
         == ShutdownsWork(ds, pending) + ShutdownWork(d, pending)
  {
    if k == 0 {
      assert ds[0 := d][1..] == ds[1..];
    } else {
      ShutdownsWorkUpdate(ds[1..], k - 1, d, pending);
      assert ds[k := d][1..] == ds[1..][k - 1 := d];
    }
  }

  lemma {:induction false} FewerPendingLessWork(ds: seq<Shutdown>, fewer: set<Token>, more: set<Token>)
    requires fewer <= more
    ensures ShutdownsWork(ds, fewer) <= ShutdownsWork(ds, more)
  {
    if ds != [] {
      FewerPendingLessWork(ds[1..], fewer, more);
    }
  }

  lemma OneStartupAdvances(s: State, s': State, i: nat)
    requires i < |s.startups| && |s'.startups| == |s.startups|
    requires s'.startups == s.startups[i := s'.startups[i]]
    requires s'.pending == s.pending && s'.shutdowns == s.shutdowns
    requires StartupWork(s'.startups[i]) < StartupWork(s.startups[i])
    ensures Work(s') < Work(s)
  {
    StartupsWorkUpdate(s.startups, i, s'.startups[i]);
  }

  lemma RegistryAdvances(s: State, i: nat, wiring: Wiring)
    requires Enabled(s, RegistryCreated(i, wiring))
    ensures Work(RegistryStep(s, i, wiring)) < Work(s)
  {
    OneStartupAdvances(s, RegistryStep(s, i, wiring), i);
  }

  lemma AbandonAdvances(s: State, i: nat)
    requires i < |s.startups| && (s.startups[i].phase.AwaitingRegistry? || s.startups[i].phase.AwaitingListener?)
    ensures Work(Abandon(s, i, s.startups[i])) < Work(s)
  {
    OneStartupAdvances(s, Abandon(s, i, s.startups[i]), i);
  }

  lemma ListenerAdvances(s: State, i: nat)
    requires Enabled(s, ListenerStarted(i))
    ensures Work(ListenerStep(s, i)) < Work(s)
  {
    OneStartupAdvances(s, ListenerStep(s, i), i);
  }

  lemma ShutdownAdvances(s: State, k: nat, e: Event)
    requires Enabled(s, e) && (e == ShutdownClosed(k) || e == ShutdownDrained(k))
    ensures Work(DrainStep(s, k)) < Work(s)
  {
    ShutdownsWorkUpdate(s.shutdowns, k, DrainStep(s, k).shutdowns[k], s.pending);
    if e.ShutdownDrained? && s.pending <= s.shutdowns[k].phase.snapshot {
      assert s.pending == {};
    }
  }

  lemma UntrackAdvances(s: State, token: Token)
    requires Enabled(s, Untrack(token))
    ensures Work(Step(s, Untrack(token))) < Work(s)
  {
    FewerPendingLessWork(s.shutdowns, s.pending - {token}, s.pending);
  }

  /** Every enabled internal step brings the protocol strictly closer to rest. */
  lemma InternalStepsFinishWork(s: State, e: Event)
    requires Internal(e) && Enabled(s, e)
    ensures Work(Step(s, e)) < Work(s)
  {
    var s' := Step(s, e);
    match e
    case RegistryCreated(i, wiring) => RegistryAdvances(s, i, wiring);
    case RegistryFailed(i) => AbandonAdvances(s, i);
    case ListenerStarted(i) => ListenerAdvances(s, i);
    case ListenerFailed(i) => AbandonAdvances(s, i);
    case RunClose(i) => OneStartupAdvances(s, s', i);
    case CloseSettles(i) => OneStartupAdvances(s, s', i);
    case ResumeAfterClose(i) => OneStartupAdvances(s, s', i);
    case Untrack(token) => UntrackAdvances(s, token);
    case ShutdownClosed(k) => ShutdownAdvances(s, k, e);
    case ShutdownDrained(k) => ShutdownAdvances(s, k, e);
  }

  /** All events of the run are internal and enabled when they happen. */
  predicate InternalRun(s: State, events: seq<Event>)
    decreases events
  {
    events == [] || (Internal(events[0]) && Enabled(s, events[0]) && InternalRun(Step(s, events[0]), events[1..]))
  }

  /** Once the outside stops starting and stopping sessions, only `Work` many steps are left. */
  lemma {:induction false} InternalRunsEnd(s: State, events: seq<Event>)
    requires Inv(s) && InternalRun(s, events)
    ensures |events| <= Work(s)
    decreases events
  {
    if events != [] {
      StepKeepsInv(s, events[0]);
      InternalStepsFinishWork(s, events[0]);
      InternalRunsEnd(Step(s, events[0]), events[1..]);
    }
  }

  /** No deadlock: where no internal step is enabled, every startup settled and every shutdown returned. */
  lemma QuietMeansDone(s: State)
    requires Inv(s)
    requires forall e :: Internal(e) ==> !Enabled(s, e)
    ensures s.pending == {}
    ensures forall i :: 0 <= i < |s.startups| ==>
      s.startups[i].phase.Settled? && (s.active != Some(i) ==> s.startups[i].ClosedOnce())
    ensures forall k :: 0 <= k < |s.shutdowns| ==> s.shutdowns[k].phase.Returned?
  {
    forall i | 0 <= i < |s.startups|
      ensures s.startups[i].phase.Settled? && (s.startups[i].close.Unrequested? || s.startups[i].close.Closed?)
      ensures s.active != Some(i) ==> s.startups[i].ClosedOnce()
    {
      assert StartupOk(s, i);
      assert !Enabled(s, RegistryFailed(i)) && !Enabled(s, ListenerFailed(i));
      assert !Enabled(s, RunClose(i)) && !Enabled(s, CloseSettles(i)) && !Enabled(s, ResumeAfterClose(i));
    }
    forall t ensures t !in s.pending {
      assert !Enabled(s, Untrack(t));
    }
    forall k | 0 <= k < |s.shutdowns| ensures s.shutdowns[k].phase.Returned? {
      assert ShutdownOk(s, k);
      assert !Enabled(s, ShutdownClosed(k)) && !Enabled(s, ShutdownDrained(k));
    }
  }

  // ----- The extension's variables -----

  /** The mutable variables of the extension and its operations, one method per synchronous stretch of code. */
  class TransportHost {
    var transportGeneration: nat
    var activeSessionTransport: Option<nat>
    var pendingTransportStartups: set<Token>
    var sessions: Option<Manager>
    var ids: map<Manager, string>
    var startups: seq<Startup>
    var shutdowns: seq<Shutdown>

    function View(): State
      reads this
    {
      State(transportGeneration, activeSessionTransport, sessions, ids, startups, pendingTransportStartups, shutdowns)
    }

    constructor ()
      ensures View() == InitialState
    {
      transportGeneration, activeSessionTransport, pendingTransportStartups := 0, None, {};
      sessions, ids := None, map[];
      startups, shutdowns := [], [];
    }

    /** `session_start` and `session_shutdown` set which session manager is open. */
    method OpenSession(sessions: Option<Manager>, ids: map<Manager, string>)
      modifies this
      ensures View() == Step(old(View()), SetSessions(sessions, ids))
    {
      this.sessions := sessions;
      this.ids := ids;
    }

    /** `transport.close()`: the first call queues the close, later calls share its promise. */
    method CloseSessionTransport(i: nat)
      requires i < |startups|
      modifies this`startups
      ensures startups == old(startups)[i := old(startups)[i].RequestClose()]
    {
      if startups[i].close.Unrequested? {
        startups := startups[i := startups[i].(close := Requested)];
      }
    }

    method TrackTransportOperation(token: Token)
      modifies this`pendingTransportStartups
      ensures pendingTransportStartups == old(pendingTransportStartups) + {token}
    {
      pendingTransportStartups := pendingTransportStartups + {token};
    }

    method StartSessionTransport(manager: Manager, registryThrows: bool)
      requires Inv(View())
      modifies this
      ensures View() == Step(old(View()), Start(manager, registryThrows))
      ensures Inv(View())
    {
      StepKeepsInv(View(), Start(manager, registryThrows));
      var previous := activeSessionTransport;
      transportGeneration := transportGeneration + 1;
      activeSessionTransport := None;
      if previous.Some? {
        CloseSessionTransport(previous.value);
        TrackTransportOperation(CloseOf(previous.value));
      }
      var sessionId := if manager in ids then ids[manager] else "";
      var phase, close := AwaitingRegistry, Unrequested;
      if !ValidSessionId(sessionId) || sessions != Some(manager) {
        phase := Settled;
      } else if registryThrows {
        phase, close := AwaitingClose, Requested;
      }
      startups := startups + [Startup(transportGeneration, manager, sessionId, phase,
                                      false, false, false, false, close, 0, 0, 0)];
      TrackTransportOperation(Operation(|startups| - 1));
    }

    /** The `catch` block: forget the transport if it is ours, then close what exists. */
    method CatchStartupFailure(i: nat, t: Startup)
      requires i < |startups|
      requires activeSessionTransport.Some? ==> activeSessionTransport.value < |startups|
      modifies this
      ensures View() == Abandon(old(View()), i, t)
    {
      if activeSessionTransport.Some? && startups[activeSessionTransport.value].generation == t.generation {
        activeSessionTransport := None;
      }
      StopStaleStartup(i, t);
    }

    method StopStaleStartup(i: nat, t: Startup)
      requires i < |startups|
      modifies this`startups
      ensures startups == old(startups)[i := t.RequestClose().(phase := AwaitingClose)]
    {
      startups := startups[i := t];
      CloseSessionTransport(i);
      startups := startups[i := startups[i].(phase := AwaitingClose)];
    }

    method OnRegistryCreated(i: nat, wiring: Wiring)
      requires Inv(View()) && Enabled(View(), RegistryCreated(i, wiring))
      modifies this
      ensures View() == Step(old(View()), RegistryCreated(i, wiring))
      ensures Inv(View())
    {
      StepKeepsInv(View(), RegistryCreated(i, wiring));
      var t := startups[i].(registry := true);
      if sessions != Some(t.manager) || t.generation != transportGeneration {
        StopStaleStartup(i, t);
        return;
      }
      if wiring.ListenerThrows? {
        CatchStartupFailure(i, t);
        return;
      }
      t := t.(listener := true, closesRegistry := wiring.ownsRegistry);
      if wiring.ClientThrows? {
        CatchStartupFailure(i, t);
        return;
      }
      t := t.(client := true);
      if View().ActiveSessionId() != Some(t.sessionId) {
        StopStaleStartup(i, t);
        return;
      }
      startups := startups[i := t.(phase := AwaitingListener)];
      activeSessionTransport := Some(i);
      if wiring.StartThrows? {
        CatchStartupFailure(i, t);
      }
    }

    method OnListenerStarted(i: nat)
      requires Inv(View()) && Enabled(View(), ListenerStarted(i))
      modifies this
      ensures View() == Step(old(View()), ListenerStarted(i))
      ensures Inv(View())
    {
      StepKeepsInv(View(), ListenerStarted(i));
      if || sessions != Some(startups[i].manager) || startups[i].generation != transportGeneration
         || View().ActiveSessionId() != Some(startups[i].sessionId) {
        if activeSessionTransport == Some(i) {
          activeSessionTransport := None;
        }
        StopStaleStartup(i, startups[i]);
      } else {
        startups := startups[i := startups[i].(phase := Settled)];
      }
    }

    /** `createRegistry` or `listener.start` rejected. */
    method OnStartupRejected(i: nat, e: Event)
      requires e == RegistryFailed(i) || e == ListenerFailed(i)
      requires Inv(View()) && Enabled(View(), e)
      modifies this
      ensures View() == Step(old(View()), e)
      ensures Inv(View())
    {
      StepKeepsInv(View(), e);
      CatchStartupFailure(i, startups[i]);
    }

    /** The queued body of the close promise: each existing resource is closed by one call. */
    method RunCloseMicrotask(i: nat)
      requires Inv(View()) && Enabled(View(), RunClose(i))
      modifies this
      ensures View() == Step(old(View()), RunClose(i))
      ensures startups[i].ClosedOnce()
      ensures Inv(View())
    {
      StepKeepsInv(View(), RunClose(i));
      assert StartupOk(Step(View(), RunClose(i)), i);
      var t := startups[i].(close := Issued);
      if t.client { t := t.(clientCloses := t.clientCloses + 1); }
      if t.listener { t := t.(listenerCloses := t.listenerCloses + 1); }
      if t.registry && (!t.listener || !t.closesRegistry) { t := t.(registryCloses := t.registryCloses + 1); }
      startups := startups[i := t];
    }

    method UntrackSettled(token: Token)
      requires Inv(View()) && Enabled(View(), Untrack(token))
      modifies this
      ensures View() == Step(old(View()), Untrack(token))
      ensures Inv(View())
    {
      StepKeepsInv(View(), Untrack(token));
      pendingTransportStartups := pendingTransportStartups - {token};
    }

    method ShutdownSessionTransport()
      requires Inv(View())
      modifies this
      ensures View() == Step(old(View()), BeginShutdown)
      ensures Inv(View())
    {
      StepKeepsInv(View(), BeginShutdown);
      var active := activeSessionTransport;
      activeSessionTransport := None;
      transportGeneration := transportGeneration + 1;
      if active.Some? {
        CloseSessionTransport(active.value);
        shutdowns := shutdowns + [Shutdown(AwaitingActiveClose(active.value), |startups|)];
      } else {
        shutdowns := shutdowns + [Shutdown(NextDrain(pendingTransportStartups), |startups|)];
      }
    }

    /** The `while` loop of a shutdown, each time one of its awaits resumes. */
    method ContinueShutdown(k: nat, e: Event)
      requires e == ShutdownClosed(k) || e == ShutdownDrained(k)
      requires Inv(View()) && Enabled(View(), e)
      modifies this
      ensures View() == Step(old(View()), e)
      ensures Inv(View())
    {
      StepKeepsInv(View(), e);
      if pendingTransportStartups == {} {
        shutdowns := shutdowns[k := shutdowns[k].(phase := Returned)];
      } else {
        shutdowns := shutdowns[k := shutdowns[k].(phase := Draining(pendingTransportStartups))];
      }
    }
  }
}
