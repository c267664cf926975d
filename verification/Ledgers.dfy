/**
 Two counters kept over whole runs: the commands a remediation launch may still run
 (extensions/gentle-agents.ts:114-118, 152-174) and the blocker label shown to the host
 (extensions/gentle-ai.ts:1837-1879).
 */
module Ledgers {
  import opened Common
  import opened OrderedMaps

  // ----- Remediation commands -----

  const CAPTURE_LIMIT: nat := 32

  /** What one launch has left, which calls it accepted, what ran, and the captured observations. */
  datatype Launch = Launch(remaining: seq<string>, used: set<string>, ran: seq<(string, string)>, captured: OrderedMap<string, string>)

  /** A tool call: its id, its command, and whether the scope allows it. */
  datatype BashCall = BashCall(id: string, command: string, allowed: bool)

  /** A call arrives; the shell finishes an accepted one; its result is collected. */
  datatype LaunchEvent = Execute(call: BashCall) | Finished(id: string) | Result(id: string)

  function IndexOf(s: seq<string>, x: string): (i: nat)
    ensures i <= |s| && (i < |s| ==> s[i] == x) && (i == |s| ==> x !in s)
  {
    if s == [] || s[0] == x then 0 else 1 + IndexOf(s[1..], x)
  }

  predicate Authorised(l: Launch, c: BashCall) {
    c.allowed && IndexOf(l.remaining, c.command) < |l.remaining| && c.id !in l.used
  }

  function Splice(s: seq<string>, i: nat): seq<string>
    requires i < |s|
  {
    s[..i] + s[i + 1..]
  }

  /** The command of an accepted call. */
  function CommandOf(ran: seq<(string, string)>, id: string): (command: Option<string>)
    ensures command.Some? ==> (id, command.value) in ran
  {
    if ran == [] then None
    else if ran[|ran| - 1].0 == id then Some(ran[|ran| - 1].1) else CommandOf(ran[..|ran| - 1], id)
  }

  function LaunchStep(l: Launch, e: LaunchEvent): Launch {
    match e
    case Execute(c) =>
      if !Authorised(l, c) then l
      else
        l.(remaining := Splice(l.remaining, IndexOf(l.remaining, c.command)),
        used := l.used + {c.id},
        ran := l.ran + [(c.id, c.command)])
    case Finished(id) =>
      var command := CommandOf(l.ran, id);
      if command.Some? && |l.captured.order| < CAPTURE_LIMIT
      then l.(captured := l.captured.Set(id, command.value)) else l
    case Result(id) => l.(captured := l.captured.Delete(id))
  }

  function RunLaunch(commands: seq<string>, events: seq<LaunchEvent>): Launch {
    if events == [] then Launch(commands, {}, [], Empty())
    else LaunchStep(RunLaunch(commands, events[..|events| - 1]), events[|events| - 1])
  }

  function Commands(ran: seq<(string, string)>): (r: seq<string>)
    ensures |r| == |ran| && forall i :: 0 <= i < |r| ==> r[i] == ran[i].1
  {
    seq(|ran|, i requires 0 <= i < |ran| => ran[i].1)
  }

  ghost predicate LaunchInv(commands: seq<string>, l: Launch) {
    && multiset(Commands(l.ran)) + multiset(l.remaining) == multiset(commands)
    && (forall i :: 0 <= i < |l.ran| ==> l.ran[i].0 in l.used)
    && (forall i, j :: 0 <= i < j < |l.ran| ==> l.ran[i].0 != l.ran[j].0)
    && l.captured.Valid() && |l.captured.order| <= CAPTURE_LIMIT
    && (forall id :: id in l.captured.at ==> (id, l.captured.at[id]) in l.ran)
  }

  lemma SpliceMultiset(s: seq<string>, i: nat)
    requires i < |s|
    ensures multiset(Splice(s, i)) + multiset{s[i]} == multiset(s)
  {
    assert s == s[..i] + [s[i]] + s[i + 1..];
  }

  lemma AcceptedCallIsConserved(commands: seq<string>, l: Launch, c: BashCall)
    requires LaunchInv(commands, l) && Authorised(l, c)
    ensures LaunchInv(commands, LaunchStep(l, Execute(c)))
  {
    var ran := l.ran + [(c.id, c.command)];
    SpliceMultiset(l.remaining, IndexOf(l.remaining, c.command));
    assert Commands(ran) == Commands(l.ran) + [c.command];
    forall id | id in l.captured.at ensures (id, l.captured.at[id]) in ran {
      assert l.ran <= ran && (id, l.captured.at[id]) in l.ran;
    }
  }

  /**
   In every run of a launch: what ran and what is left is exactly what was authorised, no call id ran twice, and
   at most 32 observations are held, each of a call that did run.
   */
  lemma {:induction false} CommandsAreConserved(commands: seq<string>, events: seq<LaunchEvent>)
    ensures LaunchInv(commands, RunLaunch(commands, events))
  {
    if events == [] {
      assert Commands([]) == [];
    } else {
      var before := RunLaunch(commands, events[..|events| - 1]);
      CommandsAreConserved(commands, events[..|events| - 1]);
      match events[|events| - 1]
      case Execute(c) => if Authorised(before, c) { AcceptedCallIsConserved(commands, before, c); }
      case Finished(id) =>
        var command := CommandOf(before.ran, id);
        if command.Some? { before.captured.SetValid(id, command.value); }
      case Result(id) => before.captured.RemoveValid({id});
    }
  }

  lemma {:induction false} CommandOfRan(ran: seq<(string, string)>, i: nat)
    requires i < |ran| && forall a, b :: 0 <= a < b < |ran| ==> ran[a].0 != ran[b].0
    ensures CommandOf(ran, ran[i].0) == Some(ran[i].1)
  {
    if i < |ran| - 1 { CommandOfRan(ran[..|ran| - 1], i); }
  }

  /**
   In every run: a call is accepted exactly when the scope allows it, its command is still left and its id is new; then
   one copy of the command is gone. A refused call changes nothing.
   */
  lemma AcceptedIff(commands: seq<string>, events: seq<LaunchEvent>, c: BashCall)
    ensures var l := RunLaunch(commands, events); var after := LaunchStep(l, Execute(c));
      if c.allowed && c.command in l.remaining && (forall i :: 0 <= i < |l.ran| ==> l.ran[i].0 != c.id) && c.id !in l.used then
        && after.ran == l.ran + [(c.id, c.command)] && after.used == l.used + {c.id}
        && multiset(after.remaining) == multiset(l.remaining) - multiset{c.command} && after.captured == l.captured
      else after == l
  {
    CommandsAreConserved(commands, events);
    var l := RunLaunch(commands, events);
    if Authorised(l, c) { SpliceMultiset(l.remaining, IndexOf(l.remaining, c.command)); }
  }

  /** In every run a finished call is observed with its own command while there is room, and collecting it forgets only it. */
  lemma FinishedIsObserved(commands: seq<string>, events: seq<LaunchEvent>, i: nat, id: string)
    requires i < |RunLaunch(commands, events).ran|
    ensures var l := RunLaunch(commands, events); var after := LaunchStep(l, Finished(l.ran[i].0));
      && after == l.(captured := after.captured)
      && (|l.captured.order| < 32 ==> after.captured.Get(l.ran[i].0) == Some(l.ran[i].1))
      && (|l.captured.order| >= 32 ==> after == l)
      && (id != l.ran[i].0 ==> after.captured.Get(id) == l.captured.Get(id))
    ensures var l := RunLaunch(commands, events); var after := LaunchStep(l, Result(l.ran[i].0));
      && after == l.(captured := after.captured) && after.captured.Get(l.ran[i].0).None?
      && (id != l.ran[i].0 ==> after.captured.Get(id) == l.captured.Get(id))
  {
    CommandsAreConserved(commands, events);
    CommandOfRan(RunLaunch(commands, events).ran, i);
  }

  class RemediationBash {
    var remaining: seq<string>
    var used: set<string>
    var captured: OrderedMap<string, string>
    ghost var ran: seq<(string, string)>

    ghost function View(): Launch
      reads this
    {
      Launch(remaining, used, ran, captured)
    }

    constructor (commands: seq<string>)
      ensures View() == RunLaunch(commands, [])
    {
      remaining, used, captured, ran := commands, {}, Empty(), [];
    }

    /** Throws (returns false) for a call outside the authorisation. */
    method ExecuteCall(c: BashCall) returns (ok: bool)
      modifies this
      ensures ok == Authorised(old(View()), c) && View() == LaunchStep(old(View()), Execute(c))
    {
      var slot := IndexOf(remaining, c.command);
      if !c.allowed || slot == |remaining| || c.id in used {
        return false;
      }
      remaining := remaining[..slot] + remaining[slot + 1..];
      used := used + {c.id};
      ran := ran + [(c.id, c.command)];
      ok := true;
    }

    /** What the shell operation does when the command of an accepted call returns. */
    method CaptureFinished(id: string, command: string)
      requires CommandOf(View().ran, id) == Some(command)
      modifies this`captured
      ensures View() == LaunchStep(old(View()), Finished(id))
    {
      if |captured.order| < CAPTURE_LIMIT {
        captured := captured.Set(id, command);
      }
    }

    method TakeResult(id: string) returns (observed: Option<string>)
      modifies this
      ensures observed == old(View()).captured.Get(id) && View() == LaunchStep(old(View()), Result(id))
    {
      observed := captured.Get(id);
      captured := captured.Delete(id);
    }
  }

  // ----- The blocker label -----

  datatype Label = Choice | Questionnaire | GuardedConfirmation

  datatype Blocker = Blocker(pending: nat, choice: bool, questionnaire: bool, shown: Option<Label>, stream: seq<Option<Label>>)

  datatype BlockerEvent = Begin | SettleOne | ChoiceBlocked(active: bool) | QuestionnaireBlocked(active: bool)

  /** The label in effect: a choice outranks a questionnaire, which outranks pending confirmations. */
  function Effective(b: Blocker): Option<Label> {
    if b.choice then Some(Choice)
    else if b.questionnaire then Some(Questionnaire)
    else if b.pending > 0 then Some(GuardedConfirmation)
    else None
  }

  function Emit(b: Blocker): Blocker {
    if Effective(b) == b.shown then b else b.(shown := Effective(b), stream := b.stream + [Effective(b)])
  }

  function BlockerStep(b: Blocker, e: BlockerEvent): Blocker {
    match e
    case Begin => Emit(b.(pending := b.pending + 1))
    case SettleOne => if b.pending == 0 then b else Emit(b.(pending := b.pending - 1))
    case ChoiceBlocked(active) => if active == b.choice then b else Emit(b.(choice := active))
    case QuestionnaireBlocked(active) => if active == b.questionnaire then b else Emit(b.(questionnaire := active))
  }

  function RunBlocker(events: seq<BlockerEvent>): Blocker {
    if events == [] then Blocker(0, false, false, None, []) else BlockerStep(RunBlocker(events[..|events| - 1]), events[|events| - 1])
  }

  /** The label in effect after each event. */
  function LabelHistory(events: seq<BlockerEvent>): (h: seq<Option<Label>>)
    ensures |h| == |events|
  {
    if events == [] then [] else LabelHistory(events[..|events| - 1]) + [Effective(RunBlocker(events))]
  }

  /** The changes of a history that starts with no label. */
  function Changes(history: seq<Option<Label>>): seq<Option<Label>> {
    if history == [] then []
    else
      var front := history[..|history| - 1];
      var before := if front == [] then None else front[|front| - 1];
      Changes(front) + if history[|history| - 1] == before then [] else [history[|history| - 1]]
  }

  /** A choice outranks a questionnaire, which outranks pending confirmations; without any of them no label is shown. */
  lemma LabelPriority(events: seq<BlockerEvent>)
    ensures var b := RunBlocker(events);
      && (b.shown == Some(Choice) <==> b.choice)
      && (b.shown == Some(Questionnaire) <==> !b.choice && b.questionnaire)
      && (b.shown == Some(GuardedConfirmation) <==> !b.choice && !b.questionnaire && b.pending > 0)
  {
    StreamIsLabelChanges(events);
  }

  /** The two flags follow their events, and confirmations are counted up and down, never below none. */
  lemma FlagsFollowEvents(events: seq<BlockerEvent>, e: BlockerEvent)
    ensures var b, after := RunBlocker(events), RunBlocker(events + [e]);
      && after.choice == (if e.ChoiceBlocked? then e.active else b.choice)
      && after.questionnaire == (if e.QuestionnaireBlocked? then e.active else b.questionnaire)
      && after.pending == (if e.Begin? then b.pending + 1 else if e.SettleOne? && b.pending > 0 then b.pending - 1 else b.pending)
  {
    assert (events + [e])[..|events|] == events;
  }

  /** In every run the emitted stream is the history of effective labels without repeats, and the last one is shown. */
  lemma {:induction false} StreamIsLabelChanges(events: seq<BlockerEvent>)
    ensures RunBlocker(events).stream == Changes(LabelHistory(events))
    ensures RunBlocker(events).shown == Effective(RunBlocker(events))
    ensures events != [] ==> LabelHistory(events)[|events| - 1] == RunBlocker(events).shown
  {
    if events != [] {
      var front := events[..|events| - 1];
      StreamIsLabelChanges(front);
      ChangesSnoc(LabelHistory(front), Effective(RunBlocker(events)));
      EmitsTheChange(RunBlocker(front), events[|events| - 1]);
    }
  }

  lemma ChangesSnoc(history: seq<Option<Label>>, x: Option<Label>)
    ensures var before := if history == [] then None else history[|history| - 1];
      Changes(history + [x]) == Changes(history) + if x == before then [] else [x]
  {
    var longer := history + [x];
    assert longer[..|longer| - 1] == history && longer[|longer| - 1] == x;
  }

  lemma EmitsTheChange(b: Blocker, e: BlockerEvent)
    requires b.shown == Effective(b)
    ensures var after := BlockerStep(b, e);
      && after.shown == Effective(after)
      && after.stream == b.stream + if after.shown == b.shown then [] else [after.shown]
  {
  }

  /** The lifecycle's closure variables and its handlers. */
  class HerdrLifecycle {
    var pending: nat
    var choiceActive: bool
    var questionnaireActive: bool
    var emittedLabel: Option<Label>
    ghost var stream: seq<Option<Label>>

    ghost function View(): Blocker
      reads this
    {
      Blocker(pending, choiceActive, questionnaireActive, emittedLabel, stream)
    }

    constructor ()
      ensures View() == RunBlocker([])
    {
      pending, choiceActive, questionnaireActive, emittedLabel, stream := 0, false, false, None, [];
    }

    method EmitEffectiveBlocker()
      modifies this`emittedLabel, this`stream
      ensures View() == Emit(old(View()))
    {
      var next := if choiceActive then Some(Choice)
                  else if questionnaireActive then Some(Questionnaire)
                  else if pending > 0 then Some(GuardedConfirmation)
                  else None;
      if next != emittedLabel {
        emittedLabel := next;
        stream := stream + [next];
      }
    }

    method Handle(e: BlockerEvent)
      modifies this
      ensures View() == BlockerStep(old(View()), e)
    {
      match e {
        case Begin => pending := pending + 1;
        case SettleOne =>
          if pending == 0 {
            return;
          }
          pending := pending - 1;
        case ChoiceBlocked(active) =>
          if active == choiceActive {
            return;
          }
          choiceActive := active;
        case QuestionnaireBlocked(active) =>
          if active == questionnaireActive {
            return;
          }
          questionnaireActive := active;
      }
      EmitEffectiveBlocker();
    }
  }
}
