/**
 The prompt editor's double-Esc gates and the hand-off of queued text after an abort
 (extensions/gentle-shell.ts:205-428, 862-868, 971, 1098-1130; lib/double-esc-cancel-policy.ts:46).
 */
module PromptEditor {
  import opened Common
  import opened Text

  type Time = int

  const CLEAR_WINDOW: Time := 500
  const CANCEL_WINDOW: Time := 1000
  const GAP := "\n\n"

  // ----- The join Pi restores, and its inverse -----

  /** `[queued, draft].filter((t) => t.trim()).join("\n\n")`. */
  function RestoreJoin(queued: string, draft: string): string {
    if Blank(queued) then if Blank(draft) then "" else draft
    else if Blank(draft) then queued
    else queued + GAP + draft
  }

  /** `extractQueuedText`: the queued text, the empty string for no queue, or nothing for an unknown shape. */
  function ExtractQueued(combined: string, draft: string): Option<string> {
    if combined == draft then Some("")
    else if Blank(draft) then Some(combined)
    else
      var suffix := GAP + draft;
      if |suffix| <= |combined| && combined[|combined| - |suffix|..] == suffix
      then Some(combined[..|combined| - |suffix|]) else None
  }

  /** Extraction undoes the join for every queue and draft. */
  lemma ExtractInvertsJoin(queued: string, draft: string)
    ensures ExtractQueued(RestoreJoin(queued, draft), draft) == Some(if Blank(queued) then "" else queued)
  {
    var combined := RestoreJoin(queued, draft);
    if !Blank(queued) && !Blank(draft) {
      assert combined == queued + (GAP + draft);
      assert combined[|combined| - |GAP + draft|..] == GAP + draft;
    }
  }

  /** And whatever non-blank text it recovers, the join of it with the draft is what Pi had written. */
  lemma ExtractedRejoins(combined: string, draft: string)
    requires ExtractQueued(combined, draft).Some? && !Blank(ExtractQueued(combined, draft).value)
    ensures RestoreJoin(ExtractQueued(combined, draft).value, draft) == combined
  {
    if !Blank(draft) {
      var n := |combined| - |GAP + draft|;
      assert combined == combined[..n] + combined[n..];
    }
  }

  /** What the extraction makes of any text: the draft alone is an empty queue, a queue in front of the draft is that queue, and anything else is unknown. */
  lemma ExtractIff(combined: string, draft: string, queued: string)
    ensures combined == draft ==> ExtractQueued(combined, draft) == Some("")
    ensures combined != draft && Blank(draft) ==> ExtractQueued(combined, draft) == Some(combined)
    ensures combined != draft && !Blank(draft) ==>
      (ExtractQueued(combined, draft) == Some(queued) <==> combined == queued + "\n\n" + draft)
  {
    var suffix := GAP + draft;
    if combined == queued + "\n\n" + draft {
      assert combined == queued + suffix;
      assert combined[|combined| - |suffix|..] == suffix && combined[..|combined| - |suffix|] == queued;
    }
    if |suffix| <= |combined| && combined[|combined| - |suffix|..] == suffix {
      assert combined == combined[..|combined| - |suffix|] + suffix;
    }
  }

  // ----- The editor -----

  datatype Editor = Editor(
    working: bool,
    text: string,
    history: seq<string>,
    cancelDeadline: Option<Time>,
    clearDeadline: Option<Time>,
    clearText: Option<string>)

  const IDLE := Editor(false, "", [], None, None, None)

  /**
   One key: whether it is the interrupt key, whether autocomplete shows, whether the double-Esc option is on,
   when it comes, and the text Pi's own handler leaves behind if the key reaches it.
   */
  datatype Key = Key(interrupt: bool, autocomplete: bool, doubleEsc: bool, now: Time, after: string)

  datatype Effect =
    | Armed
    | Cleared(text: string)
    | Aborted(dispatched: Option<string>)
    | Passed

  /** The abort: Pi rewrites the text; a recognised queue is taken out again and the draft restored. */
  function Abort(e: Editor, k: Key): (Editor, Effect) {
    var queued := ExtractQueued(k.after, e.text);
    if queued.None? then (e.(text := k.after), Aborted(None))
    else
      var restored := if queued.value != "" then e.(text := e.text) else e.(text := k.after);
      (restored, Aborted(if Blank(queued.value) then None else queued))
  }

  /** A draft that is neither blank nor a shell command. */
  predicate Clearable(text: string) {
    !Blank(text) && !("!" <= TrimStart(text))
  }

  predicate PendingCancel(e: Editor, now: Time) {
    e.cancelDeadline.Some? && now < e.cancelDeadline.value
  }

  predicate PendingClear(e: Editor, now: Time) {
    e.clearDeadline.Some? && now < e.clearDeadline.value && e.clearText == Some(e.text)
  }

  function HandleKey(e: Editor, k: Key): (Editor, Effect) {
    var s := if e.clearDeadline.Some? && !k.interrupt then e.(clearDeadline := None, clearText := None) else e;
    if k.interrupt && !k.autocomplete && s.working then
      if !k.doubleEsc then Abort(s, k)
      else if PendingCancel(s, k.now) then Abort(s.(cancelDeadline := None), k)
      else (s.(cancelDeadline := Some(k.now + CANCEL_WINDOW)), Armed)
    else if k.interrupt && !k.autocomplete && Clearable(s.text) then
      if PendingClear(s, k.now) then
        (s.(clearDeadline := None, clearText := None, history := s.history + [s.text], text := ""), Cleared(s.text))
      else (s.(clearDeadline := Some(k.now + CLEAR_WINDOW), clearText := Some(s.text)), Armed)
    else (s.(text := k.after), Passed)
  }

  function SetWorking(e: Editor, working: bool): Editor {
    if working then e.(working := true, clearDeadline := None, clearText := None)
    else e.(working := false, cancelDeadline := None)
  }

  // ----- Every run of keys, turns and outside edits -----

  datatype Event = Press(key: Key) | Turn(working: bool) | Edit(text: string)

  function Apply(e: Editor, event: Event): Editor {
    match event
    case Press(k) => HandleKey(e, k).0
    case Turn(working) => SetWorking(e, working)
    case Edit(text) => e.(text := text)
  }

  function Run(events: seq<Event>): Editor {
    if events == [] then IDLE else Apply(Run(events[..|events| - 1]), events[|events| - 1])
  }

  /** At event `j` the interrupt key was pressed on this draft while idle. */
  predicate ArmsClear(events: seq<Event>, j: nat, text: string, now: Time) {
    && j < |events| && events[j].Press? && events[j].key.interrupt && !events[j].key.autocomplete
    && events[j].key.now == now && !Run(events[..j]).working && Run(events[..j]).text == text
  }

  /** Since `j` no other key was pressed and no turn began. */
  predicate QuietSince(events: seq<Event>, j: nat) {
    forall k :: j < k < |events| ==> !(events[k].Press? && !events[k].key.interrupt) && events[k] != Turn(true)
  }

  /** At event `j` the interrupt key was pressed during a turn with the option on, and armed the cancel. */
  predicate ArmsCancel(events: seq<Event>, j: nat, now: Time) {
    && j < |events| && events[j].Press? && events[j].key.interrupt && !events[j].key.autocomplete
    && events[j].key.doubleEsc && events[j].key.now == now && Run(events[..j]).working
    && HandleKey(Run(events[..j]), events[j].key).1 == Armed
  }

  /** Since `j` the turn went on, and no abort used up the arming. */
  predicate SameTurnSince(events: seq<Event>, j: nat) {
    forall k :: j < k < |events| ==>
      && events[k] != Turn(false)
      && (events[k].Press? && events[k].key.doubleEsc ==> !HandleKey(Run(events[..k]), events[k].key).1.Aborted?)
  }

  ghost predicate ClearWitness(events: seq<Event>, j: nat, e: Editor) {
    && e.clearDeadline.Some? && e.clearText.Some?
    && ArmsClear(events, j, e.clearText.value, e.clearDeadline.value - CLEAR_WINDOW) && QuietSince(events, j)
  }

  ghost predicate CancelWitness(events: seq<Event>, j: nat, e: Editor) {
    && e.cancelDeadline.Some? && e.working
    && ArmsCancel(events, j, e.cancelDeadline.value - CANCEL_WINDOW) && SameTurnSince(events, j)
  }

  /** Every pending deadline goes back to the key press that set it. */
  lemma {:induction false} DeadlinesHaveWitnesses(events: seq<Event>)
    ensures var e := Run(events);
      && (e.clearDeadline.Some? ==> exists j :: 0 <= j < |events| && ClearWitness(events, j, e))
      && (e.cancelDeadline.Some? ==> exists j :: 0 <= j < |events| && CancelWitness(events, j, e))
  {
    if events != [] {
      var front, last := events[..|events| - 1], events[|events| - 1];
      var before, e := Run(front), Run(events);
      DeadlinesHaveWitnesses(front);
      assert events == front + [last];
      if e.clearDeadline.Some? {
        if before.clearDeadline == e.clearDeadline && before.clearText == e.clearText {
          var j :| 0 <= j < |front| && ClearWitness(front, j, before);
          ClearWitnessExtends(front, last, j);
        } else {
          assert ClearWitness(events, |front|, e);
        }
      }
      if e.cancelDeadline.Some? {
        if before.cancelDeadline == e.cancelDeadline {
          var j :| 0 <= j < |front| && CancelWitness(front, j, before);
          CancelWitnessExtends(front, last, j);
        } else {
          assert CancelWitness(events, |front|, e);
        }
      }
    }
  }

  lemma ClearWitnessExtends(front: seq<Event>, last: Event, j: nat)
    requires j < |front| && ClearWitness(front, j, Run(front))
    requires Run(front + [last]).clearDeadline == Run(front).clearDeadline
    requires Run(front + [last]).clearText == Run(front).clearText
    ensures ClearWitness(front + [last], j, Run(front + [last])) || ClearWitness(front + [last], |front|, Run(front + [last]))
  {
    var events := front + [last];
    assert events[..|front|] == front && events[..j] == front[..j];
    assert Run(events) == Apply(Run(front), last);
  }

  /** An event that leaves the cancel deadline in place does not end the turn or abort it. */
  lemma KeptDeadlineKeepsTurn(e: Editor, event: Event)
    requires e.working && e.cancelDeadline.Some? && Apply(e, event).cancelDeadline == e.cancelDeadline
    ensures Apply(e, event).working && event != Turn(false)
    ensures event.Press? && event.key.doubleEsc ==> !HandleKey(e, event.key).1.Aborted?
  {
  }

  lemma CancelWitnessExtends(front: seq<Event>, last: Event, j: nat)
    requires j < |front| && CancelWitness(front, j, Run(front))
    requires Run(front + [last]).cancelDeadline == Run(front).cancelDeadline
    ensures CancelWitness(front + [last], j, Run(front + [last]))
  {
    var events := front + [last];
    assert events[..|front|] == front;
    assert Run(events) == Apply(Run(front), last);
    KeptDeadlineKeepsTurn(Run(front), last);
    forall k | j < k < |events|
      ensures events[k] != Turn(false)
      ensures events[k].Press? && events[k].key.doubleEsc ==> !HandleKey(Run(events[..k]), events[k].key).1.Aborted?
    {
      assert events[..k] == front[..k];
      if k < |front| { assert events[k] == front[k]; }
    }
    assert events[..j] == front[..j] && events[j] == front[j];
  }

  /**
   In every run: an idle draft is cleared only when the interrupt key was pressed on the identical draft less
   than 500 ms before, with no other key and no turn in between; the cleared text is in the history.
   */
  lemma ClearIsConfirmed(events: seq<Event>, k: Key)
    requires HandleKey(Run(events), k).1.Cleared?
    ensures var (after, effect) := HandleKey(Run(events), k);
      && effect.text == Run(events).text && after.text == "" && after.history == Run(events).history + [effect.text]
      && exists j, armed: Time :: (
           && 0 <= j < |events| && ArmsClear(events, j, effect.text, armed)
           && k.now - armed < CLEAR_WINDOW && QuietSince(events, j))
  {
    var e := Run(events);
    DeadlinesHaveWitnesses(events);
    var j :| 0 <= j < |events| && ClearWitness(events, j, e);
    assert ArmsClear(events, j, e.text, e.clearDeadline.value - CLEAR_WINDOW);
  }

  /**
   In every run: with the option on a turn is aborted only by a second interrupt within one second of an arming
   one, in the same uninterrupted turn, and no arming press confirms two aborts.
   */
  lemma AbortIsConfirmed(events: seq<Event>, k: Key)
    requires k.doubleEsc && HandleKey(Run(events), k).1.Aborted?
    ensures Run(events).working
    ensures exists j, armed: Time :: (
        0 <= j < |events| && ArmsCancel(events, j, armed) && k.now - armed < CANCEL_WINDOW && SameTurnSince(events, j))
  {
    var e := Run(events);
    DeadlinesHaveWitnesses(events);
    var j :| 0 <= j < |events| && CancelWitness(events, j, e);
    assert ArmsCancel(events, j, e.cancelDeadline.value - CANCEL_WINDOW);
  }

  /**
   Which keys are kept from Pi: an interrupt without autocomplete during a turn, or on a draft that is neither blank nor
   a shell command. Every other key reaches Pi and touches nothing else; an arming press changes no text; and with the
   option off the first interrupt of a turn aborts it.
   */
  lemma KeyEffects(e: Editor, k: Key)
    ensures var (after, effect) := HandleKey(e, k);
      && (effect.Passed? <==>
            !(k.interrupt && !k.autocomplete && (e.working || (!Blank(e.text) && !("!" <= TrimStart(e.text))))))
      && (effect.Passed? ==> after.text == k.after && after.history == e.history && after.cancelDeadline == e.cancelDeadline)
      && (effect.Armed? ==> after.text == e.text && after.history == e.history)
      && (effect.Cleared? ==> !e.working && effect.text == e.text && !("!" <= TrimStart(e.text)))
      && (effect.Aborted? ==> e.working && after.history == e.history)
      && (k.interrupt && !k.autocomplete && e.working && !k.doubleEsc ==> effect.Aborted?)
      && (!k.interrupt ==> after.clearDeadline.None?)
      && after.working == e.working
  {
  }

  /** Two interrupts in a row, fast enough, do confirm: an idle draft is cleared, a turn with the option on is aborted. */
  lemma SecondPressConfirms(e: Editor, first: Key, second: Key)
    requires first.interrupt && !first.autocomplete && second.interrupt && !second.autocomplete
    requires first.doubleEsc && second.doubleEsc && HandleKey(e, first).1 == Armed
    ensures HandleKey(e, first).0.text == e.text && HandleKey(e, first).0.history == e.history
    ensures var effect := HandleKey(HandleKey(e, first).0, second).1;
      && (effect == Cleared(e.text) <==> !e.working && second.now < first.now + CLEAR_WINDOW)
      && (effect.Aborted? <==> e.working && second.now < first.now + CANCEL_WINDOW)
  {
  }

  /** When Pi leaves its own join of queue and draft, the abort recovers the queue and puts the draft back. */
  lemma AbortRecoversQueue(e: Editor, k: Key, queued: string)
    requires k.after == RestoreJoin(queued, e.text)
    ensures var (after, effect) := Abort(e, k);
      && effect == Aborted(if Blank(queued) then None else Some(queued))
      && after.text == if Blank(queued) && Blank(e.text) then "" else e.text
  {
    ExtractInvertsJoin(queued, e.text);
  }

  /** A draft of two spaces is lost when the queue is blank: Pi's restore drops it before the abort can tell. */
  lemma BlankDraftIsLost(e: Editor, k: Key)
    requires e.text == "  " && k.after == RestoreJoin("", e.text)
    ensures Abort(e, k).0.text == "" && Abort(e, k).1 == Aborted(None)
  {
    AbortRecoversQueue(e, k, "");
  }

  // ----- The queued text between an abort and the next settle -----

  /** What became of a pending text: sent as a message, or put back in the editor. */
  datatype Delivery = Delivery(text: string, sent: bool)

  datatype Shell = Shell(editor: Editor, hasPrompt: bool, pending: Option<string>, deliveries: seq<Delivery>, recovered: seq<string>)

  datatype ShellEvent =
    | ShellKey(key: Key)
    | ShellEdit(text: string)
    | AgentStart
    | AgentSettled(idle: bool, sendSucceeds: bool)

  function Dispatch(pending: Option<string>, text: string): Option<string> {
    if pending.None? then Some(text) else Some(pending.value + GAP + text)
  }

  function Settle(s: Shell, sendSucceeds: bool): Shell {
    var quiet := if s.hasPrompt then s.(editor := SetWorking(s.editor, false)) else s;
    if s.pending.None? then quiet
    else if sendSucceeds then
      quiet.(pending := None, deliveries := s.deliveries + [Delivery(s.pending.value, true)])
    else if s.hasPrompt then
      quiet.(pending := None,
      editor := quiet.editor.(text := RestoreJoin(s.pending.value, quiet.editor.text)),
      deliveries := s.deliveries + [Delivery(s.pending.value, false)])
    else quiet
  }

  /** One event of a session; without a prompt there are no keys. */
  function ShellStep(s: Shell, event: ShellEvent): Shell {
    match event
    case ShellKey(k) =>
      if !s.hasPrompt then s
      else
        var (editor, effect) := HandleKey(s.editor, k);
        if effect.Aborted? && effect.dispatched.Some? then
          s.(editor := editor,
          pending := Dispatch(s.pending, effect.dispatched.value),
          recovered := s.recovered + [effect.dispatched.value])
        else s.(editor := editor)
    case ShellEdit(text) => if s.hasPrompt then s.(editor := s.editor.(text := text)) else s
    case AgentStart => if s.hasPrompt then s.(editor := SetWorking(s.editor, true)) else s
    case AgentSettled(idle, sendSucceeds) => if idle then Settle(s, sendSucceeds) else s
  }

  function RunShell(hasPrompt: bool, events: seq<ShellEvent>): Shell {
    if events == [] then Shell(IDLE, hasPrompt, None, [], [])
    else ShellStep(RunShell(hasPrompt, events[..|events| - 1]), events[|events| - 1])
  }

  function Flatten(groups: seq<seq<string>>): seq<string> {
    if groups == [] then [] else Flatten(groups[..|groups| - 1]) + groups[|groups| - 1]
  }

  lemma {:induction false} JoinSnoc(chunks: seq<string>, chunk: string)
    requires chunks != []
    ensures Join(chunks + [chunk], GAP) == Join(chunks, GAP) + GAP + chunk
  {
    if |chunks| == 1 {
      assert (chunks + [chunk])[1..] == [chunk];
    } else {
      JoinSnoc(chunks[1..], chunk);
      assert (chunks + [chunk])[1..] == chunks[1..] + [chunk];
    }
  }

  /** The recovered texts fall into groups, one per delivery in order, and the rest is still pending. */
  ghost predicate Accounted(s: Shell, groups: seq<seq<string>>, rest: seq<string>) {
    && s.recovered == Flatten(groups) + rest
    && |groups| == |s.deliveries|
    && (forall i :: 0 <= i < |groups| ==> groups[i] != [] && s.deliveries[i].text == Join(groups[i], GAP))
    && s.pending == (if rest == [] then None else Some(Join(rest, GAP)))
    && (forall t :: t in s.recovered ==> !Blank(t))
  }

  /**
   Main result: no recovered word is lost, repeated or reordered. In every run of a session the texts recovered
   from aborts are, in order, exactly those delivered (sent or put back in the editor) and those pending.
   */
  lemma {:induction false} NoQueuedWordIsLost(hasPrompt: bool, events: seq<ShellEvent>)
    returns (groups: seq<seq<string>>, rest: seq<string>)
    ensures Accounted(RunShell(hasPrompt, events), groups, rest)
  {
    if events == [] {
      return [], [];
    }
    groups, rest := NoQueuedWordIsLost(hasPrompt, events[..|events| - 1]);
    groups, rest := StepAccounted(RunShell(hasPrompt, events[..|events| - 1]), events[|events| - 1], groups, rest);
  }

  lemma StepAccounted(s: Shell, event: ShellEvent, groups: seq<seq<string>>, rest: seq<string>)
    returns (groups': seq<seq<string>>, rest': seq<string>)
    requires Accounted(s, groups, rest)
    ensures Accounted(ShellStep(s, event), groups', rest')
  {
    groups', rest' := groups, rest;
    match event
    case ShellKey(k) =>
      var effect := HandleKey(s.editor, k).1;
      if s.hasPrompt && effect.Aborted? && effect.dispatched.Some? {
        rest' := rest + [effect.dispatched.value];
        RecoveryAccounted(s, ShellStep(s, event), effect.dispatched.value, groups, rest);
      }
    case AgentSettled(idle, sendSucceeds) =>
      if idle && s.pending.Some? && (sendSucceeds || s.hasPrompt) {
        groups', rest' := groups + [rest], [];
      }
    case _ =>
  }

  lemma RecoveryAccounted(s: Shell, after: Shell, text: string, groups: seq<seq<string>>, rest: seq<string>)
    requires Accounted(s, groups, rest) && !Blank(text)
    requires after.recovered == s.recovered + [text] && after.deliveries == s.deliveries
    requires after.pending == Dispatch(s.pending, text)
    ensures Accounted(after, groups, rest + [text])
  {
    if rest != [] {
      JoinSnoc(rest, text);
    }
    assert Flatten(groups) + rest + [text] == Flatten(groups) + (rest + [text]);
  }

  /** A text that cannot be sent goes in front of the draft, in the shape Pi's own restore would have left. */
  lemma PutBackKeepsDraft(s: Shell)
    requires s.pending.Some? && !Blank(s.pending.value) && s.hasPrompt
    ensures var after := ShellStep(s, AgentSettled(true, false));
      && ExtractQueued(after.editor.text, s.editor.text) == s.pending
      && after.pending.None?
  {
    ExtractInvertsJoin(s.pending.value, s.editor.text);
  }

  /**
   A settle with Pi idle delivers the pending text once: as a message, or back into the editor, or not yet when there is
   no editor to put it in. A settle of a busy Pi delivers nothing.
   */
  lemma SettleDelivers(s: Shell, idle: bool, sendSucceeds: bool)
    ensures var after := ShellStep(s, AgentSettled(idle, sendSucceeds));
      && after.recovered == s.recovered && after.hasPrompt == s.hasPrompt
      && (!idle ==> after == s)
      && (idle && s.hasPrompt ==> !after.editor.working)
      && (s.pending.None? ==> after.pending.None? && after.deliveries == s.deliveries && after.editor.text == s.editor.text)
      && (idle && s.pending.Some? && (sendSucceeds || s.hasPrompt) ==>
            && after.pending.None? && after.deliveries == s.deliveries + [Delivery(s.pending.value, sendSucceeds)]
            && (sendSucceeds ==> after.editor.text == s.editor.text))
      && (idle && s.pending.Some? && !sendSucceeds && !s.hasPrompt ==> after == s)
  {
  }

  /** An abort that recovers a queue adds it to the pending text; every other key and every start of a turn leaves that alone. */
  lemma PendingGrowsByAborts(s: Shell, k: Key)
    requires s.hasPrompt
    ensures var after, effect := ShellStep(s, ShellKey(k)), HandleKey(s.editor, k).1;
      if effect.Aborted? && effect.dispatched.Some? then
        && after.recovered == s.recovered + [effect.dispatched.value] && after.deliveries == s.deliveries
        && after.pending == Some(if s.pending.None? then effect.dispatched.value
                                 else s.pending.value + "\n\n" + effect.dispatched.value)
      else after.recovered == s.recovered && after.deliveries == s.deliveries && after.pending == s.pending
    ensures ShellStep(s, AgentStart).pending == s.pending && ShellStep(s, AgentStart).deliveries == s.deliveries
    ensures ShellStep(s, AgentStart).editor.working && ShellStep(s, AgentStart).editor.text == s.editor.text
  {
  }

  // ----- The editor object and the extension's cell -----

  class GentlePromptEditor {
    var working: bool
    var text: string
    var history: seq<string>
    var pendingEscapeCancelDeadline: Option<Time>
    var pendingIdleClearDeadline: Option<Time>
    var pendingIdleClearText: Option<string>

    function View(): Editor
      reads this
    {
      Editor(working, text, history, pendingEscapeCancelDeadline, pendingIdleClearDeadline, pendingIdleClearText)
    }

    constructor ()
      ensures View() == IDLE
    {
      working, text, history := false, "", [];
      pendingEscapeCancelDeadline, pendingIdleClearDeadline, pendingIdleClearText := None, None, None;
    }

    method SetWorkingState(working: bool)
      modifies this
      ensures View() == SetWorking(old(View()), working)
    {
      this.working := working;
      if !working {
        pendingEscapeCancelDeadline := None;
      } else {
        pendingIdleClearDeadline := None;
        pendingIdleClearText := None;
      }
    }

    method SetText(text: string)
      modifies this`text
      ensures this.text == text
    {
      this.text := text;
    }

    /** The Esc that aborts; returns the text to dispatch, if any. */
    method AbortAndDispatchQueued(k: Key) returns (dispatched: Option<string>)
      modifies this
      ensures (View(), Aborted(dispatched)) == Abort(old(View()), k)
    {
      var draft := text;
      text := k.after;
      var queued := ExtractQueued(text, draft);
      if queued.None? {
        return None;
      }
      if queued.value != "" {
        SetText(draft);
      }
      dispatched := if Blank(queued.value) then None else queued;
    }

    method HandleInput(k: Key) returns (effect: Effect)
      modifies this
      ensures (View(), effect) == HandleKey(old(View()), k)
    {
      if pendingIdleClearDeadline.Some? && !k.interrupt {
        pendingIdleClearDeadline := None;
        pendingIdleClearText := None;
      }
      if working && !k.autocomplete && k.interrupt {
        if !k.doubleEsc {
          var dispatched := AbortAndDispatchQueued(k);
          return Aborted(dispatched);
        }
        if pendingEscapeCancelDeadline.Some? && k.now < pendingEscapeCancelDeadline.value {
          pendingEscapeCancelDeadline := None;
          var dispatched := AbortAndDispatchQueued(k);
          return Aborted(dispatched);
        }
        pendingEscapeCancelDeadline := Some(k.now + CANCEL_WINDOW);
        return Armed;
      }
      if !working && !k.autocomplete && k.interrupt && Clearable(text) {
        if pendingIdleClearDeadline.Some? && k.now < pendingIdleClearDeadline.value && pendingIdleClearText == Some(text) {
          pendingIdleClearDeadline := None;
          pendingIdleClearText := None;
          effect := Cleared(text);
          history := history + [text];
          text := "";
          return;
        }
        pendingIdleClearDeadline := Some(k.now + CLEAR_WINDOW);
        pendingIdleClearText := Some(text);
        return Armed;
      }
      text := k.after;
      effect := Passed;
    }
  }

  /** The extension's `pendingQueuedText` cell with its event handlers. */
  class GentleShell {
    const prompt: GentlePromptEditor?
    const idleEditor: Editor
    var pendingQueuedText: Option<string>
    ghost var deliveries: seq<Delivery>
    ghost var recovered: seq<string>

    ghost function View(): Shell
      reads this, prompt
    {
      Shell(if prompt == null then idleEditor else prompt.View(), prompt != null, pendingQueuedText, deliveries, recovered)
    }

    constructor (prompt: GentlePromptEditor?)
      requires prompt != null ==> prompt.View() == IDLE
      ensures this.prompt == prompt && View() == RunShell(prompt != null, [])
    {
      this.prompt := prompt;
      idleEditor, pendingQueuedText := IDLE, None;
      deliveries, recovered := [], [];
    }

    method OnKey(k: Key)
      modifies this, prompt
      ensures View() == ShellStep(old(View()), ShellKey(k))
    {
      if prompt == null {
        return;
      }
      var effect := prompt.HandleInput(k);
      if effect.Aborted? && effect.dispatched.Some? {
        var text := effect.dispatched.value;
        pendingQueuedText := if pendingQueuedText.None? then Some(text) else Some(pendingQueuedText.value + GAP + text);
        recovered := recovered + [text];
      }
    }

    method OnAgentStart()
      modifies prompt
      ensures View() == ShellStep(old(View()), AgentStart)
    {
      if prompt != null {
        prompt.SetWorkingState(true);
      }
    }

    /** `agent_settled`: `sendSucceeds` says whether `sendUserMessage` returns. */
    method OnAgentSettled(idle: bool, sendSucceeds: bool)
      modifies this, prompt
      ensures View() == ShellStep(old(View()), AgentSettled(idle, sendSucceeds))
    {
      if !idle {
        return;
      }
      if prompt != null {
        prompt.SetWorkingState(false);
      }
      if pendingQueuedText.None? {
        return;
      }
      var queued := pendingQueuedText.value;
      pendingQueuedText := None;
      if sendSucceeds {
        deliveries := deliveries + [Delivery(queued, true)];
      } else if prompt != null {
        prompt.SetText(RestoreJoin(queued, prompt.text));
        deliveries := deliveries + [Delivery(queued, false)];
      } else {
        pendingQueuedText := Some(queued);
      }
    }
  }
}
