/**
 Selecting review captures by their canonical binding, and submitting a group of reviewer results to a
 provider that may answer anything (extensions/gentle-ai.ts:7191-7194, 7244-7358, 7515-7645).
 */
module CaptureGroup {
  import opened Common
  import opened Utf16Strings
  import opened Json
  import T = Text

  datatype Argument = Argument(name: string, value: string)

  datatype Subject = Subject(
    subjectHash: string,
    lineageId: string,
    authorityRevision: string,
    targetIdentity: string,
    lens: string,
    selectedOrder: string)

  datatype SubmissionValue = SubmissionValue(slot: string, domain: string, location: int)

  datatype Submission = Submission(operationToken: string, argumentTokens: seq<string>, values: seq<SubmissionValue>)

  /** One collect input of a STATUS: the JSON the provider sent, and the parts of it that are read. */
  datatype Input = Input(
    json: Value,
    captureOperation: string,
    arguments: seq<Argument>,
    subject: Option<Subject>,
    submission: Option<Submission>,
    correctionTarget: Option<string>)

  datatype RepositoryContext = RepositoryContext(revision: string, handle: string, targetIdentity: string)

  /** `inputs` are those of a collect transition; without one `collects` is false. */
  datatype Status = Status(
    currentTarget: bool,
    lineageId: string,
    targetIdentity: string,
    context: Option<RepositoryContext>,
    collects: bool,
    inputs: seq<Input>)

  // ----- Selecting one capture -----

  function Values(arguments: seq<Argument>, name: string): seq<string> {
    if arguments == [] then []
    else (if arguments[0].name == name then [arguments[0].value] else []) + Values(arguments[1..], name)
  }

  /** `exactCollectArgument`: the value when the name occurs exactly once. */
  function ExactArgument(input: Input, name: string): Option<string> {
    var matches := Values(input.arguments, name);
    if |matches| == 1 then Some(matches[0]) else None
  }

  /** Argument `i` has this name and no other does. */
  ghost predicate OnlyNamed(arguments: seq<Argument>, name: string, i: nat) {
    i < |arguments| && arguments[i].name == name && forall j :: 0 <= j < |arguments| && arguments[j].name == name ==> j == i
  }

  lemma {:induction false} ValuesSpec(arguments: seq<Argument>, name: string)
    ensures Values(arguments, name) == [] <==> forall i :: 0 <= i < |arguments| ==> arguments[i].name != name
    ensures forall v :: Values(arguments, name) == [v] <==> exists i: nat :: OnlyNamed(arguments, name, i) && arguments[i].value == v
  {
    if arguments != [] {
      var rest := arguments[1..];
      ValuesSpec(rest, name);
      forall v ensures Values(arguments, name) == [v] <==> exists i: nat :: OnlyNamed(arguments, name, i) && arguments[i].value == v {
        FirstArgument(arguments, name, v);
        SingleValue(arguments[0].value, Values(rest, name), v);
      }
    }
  }

  lemma SingleValue(head: string, rest: seq<string>, v: string)
    ensures [head] + rest == [v] <==> head == v && rest == []
  {
    var all := [head] + rest;
    assert all[0] == head && all[1..] == rest && |all| == 1 + |rest|;
  }

  lemma FirstArgument(arguments: seq<Argument>, name: string, v: string)
    requires arguments != []
    ensures (exists i: nat :: OnlyNamed(arguments, name, i) && arguments[i].value == v) <==>
      if arguments[0].name == name
      then arguments[0].value == v && forall i :: 0 <= i < |arguments[1..]| ==> arguments[1..][i].name != name
      else exists i: nat :: OnlyNamed(arguments[1..], name, i) && arguments[1..][i].value == v
  {
    var rest := arguments[1..];
    assert forall i :: 0 <= i < |rest| ==> rest[i] == arguments[i + 1];
    if arguments[0].name == name {
      if arguments[0].value == v && forall i :: 0 <= i < |rest| ==> rest[i].name != name {
        assert OnlyNamed(arguments, name, 0);
      }
    } else {
      if i: nat :| OnlyNamed(rest, name, i) && rest[i].value == v { assert OnlyNamed(arguments, name, i + 1); }
      if i: nat :| OnlyNamed(arguments, name, i) && arguments[i].value == v { assert OnlyNamed(rest, name, i - 1); }
    }
  }

  /** An argument counts only when its name occurs exactly once. */
  lemma ExactArgumentIff(input: Input, name: string, v: string)
    ensures ExactArgument(input, name) == Some(v) <==>
      exists i: nat :: OnlyNamed(input.arguments, name, i) && input.arguments[i].value == v
  {
    ValuesSpec(input.arguments, name);
    var matches := Values(input.arguments, name);
    assert ExactArgument(input, name) == Some(v) <==> matches == [v];
  }

  function Matching(inputs: seq<Input>, binding: Utf16): seq<Input> {
    if inputs == [] then []
    else (if Canonical(inputs[0].json) == binding then [inputs[0]] else []) + Matching(inputs[1..], binding)
  }

  /** STATUS speaks about this lineage and the current target. */
  predicate Speaks(status: Status, lineage: string) {
    && T.IsProcessString(lineage) && T.IsProcessString(status.lineageId) && T.IsProcessString(status.targetIdentity)
    && status.currentTarget && status.lineageId == lineage
  }

  /** The input carries the lineage and the target it must be captured for. */
  predicate Carries(input: Input, status: Status, lineage: string) {
    var target := ExactArgument(input, "target");
    && ExactArgument(input, "lineage") == Some(lineage)
    && target.Some? && T.IsProcessString(target.value) && target.value == input.correctionTarget.GetOr(status.targetIdentity)
  }

  /** `selectExactReviewCapture`; nothing is a rejection. */
  function SelectCapture(status: Status, lineage: string, binding: Utf16): Option<Input> {
    if !Speaks(status, lineage) || !status.collects then None
    else
      var matches := Matching(status.inputs, binding);
      if |matches| != 1 || !Carries(matches[0], status, lineage) then None else Some(matches[0])
  }

  lemma {:induction false} MatchingSpec(inputs: seq<Input>, binding: Utf16)
    ensures forall m :: m in Matching(inputs, binding) <==> m in inputs && Canonical(m.json) == binding
    ensures |Matching(inputs, binding)| == 1 <==>
      exists i :: 0 <= i < |inputs| && OnlyMatch(inputs, binding, i)
  {
    if inputs != [] {
      MatchingSpec(inputs[1..], binding);
      var rest := Matching(inputs[1..], binding);
      if Canonical(inputs[0].json) == binding {
        if rest == [] {
          forall j | 1 <= j < |inputs| ensures Canonical(inputs[j].json) != binding {
            assert inputs[j] in inputs[1..];
          }
          assert OnlyMatch(inputs, binding, 0);
        } else {
          assert rest[0] in rest;
          var j :| 0 <= j < |inputs[1..]| && inputs[1..][j] == rest[0];
          assert Canonical(inputs[j + 1].json) == binding;
        }
      } else {
        if i :| 0 <= i < |inputs[1..]| && OnlyMatch(inputs[1..], binding, i) {
          assert OnlyMatch(inputs, binding, i + 1) by {
            forall j | 0 <= j < |inputs| && Canonical(inputs[j].json) == binding ensures j == i + 1 {
              assert inputs[1..][j - 1] == inputs[j];
            }
          }
        }
        if i :| 0 <= i < |inputs| && OnlyMatch(inputs, binding, i) {
          assert OnlyMatch(inputs[1..], binding, i - 1) by {
            forall j | 0 <= j < |inputs[1..]| && Canonical(inputs[1..][j].json) == binding ensures j == i - 1 {
              assert inputs[j + 1] == inputs[1..][j];
            }
          }
        }
      }
    }
  }

  /** Input `i` prints as the binding and no other does. */
  ghost predicate OnlyMatch(inputs: seq<Input>, binding: Utf16, i: nat)
    requires i < |inputs|
  {
    && Canonical(inputs[i].json) == binding
    && forall j :: 0 <= j < |inputs| && Canonical(inputs[j].json) == binding ==> j == i
  }

  /** Input `i` is structurally the submitted value and no other is. */
  ghost predicate OnlyEquivalent(inputs: seq<Input>, v: Value, i: nat)
    requires i < |inputs|
  {
    && Equivalent(inputs[i].json, v, true)
    && forall j :: 0 <= j < |inputs| && Equivalent(inputs[j].json, v, true) ==> j == i
  }

  /**
   A submitted JSON value selects a capture exactly when STATUS speaks for the lineage and exactly one current
   input is structurally equal to it and carries the right lineage and target; then that input is selected.
   */
  lemma SelectionIsStructural(status: Status, lineage: string, v: Value, read: NumberReader)
    requires WellFormed(v, read) && Sound(read)
    requires forall i :: 0 <= i < |status.inputs| ==> WellFormed(status.inputs[i].json, read)
    ensures SelectCapture(status, lineage, Canonical(v)).Some? <==>
      && Speaks(status, lineage) && status.collects
      && exists i :: 0 <= i < |status.inputs| && OnlyEquivalent(status.inputs, v, i) && Carries(status.inputs[i], status, lineage)
    ensures SelectCapture(status, lineage, Canonical(v)).Some? ==>
      var input := SelectCapture(status, lineage, Canonical(v)).value;
      input in status.inputs && Equivalent(input.json, v, true) && Carries(input, status, lineage)
  {
    var binding := Canonical(v);
    var matches := Matching(status.inputs, binding);
    MatchingSpec(status.inputs, binding);
    forall i | 0 <= i < |status.inputs|
      ensures Canonical(status.inputs[i].json) == binding <==> Equivalent(status.inputs[i].json, v, true)
    {
      CanonicalTextIsIdentity(status.inputs[i].json, v, read);
    }
    forall i | 0 <= i < |status.inputs|
      ensures OnlyMatch(status.inputs, binding, i) <==> OnlyEquivalent(status.inputs, v, i)
    {
    }
    forall i | 0 <= i < |status.inputs| && OnlyMatch(status.inputs, binding, i) && |matches| == 1
      ensures matches[0] == status.inputs[i]
    {
      assert matches[0] in matches;
      var j :| 0 <= j < |status.inputs| && status.inputs[j] == matches[0];
    }
  }

  // ----- Selecting a whole group -----

  const VALUE_SLOT := "{{value}}"

  predicate IsHostRelay(input: Input) {
    && input.captureOperation == "review.capture-result"
    && ExactArgument(input, "materialize") == Some("true") && ExactArgument(input, "agent") == Some("pi")
  }

  function Bindings(inputs: seq<Input>): (r: seq<Utf16>)
    ensures |r| == |inputs| && forall i :: 0 <= i < |r| ==> r[i] == Canonical(inputs[i].json)
  {
    if inputs == [] then [] else [Canonical(inputs[0].json)] + Bindings(inputs[1..])
  }

  /** `resolveReviewHostRelaySubmission` does not throw. */
  predicate Resolvable(s: Submission) {
    && s.operationToken != "" && s.argumentTokens != [] && (forall t :: t in s.argumentTokens ==> t != "")
    && |s.values| == 1 && 0 <= s.values[0].location < |s.argumentTokens|
    && T.IndexOf(s.argumentTokens[s.values[0].location], VALUE_SLOT, 0) != -1
  }

  /** The slot binds one reviewer result of this lineage, target, revision and repository context. */
  predicate SlotOk(input: Input, status: Status, lineage: string, revision: string, context: string) {
    && input.subject.Some? && input.submission.Some?
    && ExactArgument(input, "lineage") == Some(lineage)
    && ExactArgument(input, "target") == Some(status.targetIdentity)
    && ExactArgument(input, "expected-revision") == Some(revision)
    && ExactArgument(input, "repository-context") == Some(context)
    && ExactArgument(input, "subject-hash") == Some(input.subject.value.subjectHash)
    && input.subject.value.lineageId == lineage && input.subject.value.authorityRevision == revision
    && input.subject.value.targetIdentity == status.targetIdentity
    && ExactArgument(input, "lens") == Some(input.subject.value.lens)
    && ExactArgument(input, "order") == Some(input.subject.value.selectedOrder)
    && Resolvable(input.submission.value)
    && input.submission.value.operationToken == "capture-result"
    && input.submission.value.values[0].slot == "reviewer_result"
    && input.submission.value.values[0].domain == "artifact_path_or_stdin"
  }

  function Lens(input: Input): string {
    if input.subject.Some? then input.subject.value.lens else ""
  }

  function Order(input: Input): string {
    if input.subject.Some? then input.subject.value.selectedOrder else ""
  }

  function SubjectHash(input: Input): string {
    if input.subject.Some? then input.subject.value.subjectHash else ""
  }

  predicate Distinct(a: Input, b: Input) {
    Lens(a) != Lens(b) && Order(a) != Order(b) && SubjectHash(a) != SubjectHash(b)
  }

  ghost predicate DistinctSlots(inputs: seq<Input>) {
    forall i, j :: 0 <= i < j < |inputs| ==> Distinct(inputs[i], inputs[j])
  }

  /** STATUS binds one revision and repository context, and its first input names the same. */
  predicate ContextOk(status: Status) {
    && status.inputs != [] && status.context.Some?
    && ExactArgument(status.inputs[0], "expected-revision") == Some(status.context.value.revision)
    && ExactArgument(status.inputs[0], "repository-context") == Some(status.context.value.handle)
    && T.IsProcessString(status.context.value.revision) && T.IsProcessString(status.context.value.handle)
    && status.context.value.targetIdentity == status.targetIdentity
  }

  /** The bindings of all inputs, every one of them for the host relay. */
  predicate IsCompleteGroup(status: Status, bindings: seq<Utf16>) {
    && status.collects && status.inputs != []
    && (forall i :: 0 <= i < |status.inputs| ==> IsHostRelay(status.inputs[i]))
    && bindings == Bindings(status.inputs)
  }

  predicate AllDifferent(bindings: seq<Utf16>)
    ensures AllDifferent(bindings) <==> NoDup(bindings)
  {
    forall i, j :: 0 <= i < j < |bindings| ==> bindings[i] != bindings[j]
  }

  /** What a group request must meet: the complete, distinct, current reviewer group in provider order. */
  ghost predicate GroupOffered(status: Status, lineage: string, bindings: seq<Utf16>) {
    && IsCompleteGroup(status, bindings) && NoDup(bindings)
    && SelectCapture(status, lineage, bindings[0]).Some?
    && ContextOk(status)
    && GroupOk(status.inputs, status, lineage, status.context.value.revision, status.context.value.handle)
  }

  /** The arguments every slot of a group carries, each exactly once. */
  ghost predicate CarriesSubject(input: Input, lineage: string, context: RepositoryContext, s: Subject) {
    && ExactArgument(input, "materialize") == Some("true") && ExactArgument(input, "agent") == Some("pi")
    && ExactArgument(input, "lineage") == Some(lineage) && ExactArgument(input, "target") == Some(s.targetIdentity)
    && ExactArgument(input, "expected-revision") == Some(context.revision)
    && ExactArgument(input, "repository-context") == Some(context.handle)
    && ExactArgument(input, "subject-hash") == Some(s.subjectHash)
    && ExactArgument(input, "lens") == Some(s.lens) && ExactArgument(input, "order") == Some(s.selectedOrder)
  }

  /** A submission that takes one reviewer result, by path or standard input, into a token that has a place for it. */
  ghost predicate TakesOneResult(s: Submission) {
    && s.operationToken == "capture-result" && "" !in s.argumentTokens
    && exists location: nat, k: nat ::
         && s.values == [SubmissionValue("reviewer_result", "artifact_path_or_stdin", location)]
         && location < |s.argumentTokens| && T.MatchesAt(s.argumentTokens[location], "{{value}}", k)
  }

  /** A slot whose subject belongs to this lineage, revision and target, with the arguments and the submission that go with it. */
  ghost predicate BoundSlot(input: Input, status: Status, lineage: string, context: RepositoryContext) {
    && input.captureOperation == "review.capture-result"
    && input.subject.Some? && input.submission.Some? && TakesOneResult(input.submission.value)
    && var s := input.subject.value;
       && s.lineageId == lineage && s.authorityRevision == context.revision && s.targetIdentity == status.targetIdentity
       && CarriesSubject(input, lineage, context, s)
  }

  /** STATUS speaks for this lineage, its current target and one repository context. */
  ghost predicate BoundStatus(status: Status, lineage: string) {
    && status.collects && status.inputs != [] && status.currentTarget && status.lineageId == lineage
    && status.context.Some? && status.context.value.targetIdentity == status.targetIdentity
    && T.IsProcessString(lineage) && T.IsProcessString(status.targetIdentity)
    && T.IsProcessString(status.context.value.revision) && T.IsProcessString(status.context.value.handle)
  }

  /** The group STATUS offers, told field by field. */
  ghost predicate BoundGroup(status: Status, lineage: string, bindings: seq<Utf16>) {
    && BoundStatus(status, lineage) && |bindings| == |status.inputs|
    && (forall i :: 0 <= i < |bindings| ==>
          Canonical(status.inputs[i].json) == bindings[i] && BoundSlot(status.inputs[i], status, lineage, status.context.value))
    && (status.inputs[0].correctionTarget.Some? ==> status.inputs[0].correctionTarget.value == status.targetIdentity)
    && (forall i, j :: 0 <= i < j < |bindings| ==> bindings[i] != bindings[j])
    && (forall i, j :: 0 <= i < j < |bindings| ==>
          var s, t := status.inputs[i].subject.value, status.inputs[j].subject.value;
          s.lens != t.lens && s.selectedOrder != t.selectedOrder && s.subjectHash != t.subjectHash)
  }

  lemma TakesOneResultIff(s: Submission)
    ensures TakesOneResult(s) <==>
      && Resolvable(s) && s.operationToken == "capture-result"
      && s.values[0].slot == "reviewer_result" && s.values[0].domain == "artifact_path_or_stdin"
  {
    if Resolvable(s) {
      var token := s.argumentTokens[s.values[0].location];
      assert T.MatchesAt(token, "{{value}}", T.IndexOf(token, VALUE_SLOT, 0));
      assert s.values == [SubmissionValue(s.values[0].slot, s.values[0].domain, s.values[0].location)];
    }
  }

  lemma BoundSlotIff(input: Input, status: Status, lineage: string, context: RepositoryContext)
    ensures BoundSlot(input, status, lineage, context) <==>
      IsHostRelay(input) && SlotOk(input, status, lineage, context.revision, context.handle)
  {
    if input.submission.Some? { TakesOneResultIff(input.submission.value); }
  }

  /** A group is accepted exactly when it is the one STATUS offers, field by field. */
  lemma OfferedGroupIsBound(status: Status, lineage: string, bindings: seq<Utf16>)
    ensures GroupOffered(status, lineage, bindings) <==> BoundGroup(status, lineage, bindings)
  {
    if GroupOffered(status, lineage, bindings) {
      OfferedIsBound(status, lineage, bindings);
    }
    if BoundGroup(status, lineage, bindings) {
      BoundIsOffered(status, lineage, bindings);
    }
  }

  /** The first binding of distinct ones selects the first input and nothing else. */
  lemma FirstIsMatched(status: Status, bindings: seq<Utf16>)
    requires status.inputs != [] && |bindings| == |status.inputs| && NoDup(bindings)
    requires forall i :: 0 <= i < |bindings| ==> Canonical(status.inputs[i].json) == bindings[i]
    ensures Matching(status.inputs, bindings[0]) == [status.inputs[0]]
  {
    MatchingSpec(status.inputs, bindings[0]);
    assert OnlyMatch(status.inputs, bindings[0], 0);
    var matches := Matching(status.inputs, bindings[0]);
    assert matches[0] in matches;
    var j :| 0 <= j < |status.inputs| && status.inputs[j] == matches[0];
    assert matches == [matches[0]];
  }

  lemma OfferedIsBound(status: Status, lineage: string, bindings: seq<Utf16>)
    requires GroupOffered(status, lineage, bindings)
    ensures BoundGroup(status, lineage, bindings)
  {
    var context := status.context.value;
    FirstIsMatched(status, bindings);
    assert Carries(status.inputs[0], status, lineage);
    forall i | 0 <= i < |bindings| ensures BoundSlot(status.inputs[i], status, lineage, context) {
      BoundSlotIff(status.inputs[i], status, lineage, context);
    }
    assert SlotOk(status.inputs[0], status, lineage, context.revision, context.handle);
    forall i, j | 0 <= i < j < |bindings|
      ensures var s, t := status.inputs[i].subject.value, status.inputs[j].subject.value;
        s.lens != t.lens && s.selectedOrder != t.selectedOrder && s.subjectHash != t.subjectHash
    {
      assert Distinct(status.inputs[i], status.inputs[j]);
    }
  }

  lemma BoundIsOffered(status: Status, lineage: string, bindings: seq<Utf16>)
    requires BoundGroup(status, lineage, bindings)
    ensures GroupOffered(status, lineage, bindings)
  {
    var context := status.context.value;
    forall i | 0 <= i < |bindings|
      ensures IsHostRelay(status.inputs[i]) && SlotOk(status.inputs[i], status, lineage, context.revision, context.handle)
    {
      BoundSlotIff(status.inputs[i], status, lineage, context);
    }
    BoundSubjectsDiffer(status, lineage, bindings);
    FirstIsSelected(status, lineage, bindings);
    assert bindings == Bindings(status.inputs);
  }

  lemma BoundSubjectsDiffer(status: Status, lineage: string, bindings: seq<Utf16>)
    requires BoundGroup(status, lineage, bindings)
    ensures DistinctSlots(status.inputs)
  {
    forall i, j | 0 <= i < j < |status.inputs| ensures Distinct(status.inputs[i], status.inputs[j]) {
      assert BoundSlot(status.inputs[i], status, lineage, status.context.value);
      assert BoundSlot(status.inputs[j], status, lineage, status.context.value);
    }
  }

  lemma FirstIsSelected(status: Status, lineage: string, bindings: seq<Utf16>)
    requires BoundGroup(status, lineage, bindings)
    ensures SelectCapture(status, lineage, bindings[0]).Some? && ContextOk(status)
  {
    FirstIsMatched(status, bindings);
    assert BoundSlot(status.inputs[0], status, lineage, status.context.value);
  }

  /** What a selected single capture is bound to; a correction may name its own target. */
  lemma SelectedCaptureIsBound(status: Status, lineage: string, binding: Utf16)
    requires SelectCapture(status, lineage, binding).Some?
    ensures var input := SelectCapture(status, lineage, binding).value;
      && input in status.inputs && Canonical(input.json) == binding
      && status.collects && status.currentTarget && status.lineageId == lineage && lineage != ""
      && ExactArgument(input, "lineage") == Some(lineage)
      && ExactArgument(input, "target") == Some(if input.correctionTarget.Some? then input.correctionTarget.value else status.targetIdentity)
  {
    MatchingSpec(status.inputs, binding);
    assert Matching(status.inputs, binding)[0] in Matching(status.inputs, binding);
  }

  /** `selectExactReviewCaptureGroup`. */
  method SelectGroup(status: Status, lineage: string, bindings: seq<Utf16>) returns (accepted: bool)
    ensures accepted <==> GroupOffered(status, lineage, bindings)
  {
    if !IsCompleteGroup(status, bindings) || !AllDifferent(bindings) {
      return false;
    }
    if SelectCapture(status, lineage, bindings[0]).None? || !ContextOk(status) {
      return false;
    }
    accepted := CheckSlots(status, lineage, status.context.value.revision, status.context.value.handle);
  }

  /** The identities seen so far, as the loop keeps them. */
  datatype Seen = Seen(lenses: set<string>, orders: set<string>, hashes: set<string>) {
    predicate Repeats(input: Input) {
      Lens(input) in lenses || Order(input) in orders || SubjectHash(input) in hashes
    }

    function With(input: Input): Seen {
      Seen(lenses + {Lens(input)}, orders + {Order(input)}, hashes + {SubjectHash(input)})
    }
  }

  ghost predicate SlotsOk(inputs: seq<Input>, status: Status, lineage: string, revision: string, context: string) {
    forall i :: 0 <= i < |inputs| ==> SlotOk(inputs[i], status, lineage, revision, context)
  }

  /** These are the values of one identity over the inputs. */
  ghost predicate Knows(known: set<string>, inputs: seq<Input>, identity: Input -> string) {
    forall x :: x in known <==> exists i :: 0 <= i < |inputs| && identity(inputs[i]) == x
  }

  ghost predicate SeenIn(seen: Seen, inputs: seq<Input>) {
    Knows(seen.lenses, inputs, Lens) && Knows(seen.orders, inputs, Order) && Knows(seen.hashes, inputs, SubjectHash)
  }

  lemma KnowsStep(known: set<string>, inputs: seq<Input>, input: Input, identity: Input -> string)
    requires Knows(known, inputs, identity)
    ensures Knows(known + {identity(input)}, inputs + [input], identity)
    ensures identity(input) in known <==> exists i :: 0 <= i < |inputs| && identity(inputs[i]) == identity(input)
  {
    var longer := inputs + [input];
    forall x ensures x in known + {identity(input)} <==> exists i :: 0 <= i < |longer| && identity(longer[i]) == x {
      if x in known {
        var i :| 0 <= i < |inputs| && identity(inputs[i]) == x;
        assert identity(longer[i]) == x;
      }
      assert identity(longer[|inputs|]) == identity(input);
    }
  }

  lemma SeenStep(seen: Seen, inputs: seq<Input>, input: Input)
    requires SeenIn(seen, inputs)
    ensures SeenIn(seen.With(input), inputs + [input])
    ensures seen.Repeats(input) <==> exists i :: 0 <= i < |inputs| && !Distinct(inputs[i], input)
  {
    KnowsStep(seen.lenses, inputs, input, Lens);
    KnowsStep(seen.orders, inputs, input, Order);
    KnowsStep(seen.hashes, inputs, input, SubjectHash);
  }

  lemma DistinctStep(inputs: seq<Input>, input: Input)
    ensures DistinctSlots(inputs + [input]) <==>
      DistinctSlots(inputs) && !exists i :: 0 <= i < |inputs| && !Distinct(inputs[i], input)
  {
    var longer := inputs + [input];
    assert longer[|inputs|] == input && forall i :: 0 <= i < |inputs| ==> longer[i] == inputs[i];
    if DistinctSlots(longer) {
      forall i | 0 <= i < |inputs| ensures Distinct(inputs[i], input) {
        assert Distinct(longer[i], longer[|inputs|]);
      }
    }
  }

  ghost predicate GroupOk(inputs: seq<Input>, status: Status, lineage: string, revision: string, context: string) {
    SlotsOk(inputs, status, lineage, revision, context) && DistinctSlots(inputs)
  }

  /** One turn of the loop: the prefix stays good exactly when the next slot is valid and repeats nothing. */
  lemma SlotStep(inputs: seq<Input>, n: nat, seen: Seen, status: Status, lineage: string, revision: string, context: string)
    requires n < |inputs| && SeenIn(seen, inputs[..n])
    ensures SeenIn(seen.With(inputs[n]), inputs[..n + 1])
    ensures GroupOk(inputs[..n + 1], status, lineage, revision, context) <==>
      && GroupOk(inputs[..n], status, lineage, revision, context)
      && SlotOk(inputs[n], status, lineage, revision, context) && !seen.Repeats(inputs[n])
  {
    assert inputs[..n + 1] == inputs[..n] + [inputs[n]];
    SeenStep(seen, inputs[..n], inputs[n]);
    DistinctStep(inputs[..n], inputs[n]);
    SlotsOkStep(inputs[..n], inputs[n], status, lineage, revision, context);
  }

  lemma SlotsOkStep(inputs: seq<Input>, input: Input, status: Status, lineage: string, revision: string, context: string)
    ensures SlotsOk(inputs + [input], status, lineage, revision, context) <==>
      SlotsOk(inputs, status, lineage, revision, context) && SlotOk(input, status, lineage, revision, context)
  {
    var longer := inputs + [input];
    assert longer[|inputs|] == input;
    forall i | 0 <= i < |inputs| ensures longer[i] == inputs[i] {
    }
  }

  /** A group with a bad prefix is bad. */
  lemma GroupPrefixOk(inputs: seq<Input>, n: nat, status: Status, lineage: string, revision: string, context: string)
    requires n <= |inputs|
    ensures GroupOk(inputs, status, lineage, revision, context) ==> GroupOk(inputs[..n], status, lineage, revision, context)
  {
  }

  /** The loop over the slots, with the three sets that reject repeated identities. */
  method CheckSlots(status: Status, lineage: string, revision: string, context: string) returns (ok: bool)
    ensures ok <==> GroupOk(status.inputs, status, lineage, revision, context)
  {
    var inputs := status.inputs;
    var seen := Seen({}, {}, {});
    for index := 0 to |inputs|
      invariant SeenIn(seen, inputs[..index]) && GroupOk(inputs[..index], status, lineage, revision, context)
    {
      SlotStep(inputs, index, seen, status, lineage, revision, context);
      GroupPrefixOk(inputs, index + 1, status, lineage, revision, context);
      if !SlotOk(inputs[index], status, lineage, revision, context) || seen.Repeats(inputs[index]) {
        return false;
      }
      seen := seen.With(inputs[index]);
    }
    assert inputs[..|inputs|] == inputs;
    ok := true;
  }

  // ----- The provider and the host -----

  datatype StatusReply = Answered(status: Status) | TransportRefused | StatusFailed

  /**
   What comes back from one submission. A closure ends the review; a refusal says nothing was consumed; after
   an unknown outcome only the provider knows whether it committed.
   */
  datatype SubmitReply = Accepted(closes: bool) | Refused | Unknown(committed: bool)

  datatype ReviewersReply = Prepared(count: nat) | ReviewersFailed

  /** An arbitrary provider: its n-th STATUS and its reply to submission n can be anything. */
  datatype Environment = Environment(status: nat -> StatusReply, submit: nat -> SubmitReply, reviewers: ReviewersReply)

  datatype Occurrence =
    | AskedStatus(reply: StatusReply)
    | RanReviewers
    | Submitted(index: nat, result: SubmitReply)

  datatype MutationOutcome = NoMutation | UnknownMutation | PartialUnknown | Partial | Completed

  datatype Reason =
    | StatusUnavailable
    | GroupRejected
    | Forecast
    | ReviewersUnavailable
    | AuthorityDrift
    | CaptureRejected
    | SubmissionRefused
    | LastEventClosed
    | Reconciled

  datatype Report = Report(reason: Reason, submitted: nat, outcome: MutationOutcome)

  /** `reviewHostRelayGroupProgress`. */
  function Progress(reason: Reason, slots: nat, submitted: nat, uncertain: bool): Report {
    Report(reason, submitted,
           if submitted == 0 then if uncertain then UnknownMutation else NoMutation
           else if uncertain then PartialUnknown
           else if submitted == slots then Completed
           else Partial)
  }

  /** `hasExactReviewCaptureSuffix`: the capture results STATUS offers are exactly these bindings. */
  predicate SuffixOffered(status: Status, expected: seq<Utf16>) {
    Bindings(CaptureResults(if status.collects then status.inputs else [])) == expected
  }

  function CaptureResults(inputs: seq<Input>): seq<Input> {
    if inputs == [] then []
    else (if inputs[0].captureOperation == "review.capture-result" then [inputs[0]] else []) + CaptureResults(inputs[1..])
  }

  /** An input is a capture result exactly when it has that operation, and keeps its place among them. */
  lemma CaptureResultsCons(x: Input, rest: seq<Input>)
    ensures CaptureResults([x] + rest)
         == (if x.captureOperation == "review.capture-result" then [x] else []) + CaptureResults(rest)
  {
    assert ([x] + rest)[1..] == rest;
  }

  lemma {:induction false} AllCaptureResults(inputs: seq<Input>)
    requires forall i :: 0 <= i < |inputs| ==> inputs[i].captureOperation == "review.capture-result"
    ensures CaptureResults(inputs) == inputs
  {
    if inputs != [] { AllCaptureResults(inputs[1..]); }
  }

  /** Without a collect transition only the empty rest is offered; with nothing but capture results, exactly their bindings in order. */
  lemma SuffixOfferedIff(status: Status, expected: seq<Utf16>)
    ensures !status.collects ==> (SuffixOffered(status, expected) <==> expected == [])
    ensures status.collects && (forall i :: 0 <= i < |status.inputs| ==> status.inputs[i].captureOperation == "review.capture-result") ==>
      (SuffixOffered(status, expected) <==>
        |expected| == |status.inputs| && forall i :: 0 <= i < |expected| ==> expected[i] == Canonical(status.inputs[i].json))
  {
    if status.collects && forall i :: 0 <= i < |status.inputs| ==> status.inputs[i].captureOperation == "review.capture-result" {
      AllCaptureResults(status.inputs);
    }
  }

  /** A run so far and, once it ended, its report. */
  datatype Trace = Trace(log: seq<Occurrence>, report: Option<Report>)

  /** Why STATUS does not allow submitting binding `index` now, if it does not. */
  function Obstacle(reply: StatusReply, lineage: string, bindings: seq<Utf16>, index: nat): Option<Reason>
    requires index < |bindings|
  {
    if !reply.Answered? then Some(StatusUnavailable)
    else if !SuffixOffered(reply.status, bindings[index..]) then Some(AuthorityDrift)
    else if SelectCapture(reply.status, lineage, bindings[index]).None? then Some(CaptureRejected)
    else None
  }

  /** One turn of the submission loop. */
  function SubmitOne(env: Environment, lineage: string, bindings: seq<Utf16>, log: seq<Occurrence>, index: nat): Trace
    requires index < |bindings|
  {
    var reply := env.status(index + 1);
    var asked := log + [AskedStatus(reply)];
    var obstacle := Obstacle(reply, lineage, bindings, index);
    if obstacle.Some? then Trace(asked, Some(Progress(obstacle.value, |bindings|, index, false)))
    else
      var result := env.submit(index);
      var done := asked + [Submitted(index, result)];
      match result
      case Accepted(closes) =>
        Trace(done, if closes then Some(Progress(LastEventClosed, |bindings|, index + 1, false)) else None)
      case Refused => Trace(done, Some(Progress(SubmissionRefused, |bindings|, index, false)))
      case Unknown(_) => Trace(done, Some(Progress(Reconciled, |bindings|, index, true)))
  }

  function SubmitFrom(env: Environment, lineage: string, bindings: seq<Utf16>, log: seq<Occurrence>, index: nat): Trace
    requires index <= |bindings|
    decreases |bindings| - index
  {
    if index == |bindings| then Trace(log, Some(Progress(Reconciled, |bindings|, index, false)))
    else
      var turn := SubmitOne(env, lineage, bindings, log, index);
      if turn.report.Some? then turn else SubmitFrom(env, lineage, bindings, turn.log, index + 1)
  }

  /** The operation, given whether the first STATUS offers the group. */
  function ExecuteOffered(env: Environment, lineage: string, bindings: seq<Utf16>, offered: bool, acknowledged: bool): Trace {
    var asked := [AskedStatus(env.status(0))];
    if !env.status(0).Answered? then Trace(asked, Some(Report(StatusUnavailable, 0, NoMutation)))
    else if !offered then Trace(asked, Some(Report(GroupRejected, 0, NoMutation)))
    else if !acknowledged then Trace(asked, Some(Report(Forecast, 0, NoMutation)))
    else if env.reviewers != Prepared(|bindings|) then
      Trace(asked + [RanReviewers], Some(Report(ReviewersUnavailable, 0, NoMutation)))
    else SubmitFrom(env, lineage, bindings, asked + [RanReviewers], 0)
  }

  ghost predicate FirstOffers(env: Environment, lineage: string, bindings: seq<Utf16>) {
    env.status(0).Answered? && GroupOffered(env.status(0).status, lineage, bindings)
  }

  /** `executeReviewCaptureGroupOperation` for bindings that are already canonical. */
  ghost function Execute(env: Environment, lineage: string, bindings: seq<Utf16>, registered: bool, acknowledged: bool): Trace {
    if !registered then Trace([], Some(Report(GroupRejected, 0, NoMutation)))
    else ExecuteOffered(env, lineage, bindings, FirstOffers(env, lineage, bindings), acknowledged)
  }

  // ----- What a run can look like -----

  function Submissions(log: seq<Occurrence>): seq<nat> {
    if log == [] then []
    else
      var last := log[|log| - 1];
      Submissions(log[..|log| - 1]) + if last.Submitted? then [last.index] else []
  }

  /** The submissions the provider really took. */
  function Commits(log: seq<Occurrence>): nat {
    if log == [] then 0
    else
      var last := log[|log| - 1];
      Commits(log[..|log| - 1])
      + if last.Submitted? && (last.result.Accepted? || (last.result.Unknown? && last.result.committed)) then 1 else 0
  }

  predicate Counts(s: seq<nat>, n: nat) {
    |s| == n && forall i :: 0 <= i < n ==> s[i] == i
  }

  /** This occurrence is a STATUS that offers exactly what is left from `index` on, and selects its binding. */
  predicate OffersRest(o: Occurrence, index: nat, lineage: string, bindings: seq<Utf16>) {
    && o.AskedStatus? && o.reply.Answered? && index < |bindings|
    && SuffixOffered(o.reply.status, bindings[index..])
    && SelectCapture(o.reply.status, lineage, bindings[index]).Some?
  }

  /** Each submission comes right after a STATUS that offers exactly what is left. */
  predicate Guarded(log: seq<Occurrence>, lineage: string, bindings: seq<Utf16>) {
    forall p :: 0 <= p < |log| && log[p].Submitted? ==> p > 0 && OffersRest(log[p - 1], log[p].index, lineage, bindings)
  }

  lemma GuardedSnoc(log: seq<Occurrence>, o: Occurrence, lineage: string, bindings: seq<Utf16>)
    requires Guarded(log, lineage, bindings)
    requires o.Submitted? ==> log != [] && OffersRest(log[|log| - 1], o.index, lineage, bindings)
    ensures Guarded(log + [o], lineage, bindings)
  {
    var longer := log + [o];
    forall p | 0 <= p < |longer| && longer[p].Submitted?
      ensures p > 0 && OffersRest(longer[p - 1], longer[p].index, lineage, bindings)
    {
      if p < |log| {
        assert longer[p] == log[p];
      }
    }
  }

  /** The reported count is the number of commits, or one less and then flagged unknown. */
  predicate Honest(r: Report, commits: nat, slots: nat) {
    && (commits == r.submitted
        || (commits == r.submitted + 1 && (r.outcome == UnknownMutation || r.outcome == PartialUnknown)))
    && (r.outcome == Completed ==> commits == slots)
    && (r.outcome == NoMutation ==> commits == 0)
  }

  ghost predicate RunOk(t: Trace, lineage: string, bindings: seq<Utf16>) {
    && t.report.Some?
    && (exists n :: 0 <= n <= |bindings| && Counts(Submissions(t.log), n))
    && Guarded(t.log, lineage, bindings)
    && Honest(t.report.value, Commits(t.log), |bindings|)
  }

  /** What holds while the loop is at `index`: everything before was submitted once and committed. */
  ghost predicate LoopOk(log: seq<Occurrence>, lineage: string, bindings: seq<Utf16>, index: nat) {
    Counts(Submissions(log), index) && Commits(log) == index && Guarded(log, lineage, bindings)
  }

  /** Asking and running reviewers submits nothing. */
  lemma AskOk(log: seq<Occurrence>, o: Occurrence, lineage: string, bindings: seq<Utf16>, index: nat)
    requires LoopOk(log, lineage, bindings, index) && !o.Submitted?
    ensures LoopOk(log + [o], lineage, bindings, index)
  {
    GuardedSnoc(log, o, lineage, bindings);
    assert Submissions(log) + [] == Submissions(log);
  }

  lemma SubmittedOk(log: seq<Occurrence>, reply: SubmitReply, lineage: string, bindings: seq<Utf16>, index: nat)
    requires LoopOk(log, lineage, bindings, index) && log != [] && OffersRest(log[|log| - 1], index, lineage, bindings)
    ensures var done := log + [Submitted(index, reply)];
      && Counts(Submissions(done), index + 1) && Guarded(done, lineage, bindings)
      && Commits(done) == index + if reply.Accepted? || (reply.Unknown? && reply.committed) then 1 else 0
  {
    GuardedSnoc(log, Submitted(index, reply), lineage, bindings);
  }

  lemma SubmitOneOk(env: Environment, lineage: string, bindings: seq<Utf16>, log: seq<Occurrence>, index: nat)
    requires index < |bindings| && LoopOk(log, lineage, bindings, index)
    ensures var turn := SubmitOne(env, lineage, bindings, log, index);
      && (turn.report.Some? ==> RunOk(turn, lineage, bindings))
      && (turn.report.None? ==> LoopOk(turn.log, lineage, bindings, index + 1))
  {
    var reply := env.status(index + 1);
    var asked := log + [AskedStatus(reply)];
    AskOk(log, AskedStatus(reply), lineage, bindings, index);
    var turn := SubmitOne(env, lineage, bindings, log, index);
    if Obstacle(reply, lineage, bindings, index).None? {
      assert asked[|asked| - 1] == AskedStatus(reply);
      SubmittedOk(asked, env.submit(index), lineage, bindings, index);
      SubmittedReport(env, lineage, bindings, log, index);
      if turn.report.Some? { StoppedOk(turn.log, turn.report.value, lineage, bindings, index + 1); }
    } else {
      StoppedOk(asked, turn.report.value, lineage, bindings, index);
    }
  }

  /** What one submission reports against what it did. */
  lemma SubmittedReport(env: Environment, lineage: string, bindings: seq<Utf16>, log: seq<Occurrence>, index: nat)
    requires index < |bindings| && Obstacle(env.status(index + 1), lineage, bindings, index).None?
    ensures var turn := SubmitOne(env, lineage, bindings, log, index);
            var reply := env.submit(index);
            var committed := index + if reply.Accepted? || (reply.Unknown? && reply.committed) then 1 else 0;
      && turn.log == log + [AskedStatus(env.status(index + 1))] + [Submitted(index, reply)]
      && (turn.report.None? ==> committed == index + 1)
      && (turn.report.Some? ==> Honest(turn.report.value, committed, |bindings|))
  {
  }

  lemma StoppedOk(log: seq<Occurrence>, r: Report, lineage: string, bindings: seq<Utf16>, n: nat)
    requires n <= |bindings| && Counts(Submissions(log), n) && Guarded(log, lineage, bindings)
    requires Honest(r, Commits(log), |bindings|)
    ensures RunOk(Trace(log, Some(r)), lineage, bindings)
  {
  }

  lemma {:induction false} SubmitFromOk(env: Environment, lineage: string, bindings: seq<Utf16>, log: seq<Occurrence>, index: nat)
    requires index <= |bindings| && bindings != []
    requires LoopOk(log, lineage, bindings, index)
    ensures RunOk(SubmitFrom(env, lineage, bindings, log, index), lineage, bindings)
    decreases |bindings| - index
  {
    if index < |bindings| {
      SubmitOneOk(env, lineage, bindings, log, index);
      var turn := SubmitOne(env, lineage, bindings, log, index);
      if turn.report.None? {
        SubmitFromOk(env, lineage, bindings, turn.log, index + 1);
      }
    }
  }

  /**
   Main result, against any provider: submissions are a prefix of the requested bindings in order, each right
   after a STATUS offering exactly the remaining ones; the reported count is the number of commits, or one less
   and then flagged unknown; and without acknowledgement, registration or an exact offer nothing is run.
   */
  lemma GroupCaptureIsSafe(env: Environment, lineage: string, bindings: seq<Utf16>, registered: bool, acknowledged: bool)
    ensures var t := Execute(env, lineage, bindings, registered, acknowledged);
      && RunOk(t, lineage, bindings)
      && (RanReviewers in t.log ==> registered && acknowledged && FirstOffers(env, lineage, bindings))
      && (Submissions(t.log) != [] ==> RanReviewers in t.log)
  {
    NothingSubmittedYet(env.status(0), lineage, bindings);
    if registered && FirstOffers(env, lineage, bindings) {
      OfferedRunIsSafe(env, lineage, bindings, acknowledged);
    }
  }

  /** At this position the provider offers exactly the rest, and accepts the result without closing the review. */
  predicate Serves(env: Environment, lineage: string, bindings: seq<Utf16>, index: nat) {
    OffersRest(AskedStatus(env.status(index + 1)), index, lineage, bindings) && env.submit(index) == Accepted(false)
  }

  ghost predicate Cooperates(env: Environment, lineage: string, bindings: seq<Utf16>) {
    env.reviewers == Prepared(|bindings|) && forall i: nat :: i < |bindings| ==> Serves(env, lineage, bindings, i)
  }

  /** With such a provider an acknowledged, registered and offered group is submitted completely. */
  lemma CooperativeGroupCompletes(env: Environment, lineage: string, bindings: seq<Utf16>)
    requires FirstOffers(env, lineage, bindings) && Cooperates(env, lineage, bindings)
    ensures var t := Execute(env, lineage, bindings, true, true);
      && Counts(Submissions(t.log), |bindings|) && Commits(t.log) == |bindings|
      && t.report.Some? && t.report.value.submitted == |bindings| && t.report.value.outcome == Completed
  {
    NothingSubmittedYet(env.status(0), lineage, bindings);
    CooperativeLoop(env, lineage, bindings, [AskedStatus(env.status(0))] + [RanReviewers], 0);
  }

  lemma CooperativeTurn(env: Environment, lineage: string, bindings: seq<Utf16>, log: seq<Occurrence>, index: nat)
    returns (next: seq<Occurrence>)
    requires index < |bindings| && Serves(env, lineage, bindings, index) && LoopOk(log, lineage, bindings, index)
    ensures LoopOk(next, lineage, bindings, index + 1)
    ensures SubmitFrom(env, lineage, bindings, log, index) == SubmitFrom(env, lineage, bindings, next, index + 1)
  {
    SubmitOneOk(env, lineage, bindings, log, index);
    next := SubmitOne(env, lineage, bindings, log, index).log;
  }

  lemma {:induction false} CooperativeLoop(env: Environment, lineage: string, bindings: seq<Utf16>, log: seq<Occurrence>, index: nat)
    requires index <= |bindings| && bindings != [] && Cooperates(env, lineage, bindings)
    requires LoopOk(log, lineage, bindings, index)
    ensures var t := SubmitFrom(env, lineage, bindings, log, index);
      LoopOk(t.log, lineage, bindings, |bindings|) && t.report == Some(Report(Reconciled, |bindings|, Completed))
    decreases |bindings| - index
  {
    if index == |bindings| {
    } else {
      var next := CooperativeTurn(env, lineage, bindings, log, index);
      CooperativeLoop(env, lineage, bindings, next, index + 1);
    }
  }

  // ----- What exactly is exchanged, and why a run ends -----

  /** The only exchange there can be: STATUS, the reviewers, then STATUS and a submission for each binding in turn. */
  function Exchange(env: Environment, p: nat): Occurrence {
    if p == 0 then AskedStatus(env.status(0))
    else if p == 1 then RanReviewers
    else if p % 2 == 0 then AskedStatus(env.status(p / 2))
    else Submitted(p / 2 - 1, env.submit(p / 2 - 1))
  }

  /** The log is a beginning of that exchange, and goes on only after a submission that was accepted and closed nothing. */
  predicate Proceeds(env: Environment, log: seq<Occurrence>) {
    && (forall p :: 0 <= p < |log| ==> log[p] == Exchange(env, p))
    && (forall p :: 0 <= p < |log| - 1 && log[p].Submitted? ==> log[p].result == Accepted(false))
  }

  /** How many results were accepted. */
  function AcceptedCount(log: seq<Occurrence>): nat {
    if log == [] then 0
    else
      var last := log[|log| - 1];
      AcceptedCount(log[..|log| - 1]) + if last.Submitted? && last.result.Accepted? then 1 else 0
  }

  /** The bindings after the first `n`. */
  function Remaining(bindings: seq<Utf16>, n: nat): seq<Utf16> {
    if n <= |bindings| then bindings[n..] else []
  }

  /** Why a run ended, told from its log and the request alone. */
  ghost function WhyItEnded(log: seq<Occurrence>, lineage: string, bindings: seq<Utf16>): Reason {
    if log == [] then GroupRejected
    else
      match log[|log| - 1]
      case Submitted(_, result) =>
        if result.Refused? then SubmissionRefused else if result == Accepted(true) then LastEventClosed else Reconciled
      case RanReviewers => ReviewersUnavailable
      case AskedStatus(reply) =>
        if !reply.Answered? then StatusUnavailable
        else if |log| == 1 then if GroupOffered(reply.status, lineage, bindings) then Forecast else GroupRejected
        else if SuffixOffered(reply.status, Remaining(bindings, AcceptedCount(log))) then CaptureRejected
        else AuthorityDrift
  }

  /** A run ended where it had to: not earlier and not later. */
  ghost predicate EndedRightly(env: Environment, log: seq<Occurrence>, lineage: string, bindings: seq<Utf16>,
                               registered: bool, acknowledged: bool)
  {
    if log == [] then !registered
    else
      match log[|log| - 1]
      case Submitted(index, result) => result == Accepted(false) ==> index + 1 == |bindings|
      case RanReviewers => env.reviewers != Prepared(|bindings|)
      case AskedStatus(reply) =>
        reply.Answered? ==>
          if |log| == 1 then GroupOffered(reply.status, lineage, bindings) ==> !acknowledged
          else !OffersRest(log[|log| - 1], AcceptedCount(log), lineage, bindings)
  }

  /** The last result is unknown. */
  predicate EndsUnknown(log: seq<Occurrence>) {
    log != [] && log[|log| - 1].Submitted? && log[|log| - 1].result.Unknown?
  }

  ghost predicate ReportOk(log: seq<Occurrence>, r: Report, lineage: string, bindings: seq<Utf16>) {
    && r.reason == WhyItEnded(log, lineage, bindings) && r.submitted == AcceptedCount(log)
    && r.outcome == OutcomeOf(EndsUnknown(log), r.submitted, |bindings|)
  }

  ghost predicate Explained(env: Environment, t: Trace, lineage: string, bindings: seq<Utf16>, registered: bool, acknowledged: bool) {
    && t.report.Some? && Proceeds(env, t.log) && EndedRightly(env, t.log, lineage, bindings, registered, acknowledged)
    && ReportOk(t.log, t.report.value, lineage, bindings)
  }

  /** The outcome for a count of accepted results, and whether the last result is unknown. */
  function OutcomeOf(unknown: bool, accepted: nat, slots: nat): MutationOutcome {
    match (unknown, accepted == 0)
    case (true, true) => UnknownMutation
    case (true, false) => PartialUnknown
    case (false, true) => NoMutation
    case (false, false) => if accepted == slots then Completed else Partial
  }

  /** The loop stands before binding `index`. */
  ghost predicate AtIndex(env: Environment, log: seq<Occurrence>, index: nat) {
    && |log| == 2 * index + 2 && Proceeds(env, log) && AcceptedCount(log) == index
    && (index > 0 ==> log[|log| - 1] == Submitted(index - 1, Accepted(false)))
  }

  lemma ProceedsSnoc(env: Environment, log: seq<Occurrence>, o: Occurrence)
    requires Proceeds(env, log) && o == Exchange(env, |log|)
    requires log != [] && log[|log| - 1].Submitted? ==> log[|log| - 1].result == Accepted(false)
    ensures Proceeds(env, log + [o])
    ensures AcceptedCount(log + [o]) == AcceptedCount(log) + if o.Submitted? && o.result.Accepted? then 1 else 0
  {
    var longer := log + [o];
    assert longer[..|log|] == log;
    forall p | 0 <= p < |longer| ensures longer[p] == Exchange(env, p) {
      if p < |log| { assert longer[p] == log[p]; }
    }
    forall p | 0 <= p < |log| && longer[p].Submitted? ensures longer[p].result == Accepted(false) {
      assert longer[p] == log[p];
    }
  }

  lemma ExchangeAt(env: Environment, index: nat)
    ensures Exchange(env, 2 * index + 2) == AskedStatus(env.status(index + 1))
    ensures Exchange(env, 2 * index + 3) == Submitted(index, env.submit(index))
  {
    assert (2 * index + 3) / 2 == index + 1 && (2 * index + 2) / 2 == index + 1;
  }

  lemma ProgressOutcome(reason: Reason, slots: nat, submitted: nat, uncertain: bool)
    ensures Progress(reason, slots, submitted, uncertain) == Report(reason, submitted, OutcomeOf(uncertain, submitted, slots))
  {
  }

  /** STATUS in front of a binding stands in the way. */
  lemma ObstacleEnds(env: Environment, lineage: string, bindings: seq<Utf16>, asked: seq<Occurrence>, reply: StatusReply, index: nat)
    requires |asked| > 1 && asked[|asked| - 1] == AskedStatus(reply)
    requires index == AcceptedCount(asked) < |bindings| && Obstacle(reply, lineage, bindings, index).Some?
    ensures WhyItEnded(asked, lineage, bindings) == Obstacle(reply, lineage, bindings, index).value
    ensures EndedRightly(env, asked, lineage, bindings, true, true)
  {
    assert Remaining(bindings, index) == bindings[index..];
  }

  /** A result that ends the run is reported for what it is. */
  lemma LastResultEnds(env: Environment, lineage: string, bindings: seq<Utf16>, done: seq<Occurrence>, index: nat, reply: SubmitReply)
    requires done != [] && done[|done| - 1] == Submitted(index, reply)
    requires reply == Accepted(false) ==> index + 1 == |bindings|
    ensures WhyItEnded(done, lineage, bindings)
         == if reply.Refused? then SubmissionRefused else if reply == Accepted(true) then LastEventClosed else Reconciled
    ensures EndedRightly(env, done, lineage, bindings, true, true) && (EndsUnknown(done) <==> reply.Unknown?)
  {
  }

  lemma TurnExplained(env: Environment, lineage: string, bindings: seq<Utf16>, log: seq<Occurrence>, index: nat)
    requires index < |bindings| && AtIndex(env, log, index)
    ensures var turn := SubmitOne(env, lineage, bindings, log, index);
      && (turn.report.Some? ==> Explained(env, turn, lineage, bindings, true, true))
      && (turn.report.None? ==> AtIndex(env, turn.log, index + 1))
  {
    var status, result := env.status(index + 1), env.submit(index);
    var asked := log + [AskedStatus(status)];
    var turn := SubmitOne(env, lineage, bindings, log, index);
    ExchangeAt(env, index);
    ProceedsSnoc(env, log, AskedStatus(status));
    var obstacle := Obstacle(status, lineage, bindings, index);
    if obstacle.Some? {
      ObstacleEnds(env, lineage, bindings, asked, status, index);
      ProgressOutcome(obstacle.value, |bindings|, index, false);
    } else {
      SubmissionExplained(env, lineage, bindings, asked, turn, index, result);
    }
  }

  lemma SubmissionExplained(env: Environment, lineage: string, bindings: seq<Utf16>, asked: seq<Occurrence>,
                            turn: Trace, index: nat, result: SubmitReply)
    requires index < |bindings| && |asked| == 2 * index + 3 && Proceeds(env, asked) && AcceptedCount(asked) == index
    requires asked[|asked| - 1].AskedStatus? && result == env.submit(index)
    requires turn == Trace(asked + [Submitted(index, result)],
                           match result
                           case Accepted(closes) =>
                             if closes then Some(Progress(LastEventClosed, |bindings|, index + 1, false)) else None
                           case Refused => Some(Progress(SubmissionRefused, |bindings|, index, false))
                           case Unknown(_) => Some(Progress(Reconciled, |bindings|, index, true)))
    ensures turn.report.Some? ==> Explained(env, turn, lineage, bindings, true, true)
    ensures turn.report.None? ==> AtIndex(env, turn.log, index + 1)
  {
    ExchangeAt(env, index);
    ProceedsSnoc(env, asked, Submitted(index, result));
    if result != Accepted(false) {
      LastResultEnds(env, lineage, bindings, turn.log, index, result);
      var r := turn.report.value;
      ProgressOutcome(r.reason, |bindings|, r.submitted, result.Unknown?);
    }
  }

  lemma {:induction false} LoopExplained(env: Environment, lineage: string, bindings: seq<Utf16>, log: seq<Occurrence>, index: nat)
    requires index <= |bindings| && bindings != [] && AtIndex(env, log, index)
    ensures Explained(env, SubmitFrom(env, lineage, bindings, log, index), lineage, bindings, true, true)
    decreases |bindings| - index
  {
    if index == |bindings| {
      LastResultEnds(env, lineage, bindings, log, index - 1, Accepted(false));
      ProgressOutcome(Reconciled, |bindings|, index, false);
    } else {
      var turn := SubmitOne(env, lineage, bindings, log, index);
      TurnExplained(env, lineage, bindings, log, index);
      if turn.report.None? { LoopExplained(env, lineage, bindings, turn.log, index + 1); }
    }
  }

  /**
   Main result, against any provider: the log is a beginning of the one possible exchange, it stops exactly where it has
   to, a closing, refused or unknown result is the last thing in it, and the report says why it ended, how many results
   were accepted and whether the last one is unknown.
   */
  lemma GroupCaptureIsExplained(env: Environment, lineage: string, bindings: seq<Utf16>, registered: bool, acknowledged: bool)
    ensures Explained(env, Execute(env, lineage, bindings, registered, acknowledged), lineage, bindings, registered, acknowledged)
  {
    var asked := [AskedStatus(env.status(0))];
    assert AcceptedCount([]) == 0 && Proceeds(env, []);
    ProceedsSnoc(env, [], AskedStatus(env.status(0)));
    assert [] + [AskedStatus(env.status(0))] == asked;
    ProceedsSnoc(env, asked, RanReviewers);
    if registered && FirstOffers(env, lineage, bindings) && acknowledged && env.reviewers == Prepared(|bindings|) {
      LoopExplained(env, lineage, bindings, asked + [RanReviewers], 0);
    }
  }

  lemma OfferedRunIsSafe(env: Environment, lineage: string, bindings: seq<Utf16>, acknowledged: bool)
    requires bindings != []
    ensures var t := ExecuteOffered(env, lineage, bindings, true, acknowledged);
      && RunOk(t, lineage, bindings)
      && (RanReviewers in t.log ==> acknowledged)
      && (Submissions(t.log) != [] ==> RanReviewers in t.log)
  {
    NothingSubmittedYet(env.status(0), lineage, bindings);
    var ran := [AskedStatus(env.status(0))] + [RanReviewers];
    SubmitFromOk(env, lineage, bindings, ran, 0);
    assert ran[1] == RanReviewers;
    LoopKeeps(env, lineage, bindings, ran, 0, RanReviewers);
  }

  lemma NothingSubmittedYet(reply: StatusReply, lineage: string, bindings: seq<Utf16>)
    ensures LoopOk([], lineage, bindings, 0) && LoopOk([AskedStatus(reply)], lineage, bindings, 0)
    ensures LoopOk([AskedStatus(reply)] + [RanReviewers], lineage, bindings, 0)
  {
    var none, asked := [], [AskedStatus(reply)];
    assert LoopOk(none, lineage, bindings, 0);
    AskOk(none, AskedStatus(reply), lineage, bindings, 0);
    assert none + [AskedStatus(reply)] == asked;
    AskOk(asked, RanReviewers, lineage, bindings, 0);
  }

  lemma TurnKeeps(env: Environment, lineage: string, bindings: seq<Utf16>, log: seq<Occurrence>, index: nat, o: Occurrence)
    returns (turn: Trace)
    requires index < |bindings| && o in log
    ensures turn.report.Some? ==> o in SubmitFrom(env, lineage, bindings, log, index).log
    ensures turn.report.None? ==> o in turn.log
    ensures turn.report.None? ==>
      SubmitFrom(env, lineage, bindings, log, index) == SubmitFrom(env, lineage, bindings, turn.log, index + 1)
  {
    turn := SubmitOne(env, lineage, bindings, log, index);
  }

  lemma {:induction false} LoopKeeps(env: Environment, lineage: string, bindings: seq<Utf16>, log: seq<Occurrence>, index: nat, o: Occurrence)
    requires index <= |bindings| && o in log
    ensures o in SubmitFrom(env, lineage, bindings, log, index).log
    decreases |bindings| - index
  {
    if index < |bindings| {
      var turn := TurnKeeps(env, lineage, bindings, log, index, o);
      if turn.report.None? {
        LoopKeeps(env, lineage, bindings, turn.log, index + 1, o);
      }
    }
  }

  // ----- The operation -----

  /** The provider as the operation sees it: every exchange is recorded. */
  class Provider {
    const env: Environment
    ghost var log: seq<Occurrence>
    var statusCount: nat

    constructor (env: Environment)
      ensures this.env == env && log == [] && statusCount == 0
    {
      this.env := env;
      log, statusCount := [], 0;
    }

    method FreshStatus() returns (reply: StatusReply)
      modifies this
      ensures reply == env.status(old(statusCount)) && statusCount == old(statusCount) + 1
      ensures log == old(log) + [AskedStatus(reply)]
    {
      reply := env.status(statusCount);
      statusCount := statusCount + 1;
      log := log + [AskedStatus(reply)];
    }

    method RunReviewerGroup() returns (reply: ReviewersReply)
      modifies this`log
      ensures reply == env.reviewers && log == old(log) + [RanReviewers]
    {
      reply := env.reviewers;
      log := log + [RanReviewers];
    }

    method SubmitPrepared(index: nat) returns (reply: SubmitReply)
      modifies this`log
      ensures reply == env.submit(index) && log == old(log) + [Submitted(index, reply)]
    {
      reply := env.submit(index);
      log := log + [Submitted(index, reply)];
    }
  }

  method ExecuteGroup(provider: Provider, lineage: string, bindings: seq<Utf16>, registered: bool, acknowledged: bool)
    returns (report: Report)
    requires provider.log == [] && provider.statusCount == 0
    modifies provider
    ensures Trace(provider.log, Some(report)) == Execute(provider.env, lineage, bindings, registered, acknowledged)
  {
    if !registered {
      return Report(GroupRejected, 0, NoMutation);
    }
    var first := provider.FreshStatus();
    if !first.Answered? {
      return Report(StatusUnavailable, 0, NoMutation);
    }
    var offered := SelectGroup(first.status, lineage, bindings);
    report := ExecuteSelected(provider, lineage, bindings, offered, acknowledged);
  }

  /** The rest of the operation, once the first STATUS was checked. */
  method ExecuteSelected(provider: Provider, lineage: string, bindings: seq<Utf16>, offered: bool, acknowledged: bool)
    returns (report: Report)
    requires provider.statusCount == 1 && provider.log == [AskedStatus(provider.env.status(0))]
    requires provider.env.status(0).Answered?
    modifies provider
    ensures Trace(provider.log, Some(report)) == ExecuteOffered(provider.env, lineage, bindings, offered, acknowledged)
  {
    if !offered {
      return Report(GroupRejected, 0, NoMutation);
    }
    if !acknowledged {
      return Report(Forecast, 0, NoMutation);
    }
    var prepared := provider.RunReviewerGroup();
    if prepared != Prepared(|bindings|) {
      return Report(ReviewersUnavailable, 0, NoMutation);
    }
    report := SubmitAll(provider, lineage, bindings);
  }

  /** The submission loop: a fresh STATUS before every result. */
  method SubmitAll(provider: Provider, lineage: string, bindings: seq<Utf16>) returns (report: Report)
    requires provider.statusCount == 1
    modifies provider
    ensures Trace(provider.log, Some(report)) == SubmitFrom(provider.env, lineage, bindings, old(provider.log), 0)
  {
    ghost var start := provider.log;
    for index := 0 to |bindings|
      invariant provider.statusCount == index + 1
      invariant SubmitFrom(provider.env, lineage, bindings, start, 0)
             == SubmitFrom(provider.env, lineage, bindings, provider.log, index)
    {
      var current := provider.FreshStatus();
      var obstacle := Obstacle(current, lineage, bindings, index);
      if obstacle.Some? {
        return Progress(obstacle.value, |bindings|, index, false);
      }
      var result := provider.SubmitPrepared(index);
      match result {
        case Accepted(closes) =>
          if closes {
            return Progress(LastEventClosed, |bindings|, index + 1, false);
          }
        case Refused => return Progress(SubmissionRefused, |bindings|, index, false);
        case Unknown(_) => return Progress(Reconciled, |bindings|, index, true);
      }
    }
    report := Progress(Reconciled, |bindings|, |bindings|, false);
  }
}
