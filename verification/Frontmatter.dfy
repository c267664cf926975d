/**
 Reading and writing model routing in the frontmatter of an agent file
 (extensions/gentle-ai.ts:2093-2138; the entry rules of lib/model-routing-authority.ts:4-71).
 */
module Frontmatter {
  import opened Common
  import opened Text

  /** An `AgentRoutingEntry`; a missing entry and an entry without fields both mean "inherit". */
  datatype Entry = Entry(model: Option<string>, thinking: Option<string>)

  const CLEAR := Entry(None, None)

  const THINKING_LEVELS: seq<string> := ["off", "minimal", "low", "medium", "high", "xhigh", "max"]

  predicate IsModelIdChar(c: char) {
    || 'A' <= c <= 'Z' || 'a' <= c <= 'z' || '0' <= c <= '9' || c in "._~:@/+%-"
  }

  predicate IsModelId(s: string) {
    s != "" && forall i :: 0 <= i < |s| ==> IsModelIdChar(s[i])
  }

  /** What `normalizeRoutingEntry` can return: a well-formed id, a known level, or neither. */
  predicate Normalized(e: Entry) {
    (e.model.Some? ==> IsModelId(e.model.value)) && (e.thinking.Some? ==> e.thinking.value in THINKING_LEVELS)
  }

  function NormalizeModelId(value: Option<string>): Option<string> {
    if value.Some? && IsModelId(Trim(value.value)) then Some(Trim(value.value)) else None
  }

  /** Keep the fields that are valid; nothing valid is no entry. */
  function NormalizeEntry(raw: Entry): (r: Option<Entry>)
    ensures r.Some? ==> Normalized(r.value) && r.value != CLEAR
  {
    var model := NormalizeModelId(raw.model);
    var thinking := if raw.thinking.Some? && raw.thinking.value in THINKING_LEVELS then raw.thinking else None;
    if model.None? && thinking.None? then None else Some(Entry(model, thinking))
  }

  /** A valid model id by its character codes: letters, digits and `._~:@/+%-`. */
  lemma ModelIdIff(id: string)
    ensures IsModelId(id) <==> |id| > 0 && forall c :: c in id ==>
      48 <= c as int <= 57 || 65 <= c as int <= 90 || 97 <= c as int <= 122 || c in ['.', '_', '~', ':', '@', '/', '+', '%', '-']
  {
    forall c ensures IsModelIdChar(c) <==>
      48 <= c as int <= 57 || 65 <= c as int <= 90 || 97 <= c as int <= 122 || c in ['.', '_', '~', ':', '@', '/', '+', '%', '-']
    {
    }
    assert forall i :: 0 <= i < |id| ==> id[i] in id;
  }

  // ----- The printer -----

  const OPENING := "---\n"
  const FENCE := "\n---"
  const MODEL := "model:"
  const THINKING := "thinking:"
  const DESCRIPTION := "description:"

  /** Index of the closing fence, or -1. */
  function Fence(content: string): int {
    if OPENING <= content then IndexOf(content, FENCE, 4) else -1
  }

  predicate HasBlock(content: string) {
    Fence(content) != -1
  }

  function Lines(content: string): seq<string>
    requires HasBlock(content)
  {
    Split(content[4..Fence(content)])
  }

  predicate IsRouting(line: string) {
    MODEL <= line || THINKING <= line
  }

  function WithoutRouting(lines: seq<string>): seq<string> {
    if lines == [] then []
    else if IsRouting(lines[0]) then WithoutRouting(lines[1..])
    else [lines[0]] + WithoutRouting(lines[1..])
  }

  lemma {:induction false} WithoutRoutingMembers(lines: seq<string>)
    ensures forall l :: l in WithoutRouting(lines) <==> l in lines && !IsRouting(l)
  {
    if lines != [] {
      WithoutRoutingMembers(lines[1..]);
    }
  }

  /** The lines to insert; an empty value inserts nothing. */
  function RoutingLines(e: Entry): seq<string> {
    (if e.model.Some? && e.model.value != "" then [MODEL + " " + e.model.value] else [])
    + (if e.thinking.Some? && e.thinking.value != "" then [THINKING + " " + e.thinking.value] else [])
  }

  function FindDescription(lines: seq<string>): (i: nat)
    ensures i <= |lines|
  {
    if lines == [] || DESCRIPTION <= lines[0] then 0 else 1 + FindDescription(lines[1..])
  }

  /** After the description, or else after the first line. */
  function InsertionPoint(lines: seq<string>): (i: nat)
    ensures i <= |lines| && (i == 0 <==> lines == [])
  {
    var d := FindDescription(lines);
    if d < |lines| then d + 1 else if |lines| < 1 then |lines| else 1
  }

  function Insert(lines: seq<string>, inserted: seq<string>): seq<string> {
    lines[..InsertionPoint(lines)] + inserted + lines[InsertionPoint(lines)..]
  }

  function Update(content: string, e: Entry): string {
    if !HasBlock(content) then content
    else
      var fence := Fence(content);
      OPENING + Join(Insert(WithoutRouting(Lines(content)), RoutingLines(e)), "\n") + content[fence..]
  }

  // ----- The parser -----

  function ReadLines(lines: seq<string>, raw: Entry): Entry {
    if lines == [] then raw
    else
      var line := lines[0];
      ReadLines(lines[1..],
                if MODEL <= line then raw.(model := Some(Trim(line[|MODEL|..])))
                else if THINKING <= line then raw.(thinking := Some(Trim(line[|THINKING|..])))
                else raw)
  }

  /** The routing an agent file carries; anything unreadable is "no routing". */
  function Read(content: string): Option<Entry> {
    if !HasBlock(content) then None else NormalizeEntry(ReadLines(Lines(content), CLEAR))
  }

  // ----- Where the closing fence is -----

  predicate StartsLikeFence(line: string) {
    "---" <= line
  }

  /** No line but the first begins like a fence. */
  predicate NoInnerFence(lines: seq<string>) {
    forall k :: 1 <= k < |lines| ==> !StartsLikeFence(lines[k])
  }

  predicate FenceFree(s: string) {
    forall i :: 0 <= i < |s| ==> !MatchesAt(s, FENCE, i)
  }

  lemma {:induction false} FenceFreeJoin(lines: seq<string>)
    requires |lines| >= 1 && forall i :: 0 <= i < |lines| ==> OneLine(lines[i])
    ensures FenceFree(Join(lines, "\n")) <==> NoInnerFence(lines)
  {
    if |lines| == 1 {
      NoFirstNoMatch(lines[0], FENCE);
    } else {
      var rest := Join(lines[1..], "\n");
      FenceFreeJoin(lines[1..]);
      StartOfJoin(lines[1..]);
      FenceFreeStep(lines[0], rest);
      assert Join(lines, "\n") == lines[0] + "\n" + rest;
      InnerFenceStep(lines);
    }
  }

  lemma InnerFenceStep(lines: seq<string>)
    requires |lines| > 1
    ensures NoInnerFence(lines) <==> !StartsLikeFence(lines[1]) && NoInnerFence(lines[1..])
  {
    assert forall k :: 1 <= k < |lines| ==> lines[k] == lines[1..][k - 1];
    if NoInnerFence(lines) {
      assert forall k :: 0 <= k < |lines[1..]| ==> lines[1..][k] == lines[k + 1];
    }
  }

  /** Where a fence can start in a line followed by more text. */
  lemma FenceFreeStep(head: string, rest: string)
    requires OneLine(head)
    ensures FenceFree(head + "\n" + rest) <==> !StartsLikeFence(rest) && FenceFree(rest)
  {
    var s := head + "\n" + rest;
    forall i: nat
      ensures MatchesAt(s, FENCE, i) <==>
        (i == |head| && StartsLikeFence(rest)) || (i > |head| && MatchesAt(rest, FENCE, i - |head| - 1))
    {
      if i < |head| {
        assert s[i] == head[i] != '\n';
        assert i + 4 <= |s| ==> s[i..i + 4][0] == s[i];
      } else if i == |head| {
        FenceAtLineEnd(head, rest);
      } else if i + 4 <= |s| {
        assert s[i..i + 4] == rest[i - |head| - 1..i - |head| + 3];
      }
    }
    if FenceFree(s) {
      assert !MatchesAt(s, FENCE, |head|);
      forall i | 0 <= i < |rest| ensures !MatchesAt(rest, FENCE, i) {
        assert !MatchesAt(s, FENCE, i + |head| + 1);
      }
    }
  }

  lemma FenceAtLineEnd(head: string, rest: string)
    ensures MatchesAt(head + "\n" + rest, FENCE, |head|) <==> StartsLikeFence(rest)
  {
    var s := head + "\n" + rest;
    if |rest| >= 3 {
      assert s[|head|..|head| + 4] == ['\n', rest[0], rest[1], rest[2]];
      assert rest[..3] == [rest[0], rest[1], rest[2]];
    }
  }

  lemma StartOfJoin(lines: seq<string>)
    requires |lines| >= 1 && OneLine(lines[0])
    ensures StartsLikeFence(Join(lines, "\n")) <==> StartsLikeFence(lines[0])
  {
    var s := Join(lines, "\n");
    if |lines| > 1 && |lines[0]| < 3 {
      assert s[|lines[0]|] == '\n';
    }
  }

  /** A text without a fence, in front of a fence, hides none. */
  lemma NoFenceBefore(inner: string, tail: string, i: nat)
    requires FenceFree(inner) && FENCE <= tail && i < |inner|
    ensures !MatchesAt(inner + tail, FENCE, i)
  {
    var s := inner + tail;
    assert !MatchesAt(inner, FENCE, i);
    if i + 4 <= |inner| {
      assert s[i..i + 4] == inner[i..i + 4];
    } else if i + 4 <= |s| {
      assert s[i..i + 4][|inner| - i] == s[|inner|] == tail[0] == '\n';
    }
  }

  lemma MatchBehindOpening(s: string, i: nat)
    ensures MatchesAt(OPENING + s, FENCE, i + 4) <==> MatchesAt(s, FENCE, i)
  {
    if i + 4 <= |s| { assert (OPENING + s)[i + 4..i + 8] == s[i..i + 4]; }
  }

  /** The first fence of a text whose block lines hide none is the one after the block. */
  lemma FenceAfter(lines: seq<string>, tail: string)
    requires |lines| >= 1 && (forall i :: 0 <= i < |lines| ==> OneLine(lines[i])) && NoInnerFence(lines)
    requires FENCE <= tail
    ensures var content := OPENING + Join(lines, "\n") + tail;
            && Fence(content) == 4 + |Join(lines, "\n")|
            && Lines(content) == lines
            && content[Fence(content)..] == tail
  {
    var j := Join(lines, "\n");
    var content, f := OPENING + j + tail, 4 + |j|;
    FenceFreeJoin(lines);
    assert content == OPENING + (j + tail) && content[f..] == tail && content[4..f] == j;
    assert MatchesAt(content, FENCE, f);
    forall i | 4 <= i < f ensures !MatchesAt(content, FENCE, i) {
      NoFenceBefore(j, tail, i - 4);
      MatchBehindOpening(j + tail, i - 4);
    }
    FirstFence(content, f);
    SplitOfJoin(lines);
  }

  lemma FirstFence(content: string, f: nat)
    requires OPENING <= content && MatchesAt(content, FENCE, f) && f >= 4
    requires forall i :: 4 <= i < f ==> !MatchesAt(content, FENCE, i)
    ensures Fence(content) == f
  {
  }

  // ----- The shape of an updated file -----

  predicate SingleLine(e: Entry) {
    (e.model.Some? ==> OneLine(e.model.value)) && (e.thinking.Some? ==> OneLine(e.thinking.value))
  }

  /** The block's lines that are not routing. */
  function Kept(content: string): seq<string>
    requires HasBlock(content)
  {
    WithoutRouting(Lines(content))
  }

  lemma KeptHasNoInnerFence(lines: seq<string>)
    requires lines != [] && NoInnerFence(lines)
    ensures NoInnerFence(WithoutRouting(lines))
  {
    WithoutRoutingMembers(lines[1..]);
    var kept, rest := WithoutRouting(lines), WithoutRouting(lines[1..]);
    forall k | 1 <= k < |kept| ensures !StartsLikeFence(kept[k]) {
      var r := if IsRouting(lines[0]) then rest[k] else rest[k - 1];
      assert kept[k] == r && r in lines[1..];
    }
  }

  lemma InnerIsFenceFree(content: string)
    requires HasBlock(content)
    ensures FenceFree(content[4..Fence(content)])
  {
    var f := Fence(content);
    forall i: nat | i < f - 4 ensures !MatchesAt(content[4..f], FENCE, i) {
      if MatchesAt(content[4..f], FENCE, i) { MatchInside(content, FENCE, 4, f, i); }
    }
  }

  lemma KeptIsOneLine(lines: seq<string>)
    requires forall i :: 0 <= i < |lines| ==> OneLine(lines[i])
    ensures forall i :: 0 <= i < |WithoutRouting(lines)| ==> OneLine(WithoutRouting(lines)[i])
  {
    WithoutRoutingMembers(lines);
    forall i | 0 <= i < |WithoutRouting(lines)| ensures OneLine(WithoutRouting(lines)[i]) {
      assert WithoutRouting(lines)[i] in lines;
    }
  }

  lemma BlockShape(content: string)
    requires HasBlock(content)
    ensures 4 <= Fence(content) <= |content|
    ensures NoInnerFence(Lines(content)) && FENCE <= content[Fence(content)..]
    ensures NoInnerFence(Kept(content)) && (forall i :: 0 <= i < |Kept(content)| ==> OneLine(Kept(content)[i]))
    ensures content == OPENING + Join(Lines(content), "\n") + content[Fence(content)..]
  {
    var f, lines := Fence(content), Lines(content);
    assert content[f..][..4] == content[f..f + 4];
    InnerIsFenceFree(content);
    JoinOfSplit(content[4..f]);
    FenceFreeJoin(lines);
    KeptIsOneLine(lines);
    KeptHasNoInnerFence(lines);
    assert content == content[..4] + content[4..f] + content[f..];
  }

  function LinesAfter(content: string, e: Entry): seq<string>
    requires HasBlock(content)
  {
    var lines := Insert(Kept(content), RoutingLines(e));
    if lines == [] then [""] else lines
  }

  /** After an update the block is still found, holds the expected lines, and nothing after it moved. */
  lemma UpdateShape(content: string, e: Entry)
    requires HasBlock(content) && SingleLine(e)
    ensures HasBlock(Update(content, e))
    ensures Lines(Update(content, e)) == LinesAfter(content, e)
    ensures Update(content, e)[Fence(Update(content, e))..] == content[Fence(content)..]
  {
    BlockShape(content);
    var lines := LinesAfter(content, e);
    assert Join(lines, "\n") == Join(Insert(Kept(content), RoutingLines(e)), "\n");
    InsertedLines(e);
    var kept, ins, at := Kept(content), RoutingLines(e), InsertionPoint(Kept(content));
    forall k | 0 <= k < |lines| ensures OneLine(lines[k]) && (k > 0 ==> !StartsLikeFence(lines[k])) {
      if lines != [""] && at <= k < at + |ins| {
        assert lines[k] == ins[k - at];
      }
    }
    FenceAfter(lines, content[Fence(content)..]);
  }

  lemma WithoutRoutingCons(line: string, rest: seq<string>)
    ensures WithoutRouting([line] + rest) == (if IsRouting(line) then [] else [line]) + WithoutRouting(rest)
  {
    assert ([line] + rest)[1..] == rest;
  }

  lemma {:induction false} WithoutRoutingConcat(a: seq<string>, b: seq<string>)
    ensures WithoutRouting(a + b) == WithoutRouting(a) + WithoutRouting(b)
  {
    if a == [] {
      assert a + b == b;
    } else {
      WithoutRoutingConcat(a[1..], b);
      WithoutRoutingCons(a[0], a[1..]);
      WithoutRoutingCons(a[0], a[1..] + b);
      assert a == [a[0]] + a[1..] && a + b == [a[0]] + (a[1..] + b);
    }
  }

  lemma {:induction false} NothingToRemove(lines: seq<string>)
    requires forall i :: 0 <= i < |lines| ==> !IsRouting(lines[i])
    ensures WithoutRouting(lines) == lines
  {
    if lines != [] {
      NothingToRemove(lines[1..]);
    }
  }

  lemma InsertedLines(e: Entry)
    ensures forall l :: l in RoutingLines(e) ==> IsRouting(l) && !StartsLikeFence(l)
    ensures SingleLine(e) ==> forall l :: l in RoutingLines(e) ==> OneLine(l)
    ensures WithoutRouting(RoutingLines(e)) == []
  {
    forall l | l in RoutingLines(e) ensures IsRouting(l) && l[0] != '-' {
      assert MODEL[0] == 'm' && THINKING[0] == 't';
    }
    OnlyRouting(RoutingLines(e));
  }

  lemma {:induction false} OnlyRouting(lines: seq<string>)
    requires forall l :: l in lines ==> IsRouting(l)
    ensures WithoutRouting(lines) == []
  {
    if lines != [] {
      OnlyRouting(lines[1..]);
    }
  }

  /** What the next reader or writer will find besides routing. */
  lemma KeptAfterUpdate(content: string, e: Entry)
    requires HasBlock(content) && SingleLine(e)
    ensures HasBlock(Update(content, e))
    ensures Kept(Update(content, e)) ==
            if Kept(content) == [] && RoutingLines(e) == [] then [""] else Kept(content)
  {
    UpdateShape(content, e);
    KeptHasNoRouting(content);
    InsertedLines(e);
    InsertThenRemove(Kept(content), RoutingLines(e));
    NothingToRemove([""]);
  }

  lemma KeptHasNoRouting(content: string)
    requires HasBlock(content)
    ensures forall i :: 0 <= i < |Kept(content)| ==> !IsRouting(Kept(content)[i])
  {
    WithoutRoutingMembers(Lines(content));
    assert forall i :: 0 <= i < |Kept(content)| ==> Kept(content)[i] in Kept(content);
  }

  lemma InsertThenRemove(kept: seq<string>, ins: seq<string>)
    requires forall i :: 0 <= i < |kept| ==> !IsRouting(kept[i])
    requires WithoutRouting(ins) == []
    ensures WithoutRouting(Insert(kept, ins)) == kept
  {
    var at := InsertionPoint(kept);
    var front, back := kept[..at], kept[at..];
    NothingToRemove(front);
    NothingToRemove(back);
    WithoutRoutingConcat(front + ins, back);
    WithoutRoutingConcat(front, ins);
    assert Insert(kept, ins) == front + ins + back && front + [] + back == kept;
  }

  // ----- The laws -----

  /** Any number of updates, one after the other. */
  function UpdateAll(content: string, entries: seq<Entry>): string {
    if entries == [] then content
    else Update(UpdateAll(content, entries[..|entries| - 1]), entries[|entries| - 1])
  }

  /** Whatever is inserted, the old closing fence still closes a block. */
  lemma BlockSurvives(content: string, e: Entry)
    requires HasBlock(content)
    ensures HasBlock(Update(content, e))
  {
    var inner := Join(Insert(WithoutRouting(Lines(content)), RoutingLines(e)), "\n");
    var tail := content[Fence(content)..];
    assert tail[..4] == FENCE;
    assert Update(content, e)[4 + |inner|..] == tail;
    assert MatchesAt(Update(content, e), FENCE, 4 + |inner|);
  }

  /** No sequence of updates, with any text in the entries, creates or removes a block, or touches a file without one. */
  lemma {:induction false} UpdatesKeepBlocks(content: string, entries: seq<Entry>)
    ensures HasBlock(UpdateAll(content, entries)) <==> HasBlock(content)
    ensures !HasBlock(content) ==> UpdateAll(content, entries) == content && Read(content).None?
  {
    if entries != [] {
      UpdatesKeepBlocks(content, entries[..|entries| - 1]);
      if HasBlock(content) {
        BlockSurvives(UpdateAll(content, entries[..|entries| - 1]), entries[|entries| - 1]);
      }
    }
  }

  /** The closing fence and everything after it survive every update, byte for byte. */
  lemma BodyUnchanged(content: string, e: Entry)
    requires SingleLine(e) && HasBlock(content)
    ensures HasBlock(Update(content, e))
    ensures Update(content, e)[Fence(Update(content, e))..] == content[Fence(content)..]
    ensures Update(content, e)[..4] == OPENING
  {
    UpdateShape(content, e);
  }

  /** The text of a file whose block holds these lines. */
  function Wrap(lines: seq<string>, tail: string): string {
    OPENING + Join(lines, "\n") + tail
  }

  /** What a second update writes, in terms of the first file. */
  lemma TwiceUpdated(content: string, first: Entry, second: Entry)
    requires HasBlock(content) && SingleLine(first)
    ensures HasBlock(Update(content, first))
    ensures var kept := if Kept(content) == [] && RoutingLines(first) == [] then [""] else Kept(content);
      Update(Update(content, first), second)
      == Wrap(Insert(kept, RoutingLines(second)), content[Fence(content)..])
    ensures Update(content, second) == Wrap(Insert(Kept(content), RoutingLines(second)), content[Fence(content)..])
  {
    UpdateShape(content, first);
    KeptAfterUpdate(content, first);
  }

  // ----- What an update does to the other lines -----

  lemma {:induction false} WithoutRoutingCounts(lines: seq<string>, line: string)
    ensures multiset(WithoutRouting(lines))[line] == if IsRouting(line) then 0 else multiset(lines)[line]
  {
    if lines != [] {
      WithoutRoutingCounts(lines[1..], line);
      assert lines == [lines[0]] + lines[1..];
    }
  }

  lemma InsertCounts(kept: seq<string>, ins: seq<string>)
    ensures multiset(Insert(kept, ins)) == multiset(kept) + multiset(ins)
  {
    var at := InsertionPoint(kept);
    assert kept == kept[..at] + kept[at..];
  }

  /** Every line that does not start with `model:` or `thinking:` survives an update as often as it was there. */
  lemma OtherLinesSurvive(content: string, e: Entry, line: string)
    requires HasBlock(content) && SingleLine(e)
    requires !("model:" <= line) && !("thinking:" <= line) && line != ""
    ensures HasBlock(Update(content, e))
    ensures multiset(Lines(Update(content, e)))[line] == multiset(Lines(content))[line]
  {
    UpdateShape(content, e);
    InsertedLines(e);
    InsertCounts(Kept(content), RoutingLines(e));
    WithoutRoutingCounts(Lines(content), line);
    assert line !in RoutingLines(e);
    assert LinesAfter(content, e) == [""] || LinesAfter(content, e) == Insert(Kept(content), RoutingLines(e));
  }

  /** `k` lines stand before the first one that starts with `description:`, and no such line is among them. */
  ghost predicate DescribedAt(lines: seq<string>, k: nat) {
    k < |lines| && "description:" <= lines[k] && forall j :: 0 <= j < k ==> !("description:" <= lines[j])
  }

  lemma {:induction false} FindDescriptionIs(lines: seq<string>, k: nat)
    ensures DescribedAt(lines, k) ==> FindDescription(lines) == k
    ensures (forall j :: 0 <= j < |lines| ==> !("description:" <= lines[j])) ==> FindDescription(lines) == |lines|
  {
    if lines != [] && !(DESCRIPTION <= lines[0]) {
      assert forall j :: 0 <= j < |lines[1..]| ==> lines[1..][j] == lines[j + 1];
      if k > 0 { FindDescriptionIs(lines[1..], k - 1); } else { FindDescriptionIs(lines[1..], 0); }
    }
  }

  /**
   The routing goes right below the description, or else below the first line, model before thinking; the other lines
   keep their order around it.
   */
  lemma RoutingPlacement(content: string, e: Entry) returns (at: nat)
    requires HasBlock(content) && Normalized(e) && e != CLEAR
    ensures HasBlock(Update(content, e)) && at <= |Kept(content)|
    ensures Lines(Update(content, e)) == Kept(content)[..at]
      + (if e.model.Some? then ["model: " + e.model.value] else [])
      + (if e.thinking.Some? then ["thinking: " + e.thinking.value] else [])
      + Kept(content)[at..]
    ensures forall k: nat :: DescribedAt(Kept(content), k) ==> at == k + 1
    ensures (forall j :: 0 <= j < |Kept(content)| ==> !("description:" <= Kept(content)[j])) ==>
      at == if Kept(content) == [] then 0 else 1
  {
    var kept := Kept(content);
    at := InsertionPoint(kept);
    NormalizedIsSingleLine(e);
    UpdateShape(content, e);
    RoutingText(e);
    forall k: nat ensures DescribedAt(kept, k) ==> at == k + 1 { FindDescriptionIs(kept, k); }
    FindDescriptionIs(kept, 0);
    assert LinesAfter(content, e) == Insert(kept, RoutingLines(e));
  }

  lemma RoutingText(e: Entry)
    requires Normalized(e)
    ensures RoutingLines(e) == (if e.model.Some? then ["model: " + e.model.value] else [])
                             + (if e.thinking.Some? then ["thinking: " + e.thinking.value] else [])
  {
    assert MODEL + " " == "model: " && THINKING + " " == "thinking: ";
  }

  /** Drift audits compare files with routing stripped: an update never shows up there. */
  lemma StripIgnoresRouting(content: string, e: Entry)
    requires SingleLine(e)
    ensures Update(Update(content, e), CLEAR) == Update(content, CLEAR)
  {
    if HasBlock(content) {
      TwiceUpdated(content, e, CLEAR);
      assert RoutingLines(CLEAR) == [];
      assert Join([""], "\n") == Join([], "\n");
    }
  }

  /** The trimmed rest of the last line with this prefix. */
  function LastValue(lines: seq<string>, prefix: string): Option<string> {
    if lines == [] then None
    else
      var later := LastValue(lines[1..], prefix);
      if later.Some? then later
      else if prefix <= lines[0] then Some(Trim(lines[0][|prefix|..])) else None
  }

  lemma {:induction false} ReadLinesIs(lines: seq<string>, raw: Entry)
    ensures var model, thinking := LastValue(lines, "model:"), LastValue(lines, "thinking:");
      ReadLines(lines, raw) == Entry(if model.Some? then model else raw.model, if thinking.Some? then thinking else raw.thinking)
  {
    if lines != [] {
      assert !(MODEL <= lines[0] && THINKING <= lines[0]) by {
        assert MODEL[0] == 'm' && THINKING[0] == 't';
      }
      ReadLinesIs(lines[1..], if MODEL <= lines[0] then raw.(model := Some(Trim(lines[0][|MODEL|..])))
                              else if THINKING <= lines[0] then raw.(thinking := Some(Trim(lines[0][|THINKING|..])))
                              else raw);
    }
  }

  /**
   Of any file the reader takes the last `model:` and the last `thinking:` line of the block, keeps what is a valid id or a
   known level, and finds no routing when nothing is.
   */
  lemma ReadTakesLastValid(content: string)
    requires HasBlock(content)
    ensures var model, thinking := LastValue(Lines(content), "model:"), LastValue(Lines(content), "thinking:");
      var validModel := model.Some? && IsModelId(model.value);
      var validThinking := thinking.Some? && thinking.value in THINKING_LEVELS;
      Read(content) == if !validModel && !validThinking then None
                       else Some(Entry(if validModel then model else None, if validThinking then thinking else None))
  {
    ReadLinesIs(Lines(content), CLEAR);
    LastValueIsTrimmed(Lines(content));
  }

  lemma {:induction false} TrimTwice(s: string)
    ensures Trim(Trim(s)) == Trim(s)
  {
    TrimStartBlank(s);
    var t := TrimStart(s);
    if t != "" { TrimEndKeepsFirst(t); TrimEndEnds(t); }
  }

  lemma {:induction false} TrimEndEnds(s: string)
    ensures TrimEnd(s) <= s && TrimEnd(TrimEnd(s)) == TrimEnd(s)
  {
    if s != "" && IsSpace(s[|s| - 1]) { TrimEndEnds(s[..|s| - 1]); }
  }

  lemma {:induction false} LastValueIsTrimmed(lines: seq<string>)
    ensures forall prefix :: LastValue(lines, prefix).Some? ==> Trim(LastValue(lines, prefix).value) == LastValue(lines, prefix).value
  {
    if lines != [] {
      LastValueIsTrimmed(lines[1..]);
      forall prefix | prefix <= lines[0] ensures Trim(Trim(lines[0][|prefix|..])) == Trim(lines[0][|prefix|..]) {
        TrimTwice(lines[0][|prefix|..]);
      }
    }
  }

  lemma {:induction false} ReadSkipsKept(a: seq<string>, b: seq<string>, raw: Entry)
    requires forall i :: 0 <= i < |a| ==> !IsRouting(a[i])
    ensures ReadLines(a + b, raw) == ReadLines(b, raw)
  {
    if a == [] {
      assert a + b == b;
    } else {
      assert (a + b)[1..] == a[1..] + b;
      ReadSkipsKept(a[1..], b, raw);
    }
  }

  lemma TrimmedModel(id: string)
    requires IsModelId(id)
    ensures Trim(" " + id) == id && Trim(id) == id && OneLine(id)
  {
    assert (" " + id)[1..] == id;
    forall i | 0 <= i < |id| ensures !IsSpace(id[i]) && id[i] != '\n' {
      assert IsModelIdChar(id[i]);
    }
    assert TrimStart(id) == id;
  }

  lemma TrimmedLevel(level: string)
    requires level in THINKING_LEVELS
    ensures Trim(" " + level) == level && IsModelId(level)
  {
    forall i | 0 <= i < |level| ensures IsModelIdChar(level[i]) {
    }
    TrimmedModel(level);
  }

  lemma ReadModelLine(id: string, rest: seq<string>, raw: Entry)
    requires IsModelId(id)
    ensures ReadLines([MODEL + " " + id] + rest, raw) == ReadLines(rest, raw.(model := Some(id)))
  {
    var line := MODEL + " " + id;
    TrimmedModel(id);
    assert line[|MODEL|..] == " " + id;
    assert ([line] + rest)[1..] == rest;
  }

  lemma ReadThinkingLine(level: string, rest: seq<string>, raw: Entry)
    requires level in THINKING_LEVELS
    ensures ReadLines([THINKING + " " + level] + rest, raw) == ReadLines(rest, raw.(thinking := Some(level)))
  {
    var line := THINKING + " " + level;
    TrimmedLevel(level);
    assert line[|THINKING|..] == " " + level;
    assert line[0] == 't' && MODEL[0] == 'm';
    assert ([line] + rest)[1..] == rest;
  }

  lemma ReadRoutingLines(e: Entry, rest: seq<string>)
    requires Normalized(e)
    ensures ReadLines(RoutingLines(e) + rest, CLEAR) == ReadLines(rest, e)
  {
    var m := if e.model.Some? then [MODEL + " " + e.model.value] else [];
    var t := if e.thinking.Some? then [THINKING + " " + e.thinking.value] else [];
    assert RoutingLines(e) + rest == m + (t + rest) by {
      if e.thinking.Some? { TrimmedLevel(e.thinking.value); }
    }
    if e.model.Some? {
      ReadModelLine(e.model.value, t + rest, CLEAR);
    } else {
      assert m + (t + rest) == t + rest;
    }
    if e.thinking.Some? {
      ReadThinkingLine(e.thinking.value, rest, CLEAR.(model := e.model));
    } else {
      assert t + rest == rest;
    }
  }

  lemma ReadInserted(kept: seq<string>, e: Entry)
    requires Normalized(e) && forall i :: 0 <= i < |kept| ==> !IsRouting(kept[i])
    ensures ReadLines(Insert(kept, RoutingLines(e)), CLEAR) == e
  {
    var at := InsertionPoint(kept);
    ReadAround(kept[..at], kept[at..], e);
    assert Insert(kept, RoutingLines(e)) == kept[..at] + (RoutingLines(e) + kept[at..]);
  }

  lemma ReadAround(front: seq<string>, back: seq<string>, e: Entry)
    requires Normalized(e)
    requires forall i :: 0 <= i < |front| ==> !IsRouting(front[i])
    requires forall i :: 0 <= i < |back| ==> !IsRouting(back[i])
    ensures ReadLines(front + (RoutingLines(e) + back), CLEAR) == e
  {
    ReadSkipsKept(front, RoutingLines(e) + back, CLEAR);
    ReadRoutingLines(e, back);
    ReadSkipsKept(back, [], e);
    assert back + [] == back;
  }

  lemma ReadLinesAfter(content: string, e: Entry)
    requires Normalized(e) && HasBlock(content)
    ensures ReadLines(LinesAfter(content, e), CLEAR) == e
  {
    KeptHasNoRouting(content);
    ReadInserted(Kept(content), e);
    ReadSkipsKept([""], [], CLEAR);
    assert [""] + [] == [""];
  }

  /** A normalised entry written to a file with a block is read back exactly; a clear entry reads as none. */
  lemma ReadAfterUpdate(content: string, e: Entry)
    requires Normalized(e)
    ensures Read(Update(content, e)) == if HasBlock(content) && e != CLEAR then Some(e) else None
  {
    if HasBlock(content) {
      NormalizedIsSingleLine(e);
      UpdateShape(content, e);
      ReadLinesAfter(content, e);
      if e.model.Some? { TrimmedModel(e.model.value); }
    }
  }

  /** After any updates the file reads as the last one says, keeps its body, and strips to what it always did. */
  lemma {:induction false} LastUpdateWins(content: string, entries: seq<Entry>)
    requires HasBlock(content) && entries != [] && forall i :: 0 <= i < |entries| ==> Normalized(entries[i])
    ensures var after, last := UpdateAll(content, entries), entries[|entries| - 1];
      && Read(after) == (if last == CLEAR then None else Some(last))
      && HasBlock(after) && after[Fence(after)..] == content[Fence(content)..]
      && Update(after, CLEAR) == Update(content, CLEAR)
  {
    var front, last := entries[..|entries| - 1], entries[|entries| - 1];
    var before := UpdateAll(content, front);
    UpdatesKeepBlocks(content, front);
    if front == [] {
      assert before == content;
    } else {
      LastUpdateWins(content, front);
    }
    NormalizedIsSingleLine(last);
    ReadAfterUpdate(before, last);
    BodyUnchanged(before, last);
    StripIgnoresRouting(before, last);
  }

  lemma NormalizedIsSingleLine(e: Entry)
    requires Normalized(e)
    ensures SingleLine(e)
    ensures RoutingLines(e) == [] <==> e == CLEAR
  {
    if e.model.Some? { TrimmedModel(e.model.value); }
    if e.thinking.Some? { TrimmedLevel(e.thinking.value); TrimmedModel(e.thinking.value); }
  }

  /** The one family of updates that leaves a trace: a clear that empties a block of nothing but routing. */
  predicate LeavesEmptyLine(content: string, first: Entry, second: Entry) {
    HasBlock(content) && Kept(content) == [] && RoutingLines(first) == [] && RoutingLines(second) != []
  }

  /** A second update overwrites the first, except exactly when the first emptied the block and the second fills it. */
  lemma SecondUpdateOverwrites(content: string, first: Entry, second: Entry)
    requires SingleLine(first) && SingleLine(second)
    ensures Update(Update(content, first), second) == Update(content, second)
       <==> !LeavesEmptyLine(content, first, second)
  {
    if HasBlock(content) {
      TwiceUpdated(content, first, second);
      if Kept(content) == [] && RoutingLines(first) == [] {
        EmptyLineShows(RoutingLines(second), content[Fence(content)..]);
      }
    }
  }

  /** The smallest such file: clearing its only line and writing a model again does not give what writing alone gives. */
  lemma ClearLeavesEmptyLine()
    ensures var content := "---\nmodel: a\n---"; var e := Entry(Some("b"), None);
      Update(Update(content, CLEAR), e) != Update(content, e)
  {
    var content, e := "---\nmodel: a\n---", Entry(Some("b"), None);
    assert content == OPENING + "model: a" + FENCE;
    assert MODEL <= "model: a";
    assert RoutingLines(e) == [MODEL + " " + "b"] && RoutingLines(CLEAR) == [];
    OneRoutingLine("model: a");
    SecondUpdateOverwrites(content, CLEAR, e);
  }

  lemma OneRoutingLine(line: string)
    requires IsRouting(line) && OneLine(line)
    ensures HasBlock(OPENING + line + FENCE) && Kept(OPENING + line + FENCE) == []
  {
    var lines := [line];
    FenceAfter(lines, FENCE);
    assert Join(lines, "\n") == line;
    assert Lines(OPENING + line + FENCE) == lines;
    OnlyRouting(lines);
  }

  /** Inserting below an empty line differs from inserting into an empty block, unless nothing is inserted. */
  lemma EmptyLineShows(ins: seq<string>, tail: string)
    ensures Wrap(Insert([""], ins), tail) == Wrap(Insert([], ins), tail) <==> ins == []
  {
    assert Insert([], ins) == ins;
    assert Insert([""], ins) == [""] + ins;
    if ins == [] {
      assert Join([""] + ins, "\n") == Join(ins, "\n");
    } else {
      assert ([""] + ins)[1..] == ins;
      assert |Join([""] + ins, "\n")| == |Join(ins, "\n")| + 1;
      assert |Wrap([""] + ins, tail)| == |Wrap(ins, tail)| + 1;
    }
  }

  /** Writing the same routing again changes nothing, so a repeated apply touches no file. */
  lemma UpdateIsIdempotent(content: string, e: Entry)
    requires SingleLine(e)
    ensures Update(Update(content, e), e) == Update(content, e)
  {
    SecondUpdateOverwrites(content, e, e);
  }
}
