/**
 The multi-select question: a bounded loop of toggle dialogs (extensions/ask-user-question.ts:60-129).
 The host may return anything in any round: nothing, an option, or an unknown text.
 */
module MultiSelect {
  import opened Common

  const DONE := "Done"
  const CAP_FLOOR: nat := 32

  /** What the host returns in each round; nothing is a cancellation. */
  type Host = nat -> Option<string>

  function Display(caption: string, on: bool): string {
    (if on then "[x]" else "[ ]") + " " + caption
  }

  function RoundOptions(labels: seq<string>, toggled: seq<bool>): (r: seq<string>)
    requires |labels| == |toggled|
    ensures |r| == |labels| + 1 && r[|labels|] == DONE
    ensures forall i :: 0 <= i < |labels| ==> r[i] == Display(labels[i], toggled[i])
  {
    seq(|labels|, i requires 0 <= i < |labels| => Display(labels[i], toggled[i])) + [DONE]
  }

  function RoundCap(n: nat): nat {
    if n + 2 > CAP_FLOOR then n + 2 else CAP_FLOOR
  }

  /** `options.indexOf(picked)`, with the length standing for -1. */
  function IndexOf(options: seq<string>, picked: string): (i: nat)
    ensures i <= |options| && (i < |options| ==> options[i] == picked)
    ensures forall j :: 0 <= j < i ==> options[j] != picked
  {
    if options == [] || options[0] == picked then 0 else 1 + IndexOf(options[1..], picked)
  }

  function Selected(labels: seq<string>, toggled: seq<bool>): seq<string>
    requires |labels| == |toggled|
  {
    if labels == [] then []
    else (if toggled[0] then [labels[0]] else []) + Selected(labels[1..], toggled[1..])
  }

  predicate AllOn(toggled: seq<bool>) {
    forall i :: 0 <= i < |toggled| ==> toggled[i]
  }

  /** The committed answer, if any, and how many dialogs were shown. */
  datatype Outcome = Outcome(answer: Option<seq<string>>, dialogs: nat)

  function Play(labels: seq<string>, toggled: seq<bool>, host: Host, round: nat, cap: nat): Outcome
    requires |labels| == |toggled| && round <= cap
    decreases cap - round
  {
    if round == cap then Outcome(None, round)
    else
      var picked := host(round);
      if picked.None? then Outcome(None, round + 1)
      else
        var i := IndexOf(RoundOptions(labels, toggled), picked.value);
        if i == |labels| then Outcome(Some(Selected(labels, toggled)), round + 1)
        else if i > |labels| then Outcome(None, round + 1)
        else
          var next := toggled[i := !toggled[i]];
          if AllOn(next) then Outcome(Some(Selected(labels, next)), round + 1)
          else Play(labels, next, host, round + 1, cap)
  }

  function AllOff(n: nat): (r: seq<bool>)
    ensures |r| == n && forall i :: 0 <= i < n ==> !r[i]
  {
    seq(n, _ => false)
  }

  function Ask(labels: seq<string>, host: Host): Outcome {
    Play(labels, AllOff(|labels|), host, 0, RoundCap(|labels|))
  }

  // ----- Options are told apart by their labels -----

  lemma DisplayIsInjective(a: string, b: string, on: bool, on': bool)
    ensures Display(a, on) == Display(b, on') <==> a == b && on == on'
    ensures Display(a, on) != DONE
  {
    var x, y := Display(a, on), Display(b, on');
    assert x[4..] == a && y[4..] == b;
    assert x[1] == (if on then 'x' else ' ') && y[1] == (if on' then 'x' else ' ');
    assert x[0] == '[' && DONE[0] == 'D';
  }

  /** The text names option `i`, whatever its mark. */
  predicate Names(caption: string, picked: Option<string>) {
    picked == Some(Display(caption, true)) || picked == Some(Display(caption, false))
  }

  /** How many of the first `rounds` picks named this label. */
  function TimesPicked(caption: string, host: Host, rounds: nat): nat {
    if rounds == 0 then 0
    else TimesPicked(caption, host, rounds - 1) + if Names(caption, host(rounds - 1)) then 1 else 0
  }

  /** The options picked an odd number of times. */
  function OddlyPicked(labels: seq<string>, host: Host, rounds: nat): (r: seq<bool>)
    ensures |r| == |labels| && forall i :: 0 <= i < |r| ==> (r[i] <==> TimesPicked(labels[i], host, rounds) % 2 == 1)
  {
    seq(|labels|, i requires 0 <= i < |labels| => TimesPicked(labels[i], host, rounds) % 2 == 1)
  }

  lemma PickedOptionIsUnique(labels: seq<string>, toggled: seq<bool>, i: nat)
    requires NoDup(labels) && |labels| == |toggled| && i < |labels|
    ensures IndexOf(RoundOptions(labels, toggled), Display(labels[i], toggled[i])) == i
    ensures IndexOf(RoundOptions(labels, toggled), DONE) == |labels|
  {
    var options := RoundOptions(labels, toggled);
    forall j | 0 <= j < |labels| ensures options[j] != DONE && (j != i ==> options[j] != options[i]) {
      DisplayIsInjective(labels[j], labels[i], toggled[j], toggled[i]);
      assert j < i ==> labels[j] != labels[i];
      assert i < j ==> labels[i] != labels[j];
    }
  }

  /** One toggle: exactly the picked option's count goes up. */
  lemma ToggleCounts(labels: seq<string>, host: Host, round: nat, i: nat)
    requires NoDup(labels) && i < |labels|
    requires host(round) == Some(Display(labels[i], OddlyPicked(labels, host, round)[i]))
    ensures OddlyPicked(labels, host, round + 1) == OddlyPicked(labels, host, round)[i := !OddlyPicked(labels, host, round)[i]]
  {
    var before, after := OddlyPicked(labels, host, round), OddlyPicked(labels, host, round + 1);
    forall j | 0 <= j < |labels| ensures after[j] == before[i := !before[i]][j] {
      DisplayIsInjective(labels[j], labels[i], true, before[i]);
      DisplayIsInjective(labels[j], labels[i], false, before[i]);
      assert j < i ==> labels[j] != labels[i];
      assert i < j ==> labels[i] != labels[j];
    }
  }

  lemma DoneCounts(labels: seq<string>, host: Host, round: nat)
    requires host(round) == Some(DONE)
    ensures OddlyPicked(labels, host, round + 1) == OddlyPicked(labels, host, round)
  {
    forall j | 0 <= j < |labels| ensures !Names(labels[j], host(round)) {
      DisplayIsInjective(labels[j], "", true, true);
      DisplayIsInjective(labels[j], "", false, true);
    }
  }

  // ----- What a dialog commits -----

  /** Never more dialogs than the cap, for any labels and any host. */
  lemma {:induction false} DialogsAreBounded(labels: seq<string>, toggled: seq<bool>, host: Host, round: nat, cap: nat)
    requires |labels| == |toggled| && round <= cap
    ensures Play(labels, toggled, host, round, cap).dialogs <= cap
    decreases cap - round
  {
    if round < cap && host(round).Some? {
      var i := IndexOf(RoundOptions(labels, toggled), host(round).value);
      if i < |labels| {
        DialogsAreBounded(labels, toggled[i := !toggled[i]], host, round + 1, cap);
      }
    }
  }

  /** One round in which option `i` is picked. */
  lemma PlayTick(labels: seq<string>, toggled: seq<bool>, host: Host, round: nat, cap: nat, i: nat)
    requires |labels| == |toggled| && round < cap && i < |labels|
    requires host(round).Some? && IndexOf(RoundOptions(labels, toggled), host(round).value) == i
    ensures var next := toggled[i := !toggled[i]];
      Play(labels, toggled, host, round, cap)
      == if AllOn(next) then Outcome(Some(Selected(labels, next)), round + 1) else Play(labels, next, host, round + 1, cap)
  {
  }

  /** What a committed outcome means. */
  predicate CommitsOddPicks(labels: seq<string>, host: Host, o: Outcome) {
    o.answer.Some? ==>
      && o.dialogs > 0 && o.answer.value == Selected(labels, OddlyPicked(labels, host, o.dialogs))
      && (host(o.dialogs - 1) == Some(DONE) || AllOn(OddlyPicked(labels, host, o.dialogs)))
  }

  lemma {:induction false} PlayCommitsOddPicks(labels: seq<string>, host: Host, round: nat, cap: nat)
    requires NoDup(labels) && round <= cap
    ensures CommitsOddPicks(labels, host, Play(labels, OddlyPicked(labels, host, round), host, round, cap))
    decreases cap - round
  {
    var toggled := OddlyPicked(labels, host, round);
    if round < cap && host(round).Some? {
      var i := IndexOf(RoundOptions(labels, toggled), host(round).value);
      if i < |labels| {
        ToggleCounts(labels, host, round, i);
        PlayTick(labels, toggled, host, round, cap, i);
        PlayCommitsOddPicks(labels, host, round + 1, cap);
      } else if i == |labels| {
        DoneCounts(labels, host, round);
      }
    }
  }

  /**
   Main result, for distinct labels and any host: the loop ends within the cap; a committed answer is exactly the
   options picked an odd number of times, in question order, and was committed by Done or because all are on.
   */
  lemma CommittedAnswerIsOddPicks(labels: seq<string>, host: Host)
    requires NoDup(labels)
    ensures Ask(labels, host).dialogs <= RoundCap(|labels|)
    ensures CommitsOddPicks(labels, host, Ask(labels, host))
  {
    var off := AllOff(|labels|);
    DialogsAreBounded(labels, off, host, 0, RoundCap(|labels|));
    PlayCommitsOddPicks(labels, host, 0, RoundCap(|labels|));
    assert OddlyPicked(labels, host, 0) == off;
  }

  // ----- Where a run of dialogs ends -----

  /** In round `r` the host chose an option as it was shown. */
  ghost predicate ChoseShown(labels: seq<string>, host: Host, r: nat) {
    exists i :: 0 <= i < |labels| && host(r) == Some(Display(labels[i], TimesPicked(labels[i], host, r) % 2 == 1))
  }

  ghost predicate AllShown(labels: seq<string>, host: Host, rounds: nat) {
    forall r: nat :: r < rounds ==> ChoseShown(labels, host, r)
  }

  /**
   Every dialog but the last was answered with an option as shown. The last one commits exactly on Done or when it turns
   everything on; otherwise it was cancelled, answered with something that was not shown, or used up the cap.
   */
  ghost predicate EndsRightly(labels: seq<string>, host: Host, o: Outcome, cap: nat) {
    && 0 < o.dialogs <= cap
    && AllShown(labels, host, o.dialogs - 1)
    && (o.answer.Some? <==>
          || host(o.dialogs - 1) == Some(DONE)
          || (ChoseShown(labels, host, o.dialogs - 1) && AllOn(OddlyPicked(labels, host, o.dialogs))))
    && (o.answer.None? ==> o.dialogs == cap || !ChoseShown(labels, host, o.dialogs - 1))
  }

  /** What one dialog leads to. */
  lemma OneDialog(labels: seq<string>, host: Host, round: nat, cap: nat)
    requires NoDup(labels) && round < cap
    ensures var o := Play(labels, OddlyPicked(labels, host, round), host, round, cap);
      if ChoseShown(labels, host, round) then
        if AllOn(OddlyPicked(labels, host, round + 1)) then o.answer.Some? && o.dialogs == round + 1
        else o == Play(labels, OddlyPicked(labels, host, round + 1), host, round + 1, cap)
      else o.dialogs == round + 1 && (o.answer.Some? <==> host(round) == Some(DONE))
  {
    var toggled := OddlyPicked(labels, host, round);
    ShownIff(labels, host, round);
    if ChoseShown(labels, host, round) {
      var i := IndexOf(RoundOptions(labels, toggled), host(round).value);
      ToggleCounts(labels, host, round, i);
      PlayTick(labels, toggled, host, round, cap, i);
    }
  }

  lemma StopsHere(labels: seq<string>, host: Host, round: nat, cap: nat, o: Outcome)
    requires round < cap && o.dialogs == round + 1 && AllShown(labels, host, round)
    requires o.answer.Some? <==>
      host(round) == Some(DONE) || (ChoseShown(labels, host, round) && AllOn(OddlyPicked(labels, host, round + 1)))
    requires o.answer.None? ==> round + 1 == cap || !ChoseShown(labels, host, round)
    ensures EndsRightly(labels, host, o, cap)
  {
  }

  lemma CapIsSpent(labels: seq<string>, toggled: seq<bool>, host: Host, cap: nat)
    requires |labels| == |toggled|
    ensures Play(labels, toggled, host, cap, cap) == Outcome(None, cap)
  {
  }

  lemma {:induction false} PlayEndsRightly(labels: seq<string>, host: Host, round: nat, cap: nat)
    requires NoDup(labels) && round < cap && AllShown(labels, host, round)
    ensures EndsRightly(labels, host, Play(labels, OddlyPicked(labels, host, round), host, round, cap), cap)
    decreases cap - round
  {
    var o := Play(labels, OddlyPicked(labels, host, round), host, round, cap);
    OneDialog(labels, host, round, cap);
    ShownIff(labels, host, round);
    if !ChoseShown(labels, host, round) || AllOn(OddlyPicked(labels, host, round + 1)) {
      StopsHere(labels, host, round, cap, o);
    } else if round + 1 == cap {
      CapIsSpent(labels, OddlyPicked(labels, host, cap), host, cap);
      StopsHere(labels, host, round, cap, o);
    } else {
      assert AllShown(labels, host, round + 1);
      PlayEndsRightly(labels, host, round + 1, cap);
    }
  }

  lemma ShownIff(labels: seq<string>, host: Host, round: nat)
    requires NoDup(labels)
    ensures var toggled := OddlyPicked(labels, host, round);
      && (ChoseShown(labels, host, round) <==>
            host(round).Some? && IndexOf(RoundOptions(labels, toggled), host(round).value) < |labels|)
      && (host(round) == Some(DONE) <==>
            host(round).Some? && IndexOf(RoundOptions(labels, toggled), host(round).value) == |labels|)
  {
    var toggled := OddlyPicked(labels, host, round);
    var options := RoundOptions(labels, toggled);
    if i :| 0 <= i < |labels| && host(round) == Some(Display(labels[i], TimesPicked(labels[i], host, round) % 2 == 1)) {
      PickedOptionIsUnique(labels, toggled, i);
    }
    DoneIsLast(labels, toggled);
  }

  /** For distinct labels and any host the dialogs end exactly where they have to, within `max(32, n + 2)`. */
  lemma DialogsEndRightly(labels: seq<string>, host: Host)
    requires NoDup(labels)
    ensures EndsRightly(labels, host, Ask(labels, host), if |labels| > 30 then |labels| + 2 else 32)
  {
    assert OddlyPicked(labels, host, 0) == AllOff(|labels|);
    PlayEndsRightly(labels, host, 0, RoundCap(|labels|));
  }

  // ----- What an answer holds -----

  /** Where a label first stands, or the number of labels. */
  function Position(labels: seq<string>, caption: string): (i: nat)
    ensures i <= |labels| && (i < |labels| ==> labels[i] == caption)
    ensures forall j :: 0 <= j < i ==> labels[j] != caption
  {
    if labels == [] || labels[0] == caption then 0 else 1 + Position(labels[1..], caption)
  }

  /** `answer` lists the options for which `wanted` holds, each once and in the order of the question. */
  ghost predicate ListsExactly(answer: seq<string>, labels: seq<string>, wanted: seq<bool>)
    requires |labels| == |wanted|
  {
    && (forall i :: 0 <= i < |labels| ==> (labels[i] in answer <==> wanted[i]))
    && (forall a :: a in answer ==> a in labels)
    && (forall x, y :: 0 <= x < y < |answer| ==> Position(labels, answer[x]) < Position(labels, answer[y]))
  }

  lemma {:induction false} SelectedListsExactly(labels: seq<string>, toggled: seq<bool>)
    requires NoDup(labels) && |labels| == |toggled|
    ensures ListsExactly(Selected(labels, toggled), labels, toggled)
  {
    if labels != [] {
      SelectedListsExactly(labels[1..], toggled[1..]);
      SelectedOf(labels, toggled);
      if toggled[0] {
        FirstListed(labels, toggled, Selected(labels[1..], toggled[1..]));
      } else {
        assert [] + Selected(labels[1..], toggled[1..]) == Selected(labels[1..], toggled[1..]);
        FirstNotListed(labels, toggled, Selected(labels[1..], toggled[1..]));
      }
    }
  }

  lemma FirstNotListed(labels: seq<string>, wanted: seq<bool>, rest: seq<string>)
    requires labels != [] && NoDup(labels) && |labels| == |wanted| && !wanted[0]
    requires ListsExactly(rest, labels[1..], wanted[1..])
    ensures ListsExactly(rest, labels, wanted)
  {
    var first, others := labels[0], labels[1..];
    assert first !in others && forall a :: a in rest ==> a in others;
    assert forall i :: 1 <= i < |labels| ==> labels[i] == labels[1..][i - 1] && wanted[i] == wanted[1..][i - 1];
    PositionsShift(labels, rest);
  }

  lemma PositionsShift(labels: seq<string>, rest: seq<string>)
    requires labels != [] && labels[0] !in rest
    ensures forall x :: 0 <= x < |rest| ==> Position(labels, rest[x]) == 1 + Position(labels[1..], rest[x])
  {
  }

  lemma FirstListed(labels: seq<string>, wanted: seq<bool>, rest: seq<string>)
    requires labels != [] && NoDup(labels) && |labels| == |wanted| && wanted[0]
    requires ListsExactly(rest, labels[1..], wanted[1..])
    ensures ListsExactly([labels[0]] + rest, labels, wanted)
  {
    var answer := [labels[0]] + rest;
    var first, others := labels[0], labels[1..];
    assert first !in others && forall a :: a in rest ==> a in others;
    PositionsShift(labels, rest);
    forall x, y | 0 <= x < y < |answer| ensures Position(labels, answer[x]) < Position(labels, answer[y]) {
      assert answer[y] == rest[y - 1];
      if x > 0 { assert answer[x] == rest[x - 1]; }
    }
    forall i | 0 <= i < |labels| ensures labels[i] in answer <==> wanted[i] {
      assert labels[i] in answer <==> labels[i] == labels[0] || labels[i] in rest;
      if i > 0 { assert labels[i] == labels[1..][i - 1] && wanted[i] == wanted[1..][i - 1]; }
    }
  }

  lemma SelectedOf(labels: seq<string>, toggled: seq<bool>)
    requires labels != [] && |labels| == |toggled|
    ensures Selected(labels, toggled) == (if toggled[0] then [labels[0]] else []) + Selected(labels[1..], toggled[1..])
  {
  }

  /**
   Main result: for distinct labels and any host, an option is in a committed answer exactly when it was picked an odd
   number of times, and the answer keeps the order of the question without repeats.
   */
  lemma AnswerHoldsOddPicks(labels: seq<string>, host: Host)
    requires NoDup(labels) && Ask(labels, host).answer.Some?
    ensures var o := Ask(labels, host);
      && ListsExactly(o.answer.value, labels, OddlyPicked(labels, host, o.dialogs))
      && (forall i :: 0 <= i < |labels| ==>
            (labels[i] in o.answer.value <==> TimesPicked(labels[i], host, o.dialogs) % 2 == 1))
  {
    CommittedAnswerIsOddPicks(labels, host);
    SelectedListsExactly(labels, OddlyPicked(labels, host, Ask(labels, host).dialogs));
  }

  // ----- Every subset can be answered -----

  function CountOn(mask: seq<bool>): nat {
    if mask == [] then 0 else CountOn(mask[..|mask| - 1]) + if mask[|mask| - 1] then 1 else 0
  }

  /** Tick the wanted options from first to last. */
  function Ticks(labels: seq<string>, mask: seq<bool>): (r: seq<string>)
    requires |labels| == |mask|
    ensures |r| == CountOn(mask)
  {
    if labels == [] then []
    else
      Ticks(labels[..|labels| - 1], mask[..|mask| - 1])
      + if mask[|mask| - 1] then [Display(labels[|labels| - 1], false)] else []
  }

  /** A host that ticks the wanted options and then chooses Done. */
  function Ticking(labels: seq<string>, mask: seq<bool>): Host
    requires |labels| == |mask|
  {
    var ticks := Ticks(labels, mask);
    (round: nat) => if round < |ticks| then Some(ticks[round]) else Some(DONE)
  }

  /** The options before `i` as wanted, the rest off. */
  function Partly(mask: seq<bool>, i: nat): (r: seq<bool>)
    requires i <= |mask|
    ensures |r| == |mask| && forall j :: 0 <= j < |r| ==> (r[j] <==> j < i && mask[j])
  {
    seq(|mask|, j requires 0 <= j < |mask| => j < i && mask[j])
  }

  lemma {:induction false} CountOnBound(mask: seq<bool>)
    ensures CountOn(mask) <= |mask|
  {
    if mask != [] {
      CountOnBound(mask[..|mask| - 1]);
    }
  }

  lemma {:induction false} TicksAt(labels: seq<string>, mask: seq<bool>, i: nat)
    requires |labels| == |mask| && i < |mask| && mask[i]
    ensures CountOn(mask[..i]) < |Ticks(labels, mask)| && Ticks(labels, mask)[CountOn(mask[..i])] == Display(labels[i], false)
    ensures CountOn(mask[..i + 1]) == CountOn(mask[..i]) + 1
  {
    assert mask[..i + 1][..i] == mask[..i];
    if i < |mask| - 1 {
      TicksAt(labels[..|labels| - 1], mask[..|mask| - 1], i);
      assert mask[..|mask| - 1][..i] == mask[..i];
    }
  }

  lemma TickedMask(mask: seq<bool>, i: nat)
    requires i < |mask| && mask[i]
    ensures Partly(mask, i)[i := !Partly(mask, i)[i]] == Partly(mask, i + 1)
    ensures AllOn(Partly(mask, i + 1)) ==> Partly(mask, i + 1) == mask
  {
    var next := Partly(mask, i + 1);
    if AllOn(next) {
      assert forall j :: 0 <= j < |mask| ==> next[j] && mask[j];
    }
  }

  lemma TickedIsPicked(labels: seq<string>, mask: seq<bool>, i: nat)
    requires NoDup(labels) && |labels| == |mask| && i < |mask| && mask[i]
    ensures CountOn(mask[..i + 1]) == CountOn(mask[..i]) + 1
    ensures var pick := Ticking(labels, mask)(CountOn(mask[..i]));
      pick.Some? && IndexOf(RoundOptions(labels, Partly(mask, i)), pick.value) == i
  {
    TicksAt(labels, mask, i);
    PickedOptionIsUnique(labels, Partly(mask, i), i);
  }

  lemma PlayOn(labels: seq<string>, toggled: seq<bool>, next: seq<bool>, host: Host, round: nat, after: nat, cap: nat, i: nat)
    requires |labels| == |toggled| && after == round + 1 <= cap && i < |labels|
    requires host(round).Some? && IndexOf(RoundOptions(labels, toggled), host(round).value) == i
    requires next == toggled[i := !toggled[i]]
    ensures AllOn(next) ==> Play(labels, toggled, host, round, cap).answer == Some(Selected(labels, next))
    ensures !AllOn(next) ==> Play(labels, toggled, host, round, cap) == Play(labels, next, host, after, cap)
  {
    PlayTick(labels, toggled, host, round, cap, i);
  }

  /** Ticking option `i` moves on to the next position, or commits when everything is on. */
  lemma TickStep(labels: seq<string>, mask: seq<bool>, i: nat, cap: nat)
    requires NoDup(labels) && |labels| == |mask| && i < |mask| && mask[i] && CountOn(mask) < cap
    ensures CountOn(mask[..i + 1]) == CountOn(mask[..i]) + 1 <= CountOn(mask)
    ensures var o := Play(labels, Partly(mask, i), Ticking(labels, mask), CountOn(mask[..i]), cap);
      && (AllOn(Partly(mask, i + 1)) ==> o.answer == Some(Selected(labels, mask)))
      && (!AllOn(Partly(mask, i + 1)) ==>
            o == Play(labels, Partly(mask, i + 1), Ticking(labels, mask), CountOn(mask[..i + 1]), cap))
  {
    CountPrefix(mask, i + 1);
    TickedIsPicked(labels, mask, i);
    TickedMask(mask, i);
    PlayOn(labels, Partly(mask, i), Partly(mask, i + 1), Ticking(labels, mask), CountOn(mask[..i]), CountOn(mask[..i + 1]), cap, i);
  }

  lemma {:induction false} TickingReaches(labels: seq<string>, mask: seq<bool>, i: nat, cap: nat)
    requires NoDup(labels) && |labels| == |mask| && i <= |mask| && CountOn(mask) < cap
    requires AllOn(Partly(mask, i)) ==> labels == []
    ensures CountOn(mask[..i]) <= CountOn(mask)
    ensures Play(labels, Partly(mask, i), Ticking(labels, mask), CountOn(mask[..i]), cap).answer == Some(Selected(labels, mask))
    decreases |mask| - i
  {
    CountPrefix(mask, i);
    if i == |mask| {
      assert mask[..i] == mask && Partly(mask, i) == mask;
      DoneIsLast(labels, mask);
    } else if mask[i] {
      TickStep(labels, mask, i, cap);
      assert CountOn(mask[..i]) <= CountOn(mask);
      if !AllOn(Partly(mask, i + 1)) {
        TickingReaches(labels, mask, i + 1, cap);
      }
    } else {
      assert mask[..i + 1][..i] == mask[..i];
      assert Partly(mask, i + 1) == Partly(mask, i);
      TickingReaches(labels, mask, i + 1, cap);
    }
  }

  lemma DoneIsLast(labels: seq<string>, toggled: seq<bool>)
    requires |labels| == |toggled|
    ensures IndexOf(RoundOptions(labels, toggled), DONE) == |labels|
  {
    forall j | 0 <= j < |labels| ensures RoundOptions(labels, toggled)[j] != DONE {
      DisplayIsInjective(labels[j], "", toggled[j], true);
    }
  }

  lemma {:induction false} CountPrefix(mask: seq<bool>, i: nat)
    requires i <= |mask|
    ensures CountOn(mask[..i]) <= CountOn(mask)
  {
    if i < |mask| {
      CountPrefix(mask[..|mask| - 1], i);
      assert mask[..|mask| - 1][..i] == mask[..i];
    } else {
      assert mask[..i] == mask;
    }
  }

  /** Every subset of distinct options can be committed within the cap. */
  lemma EverySubsetIsReachable(labels: seq<string>, mask: seq<bool>)
    requires NoDup(labels) && |labels| == |mask|
    ensures Ask(labels, Ticking(labels, mask)).answer == Some(Selected(labels, mask))
  {
    CountOnBound(mask);
    assert mask[..0] == [] && Partly(mask, 0) == AllOff(|labels|);
    assert labels != [] ==> !AllOff(|labels|)[0];
    TickingReaches(labels, mask, 0, RoundCap(|labels|));
  }

  /** And that answer holds exactly the wanted options. */
  lemma ReachedAnswerHoldsMask(labels: seq<string>, mask: seq<bool>)
    requires NoDup(labels) && |labels| == |mask|
    ensures Ask(labels, Ticking(labels, mask)).answer.Some?
    ensures ListsExactly(Ask(labels, Ticking(labels, mask)).answer.value, labels, mask)
  {
    EverySubsetIsReachable(labels, mask);
    SelectedListsExactly(labels, mask);
  }

  // ----- The loop -----

  /** `askMultiSelect`. */
  method AskMultiSelect(labels: seq<string>, host: Host) returns (answer: Option<seq<string>>, dialogs: nat)
    ensures Outcome(answer, dialogs) == Ask(labels, host)
  {
    var toggled := new bool[|labels|](_ => false);
    var cap := RoundCap(|labels|);
    assert toggled[..] == AllOff(|labels|);
    for round := 0 to cap
      invariant toggled.Length == |labels| && Play(labels, toggled[..], host, round, cap) == Ask(labels, host)
    {
      var picked := host(round);
      if picked.None? {
        return None, round + 1;
      }
      var i := IndexOf(RoundOptions(labels, toggled[..]), picked.value);
      if i == |labels| {
        return Some(Selected(labels, toggled[..])), round + 1;
      }
      if i > |labels| {
        return None, round + 1;
      }
      ghost var before := toggled[..];
      toggled[i] := !toggled[i];
      assert toggled[..] == before[i := !before[i]];
      if AllOn(toggled[..]) {
        return Some(Selected(labels, toggled[..])), round + 1;
      }
    }
    return None, cap;
  }
}
