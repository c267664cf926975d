/**
 The rule for paths a delegated writer may edit (extensions/gentle-ai.ts:485-514, 536-580), over
 UTF-16 code units.
 */
module EditSurface {
  import opened Common
  import opened Utf16Strings
  import T = Text

  const SLASH: Unit := 0x2F
  const BACKSLASH: Unit := 0x5C
  const DOT: Unit := 0x2E
  const COLON: Unit := 0x3A
  const TILDE: Unit := 0x7E

  /** Classes Cc, Zl and Zp. */
  predicate IsControl(u: Unit) {
    u < 0x20 || 0x7F <= u <= 0x9F || u == 0x2028 || u == 0x2029
  }

  /** The property White_Space. */
  predicate IsWhiteSpace(u: Unit) {
    || 0x09 <= u <= 0x0D || u == 0x20 || u == 0x85 || u == 0xA0 || u == 0x1680 || 0x2000 <= u <= 0x200A
    || u == 0x2028 || u == 0x2029 || u == 0x202F || u == 0x205F || u == 0x3000
  }

  predicate IsLetter(u: Unit) {
    0x41 <= u <= 0x5A || 0x61 <= u <= 0x7A
  }

  /** `?`, `*`, brackets and braces. */
  predicate IsGlob(u: Unit) {
    u == 0x3F || u == 0x2A || u == 0x5B || u == 0x5D || u == 0x7B || u == 0x7D
  }

  /** Backslashes become slashes. */
  function Normalize(value: Utf16): (r: Utf16)
    ensures |r| == |value| && BACKSLASH !in r
  {
    seq(|value|, i requires 0 <= i < |value| => if value[i] == BACKSLASH then SLASH else value[i])
  }

  /** A drive letter, a leading slash, or a home directory. */
  predicate IsRooted(normalized: Utf16) {
    normalized != [] &&
    (normalized[0] == SLASH || normalized[0] == TILDE
     || (|normalized| > 1 && IsLetter(normalized[0]) && normalized[1] == COLON))
  }

  /** Drops every leading `./`. */
  function WithoutCurrentDirectory(p: Utf16): Utf16 {
    if |p| >= 2 && p[0] == DOT && p[1] == SLASH then WithoutCurrentDirectory(p[2..]) else p
  }

  predicate HasAny(p: Utf16, among: Unit -> bool) {
    exists i :: 0 <= i < |p| && among(p[i])
  }

  function Segments(p: Utf16): (r: seq<Utf16>)
    ensures |r| >= 1
  {
    T.SplitOn(p, SLASH)
  }

  /** `isTaskScopedRepositoryRelativePath`. */
  predicate Accepts(value: Utf16, backticked: bool) {
    var normalized := Normalize(value);
    var path := WithoutCurrentDirectory(normalized);
    && normalized != [] && !IsRooted(normalized)
    && !HasAny(normalized, IsControl)
    && (HasAny(normalized, IsWhiteSpace) ==> backticked)
    && path != [] && path != [DOT] && path[0] != SLASH
    && [DOT, DOT] !in Segments(path)
    && !HasAny(Segments(path)[0], IsGlob)
  }

  // ----- Lexical resolution -----

  /** Resolving one segment against a directory: empty and `.` stay, `..` goes up, a name goes down. */
  function Enter(directory: seq<Utf16>, segment: Utf16): seq<Utf16> {
    if segment == [] || segment == [DOT] then directory
    else if segment == [DOT, DOT] then if directory == [] then [] else directory[..|directory| - 1]
    else directory + [segment]
  }

  function Resolve(directory: seq<Utf16>, segments: seq<Utf16>): seq<Utf16>
    decreases segments
  {
    if segments == [] then directory else Resolve(Enter(directory, segments[0]), segments[1..])
  }

  /** Strictly below the root, through this first name. */
  ghost predicate BelowThrough(root: seq<Utf16>, r: seq<Utf16>, name: Utf16) {
    |root| < |r| && root <= r && r[|root|] == name
  }

  lemma {:induction false} NeverGoesUp(root: seq<Utf16>, name: Utf16, directory: seq<Utf16>, segments: seq<Utf16>)
    requires BelowThrough(root, directory, name) && [DOT, DOT] !in segments
    ensures BelowThrough(root, Resolve(directory, segments), name)
    decreases segments
  {
    if segments != [] {
      NeverGoesUp(root, name, Enter(directory, segments[0]), segments[1..]);
    }
  }

  lemma FirstSegment(p: Utf16)
    requires p != [] && p[0] != SLASH
    ensures Segments(p)[0] != [] && Segments(p)[0][0] == p[0]
    ensures Segments(p)[0] == [DOT] ==> p == [DOT] || (|p| > 1 && p[1] == SLASH)
  {
    if |p| > 1 && p[1] != SLASH {
      assert p[1..][0] == p[1] && T.SplitOn(p[1..], SLASH)[0] != [];
      assert |Segments(p)[0]| > 1;
    }
  }

  /** A leading `./` only adds a segment that stays where it is. */
  lemma {:induction false} CurrentDirectoryStays(root: seq<Utf16>, p: Utf16)
    ensures Resolve(root, Segments(p)) == Resolve(root, Segments(WithoutCurrentDirectory(p)))
    ensures !(|WithoutCurrentDirectory(p)| >= 2 && WithoutCurrentDirectory(p)[0] == DOT && WithoutCurrentDirectory(p)[1] == SLASH)
    decreases |p|
  {
    if |p| >= 2 && p[0] == DOT && p[1] == SLASH {
      assert p[1..][0] == SLASH && p[1..][1..] == p[2..];
      var rest := T.SplitOn(p[1..], SLASH);
      assert rest == [[]] + Segments(p[2..]);
      assert rest[1..] == Segments(p[2..]) && [DOT] + rest[0] == [DOT];
      assert Segments(p) == [[DOT]] + Segments(p[2..]);
      assert Segments(p)[1..] == Segments(p[2..]);
      CurrentDirectoryStays(root, p[2..]);
    }
  }

  /**
   Main result: an accepted path, resolved lexically from any root, lies strictly below that root, and the first
   name it goes through holds no glob character.
   */
  lemma AcceptedPathsStayBelow(value: Utf16, backticked: bool, root: seq<Utf16>)
    requires Accepts(value, backticked)
    ensures var r := Resolve(root, Segments(Normalize(value)));
      && |root| < |r| && root <= r && r[|root|] != []
      && (forall i :: 0 <= i < |r[|root|]| ==> !IsPattern(r[|root|][i]))
  {
    var path := WithoutCurrentDirectory(Normalize(value));
    CurrentDirectoryStays(root, Normalize(value));
    FirstSegment(path);
    var name, rest := Segments(path)[0], Segments(path)[1..];
    assert name in Segments(path) && forall s :: s in rest ==> s in Segments(path);
    assert Enter(root, name) == root + [name];
    NeverGoesUp(root, name, root + [name], rest);
  }

  // ----- Plain paths are accepted -----

  /** Letters, digits, `-` and `_`. */
  predicate IsNameUnit(u: Unit) {
    65 <= u <= 90 || 97 <= u <= 122 || 48 <= u <= 57 || u in [45, 95]
  }

  /** `?`, `*`, a bracket or a brace, by its code. */
  predicate IsPattern(u: Unit) {
    u in [0x3F, 0x2A, 0x5B, 0x5D, 0x7B, 0x7D]
  }

  /** A slash comes before position `i`. */
  ghost predicate SlashBefore(p: Utf16, i: nat) {
    exists j :: 0 <= j < i && j < |p| && p[j] == SLASH
  }

  /** Names joined by slashes, dots that are never adjacent, globs below the first name, and spaces when quoted. */
  ghost predicate IsPlain(p: Utf16, backticked: bool) {
    && p != [] && IsNameUnit(p[0])
    && (forall i :: 0 <= i < |p| ==>
          || IsNameUnit(p[i]) || p[i] == SLASH || p[i] == DOT
          || (IsPattern(p[i]) && SlashBefore(p, i)) || (backticked && p[i] == 0x20))
    && (forall i :: 0 <= i < |p| - 1 ==> !(p[i] == DOT && p[i + 1] == DOT))
  }

  predicate StretchAt(p: Utf16, segment: Utf16, k: nat) {
    k + |segment| <= |p| && p[k..k + |segment|] == segment
  }

  /** Each segment is a stretch of the path, the first one at its start. */
  lemma {:induction false} SegmentsAreStretches(p: Utf16, segment: Utf16)
    requires segment in Segments(p)
    ensures Segments(p)[0] <= p
    ensures exists k: nat :: StretchAt(p, segment, k)
  {
    if p == [] {
      assert StretchAt(p, segment, 0);
    } else {
      var rest := Segments(p[1..]);
      SegmentsAreStretches(p[1..], rest[0]);
      assert Segments(p)[0] <= p;
      if segment == Segments(p)[0] {
        assert StretchAt(p, segment, 0);
      } else {
        assert segment in rest;
        SegmentsAreStretches(p[1..], segment);
        var k: nat :| StretchAt(p[1..], segment, k);
        assert p[k + 1..k + 1 + |segment|] == p[1..][k..k + |segment|];
        assert StretchAt(p, segment, k + 1);
      }
    }
  }

  /** Ordinary relative paths are accepted, with narrow globs below their first name; only a space needs backticks. */
  lemma PlainPathsAreAccepted(value: Utf16, backticked: bool)
    requires IsPlain(value, backticked)
    ensures Accepts(value, backticked)
  {
    assert Normalize(value) == value && WithoutCurrentDirectory(value) == value;
    forall k: nat ensures !StretchAt(value, [DOT, DOT], k) {
      assert k + 2 <= |value| ==> value[k..k + 2] == [value[k], value[k + 1]];
    }
    if [DOT, DOT] in Segments(value) { SegmentsAreStretches(value, [DOT, DOT]); }
    NoPatternInFirstName(value, backticked);
  }

  lemma NoPatternInFirstName(value: Utf16, backticked: bool)
    requires IsPlain(value, backticked)
    ensures !HasAny(Segments(value)[0], IsGlob)
  {
    var first := Segments(value)[0];
    SegmentsAreStretches(value, first);
    assert SLASH !in first;
    assert forall i :: 0 <= i < |first| ==> value[i] == first[i] && first[i] in first;
  }

  // ----- What is refused -----

  lemma {:induction false} FirstNameReaches(p: Utf16, i: nat)
    requires i < |p| && forall j :: 0 <= j <= i ==> p[j] != SLASH
    ensures i < |Segments(p)[0]| && Segments(p)[0][i] == p[i]
  {
    if i > 0 {
      FirstNameReaches(p[1..], i - 1);
    }
  }

  lemma {:induction false} UpwardSegmentStays(p: Utf16)
    requires [DOT, DOT] in Segments(p)
    ensures [DOT, DOT] in Segments(WithoutCurrentDirectory(p))
    decreases |p|
  {
    if |p| >= 2 && p[0] == DOT && p[1] == SLASH {
      assert p[1..][0] == SLASH && p[1..][1..] == p[2..];
      var rest := T.SplitOn(p[1..], SLASH);
      assert rest == [[]] + Segments(p[2..]);
      assert Segments(p) == [[DOT] + rest[0]] + rest[1..];
      assert [DOT] + rest[0] == [DOT] && rest[1..] == Segments(p[2..]);
      UpwardSegmentStays(p[2..]);
    }
  }

  /** White space, code by code. */
  predicate IsBlankUnit(u: Unit) {
    || u == 9 || u == 10 || u == 11 || u == 12 || u == 13 || u == 32 || u == 133 || u == 160 || u == 5760
    || 8191 < u < 8203 || u == 8232 || u == 8233 || u == 8239 || u == 8287 || u == 12288
  }

  /** Resolution does go up: a path that begins with `..` leaves the root. */
  lemma UpwardLeaves(root: seq<Utf16>, name: Utf16)
    ensures Resolve(root + [name], [[DOT, DOT]]) == root
  {
    assert [[DOT, DOT]][1..] == [] && (root + [name])[..|root|] == root;
  }

  /** Reasons to refuse a path, told from its text. */
  ghost predicate IsUnsafe(value: Utf16, backticked: bool) {
    || value == [] || value[0] in [SLASH, BACKSLASH, TILDE]
    || (|value| > 1 && (65 <= value[0] <= 90 || 97 <= value[0] <= 122) && value[1] == COLON)
    || (exists i :: 0 <= i < |value| && (value[i] < 0x20 || 0x7F <= value[i] <= 0x9F || value[i] in [0x2028, 0x2029]))
    || (!backticked && exists i :: 0 <= i < |value| && IsBlankUnit(value[i]))
    || [DOT, DOT] in Segments(Normalize(value))
    || (exists i :: 0 <= i < |value| && IsPattern(value[i]) && forall j :: 0 <= j < i ==> value[j] != SLASH && value[j] != BACKSLASH)
  }

  lemma UnsafeUnitsAreRefused(value: Utf16, backticked: bool, i: nat)
    requires i < |value|
    requires || value[i] < 0x20 || 0x7F <= value[i] <= 0x9F || value[i] in [0x2028, 0x2029]
             || (!backticked && IsBlankUnit(value[i]))
    ensures !Accepts(value, backticked)
  {
    var p := Normalize(value);
    assert p[i] == value[i];
    if IsControl(p[i]) { assert HasAny(p, IsControl); } else { assert IsWhiteSpace(p[i]) && HasAny(p, IsWhiteSpace); }
  }

  lemma PatternInFirstNameIsRefused(value: Utf16, backticked: bool, i: nat)
    requires i < |value| && IsPattern(value[i]) && forall j :: 0 <= j < i ==> value[j] != SLASH && value[j] != BACKSLASH
    ensures !Accepts(value, backticked)
  {
    var p := Normalize(value);
    assert WithoutCurrentDirectory(p) == p;
    FirstNameReaches(p, i);
    assert IsGlob(Segments(p)[0][i]);
  }

  /** Absolute, home-relative and upward paths, control characters, unquoted spaces and globs in the first name are refused. */
  lemma UnsafePathsAreRefused(value: Utf16, backticked: bool)
    requires IsUnsafe(value, backticked)
    ensures !Accepts(value, backticked)
  {
    var p := Normalize(value);
    if [DOT, DOT] in Segments(p) {
      UpwardSegmentStays(p);
    } else if i :| 0 <= i < |value| && IsPattern(value[i]) && forall j :: 0 <= j < i ==> value[j] != SLASH && value[j] != BACKSLASH {
      PatternInFirstNameIsRefused(value, backticked, i);
    } else if i :| 0 <= i < |value| && (value[i] < 0x20 || 0x7F <= value[i] <= 0x9F || value[i] in [0x2028, 0x2029]) {
      UnsafeUnitsAreRefused(value, backticked, i);
    } else if i :| 0 <= i < |value| && IsBlankUnit(value[i]) && !backticked {
      UnsafeUnitsAreRefused(value, backticked, i);
    }
  }

  // ----- Several sections -----

  /** One line of a section, as parsed: its text, its path, and whether its Markdown is well formed. */
  datatype Entry = Entry(source: Utf16, value: Utf16, backticked: bool, validSyntax: bool)

  type Section = seq<Entry>

  predicate EntryOk(e: Entry) {
    e.validSyntax && !HasAny(e.source, IsControl) && Accepts(e.value, e.backticked)
  }

  predicate SectionOk(s: Section) {
    s != [] && forall i :: 0 <= i < |s| ==> EntryOk(s[i])
  }

  function Declared(s: Section): set<Utf16> {
    set i | 0 <= i < |s| :: s[i].value
  }

  /** `[...new Set(values)]`: first occurrences, in order. */
  function Unique(s: Section): seq<Utf16> {
    if s == [] then []
    else
      var before := Unique(s[..|s| - 1]);
      var value := s[|s| - 1].value;
      if value in before then before else before + [value]
  }

  lemma {:induction false} UniqueIsDeclared(s: Section)
    ensures NoDup(Unique(s)) && forall v :: v in Unique(s) <==> v in Declared(s)
  {
    if s != [] {
      UniqueIsDeclared(s[..|s| - 1]);
      assert Declared(s) == Declared(s[..|s| - 1]) + {s[|s| - 1].value};
    }
  }

  /** The sorted unique values are the declared set and nothing more. */
  lemma SameListSameSet(a: Section, b: Section)
    ensures SortKeys(Unique(a)) == SortKeys(Unique(b)) <==> Declared(a) == Declared(b)
  {
    UniqueIsDeclared(a);
    UniqueIsDeclared(b);
    SortKeysCorrect(Unique(a));
    SortKeysCorrect(Unique(b));
    if Declared(a) == Declared(b) {
      SortedListIsUnique(SortKeys(Unique(a)), SortKeys(Unique(b)));
    } else if SortKeys(Unique(a)) == SortKeys(Unique(b)) {
      assert forall v :: v in Declared(a) <==> v in Declared(b);
    }
  }

  /** There is a section, each one is valid, and all declare the same set of paths. */
  ghost predicate ScopedConsistently(sections: seq<Section>) {
    && sections != []
    && [] !in sections
    && (forall s, e :: s in sections && e in s ==> e.validSyntax && !HasAny(e.source, IsControl) && Accepts(e.value, e.backticked))
    && (forall i :: 0 <= i < |sections| ==> Declared(sections[i]) == Declared(sections[0]))
  }

  /** `hasTaskScopedAllowedEditSurfaces`, on parsed sections. */
  method HasTaskScopedSurfaces(sections: seq<Section>) returns (ok: bool)
    ensures ok <==> ScopedConsistently(sections)
  {
    var expected: Option<seq<Utf16>> := None;
    for n := 0 to |sections|
      invariant forall i :: 0 <= i < n ==> SectionOk(sections[i]) && Declared(sections[i]) == Declared(sections[0])
      invariant expected == if n == 0 then None else Some(SortKeys(Unique(sections[n - 1])))
    {
      assert sections[n] in sections;
      if !SectionOk(sections[n]) {
        assert sections[n] != [] ==> exists e :: e in sections[n] && !EntryOk(e);
        return false;
      }
      var unique := SortKeys(Unique(sections[n]));
      if n > 0 {
        SameListSameSet(sections[n - 1], sections[n]);
      }
      if expected.Some? && expected.value != unique {
        return false;
      }
      expected := Some(unique);
    }
    ok := sections != [];
    assert forall s :: s in sections ==> exists i :: 0 <= i < |sections| && sections[i] == s && SectionOk(sections[i]);
  }
}
