/** JavaScript string operations the modelled code relies on, over strings of characters. */
module Text {
  import opened Common

  // ----- indexOf -----

  predicate MatchesAt(s: string, pattern: string, i: nat) {
    i + |pattern| <= |s| && s[i..i + |pattern|] == pattern
  }

  /** `s.indexOf(pattern, from)`: the first match at or after `from`, or -1. */
  function IndexOf(s: string, pattern: string, from: nat): (r: int)
    ensures r == -1 ==> forall i :: from <= i ==> !MatchesAt(s, pattern, i)
    ensures r != -1 ==> from <= r && MatchesAt(s, pattern, r) && forall i :: from <= i < r ==> !MatchesAt(s, pattern, i)
    decreases |s| - from
  {
    if from + |pattern| > |s| then -1
    else if MatchesAt(s, pattern, from) then from
    else IndexOf(s, pattern, from + 1)
  }

  lemma MatchInside(s: string, pattern: string, from: nat, to: nat, i: nat)
    requires from <= to <= |s| && MatchesAt(s[from..to], pattern, i)
    ensures MatchesAt(s, pattern, from + i)
  {
    var part, n := s[from..to], |pattern|;
    assert part[i..i + n] == pattern;
    assert forall k :: 0 <= k < n ==> pattern[k] == part[i..i + n][k] == part[i + k] == s[from + i + k];
  }

  lemma NoFirstNoMatch(s: string, pattern: string)
    requires pattern != "" && pattern[0] !in s
    ensures forall i: nat :: !MatchesAt(s, pattern, i)
  {
    forall i: nat ensures !MatchesAt(s, pattern, i) {
      assert i + |pattern| <= |s| ==> s[i..i + |pattern|][0] == s[i];
    }
  }

  // ----- split and join -----

  /** `s.split(separator)` for a one-character separator: never empty, and no piece holds the separator. */
  function SplitOn<T(==)>(s: seq<T>, separator: T): (pieces: seq<seq<T>>)
    ensures |pieces| >= 1
    ensures forall i :: 0 <= i < |pieces| ==> separator !in pieces[i]
  {
    if s == [] then [[]]
    else
      var rest := SplitOn(s[1..], separator);
      if s[0] == separator then [[]] + rest else [[s[0]] + rest[0]] + rest[1..]
  }

  predicate OneLine(s: string) {
    '\n' !in s
  }

  function Split(s: string): (lines: seq<string>)
    ensures |lines| >= 1
    ensures forall i :: 0 <= i < |lines| ==> OneLine(lines[i])
  {
    SplitOn(s, '\n')
  }

  /** `lines.join(separator)`. */
  function Join(lines: seq<string>, separator: string): string {
    if lines == [] then ""
    else if |lines| == 1 then lines[0]
    else lines[0] + separator + Join(lines[1..], separator)
  }

  lemma {:induction false} JoinOfSplit(s: string)
    ensures Join(Split(s), "\n") == s
  {
    if s != "" {
      JoinOfSplit(s[1..]);
      var rest := Split(s[1..]);
      if s[0] == '\n' {
        assert ([""] + rest)[1..] == rest;
      } else {
        assert ([[s[0]] + rest[0]] + rest[1..])[1..] == rest[1..];
      }
    }
  }

  lemma {:induction false} SplitOfLine(line: string)
    requires OneLine(line)
    ensures Split(line) == [line]
  {
    if line != "" {
      SplitOfLine(line[1..]);
      assert [line[0]] + line[1..] == line;
    }
  }

  lemma {:induction false} SplitAtLine(line: string, rest: string)
    requires OneLine(line)
    ensures Split(line + "\n" + rest) == [line] + Split(rest)
  {
    var s := line + "\n" + rest;
    if line == "" {
      assert s[1..] == rest;
    } else {
      SplitAtLine(line[1..], rest);
      assert s[1..] == line[1..] + "\n" + rest;
      assert ([line[1..]] + Split(rest))[1..] == Split(rest);
      assert [line[0]] + line[1..] == line;
    }
  }

  /** Splitting undoes joining for any non-empty list of single lines. */
  lemma {:induction false} SplitOfJoin(lines: seq<string>)
    requires |lines| >= 1 && forall i :: 0 <= i < |lines| ==> OneLine(lines[i])
    ensures Split(Join(lines, "\n")) == lines
  {
    if |lines| == 1 {
      SplitOfLine(lines[0]);
    } else {
      SplitOfJoin(lines[1..]);
      SplitAtLine(lines[0], Join(lines[1..], "\n"));
    }
  }

  // ----- trim -----

  /** The white space and line terminators `String.prototype.trim` removes. */
  predicate IsSpace(c: char) {
    || '\U{0009}' <= c <= '\U{000D}' || c == ' ' || c == '\U{00A0}' || c == '\U{FEFF}'
    || c == '\U{1680}' || '\U{2000}' <= c <= '\U{200A}' || c == '\U{2028}' || c == '\U{2029}'
    || c == '\U{202F}' || c == '\U{205F}' || c == '\U{3000}'
  }

  function TrimStart(s: string): string {
    if s != "" && IsSpace(s[0]) then TrimStart(s[1..]) else s
  }

  function TrimEnd(s: string): string {
    if s != "" && IsSpace(s[|s| - 1]) then TrimEnd(s[..|s| - 1]) else s
  }

  function Trim(s: string): string {
    TrimEnd(TrimStart(s))
  }

  /** Only white space: `s.trim() === ""`. */
  predicate Blank(s: string) {
    forall i :: 0 <= i < |s| ==> IsSpace(s[i])
  }

  lemma {:induction false} TrimStartBlank(s: string)
    ensures TrimStart(s) == "" <==> Blank(s)
    ensures TrimStart(s) != "" ==> !IsSpace(TrimStart(s)[0])
  {
    if s != "" && IsSpace(s[0]) {
      TrimStartBlank(s[1..]);
      assert Blank(s) <==> Blank(s[1..]) by {
        if Blank(s[1..]) {
          forall i | 0 <= i < |s| ensures IsSpace(s[i]) {
            if i > 0 { assert s[i] == s[1..][i - 1]; }
          }
        }
      }
    }
  }

  lemma {:induction false} TrimEndKeepsFirst(s: string)
    requires s != "" && !IsSpace(s[0])
    ensures TrimEnd(s) != ""
  {
    if IsSpace(s[|s| - 1]) {
      TrimEndKeepsFirst(s[..|s| - 1]);
    }
  }

  /** Trimming leaves nothing exactly when there was only white space. */
  lemma TrimBlank(s: string)
    ensures Trim(s) == "" <==> Blank(s)
  {
    TrimStartBlank(s);
    if TrimStart(s) != "" {
      TrimEndKeepsFirst(TrimStart(s));
    }
  }

  // ----- Strings that may be passed to a process -----

  /** `isCanonicalProcessString`: something, without white space around it, without control characters. */
  predicate IsProcessString(s: string) {
    s != "" && Trim(s) == s && forall i :: 0 <= i < |s| ==> !(s[i] < ' ') && s[i] != '\U{007F}'
  }

  lemma {:induction false} TrimIsShorter(s: string)
    ensures |TrimStart(s)| <= |s| && |TrimEnd(s)| <= |s|
  {
    if s != "" && IsSpace(s[0]) { TrimIsShorter(s[1..]); }
    if s != "" && IsSpace(s[|s| - 1]) { TrimIsShorter(s[..|s| - 1]); }
  }

  /** Such a string begins and ends with something visible and holds no code below 32 and no delete. */
  lemma ProcessStringIff(s: string)
    ensures IsProcessString(s) <==>
      && s != "" && !IsSpace(s[0]) && !IsSpace(s[|s| - 1])
      && forall c :: c in s ==> c as int >= 32 && c as int != 127
  {
    if s != "" {
      TrimmedEnds(s);
      assert forall i :: 0 <= i < |s| ==> s[i] in s;
    }
  }

  lemma TrimmedEnds(s: string)
    requires s != ""
    ensures Trim(s) == s <==> !IsSpace(s[0]) && !IsSpace(s[|s| - 1])
  {
    if IsSpace(s[0]) {
      TrimIsShorter(s[1..]);
      TrimIsShorter(TrimStart(s));
      assert |Trim(s)| < |s|;
    } else if IsSpace(s[|s| - 1]) {
      TrimIsShorter(s[..|s| - 1]);
      assert |Trim(s)| < |s|;
    }
  }
}
