/**
 JSON values, their canonical binding text, and a parser for section 2 to 7 of RFC 8259
 (extensions/gentle-ai.ts:7173-7189). Strings are UTF-16 code units and objects keep their
 insertion order, as in JavaScript.
 */
module Json {
  import opened Common
  import opened Utf16Strings

  /**
   A JavaScript number. A finite one is represented by the text `JSON.stringify` gives it; zero with a
   minus sign and the values that are not finite are apart because they do not print as themselves.
   */
  datatype Number = Finite(token: Utf16) | NegativeZero | NotFinite

  datatype Value =
    | Null
    | Bool(b: bool)
    | Num(n: Number)
    | Str(s: Utf16)
    | Arr(items: seq<Value>)
    | Obj(members: seq<Member>)

  datatype Member = Member(key: Utf16, value: Value)

  /** Text to number, the part of `JSON.parse` that is not modelled further. */
  type NumberReader = Utf16 -> Number

  // ----- Characters -----

  const QUOTE: Unit := 0x22
  const BACKSLASH: Unit := 0x5C
  const COMMA: Unit := 0x2C
  const COLON: Unit := 0x3A
  const OPEN_ARRAY: Unit := 0x5B
  const CLOSE_ARRAY: Unit := 0x5D
  const OPEN_OBJECT: Unit := 0x7B
  const CLOSE_OBJECT: Unit := 0x7D
  const NULL_TEXT: Utf16 := [0x6E, 0x75, 0x6C, 0x6C]
  const TRUE_TEXT: Utf16 := [0x74, 0x72, 0x75, 0x65]
  const FALSE_TEXT: Utf16 := [0x66, 0x61, 0x6C, 0x73, 0x65]
  const ZERO: Utf16 := [0x30]

  predicate IsSpace(u: Unit) {
    u == 0x20 || u == 0x09 || u == 0x0A || u == 0x0D
  }

  predicate IsDigit(u: Unit) {
    0x30 <= u <= 0x39
  }

  /** Digits, the two signs, the point and the exponent letters. */
  predicate IsNumberUnit(u: Unit) {
    IsDigit(u) || u == 0x2B || u == 0x2D || u == 0x2E || u == 0x45 || u == 0x65
  }

  predicate IsHighSurrogate(u: Unit) {
    0xD800 <= u <= 0xDBFF
  }

  predicate IsLowSurrogate(u: Unit) {
    0xDC00 <= u <= 0xDFFF
  }

  // ----- Numbers (section 6) -----

  function SkipDigits(t: Utf16): Utf16 {
    if t != [] && IsDigit(t[0]) then SkipDigits(t[1..]) else t
  }

  predicate StartsWithDigit(t: Utf16) {
    t != [] && IsDigit(t[0])
  }

  predicate IsExponent(t: Utf16) {
    t == [] ||
    ((t[0] == 0x65 || t[0] == 0x45) &&
     var e := if |t| > 1 && (t[1] == 0x2B || t[1] == 0x2D) then t[2..] else t[1..];
     StartsWithDigit(e) && SkipDigits(e) == [])
  }

  predicate IsFraction(t: Utf16) {
    if t != [] && t[0] == 0x2E then StartsWithDigit(t[1..]) && IsExponent(SkipDigits(t[1..])) else IsExponent(t)
  }

  /** What follows an optional minus. */
  predicate IsUnsigned(a: Utf16) {
    StartsWithDigit(a) && IsFraction(if a[0] == 0x30 then a[1..] else SkipDigits(a))
  }

  predicate IsNumberToken(t: Utf16) {
    var a := if t != [] && t[0] == 0x2D then t[1..] else t;
    (forall i :: 0 <= i < |t| ==> IsNumberUnit(t[i])) && IsUnsigned(a)
  }

  /** Number tokens are recognised by their longest run: no number character may follow a number. */
  function NumberRun(s: Utf16): (n: nat)
    ensures n <= |s|
  {
    if s != [] && IsNumberUnit(s[0]) then 1 + NumberRun(s[1..]) else 0
  }

  ghost predicate AllDigits(s: Utf16) {
    s != [] && forall i :: 0 <= i < |s| ==> 48 <= s[i] <= 57
  }

  /** `int` of the grammar: zero, or digits that do not start with one. */
  ghost predicate IsIntPart(s: Utf16) {
    AllDigits(s) && (s[0] == 48 ==> |s| == 1)
  }

  /** `frac`: nothing, or a point and digits. */
  ghost predicate IsFracPart(s: Utf16) {
    s == [] || (s[0] == 46 && AllDigits(s[1..]))
  }

  /** `exp`: nothing, or an `e`, perhaps a sign, and digits. */
  ghost predicate IsExpPart(s: Utf16) {
    s == [] || (s[0] in [69, 101] && (AllDigits(s[1..]) || (|s| > 1 && s[1] in [43, 45] && AllDigits(s[2..]))))
  }

  /** The number grammar: perhaps a minus, then the three parts. */
  ghost predicate IsNumberText(t: Utf16) {
    exists minus: Utf16, whole: Utf16, fraction: Utf16, exponent: Utf16 :: Splits(t, minus, whole, fraction, exponent)
  }

  ghost predicate Splits(t: Utf16, minus: Utf16, whole: Utf16, fraction: Utf16, exponent: Utf16) {
    && t == minus + whole + fraction + exponent && (minus == [] || minus == [45])
    && IsIntPart(whole) && IsFracPart(fraction) && IsExpPart(exponent)
  }

  /** How many digits a text begins with. */
  function DigitRun(t: Utf16): (n: nat)
    ensures n <= |t| && (forall i :: 0 <= i < n ==> 48 <= t[i] <= 57) && (n < |t| ==> !(48 <= t[n] <= 57))
  {
    if t != [] && 48 <= t[0] <= 57 then 1 + DigitRun(t[1..]) else 0
  }

  lemma {:induction false} SkipDigitsIs(t: Utf16)
    ensures SkipDigits(t) == t[DigitRun(t)..]
  {
    if t != [] && IsDigit(t[0]) { SkipDigitsIs(t[1..]); }
  }

  lemma {:induction false} DigitRunOf(digits: Utf16, rest: Utf16)
    requires (forall i :: 0 <= i < |digits| ==> 48 <= digits[i] <= 57) && (rest != [] ==> !(48 <= rest[0] <= 57))
    ensures DigitRun(digits + rest) == |digits|
  {
    if digits == [] {
      assert digits + rest == rest;
    } else {
      DigitRunOf(digits[1..], rest);
      assert (digits + rest)[1..] == digits[1..] + rest;
    }
  }

  lemma ExponentIff(t: Utf16)
    ensures IsExponent(t) <==> IsExpPart(t)
  {
    if t != [] {
      OnlyDigits(t[1..]);
      if |t| > 1 { OnlyDigits(t[2..]); }
    }
  }

  lemma OnlyDigits(e: Utf16)
    ensures (StartsWithDigit(e) && SkipDigits(e) == []) <==> AllDigits(e)
  {
    SkipDigitsIs(e);
  }

  /** The part before the exponent ends at `k`. */
  ghost predicate FractionEnds(t: Utf16, k: nat) {
    k <= |t| && IsFracPart(t[..k]) && IsExpPart(t[k..])
  }

  lemma PointedFraction(t: Utf16)
    requires t != [] && t[0] == 46
    ensures IsFraction(t) ==> FractionEnds(t, DigitRun(t[1..]) + 1)
    ensures forall k: nat :: FractionEnds(t, k) ==> IsFraction(t)
  {
    var n := DigitRun(t[1..]);
    SkipDigitsIs(t[1..]);
    ExponentIff(t[n + 1..]);
    assert t[1..][n..] == t[n + 1..] && t[..n + 1][1..] == t[1..][..n];
    forall k: nat | FractionEnds(t, k) ensures k == n + 1 && IsFraction(t) {
      PointedFractionEnd(t, k);
    }
  }

  lemma PointedFractionEnd(t: Utf16, k: nat)
    requires t != [] && t[0] == 46 && FractionEnds(t, k)
    ensures k == DigitRun(t[1..]) + 1 && AllDigits(t[1..k])
  {
    assert t[0..] == t;
    assert k > 0;
    assert t[1..] == t[1..k] + t[k..] && t[..k][1..] == t[1..k];
    DigitRunOf(t[1..k], t[k..]);
  }

  lemma FractionIff(t: Utf16)
    ensures IsFraction(t) <==> exists k: nat :: FractionEnds(t, k)
  {
    if t != [] && t[0] == 46 {
      PointedFraction(t);
    } else {
      ExponentIff(t);
      assert t[..0] == [] && t[0..] == t;
      assert IsFraction(t) ==> FractionEnds(t, 0);
      assert forall j :: 0 < j <= |t| ==> t[..j][0] == t[0];
      assert forall k: nat :: FractionEnds(t, k) ==> k == 0;
    }
  }

  lemma WholePart(a: Utf16)
    ensures IsUnsigned(a) <==>
      exists k: nat :: k <= |a| && IsIntPart(a[..k]) && IsFraction(a[k..])
  {
    var n := DigitRun(a);
    SkipDigitsIs(a);
    if StartsWithDigit(a) {
      var m := if a[0] == 0x30 then 1 else n;
      if IsFraction(a[m..]) { assert IsIntPart(a[..m]); }
      forall k: nat | k <= |a| && IsIntPart(a[..k]) && IsFraction(a[k..]) ensures k == m {
        WholePartEnd(a, k);
      }
    }
    forall k: nat | k <= |a| && IsIntPart(a[..k]) ensures StartsWithDigit(a) {
      assert a[..k][0] == a[0];
    }
  }

  lemma WholePartEnd(a: Utf16, k: nat)
    requires k <= |a| && IsIntPart(a[..k]) && IsFraction(a[k..])
    ensures k == if a[0] == 48 then 1 else DigitRun(a)
  {
    assert a[..k][0] == a[0] && a == a[..k] + a[k..];
    assert a[k..] != [] ==> a[k..][0] in [46, 69, 101];
    DigitRunOf(a[..k], a[k..]);
  }

  lemma SplitsAt(t: Utf16, minus: Utf16, whole: Utf16, rest: Utf16, k: nat)
    requires t == minus + whole + rest && FractionEnds(rest, k)
    requires (minus == [] || minus == [45]) && IsIntPart(whole)
    ensures IsNumberText(t)
  {
    assert t == minus + whole + rest[..k] + rest[k..];
    assert Splits(t, minus, whole, rest[..k], rest[k..]);
  }

  lemma PartsAreNumberUnits(t: Utf16, minus: Utf16, whole: Utf16, fraction: Utf16, exponent: Utf16)
    requires Splits(t, minus, whole, fraction, exponent)
    ensures forall i :: 0 <= i < |t| ==> IsNumberUnit(t[i])
  {
    assert forall i :: 0 <= i < |fraction| ==> i == 0 || fraction[i] == fraction[1..][i - 1];
    assert forall i :: 0 <= i < |exponent| ==> i == 0 || exponent[i] == exponent[1..][i - 1];
    assert forall i :: 2 <= i < |exponent| ==> exponent[i] == exponent[2..][i - 2];
    assert forall i :: 0 <= i < |exponent| ==> IsNumberUnit(exponent[i]);
    assert forall i :: 0 <= i < |fraction| ==> IsNumberUnit(fraction[i]);
  }

  lemma UnsignedIsText(minus: Utf16, a: Utf16)
    requires IsUnsigned(a) && (minus == [] || minus == [45])
    ensures IsNumberText(minus + a)
  {
    WholePart(a);
    var k: nat :| k <= |a| && IsIntPart(a[..k]) && IsFraction(a[k..]);
    UnsignedAt(minus, a[..k], a[k..]);
    CutAt(minus, a, k);
  }

  lemma CutAt(minus: Utf16, a: Utf16, k: nat)
    requires k <= |a|
    ensures minus + a[..k] + a[k..] == minus + a
  {
    assert a == a[..k] + a[k..];
  }

  lemma UnsignedAt(minus: Utf16, whole: Utf16, rest: Utf16)
    requires IsIntPart(whole) && IsFraction(rest) && (minus == [] || minus == [45])
    ensures IsNumberText(minus + whole + rest)
  {
    FractionIff(rest);
    var j: nat :| FractionEnds(rest, j);
    SplitsAt(minus + whole + rest, minus, whole, rest, j);
  }

  lemma TextIsUnsigned(whole: Utf16, fraction: Utf16, exponent: Utf16)
    requires IsIntPart(whole) && IsFracPart(fraction) && IsExpPart(exponent)
    ensures IsUnsigned(whole + fraction + exponent)
  {
    var rest, a := fraction + exponent, whole + fraction + exponent;
    assert rest[..|fraction|] == fraction && rest[|fraction|..] == exponent;
    assert FractionEnds(rest, |fraction|);
    FractionIff(rest);
    assert a[..|whole|] == whole && a[|whole|..] == rest;
    WholePart(a);
  }

  lemma TextIsToken(t: Utf16, minus: Utf16, whole: Utf16, fraction: Utf16, exponent: Utf16)
    requires Splits(t, minus, whole, fraction, exponent)
    ensures IsNumberToken(t)
  {
    var a := whole + fraction + exponent;
    PartsAreNumberUnits(t, minus, whole, fraction, exponent);
    TextIsUnsigned(whole, fraction, exponent);
    assert a[0] == whole[0] && t == minus + a;
    if minus == [] {
      assert t == a;
    } else {
      assert t[0] == 45 && t[1..] == a;
    }
  }

  /** A number token is what the grammar of section 6 derives, and nothing else. */
  lemma NumberTokenIff(t: Utf16)
    ensures IsNumberToken(t) <==> IsNumberText(t)
  {
    if IsNumberToken(t) {
      if t[0] == 0x2D {
        assert t == [45] + t[1..];
        UnsignedIsText([45], t[1..]);
      } else {
        assert [] + t == t;
        UnsignedIsText([], t);
      }
    }
    if IsNumberText(t) {
      var minus, whole, fraction, exponent :| Splits(t, minus, whole, fraction, exponent);
      TextIsToken(t, minus, whole, fraction, exponent);
    }
  }

  function PrintNumber(n: Number): Utf16 {
    match n
    case Finite(token) => token
    case NegativeZero => ZERO
    case NotFinite => NULL_TEXT
  }

  // ----- Strings (section 7) -----

  function HexDigit(d: nat): Unit
    requires d < 16
  {
    if d < 10 then 0x30 + d else 0x57 + d
  }

  function HexValue(u: Unit): Option<nat>
  {
    if IsDigit(u) then Some(u - 0x30)
    else if 0x61 <= u <= 0x66 then Some(u - 0x57)
    else if 0x41 <= u <= 0x46 then Some(u - 0x37)
    else None
  }

  function UnicodeEscape(u: Unit): Utf16 {
    [BACKSLASH, 0x75, HexDigit(u / 0x1000), HexDigit(u / 0x100 % 16), HexDigit(u / 16 % 16), HexDigit(u % 16)]
  }

  /** The two-character escapes: backspace, tab, line feed, form feed, carriage return, quote, backslash. */
  function ShortEscape(u: Unit): Option<Unit> {
    if u == 0x08 then Some(0x62)
    else if u == 0x09 then Some(0x74)
    else if u == 0x0A then Some(0x6E)
    else if u == 0x0C then Some(0x66)
    else if u == 0x0D then Some(0x72)
    else if u == QUOTE || u == BACKSLASH then Some(u)
    else None
  }

  /** How one unit that is not half of a surrogate pair is quoted. */
  function EscapeUnit(u: Unit): Utf16 {
    if ShortEscape(u).Some? then [BACKSLASH, ShortEscape(u).value]
    else if u < 0x20 || IsHighSurrogate(u) || IsLowSurrogate(u) then UnicodeEscape(u)
    else [u]
  }

  predicate StartsWithPair(s: Utf16) {
    |s| >= 2 && IsHighSurrogate(s[0]) && IsLowSurrogate(s[1])
  }

  function Escape(s: Utf16): Utf16 {
    if s == [] then []
    else if StartsWithPair(s) then s[..2] + Escape(s[2..])
    else EscapeUnit(s[0]) + Escape(s[1..])
  }

  /** `JSON.stringify` of a string. */
  function Quote(s: Utf16): Utf16 {
    [QUOTE] + Escape(s) + [QUOTE]
  }

  /** How a code unit that is not half of a pair is written: as itself where it can be, by a letter where there is one, by its code otherwise. */
  lemma EscapedUnitIs(u: Unit)
    ensures u >= 32 && u != 34 && u != 92 && !(55296 <= u <= 57343) ==> EscapeUnit(u) == [u]
    ensures u == 34 || u == 92 ==> EscapeUnit(u) == [92, u]
    ensures u == 8 ==> EscapeUnit(u) == [92, 98]
    ensures u == 9 ==> EscapeUnit(u) == [92, 116]
    ensures u == 10 ==> EscapeUnit(u) == [92, 110]
    ensures u == 12 ==> EscapeUnit(u) == [92, 102]
    ensures u == 13 ==> EscapeUnit(u) == [92, 114]
    ensures (u < 32 && u !in [8, 9, 10, 12, 13]) || 55296 <= u <= 57343 ==>
      EscapeUnit(u) == [92, 117, HexDigit(u / 4096), HexDigit(u / 256 % 16), HexDigit(u / 16 % 16), HexDigit(u % 16)]
  {
  }

  /** A pair is written as itself; any other first unit on its own. */
  lemma EscapedTextIs(s: Utf16)
    requires s != []
    ensures var pair := |s| > 1 && 55296 <= s[0] <= 56319 && 56320 <= s[1] <= 57343;
      Escape(s) == if pair then [s[0], s[1]] + Escape(s[2..]) else EscapeUnit(s[0]) + Escape(s[1..])
  {
    if |s| > 1 { assert s[..2] == [s[0], s[1]]; }
  }

  /** Hexadecimal digits are written in lower case and read in either. */
  lemma HexDigitsAre(u: Unit)
    ensures HexValue(u).Some? <==> 48 <= u <= 57 || 65 <= u <= 70 || 97 <= u <= 102
    ensures HexValue(u).Some? ==> HexValue(u).value == if u <= 57 then u - 48 else if u <= 70 then u - 55 else u - 87
    ensures u < 16 ==> HexDigit(u) == if u < 10 then 48 + u else 87 + u
  {
  }

  /** No code below 32, and every surrogate stands in a pair: high first, then low. */
  ghost predicate IsWellFormedText(s: Utf16) {
    && (forall i :: 0 <= i < |s| ==> s[i] >= 32)
    && (forall i :: 0 <= i < |s| && 55296 <= s[i] <= 56319 ==> i + 1 < |s| && 56320 <= s[i + 1] <= 57343)
    && (forall i :: 0 <= i < |s| && 56320 <= s[i] <= 57343 ==> i > 0 && 55296 <= s[i - 1] <= 56319)
  }

  lemma WellFormedConcat(a: Utf16, b: Utf16)
    requires IsWellFormedText(a) && IsWellFormedText(b)
    ensures IsWellFormedText(a + b)
  {
    var s := a + b;
    assert forall i :: 0 <= i < |a| ==> s[i] == a[i];
    assert forall i :: |a| <= i < |s| ==> s[i] == b[i - |a|];
  }

  lemma EscapedUnitIsWellFormed(u: Unit)
    ensures IsWellFormedText(EscapeUnit(u))
  {
    if ShortEscape(u).None? && (u < 0x20 || IsHighSurrogate(u) || IsLowSurrogate(u)) {
      HexTextIsPlain(u / 0x1000);
      HexTextIsPlain(u / 0x100 % 16);
      HexTextIsPlain(u / 16 % 16);
      HexTextIsPlain(u % 16);
    }
  }

  lemma HexTextIsPlain(d: nat)
    requires d < 16
    ensures 32 <= HexDigit(d) < 128
  {
  }

  /** Whatever a string holds, its quoted text is well-formed UTF-16 without control characters. */
  lemma {:induction false} EscapedIsWellFormed(s: Utf16)
    ensures IsWellFormedText(Escape(s))
  {
    if StartsWithPair(s) {
      EscapedIsWellFormed(s[2..]);
      WellFormedConcat(s[..2], Escape(s[2..]));
    } else if s != [] {
      EscapedIsWellFormed(s[1..]);
      EscapedUnitIsWellFormed(s[0]);
      WellFormedConcat(EscapeUnit(s[0]), Escape(s[1..]));
    }
  }

  // ----- The canonical printer -----

  function KeysOf(members: seq<Member>): (keys: seq<Utf16>)
    ensures |keys| == |members| && forall i :: 0 <= i < |keys| ==> keys[i] == members[i].key
  {
    seq(|members|, i requires 0 <= i < |members| => members[i].key)
  }

  /** Position of the first member with this key, or the number of members. */
  function KeyIndex(members: seq<Member>, key: Utf16): (i: nat)
    ensures i <= |members| && (i < |members| ==> members[i].key == key)
    ensures forall j :: 0 <= j < i ==> members[j].key != key
  {
    if members == [] || members[0].key == key then 0 else 1 + KeyIndex(members[1..], key)
  }

  predicate HasKey(members: seq<Member>, key: Utf16) {
    KeyIndex(members, key) < |members|
  }

  /** `value[key]`. */
  function Get(members: seq<Member>, key: Utf16): Value
    requires HasKey(members, key)
  {
    members[KeyIndex(members, key)].value
  }

  function Canonical(v: Value): Utf16
    decreases v, 1
  {
    match v
    case Null => NULL_TEXT
    case Bool(b) => if b then TRUE_TEXT else FALSE_TEXT
    case Num(n) => PrintNumber(n)
    case Str(s) => Quote(s)
    case Arr(items) => [OPEN_ARRAY] + CanonicalItems(items) + [CLOSE_ARRAY]
    case Obj(members) => [OPEN_OBJECT] + CanonicalMembers(SortKeys(KeysOf(members)), members) + [CLOSE_OBJECT]
  }

  function CanonicalItems(items: seq<Value>): Utf16
    decreases items, 0
  {
    if items == [] then []
    else Canonical(items[0]) + if |items| == 1 then [] else [COMMA] + CanonicalItems(items[1..])
  }

  function CanonicalMembers(keys: seq<Utf16>, members: seq<Member>): Utf16
    decreases members, |keys|
  {
    if keys == [] then []
    else
      var value := if HasKey(members, keys[0]) then Canonical(Get(members, keys[0])) else NULL_TEXT;
      Quote(keys[0]) + [COLON] + value
      + if |keys| == 1 then [] else [COMMA] + CanonicalMembers(keys[1..], members)
  }

  // ----- Well-formed values and what the printer forgets -----

  /** Object keys are distinct, and every finite number reads back from its own text. */
  ghost predicate WellFormed(v: Value, read: NumberReader) {
    match v
    case Num(n) => n.Finite? ==> IsNumberToken(n.token) && read(n.token) == n
    case Arr(items) => forall i :: 0 <= i < |items| ==> WellFormed(items[i], read)
    case Obj(members) =>
      && NoDup(KeysOf(members))
      && forall i :: 0 <= i < |members| ==> WellFormed(members[i].value, read)
    case _ => true
  }

  /** No number that prints as something else. */
  ghost predicate Plain(v: Value) {
    match v
    case Num(n) => n.Finite?
    case Arr(items) => forall i :: 0 <= i < |items| ==> Plain(items[i])
    case Obj(members) => forall i :: 0 <= i < |members| ==> Plain(members[i].value)
    case _ => true
  }

  /**
   Equal up to the order of object keys. The lenient form also identifies numbers that print alike:
   minus zero with zero, and every number that is not finite with null.
   */
  ghost predicate Equivalent(u: Value, v: Value, lenient: bool)
    decreases u
  {
    match u
    case Arr(items) =>
      && v.Arr? && |items| == |v.items|
      && (forall i :: 0 <= i < |items| ==> Equivalent(items[i], v.items[i], lenient))
    case Obj(members) =>
      && v.Obj? && |members| == |v.members|
      && (forall i :: 0 <= i < |members| ==>
            && HasKey(v.members, members[i].key)
            && Equivalent(members[i].value, Get(v.members, members[i].key), lenient))
    case _ => if lenient then Canon(u) == Canon(v) else u == v
  }

  /** The value a canonical text denotes: keys sorted at every level, unprintable numbers replaced. */
  function Canon(v: Value): Value
    decreases v, 1
  {
    match v
    case Num(NegativeZero) => Num(Finite(ZERO))
    case Num(NotFinite) => Null
    case Arr(items) => Arr(CanonItems(items))
    case Obj(members) => Obj(CanonMembers(SortKeys(KeysOf(members)), members))
    case _ => v
  }

  function CanonItems(items: seq<Value>): (r: seq<Value>)
    ensures |r| == |items| && forall i :: 0 <= i < |items| ==> r[i] == Canon(items[i])
    decreases items, 0
  {
    if items == [] then [] else [Canon(items[0])] + CanonItems(items[1..])
  }

  function CanonMembers(keys: seq<Utf16>, members: seq<Member>): (r: seq<Member>)
    ensures |r| == |keys|
    ensures forall i :: 0 <= i < |keys| ==>
      r[i] == Member(keys[i], if HasKey(members, keys[i]) then Canon(Get(members, keys[i])) else Null)
    decreases members, |keys|
  {
    if keys == [] then []
    else
      [Member(keys[0], if HasKey(members, keys[0]) then Canon(Get(members, keys[0])) else Null)]
      + CanonMembers(keys[1..], members)
  }

  // ----- `JSON.stringify` in member order, and that the canonical printer prints the canonical value -----

  function Print(v: Value): Utf16
    decreases v, 1
  {
    match v
    case Null => NULL_TEXT
    case Bool(b) => if b then TRUE_TEXT else FALSE_TEXT
    case Num(n) => PrintNumber(n)
    case Str(s) => Quote(s)
    case Arr(items) => [OPEN_ARRAY] + PrintItems(items) + [CLOSE_ARRAY]
    case Obj(members) => [OPEN_OBJECT] + PrintMembers(members) + [CLOSE_OBJECT]
  }

  function PrintItems(items: seq<Value>): Utf16
    decreases items, 0
  {
    if items == [] then []
    else Print(items[0]) + if |items| == 1 then [] else [COMMA] + PrintItems(items[1..])
  }

  function PrintMembers(members: seq<Member>): Utf16
    decreases members, 0
  {
    if members == [] then []
    else
      Quote(members[0].key) + [COLON] + Print(members[0].value)
      + if |members| == 1 then [] else [COMMA] + PrintMembers(members[1..])
  }

  lemma {:induction false} CanonicalIsPrintedCanon(v: Value)
    ensures Canonical(v) == Print(Canon(v))
    decreases v, 1
  {
    match v
    case Arr(items) => CanonicalItemsPrinted(items);
    case Obj(members) => CanonicalMembersPrinted(SortKeys(KeysOf(members)), members);
    case _ =>
  }

  lemma {:induction false} CanonicalItemsPrinted(items: seq<Value>)
    ensures CanonicalItems(items) == PrintItems(CanonItems(items))
    decreases items, 0
  {
    if items != [] {
      CanonicalIsPrintedCanon(items[0]);
      CanonicalItemsPrinted(items[1..]);
      assert CanonItems(items)[1..] == CanonItems(items[1..]);
    }
  }

  lemma {:induction false} CanonicalMembersPrinted(keys: seq<Utf16>, members: seq<Member>)
    ensures CanonicalMembers(keys, members) == PrintMembers(CanonMembers(keys, members))
    decreases members, |keys|
  {
    if keys != [] {
      if HasKey(members, keys[0]) {
        CanonicalIsPrintedCanon(Get(members, keys[0]));
      }
      CanonicalMembersPrinted(keys[1..], members);
      assert CanonMembers(keys, members)[1..] == CanonMembers(keys[1..], members);
    }
  }

  // ----- The parser -----

  function SkipSpace(s: Utf16): (r: Utf16)
    ensures |r| <= |s|
  {
    if s != [] && IsSpace(s[0]) then SkipSpace(s[1..]) else s
  }

  /** The rest of a string literal after its opening quote. */
  function ParseUnits(s: Utf16): (r: Option<(Utf16, Utf16)>)
    ensures r.Some? ==> |r.value.1| < |s|
  {
    if s == [] || s[0] < 0x20 then None
    else if s[0] == QUOTE then Some(([], s[1..]))
    else
      var unit := ParseUnit(s);
      if unit.None? then None
      else
        var rest := ParseUnits(unit.value.1);
        if rest.None? then None else Some(([unit.value.0] + rest.value.0, rest.value.1))
  }

  function ShortUnescape(u: Unit): Option<Unit> {
    if u == 0x62 then Some(0x08)
    else if u == 0x74 then Some(0x09)
    else if u == 0x6E then Some(0x0A)
    else if u == 0x66 then Some(0x0C)
    else if u == 0x72 then Some(0x0D)
    else if u == QUOTE || u == BACKSLASH || u == 0x2F then Some(u)
    else None
  }

  /** One unit of a string literal, escaped or not. */
  function ParseUnit(s: Utf16): (r: Option<(Unit, Utf16)>)
    requires s != []
    ensures r.Some? ==> |r.value.1| < |s|
  {
    if s[0] != BACKSLASH then Some((s[0], s[1..]))
    else if |s| < 2 then None
    else if s[1] != 0x75 then
      if ShortUnescape(s[1]).Some? then Some((ShortUnescape(s[1]).value, s[2..])) else None
    else if |s| < 6 then None
    else
      var a, b, c, d := HexValue(s[2]), HexValue(s[3]), HexValue(s[4]), HexValue(s[5]);
      if a.None? || b.None? || c.None? || d.None? then None
      else Some((a.value * 0x1000 + b.value * 0x100 + c.value * 16 + d.value, s[6..]))
  }

  /** A repeated key keeps its place and takes the last value. */
  function PutMember(members: seq<Member>, key: Utf16, v: Value): seq<Member> {
    var i := KeyIndex(members, key);
    if i < |members| then members[i := Member(key, v)] else members + [Member(key, v)]
  }

  function ParseValue(text: Utf16, read: NumberReader): (r: Option<(Value, Utf16)>)
    ensures r.Some? ==> |r.value.1| < |text|
    decreases |text|, 1
  {
    var s := SkipSpace(text);
    if s == [] then None
    else if s[0] == OPEN_ARRAY then
      var inner := SkipSpace(s[1..]);
      if inner != [] && inner[0] == CLOSE_ARRAY then Some((Arr([]), inner[1..])) else ParseItems(inner, [], read)
    else if s[0] == OPEN_OBJECT then
      var inner := SkipSpace(s[1..]);
      if inner != [] && inner[0] == CLOSE_OBJECT then Some((Obj([]), inner[1..])) else ParseMembers(inner, [], read)
    else if s[0] == QUOTE then
      var units := ParseUnits(s[1..]);
      if units.None? then None else Some((Str(units.value.0), units.value.1))
    else if NULL_TEXT <= s then Some((Null, s[4..]))
    else if TRUE_TEXT <= s then Some((Bool(true), s[4..]))
    else if FALSE_TEXT <= s then Some((Bool(false), s[5..]))
    else
      var n := NumberRun(s);
      if IsNumberToken(s[..n]) then Some((Num(read(s[..n])), s[n..])) else None
  }

  function ParseItems(text: Utf16, parsed: seq<Value>, read: NumberReader): (r: Option<(Value, Utf16)>)
    ensures r.Some? ==> |r.value.1| < |text|
    decreases |text|, 2
  {
    var item := ParseValue(text, read);
    if item.None? then None
    else
      var items, s := parsed + [item.value.0], SkipSpace(item.value.1);
      if s == [] then None
      else if s[0] == COMMA then ParseItems(s[1..], items, read)
      else if s[0] == CLOSE_ARRAY then Some((Arr(items), s[1..]))
      else None
  }

  function ParseMembers(text: Utf16, parsed: seq<Member>, read: NumberReader): (r: Option<(Value, Utf16)>)
    ensures r.Some? ==> |r.value.1| < |text|
    decreases |text|, 2
  {
    var t := SkipSpace(text);
    if t == [] || t[0] != QUOTE then None
    else
      var key := ParseUnits(t[1..]);
      if key.None? then None
      else
        var afterKey := SkipSpace(key.value.1);
        if afterKey == [] || afterKey[0] != COLON then None
        else
          var item := ParseValue(afterKey[1..], read);
          if item.None? then None
          else
            var members, s := PutMember(parsed, key.value.0, item.value.0), SkipSpace(item.value.1);
            if s == [] then None
            else if s[0] == COMMA then ParseMembers(s[1..], members, read)
            else if s[0] == CLOSE_OBJECT then Some((Obj(members), s[1..]))
            else None
  }

  /** `JSON.parse`: one value and nothing else but white space. */
  function Parse(text: Utf16, read: NumberReader): Option<Value> {
    var r := ParseValue(text, read);
    if r.None? || SkipSpace(r.value.1) != [] then None else Some(r.value.0)
  }

  /** `parseCanonicalReviewCaptureBinding`: the canonical text of a submitted JSON object. */
  function ParseCanonicalBinding(text: Utf16, read: NumberReader): Option<Utf16> {
    var v := Parse(text, read);
    if v.Some? && v.value.Obj? then Some(Canonical(v.value)) else None
  }

  // ----- Parsing undoes printing -----

  lemma HexDigitsSum(u: Unit)
    ensures u / 0x1000 < 16
    ensures u / 0x1000 * 0x1000 + u / 0x100 % 16 * 0x100 + u / 16 % 16 * 16 + u % 16 == u
  {
    assert u / 16 / 16 == u / 0x100 && u / 0x100 / 16 == u / 0x1000;
  }

  lemma ParseHexUnit(u: Unit, rest: Utf16)
    ensures ParseUnit(UnicodeEscape(u) + rest) == Some((u, rest))
  {
    HexDigitsSum(u);
  }

  lemma ParseEscapedUnit(u: Unit, rest: Utf16)
    ensures EscapeUnit(u)[0] >= 0x20 && EscapeUnit(u)[0] != QUOTE
    ensures ParseUnit(EscapeUnit(u) + rest) == Some((u, rest))
  {
    if ShortEscape(u).Some? {
    } else if u < 0x20 || IsHighSurrogate(u) || IsLowSurrogate(u) {
      ParseHexUnit(u, rest);
    } else {
      assert ([u] + rest)[1..] == rest;
    }
  }

  lemma ParseEscapedThen(u: Unit, more: Utf16, tail: Utf16, rest: Utf16)
    requires ParseUnits(more) == Some((tail, rest))
    ensures ParseUnits(EscapeUnit(u) + more) == Some(([u] + tail, rest))
  {
    ParseEscapedUnit(u, more);
  }

  lemma Regroup(a: Utf16, b: Utf16, c: Utf16, d: Utf16)
    ensures a + b + c + d == a + (b + c + d)
  {
  }

  lemma {:induction false} ParseQuoted(s: Utf16, rest: Utf16)
    ensures ParseUnits(Escape(s) + [QUOTE] + rest) == Some((s, rest))
    decreases |s|
  {
    if s == [] {
      assert ([QUOTE] + rest)[1..] == rest;
      assert Escape(s) + [QUOTE] + rest == [QUOTE] + rest;
    } else if StartsWithPair(s) {
      ParseQuoted(s[2..], rest);
      ParsePairThen(s, Escape(s[2..]) + [QUOTE] + rest, rest);
      Regroup(s[..2], Escape(s[2..]), [QUOTE], rest);
    } else {
      ParseQuoted(s[1..], rest);
      ParseUnitThen(s, Escape(s[1..]) + [QUOTE] + rest, rest);
      Regroup(EscapeUnit(s[0]), Escape(s[1..]), [QUOTE], rest);
    }
  }

  /** A surrogate pair stands for itself in front of text that already parses. */
  lemma ParsePairThen(s: Utf16, more: Utf16, rest: Utf16)
    requires StartsWithPair(s) && ParseUnits(more) == Some((s[2..], rest))
    ensures ParseUnits(s[..2] + more) == Some((s, rest))
  {
    assert s[..2] + more == [s[0]] + ([s[1]] + more);
    assert [s[0]] + ([s[1]] + s[2..]) == s;
  }

  lemma ParseUnitThen(s: Utf16, more: Utf16, rest: Utf16)
    requires s != [] && ParseUnits(more) == Some((s[1..], rest))
    ensures ParseUnits(EscapeUnit(s[0]) + more) == Some((s, rest))
  {
    ParseEscapedThen(s[0], more, s[1..], rest);
    assert [s[0]] + s[1..] == s;
  }

  /** A number token may be followed by nothing or by a delimiter. */
  predicate Delimited(rest: Utf16) {
    rest == [] || rest[0] == COMMA || rest[0] == CLOSE_ARRAY || rest[0] == CLOSE_OBJECT
  }

  lemma {:induction false} NumberRunOfToken(token: Utf16, rest: Utf16)
    requires (forall i :: 0 <= i < |token| ==> IsNumberUnit(token[i])) && Delimited(rest)
    ensures NumberRun(token + rest) == |token|
  {
    if token == [] {
      assert token + rest == rest;
    } else {
      NumberRunOfToken(token[1..], rest);
      assert (token + rest)[1..] == token[1..] + rest;
    }
  }

  /** No number prints as something else, keys are distinct, and number tokens read back. */
  ghost predicate Printable(v: Value, read: NumberReader) {
    WellFormed(v, read) && Plain(v)
  }

  /** How a printed value begins: never with white space, a delimiter or nothing. */
  lemma PrintStart(v: Value, read: NumberReader)
    requires Printable(v, read)
    ensures Print(v) != [] && !IsSpace(Print(v)[0]) && Print(v)[0] != CLOSE_ARRAY
  {
  }

  lemma ParseNumber(token: Utf16, read: NumberReader, rest: Utf16)
    requires IsNumberToken(token) && Delimited(rest)
    ensures ParseValue(token + rest, read) == Some((Num(read(token)), rest))
  {
    var s := token + rest;
    NumberRunOfToken(token, rest);
    assert s[..|token|] == token && s[|token|..] == rest;
    assert s[0] == token[0] && (token[0] == 0x2D || IsDigit(token[0]));
    assert NULL_TEXT[0] != s[0] && TRUE_TEXT[0] != s[0] && FALSE_TEXT[0] != s[0];
  }

  lemma ParseWord(v: Value, read: NumberReader, rest: Utf16)
    requires v.Null? || v.Bool?
    ensures ParseValue(Print(v) + rest, read) == Some((v, rest))
  {
    var s := Print(v) + rest;
    assert s[|Print(v)|..] == rest;
    assert s[0] == Print(v)[0];
    assert Print(v) <= s;
  }

  /** Parsing what was printed returns the value and leaves the rest. */
  lemma {:induction false} ParsePrint(v: Value, read: NumberReader, rest: Utf16)
    requires Printable(v, read) && Delimited(rest)
    ensures ParseValue(Print(v) + rest, read) == Some((v, rest))
    decreases v, 1
  {
    match v
    case Null => ParseWord(v, read, rest);
    case Bool(_) => ParseWord(v, read, rest);
    case Num(n) => ParseNumber(n.token, read, rest);
    case Str(units) =>
      ParseString(units, read, rest);
    case Arr(items) =>
      Regroup([OPEN_ARRAY], PrintItems(items), [CLOSE_ARRAY], rest);
      if items == [] {
        ParseEmpty(read, rest);
      } else {
        PrintStart(items[0], read);
        ParsePrintedItems(items, [], read, rest);
        assert [] + items == items;
        ParseArray(PrintItems(items) + [CLOSE_ARRAY] + rest, items, read, rest);
      }
    case Obj(members) =>
      Regroup([OPEN_OBJECT], PrintMembers(members), [CLOSE_OBJECT], rest);
      if members == [] {
        ParseEmpty(read, rest);
      } else {
        assert [] + members == members;
        ParsePrintedMembers(members, [], read, rest);
        ParseObject(PrintMembers(members) + [CLOSE_OBJECT] + rest, members, read, rest);
      }
  }

  lemma ParseString(units: Utf16, read: NumberReader, rest: Utf16)
    ensures ParseValue(Quote(units) + rest, read) == Some((Str(units), rest))
  {
    var body := Escape(units) + [QUOTE] + rest;
    ParseQuoted(units, rest);
    assert Quote(units) + rest == [QUOTE] + body;
    ParseQuotedValue(body, units, read, rest);
  }

  lemma ParseQuotedValue(body: Utf16, units: Utf16, read: NumberReader, rest: Utf16)
    requires ParseUnits(body) == Some((units, rest))
    ensures ParseValue([QUOTE] + body, read) == Some((Str(units), rest))
  {
    assert ([QUOTE] + body)[1..] == body;
  }

  lemma ParseEmpty(read: NumberReader, rest: Utf16)
    ensures ParseValue([OPEN_ARRAY] + ([] + [CLOSE_ARRAY] + rest), read) == Some((Arr([]), rest))
    ensures ParseValue([OPEN_OBJECT] + ([] + [CLOSE_OBJECT] + rest), read) == Some((Obj([]), rest))
  {
    assert ([OPEN_ARRAY] + ([] + [CLOSE_ARRAY] + rest))[1..] == [CLOSE_ARRAY] + rest;
    assert ([OPEN_OBJECT] + ([] + [CLOSE_OBJECT] + rest))[1..] == [CLOSE_OBJECT] + rest;
    assert ([CLOSE_ARRAY] + rest)[1..] == rest && ([CLOSE_OBJECT] + rest)[1..] == rest;
  }

  lemma ParseArray(inner: Utf16, items: seq<Value>, read: NumberReader, rest: Utf16)
    requires inner != [] && !IsSpace(inner[0]) && inner[0] != CLOSE_ARRAY
    requires ParseItems(inner, [], read) == Some((Arr(items), rest))
    ensures ParseValue([OPEN_ARRAY] + inner, read) == Some((Arr(items), rest))
  {
    assert ([OPEN_ARRAY] + inner)[1..] == inner;
  }

  lemma ParseObject(inner: Utf16, members: seq<Member>, read: NumberReader, rest: Utf16)
    requires inner != [] && inner[0] == QUOTE
    requires ParseMembers(inner, [], read) == Some((Obj(members), rest))
    ensures ParseValue([OPEN_OBJECT] + inner, read) == Some((Obj(members), rest))
  {
    assert ([OPEN_OBJECT] + inner)[1..] == inner;
  }

  /** What follows the first item inside the brackets. */
  function TailOfItems(items: seq<Value>, rest: Utf16): Utf16
    requires items != []
  {
    if |items| == 1 then [CLOSE_ARRAY] + rest else [COMMA] + (PrintItems(items[1..]) + [CLOSE_ARRAY] + rest)
  }

  lemma PrintedItems(items: seq<Value>, rest: Utf16)
    requires items != []
    ensures PrintItems(items) + [CLOSE_ARRAY] + rest == Print(items[0]) + TailOfItems(items, rest)
  {
  }

  /** The item loop consumes the first item. */
  lemma ParseOneItem(items: seq<Value>, parsed: seq<Value>, read: NumberReader, rest: Utf16)
    requires items != []
    requires ParseValue(Print(items[0]) + TailOfItems(items, rest), read) == Some((items[0], TailOfItems(items, rest)))
    ensures ParseItems(PrintItems(items) + [CLOSE_ARRAY] + rest, parsed, read)
         == if |items| == 1 then Some((Arr(parsed + [items[0]]), rest))
            else ParseItems(PrintItems(items[1..]) + [CLOSE_ARRAY] + rest, parsed + [items[0]], read)
  {
    PrintedItems(items, rest);
    assert TailOfItems(items, rest)[1..] == if |items| == 1 then rest else PrintItems(items[1..]) + [CLOSE_ARRAY] + rest;
  }

  lemma {:induction false} ParsePrintedItems(items: seq<Value>, parsed: seq<Value>, read: NumberReader, rest: Utf16)
    requires items != [] && forall i :: 0 <= i < |items| ==> Printable(items[i], read)
    ensures ParseItems(PrintItems(items) + [CLOSE_ARRAY] + rest, parsed, read) == Some((Arr(parsed + items), rest))
    decreases items, 0
  {
    ParsePrint(items[0], read, TailOfItems(items, rest));
    ParseOneItem(items, parsed, read, rest);
    if |items| > 1 {
      ParsePrintedItems(items[1..], parsed + [items[0]], read, rest);
      assert parsed + [items[0]] + items[1..] == parsed + items;
    } else {
      assert items == [items[0]];
    }
  }

  lemma {:induction false} ParsePrintedMembers(members: seq<Member>, parsed: seq<Member>, read: NumberReader, rest: Utf16)
    requires members != [] && forall i :: 0 <= i < |members| ==> Printable(members[i].value, read)
    requires NoDup(KeysOf(parsed + members))
    ensures ParseMembers(PrintMembers(members) + [CLOSE_OBJECT] + rest, parsed, read)
         == Some((Obj(parsed + members), rest))
    decreases members, 0
  {
    ParsePrint(members[0].value, read, TailAfter(members, rest));
    if |members| == 1 {
      LastMember(members, parsed, read, rest);
    } else {
      FirstMember(members, parsed, read, rest);
      MoveMember(parsed, members);
      ParsePrintedMembers(members[1..], parsed + [members[0]], read, rest);
    }
  }

  lemma MoveMember(parsed: seq<Member>, members: seq<Member>)
    requires members != []
    ensures parsed + [members[0]] + members[1..] == parsed + members
  {
  }

  /** The member loop consumes the first member and goes on with the rest. */
  lemma FirstMember(members: seq<Member>, parsed: seq<Member>, read: NumberReader, rest: Utf16)
    requires |members| > 1 && NoDup(KeysOf(parsed + members))
    requires ParseValue(Print(members[0].value) + TailAfter(members, rest), read)
          == Some((members[0].value, TailAfter(members, rest)))
    ensures ParseMembers(PrintMembers(members) + [CLOSE_OBJECT] + rest, parsed, read)
         == ParseMembers(PrintMembers(members[1..]) + [CLOSE_OBJECT] + rest, parsed + [members[0]], read)
  {
    ParseOneMember(members, parsed, read, rest);
    assert TailAfter(members, rest)[1..] == PrintMembers(members[1..]) + [CLOSE_OBJECT] + rest;
  }

  lemma LastTail(members: seq<Member>, rest: Utf16)
    requires |members| == 1
    ensures TailAfter(members, rest)[1..] == rest
  {
  }

  lemma LastMember(members: seq<Member>, parsed: seq<Member>, read: NumberReader, rest: Utf16)
    requires |members| == 1 && NoDup(KeysOf(parsed + members))
    requires ParseValue(Print(members[0].value) + TailAfter(members, rest), read)
          == Some((members[0].value, TailAfter(members, rest)))
    ensures ParseMembers(PrintMembers(members) + [CLOSE_OBJECT] + rest, parsed, read)
         == Some((Obj(parsed + members), rest))
  {
    ParseOneMember(members, parsed, read, rest);
    LastTail(members, rest);
    assert members == [members[0]];
  }

  lemma ParseOneMember(members: seq<Member>, parsed: seq<Member>, read: NumberReader, rest: Utf16)
    requires members != [] && NoDup(KeysOf(parsed + members))
    requires ParseValue(Print(members[0].value) + TailAfter(members, rest), read)
          == Some((members[0].value, TailAfter(members, rest)))
    ensures ParseMembers(PrintMembers(members) + [CLOSE_OBJECT] + rest, parsed, read)
         == if |members| > 1 then ParseMembers(TailAfter(members, rest)[1..], parsed + [members[0]], read)
            else Some((Obj(parsed + [members[0]]), TailAfter(members, rest)[1..]))
  {
    var m, tail := members[0], TailAfter(members, rest);
    var valueText := Print(m.value) + tail;
    PrintedMember(members, rest);
    ParseQuoted(m.key, [COLON] + valueText);
    FreshMember(parsed, members);
    ParseMember(Escape(m.key) + [QUOTE] + ([COLON] + valueText), m, valueText, parsed, read, tail);
  }

  lemma RegroupMember(e: Utf16, p: Utf16, more: Utf16, close: Utf16, rest: Utf16)
    ensures ([QUOTE] + e + [QUOTE]) + [COLON] + p + more + close + rest
         == [QUOTE] + (e + [QUOTE] + ([COLON] + (p + (more + close + rest))))
  {
  }

  /** What follows the first member inside the braces. */
  function MoreMembers(members: seq<Member>): Utf16
    requires members != []
  {
    if |members| == 1 then [] else [COMMA] + PrintMembers(members[1..])
  }

  function TailAfter(members: seq<Member>, rest: Utf16): Utf16
    requires members != []
  {
    if |members| == 1 then [CLOSE_OBJECT] + rest
    else [COMMA] + (PrintMembers(members[1..]) + [CLOSE_OBJECT] + rest)
  }

  lemma MoreIsTail(members: seq<Member>, rest: Utf16)
    requires members != []
    ensures MoreMembers(members) + [CLOSE_OBJECT] + rest == TailAfter(members, rest)
  {
    if |members| > 1 {
      Regroup([COMMA], PrintMembers(members[1..]), [CLOSE_OBJECT], rest);
    }
  }

  /** The text of a non-empty member list starts with its first key, value and what follows. */
  lemma PrintedMember(members: seq<Member>, rest: Utf16)
    requires members != []
    ensures PrintMembers(members) + [CLOSE_OBJECT] + rest
         == [QUOTE] + (Escape(members[0].key) + [QUOTE] + ([COLON] + (Print(members[0].value) + TailAfter(members, rest))))
  {
    MoreIsTail(members, rest);
    RegroupMember(Escape(members[0].key), Print(members[0].value), MoreMembers(members), [CLOSE_OBJECT], rest);
  }

  /** One turn of the member loop, given what its string and value parsers return. */
  lemma ParseMember(body: Utf16, m: Member, valueText: Utf16, parsed: seq<Member>, read: NumberReader, tail: Utf16)
    requires tail != [] && (tail[0] == COMMA || tail[0] == CLOSE_OBJECT)
    requires ParseUnits(body) == Some((m.key, [COLON] + valueText))
    requires ParseValue(valueText, read) == Some((m.value, tail))
    ensures ParseMembers([QUOTE] + body, parsed, read)
         == var members := PutMember(parsed, m.key, m.value);
            if tail[0] == COMMA then ParseMembers(tail[1..], members, read) else Some((Obj(members), tail[1..]))
  {
    var t := [QUOTE] + body;
    assert SkipSpace(t) == t && t[1..] == body;
    var afterKey := [COLON] + valueText;
    assert SkipSpace(afterKey) == afterKey && afterKey[1..] == valueText;
    assert SkipSpace(tail) == tail;
  }

  lemma FreshMember(parsed: seq<Member>, members: seq<Member>)
    requires members != [] && NoDup(KeysOf(parsed + members))
    ensures PutMember(parsed, members[0].key, members[0].value) == parsed + [members[0]]
  {
    var keys := KeysOf(parsed + members);
    assert keys[|parsed|] == members[0].key;
    forall i | 0 <= i < |parsed| ensures parsed[i].key != members[0].key {
      assert keys[i] == parsed[i].key;
    }
  }

  // ----- The canonical value -----

  /** `JSON.parse` and `JSON.stringify` agree on numbers: printed numbers are fixed points. */
  ghost predicate Sound(read: NumberReader) {
    && read(ZERO) == Finite(ZERO)
    && forall t :: IsNumberToken(t) && read(t).Finite? ==>
      IsNumberToken(read(t).token) && read(read(t).token) == read(t)
  }

  lemma {:induction false} KeyIndexOf(members: seq<Member>, i: nat)
    requires i < |members| && NoDup(KeysOf(members))
    ensures KeyIndex(members, members[i].key) == i
  {
    assert forall j :: 0 <= j < i ==> KeysOf(members)[j] != KeysOf(members)[i];
  }

  lemma HasKeyIsIn(members: seq<Member>, key: Utf16)
    ensures HasKey(members, key) <==> key in KeysOf(members)
  {
    if key in KeysOf(members) {
      var i :| 0 <= i < |members| && KeysOf(members)[i] == key;
      assert members[i].key == key;
    }
    if HasKey(members, key) {
      assert KeysOf(members)[KeyIndex(members, key)] == key;
    }
  }

  /** The keys of the canonical object, and what each of them holds. */
  lemma CanonMembersHold(members: seq<Member>)
    requires NoDup(KeysOf(members))
    ensures var keys := SortKeys(KeysOf(members)); var r := CanonMembers(keys, members);
      && Sorted(keys) && KeysOf(r) == keys && NoDup(keys) && |keys| == |members|
      && (forall k :: HasKey(r, k) <==> HasKey(members, k))
      && (forall k :: HasKey(members, k) ==> Get(r, k) == Canon(Get(members, k)))
  {
    var keys := SortKeys(KeysOf(members));
    var r := CanonMembers(keys, members);
    SortKeysCorrect(KeysOf(members));
    SortedNoDup(keys);
    assert KeysOf(r) == keys;
    forall k ensures HasKey(r, k) <==> HasKey(members, k) {
      HasKeyIsIn(r, k);
      HasKeyIsIn(members, k);
    }
    forall k | HasKey(members, k) ensures Get(r, k) == Canon(Get(members, k)) {
      var i := KeyIndex(r, k);
      assert r[i].key == keys[i] == k;
    }
  }

  lemma {:induction false} CanonIsPrintable(v: Value, read: NumberReader)
    requires WellFormed(v, read) && Sound(read)
    ensures Printable(Canon(v), read)
  {
    match v
    case Num(_) => assert IsNumberToken(ZERO);
    case Arr(items) =>
      forall i | 0 <= i < |items| ensures Printable(CanonItems(items)[i], read) {
        CanonIsPrintable(items[i], read);
      }
    case Obj(members) =>
      CanonMembersHold(members);
      var r := CanonMembers(SortKeys(KeysOf(members)), members);
      forall i | 0 <= i < |r| ensures Printable(r[i].value, read) {
        KeyIndexOf(r, i);
        assert HasKey(r, r[i].key);
        var j := KeyIndex(members, r[i].key);
        assert r[i].value == Canon(members[j].value);
        CanonIsPrintable(members[j].value, read);
      }
    case _ =>
  }

  lemma {:induction false} CanonIsIdempotent(v: Value, read: NumberReader)
    requires WellFormed(v, read)
    ensures Canon(Canon(v)) == Canon(v)
  {
    match v
    case Arr(items) =>
      forall i | 0 <= i < |items| ensures Canon(CanonItems(items)[i]) == CanonItems(items)[i] {
        CanonIsIdempotent(items[i], read);
      }
      assert CanonItems(CanonItems(items)) == CanonItems(items);
    case Obj(members) =>
      CanonMembersHold(members);
      var keys := SortKeys(KeysOf(members));
      var r := CanonMembers(keys, members);
      CanonMembersHold(r);
      SortKeysCorrect(keys);
      SortedListIsUnique(SortKeys(keys), keys);
      forall i | 0 <= i < |keys| ensures CanonMembers(keys, r)[i] == r[i] {
        KeyIndexOf(r, i);
        assert HasKey(r, keys[i]) && r[i].key == keys[i];
        var j := KeyIndex(members, keys[i]);
        assert r[i].value == Canon(members[j].value);
        CanonIsIdempotent(members[j].value, read);
      }
      assert CanonMembers(keys, r) == r;
    case _ =>
  }

  // ----- The canonical text is an identity -----

  /** Two values with the same canonical text have the same canonical value, and conversely. */
  lemma SameTextSameCanon(u: Value, v: Value, read: NumberReader)
    requires WellFormed(u, read) && WellFormed(v, read) && Sound(read)
    ensures Canonical(u) == Canonical(v) <==> Canon(u) == Canon(v)
  {
    CanonicalIsPrintedCanon(u);
    CanonicalIsPrintedCanon(v);
    CanonIsPrintable(u, read);
    CanonIsPrintable(v, read);
    ParsePrint(Canon(u), read, []);
    ParsePrint(Canon(v), read, []);
  }

  function KeySet(members: seq<Member>): set<Utf16> {
    set i | 0 <= i < |members| :: members[i].key
  }

  lemma {:induction false} KeySetSize(members: seq<Member>)
    requires NoDup(KeysOf(members))
    ensures |KeySet(members)| == |members|
  {
    if members != [] {
      var front := members[..|members| - 1];
      var last := members[|members| - 1].key;
      assert forall i :: 0 <= i < |front| ==> KeysOf(front)[i] == KeysOf(members)[i];
      KeySetSize(front);
      assert KeysOf(members)[|members| - 1] == last;
      assert last !in KeySet(front) by {
        assert forall i :: 0 <= i < |front| ==> front[i].key == KeysOf(members)[i];
      }
      assert KeySet(members) == KeySet(front) + {last};
    }
  }

  /** Objects of the same size, one's keys among the other's, have the same keys. */
  lemma SameSizeSameKeys(m: seq<Member>, n: seq<Member>)
    requires NoDup(KeysOf(m)) && NoDup(KeysOf(n)) && |m| == |n|
    requires forall i :: 0 <= i < |m| ==> HasKey(n, m[i].key)
    ensures SortKeys(KeysOf(m)) == SortKeys(KeysOf(n))
  {
    KeySetSize(m);
    KeySetSize(n);
    forall k | k in KeySet(m) ensures k in KeySet(n) {
      assert n[KeyIndex(n, k)].key == k;
    }
    SubsetOfSameSize(KeySet(m), KeySet(n));
    SortKeysCorrect(KeysOf(m));
    SortKeysCorrect(KeysOf(n));
    forall k ensures k in KeysOf(m) <==> k in KeysOf(n) {
      assert k in KeysOf(m) <==> k in KeySet(m);
      assert k in KeysOf(n) <==> k in KeySet(n);
    }
    SortedListIsUnique(SortKeys(KeysOf(m)), SortKeys(KeysOf(n)));
  }

  lemma SubsetOfSameSize<T>(a: set<T>, b: set<T>)
    requires a <= b && |a| == |b|
    ensures a == b
  {
    if a != b {
      var x :| x in b && x !in a;
      assert a <= b - {x};
      SubsetSize(a, b - {x});
    }
  }

  lemma {:induction false} SubsetSize<T>(a: set<T>, b: set<T>)
    requires a <= b
    ensures |a| <= |b|
  {
    if a != {} {
      var x :| x in a;
      SubsetSize(a - {x}, b - {x});
    }
  }

  lemma {:induction false} CanonIffEquivalent(u: Value, v: Value, read: NumberReader)
    requires WellFormed(u, read) && WellFormed(v, read)
    ensures Canon(u) == Canon(v) <==> Equivalent(u, v, true)
    decreases u
  {
    match u
    case Arr(items) =>
      if v.Arr? && |items| == |v.items| {
        forall i | 0 <= i < |items|
          ensures CanonItems(items)[i] == CanonItems(v.items)[i] <==> Equivalent(items[i], v.items[i], true)
        {
          CanonIffEquivalent(items[i], v.items[i], read);
        }
        if Equivalent(u, v, true) {
          assert CanonItems(items) == CanonItems(v.items);
        }
      }
    case Obj(members) =>
      if v.Obj? && |members| == |v.members| {
        forall i | 0 <= i < |members| && HasKey(v.members, members[i].key)
          ensures Canon(members[i].value) == Canon(Get(v.members, members[i].key))
             <==> Equivalent(members[i].value, Get(v.members, members[i].key), true)
        {
          CanonIffEquivalent(members[i].value, Get(v.members, members[i].key), read);
        }
        CanonObjects(members, v.members);
      } else if v.Obj? {
        CanonMembersHold(members);
        CanonMembersHold(v.members);
      }
    case _ =>
  }

  ghost predicate SameFields(m: seq<Member>, n: seq<Member>) {
    forall i :: 0 <= i < |m| ==> HasKey(n, m[i].key) && Canon(m[i].value) == Canon(Get(n, m[i].key))
  }

  lemma SameCanonSameFields(m: seq<Member>, n: seq<Member>)
    requires NoDup(KeysOf(m)) && NoDup(KeysOf(n))
    requires CanonMembers(SortKeys(KeysOf(m)), m) == CanonMembers(SortKeys(KeysOf(n)), n)
    ensures SameFields(m, n)
  {
    CanonMembersHold(m);
    CanonMembersHold(n);
    forall i | 0 <= i < |m| ensures HasKey(n, m[i].key) && Canon(m[i].value) == Canon(Get(n, m[i].key)) {
      KeyIndexOf(m, i);
      assert HasKey(m, m[i].key) && Get(m, m[i].key) == m[i].value;
    }
  }

  lemma SameFieldsSameCanon(m: seq<Member>, n: seq<Member>)
    requires NoDup(KeysOf(m)) && NoDup(KeysOf(n)) && |m| == |n| && SameFields(m, n)
    ensures CanonMembers(SortKeys(KeysOf(m)), m) == CanonMembers(SortKeys(KeysOf(n)), n)
  {
    SameSizeSameKeys(m, n);
    SortKeysCorrect(KeysOf(m));
    var keys := SortKeys(KeysOf(m));
    forall j | 0 <= j < |keys| ensures CanonMembers(keys, m)[j] == CanonMembers(keys, n)[j] {
      assert keys[j] in keys;
      HasKeyIsIn(m, keys[j]);
      var i := KeyIndex(m, keys[j]);
      assert m[i].key == keys[j] && HasKey(n, m[i].key);
    }
  }

  /** Objects of the same size have the same canonical members iff each key holds canonically equal values. */
  lemma CanonObjects(m: seq<Member>, n: seq<Member>)
    requires NoDup(KeysOf(m)) && NoDup(KeysOf(n)) && |m| == |n|
    ensures CanonMembers(SortKeys(KeysOf(m)), m) == CanonMembers(SortKeys(KeysOf(n)), n) <==> SameFields(m, n)
  {
    if SameFields(m, n) {
      SameFieldsSameCanon(m, n);
    } else if CanonMembers(SortKeys(KeysOf(m)), m) == CanonMembers(SortKeys(KeysOf(n)), n) {
      SameCanonSameFields(m, n);
    }
  }

  /** The lenient and the strict relation agree on values whose numbers print as themselves. */
  lemma {:induction false} PlainValuesAreStrict(u: Value, v: Value)
    requires Plain(u) && Plain(v)
    ensures Equivalent(u, v, true) <==> Equivalent(u, v, false)
    decreases u
  {
    match u
    case Arr(items) =>
      if v.Arr? && |items| == |v.items| {
        forall i | 0 <= i < |items|
          ensures Equivalent(items[i], v.items[i], true) <==> Equivalent(items[i], v.items[i], false)
        {
          PlainValuesAreStrict(items[i], v.items[i]);
        }
      }
    case Obj(members) =>
      if v.Obj? && |members| == |v.members| {
        forall i | 0 <= i < |members| && HasKey(v.members, members[i].key)
          ensures Equivalent(members[i].value, Get(v.members, members[i].key), true)
             <==> Equivalent(members[i].value, Get(v.members, members[i].key), false)
        {
          PlainValuesAreStrict(members[i].value, Get(v.members, members[i].key));
        }
      }
    case _ =>
  }

  /** Main result: canonical texts are equal exactly for values that are equal up to key order and number printing. */
  lemma CanonicalTextIsIdentity(u: Value, v: Value, read: NumberReader)
    requires WellFormed(u, read) && WellFormed(v, read) && Sound(read)
    ensures Canonical(u) == Canonical(v) <==> Equivalent(u, v, true)
    ensures Plain(u) && Plain(v) ==> (Canonical(u) == Canonical(v) <==> Equivalent(u, v, false))
  {
    SameTextSameCanon(u, v, read);
    CanonIffEquivalent(u, v, read);
    if Plain(u) && Plain(v) {
      PlainValuesAreStrict(u, v);
    }
  }

  /** Without that proviso the identity fails: a number that overflows prints like null. */
  lemma OverflowCollidesWithNull(key: Utf16, read: NumberReader)
    ensures var u := Obj([Member(key, Num(NotFinite))]); var v := Obj([Member(key, Null)]);
      && WellFormed(u, read) && WellFormed(v, read)
      && Canonical(u) == Canonical(v) && !Equivalent(u, v, false)
  {
    var m, n := [Member(key, Num(NotFinite))], [Member(key, Null)];
    assert KeysOf(m) == [key] && KeysOf(n) == [key];
    CanonicalIsPrintedCanon(Obj(m));
    CanonicalIsPrintedCanon(Obj(n));
    assert SortKeys([key]) == [key];
    assert CanonMembers([key], m) == CanonMembers([key], n);
    assert HasKey(n, m[0].key) && Get(n, m[0].key) == Null;
  }

  // ----- Submitted texts -----

  /** Everything `JSON.parse` returns is well formed. */
  lemma {:induction false} ParsedIsWellFormed(text: Utf16, read: NumberReader)
    requires Sound(read) && ParseValue(text, read).Some?
    ensures WellFormed(ParseValue(text, read).value.0, read)
    decreases |text|, 1
  {
    var s := SkipSpace(text);
    if s[0] == OPEN_ARRAY {
      var inner := SkipSpace(s[1..]);
      if !(inner != [] && inner[0] == CLOSE_ARRAY) { ParsedItemsAreWellFormed(inner, [], read); }
    } else if s[0] == OPEN_OBJECT {
      var inner := SkipSpace(s[1..]);
      if !(inner != [] && inner[0] == CLOSE_OBJECT) { ParsedMembersAreWellFormed(inner, [], read); }
    }
  }

  lemma {:induction false} ParsedItemsAreWellFormed(text: Utf16, parsed: seq<Value>, read: NumberReader)
    requires Sound(read) && ParseItems(text, parsed, read).Some?
    requires forall i :: 0 <= i < |parsed| ==> WellFormed(parsed[i], read)
    ensures WellFormed(ParseItems(text, parsed, read).value.0, read)
    decreases |text|, 2
  {
    ParsedIsWellFormed(text, read);
    var item := ParseValue(text, read).value;
    var s := SkipSpace(item.1);
    if s[0] == COMMA {
      ParsedItemsAreWellFormed(s[1..], parsed + [item.0], read);
    }
  }

  lemma PutMemberKeepsKeysDistinct(members: seq<Member>, key: Utf16, v: Value)
    requires NoDup(KeysOf(members))
    ensures NoDup(KeysOf(PutMember(members, key, v)))
  {
    var r := PutMember(members, key, v);
    forall i, j | 0 <= i < j < |r| ensures KeysOf(r)[i] != KeysOf(r)[j] {
      if j < |members| {
        assert KeysOf(members)[i] != KeysOf(members)[j];
      }
    }
  }

  lemma {:induction false} ParsedMembersAreWellFormed(text: Utf16, parsed: seq<Member>, read: NumberReader)
    requires Sound(read) && ParseMembers(text, parsed, read).Some?
    requires NoDup(KeysOf(parsed)) && forall i :: 0 <= i < |parsed| ==> WellFormed(parsed[i].value, read)
    ensures WellFormed(ParseMembers(text, parsed, read).value.0, read)
    decreases |text|, 2
  {
    var key := ParseUnits(SkipSpace(text)[1..]).value;
    var afterKey := SkipSpace(key.1);
    ParsedIsWellFormed(afterKey[1..], read);
    var item := ParseValue(afterKey[1..], read).value;
    PutMemberKeepsKeysDistinct(parsed, key.0, item.0);
    var s := SkipSpace(item.1);
    if s[0] == COMMA {
      ParsedMembersAreWellFormed(s[1..], PutMember(parsed, key.0, item.0), read);
    }
  }

  /** A canonical text parses, denotes the canonical value, and prints as itself. */
  lemma CanonicalTextReparses(v: Value, read: NumberReader)
    requires WellFormed(v, read) && Sound(read)
    ensures Parse(Canonical(v), read) == Some(Canon(v))
    ensures Canonical(Canon(v)) == Canonical(v)
  {
    CanonicalIsPrintedCanon(v);
    CanonicalIsPrintedCanon(Canon(v));
    CanonIsPrintable(v, read);
    CanonIsIdempotent(v, read);
    ParsePrint(Canon(v), read, []);
    assert Print(Canon(v)) + [] == Print(Canon(v));
  }

  /** The text of an object with one member whose value is written as these units. */
  function OneMemberText(key: Utf16, valueText: Utf16): Utf16 {
    [OPEN_OBJECT] + (Quote(key) + [COLON] + valueText + [CLOSE_OBJECT])
  }

  lemma ParseOneMemberText(key: Utf16, valueText: Utf16, v: Value, read: NumberReader)
    requires ParseValue(valueText + [CLOSE_OBJECT], read) == Some((v, [CLOSE_OBJECT]))
    ensures Parse(OneMemberText(key, valueText), read) == Some(Obj([Member(key, v)]))
  {
    var inner := Quote(key) + [COLON] + valueText + [CLOSE_OBJECT];
    ParseOneMemberInner(key, valueText, v, read);
    ParseObject(inner, [Member(key, v)], read, []);
  }

  lemma ParseOneMemberInner(key: Utf16, valueText: Utf16, v: Value, read: NumberReader)
    requires ParseValue(valueText + [CLOSE_OBJECT], read) == Some((v, [CLOSE_OBJECT]))
    ensures ParseMembers(Quote(key) + [COLON] + valueText + [CLOSE_OBJECT], [], read) == Some((Obj([Member(key, v)]), []))
  {
    var rest := valueText + [CLOSE_OBJECT];
    ParseQuoted(key, [COLON] + rest);
    ParseMember(Escape(key) + [QUOTE] + ([COLON] + rest), Member(key, v), rest, [], read, [CLOSE_OBJECT]);
    RegroupMember(Escape(key), valueText, [], [CLOSE_OBJECT], []);
    assert valueText + ([] + [CLOSE_OBJECT] + []) == rest;
    assert Quote(key) + [COLON] + valueText + [] + [CLOSE_OBJECT] + [] == Quote(key) + [COLON] + valueText + [CLOSE_OBJECT];
    assert PutMember([], key, v) == [Member(key, v)];
  }

  /** On submitted texts: a number that overflows and null are different values with the same canonical binding. */
  lemma OverflowTextsCollide(key: Utf16, token: Utf16, read: NumberReader)
    requires IsNumberToken(token) && read(token).NotFinite?
    ensures var overflow, none := OneMemberText(key, token), OneMemberText(key, NULL_TEXT);
      && Parse(overflow, read).Some? && Parse(none, read).Some? && Parse(overflow, read) != Parse(none, read)
      && ParseCanonicalBinding(overflow, read).Some?
      && ParseCanonicalBinding(overflow, read) == ParseCanonicalBinding(none, read)
  {
    ParseNumber(token, read, [CLOSE_OBJECT]);
    ParseOneMemberText(key, token, Num(NotFinite), read);
    ParseWord(Null, read, [CLOSE_OBJECT]);
    ParseOneMemberText(key, NULL_TEXT, Null, read);
    OverflowCollidesWithNull(key, read);
  }

  /** Only objects are bindings, and the binding of a canonical text is that text. */
  lemma CanonicalTextIsBindingIff(v: Value, read: NumberReader)
    requires WellFormed(v, read) && Sound(read)
    ensures ParseCanonicalBinding(Canonical(v), read) == if v.Obj? then Some(Canonical(v)) else None
  {
    CanonicalTextReparses(v, read);
  }

  /** A canonical text followed by anything that cannot continue it is no JSON text. */
  lemma TrailingTextIsRejected(v: Value, read: NumberReader, rest: Utf16)
    requires WellFormed(v, read) && Sound(read) && rest != [] && Delimited(rest)
    ensures Parse(Canonical(v) + rest, read).None? && ParseCanonicalBinding(Canonical(v) + rest, read).None?
  {
    CanonicalIsPrintedCanon(v);
    CanonIsPrintable(v, read);
    ParsePrint(Canon(v), read, rest);
  }

  /** Whatever text is submitted, its canonical form is a fixed point of parsing and printing. */
  lemma CanonicalBindingIsFixpoint(text: Utf16, read: NumberReader)
    requires Sound(read) && ParseCanonicalBinding(text, read).Some?
    ensures ParseCanonicalBinding(ParseCanonicalBinding(text, read).value, read) == ParseCanonicalBinding(text, read)
  {
    ParsedIsWellFormed(text, read);
    CanonicalTextReparses(Parse(text, read).value, read);
  }
}
