/** JavaScript strings as sequences of UTF-16 code units, their order, and `Array.prototype.sort` on them. */
module Utf16Strings {
  import opened Common

  type Unit = u: int | 0 <= u < 0x1_0000

  type Utf16 = seq<Unit>

  /** Lexicographic order of code units (section 3.2.3 of RFC 8785). */
  predicate Less(a: Utf16, b: Utf16) {
    b != [] && (a == [] || a[0] < b[0] || (a[0] == b[0] && Less(a[1..], b[1..])))
  }

  lemma {:induction false} LessTrichotomy(a: Utf16, b: Utf16)
    ensures !Less(a, a)
    ensures a == b || Less(a, b) || Less(b, a)
    ensures !(Less(a, b) && Less(b, a))
    decreases |a|
  {
    if a != [] {
      LessTrichotomy(a[1..], a[1..]);
      if b != [] && a[0] == b[0] {
        LessTrichotomy(a[1..], b[1..]);
        assert a[1..] == b[1..] ==> [a[0]] + a[1..] == [b[0]] + b[1..];
        assert a == [a[0]] + a[1..] && b == [b[0]] + b[1..];
      }
    }
  }

  lemma {:induction false} LessTransitive(a: Utf16, b: Utf16, c: Utf16)
    requires Less(a, b) && Less(b, c)
    ensures Less(a, c)
    decreases |a|
  {
    if a != [] && a[0] == b[0] && b[0] == c[0] {
      LessTransitive(a[1..], b[1..], c[1..]);
    }
  }

  predicate Sorted(keys: seq<Utf16>) {
    forall i, j :: 0 <= i < j < |keys| ==> Less(keys[i], keys[j])
  }

  function InsertKey(key: Utf16, keys: seq<Utf16>): seq<Utf16> {
    if keys == [] then [key]
    else if Less(keys[0], key) then [keys[0]] + InsertKey(key, keys[1..])
    else [key] + keys
  }

  /** `keys.sort()`. */
  function SortKeys(keys: seq<Utf16>): seq<Utf16> {
    if keys == [] then [] else InsertKey(keys[0], SortKeys(keys[1..]))
  }

  lemma {:induction false} InsertKeyCorrect(key: Utf16, keys: seq<Utf16>)
    requires Sorted(keys) && key !in keys
    ensures Sorted(InsertKey(key, keys)) && |InsertKey(key, keys)| == |keys| + 1
    ensures forall k :: k in InsertKey(key, keys) <==> k == key || k in keys
  {
    if keys != [] {
      LessTrichotomy(keys[0], key);
      var r := InsertKey(key, keys);
      if Less(keys[0], key) {
        InsertKeyCorrect(key, keys[1..]);
        var rest := InsertKey(key, keys[1..]);
        forall j | 0 <= j < |rest| ensures Less(keys[0], rest[j]) {
          assert rest[j] in rest;
        }
      } else {
        forall j | 0 <= j < |keys| ensures Less(key, keys[j]) {
          if j > 0 { LessTransitive(key, keys[0], keys[j]); }
        }
      }
    }
  }

  /** Sorting distinct keys gives a strictly increasing list of the same keys. */
  lemma {:induction false} SortKeysCorrect(keys: seq<Utf16>)
    requires NoDup(keys)
    ensures Sorted(SortKeys(keys)) && |SortKeys(keys)| == |keys|
    ensures forall k :: k in SortKeys(keys) <==> k in keys
  {
    if keys != [] {
      SortKeysCorrect(keys[1..]);
      forall j | 0 <= j < |keys[1..]| ensures keys[1..][j] != keys[0] {
        assert keys[1..][j] == keys[j + 1];
      }
      InsertKeyCorrect(keys[0], SortKeys(keys[1..]));
      assert keys == [keys[0]] + keys[1..];
    }
  }

  /** There is only one sorted list of a given set of keys. */
  lemma {:induction false} SortedListIsUnique(a: seq<Utf16>, b: seq<Utf16>)
    requires Sorted(a) && Sorted(b)
    requires forall k :: k in a <==> k in b
    ensures a == b
  {
    assert (a != [] ==> a[0] in a) && (b != [] ==> b[0] in b);
    if a != [] {
      LessTrichotomy(a[0], b[0]);
      forall k ensures k in a[1..] <==> k in b[1..] {
        LessTrichotomy(a[0], a[0]);
        TailWithoutHead(a, k);
        TailWithoutHead(b, k);
      }
      SortedListIsUnique(a[1..], b[1..]);
      assert a == [a[0]] + a[1..] && b == [b[0]] + b[1..];
    }
  }

  lemma TailWithoutHead(a: seq<Utf16>, k: Utf16)
    requires Sorted(a) && a != []
    ensures k in a[1..] <==> k in a && k != a[0]
  {
    LessTrichotomy(a[0], a[0]);
    if k in a[1..] {
      var i :| 0 <= i < |a[1..]| && a[1..][i] == k;
      assert Less(a[0], a[i + 1]);
    }
    if k in a && k != a[0] {
      var i :| 0 <= i < |a| && a[i] == k;
      assert a[1..][i - 1] == k;
    }
  }

  lemma SortedNoDup(a: seq<Utf16>)
    requires Sorted(a)
    ensures NoDup(a)
  {
    forall i, j | 0 <= i < j < |a| ensures a[i] != a[j] {
      LessTrichotomy(a[i], a[j]);
    }
  }
}
