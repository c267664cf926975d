/** JavaScript's `Map`: entries in insertion order, where setting a present key keeps its place. */
module OrderedMaps {
  import opened Common

  /** The elements of `s` that are not in `dropped`, in order. */
  function Without<T(==)>(s: seq<T>, dropped: set<T>): seq<T> {
    if s == [] then []
    else (if s[0] in dropped then [] else [s[0]]) + Without(s[1..], dropped)
  }

  lemma {:induction false} WithoutMembers<T>(s: seq<T>, dropped: set<T>)
    ensures forall x :: x in Without(s, dropped) <==> x in s && x !in dropped
    ensures |Without(s, dropped)| <= |s|
  {
    if s != [] {
      WithoutMembers(s[1..], dropped);
    }
  }

  lemma {:induction false} WithoutNoDup<T>(s: seq<T>, dropped: set<T>)
    requires NoDup(s)
    ensures NoDup(Without(s, dropped))
  {
    if s != [] {
      WithoutNoDup(s[1..], dropped);
      WithoutMembers(s[1..], dropped);
      var rest := Without(s[1..], dropped);
      assert forall j :: 0 <= j < |rest| ==> rest[j] in rest;
      assert s[0] !in s[1..];
    }
  }

  lemma {:induction false} WithoutNothing<T>(s: seq<T>, dropped: set<T>)
    requires forall x :: x in s ==> x !in dropped
    ensures Without(s, dropped) == s
  {
    if s != [] {
      WithoutNothing(s[1..], dropped);
    }
  }

  lemma LastNAppend<T>(s: seq<T>, x: T, n: nat)
    requires n > 0
    ensures LastN(LastN(s, n) + [x], n) == LastN(s + [x], n)
    ensures forall y :: y in LastN(s + [x], n) ==> y in LastN(s, n) + [x]
  {
  }

  lemma LastNFewer<T>(s: seq<T>, n: nat)
    requires NoDup(s) && 0 < n <= |s|
    ensures |LastN(s, n)| == n && Without(LastN(s, n), {LastN(s, n)[0]}) == LastN(s, n - 1)
    ensures forall x :: x in LastN(s, n - 1) <==> x in LastN(s, n) && x != LastN(s, n)[0]
  {
    var kept, fewer := LastN(s, n), LastN(s, n - 1);
    assert kept == [kept[0]] + fewer;
    assert forall i :: 0 <= i < |fewer| ==> fewer[i] == s[|s| - n + 1 + i];
    WithoutNothing(fewer, {kept[0]});
    assert kept[1..] == fewer;
  }

  lemma LastNHas<T>(s: seq<T>, n: nat, i: nat)
    requires i < |s| <= i + n
    ensures s[i] in LastN(s, n)
  {
    if |s| > n {
      assert s[|s| - n..][i - (|s| - n)] == s[i];
    }
  }

  lemma {:induction false} WithoutTwice<T>(s: seq<T>, a: set<T>, b: set<T>)
    ensures Without(Without(s, a), b) == Without(s, a + b)
  {
    if s != [] {
      WithoutTwice(s[1..], a, b);
      var rest := Without(s[1..], a);
      if s[0] !in a {
        assert ([s[0]] + rest)[1..] == rest;
      } else {
        assert [] + rest == rest;
      }
    }
  }

  datatype OrderedMap<K(!new, ==), V> = OrderedMap(order: seq<K>, at: map<K, V>) {

    ghost predicate Valid() {
      NoDup(order) && forall k :: k in at <==> k in order
    }

    predicate Has(k: K) {
      k in at
    }

    function Get(k: K): Option<V> {
      if k in at then Some(at[k]) else None
    }

    function Set(k: K, v: V): OrderedMap<K, V> {
      OrderedMap(if k in at then order else order + [k], at[k := v])
    }

    function Remove(ks: set<K>): OrderedMap<K, V> {
      OrderedMap(Without(order, ks), at - ks)
    }

    function Delete(k: K): OrderedMap<K, V> {
      Remove({k})
    }

    /** Only the `n` newest entries. */
    function Newest(n: nat): OrderedMap<K, V> {
      OrderedMap(LastN(order, n), Only(LastN(order, n)))
    }

    function Only(kept: seq<K>): map<K, V> {
      map k | k in at && k in kept :: at[k]
    }

    lemma OnlyFewer(kept: seq<K>, fewer: seq<K>, gone: K)
      requires forall k :: k in fewer <==> k in kept && k != gone
      ensures Only(kept) - {gone} == Only(fewer)
    {
    }

    lemma SetValid(k: K, v: V)
      requires Valid()
      ensures Set(k, v).Valid()
    {
    }

    lemma RemoveValid(ks: set<K>)
      requires Valid()
      ensures Remove(ks).Valid() && |Remove(ks).order| <= |order|
    {
      WithoutNoDup(order, ks);
      WithoutMembers(order, ks);
    }

    lemma RemoveNothing()
      requires Valid()
      ensures Remove({}) == this
    {
      WithoutNothing(order, {});
      assert at - {} == at;
    }

    /** Deleting key by key is removing them all. */
    lemma RemoveMore(gone: set<K>, k: K)
      ensures Remove(gone).Delete(k) == Remove(gone + {k})
    {
      WithoutTwice(order, gone, {k});
    }

    /** Dropping the oldest of the newest `n` leaves the newest `n - 1`. */
    lemma DropOldest(n: nat)
      requires Valid() && 0 < n <= |order|
      ensures |Newest(n).order| == n && Newest(n).Delete(Newest(n).order[0]) == Newest(n - 1)
    {
      LastNFewer(order, n);
      OnlyFewer(LastN(order, n), LastN(order, n - 1), LastN(order, n)[0]);
    }

    /** One turn of an eviction loop over the newest `n`. */
    lemma EvictOne(n: nat)
      requires Valid() && 0 < n <= |order|
      ensures |Newest(n).order| == n && Newest(n).Delete(Newest(n).order[0]) == Newest(n - 1)
      ensures |Newest(n - 1).order| == n - 1
    {
      DropOldest(n);
      NewestValid(n - 1);
    }

    /** A new entry on top of the newest `n`, cut to `n` again, is the newest `n` of everything. */
    lemma NewestSet(n: nat, k: K, v: V)
      requires Valid() && !Has(k) && n > 0
      ensures Newest(n).Set(k, v).Newest(n) == Set(k, v).Newest(n)
    {
      LastNAppend(order, k, n);
      var small, full := Newest(n).Set(k, v), Set(k, v);
      assert small.order == LastN(order, n) + [k];
      forall x | x in LastN(full.order, n) ensures x in small.at && small.at[x] == full.at[x] {
        assert x in small.order;
      }
    }

    lemma NewestGet(n: nat, k: K)
      requires Valid() && k in LastN(order, n)
      ensures Newest(n).Get(k) == Get(k)
    {
    }

    lemma NewestIsAll(n: nat)
      requires Valid() && |order| <= n
      ensures Newest(n) == this
    {
    }

    lemma NewestValid(n: nat)
      requires Valid()
      ensures Newest(n).Valid() && |Newest(n).order| == if |order| <= n then |order| else n
    {
    }
  }

  function Empty<K(!new), V>(): OrderedMap<K, V> {
    OrderedMap([], map[])
  }
}
