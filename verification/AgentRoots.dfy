/**
 Discovering agents: directories that are aliases of each other are merged, agents with the same name override
 each other, and the result is ordered (extensions/gentle-ai.ts:2393-2475).
 */
module AgentRoots {
  import opened Common
  import opened OrderedMaps
  import opened ModelRouting

  /** A directory to search; `canonical` is its real path, or the resolved path when that cannot be read. */
  datatype Root = Root(dir: Path, canonical: Path, source: Source, managed: bool)

  /** A root after merging its aliases. */
  datatype Merged = Merged(dir: Path, source: Source, managed: bool)

  type Unique = OrderedMap<Path, Merged>

  /** A later alias moves the entry to the end; a managed alias keeps its own path. */
  function Join(existing: Option<Merged>, r: Root): Merged {
    if existing.Some? && existing.value.managed then Merged(existing.value.dir, r.source, true)
    else Merged(r.dir, r.source, r.managed)
  }

  function Merge(roots: seq<Root>): Unique {
    if roots == [] then Empty()
    else
      var before, r := Merge(roots[..|roots| - 1]), roots[|roots| - 1];
      before.Delete(r.canonical).Set(r.canonical, Join(before.Get(r.canonical), r))
  }

  predicate IsAlias(roots: seq<Root>, i: nat, canonical: Path) {
    i < |roots| && roots[i].canonical == canonical
  }

  /** The last alias of a directory. */
  ghost predicate IsLast(roots: seq<Root>, i: nat, canonical: Path) {
    IsAlias(roots, i, canonical) && forall j :: i < j < |roots| ==> roots[j].canonical != canonical
  }

  /** The first managed alias of a directory. */
  ghost predicate IsFirstManaged(roots: seq<Root>, i: nat, canonical: Path) {
    && IsAlias(roots, i, canonical) && roots[i].managed
    && forall j :: 0 <= j < i && roots[j].canonical == canonical ==> !roots[j].managed
  }

  ghost predicate AnyManaged(roots: seq<Root>, canonical: Path) {
    exists i: nat :: IsFirstManaged(roots, i, canonical)
  }

  /** What merging promises of one directory. */
  ghost predicate MergedRight(roots: seq<Root>, canonical: Path, m: Merged) {
    && (exists i: nat :: IsLast(roots, i, canonical) && m.source == roots[i].source
                 && (!AnyManaged(roots, canonical) ==> m.dir == roots[i].dir))
    && (m.managed <==> AnyManaged(roots, canonical))
    && (forall i: nat :: IsFirstManaged(roots, i, canonical) ==> m.dir == roots[i].dir)
  }

  /** Sorted by the position of the last alias. */
  ghost predicate ByLastAlias(roots: seq<Root>, order: seq<Path>) {
    forall x, y, i: nat, j: nat :: 0 <= x < y < |order| && IsLast(roots, i, order[x]) && IsLast(roots, j, order[y]) ==> i < j
  }

  lemma LastAfterSnoc(front: seq<Root>, r: Root, i: nat, canonical: Path)
    ensures IsLast(front + [r], i, canonical) <==>
      if r.canonical == canonical then i == |front| else IsLast(front, i, canonical)
    ensures IsFirstManaged(front + [r], i, canonical) <==>
      || IsFirstManaged(front, i, canonical)
      || (i == |front| && r.canonical == canonical && r.managed
          && forall j :: 0 <= j < |front| && front[j].canonical == canonical ==> !front[j].managed)
  {
    var roots := front + [r];
    assert roots[|front|] == r && forall j :: 0 <= j < |front| ==> roots[j] == front[j];
  }

  lemma {:induction false} NoneManaged(roots: seq<Root>, canonical: Path)
    ensures AnyManaged(roots, canonical) <==> exists j :: 0 <= j < |roots| && roots[j].canonical == canonical && roots[j].managed
  {
    if roots != [] {
      var front, r := roots[..|roots| - 1], roots[|roots| - 1];
      assert roots == front + [r];
      NoneManaged(front, canonical);
      forall i: nat ensures IsFirstManaged(front, i, canonical) ==> IsFirstManaged(roots, i, canonical) {
        LastAfterSnoc(front, r, i, canonical);
      }
      LastAfterSnoc(front, r, |front|, canonical);
      if AnyManaged(front, canonical) {
        var i: nat :| IsFirstManaged(front, i, canonical);
        assert IsFirstManaged(roots, i, canonical);
      }
    }
  }

  lemma MergeStep(front: seq<Root>, r: Root, canonical: Path, m: Option<Merged>)
    requires m.Some? ==> MergedRight(front, canonical, m.value)
    requires m.None? ==> forall i :: 0 <= i < |front| ==> front[i].canonical != canonical
    ensures r.canonical == canonical ==> MergedRight(front + [r], canonical, Join(m, r))
    ensures r.canonical != canonical && m.Some? ==> MergedRight(front + [r], canonical, m.value)
  {
    var roots := front + [r];
    forall i: nat
      ensures IsLast(roots, i, canonical) <==> if r.canonical == canonical then i == |front| else IsLast(front, i, canonical)
      ensures IsFirstManaged(front, i, canonical) ==> IsFirstManaged(roots, i, canonical)
      ensures IsFirstManaged(roots, i, canonical) ==> IsFirstManaged(front, i, canonical) || (i == |front| && r.canonical == canonical && r.managed)
    {
      LastAfterSnoc(front, r, i, canonical);
    }
    NoneManaged(front, canonical);
    NoneManaged(roots, canonical);
    assert roots[|front|] == r && forall j :: 0 <= j < |front| ==> roots[j] == front[j];
    if r.canonical == canonical {
      assert IsLast(roots, |front|, canonical);
    } else if m.Some? {
      var i: nat :| IsLast(front, i, canonical) && m.value.source == front[i].source
            && (!AnyManaged(front, canonical) ==> m.value.dir == front[i].dir);
      assert IsLast(roots, i, canonical);
    }
  }

  /**
   Merging roots: one entry per directory, ordered by last occurrence; each takes the last alias's source, is
   managed if and only if some alias is, and then keeps the first managed alias's path.
   */
  lemma {:induction false} MergeIsRight(roots: seq<Root>)
    ensures Merge(roots).Valid()
    ensures forall c :: Merge(roots).Has(c) <==> exists i :: 0 <= i < |roots| && roots[i].canonical == c
    ensures forall c :: Merge(roots).Has(c) ==> MergedRight(roots, c, Merge(roots).at[c])
    ensures ByLastAlias(roots, Merge(roots).order)
  {
    if roots != [] {
      var front, r := roots[..|roots| - 1], roots[|roots| - 1];
      var before := Merge(front);
      MergeIsRight(front);
      assert roots == front + [r];
      before.RemoveValid({r.canonical});
      var left := before.Delete(r.canonical);
      left.SetValid(r.canonical, Join(before.Get(r.canonical), r));
      assert Merge(roots).order == left.order + [r.canonical];
      forall c ensures Merge(roots).Has(c) <==> exists i :: 0 <= i < |roots| && roots[i].canonical == c {
        if c == r.canonical { assert roots[|front|].canonical == c; }
        if before.Has(c) {
          var i :| 0 <= i < |front| && front[i].canonical == c;
          assert roots[i].canonical == c;
        }
      }
      forall c | Merge(roots).Has(c) ensures MergedRight(roots, c, Merge(roots).at[c]) {
        if !before.Has(c) {
          assert forall i :: 0 <= i < |front| ==> front[i].canonical != c;
        }
        MergeStep(front, r, c, before.Get(c));
      }
      OrderStep(front, r, before.order);
    }
  }

  /** Moving the newest directory to the end keeps the order by last alias. */
  lemma OrderStep(front: seq<Root>, r: Root, order: seq<Path>)
    requires NoDup(order) && ByLastAlias(front, order)
    ensures ByLastAlias(front + [r], Without(order, {r.canonical}) + [r.canonical])
  {
    var left := Without(order, {r.canonical});
    var all := left + [r.canonical];
    WithoutMembers(order, {r.canonical});
    forall x, y, i: nat, j: nat
      | 0 <= x < y < |all| && IsLast(front + [r], i, all[x]) && IsLast(front + [r], j, all[y])
      ensures i < j
    {
      LastAfterSnoc(front, r, i, all[x]);
      LastAfterSnoc(front, r, j, all[y]);
      assert all[x] == left[x] && left[x] in left;
      if y < |left| {
        assert left[y] in left;
        var x', y' := KeepsOrder(order, {r.canonical}, x, y);
      }
    }
  }

  /** What is left after dropping elements keeps its relative order. */
  lemma {:induction false} KeepsOrder(s: seq<Path>, dropped: set<Path>, x: nat, y: nat) returns (x': nat, y': nat)
    requires x < y < |Without(s, dropped)|
    ensures x' < y' < |s| && s[x'] == Without(s, dropped)[x] && s[y'] == Without(s, dropped)[y]
  {
    var rest := Without(s[1..], dropped);
    if s[0] in dropped {
      x', y' := KeepsOrder(s[1..], dropped, x, y);
      x', y' := x' + 1, y' + 1;
    } else if x > 0 {
      x', y' := KeepsOrder(s[1..], dropped, x - 1, y - 1);
      x', y' := x' + 1, y' + 1;
    } else {
      WithoutMembers(s[1..], dropped);
      assert rest[y - 1] in rest;
      var k :| 0 <= k < |s[1..]| && s[1..][k] == rest[y - 1];
      x', y' := 0, k + 1;
    }
  }

  /** `discoverableNonBuiltinAgentRoots`: the loop over the candidate roots. */
  method MergeRoots(roots: seq<Root>) returns (unique: seq<Merged>)
    ensures |unique| == |Merge(roots).order|
    ensures forall i :: 0 <= i < |unique| ==>
      Merge(roots).order[i] in Merge(roots).at && unique[i] == Merge(roots).at[Merge(roots).order[i]]
  {
    var byCanonical: Unique := Empty();
    for n := 0 to |roots|
      invariant byCanonical == Merge(roots[..n])
    {
      assert roots[..n + 1][..n] == roots[..n];
      var r := roots[n];
      if r.canonical in byCanonical.at {
        var existing := byCanonical.at[r.canonical];
        var dir := if existing.managed then existing.dir else r.dir;
        byCanonical := byCanonical.Delete(r.canonical)
        .Set(r.canonical, Merged(dir, r.source, existing.managed || r.managed));
      } else {
        MergeIsRight(roots[..n]);
        WithoutNothing(byCanonical.order, {r.canonical});
        assert byCanonical.at - {r.canonical} == byCanonical.at;
        byCanonical := byCanonical.Set(r.canonical, Merged(r.dir, r.source, r.managed));
      }
    }
    assert roots[..|roots|] == roots;
    MergeIsRight(roots);
    unique := seq(|byCanonical.order|, i requires 0 <= i < |byCanonical.order| => byCanonical.at[byCanonical.order[i]]);
  }

  // ----- Agents with the same name -----

  /** `byName.set(agent.name, agent)` for every file found: the last one wins, in the first one's place. */
  function ByName(found: seq<Agent>): OrderedMap<Name, Agent> {
    if found == [] then Empty()
    else ByName(found[..|found| - 1]).Set(found[|found| - 1].name, found[|found| - 1])
  }

  ghost predicate IsLastNamed(found: seq<Agent>, i: nat, name: Name) {
    i < |found| && found[i].name == name && forall j :: i < j < |found| ==> found[j].name != name
  }

  ghost predicate IsOverride(found: seq<Agent>, name: Name, a: Agent) {
    exists i: nat :: IsLastNamed(found, i, name) && a == found[i]
  }

  ghost predicate Named(found: seq<Agent>, name: Name) {
    exists i :: 0 <= i < |found| && found[i].name == name
  }

  lemma OverrideStep(front: seq<Agent>, last: Agent, name: Name)
    ensures Named(front + [last], name) <==> name == last.name || Named(front, name)
    ensures name == last.name ==> IsOverride(front + [last], name, last)
    ensures forall a :: name != last.name && IsOverride(front, name, a) ==> IsOverride(front + [last], name, a)
  {
    var found := front + [last];
    assert found[|front|] == last && forall j :: 0 <= j < |front| ==> found[j] == front[j];
    if name == last.name { assert IsLastNamed(found, |front|, name); }
    forall a | name != last.name && IsOverride(front, name, a) ensures IsOverride(found, name, a) {
      var i: nat :| IsLastNamed(front, i, name) && a == front[i];
      assert IsLastNamed(found, i, name);
    }
  }

  /** Every name found is kept once, with the last file that has it. */
  lemma {:induction false} LaterFilesOverride(found: seq<Agent>)
    ensures ByName(found).Valid()
    ensures forall name :: ByName(found).Has(name) <==> Named(found, name)
    ensures forall name :: ByName(found).Has(name) ==> IsOverride(found, name, ByName(found).at[name])
  {
    if found != [] {
      var front, last := found[..|found| - 1], found[|found| - 1];
      assert found == front + [last];
      LaterFilesOverride(front);
      ByName(front).SetValid(last.name, last);
      forall name
        ensures ByName(found).Has(name) <==> Named(found, name)
        ensures ByName(found).Has(name) ==> IsOverride(found, name, ByName(found).at[name])
      {
        OverrideStep(front, last, name);
      }
    }
  }

  // ----- The order shown and applied -----

  /** `left.localeCompare(right) < 0`. */
  type Collation = (Name, Name) -> bool

  ghost predicate StrictWeak(before: Collation) {
    && (forall a, b :: before(a, b) ==> !before(b, a))
    && (forall a, b, c :: !before(a, b) && !before(b, c) ==> !before(a, c))
  }

  /** A stable sort by name. */
  function InsertStable(sorted: seq<Agent>, a: Agent, before: Collation): seq<Agent> {
    if sorted == [] || !before(a.name, sorted[|sorted| - 1].name) then sorted + [a]
    else InsertStable(sorted[..|sorted| - 1], a, before) + [sorted[|sorted| - 1]]
  }

  function SortByName(agents: seq<Agent>, before: Collation): seq<Agent> {
    if agents == [] then []
    else InsertStable(SortByName(agents[..|agents| - 1], before), agents[|agents| - 1], before)
  }

  /** `agents.find(...)` for each core name, where there is one. */
  function CoreFirst(core: seq<Name>, agents: OrderedMap<Name, Agent>): seq<Agent> {
    if core == [] then []
    else (if core[0] in agents.at then [agents.at[core[0]]] else []) + CoreFirst(core[1..], agents)
  }

  function Rest(core: seq<Name>, agents: OrderedMap<Name, Agent>): seq<Agent>
    requires forall k :: k in agents.order ==> k in agents.at
  {
    ValuesOf(agents, Without(agents.order, set k | k in core))
  }

  /** The values of these keys, where present. */
  function ValuesOf(agents: OrderedMap<Name, Agent>, keys: seq<Name>): seq<Agent> {
    if keys == [] then []
    else (if keys[0] in agents.at then [agents.at[keys[0]]] else []) + ValuesOf(agents, keys[1..])
  }

  /** `orderDiscoverableAgents`. */
  function OrderAgents(core: seq<Name>, agents: OrderedMap<Name, Agent>, before: Collation): seq<Agent>
    requires forall k :: k in agents.order ==> k in agents.at
  {
    CoreFirst(core, agents) + SortByName(Rest(core, agents), before)
  }

  lemma {:induction false} InsertKeepsMembers(sorted: seq<Agent>, a: Agent, before: Collation)
    ensures multiset(InsertStable(sorted, a, before)) == multiset(sorted) + multiset{a}
  {
    if sorted != [] {
      InsertKeepsMembers(sorted[..|sorted| - 1], a, before);
      assert sorted == sorted[..|sorted| - 1] + [sorted[|sorted| - 1]];
    }
  }

  lemma {:induction false} SortKeepsMembers(agents: seq<Agent>, before: Collation)
    ensures multiset(SortByName(agents, before)) == multiset(agents)
  {
    if agents != [] {
      SortKeepsMembers(agents[..|agents| - 1], before);
      InsertKeepsMembers(SortByName(agents[..|agents| - 1], before), agents[|agents| - 1], before);
      assert agents == agents[..|agents| - 1] + [agents[|agents| - 1]];
    }
  }

  ghost predicate SortedBy(agents: seq<Agent>, before: Collation) {
    forall i, j :: 0 <= i < j < |agents| ==> !before(agents[j].name, agents[i].name)
  }

  lemma {:induction false} InsertKeepsSorted(sorted: seq<Agent>, a: Agent, before: Collation)
    requires StrictWeak(before) && SortedBy(sorted, before)
    ensures SortedBy(InsertStable(sorted, a, before), before)
  {
    if sorted != [] && before(a.name, sorted[|sorted| - 1].name) {
      var front, last := sorted[..|sorted| - 1], sorted[|sorted| - 1];
      InsertKeepsSorted(front, a, before);
      InsertKeepsMembers(front, a, before);
      var r := InsertStable(front, a, before);
      forall i | 0 <= i < |r| ensures !before(last.name, r[i].name) {
        assert r[i] in multiset(r);
        assert r[i] == a || r[i] in front;
      }
    } else if sorted != [] {
      var last := sorted[|sorted| - 1];
      forall i | 0 <= i < |sorted| ensures !before(a.name, sorted[i].name) {
        assert !before(a.name, last.name) && (i < |sorted| - 1 ==> !before(last.name, sorted[i].name));
      }
    }
  }

  lemma {:induction false} SortSorts(agents: seq<Agent>, before: Collation)
    requires StrictWeak(before)
    ensures SortedBy(SortByName(agents, before), before)
  {
    if agents != [] {
      SortSorts(agents[..|agents| - 1], before);
      InsertKeepsSorted(SortByName(agents[..|agents| - 1], before), agents[|agents| - 1], before);
    }
  }

  /** The keys among `core`, then the others: a rearrangement of the keys. */
  lemma {:induction false} CoreKeysThenRest(core: seq<Name>, order: seq<Name>)
    requires NoDup(core) && NoDup(order)
    ensures multiset(Present(core, order)) + multiset(Without(order, set k | k in core)) == multiset(order)
  {
    var coreSet := set k | k in core;
    WithoutNoDup(order, coreSet);
    WithoutMembers(order, coreSet);
    PresentMembers(core, order);
    forall k ensures multiset(Present(core, order))[k] + multiset(Without(order, coreSet))[k] == multiset(order)[k] {
      CountDistinct(Present(core, order), k);
      CountDistinct(Without(order, coreSet), k);
      CountDistinct(order, k);
    }
  }

  /** The core names that occur, in the fixed order. */
  function Present(core: seq<Name>, order: seq<Name>): seq<Name> {
    if core == [] then [] else (if core[0] in order then [core[0]] else []) + Present(core[1..], order)
  }

  lemma {:induction false} PresentMembers(core: seq<Name>, order: seq<Name>)
    requires NoDup(core)
    ensures NoDup(Present(core, order)) && forall k :: k in Present(core, order) <==> k in core && k in order
  {
    if core != [] {
      PresentMembers(core[1..], order);
      var rest := Present(core[1..], order);
      assert core[0] !in core[1..];
      assert forall i :: 0 <= i < |rest| ==> rest[i] in rest;
    }
  }

  lemma {:induction false} CountDistinct(s: seq<Name>, k: Name)
    requires NoDup(s)
    ensures multiset(s)[k] == if k in s then 1 else 0
  {
    if s != [] {
      CountDistinct(s[1..], k);
      assert s == [s[0]] + s[1..] && s[0] !in s[1..];
    }
  }

  lemma {:induction false} ValuesOfConcat(agents: OrderedMap<Name, Agent>, a: seq<Name>, b: seq<Name>)
    ensures ValuesOf(agents, a + b) == ValuesOf(agents, a) + ValuesOf(agents, b)
  {
    if a == [] {
      assert a + b == b;
    } else {
      ValuesOfConcat(agents, a[1..], b);
      var head := if a[0] in agents.at then [agents.at[a[0]]] else [];
      assert (a + b)[1..] == a[1..] + b && (a + b)[0] == a[0];
      assert ValuesOf(agents, a + b) == head + (ValuesOf(agents, a[1..]) + ValuesOf(agents, b));
    }
  }

  lemma ValuesWithout(agents: OrderedMap<Name, Agent>, b: seq<Name>, i: nat)
    requires i < |b|
    ensures multiset(ValuesOf(agents, b)) == multiset(ValuesOf(agents, [b[i]])) + multiset(ValuesOf(agents, b[..i] + b[i + 1..]))
  {
    assert b == b[..i] + [b[i]] + b[i + 1..];
    ValuesOfConcat(agents, b[..i] + [b[i]], b[i + 1..]);
    ValuesOfConcat(agents, b[..i], [b[i]]);
    ValuesOfConcat(agents, b[..i], b[i + 1..]);
  }

  /** Where the first key of one rearrangement is in the other. */
  lemma MatchFirst(a: seq<Name>, b: seq<Name>) returns (i: nat)
    requires a != [] && multiset(a) == multiset(b)
    ensures i < |b| && b[i] == a[0] && multiset(a[1..]) == multiset(b[..i] + b[i + 1..])
  {
    assert a[0] in multiset(b);
    i :| i < |b| && b[i] == a[0];
    assert a == [a[0]] + a[1..];
    assert multiset(a[1..]) == multiset(a) - multiset{a[0]};
    assert b == b[..i] + [b[i]] + b[i + 1..];
    assert multiset(b[..i] + b[i + 1..]) == multiset(b) - multiset{a[0]};
  }

  lemma {:induction false} ValuesOfPermutation(agents: OrderedMap<Name, Agent>, a: seq<Name>, b: seq<Name>)
    requires multiset(a) == multiset(b)
    ensures multiset(ValuesOf(agents, a)) == multiset(ValuesOf(agents, b))
  {
    if a == [] {
      assert |multiset(b)| == 0;
      assert b == [];
    } else {
      var i := MatchFirst(a, b);
      ValuesOfPermutation(agents, a[1..], b[..i] + b[i + 1..]);
      ValuesWithout(agents, b, i);
      ValuesOfConcat(agents, [a[0]], a[1..]);
      assert a == [a[0]] + a[1..];
    }
  }

  lemma {:induction false} CoreFirstIsPresent(core: seq<Name>, agents: OrderedMap<Name, Agent>)
    requires agents.Valid()
    ensures CoreFirst(core, agents) == ValuesOf(agents, Present(core, agents.order))
  {
    if core != [] {
      CoreFirstIsPresent(core[1..], agents);
      var head := if core[0] in agents.order then [core[0]] else [];
      ValuesOfConcat(agents, head, Present(core[1..], agents.order));
      assert [core[0]][1..] == [];
    }
  }

  /** The ordering is a permutation of the agents: the core ones in the fixed order, then the others sorted by name. */
  lemma OrderingIsPermutation(core: seq<Name>, agents: OrderedMap<Name, Agent>, before: Collation)
    requires agents.Valid() && NoDup(core) && StrictWeak(before)
    ensures multiset(OrderAgents(core, agents, before)) == multiset(ValuesOf(agents, agents.order))
    ensures CoreFirst(core, agents) == ValuesOf(agents, Present(core, agents.order))
    ensures SortedBy(SortByName(Rest(core, agents), before), before)
  {
    var others := Without(agents.order, set k | k in core);
    CoreFirstIsPresent(core, agents);
    SortKeepsMembers(Rest(core, agents), before);
    SortSorts(Rest(core, agents), before);
    CoreKeysThenRest(core, agents.order);
    ValuesOfConcat(agents, Present(core, agents.order), others);
    ValuesOfPermutation(agents, Present(core, agents.order) + others, agents.order);
  }

  // ----- One agent a name -----

  ghost predicate DistinctNames(agents: seq<Agent>) {
    forall i, j :: 0 <= i < j < |agents| ==> agents[i].name != agents[j].name
  }

  ghost predicate KeyedByName(agents: OrderedMap<Name, Agent>) {
    forall k :: k in agents.at ==> agents.at[k].name == k
  }

  lemma {:induction false} ByNameIsKeyed(found: seq<Agent>)
    ensures KeyedByName(ByName(found))
  {
    if found != [] { ByNameIsKeyed(found[..|found| - 1]); }
  }

  lemma {:induction false} ValuesAreDistinct(agents: OrderedMap<Name, Agent>, keys: seq<Name>)
    requires KeyedByName(agents) && NoDup(keys)
    ensures DistinctNames(ValuesOf(agents, keys))
    ensures forall i :: 0 <= i < |ValuesOf(agents, keys)| ==> ValuesOf(agents, keys)[i].name in keys
  {
    if keys != [] {
      ValuesAreDistinct(agents, keys[1..]);
      assert keys[0] !in keys[1..];
    }
  }

  lemma {:induction false} DistinctOccurOnce(agents: seq<Agent>, a: Agent)
    requires DistinctNames(agents)
    ensures multiset(agents)[a] <= 1
  {
    if agents != [] {
      DistinctOccurOnce(agents[1..], a);
      assert agents == [agents[0]] + agents[1..];
      if a == agents[0] { assert a !in agents[1..]; }
    }
  }

  lemma SameOccursTwice(t: seq<Agent>, i: nat, j: nat)
    requires i < j < |t| && t[i] == t[j]
    ensures multiset(t)[t[i]] >= 2
  {
    assert t == t[..j] + t[j..];
    assert t[i] in t[..j] && t[j] in t[j..];
  }

  lemma RearrangedStayDistinct(s: seq<Agent>, t: seq<Agent>)
    requires DistinctNames(s) && multiset(s) == multiset(t)
    ensures DistinctNames(t)
  {
    forall i, j | 0 <= i < j < |t| ensures t[i].name != t[j].name {
      assert t[i] in multiset(s) && t[j] in multiset(s);
      DistinctOccurOnce(s, t[i]);
      if t[i] == t[j] { SameOccursTwice(t, i, j); }
    }
  }

  lemma {:induction false} ValuesKeepOrder(agents: OrderedMap<Name, Agent>, keys: seq<Name>)
    requires KeyedByName(agents) && forall k :: k in keys ==> k in agents.at
    ensures |ValuesOf(agents, keys)| == |keys|
    ensures forall i :: 0 <= i < |keys| ==> ValuesOf(agents, keys)[i] == agents.at[keys[i]]
  {
    if keys != [] { ValuesKeepOrder(agents, keys[1..]); }
  }

  /** These names come up in this order. */
  ghost predicate ComesBefore(core: seq<Name>, a: Name, b: Name) {
    exists x, y :: 0 <= x < y < |core| && core[x] == a && core[y] == b
  }

  lemma {:induction false} PresentKeepsOrder(core: seq<Name>, order: seq<Name>, i: nat, j: nat)
    requires i < j < |Present(core, order)|
    ensures ComesBefore(core, Present(core, order)[i], Present(core, order)[j])
  {
    var present, rest := Present(core, order), Present(core[1..], order);
    var skip := if core[0] in order then 1 else 0;
    if i >= skip {
      PresentKeepsOrder(core[1..], order, i - skip, j - skip);
      var x, y :| 0 <= x < y < |core[1..]| && core[1..][x] == present[i] && core[1..][y] == present[j];
      assert core[x + 1] == present[i] && core[y + 1] == present[j];
    } else {
      PresentIn(core[1..], order);
      assert present[j] == rest[j - 1] && rest[j - 1] in rest;
      var y :| 0 <= y < |core[1..]| && core[1..][y] == present[j];
      assert core[0] == present[i] && core[y + 1] == present[j];
    }
  }

  lemma {:induction false} PresentIn(core: seq<Name>, order: seq<Name>)
    ensures forall k :: k in Present(core, order) ==> k in core
  {
    if core != [] { PresentIn(core[1..], order); }
  }

  /** The first `n` are core agents in the fixed order of their names, the others are not and are sorted by name. */
  ghost predicate CoreThenSorted(listed: seq<Agent>, n: nat, core: seq<Name>, before: Collation) {
    && n <= |listed|
    && (forall i :: 0 <= i < n ==> listed[i].name in core)
    && (forall i :: n <= i < |listed| ==> listed[i].name !in core)
    && (forall i, j :: 0 <= i < j < n ==> ComesBefore(core, listed[i].name, listed[j].name))
    && (forall i, j :: n <= i < j < |listed| ==> !before(listed[j].name, listed[i].name))
  }

  lemma JoinedParts(first: seq<Agent>, others: seq<Agent>, core: seq<Name>, before: Collation)
    requires CoreThenSorted(first, |first|, core, before) && CoreThenSorted(others, 0, core, before)
    ensures CoreThenSorted(first + others, |first|, core, before)
  {
    var listed := first + others;
    assert forall i :: 0 <= i < |first| ==> listed[i] == first[i];
    assert forall i :: |first| <= i < |listed| ==> listed[i] == others[i - |first|];
  }

  /** The list starts with the core agents that exist, in the fixed order of their names, and ends with all the others, sorted. */
  lemma CoreComesFirst(core: seq<Name>, agents: OrderedMap<Name, Agent>, before: Collation) returns (n: nat)
    requires agents.Valid() && KeyedByName(agents) && NoDup(core) && StrictWeak(before)
    ensures CoreThenSorted(OrderAgents(core, agents, before), n, core, before)
  {
    var first, others := CoreFirst(core, agents), SortByName(Rest(core, agents), before);
    n := |first|;
    CoreNames(core, agents, before);
    SortSorts(Rest(core, agents), before);
    forall i | 0 <= i < |others| ensures others[i].name !in core {
      OthersAreNotCore(core, agents, before, others[i]);
    }
    assert forall i :: 0 <= i < |others| ==> others[i].name !in core;
    assert SortedBy(others, before);
    assert CoreThenSorted(others, 0, core, before);
    JoinedParts(first, others, core, before);
  }

  lemma CoreNames(core: seq<Name>, agents: OrderedMap<Name, Agent>, before: Collation)
    requires agents.Valid() && KeyedByName(agents) && NoDup(core)
    ensures CoreThenSorted(CoreFirst(core, agents), |CoreFirst(core, agents)|, core, before)
  {
    var present, first := Present(core, agents.order), CoreFirst(core, agents);
    PresentMembers(core, agents.order);
    CoreFirstIsPresent(core, agents);
    ValuesKeepOrder(agents, present);
    assert forall i :: 0 <= i < |first| ==> first[i].name == present[i] && present[i] in present;
    forall i, j | 0 <= i < j < |first| ensures ComesBefore(core, first[i].name, first[j].name) {
      PresentKeepsOrder(core, agents.order, i, j);
    }
  }

  lemma OthersAreNotCore(core: seq<Name>, agents: OrderedMap<Name, Agent>, before: Collation, a: Agent)
    requires agents.Valid() && KeyedByName(agents) && a in SortByName(Rest(core, agents), before)
    ensures a.name !in core
  {
    var coreSet := set k | k in core;
    SortKeepsMembers(Rest(core, agents), before);
    assert a in multiset(SortByName(Rest(core, agents), before));
    assert a in Rest(core, agents);
    WithoutMembers(agents.order, coreSet);
    ValueOfMembers(agents, Without(agents.order, coreSet), a);
  }

  /** `listDiscoverableAgents`: whatever files are found, the list has each name once, with the last file that has it. */
  lemma ListedOnceWithLastFile(core: seq<Name>, found: seq<Agent>, before: Collation)
    requires NoDup(core) && StrictWeak(before)
    ensures ByName(found).Valid()
    ensures DistinctNames(OrderAgents(core, ByName(found), before))
    ensures forall a :: a in OrderAgents(core, ByName(found), before) <==> IsOverride(found, a.name, a)
  {
    var byName := ByName(found);
    LaterFilesOverride(found);
    var listed := OrderAgents(core, byName, before);
    ByNameIsKeyed(found);
    OrderingIsPermutation(core, byName, before);
    ValuesAreDistinct(byName, byName.order);
    RearrangedStayDistinct(ValuesOf(byName, byName.order), listed);
    forall a ensures a in listed <==> IsOverride(found, a.name, a) {
      assert a in listed <==> a in multiset(listed);
      ValueOfMembers(byName, byName.order, a);
      LastIsUnique(found, a);
    }
  }

  lemma {:induction false} ValueOfMembers(agents: OrderedMap<Name, Agent>, keys: seq<Name>, a: Agent)
    requires KeyedByName(agents)
    ensures a in ValuesOf(agents, keys) <==> a.name in keys && agents.Get(a.name) == Some(a)
  {
    if keys != [] { ValueOfMembers(agents, keys[1..], a); }
  }

  lemma LastIsUnique(found: seq<Agent>, a: Agent)
    ensures forall b :: IsOverride(found, a.name, a) && IsOverride(found, a.name, b) ==> a == b
    ensures IsOverride(found, a.name, a) ==> Named(found, a.name)
  {
  }
}
