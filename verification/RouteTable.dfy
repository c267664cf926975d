/**
 The retained selections of a session: at most 64 entries that remember untracked-file selections per
 lineage and the route of every capture binding the provider offered
 (extensions/gentle-ai.ts:5741, 6460-6482, 6534-6571).
 */
module RouteTable {
  import opened Common
  import opened OrderedMaps
  import opened Text

  const MAX_RETAINED: nat := 64

  /** A retained selection: an untracked-file choice, or the route a capture binding was offered on. */
  datatype Selection = Untracked(id: nat) | Route(workspaceRoot: string, lineageId: string, baseRef: Option<string>)

  type Table = OrderedMap<string, Selection>

  /** What a sync reads of a STATUS: the offered bindings are those of its collect transition. */
  datatype Status = Status(currentTarget: bool, lineageId: Option<string>, state: string, offered: seq<string>)

  // ----- Keys -----

  const NUL := '\0'
  const CAPTURE := "capture"

  function LifecycleKey(workspaceRoot: string, lineageId: string): string {
    workspaceRoot + [NUL] + lineageId
  }

  function CaptureKey(collectBinding: string): string {
    CAPTURE + [NUL] + collectBinding
  }

  predicate IsCaptureKey(key: string) {
    CAPTURE + [NUL] <= key
  }

  /** An absolute path: POSIX, drive letter, or UNC. */
  predicate IsAbsolute(path: string) {
    path != "" &&
    (path[0] == '/' || path[0] == '\\' || (|path| > 1 && path[1] == ':'))
  }

  predicate IsRoot(path: string) {
    IsAbsolute(path) && NUL !in path
  }

  lemma FirstNul(a: string, x: string)
    requires NUL !in a
    ensures (a + [NUL] + x)[|a|] == NUL && forall i :: 0 <= i < |a| ==> (a + [NUL] + x)[i] != NUL
    ensures (a + [NUL] + x)[..|a|] == a && (a + [NUL] + x)[|a| + 1..] == x
  {
  }

  lemma SplitAtNul(a: string, b: string, x: string, y: string)
    requires NUL !in a && NUL !in b && a + [NUL] + x == b + [NUL] + y
    ensures a == b && x == y
  {
    FirstNul(a, x);
    FirstNul(b, y);
  }

  /** Keys of the two kinds never meet, and each kind is unambiguous. */
  lemma KeysAreUnambiguous(root: string, lineage: string, root': string, lineage': string, binding: string, binding': string)
    requires IsRoot(root) && IsRoot(root')
    ensures !IsCaptureKey(LifecycleKey(root, lineage)) && IsCaptureKey(CaptureKey(binding))
    ensures LifecycleKey(root, lineage) != CaptureKey(binding)
    ensures LifecycleKey(root, lineage) == LifecycleKey(root', lineage') <==> root == root' && lineage == lineage'
    ensures CaptureKey(binding) == CaptureKey(binding') <==> binding == binding'
  {
    var key := LifecycleKey(root, lineage);
    if IsCaptureKey(key) {
      assert key == CAPTURE + [NUL] + key[8..];
      SplitAtNul(root, CAPTURE, lineage, key[8..]);
    }
    if key == LifecycleKey(root', lineage') {
      SplitAtNul(root, root', lineage, lineage');
    }
    if CaptureKey(binding) == CaptureKey(binding') {
      SplitAtNul(CAPTURE, CAPTURE, binding, binding');
    }
  }

  // ----- Operations -----

  /** Evict the oldest entries until a new key fits, then set. */
  function Retain(t: Table, key: string, selection: Selection): Table {
    (if t.Has(key) then t else t.Newest(MAX_RETAINED - 1)).Set(key, selection)
  }

  predicate IsTerminal(state: string) {
    state == "invalidated" || state == "approved" || state == "escalated"
  }

  predicate IsRouteOf(t: Table, key: string, root: string, lineage: string) {
    key in t.at && t.at[key].Route? && t.at[key].workspaceRoot == root && t.at[key].lineageId == lineage
  }

  function RoutesOf(t: Table, root: string, lineage: string): set<string> {
    set k | k in t.at && IsRouteOf(t, k, root, lineage)
  }

  /** The keys of the offered bindings, in order. */
  function CaptureKeys(bindings: seq<string>): (keys: seq<string>)
    ensures |keys| == |bindings| && forall i :: 0 <= i < |keys| ==> keys[i] == CaptureKey(bindings[i])
    ensures forall k :: k in keys ==> IsCaptureKey(k)
  {
    seq(|bindings|, i requires 0 <= i < |bindings| => CaptureKey(bindings[i]))
  }

  function OfferedKeys(status: Status): set<string> {
    set k | k in CaptureKeys(status.offered)
  }

  predicate Collides(t: Table, key: string, route: Selection) {
    key in t.at && t.at[key].Route? && t.at[key] != route
  }

  function AddRoutes(t: Table, keys: seq<string>, route: Selection): Table {
    if keys == [] then t
    else
      var before := AddRoutes(t, keys[..|keys| - 1], route);
      var key := keys[|keys| - 1];
      if before.Has(key) then before else Retain(before, key, route)
  }

  predicate Registers(status: Status) {
    && status.currentTarget && !IsTerminal(status.state)
    && status.lineageId.Some? && IsProcessString(status.lineageId.value)
  }

  /** `retainNativeCaptureRoutes`: the new table, or nothing when a binding is registered on another route. */
  function RetainCaptureRoutes(t: Table, root: string, status: Status, baseRef: Option<string>): Option<Table> {
    if !Registers(status) then Some(t)
    else
      var route := Route(root, status.lineageId.value, baseRef);
      if exists k :: k in OfferedKeys(status) && Collides(t, k, route) then None
      else
        var stale := RoutesOf(t, root, status.lineageId.value) - OfferedKeys(status);
        Some(AddRoutes(t.Remove(stale), CaptureKeys(status.offered), route))
  }

  /** `clearRetainedNativeStatusSelectionsOnTerminal`. */
  function ClearOnTerminal(t: Table, root: string, lineage: Option<string>, state: string): Table {
    if lineage.None? || !IsTerminal(state) then t
    else
      var cleared := if state != "approved" then t.Delete(LifecycleKey(root, lineage.value)) else t;
      cleared.Remove(RoutesOf(cleared, root, lineage.value))
  }

  /** `syncRetainedNativeStatusSelections`; the flag says whether it threw. */
  function Sync(t: Table, root: string, status: Status, baseRef: Option<string>): (Table, bool) {
    var cleared := ClearOnTerminal(t, root, status.lineageId, status.state);
    var r := RetainCaptureRoutes(cleared, root, status, baseRef);
    (r.GetOr(cleared), r.None?)
  }

  // ----- Invariants -----

  /** The table is a proper map within its bound, and each kind of key holds its own kind of record. */
  ghost predicate Inv(t: Table) {
    && t.Valid() && |t.order| <= MAX_RETAINED
    && forall k :: k in t.at ==> (t.at[k].Route? <==> IsCaptureKey(k))
  }

  lemma RetainKeepsInv(t: Table, key: string, selection: Selection)
    requires Inv(t) && (selection.Route? <==> IsCaptureKey(key))
    ensures Inv(Retain(t, key, selection)) && Retain(t, key, selection).Get(key) == Some(selection)
  {
    t.NewestValid(MAX_RETAINED - 1);
    t.Newest(MAX_RETAINED - 1).SetValid(key, selection);
    t.SetValid(key, selection);
  }

  /** Below the bound nothing is evicted; at the bound exactly the oldest entry is. */
  lemma RetainEvictsOnlyWhenFull(t: Table, key: string, selection: Selection)
    requires t.Valid() && |t.order| <= MAX_RETAINED && !t.Has(key)
    ensures |t.order| < MAX_RETAINED ==> Retain(t, key, selection) == t.Set(key, selection)
    ensures |t.order| == MAX_RETAINED ==> Retain(t, key, selection).order == t.order[1..] + [key]
    ensures |t.order| == MAX_RETAINED ==> Retain(t, key, selection).at == (t.at - {t.order[0]})[key := selection]
  {
    t.NewestIsAll(|t.order|);
    if |t.order| < MAX_RETAINED {
      t.NewestIsAll(MAX_RETAINED - 1);
    } else {
      t.DropOldest(MAX_RETAINED);
      assert t.Newest(MAX_RETAINED - 1).order == t.order[1..];
      assert !t.Newest(MAX_RETAINED - 1).Has(key);
    }
  }

  lemma RemoveKeepsInv(t: Table, keys: set<string>)
    requires Inv(t)
    ensures Inv(t.Remove(keys))
  {
    t.RemoveValid(keys);
  }

  lemma {:induction false} AddRoutesKeepsInv(t: Table, keys: seq<string>, route: Selection)
    requires Inv(t) && route.Route? && forall k :: k in keys ==> IsCaptureKey(k)
    ensures Inv(AddRoutes(t, keys, route))
  {
    if keys != [] {
      var front, last := keys[..|keys| - 1], keys[|keys| - 1];
      AddRoutesKeepsInv(t, front, route);
      if !AddRoutes(t, front, route).Has(last) {
        RetainKeepsInv(AddRoutes(t, front, route), last, route);
      }
    }
  }

  datatype Operation =
    | RetainUntracked(root: string, lineage: string, id: nat)
    | SyncStatus(root: string, status: Status, baseRef: Option<string>)
    | ClearUntracked(root: string, lineage: string)

  function Perform(t: Table, op: Operation): Table {
    match op
    case RetainUntracked(root, lineage, id) => Retain(t, LifecycleKey(root, lineage), Untracked(id))
    case SyncStatus(root, status, baseRef) => Sync(t, root, status, baseRef).0
    case ClearUntracked(root, lineage) => t.Delete(LifecycleKey(root, lineage))
  }

  function PerformAll(ops: seq<Operation>): Table {
    if ops == [] then Empty() else Perform(PerformAll(ops[..|ops| - 1]), ops[|ops| - 1])
  }

  lemma SyncKeepsInv(t: Table, root: string, status: Status, baseRef: Option<string>)
    requires Inv(t)
    ensures Inv(Sync(t, root, status, baseRef).0)
  {
    var deleted := t.Delete(LifecycleKey(root, status.lineageId.GetOr("")));
    RemoveKeepsInv(t, {LifecycleKey(root, status.lineageId.GetOr(""))});
    RemoveKeepsInv(t, RoutesOf(t, root, status.lineageId.GetOr("")));
    RemoveKeepsInv(deleted, RoutesOf(deleted, root, status.lineageId.GetOr("")));
    if Registers(status) {
      var lineage := status.lineageId.value;
      RemoveKeepsInv(t, RoutesOf(t, root, lineage) - OfferedKeys(status));
      AddRoutesKeepsInv(t.Remove(RoutesOf(t, root, lineage) - OfferedKeys(status)), CaptureKeys(status.offered), Route(root, lineage, baseRef));
    }
  }

  /** Over every run of a session: never more than 64 entries, and no key ever holds the other kind of record. */
  lemma {:induction false} TableStaysBounded(ops: seq<Operation>)
    requires forall i :: 0 <= i < |ops| ==> IsRoot(ops[i].root)
    ensures Inv(PerformAll(ops))
  {
    if ops != [] {
      var t, op := PerformAll(ops[..|ops| - 1]), ops[|ops| - 1];
      TableStaysBounded(ops[..|ops| - 1]);
      match op
      case RetainUntracked(root, lineage, id) =>
        KeysAreUnambiguous(root, lineage, root, lineage, "", "");
        RetainKeepsInv(t, LifecycleKey(root, lineage), Untracked(id));
      case SyncStatus(root, status, baseRef) => SyncKeepsInv(t, root, status, baseRef);
      case ClearUntracked(root, lineage) => RemoveKeepsInv(t, {LifecycleKey(root, lineage)});
    }
  }

  // ----- What a sync guarantees -----

  /** A status whose binding is registered on a different route throws and changes nothing. */
  lemma CollisionChangesNothing(t: Table, root: string, status: Status, baseRef: Option<string>)
    ensures var (after, threw) := Sync(t, root, status, baseRef);
      && (threw ==> after == t)
      && (threw <==>
            && Registers(status)
            && exists k :: k in OfferedKeys(status) && Collides(t, k, Route(root, status.lineageId.value, baseRef)))
  {
  }

  /** A status of no current target, without a usable lineage, that is not terminal changes nothing. */
  lemma UnusableStatusChangesNothing(t: Table, root: string, status: Status, baseRef: Option<string>)
    requires !IsTerminal(status.state)
    requires !status.currentTarget || status.lineageId.None? || !IsProcessString(status.lineageId.value)
    ensures Sync(t, root, status, baseRef) == (t, false)
  {
  }

  /** A key that is already retained keeps its place, and nothing is evicted for it. */
  lemma KnownKeyKeepsItsPlace(t: Table, key: string, selection: Selection)
    requires t.Has(key)
    ensures Retain(t, key, selection).order == t.order
    ensures forall k :: k in t.at && k != key ==> Retain(t, key, selection).Get(k) == t.Get(k)
    ensures Retain(t, key, selection).Get(key) == Some(selection)
  {
  }

  /** In a terminal state no route of the lineage is left; unless approved, its untracked selection goes too. */
  lemma TerminalClearsRoutes(t: Table, root: string, status: Status, baseRef: Option<string>)
    requires Inv(t) && status.lineageId.Some? && IsTerminal(status.state)
    ensures var (after, threw) := Sync(t, root, status, baseRef); var lineage := status.lineageId.value;
      && !threw && RoutesOf(after, root, lineage) == {}
      && (status.state != "approved" ==> !after.Has(LifecycleKey(root, lineage)))
      && (forall k :: k in after.at ==> k in t.at && after.at[k] == t.at[k])
      && (forall k :: k in t.at && !IsRouteOf(t, k, root, lineage) && k != LifecycleKey(root, lineage) ==> k in after.at)
  {
  }

  lemma {:induction false} AddRoutesEffect(t: Table, keys: seq<string>, route: Selection)
    requires t.Valid()
    ensures forall k :: k in AddRoutes(t, keys, route).at ==>
      || (k in t.at && AddRoutes(t, keys, route).at[k] == t.at[k])
      || (k in keys && AddRoutes(t, keys, route).at[k] == route)
  {
    if keys != [] {
      AddRoutesEffect(t, keys[..|keys| - 1], route);
    }
  }

  /** After a sync the routes of that worktree and lineage are among the offered ones, and on this base. */
  lemma SyncedRoutesAreOffered(t: Table, root: string, status: Status, baseRef: Option<string>)
    requires Inv(t) && Registers(status) && !Sync(t, root, status, baseRef).1
    ensures var after := Sync(t, root, status, baseRef).0; var lineage := status.lineageId.value;
      && RoutesOf(after, root, lineage) <= OfferedKeys(status)
      && forall k :: k in OfferedKeys(status) && k in after.at ==> after.at[k] == Route(root, lineage, baseRef)
  {
    var lineage := status.lineageId.value;
    var route := Route(root, lineage, baseRef);
    var stale := RoutesOf(t, root, lineage) - OfferedKeys(status);
    RemoveKeepsInv(t, stale);
    AddRoutesEffect(t.Remove(stale), CaptureKeys(status.offered), route);
    forall k | k in OfferedKeys(status) && k in t.at ensures t.at[k] == route {
      assert !Collides(t, k, route) && IsCaptureKey(k);
    }
  }

  /** The offered keys the table does not know yet, each once, in order. */
  function Fresh(t: Table, keys: seq<string>): seq<string> {
    if keys == [] then []
    else
      var before := Fresh(t, keys[..|keys| - 1]);
      var key := keys[|keys| - 1];
      if t.Has(key) || key in before then before else before + [key]
  }

  lemma {:induction false} AddRoutesThatFit(t: Table, keys: seq<string>, route: Selection)
    requires t.Valid() && |t.order| + |Fresh(t, keys)| <= MAX_RETAINED
    ensures AddRoutes(t, keys, route).Valid()
    ensures AddRoutes(t, keys, route).order == t.order + Fresh(t, keys)
    ensures forall k :: k in t.at ==> AddRoutes(t, keys, route).Get(k) == t.Get(k)
    ensures forall k :: k in keys ==> AddRoutes(t, keys, route).Has(k)
  {
    if keys != [] {
      var front, last := keys[..|keys| - 1], keys[|keys| - 1];
      AddRoutesThatFit(t, front, route);
      AddOneThatFits(t, AddRoutes(t, front, route), Fresh(t, front), last, route);
      assert forall k :: k in keys ==> k in front || k == last;
    }
  }

  lemma AddOneThatFits(t: Table, before: Table, added: seq<string>, key: string, route: Selection)
    requires t.Valid() && before.Valid() && before.order == t.order + added
    requires |before.order| + (if t.Has(key) || key in added then 0 else 1) <= MAX_RETAINED
    ensures var after := if before.Has(key) then before else Retain(before, key, route);
      && after.Valid() && after.order == t.order + (if t.Has(key) || key in added then added else added + [key])
      && after.Has(key) && forall k :: k in before.at ==> after.Get(k) == before.Get(k)
  {
    assert before.Has(key) <==> key in t.order + added;
    if !before.Has(key) {
      RetainEvictsOnlyWhenFull(before, key, route);
      before.SetValid(key, route);
      assert before.order + [key] == t.order + (added + [key]);
    }
  }

  /** When the new bindings fit, every offered binding is registered and nothing but stale routes is lost. */
  lemma SyncRegistersAllThatFit(t: Table, root: string, status: Status, baseRef: Option<string>)
    requires Inv(t) && Registers(status) && !Sync(t, root, status, baseRef).1
    requires var pruned := t.Remove(RoutesOf(t, root, status.lineageId.value) - OfferedKeys(status));
             |pruned.order| + |Fresh(pruned, CaptureKeys(status.offered))| <= MAX_RETAINED
    ensures var after := Sync(t, root, status, baseRef).0; var lineage := status.lineageId.value;
      && RoutesOf(after, root, lineage) == OfferedKeys(status)
      && forall k :: k in t.at && !IsRouteOf(t, k, root, lineage) ==> after.Get(k) == t.Get(k)
  {
    var lineage := status.lineageId.value;
    var stale := RoutesOf(t, root, lineage) - OfferedKeys(status);
    RemoveKeepsInv(t, stale);
    AddRoutesThatFit(t.Remove(stale), CaptureKeys(status.offered), Route(root, lineage, baseRef));
    SyncedRoutesAreOffered(t, root, status, baseRef);
    forall k | k in t.at && !IsRouteOf(t, k, root, lineage)
      ensures Sync(t, root, status, baseRef).0.Get(k) == t.Get(k)
    {
      assert k in t.Remove(stale).at;
    }
  }

  // ----- When an offered route is lost -----

  /** The keys that are appended: in turn, each one that is not among the last 64 by then. */
  function Pushed(known: seq<string>, keys: seq<string>): seq<string> {
    if keys == [] then []
    else
      var before := Pushed(known, keys[..|keys| - 1]);
      var key := keys[|keys| - 1];
      if key in LastN(known + before, MAX_RETAINED) then before else before + [key]
  }

  /** Registering keeps the last 64 of what was there and what was appended. */
  lemma {:induction false} AddRoutesOrder(t: Table, keys: seq<string>, route: Selection)
    requires t.Valid() && |t.order| <= MAX_RETAINED
    ensures AddRoutes(t, keys, route).Valid()
    ensures AddRoutes(t, keys, route).order == LastN(t.order + Pushed(t.order, keys), MAX_RETAINED)
  {
    if keys == [] {
      assert t.order + [] == t.order;
    } else {
      var front, key := keys[..|keys| - 1], keys[|keys| - 1];
      var before, pushed := AddRoutes(t, front, route), Pushed(t.order, front);
      AddRoutesOrder(t, front, route);
      AddRouteOrder(t.order, pushed, before, key, route);
    }
  }

  lemma AddRouteOrder(known: seq<string>, pushed: seq<string>, before: Table, key: string, route: Selection)
    requires before.Valid() && before.order == LastN(known + pushed, MAX_RETAINED)
    ensures var after := if before.Has(key) then before else Retain(before, key, route);
      && after.Valid()
      && after.order == LastN(known + if key in before.order then pushed else pushed + [key], MAX_RETAINED)
  {
    if !before.Has(key) {
      LastNAppend(known + pushed, key, MAX_RETAINED);
      assert known + (pushed + [key]) == known + pushed + [key];
    }
  }

  /** A key is appended again only after 64 others. */
  ghost predicate SpacedOut(pushed: seq<string>) {
    forall i, j :: 0 <= i < j < |pushed| && j <= i + MAX_RETAINED ==> pushed[i] != pushed[j]
  }

  lemma SpacedOutSnoc(known: seq<string>, pushed: seq<string>, key: string)
    requires SpacedOut(pushed) && key !in LastN(known + pushed, MAX_RETAINED)
    ensures SpacedOut(pushed + [key])
  {
    forall i | 0 <= i < |pushed| && |pushed| <= i + MAX_RETAINED ensures pushed[i] != key {
      LastNHas(known + pushed, MAX_RETAINED, |known| + i);
    }
  }

  lemma {:induction false} PushedMembers(known: seq<string>, keys: seq<string>)
    ensures forall k :: k in Pushed(known, keys) ==> k in keys
    ensures forall k :: k in keys ==> k in known || k in Pushed(known, keys)
    ensures SpacedOut(Pushed(known, keys))
  {
    if keys != [] {
      var front, key := keys[..|keys| - 1], keys[|keys| - 1];
      PushedMembers(known, front);
      assert forall k :: k in keys <==> k in front || k == key;
      if key !in LastN(known + Pushed(known, front), MAX_RETAINED) {
        SpacedOutSnoc(known, Pushed(known, front), key);
      }
    }
  }

  function KeySet(keys: seq<string>): set<string> {
    set k | k in keys
  }

  lemma {:induction false} KeySetSize(keys: seq<string>)
    ensures |KeySet(keys)| <= |keys|
    ensures NoDup(keys) ==> |KeySet(keys)| == |keys|
  {
    if keys != [] {
      var front, key := keys[..|keys| - 1], keys[|keys| - 1];
      KeySetSize(front);
      assert KeySet(keys) == KeySet(front) + {key};
      if NoDup(keys) { assert key !in front; }
    }
  }

  lemma {:induction false} FewerKeys(a: set<string>, b: set<string>)
    requires a <= b
    ensures |a| <= |b|
  {
    if a != {} {
      var k :| k in a;
      FewerKeys(a - {k}, b - {k});
    }
  }

  /** More than 64 appends take more than 64 different keys. */
  lemma ManyPushedManyKeys(known: seq<string>, keys: seq<string>)
    requires |Pushed(known, keys)| > MAX_RETAINED
    ensures |KeySet(keys)| > MAX_RETAINED
  {
    var window := Pushed(known, keys)[..MAX_RETAINED + 1];
    PushedMembers(known, keys);
    KeySetSize(window);
    FewerKeys(KeySet(window), KeySet(keys));
  }

  /**
   At most 64 bindings are offered, and each offered one among the entries that have to make room is appended
   again, because it comes up only after it has been evicted.
   */
  predicate NothingLost(known: seq<string>, keys: seq<string>) {
    var pushed := Pushed(known, keys);
    && |KeySet(keys)| <= MAX_RETAINED
    && forall i :: 0 <= i < |known| && i + MAX_RETAINED < |known| + |pushed| && known[i] in keys ==> known[i] in pushed
  }

  lemma LastNOfBoth(known: seq<string>, pushed: seq<string>, k: string)
    requires |pushed| <= MAX_RETAINED
    ensures k in LastN(known + pushed, MAX_RETAINED) <==>
      k in pushed || exists i :: 0 <= i < |known| && |known| + |pushed| <= i + MAX_RETAINED && known[i] == k
  {
    var all := known + pushed;
    if k in pushed {
      var i :| 0 <= i < |pushed| && pushed[i] == k;
      LastNHas(all, MAX_RETAINED, |known| + i);
    }
    forall i | 0 <= i < |known| && |all| <= i + MAX_RETAINED ensures known[i] in LastN(all, MAX_RETAINED) {
      LastNHas(all, MAX_RETAINED, i);
    }
    if k in LastN(all, MAX_RETAINED) {
      var last := LastN(all, MAX_RETAINED);
      var j :| 0 <= j < |last| && last[j] == k;
      assert last[j] == all[|all| - |last| + j];
    }
  }

  lemma AllRegisteredIff(t: Table, keys: seq<string>, route: Selection)
    requires t.Valid() && |t.order| <= MAX_RETAINED
    ensures (forall k :: k in keys ==> AddRoutes(t, keys, route).Has(k)) <==> NothingLost(t.order, keys)
  {
    var after, pushed := AddRoutes(t, keys, route), Pushed(t.order, keys);
    AddRoutesOrder(t, keys, route);
    PushedMembers(t.order, keys);
    if forall k :: k in keys ==> after.Has(k) {
      KeySetSize(after.order);
      FewerKeys(KeySet(keys), KeySet(after.order));
    }
    if |pushed| > MAX_RETAINED {
      ManyPushedManyKeys(t.order, keys);
    } else {
      forall k ensures after.Has(k) <==>
        k in pushed || exists i :: 0 <= i < |t.order| && |t.order| + |pushed| <= i + MAX_RETAINED && t.order[i] == k
      {
        LastNOfBoth(t.order, pushed, k);
      }
    }
  }

  /** What pruning leaves before the offered routes are registered. */
  function Pruned(t: Table, root: string, status: Status): Table
    requires status.lineageId.Some?
  {
    t.Remove(RoutesOf(t, root, status.lineageId.value) - OfferedKeys(status))
  }

  /** Exactly when a sync ends with all offered routes registered. */
  lemma SyncKeepsAllOfferedIff(t: Table, root: string, status: Status, baseRef: Option<string>)
    requires Inv(t) && Registers(status) && !Sync(t, root, status, baseRef).1
    ensures RoutesOf(Sync(t, root, status, baseRef).0, root, status.lineageId.value) == OfferedKeys(status)
       <==> NothingLost(Pruned(t, root, status).order, CaptureKeys(status.offered))
  {
    var lineage, keys := status.lineageId.value, CaptureKeys(status.offered);
    var after := Sync(t, root, status, baseRef).0;
    RemoveKeepsInv(t, RoutesOf(t, root, lineage) - OfferedKeys(status));
    AllRegisteredIff(Pruned(t, root, status), keys, Route(root, lineage, baseRef));
    SyncedRoutesAreOffered(t, root, status, baseRef);
    assert after == AddRoutes(Pruned(t, root, status), keys, Route(root, lineage, baseRef));
    forall k | k in keys ensures k in RoutesOf(after, root, lineage) <==> after.Has(k) {
      assert k in OfferedKeys(status);
    }
  }

  // ----- A run that loses one -----

  const FIRST := Status(true, Some("l"), "reviewing", ["a"])
  const SECOND := Status(true, Some("l"), "reviewing", ["a", "b"])

  function OtherLineage(n: nat): string {
    seq(n + 1, _ => 'x')
  }

  /** One route, then untracked selections of other lineages, each in the same worktree. */
  function FillingRun(n: nat): seq<Operation> {
    [SyncStatus("/r", FIRST, None)] + seq(n, i requires 0 <= i < n => RetainUntracked("/r", OtherLineage(i), i))
  }

  /** The keys such a run leaves, oldest first. */
  function FilledKeys(n: nat): seq<string> {
    [CaptureKey("a")] + seq(n, i requires 0 <= i < n => LifecycleKey("/r", OtherLineage(i)))
  }

  lemma FilledKeysAreNew(n: nat)
    ensures LifecycleKey("/r", OtherLineage(n)) !in FilledKeys(n)
    ensures FilledKeys(n + 1) == FilledKeys(n) + [LifecycleKey("/r", OtherLineage(n))]
    ensures FillingRun(n + 1) == FillingRun(n) + [RetainUntracked("/r", OtherLineage(n), n)]
  {
    forall i | 0 <= i <= n ensures FilledKeys(n)[i] != LifecycleKey("/r", OtherLineage(n)) {
      if i == 0 {
        KeysAreUnambiguous("/r", OtherLineage(n), "/r", "", "a", "a");
      } else {
        assert |OtherLineage(i - 1)| != |OtherLineage(n)|;
        KeysAreUnambiguous("/r", OtherLineage(n), "/r", OtherLineage(i - 1), "a", "a");
      }
    }
  }

  lemma StartsRegistered()
    ensures Registers(FIRST) && Registers(SECOND) && IsRoot("/r")
    ensures PerformAll(FillingRun(0)) == OrderedMap([CaptureKey("a")], map[CaptureKey("a") := Route("/r", "l", None)])
  {
    assert Trim("l") == "l";
    var empty: Table := Empty();
    var keys := CaptureKeys(FIRST.offered);
    assert keys == [CaptureKey("a")] && keys[..0] == [];
    assert FillingRun(0) == [SyncStatus("/r", FIRST, None)] && FillingRun(0)[..0] == [];
    assert RoutesOf(empty, "/r", "l") == {};
    assert empty.Remove({}) == empty;
    assert Retain(empty, keys[0], Route("/r", "l", None)).at == map[CaptureKey("a") := Route("/r", "l", None)];
  }

  lemma PerformOneMore(ops: seq<Operation>, op: Operation)
    ensures PerformAll(ops + [op]) == Perform(PerformAll(ops), op)
  {
    assert (ops + [op])[..|ops|] == ops;
  }

  lemma {:induction false} FilledTable(n: nat)
    requires n < MAX_RETAINED
    ensures var t := PerformAll(FillingRun(n));
      && t.Valid() && t.order == FilledKeys(n)
      && t.Has(CaptureKey("a")) && t.at[CaptureKey("a")] == Route("/r", "l", None)
  {
    if n == 0 {
      StartsRegistered();
      assert FilledKeys(0) == [CaptureKey("a")];
    } else {
      var t, key := PerformAll(FillingRun(n - 1)), LifecycleKey("/r", OtherLineage(n - 1));
      FilledTable(n - 1);
      FilledKeysAreNew(n - 1);
      PerformOneMore(FillingRun(n - 1), RetainUntracked("/r", OtherLineage(n - 1), n - 1));
      RetainEvictsOnlyWhenFull(t, key, Untracked(n - 1));
      t.SetValid(key, Untracked(n - 1));
      assert t.order[0] == CaptureKey("a");
    }
  }

  /** Of the filled keys only the first is a capture key. */
  lemma OneCaptureKey(n: nat)
    ensures forall k :: k in FilledKeys(n) && IsCaptureKey(k) ==> k == CaptureKey("a")
    ensures CaptureKey("b") !in FilledKeys(n)
  {
    forall i | 1 <= i <= n ensures !IsCaptureKey(FilledKeys(n)[i]) {
      KeysAreUnambiguous("/r", OtherLineage(i - 1), "/r", "", "a", "b");
    }
    KeysAreUnambiguous("/r", "", "/r", "", "a", "b");
  }

  lemma FullRun(n: nat)
    requires n == MAX_RETAINED - 1
    ensures var t := PerformAll(FillingRun(n));
      && Inv(t) && |t.order| == MAX_RETAINED && t.order[0] == CaptureKey("a")
      && t.Has(CaptureKey("a")) && t.at[CaptureKey("a")] == Route("/r", "l", None)
      && RoutesOf(t, "/r", "l") == {CaptureKey("a")} && !t.Has(CaptureKey("b"))
  {
    FilledTable(n);
    TableStaysBounded(FillingRun(n));
    OneCaptureKey(n);
  }

  lemma FullRunForgets(n: nat)
    requires n == MAX_RETAINED - 1
    ensures RoutesOf(PerformAll(FillingRun(n) + [SyncStatus("/r", SECOND, None)]), "/r", "l") == {CaptureKey("b")}
  {
    var keys := CaptureKeys(SECOND.offered);
    FullRun(n);
    assert keys[0] == CaptureKey("a") && keys[1] == CaptureKey("b");
    FullTableForgetsAnOfferedRoute(PerformAll(FillingRun(n)), "/r", SECOND, None);
  }

  /** A concrete run of 65 operations after which an offered binding is not registered. */
  lemma RunForgetsAnOfferedRoute()
    ensures RoutesOf(PerformAll(FillingRun(63) + [SyncStatus("/r", SECOND, None)]), "/r", "l") == {CaptureKey("b")}
    ensures OfferedKeys(SECOND) == {CaptureKey("a"), CaptureKey("b")}
  {
    var n := MAX_RETAINED - 1;
    FullRunForgets(n);
    var keys := CaptureKeys(SECOND.offered);
    assert keys == [CaptureKey("a"), CaptureKey("b")];
  }

  /**
   The bound is sharp: on a full table whose oldest entry is the first offered binding, one new binding pushes
   that offered one out.
   */
  lemma FullTableForgetsAnOfferedRoute(t: Table, root: string, status: Status, baseRef: Option<string>)
    requires Inv(t) && Registers(status) && |t.order| == MAX_RETAINED && |status.offered| == 2
    requires t.order[0] == CaptureKeys(status.offered)[0]
    requires t.at[t.order[0]] == Route(root, status.lineageId.value, baseRef)
    requires RoutesOf(t, root, status.lineageId.value) == {t.order[0]} && !t.Has(CaptureKeys(status.offered)[1])
    ensures var (after, threw) := Sync(t, root, status, baseRef);
      !threw && RoutesOf(after, root, status.lineageId.value) == {CaptureKeys(status.offered)[1]}
  {
    var lineage, keys := status.lineageId.value, CaptureKeys(status.offered);
    var route := Route(root, lineage, baseRef);
    assert keys[0] in OfferedKeys(status);
    assert RoutesOf(t, root, lineage) - OfferedKeys(status) == {};
    t.RemoveNothing();
    AddTwo(t, keys, route);
    RetainEvictsOnlyWhenFull(t, keys[1], route);
    var after := Retain(t, keys[1], route);
    forall k ensures k in RoutesOf(after, root, lineage) <==> k == keys[1] {
      assert k in RoutesOf(t, root, lineage) <==> k == t.order[0];
    }
  }

  lemma AddTwo(t: Table, keys: seq<string>, route: Selection)
    requires |keys| == 2 && t.Has(keys[0]) && !t.Has(keys[1])
    ensures AddRoutes(t, keys, route) == Retain(t, keys[1], route)
  {
    assert keys[..1][..0] == [];
    assert AddRoutes(t, keys[..1], route) == t;
  }

  function Among(doomed: set<string>, keys: seq<string>): set<string> {
    set k | k in doomed && k in keys
  }

  lemma AmongStep(doomed: set<string>, keys: seq<string>, i: nat)
    requires i < |keys| && NoDup(keys)
    ensures keys[i] !in Among(doomed, keys[..i])
    ensures Among(doomed, keys[..i + 1])
         == if keys[i] in doomed then Among(doomed, keys[..i]) + {keys[i]} else Among(doomed, keys[..i])
  {
    assert keys[..i + 1] == keys[..i] + [keys[i]];
  }

  // ----- The session's map -----

  /** The `Map` a session keeps, with its loops that evict and delete while iterating. */
  class RetainedSelections {
    var order: seq<string>
    var entries: map<string, Selection>

    function View(): Table
      reads this
    {
      OrderedMap(order, entries)
    }

    constructor ()
      ensures View() == Empty()
    {
      order, entries := [], map[];
    }

    method DeleteKey(key: string)
      modifies this
      ensures View() == old(View()).Delete(key)
    {
      order := Without(order, {key});
      entries := entries - {key};
    }

    /** The eviction loop: the oldest entries go until one more fits. */
    method MakeRoom()
      requires View().Valid()
      modifies this
      ensures View() == old(View()).Newest(MAX_RETAINED - 1)
    {
      ghost var before := View();
      before.NewestIsAll(|order|);
      while |order| >= MAX_RETAINED
        invariant |order| <= |before.order| && View() == before.Newest(|order|)
        invariant |order| == |before.order| || |order| >= MAX_RETAINED - 1
      {
        before.EvictOne(|order|);
        DeleteKey(order[0]);
      }
      if |before.order| < MAX_RETAINED {
        before.NewestIsAll(MAX_RETAINED - 1);
      } else {
        assert |order| == MAX_RETAINED - 1;
      }
    }

    /** `retainNativeStatusSelection`. */
    method RetainSelection(key: string, selection: Selection)
      requires View().Valid()
      modifies this
      ensures View() == Retain(old(View()), key, selection)
    {
      if key !in entries {
        MakeRoom();
        assert key !in entries;
        order := order + [key];
      }
      entries := entries[key := selection];
    }

    /** The deletion loops: every route of the worktree and lineage that is not kept. */
    method DeleteRoutes(root: string, lineage: string, kept: set<string>)
      requires View().Valid()
      modifies this
      ensures View() == old(View()).Remove(RoutesOf(old(View()), root, lineage) - kept)
    {
      ghost var before := View();
      ghost var doomed := RoutesOf(before, root, lineage) - kept;
      var keys := order;
      before.RemoveNothing();
      assert Among(doomed, keys[..0]) == {};
      for i := 0 to |keys|
        invariant View() == before.Remove(Among(doomed, keys[..i]))
      {
        AmongStep(doomed, keys, i);
        if IsRouteOf(View(), keys[i], root, lineage) && keys[i] !in kept {
          before.RemoveMore(Among(doomed, keys[..i]), keys[i]);
          DeleteKey(keys[i]);
        }
      }
      assert Among(doomed, keys[..|keys|]) == doomed;
    }

    /** `retainNativeCaptureRoutes`, once the status registers routes at all. */
    method RegisterOffered(root: string, status: Status, baseRef: Option<string>) returns (threw: bool)
      requires Inv(View()) && Registers(status)
      modifies this
      ensures threw <==> RetainCaptureRoutes(old(View()), root, status, baseRef).None?
      ensures View() == RetainCaptureRoutes(old(View()), root, status, baseRef).GetOr(old(View()))
    {
      ghost var before := View();
      var keys := CaptureKeys(status.offered);
      var route := Route(root, status.lineageId.value, baseRef);
      for i := 0 to |keys|
        invariant View() == before
        invariant forall j :: 0 <= j < i ==> !Collides(before, keys[j], route)
      {
        if Collides(View(), keys[i], route) {
          assert keys[i] in OfferedKeys(status);
          return true;
        }
      }
      var current := set k | k in keys;
      RemoveKeepsInv(before, RoutesOf(before, root, status.lineageId.value) - current);
      DeleteRoutes(root, status.lineageId.value, current);
      AddOffered(keys, route);
      threw := false;
    }

    method AddOffered(keys: seq<string>, route: Selection)
      requires View().Valid()
      modifies this
      ensures View() == AddRoutes(old(View()), keys, route)
    {
      ghost var pruned := View();
      for i := 0 to |keys|
        invariant View() == AddRoutes(pruned, keys[..i], route) && View().Valid()
      {
        assert keys[..i + 1][..i] == keys[..i];
        View().NewestValid(MAX_RETAINED - 1);
        View().Newest(MAX_RETAINED - 1).SetValid(keys[i], route);
        if keys[i] !in entries {
          RetainSelection(keys[i], route);
        }
      }
      assert keys[..|keys|] == keys;
    }

    /** `syncRetainedNativeStatusSelections`. */
    method SyncStatus(root: string, status: Status, baseRef: Option<string>) returns (threw: bool)
      requires Inv(View())
      modifies this
      ensures (View(), threw) == Sync(old(View()), root, status, baseRef)
      ensures Inv(View())
    {
      SyncKeepsInv(View(), root, status, baseRef);
      threw := false;
      if status.lineageId.Some? && IsTerminal(status.state) {
        ClearTerminal(root, status.lineageId.value, status.state);
      }
      if Registers(status) {
        threw := RegisterOffered(root, status, baseRef);
      }
    }

    method ClearTerminal(root: string, lineage: string, state: string)
      requires Inv(View()) && IsTerminal(state)
      modifies this
      ensures View() == ClearOnTerminal(old(View()), root, Some(lineage), state)
    {
      if state != "approved" {
        RemoveKeepsInv(View(), {LifecycleKey(root, lineage)});
        DeleteKey(LifecycleKey(root, lineage));
      }
      assert RoutesOf(View(), root, lineage) - {} == RoutesOf(View(), root, lineage);
      DeleteRoutes(root, lineage, {});
    }
  }
}
