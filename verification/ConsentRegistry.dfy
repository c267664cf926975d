/**
 Pending review consents: a registry shared by all sessions, with an index by binding id and a bounded
 memory of retired bindings, and the callers that mint, prune, expire and answer them
 (extensions/gentle-ai.ts:5865-6021, 8132-8205, 8419-8458).
 */
module ConsentRegistry {
  import opened Common
  import opened OrderedMaps

  type Id = string
  type Session = nat
  type Time = int

  const STALE_LIMIT: nat := 32
  const TTL: Time := 600_000

  /** A pending consent. Ids are globally unique, so equal values are the same object. */
  datatype Pending = Pending(id: Id, viewToken: nat, repositoryCwd: string, digest: nat, expiresAt: Time)

  datatype Disposition = Expired | Consumed

  type Partition = OrderedMap<Id, Pending>

  datatype Registry = Registry(
    sessions: map<Session, Partition>,
    byBinding: map<Id, Session>,
    stale: OrderedMap<Id, Disposition>)
  {
    function PartitionOf(s: Session): Partition {
      if s in sessions then sessions[s] else Empty()
    }

    function WithPartition(s: Session, p: Partition): Registry {
      this.(sessions := if p.order == [] then sessions - {s} else sessions[s := p])
    }
  }

  const EMPTY := Registry(map[], map[], OrderedMap([], map[]))

  // ----- The registry's operations -----

  function Add(r: Registry, s: Session, p: Pending): Registry {
    r.(sessions := r.sessions[s := r.PartitionOf(s).Set(p.id, p)], byBinding := r.byBinding[p.id := s])
  }

  /** The owner and value of a live binding, whoever asks. */
  function Resolve(r: Registry, id: Id): Option<(Session, Pending)> {
    if id in r.byBinding && r.PartitionOf(r.byBinding[id]).Has(id)
    then Some((r.byBinding[id], r.PartitionOf(r.byBinding[id]).at[id])) else None
  }

  predicate Holds(r: Registry, s: Session, p: Pending) {
    r.PartitionOf(s).Get(p.id) == Some(p)
  }

  /** The private `remove`, when it succeeds. */
  function Removed(r: Registry, s: Session, p: Pending): Registry {
    var emptied := r.WithPartition(s, r.PartitionOf(s).Delete(p.id));
    if p.id in r.byBinding && r.byBinding[p.id] == s then emptied.(byBinding := r.byBinding - {p.id}) else emptied
  }

  function Discard(r: Registry, s: Session, p: Pending): Registry {
    if Holds(r, s, p) then Removed(r, s, p) else r
  }

  function Remember(stale: OrderedMap<Id, Disposition>, id: Id, d: Disposition): OrderedMap<Id, Disposition> {
    stale.Delete(id).Set(id, d).Newest(STALE_LIMIT)
  }

  /** `consume` and `expire`: remove and remember; false when the binding is not there. */
  function Retire(r: Registry, s: Session, p: Pending, d: Disposition): (Registry, bool) {
    if Holds(r, s, p) then (Removed(r, s, p).(stale := Remember(r.stale, p.id, d)), true) else (r, false)
  }

  function Take(r: Registry, s: Session): Registry {
    var p := r.PartitionOf(s);
    r.(sessions := r.sessions - {s},
    byBinding := r.byBinding - (set id | id in p.at && id in r.byBinding && r.byBinding[id] == s))
  }

  ghost predicate Agree(r: Registry, s: Session, id: Id) {
    && (r.PartitionOf(s).Has(id) <==> (id in r.byBinding && r.byBinding[id] == s))
    && (r.PartitionOf(s).Has(id) ==> r.PartitionOf(s).at[id].id == id)
  }

  /** Two indexes that say the same: a session holds a binding exactly when the index names that session. */
  ghost predicate Mutual(r: Registry) {
    && (forall s :: s in r.sessions ==> r.sessions[s].Valid() && r.sessions[s].order != [])
    && (forall s, id :: Agree(r, s, id))
  }

  lemma PartitionAfterAdd(r: Registry, s: Session, p: Pending, t: Session)
    requires Mutual(r)
    ensures Add(r, s, p).PartitionOf(t) == if t == s then r.PartitionOf(s).Set(p.id, p) else r.PartitionOf(t)
    ensures r.PartitionOf(s).Set(p.id, p).Valid() && r.PartitionOf(s).Set(p.id, p).order != []
  {
    r.PartitionOf(s).SetValid(p.id, p);
  }

  /** `add` keeps the indexes in step exactly when no other session holds the id. */
  lemma AddKeepsMutual(r: Registry, s: Session, p: Pending)
    requires Mutual(r)
    ensures Mutual(Add(r, s, p)) <==> !(p.id in r.byBinding && r.byBinding[p.id] != s)
  {
    var r' := Add(r, s, p);
    PartitionAfterAdd(r, s, p, s);
    if p.id in r.byBinding && r.byBinding[p.id] != s {
      var owner := r.byBinding[p.id];
      PartitionAfterAdd(r, s, p, owner);
      assert Agree(r, owner, p.id) && !Agree(r', owner, p.id);
    } else {
      forall t, id ensures Agree(r', t, id) {
        assert Agree(r, t, id);
        PartitionAfterAdd(r, s, p, t);
      }
    }
  }

  /** Adding one binding under two sessions leaves an index that names only the second. */
  lemma SharedIdBreaksIndexes(p: Pending)
    ensures Mutual(Add(EMPTY, 0, p)) && !Mutual(Add(Add(EMPTY, 0, p), 1, p))
  {
    AddKeepsMutual(EMPTY, 0, p);
    AddKeepsMutual(Add(EMPTY, 0, p), 1, p);
  }

  lemma PartitionAfterRemove(r: Registry, s: Session, p: Pending, t: Session)
    requires Mutual(r) && Holds(r, s, p)
    ensures Removed(r, s, p).PartitionOf(t).at == if t == s then r.PartitionOf(s).at - {p.id} else r.PartitionOf(t).at
    ensures t in Removed(r, s, p).sessions ==>
      Removed(r, s, p).sessions[t].Valid() && Removed(r, s, p).sessions[t].order != []
  {
    r.PartitionOf(s).RemoveValid({p.id});
    assert r.PartitionOf(s).Delete(p.id).at == r.PartitionOf(s).at - {p.id};
  }

  lemma RemovedKeepsMutual(r: Registry, s: Session, p: Pending)
    requires Mutual(r) && Holds(r, s, p)
    ensures Mutual(Removed(r, s, p)) && Resolve(Removed(r, s, p), p.id).None?
    ensures forall id :: id != p.id ==> Resolve(Removed(r, s, p), id) == Resolve(r, id)
  {
    var r' := Removed(r, s, p);
    assert Agree(r, s, p.id);
    forall t, id ensures Agree(r', t, id) {
      assert Agree(r, t, id);
      PartitionAfterRemove(r, s, p, t);
    }
    forall t | t in r'.sessions ensures r'.sessions[t].Valid() && r'.sessions[t].order != [] {
      PartitionAfterRemove(r, s, p, t);
    }
    forall id | id != p.id ensures Resolve(r', id) == Resolve(r, id) {
      if id in r.byBinding {
        PartitionAfterRemove(r, s, p, r.byBinding[id]);
      }
    }
  }

  /** One shot: retiring succeeds exactly on a live binding, and afterwards nobody can resolve it. */
  lemma RetireKeepsMutual(r: Registry, s: Session, p: Pending, d: Disposition)
    requires Mutual(r)
    ensures Mutual(Retire(r, s, p, d).0)
    ensures Retire(r, s, p, d).1 <==> Resolve(r, p.id) == Some((s, p))
    ensures Retire(r, s, p, d).1 ==> Resolve(Retire(r, s, p, d).0, p.id).None?
    ensures forall id :: id != p.id ==> Resolve(Retire(r, s, p, d).0, id) == Resolve(r, id)
  {
    assert Agree(r, s, p.id);
    if Holds(r, s, p) {
      RemovedKeepsMutual(r, s, p);
      SameLive(Removed(r, s, p), Retire(r, s, p, d).0);
    }
  }

  /** The memory of retired bindings plays no part in who is live. */
  lemma SameLive(r: Registry, r': Registry)
    requires r'.sessions == r.sessions && r'.byBinding == r.byBinding
    ensures Mutual(r) ==> Mutual(r')
    ensures forall id :: Resolve(r', id) == Resolve(r, id)
  {
    if Mutual(r) {
      forall t, id ensures Agree(r', t, id) {
        assert Agree(r, t, id);
      }
    }
  }

  lemma TakeKeepsMutual(r: Registry, s: Session)
    requires Mutual(r)
    ensures Mutual(Take(r, s)) && s !in Take(r, s).sessions
    ensures forall id :: id in r.byBinding && r.byBinding[id] == s ==> Resolve(Take(r, s), id).None?
    ensures forall id :: !(id in r.byBinding && r.byBinding[id] == s) ==> Resolve(Take(r, s), id) == Resolve(r, id)
  {
    var r' := Take(r, s);
    forall t, id ensures Agree(r', t, id) {
      assert Agree(r, t, id);
    }
  }

  // ----- The callers -----

  datatype Retirement = Retirement(id: Id, disposition: Disposition)

  /** A consumed binding whose answer is on its way to the provider. */
  datatype Answer = Answer(owner: Session, pending: Pending, consumedAt: Time, cwd: string)

  /** One call of the provider's answer operation. */
  datatype Call = Call(answer: Answer, at: Time)

  /** The registry with the clock, everything ever retired, and the answers under way and delivered. */
  datatype World = World(
    registry: Registry,
    now: Time,
    minted: set<Id>,
    retired: seq<Retirement>,
    waiting: seq<Answer>,
    calls: seq<Call>)

  datatype Event =
    | Tick(elapsed: nat)
    | ConsentRequired(session: Session, repositoryCwd: string, viewToken: nat, digest: nat, freshId: Id)
    | Prune(session: Session)
    | TimerFires(session: Session, pending: Pending)
    | AnswerConsent(id: Id, cwd: string, intact: bool, verified: bool, available: bool)
    | GateResolves(index: nat, open: bool)
    | Shutdown(session: Session)

  const INITIAL := World(EMPTY, 0, {}, [], [], [])

  function RetireIn(w: World, s: Session, p: Pending, d: Disposition): World {
    var (r, ok) := Retire(w.registry, s, p, d);
    w.(registry := r, retired := if ok then w.retired + [Retirement(p.id, d)] else w.retired)
  }

  /** `pruneExpiredReviewConsents` over a snapshot of the session's bindings. */
  function PruneIn(w: World, s: Session, snapshot: seq<Pending>): World {
    if snapshot == [] then w
    else
      var before := PruneIn(w, s, snapshot[..|snapshot| - 1]);
      var p := snapshot[|snapshot| - 1];
      if p.expiresAt <= w.now then RetireIn(before, s, p, Expired) else before
  }

  function DiscardToken(r: Registry, s: Session, snapshot: seq<Pending>, token: nat): Registry {
    if snapshot == [] then r
    else
      var before := DiscardToken(r, s, snapshot[..|snapshot| - 1], token);
      var p := snapshot[|snapshot| - 1];
      if p.viewToken == token then Discard(before, s, p) else before
  }

  function Values(p: Partition): (r: seq<Pending>)
    requires forall k :: k in p.order ==> k in p.at
    ensures |r| == |p.order| && forall i :: 0 <= i < |r| ==> r[i] == p.at[p.order[i]]
  {
    seq(|p.order|, i requires 0 <= i < |p.order| => p.at[p.order[i]])
  }

  predicate Reusable(w: World, p: Pending, e: Event)
    requires e.ConsentRequired?
  {
    && p.repositoryCwd == e.repositoryCwd && p.viewToken == e.viewToken && p.digest == e.digest
    && p.expiresAt > w.now
  }

  /** The session's bindings of a view are discarded. */
  function Cleared(r: Registry, s: Session, token: nat): Registry
    requires forall k :: k in r.PartitionOf(s).order ==> k in r.PartitionOf(s).at
  {
    DiscardToken(r, s, Values(r.PartitionOf(s)), token)
  }

  function Minted(w: World, s: Session, p: Pending, cleared: Registry): World {
    w.(registry := Add(cleared, s, p), minted := w.minted + {p.id})
  }

  predicate NeedsNew(w: World, part: Partition, e: Event)
    requires e.ConsentRequired?
  {
    && !(exists k :: k in part.at && Reusable(w, part.at[k], e))
    && e.freshId !in w.minted
    && forall k :: k in part.order ==> k in part.at
  }

  /** A start that needs consent: reuse the same live binding, or replace those of the view by a new one. */
  function ConsentStep(w: World, e: Event): World
    requires e.ConsentRequired?
  {
    var part := w.registry.PartitionOf(e.session);
    if !NeedsNew(w, part, e) then w
    else
      var p := Pending(e.freshId, e.viewToken, e.repositoryCwd, e.digest, w.now + TTL);
      Minted(w, e.session, p, Cleared(w.registry, e.session, e.viewToken))
  }

  /** The answer path up to its first await; the binding is consumed before it. */
  function AnswerStep(w: World, e: Event): World
    requires e.AnswerConsent?
  {
    var resolved := Resolve(w.registry, e.id);
    if resolved.None? then w
    else
      var (owner, p) := resolved.value;
      if p.expiresAt <= w.now then RetireIn(w, owner, p, Expired)
      else if e.cwd != p.repositoryCwd || !e.intact || !e.verified || !e.available then w
      else RetireIn(w, owner, p, Consumed).(waiting := w.waiting + [Answer(owner, p, w.now, e.cwd)])
  }

  /** After the mode gate: the one call of the provider, or a cleanup of the binding. */
  function GateStep(w: World, i: nat, open: bool): World
    requires i < |w.waiting|
  {
    var a := w.waiting[i];
    var rest := w.waiting[..i] + w.waiting[i + 1..];
    if open then w.(waiting := rest, calls := w.calls + [Call(a, w.now)])
    else w.(waiting := rest, registry := Discard(w.registry, a.owner, a.pending))
  }

  function Step(w: World, e: Event): World {
    match e
    case Tick(elapsed) => w.(now := w.now + elapsed)
    case ConsentRequired(_, _, _, _, _) => ConsentStep(w, e)
    case Prune(s) =>
      var part := w.registry.PartitionOf(s);
      if forall k :: k in part.order ==> k in part.at then PruneIn(w, s, Values(part)) else w
    case TimerFires(s, p) => RetireIn(w, s, p, Expired)
    case AnswerConsent(_, _, _, _, _) => AnswerStep(w, e)
    case GateResolves(i, open) => if i < |w.waiting| then GateStep(w, i, open) else w
    case Shutdown(s) => w.(registry := Take(w.registry, s))
  }

  function Run(events: seq<Event>): World {
    if events == [] then INITIAL else Step(Run(events[..|events| - 1]), events[|events| - 1])
  }

  // ----- The bounded memory -----

  function Ids(log: seq<Retirement>): (ids: seq<Id>)
    ensures |ids| == |log| && forall i :: 0 <= i < |ids| ==> ids[i] == log[i].id
  {
    seq(|log|, i requires 0 <= i < |log| => log[i].id)
  }

  /** The unbounded history: every retired binding with its disposition, in order. */
  function History(log: seq<Retirement>): OrderedMap<Id, Disposition> {
    if log == [] then Empty() else History(log[..|log| - 1]).Set(log[|log| - 1].id, log[|log| - 1].disposition)
  }

  lemma {:induction false} HistoryOrder(log: seq<Retirement>)
    requires NoDup(Ids(log))
    ensures History(log).order == Ids(log) && History(log).Valid()
  {
    if log != [] {
      var front, last := log[..|log| - 1], log[|log| - 1];
      assert log == front + [last];
      assert Ids(front) == Ids(log)[..|log| - 1];
      HistoryOrder(front);
      assert last.id !in Ids(front) by {
        assert Ids(log)[|log| - 1] == last.id;
      }
      History(front).SetValid(last.id, last.disposition);
    }
  }

  lemma {:induction false} HistoryHas(log: seq<Retirement>, i: nat)
    requires NoDup(Ids(log)) && i < |log|
    ensures History(log).Get(log[i].id) == Some(log[i].disposition)
  {
    var front, last := log[..|log| - 1], log[|log| - 1];
    assert log == front + [last];
    if i < |front| {
      assert Ids(front) == Ids(log)[..|log| - 1];
      HistoryHas(front, i);
      assert Ids(log)[i] != Ids(log)[|front|];
    }
  }

  /** Remembering a binding that was never retired keeps the memory equal to the end of the history. */
  lemma RememberRefinesHistory(history: OrderedMap<Id, Disposition>, id: Id, d: Disposition)
    requires history.Valid() && !history.Has(id)
    ensures Remember(history.Newest(STALE_LIMIT), id, d) == history.Set(id, d).Newest(STALE_LIMIT)
  {
    var memory := history.Newest(STALE_LIMIT);
    WithoutNothing(memory.order, {id});
    assert memory.at - {id} == memory.at;
    history.NewestSet(STALE_LIMIT, id, d);
  }

  // ----- The invariant of every run -----

  function WaitingIds(w: World): (ids: seq<Id>)
    ensures |ids| == |w.waiting| && forall i :: 0 <= i < |ids| ==> ids[i] == w.waiting[i].pending.id
  {
    seq(|w.waiting|, i requires 0 <= i < |w.waiting| => w.waiting[i].pending.id)
  }

  function CallIds(w: World): (ids: seq<Id>)
    ensures |ids| == |w.calls| && forall i :: 0 <= i < |ids| ==> ids[i] == w.calls[i].answer.pending.id
  {
    seq(|w.calls|, i requires 0 <= i < |w.calls| => w.calls[i].answer.pending.id)
  }

  function AnswerIds(w: World): seq<Id> {
    WaitingIds(w) + CallIds(w)
  }

  ghost predicate AnswerOk(w: World, a: Answer) {
    && a.consumedAt < a.pending.expiresAt && a.consumedAt <= w.now && a.cwd == a.pending.repositoryCwd
    && Retirement(a.pending.id, Consumed) in w.retired
  }

  /** Within one session no two live bindings belong to the same candidate view. */
  ghost predicate OneBindingPerView(r: Registry) {
    forall s, k, k' :: r.PartitionOf(s).Has(k) && r.PartitionOf(s).Has(k') && k != k' ==>
      r.PartitionOf(s).at[k].viewToken != r.PartitionOf(s).at[k'].viewToken
  }

  ghost predicate Gone(log: seq<Retirement>, minted: set<Id>, live: set<Id>) {
    forall i :: 0 <= i < |log| ==> log[i].id in minted && log[i].id !in live
  }

  ghost predicate RetiredOk(w: World) {
    && NoDup(Ids(w.retired))
    && Gone(w.retired, w.minted, w.registry.byBinding.Keys)
    && w.registry.stale == History(w.retired).Newest(STALE_LIMIT)
  }

  /** The part of the invariant that does not speak of answers. */
  ghost predicate RegistryInv(w: World) {
    Mutual(w.registry) && w.registry.byBinding.Keys <= w.minted && RetiredOk(w) && OneBindingPerView(w.registry)
  }

  ghost predicate AnswersInv(w: World) {
    && NoDup(AnswerIds(w))
    && (forall i :: 0 <= i < |w.waiting| ==> AnswerOk(w, w.waiting[i]))
    && (forall i :: 0 <= i < |w.calls| ==> AnswerOk(w, w.calls[i].answer) && w.calls[i].answer.consumedAt <= w.calls[i].at)
  }

  ghost predicate Inv(w: World) {
    RegistryInv(w) && AnswersInv(w)
  }

  /** `r'` only lost bindings: whatever a session still holds, it held before. */
  ghost predicate Shrinks(r: Registry, r': Registry) {
    && r'.byBinding.Keys <= r.byBinding.Keys
    && forall s, k :: r'.PartitionOf(s).Has(k) ==> r.PartitionOf(s).Get(k) == r'.PartitionOf(s).Get(k)
  }

  lemma RemovedShrinks(r: Registry, s: Session, p: Pending)
    requires Mutual(r) && Holds(r, s, p)
    ensures Shrinks(r, Removed(r, s, p)) && p.id !in Removed(r, s, p).byBinding
  {
    assert Agree(r, s, p.id);
    forall t, k | Removed(r, s, p).PartitionOf(t).Has(k)
      ensures r.PartitionOf(t).Get(k) == Removed(r, s, p).PartitionOf(t).Get(k)
    {
      PartitionAfterRemove(r, s, p, t);
    }
  }

  lemma ShrinkingKeepsViews(r: Registry, r': Registry)
    requires Shrinks(r, r') && OneBindingPerView(r)
    ensures OneBindingPerView(r')
  {
    forall s, k, k' | r'.PartitionOf(s).Has(k) && r'.PartitionOf(s).Has(k') && k != k'
      ensures r'.PartitionOf(s).at[k].viewToken != r'.PartitionOf(s).at[k'].viewToken
    {
      assert r.PartitionOf(s).Get(k) == r'.PartitionOf(s).Get(k);
      assert r.PartitionOf(s).Get(k') == r'.PartitionOf(s).Get(k');
    }
  }

  lemma LogGrows(log: seq<Retirement>, x: Retirement)
    requires NoDup(Ids(log)) && x.id !in Ids(log)
    ensures NoDup(Ids(log + [x]))
    ensures History(log + [x]).Newest(STALE_LIMIT) == Remember(History(log).Newest(STALE_LIMIT), x.id, x.disposition)
  {
    assert Ids(log + [x]) == Ids(log) + [x.id];
    assert (log + [x])[..|log|] == log;
    HistoryOrder(log);
    RememberRefinesHistory(History(log), x.id, x.disposition);
  }

  lemma RetireShrinks(r: Registry, s: Session, p: Pending, d: Disposition)
    requires Mutual(r) && Holds(r, s, p)
    ensures Shrinks(r, Retire(r, s, p, d).0) && p.id in r.byBinding && p.id !in Retire(r, s, p, d).0.byBinding
  {
    var r' := Retire(r, s, p, d).0;
    assert Agree(r, s, p.id);
    RemovedShrinks(r, s, p);
    assert forall t :: r'.PartitionOf(t) == Removed(r, s, p).PartitionOf(t);
  }

  lemma RetireKeepsLog(w: World, s: Session, p: Pending, d: Disposition)
    requires Mutual(w.registry) && w.registry.byBinding.Keys <= w.minted && RetiredOk(w) && Holds(w.registry, s, p)
    ensures RetiredOk(RetireIn(w, s, p, d))
  {
    var w' := RetireIn(w, s, p, d);
    RetireShrinks(w.registry, s, p, d);
    LogGrows(w.retired, Retirement(p.id, d));
  }

  /** Retiring keeps every part of the invariant that does not speak of answers. */
  lemma RetireKeepsRegistry(w: World, s: Session, p: Pending, d: Disposition)
    requires RegistryInv(w)
    ensures var w' := RetireIn(w, s, p, d);
      && RegistryInv(w')
      && Shrinks(w.registry, w'.registry) && w.retired <= w'.retired
  {
    if Holds(w.registry, s, p) {
      RetireKeepsMutual(w.registry, s, p, d);
      RetireShrinks(w.registry, s, p, d);
      ShrinkingKeepsViews(w.registry, Retire(w.registry, s, p, d).0);
      RetireKeepsLog(w, s, p, d);
    }
  }

  lemma RetireKeepsInv(w: World, s: Session, p: Pending)
    requires Inv(w)
    ensures Inv(RetireIn(w, s, p, Expired))
  {
    RetireKeepsRegistry(w, s, p, Expired);
    var w' := RetireIn(w, s, p, Expired);
    assert AnswerIds(w') == AnswerIds(w);
    forall a | AnswerOk(w, a) ensures AnswerOk(w', a) {
    }
  }

  lemma {:induction false} PruneKeepsInv(w: World, s: Session, snapshot: seq<Pending>)
    requires Inv(w)
    ensures Inv(PruneIn(w, s, snapshot))
  {
    if snapshot != [] {
      PruneKeepsInv(w, s, snapshot[..|snapshot| - 1]);
      RetireKeepsInv(PruneIn(w, s, snapshot[..|snapshot| - 1]), s, snapshot[|snapshot| - 1]);
    }
  }

  lemma {:induction false} DiscardTokenEffect(r: Registry, s: Session, snapshot: seq<Pending>, token: nat)
    requires Mutual(r)
    ensures var r' := DiscardToken(r, s, snapshot, token);
      && Mutual(r') && Shrinks(r, r') && r'.stale == r.stale
      && forall i :: 0 <= i < |snapshot| && snapshot[i].viewToken == token ==> !Holds(r', s, snapshot[i])
  {
    if snapshot != [] {
      var front, p := snapshot[..|snapshot| - 1], snapshot[|snapshot| - 1];
      var before := DiscardToken(r, s, front, token);
      DiscardTokenEffect(r, s, front, token);
      assert forall i :: 0 <= i < |front| ==> snapshot[i] == front[i];
      if p.viewToken == token && Holds(before, s, p) {
        RemovedKeepsMutual(before, s, p);
        RemovedShrinks(before, s, p);
        assert Agree(Removed(before, s, p), s, p.id);
      }
    }
  }

  lemma AddKeepsViews(r: Registry, s: Session, p: Pending)
    requires Mutual(r) && OneBindingPerView(r)
    requires forall k :: r.PartitionOf(s).Has(k) ==> r.PartitionOf(s).at[k].viewToken != p.viewToken
    ensures OneBindingPerView(Add(r, s, p))
  {
    var r' := Add(r, s, p);
    forall t, k, k' | r'.PartitionOf(t).Has(k) && r'.PartitionOf(t).Has(k') && k != k'
      ensures r'.PartitionOf(t).at[k].viewToken != r'.PartitionOf(t).at[k'].viewToken
    {
      PartitionAfterAdd(r, s, p, t);
    }
  }

  /** A registry that lost bindings and gained a newly minted one. */
  lemma MintedKeepsInv(w: World, s: Session, p: Pending, cleared: Registry)
    requires Inv(w) && p.id !in w.minted
    requires Mutual(cleared) && Shrinks(w.registry, cleared) && cleared.stale == w.registry.stale
    requires forall k :: cleared.PartitionOf(s).Has(k) ==> cleared.PartitionOf(s).at[k].viewToken != p.viewToken
    ensures Inv(Minted(w, s, p, cleared))
  {
    var w' := Minted(w, s, p, cleared);
    ShrinkingKeepsViews(w.registry, cleared);
    AddKeepsViews(cleared, s, p);
    assert p.id !in cleared.byBinding;
    AddKeepsMutual(cleared, s, p);
    assert w'.registry.byBinding.Keys == cleared.byBinding.Keys + {p.id};
    assert RetiredOk(w');
  }

  /** Replacing the bindings of a view leaves exactly the new one for it. */
  lemma MintKeepsInv(w: World, s: Session, p: Pending)
    requires Inv(w) && p.id !in w.minted
    requires forall k :: k in w.registry.PartitionOf(s).order ==> k in w.registry.PartitionOf(s).at
    ensures Inv(Minted(w, s, p, Cleared(w.registry, s, p.viewToken)))
  {
    var snapshot := Values(w.registry.PartitionOf(s));
    var cleared := Cleared(w.registry, s, p.viewToken);
    DiscardTokenEffect(w.registry, s, snapshot, p.viewToken);
    NoOldBindingOfView(w.registry, cleared, s, p.viewToken);
    MintedKeepsInv(w, s, p, cleared);
  }

  lemma NoOldBindingOfView(r: Registry, cleared: Registry, s: Session, token: nat)
    requires Mutual(r) && (forall k :: k in r.PartitionOf(s).order ==> k in r.PartitionOf(s).at)
    requires cleared == DiscardToken(r, s, Values(r.PartitionOf(s)), token)
    ensures forall k :: cleared.PartitionOf(s).Has(k) ==> cleared.PartitionOf(s).at[k].viewToken != token
  {
    var part := r.PartitionOf(s);
    DiscardTokenEffect(r, s, Values(part), token);
    forall k | cleared.PartitionOf(s).Has(k) ensures cleared.PartitionOf(s).at[k].viewToken != token {
      assert r.PartitionOf(s).Get(k) == cleared.PartitionOf(s).Get(k);
      assert part.Valid() && k in part.order;
      var i :| 0 <= i < |part.order| && part.order[i] == k;
      assert Agree(cleared, s, k);
      assert Values(part)[i] == part.at[k] && Holds(cleared, s, Values(part)[i]);
    }
  }

  lemma ConsumeKeepsInv(w: World, owner: Session, p: Pending, cwd: string)
    requires Inv(w) && Holds(w.registry, owner, p) && w.now < p.expiresAt && cwd == p.repositoryCwd
    ensures Inv(RetireIn(w, owner, p, Consumed).(waiting := w.waiting + [Answer(owner, p, w.now, cwd)]))
  {
    var a := Answer(owner, p, w.now, cwd);
    var w' := RetireIn(w, owner, p, Consumed).(waiting := w.waiting + [a]);
    assert Agree(w.registry, owner, p.id);
    RetireKeepsRegistry(w, owner, p, Consumed);
    AnswersWithNew(w, w', a);
    assert RetiredOk(w') && RegistryInv(w');
  }

  lemma AnswersWithNew(w: World, w': World, a: Answer)
    requires AnswersInv(w) && w'.waiting == w.waiting + [a] && w'.calls == w.calls && w'.now == w.now
    requires Gone(w.retired, w.minted, w.registry.byBinding.Keys) && a.pending.id in w.registry.byBinding
    requires w'.retired == w.retired + [Retirement(a.pending.id, Consumed)]
    requires a.consumedAt == w.now < a.pending.expiresAt && a.cwd == a.pending.repositoryCwd
    ensures AnswersInv(w')
  {
    NewAnswerIsDistinct(w, w', a);
  }

  lemma AnswerKeepsInv(w: World, e: Event)
    requires Inv(w) && e.AnswerConsent?
    ensures Inv(AnswerStep(w, e))
  {
    var resolved := Resolve(w.registry, e.id);
    if resolved.Some? {
      var (owner, p) := resolved.value;
      assert Agree(w.registry, owner, e.id);
      if p.expiresAt <= w.now {
        RetireKeepsInv(w, owner, p);
      } else if e.cwd == p.repositoryCwd && e.intact && e.verified && e.available {
        ConsumeKeepsInv(w, owner, p, e.cwd);
      }
    }
  }

  lemma InsertNoDup(a: seq<Id>, c: seq<Id>, x: Id)
    requires NoDup(a + c) && x !in a && x !in c
    ensures NoDup(a + [x] + c)
  {
    var before, after := a + c, a + [x] + c;
    forall i, j | 0 <= i < j < |after| ensures after[i] != after[j] {
      var i', j' := if i < |a| then i else i - 1, if j < |a| then j else j - 1;
      assert i != |a| ==> after[i] == before[i'];
      assert j != |a| ==> after[j] == before[j'];
    }
  }

  lemma NewAnswerIsDistinct(w: World, w': World, a: Answer)
    requires NoDup(AnswerIds(w)) && w'.waiting == w.waiting + [a] && w'.calls == w.calls
    requires forall i :: 0 <= i < |w.waiting| ==> w.waiting[i].pending.id != a.pending.id
    requires forall i :: 0 <= i < |w.calls| ==> w.calls[i].answer.pending.id != a.pending.id
    ensures NoDup(AnswerIds(w'))
  {
    InsertNoDup(WaitingIds(w), CallIds(w), a.pending.id);
    assert WaitingIds(w') == WaitingIds(w) + [a.pending.id];
  }

  /** The answer that leaves the gate moves to the calls, or is dropped. */
  lemma GateIds(w: World, i: nat, open: bool)
    requires i < |w.waiting|
    ensures AnswerIds(GateStep(w, i, open))
         == AnswerIds(w)[..i] + AnswerIds(w)[i + 1..] + if open then [AnswerIds(w)[i]] else []
  {
  }

  lemma GateKeepsInv(w: World, i: nat, open: bool)
    requires Inv(w) && i < |w.waiting|
    ensures Inv(GateStep(w, i, open))
  {
    var a := w.waiting[i];
    var w' := GateStep(w, i, open);
    assert AnswerOk(w, a);
    assert !Holds(w.registry, a.owner, a.pending) by {
      var k :| 0 <= k < |w.retired| && w.retired[k] == Retirement(a.pending.id, Consumed);
      assert Agree(w.registry, a.owner, a.pending.id);
    }
    assert w' == w.(waiting := w'.waiting, calls := w'.calls);
    GateKeepsAnswers(w, i, open);
  }

  lemma GateKeepsAnswers(w: World, i: nat, open: bool)
    requires AnswersInv(w) && i < |w.waiting|
    ensures AnswersInv(GateStep(w, i, open))
  {
    var w' := GateStep(w, i, open);
    GateIds(w, i, open);
    MovedNoDup(AnswerIds(w), i);
    assert AnswerIds(w)[..i] + AnswerIds(w)[i + 1..] + [] == AnswerIds(w)[..i] + AnswerIds(w)[i + 1..];
    assert forall b :: AnswerOk(w, b) ==> AnswerOk(w', b);
    assert forall j :: 0 <= j < |w'.waiting| ==> w'.waiting[j] in w.waiting;
  }

  lemma MovedNoDup(s: seq<Id>, i: nat)
    requires NoDup(s) && i < |s|
    ensures NoDup(s[..i] + s[i + 1..] + [s[i]]) && NoDup(s[..i] + s[i + 1..])
  {
    var r := s[..i] + s[i + 1..] + [s[i]];
    assert forall j :: 0 <= j < |r| ==> r[j] == if j < i then s[j] else if j < |s| - 1 then s[j + 1] else s[i];
  }

  lemma ConsentStepCases(w: World, e: Event)
    requires e.ConsentRequired?
    ensures ConsentStep(w, e) == w || (
      && NeedsNew(w, w.registry.PartitionOf(e.session), e)
      && ConsentStep(w, e) == Minted(w, e.session, Pending(e.freshId, e.viewToken, e.repositoryCwd, e.digest, w.now + TTL),
      Cleared(w.registry, e.session, e.viewToken)))
  {
  }

  lemma ConsentKeepsInv(w: World, e: Event)
    requires Inv(w) && e.ConsentRequired?
    ensures Inv(ConsentStep(w, e))
  {
    var w' := ConsentStep(w, e);
    ConsentStepCases(w, e);
    if w' != w {
      var p := Pending(e.freshId, e.viewToken, e.repositoryCwd, e.digest, w.now + TTL);
      MintKeepsInv(w, e.session, p);
    }
  }

  lemma ShutdownKeepsInv(w: World, s: Session)
    requires Inv(w)
    ensures Inv(w.(registry := Take(w.registry, s)))
  {
    var w' := w.(registry := Take(w.registry, s));
    TakeKeepsMutual(w.registry, s);
    assert Shrinks(w.registry, w'.registry);
    ShrinkingKeepsViews(w.registry, w'.registry);
    assert RetiredOk(w');
  }

  lemma TickKeepsInv(w: World, elapsed: nat)
    requires Inv(w)
    ensures Inv(w.(now := w.now + elapsed))
  {
    var w' := w.(now := w.now + elapsed);
    assert RetiredOk(w') && AnswerIds(w') == AnswerIds(w);
    assert forall a :: AnswerOk(w, a) ==> AnswerOk(w', a);
  }

  lemma StepKeepsInv(w: World, e: Event)
    requires Inv(w)
    ensures Inv(Step(w, e))
  {
    match e
    case Tick(elapsed) => TickKeepsInv(w, elapsed);
    case ConsentRequired(_, _, _, _, _) => ConsentKeepsInv(w, e);
    case Prune(s) =>
      var part := w.registry.PartitionOf(s);
      if forall k :: k in part.order ==> k in part.at { PruneKeepsInv(w, s, Values(part)); }
    case TimerFires(s, p) => RetireKeepsInv(w, s, p);
    case AnswerConsent(_, _, _, _, _) => AnswerKeepsInv(w, e);
    case GateResolves(i, open) => if i < |w.waiting| { GateKeepsInv(w, i, open); }
    case Shutdown(s) => ShutdownKeepsInv(w, s);
  }

  lemma {:induction false} RunKeepsInv(events: seq<Event>)
    ensures Inv(Run(events))
  {
    if events == [] {
    } else {
      RunKeepsInv(events[..|events| - 1]);
      StepKeepsInv(Run(events[..|events| - 1]), events[|events| - 1]);
    }
  }

  // ----- Main results -----

  /** In every run the session maps and the binding index are mutually inverse. */
  lemma IndexesStayInverse(events: seq<Event>, s: Session, id: Id)
    ensures var r := Run(events).registry;
      && (r.PartitionOf(s).Has(id) <==> (id in r.byBinding && r.byBinding[id] == s))
      && (Resolve(r, id).Some? <==> id in r.byBinding)
  {
    RunKeepsInv(events);
    var r := Run(events).registry;
    assert Agree(r, s, id);
    if id in r.byBinding {
      assert Agree(r, r.byBinding[id], id);
    }
  }

  /** In every run each binding is consumed or expired at most once, by whatever session, and then stays gone. */
  lemma RetirementIsOneShot(events: seq<Event>, e: Event, i: nat)
    requires i < |Run(events).retired|
    ensures NoDup(Ids(Run(events).retired))
    ensures Resolve(Run(events).registry, Run(events).retired[i].id).None?
    ensures e.AnswerConsent? && e.id == Run(events).retired[i].id ==> Step(Run(events), e) == Run(events)
  {
    RunKeepsInv(events);
  }

  /** In every run the provider is asked about a binding at most once, from the minting repository, after a consumption before its expiry. */
  lemma AnsweredAtMostOnce(events: seq<Event>, i: nat, j: nat)
    requires i < |Run(events).calls| && j < |Run(events).calls|
    ensures var w := Run(events); var a := w.calls[i].answer;
      && (i != j ==> w.calls[j].answer.pending.id != a.pending.id)
      && a.consumedAt < a.pending.expiresAt && a.consumedAt <= w.calls[i].at
      && a.cwd == a.pending.repositoryCwd
      && Retirement(a.pending.id, Consumed) in w.retired
  {
    RunKeepsInv(events);
    var w := Run(events);
    assert AnswerOk(w, w.calls[i].answer);
    if i != j { DifferentCalls(w, i, j); }
  }

  lemma DifferentCalls(w: World, i: nat, j: nat)
    requires NoDup(AnswerIds(w)) && i < |w.calls| && j < |w.calls| && i != j
    ensures w.calls[i].answer.pending.id != w.calls[j].answer.pending.id
  {
    var n := |w.waiting|;
    assert AnswerIds(w)[n + i] == w.calls[i].answer.pending.id && AnswerIds(w)[n + j] == w.calls[j].answer.pending.id;
  }

  lemma MemoryHolds(log: seq<Retirement>, i: nat)
    requires NoDup(Ids(log)) && |log| - STALE_LIMIT <= i < |log|
    ensures History(log).Newest(STALE_LIMIT).Get(log[i].id) == Some(log[i].disposition)
  {
    HistoryOrder(log);
    HistoryHas(log, i);
    LastNHas(Ids(log), STALE_LIMIT, i);
    History(log).NewestGet(STALE_LIMIT, log[i].id);
  }

  /** In every run the memory of retired bindings is the end of the full history, and names no live binding. */
  lemma MemoryIsEndOfHistory(events: seq<Event>, id: Id, i: nat)
    ensures var w := Run(events);
      && w.registry.stale == History(w.retired).Newest(STALE_LIMIT)
      && w.registry.stale.order == LastN(Ids(w.retired), STALE_LIMIT)
      && (w.registry.stale.Has(id) ==> id !in w.registry.byBinding)
      && (|w.retired| - STALE_LIMIT <= i < |w.retired| ==>
            w.registry.stale.Get(w.retired[i].id) == Some(w.retired[i].disposition))
  {
    RunKeepsInv(events);
    var w := Run(events);
    HistoryOrder(w.retired);
    if w.registry.stale.Has(id) {
      var k :| 0 <= k < |w.retired| && Ids(w.retired)[k] == id;
    }
    if |w.retired| - STALE_LIMIT <= i < |w.retired| {
      MemoryHolds(w.retired, i);
    }
  }

  /** A start never leaves two live bindings of one candidate view in a session. */
  lemma OneLiveBindingPerView(events: seq<Event>, s: Session, k: Id, k': Id)
    requires var r := Run(events).registry; r.PartitionOf(s).Has(k) && r.PartitionOf(s).Has(k') && k != k'
    ensures var r := Run(events).registry; r.PartitionOf(s).at[k].viewToken != r.PartitionOf(s).at[k'].viewToken
  {
    RunKeepsInv(events);
  }

  /** In every run a start that needs consent ends with a live, unexpired binding for exactly its candidate. */
  lemma ConsentHasLiveBinding(events: seq<Event>, e: Event)
    requires e.ConsentRequired? && e.freshId !in Run(events).minted
    ensures HasReusable(Step(Run(events), e), e)
  {
    RunKeepsInv(events);
    var before := Run(events);
    var part := before.registry.PartitionOf(e.session);
    var w := Step(before, e);
    if NeedsNew(before, part, e) {
      StepKeepsInv(before, e);
      assert w.registry.PartitionOf(e.session).Has(e.freshId);
      assert Agree(w.registry, e.session, e.freshId);
      assert Resolve(w.registry, e.freshId).Some?;
    } else {
      assert part.Valid();
      var k :| k in part.at && Reusable(before, part.at[k], e);
      assert Agree(before.registry, e.session, k);
      assert Resolve(w.registry, k).Some?;
    }
  }

  /** In every run an answer goes ahead exactly on a live, unexpired, intact binding answered from its repository; then it is gone. */
  lemma AnswerGoesAheadIff(events: seq<Event>, e: Event)
    requires e.AnswerConsent?
    ensures var w := Run(events); var w' := Step(w, e); var live := Resolve(w.registry, e.id);
      && (w'.waiting != w.waiting <==>
            && live.Some? && w.now < live.value.1.expiresAt && e.cwd == live.value.1.repositoryCwd
            && e.intact && e.verified && e.available)
      && (w'.waiting != w.waiting ==> Resolve(w'.registry, e.id).None? && w'.registry.stale.Get(e.id) == Some(Consumed))
  {
    RunKeepsInv(events);
    var w := Run(events);
    var live := Resolve(w.registry, e.id);
    if live.Some? {
      var (owner, p) := live.value;
      assert Agree(w.registry, owner, e.id);
      RetireKeepsMutual(w.registry, owner, p, Consumed);
      JustRemembered(w.registry.stale, e.id, Consumed);
    }
  }

  lemma JustRemembered(stale: OrderedMap<Id, Disposition>, id: Id, d: Disposition)
    ensures Remember(stale, id, d).Get(id) == Some(d)
  {
    var added := stale.Delete(id).Set(id, d);
    WithoutMembers(stale.order, {id});
    assert added.order == stale.Delete(id).order + [id];
    LastNHas(added.order, STALE_LIMIT, |added.order| - 1);
  }

  // ----- What each caller leaves resolvable -----

  /** Exactly this binding is gone, remembered under this disposition; everything else resolves as before. */
  ghost predicate OnlyRetires(w: World, w': World, p: Pending, d: Disposition) {
    && (forall id :: Resolve(w'.registry, id) == if id == p.id then None else Resolve(w.registry, id))
    && w'.registry.stale.Get(p.id) == Some(d) && w'.retired == w.retired + [Retirement(p.id, d)]
    && w'.now == w.now && w'.minted == w.minted && w'.calls == w.calls
  }

  lemma RetireInEffect(w: World, s: Session, p: Pending, d: Disposition)
    requires Mutual(w.registry)
    ensures Mutual(RetireIn(w, s, p, d).registry)
    ensures Resolve(w.registry, p.id) == Some((s, p)) ==>
      OnlyRetires(w, RetireIn(w, s, p, d), p, d) && RetireIn(w, s, p, d).waiting == w.waiting
    ensures Resolve(w.registry, p.id) != Some((s, p)) ==> RetireIn(w, s, p, d) == w
  {
    RetireKeepsMutual(w.registry, s, p, d);
    JustRemembered(w.registry.stale, p.id, d);
  }

  /**
   In every run: an answer to a binding nobody holds changes nothing; on an expired one it retires exactly that
   binding; on a live one it either changes nothing at all, or consumes exactly that binding for this answer.
   */
  lemma AnswerEffect(events: seq<Event>, e: Event)
    requires e.AnswerConsent?
    ensures var w := Run(events); var w' := Step(w, e); var live := Resolve(w.registry, e.id);
      && (live.None? ==> w' == w)
      && (live.Some? && live.value.1.expiresAt <= w.now ==>
            OnlyRetires(w, w', live.value.1, Expired) && w'.waiting == w.waiting)
      && (live.Some? && w.now < live.value.1.expiresAt ==>
            || w' == w
            || (&& OnlyRetires(w, w', live.value.1, Consumed)
                && w'.waiting == w.waiting + [Answer(live.value.0, live.value.1, w.now, e.cwd)]))
  {
    RunKeepsInv(events);
    var w := Run(events);
    var live := Resolve(w.registry, e.id);
    if live.Some? {
      var (owner, p) := live.value;
      assert Agree(w.registry, owner, e.id);
      RetireInEffect(w, owner, p, Expired);
      RetireInEffect(w, owner, p, Consumed);
    }
  }

  /** The timer of a binding retires exactly that one, and only while it is live. */
  lemma TimerEffect(events: seq<Event>, s: Session, p: Pending)
    ensures var w := Run(events); var w' := Step(w, TimerFires(s, p));
      if Resolve(w.registry, p.id) == Some((s, p)) then OnlyRetires(w, w', p, Expired) && w'.waiting == w.waiting
      else w' == w
  {
    RunKeepsInv(events);
    RetireInEffect(Run(events), s, p, Expired);
  }

  predicate ExpiredIn(w: World, s: Session, snapshot: seq<Pending>, live: Option<(Session, Pending)>) {
    live.Some? && live.value.0 == s && live.value.1.expiresAt <= w.now && live.value.1 in snapshot
  }

  lemma {:induction false} PruneResolves(w: World, s: Session, snapshot: seq<Pending>, id: Id)
    requires Mutual(w.registry)
    ensures Mutual(PruneIn(w, s, snapshot).registry)
    ensures Resolve(PruneIn(w, s, snapshot).registry, id)
         == if ExpiredIn(w, s, snapshot, Resolve(w.registry, id)) then None else Resolve(w.registry, id)
  {
    if snapshot != [] {
      var front, p := snapshot[..|snapshot| - 1], snapshot[|snapshot| - 1];
      PruneResolves(w, s, front, id);
      PruneResolves(w, s, front, p.id);
      RetireInEffect(PruneIn(w, s, front), s, p, Expired);
      assert forall x :: x in snapshot <==> x in front || x == p;
      if Resolve(w.registry, id).Some? { assert Agree(w.registry, Resolve(w.registry, id).value.0, id); }
    }
  }

  /** In every run pruning a session takes exactly its expired bindings; every other binding resolves as before. */
  lemma PruneEffect(events: seq<Event>, s: Session, id: Id)
    ensures var w := Run(events); var live := Resolve(w.registry, id);
      Resolve(Step(w, Prune(s)).registry, id)
      == if live.Some? && live.value.0 == s && live.value.1.expiresAt <= w.now then None else live
  {
    RunKeepsInv(events);
    var w := Run(events);
    var part := w.registry.PartitionOf(s);
    assert part.Valid();
    PruneResolves(w, s, Values(part), id);
    HeldIsListed(part, id);
  }

  lemma RemovedResolves(r: Registry, s: Session, p: Pending, id: Id)
    requires Mutual(r)
    ensures Mutual(Discard(r, s, p))
    ensures Resolve(Discard(r, s, p), id) == if Resolve(r, p.id) == Some((s, p)) && id == p.id then None else Resolve(r, id)
  {
    assert Agree(r, s, p.id);
    if Holds(r, s, p) { RemovedKeepsMutual(r, s, p); }
  }

  lemma {:induction false} DiscardTokenResolves(r: Registry, s: Session, snapshot: seq<Pending>, token: nat, id: Id)
    requires Mutual(r)
    ensures Mutual(DiscardToken(r, s, snapshot, token))
    ensures var live := Resolve(r, id);
      Resolve(DiscardToken(r, s, snapshot, token), id)
      == if live.Some? && live.value.0 == s && live.value.1.viewToken == token && live.value.1 in snapshot then None else live
  {
    if snapshot != [] {
      var front, p := snapshot[..|snapshot| - 1], snapshot[|snapshot| - 1];
      DiscardTokenResolves(r, s, front, token, id);
      DiscardTokenResolves(r, s, front, token, p.id);
      RemovedResolves(DiscardToken(r, s, front, token), s, p, id);
      assert forall x :: x in snapshot <==> x in front || x == p;
      if Resolve(r, id).Some? { assert Agree(r, Resolve(r, id).value.0, id); }
    }
  }

  lemma AddResolves(r: Registry, s: Session, p: Pending, id: Id)
    requires Mutual(r) && p.id !in r.byBinding
    ensures Resolve(Add(r, s, p), id) == if id == p.id then Some((s, p)) else Resolve(r, id)
  {
    if id in r.byBinding { PartitionAfterAdd(r, s, p, r.byBinding[id]); }
    PartitionAfterAdd(r, s, p, s);
  }

  /** The session's live, unexpired binding for exactly this repository, view and digest, if it has one. */
  ghost predicate HasReusable(w: World, e: Event)
    requires e.ConsentRequired?
  {
    exists id :: IsLiveFor(Resolve(w.registry, id), w.now, e)
  }

  /** A binding of this session for exactly this repository, view and digest that has not expired. */
  predicate IsLiveFor(live: Option<(Session, Pending)>, now: Time, e: Event)
    requires e.ConsentRequired?
  {
    && live.Some? && live.value.0 == e.session
    && live.value.1.repositoryCwd == e.repositoryCwd && live.value.1.viewToken == e.viewToken
    && live.value.1.digest == e.digest && now < live.value.1.expiresAt
  }

  /** A binding of the same session and view is replaced. */
  function UnlessReplaced(live: Option<(Session, Pending)>, e: Event): Option<(Session, Pending)>
    requires e.ConsentRequired?
  {
    if live.Some? && live.value.0 == e.session && live.value.1.viewToken == e.viewToken then None else live
  }

  /**
   In every run: a start that needs consent changes nothing when a binding can be reused; otherwise it adds one that
   lives for ten minutes, discards the session's others of that view, and leaves every other binding as it was.
   */
  lemma ConsentEffect(events: seq<Event>, e: Event, id: Id)
    requires e.ConsentRequired? && e.freshId !in Run(events).minted
    ensures var w := Run(events); var w' := Step(w, e); var live := Resolve(w.registry, id);
      if HasReusable(w, e) then w' == w
      else
        && w' == w.(registry := w'.registry, minted := w.minted + {e.freshId})
        && Resolve(w'.registry, e.freshId)
           == Some((e.session, Pending(e.freshId, e.viewToken, e.repositoryCwd, e.digest, w.now + 600_000)))
        && (id != e.freshId ==> Resolve(w'.registry, id) == UnlessReplaced(live, e))
  {
    RunKeepsInv(events);
    var w := Run(events);
    ReusableIffResolved(w, e);
    ConsentStepCases(w, e);
    if NeedsNew(w, w.registry.PartitionOf(e.session), e) {
      FreshConsent(w, e, id);
    }
  }

  lemma ReusableIffResolved(w: World, e: Event)
    requires Mutual(w.registry) && e.ConsentRequired? && e.freshId !in w.minted
    ensures HasReusable(w, e) <==> !NeedsNew(w, w.registry.PartitionOf(e.session), e)
  {
    var part := w.registry.PartitionOf(e.session);
    assert part.Valid();
    if k :| k in part.at && Reusable(w, part.at[k], e) {
      assert Agree(w.registry, e.session, k);
      assert Resolve(w.registry, k) == Some((e.session, part.at[k]));
    }
  }

  lemma FreshConsent(w: World, e: Event, id: Id)
    requires Inv(w) && e.ConsentRequired? && NeedsNew(w, w.registry.PartitionOf(e.session), e)
    ensures var w' := ConsentStep(w, e); var live := Resolve(w.registry, id);
      && Resolve(w'.registry, e.freshId)
         == Some((e.session, Pending(e.freshId, e.viewToken, e.repositoryCwd, e.digest, w.now + 600_000)))
      && (id != e.freshId ==> Resolve(w'.registry, id) == UnlessReplaced(live, e))
  {
    var part := w.registry.PartitionOf(e.session);
    var cleared := DiscardToken(w.registry, e.session, Values(part), e.viewToken);
    var p := Pending(e.freshId, e.viewToken, e.repositoryCwd, e.digest, w.now + TTL);
    DiscardTokenEffect(w.registry, e.session, Values(part), e.viewToken);
    AddResolves(cleared, e.session, p, id);
    AddResolves(cleared, e.session, p, p.id);
    ClearedResolves(w, e, id);
  }

  lemma ClearedResolves(w: World, e: Event, id: Id)
    requires Inv(w) && e.ConsentRequired?
    ensures var part := w.registry.PartitionOf(e.session);
      Resolve(DiscardToken(w.registry, e.session, Values(part), e.viewToken), id) == UnlessReplaced(Resolve(w.registry, id), e)
  {
    var part := w.registry.PartitionOf(e.session);
    DiscardTokenResolves(w.registry, e.session, Values(part), e.viewToken, id);
    HeldIsListed(part, id);
  }

  lemma HeldIsListed(part: Partition, id: Id)
    requires part.Valid()
    ensures id in part.at ==> part.at[id] in Values(part)
  {
    if id in part.at {
      var i :| 0 <= i < |part.order| && part.order[i] == id;
      assert Values(part)[i] == part.at[id];
    }
  }

  /** In every run an open gate makes exactly one call, with the answer that waited; a closed one makes none. Neither touches a live binding. */
  lemma GateEffect(events: seq<Event>, i: nat, open: bool, id: Id)
    requires i < |Run(events).waiting|
    ensures var w := Run(events); var w' := Step(w, GateResolves(i, open));
      && w'.waiting == w.waiting[..i] + w.waiting[i + 1..]
      && w'.calls == (if open then w.calls + [Call(w.waiting[i], w.now)] else w.calls)
      && Resolve(w'.registry, id) == Resolve(w.registry, id) && w'.retired == w.retired
  {
    RunKeepsInv(events);
    var w := Run(events);
    var a := w.waiting[i];
    assert AnswerOk(w, a);
    var k :| 0 <= k < |w.retired| && w.retired[k] == Retirement(a.pending.id, Consumed);
    assert Agree(w.registry, a.owner, a.pending.id);
  }

  function Elapsed(events: seq<Event>): (ms: nat) {
    if events == [] then 0
    else
      var last := events[|events| - 1];
      Elapsed(events[..|events| - 1]) + if last.Tick? then last.elapsed else 0
  }

  lemma {:induction false} ClockIsElapsed(before: seq<Event>, between: seq<Event>)
    ensures Run(before + between).now == Run(before).now + Elapsed(between)
  {
    if between == [] {
      assert before + between == before;
    } else {
      var front, last := between[..|between| - 1], between[|between| - 1];
      assert (before + between)[..|before + between| - 1] == before + front;
      ClockIsElapsed(before, front);
      StepClock(Run(before + front), last);
    }
  }

  lemma StepClock(w: World, e: Event)
    ensures Step(w, e).now == w.now + if e.Tick? then e.elapsed else 0
  {
    match e
    case Prune(s) =>
      var part := w.registry.PartitionOf(s);
      if forall k :: k in part.order ==> k in part.at { PruneClock(w, s, Values(part)); }
    case _ =>
  }

  lemma {:induction false} PruneClock(w: World, s: Session, snapshot: seq<Pending>)
    ensures PruneIn(w, s, snapshot).now == w.now
  {
    if snapshot != [] { PruneClock(w, s, snapshot[..|snapshot| - 1]); }
  }

  /** A call reaches the provider before the binding's expiry if and only if the gate took less than the lifetime left at consumption. */
  lemma CallIsInTimeIff(before: seq<Event>, between: seq<Event>, i: nat)
    requires i < |Run(before + between).waiting| && Run(before + between).waiting[i].consumedAt == Run(before).now
    ensures var a := Run(before + between).waiting[i];
            var calls := Run(before + between + [GateResolves(i, true)]).calls;
      && calls != [] && calls[|calls| - 1].answer == a
      && (calls[|calls| - 1].at < a.pending.expiresAt <==> Elapsed(between) < a.pending.expiresAt - a.consumedAt)
  {
    ClockIsElapsed(before, between);
    var events := before + between + [GateResolves(i, true)];
    assert events[..|events| - 1] == before + between;
  }

  /** The gate is awaited after the consumption, so the call itself can come after the binding's expiry. */
  lemma CallCanFollowExpiry()
    ensures exists events :: |Run(events).calls| == 1 && Run(events).calls[0].at > Run(events).calls[0].answer.pending.expiresAt
  {
    var e0 := ConsentRequired(0, "/r", 0, 0, "b");
    var e1 := AnswerConsent("b", "/r", true, true, true);
    var e2 := Tick(600_001);
    var e3 := GateResolves(0, true);
    var p := Pending("b", 0, "/r", 0, TTL);
    FirstConsent(e0, p);
    var w1 := INITIAL.(registry := Add(EMPTY, 0, p), minted := {p.id});
    FirstAnswer(w1, e1, p);
    LateGate(Step(w1, e1), Answer(0, p, 0, "/r"), e2, e3);
    RunFour(e0, e1, e2, e3);
    assert |Run([e0, e1, e2, e3]).calls| == 1;
  }

  lemma LateGate(w: World, a: Answer, tick: Event, gate: Event)
    requires w.waiting == [a] && w.now == 0 && w.calls == [] && tick.Tick? && gate == GateResolves(0, true)
    ensures Step(Step(w, tick), gate).calls == [Call(a, tick.elapsed)]
  {
  }

  lemma FirstConsent(e: Event, p: Pending)
    requires e == ConsentRequired(0, p.repositoryCwd, p.viewToken, p.digest, p.id) && p.expiresAt == TTL
    ensures Step(INITIAL, e) == INITIAL.(registry := Add(EMPTY, 0, p), minted := {p.id})
  {
    assert Values(INITIAL.registry.PartitionOf(0)) == [];
  }

  lemma FirstAnswer(w: World, e: Event, p: Pending)
    requires w.registry == Add(EMPTY, 0, p) && w.now == 0 < p.expiresAt && w.waiting == []
    requires e == AnswerConsent(p.id, p.repositoryCwd, true, true, true)
    ensures Step(w, e).waiting == [Answer(0, p, 0, p.repositoryCwd)]
    ensures Step(w, e).now == 0 && Step(w, e).calls == w.calls
  {
    assert w.registry.PartitionOf(0).at == map[p.id := p];
    assert Resolve(w.registry, p.id) == Some((0, p));
  }

  lemma RunFour(a: Event, b: Event, c: Event, d: Event)
    ensures Run([a, b, c, d]) == Step(Step(Step(Step(INITIAL, a), b), c), d)
  {
    assert [a][..0] == [] && [a, b][..1] == [a] && [a, b, c][..2] == [a, b] && [a, b, c, d][..3] == [a, b, c];
    assert Run([a]) == Step(INITIAL, a);
    assert Run([a, b]) == Step(Run([a]), b);
    assert Run([a, b, c]) == Step(Run([a, b]), c);
  }

  // ----- The registry object -----

  class PendingReviewConsentRegistry {
    var sessions: map<Session, Partition>
    var byBinding: map<Id, Session>
    var staleDispositions: OrderedMap<Id, Disposition>

    function View(): Registry
      reads this
    {
      Registry(sessions, byBinding, staleDispositions)
    }

    constructor ()
      ensures View() == EMPTY && Mutual(View())
    {
      sessions, byBinding, staleDispositions := map[], map[], OrderedMap([], map[]);
      new;
    }

    method AddPending(s: Session, p: Pending)
      modifies this
      ensures View() == Add(old(View()), s, p)
    {
      var partition := if s in sessions then sessions[s] else Empty();
      sessions := sessions[s := partition.Set(p.id, p)];
      byBinding := byBinding[p.id := s];
    }

    method ResolveBinding(id: Id) returns (r: Option<(Session, Pending)>)
      ensures r == Resolve(View(), id)
    {
      if id in byBinding {
        var s := byBinding[id];
        if s in sessions && sessions[s].Has(id) {
          return Some((s, sessions[s].at[id]));
        }
      }
      r := None;
    }

    method RemovePending(s: Session, p: Pending) returns (ok: bool)
      modifies this
      ensures ok == Holds(old(View()), s, p)
      ensures View() == Discard(old(View()), s, p)
    {
      if s !in sessions || sessions[s].Get(p.id) != Some(p) {
        return false;
      }
      var left := sessions[s].Delete(p.id);
      sessions := if left.order == [] then sessions - {s} else sessions[s := left];
      if p.id in byBinding && byBinding[p.id] == s {
        byBinding := byBinding - {p.id};
      }
      ok := true;
    }

    /** Delete, set, and evict from the front while over the limit. */
    method RememberDisposition(id: Id, d: Disposition)
      requires staleDispositions.Valid()
      modifies this`staleDispositions
      ensures staleDispositions == Remember(old(staleDispositions), id, d)
    {
      staleDispositions.RemoveValid({id});
      staleDispositions := staleDispositions.Delete(id);
      staleDispositions.SetValid(id, d);
      staleDispositions := staleDispositions.Set(id, d);
      ghost var all := staleDispositions;
      all.NewestIsAll(|all.order|);
      while |staleDispositions.order| > STALE_LIMIT
        invariant |staleDispositions.order| <= |all.order|
        invariant staleDispositions == all.Newest(|staleDispositions.order|)
        invariant |staleDispositions.order| == |all.order| || |staleDispositions.order| >= STALE_LIMIT
      {
        all.EvictOne(|staleDispositions.order|);
        staleDispositions := staleDispositions.Delete(staleDispositions.order[0]);
      }
      if |all.order| <= STALE_LIMIT {
        all.NewestIsAll(STALE_LIMIT);
      }
    }

    /** `consume` and `expire`. */
    method RetirePending(s: Session, p: Pending, d: Disposition) returns (ok: bool)
      requires staleDispositions.Valid()
      modifies this
      ensures (View(), ok) == Retire(old(View()), s, p, d)
    {
      ok := RemovePending(s, p);
      if ok {
        RememberDisposition(p.id, d);
      }
    }

    /** The deletions from the index, one per binding of the session. */
    method Unindex(s: Session, ids: seq<Id>)
      modifies this`byBinding
      ensures byBinding == old(byBinding) - (set id | id in ids && id in old(byBinding) && old(byBinding)[id] == s)
    {
      ghost var before := byBinding;
      for i := 0 to |ids|
        invariant byBinding == before - (set id | id in ids[..i] && id in before && before[id] == s)
      {
        assert ids[..i + 1] == ids[..i] + [ids[i]];
        if ids[i] in byBinding && byBinding[ids[i]] == s {
          byBinding := byBinding - {ids[i]};
        }
      }
      assert ids[..|ids|] == ids;
    }

    /** Removes a session's partition and returns what was in it, in order. */
    method TakeSession(s: Session) returns (taken: seq<Pending>)
      requires Mutual(View())
      modifies this
      ensures View() == Take(old(View()), s) && Mutual(View())
      ensures taken == if s in old(sessions) then Values(old(sessions)[s]) else []
    {
      ghost var before := View();
      TakeKeepsMutual(before, s);
      taken := [];
      if s in sessions {
        var partition := sessions[s];
        sessions := sessions - {s};
        Unindex(s, partition.order);
        assert (set id | id in partition.order && id in before.byBinding && before.byBinding[id] == s)
            == (set id | id in partition.at && id in before.byBinding && before.byBinding[id] == s);
        taken := Values(partition);
      }
    }
  }
}
