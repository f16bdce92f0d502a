/** The cache refines "the last successful load since the last invalidation". */
module DataCacheProof {
  import opened Wrappers
  import opened DataCache

  // ---- the reference: what the history says ---------------------------------------------

  datatype Snapshot = Snapshot(load: LoadId, data: Option<Value>, at: int)

  function Front(h: seq<Happening>): seq<Happening>
    requires h != []
  {
    h[..|h| - 1]
  }

  function Latest(h: seq<Happening>): Happening
    requires h != []
  {
    h[|h| - 1]
  }

  /** The loader was started after the last invalidation. */
  predicate Current(h: seq<Happening>, id: LoadId) {
    h != [] &&
    match Latest(h)
    case Invalidated => false
    case Started(i, _) => i == id || Current(Front(h), id)
    case _ => Current(Front(h), id)
  }

  /** The loader was started for the key after the last invalidation and has not settled. */
  predicate Running(h: seq<Happening>, key: Key, id: LoadId) {
    h != [] &&
    match Latest(h)
    case Invalidated => false
    case Started(i, k) => (i == id && k == key) || Running(Front(h), key, id)
    case Succeeded(i, _, _, _) => i != id && Running(Front(h), key, id)
    case Failed(i) => i != id && Running(Front(h), key, id)
  }

  /** A load of the key was started after the last invalidation. */
  predicate Asked(h: seq<Happening>, key: Key) {
    h != [] &&
    match Latest(h)
    case Invalidated => false
    case Started(_, k) => k == key || Asked(Front(h), key)
    case _ => Asked(Front(h), key)
  }

  /** The last load that succeeded for the key among those started after the last
      invalidation. */
  function LastSuccess(h: seq<Happening>, key: Key): Option<Snapshot> {
    if h == [] then None
    else
      match Latest(h)
      case Invalidated => None
      case Started(_, _) => LastSuccess(Front(h), key)
      case Succeeded(i, k, data, at) =>
        if k == key && Current(Front(h), i) then Some(Snapshot(i, data, at)) else LastSuccess(Front(h), key)
      case Failed(_) => LastSuccess(Front(h), key)
  }

  // ---- runs ----------------------------------------------------------------------------

  datatype Step =
    | Invalidation
    | Reading(key: Key, force: bool, now: int, next: LoadId)
    | Resolution(id: LoadId, data: Option<Value>, now: int)
    | Rejection(id: LoadId)

  predicate Enabled(c: Cache, s: Step) {
    match s
    case Invalidation => true
    case Reading(_, _, _, next) => next !in c.loads
    case Resolution(id, _, _) => id in c.loads && !c.loads[id].settled
    case Rejection(id) => id in c.loads && !c.loads[id].settled
  }

  function Apply(c: Cache, s: Step): Cache
    requires Enabled(c, s)
  {
    match s
    case Invalidation => Invalidate(c)
    case Reading(key, force, now, next) => Read(c, key, force, now, next).0
    case Resolution(id, data, now) => Resolve(c, id, data, now)
    case Rejection(id) => Reject(c, id)
  }

  datatype Trace = Trace(caches: seq<Cache>, steps: seq<Step>) {
    ghost predicate StepAt(i: nat)
      requires |caches| == |steps| + 1 && i < |steps|
    {
      Enabled(caches[i], steps[i]) && caches[i + 1] == Apply(caches[i], steps[i])
    }

    ghost predicate Valid() {
      |caches| == |steps| + 1 && caches[0] == EMPTY && forall i: nat :: i < |steps| ==> StepAt(i)
    }
  }

  // ---- the refinement --------------------------------------------------------------------

  /** The entry of a key says exactly what the history says. */
  ghost predicate Refines(c: Cache, key: Key) {
    var good := LastSuccess(c.history, key);
    && (key in c.store <==> Asked(c.history, key))
    && if key in c.store then
      var e := c.store[key];
      && e.generation == c.generation
      && e.data == (if good.Some? then good.value.data else None)
      && e.fetchedAt == (if good.Some? then good.value.at else 0)
      && (forall id: LoadId :: e.inflight == Some(id) <==> Running(c.history, key, id))
    else
      good.None? && forall id: LoadId :: !Running(c.history, key, id)
  }

  ghost predicate LoadsInv(c: Cache) {
    forall id: LoadId ::
      && (Current(c.history, id) <==> id in c.loads && c.loads[id].generation == c.generation)
      && (id in c.loads ==> c.loads[id].generation <= c.generation)
      && (forall k: Key :: Running(c.history, k, id) <==>
            id in c.loads && !c.loads[id].settled && c.loads[id].generation == c.generation && c.loads[id].key == k)
  }

  ghost predicate CacheInv(c: Cache) {
    LoadsInv(c) && forall key: Key :: Refines(c, key)
  }

  lemma Extended(h: seq<Happening>, e: Happening)
    ensures h + [e] != [] && Front(h + [e]) == h && Latest(h + [e]) == e
  {}

  lemma StartKeeps(c: Cache, key: Key, id: LoadId)
    requires CacheInv(c) && id !in c.loads
    requires key in c.store ==> c.store[key].inflight.None?
    ensures CacheInv(Start(c, key, id))
  {
    Extended(c.history, Started(id, key));
    assert Refines(c, key);
    forall k: Key ensures Refines(Start(c, key, id), k) {
      assert Refines(c, k);
    }
  }

  lemma InvalidateKeeps(c: Cache)
    requires CacheInv(c)
    ensures CacheInv(Invalidate(c))
  {
    Extended(c.history, Invalidated);
  }

  lemma ResolveKeeps(c: Cache, id: LoadId, data: Option<Value>, now: int)
    requires CacheInv(c) && id in c.loads && !c.loads[id].settled
    ensures CacheInv(Resolve(c, id, data, now))
  {
    Extended(c.history, Succeeded(id, c.loads[id].key, data, now));
    var own := c.loads[id].key;
    if c.loads[id].generation == c.generation {
      assert Refines(c, own);
      assert Running(c.history, own, id);
      assert forall other: LoadId :: Running(c.history, own, other) ==> other == id;
    }
    forall k: Key ensures Refines(Resolve(c, id, data, now), k) {
      assert Refines(c, k);
    }
  }

  lemma RejectKeeps(c: Cache, id: LoadId)
    requires CacheInv(c) && id in c.loads && !c.loads[id].settled
    ensures CacheInv(Reject(c, id))
  {
    Extended(c.history, Failed(id));
    forall k: Key ensures Refines(Reject(c, id), k) {
      assert Refines(c, k);
    }
  }

  lemma StepKeeps(c: Cache, s: Step)
    requires CacheInv(c) && Enabled(c, s)
    ensures CacheInv(Apply(c, s))
  {
    match s
    case Invalidation => InvalidateKeeps(c);
    case Reading(key, force, now, next) =>
      assert Refines(c, key);
      if key !in c.store || c.store[key].inflight.None? {
        StartKeeps(c, key, next);
      }
    case Resolution(id, data, now) => ResolveKeeps(c, id, data, now);
    case Rejection(id) => RejectKeeps(c, id);
  }

  lemma {:induction false} Reachable(trace: Trace, i: nat)
    requires trace.Valid() && i < |trace.caches|
    ensures CacheInv(trace.caches[i])
  {
    if i > 0 {
      Reachable(trace, i - 1);
      assert trace.StepAt(i - 1);
      StepKeeps(trace.caches[i - 1], trace.steps[i - 1]);
    }
  }

  /** After any run, whatever order the loaders settled in: a key's snapshot and age
      are those of the last load of this generation that succeeded, its in-flight
      slot is its one running loader, and no entry is of an older generation. */
  lemma SnapshotIsLastSuccess(trace: Trace, i: nat, c: Cache, key: Key)
    requires trace.Valid() && i < |trace.caches| && c == trace.caches[i]
    ensures Refines(c, key)
    ensures forall a: LoadId, b: LoadId :: Running(c.history, key, a) && Running(c.history, key, b) ==> a == b
  {
    Reachable(trace, i);
    assert Refines(c, key);
  }

  /** The value is the result of the key's last successful load, one that was
      started after the last invalidation. */
  ghost predicate Serves(c: Cache, key: Key, data: Option<Value>) {
    var good := LastSuccess(c.history, key);
    good.Some? && good.value.data == data && Current(c.history, good.value.load)
  }

  /** The promise is an unsettled load of the key, started after the last invalidation. */
  ghost predicate Promises(c: Cache, key: Key, id: LoadId) {
    Running(c.history, key, id) && Current(c.history, id)
  }

  lemma {:induction false} SuccessIsCurrent(h: seq<Happening>, key: Key)
    ensures LastSuccess(h, key).Some? ==> Current(h, LastSuccess(h, key).value.load)
    decreases |h|
  {
    if h != [] {
      SuccessIsCurrent(Front(h), key);
    }
  }

  lemma {:induction false} RunningIsCurrent(h: seq<Happening>, key: Key, id: LoadId)
    requires Running(h, key, id)
    ensures Current(h, id)
    decreases |h|
  {
    if !(Latest(h).Started? && Latest(h).id == id) {
      RunningIsCurrent(Front(h), key, id);
    }
  }

  /** A read delivers nothing that was requested before the last invalidation: not
      the snapshot it serves, and not the promise it hands out. */
  lemma ReadsAreCurrent(trace: Trace, i: nat, c: Cache, key: Key, force: bool, now: int, next: LoadId)
    requires trace.Valid() && i < |trace.caches| && c == trace.caches[i] && next !in c.loads
    ensures var (after, outcome) := Read(c, key, force, now, next);
      match outcome
      case Fresh(data) => data.Some? ==> Serves(c, key, data)
      case Stale(snapshot, revalidation) => Serves(c, key, Some(snapshot)) && Promises(after, key, revalidation)
      case Absent(promise) => Promises(after, key, promise)
  {
    Reachable(trace, i);
    var (after, outcome) := Read(c, key, force, now, next);
    StepKeeps(c, Reading(key, force, now, next));
    assert Refines(c, key);
    assert Refines(after, key);
    SuccessIsCurrent(c.history, key);
    if !outcome.Fresh? {
      RunningIsCurrent(after.history, key, after.store[key].inflight.value);
    }
  }

  /** Nothing started before an invalidation is current after it, and what settles
      later does not make it so. */
  lemma {:induction false} OldLoadsStayOld(h: seq<Happening>, later: seq<Happening>, id: LoadId)
    requires forall e :: e in later ==> !(e.Started? && e.id == id)
    ensures !Current(h + [Invalidated] + later, id)
    decreases |later|
  {
    var all := h + [Invalidated] + later;
    if later == [] {
      assert Latest(all) == Invalidated;
    } else {
      assert Front(all) == h + [Invalidated] + later[..|later| - 1];
      assert Latest(all) == later[|later| - 1];
      OldLoadsStayOld(h, later[..|later| - 1], id);
    }
  }

  /** The history says the answer is fresh: the read is not forced, and the last success is
      less than fifteen seconds old, or there is none yet although the key was asked for and
      the clock itself is below fifteen seconds. */
  ghost predicate FreshByHistory(h: seq<Happening>, key: Key, force: bool, now: int) {
    var good := LastSuccess(h, key);
    !force && (if good.Some? then now - good.value.at < 15_000 else Asked(h, key) && now < 15_000)
  }

  lemma FreshExactly(trace: Trace, i: nat, c: Cache, key: Key, force: bool, now: int, next: LoadId)
    requires trace.Valid() && i < |trace.caches| && c == trace.caches[i] && next !in c.loads
    ensures Read(c, key, force, now, next).1.Fresh? <==> FreshByHistory(c.history, key, force, now)
  {
    Reachable(trace, i);
    assert Refines(c, key);
  }

  function SnapshotOf(h: seq<Happening>, key: Key): Option<Value> {
    var good := LastSuccess(h, key);
    if good.Some? then good.value.data else None
  }

  /** The promise is the key's running load, or the new one if none is running. */
  ghost predicate Shared(h: seq<Happening>, key: Key, next: LoadId, promise: LoadId) {
    Running(h, key, promise) || (promise == next && forall id: LoadId :: !Running(h, key, id))
  }

  /** The answer, from the history alone: fresh with the last success's value, None only
      before any success; stale exactly when it is not fresh and a last success has a value,
      with that value; absent otherwise; and the last two with the key's one shared load. */
  lemma AnswerExactly(trace: Trace, i: nat, c: Cache, key: Key, force: bool, now: int, next: LoadId)
    requires trace.Valid() && i < |trace.caches| && c == trace.caches[i] && next !in c.loads
    ensures var young, answer := FreshByHistory(c.history, key, force, now), Read(c, key, force, now, next).1;
      var value := SnapshotOf(c.history, key);
      && (young ==> answer == Fresh(value))
      && (!young && value.Some? ==> answer.Stale? && answer.snapshot == value.value && Shared(c.history, key, next, answer.revalidation))
      && (!young && value.None? ==> answer.Absent? && Shared(c.history, key, next, answer.promise))
  {
    Reachable(trace, i);
    assert Refines(c, key);
  }

  /** A read starts a load exactly when it is not fresh and none is running, and otherwise
      leaves the cache as it was. */
  lemma ReadStartsExactly(trace: Trace, i: nat, c: Cache, key: Key, force: bool, now: int, next: LoadId)
    requires trace.Valid() && i < |trace.caches| && c == trace.caches[i] && next !in c.loads
    ensures var after := Read(c, key, force, now, next).0;
      if FreshByHistory(c.history, key, force, now) || exists id: LoadId :: Running(c.history, key, id)
      then after == c
      else after.history == c.history + [Started(next, key)] && Running(after.history, key, next)
  {
    Reachable(trace, i);
    assert Refines(c, key);
    Extended(c.history, Started(next, key));
  }

  /** A failed load changes neither a snapshot nor its age; it only frees the slot. */
  lemma FailureKeepsSnapshots(trace: Trace, i: nat, c: Cache, id: LoadId, key: Key)
    requires trace.Valid() && i < |trace.caches| && c == trace.caches[i] && Enabled(c, Rejection(id))
    ensures var after := Reject(c, id);
      && LastSuccess(after.history, key) == LastSuccess(c.history, key)
      && (key in after.store <==> key in c.store)
      && (key in c.store ==> after.store[key].data == c.store[key].data && after.store[key].fetchedAt == c.store[key].fetchedAt)
      && !Running(after.history, key, id)
  {
    Reachable(trace, i);
    Extended(c.history, Failed(id));
  }
}
