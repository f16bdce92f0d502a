/** The shared server-state cache (`dataCache.ts`): its store and generation as
    they are updated in place, against a reference that only reads the history of
    invalidations and loader outcomes. */
module DataCache {
  import opened Wrappers

  type Key = nat
  type Value = nat
  type LoadId = nat

  const FRESH_MS := 15_000

  /** `data` is None while the JavaScript value is undefined. */
  datatype Entry = Entry(generation: nat, fetchedAt: int, data: Option<Value>, inflight: Option<LoadId>)

  /** A loader's promise with the closure that will run when it settles. */
  datatype Load = Load(key: Key, generation: nat, settled: bool)

  datatype Outcome =
    | Fresh(data: Option<Value>)
    | Stale(snapshot: Value, revalidation: LoadId)
    | Absent(promise: LoadId)

  datatype Happening =
    | Invalidated
    | Started(id: LoadId, key: Key)
    | Succeeded(id: LoadId, key: Key, data: Option<Value>, at: int)
    | Failed(id: LoadId)

  /** `history` is read by no operation. */
  datatype Cache = Cache(generation: nat, store: map<Key, Entry>, loads: map<LoadId, Load>, history: seq<Happening>)

  const EMPTY := Cache(0, map[], map[], [])

  // ---- the operations --------------------------------------------------------------

  predicate IsFresh(entry: Entry, now: int) {
    now - entry.fetchedAt < FRESH_MS
  }

  function Valid(c: Cache, key: Key): (cached: Option<Entry>)
  {
    if key in c.store && c.store[key].generation == c.generation then Some(c.store[key]) else None
  }

  function Invalidate(c: Cache): Cache {
    Cache(c.generation + 1, map[], c.loads, c.history + [Invalidated])
  }

  /** Serve the fresh hit, or join or start (as load `id`) the key's request. */
  function Read(c: Cache, key: Key, force: bool, now: int, id: LoadId): (Cache, Outcome) {
    var cached := Valid(c, key);
    if cached.Some? && IsFresh(cached.value, now) && !force then (c, Fresh(cached.value.data))
    else
      var joined := if cached.Some? then cached.value.inflight else None;
      var promise := if joined.Some? then joined.value else id;
      var after := if joined.Some? then c else Start(c, key, id);
      if cached.Some? && cached.value.data.Some? then (after, Stale(cached.value.data.value, promise))
      else (after, Absent(promise))
  }

  function Start(c: Cache, key: Key, id: LoadId): Cache {
    var cached := Valid(c, key);
    var entry := Entry(c.generation,
                       if cached.Some? then cached.value.fetchedAt else 0,
                       if cached.Some? then cached.value.data else None,
                       Some(id));
    Cache(c.generation, c.store[key := entry], c.loads[id := Load(key, c.generation, false)], c.history + [Started(id, key)])
  }

  function Resolve(c: Cache, id: LoadId, data: Option<Value>, now: int): Cache
    requires id in c.loads
  {
    var load := c.loads[id];
    var store := if c.generation == load.generation
                 then c.store[load.key := Entry(load.generation, now, data, None)] else c.store;
    Cache(c.generation, store, c.loads[id := load.(settled := true)], c.history + [Succeeded(id, load.key, data, now)])
  }

  function Reject(c: Cache, id: LoadId): Cache
    requires id in c.loads
  {
    var load := c.loads[id];
    var store := if c.generation == load.generation && load.key in c.store && c.store[load.key].inflight == Some(id)
                 then c.store[load.key := c.store[load.key].(inflight := None)] else c.store;
    Cache(c.generation, store, c.loads[id := load.(settled := true)], c.history + [Failed(id)])
  }

  // ---- the same operations in place --------------------------------------------------

  class SharedCache {
    var store: map<Key, Entry>
    var generation: nat
    var loads: map<LoadId, Load>
    ghost var history: seq<Happening>

    ghost function View(): Cache
      reads this
    {
      Cache(generation, store, loads, history)
    }

    constructor ()
      ensures View() == EMPTY
    {
      store, generation, loads, history := map[], 0, map[], [];
    }

    method InvalidateDataCache()
      modifies this
      ensures View() == Invalidate(old(View()))
    {
      generation := generation + 1;
      store := map[];
      history := history + [Invalidated];
    }

    method ReadCached(key: Key, force: bool, now: int, next: LoadId) returns (outcome: Outcome)
      requires next !in loads
      modifies this
      ensures (View(), outcome) == Read(old(View()), key, force, now, next)
    {
      var cached := if key in store then Some(store[key]) else None;
      var valid := cached.Some? && cached.value.generation == generation;
      if valid && now - cached.value.fetchedAt < FRESH_MS && !force {
        return Fresh(cached.value.data);
      }
      var inflight := if valid then cached.value.inflight else None;
      if inflight.None? {
        var myGeneration := generation;
        inflight := Some(next);
        loads := loads[next := Load(key, myGeneration, false)];
        store := store[key := Entry(
          myGeneration,
          if valid then cached.value.fetchedAt else 0,
          if valid then cached.value.data else None,
          inflight)];
        history := history + [Started(next, key)];
      }
      if valid && cached.value.data.Some? {
        return Stale(cached.value.data.value, inflight.value);
      }
      return Absent(inflight.value);
    }

    method LoaderResolved(id: LoadId, data: Option<Value>, now: int)
      requires id in loads && !loads[id].settled
      modifies this
      ensures View() == Resolve(old(View()), id, data, now)
    {
      var load := loads[id];
      if generation == load.generation {
        store := store[load.key := Entry(load.generation, now, data, None)];
      }
      loads := loads[id := load.(settled := true)];
      history := history + [Succeeded(id, load.key, data, now)];
    }

    method LoaderFailed(id: LoadId)
      requires id in loads && !loads[id].settled
      modifies this
      ensures View() == Reject(old(View()), id)
    {
      var load := loads[id];
      if generation == load.generation {
        if load.key in store && store[load.key].inflight == Some(id) {
          store := store[load.key := store[load.key].(inflight := None)];
        }
      }
      loads := loads[id := load.(settled := true)];
      history := history + [Failed(id)];
    }
  }
}
