/** Per-thread stores, created on first use (state/registry.py), and the tools
    that change them (state/tools.py). */
module Registry {
  import opened Wrappers
  import opened Store

  /** What a cached store is: the configuration it was built from, and its data. */
  datatype Cached = Cached(cfg: Config, data: Data)

  type Cache = map<string, Cached>

  /** A thread's first use; `loaded` is what the skill directory holds, if it
      can be loaded. */
  function Touched(cache: Cache, thread: string, loaded: Option<Config>): (r: Cache) {
    if thread in cache || loaded.None? then cache
    else cache[thread := Cached(loaded.value, loaded.value.SeedData())]
  }

  function Operated(cache: Cache, thread: string, op: Op): (r: Cache)
    requires thread in cache
  {
    cache[thread := cache[thread].(data := Apply(cache[thread].cfg, cache[thread].data, op).0)]
  }

  function ResetThread(cache: Cache, thread: string): (r: Cache) {
    if thread in cache then Operated(cache, thread, Op.Reset) else cache
  }

  class StoreRegistry {
    var stores: map<string, SimulationStore>

    /** Every cached store is well-formed, and no two threads share one. */
    ghost predicate Valid()
      reads this, stores.Values
    {
      && (forall t | t in stores :: stores[t].Valid())
      && forall t, u | t in stores && u in stores && t != u :: stores[t] != stores[u]
    }

    ghost function View(): (r: Cache)
      reads this, stores.Values
    {
      map t | t in stores :: Cached(stores[t].cfg, stores[t].data)
    }

    constructor ()
      ensures Valid() && View() == map[]
    {
      stores := map[];
    }

    /** `loaded` is read only when the thread has no store yet; without it,
        loading raises and nothing is cached. */
    method ForThread(thread: string, loaded: Option<Config>) returns (store: Option<SimulationStore>)
      requires Valid()
      modifies this
      ensures Valid() && View() == Touched(old(View()), thread, loaded)
      ensures store.Some? <==> thread in stores
      ensures store.Some? ==> store.value == stores[thread]
      ensures thread !in old(stores) && store.Some? ==> fresh(store.value)
      ensures forall t | t in old(stores) :: t in stores && stores[t] == old(stores[t])
    {
      if thread !in stores {
        if loaded.None? { return None; }
        var created := new SimulationStore(loaded.value);
        assert forall t | t in stores :: stores[t] != created;
        stores := stores[thread := created];
      }
      store := Some(stores[thread]);
    }

    /** Only the named thread's store goes back to its seed. */
    method Reset(thread: string)
      requires Valid()
      modifies stores.Values
      ensures Valid() && stores == old(stores) && View() == ResetThread(old(View()), thread)
    {
      if thread in stores {
        var store := stores[thread];
        assert store in stores.Values;
        store.Reset();
      }
    }

    method Drop(thread: string)
      requires Valid()
      modifies this
      ensures Valid() && View() == old(View()) - {thread}
    {
      stores := stores - {thread};
    }

    method DropAll()
      modifies this
      ensures Valid() && View() == map[]
    {
      stores := map[];
    }
  }

  lemma TouchedHas(cache: Cache, thread: string, loaded: Option<Config>)
    ensures thread in Touched(cache, thread, loaded) <==> thread in cache || loaded.Some?
    ensures thread !in Touched(cache, thread, loaded) ==> Touched(cache, thread, loaded) == cache
  {
  }

  /** A tool call that inserts, updates or deletes in the store of its thread;
      none if that store cannot be loaded. */
  method StateTool(registry: StoreRegistry, thread: string, loaded: Option<Config>, op: Op) returns (r: Option<Outcome<Row>>)
    requires registry.Valid() && !op.Reset?
    modifies registry, registry.stores.Values
    ensures registry.Valid()
    ensures r.Some? <==> thread in old(registry.View()) || loaded.Some?
    ensures r.None? ==> registry.View() == old(registry.View())
    ensures r.Some? ==>
              var cache := Touched(old(registry.View()), thread, loaded);
              && registry.View() == Operated(cache, thread, op)
              && r.value == Apply(cache[thread].cfg, cache[thread].data, op).1
  {
    hide Apply, Touched;
    TouchedHas(registry.View(), thread, loaded);
    var found := registry.ForThread(thread, loaded);
    assert thread in registry.stores <==> thread in registry.View();
    if found.None? { return None; }
    var store := found.value;
    assert forall t | t in registry.stores && t != thread :: registry.stores[t] != store;
    ghost var cache := registry.View();
    var outcome := Operate(store, op);
    r := Some(outcome);
    assert forall t | t in cache && t != thread :: registry.View()[t] == cache[t];
    assert registry.View() == Operated(cache, thread, op);
  }

  method Operate(store: SimulationStore, op: Op) returns (r: Outcome<Row>)
    requires store.Valid() && !op.Reset?
    modifies store
    ensures store.Valid() && (store.data, r) == Apply(store.cfg, old(store.data), op)
  {
    match op
    case Insert(name, row) => r := store.InsertRow(name, row);
    case Update(name, id, patch) => r := store.UpdateRow(name, id, patch);
    case Delete(name, id) => r := store.DeleteRow(name, id);
  }
}
