/**
 * The cache of loaded 3D models: a name is loading or loaded, never
 * both; a load is started at most once while it is pending or done.
 * `Entity` stands for the loaded model, whose contents are not modelled.
 */
module ModelCaching {
  import opened Wrappers

  /** How the asynchronous load of one model ended. */
  datatype LoadOutcome<Entity> =
    | MissingAsset        // no such model file in the bundle
    | LoadFailed          // the file could not be loaded
    | Loaded(entity: Entity)

  class ModelCache<Entity> {
    var cache: map<string, Entity>
    var loading: set<string>

    /** A name is never both cached and loading. */
    ghost predicate Valid()
      reads this
    {
      cache.Keys !! loading
    }

    constructor ()
      ensures Valid() && cache == map[] && loading == {}
    {
      cache := map[];
      loading := {};
    }

    /**
     * `preload`: starts a load unless the model is cached or already
     * loading. The load's completion is CompleteLoad.
     */
    method Preload(name: string) returns (started: bool)
      requires Valid()
      modifies this
      ensures Valid()
      ensures started <==> name !in old(cache) && name !in old(loading)
      ensures cache == old(cache)
      ensures started ==> loading == old(loading) + {name}
      ensures !started ==> loading == old(loading)
    {
      if name in cache || name in loading {
        return false;
      }
      loading := loading + {name};
      started := true;
    }

    /**
     * The body of the load task that `Preload` started for `name`, run
     * when that load ends; the name is still loading until then.
     */
    method CompleteLoad(name: string, outcome: LoadOutcome<Entity>)
      requires Valid() && name in loading
      modifies this
      ensures Valid()
      ensures loading == old(loading) - {name}
      ensures outcome.Loaded? ==> cache == old(cache)[name := outcome.entity]
      ensures !outcome.Loaded? ==> cache == old(cache)
    {
      match outcome {
        case MissingAsset =>
          loading := loading - {name};
        case Loaded(entity) =>
          cache := cache[name := entity];
          loading := loading - {name};
        case LoadFailed =>
          loading := loading - {name};
      }
    }

    /** `get`: a copy of the cached model, if there is one. */
    function Get(name: string): (r: Option<Entity>)
      reads this
      ensures r.Some? <==> name in cache
      ensures r.Some? ==> r.value == cache[name]
    {
      if name in cache then Some(cache[name]) else None
    }

    /** `evict`: forgets one model; loads in progress are untouched. */
    method Evict(name: string)
      requires Valid()
      modifies this
      ensures Valid()
      ensures cache == old(cache) - {name}
      ensures Get(name) == None
      ensures forall n :: n != name ==> Get(n) == old(Get(n))
      ensures loading == old(loading)
    {
      cache := cache - {name};
    }

    /** `evictAll`: forgets every model; loads in progress are untouched. */
    method EvictAll()
      requires Valid()
      modifies this
      ensures Valid()
      ensures cache == map[]
      ensures loading == old(loading)
    {
      cache := map[];
    }
  }

  /**
   * A preload followed by its successful completion caches the model, and
   * a second preload of the same name then starts nothing.
   */
  method PreloadThenGet<Entity>(c: ModelCache<Entity>, name: string, e: Entity)
    requires c.Valid() && name !in c.cache && name !in c.loading
    modifies c
    ensures c.Valid() && c.Get(name) == Some(e) && name !in c.loading
  {
    var started := c.Preload(name);
    assert started;
    c.CompleteLoad(name, Loaded(e));
    var again := c.Preload(name);
    assert !again;
  }

  /**
   * Evicting while a load is pending cancels nothing: the load still
   * ends by caching the model.
   */
  method EvictDuringLoad<Entity>(c: ModelCache<Entity>, name: string, e: Entity)
    requires c.Valid() && name !in c.cache && name !in c.loading
    modifies c
    ensures c.Valid() && c.Get(name) == Some(e) && name !in c.loading
  {
    var started := c.Preload(name);
    c.Evict(name);
    c.EvictAll();
    assert name in c.loading;
    c.CompleteLoad(name, Loaded(e));
  }
}
