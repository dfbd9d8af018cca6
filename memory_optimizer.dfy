/**
 * `ServerMemoryOptimizer`: the configured memory threshold, the object pool it
 * fills in place, the memoising wrappers it hands out, and the leak heuristic.
 * Each state-changing method is specified by the pure step of the pool or the
 * cache module, whose lemmas give the lifetime guarantees.
 */
module MemoryOptimizer {
  import opened Wrappers
  import ObjectPool
  import SmartCache

  class ServerMemoryOptimizer<Obj> {
    /** Fraction of total system memory above which memo tables are dropped. */
    var maxRamUsage: real
    /** The object pool: key to the object constructed on its first request. */
    var objectPool: map<string, Obj>
    /** Initialised empty and never read or written by any other operation;
        the source gives it no key or value type, so `map<string, Obj>` is
        only a placeholder. */
    var cache: map<string, Obj>

    constructor (maxRamUsage: real := 0.8)
      ensures this.maxRamUsage == maxRamUsage
      ensures objectPool == map[] && cache == map[]
    {
      this.maxRamUsage := maxRamUsage;
      objectPool := map[];
      cache := map[];
    }

    /** `get_pooled_object`: the pooled object for `key`, constructing and
        storing it first when the key is missing. `invoked` tells whether
        `construct` was called; a `Failure` is the exception it raised, and
        then nothing is stored. */
    method GetPooledObject<E>(key: string, construct: () -> Result<Obj, E>) returns (r: Result<Obj, E>, invoked: bool)
      modifies this`objectPool
      ensures ObjectPool.Lookup(old(objectPool), key, construct) == ObjectPool.Access(objectPool, r, invoked)
      ensures invoked <==> key !in old(objectPool)
      ensures ObjectPool.Retains(old(objectPool), objectPool)
      ensures r.Success? ==> key in objectPool && r.value == objectPool[key]
    {
      invoked := key !in objectPool;
      if invoked {
        var made := construct();
        if made.Failure? {
          return made, true;
        }
        objectPool := objectPool[key := made.value];
      }
      r := Success(objectPool[key]);
    }

    /** `smart_cache`: wraps `f` in a fresh memoising wrapper with an empty
        table, which consults this optimizer's threshold on every call. */
    method SmartCache<A(==), R>(f: A -> R) returns (w: CachedFunction<Obj, A, R>)
      ensures fresh(w) && w.Valid()
      ensures w.owner == this && w.f == f && w.cache == map[]
    {
      w := new CachedFunction(this, f);
    }
  }

  /** The wrapper returned by `smart_cache`, with the table of its
      `lru_cache(maxsize=None)`: one table per wrapped function. */
  class CachedFunction<Obj, A(==), R> {
    const owner: ServerMemoryOptimizer<Obj>
    const f: A -> R
    var cache: map<A, R>

    ghost predicate Valid()
      reads this
    {
      SmartCache.Memoises(cache, f)
    }

    constructor (owner: ServerMemoryOptimizer<Obj>, f: A -> R)
      ensures Valid()
      ensures this.owner == owner && this.f == f && cache == map[]
    {
      this.owner := owner;
      this.f := f;
      cache := map[];
    }

    /** One call of the wrapper with `args`; `utilisation` is the system
        memory use, in percent, sampled just before the lookup. */
    method Call(args: A, utilisation: real) returns (r: R)
      requires Valid()
      modifies this`cache
      ensures Valid()
      ensures r == f(args)
      ensures SmartCache.Lookup(old(cache), f, args, utilisation, owner.maxRamUsage).cache == cache
      ensures SmartCache.Lookup(old(cache), f, args, utilisation, owner.maxRamUsage).result == r
    {
      if SmartCache.Pressured(utilisation, owner.maxRamUsage) {
        cache := map[];
      }
      if args !in cache {
        cache := cache[args := f(args)];
      }
      r := cache[args];
    }
  }

  /** The leak heuristic: `siteCount` stands for the number of distinct
      allocation sites in a fresh allocation snapshot. */
  function CheckMemoryLeak(siteCount: nat, snapshotAfter: int := 1000): bool
  {
    siteCount > snapshotAfter
  }

  /** A count equal to the threshold is not reported; one more is. */
  lemma LeakBoundary(snapshotAfter: nat)
    ensures !CheckMemoryLeak(snapshotAfter, snapshotAfter)
    ensures CheckMemoryLeak(snapshotAfter + 1, snapshotAfter)
  {
  }

  /** With the default threshold, 1000 sites pass and 1001 are reported. */
  lemma LeakDefaultThreshold()
    ensures !CheckMemoryLeak(1000) && CheckMemoryLeak(1001)
  {
  }

  /** A pool client making two requests for one key, with possibly different
      constructors: after a success the second gets the identical object
      without constructing again; after a constructor failure nothing was
      stored, so the second request retries with its own constructor, and a
      success there pools the object. */
  method PoolReuse<Obj, E>(pool: ServerMemoryOptimizer<Obj>, key: string,
                           construct1: () -> Result<Obj, E>, construct2: () -> Result<Obj, E>)
    returns (first: Result<Obj, E>, second: Result<Obj, E>, invocations: nat)
    modifies pool`objectPool
    ensures var t := ObjectPool.Run(old(pool.objectPool), [ObjectPool.Request(key, construct1), ObjectPool.Request(key, construct2)]);
            pool.objectPool == t.pool && [first, second] == t.results
    ensures first.Failure? ==> invocations == 2 && key !in old(pool.objectPool) && second == construct2()
    ensures first.Failure? && second.Success? ==> pool.objectPool == old(pool.objectPool)[key := second.value]
    ensures first.Success? ==> second == first && invocations == (if key in old(pool.objectPool) then 0 else 1)
  {
    var invoked1, invoked2;
    ghost var request1, request2 := ObjectPool.Request(key, construct1), ObjectPool.Request(key, construct2);
    first, invoked1 := pool.GetPooledObject(key, construct1);
    ghost var between := pool.objectPool;
    second, invoked2 := pool.GetPooledObject(key, construct2);
    assert [request1, request2][1..] == [request2] && [request2][1..] == [];
    assert ObjectPool.Run(between, [request2]).results == [second];
    invocations := (if invoked1 then 1 else 0) + (if invoked2 then 1 else 0);
  }
}
