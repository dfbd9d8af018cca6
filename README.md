# ServerMemoryOptimizer bookkeeping, in Dafny

This project models the in-memory bookkeeping of `ServerMemoryOptimizer`
(`memory.py`), a utility object for reducing a server's memory pressure:

- the **object pool** (`get_pooled_object`): a map from string keys to objects
  built by a caller-supplied constructor on the first request for a key and
  never evicted or refreshed afterwards. A constructor that raises leaves
  nothing stored, so the next request for that key tries again;
- the **pressure-cleared memo cache** (`smart_cache`): a wrapper around a
  deterministic function whose `lru_cache(maxsize=None)` table never evicts on
  its own. It is emptied in full before a lookup whenever the sampled system
  memory utilisation (in percent) is above `max_ram_usage * 100`;
- the **leak heuristic** (`check_memory_leak`): true exactly when the number of
  distinct allocation sites in a snapshot is strictly greater than a threshold
  (default 1000).

Files:

- `wrappers.dfy`: `Result`, standing for a value returned or an exception raised.
- `maps.dfy`: two cardinality facts about finite sets and maps, used by both modules below.
- `object_pool.dfy`: module `ObjectPool`. `Lookup` is one pool access as a pure
  step. `Run` folds it over a sequence of requests. The lemmas state the pool's
  lifetime guarantees over any such sequence.
- `smart_cache.dfy`: module `SmartCache`. `Lookup` is one wrapper call as a
  pure step. `Run` folds it over a sequence of calls. The lemmas state that
  a clear never changes what a call returns, for a function that gives equal
  results on equal arguments. They also state that, without pressure, nothing
  is lost and each distinct new argument is computed exactly once.
- `memory_optimizer.dfy`: module `MemoryOptimizer` with two classes.
  `ServerMemoryOptimizer` holds the threshold and the pool, and its methods
  update the pool in place. `CachedFunction` is the wrapper that `smart_cache`
  returns; it holds its own table, updated in place. Each method's contract
  equates its new state and its result with the pure step. The module also
  holds the leak comparison.

Some things the source gets from its environment become explicit here:

- The constructor passed to `get_pooled_object` is a function value
  `() -> Result<Obj, E>`. `GetPooledObject` also returns `invoked`, which tells
  whether that constructor was called.
- The `psutil` utilisation sample is the `utilisation` argument of
  `CachedFunction.Call`.
- The threshold and the utilisation are `real`s, not floats.
- The wrapper keeps a reference to its optimizer and reads `maxRamUsage` on
  every call, as the Python closure reads `self.max_ram_usage`.
- The tracemalloc snapshot is reduced to its count of distinct allocation sites,
  `siteCount`, which is an argument of `CheckMemoryLeak`.

## Model

| member | source | states |
|---|---|---|
| `MemoryOptimizer.ServerMemoryOptimizer.constructor` | memory.py:10-13 | the threshold is the argument (default 0.8); the object pool and the unused `_cache` dictionary start empty |
| `MemoryOptimizer.ServerMemoryOptimizer.GetPooledObject` | memory.py:21-24 | the new pool and the result are those of `ObjectPool.Lookup`; the constructor is called exactly when the key is missing; no entry is lost or replaced; a success is the object now stored under the key |
| `ObjectPool.Lookup` | memory.py:21-24 | the constructor runs iff the key is absent, and its outcome is then what the caller gets; a present key returns its stored object and leaves the pool unchanged; success iff the key is pooled afterwards, with the returned object; every old entry is kept unchanged; only the requested key can be added |
| `ObjectPool.RunRetains` | memory.py:21-24 | over any sequence of requests the pool never loses a key and never replaces a stored object |
| `ObjectPool.RunKeys` | memory.py:22-23 | over any sequence of requests the pool gains only keys that were requested |
| `ObjectPool.RunStoredIsStable` | memory.py:22-24 | every request for a key already in the pool gets exactly the stored object, whatever is requested before it |
| `ObjectPool.RunSameKeySameObject` | memory.py:21-24 | once a request for a key succeeds, every later request for that key gets the identical result |
| `ObjectPool.RunBuiltCount` | memory.py:22-23 | each successful construction adds exactly one pool entry |
| `ObjectPool.RunAllSucceedKeys` | memory.py:22-23 | when no constructor raises, the final pool holds exactly the old keys plus every requested key |
| `ObjectPool.RunAllSucceedBuiltOncePerNewKey` | memory.py:22-23 | when no constructor raises, the constructor runs exactly once per distinct requested key that was not already pooled, however often each key is requested |
| `ObjectPool.BuiltAtMostOncePerKey` | memory.py:22-23 | the number of successful constructions is at most the number of distinct requested keys that were not already pooled |
| `MemoryOptimizer.PoolReuse` | memory.py:21-24 | of two requests for one key, each with its own constructor: the final pool and both results are those of `ObjectPool.Run` over the two requests; if the first succeeds, the second returns the identical object and construction happened only if the key was new; if the first raised, nothing was stored, the second calls its constructor and gets its outcome, and a success there pools that object under the key |
| `MemoryOptimizer.ServerMemoryOptimizer.SmartCache` | memory.py:26-35 | returns a fresh wrapper around `f` with an empty table, tied to this optimizer's threshold |
| `MemoryOptimizer.CachedFunction.constructor` | memory.py:27-29 | a new wrapper has an empty table, which trivially holds only values of `f` |
| `MemoryOptimizer.CachedFunction.Call` | memory.py:31-34 | the call returns `f(args)` whether or not the table was cleared; the table keeps holding only values of `f`; the new table and the result are those of `SmartCache.Lookup` at the optimizer's current threshold |
| `SmartCache.Lookup` | memory.py:27-34 | after the call the table maps the arguments to the returned value; above `threshold * 100` that is its only entry; at or below it, including equality, every prior entry is kept unchanged and only the arguments can be added; `f` is evaluated iff the table was cleared or had no entry; a table holding only values of `f` keeps doing so and then the result is `f(args)` |
| `SmartCache.RunReturnsF` | memory.py:28-34 | over any sequence of calls with any utilisation samples, every call returns `f` of its arguments and the table keeps holding only values of `f` |
| `SmartCache.CalmRunKeeps` | memory.py:27-33 | over a sequence of calls none of which is above the threshold, no entry is dropped or changed |
| `SmartCache.CalmRunGrowsPerEvaluation` | memory.py:27-29 | without pressure each evaluation of `f` adds exactly one table entry |
| `SmartCache.CalmRunKeys` | memory.py:27-33 | without pressure the table ends up with exactly its old keys plus the arguments of the calls |
| `SmartCache.CalmRunEvaluatesNewArgumentsOnce` | memory.py:27-33 | without pressure `f` is evaluated exactly once per distinct argument that was not already in the table, however often it is repeated |
| `MemoryOptimizer.CheckMemoryLeak` | memory.py:37-39 | the site count compared strictly against the threshold (default 1000); its properties are the contracts of `LeakBoundary` and `LeakDefaultThreshold` |
| `MemoryOptimizer.LeakBoundary` | memory.py:39 | a count equal to the threshold is not reported as a leak; one more is |
| `MemoryOptimizer.LeakDefaultThreshold` | memory.py:37-39 | with the default threshold 1000, 1000 sites are not reported and 1001 are |

## Left out

- `stream_large_file` (memory.py:16-19): plain line iteration over an opened file. It is host file I/O.
- `offload_to_sqlite` (memory.py:41-47): runs interpolated SQL through the embedded SQLite engine, a foreign library.
- `offload_to_memmap` (memory.py:49-51): NumPy save and memory-mapped load, a foreign library. Its `np.save` call also passes an `mmap_mode` argument, so what happens depends on that library.
- `tracemalloc.start()` (memory.py:14) and the snapshot with its per-line statistics (memory.py:38-39): a foreign profiler. Only the final comparison is modelled, with the site count as an input.
- `psutil.virtual_memory().percent` (memory.py:32): an OS query. It is the `utilisation` parameter.
- IEEE floating point: the threshold and utilisation are exact `real`s, so a rounding of `max_ram_usage * 100` (e.g. `0.57 * 100` is just below 57 in binary floating point) that could move the boundary by one ulp is not modelled.
- Concurrency: nothing in the source synchronises the pool or the cache, and the model is single-threaded. The duplicate constructions that a race on first access can cause are not modelled.
- The `__main__` driver (memory.py:53-78): a usage example.
- Argument hashing: arguments are an abstract key type `A` with equality. Keyword arguments are folded into that key, and the `TypeError` that `lru_cache` raises for unhashable arguments is not modelled.
- Key equivalence: `A` stands for `lru_cache`'s classes of arguments that compare and hash equal, and `f` is assumed to give equal results on equal arguments. In Python, `(1, 2)` and `(1.0, 2)` share one entry. With `f = lambda a, b: str(a)`, the call `wrapper(1.0, 2)` after `wrapper(1, 2)` returns `'1'`, not `f(1.0, 2)`. A hit also returns the very object stored earlier, not a fresh result. So `SmartCache.RunReturnsF` and `MemoryOptimizer.CachedFunction.Call`'s `r == f(args)` hold only for such an `f`.
- A wrapped function that raises: `f` is a total Dafny function, so the case where the exception propagates and no entry is stored is not modelled.
- Callbacks into the optimizer: `construct` and `f` are effect-free function values, so a constructor or wrapped function that calls back into the pool or the wrapper is not modelled. In Python, a constructor that requests its own key has that inner entry overwritten by the store at memory.py:23, so two callers see two objects for one key. A constructor that pools a dependency adds a second key in one access. A recursive wrapped function that calls its own wrapper fills many entries in one call, and a pressure check inside it can clear the table part-way through. The one-step contracts of `ObjectPool.Lookup` and `SmartCache.Lookup` (only the requested key or arguments are added) rely on this restriction.
- `MemoryOptimizer.CheckMemoryLeak` has no contract of its own, because one would only repeat its comparison. Its properties are stated by `LeakBoundary` and `LeakDefaultThreshold`.
