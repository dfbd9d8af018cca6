/**
 * The bookkeeping of the object pool of `ServerMemoryOptimizer`: a map from
 * string keys to lazily constructed objects, filled on first request and never
 * evicted. `Lookup` is one call of `get_pooled_object`; `Run` is a lifetime of
 * such calls, over which the lemmas below state the pool's guarantees.
 */
module ObjectPool {
  import opened Wrappers
  import Maps

  type Pool<Obj> = map<string, Obj>

  /** Every entry of `older` is still in `newer`, holding the same object. */
  ghost predicate Retains<Obj>(older: Pool<Obj>, newer: Pool<Obj>)
  {
    forall k :: k in older ==> k in newer && newer[k] == older[k]
  }

  /** What one pool access leaves behind: the new pool, what the caller
      receives, and whether the constructor was called. */
  datatype Access<Obj, E> = Access(pool: Pool<Obj>, result: Result<Obj, E>, invoked: bool)

  /** One call of `get_pooled_object(key, construct)` on `pool`. A constructor
      that raises leaves the pool as it was and the exception reaches the caller. */
  function Lookup<Obj, E>(pool: Pool<Obj>, key: string, construct: () -> Result<Obj, E>): (a: Access<Obj, E>)
    // the constructor runs exactly when the key is missing, and then its outcome is the caller's
    ensures a.invoked <==> key !in pool
    ensures a.invoked ==> a.result == construct()
    // a present key hands back the stored object and changes nothing
    ensures key in pool ==> a.result == Success(pool[key]) && a.pool == pool
    // what the caller receives is what the pool holds under the key
    ensures a.result.Success? <==> key in a.pool
    ensures a.result.Success? ==> a.result.value == a.pool[key]
    // nothing is evicted or replaced, and only the requested key can be added
    ensures Retains(pool, a.pool)
    ensures a.pool.Keys <= pool.Keys + {key}
  {
    if key in pool then
      Access(pool, Success(pool[key]), false)
    else
      match construct()
      case Success(obj) => Access(pool[key := obj], Success(obj), true)
      case Failure(e) => Access(pool, Failure(e), true)
  }

  /** One request made to the pool by a caller. */
  datatype Request<Obj, E> = Request(key: string, construct: () -> Result<Obj, E>)

  /** The set of keys asked for in `requests`. */
  function RequestedKeys<Obj, E>(requests: seq<Request<Obj, E>>): set<string>
  {
    set i | 0 <= i < |requests| :: requests[i].key
  }

  /** The pool after a sequence of requests, what each request received, and
      how many objects were successfully constructed along the way. */
  datatype Trace<Obj, E> = Trace(pool: Pool<Obj>, results: seq<Result<Obj, E>>, built: nat)

  function Run<Obj, E>(pool: Pool<Obj>, requests: seq<Request<Obj, E>>): (t: Trace<Obj, E>)
    ensures |t.results| == |requests|
    decreases |requests|
  {
    if requests == [] then
      Trace(pool, [], 0)
    else
      var step := Lookup(pool, requests[0].key, requests[0].construct);
      var rest := Run(step.pool, requests[1..]);
      var built := if step.invoked && step.result.Success? then 1 else 0;
      Trace(rest.pool, [step.result] + rest.results, built + rest.built)
  }

  /** The pool never loses an entry and never replaces a stored object. */
  lemma {:induction false} RunRetains<Obj, E>(pool: Pool<Obj>, requests: seq<Request<Obj, E>>)
    ensures Retains(pool, Run(pool, requests).pool)
    decreases |requests|
  {
    if requests != [] {
      var step := Lookup(pool, requests[0].key, requests[0].construct);
      RunRetains(step.pool, requests[1..]);
    }
  }

  /** The pool only ever gains keys that were asked for. */
  lemma {:induction false} RunKeys<Obj, E>(pool: Pool<Obj>, requests: seq<Request<Obj, E>>)
    ensures Run(pool, requests).pool.Keys <= pool.Keys + RequestedKeys(requests)
    decreases |requests|
  {
    if requests != [] {
      var step := Lookup(pool, requests[0].key, requests[0].construct);
      RunKeys(step.pool, requests[1..]);
      forall k | k in RequestedKeys(requests[1..]) ensures k in RequestedKeys(requests) {
        var i :| 0 <= i < |requests[1..]| && requests[1..][i].key == k;
        assert requests[i + 1].key == k;
      }
      assert requests[0].key in RequestedKeys(requests);
    }
  }

  /** A key already in the pool is answered with its stored object by every
      request for it, whatever else is requested in between. */
  lemma {:induction false} RunStoredIsStable<Obj, E>(pool: Pool<Obj>, requests: seq<Request<Obj, E>>, i: nat)
    requires i < |requests| && requests[i].key in pool
    ensures Run(pool, requests).results[i] == Success(pool[requests[i].key])
    decreases i
  {
    var step := Lookup(pool, requests[0].key, requests[0].construct);
    if i > 0 {
      RunStoredIsStable(step.pool, requests[1..], i - 1);
    }
  }

  /** Two requests for the same key receive the identical object: once a
      request succeeds, every later request for that key gets what it got. */
  lemma {:induction false} RunSameKeySameObject<Obj, E>(pool: Pool<Obj>, requests: seq<Request<Obj, E>>, i: nat, j: nat)
    requires i < j < |requests| && requests[i].key == requests[j].key
    requires Run(pool, requests).results[i].Success?
    ensures Run(pool, requests).results[j] == Run(pool, requests).results[i]
    decreases i
  {
    var step := Lookup(pool, requests[0].key, requests[0].construct);
    if i == 0 {
      RunStoredIsStable(step.pool, requests[1..], j - 1);
    } else {
      RunSameKeySameObject(step.pool, requests[1..], i - 1, j - 1);
    }
  }

  /** Each successful construction adds exactly one entry to the pool. */
  lemma {:induction false} RunBuiltCount<Obj, E>(pool: Pool<Obj>, requests: seq<Request<Obj, E>>)
    ensures |Run(pool, requests).pool| == |pool| + Run(pool, requests).built
    decreases |requests|
  {
    if requests != [] {
      var step := Lookup(pool, requests[0].key, requests[0].construct);
      RunBuiltCount(step.pool, requests[1..]);
    }
  }

  /** The constructor succeeds at most once per distinct key that was not
      already pooled, however often each key is requested. */
  lemma BuiltAtMostOncePerKey<Obj, E>(pool: Pool<Obj>, requests: seq<Request<Obj, E>>)
    ensures Run(pool, requests).built <= |RequestedKeys(requests) - pool.Keys|
  {
    var t := Run(pool, requests);
    RunBuiltCount(pool, requests);
    RunKeys(pool, requests);
    RunRetains(pool, requests);
    assert pool.Keys + RequestedKeys(requests) == pool.Keys + (RequestedKeys(requests) - pool.Keys);
    Maps.SubsetCardinality(t.pool.Keys, pool.Keys + (RequestedKeys(requests) - pool.Keys));
  }

  /** Every constructor in the requests succeeds. */
  predicate AllSucceed<Obj, E>(requests: seq<Request<Obj, E>>)
  {
    forall i :: 0 <= i < |requests| ==> requests[i].construct().Success?
  }

  /** When no constructor raises, every requested key ends up pooled. */
  lemma {:induction false} RunAllSucceedKeys<Obj, E>(pool: Pool<Obj>, requests: seq<Request<Obj, E>>)
    requires AllSucceed(requests)
    ensures Run(pool, requests).pool.Keys == pool.Keys + RequestedKeys(requests)
    decreases |requests|
  {
    if requests != [] {
      var step := Lookup(pool, requests[0].key, requests[0].construct);
      assert requests[0].construct().Success?;
      assert AllSucceed(requests[1..]) by {
        forall i | 0 <= i < |requests[1..]| ensures requests[1..][i].construct().Success? {
          assert requests[1..][i] == requests[i + 1];
        }
      }
      RunAllSucceedKeys(step.pool, requests[1..]);
      assert RequestedKeys(requests) == {requests[0].key} + RequestedKeys(requests[1..]) by {
        forall k | k in RequestedKeys(requests) ensures k in {requests[0].key} + RequestedKeys(requests[1..]) {
          var i :| 0 <= i < |requests| && requests[i].key == k;
          if i > 0 { assert requests[1..][i - 1] == requests[i]; }
        }
        forall k | k in RequestedKeys(requests[1..]) ensures k in RequestedKeys(requests) {
          var i :| 0 <= i < |requests[1..]| && requests[1..][i].key == k;
          assert requests[i + 1] == requests[1..][i];
        }
        assert requests[0].key in RequestedKeys(requests);
      }
    }
  }

  /** When no constructor raises, the constructor runs successfully exactly
      once per distinct requested key that was not already pooled. */
  lemma RunAllSucceedBuiltOncePerNewKey<Obj, E>(pool: Pool<Obj>, requests: seq<Request<Obj, E>>)
    requires AllSucceed(requests)
    ensures Run(pool, requests).built == |RequestedKeys(requests) - pool.Keys|
  {
    RunBuiltCount(pool, requests);
    RunAllSucceedKeys(pool, requests);
    Maps.GrowthCardinality(pool, Run(pool, requests).pool, RequestedKeys(requests));
  }
}
