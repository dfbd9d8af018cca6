/**
 * The bookkeeping of `smart_cache`: an unbounded memo table in front of a
 * deterministic function `f`, cleared in full whenever the sampled system
 * memory utilisation (a percentage) exceeds the configured fraction times 100,
 * and never trimmed otherwise. `Lookup` is one call of the returned wrapper;
 * `Run` is a sequence of calls, over which the lemmas below state the guarantees.
 */
module SmartCache {
  import Maps

  /** The pressure test made before every lookup. */
  predicate Pressured(utilisation: real, maxRamUsage: real)
  {
    utilisation > maxRamUsage * 100.0
  }

  /** Every stored entry is the value of `f` at its arguments. */
  ghost predicate Memoises<A, R>(cache: map<A, R>, f: A -> R)
  {
    forall a :: a in cache ==> cache[a] == f(a)
  }

  /** What one wrapper call leaves behind: the new table, what the caller
      receives, and whether `f` had to be evaluated. */
  datatype Access<A, R> = Access(cache: map<A, R>, result: R, recomputed: bool)

  /** One call of the wrapper with `args`, when the utilisation sample is `utilisation`. */
  function Lookup<A(==), R>(cache: map<A, R>, f: A -> R, args: A, utilisation: real, maxRamUsage: real): (a: Access<A, R>)
    // every call leaves an entry for its arguments, holding what it returned
    ensures args in a.cache && a.cache[args] == a.result
    // under pressure the table is emptied first, so that entry is its only one
    ensures Pressured(utilisation, maxRamUsage) ==> a.cache.Keys == {args}
    // otherwise, including a sample exactly at the threshold, every prior entry is kept
    ensures !Pressured(utilisation, maxRamUsage) ==>
              a.cache.Keys == cache.Keys + {args} &&
              forall k :: k in cache ==> a.cache[k] == cache[k]
    // f is evaluated exactly when the table has no entry to answer from
    ensures a.recomputed <==> Pressured(utilisation, maxRamUsage) || args !in cache
    ensures a.recomputed ==> a.result == f(args)
    // a table that memoises f stays so, and then the answer is always f(args)
    ensures Memoises(cache, f) ==> Memoises(a.cache, f) && a.result == f(args)
  {
    var live := if Pressured(utilisation, maxRamUsage) then map[] else cache;
    if args in live then
      Access(live, live[args], false)
    else
      Access(live[args := f(args)], f(args), true)
  }

  /** One call of the wrapper: its arguments and the utilisation sampled before it. */
  datatype Call<A> = Call(args: A, utilisation: real)

  /** The table after a sequence of calls, what each call returned, and how
      many times `f` was evaluated. */
  datatype Trace<A, R> = Trace(cache: map<A, R>, results: seq<R>, evaluations: nat)

  function Run<A(==), R>(cache: map<A, R>, f: A -> R, maxRamUsage: real, calls: seq<Call<A>>): (t: Trace<A, R>)
    ensures |t.results| == |calls|
    decreases |calls|
  {
    if calls == [] then
      Trace(cache, [], 0)
    else
      var step := Lookup(cache, f, calls[0].args, calls[0].utilisation, maxRamUsage);
      var rest := Run(step.cache, f, maxRamUsage, calls[1..]);
      Trace(rest.cache, [step.result] + rest.results, (if step.recomputed then 1 else 0) + rest.evaluations)
  }

  /** Clearing never costs correctness: starting from a table that memoises f,
      every call of any run returns f of its arguments, and the table still memoises f. */
  lemma {:induction false} RunReturnsF<A, R>(cache: map<A, R>, f: A -> R, maxRamUsage: real, calls: seq<Call<A>>)
    requires Memoises(cache, f)
    ensures Memoises(Run(cache, f, maxRamUsage, calls).cache, f)
    ensures forall i :: 0 <= i < |calls| ==> Run(cache, f, maxRamUsage, calls).results[i] == f(calls[i].args)
    decreases |calls|
  {
    if calls != [] {
      var step := Lookup(cache, f, calls[0].args, calls[0].utilisation, maxRamUsage);
      RunReturnsF(step.cache, f, maxRamUsage, calls[1..]);
      var t := Run(cache, f, maxRamUsage, calls);
      forall i | 0 <= i < |calls| ensures t.results[i] == f(calls[i].args) {
        if i > 0 {
          assert t.results[i] == Run(step.cache, f, maxRamUsage, calls[1..]).results[i - 1];
          assert calls[i] == calls[1..][i - 1];
        }
      }
    }
  }

  /** No call of the run is under memory pressure. */
  predicate Calm<A>(maxRamUsage: real, calls: seq<Call<A>>)
  {
    forall i :: 0 <= i < |calls| ==> !Pressured(calls[i].utilisation, maxRamUsage)
  }

  /** Without pressure nothing is ever dropped from the table. */
  lemma {:induction false} CalmRunKeeps<A, R>(cache: map<A, R>, f: A -> R, maxRamUsage: real, calls: seq<Call<A>>)
    requires Calm(maxRamUsage, calls)
    ensures forall k :: k in cache ==> k in Run(cache, f, maxRamUsage, calls).cache &&
                                         Run(cache, f, maxRamUsage, calls).cache[k] == cache[k]
    decreases |calls|
  {
    if calls != [] {
      var step := Lookup(cache, f, calls[0].args, calls[0].utilisation, maxRamUsage);
      assert !Pressured(calls[0].utilisation, maxRamUsage);
      CalmRunKeeps(step.cache, f, maxRamUsage, calls[1..]);
    }
  }

  /** Without pressure each evaluation of f adds exactly one entry to the table. */
  lemma {:induction false} CalmRunGrowsPerEvaluation<A, R>(cache: map<A, R>, f: A -> R, maxRamUsage: real, calls: seq<Call<A>>)
    requires Calm(maxRamUsage, calls)
    ensures |Run(cache, f, maxRamUsage, calls).cache| == |cache| + Run(cache, f, maxRamUsage, calls).evaluations
    decreases |calls|
  {
    if calls != [] {
      var step := Lookup(cache, f, calls[0].args, calls[0].utilisation, maxRamUsage);
      assert !Pressured(calls[0].utilisation, maxRamUsage);
      if step.recomputed {
        assert step.cache == cache[calls[0].args := f(calls[0].args)];
      } else {
        assert step.cache == cache;
      }
      CalmRunGrowsPerEvaluation(step.cache, f, maxRamUsage, calls[1..]);
    }
  }

  /** The set of arguments the calls were made with. */
  function ArgsOf<A>(calls: seq<Call<A>>): set<A>
  {
    set i | 0 <= i < |calls| :: calls[i].args
  }

  /** Without pressure the table ends up with exactly its old keys and the
      arguments of the calls. */
  lemma {:induction false} CalmRunKeys<A, R>(cache: map<A, R>, f: A -> R, maxRamUsage: real, calls: seq<Call<A>>)
    requires Calm(maxRamUsage, calls)
    ensures Run(cache, f, maxRamUsage, calls).cache.Keys == cache.Keys + ArgsOf(calls)
    decreases |calls|
  {
    if calls != [] {
      var step := Lookup(cache, f, calls[0].args, calls[0].utilisation, maxRamUsage);
      assert !Pressured(calls[0].utilisation, maxRamUsage);
      assert Calm(maxRamUsage, calls[1..]) by {
        forall i | 0 <= i < |calls[1..]| ensures !Pressured(calls[1..][i].utilisation, maxRamUsage) {
          assert calls[1..][i] == calls[i + 1];
        }
      }
      CalmRunKeys(step.cache, f, maxRamUsage, calls[1..]);
      assert ArgsOf(calls) == {calls[0].args} + ArgsOf(calls[1..]) by {
        forall a | a in ArgsOf(calls) ensures a in {calls[0].args} + ArgsOf(calls[1..]) {
          var i :| 0 <= i < |calls| && calls[i].args == a;
          if i > 0 { assert calls[1..][i - 1] == calls[i]; }
        }
        forall a | a in ArgsOf(calls[1..]) ensures a in ArgsOf(calls) {
          var i :| 0 <= i < |calls[1..]| && calls[1..][i].args == a;
          assert calls[i + 1] == calls[1..][i];
        }
        assert calls[0].args in ArgsOf(calls);
      }
    }
  }

  /** Without pressure f is evaluated exactly once for each distinct argument
      that was not already in the table, however often it is repeated. */
  lemma CalmRunEvaluatesNewArgumentsOnce<A, R>(cache: map<A, R>, f: A -> R, maxRamUsage: real, calls: seq<Call<A>>)
    requires Calm(maxRamUsage, calls)
    ensures Run(cache, f, maxRamUsage, calls).evaluations == |ArgsOf(calls) - cache.Keys|
  {
    CalmRunGrowsPerEvaluation(cache, f, maxRamUsage, calls);
    CalmRunKeys(cache, f, maxRamUsage, calls);
    Maps.GrowthCardinality(cache, Run(cache, f, maxRamUsage, calls).cache, ArgsOf(calls));
  }
}
