/** Cardinality facts about finite sets and maps, shared by the pool and the cache. */
module Maps {

  /** A subset is no larger than its superset. */
  lemma {:induction false} SubsetCardinality<T>(a: set<T>, b: set<T>)
    requires a <= b
    ensures |a| <= |b|
    decreases |b|
  {
    if a != {} {
      var x :| x in a;
      SubsetCardinality(a - {x}, b - {x});
    }
  }

  /** A map whose keys are the old ones plus `added` has grown by the added keys that are new. */
  lemma GrowthCardinality<K, V>(older: map<K, V>, newer: map<K, V>, added: set<K>)
    requires newer.Keys == older.Keys + added
    ensures |newer| == |older| + |added - older.Keys|
  {
  }
}
