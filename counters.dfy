/** A `defaultdict(int)` that is only ever bumped with `+= 1`: a map of counts
    together with the order in which keys were first inserted (Python dicts
    iterate in insertion order, and the exported rows depend on it). */
module Counters {

  datatype Counter = Counter(counts: map<string, nat>, order: seq<string>) {

    /** Representation invariant: `order` lists every key exactly once, and
        every stored count was created by at least one increment. */
    ghost predicate Valid() {
      && (forall i, j :: 0 <= i < j < |order| ==> order[i] != order[j])
      && (forall k :: k in counts <==> k in order)
      && (forall k :: k in counts ==> counts[k] >= 1)
    }

    /** A specification read, like `d.get(k, 0)`: the count of `k`, or 0
        when it is absent, without inserting it. (Python's `d[k]` would insert
        a missing key; apart from `+= 1`, modelled by `Increment`, the analyzer
        only reads keys that are present.) */
    function Get(k: string): nat {
      if k in counts then counts[k] else 0
    }

    /** `d[k] += 1`: a missing key is created (and appended to the iteration
        order), every other key keeps its count. */
    function Increment(k: string): (r: Counter)
      ensures Valid() ==> r.Valid()
      ensures r.Get(k) == Get(k) + 1
      ensures forall j :: j != k ==> r.Get(j) == Get(j)
      ensures k in r.counts && r.counts.Keys == counts.Keys + {k}
      ensures r.order == if k in counts then order else order + [k]
    {
      if k in counts then Counter(counts[k := counts[k] + 1], order)
      else Counter(counts[k := 1], order + [k])
    }
  }

  /** A fresh `defaultdict(int)`. */
  const EMPTY: Counter := Counter(map[], [])

  lemma EmptyIsValid()
    ensures EMPTY.Valid()
  {
  }
}
