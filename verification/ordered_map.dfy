/**
 * Python dictionaries from a metadata type name to a list of member names.
 * A Python dict remembers the order in which its keys were first inserted;
 * `keys` holds that order and `values` the current value of each key.
 */
module OrderedMaps {

  /** No element occurs twice: each one is absent from the part before it. */
  predicate Distinct(xs: seq<string>) {
    xs == [] || (xs[|xs| - 1] !in xs[..|xs| - 1] && Distinct(xs[..|xs| - 1]))
  }

  /** In a distinct sequence, no element occurs before its own position. */
  lemma {:induction false} DistinctAt(xs: seq<string>, i: nat)
    requires Distinct(xs) && i < |xs|
    ensures xs[i] !in xs[..i]
  {
    var n := |xs| - 1;
    if i < n {
      DistinctAt(xs[..n], i);
      assert xs[..n][..i] == xs[..i];
    }
  }

  datatype OrderedMap = OrderedMap(keys: seq<string>, values: map<string, seq<string>>) {

    /** Every key occurs once in the insertion order, and exactly the keys of the map occur. */
    predicate Valid() {
      Distinct(keys)
      && (forall k :: k in values ==> k in keys)
      && (forall k :: k in keys ==> k in values)
    }

    /** `d.get(k, [])`. */
    function Get(k: string): seq<string> {
      if k in values then values[k] else []
    }

    /**
     * `d[k] = v`: an existing key keeps its place in the order and gets the new
     * value; a new key goes to the end.
     */
    function Put(k: string, v: seq<string>): (r: OrderedMap)
      ensures Valid() ==> r.Valid()
    {
      assert (keys + [k])[..|keys|] == keys;
      OrderedMap(if k in values then keys else keys + [k], values[k := v])
    }

    /** `d[k].append(v)` on a `defaultdict(list)`: a missing key starts as `[]`. */
    function AppendTo(k: string, v: string): (r: OrderedMap)
      ensures Valid() ==> r.Valid()
      ensures r.Get(k) == Get(k) + [v]
    {
      Put(k, Get(k) + [v])
    }

    /**
     * What `d[k] = v` does: `k` now maps to `v`, every other key keeps its
     * value, and `k` keeps its place in the order or, when new, goes last.
     */
    lemma PutSpec(k: string, v: seq<string>)
      ensures Valid() ==> Put(k, v).Valid()
      ensures Put(k, v).Get(k) == v
      ensures Put(k, v).keys == if k in values then keys else keys + [k]
      ensures forall k' :: k' != k ==> Put(k, v).Get(k') == Get(k')
    {
    }

    /**
     * What `d[k].append(v)` does: `k`'s list, `[]` when missing, gains `v` at
     * its end; every other key keeps its value, and the order changes only by
     * a new `k` going last.
     */
    lemma AppendToSpec(k: string, v: string)
      ensures Valid() ==> AppendTo(k, v).Valid()
      ensures AppendTo(k, v).Get(k) == Get(k) + [v]
      ensures AppendTo(k, v).keys == if k in values then keys else keys + [k]
      ensures forall k' :: k' != k ==> AppendTo(k, v).Get(k') == Get(k')
    {
      PutSpec(k, Get(k) + [v]);
    }
  }

  const Empty := OrderedMap([], map[])
}
