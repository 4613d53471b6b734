/** Loops over a Go `map[int]V`.  Go ranges over a map in an unspecified
    order, so each loop here picks the next key with `:|`, any key not yet
    visited; results are stated for every such order, and the order taken is
    returned as a ghost sequence of keys. */
module MapScan {
  import opened Wrappers

  /** A set of keys with no element in it is the empty set; used to pick the
      next key of a non-empty set with `:|`. */
  lemma NoElementMeansEmpty(s: set<int>)
    ensures (forall k :: k !in s) ==> s == {}
  {
    if forall k :: k !in s {
      assert s == {};
    }
  }

  ghost predicate Distinct(keys: seq<int>) {
    forall i, j :: 0 <= i < j < |keys| ==> keys[i] != keys[j]
  }

  /** A sequence of distinct keys lists each key of a set exactly once only
      if it is as long as the set. */
  lemma {:induction false} EnumerationSize(keys: seq<int>, s: set<int>)
    requires Distinct(keys)
    requires forall k :: k in keys <==> k in s
    ensures |keys| == |s|
  {
    if keys != [] {
      var last := keys[|keys| - 1];
      var init := keys[..|keys| - 1];
      forall k | k in s - {last} ensures k in init {
        var i :| 0 <= i < |keys| && keys[i] == k;
        assert init[i] == k;
      }
      forall k | k in init ensures k in s - {last} {
        var i :| 0 <= i < |init| && init[i] == k;
        assert keys[i] == k;
      }
      EnumerationSize(init, s - {last});
    } else {
      assert forall k :: k !in s;
      assert s == {};
    }
  }

  /** `for k, v := range m { if p(v) { r = append(r, f(v)) } }`: the images
      of the values whose entry passes `p`, one per key, in visiting order. */
  method Enumerate<V, U>(m: map<int, V>, p: V -> bool, f: V -> U) returns (r: seq<U>, ghost keys: seq<int>)
    ensures Distinct(keys)
    ensures forall k :: k in keys <==> k in m && p(m[k])
    ensures |r| == |keys|
    ensures forall i :: 0 <= i < |keys| ==> keys[i] in m && r[i] == f(m[keys[i]])
  {
    r, keys := [], [];
    var remaining := m.Keys;
    ghost var visited: set<int> := {};
    while remaining != {}
      invariant remaining !! visited && remaining + visited == m.Keys
      invariant Distinct(keys)
      invariant forall k :: k in keys <==> k in visited && p(m[k])
      invariant |r| == |keys|
      invariant forall i :: 0 <= i < |keys| ==> keys[i] in m && r[i] == f(m[keys[i]])
      decreases remaining
    {
      NoElementMeansEmpty(remaining);
      var k :| k in remaining;
      if p(m[k]) {
        r, keys := r + [f(m[k])], keys + [k];
      }
      remaining, visited := remaining - {k}, visited + {k};
    }
  }

  /** `for _, v := range m { if key(v) == want { return &v, nil } }`: some
      value with that key field, or nothing when no value has it. */
  method FindAny<V, K(==)>(m: map<int, V>, key: V -> K, want: K) returns (r: Option<V>)
    ensures r.None? <==> forall k :: k in m ==> key(m[k]) != want
    ensures r.Some? ==> exists k :: k in m && m[k] == r.value && key(r.value) == want
  {
    var remaining := m.Keys;
    while remaining != {}
      invariant remaining <= m.Keys
      invariant forall k :: k in m && k !in remaining ==> key(m[k]) != want
      decreases remaining
    {
      NoElementMeansEmpty(remaining);
      var k :| k in remaining;
      if key(m[k]) == want {
        return Some(m[k]);
      }
      remaining := remaining - {k};
    }
    return None;
  }

  /** What every `generateID` in the code base returns for a map with the
      given keys: one more than the largest key, where the running maximum
      starts at 0, so 1 for an empty map or one without positive keys. */
  ghost predicate IsNextId(keys: set<int>, id: int) {
    && id >= 1
    && (forall k :: k in keys ==> k < id)
    && (id == 1 || id - 1 in keys)
  }

  /** The `maxID` loop of `generateID`. */
  method MaxKeyPlusOne<V>(m: map<int, V>) returns (id: int)
    ensures IsNextId(m.Keys, id)
  {
    if |m| == 0 {
      return 1;
    }
    var maxId := 0;
    var remaining := m.Keys;
    while remaining != {}
      invariant remaining <= m.Keys
      invariant maxId >= 0
      invariant forall k :: k in m && k !in remaining ==> k <= maxId
      invariant maxId == 0 || maxId in m
      decreases remaining
    {
      NoElementMeansEmpty(remaining);
      var k :| k in remaining;
      if k > maxId {
        maxId := k;
      }
      remaining := remaining - {k};
    }
    return maxId + 1;
  }

  /** The generated id is fresh and at least 1; with a positive key present it
      is exactly the largest key plus one. */
  lemma NextIdProperties(keys: set<int>, id: int, top: int)
    requires IsNextId(keys, id)
    requires top in keys && top >= 1 && forall k :: k in keys ==> k <= top
    ensures id !in keys && id == top + 1
  {
  }

  /** An empty map, or one whose keys are all at most 0, gets id 1. */
  lemma NextIdWithoutPositiveKeys(keys: set<int>, id: int)
    requires IsNextId(keys, id)
    requires forall k :: k in keys ==> k <= 0
    ensures id == 1
  {
  }
}
