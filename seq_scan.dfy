/** Linear scans over a Go slice, the loop shape every slice-backed store
    operation uses: `for i, x := range s { if key(x) == k { ... } }`.
    Entries are matched on one field, given as a key function. */
module SeqScan {

  /** Position of the first entry whose key is `k`, or `|s|` when none is. */
  function FirstIndex<T, K(==)>(s: seq<T>, key: T -> K, k: K): (r: nat)
    ensures r <= |s|
    ensures forall j :: 0 <= j < r ==> key(s[j]) != k
    ensures r < |s| ==> key(s[r]) == k
  {
    if s == [] then 0
    else if key(s[0]) == k then 0
    else 1 + FirstIndex(s[1..], key, k)
  }

  /** The entries whose key is `k`, in slice order. */
  function Matching<T, K(==)>(s: seq<T>, key: T -> K, k: K): (r: seq<T>)
    ensures |r| <= |s|
    ensures forall i :: 0 <= i < |r| ==> r[i] in s && key(r[i]) == k
    ensures forall j :: 0 <= j < |s| && key(s[j]) == k ==> s[j] in r
  {
    if s == [] then []
    else
      var init := s[..|s| - 1];
      assert s == init + [s[|s| - 1]];
      Matching(init, key, k) + (if key(s[|s| - 1]) == k then [s[|s| - 1]] else [])
  }

  /** Matching keeps the slice order: filtering a concatenation filters each
      part and keeps them in the same order. */
  lemma {:induction false} MatchingAppend<T, K>(a: seq<T>, b: seq<T>, key: T -> K, k: K)
    ensures Matching(a + b, key, k) == Matching(a, key, k) + Matching(b, key, k)
  {
    if b != [] {
      var b' := b[..|b| - 1];
      assert (a + b)[..|a + b| - 1] == a + b';
      MatchingAppend(a, b', key, k);
    } else {
      assert a + b == a;
    }
  }

  /** The scan loop that stops at the first match. */
  method FindFirst<T, K(==)>(s: seq<T>, key: T -> K, k: K) returns (i: nat)
    ensures i == FirstIndex(s, key, k)
  {
    i := 0;
    while i < |s| && key(s[i]) != k
      invariant i <= |s|
      invariant forall j :: 0 <= j < i ==> key(s[j]) != k
    {
      i := i + 1;
    }
  }

  /** The scan loop that appends every match to a result slice. */
  method CollectMatching<T, K(==)>(s: seq<T>, key: T -> K, k: K) returns (r: seq<T>)
    ensures r == Matching(s, key, k)
  {
    r := [];
    var i := 0;
    while i < |s|
      invariant i <= |s|
      invariant r == Matching(s[..i], key, k)
    {
      assert s[..i + 1][..i] == s[..i];
      if key(s[i]) == k {
        r := r + [s[i]];
      }
      i := i + 1;
    }
    assert s[..|s|] == s;
  }

  /** `append(s[:i], s[i+1:]...)`: the slice without its i-th entry. */
  function RemoveAt<T>(s: seq<T>, i: nat): (r: seq<T>)
    requires i < |s|
    ensures |r| == |s| - 1
    ensures forall j :: 0 <= j < i ==> r[j] == s[j]
    ensures forall j :: i <= j < |r| ==> r[j] == s[j + 1]
  {
    s[..i] + s[i + 1..]
  }
}
