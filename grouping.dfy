/**
  Grouping of a sequence of (key, value) pairs into an insertion-ordered
  dictionary of lists, the shape both sync implementations build
  (`models_data[key]["experiments"].append(...)` with a per-key counter).
  `FirstSeen` gives the dictionary's key order, `Members` the list under a key.
 */
module Grouping {

  predicate Distinct<T(==)>(s: seq<T>) {
    forall i, j :: 0 <= i < j < |s| ==> s[i] != s[j]
  }

  /** The values paired with `k`, in input order. */
  function Members<K(==), V>(pairs: seq<(K, V)>, k: K): (r: seq<V>)
    ensures |r| <= |pairs|
  {
    if pairs == [] then []
    else Members(pairs[..|pairs| - 1], k) + (if pairs[|pairs| - 1].0 == k then [pairs[|pairs| - 1].1] else [])
  }

  /** The distinct keys, in order of first appearance (a Python dict's key order). */
  function FirstSeen<K(==), V>(pairs: seq<(K, V)>): (r: seq<K>)
    ensures Distinct(r)
    ensures forall i :: 0 <= i < |pairs| ==> pairs[i].0 in r
    ensures forall j :: 0 <= j < |r| ==> exists i :: 0 <= i < |pairs| && pairs[i].0 == r[j]
  {
    if pairs == [] then []
    else
      var ks := FirstSeen(pairs[..|pairs| - 1]);
      var k := pairs[|pairs| - 1].0;
      assert forall j :: 0 <= j < |ks| ==> exists i :: 0 <= i < |pairs| && pairs[i].0 == ks[j] by {
        forall j | 0 <= j < |ks| ensures exists i :: 0 <= i < |pairs| && pairs[i].0 == ks[j] {
          var i :| 0 <= i < |pairs| - 1 && pairs[..|pairs| - 1][i].0 == ks[j];
          assert pairs[i].0 == ks[j];
        }
      }
      if k in ks then ks else ks + [k]
  }

  /** Sum of the list lengths over the given keys. */
  function SumSizes<K(==), V>(pairs: seq<(K, V)>, keys: seq<K>): nat {
    if keys == [] then 0 else SumSizes(pairs, keys[..|keys| - 1]) + |Members(pairs, keys[|keys| - 1])|
  }

  /** A key has a non-empty list exactly when some pair carries it. */
  lemma {:induction false} MembersNonEmpty<K, V>(pairs: seq<(K, V)>, k: K)
    ensures |Members(pairs, k)| > 0 <==> k in FirstSeen(pairs)
  {
    if pairs != [] {
      MembersNonEmpty(pairs[..|pairs| - 1], k);
    }
  }

  /** Appending one pair adds one to the total over any distinct key list holding its key. */
  lemma {:induction false} SumSizesSnoc<K, V>(pairs: seq<(K, V)>, x: (K, V), keys: seq<K>)
    requires Distinct(keys)
    ensures SumSizes(pairs + [x], keys) == SumSizes(pairs, keys) + (if x.0 in keys then 1 else 0)
  {
    assert (pairs + [x])[..|pairs|] == pairs;
    if keys != [] {
      var init := keys[..|keys| - 1];
      assert Distinct(init);
      SumSizesSnoc(pairs, x, init);
      assert x.0 in keys <==> x.0 in init || x.0 == keys[|keys| - 1];
      assert !(x.0 in init && x.0 == keys[|keys| - 1]);
    }
  }

  /** Conservation: every pair lands in exactly one group, so the group sizes add up to the input length. */
  lemma {:induction false} SizesSumToLength<K, V>(pairs: seq<(K, V)>)
    ensures SumSizes(pairs, FirstSeen(pairs)) == |pairs|
  {
    if pairs != [] {
      var p := pairs[..|pairs| - 1];
      var x := pairs[|pairs| - 1];
      assert pairs == p + [x];
      SizesSumToLength(p);
      var ks := FirstSeen(p);
      SumSizesSnoc(p, x, ks);
      if x.0 !in ks {
        MembersNonEmpty(p, x.0);
        assert Members(pairs, x.0) == Members(p, x.0) + [x.1];
        assert FirstSeen(pairs)[..|FirstSeen(pairs)| - 1] == ks;
      }
    }
  }

  /** Each value sits in the group of its own key: the i-th pair is the n-th member of its key's list,
      where n counts the earlier pairs with the same key. */
  lemma {:induction false} MemberAt<K, V>(pairs: seq<(K, V)>, i: nat)
    requires i < |pairs|
    ensures |Members(pairs[..i], pairs[i].0)| < |Members(pairs, pairs[i].0)|
    ensures Members(pairs, pairs[i].0)[|Members(pairs[..i], pairs[i].0)|] == pairs[i].1
  {
    var k := pairs[i].0;
    var p := pairs[..|pairs| - 1];
    if i == |pairs| - 1 {
      assert pairs[..i] == p;
    } else {
      assert p[..i] == pairs[..i] && p[i] == pairs[i];
      MemberAt(p, i);
    }
  }

  /** Appending one pair: its key joins the key order if it is new, and its value joins that key's list. */
  lemma Snoc<K, V>(pairs: seq<(K, V)>, x: (K, V), k: K)
    ensures FirstSeen(pairs + [x]) == if x.0 in FirstSeen(pairs) then FirstSeen(pairs) else FirstSeen(pairs) + [x.0]
    ensures Members(pairs + [x], k) == Members(pairs, k) + (if x.0 == k then [x.1] else [])
  {
    assert (pairs + [x])[..|pairs|] == pairs;
  }

  /** Appending one pair adds its key to the set of keys. */
  lemma SnocKeys<K, V>(pairs: seq<(K, V)>, x: (K, V))
    ensures (set k | k in FirstSeen(pairs + [x])) == (set k | k in FirstSeen(pairs)) + {x.0}
  {
    Snoc(pairs, x, x.0);
  }

  /** How many pairs carry `k`, counted independently of the lists. */
  function CountKey<K(==), V>(pairs: seq<(K, V)>, k: K): nat {
    if pairs == [] then 0 else CountKey(pairs[..|pairs| - 1], k) + (if pairs[|pairs| - 1].0 == k then 1 else 0)
  }

  /** The list under `k` has one entry per pair carrying `k`, and holds exactly the values paired with `k`. */
  lemma {:induction false} MembersExact<K, V>(pairs: seq<(K, V)>, k: K)
    ensures |Members(pairs, k)| == CountKey(pairs, k)
    ensures forall v :: v in Members(pairs, k) <==> (k, v) in pairs
  {
    if pairs != [] {
      var p := pairs[..|pairs| - 1];
      var x := pairs[|pairs| - 1];
      assert pairs == p + [x];
      MembersExact(p, k);
      assert forall y :: y in pairs <==> y in p || y == x;
    }
  }
}
