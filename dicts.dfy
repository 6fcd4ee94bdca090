/**
 * A Python `dict` as the source uses it: assignment `d[k] = v` replaces the
 * value of a present key in place and appends a new key at the end, so
 * iteration follows first-insertion order while lookups see the last write.
 */
module Dicts {

  datatype Dict<K, V> = Dict(keys: seq<K>, entries: map<K, V>)

  /** The iteration order lists every key of the mapping exactly once. */
  predicate Valid<K, V>(d: Dict<K, V>)
  {
    && (forall i, j :: 0 <= i < j < |d.keys| ==> d.keys[i] != d.keys[j])
    && d.entries.Keys == set k | k in d.keys
  }

  function Empty<K, V>(): (d: Dict<K, V>)
    ensures Valid(d) && d.keys == []
  {
    Dict([], map[])
  }

  /** `d[k] = v`. */
  function Put<K, V>(d: Dict<K, V>, k: K, v: V): (r: Dict<K, V>)
    requires Valid(d)
    ensures Valid(r)
    ensures r.entries == d.entries[k := v]
    ensures k in d.entries ==> r.keys == d.keys
    ensures k !in d.entries ==> r.keys == d.keys + [k]
  {
    if k in d.entries then Dict(d.keys, d.entries[k := v])
    else Dict(d.keys + [k], d.entries[k := v])
  }

  /** The dict left by assigning every pair of `kvs` in turn to an empty dict. */
  function Build<K, V>(kvs: seq<(K, V)>): (d: Dict<K, V>)
    ensures Valid(d)
    decreases |kvs|
  {
    if kvs == [] then Empty()
    else Put(Build(kvs[..|kvs| - 1]), kvs[|kvs| - 1].0, kvs[|kvs| - 1].1)
  }

  /**
   * The assignments `d[key(x)] = x` made while walking `xs` in order, keeping
   * only the elements whose key satisfies `keep`.
   */
  function Tagged<T, K>(xs: seq<T>, key: T -> K, keep: K -> bool): (ps: seq<(K, T)>)
    ensures |ps| <= |xs|
    decreases |xs|
  {
    if xs == [] then []
    else
      var prev := Tagged(xs[..|xs| - 1], key, keep);
      var x := xs[|xs| - 1];
      if keep(key(x)) then prev + [(key(x), x)] else prev
  }

  /** Walking one more element performs at most one more assignment. */
  lemma BuildTaggedStep<T, K>(xs: seq<T>, key: T -> K, keep: K -> bool)
    requires xs != []
    ensures var x, prefix := xs[|xs| - 1], xs[..|xs| - 1];
      Build(Tagged(xs, key, keep)) == if keep(key(x))
                                      then Put(Build(Tagged(prefix, key, keep)), key(x), x)
                                      else Build(Tagged(prefix, key, keep))
  {
    var x, prefix := xs[|xs| - 1], xs[..|xs| - 1];
    var ps := Tagged(prefix, key, keep);
    if keep(key(x)) {
      assert (ps + [(key(x), x)])[..|ps|] == ps;
    }
  }

  /** The step of `BuildTaggedStep`, spelled out on the mapping and on the key order. */
  lemma BuildTaggedStepParts<T, K>(xs: seq<T>, key: T -> K, keep: K -> bool)
    requires xs != []
    ensures var x, d, p := xs[|xs| - 1], Build(Tagged(xs, key, keep)), Build(Tagged(xs[..|xs| - 1], key, keep));
      && d.entries == (if keep(key(x)) then p.entries[key(x) := x] else p.entries)
      && d.keys == (if keep(key(x)) && key(x) !in p.entries then p.keys + [key(x)] else p.keys)
  {
    BuildTaggedStep(xs, key, keep);
  }

  /** After the walk, a key is present exactly when it is kept and some element carries it. */
  lemma {:induction false} BuildTaggedHas<T, K>(xs: seq<T>, key: T -> K, keep: K -> bool, k: K)
    ensures k in Build(Tagged(xs, key, keep)).entries <==> keep(k) && exists i :: 0 <= i < |xs| && key(xs[i]) == k
    decreases |xs|
  {
    if xs != [] {
      var x, prefix := xs[|xs| - 1], xs[..|xs| - 1];
      BuildTaggedStep(xs, key, keep);
      BuildTaggedHas(prefix, key, keep, k);
      if exists i :: 0 <= i < |xs| && key(xs[i]) == k {
        var i :| 0 <= i < |xs| && key(xs[i]) == k;
        if i < |prefix| { assert key(prefix[i]) == k; }
      }
      if exists i :: 0 <= i < |prefix| && key(prefix[i]) == k {
        var i :| 0 <= i < |prefix| && key(prefix[i]) == k;
        assert key(xs[i]) == k;
      }
    }
  }

  /** `xs[i]` carries `k` and no later element does. */
  ghost predicate LastCarrier<T, K>(xs: seq<T>, key: T -> K, k: K, i: int)
  {
    0 <= i < |xs| && key(xs[i]) == k && forall j :: i < j < |xs| ==> key(xs[j]) != k
  }

  /** A last carrier in all but the final element stays the last carrier when the final element carries another key. */
  lemma LastCarrierExtend<T, K>(xs: seq<T>, key: T -> K, k: K, i: int)
    requires xs != [] && key(xs[|xs| - 1]) != k && LastCarrier(xs[..|xs| - 1], key, k, i)
    ensures LastCarrier(xs, key, k, i)
  {
    var prefix := xs[..|xs| - 1];
    forall j | i < j < |xs| ensures key(xs[j]) != k {
      if j < |prefix| { assert xs[j] == prefix[j]; }
    }
  }

  /** After the walk, a present key maps to the LAST element that carries it. */
  lemma {:induction false} BuildTaggedLastWins<T, K>(xs: seq<T>, key: T -> K, keep: K -> bool, k: K)
    requires k in Build(Tagged(xs, key, keep)).entries
    ensures exists i :: LastCarrier(xs, key, k, i) && xs[i] == Build(Tagged(xs, key, keep)).entries[k]
    decreases |xs|
  {
    var x, prefix := xs[|xs| - 1], xs[..|xs| - 1];
    BuildTaggedStepParts(xs, key, keep);
    var d := Build(Tagged(xs, key, keep));
    if key(x) == k {
      BuildTaggedHas(prefix, key, keep, k);
      assert keep(k);
      assert LastCarrier(xs, key, k, |xs| - 1);
    } else {
      assert d.entries[k] == Build(Tagged(prefix, key, keep)).entries[k];
      BuildTaggedLastWins(prefix, key, keep, k);
      var i :| LastCarrier(prefix, key, k, i) && prefix[i] == d.entries[k];
      LastCarrierExtend(xs, key, k, i);
      assert xs[i] == prefix[i];
    }
  }

  /** Some element carries `a` before any element carries `b`. */
  ghost predicate CarriedBefore<T, K>(xs: seq<T>, key: T -> K, a: K, b: K)
  {
    exists i :: 0 <= i < |xs| && key(xs[i]) == a && forall j :: 0 <= j <= i ==> key(xs[j]) != b
  }

  lemma CarriedBeforeExtend<T, K>(xs: seq<T>, key: T -> K, a: K, b: K)
    requires xs != [] && CarriedBefore(xs[..|xs| - 1], key, a, b)
    ensures CarriedBefore(xs, key, a, b)
  {
    var prefix := xs[..|xs| - 1];
    var i :| 0 <= i < |prefix| && key(prefix[i]) == a && forall j :: 0 <= j <= i ==> key(prefix[j]) != b;
    assert key(xs[i]) == a;
    assert forall j :: 0 <= j <= i ==> xs[j] == prefix[j];
  }

  /**
   * After the walk, keys are listed in order of first appearance: each key is
   * carried by some element before any element carrying a key listed after it.
   */
  lemma {:induction false} BuildTaggedFirstSeen<T, K>(xs: seq<T>, key: T -> K, keep: K -> bool)
    ensures var d := Build(Tagged(xs, key, keep));
      forall a, b :: 0 <= a < b < |d.keys| ==> CarriedBefore(xs, key, d.keys[a], d.keys[b])
    decreases |xs|
  {
    if xs != [] {
      var x, prefix := xs[|xs| - 1], xs[..|xs| - 1];
      BuildTaggedStepParts(xs, key, keep);
      BuildTaggedFirstSeen(prefix, key, keep);
      var d, p := Build(Tagged(xs, key, keep)), Build(Tagged(prefix, key, keep));
      forall a, b | 0 <= a < b < |d.keys|
        ensures CarriedBefore(xs, key, d.keys[a], d.keys[b])
      {
        if b < |p.keys| {
          assert d.keys[a] == p.keys[a] && d.keys[b] == p.keys[b];
          CarriedBeforeExtend(xs, key, p.keys[a], p.keys[b]);
        } else {
          var n := key(x);
          assert d.keys[b] == n && n !in p.entries && d.keys[a] == p.keys[a];
          BuildTaggedHas(prefix, key, keep, p.keys[a]);
          BuildTaggedHas(prefix, key, keep, n);
          var i :| 0 <= i < |prefix| && key(prefix[i]) == p.keys[a];
          assert key(xs[i]) == d.keys[a];
          forall j | 0 <= j <= i ensures key(xs[j]) != n {
            assert xs[j] == prefix[j];
          }
        }
      }
    }
  }
}
