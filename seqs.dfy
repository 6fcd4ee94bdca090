/** Linear search, the shape shared by the source's "first match wins" loops. */
module Seqs {
  import opened Options

  /** Position of the first element at or after `from` that satisfies `p`. */
  function FirstIndexFrom<T>(xs: seq<T>, p: T -> bool, from: nat): (r: Option<nat>)
    requires from <= |xs|
    ensures r.Some? ==> from <= r.value < |xs| && p(xs[r.value])
    ensures r.Some? ==> forall j :: from <= j < r.value ==> !p(xs[j])
    ensures r.None? ==> forall j :: from <= j < |xs| ==> !p(xs[j])
    decreases |xs| - from
  {
    if from == |xs| then None
    else if p(xs[from]) then Some(from)
    else FirstIndexFrom(xs, p, from + 1)
  }

  /** A match at `i` with none between `from` and `i` is what the search from `from` finds. */
  lemma {:induction false} FirstIndexFromFinds<T>(xs: seq<T>, p: T -> bool, from: nat, i: nat)
    requires from <= i < |xs| && p(xs[i])
    requires forall j :: from <= j < i ==> !p(xs[j])
    ensures FirstIndexFrom(xs, p, from) == Some(i)
    decreases i - from
  {
    if from < i {
      FirstIndexFromFinds(xs, p, from + 1, i);
    }
  }

  /** Taking one more element of `s`: the longer prefix extends the shorter one by `s[j]`. */
  lemma PrefixStep<T>(s: seq<T>, j: nat)
    requires j < |s|
    ensures s[..j + 1] == s[..j] + [s[j]]
    ensures s[..j + 1][..j] == s[..j] && s[..j + 1][j] == s[j]
  {
  }

  /** The prefix of the whole length is the sequence itself. */
  lemma PrefixAll<T>(s: seq<T>)
    ensures s[..|s|] == s
  {
  }
}
