/** Reorderings of a sequence (same elements, same multiplicities), and
    the element-wise image of a sequence under a function: the steps the
    order-independence proofs take. */
module Permutations {

  /** Where the last element of `xs` sits in a reordering `ys` of `xs`,
      and the fact that what remains of both is again a reordering. */
  lemma PickLast<T>(xs: seq<T>, ys: seq<T>) returns (i: nat)
    requires xs != [] && multiset(xs) == multiset(ys)
    ensures i < |ys| && ys[i] == xs[|xs| - 1]
    ensures xs == xs[..|xs| - 1] + [xs[|xs| - 1]]
    ensures ys == ys[..i] + [ys[i]] + ys[i + 1..]
    ensures multiset(xs[..|xs| - 1]) == multiset(ys[..i] + ys[i + 1..])
  {
    var n := |xs| - 1;
    var x := xs[n];
    assert xs == xs[..n] + [x];
    assert x in multiset(ys);
    i :| 0 <= i < |ys| && ys[i] == x;
    assert ys == ys[..i] + [x] + ys[i + 1..];
    var rest := ys[..i] + ys[i + 1..];
    assert multiset(ys) == multiset(ys[..i] + [x]) + multiset(ys[i + 1..])
      == multiset(ys[..i]) + multiset{x} + multiset(ys[i + 1..]);
    assert multiset(rest) == multiset(ys[..i]) + multiset(ys[i + 1..]);
    assert multiset(xs) == multiset(xs[..n] + [x]) == multiset(xs[..n]) + multiset{x};
    assert multiset(xs[..n]) == multiset(xs) - multiset{x};
    assert multiset(rest) == multiset(ys) - multiset{x};
  }

  /** `f` applied to every element, in order. */
  function Map<A, B>(f: A -> B, xs: seq<A>): (ys: seq<B>)
    ensures |ys| == |xs|
    ensures forall k :: 0 <= k < |xs| ==> ys[k] == f(xs[k])
  {
    seq(|xs|, k requires 0 <= k < |xs| => f(xs[k]))
  }

  lemma MapConcat<A, B>(f: A -> B, xs: seq<A>, ys: seq<A>)
    ensures Map(f, xs + ys) == Map(f, xs) + Map(f, ys)
  {
    var l, r := Map(f, xs + ys), Map(f, xs) + Map(f, ys);
    forall k | 0 <= k < |l| ensures l[k] == r[k] {
      if k < |xs| {
        assert (xs + ys)[k] == xs[k];
      } else {
        assert (xs + ys)[k] == ys[k - |xs|];
      }
    }
  }

  /** The images of two reorderings of each other are reorderings of each other. */
  lemma {:induction false} MapPermutation<A, B>(f: A -> B, xs: seq<A>, ys: seq<A>)
    requires multiset(xs) == multiset(ys)
    ensures multiset(Map(f, xs)) == multiset(Map(f, ys))
    decreases |xs|
  {
    if xs == [] {
      assert |ys| == |multiset(ys)| == 0;
    } else {
      var n := |xs| - 1;
      var i := PickLast(xs, ys);
      MapPermutation(f, xs[..n], ys[..i] + ys[i + 1..]);
      MapConcat(f, xs[..n], [xs[n]]);
      MapConcat(f, ys[..i], ys[i + 1..]);
      MapConcat(f, ys[..i] + [ys[i]], ys[i + 1..]);
      MapConcat(f, ys[..i], [ys[i]]);
    }
  }
}
