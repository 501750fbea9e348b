/** Facts about sequences that several components share. */
module Sequences {

  function Flatten<T>(parts: seq<seq<T>>): seq<T> {
    if parts == [] then [] else parts[0] + Flatten(parts[1..])
  }

  lemma {:induction false} FlattenAppend<T>(parts: seq<seq<T>>, last: seq<T>)
    ensures Flatten(parts + [last]) == Flatten(parts) + last
  {
    if parts == [] {
      assert [last][1..] == [];
    } else {
      FlattenAppend(parts[1..], last);
      assert (parts + [last])[1..] == parts[1..] + [last];
    }
  }

  /** `xs` is obtained from `ys` by dropping elements, keeping the order. */
  predicate Subsequence<T(==)>(xs: seq<T>, ys: seq<T>) {
    || xs == []
    || (ys != [] && ((xs[0] == ys[0] && Subsequence(xs[1..], ys[1..])) || Subsequence(xs, ys[1..])))
  }

  lemma SubsequenceSkip<T>(xs: seq<T>, ys: seq<T>, y: T)
    requires Subsequence(xs, ys)
    ensures Subsequence(xs, [y] + ys)
  {
    assert ([y] + ys)[1..] == ys;
  }

  lemma SubsequenceKeep<T>(xs: seq<T>, ys: seq<T>, y: T)
    requires Subsequence(xs, ys)
    ensures Subsequence([y] + xs, [y] + ys)
  {
    assert ([y] + ys)[1..] == ys && ([y] + xs)[1..] == xs;
  }

  /** The elements of `xs` that carry the tag `t`, in order. */
  function Tagged<T>(xs: seq<T>, tags: seq<nat>, t: nat): seq<T>
    requires |xs| == |tags|
  {
    if xs == [] then []
    else
      var rest := Tagged(xs[..|xs| - 1], tags[..|tags| - 1], t);
      if tags[|tags| - 1] == t then rest + [xs[|xs| - 1]] else rest
  }

  /** `xs` is an interleaving of `lists`: every element belongs to one of the lists, and what
      belongs to a list is that list, in its own order, each of its elements once. */
  ghost predicate Interleaves<T>(xs: seq<T>, lists: seq<seq<T>>) {
    exists tags: seq<nat> | |tags| == |xs| ::
      && (forall k | 0 <= k < |tags| :: tags[k] < |lists|)
      && (forall i | 0 <= i < |lists| :: Tagged(xs, tags, i) == lists[i])
  }
}
