/** Nested synchronisation: every element of an outer listing contributes a block of items, and a block
    that fails or is cancelled ends the walk. */
module Nested {
  import opened Endings
  import opened Values
  import opened Pipeline
  import opened Sequences

  /** What an element contributes, and whether the walk goes on after it. */
  datatype Block = Block(items: seq<Item>, end: Ending)

  /** The block of an element, given how many were visited before it. */
  type Visit = (nat, Fields) -> Block

  /** How far a walk has come: what it has emitted, how many elements it has visited, and how the last of
      them has ended it, if it has. */
  datatype Progress = Progress(items: seq<Item>, visited: nat, end: Ending)
  {
    predicate Broken() {
      !end.Completed?
    }
  }

  const NOTHING := Progress([], 0, Completed)

  function VisitOne(v: Visit, x: Fields, p: Progress): Progress {
    if p.Broken() then p
    else
      var block := v(p.visited, x);
      Progress(p.items + block.items, p.visited + 1, block.end)
  }

  /** The walk over `xs`, in order. */
  function VisitAll(v: Visit, xs: seq<Fields>, p: Progress): Progress {
    if xs == [] then p else VisitOne(v, xs[|xs| - 1], VisitAll(v, xs[..|xs| - 1], p))
  }

  lemma OneMore(v: Visit, xs: seq<Fields>, i: nat, p: Progress)
    requires i < |xs|
    ensures VisitAll(v, xs[..i + 1], p) == VisitOne(v, xs[i], VisitAll(v, xs[..i], p))
  {
    assert xs[..i + 1][..i] == xs[..i];
  }

  lemma {:induction false} VisitAppend(v: Visit, xs: seq<Fields>, ys: seq<Fields>, p: Progress)
    ensures VisitAll(v, xs + ys, p) == VisitAll(v, ys, VisitAll(v, xs, p))
    decreases |ys|
  {
    if ys == [] {
      assert xs + ys == xs;
    } else {
      VisitAppend(v, xs, ys[..|ys| - 1], p);
      assert (xs + ys)[..|xs + ys| - 1] == xs + ys[..|ys| - 1];
    }
  }

  lemma {:induction false} BrokenStays(v: Visit, xs: seq<Fields>, p: Progress)
    requires p.Broken()
    ensures VisitAll(v, xs, p) == p
  {
    if xs == [] {
    } else {
      BrokenStays(v, xs[..|xs| - 1], p);
    }
  }

  /** A walk broken after some elements is not affected by those that follow. */
  lemma BrokenAfter(v: Visit, xs: seq<Fields>, i: nat, p: Progress)
    requires i <= |xs| && VisitAll(v, xs[..i], p).Broken()
    ensures VisitAll(v, xs, p) == VisitAll(v, xs[..i], p)
  {
    VisitAppend(v, xs[..i], xs[i..], p);
    assert xs == xs[..i] + xs[i..];
    BrokenStays(v, xs[i..], VisitAll(v, xs[..i], p));
  }

  // ---- What a walk asks of the elements it visits ----

  /** What an element has to satisfy, given how many were visited before it. */
  type Demand = (nat, Fields) -> bool

  const NONE: Demand := (j: nat, x: Fields) => true

  /** The elements that the walk over `xs` visits satisfy the demand; those after the one that ends the walk are
      never looked at. */
  ghost predicate AllVisited(v: Visit, ok: Demand, xs: seq<Fields>, p: Progress) {
    xs == []
    || (AllVisited(v, ok, xs[..|xs| - 1], p)
        && var q := VisitAll(v, xs[..|xs| - 1], p);
           !q.Broken() ==> ok(q.visited, xs[|xs| - 1]))
  }

  lemma {:induction false} NothingDemanded(v: Visit, xs: seq<Fields>, p: Progress)
    ensures AllVisited(v, NONE, xs, p)
  {
    if xs == [] {
    } else {
      NothingDemanded(v, xs[..|xs| - 1], p);
    }
  }

  lemma {:induction false} AllVisitedSplit(v: Visit, ok: Demand, xs: seq<Fields>, ys: seq<Fields>, p: Progress)
    ensures AllVisited(v, ok, xs + ys, p) <==> AllVisited(v, ok, xs, p) && AllVisited(v, ok, ys, VisitAll(v, xs, p))
    decreases |ys|
  {
    if ys == [] {
      assert xs + ys == xs;
    } else {
      var front := ys[..|ys| - 1];
      AllVisitedSplit(v, ok, xs, front, p);
      VisitAppend(v, xs, front, p);
      assert (xs + ys)[..|xs + ys| - 1] == xs + front;
    }
  }

  lemma VisitedAt(v: Visit, ok: Demand, xs: seq<Fields>, i: nat, p: Progress)
    requires AllVisited(v, ok, xs, p) && i < |xs| && !VisitAll(v, xs[..i], p).Broken()
    ensures ok(VisitAll(v, xs[..i], p).visited, xs[i])
  {
    assert xs == xs[..i + 1] + xs[i + 1..] && xs[..i + 1][..i] == xs[..i];
    AllVisitedSplit(v, ok, xs[..i + 1], xs[i + 1..], p);
  }

  // ---- What a walk emits ----

  function BlockItems(v: Visit, xs: seq<Fields>): seq<seq<Item>> {
    if xs == [] then [] else BlockItems(v, xs[..|xs| - 1]) + [v(|xs| - 1, xs[|xs| - 1]).items]
  }

  /** The walk emits the whole blocks of the elements it visits, in order. It visits all of them when no
      block fails, and otherwise those up to and including the first whose block does. */
  lemma {:induction false} WalkEmitsWholeBlocks(v: Visit, xs: seq<Fields>)
    ensures var p := VisitAll(v, xs, NOTHING);
            && p.visited <= |xs|
            && p.items == Flatten(BlockItems(v, xs[..p.visited]))
            && (p.Broken() ==> p.visited > 0 && v(p.visited - 1, xs[p.visited - 1]).end == p.end)
            && (!p.Broken() ==> p.visited == |xs|)
            && forall i | 0 <= i < p.visited && (p.Broken() ==> i < p.visited - 1) :: v(i, xs[i]).end.Completed?
  {
    if xs == [] {
    } else {
      var front := xs[..|xs| - 1];
      WalkEmitsWholeBlocks(v, front);
      var p := VisitAll(v, front, NOTHING);
      assert front[..p.visited] == xs[..p.visited];
      if !p.Broken() {
        assert xs[..|xs|] == xs && xs[..p.visited] == front;
        FlattenAppend(BlockItems(v, front), v(|xs| - 1, xs[|xs| - 1]).items);
      }
    }
  }

  lemma {:induction false} BlockItemsExtend(v: Visit, xs: seq<Fields>, n: nat)
    requires n <= |xs|
    ensures Flatten(BlockItems(v, xs[..n])) <= Flatten(BlockItems(v, xs))
  {
    if n == |xs| {
      assert xs[..n] == xs;
    } else {
      var front := xs[..|xs| - 1];
      BlockItemsExtend(v, front, n);
      assert front[..n] == xs[..n];
      FlattenAppend(BlockItems(v, front), v(|xs| - 1, xs[|xs| - 1]).items);
    }
  }

  /** So what it emits is a beginning of the flat map of the blocks of all elements, and the whole of it
      when the walk is not broken. */
  lemma WalkEmitsPrefix(v: Visit, xs: seq<Fields>)
    ensures VisitAll(v, xs, NOTHING).items <= Flatten(BlockItems(v, xs))
    ensures !VisitAll(v, xs, NOTHING).Broken() ==> VisitAll(v, xs, NOTHING).items == Flatten(BlockItems(v, xs))
  {
    WalkEmitsWholeBlocks(v, xs);
    BlockItemsExtend(v, xs, VisitAll(v, xs, NOTHING).visited);
    assert xs[..|xs|] == xs;
  }

  lemma {:induction false} BlockItemsAt(v: Visit, xs: seq<Fields>)
    ensures |BlockItems(v, xs)| == |xs|
    ensures forall i | 0 <= i < |xs| :: BlockItems(v, xs)[i] == v(i, xs[i]).items
  {
    if xs == [] {
    } else {
      BlockItemsAt(v, xs[..|xs| - 1]);
    }
  }

  /** When no element ends the walk it emits the blocks of all of them. */
  lemma WholeWalk(v: Visit, xs: seq<Fields>)
    requires forall i | 0 <= i < |xs| :: v(i, xs[i]).end.Completed?
    ensures !VisitAll(v, xs, NOTHING).Broken()
    ensures VisitAll(v, xs, NOTHING).items == Flatten(BlockItems(v, xs))
  {
    WalkEmitsWholeBlocks(v, xs);
    WalkEmitsPrefix(v, xs);
  }

  lemma {:induction false} AllMeet(v: Visit, ok: Demand, xs: seq<Fields>)
    requires forall i | 0 <= i < |xs| :: v(i, xs[i]).end.Completed? && ok(i, xs[i])
    ensures AllVisited(v, ok, xs, NOTHING)
  {
    if xs == [] {
    } else {
      var front := xs[..|xs| - 1];
      AllMeet(v, ok, front);
      WalkEmitsWholeBlocks(v, front);
    }
  }

  lemma BlockItemsAre(v: Visit, xs: seq<Fields>, out: seq<seq<Item>>)
    requires |out| == |xs| && forall i | 0 <= i < |xs| :: v(i, xs[i]).items == out[i]
    ensures BlockItems(v, xs) == out
  {
    BlockItemsAt(v, xs);
  }

  /** Nothing is asked of elements that are not visited. */
  lemma {:induction false} BrokenMeets(v: Visit, ok: Demand, xs: seq<Fields>, p: Progress)
    requires p.Broken()
    ensures AllVisited(v, ok, xs, p)
  {
    if xs == [] {
    } else {
      BrokenMeets(v, ok, xs[..|xs| - 1], p);
      BrokenStays(v, xs[..|xs| - 1], p);
    }
  }

  /** When the f-th element is the first that ends the walk, it emits the blocks of those before and that one's,
      and asks nothing of the rest. */
  lemma WalkUpTo(v: Visit, ok: Demand, xs: seq<Fields>, f: nat)
    requires f < |xs| && !v(f, xs[f]).end.Completed? && ok(f, xs[f])
    requires forall i | 0 <= i < f :: v(i, xs[i]).end.Completed? && ok(i, xs[i])
    ensures AllVisited(v, ok, xs, NOTHING)
    ensures var p := VisitAll(v, xs, NOTHING);
            && p.items == Flatten(BlockItems(v, xs[..f])) + v(f, xs[f]).items
            && p.end == v(f, xs[f]).end
  {
    WholeWalk(v, xs[..f]);
    WalkEmitsWholeBlocks(v, xs[..f]);
    hide Flatten, BlockItems, VisitAll, AllVisited;
    OneMore(v, xs, f, NOTHING);
    BrokenAfter(v, xs, f + 1, NOTHING);
    MeetsUpTo(v, ok, xs, f);
  }

  lemma MeetsUpTo(v: Visit, ok: Demand, xs: seq<Fields>, f: nat)
    requires f < |xs| && VisitAll(v, xs[..f + 1], NOTHING).Broken()
    requires ok(f, xs[f]) && forall i | 0 <= i < f :: v(i, xs[i]).end.Completed? && ok(i, xs[i])
    ensures AllVisited(v, ok, xs, NOTHING)
  {
    AllMeet(v, ok, xs[..f]);
    WalkEmitsWholeBlocks(v, xs[..f]);
    var upTo, rest := xs[..f + 1], xs[f + 1..];
    assert xs == upTo + rest && upTo[..f] == xs[..f];
    hide VisitAll, Flatten, BlockItems;
    BrokenMeets(v, ok, rest, VisitAll(v, upTo, NOTHING));
    AllVisitedSplit(v, ok, upTo, rest, NOTHING);
  }

  /** Every element contributes exactly one item. */
  function OneEach(item: Fields -> Item): Visit {
    (j: nat, x: Fields) => Block([item(x)], Completed)
  }

  lemma {:induction false} OneEachMaps(item: Fields -> Item, xs: seq<Fields>)
    ensures var p := VisitAll(OneEach(item), xs, NOTHING);
            && !p.Broken() && |p.items| == |xs|
            && forall i | 0 <= i < |xs| :: p.items[i] == item(xs[i])
  {
    if xs == [] {
    } else {
      OneEachMaps(item, xs[..|xs| - 1]);
    }
  }

  /** The loop over one page of an inner listing, which sends one item for each element. */
  method SendEach(item: Fields -> Item, xs: seq<Fields>, p: Progress) returns (q: Progress)
    requires !p.Broken()
    ensures q == VisitAll(OneEach(item), xs, p) && !q.Broken()
  {
    q := p;
    for i := 0 to |xs|
      invariant q == VisitAll(OneEach(item), xs[..i], p) && !q.Broken()
    {
      OneMore(OneEach(item), xs, i, p);
      q := Progress(q.items + [item(xs[i])], q.visited + 1, Completed);
    }
    assert xs[..|xs|] == xs;
  }
}
