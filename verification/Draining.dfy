/** The loop that all nested synchronisations share: check the context, take the next page of an iterator,
    visit its elements. */
module Draining {
  import opened Endings
  import opened Nested
  import opened Paging
  import opened Pipeline
  import opened Sequences
  import opened Values

  /** The walk over everything the loop reaches. */
  function Walk(l: Listing, polls: Polls, v: Visit, limit: nat): Progress {
    VisitAll(v, Reached(l, polls, 0, limit), NOTHING)
  }

  /** What the loop emits and how it ends: with the element that ends the walk, or with the listing. */
  function Drained(l: Listing, polls: Polls, v: Visit, limit: nat): Block {
    var walk := Walk(l, polls, v, limit);
    Block(walk.items, if walk.Broken() then walk.end else EndOf(l, polls, 0, limit))
  }

  /** The loop ends within `limit` turns: the listing stops, the context is cancelled, or an element ends the
      walk. */
  ghost predicate Ends(l: Listing, polls: Polls, v: Visit, limit: nat) {
    StopsBy(l, polls, limit) || Walk(l, polls, v, limit).Broken()
  }

  /** The elements that the loop visits satisfy the demand. */
  ghost predicate Meets(l: Listing, polls: Polls, v: Visit, ok: Demand, limit: nat) {
    AllVisited(v, ok, Reached(l, polls, 0, limit), NOTHING)
  }

  /** The loop's state between two turns: where the iterator is and what has been emitted. */
  ghost predicate Going(l: Listing, polls: Polls, v: Visit, ok: Demand, c: Cursor, p: Progress, limit: nat) {
    && !p.Broken()
    && OnTheWay(l, c)
    && (!c.done ==> NotBefore(polls, c.requests))
    && Walk(l, polls, v, limit) == VisitAll(v, Rest(l, polls, c, limit), p)
    && AllVisited(v, ok, Rest(l, polls, c, limit), p)
    && EndOf(l, polls, 0, limit) == RestEnd(l, polls, c, limit)
  }

  lemma StartsGoing(l: Listing, polls: Polls, v: Visit, ok: Demand, limit: nat)
    requires Meets(l, polls, v, ok, limit)
    ensures Going(l, polls, v, ok, START, NOTHING, limit)
  {
  }

  /** A loop that demands nothing of its elements. */
  lemma StartsFreely(l: Listing, polls: Polls, v: Visit, limit: nat)
    ensures Going(l, polls, v, NONE, START, NOTHING, limit)
  {
    NothingDemanded(v, Reached(l, polls, 0, limit), NOTHING);
  }

  lemma TurnsLeft(l: Listing, polls: Polls, v: Visit, ok: Demand, c: Cursor, p: Progress, limit: nat)
    requires Going(l, polls, v, ok, c, p, limit) && Ends(l, polls, v, limit)
    ensures c.done || c.requests < limit
  {
    if StopsBy(l, polls, limit) {
      WithinLimit(l, polls, c, limit);
    }
  }

  /** A turn that ends the loop. */
  lemma LastTurn(l: Listing, polls: Polls, v: Visit, ok: Demand, c: Cursor, p: Progress, limit: nat)
    requires Going(l, polls, v, ok, c, p, limit) && Ends(l, polls, v, limit)
    ensures polls(c.requests) ==> Drained(l, polls, v, limit) == Block(p.items, Cancelled)
    ensures !polls(c.requests) ==>
              match Advance(l, c).1
              case Exhausted => Drained(l, polls, v, limit) == Block(p.items, Completed)
              case Error => Drained(l, polls, v, limit) == Block(p.items, Failed)
              case Items(_) => true
  {
    TurnsLeft(l, polls, v, ok, c, p, limit);
    TurnTakesFromRest(l, polls, c, limit);
    hide Reached, EndOf, OnTheWay, Ends, Advance;
  }

  /** A turn that visits a page. */
  lemma PageTurn(l: Listing, polls: Polls, v: Visit, ok: Demand, c: Cursor, p: Progress, limit: nat)
    requires Going(l, polls, v, ok, c, p, limit) && Ends(l, polls, v, limit)
    requires !polls(c.requests) && Advance(l, c).1.Items?
    ensures var (d, o) := Advance(l, c);
            var q := VisitAll(v, o.items, p);
            && AllVisited(v, ok, o.items, p)
            && (q.Broken() ==> Drained(l, polls, v, limit) == Block(q.items, q.end))
            && (!q.Broken() ==> Going(l, polls, v, ok, d, q, limit))
  {
    TurnsLeft(l, polls, v, ok, c, p, limit);
    TurnTakesFromRest(l, polls, c, limit);
    var (d, o) := Advance(l, c);
    assert !d.done ==> NotBefore(polls, d.requests);
    hide Reached, EndOf, Ends, Advance, OnTheWay, AllVisited;
    var q := VisitAll(v, o.items, p);
    VisitAppend(v, o.items, Rest(l, polls, d, limit), p);
    AllVisitedSplit(v, ok, o.items, Rest(l, polls, d, limit), p);
    if q.Broken() {
      BrokenStays(v, Rest(l, polls, d, limit), q);
    }
  }

  /** What the listing hands to the loop, and how it ends. */
  ghost predicate Gives(l: Listing, polls: Polls, xs: seq<Fields>, end: Ending, limit: nat) {
    StopsBy(l, polls, limit) && Reached(l, polls, 0, limit) == xs && EndOf(l, polls, 0, limit) == end
  }

  /** A loop none of whose elements fails emits the blocks of all it is handed and ends with the listing. */
  lemma DrainsAll(l: Listing, polls: Polls, v: Visit, ok: Demand, xs: seq<Fields>, end: Ending, out: seq<seq<Item>>,
                  limit: nat)
    requires Gives(l, polls, xs, end, limit) && |out| == |xs|
    requires forall i | 0 <= i < |xs| :: v(i, xs[i]) == Block(out[i], Completed) && ok(i, xs[i])
    ensures Ends(l, polls, v, limit) && Meets(l, polls, v, ok, limit)
    ensures Drained(l, polls, v, limit) == Block(Flatten(out), end)
  {
    WholeWalk(v, xs);
    AllMeet(v, ok, xs);
    BlockItemsAre(v, xs, out);
  }

  /** The f-th element, when it is the first that fails or is cancelled, ends the loop, however the listing would
      have ended. */
  lemma DrainsUpTo(l: Listing, polls: Polls, v: Visit, ok: Demand, xs: seq<Fields>, end: Ending, out: seq<seq<Item>>,
                   f: nat, last: Block, limit: nat)
    requires Gives(l, polls, xs, end, limit) && |out| == f < |xs|
    requires forall i | 0 <= i < f :: v(i, xs[i]) == Block(out[i], Completed) && ok(i, xs[i])
    requires v(f, xs[f]) == last && !last.end.Completed? && ok(f, xs[f])
    ensures Ends(l, polls, v, limit) && Meets(l, polls, v, ok, limit)
    ensures Drained(l, polls, v, limit) == Block(Flatten(out) + last.items, last.end)
  {
    WalkUpTo(v, ok, xs, f);
    BlockItemsAre(v, xs[..f], out);
  }

  /** A loop that sends one item for each element. */
  lemma DrainsOneEach(l: Listing, polls: Polls, item: Fields -> Item, xs: seq<Fields>, end: Ending, out: seq<Item>,
                      limit: nat)
    requires Gives(l, polls, xs, end, limit) && |out| == |xs|
    requires forall i | 0 <= i < |xs| :: out[i] == item(xs[i])
    ensures Drained(l, polls, OneEach(item), limit) == Block(out, end)
  {
    OneEachMaps(item, xs);
  }
}
