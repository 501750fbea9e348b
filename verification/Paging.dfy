/** What page iterators that stop at an error, at an empty page and after the last page have in common:
    a listing answers the n-th request, a cursor walks through it. */
module Paging {
  import opened Endings
  import opened Values

  /** How a response reads: not at all, or as a page that announces a next one or not. */
  datatype Reply = Failure | Page(items: seq<Fields>, more: bool)

  /** The answer to every request, counted from 0. Nothing is assumed about it. */
  type Listing = nat -> Reply

  datatype Cursor = Cursor(requests: nat, done: bool)

  datatype Outcome = Items(items: seq<Fields>) | Exhausted | Error

  const START := Cursor(0, false)

  /** One call of `next`. */
  function Advance(l: Listing, c: Cursor): (Cursor, Outcome) {
    if c.done then (c, Exhausted)
    else
      match l(c.requests)
      case Failure => (Cursor(c.requests + 1, true), Error)
      case Page(items, more) =>
        if items == [] then (Cursor(c.requests + 1, true), Exhausted)
        else (Cursor(c.requests + 1, !more), Items(items))
  }

  /** The first k calls of `next`. */
  function Calls(l: Listing, k: nat): (Cursor, seq<Outcome>) {
    if k == 0 then (START, [])
    else
      var (c, outcomes) := Calls(l, k - 1);
      var (d, o) := Advance(l, c);
      (d, outcomes + [o])
  }

  predicate Continues(r: Reply) {
    r.Page? && r.items != [] && r.more
  }

  /** The answers to the first n requests all call for another request. */
  ghost predicate Open(l: Listing, n: nat) {
    forall i: nat | i < n :: Continues(l(i))
  }

  function Answer(r: Reply): Outcome {
    match r
    case Failure => Error
    case Page(items, _) => if items == [] then Exhausted else Items(items)
  }

  /** Where the iterator is after k calls: one request a call until it is done. */
  ghost predicate Follows(l: Listing, c: Cursor, k: nat) {
    && c.requests <= k
    && (forall j: nat | j < c.requests :: Open(l, j))
    && (c.done <==> !Open(l, c.requests))
    && (!c.done ==> c.requests == k)
  }

  lemma CallAnswers(l: Listing, c: Cursor, k: nat)
    requires Follows(l, c, k)
    ensures Follows(l, Advance(l, c).0, k + 1)
    ensures Advance(l, c).1 == if Open(l, k) then Answer(l(k)) else Exhausted
  {
    assert c.done ==> !Open(l, k);
    assert !c.done ==> (Open(l, k + 1) <==> Continues(l(k)));
  }

  lemma {:induction false} CursorFollows(l: Listing, k: nat)
    ensures Follows(l, Calls(l, k).0, k) && |Calls(l, k).1| == k
  {
    if k == 0 {
    } else {
      CursorFollows(l, k - 1);
      CallAnswers(l, Calls(l, k - 1).0, k - 1);
      hide Follows, Advance;
    }
  }

  lemma {:induction false} OutcomeAt(l: Listing, k: nat, j: nat)
    requires j < k
    ensures |Calls(l, k).1| == k
    ensures Calls(l, k).1[j] == if Open(l, j) then Answer(l(j)) else Exhausted
  {
    CursorFollows(l, k);
    CursorFollows(l, k - 1);
    if j == k - 1 {
      CallAnswers(l, Calls(l, j).0, j);
    } else {
      OutcomeAt(l, k - 1, j);
    }
  }

  /** A reply after which the iterator is done: an error, an empty page or the last page. */
  predicate EndsListing(r: Reply) {
    match r
    case Failure => true
    case Page(items, more) => items == [] || !more
  }

  /** Every iterator is this sequence of answers: the pages in order, one request each, until the first
      error, empty page or last page; from then on "done", without a further request; never an empty
      page. */
  lemma IteratorAnswers(l: Listing, k: nat, j: nat)
    requires j < k
    ensures |Calls(l, k).1| == k
    ensures var o := Calls(l, k).1[j];
            if exists i: nat | i < j :: EndsListing(l(i)) then o == Exhausted
            else
              match l(j)
              case Failure => o == Error
              case Page(items, _) => if items == [] then o == Exhausted else o == Items(items)
  {
    OutcomeAt(l, k, j);
    assert Open(l, j) <==> !exists i: nat | i < j :: EndsListing(l(i));
  }

  /** And the requests it has made after k calls are the first k, or those up to the one that ended it. */
  lemma IteratorRequests(l: Listing, k: nat)
    ensures var c := Calls(l, k).0;
            && c.requests <= k
            && (forall i: nat | i + 1 < c.requests :: !EndsListing(l(i)))
            && (c.done <==> c.requests > 0 && EndsListing(l(c.requests - 1)))
            && (!c.done ==> c.requests == k)
  {
    CursorFollows(l, k);
    var n := Calls(l, k).0.requests;
    assert n > 0 ==> Open(l, n - 1);
    assert forall i: nat :: Continues(l(i)) <==> !EndsListing(l(i));
    assert forall m: nat :: Open(l, m + 1) <==> Open(l, m) && Continues(l(m));
  }

  /** Listings that answer alike make iterators alike. */
  lemma {:induction false} SameAnswersSameCalls(a: Listing, b: Listing, k: nat)
    requires forall n: nat :: a(n) == b(n)
    ensures Calls(a, k) == Calls(b, k)
  {
    if k == 0 {
    } else {
      SameAnswersSameCalls(a, b, k - 1);
    }
  }

  // ---- Loops that drain an iterator ----

  /** `polls(n)` says whether the check of the context before the call of `next` that follows n requests finds
      it cancelled. */
  type Polls = nat -> bool

  const NEVER: Polls := (n: nat) => false

  /** None of the first n checks finds the context cancelled. */
  ghost predicate NotBefore(polls: Polls, n: nat) {
    forall k: nat | k < n :: !polls(k)
  }

  /** The loop ends: the listing stops, or the context is cancelled, at one of the first `limit` turns. */
  ghost predicate StopsBy(l: Listing, polls: Polls, limit: nat) {
    exists n: nat | n < limit :: polls(n) || !Continues(l(n))
  }

  /** Everything on the pages the loop reaches from the n-th request on. */
  function Reached(l: Listing, polls: Polls, n: nat, limit: nat): seq<Fields>
    decreases limit - n
  {
    if n >= limit || polls(n) then []
    else
      match l(n)
      case Failure => []
      case Page(items, _) => if Continues(l(n)) then items + Reached(l, polls, n + 1, limit) else items
  }

  /** How it ends. After a last page the context is checked once more. */
  function EndOf(l: Listing, polls: Polls, n: nat, limit: nat): Ending
    decreases limit - n
  {
    if n >= limit then Completed
    else if polls(n) then Cancelled
    else
      match l(n)
      case Failure => Failed
      case Page(items, more) =>
        if items == [] then Completed
        else if more then EndOf(l, polls, n + 1, limit)
        else if polls(n + 1) then Cancelled
        else Completed
  }

  /** What is left for a cursor. */
  function Rest(l: Listing, polls: Polls, c: Cursor, limit: nat): seq<Fields> {
    if c.done then [] else Reached(l, polls, c.requests, limit)
  }

  function RestEnd(l: Listing, polls: Polls, c: Cursor, limit: nat): Ending {
    if !c.done then EndOf(l, polls, c.requests, limit)
    else if polls(c.requests) then Cancelled
    else Completed
  }

  /** A cursor that has come where it is by calls of `next`. */
  ghost predicate OnTheWay(l: Listing, c: Cursor) {
    !c.done ==> Open(l, c.requests)
  }

  /** A loop that ends has turns left. */
  lemma WithinLimit(l: Listing, polls: Polls, c: Cursor, limit: nat)
    requires StopsBy(l, polls, limit) && OnTheWay(l, c) && (!c.done ==> NotBefore(polls, c.requests))
    ensures !c.done ==> c.requests < limit
  {
    var n: nat :| n < limit && (polls(n) || !Continues(l(n)));
    assert !c.done ==> c.requests <= n;
  }

  /** One turn of the loop takes its page from what is left. */
  lemma TurnTakesFromRest(l: Listing, polls: Polls, c: Cursor, limit: nat)
    requires OnTheWay(l, c) && (c.done || c.requests < limit)
    ensures polls(c.requests) ==> Rest(l, polls, c, limit) == [] && RestEnd(l, polls, c, limit) == Cancelled
    ensures !polls(c.requests) ==>
              var (d, o) := Advance(l, c);
              && OnTheWay(l, d)
              && match o
                 case Items(items) =>
                   && Rest(l, polls, c, limit) == items + Rest(l, polls, d, limit)
                   && RestEnd(l, polls, c, limit) == RestEnd(l, polls, d, limit)
                 case Exhausted => Rest(l, polls, c, limit) == [] && RestEnd(l, polls, c, limit) == Completed
                 case Error => Rest(l, polls, c, limit) == [] && RestEnd(l, polls, c, limit) == Failed
  {
  }

  /** The items on the first n pages. */
  function PagesBefore(l: Listing, n: nat): seq<Fields> {
    if n == 0 then []
    else PagesBefore(l, n - 1) + match l(n - 1) case Failure => [] case Page(items, _) => items
  }

  /** Nothing ends the loop in its first n turns. */
  ghost predicate GoesOnFor(l: Listing, polls: Polls, n: nat) {
    forall k: nat | k < n :: !polls(k) && !EndsListing(l(k))
  }

  lemma {:induction false} ReachedAfter(l: Listing, polls: Polls, n: nat, limit: nat)
    requires GoesOnFor(l, polls, n) && n < limit
    ensures Reached(l, polls, 0, limit) == PagesBefore(l, n) + Reached(l, polls, n, limit)
    ensures EndOf(l, polls, 0, limit) == EndOf(l, polls, n, limit)
  {
    if n == 0 {
      assert [] + Reached(l, polls, 0, limit) == Reached(l, polls, 0, limit);
    } else {
      ReachedAfter(l, polls, n - 1, limit);
      assert !polls(n - 1) && !EndsListing(l(n - 1));
      var before, items, rest := PagesBefore(l, n - 1), l(n - 1).items, Reached(l, polls, n, limit);
      assert before + (items + rest) == before + items + rest;
    }
  }

  /** The loop ends at turn n: cancelled, with the pages before; failed, with the pages before; at an empty page,
      with the pages before; or after the last page, with that one too, when the context is checked once more. */
  lemma LoopEndsAt(l: Listing, polls: Polls, n: nat, limit: nat)
    requires GoesOnFor(l, polls, n) && n < limit && (polls(n) || EndsListing(l(n)))
    ensures var items, end := Reached(l, polls, 0, limit), EndOf(l, polls, 0, limit);
            if polls(n) then items == PagesBefore(l, n) && end == Cancelled
            else
              match l(n)
              case Failure => items == PagesBefore(l, n) && end == Failed
              case Page(last, _) =>
                && items == PagesBefore(l, n) + last
                && end == if last != [] && polls(n + 1) then Cancelled else Completed
  {
    ReachedAfter(l, polls, n, limit);
    assert PagesBefore(l, n) + [] == PagesBefore(l, n);
  }

  // ---- A server that holds a fixed list ----

  /** How many pages of size p a list of n items fills. */
  function PageCount(n: nat, p: nat): nat
    requires p > 0
    decreases n
  {
    if n == 0 then 0 else if n <= p then 1 else 1 + PageCount(n - p, p)
  }

  /** It is n / p, rounded up. */
  lemma {:induction false} PageCountRoundsUp(n: nat, p: nat)
    requires p > 0 && n > 0
    ensures (PageCount(n, p) - 1) * p < n <= PageCount(n, p) * p
    decreases n
  {
    if n <= p {
    } else {
      PageCountRoundsUp(n - p, p);
      var c := PageCount(n - p, p);
      assert (c + 1) * p == c * p + p && c * p == (c - 1) * p + p;
    }
  }

  /** From the n-th request on, the listing hands out `xs` in pages of size p, each announcing the next
      one while items are left. */
  ghost predicate Serves(l: Listing, n: nat, xs: seq<Fields>, p: nat)
    requires p > 0
    decreases |xs|
  {
    if |xs| <= p then l(n) == Page(xs, false)
    else l(n) == Page(xs[..p], true) && Serves(l, n + 1, xs[p..], p)
  }

  /** A loop whose checks find nothing cancelled reaches all of it. */
  lemma {:induction false} ReachesTheList(l: Listing, polls: Polls, n: nat, xs: seq<Fields>, p: nat, limit: nat)
    requires 0 < p && Serves(l, n, xs, p) && n + |xs| < limit
    requires forall k: nat :: !polls(k)
    ensures StopsBy(l, polls, limit)
    ensures Reached(l, polls, n, limit) == xs && EndOf(l, polls, n, limit) == Completed
    decreases |xs|
  {
    if |xs| <= p {
      assert !Continues(l(n));
    } else {
      ReachesTheList(l, polls, n + 1, xs[p..], p, limit);
      assert xs == xs[..p] + xs[p..];
    }
  }

  /** How many requests such a server gets: one a page and at least one. */
  function RequestsFor(n: nat, p: nat): nat
    requires p > 0
  {
    if n == 0 then 1 else PageCount(n, p)
  }

  /** All its answers but the last call for another request. */
  lemma {:induction false} OpenUntilTheLastPage(l: Listing, n: nat, xs: seq<Fields>, p: nat)
    requires 0 < p && Serves(l, n, xs, p) && Open(l, n)
    ensures var last := n + RequestsFor(|xs|, p) - 1;
            Open(l, last) && !Continues(l(last))
    decreases |xs|
  {
    if |xs| <= p {
    } else {
      OpenUntilTheLastPage(l, n + 1, xs[p..], p);
    }
  }

  /** The items handed out by calls of `next`. */
  function Yielded(outcomes: seq<Outcome>): seq<Fields> {
    if outcomes == [] then []
    else
      Yielded(outcomes[..|outcomes| - 1])
      + match outcomes[|outcomes| - 1] case Items(items) => items case _ => []
  }

  lemma YieldedOneMore(outcomes: seq<Outcome>, o: Outcome, rest: seq<Fields>)
    ensures Yielded(outcomes + [o]) + rest
         == Yielded(outcomes) + ((match o case Items(items) => items case _ => []) + rest)
  {
    assert (outcomes + [o])[..|outcomes|] == outcomes;
  }

  /** What the first calls have handed out and what is left make up what is reached. */
  lemma {:induction false} YieldedAndRest(l: Listing, k: nat, limit: nat)
    requires StopsBy(l, NEVER, limit)
    ensures OnTheWay(l, Calls(l, k).0)
    ensures Yielded(Calls(l, k).1) + Rest(l, NEVER, Calls(l, k).0, limit) == Reached(l, NEVER, 0, limit)
  {
    if k == 0 {
    } else {
      hide Reached, Yielded, StopsBy;
      YieldedAndRest(l, k - 1, limit);
      var (c, outcomes) := Calls(l, k - 1);
      WithinLimit(l, NEVER, c, limit);
      TurnTakesFromRest(l, NEVER, c, limit);
      var (d, o) := Advance(l, c);
      YieldedOneMore(outcomes, o, Rest(l, NEVER, d, limit));
    }
  }

  lemma {:induction false} PagesAreFetched(l: Listing, n: nat, xs: seq<Fields>, p: nat, j: nat)
    requires 0 < p && Serves(l, n, xs, p) && n <= j < n + RequestsFor(|xs|, p)
    ensures l(j).Page?
    decreases |xs|
  {
    if |xs| <= p || j == n {
    } else {
      PagesAreFetched(l, n + 1, xs[p..], p, j);
    }
  }

  /** The iterator is done after one request a page, and at least one. */
  lemma DrainedCursor(l: Listing, xs: seq<Fields>, p: nat, k: nat)
    requires 0 < p && Serves(l, 0, xs, p) && k >= RequestsFor(|xs|, p)
    ensures Calls(l, k).0 == Cursor(RequestsFor(|xs|, p), true)
  {
    var q := RequestsFor(|xs|, p);
    OpenUntilTheLastPage(l, 0, xs, p);
    CursorFollows(l, k);
    hide Calls, RequestsFor, Serves, Continues;
    assert !Open(l, q);
  }

  lemma DrainedWithoutError(l: Listing, xs: seq<Fields>, p: nat, k: nat)
    requires 0 < p && Serves(l, 0, xs, p) && k >= RequestsFor(|xs|, p)
    ensures Error !in Calls(l, k).1
  {
    var q := RequestsFor(|xs|, p);
    OpenUntilTheLastPage(l, 0, xs, p);
    CursorFollows(l, k);
    forall j: nat | j < k
      ensures Calls(l, k).1[j] != Error
    {
      OutcomeAt(l, k, j);
      if j < q {
        PagesAreFetched(l, 0, xs, p, j);
      } else {
        assert !Open(l, j);
      }
    }
  }

  /** Draining such a server: from the q-th call of `next` on, q being the number of pages and at least one,
      the iterator is done, has made q requests and has handed out the list, in order, without an error. */
  lemma DrainReturnsTheList(l: Listing, xs: seq<Fields>, p: nat, k: nat)
    requires 0 < p && Serves(l, 0, xs, p) && k >= RequestsFor(|xs|, p)
    ensures Calls(l, k).0 == Cursor(RequestsFor(|xs|, p), true)
    ensures Yielded(Calls(l, k).1) == xs && Error !in Calls(l, k).1
  {
    DrainedCursor(l, xs, p, k);
    DrainedWithoutError(l, xs, p, k);
    ReachesTheList(l, NEVER, 0, xs, p, |xs| + 1);
    YieldedAndRest(l, k, |xs| + 1);
  }
}
