/** The GitLab source: the iterator that outlives errors, and the access-token loops that skip the pages
    they may not read. */
module GitLab {
  import opened Endings
  import opened Values
  import opened Destination
  import opened Pipeline
  import opened Nested
  import opened Sequences
  import Paging

  /** `total` is the reported number of pages, 0 when the header is missing or not a number.
      `NotAccessible` is a 401 or a 403; every other error is `Unavailable`. */
  datatype Response = Fetched(items: seq<Fields>, total: int) | NotAccessible | Unavailable

  /** The answer to the request for a page, counted from 1. Every page is requested at most once. */
  type Server = nat -> Response

  datatype State = State(currPage: nat, totalPages: int, done: bool)

  datatype Next = Items(items: seq<Fields>) | IteratorDone | Inaccessible | Error

  const START := State(0, 0, false)

  /** One call of `next`. An error ends the iteration only where the pages known of do. */
  function Advance(server: Server, s: State): (State, Next) {
    if s.done then (s, IteratorDone)
    else
      var page := s.currPage + 1;
      match server(page)
      case NotAccessible => (State(page, s.totalPages, page >= s.totalPages), Inaccessible)
      case Unavailable => (State(page, s.totalPages, page >= s.totalPages), Error)
      case Fetched(items, total) =>
        if items == [] then (State(page, total, true), IteratorDone)
        else (State(page, total, page >= total), Items(items))
  }

  class PageIterator {
    const server: Server
    var currPage: nat
    var totalPages: int
    var done: bool

    constructor (server: Server)
      ensures this.server == server && Position() == START
    {
      this.server := server;
      currPage, totalPages, done := 0, 0, false;
    }

    function Position(): State
      reads this
    {
      State(currPage, totalPages, done)
    }

    method Next() returns (r: Next)
      modifies this
      ensures (Position(), r) == Advance(server, old(Position()))
    {
      if done {
        return IteratorDone;
      }
      currPage := currPage + 1;
      var resp := server(currPage);
      if !resp.Fetched? {
        if currPage >= totalPages {
          done := true;
        }
        return if resp.NotAccessible? then Inaccessible else Error;
      }
      totalPages := resp.total;
      if currPage >= totalPages {
        done := true;
      }
      if |resp.items| == 0 {
        done := true;
        return IteratorDone;
      }
      r := Items(resp.items);
    }
  }

  // ---- Loops over the iterator ----

  /** The loop from a state on ends within `turns` calls of `next`. A lenient one goes on after an inaccessible
      page. */
  ghost predicate EndsIn(server: Server, lenient: bool, s: State, turns: nat)
    decreases turns
  {
    turns > 0
    && var (n, r) := Advance(server, s);
       match r
       case IteratorDone => true
       case Error => true
       case Inaccessible => lenient ==> EndsIn(server, lenient, n, turns - 1)
       case Items(_) => EndsIn(server, lenient, n, turns - 1)
  }

  /** What a loop over the iterator sees: the items, how it ends, and the last page it requests, which is also
      the number of its requests. */
  datatype Walked = Walked(items: seq<Fields>, end: Ending, lastPage: nat)

  /** The first `turns` turns of the loop from a state on. */
  function Walk(server: Server, lenient: bool, s: State, turns: nat): Walked
    decreases turns
  {
    if turns == 0 then Walked([], Completed, s.currPage)
    else
      var (n, r) := Advance(server, s);
      match r
      case IteratorDone => Walked([], Completed, n.currPage)
      case Error => Walked([], Failed, n.currPage)
      case Inaccessible => if lenient then Walk(server, lenient, n, turns - 1) else Walked([], Failed, n.currPage)
      case Items(items) =>
        var w := Walk(server, lenient, n, turns - 1);
        w.(items := items + w.items)
  }

  /** No response reports more than t pages. */
  ghost predicate TotalsBoundedBy(server: Server, t: nat) {
    forall page: nat :: server(page).Fetched? ==> server(page).total <= t
  }

  ghost predicate OnTheWay(s: State, t: nat) {
    !s.done ==> s.totalPages <= t && (s.currPage == 0 || s.currPage < s.totalPages)
  }

  function Max(a: nat, b: nat): nat {
    if a < b then b else a
  }

  lemma AdvanceKeepsOnTheWay(server: Server, s: State, t: nat)
    requires TotalsBoundedBy(server, t) && OnTheWay(s, t)
    ensures OnTheWay(Advance(server, s).0, t)
    ensures !s.done ==> s.currPage < Max(1, t)
  {
  }

  /** Whatever the server answers, as long as it never reports more than t pages, the loop ends after at
      most max(1, t) requests, even when every page is inaccessible. */
  lemma {:induction false} RequestsAreBounded(server: Server, lenient: bool, s: State, t: nat, turns: nat)
    requires TotalsBoundedBy(server, t) && OnTheWay(s, t) && s.currPage <= Max(1, t)
    ensures Walk(server, lenient, s, turns).lastPage <= Max(1, t)
    ensures turns > (if s.done then 0 else Max(1, t) + 1 - s.currPage) ==> EndsIn(server, lenient, s, turns)
    decreases turns
  {
    if turns == 0 {
    } else {
      AdvanceKeepsOnTheWay(server, s, t);
      var (n, r) := Advance(server, s);
      if r.Items? || r.Inaccessible? {
        RequestsAreBounded(server, lenient, n, t, turns - 1);
      }
    }
  }

  /** The items of the accessible pages from `page` to `last`. */
  function AccessibleItems(server: Server, page: nat, last: nat): seq<Fields>
    decreases last - page
  {
    if page > last then []
    else (if server(page).Fetched? then server(page).items else []) + AccessibleItems(server, page + 1, last)
  }

  /** The pages 1 to n exist: those that are fetched are not empty and all report n pages; none fails
      otherwise than by being inaccessible. */
  ghost predicate Pages(server: Server, n: nat) {
    && n >= 1
    && TotalsBoundedBy(server, n)
    && forall page: nat | 1 <= page <= n ::
         match server(page)
         case Fetched(items, total) => items != [] && total == n
         case NotAccessible => true
         case Unavailable => false
  }

  lemma {:induction false} AccessiblePagesFrom(server: Server, n: nat, page: nat, turns: nat)
    requires Pages(server, n) && 1 <= page < n && turns > n - page
    ensures EndsIn(server, true, State(page, n, false), turns)
    ensures Walk(server, true, State(page, n, false), turns)
         == Walked(AccessibleItems(server, page + 1, n), Completed, n)
    decreases n - page
  {
    var (s, r) := Advance(server, State(page, n, false));
    if page + 1 == n {
      assert s.done;
      assert AccessibleItems(server, n + 1, n) == [];
      assert Walk(server, true, s, turns - 1) == Walked([], Completed, n);
    } else {
      AccessiblePagesFrom(server, n, page + 1, turns - 1);
    }
  }

  /** When the first page is accessible the lenient loop yields the items of exactly the accessible pages,
      in order, without an error. */
  lemma FirstPageAccessible(server: Server, n: nat, turns: nat)
    requires Pages(server, n) && server(1).Fetched? && turns > n
    ensures EndsIn(server, true, START, turns)
    ensures Walk(server, true, START, turns) == Walked(AccessibleItems(server, 1, n), Completed, n)
  {
    if n > 1 {
      AccessiblePagesFrom(server, n, 1, turns - 1);
    } else {
      assert AccessibleItems(server, 2, 1) == [];
    }
  }

  /** In general it misses nothing exactly when the first page is accessible or nothing is: an inaccessible
      first page ends the loop, because no page is known of yet. */
  lemma SkipsOnlyInaccessiblePagesIff(server: Server, n: nat, turns: nat)
    requires Pages(server, n) && turns > n
    ensures EndsIn(server, true, START, turns)
    ensures Walk(server, true, START, turns).items == AccessibleItems(server, 1, n)
       <==> server(1).Fetched? || forall page: nat | 1 <= page <= n :: server(page).NotAccessible?
    ensures !server(1).Fetched? ==> Walk(server, true, START, turns) == Walked([], Completed, 1)
  {
    if server(1).Fetched? {
      FirstPageAccessible(server, n, turns);
    } else {
      assert Walk(server, true, State(1, 0, true), turns - 1) == Walked([], Completed, 1);
      NothingAccessibleIff(server, 1, n);
    }
  }

  lemma {:induction false} NothingAccessibleIff(server: Server, page: nat, n: nat)
    requires Pages(server, n) && 1 <= page
    ensures AccessibleItems(server, page, n) == [] <==> forall k: nat | page <= k <= n :: server(k).NotAccessible?
    decreases n - page
  {
    if page > n {
    } else {
      NothingAccessibleIff(server, page + 1, n);
      if server(page).Fetched? {
        assert AccessibleItems(server, page, n)[0] == server(page).items[0];
      }
    }
  }

  /** From `page` on the server hands out `xs` in pages of size p and reports `total` pages. */
  ghost predicate Serves(server: Server, page: nat, xs: seq<Fields>, p: nat, total: nat)
    requires p > 0
    decreases |xs|
  {
    if |xs| <= p then server(page) == Fetched(xs, total)
    else server(page) == Fetched(xs[..p], total) && Serves(server, page + 1, xs[p..], p, total)
  }

  lemma {:induction false} DrainFrom(server: Server, lenient: bool, s: State, xs: seq<Fields>, p: nat, turns: nat)
    requires p > 0 && xs != [] && !s.done && turns > Paging.PageCount(|xs|, p)
    requires Serves(server, s.currPage + 1, xs, p, s.currPage + Paging.PageCount(|xs|, p))
    ensures EndsIn(server, lenient, s, turns)
    ensures Walk(server, lenient, s, turns) == Walked(xs, Completed, s.currPage + Paging.PageCount(|xs|, p))
    decreases |xs|
  {
    var (n, r) := Advance(server, s);
    if |xs| <= p {
      assert n.done && r == Items(xs);
      assert Walk(server, lenient, n, turns - 1) == Walked([], Completed, n.currPage);
      assert xs + [] == xs;
    } else {
      var last := s.currPage + Paging.PageCount(|xs|, p);
      assert n == State(s.currPage + 1, last, false) && r == Items(xs[..p]);
      assert last == n.currPage + Paging.PageCount(|xs[p..]|, p);
      DrainFrom(server, lenient, n, xs[p..], p, turns - 1);
      assert xs == xs[..p] + xs[p..];
    }
  }

  /** Against a server that holds a fixed list, the loop yields the list, in order, with one request a page
      and at least one. */
  lemma DrainReturnsTheList(server: Server, lenient: bool, xs: seq<Fields>, p: nat, turns: nat)
    requires p > 0 && turns > Paging.PageCount(|xs|, p) && Serves(server, 1, xs, p, Paging.PageCount(|xs|, p))
    ensures EndsIn(server, lenient, START, turns)
    ensures Walk(server, lenient, START, turns)
         == Walked(xs, Completed, if xs == [] then 1 else Paging.PageCount(|xs|, p))
  {
    if xs != [] {
      DrainFrom(server, lenient, START, xs, p, turns);
    }
  }

  // ---- Access tokens ----

  const ACCESS_TOKEN := "accesstoken"

  /** The identifier of an item; there is none unless it is a number. */
  predicate HasID(item: Fields) {
    "id" in item && item["id"].Number?
  }

  /** A token with the project or group it belongs to. The creation time of the token is not modelled. */
  function TokenItem(owner: string, of: Fields, token: Fields): Item {
    Item(ACCESS_TOKEN, Upsert, map[owner := Object(of), "token" := Object(token)], Now)
  }

  function TokenOf(owner: string, of: Fields): Fields -> Item {
    token => TokenItem(owner, of, token)
  }

  /** What a lenient walk over the tokens of a project or a group contributes. */
  function TokenBlock(server: Server, owner: string, of: Fields, turns: nat): Block {
    var w := Walk(server, true, START, turns);
    Block(VisitAll(OneEach(TokenOf(owner, of)), w.items, NOTHING).items, w.end)
  }

  /** The loop's state between two turns, with `left` turns to go; what it still visits satisfies the demand. */
  ghost predicate Going(server: Server, lenient: bool, v: Visit, ok: Demand, turns: nat, s: State, p: Progress,
                        left: nat) {
    var all, w := Walk(server, lenient, START, turns), Walk(server, lenient, s, left);
    && !p.Broken()
    && VisitAll(v, all.items, NOTHING) == VisitAll(v, w.items, p)
    && AllVisited(v, ok, w.items, p)
    && all.end == w.end && all.lastPage == w.lastPage
  }

  /** One turn, which visits a page, passes over one, or ends the loop. */
  lemma OneTurn(server: Server, lenient: bool, v: Visit, ok: Demand, turns: nat, s: State, p: Progress, left: nat)
    requires Going(server, lenient, v, ok, turns, s, p, left) && left > 0
    ensures var (n, r) := Advance(server, s);
            var all := Walk(server, lenient, START, turns);
            match r
            case IteratorDone =>
              VisitAll(v, all.items, NOTHING) == p && all.end == Completed && all.lastPage == n.currPage
            case Error => VisitAll(v, all.items, NOTHING) == p && all.end == Failed && all.lastPage == n.currPage
            case Inaccessible =>
              if lenient then Going(server, lenient, v, ok, turns, n, p, left - 1)
              else VisitAll(v, all.items, NOTHING) == p && all.end == Failed && all.lastPage == n.currPage
            case Items(items) =>
              var q := VisitAll(v, items, p);
              && AllVisited(v, ok, items, p)
              && if q.Broken() then VisitAll(v, all.items, NOTHING) == q
                 else Going(server, lenient, v, ok, turns, n, q, left - 1)
  {
    var (n, r) := Advance(server, s);
    if r.Items? {
      hide AllVisited;
      var rest := Walk(server, lenient, n, left - 1).items;
      VisitAppend(v, r.items, rest, p);
      AllVisitedSplit(v, ok, r.items, rest, p);
      var q := VisitAll(v, r.items, p);
      if q.Broken() {
        BrokenStays(v, rest, q);
      }
    }
  }

  /** The loop of `syncProjectAccessTokens`, which is also the inner loop of `syncAccessTokenResources`. */
  method SyncAccessTokens(server: Server, owner: string, of: Fields, ghost turns: nat)
    returns (block: Block, requests: nat)
    requires EndsIn(server, true, START, turns)
    ensures block == TokenBlock(server, owner, of, turns)
    ensures requests == Walk(server, true, START, turns).lastPage
    ensures forall t: nat | TotalsBoundedBy(server, t) :: requests <= Max(1, t)
  {
    ghost var v := OneEach(TokenOf(owner, of));
    ghost var left := turns;
    forall t: nat | TotalsBoundedBy(server, t)
      ensures Walk(server, true, START, turns).lastPage <= Max(1, t)
    {
      RequestsAreBounded(server, true, START, t, turns);
    }
    var p := NOTHING;
    NothingDemanded(v, Walk(server, true, START, turns).items, p);
    assert Going(server, true, v, NONE, turns, START, p, left);
    hide TotalsBoundedBy, Going, Walk;
    var it := new PageIterator(server);
    while true
      invariant fresh(it) && it.server == server && EndsIn(server, true, it.Position(), left)
      invariant !p.Broken() && Going(server, true, v, NONE, turns, it.Position(), p, left)
      decreases left
    {
      OneTurn(server, true, v, NONE, turns, it.Position(), p, left);
      var next := it.Next();
      left := left - 1;
      if next.IteratorDone? {
        break;
      }
      if next.Inaccessible? {
        continue;
      }
      if next.Error? {
        return Block(p.items, Failed), it.currPage;
      }
      p := SendEach(TokenOf(owner, of), next.items, p);
    }
    return Block(p.items, Completed), it.currPage;
  }

  /** The groups, and the tokens of the j-th group reached. */
  datatype Api = Api(groups: Server, tokens: nat -> Server)

  /** The loop over the tokens of a group, if there is one, ends within `turns` turns. */
  ghost function TokensDemand(api: Api, turns: nat): Demand {
    (j: nat, group: Fields) => HasID(group) ==> EndsIn(api.tokens(j), true, START, turns)
  }

  /** A group without an identifier contributes nothing; the others their tokens, whose failure ends the
      synchronisation. */
  function GroupVisit(api: Api, turns: nat): Visit {
    (j: nat, group: Fields) =>
      if HasID(group) then TokenBlock(api.tokens(j), "group", group, turns) else Block([], Completed)
  }

  /** One page of groups. */
  method SyncGroupPage(api: Api, groups: seq<Fields>, p: Progress, ghost turns: nat) returns (q: Progress)
    requires !p.Broken() && AllVisited(GroupVisit(api, turns), TokensDemand(api, turns), groups, p)
    ensures q == VisitAll(GroupVisit(api, turns), groups, p)
  {
    hide TokenBlock;
    ghost var v := GroupVisit(api, turns);
    q := p;
    for i := 0 to |groups|
      invariant q == VisitAll(v, groups[..i], p) && !q.Broken()
    {
      OneMore(v, groups, i, p);
      VisitedAt(v, TokensDemand(api, turns), groups, i, p);
      if !HasID(groups[i]) {
        q := Progress(q.items + [], q.visited + 1, Completed);
        continue;
      }
      var block, _ := SyncAccessTokens(api.tokens(q.visited), "group", groups[i], turns);
      q := Progress(q.items + block.items, q.visited + 1, block.end);
      if q.Broken() {
        BrokenAfter(v, groups, i + 1, p);
        return;
      }
    }
    assert groups[..|groups|] == groups;
  }

  /** The walk over the groups reached. */
  function GroupWalk(api: Api, turns: nat): Progress {
    VisitAll(GroupVisit(api, turns), Walk(api.groups, false, START, turns).items, NOTHING)
  }

  /** The call returns: the loops over the tokens of the groups reached end, and the one over the groups does, by
      itself or because a group's tokens fail. */
  ghost predicate SyncEnds(api: Api, turns: nat) {
    && AllVisited(GroupVisit(api, turns), TokensDemand(api, turns), Walk(api.groups, false, START, turns).items,
                  NOTHING)
    && (EndsIn(api.groups, false, START, turns) || GroupWalk(api, turns).Broken())
  }

  /** The groups are listed strictly, the tokens of each leniently. */
  method SyncAccessTokenResources(api: Api, ghost turns: nat) returns (block: Block)
    requires SyncEnds(api, turns)
    ensures var walk := GroupWalk(api, turns);
            block == Block(walk.items, if walk.Broken() then walk.end else Walk(api.groups, false, START, turns).end)
  {
    ghost var v, ok := GroupVisit(api, turns), TokensDemand(api, turns);
    ghost var left := turns;
    var p := NOTHING;
    assert Going(api.groups, false, v, ok, turns, START, p, left);
    var it := new PageIterator(api.groups);
    while true
      invariant fresh(it) && it.server == api.groups
      invariant EndsIn(api.groups, false, it.Position(), left) || GroupWalk(api, turns).Broken()
      invariant !p.Broken() && Going(api.groups, false, v, ok, turns, it.Position(), p, left)
      decreases left
    {
      assert left == 0 ==> GroupWalk(api, turns) == p;
      OneTurn(api.groups, false, v, ok, turns, it.Position(), p, left);
      var next := it.Next();
      left := left - 1;
      if next.IteratorDone? {
        return Block(p.items, Completed);
      }
      if !next.Items? {
        return Block(p.items, Failed);
      }
      p := SyncGroupPage(api, next.items, p, turns);
      if p.Broken() {
        return Block(p.items, p.end);
      }
    }
  }

  // ---- Over responses ----

  /** After n requests, `known` being the number of pages reported last, the responses hand `xs` to a loop and end
      it, within `turns` requests. */
  ghost predicate Hands(server: Server, lenient: bool, n: nat, known: int, xs: seq<Fields>, end: Ending, turns: nat)
    decreases turns
  {
    turns > 0
    && match server(n + 1)
       case Unavailable => xs == [] && end == Failed
       case NotAccessible =>
         if !lenient then xs == [] && end == Failed
         else if known <= n + 1 then xs == [] && end == Completed
         else Hands(server, lenient, n + 1, known, xs, end, turns - 1)
       case Fetched(items, total) =>
         if items == [] then xs == [] && end == Completed
         else if total <= n + 1 then xs == items && end == Completed
         else items <= xs && Hands(server, lenient, n + 1, total, xs[|items|..], end, turns - 1)
  }

  /** What one turn of the loop leaves to be handed out. */
  lemma HandsNext(server: Server, lenient: bool, s: State, xs: seq<Fields>, end: Ending, turns: nat)
    requires Hands(server, lenient, s.currPage, s.totalPages, xs, end, turns) && !s.done
    ensures var (n, r) := Advance(server, s);
            match r
            case IteratorDone => xs == [] && end == Completed
            case Error => xs == [] && end == Failed
            case Inaccessible =>
              if !lenient then xs == [] && end == Failed
              else if n.done then xs == [] && end == Completed
              else turns > 0 && Hands(server, lenient, n.currPage, n.totalPages, xs, end, turns - 1)
            case Items(items) =>
              if n.done then xs == items && end == Completed
              else && turns > 0 && items <= xs
                   && Hands(server, lenient, n.currPage, n.totalPages, xs[|items|..], end, turns - 1)
  {
  }

  lemma {:induction false} HandsWalked(server: Server, lenient: bool, s: State, xs: seq<Fields>, end: Ending,
                                       turns: nat)
    requires Hands(server, lenient, s.currPage, s.totalPages, xs, end, turns) && !s.done
    ensures EndsIn(server, lenient, s, turns + 1)
    ensures var w := Walk(server, lenient, s, turns + 1); w.items == xs && w.end == end
    decreases turns
  {
    HandsNext(server, lenient, s, xs, end, turns);
    assert turns > 0;
    var (n, r) := Advance(server, s);
    assert n.done ==> EndsIn(server, lenient, n, turns) && Walk(server, lenient, n, turns).items == []
                      && Walk(server, lenient, n, turns).end == Completed;
    hide Hands, Advance;
    match r
    case IteratorDone =>
    case Error =>
    case Inaccessible =>
      if lenient && !n.done {
        HandsWalked(server, lenient, n, xs, end, turns - 1);
      }
    case Items(items) =>
      if n.done {
        assert xs + [] == xs;
      } else {
        HandsWalked(server, lenient, n, xs[|items|..], end, turns - 1);
        assert xs == items + xs[|items|..];
      }
  }

  function WholeTokens(owner: string, of: Fields, tokens: seq<Fields>): seq<Item> {
    seq(|tokens|, i requires 0 <= i < |tokens| =>
      Item("accesstoken", Upsert, map[owner := Object(of), "token" := Object(tokens[i])], Now))
  }

  /** The lenient loop over the tokens of a project or a group gives all it is handed. */
  lemma TokensEmit(server: Server, owner: string, of: Fields, tokens: seq<Fields>, end: Ending, turns: nat)
    requires Hands(server, true, 0, 0, tokens, end, turns)
    ensures EndsIn(server, true, START, turns + 1)
    ensures TokenBlock(server, owner, of, turns + 1) == Block(WholeTokens(owner, of, tokens), end)
  {
    HandsWalked(server, true, START, tokens, end, turns);
    OneEachMaps(TokenOf(owner, of), tokens);
    assert VisitAll(OneEach(TokenOf(owner, of)), tokens, NOTHING).items == WholeTokens(owner, of, tokens);
  }

  /** A group with a number for an identifier is handed these tokens; of the others none are asked for. */
  ghost predicate HandsTokens(api: Api, j: nat, group: Fields, tokens: seq<Fields>, end: Ending, turns: nat) {
    if "id" in group && group["id"].Number? then Hands(api.tokens(j), true, 0, 0, tokens, end, turns)
    else tokens == [] && end == Completed
  }

  lemma GroupEmits(api: Api, j: nat, group: Fields, tokens: seq<Fields>, end: Ending, turns: nat)
    requires HandsTokens(api, j, group, tokens, end, turns)
    ensures GroupVisit(api, turns + 1)(j, group) == Block(WholeTokens("group", group, tokens), end)
    ensures TokensDemand(api, turns + 1)(j, group)
  {
    if HasID(group) {
      TokensEmit(api.tokens(j), "group", group, tokens, end, turns);
    }
  }

  function WholeGroups(groups: seq<Fields>, tokens: nat -> seq<Fields>): seq<seq<Item>> {
    seq(|groups|, j requires 0 <= j < |groups| => WholeTokens("group", groups[j], tokens(j)))
  }

  /** When no tokens fail, the synchronisation gives the tokens of every group it is handed, in order, and ends with
      the listing of the groups, which a page it may not read makes fail. */
  lemma SyncEmitsEverything(api: Api, groups: seq<Fields>, end: Ending, tokens: nat -> seq<Fields>, turns: nat)
    requires Hands(api.groups, false, 0, 0, groups, end, turns)
    requires forall j: nat | j < |groups| :: HandsTokens(api, j, groups[j], tokens(j), Completed, turns)
    ensures SyncEnds(api, turns + 1)
    ensures var walk := GroupWalk(api, turns + 1);
            && !walk.Broken() && Walk(api.groups, false, START, turns + 1).end == end
            && walk.items == Flatten(WholeGroups(groups, tokens))
  {
    var v, ok := GroupVisit(api, turns + 1), TokensDemand(api, turns + 1);
    forall j: nat | j < |groups|
      ensures v(j, groups[j]) == Block(WholeGroups(groups, tokens)[j], Completed) && ok(j, groups[j])
    {
      GroupEmits(api, j, groups[j], tokens(j), Completed, turns);
    }
    HandsWalked(api.groups, false, START, groups, end, turns);
    hide Hands, HandsTokens, GroupVisit, TokensDemand, WholeTokens, Walk, EndsIn;
    WholeWalk(v, groups);
    AllMeet(v, ok, groups);
    BlockItemsAre(v, groups, WholeGroups(groups, tokens));
  }

  /** Otherwise it stops at the first group whose tokens fail, with those handed out before. */
  lemma SyncStopsAt(api: Api, groups: seq<Fields>, end: Ending, tokens: nat -> seq<Fields>, f: nat, turns: nat)
    requires Hands(api.groups, false, 0, 0, groups, end, turns) && f < |groups|
    requires forall j: nat | j < f :: HandsTokens(api, j, groups[j], tokens(j), Completed, turns)
    requires HandsTokens(api, f, groups[f], tokens(f), Failed, turns)
    ensures SyncEnds(api, turns + 1)
    ensures var walk := GroupWalk(api, turns + 1);
            && walk.end == Failed
            && walk.items == Flatten(WholeGroups(groups[..f], tokens)) + WholeTokens("group", groups[f], tokens(f))
  {
    var v, ok := GroupVisit(api, turns + 1), TokensDemand(api, turns + 1);
    forall j: nat | j < f
      ensures v(j, groups[j]) == Block(WholeGroups(groups[..f], tokens)[j], Completed) && ok(j, groups[j])
    {
      GroupEmits(api, j, groups[j], tokens(j), Completed, turns);
    }
    GroupEmits(api, f, groups[f], tokens(f), Failed, turns);
    HandsWalked(api.groups, false, START, groups, end, turns);
    hide Hands, HandsTokens, GroupVisit, TokensDemand, WholeTokens, Walk, EndsIn;
    WalkUpTo(v, ok, groups, f);
    BlockItemsAre(v, groups[..f], WholeGroups(groups[..f], tokens));
  }
}
