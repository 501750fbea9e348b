/** The GitHub source: its two page iterators and the nested synchronisation above them. */
module GitHub {
  import opened Endings
  import opened Values
  import opened Destination
  import opened Pipeline
  import opened Draining
  import opened Nested
  import opened Paging
  import opened Sequences

  /** What an entry of a wrapping object decodes to. */
  datatype Entry = NotAnArray | Elements(items: seq<Fields>)

  datatype Body = Malformed | Array(items: seq<Fields>) | Wrapper(entries: map<string, Entry>)

  /** A response, as far as the iterators look at it. */
  datatype Response =
    | NoResponse
    | Http(status: int, rateRemaining: string, relNext: bool, body: Body)

  /** The answer to the request for a page, counted from 1. Every page is requested at most once. */
  type Server = nat -> Response

  predicate RateLimited(r: Response)
    requires r.Http?
  {
    (r.status == 403 || r.status == 429) && r.rateRemaining == "0"
  }

  predicate Success(r: Response)
    requires r.Http?
  {
    !RateLimited(r) && 200 <= r.status < 300
  }

  /** How `pageIterator` reads a response. */
  function ReadPlain(r: Response): Reply {
    if r.NoResponse? || !Success(r) || !r.body.Array? then Failure
    else Page(r.body.items, r.relNext)
  }

  /** How `wrappedPageIterator` reads a response. */
  function ReadWrapped(key: string, r: Response): Reply {
    if r.NoResponse? || !Success(r) || !r.body.Wrapper? then Failure
    else if key !in r.body.entries || r.body.entries[key].NotAnArray? then Failure
    else Page(r.body.entries[key].items, r.relNext)
  }

  function PlainListing(server: Server): Listing {
    (n: nat) => ReadPlain(server(n + 1))
  }

  function WrappedListing(server: Server, key: string): Listing {
    (n: nat) => ReadWrapped(key, server(n + 1))
  }

  /** The pages 1, 2, ..., n. */
  function FirstPages(n: nat): seq<nat> {
    seq(n, i requires 0 <= i < n => i + 1)
  }

  class PageIterator {
    const server: Server
    var currPage: nat
    var done: bool
    ghost var requested: seq<nat>

    constructor (server: Server)
      ensures this.server == server && Valid() && Position() == START
    {
      this.server := server;
      currPage, done, requested := 0, false, [];
    }

    function Position(): Cursor
      reads this
    {
      Cursor(currPage, done)
    }

    /** The pages are requested in order, each once. */
    ghost predicate Valid()
      reads this
    {
      requested == FirstPages(currPage) && OnTheWay(PlainListing(server), Position())
    }

    method Next() returns (o: Outcome)
      requires Valid()
      modifies this
      ensures Valid()
      ensures (Position(), o) == Advance(PlainListing(server), old(Position()))
    {
      if done {
        return Exhausted;
      }
      currPage := currPage + 1;
      requested := requested + [currPage];
      var resp := server(currPage);
      if resp.NoResponse? {
        done := true;
        return Error;
      }
      if resp.status == 403 || resp.status == 429 {
        if resp.rateRemaining == "0" {
          done := true;
          return Error;
        }
      }
      if resp.status < 200 || resp.status >= 300 {
        done := true;
        return Error;
      }
      if !resp.body.Array? {
        done := true;
        return Error;
      }
      var items := resp.body.items;
      if |items| == 0 {
        done := true;
        return Exhausted;
      }
      if !resp.relNext {
        done := true;
      }
      o := Items(items);
    }
  }

  class WrappedPageIterator {
    const server: Server
    const responseKey: string
    var currPage: nat
    var done: bool
    ghost var requested: seq<nat>

    constructor (server: Server, responseKey: string)
      ensures this.server == server && this.responseKey == responseKey && Valid() && Position() == START
    {
      this.server, this.responseKey := server, responseKey;
      currPage, done, requested := 0, false, [];
    }

    function Position(): Cursor
      reads this
    {
      Cursor(currPage, done)
    }

    ghost predicate Valid()
      reads this
    {
      requested == FirstPages(currPage) && OnTheWay(WrappedListing(server, responseKey), Position())
    }

    method Next() returns (o: Outcome)
      requires Valid()
      modifies this
      ensures Valid()
      ensures (Position(), o) == Advance(WrappedListing(server, responseKey), old(Position()))
    {
      if done {
        return Exhausted;
      }
      currPage := currPage + 1;
      requested := requested + [currPage];
      var resp := server(currPage);
      if resp.NoResponse? {
        done := true;
        return Error;
      }
      if resp.status == 403 || resp.status == 429 {
        if resp.rateRemaining == "0" {
          done := true;
          return Error;
        }
      }
      if resp.status < 200 || resp.status >= 300 {
        done := true;
        return Error;
      }
      if !resp.body.Wrapper? {
        done := true;
        return Error;
      }
      if responseKey !in resp.body.entries {
        done := true;
        return Error;
      }
      if resp.body.entries[responseKey].NotAnArray? {
        done := true;
        return Error;
      }
      var items := resp.body.entries[responseKey].items;
      if |items| == 0 {
        done := true;
        return Exhausted;
      }
      if !resp.relNext {
        done := true;
      }
      o := Items(items);
    }
  }

  /** The response with its array, if it is one, wrapped under a key. */
  function Wrapped(r: Response, key: string): Response {
    if r.Http? && r.body.Array? then r.(body := Wrapper(map[key := Elements(r.body.items)]))
    else if r.Http? then r.(body := Malformed)
    else r
  }

  /** Over a server that wraps what another one answers plainly, the wrapped iterator does, call for call,
      what the plain iterator does over the other. */
  lemma WrappedIteratorSimulatesPlain(plain: Server, wrapping: Server, key: string, calls: nat)
    requires forall page: nat :: wrapping(page) == Wrapped(plain(page), key)
    ensures Calls(WrappedListing(wrapping, key), calls) == Calls(PlainListing(plain), calls)
  {
    forall n: nat ensures WrappedListing(wrapping, key)(n) == PlainListing(plain)(n) {
      assert ReadWrapped(key, Wrapped(plain(n + 1), key)) == ReadPlain(plain(n + 1));
    }
    SameAnswersSameCalls(WrappedListing(wrapping, key), PlainListing(plain), calls);
  }

  // ---- Synchronisation ----

  const REPOSITORY := "repository"
  const WORKFLOW_RUN := "workflow_run"
  const WORKFLOW_RUNS := "workflow_runs"

  /** The owner login and the name of a repository; "" where missing. */
  function OwnerAndName(repo: Fields): (string, string) {
    var name := match TextAt(repo, "name") case Some(s) => s case None => "";
    var login :=
      match ObjectAt(repo, "owner")
      case None => ""
      case Some(owner) => (match TextAt(owner, "login") case Some(s) => s case None => "");
    (login, name)
  }

  predicate Named(repo: Fields) {
    OwnerAndName(repo).0 != "" && OwnerAndName(repo).1 != ""
  }

  /** What the source talks to. For the j-th repository reached, `runs` gives the server of its runs by owner and
      name, and `languages` its languages by full name, `None` when the request fails. The rest are the checks of
      the context: before a page of repositories, before the j-th repository, and before a page of its runs. */
  datatype Api = Api(
    repositories: Server,
    runs: (nat, string, string) -> Server,
    languages: (nat, string) -> Option<Value>,
    pollsPages: Polls,
    pollsRepositories: Polls,
    pollsRuns: nat -> Polls)

  /** The server of the runs of a repository. */
  function RunsOf(api: Api, j: nat, repo: Fields): Server {
    api.runs(j, OwnerAndName(repo).0, OwnerAndName(repo).1)
  }

  datatype Request = Request(syncRepo: bool, syncRuns: bool)

  function RepositoryItem(api: Api, j: nat, repo: Fields): Item {
    var values := map[REPOSITORY := Object(repo)];
    var fullName := match TextAt(repo, "full_name") case Some(s) => s case None => "";
    Item(REPOSITORY, Upsert,
         if fullName == "" then values
         else match api.languages(j, fullName)
              case Some(languages) => values["repositoryLanguages" := languages]
              case None => values,
         Now)
  }

  function RunItem(run: Fields): Item {
    Item(WORKFLOW_RUN, Upsert, map[WORKFLOW_RUN := Object(run)], Now)
  }

  /** The runs reached, and how the loop ends. */
  function RunsBlock(server: Server, polls: Polls, repo: Fields, limit: nat): Block {
    if Named(repo) then Drained(WrappedListing(server, WORKFLOW_RUNS), polls, OneEach(RunItem), limit)
    else Block([], Completed)
  }

  /** What the j-th repository contributes: itself, then its runs up to their own first failing page or the
      cancellation, which ends the synchronisation. */
  function RepositoryBlock(api: Api, req: Request, limit: nat, j: nat, repo: Fields): Block {
    if api.pollsRepositories(j) then Block([], Cancelled)
    else
      var own := if req.syncRepo then [RepositoryItem(api, j, repo)] else [];
      var runs :=
        if req.syncRuns then RunsBlock(RunsOf(api, j, repo), api.pollsRuns(j), repo, limit) else Block([], Completed);
      Block(own + runs.items, runs.end)
  }

  function RepositoryVisit(api: Api, req: Request, limit: nat): Visit {
    (j: nat, repo: Fields) => RepositoryBlock(api, req, limit, j, repo)
  }

  /** The loop over the runs of the j-th repository, if there is one, ends within `limit` turns. */
  ghost predicate RunsEnd(api: Api, req: Request, limit: nat, j: nat, repo: Fields) {
    req.syncRuns && Named(repo) && !api.pollsRepositories(j) ==>
      StopsBy(WrappedListing(RunsOf(api, j, repo), WORKFLOW_RUNS), api.pollsRuns(j), limit)
  }

  ghost function RunsDemand(api: Api, req: Request, limit: nat): Demand {
    (j: nat, repo: Fields) => RunsEnd(api, req, limit, j, repo)
  }

  /** `runs` gives the server of the runs of an owner's repository. */
  method SyncRepositoryWorkflowRuns(runs: (string, string) -> Server, polls: Polls, repo: Fields, ghost limit: nat)
    returns (block: Block)
    requires var server := runs(OwnerAndName(repo).0, OwnerAndName(repo).1);
             Named(repo) ==> StopsBy(WrappedListing(server, WORKFLOW_RUNS), polls, limit)
    ensures block == RunsBlock(runs(OwnerAndName(repo).0, OwnerAndName(repo).1), polls, repo, limit)
  {
    var (owner, name) := OwnerAndName(repo);
    if owner == "" || name == "" {
      return Block([], Completed);
    }
    var server := runs(owner, name);
    ghost var l, v := WrappedListing(server, WORKFLOW_RUNS), OneEach(RunItem);
    assert Ends(l, polls, v, limit);
    StartsFreely(l, polls, v, limit);
    hide OwnerAndName, Named, ReadWrapped, StopsBy, VisitAll, Ends, Going, Drained;
    var p := NOTHING;
    var it := new WrappedPageIterator(server, WORKFLOW_RUNS);
    while true
      invariant fresh(it) && it.server == server && it.responseKey == WORKFLOW_RUNS && it.Valid()
      invariant !p.Broken() && Going(l, polls, v, NONE, it.Position(), p, limit)
      decreases limit - it.currPage
    {
      ghost var c := it.Position();
      TurnsLeft(l, polls, v, NONE, c, p, limit);
      LastTurn(l, polls, v, NONE, c, p, limit);
      if polls(it.currPage) {
        return Block(p.items, Cancelled);
      }
      var o := it.Next();
      match o
      case Exhausted => return Block(p.items, Completed);
      case Error => return Block(p.items, Failed);
      case Items(items) =>
        PageTurn(l, polls, v, NONE, c, p, limit);
        p := SendEach(RunItem, items, p);
    }
  }

  /** One repository; j were reached before it. */
  method SyncRepository(api: Api, req: Request, j: nat, repo: Fields, ghost limit: nat) returns (block: Block)
    requires RunsEnd(api, req, limit, j, repo)
    ensures block == RepositoryBlock(api, req, limit, j, repo)
  {
    hide ReadWrapped, RunsBlock, StopsBy;
    if api.pollsRepositories(j) {
      return Block([], Cancelled);
    }
    var results: seq<Item> := [];
    if req.syncRepo {
      results := [RepositoryItem(api, j, repo)];
    }
    if req.syncRuns {
      var runs := SyncRepositoryWorkflowRuns(
        (owner, name) => api.runs(j, owner, name), api.pollsRuns(j), repo, limit);
      return Block(results + runs.items, runs.end);
    }
    block := Block(results, Completed);
  }

  /** One page of repositories. */
  method SyncRepositoryPage(api: Api, req: Request, items: seq<Fields>, p: Progress, ghost limit: nat)
    returns (q: Progress)
    requires !p.Broken()
    requires AllVisited(RepositoryVisit(api, req, limit), RunsDemand(api, req, limit), items, p)
    ensures q == VisitAll(RepositoryVisit(api, req, limit), items, p)
  {
    hide RepositoryBlock, RunsEnd;
    ghost var v := RepositoryVisit(api, req, limit);
    q := p;
    for i := 0 to |items|
      invariant q == VisitAll(v, items[..i], p) && !q.Broken()
    {
      OneMore(v, items, i, p);
      VisitedAt(v, RunsDemand(api, req, limit), items, i, p);
      var block := SyncRepository(api, req, q.visited, items[i], limit);
      q := Progress(q.items + block.items, q.visited + 1, block.end);
      if q.Broken() {
        BrokenAfter(v, items, i + 1, p);
        return;
      }
    }
    assert items[..|items|] == items;
  }

  /** The call returns: the loops over the pages and over the runs of the repositories reached end. */
  ghost predicate SyncEnds(api: Api, req: Request, limit: nat) {
    var l, v := PlainListing(api.repositories), RepositoryVisit(api, req, limit);
    && Ends(l, api.pollsPages, v, limit)
    && Meets(l, api.pollsPages, v, RunsDemand(api, req, limit), limit)
  }

  /** Whatever fails and wherever the context is cancelled: each repository reached is emitted, followed by its
      runs, up to the first one whose runs fail or where the context is found cancelled. */
  method SyncRepositoryAssets(api: Api, req: Request, ghost limit: nat) returns (block: Block)
    requires SyncEnds(api, req, limit)
    ensures block == Drained(PlainListing(api.repositories), api.pollsPages, RepositoryVisit(api, req, limit), limit)
  {
    ghost var l, v := PlainListing(api.repositories), RepositoryVisit(api, req, limit);
    ghost var ok := RunsDemand(api, req, limit);
    var polls := api.pollsPages;
    StartsGoing(l, polls, v, ok, limit);
    hide ReadPlain, RepositoryBlock, RunsEnd, Ends, Meets, AllVisited, Going, Drained;
    var p := NOTHING;
    var it := new PageIterator(api.repositories);
    while true
      invariant fresh(it) && it.server == api.repositories && it.Valid()
      invariant !p.Broken() && Going(l, polls, v, ok, it.Position(), p, limit)
      decreases limit - it.currPage
    {
      ghost var c := it.Position();
      TurnsLeft(l, polls, v, ok, c, p, limit);
      LastTurn(l, polls, v, ok, c, p, limit);
      if polls(it.currPage) {
        return Block(p.items, Cancelled);
      }
      var o := it.Next();
      match o
      case Exhausted => return Block(p.items, Completed);
      case Error => return Block(p.items, Failed);
      case Items(items) =>
        PageTurn(l, polls, v, ok, c, p, limit);
        p := SyncRepositoryPage(api, req, items, p, limit);
        if p.Broken() {
          return Block(p.items, p.end);
        }
    }
  }

  // ---- Over responses ----

  /** A response with a 2xx status and an array: the body itself, or what stands under the key. */
  predicate IsPage(key: Option<string>, r: Response) {
    && r.Http? && 200 <= r.status < 300
    && match key
       case None => r.body.Array?
       case Some(k) => r.body.Wrapper? && k in r.body.entries && r.body.entries[k].Elements?
  }

  function ItemsOf(key: Option<string>, r: Response): seq<Fields>
    requires IsPage(key, r)
  {
    match key
    case None => r.body.items
    case Some(k) => r.body.entries[k].items
  }

  /** After n requests, the responses to those for the pages n + 1, n + 2, ... and the checks of the context hand
      `xs` to a loop and end it. */
  ghost predicate Hands(server: Server, key: Option<string>, polls: Polls, n: nat, xs: seq<Fields>, end: Ending)
    decreases |xs|
  {
    if polls(n) then xs == [] && end == Cancelled
    else if !IsPage(key, server(n + 1)) then xs == [] && end == Failed
    else
      var items := ItemsOf(key, server(n + 1));
      if items == [] then xs == [] && end == Completed
      else if server(n + 1).relNext then items <= xs && Hands(server, key, polls, n + 1, xs[|items|..], end)
      else xs == items && end == if polls(n + 1) then Cancelled else Completed
  }

  function ListingOf(server: Server, key: Option<string>): Listing {
    match key case None => PlainListing(server) case Some(k) => WrappedListing(server, k)
  }

  lemma {:induction false} HandsReached(server: Server, key: Option<string>, polls: Polls, n: nat, xs: seq<Fields>,
                                        end: Ending, limit: nat)
    requires Hands(server, key, polls, n, xs, end) && n + |xs| < limit
    ensures var l := ListingOf(server, key);
            StopsBy(l, polls, limit) && Reached(l, polls, n, limit) == xs && EndOf(l, polls, n, limit) == end
    decreases |xs|
  {
    var l := ListingOf(server, key);
    if !polls(n) && Continues(l(n)) {
      var items := ItemsOf(key, server(n + 1));
      HandsReached(server, key, polls, n + 1, xs[|items|..], end, limit);
      assert xs == items + xs[|items|..];
    }
  }

  lemma HandsGives(server: Server, key: Option<string>, polls: Polls, xs: seq<Fields>, end: Ending, limit: nat)
    requires Hands(server, key, polls, 0, xs, end) && |xs| < limit
    ensures Gives(ListingOf(server, key), polls, xs, end, limit)
  {
    HandsReached(server, key, polls, 0, xs, end, limit);
  }

  /** The name of a repository and the login of its owner, as far as they are texts. */
  lemma OwnerAndNameAre(repo: Fields)
    ensures OwnerAndName(repo).1 == if "name" in repo && repo["name"].Text? then repo["name"].text else ""
    ensures var login := OwnerAndName(repo).0;
            || (exists owner: Fields ::
                  && "owner" in repo && repo["owner"] == Object(owner)
                  && "login" in owner && owner["login"] == Text(login))
            || (&& login == ""
                && forall owner: Fields :: "owner" in repo && repo["owner"] == Object(owner) ==>
                     "login" !in owner || !owner["login"].Text?)
  {
    if "owner" in repo && repo["owner"].Object? {
      var owner := repo["owner"].fields;
      assert repo["owner"] == Object(owner);
    }
  }

  /** The record of a repository. */
  function OwnItem(api: Api, j: nat, repo: Fields): Item {
    Item("repository", Upsert,
         if "full_name" in repo && repo["full_name"].Text? && repo["full_name"].text != ""
            && api.languages(j, repo["full_name"].text).Some?
         then map["repository" := Object(repo),
                  "repositoryLanguages" := api.languages(j, repo["full_name"].text).value]
         else map["repository" := Object(repo)],
         Now)
  }

  function WholeRuns(runs: seq<Fields>): seq<Item> {
    seq(|runs|, i requires 0 <= i < |runs| =>
      Item("workflow_run", Upsert, map["workflow_run" := Object(runs[i])], Now))
  }

  /** What a repository should give when it is handed these runs. */
  function WholeBlock(api: Api, req: Request, j: nat, repo: Fields, runs: seq<Fields>): seq<Item> {
    (if req.syncRepo then [OwnItem(api, j, repo)] else [])
    + if req.syncRuns && Named(repo) then WholeRuns(runs) else []
  }

  function WholeBlocks(api: Api, req: Request, repos: seq<Fields>, runs: nat -> seq<Fields>): seq<seq<Item>> {
    seq(|repos|, j requires 0 <= j < |repos| => WholeBlock(api, req, j, repos[j], runs(j)))
  }

  /** No check before the j-th repository finds the context cancelled, and its server, if it is asked, hands out
      these runs. */
  ghost predicate HandsRuns(api: Api, req: Request, j: nat, repo: Fields, runs: seq<Fields>, end: Ending, limit: nat)
  {
    var (owner, name) := OwnerAndName(repo);
    && !api.pollsRepositories(j)
    && if req.syncRuns && owner != "" && name != ""
       then Hands(api.runs(j, owner, name), Some("workflow_runs"), api.pollsRuns(j), 0, runs, end) && |runs| < limit
       else end == Completed
  }

  lemma RepositoryEmits(api: Api, req: Request, j: nat, repo: Fields, runs: seq<Fields>, end: Ending, limit: nat)
    requires HandsRuns(api, req, j, repo, runs, end, limit)
    ensures RepositoryBlock(api, req, limit, j, repo) == Block(WholeBlock(api, req, j, repo, runs), end)
    ensures RunsEnd(api, req, limit, j, repo)
  {
    assert RepositoryItem(api, j, repo) == OwnItem(api, j, repo);
    if req.syncRuns && Named(repo) {
      var server, key, polls := RunsOf(api, j, repo), Some("workflow_runs"), api.pollsRuns(j);
      hide Hands, OwnerAndName, Reached, EndOf, OwnItem, RepositoryItem;
      HandsGives(server, key, polls, runs, end, limit);
      DrainsOneEach(ListingOf(server, key), polls, RunItem, runs, end, WholeRuns(runs), limit);
    }
  }

  /** When no runs fail and nothing is cancelled before the listing ends, the synchronisation emits every repository
      it is handed, in order, each followed by its runs in order, and nothing else, and ends with the listing. */
  lemma SyncEmitsEverything(api: Api, req: Request, repos: seq<Fields>, end: Ending, runs: nat -> seq<Fields>,
                            limit: nat)
    requires Hands(api.repositories, None, api.pollsPages, 0, repos, end) && |repos| < limit
    requires forall j: nat | j < |repos| :: HandsRuns(api, req, j, repos[j], runs(j), Completed, limit)
    ensures SyncEnds(api, req, limit)
    ensures Drained(PlainListing(api.repositories), api.pollsPages, RepositoryVisit(api, req, limit), limit)
         == Block(Flatten(WholeBlocks(api, req, repos, runs)), end)
  {
    var v, ok := RepositoryVisit(api, req, limit), RunsDemand(api, req, limit);
    forall j: nat | j < |repos|
      ensures v(j, repos[j]) == Block(WholeBlocks(api, req, repos, runs)[j], Completed) && ok(j, repos[j])
    {
      RepositoryEmits(api, req, j, repos[j], runs(j), Completed, limit);
    }
    HandsGives(api.repositories, None, api.pollsPages, repos, end, limit);
    hide Hands, HandsRuns, Gives, Ends, Meets, Drained, WholeBlock, RepositoryVisit, RunsDemand, Flatten;
    DrainsAll(PlainListing(api.repositories), api.pollsPages, v, ok, repos, end, WholeBlocks(api, req, repos, runs),
              limit);
  }

  /** Otherwise it stops at the first repository before which a check finds the context cancelled, or whose runs fail
      or are cancelled, with what that one has given. */
  lemma SyncStopsAt(api: Api, req: Request, repos: seq<Fields>, end: Ending, runs: nat -> seq<Fields>, f: nat,
                    stop: Ending, limit: nat)
    requires Hands(api.repositories, None, api.pollsPages, 0, repos, end) && |repos| < limit && f < |repos|
    requires forall j: nat | j < f :: HandsRuns(api, req, j, repos[j], runs(j), Completed, limit)
    requires stop != Completed
    requires || (stop == Cancelled && api.pollsRepositories(f))
             || HandsRuns(api, req, f, repos[f], runs(f), stop, limit)
    ensures SyncEnds(api, req, limit)
    ensures var before := Flatten(WholeBlocks(api, req, repos[..f], runs));
            var block :=
              Drained(PlainListing(api.repositories), api.pollsPages, RepositoryVisit(api, req, limit), limit);
            if api.pollsRepositories(f) then block == Block(before, Cancelled)
            else block == Block(before + WholeBlock(api, req, f, repos[f], runs(f)), stop)
  {
    var v, ok, out := RepositoryVisit(api, req, limit), RunsDemand(api, req, limit),
                      WholeBlocks(api, req, repos[..f], runs);
    forall j: nat | j < f
      ensures v(j, repos[j]) == Block(out[j], Completed) && ok(j, repos[j])
    {
      RepositoryEmits(api, req, j, repos[j], runs(j), Completed, limit);
    }
    if !api.pollsRepositories(f) {
      RepositoryEmits(api, req, f, repos[f], runs(f), stop, limit);
    }
    HandsGives(api.repositories, None, api.pollsPages, repos, end, limit);
    var last := v(f, repos[f]);
    assert last.end == stop && ok(f, repos[f]);
    hide Hands, HandsRuns, Gives, Ends, Meets, Drained, WholeBlock, RepositoryVisit, RunsDemand, Flatten;
    DrainsUpTo(PlainListing(api.repositories), api.pollsPages, v, ok, repos, end, out, f, last, limit);
  }
}
