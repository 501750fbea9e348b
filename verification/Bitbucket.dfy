/** The Bitbucket source: its next-URL iterator and the three nested synchronisation loops. */
module Bitbucket {
  import opened Endings
  import opened Values
  import opened Destination
  import opened Pipeline
  import opened Draining
  import opened Nested
  import opened Paging
  import opened Sequences

  datatype Document = Document(values: seq<Fields>, next: string)

  /** `body` is `None` when it cannot be decoded. */
  datatype Response = NoResponse | Http(status: int, body: Option<Document>)

  /** The answer to the n-th request of an iterator, which is for the given URL. */
  type Server = (nat, string) -> Response

  function Read(r: Response): Reply {
    if r.NoResponse? || r.status < 200 || r.status >= 300 || r.body.None? then Failure
    else Page(r.body.value.values, r.body.value.next != "")
  }

  /** The URL of the n-th request: the first one, then the one announced by the page before. */
  function UrlAt(server: Server, first: string, n: nat): string {
    if n == 0 then first
    else
      var previous := UrlAt(server, first, n - 1);
      var r := server(n - 1, previous);
      if Continues(Read(r)) then r.body.value.next else previous
  }

  function ChainListing(server: Server, first: string): Listing {
    (n: nat) => Read(server(n, UrlAt(server, first, n)))
  }

  /** A response that sends the iterator on to a URL. */
  predicate Announces(r: Response, url: string) {
    && r.Http? && 200 <= r.status < 300
    && r.body.Some? && r.body.value.values != []
    && r.body.value.next == url && url != ""
  }

  /** The requests follow the chain: the first URL, then each time the one announced by the response before. */
  ghost predicate FollowsTheChain(requested: seq<string>, server: Server, first: string) {
    && (requested != [] ==> requested[0] == first)
    && forall i | 0 < i < |requested| :: Announces(server(i - 1, requested[i - 1]), requested[i])
  }

  lemma {:induction false} ChainUrls(requested: seq<string>, server: Server, first: string, i: nat)
    requires FollowsTheChain(requested, server, first) && i < |requested|
    ensures requested[i] == UrlAt(server, first, i)
  {
    if i == 0 {
    } else {
      ChainUrls(requested, server, first, i - 1);
    }
  }

  lemma NextInChain(requested: seq<string>, server: Server, first: string, url: string)
    requires requested != [] && FollowsTheChain(requested, server, first)
    requires Announces(server(|requested| - 1, requested[|requested| - 1]), url)
    ensures FollowsTheChain(requested + [url], server, first)
  {
  }

  class PageIterator {
    const server: Server
    ghost const first: string
    var nextURL: string
    var done: bool
    /** The URLs requested so far. */
    ghost var requested: seq<string>
    var count: nat

    constructor (server: Server, first: string)
      ensures this.server == server && this.first == first && Valid() && Position() == START
    {
      this.server, this.first := server, first;
      nextURL, done, requested, count := first, false, [], 0;
    }

    function Position(): Cursor
      reads this
    {
      Cursor(count, done)
    }

    ghost predicate Valid()
      reads this
    {
      && |requested| == count
      && FollowsTheChain(requested, server, first)
      && (!done ==> FollowsTheChain(requested + [nextURL], server, first))
      && OnTheWay(ChainListing(server, first), Position())
    }

    method Next() returns (o: Outcome)
      requires Valid()
      modifies this
      ensures Valid()
      ensures (Position(), o) == Advance(ChainListing(server, first), old(Position()))
    {
      if done {
        return Exhausted;
      }
      ChainUrls(requested + [nextURL], server, first, count);
      var resp := server(count, nextURL);
      requested := requested + [nextURL];
      count := count + 1;
      if resp.NoResponse? {
        done := true;
        return Error;
      }
      if resp.status < 200 || resp.status >= 300 {
        done := true;
        return Error;
      }
      if resp.body.None? {
        done := true;
        return Error;
      }
      var page := resp.body.value;
      if |page.values| == 0 {
        done := true;
        return Exhausted;
      }
      if page.next == "" {
        done := true;
      } else {
        nextURL := page.next;
        NextInChain(requested, server, first, nextURL);
      }
      o := Items(page.values);
    }
  }

  // ---- Synchronisation ----

  const REPOSITORY := "repository"
  const PIPELINE := "pipeline"

  function WorkspaceSlug(access: Fields): string {
    var nested := match ObjectAt(access, "workspace") case Some(ws) => TextAt(ws, "slug") case None => None;
    match nested
    case Some(slug) => slug
    case None => (match TextAt(access, "slug") case Some(slug) => slug case None => "")
  }

  function RepositorySlug(repo: Fields): string {
    match TextAt(repo, "slug")
    case Some(slug) => slug
    case None => (match TextAt(repo, "name") case Some(name) => name case None => "")
  }

  /** What the source talks to: for the w-th workspace and its j-th repository, with the first URL of each
      listing. The rest are the checks of the context: before a page of workspaces, before a workspace, before a
      page of its repositories, before a repository, and before a page of its pipelines. */
  datatype Api = Api(
    workspaces: Server,
    workspacesURL: string,
    repositories: nat -> Server,
    repositoriesURL: string -> string,
    pipelines: (nat, nat) -> Server,
    pipelinesURL: (string, string) -> string,
    pollsWorkspacePages: Polls,
    pollsWorkspaces: nat -> bool,
    pollsRepositoryPages: nat -> Polls,
    pollsRepositories: (nat, nat) -> bool,
    pollsPipelines: (nat, nat) -> Polls)
  {
    function Workspaces(): Listing {
      ChainListing(workspaces, workspacesURL)
    }

    function Repositories(w: nat, slug: string): Listing {
      ChainListing(repositories(w), repositoriesURL(slug))
    }

    function Pipelines(w: nat, slug: string, j: nat, repo: Fields): Listing {
      ChainListing(pipelines(w, j), pipelinesURL(slug, RepositorySlug(repo)))
    }
  }

  datatype Request = Request(syncRepo: bool, syncPipeline: bool)

  function RepositoryItem(repo: Fields): Item {
    Item(REPOSITORY, Upsert, map[REPOSITORY := Object(repo)], Now)
  }

  function PipelineItem(repo: Fields, pipeline: Fields): Item {
    Item(PIPELINE, Upsert, map[REPOSITORY := Object(repo), PIPELINE := Object(pipeline)], Now)
  }

  function PipelineVisit(repo: Fields): Visit {
    OneEach(PipelineOf(repo))
  }

  function PipelineOf(repo: Fields): Fields -> Item {
    pipeline => PipelineItem(repo, pipeline)
  }

  /** A repository without a slug has no pipelines. */
  function PipelinesBlock(l: Listing, polls: Polls, repo: Fields, limit: nat): Block {
    if RepositorySlug(repo) == "" then Block([], Completed) else Drained(l, polls, PipelineVisit(repo), limit)
  }

  /** A repository contributes itself and its pipelines up to their own first failing page; that failure
      concerns no other repository. */
  function RepositoryBlock(api: Api, req: Request, limit: nat, w: nat, slug: string, j: nat, repo: Fields): Block {
    if api.pollsRepositories(w, j) then Block([], Cancelled)
    else
      Block((if req.syncRepo then [RepositoryItem(repo)] else [])
            + (if req.syncPipeline
               then PipelinesBlock(api.Pipelines(w, slug, j, repo), api.pollsPipelines(w, j), repo, limit).items
               else []),
            Completed)
  }

  function RepositoryVisit(api: Api, req: Request, limit: nat, w: nat, slug: string): Visit {
    (j: nat, repo: Fields) => RepositoryBlock(api, req, limit, w, slug, j, repo)
  }

  /** A workspace contributes its repositories on the pages reached. */
  function WorkspaceBlock(api: Api, req: Request, limit: nat, w: nat, slug: string): Block {
    Drained(api.Repositories(w, slug), api.pollsRepositoryPages(w), RepositoryVisit(api, req, limit, w, slug), limit)
  }

  /** A workspace without a slug is skipped; a failing page of repositories ends everything; a cancellation
      within a workspace returns no error. */
  function WorkspaceVisit(api: Api, req: Request, limit: nat): Visit {
    (w: nat, access: Fields) =>
      if api.pollsWorkspaces(w) then Block([], Cancelled)
      else if WorkspaceSlug(access) == "" then Block([], Completed)
      else NoErrorWhenCancelled(WorkspaceBlock(api, req, limit, w, WorkspaceSlug(access)))
  }

  function NoErrorWhenCancelled(block: Block): Block {
    if block.end.Cancelled? then Block(block.items, Completed) else block
  }

  /** The loop over the pipelines of a repository, if there is one, ends within `limit` turns. */
  ghost predicate PipelinesEnd(api: Api, req: Request, limit: nat, w: nat, slug: string, j: nat, repo: Fields) {
    req.syncPipeline && RepositorySlug(repo) != "" && !api.pollsRepositories(w, j) ==>
      StopsBy(api.Pipelines(w, slug, j, repo), api.pollsPipelines(w, j), limit)
  }

  ghost function PipelinesDemand(api: Api, req: Request, limit: nat, w: nat, slug: string): Demand {
    (j: nat, repo: Fields) => PipelinesEnd(api, req, limit, w, slug, j, repo)
  }

  /** So do the loop over the repositories of a workspace and those over the pipelines of the ones reached. */
  ghost predicate WorkspaceEnds(api: Api, req: Request, limit: nat, w: nat, slug: string) {
    var l, polls := api.Repositories(w, slug), api.pollsRepositoryPages(w);
    var v := RepositoryVisit(api, req, limit, w, slug);
    Ends(l, polls, v, limit) && Meets(l, polls, v, PipelinesDemand(api, req, limit, w, slug), limit)
  }

  ghost function WorkspaceDemand(api: Api, req: Request, limit: nat): Demand {
    (w: nat, access: Fields) =>
      WorkspaceSlug(access) != "" && !api.pollsWorkspaces(w) ==>
        WorkspaceEnds(api, req, limit, w, WorkspaceSlug(access))
  }

  /** The call returns: the loops over the workspaces and within those reached end, or those within the
      configured workspace. */
  ghost predicate SyncEnds(api: Api, req: Request, workspace: string, limit: nat) {
    if workspace != "" then WorkspaceEnds(api, req, limit, 0, workspace)
    else
      var l, polls, v := api.Workspaces(), api.pollsWorkspacePages, WorkspaceVisit(api, req, limit);
      Ends(l, polls, v, limit) && Meets(l, polls, v, WorkspaceDemand(api, req, limit), limit)
  }

  /** `url` gives the first URL of the pipelines of a repository slug. */
  method SyncRepositoryPipelines(server: Server, url: string -> string, polls: Polls, repo: Fields, ghost limit: nat)
    returns (block: Block)
    requires RepositorySlug(repo) != "" ==> StopsBy(ChainListing(server, url(RepositorySlug(repo))), polls, limit)
    ensures block == PipelinesBlock(ChainListing(server, url(RepositorySlug(repo))), polls, repo, limit)
  {
    var repoSlug := RepositorySlug(repo);
    if repoSlug == "" {
      return Block([], Completed);
    }
    ghost var l, v := ChainListing(server, url(repoSlug)), PipelineVisit(repo);
    assert Ends(l, polls, v, limit);
    StartsFreely(l, polls, v, limit);
    hide RepositorySlug, UrlAt, Read, Ends, Going, Drained;
    var p := NOTHING;
    var it := new PageIterator(server, url(repoSlug));
    while true
      invariant fresh(it) && it.server == server && it.first == url(repoSlug) && it.Valid()
      invariant !p.Broken() && Going(l, polls, v, NONE, it.Position(), p, limit)
      decreases limit - it.count
    {
      ghost var c := it.Position();
      TurnsLeft(l, polls, v, NONE, c, p, limit);
      LastTurn(l, polls, v, NONE, c, p, limit);
      if polls(it.count) {
        return Block(p.items, Cancelled);
      }
      var o := it.Next();
      match o
      case Exhausted => return Block(p.items, Completed);
      case Error => return Block(p.items, Failed);
      case Items(pipelines) =>
        PageTurn(l, polls, v, NONE, c, p, limit);
        p := SendEach(PipelineOf(repo), pipelines, p);
    }
  }

  /** One repository of a workspace; j were reached before it. A failure of its pipelines is logged. */
  method SyncRepository(api: Api, req: Request, w: nat, slug: string, j: nat, repo: Fields, ghost limit: nat)
    returns (block: Block)
    requires PipelinesEnd(api, req, limit, w, slug, j, repo)
    ensures block == RepositoryBlock(api, req, limit, w, slug, j, repo)
  {
    hide PipelinesBlock, UrlAt, Read, StopsBy;
    if api.pollsRepositories(w, j) {
      return Block([], Cancelled);
    }
    var results: seq<Item> := [];
    if req.syncRepo {
      results := [RepositoryItem(repo)];
    }
    if req.syncPipeline {
      var pipelines := SyncRepositoryPipelines(
        api.pipelines(w, j), repoSlug => api.pipelinesURL(slug, repoSlug), api.pollsPipelines(w, j), repo, limit);
      results := results + pipelines.items;
    }
    block := Block(results, Completed);
  }

  /** One page of repositories of a workspace. */
  method SyncRepositoryPage(
      api: Api, req: Request, w: nat, slug: string, repos: seq<Fields>, p: Progress, ghost limit: nat)
    returns (q: Progress)
    requires !p.Broken()
    requires AllVisited(RepositoryVisit(api, req, limit, w, slug), PipelinesDemand(api, req, limit, w, slug), repos, p)
    ensures q == VisitAll(RepositoryVisit(api, req, limit, w, slug), repos, p)
  {
    hide RepositoryBlock, PipelinesEnd;
    ghost var v := RepositoryVisit(api, req, limit, w, slug);
    q := p;
    for i := 0 to |repos|
      invariant q == VisitAll(v, repos[..i], p) && !q.Broken()
    {
      OneMore(v, repos, i, p);
      VisitedAt(v, PipelinesDemand(api, req, limit, w, slug), repos, i, p);
      var block := SyncRepository(api, req, w, slug, q.visited, repos[i], limit);
      q := Progress(q.items + block.items, q.visited + 1, block.end);
      if q.Broken() {
        BrokenAfter(v, repos, i + 1, p);
        return;
      }
    }
    assert repos[..|repos|] == repos;
  }

  method SyncRepositoriesForWorkspace(api: Api, req: Request, w: nat, slug: string, ghost limit: nat)
    returns (block: Block)
    requires WorkspaceEnds(api, req, limit, w, slug)
    ensures block == WorkspaceBlock(api, req, limit, w, slug)
  {
    ghost var l, v := api.Repositories(w, slug), RepositoryVisit(api, req, limit, w, slug);
    ghost var ok := PipelinesDemand(api, req, limit, w, slug);
    var polls := api.pollsRepositoryPages(w);
    StartsGoing(l, polls, v, ok, limit);
    hide UrlAt, Read, RepositoryBlock, PipelinesEnd, Ends, Meets, AllVisited, Going, Drained;
    var p := NOTHING;
    var it := new PageIterator(api.repositories(w), api.repositoriesURL(slug));
    while true
      invariant fresh(it) && it.server == api.repositories(w) && it.first == api.repositoriesURL(slug) && it.Valid()
      invariant !p.Broken() && Going(l, polls, v, ok, it.Position(), p, limit)
      decreases limit - it.count
    {
      ghost var c := it.Position();
      TurnsLeft(l, polls, v, ok, c, p, limit);
      LastTurn(l, polls, v, ok, c, p, limit);
      if polls(it.count) {
        return Block(p.items, Cancelled);
      }
      var o := it.Next();
      match o
      case Exhausted => return Block(p.items, Completed);
      case Error => return Block(p.items, Failed);
      case Items(repos) =>
        PageTurn(l, polls, v, ok, c, p, limit);
        p := SyncRepositoryPage(api, req, w, slug, repos, p, limit);
        if p.Broken() {
          return Block(p.items, p.end);
        }
    }
  }

  /** One page of workspaces. */
  method SyncWorkspacePage(api: Api, req: Request, accesses: seq<Fields>, p: Progress, ghost limit: nat)
    returns (q: Progress)
    requires !p.Broken()
    requires AllVisited(WorkspaceVisit(api, req, limit), WorkspaceDemand(api, req, limit), accesses, p)
    ensures q == VisitAll(WorkspaceVisit(api, req, limit), accesses, p)
  {
    hide WorkspaceBlock, WorkspaceSlug, WorkspaceEnds;
    ghost var v := WorkspaceVisit(api, req, limit);
    q := p;
    for i := 0 to |accesses|
      invariant q == VisitAll(v, accesses[..i], p) && !q.Broken()
    {
      OneMore(v, accesses, i, p);
      VisitedAt(v, WorkspaceDemand(api, req, limit), accesses, i, p);
      if api.pollsWorkspaces(q.visited) {
        q := Progress(q.items + [], q.visited + 1, Cancelled);
        BrokenAfter(v, accesses, i + 1, p);
        return;
      }
      var slug := WorkspaceSlug(accesses[i]);
      if slug == "" {
        q := Progress(q.items + [], q.visited + 1, Completed);
        continue;
      }
      var block := SyncRepositoriesForWorkspace(api, req, q.visited, slug, limit);
      if block.end.Failed? {
        q := Progress(q.items + block.items, q.visited + 1, Failed);
        BrokenAfter(v, accesses, i + 1, p);
        return;
      }
      q := Progress(q.items + block.items, q.visited + 1, Completed);
    }
    assert accesses[..|accesses|] == accesses;
  }

  /** What is to be emitted, and how the synchronisation ends: for the configured workspace if there is one,
      otherwise for all the workspaces on the pages reached. */
  function Expected(api: Api, req: Request, workspace: string, limit: nat): Block {
    if workspace != "" then WorkspaceBlock(api, req, limit, 0, workspace)
    else Drained(api.Workspaces(), api.pollsWorkspacePages, WorkspaceVisit(api, req, limit), limit)
  }

  /** Whatever fails and wherever the context is cancelled. */
  method SyncWorkspaceAssets(api: Api, req: Request, workspace: string, ghost limit: nat) returns (block: Block)
    requires SyncEnds(api, req, workspace, limit)
    ensures block == Expected(api, req, workspace, limit)
  {
    if workspace != "" {
      block := SyncRepositoriesForWorkspace(api, req, 0, workspace, limit);
      return;
    }
    ghost var l, v := api.Workspaces(), WorkspaceVisit(api, req, limit);
    ghost var ok := WorkspaceDemand(api, req, limit);
    var polls := api.pollsWorkspacePages;
    StartsGoing(l, polls, v, ok, limit);
    hide UrlAt, Read, WorkspaceBlock, WorkspaceEnds, Ends, Meets, AllVisited, Going, Drained;
    var p := NOTHING;
    var it := new PageIterator(api.workspaces, api.workspacesURL);
    while true
      invariant fresh(it) && it.server == api.workspaces && it.first == api.workspacesURL && it.Valid()
      invariant !p.Broken() && Going(l, polls, v, ok, it.Position(), p, limit)
      decreases limit - it.count
    {
      ghost var c := it.Position();
      TurnsLeft(l, polls, v, ok, c, p, limit);
      LastTurn(l, polls, v, ok, c, p, limit);
      if polls(it.count) {
        return Block(p.items, Cancelled);
      }
      var o := it.Next();
      match o
      case Exhausted => return Block(p.items, Completed);
      case Error => return Block(p.items, Failed);
      case Items(accesses) =>
        PageTurn(l, polls, v, ok, c, p, limit);
        p := SyncWorkspacePage(api, req, accesses, p, limit);
        if p.Broken() {
          return Block(p.items, p.end);
        }
    }
  }

  lemma {:induction false} NeverBroken(v: Visit, xs: seq<Fields>, p: Progress)
    requires !p.Broken() && forall j: nat, x: Fields :: v(j, x).end.Completed?
    ensures !VisitAll(v, xs, p).Broken()
  {
    if xs == [] {
    } else {
      NeverBroken(v, xs[..|xs| - 1], p);
    }
  }

  /** Within a workspace no repository is lost to another one's failure: the output is a beginning of the flat
      map of the blocks of all the repositories on the pages reached, and the whole of it unless a check before a
      repository finds the context cancelled. */
  lemma NoRepositoryIsLost(api: Api, req: Request, limit: nat, w: nat, slug: string)
    ensures var all := Flatten(BlockItems(RepositoryVisit(api, req, limit, w, slug),
                                          Reached(api.Repositories(w, slug), api.pollsRepositoryPages(w), 0, limit)));
            && WorkspaceBlock(api, req, limit, w, slug).items <= all
            && ((forall j: nat :: !api.pollsRepositories(w, j)) ==>
                  WorkspaceBlock(api, req, limit, w, slug).items == all)
  {
    var v := RepositoryVisit(api, req, limit, w, slug);
    var repos := Reached(api.Repositories(w, slug), api.pollsRepositoryPages(w), 0, limit);
    WalkEmitsPrefix(v, repos);
    if forall j: nat :: !api.pollsRepositories(w, j) {
      NeverBroken(v, repos, NOTHING);
    }
  }

  // ---- Over responses ----

  /** From the n-th request on, which is for `url`, the responses and the checks of the context hand `xs` to a loop
      and end it. */
  ghost predicate Hands(server: Server, url: string, polls: Polls, n: nat, xs: seq<Fields>, end: Ending)
    decreases |xs|
  {
    if polls(n) then xs == [] && end == Cancelled
    else
      match server(n, url)
      case NoResponse => xs == [] && end == Failed
      case Http(status, None) => xs == [] && end == Failed
      case Http(status, Some(page)) =>
        if status < 200 || 300 <= status then xs == [] && end == Failed
        else if page.values == [] then xs == [] && end == Completed
        else if page.next == "" then xs == page.values && end == if polls(n + 1) then Cancelled else Completed
        else page.values <= xs && Hands(server, page.next, polls, n + 1, xs[|page.values|..], end)
  }

  lemma {:induction false} HandsReached(server: Server, first: string, polls: Polls, n: nat, xs: seq<Fields>,
                                        end: Ending, limit: nat)
    requires Hands(server, UrlAt(server, first, n), polls, n, xs, end) && n + |xs| < limit
    ensures var l := ChainListing(server, first);
            StopsBy(l, polls, limit) && Reached(l, polls, n, limit) == xs && EndOf(l, polls, n, limit) == end
    decreases |xs|
  {
    var l, r := ChainListing(server, first), server(n, UrlAt(server, first, n));
    if !polls(n) && Continues(l(n)) {
      var page := r.body.value;
      assert UrlAt(server, first, n + 1) == page.next;
      HandsReached(server, first, polls, n + 1, xs[|page.values|..], end, limit);
      assert xs == page.values + xs[|page.values|..];
    }
  }

  lemma HandsGives(server: Server, first: string, polls: Polls, xs: seq<Fields>, end: Ending, limit: nat)
    requires Hands(server, first, polls, 0, xs, end) && |xs| < limit
    ensures Gives(ChainListing(server, first), polls, xs, end, limit)
  {
    HandsReached(server, first, polls, 0, xs, end, limit);
  }

  /** The slug of a repository is its "slug" if that is a text, otherwise its "name" if that is one. */
  lemma RepositorySlugIs(repo: Fields)
    ensures "slug" in repo && repo["slug"].Text? ==> RepositorySlug(repo) == repo["slug"].text
    ensures !("slug" in repo && repo["slug"].Text?) ==>
              RepositorySlug(repo) == if "name" in repo && repo["name"].Text? then repo["name"].text else ""
  {
  }

  /** That of a workspace is the "slug" of its "workspace", if it has one that is a text, otherwise its own. */
  lemma WorkspaceSlugIs(access: Fields)
    ensures (exists ws: Fields :: "workspace" in access && access["workspace"] == Object(ws)
                                  && "slug" in ws && ws["slug"] == Text(WorkspaceSlug(access)))
         || (&& (forall ws: Fields :: "workspace" in access && access["workspace"] == Object(ws) ==>
                   "slug" !in ws || !ws["slug"].Text?)
             && WorkspaceSlug(access)
             == if "slug" in access && access["slug"].Text? then access["slug"].text else "")
  {
    if "workspace" in access && access["workspace"].Object? {
      var ws := access["workspace"].fields;
      assert access["workspace"] == Object(ws);
    }
  }

  /** What the servers of a workspace hand out: repositories, each with its pipelines. Before the one at `cut`, if
      there is one, a check finds the context cancelled. */
  datatype Held = Held(
    repos: seq<Fields>,
    listed: Ending,
    pipelines: nat -> seq<Fields>,
    ends: nat -> Ending,
    cut: nat)
  {
    function End(): Ending {
      if cut < |repos| then Cancelled else listed
    }
  }

  ghost predicate Holds(api: Api, req: Request, w: nat, slug: string, held: Held, limit: nat) {
    && Hands(api.repositories(w), api.repositoriesURL(slug), api.pollsRepositoryPages(w), 0, held.repos, held.listed)
    && |held.repos| < limit
    && held.cut <= |held.repos| && (held.cut < |held.repos| ==> api.pollsRepositories(w, held.cut))
    && forall j: nat | j < held.cut :: !api.pollsRepositories(w, j) && HoldsPipelines(api, req, w, slug, held, j, limit)
  }

  ghost predicate HoldsPipelines(api: Api, req: Request, w: nat, slug: string, held: Held, j: nat, limit: nat)
    requires j < |held.repos|
  {
    var repoSlug := RepositorySlug(held.repos[j]);
    req.syncPipeline && repoSlug != "" ==>
      && Hands(api.pipelines(w, j), api.pipelinesURL(slug, repoSlug), api.pollsPipelines(w, j), 0, held.pipelines(j),
               held.ends(j))
      && |held.pipelines(j)| < limit
  }

  /** What a repository and its pipelines should give. */
  function WholeBlock(req: Request, repo: Fields, pipelines: seq<Fields>): seq<Item> {
    (if req.syncRepo then [Item("repository", Upsert, map["repository" := Object(repo)], Now)] else [])
    + if req.syncPipeline && RepositorySlug(repo) != "" then WholePipelines(repo, pipelines) else []
  }

  function WholePipelines(repo: Fields, pipelines: seq<Fields>): seq<Item> {
    seq(|pipelines|, i requires 0 <= i < |pipelines| =>
      Item("pipeline", Upsert, map["repository" := Object(repo), "pipeline" := Object(pipelines[i])], Now))
  }

  function WholeBlocks(req: Request, held: Held): seq<seq<Item>>
    requires held.cut <= |held.repos|
  {
    seq(held.cut, j requires 0 <= j < held.cut => WholeBlock(req, held.repos[j], held.pipelines(j)))
  }

  lemma PipelinesEmit(api: Api, req: Request, w: nat, slug: string, held: Held, j: nat, limit: nat)
    requires j < |held.repos| && !api.pollsRepositories(w, j) && HoldsPipelines(api, req, w, slug, held, j, limit)
    ensures RepositoryBlock(api, req, limit, w, slug, j, held.repos[j])
         == Block(WholeBlock(req, held.repos[j], held.pipelines(j)), Completed)
    ensures PipelinesEnd(api, req, limit, w, slug, j, held.repos[j])
  {
    var repo, pipelines, end := held.repos[j], held.pipelines(j), held.ends(j);
    if req.syncPipeline && RepositorySlug(repo) != "" {
      var l, polls := api.Pipelines(w, slug, j, repo), api.pollsPipelines(w, j);
      hide Hands, RepositorySlug, UrlAt, Reached, EndOf;
      HandsGives(api.pipelines(w, j), api.pipelinesURL(slug, RepositorySlug(repo)), polls, pipelines, end, limit);
      DrainsOneEach(l, polls, PipelineOf(repo), pipelines, end, WholePipelines(repo, pipelines), limit);
    }
  }

  /** A workspace gives every repository it is handed, in order, each followed by all the pipelines it is handed,
      in order, whatever the listing of the pipelines ends with, and nothing else, up to a check before a repository
      that finds the context cancelled. */
  lemma WorkspaceEmits(api: Api, req: Request, w: nat, slug: string, held: Held, limit: nat)
    requires Holds(api, req, w, slug, held, limit)
    ensures WorkspaceEnds(api, req, limit, w, slug)
    ensures WorkspaceBlock(api, req, limit, w, slug) == Block(Flatten(WholeBlocks(req, held)), held.End())
  {
    var l, polls := api.Repositories(w, slug), api.pollsRepositoryPages(w);
    var v, ok := RepositoryVisit(api, req, limit, w, slug), PipelinesDemand(api, req, limit, w, slug);
    forall j: nat | j < held.cut
      ensures v(j, held.repos[j]) == Block(WholeBlocks(req, held)[j], Completed) && ok(j, held.repos[j])
    {
      PipelinesEmit(api, req, w, slug, held, j, limit);
    }
    HandsGives(api.repositories(w), api.repositoriesURL(slug), polls, held.repos, held.listed, limit);
    if held.cut < |held.repos| {
      var f := held.cut;
      assert v(f, held.repos[f]) == Block([], Cancelled) && ok(f, held.repos[f]);
      hide Hands, Gives, Ends, Meets, Drained, HoldsPipelines, WholeBlock, RepositoryBlock, PipelinesEnd, Flatten;
      DrainsUpTo(l, polls, v, ok, held.repos, held.listed, WholeBlocks(req, held), f, Block([], Cancelled), limit);
    } else {
      hide Hands, Gives, Ends, Meets, Drained, HoldsPipelines, WholeBlock, RepositoryBlock, PipelinesEnd, Flatten;
      DrainsAll(l, polls, v, ok, held.repos, held.listed, WholeBlocks(req, held), limit);
    }
  }

  lemma ConfiguredWorkspaceEmits(api: Api, req: Request, workspace: string, held: Held, limit: nat)
    requires workspace != "" && Holds(api, req, 0, workspace, held, limit)
    ensures SyncEnds(api, req, workspace, limit)
    ensures Expected(api, req, workspace, limit) == Block(Flatten(WholeBlocks(req, held)), held.End())
  {
    hide Holds, WorkspaceEnds, WorkspaceBlock;
    WorkspaceEmits(api, req, 0, workspace, held, limit);
  }

  /** What a workspace should give; without a slug, nothing. */
  function WholeWorkspace(req: Request, access: Fields, held: Held): seq<Item>
    requires WorkspaceSlug(access) != "" ==> held.cut <= |held.repos|
  {
    if WorkspaceSlug(access) == "" then [] else Flatten(WholeBlocks(req, held))
  }

  /** The workspace is reached, and its servers hold this, if they are asked at all. */
  ghost predicate HoldsAccess(api: Api, req: Request, w: nat, access: Fields, held: Held, limit: nat) {
    && !api.pollsWorkspaces(w)
    && (WorkspaceSlug(access) != "" ==> Holds(api, req, w, WorkspaceSlug(access), held, limit))
  }

  ghost predicate FailsWithin(access: Fields, held: Held) {
    WorkspaceSlug(access) != "" && held.End().Failed?
  }

  lemma AccessEmits(api: Api, req: Request, w: nat, access: Fields, held: Held, limit: nat)
    requires HoldsAccess(api, req, w, access, held, limit)
    ensures WorkspaceVisit(api, req, limit)(w, access)
         == Block(WholeWorkspace(req, access, held), if FailsWithin(access, held) then Failed else Completed)
    ensures WorkspaceDemand(api, req, limit)(w, access)
  {
    if WorkspaceSlug(access) != "" {
      WorkspaceEmits(api, req, w, WorkspaceSlug(access), held, limit);
    }
  }

  /** The workspaces before the f-th give all they have. */
  ghost predicate AccessesBefore(api: Api, req: Request, accesses: seq<Fields>, held: nat -> Held, f: nat, limit: nat)
    requires f <= |accesses|
  {
    forall w: nat | w < f ::
      HoldsAccess(api, req, w, accesses[w], held(w), limit) && !FailsWithin(accesses[w], held(w))
  }

  function WholeWorkspaces(req: Request, accesses: seq<Fields>, held: nat -> Held, f: nat): seq<seq<Item>>
    requires f <= |accesses|
    requires forall w: nat | w < f && WorkspaceSlug(accesses[w]) != "" :: held(w).cut <= |held(w).repos|
  {
    seq(f, w requires 0 <= w < f => WholeWorkspace(req, accesses[w], held(w)))
  }

  lemma AccessesEmit(api: Api, req: Request, accesses: seq<Fields>, held: nat -> Held, f: nat, limit: nat)
    requires f <= |accesses| && AccessesBefore(api, req, accesses, held, f, limit)
    ensures forall w: nat | w < f && WorkspaceSlug(accesses[w]) != "" :: held(w).cut <= |held(w).repos|
    ensures var v, out := WorkspaceVisit(api, req, limit), WholeWorkspaces(req, accesses, held, f);
            forall w: nat | w < f ::
              v(w, accesses[w]) == Block(out[w], Completed) && WorkspaceDemand(api, req, limit)(w, accesses[w])
  {
    forall w: nat | w < f
      ensures WorkspaceSlug(accesses[w]) != "" ==> held(w).cut <= |held(w).repos|
      ensures WorkspaceVisit(api, req, limit)(w, accesses[w])
           == Block(WholeWorkspace(req, accesses[w], held(w)), Completed)
      ensures WorkspaceDemand(api, req, limit)(w, accesses[w])
    {
      AccessEmits(api, req, w, accesses[w], held(w), limit);
    }
  }

  /** Without a configured workspace the synchronisation gives all of every workspace it is handed, in order, and
      ends with the listing of the workspaces. */
  lemma SyncEmitsEverything(api: Api, req: Request, accesses: seq<Fields>, end: Ending, held: nat -> Held, limit: nat)
    requires Hands(api.workspaces, api.workspacesURL, api.pollsWorkspacePages, 0, accesses, end) && |accesses| < limit
    requires AccessesBefore(api, req, accesses, held, |accesses|, limit)
    ensures forall w: nat | w < |accesses| && WorkspaceSlug(accesses[w]) != "" :: held(w).cut <= |held(w).repos|
    ensures SyncEnds(api, req, "", limit)
    ensures Expected(api, req, "", limit) == Block(Flatten(WholeWorkspaces(req, accesses, held, |accesses|)), end)
  {
    AccessesEmit(api, req, accesses, held, |accesses|, limit);
    var polls := api.pollsWorkspacePages;
    HandsGives(api.workspaces, api.workspacesURL, polls, accesses, end, limit);
    hide Hands, Gives, Ends, Meets, Drained, WorkspaceSlug, WholeWorkspace, WorkspaceVisit, WorkspaceDemand, Flatten;
    DrainsAll(api.Workspaces(), polls, WorkspaceVisit(api, req, limit), WorkspaceDemand(api, req, limit), accesses,
              end, WholeWorkspaces(req, accesses, held, |accesses|), limit);
  }

  /** It stops at the first workspace whose repositories cannot all be listed, with what that one has given, or
      before which a check finds the context cancelled. */
  lemma SyncStopsAt(api: Api, req: Request, accesses: seq<Fields>, end: Ending, held: nat -> Held, f: nat, limit: nat)
    requires Hands(api.workspaces, api.workspacesURL, api.pollsWorkspacePages, 0, accesses, end) && |accesses| < limit
    requires f < |accesses| && AccessesBefore(api, req, accesses, held, f, limit)
    requires api.pollsWorkspaces(f)
          || (HoldsAccess(api, req, f, accesses[f], held(f), limit) && FailsWithin(accesses[f], held(f)))
    ensures forall w: nat | w < f && WorkspaceSlug(accesses[w]) != "" :: held(w).cut <= |held(w).repos|
    ensures SyncEnds(api, req, "", limit)
    ensures var before := Flatten(WholeWorkspaces(req, accesses, held, f));
            if api.pollsWorkspaces(f) then Expected(api, req, "", limit) == Block(before, Cancelled)
            else Expected(api, req, "", limit) == Block(before + Flatten(WholeBlocks(req, held(f))), Failed)
  {
    var polls, v, ok := api.pollsWorkspacePages, WorkspaceVisit(api, req, limit), WorkspaceDemand(api, req, limit);
    AccessesEmit(api, req, accesses, held, f, limit);
    if !api.pollsWorkspaces(f) {
      AccessEmits(api, req, f, accesses[f], held(f), limit);
    }
    HandsGives(api.workspaces, api.workspacesURL, polls, accesses, end, limit);
    var last := v(f, accesses[f]);
    assert !last.end.Completed? && ok(f, accesses[f]);
    assert api.pollsWorkspaces(f) ==> last == Block([], Cancelled);
    hide Hands, Gives, Ends, Meets, Drained, WorkspaceSlug, WholeWorkspace, WorkspaceVisit, WorkspaceDemand, Flatten;
    DrainsUpTo(api.Workspaces(), polls, v, ok, accesses, end, WholeWorkspaces(req, accesses, held, f), f, last, limit);
  }
}
