/** The OAuth2 token source: the token endpoint, discovered once under a mutex, and the assertions made out
    to it. */
module TokenEndpoint {
  import opened Values

  datatype Document = Document(issuer: string, tokenEndpoint: string)

  /** `document` is `None` when the body cannot be decoded. */
  datatype Response = NoResponse | Http(status: int, document: Option<Document>)

  /** What is fixed when the source is made. `joinPath`, `validURL` and `normalizeIssuer` are the URL helpers
      the code calls. */
  datatype Config = Config(
    issuerURL: string,
    discoveryPath: string,
    discoveryURL: string,
    joinPath: (string, string) -> Option<string>,
    validURL: string -> bool,
    normalizeIssuer: string -> string)
  {
    /** Where the discovery document is, if a request for it can be built. */
    function DiscoveryTarget(): Option<string> {
      var target := if discoveryURL == "" then joinPath(issuerURL, discoveryPath) else Some(discoveryURL);
      if target.Some? && validURL(target.value) then target else None
    }

    /** A document is accepted when it is about the expected issuer, if there is one, and names an endpoint. */
    predicate Accepts(d: Document) {
      && (issuerURL != "" ==> normalizeIssuer(d.issuer) == normalizeIssuer(issuerURL))
      && d.tokenEndpoint != ""
    }

    /** The response brings an accepted document. */
    predicate Discovers(r: Response) {
      r.Http? && r.status == 200 && r.document.Some? && Accepts(r.document.value)
    }
  }

  /** What the mutex guards, with a log of the discovery requests. */
  datatype Cache = Cache(endpoint: string, discoveries: nat)

  /** The answer to the n-th discovery request, counted from 0, which is for the given URL. */
  type Answers = (nat, string) -> Response

  /** One call of `resolveTokenEndpoint`; `None` is an error. */
  function Resolve(cfg: Config, c: Cache, response: Answers): (Cache, Option<string>) {
    if c.endpoint != "" then (c, Some(c.endpoint))
    else if cfg.DiscoveryTarget().None? then (c, None)
    else
      var asked := c.(discoveries := c.discoveries + 1);
      var r := response(c.discoveries, cfg.DiscoveryTarget().value);
      if cfg.Discovers(r) then
        (asked.(endpoint := r.document.value.tokenEndpoint), Some(r.document.value.tokenEndpoint))
      else (asked, None)
  }

  /** A token request: the audience of its assertion and the URL it is posted to. */
  datatype Post = Post(audience: string, url: string)

  /** The token source. */
  class TokenSource {
    const cfg: Config
    const response: Answers
    var tokenEndpoint: string
    var discoveries: nat
    var posts: seq<Post>

    constructor (cfg: Config, response: Answers, tokenEndpoint: string)
      ensures this.cfg == cfg && this.response == response
      ensures State() == Cache(tokenEndpoint, 0) && posts == []
    {
      this.cfg, this.response, this.tokenEndpoint := cfg, response, tokenEndpoint;
      discoveries, posts := 0, [];
    }

    function State(): Cache
      reads this
    {
      Cache(tokenEndpoint, discoveries)
    }

    method ResolveTokenEndpoint() returns (endpoint: Option<string>)
      modifies this`tokenEndpoint, this`discoveries
      ensures (State(), endpoint) == Resolve(cfg, old(State()), response)
    {
      if tokenEndpoint != "" {
        return Some(tokenEndpoint);
      }
      var target := cfg.discoveryURL;
      if target == "" {
        var joined := cfg.joinPath(cfg.issuerURL, cfg.discoveryPath);
        if joined.None? {
          return None;
        }
        target := joined.value;
      }
      if !cfg.validURL(target) {
        return None;
      }
      var resp := response(discoveries, target);
      discoveries := discoveries + 1;
      if resp.NoResponse? || resp.status != 200 || resp.document.None? {
        return None;
      }
      var doc := resp.document.value;
      if cfg.issuerURL != "" && cfg.normalizeIssuer(doc.issuer) != cfg.normalizeIssuer(cfg.issuerURL) {
        return None;
      }
      if doc.tokenEndpoint == "" {
        return None;
      }
      tokenEndpoint := doc.tokenEndpoint;
      endpoint := Some(tokenEndpoint);
    }

    /** `signs` says whether the assertion can be built and signed. At most one request is posted, to the
        endpoint the assertion is made out to, which is the one resolved. */
    method Token(signs: bool) returns (posted: bool)
      modifies this
      ensures State() == Resolve(cfg, old(State()), response).0
      ensures posted <==> signs && Resolve(cfg, old(State()), response).1.Some? && cfg.validURL(tokenEndpoint)
      ensures posts == old(posts) + if posted then [Post(tokenEndpoint, tokenEndpoint)] else []
    {
      var endpoint := ResolveTokenEndpoint();
      if endpoint.None? {
        return false;
      }
      if !signs {
        return false;
      }
      var audience := endpoint.value;
      if !cfg.validURL(endpoint.value) {
        return false;
      }
      posts := posts + [Post(audience, endpoint.value)];
      posted := true;
    }
  }

  /** The cache after n calls, in whatever order the callers get hold of the mutex. */
  function AfterCalls(cfg: Config, start: Cache, response: Answers, n: nat): Cache {
    if n == 0 then start else Resolve(cfg, AfterCalls(cfg, start, response, n - 1), response).0
  }

  /** Once there is an endpoint it stays the same, every call returns it and none makes a request. */
  lemma {:induction false} EndpointIsStable(cfg: Config, start: Cache, response: Answers, m: nat, n: nat)
    requires m <= n && AfterCalls(cfg, start, response, m).endpoint != ""
    ensures AfterCalls(cfg, start, response, n) == AfterCalls(cfg, start, response, m)
    ensures Resolve(cfg, AfterCalls(cfg, start, response, n), response).1
         == Some(AfterCalls(cfg, start, response, m).endpoint)
  {
    if m == n {
    } else {
      EndpointIsStable(cfg, start, response, m, n - 1);
    }
  }

  /** A configured endpoint means no discovery at all. */
  lemma ConfiguredEndpointNeedsNoDiscovery(cfg: Config, endpoint: string, response: Answers, n: nat)
    requires endpoint != ""
    ensures AfterCalls(cfg, Cache(endpoint, 0), response, n) == Cache(endpoint, 0)
  {
    EndpointIsStable(cfg, Cache(endpoint, 0), response, 0, n);
  }

  /** A response brings an endpoint when it succeeds with a document that names it and, where an issuer is
      configured, is about that issuer. */
  predicate Brings(cfg: Config, r: Response, endpoint: string) {
    && r.Http? && r.status == 200 && r.document.Some?
    && r.document.value.tokenEndpoint == endpoint && endpoint != ""
    && (cfg.issuerURL == "" || cfg.normalizeIssuer(r.document.value.issuer) == cfg.normalizeIssuer(cfg.issuerURL))
  }

  lemma DiscoversIff(cfg: Config, r: Response)
    ensures cfg.Discovers(r) ==> Brings(cfg, r, r.document.value.tokenEndpoint)
    ensures forall endpoint :: Brings(cfg, r, endpoint) ==>
              cfg.Discovers(r) && endpoint == r.document.value.tokenEndpoint
  {
  }

  /** The document is looked for under its own URL if one is configured, and otherwise under the issuer's. */
  predicate LooksUnder(cfg: Config, target: string) {
    && cfg.validURL(target)
    && if cfg.discoveryURL != "" then target == cfg.discoveryURL
       else cfg.joinPath(cfg.issuerURL, cfg.discoveryPath) == Some(target)
  }

  /** No answer to the first n requests brings an endpoint. */
  ghost predicate NothingBrought(cfg: Config, response: Answers, target: string, n: nat) {
    forall k: nat, endpoint | k < n :: !Brings(cfg, response(k, target), endpoint)
  }

  /** Without one, the state is exactly this: as long as no answer brought an endpoint there is none, whatever
      failed, and every call asked again; the first endpoint brought is the one in the cache, and that answer was
      the last one asked for. */
  lemma {:induction false} EndpointComesFromFirstAcceptedDocument(cfg: Config, response: Answers, target: string,
                                                                  n: nat)
    requires LooksUnder(cfg, target)
    ensures var c := AfterCalls(cfg, Cache("", 0), response, n);
            if c.endpoint == "" then c.discoveries == n && NothingBrought(cfg, response, target, n)
            else
              && 0 < c.discoveries <= n
              && Brings(cfg, response(c.discoveries - 1, target), c.endpoint)
              && NothingBrought(cfg, response, target, c.discoveries - 1)
  {
    if n == 0 {
    } else {
      EndpointComesFromFirstAcceptedDocument(cfg, response, target, n - 1);
      DiscoversIff(cfg, response(n - 1, target));
    }
  }

  // ---- Concurrent callers of Token ----

  /** A caller waits for the mutex, resolves the endpoint while it holds it, and then signs and posts. */
  datatype Caller =
    | Waiting
    | Resolved(endpoint: string)
    | Signed(audience: string, endpoint: string)
    | Posted(audience: string, url: string)
    | Failed

  datatype System = System(cache: Cache, callers: seq<Caller>)

  datatype Step = Start | ResolveStep(i: nat) | Sign(i: nat) | SignFails(i: nat) | PostStep(i: nat)

  predicate Enabled(s: System, step: Step) {
    match step
    case Start => true
    case ResolveStep(i) => i < |s.callers| && s.callers[i].Waiting?
    case Sign(i) => i < |s.callers| && s.callers[i].Resolved?
    case SignFails(i) => i < |s.callers| && s.callers[i].Resolved?
    case PostStep(i) => i < |s.callers| && s.callers[i].Signed?
  }

  function Apply(cfg: Config, response: Answers, s: System, step: Step): System
    requires Enabled(s, step)
  {
    match step
    case Start => s.(callers := s.callers + [Waiting])
    case ResolveStep(i) =>
      var (cache, endpoint) := Resolve(cfg, s.cache, response);
      System(cache, s.callers[i := if endpoint.Some? then Resolved(endpoint.value) else Failed])
    case Sign(i) => s.(callers := s.callers[i := Signed(s.callers[i].endpoint, s.callers[i].endpoint)])
    case SignFails(i) => s.(callers := s.callers[i := Failed])
    case PostStep(i) =>
      s.(callers := s.callers[i := if cfg.validURL(s.callers[i].endpoint)
                                   then Posted(s.callers[i].audience, s.callers[i].endpoint) else Failed])
  }

  predicate Runs(cfg: Config, response: Answers, s: System, steps: seq<Step>)
    decreases |steps|
  {
    steps == []
    || (Enabled(s, steps[0]) && Runs(cfg, response, Apply(cfg, response, s, steps[0]), steps[1..]))
  }

  function After(cfg: Config, response: Answers, s: System, steps: seq<Step>): System
    requires Runs(cfg, response, s, steps)
    decreases |steps|
  {
    if steps == [] then s else After(cfg, response, Apply(cfg, response, s, steps[0]), steps[1..])
  }

  /** Whatever a caller has got hold of is the one endpoint in the cache, and its audience is where it posts. */
  ghost predicate Inv(cfg: Config, s: System) {
    forall i | 0 <= i < |s.callers| ::
      match s.callers[i]
      case Resolved(e) => e == s.cache.endpoint != ""
      case Signed(a, e) => a == e == s.cache.endpoint != ""
      case Posted(a, u) => a == u == s.cache.endpoint != "" && cfg.validURL(u)
      case _ => true
  }

  /** On every interleaving of any number of callers, every assertion is made out to the URL it is posted to,
      which is the endpoint in the cache, now and ever after. */
  lemma {:induction false} AudienceIsTheURL(cfg: Config, response: Answers, s: System, steps: seq<Step>)
    requires Inv(cfg, s) && Runs(cfg, response, s, steps)
    ensures Inv(cfg, After(cfg, response, s, steps))
    ensures s.cache.endpoint != "" ==> After(cfg, response, s, steps).cache == s.cache
    decreases |steps|
  {
    if steps == [] {
    } else {
      AudienceIsTheURL(cfg, response, Apply(cfg, response, s, steps[0]), steps[1..]);
    }
  }

  /** Once there is an endpoint, a caller that gets hold of the mutex and signs posts to it, if it is a URL at all. */
  lemma CallerPosts(cfg: Config, response: Answers, s: System, i: nat)
    requires i < |s.callers| && s.callers[i].Waiting? && s.cache.endpoint != ""
    ensures var steps, e := [ResolveStep(i), Sign(i), PostStep(i)], s.cache.endpoint;
            && Runs(cfg, response, s, steps)
            && After(cfg, response, s, steps)
            == s.(callers := s.callers[i := if cfg.validURL(e) then Posted(e, e) else Failed])
  {
    var e := s.cache.endpoint;
    var first := Apply(cfg, response, s, ResolveStep(i));
    var second := Apply(cfg, response, first, Sign(i));
    var third := Apply(cfg, response, second, PostStep(i));
    assert first.callers[i] == Resolved(e) && second.callers[i] == Signed(e, e);
    assert third.callers == s.callers[i := if cfg.validURL(e) then Posted(e, e) else Failed];
    ThreeSteps(cfg, response, s, ResolveStep(i), Sign(i), PostStep(i));
  }

  lemma ThreeSteps(cfg: Config, response: Answers, s: System, a: Step, b: Step, c: Step)
    requires Enabled(s, a)
    requires Enabled(Apply(cfg, response, s, a), b)
    requires Enabled(Apply(cfg, response, Apply(cfg, response, s, a), b), c)
    ensures Runs(cfg, response, s, [a, b, c])
    ensures After(cfg, response, s, [a, b, c])
         == Apply(cfg, response, Apply(cfg, response, Apply(cfg, response, s, a), b), c)
  {
    hide Enabled, Apply;
    assert [a, b, c][1..] == [b, c] && [b, c][1..] == [c] && [c][1..] == [];
    var second := Apply(cfg, response, Apply(cfg, response, s, a), b);
    assert Runs(cfg, response, second, [c]) && After(cfg, response, second, [c]) == Apply(cfg, response, second, c);
  }

  /** The concurrent callers do to the cache what some number of calls one after the other does. */
  lemma {:induction false} CacheIsAfterCalls(cfg: Config, start: Cache, response: Answers, s: System,
                                             steps: seq<Step>, m: nat) returns (n: nat)
    requires s.cache == AfterCalls(cfg, start, response, m) && Runs(cfg, response, s, steps)
    ensures m <= n <= m + |steps| && After(cfg, response, s, steps).cache == AfterCalls(cfg, start, response, n)
    decreases |steps|
  {
    if steps == [] {
      n := m;
    } else {
      var next := if steps[0].ResolveStep? then m + 1 else m;
      n := CacheIsAfterCalls(cfg, start, response, Apply(cfg, response, s, steps[0]), steps[1..], next);
    }
  }

  /** So with no configured endpoint, on every interleaving: an endpoint in the cache is the first that an answer
      brings, and nothing is asked for after it; and everything posted went to it. */
  lemma ConcurrentEndpointIsAccepted(cfg: Config, response: Answers, steps: seq<Step>, target: string)
    requires LooksUnder(cfg, target) && Runs(cfg, response, System(Cache("", 0), []), steps)
    ensures var s := After(cfg, response, System(Cache("", 0), []), steps);
            && (if s.cache.endpoint == "" then NothingBrought(cfg, response, target, s.cache.discoveries)
                else
                  && s.cache.discoveries > 0
                  && Brings(cfg, response(s.cache.discoveries - 1, target), s.cache.endpoint)
                  && NothingBrought(cfg, response, target, s.cache.discoveries - 1))
            && forall i | 0 <= i < |s.callers| && s.callers[i].Posted? ::
                 && s.callers[i].audience == s.callers[i].url == s.cache.endpoint != ""
                 && cfg.validURL(s.callers[i].url)
  {
    var start := System(Cache("", 0), []);
    var n := CacheIsAfterCalls(cfg, start.cache, response, start, steps, 0);
    AudienceIsTheURL(cfg, response, start, steps);
    EndpointComesFromFirstAcceptedDocument(cfg, response, target, n);
  }

  /** Where no request can be built there is none, and no endpoint. */
  lemma {:induction false} NoTargetNoDiscovery(cfg: Config, response: Answers, n: nat)
    requires forall target :: !LooksUnder(cfg, target)
    ensures AfterCalls(cfg, Cache("", 0), response, n) == Cache("", 0)
  {
    if n == 0 {
    } else {
      NoTargetNoDiscovery(cfg, response, n - 1);
      assert cfg.DiscoveryTarget().Some? ==> LooksUnder(cfg, cfg.DiscoveryTarget().value);
    }
  }
}
