/** The Console webhook: a configuration event, and its agreement with the synchronisation. */
module ConsoleWebhook {
  import opened Values
  import opened Console

  predicate AsksForServices(types: seq<Kind>) {
    Service in types || CustomResource in types
  }

  function EventServicesOutcome(project: Fields, id: string, revision: string, types: seq<Kind>,
                                getConfiguration: GetConfiguration): Outcome {
    if !AsksForServices(types) then Done
    else
      match TextAt(project, "defaultBranch")
      case None => Panicked
      case Some(branch) =>
        if revision != branch then Done
        else
          match getConfiguration(id, revision)
          case None => Failed
          case Some(configuration) => if ServicesPanic(configuration, types) then Panicked else Done
  }

  function EventServiceCopies(project: Fields, id: string, revision: string, types: seq<Kind>,
                              getConfiguration: GetConfiguration, r: Record): nat {
    if AsksForServices(types) && OnDefaultBranch(project, revision) && getConfiguration(id, revision).Some?
    then Copies(getConfiguration(id, revision).value, project, revision, types, r)
    else 0
  }

  /** The answer to a configuration event, `None` for a payload that is null. */
  function EventOutcome(payload: Option<Fields>, types: seq<Kind>, getProject: GetProject,
                        getConfiguration: GetConfiguration): Outcome {
    if payload.None? then Failed
    else
      match (TextAt(payload.value, "projectId"), TextAt(payload.value, "revisionName"))
      case (Some(id), Some(revision)) =>
        (match getProject(id)
         case None => Failed
         case Some(project) => EventServicesOutcome(project, id, revision, types, getConfiguration))
      case _ => Failed
  }

  function Header(project: Fields, revision: string, kind: Kind): seq<Record> {
    match kind
    case Project => [ProjectRecord(project)]
    case Revision => [RevisionRecord(project, revision)]
    case _ => []
  }

  /** The project and revision records, sent before any service. */
  function Headers(project: Fields, revision: string, types: seq<Kind>): seq<Record> {
    if types == [] then []
    else
      Headers(project, revision, types[..|types| - 1])
      + Header(project, revision, types[|types| - 1])
  }

  /** The services of a configuration, none where they are missing. */
  function ServicesOf(configuration: Fields): Fields {
    match ObjectAt(configuration, "services")
    case None => map[]
    case Some(services) => services
  }

  /** What was sent is exactly what the entries `done` yield, and the pass got through them. */
  ghost predicate SentFor(project: Fields, revision: string, types: seq<Kind>, services: Fields, done: set<string>,
                          sent: seq<Record>) {
    && done <= services.Keys
    && (forall key | key in done :: !EntryPanics(services[key], types))
    && forall r :: multiset(sent)[r] == CopiesAmong(done, services, project, revision, types, r)
  }

  lemma OneMoreSent(project: Fields, revision: string, types: seq<Kind>, services: Fields, done: set<string>,
                    sent: seq<Record>, key: string)
    requires SentFor(project, revision, types, services, done, sent)
    requires key in services && key !in done && !EntryPanics(services[key], types)
    ensures SentFor(project, revision, types, services, done + {key},
                    sent + Items(project, revision, services[key], types))
  {
    var items := Items(project, revision, services[key], types);
    forall r
      ensures multiset(sent + items)[r] == CopiesAmong(done + {key}, services, project, revision, types, r)
    {
      OneMoreEntry(done, key, services, project, revision, types, r);
    }
  }

  lemma AllSent(project: Fields, revision: string, types: seq<Kind>, configuration: Fields, sent: seq<Record>)
    requires ObjectAt(configuration, "services").Some?
    requires var services := ServicesOf(configuration);
             SentFor(project, revision, types, services, services.Keys, sent)
    ensures !ServicesPanic(configuration, types)
    ensures forall r :: multiset(sent)[r] == Copies(configuration, project, revision, types, r)
  {
    hide EntryPanics, CopiesAmong;
  }

  /** One pass over the services, after the records of the project and the revision. What has been sent
      when an assertion panics stays sent: the records of the entries `done`, which came first. */
  method ProcessConfigurationServices(project: Fields, id: string, revision: string, types: seq<Kind>,
                                      getConfiguration: GetConfiguration)
    returns (outcome: Outcome, sent: seq<Record>, ghost done: set<string>)
    ensures outcome == EventServicesOutcome(project, id, revision, types, getConfiguration)
    ensures outcome.Done? ==>
              forall r :: multiset(sent)[r]
                       == EventServiceCopies(project, id, revision, types, getConfiguration, r)
    ensures outcome.Failed? ==> sent == []
    ensures outcome.Panicked? ==>
              if OnDefaultBranch(project, revision) && getConfiguration(id, revision).Some?
              then SentFor(project, revision, types, ServicesOf(getConfiguration(id, revision).value), done, sent)
              else sent == []
  {
    sent, done := [], {};
    if Service !in types && CustomResource !in types {
      return Done, sent, done;
    }
    var branch := TextAt(project, "defaultBranch");
    if branch.None? {
      return Panicked, sent, done;
    }
    if revision != branch.value {
      return Done, sent, done;
    }
    var configuration := getConfiguration(id, revision);
    if configuration.None? {
      return Failed, sent, done;
    }
    outcome, sent, done := SendServices(project, revision, types, configuration.value);
  }

  method SendServices(project: Fields, revision: string, types: seq<Kind>, configuration: Fields)
    returns (outcome: Outcome, sent: seq<Record>, ghost done: set<string>)
    ensures outcome == if ServicesPanic(configuration, types) then Panicked else Done
    ensures SentFor(project, revision, types, ServicesOf(configuration), done, sent)
    ensures outcome.Done? ==>
              forall r :: multiset(sent)[r] == Copies(configuration, project, revision, types, r)
  {
    sent := [];
    done := {};
    NoEntries(ServicesOf(configuration), project, revision, types, done);
    assert SentFor(project, revision, types, ServicesOf(configuration), done, sent);
    hide SentFor, EntryPanics, Copies, Items;
    if ObjectAt(configuration, "services").None? {
      return Panicked, sent, done;
    }
    var services := ObjectAt(configuration, "services").value;
    var todo := services.Keys;
    while todo != {}
      invariant todo <= services.Keys && done == services.Keys - todo
      invariant SentFor(project, revision, types, services, done, sent)
    {
      var key :| key in todo;
      var panics, more := SendEntry(project, revision, types, services[key]);
      if panics {
        return Panicked, sent, done;
      }
      OneMoreSent(project, revision, types, services, done, sent, key);
      sent := sent + more;
      todo := todo - {key};
      done := done + {key};
    }
    assert done == services.Keys;
    AllSent(project, revision, types, configuration, sent);
    return Done, sent, done;
  }

  /** The body of the loop over the services. An entry that panics has sent nothing: what is valid as a service
      does not panic as a custom resource. */
  method SendEntry(project: Fields, revision: string, types: seq<Kind>, entry: Value)
    returns (panics: bool, sent: seq<Record>)
    ensures panics == EntryPanics(entry, types)
    ensures sent == if panics then [] else Items(project, revision, entry, types)
  {
    sent := [];
    if !entry.Object? {
      return true, sent;
    }
    var service := entry.fields;
    if Service in types {
      match IsServiceValid(service) {
        case None => return true, sent;
        case Some(valid) =>
          if valid {
            sent := sent + [ServiceRecord(project, revision, service)];
          }
      }
    }
    if CustomResource in types {
      match IsCustomResourceValid(service) {
        case None => return true, sent;
        case Some(valid) =>
          if valid {
            sent := sent + [CustomResourceRecord(project, revision, service)];
          }
      }
    }
    return false, sent;
  }

  /** The loop over the types, which leaves the services for later. */
  method SendHeaders(project: Fields, revision: string, types: seq<Kind>) returns (sent: seq<Record>)
    requires InChainOrder(types)
    ensures sent == Headers(project, revision, types)
    ensures forall r :: multiset(sent)[r] == HeaderCopies(project, revision, types, r)
  {
    sent := [];
    for n := 0 to |types|
      invariant sent == Headers(project, revision, types[..n])
    {
      assert types[..n + 1][..n] == types[..n];
      match types[n] {
        case Project => sent := sent + [ProjectRecord(project)];
        case Revision => sent := sent + [RevisionRecord(project, revision)];
        case _ =>
      }
    }
    assert types[..|types|] == types;
    forall r {
      HeadersOnce(project, revision, types, r);
    }
  }

  /** The project the event is about, if it can be told and fetched, and the revision. */
  function EventTarget(payload: Option<Fields>, getProject: GetProject): Option<(Fields, string, string)> {
    if payload.None? then None
    else
      match (TextAt(payload.value, "projectId"), TextAt(payload.value, "revisionName"))
      case (Some(id), Some(revision)) =>
        (match getProject(id)
         case None => None
         case Some(project) => Some((project, id, revision)))
      case _ => None
  }

  /** Whatever becomes of the event, the records of the project and the revision go out as soon as the project
      is there, and nothing does before. */
  method ConfigurationEventChain(payload: Option<Fields>, types: seq<Kind>, getProject: GetProject,
                                 getConfiguration: GetConfiguration)
    returns (outcome: Outcome, sent: seq<Record>, ghost done: set<string>)
    requires InChainOrder(types)
    ensures outcome == EventOutcome(payload, types, getProject, getConfiguration)
    ensures match EventTarget(payload, getProject)
            case None => sent == []
            case Some((project, id, revision)) =>
              var headers := Headers(project, revision, types);
              && headers <= sent
              && (outcome.Failed? ==> sent == headers)
              && (outcome.Done? ==>
                    forall r :: multiset(sent)[r]
                             == EventCopies(project, id, revision, types, getConfiguration, r))
              && (outcome.Panicked? ==>
                    if OnDefaultBranch(project, revision) && getConfiguration(id, revision).Some?
                    then SentFor(project, revision, types, ServicesOf(getConfiguration(id, revision).value), done,
                                 sent[|headers|..])
                    else sent == headers)
  {
    sent, done := [], {};
    if payload.None? {
      return Failed, sent, done;
    }
    var id := TextAt(payload.value, "projectId");
    if id.None? {
      return Failed, sent, done;
    }
    var revision := TextAt(payload.value, "revisionName");
    if revision.None? {
      return Failed, sent, done;
    }
    var project := getProject(id.value);
    if project.None? {
      return Failed, sent, done;
    }
    var headers := SendHeaders(project.value, revision.value, types);
    hide Headers, HeaderCopies, EventServicesOutcome, EventServiceCopies, SentFor;
    var services;
    outcome, services, done := ProcessConfigurationServices(project.value, id.value, revision.value, types,
                                                            getConfiguration);
    sent := headers + services;
    assert sent[|headers|..] == services;
  }

  /** How many copies of `r` a configuration event sends. */
  function EventCopies(project: Fields, id: string, revision: string, types: seq<Kind>,
                       getConfiguration: GetConfiguration, r: Record): nat {
    HeaderCopies(project, revision, types, r)
    + EventServiceCopies(project, id, revision, types, getConfiguration, r)
  }

  /** How many copies of `r` the loop over the types sends. */
  function HeaderCopies(project: Fields, revision: string, types: seq<Kind>, r: Record): nat {
    (if Project in types && r == ProjectRecord(project) then 1 else 0)
    + (if Revision in types && r == RevisionRecord(project, revision) then 1 else 0)
  }

  lemma OneMoreHeader(project: Fields, revision: string, types: seq<Kind>, kind: Kind, r: Record)
    requires kind !in types
    ensures HeaderCopies(project, revision, types + [kind], r)
         == HeaderCopies(project, revision, types, r) + multiset(Header(project, revision, kind))[r]
  {
    hide ProjectRecord, RevisionRecord;
  }

  lemma {:induction false} HeadersOnce(project: Fields, revision: string, types: seq<Kind>, r: Record)
    requires InChainOrder(types)
    ensures multiset(Headers(project, revision, types))[r] == HeaderCopies(project, revision, types, r)
  {
    if types == [] {
    } else {
      var shorter := types[..|types| - 1];
      var last := types[|types| - 1];
      HeadersOnce(project, revision, shorter, r);
      hide ProjectRecord, RevisionRecord, Header, HeaderCopies;
      assert types == shorter + [last] && last !in shorter;
      OneMoreHeader(project, revision, shorter, last, r);
    }
  }

  // ---------------------------------------------------------------------------------------------
  // Agreement
  // ---------------------------------------------------------------------------------------------

  /** The webhook's one pass emits what the synchronisation's two passes emit. */
  lemma OnePassIsTwo(configuration: Fields, project: Fields, revision: string,
                     types: seq<Kind>, r: Record)
    ensures Copies(configuration, project, revision, types, r)
         == (if Service in types then Copies(configuration, project, revision, [Service], r) else 0)
          + (if CustomResource in types then Copies(configuration, project, revision, [CustomResource], r) else 0)
  {
    var found := ObjectAt(configuration, "services");
    if found.Some? {
      var services := found.value;
      YieldSplits(services, project, revision, types, r);
      hide Items, Yielding;
      var first := Yielding(services.Keys, services, project, revision, [Service], r);
      var second := Yielding(services.Keys, services, project, revision, [CustomResource], r);
      assert |first + second| == |first| + |second|;
    }
  }

  lemma YieldSplits(services: Fields, project: Fields, revision: string, types: seq<Kind>,
                    r: Record)
    ensures Yielding(services.Keys, services, project, revision, types, r)
         == (if Service in types then Yielding(services.Keys, services, project, revision, [Service], r) else {})
          + (if CustomResource in types
             then Yielding(services.Keys, services, project, revision, [CustomResource], r) else {})
    ensures Yielding(services.Keys, services, project, revision, [Service], r)
         !! Yielding(services.Keys, services, project, revision, [CustomResource], r)
  {
    forall key | key in services {
      ItemSplits(project, revision, services[key], types, r);
    }
    hide Items;
  }

  lemma ItemSplits(project: Fields, revision: string, entry: Value, types: seq<Kind>, r: Record)
    ensures r in Items(project, revision, entry, types) <==>
            (Service in types && r in Items(project, revision, entry, [Service]))
            || (CustomResource in types && r in Items(project, revision, entry, [CustomResource]))
    ensures !(r in Items(project, revision, entry, [Service]) && r in Items(project, revision, entry, [CustomResource]))
  {
    hide IsServiceValid, IsCustomResourceValid, BuildProjectData, BuildRevisionData, BuildServiceData;
  }

  lemma PanicsSplit(configuration: Fields, types: seq<Kind>)
    requires AsksForServices(types)
    ensures ServicesPanic(configuration, types) <==>
            (Service in types && ServicesPanic(configuration, [Service]))
            || (CustomResource in types && ServicesPanic(configuration, [CustomResource]))
  {
    var found := ObjectAt(configuration, "services");
    if found.Some? {
      hide IsServiceValid, IsCustomResourceValid;
      assert forall key | key in found.value ::
          EntryPanics(found.value[key], types) <==>
          (Service in types && EntryPanics(found.value[key], [Service]))
          || (CustomResource in types && EntryPanics(found.value[key], [CustomResource]));
    }
  }

  function ConfigurationEvent(id: string, revision: string): Option<Fields> {
    Some(map["projectId" := Text(id), "revisionName" := Text(revision)])
  }

  /** For one revision, with both fetches successful: the event sends what the synchronisation lists, and it
      panics exactly when the listing does, unless services are asked for and the project names no
      default branch. */
  lemma EventAgreesWithSync(project: Fields, id: string, revision: string, types: seq<Kind>,
                            getProject: GetProject, getConfiguration: GetConfiguration)
    requires getProject(id) == Some(project)
    requires getConfiguration(id, revision).Some?
    ensures var configuration := CustomRemoveFields(getConfiguration(id, revision).value);
            && (EventOutcome(ConfigurationEvent(id, revision), types, getProject, getConfiguration)
                == RevisionOutcome(project, revision, configuration, types)
                <==> !AsksForServices(types) || TextAt(project, "defaultBranch").Some?)
            && forall r :: EventCopies(project, id, revision, types, getConfiguration, r)
                        == (if Project in types && r == ProjectRecord(project) then 1 else 0)
                         + RevisionCopies(project, revision, configuration, types, r)
  {
    var fetched := getConfiguration(id, revision).value;
    var configuration := CustomRemoveFields(fetched);
    OnlyServicesMatter(project, revision, configuration, fetched, types);
    if AsksForServices(types) {
      PanicsSplit(fetched, types);
    }
    hide ServicesPanic, CustomRemoveFields, RevisionCopies, EventCopies;
    forall r {
      CopiesAgree(project, id, revision, types, getConfiguration, r);
    }
  }

  lemma CopiesAgree(project: Fields, id: string, revision: string, types: seq<Kind>,
                    getConfiguration: GetConfiguration, r: Record)
    requires getConfiguration(id, revision).Some?
    ensures EventCopies(project, id, revision, types, getConfiguration, r)
         == (if Project in types && r == ProjectRecord(project) then 1 else 0)
          + RevisionCopies(project, revision, getConfiguration(id, revision).value, types, r)
  {
    OnePassIsTwo(getConfiguration(id, revision).value, project, revision, types, r);
    hide Copies, ProjectRecord, RevisionRecord;
  }

  /** The exception: the synchronisation skips the services, the webhook panics. */
  lemma NoDefaultBranch(project: Fields, id: string, revision: string, types: seq<Kind>,
                        getProject: GetProject, getConfiguration: GetConfiguration)
    requires getProject(id) == Some(project)
    requires getConfiguration(id, revision).Some?
    requires AsksForServices(types) && TextAt(project, "defaultBranch").None?
    ensures EventOutcome(ConfigurationEvent(id, revision), types, getProject, getConfiguration) == Panicked
    ensures ListedRevisionOutcome(project, id, map["name" := Text(revision)], getConfiguration, types) == Done
  {
    hide ServicesPanic;
  }

  /** Services and custom resources are sent for the default branch only, on both paths. */
  lemma OnlyDefaultBranchHasServices(project: Fields, id: string, revision: string,
                                     types: seq<Kind>, getConfiguration: GetConfiguration,
                                     r: Record)
    requires r.kind in [Service, CustomResource]
    requires getConfiguration(id, revision).Some?
    requires || RevisionCopies(project, revision, getConfiguration(id, revision).value, types, r) > 0
             || EventCopies(project, id, revision, types, getConfiguration, r) > 0
    ensures OnDefaultBranch(project, revision) && r.kind in types
  {
    var configuration := getConfiguration(id, revision).value;
    hide Copies, OnDefaultBranch;
    if r.kind !in types {
      NoStrayRecords(configuration, project, revision, types, r);
      var other := if r.kind == Service then CustomResource else Service;
      NoStrayRecords(configuration, project, revision, [other], r);
    }
  }

  lemma NoStrayRecords(configuration: Fields, project: Fields, revision: string,
                       types: seq<Kind>, r: Record)
    requires r.kind !in types
    ensures Copies(configuration, project, revision, types, r) == 0
  {
    var found := ObjectAt(configuration, "services");
    if found.Some? {
      assert Yielding(found.value.Keys, found.value, project, revision, types, r) == {};
    }
  }

  /** What one event for every listed revision sends. */
  function EventsCopies(project: Fields, id: string, revisions: seq<Fields>, getConfiguration: GetConfiguration,
                        types: seq<Kind>, r: Record): nat {
    if revisions == [] then 0
    else
      (match TextAt(revisions[0], "name")
       case None => 0
       case Some(name) => EventCopies(project, id, name, types, getConfiguration, r))
      + EventsCopies(project, id, revisions[1..], getConfiguration, types, r)
  }

  function AllEventsCopies(projects: seq<Fields>, getRevisions: GetRevisions, getConfiguration: GetConfiguration,
                           types: seq<Kind>, r: Record): nat {
    if projects == [] then 0
    else
      (match TextAt(projects[0], "_id")
       case None => 0
       case Some(id) =>
         match getRevisions(id)
         case None => 0
         case Some(revisions) => EventsCopies(projects[0], id, revisions, getConfiguration, types, r))
      + AllEventsCopies(projects[1..], getRevisions, getConfiguration, types, r)
  }

  /** How many of the projects are `r` as a record. */
  function ProjectsAlone(projects: seq<Fields>, types: seq<Kind>, r: Record): nat {
    if projects == [] then 0
    else
      (if Project in types && r == ProjectRecord(projects[0]) then 1 else 0)
      + ProjectsAlone(projects[1..], types, r)
  }

  /** A synchronisation that succeeds sends every project once, and besides what one configuration event for
      every listed revision of every project sends. */
  lemma {:induction false} SyncIsOneEventPerRevision(projects: seq<Fields>, getRevisions: GetRevisions,
                                                     getConfiguration: GetConfiguration, types: seq<Kind>,
                                                     below: seq<Kind>, r: Record)
    requires ProjectsOutcome(projects, getRevisions, getConfiguration, types).Done?
    requires forall t :: t in below <==> t in types && t != Project
    ensures ProjectsCopies(projects, getRevisions, getConfiguration, types, r)
         == ProjectsAlone(projects, types, r) + AllEventsCopies(projects, getRevisions, getConfiguration, below, r)
  {
    if projects == [] {
    } else {
      SyncIsOneEventPerRevision(projects[1..], getRevisions, getConfiguration, types, below, r);
      var id := TextAt(projects[0], "_id").value;
      RevisionsAreEvents(projects[0], id, getRevisions(id).value, getConfiguration, types, below, r);
    }
  }

  lemma {:induction false} RevisionsAreEvents(project: Fields, id: string, revisions: seq<Fields>,
                                              getConfiguration: GetConfiguration, types: seq<Kind>,
                                              below: seq<Kind>, r: Record)
    requires RevisionsOutcome(project, id, revisions, getConfiguration, types).Done?
    requires forall t :: t in below <==> t in types && t != Project
    ensures RevisionsCopies(project, id, revisions, getConfiguration, types, r)
         == EventsCopies(project, id, revisions, getConfiguration, below, r)
  {
    if revisions == [] {
    } else {
      RevisionsAreEvents(project, id, revisions[1..], getConfiguration, types, below, r);
      var name := TextAt(revisions[0], "name").value;
      var configuration := getConfiguration(id, name).value;
      EventAgreesWithSync(project, id, name, below, _ => Some(project), getConfiguration);
      OnlyServicesMatter(project, name, CustomRemoveFields(configuration), configuration, below);
      hide CustomRemoveFields, EventCopies, KindCopies, RevisionOutcome;
    }
  }
}
