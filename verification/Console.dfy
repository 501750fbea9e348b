/** The Console source: the full synchronisation and the configuration webhook describe the same
    revisions. Go map iteration is modelled as it is: every loop over services takes the keys in an
    arbitrary order. */
module Console {
  import opened Values

  datatype Kind = Project | Revision | Service | CustomResource | OtherKind(name: string)

  /** What both paths send, without the operation and the time, which differ on purpose. */
  datatype Record = Record(kind: Kind, values: Fields)

  /** `Panicked` is a failed one-result type assertion. */
  datatype Outcome = Done | Failed | Panicked

  const CHAIN := [Project, Revision, Service, CustomResource]

  function Rank(kind: Kind): nat {
    match kind
    case Project => 0
    case Revision => 1
    case Service => 2
    case CustomResource => 3
    case OtherKind(_) => 4
  }

  /** Without repetitions and in the order of the chain. */
  predicate InChainOrder(types: seq<Kind>) {
    forall i, j | 0 <= i < j < |types| :: Rank(types[i]) < Rank(types[j])
  }

  /** The requested part of the chain. */
  method FilterTypes(types: set<Kind>) returns (subtypes: seq<Kind>)
    ensures forall t :: t in subtypes <==> t in CHAIN && t in types
    ensures InChainOrder(subtypes)
  {
    subtypes := [];
    for n := 0 to |CHAIN|
      invariant forall t :: t in subtypes <==> t in CHAIN[..n] && t in types
      invariant InChainOrder(subtypes)
    {
      if CHAIN[n] in types {
        assert forall t | t in CHAIN[..n] :: Rank(t) < Rank(CHAIN[n]);
        subtypes := subtypes + [CHAIN[n]];
      }
    }
  }

  // ---------------------------------------------------------------------------------------------
  // Docker images
  // ---------------------------------------------------------------------------------------------

  function IndexOf(s: string, c: char): Option<nat> {
    if s == "" then None
    else if s[0] == c then Some(0)
    else match IndexOf(s[1..], c)
         case None => None
         case Some(i) => Some(i + 1)
  }

  function LastIndexOf(s: string, c: char): Option<nat> {
    if s == "" then None
    else if s[|s| - 1] == c then Some(|s| - 1)
    else LastIndexOf(s[..|s| - 1], c)
  }

  lemma {:induction false} IndexOfIsFirst(s: string, c: char)
    ensures IndexOf(s, c).None? <==> c !in s
    ensures IndexOf(s, c).Some? ==>
              var i := IndexOf(s, c).value;
              i < |s| && s[i] == c && forall j | 0 <= j < i :: s[j] != c
  {
    if s == "" || s[0] == c {
    } else {
      IndexOfIsFirst(s[1..], c);
      if IndexOf(s, c).Some? {
        assert forall j | 1 <= j < |s| :: s[j] == s[1..][j - 1];
      }
    }
  }

  lemma {:induction false} LastIndexOfIsLast(s: string, c: char)
    ensures LastIndexOf(s, c).None? <==> c !in s
    ensures LastIndexOf(s, c).Some? ==>
              var i := LastIndexOf(s, c).value;
              i < |s| && s[i] == c && forall j | i < j < |s| :: s[j] != c
  {
    if s == "" || s[|s| - 1] == c {
    } else {
      LastIndexOfIsLast(s[..|s| - 1], c);
    }
  }

  function LastSegment(image: string): string {
    match LastIndexOf(image, '/')
    case None => image
    case Some(i) => if i < |image| then image[i + 1..] else image
  }

  function EnsureDockerImageTag(image: string): string {
    if image == "" then image
    else if '@' in image then image
    else
      match IndexOf(LastSegment(image), ':')
      case None => image + ":latest"
      case Some(i) => if i + 1 < |LastSegment(image)| then image else image + ":latest"
  }

  predicate NoSlashFrom(image: string, i: nat) {
    forall j | i <= j < |image| :: image[j] != '/'
  }

  /** A digest, or a colon followed by something, with no slash after it. */
  predicate Pinned(image: string) {
    || '@' in image
    || exists i | 0 <= i < |image| - 1 :: image[i] == ':' && NoSlashFrom(image, i)
  }

  /** Images keep their name exactly when they are pinned; all others get the default tag, once. */
  lemma ImageTags(image: string)
    requires image != ""
    ensures EnsureDockerImageTag(image) == if Pinned(image) then image else image + ":latest"
    ensures Pinned(EnsureDockerImageTag(image))
    ensures EnsureDockerImageTag(EnsureDockerImageTag(image)) == EnsureDockerImageTag(image)
  {
    KeptIffPinned(image);
    if !Pinned(image) {
      var tagged := image + ":latest";
      assert tagged[|image|] == ':' && NoSlashFrom(tagged, |image|);
      KeptIffPinned(tagged);
    }
  }

  lemma KeptIffPinned(image: string)
    requires image != ""
    ensures EnsureDockerImageTag(image) == if Pinned(image) then image else image + ":latest"
  {
    if '@' !in image {
      if Pinned(image) {
        var i :| 0 <= i < |image| - 1 && image[i] == ':' && NoSlashFrom(image, i);
        KeptIfTagged(image, i);
      } else {
        KeptOnlyIfPinned(image);
      }
    }
  }

  lemma LastSegmentIsSuffix(image: string)
    ensures |LastSegment(image)| <= |image|
    ensures LastSegment(image) == image[|image| - |LastSegment(image)|..]
    ensures NoSlashFrom(image, |image| - |LastSegment(image)|)
    ensures |LastSegment(image)| < |image| ==> image[|image| - |LastSegment(image)| - 1] == '/'
  {
    LastIndexOfIsLast(image, '/');
  }

  lemma KeptOnlyIfPinned(image: string)
    requires image != "" && '@' !in image && !Pinned(image)
    ensures EnsureDockerImageTag(image) == image + ":latest"
  {
    LastSegmentIsSuffix(image);
    var segment := LastSegment(image);
    var start := |image| - |segment|;
    IndexOfIsFirst(segment, ':');
    if IndexOf(segment, ':').Some? {
      var i := IndexOf(segment, ':').value;
      assert image[start + i] == ':' && NoSlashFrom(image, start + i);
    }
  }

  lemma TagIsInLastSegment(image: string, i: nat)
    requires i < |image| && NoSlashFrom(image, i)
    ensures |image| - |LastSegment(image)| <= i
  {
    LastSegmentIsSuffix(image);
    hide LastSegment;
    if |LastSegment(image)| < |image| {
      assert image[|image| - |LastSegment(image)| - 1] == '/';
    }
  }

  lemma KeptIfTagged(image: string, i: nat)
    requires i < |image| - 1 && image[i] == ':' && NoSlashFrom(image, i) && '@' !in image
    ensures EnsureDockerImageTag(image) == image
  {
    TagIsInLastSegment(image, i);
    LastSegmentIsSuffix(image);
    hide LastSegment, NoSlashFrom;
    var segment := LastSegment(image);
    var k := i - (|image| - |segment|);
    assert segment[k] == ':';
    IndexOfIsFirst(segment, ':');
    hide IndexOf;
  }

  // ---------------------------------------------------------------------------------------------
  // Records
  // ---------------------------------------------------------------------------------------------

  /** A missing key reads as Go's nil. */
  function At(fields: Fields, key: string): Value {
    if key in fields then fields[key] else Null
  }

  function BuildProjectData(project: Fields): Fields {
    map["_id" := At(project, "_id"), "projectId" := At(project, "projectId"), "name" := At(project, "name"),
        "tenantId" := At(project, "tenantId"), "info" := At(project, "info")]
  }

  function BuildRevisionData(name: string): Fields {
    map["name" := Text(name)]
  }

  function BuildServiceData(service: Fields): Fields {
    match TextAt(service, "dockerImage")
    case None => service
    case Some(image) => service["dockerImage" := Text(EnsureDockerImageTag(image))]
  }

  function ProjectRecord(project: Fields): Record {
    Record(Project, map["project" := Object(project)])
  }

  function RevisionRecord(project: Fields, revision: string): Record {
    Record(Revision, map["project" := Object(BuildProjectData(project)),
                         "revision" := Object(BuildRevisionData(revision))])
  }

  function ServiceRecord(project: Fields, revision: string, service: Fields): Record {
    Record(Service, map["project" := Object(BuildProjectData(project)),
                        "revision" := Object(BuildRevisionData(revision)),
                        "service" := Object(BuildServiceData(service))])
  }

  function CustomResourceRecord(project: Fields, revision: string, service: Fields): Record {
    Record(CustomResource, map["project" := Object(BuildProjectData(project)),
                               "revision" := Object(BuildRevisionData(revision)),
                               "customResource" := Object(service)])
  }

  /** The answer of `isServiceValid`; `None` is the panic of its assertions. */
  function IsServiceValid(service: Fields): Option<bool> {
    if "type" !in service || "advanced" !in service then Some(false)
    else if !service["type"].Text? then None
    else if service["type"].text != "custom" then Some(false)
    else if !service["advanced"].Bool? then None
    else Some(!service["advanced"].truth)
  }

  function IsCustomResourceValid(service: Fields): Option<bool> {
    if "type" !in service then Some(false)
    else if !service["type"].Text? then None
    else Some(service["type"].text == "custom-resource")
  }

  /** What the webhook's single pass makes of one entry, for the requested types. */
  function Items(project: Fields, revision: string, entry: Value, types: seq<Kind>): seq<Record> {
    if !entry.Object? then []
    else
      (if Service in types && IsServiceValid(entry.fields) == Some(true)
       then [ServiceRecord(project, revision, entry.fields)] else [])
      + (if CustomResource in types && IsCustomResourceValid(entry.fields) == Some(true)
         then [CustomResourceRecord(project, revision, entry.fields)] else [])
  }

  predicate EntryPanics(entry: Value, types: seq<Kind>) {
    || !entry.Object?
    || (Service in types && IsServiceValid(entry.fields).None?)
    || (CustomResource in types && IsCustomResourceValid(entry.fields).None?)
  }

  predicate ServicesPanic(configuration: Fields, types: seq<Kind>) {
    match ObjectAt(configuration, "services")
    case None => true
    case Some(services) => exists key | key in services :: EntryPanics(services[key], types)
  }

  function Yielding(keys: set<string>, services: Fields, project: Fields, revision: string, types: seq<Kind>,
                    r: Record): set<string> {
    set key | key in keys && key in services && r in Items(project, revision, services[key], types)
  }

  /** How many of the entries `keys` yield the record `r`. */
  function CopiesAmong(keys: set<string>, services: Fields, project: Fields, revision: string, types: seq<Kind>,
                       r: Record): nat {
    |Yielding(keys, services, project, revision, types, r)|
  }

  function Copies(configuration: Fields, project: Fields, revision: string, types: seq<Kind>, r: Record): nat {
    match ObjectAt(configuration, "services")
    case None => 0
    case Some(services) => CopiesAmong(services.Keys, services, project, revision, types, r)
  }

  lemma OneMoreYields(keys: set<string>, key: string, services: Fields, project: Fields,
                      revision: string, types: seq<Kind>, r: Record)
    requires key in services && key !in keys
    ensures Yielding(keys + {key}, services, project, revision, types, r)
         == Yielding(keys, services, project, revision, types, r)
          + if r in Items(project, revision, services[key], types) then {key} else {}
    ensures key !in Yielding(keys, services, project, revision, types, r)
  {
    hide Items;
  }

  lemma OneMoreEntry(keys: set<string>, key: string, services: Fields, project: Fields,
                     revision: string, types: seq<Kind>, r: Record)
    requires key in services && key !in keys
    ensures CopiesAmong(keys + {key}, services, project, revision, types, r)
         == CopiesAmong(keys, services, project, revision, types, r)
          + multiset(Items(project, revision, services[key], types))[r]
  {
    AtMostOneItem(project, revision, services[key], types);
    OneMoreYields(keys, key, services, project, revision, types, r);
    hide Items, Yielding;
    var items := Items(project, revision, services[key], types);
    assert items == [] || items == [items[0]];
  }

  /** No entry is both a service and a custom resource. */
  lemma AtMostOneItem(project: Fields, revision: string, entry: Value, types: seq<Kind>)
    ensures |Items(project, revision, entry, types)| <= 1
  {
    if entry.Object? && IsServiceValid(entry.fields) == Some(true) {
      assert entry.fields["type"].text != "custom-resource";
    }
  }

  // ---------------------------------------------------------------------------------------------
  // Synchronisation
  // ---------------------------------------------------------------------------------------------

  method CollectServicesFromConfiguration(project: Fields, revision: string, configuration: Fields)
    returns (outcome: Outcome, result: seq<Record>)
    ensures outcome == if ServicesPanic(configuration, [Service]) then Panicked else Done
    ensures outcome.Done? ==>
              forall r :: multiset(result)[r] == Copies(configuration, project, revision, [Service], r)
  {
    result := [];
    if ObjectAt(configuration, "services").None? {
      return Panicked, [];
    }
    var services := ObjectAt(configuration, "services").value;
    var todo := services.Keys;
    NoEntries(services, project, revision, [Service], services.Keys - todo);
    hide CopiesAmong, Yielding;
    while todo != {}
      invariant todo <= services.Keys
      invariant forall key | key in services.Keys - todo :: !EntryPanics(services[key], [Service])
      invariant forall r :: multiset(result)[r]
                         == CopiesAmong(services.Keys - todo, services, project, revision, [Service], r)
    {
      var key :| key in todo;
      var entry := services[key];
      if !entry.Object? || IsServiceValid(entry.fields).None? {
        assert EntryPanics(services[key], [Service]);
        return Panicked, [];
      }
      ghost var before := result;
      if IsServiceValid(entry.fields) == Some(true) {
        result := result + [ServiceRecord(project, revision, entry.fields)];
      }
      assert result == before + Items(project, revision, entry, [Service]);
      Advance(services, todo, key, project, revision, [Service]);
      todo := todo - {key};
    }
    assert services.Keys - todo == services.Keys;
    return Done, result;
  }

  method CollectCustomResourcesFromConfiguration(project: Fields, revision: string, configuration: Fields)
    returns (outcome: Outcome, result: seq<Record>)
    ensures outcome == if ServicesPanic(configuration, [CustomResource]) then Panicked else Done
    ensures outcome.Done? ==>
              forall r :: multiset(result)[r] == Copies(configuration, project, revision, [CustomResource], r)
  {
    result := [];
    if ObjectAt(configuration, "services").None? {
      return Panicked, [];
    }
    var services := ObjectAt(configuration, "services").value;
    var todo := services.Keys;
    NoEntries(services, project, revision, [CustomResource], services.Keys - todo);
    hide CopiesAmong, Yielding;
    while todo != {}
      invariant todo <= services.Keys
      invariant forall key | key in services.Keys - todo :: !EntryPanics(services[key], [CustomResource])
      invariant forall r :: multiset(result)[r]
                         == CopiesAmong(services.Keys - todo, services, project, revision, [CustomResource], r)
    {
      var key :| key in todo;
      var entry := services[key];
      if !entry.Object? || IsCustomResourceValid(entry.fields).None? {
        assert EntryPanics(services[key], [CustomResource]);
        return Panicked, [];
      }
      ghost var before := result;
      if IsCustomResourceValid(entry.fields) == Some(true) {
        result := result + [CustomResourceRecord(project, revision, entry.fields)];
      }
      assert result == before + Items(project, revision, entry, [CustomResource]);
      Advance(services, todo, key, project, revision, [CustomResource]);
      todo := todo - {key};
    }
    assert services.Keys - todo == services.Keys;
    return Done, result;
  }

  /** One turn of a loop over the services. */
  lemma Advance(services: Fields, todo: set<string>, key: string, project: Fields,
                revision: string, types: seq<Kind>)
    requires todo <= services.Keys && key in todo
    ensures services.Keys - (todo - {key}) == (services.Keys - todo) + {key}
    ensures forall r :: CopiesAmong(services.Keys - (todo - {key}), services, project, revision, types, r)
                     == CopiesAmong(services.Keys - todo, services, project, revision, types, r)
                      + multiset(Items(project, revision, services[key], types))[r]
  {
    assert services.Keys - (todo - {key}) == (services.Keys - todo) + {key};
    forall r
      ensures CopiesAmong(services.Keys - (todo - {key}), services, project, revision, types, r)
           == CopiesAmong(services.Keys - todo, services, project, revision, types, r)
            + multiset(Items(project, revision, services[key], types))[r]
    {
      OneMoreEntry(services.Keys - todo, key, services, project, revision, types, r);
    }
  }

  lemma NoEntries(services: Fields, project: Fields, revision: string, types: seq<Kind>,
                  keys: set<string>)
    requires keys == {}
    ensures forall r :: CopiesAmong(keys, services, project, revision, types, r) == 0
  {
    forall r
      ensures CopiesAmong(keys, services, project, revision, types, r) == 0
    {
      assert Yielding(keys, services, project, revision, types, r) == {};
    }
  }

  /** Strips heavy fields; what the collectors read stays. */
  function CustomRemoveFields(configuration: Fields): (r: Fields)
    ensures ObjectAt(r, "services") == ObjectAt(configuration, "services")
    ensures r.Keys == configuration.Keys
  {
    var lighter := match ObjectAt(configuration, "fastDataConfig")
      case None => configuration
      case Some(fastData) => configuration["fastDataConfig" := Object(fastData["castFunctions" := Null])];
    match ObjectAt(lighter, "microfrontendPluginsConfig")
    case None => lighter
    case Some(plugin) =>
      match ObjectAt(plugin, "backofficeConfigurations")
      case None => lighter
      case Some(backoffice) =>
        lighter["microfrontendPluginsConfig" :=
          Object(plugin["backofficeConfigurations" := Object(backoffice["services" := Null])])]
  }

  /** Answers of the Console API, `None` for an error. */
  type GetRevisions = string -> Option<seq<Fields>>
  type GetProject = string -> Option<Fields>
  type GetConfiguration = (string, string) -> Option<Fields>

  predicate OnDefaultBranch(project: Fields, revision: string) {
    TextAt(project, "defaultBranch") == Some(revision)
  }

  /** Whether the collectors that `types` asks for panic on one revision. */
  function RevisionOutcome(project: Fields, revision: string, configuration: Fields, types: seq<Kind>): Outcome {
    if OnDefaultBranch(project, revision)
       && ((Service in types && ServicesPanic(configuration, [Service]))
           || (CustomResource in types && ServicesPanic(configuration, [CustomResource])))
    then Panicked else Done
  }

  /** How many copies of `r` the synchronisation makes of one revision when it asks for `kind`. */
  function KindCopies(kind: Kind, project: Fields, revision: string, configuration: Fields, r: Record): nat {
    match kind
    case Revision => if r == RevisionRecord(project, revision) then 1 else 0
    case Service =>
      if OnDefaultBranch(project, revision) then Copies(configuration, project, revision, [Service], r) else 0
    case CustomResource =>
      if OnDefaultBranch(project, revision) then Copies(configuration, project, revision, [CustomResource], r) else 0
    case _ => 0
  }

  function RevisionCopies(project: Fields, revision: string, configuration: Fields, types: seq<Kind>,
                          r: Record): nat {
    (if Revision in types then KindCopies(Revision, project, revision, configuration, r) else 0)
    + (if Service in types then KindCopies(Service, project, revision, configuration, r) else 0)
    + (if CustomResource in types then KindCopies(CustomResource, project, revision, configuration, r) else 0)
  }

  lemma OneMoreKind(project: Fields, revision: string, configuration: Fields,
                    types: seq<Kind>, kind: Kind)
    requires kind !in types
    ensures forall r :: RevisionCopies(project, revision, configuration, types + [kind], r)
                     == RevisionCopies(project, revision, configuration, types, r)
                      + KindCopies(kind, project, revision, configuration, r)
  {
    hide Copies, OnDefaultBranch, RevisionRecord;
    assert forall t :: t in types + [kind] <==> t in types || t == kind;
  }

  /** The body of the loop over the revisions of a project. */
  method ListRevision(project: Fields, revision: string, configuration: Fields, subtypes: seq<Kind>)
    returns (outcome: Outcome, result: seq<Record>)
    requires InChainOrder(subtypes)
    ensures outcome == RevisionOutcome(project, revision, configuration, subtypes)
    ensures outcome.Done? ==>
              forall r :: multiset(result)[r] == RevisionCopies(project, revision, configuration, subtypes, r)
  {
    result := [];
    hide Copies, ServicesPanic, RevisionCopies;
    NoKinds(project, revision, configuration, subtypes[..0]);
    for n := 0 to |subtypes|
      invariant RevisionOutcome(project, revision, configuration, subtypes[..n]).Done?
      invariant forall r :: multiset(result)[r]
                         == RevisionCopies(project, revision, configuration, subtypes[..n], r)
    {
      assert subtypes[..n + 1] == subtypes[..n] + [subtypes[n]];
      OneMoreKind(project, revision, configuration, subtypes[..n], subtypes[n]);
      var more, ok := [], Done;
      match subtypes[n] {
      case Revision =>
        more := [RevisionRecord(project, revision)];
      case Service =>
        if OnDefaultBranch(project, revision) {
          ok, more := CollectServicesFromConfiguration(project, revision, configuration);
        }
      case CustomResource =>
        if OnDefaultBranch(project, revision) {
          ok, more := CollectCustomResourcesFromConfiguration(project, revision, configuration);
        }
      case _ =>
      }
      if ok.Panicked? {
        return Panicked, [];
      }
      result := result + more;
    }
    assert subtypes[..|subtypes|] == subtypes;
    return Done, result;
  }

  lemma NoKinds(project: Fields, revision: string, configuration: Fields, types: seq<Kind>)
    requires types == []
    ensures forall r :: RevisionCopies(project, revision, configuration, types, r) == 0
  {
  }

  /** What the listing of one revision comes to: the configuration is fetched whatever the types are. */
  function ListedRevisionOutcome(project: Fields, id: string, revision: Fields, getConfiguration: GetConfiguration,
                                 types: seq<Kind>): Outcome {
    match TextAt(revision, "name")
    case None => Panicked
    case Some(name) =>
      match getConfiguration(id, name)
      case None => Failed
      case Some(configuration) => RevisionOutcome(project, name, configuration, types)
  }

  /** The first problem met among the revisions, in order. */
  function RevisionsOutcome(project: Fields, id: string, revisions: seq<Fields>, getConfiguration: GetConfiguration,
                            types: seq<Kind>): Outcome {
    if revisions == [] then Done
    else
      var first := ListedRevisionOutcome(project, id, revisions[0], getConfiguration, types);
      if !first.Done? then first else RevisionsOutcome(project, id, revisions[1..], getConfiguration, types)
  }

  function ListedRevisionCopies(project: Fields, id: string, revision: Fields, getConfiguration: GetConfiguration,
                                types: seq<Kind>, r: Record): nat {
    match TextAt(revision, "name")
    case None => 0
    case Some(name) =>
      match getConfiguration(id, name)
      case None => 0
      case Some(configuration) => RevisionCopies(project, name, configuration, types, r)
  }

  function RevisionsCopies(project: Fields, id: string, revisions: seq<Fields>, getConfiguration: GetConfiguration,
                           types: seq<Kind>, r: Record): nat {
    if revisions == [] then 0
    else
      ListedRevisionCopies(project, id, revisions[0], getConfiguration, types, r)
      + RevisionsCopies(project, id, revisions[1..], getConfiguration, types, r)
  }

  lemma OnlyServicesMatter(project: Fields, revision: string, configuration: Fields,
                           other: Fields, types: seq<Kind>)
    requires ObjectAt(configuration, "services") == ObjectAt(other, "services")
    ensures RevisionOutcome(project, revision, configuration, types)
         == RevisionOutcome(project, revision, other, types)
    ensures forall r :: RevisionCopies(project, revision, configuration, types, r)
                     == RevisionCopies(project, revision, other, types, r)
  {
    assert forall ts :: ServicesPanic(configuration, ts) == ServicesPanic(other, ts);
    assert forall ts, r :: Copies(configuration, project, revision, ts, r) == Copies(other, project, revision, ts, r);
  }

  method ListRevisions(project: Fields, id: string, revisions: seq<Fields>, getConfiguration: GetConfiguration,
                       subtypes: seq<Kind>)
    returns (outcome: Outcome, result: seq<Record>)
    requires InChainOrder(subtypes)
    ensures outcome == RevisionsOutcome(project, id, revisions, getConfiguration, subtypes)
    ensures outcome.Done? ==>
              forall r :: multiset(result)[r]
                       == RevisionsCopies(project, id, revisions, getConfiguration, subtypes, r)
  {
    result := [];
    hide RevisionCopies, RevisionOutcome, CustomRemoveFields;
    for n := 0 to |revisions|
      invariant RevisionsOutcome(project, id, revisions, getConfiguration, subtypes)
             == RevisionsOutcome(project, id, revisions[n..], getConfiguration, subtypes)
      invariant forall r :: multiset(result)[r]
                          + RevisionsCopies(project, id, revisions[n..], getConfiguration, subtypes, r)
                         == RevisionsCopies(project, id, revisions, getConfiguration, subtypes, r)
    {
      assert revisions[n..][1..] == revisions[n + 1..];
      var name := TextAt(revisions[n], "name");
      if name.None? {
        return Panicked, [];
      }
      var configuration := getConfiguration(id, name.value);
      if configuration.None? {
        return Failed, [];
      }
      var reduced := CustomRemoveFields(configuration.value);
      OnlyServicesMatter(project, name.value, reduced, configuration.value, subtypes);
      var ok, more := ListRevision(project, name.value, reduced, subtypes);
      if !ok.Done? {
        return ok, [];
      }
      result := result + more;
    }
    return Done, result;
  }

  function ProjectOutcome(project: Fields, getRevisions: GetRevisions, getConfiguration: GetConfiguration,
                          types: seq<Kind>): Outcome {
    match TextAt(project, "_id")
    case None => Panicked
    case Some(id) =>
      match getRevisions(id)
      case None => Failed
      case Some(revisions) => RevisionsOutcome(project, id, revisions, getConfiguration, types)
  }

  function ProjectCopies(project: Fields, getRevisions: GetRevisions, getConfiguration: GetConfiguration,
                         types: seq<Kind>, r: Record): nat {
    (if Project in types && r == ProjectRecord(project) then 1 else 0)
    + match TextAt(project, "_id")
      case None => 0
      case Some(id) =>
        match getRevisions(id)
        case None => 0
        case Some(revisions) => RevisionsCopies(project, id, revisions, getConfiguration, types, r)
  }

  function ProjectsOutcome(projects: seq<Fields>, getRevisions: GetRevisions, getConfiguration: GetConfiguration,
                           types: seq<Kind>): Outcome {
    if projects == [] then Done
    else
      var first := ProjectOutcome(projects[0], getRevisions, getConfiguration, types);
      if !first.Done? then first else ProjectsOutcome(projects[1..], getRevisions, getConfiguration, types)
  }

  function ProjectsCopies(projects: seq<Fields>, getRevisions: GetRevisions, getConfiguration: GetConfiguration,
                          types: seq<Kind>, r: Record): nat {
    if projects == [] then 0
    else
      ProjectCopies(projects[0], getRevisions, getConfiguration, types, r)
      + ProjectsCopies(projects[1..], getRevisions, getConfiguration, types, r)
  }

  /** The body of the loop over the projects. */
  method ListProject(project: Fields, getRevisions: GetRevisions, getConfiguration: GetConfiguration,
                     subtypes: seq<Kind>)
    returns (outcome: Outcome, result: seq<Record>)
    requires InChainOrder(subtypes)
    ensures outcome == ProjectOutcome(project, getRevisions, getConfiguration, subtypes)
    ensures outcome.Done? ==>
              forall r :: multiset(result)[r] == ProjectCopies(project, getRevisions, getConfiguration, subtypes, r)
  {
    hide RevisionsOutcome, RevisionsCopies, ProjectRecord;
    result := [];
    if Project in subtypes {
      result := result + [ProjectRecord(project)];
    }
    var id := TextAt(project, "_id");
    if id.None? {
      return Panicked, [];
    }
    var revisions := getRevisions(id.value);
    if revisions.None? {
      return Failed, [];
    }
    var ok, more := ListRevisions(project, id.value, revisions.value, getConfiguration, subtypes);
    if !ok.Done? {
      return ok, [];
    }
    return Done, result + more;
  }

  method ListConfigurations(getProjects: Option<seq<Fields>>, getRevisions: GetRevisions,
                            getConfiguration: GetConfiguration, subtypes: seq<Kind>)
    returns (outcome: Outcome, result: seq<Record>)
    requires InChainOrder(subtypes)
    ensures outcome == if getProjects.None? then Failed
                       else ProjectsOutcome(getProjects.value, getRevisions, getConfiguration, subtypes)
    ensures outcome.Done? ==>
              forall r :: multiset(result)[r]
                       == ProjectsCopies(getProjects.value, getRevisions, getConfiguration, subtypes, r)
  {
    result := [];
    if getProjects.None? {
      return Failed, [];
    }
    var projects := getProjects.value;
    hide ProjectOutcome, ProjectCopies;
    for n := 0 to |projects|
      invariant ProjectsOutcome(projects, getRevisions, getConfiguration, subtypes)
             == ProjectsOutcome(projects[n..], getRevisions, getConfiguration, subtypes)
      invariant forall r :: multiset(result)[r]
                          + ProjectsCopies(projects[n..], getRevisions, getConfiguration, subtypes, r)
                         == ProjectsCopies(projects, getRevisions, getConfiguration, subtypes, r)
    {
      assert projects[n..][1..] == projects[n + 1..];
      var ok, more := ListProject(projects[n], getRevisions, getConfiguration, subtypes);
      if !ok.Done? {
        return ok, [];
      }
      result := result + more;
    }
    return Done, result;
  }
}
