/** What the synchronisation of the Console lists, field by field, and what it comes to. */
module ConsoleContents {
  import opened Values
  import opened Console
  import opened ConsoleWebhook

  // ---- Records ----

  predicate IsText(fields: Fields, key: string) {
    key in fields && fields[key].Text?
  }

  /** The project data of a record are its five identifying fields, nil where the project lacks one. */
  lemma ProjectDataKeeps(project: Fields)
    ensures BuildProjectData(project).Keys == {"_id", "projectId", "name", "tenantId", "info"}
    ensures forall key | key in BuildProjectData(project) ::
              BuildProjectData(project)[key] == if key in project then project[key] else Null
  {
  }

  function TaggedImage(image: string): string {
    if image == "" || Pinned(image) then image else image + ":latest"
  }

  /** The service data are the service; an image that is a text carries its tag. */
  lemma ServiceDataKeeps(service: Fields)
    ensures BuildServiceData(service).Keys == service.Keys
    ensures forall key | key in service :: key != "dockerImage" || !service[key].Text? ==>
              BuildServiceData(service)[key] == service[key]
    ensures IsText(service, "dockerImage") ==>
              BuildServiceData(service)["dockerImage"] == Text(TaggedImage(service["dockerImage"].text))
  {
    if IsText(service, "dockerImage") && service["dockerImage"].text != "" {
      ImageTags(service["dockerImage"].text);
    }
  }

  predicate OfType(service: Fields, name: string) {
    "type" in service && service["type"] == Text(name)
  }

  /** An entry is a service if its type is "custom" and it is expressly not advanced. */
  predicate IsService(service: Fields) {
    OfType(service, "custom") && "advanced" in service && service["advanced"] == Bool(false)
  }

  /** An entry gives at most one record: that of a service or that of a custom resource. */
  lemma EntryGives(project: Fields, revision: string, service: Fields, types: seq<Kind>)
    ensures var head := map["project" := Object(BuildProjectData(project)),
                            "revision" := Object(map["name" := Text(revision)])];
            var items := Items(project, revision, Object(service), types);
            if Service in types && IsService(service) then
              items == [Record(Service, head["service" := Object(BuildServiceData(service))])]
            else if CustomResource in types && OfType(service, "custom-resource") then
              items == [Record(CustomResource, head["customResource" := Object(service)])]
            else items == []
  {
  }

  /** It panics exactly when it is no object, or when a type that is no text is looked at, or an "advanced" of a
      "custom" entry that is no truth value; the type is looked at for custom resources, and for services if there
      is an "advanced" too. */
  lemma EntryPanicsIff(entry: Value, types: seq<Kind>)
    ensures EntryPanics(entry, types) <==>
              || !entry.Object?
              || (&& "type" in entry.fields && !entry.fields["type"].Text?
                  && (CustomResource in types || (Service in types && "advanced" in entry.fields)))
              || (&& Service in types && OfType(entry.fields, "custom")
                  && "advanced" in entry.fields && !entry.fields["advanced"].Bool?)
  {
  }

  /** The map that stands under a key, with one of its keys made nil. */
  predicate NilAt(before: Value, after: Value, key: string) {
    if before.Object? then after == Object(before.fields[key := Null]) else after == before
  }

  /** Two nested fields become nil, where there is a map to hold them; everything else stays. */
  lemma FieldsRemoved(configuration: Fields)
    ensures var r := CustomRemoveFields(configuration);
            && r.Keys == configuration.Keys
            && (forall key | key in configuration :: key != "fastDataConfig" && key != "microfrontendPluginsConfig" ==>
                  r[key] == configuration[key])
            && ("fastDataConfig" in r ==>
                  NilAt(configuration["fastDataConfig"], r["fastDataConfig"], "castFunctions"))
            && ("microfrontendPluginsConfig" in r ==>
                  PluginsLightened(configuration["microfrontendPluginsConfig"], r["microfrontendPluginsConfig"]))
  {
  }

  predicate PluginsLightened(before: Value, after: Value) {
    if !before.Object? || "backofficeConfigurations" !in before.fields then after == before
    else
      && after.Object? && after.fields.Keys == before.fields.Keys
      && NilAt(before.fields["backofficeConfigurations"], after.fields["backofficeConfigurations"], "services")
      && forall key | key in before.fields && key != "backofficeConfigurations" ::
           after.fields[key] == before.fields[key]
  }

  // ---- Outcomes ----

  /** The collectors asked for pass over the services of a configuration without a panic. */
  predicate Readable(configuration: Fields, types: seq<Kind>) {
    Service in types || CustomResource in types ==>
      && "services" in configuration && configuration["services"].Object?
      && forall key | key in configuration["services"].fields ::
           !EntryPanics(configuration["services"].fields[key], types)
  }

  /** The revision has a name, its configuration is fetched, and if it is the default branch it can be read. */
  predicate RevisionListed(project: Fields, id: string, revision: Fields, getConfiguration: GetConfiguration,
                           types: seq<Kind>) {
    && IsText(revision, "name")
    && var configuration := getConfiguration(id, revision["name"].text);
       && configuration.Some?
       && ("defaultBranch" in project && project["defaultBranch"] == revision["name"] ==>
             Readable(configuration.value, types))
  }

  lemma ReadableIff(project: Fields, revision: string, configuration: Fields, types: seq<Kind>)
    requires "defaultBranch" in project && project["defaultBranch"] == Text(revision)
    ensures RevisionOutcome(project, revision, configuration, types)
         == if Readable(configuration, types) then Done else Panicked
  {
    if ObjectAt(configuration, "services").Some? {
      var services := configuration["services"].fields;
      forall key | key in services
        ensures EntryPanics(services[key], types) <==>
                  || (!services[key].Object?)
                  || (Service in types && EntryPanics(services[key], [Service]))
                  || (CustomResource in types && EntryPanics(services[key], [CustomResource]))
      {
      }
    }
  }

  lemma RevisionListedIff(project: Fields, id: string, revision: Fields, getConfiguration: GetConfiguration,
                          types: seq<Kind>)
    ensures ListedRevisionOutcome(project, id, revision, getConfiguration, types)
         == if RevisionListed(project, id, revision, getConfiguration, types) then Done
            else if IsText(revision, "name") && getConfiguration(id, revision["name"].text).None? then Failed
            else Panicked
  {
    if IsText(revision, "name") && "defaultBranch" in project && project["defaultBranch"] == revision["name"] {
      var configuration := getConfiguration(id, revision["name"].text);
      if configuration.Some? {
        ReadableIff(project, revision["name"].text, configuration.value, types);
      }
    }
  }

  /** Listing the revisions succeeds exactly when each of them is listed, and otherwise comes to what the first that
      is not comes to: an error if its configuration cannot be fetched, and a panic otherwise. */
  lemma {:induction false} RevisionsOutcomeIs(project: Fields, id: string, revisions: seq<Fields>,
                                              getConfiguration: GetConfiguration, types: seq<Kind>)
    ensures var outcome := RevisionsOutcome(project, id, revisions, getConfiguration, types);
            && (outcome.Done? <==>
                  forall x | x in revisions :: RevisionListed(project, id, x, getConfiguration, types))
            && forall f: nat | f < |revisions| ::
                 && (forall x | x in revisions[..f] :: RevisionListed(project, id, x, getConfiguration, types))
                 && !RevisionListed(project, id, revisions[f], getConfiguration, types) ==>
                   outcome == if && IsText(revisions[f], "name")
                                 && getConfiguration(id, revisions[f]["name"].text).None?
                              then Failed else Panicked
  {
    if revisions == [] {
    } else {
      RevisionListedIff(project, id, revisions[0], getConfiguration, types);
      RevisionsOutcomeIs(project, id, revisions[1..], getConfiguration, types);
      hide RevisionListed, ListedRevisionOutcome;
      forall f: nat | 0 < f < |revisions|
        ensures revisions[..f] == [revisions[0]] + revisions[1..][..f - 1]
      {
      }
    }
  }

  predicate ProjectListed(project: Fields, getRevisions: GetRevisions, getConfiguration: GetConfiguration,
                          types: seq<Kind>) {
    && IsText(project, "_id")
    && var revisions := getRevisions(project["_id"].text);
       && revisions.Some?
       && forall x | x in revisions.value ::
            RevisionListed(project, project["_id"].text, x, getConfiguration, types)
  }

  /** Likewise for the projects; a project whose identifier is no text makes the listing panic. */
  lemma {:induction false} ProjectsOutcomeIs(projects: seq<Fields>, getRevisions: GetRevisions,
                                             getConfiguration: GetConfiguration, types: seq<Kind>)
    ensures var outcome := ProjectsOutcome(projects, getRevisions, getConfiguration, types);
            && (outcome.Done? <==>
                  forall x | x in projects :: ProjectListed(x, getRevisions, getConfiguration, types))
            && forall f: nat | f < |projects| ::
                 && (forall x | x in projects[..f] :: ProjectListed(x, getRevisions, getConfiguration, types))
                 && !ProjectListed(projects[f], getRevisions, getConfiguration, types) ==>
                   FirstProblem(projects[f], getRevisions, getConfiguration, types, outcome)
  {
    if projects == [] {
    } else {
      ProjectListedIff(projects[0], getRevisions, getConfiguration, types);
      ProjectsOutcomeIs(projects[1..], getRevisions, getConfiguration, types);
      hide ProjectListed, ProjectOutcome, FirstProblem;
      forall f: nat | 0 < f < |projects|
        ensures projects[..f] == [projects[0]] + projects[1..][..f - 1]
      {
      }
    }
  }

  predicate FirstProblem(project: Fields, getRevisions: GetRevisions, getConfiguration: GetConfiguration,
                         types: seq<Kind>, outcome: Outcome) {
    if !IsText(project, "_id") then outcome == Panicked
    else
      match getRevisions(project["_id"].text)
      case None => outcome == Failed
      case Some(revisions) =>
        outcome == RevisionsOutcome(project, project["_id"].text, revisions, getConfiguration, types)
  }

  lemma ProjectListedIff(project: Fields, getRevisions: GetRevisions, getConfiguration: GetConfiguration,
                         types: seq<Kind>)
    ensures var outcome := ProjectOutcome(project, getRevisions, getConfiguration, types);
            && (ProjectListed(project, getRevisions, getConfiguration, types) <==> outcome.Done?)
            && FirstProblem(project, getRevisions, getConfiguration, types, outcome)
  {
    if IsText(project, "_id") && getRevisions(project["_id"].text).Some? {
      var id := project["_id"].text;
      RevisionsOutcomeIs(project, id, getRevisions(id).value, getConfiguration, types);
    }
  }

  /** A configuration event fails when it does not name a project that can be fetched and a revision, and on the
      default branch when the configuration cannot be. Where services are asked for it panics when the project
      names no default branch, and on the default branch when the services cannot be read. */
  lemma EventOutcomeIs(payload: Option<Fields>, types: seq<Kind>, getProject: GetProject,
                       getConfiguration: GetConfiguration)
    ensures var outcome := EventOutcome(payload, types, getProject, getConfiguration);
            if || payload.None? || !IsText(payload.value, "projectId") || !IsText(payload.value, "revisionName")
               || getProject(payload.value["projectId"].text).None?
            then outcome == Failed
            else
              var project := getProject(payload.value["projectId"].text).value;
              var configuration :=
                getConfiguration(payload.value["projectId"].text, payload.value["revisionName"].text);
              if Service !in types && CustomResource !in types then outcome == Done
              else if !IsText(project, "defaultBranch") then outcome == Panicked
              else if project["defaultBranch"] != payload.value["revisionName"] then outcome == Done
              else if configuration.None? then outcome == Failed
              else outcome == if Readable(configuration.value, types) then Done else Panicked
  {
    hide EntryPanics;
  }

  /** The record of the project, then that of the revision. */
  function OwnRecords(project: Fields, revision: string, withProject: bool, withRevision: bool): seq<Record> {
    (if withProject then [Record(Project, map["project" := Object(project)])] else [])
    + (if withRevision
       then [Record(Revision, map["project" := Object(BuildProjectData(project)),
                                  "revision" := Object(map["name" := Text(revision)])])]
       else [])
  }

  lemma OneMoreOwn(project: Fields, revision: string, withProject: bool, withRevision: bool, kind: Kind)
    requires kind == Project ==> !withProject && !withRevision
    requires kind == Revision ==> !withRevision
    ensures OwnRecords(project, revision, withProject, withRevision) + Header(project, revision, kind)
         == OwnRecords(project, revision, withProject || kind == Project, withRevision || kind == Revision)
  {
    hide BuildProjectData;
  }

  /** These are the records that go out before the services. */
  lemma {:induction false} HeadersAre(project: Fields, revision: string, types: seq<Kind>)
    requires InChainOrder(types)
    ensures Headers(project, revision, types) == OwnRecords(project, revision, Project in types, Revision in types)
    decreases |types|
  {
    hide OwnRecords, Header;
    if types == [] {
      NoOwn(project, revision);
    } else {
      var shorter, last := types[..|types| - 1], types[|types| - 1];
      LastInChain(types, shorter, last);
      HeadersAre(project, revision, shorter);
      OneMoreOwn(project, revision, Project in shorter, Revision in shorter, last);
    }
  }

  lemma NoOwn(project: Fields, revision: string)
    ensures OwnRecords(project, revision, false, false) == []
  {
  }

  lemma LastInChain(types: seq<Kind>, shorter: seq<Kind>, last: Kind)
    requires InChainOrder(types) && types == shorter + [last]
    ensures InChainOrder(shorter)
    ensures Project in types <==> Project in shorter || last == Project
    ensures Revision in types <==> Revision in shorter || last == Revision
    ensures last == Project ==> Project !in shorter && Revision !in shorter
    ensures last == Revision ==> Revision !in shorter
  {
    assert types[|shorter|] == last;
    assert forall i | 0 <= i < |shorter| :: shorter[i] == types[i];
    forall t | t in shorter
      ensures Rank(t) < Rank(last) && t in types
    {
      var k :| 0 <= k < |shorter| && shorter[k] == t;
      assert types[k] == t;
    }
  }

  // ---- Which records are listed ----

  /** The record of one entry of the services of the default branch. */
  predicate RecordOf(r: Record, types: seq<Kind>, project: Fields, revision: string, entry: Value) {
    var head := map["project" := Object(BuildProjectData(project)),
                    "revision" := Object(map["name" := Text(revision)])];
    && entry.Object?
    && (|| (&& Service in types && IsService(entry.fields)
            && r == Record(Service, head["service" := Object(BuildServiceData(entry.fields))]))
        || (&& CustomResource in types && OfType(entry.fields, "custom-resource")
            && r == Record(CustomResource, head["customResource" := Object(entry.fields)])))
  }

  /** The record of a revision, or one of those of its services if it is the default branch. */
  predicate WithinRevision(r: Record, types: seq<Kind>, project: Fields, revision: string, configuration: Fields) {
    || (&& Revision in types
        && r == Record(Revision, map["project" := Object(BuildProjectData(project)),
                                     "revision" := Object(map["name" := Text(revision)])]))
    || (&& "defaultBranch" in project && project["defaultBranch"] == Text(revision)
        && "services" in configuration && configuration["services"].Object?
        && exists key | key in configuration["services"].fields ::
             RecordOf(r, types, project, revision, configuration["services"].fields[key]))
  }

  lemma RecordOfIff(project: Fields, revision: string, entry: Value, types: seq<Kind>, r: Record)
    ensures r in Items(project, revision, entry, types) <==> RecordOf(r, types, project, revision, entry)
  {
    if entry.Object? {
      EntryGives(project, revision, entry.fields, types);
    }
  }

  lemma CopiesIff(configuration: Fields, project: Fields, revision: string, types: seq<Kind>, r: Record)
    ensures Copies(configuration, project, revision, types, r) > 0 <==>
              && "services" in configuration && configuration["services"].Object?
              && exists key | key in configuration["services"].fields ::
                   RecordOf(r, types, project, revision, configuration["services"].fields[key])
  {
    if ObjectAt(configuration, "services").Some? {
      var services := configuration["services"].fields;
      var yielding := Yielding(services.Keys, services, project, revision, types, r);
      forall key | key in services
        ensures key in yielding <==> RecordOf(r, types, project, revision, services[key])
      {
        RecordOfIff(project, revision, services[key], types, r);
      }
      if |yielding| > 0 {
        var key :| key in yielding;
      }
    }
  }

  lemma RevisionCopiesIff(project: Fields, revision: string, configuration: Fields, types: seq<Kind>, r: Record)
    ensures RevisionCopies(project, revision, configuration, types, r) > 0
       <==> WithinRevision(r, types, project, revision, configuration)
  {
    CopiesIff(configuration, project, revision, [Service], r);
    CopiesIff(configuration, project, revision, [CustomResource], r);
    hide Copies, BuildProjectData, BuildServiceData, IsService, OfType;
  }

  /** One of the records of the revisions of a project. */
  predicate WithinRevisions(r: Record, types: seq<Kind>, project: Fields, id: string, revisions: seq<Fields>,
                            getConfiguration: GetConfiguration) {
    exists x: Fields | x in revisions ::
      && IsText(x, "name") && getConfiguration(id, x["name"].text).Some?
      && WithinRevision(r, types, project, x["name"].text, getConfiguration(id, x["name"].text).value)
  }

  lemma {:induction false} RevisionsCopiesIff(project: Fields, id: string, revisions: seq<Fields>,
                                              getConfiguration: GetConfiguration, types: seq<Kind>, r: Record)
    ensures RevisionsCopies(project, id, revisions, getConfiguration, types, r) > 0
       <==> WithinRevisions(r, types, project, id, revisions, getConfiguration)
  {
    if revisions == [] {
    } else {
      var x := revisions[0];
      RevisionsCopiesIff(project, id, revisions[1..], getConfiguration, types, r);
      if IsText(x, "name") && getConfiguration(id, x["name"].text).Some? {
        RevisionCopiesIff(project, x["name"].text, getConfiguration(id, x["name"].text).value, types, r);
      }
      hide RevisionCopies, WithinRevision;
      assert revisions == [x] + revisions[1..];
    }
  }

  /** The record of a project, or one of those of its revisions. */
  predicate WithinProject(r: Record, types: seq<Kind>, project: Fields, getRevisions: GetRevisions,
                          getConfiguration: GetConfiguration) {
    || (Project in types && r == Record(Project, map["project" := Object(project)]))
    || (&& IsText(project, "_id") && getRevisions(project["_id"].text).Some?
        && WithinRevisions(r, types, project, project["_id"].text, getRevisions(project["_id"].text).value,
                           getConfiguration))
  }

  /** A record is listed exactly when it is that of a project, of a revision of one, or of a service or custom
      resource of the default branch of one, and its kind is requested. */
  lemma {:induction false} ListedIff(projects: seq<Fields>, getRevisions: GetRevisions,
                                     getConfiguration: GetConfiguration, types: seq<Kind>, r: Record)
    ensures ProjectsCopies(projects, getRevisions, getConfiguration, types, r) > 0
       <==> exists x: Fields | x in projects :: WithinProject(r, types, x, getRevisions, getConfiguration)
  {
    if projects == [] {
    } else {
      ProjectCopiesIff(projects[0], getRevisions, getConfiguration, types, r);
      ListedIff(projects[1..], getRevisions, getConfiguration, types, r);
      hide ProjectCopies, WithinProject;
      assert projects == [projects[0]] + projects[1..];
    }
  }

  lemma ProjectCopiesIff(project: Fields, getRevisions: GetRevisions, getConfiguration: GetConfiguration,
                         types: seq<Kind>, r: Record)
    ensures ProjectCopies(project, getRevisions, getConfiguration, types, r) > 0
       <==> WithinProject(r, types, project, getRevisions, getConfiguration)
  {
    if IsText(project, "_id") && getRevisions(project["_id"].text).Some? {
      var id := project["_id"].text;
      RevisionsCopiesIff(project, id, getRevisions(id).value, getConfiguration, types, r);
    }
  }
}
