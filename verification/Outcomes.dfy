/** What an upsert and a delete map to, told from what the templates render alone. */
module Outcomes {
  import opened Values
  import opened Mapper
  import Identifier

  /** The template renders to a valid identifier. */
  predicate RendersId(template: Template, values: Fields, id: string) {
    template(values) == Rendering(id, false) && Identifier.WellFormed(id)
  }

  /** The template renders to a document with these fields; a null document has none. */
  predicate RendersFields(yaml: Yaml, template: Template, values: Fields, fields: Fields) {
    && !template(values).failed
    && (yaml.toMap(template(values).text) == Ok(Some(fields))
        || (yaml.toMap(template(values).text) == Ok(None) && fields == map[]))
  }

  /** `createIf`, if there is one, renders to this answer. */
  predicate AnswersCreateIf(yaml: Yaml, e: ExtraMapping, values: Fields, answer: bool) {
    match e.createIf
    case None => answer
    case Some(template) => !template(values).failed && yaml.toBool(template(values).text) == Ok(answer)
  }

  predicate Created(yaml: Yaml, e: ExtraMapping, values: Fields) {
    AnswersCreateIf(yaml, e, values, true)
  }

  predicate Cascades(e: ExtraMapping) {
    e.deletePolicy != "none"
  }

  /** The extra is what the mapping renders. */
  predicate IsExtra(yaml: Yaml, e: ExtraMapping, values: Fields, x: ExtraMappedData) {
    && x.apiVersion == e.apiVersion && x.itemFamily == e.itemFamily
    && RendersId(e.id, values, x.identifier)
    && !e.body(values).failed && yaml.toMap(e.body(values).text) == Ok(x.spec)
  }

  /** The extra names what the mapping's identifier template renders, without a body. */
  predicate IsNamed(e: ExtraMapping, values: Fields, x: ExtraMappedData) {
    && x.apiVersion == e.apiVersion && x.itemFamily == e.itemFamily
    && RendersId(e.id, values, x.identifier)
    && x.spec == None
  }

  /** The mappings that are kept, in order. */
  function Kept(extras: seq<ExtraMapping>, keep: ExtraMapping -> bool): seq<ExtraMapping> {
    if extras == [] then []
    else (if keep(extras[0]) then [extras[0]] else []) + Kept(extras[1..], keep)
  }

  function CreatedBy(yaml: Yaml, values: Fields): ExtraMapping -> bool {
    e => Created(yaml, e, values)
  }

  const DELETED: ExtraMapping -> bool := e => Cascades(e)

  lemma {:induction false} KeptMembers(extras: seq<ExtraMapping>, keep: ExtraMapping -> bool, e: ExtraMapping)
    ensures e in Kept(extras, keep) <==> e in extras && keep(e)
  {
    if extras == [] {
    } else {
      KeptMembers(extras[1..], keep, e);
      assert extras == [extras[0]] + extras[1..];
    }
  }

  /** The extras are those of the mappings that `createIf` lets through, all of them, in order. */
  ghost predicate AreCreated(yaml: Yaml, extras: seq<ExtraMapping>, values: Fields, emitted: seq<ExtraMappedData>) {
    AreExtras(yaml, Kept(extras, CreatedBy(yaml, values)), values, emitted)
  }

  ghost predicate AreExtras(yaml: Yaml, kept: seq<ExtraMapping>, values: Fields, emitted: seq<ExtraMappedData>) {
    |kept| == |emitted| && forall k | 0 <= k < |kept| :: IsExtra(yaml, kept[k], values, emitted[k])
  }

  lemma AreExtrasAppend(yaml: Yaml, values: Fields, ks: seq<ExtraMapping>, xs: seq<ExtraMappedData>,
                        ls: seq<ExtraMapping>, ys: seq<ExtraMappedData>)
    requires AreExtras(yaml, ks, values, xs) && AreExtras(yaml, ls, values, ys)
    ensures AreExtras(yaml, ks + ls, values, xs + ys)
  {
    hide IsExtra;
  }

  /** The extras named are those of the mappings whose policy is not "none", all of them, in order. */
  ghost predicate AreNamed(extras: seq<ExtraMapping>, values: Fields, named: seq<ExtraMappedData>) {
    var kept := Kept(extras, DELETED);
    |kept| == |named| && forall k | 0 <= k < |kept| :: IsNamed(kept[k], values, named[k])
  }

  // ---- The pieces ----

  /** The text is judged first: an invalid identifier is reported even when the template fails. */
  lemma IdentifierRenders(template: Template, values: Fields)
    ensures var r := template(values);
            ExecuteIdentifierTemplate(template, values)
            == if !Identifier.WellFormed(r.text) then Err(InvalidIdentifier(r.text))
               else if r.failed then Err(TemplateFailed)
               else Ok(r.text)
  {
    Identifier.AcceptedIffWellFormed(template(values).text);
  }

  lemma FieldsRender(yaml: Yaml, template: Template, values: Fields, fields: Fields)
    ensures ExecuteTemplatesMap(yaml, template, values) == Ok(fields) <==> RendersFields(yaml, template, values, fields)
  {
  }

  lemma DocumentRenders(yaml: Yaml, template: Template, values: Fields)
    ensures ExecuteTemplatesMap(yaml, template, values).Ok?
       <==> exists fields :: RendersFields(yaml, template, values, fields)
    ensures ExecuteTemplatesMap(yaml, template, values).Err? ==>
              ExecuteTemplatesMap(yaml, template, values).error
              == if template(values).failed then TemplateFailed else InvalidYaml
  {
    var r := ExecuteTemplatesMap(yaml, template, values);
    if r.Ok? {
      FieldsRender(yaml, template, values, r.value);
    }
  }

  lemma CreateIfAnswers(yaml: Yaml, e: ExtraMapping, values: Fields, answer: bool)
    ensures Wanted(yaml, e, values) == Ok(answer) <==> AnswersCreateIf(yaml, e, values, answer)
  {
  }

  lemma ExtraRenders(yaml: Yaml, e: ExtraMapping, values: Fields, x: ExtraMappedData)
    ensures UpsertExtra(yaml, e, values) == Ok(x) <==> IsExtra(yaml, e, values, x)
  {
    IdentifierRenders(e.id, values);
    hide ExecuteIdentifierTemplate;
  }

  // ---- The extras of an upsert ----

  /** The mapping does not make the upsert fail. */
  ghost predicate UpsertsWell(yaml: Yaml, e: ExtraMapping, values: Fields) {
    || AnswersCreateIf(yaml, e, values, false)
    || (Created(yaml, e, values) && exists x :: IsExtra(yaml, e, values, x))
  }

  lemma {:induction false} UpsertExtrasIff(yaml: Yaml, extras: seq<ExtraMapping>, values: Fields)
    ensures UpsertExtras(yaml, extras, values).Ok?
       <==> forall i | 0 <= i < |extras| :: UpsertsWell(yaml, extras[i], values)
  {
    if extras == [] {
    } else {
      UpsertExtrasIff(yaml, extras[1..], values);
      var e := extras[0];
      CreateIfAnswers(yaml, e, values, true);
      CreateIfAnswers(yaml, e, values, false);
      forall x {
        ExtraRenders(yaml, e, values, x);
      }
      assert UpsertsWell(yaml, e, values) <==>
          Wanted(yaml, e, values) == Ok(false)
          || (Wanted(yaml, e, values) == Ok(true) && UpsertExtra(yaml, e, values).Ok?);
      hide UpsertsWell, Wanted, UpsertExtra;
      assert forall i | 1 <= i < |extras| :: extras[i] == extras[1..][i - 1];
    }
  }

  lemma {:induction false} CreatedExtras(yaml: Yaml, extras: seq<ExtraMapping>, values: Fields)
    requires UpsertExtras(yaml, extras, values).Ok?
    ensures AreCreated(yaml, extras, values, UpsertExtras(yaml, extras, values).value)
  {
    if extras == [] {
    } else {
      var e := extras[0];
      FirstMapping(yaml, extras, values);
      CreatedExtras(yaml, extras[1..], values);
      CreateIfAnswers(yaml, e, values, true);
      var first := Contribution(yaml, e, values);
      var kept := if Created(yaml, e, values) then [e] else [];
      assert AreExtras(yaml, kept, values, first) by {
        if Created(yaml, e, values) {
          ExtraRenders(yaml, e, values, first[0]);
        }
        hide IsExtra;
      }
      hide UpsertExtras, UpsertExtra, Wanted, AreExtras, Created, Contribution;
      AreExtrasAppend(yaml, values, kept, first, Kept(extras[1..], CreatedBy(yaml, values)),
                      UpsertExtras(yaml, extras[1..], values).value);
    }
  }

  // ---- The extras of a delete ----

  lemma {:induction false} NamedExtras(extras: seq<ExtraMapping>, values: Fields)
    requires DeleteExtras(extras, values).Ok?
    ensures AreNamed(extras, values, DeleteExtras(extras, values).value)
  {
    if extras == [] {
    } else {
      var e := extras[0];
      NamedExtras(extras[1..], values);
      IdentifierRenders(e.id, values);
      var named, others := DeleteExtras(extras, values).value, DeleteExtras(extras[1..], values).value;
      assert named == (if Cascades(e) then [named[0]] else []) + others;
      assert Cascades(e) ==> IsNamed(e, values, named[0]);
      hide DeleteExtras, IsNamed, Cascades;
    }
  }

  lemma {:induction false} DeleteExtrasIff(extras: seq<ExtraMapping>, values: Fields)
    ensures DeleteExtras(extras, values).Ok?
       <==> forall i | 0 <= i < |extras| && Cascades(extras[i]) :: exists id :: RendersId(extras[i].id, values, id)
  {
    if extras == [] {
    } else {
      DeleteExtrasIff(extras[1..], values);
      var e := extras[0];
      IdentifierRenders(e.id, values);
      assert ExecuteIdentifierTemplate(e.id, values).Ok? <==> exists id :: RendersId(e.id, values, id) by {
        if ExecuteIdentifierTemplate(e.id, values).Ok? {
          assert RendersId(e.id, values, ExecuteIdentifierTemplate(e.id, values).value);
        }
      }
      hide RendersId, ExecuteIdentifierTemplate;
      assert forall i | 1 <= i < |extras| :: extras[i] == extras[1..][i - 1];
    }
  }

  // ---- The mapper ----

  /** An upsert maps exactly when every template it executes renders well. */
  lemma UpsertMapsIff(m: InternalMapper, values: Fields)
    ensures m.Upserted(values).Ok?
       <==> && (exists id :: RendersId(m.id, values, id))
            && (exists fields :: RendersFields(m.yaml, m.metadata, values, fields))
            && (exists fields :: RendersFields(m.yaml, m.spec, values, fields))
            && forall i | 0 <= i < |m.extras| :: UpsertsWell(m.yaml, m.extras[i], values)
  {
    IdentifierRenders(m.id, values);
    DocumentRenders(m.yaml, m.metadata, values);
    DocumentRenders(m.yaml, m.spec, values);
    UpsertExtrasIff(m.yaml, m.extras, values);
    hide UpsertExtras, ExecuteTemplatesMap, ExecuteIdentifierTemplate, UpsertsWell, RendersFields;
    if m.Upserted(values).Ok? {
      assert RendersId(m.id, values, m.id(values).text);
    }
  }

  /** What it maps to: the identifier, the metadata, the spec, and the extras. */
  lemma UpsertMapsTo(m: InternalMapper, values: Fields)
    requires m.Upserted(values).Ok?
    ensures var (main, emitted) := m.Upserted(values).value;
            && RendersId(m.id, values, main.identifier)
            && RendersFields(m.yaml, m.metadata, values, main.metadata)
            && RendersFields(m.yaml, m.spec, values, main.spec)
            && AreCreated(m.yaml, m.extras, values, emitted)
  {
    var (main, emitted) := m.Upserted(values).value;
    IdentifierRenders(m.id, values);
    FieldsRender(m.yaml, m.metadata, values, main.metadata);
    FieldsRender(m.yaml, m.spec, values, main.spec);
    CreatedExtras(m.yaml, m.extras, values);
  }

  /** A delete maps exactly when the identifiers it needs render. */
  lemma DeleteMapsIff(m: InternalMapper, values: Fields)
    ensures m.Deleted(values).Ok?
       <==> && (exists id :: RendersId(m.id, values, id))
            && forall i | 0 <= i < |m.extras| && Cascades(m.extras[i]) ::
                 exists id :: RendersId(m.extras[i].id, values, id)
  {
    IdentifierRenders(m.id, values);
    DeleteExtrasIff(m.extras, values);
    if m.Deleted(values).Ok? {
      assert RendersId(m.id, values, m.id(values).text);
    }
  }

  /** What it maps to: the identifier and the extras whose policy is not "none", without bodies. */
  lemma DeleteMapsTo(m: InternalMapper, values: Fields)
    requires m.Deleted(values).Ok?
    ensures var (identifier, named) := m.Deleted(values).value;
            RendersId(m.id, values, identifier) && AreNamed(m.extras, values, named)
  {
    IdentifierRenders(m.id, values);
    NamedExtras(m.extras, values);
  }

  /** The first failure is reported: the identifier, then the metadata, then the spec, then the extras. */
  lemma FirstFailure(m: InternalMapper, values: Fields)
    requires m.Upserted(values).Err?
    ensures var error := m.Upserted(values).error;
            if !exists id :: RendersId(m.id, values, id) then
              error == if !Identifier.WellFormed(m.id(values).text) then InvalidIdentifier(m.id(values).text)
                       else TemplateFailed
            else if !exists fields :: RendersFields(m.yaml, m.metadata, values, fields) then
              error == if m.metadata(values).failed then TemplateFailed else InvalidYaml
            else if !exists fields :: RendersFields(m.yaml, m.spec, values, fields) then
              error == if m.spec(values).failed then TemplateFailed else InvalidYaml
            else Err(error) == UpsertExtras(m.yaml, m.extras, values)
  {
    IdentifierRenders(m.id, values);
    DocumentRenders(m.yaml, m.metadata, values);
    DocumentRenders(m.yaml, m.spec, values);
    hide UpsertExtras, RendersFields, ExecuteTemplatesMap;
    if ExecuteIdentifierTemplate(m.id, values).Ok? {
      assert RendersId(m.id, values, m.id(values).text);
    }
  }

  /** What is wrong with an identifier: the text comes before the execution. */
  predicate IdProblem(template: Template, values: Fields, error: MapError) {
    if !Identifier.WellFormed(template(values).text) then error == InvalidIdentifier(template(values).text)
    else template(values).failed && error == TemplateFailed
  }

  /** What is wrong with a mapping on the upsert path: its `createIf`, then its identifier, then its body. */
  ghost predicate ExtraProblem(yaml: Yaml, e: ExtraMapping, values: Fields, error: MapError) {
    if e.createIf.Some? && !AnswersCreateIf(yaml, e, values, true) then
      error == ParsingExtra(if e.createIf.value(values).failed then TemplateFailed else InvalidYaml)
    else if !exists id :: RendersId(e.id, values, id) then
      error.ParsingExtra? && IdProblem(e.id, values, error.cause)
    else error == ParsingExtra(if e.body(values).failed then TemplateFailed else InvalidYaml)
  }

  lemma MappingProblem(yaml: Yaml, e: ExtraMapping, values: Fields)
    requires !UpsertsWell(yaml, e, values)
    ensures match Wanted(yaml, e, values)
            case Err(error) => ExtraProblem(yaml, e, values, error)
            case Ok(wanted) =>
              && wanted && UpsertExtra(yaml, e, values).Err?
              && ExtraProblem(yaml, e, values, UpsertExtra(yaml, e, values).error)
  {
    CreateIfAnswers(yaml, e, values, true);
    CreateIfAnswers(yaml, e, values, false);
    IdentifierRenders(e.id, values);
    var r := UpsertExtra(yaml, e, values);
    assert RendersId(e.id, values, e.id(values).text) <==> ExecuteIdentifierTemplate(e.id, values).Ok?;
    if r.Ok? {
      ExtraRenders(yaml, e, values, r.value);
    }
    hide ExecuteIdentifierTemplate;
  }

  lemma NoProblem(yaml: Yaml, e: ExtraMapping, values: Fields)
    requires UpsertsWell(yaml, e, values)
    ensures Wanted(yaml, e, values).Ok?
    ensures Wanted(yaml, e, values).value ==> UpsertExtra(yaml, e, values).Ok?
  {
    CreateIfAnswers(yaml, e, values, true);
    CreateIfAnswers(yaml, e, values, false);
    if !AnswersCreateIf(yaml, e, values, false) {
      var x :| IsExtra(yaml, e, values, x);
      ExtraRenders(yaml, e, values, x);
    }
  }

  /** Among the extras of an upsert the first that does not render decides. */
  lemma {:induction false} FirstExtraFailure(yaml: Yaml, extras: seq<ExtraMapping>, values: Fields, f: nat)
    requires f < |extras| && !UpsertsWell(yaml, extras[f], values)
    requires forall i | 0 <= i < f :: UpsertsWell(yaml, extras[i], values)
    ensures var r := UpsertExtras(yaml, extras, values);
            r.Err? && ExtraProblem(yaml, extras[f], values, r.error)
  {
    if f == 0 {
      MappingProblem(yaml, extras[0], values);
      hide ExtraProblem, Wanted, UpsertExtra;
    } else {
      NoProblem(yaml, extras[0], values);
      FirstExtraFailure(yaml, extras[1..], values, f - 1);
      hide ExtraProblem, Wanted, UpsertExtra;
    }
  }

  /** Among those of a delete, the first whose policy is not "none" and whose identifier does not render. */
  lemma {:induction false} FirstDeleteFailure(extras: seq<ExtraMapping>, values: Fields, f: nat)
    requires f < |extras| && Cascades(extras[f]) && !exists id :: RendersId(extras[f].id, values, id)
    requires forall i | 0 <= i < f && Cascades(extras[i]) :: exists id :: RendersId(extras[i].id, values, id)
    ensures var r := DeleteExtras(extras, values);
            r.Err? && IdProblem(extras[f].id, values, r.error)
  {
    IdentifierRenders(extras[0].id, values);
    if f == 0 {
      assert !RendersId(extras[0].id, values, extras[0].id(values).text);
    } else {
      FirstDeleteFailure(extras[1..], values, f - 1);
    }
  }
}
