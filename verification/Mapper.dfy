/** The mapper: templates applied to a payload, on the upsert path and on the delete path. */
module Mapper {
  import opened Values
  import opened Sequences
  import Identifier

  /** What executing a template leaves behind: the text written so far, and whether it failed. */
  datatype Rendering = Rendering(text: string, failed: bool)

  /** A compiled template, a deterministic function of the payload. */
  type Template = Fields -> Rendering

  /** The YAML decoder, as far as the mapper uses it: `None` inside `Ok` is a null document. */
  datatype Yaml = Yaml(
    toMap: string -> Result<Option<Fields>, ()>,
    toBool: string -> Result<bool, ()>)

  datatype ExtraMapping = ExtraMapping(
    apiVersion: string,
    itemFamily: string,
    deletePolicy: string,
    createIf: Option<Template>,
    id: Template,
    body: Template)

  const DELETE_POLICY_NONE := "none"

  datatype MappedData = MappedData(identifier: string, metadata: Fields, spec: Fields)

  /** `spec` is `None` for a nil map. */
  datatype ExtraMappedData = ExtraMappedData(
    apiVersion: string,
    itemFamily: string,
    identifier: string,
    spec: Option<Fields>)

  datatype MapError =
    | InvalidIdentifier(generated: string)
    | TemplateFailed
    | InvalidYaml
    | ParsingExtra(cause: MapError)

  /** What identifies an extra item in the destination. */
  datatype ExtraRef = ExtraRef(apiVersion: string, itemFamily: string, identifier: string)

  function Ref(x: ExtraMappedData): ExtraRef {
    ExtraRef(x.apiVersion, x.itemFamily, x.identifier)
  }

  function Refs(xs: seq<ExtraMappedData>): seq<ExtraRef> {
    if xs == [] then [] else [Ref(xs[0])] + Refs(xs[1..])
  }

  type Extras = Result<seq<ExtraMappedData>, MapError>

  /** Puts already collected items in front of the outcome of the remaining mappings. */
  function Prepend(collected: seq<ExtraMappedData>, rest: Extras): (all: Extras)
    ensures collected == [] ==> all == rest
    ensures rest == Ok([]) ==> all == Ok(collected)
  {
    match rest
    case Ok(xs) =>
      assert [] + xs == xs && collected + [] == collected;
      Ok(collected + xs)
    case Err(e) => Err(e)
  }

  lemma PrependMore(collected: seq<ExtraMappedData>, more: seq<ExtraMappedData>, rest: Extras)
    ensures Prepend(collected, Prepend(more, rest)) == Prepend(collected + more, rest)
  {
    if rest.Ok? {
      assert collected + (more + rest.value) == collected + more + rest.value;
    }
  }

  /** The text is validated before the execution error is looked at, so a failing template whose
      partial output is not an identifier is reported as an invalid identifier. */
  function ExecuteIdentifierTemplate(template: Template, values: Fields): Result<string, MapError> {
    var rendering := template(values);
    if !Identifier.Accepted(rendering.text) then Err(InvalidIdentifier(rendering.text))
    else if rendering.failed then Err(TemplateFailed)
    else Ok(rendering.text)
  }

  /** A null document leaves the freshly made map empty: the result is never nil. */
  function ExecuteTemplatesMap(yaml: Yaml, template: Template, values: Fields): Result<Fields, MapError> {
    var rendering := template(values);
    if rendering.failed then Err(TemplateFailed)
    else
      match yaml.toMap(rendering.text)
      case Err(_) => Err(InvalidYaml)
      case Ok(None) => Ok(map[])
      case Ok(Some(fields)) => Ok(fields)
  }

  function ExecuteCreateIf(yaml: Yaml, template: Template, values: Fields): Result<bool, MapError> {
    var rendering := template(values);
    if rendering.failed then Err(ParsingExtra(TemplateFailed))
    else
      match yaml.toBool(rendering.text)
      case Err(_) => Err(ParsingExtra(InvalidYaml))
      case Ok(b) => Ok(b)
  }

  /** Whether the mapping's `createIf` lets the extra be created. */
  function Wanted(yaml: Yaml, e: ExtraMapping, values: Fields): Result<bool, MapError> {
    match e.createIf
    case None => Ok(true)
    case Some(template) => ExecuteCreateIf(yaml, template, values)
  }

  /** One wanted extra on the upsert path. */
  function UpsertExtra(yaml: Yaml, e: ExtraMapping, values: Fields): Result<ExtraMappedData, MapError> {
    match ExecuteIdentifierTemplate(e.id, values)
    case Err(error) => Err(ParsingExtra(error))
    case Ok(identifier) =>
      var body := e.body(values);
      if body.failed then Err(ParsingExtra(TemplateFailed))
      else
        match yaml.toMap(body.text)
        case Err(_) => Err(ParsingExtra(InvalidYaml))
        case Ok(spec) => Ok(ExtraMappedData(e.apiVersion, e.itemFamily, identifier, spec))
  }

  /** The extras of an upsert: those `createIf` lets through; the first failure fails them all. */
  function UpsertExtras(yaml: Yaml, extras: seq<ExtraMapping>, values: Fields): Extras {
    if extras == [] then Ok([])
    else
      match Wanted(yaml, extras[0], values)
      case Err(error) => Err(error)
      case Ok(false) => UpsertExtras(yaml, extras[1..], values)
      case Ok(true) =>
        match UpsertExtra(yaml, extras[0], values)
        case Err(error) => Err(error)
        case Ok(x) => Prepend([x], UpsertExtras(yaml, extras[1..], values))
  }

  /** The extras of a delete: those whose policy is not "none", whatever `createIf` says. */
  function DeleteExtras(extras: seq<ExtraMapping>, values: Fields): Extras {
    if extras == [] then Ok([])
    else if extras[0].deletePolicy == DELETE_POLICY_NONE then DeleteExtras(extras[1..], values)
    else
      match ExecuteIdentifierTemplate(extras[0].id, values)
      case Err(error) => Err(error)
      case Ok(identifier) =>
        Prepend([ExtraMappedData(extras[0].apiVersion, extras[0].itemFamily, identifier, None)],
                DeleteExtras(extras[1..], values))
  }

  method ExecuteExtraMappings(yaml: Yaml, extras: seq<ExtraMapping>, values: Fields) returns (r: Extras)
    ensures r == UpsertExtras(yaml, extras, values)
  {
    var output: seq<ExtraMappedData> := [];
    assert extras[0..] == extras;
    for i := 0 to |extras|
      invariant UpsertExtras(yaml, extras, values) == Prepend(output, UpsertExtras(yaml, extras[i..], values))
    {
      assert extras[i..][1..] == extras[i + 1..];
      var e := extras[i];
      if e.createIf.Some? {
        var createIf := ExecuteCreateIf(yaml, e.createIf.value, values);
        if createIf.Err? {
          return Err(createIf.error);
        }
        if !createIf.value {
          continue;
        }
      }
      var identifier := ExecuteIdentifierTemplate(e.id, values);
      if identifier.Err? {
        return Err(ParsingExtra(identifier.error));
      }
      var body := e.body(values);
      if body.failed {
        return Err(ParsingExtra(TemplateFailed));
      }
      var spec := yaml.toMap(body.text);
      if spec.Err? {
        return Err(ParsingExtra(InvalidYaml));
      }
      var item := ExtraMappedData(e.apiVersion, e.itemFamily, identifier.value, spec.value);
      PrependMore(output, [item], UpsertExtras(yaml, extras[i + 1..], values));
      output := output + [item];
    }
    r := Ok(output);
  }

  datatype InternalMapper = InternalMapper(
    yaml: Yaml,
    id: Template,
    metadata: Template,
    spec: Template,
    extras: seq<ExtraMapping>)
  {
    /** What an upsert maps to. */
    function Upserted(values: Fields): Result<(MappedData, seq<ExtraMappedData>), MapError> {
      match ExecuteIdentifierTemplate(id, values)
      case Err(e) => Err(e)
      case Ok(identifier) =>
        match ExecuteTemplatesMap(yaml, metadata, values)
        case Err(e) => Err(e)
        case Ok(metadataData) =>
          match ExecuteTemplatesMap(yaml, spec, values)
          case Err(e) => Err(e)
          case Ok(specData) =>
            match UpsertExtras(yaml, extras, values)
            case Err(e) => Err(e)
            case Ok(extraData) => Ok((MappedData(identifier, metadataData, specData), extraData))
    }

    /** What a delete maps to. */
    function Deleted(values: Fields): Result<(string, seq<ExtraMappedData>), MapError> {
      match ExecuteIdentifierTemplate(id, values)
      case Err(e) => Err(e)
      case Ok(identifier) =>
        match DeleteExtras(extras, values)
        case Err(e) => Err(e)
        case Ok(extraData) => Ok((identifier, extraData))
    }

    method ApplyTemplates(values: Fields) returns (r: Result<(MappedData, seq<ExtraMappedData>), MapError>)
      ensures r == Upserted(values)
    {
      var identifier := ExecuteIdentifierTemplate(id, values);
      if identifier.Err? {
        return Err(identifier.error);
      }
      var metadataData := ExecuteTemplatesMap(yaml, metadata, values);
      if metadataData.Err? {
        return Err(metadataData.error);
      }
      var specData := ExecuteTemplatesMap(yaml, spec, values);
      if specData.Err? {
        return Err(specData.error);
      }
      var extraData := ExecuteExtraMappings(yaml, extras, values);
      if extraData.Err? {
        return Err(extraData.error);
      }
      r := Ok((MappedData(identifier.value, metadataData.value, specData.value), extraData.value));
    }

    method ApplyIdentifierTemplate(values: Fields) returns (r: Result<(string, seq<ExtraMappedData>), MapError>)
      ensures r == Deleted(values)
    {
      var identifier := ExecuteIdentifierTemplate(id, values);
      if identifier.Err? {
        return Err(identifier.error);
      }
      if |extras| == 0 {
        return Ok((identifier.value, []));
      }
      var output: seq<ExtraMappedData> := [];
      assert extras[0..] == extras;
      for i := 0 to |extras|
        invariant DeleteExtras(extras, values) == Prepend(output, DeleteExtras(extras[i..], values))
      {
        assert extras[i..][1..] == extras[i + 1..];
        var e := extras[i];
        if e.deletePolicy == DELETE_POLICY_NONE {
          continue;
        }
        var extraIdentifier := ExecuteIdentifierTemplate(e.id, values);
        if extraIdentifier.Err? {
          return Err(extraIdentifier.error);
        }
        var item := ExtraMappedData(e.apiVersion, e.itemFamily, extraIdentifier.value, None);
        PrependMore(output, [item], DeleteExtras(extras[i + 1..], values));
        output := output + [item];
      }
      r := Ok((identifier.value, output));
    }
  }

  /** What a mapping contributes to an upsert that maps. */
  function Contribution(yaml: Yaml, e: ExtraMapping, values: Fields): seq<ExtraMappedData> {
    if Wanted(yaml, e, values) == Ok(true) && UpsertExtra(yaml, e, values).Ok?
    then [UpsertExtra(yaml, e, values).value] else []
  }

  lemma FirstMapping(yaml: Yaml, extras: seq<ExtraMapping>, values: Fields)
    requires extras != [] && UpsertExtras(yaml, extras, values).Ok?
    ensures UpsertExtras(yaml, extras[1..], values).Ok?
    ensures UpsertExtras(yaml, extras, values).value
         == Contribution(yaml, extras[0], values) + UpsertExtras(yaml, extras[1..], values).value
    ensures Wanted(yaml, extras[0], values) == Ok(true) ==> UpsertExtra(yaml, extras[0], values).Ok?
  {
  }

  /** Every extra of an upsert comes from a mapping that `createIf` lets through. */
  lemma {:induction false} EachFromMapping(yaml: Yaml, extras: seq<ExtraMapping>, values: Fields, k: nat)
    returns (i: nat)
    requires UpsertExtras(yaml, extras, values).Ok? && k < |UpsertExtras(yaml, extras, values).value|
    ensures i < |extras| && Wanted(yaml, extras[i], values) == Ok(true)
    ensures UpsertExtra(yaml, extras[i], values) == Ok(UpsertExtras(yaml, extras, values).value[k])
  {
    assert extras != [];
    FirstMapping(yaml, extras, values);
    hide UpsertExtras, UpsertExtra, Wanted;
    var first := Contribution(yaml, extras[0], values);
    if k < |first| {
      i := 0;
    } else {
      var inRest := EachFromMapping(yaml, extras[1..], values, k - |first|);
      i := inRest + 1;
    }
  }

  /** The extra comes from a mapping after the i-th one. */
  ghost predicate FromMappingAfter(yaml: Yaml, extras: seq<ExtraMapping>, values: Fields, i: int, x: ExtraMappedData) {
    exists later | i < later < |extras| && 0 <= later && Wanted(yaml, extras[later], values) == Ok(true) ::
      UpsertExtra(yaml, extras[later], values) == Ok(x)
  }

  lemma FromMappingOfRest(yaml: Yaml, extras: seq<ExtraMapping>, values: Fields, i: nat, x: ExtraMappedData)
    requires extras != [] && FromMappingAfter(yaml, extras[1..], values, i - 1, x)
    ensures FromMappingAfter(yaml, extras, values, i, x)
  {
    var later :| i - 1 < later < |extras[1..]| && 0 <= later && Wanted(yaml, extras[1..][later], values) == Ok(true)
                 && UpsertExtra(yaml, extras[1..][later], values) == Ok(x);
    assert extras[1..][later] == extras[later + 1];
  }

  /** All extras from the j-th on come from mappings after the i-th one. */
  ghost predicate RestIsLater(yaml: Yaml, extras: seq<ExtraMapping>, values: Fields, i: int,
                              emitted: seq<ExtraMappedData>, j: nat) {
    forall k | j <= k < |emitted| :: FromMappingAfter(yaml, extras, values, i, emitted[k])
  }

  lemma AllIsLater(yaml: Yaml, extras: seq<ExtraMapping>, values: Fields)
    requires UpsertExtras(yaml, extras, values).Ok?
    ensures RestIsLater(yaml, extras, values, -1, UpsertExtras(yaml, extras, values).value, 0)
  {
    forall k | 0 <= k < |UpsertExtras(yaml, extras, values).value|
      ensures FromMappingAfter(yaml, extras, values, -1, UpsertExtras(yaml, extras, values).value[k])
    {
      var i := EachFromMapping(yaml, extras, values, k);
    }
  }

  lemma LaterOneMappingUp(yaml: Yaml, extras: seq<ExtraMapping>, values: Fields, i: nat,
                          first: seq<ExtraMappedData>, rest: seq<ExtraMappedData>, j: nat)
    requires extras != [] && RestIsLater(yaml, extras[1..], values, i - 1, rest, j)
    ensures RestIsLater(yaml, extras, values, i, first + rest, |first| + j)
  {
    hide FromMappingAfter;
    forall k | |first| + j <= k < |first + rest|
      ensures FromMappingAfter(yaml, extras, values, i, (first + rest)[k])
    {
      assert (first + rest)[k] == rest[k - |first|];
      FromMappingOfRest(yaml, extras, values, i, rest[k - |first|]);
    }
  }

  /** And every such mapping contributes its extra, before those of the mappings after it. */
  lemma {:induction false} EachMappingEmits(yaml: Yaml, extras: seq<ExtraMapping>, values: Fields, i: nat)
    returns (j: nat)
    requires UpsertExtras(yaml, extras, values).Ok?
    requires i < |extras| && Wanted(yaml, extras[i], values) == Ok(true)
    ensures var emitted := UpsertExtras(yaml, extras, values).value;
            && j < |emitted| && UpsertExtra(yaml, extras[i], values) == Ok(emitted[j])
            && RestIsLater(yaml, extras, values, i, emitted, j + 1)
  {
    FirstMapping(yaml, extras, values);
    hide UpsertExtras, UpsertExtra, Wanted, RestIsLater;
    var rest := UpsertExtras(yaml, extras[1..], values).value;
    var first := Contribution(yaml, extras[0], values);
    if i == 0 {
      j := 0;
      AllIsLater(yaml, extras[1..], values);
      LaterOneMappingUp(yaml, extras, values, 0, first, rest, 0);
    } else {
      var inRest := EachMappingEmits(yaml, extras[1..], values, i - 1);
      LaterOneMappingUp(yaml, extras, values, i, first, rest, inRest + 1);
      j := |first| + inRest;
    }
  }

  /** The mappings whose extras go away with the item. */
  function Cascading(extras: seq<ExtraMapping>): seq<ExtraMapping> {
    if extras == [] then []
    else if extras[0].deletePolicy == DELETE_POLICY_NONE then Cascading(extras[1..])
    else [extras[0]] + Cascading(extras[1..])
  }

  ghost predicate RendersIdentifier(e: ExtraMapping, values: Fields) {
    ExecuteIdentifierTemplate(e.id, values).Ok?
  }

  /** The mapping's extra is left out of the upsert but not out of the delete. */
  ghost predicate OnlyDeleted(yaml: Yaml, e: ExtraMapping, values: Fields) {
    e.deletePolicy != DELETE_POLICY_NONE && Wanted(yaml, e, values) == Ok(false)
  }

  /** After a successful upsert of the same payload, the delete path fails exactly when some cascading
      extra that `createIf` kept out of the upsert has an identifier that does not render. */
  lemma {:induction false} DeleteExtrasSucceed(yaml: Yaml, extras: seq<ExtraMapping>, values: Fields)
    requires UpsertExtras(yaml, extras, values).Ok?
    ensures DeleteExtras(extras, values).Ok?
       <==> forall i | 0 <= i < |extras| && OnlyDeleted(yaml, extras[i], values) :: RendersIdentifier(extras[i], values)
  {
    if extras == [] {
    } else {
      var e, rest := extras[0], extras[1..];
      DeleteExtrasSucceed(yaml, rest, values);
      assert forall i | 0 <= i < |rest| :: rest[i] == extras[i + 1];
      assert forall i | 1 <= i < |extras| :: extras[i] == rest[i - 1];
      assert Wanted(yaml, e, values) == Ok(true) ==> RendersIdentifier(e, values);
    }
  }

  /** The cascading extras an upsert emits are among all it emits, and their identities are found,
      in the same order, among those a delete of the same payload names. */
  lemma {:induction false} CascadingExtrasAreDeleted(yaml: Yaml, extras: seq<ExtraMapping>, values: Fields)
    requires UpsertExtras(yaml, extras, values).Ok? && DeleteExtras(extras, values).Ok?
    ensures var cascading := UpsertExtras(yaml, Cascading(extras), values);
            && cascading.Ok?
            && Subsequence(cascading.value, UpsertExtras(yaml, extras, values).value)
            && Subsequence(Refs(cascading.value), Refs(DeleteExtras(extras, values).value))
  {
    if extras == [] {
    } else {
      var e, rest := extras[0], extras[1..];
      CascadingExtrasAreDeleted(yaml, rest, values);
      var cascading := UpsertExtras(yaml, Cascading(rest), values).value;
      var emitted := UpsertExtras(yaml, rest, values).value;
      var deleted := DeleteExtras(rest, values).value;
      assert ([e] + Cascading(rest))[1..] == Cascading(rest);
      if Wanted(yaml, e, values).value {
        var x := UpsertExtra(yaml, e, values).value;
        SubsequenceSkip(cascading, emitted, x);
        SubsequenceKeep(cascading, emitted, x);
        SubsequenceKeep(Refs(cascading), Refs(deleted), Ref(x));
      }
      if e.deletePolicy != DELETE_POLICY_NONE {
        var y := DeleteExtras(extras, values).value[0];
        assert DeleteExtras(extras, values).value[1..] == deleted;
        SubsequenceSkip(Refs(cascading), Refs(deleted), Ref(y));
      }
    }
  }
}
