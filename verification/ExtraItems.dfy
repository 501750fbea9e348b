/** What an upsert does with its extras: the labels of the payloads, and what the catalog then holds. */
module ExtraItems {
  import opened Values
  import opened Destination
  import opened Mapper
  import opened Pipeline
  import opened Catalog
  import opened Undo
  import Identifier

  /** The mapping's extra is created and its body renders to a null document. */
  ghost predicate RendersNull(yaml: Yaml, e: ExtraMapping, values: Fields) {
    Wanted(yaml, e, values) == Ok(true) && yaml.toMap(e.body(values).text) == Ok(None)
  }

  /** An upsert that maps emits an extra without a body exactly when some mapping renders a null document. */
  lemma NullSpecIff(yaml: Yaml, extras: seq<ExtraMapping>, values: Fields)
    requires UpsertExtras(yaml, extras, values).Ok?
    ensures var emitted := UpsertExtras(yaml, extras, values).value;
            (exists j | 0 <= j < |emitted| :: emitted[j].spec == None)
            <==> exists i | 0 <= i < |extras| :: RendersNull(yaml, extras[i], values)
  {
    var emitted := UpsertExtras(yaml, extras, values).value;
    hide UpsertExtras;
    if exists j | 0 <= j < |emitted| :: emitted[j].spec == None {
      var j :| 0 <= j < |emitted| && emitted[j].spec == None;
      var i := EachFromMapping(yaml, extras, values, j);
      assert RendersNull(yaml, extras[i], values);
    }
    if exists i | 0 <= i < |extras| :: RendersNull(yaml, extras[i], values) {
      var i :| 0 <= i < |extras| && RendersNull(yaml, extras[i], values);
      var j := EachMappingEmits(yaml, extras, values, i);
      assert emitted[j].spec == None;
    }
  }

  /** Everything a delete asks for is labelled "delete". */
  lemma DeletesAreLabelledDelete(mappers: Mappers, item: Item, i: nat)
    requires item.operation == Delete && i < |Plan(mappers, item)|
    ensures Plan(mappers, item)[i].kind == DeleteData && Plan(mappers, item)[i].data.Label() == DeleteLabel
  {
  }

  function KeyOf(x: ExtraMappedData): Key {
    ItemKey(x.apiVersion, x.itemFamily, x.identifier)
  }

  /** The calls send the item's own record and then the extras. */
  ghost predicate SendsAll(plan: seq<Call>, emitted: seq<ExtraMappedData>) {
    && |plan| == |emitted| + 1
    && plan[0].kind == SendData && plan[0].data.Label() == UpsertLabel
    && forall j | 0 <= j < |emitted| :: SendsExtra(plan[j + 1], emitted[j])
  }

  predicate SendsExtra(call: Call, x: ExtraMappedData) {
    call.kind == SendData && call.data.Key() == KeyOf(x) && call.data.metadata == None && call.data.data == x.spec
  }

  /** What an upsert that maps asks for. */
  lemma PlanOfUpsert(mappers: Mappers, kind: string, values: Fields, t: Timestamp)
    requires kind in mappers && mappers[kind].mapper.Upserted(values).Ok?
    ensures var m := mappers[kind].mapper;
            && UpsertExtras(m.yaml, m.extras, values).Ok?
            && SendsAll(Plan(mappers, Upsertion(kind, values, t)), UpsertExtras(m.yaml, m.extras, values).value)
  {
    hide UpsertExtras;
  }

  lemma LabelsFollowBodies(plan: seq<Call>, emitted: seq<ExtraMappedData>)
    requires SendsAll(plan, emitted)
    ensures forall i | 0 <= i < |plan| :: plan[i].kind == SendData
    ensures (exists i | 0 <= i < |plan| :: plan[i].data.Label() != UpsertLabel)
       <==> exists j | 0 <= j < |emitted| :: emitted[j].spec == None
  {
    forall i | 0 < i < |plan|
      ensures plan[i].kind == SendData
      ensures plan[i].data.Label() != UpsertLabel <==> emitted[i - 1].spec == None
    {
      assert SendsExtra(plan[(i - 1) + 1], emitted[i - 1]);
    }
    if exists j | 0 <= j < |emitted| :: emitted[j].spec == None {
      var j :| 0 <= j < |emitted| && emitted[j].spec == None;
      assert plan[j + 1].data.Label() != UpsertLabel;
    }
  }

  /** The last extra with a key decides whether the key is in the catalog. */
  lemma StoredIffBody(store: Store, plan: seq<Call>, emitted: seq<ExtraMappedData>, j: nat)
    requires SendsAll(plan, emitted) && j < |emitted|
    requires forall k | j < k < |emitted| :: KeyOf(emitted[k]) != KeyOf(emitted[j])
    ensures var after := Delivered(store, plan);
            && (KeyOf(emitted[j]) in after <==> emitted[j].spec != None)
            && (emitted[j].spec != None ==> after[KeyOf(emitted[j])] == Record(None, emitted[j].spec.value))
  {
    forall k | j + 1 < k < |plan|
      ensures plan[k].data.Key() != plan[j + 1].data.Key()
    {
      assert SendsExtra(plan[(k - 1) + 1], emitted[k - 1]);
    }
    LastCallDecides(store, plan, j + 1);
  }

  /** An upsert's own record is labelled "upsert"; some other payload of it is labelled "delete" exactly when a
      mapping renders a null document. */
  lemma UpsertLabelledDeleteIff(mappers: Mappers, kind: string, values: Fields, t: Timestamp)
    requires kind in mappers && mappers[kind].mapper.Upserted(values).Ok?
    ensures var plan := Plan(mappers, Upsertion(kind, values, t));
            var m := mappers[kind].mapper;
            && plan != [] && plan[0].data.Label() == UpsertLabel
            && (forall i | 0 <= i < |plan| :: plan[i].kind == SendData)
            && ((exists i | 0 <= i < |plan| :: plan[i].data.Label() != UpsertLabel)
                <==> exists i | 0 <= i < |m.extras| :: RendersNull(m.yaml, m.extras[i], values))
  {
    var m := mappers[kind].mapper;
    PlanOfUpsert(mappers, kind, values, t);
    hide Plan, UpsertExtras, RendersNull;
    LabelsFollowBodies(Plan(mappers, Upsertion(kind, values, t)), UpsertExtras(m.yaml, m.extras, values).value);
    NullSpecIff(m.yaml, m.extras, values);
  }

  /** No mapping after the i-th one creates an extra with its key. */
  ghost predicate LastWithItsKey(m: InternalMapper, values: Fields, i: nat)
    requires i < |m.extras| && RendersIdentifier(m.extras[i], values)
  {
    forall later | i < later < |m.extras| && Wanted(m.yaml, m.extras[later], values) == Ok(true)
                   && RendersIdentifier(m.extras[later], values) ::
      ExtraKey(m.extras[later], values) != ExtraKey(m.extras[i], values)
  }

  lemma WantedExtraRenders(m: InternalMapper, values: Fields, i: nat)
    requires UpsertExtras(m.yaml, m.extras, values).Ok?
    requires i < |m.extras| && Wanted(m.yaml, m.extras[i], values) == Ok(true)
    ensures RendersIdentifier(m.extras[i], values)
  {
    var j := EachMappingEmits(m.yaml, m.extras, values, i);
  }

  /** What the mapping contributes, and that no later extra has its key. */
  lemma EmittedLastWithItsKey(m: InternalMapper, values: Fields, i: nat) returns (j: nat)
    requires UpsertExtras(m.yaml, m.extras, values).Ok?
    requires i < |m.extras| && Wanted(m.yaml, m.extras[i], values) == Ok(true)
    requires RendersIdentifier(m.extras[i], values) ==> LastWithItsKey(m, values, i)
    ensures var emitted := UpsertExtras(m.yaml, m.extras, values).value;
            && j < |emitted| && UpsertExtra(m.yaml, m.extras[i], values) == Ok(emitted[j])
            && forall k | j < k < |emitted| :: KeyOf(emitted[k]) != KeyOf(emitted[j])
  {
    WantedExtraRenders(m, values, i);
    j := EachMappingEmits(m.yaml, m.extras, values, i);
    var emitted := UpsertExtras(m.yaml, m.extras, values).value;
    hide UpsertExtras, Wanted;
    forall k | j < k < |emitted|
      ensures KeyOf(emitted[k]) != KeyOf(emitted[j])
    {
      assert FromMappingAfter(m.yaml, m.extras, values, i, emitted[k]);
      var later :| i < later < |m.extras| && Wanted(m.yaml, m.extras[later], values) == Ok(true)
                   && UpsertExtra(m.yaml, m.extras[later], values) == Ok(emitted[k]);
      assert ExtraKey(m.extras[later], values) == KeyOf(emitted[k]);
    }
  }

  /** After a delivered upsert the catalog holds an extra that `createIf` lets through exactly when its body
      does not render to a null document; otherwise the extra is gone, whatever was there before. */
  lemma ExtraIsStoredIff(mappers: Mappers, kind: string, values: Fields, t: Timestamp, store: Store, i: nat)
    requires kind in mappers && mappers[kind].mapper.Upserted(values).Ok?
    requires var m := mappers[kind].mapper;
             && i < |m.extras| && Wanted(m.yaml, m.extras[i], values) == Ok(true)
             && (RendersIdentifier(m.extras[i], values) ==> LastWithItsKey(m, values, i))
    ensures RendersIdentifier(mappers[kind].mapper.extras[i], values)
    ensures var m := mappers[kind].mapper;
            var after := Delivered(store, Plan(mappers, Upsertion(kind, values, t)));
            var key := ExtraKey(m.extras[i], values);
            var body := m.yaml.toMap(m.extras[i].body(values).text);
            && (key in after <==> !RendersNull(m.yaml, m.extras[i], values))
            && (key in after ==> body.Ok? && body.value.Some? && after[key] == Record(None, body.value.value))
  {
    var m := mappers[kind].mapper;
    PlanOfUpsert(mappers, kind, values, t);
    var j := EmittedLastWithItsKey(m, values, i);
    hide Plan, UpsertExtras, Delivered, LastWithItsKey, SendsAll;
    StoredIffBody(store, Plan(mappers, Upsertion(kind, values, t)), UpsertExtras(m.yaml, m.extras, values).value, j);
  }

  /** Where no body decodes to a null document, every payload of an upsert is labelled "upsert". */
  lemma UpsertsAreLabelledUpsert(mappers: Mappers, kind: string, values: Fields, t: Timestamp)
    requires kind in mappers && mappers[kind].mapper.Upserted(values).Ok?
    requires var m := mappers[kind].mapper;
             forall i | 0 <= i < |m.extras| :: m.yaml.toMap(m.extras[i].body(values).text) != Ok(None)
    ensures forall call | call in Plan(mappers, Upsertion(kind, values, t)) :: call.data.Label() == UpsertLabel
  {
    hide Plan;
    UpsertLabelledDeleteIff(mappers, kind, values, t);
  }

  /** The body template of an extra with the fields

          n{{ if .keep }}: v
          sourceRef: a
          targetRef: b
          typeRef: c{{ else }}ull{{ end }}

      which is the YAML the fields are marshalled to. A body template begins with the name of its first field, so it
      renders to a null document only where names of fields hold actions that span the rest, as here. A payload
      without `keep` is an error; where it is there, it is taken to be true or false. */
  function KeepBody(values: Fields): Rendering {
    if "keep" !in values then Rendering("n", true)
    else if values["keep"] == Bool(false) then Rendering("null\n", false)
    else Rendering("n: v\nsourceRef: a\ntargetRef: b\ntypeRef: c\n", false)
  }

  const KEPT: Fields :=
    map["n" := Text("v"), "sourceRef" := Text("a"), "targetRef" := Text("b"), "typeRef" := Text("c")]

  /** A mapping with that extra, always created, and no metadata or spec fields. */
  function NullBodyExample(): DataMapper {
    DataMapper("v1", "items", InternalMapper(
      Yaml(text => if text == "---\n" || text == "null\n" then Ok(None) else Ok(Some(KEPT)), text => Ok(true)),
      values => Rendering("item", false),
      values => Rendering("---\n", false),
      values => Rendering("---\n", false),
      [ExtraMapping("v1", "relationships", "cascade", None, values => Rendering("extra", false), KeepBody)]))
  }

  lemma NullBodyExampleMaps(values: Fields)
    requires "keep" in values
    ensures NullBodyExample().mapper.Upserted(values).Ok?
  {
    var m := NullBodyExample().mapper;
    Identifier.AcceptedIffWellFormed("item");
    Identifier.AcceptedIffWellFormed("extra");
    assert UpsertExtras(m.yaml, m.extras, values).Ok? by {
      assert UpsertExtra(m.yaml, m.extras[0], values).Ok?;
      assert UpsertExtras(m.yaml, m.extras[1..], values) == Ok([]);
    }
  }

  /** Its upsert stores the extra for a payload to keep, and deletes it from the catalog for one not to. */
  lemma NullBodyDeletes(keep: bool, t: Timestamp, before: Record)
    ensures var mappers := map["thing" := NullBodyExample()];
            var key := ItemKey("v1", "relationships", "extra");
            var after := Delivered(map[key := before],
                                   Plan(mappers, Upsertion("thing", map["keep" := Bool(keep)], t)));
            if keep then key in after && after[key] == Record(None, KEPT) else key !in after
  {
    var mappers := map["thing" := NullBodyExample()];
    var m := NullBodyExample().mapper;
    var values := map["keep" := Bool(keep)];
    var key := ItemKey("v1", "relationships", "extra");
    Identifier.AcceptedIffWellFormed("extra");
    NullBodyExampleMaps(values);
    assert m.yaml.toMap(m.extras[0].body(values).text) == Ok(if keep then Some(KEPT) else None);
    assert ExtraKey(m.extras[0], values) == key;
    hide KeepBody, Plan, Delivered, UpsertExtras;
    ExtraIsStoredIff(mappers, "thing", values, t, map[key := before], 0);
  }
}
