/** What an item asks of the destination, told from what its templates render alone. */
module PlanContents {
  import opened Values
  import opened Destination
  import opened Mapper
  import opened Outcomes
  import opened Pipeline

  /** The call sends the item's own record. */
  predicate SendsItem(m: DataMapper, item: Item, call: Call) {
    && call.kind == SendData
    && call.data.apiVersion == m.apiVersion && call.data.itemFamily == m.itemFamily
    && RendersId(m.mapper.id, item.values, call.data.name)
    && call.data.metadata.Some?
    && RendersFields(m.mapper.yaml, m.mapper.metadata, item.values, call.data.metadata.value)
    && call.data.data.Some?
    && RendersFields(m.mapper.yaml, m.mapper.spec, item.values, call.data.data.value)
    && call.data.operationTime == item.time
  }

  /** The call sends the extra of a mapping. */
  predicate SendsExtraOf(m: DataMapper, item: Item, e: ExtraMapping, call: Call) {
    && call.kind == SendData
    && call.data.apiVersion == e.apiVersion && call.data.itemFamily == e.itemFamily
    && RendersId(e.id, item.values, call.data.name)
    && call.data.metadata == None
    && m.mapper.yaml.toMap(e.body(item.values).text) == Ok(call.data.data)
    && call.data.operationTime == item.time
  }

  /** The call deletes an item by its identity. */
  predicate DeletesBy(apiVersion: string, itemFamily: string, id: Template, item: Item, call: Call) {
    && call.kind == DeleteData
    && call.data.apiVersion == apiVersion && call.data.itemFamily == itemFamily
    && RendersId(id, item.values, call.data.name)
    && call.data.metadata == None && call.data.data == None
    && call.data.operationTime == item.time
  }

  /** An upsert that maps asks for its own record and then for the extras that `createIf` lets through, in the
      order of the mappings, all stamped with the item's time. */
  lemma UpsertAsksFor(mappers: Mappers, item: Item)
    requires item.operation == Upsert && item.kind in mappers && mappers[item.kind].mapper.Upserted(item.values).Ok?
    ensures var m, plan := mappers[item.kind], Plan(mappers, item);
            var kept := Kept(m.mapper.extras, CreatedBy(m.mapper.yaml, item.values));
            && |plan| == |kept| + 1
            && SendsItem(m, item, plan[0])
            && forall k | 0 <= k < |kept| :: SendsExtraOf(m, item, kept[k], plan[k + 1])
  {
    UpsertMapsTo(mappers[item.kind].mapper, item.values);
    hide InternalMapper.Upserted, RendersId, RendersFields, Created, Kept;
    var (main, emitted) := mappers[item.kind].mapper.Upserted(item.values).value;
    var plan := Plan(mappers, item);
    assert forall k | 0 <= k < |emitted| :: plan[k + 1] == ExtraSends(item, emitted)[k];
  }

  /** A delete that maps asks for the item and then for the extras whose policy is not "none", in the order of the
      mappings. */
  lemma DeleteAsksFor(mappers: Mappers, item: Item)
    requires item.operation == Delete && item.kind in mappers && mappers[item.kind].mapper.Deleted(item.values).Ok?
    ensures var m, plan := mappers[item.kind], Plan(mappers, item);
            var kept := Kept(m.mapper.extras, DELETED);
            && |plan| == |kept| + 1
            && DeletesBy(m.apiVersion, m.itemFamily, m.mapper.id, item, plan[0])
            && forall k | 0 <= k < |kept| ::
                 DeletesBy(kept[k].apiVersion, kept[k].itemFamily, kept[k].id, item, plan[k + 1])
  {
    DeleteMapsTo(mappers[item.kind].mapper, item.values);
    hide InternalMapper.Deleted, RendersId, Cascades, Kept;
    var (identifier, named) := mappers[item.kind].mapper.Deleted(item.values).value;
    var plan := Plan(mappers, item);
    assert forall k | 0 <= k < |named| :: plan[k + 1] == ExtraDeletes(item, named)[k];
  }

  /** Nothing is asked for an item that is neither an upsert nor a delete, is not mapped, or does not map. */
  lemma NothingAskedIff(mappers: Mappers, item: Item)
    ensures Plan(mappers, item) == []
       <==> || item.kind !in mappers
            || (item.operation != Upsert && item.operation != Delete)
            || (item.operation == Upsert && mappers[item.kind].mapper.Upserted(item.values).Err?)
            || (item.operation == Delete && mappers[item.kind].mapper.Deleted(item.values).Err?)
  {
    hide InternalMapper.Upserted, InternalMapper.Deleted;
  }

  /** How many of the planned calls are made: the first alone where it fails, otherwise all. */
  function Made(plan: seq<Call>, ok: bool): nat {
    if plan == [] then 0 else if ok then |plan| else 1
  }

  /** Performing a plan appends its first calls, in order, each with the outcome of its turn. */
  lemma PerformAppends(plan: seq<Call>, outcome: nat -> bool, log: seq<Attempt>)
    ensures var made := Made(plan, outcome(|log|));
            Perform(plan, outcome, log)
            == log + seq(made, k requires 0 <= k < made => Attempt(plan[k], outcome(|log| + k)))
  {
    if plan != [] {
      var first := Try(plan[0], outcome, log);
      if outcome(|log|) {
        TryAllAppends(plan[1..], outcome, first);
      }
    }
  }

  lemma {:induction false} TryAllAppends(calls: seq<Call>, outcome: nat -> bool, log: seq<Attempt>)
    ensures TryAll(calls, outcome, log)
         == log + seq(|calls|, k requires 0 <= k < |calls| => Attempt(calls[k], outcome(|log| + k)))
  {
    if calls == [] {
    } else {
      TryAllAppends(calls[..|calls| - 1], outcome, log);
    }
  }
}
