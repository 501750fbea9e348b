/** A delete against the upsert of the same payload: when it takes everything back, and when not. */
module Undo {
  import opened Values
  import opened Destination
  import opened Mapper
  import opened Pipeline
  import opened Catalog
  import Identifier

  function Upsertion(kind: string, values: Fields, time: Timestamp): Item {
    Item(kind, Upsert, values, time)
  }

  function Deletion(kind: string, values: Fields, time: Timestamp): Item {
    Item(kind, Delete, values, time)
  }

  /** The key of the item itself. */
  function MainKey(m: DataMapper, values: Fields): Key
    requires RendersIdentifierOf(m, values)
  {
    ItemKey(m.apiVersion, m.itemFamily, ExecuteIdentifierTemplate(m.mapper.id, values).value)
  }

  ghost predicate RendersIdentifierOf(m: DataMapper, values: Fields) {
    ExecuteIdentifierTemplate(m.mapper.id, values).Ok?
  }

  /** The key of an extra. */
  function ExtraKey(e: ExtraMapping, values: Fields): Key
    requires RendersIdentifier(e, values)
  {
    ItemKey(e.apiVersion, e.itemFamily, ExecuteIdentifierTemplate(e.id, values).value)
  }

  lemma {:induction false} DeletesRemove(store: Store, calls: seq<Call>)
    requires forall i | 0 <= i < |calls| :: calls[i].data.Label() == DeleteLabel
    ensures Delivered(store, calls) == store - Keys(calls)
    decreases |calls|
  {
    if calls == [] {
    } else {
      DeletesRemove(Deliver(store, calls[0].data), calls[1..]);
      KeysOfRest(calls);
    }
  }

  /** Every cascading extra is named by the delete. */
  lemma {:induction false} CascadingNamed(extras: seq<ExtraMapping>, values: Fields, i: nat)
    requires DeleteExtras(extras, values).Ok? && i < |extras| && extras[i].deletePolicy != DELETE_POLICY_NONE
    ensures RendersIdentifier(extras[i], values)
    ensures exists j | 0 <= j < |DeleteExtras(extras, values).value| ::
              var x := DeleteExtras(extras, values).value[j];
              ItemKey(x.apiVersion, x.itemFamily, x.identifier) == ExtraKey(extras[i], values)
  {
    var named := DeleteExtras(extras, values).value;
    if i == 0 {
      assert ItemKey(named[0].apiVersion, named[0].itemFamily, named[0].identifier) == ExtraKey(extras[0], values);
    } else {
      CascadingNamed(extras[1..], values, i - 1);
      var rest := DeleteExtras(extras[1..], values).value;
      var j :| 0 <= j < |rest|
        && ItemKey(rest[j].apiVersion, rest[j].itemFamily, rest[j].identifier) == ExtraKey(extras[i], values);
      var shift := |named| - |rest|;
      assert named[j + shift] == rest[j];
    }
  }

  /** The catalog after the upsert of a payload and then its delete. */
  function UpsertThenDelete(mappers: Mappers, kind: string, values: Fields, t: Timestamp, u: Timestamp,
                            store: Store): Store
  {
    Delivered(Delivered(store, Plan(mappers, Upsertion(kind, values, t))), Plan(mappers, Deletion(kind, values, u)))
  }

  lemma DeleteKeys(mappers: Mappers, kind: string, values: Fields, u: Timestamp, i: nat)
    requires kind in mappers && mappers[kind].mapper.Deleted(values).Ok?
    requires i < |mappers[kind].mapper.extras| && mappers[kind].mapper.extras[i].deletePolicy != DELETE_POLICY_NONE
    ensures RendersIdentifier(mappers[kind].mapper.extras[i], values)
    ensures ExtraKey(mappers[kind].mapper.extras[i], values) in Keys(Plan(mappers, Deletion(kind, values, u)))
  {
    var extras, named := mappers[kind].mapper.extras, mappers[kind].mapper.Deleted(values).value.1;
    CascadingNamed(extras, values, i);
    var j :| 0 <= j < |named|
      && ItemKey(named[j].apiVersion, named[j].itemFamily, named[j].identifier) == ExtraKey(extras[i], values);
    var plan := Plan(mappers, Deletion(kind, values, u));
    assert plan[j + 1] == ExtraDeletes(Deletion(kind, values, u), named)[j];
    assert plan[j + 1].data.Key() == ExtraKey(extras[i], values);
  }

  /** Keys an upsert writes that are neither the item's nor a cascading extra's are those of extras whose
      policy is "none". */
  lemma UpsertKeys(mappers: Mappers, kind: string, values: Fields, t: Timestamp, k: Key)
    requires kind in mappers && mappers[kind].mapper.Upserted(values).Ok?
    requires k in Keys(Plan(mappers, Upsertion(kind, values, t))) && k != MainKey(mappers[kind], values)
    ensures exists i | 0 <= i < |mappers[kind].mapper.extras|
                       && RendersIdentifier(mappers[kind].mapper.extras[i], values) ::
              ExtraKey(mappers[kind].mapper.extras[i], values) == k
  {
    var m := mappers[kind].mapper;
    var plan := Plan(mappers, Upsertion(kind, values, t));
    var j :| 0 <= j < |plan| && plan[j].data.Key() == k;
    assert j > 0;
    assert plan[j] == ExtraSends(Upsertion(kind, values, t), m.Upserted(values).value.1)[j - 1];
    var i := EachFromMapping(m.yaml, m.extras, values, j - 1);
  }

  /** When both events map and all deliveries succeed, the item and every extra whose policy is not
      "none" are gone, created or not; what the upsert leaves behind are extras whose policy is "none";
      everything else is as it was before the two events. */
  lemma DeleteUndoesUpsert(mappers: Mappers, kind: string, values: Fields, t: Timestamp, u: Timestamp, store: Store)
    requires kind in mappers
    requires mappers[kind].mapper.Upserted(values).Ok? && mappers[kind].mapper.Deleted(values).Ok?
    ensures var after := UpsertThenDelete(mappers, kind, values, t, u, store);
            var extras := mappers[kind].mapper.extras;
            var written := Keys(Plan(mappers, Upsertion(kind, values, t)));
            && MainKey(mappers[kind], values) !in after
            && (forall i | 0 <= i < |extras| && extras[i].deletePolicy != DELETE_POLICY_NONE ::
                  RendersIdentifier(extras[i], values) && ExtraKey(extras[i], values) !in after)
            && (forall k | k in after && k in written ::
                  exists i | 0 <= i < |extras| && extras[i].deletePolicy == DELETE_POLICY_NONE ::
                    RendersIdentifier(extras[i], values) && ExtraKey(extras[i], values) == k)
            && AgreeOutside(after, store, written + Keys(Plan(mappers, Deletion(kind, values, u))))
  {
    var up, del := Plan(mappers, Upsertion(kind, values, t)), Plan(mappers, Deletion(kind, values, u));
    var extras := mappers[kind].mapper.extras;
    DeletesRemove(Delivered(store, up), del);
    OnlyKeysChange(store, up);
    assert del[0].data.Key() == MainKey(mappers[kind], values);
    forall i | 0 <= i < |extras| && extras[i].deletePolicy != DELETE_POLICY_NONE
      ensures RendersIdentifier(extras[i], values) && ExtraKey(extras[i], values) in Keys(del)
    {
      DeleteKeys(mappers, kind, values, u, i);
    }
    forall k | k in Delivered(store, up) - Keys(del) && k in Keys(up)
      ensures exists i | 0 <= i < |extras| && extras[i].deletePolicy == DELETE_POLICY_NONE ::
                RendersIdentifier(extras[i], values) && ExtraKey(extras[i], values) == k
    {
      UpsertKeys(mappers, kind, values, t, k);
    }
  }

  /** Every cascading extra that `createIf` kept out of the upsert has an identifier that renders. */
  ghost predicate SkippedExtrasRender(m: InternalMapper, values: Fields) {
    forall i | 0 <= i < |m.extras| && OnlyDeleted(m.yaml, m.extras[i], values) :: RendersIdentifier(m.extras[i], values)
  }

  /** The upsert has mapped. The delete of the same payload takes the item out of the catalog exactly when
      the extras that `createIf` skipped have identifiers that render; otherwise it does nothing at all, and
      the item is there if the upsert has left it there. */
  lemma DeleteUndoesUpsertIff(mappers: Mappers, kind: string, values: Fields, t: Timestamp, u: Timestamp, store: Store)
    requires kind in mappers && mappers[kind].mapper.Upserted(values).Ok?
    ensures var m := mappers[kind].mapper;
            var upserted := Delivered(store, Plan(mappers, Upsertion(kind, values, t)));
            var after := UpsertThenDelete(mappers, kind, values, t, u, store);
            && (MainKey(mappers[kind], values) !in after
                <==> SkippedExtrasRender(m, values) || MainKey(mappers[kind], values) !in upserted)
            && (!SkippedExtrasRender(m, values) ==> after == upserted)
  {
    var m := mappers[kind].mapper;
    DeleteExtrasSucceed(m.yaml, m.extras, values);
    if m.Deleted(values).Ok? {
      DeleteUndoesUpsert(mappers, kind, values, t, u, store);
    } else {
      assert Plan(mappers, Deletion(kind, values, u)) == [];
    }
  }

  /** An upsert that maps leaves the item in the catalog unless one of its extras has the same key. */
  lemma UpsertPutsItem(mappers: Mappers, kind: string, values: Fields, t: Timestamp, store: Store)
    requires kind in mappers && mappers[kind].mapper.Upserted(values).Ok?
    requires var emitted := mappers[kind].mapper.Upserted(values).value.1;
             forall j | 0 <= j < |emitted| ::
               ItemKey(emitted[j].apiVersion, emitted[j].itemFamily, emitted[j].identifier)
               != MainKey(mappers[kind], values)
    ensures var main := mappers[kind].mapper.Upserted(values).value.0;
            var upserted := Delivered(store, Plan(mappers, Upsertion(kind, values, t)));
            && MainKey(mappers[kind], values) in upserted
            && upserted[MainKey(mappers[kind], values)] == Record(Some(main.metadata), main.spec)
  {
    var m := mappers[kind].mapper;
    var up := Plan(mappers, Upsertion(kind, values, t));
    forall j | 0 < j < |up|
      ensures up[j].data.Key() != up[0].data.Key()
    {
      assert up[j] == ExtraSends(Upsertion(kind, values, t), m.Upserted(values).value.1)[j - 1];
    }
    LastCallDecides(store, up, 0);
  }

  /** Neither the item nor any extra that the delete has to take along is in the catalog. */
  ghost predicate AllGone(m: DataMapper, values: Fields, store: Store)
    requires RendersIdentifierOf(m, values)
  {
    && MainKey(m, values) !in store
    && forall i | 0 <= i < |m.mapper.extras| && m.mapper.extras[i].deletePolicy != DELETE_POLICY_NONE
                  && RendersIdentifier(m.mapper.extras[i], values) ::
         ExtraKey(m.mapper.extras[i], values) !in store
  }

  /** Where no extra has the item's own key, the delete of a payload takes back its upsert, the item and all
      cascading extras, exactly when the extras that `createIf` skipped have identifiers that render. */
  lemma UpsertIsUndoneIff(mappers: Mappers, kind: string, values: Fields, t: Timestamp, u: Timestamp, store: Store)
    requires kind in mappers && mappers[kind].mapper.Upserted(values).Ok?
    requires var emitted := mappers[kind].mapper.Upserted(values).value.1;
             forall j | 0 <= j < |emitted| ::
               ItemKey(emitted[j].apiVersion, emitted[j].itemFamily, emitted[j].identifier)
               != MainKey(mappers[kind], values)
    ensures AllGone(mappers[kind], values, UpsertThenDelete(mappers, kind, values, t, u, store))
       <==> SkippedExtrasRender(mappers[kind].mapper, values)
  {
    var m := mappers[kind].mapper;
    DeleteUndoesUpsertIff(mappers, kind, values, t, u, store);
    UpsertPutsItem(mappers, kind, values, t, store);
    DeleteExtrasSucceed(m.yaml, m.extras, values);
    if m.Deleted(values).Ok? {
      DeleteUndoesUpsert(mappers, kind, values, t, u, store);
    }
  }

  /** A mapping with one cascading extra, whose `createIf` is false for payloads that lack what its identifier
      template reads. */
  function GuardedExample(): DataMapper {
    DataMapper("v1", "items", InternalMapper(
      Yaml(text => if text == "---\n" then Ok(None) else Ok(Some(map[])), text => Ok(false)),
      values => Rendering("item", false),
      values => Rendering("---\n", false),
      values => Rendering("---\n", false),
      [ExtraMapping("v1", "relationships", "cascade",
                    Some(values => Rendering("false", false)),
                    values => Rendering("", true),
                    values => Rendering("sourceRef: a\ntargetRef: b\ntypeRef: c\n", false))]))
  }

  /** The guard lets the upsert through and does not protect the delete: the item stays. */
  lemma GuardedExtraBlocksDelete(values: Fields, t: Timestamp, u: Timestamp)
    ensures var mappers := map["thing" := GuardedExample()];
            ItemKey("v1", "items", "item") in UpsertThenDelete(mappers, "thing", values, t, u, map[])
  {
    var mappers := map["thing" := GuardedExample()];
    var m := GuardedExample().mapper;
    Identifier.AcceptedIffWellFormed("item");
    assert UpsertExtras(m.yaml, m.extras, values) == Ok([]) by {
      assert Wanted(m.yaml, m.extras[0], values) == Ok(false);
      assert UpsertExtras(m.yaml, m.extras[1..], values) == Ok([]);
    }
    assert OnlyDeleted(m.yaml, m.extras[0], values);
    Identifier.AcceptedIffWellFormed("");
    assert !RendersIdentifier(m.extras[0], values);
    DeleteUndoesUpsertIff(mappers, "thing", values, t, u, map[]);
    UpsertPutsItem(mappers, "thing", values, t, map[]);
  }
}
