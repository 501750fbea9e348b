/** What the catalog holds after an upsert, and after the delete of the same payload, told from what the templates
    render alone. */
module StoredItems {
  import opened Values
  import opened Catalog
  import opened Destination
  import opened ExtraItems
  import opened Mapper
  import opened Outcomes
  import opened Pipeline
  import opened PlanContents
  import opened Undo

  /** The key of the item. */
  predicate IsMainKey(m: DataMapper, values: Fields, k: Key) {
    k.apiVersion == m.apiVersion && k.itemFamily == m.itemFamily && RendersId(m.mapper.id, values, k.name)
  }

  /** The key of the mapping's extra. */
  predicate IsExtraKey(e: ExtraMapping, values: Fields, k: Key) {
    k.apiVersion == e.apiVersion && k.itemFamily == e.itemFamily && RendersId(e.id, values, k.name)
  }

  /** After a delivered upsert the item's key holds exactly what its metadata and spec templates render, unless an
      extra that is created has the same key. */
  lemma UpsertStoresTheDocuments(mappers: Mappers, kind: string, values: Fields, t: Timestamp, store: Store, k: Key,
                                 metadata: Fields, spec: Fields)
    requires kind in mappers && mappers[kind].mapper.Upserted(values).Ok?
    requires var m := mappers[kind];
             && IsMainKey(m, values, k)
             && RendersFields(m.mapper.yaml, m.mapper.metadata, values, metadata)
             && RendersFields(m.mapper.yaml, m.mapper.spec, values, spec)
             && forall e | e in m.mapper.extras && Created(m.mapper.yaml, e, values) :: !IsExtraKey(e, values, k)
    ensures var after := Delivered(store, Plan(mappers, Upsertion(kind, values, t)));
            k in after && after[k] == Record(Some(metadata), spec)
  {
    var m, item := mappers[kind], Upsertion(kind, values, t);
    var plan, kept := Plan(mappers, item), Kept(m.mapper.extras, CreatedBy(m.mapper.yaml, values));
    UpsertAsksFor(mappers, item);
    hide Plan, Kept, Created, InternalMapper.Upserted;
    forall j | 0 < j < |plan|
      ensures plan[j].data.Key() != plan[0].data.Key()
    {
      assert SendsExtraOf(m, item, kept[j - 1], plan[(j - 1) + 1]);
      KeptMembers(m.mapper.extras, CreatedBy(m.mapper.yaml, values), kept[j - 1]);
    }
    LastCallDecides(store, plan, 0);
  }

  /** The keys a delete names are the item's and those of the extras whose policy is not "none". */
  lemma DeletedKeysIff(mappers: Mappers, kind: string, values: Fields, u: Timestamp, k: Key)
    requires kind in mappers && mappers[kind].mapper.Deleted(values).Ok?
    ensures k in Keys(Plan(mappers, Deletion(kind, values, u)))
       <==> || IsMainKey(mappers[kind], values, k)
            || exists e | e in mappers[kind].mapper.extras && Cascades(e) :: IsExtraKey(e, values, k)
  {
    var m, item := mappers[kind], Deletion(kind, values, u);
    var plan, kept := Plan(mappers, item), Kept(m.mapper.extras, DELETED);
    DeleteAsksFor(mappers, item);
    hide Plan, Kept, Cascades, InternalMapper.Deleted;
    if k in Keys(plan) {
      var j :| 0 <= j < |plan| && plan[j].data.Key() == k;
      if j > 0 {
        var e := kept[j - 1];
        assert DeletesBy(e.apiVersion, e.itemFamily, e.id, item, plan[(j - 1) + 1]);
        KeptMembers(m.mapper.extras, DELETED, e);
        assert IsExtraKey(e, values, k);
      }
    }
    if IsMainKey(m, values, k) {
      assert plan[0].data.Key() == k;
    }
    if exists e | e in m.mapper.extras && Cascades(e) :: IsExtraKey(e, values, k) {
      var e :| e in m.mapper.extras && Cascades(e) && IsExtraKey(e, values, k);
      KeptMembers(m.mapper.extras, DELETED, e);
      var j :| 0 <= j < |kept| && kept[j] == e;
      assert plan[j + 1].data.Key() == k;
    }
  }

  /** A delivered delete that maps takes exactly those keys out, and leaves every other as it was. */
  lemma DeleteTakesExactly(mappers: Mappers, kind: string, values: Fields, u: Timestamp, store: Store, k: Key)
    requires kind in mappers && mappers[kind].mapper.Deleted(values).Ok?
    ensures var after := Delivered(store, Plan(mappers, Deletion(kind, values, u)));
            if || IsMainKey(mappers[kind], values, k)
               || exists e | e in mappers[kind].mapper.extras && Cascades(e) :: IsExtraKey(e, values, k)
            then k !in after
            else (k in after <==> k in store) && (k in after ==> after[k] == store[k])
  {
    DeletedKeysIff(mappers, kind, values, u, k);
    var plan := Plan(mappers, Deletion(kind, values, u));
    forall i | 0 <= i < |plan|
      ensures plan[i].data.Label() == DeleteLabel
    {
      DeletesAreLabelledDelete(mappers, Deletion(kind, values, u), i);
    }
    hide Plan, Delivered, Keys;
    DeletesRemove(store, plan);
  }

  /** An extra whose policy is "none" outlives its item: once stored, with its own key, it is still there, with the
      same record, after the delete. */
  lemma NoneExtraStays(mappers: Mappers, kind: string, values: Fields, t: Timestamp, u: Timestamp, store: Store,
                       i: nat, k: Key, body: Fields)
    requires kind in mappers && mappers[kind].mapper.Upserted(values).Ok?
    requires var m := mappers[kind].mapper;
             && i < |m.extras| && m.extras[i].deletePolicy == "none"
             && Created(m.yaml, m.extras[i], values) && IsExtraKey(m.extras[i], values, k)
             && m.yaml.toMap(m.extras[i].body(values).text) == Ok(Some(body))
             && !IsMainKey(mappers[kind], values, k)
             && (forall e | e in m.extras && Cascades(e) :: !IsExtraKey(e, values, k))
             && (forall later | i < later < |m.extras| && Created(m.yaml, m.extras[later], values) ::
                   !IsExtraKey(m.extras[later], values, k))
    ensures var after := UpsertThenDelete(mappers, kind, values, t, u, store);
            k in after && after[k] == Record(None, body)
  {
    var m := mappers[kind].mapper;
    var upserted := Delivered(store, Plan(mappers, Upsertion(kind, values, t)));
    StoredExtra(mappers, kind, values, t, store, i, k, body);
    hide Delivered;
    if m.Deleted(values).Ok? {
      hide Plan;
      DeleteTakesExactly(mappers, kind, values, u, upserted, k);
    } else {
      NothingAskedIff(mappers, Deletion(kind, values, u));
      assert UpsertThenDelete(mappers, kind, values, t, u, store) == upserted by {
        NothingDelivered(upserted);
      }
    }
  }

  lemma NothingDelivered(store: Store)
    ensures Delivered(store, []) == store
  {
  }

  lemma StoredExtra(mappers: Mappers, kind: string, values: Fields, t: Timestamp, store: Store, i: nat, k: Key,
                    body: Fields)
    requires kind in mappers && mappers[kind].mapper.Upserted(values).Ok?
    requires var m := mappers[kind].mapper;
             && i < |m.extras| && Created(m.yaml, m.extras[i], values) && IsExtraKey(m.extras[i], values, k)
             && m.yaml.toMap(m.extras[i].body(values).text) == Ok(Some(body))
             && (forall later | i < later < |m.extras| && Created(m.yaml, m.extras[later], values) ::
                   !IsExtraKey(m.extras[later], values, k))
    ensures var after := Delivered(store, Plan(mappers, Upsertion(kind, values, t)));
            k in after && after[k] == Record(None, body)
  {
    var m := mappers[kind].mapper;
    CreateIfAnswers(m.yaml, m.extras[i], values, true);
    IdentifierRenders(m.extras[i].id, values);
    assert ExtraKey(m.extras[i], values) == k;
    forall later | i < later < |m.extras| && Wanted(m.yaml, m.extras[later], values) == Ok(true)
                   && RendersIdentifier(m.extras[later], values)
      ensures ExtraKey(m.extras[later], values) != k
    {
      CreateIfAnswers(m.yaml, m.extras[later], values, true);
      IdentifierRenders(m.extras[later].id, values);
      assert !IsExtraKey(m.extras[later], values, k);
    }
    hide Plan, Delivered, Wanted, Created, ExecuteIdentifierTemplate, InternalMapper.Upserted;
    ExtraIsStoredIff(mappers, kind, values, t, store, i);
  }
}
