/** The mapping loop of the pipeline: what it asks of the destination for the items it receives. */
module Pipeline {
  import opened Values
  import opened Destination
  import opened Mapper

  /** `DataOperation` is an integer type with two named values. */
  datatype Operation = Upsert | Delete | Unknown(code: int)

  datatype Item = Item(kind: string, operation: Operation, values: Fields, time: Timestamp)

  datatype DataMapper = DataMapper(apiVersion: string, itemFamily: string, mapper: InternalMapper)

  type Mappers = map<string, DataMapper>

  /** The upserts of an item's extras. */
  function ExtraSends(item: Item, extras: seq<ExtraMappedData>): (calls: seq<Call>)
    ensures |calls| == |extras|
    ensures forall i | 0 <= i < |extras| ::
      calls[i] == Call(SendData, Data(extras[i].apiVersion, extras[i].itemFamily, extras[i].identifier,
                                      None, extras[i].spec, item.time))
  {
    if extras == [] then []
    else
      var x := extras[0];
      [Call(SendData, Data(x.apiVersion, x.itemFamily, x.identifier, None, x.spec, item.time))]
      + ExtraSends(item, extras[1..])
  }

  /** The deletes of an item's extras. */
  function ExtraDeletes(item: Item, extras: seq<ExtraMappedData>): (calls: seq<Call>)
    ensures |calls| == |extras|
    ensures forall i | 0 <= i < |extras| ::
      calls[i] == Call(DeleteData, Data(extras[i].apiVersion, extras[i].itemFamily, extras[i].identifier,
                                        None, None, item.time))
  {
    if extras == [] then []
    else
      var x := extras[0];
      [Call(DeleteData, Data(x.apiVersion, x.itemFamily, x.identifier, None, None, item.time))]
      + ExtraDeletes(item, extras[1..])
  }

  /** The calls an item asks for when none fails: its own record first, then its extras; nothing for
      an item that is not mapped or whose mapping fails. */
  function Plan(mappers: Mappers, item: Item): seq<Call> {
    if item.kind !in mappers then []
    else
      var m := mappers[item.kind];
      match item.operation
      case Upsert =>
        (match m.mapper.Upserted(item.values)
         case Err(_) => []
         case Ok((main, extras)) =>
           [Call(SendData, Data(m.apiVersion, m.itemFamily, main.identifier, Some(main.metadata), Some(main.spec),
                                 item.time))]
           + ExtraSends(item, extras))
      case Delete =>
        (match m.mapper.Deleted(item.values)
         case Err(_) => []
         case Ok((identifier, extras)) =>
           [Call(DeleteData, Data(m.apiVersion, m.itemFamily, identifier, None, None, item.time))]
           + ExtraDeletes(item, extras))
      case Unknown(_) => []
  }

  /** Making a call: the outcome depends on how many calls were made before. */
  function Try(call: Call, outcome: nat -> bool, log: seq<Attempt>): seq<Attempt> {
    log + [Attempt(call, outcome(|log|))]
  }

  /** Making calls one after the other, whatever becomes of each. */
  function TryAll(calls: seq<Call>, outcome: nat -> bool, log: seq<Attempt>): seq<Attempt> {
    if calls == [] then log
    else Try(calls[|calls| - 1], outcome, TryAll(calls[..|calls| - 1], outcome, log))
  }

  /** The effect of an item's plan: the item's own call first, and all the others only if it succeeds. */
  function Perform(plan: seq<Call>, outcome: nat -> bool, log: seq<Attempt>): seq<Attempt> {
    if plan == [] then log
    else if !outcome(|log|) then Try(plan[0], outcome, log)
    else TryAll(plan[1..], outcome, Try(plan[0], outcome, log))
  }

  type Planner = Item -> seq<Call>

  function PlannerOf(mappers: Mappers): Planner {
    item => Plan(mappers, item)
  }

  /** The effects of a sequence of items, one item after the other. */
  function PerformAll(plan: Planner, items: seq<Item>, outcome: nat -> bool, log: seq<Attempt>): seq<Attempt> {
    if items == [] then log
    else Perform(plan(items[|items| - 1]), outcome, PerformAll(plan, items[..|items| - 1], outcome, log))
  }

  lemma PerformOneMore(plan: Planner, items: seq<Item>, item: Item, outcome: nat -> bool, log: seq<Attempt>)
    ensures PerformAll(plan, items + [item], outcome, log)
         == Perform(plan(item), outcome, PerformAll(plan, items, outcome, log))
  {
    assert (items + [item])[..|items|] == items;
  }

  lemma TryOneMore(calls: seq<Call>, k: nat, outcome: nat -> bool, log: seq<Attempt>)
    requires k < |calls|
    ensures TryAll(calls[..k + 1], outcome, log) == Try(calls[k], outcome, TryAll(calls[..k], outcome, log))
  {
    assert calls[..k + 1][..k] == calls[..k];
  }

  class Pipeline {
    const mappers: Mappers
    const destination: Sender

    constructor (mappers: Mappers, destination: Sender)
      ensures this.mappers == mappers && this.destination == destination
    {
      this.mappers := mappers;
      this.destination := destination;
    }

    method UpsertExtraMappedData(item: Item, extras: seq<ExtraMappedData>)
      modifies destination
      ensures destination.attempts
           == TryAll(ExtraSends(item, extras), destination.outcome, old(destination.attempts))
    {
      ghost var calls := ExtraSends(item, extras);
      for i := 0 to |extras|
        invariant destination.attempts == TryAll(calls[..i], destination.outcome, old(destination.attempts))
      {
        TryOneMore(calls, i, destination.outcome, old(destination.attempts));
        var x := extras[i];
        var ok := destination.SendData(Data(x.apiVersion, x.itemFamily, x.identifier, None, x.spec, item.time));
        if !ok {
          continue;
        }
      }
      assert calls[..|extras|] == calls;
    }

    method DeleteExtraMappedData(item: Item, extras: seq<ExtraMappedData>)
      modifies destination
      ensures destination.attempts
           == TryAll(ExtraDeletes(item, extras), destination.outcome, old(destination.attempts))
    {
      ghost var calls := ExtraDeletes(item, extras);
      if |extras| > 0 {
        for i := 0 to |extras|
          invariant destination.attempts == TryAll(calls[..i], destination.outcome, old(destination.attempts))
        {
          TryOneMore(calls, i, destination.outcome, old(destination.attempts));
          var x := extras[i];
          var ok := destination.DeleteData(Data(x.apiVersion, x.itemFamily, x.identifier, None, None, item.time));
          if !ok {
            continue;
          }
        }
      }
      assert calls[..|extras|] == calls;
    }

    /** What the receive loop does with one item; each `return` is a `continue` of that loop. */
    method MapAndSend(item: Item)
      modifies destination
      ensures destination.attempts == Perform(Plan(mappers, item), destination.outcome, old(destination.attempts))
    {
      if item.kind !in mappers {
        return;
      }
      var m := mappers[item.kind];
      match item.operation {
        case Upsert =>
          var mapped := m.mapper.ApplyTemplates(item.values);
          if mapped.Err? {
            return;
          }
          var (main, extras) := mapped.value;
          var ok := destination.SendData(
            Data(m.apiVersion, m.itemFamily, main.identifier, Some(main.metadata), Some(main.spec), item.time));
          if !ok {
            return;
          }
          UpsertExtraMappedData(item, extras);
          assert Plan(mappers, item)[1..] == ExtraSends(item, extras);
        case Delete =>
          var mapped := m.mapper.ApplyIdentifierTemplate(item.values);
          if mapped.Err? {
            return;
          }
          var (identifier, extras) := mapped.value;
          var ok := destination.DeleteData(
            Data(m.apiVersion, m.itemFamily, identifier, None, None, item.time));
          if !ok {
            return;
          }
          DeleteExtraMappedData(item, extras);
          assert Plan(mappers, item)[1..] == ExtraDeletes(item, extras);
        case Unknown(_) =>
      }
    }

    /** The receive loop. `channel` is what is received until the channel is closed; `cancelled(k)`
        says whether the k-th select takes the branch of the cancelled context. `received` counts the
        items taken from the channel. */
    method MappingData(channel: seq<Item>, cancelled: nat -> bool) returns (received: nat)
      modifies destination
      ensures received <= |channel|
      ensures received == |channel| || cancelled(received)
      ensures forall k: nat | k < received :: !cancelled(k)
      ensures destination.attempts
           == PerformAll(PlannerOf(mappers), channel[..received], destination.outcome, old(destination.attempts))
    {
      hide Plan, Perform;
      received := 0;
      while true
        invariant received <= |channel|
        invariant forall k: nat | k < received :: !cancelled(k)
        invariant destination.attempts
               == PerformAll(PlannerOf(mappers), channel[..received], destination.outcome, old(destination.attempts))
        decreases |channel| - received
      {
        if cancelled(received) {
          return;
        }
        if received == |channel| {
          return;
        }
        var item := channel[received];
        assert channel[..received + 1] == channel[..received] + [item];
        PerformOneMore(PlannerOf(mappers), channel[..received], item, destination.outcome, old(destination.attempts));
        received := received + 1;
        MapAndSend(item);
      }
    }
  }
}
