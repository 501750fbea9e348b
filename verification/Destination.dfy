/** Records shipped to a destination, the label they are marshalled with, and
    the catalog they drive. */
module Destination {
  import opened Values

  /** An item's own time; `Now` stands for a zero time, stamped with the clock when it is sent. */
  datatype Timestamp = Now | At(rfc3339: string)

  /** `metadata` and `data` are `None` for a nil map. */
  datatype Data = Data(
    apiVersion: string,
    itemFamily: string,
    name: string,
    metadata: Option<Fields>,
    data: Option<Fields>,
    operationTime: Timestamp)
  {
    /** The operation `MarshalJSON` writes into the payload: it looks at the content only. */
    function Label(): Label {
      if data.None? then DeleteLabel else UpsertLabel
    }

    function Key(): Key {
      ItemKey(apiVersion, itemFamily, name)
    }
  }

  datatype Label = UpsertLabel | DeleteLabel

  datatype Key = ItemKey(apiVersion: string, itemFamily: string, name: string)

  datatype Record = Record(metadata: Option<Fields>, data: Fields)

  /** The catalog: the current record of every item, by identity. */
  type Store = map<Key, Record>

  /** `SendData` and `DeleteData` post the same kind of payload to the catalog, which acts on the label. */
  function Deliver(store: Store, d: Data): Store {
    match d.Label()
    case UpsertLabel => store[d.Key() := Record(d.metadata, d.data.value)]
    case DeleteLabel => store - {d.Key()}
  }

  datatype CallKind = SendData | DeleteData

  datatype Call = Call(kind: CallKind, data: Data)

  /** A call that was made, with its outcome. */
  datatype Attempt = Attempt(call: Call, ok: bool)

  /** The effect of the successful attempts, in order, on the catalog. */
  function Applied(store: Store, attempts: seq<Attempt>): Store
    decreases |attempts|
  {
    if attempts == [] then store
    else
      var a := attempts[0];
      Applied(if a.ok then Deliver(store, a.call.data) else store, attempts[1..])
  }

  /** A destination that records what it is asked to do. The n-th call succeeds iff `outcome(n)`. */
  class Sender {
    const outcome: nat -> bool
    var attempts: seq<Attempt>

    constructor (outcome: nat -> bool)
      ensures this.outcome == outcome && attempts == []
    {
      this.outcome := outcome;
      attempts := [];
    }

    method SendData(data: Data) returns (ok: bool)
      modifies this
      ensures ok == outcome(|old(attempts)|)
      ensures attempts == old(attempts) + [Attempt(Call(CallKind.SendData, data), ok)]
    {
      ok := outcome(|attempts|);
      attempts := attempts + [Attempt(Call(CallKind.SendData, data), ok)];
    }

    method DeleteData(data: Data) returns (ok: bool)
      modifies this
      ensures ok == outcome(|old(attempts)|)
      ensures attempts == old(attempts) + [Attempt(Call(CallKind.DeleteData, data), ok)]
    {
      ok := outcome(|attempts|);
      attempts := attempts + [Attempt(Call(CallKind.DeleteData, data), ok)];
    }
  }
}
