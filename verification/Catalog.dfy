/** What streams of items do to the catalog: a delete undoes an upsert, a replay repairs and repeats
    nothing, and items with nothing in common commute. */
module Catalog {
  import opened Destination
  import opened Pipeline

  /** The catalog after all the calls, when they all succeed. */
  function Delivered(store: Store, calls: seq<Call>): Store
    decreases |calls|
  {
    if calls == [] then store else Delivered(Deliver(store, calls[0].data), calls[1..])
  }

  function Keys(calls: seq<Call>): set<Key> {
    set i | 0 <= i < |calls| :: calls[i].data.Key()
  }

  function AllCalls(plan: Planner, items: seq<Item>): seq<Call> {
    if items == [] then [] else plan(items[0]) + AllCalls(plan, items[1..])
  }

  /** The catalog after a stream of items whose deliveries all succeed. */
  function Replay(plan: Planner, store: Store, items: seq<Item>): Store
    decreases |items|
  {
    if items == [] then store else Replay(plan, Delivered(store, plan(items[0])), items[1..])
  }

  /** The catalogs give the same answer for every key outside `keys`. */
  ghost predicate AgreeOutside(a: Store, b: Store, keys: set<Key>) {
    forall k | k !in keys :: (k in a <==> k in b) && (k in a ==> a[k] == b[k])
  }

  lemma {:induction false} DeliveredAppend(store: Store, xs: seq<Call>, ys: seq<Call>)
    ensures Delivered(store, xs + ys) == Delivered(Delivered(store, xs), ys)
    decreases |xs|
  {
    if xs == [] {
      assert xs + ys == ys;
    } else {
      assert (xs + ys)[1..] == xs[1..] + ys;
      DeliveredAppend(Deliver(store, xs[0].data), xs[1..], ys);
    }
  }

  lemma {:induction false} ReplayIsDelivered(plan: Planner, store: Store, items: seq<Item>)
    ensures Replay(plan, store, items) == Delivered(store, AllCalls(plan, items))
    decreases |items|
  {
    if items == [] {
    } else {
      ReplayIsDelivered(plan, Delivered(store, plan(items[0])), items[1..]);
      DeliveredAppend(store, plan(items[0]), AllCalls(plan, items[1..]));
    }
  }

  lemma {:induction false} OnlyKeysChange(store: Store, calls: seq<Call>)
    ensures AgreeOutside(Delivered(store, calls), store, Keys(calls))
    decreases |calls|
  {
    if calls == [] {
    } else {
      OnlyKeysChange(Deliver(store, calls[0].data), calls[1..]);
      KeysOfRest(calls);
    }
  }

  lemma KeysOfRest(calls: seq<Call>)
    requires calls != []
    ensures Keys(calls) == {calls[0].data.Key()} + Keys(calls[1..])
  {
    var all, rest := Keys(calls), Keys(calls[1..]);
    forall k | k in all ensures k in {calls[0].data.Key()} + rest {
      var i :| 0 <= i < |calls| && calls[i].data.Key() == k;
      assert i > 0 ==> calls[1..][i - 1] == calls[i];
    }
    forall k | k in rest ensures k in all {
      var i :| 0 <= i < |calls[1..]| && calls[1..][i].data.Key() == k;
      assert calls[i + 1] == calls[1..][i];
    }
  }

  /** The last call that names a key decides what is under it. */
  lemma {:induction false} LastCallDecides(store: Store, calls: seq<Call>, i: nat)
    requires i < |calls|
    requires forall k | i < k < |calls| :: calls[k].data.Key() != calls[i].data.Key()
    ensures var after, d := Delivered(store, calls), calls[i].data;
            && (d.Key() in after <==> d.Label() == UpsertLabel)
            && (d.Label() == UpsertLabel ==> after[d.Key()] == Record(d.metadata, d.data.value))
    decreases |calls|
  {
    if i == 0 {
      OnlyKeysChange(Deliver(store, calls[0].data), calls[1..]);
    } else {
      LastCallDecides(Deliver(store, calls[0].data), calls[1..], i - 1);
    }
  }

  /** What was in the catalog under the keys the calls write is forgotten. */
  lemma {:induction false} WritesForget(a: Store, b: Store, calls: seq<Call>)
    requires AgreeOutside(a, b, Keys(calls))
    ensures Delivered(a, calls) == Delivered(b, calls)
    decreases |calls|
  {
    if calls == [] {
      assert a == b;
    } else {
      KeysOfRest(calls);
      WritesForget(Deliver(a, calls[0].data), Deliver(b, calls[0].data), calls[1..]);
    }
  }

  // ---- Failures, and replaying the stream ----

  /** The calls of the attempts are among `calls`. */
  ghost predicate AttemptsAmong(log: seq<Attempt>, calls: seq<Call>) {
    forall k | 0 <= k < |log| :: log[k].call in calls
  }

  lemma {:induction false} AppliedOnlyKeys(store: Store, log: seq<Attempt>, calls: seq<Call>)
    requires AttemptsAmong(log, calls)
    ensures AgreeOutside(Applied(store, log), store, Keys(calls))
    decreases |log|
  {
    if log == [] {
    } else {
      var a := log[0];
      var i :| 0 <= i < |calls| && calls[i] == a.call;
      assert a.call.data.Key() in Keys(calls);
      AppliedOnlyKeys(if a.ok then Deliver(store, a.call.data) else store, log[1..], calls);
    }
  }

  lemma {:induction false} TryAllAmong(calls: seq<Call>, outcome: nat -> bool, log: seq<Attempt>, all: seq<Call>)
    requires AttemptsAmong(log, all) && forall i | 0 <= i < |calls| :: calls[i] in all
    ensures AttemptsAmong(TryAll(calls, outcome, log), all)
  {
    if calls == [] {
    } else {
      TryAllAmong(calls[..|calls| - 1], outcome, log, all);
    }
  }

  lemma {:induction false} AllCallsHas(plan: Planner, items: seq<Item>, k: nat)
    requires k < |items|
    ensures forall i | 0 <= i < |plan(items[k])| :: plan(items[k])[i] in AllCalls(plan, items)
  {
    if k == 0 {
    } else {
      AllCallsHas(plan, items[1..], k - 1);
    }
  }

  lemma {:induction false} PerformAllAmong(plan: Planner, items: seq<Item>, k: nat, outcome: nat -> bool)
    requires k <= |items|
    ensures AttemptsAmong(PerformAll(plan, items[..k], outcome, []), AllCalls(plan, items))
  {
    if k == 0 {
    } else {
      PerformAllAmong(plan, items, k - 1, outcome);
      assert items[..k][..k - 1] == items[..k - 1];
      var log, p := PerformAll(plan, items[..k - 1], outcome, []), plan(items[k - 1]);
      AllCallsHas(plan, items, k - 1);
      if p != [] {
        TryAllAmong(p[1..], outcome, Try(p[0], outcome, log), AllCalls(plan, items));
      }
    }
  }

  /** Whatever deliveries failed the first time, replaying the whole stream successfully brings the
      catalog to where a first run without failures would have brought it. */
  lemma ReplayRepairs(plan: Planner, store: Store, items: seq<Item>, outcome: nat -> bool)
    ensures var damaged := Applied(store, PerformAll(plan, items, outcome, []));
            Replay(plan, damaged, items) == Replay(plan, store, items)
  {
    var log := PerformAll(plan, items, outcome, []);
    assert items[..|items|] == items;
    PerformAllAmong(plan, items, |items|, outcome);
    AppliedOnlyKeys(store, log, AllCalls(plan, items));
    WritesForget(Applied(store, log), store, AllCalls(plan, items));
    ReplayIsDelivered(plan, Applied(store, log), items);
    ReplayIsDelivered(plan, store, items);
  }

  /** Replaying a stream changes nothing. */
  lemma ReplayIsIdempotent(plan: Planner, store: Store, items: seq<Item>)
    ensures Replay(plan, Replay(plan, store, items), items) == Replay(plan, store, items)
  {
    var once := Replay(plan, store, items);
    ReplayIsDelivered(plan, store, items);
    ReplayIsDelivered(plan, once, items);
    OnlyKeysChange(store, AllCalls(plan, items));
    WritesForget(once, store, AllCalls(plan, items));
  }

  lemma {:induction false} AppliedAppend(store: Store, xs: seq<Attempt>, a: Attempt)
    ensures Applied(store, xs + [a])
         == if a.ok then Deliver(Applied(store, xs), a.call.data) else Applied(store, xs)
    decreases |xs|
  {
    if xs == [] {
      assert (xs + [a])[1..] == [];
    } else {
      assert (xs + [a])[1..] == xs[1..] + [a];
      AppliedAppend(if xs[0].ok then Deliver(store, xs[0].call.data) else store, xs[1..], a);
    }
  }

  lemma {:induction false} AppliedTryAll(store: Store, calls: seq<Call>, outcome: nat -> bool, log: seq<Attempt>)
    requires forall n :: outcome(n)
    ensures Applied(store, TryAll(calls, outcome, log)) == Delivered(Applied(store, log), calls)
  {
    if calls == [] {
    } else {
      var front, last := calls[..|calls| - 1], calls[|calls| - 1];
      AppliedTryAll(store, front, outcome, log);
      var tried := TryAll(front, outcome, log);
      AppliedAppend(store, tried, Attempt(last, outcome(|tried|)));
      assert calls == front + [last];
      DeliveredAppend(Applied(store, log), front, [last]);
    }
  }

  lemma {:induction false} AllCallsOneMore(plan: Planner, items: seq<Item>, item: Item)
    ensures AllCalls(plan, items + [item]) == AllCalls(plan, items) + plan(item)
  {
    if items == [] {
      assert (items + [item])[1..] == [];
    } else {
      assert (items + [item])[1..] == items[1..] + [item];
      AllCallsOneMore(plan, items[1..], item);
    }
  }

  /** When no call fails, what the pipeline asks the destination amounts to the replay of the stream. */
  lemma {:induction false} PipelineReplays(plan: Planner, store: Store, items: seq<Item>, outcome: nat -> bool)
    requires forall n :: outcome(n)
    ensures Applied(store, PerformAll(plan, items, outcome, [])) == Replay(plan, store, items)
  {
    ReplayIsDelivered(plan, store, items);
    if items == [] {
    } else {
      var front, last := items[..|items| - 1], items[|items| - 1];
      PipelineReplays(plan, store, front, outcome);
      ReplayIsDelivered(plan, store, front);
      assert items == front + [last];
      AllCallsOneMore(plan, front, last);
      DeliveredAppend(store, AllCalls(plan, front), plan(last));
      var log, p := PerformAll(plan, front, outcome, []), plan(last);
      if p != [] {
        AppliedAppend(store, log, Attempt(p[0], outcome(|log|)));
        AppliedTryAll(store, p[1..], outcome, Try(p[0], outcome, log));
      }
    }
  }

  // ---- Items with nothing in common ----

  lemma {:induction false} DeliverPasses(store: Store, c: Call, calls: seq<Call>)
    requires c.data.Key() !in Keys(calls)
    ensures Delivered(Deliver(store, c.data), calls) == Deliver(Delivered(store, calls), c.data)
    decreases |calls|
  {
    if calls == [] {
    } else {
      KeysOfRest(calls);
      assert Deliver(Deliver(store, c.data), calls[0].data) == Deliver(Deliver(store, calls[0].data), c.data);
      DeliverPasses(Deliver(store, calls[0].data), c, calls[1..]);
    }
  }

  lemma {:induction false} CallsCommute(store: Store, xs: seq<Call>, ys: seq<Call>)
    requires Keys(xs) !! Keys(ys)
    ensures Delivered(Delivered(store, xs), ys) == Delivered(Delivered(store, ys), xs)
    decreases |xs|
  {
    if xs == [] {
    } else {
      KeysOfRest(xs);
      CallsCommute(Deliver(store, xs[0].data), xs[1..], ys);
      DeliverPasses(store, xs[0], ys);
    }
  }

  lemma {:induction false} ReplayAppend(plan: Planner, store: Store, xs: seq<Item>, ys: seq<Item>)
    ensures Replay(plan, store, xs + ys) == Replay(plan, Replay(plan, store, xs), ys)
    decreases |xs|
  {
    if xs == [] {
      assert xs + ys == ys;
    } else {
      assert (xs + ys)[1..] == xs[1..] + ys;
      ReplayAppend(plan, Delivered(store, plan(xs[0])), xs[1..], ys);
    }
  }

  /** Neighbouring items that write no common key may be swapped anywhere in a stream. */
  lemma NeighboursCommute(plan: Planner, store: Store, before: seq<Item>, a: Item, b: Item, after: seq<Item>)
    requires Keys(plan(a)) !! Keys(plan(b))
    ensures Replay(plan, store, before + [a, b] + after) == Replay(plan, store, before + [b, a] + after)
  {
    var s := Replay(plan, store, before);
    CallsCommute(s, plan(a), plan(b));
    assert Replay(plan, s, [a, b]) == Replay(plan, s, [b, a]) by {
      assert [a, b][1..] == [b] && [b, a][1..] == [a];
      assert Replay(plan, Delivered(Delivered(s, plan(a)), plan(b)), [b][1..])
          == Delivered(Delivered(s, plan(a)), plan(b));
      assert Replay(plan, Delivered(Delivered(s, plan(b)), plan(a)), [a][1..])
          == Delivered(Delivered(s, plan(b)), plan(a));
    }
    ReplayAppend(plan, store, before, [a, b]);
    ReplayAppend(plan, store, before, [b, a]);
    ReplayAppend(plan, store, before + [a, b], after);
    ReplayAppend(plan, store, before + [b, a], after);
  }
}
