/** What whole runs of the pipeline do to the catalog: with producers that write different keys the schedule
    does not matter, and a run that goes through repairs whatever an earlier one left undone. */
module Schedules {
  import opened Destination
  import opened Pipeline
  import opened Sequences
  import opened Catalog
  import opened PipelineProtocol

  /** Items of different lists write different keys. */
  ghost predicate Independent(plan: Planner, lists: seq<seq<Item>>) {
    forall i, j, a, b | 0 <= i < |lists| && 0 <= j < |lists| && i != j && a in lists[i] && b in lists[j] ::
      Keys(plan(a)) !! Keys(plan(b))
  }

  lemma {:induction false} KeysOfStream(plan: Planner, items: seq<Item>, key: Key)
    ensures key in Keys(AllCalls(plan, items)) <==> exists x | x in items :: key in Keys(plan(x))
  {
    if items == [] {
    } else {
      KeysOfStream(plan, items[1..], key);
      KeysAppend(plan(items[0]), AllCalls(plan, items[1..]));
      hide Keys;
      assert items == [items[0]] + items[1..];
    }
  }

  lemma KeysAppend(xs: seq<Call>, ys: seq<Call>)
    ensures Keys(xs + ys) == Keys(xs) + Keys(ys)
  {
    forall key | key in Keys(xs)
      ensures key in Keys(xs + ys)
    {
      var i :| 0 <= i < |xs| && xs[i].data.Key() == key;
      assert (xs + ys)[i].data.Key() == key;
    }
    forall key | key in Keys(ys)
      ensures key in Keys(xs + ys)
    {
      var i :| 0 <= i < |ys| && ys[i].data.Key() == key;
      assert (xs + ys)[|xs| + i].data.Key() == key;
    }
  }

  /** An item may be delivered before others that write different keys. */
  lemma ItemPasses(plan: Planner, store: Store, before: seq<Item>, x: Item, after: seq<Item>)
    requires forall y | y in after :: Keys(plan(x)) !! Keys(plan(y))
    ensures Replay(plan, store, before + [x] + after) == Replay(plan, store, before + after + [x])
  {
    var start := Replay(plan, store, before);
    forall key | key in Keys(AllCalls(plan, after))
      ensures key !in Keys(plan(x))
    {
      KeysOfStream(plan, after, key);
    }
    CallsCommute(start, plan(x), AllCalls(plan, after));
    ReplayAppend(plan, store, before + [x], after);
    ReplayAppend(plan, store, before, [x]);
    ReplayAppend(plan, store, before + after, [x]);
    ReplayAppend(plan, store, before, after);
    OneItem(plan, start, x);
    OneItem(plan, Replay(plan, start, after), x);
    ReplayIsDelivered(plan, start, after);
    ReplayIsDelivered(plan, Delivered(start, plan(x)), after);
  }

  lemma OneItem(plan: Planner, store: Store, x: Item)
    ensures Replay(plan, store, [x]) == Delivered(store, plan(x))
  {
    assert [x][1..] == [];
  }

  lemma {:induction false} FlattenSplit<T>(lists: seq<seq<T>>, t: nat)
    requires t < |lists|
    ensures Flatten(lists) == Flatten(lists[..t]) + lists[t] + Flatten(lists[t + 1..])
  {
    if t == 0 {
      assert lists[..0] == [];
    } else {
      FlattenSplit(lists[1..], t - 1);
      assert lists[..t][1..] == lists[1..][..t - 1];
      assert lists[1..][t..] == lists[t + 1..];
    }
  }

  lemma {:induction false} FlattenOfEmpty<T>(lists: seq<seq<T>>)
    requires forall i | 0 <= i < |lists| :: lists[i] == []
    ensures Flatten(lists) == []
  {
    if lists == [] {
    } else {
      FlattenOfEmpty(lists[1..]);
    }
  }

  lemma {:induction false} FlattenMembers<T>(lists: seq<seq<T>>, x: T)
    ensures x in Flatten(lists) <==> exists i | 0 <= i < |lists| :: x in lists[i]
  {
    if lists == [] {
    } else {
      FlattenMembers(lists[1..], x);
      assert forall i | 1 <= i < |lists| :: lists[i] == lists[1..][i - 1];
    }
  }

  /** Without its last item an interleaving is one of shorter lists. */
  lemma WithoutLast(xs: seq<Item>, tags: seq<nat>, lists: seq<seq<Item>>)
    returns (shorter: seq<seq<Item>>)
    requires |xs| == |tags| && xs != []
    requires forall k | 0 <= k < |tags| :: tags[k] < |lists|
    requires forall i | 0 <= i < |lists| :: Tagged(xs, tags, i) == lists[i]
    ensures var t := tags[|tags| - 1];
            |shorter| == |lists| && lists == shorter[t := shorter[t] + [xs[|xs| - 1]]]
    ensures forall i | 0 <= i < |shorter| :: Tagged(xs[..|xs| - 1], tags[..|tags| - 1], i) == shorter[i]
  {
    var t := tags[|tags| - 1];
    shorter := lists[t := Tagged(xs[..|xs| - 1], tags[..|tags| - 1], t)];
  }

  lemma ShorterIsIndependent(plan: Planner, lists: seq<seq<Item>>, shorter: seq<seq<Item>>, t: nat,
                             x: Item)
    requires t < |lists| == |shorter| && lists == shorter[t := shorter[t] + [x]]
    requires Independent(plan, lists)
    ensures Independent(plan, shorter)
  {
    assert forall i, a | 0 <= i < |shorter| && a in shorter[i] :: a in lists[i];
    hide Keys;
  }

  /** One more item at the end of one of independent lists might as well come after all of them. */
  lemma LastMayComeLast(plan: Planner, store: Store, lists: seq<seq<Item>>, shorter: seq<seq<Item>>,
                        t: nat, x: Item)
    requires t < |lists| == |shorter| && lists == shorter[t := shorter[t] + [x]]
    requires Independent(plan, lists)
    ensures Replay(plan, store, Flatten(lists)) == Replay(plan, store, Flatten(shorter) + [x])
  {
    FlattenSplit(lists, t);
    FlattenSplit(shorter, t);
    assert lists[..t] == shorter[..t] && lists[t + 1..] == shorter[t + 1..];
    hide Flatten, Replay, Keys;
    var before, after := Flatten(shorter[..t]) + shorter[t], Flatten(shorter[t + 1..]);
    assert Flatten(shorter) == before + after;
    assert Flatten(lists) == before + [x] + after;
    forall y | y in after
      ensures Keys(plan(x)) !! Keys(plan(y))
    {
      FlattenMembers(lists[t + 1..], y);
      var j :| 0 <= j < |lists[t + 1..]| && y in lists[t + 1..][j];
      assert y in lists[t + 1 + j] && x in lists[t];
    }
    ItemPasses(plan, store, before, x, after);
  }

  /** Every interleaving of independent lists has the effect of the lists one after the other. */
  lemma {:induction false} InterleavingsAgree(plan: Planner, store: Store, xs: seq<Item>, tags: seq<nat>,
                                              lists: seq<seq<Item>>)
    requires |xs| == |tags| && Independent(plan, lists)
    requires forall k | 0 <= k < |tags| :: tags[k] < |lists|
    requires forall i | 0 <= i < |lists| :: Tagged(xs, tags, i) == lists[i]
    ensures Replay(plan, store, xs) == Replay(plan, store, Flatten(lists))
    decreases |xs|
  {
    if xs == [] {
      FlattenOfEmpty(lists);
    } else {
      var shorter := WithoutLast(xs, tags, lists);
      hide Replay, Tagged, Flatten, Keys, Independent;
      var front, ftags := xs[..|xs| - 1], tags[..|tags| - 1];
      var x, t := xs[|xs| - 1], tags[|tags| - 1];
      ShorterIsIndependent(plan, lists, shorter, t, x);
      InterleavingsAgree(plan, store, front, ftags, shorter);
      LastMayComeLast(plan, store, lists, shorter, t, x);
      ReplayAppend(plan, store, front, [x]);
      ReplayAppend(plan, store, Flatten(shorter), [x]);
      assert xs == front + [x];
    }
  }

  // ---------------------------------------------------------------------------------------------
  // Whole runs
  // ---------------------------------------------------------------------------------------------

  /** The pipeline has returned, was not cancelled, and no call fails. */
  ghost predicate CleanRun(sys: System, steps: seq<Step>) {
    && Runs(sys, INITIAL, steps)
    && After(sys, INITIAL, steps).returned
    && !After(sys, INITIAL, steps).cancelled
    && forall n :: sys.outcome(n)
  }

  /** The catalog after a run. */
  ghost function CatalogAfter(sys: System, steps: seq<Step>, store: Store): Store
    requires Runs(sys, INITIAL, steps)
  {
    Applied(store, After(sys, INITIAL, steps).attempts)
  }

  /** Whatever the schedule, a clean run of independent producers brings the catalog to where their items,
      one producer after the other, would have brought it. */
  lemma ScheduleDoesNotMatter(sys: System, steps: seq<Step>, store: Store)
    requires CleanRun(sys, steps) && Independent(sys.plan, Programs(steps))
    ensures CatalogAfter(sys, steps, store) == Replay(sys.plan, store, Flatten(Programs(steps)))
  {
    hide Independent, Runs, After, Programs, SentPrograms, Tagged;
    ReturnedPipeline(sys, steps);
    var s := After(sys, INITIAL, steps);
    PipelineReplays(sys.plan, store, s.received, sys.outcome);
    var lists := Programs(steps);
    var tags: seq<nat> :| |tags| == |s.received|
                          && (forall k | 0 <= k < |tags| :: tags[k] < |lists|)
                          && (forall i | 0 <= i < |lists| :: Tagged(s.received, tags, i) == lists[i]);
    InterleavingsAgree(sys.plan, store, s.received, tags, lists);
  }

  lemma {:induction false} TaggedHas(xs: seq<Item>, tags: seq<nat>, k: nat)
    requires |xs| == |tags| && k < |xs|
    ensures xs[k] in Tagged(xs, tags, tags[k])
  {
    if k == |xs| - 1 {
    } else {
      TaggedHas(xs[..|xs| - 1], tags[..|tags| - 1], k);
    }
  }

  /** Everything received is in some producer's program. */
  lemma ReceivedFromPrograms(sys: System, steps: seq<Step>, x: Item)
    requires Runs(sys, INITIAL, steps) && x in After(sys, INITIAL, steps).received
    ensures x in Flatten(Programs(steps))
  {
    hide Runs, After, Flatten, Tagged;
    PipelineProtocol.Reachable(sys, steps);
    var s := After(sys, INITIAL, steps);
    var k :| 0 <= k < |s.received| && s.received[k] == x;
    TaggedHas(s.received, s.senders, k);
    var i := s.senders[k];
    ProducersAreStarted(sys, INITIAL, steps);
    assert x in s.producers[i].program;
    assert Lists(s.producers) == Programs(steps);
    FlattenMembers(Programs(steps), x);
    assert x in Programs(steps)[i];
  }

  /** The attempts with what really reached the catalog, which a cancelled call may misreport. */
  function Landed(attempts: seq<Attempt>, landed: nat -> bool): seq<Attempt> {
    seq(|attempts|, i requires 0 <= i < |attempts| => attempts[i].(ok := landed(i)))
  }

  /** The catalog after a run, whatever the calls reported. */
  ghost function CatalogLeft(sys: System, steps: seq<Step>, landed: nat -> bool, store: Store): Store
    requires Runs(sys, INITIAL, steps)
  {
    Applied(store, Landed(After(sys, INITIAL, steps).attempts, landed))
  }

  /** At any moment of any run the catalog differs from what it was only under keys of the programs. */
  lemma OnlyProgramKeysChange(sys: System, steps: seq<Step>, landed: nat -> bool, store: Store)
    requires Runs(sys, INITIAL, steps)
    ensures AgreeOutside(CatalogLeft(sys, steps, landed, store), store,
                         Keys(AllCalls(sys.plan, Flatten(Programs(steps)))))
  {
    hide Runs, After, Keys, AllCalls, Flatten, Programs, PerformAll, Applied;
    var s := After(sys, INITIAL, steps);
    var all := Flatten(Programs(steps));
    WholeItemsSoFar(sys, steps);
    PerformAllAmong(sys.plan, s.received, |s.received|, sys.outcome);
    assert s.received[..|s.received|] == s.received;
    assert AttemptsAmong(s.attempts, AllCalls(sys.plan, s.received));
    AppliedOnlyKeys(store, Landed(s.attempts, landed), AllCalls(sys.plan, s.received));
    forall key | key in Keys(AllCalls(sys.plan, s.received))
      ensures key in Keys(AllCalls(sys.plan, all))
    {
      KeysOfStream(sys.plan, s.received, key);
      var x :| x in s.received && key in Keys(sys.plan(x));
      ReceivedFromPrograms(sys, steps, x);
      KeysOfStream(sys.plan, all, key);
    }
  }

  /** A first run is interrupted anywhere: cancelled, stuck, half done, with any deliveries failed or
      misreported. A clean run of the same producers, on whatever schedule, then brings the catalog to where
      a single clean run would have brought it. */
  lemma CleanRunRepairs(first: System, interrupted: seq<Step>, landed: nat -> bool,
                        second: System, steps: seq<Step>, store: Store)
    requires Runs(first, INITIAL, interrupted) && CleanRun(second, steps)
    requires first.plan == second.plan && Programs(interrupted) == Programs(steps)
    requires Independent(second.plan, Programs(steps))
    ensures CatalogAfter(second, steps, CatalogLeft(first, interrupted, landed, store))
         == CatalogAfter(second, steps, store)
  {
    hide Runs, After, Keys, AllCalls, Flatten, Programs, Independent, Replay, AgreeOutside;
    var damaged := CatalogLeft(first, interrupted, landed, store);
    var all := Flatten(Programs(steps));
    OnlyProgramKeysChange(first, interrupted, landed, store);
    WritesForget(damaged, store, AllCalls(second.plan, all));
    ScheduleDoesNotMatter(second, steps, damaged);
    ScheduleDoesNotMatter(second, steps, store);
    ReplayIsDelivered(second.plan, damaged, all);
    ReplayIsDelivered(second.plan, store, all);
  }
}
