/** The data pipeline as a protocol: producers, one mapping goroutine, an unbuffered channel, the
    `mappingDone` barrier and a context that may be cancelled at any moment. A schedule is a sequence
    of steps; the lemmas are about every schedule. */
module PipelineProtocol {
  import opened Destination
  import opened Pipeline
  import opened Sequences

  /** How a producer treats the context: `Plain` never looks at it, `Polling` looks between sends,
      `Selecting` also gives up a pending send when the context is cancelled. */
  datatype Mode = Plain | Polling | Selecting

  datatype Phase = Working | Offering | Finished

  /** A goroutine that sends the items of `program` in order and that the close of the channel waits for;
      `sent` of them have been received. */
  datatype Producer = Producer(mode: Mode, program: seq<Item>, sent: nat, phase: Phase)

  /** `Busy(item, made)`: `made` of the calls planned for the item received last have been made. */
  datatype MapperState = Receiving | Busy(item: Item, made: nat) | Exited

  /** `received` logs what crossed the channel and `senders` who sent it. */
  datatype State = State(
    producers: seq<Producer>,
    received: seq<Item>,
    senders: seq<nat>,
    mapper: MapperState,
    attempts: seq<Attempt>,
    cancelled: bool,
    closed: bool,
    mappingDone: bool,
    returned: bool)

  const INITIAL := State([], [], [], Receiving, [], false, false, false, false)

  /** What the steps depend on: the calls planned for an item and the outcome of every call. */
  datatype System = System(plan: Planner, outcome: nat -> bool)

  datatype Step =
    | Spawn(mode: Mode, program: seq<Item>) // a source or a webhook handler starts
    | Cancel
    | Offer(i: nat)                         // producer i reaches its next send
    | Send(i: nat)                          // rendezvous of producer i with the mapper
    | Abandon(i: nat)                       // producer i takes ctx.Done at a send
    | Poll(i: nat)                          // producer i sees the cancelled context between sends
    | Finish(i: nat)
    | Close                                 // dataPipeline has returned: close(channel)
    | Deliver                               // the mapper makes its next call
    | Exhaust                               // the mapper finds the channel closed
    | Leave                                 // the mapper takes ctx.Done
    | SignalDone                            // close(mappingDone)
    | Return                                // runDataPipeline passes the barrier

  /** Steps the program takes by itself. */
  predicate Internal(step: Step) {
    !step.Spawn? && !step.Cancel?
  }

  predicate AllFinished(producers: seq<Producer>) {
    forall i | 0 <= i < |producers| :: producers[i].phase == Finished
  }

  /** No producer is started once the channel is closed, and it is closed when all have finished. */
  predicate Enabled(sys: System, s: State, step: Step) {
    match step
    case Spawn(_, _) => !s.closed
    case Cancel => true
    case Offer(i) =>
      i < |s.producers| && s.producers[i].phase == Working && s.producers[i].sent < |s.producers[i].program|
    case Send(i) =>
      i < |s.producers| && s.producers[i].phase == Offering && s.producers[i].sent < |s.producers[i].program|
      && s.mapper == Receiving && !s.closed
    case Abandon(i) =>
      i < |s.producers| && s.producers[i].phase == Offering && s.producers[i].mode == Selecting && s.cancelled
    case Poll(i) =>
      i < |s.producers| && s.producers[i].phase == Working && s.producers[i].mode != Plain && s.cancelled
    case Finish(i) =>
      i < |s.producers| && s.producers[i].phase == Working && s.producers[i].sent == |s.producers[i].program|
    case Close => !s.closed && AllFinished(s.producers)
    case Deliver => s.mapper.Busy? && s.mapper.made < |sys.plan(s.mapper.item)|
    case Exhaust => s.mapper == Receiving && s.closed
    case Leave => s.mapper == Receiving && s.cancelled
    case SignalDone => s.mapper == Exited && !s.mappingDone
    case Return => s.closed && s.mappingDone && !s.returned
  }

  function WithPhase(s: State, i: nat, phase: Phase): State
    requires i < |s.producers|
  {
    s.(producers := s.producers[i := s.producers[i].(phase := phase)])
  }

  function Apply(sys: System, s: State, step: Step): State
    requires Enabled(sys, s, step)
  {
    match step
    case Spawn(mode, program) => s.(producers := s.producers + [Producer(mode, program, 0, Working)])
    case Cancel => s.(cancelled := true)
    case Offer(i) => WithPhase(s, i, Offering)
    case Send(i) =>
      var p := s.producers[i];
      var item := p.program[p.sent];
      s.(producers := s.producers[i := p.(sent := p.sent + 1, phase := Working)],
         received := s.received + [item],
         senders := s.senders + [i],
         mapper := if sys.plan(item) == [] then Receiving else Busy(item, 0))
    case Abandon(i) => WithPhase(s, i, Finished)
    case Poll(i) => WithPhase(s, i, Finished)
    case Finish(i) => WithPhase(s, i, Finished)
    case Close => s.(closed := true)
    case Deliver =>
      var Busy(item, made) := s.mapper;
      var ok := sys.outcome(|s.attempts|);
      s.(attempts := s.attempts + [Attempt(sys.plan(item)[made], ok)],
         mapper := if made + 1 == |sys.plan(item)| || (made == 0 && !ok) then Receiving else Busy(item, made + 1))
    case Exhaust => s.(mapper := Exited)
    case Leave => s.(mapper := Exited)
    case SignalDone => s.(mappingDone := true)
    case Return => s.(returned := true)
  }

  predicate Runs(sys: System, s: State, steps: seq<Step>)
    decreases |steps|
  {
    steps == [] || (Enabled(sys, s, steps[0]) && Runs(sys, Apply(sys, s, steps[0]), steps[1..]))
  }

  function After(sys: System, s: State, steps: seq<Step>): State
    requires Runs(sys, s, steps)
    decreases |steps|
  {
    if steps == [] then s else After(sys, Apply(sys, s, steps[0]), steps[1..])
  }

  // ---- What every step keeps ----

  /** The items whose calls have all been made (or given up). */
  function Settled(s: State): seq<Item> {
    if s.mapper.Busy? && s.received != [] then s.received[..|s.received| - 1] else s.received
  }

  /** The log once the settled items are done with. */
  function SettledLog(sys: System, s: State): seq<Attempt> {
    PerformAll(sys.plan, Settled(s), sys.outcome, [])
  }

  /** The destination has seen the whole effects of the settled items, and of the item the mapper is
      busy with only the first `made` calls. */
  ghost predicate CallsInv(sys: System, s: State) {
    if s.mapper.Busy? then
      var Busy(item, made) := s.mapper;
      var plan, log := sys.plan(item), SettledLog(sys, s);
      && s.received != [] && s.received[|s.received| - 1] == item
      && made < |plan|
      && (made == 0 ==> s.attempts == log)
      && (made > 0 ==>
            && sys.outcome(|log|)
            && s.attempts == TryAll(plan[1..made], sys.outcome, Try(plan[0], sys.outcome, log)))
    else s.attempts == SettledLog(sys, s)
  }

  /** What producer i sent is the beginning of its program; only a producer that looks at the context
      may finish before the end, and only under cancellation. */
  ghost predicate ProducersInv(s: State) {
    && |s.senders| == |s.received|
    && (forall k | 0 <= k < |s.senders| :: s.senders[k] < |s.producers|)
    && (forall i | 0 <= i < |s.producers| ::
          && s.producers[i].sent <= |s.producers[i].program|
          && Tagged(s.received, s.senders, i) == s.producers[i].program[..s.producers[i].sent])
    && (forall i | 0 <= i < |s.producers| ::
          && (s.producers[i].phase == Offering ==> s.producers[i].sent < |s.producers[i].program|)
          && (s.producers[i].phase == Finished && s.producers[i].sent < |s.producers[i].program| ==>
                s.cancelled && s.producers[i].mode != Plain))
  }

  ghost predicate ControlInv(s: State) {
    && (s.closed ==> AllFinished(s.producers))
    && (s.mapper == Exited ==> s.closed || s.cancelled)
    && (s.mappingDone ==> s.mapper == Exited)
    && (s.returned ==> s.closed && s.mappingDone)
  }

  ghost predicate Inv(sys: System, s: State) {
    CallsInv(sys, s) && ProducersInv(s) && ControlInv(s)
  }

  lemma SendKeepsCalls(sys: System, s: State, i: nat)
    requires CallsInv(sys, s) && Enabled(sys, s, Send(i))
    ensures CallsInv(sys, Apply(sys, s, Send(i)))
  {
    var item := s.producers[i].program[s.producers[i].sent];
    assert (s.received + [item])[..|s.received|] == s.received;
    PerformOneMore(sys.plan, s.received, item, sys.outcome, []);
  }

  /** An item's own call: it settles the item when it fails and when there are no extras. */
  lemma MainCall(plan: seq<Call>, outcome: nat -> bool, log: seq<Attempt>)
    requires plan != []
    ensures !outcome(|log|) || |plan| == 1 ==> Perform(plan, outcome, log) == Try(plan[0], outcome, log)
    ensures TryAll(plan[1..1], outcome, Try(plan[0], outcome, log)) == Try(plan[0], outcome, log)
  {
  }

  /** The call of one more extra: it settles the item when it is the last. */
  lemma ExtraCall(plan: seq<Call>, made: nat, outcome: nat -> bool, log: seq<Attempt>)
    requires 0 < made < |plan| && outcome(|log|)
    ensures var tried := TryAll(plan[1..made], outcome, Try(plan[0], outcome, log));
            && TryAll(plan[1..made + 1], outcome, Try(plan[0], outcome, log)) == Try(plan[made], outcome, tried)
            && (made + 1 == |plan| ==> Perform(plan, outcome, log) == Try(plan[made], outcome, tried))
  {
    var extras := plan[1..];
    TryOneMore(extras, made - 1, outcome, Try(plan[0], outcome, log));
    assert extras[..made - 1] == plan[1..made] && extras[..made] == plan[1..made + 1];
    assert extras[..|extras|] == extras;
  }

  lemma DeliverKeepsCalls(sys: System, s: State)
    requires CallsInv(sys, s) && Enabled(sys, s, Deliver)
    ensures CallsInv(sys, Apply(sys, s, Deliver))
  {
    hide PerformAll, Perform, TryAll;
    var Busy(item, made) := s.mapper;
    var plan, log := sys.plan(item), SettledLog(sys, s);
    assert s.received == Settled(s) + [item];
    PerformOneMore(sys.plan, Settled(s), item, sys.outcome, []);
    if made == 0 {
      MainCall(plan, sys.outcome, log);
    } else {
      ExtraCall(plan, made, sys.outcome, log);
    }
  }

  lemma TaggedOneMore(xs: seq<Item>, tags: seq<nat>, x: Item, t: nat, i: nat)
    requires |xs| == |tags|
    ensures Tagged(xs + [x], tags + [t], i) == Tagged(xs, tags, i) + if t == i then [x] else []
  {
    assert (xs + [x])[..|xs|] == xs && (tags + [t])[..|tags|] == tags;
  }

  lemma {:induction false} TaggedUnused(xs: seq<Item>, tags: seq<nat>, t: nat)
    requires |xs| == |tags|
    requires forall k | 0 <= k < |tags| :: tags[k] != t
    ensures Tagged(xs, tags, t) == []
  {
    if xs == [] {
    } else {
      TaggedUnused(xs[..|xs| - 1], tags[..|tags| - 1], t);
    }
  }

  lemma SendKeepsProducers(sys: System, s: State, j: nat)
    requires ProducersInv(s) && Enabled(sys, s, Send(j))
    ensures ProducersInv(Apply(sys, s, Send(j)))
  {
    hide Tagged;
    var p := s.producers[j];
    var item := p.program[p.sent];
    var t := Apply(sys, s, Send(j));
    forall i | 0 <= i < |t.producers|
      ensures Tagged(t.received, t.senders, i) == t.producers[i].program[..t.producers[i].sent]
    {
      TaggedOneMore(s.received, s.senders, item, j, i);
      assert p.program[..p.sent + 1] == p.program[..p.sent] + [item];
    }
  }

  lemma SpawnKeepsProducers(sys: System, s: State, mode: Mode, program: seq<Item>)
    requires ProducersInv(s) && Enabled(sys, s, Spawn(mode, program))
    ensures ProducersInv(Apply(sys, s, Spawn(mode, program)))
  {
    TaggedUnused(s.received, s.senders, |s.producers|);
    assert program[..0] == [];
  }

  lemma StepKeepsCalls(sys: System, s: State, step: Step)
    requires CallsInv(sys, s) && Enabled(sys, s, step)
    ensures CallsInv(sys, Apply(sys, s, step))
  {
    hide PerformAll, Perform, TryAll;
    match step
    case Send(i) => SendKeepsCalls(sys, s, i);
    case Deliver => DeliverKeepsCalls(sys, s);
    case _ =>
  }

  lemma PhaseKeepsProducers(s: State, i: nat, phase: Phase)
    requires ProducersInv(s) && i < |s.producers|
    requires phase == Offering ==> s.producers[i].sent < |s.producers[i].program|
    requires phase == Finished && s.producers[i].sent < |s.producers[i].program| ==>
               s.cancelled && s.producers[i].mode != Plain
    ensures ProducersInv(WithPhase(s, i, phase))
  {
    hide Tagged;
  }

  lemma OthersKeepProducers(s: State, t: State)
    requires ProducersInv(s)
    requires t.producers == s.producers && t.received == s.received && t.senders == s.senders
    requires s.cancelled ==> t.cancelled
    ensures ProducersInv(t)
  {
    hide Tagged;
  }

  lemma StepKeepsProducers(sys: System, s: State, step: Step)
    requires ProducersInv(s) && Enabled(sys, s, step)
    ensures ProducersInv(Apply(sys, s, step))
  {
    hide ProducersInv;
    match step
    case Spawn(mode, program) => SpawnKeepsProducers(sys, s, mode, program);
    case Offer(i) => PhaseKeepsProducers(s, i, Offering);
    case Send(i) => SendKeepsProducers(sys, s, i);
    case Abandon(i) => PhaseKeepsProducers(s, i, Finished);
    case Poll(i) => PhaseKeepsProducers(s, i, Finished);
    case Finish(i) => PhaseKeepsProducers(s, i, Finished);
    case _ => OthersKeepProducers(s, Apply(sys, s, step));
  }

  lemma StepKeepsControl(sys: System, s: State, step: Step)
    requires ControlInv(s) && Enabled(sys, s, step)
    ensures ControlInv(Apply(sys, s, step))
  {
  }

  lemma StepKeepsInv(sys: System, s: State, step: Step)
    requires Inv(sys, s) && Enabled(sys, s, step)
    ensures Inv(sys, Apply(sys, s, step))
  {
    hide Apply, Enabled, CallsInv, ProducersInv, ControlInv;
    StepKeepsCalls(sys, s, step);
    StepKeepsProducers(sys, s, step);
    StepKeepsControl(sys, s, step);
  }

  lemma {:induction false} RunKeepsInv(sys: System, s: State, steps: seq<Step>)
    requires Inv(sys, s) && Runs(sys, s, steps)
    ensures Inv(sys, After(sys, s, steps))
    decreases |steps|
  {
    if steps == [] {
    } else {
      StepKeepsInv(sys, s, steps[0]);
      RunKeepsInv(sys, Apply(sys, s, steps[0]), steps[1..]);
    }
  }

  lemma Reachable(sys: System, steps: seq<Step>)
    requires Runs(sys, INITIAL, steps)
    ensures Inv(sys, After(sys, INITIAL, steps))
  {
    RunKeepsInv(sys, INITIAL, steps);
  }

  // ---- What the destination has seen ----

  /** The lists of the producers started, in the order of their starts. */
  function Programs(steps: seq<Step>): seq<seq<Item>> {
    if steps == [] then []
    else (if steps[0].Spawn? then [steps[0].program] else []) + Programs(steps[1..])
  }

  /** How they treat the context. */
  function Modes(steps: seq<Step>): seq<Mode> {
    if steps == [] then []
    else (if steps[0].Spawn? then [steps[0].mode] else []) + Modes(steps[1..])
  }

  function Lists(producers: seq<Producer>): seq<seq<Item>> {
    seq(|producers|, i requires 0 <= i < |producers| => producers[i].program)
  }

  function ModesOf(producers: seq<Producer>): seq<Mode> {
    seq(|producers|, i requires 0 <= i < |producers| => producers[i].mode)
  }

  lemma UpdateKeepsLists(producers: seq<Producer>, i: nat, p: Producer)
    requires i < |producers| && p.program == producers[i].program && p.mode == producers[i].mode
    ensures Lists(producers[i := p]) == Lists(producers) && ModesOf(producers[i := p]) == ModesOf(producers)
  {
  }

  lemma StartAddsList(producers: seq<Producer>, p: Producer)
    ensures Lists(producers + [p]) == Lists(producers) + [p.program]
    ensures ModesOf(producers + [p]) == ModesOf(producers) + [p.mode]
  {
  }

  lemma StepKeepsLists(sys: System, s: State, step: Step)
    requires Enabled(sys, s, step)
    ensures var t := Apply(sys, s, step);
            && Lists(t.producers) == Lists(s.producers) + Programs([step])
            && ModesOf(t.producers) == ModesOf(s.producers) + Modes([step])
  {
    hide Lists, ModesOf;
    assert [step][1..] == [];
    var t := Apply(sys, s, step);
    match step
    case Spawn(mode, program) => StartAddsList(s.producers, t.producers[|s.producers|]);
    case Offer(i) => UpdateKeepsLists(s.producers, i, t.producers[i]);
    case Send(i) => UpdateKeepsLists(s.producers, i, t.producers[i]);
    case Abandon(i) => UpdateKeepsLists(s.producers, i, t.producers[i]);
    case Poll(i) => UpdateKeepsLists(s.producers, i, t.producers[i]);
    case Finish(i) => UpdateKeepsLists(s.producers, i, t.producers[i]);
    case _ =>
  }

  /** The producers of a run are those its steps have started, with their lists, whatever they have sent. */
  lemma {:induction false} ProducersAreStarted(sys: System, s: State, steps: seq<Step>)
    requires Runs(sys, s, steps)
    ensures Lists(After(sys, s, steps).producers) == Lists(s.producers) + Programs(steps)
    ensures ModesOf(After(sys, s, steps).producers) == ModesOf(s.producers) + Modes(steps)
    decreases |steps|
  {
    if steps == [] {
    } else {
      FirstStep(steps);
      hide Lists, ModesOf, Enabled, Apply, Programs, Modes;
      ProducersAreStarted(sys, Apply(sys, s, steps[0]), steps[1..]);
      StepKeepsLists(sys, s, steps[0]);
      Reassociate(Lists(s.producers), Programs([steps[0]]), Programs(steps[1..]));
      Reassociate(ModesOf(s.producers), Modes([steps[0]]), Modes(steps[1..]));
    }
  }

  lemma FirstStep(steps: seq<Step>)
    requires steps != []
    ensures Programs(steps) == Programs([steps[0]]) + Programs(steps[1..])
    ensures Modes(steps) == Modes([steps[0]]) + Modes(steps[1..])
  {
    ListOfOne(steps[0]);
  }

  lemma ListOfOne(step: Step)
    ensures Programs([step]) == if step.Spawn? then [step.program] else []
    ensures Modes([step]) == if step.Spawn? then [step.mode] else []
  {
    assert [step][1..] == [];
  }

  lemma Reassociate<T>(xs: seq<T>, ys: seq<T>, zs: seq<T>)
    ensures xs + ys + zs == xs + (ys + zs)
  {
  }

  function SentPrograms(producers: seq<Producer>): seq<seq<Item>> {
    seq(|producers|, i requires 0 <= i < |producers| =>
      if producers[i].sent <= |producers[i].program| then producers[i].program[..producers[i].sent]
      else producers[i].program)
  }

  lemma SentInterleave(s: State)
    requires ProducersInv(s)
    ensures Interleaves(s.received, SentPrograms(s.producers))
  {
    forall i | 0 <= i < |s.producers|
      ensures Tagged(s.received, s.senders, i) == SentPrograms(s.producers)[i]
    {
    }
  }

  /** Each list is the beginning of one of the programs. */
  ghost predicate Beginnings(lists: seq<seq<Item>>, programs: seq<seq<Item>>) {
    |lists| == |programs| && forall i | 0 <= i < |lists| :: lists[i] <= programs[i]
  }

  /** What the producers have sent, on any run. */
  lemma SentAreBeginnings(sys: System, steps: seq<Step>)
    requires Runs(sys, INITIAL, steps)
    ensures var s := After(sys, INITIAL, steps);
            && |Programs(steps)| == |Modes(steps)|
            && Beginnings(SentPrograms(s.producers), Programs(steps))
            && Interleaves(s.received, SentPrograms(s.producers))
  {
    hide Runs, After, Programs, Modes, Tagged;
    Reachable(sys, steps);
    ProducersAreStarted(sys, INITIAL, steps);
    var s := After(sys, INITIAL, steps);
    assert Lists(s.producers) == Programs(steps) && ModesOf(s.producers) == Modes(steps);
    SentInterleave(s);
  }

  /** The lists of the producers that never look at the context are whole. */
  ghost predicate WholeWherePlain(lists: seq<seq<Item>>, programs: seq<seq<Item>>, modes: seq<Mode>)
    requires |lists| == |programs| == |modes|
  {
    forall i | 0 <= i < |lists| && modes[i] == Plain :: lists[i] == programs[i]
  }

  /** On every schedule, cancelled or not, when the pipeline returns the destination has been asked for
      the effect of every item sent, whole and in the order of the sends, and for nothing else. What was
      sent interleaves beginnings of the lists of the producers started: the whole lists of all that never look at
      the context, and without cancellation the whole lists of all. */
  lemma ReturnedPipeline(sys: System, steps: seq<Step>)
    requires Runs(sys, INITIAL, steps) && After(sys, INITIAL, steps).returned
    ensures var s := After(sys, INITIAL, steps);
            && s.attempts == PerformAll(sys.plan, s.received, sys.outcome, [])
            && |Programs(steps)| == |Modes(steps)|
            && (exists lists | Beginnings(lists, Programs(steps)) ::
                  WholeWherePlain(lists, Programs(steps), Modes(steps)) && Interleaves(s.received, lists))
            && (!s.cancelled ==> Interleaves(s.received, Programs(steps)))
  {
    hide Runs, After, Programs, Modes, PerformAll, Interleaves;
    Reachable(sys, steps);
    ProducersAreStarted(sys, INITIAL, steps);
    SentAreBeginnings(sys, steps);
    var s := After(sys, INITIAL, steps);
    assert Lists(s.producers) == Programs(steps) && ModesOf(s.producers) == Modes(steps);
    var lists := SentPrograms(s.producers);
    forall i | 0 <= i < |lists| && (Modes(steps)[i] == Plain || !s.cancelled)
      ensures lists[i] == Programs(steps)[i]
    {
      assert s.producers[i].phase == Finished && s.producers[i].sent == |s.producers[i].program|;
    }
    if !s.cancelled {
      assert lists == Programs(steps);
    }
  }

  lemma {:induction false} TryAllExtends(calls: seq<Call>, k: nat, outcome: nat -> bool, log: seq<Attempt>)
    requires k <= |calls|
    ensures log <= TryAll(calls[..k], outcome, log) <= TryAll(calls, outcome, log)
  {
    if k == |calls| {
      assert calls[..k] == calls;
      if k > 0 {
        TryAllExtends(calls[..k - 1], k - 1, outcome, log);
        assert calls[..k - 1][..k - 1] == calls[..k - 1];
      }
    } else {
      TryAllExtends(calls[..|calls| - 1], k, outcome, log);
      assert calls[..|calls| - 1][..k] == calls[..k];
    }
  }

  /** At every moment, before the return included, at most the item received last is half done: the
      calls made extend the effects of the settled items and are the first calls of the effects of
      everything received. */
  lemma WholeItemsSoFar(sys: System, steps: seq<Step>)
    requires Runs(sys, INITIAL, steps)
    ensures var s := After(sys, INITIAL, steps);
            && |s.received| - 1 <= |Settled(s)| && Settled(s) <= s.received
            && SettledLog(sys, s) <= s.attempts <= PerformAll(sys.plan, s.received, sys.outcome, [])
            && exists lists | Beginnings(lists, Programs(steps)) :: Interleaves(s.received, lists)
  {
    hide PerformAll, TryAll, Tagged;
    Reachable(sys, steps);
    SentAreBeginnings(sys, steps);
    var s := After(sys, INITIAL, steps);
    if s.mapper.Busy? {
      var Busy(item, made) := s.mapper;
      var plan, log := sys.plan(item), SettledLog(sys, s);
      assert s.received == Settled(s) + [item];
      PerformOneMore(sys.plan, Settled(s), item, sys.outcome, []);
      TryAllExtends(plan[1..], if made > 0 then made - 1 else 0, sys.outcome, Try(plan[0], sys.outcome, log));
      assert made > 0 ==> plan[1..][..made - 1] == plan[1..made];
    }
  }

  /** Once the pipeline has returned nothing more reaches the destination. */
  lemma {:induction false} NothingAfterReturn(sys: System, s: State, steps: seq<Step>)
    requires Inv(sys, s) && s.returned && Runs(sys, s, steps)
    ensures After(sys, s, steps).attempts == s.attempts && After(sys, s, steps).received == s.received
    decreases |steps|
  {
    if steps == [] {
    } else {
      StepKeepsInv(sys, s, steps[0]);
      NothingAfterReturn(sys, Apply(sys, s, steps[0]), steps[1..]);
    }
  }

  // ---- Progress ----

  /** The program can do nothing by itself. */
  ghost predicate Stuck(sys: System, s: State) {
    forall step | Internal(step) :: !Enabled(sys, s, step)
  }

  /** A send that waits for a mapper that is gone and does not look at the context. */
  predicate Blocked(p: Producer) {
    p.phase == Offering && p.mode != Selecting
  }

  /** The mapper has left, every producer that has not finished waits in a send that ignores the
      context, and there is one. */
  ghost predicate Deadlocked(s: State) {
    && s.mappingDone
    && (forall i | 0 <= i < |s.producers| :: s.producers[i].phase == Finished || Blocked(s.producers[i]))
    && (exists i | 0 <= i < |s.producers| :: Blocked(s.producers[i]))
  }

  lemma StuckMapper(sys: System, s: State)
    requires Inv(sys, s) && Stuck(sys, s) && !AllFinished(s.producers)
    ensures s.mapper == Receiving || s.mappingDone
    ensures s.mapper == Receiving ==> !s.closed && !s.cancelled
  {
    assert !Enabled(sys, s, Deliver) && !Enabled(sys, s, SignalDone) && !Enabled(sys, s, Leave);
  }

  lemma StuckProducer(sys: System, s: State, i: nat)
    requires Inv(sys, s) && Stuck(sys, s) && i < |s.producers| && s.producers[i].phase != Finished
    ensures s.mappingDone && Blocked(s.producers[i])
  {
    StuckMapper(sys, s);
    assert !Enabled(sys, s, Offer(i)) && !Enabled(sys, s, Finish(i));
    assert !Enabled(sys, s, Send(i)) && !Enabled(sys, s, Abandon(i));
  }

  lemma StuckAtTheEnd(sys: System, s: State)
    requires Inv(sys, s) && Stuck(sys, s) && AllFinished(s.producers)
    ensures s.returned
  {
    assert !Enabled(sys, s, Close) && !Enabled(sys, s, Exhaust) && !Enabled(sys, s, Deliver);
    assert !Enabled(sys, s, SignalDone) && !Enabled(sys, s, Return);
  }

  /** A pipeline that has not returned is stuck exactly when it is deadlocked. */
  lemma StuckIff(sys: System, s: State)
    requires Inv(sys, s) && !s.returned
    ensures Stuck(sys, s) <==> Deadlocked(s)
  {
    if Stuck(sys, s) {
      if AllFinished(s.producers) {
        StuckAtTheEnd(sys, s);
      }
      forall i | 0 <= i < |s.producers| && s.producers[i].phase != Finished
        ensures s.mappingDone && Blocked(s.producers[i])
      {
        StuckProducer(sys, s, i);
      }
    }
  }

  /** A producer that has something left to send and does not look at the context while it does. */
  predicate AtRisk(p: Producer) {
    p.phase != Finished && p.mode != Selecting && p.sent < |p.program|
  }

  /** The context is not cancelled, or no producer is at risk. */
  ghost predicate Cooperative(s: State) {
    !s.cancelled || forall i | 0 <= i < |s.producers| :: !AtRisk(s.producers[i])
  }

  /** Such a pipeline is never stuck before it returns. */
  lemma NoDeadlock(sys: System, s: State)
    requires Inv(sys, s) && Cooperative(s)
    ensures Stuck(sys, s) ==> s.returned
  {
    if Stuck(sys, s) && !s.returned {
      StuckIff(sys, s);
    }
  }

  lemma StepKeepsCooperative(sys: System, s: State, step: Step)
    requires Cooperative(s) && Internal(step) && Enabled(sys, s, step)
    ensures Cooperative(Apply(sys, s, step))
  {
  }

  lemma OneStep(sys: System, s: State, step: Step)
    requires Enabled(sys, s, step)
    ensures Runs(sys, s, [step]) && After(sys, s, [step]) == Apply(sys, s, step)
  {
    assert [step][1..] == [];
  }

  lemma RunFrom(sys: System, s: State, step: Step, rest: seq<Step>)
    requires Enabled(sys, s, step) && Runs(sys, Apply(sys, s, step), rest)
    ensures Runs(sys, s, [step] + rest)
    ensures After(sys, s, [step] + rest) == After(sys, Apply(sys, s, step), rest)
  {
    assert ([step] + rest)[1..] == rest;
  }

  /** A producer with something left to send can give up exactly under cancellation: between two sends where it
      looks at the context there, at a send only where it selects on it. */
  lemma MayGiveUpIff(sys: System, s: State, i: nat)
    requires i < |s.producers| && s.producers[i].sent < |s.producers[i].program| && s.producers[i].phase != Finished
    ensures (exists step | Internal(step) && Enabled(sys, s, step) ::
               i < |Apply(sys, s, step).producers| && Apply(sys, s, step).producers[i].phase == Finished)
       <==> s.cancelled && if s.producers[i].phase == Working then s.producers[i].mode != Plain
                           else s.producers[i].mode == Selecting
  {
    if Enabled(sys, s, Poll(i)) {
      assert Apply(sys, s, Poll(i)).producers[i].phase == Finished;
    }
    if Enabled(sys, s, Abandon(i)) {
      assert Apply(sys, s, Abandon(i)).producers[i].phase == Finished;
    }
  }

  /** A send that ignores the context is never answered once the mapper has left. */
  lemma {:induction false} BlockedForEver(sys: System, s: State, i: nat, steps: seq<Step>)
    requires Inv(sys, s) && Runs(sys, s, steps)
    requires s.mapper == Exited && i < |s.producers| && Blocked(s.producers[i])
    ensures !After(sys, s, steps).returned
    decreases |steps|
  {
    if steps == [] {
    } else {
      StepKeepsInv(sys, s, steps[0]);
      BlockedForEver(sys, Apply(sys, s, steps[0]), i, steps[1..]);
    }
  }

  // ---- Termination ----

  /** An upper bound on the steps an unsent item can still cause. */
  function TodoCost(plan: Planner, items: seq<Item>): nat {
    if items == [] then 0 else |plan(items[0])| + 4 + TodoCost(plan, items[1..])
  }

  function ProducerCost(plan: Planner, p: Producer): nat {
    (match p.phase case Working => 2 case Offering => 1 case Finished => 0)
    + if p.sent <= |p.program| then TodoCost(plan, p.program[p.sent..]) else 0
  }

  function ProducersCost(plan: Planner, ps: seq<Producer>): nat {
    if ps == [] then 0 else ProducerCost(plan, ps[0]) + ProducersCost(plan, ps[1..])
  }

  function MapperCost(plan: Planner, m: MapperState): nat {
    match m
    case Receiving => 1
    case Busy(item, made) => if made <= |plan(item)| then 2 + |plan(item)| - made else 2
    case Exited => 0
  }

  function Measure(sys: System, s: State): nat {
    ProducersCost(sys.plan, s.producers) + MapperCost(sys.plan, s.mapper)
    + (if s.closed then 0 else 1) + (if s.mappingDone then 0 else 1) + (if s.returned then 0 else 1)
  }

  lemma {:induction false} CostOfUpdate(plan: Planner, ps: seq<Producer>, i: nat, p: Producer)
    requires i < |ps|
    ensures ProducersCost(plan, ps[i := p])
         == ProducersCost(plan, ps) - ProducerCost(plan, ps[i]) + ProducerCost(plan, p)
  {
    if i == 0 {
      assert ps[0 := p][1..] == ps[1..];
    } else {
      CostOfUpdate(plan, ps[1..], i - 1, p);
      assert ps[i := p][1..] == ps[1..][i - 1 := p];
    }
  }

  lemma PhaseStepDecreases(sys: System, s: State, i: nat, phase: Phase)
    requires i < |s.producers|
    requires ProducerCost(sys.plan, s.producers[i].(phase := phase)) < ProducerCost(sys.plan, s.producers[i])
    ensures Measure(sys, WithPhase(s, i, phase)) < Measure(sys, s)
  {
    CostOfUpdate(sys.plan, s.producers, i, s.producers[i].(phase := phase));
  }

  lemma SendDecreases(sys: System, s: State, i: nat)
    requires Inv(sys, s) && Enabled(sys, s, Send(i))
    ensures Measure(sys, Apply(sys, s, Send(i))) < Measure(sys, s)
  {
    var p := s.producers[i];
    CostOfUpdate(sys.plan, s.producers, i, p.(sent := p.sent + 1, phase := Working));
    assert p.program[p.sent..][1..] == p.program[p.sent + 1..];
  }

  lemma InternalStepDecreases(sys: System, s: State, step: Step)
    requires Inv(sys, s) && Internal(step) && Enabled(sys, s, step)
    ensures Measure(sys, Apply(sys, s, step)) < Measure(sys, s)
  {
    match step
    case Offer(i) => PhaseStepDecreases(sys, s, i, Offering);
    case Abandon(i) => PhaseStepDecreases(sys, s, i, Finished);
    case Poll(i) => PhaseStepDecreases(sys, s, i, Finished);
    case Finish(i) => PhaseStepDecreases(sys, s, i, Finished);
    case Send(i) => SendDecreases(sys, s, i);
    case _ =>
  }

  /** Without new producers the program takes a bounded number of steps: every schedule ends, in a state
      where nothing is left to do. With `NoDeadlock`, it ends with the return of the pipeline. */
  lemma {:induction false} RunsAreBounded(sys: System, s: State, steps: seq<Step>)
    requires Inv(sys, s) && Runs(sys, s, steps)
    requires forall k | 0 <= k < |steps| :: Internal(steps[k])
    ensures |steps| + Measure(sys, After(sys, s, steps)) <= Measure(sys, s)
    decreases |steps|
  {
    if steps == [] {
    } else {
      StepKeepsInv(sys, s, steps[0]);
      InternalStepDecreases(sys, s, steps[0]);
      RunsAreBounded(sys, Apply(sys, s, steps[0]), steps[1..]);
    }
  }

  /** From every reachable state of a cooperative pipeline the steps of the program alone lead to the
      return, and every schedule of them that cannot be prolonged has led there. */
  lemma {:induction false} PipelineReturns(sys: System, s: State) returns (more: seq<Step>)
    requires Inv(sys, s) && Cooperative(s)
    ensures Runs(sys, s, more) && (forall k | 0 <= k < |more| :: Internal(more[k]))
    ensures After(sys, s, more).returned
    decreases Measure(sys, s)
  {
    if s.returned {
      more := [];
    } else {
      NoDeadlock(sys, s);
      var step :| Internal(step) && Enabled(sys, s, step);
      StepKeepsInv(sys, s, step);
      InternalStepDecreases(sys, s, step);
      StepKeepsCooperative(sys, s, step);
      var rest := PipelineReturns(sys, Apply(sys, s, step));
      RunFrom(sys, s, step, rest);
      more := [step] + rest;
    }
  }

  lemma {:induction false} MaximalRunReturns(sys: System, s: State, steps: seq<Step>)
    requires Inv(sys, s) && Cooperative(s) && Runs(sys, s, steps)
    requires forall k | 0 <= k < |steps| :: Internal(steps[k])
    requires Stuck(sys, After(sys, s, steps))
    ensures After(sys, s, steps).returned
    decreases |steps|
  {
    if steps == [] {
      NoDeadlock(sys, s);
    } else {
      StepKeepsInv(sys, s, steps[0]);
      StepKeepsCooperative(sys, s, steps[0]);
      MaximalRunReturns(sys, Apply(sys, s, steps[0]), steps[1..]);
    }
  }

  // ---- Cancellation ----

  lemma {:induction false} RunAppend(sys: System, s: State, xs: seq<Step>, ys: seq<Step>)
    requires Runs(sys, s, xs) && Runs(sys, After(sys, s, xs), ys)
    ensures Runs(sys, s, xs + ys) && After(sys, s, xs + ys) == After(sys, After(sys, s, xs), ys)
    decreases |xs|
  {
    if xs == [] {
      assert xs + ys == ys;
    } else {
      assert (xs + ys)[1..] == xs[1..] + ys;
      RunAppend(sys, Apply(sys, s, xs[0]), xs[1..], ys);
    }
  }

  /** The program's own steps lead to a state where nothing is left to do. */
  lemma {:induction false} RunsToTheEnd(sys: System, s: State) returns (more: seq<Step>)
    requires Inv(sys, s)
    ensures Runs(sys, s, more) && (forall k | 0 <= k < |more| :: Internal(more[k]))
    ensures Stuck(sys, After(sys, s, more))
    decreases Measure(sys, s)
  {
    if Stuck(sys, s) {
      more := [];
    } else {
      var step :| Internal(step) && Enabled(sys, s, step);
      StepKeepsInv(sys, s, step);
      InternalStepDecreases(sys, s, step);
      var rest := RunsToTheEnd(sys, Apply(sys, s, step));
      RunFrom(sys, s, step, rest);
      more := [step] + rest;
    }
  }

  /** Steps of the program itself and cancellations. */
  ghost predicate OwnOrCancel(steps: seq<Step>) {
    forall k | 0 <= k < |steps| :: Internal(steps[k]) || steps[k] == Cancel
  }

  /** Nothing is left to do, and whatever happens the pipeline does not return. */
  ghost predicate Hangs(sys: System, s: State) {
    Stuck(sys, s) && forall more: seq<Step> | Runs(sys, s, more) :: !After(sys, s, more).returned
  }

  /** A cancelled mapper that finishes its item and then leaves, while the producers do nothing. */
  lemma {:induction false} MapperLeaves(sys: System, s: State) returns (steps: seq<Step>)
    requires Inv(sys, s) && s.cancelled && !s.closed
    ensures Runs(sys, s, steps) && OwnOrCancel(steps)
    ensures After(sys, s, steps).mapper == Exited && After(sys, s, steps).producers == s.producers
    decreases MapperCost(sys.plan, s.mapper)
  {
    if s.mapper == Exited {
      steps := [];
    } else {
      var step := if s.mapper == Receiving then Leave else Step.Deliver;
      StepKeepsInv(sys, s, step);
      var rest := MapperLeaves(sys, Apply(sys, s, step));
      RunFrom(sys, s, step, rest);
      steps := [step] + rest;
    }
  }

  /** A producer at risk reaches its next send and is cancelled there. */
  lemma BlocksUnderCancellation(sys: System, s: State, i: nat) returns (steps: seq<Step>)
    requires Inv(sys, s) && i < |s.producers| && AtRisk(s.producers[i])
    ensures Runs(sys, s, steps) && OwnOrCancel(steps)
    ensures var t := After(sys, s, steps);
            Inv(sys, t) && t.cancelled && !t.closed && i < |t.producers| && Blocked(t.producers[i])
  {
    hide CallsInv, ProducersInv, Runs, After;
    if s.producers[i].phase == Working {
      var offered := Apply(sys, s, Offer(i));
      StepKeepsInv(sys, s, Offer(i));
      StepKeepsInv(sys, offered, Cancel);
      OneStep(sys, offered, Cancel);
      RunFrom(sys, s, Offer(i), [Cancel]);
      steps := [Offer(i)] + [Cancel];
    } else {
      StepKeepsInv(sys, s, Cancel);
      OneStep(sys, s, Cancel);
      steps := [Cancel];
    }
  }

  /** With a producer at risk, a cancellation that finds it in its next send, and a mapper that answers the
      cancellation first, hang the pipeline. */
  lemma CancelledPlainSendDeadlocks(sys: System, s: State, i: nat) returns (steps: seq<Step>)
    requires Inv(sys, s) && i < |s.producers| && AtRisk(s.producers[i])
    ensures Runs(sys, s, steps) && OwnOrCancel(steps)
    ensures Hangs(sys, After(sys, s, steps))
  {
    hide Stuck, Runs, After, Inv;
    var first := BlocksUnderCancellation(sys, s, i);
    var blocked := After(sys, s, first);
    var second := MapperLeaves(sys, blocked);
    RunKeepsInv(sys, blocked, second);
    var left := After(sys, blocked, second);
    var third := RunsToTheEnd(sys, left);
    var t := After(sys, left, third);
    forall more: seq<Step> | Runs(sys, t, more)
      ensures !After(sys, t, more).returned
    {
      RunAppend(sys, left, third, more);
      BlockedForEver(sys, left, i, third + more);
    }
    RunAppend(sys, blocked, second, third);
    RunAppend(sys, s, first, second + third);
    steps := first + (second + third);
  }

  predicate NobodyAtRisk(s: State) {
    forall i | 0 <= i < |s.producers| :: !AtRisk(s.producers[i])
  }

  lemma StepPutsNobodyAtRisk(sys: System, s: State, step: Step)
    requires NobodyAtRisk(s) && Enabled(sys, s, step) && !step.Spawn?
    ensures NobodyAtRisk(Apply(sys, s, step))
  {
  }

  lemma {:induction false} NobodyAtRiskStays(sys: System, s: State, steps: seq<Step>)
    requires Inv(sys, s) && Runs(sys, s, steps) && OwnOrCancel(steps)
    requires NobodyAtRisk(s)
    ensures Inv(sys, After(sys, s, steps)) && NobodyAtRisk(After(sys, s, steps))
    decreases |steps|
  {
    hide Inv, Apply, Enabled, NobodyAtRisk;
    if steps == [] {
    } else {
      assert !steps[0].Spawn?;
      StepKeepsInv(sys, s, steps[0]);
      StepPutsNobodyAtRisk(sys, s, steps[0]);
      NobodyAtRiskStays(sys, Apply(sys, s, steps[0]), steps[1..]);
    }
  }

  /** From any reachable state, with any producers and programs, a cancellation can hang the pipeline exactly
      when some producer that does not select on the context at its sends has something left to send. The
      producers are those the close of the channel waits for: the synchronisation or the event stream of the
      source, and webhook handlers as far as they have finished when their server stops. */
  lemma CancellationCanHangIff(sys: System, s: State)
    requires Inv(sys, s)
    ensures (exists steps: seq<Step> | Runs(sys, s, steps) && OwnOrCancel(steps) :: Hangs(sys, After(sys, s, steps)))
       <==> exists i | 0 <= i < |s.producers| :: AtRisk(s.producers[i])
  {
    if exists i | 0 <= i < |s.producers| :: AtRisk(s.producers[i]) {
      var i :| 0 <= i < |s.producers| && AtRisk(s.producers[i]);
      var steps := CancelledPlainSendDeadlocks(sys, s, i);
    } else {
      forall steps: seq<Step> | Runs(sys, s, steps) && OwnOrCancel(steps)
        ensures !Hangs(sys, After(sys, s, steps))
      {
        NobodyAtRiskStays(sys, s, steps);
        var more := PipelineReturns(sys, After(sys, s, steps));
      }
    }
  }
}
