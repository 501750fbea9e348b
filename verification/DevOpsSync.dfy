/** The Azure DevOps synchronisation and `Close`: a lock and a published cancel pointer, accessed by any
    number of callers in any interleaving. */
module DevOpsSync {
  import opened Values

  /** A synchronisation goes from `Locking` to `Finished`; a `Close` call starts at `CloseSwapping`. */
  datatype Caller =
    | Locking               // about to TryLock
    | Validating            // holds the lock; configuration and client are not there yet
    | Publishing            // about to store its cancel function in the pointer
    | Syncing               // in syncResources
    | Clearing              // about to store nil
    | Unlocking             // deferred cancel and Unlock
    | CloseSwapping         // Close: about to swap nil in
    | Cancelling(sync: nat) // Close: has taken the cancel function of a synchronisation
    | Finished

  /** `holder` is the caller that holds the lock; the pointer, when not nil, holds the cancel function of a
      synchronisation. `published` and `taken` log the synchronisations whose function was stored and was
      swapped out by a `Close`; `cancelled` those whose function a `Close` has called. */
  datatype State = State(
    holder: Option<nat>,
    pointer: Option<nat>,
    callers: seq<Caller>,
    published: seq<nat>,
    taken: seq<nat>,
    cancelled: seq<nat>)

  const INITIAL := State(None, None, [], [], [], [])

  datatype Step =
    | StartSync
    | StartClose
    | TryLock(i: nat)
    | Validate(i: nat)
    | ValidationFails(i: nat)
    | Publish(i: nat)
    | EndSync(i: nat)
    | Clear(i: nat)
    | Unlock(i: nat)
    | Swap(i: nat)
    | Cancel(i: nat)

  predicate At(s: State, i: nat, c: Caller) {
    i < |s.callers| && s.callers[i] == c
  }

  predicate Enabled(s: State, step: Step) {
    match step
    case StartSync => true
    case StartClose => true
    case TryLock(i) => At(s, i, Locking)
    case Validate(i) => At(s, i, Validating)
    case ValidationFails(i) => At(s, i, Validating)
    case Publish(i) => At(s, i, Publishing)
    case EndSync(i) => At(s, i, Syncing)
    case Clear(i) => At(s, i, Clearing)
    case Unlock(i) => At(s, i, Unlocking)
    case Swap(i) => At(s, i, CloseSwapping)
    case Cancel(i) => i < |s.callers| && s.callers[i].Cancelling?
  }

  function Moved(s: State, i: nat, c: Caller): State
    requires i < |s.callers|
  {
    s.(callers := s.callers[i := c])
  }

  function Apply(s: State, step: Step): State
    requires Enabled(s, step)
  {
    match step
    case StartSync => s.(callers := s.callers + [Locking])
    case StartClose => s.(callers := s.callers + [CloseSwapping])
    case TryLock(i) => if s.holder.Some? then Moved(s, i, Finished) else Moved(s, i, Validating).(holder := Some(i))
    case Validate(i) => Moved(s, i, Publishing)
    case ValidationFails(i) => Moved(s, i, Unlocking)
    case Publish(i) => Moved(s, i, Syncing).(pointer := Some(i), published := s.published + [i])
    case EndSync(i) => Moved(s, i, Clearing)
    case Clear(i) => Moved(s, i, Unlocking).(pointer := None)
    case Unlock(i) => Moved(s, i, Finished).(holder := None)
    case Swap(i) =>
      (match s.pointer
       case None => Moved(s, i, Finished)
       case Some(sync) => Moved(s, i, Cancelling(sync)).(pointer := None, taken := s.taken + [sync]))
    case Cancel(i) => Moved(s, i, Finished).(cancelled := s.cancelled + [s.callers[i].sync])
  }

  predicate Runs(s: State, steps: seq<Step>)
    decreases |steps|
  {
    steps == [] || (Enabled(s, steps[0]) && Runs(Apply(s, steps[0]), steps[1..]))
  }

  function After(s: State, steps: seq<Step>): State
    requires Runs(s, steps)
    decreases |steps|
  {
    if steps == [] then s else After(Apply(s, steps[0]), steps[1..])
  }

  predicate Holds(c: Caller) {
    c.Validating? || c.Publishing? || c.Syncing? || c.Clearing? || c.Unlocking?
  }

  /** The lock is held by the synchronisation that is under way, and by nobody where none is; the pointer holds
      the function of that one, after it was stored and before nil is. */
  ghost predicate LockInv(s: State) {
    && (forall i | 0 <= i < |s.callers| && Holds(s.callers[i]) :: s.holder == Some(i))
    && (s.holder.Some? ==> s.holder.value < |s.callers| && Holds(s.callers[s.holder.value]))
    && (s.pointer.Some? ==>
          && s.holder == s.pointer && s.holder.value < |s.callers|
          && (s.callers[s.holder.value].Syncing? || s.callers[s.holder.value].Clearing?))
  }

  /** How often a synchronisation is in a log. */
  function Times(log: seq<nat>, i: nat): nat {
    multiset(log)[i]
  }

  lemma LogOneMore(log: seq<nat>, i: nat, j: nat)
    ensures Times(log + [i], j) == Times(log, j) + if i == j then 1 else 0
  {
    assert multiset(log + [i]) == multiset(log) + multiset{i};
  }

  /** The synchronisation may still publish. */
  predicate MayPublish(s: State, i: nat) {
    i >= |s.callers| || s.callers[i].Locking? || s.callers[i].Validating? || s.callers[i].Publishing?
  }

  /** A synchronisation publishes at most once, and not before it comes to it; what was taken or is in the
      pointer was published; what was taken is not in the pointer and was taken once. */
  ghost predicate PublishedInv(s: State, i: nat) {
    && (MayPublish(s, i) ==> Times(s.published, i) == 0)
    && Times(s.published, i) <= 1
    && Times(s.taken, i) + (if s.pointer == Some(i) then 1 else 0) <= Times(s.published, i)
  }

  ghost predicate Inv(s: State) {
    LockInv(s) && forall i: nat :: PublishedInv(s, i)
  }

  lemma StepKeepsLock(s: State, step: Step)
    requires LockInv(s) && Enabled(s, step)
    ensures LockInv(Apply(s, step))
  {
  }

  lemma PublishKeepsPublished(s: State, k: nat, i: nat)
    requires LockInv(s) && PublishedInv(s, i) && Enabled(s, Publish(k))
    ensures PublishedInv(Apply(s, Publish(k)), i)
  {
    assert Holds(s.callers[k]);
    LogOneMore(s.published, k, i);
    hide Times;
  }

  lemma SwapKeepsPublished(s: State, k: nat, i: nat)
    requires PublishedInv(s, i) && Enabled(s, Swap(k))
    ensures PublishedInv(Apply(s, Swap(k)), i)
  {
    if s.pointer.Some? {
      LogOneMore(s.taken, s.pointer.value, i);
    }
    hide Times;
  }

  lemma StepKeepsPublished(s: State, step: Step, i: nat)
    requires LockInv(s) && PublishedInv(s, i) && Enabled(s, step)
    ensures PublishedInv(Apply(s, step), i)
  {
    hide LockInv, Times;
    match step
    case Publish(k) => PublishKeepsPublished(s, k, i);
    case Swap(k) => SwapKeepsPublished(s, k, i);
    case _ =>
  }

  lemma StepKeepsInv(s: State, step: Step)
    requires Inv(s) && Enabled(s, step)
    ensures Inv(Apply(s, step))
  {
    hide LockInv, PublishedInv, Apply, Enabled;
    StepKeepsLock(s, step);
    forall i: nat
      ensures PublishedInv(Apply(s, step), i)
    {
      StepKeepsPublished(s, step, i);
    }
  }

  lemma {:induction false} RunKeepsInv(s: State, steps: seq<Step>)
    requires Inv(s) && Runs(s, steps)
    ensures Inv(After(s, steps))
    decreases |steps|
  {
    if steps == [] {
    } else {
      StepKeepsInv(s, steps[0]);
      RunKeepsInv(Apply(s, steps[0]), steps[1..]);
    }
  }

  /** On every interleaving the pointer, when it is not nil, holds the function of the synchronisation that
      holds the lock and is still running; so it is nil when the lock is free, and never holds the function
      of a synchronisation that has returned. No function is taken by more than one `Close`. */
  lemma PointerBelongsToTheHolder(steps: seq<Step>)
    requires Runs(INITIAL, steps)
    ensures var s := After(INITIAL, steps);
            && (s.pointer.Some? ==>
                  && s.holder == s.pointer && s.pointer.value < |s.callers|
                  && s.callers[s.pointer.value] in {Syncing, Clearing})
            && (s.holder == None ==> s.pointer == None)
            && (forall i | 0 <= i < |s.callers| && s.callers[i] in {Unlocking, Finished} :: s.pointer != Some(i))
            && (forall i: nat :: Times(s.taken, i) <= 1)
            && (forall i: nat :: Times(s.taken, i) <= Times(s.published, i))
  {
    RunKeepsInv(INITIAL, steps);
    var s := After(INITIAL, steps);
    assert forall i: nat :: PublishedInv(s, i) ==> Times(s.taken, i) <= Times(s.published, i) <= 1;
  }

  /** On every interleaving the lock is free exactly when no synchronisation is under way, and a TryLock succeeds
      exactly then. */
  lemma LockIsReleased(steps: seq<Step>, i: nat)
    requires Runs(INITIAL, steps)
    ensures var s := After(INITIAL, steps);
            && (s.holder == None <==> forall j | 0 <= j < |s.callers| :: !Holds(s.callers[j]))
            && (At(s, i, Locking) ==>
                  (At(Apply(s, TryLock(i)), i, Validating)
                   <==> forall j | 0 <= j < |s.callers| :: !Holds(s.callers[j])))
  {
    RunKeepsInv(INITIAL, steps);
  }

  /** A synchronisation that is syncing has its function in the pointer, or a `Close` has taken it. */
  ghost predicate ReachableInv(s: State) {
    forall i | 0 <= i < |s.callers| && s.callers[i].Syncing? :: s.pointer == Some(i) || i in s.taken
  }

  lemma StepKeepsReachable(s: State, step: Step)
    requires LockInv(s) && ReachableInv(s) && Enabled(s, step)
    ensures ReachableInv(Apply(s, step))
  {
  }

  lemma {:induction false} RunKeepsReachable(s: State, steps: seq<Step>)
    requires Inv(s) && ReachableInv(s) && Runs(s, steps)
    ensures ReachableInv(After(s, steps))
    decreases |steps|
  {
    if steps == [] {
    } else {
      StepKeepsReachable(s, steps[0]);
      StepKeepsInv(s, steps[0]);
      hide Inv, ReachableInv, Enabled, Apply;
      RunKeepsReachable(Apply(s, steps[0]), steps[1..]);
    }
  }

  /** So a `Close` that swaps while a synchronisation is syncing gets hold of its function, unless another one has. */
  lemma CloseReachesTheSync(steps: seq<Step>, i: nat, close: nat)
    requires Runs(INITIAL, steps)
    requires At(After(INITIAL, steps), i, Syncing) && At(After(INITIAL, steps), close, CloseSwapping)
    ensures var s := After(INITIAL, steps);
            i in s.taken || At(Apply(s, Swap(close)), close, Cancelling(i))
  {
    RunKeepsInv(INITIAL, steps);
    RunKeepsReachable(INITIAL, steps);
  }

  /** No caller is ever stuck. */
  lemma NobodyIsStuck(s: State, i: nat)
    requires i < |s.callers| && !s.callers[i].Finished?
    ensures exists step | Enabled(s, step) :: Apply(s, step).callers != s.callers && IsOf(step, i)
  {
    var step := match s.callers[i]
      case Locking => TryLock(i)
      case Validating => Validate(i)
      case Publishing => Publish(i)
      case Syncing => EndSync(i)
      case Clearing => Clear(i)
      case Unlocking => Unlock(i)
      case CloseSwapping => Swap(i)
      case Cancelling(_) => Cancel(i)
      case Finished => StartSync;
    assert Enabled(s, step) && IsOf(step, i);
    assert Apply(s, step).callers[i] != s.callers[i];
  }

  /** The step is the i-th caller's. */
  predicate IsOf(step: Step, i: nat) {
    !step.StartSync? && !step.StartClose? && step.i == i
  }

  /** How many `Close` calls are about to cancel the synchronisation i. */
  function Pending(callers: seq<Caller>, i: nat): nat {
    if callers == [] then 0
    else Pending(callers[..|callers| - 1], i) + if callers[|callers| - 1] == Cancelling(i) then 1 else 0
  }

  lemma {:induction false} PendingAfterMove(callers: seq<Caller>, k: nat, c: Caller, i: nat)
    requires k < |callers|
    ensures Pending(callers[k := c], i)
         == Pending(callers, i) - (if callers[k] == Cancelling(i) then 1 else 0) + if c == Cancelling(i) then 1 else 0
  {
    if k == |callers| - 1 {
      assert callers[k := c][..k] == callers[..k];
    } else {
      PendingAfterMove(callers[..|callers| - 1], k, c, i);
      assert callers[k := c][..|callers| - 1] == callers[..|callers| - 1][k := c];
    }
  }

  ghost predicate CancelInv(s: State) {
    forall i: nat :: Times(s.taken, i) == Times(s.cancelled, i) + Pending(s.callers, i)
  }

  lemma StepKeepsCancel(s: State, step: Step, i: nat)
    requires Enabled(s, step)
    requires Times(s.taken, i) == Times(s.cancelled, i) + Pending(s.callers, i)
    ensures var t := Apply(s, step); Times(t.taken, i) == Times(t.cancelled, i) + Pending(t.callers, i)
  {
    hide Pending, Times;
    var t := Apply(s, step);
    if step.StartSync? || step.StartClose? {
      PendingAfterStart(s.callers, if step.StartSync? then Locking else CloseSwapping, i);
    } else {
      PendingAfterMove(s.callers, step.i, t.callers[step.i], i);
      if step.Swap? && s.pointer.Some? {
        LogOneMore(s.taken, s.pointer.value, i);
      }
      if step.Cancel? {
        LogOneMore(s.cancelled, s.callers[step.i].sync, i);
      }
    }
  }

  lemma PendingAfterStart(callers: seq<Caller>, c: Caller, i: nat)
    requires !c.Cancelling?
    ensures Pending(callers + [c], i) == Pending(callers, i)
  {
    assert (callers + [c])[..|callers|] == callers;
  }

  lemma {:induction false} RunKeepsCancel(s: State, steps: seq<Step>)
    requires CancelInv(s) && Runs(s, steps)
    ensures CancelInv(After(s, steps))
    decreases |steps|
  {
    if steps == [] {
    } else {
      forall i: nat
        ensures var t := Apply(s, steps[0]); Times(t.taken, i) == Times(t.cancelled, i) + Pending(t.callers, i)
      {
        StepKeepsCancel(s, steps[0], i);
      }
      RunKeepsCancel(Apply(s, steps[0]), steps[1..]);
    }
  }

  /** So a synchronisation is cancelled by at most one `Close`, and only after it has published. */
  lemma CancelledAtMostOnce(steps: seq<Step>, i: nat)
    requires Runs(INITIAL, steps)
    ensures var s := After(INITIAL, steps);
            Times(s.cancelled, i) <= 1 && Times(s.cancelled, i) <= Times(s.published, i)
  {
    PointerBelongsToTheHolder(steps);
    RunKeepsCancel(INITIAL, steps);
  }
}
