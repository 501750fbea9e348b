/** The life of the Cloud Asset client: any number of synchronisations and of `Close` calls, interleaved
    at every access to the start mutex and to the atomic pointer. */
module GcpClient {
  import opened Values

  /** Clients are numbered in the order of their creation. */
  type Client = nat

  /** Where a caller is. A synchronisation goes from `Locking` to `Finished`; a `Close` call starts at
      `CloseSwapping`. The client in a constructor is in the hands of that caller alone. */
  datatype Caller =
    | Locking                     // about to TryLock
    | Loading                     // about to load the pointer
    | Creating                    // the pointer was nil: about to create a client
    | Storing(created: Client)    // about to store the new client
    | Listing                     // using the client
    | Swapping                    // deferred closeAssetClient: about to swap nil in
    | Closing(taken: Client)      // has swapped a client out, about to close it
    | Unlocking                   // deferred Unlock
    | CloseSwapping               // Close: about to swap nil in
    | CloseClosing(taken: Client) // Close: has swapped a client out, about to close it
    | Finished

  /** `holder` is the caller that holds the start mutex, `closed` logs the clients closed, `created` counts
      those created. */
  datatype State = State(
    holder: Option<nat>,
    pointer: Option<Client>,
    callers: seq<Caller>,
    created: nat,
    closed: seq<Client>)

  const INITIAL := State(None, None, [], 0, [])

  datatype Step =
    | StartSync
    | StartClose
    | TryLock(i: nat)
    | Load(i: nat)
    | Create(i: nat)
    | CreateFails(i: nat)
    | Store(i: nat)
    | EndListing(i: nat)
    | Swap(i: nat)
    | CloseClient(i: nat)
    | Unlock(i: nat)

  predicate At(s: State, i: nat, c: Caller) {
    i < |s.callers| && s.callers[i] == c
  }

  predicate Enabled(s: State, step: Step) {
    match step
    case StartSync => true
    case StartClose => true
    case TryLock(i) => At(s, i, Locking)
    case Load(i) => At(s, i, Loading)
    case Create(i) => At(s, i, Creating)
    case CreateFails(i) => At(s, i, Creating)
    case Store(i) => i < |s.callers| && s.callers[i].Storing?
    case EndListing(i) => At(s, i, Listing)
    case Swap(i) => At(s, i, Swapping) || At(s, i, CloseSwapping)
    case CloseClient(i) => i < |s.callers| && (s.callers[i].Closing? || s.callers[i].CloseClosing?)
    case Unlock(i) => At(s, i, Unlocking)
  }

  function Moved(s: State, i: nat, c: Caller): State
    requires i < |s.callers|
  {
    s.(callers := s.callers[i := c])
  }

  function Apply(s: State, step: Step): State
    requires Enabled(s, step)
  {
    match step
    case StartSync => s.(callers := s.callers + [Locking])
    case StartClose => s.(callers := s.callers + [CloseSwapping])
    case TryLock(i) => if s.holder.Some? then Moved(s, i, Finished) else Moved(s, i, Loading).(holder := Some(i))
    case Load(i) => Moved(s, i, if s.pointer.Some? then Listing else Creating)
    case Create(i) => Moved(s, i, Storing(s.created)).(created := s.created + 1)
    case CreateFails(i) => Moved(s, i, Unlocking)
    case Store(i) => Moved(s, i, Listing).(pointer := Some(s.callers[i].created))
    case EndListing(i) => Moved(s, i, Swapping)
    case Swap(i) =>
      var next :=
        match (s.callers[i], s.pointer)
        case (Swapping, None) => Unlocking
        case (Swapping, Some(c)) => Closing(c)
        case (_, None) => Finished
        case (_, Some(c)) => CloseClosing(c);
      Moved(s, i, next).(pointer := None)
    case CloseClient(i) =>
      var c := s.callers[i];
      Moved(s, i, if c.Closing? then Unlocking else Finished).(closed := s.closed + [c.taken])
    case Unlock(i) => Moved(s, i, Finished).(holder := None)
  }

  predicate Runs(s: State, steps: seq<Step>)
    decreases |steps|
  {
    steps == [] || (Enabled(s, steps[0]) && Runs(Apply(s, steps[0]), steps[1..]))
  }

  function After(s: State, steps: seq<Step>): State
    requires Runs(s, steps)
    decreases |steps|
  {
    if steps == [] then s else After(Apply(s, steps[0]), steps[1..])
  }

  // ---- The lock and the pointer ----

  /** The caller is a synchronisation between its TryLock and its Unlock. */
  predicate Holds(c: Caller) {
    c.Loading? || c.Creating? || c.Storing? || c.Listing? || c.Swapping? || c.Closing? || c.Unlocking?
  }

  /** The lock is held by the synchronisation that is under way, and by nobody where none is; the pointer is nil
      unless that one has stored its client and not yet swapped it out. */
  ghost predicate LockInv(s: State) {
    && (forall i | 0 <= i < |s.callers| && Holds(s.callers[i]) :: s.holder == Some(i))
    && (s.holder.Some? ==> s.holder.value < |s.callers| && Holds(s.callers[s.holder.value]))
    && (s.pointer.Some? ==>
          && s.holder.Some? && s.holder.value < |s.callers|
          && (s.callers[s.holder.value].Listing? || s.callers[s.holder.value].Swapping?))
  }

  lemma StepKeepsLock(s: State, step: Step)
    requires LockInv(s) && Enabled(s, step)
    ensures LockInv(Apply(s, step))
  {
  }

  // ---- Where the clients are ----

  /** The client a caller has in its hands. */
  function InHand(c: Caller): Option<Client> {
    match c
    case Storing(x) => Some(x)
    case Closing(x) => Some(x)
    case CloseClosing(x) => Some(x)
    case _ => None
  }

  function HandsOn(callers: seq<Caller>, x: Client): nat {
    if callers == [] then 0
    else HandsOn(callers[..|callers| - 1], x) + if InHand(callers[|callers| - 1]) == Some(x) then 1 else 0
  }

  /** In how many places a client is: the pointer, callers' hands, the log of closed ones. */
  function Places(s: State, x: Client): nat {
    (if s.pointer == Some(x) then 1 else 0) + HandsOn(s.callers, x) + multiset(s.closed)[x]
  }

  /** Every client created so far is in exactly one place. */
  ghost predicate ClientsInv(s: State) {
    forall x: Client :: Places(s, x) == if x < s.created then 1 else 0
  }

  lemma {:induction false} HandsAfterMove(callers: seq<Caller>, i: nat, c: Caller, x: Client)
    requires i < |callers|
    ensures HandsOn(callers[i := c], x)
         == HandsOn(callers, x) - (if InHand(callers[i]) == Some(x) then 1 else 0)
            + if InHand(c) == Some(x) then 1 else 0
  {
    if i == |callers| - 1 {
      assert callers[i := c][..i] == callers[..i];
    } else {
      HandsAfterMove(callers[..|callers| - 1], i, c, x);
      assert callers[i := c][..|callers| - 1] == callers[..|callers| - 1][i := c];
    }
  }

  lemma HandsAfterStart(callers: seq<Caller>, c: Caller, x: Client)
    ensures HandsOn(callers + [c], x) == HandsOn(callers, x) + if InHand(c) == Some(x) then 1 else 0
  {
    assert (callers + [c])[..|callers|] == callers;
  }

  /** The pointer is nil when it is loaded and when a client is stored: no client is reused, none is
      overwritten. */
  lemma NoStoreOverwrites(s: State, i: nat)
    requires LockInv(s) && i < |s.callers| && (s.callers[i].Loading? || s.callers[i].Creating? || s.callers[i].Storing?)
    ensures s.pointer == None
  {
    assert Holds(s.callers[i]);
  }

  lemma SwapKeepsPlaces(s: State, i: nat, x: Client)
    requires Enabled(s, Swap(i))
    ensures Places(Apply(s, Swap(i)), x) == Places(s, x)
  {
    hide HandsOn;
    HandsAfterMove(s.callers, i, Apply(s, Swap(i)).callers[i], x);
  }

  lemma CloseKeepsPlaces(s: State, i: nat, x: Client)
    requires Enabled(s, CloseClient(i))
    ensures Places(Apply(s, CloseClient(i)), x) == Places(s, x)
  {
    hide HandsOn;
    HandsAfterMove(s.callers, i, Apply(s, CloseClient(i)).callers[i], x);
    assert multiset(s.closed + [s.callers[i].taken]) == multiset(s.closed) + multiset{s.callers[i].taken};
  }

  lemma StartKeepsPlaces(s: State, step: Step, x: Client)
    requires step.StartSync? || step.StartClose?
    ensures Places(Apply(s, step), x) == Places(s, x)
  {
    hide HandsOn;
    HandsAfterStart(s.callers, if step.StartSync? then Locking else CloseSwapping, x);
  }

  /** A step puts a client created in one place and takes no other out of its place. */
  lemma StepKeepsPlaces(s: State, step: Step, x: Client)
    requires LockInv(s) && Enabled(s, step)
    ensures Places(Apply(s, step), x)
         == Places(s, x) + if step.Create? && x == s.created then 1 else 0
  {
    if step.StartSync? || step.StartClose? {
      StartKeepsPlaces(s, step, x);
    } else if step.Swap? {
      SwapKeepsPlaces(s, step.i, x);
    } else if step.CloseClient? {
      CloseKeepsPlaces(s, step.i, x);
    } else {
      hide HandsOn;
      HandsAfterMove(s.callers, step.i, Apply(s, step).callers[step.i], x);
      if step.Store? {
        NoStoreOverwrites(s, step.i);
      }
    }
  }

  ghost predicate Inv(s: State) {
    LockInv(s) && ClientsInv(s)
  }

  lemma StepKeepsInv(s: State, step: Step)
    requires Inv(s) && Enabled(s, step)
    ensures Inv(Apply(s, step))
  {
    StepKeepsLock(s, step);
    forall x: Client ensures Places(Apply(s, step), x) == if x < Apply(s, step).created then 1 else 0 {
      StepKeepsPlaces(s, step, x);
    }
  }

  lemma {:induction false} RunKeepsInv(s: State, steps: seq<Step>)
    requires Inv(s) && Runs(s, steps)
    ensures Inv(After(s, steps))
    decreases |steps|
  {
    if steps == [] {
    } else {
      StepKeepsInv(s, steps[0]);
      RunKeepsInv(Apply(s, steps[0]), steps[1..]);
    }
  }

  lemma Reachable(steps: seq<Step>)
    requires Runs(INITIAL, steps)
    ensures Inv(After(INITIAL, steps))
  {
    RunKeepsInv(INITIAL, steps);
  }

  // ---- What the protocol guarantees ----

  lemma {:induction false} NoHands(callers: seq<Caller>, x: Client)
    requires forall i | 0 <= i < |callers| :: InHand(callers[i]) == None
    ensures HandsOn(callers, x) == 0
  {
    if callers == [] {
    } else {
      NoHands(callers[..|callers| - 1], x);
    }
  }

  /** On every interleaving the lock is held by a synchronisation under way or free; a TryLock then succeeds
      exactly when it is free, that is, when no synchronisation is under way. */
  lemma LockIsReleased(steps: seq<Step>, i: nat)
    requires Runs(INITIAL, steps)
    ensures var s := After(INITIAL, steps);
            && (s.holder == None <==> forall j | 0 <= j < |s.callers| :: !Holds(s.callers[j]))
            && (At(s, i, Locking) ==>
                  (At(Apply(s, TryLock(i)), i, Loading) <==> forall j | 0 <= j < |s.callers| :: !Holds(s.callers[j])))
  {
    Reachable(steps);
  }

  /** And no caller is ever stuck: each that has not finished has a step of its own to take. */
  lemma NobodyIsStuck(s: State, i: nat)
    requires i < |s.callers| && !s.callers[i].Finished?
    ensures exists step | Enabled(s, step) :: Apply(s, step).callers != s.callers && IsOf(step, i)
  {
    var step := match s.callers[i]
      case Locking => TryLock(i)
      case Loading => Load(i)
      case Creating => Create(i)
      case Storing(_) => Store(i)
      case Listing => EndListing(i)
      case Swapping => Swap(i)
      case Closing(_) => CloseClient(i)
      case Unlocking => Unlock(i)
      case CloseSwapping => Swap(i)
      case CloseClosing(_) => CloseClient(i)
      case Finished => StartSync;
    assert Enabled(s, step) && IsOf(step, i);
    assert Apply(s, step).callers[i] != s.callers[i];
  }

  /** The step is the i-th caller's. */
  predicate IsOf(step: Step, i: nat) {
    !step.StartSync? && !step.StartClose? && step.i == i
  }

  /** On every interleaving: no client is ever closed twice, and when no synchronisation is under way and no
      `Close` call is about to close what it took, every client created has been closed exactly once and the
      pointer is nil. */
  lemma ClosedExactlyOnce(steps: seq<Step>)
    requires Runs(INITIAL, steps)
    ensures var s := After(INITIAL, steps);
            && (forall x: Client :: multiset(s.closed)[x] <= 1)
            && ((forall i | 0 <= i < |s.callers| :: !Holds(s.callers[i]) && !s.callers[i].CloseClosing?) ==>
                  s.pointer == None && forall x: Client | x < s.created :: multiset(s.closed)[x] == 1)
  {
    Reachable(steps);
    var s := After(INITIAL, steps);
    forall x: Client ensures multiset(s.closed)[x] <= 1 {
      assert Places(s, x) <= 1;
    }
    if forall i | 0 <= i < |s.callers| :: !Holds(s.callers[i]) && !s.callers[i].CloseClosing? {
      forall x: Client | x < s.created ensures multiset(s.closed)[x] == 1 {
        NoHands(s.callers, x);
        assert Places(s, x) == 1;
      }
    }
  }

  /** The clients created and neither closed nor taken by a caller that is about to close it: the one in the
      pointer and those about to be stored. */
  ghost predicate Live(s: State, x: Client) {
    s.pointer == Some(x) || exists i | 0 <= i < |s.callers| :: s.callers[i] == Storing(x)
  }

  /** At most one client is live. */
  lemma AtMostOneLive(steps: seq<Step>, x: Client, y: Client)
    requires Runs(INITIAL, steps)
    requires Live(After(INITIAL, steps), x) && Live(After(INITIAL, steps), y)
    ensures x == y
  {
    Reachable(steps);
    var s := After(INITIAL, steps);
    assert forall i | 0 <= i < |s.callers| && s.callers[i].Storing? :: Holds(s.callers[i]);
  }

  /** The client is created and not closed yet. */
  ghost predicate Open(s: State, x: Client) {
    x < s.created && multiset(s.closed)[x] == 0
  }

  /** A caller has swapped the client out and has still to close it. */
  ghost predicate Taken(s: State, x: Client) {
    exists i | 0 <= i < |s.callers| :: s.callers[i] in {Closing(x), CloseClosing(x)}
  }

  /** The clients open are exactly the live ones and those in the hands of a caller about to close them. */
  lemma OpenIffLiveOrTaken(steps: seq<Step>, x: Client)
    requires Runs(INITIAL, steps)
    ensures var s := After(INITIAL, steps);
            Open(s, x) <==> Live(s, x) || Taken(s, x)
  {
    Reachable(steps);
    var s := After(INITIAL, steps);
    assert Places(s, x) == if x < s.created then 1 else 0;
    if Open(s, x) && s.pointer != Some(x) {
      var i := SomeHand(s.callers, x);
    }
    forall i | 0 <= i < |s.callers| && InHand(s.callers[i]) == Some(x)
      ensures Open(s, x)
    {
      HandCounts(s.callers, i, x);
    }
  }

  lemma {:induction false} HandCounts(callers: seq<Caller>, i: nat, x: Client)
    requires i < |callers| && InHand(callers[i]) == Some(x)
    ensures HandsOn(callers, x) > 0
  {
    if i == |callers| - 1 {
    } else {
      HandCounts(callers[..|callers| - 1], i, x);
    }
  }

  /** Some `Close` call has taken the client and has still to close it. */
  ghost predicate CloseIsPending(s: State, x: Client) {
    exists i | 0 <= i < |s.callers| :: s.callers[i] == CloseClosing(x)
  }

  /** Of two clients open at the same time one is in the hands of a `Close` call: whatever else is open is
      with the one caller that holds the lock. */
  lemma OneIsPending(steps: seq<Step>, x: Client, y: Client)
    requires Runs(INITIAL, steps) && x != y
    requires Open(After(INITIAL, steps), x) && Open(After(INITIAL, steps), y)
    ensures CloseIsPending(After(INITIAL, steps), x) || CloseIsPending(After(INITIAL, steps), y)
  {
    Reachable(steps);
    OpenIffLiveOrTaken(steps, x);
    OpenIffLiveOrTaken(steps, y);
    var s := After(INITIAL, steps);
    assert forall i | 0 <= i < |s.callers| && (s.callers[i].Storing? || s.callers[i].Closing?) :: Holds(s.callers[i]);
  }

  /** Two clients are open at a time exactly when a `Close` call has still to close one and another is in the
      pointer or in the hands of a caller. So as long as no `Close` call is about to close, at most one client is
      open. */
  lemma TwoOpenIff(steps: seq<Step>)
    requires Runs(INITIAL, steps)
    ensures var s := After(INITIAL, steps);
            && ((exists x: Client, y: Client | Open(s, x) && Open(s, y) :: x != y)
                <==> exists x: Client, y: Client | CloseIsPending(s, x) && (Live(s, y) || Taken(s, y)) :: x != y)
            && ((forall i | 0 <= i < |s.callers| :: !s.callers[i].CloseClosing?) ==>
                  forall x: Client, y: Client | Open(s, x) && Open(s, y) :: x == y)
  {
    var s := After(INITIAL, steps);
    forall x: Client, y: Client | Open(s, x) && Open(s, y) && x != y
      ensures CloseIsPending(s, x) || CloseIsPending(s, y)
    {
      OneIsPending(steps, x, y);
    }
    forall x: Client
      ensures Open(s, x) <==> Live(s, x) || Taken(s, x)
      ensures CloseIsPending(s, x) ==> Open(s, x)
    {
      OpenIffLiveOrTaken(steps, x);
    }
    hide Open, Live, Taken;
  }

  lemma {:induction false} SomeHand(callers: seq<Caller>, x: Client) returns (i: nat)
    requires HandsOn(callers, x) > 0
    ensures i < |callers| && InHand(callers[i]) == Some(x)
  {
    if InHand(callers[|callers| - 1]) == Some(x) {
      i := |callers| - 1;
    } else {
      i := SomeHand(callers[..|callers| - 1], x);
    }
  }

  /** Puts the k-th step in front of a run of the steps after it. */
  lemma RunAt(s: State, steps: seq<Step>, k: nat)
    requires k < |steps| && Enabled(s, steps[k]) && Runs(Apply(s, steps[k]), steps[k + 1..])
    ensures Runs(s, steps[k..]) && After(s, steps[k..]) == After(Apply(s, steps[k]), steps[k + 1..])
  {
    assert steps[k..][1..] == steps[k + 1..];
  }

  lemma {:induction false} RunAppend(s: State, xs: seq<Step>, ys: seq<Step>)
    requires Runs(s, xs) && Runs(After(s, xs), ys)
    ensures Runs(s, xs + ys) && After(s, xs + ys) == After(After(s, xs), ys)
    decreases |xs|
  {
    if xs == [] {
      assert xs + ys == ys;
    } else {
      assert (xs + ys)[1..] == xs[1..] + ys;
      RunAppend(Apply(s, xs[0]), xs[1..], ys);
    }
  }

  lemma NoStep(s: State)
    ensures Runs(s, []) && After(s, []) == s
  {
  }

  /** A synchronisation that creates a client and stores it. */
  function Opening(i: nat): seq<Step> {
    [StartSync, TryLock(i), Load(i), Create(i), Store(i)]
  }

  lemma OpeningStates(s: State)
    requires s.holder == None && s.pointer == None
    ensures var i, before := |s.callers|, s.callers;
            var s1 := s.(callers := before + [Locking]);
            var s2 := s.(callers := before + [Loading], holder := Some(i));
            var s3 := s2.(callers := before + [Creating]);
            var s4 := s2.(callers := before + [Storing(s.created)], created := s.created + 1);
            var s5 := s4.(callers := before + [Listing], pointer := Some(s.created));
            && Leads(s, StartSync, s1) && Leads(s1, TryLock(i), s2) && Leads(s2, Load(i), s3)
            && Leads(s3, Create(i), s4) && Leads(s4, Store(i), s5)
  {
    var i, before := |s.callers|, s.callers;
    assert (before + [Locking])[i := Loading] == before + [Loading];
    assert (before + [Loading])[i := Creating] == before + [Creating];
    assert (before + [Creating])[i := Storing(s.created)] == before + [Storing(s.created)];
    assert (before + [Storing(s.created)])[i := Listing] == before + [Listing];
  }

  predicate Leads(s: State, step: Step, t: State) {
    Enabled(s, step) && Apply(s, step) == t
  }

  lemma OpeningRuns(s: State)
    requires s.holder == None && s.pointer == None
    ensures var i := |s.callers|;
            && Runs(s, Opening(i))
            && After(s, Opening(i)).created == s.created + 1
            && After(s, Opening(i)).closed == s.closed
            && After(s, Opening(i)).callers == s.callers + [Listing]
            && After(s, Opening(i)).pointer == Some(s.created)
  {
    OpeningStates(s);
    hide Runs, After, Enabled, Apply;
    var i, before := |s.callers|, s.callers;
    var s1 := s.(callers := before + [Locking]);
    var s2 := s.(callers := before + [Loading], holder := Some(i));
    var s3 := s2.(callers := before + [Creating]);
    var s4 := s2.(callers := before + [Storing(s.created)], created := s.created + 1);
    var s5 := s4.(callers := before + [Listing], pointer := Some(s.created));
    FiveSteps(s, s1, s2, s3, s4, s5, Opening(i));
  }

  lemma FiveSteps(s: State, s1: State, s2: State, s3: State, s4: State, s5: State, steps: seq<Step>)
    requires |steps| == 5
    requires Leads(s, steps[0], s1) && Leads(s1, steps[1], s2) && Leads(s2, steps[2], s3)
    requires Leads(s3, steps[3], s4) && Leads(s4, steps[4], s5)
    ensures Runs(s, steps) && After(s, steps) == s5
  {
    hide Runs, After, Enabled, Apply;
    NoStep(s5);
    assert steps[5..] == [];
    RunAt(s4, steps, 4);
    RunAt(s3, steps, 3);
    RunAt(s2, steps, 2);
    RunAt(s1, steps, 1);
    RunAt(s, steps, 0);
    assert steps[0..] == steps;
  }

  /** A `Close` call takes the client of synchronisation 0, which then ends; the call has still to close it. */
  const TAKING: seq<Step> := [StartClose, Swap(1), EndListing(0), Swap(0), Unlock(0)]

  lemma TakingStates(s: State)
    requires s.pointer.Some? && s.callers == [Listing]
    ensures var pending := CloseClosing(s.pointer.value);
            var s1 := s.(callers := [Listing, CloseSwapping]);
            var s2 := s.(callers := [Listing, pending], pointer := None);
            var s3 := s2.(callers := [Swapping, pending]);
            var s4 := s2.(callers := [Unlocking, pending]);
            var s5 := s2.(callers := [Finished, pending], holder := None);
            && Leads(s, StartClose, s1) && Leads(s1, Swap(1), s2) && Leads(s2, EndListing(0), s3)
            && Leads(s3, Swap(0), s4) && Leads(s4, Unlock(0), s5)
  {
    var pending := CloseClosing(s.pointer.value);
    assert [Listing] + [CloseSwapping] == [Listing, CloseSwapping];
    assert [Listing, CloseSwapping][1 := pending] == [Listing, pending];
    assert [Listing, pending][0 := Swapping] == [Swapping, pending];
    assert [Swapping, pending][0 := Unlocking] == [Unlocking, pending];
    assert [Unlocking, pending][0 := Finished] == [Finished, pending];
  }

  lemma TakingRuns(s: State)
    requires s.pointer.Some? && s.callers == [Listing]
    ensures Runs(s, TAKING)
    ensures var t := After(s, TAKING);
            t.holder == None && t.pointer == None && |t.callers| == 2 && t.created == s.created && t.closed == s.closed
  {
    TakingStates(s);
    hide Runs, After, Enabled, Apply;
    var pending := CloseClosing(s.pointer.value);
    var s1 := s.(callers := [Listing, CloseSwapping]);
    var s2 := s.(callers := [Listing, pending], pointer := None);
    var s3 := s2.(callers := [Swapping, pending]);
    var s4 := s2.(callers := [Unlocking, pending]);
    var s5 := s2.(callers := [Finished, pending], holder := None);
    FiveSteps(s, s1, s2, s3, s4, s5, TAKING);
  }

  /** A `Close` call that is slow to close the client it took lets a later synchronisation create another
      one: two clients can be open at a time. */
  lemma TwoClientsCanBeOpen()
    ensures exists steps: seq<Step> | Runs(INITIAL, steps) ::
              After(INITIAL, steps).created == 2 && After(INITIAL, steps).closed == []
  {
    hide Runs, After;
    OpeningRuns(INITIAL);
    var a := After(INITIAL, Opening(0));
    TakingRuns(a);
    var b := After(a, TAKING);
    OpeningRuns(b);
    RunAppend(INITIAL, Opening(0), TAKING);
    RunAppend(INITIAL, Opening(0) + TAKING, Opening(2));
    assert Runs(INITIAL, Opening(0) + TAKING + Opening(2));
  }
}
