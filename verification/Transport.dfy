/** The in-process transport: any number of Enqueue calls, the goroutines they launch, and calls of
    Close, interleaved at every channel, mutex and wait-group operation. */
module Transport {
  import opened Wrappers

  /** One envelope's progress, from the first select of Enqueue to the last deferred call of the
      goroutine that dispatches it. */
  datatype Job =
    | Checking      // first select
    | Acquiring     // second select: closed, a slot, or the context
    | Locking       // slot taken
    | Rechecking    // mutex held, third select
    | BackingOut    // closed was seen under the mutex; the slot is to be released
    | Registered    // wg.Add done, mutex held
    | Launching     // mutex released
    | Spawned       // Enqueue has returned nil; the goroutine is to start
    | Running       // inside dispatch
    | Releasing     // deferred: release the slot
    | Finishing     // deferred: wg.Done
    | Gone
    | Refused       // Enqueue returned an error

  datatype Closer =
    | AtOnce        // closeOnce.Do
    | Entering      // inside Do, to lock the mutex
    | Closing       // mutex held, to close the channel
    | Unlocking
    | Waiting       // done, or the drain timeout
    | Drained
    | GaveUp

  datatype Owner = JobHolds(id: nat) | CloserHolds(id: nat)
  datatype Once = NotRun | InProgress | Ran

  datatype State = State(
    capacity: nat,
    slots: nat,                 // elements in the semaphore channel
    wg: nat,                    // the wait group's counter
    closed: bool,
    mu: Option<Owner>,
    once: Once,
    jobs: map<nat, Job>,
    closers: map<nat, Closer>,
    dispatched: seq<nat>)       // envelopes handed to dispatch, in order

  datatype Choice = Proceed | SeeClosed | ContextDone | TimeOut

  datatype Event =
    | Enqueue(id: nat)
    | CallClose(id: nat)
    | JobStep(id: nat, choice: Choice)
    | CloserStep(id: nat, choice: Choice)

  predicate CanStepJob(s: State, j: Job, c: Choice) {
    match j
    case Checking => if c.SeeClosed? then s.closed else c.Proceed? && !s.closed
    case Acquiring => (c.SeeClosed? && s.closed) || (c.Proceed? && s.slots < s.capacity) || c.ContextDone?
    case Locking => c.Proceed? && s.mu == None
    case Rechecking => if c.SeeClosed? then s.closed else c.Proceed? && !s.closed
    case BackingOut => c.Proceed? && s.slots > 0
    case Releasing => c.Proceed? && s.slots > 0
    case Finishing => c.Proceed? && s.wg > 0
    case Gone => false
    case Refused => false
    case _ => c.Proceed?
  }

  function StepJob(s: State, id: nat, c: Choice): State
    requires id in s.jobs && CanStepJob(s, s.jobs[id], c)
  {
    match s.jobs[id]
    case Checking => s.(jobs := s.jobs[id := if c.SeeClosed? then Refused else Acquiring])
    case Acquiring =>
      if c.Proceed? then s.(slots := s.slots + 1, jobs := s.jobs[id := Locking])
      else s.(jobs := s.jobs[id := Refused])
    case Locking => s.(mu := Some(JobHolds(id)), jobs := s.jobs[id := Rechecking])
    case Rechecking =>
      if c.SeeClosed? then s.(mu := None, jobs := s.jobs[id := BackingOut])
      else s.(wg := s.wg + 1, jobs := s.jobs[id := Registered])
    case BackingOut => s.(slots := s.slots - 1, jobs := s.jobs[id := Refused])
    case Registered => s.(mu := None, jobs := s.jobs[id := Launching])
    case Launching => s.(jobs := s.jobs[id := Spawned])
    case Spawned => s.(dispatched := s.dispatched + [id], jobs := s.jobs[id := Running])
    case Running => s.(jobs := s.jobs[id := Releasing])
    case Releasing => s.(slots := s.slots - 1, jobs := s.jobs[id := Finishing])
    case Finishing => s.(wg := s.wg - 1, jobs := s.jobs[id := Gone])
  }

  predicate CanStepCloser(s: State, k: Closer, c: Choice) {
    match k
    case AtOnce => c.Proceed? && s.once != InProgress
    case Entering => c.Proceed? && s.mu == None
    case Closing => c.Proceed?
    case Unlocking => c.Proceed?
    case Waiting => if c.TimeOut? then true else c.Proceed? && s.wg == 0
    case _ => false
  }

  function StepCloser(s: State, id: nat, c: Choice): State
    requires id in s.closers && CanStepCloser(s, s.closers[id], c)
  {
    match s.closers[id]
    case AtOnce =>
      if s.once == Ran then s.(closers := s.closers[id := Waiting])
      else s.(once := InProgress, closers := s.closers[id := Entering])
    case Entering => s.(mu := Some(CloserHolds(id)), closers := s.closers[id := Closing])
    case Closing => s.(closed := true, closers := s.closers[id := Unlocking])
    case Unlocking => s.(mu := None, once := Ran, closers := s.closers[id := Waiting])
    case Waiting => s.(closers := s.closers[id := if c.TimeOut? then GaveUp else Drained])
  }

  predicate Enabled(s: State, e: Event) {
    match e
    case Enqueue(id) => id !in s.jobs
    case CallClose(id) => id !in s.closers
    case JobStep(id, c) => id in s.jobs && CanStepJob(s, s.jobs[id], c)
    case CloserStep(id, c) => id in s.closers && CanStepCloser(s, s.closers[id], c)
  }

  function Next(s: State, e: Event): State
    requires Enabled(s, e)
  {
    match e
    case Enqueue(id) => s.(jobs := s.jobs[id := Checking])
    case CallClose(id) => s.(closers := s.closers[id := AtOnce])
    case JobStep(id, c) => StepJob(s, id, c)
    case CloserStep(id, c) => StepCloser(s, id, c)
  }

  predicate Init(s: State) {
    s == State(s.capacity, 0, 0, false, None, NotRun, map[], map[], [])
  }

  predicate IsRun(states: seq<State>, events: seq<Event>) {
    && |states| == |events| + 1
    && Init(states[0])
    && forall i :: 0 <= i < |events| ==> Enabled(states[i], events[i]) && states[i+1] == Next(states[i], events[i])
  }

  predicate HasSlot(j: Job) {
    j.Locking? || j.Rechecking? || j.BackingOut? || j.Registered? || j.Launching? || j.Spawned? || j.Running?
        || j.Releasing?
  }

  /** Counted by the wait group. */
  predicate Counted(j: Job) {
    j.Registered? || j.Launching? || j.Spawned? || j.Running? || j.Releasing? || j.Finishing?
  }

  predicate Accepted(j: Job) { j.Spawned? || Handed(j) }

  /** Handed to dispatch. */
  predicate Handed(j: Job) { j.Running? || j.Releasing? || j.Finishing? || j.Gone? }

  function SlotHolders(s: State): set<nat> { set i | i in s.jobs && HasSlot(s.jobs[i]) }

  function CountedJobs(s: State): set<nat> { set i | i in s.jobs && Counted(s.jobs[i]) }

  function Times(ids: seq<nat>, i: nat): nat { multiset(ids)[i] }

  ghost predicate CountsOk(s: State) {
    s.slots == |SlotHolders(s)| <= s.capacity && s.wg == |CountedJobs(s)|
  }

  ghost predicate LocksOk(s: State) {
    // the mutex is held by whoever is between its lock and its unlock
    && (forall i :: i in s.jobs && (s.jobs[i].Rechecking? || s.jobs[i].Registered?) ==> s.mu == Some(JobHolds(i)))
    && (forall k :: k in s.closers && (s.closers[k].Closing? || s.closers[k].Unlocking?) ==>
        s.mu == Some(CloserHolds(k)))
    // registration is over once the channel is closed
    && (forall i :: i in s.jobs && s.jobs[i].Registered? ==> !s.closed)
  }

  /** Closing happens once, inside the Do. */
  ghost predicate CloseOk(s: State) {
    && (forall k :: k in s.closers && (s.closers[k].Entering? || s.closers[k].Closing?) ==>
        s.once == InProgress && !s.closed)
    && (forall k :: k in s.closers && s.closers[k].Unlocking? ==> s.once == InProgress && s.closed)
    && (forall k, l :: k in s.closers && l in s.closers && InDo(s.closers[k]) && InDo(s.closers[l]) ==> k == l)
    && (s.once == Ran ==> s.closed)
    && (s.once == NotRun ==> !s.closed)
    && (forall k :: k in s.closers && s.closers[k].Waiting? ==> s.closed)
    && (forall k :: k in s.closers && s.closers[k].Drained? ==> s.closed && s.wg == 0)
  }

  ghost predicate DispatchOk(s: State) {
    forall i :: Times(s.dispatched, i) == if i in s.jobs && Handed(s.jobs[i]) then 1 else 0
  }

  ghost predicate Inv(s: State) {
    CountsOk(s) && LocksOk(s) && CloseOk(s) && DispatchOk(s)
  }

  predicate InDo(k: Closer) { k.Entering? || k.Closing? || k.Unlocking? }

  /** One job's step moves it in or out of the two sets and touches no other member. */
  lemma SetsAfterJobStep(s: State, id: nat, c: Choice)
    requires id in s.jobs && CanStepJob(s, s.jobs[id], c)
    ensures var s' := StepJob(s, id, c);
            && id in s'.jobs
            && SlotHolders(s') == (if HasSlot(s'.jobs[id]) then SlotHolders(s) + {id} else SlotHolders(s) - {id})
            && CountedJobs(s') == (if Counted(s'.jobs[id]) then CountedJobs(s) + {id} else CountedJobs(s) - {id})
    ensures (id in SlotHolders(s) <==> HasSlot(s.jobs[id])) && (id in CountedJobs(s) <==> Counted(s.jobs[id]))
  {
    var s' := StepJob(s, id, c);
    assert s'.jobs == s.jobs[id := s'.jobs[id]];
    hide StepJob, CanStepJob, HasSlot, Counted;
  }

  lemma SizeAfter(a: set<nat>, id: nat, b: set<nat>, stays: bool)
    requires b == if stays then a + {id} else a - {id}
    ensures |b| == |a| + (if stays then 1 else 0) - if id in a then 1 else 0
  {
    assert id in a ==> a + {id} == a;
    assert id !in a ==> a - {id} == a;
  }

  lemma SizesAfterJobStep(s: State, id: nat, c: Choice)
    requires id in s.jobs && CanStepJob(s, s.jobs[id], c)
    ensures var s' := StepJob(s, id, c);
            var j, j' := s.jobs[id], s'.jobs[id];
            && |SlotHolders(s')| == |SlotHolders(s)| + (if HasSlot(j') then 1 else 0) - (if HasSlot(j) then 1 else 0)
            && |CountedJobs(s')| == |CountedJobs(s)| + (if Counted(j') then 1 else 0) - (if Counted(j) then 1 else 0)
  {
    hide StepJob, CanStepJob, HasSlot, Counted, SlotHolders, CountedJobs;
    SetsAfterJobStep(s, id, c);
    var s' := StepJob(s, id, c);
    SizeAfter(SlotHolders(s), id, SlotHolders(s'), HasSlot(s'.jobs[id]));
    SizeAfter(CountedJobs(s), id, CountedJobs(s'), Counted(s'.jobs[id]));
  }

  lemma JobStepKeepsCounts(s: State, id: nat, c: Choice)
    requires CountsOk(s) && id in s.jobs && CanStepJob(s, s.jobs[id], c)
    ensures CountsOk(StepJob(s, id, c))
  {
    hide SlotHolders, CountedJobs;
    SizesAfterJobStep(s, id, c);
  }

  lemma JobStepKeepsDispatch(s: State, id: nat, c: Choice)
    requires DispatchOk(s) && id in s.jobs && CanStepJob(s, s.jobs[id], c)
    ensures DispatchOk(StepJob(s, id, c))
  {
    var s' := StepJob(s, id, c);
    forall i ensures Times(s'.dispatched, i) == if i in s'.jobs && Handed(s'.jobs[i]) then 1 else 0 {
      assert Times(s.dispatched, i) == if i in s.jobs && Handed(s.jobs[i]) then 1 else 0;
    }
  }

  lemma JobStepKeepsLocks(s: State, id: nat, c: Choice)
    requires LocksOk(s) && id in s.jobs && CanStepJob(s, s.jobs[id], c)
    ensures LocksOk(StepJob(s, id, c))
  {
  }

  /** After the close step the wait group only falls. */
  lemma NoAddOnceClosed(s: State, id: nat, c: Choice)
    requires Inv(s) && s.closed && id in s.jobs && CanStepJob(s, s.jobs[id], c)
    ensures StepJob(s, id, c).wg <= s.wg && StepJob(s, id, c).closed
    ensures s.wg == 0 ==> StepJob(s, id, c).dispatched == s.dispatched
  {
    assert id in CountedJobs(s) <==> Counted(s.jobs[id]);
  }

  lemma JobStepKeepsClose(s: State, id: nat, c: Choice)
    requires Inv(s) && id in s.jobs && CanStepJob(s, s.jobs[id], c)
    ensures CloseOk(StepJob(s, id, c))
  {
    if s.closed { NoAddOnceClosed(s, id, c); }
    var s' := StepJob(s, id, c);
    assert s'.closers == s.closers && s'.once == s.once && s'.closed == s.closed;
    hide StepJob, CanStepJob, CountsOk, LocksOk, DispatchOk;
  }

  lemma JobStepKeepsInv(s: State, id: nat, c: Choice)
    requires Inv(s) && id in s.jobs && CanStepJob(s, s.jobs[id], c)
    ensures Inv(StepJob(s, id, c))
  {
    hide StepJob, CountsOk, LocksOk, CloseOk, DispatchOk;
    JobStepKeepsCounts(s, id, c);
    JobStepKeepsLocks(s, id, c);
    JobStepKeepsClose(s, id, c);
    JobStepKeepsDispatch(s, id, c);
  }

  lemma CloserStepKeepsClose(s: State, id: nat, c: Choice)
    requires LocksOk(s) && CloseOk(s) && id in s.closers && CanStepCloser(s, s.closers[id], c)
    ensures LocksOk(StepCloser(s, id, c)) && CloseOk(StepCloser(s, id, c))
  {
  }

  lemma SameJobsKeepCounts(s: State, s': State)
    requires CountsOk(s) && DispatchOk(s)
    requires s'.jobs == s.jobs && s'.slots == s.slots && s'.capacity == s.capacity && s'.wg == s.wg
    requires s'.dispatched == s.dispatched
    ensures CountsOk(s') && DispatchOk(s')
  {
    assert SlotHolders(s') == SlotHolders(s) && CountedJobs(s') == CountedJobs(s);
  }

  lemma CloserStepKeepsInv(s: State, id: nat, c: Choice)
    requires Inv(s) && id in s.closers && CanStepCloser(s, s.closers[id], c)
    ensures Inv(StepCloser(s, id, c))
  {
    hide CountsOk, LocksOk, CloseOk, DispatchOk;
    CloserStepKeepsClose(s, id, c);
    SameJobsKeepCounts(s, StepCloser(s, id, c));
  }

  /** A job that is enqueued is in neither set and holds no lock. */
  lemma EnqueueKeepsInv(s: State, id: nat)
    requires Inv(s) && id !in s.jobs
    ensures Inv(s.(jobs := s.jobs[id := Checking]))
  {
    var s' := s.(jobs := s.jobs[id := Checking]);
    assert SlotHolders(s') == SlotHolders(s) && CountedJobs(s') == CountedJobs(s);
    hide SlotHolders, CountedJobs, Times;
    assert CountsOk(s') && LocksOk(s');
    assert CloseOk(s') by { hide LocksOk, DispatchOk; }
  }

  lemma CallKeepsInv(s: State, id: nat)
    requires Inv(s) && id !in s.closers
    ensures Inv(s.(closers := s.closers[id := AtOnce]))
  {
    SameJobsKeepCounts(s, s.(closers := s.closers[id := AtOnce]));
    hide CountsOk, DispatchOk;
  }

  lemma StepKeepsInv(s: State, e: Event)
    requires Inv(s) && Enabled(s, e)
    ensures Inv(Next(s, e))
  {
    hide Inv, StepJob, StepCloser;
    match e {
      case JobStep(id, c) => JobStepKeepsInv(s, id, c);
      case CloserStep(id, c) => CloserStepKeepsInv(s, id, c);
      case Enqueue(id) => EnqueueKeepsInv(s, id);
      case CallClose(id) => CallKeepsInv(s, id);
    }
  }

  lemma {:induction false} InvThroughout(states: seq<State>, events: seq<Event>, n: nat)
    requires IsRun(states, events) && n < |states|
    ensures Inv(states[n])
  {
    if n == 0 {
      assert SlotHolders(states[0]) == {} && CountedJobs(states[0]) == {};
    } else {
      InvThroughout(states, events, n - 1);
      StepKeepsInv(states[n-1], events[n-1]);
    }
  }

  /** Main result: slots in use are exactly the slot holders, never more than the pool has, and whoever
      is about to release one can. */
  lemma SlotsAreBounded(states: seq<State>, events: seq<Event>, n: nat)
    requires IsRun(states, events) && n < |states|
    ensures var s := states[n];
            && s.slots == |SlotHolders(s)| <= s.capacity
            && forall i :: i in s.jobs && (s.jobs[i].BackingOut? || s.jobs[i].Releasing?) ==>
                CanStepJob(s, s.jobs[i], Proceed)
  {
    InvThroughout(states, events, n);
    var s := states[n];
    forall i | i in s.jobs && (s.jobs[i].BackingOut? || s.jobs[i].Releasing?) ensures s.slots > 0 {
      assert i in SlotHolders(s);
    }
  }

  lemma ClosedStep(s: State, e: Event)
    requires Inv(s) && Enabled(s, e) && s.closed
    ensures Next(s, e).closed && Next(s, e).wg <= s.wg && CountedJobs(Next(s, e)) <= CountedJobs(s)
  {
    match e {
      case JobStep(id, c) =>
        SetsAfterJobStep(s, id, c);
        NoAddOnceClosed(s, id, c);
      case _ =>
    }
  }

  /** Main result: no wg.Add comes after the close step, so none can race the Wait. */
  lemma NoRegistrationAfterClose(states: seq<State>, events: seq<Event>, n: nat)
    requires IsRun(states, events) && n < |events| && states[n].closed
    ensures states[n+1].closed && states[n+1].wg <= states[n].wg && CountedJobs(states[n+1]) <= CountedJobs(states[n])
  {
    InvThroughout(states, events, n);
    hide Inv, Next, Enabled, CountedJobs;
    ClosedStep(states[n], events[n]);
  }

  /** Main result: an envelope is dispatched at most once, never when Enqueue refused it, and exactly
      once by the time the goroutine of an accepted one is gone. */
  lemma DispatchedOnce(states: seq<State>, events: seq<Event>, n: nat, i: nat)
    requires IsRun(states, events) && n < |states| && i in states[n].jobs
    ensures var s := states[n];
            && Times(s.dispatched, i) <= 1
            && (Times(s.dispatched, i) == 1 ==> Accepted(s.jobs[i]))
            && (s.jobs[i].Gone? ==> Times(s.dispatched, i) == 1)
  {
    InvThroughout(states, events, n);
  }

  lemma DrainedStep(s: State, e: Event, k: nat)
    requires Inv(s) && Enabled(s, e) && k in s.closers && s.closers[k].Drained?
    ensures k in Next(s, e).closers && Next(s, e).closers[k].Drained?
    ensures Next(s, e).dispatched == s.dispatched
  {
    if e.JobStep? { NoAddOnceClosed(s, e.id, e.choice); }
  }

  lemma {:induction false} DrainedStays(states: seq<State>, events: seq<Event>, m: nat, n: nat, k: nat)
    requires IsRun(states, events) && m <= n < |states|
    requires k in states[m].closers && states[m].closers[k].Drained?
    ensures k in states[n].closers && states[n].closers[k].Drained?
    ensures states[n].dispatched == states[m].dispatched
    decreases n
  {
    if m < n {
      DrainedStays(states, events, m, n - 1, k);
      InvThroughout(states, events, n - 1);
      DrainedStep(states[n-1], events[n-1], k);
    }
  }

  /** Main result: when Close returns through its drained branch, every envelope that was accepted has
      been dispatched exactly once and its goroutine is gone, and nothing is dispatched afterwards. */
  lemma DrainedMeansDone(states: seq<State>, events: seq<Event>, m: nat, n: nat, k: nat, i: nat)
    requires IsRun(states, events) && m <= n < |states|
    requires k in states[m].closers && states[m].closers[k].Drained?
    requires i in states[n].jobs
    ensures !Counted(states[n].jobs[i])
    ensures Accepted(states[n].jobs[i]) ==> states[n].jobs[i].Gone? && Times(states[m].dispatched, i) == 1
    ensures states[n].dispatched == states[m].dispatched
  {
    DrainedStays(states, events, m, n, k);
    InvThroughout(states, events, n);
    assert i !in CountedJobs(states[n]);
  }
}
