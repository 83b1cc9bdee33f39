/** `Dispatcher`: at most 128 handlers run at once; a handler that cannot start, or that panics, has a
    rejection job run by one of at most 8 workers, with up to 128 jobs waiting in a queue. Each event
    below is one channel operation of one goroutine; events of different goroutines interleave freely. */
module RejectionDispatcher {
  import opened Wrappers

  const MAX_HANDLERS: nat := 128
  const MAX_WORKERS: nat := 8
  const MAX_PENDING: nat := 128

  /** A launch is known by its number; its rejection job, if it needs one, by the same number. */
  type Id = nat

  function Taken(level: nat, capacity: nat): nat { if level < capacity then level + 1 else level }

  function Pushed(queue: seq<Id>, job: Id): seq<Id> { if |queue| < MAX_PENDING then queue + [job] else queue }

  // ----- Goroutines -----

  datatype Agent =
    | Handling(id: Id)    // runs a handler, holding a handler slot
    | Submitting(id: Id)  // in `launchRejection`, before `startRejection`
    | Pushing(id: Id)     // no worker slot was free; before the push
    | Notifying           // has pushed; before its slot attempt
    | Working(id: Id)     // a worker running a job
    | Draining            // a worker about to receive
    | Exiting             // a worker that found the queue empty; still holds its slot
    | Released            // has given the slot back; before it reads the queue length
    | Restarting          // saw a non-empty queue; before its slot attempt
    | Done

  datatype Launched = Launched(accepted: bool, reject: bool)

  /** The multisets are history: jobs handed to `launchRejection`, jobs whose run began, jobs that ran
      to their end, jobs dropped, and the handlers that returned or panicked. So are the two sequences:
      the jobs pushed to the queue and the jobs workers received from it, in that order. */
  datatype State = State(
    slots: nat, rejectSlots: nat, queue: seq<Id>, agents: seq<Agent>, launches: seq<Launched>,
    submitted: multiset<Id>, started: multiset<Id>, finished: multiset<Id>, dropped: multiset<Id>,
    returned: multiset<Id>, panicked: multiset<Id>, pushed: seq<Id>, received: seq<Id>)

  const Initial := State(0, 0, [], [], [], multiset{}, multiset{}, multiset{}, multiset{}, multiset{}, multiset{}, [], [])

  datatype Event =
    | Launch(reject: bool)
    | HandlerEnds(p: nat, panics: bool)
    | StartRejection(p: nat)
    | PushJob(p: nat)
    | StartQueued(p: nat)
    | JobEnds(p: nat)
    | ReceiveJob(p: nat)
    | ReleaseSlot(p: nat)
    | ReadLength(p: nat)

  predicate Enabled(s: State, e: Event) {
    e.Launch? ||
    (e.p < |s.agents| &&
     match s.agents[e.p]
     case Handling(_) => e.HandlerEnds?
     case Submitting(_) => e.StartRejection?
     case Pushing(_) => e.PushJob?
     case Notifying | Restarting => e.StartQueued?
     case Working(_) => e.JobEnds?
     case Draining => e.ReceiveJob?
     case Exiting => e.ReleaseSlot?
     case Released => e.ReadLength?
     case Done => false)
  }

  /** `Launch`: a new goroutine holds the handler slot, or the caller goes on to submit a rejection. */
  function AfterLaunch(s: State, reject: bool): State {
    var id := |s.launches|;
    var ok := s.slots < MAX_HANDLERS;
    var logged := s.(slots := Taken(s.slots, MAX_HANDLERS), launches := s.launches + [Launched(ok, reject)]);
    if ok then logged.(agents := s.agents + [Handling(id)])
    else if reject then logged.(agents := s.agents + [Submitting(id)], submitted := s.submitted + multiset{id})
    else logged
  }

  /** The deferred function of a handler: its slot is free before its rejection is submitted. */
  function AfterHandler(s: State, p: nat, panics: bool): State
    requires Enabled(s, HandlerEnds(p, panics))
  {
    var id := s.agents[p].id;
    var freed := s.(slots := if s.slots > 0 then s.slots - 1 else 0);
    if !panics then freed.(agents := s.agents[p := Done], returned := s.returned + multiset{id})
    else if id < |s.launches| && s.launches[id].reject then
      freed.(agents := s.agents[p := Submitting(id)], panicked := s.panicked + multiset{id},
             submitted := s.submitted + multiset{id})
    else freed.(agents := s.agents[p := Done], panicked := s.panicked + multiset{id})
  }

  /** A slot attempt by goroutine `p`: on success a new worker starts as `worker`, and `p` is done. */
  function AfterAttempt(s: State, p: nat, worker: Agent, otherwise: Agent): State
    requires p < |s.agents|
  {
    if s.rejectSlots < MAX_WORKERS then
      s.(rejectSlots := Taken(s.rejectSlots, MAX_WORKERS), agents := s.agents[p := Done] + [worker])
    else s.(agents := s.agents[p := otherwise])
  }

  function After(s: State, e: Event): State
    requires Enabled(s, e)
  {
    match e
    case Launch(reject) => AfterLaunch(s, reject)
    case HandlerEnds(p, panics) => AfterHandler(s, p, panics)
    case StartRejection(p) =>
      var id := s.agents[p].id;
      var next := AfterAttempt(s, p, Working(id), Pushing(id));
      if s.rejectSlots < MAX_WORKERS then next.(started := s.started + multiset{id}) else next
    case PushJob(p) =>
      var id := s.agents[p].id;
      if |s.queue| < MAX_PENDING then s.(queue := Pushed(s.queue, id), agents := s.agents[p := Notifying], pushed := s.pushed + [id])
      else s.(agents := s.agents[p := Done], dropped := s.dropped + multiset{id})
    case StartQueued(p) => AfterAttempt(s, p, Draining, Done)
    case JobEnds(p) => s.(agents := s.agents[p := Draining], finished := s.finished + multiset{s.agents[p].id})
    case ReceiveJob(p) =>
      if s.queue == [] then s.(agents := s.agents[p := Exiting])
      else s.(queue := s.queue[1..], agents := s.agents[p := Working(s.queue[0])], started := s.started + multiset{s.queue[0]},
              received := s.received + [s.queue[0]])
    case ReleaseSlot(p) => s.(rejectSlots := if s.rejectSlots > 0 then s.rejectSlots - 1 else 0, agents := s.agents[p := Released])
    case ReadLength(p) => s.(agents := s.agents[p := if s.queue != [] then Restarting else Done])
  }

  /** The state after a sequence of events; an event that cannot happen is skipped. */
  function Run(s: State, events: seq<Event>): State
    decreases |events|
  {
    if events == [] then s
    else Run(if Enabled(s, events[0]) then After(s, events[0]) else s, events[1..])
  }

  // ----- Totals over goroutines -----

  function Total(agents: seq<Agent>, weight: Agent -> nat): nat {
    if agents == [] then 0 else weight(agents[0]) + Total(agents[1..], weight)
  }

  lemma {:induction false} TotalAppend(agents: seq<Agent>, x: Agent, weight: Agent -> nat)
    ensures Total(agents + [x], weight) == Total(agents, weight) + weight(x)
  {
    if agents == [] {
      assert Total([x], weight) == weight(x) + Total([], weight);
    } else {
      assert (agents + [x])[1..] == agents[1..] + [x];
      TotalAppend(agents[1..], x, weight);
    }
  }

  lemma {:induction false} TotalUpdate(agents: seq<Agent>, p: nat, x: Agent, weight: Agent -> nat)
    requires p < |agents|
    ensures Total(agents[p := x], weight) + weight(agents[p]) == Total(agents, weight) + weight(x)
  {
    if p > 0 {
      assert agents[p := x][1..] == agents[1..][p - 1 := x];
      TotalUpdate(agents[1..], p - 1, x, weight);
    }
  }

  lemma {:induction false} TotalPositive(agents: seq<Agent>, weight: Agent -> nat)
    requires Total(agents, weight) > 0
    ensures exists p :: 0 <= p < |agents| && weight(agents[p]) > 0
  {
    if weight(agents[0]) == 0 {
      TotalPositive(agents[1..], weight);
      var p :| 0 <= p < |agents[1..]| && weight(agents[1..][p]) > 0;
      assert weight(agents[p + 1]) > 0;
    }
  }

  /** What the goroutine that `e` moves becomes, and the one it starts, if any. */
  function Next(s: State, e: Event): Agent
    requires Enabled(s, e) && !e.Launch?
  {
    match e
    case HandlerEnds(p, panics) =>
      var id := s.agents[p].id;
      if panics && id < |s.launches| && s.launches[id].reject then Submitting(id) else Done
    case StartRejection(p) => if s.rejectSlots < MAX_WORKERS then Done else Pushing(s.agents[p].id)
    case PushJob(_) => if |s.queue| < MAX_PENDING then Notifying else Done
    case StartQueued(_) => Done
    case JobEnds(_) => Draining
    case ReceiveJob(_) => if s.queue == [] then Exiting else Working(s.queue[0])
    case ReleaseSlot(_) => Released
    case ReadLength(_) => if s.queue != [] then Restarting else Done
  }

  function Spawned(s: State, e: Event): Option<Agent>
    requires Enabled(s, e) && !e.Launch?
  {
    if s.rejectSlots >= MAX_WORKERS then None
    else match e
      case StartRejection(p) => Some(Working(s.agents[p].id))
      case StartQueued(_) => Some(Draining)
      case _ => None
  }

  lemma StepMoves(s: State, e: Event)
    requires Enabled(s, e) && !e.Launch?
    ensures After(s, e).agents == match Spawned(s, e)
              case None => s.agents[e.p := Next(s, e)]
              case Some(worker) => s.agents[e.p := Next(s, e)] + [worker]
  {
  }

  lemma TotalMoves(s: State, e: Event, weight: Agent -> nat)
    requires Enabled(s, e) && !e.Launch?
    ensures Total(After(s, e).agents, weight) + weight(s.agents[e.p]) ==
            Total(s.agents, weight) + weight(Next(s, e)) + (if Spawned(s, e).Some? then weight(Spawned(s, e).value) else 0)
  {
    StepMoves(s, e);
    TotalUpdate(s.agents, e.p, Next(s, e), weight);
    if Spawned(s, e).Some? { TotalAppend(s.agents[e.p := Next(s, e)], Spawned(s, e).value, weight); }
  }

  // ----- Slots -----

  function HandlerSlot(a: Agent): nat { if a.Handling? then 1 else 0 }
  predicate HoldsWorkerSlot(a: Agent) { a.Working? || a.Draining? || a.Exiting? }
  function WorkerSlot(a: Agent): nat { if HoldsWorkerSlot(a) then 1 else 0 }

  ghost predicate SlotsHeld(s: State) {
    && s.slots == Total(s.agents, HandlerSlot) <= MAX_HANDLERS
    && s.rejectSlots == Total(s.agents, WorkerSlot) <= MAX_WORKERS
    && |s.queue| <= MAX_PENDING
  }

  lemma KeepsSlots(s: State, e: Event)
    requires SlotsHeld(s) && Enabled(s, e)
    ensures SlotsHeld(After(s, e))
  {
    KeepsHandlerSlots(s, e);
    KeepsWorkerSlots(s, e);
  }

  lemma KeepsHandlerSlots(s: State, e: Event)
    requires s.slots == Total(s.agents, HandlerSlot) <= MAX_HANDLERS && Enabled(s, e)
    ensures After(s, e).slots == Total(After(s, e).agents, HandlerSlot) <= MAX_HANDLERS
  {
    if e.Launch? {
      TotalAppend(s.agents, Handling(|s.launches|), HandlerSlot);
      TotalAppend(s.agents, Submitting(|s.launches|), HandlerSlot);
    } else {
      TotalMoves(s, e, HandlerSlot);
    }
  }

  lemma KeepsWorkerSlots(s: State, e: Event)
    requires s.rejectSlots == Total(s.agents, WorkerSlot) <= MAX_WORKERS && Enabled(s, e)
    ensures After(s, e).rejectSlots == Total(After(s, e).agents, WorkerSlot) <= MAX_WORKERS
  {
    if e.Launch? {
      TotalAppend(s.agents, Handling(|s.launches|), WorkerSlot);
      TotalAppend(s.agents, Submitting(|s.launches|), WorkerSlot);
    } else {
      TotalMoves(s, e, WorkerSlot);
    }
  }

  // ----- Wakeup -----

  /** Between a push or a release and the recheck that follows it. */
  predicate BeforeRecheck(a: Agent) { a.Notifying? || a.Released? || a.Restarting? }

  ghost predicate Attended(s: State) {
    exists p :: 0 <= p < |s.agents| && (HoldsWorkerSlot(s.agents[p]) || BeforeRecheck(s.agents[p]))
  }

  ghost predicate QueueAttended(s: State) {
    s.queue != [] ==> Attended(s)
  }

  lemma SomeHolder(s: State)
    requires SlotsHeld(s) && s.rejectSlots > 0
    ensures exists p :: 0 <= p < |s.agents| && HoldsWorkerSlot(s.agents[p])
  {
    TotalPositive(s.agents, WorkerSlot);
    var p :| 0 <= p < |s.agents| && WorkerSlot(s.agents[p]) > 0;
    assert HoldsWorkerSlot(s.agents[p]);
  }

  /** A slot attempt starts a worker, or finds all slots held by workers. */
  lemma AttemptAttends(s: State, e: Event)
    requires SlotsHeld(s) && Enabled(s, e) && (e.StartQueued? || e.StartRejection?)
    ensures Attended(After(s, e))
  {
    var s' := After(s, e);
    if s.rejectSlots == MAX_WORKERS {
      SomeHolder(s);
      var q :| 0 <= q < |s.agents| && HoldsWorkerSlot(s.agents[q]);
      assert q != e.p && s'.agents[q] == s.agents[q];
    } else {
      assert HoldsWorkerSlot(s'.agents[|s.agents|]);
    }
  }

  lemma KeepsQueueAttended(s: State, e: Event)
    requires SlotsHeld(s) && QueueAttended(s) && Enabled(s, e)
    ensures QueueAttended(After(s, e))
  {
    var s' := After(s, e);
    if s'.queue != [] {
      if e.StartQueued? || e.StartRejection? {
        AttemptAttends(s, e);
      } else if e.PushJob? && |s.queue| < MAX_PENDING {
        assert BeforeRecheck(s'.agents[e.p]);
      } else {
        var q :| 0 <= q < |s.agents| && (HoldsWorkerSlot(s.agents[q]) || BeforeRecheck(s.agents[q]));
        assert HoldsWorkerSlot(s'.agents[q]) || BeforeRecheck(s'.agents[q]);
      }
    }
  }

  // ----- Where the jobs are -----

  datatype Holding = InHand | AtWork | Handled

  predicate HoldsSome(a: Agent, how: Holding) {
    match how
    case InHand => a.Submitting? || a.Pushing?
    case AtWork => a.Working?
    case Handled => a.Handling?
  }

  predicate Holds(a: Agent, how: Holding, id: Id) { HoldsSome(a, how) && a.id == id }

  function HoldWeight(how: Holding, id: Id): Agent -> nat { a => if Holds(a, how, id) then 1 else 0 }

  /** How many goroutines hold launch `id` in this way. */
  function Held(s: State, how: Holding, id: Id): nat { Total(s.agents, HoldWeight(how, id)) }

  /** The launches goroutines hold in this way, as often as they do. */
  function Bag(agents: seq<Agent>, how: Holding): multiset<Id> {
    if agents == [] then multiset{}
    else (if HoldsSome(agents[0], how) then multiset{agents[0].id} else multiset{}) + Bag(agents[1..], how)
  }

  lemma {:induction false} BagCounts(agents: seq<Agent>, how: Holding, id: Id)
    ensures Bag(agents, how)[id] == Total(agents, HoldWeight(how, id))
  {
    if agents != [] { BagCounts(agents[1..], how, id); }
  }

  function CountIn(queue: seq<Id>, id: Id): nat {
    if queue == [] then 0 else (if queue[0] == id then 1 else 0) + CountIn(queue[1..], id)
  }

  lemma {:induction false} CountPush(queue: seq<Id>, job: Id, id: Id)
    ensures CountIn(queue + [job], id) == CountIn(queue, id) + (if job == id then 1 else 0)
  {
    if queue == [] {
      assert CountIn([job], id) == (if job == id then 1 else 0) + CountIn([], id);
    } else {
      assert (queue + [job])[1..] == queue[1..] + [job];
      CountPush(queue[1..], job, id);
    }
  }

  lemma {:induction false} QueueCounts(queue: seq<Id>, id: Id)
    ensures multiset(queue)[id] == CountIn(queue, id)
  {
    if queue != [] {
      QueueCounts(queue[1..], id);
      assert queue == [queue[0]] + queue[1..];
      assert multiset(queue)[id] == multiset([queue[0]])[id] + multiset(queue[1..])[id];
    }
  }

  ghost predicate Accounted(s: State, id: Id) {
    s.submitted[id] == Held(s, InHand, id) + CountIn(s.queue, id) + Held(s, AtWork, id) + s.finished[id] + s.dropped[id]
  }

  ghost predicate StartsAccounted(s: State, id: Id) { s.started[id] == Held(s, AtWork, id) + s.finished[id] }

  ghost predicate JobConserved(s: State, id: Id) { Accounted(s, id) && StartsAccounted(s, id) }

  ghost predicate JobsConserved(s: State) {
    forall id :: JobConserved(s, id)
  }

  lemma LaunchKeepsJob(s: State, reject: bool, id: Id)
    requires JobConserved(s, id)
    ensures JobConserved(AfterLaunch(s, reject), id)
  {
    TotalAppend(s.agents, Handling(|s.launches|), HoldWeight(InHand, id));
    TotalAppend(s.agents, Handling(|s.launches|), HoldWeight(AtWork, id));
    TotalAppend(s.agents, Submitting(|s.launches|), HoldWeight(InHand, id));
    TotalAppend(s.agents, Submitting(|s.launches|), HoldWeight(AtWork, id));
  }

  lemma StepKeepsJob(s: State, e: Event, id: Id)
    requires JobConserved(s, id) && Enabled(s, e) && !e.Launch?
    ensures JobConserved(After(s, e), id)
  {
    StepAccounts(s, e, id);
    TotalMoves(s, e, HoldWeight(AtWork, id));
  }

  lemma StepAccounts(s: State, e: Event, id: Id)
    requires Accounted(s, id) && Enabled(s, e) && !e.Launch?
    ensures Accounted(After(s, e), id)
  {
    match e {
      case PushJob(p) => PushAccounts(s, p, id);
      case StartRejection(p) => StartAccounts(s, p, id);
      case ReceiveJob(p) => ReceiveAccounts(s, p, id);
      case HandlerEnds(_, _) => EndAccounts(s, e, id);
      case JobEnds(_) => EndAccounts(s, e, id);
      case _ =>
        TotalMoves(s, e, HoldWeight(InHand, id));
        TotalMoves(s, e, HoldWeight(AtWork, id));
    }
  }

  lemma EndAccounts(s: State, e: Event, id: Id)
    requires Accounted(s, id) && Enabled(s, e) && (e.HandlerEnds? || e.JobEnds?)
    ensures Accounted(After(s, e), id)
  {
    TotalMoves(s, e, HoldWeight(InHand, id));
    TotalMoves(s, e, HoldWeight(AtWork, id));
  }

  lemma ReceiveAccounts(s: State, p: nat, id: Id)
    requires Accounted(s, id) && Enabled(s, ReceiveJob(p))
    ensures Accounted(After(s, ReceiveJob(p)), id)
  {
    TotalMoves(s, ReceiveJob(p), HoldWeight(InHand, id));
    TotalMoves(s, ReceiveJob(p), HoldWeight(AtWork, id));
  }

  lemma StartAccounts(s: State, p: nat, id: Id)
    requires Accounted(s, id) && Enabled(s, StartRejection(p))
    ensures Accounted(After(s, StartRejection(p)), id)
  {
    TotalMoves(s, StartRejection(p), HoldWeight(InHand, id));
    TotalMoves(s, StartRejection(p), HoldWeight(AtWork, id));
  }

  lemma PushAccounts(s: State, p: nat, id: Id)
    requires Accounted(s, id) && Enabled(s, PushJob(p))
    ensures Accounted(After(s, PushJob(p)), id)
  {
    TotalMoves(s, PushJob(p), HoldWeight(InHand, id));
    TotalMoves(s, PushJob(p), HoldWeight(AtWork, id));
    CountPush(s.queue, s.agents[p].id, id);
  }

  lemma KeepsJobsConserved(s: State, e: Event)
    requires JobsConserved(s) && Enabled(s, e)
    ensures JobsConserved(After(s, e))
  {
    forall id ensures JobConserved(After(s, e), id) {
      assert JobConserved(s, id);
      if e.Launch? { LaunchKeepsJob(s, e.reject, id); } else { StepKeepsJob(s, e, id); }
    }
  }

  // ----- Which launches are rejected -----

  function Accepted(s: State, id: Id): nat {
    if id < |s.launches| && s.launches[id].accepted then 1 else 0
  }

  /** A handler that was started is running, has returned, or has panicked. */
  ghost predicate HandlerConserved(s: State, id: Id) {
    Held(s, Handled, id) + s.returned[id] + s.panicked[id] == Accepted(s, id)
  }

  ghost predicate HandlersConserved(s: State) {
    forall id :: HandlerConserved(s, id)
  }

  /** A launch needs its rejection when it has one and was refused, or its handler panicked. */
  predicate NeedsRejection(s: State, id: Id) {
    id < |s.launches| && s.launches[id].reject && (!s.launches[id].accepted || id in s.panicked)
  }

  ghost predicate SubmittedAsNeeded(s: State, id: Id) {
    s.submitted[id] == if NeedsRejection(s, id) then 1 else 0
  }

  ghost predicate AllSubmittedAsNeeded(s: State) {
    forall id :: SubmittedAsNeeded(s, id)
  }

  lemma LaunchKeepsHandler(s: State, reject: bool, id: Id)
    requires HandlerConserved(s, id)
    ensures HandlerConserved(AfterLaunch(s, reject), id)
  {
    TotalAppend(s.agents, Handling(|s.launches|), HoldWeight(Handled, id));
    TotalAppend(s.agents, Submitting(|s.launches|), HoldWeight(Handled, id));
  }

  lemma StepKeepsHandler(s: State, e: Event, id: Id)
    requires HandlerConserved(s, id) && Enabled(s, e) && !e.Launch?
    ensures HandlerConserved(After(s, e), id)
  {
    TotalMoves(s, e, HoldWeight(Handled, id));
  }

  lemma KeepsHandlersConserved(s: State, e: Event)
    requires HandlersConserved(s) && Enabled(s, e)
    ensures HandlersConserved(After(s, e))
  {
    forall id ensures HandlerConserved(After(s, e), id) {
      assert HandlerConserved(s, id);
      if e.Launch? { LaunchKeepsHandler(s, e.reject, id); } else { StepKeepsHandler(s, e, id); }
    }
  }

  /** A handler that is still running has neither returned nor panicked. */
  lemma StillRunning(s: State, p: nat)
    requires HandlersConserved(s) && p < |s.agents| && s.agents[p].Handling?
    ensures var id := s.agents[p].id; id < |s.launches| && s.launches[id].accepted && s.panicked[id] == 0 && s.returned[id] == 0
  {
    var id := s.agents[p].id;
    assert HandlerConserved(s, id);
    TotalMoves(s, HandlerEnds(p, false), HoldWeight(Handled, id));
  }

  lemma KeepsSubmitted(s: State, e: Event)
    requires HandlersConserved(s) && AllSubmittedAsNeeded(s) && Enabled(s, e)
    ensures AllSubmittedAsNeeded(After(s, e))
  {
    forall id ensures SubmittedAsNeeded(After(s, e), id) {
      assert SubmittedAsNeeded(s, id) && HandlerConserved(s, id);
      if e.HandlerEnds? { StillRunning(s, e.p); }
    }
  }

  // ----- Every reachable state -----

  ghost predicate Inv(s: State) {
    && SlotsHeld(s) && QueueAttended(s) && JobsConserved(s) && HandlersConserved(s) && AllSubmittedAsNeeded(s)
    && QueueInOrder(s)
  }

  /** The queue holds what was pushed and not yet received, in the order it was pushed. */
  ghost predicate QueueInOrder(s: State) { s.pushed == s.received + s.queue }

  lemma KeepsQueueInOrder(s: State, e: Event)
    requires QueueInOrder(s) && Enabled(s, e)
    ensures QueueInOrder(After(s, e))
  {
    if e.PushJob? && |s.queue| < MAX_PENDING {
      assert s.received + (s.queue + [s.agents[e.p].id]) == (s.received + s.queue) + [s.agents[e.p].id];
    } else if e.ReceiveJob? && s.queue != [] {
      assert s.received + s.queue == (s.received + [s.queue[0]]) + s.queue[1..];
    }
  }

  lemma StepKeeps(s: State, e: Event)
    requires Inv(s) && Enabled(s, e)
    ensures Inv(After(s, e))
  {
    KeepsSlots(s, e);
    KeepsQueueAttended(s, e);
    KeepsJobsConserved(s, e);
    KeepsHandlersConserved(s, e);
    KeepsSubmitted(s, e);
    KeepsQueueInOrder(s, e);
  }

  lemma {:induction false} RunKeeps(s: State, events: seq<Event>)
    requires Inv(s)
    ensures Inv(Run(s, events))
    decreases |events|
  {
    if events != [] {
      if Enabled(s, events[0]) { StepKeeps(s, events[0]); }
      RunKeeps(if Enabled(s, events[0]) then After(s, events[0]) else s, events[1..]);
    }
  }

  lemma Reachable(events: seq<Event>)
    ensures Inv(Run(Initial, events))
  {
    RunKeeps(Initial, events);
  }

  // ----- The main results -----

  /** No lost wakeup: while a job waits, a worker holds a slot, or a goroutine is still to recheck. */
  lemma NoLostWakeup(events: seq<Event>)
    ensures var s := Run(Initial, events);
            s.queue != [] ==>
              exists p :: 0 <= p < |s.agents| && (HoldsWorkerSlot(s.agents[p]) || BeforeRecheck(s.agents[p]))
  {
    Reachable(events);
  }

  /** At most 128 handlers and 8 rejection workers run, and at most 128 jobs wait. */
  lemma Capacity(events: seq<Event>)
    ensures var s := Run(Initial, events);
            && Total(s.agents, HandlerSlot) <= MAX_HANDLERS
            && Total(s.agents, WorkerSlot) <= MAX_WORKERS
            && |s.queue| <= MAX_PENDING
  {
    Reachable(events);
  }

  lemma AsMultisets(s: State)
    requires JobsConserved(s)
    ensures s.submitted == Bag(s.agents, InHand) + multiset(s.queue) + Bag(s.agents, AtWork) + s.finished + s.dropped
  {
    forall id ensures s.submitted[id] == (Bag(s.agents, InHand) + multiset(s.queue) + Bag(s.agents, AtWork) + s.finished + s.dropped)[id] {
      assert JobConserved(s, id);
      BagCounts(s.agents, InHand, id);
      BagCounts(s.agents, AtWork, id);
      QueueCounts(s.queue, id);
    }
  }

  /** Job by job and in number, the submitted jobs are those in hand, queued, running, finished and
      dropped; no job is started twice, and no finished job was dropped. */
  lemma Conservation(events: seq<Event>)
    ensures var s := Run(Initial, events);
            && s.submitted == Bag(s.agents, InHand) + multiset(s.queue) + Bag(s.agents, AtWork) + s.finished + s.dropped
            && |s.submitted| == |Bag(s.agents, InHand)| + |s.queue| + |Bag(s.agents, AtWork)| + |s.finished| + |s.dropped|
            && forall id :: s.started[id] <= 1 && (id in s.started ==> id !in s.dropped && id !in s.queue)
  {
    Reachable(events);
    var s := Run(Initial, events);
    AsMultisets(s);
    forall id ensures s.started[id] <= 1 && (id in s.started ==> id !in s.dropped && id !in s.queue) {
      assert JobConserved(s, id) && SubmittedAsNeeded(s, id);
      QueueCounts(s.queue, id);
    }
  }

  /** Queued jobs are received in the order they were pushed, and what is still queued follows them. */
  lemma FirstInFirstOut(events: seq<Event>)
    ensures var s := Run(Initial, events); s.pushed == s.received + s.queue
  {
    Reachable(events);
  }

  /** A step takes from the front of the queue or adds at its end: a worker starts on the job it received, a
      job that finds no room is dropped, and no other step touches the queue. */
  lemma QueueSteps(events: seq<Event>, e: Event)
    requires Enabled(Run(Initial, events), e)
    ensures var s := Run(Initial, events);
            var s' := After(s, e);
            && (s'.queue == s.queue || e.PushJob? || e.ReceiveJob?)
            && (e.ReceiveJob? && s.queue != [] ==>
                  s'.queue == s.queue[1..] && s'.agents[e.p] == Working(s.queue[0]) && s'.received == s.received + [s.queue[0]]
                  && s'.started == s.started + multiset{s.queue[0]})
            && (e.PushJob? && |s.queue| < MAX_PENDING ==>
                  s'.queue == s.queue + [s.agents[e.p].id] && s'.pushed == s.pushed + [s.agents[e.p].id] && s'.dropped == s.dropped)
            && (e.PushJob? && |s.queue| == MAX_PENDING ==> s'.queue == s.queue && s'.dropped == s.dropped + multiset{s.agents[e.p].id})
  {
    Reachable(events);
  }

  /** A job, or the recheck of the queue, starts a worker exactly while fewer than 8 workers hold slots. */
  lemma WorkerStartsIff(events: seq<Event>, e: Event)
    requires Enabled(Run(Initial, events), e) && (e.StartRejection? || e.StartQueued?)
    ensures var s := Run(Initial, events);
            var s' := After(s, e);
            if Total(s.agents, WorkerSlot) < MAX_WORKERS
            then s'.agents == s.agents[e.p := Done] + [if e.StartRejection? then Working(s.agents[e.p].id) else Draining]
            else s'.agents == s.agents[e.p := if e.StartRejection? then Pushing(s.agents[e.p].id) else Done]
  {
    Reachable(events);
  }

  /** A launch runs exactly while fewer than 128 handlers do; a refused one is rejected if that was asked for. */
  lemma LaunchRunsIff(events: seq<Event>, reject: bool)
    ensures var s := Run(Initial, events);
            var s' := After(s, Launch(reject));
            var accepted := Total(s.agents, HandlerSlot) < MAX_HANDLERS;
            && s'.launches == s.launches + [Launched(accepted, reject)]
            && s'.agents == if accepted then s.agents + [Handling(|s.launches|)]
                            else if reject then s.agents + [Submitting(|s.launches|)] else s.agents
  {
    Reachable(events);
  }

  /** A rejection is submitted exactly for the launches refused and the handlers that panicked, once each. */
  lemma RejectedExactly(events: seq<Event>, id: Id)
    ensures var s := Run(Initial, events);
            s.submitted[id] == (if NeedsRejection(s, id) then 1 else 0)
  {
    Reachable(events);
    assert SubmittedAsNeeded(Run(Initial, events), id);
  }

  /** A job is dropped only at an instant when the queue is full; a launch is refused only at one when
      all handler slots are held. */
  lemma DroppedOnlyWhenFull(events: seq<Event>, e: Event)
    requires Enabled(Run(Initial, events), e)
    ensures var s := Run(Initial, events);
            var s' := After(s, e);
            && (s'.dropped != s.dropped ==> |s.queue| == MAX_PENDING)
            && (|s'.launches| > |s.launches| && !s'.launches[|s.launches|].accepted ==> Total(s.agents, HandlerSlot) == MAX_HANDLERS)
  {
    Reachable(events);
  }

  // ----- The dispatcher as the source keeps it -----

  /** The three channels. A slot channel is its fill level. Each method is one channel operation of
      goroutine `p`, and leaves the channels as the event of the same name does. */
  class Dispatcher {
    var slots: nat
    var rejectSlots: nat
    var queue: seq<Id>

    ghost predicate Shows(s: State)
      reads this
    {
      slots == s.slots && rejectSlots == s.rejectSlots && queue == s.queue
    }

    constructor ()
      ensures Shows(Initial)
    {
      slots, rejectSlots, queue := 0, 0, [];
    }

    method Launch(reject: bool, ghost s: State) returns (accepted: bool)
      requires Shows(s)
      modifies this
      ensures Shows(After(s, Event.Launch(reject)))
      ensures After(s, Event.Launch(reject)).launches == s.launches + [Launched(accepted, reject)]
    {
      accepted := slots < MAX_HANDLERS;
      if accepted { slots := slots + 1; }
    }

    method HandlerDone(ghost s: State, ghost p: nat, ghost panics: bool)
      requires Shows(s) && Enabled(s, HandlerEnds(p, panics)) && s.slots > 0
      modifies this
      ensures Shows(After(s, HandlerEnds(p, panics)))
    {
      slots := slots - 1;
    }

    method StartRejection(ghost s: State, ghost p: nat) returns (started: bool)
      requires Shows(s) && Enabled(s, Event.StartRejection(p))
      modifies this
      ensures Shows(After(s, Event.StartRejection(p))) && started == Spawned(s, Event.StartRejection(p)).Some?
    {
      started := rejectSlots < MAX_WORKERS;
      if started { rejectSlots := rejectSlots + 1; }
    }

    method PushJob(id: Id, ghost s: State, ghost p: nat) returns (queued: bool)
      requires Shows(s) && Enabled(s, Event.PushJob(p)) && s.agents[p].id == id
      modifies this
      ensures Shows(After(s, Event.PushJob(p))) && queued == Next(s, Event.PushJob(p)).Notifying?
    {
      queued := |queue| < MAX_PENDING;
      if queued { queue := queue + [id]; }
    }

    method StartQueued(ghost s: State, ghost p: nat) returns (started: bool)
      requires Shows(s) && Enabled(s, Event.StartQueued(p))
      modifies this
      ensures Shows(After(s, Event.StartQueued(p))) && started == Spawned(s, Event.StartQueued(p)).Some?
    {
      started := rejectSlots < MAX_WORKERS;
      if started { rejectSlots := rejectSlots + 1; }
    }

    method ReceiveJob(ghost s: State, ghost p: nat) returns (job: Option<Id>)
      requires Shows(s) && Enabled(s, Event.ReceiveJob(p))
      modifies this
      ensures Shows(After(s, Event.ReceiveJob(p)))
      ensures Next(s, Event.ReceiveJob(p)) == if job.Some? then Working(job.value) else Exiting
    {
      if |queue| == 0 { return None; }
      job := Some(queue[0]);
      queue := queue[1..];
    }

    method ReleaseSlot(ghost s: State, ghost p: nat)
      requires Shows(s) && Enabled(s, Event.ReleaseSlot(p)) && s.rejectSlots > 0
      modifies this
      ensures Shows(After(s, Event.ReleaseSlot(p)))
    {
      rejectSlots := rejectSlots - 1;
    }

    method ReadLength(ghost s: State, ghost p: nat) returns (pending: bool)
      requires Shows(s) && Enabled(s, Event.ReadLength(p))
      ensures Shows(After(s, Event.ReadLength(p))) && pending == Next(s, Event.ReadLength(p)).Restarting?
    {
      pending := |queue| != 0;
    }
  }

  /** The slots `HandlerDone` and `ReleaseSlot` return are there to return. */
  lemma HolderHasSlot(events: seq<Event>, p: nat)
    requires p < |Run(Initial, events).agents|
    ensures var s := Run(Initial, events);
            && (s.agents[p].Handling? ==> s.slots > 0)
            && (HoldsWorkerSlot(s.agents[p]) ==> s.rejectSlots > 0)
  {
    Reachable(events);
    var s := Run(Initial, events);
    TotalUpdate(s.agents, p, Done, HandlerSlot);
    TotalUpdate(s.agents, p, Done, WorkerSlot);
  }

  // ----- Once launches stop, everything drains -----

  ghost predicate Quiet(s: State) {
    forall p :: 0 <= p < |s.agents| ==> s.agents[p].Done?
  }

  lemma {:induction false} QuietBags(agents: seq<Agent>)
    requires forall p :: 0 <= p < |agents| ==> agents[p].Done?
    ensures Bag(agents, InHand) == multiset{} && Bag(agents, AtWork) == multiset{}
  {
    if agents != [] { QuietBags(agents[1..]); }
  }

  /** With no goroutine active the queue is empty and each submitted job has finished or was dropped. */
  lemma QuietMeansSettled(s: State)
    requires Inv(s) && Quiet(s)
    ensures s.queue == [] && s.submitted == s.finished + s.dropped
  {
    QuietBags(s.agents);
    AsMultisets(s);
  }

  function Phase(a: Agent): nat {
    match a
    case Handling(_) => 3
    case Submitting(_) => 2
    case Pushing(_) => 1
    case _ => 0
  }

  /** While jobs wait, a draining worker will take one; once none wait, a released one will stop. */
  function BusyRank(a: Agent): nat {
    match a
    case Working(_) => 5
    case Exiting => 4
    case Released => 3
    case Notifying | Restarting => 2
    case Draining => 1
    case _ => 0
  }

  function IdleRank(a: Agent): nat {
    match a
    case Working(_) | Notifying | Restarting => 5
    case Draining => 4
    case Exiting => 3
    case Released => 2
    case _ => 0
  }

  function Rank(s: State): nat { if s.queue == [] then Total(s.agents, IdleRank) else Total(s.agents, BusyRank) }

  ghost predicate Before(s': State, s: State) {
    var phase', phase := Total(s'.agents, Phase), Total(s.agents, Phase);
    phase' < phase || (phase' == phase && (|s'.queue| < |s.queue| || (|s'.queue| == |s.queue| && Rank(s') < Rank(s))))
  }

  /** Every step other than a launch moves the dispatcher towards rest. */
  lemma StepProgresses(s: State, e: Event)
    requires Enabled(s, e) && !e.Launch?
    ensures Before(After(s, e), s)
  {
    TotalMoves(s, e, Phase);
    TotalMoves(s, e, BusyRank);
    TotalMoves(s, e, IdleRank);
  }

  /** A goroutine that is not done can always take its next step: none of them blocks. */
  function StepOf(s: State, p: nat): (e: Event)
    requires p < |s.agents| && !s.agents[p].Done?
    ensures Enabled(s, e) && !e.Launch? && e.p == p
  {
    match s.agents[p]
    case Handling(_) => HandlerEnds(p, false)
    case Submitting(_) => StartRejection(p)
    case Pushing(_) => PushJob(p)
    case Notifying | Restarting => StartQueued(p)
    case Working(_) => JobEnds(p)
    case Draining => ReceiveJob(p)
    case Exiting => ReleaseSlot(p)
    case Released => ReadLength(p)
  }

  /** The events of a run without launches, chosen by any scheduler, up to rest. A choice that is not
      possible falls to some goroutine that can move. */
  ghost function Schedule(s: State, pick: State -> Event): (events: seq<Event>)
    ensures Quiet(Run(s, events)) && forall k :: 0 <= k < |events| ==> !events[k].Launch?
    decreases Total(s.agents, Phase), |s.queue|, Rank(s)
  {
    if Quiet(s) then []
    else
      var p :| 0 <= p < |s.agents| && !s.agents[p].Done?;
      var e := if Enabled(s, pick(s)) && !pick(s).Launch? then pick(s) else StepOf(s, p);
      StepProgresses(s, e);
      [e] + Schedule(After(s, e), pick)
  }

  /** From any reachable state and under any scheduler, once launches stop the dispatcher comes to
      rest, with an empty queue and each submitted job finished or dropped. */
  lemma Drains(events: seq<Event>, pick: State -> Event)
    ensures var end := Run(Run(Initial, events), Schedule(Run(Initial, events), pick));
            Quiet(end) && end.queue == [] && end.submitted == end.finished + end.dropped
  {
    Reachable(events);
    var s := Run(Initial, events);
    RunKeeps(s, Schedule(s, pick));
    QuietMeansSettled(Run(s, Schedule(s, pick)));
  }
}
