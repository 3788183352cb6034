/** The command-ownership protocol of the navigation adapter.

    Every coroutine (`navigate`, `feedback`, `stop`) is cut at its awaits; a step is
    what one coroutine does between two of them, and any coroutine may take the next
    step. Reservations are heap objects, named here by their index in `records`,
    because the code compares them by identity. What the bridge, the clock and the
    contract validators answer is an argument of the step. */
module CommandProtocol {
  import opened Wrappers
  import opened OrderedStore
  import opened TerminalEvidence

  datatype Scope = Scope(environmentId: string, sessionId: string)

  /** A validated navigate request; `body` stands for map, target, waypoints and limits. */
  datatype Request = Request(commandId: string, scope: Scope, navigationId: string, deadline: real, body: string)

  datatype StopRequest = StopRequest(requestId: string, scope: Scope, commandId: string, body: string)

  datatype NavKey = NavKey(scope: Scope, navigationId: string)
  datatype StopKey = StopKey(scope: Scope, requestId: string)

  datatype DispatchState =
    | Reserved | AwaitingWorld | Dispatching | DispatchUnknown | Accepted | Rejected | NeverDispatched

  datatype Terminal = HasArrived | HasStopped | HasFailed | WasCancelled | WasRejected

  datatype Record = Record(
    request: Request,
    acceptedAt: Option<real>,
    sequence: int,
    terminal: Option<Terminal>,
    dispatchState: DispatchState)

  datatype Tombstone = Tombstone(request: Request, sequence: int, terminal: Terminal, dispatchState: DispatchState)

  datatype Reason =
    | DeadlineExpired | TargetMismatch | PathBlocked | StoppedBeforeDispatch | StoppedBeforeAccept | DispatchRejected

  datatype NavResult = NavAccepted(commandId: string, acceptedAt: real) | NavRejected(reason: Reason)
  datatype StopResult =
    | AlreadyStopped(finalSequence: int) | StopDone(finalSequence: int) | StopRefused(finalSequence: int)

  datatype CachedNav = CachedNav(request: Request, result: NavResult)
  datatype CachedStop = CachedStop(request: StopRequest, result: StopResult)

  datatype Fault =
    | IdempotencyConflict | OwnershipMismatch | NavigationInProgress | AlreadyTerminal
    | LookupFailed | WorldFailed | Cancelled | AckLost | ContractInvalid | BridgeFailed

  datatype Outcome =
    | Awaiting
    | NavReturned(nav: NavResult) | StopReturned(stop: StopResult) | FeedbackReturned(status: FeedbackStatus)
    | Raised(fault: Fault)

  /** A suspended coroutine: where it waits and which reservation it holds. */
  datatype Task =
    | AtWorld(ref: nat) | AtPost(ref: nat) | AtFeedback(ref: nat)
    | AtStop(ref: nat, stop: StopRequest) | AtPoll(ref: nat, stop: StopRequest, stopId: string)
  {
    predicate Navigates() { AtWorld? || AtPost? }

    predicate Stops() { AtStop? || AtPoll? }
  }

  /** What happened, in order. `StopMarked` and `FeedbackConcluded` are the moments at which terminal
      evidence was written on a reservation; the answers come after. `StopStarted` is the moment a stop call
      is answered locally, or goes to the native engine. */
  datatype Event =
    | Posted(ref: nat, commandId: string) | LostAck(ref: nat) | RefusedAck(ref: nat) | AcceptedAck(ref: nat)
    | FeedbackConcluded(ref: nat) | StopMarked(ref: nat) | StopStarted(stop: StopRequest)
    | Evicted(commandId: string)

  /** `_commands.get(id) is record`. */
  predicate IsActive(records: seq<Record>, commands: map<string, nat>, ref: nat) {
    && ref < |records|
    && records[ref].request.commandId in commands && commands[records[ref].request.commandId] == ref
  }

  datatype State = State(
    records: seq<Record>,
    commands: map<string, nat>,
    retired: Store<string, Tombstone>,
    results: Store<NavKey, CachedNav>,
    stops: Store<StopKey, CachedStop>,
    tasks: map<nat, Task>,
    log: seq<Event>)
  {
    predicate Active(ref: nat) { IsActive(records, commands, ref) }

    function Emit(e: Event): State { this.(log := log + [e]) }

    function Update(ref: nat, r: Record): State
      requires ref < |records|
    {
      this.(records := records[ref := r])
    }

    function Finish(t: nat): State { this.(tasks := tasks - {t}) }
  }

  const Initial := State([], map[], Store([], map[]), Store([], map[]), Store([], map[]), map[], [])

  function KeyOf(r: Request): NavKey { NavKey(r.scope, r.navigationId) }

  function StopKeyOf(r: StopRequest): StopKey { StopKey(r.scope, r.requestId) }

  function EpochOf(r: Record): Epoch { Epoch(r.request.commandId, r.acceptedAt, r.request.navigationId) }

  function Max(a: int, b: int): int { if a < b then b else a }

  /** The key `_bounded_store` drops for a new key, if any. */
  function Dropped<V>(s: Store<string, V>, k: string): seq<Event> {
    if !s.Has(k) && |s.keys| >= MAX_CACHED_ITEMS && s.keys != [] then [Evicted(s.keys[0])] else []
  }

  /** `_retire_command`. */
  function Retire(s: State, ref: nat, terminal: Terminal, state: Option<DispatchState>): State
    requires ref < |s.records|
  {
    var record := s.records[ref];
    var id := record.request.commandId;
    if !s.Active(ref) && s.retired.Has(id) then s
    else
      var after := record.(
        terminal := Some(terminal),
        dispatchState := if state.Some? then state.value else record.dispatchState);
      s.(records := s.records[ref := after],
         commands := if s.Active(ref) then s.commands - {id} else s.commands,
         retired := s.retired.BoundedPut(id, Tombstone(record.request, record.sequence, terminal, after.dispatchState)),
         log := s.log + Dropped(s.retired, id))
  }

  /** `_finish_rejected_navigation`; `valid` is what the result validator says. */
  function FinishRejected(s: State, ref: nat, reason: Reason, valid: bool): (State, Outcome)
    requires ref < |s.records|
  {
    if !valid then (s, Raised(ContractInvalid))
    else
      var request := s.records[ref].request;
      var stored := s.(results := s.results.BoundedPut(KeyOf(request), CachedNav(request, NavRejected(reason))));
      (Retire(stored, ref, WasRejected, Some(Rejected)), NavReturned(NavRejected(reason)))
  }

  // ------------------------------------------------------------- navigate

  /** What looking up map and target and checking the path finds, in the code's order. */
  datatype Lookup = LookupFails | Clear | Mismatch | Blocked

  function NavigateBegin(s: State, t: nat, request: Request, lookup: Lookup, now: real, valid: bool): (State, Outcome) {
    var id := request.commandId;
    if s.results.Has(KeyOf(request)) then
      var cached := s.results.Get(KeyOf(request));
      (s, if cached.request != request then Raised(IdempotencyConflict) else NavReturned(cached.result))
    else if id in s.commands then
      (s, Raised(if s.commands[id] < |s.records| && s.records[s.commands[id]].request == request
                 then NavigationInProgress else OwnershipMismatch))
    else if s.retired.Has(id) then
      (s, Raised(if s.retired.Get(id).request == request then AlreadyTerminal else OwnershipMismatch))
    else
      var ref := |s.records|;
      var reserved := s.(records := s.records + [Record(request, None, -1, None, Reserved)],
                         commands := s.commands[id := ref]);
      if lookup.LookupFails? then (Retire(reserved, ref, HasFailed, Some(NeverDispatched)), Raised(LookupFailed))
      else
        var refusal :=
          if now > request.deadline then Some(DeadlineExpired)
          else if lookup.Mismatch? then Some(TargetMismatch)
          else if lookup.Blocked? then Some(PathBlocked)
          else None;
        if refusal.Some? then
          if valid then FinishRejected(reserved, ref, refusal.value, true)
          else (Retire(reserved, ref, HasFailed, Some(NeverDispatched)), Raised(ContractInvalid))
        else
          (reserved.Update(ref, reserved.records[ref].(dispatchState := AwaitingWorld))
                   .(tasks := s.tasks[t := AtWorld(ref)]), Awaiting)
  }

  datatype WorldReply = WorldCancelled | WorldUnavailable | WorldReady(now: real)

  function NavigateAfterWorld(s: State, t: nat, ref: nat, reply: WorldReply, valid: bool): (State, Outcome)
    requires ref < |s.records|
  {
    var done := s.Finish(t);
    match reply
    case WorldCancelled => (Retire(done, ref, WasCancelled, Some(NeverDispatched)), Raised(Cancelled))
    case WorldUnavailable => (Retire(done, ref, HasFailed, Some(NeverDispatched)), Raised(WorldFailed))
    case WorldReady(now) =>
      if !s.Active(ref) then FinishRejected(done, ref, StoppedBeforeDispatch, valid)
      else if now > s.records[ref].request.deadline then FinishRejected(done, ref, DeadlineExpired, valid)
      else
        (s.Update(ref, s.records[ref].(dispatchState := Dispatching))
          .(tasks := s.tasks[t := AtPost(ref)])
          .Emit(Posted(ref, s.records[ref].request.commandId)), Awaiting)
  }

  /** The move POST's answer: lost or cancelled, refused, or acknowledged. */
  datatype Ack = Lost | RefusedByBridge | Acknowledged(now: real)

  function NavigateAfterPost(s: State, t: nat, ref: nat, ack: Ack, valid: bool): (State, Outcome)
    requires ref < |s.records|
  {
    var done := s.Finish(t);
    if ack.Lost? then
      (if s.Active(ref)
       then done.Update(ref, s.records[ref].(dispatchState := DispatchUnknown)).Emit(LostAck(ref))
       else done, Raised(AckLost))
    else if !s.Active(ref) then FinishRejected(done, ref, StoppedBeforeAccept, valid)
    else if ack.RefusedByBridge? then FinishRejected(done.Emit(RefusedAck(ref)), ref, DispatchRejected, valid)
    else if !valid then (done, Raised(ContractInvalid))
    else
      var request := s.records[ref].request;
      var result := NavAccepted(request.commandId, ack.now);
      (done.Update(ref, s.records[ref].(acceptedAt := Some(ack.now), dispatchState := Accepted))
           .(results := s.results.BoundedPut(KeyOf(request), CachedNav(request, result)))
           .Emit(AcceptedAck(ref)), NavReturned(result))
  }

  // ------------------------------------------------------------- feedback

  function FeedbackBegin(s: State, t: nat, commandId: string, scope: Scope): (State, Outcome) {
    if commandId !in s.commands || s.commands[commandId] >= |s.records|
       || s.records[s.commands[commandId]].request.scope != scope
    then (s, Raised(OwnershipMismatch))
    else (s.(tasks := s.tasks[t := AtFeedback(s.commands[commandId])]), Awaiting)
  }

  datatype FeedbackReply = FeedbackUnavailable | FeedbackObserved(telemetry: Telemetry, afterSequence: int, valid: bool)

  function TerminalFor(status: FeedbackStatus): Terminal {
    match status
    case Arrived => HasArrived
    case Stopped => HasStopped
    case _ => HasFailed
  }

  function FeedbackEnd(s: State, t: nat, ref: nat, reply: FeedbackReply): (State, Outcome)
    requires ref < |s.records|
  {
    var done := s.Finish(t);
    match reply
    case FeedbackUnavailable => (done, Raised(BridgeFailed))
    case FeedbackObserved(telemetry, afterSequence, valid) =>
      var record := s.records[ref];
      var status := StatusOf(telemetry, EpochOf(record), record.terminal == Some(HasStopped));
      var counted := record.(sequence := Max(record.sequence + 1, afterSequence + 1));
      if !Concludes(status) then
        (done.Update(ref, counted), if valid then FeedbackReturned(status) else Raised(ContractInvalid))
      else
        var marked := done.Update(ref, counted.(terminal := Some(TerminalFor(status)))).Emit(FeedbackConcluded(ref));
        if valid then (Retire(marked, ref, TerminalFor(status), None), FeedbackReturned(status))
        else (marked, Raised(ContractInvalid))
  }

  // ----------------------------------------------------------------- stop

  predicate LocallyTerminal(r: Record) {
    r.terminal.Some? || r.dispatchState in {Reserved, AwaitingWorld, NeverDispatched, Rejected}
  }

  function StopBegin(s: State, t: nat, request: StopRequest, valid: bool): (State, Outcome) {
    var id := request.commandId;
    if s.stops.Has(StopKeyOf(request)) then
      var cached := s.stops.Get(StopKeyOf(request));
      (s, if cached.request != request then Raised(IdempotencyConflict) else StopReturned(cached.result))
    else if id in s.commands then
      var ref := s.commands[id];
      if ref >= |s.records| || s.records[ref].request.scope != request.scope then (s, Raised(OwnershipMismatch))
      else if !LocallyTerminal(s.records[ref]) then
        (s.(tasks := s.tasks[t := AtStop(ref, request)]).Emit(StopStarted(request)), Awaiting)
      else
        var sequence := FinalSequence(s.records[ref]);
        var counted := s.Update(ref, s.records[ref].(sequence := sequence));
        if !valid then (counted, Raised(ContractInvalid))
        else
          var result := AlreadyStopped(sequence);
          (Retire(counted.Emit(StopStarted(request)), ref, HasStopped, Some(NeverDispatched))
             .(stops := s.stops.BoundedPut(StopKeyOf(request), CachedStop(request, result))), StopReturned(result))
    else if s.retired.Has(id) && s.retired.Get(id).request.scope == request.scope then
      var tombstone := s.retired.Get(id);
      var sequence := Max(0, tombstone.sequence + 1);
      var counted := s.(retired := s.retired.Put(id, tombstone.(sequence := sequence)));
      if !valid then (counted, Raised(ContractInvalid))
      else
        var result := AlreadyStopped(sequence);
        (counted.Emit(StopStarted(request))
                .(stops := s.stops.BoundedPut(StopKeyOf(request), CachedStop(request, result))), StopReturned(result))
    else (s, Raised(OwnershipMismatch))
  }

  function FinalSequence(r: Record): int { Max(0, r.sequence + 1) }

  function RefuseStop(s: State, ref: nat, valid: bool): (State, Outcome)
    requires ref < |s.records|
  {
    (s, if valid then StopReturned(StopRefused(FinalSequence(s.records[ref]))) else Raised(ContractInvalid))
  }

  /** The native stop POST: a transport failure, a refusal, or acceptance under the engine's stop id. */
  datatype StopPostReply = StopUnavailable | StopPostRefused(valid: bool) | StopPostTaken(stopId: string)

  function StopAfterPost(s: State, t: nat, ref: nat, request: StopRequest, reply: StopPostReply): (State, Outcome)
    requires ref < |s.records|
  {
    match reply
    case StopUnavailable => (s.Finish(t), Raised(BridgeFailed))
    case StopPostRefused(valid) => RefuseStop(s.Finish(t), ref, valid)
    case StopPostTaken(stopId) => (s.(tasks := s.tasks[t := AtPoll(ref, request, stopId)]), Awaiting)
  }

  /** One poll of results and world; `late` says the stop's deadline has passed. */
  datatype StopPoll = PollFailed | Polled(observation: Observation, late: bool, valid: bool)

  function StopAfterPoll(s: State, t: nat, ref: nat, request: StopRequest, stopId: string, poll: StopPoll)
    : (State, Outcome)
    requires ref < |s.records|
  {
    var done := s.Finish(t);
    match poll
    case PollFailed => (done, Raised(BridgeFailed))
    case Polled(observation, late, valid) =>
      if !StopConfirmed(observation, stopId, request.commandId) then
        if late then RefuseStop(done, ref, valid) else (s, Awaiting)
      else
        var sequence := FinalSequence(s.records[ref]);
        var marked := done.Update(ref, s.records[ref].(terminal := Some(HasStopped), sequence := sequence))
                          .Emit(StopMarked(ref));
        if !valid then (marked, Raised(ContractInvalid))
        else
          var result := StopDone(sequence);
          (Retire(marked.(stops := s.stops.BoundedPut(StopKeyOf(request), CachedStop(request, result))),
                  ref, HasStopped, None), StopReturned(result))
  }

  // ----------------------------------------------------------------- runs

  /** One step of any coroutine; `t` names it. */
  datatype Step =
    | StartNavigate(t: nat, request: Request, lookup: Lookup, now: real, valid: bool)
    | ResumeWorld(t: nat, world: WorldReply, valid: bool)
    | ResumePost(t: nat, ack: Ack, valid: bool)
    | StartFeedback(t: nat, commandId: string, scope: Scope)
    | ResumeFeedback(t: nat, feedback: FeedbackReply)
    | StartStop(t: nat, stop: StopRequest, valid: bool)
    | ResumeStop(t: nat, reply: StopPostReply)
    | ResumePoll(t: nat, poll: StopPoll)

  /** A step is possible when a starting coroutine is new, or a resuming one waits at that await. */
  predicate Enabled(s: State, step: Step) {
    match step
    case StartNavigate(t, _, _, _, _) => t !in s.tasks
    case StartFeedback(t, _, _) => t !in s.tasks
    case StartStop(t, _, _) => t !in s.tasks
    case ResumeWorld(t, _, _) => t in s.tasks && s.tasks[t].AtWorld? && s.tasks[t].ref < |s.records|
    case ResumePost(t, _, _) => t in s.tasks && s.tasks[t].AtPost? && s.tasks[t].ref < |s.records|
    case ResumeFeedback(t, _) => t in s.tasks && s.tasks[t].AtFeedback? && s.tasks[t].ref < |s.records|
    case ResumeStop(t, _) => t in s.tasks && s.tasks[t].AtStop? && s.tasks[t].ref < |s.records|
    case ResumePoll(t, _) => t in s.tasks && s.tasks[t].AtPoll? && s.tasks[t].ref < |s.records|
  }

  function Apply(s: State, step: Step): (State, Outcome)
    requires Enabled(s, step)
  {
    match step
    case StartNavigate(t, request, lookup, now, valid) => NavigateBegin(s, t, request, lookup, now, valid)
    case ResumeWorld(t, reply, valid) => NavigateAfterWorld(s, t, s.tasks[t].ref, reply, valid)
    case ResumePost(t, ack, valid) => NavigateAfterPost(s, t, s.tasks[t].ref, ack, valid)
    case StartFeedback(t, commandId, scope) => FeedbackBegin(s, t, commandId, scope)
    case ResumeFeedback(t, reply) => FeedbackEnd(s, t, s.tasks[t].ref, reply)
    case StartStop(t, request, valid) => StopBegin(s, t, request, valid)
    case ResumeStop(t, reply) => StopAfterPost(s, t, s.tasks[t].ref, s.tasks[t].stop, reply)
    case ResumePoll(t, poll) => StopAfterPoll(s, t, s.tasks[t].ref, s.tasks[t].stop, s.tasks[t].stopId, poll)
  }

  /** Any interleaving: steps that are not possible are skipped. */
  function Run(s: State, steps: seq<Step>): State
    decreases |steps|
  {
    if steps == [] then s
    else Run(if Enabled(s, steps[0]) then Apply(s, steps[0]).0 else s, steps[1..])
  }
}
