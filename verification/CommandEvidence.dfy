/** What the answers of `feedback` and `stop` rest on, read off the observation they were given. */
module CommandEvidence {
  import opened Wrappers
  import opened OrderedStore
  import opened TerminalEvidence
  import opened CommandProtocol
  import opened CommandSafety
  import opened CommandTheorems
  import opened CommandStops

  // ------------------------------------------------------------------ stop

  /** An event of the stop command acknowledges it. */
  ghost predicate StopAcked(payload: seq<NativeEvent>, stopId: string) {
    exists i :: 0 <= i < |payload| && payload[i].commandId == stopId && payload[i].ok
      && (payload[i].status == "completed" || payload[i].status == "stopped")
  }

  /** An event of the command says that it was stopped or had ended. */
  ghost predicate CommandEnded(payload: seq<NativeEvent>, commandId: string) {
    exists i :: 0 <= i < |payload| && payload[i].commandId == commandId
      && (payload[i].status == "interrupted" || payload[i].status == "stopped" || payload[i].status == "cancelled"
          || payload[i].status == "completed" || payload[i].status == "failed" || payload[i].status == "unhandled")
  }

  /** Neither the command nor the route is active, the stop was acknowledged, and the command has ended. */
  ghost predicate ShowsStop(o: Observation, stopId: string, commandId: string) {
    && o.activeCommand != Some(commandId) && !o.routeActive
    && StopAcked(o.payload, stopId) && CommandEnded(o.payload, commandId)
  }

  lemma AckedIff(payload: seq<NativeEvent>, stopId: string)
    ensures StopAcked(payload, stopId)
            <==> exists e :: e in EventsOf(payload, stopId) && e.ok && e.status in {"completed", "stopped"}
  {
    hide EventsOf;
    if e :| e in EventsOf(payload, stopId) && e.ok && e.status in {"completed", "stopped"} {
      var i :| 0 <= i < |payload| && payload[i] == e;
    }
    if i :| 0 <= i < |payload| && payload[i].commandId == stopId && payload[i].ok
            && (payload[i].status == "completed" || payload[i].status == "stopped") {
      assert payload[i] in EventsOf(payload, stopId);
    }
  }

  lemma EndedIff(payload: seq<NativeEvent>, commandId: string)
    ensures CommandEnded(payload, commandId)
            <==> exists e :: e in EventsOf(payload, commandId)
                   && (e.status in STOPPED_STATUSES || e.status in ENDED_STATUSES)
  {
    hide EventsOf;
    if e :| e in EventsOf(payload, commandId) && (e.status in STOPPED_STATUSES || e.status in ENDED_STATUSES) {
      var i :| 0 <= i < |payload| && payload[i] == e;
      assert CommandEnded(payload, commandId);
    }
    if CommandEnded(payload, commandId) {
      var i :| 0 <= i < |payload| && payload[i].commandId == commandId
        && (payload[i].status in STOPPED_STATUSES || payload[i].status in ENDED_STATUSES);
      assert payload[i] in EventsOf(payload, commandId);
    }
  }

  lemma ShownIsConfirmed(o: Observation, stopId: string, commandId: string)
    ensures StopConfirmed(o, stopId, commandId) <==> ShowsStop(o, stopId, commandId)
  {
    hide EventsOf, StopAcked, CommandEnded;
    AckedIff(o.payload, stopId);
    EndedIff(o.payload, commandId);
  }

  /** One poll of a stop, exactly: it answers `confirmed` if and only if the observation shows the stop, and is rejected
      only when it does not and the time is up; nothing but a shown stop touches the reservation. */
  lemma StopPollAnswer(s: State, t: nat, poll: StopPoll)
    requires Enabled(s, ResumePoll(t, poll))
    ensures var (n, answer) := Apply(s, ResumePoll(t, poll));
            var task := s.tasks[t];
            var shown := poll.Polled? && ShowsStop(poll.observation, task.stopId, task.stop.commandId);
            && (answer.StopReturned? && answer.stop.StopDone? <==> shown && poll.valid)
            && (answer.StopReturned? && answer.stop.StopRefused? <==> poll.Polled? && !shown && poll.late && poll.valid)
            && !(answer.StopReturned? && answer.stop.AlreadyStopped?)
            && (answer.Awaiting? <==> poll.Polled? && !shown && !poll.late)
            && (answer == Raised(BridgeFailed) <==> poll.PollFailed?)
            && (!shown ==> n == s.(tasks := n.tasks))
            && (shown ==> |n.records| == |s.records| && n.records[task.ref].terminal == Some(HasStopped)
                          && (poll.valid ==> !n.Active(task.ref)))
  {
    hide StopConfirmed, ShowsStop, Store.BoundedPut;
    if poll.Polled? {
      ShownIsConfirmed(poll.observation, s.tasks[t].stopId, s.tasks[t].stop.commandId);
    }
  }

  /** The step marks `ref` as stopped, on an observation that shows the stop of its command. */
  ghost predicate MarksOn(s: State, step: Step, ref: nat) {
    && Enabled(s, step) && step.ResumePoll? && s.tasks[step.t].ref == ref && step.poll.Polled? && ref < |s.records|
    && s.tasks[step.t].stop.commandId == s.records[ref].request.commandId
    && ShowsStop(step.poll.observation, s.tasks[step.t].stopId, s.records[ref].request.commandId)
  }

  lemma StepMarks(s: State, step: Step, ref: nat)
    requires Reachable(s) && Enabled(s, step)
    requires StopMarked(ref) in Apply(s, step).0.log && StopMarked(ref) !in s.log
    ensures MarksOn(s, step, ref)
  {
    LogTells(s, step);
    ReachableHeld(s);
    hide Apply, Reachable, Evicts, StopConfirmed, ShowsStop, StopHeld;
    EvictionsOnly(s.log + Writes(s, step), s.retired, Apply(s, step).0, StopMarked(ref));
    assert StopMarked(ref) in Writes(s, step);
    assert step.ResumePoll? && step.poll.Polled?;
    ShownIsConfirmed(step.poll.observation, s.tasks[step.t].stopId, s.tasks[step.t].stop.commandId);
  }

  lemma EvictionsOnly(base: seq<Event>, retired: Store<string, Tombstone>, n: State, e: Event)
    requires Evicts(base, retired, n) && e in n.log && !e.Evicted?
    ensures e in base
  {
    var i :| 0 <= i < |n.log| && n.log[i] == e;
    assert n.log[..|base|] == base;
  }

  lemma ReachableHeld(s: State)
    requires Reachable(s)
    ensures StopHeld(s.tasks, s.records)
  {
    var steps :| Run(Initial, steps) == s;
    InitialKeeps();
    assert StopInv(Initial);
    RunKeepsStops(Initial, steps);
    hide Run, Inv, StopsTracked, StopTasks, StopsTrue;
  }

  lemma RunOnly(s: State, step: Step)
    ensures Run(s, [step]) == if Enabled(s, step) then Apply(s, step).0 else s
  {
    hide Apply, Enabled;
    assert [step][1..] == [];
  }

  lemma RunSnoc(steps: seq<Step>)
    requires steps != []
    ensures var before := Run(Initial, steps[..|steps| - 1]);
            var step := steps[|steps| - 1];
            Run(Initial, steps) == if Enabled(before, step) then Apply(before, step).0 else before
  {
    hide Apply, Enabled;
    var n := |steps| - 1;
    assert steps == steps[..n] + [steps[n]];
    RunOnly(Run(Initial, steps[..n]), steps[n]);
    hide Run;
    RunAppend(Initial, steps[..n], [steps[n]]);
  }

  /** In every run, a reservation is marked as stopped only by a poll whose observation shows it: its command and the
      route inactive, the stop acknowledged and the command ended. */
  lemma {:induction false} StopMarksAreShown(steps: seq<Step>, ref: nat)
    requires StopMarked(ref) in Run(Initial, steps).log
    ensures exists n :: 0 <= n < |steps| && MarksOn(Run(Initial, steps[..n]), steps[n], ref)
    decreases |steps|
  {
    hide Apply, MarksOn, Enabled;
    if steps != [] {
      var n := |steps| - 1;
      var before := Run(Initial, steps[..n]);
      RunSnoc(steps);
      if StopMarked(ref) in before.log {
        StopMarksAreShown(steps[..n], ref);
        var m :| 0 <= m < n && MarksOn(Run(Initial, steps[..n][..m]), steps[..n][m], ref);
        assert steps[..n][..m] == steps[..m];
        assert MarksOn(Run(Initial, steps[..m]), steps[m], ref);
      } else {
        assert Reachable(before);
        StepMarks(before, steps[n], ref);
      }
    }
  }

  lemma LocallyIff(r: Record)
    ensures LocallyTerminal(r) <==> !(r.terminal == None && r.dispatchState in {Dispatching, DispatchUnknown, Accepted})
  {
    match r.dispatchState
    case Reserved | AwaitingWorld | NeverDispatched | Rejected =>
    case Dispatching | DispatchUnknown | Accepted =>
  }

  lemma RetireLeaves(s: State, ref: nat, terminal: Terminal, state: Option<DispatchState>)
    requires s.Active(ref)
    ensures var n := Retire(s, ref, terminal, state);
            n.commands == s.commands - {s.records[ref].request.commandId} && n.tasks == s.tasks
  {
  }

  /** What `stop` answers before it sends anything. A repeat gets the stored answer, and a foreign or unknown command an
      error; a command whose motion may have been sent and has not ended goes to the engine, and every other one is
      answered `already_stopped` with the next sequence number. */
  lemma StopAnswer(s: State, t: nat, stop: StopRequest, valid: bool)
    requires Inv(s)
    ensures var (n, answer) := StopBegin(s, t, stop, valid);
            var key, id := StopKey(stop.scope, stop.requestId), stop.commandId;
            if key in s.stops.vals then
              && n == s
              && answer == if s.stops.vals[key].request == stop then StopReturned(s.stops.vals[key].result)
                           else Raised(IdempotencyConflict)
            else if id in s.commands then
              var r := s.records[s.commands[id]];
              if r.request.scope != stop.scope then n == s && answer == Raised(OwnershipMismatch)
              else if r.terminal == None && r.dispatchState in {Dispatching, DispatchUnknown, Accepted} then
                answer == Awaiting && n.tasks == s.tasks[t := AtStop(s.commands[id], stop)] && n.commands == s.commands
              else
                && n.tasks == s.tasks && n.commands == (if valid then s.commands - {id} else s.commands)
                && answer == if valid then StopReturned(AlreadyStopped(Max(0, r.sequence + 1)))
                             else Raised(ContractInvalid)
            else
              && n.commands == s.commands && n.tasks == s.tasks
              && answer == if id !in s.retired.vals || s.retired.vals[id].request.scope != stop.scope
                           then Raised(OwnershipMismatch)
                           else if valid then StopReturned(AlreadyStopped(Max(0, s.retired.vals[id].sequence + 1)))
                           else Raised(ContractInvalid)
  {
    assert Filed(s.records, s.commands);
    hide Inv, Store.BoundedPut;
    if stop.commandId in s.commands {
      var ref := s.commands[stop.commandId];
      var counted := s.Update(ref, s.records[ref].(sequence := FinalSequence(s.records[ref])));
      RetireLeaves(counted.Emit(StopStarted(stop)), ref, HasStopped, Some(NeverDispatched));
      LocallyIff(s.records[ref]);
    }
    hide Retire, LocallyTerminal;
  }

  // -------------------------------------------------------------- feedback

  /** The reservation `ref` is active, under this command and scope. */
  predicate Owns(s: State, ref: nat, commandId: string, scope: Scope) {
    s.Active(ref) && s.records[ref].request.commandId == commandId && s.records[ref].request.scope == scope
  }

  /** Feedback looks at the world if and only if the caller owns an active reservation under the command, and then for
      that one; every other caller gets an error. It fails if and only if the bridge does. */
  lemma FeedbackStarts(s: State, t: nat, commandId: string, scope: Scope, reply: FeedbackReply)
    requires Filed(s.records, s.commands)
    ensures var (n, answer) := FeedbackBegin(s, t, commandId, scope);
            && (answer.Awaiting? <==> exists ref :: Owns(s, ref, commandId, scope))
            && (forall ref :: Owns(s, ref, commandId, scope) ==> n == s.(tasks := s.tasks[t := AtFeedback(ref)]))
            && (!answer.Awaiting? ==> n == s && answer == Raised(OwnershipMismatch))
    ensures forall ref: nat :: ref < |s.records| ==>
              && (FeedbackEnd(s, t, ref, reply).1 == Raised(BridgeFailed) <==> reply.FeedbackUnavailable?)
              && (reply.FeedbackUnavailable? ==> FeedbackEnd(s, t, ref, reply).0 == s.(tasks := s.tasks - {t}))
  {
    if commandId in s.commands && s.records[s.commands[commandId]].request.scope == scope {
      assert Owns(s, s.commands[commandId], commandId, scope);
    }
    hide Retire, StatusOf;
  }

  /** The event at `i` of the payload says that the accepted motion of this reservation has ended. */
  ghost predicate EndingAt(r: Record, payload: seq<NativeEvent>, i: int) {
    EndsAt(payload, Epoch(r.request.commandId, r.acceptedAt, r.request.navigationId), i)
  }

  ghost predicate NoEnding(r: Record, payload: seq<NativeEvent>) { forall i :: !EndingAt(r, payload, i) }

  predicate InMotion(r: Record, o: Observation) { o.activeCommand == Some(r.request.commandId) || o.routeActive }

  predicate InTheWay(t: Telemetry) { t.collision || t.routeBlocked }

  /** Of an ended motion: whether it arrived, was stopped or failed. */
  predicate SaysArrived(e: NativeEvent, verified: bool) { e.ok && e.status == "completed" && verified }

  predicate SaysStopped(e: NativeEvent) {
    e.status == "interrupted" || e.status == "stopped" || e.status == "cancelled"
  }

  lemma StatusWithEnding(t: Telemetry, r: Record, marked: bool, i: int)
    requires EndingAt(r, t.observation.payload, i)
    ensures var status := StatusOf(t, EpochOf(r), marked);
            var e := t.observation.payload[i];
            && (status.Blocked? <==> InMotion(r, t.observation))
            && (status.Arrived? <==> !InMotion(r, t.observation) && SaysArrived(e, t.arrivalVerified))
            && (status.Stopped? <==> !InMotion(r, t.observation) && SaysStopped(e))
            && (status.FailedStatus? <==>
                  !InMotion(r, t.observation) && !SaysArrived(e, t.arrivalVerified) && !SaysStopped(e))
  {
    TerminalIsEnding(t.observation.payload, EpochOf(r));
    hide TerminalOf, EndsAt;
  }

  lemma StatusWithoutEnding(t: Telemetry, r: Record, marked: bool)
    requires NoEnding(r, t.observation.payload)
    ensures StatusOf(t, EpochOf(r), marked) ==
            if InTheWay(t) then FeedbackStatus.Blocked else if InMotion(r, t.observation) then Moving
            else if marked then Stopped else Queued
  {
    TerminalIsEnding(t.observation.payload, EpochOf(r));
    forall i
      ensures !EndsAt(t.observation.payload, EpochOf(r), i)
    {
      assert !EndingAt(r, t.observation.payload, i);
    }
    hide TerminalOf, EndsAt;
  }

  /** What feedback answers, read off the observation: an event that ends the motion decides once nothing moves any
      more, and blocks while something does; without one it is what is in the way, the motion, or an earlier stop. */
  lemma FeedbackAnswer(s: State, t: nat, ref: nat, reply: FeedbackReply)
    requires ref < |s.records| && reply.FeedbackObserved? && reply.valid
    ensures var r, o, answer := s.records[ref], reply.telemetry.observation, FeedbackEnd(s, t, ref, reply).1;
            && answer.FeedbackReturned?
            && (answer.status.Arrived? <==>
                  && !InMotion(r, o)
                  && exists i :: EndingAt(r, o.payload, i)
                       && SaysArrived(o.payload[i], reply.telemetry.arrivalVerified))
            && (answer.status.Stopped? <==>
                  && !InMotion(r, o)
                  && (|| (exists i :: EndingAt(r, o.payload, i) && SaysStopped(o.payload[i]))
                      || (NoEnding(r, o.payload) && !InTheWay(reply.telemetry) && r.terminal == Some(HasStopped))))
            && (answer.status.FailedStatus? <==>
                  && !InMotion(r, o)
                  && exists i :: EndingAt(r, o.payload, i) && !SaysStopped(o.payload[i])
                       && !SaysArrived(o.payload[i], reply.telemetry.arrivalVerified))
            && (answer.status.Blocked? <==>
                  if NoEnding(r, o.payload) then InTheWay(reply.telemetry) else InMotion(r, o))
            && (answer.status.Moving? <==>
                  NoEnding(r, o.payload) && !InTheWay(reply.telemetry) && InMotion(r, o))
            && (answer.status.Queued? <==>
                  && NoEnding(r, o.payload) && !InTheWay(reply.telemetry) && !InMotion(r, o)
                  && r.terminal != Some(HasStopped))
  {
    var r, o := s.records[ref], reply.telemetry.observation;
    hide Retire, EndingAt, SaysArrived, SaysStopped;
    if NoEnding(r, o.payload) {
      StatusWithoutEnding(reply.telemetry, r, r.terminal == Some(HasStopped));
      hide StatusOf;
    } else {
      var i :| EndingAt(r, o.payload, i);
      StatusWithEnding(reply.telemetry, r, r.terminal == Some(HasStopped), i);
      OneEnding(r, o.payload, i);
      hide StatusOf;
    }
  }

  lemma OneEnding(r: Record, payload: seq<NativeEvent>, i: int)
    requires EndingAt(r, payload, i)
    ensures forall j :: EndingAt(r, payload, j) ==> j == i
  {
  }

  /** The step concludes `ref` by feedback: nothing moves, and either an event ends the motion, or the reservation was
      marked as stopped and nothing is in the way. */
  ghost predicate ConcludesOn(s: State, step: Step, ref: nat) {
    && Enabled(s, step) && step.ResumeFeedback? && s.tasks[step.t].ref == ref && ref < |s.records|
    && step.feedback.FeedbackObserved?
    && var r, t := s.records[ref], step.feedback.telemetry;
       && !InMotion(r, t.observation)
       && (!NoEnding(r, t.observation.payload) || (r.terminal == Some(HasStopped) && !InTheWay(t)))
  }

  lemma StepConcludes(s: State, step: Step, ref: nat)
    requires Reachable(s) && Enabled(s, step)
    requires FeedbackConcluded(ref) in Apply(s, step).0.log && FeedbackConcluded(ref) !in s.log
    ensures ConcludesOn(s, step, ref)
  {
    LogTells(s, step);
    hide Apply, Reachable, Evicts, StopConfirmed, NoEnding, FeedbackConcludes;
    EvictionsOnly(s.log + Writes(s, step), s.retired, Apply(s, step).0, FeedbackConcluded(ref));
    assert FeedbackConcluded(ref) in Writes(s, step);
    ConcludingEvidence(s.records[ref], step.feedback);
  }

  lemma ConcludingEvidence(r: Record, reply: FeedbackReply)
    requires FeedbackConcludes(r, reply)
    ensures var t := reply.telemetry;
            && !InMotion(r, t.observation)
            && (!NoEnding(r, t.observation.payload) || (r.terminal == Some(HasStopped) && !InTheWay(t)))
  {
    TerminalIsEnding(reply.telemetry.observation.payload, EpochOf(r));
    hide TerminalOf, EndsAt;
    if TerminalOf(reply.telemetry.observation.payload, EpochOf(r)).Some? {
      var i :| EndsAt(reply.telemetry.observation.payload, EpochOf(r), i);
      assert EndingAt(r, reply.telemetry.observation.payload, i);
    }
  }

  /** In every run, a reservation is concluded by feedback only on such an observation. */
  lemma {:induction false} FeedbackMarksAreShown(steps: seq<Step>, ref: nat)
    requires FeedbackConcluded(ref) in Run(Initial, steps).log
    ensures exists n :: 0 <= n < |steps| && ConcludesOn(Run(Initial, steps[..n]), steps[n], ref)
    decreases |steps|
  {
    hide Apply, ConcludesOn, Enabled;
    if steps != [] {
      var n := |steps| - 1;
      var before := Run(Initial, steps[..n]);
      RunSnoc(steps);
      if FeedbackConcluded(ref) in before.log {
        FeedbackMarksAreShown(steps[..n], ref);
        var m :| 0 <= m < n && ConcludesOn(Run(Initial, steps[..n][..m]), steps[..n][m], ref);
        assert steps[..n][..m] == steps[..m];
        assert ConcludesOn(Run(Initial, steps[..m]), steps[m], ref);
      } else {
        assert Reachable(before);
        StepConcludes(before, steps[n], ref);
      }
    }
  }

  // -------------------------------------------------------------- navigate

  /** Nothing stands against the request: no result under its key, and its command id neither active nor retained. */
  predicate Unknown(s: State, request: Request) {
    && NavKey(request.scope, request.navigationId) !in s.results.vals
    && request.commandId !in s.commands && request.commandId !in s.retired.vals
  }

  /** What `navigate` answers before it sends anything: a repeat gets the stored result, a conflict an error; a new
      request goes on to the world check if and only if it is in time, its target matches and its path is clear. */
  lemma NavigateAnswer(s: State, t: nat, request: Request, lookup: Lookup, now: real, valid: bool)
    ensures var (n, answer) := NavigateBegin(s, t, request, lookup, now, valid);
            var key := NavKey(request.scope, request.navigationId);
            && (answer.Awaiting? <==> Unknown(s, request) && lookup.Clear? && now <= request.deadline)
            && (answer.Awaiting? ==> n.tasks == s.tasks[t := AtWorld(|s.records|)])
            && (!answer.Awaiting? ==> n.tasks == s.tasks)
            && (key in s.results.vals ==>
                  && n == s
                  && (answer.NavReturned? <==> s.results.vals[key].request == request)
                  && (answer.NavReturned? ==> answer.nav == s.results.vals[key].result)
                  && (!answer.NavReturned? ==> answer == Raised(IdempotencyConflict)))
            && (key !in s.results.vals && !Unknown(s, request) ==>
                  && n == s && answer.Raised?
                  && answer.fault in {OwnershipMismatch, NavigationInProgress, AlreadyTerminal}
                  && (answer.fault.NavigationInProgress? <==>
                        && request.commandId in s.commands && s.commands[request.commandId] < |s.records|
                        && s.records[s.commands[request.commandId]].request == request)
                  && (answer.fault.AlreadyTerminal? <==>
                        && request.commandId !in s.commands && s.retired.vals[request.commandId].request == request))
            && (Unknown(s, request) ==>
                  && (answer == Raised(LookupFailed) <==> lookup.LookupFails?)
                  && (answer == NavReturned(NavRejected(DeadlineExpired)) <==>
                        !lookup.LookupFails? && now > request.deadline && valid)
                  && (answer == NavReturned(NavRejected(TargetMismatch)) <==>
                        lookup.Mismatch? && now <= request.deadline && valid)
                  && (answer == NavReturned(NavRejected(PathBlocked)) <==>
                        lookup.Blocked? && now <= request.deadline && valid)
                  && (answer == Raised(ContractInvalid) <==>
                        !lookup.LookupFails? && !(lookup.Clear? && now <= request.deadline) && !valid))
  {
    RetireKeepsTasks();
    hide Retire;
  }

  /** The step reserves `ref` for a request that is in time, matches its target and has a clear path. */
  ghost predicate ReservesOn(s: State, step: Step, ref: nat) {
    && Enabled(s, step) && step.StartNavigate? && ref == |s.records| && Unknown(s, step.request)
    && step.lookup.Clear? && step.now <= step.request.deadline
  }

  ghost predicate ReservedIn(steps: seq<Step>, n: int, ref: nat) {
    0 <= n < |steps| && ReservesOn(Run(Initial, steps[..n]), steps[n], ref)
  }

  lemma StepHolds(s: State, step: Step, t: nat)
    requires Inv(s) && Enabled(s, step) && t in Apply(s, step).0.tasks && Apply(s, step).0.tasks[t].Navigates()
    ensures var ref := Apply(s, step).0.tasks[t].ref;
            ReservesOn(s, step, ref) || Holds(s, t, ref)
  {
    hide Inv, Frames, NavigateBegin, Unknown, Apply, Enabled;
    StepKeeps(s, step);
    if step.StartNavigate? {
      StartHolds(s, step, t);
    } else if step.ResumeWorld? || step.ResumePost? {
      NavigateHolders(s, step);
      RecordsStay(s, step);
      HolderIsFiled(Apply(s, step).0, t);
    } else {
      OwnerHolders(s, step);
      RecordsStay(s, step);
      HolderIsFiled(Apply(s, step).0, t);
    }
  }

  lemma HolderIsFiled(s: State, t: nat)
    requires Inv(s) && t in s.tasks
    ensures s.tasks[t].ref < |s.records|
  {
    assert Frames(s.tasks, |s.records|);
    hide Inv;
  }

  lemma StartHolds(s: State, step: Step, t: nat)
    requires Enabled(s, step) && step.StartNavigate?
    requires var n := Apply(s, step).0; t in n.tasks && n.tasks[t].Navigates()
    ensures var ref := Apply(s, step).0.tasks[t].ref;
            ReservesOn(s, step, ref) || Holds(s, t, ref)
  {
    NavigateAnswer(s, step.t, step.request, step.lookup, step.now, step.valid);
    hide NavigateBegin, Unknown;
  }

  /** Only a navigate call that starts makes a reservation. */
  lemma RecordsStay(s: State, step: Step)
    requires Enabled(s, step) && !step.StartNavigate?
    ensures |Apply(s, step).0.records| == |s.records|
  {
    RetireKeepsTasks();
    hide Retire, StatusOf, StopConfirmed, StopKeyOf, NavigateBegin, LocallyTerminal, Store.BoundedPut, Store.Put;
  }

  lemma {:induction false} HeldWasReserved(steps: seq<Step>, t: nat)
    requires var s := Run(Initial, steps); t in s.tasks && s.tasks[t].Navigates()
    ensures exists n :: ReservedIn(steps, n, Run(Initial, steps).tasks[t].ref)
    decreases |steps|
  {
    hide Apply, Enabled, ReservesOn;
    if steps != [] {
      var n := |steps| - 1;
      var before := Run(Initial, steps[..n]);
      RunSnoc(steps);
      InitialKeeps();
      RunKeeps(Initial, steps[..n]);
      hide Inv, Run;
      var ref := Run(Initial, steps).tasks[t].ref;
      if Enabled(before, steps[n]) {
        StepHolds(before, steps[n], t);
      }
      if !ReservesOn(before, steps[n], ref) {
        assert Holds(before, t, ref);
        HeldWasReserved(steps[..n], t);
        var m :| ReservedIn(steps[..n], m, ref);
        assert steps[..n][..m] == steps[..m];
        assert ReservedIn(steps, m, ref);
      } else {
        assert ReservedIn(steps, n, ref);
      }
    }
  }

  /** The step sends the move POST of `ref`: the world check has answered in time and the reservation is active. */
  ghost predicate PostsOn(s: State, step: Step, ref: nat) {
    && Enabled(s, step) && step.ResumeWorld? && s.tasks[step.t] == AtWorld(ref) && ref < |s.records|
    && step.world.WorldReady? && step.world.now <= s.records[ref].request.deadline && s.Active(ref)
  }

  lemma StepPosts(s: State, step: Step, e: Event)
    requires Reachable(s) && Enabled(s, step) && e.Posted? && e in Apply(s, step).0.log && e !in s.log
    ensures PostsOn(s, step, e.ref) && s.records[e.ref].request.commandId == e.commandId
  {
    LogTells(s, step);
    hide Apply, Reachable, Evicts, StopConfirmed, FeedbackConcludes;
    EvictionsOnly(s.log + Writes(s, step), s.retired, Apply(s, step).0, e);
    assert e in Writes(s, step);
  }

  /** In every run, a move POST is sent only in time, for an active reservation, which was made in time for a request
      whose target matched and whose path was clear. */
  lemma {:induction false} PostsAreAdmitted(steps: seq<Step>, e: Event)
    requires e.Posted? && e in Run(Initial, steps).log
    ensures exists m, n :: 0 <= m < n < |steps| && ReservedIn(steps, m, e.ref)
              && PostsOn(Run(Initial, steps[..n]), steps[n], e.ref)
    decreases |steps|
  {
    hide Apply, Enabled, ReservesOn, PostsOn;
    if steps != [] {
      var n := |steps| - 1;
      var before := Run(Initial, steps[..n]);
      RunSnoc(steps);
      if e in before.log {
        PostsAreAdmitted(steps[..n], e);
        var k, m :| 0 <= k < m < n && ReservedIn(steps[..n], k, e.ref)
          && PostsOn(Run(Initial, steps[..n][..m]), steps[..n][m], e.ref);
        assert steps[..n][..k] == steps[..k] && steps[..n][..m] == steps[..m];
        assert ReservedIn(steps, k, e.ref) && PostsOn(Run(Initial, steps[..m]), steps[m], e.ref);
      } else {
        assert Reachable(before);
        StepPosts(before, steps[n], e);
        PosterHolds(before, steps[n], e.ref);
        HeldWasReserved(steps[..n], steps[n].t);
        var k :| ReservedIn(steps[..n], k, e.ref);
        assert steps[..n][..k] == steps[..k];
        assert ReservedIn(steps, k, e.ref) && PostsOn(Run(Initial, steps[..n]), steps[n], e.ref);
      }
    }
  }

  lemma PosterHolds(s: State, step: Step, ref: nat)
    requires PostsOn(s, step, ref)
    ensures step.ResumeWorld? && step.t in s.tasks && s.tasks[step.t].Navigates() && s.tasks[step.t].ref == ref
  {
  }
}
