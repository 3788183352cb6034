/** The promises of the command-ownership protocol, over every interleaving. */
module CommandTheorems {
  import opened Wrappers
  import opened OrderedStore
  import opened TerminalEvidence
  import opened CommandProtocol
  import opened CommandSafety

  /** A state some interleaving leads to from a new adapter. */
  ghost predicate Reachable(s: State) { exists steps :: Run(Initial, steps) == s }

  lemma ReachableInv(s: State)
    requires Reachable(s)
    ensures Inv(s)
  {
    var steps :| Run(Initial, steps) == s;
    InitialKeeps();
    RunKeeps(Initial, steps);
  }

  /** Reservations are only added, and keep their requests. */
  ghost predicate SameRequests(s: State, n: State) {
    && |s.records| <= |n.records|
    && forall i: nat :: i < |s.records| ==> n.records[i].request == s.records[i].request
  }

  // ------------------------------------------------------- what the log means

  function AfterWorldWrites(s: State, ref: nat, reply: WorldReply): seq<Event>
    requires ref < |s.records|
  {
    if s.Active(ref) && reply.WorldReady? && reply.now <= s.records[ref].request.deadline
    then [Posted(ref, s.records[ref].request.commandId)] else []
  }

  function AfterPostWrites(s: State, ref: nat, ack: Ack, valid: bool): seq<Event> {
    if !s.Active(ref) then []
    else
      match ack
      case Lost => [LostAck(ref)]
      case RefusedByBridge => [RefusedAck(ref)]
      case Acknowledged(_) => if valid then [AcceptedAck(ref)] else []
  }

  /** Feedback concludes: not while the command or the route is active, and only on terminal evidence or on
      a reservation a stop already marked. */
  predicate FeedbackConcludes(r: Record, reply: FeedbackReply) {
    && reply.FeedbackObserved? && !MotionActive(reply.telemetry.observation, EpochOf(r))
    && (|| TerminalOf(reply.telemetry.observation.payload, EpochOf(r)).Some?
        || (r.terminal == Some(HasStopped) && !reply.telemetry.collision && !reply.telemetry.routeBlocked))
  }

  function StopPollWrites(ref: nat, request: StopRequest, stopId: string, poll: StopPoll): seq<Event> {
    if poll.Polled? && StopConfirmed(poll.observation, stopId, request.commandId) then [StopMarked(ref)] else []
  }

  /** A stop call starts: it is answered locally, or goes to the native engine. */
  predicate StopStarts(s: State, request: StopRequest, valid: bool) {
    var id := request.commandId;
    && !s.stops.Has(StopKeyOf(request))
    && if id in s.commands then
         && s.commands[id] < |s.records| && s.records[s.commands[id]].request.scope == request.scope
         && (LocallyTerminal(s.records[s.commands[id]]) ==> valid)
       else
         s.retired.Has(id) && s.retired.Get(id).request.scope == request.scope && valid
  }

  /** What a step records, evictions apart. */
  function Writes(s: State, step: Step): seq<Event>
    requires Enabled(s, step)
  {
    match step
    case ResumeWorld(t, reply, _) => AfterWorldWrites(s, s.tasks[t].ref, reply)
    case ResumePost(t, ack, valid) => AfterPostWrites(s, s.tasks[t].ref, ack, valid)
    case ResumeFeedback(t, reply) =>
      if FeedbackConcludes(s.records[s.tasks[t].ref], reply) then [FeedbackConcluded(s.tasks[t].ref)] else []
    case StartStop(_, request, valid) => if StopStarts(s, request, valid) then [StopStarted(request)] else []
    case ResumePoll(t, poll) => StopPollWrites(s.tasks[t].ref, s.tasks[t].stop, s.tasks[t].stopId, poll)
    case _ => []
  }

  /** `n.log` extends `base` by evictions, each of a tombstone that was retained and no longer is. */
  ghost predicate Evicts(base: seq<Event>, retired: Store<string, Tombstone>, n: State) {
    && |base| <= |n.log| && n.log[..|base|] == base
    && forall i :: |base| <= i < |n.log| ==>
         n.log[i].Evicted? && retired.Has(n.log[i].commandId) && !n.retired.Has(n.log[i].commandId)
  }

  lemma RetireEvicts(s: State, ref: nat, terminal: Terminal, state: Option<DispatchState>)
    requires ref < |s.records| && s.retired.Bounded()
    ensures Evicts(s.log, s.retired, Retire(s, ref, terminal, state))
  {
    var record := s.records[ref];
    var id := record.request.commandId;
    if s.Active(ref) || !s.retired.Has(id) {
      var after := if state.Some? then state.value else record.dispatchState;
      BoundedPutKeeps(s.retired, id, Tombstone(record.request, record.sequence, terminal, after));
      if |s.retired.keys| >= MAX_CACHED_ITEMS {
        assert s.retired.keys[0] in s.retired.keys;
      }
    }
  }

  lemma RejectEvicts(s: State, ref: nat, reason: Reason, valid: bool)
    requires ref < |s.records| && s.retired.Bounded()
    ensures var (n, outcome) := FinishRejected(s, ref, reason, valid);
            Evicts(s.log, s.retired, n) && (outcome.Raised? || outcome == NavReturned(NavRejected(reason)))
  {
    var request := s.records[ref].request;
    var c := CachedNav(request, NavRejected(reason));
    RetireEvicts(s.(results := s.results.BoundedPut(KeyOf(request), c)), ref, WasRejected, Some(Rejected));
  }

  lemma StartNavigateTells(s: State, t: nat, request: Request, lookup: Lookup, now: real, valid: bool)
    requires s.retired.Bounded()
    ensures Evicts(s.log, s.retired, NavigateBegin(s, t, request, lookup, now, valid).0)
  {
    var ref := |s.records|;
    var reserved := s.(records := s.records + [Record(request, None, -1, None, Reserved)],
                       commands := s.commands[request.commandId := ref]);
    RetireEvicts(reserved, ref, HasFailed, Some(NeverDispatched));
    RejectEvicts(reserved, ref, DeadlineExpired, true);
    RejectEvicts(reserved, ref, TargetMismatch, true);
    RejectEvicts(reserved, ref, PathBlocked, true);
    hide Retire, FinishRejected;
  }

  lemma WorldTells(s: State, t: nat, ref: nat, reply: WorldReply, valid: bool)
    requires ref < |s.records| && s.retired.Bounded()
    ensures var (n, outcome) := NavigateAfterWorld(s, t, ref, reply, valid);
            && Evicts(s.log + AfterWorldWrites(s, ref, reply), s.retired, n)
            && (outcome.Awaiting? <==> AfterWorldWrites(s, ref, reply) != [])
  {
    var done := s.Finish(t);
    assert s.log + [] == s.log;
    RetireEvicts(done, ref, WasCancelled, Some(NeverDispatched));
    RetireEvicts(done, ref, HasFailed, Some(NeverDispatched));
    RejectEvicts(done, ref, StoppedBeforeDispatch, valid);
    RejectEvicts(done, ref, DeadlineExpired, valid);
    hide Retire, FinishRejected;
  }

  lemma PostTells(s: State, t: nat, ref: nat, ack: Ack, valid: bool)
    requires ref < |s.records| && s.retired.Bounded()
    ensures var (n, outcome) := NavigateAfterPost(s, t, ref, ack, valid);
            && Evicts(s.log + AfterPostWrites(s, ref, ack, valid), s.retired, n)
            && (outcome.NavReturned? && outcome.nav.NavAccepted? <==>
                AfterPostWrites(s, ref, ack, valid) == [AcceptedAck(ref)])
  {
    var done := s.Finish(t);
    assert s.log + [] == s.log;
    RejectEvicts(done, ref, StoppedBeforeAccept, valid);
    RejectEvicts(done.Emit(RefusedAck(ref)), ref, DispatchRejected, valid);
    hide Retire, FinishRejected;
  }

  lemma NoneEvicted(n: State, retired: Store<string, Tombstone>)
    ensures Evicts(n.log, retired, n)
  {
  }

  lemma FeedbackTells(s: State, t: nat, ref: nat, reply: FeedbackReply)
    requires ref < |s.records| && s.retired.Bounded()
    ensures Evicts(s.log + if FeedbackConcludes(s.records[ref], reply) then [FeedbackConcluded(ref)] else [], s.retired,
                   FeedbackEnd(s, t, ref, reply).0)
  {
    hide Retire;
    if reply.FeedbackObserved? {
      var record := s.records[ref];
      FeedbackConcludesIff(reply.telemetry, EpochOf(record), record.terminal == Some(HasStopped));
      hide StatusOf, MotionActive;
      var status := StatusOf(reply.telemetry, EpochOf(record), record.terminal == Some(HasStopped));
      if Concludes(status) && reply.valid {
        var counted := record.(sequence := Max(record.sequence + 1, reply.afterSequence + 1));
        var marked := s.Finish(t).Update(ref, counted.(terminal := Some(TerminalFor(status))))
                       .Emit(FeedbackConcluded(ref));
        hide Evicts;
        RetireEvicts(marked, ref, TerminalFor(status), None);
      } else {
        assert s.log + [] == s.log;
        NoneEvicted(FeedbackEnd(s, t, ref, reply).0, s.retired);
      }
    } else {
      assert s.log + [] == s.log;
    }
  }

  lemma StopBeginTells(s: State, t: nat, request: StopRequest, valid: bool)
    requires s.retired.Bounded()
    ensures Evicts(s.log + if StopStarts(s, request, valid) then [StopStarted(request)] else [], s.retired,
                   StopBegin(s, t, request, valid).0)
  {
    hide Retire;
    assert s.log + [] == s.log;
    NoneEvicted(StopBegin(s, t, request, valid).0, s.retired);
    if request.commandId in s.commands && s.commands[request.commandId] < |s.records| {
      var ref := s.commands[request.commandId];
      var counted := s.Update(ref, s.records[ref].(sequence := FinalSequence(s.records[ref])));
      hide Evicts;
      RetireEvicts(counted.Emit(StopStarted(request)), ref, HasStopped, Some(NeverDispatched));
    }
  }

  lemma StopPollTells(s: State, t: nat, ref: nat, request: StopRequest, stopId: string, poll: StopPoll)
    requires ref < |s.records| && s.retired.Bounded()
    ensures Evicts(s.log + StopPollWrites(ref, request, stopId, poll), s.retired,
                   StopAfterPoll(s, t, ref, request, stopId, poll).0)
  {
    hide StopConfirmed, Retire;
    if StopPollWrites(ref, request, stopId, poll) == [] || !poll.valid {
      assert s.log + [] == s.log;
      NoneEvicted(StopAfterPoll(s, t, ref, request, stopId, poll).0, s.retired);
    } else {
      var sequence := FinalSequence(s.records[ref]);
      var marked := s.Finish(t).Update(ref, s.records[ref].(terminal := Some(HasStopped), sequence := sequence))
                     .Emit(StopMarked(ref));
      var cached := marked.(stops := s.stops.BoundedPut(StopKeyOf(request), CachedStop(request, StopDone(sequence))));
      hide Evicts;
      RetireEvicts(cached, ref, HasStopped, None);
    }
  }

  /** The log says what happened: it grows by what the step did and by real evictions of tombstones; a
      navigate step sends its move POST, or answers with an acceptance, exactly when it records that. */
  lemma LogTells(s: State, step: Step)
    requires Reachable(s) && Enabled(s, step)
    ensures var (n, outcome) := Apply(s, step);
            && Evicts(s.log + Writes(s, step), s.retired, n)
            && (step.ResumeWorld? ==>
                  (outcome.Awaiting? <==>
                   Writes(s, step) == [Posted(s.tasks[step.t].ref, s.records[s.tasks[step.t].ref].request.commandId)]))
            && (step.ResumePost? ==>
                  (outcome.NavReturned? && outcome.nav.NavAccepted? <==>
                   Writes(s, step) == [AcceptedAck(s.tasks[step.t].ref)]))
  {
    ReachableInv(s);
    assert s.retired.Bounded();
    assert s.log + [] == s.log;
    hide Inv, NavigateBegin, NavigateAfterWorld, NavigateAfterPost, FeedbackEnd, StopBegin, StopAfterPoll, Evicts;
    match step
    case StartNavigate(t, request, lookup, now, valid) => StartNavigateTells(s, t, request, lookup, now, valid);
    case ResumeWorld(t, reply, valid) => WorldTells(s, t, s.tasks[t].ref, reply, valid);
    case ResumePost(t, ack, valid) => PostTells(s, t, s.tasks[t].ref, ack, valid);
    case StartFeedback(_, _, _) => SilentTells(s, step);
    case ResumeFeedback(t, reply) => FeedbackTells(s, t, s.tasks[t].ref, reply);
    case StartStop(t, request, valid) => StopBeginTells(s, t, request, valid);
    case ResumeStop(_, _) => SilentTells(s, step);
    case ResumePoll(t, poll) => StopPollTells(s, t, s.tasks[t].ref, s.tasks[t].stop, s.tasks[t].stopId, poll);
  }

  lemma SilentTells(s: State, step: Step)
    requires Enabled(s, step) && (step.StartFeedback? || step.ResumeStop?)
    ensures Evicts(s.log, s.retired, Apply(s, step).0)
  {
  }

  // ------------------------------------------------- stop beats late navigate

  /** The step answers a stop, not from its cache, for the reservation `ref`. */
  ghost predicate AnswersStop(s: State, step: Step, ref: nat)
    requires Enabled(s, step)
  {
    && ref < |s.records| && Apply(s, step).1.StopReturned? && !Apply(s, step).1.stop.StopRefused?
    && (|| (step.ResumePoll? && s.tasks[step.t].ref == ref)
        || (step.StartStop? && s.records[ref].request.commandId == step.stop.commandId
            && !s.stops.Has(StopKeyOf(step.stop))))
  }

  /** The step sends the move POST of `ref`, or answers its navigate call with an acceptance. */
  ghost predicate Moves(s: State, step: Step, ref: nat)
    requires Enabled(s, step)
  {
    && (step.ResumeWorld? || step.ResumePost?) && s.tasks[step.t].ref == ref
    && (Apply(s, step).1.Awaiting? || (Apply(s, step).1.NavReturned? && Apply(s, step).1.nav.NavAccepted?))
  }

  ghost predicate Gone(s: State, ref: nat) { ref < |s.records| && !s.Active(ref) }

  lemma RetireGone(gone: nat)
    ensures forall s: State, ref: nat, terminal: Terminal, state: Option<DispatchState> ::
              ref < |s.records| && Gone(s, gone) ==> Gone(Retire(s, ref, terminal, state), gone)
  {
  }

  lemma NavigateGone(s: State, step: Step, ref: nat)
    requires Enabled(s, step) && Gone(s, ref) && (step.StartNavigate? || step.ResumeWorld? || step.ResumePost?)
    ensures Gone(Apply(s, step).0, ref)
  {
    RetireGone(ref);
    hide Retire, StopBegin, StopAfterPoll, FeedbackBegin, FeedbackEnd, KeyOf;
    if step.StartNavigate? {
      var n := s.(records := s.records + [Record(step.request, None, -1, None, Reserved)],
                  commands := s.commands[step.request.commandId := |s.records|]);
      assert Gone(n, ref);
    }
  }

  lemma OwnerGone(s: State, step: Step, ref: nat)
    requires Enabled(s, step) && Gone(s, ref) && !step.StartNavigate? && !step.ResumeWorld? && !step.ResumePost?
    ensures Gone(Apply(s, step).0, ref)
  {
    RetireGone(ref);
    hide Retire, StatusOf, StopConfirmed, StopKeyOf, NavigateBegin, NavigateAfterWorld, NavigateAfterPost;
  }

  /** A reservation that left `_commands` never returns to it. */
  lemma GoneStays(s: State, step: Step, ref: nat)
    requires Enabled(s, step) && Gone(s, ref)
    ensures Gone(Apply(s, step).0, ref)
  {
    hide Apply, Gone;
    if step.StartNavigate? || step.ResumeWorld? || step.ResumePost? {
      NavigateGone(s, step, ref);
    } else {
      OwnerGone(s, step, ref);
    }
  }

  lemma {:induction false} GoneForever(s: State, steps: seq<Step>, ref: nat)
    requires Gone(s, ref)
    ensures Gone(Run(s, steps), ref)
    decreases |steps|
  {
    if steps != [] {
      if Enabled(s, steps[0]) {
        GoneStays(s, steps[0], ref);
        GoneForever(Apply(s, steps[0]).0, steps[1..], ref);
      } else {
        GoneForever(s, steps[1..], ref);
      }
    }
  }

  lemma AnsweredIsInactive(s: State, step: Step, ref: nat)
    requires Enabled(s, step) && AnswersStop(s, step, ref)
    ensures Gone(Apply(s, step).0, ref)
  {
  }

  lemma InactiveCannotMove(s: State, step: Step, ref: nat)
    requires Enabled(s, step) && Gone(s, ref)
    ensures !Moves(s, step, ref)
  {
  }

  /** A navigate call holds the reservation. */
  predicate Holds(s: State, t: nat, ref: nat) { t in s.tasks && s.tasks[t].Navigates() && s.tasks[t].ref == ref }

  ghost predicate Held(s: State, ref: nat) { exists t :: Holds(s, t, ref) }

  /** Some run leads to a step that sends the move POST of `ref`, or answers its navigate call with an acceptance. */
  ghost predicate CanMove(s: State, ref: nat) {
    exists steps, later :: Enabled(Run(s, steps), later) && Moves(Run(s, steps), later, ref)
  }

  lemma RetireKeepsTasks()
    ensures forall s: State, ref: nat, terminal: Terminal, state: Option<DispatchState> :: ref < |s.records| ==>
              Retire(s, ref, terminal, state).tasks == s.tasks
              && |Retire(s, ref, terminal, state).records| == |s.records|
  {
  }

  /** Whoever holds an old reservation held it before. */
  ghost predicate HoldersKept(s: State, n: State) {
    && |s.records| <= |n.records|
    && forall t, ref: nat :: Holds(n, t, ref) && ref < |s.records| ==> Holds(s, t, ref)
  }

  lemma NavigateHolders(s: State, step: Step)
    requires Enabled(s, step) && (step.StartNavigate? || step.ResumeWorld? || step.ResumePost?)
    ensures HoldersKept(s, Apply(s, step).0)
  {
    RetireKeepsTasks();
    hide Retire, StopBegin, StopAfterPoll, FeedbackBegin, FeedbackEnd, KeyOf;
  }

  lemma OwnerHolders(s: State, step: Step)
    requires Enabled(s, step) && !step.StartNavigate? && !step.ResumeWorld? && !step.ResumePost?
    ensures HoldersKept(s, Apply(s, step).0)
  {
    RetireKeepsTasks();
    hide Retire, StatusOf, StopConfirmed, StopKeyOf, NavigateBegin, NavigateAfterWorld, NavigateAfterPost;
  }

  /** A reservation that no navigate call holds is not held after the step either. */
  lemma UnheldStays(s: State, step: Step, ref: nat)
    requires Enabled(s, step) && ref < |s.records| && !Held(s, ref)
    ensures ref < |Apply(s, step).0.records| && !Held(Apply(s, step).0, ref)
  {
    hide Apply, Holds;
    if step.StartNavigate? || step.ResumeWorld? || step.ResumePost? {
      NavigateHolders(s, step);
    } else {
      OwnerHolders(s, step);
    }
  }

  lemma {:induction false} UnheldForever(s: State, steps: seq<Step>, ref: nat)
    requires ref < |s.records| && !Held(s, ref)
    ensures !Held(Run(s, steps), ref)
    decreases |steps|
  {
    hide Held, Apply;
    if steps != [] {
      if Enabled(s, steps[0]) {
        UnheldStays(s, steps[0], ref);
        UnheldForever(Apply(s, steps[0]).0, steps[1..], ref);
      } else {
        UnheldForever(s, steps[1..], ref);
      }
    }
  }

  lemma MoverHolds(s: State, step: Step, ref: nat)
    requires Enabled(s, step) && Moves(s, step, ref)
    ensures Held(s, ref)
  {
    hide Apply;
    assert Holds(s, step.t, ref);
  }

  /** An active reservation moves as soon as the call that holds it resumes in time. */
  lemma HolderMoves(s: State, t: nat, ref: nat) returns (later: Step)
    requires s.Active(ref) && Holds(s, t, ref)
    ensures Enabled(s, later) && Moves(s, later, ref)
  {
    hide Retire, FinishRejected;
    later := if s.tasks[t].AtWorld?
             then ResumeWorld(t, WorldReady(s.records[ref].request.deadline), true)
             else ResumePost(t, Acknowledged(0.0), true);
  }

  /** In every state, reachable or not: some run sends the move POST of a reservation, or answers its navigate call with
      an acceptance, if and only if the reservation is active and a navigate call holds it. */
  lemma NavigateMovesIff(s: State, ref: nat)
    requires ref < |s.records|
    ensures CanMove(s, ref) <==> s.Active(ref) && Held(s, ref)
  {
    if s.Active(ref) && Held(s, ref) {
      var t :| Holds(s, t, ref);
      var later := HolderMoves(s, t, ref);
      assert Run(s, []) == s;
      assert Enabled(Run(s, []), later) && Moves(Run(s, []), later, ref);
    } else if CanMove(s, ref) {
      var steps, later :| Enabled(Run(s, steps), later) && Moves(Run(s, steps), later, ref);
      if s.Active(ref) {
        MoverHolds(Run(s, steps), later, ref);
        UnheldForever(s, steps, ref);
      } else {
        GoneForever(s, steps, ref);
        InactiveCannotMove(Run(s, steps), later, ref);
      }
    }
  }

  /** So once a stop has answered for a reservation, not from the cache, then whatever runs next, the navigate call
      holding that reservation never sends its move POST and never returns accepted. */
  lemma StopBeatsNavigate(s: State, stop: Step, ref: nat, steps: seq<Step>, later: Step)
    requires Enabled(s, stop) && AnswersStop(s, stop, ref)
    requires Enabled(Run(Apply(s, stop).0, steps), later)
    ensures !Moves(Run(Apply(s, stop).0, steps), later, ref)
  {
    AnsweredIsInactive(s, stop, ref);
    hide Moves, Enabled, AnswersStop, Run, Apply, Held;
    NavigateMovesIff(Apply(s, stop).0, ref);
  }

  // ------------------------------------------------- ownership is never lost

  /** In every reachable state a posted reservation that is not yet released is still in `_commands`. Its owner's stop
      goes to the native engine if and only if its request id is not cached; no stop that is not a replay is answered
      locally. */
  lemma OwnershipIsNotLost(s: State, ref: nat, t: nat, stop: StopRequest, valid: bool)
    requires Reachable(s) && WasPosted(s.log, s.records, ref) && !Released(s.log, ref)
    requires stop.commandId == s.records[ref].request.commandId
    ensures s.Active(ref)
    ensures stop.scope == s.records[ref].request.scope ==>
              (StopBegin(s, t, stop, valid) ==
                 (s.(tasks := s.tasks[t := AtStop(ref, stop)]).Emit(StopStarted(stop)), Awaiting)
               <==> !s.stops.Has(StopKeyOf(stop)))
    ensures stop.scope != s.records[ref].request.scope && !s.stops.Has(StopKeyOf(stop)) ==>
              StopBegin(s, t, stop, valid) == (s, Raised(OwnershipMismatch))
  {
    ReachableInv(s);
    assert OwnedWell(s.records, s.commands, s.log, ref);
  }

  /** After a lost move answer the reservation stays, until a stop is confirmed natively. */
  lemma LostAnswerNeedsAStop(s: State, ref: nat)
    requires Reachable(s) && LostAck(ref) in s.log && StopMarked(ref) !in s.log
    ensures s.Active(ref) && s.records[ref].acceptedAt.None? && s.records[ref].terminal.None?
    ensures !LocallyTerminal(s.records[ref])
    ensures Posted(ref, s.records[ref].request.commandId) in s.log && !Released(s.log, ref)
  {
    ReachableInv(s);
    assert Concerns(LostAck(ref), ref);
    assert OwnedWell(s.records, s.commands, s.log, ref);
  }

  /** Feedback on an observation where the command or the route is active releases nothing, whatever the native
      history says. */
  lemma ActiveMotionIsKept(s: State, t: nat, ref: nat, reply: FeedbackReply)
    requires ref < |s.records| && reply.FeedbackObserved?
    requires MotionActive(reply.telemetry.observation, EpochOf(s.records[ref]))
    ensures var n := FeedbackEnd(s, t, ref, reply).0;
            && n.commands == s.commands && n.retired == s.retired && n.log == s.log
            && n.records == s.records[ref := s.records[ref].(sequence := n.records[ref].sequence)]
  {
    var record := s.records[ref];
    FeedbackConcludesIff(reply.telemetry, EpochOf(record), record.terminal == Some(HasStopped));
    hide StatusOf, MotionActive, Retire;
  }

  // ------------------------------------------------- one move POST per command id

  /** Two move POSTs under one command id have an eviction of that id's tombstone between them. */
  lemma OnePostPerTombstone(s: State, i: nat, j: nat)
    requires Reachable(s) && i < j < |s.log| && s.log[i].Posted? && s.log[j].Posted?
    requires s.log[i].commandId == s.log[j].commandId
    ensures exists k: nat :: i < k < j && s.log[k] == Evicted(s.log[i].commandId)
  {
    ReachableInv(s);
  }

  // ------------------------------------------------------------ composing runs

  lemma RunStep(s: State, steps: seq<Step>, step: Step)
    requires Enabled(Run(s, steps), step)
    ensures Run(s, steps + [step]) == Apply(Run(s, steps), step).0
    decreases |steps|
  {
    if steps == [] {
      assert ([] + [step])[1..] == [];
    } else {
      assert (steps + [step])[1..] == steps[1..] + [step];
      RunStep(if Enabled(s, steps[0]) then Apply(s, steps[0]).0 else s, steps[1..], step);
    }
  }

  lemma RunFirst(s: State, step: Step, steps: seq<Step>)
    requires Enabled(s, step)
    ensures Run(s, [step] + steps) == Run(Apply(s, step).0, steps)
  {
    assert ([step] + steps)[1..] == steps;
  }

  lemma RunTwo(s: State, first: Step, second: Step)
    requires Enabled(s, first) && Enabled(Apply(s, first).0, second)
    ensures Run(s, [first] + [second]) == Apply(Apply(s, first).0, second).0
  {
    hide Apply, Enabled;
    RunFirst(s, first, [second]);
    RunFirst(Apply(s, first).0, second, []);
    assert [second] == [second] + [];
  }

  lemma {:induction false} RunAppend(s: State, steps: seq<Step>, more: seq<Step>)
    ensures Run(s, steps + more) == Run(Run(s, steps), more)
    decreases |steps|
  {
    if steps == [] {
      assert [] + more == more;
    } else {
      assert (steps + more)[1..] == steps[1..] + more;
      RunAppend(if Enabled(s, steps[0]) then Apply(s, steps[0]).0 else s, steps[1..], more);
    }
  }
}
