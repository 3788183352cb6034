/** How a reservation ends: what the step that retires it answers, and what it leaves on the reservation and on the
    tombstone. */
module CommandTombstones {
  import opened Wrappers
  import opened OrderedStore
  import opened TerminalEvidence
  import opened CommandProtocol
  import opened CommandSafety
  import opened CommandEvidence

  /** The reservation is no longer active and marked like this, and the tombstone of its command is a copy of it. */
  predicate Buried(n: State, ref: nat, terminal: Terminal, state: DispatchState) {
    && ref < |n.records| && !n.Active(ref)
    && var r := n.records[ref];
       && r.terminal == Some(terminal) && r.dispatchState == state
       && r.request.commandId in n.retired.vals
       && n.retired.vals[r.request.commandId] == Tombstone(r.request, r.sequence, terminal, state)
  }

  /** The reservation has ended before, and its tombstone is still there. */
  predicate Remembered(s: State, ref: nat)
    requires ref < |s.records|
  {
    !s.Active(ref) && s.records[ref].request.commandId in s.retired.vals
  }

  /** Which reservations there are, which are active, and what is said of them and of the ended ones. */
  predicate SameRecords(s: State, n: State) {
    n.records == s.records && n.commands == s.commands && n.retired == s.retired
  }

  /** The result is what the same request is answered from now on. */
  predicate Stored(n: State, request: Request, result: NavResult) {
    var key := NavKey(request.scope, request.navigationId);
    key in n.results.vals && n.results.vals[key] == CachedNav(request, result)
  }

  lemma PutHolds<K, V>(s: Store<K, V>, k: K, v: V)
    requires s.Bounded()
    ensures k in s.BoundedPut(k, v).vals && s.BoundedPut(k, v).vals[k] == v
  {
    BoundedPutKeeps(s, k, v);
    hide Store.BoundedPut;
  }

  lemma RetireEnds(s: State, ref: nat, terminal: Terminal, state: Option<DispatchState>)
    requires ref < |s.records| && s.retired.Bounded()
    ensures var n, r := Retire(s, ref, terminal, state), s.records[ref];
            && n.tasks == s.tasks && n.results == s.results && n.stops == s.stops
            && |n.records| == |s.records|
            && (forall i :: 0 <= i < |s.records| && i != ref ==> n.records[i] == s.records[i])
            && ref < |n.records| && n.records[ref].request == r.request && n.records[ref].sequence == r.sequence
            && n.records[ref].acceptedAt == r.acceptedAt
            && if Remembered(s, ref) then n == s
               else Buried(n, ref, terminal, if state.Some? then state.value else r.dispatchState)
  {
    var r := s.records[ref];
    var after := if state.Some? then state.value else r.dispatchState;
    PutHolds(s.retired, r.request.commandId, Tombstone(r.request, r.sequence, terminal, after));
    hide Store.BoundedPut, Store.Bounded;
  }

  lemma RejectEnds(s: State, ref: nat, reason: Reason, valid: bool)
    requires ref < |s.records| && Bounds(s)
    ensures var (n, answer) := FinishRejected(s, ref, reason, valid);
            && n.tasks == s.tasks
            && answer == (if valid then NavReturned(NavRejected(reason)) else Raised(ContractInvalid))
            && (!valid ==> n == s)
            && (valid ==> Stored(n, s.records[ref].request, NavRejected(reason)))
            && (valid && Remembered(s, ref) ==> SameRecords(s, n))
            && (valid && !Remembered(s, ref) ==> Buried(n, ref, WasRejected, Rejected))
  {
    if valid {
      var request := s.records[ref].request;
      var entry := CachedNav(request, NavRejected(reason));
      PutHolds(s.results, KeyOf(request), entry);
      RetireEnds(s.(results := s.results.BoundedPut(KeyOf(request), entry)), ref, WasRejected, Some(Rejected));
    }
    hide Store.BoundedPut, Store.Bounded, Retire, Buried;
  }

  /** The answer of the world check, exactly. The move POST goes out if and only if the reservation is still active and
      in time; a refused call leaves its reservation rejected, a cancelled or failed one never dispatched. */
  lemma WorldAnswer(s: State, t: nat, ref: nat, reply: WorldReply, valid: bool)
    requires ref < |s.records| && Bounds(s)
    ensures var (n, answer) := NavigateAfterWorld(s, t, ref, reply, valid);
            var r := s.records[ref];
            var late := reply.WorldReady? && reply.now > r.request.deadline;
            && (answer.Awaiting? <==> reply.WorldReady? && s.Active(ref) && !late)
            && (answer == Raised(Cancelled) <==> reply.WorldCancelled?)
            && (answer == Raised(WorldFailed) <==> reply.WorldUnavailable?)
            && (answer == NavReturned(NavRejected(StoppedBeforeDispatch)) <==>
                  reply.WorldReady? && !s.Active(ref) && valid)
            && (answer == NavReturned(NavRejected(DeadlineExpired)) <==> s.Active(ref) && late && valid)
            && (answer == Raised(ContractInvalid) <==> reply.WorldReady? && (!s.Active(ref) || late) && !valid)
            && (answer.Awaiting? ==>
                  n == s.(records := s.records[ref := r.(dispatchState := Dispatching)],
                          tasks := s.tasks[t := AtPost(ref)], log := s.log + [Posted(ref, r.request.commandId)]))
            && (!answer.Awaiting? ==> n.tasks == s.tasks - {t})
            && (answer.NavReturned? ==> Stored(n, r.request, answer.nav))
            && (!answer.Awaiting? && (Remembered(s, ref) || answer == Raised(ContractInvalid)) ==> SameRecords(s, n))
            && (!Remembered(s, ref) ==>
                  && (answer == Raised(Cancelled) ==> Buried(n, ref, WasCancelled, NeverDispatched))
                  && (answer == Raised(WorldFailed) ==> Buried(n, ref, HasFailed, NeverDispatched))
                  && (answer.NavReturned? ==> Buried(n, ref, WasRejected, Rejected)))
  {
    var done := s.Finish(t);
    assert Remembered(done, ref) == Remembered(s, ref) && done.Active(ref) == s.Active(ref);
    match reply
    case WorldCancelled => RetireEnds(done, ref, WasCancelled, Some(NeverDispatched));
    case WorldUnavailable => RetireEnds(done, ref, HasFailed, Some(NeverDispatched));
    case WorldReady(_) =>
      RejectEnds(done, ref, StoppedBeforeDispatch, valid);
      RejectEnds(done, ref, DeadlineExpired, valid);
    hide Retire, FinishRejected, Buried, Remembered, Stored, Store.Bounded;
  }

  /** The answer of the move POST, exactly. A lost one leaves the reservation as it is, its dispatch unknown if it is
      still active; an accepted one marks it accepted at the time told, and a refused one leaves it rejected. */
  lemma PostAnswer(s: State, t: nat, ref: nat, ack: Ack, valid: bool)
    requires ref < |s.records| && Bounds(s)
    ensures var (n, answer) := NavigateAfterPost(s, t, ref, ack, valid);
            var r := s.records[ref];
            && n.tasks == s.tasks - {t} && |n.records| == |s.records|
            && (answer == Raised(AckLost) <==> ack.Lost?)
            && (answer == Raised(ContractInvalid) <==> !ack.Lost? && !valid)
            && (answer == NavReturned(NavRejected(StoppedBeforeAccept)) <==> !ack.Lost? && !s.Active(ref) && valid)
            && (answer == NavReturned(NavRejected(DispatchRejected)) <==>
                  ack.RefusedByBridge? && s.Active(ref) && valid)
            && (ack.Acknowledged? && s.Active(ref) && valid <==>
                  answer.NavReturned? && answer.nav.NavAccepted?)
            && (answer.NavReturned? ==> Stored(n, r.request, answer.nav))
            && (answer.NavReturned? && answer.nav.NavAccepted? ==>
                  && answer.nav == NavAccepted(r.request.commandId, ack.now)
                  && n.records == s.records[ref := r.(acceptedAt := Some(ack.now), dispatchState := Accepted)]
                  && n.commands == s.commands && n.retired == s.retired)
            && (ack.Lost? ==>
                  && n.records == (if s.Active(ref) then s.records[ref := r.(dispatchState := DispatchUnknown)]
                                   else s.records)
                  && n.commands == s.commands && n.retired == s.retired)
            && (!ack.Lost? && (Remembered(s, ref) || !valid) ==> SameRecords(s, n))
            && (answer.NavReturned? && answer.nav.NavRejected? && !Remembered(s, ref) ==>
                  Buried(n, ref, WasRejected, Rejected))
  {
    var done := s.Finish(t);
    assert Remembered(done, ref) == Remembered(s, ref) && done.Active(ref) == s.Active(ref);
    if !ack.Lost? && !s.Active(ref) {
      RejectEnds(done, ref, StoppedBeforeAccept, valid);
    } else if ack.RefusedByBridge? {
      RejectEnds(done.Emit(RefusedAck(ref)), ref, DispatchRejected, valid);
    } else if ack.Acknowledged? {
      PutHolds(s.results, KeyOf(s.records[ref].request),
                      CachedNav(s.records[ref].request, NavAccepted(s.records[ref].request.commandId, ack.now)));
    }
    hide Retire, FinishRejected, Buried, Store.Bounded, Store.BoundedPut;
  }

  /** What a new navigate call leaves: an active reservation waiting for the world, or one that has already ended. */
  lemma NavigateLeaves(s: State, t: nat, request: Request, lookup: Lookup, now: real, valid: bool)
    requires Unknown(s, request) && Bounds(s)
    ensures var (n, answer) := NavigateBegin(s, t, request, lookup, now, valid);
            var ref := |s.records|;
            && (answer.Awaiting? ==>
                  && n.records == s.records + [Record(request, None, -1, None, AwaitingWorld)]
                  && n.commands == s.commands[request.commandId := ref] && n.retired == s.retired)
            && (answer.Raised? ==> Buried(n, ref, HasFailed, NeverDispatched))
            && (answer.NavReturned? ==>
                  Buried(n, ref, WasRejected, Rejected) && Stored(n, request, answer.nav))
            && (!answer.Awaiting? ==> ref < |n.records| && n.records[ref].request == request)
  {
    var ref := |s.records|;
    var reserved := s.(records := s.records + [Record(request, None, -1, None, Reserved)],
                       commands := s.commands[request.commandId := ref]);
    assert !Remembered(reserved, ref) && reserved.records[ref].request == request;
    RetireEnds(reserved, ref, HasFailed, Some(NeverDispatched));
    var reason := if now > request.deadline then DeadlineExpired
                  else if lookup.Mismatch? then TargetMismatch else PathBlocked;
    RejectEnds(reserved, ref, reason, true);
    hide Retire, FinishRejected, Buried, Remembered, Stored, Store.Bounded;
  }

  /** The result is what the same stop request is answered from now on. */
  predicate Kept(n: State, stop: StopRequest, result: StopResult) {
    var key := StopKey(stop.scope, stop.requestId);
    key in n.stops.vals && n.stops.vals[key] == CachedStop(stop, result)
  }

  /** The next sequence number after one: it is above it, not negative, and the least such. */
  predicate Follows(next: int, before: int) { next >= 0 && next > before && (next == 0 || next == before + 1) }

  /** A stop of an active reservation that is answered at once takes the next sequence number, and leaves it stopped
      without a dispatch. */
  lemma StopLeaves(s: State, t: nat, stop: StopRequest, valid: bool)
    requires Filed(s.records, s.commands) && Bounds(s) && stop.commandId in s.commands
    requires StopKey(stop.scope, stop.requestId) !in s.stops.vals
    ensures var (n, answer) := StopBegin(s, t, stop, valid);
            var ref := s.commands[stop.commandId];
            answer.StopReturned? ==>
              && Buried(n, ref, HasStopped, NeverDispatched) && Kept(n, stop, answer.stop)
              && n.records[ref].sequence == answer.stop.finalSequence
              && Follows(answer.stop.finalSequence, s.records[ref].sequence)
  {
    var ref := s.commands[stop.commandId];
    var sequence := FinalSequence(s.records[ref]);
    var counted := s.Update(ref, s.records[ref].(sequence := sequence)).Emit(StopStarted(stop));
    assert !Remembered(counted, ref);
    RetireEnds(counted, ref, HasStopped, Some(NeverDispatched));
    PutHolds(s.stops, StopKeyOf(stop), CachedStop(stop, AlreadyStopped(sequence)));
    hide Retire, Store.Bounded, Store.BoundedPut, LocallyTerminal, Remembered;
  }

  /** A stop of a reservation that has ended takes the next sequence number of its tombstone, and changes nothing else
      about it. */
  lemma LateStopLeaves(s: State, t: nat, stop: StopRequest, valid: bool)
    requires Bounds(s) && stop.commandId !in s.commands && StopKey(stop.scope, stop.requestId) !in s.stops.vals
    ensures var (n, answer) := StopBegin(s, t, stop, valid);
            var id := stop.commandId;
            answer.StopReturned? ==>
              && Kept(n, stop, answer.stop) && n.records == s.records && n.commands == s.commands
              && id in s.retired.vals && Follows(answer.stop.finalSequence, s.retired.vals[id].sequence)
              && n.retired.vals == s.retired.vals[id := s.retired.vals[id].(sequence := answer.stop.finalSequence)]
  {
    if stop.commandId in s.retired.vals {
      var sequence := Max(0, s.retired.vals[stop.commandId].sequence + 1);
      PutHolds(s.stops, StopKeyOf(stop), CachedStop(stop, AlreadyStopped(sequence)));
    }
    hide Store.Bounded, Store.BoundedPut, Retire;
  }

  /** The answer of the stop POST changes nothing but where the call waits: a taken one goes on to polling, a refused
      one is rejected with the next sequence number. */
  lemma StopPostAnswer(s: State, t: nat, ref: nat, stop: StopRequest, reply: StopPostReply)
    requires ref < |s.records|
    ensures var (n, answer) := StopAfterPost(s, t, ref, stop, reply);
            && n == s.(tasks := n.tasks)
            && (answer.Awaiting? <==> reply.StopPostTaken?)
            && (answer == Raised(BridgeFailed) <==> reply.StopUnavailable?)
            && (answer == Raised(ContractInvalid) <==> reply.StopPostRefused? && !reply.valid)
            && (reply.StopPostTaken? ==> n.tasks == s.tasks[t := AtPoll(ref, stop, reply.stopId)])
            && (!reply.StopPostTaken? ==> n.tasks == s.tasks - {t})
            && (reply.StopPostRefused? && reply.valid ==>
                  && answer.StopReturned? && answer.stop.StopRefused?
                  && Follows(answer.stop.finalSequence, s.records[ref].sequence))
  {
  }

  /** A confirmed stop leaves the reservation stopped, in the dispatch state it was in, with a new sequence number. */
  lemma PollLeaves(s: State, t: nat, ref: nat, stop: StopRequest, stopId: string, poll: StopPoll)
    requires ref < |s.records| && Bounds(s)
    ensures var (n, answer) := StopAfterPoll(s, t, ref, stop, stopId, poll);
            && (answer.StopReturned? ==> Follows(answer.stop.finalSequence, s.records[ref].sequence))
            && (answer.StopReturned? && answer.stop.StopDone? ==>
                  && ref < |n.records| && n.records[ref].sequence == answer.stop.finalSequence
                  && Kept(n, stop, answer.stop)
                  && (if Remembered(s, ref) then n.retired == s.retired
                      else Buried(n, ref, HasStopped, s.records[ref].dispatchState)))
            && (answer.StopReturned? && !answer.stop.StopDone? ==> n == s.(tasks := s.tasks - {t}))
  {
    var sequence := FinalSequence(s.records[ref]);
    var marked := s.Finish(t).Update(ref, s.records[ref].(terminal := Some(HasStopped), sequence := sequence))
                   .Emit(StopMarked(ref));
    var stored := marked.(stops := s.stops.BoundedPut(StopKeyOf(stop), CachedStop(stop, StopDone(sequence))));
    PutHolds(s.stops, StopKeyOf(stop), CachedStop(stop, StopDone(sequence)));
    assert Remembered(stored, ref) == Remembered(s, ref);
    RetireEnds(stored, ref, HasStopped, None);
    hide Retire, Store.Bounded, Store.BoundedPut, StopConfirmed, Buried;
  }

  /** An answer that concludes is also what the reservation ends as, in the dispatch state it was in; any other answer
      leaves tables and marks alone. Either leaves the least sequence number above the reservation's own and the one
      told by its caller. */
  lemma FeedbackLeaves(s: State, t: nat, ref: nat, reply: FeedbackReply)
    requires ref < |s.records| && reply.FeedbackObserved? && Bounds(s)
    ensures var (n, answer) := FeedbackEnd(s, t, ref, reply);
            var r := s.records[ref];
            && ref < |n.records|
            && n.records[ref].sequence > r.sequence && n.records[ref].sequence > reply.afterSequence
            && (n.records[ref].sequence == r.sequence + 1 || n.records[ref].sequence == reply.afterSequence + 1)
            && (answer == Raised(ContractInvalid) <==> !reply.valid) && (answer.FeedbackReturned? <==> reply.valid)
            && (!reply.valid ==> n.commands == s.commands && n.retired == s.retired)
            && (reply.valid && answer.status in {FeedbackStatus.Blocked, Moving, Queued} ==>
                  && n.commands == s.commands && n.retired == s.retired && n.records[ref].terminal == r.terminal)
            && (reply.valid && answer.status in {Arrived, Stopped, FailedStatus} ==>
                  var terminal := match answer.status case Arrived => HasArrived case Stopped => HasStopped
                                                      case _ => HasFailed;
                  if Remembered(s, ref) then n.retired == s.retired && n.records[ref].terminal == Some(terminal)
                  else Buried(n, ref, terminal, r.dispatchState))
  {
    hide StatusOf, Store.Bounded, Retire, Buried;
    var r := s.records[ref];
    var status := StatusOf(reply.telemetry, EpochOf(r), r.terminal == Some(HasStopped));
    if Concludes(status) {
      var counted := r.(sequence := Max(r.sequence + 1, reply.afterSequence + 1));
      var ended := counted.(terminal := Some(TerminalFor(status)));
      var marked := s.Finish(t).Update(ref, ended).Emit(FeedbackConcluded(ref));
      RetireEnds(marked, ref, TerminalFor(status), None);
      assert Remembered(marked, ref) == Remembered(s, ref);
    }
  }

  // ---------------------------------------------------- sequence numbers

  /** Every reservation is still there, with no smaller sequence number. */
  ghost predicate Counts(s: State, n: State) {
    && |s.records| <= |n.records|
    && forall i: nat :: i < |s.records| ==> n.records[i].sequence >= s.records[i].sequence
  }

  lemma RetireCounts()
    ensures forall s: State, ref: nat, terminal: Terminal, state: Option<DispatchState> :: ref < |s.records| ==>
              |Retire(s, ref, terminal, state).records| == |s.records| && Counts(s, Retire(s, ref, terminal, state))
  {
  }

  lemma NavigateCounts(s: State, step: Step)
    requires Enabled(s, step) && (step.StartNavigate? || step.ResumeWorld? || step.ResumePost?)
    ensures Counts(s, Apply(s, step).0)
  {
    RetireCounts();
    hide Retire, StatusOf, StopConfirmed, KeyOf, Store.BoundedPut, StopBegin, StopAfterPoll, FeedbackEnd;
  }

  lemma OwnerCounts(s: State, step: Step)
    requires Enabled(s, step) && !step.StartNavigate? && !step.ResumeWorld? && !step.ResumePost?
    ensures Counts(s, Apply(s, step).0)
  {
    RetireCounts();
    hide Retire, StatusOf, StopConfirmed, LocallyTerminal, StopKeyOf, Store.BoundedPut, Store.Put;
    hide NavigateBegin, NavigateAfterWorld, NavigateAfterPost;
  }

  /** In every run, the sequence number of a reservation never falls. */
  lemma {:induction false} SequencesGrow(s: State, steps: seq<Step>, i: nat)
    requires i < |s.records|
    ensures i < |Run(s, steps).records| && Run(s, steps).records[i].sequence >= s.records[i].sequence
    decreases |steps|
  {
    hide Apply, Enabled;
    if steps != [] {
      if Enabled(s, steps[0]) {
        if steps[0].StartNavigate? || steps[0].ResumeWorld? || steps[0].ResumePost? {
          NavigateCounts(s, steps[0]);
        } else {
          OwnerCounts(s, steps[0]);
        }
        SequencesGrow(Apply(s, steps[0]).0, steps[1..], i);
      } else {
        SequencesGrow(s, steps[1..], i);
      }
    }
  }
}
