/** The adapter itself: dictionaries updated in place, reservations as heap objects compared by identity.
    Every method does to the view exactly what the protocol's step says. */
module NavigationAdapter {
  import opened Wrappers
  import opened OrderedStore
  import opened TerminalEvidence
  import opened CommandProtocol

  class CommandRecord {
    const request: Request
    ghost const ref: nat
    var acceptedAt: Option<real>
    var sequence: int
    var terminal: Option<Terminal>
    var dispatchState: DispatchState

    /** `_new_command_record`. */
    constructor (request: Request, ghost ref: nat)
      ensures this.request == request && this.ref == ref
      ensures Value() == Record(request, None, -1, None, Reserved)
    {
      this.request := request;
      this.ref := ref;
      acceptedAt := None;
      sequence := -1;
      terminal := None;
      dispatchState := Reserved;
    }

    ghost function Value(): Record
      reads this
    {
      Record(request, acceptedAt, sequence, terminal, dispatchState)
    }
  }

  class GodotPortableNavigationAdapter {
    var commands: map<string, CommandRecord>
    var retired: Store<string, Tombstone>
    var results: Store<NavKey, CachedNav>
    var stops: Store<StopKey, CachedStop>

    /** Every reservation ever made, the suspended coroutines, and what happened. */
    ghost var registry: seq<CommandRecord>
    ghost var tasks: map<nat, Task>
    ghost var log: seq<Event>

    ghost predicate Owns(command: CommandRecord)
      reads this
    {
      command.ref < |registry| && registry[command.ref] == command
    }

    ghost predicate Valid()
      reads this
    {
      && (forall i: nat :: i < |registry| ==> registry[i].ref == i)
      && (forall id :: id in commands ==> Owns(commands[id]))
    }

    ghost function Records(): (r: seq<Record>)
      reads this, registry
      ensures |r| == |registry|
    {
      seq(|registry|, i requires 0 <= i < |registry| reads this, registry => registry[i].Value())
    }

    ghost function Active(): map<string, nat>
      reads this
    {
      map id | id in commands :: commands[id].ref
    }

    ghost function View(): State
      reads this, registry
    {
      State(Records(), Active(), retired, results, stops, tasks, log)
    }

    constructor ()
      ensures Valid() && View() == Initial && fresh(this)
    {
      commands, retired, results, stops := map[], Store([], map[]), Store([], map[]), Store([], map[]);
      registry, tasks, log := [], map[], [];
    }

    /** `self._commands.get(command_id) is command`. */
    predicate IsOwned(command: CommandRecord)
      requires Valid() && Owns(command)
      reads this, registry, command
      ensures IsOwned(command) == View().Active(command.ref)
    {
      command.request.commandId in commands && commands[command.request.commandId] == command
    }

    /** Writing one reservation changes one record of the view. */
    twostate lemma Wrote(command: CommandRecord)
      requires old(Valid()) && Valid() && old(Owns(command)) && registry == old(registry)
      requires forall c :: c in registry && c != command ==> unchanged(c)
      ensures Records() == old(Records())[command.ref := command.Value()]
    {
      forall i: nat | i < |registry| && i != command.ref
        ensures registry[i].Value() == old(registry[i].Value())
      {
        assert registry[i] in registry;
      }
    }

    /** Caches, tasks and log are not part of the reservations' view. */
    twostate lemma Kept()
      requires old(Valid()) && Valid() && registry == old(registry) && commands == old(commands)
      requires forall c :: c in registry ==> unchanged(c)
      ensures Records() == old(Records()) && Active() == old(Active())
    {
      forall i: nat | i < |registry|
        ensures registry[i].Value() == old(registry[i].Value())
      {
        assert registry[i] in registry;
      }
    }

    /** Removing a key of `_commands` removes it from the view. */
    twostate lemma Removed(id: string)
      requires old(Valid()) && Valid() && commands == old(commands) - {id}
      ensures Active() == old(Active()) - {id}
    {
    }

    /** `_retire_command`. */
    method RetireCommand(command: CommandRecord, terminal: Terminal, state: Option<DispatchState>)
      requires Valid() && Owns(command)
      modifies this, command
      ensures Valid() && registry == old(registry)
      ensures View() == Retire(old(View()), command.ref, terminal, state)
      ensures stops == old(stops)
    {
      hide Store.BoundedPut, Dropped;
      var id := command.request.commandId;
      var owned := IsOwned(command);
      if !owned && retired.Has(id) {
        return;
      }
      if owned {
        commands := commands - {id};
      }
      if state.Some? {
        command.dispatchState := state.value;
      }
      command.terminal := Some(terminal);
      log := log + Dropped(retired, id);
      retired := BoundedStore(retired, id,
                              Tombstone(command.request, command.sequence, terminal, command.dispatchState));
      Wrote(command);
      if owned {
        Removed(id);
      }
    }

    /** `_finish_rejected_navigation`. */
    method FinishRejectedNavigation(command: CommandRecord, reason: Reason, valid: bool) returns (outcome: Outcome)
      requires Valid() && Owns(command)
      modifies this, command
      ensures Valid() && registry == old(registry)
      ensures (View(), outcome) == FinishRejected(old(View()), command.ref, reason, valid) && !outcome.Awaiting?
    {
      if !valid {
        return Raised(ContractInvalid);
      }
      var rejected := NavRejected(reason);
      results := BoundedStore(results, KeyOf(command.request), CachedNav(command.request, rejected));
      Kept();
      RetireCommand(command, WasRejected, Some(Rejected));
      return NavReturned(rejected);
    }

    /** The tail of `_reserve_command`: a new reservation under a free id. */
    method Reserve(request: Request) returns (command: CommandRecord)
      requires Valid() && request.commandId !in commands
      modifies this
      ensures Valid() && fresh(command) && registry == old(registry) + [command] && command.request == request
      ensures command.ref == |old(registry)|
      ensures View() == old(View()).(records := old(Records()) + [Record(request, None, -1, None, Reserved)],
                                     commands := old(Active())[request.commandId := command.ref])
    {
      command := new CommandRecord(request, |registry|);
      registry := registry + [command];
      commands := commands[request.commandId := command];
      forall i: nat | i < |old(registry)|
        ensures registry[i].Value() == old(registry[i].Value())
      {
        assert old(registry)[i] in old(registry);
      }
      assert Records() == old(Records()) + [Record(request, None, -1, None, Reserved)];
      assert Active() == old(Active())[request.commandId := command.ref];
    }

    /** `navigate` up to its first await; the caller holds `command` while it waits. */
    method StartNavigate(ghost t: nat, request: Request, lookup: Lookup, now: real, valid: bool)
      returns (outcome: Outcome, command: CommandRecord?)
      requires Valid()
      modifies this
      ensures Valid() && old(registry) <= registry
      ensures (View(), outcome) == NavigateBegin(old(View()), t, request, lookup, now, valid)
      ensures outcome.Awaiting? ==> command != null && Owns(command) && View().tasks[t] == AtWorld(command.ref)
    {
      hide Retire, FinishRejected, State.Active;
      command := null;
      var id := request.commandId;
      if results.Has(KeyOf(request)) {
        var previous := results.Get(KeyOf(request));
        if previous.request != request {
          return Raised(IdempotencyConflict), null;
        }
        return NavReturned(previous.result), null;
      }
      if id in commands {
        assert old(View()).commands[id] == commands[id].ref && Owns(commands[id]);
        return Raised(if commands[id].request == request then NavigationInProgress else OwnershipMismatch), null;
      }
      if retired.Has(id) {
        return Raised(if retired.Get(id).request == request then AlreadyTerminal else OwnershipMismatch), null;
      }
      command := Reserve(request);
      if lookup.LookupFails? {
        RetireCommand(command, HasFailed, Some(NeverDispatched));
        return Raised(LookupFailed), null;
      }
      if now > request.deadline || lookup.Mismatch? || lookup.Blocked? {
        if !valid {
          RetireCommand(command, HasFailed, Some(NeverDispatched));
          return Raised(ContractInvalid), null;
        }
        outcome := FinishRejectedNavigation(command, if now > request.deadline then DeadlineExpired
                                                     else if lookup.Mismatch? then TargetMismatch
                                                     else PathBlocked, true);
        return outcome, null;
      }
      label reserved:
      command.dispatchState := AwaitingWorld;
      tasks := tasks[t := AtWorld(command.ref)];
      Wrote@reserved(command);
      return Awaiting, command;
    }

    /** `navigate` when the world check answers. */
    method ResumeWorld(ghost t: nat, command: CommandRecord, reply: WorldReply, valid: bool) returns (outcome: Outcome)
      requires Valid() && Owns(command)
      modifies this, command
      ensures Valid() && registry == old(registry)
      ensures (View(), outcome) == NavigateAfterWorld(old(View()), t, command.ref, reply, valid)
    {
      hide Retire, FinishRejected, Store.BoundedPut;
      tasks := tasks - {t};
      Kept();
      if reply.WorldCancelled? {
        RetireCommand(command, WasCancelled, Some(NeverDispatched));
        return Raised(Cancelled);
      }
      if reply.WorldUnavailable? {
        RetireCommand(command, HasFailed, Some(NeverDispatched));
        return Raised(WorldFailed);
      }
      if !IsOwned(command) {
        outcome := FinishRejectedNavigation(command, StoppedBeforeDispatch, valid);
        return;
      }
      if reply.now > command.request.deadline {
        outcome := FinishRejectedNavigation(command, DeadlineExpired, valid);
        return;
      }
      command.dispatchState := Dispatching;
      tasks := tasks[t := AtPost(command.ref)];
      assert tasks == old(tasks)[t := AtPost(command.ref)];
      log := log + [Posted(command.ref, command.request.commandId)];
      Wrote(command);
      return Awaiting;
    }

    /** `navigate` when the move POST answers. */
    method ResumePost(ghost t: nat, command: CommandRecord, ack: Ack, valid: bool) returns (outcome: Outcome)
      requires Valid() && Owns(command)
      modifies this, command
      ensures Valid() && registry == old(registry)
      ensures (View(), outcome) == NavigateAfterPost(old(View()), t, command.ref, ack, valid)
    {
      hide Retire, FinishRejected, Store.BoundedPut;
      tasks := tasks - {t};
      Kept();
      if ack.Lost? {
        if IsOwned(command) {
          command.dispatchState := DispatchUnknown;
          log := log + [LostAck(command.ref)];
          Wrote(command);
        }
        return Raised(AckLost);
      }
      if !IsOwned(command) {
        outcome := FinishRejectedNavigation(command, StoppedBeforeAccept, valid);
        return;
      }
      if ack.RefusedByBridge? {
        log := log + [RefusedAck(command.ref)];
        Kept();
        outcome := FinishRejectedNavigation(command, DispatchRejected, valid);
        return;
      }
      if !valid {
        return Raised(ContractInvalid);
      }
      var result := AcceptNavigation(command, ack.now);
      return NavReturned(result);
    }

    /** The tail of `navigate`: the acceptance is written on the reservation and cached. */
    method AcceptNavigation(command: CommandRecord, now: real) returns (result: NavResult)
      requires Valid() && Owns(command)
      modifies this, command
      ensures Valid() && registry == old(registry)
      ensures result == NavAccepted(command.request.commandId, now)
      ensures var s, c := old(View()), CachedNav(command.request, result);
              View() == s.Update(command.ref,
                                 s.records[command.ref].(acceptedAt := Some(now), dispatchState := Accepted))
                         .(results := s.results.BoundedPut(KeyOf(command.request), c))
                         .Emit(AcceptedAck(command.ref))
    {
      hide Store.BoundedPut;
      result := NavAccepted(command.request.commandId, now);
      command.acceptedAt := Some(now);
      command.dispatchState := Accepted;
      results := BoundedStore(results, KeyOf(command.request), CachedNav(command.request, result));
      log := log + [AcceptedAck(command.ref)];
      Wrote(command);
    }

    /** `feedback` up to its await. */
    method StartFeedback(ghost t: nat, commandId: string, scope: Scope)
      returns (outcome: Outcome, command: CommandRecord?)
      requires Valid()
      modifies this
      ensures Valid() && registry == old(registry)
      ensures (View(), outcome) == FeedbackBegin(old(View()), t, commandId, scope)
      ensures outcome.Awaiting? ==> command != null && Owns(command) && View().tasks[t] == AtFeedback(command.ref)
    {
      if commandId !in commands || commands[commandId].request.scope != scope {
        return Raised(OwnershipMismatch), null;
      }
      command := commands[commandId];
      assert Owns(command);
      tasks := tasks[t := AtFeedback(command.ref)];
      Kept();
      return Awaiting, command;
    }

    /** `feedback` once its observation has settled. */
    method ResumeFeedback(ghost t: nat, command: CommandRecord, reply: FeedbackReply) returns (outcome: Outcome)
      requires Valid() && Owns(command)
      modifies this, command
      ensures Valid() && registry == old(registry)
      ensures (View(), outcome) == FeedbackEnd(old(View()), t, command.ref, reply)
    {
      hide Retire, StatusOf, State.Active;
      tasks := tasks - {t};
      Kept();
      if reply.FeedbackUnavailable? {
        return Raised(BridgeFailed);
      }
      var epoch := Epoch(command.request.commandId, command.acceptedAt, command.request.navigationId);
      var status := StatusOf(reply.telemetry, epoch, command.terminal == Some(HasStopped));
      command.sequence := Max(command.sequence + 1, reply.afterSequence + 1);
      if Concludes(status) {
        command.terminal := Some(TerminalFor(status));
        log := log + [FeedbackConcluded(command.ref)];
      }
      Wrote(command);
      if !reply.valid {
        return Raised(ContractInvalid);
      }
      if Concludes(status) {
        RetireCommand(command, TerminalFor(status), None);
      }
      return FeedbackReturned(status);
    }

    /** `stop` up to its await, if it has one. */
    method StartStop(ghost t: nat, request: StopRequest, valid: bool)
      returns (outcome: Outcome, command: CommandRecord?)
      requires Valid()
      modifies this, registry
      ensures Valid() && registry == old(registry)
      ensures (View(), outcome) == StopBegin(old(View()), t, request, valid)
      ensures outcome.Awaiting? ==> command != null && Owns(command) && View().tasks[t] == AtStop(command.ref, request)
    {
      command := null;
      var id := request.commandId;
      if stops.Has(StopKeyOf(request)) {
        var previous := stops.Get(StopKeyOf(request));
        if previous.request != request {
          return Raised(IdempotencyConflict), null;
        }
        return StopReturned(previous.result), null;
      }
      if id in commands {
        var owned := commands[id];
        assert Owns(owned) && old(View()).commands[id] == owned.ref;
        if owned.request.scope != request.scope {
          return Raised(OwnershipMismatch), null;
        }
        outcome, command := StopOwned(t, owned, request, valid);
        return;
      }
      if !retired.Has(id) || retired.Get(id).request.scope != request.scope {
        return Raised(OwnershipMismatch), null;
      }
      var tombstone := retired.Get(id);
      var sequence := Max(0, tombstone.sequence + 1);
      retired := retired.Put(id, tombstone.(sequence := sequence));
      Kept();
      if !valid {
        return Raised(ContractInvalid), null;
      }
      var result := AlreadyStopped(sequence);
      log := log + [StopStarted(request)];
      stops := BoundedStore(stops, StopKeyOf(request), CachedStop(request, result));
      Kept();
      return StopReturned(result), null;
    }

    method StopOwned(ghost t: nat, owned: CommandRecord, request: StopRequest, valid: bool)
      returns (outcome: Outcome, command: CommandRecord?)
      requires Valid() && Owns(owned) && !stops.Has(StopKeyOf(request)) && owned.request.scope == request.scope
      requires request.commandId in commands && commands[request.commandId] == owned
      modifies this, owned
      ensures Valid() && registry == old(registry)
      ensures (View(), outcome) == StopBegin(old(View()), t, request, valid)
      ensures outcome.Awaiting? ==> command == owned && View().tasks[t] == AtStop(owned.ref, request)
    {
      hide Retire, Store.BoundedPut, State.Active;
      var locallyTerminal :=
        owned.terminal.Some? || owned.dispatchState in {Reserved, AwaitingWorld, NeverDispatched, Rejected};
      if !locallyTerminal {
        tasks := tasks[t := AtStop(owned.ref, request)];
        log := log + [StopStarted(request)];
        Kept();
        return Awaiting, owned;
      }
      owned.sequence := Max(0, owned.sequence + 1);
      Wrote(owned);
      ghost var s, ref := old(View()), owned.ref;
      ghost var counted := s.Update(ref, s.records[ref].(sequence := FinalSequence(s.records[ref])));
      assert View() == counted;
      if !valid {
        return Raised(ContractInvalid), null;
      }
      label noted:
      log := log + [StopStarted(request)];
      Kept@noted();
      assert View() == counted.Emit(StopStarted(request));
      var result := AlreadyStopped(owned.sequence);
      RetireCommand(owned, HasStopped, Some(NeverDispatched));
      label gone:
      stops := BoundedStore(stops, StopKeyOf(request), CachedStop(request, result));
      Kept@gone();
      return StopReturned(result), null;
    }

    /** `_reject_stop`: nothing is cached. */
    method RejectStop(command: CommandRecord, valid: bool) returns (outcome: Outcome)
      requires Valid() && Owns(command)
      ensures (View(), outcome) == RefuseStop(View(), command.ref, valid)
    {
      if !valid {
        return Raised(ContractInvalid);
      }
      return StopReturned(StopRefused(Max(0, command.sequence + 1)));
    }

    /** `stop` when the native stop POST answers. */
    method ResumeStop(ghost t: nat, command: CommandRecord, request: StopRequest, reply: StopPostReply)
      returns (outcome: Outcome)
      requires Valid() && Owns(command)
      modifies this
      ensures Valid() && registry == old(registry)
      ensures (View(), outcome) == StopAfterPost(old(View()), t, command.ref, request, reply)
    {
      if reply.StopPostTaken? {
        tasks := tasks[t := AtPoll(command.ref, request, reply.stopId)];
        Kept();
        return Awaiting;
      }
      tasks := tasks - {t};
      Kept();
      if reply.StopUnavailable? {
        return Raised(BridgeFailed);
      }
      outcome := RejectStop(command, reply.valid);
    }

    /** One round of the polling loop of `stop`. */
    method ResumePoll(ghost t: nat, command: CommandRecord, request: StopRequest, stopId: string, poll: StopPoll)
      returns (outcome: Outcome)
      requires Valid() && Owns(command)
      modifies this, command
      ensures Valid() && registry == old(registry)
      ensures (View(), outcome) == StopAfterPoll(old(View()), t, command.ref, request, stopId, poll)
    {
      hide Retire, StopConfirmed;
      if poll.Polled? && !StopConfirmed(poll.observation, stopId, request.commandId) && !poll.late {
        return Awaiting;
      }
      tasks := tasks - {t};
      Kept();
      if poll.PollFailed? {
        return Raised(BridgeFailed);
      }
      if !StopConfirmed(poll.observation, stopId, request.commandId) {
        outcome := RejectStop(command, poll.valid);
        return;
      }
      var sequence := Max(0, command.sequence + 1);
      command.terminal := Some(HasStopped);
      command.sequence := sequence;
      log := log + [StopMarked(command.ref)];
      Wrote(command);
      if !poll.valid {
        return Raised(ContractInvalid);
      }
      var result := StopDone(sequence);
      stops := BoundedStore(stops, StopKeyOf(request), CachedStop(request, result));
      Wrote(command);
      RetireCommand(command, HasStopped, None);
      return StopReturned(result);
    }
  }
}
