/** What a cached stop answer still says: the stop it answered began before the last eviction of its command's
    tombstone, or the command is no longer active. */
module CommandStops {
  import opened Wrappers
  import opened OrderedStore
  import opened TerminalEvidence
  import opened CommandProtocol
  import opened CommandSafety
  import opened CommandTheorems

  predicate StartedAt(log: seq<Event>, i: nat, stop: StopRequest) { i < |log| && log[i] == StopStarted(stop) }

  /** Every stop of `id` begun so far was followed by an eviction of its tombstone. */
  ghost predicate StopsCleared(log: seq<Event>, id: string) {
    forall i: nat, stop :: StartedAt(log, i, stop) && stop.commandId == id ==> ClearedAfter(log, i, id)
  }

  predicate Tracked(s: State, id: string) { id in s.commands || id in s.retired.vals }

  /** The stop began at `i`, and since then the tombstone was evicted if its command is active under another
      reservation than `ref`. */
  ghost predicate Outlived(commands: map<string, nat>, log: seq<Event>, stop: StopRequest, ref: Option<nat>, i: nat) {
    && StartedAt(log, i, stop)
    && (stop.commandId in commands && Some(commands[stop.commandId]) != ref ==> ClearedAfter(log, i, stop.commandId))
  }

  ghost predicate SomeOutlived(commands: map<string, nat>, log: seq<Event>, stop: StopRequest, ref: Option<nat>) {
    exists i: nat :: Outlived(commands, log, stop, ref, i)
  }

  ghost predicate StopTasks(tasks: map<nat, Task>, commands: map<string, nat>, log: seq<Event>) {
    forall t :: t in tasks && tasks[t].Stops() ==> SomeOutlived(commands, log, tasks[t].stop, Some(tasks[t].ref))
  }

  ghost predicate StopHeld(tasks: map<nat, Task>, records: seq<Record>) {
    forall t :: t in tasks && tasks[t].Stops() ==>
      tasks[t].ref < |records| && records[tasks[t].ref].request.commandId == tasks[t].stop.commandId
  }

  ghost predicate StopEntry(commands: map<string, nat>, log: seq<Event>, key: StopKey, c: CachedStop) {
    StopKeyOf(c.request) == key && !c.result.StopRefused? && SomeOutlived(commands, log, c.request, None)
  }

  ghost predicate StopsTrue(stops: map<StopKey, CachedStop>, commands: map<string, nat>, log: seq<Event>) {
    forall key :: key in stops ==> StopEntry(commands, log, key, stops[key])
  }

  ghost predicate StopsTracked(s: State) { forall id :: !Tracked(s, id) ==> StopsCleared(s.log, id) }

  ghost predicate StopInv(s: State) {
    && StopsTracked(s) && StopTasks(s.tasks, s.commands, s.log) && StopHeld(s.tasks, s.records)
    && StopsTrue(s.stops.vals, s.commands, s.log)
  }

  // ------------------------------------------------- steps that begin no stop

  predicate Extends(log: seq<Event>, more: seq<Event>) { |log| <= |more| && more[..|log|] == log }

  ghost predicate EvictedSince(log: seq<Event>, more: seq<Event>, id: string) {
    exists k: nat :: |log| <= k < |more| && more[k] == Evicted(id)
  }

  /** No stop begins; an id that leaves both tables was evicted; an id that enters was in neither. */
  ghost predicate Tracks(s: State, n: State) {
    && Extends(s.log, n.log)
    && (forall i: nat :: |s.log| <= i < |n.log| ==> !n.log[i].StopStarted?)
    && (forall id :: Tracked(s, id) ==> Tracked(n, id) || EvictedSince(s.log, n.log, id))
    && (forall id :: id in n.commands ==>
          (id in s.commands && n.commands[id] == s.commands[id]) || !Tracked(s, id))
  }

  lemma StillCleared(log: seq<Event>, more: seq<Event>, i: nat, id: string)
    requires Extends(log, more) && ClearedAfter(log, i, id)
    ensures ClearedAfter(more, i, id)
  {
    var k: nat :| i < k < |log| && log[k] == Evicted(id);
    assert more[k] == more[..|log|][k];
  }

  lemma ClearedSince(log: seq<Event>, more: seq<Event>, i: nat, id: string)
    requires Extends(log, more) && i < |log| && EvictedSince(log, more, id)
    ensures ClearedAfter(more, i, id)
  {
    var k: nat :| |log| <= k < |more| && more[k] == Evicted(id);
  }

  lemma TracksStillOutlived(s: State, n: State, stop: StopRequest, ref: Option<nat>)
    requires StopsTracked(s) && Tracks(s, n) && SomeOutlived(s.commands, s.log, stop, ref)
    ensures SomeOutlived(n.commands, n.log, stop, ref)
  {
    var i: nat :| Outlived(s.commands, s.log, stop, ref, i);
    var id := stop.commandId;
    assert n.log[i] == n.log[..|s.log|][i];
    if id in n.commands && Some(n.commands[id]) != ref {
      if !Tracked(s, id) {
        assert StopsCleared(s.log, id);
      }
      StillCleared(s.log, n.log, i, id);
    }
    assert Outlived(n.commands, n.log, stop, ref, i);
  }

  lemma TracksKeepsTracked(s: State, n: State)
    requires StopsTracked(s) && Tracks(s, n)
    ensures StopsTracked(n)
  {
    forall id, i: nat, stop | !Tracked(n, id) && StartedAt(n.log, i, stop) && stop.commandId == id
      ensures ClearedAfter(n.log, i, id)
    {
      assert i < |s.log|;
      assert n.log[i] == n.log[..|s.log|][i];
      if Tracked(s, id) {
        ClearedSince(s.log, n.log, i, id);
      } else {
        assert StopsCleared(s.log, id);
        StillCleared(s.log, n.log, i, id);
      }
    }
  }

  /** Such a step keeps what the caches say, if it begins no task at a stop and caches no stop. */
  lemma TracksKeeps(s: State, n: State)
    requires StopInv(s) && Tracks(s, n) && SameRequests(s, n)
    requires forall t :: t in n.tasks && n.tasks[t].Stops() ==>
               && t in s.tasks && s.tasks[t].Stops()
               && s.tasks[t].ref == n.tasks[t].ref && s.tasks[t].stop == n.tasks[t].stop
    requires forall key :: key in n.stops.vals ==> key in s.stops.vals && n.stops.vals[key] == s.stops.vals[key]
    ensures StopInv(n)
  {
    TracksKeepsTracked(s, n);
    hide Tracks, StopsTracked, SomeOutlived;
    forall t | t in n.tasks && n.tasks[t].Stops()
      ensures SomeOutlived(n.commands, n.log, n.tasks[t].stop, Some(n.tasks[t].ref))
    {
      TracksStillOutlived(s, n, n.tasks[t].stop, Some(n.tasks[t].ref));
    }
    forall key | key in n.stops.vals
      ensures StopEntry(n.commands, n.log, key, n.stops.vals[key])
    {
      assert StopEntry(s.commands, s.log, key, s.stops.vals[key]);
      TracksStillOutlived(s, n, s.stops.vals[key].request, None);
    }
  }

  /** A new tombstone tracks: its id stays tracked, and the one it displaces was evicted. */
  lemma BuriedTracks(s: State, n: State, id: string, tombstone: Tombstone)
    requires s.retired.Bounded() && n.retired == s.retired.BoundedPut(id, tombstone)
    requires n.log == s.log + Dropped(s.retired, id) && (n.commands == s.commands || n.commands == s.commands - {id})
    ensures Tracks(s, n)
  {
    BoundedPutKeeps(s.retired, id, tombstone);
    hide Store.BoundedPut, Store.Valid;
    if Dropped(s.retired, id) != [] {
      assert n.log[|s.log|] == Evicted(s.retired.keys[0]);
      assert EvictedSince(s.log, n.log, s.retired.keys[0]);
    }
    hide EvictedSince;
  }

  lemma RetireTracks(s: State, ref: nat, terminal: Terminal, state: Option<DispatchState>)
    requires ref < |s.records| && s.retired.Bounded()
    ensures var n := Retire(s, ref, terminal, state);
            Tracks(s, n) && SameRequests(s, n) && n.tasks == s.tasks && n.stops == s.stops && !n.Active(ref)
  {
    var record := s.records[ref];
    var id := record.request.commandId;
    var n := Retire(s, ref, terminal, state);
    hide Store.BoundedPut, Store.Valid, Dropped;
    if s.Active(ref) || !s.retired.Has(id) {
      var after := if state.Some? then state.value else record.dispatchState;
      hide Tracks;
      BuriedTracks(s, n, id, Tombstone(record.request, record.sequence, terminal, after));
    }
  }

  /** What a quiet step may do before it retires a reservation. */
  ghost predicate Plain(s: State, n: State) {
    && n.commands == s.commands && n.retired.vals.Keys == s.retired.vals.Keys && n.stops == s.stops
    && SameRequests(s, n)
    && (n.log == s.log || (n.log != [] && n.log[..|n.log| - 1] == s.log && !n.log[|n.log| - 1].StopStarted?))
    && OnlyOldStops(s, n)
  }

  /** No call comes to wait at a stop. */
  ghost predicate OnlyOldStops(s: State, n: State) {
    forall t :: t in n.tasks && n.tasks[t].Stops() ==>
      t in s.tasks && s.tasks[t].Stops() && s.tasks[t].ref == n.tasks[t].ref && s.tasks[t].stop == n.tasks[t].stop
  }

  lemma PlainTracks(s: State, n: State)
    requires Plain(s, n)
    ensures Tracks(s, n)
  {
    assert forall id :: Tracked(n, id) == Tracked(s, id);
  }

  lemma ThenRetired(s: State, b: State, ref: nat, terminal: Terminal, state: Option<DispatchState>)
    requires Tracks(s, b) && ref < |b.records| && b.retired.Bounded()
    ensures Tracks(s, Retire(b, ref, terminal, state))
  {
    RetireTracks(b, ref, terminal, state);
    var n := Retire(b, ref, terminal, state);
    assert n.log[..|s.log|] == n.log[..|b.log|][..|s.log|];
    forall i: nat | |s.log| <= i < |n.log|
      ensures !n.log[i].StopStarted?
    {
      assert i < |b.log| ==> n.log[i] == n.log[..|b.log|][i];
    }
    forall id | Tracked(s, id) && !Tracked(n, id)
      ensures EvictedSince(s.log, n.log, id)
    {
      if Tracked(b, id) {
        var k: nat :| |b.log| <= k < |n.log| && n.log[k] == Evicted(id);
      } else {
        var k: nat :| |s.log| <= k < |b.log| && b.log[k] == Evicted(id);
        assert n.log[k] == n.log[..|b.log|][k];
      }
    }
    forall id | id in n.commands
      ensures (id in s.commands && n.commands[id] == s.commands[id]) || !Tracked(s, id)
    {
      RetireEntersNobody(b, ref, terminal, state, id);
    }
  }

  lemma RetireEntersNobody(s: State, ref: nat, terminal: Terminal, state: Option<DispatchState>, id: string)
    requires ref < |s.records| && id in Retire(s, ref, terminal, state).commands
    ensures id in s.commands && Retire(s, ref, terminal, state).commands[id] == s.commands[id]
  {
  }

  /** A quiet step: plain changes, then perhaps a retirement. */
  lemma QuietThenRetired(s: State, b: State, ref: nat, terminal: Terminal, state: Option<DispatchState>)
    requires StopInv(s) && Plain(s, b) && ref < |b.records| && b.retired.Bounded()
    ensures StopInv(Retire(b, ref, terminal, state))
  {
    PlainTracks(s, b);
    ThenRetired(s, b, ref, terminal, state);
    RetireTracks(b, ref, terminal, state);
    hide Tracks, StopInv, Retire;
    TracksKeeps(s, Retire(b, ref, terminal, state));
  }

  lemma QuietKeeps(s: State, n: State)
    requires StopInv(s) && Plain(s, n)
    ensures StopInv(n)
  {
    PlainTracks(s, n);
    hide Tracks, StopInv;
    TracksKeeps(s, n);
  }

  lemma RejectKeeps(s: State, b: State, ref: nat, reason: Reason, valid: bool)
    requires StopInv(s) && Plain(s, b) && ref < |b.records| && b.retired.Bounded()
    ensures StopInv(FinishRejected(b, ref, reason, valid).0)
  {
    hide StopInv;
    if valid {
      var request := b.records[ref].request;
      var stored := b.(results := b.results.BoundedPut(KeyOf(request), CachedNav(request, NavRejected(reason))));
      hide Retire;
      QuietThenRetired(s, stored, ref, WasRejected, Some(Rejected));
    } else {
      QuietKeeps(s, b);
    }
  }

  /** A reservation enters under an id that is in neither table. */
  lemma ReserveKeepsStops(s: State, request: Request)
    requires StopInv(s) && !Tracked(s, request.commandId)
    ensures StopInv(WithReservation(s, request))
  {
    var n := WithReservation(s, request);
    assert Tracks(s, n);
    hide Tracks, StopInv;
    TracksKeeps(s, n);
  }

  function WithReservation(s: State, request: Request): State {
    s.(records := s.records + [Record(request, None, -1, None, Reserved)],
       commands := s.commands[request.commandId := |s.records|])
  }

  lemma NavigateBeginKeepsStops(s: State, t: nat, request: Request, lookup: Lookup, now: real, valid: bool)
    requires s.retired.Bounded() && StopInv(s) && t !in s.tasks
    ensures StopInv(NavigateBegin(s, t, request, lookup, now, valid).0)
  {
    hide StopInv, Retire, FinishRejected;
    if !s.results.Has(KeyOf(request)) && !Tracked(s, request.commandId) {
      ReserveKeepsStops(s, request);
      var reserved := WithReservation(s, request);
      var ref := |s.records|;
      QuietThenRetired(reserved, reserved, ref, HasFailed, Some(NeverDispatched));
      RejectKeeps(reserved, reserved, ref, if now > request.deadline then DeadlineExpired
                                           else if lookup.Mismatch? then TargetMismatch else PathBlocked, true);
      QuietKeeps(reserved, reserved.Update(ref, reserved.records[ref].(dispatchState := AwaitingWorld))
                                   .(tasks := s.tasks[t := AtWorld(ref)]));
    }
  }

  lemma NavigateAfterWorldKeepsStops(s: State, t: nat, ref: nat, reply: WorldReply, valid: bool)
    requires s.retired.Bounded() && StopInv(s) && ref < |s.records| && t in s.tasks && s.tasks[t] == AtWorld(ref)
    ensures StopInv(NavigateAfterWorld(s, t, ref, reply, valid).0)
  {
    hide StopInv, Retire, FinishRejected;
    var done := s.Finish(t);
    if reply.WorldCancelled? {
      QuietThenRetired(s, done, ref, WasCancelled, Some(NeverDispatched));
    } else if reply.WorldUnavailable? {
      QuietThenRetired(s, done, ref, HasFailed, Some(NeverDispatched));
    } else if !s.Active(ref) || reply.now > s.records[ref].request.deadline {
      RejectKeeps(s, done, ref, if s.Active(ref) then DeadlineExpired else StoppedBeforeDispatch, valid);
    } else {
      QuietKeeps(s, NavigateAfterWorld(s, t, ref, reply, valid).0);
    }
  }

  lemma NavigateAfterPostKeepsStops(s: State, t: nat, ref: nat, ack: Ack, valid: bool)
    requires s.retired.Bounded() && StopInv(s) && ref < |s.records|
    ensures StopInv(NavigateAfterPost(s, t, ref, ack, valid).0)
  {
    hide StopInv, Retire, FinishRejected;
    var done := s.Finish(t);
    if !ack.Lost? && !s.Active(ref) {
      RejectKeeps(s, done, ref, StoppedBeforeAccept, valid);
    } else if ack.RefusedByBridge? {
      RejectKeeps(s, done.Emit(RefusedAck(ref)), ref, DispatchRejected, valid);
    } else {
      QuietKeeps(s, NavigateAfterPost(s, t, ref, ack, valid).0);
    }
  }

  lemma ConcludedKeepsStops(s: State, t: nat, ref: nat, ended: Record, terminal: Terminal)
    requires s.retired.Bounded() && StopInv(s) && ref < |s.records| && ended.request == s.records[ref].request
    ensures StopInv(Retire(s.Finish(t).Update(ref, ended).Emit(FeedbackConcluded(ref)), ref, terminal, None))
  {
    hide StopInv, Retire;
    QuietThenRetired(s, s.Finish(t).Update(ref, ended).Emit(FeedbackConcluded(ref)), ref, terminal, None);
  }

  lemma FeedbackEndKeepsStops(s: State, t: nat, ref: nat, reply: FeedbackReply)
    requires s.retired.Bounded() && StopInv(s) && ref < |s.records|
    ensures StopInv(FeedbackEnd(s, t, ref, reply).0)
  {
    hide StopInv, Retire, StatusOf, Plain;
    var record := s.records[ref];
    if reply.FeedbackUnavailable? {
      FinishKeepsStops(s, t);
    } else {
      var status := StatusOf(reply.telemetry, EpochOf(record), record.terminal == Some(HasStopped));
      var counted := record.(sequence := Max(record.sequence + 1, reply.afterSequence + 1));
      var ended := counted.(terminal := Some(TerminalFor(status)));
      UpdateKeepsStops(s, t, ref, counted);
      ConcludedKeepsStops(s, t, ref, ended, TerminalFor(status));
      MarkKeepsStops(s, t, ref, ended);
    }
  }

  lemma FinishKeepsStops(s: State, t: nat)
    requires StopInv(s)
    ensures StopInv(s.Finish(t))
  {
    hide StopInv;
    QuietKeeps(s, s.Finish(t));
  }

  lemma UpdateKeepsStops(s: State, t: nat, ref: nat, r: Record)
    requires StopInv(s) && ref < |s.records| && r.request == s.records[ref].request
    ensures StopInv(s.Finish(t).Update(ref, r))
  {
    hide StopInv;
    QuietKeeps(s, s.Finish(t).Update(ref, r));
  }

  lemma MarkKeepsStops(s: State, t: nat, ref: nat, r: Record)
    requires StopInv(s) && ref < |s.records| && r.request == s.records[ref].request
    ensures StopInv(s.Finish(t).Update(ref, r).Emit(FeedbackConcluded(ref)))
  {
    hide StopInv;
    QuietKeeps(s, s.Finish(t).Update(ref, r).Emit(FeedbackConcluded(ref)));
  }

  // --------------------------------------------------------- the stop steps

  lemma StillOutlived(commands: map<string, nat>, log: seq<Event>, e: Event, stop: StopRequest, ref: Option<nat>)
    requires SomeOutlived(commands, log, stop, ref)
    ensures SomeOutlived(commands, log + [e], stop, ref)
  {
    var i: nat :| Outlived(commands, log, stop, ref, i);
    assert (log + [e])[..|log|] == log;
    if stop.commandId in commands && Some(commands[stop.commandId]) != ref {
      StillCleared(log, log + [e], i, stop.commandId);
    }
    assert Outlived(commands, log + [e], stop, ref, i);
  }

  /** A stop may begin for a command that is active or retired. */
  lemma BeginKeepsStops(s: State, stop: StopRequest)
    requires StopInv(s) && Tracked(s, stop.commandId)
    ensures StopInv(s.Emit(StopStarted(stop)))
  {
    var e := StopStarted(stop);
    var more := s.log + [e];
    assert more[..|s.log|] == s.log;
    hide SomeOutlived, Outlived;
    forall id, i: nat, q | !Tracked(s, id) && StartedAt(more, i, q) && q.commandId == id
      ensures ClearedAfter(more, i, id)
    {
      assert i < |s.log|;
      assert StopsCleared(s.log, id) && StartedAt(s.log, i, q);
      StillCleared(s.log, more, i, id);
    }
    forall t | t in s.tasks && s.tasks[t].Stops()
      ensures SomeOutlived(s.commands, more, s.tasks[t].stop, Some(s.tasks[t].ref))
    {
      StillOutlived(s.commands, s.log, e, s.tasks[t].stop, Some(s.tasks[t].ref));
    }
    forall key | key in s.stops.vals
      ensures StopEntry(s.commands, more, key, s.stops.vals[key])
    {
      assert StopEntry(s.commands, s.log, key, s.stops.vals[key]);
      StillOutlived(s.commands, s.log, e, s.stops.vals[key].request, None);
    }
  }

  /** A stop that begins is the latest event, so nothing of its command was evicted since. */
  lemma BegunIsOutlived(s: State, stop: StopRequest, ref: Option<nat>)
    requires stop.commandId in s.commands ==> Some(s.commands[stop.commandId]) == ref
    ensures SomeOutlived(s.commands, s.Emit(StopStarted(stop)).log, stop, ref)
  {
    assert Outlived(s.commands, s.Emit(StopStarted(stop)).log, stop, ref, |s.log|);
  }

  lemma CacheKeepsStops(s: State, c: CachedStop)
    requires StopInv(s) && s.stops.Bounded() && !c.result.StopRefused?
    requires SomeOutlived(s.commands, s.log, c.request, None)
    ensures StopInv(s.(stops := s.stops.BoundedPut(StopKeyOf(c.request), c)))
  {
    BoundedPutKeeps(s.stops, StopKeyOf(c.request), c);
    hide SomeOutlived, Store.BoundedPut;
    var n := s.(stops := s.stops.BoundedPut(StopKeyOf(c.request), c));
    assert StopsTracked(n) by {
      assert forall id :: Tracked(n, id) == Tracked(s, id);
    }
  }

  lemma StopNativelyKeeps(s: State, t: nat, ref: nat, request: StopRequest)
    requires StopInv(s) && s.Active(ref) && s.records[ref].request.commandId == request.commandId
    ensures StopInv(s.(tasks := s.tasks[t := AtStop(ref, request)]).Emit(StopStarted(request)))
  {
    BeginKeepsStops(s, request);
    BegunIsOutlived(s, request, Some(ref));
    hide SomeOutlived, StopsTrue;
    var n := s.(tasks := s.tasks[t := AtStop(ref, request)]).Emit(StopStarted(request));
    assert StopsTracked(n) by {
      assert forall id :: Tracked(n, id) == Tracked(s.Emit(StopStarted(request)), id);
    }
  }

  /** The command of a stop that is answered is no longer active. */
  lemma AnsweredIsOutlived(s: State, n: State, stop: StopRequest, ref: nat)
    requires StopsTracked(s) && Tracks(s, n) && SomeOutlived(s.commands, s.log, stop, Some(ref))
    requires ref < |n.records| && n.records[ref].request.commandId == stop.commandId && !n.Active(ref)
    ensures SomeOutlived(n.commands, n.log, stop, None)
  {
    TracksStillOutlived(s, n, stop, Some(ref));
    var i: nat :| Outlived(n.commands, n.log, stop, Some(ref), i);
    assert Outlived(n.commands, n.log, stop, None, i);
  }

  lemma StopLocallyKeepsStops(s: State, request: StopRequest, ref: nat, sequence: int)
    requires Inv(s) && StopInv(s) && s.Active(ref) && s.records[ref].request.commandId == request.commandId
    ensures var counted := s.Update(ref, s.records[ref].(sequence := sequence));
            && StopInv(counted)
            && StopInv(Retire(counted.Emit(StopStarted(request)), ref, HasStopped, Some(NeverDispatched))
                         .(stops := s.stops.BoundedPut(StopKeyOf(request),
                                                       CachedStop(request, AlreadyStopped(sequence)))))
  {
    assert s.retired.Bounded() && s.stops.Bounded();
    hide Inv;
    var counted := s.Update(ref, s.records[ref].(sequence := sequence));
    QuietKeeps(s, counted);
    BeginKeepsStops(counted, request);
    BegunIsOutlived(counted, request, Some(ref));
    var started := counted.Emit(StopStarted(request));
    RetireTracks(started, ref, HasStopped, Some(NeverDispatched));
    QuietThenRetired(started, started, ref, HasStopped, Some(NeverDispatched));
    var n := Retire(started, ref, HasStopped, Some(NeverDispatched));
    AnsweredIsOutlived(started, n, request, ref);
    hide Retire, StopInv, Tracks, SomeOutlived;
    CacheKeepsStops(n, CachedStop(request, AlreadyStopped(sequence)));
  }

  lemma StopRetiredKeepsStops(s: State, request: StopRequest, tombstone: Tombstone, sequence: int)
    requires Inv(s) && StopInv(s) && s.retired.Has(request.commandId) && request.commandId !in s.commands
    ensures var counted := s.(retired := s.retired.Put(request.commandId, tombstone));
            && StopInv(counted)
            && StopInv(counted.Emit(StopStarted(request))
                         .(stops := s.stops.BoundedPut(StopKeyOf(request),
                                                       CachedStop(request, AlreadyStopped(sequence)))))
  {
    assert s.stops.Bounded();
    hide Inv;
    var counted := s.(retired := s.retired.Put(request.commandId, tombstone));
    assert counted.retired.vals.Keys == s.retired.vals.Keys;
    QuietKeeps(s, counted);
    BeginKeepsStops(counted, request);
    BegunIsOutlived(counted, request, None);
    hide StopInv, SomeOutlived;
    CacheKeepsStops(counted.Emit(StopStarted(request)), CachedStop(request, AlreadyStopped(sequence)));
  }

  lemma StopActiveKeepsStops(s: State, t: nat, request: StopRequest, valid: bool)
    requires Inv(s) && StopInv(s) && t !in s.tasks && request.commandId in s.commands
    ensures StopInv(StopBegin(s, t, request, valid).0)
  {
    assert Filed(s.records, s.commands);
    hide Inv, StopInv, Retire, LocallyTerminal;
    var ref := s.commands[request.commandId];
    StopLocallyKeepsStops(s, request, ref, FinalSequence(s.records[ref]));
    StopNativelyKeeps(s, t, ref, request);
  }

  lemma StopBeginKeepsStops(s: State, t: nat, request: StopRequest, valid: bool)
    requires Inv(s) && StopInv(s) && t !in s.tasks
    ensures StopInv(StopBegin(s, t, request, valid).0)
  {
    hide Inv, StopInv, Retire, LocallyTerminal;
    var id := request.commandId;
    if id in s.commands {
      hide StopBegin;
      StopActiveKeepsStops(s, t, request, valid);
    } else if s.retired.Has(id) {
      var tombstone := s.retired.Get(id);
      var sequence := Max(0, tombstone.sequence + 1);
      StopRetiredKeepsStops(s, request, tombstone.(sequence := sequence), sequence);
    }
  }

  /** The reservation as a confirmed stop marks it. */
  function Marked(s: State, t: nat, ref: nat): State
    requires ref < |s.records|
  {
    s.Finish(t)
     .Update(ref, s.records[ref].(terminal := Some(HasStopped), sequence := FinalSequence(s.records[ref])))
     .Emit(StopMarked(ref))
  }

  lemma ConfirmedKeepsStops(s: State, t: nat, ref: nat, request: StopRequest, sequence: int)
    requires s.retired.Bounded() && s.stops.Bounded() && StopInv(s) && ref < |s.records|
    requires t in s.tasks && s.tasks[t].Stops() && s.tasks[t].ref == ref && s.tasks[t].stop == request
    ensures StopInv(Retire(Marked(s, t, ref), ref, HasStopped, None)
                      .(stops := s.stops.BoundedPut(StopKeyOf(request), CachedStop(request, StopDone(sequence)))))
  {
    assert SomeOutlived(s.commands, s.log, request, Some(ref)) && s.records[ref].request.commandId == request.commandId;
    assert StopsTracked(s);
    hide StopInv, SomeOutlived, StopsTracked, Retire;
    var marked := Marked(s, t, ref);
    PlainTracks(s, marked);
    QuietThenRetired(s, marked, ref, HasStopped, None);
    RetireTracks(marked, ref, HasStopped, None);
    ThenRetired(s, marked, ref, HasStopped, None);
    var left := Retire(marked, ref, HasStopped, None);
    hide Tracks, Plain;
    AnsweredIsOutlived(s, left, request, ref);
    CacheKeepsStops(left, CachedStop(request, StopDone(sequence)));
  }

  lemma StopAfterPollKeepsStops(s: State, t: nat, ref: nat, request: StopRequest, stopId: string, poll: StopPoll)
    requires s.retired.Bounded() && s.stops.Bounded() && StopInv(s) && ref < |s.records|
    requires t in s.tasks && s.tasks[t] == AtPoll(ref, request, stopId)
    ensures StopInv(StopAfterPoll(s, t, ref, request, stopId, poll).0)
  {
    hide StopInv, StopConfirmed;
    if poll.Polled? && StopConfirmed(poll.observation, stopId, request.commandId) && poll.valid {
      ConfirmedKeepsStops(s, t, ref, request, FinalSequence(s.records[ref]));
    } else {
      hide Retire;
      QuietKeeps(s, StopAfterPoll(s, t, ref, request, stopId, poll).0);
    }
  }

  lemma SilentKeepsStops(s: State, step: Step)
    requires StopInv(s) && Enabled(s, step) && (step.StartFeedback? || step.ResumeStop?)
    ensures StopInv(Apply(s, step).0)
  {
    hide StopInv, NavigateBegin, NavigateAfterWorld, NavigateAfterPost, FeedbackEnd, StopBegin, StopAfterPoll;
    var n := Apply(s, step).0;
    assert Plain(s, n);
    hide Apply, Plain;
    QuietKeeps(s, n);
  }

  lemma StepKeepsStops(s: State, step: Step)
    requires Inv(s) && StopInv(s) && Enabled(s, step)
    ensures StopInv(Apply(s, step).0)
  {
    assert s.retired.Bounded() && s.stops.Bounded();
    hide Inv, StopInv, NavigateBegin, NavigateAfterWorld, NavigateAfterPost, FeedbackEnd, StopBegin, StopAfterPoll;
    match step
    case StartNavigate(t, request, lookup, now, valid) => NavigateBeginKeepsStops(s, t, request, lookup, now, valid);
    case ResumeWorld(t, reply, valid) => NavigateAfterWorldKeepsStops(s, t, s.tasks[t].ref, reply, valid);
    case ResumePost(t, ack, valid) => NavigateAfterPostKeepsStops(s, t, s.tasks[t].ref, ack, valid);
    case StartFeedback(_, _, _) => SilentKeepsStops(s, step);
    case ResumeFeedback(t, reply) => FeedbackEndKeepsStops(s, t, s.tasks[t].ref, reply);
    case StartStop(t, request, valid) => StopBeginKeepsStops(s, t, request, valid);
    case ResumeStop(t, reply) => SilentKeepsStops(s, step);
    case ResumePoll(t, poll) => StopAfterPollKeepsStops(s, t, s.tasks[t].ref, s.tasks[t].stop, s.tasks[t].stopId, poll);
  }

  lemma {:induction false} RunKeepsStops(s: State, steps: seq<Step>)
    requires Inv(s) && StopInv(s)
    ensures StopInv(Run(s, steps))
    decreases |steps|
  {
    hide Inv, StopInv, Apply;
    if steps != [] {
      if Enabled(s, steps[0]) {
        StepKeeps(s, steps[0]);
        StepKeepsStops(s, steps[0]);
        RunKeepsStops(Apply(s, steps[0]).0, steps[1..]);
      } else {
        RunKeepsStops(s, steps[1..]);
      }
    }
  }

  // -------------------------------------------------- what a replay is worth

  /** A cached stop answer is one that confirmed; its stop began at some point, and if its command is active again, a
      tombstone of that command was evicted after that point. */
  lemma CachedStopIsOld(s: State, key: StopKey)
    requires Reachable(s) && s.stops.Has(key)
    ensures var c := s.stops.Get(key);
            && StopKeyOf(c.request) == key && !c.result.StopRefused?
            && exists i: nat :: StartedAt(s.log, i, c.request)
                 && (c.request.commandId in s.commands ==> ClearedAfter(s.log, i, c.request.commandId))
  {
    var steps :| Run(Initial, steps) == s;
    InitialKeeps();
    assert StopInv(Initial);
    RunKeepsStops(Initial, steps);
    hide Run;
    var c := s.stops.Get(key);
    assert StopEntry(s.commands, s.log, key, c);
    var i: nat :| Outlived(s.commands, s.log, c.request, None, i);
  }

  /** No tombstone of the command was evicted since this stop first began. */
  ghost predicate StillRetained(log: seq<Event>, stop: StopRequest) {
    forall i: nat :: StartedAt(log, i, stop) ==> !ClearedAfter(log, i, stop.commandId)
  }

  /** While the tombstone is retained, a stop for a posted and unreleased reservation is never answered locally, not
      even by a replay. */
  lemma RetainedStopIsNative(s: State, ref: nat, t: nat, stop: StopRequest, valid: bool)
    requires Reachable(s) && WasPosted(s.log, s.records, ref) && !Released(s.log, ref)
    requires stop.commandId == s.records[ref].request.commandId && StillRetained(s.log, stop)
    ensures !StopBegin(s, t, stop, valid).1.StopReturned?
  {
    OwnershipIsNotLost(s, ref, t, stop, valid);
    if s.stops.Has(StopKeyOf(stop)) {
      CachedStopIsOld(s, StopKeyOf(stop));
    }
  }

  /** A stop that is answered from the cache changes nothing. After it a reservation, whatever its command, can still
      move if and only if it is active and a navigate call holds it. */
  lemma ReplayedStopLeavesMovesIff(s: State, stop: Step, ref: nat)
    requires Enabled(s, stop) && stop.StartStop? && s.stops.Has(StopKeyOf(stop.stop)) && ref < |s.records|
    ensures Apply(s, stop).0 == s
    ensures CanMove(Apply(s, stop).0, ref) <==> s.Active(ref) && Held(s, ref)
  {
    NavigateMovesIff(s, ref);
  }

  /** While the tombstone is retained, a replayed stop answer is final too: after it no navigate call of that command
      sends its move POST or returns accepted. */
  lemma ReplayedStopBeatsNavigate(s: State, stop: Step, ref: nat, steps: seq<Step>, later: Step)
    requires Reachable(s) && Enabled(s, stop) && stop.StartStop? && Apply(s, stop).1.StopReturned?
    requires s.stops.Has(StopKeyOf(stop.stop)) && StillRetained(s.log, stop.stop)
    requires ref < |s.records| && s.records[ref].request.commandId == stop.stop.commandId
    requires Enabled(Run(Apply(s, stop).0, steps), later)
    ensures !Moves(Run(Apply(s, stop).0, steps), later, ref)
  {
    CachedStopIsOld(s, StopKeyOf(stop.stop));
    assert !s.Active(ref);
    hide Moves, Run, Reachable, Held;
    ReplayedStopLeavesMovesIff(s, stop, ref);
  }

  // ------------------------------------------- a replay that stops nothing

  /** The `k`-th of many failing requests, each under an id of its own. */
  function Filler(c: Request, k: nat): Request { c.(commandId := c.commandId + seq(k + 1, _ => 'x')) }

  function Fill(c: Request, k: nat): Step { StartNavigate(3, Filler(c, k), LookupFails, 0.0, true) }

  function Fillers(c: Request, from: nat, n: nat): seq<Step>
    decreases n
  {
    if n == 0 then [] else [Fill(c, from)] + Fillers(c, from + 1, n - 1)
  }

  /** A reservation was stopped locally and its stop cached; nothing is active, nothing was posted. */
  ghost predicate StoppedEarly(s: State, stop: StopRequest) {
    && Inv(s) && s.commands == map[] && s.results.vals == map[] && s.tasks.Keys == {0}
    && s.stops.vals == map[StopKeyOf(stop) := CachedStop(stop, AlreadyStopped(0))]
  }

  /** The command's tombstone is the oldest of `k + 1`. */
  ghost predicate Filling(retired: Store<string, Tombstone>, c: Request, k: nat) {
    && |retired.keys| == k + 1 && retired.keys[0] == c.commandId
    && forall id :: id in retired.vals ==> |id| <= |c.commandId| + k
  }

  lemma FillingOneMore(retired: Store<string, Tombstone>, c: Request, k: nat, id: string, tombstone: Tombstone)
    requires retired.Bounded() && Filling(retired, c, k) && |id| == |c.commandId| + k + 1
    ensures !retired.Has(id)
    ensures var n := retired.BoundedPut(id, tombstone);
            if k + 1 < MAX_CACHED_ITEMS then Filling(n, c, k + 1) else !n.Has(c.commandId)
  {
    assert retired.keys[0] in retired.keys;
    BoundedPutKeeps(retired, id, tombstone);
    if k + 1 < MAX_CACHED_ITEMS {
      BoundedPutFits(retired, id, tombstone);
    }
    hide Store.BoundedPut, Store.Valid;
  }

  /** All a filler leaves is one more tombstone. */
  lemma FillLeaves(s: State, f: Request)
    requires s.commands == map[] && s.results.vals == map[] && !s.retired.Has(f.commandId)
    ensures var n := NavigateBegin(s, 3, f, LookupFails, 0.0, true).0;
            && n.commands == map[] && n.results == s.results && n.tasks == s.tasks && n.stops == s.stops
            && n.retired == s.retired.BoundedPut(f.commandId, Tombstone(f, -1, HasFailed, NeverDispatched))
  {
    hide Store.BoundedPut;
    assert (s.commands[f.commandId := |s.records|]) - {f.commandId} == s.commands;
  }

  lemma FillStep(s: State, c: Request, stop: StopRequest, k: nat)
    requires StoppedEarly(s, stop) && Filling(s.retired, c, k) && k < MAX_CACHED_ITEMS
    ensures Enabled(s, Fill(c, k))
    ensures var n := Apply(s, Fill(c, k)).0;
            && StoppedEarly(n, stop)
            && if k + 1 < MAX_CACHED_ITEMS then Filling(n.retired, c, k + 1) else !n.retired.Has(c.commandId)
  {
    StepKeeps(s, Fill(c, k));
    assert s.retired.Bounded();
    hide Inv, NavigateBegin, Filling, Store.BoundedPut, Store.Bounded;
    var f := Filler(c, k);
    FillingOneMore(s.retired, c, k, f.commandId, Tombstone(f, -1, HasFailed, NeverDispatched));
    FillLeaves(s, f);
  }

  lemma {:induction false} FillersEvict(s: State, c: Request, stop: StopRequest, k: nat, n: nat)
    requires StoppedEarly(s, stop) && Filling(s.retired, c, k) && n > 0 && k + n == MAX_CACHED_ITEMS
    ensures var r := Run(s, Fillers(c, k, n)); StoppedEarly(r, stop) && !r.retired.Has(c.commandId)
    decreases n
  {
    hide Apply, Enabled, StoppedEarly, Filling, Fill;
    FillStep(s, c, stop, k);
    var next := Apply(s, Fill(c, k)).0;
    var rest := Fillers(c, k + 1, n - 1);
    assert Fillers(c, k, n) == [Fill(c, k)] + rest;
    assert n == 1 ==> rest == [] && Run(next, []) == next;
    hide Fillers;
    RunFirst(s, Fill(c, k), rest);
    if n > 1 {
      FillersEvict(next, c, stop, k + 1, n - 1);
    }
  }

  /** The command is reserved, stopped before it is sent, and its stop cached; then its tombstone is displaced. */
  function StopThenFill(c: Request, stop: StopRequest): seq<Step> {
    [StartNavigate(0, c, Clear, 0.0, true)] + ([StartStop(1, stop, true)] + Fillers(c, 0, MAX_CACHED_ITEMS))
  }

  lemma ReservedAtOnce(c: Request)
    requires c.deadline >= 0.0
    ensures NavigateBegin(Initial, 0, c, Clear, 0.0, true).0 ==
            State([Record(c, None, -1, None, AwaitingWorld)], map[c.commandId := 0], Store([], map[]), Store([], map[]),
                  Store([], map[]), map[0 := AtWorld(0)], [])
  {
    hide Retire, FinishRejected;
    var s := NavigateBegin(Initial, 0, c, Clear, 0.0, true).0;
    assert s.records == [Record(c, None, -1, None, AwaitingWorld)];
    assert s.commands == map[c.commandId := 0] && s.tasks == map[0 := AtWorld(0)];
  }

  lemma StoppedAtOnce(s: State, c: Request, stop: StopRequest)
    requires c.deadline >= 0.0 && stop.commandId == c.commandId && stop.scope == c.scope
    requires Inv(s) && s == NavigateBegin(Initial, 0, c, Clear, 0.0, true).0
    ensures var n := StopBegin(s, 1, stop, true).0;
            && n.commands == map[] && n.results.vals == map[] && n.tasks.Keys == {0}
            && n.stops.vals == map[StopKeyOf(stop) := CachedStop(stop, AlreadyStopped(0))]
            && n.retired.keys == [c.commandId] && n.retired.vals.Keys == {c.commandId}
  {
    hide Inv;
    ReservedAtOnce(c);
    hide NavigateBegin;
    var tombstone := Tombstone(c, 0, HasStopped, NeverDispatched);
    BoundedPutFits(s.retired, c.commandId, tombstone);
    BoundedPutFits(s.stops, StopKeyOf(stop), CachedStop(stop, AlreadyStopped(0)));
    hide Store.BoundedPut;
    assert s.retired.Put(c.commandId, tombstone).keys == [c.commandId];
    assert s.commands - {c.commandId} == map[];
  }

  lemma StopsEarly(c: Request, stop: StopRequest, s1: State)
    requires c.deadline >= 0.0 && stop.commandId == c.commandId && stop.scope == c.scope
    requires s1 == NavigateBegin(Initial, 0, c, Clear, 0.0, true).0
    ensures Enabled(s1, StartStop(1, stop, true))
    ensures var s2 := Apply(s1, StartStop(1, stop, true)).0; StoppedEarly(s2, stop) && Filling(s2.retired, c, 0)
  {
    var first, second := StartNavigate(0, c, Clear, 0.0, true), StartStop(1, stop, true);
    ReservedAtOnce(c);
    InitialKeeps();
    hide Inv, NavigateBegin, StopBegin;
    StepKeeps(Initial, first);
    StepKeeps(s1, second);
    StoppedAtOnce(s1, c, stop);
  }

  lemma StopThenFillRuns(c: Request, stop: StopRequest)
    requires c.deadline >= 0.0 && stop.commandId == c.commandId && stop.scope == c.scope
    ensures var s := Run(Initial, StopThenFill(c, stop)); StoppedEarly(s, stop) && !s.retired.Has(c.commandId)
  {
    hide NavigateBegin, Fillers, StoppedEarly, Filling, Run;
    var first, second := StartNavigate(0, c, Clear, 0.0, true), StartStop(1, stop, true);
    var s1 := Apply(Initial, first).0;
    StopsEarly(c, stop, s1);
    var s2 := Apply(s1, second).0;
    hide Apply;
    FillersEvict(s2, c, stop, 0, MAX_CACHED_ITEMS);
    var rest := Fillers(c, 0, MAX_CACHED_ITEMS);
    RunFirst(s1, second, rest);
    RunFirst(Initial, first, [second] + rest);
  }

  /** The same command navigates again and its move POST is sent. */
  function PostAgain(c: Request): seq<Step> {
    [StartNavigate(2, c, Clear, 0.0, true)] + [ResumeWorld(2, WorldReady(0.0), true)]
  }

  lemma ReservesAgain(s: State, c: Request, stop: StopRequest)
    requires StoppedEarly(s, stop) && !s.retired.Has(c.commandId) && c.deadline >= 0.0
    ensures NavigateBegin(s, 2, c, Clear, 0.0, true).0 ==
            s.(records := s.records + [Record(c, None, -1, None, AwaitingWorld)],
               commands := map[c.commandId := |s.records|], tasks := s.tasks[2 := AtWorld(|s.records|)])
  {
    hide Inv, Retire, FinishRejected;
    var n := NavigateBegin(s, 2, c, Clear, 0.0, true).0;
    assert n.records == s.records + [Record(c, None, -1, None, AwaitingWorld)];
    assert n.commands == map[c.commandId := |s.records|];
  }

  /** The failing case, for any command and any stop of its owner: stopped before it was sent, displaced from the
      retained tombstones, and navigating anew, the same stop is answered `already_stopped` from the cache, and then the
      move POST of the new reservation is sent. */
  lemma ReplayedStopThenMoves(c: Request, stop: StopRequest, t: nat, valid: bool)
    requires c.deadline >= 0.0 && stop.commandId == c.commandId && stop.scope == c.scope
    ensures var s := Run(Initial, StopThenFill(c, stop) + [StartNavigate(2, c, Clear, 0.0, true)]);
            var later := ResumeWorld(2, WorldReady(0.0), true);
            && StopBegin(s, t, stop, valid) == (s, StopReturned(AlreadyStopped(0)))
            && Enabled(s, later) && s.records[s.tasks[2].ref].request == c && Moves(s, later, s.tasks[2].ref)
  {
    StopThenFillRuns(c, stop);
    var before := Run(Initial, StopThenFill(c, stop));
    var first := StartNavigate(2, c, Clear, 0.0, true);
    ReservesAgain(before, c, stop);
    assert Enabled(before, first);
    var s := Apply(before, first).0;
    hide Inv, NavigateBegin;
    RunFirst(before, first, []);
    assert [first] + [] == [first] && Run(s, []) == s;
    hide Run;
    RunAppend(Initial, StopThenFill(c, stop), [first]);
    hide Retire, FinishRejected;
  }

  lemma PostsReserved(s: State, c: Request)
    requires 2 in s.tasks && s.tasks[2].ref < |s.records| && c.deadline >= 0.0
    requires s.records[s.tasks[2].ref] == Record(c, None, -1, None, AwaitingWorld)
    requires s.commands == map[c.commandId := s.tasks[2].ref]
    ensures var ref := s.tasks[2].ref;
            var n := NavigateAfterWorld(s, 2, ref, WorldReady(0.0), true).0;
            && n.log == s.log + [Posted(ref, c.commandId)] && n.Active(ref) && n.records[ref].request == c
            && n.stops == s.stops
  {
    hide Retire, FinishRejected;
  }

  lemma NothingReleased(s: State, ref: nat)
    requires Grounded(s.log, s.records) && ref >= |s.records|
    ensures !Released(s.log, ref)
  {
    assert Concerns(RefusedAck(ref), ref) && Concerns(FeedbackConcluded(ref), ref) && Concerns(StopMarked(ref), ref);
  }

  lemma PostsInTwo(s: State, c: Request, stop: StopRequest)
    requires StoppedEarly(s, stop) && !s.retired.Has(c.commandId) && c.deadline >= 0.0
    ensures var n := Run(s, PostAgain(c));
            var ref := |s.records|;
            && n.log == s.log + [Posted(ref, c.commandId)] && n.Active(ref) && n.records[ref].request == c
            && n.stops == s.stops
  {
    ReservesAgain(s, c, stop);
    var first, second := StartNavigate(2, c, Clear, 0.0, true), ResumeWorld(2, WorldReady(0.0), true);
    var s1 := NavigateBegin(s, 2, c, Clear, 0.0, true).0;
    hide Inv, NavigateBegin, NavigateAfterWorld;
    assert Enabled(s, first) && Apply(s, first).0 == s1;
    assert Enabled(s1, second) && s1.tasks[2].ref == |s.records|;
    PostsReserved(s1, c);
    assert Apply(s1, second).0 == NavigateAfterWorld(s1, 2, |s.records|, WorldReady(0.0), true).0;
    hide Apply, Enabled, StoppedEarly, Run;
    RunTwo(s, first, second);
  }

  lemma PostsAgain(s: State, c: Request, stop: StopRequest)
    requires StoppedEarly(s, stop) && !s.retired.Has(c.commandId) && c.deadline >= 0.0
    ensures var n := Run(s, PostAgain(c));
            var ref := |s.records|;
            && WasPosted(n.log, n.records, ref) && !Released(n.log, ref) && n.Active(ref) && n.stops == s.stops
            && n.records[ref].request == c
  {
    PostsInTwo(s, c, stop);
    NothingReleased(s, |s.records|);
    hide Run, Inv, Grounded;
  }

  /** The failing case, for any command and any stop of its owner: stopped before it was sent, displaced from the
      retained tombstones, and sent anew, the command is active and posted; the same stop is then answered from the
      cache, `already_stopped`, and nothing is sent to the engine. */
  lemma ReplayStopsNothing(c: Request, stop: StopRequest, t: nat, valid: bool)
    requires c.deadline >= 0.0 && stop.commandId == c.commandId && stop.scope == c.scope
    ensures exists s, ref: nat ::
              && Reachable(s) && WasPosted(s.log, s.records, ref) && !Released(s.log, ref) && s.Active(ref)
              && s.records[ref].request.commandId == stop.commandId
              && StopBegin(s, t, stop, valid) == (s, StopReturned(AlreadyStopped(0)))
  {
    StopThenFillRuns(c, stop);
    var before := Run(Initial, StopThenFill(c, stop));
    PostsAgain(before, c, stop);
    RunAppend(Initial, StopThenFill(c, stop), PostAgain(c));
    var s := Run(before, PostAgain(c));
    var ref := |before.records|;
    assert Reachable(s) by {
      assert Run(Initial, StopThenFill(c, stop) + PostAgain(c)) == s;
    }
    hide Run, Inv, WasPosted, Released;
    assert StopBegin(s, t, stop, valid) == (s, StopReturned(AlreadyStopped(0)));
  }
}
