/** What every interleaving of the command-ownership protocol keeps.

    The invariant is a conjunction of predicates over the parts of the state they
    speak of, so that a transition need only look at what it changes. */
module CommandSafety {
  import opened Wrappers
  import opened OrderedStore
  import opened TerminalEvidence
  import opened CommandProtocol

  // ----------------------------------------------------------- structure

  ghost predicate Filed(records: seq<Record>, commands: map<string, nat>) {
    forall id :: id in commands ==> commands[id] < |records| && records[commands[id]].request.commandId == id
  }

  ghost predicate Bounds(s: State) { s.retired.Bounded() && s.results.Bounded() && s.stops.Bounded() }

  ghost predicate Frames(tasks: map<nat, Task>, count: nat) {
    && (forall t :: t in tasks ==> tasks[t].ref < count)
    && (forall t, u :: t in tasks && u in tasks && t != u && tasks[t].Navigates() && tasks[u].Navigates() ==>
          tasks[t].ref != tasks[u].ref)
  }

  predicate Concerns(e: Event, ref: nat) {
    match e
    case Posted(r, _) => r == ref
    case LostAck(r) => r == ref
    case RefusedAck(r) => r == ref
    case AcceptedAck(r) => r == ref
    case FeedbackConcluded(r) => r == ref
    case StopMarked(r) => r == ref
    case StopStarted(_) => false
    case Evicted(_) => false
  }

  /** Events speak only of reservations that exist. */
  ghost predicate Grounded(log: seq<Event>, records: seq<Record>) {
    && (forall e, ref: nat :: e in log && Concerns(e, ref) ==> ref < |records|)
    && (forall e :: e in log && e.Posted? ==>
          e.ref < |records| && e.commandId == records[e.ref].request.commandId)
  }

  // ----------------------------------------------- ownership while motion may be live

  predicate WasPosted(log: seq<Event>, records: seq<Record>, ref: nat) {
    ref < |records| && Posted(ref, records[ref].request.commandId) in log
  }

  /** A rejecting acknowledgement, terminal feedback, or a confirmed stop. */
  predicate Released(log: seq<Event>, ref: nat) {
    RefusedAck(ref) in log || FeedbackConcluded(ref) in log || StopMarked(ref) in log
  }

  predicate Releases(e: Event, ref: nat) {
    e == RefusedAck(ref) || e == FeedbackConcluded(ref) || e == StopMarked(ref)
  }

  ghost predicate ReleasesFollowPosts(log: seq<Event>) {
    forall i: nat, j: nat :: i < j < |log| && log[j].Posted? ==> !Releases(log[i], log[j].ref)
  }

  /** Native stops are sent for posted reservations only. */
  ghost predicate StopsPosted(tasks: map<nat, Task>, records: seq<Record>, log: seq<Event>) {
    forall t :: t in tasks && tasks[t].Stops() ==> WasPosted(log, records, tasks[t].ref)
  }

  ghost predicate Phases(tasks: map<nat, Task>, records: seq<Record>, log: seq<Event>) {
    forall t :: t in tasks && tasks[t].Navigates() ==>
      && tasks[t].ref < |records| && records[tasks[t].ref].acceptedAt.None?
      && (tasks[t].AtPost? <==> WasPosted(log, records, tasks[t].ref))
      && LostAck(tasks[t].ref) !in log && RefusedAck(tasks[t].ref) !in log && AcceptedAck(tasks[t].ref) !in log
  }

  /** Only posted reservations are accepted, and an active one is not released before it is posted. A posted one
      stays active, and must be stopped natively, until it is released. Without an acknowledgement only a confirmed
      stop marks, concludes or frees it; a lost one stays that way. */
  ghost predicate OwnedWell(records: seq<Record>, commands: map<string, nat>, log: seq<Event>, ref: nat)
    requires ref < |records|
  {
    && (records[ref].acceptedAt.Some? ==> WasPosted(log, records, ref))
    && (!WasPosted(log, records, ref) && IsActive(records, commands, ref) ==>
          records[ref].terminal.None? && LocallyTerminal(records[ref]) && !Released(log, ref))
    && (WasPosted(log, records, ref) && !Released(log, ref) ==>
          IsActive(records, commands, ref) && !LocallyTerminal(records[ref]))
    && (WasPosted(log, records, ref) && records[ref].acceptedAt.None?
        && RefusedAck(ref) !in log && StopMarked(ref) !in log ==>
          IsActive(records, commands, ref) && records[ref].terminal.None? && FeedbackConcluded(ref) !in log)
    && (LostAck(ref) in log ==>
          WasPosted(log, records, ref) && records[ref].acceptedAt.None? && RefusedAck(ref) !in log)
  }

  ghost predicate Ownership(records: seq<Record>, commands: map<string, nat>, log: seq<Event>) {
    forall ref: nat :: ref < |records| ==> OwnedWell(records, commands, log, ref)
  }

  // ------------------------------------------------- one post per id and tombstone

  /** The tombstone of `id` was evicted after position `i`. */
  ghost predicate ClearedAfter(log: seq<Event>, i: nat, id: string) {
    exists k: nat :: i < k < |log| && log[k] == Evicted(id)
  }

  /** Every post of `id` so far was followed by an eviction of its tombstone. */
  ghost predicate AllCleared(log: seq<Event>, id: string) {
    forall i: nat :: i < |log| && log[i].Posted? && log[i].commandId == id ==> ClearedAfter(log, i, id)
  }

  /** A posted id is active or retained as a tombstone, unless its tombstone was evicted since. */
  ghost predicate PostsTracked(commands: map<string, nat>, retired: map<string, Tombstone>, log: seq<Event>) {
    forall id :: id !in commands && id !in retired ==> AllCleared(log, id)
  }

  /** An active reservation still waiting for its world check comes after such an eviction. */
  ghost predicate FreshAtWorld(tasks: map<nat, Task>, records: seq<Record>, commands: map<string, nat>,
                               log: seq<Event>)
  {
    forall t :: t in tasks && tasks[t].AtWorld? && IsActive(records, commands, tasks[t].ref) ==>
      AllCleared(log, records[tasks[t].ref].request.commandId)
  }

  ghost predicate PostsSeparated(log: seq<Event>) {
    forall i: nat, j: nat ::
      i < j < |log| && log[i].Posted? && log[j].Posted? && log[i].commandId == log[j].commandId ==>
        exists k: nat :: i < k < j && log[k] == Evicted(log[i].commandId)
  }

  // ------------------------------------------------------- cached results are true

  /** A cached acceptance is that of some reservation made for exactly that request. */
  ghost predicate Witnesses(records: seq<Record>, log: seq<Event>, ref: nat, c: CachedNav) {
    && c.result.NavAccepted? && ref < |records| && records[ref].request == c.request
    && records[ref].acceptedAt == Some(c.result.acceptedAt) && c.result.commandId == c.request.commandId
    && AcceptedAck(ref) in log && WasPosted(log, records, ref)
  }

  ghost predicate TrueResult(records: seq<Record>, log: seq<Event>, key: NavKey, c: CachedNav) {
    KeyOf(c.request) == key
    && (c.result.NavAccepted? ==> exists ref: nat :: Witnesses(records, log, ref, c))
  }

  ghost predicate ResultsTrue(results: map<NavKey, CachedNav>, records: seq<Record>, log: seq<Event>) {
    forall key :: key in results ==> TrueResult(records, log, key, results[key])
  }

  ghost predicate Inv(s: State) {
    && Filed(s.records, s.commands) && Bounds(s) && Frames(s.tasks, |s.records|) && Grounded(s.log, s.records)
    && Phases(s.tasks, s.records, s.log) && Ownership(s.records, s.commands, s.log)
    && PostsTracked(s.commands, s.retired.vals, s.log) && FreshAtWorld(s.tasks, s.records, s.commands, s.log)
    && PostsSeparated(s.log) && ResultsTrue(s.results.vals, s.records, s.log)
    && ReleasesFollowPosts(s.log) && StopsPosted(s.tasks, s.records, s.log)
  }

  // ------------------------------------------------- extending log and records

  /** An event that is neither a post nor a stop answer keeps the history predicates. */
  lemma AppendKeeps(s: State, e: Event)
    requires Inv(s) && !e.Posted? && !e.AcceptedAck?
    ensures PostsSeparated(s.log + [e])
    ensures forall id :: AllCleared(s.log, id) ==> AllCleared(s.log + [e], id)
    ensures PostsTracked(s.commands, s.retired.vals, s.log + [e])
    ensures FreshAtWorld(s.tasks, s.records, s.commands, s.log + [e])
    ensures ResultsTrue(s.results.vals, s.records, s.log + [e])
  {
    hide Ownership, Phases, Grounded, Filed, Bounds, Frames;
    AppendSeparated(s.log, e);
    forall id | AllCleared(s.log, id)
      ensures AllCleared(s.log + [e], id)
    {
      AppendCleared(s.log, e, id);
    }
    forall key | key in s.results.vals
      ensures TrueResult(s.records, s.log + [e], key, s.results.vals[key])
    {
      AppendTrue(s.records, s.log, e, key, s.results.vals[key]);
    }
  }

  lemma AppendOwned(s: State, e: Event)
    requires Inv(s) && !e.Posted? && !e.LostAck? && !e.RefusedAck? && !e.FeedbackConcluded? && !e.StopMarked?
    ensures Ownership(s.records, s.commands, s.log + [e])
  {
    hide Phases, Grounded, PostsTracked, PostsSeparated, ResultsTrue, FreshAtWorld;
    forall i: nat | i < |s.records|
      ensures OwnedWell(s.records, s.commands, s.log + [e], i)
    {
      assert OwnedWell(s.records, s.commands, s.log, i);
    }
  }

  lemma AppendSeparated(log: seq<Event>, e: Event)
    requires PostsSeparated(log)
    requires e.Posted? ==> AllCleared(log, e.commandId)
    ensures PostsSeparated(log + [e])
  {
    var more := log + [e];
    forall i: nat, j: nat |
      i < j < |more| && more[i].Posted? && more[j].Posted? && more[i].commandId == more[j].commandId
      ensures exists k: nat :: i < k < j && more[k] == Evicted(more[i].commandId)
    {
      if j < |log| {
        var k: nat :| i < k < j && log[k] == Evicted(log[i].commandId);
        assert more[k] == log[k];
      } else {
        assert ClearedAfter(log, i, log[i].commandId);
        var k: nat :| i < k < |log| && log[k] == Evicted(log[i].commandId);
        assert more[k] == log[k];
      }
    }
  }

  lemma AppendCleared(log: seq<Event>, e: Event, id: string)
    requires AllCleared(log, id) && !(e.Posted? && e.commandId == id)
    ensures AllCleared(log + [e], id)
  {
    var more := log + [e];
    forall i: nat | i < |more| && more[i].Posted? && more[i].commandId == id
      ensures ClearedAfter(more, i, id)
    {
      assert ClearedAfter(log, i, id);
      var k: nat :| i < k < |log| && log[k] == Evicted(id);
      assert more[k] == log[k];
    }
  }

  lemma EvictionClears(log: seq<Event>, id: string)
    ensures AllCleared(log + [Evicted(id)], id)
  {
    var more := log + [Evicted(id)];
    forall i: nat | i < |more| && more[i].Posted? && more[i].commandId == id
      ensures ClearedAfter(more, i, id)
    {
      assert more[|log|] == Evicted(id);
    }
  }

  lemma AppendTrue(records: seq<Record>, log: seq<Event>, e: Event, key: NavKey, c: CachedNav)
    requires TrueResult(records, log, key, c)
    ensures TrueResult(records, log + [e], key, c)
  {
    if c.result.NavAccepted? {
      var ref: nat :| Witnesses(records, log, ref, c);
      assert Witnesses(records, log + [e], ref, c);
    }
  }

  // ------------------------------------------------- primitive transitions

  lemma FinishKeeps(s: State, t: nat)
    requires Inv(s)
    ensures Inv(s.Finish(t))
  {
    hide Ownership, Grounded, Filed, PostsTracked, PostsSeparated, ResultsTrue;
    hide AllCleared;
  }

  lemma WaitKeeps(s: State, t: nat, task: Task)
    requires Inv(s) && t !in s.tasks && !task.Navigates() && task.ref < |s.records|
    requires task.Stops() ==> WasPosted(s.log, s.records, task.ref)
    ensures Inv(s.(tasks := s.tasks[t := task]))
  {
    hide Ownership, Grounded, Filed, PostsTracked, PostsSeparated, ResultsTrue;
    hide AllCleared;
  }

  lemma CacheStopKeeps(s: State, key: StopKey, c: CachedStop)
    requires Inv(s)
    ensures Inv(s.(stops := s.stops.BoundedPut(key, c)))
  {
    BoundedPutKeeps(s.stops, key, c);
    hide Ownership, Grounded, Filed, PostsTracked, PostsSeparated, ResultsTrue;
    hide Phases, Frames, FreshAtWorld;
  }

  lemma CacheResultKeeps(s: State, c: CachedNav)
    requires Inv(s) && TrueResult(s.records, s.log, KeyOf(c.request), c)
    ensures Inv(s.(results := s.results.BoundedPut(KeyOf(c.request), c)))
  {
    BoundedPutKeeps(s.results, KeyOf(c.request), c);
    hide Ownership, Grounded, Filed, PostsTracked, PostsSeparated;
    hide Phases, Frames, FreshAtWorld, TrueResult;
  }

  lemma StopStartedKeeps(s: State, request: StopRequest)
    requires Inv(s)
    ensures Inv(s.Emit(StopStarted(request)))
  {
    AppendKeeps(s, StopStarted(request));
    AppendOwned(s, StopStarted(request));
    hide Filed, PostsTracked, PostsSeparated, ResultsTrue, Frames, FreshAtWorld, AllCleared, Ownership;
  }

  /** A stop call goes on to poll. */
  lemma PollKeeps(s: State, t: nat, stopId: string)
    requires Inv(s) && t in s.tasks && s.tasks[t].AtStop?
    ensures Inv(s.(tasks := s.tasks[t := AtPoll(s.tasks[t].ref, s.tasks[t].stop, stopId)]))
  {
    hide Ownership, Grounded, Filed, PostsTracked, PostsSeparated, ResultsTrue, AllCleared;
  }

  lemma EvictKeeps(s: State, id: string)
    requires Inv(s)
    ensures Inv(s.Emit(Evicted(id))) && AllCleared(s.log + [Evicted(id)], id)
  {
    AppendKeeps(s, Evicted(id));
    AppendOwned(s, Evicted(id));
    EvictionClears(s.log, id);
    hide Filed, PostsTracked, PostsSeparated, ResultsTrue, Frames, FreshAtWorld, AllCleared;
  }

  /** Once an id's posts are cleared its tombstone may go. */
  lemma DropTombstoneKeeps(s: State, kept: Store<string, Tombstone>)
    requires Inv(s) && kept.Bounded()
    requires forall id :: id in s.retired.vals && id !in kept.vals ==> AllCleared(s.log, id)
    ensures Inv(s.(retired := kept))
  {
    hide Ownership, Grounded, Filed, PostsSeparated, ResultsTrue, Frames, FreshAtWorld;
    hide AllCleared, Phases;
  }

  /** Progress on a reservation, short of an acknowledgement. */
  ghost predicate MayProgress(s: State, ref: nat, r: Record)
    requires ref < |s.records|
  {
    var was := s.records[ref];
    && r.request == was.request && r.acceptedAt == was.acceptedAt
    && (r.terminal == was.terminal || (r.terminal.Some? && MayRetire(s, ref)))
    && (!WasPosted(s.log, s.records, ref) && s.Active(ref) ==> r.terminal.None? && LocallyTerminal(r))
    && (WasPosted(s.log, s.records, ref) && !Released(s.log, ref) ==> !LocallyTerminal(r))
  }

  lemma ProgressOwned(s: State, ref: nat, r: Record)
    requires Inv(s) && ref < |s.records| && MayProgress(s, ref, r)
    ensures Ownership(s.records[ref := r], s.commands, s.log)
  {
    hide Grounded, PostsTracked, FreshAtWorld, PostsSeparated, ResultsTrue;
    hide ReleasesFollowPosts, StopsPosted, Frames, Bounds, Phases, LocallyTerminal;
    var after := s.records[ref := r];
    forall i: nat | i < |s.records|
      ensures OwnedWell(after, s.commands, s.log, i)
    {
      assert OwnedWell(s.records, s.commands, s.log, i);
    }
  }

  lemma ProgressKeeps(s: State, ref: nat, r: Record)
    requires Inv(s) && ref < |s.records| && MayProgress(s, ref, r)
    ensures Inv(s.Update(ref, r))
  {
    RecordsKeep(s, ref, r);
    ProgressOwned(s, ref, r);
    hide PostsTracked, PostsSeparated, ResultsTrue, FreshAtWorld, AllCleared, Ownership;
    hide LocallyTerminal, MayRetire;
  }

  lemma RecordsKeep(s: State, ref: nat, r: Record)
    requires Inv(s) && ref < |s.records|
    requires r.request == s.records[ref].request
    requires r.acceptedAt == s.records[ref].acceptedAt || s.records[ref].acceptedAt.None?
    ensures FreshAtWorld(s.tasks, s.records[ref := r], s.commands, s.log)
    ensures ResultsTrue(s.results.vals, s.records[ref := r], s.log)
  {
    hide Ownership, Grounded, Filed, PostsTracked, PostsSeparated, Frames, Phases, AllCleared;
    var after := s.records[ref := r];
    forall key | key in s.results.vals
      ensures TrueResult(after, s.log, key, s.results.vals[key])
    {
      var c := s.results.vals[key];
      assert TrueResult(s.records, s.log, key, c);
      if c.result.NavAccepted? {
        var w: nat :| Witnesses(s.records, s.log, w, c);
        assert Witnesses(after, s.log, w, c);
      }
    }
  }

  /** A reservation that was posted may leave, or be marked, only once it is released. */
  ghost predicate MayRetire(s: State, ref: nat)
    requires ref < |s.records|
  {
    WasPosted(s.log, s.records, ref) ==>
      && Released(s.log, ref)
      && (s.records[ref].acceptedAt.None? && RefusedAck(ref) !in s.log ==> StopMarked(ref) in s.log)
  }

  lemma LeaveKeeps(s: State, ref: nat)
    requires Inv(s) && ref < |s.records| && MayRetire(s, ref)
    requires s.records[ref].request.commandId in s.retired.vals
    ensures Inv(s.(commands := if s.Active(ref) then s.commands - {s.records[ref].request.commandId} else s.commands))
  {
    hide PostsSeparated, ResultsTrue, Frames, AllCleared, Phases, Grounded;
    var left := if s.Active(ref) then s.commands - {s.records[ref].request.commandId} else s.commands;
    forall i: nat | i < |s.records|
      ensures OwnedWell(s.records, left, s.log, i)
    {
      assert OwnedWell(s.records, s.commands, s.log, i);
    }
  }

  /** A tombstone is stored, and the one it displaces is logged. */
  lemma BuryKeeps(s: State, id: string, tombstone: Tombstone)
    requires Inv(s)
    ensures Inv(s.(retired := s.retired.BoundedPut(id, tombstone), log := s.log + Dropped(s.retired, id)))
    ensures s.retired.BoundedPut(id, tombstone).Has(id)
  {
    hide Filed, Frames, Grounded, Phases, Ownership, PostsTracked, FreshAtWorld;
    hide PostsSeparated, ResultsTrue, AllCleared, ReleasesFollowPosts, StopsPosted;
    BoundedPutKeeps(s.retired, id, tombstone);
    var logged := s.(log := s.log + Dropped(s.retired, id));
    if Dropped(s.retired, id) == [] {
      assert logged == s;
    } else {
      EvictKeeps(s, s.retired.keys[0]);
    }
    DropTombstoneKeeps(logged, s.retired.BoundedPut(id, tombstone));
  }

  lemma RetireKeeps(s: State, ref: nat, terminal: Terminal, state: Option<DispatchState>)
    requires Inv(s) && ref < |s.records| && MayRetire(s, ref)
    ensures Inv(Retire(s, ref, terminal, state))
  {
    hide Inv, LocallyTerminal;
    var record := s.records[ref];
    var id := record.request.commandId;
    if s.Active(ref) || !s.retired.Has(id) {
      var after := record.(
        terminal := Some(terminal),
        dispatchState := if state.Some? then state.value else record.dispatchState);
      var tombstone := Tombstone(record.request, record.sequence, terminal, after.dispatchState);
      BuryKeeps(s, id, tombstone);
      var buried := s.(retired := s.retired.BoundedPut(id, tombstone), log := s.log + Dropped(s.retired, id));
      assert MayRetire(buried, ref);
      LeaveKeeps(buried, ref);
      var left := buried.(commands := if s.Active(ref) then s.commands - {id} else s.commands);
      ProgressKeeps(left, ref, after);
    }
  }

  lemma FinishRejectedKeeps(s: State, ref: nat, reason: Reason, valid: bool)
    requires Inv(s) && ref < |s.records| && MayRetire(s, ref)
    ensures Inv(FinishRejected(s, ref, reason, valid).0)
  {
    if valid {
      var request := s.records[ref].request;
      var c := CachedNav(request, NavRejected(reason));
      CacheResultKeeps(s, c);
      RetireKeeps(s.(results := s.results.BoundedPut(KeyOf(request), c)), ref, WasRejected, Some(Rejected));
    }
  }

  /** A new reservation is made only for an id whose posts are all cleared. */
  lemma ReserveKeeps(s: State, request: Request)
    requires Inv(s) && request.commandId !in s.commands && request.commandId !in s.retired.vals
    ensures var r := s.(records := s.records + [Record(request, None, -1, None, Reserved)],
                        commands := s.commands[request.commandId := |s.records|]);
            && Inv(r) && AllCleared(r.log, request.commandId)
            && !WasPosted(r.log, r.records, |s.records|) && !Concerned(r, |s.records|)
  {
    var records := s.records + [Record(request, None, -1, None, Reserved)];
    assert !Concerned(s, |s.records|);
    ReserveOwned(s, request);
    ReserveResults(s, records);
    hide PostsSeparated, AllCleared, Ownership, ResultsTrue;
  }

  lemma ReserveOwned(s: State, request: Request)
    requires Inv(s) && request.commandId !in s.commands
    ensures Ownership(s.records + [Record(request, None, -1, None, Reserved)],
                      s.commands[request.commandId := |s.records|], s.log)
  {
    hide PostsSeparated, ResultsTrue, PostsTracked, FreshAtWorld, Phases, StopsPosted, Frames, ReleasesFollowPosts;
    var records := s.records + [Record(request, None, -1, None, Reserved)];
    var commands := s.commands[request.commandId := |s.records|];
    assert !Concerned(s, |s.records|);
    forall i: nat | i < |records|
      ensures OwnedWell(records, commands, s.log, i)
    {
      if i < |s.records| {
        assert OwnedWell(s.records, s.commands, s.log, i);
      }
    }
  }

  lemma ReserveResults(s: State, records: seq<Record>)
    requires ResultsTrue(s.results.vals, s.records, s.log) && s.records <= records
    ensures ResultsTrue(s.results.vals, records, s.log)
  {
    forall key | key in s.results.vals
      ensures TrueResult(records, s.log, key, s.results.vals[key])
    {
      var c := s.results.vals[key];
      assert TrueResult(s.records, s.log, key, c);
      if c.result.NavAccepted? {
        var w: nat :| Witnesses(s.records, s.log, w, c);
        assert Witnesses(records, s.log, w, c);
      }
    }
  }

  /** Some event speaks of the reservation. */
  ghost predicate Concerned(s: State, ref: nat) {
    exists e :: e in s.log && Concerns(e, ref)
  }

  /** A navigate call may come to wait for the world check on a reservation nothing was recorded of. */
  lemma WaitForWorldKeeps(s: State, t: nat, ref: nat)
    requires Inv(s) && t !in s.tasks && ref < |s.records| && s.records[ref].acceptedAt.None?
    requires !Concerned(s, ref) && AllCleared(s.log, s.records[ref].request.commandId)
    requires forall u :: u in s.tasks ==> s.tasks[u].ref != ref
    ensures Inv(s.(tasks := s.tasks[t := AtWorld(ref)]))
  {
    hide Ownership, Grounded, Filed, PostsTracked, PostsSeparated, ResultsTrue, AllCleared, ReleasesFollowPosts;
    assert Concerns(Posted(ref, s.records[ref].request.commandId), ref) && Concerns(LostAck(ref), ref);
    assert Concerns(RefusedAck(ref), ref) && Concerns(AcceptedAck(ref), ref);
  }

  lemma EnterWorldKeeps(s: State, t: nat, ref: nat)
    requires Inv(s) && t !in s.tasks && ref < |s.records| && !Concerned(s, ref)
    requires s.records[ref].acceptedAt.None? && s.records[ref].terminal.None?
    requires AllCleared(s.log, s.records[ref].request.commandId)
    requires forall u :: u in s.tasks ==> s.tasks[u].ref != ref
    ensures Inv(s.Update(ref, s.records[ref].(dispatchState := AwaitingWorld)).(tasks := s.tasks[t := AtWorld(ref)]))
  {
    assert Concerns(Posted(ref, s.records[ref].request.commandId), ref);
    var waiting := s.records[ref].(dispatchState := AwaitingWorld);
    assert MayProgress(s, ref, waiting);
    hide Inv, AllCleared;
    ProgressKeeps(s, ref, waiting);
    WaitForWorldKeeps(s.Update(ref, waiting), t, ref);
  }

  /** The reservation and log after its move POST starts. */
  function Sent(s: State, ref: nat): (Record, Event)
    requires ref < |s.records|
  {
    (s.records[ref].(dispatchState := Dispatching), Posted(ref, s.records[ref].request.commandId))
  }

  ghost predicate ReadyToPost(s: State, t: nat, ref: nat) {
    Inv(s) && t in s.tasks && s.tasks[t] == AtWorld(ref) && s.Active(ref)
  }

  lemma PostOwned(s: State, t: nat, ref: nat)
    requires ReadyToPost(s, t, ref)
    ensures var (r, e) := Sent(s, ref); Ownership(s.records[ref := r], s.commands, s.log + [e])
  {
    hide Grounded, PostsTracked, FreshAtWorld, PostsSeparated, ResultsTrue;
    hide ReleasesFollowPosts, StopsPosted, Frames, Bounds;
    var (r, e) := Sent(s, ref);
    var records := s.records[ref := r];
    forall i: nat | i < |s.records|
      ensures OwnedWell(records, s.commands, s.log + [e], i)
    {
      assert OwnedWell(s.records, s.commands, s.log, i);
    }
  }

  lemma PostHistory(s: State, t: nat, ref: nat)
    requires ReadyToPost(s, t, ref)
    ensures var (r, e) := Sent(s, ref);
            && PostsSeparated(s.log + [e]) && ReleasesFollowPosts(s.log + [e])
            && Grounded(s.log + [e], s.records[ref := r])
  {
    hide PostsTracked, ResultsTrue, StopsPosted, Frames, Bounds, PostsSeparated, AllCleared;
    var (r, e) := Sent(s, ref);
    AppendSeparated(s.log, e);
    assert OwnedWell(s.records, s.commands, s.log, ref);
    assert !Released(s.log, ref);
    forall i: nat, j: nat | i < j < |s.log + [e]| && (s.log + [e])[j].Posted?
      ensures !Releases((s.log + [e])[i], (s.log + [e])[j].ref)
    {
      if j == |s.log| {
        assert s.log[i] in s.log;
      }
    }
  }

  lemma PostTracked(s: State, t: nat, ref: nat)
    requires ReadyToPost(s, t, ref)
    ensures var (r, e) := Sent(s, ref);
            && PostsTracked(s.commands, s.retired.vals, s.log + [e])
            && FreshAtWorld(s.tasks[t := AtPost(ref)], s.records[ref := r], s.commands, s.log + [e])
            && ResultsTrue(s.results.vals, s.records[ref := r], s.log + [e])
  {
    hide Phases, StopsPosted, Bounds, PostsSeparated, AllCleared, Ownership, ReleasesFollowPosts, ResultsTrue;
    hide Grounded;
    var (r, e) := Sent(s, ref);
    RecordsKeep(s, ref, r);
    var id := s.records[ref].request.commandId;
    forall x | x != id && AllCleared(s.log, x)
      ensures AllCleared(s.log + [e], x)
    {
      AppendCleared(s.log, e, x);
    }
    assert ResultsTrue(s.results.vals, s.records[ref := r], s.log + [e]) by {
      PostResults(s, s.records[ref := r], e);
    }
  }

  lemma PostResults(s: State, records: seq<Record>, e: Event)
    requires ResultsTrue(s.results.vals, records, s.log)
    ensures ResultsTrue(s.results.vals, records, s.log + [e])
  {
    forall key | key in s.results.vals
      ensures TrueResult(records, s.log + [e], key, s.results.vals[key])
    {
      AppendTrue(records, s.log, e, key, s.results.vals[key]);
    }
  }

  lemma PostFrames(s: State, t: nat, ref: nat)
    requires ReadyToPost(s, t, ref)
    ensures var (r, e) := Sent(s, ref);
            && Filed(s.records[ref := r], s.commands) && Frames(s.tasks[t := AtPost(ref)], |s.records|)
            && Phases(s.tasks[t := AtPost(ref)], s.records[ref := r], s.log + [e])
            && StopsPosted(s.tasks[t := AtPost(ref)], s.records[ref := r], s.log + [e])
  {
    hide Bounds, PostsSeparated, AllCleared, Ownership, ReleasesFollowPosts, ResultsTrue;
    hide Grounded, FreshAtWorld, PostsTracked;
  }

  lemma PostKeeps(s: State, t: nat, ref: nat)
    requires ReadyToPost(s, t, ref)
    ensures var (r, e) := Sent(s, ref);
            Inv(s.Update(ref, r).(tasks := s.tasks[t := AtPost(ref)]).Emit(e))
  {
    PostOwned(s, t, ref);
    PostHistory(s, t, ref);
    PostTracked(s, t, ref);
    PostFrames(s, t, ref);
    hide Filed, Frames, Grounded, Phases, Ownership, PostsTracked, FreshAtWorld;
    hide PostsSeparated, ResultsTrue, ReleasesFollowPosts, StopsPosted;
  }

  /** When each mark may be written on a reservation, and what the mark leaves behind. */
  ghost predicate MayMark(s: State, ref: nat, r: Record, e: Event)
    requires ref < |s.records|
  {
    var was := s.records[ref];
    && r.request == was.request
    && (e == LostAck(ref) || e == RefusedAck(ref) || e == AcceptedAck(ref) ==>
          && WasPosted(s.log, s.records, ref) && s.Active(ref) && was.acceptedAt.None? && r.terminal == was.terminal
          && LostAck(ref) !in s.log && RefusedAck(ref) !in s.log && AcceptedAck(ref) !in s.log
          && (forall u :: u in s.tasks && s.tasks[u].Navigates() ==> s.tasks[u].ref != ref))
    && (e == LostAck(ref) ==> r.acceptedAt.None? && r.dispatchState.DispatchUnknown?)
    && (e == RefusedAck(ref) ==> r == was)
    && (e == AcceptedAck(ref) ==> r.acceptedAt.Some? && r.dispatchState.Accepted?)
    && (e == FeedbackConcluded(ref) ==>
          r.acceptedAt == was.acceptedAt && (was.acceptedAt.Some? || was.terminal == Some(HasStopped)))
    && (e == StopMarked(ref) ==> r.acceptedAt == was.acceptedAt && WasPosted(s.log, s.records, ref))
    && (|| e == LostAck(ref) || e == RefusedAck(ref) || e == AcceptedAck(ref)
        || e == FeedbackConcluded(ref) || e == StopMarked(ref))
  }

  lemma MarkOwned(s: State, ref: nat, r: Record, e: Event)
    requires Inv(s) && ref < |s.records| && MayMark(s, ref, r, e)
    ensures Ownership(s.records[ref := r], s.commands, s.log + [e])
  {
    hide Grounded, PostsTracked, FreshAtWorld, PostsSeparated, ResultsTrue;
    hide ReleasesFollowPosts, StopsPosted, Frames, Bounds, Phases;
    var records := s.records[ref := r];
    forall i: nat | i < |s.records|
      ensures OwnedWell(records, s.commands, s.log + [e], i)
    {
      assert OwnedWell(s.records, s.commands, s.log, i);
    }
  }

  lemma MarkHistory(s: State, ref: nat, r: Record, e: Event)
    requires Inv(s) && ref < |s.records| && MayMark(s, ref, r, e)
    ensures PostsSeparated(s.log + [e]) && ReleasesFollowPosts(s.log + [e])
    ensures Grounded(s.log + [e], s.records[ref := r])
  {
    hide PostsTracked, ResultsTrue, StopsPosted, Frames, Bounds, PostsSeparated, AllCleared;
    hide Ownership, FreshAtWorld, Phases;
    AppendSeparated(s.log, e);
  }

  lemma MarkTracked(s: State, ref: nat, r: Record, e: Event)
    requires Inv(s) && ref < |s.records| && MayMark(s, ref, r, e)
    ensures PostsTracked(s.commands, s.retired.vals, s.log + [e])
    ensures FreshAtWorld(s.tasks, s.records[ref := r], s.commands, s.log + [e])
    ensures ResultsTrue(s.results.vals, s.records[ref := r], s.log + [e])
  {
    hide Phases, StopsPosted, Bounds, PostsSeparated, AllCleared, Ownership, ReleasesFollowPosts, ResultsTrue;
    hide Grounded;
    RecordsKeep(s, ref, r);
    forall x | AllCleared(s.log, x)
      ensures AllCleared(s.log + [e], x)
    {
      AppendCleared(s.log, e, x);
    }
    PostResults(s, s.records[ref := r], e);
  }

  lemma MarkFrames(s: State, ref: nat, r: Record, e: Event)
    requires Inv(s) && ref < |s.records| && MayMark(s, ref, r, e)
    ensures Filed(s.records[ref := r], s.commands) && Frames(s.tasks, |s.records|)
    ensures Phases(s.tasks, s.records[ref := r], s.log + [e])
    ensures StopsPosted(s.tasks, s.records[ref := r], s.log + [e])
  {
    hide Bounds, PostsSeparated, AllCleared, Ownership, ReleasesFollowPosts, ResultsTrue;
    hide Grounded, FreshAtWorld, PostsTracked;
  }

  lemma MarkKeeps(s: State, ref: nat, r: Record, e: Event)
    requires Inv(s) && ref < |s.records| && MayMark(s, ref, r, e)
    ensures Inv(s.Update(ref, r).Emit(e))
    ensures MayMark(s, ref, r, e) && !e.LostAck? && !e.AcceptedAck? ==> MayRetire(s.Update(ref, r).Emit(e), ref)
  {
    MarkOwned(s, ref, r, e);
    MarkHistory(s, ref, r, e);
    MarkTracked(s, ref, r, e);
    MarkFrames(s, ref, r, e);
    assert OwnedWell(s.records, s.commands, s.log, ref);
    hide Filed, Frames, Grounded, Phases, Ownership, PostsTracked, FreshAtWorld;
    hide PostsSeparated, ResultsTrue, ReleasesFollowPosts, StopsPosted;
  }

  // ------------------------------------------------------------- the steps

  lemma NavigateBeginKeeps(s: State, t: nat, request: Request, lookup: Lookup, now: real, valid: bool)
    requires Inv(s) && t !in s.tasks
    ensures Inv(NavigateBegin(s, t, request, lookup, now, valid).0)
  {
    hide AllCleared, Ownership, Phases, Grounded, PostsTracked, FreshAtWorld;
    hide PostsSeparated, ResultsTrue, ReleasesFollowPosts, StopsPosted, Filed, Bounds, Retire, FinishRejected;
    var id := request.commandId;
    if !s.results.Has(KeyOf(request)) && id !in s.commands && !s.retired.Has(id) {
      ReserveKeeps(s, request);
      var ref := |s.records|;
      var reserved := s.(records := s.records + [Record(request, None, -1, None, Reserved)],
                         commands := s.commands[id := ref]);
      if lookup.LookupFails? {
        RetireKeeps(reserved, ref, HasFailed, Some(NeverDispatched));
      } else if now > request.deadline || lookup.Mismatch? || lookup.Blocked? {
        var reason := if now > request.deadline then DeadlineExpired
                      else if lookup.Mismatch? then TargetMismatch else PathBlocked;
        FinishRejectedKeeps(reserved, ref, reason, true);
        RetireKeeps(reserved, ref, HasFailed, Some(NeverDispatched));
      } else {
        EnterWorldKeeps(reserved, t, ref);
      }
    }
  }

  lemma NavigateAfterWorldKeeps(s: State, t: nat, ref: nat, reply: WorldReply, valid: bool)
    requires Inv(s) && t in s.tasks && s.tasks[t] == AtWorld(ref) && ref < |s.records|
    ensures Inv(NavigateAfterWorld(s, t, ref, reply, valid).0)
  {
    hide AllCleared, Ownership, Grounded, PostsTracked, FreshAtWorld;
    hide PostsSeparated, ResultsTrue, ReleasesFollowPosts, StopsPosted, Filed, Bounds, Retire, FinishRejected, Frames;
    FinishKeeps(s, t);
    var done := s.Finish(t);
    assert MayRetire(done, ref);
    RetireKeeps(done, ref, WasCancelled, Some(NeverDispatched));
    RetireKeeps(done, ref, HasFailed, Some(NeverDispatched));
    FinishRejectedKeeps(done, ref, StoppedBeforeDispatch, valid);
    FinishRejectedKeeps(done, ref, DeadlineExpired, valid);
    if s.Active(ref) {
      PostKeeps(s, t, ref);
    }
  }

  lemma NavigateAfterPostKeeps(s: State, t: nat, ref: nat, ack: Ack, valid: bool)
    requires Inv(s) && t in s.tasks && s.tasks[t] == AtPost(ref) && ref < |s.records|
    ensures Inv(NavigateAfterPost(s, t, ref, ack, valid).0)
  {
    hide AllCleared, Grounded, PostsTracked, FreshAtWorld;
    hide PostsSeparated, ResultsTrue, ReleasesFollowPosts, StopsPosted, Filed, Bounds, Retire, FinishRejected;
    FinishKeeps(s, t);
    var done := s.Finish(t);
    var was := s.records[ref];
    assert OwnedWell(s.records, s.commands, s.log, ref);
    if !s.Active(ref) {
      if !ack.Lost? {
        FinishRejectedKeeps(done, ref, StoppedBeforeAccept, valid);
      }
    } else if ack.Lost? {
      MarkKeeps(done, ref, was.(dispatchState := DispatchUnknown), LostAck(ref));
    } else if ack.RefusedByBridge? {
      MarkKeeps(done, ref, was, RefusedAck(ref));
      assert done.Update(ref, was) == done;
      FinishRejectedKeeps(done.Emit(RefusedAck(ref)), ref, DispatchRejected, valid);
    } else if valid {
      var c := CachedNav(was.request, NavAccepted(was.request.commandId, ack.now));
      var accepted := was.(acceptedAt := Some(ack.now), dispatchState := Accepted);
      MarkKeeps(done, ref, accepted, AcceptedAck(ref));
      var marked := done.Update(ref, accepted).Emit(AcceptedAck(ref));
      assert Witnesses(marked.records, marked.log, ref, c);
      CacheResultKeeps(marked, c);
    }
  }

  lemma FeedbackEndKeeps(s: State, t: nat, ref: nat, reply: FeedbackReply)
    requires Inv(s) && t in s.tasks && s.tasks[t] == AtFeedback(ref) && ref < |s.records|
    ensures Inv(FeedbackEnd(s, t, ref, reply).0)
  {
    hide AllCleared, Grounded, PostsTracked, FreshAtWorld, Phases, Frames;
    hide PostsSeparated, ResultsTrue, ReleasesFollowPosts, StopsPosted, Filed, Bounds, Retire, StatusOf;
    FinishKeeps(s, t);
    var done := s.Finish(t);
    if reply.FeedbackObserved? {
      var record := s.records[ref];
      var epoch := EpochOf(record);
      var marked := record.terminal == Some(HasStopped);
      var status := StatusOf(reply.telemetry, epoch, marked);
      var counted := record.(sequence := Max(record.sequence + 1, reply.afterSequence + 1));
      assert OwnedWell(s.records, s.commands, s.log, ref);
      if !Concludes(status) {
        ProgressKeeps(done, ref, counted);
      } else {
        FeedbackConcludesIff(reply.telemetry, epoch, marked);
        if record.acceptedAt.None? {
          NoEvidenceBeforeAcceptance(reply.telemetry.observation.payload, epoch);
        }
        var ended := counted.(terminal := Some(TerminalFor(status)));
        MarkKeeps(done, ref, ended, FeedbackConcluded(ref));
        RetireKeeps(done.Update(ref, ended).Emit(FeedbackConcluded(ref)), ref, TerminalFor(status), None);
      }
    }
  }

  lemma StopLocallyKeeps(s: State, request: StopRequest, ref: nat, sequence: int)
    requires Inv(s) && s.Active(ref) && LocallyTerminal(s.records[ref])
    ensures var counted := s.Update(ref, s.records[ref].(sequence := sequence));
            && Inv(counted)
            && Inv(Retire(counted.Emit(StopStarted(request)), ref, HasStopped, Some(NeverDispatched))
                     .(stops := s.stops.BoundedPut(StopKeyOf(request),
                                                   CachedStop(request, AlreadyStopped(sequence)))))
  {
    hide AllCleared, Grounded, PostsTracked, FreshAtWorld, Phases, Frames;
    hide PostsSeparated, ResultsTrue, ReleasesFollowPosts, StopsPosted, Filed, Bounds;
    assert OwnedWell(s.records, s.commands, s.log, ref);
    var counted := s.Update(ref, s.records[ref].(sequence := sequence));
    ProgressKeeps(s, ref, s.records[ref].(sequence := sequence));
    StopStartedKeeps(counted, request);
    var started := counted.Emit(StopStarted(request));
    assert MayRetire(started, ref);
    RetireKeeps(started, ref, HasStopped, Some(NeverDispatched));
    var retired := Retire(started, ref, HasStopped, Some(NeverDispatched));
    assert retired.stops == s.stops;
    hide Retire, LocallyTerminal;
    CacheStopKeeps(retired, StopKeyOf(request), CachedStop(request, AlreadyStopped(sequence)));
  }

  lemma StopRetiredKeeps(s: State, request: StopRequest, tombstone: Tombstone, sequence: int)
    requires Inv(s) && s.retired.Has(request.commandId)
    ensures var counted := s.(retired := s.retired.Put(request.commandId, tombstone));
            && Inv(counted)
            && Inv(counted.Emit(StopStarted(request))
                          .(stops := s.stops.BoundedPut(StopKeyOf(request),
                                                        CachedStop(request, AlreadyStopped(sequence)))))
  {
    hide AllCleared, Grounded, PostsTracked, FreshAtWorld, Phases, Frames;
    hide PostsSeparated, ResultsTrue, ReleasesFollowPosts, StopsPosted, Filed, Ownership;
    PutValid(s.retired, request.commandId, tombstone);
    DropTombstoneKeeps(s, s.retired.Put(request.commandId, tombstone));
    var counted := s.(retired := s.retired.Put(request.commandId, tombstone));
    StopStartedKeeps(counted, request);
    CacheStopKeeps(counted.Emit(StopStarted(request)), StopKeyOf(request),
                   CachedStop(request, AlreadyStopped(sequence)));
  }

  lemma StopBeginKeeps(s: State, t: nat, request: StopRequest, valid: bool)
    requires Inv(s) && t !in s.tasks
    ensures Inv(StopBegin(s, t, request, valid).0)
  {
    hide AllCleared, Grounded, PostsTracked, FreshAtWorld, Phases, Frames;
    hide PostsSeparated, ResultsTrue, ReleasesFollowPosts, StopsPosted, Bounds, Retire, LocallyTerminal;
    var id := request.commandId;
    if id in s.commands {
      var ref := s.commands[id];
      assert s.Active(ref) && OwnedWell(s.records, s.commands, s.log, ref);
      if LocallyTerminal(s.records[ref]) {
        StopLocallyKeeps(s, request, ref, FinalSequence(s.records[ref]));
      } else {
        WaitKeeps(s, t, AtStop(ref, request));
        StopStartedKeeps(s.(tasks := s.tasks[t := AtStop(ref, request)]), request);
      }
    } else if s.retired.Has(id) {
      var tombstone := s.retired.Get(id);
      var sequence := Max(0, tombstone.sequence + 1);
      StopRetiredKeeps(s, request, tombstone.(sequence := sequence), sequence);
    }
  }

  lemma StopAfterPostKeeps(s: State, t: nat, ref: nat, request: StopRequest, reply: StopPostReply)
    requires Inv(s) && t in s.tasks && s.tasks[t] == AtStop(ref, request) && ref < |s.records|
    ensures Inv(StopAfterPost(s, t, ref, request, reply).0)
  {
    hide Inv;
    FinishKeeps(s, t);
    if reply.StopPostTaken? {
      PollKeeps(s, t, reply.stopId);
    }
  }

  lemma StopAfterPollKeeps(s: State, t: nat, ref: nat, request: StopRequest, stopId: string, poll: StopPoll)
    requires Inv(s) && t in s.tasks && s.tasks[t] == AtPoll(ref, request, stopId) && ref < |s.records|
    ensures Inv(StopAfterPoll(s, t, ref, request, stopId, poll).0)
  {
    hide AllCleared, Grounded, PostsTracked, FreshAtWorld, Phases, Frames;
    hide PostsSeparated, ResultsTrue, ReleasesFollowPosts, Ownership, Filed, Bounds, Retire, StopConfirmed;
    FinishKeeps(s, t);
    var done := s.Finish(t);
    var sequence := FinalSequence(s.records[ref]);
    var r := s.records[ref].(terminal := Some(HasStopped), sequence := sequence);
    MarkKeeps(done, ref, r, StopMarked(ref));
    var marked := done.Update(ref, r).Emit(StopMarked(ref));
    var c := CachedStop(request, StopDone(sequence));
    CacheStopKeeps(marked, StopKeyOf(request), c);
    RetireKeeps(marked.(stops := s.stops.BoundedPut(StopKeyOf(request), c)), ref, HasStopped, None);
  }

  lemma StepKeeps(s: State, step: Step)
    requires Inv(s) && Enabled(s, step)
    ensures Inv(Apply(s, step).0)
  {
    match step
    case StartNavigate(t, request, lookup, now, valid) => NavigateBeginKeeps(s, t, request, lookup, now, valid);
    case ResumeWorld(t, reply, valid) => NavigateAfterWorldKeeps(s, t, s.tasks[t].ref, reply, valid);
    case ResumePost(t, ack, valid) => NavigateAfterPostKeeps(s, t, s.tasks[t].ref, ack, valid);
    case StartFeedback(t, commandId, scope) =>
      if commandId in s.commands && s.commands[commandId] < |s.records| {
        WaitKeeps(s, t, AtFeedback(s.commands[commandId]));
      }
    case ResumeFeedback(t, reply) => FeedbackEndKeeps(s, t, s.tasks[t].ref, reply);
    case StartStop(t, request, valid) => StopBeginKeeps(s, t, request, valid);
    case ResumeStop(t, reply) => StopAfterPostKeeps(s, t, s.tasks[t].ref, s.tasks[t].stop, reply);
    case ResumePoll(t, poll) => StopAfterPollKeeps(s, t, s.tasks[t].ref, s.tasks[t].stop, s.tasks[t].stopId, poll);
  }

  lemma {:induction false} RunKeeps(s: State, steps: seq<Step>)
    requires Inv(s)
    ensures Inv(Run(s, steps))
    decreases |steps|
  {
    hide Inv;
    if steps != [] {
      if Enabled(s, steps[0]) {
        StepKeeps(s, steps[0]);
        RunKeeps(Apply(s, steps[0]).0, steps[1..]);
      } else {
        RunKeeps(s, steps[1..]);
      }
    }
  }

  lemma InitialKeeps()
    ensures Inv(Initial)
  {
  }
}
