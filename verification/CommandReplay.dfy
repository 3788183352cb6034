/** When a cached navigate result is what every repeat of its request gets. */
module CommandReplay {
  import opened Wrappers
  import opened OrderedStore
  import opened TerminalEvidence
  import opened CommandProtocol
  import opened CommandSafety
  import opened CommandTheorems

  /** A cached acceptance was earned: a reservation made for exactly that request was posted and accepted
      at that time. The stores stay bounded. */
  lemma CachedAcceptanceIsTrue(s: State, key: NavKey)
    requires Reachable(s) && s.results.Has(key)
    ensures KeyOf(s.results.Get(key).request) == key
    ensures s.results.Get(key).result.NavAccepted? ==>
              exists ref: nat :: Witnesses(s.records, s.log, ref, s.results.Get(key))
    ensures |s.results.keys| <= MAX_CACHED_ITEMS && |s.retired.keys| <= MAX_CACHED_ITEMS
    ensures |s.stops.keys| <= MAX_CACHED_ITEMS
  {
    ReachableInv(s);
    assert TrueResult(s.records, s.log, key, s.results.Get(key));
  }

  /** The cache holds an entry for the key in every state of the run. */
  predicate Holds(s: State, steps: seq<Step>, key: NavKey)
    decreases |steps|
  {
    && s.results.Has(key)
    && (steps != [] ==> Holds(if Enabled(s, steps[0]) then Apply(s, steps[0]).0 else s, steps[1..], key))
  }

  /** Repeating the request answers with its result, and touches nothing. */
  ghost predicate Replays(s: State, c: CachedNav) {
    forall t, lookup, now, valid :: NavigateBegin(s, t, c.request, lookup, now, valid) == (s, NavReturned(c.result))
  }

  /** The navigate call `t` is suspended under this key. */
  predicate Suspended(s: State, t: nat, key: NavKey) {
    && t in s.tasks && s.tasks[t].Navigates() && s.tasks[t].ref < |s.records|
    && KeyOf(s.records[s.tasks[t].ref].request) == key
  }

  /** The result a suspended call is forced to store once its reservation is no longer active. */
  function Forced(s: State, t: nat): CachedNav
    requires t in s.tasks && s.tasks[t].ref < |s.records|
  {
    CachedNav(s.records[s.tasks[t].ref].request,
              NavRejected(if s.tasks[t].AtWorld? then StoppedBeforeDispatch else StoppedBeforeAccept))
  }

  /** Some call suspended under the key is still active, or is forced to store something else than `c`. */
  ghost predicate Overwritable(s: State, key: NavKey, c: CachedNav) {
    exists t :: Suspended(s, t, key) && (s.Active(s.tasks[t].ref) || Forced(s, t) != c)
  }

  // ------------------------------------------------- entries nobody overwrites

  ghost predicate Settled(s: State, key: NavKey, c: CachedNav) {
    Inv(s) && s.results.Has(key) && s.results.Get(key) == c && !Overwritable(s, key, c)
  }

  /** Whoever is suspended under the key in `n` was so in `s`; the key's entry, if it is still held, is `c`. */
  ghost predicate Leaves(s: State, n: State, key: NavKey, c: CachedNav) {
    && SameRequests(s, n)
    && (forall t :: Suspended(n, t, key) ==> t in s.tasks && n.tasks[t] == s.tasks[t])
    && (n.results.Has(key) ==> n.results.Get(key) == c)
  }

  lemma LeavesSettled(s: State, step: Step, key: NavKey, c: CachedNav)
    requires Settled(s, key, c) && Enabled(s, step) && Apply(s, step).0.results.Has(key)
    requires Leaves(s, Apply(s, step).0, key, c)
    ensures Settled(Apply(s, step).0, key, c)
  {
    StepKeeps(s, step);
    assert Frames(s.tasks, |s.records|);
    var n := Apply(s, step).0;
    hide Inv, Apply;
    forall t | Suspended(n, t, key)
      ensures !n.Active(n.tasks[t].ref) && Forced(n, t) == c
    {
      assert Suspended(s, t, key);
      GoneStays(s, step, s.tasks[t].ref);
    }
  }

  lemma EveryRetireSame()
    ensures forall s: State, ref: nat, terminal: Terminal, state: Option<DispatchState>
              {:trigger Retire(s, ref, terminal, state)} ::
              ref < |s.records| ==>
                var n := Retire(s, ref, terminal, state);
                SameRequests(s, n) && n.tasks == s.tasks && n.results == s.results
  {
  }

  /** A rejection stores under its own key, or stores what is there. */
  lemma RejectLeaves(s: State, ref: nat, reason: Reason, valid: bool, key: NavKey, c: CachedNav)
    requires ref < |s.records| && s.results.Bounded() && (s.results.Has(key) ==> s.results.Get(key) == c)
    requires KeyOf(s.records[ref].request) != key || CachedNav(s.records[ref].request, NavRejected(reason)) == c
    ensures var n := FinishRejected(s, ref, reason, valid).0;
            SameRequests(s, n) && n.tasks == s.tasks && (n.results.Has(key) ==> n.results.Get(key) == c)
  {
    EveryRetireSame();
    var request := s.records[ref].request;
    BoundedPutKeeps(s.results, KeyOf(request), CachedNav(request, NavRejected(reason)));
    hide Retire, Store.BoundedPut;
  }

  /** No call comes to be suspended, and the entry stays. */
  lemma FewerLeave(s: State, n: State, key: NavKey, c: CachedNav)
    requires SameRequests(s, n) && (n.results.Has(key) ==> n.results.Get(key) == c)
    requires forall t :: t in n.tasks && n.tasks[t].Navigates() ==> t in s.tasks && n.tasks[t] == s.tasks[t]
    ensures Leaves(s, n, key, c)
  {
  }

  /** No result is stored, and no navigate call is added. */
  ghost predicate Spares(s: State, n: State) {
    && n.results == s.results && SameRequests(s, n)
    && forall t :: t in n.tasks && n.tasks[t].Navigates() ==> t in s.tasks && n.tasks[t] == s.tasks[t]
  }

  lemma FeedbackSpares(s: State, t: nat, ref: nat, reply: FeedbackReply)
    requires ref < |s.records|
    ensures Spares(s, FeedbackEnd(s, t, ref, reply).0)
  {
    EveryRetireSame();
    hide Retire, StatusOf;
  }

  lemma StopBeginSpares(s: State, t: nat, request: StopRequest, valid: bool)
    ensures Spares(s, StopBegin(s, t, request, valid).0)
  {
    EveryRetireSame();
    hide Retire;
  }

  lemma StopPollSpares(s: State, t: nat, ref: nat, request: StopRequest, stopId: string, poll: StopPoll)
    requires ref < |s.records|
    ensures Spares(s, StopAfterPoll(s, t, ref, request, stopId, poll).0)
  {
    EveryRetireSame();
    hide Retire, StopConfirmed;
  }

  lemma SilentSpares(s: State, step: Step)
    requires Enabled(s, step) && (step.StartFeedback? || step.ResumeStop?)
    ensures Spares(s, Apply(s, step).0)
  {
  }

  lemma OwnerLeaves(s: State, step: Step, key: NavKey, c: CachedNav)
    requires Enabled(s, step) && !step.StartNavigate? && !step.ResumeWorld? && !step.ResumePost?
    requires s.results.Has(key) && s.results.Get(key) == c
    ensures Leaves(s, Apply(s, step).0, key, c)
  {
    hide NavigateBegin, NavigateAfterWorld, NavigateAfterPost, FeedbackEnd, StopBegin, StopAfterPoll, Leaves;
    match step {
      case ResumeFeedback(t, reply) => FeedbackSpares(s, t, s.tasks[t].ref, reply);
      case StartStop(t, request, valid) => StopBeginSpares(s, t, request, valid);
      case ResumePoll(t, poll) => StopPollSpares(s, t, s.tasks[t].ref, s.tasks[t].stop, s.tasks[t].stopId, poll);
      case _ => SilentSpares(s, step);
    }
    hide Apply, SameRequests;
    FewerLeave(s, Apply(s, step).0, key, c);
  }

  lemma StartLeaves(s: State, t: nat, request: Request, lookup: Lookup, now: real, valid: bool, key: NavKey,
                    c: CachedNav)
    requires Frames(s.tasks, |s.records|) && s.results.Bounded() && t !in s.tasks
    requires s.results.Has(key) && s.results.Get(key) == c
    ensures Leaves(s, NavigateBegin(s, t, request, lookup, now, valid).0, key, c)
  {
    hide Retire, FinishRejected;
    if !s.results.Has(KeyOf(request)) && request.commandId !in s.commands && !s.retired.Has(request.commandId) {
      EveryRetireSame();
      var ref := |s.records|;
      var reserved := s.(records := s.records + [Record(request, None, -1, None, Reserved)],
                         commands := s.commands[request.commandId := ref]);
      var reason := if now > request.deadline then DeadlineExpired
                    else if lookup.Mismatch? then TargetMismatch else PathBlocked;
      RejectLeaves(reserved, ref, reason, true, key, c);
    }
  }

  lemma WorldLeaves(s: State, t: nat, reply: WorldReply, valid: bool, key: NavKey, c: CachedNav)
    requires Settled(s, key, c) && t in s.tasks && s.tasks[t].AtWorld? && s.tasks[t].ref < |s.records|
    ensures Leaves(s, NavigateAfterWorld(s, t, s.tasks[t].ref, reply, valid).0, key, c)
  {
    var ref := s.tasks[t].ref;
    assert s.results.Bounded();
    assert KeyOf(s.records[ref].request) == key ==> Suspended(s, t, key);
    assert KeyOf(s.records[ref].request) == key ==> !s.Active(ref) && Forced(s, t) == c;
    hide Inv, Overwritable, Retire, FinishRejected, State.Active;
    var n := NavigateAfterWorld(s, t, ref, reply, valid).0;
    if reply.WorldReady? && s.Active(ref) && reply.now <= s.records[ref].request.deadline {
      assert SameRequests(s, n);
    } else {
      EveryRetireSame();
      if reply.WorldReady? {
        RejectLeaves(s.Finish(t), ref, if s.Active(ref) then DeadlineExpired else StoppedBeforeDispatch, valid, key, c);
      }
      assert SameRequests(s.Finish(t), n) && n.tasks == s.tasks - {t};
      hide NavigateAfterWorld, SameRequests;
      SameAfterFinish(s, t, n);
      FewerLeave(s, n, key, c);
    }
  }

  lemma SameAfterFinish(s: State, t: nat, n: State)
    requires SameRequests(s.Finish(t), n)
    ensures SameRequests(s, n)
  {
  }

  lemma PostLeaves(s: State, t: nat, ack: Ack, valid: bool, key: NavKey, c: CachedNav)
    requires Settled(s, key, c) && t in s.tasks && s.tasks[t].AtPost? && s.tasks[t].ref < |s.records|
    ensures Leaves(s, NavigateAfterPost(s, t, s.tasks[t].ref, ack, valid).0, key, c)
  {
    var ref := s.tasks[t].ref;
    var request := s.records[ref].request;
    assert s.results.Bounded();
    assert KeyOf(request) == key ==> Suspended(s, t, key);
    assert KeyOf(request) == key ==> !s.Active(ref) && Forced(s, t) == c;
    hide Inv, Overwritable, Retire, FinishRejected, Suspended;
    var n := NavigateAfterPost(s, t, ref, ack, valid).0;
    if !ack.Lost? && !s.Active(ref) {
      RejectLeaves(s.Finish(t), ref, StoppedBeforeAccept, valid, key, c);
    } else if ack.RefusedByBridge? {
      RejectLeaves(s.Finish(t).Emit(RefusedAck(ref)), ref, DispatchRejected, valid, key, c);
    } else if ack.Acknowledged? {
      BoundedPutKeeps(s.results, KeyOf(request), CachedNav(request, NavAccepted(request.commandId, ack.now)));
      hide Store.BoundedPut;
    }
    assert SameRequests(s, n) && n.tasks == s.tasks - {t} && (n.results.Has(key) ==> n.results.Get(key) == c);
    hide NavigateAfterPost, SameRequests;
    FewerLeave(s, n, key, c);
  }

  lemma StepLeavesResult(s: State, step: Step, key: NavKey, c: CachedNav)
    requires Settled(s, key, c) && Enabled(s, step) && Apply(s, step).0.results.Has(key)
    ensures Settled(Apply(s, step).0, key, c)
  {
    assert s.results.Bounded() && Frames(s.tasks, |s.records|);
    assert s.results.Has(key) && s.results.Get(key) == c;
    hide Settled, NavigateBegin, NavigateAfterWorld, NavigateAfterPost, FeedbackEnd, StopBegin, StopAfterPoll, Leaves;
    if step.StartNavigate? {
      StartLeaves(s, step.t, step.request, step.lookup, step.now, step.valid, key, c);
    } else if step.ResumeWorld? {
      WorldLeaves(s, step.t, step.world, step.valid, key, c);
    } else if step.ResumePost? {
      PostLeaves(s, step.t, step.ack, step.valid, key, c);
    } else {
      OwnerLeaves(s, step, key, c);
    }
    LeavesSettled(s, step, key, c);
  }

  lemma {:induction false} RunLeavesResult(s: State, steps: seq<Step>, key: NavKey, c: CachedNav)
    requires Settled(s, key, c) && Holds(s, steps, key)
    ensures Settled(Run(s, steps), key, c)
    decreases |steps|
  {
    hide Settled, Apply;
    if steps != [] {
      if Enabled(s, steps[0]) {
        assert Apply(s, steps[0]).0.results.Has(key) by { assert Holds(Apply(s, steps[0]).0, steps[1..], key); }
        StepLeavesResult(s, steps[0], key, c);
        RunLeavesResult(Apply(s, steps[0]).0, steps[1..], key, c);
      } else {
        RunLeavesResult(s, steps[1..], key, c);
      }
    }
  }

  // --------------------------------------------------- entries that can go

  /** The run keeps an entry under the key, and it is not `c`. */
  ghost predicate Replaces(s: State, steps: seq<Step>, key: NavKey, c: CachedNav) {
    Holds(s, steps, key) && Run(s, steps).results.Has(key) && Run(s, steps).results.Get(key) != c
  }

  lemma OneStepReplaces(s: State, step: Step, key: NavKey, c: CachedNav)
    requires Enabled(s, step) && s.results.Has(key)
    requires Apply(s, step).0.results.Has(key) && Apply(s, step).0.results.Get(key) != c
    ensures Replaces(s, [step], key, c)
  {
    var n := Apply(s, step).0;
    hide Apply, Enabled;
    assert [step][1..] == [];
    assert Run(n, []) == n && Holds(n, [], key);
  }

  lemma TwoStepsReplace(s: State, step: Step, second: Step, key: NavKey, c: CachedNav)
    requires Enabled(s, step) && s.results.Has(key) && Replaces(Apply(s, step).0, [second], key, c)
    ensures Replaces(s, [step, second], key, c)
  {
    assert [step, second][1..] == [second];
    hide Apply, Enabled;
  }

  lemma RejectStores(s: State, ref: nat, reason: Reason)
    requires ref < |s.records| && s.results.Bounded()
    ensures var n := FinishRejected(s, ref, reason, true).0;
            var request := s.records[ref].request;
            n.results.Has(KeyOf(request)) && n.results.Get(KeyOf(request)) == CachedNav(request, NavRejected(reason))
  {
    EveryRetireSame();
    BoundedPutKeeps(s.results, KeyOf(s.records[ref].request), CachedNav(s.records[ref].request, NavRejected(reason)));
    hide Retire, Store.BoundedPut;
  }

  /** A call at its move POST can store a rejection, or if it is active an acceptance. */
  lemma PostReplaces(s: State, t: nat, key: NavKey, c: CachedNav) returns (step: Step)
    requires s.results.Bounded() && s.results.Has(key) && Suspended(s, t, key) && s.tasks[t].AtPost?
    requires s.Active(s.tasks[t].ref) || Forced(s, t) != c
    ensures Replaces(s, [step], key, c)
  {
    var ref := s.tasks[t].ref;
    var request := s.records[ref].request;
    var done := s.Finish(t);
    step := ResumePost(t, RefusedByBridge, true);
    if !s.Active(ref) {
      RejectStores(done, ref, StoppedBeforeAccept);
    } else if CachedNav(request, NavRejected(DispatchRejected)) != c {
      RejectStores(done.Emit(RefusedAck(ref)), ref, DispatchRejected);
    } else {
      step := ResumePost(t, Acknowledged(0.0), true);
      BoundedPutKeeps(s.results, key, CachedNav(request, NavAccepted(request.commandId, 0.0)));
    }
    hide FinishRejected, Retire, Store.BoundedPut, NavigateBegin, FeedbackEnd, StopBegin, StopAfterPoll;
    assert Apply(s, step).0.results.Has(key) && Apply(s, step).0.results.Get(key) != c;
    OneStepReplaces(s, step, key, c);
  }

  /** A call waiting for its world check can be late, or go on to its move POST and be refused there. */
  lemma WorldReplaces(s: State, t: nat, key: NavKey, c: CachedNav) returns (steps: seq<Step>)
    requires s.results.Bounded() && s.results.Has(key) && Suspended(s, t, key) && s.tasks[t].AtWorld?
    requires s.Active(s.tasks[t].ref) || Forced(s, t) != c
    ensures Replaces(s, steps, key, c)
  {
    var ref := s.tasks[t].ref;
    var request := s.records[ref].request;
    hide FinishRejected, Retire, NavigateBegin, FeedbackEnd, StopBegin, StopAfterPoll, NavigateAfterPost;
    var late := ResumeWorld(t, WorldReady(request.deadline + 1.0), true);
    if !s.Active(ref) || CachedNav(request, NavRejected(DeadlineExpired)) != c {
      RejectStores(s.Finish(t), ref, if s.Active(ref) then DeadlineExpired else StoppedBeforeDispatch);
      OneStepReplaces(s, late, key, c);
      steps := [late];
    } else {
      var timely := ResumeWorld(t, WorldReady(request.deadline), true);
      var n := Apply(s, timely).0;
      assert Suspended(n, t, key) && n.tasks[t].AtPost? && n.Active(ref) && n.results == s.results;
      var second := PostReplaces(n, t, key, c);
      TwoStepsReplace(s, timely, second, key, c);
      steps := [timely, second];
    }
  }

  // ---------------------------------------------------------- the condition

  lemma OverwritableIsReplaced(s: State, key: NavKey, c: CachedNav) returns (steps: seq<Step>)
    requires s.results.Bounded() && s.results.Has(key) && Overwritable(s, key, c)
    ensures Replaces(s, steps, key, c)
  {
    hide Replaces;
    var t :| Suspended(s, t, key) && (s.Active(s.tasks[t].ref) || Forced(s, t) != c);
    if s.tasks[t].AtWorld? {
      steps := WorldReplaces(s, t, key, c);
    } else {
      var step := PostReplaces(s, t, key, c);
      steps := [step];
    }
  }

  lemma ReplacedIsNotReplayed(n: State, key: NavKey, c: CachedNav)
    requires KeyOf(c.request) == key && n.results.Has(key) && n.results.Get(key) != c
    ensures !Replays(n, c)
  {
    assert NavigateBegin(n, 0, c.request, Clear, 0.0, true) != (n, NavReturned(c.result));
  }

  /** A cached result, accepted or rejected, is what every later repeat of its request gets for as long as the cache
      holds the key, if and only if no call suspended under the same navigation id is still active or forced to store
      something else. */
  lemma CachedResultIsReplayedIff(s: State, key: NavKey)
    requires Reachable(s) && s.results.Has(key)
    ensures var c := s.results.Get(key);
            (forall steps :: Holds(s, steps, key) ==> Replays(Run(s, steps), c)) <==> !Overwritable(s, key, c)
  {
    ReachableInv(s);
    var c := s.results.Get(key);
    CachedAcceptanceIsTrue(s, key);
    assert s.results.Bounded();
    if !Overwritable(s, key, c) {
      assert Settled(s, key, c);
      hide Inv, Run, Holds, Overwritable;
      forall steps | Holds(s, steps, key)
        ensures Replays(Run(s, steps), c)
      {
        RunLeavesResult(s, steps, key, c);
      }
    } else {
      hide Inv, Overwritable;
      var steps := OverwritableIsReplaced(s, key, c);
      ReplacedIsNotReplayed(Run(s, steps), key, c);
      assert Holds(s, steps, key);
      assert !Replays(Run(s, steps), c);
    }
  }

  /** Some navigate call under this key is suspended. */
  ghost predicate InFlight(s: State, key: NavKey) { exists t :: Suspended(s, t, key) }

  /** An acceptance is replayed if and only if no call under the same navigation id is in flight. */
  lemma AcceptanceIsReplayedIff(s: State, key: NavKey)
    requires Reachable(s) && s.results.Has(key) && s.results.Get(key).result.NavAccepted?
    ensures (forall steps :: Holds(s, steps, key) ==> Replays(Run(s, steps), s.results.Get(key))) <==> !InFlight(s, key)
  {
    CachedResultIsReplayedIff(s, key);
    hide Replays, Holds, Reachable;
    var c := s.results.Get(key);
    assert forall t :: Suspended(s, t, key) ==> Forced(s, t) != c;
  }

  // ------------------------------------------------------- the failing cases

  function BothAtPost(a: Request, b: Request): seq<Step> {
    [StartNavigate(0, a, Clear, 0.0, true), StartNavigate(1, b, Clear, 0.0, true)]
    + [ResumeWorld(0, WorldReady(0.0), true)] + [ResumeWorld(1, WorldReady(0.0), true)]
  }

  lemma BothPosted(a: Request, b: Request)
    requires KeyOf(a) == KeyOf(b) && a.commandId != b.commandId && a.deadline >= 0.0 && b.deadline >= 0.0
    ensures Run(Initial, BothAtPost(a, b)) ==
            State([Record(a, None, -1, None, Dispatching), Record(b, None, -1, None, Dispatching)],
                  map[a.commandId := 0, b.commandId := 1], Store([], map[]), Store([], map[]), Store([], map[]),
                  map[0 := AtPost(0), 1 := AtPost(1)], [Posted(0, a.commandId), Posted(1, b.commandId)])
  {
    hide Retire, FinishRejected, FeedbackEnd, StopBegin, StopAfterPoll, NavigateAfterPost;
    var first := [StartNavigate(0, a, Clear, 0.0, true)];
    var second := first + [StartNavigate(1, b, Clear, 0.0, true)];
    var third := second + [ResumeWorld(0, WorldReady(0.0), true)];
    RunStep(Initial, [], first[0]);
    assert first == [] + first;
    RunStep(Initial, first, second[1]);
    RunStep(Initial, second, third[2]);
    RunStep(Initial, third, ResumeWorld(1, WorldReady(0.0), true));
    assert second == [first[0], second[1]];
    var s := Run(Initial, BothAtPost(a, b));
    assert s.records == [Record(a, None, -1, None, Dispatching), Record(b, None, -1, None, Dispatching)];
    assert s.log == [Posted(0, a.commandId), Posted(1, b.commandId)];
    assert s.commands == map[a.commandId := 0, b.commandId := 1];
    assert s.tasks == map[0 := AtPost(0), 1 := AtPost(1)];
  }

  /** What an acknowledgement does to a call at its POST whose reservation is active. */
  lemma Acknowledge(s: State, t: nat)
    requires t in s.tasks && s.tasks[t].AtPost? && s.tasks[t].ref < |s.records| && s.Active(s.tasks[t].ref)
    requires s.results.Bounded()
    ensures var ref := s.tasks[t].ref;
            var request := s.records[ref].request;
            var n := Apply(s, ResumePost(t, Acknowledged(0.0), true)).0;
            && n.log == s.log + [AcceptedAck(ref)] && n.tasks == s.tasks - {t} && n.commands == s.commands
            && n.retired == s.retired && n.results.Bounded() && n.results.Has(KeyOf(request))
            && n.results.Get(KeyOf(request)) == CachedNav(request, NavAccepted(request.commandId, 0.0))
            && |n.records| == |s.records|
            && forall i :: 0 <= i < |s.records| ==> n.records[i].request == s.records[i].request
  {
    var request := s.records[s.tasks[t].ref].request;
    BoundedPutKeeps(s.results, KeyOf(request), CachedNav(request, NavAccepted(request.commandId, 0.0)));
    hide Store.BoundedPut, Retire, FinishRejected;
  }

  function BothAccepted(a: Request, b: Request): seq<Step> {
    BothAtPost(a, b) + [ResumePost(0, Acknowledged(0.0), true)] + [ResumePost(1, Acknowledged(0.0), true)]
  }

  lemma FirstAccepted(a: Request, b: Request)
    requires KeyOf(a) == KeyOf(b) && a.commandId != b.commandId && a.deadline >= 0.0 && b.deadline >= 0.0
    ensures var s := Run(Initial, BothAtPost(a, b) + [ResumePost(0, Acknowledged(0.0), true)]);
            && s.log == [Posted(0, a.commandId), Posted(1, b.commandId), AcceptedAck(0)]
            && s.tasks == map[1 := AtPost(1)] && s.results.Bounded()
            && |s.records| == 2 && s.records[1].request == b && s.Active(1)
  {
    BothPosted(a, b);
    var s := Run(Initial, BothAtPost(a, b));
    RunStep(Initial, BothAtPost(a, b), ResumePost(0, Acknowledged(0.0), true));
    hide Run, Apply, BothAtPost;
    Acknowledge(s, 0);
  }

  /** Two different requests under one navigation id, both in flight, are both sent and both accepted;
      the first caller's repeat is then refused as a conflict. */
  lemma SameKeyBothAccepted(a: Request, b: Request)
    requires KeyOf(a) == KeyOf(b) && a.commandId != b.commandId && a.deadline >= 0.0 && b.deadline >= 0.0
    ensures var s := Run(Initial, BothAccepted(a, b));
            && s.log == [Posted(0, a.commandId), Posted(1, b.commandId), AcceptedAck(0), AcceptedAck(1)]
            && forall t, lookup, now, valid ::
                 NavigateBegin(s, t, a, lookup, now, valid) == (s, Raised(IdempotencyConflict))
  {
    FirstAccepted(a, b);
    var steps := BothAtPost(a, b) + [ResumePost(0, Acknowledged(0.0), true)];
    var s := Run(Initial, steps);
    assert Enabled(s, ResumePost(1, Acknowledged(0.0), true));
    RunStep(Initial, steps, ResumePost(1, Acknowledged(0.0), true));
    hide Run, Apply, BothAtPost;
    Acknowledge(s, 1);
  }

  /** One call waits at its POST while a second under the same navigation id is refused. */
  function OneRefused(a: Request, b: Request): seq<Step> {
    [StartNavigate(0, a, Clear, 0.0, true)] + [ResumeWorld(0, WorldReady(0.0), true)]
    + [StartNavigate(1, b, Lookup.Blocked, 0.0, true)]
  }

  lemma OneAtPost(a: Request)
    requires a.deadline >= 0.0
    ensures Run(Initial, [StartNavigate(0, a, Clear, 0.0, true)] + [ResumeWorld(0, WorldReady(0.0), true)]) ==
            State([Record(a, None, -1, None, Dispatching)], map[a.commandId := 0], Store([], map[]), Store([], map[]),
                  Store([], map[]), map[0 := AtPost(0)], [Posted(0, a.commandId)])
  {
    hide Retire, FinishRejected, FeedbackEnd, StopBegin, StopAfterPoll, NavigateAfterPost;
    var first := [StartNavigate(0, a, Clear, 0.0, true)];
    RunStep(Initial, [], first[0]);
    assert first == [] + first;
    RunStep(Initial, first, ResumeWorld(0, WorldReady(0.0), true));
    var s := Run(Initial, first + [ResumeWorld(0, WorldReady(0.0), true)]);
    assert s.records == [Record(a, None, -1, None, Dispatching)] && s.log == [Posted(0, a.commandId)];
    assert s.commands == map[a.commandId := 0] && s.tasks == map[0 := AtPost(0)];
  }

  lemma SecondRefused(a: Request, b: Request)
    requires KeyOf(a) == KeyOf(b) && a.commandId != b.commandId && a.deadline >= 0.0 && b.deadline >= 0.0
    ensures var s := Run(Initial, OneRefused(a, b));
            && s.tasks == map[0 := AtPost(0)] && s.Active(0) && s.records[0].request == a
            && s.results.Bounded() && s.results.Has(KeyOf(b))
            && s.results.Get(KeyOf(b)) == CachedNav(b, NavRejected(PathBlocked))
  {
    OneAtPost(a);
    var steps := [StartNavigate(0, a, Clear, 0.0, true)] + [ResumeWorld(0, WorldReady(0.0), true)];
    var s := Run(Initial, steps);
    RunStep(Initial, steps, StartNavigate(1, b, Lookup.Blocked, 0.0, true));
    hide Run, Store.BoundedPut;
    BoundedPutKeeps(s.results, KeyOf(b), CachedNav(b, NavRejected(PathBlocked)));
  }

  /** A cached rejection is overwritten too: while one call waits at its POST a second under the same navigation id is
      refused, and its repeat is told so; then the first is accepted, and the second's repeat is a conflict. */
  lemma RejectionIsOverwritten(a: Request, b: Request)
    requires KeyOf(a) == KeyOf(b) && a.commandId != b.commandId && a.deadline >= 0.0 && b.deadline >= 0.0
    ensures var s := Run(Initial, OneRefused(a, b));
            var n := Run(Initial, OneRefused(a, b) + [ResumePost(0, Acknowledged(0.0), true)]);
            && Replays(s, CachedNav(b, NavRejected(PathBlocked)))
            && forall t, lookup, now, valid ::
                 NavigateBegin(n, t, b, lookup, now, valid) == (n, Raised(IdempotencyConflict))
  {
    SecondRefused(a, b);
    var s := Run(Initial, OneRefused(a, b));
    assert Enabled(s, ResumePost(0, Acknowledged(0.0), true));
    RunStep(Initial, OneRefused(a, b), ResumePost(0, Acknowledged(0.0), true));
    hide Run, Apply, OneRefused;
    Acknowledge(s, 0);
  }
}
