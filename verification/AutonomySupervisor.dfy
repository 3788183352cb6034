/** The supervisor object; its tick does to the view what `Tick` says. */
module AutonomySupervisor {
  import opened Wrappers
  import opened BoundedDeque
  import opened AutonomyTicks

  datatype Phase =
    | Stopped | Evaluating | ResourceGuard | Sleeping | Planning | Executing | Waiting | Blocked | ErrorBackoff

  /** What a tick reads off the clock, and how its error explains itself, if it has one. */
  datatype Moment = Moment(startedAt: real, decidedAt: real, finishedAt: real, error: string)

  /** What the source does not keep: everything appended and said, and the calls into cognition and memory. */
  datatype Trace = Trace(history: seq<Entry>, speeches: seq<real>, observed: seq<Observation>, noted: seq<Note>)
  {
    function Saying(at: real): Trace { this.(speeches := speeches + [at]) }

    function Noting(notes: seq<Note>): Trace { this.(noted := noted + notes) }
  }

  class AutonomySupervisor {
    const speechCooldownSeconds: real
    const intervalSeconds: real
    var pendingVisualAction: Option<Pending>
    var recentActions: seq<Entry>
    var actionCount: nat
    var completedActionCount: nat
    var succeededActionCount: nat
    var errorCount: nat
    var lastSpeechAt: real

    var phase: Phase
    var lastTickAt: real
    var lastActionAt: real
    var nextTickAt: real
    var lastError: string

    ghost var trace: Trace

    ghost function View(): State
      reads this
    {
      State(pendingVisualAction, recentActions, actionCount, completedActionCount, succeededActionCount, errorCount,
            lastSpeechAt, trace.history, trace.speeches, trace.observed, trace.noted)
    }

    constructor (speechCooldownSeconds: real, intervalSeconds: real)
      ensures View() == Initial && this.speechCooldownSeconds == speechCooldownSeconds
      ensures this.intervalSeconds == intervalSeconds && phase == Stopped
    {
      this.speechCooldownSeconds, this.intervalSeconds := speechCooldownSeconds, intervalSeconds;
      phase, lastTickAt, lastActionAt, nextTickAt, lastError := Stopped, 0.0, 0.0, 0.0, "";
      pendingVisualAction, recentActions := None, [];
      actionCount, completedActionCount, succeededActionCount, errorCount := 0, 0, 0, 0;
      lastSpeechAt := 0.0;
      trace := Trace([], [], [], []);
    }

    /** The reversed search of `_recent_actions` for the request's entry. */
    method CompleteLatest(requestId: string, succeeded: bool)
      modifies this`recentActions
      ensures recentActions == MarkLatest(old(recentActions), requestId, succeeded)
    {
      var n := |recentActions|;
      assert recentActions[..n] == recentActions;
      while n > 0
        invariant 0 <= n <= |recentActions| && recentActions == old(recentActions)
        invariant MarkLatest(old(recentActions), requestId, succeeded)
                  == MarkLatest(old(recentActions)[..n], requestId, succeeded) + old(recentActions)[n..]
      {
        assert recentActions[..n][..n - 1] == recentActions[..n - 1];
        if recentActions[n - 1].visualId == Some(requestId) {
          var marked := recentActions[n - 1].(completed := true, succeeded := Some(succeeded));
          recentActions := recentActions[n - 1 := marked];
          return;
        }
        n := n - 1;
      }
    }

    /** `_reconcile_pending_visual_action`. */
    method ReconcilePendingVisualAction(v: VisualView) returns (status: TickStatus)
      requires pendingVisualAction.Some?
      modifies this`pendingVisualAction, this`completedActionCount, this`succeededActionCount, this`recentActions,
               this`trace
      ensures (View(), status) == Reconcile(old(View()), v)
      ensures |trace.history| == |old(trace).history| && !status.PlanFailed?
    {
      hide MarkLatest, Succeeds;
      var pending := pendingVisualAction.value;
      if v.job.None? || v.job.value.requestId != pending.requestId {
        return CompletionUnknown;
      }
      var job := v.job.value;
      if job.status in RUNNING || v.activeId == Some(pending.requestId) || v.taskRunning {
        return ActionPending;
      }
      if v.unconfirmedStop == Some(pending.requestId) || !Terminal(job.status) {
        return CompletionUnknown;
      }
      if !job.finishedValid || (job.status in TERMINAL_FAILURE && job.arrived != Some(false)) {
        return CompletionUnknown;
      }
      var succeeded := Succeeds(pending.action, job);
      pendingVisualAction := None;
      completedActionCount := completedActionCount + 1;
      succeededActionCount := succeededActionCount + if succeeded then 1 else 0;
      CompleteLatest(pending.requestId, succeeded);
      MarkedLength(trace.history, pending.requestId, succeeded);
      trace := Trace(MarkLatest(trace.history, pending.requestId, succeeded), trace.speeches,
                     trace.observed + [Observation(pending.action, pending.target, succeeded)],
                     trace.noted + [CompletionNote]);
      return if succeeded then ActionCompleted else ActionFailed;
    }

    /** `_execute_visual_action`. */
    method ExecuteVisualAction(plan: Plan, e: ExecEnv) returns (x: Execution)
      modifies this`pendingVisualAction
      ensures (View(), x) == ExecuteVisual(old(View()), plan, e)
    {
      if pendingVisualAction.Some? {
        return Nothing;
      }
      if plan.target == "" || !plan.verified {
        return Nothing;
      }
      if plan.action.Observe? || !e.serviceReady {
        return Nothing;
      }
      if !e.activity.NobodyAsks? || !e.portableReady || !e.lockReadable || e.busy {
        return Nothing;
      }
      if e.started.None? {
        return Nothing;
      }
      var job := e.started.value;
      if job.requestId != e.requestId || !(job.status in RUNNING || Terminal(job.status)) {
        return Nothing;
      }
      var completed := Terminal(job.status);
      if completed && !Stable(e.after, job) {
        return Nothing;
      }
      if !completed {
        pendingVisualAction := Some(Pending(e.requestId, plan.action, plan.target));
        return Execution(true, false, None, Some(e.requestId));
      }
      return Execution(true, true, Some(Succeeds(plan.action, job)), Some(e.requestId));
    }

    /** `_execute`. */
    method ExecutePlan(plan: Plan, e: ExecEnv) returns (x: Execution)
      modifies this`pendingVisualAction, this`lastSpeechAt, this`trace
      ensures (View(), x) == Execute(old(View()), plan, e) && trace.history == old(trace).history
    {
      if plan.errors != [] {
        return Nothing;
      }
      if Spatial(plan.action) {
        x := ExecuteVisualAction(plan, e);
        return;
      }
      if plan.action.Sleep? {
        return Execution(true, true, Some(e.sleepOk), None);
      }
      if plan.action.Speak? {
        if e.bridgeEnabled && e.bridge.BridgeSent? {
          lastSpeechAt := e.spokeAt;
          trace := trace.Saying(e.spokeAt);
          return Sent(e.bridge.visualId);
        }
        if e.ttsEnabled && e.ttsOk {
          lastSpeechAt := e.spokeAt;
          trace := trace.Saying(e.spokeAt);
          return Sent(None);
        }
        return if e.bridgeEnabled && e.bridge.BridgeNotSent? then Nothing.(visualId := e.bridge.visualId) else Nothing;
      }
      if !e.bridgeEnabled || e.bridge.BridgeError? {
        return Nothing;
      }
      return if e.bridge.BridgeSent? then Sent(e.bridge.visualId)
             else Execution(false, false, None, e.bridge.visualId);
    }

    /** `_finish`. */
    method FinishTick(status: TickStatus, at: real)
      modifies this`phase, this`nextTickAt
      ensures phase == (if status.BlockedLlmDisabled? || status.BlockedPlannerContract? then Blocked else Waiting)
      ensures nextTickAt == at + intervalSeconds
    {
      nextTickAt := at + intervalSeconds;
      phase := if status.BlockedLlmDisabled? || status.BlockedPlannerContract? then Blocked else Waiting;
    }

    /** `_tick_locked`: the tick, and what it notes of itself. */
    method TickLocked(env: Env, m: Moment) returns (status: TickStatus)
      modifies this
      ensures (View(), status) == Tick(old(View()), env, speechCooldownSeconds)
      ensures phase == (if status.BlockedLlmDisabled? || status.BlockedPlannerContract? then Blocked else Waiting)
      ensures lastTickAt == m.startedAt && nextTickAt == m.finishedAt + intervalSeconds
      ensures lastError == if status.PlanFailed? then m.error else ""
      ensures lastActionAt == if |trace.history| > |old(trace).history| && trace.history[|old(trace).history|].executed
                              then m.decidedAt else old(lastActionAt)
    {
      lastTickAt, phase, lastError := m.startedAt, Evaluating, "";
      status := Decide(env, m);
      FinishTick(status, m.finishedAt);
    }

    /** One round of `_worker`: a tick, an unhandled error of it, or its cancellation. */
    method WorkerRound(env: Env, m: Moment)
      modifies this
      ensures View() == Round(old(View()), env, speechCooldownSeconds)
      ensures env.fault.RaisesEarly? || env.fault.RaisesLate? ==> phase == ErrorBackoff && lastError == m.error
    {
      hide Tick;
      if env.fault.CancelledEarly? {
        return;
      }
      if !env.fault.RaisesEarly? {
        var _ := TickLocked(env, m);
      }
      if env.fault.RaisesEarly? || env.fault.RaisesLate? {
        errorCount := errorCount + 1;
        lastError := m.error;
        phase := ErrorBackoff;
        trace := trace.(noted := old(trace).noted);
      }
    }

    /** Counters and recent actions after an execution. */
    method CountAction(plan: Plan, x: Execution, decidedAt: real)
      modifies this`actionCount, this`completedActionCount, this`succeededActionCount, this`recentActions, this`trace,
               this`lastActionAt
      ensures View() == Count(old(View()), plan, x)
      ensures |trace.history| == |old(trace).history| + 1
      ensures trace.history[|old(trace).history|].executed == x.executed
      ensures lastActionAt == if x.executed then decidedAt else old(lastActionAt)
    {
      hide Push, Observes;
      actionCount := actionCount + if x.executed then 1 else 0;
      completedActionCount := completedActionCount + if x.completed then 1 else 0;
      succeededActionCount := succeededActionCount + if x.succeeded == Some(true) then 1 else 0;
      if x.executed {
        lastActionAt := decidedAt;
      }
      var entry := Entry(plan.action, if plan.action.Speak? then plan.text else "", x.executed, x.completed,
                         x.succeeded, x.visualId);
      recentActions := Push(recentActions, entry, RECENT_LIMIT);
      trace := trace.(history := trace.history + [entry], observed := trace.observed + Observes(plan, x));
    }

    /** The tick up to its result. */
    method Decide(env: Env, m: Moment) returns (status: TickStatus)
      requires lastError == ""
      modifies this
      ensures (View(), status) == Tick(old(View()), env, speechCooldownSeconds)
      ensures lastTickAt == old(lastTickAt) && lastError == if status.PlanFailed? then m.error else ""
      ensures lastActionAt == if |trace.history| > |old(trace).history| && trace.history[|old(trace).history|].executed
                              then m.decidedAt else old(lastActionAt)
    {
      hide Execute, Normalize, Push, Reconcile, MarkLatest, Count, Gate;
      if pendingVisualAction.Some? {
        status := ReconcilePendingVisualAction(env.visual);
        return;
      }
      var gate := Gate(env);
      if gate.Some? {
        phase := if gate == Some(DeferredPressure) then ResourceGuard
                 else if gate == Some(SleepStarted) then Sleeping else phase;
        trace := trace.Noting(GateNotes(gate.value));
        return gate.value;
      }
      phase := Planning;
      if env.plan.None? {
        errorCount := errorCount + 1;
        lastError := m.error;
        trace := trace.Noting([PlanFailureNote]);
        return PlanFailed;
      }
      if env.userAfter {
        return DeferredUserRequest;
      }
      if env.busyAfter {
        return DeferredVisual;
      }
      var plan := Normalize(recentActions, lastSpeechAt, env.plan.value, env.candidates, env.planAt,
                            speechCooldownSeconds);
      phase := Executing;
      var x := ExecutePlan(plan, env.exec);
      CountAction(plan, x, m.decidedAt);
      trace := trace.Noting([CycleNote]);
      return StatusOf(x);
    }
  }
}
