/** The tick of the autonomy supervisor: reconcile the one outstanding visual action, or pass the gates, plan,
    execute once and count. What services, clocks and models answer is the tick's environment. */
module AutonomyTicks {
  import opened Wrappers
  import opened BoundedDeque

  const RECENT_LIMIT := 12

  datatype Action = Observe | Look | Move | Gesture | Speak | Rest | Sleep | Invalid

  predicate Spatial(a: Action) { a.Observe? || a.Look? || a.Move? }

  const RUNNING := {"observing", "moving"}
  const TERMINAL_SUCCESS := {"arrived", "observed"}
  const TERMINAL_FAILURE := {"not_visible", "ambiguous", "failed", "cancelled"}

  /** A decision as `_recent_actions` keeps it. */
  datatype Entry = Entry(
    action: Action, text: string, executed: bool, completed: bool, succeeded: Option<bool>, visualId: Option<string>)

  datatype Pending = Pending(requestId: string, action: Action, target: string)

  /** What cognition is told of a completed action. */
  datatype Observation = Observation(action: Action, target: string, success: bool)

  /** The events a tick has the memory record. */
  datatype Note = GuardNote | WakeNote | SleepNote | PlanFailureNote | CycleNote | CompletionNote

  /** `history` is every entry ever appended and `speeches` every time something was said, of which the source keeps
      only the last twelve and the last; `observed` and `noted` are the calls made to cognition and to the memory. */
  datatype State = State(
    pending: Option<Pending>, recent: seq<Entry>,
    actions: nat, completed: nat, succeeded: nat, errors: nat, lastSpeechAt: real,
    history: seq<Entry>, speeches: seq<real>, observed: seq<Observation>, noted: seq<Note>)
  {
    function Noting(note: Note): State { this.(noted := noted + [note]) }
  }

  const Initial := State(None, [], 0, 0, 0, 0, 0.0, [], [], [], [])

  // ------------------------------------------------------------ reconciling

  /** A visual job; `finishedValid` says its finish time is a number in (0, now + 1]. */
  datatype Job = Job(requestId: string, status: string, finishedValid: bool, arrived: Option<bool>)

  datatype VisualView = VisualView(
    job: Option<Job>, activeId: Option<string>, taskRunning: bool, unconfirmedStop: Option<string>)

  predicate Terminal(status: string) { status in TERMINAL_SUCCESS || status in TERMINAL_FAILURE }

  predicate Succeeds(action: Action, job: Job) {
    (action.Move? && job.status == "arrived" && job.arrived == Some(true))
    || (action.Look? && job.status == "observed" && job.arrived == Some(false))
  }

  /** Terminal evidence is stable: nothing owns or runs the job and its record is well formed. */
  predicate Stable(v: VisualView, job: Job) {
    && job.status !in RUNNING && v.activeId != Some(job.requestId) && !v.taskRunning
    && v.unconfirmedStop != Some(job.requestId) && Terminal(job.status) && job.finishedValid
    && (job.status in TERMINAL_FAILURE ==> job.arrived == Some(false))
  }

  datatype TickStatus =
    | ActionPending | CompletionUnknown | ActionCompleted | ActionFailed
    | BlockedLlmDisabled | BlockedPlannerContract | DeferredPressure | DeferredUserRequest | DeferredVisual
    | Woke | Asleep | SleepStarted | PlanFailed | PlannedNoExecution | ActionStarted | Acted

  /** The latest entry of the request, completed. */
  function MarkLatest(es: seq<Entry>, requestId: string, ok: bool): seq<Entry> {
    if es == [] then []
    else
      var n := |es| - 1;
      if es[n].visualId == Some(requestId) then es[..n] + [es[n].(completed := true, succeeded := Some(ok))]
      else MarkLatest(es[..n], requestId, ok) + [es[n]]
  }

  lemma {:induction false} MarkedLength(es: seq<Entry>, requestId: string, ok: bool)
    ensures |MarkLatest(es, requestId, ok)| == |es|
    decreases |es|
  {
    if es != [] {
      MarkedLength(es[..|es| - 1], requestId, ok);
    }
  }

  function Reconcile(s: State, v: VisualView): (State, TickStatus)
    requires s.pending.Some?
  {
    var p := s.pending.value;
    if v.job.None? || v.job.value.requestId != p.requestId then (s, CompletionUnknown)
    else
      var job := v.job.value;
      if job.status in RUNNING || v.activeId == Some(p.requestId) || v.taskRunning then (s, ActionPending)
      else if v.unconfirmedStop == Some(p.requestId) || !Terminal(job.status) then (s, CompletionUnknown)
      else if !job.finishedValid || (job.status in TERMINAL_FAILURE && job.arrived != Some(false)) then
        (s, CompletionUnknown)
      else
        var ok := Succeeds(p.action, job);
        (s.(pending := None, completed := s.completed + 1, succeeded := s.succeeded + if ok then 1 else 0,
            recent := MarkLatest(s.recent, p.requestId, ok), history := MarkLatest(s.history, p.requestId, ok),
            observed := s.observed + [Observation(p.action, p.target, ok)]).Noting(CompletionNote),
         if ok then ActionCompleted else ActionFailed)
  }

  // --------------------------------------------------------------- planning

  /** What the planner returned; the action is already mapped from its aliases. */
  datatype RawPlan = RawPlan(action: Action, text: string, nativeReference: bool, target: string)

  /** An observed candidate and its case-folded, space-collapsed form. */
  datatype Candidate = Candidate(folded: string, shown: string)

  datatype PlanError =
    | UnsupportedAction | SpeechCooldown | SpeechTextMissing | DuplicateSpeech | NativeReference
    | TargetMissing | TargetNotObserved | TargetNotApplicable

  datatype Plan = Plan(action: Action, text: string, target: string, verified: bool, errors: seq<PlanError>)

  /** The label the candidate map holds: a later candidate of the same form replaces an earlier one. */
  function Canonical(cs: seq<Candidate>, folded: string): (found: Option<string>)
    ensures found.Some? <==> exists c :: c in cs && c.folded == folded
    ensures found.Some? ==> Candidate(folded, found.value) in cs
  {
    if cs == [] then None
    else
      var n := |cs| - 1;
      assert cs == cs[..n] + [cs[n]];
      if cs[n].folded == folded then Some(cs[n].shown) else Canonical(cs[..n], folded)
  }

  function SpokenTexts(es: seq<Entry>): set<string> { set e | e in es && e.action.Speak? :: e.text }

  function When(c: bool, e: PlanError): seq<PlanError> { if c then [e] else [] }

  /** What is wrong with a planner's answer, in the order of the checks: whether it is too early to speak, the text was
      said lately, and the target was observed. */
  function ErrorsOf(raw: RawPlan, early: bool, said: bool, found: bool): seq<PlanError> {
    var aims := raw.action.Move? || raw.action.Look?;
    When(raw.action.Invalid?, UnsupportedAction)
    + When(raw.action.Speak? && early, SpeechCooldown)
    + When(raw.action.Speak? && raw.text == "", SpeechTextMissing)
    + When(raw.action.Speak? && raw.text != "" && said, DuplicateSpeech)
    + When(raw.nativeReference, NativeReference)
    + When(aims && !found && raw.target == "", TargetMissing)
    + When(aims && !found && raw.target != "", TargetNotObserved)
    + When(!aims && raw.target != "", TargetNotApplicable)
  }

  /** `_normalize_plan`. */
  function Normalize(recent: seq<Entry>, lastSpeechAt: real, raw: RawPlan, cs: seq<Candidate>, now: real,
                     cooldown: real): Plan
  {
    var canonical := Canonical(cs, raw.target);
    var aims := raw.action.Move? || raw.action.Look?;
    Plan(raw.action, raw.text, if aims && canonical.Some? then canonical.value else "", aims && canonical.Some?,
         ErrorsOf(raw, now - lastSpeechAt < cooldown, raw.text in SpokenTexts(recent), canonical.Some?))
  }

  // -------------------------------------------------------------- executing

  /** The bridge's answer, and the visual request id it may carry: the execution takes over all its fields. */
  datatype BridgeReply = BridgeSent(visualId: Option<string>) | BridgeNotSent(visualId: Option<string>) | BridgeError

  datatype Activity = NobodyAsks | SomebodyAsks | ActivityUnknown

  /** The execution's surroundings. `requestId` is the fresh id, `started` what the visual service's start
      returned (absent when it raised), `after` what the service shows then. */
  datatype ExecEnv = ExecEnv(
    sleepOk: bool, bridgeEnabled: bool, bridge: BridgeReply, ttsEnabled: bool, ttsOk: bool, spokeAt: real,
    serviceReady: bool, activity: Activity, portableReady: bool, lockReadable: bool, busy: bool,
    requestId: string, started: Option<Job>, after: VisualView)

  datatype Execution = Execution(executed: bool, completed: bool, succeeded: Option<bool>, visualId: Option<string>)

  const Nothing := Execution(false, false, Some(false), None)

  function ExecuteVisual(s: State, plan: Plan, e: ExecEnv): (State, Execution) {
    if s.pending.Some? || plan.target == "" || !plan.verified || plan.action.Observe?
       || !e.serviceReady || !e.activity.NobodyAsks? || !e.portableReady || !e.lockReadable || e.busy
       || e.started.None?
    then (s, Nothing)
    else
      var job := e.started.value;
      if job.requestId != e.requestId || !(job.status in RUNNING || Terminal(job.status)) then (s, Nothing)
      else if job.status in RUNNING then
        (s.(pending := Some(Pending(e.requestId, plan.action, plan.target))),
         Execution(true, false, None, Some(e.requestId)))
      else if !Stable(e.after, job) then (s, Nothing)
      else (s, Execution(true, true, Some(Succeeds(plan.action, job)), Some(e.requestId)))
  }

  function Said(s: State, at: real): State { s.(lastSpeechAt := at, speeches := s.speeches + [at]) }

  function Sent(visualId: Option<string>): Execution { Execution(true, false, None, visualId) }

  function Execute(s: State, plan: Plan, e: ExecEnv): (State, Execution) {
    if plan.errors != [] then (s, Nothing)
    else if Spatial(plan.action) then ExecuteVisual(s, plan, e)
    else if plan.action.Sleep? then (s, Execution(true, true, Some(e.sleepOk), None))
    else if plan.action.Speak? then
      if e.bridgeEnabled && e.bridge.BridgeSent? then (Said(s, e.spokeAt), Sent(e.bridge.visualId))
      else if e.ttsEnabled && e.ttsOk then (Said(s, e.spokeAt), Sent(None))
      else if e.bridgeEnabled && e.bridge.BridgeNotSent? then (s, Nothing.(visualId := e.bridge.visualId))
      else (s, Nothing)
    else if !e.bridgeEnabled then (s, Nothing)
    else
      match e.bridge
      case BridgeSent(visualId) => (s, Sent(visualId))
      case BridgeNotSent(visualId) => (s, Execution(false, false, None, visualId))
      case BridgeError => (s, Nothing)
  }

  // ------------------------------------------------------------------- tick

  datatype Cognition = Awake | AsleepNow | WakesNow

  datatype Env = Env(
    visual: VisualView, llmDisabled: bool, plannerReady: bool, pressure: bool, userBefore: bool, busyBefore: bool,
    cognition: Cognition, sleepDue: bool, plan: Option<RawPlan>, candidates: seq<Candidate>, planAt: real,
    userAfter: bool, busyAfter: bool, exec: ExecEnv, fault: Fault)

  /** Whether the tick is cut short by an error it does not handle, or by its cancellation: before its execution is
      over, or once its counters and entries are written; what raises late is the call that tells cognition. */
  datatype Fault = NoFault | RaisesEarly | RaisesLate | CancelledEarly | CancelledLate

  /** The status of a tick that plans nothing, if one of its gates closes. */
  function Gate(env: Env): (gate: Option<TickStatus>)
    ensures gate != Some(PlanFailed)
  {
    if env.llmDisabled then Some(BlockedLlmDisabled)
    else if !env.plannerReady then Some(BlockedPlannerContract)
    else if env.pressure then Some(DeferredPressure)
    else if env.userBefore then Some(DeferredUserRequest)
    else if env.busyBefore then Some(DeferredVisual)
    else if env.cognition.WakesNow? then Some(Woke)
    else if env.cognition.AsleepNow? then Some(Asleep)
    else if env.sleepDue then Some(SleepStarted)
    else None
  }

  function Count(s: State, plan: Plan, x: Execution): State {
    var entry := Entry(plan.action, if plan.action.Speak? then plan.text else "", x.executed, x.completed,
                       x.succeeded, x.visualId);
    s.(actions := s.actions + (if x.executed then 1 else 0),
       completed := s.completed + (if x.completed then 1 else 0),
       succeeded := s.succeeded + (if x.succeeded == Some(true) then 1 else 0),
       recent := Push(s.recent, entry, RECENT_LIMIT), history := s.history + [entry],
       observed := s.observed + Observes(plan, x))
  }

  function Observes(plan: Plan, x: Execution): seq<Observation> {
    if x.completed then [Observation(plan.action, plan.target, x.succeeded == Some(true))] else []
  }

  /** What a closed gate has recorded. */
  function GateNotes(status: TickStatus): seq<Note> {
    match status
    case DeferredPressure => [GuardNote]
    case Woke => [WakeNote]
    case SleepStarted => [SleepNote]
    case _ => []
  }

  function StatusOf(x: Execution): TickStatus {
    if !x.executed then PlannedNoExecution
    else if !x.completed then ActionStarted
    else if x.succeeded == Some(true) then Acted
    else ActionFailed
  }

  function Tick(s: State, env: Env, cooldown: real): (State, TickStatus) {
    if s.pending.Some? then Reconcile(s, env.visual)
    else if Gate(env).Some? then (s.(noted := s.noted + GateNotes(Gate(env).value)), Gate(env).value)
    else if env.plan.None? then (s.(errors := s.errors + 1).Noting(PlanFailureNote), PlanFailed)
    else if env.userAfter then (s, DeferredUserRequest)
    else if env.busyAfter then (s, DeferredVisual)
    else
      var plan := Normalize(s.recent, s.lastSpeechAt, env.plan.value, env.candidates, env.planAt, cooldown);
      var (n, x) := Execute(s, plan, env.exec);
      (Count(n, plan, x).Noting(CycleNote), StatusOf(x))
  }

  /** One round of the worker: the tick, or what is left of it; an unhandled error is counted. */
  function Round(s: State, env: Env, cooldown: real): State {
    match env.fault
    case NoFault => Tick(s, env, cooldown).0
    case RaisesEarly => s.(errors := s.errors + 1)
    case RaisesLate => var n := Tick(s, env, cooldown).0; n.(errors := n.errors + 1, noted := s.noted)
    case CancelledEarly => s
    case CancelledLate => Tick(s, env, cooldown).0
  }

  function Run(s: State, envs: seq<Env>, cooldown: real): State
    decreases |envs|
  {
    if envs == [] then s else Run(Round(s, envs[0], cooldown), envs[1..], cooldown)
  }

  // ----------------------------------------------------------- what is kept

  datatype Totals = Totals(executed: nat, completed: nat, succeeded: nat, untracked: nat)

  /** How many entries were executed, completed, succeeded, or executed without any completion being tracked. */
  function Tally(es: seq<Entry>): Totals {
    if es == [] then Totals(0, 0, 0, 0)
    else
      var t, e := Tally(es[..|es| - 1]), es[|es| - 1];
      Totals(t.executed + (if e.executed then 1 else 0), t.completed + (if e.completed then 1 else 0),
             t.succeeded + (if e.succeeded == Some(true) then 1 else 0),
             t.untracked + (if e.executed && !e.completed && !Tracks(e.action) then 1 else 0))
  }

  /** The actions whose completion is tracked. */
  predicate Tracks(a: Action) { a.Move? || a.Look? }

  predicate Coherent(e: Entry) {
    (e.completed ==> e.executed) && (e.succeeded == Some(true) ==> e.completed)
    && (e.executed && Tracks(e.action) ==> e.visualId.Some?)
  }

  predicate Outstanding(e: Entry) { e.executed && !e.completed && Tracks(e.action) }

  function Successes(seen: seq<Observation>): nat {
    if seen == [] then 0 else Successes(seen[..|seen| - 1]) + if seen[|seen| - 1].success then 1 else 0
  }

  /** The outstanding visual action is the latest entry; no other entry is outstanding. */
  ghost predicate OneOutstanding(pending: Option<Pending>, history: seq<Entry>) {
    && (pending.Some? ==>
          history != [] && Outstanding(history[|history| - 1])
          && history[|history| - 1].visualId == Some(pending.value.requestId)
          && history[|history| - 1].action == pending.value.action)
    && forall i :: 0 <= i < |history| && Outstanding(history[i]) ==> pending.Some? && i == |history| - 1
  }

  /** The counters and the bounded deque say exactly what the full history says, and cognition was told of each
      completion once. */
  ghost predicate Faithful(s: State) {
    var t := Tally(s.history);
    && |s.observed| == s.completed && Successes(s.observed) == s.succeeded
    && s.recent == Last(s.history, RECENT_LIMIT)
    && (s.actions, s.completed, s.succeeded) == (t.executed, t.completed, t.succeeded)
    && OneOutstanding(s.pending, s.history)
    && forall i :: 0 <= i < |s.history| ==> Coherent(s.history[i])
  }

  /** Completing the latest entry of a request touches exactly the last one that carries its id, if there is one. */
  lemma {:induction false} MarkLatestMarks(es: seq<Entry>, requestId: string, ok: bool)
    ensures var n := MarkLatest(es, requestId, ok);
            && |n| == |es|
            && forall i :: 0 <= i < |es| ==>
                 n[i] == if es[i].visualId == Some(requestId)
                            && (forall j :: i < j < |es| ==> es[j].visualId != Some(requestId))
                         then es[i].(completed := true, succeeded := Some(ok)) else es[i]
    decreases |es|
  {
    if es != [] && es[|es| - 1].visualId != Some(requestId) {
      var before := es[..|es| - 1];
      MarkLatestMarks(before, requestId, ok);
      assert forall i :: 0 <= i < |before| ==> before[i] == es[i];
    }
  }

  lemma MarkLatestIsLast(history: seq<Entry>, requestId: string, ok: bool)
    requires history != [] && history[|history| - 1].visualId == Some(requestId)
    ensures var marked := history[|history| - 1].(completed := true, succeeded := Some(ok));
            && MarkLatest(history, requestId, ok) == history[..|history| - 1] + [marked]
            && MarkLatest(Last(history, RECENT_LIMIT), requestId, ok)
               == Last(history[..|history| - 1] + [marked], RECENT_LIMIT)
  {
    var n := |history| - 1;
    var recent := Last(history, RECENT_LIMIT);
    var marked := history[n].(completed := true, succeeded := Some(ok));
    assert recent[|recent| - 1] == history[n];
    if |history| > RECENT_LIMIT {
      assert recent[..|recent| - 1] + [marked] == (history[..n] + [marked])[|history| - RECENT_LIMIT..];
    }
  }

  lemma ReconcileKeeps(s: State, v: VisualView)
    requires Faithful(s) && s.pending.Some?
    ensures Faithful(Reconcile(s, v).0)
  {
    var n := Reconcile(s, v).0;
    if n.pending.None? {
      var ok := Succeeds(s.pending.value.action, v.job.value);
      MarkLatestIsLast(s.history, s.pending.value.requestId, ok);
      var last := |s.history| - 1;
      assert n.history[..last] == s.history[..last];
      hide MarkLatest, Last;
      forall i | 0 <= i < |n.history|
        ensures Coherent(n.history[i]) && !Outstanding(n.history[i])
      {
        assert i < last ==> n.history[i] == s.history[i];
      }
    }
  }

  lemma CountReports(s: State, plan: Plan, x: Execution)
    requires |s.observed| == s.completed && Successes(s.observed) == s.succeeded
    requires x.succeeded == Some(true) ==> x.completed
    ensures var n := Count(s, plan, x); |n.observed| == n.completed && Successes(n.observed) == n.succeeded
  {
    hide Push;
    var n := Count(s, plan, x);
    assert if x.completed then n.observed[..|s.observed|] == s.observed else n.observed == s.observed;
  }

  lemma CountTallies(s: State, plan: Plan, x: Execution)
    requires var t := Tally(s.history); (s.actions, s.completed, s.succeeded) == (t.executed, t.completed, t.succeeded)
    ensures var n := Count(s, plan, x);
            var t := Tally(n.history);
            (n.actions, n.completed, n.succeeded) == (t.executed, t.completed, t.succeeded)
  {
    hide Push, Observes;
    var n := Count(s, plan, x);
    assert n.history[..|n.history| - 1] == s.history;
  }

  lemma CountIsRecent(s: State, plan: Plan, x: Execution)
    requires s.recent == Last(s.history, RECENT_LIMIT)
    ensures var n := Count(s, plan, x); n.recent == Last(n.history, RECENT_LIMIT)
  {
    hide Push, Last, Observes;
    var n := Count(s, plan, x);
    PushIsLast(s.history, n.history[|s.history|], RECENT_LIMIT);
  }

  lemma CountKeeps(s: State, plan: Plan, x: Execution, pending: Option<Pending>)
    requires Faithful(s) && s.pending.None?
    requires (x.completed ==> x.executed) && (x.succeeded == Some(true) ==> x.completed)
    requires x.executed && Tracks(plan.action) ==> x.visualId.Some?
    requires pending.Some? <==> x.executed && !x.completed && Tracks(plan.action)
    requires pending.Some? ==> pending.value == Pending(x.visualId.value, plan.action, plan.target)
    ensures Faithful(Count(s.(pending := pending), plan, x))
  {
    hide Push, Last, Tally, Successes;
    var p := s.(pending := pending);
    CountReports(p, plan, x);
    CountTallies(p, plan, x);
    CountIsRecent(p, plan, x);
    var n := Count(p, plan, x);
    var entry := n.history[|s.history|];
    assert Coherent(entry) && (Outstanding(entry) <==> pending.Some?);
    hide Coherent, Outstanding;
    forall i | 0 <= i < |s.history|
      ensures n.history[i] == s.history[i] && !Outstanding(s.history[i])
    {
    }
  }

  lemma ExecuteOutcome(s: State, plan: Plan, e: ExecEnv)
    requires s.pending.None? && (plan.verified ==> Tracks(plan.action))
    ensures var (n, x) := Execute(s, plan, e);
            && n == s.(pending := n.pending, lastSpeechAt := n.lastSpeechAt, speeches := n.speeches)
            && (x.completed ==> x.executed) && (x.succeeded == Some(true) ==> x.completed)
            && (x.executed && Tracks(plan.action) ==> x.visualId.Some?)
            && (n.pending.Some? <==> x.executed && !x.completed && Tracks(plan.action))
            && (n.pending.Some? ==> n.pending.value == Pending(x.visualId.value, plan.action, plan.target))
  {
  }

  lemma TickKeeps(s: State, env: Env, cooldown: real)
    requires Faithful(s)
    ensures Faithful(Tick(s, env, cooldown).0)
  {
    hide Faithful, Tally, Execute, Count;
    if s.pending.Some? {
      ReconcileKeeps(s, env.visual);
    } else if Gate(env).None? && env.plan.Some? && !env.userAfter && !env.busyAfter {
      var plan := Normalize(s.recent, s.lastSpeechAt, env.plan.value, env.candidates, env.planAt, cooldown);
      var (n, x) := Execute(s, plan, env.exec);
      ExecuteOutcome(s, plan, env.exec);
      SpeechIsSeparate(s, n);
      CountKeeps(n.(pending := None), plan, x, n.pending);
      assert n.(pending := None).(pending := n.pending) == n;
      var counted := Count(n, plan, x);
      ErrorsAreSeparate(counted, counted.errors, counted.noted + [CycleNote]);
    } else {
      var n := Tick(s, env, cooldown).0;
      ErrorsAreSeparate(s, n.errors, n.noted);
    }
  }

  /** A round cut short keeps it too. */
  lemma RoundKeeps(s: State, env: Env, cooldown: real)
    requires Faithful(s)
    ensures Faithful(Round(s, env, cooldown))
  {
    hide Faithful, Tick;
    TickKeeps(s, env, cooldown);
    var n := Tick(s, env, cooldown).0;
    ErrorsAreSeparate(s, s.errors + 1, s.noted);
    ErrorsAreSeparate(n, n.errors + 1, s.noted);
  }

  lemma SpeechIsSeparate(s: State, n: State)
    requires Faithful(s) && s.pending.None?
    requires n == s.(pending := n.pending, lastSpeechAt := n.lastSpeechAt, speeches := n.speeches)
    ensures Faithful(n.(pending := None))
  {
  }

  lemma ErrorsAreSeparate(s: State, errors: nat, noted: seq<Note>)
    requires Faithful(s)
    ensures Faithful(s.(errors := errors, noted := noted))
  {
  }

  lemma {:induction false} RunKeeps(s: State, envs: seq<Env>, cooldown: real)
    requires Faithful(s)
    ensures Faithful(Run(s, envs, cooldown))
    decreases |envs|
  {
    hide Faithful, Round;
    if envs != [] {
      RoundKeeps(s, envs[0], cooldown);
      RunKeeps(Round(s, envs[0], cooldown), envs[1..], cooldown);
    }
  }

  lemma {:induction false} TallyOrder(es: seq<Entry>, outstanding: bool)
    requires forall i :: 0 <= i < |es| ==> Coherent(es[i])
    requires forall i :: 0 <= i < |es| && Outstanding(es[i]) ==> outstanding && i == |es| - 1
    requires outstanding ==> es != [] && Outstanding(es[|es| - 1])
    ensures var t := Tally(es);
            && t.succeeded <= t.completed
            && t.executed == t.completed + t.untracked + if outstanding then 1 else 0
  {
    if es != [] {
      var before := es[..|es| - 1];
      assert forall i :: 0 <= i < |before| ==> before[i] == es[i];
      TallyOrder(before, false);
    }
  }

  /** Over all ticks: the counters count the whole history although only its last twelve entries are kept; an
      action taken is completed, the one pending, or of a kind whose completion is not tracked. */
  lemma ActionsAreConserved(envs: seq<Env>, cooldown: real)
    ensures var s := Run(Initial, envs, cooldown);
            && s.recent == Last(s.history, RECENT_LIMIT)
            && s.succeeded <= s.completed <= s.actions
            && s.actions == s.completed + Tally(s.history).untracked + (if s.pending.Some? then 1 else 0)
            && s.completed == Tally(s.history).completed && s.succeeded == Tally(s.history).succeeded
            && OneOutstanding(s.pending, s.history)
            && |s.observed| == s.completed && Successes(s.observed) == s.succeeded
            && (s.pending.Some? ==>
                  && s.recent != [] && s.recent[|s.recent| - 1].visualId == Some(s.pending.value.requestId)
                  && !s.recent[|s.recent| - 1].completed)
  {
    assert Faithful(Initial);
    RunKeeps(Initial, envs, cooldown);
    var s := Run(Initial, envs, cooldown);
    TallyOrder(s.history, s.pending.Some?);
  }

  /** While an action is pending a tick plans and executes nothing, whatever its environment: it can only
      complete that action's entry, and does so exactly when the terminal evidence is stable. */
  lemma PendingTickOnlyReconciles(envs: seq<Env>, env: Env, cooldown: real)
    requires Run(Initial, envs, cooldown).pending.Some?
    ensures var s := Run(Initial, envs, cooldown);
            var n := Tick(s, env, cooldown).0;
            var p := s.pending.value;
            var last := |s.history| - 1;
            && last >= 0 && |n.history| == |s.history| && n.history[..last] == s.history[..last]
            && n.actions == s.actions && n.speeches == s.speeches
            && (n != s <==> env.visual.job.Some? && env.visual.job.value.requestId == p.requestId
                            && Stable(env.visual, env.visual.job.value))
            && (n != s ==>
                  var ok := Succeeds(p.action, env.visual.job.value);
                  && n.pending.None? && n.history[last] == s.history[last].(completed := true, succeeded := Some(ok))
                  && n.completed == s.completed + 1 && n.succeeded == s.succeeded + if ok then 1 else 0)
  {
    assert Faithful(Initial);
    RunKeeps(Initial, envs, cooldown);
    hide Run;
    var s := Run(Initial, envs, cooldown);
    MarkLatestIsLast(s.history, s.pending.value.requestId, true);
    MarkLatestIsLast(s.history, s.pending.value.requestId, false);
    assert Tick(s, env, cooldown) == Reconcile(s, env.visual);
    hide MarkLatest, Tally, Last, Coherent, Tick, Successes;
  }

  /** What a tick leaves of an entry: everything, unless it completes the outstanding one. */
  lemma TickKeepsEntries(s: State, env: Env, cooldown: real, i: int)
    requires Faithful(s) && 0 <= i < |s.history| && !Outstanding(s.history[i])
    ensures var n := Tick(s, env, cooldown).0;
            i < |n.history| && n.history[i] == s.history[i]
  {
    hide MarkLatest, Tally, Last, Coherent, Normalize, Execute, Push, Observes, Successes;
    if s.pending.Some? {
      MarkLatestIsLast(s.history, s.pending.value.requestId, true);
      MarkLatestIsLast(s.history, s.pending.value.requestId, false);
    } else if Gate(env).None? && env.plan.Some? && !env.userAfter && !env.busyAfter {
      PlanIsVerified(s, env, cooldown);
      ExecuteOutcome(s, Normalize(s.recent, s.lastSpeechAt, env.plan.value, env.candidates, env.planAt, cooldown),
                     env.exec);
    }
  }

  /** An action that is completed, or was never outstanding, stays as recorded over every further run. */
  lemma {:induction false} EntriesAreFinal(s: State, envs: seq<Env>, cooldown: real, i: int)
    requires Faithful(s) && 0 <= i < |s.history| && !Outstanding(s.history[i])
    ensures var n := Run(s, envs, cooldown);
            i < |n.history| && n.history[i] == s.history[i]
    decreases |envs|
  {
    hide Faithful, Tick;
    if envs != [] {
      TickKeepsEntries(s, envs[0], cooldown, i);
      RoundKeeps(s, envs[0], cooldown);
      EntriesAreFinal(Round(s, envs[0], cooldown), envs[1..], cooldown, i);
    }
  }

  /** `n` has told cognition of one more action, that `s` had pending if it had one; or of none. */
  predicate Reports(s: State, n: State) {
    if n.completed == s.completed then n.observed == s.observed
    else
      && n.completed == s.completed + 1 && |n.observed| == |s.observed| + 1
      && n.observed[..|s.observed|] == s.observed
      && n.observed[|s.observed|].success == (n.succeeded > s.succeeded)
      && (s.pending.Some? ==>
            && n.observed[|s.observed|].action == s.pending.value.action
            && n.observed[|s.observed|].target == s.pending.value.target)
  }

  lemma CountIsReported(s: State, n: State, plan: Plan, x: Execution)
    requires s.pending.None? && (x.succeeded == Some(true) ==> x.completed)
    requires n == s.(pending := n.pending, lastSpeechAt := n.lastSpeechAt, speeches := n.speeches)
    ensures Reports(s, Count(n, plan, x).Noting(CycleNote))
  {
    hide Push;
    assert s.observed + [] == s.observed;
  }

  /** A tick tells cognition of an action exactly when it completes one, and of its success exactly when it counts
      one. */
  lemma TickObserves(s: State, env: Env, cooldown: real)
    ensures Reports(s, Tick(s, env, cooldown).0)
  {
    hide MarkLatest, Normalize, Execute, Count;
    if s.pending.None? && Gate(env).None? && env.plan.Some? && !env.userAfter && !env.busyAfter {
      var plan := Normalize(s.recent, s.lastSpeechAt, env.plan.value, env.candidates, env.planAt, cooldown);
      var (n, x) := Execute(s, plan, env.exec);
      PlanIsVerified(s, env, cooldown);
      ExecuteOutcome(s, plan, env.exec);
      hide Reports;
      CountIsReported(s, n, plan, x);
    }
  }

  lemma PlanIsVerified(s: State, env: Env, cooldown: real)
    requires env.plan.Some?
    ensures var plan := Normalize(s.recent, s.lastSpeechAt, env.plan.value, env.candidates, env.planAt, cooldown);
            plan.verified ==> Tracks(plan.action)
  {
  }

  /** The event a tick of this outcome has recorded, if any. */
  function NotesOf(pending: bool, status: TickStatus): seq<Note> {
    match status
    case ActionCompleted => [CompletionNote]
    case ActionFailed => [if pending then CompletionNote else CycleNote]
    case PlannedNoExecution => [CycleNote]
    case ActionStarted => [CycleNote]
    case Acted => [CycleNote]
    case PlanFailed => [PlanFailureNote]
    case _ => GateNotes(status)
  }

  /** A tick has at most one event recorded, and its outcome says which: a cycle exactly when an entry is appended, a
      completion exactly when the outstanding one is completed. */
  lemma TickNotes(s: State, env: Env, cooldown: real)
    ensures var (n, status) := Tick(s, env, cooldown);
            && n.noted == s.noted + NotesOf(s.pending.Some?, status)
            && (NotesOf(s.pending.Some?, status) == [CycleNote] <==> |n.history| == |s.history| + 1)
            && (NotesOf(s.pending.Some?, status) == [CompletionNote] <==> s.pending.Some? && n.pending.None?)
  {
    hide MarkLatest, Normalize, Push;
    if s.pending.Some? {
      MarkedLength(s.history, s.pending.value.requestId, true);
      MarkedLength(s.history, s.pending.value.requestId, false);
      assert s.noted + [] == s.noted;
    } else if Gate(env).None? && env.plan.Some? && !env.userAfter && !env.busyAfter {
      var plan := Normalize(s.recent, s.lastSpeechAt, env.plan.value, env.candidates, env.planAt, cooldown);
      PlanIsVerified(s, env, cooldown);
      ExecuteOutcome(s, plan, env.exec);
      hide Execute;
    } else {
      assert s.noted + [] == s.noted;
    }
  }

  /** A tick that starts a visual action starts one move or look at a target that was among the observed
      candidates, and only when nothing else was outstanding. */
  lemma StartedActionIsGrounded(s: State, env: Env, cooldown: real)
    requires s.pending.None? && Tick(s, env, cooldown).0.pending.Some?
    ensures var raw := env.plan.value;
            && env.plan.Some? && (raw.action.Move? || raw.action.Look?) && !raw.nativeReference
            && (exists c :: c in env.candidates && c.folded == raw.target && c.shown != ""
                  && Tick(s, env, cooldown).0.pending.value == Pending(env.exec.requestId, raw.action, c.shown))
            && Gate(env).None? && !env.userAfter && !env.busyAfter && !env.exec.busy
  {
    var raw := env.plan.value;
    var plan := Normalize(s.recent, s.lastSpeechAt, raw, env.candidates, env.planAt, cooldown);
    assert plan.errors == [];
    assert Candidate(raw.target, plan.target) in env.candidates;
  }

  // ------------------------------------------------------------------ speech

  /** The clock does not run backwards between planning and speaking. */
  predicate Clocked(envs: seq<Env>) { forall i :: 0 <= i < |envs| ==> envs[i].planAt <= envs[i].exec.spokeAt }

  ghost predicate Spaced(s: State, cooldown: real) {
    && (s.speeches != [] ==> s.lastSpeechAt == s.speeches[|s.speeches| - 1])
    && forall i :: 0 < i < |s.speeches| ==> s.speeches[i] >= s.speeches[i - 1] + cooldown
  }

  /** A tick says something only past the cooldown, and nothing that one of the last twelve entries says. */
  lemma TickSpeech(s: State, env: Env, cooldown: real)
    ensures var n := Tick(s, env, cooldown).0;
            || (n.speeches == s.speeches && n.lastSpeechAt == s.lastSpeechAt)
            || (&& n.speeches == s.speeches + [env.exec.spokeAt] && n.lastSpeechAt == env.exec.spokeAt
                && env.planAt >= s.lastSpeechAt + cooldown && env.plan.Some? && env.plan.value.action.Speak?
                && env.plan.value.text != "" && env.plan.value.text !in SpokenTexts(s.recent))
  {
    if env.plan.Some? {
      var plan := Normalize(s.recent, s.lastSpeechAt, env.plan.value, env.candidates, env.planAt, cooldown);
      assert plan.errors == [] && plan.action.Speak? ==>
          env.planAt - s.lastSpeechAt >= cooldown && plan.text != "" && plan.text !in SpokenTexts(s.recent);
      hide Normalize, SpokenTexts, MarkLatest;
    }
  }

  /** Over all ticks, two things said one after the other are at least the cooldown apart. */
  lemma {:induction false} SpeechIsSpaced(s: State, envs: seq<Env>, cooldown: real)
    requires Spaced(s, cooldown) && Clocked(envs)
    ensures Spaced(Run(s, envs, cooldown), cooldown)
    decreases |envs|
  {
    hide Tick;
    if envs != [] {
      TickSpeech(s, envs[0], cooldown);
      SpeechIsSpaced(Round(s, envs[0], cooldown), envs[1..], cooldown);
    }
  }
}
