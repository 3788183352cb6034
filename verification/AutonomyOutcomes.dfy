/** How a tick ends, read off its surroundings: which gate closes, what a pending action comes to, and what an executed
    plan counts as. */
module AutonomyOutcomes {
  import opened Wrappers
  import opened BoundedDeque
  import opened AutonomyTicks

  // ---------------------------------------------------- visual evidence

  predicate Runs(status: string) { status == "observing" || status == "moving" }

  predicate Fails(status: string) {
    status == "not_visible" || status == "ambiguous" || status == "failed" || status == "cancelled"
  }

  /** The job has ended, nothing owns, runs or stops it any more, and its record is well formed. */
  predicate HasEnded(v: VisualView, job: Job) {
    && (job.status == "arrived" || job.status == "observed" || Fails(job.status))
    && v.activeId != Some(job.requestId) && !v.taskRunning && v.unconfirmedStop != Some(job.requestId)
    && job.finishedValid && (Fails(job.status) ==> job.arrived == Some(false))
  }

  /** A move arrived, or a look was observed without arriving. */
  predicate Achieves(action: Action, job: Job) {
    || (action.Move? && job.status == "arrived" && job.arrived == Some(true))
    || (action.Look? && job.status == "observed" && job.arrived == Some(false))
  }

  lemma EndedIsStable(v: VisualView, job: Job, action: Action)
    ensures Stable(v, job) <==> HasEnded(v, job)
    ensures Succeeds(action, job) <==> Achieves(action, job)
    ensures Fails(job.status) ==> !Achieves(action, job)
  {
  }

  /** What a tick answers while an action is pending, and what it counts and reports. */
  lemma PendingTickAnswers(s: State, env: Env, cooldown: real)
    requires s.pending.Some?
    ensures var (n, status) := Tick(s, env, cooldown);
            var p, v := s.pending.value, env.visual;
            var known := v.job.Some? && v.job.value.requestId == p.requestId;
            && (status.ActionCompleted? <==> known && HasEnded(v, v.job.value) && Achieves(p.action, v.job.value))
            && (status.ActionFailed? <==> known && HasEnded(v, v.job.value) && !Achieves(p.action, v.job.value))
            && (status.ActionPending? <==>
                  known && (Runs(v.job.value.status) || v.activeId == Some(p.requestId) || v.taskRunning))
            && (status.CompletionUnknown? <==>
                  !status.ActionCompleted? && !status.ActionFailed? && !status.ActionPending?)
            && (known && Fails(v.job.value.status) ==> n.succeeded == s.succeeded && !status.ActionCompleted?)
            && n.succeeded == s.succeeded + (if status.ActionCompleted? then 1 else 0)
            && n.completed == s.completed + (if status.ActionCompleted? || status.ActionFailed? then 1 else 0)
            && (if status.ActionCompleted? || status.ActionFailed?
                then n.observed == s.observed + [Observation(p.action, p.target, status.ActionCompleted?)]
                else n == s)
  {
    hide MarkLatest;
    if env.visual.job.Some? {
      EndedIsStable(env.visual, env.visual.job.value, s.pending.value.action);
      hide Succeeds, Achieves;
    }
  }

  // ------------------------------------------------------------- gates

  predicate Undisturbed(env: Env) {
    !env.llmDisabled && env.plannerReady && !env.pressure && !env.userBefore && !env.busyBefore
  }

  /** The gates in their order; a tick acts if and only if none of them is closed. */
  lemma GatesAnswer(s: State, env: Env, cooldown: real)
    requires s.pending.None?
    ensures var (n, status) := Tick(s, env, cooldown);
            var calm := !env.llmDisabled && env.plannerReady && !env.pressure;
            var awake := env.cognition.Awake? && !env.sleepDue;
            && (status.BlockedLlmDisabled? <==> env.llmDisabled)
            && (status.BlockedPlannerContract? <==> !env.llmDisabled && !env.plannerReady)
            && (status.DeferredPressure? <==> !env.llmDisabled && env.plannerReady && env.pressure)
            && (status.DeferredUserRequest? <==>
                  calm && (env.userBefore || (!env.busyBefore && awake && env.plan.Some? && env.userAfter)))
            && (status.DeferredVisual? <==>
                  && calm && !env.userBefore
                  && (env.busyBefore || (awake && env.plan.Some? && !env.userAfter && env.busyAfter)))
            && (status.Woke? <==> Undisturbed(env) && env.cognition.WakesNow?)
            && (status.Asleep? <==> Undisturbed(env) && env.cognition.AsleepNow?)
            && (status.SleepStarted? <==> Undisturbed(env) && env.cognition.Awake? && env.sleepDue)
            && (status.PlanFailed? <==> Undisturbed(env) && awake && env.plan.None?)
            && (|n.history| > |s.history| <==> Acts(env))
            && (!Acts(env) ==> n == s.(errors := n.errors, noted := n.noted))
            && n.errors == s.errors + (if status.PlanFailed? then 1 else 0)
  {
    hide Execute, Normalize, Push, Observes, StatusOf;
    if Acts(env) {
      ExecutedStatus(s, env, cooldown);
    }
  }

  predicate Acts(env: Env) {
    && Undisturbed(env) && env.cognition.Awake? && !env.sleepDue && env.plan.Some? && !env.userAfter && !env.busyAfter
  }

  /** What executing leaves: one entry, and a status that says what became of it. */
  lemma ExecutedStatus(s: State, env: Env, cooldown: real)
    requires s.pending.None? && Acts(env)
    ensures var (n, status) := Tick(s, env, cooldown);
            && |n.history| == |s.history| + 1 && n.history[..|s.history|] == s.history && n.errors == s.errors
            && var e := n.history[|s.history|];
               && (status.PlannedNoExecution? <==> !e.executed)
               && (status.ActionStarted? <==> e.executed && !e.completed)
               && (status.Acted? <==> e.executed && e.completed && e.succeeded == Some(true))
               && (status.ActionFailed? <==> e.executed && e.completed && e.succeeded != Some(true))
  {
    var plan := Normalize(s.recent, s.lastSpeechAt, env.plan.value, env.candidates, env.planAt, cooldown);
    var (n, x) := Execute(s, plan, env.exec);
    PlanIsVerified(s, env, cooldown);
    ExecuteOutcome(s, plan, env.exec);
    hide Execute, Normalize, Push, Observes;
  }

  // --------------------------------------------------------- execution

  /** The label of the last candidate of this form. */
  ghost predicate LabelOf(cs: seq<Candidate>, folded: string, name: string) {
    exists i :: 0 <= i < |cs| && cs[i] == Candidate(folded, name) && forall j :: i < j < |cs| ==> cs[j].folded != folded
  }

  lemma {:induction false} CanonicalIsLabel(cs: seq<Candidate>, folded: string)
    ensures var found := Canonical(cs, folded);
            && (found.Some? ==> LabelOf(cs, folded, found.value))
            && forall name :: LabelOf(cs, folded, name) ==> found == Some(name)
    decreases |cs|
  {
    if cs != [] {
      var n := |cs| - 1;
      CanonicalIsLabel(cs[..n], folded);
      assert cs == cs[..n] + [cs[n]];
      if cs[n].folded != folded {
        forall name
          ensures LabelOf(cs, folded, name) <==> LabelOf(cs[..n], folded, name)
        {
          if i :| 0 <= i < n && cs[..n][i] == Candidate(folded, name)
                  && forall j :: i < j < n ==> cs[..n][j].folded != folded {
            assert cs[i] == Candidate(folded, name);
          }
          if i :| 0 <= i < |cs| && cs[i] == Candidate(folded, name)
                  && forall j :: i < j < |cs| ==> cs[j].folded != folded {
            assert cs[..n][i] == Candidate(folded, name);
          }
        }
      } else {
        assert cs[n] == Candidate(folded, cs[n].shown);
      }
    }
  }

  /** The planner's answer is allowed: a known action, nothing native, a target exactly for moves and looks and then an
      observed one, and speech that is due, not empty and not among the recent. */
  ghost predicate Allowed(s: State, env: Env, cooldown: real)
    requires env.plan.Some?
  {
    var raw := env.plan.value;
    && !raw.action.Invalid? && !raw.nativeReference
    && (if raw.action.Move? || raw.action.Look? then exists name :: LabelOf(env.candidates, raw.target, name)
        else raw.target == "")
    && (raw.action.Speak? ==>
          && env.planAt - s.lastSpeechAt >= cooldown && raw.text != ""
          && forall e :: e in s.recent && e.action.Speak? ==> e.text != raw.text)
  }

  lemma AllowedIff(s: State, env: Env, cooldown: real)
    requires env.plan.Some?
    ensures var raw := env.plan.value;
            var plan := Normalize(s.recent, s.lastSpeechAt, raw, env.candidates, env.planAt, cooldown);
            && plan.action == raw.action && plan.text == raw.text
            && (plan.errors == [] <==> Allowed(s, env, cooldown))
            && (plan.verified <==> (raw.action.Move? || raw.action.Look?)
                                   && exists name :: LabelOf(env.candidates, raw.target, name))
            && (plan.verified ==> LabelOf(env.candidates, raw.target, plan.target))
            && (!plan.verified ==> plan.target == "")
  {
    var raw := env.plan.value;
    CanonicalIsLabel(env.candidates, raw.target);
    hide Canonical, LabelOf;
    assert raw.text in SpokenTexts(s.recent) <==> exists e :: e in s.recent && e.action.Speak? && e.text == raw.text;
    hide SpokenTexts;
  }

  predicate Listed(x: PlanError, a: bool, b: bool, c: bool, d: bool, e: bool, f: bool, g: bool, h: bool) {
    match x
    case UnsupportedAction => a
    case SpeechCooldown => b
    case SpeechTextMissing => c
    case DuplicateSpeech => d
    case NativeReference => e
    case TargetMissing => f
    case TargetNotObserved => g
    case TargetNotApplicable => h
  }

  lemma WhenIs(b: bool, e: PlanError, x: PlanError)
    ensures x in When(b, e) <==> b && x == e
  {
  }

  lemma InFour(x: PlanError, a: seq<PlanError>, b: seq<PlanError>, c: seq<PlanError>, d: seq<PlanError>)
    ensures x in a + b + c + d <==> x in a || x in b || x in c || x in d
  {
  }

  lemma ListedIff(x: PlanError, a: bool, b: bool, c: bool, d: bool, e: bool, f: bool, g: bool, h: bool)
    ensures x in When(a, UnsupportedAction) + When(b, SpeechCooldown) + When(c, SpeechTextMissing)
                 + When(d, DuplicateSpeech) + When(e, NativeReference) + When(f, TargetMissing)
                 + When(g, TargetNotObserved) + When(h, TargetNotApplicable)
            <==> Listed(x, a, b, c, d, e, f, g, h)
  {
    hide When;
    WhenIs(a, UnsupportedAction, x);
    WhenIs(b, SpeechCooldown, x);
    WhenIs(c, SpeechTextMissing, x);
    WhenIs(d, DuplicateSpeech, x);
    WhenIs(e, NativeReference, x);
    WhenIs(f, TargetMissing, x);
    WhenIs(g, TargetNotObserved, x);
    WhenIs(h, TargetNotApplicable, x);
    var first := When(a, UnsupportedAction) + When(b, SpeechCooldown) + When(c, SpeechTextMissing)
                 + When(d, DuplicateSpeech);
    InFour(x, When(a, UnsupportedAction), When(b, SpeechCooldown),
           When(c, SpeechTextMissing), When(d, DuplicateSpeech));
    var second := first + When(e, NativeReference) + When(f, TargetMissing) + When(g, TargetNotObserved);
    InFour(x, first, When(e, NativeReference), When(f, TargetMissing), When(g, TargetNotObserved));
    assert x in second + When(h, TargetNotApplicable) <==> x in second || x in When(h, TargetNotApplicable);
  }

  /** This is wrong with the planner's answer. */
  predicate Wrong(raw: RawPlan, early: bool, said: bool, found: bool, x: PlanError) {
    var aims, speaks := Tracks(raw.action), raw.action.Speak?;
    Listed(x, raw.action.Invalid?, speaks && early, speaks && raw.text == "", speaks && raw.text != "" && said,
           raw.nativeReference, aims && !found && raw.target == "", aims && !found && raw.target != "",
           !aims && raw.target != "")
  }

  lemma WrongIff(raw: RawPlan, early: bool, said: bool, found: bool, x: PlanError)
    ensures x in ErrorsOf(raw, early, said, found) <==> Wrong(raw, early, said, found, x)
  {
    hide When, Listed;
    var aims, speaks := Tracks(raw.action), raw.action.Speak?;
    ListedIff(x, raw.action.Invalid?, speaks && early, speaks && raw.text == "", speaks && raw.text != "" && said,
              raw.nativeReference, aims && !found && raw.target == "", aims && !found && raw.target != "",
              !aims && raw.target != "");
  }

  /** What is said to be wrong with a plan, error by error. */
  lemma ErrorsIff(s: State, env: Env, cooldown: real, x: PlanError)
    requires env.plan.Some?
    ensures var raw := env.plan.value;
            x in Normalize(s.recent, s.lastSpeechAt, raw, env.candidates, env.planAt, cooldown).errors <==>
            Wrong(raw, env.planAt - s.lastSpeechAt < cooldown,
                  exists e :: e in s.recent && e.action.Speak? && e.text == raw.text,
                  exists name :: LabelOf(env.candidates, raw.target, name), x)
  {
    var raw := env.plan.value;
    CanonicalIsLabel(env.candidates, raw.target);
    assert raw.text in SpokenTexts(s.recent) <==> exists e :: e in s.recent && e.action.Speak? && e.text == raw.text;
    WrongIff(raw, env.planAt - s.lastSpeechAt < cooldown, raw.text in SpokenTexts(s.recent),
             Canonical(env.candidates, raw.target).Some?, x);
    hide Canonical, LabelOf, ErrorsOf, Wrong, SpokenTexts;
  }

  /** A visual action may start: its target has a label, the service is ready, and nobody asks for anything else. */
  ghost predicate Admitted(env: Env)
    requires env.plan.Some?
  {
    && (exists name :: LabelOf(env.candidates, env.plan.value.target, name) && name != "")
    && env.exec.serviceReady && env.exec.activity.NobodyAsks? && env.exec.portableReady && env.exec.lockReadable
    && !env.exec.busy && env.exec.started.Some?
    && env.exec.started.value.requestId == env.exec.requestId
  }

  /** What of an allowed plan is executed. */
  ghost predicate Executes(env: Env)
    requires env.plan.Some?
  {
    var e := env.exec;
    match env.plan.value.action
    case Sleep => true
    case Speak => (e.bridgeEnabled && e.bridge.BridgeSent?) || (e.ttsEnabled && e.ttsOk)
    case Gesture => e.bridgeEnabled && e.bridge.BridgeSent?
    case Rest => e.bridgeEnabled && e.bridge.BridgeSent?
    case Move => Admitted(env) && (Runs(e.started.value.status) || HasEnded(e.after, e.started.value))
    case Look => Admitted(env) && (Runs(e.started.value.status) || HasEnded(e.after, e.started.value))
    case _ => false
  }

  /** The request id an entry takes over from the bridge: speech that the bridge has not sent but the synthesiser has
      spoken takes none. */
  function BridgeId(env: Env): Option<string>
    requires env.plan.Some?
  {
    var e := env.exec;
    if !e.bridgeEnabled || e.bridge.BridgeError? then None
    else
      match env.plan.value.action
      case Speak => if e.bridge.BridgeNotSent? && e.ttsEnabled && e.ttsOk then None else e.bridge.visualId
      case Gesture => e.bridge.visualId
      case Rest => e.bridge.visualId
      case _ => None
  }

  lemma VisualExecutes(s: State, env: Env, plan: Plan)
    requires env.plan.Some? && plan.action == env.plan.value.action && Tracks(plan.action) && s.pending.None?
    requires plan.verified && LabelOf(env.candidates, env.plan.value.target, plan.target)
    ensures var (n, x) := ExecuteVisual(s, plan, env.exec);
            var e := env.exec;
            && (x.executed <==> Executes(env))
            && (x.completed <==> Executes(env) && !Runs(e.started.value.status))
            && (x.succeeded == Some(true) <==> x.completed && Achieves(plan.action, e.started.value))
            && (n.pending.Some? <==> Executes(env) && Runs(e.started.value.status))
            && (x.executed ==> x.visualId == Some(e.requestId))
  {
    OneLabel(env.candidates, env.plan.value.target);
    if env.exec.started.Some? {
      EndedIsStable(env.exec.after, env.exec.started.value, plan.action);
    }
    hide LabelOf, Succeeds, Achieves;
  }

  lemma OneLabel(cs: seq<Candidate>, folded: string)
    ensures forall a, b :: LabelOf(cs, folded, a) && LabelOf(cs, folded, b) ==> a == b
  {
    CanonicalIsLabel(cs, folded);
    hide LabelOf;
  }

  /** What an allowed plan comes to, before it is counted. */
  ghost predicate ComesTo(s: State, n: State, env: Env, x: Execution)
    requires env.plan.Some?
  {
    var action, e := env.plan.value.action, env.exec;
    && (x.executed <==> Executes(env))
    && (x.completed <==> x.executed && (action.Sleep? || (Tracks(action) && !Runs(e.started.value.status))))
    && (x.succeeded == Some(true) <==>
          x.completed && (if action.Sleep? then e.sleepOk else Achieves(action, e.started.value)))
    && (n.pending.Some? <==> x.executed && Tracks(action) && Runs(e.started.value.status))
    && (n.speeches != s.speeches <==> x.executed && action.Speak?)
    && x.visualId == (if x.executed && Tracks(action) then Some(e.requestId) else BridgeId(env))
  }

  lemma AllowedComesTo(s: State, env: Env, plan: Plan)
    requires s.pending.None? && env.plan.Some? && plan.action == env.plan.value.action && plan.errors == []
    requires !plan.action.Invalid?
    requires Tracks(plan.action) ==> plan.verified && LabelOf(env.candidates, env.plan.value.target, plan.target)
    requires !Tracks(plan.action) ==> plan.target == ""
    ensures var (n, x) := Execute(s, plan, env.exec); ComesTo(s, n, env, x)
  {
    hide LabelOf, Achieves, HasEnded, Admitted;
    if Tracks(plan.action) {
      VisualExecutes(s, env, plan);
      hide ExecuteVisual, Executes;
    }
  }

  /** What becomes of a plan: its entry is executed if and only if it is allowed and its action goes out; only a sleep
      or a visual action that has already ended is completed at once; and it succeeded if the sleep or the action
      did. */
  lemma ExecutedIff(s: State, env: Env, cooldown: real)
    requires s.pending.None? && Acts(env)
    ensures var n := Tick(s, env, cooldown).0;
            var raw := env.plan.value;
            && |n.history| == |s.history| + 1
            && var e := n.history[|s.history|];
               && e.action == raw.action && e.text == (if raw.action.Speak? then raw.text else "")
               && var x := Execution(e.executed, e.completed, e.succeeded, e.visualId);
                  if Allowed(s, env, cooldown) then ComesTo(s, n, env, x) else x == Nothing && n.speeches == s.speeches
  {
    var plan := Normalize(s.recent, s.lastSpeechAt, env.plan.value, env.candidates, env.planAt, cooldown);
    AllowedIff(s, env, cooldown);
    if Allowed(s, env, cooldown) {
      AllowedAims(s, env, cooldown);
    }
    hide Normalize, Allowed, LabelOf, Push, Observes;
    if plan.errors == [] {
      AllowedComesTo(s, env, plan);
      hide Execute;
    }
    hide Executes, BridgeId, Achieves;
  }

  lemma AllowedAims(s: State, env: Env, cooldown: real)
    requires env.plan.Some? && Allowed(s, env, cooldown)
    ensures !env.plan.value.action.Invalid?
    ensures Tracks(env.plan.value.action) ==> exists name :: LabelOf(env.candidates, env.plan.value.target, name)
  {
    hide LabelOf;
  }

  // ------------------------------------------------------- over all ticks

  /** The job shows that the entry's action was achieved. */
  predicate ShownBy(e: Entry, v: VisualView, job: Job) {
    Some(job.requestId) == e.visualId && HasEnded(v, job) && Achieves(e.action, job)
  }

  predicate SettledBy(e: Entry, env: Env) {
    || (env.visual.job.Some? && ShownBy(e, env.visual, env.visual.job.value))
    || (env.exec.started.Some? && ShownBy(e, env.exec.after, env.exec.started.value))
  }

  lemma ReconcileGrounds(s: State, env: Env, cooldown: real, i: int)
    requires Faithful(s) && s.pending.Some?
    requires var n := Tick(s, env, cooldown).0;
             0 <= i < |n.history| && Tracks(n.history[i].action) && n.history[i].succeeded == Some(true)
    ensures var n := Tick(s, env, cooldown).0;
            (i < |s.history| && n.history[i] == s.history[i]) || SettledBy(n.history[i], env)
  {
    var last := |s.history| - 1;
    MarkLatestIsLast(s.history, s.pending.value.requestId, true);
    MarkLatestIsLast(s.history, s.pending.value.requestId, false);
    if env.visual.job.Some? {
      EndedIsStable(env.visual, env.visual.job.value, s.pending.value.action);
    }
    hide MarkLatest, Tally, Last, Coherent, Successes, Succeeds, Achieves, HasEnded;
  }

  lemma TickGrounds(s: State, env: Env, cooldown: real, i: int)
    requires Faithful(s)
    requires var n := Tick(s, env, cooldown).0;
             0 <= i < |n.history| && Tracks(n.history[i].action) && n.history[i].succeeded == Some(true)
    ensures var n := Tick(s, env, cooldown).0;
            (i < |s.history| && n.history[i] == s.history[i]) || SettledBy(n.history[i], env)
  {
    hide Faithful;
    if s.pending.Some? {
      ReconcileGrounds(s, env, cooldown, i);
    } else {
      GatesAnswer(s, env, cooldown);
      if Acts(env) {
        ExecutedStatus(s, env, cooldown);
        ExecutedIff(s, env, cooldown);
        ExecutedId(s, env, cooldown);
        assert i < |s.history| ==> Tick(s, env, cooldown).0.history[..|s.history|][i] == s.history[i];
      }
      hide Tick, Allowed, Achieves, HasEnded, LabelOf;
    }
  }

  lemma ExecutedId(s: State, env: Env, cooldown: real)
    requires s.pending.None? && Acts(env)
    ensures var n := Tick(s, env, cooldown).0;
            && |n.history| == |s.history| + 1
            && var e := n.history[|s.history|];
               e.executed && Tracks(e.action) ==> e.visualId == Some(env.exec.requestId)
  {
    hide Normalize, Push, Observes;
  }

  lemma RunSnoc(s: State, envs: seq<Env>, env: Env, cooldown: real)
    ensures Run(s, envs + [env], cooldown) == Round(Run(s, envs, cooldown), env, cooldown)
    decreases |envs|
  {
    hide Round;
    if envs == [] {
      assert ([] + [env])[1..] == [];
    } else {
      assert (envs + [env])[1..] == envs[1..] + [env];
      RunSnoc(Round(s, envs[0], cooldown), envs[1..], env, cooldown);
    }
  }

  lemma RoundGrounds(s: State, env: Env, cooldown: real, i: int)
    requires Faithful(s)
    requires var n := Round(s, env, cooldown);
             0 <= i < |n.history| && Tracks(n.history[i].action) && n.history[i].succeeded == Some(true)
    ensures var n := Round(s, env, cooldown);
            (i < |s.history| && n.history[i] == s.history[i]) || SettledBy(n.history[i], env)
  {
    var n := Round(s, env, cooldown);
    assert n.history == s.history || n.history == Tick(s, env, cooldown).0.history;
    hide Faithful, SettledBy, Round, Tick;
    if n.history != s.history {
      TickGrounds(s, env, cooldown, i);
    }
  }

  lemma NothingYet(cooldown: real)
    ensures Faithful(Initial) && Run(Initial, [], cooldown) == Initial
  {
  }

  /** Over all ticks: whatever move or look counts as a success was shown to be one by a visual job of its own. */
  lemma {:induction false} SuccessesAreShown(envs: seq<Env>, cooldown: real, i: int)
    requires var s := Run(Initial, envs, cooldown);
             0 <= i < |s.history| && Tracks(s.history[i].action) && s.history[i].succeeded == Some(true)
    ensures exists n :: 0 <= n < |envs| && SettledBy(Run(Initial, envs, cooldown).history[i], envs[n])
    decreases |envs|
  {
    hide Faithful, Run, SettledBy, Round, Tick, Tracks;
    NothingYet(cooldown);
    if envs != [] {
      var last := |envs| - 1;
      var before := Run(Initial, envs[..last], cooldown);
      assert envs == envs[..last] + [envs[last]];
      RunSnoc(Initial, envs[..last], envs[last], cooldown);
      RunKeeps(Initial, envs[..last], cooldown);
      var s := Run(Initial, envs, cooldown);
      assert s == Round(before, envs[last], cooldown);
      if i < |before.history| && s.history[i] == before.history[i] {
        SuccessesAreShown(envs[..last], cooldown, i);
        var n :| 0 <= n < last && SettledBy(before.history[i], envs[..last][n]);
        assert SettledBy(s.history[i], envs[n]);
      } else {
        RoundGrounds(before, envs[last], cooldown, i);
        assert SettledBy(s.history[i], envs[last]);
      }
    }
  }
}
