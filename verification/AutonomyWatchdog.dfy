/** The autonomy watchdog: its counters and latches against the history of what it was given. */
module AutonomyWatchdog {
  import opened Wrappers

  const FUTURE_SKEW_SECONDS := 2.0

  datatype Config = Config(
    heartbeatTimeout: real, maxRepeated: int, cpuMax: real, memoryMax: real, resourceLimit: int)

  /** A validated sample. */
  datatype Sample = Sample(
    sampledAt: real, heartbeatAt: real, actionId: string, traceComplete: bool, cpu: real, memory: real,
    stopRequested: bool)

  datatype Mode = Running | SafeIdle | Killed

  datatype Reason =
    | StopRequested | TraceIncomplete | HeartbeatTimeout | ActionRepetition | SustainedPressure
    | SafeIdleLatched | KillSwitchLatched

  datatype EventType = SafeIdleEntered(reasons: seq<Reason>) | KillSwitchTriggered | WatchdogReset(previous: Mode)

  datatype Event = Event(sequence: nat, kind: EventType)

  datatype Watchdog = Watchdog(
    mode: Mode, lastAction: Option<string>, repeats: nat, pressures: nat, sequence: nat, events: seq<Event>)

  const Initial := Watchdog(Running, None, 0, 0, 0, [])

  function Emit(w: Watchdog, kind: EventType): Watchdog {
    w.(sequence := w.sequence + 1, events := w.events + [Event(w.sequence + 1, kind)])
  }

  predicate Pressured(c: Config, s: Sample) { s.cpu > c.cpuMax || s.memory > c.memoryMax }

  function When(b: bool, r: Reason): seq<Reason> { if b then [r] else [] }

  /** The reasons a sample triggers, given the counters it leads to. */
  function Triggers(c: Config, s: Sample, now: real, repeats: nat, pressures: nat): seq<Reason> {
    When(s.stopRequested, StopRequested)
    + When(!s.traceComplete, TraceIncomplete)
    + When(now - s.heartbeatAt > c.heartbeatTimeout, HeartbeatTimeout)
    + When(repeats as int > c.maxRepeated, ActionRepetition)
    + When(pressures as int >= c.resourceLimit, SustainedPressure)
  }

  datatype Decision = Decision(mode: Mode, reasons: seq<Reason>) | Rejected
  {
    predicate Permits() { Decision? && mode.Running? }
  }

  predicate FromFuture(s: Sample, now: real) {
    s.sampledAt > now + FUTURE_SKEW_SECONDS || s.heartbeatAt > now + FUTURE_SKEW_SECONDS
  }

  function Ingest(c: Config, w: Watchdog, s: Sample, now: real): (Watchdog, Decision) {
    if FromFuture(s, now) then (w, Rejected)
    else if w.mode.Killed? then (w, Decision(Killed, [KillSwitchLatched]))
    else
      var n := w.(lastAction := Some(s.actionId),
                  repeats := if w.lastAction == Some(s.actionId) then w.repeats + 1 else 1,
                  pressures := if Pressured(c, s) then w.pressures + 1 else 0);
      var reasons := Triggers(c, s, now, n.repeats, n.pressures);
      if reasons != [] then (Emit(n.(mode := SafeIdle), SafeIdleEntered(reasons)), Decision(SafeIdle, reasons))
      else if w.mode.SafeIdle? then (n, Decision(SafeIdle, [SafeIdleLatched]))
      else (n, Decision(Running, []))
  }

  function Kill(w: Watchdog): Watchdog { Emit(w.(mode := Killed), KillSwitchTriggered) }

  /** `reset_safe_idle`; refused while actions remain. */
  function Reset(w: Watchdog, residualActions: int): Watchdog {
    if residualActions != 0 then w else Emit(Watchdog(Running, None, 0, 0, w.sequence, w.events), WatchdogReset(w.mode))
  }

  datatype Call = Take(sample: Sample, now: real) | Trigger | Restart(residualActions: int)

  function Step(c: Config, w: Watchdog, call: Call): Watchdog {
    match call
    case Take(s, now) => Ingest(c, w, s, now).0
    case Trigger => Kill(w)
    case Restart(residual) => Reset(w, residual)
  }

  function Run(c: Config, calls: seq<Call>): Watchdog {
    if calls == [] then Initial else Step(c, Run(c, calls[..|calls| - 1]), calls[|calls| - 1])
  }

  // ----------------------------------------------- what the calls say themselves

  /** Whether the kill switch was triggered since the last reset. */
  function KilledSince(calls: seq<Call>): bool {
    if calls == [] then false
    else
      match calls[|calls| - 1]
      case Take(_, _) => KilledSince(calls[..|calls| - 1])
      case Trigger => true
      case Restart(residual) => if residual == 0 then false else KilledSince(calls[..|calls| - 1])
  }

  datatype Taken = Taken(sample: Sample, now: real)

  /** The samples that count: taken since the last reset, not from the future, before any kill. */
  function Since(calls: seq<Call>): seq<Taken> {
    if calls == [] then []
    else
      var before := calls[..|calls| - 1];
      match calls[|calls| - 1]
      case Take(s, now) =>
        if FromFuture(s, now) || KilledSince(before) then Since(before) else Since(before) + [Taken(s, now)]
      case Trigger => Since(before)
      case Restart(residual) => if residual == 0 then [] else Since(before)
  }

  /** How many of the latest samples share the last one's action. */
  function RepeatRun(ts: seq<Taken>): nat {
    if ts == [] then 0
    else
      var before, last := ts[..|ts| - 1], ts[|ts| - 1];
      if before != [] && before[|before| - 1].sample.actionId == last.sample.actionId then RepeatRun(before) + 1 else 1
  }

  /** How many of the latest samples are under pressure without a break. */
  function PressureRun(c: Config, ts: seq<Taken>): nat {
    if ts == [] || !Pressured(c, ts[|ts| - 1].sample) then 0 else PressureRun(c, ts[..|ts| - 1]) + 1
  }

  /** The run lengths are what they say: the longest constant, or pressured, tail. */
  ghost predicate SameActionTail(ts: seq<Taken>, n: nat) {
    && n <= |ts| && (forall i :: |ts| - n <= i < |ts| ==> ts[i].sample.actionId == ts[|ts| - 1].sample.actionId)
    && (n < |ts| ==> n > 0 && ts[|ts| - n - 1].sample.actionId != ts[|ts| - 1].sample.actionId)
  }

  ghost predicate PressuredTail(c: Config, ts: seq<Taken>, n: nat) {
    && n <= |ts| && (forall i :: |ts| - n <= i < |ts| ==> Pressured(c, ts[i].sample))
    && (n < |ts| ==> !Pressured(c, ts[|ts| - n - 1].sample))
  }

  lemma {:induction false} RunsAreTails(c: Config, ts: seq<Taken>)
    ensures SameActionTail(ts, RepeatRun(ts)) && PressuredTail(c, ts, PressureRun(c, ts))
    decreases |ts|
  {
    if ts != [] {
      RunsAreTails(c, ts[..|ts| - 1]);
    }
  }

  /** The `i`-th sample that counts triggered a reason when it came. */
  predicate Triggered(c: Config, ts: seq<Taken>, i: int)
    requires 0 <= i < |ts|
  {
    Triggers(c, ts[i].sample, ts[i].now, RepeatRun(ts[..i + 1]), PressureRun(c, ts[..i + 1])) != []
  }

  ghost predicate Alarmed(c: Config, ts: seq<Taken>) { exists i :: 0 <= i < |ts| && Triggered(c, ts, i) }

  /** The watchdog's state is a function of the samples that count and of the kill switch. */
  ghost predicate Refines(c: Config, w: Watchdog, calls: seq<Call>) {
    var ts := Since(calls);
    && (w.mode.Killed? <==> KilledSince(calls))
    && (!KilledSince(calls) ==> (w.mode.SafeIdle? <==> Alarmed(c, ts)))
    && w.lastAction == (if ts == [] then None else Some(ts[|ts| - 1].sample.actionId))
    && w.repeats == RepeatRun(ts) && w.pressures == PressureRun(c, ts)
  }

  lemma AlarmedAppend(c: Config, ts: seq<Taken>, t: Taken)
    ensures Alarmed(c, ts + [t]) <==> Alarmed(c, ts) || Triggered(c, ts + [t], |ts|)
  {
    var more := ts + [t];
    forall i | 0 <= i < |ts|
      ensures Triggered(c, more, i) == Triggered(c, ts, i)
    {
      assert more[..i + 1] == ts[..i + 1];
    }
    if Alarmed(c, ts) {
      var i :| 0 <= i < |ts| && Triggered(c, ts, i);
      assert Triggered(c, more, i);
    }
  }

  lemma RunsNext(c: Config, ts: seq<Taken>, t: Taken)
    ensures var more := ts + [t];
            && RepeatRun(more) == (if ts != [] && ts[|ts| - 1].sample.actionId == t.sample.actionId
                                   then RepeatRun(ts) + 1 else 1)
            && PressureRun(c, more) == (if Pressured(c, t.sample) then PressureRun(c, ts) + 1 else 0)
            && Triggered(c, more, |ts|)
               == (Triggers(c, t.sample, t.now, RepeatRun(more), PressureRun(c, more)) != [])
  {
    assert (ts + [t])[..|ts|] == ts && (ts + [t])[..|ts| + 1] == ts + [t];
    hide Triggers, Pressured;
  }

  lemma TakenNext(calls: seq<Call>, s: Sample, now: real)
    ensures var more := calls + [Take(s, now)];
            && KilledSince(more) == KilledSince(calls)
            && Since(more) == if FromFuture(s, now) || KilledSince(calls) then Since(calls)
                              else Since(calls) + [Taken(s, now)]
  {
    assert (calls + [Take(s, now)])[..|calls|] == calls;
    hide FromFuture;
  }

  lemma TakeRefines(c: Config, w: Watchdog, calls: seq<Call>, s: Sample, now: real)
    requires Refines(c, w, calls)
    ensures Refines(c, Ingest(c, w, s, now).0, calls + [Take(s, now)])
  {
    TakenNext(calls, s, now);
    if !FromFuture(s, now) && !KilledSince(calls) {
      var ts := Since(calls);
      var t := Taken(s, now);
      RunsNext(c, ts, t);
      AlarmedAppend(c, ts, t);
    }
    hide Alarmed, Triggered, Triggers, RepeatRun, PressureRun, Pressured, FromFuture, Since, KilledSince;
  }

  lemma {:induction false} RunRefines(c: Config, calls: seq<Call>)
    ensures Refines(c, Run(c, calls), calls)
    decreases |calls|
  {
    if calls != [] {
      var before, call := calls[..|calls| - 1], calls[|calls| - 1];
      assert calls == before + [call];
      RunRefines(c, before);
      if call.Take? {
        TakeRefines(c, Run(c, before), before, call.sample, call.now);
      }
    }
  }

  /** Over every run the counters are the lengths of the trailing runs of equal actions and of pressured samples,
      among the samples taken since the last reset and before any kill. */
  lemma CountersAreTrailingRuns(c: Config, calls: seq<Call>)
    ensures SameActionTail(Since(calls), Run(c, calls).repeats)
    ensures PressuredTail(c, Since(calls), Run(c, calls).pressures)
  {
    RunRefines(c, calls);
    RunsAreTails(c, Since(calls));
  }

  /** A decision permits execution exactly when its sample is not from the future, no kill happened since the last
      reset, and neither this sample nor any that counted before triggered a reason. */
  lemma PermitsIff(c: Config, calls: seq<Call>, s: Sample, now: real)
    ensures Ingest(c, Run(c, calls), s, now).1.Permits() <==>
            && !FromFuture(s, now) && !KilledSince(calls) && !Alarmed(c, Since(calls) + [Taken(s, now)])
  {
    RunRefines(c, calls);
    var w, ts := Run(c, calls), Since(calls);
    TakeRefines(c, w, calls, s, now);
    assert (calls + [Take(s, now)])[..|calls|] == calls;
    if !FromFuture(s, now) && !KilledSince(calls) {
      assert Since(calls + [Take(s, now)]) == ts + [Taken(s, now)];
    }
    hide Alarmed;
  }

  // ------------------------------------------- why a sample stops the loop

  /** The latest `n` samples are all of the last one's action. */
  predicate LatestRepeat(ts: seq<Taken>, n: int) {
    1 <= n <= |ts| && forall i :: |ts| - n <= i < |ts| ==> ts[i].sample.actionId == ts[|ts| - 1].sample.actionId
  }

  /** The latest `n` samples all exceed the processor or the memory limit. */
  predicate LatestPressured(c: Config, ts: seq<Taken>, n: int) {
    && 0 <= n <= |ts|
    && forall i :: |ts| - n <= i < |ts| ==> ts[i].sample.cpu > c.cpuMax || ts[i].sample.memory > c.memoryMax
  }

  /** The reasons for which the last of these samples stops the loop. */
  ghost predicate Gives(c: Config, ts: seq<Taken>, r: Reason)
    requires ts != []
  {
    var t := ts[|ts| - 1];
    match r
    case StopRequested => t.sample.stopRequested
    case TraceIncomplete => !t.sample.traceComplete
    case HeartbeatTimeout => t.now - t.sample.heartbeatAt > c.heartbeatTimeout
    case ActionRepetition => exists n :: n > c.maxRepeated && LatestRepeat(ts, n)
    case SustainedPressure => exists n :: n >= c.resourceLimit && LatestPressured(c, ts, n)
    case _ => false
  }

  lemma RepetitionIff(c: Config, ts: seq<Taken>)
    requires ts != []
    ensures RepeatRun(ts) > c.maxRepeated <==> Gives(c, ts, ActionRepetition)
  {
    RunsAreTails(c, ts);
    var k := RepeatRun(ts);
    assert LatestRepeat(ts, k) by {
      assert k > 0;
    }
    forall n | LatestRepeat(ts, n)
      ensures n <= k
    {
    }
    hide RepeatRun, PressureRun, LatestRepeat;
  }

  lemma PressureIff(c: Config, ts: seq<Taken>)
    requires ts != []
    ensures PressureRun(c, ts) >= c.resourceLimit <==> Gives(c, ts, SustainedPressure)
  {
    RunsAreTails(c, ts);
    var k := PressureRun(c, ts);
    hide PressureRun, RepeatRun;
    assert LatestPressured(c, ts, k);
    forall n | LatestPressured(c, ts, n)
      ensures n <= k
    {
      assert n > k ==> Pressured(c, ts[|ts| - k - 1].sample);
    }
    hide LatestPressured;
  }

  /** The reasons collected are those whose own condition holds. */
  lemma TriggersAre(c: Config, s: Sample, now: real, repeats: nat, pressures: nat, r: Reason)
    ensures r in Triggers(c, s, now, repeats, pressures)
            <==> match r
                 case StopRequested => s.stopRequested
                 case TraceIncomplete => !s.traceComplete
                 case HeartbeatTimeout => now - s.heartbeatAt > c.heartbeatTimeout
                 case ActionRepetition => repeats as int > c.maxRepeated
                 case SustainedPressure => pressures as int >= c.resourceLimit
                 case _ => false
  {
  }

  lemma TriggersIff(c: Config, ts: seq<Taken>, r: Reason)
    requires ts != []
    ensures var t := ts[|ts| - 1];
            r in Triggers(c, t.sample, t.now, RepeatRun(ts), PressureRun(c, ts)) <==> Gives(c, ts, r)
  {
    RepetitionIff(c, ts);
    PressureIff(c, ts);
    var t := ts[|ts| - 1];
    TriggersAre(c, t.sample, t.now, RepeatRun(ts), PressureRun(c, ts), r);
    hide RepeatRun, PressureRun, LatestRepeat, LatestPressured, Triggers;
  }

  ghost predicate GivesSome(c: Config, ts: seq<Taken>)
    requires ts != []
  {
    exists r :: Gives(c, ts, r)
  }

  ghost predicate StopsAt(c: Config, ts: seq<Taken>, i: int)
    requires 0 <= i < |ts|
  {
    GivesSome(c, ts[..i + 1])
  }

  /** Some sample gives a reason to stop. */
  ghost predicate Stops(c: Config, ts: seq<Taken>) { exists i :: 0 <= i < |ts| && StopsAt(c, ts, i) }

  lemma TriggeredIff(c: Config, ts: seq<Taken>, i: int)
    requires 0 <= i < |ts|
    ensures Triggered(c, ts, i) <==> StopsAt(c, ts, i)
  {
    hide Triggers, Gives, RepeatRun, PressureRun;
    var more := ts[..i + 1];
    assert more[|more| - 1] == ts[i];
    ReasonsExactly(c, more);
  }

  lemma AlarmedIff(c: Config, ts: seq<Taken>)
    ensures Alarmed(c, ts) <==> Stops(c, ts)
  {
    hide Triggered, StopsAt;
    forall i | 0 <= i < |ts|
      ensures Triggered(c, ts, i) <==> StopsAt(c, ts, i)
    {
      TriggeredIff(c, ts, i);
    }
  }

  predicate Ahead(s: Sample, now: real) { s.sampledAt - now > 2.0 || s.heartbeatAt - now > 2.0 }

  /** The decision on a sample, after any calls: it is rejected exactly when it is ahead of the clock; it permits
      execution exactly when no kill and no reason to stop has come since the last reset, this sample included; and its
      reasons are this sample's own, or else the latch. */
  lemma DecisionExactly(c: Config, calls: seq<Call>, s: Sample, now: real)
    ensures var d := Ingest(c, Run(c, calls), s, now).1;
            var ts := Since(calls) + [Taken(s, now)];
            && (d.Rejected? <==> Ahead(s, now))
            && (d.Permits() <==> !Ahead(s, now) && !KilledSince(calls) && !Stops(c, ts))
            && (!Ahead(s, now) && KilledSince(calls) ==> d == Decision(Killed, [KillSwitchLatched]))
            && (!Ahead(s, now) && !KilledSince(calls) ==>
                  && (d.mode.SafeIdle? <==> Stops(c, ts)) && (d.mode.Running? <==> !Stops(c, ts))
                  && (forall r :: Gives(c, ts, r) ==> r in d.reasons)
                  && (forall r :: r in d.reasons ==> Gives(c, ts, r) || r == SafeIdleLatched)
                  && (SafeIdleLatched in d.reasons <==> Stops(c, ts) && forall r :: !Gives(c, ts, r)))
  {
    PermitsIff(c, calls, s, now);
    RunRefines(c, calls);
    var w, ts := Run(c, calls), Since(calls) + [Taken(s, now)];
    AlarmedIff(c, ts);
    hide Alarmed, Stops, Since, KilledSince, Run;
    if !Ahead(s, now) && !KilledSince(calls) {
      CountsAreRuns(c, w, calls, s, now);
      ReasonsExactly(c, ts);
      hide Gives, Triggers, RepeatRun, PressureRun;
    }
  }

  lemma ReasonsExactly(c: Config, ts: seq<Taken>)
    requires ts != []
    ensures var t := ts[|ts| - 1];
            var reasons := Triggers(c, t.sample, t.now, RepeatRun(ts), PressureRun(c, ts));
            && (forall r :: r in reasons <==> Gives(c, ts, r))
            && (reasons == [] <==> forall r :: !Gives(c, ts, r))
  {
    var t := ts[|ts| - 1];
    var reasons := Triggers(c, t.sample, t.now, RepeatRun(ts), PressureRun(c, ts));
    forall r
      ensures r in reasons <==> Gives(c, ts, r)
    {
      TriggersIff(c, ts, r);
    }
    hide Triggers, Gives;
    if reasons != [] {
      assert reasons[0] in reasons;
    }
  }

  lemma CountsAreRuns(c: Config, w: Watchdog, calls: seq<Call>, s: Sample, now: real)
    requires Refines(c, w, calls) && !FromFuture(s, now) && !KilledSince(calls)
    ensures var ts := Since(calls) + [Taken(s, now)];
            && RepeatRun(ts) == (if w.lastAction == Some(s.actionId) then w.repeats + 1 else 1)
            && PressureRun(c, ts) == (if Pressured(c, s) then w.pressures + 1 else 0)
  {
    hide Alarmed;
    var ts := Since(calls);
    assert (ts + [Taken(s, now)])[..|ts|] == ts;
  }

  lemma {:induction false} EventsAreGapless(c: Config, calls: seq<Call>)
    ensures var w := Run(c, calls);
            w.sequence == |w.events| && forall i :: 0 <= i < |w.events| ==> w.events[i].sequence == i + 1
    decreases |calls|
  {
    if calls != [] {
      EventsAreGapless(c, calls[..|calls| - 1]);
      hide Triggers;
    }
  }

  class AutonomyWatchdog {
    const config: Config
    var state: Mode
    var lastAction: Option<string>
    var repeatCount: nat
    var resourcePressureCount: nat
    var sequence: nat
    var events: seq<Event>

    ghost function View(): Watchdog
      reads this
    {
      Watchdog(state, lastAction, repeatCount, resourcePressureCount, sequence, events)
    }

    constructor (config: Config)
      ensures View() == Initial && this.config == config
    {
      this.config := config;
      state, lastAction := Running, None;
      repeatCount, resourcePressureCount, sequence := 0, 0, 0;
      events := [];
    }

    method AppendEvent(kind: EventType)
      modifies this`sequence, this`events
      ensures View() == Emit(old(View()), kind)
    {
      sequence := sequence + 1;
      events := events + [Event(sequence, kind)];
    }

    /** The reasons of a sample whose counters are already updated, in their order. */
    method CollectReasons(s: Sample, now: real) returns (reasons: seq<Reason>)
      ensures reasons == Triggers(config, s, now, repeatCount, resourcePressureCount)
    {
      reasons := When(s.stopRequested, StopRequested);
      if !s.traceComplete {
        reasons := reasons + [TraceIncomplete];
      }
      if now - s.heartbeatAt > config.heartbeatTimeout {
        reasons := reasons + [HeartbeatTimeout];
      }
      if repeatCount as int > config.maxRepeated {
        reasons := reasons + [ActionRepetition];
      }
      if resourcePressureCount as int >= config.resourceLimit {
        reasons := reasons + [SustainedPressure];
      }
    }

    method TakeSample(s: Sample, now: real) returns (d: Decision)
      modifies this
      ensures (View(), d) == Ingest(config, old(View()), s, now)
    {
      hide Triggers;
      if FromFuture(s, now) {
        return Rejected;
      }
      if state.Killed? {
        return Decision(Killed, [KillSwitchLatched]);
      }
      if lastAction == Some(s.actionId) {
        repeatCount := repeatCount + 1;
      } else {
        lastAction := Some(s.actionId);
        repeatCount := 1;
      }
      resourcePressureCount := if Pressured(config, s) then resourcePressureCount + 1 else 0;
      var reasons := CollectReasons(s, now);
      if reasons != [] {
        state := SafeIdle;
        AppendEvent(SafeIdleEntered(reasons));
        return Decision(SafeIdle, reasons);
      }
      if state.SafeIdle? {
        return Decision(SafeIdle, [SafeIdleLatched]);
      }
      return Decision(Running, []);
    }

    method TriggerKillSwitch()
      modifies this
      ensures View() == Kill(old(View()))
    {
      state := Killed;
      AppendEvent(KillSwitchTriggered);
    }

    method ResetSafeIdle(residualActions: int) returns (ok: bool)
      modifies this
      ensures View() == Reset(old(View()), residualActions) && ok == (residualActions == 0)
    {
      if residualActions != 0 {
        return false;
      }
      var previous := state;
      state, lastAction := Running, None;
      repeatCount, resourcePressureCount := 0, 0;
      AppendEvent(WatchdogReset(previous));
      return true;
    }
  }
}
