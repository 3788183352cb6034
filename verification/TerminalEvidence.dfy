/** When a command counts as finished: which native event speaks for it, how the
    event-before-live-state race is settled, and what feedback may conclude. */
module TerminalEvidence {
  import opened Wrappers

  const TIME_EPSILON := 0.000000001
  const TERMINAL_SETTLE_MAX_POLLS := 8

  const NON_TERMINAL_STATUSES := {"sent", "accepted", "queued", "running"}
  const STOPPED_STATUSES := {"interrupted", "stopped", "cancelled"}
  const ENDED_STATUSES := {"completed", "failed", "unhandled"}

  /** `normalized` is the status trimmed and in lower case; `receivedAt` is absent when it is not a
      finite number; `ok` says the event's flag is exactly true. */
  datatype NativeEvent = NativeEvent(
    commandId: string,
    status: string,
    normalized: string,
    ok: bool,
    receivedAt: Option<real>,
    correlationId: Option<string>)

  /** What an event must match: the command, its acceptance time (once accepted) and its navigation. */
  datatype Epoch = Epoch(commandId: string, acceptedAt: Option<real>, navigationId: string)

  function EventsOf(payload: seq<NativeEvent>, commandId: string): (items: seq<NativeEvent>)
    ensures forall e :: e in items <==> e in payload && e.commandId == commandId
  {
    if payload == [] then []
    else
      (if payload[0].commandId == commandId then [payload[0]] else []) + EventsOf(payload[1..], commandId)
  }

  predicate Attributable(e: NativeEvent, epoch: Epoch) {
    && epoch.acceptedAt.Some? && e.receivedAt.Some?
    && e.receivedAt.value + TIME_EPSILON >= epoch.acceptedAt.value
    && (e.correlationId.Some? ==> e.correlationId.value == epoch.navigationId)
  }

  /** `items[i]` is the lexicographic maximum of (receivedAt, index) over the attributable items. */
  ghost predicate IsNewest(items: seq<NativeEvent>, epoch: Epoch, i: int) {
    && 0 <= i < |items| && Attributable(items[i], epoch)
    && forall j :: 0 <= j < |items| && Attributable(items[j], epoch) ==>
         || items[j].receivedAt.value < items[i].receivedAt.value
         || (items[j].receivedAt.value == items[i].receivedAt.value && j <= i)
  }

  /** The index the adapter's scan ends with over the first items. */
  function NewestIndex(items: seq<NativeEvent>, epoch: Epoch): (i: Option<int>)
    ensures i.Some? ==> 0 <= i.value < |items| && Attributable(items[i.value], epoch)
  {
    if items == [] then None
    else
      var n := |items| - 1;
      var before := NewestIndex(items[..n], epoch);
      if !Attributable(items[n], epoch) then before
      else if before.None? || items[n].receivedAt.value >= items[before.value].receivedAt.value then Some(n)
      else before
  }

  function Newest(payload: seq<NativeEvent>, epoch: Epoch): Option<NativeEvent> {
    var items := EventsOf(payload, epoch.commandId);
    match NewestIndex(items, epoch)
    case None => None
    case Some(i) => Some(items[i])
  }

  /** The scan finds the newest attributable event, and nothing only when there is none. */
  lemma {:induction false} NewestIsMaximum(items: seq<NativeEvent>, epoch: Epoch)
    ensures var i := NewestIndex(items, epoch);
            && (i.Some? ==> IsNewest(items, epoch, i.value))
            && (i.None? <==> forall j :: 0 <= j < |items| ==> !Attributable(items[j], epoch))
  {
    if items != [] {
      var n := |items| - 1;
      NewestIsMaximum(items[..n], epoch);
      assert forall j :: 0 <= j < n ==> items[..n][j] == items[j];
    }
  }

  /** A command that was never accepted has no evidence, whatever the history holds. */
  lemma NoEvidenceBeforeAcceptance(payload: seq<NativeEvent>, epoch: Epoch)
    requires epoch.acceptedAt.None?
    ensures Newest(payload, epoch).None?
  {
    NewestIsMaximum(EventsOf(payload, epoch.commandId), epoch);
  }

  lemma NewestIndexNext(items: seq<NativeEvent>, epoch: Epoch, n: int)
    requires 0 <= n < |items|
    ensures var before := NewestIndex(items[..n], epoch);
            NewestIndex(items[..n + 1], epoch) ==
            if !Attributable(items[n], epoch) then before
            else if before.None? || items[n].receivedAt.value >= items[before.value].receivedAt.value then Some(n)
            else before
  {
    assert items[..n + 1][..n] == items[..n];
  }

  /** `_current_command_event`: the forward scan with its running best key. */
  method CurrentCommandEvent(payload: seq<NativeEvent>, epoch: Epoch) returns (newest: Option<NativeEvent>)
    ensures newest == Newest(payload, epoch)
  {
    newest := None;
    if epoch.acceptedAt.None? {
      NoEvidenceBeforeAcceptance(payload, epoch);
      return;
    }
    var items := EventsOf(payload, epoch.commandId);
    var newestAt, newestIndex := 0.0, -1;
    for index := 0 to |items|
      invariant var best := NewestIndex(items[..index], epoch);
                if best.None? then newest == None && newestIndex == -1
                else newest == Some(items[best.value]) && newestIndex == best.value
                     && items[best.value].receivedAt == Some(newestAt)
    {
      var event := items[index];
      NewestIndexNext(items, epoch, index);
      if event.receivedAt.None? {
        continue;
      }
      var receivedAt := event.receivedAt.value;
      if receivedAt + TIME_EPSILON < epoch.acceptedAt.value {
        continue;
      }
      if event.correlationId.Some? && event.correlationId.value != epoch.navigationId {
        continue;
      }
      if newestIndex == -1 || receivedAt > newestAt || (receivedAt == newestAt && index > newestIndex) {
        newest, newestAt, newestIndex := Some(event), receivedAt, index;
      }
    }
    assert items[..|items|] == items;
  }

  // ---------------------------------------------------- settling the live state

  /** One look at the world: which command owns motion, whether a route runs, and the results list. */
  datatype Observation = Observation(activeCommand: Option<string>, routeActive: bool, payload: seq<NativeEvent>)

  function TerminalOf(payload: seq<NativeEvent>, epoch: Epoch): Option<NativeEvent> {
    var e := Newest(payload, epoch);
    if e.Some? && e.value.normalized in NON_TERMINAL_STATUSES then None else e
  }

  predicate MotionActive(o: Observation, epoch: Epoch) {
    o.activeCommand == Some(epoch.commandId) || o.routeActive
  }

  /** Command id, status, flag and time of a terminal event. */
  datatype Signature = Signature(commandId: string, status: string, ok: bool, receivedAt: Option<real>)

  function SignatureOf(e: NativeEvent): Signature {
    Signature(e.commandId, e.normalized, e.ok, e.receivedAt)
  }

  /** What one settling poll meets: the budget is spent, the bridge fails, the snapshot is malformed
      (which escapes as a contract error), or a fresh observation. */
  datatype Poll = Expired | Failed | Malformed | Fresh(observation: Observation)

  datatype SettleError = TelemetryMalformed

  function SettleFrom(initial: Observation, epoch: Epoch, polls: seq<Poll>, inactive: Option<Signature>)
    : Result<Observation, SettleError>
  {
    if polls == [] then Success(initial)
    else
      match polls[0]
      case Expired => Success(initial)
      case Failed => Success(initial)
      case Malformed => Failure(TelemetryMalformed)
      case Fresh(o) =>
        var terminal := TerminalOf(o.payload, epoch);
        if terminal.None? then Success(o)
        else if MotionActive(o, epoch) then SettleFrom(initial, epoch, polls[1..], None)
        else if inactive == Some(SignatureOf(terminal.value)) then Success(o)
        else SettleFrom(initial, epoch, polls[1..], Some(SignatureOf(terminal.value)))
  }

  predicate NeedsSettling(initial: Observation, epoch: Epoch, budget: real) {
    TerminalOf(initial.payload, epoch).Some? && MotionActive(initial, epoch) && budget > 0.0
  }

  function Settled(initial: Observation, epoch: Epoch, budget: real, polls: seq<Poll>)
    : Result<Observation, SettleError>
  {
    if NeedsSettling(initial, epoch, budget) then SettleFrom(initial, epoch, polls, None) else Success(initial)
  }

  /** `_settle_terminal_live_state`; `polls` is what each of the at most eight polls would meet. */
  method SettleTerminalLiveState(initial: Observation, epoch: Epoch, budget: real, polls: seq<Poll>)
    returns (r: Result<Observation, SettleError>)
    requires |polls| == TERMINAL_SETTLE_MAX_POLLS
    ensures r == Settled(initial, epoch, budget, polls)
  {
    var terminal := TerminalOf(initial.payload, epoch);
    if terminal.None? || !MotionActive(initial, epoch) || budget <= 0.0 {
      return Success(initial);
    }
    var inactive: Option<Signature> := None;
    for n := 0 to TERMINAL_SETTLE_MAX_POLLS
      invariant SettleFrom(initial, epoch, polls[n..], inactive) == Settled(initial, epoch, budget, polls)
    {
      match polls[n] {
        case Expired => break;
        case Failed => break;
        case Malformed => return Failure(TelemetryMalformed);
        case Fresh(o) =>
          var ending := TerminalOf(o.payload, epoch);
          if ending.None? {
            return Success(o);
          }
          if MotionActive(o, epoch) {
            inactive := None;
            continue;
          }
          if inactive == Some(SignatureOf(ending.value)) {
            return Success(o);
          }
          inactive := Some(SignatureOf(ending.value));
      }
    }
    return Success(initial);
  }

  ghost predicate InactiveWith(p: Poll, epoch: Epoch, signature: Signature) {
    && p.Fresh? && !MotionActive(p.observation, epoch)
    && var terminal := TerminalOf(p.observation.payload, epoch);
       terminal.Some? && SignatureOf(terminal.value) == signature
  }

  /** Poll `n` yields `o`: either it carries no terminal evidence, or it is inactive and so was its
      predecessor, with the same terminal signature. Every poll up to `n` was a fresh observation. */
  ghost predicate YieldedAt(epoch: Epoch, polls: seq<Poll>, inactive: Option<Signature>, o: Observation, n: int) {
    && 0 <= n < |polls| && polls[n] == Fresh(o) && (forall i :: 0 <= i < n ==> polls[i].Fresh?)
    && var terminal := TerminalOf(o.payload, epoch);
       terminal.Some? ==>
         var s := SignatureOf(terminal.value);
         && InactiveWith(polls[n], epoch, s)
         && if n == 0 then inactive == Some(s) else InactiveWith(polls[n - 1], epoch, s)
  }

  lemma {:induction false} SettleFromYields(initial: Observation, epoch: Epoch, polls: seq<Poll>,
                                            inactive: Option<Signature>)
    ensures var r := SettleFrom(initial, epoch, polls, inactive);
            r.Success? && r.value != initial ==>
              exists n :: YieldedAt(epoch, polls, inactive, r.value, n)
  {
    var r := SettleFrom(initial, epoch, polls, inactive);
    if polls != [] && polls[0].Fresh? && r.Success? && r.value != initial {
      var first := polls[0].observation;
      var terminal := TerminalOf(first.payload, epoch);
      if terminal.None? || (!MotionActive(first, epoch) && inactive == Some(SignatureOf(terminal.value))) {
        assert YieldedAt(epoch, polls, inactive, r.value, 0);
      } else {
        var next := if MotionActive(first, epoch) then None else Some(SignatureOf(terminal.value));
        SettleFromYields(initial, epoch, polls[1..], next);
        var n :| YieldedAt(epoch, polls[1..], next, r.value, n);
        forall i | 0 <= i < n + 1
          ensures polls[i].Fresh?
        {
          if i > 0 {
            assert polls[i] == polls[1..][i - 1];
          }
        }
        assert YieldedAt(epoch, polls, inactive, r.value, n + 1);
      }
    }
  }

  /** Settling replaces an active-with-terminal observation by an inactive-with-terminal one only after
      two consecutive inactive polls with the same signature. */
  lemma SettledNeedsTwoInactivePolls(initial: Observation, epoch: Epoch, budget: real, polls: seq<Poll>)
    requires NeedsSettling(initial, epoch, budget)
    ensures var r := Settled(initial, epoch, budget, polls);
            r.Success? && TerminalOf(r.value.payload, epoch).Some? && !MotionActive(r.value, epoch) ==>
              exists n :: 1 <= n < |polls| && polls[n] == Fresh(r.value)
                && var s := SignatureOf(TerminalOf(r.value.payload, epoch).value);
                   InactiveWith(polls[n - 1], epoch, s) && InactiveWith(polls[n], epoch, s)
  {
    var r := Settled(initial, epoch, budget, polls);
    if r.Success? && TerminalOf(r.value.payload, epoch).Some? && !MotionActive(r.value, epoch) {
      SettleFromYields(initial, epoch, polls, None);
      var n :| YieldedAt(epoch, polls, None, r.value, n);
      assert n >= 1;
    }
  }

  // ------------------------------------------- what counts, read off the payload

  /** An event of the command, received no earlier than its acceptance, and of its navigation if it names one. */
  predicate SpeaksFor(e: NativeEvent, epoch: Epoch) {
    && e.commandId == epoch.commandId && epoch.acceptedAt.Some? && e.receivedAt.Some?
    && epoch.acceptedAt.value - e.receivedAt.value <= 0.000000001
    && (e.correlationId == None || e.correlationId == Some(epoch.navigationId))
  }

  /** The latest of them; of two received at the same time, the later in the list. */
  ghost predicate LatestAt(payload: seq<NativeEvent>, epoch: Epoch, i: int) {
    && 0 <= i < |payload| && SpeaksFor(payload[i], epoch)
    && forall j :: 0 <= j < |payload| && SpeaksFor(payload[j], epoch) && j != i ==>
         || payload[j].receivedAt.value < payload[i].receivedAt.value
         || (payload[j].receivedAt.value == payload[i].receivedAt.value && j < i)
  }

  /** It says that the motion has ended. */
  ghost predicate EndsAt(payload: seq<NativeEvent>, epoch: Epoch, i: int) {
    && LatestAt(payload, epoch, i)
    && payload[i].normalized != "sent" && payload[i].normalized != "accepted"
    && payload[i].normalized != "queued" && payload[i].normalized != "running"
  }

  lemma EventsFirst(payload: seq<NativeEvent>, commandId: string)
    requires payload != []
    ensures EventsOf(payload, commandId)
            == (if payload[0].commandId == commandId then [payload[0]] else []) + EventsOf(payload[1..], commandId)
  {
  }

  lemma {:induction false} EventsAppend(payload: seq<NativeEvent>, e: NativeEvent, commandId: string)
    ensures EventsOf(payload + [e], commandId)
            == EventsOf(payload, commandId) + if e.commandId == commandId then [e] else []
    decreases |payload|
  {
    EventsFirst(payload + [e], commandId);
    if payload == [] {
      assert [e][1..] == [];
    } else {
      EventsFirst(payload, commandId);
      EventsAppend(payload[1..], e, commandId);
      hide EventsOf;
      assert (payload + [e])[1..] == payload[1..] + [e];
      var first := if payload[0].commandId == commandId then [payload[0]] else [];
      var last := if e.commandId == commandId then [e] else [];
      assert first + (EventsOf(payload[1..], commandId) + last) == (first + EventsOf(payload[1..], commandId)) + last;
    }
  }

  lemma NewestSpeaks(payload: seq<NativeEvent>, epoch: Epoch)
    ensures Newest(payload, epoch).Some? ==> SpeaksFor(Newest(payload, epoch).value, epoch)
  {
    var items := EventsOf(payload, epoch.commandId);
    var i := NewestIndex(items, epoch);
    if i.Some? {
      assert items[i.value] in items;
    }
  }

  /** One more event replaces the newest if it speaks for the command and is not older. */
  lemma NewestAppend(payload: seq<NativeEvent>, e: NativeEvent, epoch: Epoch)
    ensures var before := Newest(payload, epoch);
            && (before.Some? ==> SpeaksFor(before.value, epoch))
            && Newest(payload + [e], epoch) ==
               if SpeaksFor(e, epoch) && (before.None? || e.receivedAt.value >= before.value.receivedAt.value)
               then Some(e) else before
  {
    NewestSpeaks(payload, epoch);
    EventsAppend(payload, e, epoch.commandId);
    hide EventsOf;
    var items := EventsOf(payload, epoch.commandId);
    if e.commandId == epoch.commandId {
      var more := items + [e];
      assert more[..|items|] == items && more[|items|] == e;
      assert SpeaksFor(e, epoch) == Attributable(e, epoch);
      hide Attributable, SpeaksFor;
      assert EventsOf(payload + [e], epoch.commandId) == more;
    } else {
      assert items + [] == items;
    }
  }

  /** The scan returns exactly the latest event that speaks for the command. */
  lemma {:induction false} NewestIsLatest(payload: seq<NativeEvent>, epoch: Epoch)
    ensures var newest := Newest(payload, epoch);
            && (newest.Some? <==> exists i :: LatestAt(payload, epoch, i))
            && (forall i :: LatestAt(payload, epoch, i) ==> newest == Some(payload[i]))
            && (newest.None? <==> forall i :: 0 <= i < |payload| ==> !SpeaksFor(payload[i], epoch))
    decreases |payload|
  {
    if payload != [] {
      var n := |payload| - 1;
      var before := payload[..n];
      assert payload == before + [payload[n]];
      NewestIsLatest(before, epoch);
      NewestAppend(before, payload[n], epoch);
      hide Newest, SpeaksFor;
      LatestAppend(before, payload[n], epoch);
    }
  }

  lemma LatestAppend(payload: seq<NativeEvent>, e: NativeEvent, epoch: Epoch)
    ensures var more := payload + [e];
            && (forall i :: LatestAt(payload, epoch, i) ==>
                  if SpeaksFor(e, epoch) && e.receivedAt.value >= payload[i].receivedAt.value
                  then LatestAt(more, epoch, |payload|) else LatestAt(more, epoch, i))
            && (SpeaksFor(e, epoch) && (forall i :: 0 <= i < |payload| ==> !SpeaksFor(payload[i], epoch)) ==>
                  LatestAt(more, epoch, |payload|))
  {
  }

  lemma TerminalIsEnding(payload: seq<NativeEvent>, epoch: Epoch)
    ensures TerminalOf(payload, epoch).Some? <==> exists i :: EndsAt(payload, epoch, i)
    ensures forall i :: EndsAt(payload, epoch, i) ==> TerminalOf(payload, epoch) == Some(payload[i])
  {
    NewestIsLatest(payload, epoch);
    hide Newest, SpeaksFor, LatestAt;
    if TerminalOf(payload, epoch).Some? {
      var i :| LatestAt(payload, epoch, i);
      assert EndsAt(payload, epoch, i);
    }
  }

  predicate Idle(o: Observation, epoch: Epoch) { o.activeCommand != Some(epoch.commandId) && !o.routeActive }

  ghost predicate Ends(o: Observation, epoch: Epoch) { exists i :: EndsAt(o.payload, epoch, i) }

  /** Both end with the same event: its status, its flag and its time. */
  ghost predicate SameEnding(a: seq<NativeEvent>, b: seq<NativeEvent>, epoch: Epoch) {
    exists i, j :: EndsAt(a, epoch, i) && EndsAt(b, epoch, j)
      && a[i].normalized == b[j].normalized && a[i].ok == b[j].ok && a[i].receivedAt == b[j].receivedAt
  }

  /** Poll `n` is adopted: it carries no ending, or it is idle and so was the poll before it, with the same ending. */
  ghost predicate Adopts(epoch: Epoch, polls: seq<Poll>, n: int) {
    && 0 <= n < |polls| && polls[n].Fresh?
    && (|| !Ends(polls[n].observation, epoch)
        || (n > 0 && polls[n - 1].Fresh? && Idle(polls[n - 1].observation, epoch) && Idle(polls[n].observation, epoch)
            && SameEnding(polls[n - 1].observation.payload, polls[n].observation.payload, epoch)))
  }

  /** What the loop remembers of the poll before `m`. */
  function Remembered(epoch: Epoch, polls: seq<Poll>, m: nat): Option<Signature>
    requires m <= |polls|
  {
    if m == 0 || !polls[m - 1].Fresh? || MotionActive(polls[m - 1].observation, epoch) then None
    else
      var terminal := TerminalOf(polls[m - 1].observation.payload, epoch);
      if terminal.None? then None else Some(SignatureOf(terminal.value))
  }

  lemma SameEndingIff(a: seq<NativeEvent>, b: seq<NativeEvent>, epoch: Epoch)
    requires TerminalOf(a, epoch).Some? && TerminalOf(b, epoch).Some?
    ensures SameEnding(a, b, epoch) <==>
            SignatureOf(TerminalOf(a, epoch).value) == SignatureOf(TerminalOf(b, epoch).value)
  {
    TerminalIsEnding(a, epoch);
    TerminalIsEnding(b, epoch);
    hide TerminalOf;
    var i :| EndsAt(a, epoch, i);
    var j :| EndsAt(b, epoch, j);
    assert a[i].commandId == b[j].commandId;
    hide EndsAt;
  }

  lemma AdoptsIff(epoch: Epoch, polls: seq<Poll>, n: nat)
    requires n < |polls| && polls[n].Fresh?
    ensures var o := polls[n].observation;
            var terminal := TerminalOf(o.payload, epoch);
            Adopts(epoch, polls, n) <==>
              || terminal.None?
              || (!MotionActive(o, epoch) && Remembered(epoch, polls, n) == Some(SignatureOf(terminal.value)))
  {
    var o := polls[n].observation;
    TerminalIsEnding(o.payload, epoch);
    if n > 0 && polls[n - 1].Fresh? {
      var before := polls[n - 1].observation.payload;
      TerminalIsEnding(before, epoch);
      if TerminalOf(before, epoch).Some? && TerminalOf(o.payload, epoch).Some? {
        SameEndingIff(before, o.payload, epoch);
        hide SameEnding;
      }
    }
    hide TerminalOf, EndsAt, SignatureOf;
  }

  lemma {:induction false} SettlingEndsFrom(initial: Observation, epoch: Epoch, polls: seq<Poll>, m: nat)
    returns (n: nat)
    requires m <= |polls|
    ensures m <= n <= |polls| && (forall i :: m <= i < n ==> polls[i].Fresh? && !Adopts(epoch, polls, i))
    ensures n < |polls| && polls[n].Fresh? ==> Adopts(epoch, polls, n)
    ensures SettleFrom(initial, epoch, polls[m..], Remembered(epoch, polls, m)) ==
            if n == |polls| then Success(initial)
            else match polls[n]
              case Fresh(o) => Success(o)
              case Malformed => Failure(TelemetryMalformed)
              case _ => Success(initial)
    decreases |polls| - m
  {
    n := m;
    if m < |polls| && polls[m].Fresh? {
      assert polls[m..][0] == polls[m] && polls[m..][1..] == polls[m + 1..];
      AdoptsIff(epoch, polls, m);
      hide Adopts, TerminalOf;
      if !Adopts(epoch, polls, m) {
        n := SettlingEndsFrom(initial, epoch, polls, m + 1);
      }
    }
  }

  /** What settling returns, exactly: an observation with an ending and motion, while there is time, is polled until a
      poll is adopted, fails or is malformed, or the polls end; only an adopted poll replaces it. */
  lemma SettledExactly(initial: Observation, epoch: Epoch, budget: real, polls: seq<Poll>) returns (n: nat)
    ensures n <= |polls| && (forall i :: 0 <= i < n ==> polls[i].Fresh? && !Adopts(epoch, polls, i))
    ensures n < |polls| && polls[n].Fresh? ==> Adopts(epoch, polls, n)
    ensures Settled(initial, epoch, budget, polls) ==
            if n == |polls| || !Ends(initial, epoch) || Idle(initial, epoch) || budget <= 0.0 then Success(initial)
            else match polls[n]
              case Fresh(o) => Success(o)
              case Malformed => Failure(TelemetryMalformed)
              case _ => Success(initial)
  {
    TerminalIsEnding(initial.payload, epoch);
    n := SettlingEndsFrom(initial, epoch, polls, 0);
    assert polls[0..] == polls;
    hide TerminalOf, Adopts, SettleFrom;
  }

  // ------------------------------------------------------------ feedback

  datatype FeedbackStatus = Queued | Moving | Blocked | Arrived | Stopped | FailedStatus

  /** The rest of a feedback observation: contact, a blocked route, and whether the reported arrival
      checks out against goal and target. */
  datatype Telemetry = Telemetry(observation: Observation, collision: bool, routeBlocked: bool, arrivalVerified: bool)

  function StatusOf(t: Telemetry, epoch: Epoch, markedStopped: bool): FeedbackStatus {
    var terminal := TerminalOf(t.observation.payload, epoch);
    if terminal.Some? && MotionActive(t.observation, epoch) then Blocked
    else if terminal.Some? && terminal.value.ok && terminal.value.status == "completed" then
      if t.arrivalVerified then Arrived else FailedStatus
    else if terminal.Some? && terminal.value.status in STOPPED_STATUSES then Stopped
    else if terminal.Some? then FailedStatus
    else if t.collision || t.routeBlocked then Blocked
    else if MotionActive(t.observation, epoch) then Moving
    else if markedStopped then Stopped
    else Queued
  }

  predicate Concludes(s: FeedbackStatus) { s.Arrived? || s.Stopped? || s.FailedStatus? }

  /** Feedback concludes exactly on an inactive observation that has terminal evidence, or whose record
      a confirmed stop has already marked (with nothing in the way). */
  lemma FeedbackConcludesIff(t: Telemetry, epoch: Epoch, markedStopped: bool)
    ensures Concludes(StatusOf(t, epoch, markedStopped)) <==>
            && !MotionActive(t.observation, epoch)
            && (|| TerminalOf(t.observation.payload, epoch).Some?
                || (markedStopped && !t.collision && !t.routeBlocked))
    ensures StatusOf(t, epoch, markedStopped).Arrived? ==>
              t.arrivalVerified && TerminalOf(t.observation.payload, epoch).Some?
  {
  }

  // ------------------------------------------------------------ stop evidence

  /** One poll of the stop loop: the stop command's events and the owned command's. */
  function StopConfirmed(o: Observation, stopId: string, commandId: string): bool {
    && (exists e :: e in EventsOf(o.payload, stopId) && e.ok && e.status in {"completed", "stopped"})
    && o.activeCommand != Some(commandId) && !o.routeActive
    && exists e :: e in EventsOf(o.payload, commandId) && (e.status in STOPPED_STATUSES || e.status in ENDED_STATUSES)
  }
}
