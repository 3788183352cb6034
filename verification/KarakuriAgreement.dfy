/** Callers of one record are told the same, unless a state was exposed; after an exposed state they may not be. */
module KarakuriAgreement {
  import opened Wrappers
  import opened OrderedStore
  import opened KarakuriNotifications
  import opened KarakuriExactlyOnce
  import opened KarakuriOverlap

  predicate SameContent(a: SessionResult, b: SessionResult) {
    a.response == b.response && a.attempts == b.attempts && a.timedOut == b.timedOut && a.error == b.error
  }

  /** What the answers and the futures say is what the record says, and a record in flight says nothing yet. */
  ghost predicate Truthful(s: State) {
    && (forall a :: a in s.answers ==>
          a.ref < |s.records| && s.records[a.ref].result.Some? && SameContent(a.result, s.records[a.ref].result.value))
    && (forall i :: 0 <= i < |s.records| && s.records[i].future.Resolved? ==>
          s.records[i].result == Some(s.records[i].future.value))
    && (forall t :: t in s.tasks && s.tasks[t].Running? && s.tasks[t].ref < |s.records| ==>
          s.records[s.tasks[t].ref].result.None?)
  }

  lemma FinishIsTruthful(s: State, t: nat, result: SessionResult)
    requires Base(s) && Truthful(s) && t in s.tasks && s.tasks[t].Running?
    ensures Truthful(Settle(s, t, result))
  {
    hide Trim, Store.Valid;
    var n := Settle(s, t, result);
    var ref := s.tasks[t].ref;
    assert Retained(s, t);
    forall u | u in n.tasks && n.tasks[u].Running?
      ensures n.tasks[u].ref != ref
    {
      assert Retained(s, u);
      assert Processes(s, u, s.tasks[u].id) && Processes(s, t, s.tasks[t].id);
    }
  }

  lemma ArriveIsTruthful(s: State, t: nat, id: string)
    requires Structured(s) && Truthful(s) && t !in s.tasks
    ensures Truthful(Deliver(s, t, id))
  {
    hide Trim, Store.Valid;
  }

  lemma EndIsTruthful(s: State, step: Step)
    requires Structured(s) && Truthful(s) && Enabled(s, step) && !step.Arrive? && !step.Finish?
    ensures Truthful(Apply(s, step))
  {
    hide Store.Valid;
  }

  lemma StepIsTruthful(s: State, step: Step)
    requires Base(s) && Truthful(s) && Enabled(s, step)
    ensures Truthful(Apply(s, step))
  {
    hide Truthful, Structured, Deliver, Settle;
    match step
    case Arrive(t, id) => ArriveIsTruthful(s, t, id);
    case Finish(t, result) => FinishIsTruthful(s, t, result);
    case _ => EndIsTruthful(s, step);
  }

  lemma {:induction false} RunIsTruthful(s: State, steps: seq<Step>)
    requires Safe(s) && Truthful(s) && WaitersKept(steps)
    ensures Truthful(Run(s, steps))
    decreases |steps|
  {
    hide Base, Exposed, Truthful, Apply;
    if steps != [] {
      if Enabled(s, steps[0]) {
        StepIsSafe(s, steps[0]);
        StepIsTruthful(s, steps[0]);
        RunIsTruthful(Apply(s, steps[0]), steps[1..]);
      } else {
        RunIsTruthful(s, steps[1..]);
      }
    }
  }

  /** Two answers were given for one record, and they differ. */
  ghost predicate Disagree(s: State) {
    exists a, b :: a in s.answers && b in s.answers && a.ref == b.ref && !SameContent(a.result, b.result)
  }

  lemma TruthfulAgree(s: State)
    requires Truthful(s)
    ensures !Disagree(s)
  {
  }

  // ----------------------------------------------------------- who is told what

  /** `r` is what `original` told, to a duplicate. */
  predicate TellsDuplicate(r: SessionResult, original: SessionResult) {
    && r.status == "duplicate" && r.duplicate && r.response == original.response && r.attempts == original.attempts
    && r.timedOut == original.timedOut && r.error == original.error
  }

  /** A notification that arrives is answered at once if its record has a result, waits if the record has none, and is
      processed under a new record if there is none. */
  lemma ArrivalTells(s: State, t: nat, id: string)
    requires Structured(s) && t !in s.tasks
    ensures var n := Apply(s, Arrive(t, id));
            if id in s.table.vals then
              var ref := s.table.vals[id];
              && ref < |s.records|
              && (s.records[ref].result.None? ==> n == s.(tasks := s.tasks[t := Waiting(id, ref)]))
              && (s.records[ref].result.Some? ==>
                    && n == s.(answers := n.answers) && |n.answers| == |s.answers| + 1 && s.answers <= n.answers
                    && n.answers[|s.answers|].ref == ref
                    && TellsDuplicate(n.answers[|s.answers|].result, s.records[ref].result.value))
            else
              && n.answers == s.answers && n.tasks == s.tasks[t := Running(id, |s.records|)]
              && n.records == s.records + [Rec(id, Pending, None)]
  {
    hide Trim, Store.Valid;
  }

  /** A run that finishes is told its own result; a waiter that wakes is told the resolved one, as a duplicate; nobody
      who is cancelled is told anything. */
  lemma StepTells(s: State, step: Step)
    requires Enabled(s, step) && !step.Arrive?
    ensures var n, ref := Apply(s, step), s.tasks[step.t].ref;
            && n.tasks == s.tasks - {step.t}
            && (step.Finish? ==> n.answers == s.answers + [Answer(ref, step.result)])
            && (step.Wake? && s.records[ref].future.Resolved? ==>
                  && |n.answers| == |s.answers| + 1 && s.answers <= n.answers && n.answers[|s.answers|].ref == ref
                  && TellsDuplicate(n.answers[|s.answers|].result, s.records[ref].future.value))
            && (step.Wake? ==> n == s.(answers := n.answers, tasks := n.tasks))
            && (!step.Finish? && !(step.Wake? && s.records[ref].future.Resolved?) ==> n.answers == s.answers)
  {
    hide Trim, Store.Valid;
  }

  /** A task goes only by a step of its own: a run when it finishes, is cancelled or is abandoned, a waiter when its
      future is done or when it is cancelled. Until then it stays as it is. */
  lemma TaskLeaves(s: State, step: Step, t: nat)
    requires Enabled(s, step) && t in s.tasks
    ensures var n, task := Apply(s, step), s.tasks[t];
            && (t in n.tasks ==> n.tasks[t] == task)
            && (t !in n.tasks <==> step.t == t)
            && (t !in n.tasks && task.Running? ==> step.Finish? || step.CancelOwner? || step.Abandon?)
            && (t !in n.tasks && task.Waiting? ==>
                  || step.CancelWaiter?
                  || (step.Wake? && task.ref < |s.records| && s.records[task.ref].future != Pending))
  {
    hide Trim, Store.Valid;
  }

  /** The record `i` is the one the table has for the notification of task `t`. */
  predicate Under(s: State, t: nat, i: nat)
    requires t in s.tasks
  {
    s.tasks[t].id in s.table.vals && s.table.vals[s.tasks[t].id] == i
  }

  /** What a step does to a record: a run that finishes writes its result into the one under its notification and
      resolves its future, a run or a waiter that is cancelled cancels it, each only while it is pending. */
  lemma StepWrites(s: State, step: Step, i: nat)
    requires Enabled(s, step) && i < |s.records|
    ensures var n, r := Apply(s, step), s.records[i];
            var ended := step.Finish? && Under(s, step.t, i);
            var cancelled := if step.CancelOwner? then Under(s, step.t, i)
                             else step.CancelWaiter? && s.tasks[step.t].ref == i;
            && i < |n.records| && n.records[i].id == r.id
            && n.records[i].result == (if ended then Some(step.result) else r.result)
            && n.records[i].future == if r.future != Pending then r.future
                                      else if ended then Resolved(step.result)
                                      else if cancelled then Cancelled else Pending
  {
    hide Trim, Store.Valid;
  }

  /** A future that is done stays as it is, in every run: nobody is told something else later. */
  lemma {:induction false} FuturesAreFinal(s: State, steps: seq<Step>, i: nat)
    requires i < |s.records| && s.records[i].future != Pending
    ensures i < |Run(s, steps).records| && Run(s, steps).records[i].future == s.records[i].future
    decreases |steps|
  {
    hide Apply;
    if steps != [] {
      if Enabled(s, steps[0]) {
        StepWrites(s, steps[0], i);
        FuturesAreFinal(Apply(s, steps[0]), steps[1..], i);
      } else {
        FuturesAreFinal(s, steps[1..], i);
      }
    }
  }

  // ---------------------------------------------------- up to an exposed state

  /** No state before the last one is exposed; waiters may be cancelled. */
  ghost predicate Sheltered(s: State, steps: seq<Step>)
    decreases |steps|
  {
    steps != [] ==> !Exposed(s) && Sheltered(if Enabled(s, steps[0]) then Apply(s, steps[0]) else s, steps[1..])
  }

  lemma {:induction false} ShelteredIsTruthful(s: State, steps: seq<Step>)
    requires Base(s) && Truthful(s) && Sheltered(s, steps)
    ensures Base(Run(s, steps)) && Truthful(Run(s, steps))
    decreases |steps|
  {
    hide Base, Exposed, Truthful, Apply;
    if steps != [] {
      assert Safe(s);
      if Enabled(s, steps[0]) {
        StepFromSafe(s, steps[0]);
        StepIsTruthful(s, steps[0]);
        ShelteredIsTruthful(Apply(s, steps[0]), steps[1..]);
      } else {
        ShelteredIsTruthful(s, steps[1..]);
      }
    }
  }

  /** In every run up to and including its first exposed state, cancelled waiters included, all answers for one
      record carry the same response, attempts, timeout flag and error. */
  lemma CallersAgree(max: nat, steps: seq<Step>)
    requires Sheltered(Initial(max), steps)
    ensures !Disagree(Run(Initial(max), steps))
  {
    InitialIsSafe(max);
    ShelteredIsTruthful(Initial(max), steps);
    TruthfulAgree(Run(Initial(max), steps));
  }

  /** A run in which no waiter is cancelled has no exposed state at all. */
  lemma {:induction false} KeptWaitersShelter(s: State, steps: seq<Step>)
    requires Safe(s) && WaitersKept(steps)
    ensures Sheltered(s, steps)
    decreases |steps|
  {
    hide Base, Exposed, Apply;
    if steps != [] {
      if Enabled(s, steps[0]) {
        StepIsSafe(s, steps[0]);
        KeptWaitersShelter(Apply(s, steps[0]), steps[1..]);
      } else {
        KeptWaitersShelter(s, steps[1..]);
      }
    }
  }

  // --------------------------------------------------- after an exposed state

  /** What two runs of one notification may return. */
  function Told(text: string): SessionResult { SessionResult("responded", text, 1, false, false, None) }

  /** The steps that tell two callers of the second run's record different things: the second run starts, a
      duplicate waits for it, the first run settles its record, the duplicate is told, the second run returns. */
  function TellTwice(t: nat, u: nat, w: nat, id: string): seq<Step> {
    [Arrive(u, id)] + ([Arrive(w, id)] + ([Finish(t, Told("first"))] + ([Wake(w)] + [Finish(u, Told("second"))])))
  }

  lemma TellsTwice(s: State, t: nat, u: nat, w: nat, id: string)
    requires Evicted(s, t, id) && u !in s.tasks && w !in s.tasks && u != w
    ensures Disagree(Run(s, TellTwice(t, u, w, id)))
  {
    hide Trim, Store.Valid;
    var r := |s.records|;
    NewcomerInTable(s, u, id);
    var s1 := Apply(s, Arrive(u, id));
    assert s1.tasks == s.tasks[u := Running(id, r)] && s1.records[r] == Rec(id, Pending, None);
    var s2 := Apply(s1, Arrive(w, id));
    assert s2 == s1.(tasks := s1.tasks[w := Waiting(id, r)]);
    var s3 := Apply(s2, Finish(t, Told("first")));
    assert s3.records[r] == Rec(id, Resolved(Told("first")), Some(Told("first"))) && s3.tasks == s2.tasks - {t};
    var s4 := Apply(s3, Wake(w));
    assert s4.answers == s3.answers + [Answer(r, DuplicateOf(Told("first")))] && s4.tasks == s3.tasks - {w};
    var s5 := Apply(s4, Finish(u, Told("second")));
    assert s5.answers == s4.answers + [Answer(r, Told("second"))];
    assert Answer(r, DuplicateOf(Told("first"))) in s5.answers && Answer(r, Told("second")) in s5.answers;
    RunFive(s, s1, s2, s3, s4, s5, t, u, w, id);
  }

  lemma RunFive(s: State, s1: State, s2: State, s3: State, s4: State, s5: State, t: nat, u: nat, w: nat, id: string)
    requires Enabled(s, Arrive(u, id)) && s1 == Apply(s, Arrive(u, id))
    requires Enabled(s1, Arrive(w, id)) && s2 == Apply(s1, Arrive(w, id))
    requires Enabled(s2, Finish(t, Told("first"))) && s3 == Apply(s2, Finish(t, Told("first")))
    requires Enabled(s3, Wake(w)) && s4 == Apply(s3, Wake(w))
    requires Enabled(s4, Finish(u, Told("second"))) && s5 == Apply(s4, Finish(u, Told("second")))
    ensures Run(s, TellTwice(t, u, w, id)) == s5
  {
    hide Apply, Enabled;
    RunStep(s, Arrive(u, id), TellTwice(t, u, w, id)[1..]);
    RunStep(s1, Arrive(w, id), TellTwice(t, u, w, id)[2..]);
    RunStep(s2, Finish(t, Told("first")), [Wake(w)] + [Finish(u, Told("second"))]);
    RunStep(s3, Wake(w), [Finish(u, Told("second"))]);
    RunStep(s4, Finish(u, Told("second")), []);
    assert [Finish(u, Told("second"))] == [Finish(u, Told("second"))] + [];
  }

  /** From an exactly-once state two callers of one record can come to be told different things, without another
      waiter being cancelled, exactly when the state is exposed. */
  lemma CallersAgreeIff(s: State)
    requires Base(s) && Truthful(s)
    ensures (exists steps :: WaitersKept(steps) && Disagree(Run(s, steps))) <==> Exposed(s)
  {
    if Exposed(s) {
      var steps := ExposedDisagrees(s);
    } else {
      forall steps | WaitersKept(steps)
        ensures !Disagree(Run(s, steps))
      {
        RunIsTruthful(s, steps);
        TruthfulAgree(Run(s, steps));
      }
    }
  }

  lemma ExposedDisagrees(s: State) returns (steps: seq<Step>)
    requires Structured(s) && Exposed(s)
    ensures WaitersKept(steps) && Disagree(Run(s, steps))
  {
    var first, t, id := ExposedRuns(s);
    var n := Run(s, first);
    var u := FreshNat(n.tasks.Keys);
    var told := TellTwice(t, u, u + 1, id);
    TellsTwice(n, t, u, u + 1, id);
    assert WaitersKept(told);
    hide TellTwice, Evicted, Disagree, WaitersKept, Structured, Exposed;
    RunAppend(s, first, told);
    KeptAppend(first, told);
    steps := first + told;
  }

  /** The failing case, for every table size: after one notification and one cancelled duplicate of it, two callers
      of one record are told different things. */
  lemma CancelledWaiterMisleads(max: nat, id: string)
    ensures exists steps :: WaitersKept(steps) && Disagree(Run(Initial(max), CancelledDuplicate(id) + steps))
  {
    CancelledWaiterExposes(max, id);
    var s := Run(Initial(max), CancelledDuplicate(id));
    var steps := ExposedDisagrees(s);
    RunAppend(Initial(max), CancelledDuplicate(id), steps);
  }
}
