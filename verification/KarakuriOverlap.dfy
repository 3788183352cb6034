/** Exactly-once processing fails after exactly the exposed states. */
module KarakuriOverlap {
  import opened Wrappers
  import opened OrderedStore
  import opened KarakuriNotifications
  import opened KarakuriExactlyOnce

  // ------------------------------------------------------- fresh names

  lemma {:induction false} FreshNat(taken: set<nat>) returns (n: nat)
    ensures forall x :: x in taken ==> x < n
    decreases |taken|
  {
    n := 0;
    if taken != {} {
      var x :| x in taken;
      var m := FreshNat(taken - {x});
      n := if m <= x then x + 1 else m;
      assert forall y :: y in taken ==> y == x || y in taken - {x};
    }
  }

  lemma FreshId(taken: set<string>) returns (id: string)
    ensures id !in taken
  {
    var lengths: set<nat> := set x | x in taken :: |x|;
    var n := FreshNat(lengths);
    id := seq(n, i => 'n');
    assert id in taken ==> |id| in lengths;
  }

  // --------------------------------------- driving an exposed state to an overlap

  lemma RunStep(s: State, step: Step, steps: seq<Step>)
    requires Enabled(s, step)
    ensures Run(s, [step] + steps) == Run(Apply(s, step), steps)
  {
    assert ([step] + steps)[1..] == steps;
  }

  lemma RunTwo(s: State, first: Step, second: Step)
    requires Enabled(s, first) && Enabled(Apply(s, first), second)
    ensures Run(s, [first] + [second]) == Apply(Apply(s, first), second)
  {
    hide Apply, Enabled;
    RunStep(s, first, [second]);
    RunStep(Apply(s, first), second, []);
    assert [second] == [second] + [];
  }

  lemma {:induction false} RunAppend(s: State, steps: seq<Step>, more: seq<Step>)
    ensures Run(s, steps + more) == Run(Run(s, steps), more)
    decreases |steps|
  {
    if steps == [] {
      assert [] + more == more;
    } else {
      assert (steps + more)[1..] == steps[1..] + more;
      RunAppend(if Enabled(s, steps[0]) then Apply(s, steps[0]) else s, steps[1..], more);
    }
  }

  /** Notifications arrive and runs finish, and nothing else happens. */
  predicate Ordinary(steps: seq<Step>) { forall i :: 0 <= i < |steps| ==> steps[i].Arrive? || steps[i].Finish? }

  lemma KeptAppend(steps: seq<Step>, more: seq<Step>)
    requires WaitersKept(steps) && WaitersKept(more)
    ensures WaitersKept(steps + more)
  {
  }

  /** `t` processes the notification, whose table entry is gone. */
  ghost predicate Evicted(s: State, t: nat, id: string) {
    Structured(s) && Processes(s, t, id) && !s.table.Has(id)
  }

  /** A processed notification whose record was evicted is processed again when redelivered. */
  lemma Redelivered(s: State, t: nat, id: string) returns (steps: seq<Step>)
    requires Evicted(s, t, id)
    ensures WaitersKept(steps) && Overlap(Run(s, steps))
  {
    var u := FreshNat(s.tasks.Keys);
    steps := [Arrive(u, id)];
    var n := Apply(s, steps[0]);
    RunStep(s, steps[0], []);
    assert steps == [steps[0]] + [] && Run(n, []) == n;
    assert Processes(n, u, id) && Processes(n, t, id);
  }

  /** Processed by `t`, at position `j`, settled, and everything ahead can be settled. */
  ghost predicate ExposedBy(s: State, t: nat, j: int) {
    && Structured(s) && 0 <= j < |s.table.keys| && Processes(s, t, s.table.keys[j])
    && s.Settled(s.table.keys[j]) && Clearable(s, j)
  }

  function Unsettled(s: State, j: int): set<string>
    requires 0 <= j <= |s.table.keys|
  {
    set i | 0 <= i < j && !s.Settled(s.table.keys[i]) :: s.table.keys[i]
  }

  lemma SmallerSet<T>(a: set<T>, b: set<T>, x: T)
    requires a <= b - {x} && x in b
    ensures |a| < |b|
  {
    SubsetSize(a, b - {x});
  }

  lemma {:induction false} SubsetSize<T>(a: set<T>, b: set<T>)
    requires a <= b
    ensures |a| <= |b|
    decreases a
  {
    if a != {} {
      var x :| x in a;
      SubsetSize(a - {x}, b - {x});
    }
  }

  /** The table loses its first `k` keys; what is settled stays settled, and what stays unsettled keeps its task. */
  ghost predicate Advances(s: State, n: State, k: int) {
    && Structured(n) && 0 <= k <= |s.table.keys| && s.table.keys[k..] <= n.table.keys
    && (forall x :: n.table.Has(x) && s.Settled(x) ==> n.Settled(x))
    && (forall t, x :: n.table.Has(x) && Processes(s, t, x) && !n.Settled(x) ==> Processes(n, t, x))
  }

  lemma AdvanceKeepsExposed(s: State, n: State, t: nat, j: int, k: int)
    requires ExposedBy(s, t, j) && Advances(s, n, k) && k <= j && Processes(n, t, s.table.keys[j])
    ensures ExposedBy(n, t, j - k) && n.table.keys[j - k] == s.table.keys[j]
    ensures forall x :: x in Unsettled(n, j - k) ==> x in Unsettled(s, j) && !n.Settled(x)
  {
    var keys := s.table.keys;
    forall i | 0 <= i <= j - k
      ensures n.table.keys[i] == keys[i + k] && n.table.Has(keys[i + k])
    {
      assert n.table.keys[i] == keys[k..][i];
      assert n.table.keys[i] in n.table.keys;
    }
    forall i | 0 <= i < j - k && !n.Settled(n.table.keys[i])
      ensures Owned(n, n.table.keys[i])
    {
      var w :| Processes(s, w, keys[i + k]);
      assert Processes(n, w, keys[i + k]);
    }
  }

  lemma NotKept(table: Store<string, nat>, n: Store<string, nat>, records: seq<Rec>, k: int, j: int)
    requires table.Valid() && Dropped(table, n, records, k) && 0 <= j < k
    ensures !n.Has(table.keys[j])
  {
    forall i | 0 <= i < |n.keys|
      ensures n.keys[i] != table.keys[j]
    {
      assert n.keys[i] == table.keys[i + k];
    }
    assert table.keys[j] !in n.keys;
  }

  ghost const SomeResult := SessionResult("responded", "", 1, false, false, None)

  lemma SettleStructured(s: State, u: nat, result: SessionResult, k: int)
    requires Structured(s) && u in s.tasks && s.tasks[u].Running? && s.InTable(s.tasks[u].id)
    requires Dropped(s.table, Settle(s, u, result).table, Settle(s, u, result).records, k)
    ensures Structured(Settle(s, u, result))
  {
    hide Trim;
    var n := Settle(s, u, result);
    assert forall i :: 0 <= i < |s.records| ==> n.records[i].id == s.records[i].id;
  }

  lemma SettledAfter(s: State, u: nat, result: SessionResult, x: string)
    requires Structured(s) && u in s.tasks && s.tasks[u].Running? && s.InTable(s.tasks[u].id) && s.table.Has(x)
    ensures var n := Settle(s, u, result);
            SettledIn(s.table, n.records, x) <==> s.Settled(x) || x == s.tasks[u].id
  {
    hide Trim;
    assert s.InTable(x);
  }

  lemma SettleAdvances(s: State, u: nat, result: SessionResult) returns (k: nat)
    requires Structured(s) && u in s.tasks && s.tasks[u].Running? && s.table.Has(s.tasks[u].id)
    ensures var n := Settle(s, u, result);
            && Advances(s, n, k) && Dropped(s.table, n.table, n.records, k)
            && (n.table.Has(s.tasks[u].id) ==> n.Settled(s.tasks[u].id))
  {
    hide Trim, Store.Valid;
    var n := Settle(s, u, result);
    var id := s.tasks[u].id;
    assert s.InTable(id) && n.tasks == s.tasks - {u};
    k := TrimDrops(s.table, n.records, s.max);
    SettleStructured(s, u, result, k);
    forall x | n.table.Has(x)
      ensures n.Settled(x) <==> s.Settled(x) || x == id
    {
      SettledAfter(s, u, result, x);
    }
    hide Structured, Settle;
  }

  lemma SettleLeaves(s: State, t: nat, u: nat, x: string)
    requires Processes(s, t, x) && u in s.tasks && (s.tasks[u].id != x || u != t)
    ensures Processes(Settle(s, u, SomeResult), t, x)
  {
    hide Trim;
  }

  /** Settling a record ahead keeps the exposure with less ahead, or evicts the exposed record. */
  lemma SettleAhead(s: State, t: nat, j: int, i: int, u: nat) returns (k: nat)
    requires ExposedBy(s, t, j) && 0 <= i < j && !s.Settled(s.table.keys[i]) && Processes(s, u, s.table.keys[i])
    ensures var n := Settle(s, u, SomeResult);
            && Structured(n) && Processes(n, t, s.table.keys[j])
            && (if k <= j
                then ExposedBy(n, t, j - k) && n.table.keys[j - k] == s.table.keys[j]
                     && |Unsettled(n, j - k)| < |Unsettled(s, j)|
                else !n.table.Has(s.table.keys[j]))
  {
    var n := Settle(s, u, SomeResult);
    var x := s.table.keys[i];
    KeysAreHeld(s.table);
    SettleLeaves(s, t, u, s.table.keys[j]);
    k := SettleAdvances(s, u, SomeResult);
    hide Settle, Store.Valid;
    if k <= j {
      AdvanceKeepsExposed(s, n, t, j, k);
      assert x !in Unsettled(n, j - k);
      SmallerSet(Unsettled(n, j - k), Unsettled(s, j), x);
    } else {
      NotKept(s.table, n.table, n.records, k, j);
    }
  }

  /** Delivering a new notification behind a settled front evicts from it, or fills the table further. */
  lemma DeliverBehind(s: State, t: nat, j: int, u: nat, id: string) returns (k: nat)
    requires ExposedBy(s, t, j) && u !in s.tasks && !s.table.Has(id)
    requires forall i :: 0 <= i < j ==> s.Settled(s.table.keys[i])
    ensures var n := Deliver(s, u, id);
            && Structured(n) && Processes(n, t, s.table.keys[j])
            && (if k <= j
                then ExposedBy(n, t, j - k) && n.table.keys[j - k] == s.table.keys[j] && Unsettled(n, j - k) == {}
                     && (k > 0 || (|n.table.keys| == |s.table.keys| + 1 <= s.max)) && n.max == s.max
                else !n.table.Has(s.table.keys[j]))
  {
    hide Trim;
    var n := Deliver(s, u, id);
    var keys := s.table.keys;
    var put := s.table.Put(id, |s.records|);
    PutValid(s.table, id, |s.records|);
    assert put.keys == keys + [id];
    assert keys[0] in keys && keys[j] in keys;
    assert Unsettled(s, j) == {};
    hide Store.Valid;
    assert SettledIn(put, n.records, keys[0]) && !SettledIn(put, n.records, id);
    k := TrimDrops(put, n.records, s.max);
    assert k <= |keys|;
    assert |n.table.keys| == |keys| + 1 - k;
    NewcomerStructured(s, n, u, id, k);
    assert Processes(n, t, keys[j]) && n.max == s.max;
    hide Deliver;
    if k <= j {
      DeliverAdvances(s, n, u, id, k);
      hide Dropped, Structured;
      AdvanceKeepsExposed(s, n, t, j, k);
    } else {
      NotKept(put, n.table, n.records, k, j);
    }
  }

  lemma DeliverAdvances(s: State, n: State, u: nat, id: string, k: int)
    requires Structured(s) && Structured(n) && u !in s.tasks && !s.table.Has(id) && n == Deliver(s, u, id)
    requires 0 <= k <= |s.table.keys| && Dropped(s.table.Put(id, |s.records|), n.table, n.records, k)
    ensures Advances(s, n, k)
  {
    hide Trim, Store.Valid;
    var put := s.table.Put(id, |s.records|);
    assert put.keys[k..] == s.table.keys[k..] + [id];
    assert n.tasks == s.tasks[u := Running(id, |s.records|)];
    forall x | n.table.Has(x) && x != id
      ensures n.Settled(x) <==> s.Settled(x)
    {
      assert s.InTable(x);
    }
    assert !s.Settled(id);
    hide Structured, Deliver, Dropped;
  }

  /** One step of the drive: it evicts the exposed record, or gets closer to that. */
  lemma DriveOnce(s: State, t: nat, j: int) returns (step: Step, k: nat)
    requires ExposedBy(s, t, j)
    ensures Enabled(s, step) && (step.Arrive? || step.Finish?)
    ensures var n := Apply(s, step);
            && Structured(n) && Processes(n, t, s.table.keys[j])
            && (if k > j then !n.table.Has(s.table.keys[j])
                else
                  && ExposedBy(n, t, j - k) && n.max == s.max
                  && (|| |Unsettled(n, j - k)| < |Unsettled(s, j)|
                      || (|Unsettled(n, j - k)| <= |Unsettled(s, j)|
                          && (k > 0 || |n.table.keys| == |s.table.keys| + 1 <= s.max))))
  {
    if i :| 0 <= i < j && !s.Settled(s.table.keys[i]) {
      var u :| Processes(s, u, s.table.keys[i]);
      step := Finish(u, SomeResult);
      k := SettleAhead(s, t, j, i, u);
    } else {
      var u := FreshNat(s.tasks.Keys);
      var another := FreshId(s.table.vals.Keys);
      assert !s.InTable(another);
      step := Arrive(u, another);
      k := DeliverBehind(s, t, j, u, another);
    }
  }

  lemma OrdinaryStepKeepsTask(s: State, step: Step, t: nat)
    requires Enabled(s, step) && (step.Arrive? || step.Finish?) && t in s.tasks && t in Apply(s, step).tasks
    ensures Apply(s, step).tasks[t] == s.tasks[t]
  {
    hide Trim;
  }

  /** From an exposed state the record is evicted by ordinary steps alone, and the exposed run goes on. */
  lemma {:induction false} ExposedIsEvicted(s: State, t: nat, j: int) returns (steps: seq<Step>)
    requires ExposedBy(s, t, j)
    ensures Ordinary(steps) && Evicted(Run(s, steps), t, s.table.keys[j]) && Run(s, steps).tasks[t] == s.tasks[t]
    decreases |Unsettled(s, j)|, j, if |s.table.keys| <= s.max then s.max - |s.table.keys| else 0
  {
    hide Structured, Clearable, Apply, Enabled;
    var step, k := DriveOnce(s, t, j);
    var n := Apply(s, step);
    OrdinaryStepKeepsTask(s, step, t);
    var rest := [];
    if k <= j {
      rest := ExposedIsEvicted(n, t, j - k);
    } else {
      assert Run(n, []) == n;
    }
    hide ExposedBy, Unsettled, Processes;
    RunStep(s, step, rest);
    steps := [step] + rest;
  }

  lemma ExposedRuns(s: State) returns (steps: seq<Step>, t: nat, id: string)
    requires Structured(s) && Exposed(s)
    ensures WaitersKept(steps) && Evicted(Run(s, steps), t, id)
  {
    var j: int;
    t, j :| t in s.tasks && s.tasks[t].Running? && 0 <= j < |s.table.keys|
            && s.table.keys[j] == s.tasks[t].id && s.Settled(s.table.keys[j]) && Clearable(s, j);
    assert ExposedBy(s, t, j);
    id := s.table.keys[j];
    steps := ExposedIsEvicted(s, t, j);
    assert WaitersKept(steps);
  }

  /** So an exposed state runs into an overlap. */
  lemma ExposedOverlaps(s: State) returns (steps: seq<Step>)
    requires Structured(s) && Exposed(s)
    ensures WaitersKept(steps) && Overlap(Run(s, steps))
  {
    var first, t, id := ExposedRuns(s);
    var more := Redelivered(Run(s, first), t, id);
    RunAppend(s, first, more);
    KeptAppend(first, more);
    steps := first + more;
  }

  /** Without another waiter being cancelled, a state leads to an overlap exactly when it is exposed. */
  lemma ExactlyOnceIff(s: State)
    requires Base(s)
    ensures (exists steps :: WaitersKept(steps) && Overlap(Run(s, steps))) <==> Exposed(s)
  {
    if Exposed(s) {
      var steps := ExposedOverlaps(s);
    } else {
      forall steps | WaitersKept(steps)
        ensures !Overlap(Run(s, steps))
      {
        RunIsSafe(s, steps);
      }
    }
  }

  lemma InitialIsSafe(max: nat)
    ensures Safe(Initial(max))
  {
  }

  /** If no waiter is ever cancelled, no two runs of one notification overlap, and the record of every
      notification in flight stays in the table. */
  lemma ExactlyOnce(max: nat, steps: seq<Step>)
    requires WaitersKept(steps)
    ensures var s := Run(Initial(max), steps);
            !Overlap(s) && forall t :: t in s.tasks && s.tasks[t].Running? ==> Retained(s, t)
  {
    InitialIsSafe(max);
    RunIsSafe(Initial(max), steps);
  }

  /** A notification, a duplicate that waits for it, and the duplicate cancelled. */
  function CancelledDuplicate(id: string): seq<Step> { [Arrive(0, id), Arrive(1, id), CancelWaiter(1)] }

  lemma CancelledDuplicateState(max: nat, id: string)
    ensures Run(Initial(max), CancelledDuplicate(id)) ==
            State(max, Store([id], map[id := 0]), [Rec(id, Cancelled, None)], map[0 := Running(id, 0)], [])
  {
    var first := Apply(Initial(max), Arrive(0, id));
    var rec := Rec(id, Pending, None);
    assert first.table == Store([id], map[id := 0]) by {
      assert [] + [id] == [id];
    }
    assert first == State(max, Store([id], map[id := 0]), [rec], map[0 := Running(id, 0)], []);
    var second := Apply(first, Arrive(1, id));
    assert second == first.(tasks := map[0 := Running(id, 0), 1 := Waiting(id, 0)]);
    var third := Apply(second, CancelWaiter(1));
    assert third == first.(records := [Rec(id, Cancelled, None)]);
    RunStep(Initial(max), Arrive(0, id), [Arrive(1, id), CancelWaiter(1)]);
    RunStep(first, Arrive(1, id), [CancelWaiter(1)]);
    RunStep(second, CancelWaiter(1), []);
    assert CancelledDuplicate(id) == [Arrive(0, id)] + [Arrive(1, id), CancelWaiter(1)];
    assert [Arrive(1, id), CancelWaiter(1)] == [Arrive(1, id)] + [CancelWaiter(1)];
    assert [CancelWaiter(1)] == [CancelWaiter(1)] + [];
    assert Run(third, []) == third;
  }

  /** One cancelled duplicate is enough: it cancels the shared future of the run it waits for. */
  lemma CancelledWaiterExposes(max: nat, id: string)
    ensures var s := Run(Initial(max), CancelledDuplicate(id));
            Base(s) && Exposed(s) && exists steps :: WaitersKept(steps) && Overlap(Run(s, steps))
  {
    CancelledDuplicateState(max, id);
    var s := Run(Initial(max), CancelledDuplicate(id));
    assert s.table.keys[0] == s.tasks[0].id && s.Settled(id) && Clearable(s, 0);
    assert Base(s);
    ExactlyOnceIff(s);
  }

  /** Up to the first exposed state every run, cancelled waiters included, is exactly-once. */
  lemma StepFromSafe(s: State, step: Step)
    requires Safe(s) && Enabled(s, step)
    ensures Base(Apply(s, step))
  {
    if step.CancelWaiter? {
      var n := Apply(s, step);
      assert forall i :: 0 <= i < |s.records| ==> n.records[i].id == s.records[i].id;
      assert forall t, id :: Processes(n, t, id) ==> Processes(s, t, id);
    } else {
      StepIsSafe(s, step);
    }
  }
}
