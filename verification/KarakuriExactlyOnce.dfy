/** When notifications are processed exactly once, and when they are not. */
module KarakuriExactlyOnce {
  import opened OrderedStore
  import opened KarakuriNotifications

  // ------------------------------------------------------------- trimming

  ghost predicate SettledIn(table: Store<string, nat>, records: seq<Rec>, id: string) {
    table.Has(id) && table.Get(id) < |records| && !records[table.Get(id)].future.Pending?
  }

  /** `n` is `table` without its first `k` keys, all of them settled. */
  ghost predicate Dropped(table: Store<string, nat>, n: Store<string, nat>, records: seq<Rec>, k: int) {
    && 0 <= k <= |table.keys| && n.Valid() && n.keys == table.keys[k..]
    && (forall id :: n.Has(id) ==> table.Has(id) && n.Get(id) == table.Get(id))
    && (forall i :: 0 <= i < k ==> SettledIn(table, records, table.keys[i]))
  }

  lemma DroppedOneMore(table: Store<string, nat>, n: Store<string, nat>, records: seq<Rec>, k: int)
    requires table.Valid() && table.keys != [] && Dropped(table.DropOldest(), n, records, k)
    requires SettledIn(table, records, table.keys[0])
    ensures Dropped(table, n, records, k + 1)
  {
    var d := table.DropOldest();
    forall i | 0 <= i < k + 1
      ensures SettledIn(table, records, table.keys[i])
    {
      assert i > 0 ==> d.keys[i - 1] == table.keys[i] && SettledIn(d, records, d.keys[i - 1]);
    }
  }

  ghost predicate InRange(table: Store<string, nat>, records: seq<Rec>) {
    table.Valid() && forall id :: table.Has(id) ==> table.Get(id) < |records|
  }

  /** A trim drops settled records from the front, and stops within the limit or at a record in flight. */
  lemma {:induction false} TrimDrops(table: Store<string, nat>, records: seq<Rec>, max: nat) returns (k: nat)
    requires InRange(table, records)
    ensures Dropped(table, Trim(table, records, max), records, k)
    ensures var n := Trim(table, records, max);
            |n.keys| <= max || (n.Has(n.keys[0]) && !SettledIn(n, records, n.keys[0]))
    ensures |table.keys| <= max ==> k == 0
    ensures |table.keys| > max && SettledIn(table, records, table.keys[0]) ==> k > 0
    decreases |table.keys|
  {
    k := 0;
    if |table.keys| > max {
      assert table.keys[0] in table.keys;
      if SettledIn(table, records, table.keys[0]) {
        var d := table.DropOldest();
        DropOldestValid(table);
        assert forall id :: d.Has(id) ==> table.Has(id) && d.Get(id) == table.Get(id);
        hide Dropped;
        var j := TrimDrops(d, records, max);
        DroppedOneMore(table, Trim(table, records, max), records, j);
        k := j + 1;
      }
    }
  }

  // ---------------------------------------------- unexposed states stay exactly-once

  ghost predicate Safe(s: State) { Base(s) && !Exposed(s) }

  /** `n` keeps the table of `s` but for its first `k` keys, and perhaps adds one unsettled key; no
      notification of `s` gains a task, and those it settles had one. */
  ghost predicate Shrinks(s: State, n: State, k: int) {
    var keys := s.table.keys;
    && 0 <= k <= |keys| && |keys| - k <= |n.table.keys| <= |keys| - k + 1
    && (forall j :: k <= j < |keys| ==> n.table.keys[j - k] == keys[j])
    && (|n.table.keys| == |keys| - k + 1 ==> !n.Settled(n.table.keys[|keys| - k]))
    && (forall i :: 0 <= i < |keys| && (i < k || n.Settled(keys[i])) ==> s.Settled(keys[i]) || Owned(s, keys[i]))
    && (forall i, t :: 0 <= i < |keys| && Processes(n, t, keys[i]) ==> Processes(s, t, keys[i]))
    && (forall i :: 0 <= i < |keys| && Owned(n, keys[i]) && (i < k || n.Settled(keys[i])) ==> s.Settled(keys[i]))
  }

  lemma ExposedAt(s: State, t: nat, j: int)
    requires 0 <= j < |s.table.keys| && Processes(s, t, s.table.keys[j])
    requires s.Settled(s.table.keys[j]) && Clearable(s, j)
    ensures Exposed(s)
  {
  }

  /** Nothing processed is evicted, and nothing becomes exposed. */
  lemma ShrinkingIsSafe(s: State, n: State, k: int)
    requires Safe(s) && Shrinks(s, n, k)
    ensures !Exposed(n)
    ensures forall i :: 0 <= i < k ==> !Owned(n, s.table.keys[i])
  {
    var keys := s.table.keys;
    forall i | 0 <= i < k
      ensures !Owned(n, keys[i])
    {
      if Owned(n, keys[i]) {
        var t :| Processes(n, t, keys[i]);
        ExposedAt(s, t, i);
      }
    }
    if Exposed(n) {
      var t, j :| t in n.tasks && n.tasks[t].Running? && 0 <= j < |n.table.keys|
                  && n.table.keys[j] == n.tasks[t].id && n.Settled(n.table.keys[j]) && Clearable(n, j);
      assert Processes(n, t, n.table.keys[j]);
      assert n.table.keys[j] == keys[j + k];
      forall i | 0 <= i < j + k
        ensures s.Settled(keys[i]) || Owned(s, keys[i])
      {
        if i >= k {
          assert n.table.keys[i - k] == keys[i];
          if Owned(n, keys[i]) {
            var u :| Processes(n, u, keys[i]);
            assert Processes(s, u, keys[i]);
          }
        }
      }
      assert Owned(n, keys[j + k]);
      ExposedAt(s, t, j + k);
    }
  }

  lemma PositionOf(table: Store<string, nat>, id: string) returns (i: nat)
    requires table.Valid() && table.Has(id)
    ensures i < |table.keys| && table.keys[i] == id
  {
    assert id in table.vals.Keys;
    i :| i < |table.keys| && table.keys[i] == id;
  }

  /** A task of both states keeps its record when its key is not among the dropped ones. */
  lemma StillRetained(s: State, n: State, k: int, t: nat)
    requires Safe(s) && Shrinks(s, n, k) && n.table.Valid()
    requires t in s.tasks && t in n.tasks && s.tasks[t] == n.tasks[t] && s.tasks[t].Running?
    requires |s.records| <= |n.records|
    requires forall id :: n.table.Has(id) && s.table.Has(id) ==> n.table.Get(id) == s.table.Get(id)
    ensures Retained(n, t)
  {
    ShrinkingIsSafe(s, n, k);
    assert Retained(s, t);
    var id := s.tasks[t].id;
    var i := PositionOf(s.table, id);
    assert Processes(n, t, id);
    assert i >= k;
    assert n.table.keys[i - k] == id;
    assert id in n.table.keys;
  }

  /** Every processing task but perhaps a newcomer is one of `s`. */
  ghost predicate Continues(s: State, n: State, newcomer: nat) {
    && (forall t :: t != newcomer && t in n.tasks && n.tasks[t].Running? ==> t in s.tasks && n.tasks[t] == s.tasks[t])
    && (newcomer in n.tasks && n.tasks[newcomer].Running? ==>
          Retained(n, newcomer) && !Owned(s, n.tasks[newcomer].id))
  }

  lemma ContinuesWithoutOverlap(s: State, n: State, newcomer: nat)
    requires !Overlap(s) && Continues(s, n, newcomer)
    ensures !Overlap(n)
  {
    if Overlap(n) {
      var a, b, x :| a != b && Processes(n, a, x) && Processes(n, b, x);
      assert a != newcomer ==> Processes(s, a, x);
      assert b != newcomer ==> Processes(s, b, x);
    }
  }

  /** Tasks go on or end, and the table shrinks safely: the step was safe. */
  lemma SafeAfter(s: State, n: State, k: int, newcomer: nat)
    requires Safe(s) && Shrinks(s, n, k) && Structured(n) && |s.records| <= |n.records| && Continues(s, n, newcomer)
    requires forall id :: n.table.Has(id) && s.table.Has(id) ==> n.table.Get(id) == s.table.Get(id)
    ensures Safe(n)
  {
    ShrinkingIsSafe(s, n, k);
    ContinuesWithoutOverlap(s, n, newcomer);
    forall u | u in n.tasks && n.tasks[u].Running?
      ensures Retained(n, u)
    {
      if u != newcomer {
        StillRetained(s, n, k, u);
      }
    }
  }

  lemma NewcomerStructured(s: State, n: State, t: nat, id: string, k: int)
    requires Structured(s) && t !in s.tasks && !s.table.Has(id) && n == Deliver(s, t, id)
    requires 0 <= k <= |s.table.keys| && Dropped(s.table.Put(id, |s.records|), n.table, n.records, k)
    ensures Structured(n)
  {
    hide Trim;
    var put := s.table.Put(id, |s.records|);
    forall x | n.table.Has(x)
      ensures n.InTable(x) && n.records[n.table.Get(x)].id == x
    {
      assert put.Has(x) && n.table.Get(x) == put.Get(x);
      assert x != id ==> s.InTable(x);
    }
  }

  /** A new record is last in the table, so its own trim leaves it there. */
  lemma NewcomerInTable(s: State, u: nat, id: string)
    requires Structured(s) && u !in s.tasks && !s.table.Has(id)
    ensures var n := Deliver(s, u, id); n.table.Has(id) && n.table.Get(id) == |s.records|
  {
    var n := Deliver(s, u, id);
    var put := s.table.Put(id, |s.records|);
    PutValid(s.table, id, |s.records|);
    assert put.keys == s.table.keys + [id];
    var k := TrimDrops(put, n.records, s.max);
    hide Trim;
    assert !SettledIn(put, n.records, id);
    assert n.table.keys[|s.table.keys| - k] == id;
    assert id in n.table.keys;
  }

  lemma NewcomerContinues(s: State, n: State, t: nat, id: string)
    requires Base(s) && t !in s.tasks && !s.table.Has(id) && n == Deliver(s, t, id)
    ensures Continues(s, n, t)
  {
    hide Trim, Store.Valid, Store.Put, Structured, Overlap;
    NewcomerInTable(s, t, id);
    assert !s.InTable(id);
    assert n.tasks == s.tasks[t := Running(id, |s.records|)] && |s.records| < |n.records|;
    hide Deliver;
    forall u
      ensures !Processes(s, u, id)
    {
      assert u in s.tasks && s.tasks[u].Running? ==> Retained(s, u);
    }
  }

  lemma NewcomerIsSafe(s: State, t: nat, id: string)
    requires Safe(s) && t !in s.tasks && !s.table.Has(id)
    ensures Safe(Deliver(s, t, id))
  {
    var n := Deliver(s, t, id);
    var put := s.table.Put(id, |s.records|);
    PutValid(s.table, id, |s.records|);
    var k := TrimDrops(put, n.records, s.max);
    hide Trim;
    assert put.keys == s.table.keys + [id];
    assert !SettledIn(put, n.records, id);
    assert k <= |s.table.keys|;
    NewcomerShrinks(s, n, t, id, k);
    NewcomerStructured(s, n, t, id, k);
    NewcomerContinues(s, n, t, id);
    hide Exposed, Shrinks, Structured, Continues;
    SafeAfter(s, n, k, t);
  }

  /** The table with the new record settles what the table did. */
  lemma NewcomerSettles(s: State, t: nat, id: string)
    requires Structured(s) && !s.table.Has(id)
    ensures var n := Deliver(s, t, id);
            var put := s.table.Put(id, |s.records|);
            && |s.records| <= |n.records| && put.keys == s.table.keys + [id]
            && (forall i :: 0 <= i < |s.table.keys| ==> s.table.Has(s.table.keys[i]))
            && forall x :: s.table.Has(x) ==>
                 put.Has(x) && put.Get(x) == s.table.Get(x) && (SettledIn(put, n.records, x) <==> s.Settled(x))
  {
    KeysAreHeld(s.table);
    hide Trim, Store.Valid;
    assert forall x :: s.table.Has(x) ==> s.InTable(x);
  }

  lemma NewcomerShrinks(s: State, n: State, t: nat, id: string, k: int)
    requires Base(s) && t !in s.tasks && !s.table.Has(id) && n == Deliver(s, t, id)
    requires 0 <= k <= |s.table.keys| && Dropped(s.table.Put(id, |s.records|), n.table, n.records, k)
    ensures Shrinks(s, n, k)
  {
    hide Trim, Store.Valid, Structured, Overlap;
    var put := s.table.Put(id, |s.records|);
    var keys := s.table.keys;
    assert put.keys == keys + [id] && !SettledIn(put, n.records, id);
    assert n.tasks == s.tasks[t := Running(id, |s.records|)];
    NewcomerSettles(s, t, id);
    hide Deliver, Store.Put;
    forall i | 0 <= i < |keys|
      ensures keys[i] != id
      ensures i < k || n.Settled(keys[i]) ==> s.Settled(keys[i])
      ensures forall u :: Processes(n, u, keys[i]) ==> Processes(s, u, keys[i])
    {
      assert i < k ==> SettledIn(put, n.records, put.keys[i]);
    }
  }

  /** A processing task ends: its own record may have been written, and the table trimmed. */
  ghost predicate Ends(s: State, n: State, t: nat, k: int) {
    && t in s.tasks && s.tasks[t].Running? && Retained(s, t) && n.tasks == s.tasks - {t}
    && |n.records| == |s.records| && n.records[s.tasks[t].ref].id == s.records[s.tasks[t].ref].id
    && (forall i :: 0 <= i < |s.records| && i != s.tasks[t].ref ==> n.records[i] == s.records[i])
    && Dropped(s.table, n.table, n.records, k)
  }

  lemma EndingStructured(s: State, n: State, t: nat, k: int)
    requires Base(s) && Ends(s, n, t, k)
    ensures Structured(n) && Continues(s, n, t)
  {
    assert forall i :: 0 <= i < |s.records| ==> n.records[i].id == s.records[i].id;
  }

  lemma EndingSettles(s: State, n: State, t: nat, k: int, i: int)
    requires Structured(s) && Ends(s, n, t, k) && 0 <= i < |s.table.keys|
    ensures i < k || n.Settled(s.table.keys[i]) ==> s.Settled(s.table.keys[i]) || s.table.keys[i] == s.tasks[t].id
  {
    KeysAreHeld(s.table);
    hide Store.Valid;
    assert s.InTable(s.table.keys[i]);
  }

  lemma EndingProcesses(s: State, n: State, t: nat, k: int, u: nat, id: string)
    requires !Overlap(s) && Ends(s, n, t, k) && Processes(n, u, id)
    ensures Processes(s, u, id) && id != s.tasks[t].id
  {
    hide Dropped, Retained;
    assert Processes(s, t, s.tasks[t].id) && Processes(s, u, id);
  }

  lemma EndingShrinks(s: State, n: State, t: nat, k: int)
    requires Base(s) && Ends(s, n, t, k)
    ensures Shrinks(s, n, k)
  {
    hide Structured, Overlap, Retained;
    var keys, id := s.table.keys, s.tasks[t].id;
    assert Processes(s, t, id);
    forall i | 0 <= i < |keys|
      ensures i < k || n.Settled(keys[i]) ==> s.Settled(keys[i]) || keys[i] == id
    {
      EndingSettles(s, n, t, k, i);
    }
    forall i, u | 0 <= i < |keys| && Processes(n, u, keys[i])
      ensures Processes(s, u, keys[i]) && keys[i] != id
    {
      EndingProcesses(s, n, t, k, u, keys[i]);
    }
    hide State.Settled;
  }

  lemma EndIsSafe(s: State, n: State, t: nat, k: int)
    requires Safe(s) && Ends(s, n, t, k)
    ensures Safe(n)
  {
    EndingShrinks(s, n, t, k);
    EndingStructured(s, n, t, k);
    hide Exposed, Shrinks, Structured, Continues;
    SafeAfter(s, n, k, t);
  }

  lemma FinishIsSafe(s: State, t: nat, result: SessionResult)
    requires Safe(s) && t in s.tasks && s.tasks[t].Running?
    ensures Safe(Settle(s, t, result))
  {
    var n := Settle(s, t, result);
    assert Retained(s, t);
    var k := TrimDrops(s.table, n.records, s.max);
    hide Trim, Dropped;
    EndIsSafe(s, n, t, k);
  }

  /** Nothing but waiting tasks and answers changes. */
  lemma WaitingIsSafe(s: State, n: State)
    requires Safe(s) && Structured(n) && n.table == s.table && n.records == s.records
    requires forall t :: t in n.tasks && n.tasks[t].Running? ==> t in s.tasks && n.tasks[t] == s.tasks[t]
    requires forall t :: t in s.tasks && s.tasks[t].Running? ==> t in n.tasks && n.tasks[t] == s.tasks[t]
    ensures Safe(n)
  {
    assert forall t, id :: Processes(n, t, id) == Processes(s, t, id);
    assert forall id :: Owned(n, id) == Owned(s, id);
    assert forall id :: n.Settled(id) == s.Settled(id);
    if Exposed(n) {
      var t, j :| t in n.tasks && n.tasks[t].Running? && 0 <= j < |n.table.keys|
                  && n.table.keys[j] == n.tasks[t].id && n.Settled(n.table.keys[j]) && Clearable(n, j);
      assert Clearable(s, j);
      ExposedAt(s, t, j);
    }
  }

  lemma CancelledIsSafe(s: State, step: Step)
    requires Safe(s) && Enabled(s, step) && (step.CancelOwner? || step.Abandon?)
    ensures Safe(Apply(s, step))
  {
    assert Retained(s, step.t);
    var n := Apply(s, step);
    assert Ends(s, n, step.t, 0);
    hide Safe, Ends, Apply;
    EndIsSafe(s, n, step.t, 0);
  }

  lemma WaitingStructured(s: State, step: Step)
    requires Structured(s) && Enabled(s, step) && (step.Wake? || (step.Arrive? && s.InTable(step.id)))
    ensures Structured(Apply(s, step))
  {
    hide Store.Valid, Trim;
  }

  lemma AwaitIsSafe(s: State, step: Step)
    requires Safe(s) && Enabled(s, step) && (step.Wake? || (step.Arrive? && s.InTable(step.id)))
    ensures Safe(Apply(s, step))
  {
    hide Exposed, Structured, Overlap, Retained, Trim;
    WaitingStructured(s, step);
    WaitingIsSafe(s, Apply(s, step));
  }

  lemma StepIsSafe(s: State, step: Step)
    requires Safe(s) && Enabled(s, step) && !step.CancelWaiter?
    ensures Safe(Apply(s, step))
  {
    assert Structured(s);
    assert step.Arrive? && s.table.Has(step.id) ==> s.InTable(step.id);
    hide Safe, Structured;
    if step.Wake? || (step.Arrive? && s.InTable(step.id)) {
      AwaitIsSafe(s, step);
    } else if step.Arrive? {
      NewcomerIsSafe(s, step.t, step.id);
    } else if step.Finish? {
      FinishIsSafe(s, step.t, step.result);
    } else {
      CancelledIsSafe(s, step);
    }
  }

  lemma {:induction false} RunIsSafe(s: State, steps: seq<Step>)
    requires Safe(s) && WaitersKept(steps)
    ensures Safe(Run(s, steps))
    decreases |steps|
  {
    hide Safe, Apply;
    if steps != [] {
      if Enabled(s, steps[0]) {
        StepIsSafe(s, steps[0]);
        RunIsSafe(Apply(s, steps[0]), steps[1..]);
      } else {
        RunIsSafe(s, steps[1..]);
      }
    }
  }
}
