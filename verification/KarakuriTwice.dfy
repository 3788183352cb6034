/** Exactly when a notification can come to be recorded twice. */
module KarakuriTwice {
  import opened Wrappers
  import opened OrderedStore
  import opened KarakuriNotifications
  import opened KarakuriExactlyOnce
  import opened KarakuriOverlap
  import opened KarakuriExchanges
  import History = KarakuriHistory

  /** Every pending record of the table still has its task. */
  ghost predicate Attended(s: State) { Clearable(s, |s.table.keys|) }

  /** A task is exposed, and has not recorded its exchange yet or nothing in the table is abandoned. */
  ghost predicate Breakable(x: Session) {
    exists t, j :: t in x.s.tasks && x.s.tasks[t].Running? && 0 <= j < |x.s.table.keys|
      && x.s.table.keys[j] == x.s.tasks[t].id && x.s.Settled(x.s.table.keys[j]) && Clearable(x.s, j)
      && (t !in x.spoken || Attended(x.s))
  }

  // ----------------------------------------------------- breakable sessions break

  /** The events of ordinary steps. */
  function Tables(steps: seq<Step>): seq<Event> {
    if steps == [] then [] else [Table(steps[0])] + Tables(steps[1..])
  }

  lemma {:induction false} PlayAppend(x: Session, es: seq<Event>, more: seq<Event>)
    ensures Play(x, es + more) == Play(Play(x, es), more)
    decreases |es|
  {
    if es == [] {
      assert [] + more == more;
    } else {
      assert (es + more)[1..] == es[1..] + more;
      PlayAppend(if Possible(x, es[0]) then Advance(x, es[0]) else x, es[1..], more);
    }
  }

  lemma PlayFirst(x: Session, e: Event, es: seq<Event>)
    requires Possible(x, e)
    ensures Play(x, [e] + es) == Play(Advance(x, e), es)
  {
    assert ([e] + es)[1..] == es;
  }

  /** Steps alone record nothing and make nobody have spoken. */
  lemma {:induction false} PlayTables(x: Session, steps: seq<Step>)
    ensures var y := Play(x, Tables(steps)); y.s == Run(x.s, steps) && y.log == x.log && y.spoken <= x.spoken
    decreases |steps|
  {
    if steps != [] {
      var e := Table(steps[0]);
      assert Tables(steps)[1..] == Tables(steps[1..]);
      hide Apply;
      PlayTables(if Possible(x, e) then Advance(x, e) else x, steps[1..]);
    }
  }

  lemma {:induction false} OrdinaryTables(steps: seq<Step>)
    requires Ordinary(steps)
    ensures NobodyCancelled(Tables(steps))
    decreases |steps|
  {
    if steps != [] {
      OrdinaryTables(steps[1..]);
    }
  }

  lemma UncancelledAppend(es: seq<Event>, more: seq<Event>)
    requires NobodyCancelled(es) && NobodyCancelled(more)
    ensures NobodyCancelled(es + more)
  {
  }

  const SomeExchange := History.Exchange("", "", "", 0.0)

  function SomeSay(t: nat): Event { Say(t, "", SomeExchange, None) }

  /** The exchange `t` records of the notification, whatever it says. */
  function SpokeOf(ref: nat, id: string): Entry { Spoke(ref, "", SomeExchange.(notificationId := id), None) }

  /** The notification is redelivered; its new run records an exchange, and then so does the old one. */
  function TellBoth(t: nat, u: nat, id: string): seq<Event> {
    [Table(Arrive(u, id))] + ([SomeSay(u)] + [SomeSay(t)])
  }

  /** After the eviction of a run that has not spoken: its notification is recorded twice, the older run last, while
      the newer record is retained. */
  lemma EvictedSpeaksTwice(x: Session, t: nat, u: nat, id: string)
    requires Evicted(x.s, t, id) && t !in x.spoken && u !in x.s.tasks && u !in x.spoken
    ensures var y := Play(x, TellBoth(t, u, id));
            var r := |x.s.records|;
            && y.log == x.log + [SpokeOf(r, id), SpokeOf(x.s.tasks[t].ref, id)]
            && x.s.tasks[t].ref < r && y.s.table.Has(id) && y.s.table.Get(id) == r && Twice(y)
  {
    hide Trim, Store.Valid;
    var r := |x.s.records|;
    NewcomerInTable(x.s, u, id);
    var x1 := Advance(x, Table(Arrive(u, id)));
    assert x1.s.tasks == x.s.tasks[u := Running(id, r)] && x1.log == x.log && u !in x1.spoken && t !in x1.spoken;
    assert x1.s.table.Get(id) == r && x.s.tasks[t].ref < r;
    hide Deliver, Apply, Structured;
    var x2 := Advance(x1, SomeSay(u));
    var x3 := Advance(x2, SomeSay(t));
    assert x3.log == x.log + [SpokeOf(r, id), SpokeOf(x.s.tasks[t].ref, id)];
    PlayFirst(x, Table(Arrive(u, id)), [SomeSay(u)] + [SomeSay(t)]);
    PlayFirst(x1, SomeSay(u), [SomeSay(t)]);
    PlayFirst(x2, SomeSay(t), []);
    assert [SomeSay(t)] == [SomeSay(t)] + [] && Play(x3, []) == x3;
    assert SameNotification(x3.log[|x.log|], x3.log[|x.log| + 1]);
    assert !Superseded(x3.log[|x.log|], x3.log[|x.log| + 1], x3.s.table);
  }

  lemma EvictedBreaks(x: Session, t: nat, id: string) returns (es: seq<Event>)
    requires Evicted(x.s, t, id) && t !in x.spoken
    ensures NobodyCancelled(es) && Twice(Play(x, es))
  {
    var u := FreshNat(x.s.tasks.Keys + x.spoken);
    EvictedSpeaksTwice(x, t, u, id);
    es := TellBoth(t, u, id);
  }

  /** Steps, then events, that break the session. */
  lemma BreaksLater(x: Session, steps: seq<Step>, es: seq<Event>)
    requires Ordinary(steps) && NobodyCancelled(es) && Twice(Play(Play(x, Tables(steps)), es))
    ensures NobodyCancelled(Tables(steps) + es) && Twice(Play(x, Tables(steps) + es))
  {
    hide Twice, Play;
    OrdinaryTables(steps);
    UncancelledAppend(Tables(steps), es);
    PlayAppend(x, Tables(steps), es);
  }

  /** An exposed run that has not spoken breaks the session. */
  lemma SilentBreaks(x: Session, t: nat, j: int) returns (es: seq<Event>)
    requires ExposedBy(x.s, t, j) && t !in x.spoken
    ensures NobodyCancelled(es) && Twice(Play(x, es))
  {
    var steps := ExposedIsEvicted(x.s, t, j);
    PlayTables(x, steps);
    hide ExposedBy, Twice;
    var more := EvictedBreaks(Play(x, Tables(steps)), t, x.s.table.keys[j]);
    BreaksLater(x, steps, more);
    es := Tables(steps) + more;
  }

  // ------------------------------------- exposed runs that have already spoken

  lemma AdvancesAttended(s: State, n: State, k: int)
    requires Attended(s) && Advances(s, n, k)
    requires forall i :: |s.table.keys| - k <= i < |n.table.keys| ==> Owned(n, n.table.keys[i])
    ensures Attended(n)
  {
    var keys := s.table.keys;
    forall i | 0 <= i < |keys| - k
      ensures n.Settled(n.table.keys[i]) || Owned(n, n.table.keys[i])
    {
      assert n.table.keys[i] == keys[k..][i];
      assert n.table.keys[i] in n.table.keys;
      if !s.Settled(keys[i + k]) && !n.Settled(keys[i + k]) {
        var w :| Processes(s, w, keys[i + k]);
        assert Processes(n, w, keys[i + k]);
      }
    }
  }

  lemma FinishAttended(s: State, t: nat, result: SessionResult)
    requires Structured(s) && Attended(s) && t in s.tasks && s.tasks[t].Running?
    ensures Structured(Settle(s, t, result)) && Attended(Settle(s, t, result))
  {
    var n := Settle(s, t, result);
    if s.table.Has(s.tasks[t].id) {
      assert s.InTable(s.tasks[t].id);
      var k := SettleAdvances(s, t, result);
      assert |n.table.keys| == |s.table.keys| - k;
      hide Settle;
      AdvancesAttended(s, n, k);
    } else {
      assert forall i :: 0 <= i < |s.table.keys| ==> s.table.keys[i] in s.table.keys;
      forall i | 0 <= i < |n.table.keys|
        ensures n.Settled(n.table.keys[i]) || Owned(n, n.table.keys[i])
      {
        if Owned(s, s.table.keys[i]) {
          var w :| Processes(s, w, s.table.keys[i]);
          assert w != t ==> Processes(n, w, s.table.keys[i]);
        }
      }
    }
  }

  lemma DropThenAppend(keys: seq<string>, id: string, k: int)
    requires 0 <= k <= |keys|
    ensures (keys + [id])[k..] == keys[k..] + [id] && (keys[k..] + [id])[|keys| - k] == id
  {
  }

  lemma NewcomerTrims(s: State, t: nat, id: string) returns (k: nat)
    requires Structured(s) && t !in s.tasks && !s.table.Has(id)
    ensures k <= |s.table.keys|
    ensures var n := Deliver(s, t, id);
            Dropped(s.table.Put(id, |s.records|), n.table, n.records, k) && n.table.keys == s.table.keys[k..] + [id]
  {
    hide Trim, Store.Valid;
    var n := Deliver(s, t, id);
    var put := s.table.Put(id, |s.records|);
    PutValid(s.table, id, |s.records|);
    assert put.keys == s.table.keys + [id] && !SettledIn(put, n.records, id);
    k := TrimDrops(put, n.records, s.max);
    hide Structured, Deliver;
    assert k <= |s.table.keys|;
    DropThenAppend(s.table.keys, id, k);
  }

  lemma NewcomerAdvances(s: State, t: nat, id: string) returns (k: nat)
    requires Structured(s) && t !in s.tasks && !s.table.Has(id)
    ensures var n := Deliver(s, t, id);
            && Structured(n) && Advances(s, n, k) && n.table.keys == s.table.keys[k..] + [id] && Processes(n, t, id)
  {
    k := NewcomerTrims(s, t, id);
    hide Dropped, Structured, Advances, Trim;
    NewcomerStructured(s, Deliver(s, t, id), t, id, k);
    DeliverAdvances(s, Deliver(s, t, id), t, id, k);
  }

  lemma NewcomerAttended(s: State, t: nat, id: string)
    requires Structured(s) && Attended(s) && t !in s.tasks && !s.table.Has(id)
    ensures Structured(Deliver(s, t, id)) && Attended(Deliver(s, t, id))
  {
    var n := Deliver(s, t, id);
    hide Deliver, Structured, Attended;
    var k := NewcomerAdvances(s, t, id);
    assert k <= |s.table.keys|;
    DropThenAppend(s.table.keys, id, k);
    assert Owned(n, n.table.keys[|s.table.keys| - k]);
    hide Advances, Processes;
    AdvancesAttended(s, n, k);
  }

  lemma WaitAttended(s: State, t: nat, id: string)
    requires Structured(s) && Attended(s) && t !in s.tasks && s.InTable(id)
    ensures Structured(Deliver(s, t, id)) && Attended(Deliver(s, t, id))
  {
    var n := Deliver(s, t, id);
    assert forall x, w :: Processes(s, w, x) ==> Processes(n, w, x);
    assert forall x :: Owned(s, x) ==> Owned(n, x);
  }

  lemma {:induction false} OrdinaryAttended(s: State, steps: seq<Step>)
    requires Structured(s) && Attended(s) && Ordinary(steps)
    ensures Structured(Run(s, steps)) && Attended(Run(s, steps))
    decreases |steps|
  {
    assert forall id :: s.table.Has(id) ==> s.InTable(id);
    hide Structured, Attended, Deliver, Settle;
    if steps != [] {
      var step := steps[0];
      assert Ordinary(steps[1..]);
      if Enabled(s, step) {
        if step.Finish? {
          FinishAttended(s, step.t, step.result);
        } else if s.InTable(step.id) {
          WaitAttended(s, step.t, step.id);
        } else {
          NewcomerAttended(s, step.t, step.id);
        }
        OrdinaryAttended(Apply(s, step), steps[1..]);
      } else {
        OrdinaryAttended(s, steps[1..]);
      }
    }
  }

  /** After the eviction of a run where nothing is abandoned: its notification is redelivered, the old run settles the
      new record, and the new run, which has not spoken, is exposed or evicted in turn. */
  lemma SupersedingRun(s: State, t: nat, u: nat, id: string)
    requires Evicted(s, t, id) && Attended(s) && u !in s.tasks
    ensures var n := Run(s, [Arrive(u, id)] + [Finish(t, SomeResult)]);
            && Structured(n) && Attended(n) && Processes(n, u, id) && (n.table.Has(id) ==> n.Settled(id))
  {
    hide Structured, Attended, Deliver, Settle, Run;
    var s1 := Deliver(s, u, id);
    RedeliveredBeside(s, t, u, id);
    SettlingOther(s1, t, u, id);
    RunTwo(s, Arrive(u, id), Finish(t, SomeResult));
  }

  lemma RedeliveredBeside(s: State, t: nat, u: nat, id: string)
    requires Evicted(s, t, id) && Attended(s) && u !in s.tasks
    ensures var n := Deliver(s, u, id);
            && Structured(n) && Attended(n) && Processes(n, t, id) && Processes(n, u, id) && t != u && n.table.Has(id)
  {
    hide Trim, Structured, Attended, Store.Put;
    NewcomerInTable(s, u, id);
    NewcomerAttended(s, u, id);
    assert !s.InTable(id);
    assert Deliver(s, u, id).tasks == s.tasks[u := Running(id, |s.records|)];
    hide Deliver;
  }

  /** One of two runs of a notification settles the retained record; the other goes on. */
  lemma SettlingOther(s: State, t: nat, u: nat, id: string)
    requires Structured(s) && Attended(s) && Processes(s, t, id) && Processes(s, u, id) && t != u && s.table.Has(id)
    ensures var n := Settle(s, t, SomeResult);
            && Structured(n) && Attended(n) && Processes(n, u, id) && (n.table.Has(id) ==> n.Settled(id))
  {
    FinishAttended(s, t, SomeResult);
    var k := SettleAdvances(s, t, SomeResult);
    hide Trim;
    assert Settle(s, t, SomeResult).tasks == s.tasks - {t};
  }

  /** Where nothing is abandoned, a session whose silent task processes a notification with a settled record breaks, and
      so does one whose record is gone. */
  lemma SettledBreaks(x: Session, u: nat, id: string) returns (es: seq<Event>)
    requires Structured(x.s) && Attended(x.s) && Processes(x.s, u, id) && u !in x.spoken
    requires x.s.table.Has(id) ==> x.s.Settled(id)
    ensures NobodyCancelled(es) && Twice(Play(x, es))
  {
    if x.s.table.Has(id) {
      var j := PositionOf(x.s.table, id);
      assert ExposedBy(x.s, u, j);
      es := SilentBreaks(x, u, j);
    } else {
      es := EvictedBreaks(x, u, id);
    }
  }

  lemma SpokenBreaks(x: Session, t: nat, j: int) returns (es: seq<Event>)
    requires ExposedBy(x.s, t, j) && Attended(x.s)
    ensures NobodyCancelled(es) && Twice(Play(x, es))
  {
    hide Evicted, Structured, Attended, Twice, Run, Play, Clearable;
    var id := x.s.table.keys[j];
    var steps := ExposedIsEvicted(x.s, t, j);
    OrdinaryAttended(x.s, steps);
    var s1 := Run(x.s, steps);
    var u := FreshNat(s1.tasks.Keys + x.spoken);
    var more := [Arrive(u, id)] + [Finish(t, SomeResult)];
    SupersedingRun(s1, t, u, id);
    RunAppend(x.s, steps, more);
    PlayTables(x, steps + more);
    hide ExposedBy;
    var rest := SettledBreaks(Play(x, Tables(steps + more)), u, id);
    BreaksLater(x, steps + more, rest);
    es := Tables(steps + more) + rest;
  }

  lemma BreakableBreaks(x: Session) returns (es: seq<Event>)
    requires Structured(x.s) && Breakable(x)
    ensures NobodyCancelled(es) && Twice(Play(x, es))
  {
    var t, j :| t in x.s.tasks && x.s.tasks[t].Running? && 0 <= j < |x.s.table.keys|
      && x.s.table.keys[j] == x.s.tasks[t].id && x.s.Settled(x.s.table.keys[j]) && Clearable(x.s, j)
      && (t !in x.spoken || Attended(x.s));
    assert ExposedBy(x.s, t, j);
    hide Twice, Play;
    if t !in x.spoken {
      es := SilentBreaks(x, t, j);
    } else {
      es := SpokenBreaks(x, t, j);
    }
  }
}
