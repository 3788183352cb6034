/** Sessions that are exposed and yet never record a notification twice: an abandoned record blocks the table. */
module KarakuriStuck {
  import opened OrderedStore
  import opened KarakuriNotifications
  import opened KarakuriExactlyOnce
  import opened KarakuriOverlap
  import opened KarakuriExchanges
  import opened KarakuriTwice

  /** The record at `p` is pending and its task is gone: nothing settles it, and nothing behind it is evicted. */
  ghost predicate Blocks(s: State, p: int) {
    0 <= p < |s.table.keys| && !s.Settled(s.table.keys[p]) && !Owned(s, s.table.keys[p])
  }

  /** Whoever is still to record an exchange has its record in the table, and not settled if it is ahead of the block;
      ahead of the block every run is that of the record. */
  ghost predicate Blocked(x: Session, p: int) {
    && Structured(x.s) && OwnRecords(x.s) && Blocks(x.s, p)
    && (forall t :: t in x.s.tasks && x.s.tasks[t].Running? ==> Retained(x.s, t) || t in x.spoken)
    && (forall t, i :: t in x.s.tasks && x.s.tasks[t].Running? && 0 <= i < p && x.s.table.keys[i] == x.s.tasks[t].id ==>
          Retained(x.s, t) && (t !in x.spoken ==> !x.s.Settled(x.s.table.keys[i])))
  }

  /** The table loses `k` keys, all settled by now, and keeps the rest where they are; only what `ender` processed was
      settled meanwhile. */
  ghost predicate Shifts(s: State, n: State, k: int, ender: nat) {
    var keys := s.table.keys;
    && Structured(n) && 0 <= k <= |keys| && |keys| - k <= |n.table.keys|
    && (forall i :: k <= i < |keys| ==>
          && n.table.keys[i - k] == keys[i] && s.table.Has(keys[i]) && n.table.Has(keys[i])
          && n.table.Get(keys[i]) == s.table.Get(keys[i]))
    && (forall i :: 0 <= i < |keys| && (i < k || n.Settled(keys[i])) ==>
          s.Settled(keys[i]) || Processes(s, ender, keys[i]))
    && |s.records| <= |n.records|
  }

  /** The processing tasks of `y` are those of `x` but for `ender`, or one of a notification new to the table. */
  ghost predicate GoesOn(x: Session, y: Session, ender: nat) {
    && OwnRecords(y.s)
    && (forall t :: t in y.s.tasks && y.s.tasks[t].Running? ==>
          || (t != ender && t in x.s.tasks && y.s.tasks[t] == x.s.tasks[t] && (t in x.spoken ==> t in y.spoken))
          || (Retained(y.s, t) && y.s.tasks[t].id !in x.s.table.keys))
  }

  /** Ahead of the block, what `ender` processed nobody else does. */
  lemma OnlyEnder(x: Session, p: int, i: int, t: nat, ender: nat)
    requires Blocked(x, p) && 0 <= i < p
    requires Processes(x.s, t, x.s.table.keys[i]) && Processes(x.s, ender, x.s.table.keys[i])
    ensures t == ender
  {
  }

  lemma BlockStays(x: Session, y: Session, p: int, k: int, ender: nat)
    requires Blocked(x, p) && Shifts(x.s, y.s, k, ender) && GoesOn(x, y, ender)
    ensures k <= p && Blocks(y.s, p - k)
  {
    hide Structured, OwnRecords;
    var key := x.s.table.keys[p];
    assert !Processes(x.s, ender, key);
    assert y.s.table.keys[p - k] == key && key in x.s.table.keys;
    forall t
      ensures !Processes(y.s, t, key)
    {
      assert !Processes(x.s, t, key);
    }
  }

  /** A run ahead of the block that is still to speak has a record that cannot be settled but by itself. */
  lemma StillUnsettled(x: Session, y: Session, p: int, k: int, ender: nat, t: nat, i: int)
    requires Blocked(x, p) && Shifts(x.s, y.s, k, ender) && 0 <= i < p && t != ender
    requires Processes(x.s, t, x.s.table.keys[i]) && t !in x.spoken
    ensures k <= i && !y.s.Settled(x.s.table.keys[i])
  {
    if Processes(x.s, ender, x.s.table.keys[i]) {
      OnlyEnder(x, p, i, t, ender);
    }
  }

  lemma StaysRetained(x: Session, y: Session, p: int, k: int, ender: nat, t: nat)
    requires Blocked(x, p) && Shifts(x.s, y.s, k, ender) && k <= p && t != ender
    requires t in x.s.tasks && x.s.tasks[t].Running? && Retained(x.s, t) && t !in x.spoken
    requires t in y.s.tasks && y.s.tasks[t] == x.s.tasks[t]
    ensures Retained(y.s, t)
  {
    var i := PositionOf(x.s.table, x.s.tasks[t].id);
    if i < p {
      StillUnsettled(x, y, p, k, ender, t, i);
    }
  }

  lemma AheadRetained(x: Session, y: Session, p: int, k: int, ender: nat, t: nat, i: int)
    requires Blocked(x, p) && Shifts(x.s, y.s, k, ender) && GoesOn(x, y, ender) && k <= p
    requires t in y.s.tasks && y.s.tasks[t].Running? && 0 <= i < p - k && y.s.table.keys[i] == y.s.tasks[t].id
    ensures Retained(y.s, t) && (t !in y.spoken ==> !y.s.Settled(y.s.table.keys[i]))
  {
    hide Structured, OwnRecords;
    assert y.s.table.keys[i] == x.s.table.keys[i + k];
    assert x.s.table.keys[i + k] in x.s.table.keys;
    assert Processes(x.s, t, x.s.table.keys[i + k]) && t != ender;
    if t !in x.spoken {
      StillUnsettled(x, y, p, k, ender, t, i + k);
    }
  }

  lemma BlockedAfter(x: Session, y: Session, p: int, k: int, ender: nat)
    requires Blocked(x, p) && Shifts(x.s, y.s, k, ender) && GoesOn(x, y, ender)
    ensures k <= p && Blocked(y, p - k)
  {
    BlockStays(x, y, p, k, ender);
    assert Structured(y.s) && OwnRecords(y.s);
    forall t | t in y.s.tasks && y.s.tasks[t].Running?
      ensures Retained(y.s, t) || t in y.spoken
    {
      hide Structured, OwnRecords, Shifts, Blocks;
      if t !in y.spoken && !Retained(y.s, t) {
        StaysRetained(x, y, p, k, ender, t);
      }
    }
    forall t, i | t in y.s.tasks && y.s.tasks[t].Running? && 0 <= i < p - k && y.s.table.keys[i] == y.s.tasks[t].id
      ensures Retained(y.s, t) && (t !in y.spoken ==> !y.s.Settled(y.s.table.keys[i]))
    {
      hide *;
      AheadRetained(x, y, p, k, ender, t, i);
    }
    hide Structured, OwnRecords, Shifts, GoesOn, Blocks;
  }

  // ------------------------------------------------------------- the steps

  /** `put` is the table of `s`, perhaps with a new last key. */
  lemma DroppedShifts(s: State, put: Store<string, nat>, n: State, k: int, ender: nat)
    requires Structured(s) && Structured(n) && |s.records| <= |n.records|
    requires 0 <= k <= |s.table.keys| <= |put.keys| && s.table.keys <= put.keys && Dropped(put, n.table, n.records, k)
    requires forall x :: s.table.Has(x) ==>
               && put.Has(x) && put.Get(x) == s.table.Get(x)
               && (SettledIn(put, n.records, x) ==> s.Settled(x) || Processes(s, ender, x))
    ensures Shifts(s, n, k, ender)
  {
    KeysAreHeld(s.table);
    KeysAreHeld(n.table);
    hide Store.Valid, Structured, Processes;
    var keys := s.table.keys;
    forall i | k <= i < |keys|
      ensures n.table.keys[i - k] == keys[i] && n.table.Has(keys[i])
      ensures n.table.Get(keys[i]) == s.table.Get(keys[i])
    {
      assert n.table.keys[i - k] == put.keys[k..][i - k] == put.keys[i] == keys[i];
    }
    forall i | 0 <= i < |keys| && (i < k || n.Settled(keys[i]))
      ensures s.Settled(keys[i]) || Processes(s, ender, keys[i])
    {
      assert s.table.Has(keys[i]) && put.keys[i] == keys[i];
      assert SettledIn(put, n.records, keys[i]);
    }
  }

  /** A processing task ends: the record under its notification may have been settled or cancelled, and the table
      trimmed. */
  ghost predicate Ended(s: State, n: State, t: nat, k: int) {
    && t in s.tasks && s.tasks[t].Running? && n.tasks == s.tasks - {t} && |n.records| == |s.records|
    && (forall i :: 0 <= i < |s.records| ==>
          && n.records[i].id == s.records[i].id
          && (n.records[i].future.Pending? || !s.records[i].future.Pending? || s.records[i].id == s.tasks[t].id))
    && Dropped(s.table, n.table, n.records, k)
  }

  lemma EndedShifts(s: State, n: State, t: nat, k: int)
    requires Structured(s) && Ended(s, n, t, k)
    ensures Shifts(s, n, k, t)
  {
    assert Structured(n);
    forall x | s.table.Has(x) && SettledIn(s.table, n.records, x)
      ensures s.Settled(x) || Processes(s, t, x)
    {
      assert s.InTable(x);
    }
    hide Structured, Dropped;
    DroppedShifts(s, s.table, n, k, t);
  }

  lemma EndGoesOn(x: Session, y: Session, t: nat)
    requires OwnRecords(x.s) && y.s.tasks == x.s.tasks - {t} && y.spoken == x.spoken * y.s.tasks.Keys
    ensures GoesOn(x, y, t)
  {
  }

  lemma EndKeepsBlocked(x: Session, y: Session, t: nat, p: int, k: int)
    requires Blocked(x, p) && Ended(x.s, y.s, t, k) && y.spoken == x.spoken * y.s.tasks.Keys
    ensures k <= p && Blocked(y, p - k)
  {
    hide Shifts, GoesOn, Structured, OwnRecords, Dropped;
    EndedShifts(x.s, y.s, t, k);
    EndGoesOn(x, y, t);
    hide Blocked, Ended;
    BlockedAfter(x, y, p, k, t);
  }

  lemma FinishEnds(s: State, t: nat, result: SessionResult) returns (k: nat)
    requires Structured(s) && Enabled(s, Finish(t, result))
    ensures Ended(s, Apply(s, Finish(t, result)), t, k)
  {
    hide Trim, Store.Valid;
    var n := Settle(s, t, result);
    k := 0;
    if s.InTable(s.tasks[t].id) {
      k := TrimDrops(s.table, n.records, s.max);
      hide Dropped;
      assert s.records[s.table.Get(s.tasks[t].id)].id == s.tasks[t].id;
    }
  }

  lemma CancelledEnds(s: State, step: Step)
    requires Structured(s) && Enabled(s, step) && (step.CancelOwner? || step.Abandon?)
    ensures Ended(s, Apply(s, step), step.t, 0)
  {
    hide Store.Valid;
    if s.InTable(s.tasks[step.t].id) {
      assert s.records[s.table.Get(s.tasks[step.t].id)].id == s.tasks[step.t].id;
    }
  }

  /** Nothing but waiting tasks and answers changes. */
  ghost predicate Waits(s: State, n: State) {
    && Structured(n) && n.table == s.table && n.records == s.records
    && (forall t :: t in n.tasks && n.tasks[t].Running? ==> t in s.tasks && n.tasks[t] == s.tasks[t])
    && (forall t :: t in s.tasks && s.tasks[t].Running? ==> t in n.tasks)
  }

  lemma AwaitWaits(s: State, step: Step)
    requires Structured(s) && Enabled(s, step) && (step.Wake? || (step.Arrive? && s.InTable(step.id)))
    ensures Waits(s, Apply(s, step))
  {
    hide Trim, Store.Valid;
  }

  lemma WaitsShift(s: State, n: State, ender: nat)
    requires Structured(s) && Waits(s, n)
    ensures Shifts(s, n, 0, ender)
  {
    KeysAreHeld(s.table);
    hide Structured;
  }

  lemma WaitKeepsBlocked(x: Session, y: Session, p: int, ender: nat)
    requires Blocked(x, p) && Waits(x.s, y.s) && y.spoken == x.spoken * y.s.tasks.Keys && ender !in y.s.tasks
    ensures Blocked(y, p)
  {
    WaitsShift(x.s, y.s, ender);
    assert GoesOn(x, y, ender);
    hide Shifts, GoesOn, Blocked, Waits;
    BlockedAfter(x, y, p, 0, ender);
  }

  lemma AwaitKeepsBlocked(x: Session, step: Step, p: int)
    requires Blocked(x, p) && Enabled(x.s, step) && (step.Wake? || (step.Arrive? && x.s.InTable(step.id)))
    ensures Blocked(Advance(x, Table(step)), p)
  {
    AwaitWaits(x.s, step);
    var y := Advance(x, Table(step));
    var ender := FreshNat(y.s.tasks.Keys);
    hide Blocked, Waits, Apply;
    WaitKeepsBlocked(x, y, p, ender);
  }

  lemma NewcomerShifts(s: State, t: nat, id: string) returns (k: nat)
    requires Structured(s) && t !in s.tasks && !s.table.Has(id)
    ensures Shifts(s, Deliver(s, t, id), k, t)
  {
    k := NewcomerTrims(s, t, id);
    var n := Deliver(s, t, id);
    NewcomerStructured(s, n, t, id, k);
    NewcomerSettles(s, t, id);
    hide Deliver, Structured, Store.Put, Dropped;
    DroppedShifts(s, s.table.Put(id, |s.records|), n, k, t);
  }

  lemma NewcomerGoesOn(x: Session, t: nat, id: string)
    requires Structured(x.s) && OwnRecords(x.s) && t !in x.s.tasks && !x.s.table.Has(id)
    ensures GoesOn(x, Advance(x, Table(Arrive(t, id))), t)
  {
    NewcomerInTable(x.s, t, id);
    hide Trim, Store.Valid;
    var y := Advance(x, Table(Arrive(t, id)));
    assert y.s.tasks == x.s.tasks[t := Running(id, |x.s.records|)];
    assert id !in x.s.table.keys;
    assert Retained(y.s, t);
  }

  lemma NewcomerKeepsBlocked(x: Session, t: nat, id: string, p: int) returns (k: nat)
    requires Blocked(x, p) && t !in x.s.tasks && !x.s.table.Has(id)
    ensures k <= p && Blocked(Advance(x, Table(Arrive(t, id))), p - k)
  {
    var y := Advance(x, Table(Arrive(t, id)));
    NewcomerGoesOn(x, t, id);
    k := NewcomerShifts(x.s, t, id);
    hide Deliver, Shifts, GoesOn, Blocked;
    BlockedAfter(x, y, p, k, t);
  }

  lemma BlockedHolds(x: Session, p: int, id: string)
    requires Blocked(x, p) && x.s.table.Has(id)
    ensures x.s.InTable(id)
  {
    hide OwnRecords, Blocks;
    assert Structured(x.s);
  }

  lemma ArriveKeepsBlocked(x: Session, t: nat, id: string, p: int) returns (q: int)
    requires Blocked(x, p) && t !in x.s.tasks
    ensures Blocked(Advance(x, Table(Arrive(t, id))), q)
  {
    hide Blocked, Advance, Apply;
    if x.s.table.Has(id) {
      BlockedHolds(x, p, id);
    }
    q := p;
    if x.s.InTable(id) {
      AwaitKeepsBlocked(x, Arrive(t, id), p);
    } else {
      var k := NewcomerKeepsBlocked(x, t, id, p);
      q := p - k;
    }
  }

  lemma FinishKeepsBlocked(x: Session, t: nat, result: SessionResult, p: int) returns (q: int)
    requires Blocked(x, p) && Enabled(x.s, Finish(t, result))
    ensures Blocked(Advance(x, Table(Finish(t, result))), q)
  {
    hide Ended, Apply, Enabled, Structured, OwnRecords, Blocks;
    var y := Advance(x, Table(Finish(t, result)));
    assert y.s == Apply(x.s, Finish(t, result)) && y.spoken == x.spoken * y.s.tasks.Keys;
    var k := FinishEnds(x.s, t, result);
    hide Blocked;
    EndKeepsBlocked(x, y, t, p, k);
    q := p - k;
  }

  lemma CancelKeepsBlocked(x: Session, step: Step, p: int)
    requires Blocked(x, p) && Enabled(x.s, step) && (step.CancelOwner? || step.Abandon?)
    ensures Blocked(Advance(x, Table(step)), p)
  {
    hide Ended, Apply, Enabled, Structured, OwnRecords, Blocks;
    var y := Advance(x, Table(step));
    assert y.s == Apply(x.s, step) && y.spoken == x.spoken * y.s.tasks.Keys;
    CancelledEnds(x.s, step);
    hide Blocked;
    EndKeepsBlocked(x, y, step.t, p, 0);
  }

  lemma TableKeepsBlocked(x: Session, step: Step, p: int) returns (q: int)
    requires Blocked(x, p) && Enabled(x.s, step) && !step.CancelWaiter?
    ensures Blocked(Advance(x, Table(step)), q)
  {
    hide Blocked, Advance, Apply;
    q := p;
    match step
    case Arrive(t, id) => q := ArriveKeepsBlocked(x, t, id, p);
    case Wake(_) => AwaitKeepsBlocked(x, step, p);
    case Finish(t, result) => q := FinishKeepsBlocked(x, t, result, p);
    case _ => CancelKeepsBlocked(x, step, p);
  }

  // -------------------------------------------------------------- whole runs

  ghost predicate Stuck(x: Session) { Kept(x) && exists p :: Blocked(x, p) }

  lemma AdvanceStaysStuck(x: Session, e: Event)
    requires Stuck(x) && Possible(x, e) && (e.Table? ==> !e.step.CancelWaiter?)
    ensures Stuck(Advance(x, e))
  {
    var p :| Blocked(x, p);
    match e
    case Table(step) =>
      TableKeeps(x, step);
      var q := TableKeepsBlocked(x, step, p);
    case Say(t, _, _, _) =>
      SayKeeps(x, e);
      assert Blocked(Advance(x, e), p);
    case Forget(_) =>
      assert Blocked(Advance(x, e), p);
  }

  lemma {:induction false} PlayStaysStuck(x: Session, es: seq<Event>)
    requires Stuck(x) && NobodyCancelled(es)
    ensures Stuck(Play(x, es))
    decreases |es|
  {
    hide Stuck, Advance, Possible;
    if es != [] {
      assert NobodyCancelled(es[1..]);
      if Possible(x, es[0]) {
        AdvanceStaysStuck(x, es[0]);
        PlayStaysStuck(Advance(x, es[0]), es[1..]);
      } else {
        PlayStaysStuck(x, es[1..]);
      }
    }
  }

  lemma {:induction false} FirstBlock(s: State, n: int) returns (p: int)
    requires 0 <= n <= |s.table.keys| && !Clearable(s, n)
    ensures p < n && Blocks(s, p) && Clearable(s, p)
    decreases n
  {
    if Clearable(s, n - 1) {
      p := n - 1;
    } else {
      p := FirstBlock(s, n - 1);
    }
  }

  /** An exposed session that cannot be broken is blocked. */
  lemma UnbreakableIsStuck(x: Session)
    requires Sound(x) && Exposed(x.s) && !Breakable(x)
    ensures Stuck(x)
  {
    BaseOwnsRecords(x.s);
    var p := FirstBlock(x.s, |x.s.table.keys|);
    forall t, i | t in x.s.tasks && x.s.tasks[t].Running? && 0 <= i < p && x.s.table.keys[i] == x.s.tasks[t].id
      ensures Retained(x.s, t) && (t !in x.spoken ==> !x.s.Settled(x.s.table.keys[i]))
    {
      assert Clearable(x.s, i);
    }
    assert Blocked(x, p);
  }

  // ---------------------------------------------------------- the condition

  /** Without another waiter being cancelled, a session comes to record a notification twice, while the record of the
      earlier exchange is retained or against the order of the records, if and only if it is breakable: some run is
      exposed, and it has not recorded its exchange yet or no record of the table is abandoned. */
  lemma RecordedTwiceIff(x: Session)
    requires Sound(x)
    ensures (exists es :: NobodyCancelled(es) && Twice(Play(x, es))) <==> Breakable(x)
  {
    if Breakable(x) {
      var es := BreakableBreaks(x);
    } else {
      forall es | NobodyCancelled(es)
        ensures !Twice(Play(x, es))
      {
        if Exposed(x.s) {
          UnbreakableIsStuck(x);
          PlayStaysStuck(x, es);
        } else {
          SafePlayIsSound(x, es);
        }
        KeptIsOnce(Play(x, es));
      }
    }
  }

  /** Where every pending record still has its task, that is: if and only if the state is exposed. */
  lemma AttendedTwiceIff(x: Session)
    requires Sound(x) && Attended(x.s)
    ensures (exists es :: NobodyCancelled(es) && Twice(Play(x, es))) <==> Exposed(x.s)
  {
    RecordedTwiceIff(x);
    assert Breakable(x) <==> Exposed(x.s);
  }

  // -------------------------------------------------------- the failing case

  lemma CancelledDuplicateSession(max: nat, id: string)
    ensures var x := Play(Start(max), Tables(CancelledDuplicate(id)));
            && x.s == Run(KarakuriNotifications.Initial(max), CancelledDuplicate(id)) && x.log == [] && x.spoken == {}
            && Sound(x) && ExposedBy(x.s, 0, 0) && x.s.table.keys == [id]
  {
    PlayTables(Start(max), CancelledDuplicate(id));
    CancelledWaiterExposes(max, id);
    CancelledDuplicateState(max, id);
    var x := Play(Start(max), Tables(CancelledDuplicate(id)));
    assert Clearable(x.s, 0);
  }

  lemma CancelledDuplicateIsEvicted(max: nat, id: string) returns (steps: seq<Step>)
    ensures var z := Play(Start(max), Tables(CancelledDuplicate(id)) + Tables(steps));
            && Ordinary(steps) && z.log == [] && z.spoken == {} && Evicted(z.s, 0, id) && z.s.tasks[0].ref == 0
  {
    CancelledDuplicateSession(max, id);
    CancelledDuplicateState(max, id);
    var x := Play(Start(max), Tables(CancelledDuplicate(id)));
    hide Sound, Apply, Play;
    assert x.s.tasks[0].ref == 0;
    steps := ExposedIsEvicted(x.s, 0, 0);
    PlayTables(x, steps);
    PlayAppend(Start(max), Tables(CancelledDuplicate(id)), Tables(steps));
  }

  /** The failing case, for every table size and notification: it arrives, a duplicate of it is cancelled, its record is
      evicted and it arrives anew; both runs record an exchange, the old one last, and the newer record is retained. */
  lemma CancelledWaiterRecordsTwice(max: nat, id: string) returns (es: seq<Event>, r: nat)
    ensures var y := Play(Start(max), Tables(CancelledDuplicate(id)) + es);
            && NobodyCancelled(es) && r > 0 && y.log == [SpokeOf(r, id), SpokeOf(0, id)]
            && y.s.table.Has(id) && y.s.table.Get(id) == r && Twice(y)
  {
    var first := Tables(CancelledDuplicate(id));
    var steps := CancelledDuplicateIsEvicted(max, id);
    var z := Play(Start(max), first + Tables(steps));
    var u := FreshNat(z.s.tasks.Keys);
    hide Twice, Evicted, Play;
    EvictedSpeaksTwice(z, 0, u, id);
    var told := TellBoth(0, u, id);
    PlayAppend(Start(max), first + Tables(steps), told);
    assert (first + Tables(steps)) + told == first + (Tables(steps) + told);
    OrdinaryTables(steps);
    assert NobodyCancelled(told);
    UncancelledAppend(Tables(steps), told);
    es, r := Tables(steps) + told, |z.s.records|;
    assert [] + [SpokeOf(r, id), SpokeOf(0, id)] == [SpokeOf(r, id), SpokeOf(0, id)];
  }
}
