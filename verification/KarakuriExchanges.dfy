/** Exactly-once carried to the histories: what the processing tasks write into them. */
module KarakuriExchanges {
  import opened Wrappers
  import opened OrderedStore
  import opened KarakuriNotifications
  import opened KarakuriExactlyOnce
  import opened KarakuriOverlap
  import BoundedDeque
  import History = KarakuriHistory

  /** An exchange recorded by the run that owns the record `ref`, or a reset of one conversation or of all. */
  datatype Entry =
    | Spoke(ref: nat, conversation: string, exchange: History.Exchange, contact: Option<string>)
    | Forgot(which: Option<string>)

  /** `spoken` are the processing tasks that have recorded their exchange; each does so at most once. */
  datatype Session = Session(s: State, log: seq<Entry>, spoken: set<nat>)

  datatype Event =
    | Table(step: Step)
    | Say(t: nat, conversation: string, exchange: History.Exchange, contact: Option<string>)
    | Forget(which: Option<string>)

  predicate Possible(x: Session, e: Event) {
    match e
    case Table(step) => Enabled(x.s, step)
    case Say(t, _, _, _) => t in x.s.tasks && x.s.tasks[t].Running? && t !in x.spoken
    case Forget(_) => true
  }

  /** The exchange a processing task records names its notification. */
  function Spoken(x: Session, e: Event): Entry
    requires e.Say? && Possible(x, e)
  {
    var task := x.s.tasks[e.t];
    Spoke(task.ref, e.conversation, e.exchange.(notificationId := task.id), e.contact)
  }

  function Advance(x: Session, e: Event): Session
    requires Possible(x, e)
  {
    match e
    case Table(step) =>
      var n := Apply(x.s, step);
      x.(s := n, spoken := x.spoken * n.tasks.Keys)
    case Say(t, _, _, _) => x.(log := x.log + [Spoken(x, e)], spoken := x.spoken + {t})
    case Forget(c) => x.(log := x.log + [Forgot(c)])
  }

  function Play(x: Session, es: seq<Event>): Session
    decreases |es|
  {
    if es == [] then x else Play(if Possible(x, es[0]) then Advance(x, es[0]) else x, es[1..])
  }

  function Start(max: nat): Session { Session(KarakuriNotifications.Initial(max), [], {}) }

  predicate NobodyCancelled(es: seq<Event>) {
    forall i :: 0 <= i < |es| && es[i].Table? ==> !es[i].step.CancelWaiter?
  }

  /** `a` and `b` are exchanges of one notification. */
  predicate SameNotification(a: Entry, b: Entry) {
    a.Spoke? && b.Spoke? && a.exchange.notificationId == b.exchange.notificationId
  }

  /** `b` came after `a`, of a later record, and the record of `a` is gone. */
  predicate Superseded(a: Entry, b: Entry, table: Store<string, nat>)
    requires SameNotification(a, b)
  {
    a.ref < b.ref && (table.Has(a.exchange.notificationId) ==> table.Get(a.exchange.notificationId) != a.ref)
  }

  /** A notification has two exchanges, and not because the record of the earlier was evicted before the later. */
  ghost predicate Twice(x: Session) {
    exists i, j :: 0 <= i < j < |x.log| && SameNotification(x.log[i], x.log[j])
      && !Superseded(x.log[i], x.log[j], x.s.table)
  }

  // ------------------------------------------------------- what a step leaves

  /** Records are added at the end; an entry of the table, or a processing task, is an old one or the new record's. */
  ghost predicate Evolves(s: State, n: State) {
    && |s.records| <= |n.records|
    && (forall i :: 0 <= i < |s.records| ==> n.records[i].id == s.records[i].id)
    && (forall id :: n.table.Has(id) ==>
          (s.table.Has(id) && n.table.Get(id) == s.table.Get(id)) || n.table.Get(id) == |s.records|)
    && (forall t :: t in n.tasks && n.tasks[t].Running? ==>
          (t in s.tasks && n.tasks[t] == s.tasks[t]) || (n.tasks[t].ref == |s.records| && t !in s.tasks))
  }

  lemma NewcomerTable(s: State, t: nat, id: string)
    requires s.table.Valid() && (forall x :: s.table.Has(x) ==> s.table.Get(x) < |s.records|) && !s.InTable(id)
    ensures var n := Deliver(s, t, id);
            forall x :: n.table.Has(x) ==>
              (s.table.Has(x) && n.table.Get(x) == s.table.Get(x)) || n.table.Get(x) == |s.records|
  {
    hide Trim, Store.Valid;
    var n := Deliver(s, t, id);
    var put := s.table.Put(id, |s.records|);
    PutValid(s.table, id, |s.records|);
    forall x | put.Has(x)
      ensures put.Get(x) < |n.records|
    {
      assert x != id ==> s.table.Has(x);
    }
    var k := TrimDrops(put, n.records, s.max);
  }

  lemma ArriveEvolves(s: State, t: nat, id: string)
    requires Structured(s) && t !in s.tasks
    ensures Evolves(s, Deliver(s, t, id))
  {
    assert forall x :: s.table.Has(x) ==> s.table.Get(x) < |s.records|;
    hide Trim, Store.Valid;
    if !s.InTable(id) {
      NewcomerTable(s, t, id);
    }
    hide Structured;
  }

  lemma FinishEvolves(s: State, t: nat, result: SessionResult)
    requires Structured(s) && t in s.tasks
    ensures Evolves(s, Settle(s, t, result))
  {
    hide Trim, Store.Valid;
    if s.InTable(s.tasks[t].id) {
      var n := Settle(s, t, result);
      var k := TrimDrops(s.table, n.records, s.max);
    }
  }

  lemma StepEvolves(s: State, step: Step)
    requires Structured(s) && Enabled(s, step)
    ensures Evolves(s, Apply(s, step))
  {
    hide Structured, Trim;
    match step
    case Arrive(t, id) => ArriveEvolves(s, t, id);
    case Finish(t, result) => FinishEvolves(s, t, result);
    case _ =>
  }

  // ---------------------------------------------------------- the invariant

  /** Exchanges name records of their notification, in the order of the records, none twice. */
  ghost predicate InOrder(log: seq<Entry>, records: seq<Rec>) {
    && (forall i :: 0 <= i < |log| && log[i].Spoke? ==>
          log[i].ref < |records| && records[log[i].ref].id == log[i].exchange.notificationId)
    && forall i, j :: 0 <= i < j < |log| && SameNotification(log[i], log[j]) ==> log[i].ref < log[j].ref
  }

  /** No exchange is of a later record than the one retained. */
  ghost predicate UpToTable(log: seq<Entry>, table: Store<string, nat>) {
    forall i :: 0 <= i < |log| && log[i].Spoke? && table.Has(log[i].exchange.notificationId) ==>
      log[i].ref <= table.Get(log[i].exchange.notificationId)
  }

  /** A task that has not recorded its exchange owns a record without one. */
  ghost predicate Silent(log: seq<Entry>, tasks: map<nat, Task>, spoken: set<nat>) {
    forall t, i :: t in tasks && tasks[t].Running? && t !in spoken && 0 <= i < |log| && log[i].Spoke? ==>
      log[i].ref != tasks[t].ref
  }

  ghost predicate Kept(x: Session) {
    InOrder(x.log, x.s.records) && UpToTable(x.log, x.s.table) && Silent(x.log, x.s.tasks, x.spoken)
  }

  ghost predicate Sound(x: Session) { Base(x.s) && Kept(x) }

  lemma KeptIsOnce(x: Session)
    requires Kept(x)
    ensures !Twice(x)
  {
  }

  /** Whatever the step, exchanges stay in order and within the table. */
  lemma TableKeeps(x: Session, step: Step)
    requires Structured(x.s) && Kept(x) && Enabled(x.s, step)
    ensures Kept(Advance(x, Table(step)))
  {
    StepEvolves(x.s, step);
    hide Apply, Structured;
  }

  /** Processing tasks own records of their own. */
  ghost predicate OwnRecords(s: State) {
    forall t, u :: t in s.tasks && u in s.tasks && t != u && s.tasks[t].Running? && s.tasks[u].Running? ==>
      s.tasks[t].ref != s.tasks[u].ref
  }

  lemma BaseOwnsRecords(s: State)
    requires Base(s)
    ensures OwnRecords(s)
  {
    forall t, u | t in s.tasks && u in s.tasks && t != u && s.tasks[t].Running? && s.tasks[u].Running?
      ensures s.tasks[t].ref != s.tasks[u].ref
    {
      assert Processes(s, u, s.tasks[u].id) && Processes(s, t, s.tasks[t].id);
      assert s.records[s.tasks[u].ref].id == s.tasks[u].id && s.records[s.tasks[t].ref].id == s.tasks[t].id;
    }
  }

  /** A task whose record is retained may record its exchange. */
  lemma SayKeeps(x: Session, e: Event)
    requires Structured(x.s) && OwnRecords(x.s) && Kept(x) && e.Say? && Possible(x, e) && Retained(x.s, e.t)
    ensures Kept(Advance(x, e))
  {
    var task := x.s.tasks[e.t];
    assert x.s.records[task.ref].id == task.id;
    hide Structured, Retained;
  }

  lemma AdvanceIsSound(x: Session, e: Event)
    requires Sound(x) && !Exposed(x.s) && Possible(x, e)
    ensures Sound(Advance(x, e))
  {
    match e
    case Table(step) =>
      TableKeeps(x, step);
      StepFromSafe(x.s, step);
    case Say(t, _, _, _) =>
      BaseOwnsRecords(x.s);
      SayKeeps(x, e);
    case Forget(_) =>
  }

  // ---------------------------------------------------- up to an exposed state

  /** No state before the last one is exposed; waiters may be cancelled. */
  ghost predicate ShelteredPlay(x: Session, es: seq<Event>)
    decreases |es|
  {
    es != [] ==> !Exposed(x.s) && ShelteredPlay(if Possible(x, es[0]) then Advance(x, es[0]) else x, es[1..])
  }

  lemma {:induction false} ShelteredIsSound(x: Session, es: seq<Event>)
    requires Sound(x) && ShelteredPlay(x, es)
    ensures Sound(Play(x, es))
    decreases |es|
  {
    hide Sound, Exposed, Advance, Possible;
    if es != [] {
      if Possible(x, es[0]) {
        AdvanceIsSound(x, es[0]);
        ShelteredIsSound(Advance(x, es[0]), es[1..]);
      } else {
        ShelteredIsSound(x, es[1..]);
      }
    }
  }

  lemma StartIsSound(max: nat)
    ensures Sound(Start(max)) && Safe(Start(max).s)
  {
    InitialIsSafe(max);
  }

  /** In every run up to and including its first exposed state, cancelled waiters included, a record brings at most one
      exchange into the histories, and a notification at most one while its record is retained: the earlier of two is
      of a record that is gone. */
  lemma OneExchangePerRecord(max: nat, es: seq<Event>)
    requires ShelteredPlay(Start(max), es)
    ensures !Twice(Play(Start(max), es))
  {
    StartIsSound(max);
    ShelteredIsSound(Start(max), es);
    KeptIsOnce(Play(Start(max), es));
  }

  /** A run in which no waiter is cancelled has no exposed state at all. */
  lemma {:induction false} NobodyCancelledShelters(x: Session, es: seq<Event>)
    requires Safe(x.s) && NobodyCancelled(es)
    ensures ShelteredPlay(x, es)
    decreases |es|
  {
    hide Base, Exposed, Apply;
    if es != [] {
      assert NobodyCancelled(es[1..]);
      if Possible(x, es[0]) && es[0].Table? {
        StepIsSafe(x.s, es[0].step);
      }
      NobodyCancelledShelters(if Possible(x, es[0]) then Advance(x, es[0]) else x, es[1..]);
    }
  }

  lemma SafePlayIsSound(x: Session, es: seq<Event>)
    requires Sound(x) && !Exposed(x.s) && NobodyCancelled(es)
    ensures Sound(Play(x, es))
  {
    NobodyCancelledShelters(x, es);
    ShelteredIsSound(x, es);
  }

  // ------------------------------------------------------------ the histories

  /** The session's operations on its histories. */
  function OpOf(e: Entry): History.Op {
    match e
    case Spoke(_, c, exchange, contact) => History.Record(c, exchange, contact)
    case Forgot(None) => History.ForgetAll
    case Forgot(Some(c)) => History.Forget(c)
  }

  function OpsOf(log: seq<Entry>): (ops: seq<History.Op>)
    ensures |ops| == |log|
  {
    if log == [] then [] else OpsOf(log[..|log| - 1]) + [OpOf(log[|log| - 1])]
  }

  /** The exchanges of a conversation since it was last forgotten, with their records. */
  function SinceEntries(log: seq<Entry>, c: string): (es: seq<Entry>)
    ensures forall e :: e in es ==> e in log && e.Spoke?
  {
    if log == [] then []
    else
      var e := log[|log| - 1];
      if e.Forgot? && (e.which.None? || e.which.value == c) then []
      else SinceEntries(log[..|log| - 1], c) + if e.Spoke? && e.conversation == c then [e] else []
  }

  function ExchangesOf(es: seq<Entry>): (r: seq<History.Exchange>)
    requires forall e :: e in es ==> e.Spoke?
    ensures |r| == |es| && forall i :: 0 <= i < |r| ==> r[i] == es[i].exchange
  {
    seq(|es|, i requires 0 <= i < |es| => assert es[i] in es; es[i].exchange)
  }

  lemma {:induction false} SinceIsSince(log: seq<Entry>, c: string)
    ensures History.Since(OpsOf(log), c) == ExchangesOf(SinceEntries(log, c))
    decreases |log|
  {
    if log != [] {
      var before, ops, e := log[..|log| - 1], OpsOf(log), log[|log| - 1];
      SinceIsSince(before, c);
      assert ops[..|ops| - 1] == OpsOf(before) && ops[|ops| - 1] == OpOf(e);
      if e.Spoke? && e.conversation == c {
        ExchangesAppend(SinceEntries(before, c), e);
      }
      hide ExchangesOf;
    }
  }

  lemma ExchangesAppend(es: seq<Entry>, e: Entry)
    requires e.Spoke? && forall x :: x in es ==> x.Spoke?
    ensures ExchangesOf(es + [e]) == ExchangesOf(es) + [e.exchange]
  {
  }

  /** Of two exchanges of one notification in a conversation, the earlier is superseded. */
  ghost predicate OncePerRecord(es: seq<Entry>, table: Store<string, nat>) {
    forall i, j :: 0 <= i < j < |es| && SameNotification(es[i], es[j]) ==> Superseded(es[i], es[j], table)
  }

  lemma {:induction false} SinceIsOnce(log: seq<Entry>, c: string, table: Store<string, nat>)
    requires OncePerRecord(log, table)
    ensures OncePerRecord(SinceEntries(log, c), table)
    decreases |log|
  {
    if log != [] {
      var before := log[..|log| - 1];
      SinceIsOnce(before, c, table);
      var es := SinceEntries(log, c);
      forall i, j | 0 <= i < j < |es| && SameNotification(es[i], es[j])
        ensures Superseded(es[i], es[j], table)
      {
        if j == |SinceEntries(before, c)| {
          assert es[i] in before;
        }
      }
    }
  }

  /** So a history, which is the transcript of its latest exchanges since it was forgotten, holds at most one exchange
      of a notification whose record is retained, in every run up to and including its first exposed state. */
  lemma HistoriesHoldItOnce(max: nat, es: seq<Event>, maxTurns: nat, c: string)
    requires ShelteredPlay(Start(max), es)
    ensures var x := Play(Start(max), es);
            var entries := SinceEntries(x.log, c);
            && History.HistoryOf(History.Run(OpsOf(x.log), maxTurns), c)
               == History.Transcript(BoundedDeque.Last(ExchangesOf(entries), maxTurns))
            && OncePerRecord(entries, x.s.table)
  {
    var x := Play(Start(max), es);
    OneExchangePerRecord(max, es);
    hide Play, ShelteredPlay;
    SinceIsOnce(x.log, c, x.s.table);
    SinceIsSince(x.log, c);
    History.HistoryIsRecentExchanges(OpsOf(x.log), maxTurns, c);
  }
}
