/** Idempotent notifications of a Karakuri session: an insertion-ordered table of futures that evicts its
    oldest settled entries.

    A step is what a task does while it holds the lock, or between two awaits. Records are named by their
    index in `records`, as tasks keep hold of futures whose table entry is gone. */
module KarakuriNotifications {
  import opened Wrappers
  import opened OrderedStore

  datatype SessionResult = SessionResult(
    status: string, response: string, attempts: nat, duplicate: bool, timedOut: bool, error: Option<string>)

  /** `_duplicate_result`. */
  function DuplicateOf(r: SessionResult): SessionResult { r.(status := "duplicate", duplicate := true) }

  datatype Future = Pending | Resolved(value: SessionResult) | Cancelled

  datatype Rec = Rec(id: string, future: Future, result: Option<SessionResult>)

  /** A task that processes a notification, or one that awaits another's future. */
  datatype Task = Running(id: string, ref: nat) | Waiting(id: string, ref: nat)

  datatype Answer = Answer(ref: nat, result: SessionResult)

  datatype State = State(
    max: nat,
    table: Store<string, nat>,
    records: seq<Rec>,
    tasks: map<nat, Task>,
    answers: seq<Answer>)
  {
    predicate InTable(id: string) { table.Has(id) && table.Get(id) < |records| }

    predicate Settled(id: string) { InTable(id) && !records[table.Get(id)].future.Pending? }
  }

  function Initial(max: nat): State { State(max, Store([], map[]), [], map[], []) }

  /** `_trim_notifications`. */
  function Trim(table: Store<string, nat>, records: seq<Rec>, max: nat): Store<string, nat>
    decreases |table.keys|
  {
    if |table.keys| > max && table.Has(table.keys[0]) && table.Get(table.keys[0]) < |records|
       && !records[table.Get(table.keys[0])].future.Pending?
    then Trim(table.DropOldest(), records, max)
    else table
  }

  function Deliver(s: State, t: nat, id: string): State {
    if s.InTable(id) then
      var ref := s.table.Get(id);
      if s.records[ref].result.Some?
      then s.(answers := s.answers + [Answer(ref, DuplicateOf(s.records[ref].result.value))])
      else s.(tasks := s.tasks[t := Waiting(id, ref)])
    else
      var records := s.records + [Rec(id, Pending, None)];
      s.(records := records,
         table := Trim(s.table.Put(id, |s.records|), records, s.max),
         tasks := s.tasks[t := Running(id, |s.records|)])
  }

  function Settle(s: State, t: nat, result: SessionResult): State
    requires t in s.tasks
  {
    var task := s.tasks[t];
    var n := s.(tasks := s.tasks - {t}, answers := s.answers + [Answer(task.ref, result)]);
    if !s.InTable(task.id) then n
    else
      var r := s.records[s.table.Get(task.id)];
      var records := s.records[s.table.Get(task.id) :=
                       r.(result := Some(result), future := if r.future.Pending? then Resolved(result) else r.future)];
      n.(records := records, table := Trim(s.table, records, s.max))
  }

  /** The future of `ref`, cancelled unless it is done. */
  function CancelFuture(records: seq<Rec>, ref: nat): seq<Rec> {
    if ref < |records| && records[ref].future.Pending?
    then records[ref := records[ref].(future := Cancelled)]
    else records
  }

  datatype Step =
    | Arrive(t: nat, id: string)
    | Finish(t: nat, result: SessionResult)
    /** The processing task is cancelled and cancels its record's future. */
    | CancelOwner(t: nat)
    /** It is cancelled while it waits for the lock to settle; the record stays pending. */
    | Abandon(t: nat)
    | Wake(t: nat)
    /** A task awaiting a shared future is cancelled, which cancels the future itself. */
    | CancelWaiter(t: nat)

  predicate Enabled(s: State, step: Step) {
    match step
    case Arrive(t, _) => t !in s.tasks
    case Finish(t, _) => t in s.tasks && s.tasks[t].Running?
    case CancelOwner(t) => t in s.tasks && s.tasks[t].Running?
    case Abandon(t) => t in s.tasks && s.tasks[t].Running?
    case Wake(t) =>
      t in s.tasks && s.tasks[t].Waiting? && s.tasks[t].ref < |s.records| && !s.records[s.tasks[t].ref].future.Pending?
    case CancelWaiter(t) => t in s.tasks && s.tasks[t].Waiting?
  }

  function Apply(s: State, step: Step): State
    requires Enabled(s, step)
  {
    match step
    case Arrive(t, id) => Deliver(s, t, id)
    case Finish(t, result) => Settle(s, t, result)
    case CancelOwner(t) =>
      var n := s.(tasks := s.tasks - {t});
      if s.InTable(s.tasks[t].id) then n.(records := CancelFuture(s.records, s.table.Get(s.tasks[t].id))) else n
    case Abandon(t) => s.(tasks := s.tasks - {t})
    case Wake(t) =>
      var future := s.records[s.tasks[t].ref].future;
      var n := s.(tasks := s.tasks - {t});
      if future.Resolved? then n.(answers := s.answers + [Answer(s.tasks[t].ref, DuplicateOf(future.value))]) else n
    case CancelWaiter(t) => s.(tasks := s.tasks - {t}, records := CancelFuture(s.records, s.tasks[t].ref))
  }

  function Run(s: State, steps: seq<Step>): State
    decreases |steps|
  {
    if steps == [] then s
    else Run(if Enabled(s, steps[0]) then Apply(s, steps[0]) else s, steps[1..])
  }

  /** Nobody cancels a task that awaits another task's future. */
  predicate WaitersKept(steps: seq<Step>) { forall i :: 0 <= i < |steps| ==> !steps[i].CancelWaiter? }

  // --------------------------------------------------- the shape of a state

  predicate Processes(s: State, t: nat, id: string) { t in s.tasks && s.tasks[t].Running? && s.tasks[t].id == id }

  /** Two processing runs of one notification overlap. */
  ghost predicate Overlap(s: State) {
    exists t, u, id :: t != u && Processes(s, t, id) && Processes(s, u, id)
  }

  /** A processing task's own record is still in the table. */
  predicate Retained(s: State, t: nat)
    requires t in s.tasks
  {
    s.tasks[t].ref < |s.records| && s.table.Has(s.tasks[t].id) && s.table.Get(s.tasks[t].id) == s.tasks[t].ref
  }

  ghost predicate Structured(s: State) {
    && s.table.Valid()
    && (forall id :: id in s.table.vals ==> s.InTable(id) && s.records[s.table.Get(id)].id == id)
    && (forall t :: t in s.tasks ==> s.tasks[t].ref < |s.records| && s.records[s.tasks[t].ref].id == s.tasks[t].id)
  }

  /** Exactly once so far: no overlap, and every processing task's record is retained. */
  ghost predicate Base(s: State) {
    && Structured(s) && !Overlap(s)
    && (forall t :: t in s.tasks && s.tasks[t].Running? ==> Retained(s, t))
  }

  ghost predicate Owned(s: State, id: string) { exists t :: Processes(s, t, id) }

  /** Every pending record ahead of position `j` still has a processing task, so it can be settled. */
  ghost predicate Clearable(s: State, j: int)
    requires 0 <= j <= |s.table.keys|
  {
    forall i :: 0 <= i < j ==> s.Settled(s.table.keys[i]) || Owned(s, s.table.keys[i])
  }

  /** A notification is processed although its future is already done, and nothing keeps the table from
      evicting its record. */
  ghost predicate Exposed(s: State) {
    exists t, j :: t in s.tasks && s.tasks[t].Running? && 0 <= j < |s.table.keys|
      && s.table.keys[j] == s.tasks[t].id && s.Settled(s.table.keys[j]) && Clearable(s, j)
  }
}
