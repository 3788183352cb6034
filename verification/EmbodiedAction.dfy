/** The embodied-action dispatcher and its in-memory adapter: idempotency scopes, one-use receipts,
    dispatch owners, handles, rollback and cancel. */
module EmbodiedAction {
  import opened Wrappers

  // --------------------------------------------------------- identifiers

  predicate AlphaNumeric(c: char) { 'A' <= c <= 'Z' || 'a' <= c <= 'z' || '0' <= c <= '9' }

  predicate Identifier(s: string) {
    && 1 <= |s| <= 128 && AlphaNumeric(s[0])
    && forall i :: 0 <= i < |s| ==> AlphaNumeric(s[i]) || s[i] in {'_', '.', ':', '-'}
  }

  datatype Scope = Scope(tenantId: string, userId: string, key: string) {
    predicate Valid() { Identifier(tenantId) && Identifier(userId) && Identifier(key) }

    function Text(): string { tenantId + "|" + userId + "|" + key }
  }

  function HandleOf(dispatchId: string): string { "fake-handle:" + dispatchId }

  lemma {:induction false} SplitAtBar(a: string, rest: string, b: string, other: string)
    requires '|' !in a && '|' !in b && a + "|" + rest == b + "|" + other
    ensures a == b && rest == other
  {
    var whole := a + "|" + rest;
    if a == [] || b == [] {
      assert a == [] ==> whole[0] == '|';
      assert b == [] ==> whole[0] == '|';
      assert a == b;
      assert whole[1..] == rest && (b + "|" + other)[1..] == other;
    } else {
      assert whole[0] == a[0] && (b + "|" + other)[0] == b[0];
      assert whole[1..] == a[1..] + "|" + rest && (b + "|" + other)[1..] == b[1..] + "|" + other;
      SplitAtBar(a[1..], rest, b[1..], other);
    }
  }

  /** The joined effect key determines the scope, since no identifier holds the separator. */
  lemma TextIsInjective(a: Scope, b: Scope)
    requires a.Valid() && b.Valid() && a.Text() == b.Text()
    ensures a == b
  {
    assert a.Text() == a.tenantId + "|" + (a.userId + "|" + a.key);
    assert b.Text() == b.tenantId + "|" + (b.userId + "|" + b.key);
    SplitAtBar(a.tenantId, a.userId + "|" + a.key, b.tenantId, b.userId + "|" + b.key);
    SplitAtBar(a.userId, a.key, b.userId, b.key);
  }

  lemma HandleIsInjective(a: string, b: string)
    requires HandleOf(a) == HandleOf(b)
    ensures a == b
  {
    assert HandleOf(a)[|"fake-handle:"|..] == a && HandleOf(b)[|"fake-handle:"|..] == b;
  }

  // --------------------------------------------------------- the adapter

  datatype EffectState = Applied | WasCancelled | RolledBack

  datatype Effect = Effect(
    handleId: string, dispatchId: string, correlationId: string, userId: string, state: EffectState)

  /** The dispatch ids the fake is told to fail, time out or leave pending. */
  datatype Faults = Faults(failing: set<string>, timing: set<string>, pending: set<string>)

  datatype Adapter = Adapter(
    faults: Faults,
    invocations: seq<string>,
    effects: map<string, Effect>,
    handles: map<string, string>,
    duplicates: nat,
    rollbacks: nat,
    cancels: nat)

  datatype AdapterStatus = Done | FailedAfterApply | TimedOutAfterApply | PendingAfterApply | DuplicateRejected
  datatype RollbackStatus = RollbackDone | AlreadyRolledBack | RollbackNotFound
  datatype AdapterCancelStatus = CancelDone | AlreadyTerminal | CancelNotFound

  datatype Command = Command(dispatchId: string, scope: Scope, correlationId: string)

  function AdapterDispatch(a: Adapter, c: Command): (Adapter, AdapterStatus, string) {
    var key := c.scope.Text();
    var called := a.(invocations := a.invocations + [key]);
    if key in a.effects then
      (called.(duplicates := a.duplicates + 1), DuplicateRejected, a.effects[key].handleId)
    else
      var handle := HandleOf(c.dispatchId);
      (called.(effects := a.effects[key := Effect(handle, c.dispatchId, c.correlationId, c.scope.userId, Applied)],
               handles := a.handles[handle := key]),
       if c.dispatchId in a.faults.failing then FailedAfterApply
       else if c.dispatchId in a.faults.timing then TimedOutAfterApply
       else if c.dispatchId in a.faults.pending then PendingAfterApply
       else Done,
       handle)
  }

  predicate Knows(a: Adapter, handle: string) { handle in a.handles && a.handles[handle] in a.effects }

  function AdapterRollback(a: Adapter, handle: string): (Adapter, RollbackStatus) {
    if !Knows(a, handle) then (a, RollbackNotFound)
    else
      var key := a.handles[handle];
      if a.effects[key].state == RolledBack then (a, AlreadyRolledBack)
      else
        (a.(effects := a.effects[key := a.effects[key].(state := RolledBack)], rollbacks := a.rollbacks + 1),
         RollbackDone)
  }

  function AdapterCancel(a: Adapter, handle: string): (Adapter, AdapterCancelStatus) {
    if !Knows(a, handle) then (a, CancelNotFound)
    else
      var key := a.handles[handle];
      if a.effects[key].state != Applied then (a, AlreadyTerminal)
      else
        (a.(effects := a.effects[key := a.effects[key].(state := WasCancelled)], cancels := a.cancels + 1), CancelDone)
  }

  // --------------------------------------------------------- the service

  datatype Request = Request(
    dispatchId: string, tenantId: string, userId: string, idempotencyKey: string, correlationId: string,
    rollbackToken: string, receiptId: string, deadline: real, cancelRequested: bool, body: string)
  {
    function ScopeOf(): Scope { Scope(tenantId, userId, idempotencyKey) }

    predicate IdsValid() {
      && Identifier(dispatchId) && Identifier(tenantId) && Identifier(userId) && Identifier(idempotencyKey)
      && Identifier(correlationId) && Identifier(rollbackToken)
    }
  }

  /** The clock, and what the validators that are not modelled say of this request. */
  datatype Checks = Checks(shape: bool, now: real, world: bool, authorized: bool)

  datatype BlockReason = ContractBroken | WorldPrecondition | RiskOrPermission | ReceiptReplay | AdapterDuplicate

  datatype Status =
    | Blocked(reason: BlockReason) | TimedOut | CancelledBeforeDispatch | ScopeConflict | KeyConflict | Duplicate
    | Completed | Pending | FailedRolledBack | TimedOutRolledBack

  /** A result's hash stands for the result: hashing is injective. */
  datatype Digest = Digest(request: Request, status: Status, handleId: string)

  datatype Reply = Reply(
    status: Status, invoked: bool, handleId: Option<string>, rolledBack: bool, duplicateOf: Option<Digest>)

  datatype Entry = Entry(request: Request, dispatchId: string, result: Option<Digest>)

  datatype PendingDispatch = PendingDispatch(
    tenantId: string, userId: string, correlationId: string, handleId: string, rollbackToken: string)

  datatype Service = Service(
    adapter: Adapter,
    idempotency: map<Scope, Entry>,
    owners: map<string, Scope>,
    receipts: map<string, string>,
    pending: map<string, PendingDispatch>)

  function Fresh(faults: Faults): Service {
    Service(Adapter(faults, [], map[], map[], 0, 0, 0), map[], map[], map[], map[])
  }

  function NotInvoked(status: Status): Reply { Reply(status, false, None, false, None) }

  /** Everything up to the adapter call: the reply of a refused or suppressed dispatch, if it is one. */
  function Refusal(s: Service, r: Request, c: Checks): Option<Reply> {
    var scope := r.ScopeOf();
    if !r.IdsValid() || !c.shape then Some(NotInvoked(Blocked(ContractBroken)))
    else if c.now >= r.deadline then Some(NotInvoked(TimedOut))
    else if r.cancelRequested then Some(NotInvoked(CancelledBeforeDispatch))
    else if r.dispatchId in s.owners && s.owners[r.dispatchId] != scope then Some(NotInvoked(ScopeConflict))
    else if scope in s.idempotency then
      if s.idempotency[scope].request == r
      then Some(NotInvoked(Duplicate).(duplicateOf := s.idempotency[scope].result))
      else Some(NotInvoked(KeyConflict))
    else if !c.world then Some(NotInvoked(Blocked(WorldPrecondition)))
    else if !c.authorized then Some(NotInvoked(Blocked(RiskOrPermission)))
    else if r.receiptId in s.receipts then Some(NotInvoked(Blocked(ReceiptReplay)))
    else None
  }

  /** What the adapter's answer leads to. */
  function Conclude(s: Service, r: Request, status: AdapterStatus, handle: string): (Service, Reply) {
    match status
    case Done => (s, Reply(Completed, true, Some(handle), false, None))
    case PendingAfterApply =>
      (s.(pending := s.pending[r.dispatchId :=
            PendingDispatch(r.tenantId, r.userId, r.correlationId, handle, r.rollbackToken)]),
       Reply(Pending, true, Some(handle), false, None))
    case DuplicateRejected => (s, Reply(Blocked(AdapterDuplicate), true, Some(handle), false, None))
    case _ =>
      var (adapter, rollback) := AdapterRollback(s.adapter, handle);
      (s.(adapter := adapter),
       Reply(if status.TimedOutAfterApply? then TimedOutRolledBack else FailedRolledBack, true, Some(handle),
             !rollback.RollbackNotFound?, None))
  }

  function Dispatch(s: Service, r: Request, c: Checks): (Service, Reply) {
    var refusal := Refusal(s, r, c);
    if refusal.Some? then (s, refusal.value)
    else
      var scope := r.ScopeOf();
      var (adapter, status, handle) := AdapterDispatch(s.adapter, Command(r.dispatchId, scope, r.correlationId));
      var (n, reply) := Conclude(s.(adapter := adapter,
                                    owners := s.owners[r.dispatchId := scope],
                                    idempotency := s.idempotency[scope := Entry(r, r.dispatchId, None)],
                                    receipts := s.receipts[r.receiptId := r.dispatchId]), r, status, handle);
      (n.(idempotency := s.idempotency[scope := Entry(r, r.dispatchId, Some(Digest(r, reply.status, handle)))]), reply)
  }

  datatype CancelStatus = IdInvalid | BlockedNotFound | BlockedScopeMismatch | CancelledRolledBack | CancelFailedClosed

  function Cancel(s: Service, dispatchId: string, tenantId: string, userId: string, correlationId: string)
    : (Service, CancelStatus)
  {
    if !Identifier(dispatchId) || !Identifier(tenantId) || !Identifier(userId) || !Identifier(correlationId) then
      (s, IdInvalid)
    else if dispatchId !in s.pending then (s, BlockedNotFound)
    else
      var p := s.pending[dispatchId];
      if (p.tenantId, p.userId, p.correlationId) != (tenantId, userId, correlationId) then (s, BlockedScopeMismatch)
      else
        var (cancelled, status) := AdapterCancel(s.adapter, p.handleId);
        var (adapter, rollback) := AdapterRollback(cancelled, p.handleId);
        (s.(adapter := adapter, pending := s.pending - {dispatchId}),
         if !status.CancelNotFound? && !rollback.RollbackNotFound? then CancelledRolledBack else CancelFailedClosed)
  }

  datatype Call =
    | DispatchCall(request: Request, checks: Checks)
    | CancelCall(dispatchId: string, tenantId: string, userId: string, correlationId: string)

  function Step(s: Service, call: Call): Service {
    match call
    case DispatchCall(r, c) => Dispatch(s, r, c).0
    case CancelCall(d, t, u, x) => Cancel(s, d, t, u, x).0
  }

  function Run(s: Service, calls: seq<Call>): Service
    decreases |calls|
  {
    if calls == [] then s else Run(Step(s, calls[0]), calls[1..])
  }

  // ------------------------------------------------------------ agreement

  /** One dispatch's records: owner, scope, effect, handle and receipt name each other. */
  ghost predicate Linked(s: Service, scope: Scope) {
    && scope in s.idempotency
    && var e := s.idempotency[scope];
       var d := e.dispatchId;
       && scope.Valid() && e.request.ScopeOf() == scope && e.request.dispatchId == d
       && d in s.owners && s.owners[d] == scope
       && e.request.receiptId in s.receipts && s.receipts[e.request.receiptId] == d
       && scope.Text() in s.adapter.effects
       && s.adapter.effects[scope.Text()].dispatchId == d && s.adapter.effects[scope.Text()].handleId == HandleOf(d)
       && HandleOf(d) in s.adapter.handles && s.adapter.handles[HandleOf(d)] == scope.Text()
  }

  ghost predicate OwnerLinked(s: Service, d: string) {
    d in s.owners && s.owners[d] in s.idempotency && s.idempotency[s.owners[d]].dispatchId == d
  }

  ghost predicate ReceiptLinked(s: Service, r: string) {
    && r in s.receipts && OwnerLinked(s, s.receipts[r])
    && s.idempotency[s.owners[s.receipts[r]]].request.receiptId == r
  }

  ghost predicate EffectLinked(s: Service, key: string) {
    && key in s.adapter.effects && OwnerLinked(s, s.adapter.effects[key].dispatchId)
    && s.owners[s.adapter.effects[key].dispatchId].Text() == key
  }

  ghost predicate HandleLinked(s: Service, h: string) {
    && h in s.adapter.handles && EffectLinked(s, s.adapter.handles[h])
    && s.adapter.effects[s.adapter.handles[h]].handleId == h
  }

  /** Owners, receipts, effects, handles and scopes correspond one to one. */
  ghost predicate Agreement(s: Service) {
    && (forall scope {:trigger Linked(s, scope)} :: scope in s.idempotency ==> Linked(s, scope))
    && (forall d {:trigger OwnerLinked(s, d)} :: d in s.owners ==> OwnerLinked(s, d))
    && (forall r {:trigger ReceiptLinked(s, r)} :: r in s.receipts ==> ReceiptLinked(s, r))
    && (forall k {:trigger EffectLinked(s, k)} :: k in s.adapter.effects ==> EffectLinked(s, k))
    && (forall h {:trigger HandleLinked(s, h)} :: h in s.adapter.handles ==> HandleLinked(s, h))
  }

  ghost predicate Counts(s: Service) {
    && |s.idempotency| == |s.owners| == |s.receipts|
    && |s.receipts| == |s.adapter.effects| == |s.adapter.handles| == |s.adapter.invocations|
    && s.adapter.duplicates == 0
  }

  /** An effect stands exactly when its dispatch completed or is still pending; otherwise it is rolled back. */
  ghost predicate Conserved(s: Service, scope: Scope) {
    && scope in s.idempotency && scope.Text() in s.adapter.effects
    && var (e, effect) := (s.idempotency[scope], s.adapter.effects[scope.Text()]);
    && e.result.Some? && e.result.value.request == e.request && e.result.value.handleId == HandleOf(e.dispatchId)
    && e.result.value.status in {Completed, Pending, FailedRolledBack, TimedOutRolledBack}
    && effect.state == (if e.result.value.status == Completed || e.dispatchId in s.pending then Applied else RolledBack)
    && (e.dispatchId in s.pending ==>
          && e.result.value.status == Pending
          && s.pending[e.dispatchId] ==
             PendingDispatch(scope.tenantId, scope.userId, e.request.correlationId, HandleOf(e.dispatchId),
                             e.request.rollbackToken))
  }

  function RolledBackKeys(effects: map<string, Effect>): set<string> {
    set k | k in effects && effects[k].state == RolledBack
  }

  /** Dispatches that were left pending and since cancelled. */
  function CancelledScopes(s: Service): set<Scope> {
    set k | k in s.idempotency && s.idempotency[k].result.Some? && s.idempotency[k].result.value.status == Pending
            && s.idempotency[k].dispatchId !in s.pending
  }

  ghost predicate Conservation(s: Service) {
    && (forall scope {:trigger Conserved(s, scope)} :: scope in s.idempotency ==> Conserved(s, scope))
    && (forall d :: d in s.pending ==> d in s.owners)
    && s.adapter.rollbacks == |RolledBackKeys(s.adapter.effects)|
    && s.adapter.cancels == |CancelledScopes(s)|
  }

  ghost predicate Inv(s: Service) { Agreement(s) && Counts(s) && Conservation(s) }

  // ------------------------------------------------------- every step keeps it

  lemma NewKeyAndHandle(s: Service, scope: Scope, d: string)
    requires Agreement(s) && scope.Valid() && scope !in s.idempotency && d !in s.owners
    ensures scope.Text() !in s.adapter.effects && HandleOf(d) !in s.adapter.handles
  {
    hide Identifier;
    if scope.Text() in s.adapter.effects {
      assert EffectLinked(s, scope.Text());
      var other := s.owners[s.adapter.effects[scope.Text()].dispatchId];
      assert Linked(s, other);
      TextIsInjective(scope, other);
    }
    if HandleOf(d) in s.adapter.handles {
      assert HandleLinked(s, HandleOf(d));
      var e := s.adapter.effects[s.adapter.handles[HandleOf(d)]];
      assert Linked(s, s.owners[e.dispatchId]);
      hide Scope.Text;
      HandleIsInjective(d, e.dispatchId);
    }
  }

  /** The request's scope, owner, receipt, effect key and handle are all new. */
  ghost predicate AllNew(s: Service, r: Request) {
    && r.ScopeOf().Valid()
    && r.ScopeOf() !in s.idempotency && r.dispatchId !in s.owners && r.receiptId !in s.receipts
    && r.ScopeOf().Text() !in s.adapter.effects && HandleOf(r.dispatchId) !in s.adapter.handles
    && r.dispatchId !in s.pending
  }

  /** A dispatch that gets past its checks uses nothing twice. */
  lemma EverythingIsNew(s: Service, r: Request, c: Checks)
    requires Inv(s) && Refusal(s, r, c).None?
    ensures AllNew(s, r)
  {
    hide Identifier, Scope.Text, HandleOf;
    assert r.dispatchId in s.owners ==> OwnerLinked(s, r.dispatchId);
    NewKeyAndHandle(s, r.ScopeOf(), r.dispatchId);
  }

  function FaultOf(faults: Faults, d: string): Status {
    if d in faults.failing then FailedRolledBack
    else if d in faults.timing then TimedOutRolledBack
    else if d in faults.pending then Pending
    else Completed
  }

  predicate Undone(status: Status) { status == FailedRolledBack || status == TimedOutRolledBack }

  /** One new entry everywhere. */
  function Added(s: Service, r: Request): Service {
    var scope, handle, d := r.ScopeOf(), HandleOf(r.dispatchId), r.dispatchId;
    var status := FaultOf(s.adapter.faults, d);
    var effect := Effect(handle, d, r.correlationId, r.userId, if Undone(status) then RolledBack else Applied);
    Service(
      Adapter(s.adapter.faults, s.adapter.invocations + [scope.Text()], s.adapter.effects[scope.Text() := effect],
              s.adapter.handles[handle := scope.Text()], s.adapter.duplicates,
              s.adapter.rollbacks + (if Undone(status) then 1 else 0), s.adapter.cancels),
      s.idempotency[scope := Entry(r, d, Some(Digest(r, status, handle)))],
      s.owners[d := scope], s.receipts[r.receiptId := d],
      if status == Pending
      then s.pending[d := PendingDispatch(r.tenantId, r.userId, r.correlationId, handle, r.rollbackToken)]
      else s.pending)
  }

  /** A dispatch that reaches the adapter adds its entry everywhere and says how it ended. */
  lemma DispatchAdds(s: Service, r: Request, c: Checks)
    requires AllNew(s, r) && Refusal(s, r, c).None?
    ensures var status := FaultOf(s.adapter.faults, r.dispatchId);
            Dispatch(s, r, c) == (Added(s, r), Reply(status, true, Some(HandleOf(r.dispatchId)), Undone(status), None))
  {
    hide Identifier, Scope.Text, HandleOf, Refusal;
    var scope := r.ScopeOf();
    var (adapter, status, handle) := AdapterDispatch(s.adapter, Command(r.dispatchId, scope, r.correlationId));
    var effect := adapter.effects[scope.Text()];
    assert adapter.effects[scope.Text() := effect.(state := RolledBack)]
           == s.adapter.effects[scope.Text() := effect.(state := RolledBack)];
  }

  lemma AddedLinks(s: Service, r: Request)
    requires Agreement(s) && AllNew(s, r)
    ensures forall scope :: scope in Added(s, r).idempotency ==> Linked(Added(s, r), scope)
  {
    hide Identifier, Scope.Text, HandleOf;
    var n := Added(s, r);
    forall scope | scope in n.idempotency
      ensures Linked(n, scope)
    {
      if scope != r.ScopeOf() {
        assert Linked(s, scope);
        hide Agreement;
      }
    }
  }

  lemma AddedOwners(s: Service, r: Request)
    requires Agreement(s) && AllNew(s, r)
    ensures forall d :: d in Added(s, r).owners ==> OwnerLinked(Added(s, r), d)
    ensures forall x :: x in Added(s, r).receipts ==> ReceiptLinked(Added(s, r), x)
  {
    hide Identifier, Scope.Text, HandleOf;
    var n := Added(s, r);
    forall d | d in n.owners
      ensures OwnerLinked(n, d)
    {
      assert d != r.dispatchId ==> OwnerLinked(s, d);
    }
    forall x | x in n.receipts
      ensures ReceiptLinked(n, x)
    {
      assert x != r.receiptId ==> ReceiptLinked(s, x);
    }
  }

  lemma AddedEffects(s: Service, r: Request)
    requires Agreement(s) && AllNew(s, r)
    ensures forall k :: k in Added(s, r).adapter.effects ==> EffectLinked(Added(s, r), k)
    ensures forall h :: h in Added(s, r).adapter.handles ==> HandleLinked(Added(s, r), h)
  {
    hide Identifier, Scope.Text, HandleOf;
    var n := Added(s, r);
    forall k | k in n.adapter.effects
      ensures EffectLinked(n, k)
    {
      assert k != r.ScopeOf().Text() ==> EffectLinked(s, k);
    }
    forall h | h in n.adapter.handles
      ensures HandleLinked(n, h)
    {
      assert h != HandleOf(r.dispatchId) ==> HandleLinked(s, h);
    }
  }

  lemma AddedCounts(s: Service, r: Request)
    requires Counts(s) && AllNew(s, r)
    ensures Counts(Added(s, r))
  {
    hide Identifier, Scope.Text, HandleOf, Scope.Valid;
  }

  lemma AddedAgrees(s: Service, r: Request)
    requires Inv(s) && AllNew(s, r)
    ensures Agreement(Added(s, r)) && Counts(Added(s, r))
  {
    hide Identifier, Scope.Text, HandleOf, Linked, OwnerLinked, ReceiptLinked, EffectLinked, HandleLinked, Conservation;
    hide Added, Counts, AllNew;
    AddedLinks(s, r);
    AddedOwners(s, r);
    AddedEffects(s, r);
    AddedCounts(s, r);
  }

  lemma RolledBackUpdate(effects: map<string, Effect>, key: string, e: Effect)
    ensures RolledBackKeys(effects[key := e])
            == RolledBackKeys(effects) - {key} + if e.state == RolledBack then {key} else {}
  {
  }

  lemma AddedScopesConserve(s: Service, r: Request, scope: Scope)
    requires Agreement(s) && Conservation(s) && AllNew(s, r) && scope in Added(s, r).idempotency
    ensures Conserved(Added(s, r), scope) && (scope in CancelledScopes(Added(s, r)) <==> scope in CancelledScopes(s))
  {
    hide Identifier, Scope.Text, HandleOf, Scope.Valid;
    if scope != r.ScopeOf() {
      assert Linked(s, scope) && Conserved(s, scope);
    }
  }

  lemma AddedRollbacks(s: Service, r: Request)
    requires AllNew(s, r) && s.adapter.rollbacks == |RolledBackKeys(s.adapter.effects)|
    ensures Added(s, r).adapter.rollbacks == |RolledBackKeys(Added(s, r).adapter.effects)|
  {
    var key := r.ScopeOf().Text();
    RolledBackUpdate(s.adapter.effects, key, Added(s, r).adapter.effects[key]);
    assert key !in RolledBackKeys(s.adapter.effects);
    hide Identifier, Scope.Text, HandleOf, Scope.Valid, RolledBackKeys;
  }

  lemma AddedConserves(s: Service, r: Request)
    requires Inv(s) && AllNew(s, r)
    ensures Conservation(Added(s, r))
  {
    AddedRollbacks(s, r);
    hide Identifier, Scope.Text, HandleOf, Scope.Valid, Agreement, Counts, Conserved, Linked, RolledBackKeys;
    forall scope | scope in Added(s, r).idempotency
      ensures Conserved(Added(s, r), scope)
      ensures scope in CancelledScopes(Added(s, r)) <==> scope in CancelledScopes(s)
    {
      AddedScopesConserve(s, r, scope);
    }
    assert CancelledScopes(Added(s, r)) == CancelledScopes(s);
  }

  /** The pending dispatch `d` undone and forgotten. */
  function Undo(s: Service, d: string): Service
    requires d in s.owners && s.owners[d].Text() in s.adapter.effects
  {
    var key := s.owners[d].Text();
    s.(pending := s.pending - {d},
       adapter := s.adapter.(
         effects := s.adapter.effects[key := s.adapter.effects[key].(state := RolledBack)],
         rollbacks := s.adapter.rollbacks + 1, cancels := s.adapter.cancels + 1))
  }

  /** A matching cancel of a pending dispatch cancels its effect, rolls it back and forgets it. */
  lemma CancelUndoes(s: Service, d: string, t: string, u: string, x: string)
    requires Inv(s) && d in s.pending
    requires (s.pending[d].tenantId, s.pending[d].userId, s.pending[d].correlationId) == (t, u, x)
    requires Identifier(d) && Identifier(t) && Identifier(u) && Identifier(x)
    ensures d in s.owners && s.owners[d].Text() in s.adapter.effects
    ensures s.adapter.effects[s.owners[d].Text()].state == Applied
    ensures Cancel(s, d, t, u, x) == (Undo(s, d), CancelledRolledBack)
  {
    hide Identifier, Scope.Text, HandleOf;
    assert OwnerLinked(s, d);
    var scope := s.owners[d];
    assert Linked(s, scope) && Conserved(s, scope);
    hide Agreement, Conservation;
    var key := scope.Text();
    var effect := s.adapter.effects[key];
    assert s.adapter.effects[key := effect.(state := WasCancelled)][key := effect.(state := RolledBack)]
           == s.adapter.effects[key := effect.(state := RolledBack)];
  }

  /** All but the state of the effects, the counters and the pending dispatches is as it was. */
  ghost predicate SameNames(s: Service, n: Service) {
    && n.idempotency == s.idempotency && n.owners == s.owners && n.receipts == s.receipts
    && n.adapter.handles == s.adapter.handles && n.adapter.effects.Keys == s.adapter.effects.Keys
    && forall k :: k in s.adapter.effects ==>
         && n.adapter.effects[k].dispatchId == s.adapter.effects[k].dispatchId
         && n.adapter.effects[k].handleId == s.adapter.effects[k].handleId
  }

  lemma SameNamesAgree(s: Service, n: Service)
    requires Agreement(s) && SameNames(s, n)
    ensures Agreement(n)
  {
    hide Identifier, Scope.Text, HandleOf, Scope.Valid;
    forall scope | scope in n.idempotency
      ensures Linked(n, scope)
    {
      assert Linked(s, scope);
    }
    forall x
      ensures x in n.owners ==> OwnerLinked(n, x)
      ensures x in n.receipts ==> ReceiptLinked(n, x)
      ensures x in n.adapter.effects ==> EffectLinked(n, x)
      ensures x in n.adapter.handles ==> HandleLinked(n, x)
    {
      assert x in s.owners ==> OwnerLinked(s, x);
      assert x in s.receipts ==> ReceiptLinked(s, x);
      assert x in s.adapter.effects ==> EffectLinked(s, x);
      assert x in s.adapter.handles ==> HandleLinked(s, x);
    }
  }

  lemma UndoAgrees(s: Service, d: string)
    requires Inv(s) && d in s.pending && d in s.owners && s.owners[d].Text() in s.adapter.effects
    ensures Agreement(Undo(s, d)) && Counts(Undo(s, d))
  {
    hide Identifier, Scope.Text, HandleOf, Conservation, Scope.Valid, Agreement;
    var n := Undo(s, d);
    assert n.adapter.effects.Keys == s.adapter.effects.Keys;
    assert |n.adapter.effects| == |n.adapter.effects.Keys| == |s.adapter.effects.Keys| == |s.adapter.effects|;
    SameNamesAgree(s, n);
  }

  lemma UndoScopesConserve(s: Service, d: string, scope: Scope)
    requires Agreement(s) && Conservation(s) && d in s.pending && Linked(s, s.owners[d]) && d in s.owners
    requires s.idempotency[s.owners[d]].dispatchId == d && scope in s.idempotency
    ensures Conserved(Undo(s, d), scope)
    ensures scope in CancelledScopes(Undo(s, d)) <==> scope in CancelledScopes(s) || scope == s.owners[d]
  {
    assert Linked(s, scope) && Conserved(s, scope);
    hide Identifier, Scope.Text, HandleOf, Agreement;
    if scope != s.owners[d] && scope.Text() == s.owners[d].Text() {
      TextIsInjective(scope, s.owners[d]);
    }
  }

  lemma UndoRollbacks(s: Service, d: string)
    requires d in s.owners && s.owners[d].Text() in s.adapter.effects
    requires s.adapter.effects[s.owners[d].Text()].state == Applied
    requires s.adapter.rollbacks == |RolledBackKeys(s.adapter.effects)|
    ensures Undo(s, d).adapter.rollbacks == |RolledBackKeys(Undo(s, d).adapter.effects)|
  {
    var key := s.owners[d].Text();
    RolledBackUpdate(s.adapter.effects, key, Undo(s, d).adapter.effects[key]);
    assert key !in RolledBackKeys(s.adapter.effects);
    hide Identifier, Scope.Text, HandleOf, Scope.Valid, RolledBackKeys;
  }

  lemma UndoCancelled(s: Service, d: string)
    requires Agreement(s) && Conservation(s) && d in s.pending && Linked(s, s.owners[d]) && d in s.owners
    requires s.idempotency[s.owners[d]].dispatchId == d && s.owners[d].Text() in s.adapter.effects
    ensures forall scope :: scope in s.idempotency ==> Conserved(Undo(s, d), scope)
    ensures CancelledScopes(Undo(s, d)) == CancelledScopes(s) + {s.owners[d]}
  {
    assert s.owners[d] in s.idempotency;
    hide Identifier, Scope.Text, HandleOf, Agreement, Conservation, Conserved, Linked;
    forall scope | scope in s.idempotency
      ensures Conserved(Undo(s, d), scope)
      ensures scope in CancelledScopes(Undo(s, d)) <==> scope in CancelledScopes(s) || scope == s.owners[d]
    {
      UndoScopesConserve(s, d, scope);
    }
  }

  lemma PendingIsApplied(s: Service, d: string)
    requires Inv(s) && d in s.pending && d in s.owners && s.owners[d].Text() in s.adapter.effects
    ensures Linked(s, s.owners[d]) && s.idempotency[s.owners[d]].dispatchId == d
    ensures s.adapter.effects[s.owners[d].Text()].state == Applied && s.owners[d] !in CancelledScopes(s)
  {
    hide Identifier, Scope.Text, HandleOf, Scope.Valid, RolledBackKeys;
    assert OwnerLinked(s, d) && Linked(s, s.owners[d]) && Conserved(s, s.owners[d]);
  }

  lemma UndoConserves(s: Service, d: string)
    requires Inv(s) && d in s.pending && d in s.owners && s.owners[d].Text() in s.adapter.effects
    ensures Conservation(Undo(s, d))
  {
    hide Identifier, Scope.Text, HandleOf, Scope.Valid, Agreement, Counts, Conserved, Linked;
    hide RolledBackKeys, CancelledScopes;
    PendingIsApplied(s, d);
    UndoRollbacks(s, d);
    UndoCancelled(s, d);
  }

  lemma StepKeeps(s: Service, call: Call)
    requires Inv(s)
    ensures Inv(Step(s, call))
  {
    hide Agreement, Conservation, Identifier;
    match call
    case DispatchCall(r, c) =>
      if Refusal(s, r, c).None? {
        EverythingIsNew(s, r, c);
        DispatchAdds(s, r, c);
        AddedAgrees(s, r);
        AddedConserves(s, r);
      }
    case CancelCall(d, t, u, x) =>
      if d in s.pending && Cancel(s, d, t, u, x).1 !in {IdInvalid, BlockedScopeMismatch} {
        CancelUndoes(s, d, t, u, x);
        UndoAgrees(s, d);
        UndoConserves(s, d);
      }
  }

  lemma {:induction false} RunKeeps(s: Service, calls: seq<Call>)
    requires Inv(s)
    ensures Inv(Run(s, calls))
    decreases |calls|
  {
    hide Inv, Step;
    if calls != [] {
      StepKeeps(s, calls[0]);
      RunKeeps(Step(s, calls[0]), calls[1..]);
    }
  }

  lemma FreshKeeps(faults: Faults)
    ensures Inv(Fresh(faults))
  {
  }

  // --------------------------------------------------------- over every run

  /** Whatever is dispatched and cancelled, scopes, owners, receipts, effects, handles and adapter calls
      stay in step and no side effect is duplicated. The duplicate branch and the failed cancel never happen. */
  lemma NoDuplicateSideEffects(faults: Faults, calls: seq<Call>, call: Call)
    ensures var s := Run(Fresh(faults), calls);
            && Agreement(s) && Counts(s)
            && (call.DispatchCall? ==> Dispatch(s, call.request, call.checks).1.status != Blocked(AdapterDuplicate))
            && (call.CancelCall? ==>
                  Cancel(s, call.dispatchId, call.tenantId, call.userId, call.correlationId).1 != CancelFailedClosed)
  {
    var s := Run(Fresh(faults), calls);
    FreshKeeps(faults);
    RunKeeps(Fresh(faults), calls);
    hide Agreement, Counts, Conservation, Identifier, Run, Dispatch;
    match call
    case DispatchCall(r, c) =>
      if Refusal(s, r, c).None? {
        EverythingIsNew(s, r, c);
        DispatchAdds(s, r, c);
      } else {
        DispatchRefused(s, r, c);
      }
    case CancelCall(d, t, u, x) =>
      if d in s.pending && Cancel(s, d, t, u, x).1 !in {IdInvalid, BlockedScopeMismatch} {
        CancelUndoes(s, d, t, u, x);
      }
  }

  /** After every call: an effect is applied exactly when its dispatch completed or is pending, and rolled back
      otherwise; none is left cancelled, and the rollback and cancel counters count exactly those. */
  lemma RollbackConservation(faults: Faults, calls: seq<Call>, key: string)
    ensures var s := Run(Fresh(faults), calls);
            && s.adapter.rollbacks == |RolledBackKeys(s.adapter.effects)| && s.adapter.cancels == |CancelledScopes(s)|
            && (key in s.adapter.effects ==>
                  var effect := s.adapter.effects[key];
                  && effect.dispatchId in s.owners && s.owners[effect.dispatchId] in s.idempotency
                  && s.idempotency[s.owners[effect.dispatchId]].result.Some?
                  && effect.state != WasCancelled
                  && (effect.state == Applied <==>
                        s.idempotency[s.owners[effect.dispatchId]].result.value.status == Completed
                        || effect.dispatchId in s.pending))
  {
    FreshKeeps(faults);
    RunKeeps(Fresh(faults), calls);
    hide Run, Identifier, Scope.Text, HandleOf;
    var s := Run(Fresh(faults), calls);
    if key in s.adapter.effects {
      assert EffectLinked(s, key);
      var scope := s.owners[s.adapter.effects[key].dispatchId];
      assert Linked(s, scope) && Conserved(s, scope);
    }
  }

  /** A cancel changes anything exactly when it names a pending dispatch with its tenant, user and correlation;
      it then rolls back that dispatch's applied effect and nothing else. */
  lemma CancelActsIff(faults: Faults, calls: seq<Call>, d: string, t: string, u: string, x: string)
    ensures var s := Run(Fresh(faults), calls);
            var (n, status) := Cancel(s, d, t, u, x);
            && (n != s <==> status == CancelledRolledBack)
            && (status == CancelledRolledBack <==>
                  && Identifier(d) && Identifier(t) && Identifier(u) && Identifier(x) && d in s.pending
                  && (s.pending[d].tenantId, s.pending[d].userId, s.pending[d].correlationId) == (t, u, x))
            && (n != s ==>
                  && d in s.owners && s.owners[d].Text() in s.adapter.effects
                  && s.adapter.effects[s.owners[d].Text()].state == Applied && n == Undo(s, d))
  {
    FreshKeeps(faults);
    RunKeeps(Fresh(faults), calls);
    hide Agreement, Conservation, Identifier, Run;
    var s := Run(Fresh(faults), calls);
    if d in s.pending && Cancel(s, d, t, u, x).1 !in {IdInvalid, BlockedScopeMismatch} {
      CancelUndoes(s, d, t, u, x);
    }
  }

  // ------------------------------------------------------- retries and receipts

  lemma StepRemembers(s: Service, call: Call, scope: Scope, d: string, receipt: string)
    requires Inv(s) && scope in s.idempotency && d in s.owners && receipt in s.receipts
    ensures var n := Step(s, call);
            && scope in n.idempotency && n.idempotency[scope] == s.idempotency[scope]
            && d in n.owners && n.owners[d] == s.owners[d] && receipt in n.receipts
  {
    hide Agreement, Conservation, Identifier;
    match call
    case DispatchCall(r, c) =>
      if Refusal(s, r, c).None? {
        EverythingIsNew(s, r, c);
        DispatchAdds(s, r, c);
      }
    case CancelCall(_, _, _, _) =>
  }

  lemma {:induction false} RunRemembers(s: Service, calls: seq<Call>, scope: Scope, d: string, receipt: string)
    requires Inv(s) && scope in s.idempotency && d in s.owners && receipt in s.receipts
    ensures var n := Run(s, calls);
            && scope in n.idempotency && n.idempotency[scope] == s.idempotency[scope]
            && d in n.owners && n.owners[d] == s.owners[d] && receipt in n.receipts
    decreases |calls|
  {
    hide Inv, Step;
    if calls != [] {
      StepRemembers(s, calls[0], scope, d, receipt);
      StepKeeps(s, calls[0]);
      RunRemembers(Step(s, calls[0]), calls[1..], scope, d, receipt);
    }
  }

  lemma DispatchRefused(s: Service, r: Request, c: Checks)
    requires Refusal(s, r, c).Some?
    ensures Dispatch(s, r, c) == (s, Refusal(s, r, c).value)
    ensures !Refusal(s, r, c).value.invoked && Refusal(s, r, c).value.status != Blocked(AdapterDuplicate)
  {
  }

  /** A request that shares its scope, dispatch id or receipt with a finished dispatch is refused. */
  lemma RefusedAgain(n: Service, r: Request, digest: Digest, again: Request, later: Checks)
    requires r.ScopeOf() in n.idempotency && n.idempotency[r.ScopeOf()] == Entry(r, r.dispatchId, Some(digest))
    requires r.dispatchId in n.owners && n.owners[r.dispatchId] == r.ScopeOf() && r.receiptId in n.receipts
    requires again.ScopeOf() == r.ScopeOf() || again.dispatchId == r.dispatchId || again.receiptId == r.receiptId
    requires again == r ==> r.IdsValid() && !r.cancelRequested
    ensures Refusal(n, again, later).Some?
    ensures again == r && later.shape && later.now < r.deadline ==>
              Refusal(n, again, later).value == NotInvoked(Duplicate).(duplicateOf := Some(digest))
  {
    hide Identifier;
  }

  /** Once a dispatch has reached the adapter, then after any further calls: the identical request changes
      nothing and names the first result; a different one under its key, its dispatch id or its receipt never
      reaches the adapter either. */
  lemma DispatchesOnlyOnce(s: Service, r: Request, c: Checks, calls: seq<Call>, again: Request, later: Checks)
    requires Inv(s) && Dispatch(s, r, c).1.invoked
    requires again.ScopeOf() == r.ScopeOf() || again.dispatchId == r.dispatchId || again.receiptId == r.receiptId
    ensures var n := Run(Dispatch(s, r, c).0, calls);
            var (after, reply) := Dispatch(n, again, later);
            && after == n && !reply.invoked
            && (again == r && later.shape && later.now < r.deadline ==>
                  reply == NotInvoked(Duplicate).(
                             duplicateOf := Some(Digest(r, Dispatch(s, r, c).1.status, HandleOf(r.dispatchId)))))
  {
    if Refusal(s, r, c).Some? {
      DispatchRefused(s, r, c);
    }
    EverythingIsNew(s, r, c);
    DispatchAdds(s, r, c);
    StepKeeps(s, DispatchCall(r, c));
    assert r.IdsValid() && !r.cancelRequested;
    var first := Added(s, r);
    assert first == Dispatch(s, r, c).0 == Step(s, DispatchCall(r, c));
    hide Dispatch, Refusal, Request.IdsValid, Inv, Step, Run;
    RunRemembers(first, calls, r.ScopeOf(), r.dispatchId, r.receiptId);
    var n := Run(first, calls);
    hide AllNew;
    var digest := Digest(r, Dispatch(s, r, c).1.status, HandleOf(r.dispatchId));
    assert first.idempotency[r.ScopeOf()] == Entry(r, r.dispatchId, Some(digest));
    RefusedAgain(n, r, digest, again, later);
    DispatchRefused(n, again, later);
  }
}
