/** Which dispatches reach the adapter, read off the calls alone. */
module EmbodiedAdmission {
  import opened Wrappers
  import opened EmbodiedAction

  /** The requests that reached the adapter so far, in order. */
  function Admitted(calls: seq<Call>): seq<Request>
    decreases |calls|, 0
  {
    if calls == [] then []
    else
      var before, call := calls[..|calls| - 1], calls[|calls| - 1];
      Admitted(before)
      + if call.DispatchCall? && Admissible(before, call.request, call.checks) then [call.request] else []
  }

  /** After these calls the dispatch may be executed: well formed, in time, not cancelled, its world's preconditions met
      and its risk and permission authorised; and no dispatch before it used its scope, its id or its receipt. */
  predicate Admissible(calls: seq<Call>, r: Request, c: Checks)
    decreases |calls|, 1
  {
    && WellFormed(r, c) && c.now < r.deadline && !r.cancelRequested && c.world && c.authorized
    && forall e :: e in Admitted(calls) ==>
         !SameScope(e, r) && e.dispatchId != r.dispatchId && e.receiptId != r.receiptId
  }

  predicate WellFormed(r: Request, c: Checks) {
    && c.shape && Identifier(r.dispatchId) && Identifier(r.tenantId) && Identifier(r.userId)
    && Identifier(r.idempotencyKey) && Identifier(r.correlationId) && Identifier(r.rollbackToken)
  }

  predicate SameScope(a: Request, b: Request) {
    a.tenantId == b.tenantId && a.userId == b.userId && a.idempotencyKey == b.idempotencyKey
  }

  /** Identifiers, letter by letter. */
  lemma IdentifierIff(s: string, c: char)
    ensures !Identifier("")
    ensures Identifier([c]) <==> 'A' <= c <= 'Z' || 'a' <= c <= 'z' || '0' <= c <= '9'
    ensures s != "" ==>
              (Identifier(s + [c]) <==>
                 && Identifier(s) && |s| < 128
                 && ('A' <= c <= 'Z' || 'a' <= c <= 'z' || '0' <= c <= '9' || c in {'_', '.', ':', '-'}))
  {
    if s != "" && Identifier(s + [c]) {
      forall i | 0 <= i < |s|
        ensures AlphaNumeric(s[i]) || s[i] in {'_', '.', ':', '-'}
      {
        assert (s + [c])[i] == s[i];
      }
      assert (s + [c])[|s|] == c;
    }
  }

  lemma RunSnoc(s: Service, calls: seq<Call>, call: Call)
    ensures Run(s, calls + [call]) == Step(Run(s, calls), call)
    decreases |calls|
  {
    hide Step;
    if calls == [] {
      assert ([] + [call])[1..] == [];
    } else {
      assert (calls + [call])[1..] == calls[1..] + [call];
      RunSnoc(Step(s, calls[0]), calls[1..], call);
    }
  }

  function TextOf(r: Request): string { r.tenantId + "|" + r.userId + "|" + r.idempotencyKey }

  function Texts(rs: seq<Request>): seq<string> { seq(|rs|, i requires 0 <= i < |rs| => TextOf(rs[i])) }

  ghost predicate UsesScope(rs: seq<Request>, scope: Scope) { exists e :: e in rs && e.ScopeOf() == scope }

  ghost predicate UsesId(rs: seq<Request>, d: string) { exists e :: e in rs && e.dispatchId == d }

  ghost predicate UsesReceipt(rs: seq<Request>, x: string) { exists e :: e in rs && e.receiptId == x }

  /** The service's tables are those of the requests that reached the adapter. */
  ghost predicate Tables(s: Service, rs: seq<Request>) {
    && (forall scope :: scope in s.idempotency <==> UsesScope(rs, scope))
    && (forall d :: d in s.owners <==> UsesId(rs, d))
    && (forall x :: x in s.receipts <==> UsesReceipt(rs, x))
    && (forall e :: e in rs ==>
          && e.ScopeOf() in s.idempotency && s.idempotency[e.ScopeOf()].request == e
          && e.dispatchId in s.owners && s.owners[e.dispatchId] == e.ScopeOf())
    && s.adapter.invocations == Texts(rs)
  }

  predicate IdTaken(rs: seq<Request>, r: Request) {
    exists e :: e in rs && e.dispatchId == r.dispatchId && !SameScope(e, r)
  }

  predicate KeyTaken(rs: seq<Request>, r: Request) { exists e :: e in rs && SameScope(e, r) }

  predicate ReceiptTaken(rs: seq<Request>, r: Request) { exists e :: e in rs && e.receiptId == r.receiptId }

  /** A dispatch is refused, and why, given the requests that reached the adapter before it. */
  function RefusedStatus(rs: seq<Request>, r: Request, c: Checks): Option<Status> {
    if !WellFormed(r, c) then Some(Blocked(ContractBroken))
    else if r.deadline <= c.now then Some(TimedOut)
    else if r.cancelRequested then Some(CancelledBeforeDispatch)
    else if IdTaken(rs, r) then Some(ScopeConflict)
    else if r in rs then Some(Duplicate)
    else if KeyTaken(rs, r) then Some(KeyConflict)
    else if !c.world then Some(Blocked(WorldPrecondition))
    else if !c.authorized then Some(Blocked(RiskOrPermission))
    else if ReceiptTaken(rs, r) then Some(Blocked(ReceiptReplay))
    else None
  }

  lemma OwnerConflictIff(s: Service, rs: seq<Request>, r: Request)
    requires Tables(s, rs)
    ensures r.dispatchId in s.owners && s.owners[r.dispatchId] != r.ScopeOf()
            <==> IdTaken(rs, r)
  {
    hide UsesScope, UsesReceipt, Texts;
    if r.dispatchId in s.owners {
      var e :| e in rs && e.dispatchId == r.dispatchId;
    }
  }

  lemma ScopeUsedIff(s: Service, rs: seq<Request>, r: Request)
    requires Tables(s, rs)
    ensures r.ScopeOf() in s.idempotency <==> KeyTaken(rs, r)
    ensures r.ScopeOf() in s.idempotency && s.idempotency[r.ScopeOf()].request == r <==> r in rs
  {
    hide UsesId, UsesReceipt, Texts;
    if r.ScopeOf() in s.idempotency {
      var e :| e in rs && e.ScopeOf() == r.ScopeOf();
      assert SameScope(e, r) && s.idempotency[r.ScopeOf()].request == e;
    }
    if e :| e in rs && SameScope(e, r) {
      assert e.ScopeOf() == r.ScopeOf();
    }
  }

  lemma ReceiptUsedIff(s: Service, rs: seq<Request>, r: Request)
    requires Tables(s, rs)
    ensures r.receiptId in s.receipts <==> ReceiptTaken(rs, r)
  {
    hide UsesScope, UsesId, Texts;
  }

  lemma WellFormedIff(r: Request, c: Checks)
    ensures r.IdsValid() && c.shape <==> WellFormed(r, c)
  {
    hide Identifier;
  }

  lemma RefusalIs(s: Service, rs: seq<Request>, r: Request, c: Checks)
    requires Tables(s, rs)
    ensures RefusedStatus(rs, r, c) ==
            if Refusal(s, r, c).None? then None else Some(Refusal(s, r, c).value.status)
  {
    OwnerConflictIff(s, rs, r);
    ScopeUsedIff(s, rs, r);
    ReceiptUsedIff(s, rs, r);
    WellFormedIff(r, c);
    hide Identifier, Tables, IdTaken, KeyTaken, ReceiptTaken, WellFormed, Request.IdsValid;
  }

  /** The adapter's effects are those of the requests that reached it, whatever has become of them since. */
  ghost predicate EffectsOf(s: Service, rs: seq<Request>) {
    && (forall key :: key in s.adapter.effects ==> exists e :: e in rs && TextOf(e) == key)
    && (forall e :: e in rs ==>
          && TextOf(e) in s.adapter.effects
          && s.adapter.effects[TextOf(e)].dispatchId == e.dispatchId
          && s.adapter.effects[TextOf(e)].correlationId == e.correlationId
          && s.adapter.effects[TextOf(e)].userId == e.userId)
  }

  lemma OneMore(rs: seq<Request>, r: Request)
    ensures forall scope :: UsesScope(rs + [r], scope) <==> UsesScope(rs, scope) || r.ScopeOf() == scope
    ensures forall d :: UsesId(rs + [r], d) <==> UsesId(rs, d) || r.dispatchId == d
    ensures forall x :: UsesReceipt(rs + [r], x) <==> UsesReceipt(rs, x) || r.receiptId == x
    ensures Texts(rs + [r]) == Texts(rs) + [TextOf(r)]
  {
    assert forall e :: e in rs + [r] <==> e in rs || e == r;
    hide TextOf;
  }

  lemma AddedOwn(s: Service, rs: seq<Request>, r: Request, e: Request)
    requires Tables(s, rs) && AllNew(s, r) && e in rs + [r]
    ensures var n := Added(s, r);
            && e.ScopeOf() in n.idempotency && n.idempotency[e.ScopeOf()].request == e
            && e.dispatchId in n.owners && n.owners[e.dispatchId] == e.ScopeOf()
  {
    hide Identifier, HandleOf, Scope.Valid, Undone, FaultOf, UsesScope, UsesId, UsesReceipt, Texts, Scope.Text;
    assert e != r ==> e in rs;
  }

  lemma AddedTables(s: Service, rs: seq<Request>, r: Request)
    requires Tables(s, rs) && AllNew(s, r)
    ensures Tables(Added(s, r), rs + [r])
  {
    hide Identifier, HandleOf, Scope.Valid, Undone, FaultOf, UsesScope, UsesId, UsesReceipt, Texts;
    OneMore(rs, r);
    forall e | e in rs + [r]
      ensures e.ScopeOf() in Added(s, r).idempotency && Added(s, r).idempotency[e.ScopeOf()].request == e
      ensures e.dispatchId in Added(s, r).owners && Added(s, r).owners[e.dispatchId] == e.ScopeOf()
    {
      AddedOwn(s, rs, r, e);
    }
    assert Added(s, r).adapter.invocations == s.adapter.invocations + [TextOf(r)];
    assert Added(s, r).idempotency.Keys == s.idempotency.Keys + {r.ScopeOf()};
    assert Added(s, r).owners.Keys == s.owners.Keys + {r.dispatchId};
    assert Added(s, r).receipts.Keys == s.receipts.Keys + {r.receiptId};
    hide Added, AllNew, TextOf;
  }

  lemma AddedEffect(s: Service, r: Request)
    requires AllNew(s, r)
    ensures var effects := Added(s, r).adapter.effects;
            && TextOf(r) !in s.adapter.effects && TextOf(r) in effects
            && effects == s.adapter.effects[TextOf(r) := effects[TextOf(r)]]
            && effects[TextOf(r)].dispatchId == r.dispatchId && effects[TextOf(r)].userId == r.userId
            && effects[TextOf(r)].correlationId == r.correlationId
  {
    hide Identifier, HandleOf, Scope.Valid, Undone, FaultOf;
    assert r.ScopeOf().Text() == TextOf(r);
    hide Scope.Text, TextOf;
  }

  lemma AddedEffectsOf(s: Service, rs: seq<Request>, r: Request)
    requires EffectsOf(s, rs) && AllNew(s, r)
    ensures EffectsOf(Added(s, r), rs + [r])
  {
    hide Identifier, HandleOf, Scope.Valid, Undone, FaultOf;
    var n := Added(s, r);
    AddedEffect(s, r);
    hide Added, AllNew, TextOf;
    assert forall e :: e in rs + [r] <==> e in rs || e == r;
    forall key | key in n.adapter.effects
      ensures exists e :: e in rs + [r] && TextOf(e) == key
    {
      if key == TextOf(r) {
        assert r in rs + [r];
      } else {
        var e :| e in rs && TextOf(e) == key;
        assert e in rs + [r];
      }
    }
  }

  /** The adapter knows the same effects, of the same dispatches, and was called for the same. */
  ghost predicate SameEffects(a: Adapter, b: Adapter) {
    && b.invocations == a.invocations && b.effects.Keys == a.effects.Keys
    && forall k :: k in a.effects ==> b.effects[k] == a.effects[k].(state := b.effects[k].state)
  }

  lemma HandleCallsKeep(a: Adapter, handle: string)
    ensures SameEffects(a, AdapterRollback(a, handle).0) && SameEffects(a, AdapterCancel(a, handle).0)
  {
  }

  lemma UndoKeeps(a: Adapter, handle: string)
    ensures SameEffects(a, AdapterRollback(AdapterCancel(a, handle).0, handle).0)
  {
    HandleCallsKeep(a, handle);
    HandleCallsKeep(AdapterCancel(a, handle).0, handle);
    hide AdapterCancel, AdapterRollback;
  }

  lemma CancelKeeps(s: Service, call: Call)
    requires call.CancelCall?
    ensures var n := Step(s, call);
            && n.idempotency == s.idempotency && n.owners == s.owners && n.receipts == s.receipts
            && SameEffects(s.adapter, n.adapter)
  {
    if call.dispatchId in s.pending {
      UndoKeeps(s.adapter, s.pending[call.dispatchId].handleId);
    }
    assert SameEffects(s.adapter, s.adapter);
    hide AdapterCancel, AdapterRollback, Identifier, SameEffects;
  }

  lemma SameEffectsOf(s: Service, n: Service, rs: seq<Request>)
    requires EffectsOf(s, rs) && SameEffects(s.adapter, n.adapter)
    ensures EffectsOf(n, rs)
  {
    hide TextOf;
  }

  lemma SameTables(s: Service, n: Service, rs: seq<Request>)
    requires Tables(s, rs) && n.adapter.invocations == s.adapter.invocations
    requires n.idempotency == s.idempotency && n.owners == s.owners && n.receipts == s.receipts
    ensures Tables(n, rs)
  {
    hide Texts, UsesScope, UsesId, UsesReceipt;
  }

  /** A cancel changes neither the tables nor whose effects there are. */
  lemma CancelTables(s: Service, rs: seq<Request>, call: Call)
    requires Tables(s, rs) && EffectsOf(s, rs) && call.CancelCall?
    ensures Tables(Step(s, call), rs) && EffectsOf(Step(s, call), rs)
  {
    hide Step, Tables, EffectsOf;
    CancelKeeps(s, call);
    SameTables(s, Step(s, call), rs);
    SameEffectsOf(s, Step(s, call), rs);
  }

  lemma AdmissibleIff(calls: seq<Call>, r: Request, c: Checks)
    ensures Admissible(calls, r, c) <==> RefusedStatus(Admitted(calls), r, c).None?
  {
    hide Identifier, WellFormed, Admitted;
  }

  lemma DispatchTables(s: Service, rs: seq<Request>, r: Request, c: Checks)
    requires Inv(s) && Tables(s, rs) && EffectsOf(s, rs)
    ensures var n := Step(s, DispatchCall(r, c));
            var more := rs + if RefusedStatus(rs, r, c).None? then [r] else [];
            Tables(n, more) && EffectsOf(n, more)
  {
    hide Tables, EffectsOf, RefusedStatus, Refusal, Dispatch, Added, Inv, AllNew;
    RefusalIs(s, rs, r, c);
    if Refusal(s, r, c).None? {
      EverythingIsNew(s, r, c);
      DispatchAdds(s, r, c);
      AddedTables(s, rs, r);
      AddedEffectsOf(s, rs, r);
    } else {
      DispatchRefused(s, r, c);
      assert rs + [] == rs;
    }
  }

  lemma AdmittedNext(calls: seq<Call>, call: Call)
    ensures Admitted(calls + [call]) ==
            if call.DispatchCall? && RefusedStatus(Admitted(calls), call.request, call.checks).None?
            then Admitted(calls) + [call.request] else Admitted(calls)
  {
    hide RefusedStatus, Admissible;
    assert (calls + [call])[..|calls|] == calls;
    if call.DispatchCall? {
      AdmissibleIff(calls, call.request, call.checks);
    }
    assert Admitted(calls) + [] == Admitted(calls);
  }

  lemma StepTables(s: Service, calls: seq<Call>, call: Call)
    requires Inv(s) && Tables(s, Admitted(calls)) && EffectsOf(s, Admitted(calls))
    ensures Tables(Step(s, call), Admitted(calls + [call])) && EffectsOf(Step(s, call), Admitted(calls + [call]))
  {
    hide Tables, EffectsOf, RefusedStatus, Step, Inv, Admitted;
    AdmittedNext(calls, call);
    if call.DispatchCall? {
      DispatchTables(s, Admitted(calls), call.request, call.checks);
      assert Admitted(calls) + [] == Admitted(calls);
    } else {
      CancelTables(s, Admitted(calls), call);
    }
  }

  lemma {:induction false} RunTables(faults: Faults, calls: seq<Call>)
    ensures var s := Run(Fresh(faults), calls);
            Inv(s) && Tables(s, Admitted(calls)) && EffectsOf(s, Admitted(calls))
    decreases |calls|
  {
    if calls == [] {
      FreshTables(faults);
    } else {
      hide Tables, EffectsOf, Step, Inv, Run, Admitted;
      var before, call := calls[..|calls| - 1], calls[|calls| - 1];
      assert calls == before + [call];
      RunTables(faults, before);
      RunSnoc(Fresh(faults), before, call);
      StepKeeps(Run(Fresh(faults), before), call);
      StepTables(Run(Fresh(faults), before), before, call);
    }
  }

  lemma FreshTables(faults: Faults)
    ensures var s := Run(Fresh(faults), []);
            s == Fresh(faults) && Inv(s) && Tables(s, []) && EffectsOf(s, [])
  {
    FreshKeeps(faults);
    hide Inv;
  }

  /** After any calls a dispatch reaches the adapter if and only if it is admissible after them; a refused one changes
      nothing, and its status is that of the first check it fails. */
  lemma InvokedIff(faults: Faults, calls: seq<Call>, r: Request, c: Checks)
    ensures var s := Run(Fresh(faults), calls);
            var (n, reply) := Dispatch(s, r, c);
            var refused := RefusedStatus(Admitted(calls), r, c);
            && (reply.invoked <==> Admissible(calls, r, c))
            && (reply.invoked ==> n.adapter.invocations == s.adapter.invocations + [TextOf(r)])
            && (refused.Some? <==> !reply.invoked)
            && (refused.Some? ==> n == s && reply.status == refused.value)
  {
    var s := Run(Fresh(faults), calls);
    RunTables(faults, calls);
    AdmissibleIff(calls, r, c);
    RefusalIs(s, Admitted(calls), r, c);
    hide Tables, EffectsOf, RefusedStatus, Admissible, Run, Identifier;
    if Refusal(s, r, c).None? {
      EverythingIsNew(s, r, c);
      DispatchAdds(s, r, c);
    } else {
      DispatchRefused(s, r, c);
    }
    hide Dispatch, Refusal, Inv;
  }

  /** The call at `n` reached the adapter with this request. */
  ghost predicate AdmittedAt(calls: seq<Call>, n: int, r: Request) {
    && 0 <= n < |calls| && calls[n].DispatchCall? && calls[n].request == r
    && Admissible(calls[..n], r, calls[n].checks)
  }

  lemma {:induction false} AdmittedWhen(calls: seq<Call>, r: Request)
    requires r in Admitted(calls)
    ensures exists n :: AdmittedAt(calls, n, r)
    decreases |calls|
  {
    hide Admissible;
    var last := |calls| - 1;
    if r in Admitted(calls[..last]) {
      AdmittedWhen(calls[..last], r);
      var n :| AdmittedAt(calls[..last], n, r);
      assert calls[..last][..n] == calls[..n];
      assert AdmittedAt(calls, n, r);
    } else {
      assert AdmittedAt(calls, last, r);
    }
  }

  /** In every run each effect in the adapter was made by a call that was admissible when it came: its request well
      formed and in time, its world's preconditions met, and its risk and permission authorised. */
  lemma EffectsAreAuthorized(faults: Faults, calls: seq<Call>, key: string)
    requires key in Run(Fresh(faults), calls).adapter.effects
    ensures var effect := Run(Fresh(faults), calls).adapter.effects[key];
            exists n, r :: AdmittedAt(calls, n, r) && key == TextOf(r)
              && effect.dispatchId == r.dispatchId && effect.userId == r.userId
              && effect.correlationId == r.correlationId
              && calls[n].checks.authorized && calls[n].checks.world && calls[n].checks.now < r.deadline
  {
    RunTables(faults, calls);
    hide Tables, Run, Inv, Admitted, TextOf;
    var r :| r in Admitted(calls) && TextOf(r) == key;
    AdmittedWhen(calls, r);
    var n :| AdmittedAt(calls, n, r);
    assert calls[n].checks.authorized;
  }

  // ------------------------------------------------------------- cancels

  /** Every answer a cancel can give, after any calls. */
  lemma CancelAnswers(faults: Faults, calls: seq<Call>, d: string, t: string, u: string, x: string)
    ensures var s := Run(Fresh(faults), calls);
            var status := Cancel(s, d, t, u, x).1;
            var named := Identifier(d) && Identifier(t) && Identifier(u) && Identifier(x);
            && (status == IdInvalid <==> !named)
            && (status == BlockedNotFound <==> named && d !in s.pending)
            && (status == BlockedScopeMismatch <==>
                  && named && d in s.pending
                  && (s.pending[d].tenantId != t || s.pending[d].userId != u || s.pending[d].correlationId != x))
            && status != CancelFailedClosed
  {
    CancelActsIff(faults, calls, d, t, u, x);
    NoDuplicateSideEffects(faults, calls, CancelCall(d, t, u, x));
    hide Run, Identifier, Agreement, Counts, AdapterCancel, AdapterRollback;
  }

  // ------------------------------------------------ the adapter by itself

  datatype AdapterCall = Send(command: Command) | TakeBack(handle: string) | Abort(handle: string)

  function AdapterStep(a: Adapter, call: AdapterCall): Adapter {
    match call
    case Send(c) => AdapterDispatch(a, c).0
    case TakeBack(h) => AdapterRollback(a, h).0
    case Abort(h) => AdapterCancel(a, h).0
  }

  function AdapterRun(a: Adapter, calls: seq<AdapterCall>): Adapter
    decreases |calls|
  {
    if calls == [] then a else AdapterRun(AdapterStep(a, calls[0]), calls[1..])
  }

  /** Whoever calls the adapter: each dispatch applied an effect or was counted as a duplicate, and each effect rolled
      back was counted once. */
  ghost predicate Accounted(a: Adapter) {
    |a.invocations| == |a.effects| + a.duplicates && a.rollbacks == |RolledBackKeys(a.effects)|
  }

  /** The state of one effect is overwritten. */
  lemma MovedAccounts(a: Adapter, n: Adapter, key: string, e: Effect)
    requires Accounted(a) && key in a.effects && n.effects == a.effects[key := e]
    requires n.invocations == a.invocations && n.duplicates == a.duplicates
    requires a.effects[key].state != RolledBack
    requires n.rollbacks == a.rollbacks + if e.state == RolledBack then 1 else 0
    ensures Accounted(n)
  {
    RolledBackUpdate(a.effects, key, e);
    assert key !in RolledBackKeys(a.effects) && n.effects.Keys == a.effects.Keys;
    assert |n.effects| == |n.effects.Keys| == |a.effects.Keys| == |a.effects|;
    hide RolledBackKeys;
  }

  lemma SentAccounts(a: Adapter, n: Adapter, key: string, e: Effect)
    requires Accounted(a) && key !in a.effects && n.effects == a.effects[key := e] && e.state == Applied
    requires n.invocations == a.invocations + [key] && n.duplicates == a.duplicates && n.rollbacks == a.rollbacks
    ensures Accounted(n)
  {
    RolledBackUpdate(a.effects, key, e);
    assert key !in RolledBackKeys(a.effects);
    assert RolledBackKeys(n.effects) == RolledBackKeys(a.effects);
    hide RolledBackKeys;
  }

  lemma StepAccounts(a: Adapter, call: AdapterCall)
    requires Accounted(a)
    ensures Accounted(AdapterStep(a, call))
  {
    hide Scope.Text, HandleOf;
    var n := AdapterStep(a, call);
    match call
    case Send(c) =>
      if c.scope.Text() !in a.effects {
        SentAccounts(a, n, c.scope.Text(), n.effects[c.scope.Text()]);
        hide Accounted;
      }
    case TakeBack(h) =>
      if Knows(a, h) && a.effects[a.handles[h]].state != RolledBack {
        MovedAccounts(a, n, a.handles[h], n.effects[a.handles[h]]);
        hide Accounted;
      }
    case Abort(h) =>
      if Knows(a, h) && a.effects[a.handles[h]].state == Applied {
        MovedAccounts(a, n, a.handles[h], n.effects[a.handles[h]]);
        hide Accounted;
      }
  }

  lemma {:induction false} AdapterAccounts(a: Adapter, calls: seq<AdapterCall>)
    requires Accounted(a)
    ensures Accounted(AdapterRun(a, calls))
    decreases |calls|
  {
    hide Accounted, AdapterStep;
    if calls != [] {
      StepAccounts(a, calls[0]);
      AdapterAccounts(AdapterStep(a, calls[0]), calls[1..]);
    }
  }

  /** A handle moves the state of its own effect only: a rollback takes it back once and for all, and a cancel stops one
      that is still applied. The answers say which. */
  lemma HandleMoves(a: Adapter, handle: string, key: string)
    requires key in a.effects
    ensures var (back, undone) := AdapterRollback(a, handle);
            var (stopped, cancelled) := AdapterCancel(a, handle);
            var mine := handle in a.handles && a.handles[handle] == key;
            var state := a.effects[key].state;
            && back.effects[key] == a.effects[key].(state := if mine then RolledBack else state)
            && stopped.effects[key] ==
               a.effects[key].(state := if mine && state == Applied then WasCancelled else state)
            && (mine ==> undone == if state == RolledBack then AlreadyRolledBack else RollbackDone)
            && (mine ==> cancelled == if state == Applied then CancelDone else AlreadyTerminal)
            && (mine ==> back.rollbacks == a.rollbacks + (if state == RolledBack then 0 else 1))
            && (mine ==> stopped.cancels == a.cancels + (if state == Applied then 1 else 0))
  {
  }

  /** A repeated key changes no effect; a new one applies its effect under its handle. */
  lemma SendsOnce(a: Adapter, c: Command)
    ensures var (n, status, handle) := AdapterDispatch(a, c);
            && (status == DuplicateRejected <==> c.scope.Text() in a.effects)
            && (status == DuplicateRejected ==>
                  n == a.(invocations := n.invocations, duplicates := n.duplicates)
                  && handle == a.effects[c.scope.Text()].handleId)
            && (status != DuplicateRejected ==>
                  && n.effects == a.effects[c.scope.Text() := n.effects[c.scope.Text()]]
                  && n.effects[c.scope.Text()].state == Applied && n.effects[c.scope.Text()].handleId == handle
                  && handle in n.handles && n.handles[handle] == c.scope.Text() && n.duplicates == a.duplicates)
            && |n.invocations| == |a.invocations| + 1 && n.invocations[|a.invocations|] == c.scope.Text()
  {
    hide Scope.Text, HandleOf;
  }
}
