/** The dispatcher and its fake adapter as the source has them: two objects whose methods update their
    dictionaries and counters. */
module EmbodiedActionService {
  import opened Wrappers
  import opened EmbodiedAction

  class LocalFakeEmbodiedAdapter {
    const faults: Faults
    var invocations: seq<string>
    var effects: map<string, Effect>
    var handles: map<string, string>
    var duplicateSideEffects: nat
    var rollbackCalls: nat
    var cancelCalls: nat

    ghost function View(): Adapter
      reads this
    {
      Adapter(faults, invocations, effects, handles, duplicateSideEffects, rollbackCalls, cancelCalls)
    }

    constructor (faults: Faults)
      ensures View() == Fresh(faults).adapter
    {
      this.faults := faults;
      invocations, effects, handles := [], map[], map[];
      duplicateSideEffects, rollbackCalls, cancelCalls := 0, 0, 0;
    }

    method Dispatch(command: Command) returns (status: AdapterStatus, handleId: string)
      modifies this
      ensures (View(), status, handleId) == AdapterDispatch(old(View()), command)
    {
      var effectKey := command.scope.Text();
      invocations := invocations + [effectKey];
      if effectKey in effects {
        duplicateSideEffects := duplicateSideEffects + 1;
        return DuplicateRejected, effects[effectKey].handleId;
      }
      handleId := HandleOf(command.dispatchId);
      effects := effects[effectKey :=
        Effect(handleId, command.dispatchId, command.correlationId, command.scope.userId, Applied)];
      handles := handles[handleId := effectKey];
      status := Done;
      if command.dispatchId in faults.failing {
        status := FailedAfterApply;
      } else if command.dispatchId in faults.timing {
        status := TimedOutAfterApply;
      } else if command.dispatchId in faults.pending {
        status := PendingAfterApply;
      }
    }

    method Rollback(handleId: string) returns (status: RollbackStatus)
      modifies this
      ensures (View(), status) == AdapterRollback(old(View()), handleId)
    {
      if handleId !in handles || handles[handleId] !in effects {
        return RollbackNotFound;
      }
      var effectKey := handles[handleId];
      var effect := effects[effectKey];
      if effect.state == RolledBack {
        return AlreadyRolledBack;
      }
      effects := effects[effectKey := effect.(state := RolledBack)];
      rollbackCalls := rollbackCalls + 1;
      return RollbackDone;
    }

    method Cancel(handleId: string) returns (status: AdapterCancelStatus)
      modifies this
      ensures (View(), status) == AdapterCancel(old(View()), handleId)
    {
      if handleId !in handles || handles[handleId] !in effects {
        return CancelNotFound;
      }
      var effectKey := handles[handleId];
      var effect := effects[effectKey];
      if effect.state == WasCancelled || effect.state == RolledBack {
        return AlreadyTerminal;
      }
      effects := effects[effectKey := effect.(state := WasCancelled)];
      cancelCalls := cancelCalls + 1;
      return CancelDone;
    }
  }

  class EmbodiedActionService {
    const adapter: LocalFakeEmbodiedAdapter
    var idempotency: map<Scope, Entry>
    var dispatchOwners: map<string, Scope>
    var receiptUses: map<string, string>
    var pending: map<string, PendingDispatch>

    ghost function View(): Service
      reads this, adapter
    {
      Service(adapter.View(), idempotency, dispatchOwners, receiptUses, pending)
    }

    constructor (adapter: LocalFakeEmbodiedAdapter)
      requires adapter.View() == Fresh(adapter.faults).adapter
      ensures this.adapter == adapter && View() == Fresh(adapter.faults)
    {
      this.adapter := adapter;
      idempotency, dispatchOwners, receiptUses, pending := map[], map[], map[], map[];
    }

    method Dispatch(r: Request, c: Checks) returns (reply: Reply)
      modifies this, adapter
      ensures (View(), reply) == EmbodiedAction.Dispatch(old(View()), r, c)
    {
      if !r.IdsValid() || !c.shape {
        return NotInvoked(Blocked(ContractBroken));
      }
      if c.now >= r.deadline {
        return NotInvoked(TimedOut);
      }
      if r.cancelRequested {
        return NotInvoked(CancelledBeforeDispatch);
      }
      var scopeKey := r.ScopeOf();
      if r.dispatchId in dispatchOwners && dispatchOwners[r.dispatchId] != scopeKey {
        return NotInvoked(ScopeConflict);
      }
      if scopeKey in idempotency {
        var prior := idempotency[scopeKey];
        if prior.request == r {
          return NotInvoked(Duplicate).(duplicateOf := prior.result);
        }
        return NotInvoked(KeyConflict);
      }
      if !c.world {
        return NotInvoked(Blocked(WorldPrecondition));
      }
      if !c.authorized {
        return NotInvoked(Blocked(RiskOrPermission));
      }
      if r.receiptId in receiptUses {
        return NotInvoked(Blocked(ReceiptReplay));
      }
      reply := Invoke(r, c);
    }

    /** The part of `dispatch` that records the use of scope, owner and receipt and calls the adapter. */
    method Invoke(r: Request, c: Checks) returns (reply: Reply)
      requires Refusal(View(), r, c).None?
      modifies this, adapter
      ensures (View(), reply) == EmbodiedAction.Dispatch(old(View()), r, c)
    {
      hide Refusal, Scope.Text, Conclude, AdapterDispatch;
      var scopeKey := r.ScopeOf();
      dispatchOwners := dispatchOwners[r.dispatchId := scopeKey];
      receiptUses := receiptUses[r.receiptId := r.dispatchId];
      idempotency := idempotency[scopeKey := Entry(r, r.dispatchId, None)];
      var status, handleId := adapter.Dispatch(Command(r.dispatchId, scopeKey, r.correlationId));
      reply := ConcludeDispatch(r, status, handleId);
      idempotency := idempotency[scopeKey := idempotency[scopeKey].(result := Some(Digest(r, reply.status, handleId)))];
      assert idempotency == old(idempotency)[scopeKey := idempotency[scopeKey]];
    }

    /** The branches on the adapter's answer. */
    method ConcludeDispatch(r: Request, status: AdapterStatus, handleId: string) returns (reply: Reply)
      modifies this`pending, adapter
      ensures (View(), reply) == Conclude(old(View()), r, status, handleId)
    {
      match status {
        case Done =>
          reply := Reply(Completed, true, Some(handleId), false, None);
        case PendingAfterApply =>
          reply := Reply(Pending, true, Some(handleId), false, None);
          pending := pending[r.dispatchId :=
            PendingDispatch(r.tenantId, r.userId, r.correlationId, handleId, r.rollbackToken)];
        case DuplicateRejected =>
          reply := Reply(Blocked(AdapterDuplicate), true, Some(handleId), false, None);
        case _ =>
          var rollback := adapter.Rollback(handleId);
          reply := Reply(if status.TimedOutAfterApply? then TimedOutRolledBack else FailedRolledBack, true,
                         Some(handleId), !rollback.RollbackNotFound?, None);
      }
    }

    method Cancel(dispatchId: string, tenantId: string, userId: string, correlationId: string)
      returns (status: CancelStatus)
      modifies this, adapter
      ensures (View(), status) == EmbodiedAction.Cancel(old(View()), dispatchId, tenantId, userId, correlationId)
    {
      if !Identifier(dispatchId) || !Identifier(tenantId) || !Identifier(userId) || !Identifier(correlationId) {
        return IdInvalid;
      }
      if dispatchId !in pending {
        return BlockedNotFound;
      }
      var p := pending[dispatchId];
      if (p.tenantId, p.userId, p.correlationId) != (tenantId, userId, correlationId) {
        return BlockedScopeMismatch;
      }
      var cancelled := adapter.Cancel(p.handleId);
      var rollback := adapter.Rollback(p.handleId);
      status := if !cancelled.CancelNotFound? && !rollback.RollbackNotFound? then CancelledRolledBack
                else CancelFailedClosed;
      pending := pending - {dispatchId};
    }
  }
}
