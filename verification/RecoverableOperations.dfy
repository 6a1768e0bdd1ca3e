/** What the operation reader shows as retryable, against what operators and tenants may recover. */
module RecoverableOperations {
  import O = IntegrationOutbox
  import opened OperationReader

  function TargetName(target: O.Target): string {
    match target
    case Mautic => "MAUTIC"
    case N8n => "N8N"
    case Odoo => "ODOO"
  }

  function StateName(state: O.OpState): string {
    match state
    case Pending => "PENDING"
    case Processing => "PROCESSING"
    case Retry => "RETRY"
    case Completed => "COMPLETED"
    case DeadLetter => "DEAD_LETTER"
    case Cancelled => "CANCELLED"
  }

  /** The status a tenant sees. */
  function ShownAs(state: O.OpState): string {
    match state
    case Pending => "QUEUED"
    case Processing => "PROCESSING"
    case Retry => "FAILED"
    case Completed => "SUCCEEDED"
    case DeadLetter => "RECONCILIATION_REQUIRED"
    case Cancelled => "CANCELLED"
  }

  /** `op` is the row `id` of the outbox as the reader sees it, with the same late observations. */
  predicate Reads(tables: Tables, op: Op, db: O.Db, id: O.Id) {
    && id in db.ops
    && op.tenant == db.ops[id].tenant && op.target == TargetName(db.ops[id].target) && op.state == StateName(db.ops[id].state)
    && (Attributed(tables.results, op.tenant, op.id, "MAUTIC_LATE") != {} <==> O.HasLate(db.results, id, db.ops[id].tenant))
  }

  /**
   An operation is shown as retryable exactly when it waits in RETRY and both the
   operator's recovery and the tenant's reconciliation would put it back. One shown
   as a dead letter is recoverable exactly when it is not a Mautic one.
   */
  lemma RetryableIsRecoverable(reading: Reading, tables: Tables, op: Op, db: O.Db, id: O.Id, current: int)
    requires Reads(tables, op, db, id)
    ensures var view := OperationJson(reading, tables, Outbox(op));
            var recovered, reconciled := O.OperatorRecover(db, id, current), O.TenantReconcile(db, id, op.tenant, current);
            && view.OperationView?
            && (view.retryable <==> db.ops[id].state == O.Retry && recovered.Accepted?)
            && (view.retryable <==> db.ops[id].state == O.Retry && reconciled.Accepted? && reconciled.value)
            && (recovered.Accepted? ==> recovered.db.ops[id].state == O.Pending)
            && view.status == ShownAs(db.ops[id].state) && op.target in {"MAUTIC", "N8N", "ODOO"}
            && (view.status == "RECONCILIATION_REQUIRED" ==> (recovered.Accepted? <==> op.target != "MAUTIC"))
  {
    match db.ops[id].state {
      case Pending => assert Status("PENDING") == "QUEUED";
      case Processing => assert Status("PROCESSING") == "PROCESSING";
      case Retry => assert Status("RETRY") == "FAILED";
      case Completed => assert Status("COMPLETED") == "SUCCEEDED";
      case DeadLetter => assert Status("DEAD_LETTER") == "RECONCILIATION_REQUIRED";
      case Cancelled => assert Status("CANCELLED") == "CANCELLED";
    }
  }
}
