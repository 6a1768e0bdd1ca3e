/**
 The durable integration outbox: the rows of `integration_outbox` and
 `integration_results`, the Mautic circuit record, and every committed
 transaction that changes them.

 Each transaction is given twice: as a function on database values, which the
 protocol and its invariants are stated about, and as a method of `Outbox`
 that updates the tables in place and is proved equal to that function.
 Clock readings are parameters, in seconds.
 */
module IntegrationOutbox {

  import opened Numbers
  import opened Wrappers

  const MAX_ATTEMPTS := 5
  const LEASE_SECONDS := 30
  const OPERATOR_MAX_ATTEMPTS := 8
  const CIRCUIT_THRESHOLD := 5

  type Id = nat

  datatype OpState = Pending | Processing | Retry | Completed | DeadLetter | Cancelled

  datatype Target = Mautic | N8n | Odoo

  /** One row of `integration_outbox`; `key` is the caller's idempotency key. */
  datatype Op = Op(
    tenant: string, target: Target, key: string,
    state: OpState, attempts: nat, nextAttemptAt: int, lease: Option<int>,
    createdAt: int, error: Option<string>)

  datatype Source = FromTarget(target: Target) | MauticLate

  datatype ResultKey = CompletionOf(op: Id) | LateAttempt(lateOp: Id, attempt: nat) | CallbackKey(text: string)

  /** One row of `integration_results`; `digest` stands for the canonical request hash. */
  datatype ResultRow = ResultRow(tenant: string, op: Id, source: Source, key: ResultKey, digest: int)

  datatype Circuit = Circuit(streak: nat, openUntil: Option<int>)

  datatype Db = Db(ops: map<Id, Op>, results: set<ResultRow>, circuit: Circuit)

  datatype Reply<+T> = Accepted(db: Db, value: T) | Refused(status: int)

  // ---------------------------------------------------------------------
  // Guards
  // ---------------------------------------------------------------------

  predicate HasLate(results: set<ResultRow>, id: Id, tenant: string) {
    exists r | r in results :: r.op == id && r.tenant == tenant && r.source == MauticLate
  }

  predicate ResultExists(results: set<ResultRow>, tenant: string, source: Source, key: ResultKey) {
    exists r | r in results :: r.tenant == tenant && r.source == source && r.key == key
  }

  predicate Expired(op: Op, current: int) {
    op.target == Mautic && op.state == Processing && op.lease.Some? && op.lease.value < current
  }

  /** The attempt still owns the row: same attempt, still processing, lease not over. */
  predicate CurrentClaim(op: Op, attempt: nat, current: int) {
    op.state == Processing && op.attempts == attempt && op.lease.Some? && op.lease.value > current
  }

  predicate CircuitOpen(c: Circuit, current: int) {
    c.openUntil.Some? && c.openUntil.value > current
  }

  predicate Claimable(db: Db, id: Id, current: int) {
    && id in db.ops
    && var op := db.ops[id];
    && op.target == Mautic
    && op.state in {Pending, Retry}
    && op.nextAttemptAt <= current
    && !HasLate(db.results, id, op.tenant)
  }

  /** The row the claim query may return: oldest among the claimable, unlocked rows. */
  ghost predicate ClaimChoice(db: Db, current: int, locked: set<Id>, id: Id) {
    && Claimable(db, id, current) && id !in locked
    && forall j :: Claimable(db, j, current) && j !in locked ==> db.ops[id].createdAt <= db.ops[j].createdAt
  }

  // ---------------------------------------------------------------------
  // Transactions as functions
  // ---------------------------------------------------------------------

  function ExpiredRow(op: Op): Op {
    op.(state := DeadLetter, error := Some("worker_lease_expired_ambiguous"), lease := None)
  }

  function RecoverExpired(db: Db, current: int, locked: set<Id>): Db {
    db.(ops := map id | id in db.ops ::
      if Expired(db.ops[id], current) && id !in locked then ExpiredRow(db.ops[id]) else db.ops[id])
  }

  function ClaimRow(op: Op, current: int): Op {
    op.(state := Processing, attempts := op.attempts + 1, lease := Some(current + LEASE_SECONDS))
  }

  function CircuitFailure(c: Circuit, current: int): Circuit {
    Circuit(c.streak + 1, if c.streak + 1 >= CIRCUIT_THRESHOLD then Some(current + 60) else c.openUntil)
  }

  function Failure(db: Db, id: Id, error: string, retryable: bool, attempt: nat, affectsCircuit: bool, current: int): (Db, bool) {
    if id !in db.ops || !CurrentClaim(db.ops[id], attempt, current) then (db, false)
    else
      var op := db.ops[id];
      var canRetry := retryable && op.attempts < MAX_ATTEMPTS && !HasLate(db.results, id, op.tenant);
      var row := op.(state := if canRetry then Retry else DeadLetter,
                     nextAttemptAt := current + Min(300, Pow2(op.attempts)),
                     lease := None,
                     error := Some(error));
      var circuit := if affectsCircuit then CircuitFailure(db.circuit, current) else db.circuit;
      (db.(ops := db.ops[id := row], circuit := circuit), true)
  }

  function RecordLate(db: Db, id: Id, attempt: nat): Db
    requires id in db.ops
  {
    var tenant := db.ops[id].tenant;
    if ResultExists(db.results, tenant, MauticLate, LateAttempt(id, attempt)) then db
    else db.(results := db.results + {ResultRow(tenant, id, MauticLate, LateAttempt(id, attempt), 0)})
  }

  function Success(db: Db, id: Id, digest: int, attempt: nat, current: int): (Db, bool) {
    if id !in db.ops then (db, false)
    else
      var op := db.ops[id];
      if op.state == Completed && op.attempts == attempt then (db, false)
      else if !CurrentClaim(op, attempt, current) then (RecordLate(db, id, attempt), false)
      else
        var key := CompletionOf(id);
        var results := if ResultExists(db.results, op.tenant, FromTarget(Mautic), key) then db.results
                       else db.results + {ResultRow(op.tenant, id, FromTarget(Mautic), key, digest)};
        (Db(db.ops[id := op.(state := Completed, lease := None, error := None)], results, Circuit(0, None)), true)
  }

  /** A recovery is unsafe when the provider may already have acted. */
  predicate SafeRecovery(db: Db, id: Id)
    requires id in db.ops
  {
    var op := db.ops[id];
    op.target == Mautic ==> op.state != DeadLetter && !HasLate(db.results, id, op.tenant)
  }

  function OperatorFail(db: Db, id: Id, reason: string, current: int): Reply<OpState> {
    if id !in db.ops || db.ops[id].state !in {Pending, Retry} then Refused(404)
    else
      var op := db.ops[id];
      var attempts := op.attempts + 1;
      var row := op.(attempts := attempts, error := Some(reason),
                     state := if attempts >= OPERATOR_MAX_ATTEMPTS then DeadLetter else Retry,
                     nextAttemptAt := current + Min(900, Pow2(attempts)));
      Accepted(db.(ops := db.ops[id := row]), row.state)
  }

  function Requeued(op: Op, current: int): Op {
    op.(state := Pending, nextAttemptAt := current, error := None)
  }

  function OperatorRecover(db: Db, id: Id, current: int): Reply<OpState> {
    if id !in db.ops || db.ops[id].state !in {Retry, DeadLetter} then Refused(404)
    else if !SafeRecovery(db, id) then Refused(409)
    else Accepted(db.(ops := db.ops[id := Requeued(db.ops[id], current)]), Pending)
  }

  function TenantCancel(db: Db, id: Id, tenant: string): Reply<OpState> {
    if id !in db.ops || db.ops[id].tenant != tenant then Refused(404)
    else if db.ops[id].state in {Completed, DeadLetter, Cancelled, Processing} then Refused(409)
    else Accepted(db.(ops := db.ops[id := db.ops[id].(state := Cancelled)]), Cancelled)
  }

  function TenantReconcile(db: Db, id: Id, tenant: string, current: int): Reply<bool> {
    if id !in db.ops || db.ops[id].tenant != tenant then Refused(404)
    else if !SafeRecovery(db, id) then Refused(409)
    else if db.ops[id].state in {Retry, DeadLetter} then
      Accepted(db.(ops := db.ops[id := Requeued(db.ops[id], current)]), true)
    else Accepted(db, false)
  }

  predicate SameRequest(op: Op, tenant: string, target: Target, key: string) {
    op.tenant == tenant && op.target == target && op.key == key
  }

  predicate KeyTaken(db: Db, tenant: string, target: Target, key: string) {
    exists id | id in db.ops :: SameRequest(db.ops[id], tenant, target, key)
  }

  function NewRow(tenant: string, target: Target, key: string, current: int): Op {
    Op(tenant, target, key, Pending, 0, current, None, current, None)
  }

  /** Admission under the unique key (tenant, target, idempotency key). */
  function Enqueue(db: Db, newId: Id, tenant: string, target: Target, key: string, current: int): Db
    requires newId !in db.ops
  {
    if KeyTaken(db, tenant, target, key) then db
    else db.(ops := db.ops[newId := NewRow(tenant, target, key, current)])
  }

  /**
   A submitted result: its digest, if it has a canonical form; whether it can be
   sealed; whether an earlier result under its key can be read.
   */
  datatype CallbackPayload = CallbackPayload(digest: Option<int>, sealable: bool, readable: bool)

  predicate SameCallback(db: Db, id: Id, tenant: string, source: Target, key: string) {
    exists r | r in db.results :: r.tenant == tenant && r.source == FromTarget(source) && r.key == CallbackKey(key) && r.op == id
  }

  /** The callback that N8N and ODOO use to complete their own operations. */
  function Callback(db: Db, id: Id, tenant: string, source: Target, key: string, payload: CallbackPayload): Reply<bool> {
    if id !in db.ops || db.ops[id].tenant != tenant then Refused(404)
    else if db.ops[id].target == Mautic || source != db.ops[id].target then Refused(403)
    else if payload.digest.None? then Refused(422)
    else if ResultExists(db.results, tenant, FromTarget(source), CallbackKey(key)) then
      if !SameCallback(db, id, tenant, source, key) then Refused(409)
      else if !payload.readable then Refused(503)
      else if ResultRow(tenant, id, FromTarget(source), CallbackKey(key), payload.digest.value) in db.results
      then Accepted(db, true) else Refused(409)
    else if db.ops[id].state !in {Pending, Processing, Retry} then Refused(409)
    else if !payload.sealable then Refused(503)
    else
      Accepted(db.(ops := db.ops[id := db.ops[id].(state := Completed, lease := None, error := None)],
                   results := db.results + {ResultRow(tenant, id, FromTarget(source), CallbackKey(key), payload.digest.value)}), false)
  }

  // ---------------------------------------------------------------------
  // The tables, updated in place
  // ---------------------------------------------------------------------

  class Outbox {
    var ops: map<Id, Op>
    var results: set<ResultRow>
    var circuit: Circuit

    constructor ()
      ensures View() == Db(map[], {}, Circuit(0, None))
    {
      ops, results, circuit := map[], {}, Circuit(0, None);
    }

    ghost function View(): Db
      reads this
    {
      Db(ops, results, circuit)
    }

    /** Dead-letters every unlocked row whose lease has run out. */
    method RecoverExpiredRows(current: int, locked: set<Id>)
      modifies this
      ensures View() == RecoverExpired(old(View()), current, locked)
    {
      var rows := set id | id in ops && id !in locked && Expired(ops[id], current);
      ghost var start := ops;
      while rows != {}
        invariant ops.Keys == start.Keys && results == old(results) && circuit == old(circuit)
        invariant forall id :: id in rows ==> id in start && id !in locked && Expired(start[id], current)
        invariant forall id :: id in start ==>
          ops[id] == if Expired(start[id], current) && id !in locked && id !in rows then ExpiredRow(start[id]) else start[id]
        decreases rows
      {
        var id :| id in rows;
        ops := ops[id := ExpiredRow(ops[id])];
        rows := rows - {id};
      }
    }

    /** The claim transaction: the oldest due, unlocked, unobserved row, if the circuit allows. */
    method ClaimOldest(current: int, locked: set<Id>) returns (claimed: Option<Id>)
      modifies this
      ensures claimed.None? ==> View() == old(View())
      ensures claimed.None? ==> CircuitOpen(old(circuit), current) ||
                                forall id :: Claimable(old(View()), id, current) ==> id in locked
      ensures claimed.Some? ==> !CircuitOpen(old(circuit), current) && ClaimChoice(old(View()), current, locked, claimed.value)
      ensures claimed.Some? ==>
        View() == old(View()).(ops := old(ops)[claimed.value := ClaimRow(old(ops)[claimed.value], current)])
    {
      claimed := None;
      if CircuitOpen(circuit, current) {
        return;
      }
      var db := Db(ops, results, circuit);
      var rows := set id | id in ops && id !in locked && Claimable(db, id, current);
      ghost var all := rows;
      while rows != {}
        invariant rows <= all
        invariant claimed.None? ==> rows == all
        invariant claimed.Some? ==> claimed.value in all
        invariant claimed.Some? ==> forall id :: id in all && id !in rows ==> db.ops[claimed.value].createdAt <= db.ops[id].createdAt
        decreases rows
      {
        var id :| id in rows;
        if claimed.None? || ops[id].createdAt < ops[claimed.value].createdAt {
          claimed := Some(id);
        }
        rows := rows - {id};
      }
      assert forall j :: Claimable(db, j, current) && j !in locked ==> j in all;
      if claimed.Some? {
        ops := ops[claimed.value := ClaimRow(ops[claimed.value], current)];
      }
    }

    method ReportFailure(id: Id, error: string, retryable: bool, attempt: nat, affectsCircuit: bool, current: int)
      returns (effective: bool)
      modifies this
      ensures (View(), effective) == Failure(old(View()), id, error, retryable, attempt, affectsCircuit, current)
    {
      if id !in ops || !CurrentClaim(ops[id], attempt, current) {
        return false;
      }
      if affectsCircuit {
        circuit := circuit.(streak := circuit.streak + 1);
        if circuit.streak >= CIRCUIT_THRESHOLD {
          circuit := circuit.(openUntil := Some(current + 60));
        }
      }
      var item := ops[id];
      var canRetry := retryable && item.attempts < MAX_ATTEMPTS && !HasLate(results, id, item.tenant);
      item := item.(state := if canRetry then Retry else DeadLetter);
      item := item.(nextAttemptAt := current + Min(300, Pow2(item.attempts)), lease := None, error := Some(error));
      ops := ops[id := item];
      return true;
    }

    method ReportSuccess(id: Id, digest: int, attempt: nat, current: int) returns (effective: bool)
      modifies this
      ensures (View(), effective) == Success(old(View()), id, digest, attempt, current)
    {
      if id !in ops {
        return false;
      }
      var item := ops[id];
      if item.state == Completed && item.attempts == attempt {
        return false;
      }
      if !CurrentClaim(item, attempt, current) {
        if !ResultExists(results, item.tenant, MauticLate, LateAttempt(id, attempt)) {
          results := results + {ResultRow(item.tenant, id, MauticLate, LateAttempt(id, attempt), 0)};
        }
        return false;
      }
      if !ResultExists(results, item.tenant, FromTarget(Mautic), CompletionOf(id)) {
        results := results + {ResultRow(item.tenant, id, FromTarget(Mautic), CompletionOf(id), digest)};
      }
      ops := ops[id := item.(state := Completed, lease := None, error := None)];
      circuit := Circuit(0, None);
      return true;
    }

    method FailIntegration(id: Id, reason: string, current: int) returns (reply: Reply<OpState>)
      modifies this
      ensures reply == OperatorFail(old(View()), id, reason, current)
      ensures View() == if reply.Accepted? then reply.db else old(View())
    {
      if id !in ops || ops[id].state !in {Pending, Retry} {
        return Refused(404);
      }
      var item := ops[id].(attempts := ops[id].attempts + 1, error := Some(reason));
      item := item.(state := if item.attempts >= OPERATOR_MAX_ATTEMPTS then DeadLetter else Retry,
                    nextAttemptAt := current + Min(900, Pow2(item.attempts)));
      ops := ops[id := item];
      return Accepted(Db(ops, results, circuit), item.state);
    }

    method RecoverIntegration(id: Id, current: int) returns (reply: Reply<OpState>)
      modifies this
      ensures reply == OperatorRecover(old(View()), id, current)
      ensures View() == if reply.Accepted? then reply.db else old(View())
    {
      if id !in ops || ops[id].state !in {Retry, DeadLetter} {
        return Refused(404);
      }
      if !SafeRecovery(Db(ops, results, circuit), id) {
        return Refused(409);
      }
      ops := ops[id := Requeued(ops[id], current)];
      return Accepted(Db(ops, results, circuit), Pending);
    }

    method CancelOperation(id: Id, tenant: string) returns (reply: Reply<OpState>)
      modifies this
      ensures reply == TenantCancel(old(View()), id, tenant)
      ensures View() == if reply.Accepted? then reply.db else old(View())
    {
      if id !in ops || ops[id].tenant != tenant {
        return Refused(404);
      }
      if ops[id].state in {Completed, DeadLetter, Cancelled} {
        return Refused(409);
      }
      if ops[id].state == Processing {
        return Refused(409);
      }
      ops := ops[id := ops[id].(state := Cancelled)];
      return Accepted(Db(ops, results, circuit), Cancelled);
    }

    method ReconcileOperation(id: Id, tenant: string, current: int) returns (reply: Reply<bool>)
      modifies this
      ensures reply == TenantReconcile(old(View()), id, tenant, current)
      ensures View() == if reply.Accepted? then reply.db else old(View())
    {
      if id !in ops || ops[id].tenant != tenant {
        return Refused(404);
      }
      if !SafeRecovery(Db(ops, results, circuit), id) {
        return Refused(409);
      }
      var changed := false;
      if ops[id].state in {Retry, DeadLetter} {
        ops := ops[id := Requeued(ops[id], current)];
        changed := true;
      }
      return Accepted(Db(ops, results, circuit), changed);
    }

    /** Admission: an earlier row with the same unique key is returned instead of a new one. */
    method Admit(newId: Id, tenant: string, target: Target, key: string, current: int) returns (id: Id, duplicate: bool)
      requires newId !in ops
      modifies this
      ensures View() == Enqueue(old(View()), newId, tenant, target, key, current)
      ensures duplicate <==> KeyTaken(old(View()), tenant, target, key)
      ensures id in ops && SameRequest(ops[id], tenant, target, key)
    {
      var matching := set i | i in ops && SameRequest(ops[i], tenant, target, key);
      if matching != {} {
        id :| id in matching;
        return id, true;
      }
      assert forall i :: i in ops && SameRequest(ops[i], tenant, target, key) ==> i in matching;
      ops := ops[newId := NewRow(tenant, target, key, current)];
      return newId, false;
    }

    method AcceptCallback(id: Id, tenant: string, source: Target, key: string, payload: CallbackPayload) returns (reply: Reply<bool>)
      modifies this
      ensures reply == Callback(old(View()), id, tenant, source, key, payload)
      ensures View() == if reply.Accepted? then reply.db else old(View())
    {
      if id !in ops || ops[id].tenant != tenant {
        return Refused(404);
      }
      if ops[id].target !in {N8n, Odoo} || source != ops[id].target {
        return Refused(403);
      }
      if payload.digest.None? {
        return Refused(422);
      }
      var row := ResultRow(tenant, id, FromTarget(source), CallbackKey(key), payload.digest.value);
      if ResultExists(results, tenant, FromTarget(source), CallbackKey(key)) {
        if !SameCallback(Db(ops, results, circuit), id, tenant, source, key) {
          return Refused(409);
        }
        if !payload.readable {
          return Refused(503);
        }
        if row !in results {
          return Refused(409);
        }
        return Accepted(Db(ops, results, circuit), true);
      }
      if ops[id].state !in {Pending, Processing, Retry} {
        return Refused(409);
      }
      if !payload.sealable {
        return Refused(503);
      }
      ops := ops[id := ops[id].(state := Completed, lease := None, error := None)];
      results := results + {row};
      return Accepted(Db(ops, results, circuit), false);
    }
  }
}
