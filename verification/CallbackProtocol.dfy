/**
 Operations of N8N and ODOO, which complete by a trusted callback: over every
 run each is completed by one callback at most, and what was accepted stays so.
 */
module CallbackProtocol {

  import opened Wrappers
  import opened IntegrationOutbox
  import opened MauticProtocol

  predicate CalledBack(db: Db, id: Id) {
    id in db.ops && db.ops[id].target != Mautic
  }

  predicate HasResult(db: Db, id: Id) {
    exists r | r in db.results :: r.op == id
  }

  /** No two results share tenant, source and key. */
  predicate KeysAreUnique(db: Db) {
    forall r, s | r in db.results && s in db.results && r.tenant == s.tenant && r.source == s.source && r.key == s.key :: r == s
  }

  predicate ResultsFit(db: Db) {
    forall r | r in db.results ::
      && r.op in db.ops
      && (db.ops[r.op].target != Mautic ==>
            r.tenant == db.ops[r.op].tenant && r.source == FromTarget(db.ops[r.op].target) && r.key.CallbackKey?)
  }

  predicate OneResultEach(db: Db) {
    forall r, s | r in db.results && s in db.results && r.op == s.op && CalledBack(db, r.op) :: r == s
  }

  predicate CompletedIffResult(db: Db) {
    forall id | id in db.ops && db.ops[id].target != Mautic :: db.ops[id].state == Completed <==> HasResult(db, id)
  }

  predicate CallbacksOk(db: Db) {
    KeysAreUnique(db) && ResultsFit(db) && OneResultEach(db) && CompletedIffResult(db)
  }

  /** Rows of the same target and tenant, new ones unsettled, no result added for the operations called back. */
  ghost predicate NoCallback(a: Db, b: Db) {
    && (forall id :: id in a.ops ==> id in b.ops && SameIdentity(a.ops[id], b.ops[id]))
    && (forall id :: CalledBack(a, id) ==> (b.ops[id].state == Completed <==> a.ops[id].state == Completed))
    && (forall id :: CalledBack(b, id) && id !in a.ops ==> b.ops[id].state != Completed)
    && a.results <= b.results
    && (forall r :: r in b.results && r !in a.results ==>
          r.op in a.ops && a.ops[r.op].target == Mautic && !ResultExists(a.results, r.tenant, r.source, r.key))
    && (forall r, s :: r in b.results && s in b.results && r !in a.results && s !in a.results ==> r == s)
  }

  lemma NoCallbackOk(a: Db, b: Db)
    requires CallbacksOk(a) && NoCallback(a, b)
    ensures CallbacksOk(b)
  {
    forall id | CalledBack(b, id) ensures HasResult(b, id) <==> HasResult(a, id) {
      if HasResult(a, id) {
        var r :| r in a.results && r.op == id;
        assert r in b.results;
      }
    }
  }

  lemma FailureIsNoCallback(db: Db, id: Id, error: string, retryable: bool, attempt: nat, affectsCircuit: bool, current: int)
    ensures NoCallback(db, Failure(db, id, error, retryable, attempt, affectsCircuit, current).0)
  {
  }

  lemma SuccessIsNoCallback(db: Db, id: Id, digest: int, attempt: nat, current: int)
    requires id in db.ops && db.ops[id].target == Mautic
    ensures NoCallback(db, Success(db, id, digest, attempt, current).0)
  {
  }

  lemma ClaimIsNoCallback(db: Db, id: Id, current: int)
    requires id in db.ops && db.ops[id].target == Mautic
    ensures NoCallback(db, db.(ops := db.ops[id := ClaimRow(db.ops[id], current)]))
  {
  }

  lemma RecoverIsNoCallback(db: Db, current: int, locked: set<Id>)
    ensures NoCallback(db, RecoverExpired(db, current, locked))
  {
  }

  lemma ReportIsNoCallback(w: World, s: Step)
    requires Inv(w) && Enabled(w, s) && (s.ReportFailed? || s.ReportSucceeded?)
    ensures NoCallback(w.db, Do(w, s).db)
  {
    LiveIsActive(w, s.worker);
    var t := w.workers[s.worker].token;
    if s.ReportFailed? {
      var verdict := w.workers[s.worker].phase.verdict;
      FailureIsNoCallback(w.db, t.op, s.error, verdict.retryable, t.attempt, verdict.affectsCircuit, s.current);
    } else {
      SuccessIsNoCallback(w.db, t.op, s.digest, t.attempt, s.current);
    }
  }

  lemma SameTables(db: Db)
    ensures NoCallback(db, db)
  {
  }

  lemma OperatorIsNoCallback(db: Db, id: Id, reason: string, current: int)
    ensures OperatorFail(db, id, reason, current).Accepted? ==> NoCallback(db, OperatorFail(db, id, reason, current).db)
    ensures OperatorRecover(db, id, current).Accepted? ==> NoCallback(db, OperatorRecover(db, id, current).db)
  {
  }

  lemma TenantIsNoCallback(db: Db, id: Id, tenant: string, current: int)
    ensures TenantCancel(db, id, tenant).Accepted? ==> NoCallback(db, TenantCancel(db, id, tenant).db)
    ensures TenantReconcile(db, id, tenant, current).Accepted? ==> NoCallback(db, TenantReconcile(db, id, tenant, current).db)
  {
  }

  lemma AdmissionIsNoCallback(db: Db, newId: Id, tenant: string, target: Target, key: string, current: int)
    requires newId !in db.ops
    ensures NoCallback(db, Enqueue(db, newId, tenant, target, key, current))
  {
  }

  lemma OtherStepsAreNoCallback(w: World, s: Step)
    requires Inv(w) && Enabled(w, s) && !s.CallsBack? && !s.ReportFailed? && !s.ReportSucceeded?
    ensures NoCallback(w.db, Do(w, s).db)
  {
    SameTables(w.db);
    match s
    case Recover(current, locked) => RecoverIsNoCallback(w.db, current, locked);
    case Claim(_, id, current, _) => ClaimIsNoCallback(w.db, id, current);
    case OperatorFails(id, reason, current) => OperatorIsNoCallback(w.db, id, reason, current);
    case OperatorRecovers(id, current) => OperatorIsNoCallback(w.db, id, "", current);
    case TenantCancels(id, tenant) => TenantIsNoCallback(w.db, id, tenant, 0);
    case TenantReconciles(id, tenant, current) => TenantIsNoCallback(w.db, id, tenant, current);
    case Admits(newId, tenant, target, key, current) => AdmissionIsNoCallback(w.db, newId, tenant, target, key, current);
    case _ =>
  }

  predicate Fresh(reply: Reply<bool>) {
    reply.Accepted? && !reply.value
  }

  lemma FreshCallbackOk(db: Db, id: Id, tenant: string, source: Target, key: string, payload: CallbackPayload)
    requires CallbacksOk(db) && Fresh(Callback(db, id, tenant, source, key, payload))
    ensures CallbacksOk(Callback(db, id, tenant, source, key, payload).db)
  {
    var after := Callback(db, id, tenant, source, key, payload).db;
    var row := ResultRow(tenant, id, FromTarget(source), CallbackKey(key), payload.digest.value);
    assert !HasResult(db, id);
    assert row in after.results && after.results == db.results + {row};
    forall i | CalledBack(after, i) ensures after.ops[i].state == Completed <==> HasResult(after, i) {
      if i != id && HasResult(db, i) {
        var r :| r in db.results && r.op == i;
        assert r in after.results;
      }
    }
  }

  lemma CallbackStepOk(db: Db, id: Id, tenant: string, source: Target, key: string, payload: CallbackPayload)
    requires CallbacksOk(db) && Callback(db, id, tenant, source, key, payload).Accepted?
    ensures CallbacksOk(Callback(db, id, tenant, source, key, payload).db)
  {
    if Fresh(Callback(db, id, tenant, source, key, payload)) {
      FreshCallbackOk(db, id, tenant, source, key, payload);
    }
  }

  lemma StepOk(w: World, s: Step)
    requires Inv(w) && CallbacksOk(w.db) && Enabled(w, s)
    ensures CallbacksOk(Do(w, s).db)
  {
    if s.CallsBack? {
      if Callback(w.db, s.id, s.tenant, s.source, s.key, s.payload).Accepted? {
        CallbackStepOk(w.db, s.id, s.tenant, s.source, s.key, s.payload);
      }
    } else {
      if s.ReportFailed? || s.ReportSucceeded? {
        ReportIsNoCallback(w, s);
      } else {
        OtherStepsAreNoCallback(w, s);
      }
      NoCallbackOk(w.db, Do(w, s).db);
    }
  }

  lemma {:induction false} RunOk(w: World, steps: seq<Step>, last: World)
    requires Inv(w) && CallbacksOk(w.db) && Run(w, steps, last)
    ensures Inv(last) && CallbacksOk(last.db)
    decreases steps
  {
    if steps != [] {
      StepInv(w, steps[0]);
      StepOk(w, steps[0]);
      RunOk(Do(w, steps[0]), steps[1..], last);
    }
  }

  /** Over every run an operation that is called back is COMPLETED exactly when one callback, and only one, was accepted for it. */
  lemma CompletedByOneCallback(clock: int, steps: seq<Step>, w: World, id: Id)
    requires Run(Initial(clock), steps, w) && CalledBack(w.db, id)
    ensures w.db.ops[id].state == Completed <==> exists r :: r in w.db.results && r.op == id
    ensures forall r, s :: r in w.db.results && s in w.db.results && r.op == id && s.op == id ==> r == s
    ensures forall r :: r in w.db.results && r.op == id ==>
      r.tenant == w.db.ops[id].tenant && r.source == FromTarget(w.db.ops[id].target) && r.key.CallbackKey?
  {
    InitialInv(clock);
    RunOk(Initial(clock), steps, w);
  }

  // ---------------------------------------------------------------------
  // Completed and cancelled for good
  // ---------------------------------------------------------------------

  predicate Final(op: Op) {
    op.state in {Completed, Cancelled}
  }

  lemma ResultsStay(w: World, s: Step)
    requires Inv(w) && CallbacksOk(w.db) && Enabled(w, s)
    ensures w.db.results <= Do(w, s).db.results
  {
    if s.ReportFailed? || s.ReportSucceeded? {
      ReportIsNoCallback(w, s);
    } else if !s.CallsBack? {
      OtherStepsAreNoCallback(w, s);
    }
  }

  /** A report changes no row but its worker's own, which is a Mautic one. */
  lemma ReportsStayApart(w: World, s: Step, id: Id)
    requires Inv(w) && Enabled(w, s) && (s.ReportFailed? || s.ReportSucceeded?) && CalledBack(w.db, id)
    ensures CalledBack(Do(w, s).db, id) && Do(w, s).db.ops[id] == w.db.ops[id]
  {
    LiveIsActive(w, s.worker);
    if s.ReportFailed? {
      FailureReported(w, s);
    } else {
      SuccessReported(w, s);
    }
  }

  lemma RequestsKeepFinal(db: Db, id: Id, other: Id, tenant: string, reason: string, current: int)
    requires CalledBack(db, id) && Final(db.ops[id])
    ensures OperatorFail(db, other, reason, current).Accepted? ==> KeepsRow(db, OperatorFail(db, other, reason, current).db, id)
    ensures OperatorRecover(db, other, current).Accepted? ==> KeepsRow(db, OperatorRecover(db, other, current).db, id)
    ensures TenantCancel(db, other, tenant).Accepted? ==> KeepsRow(db, TenantCancel(db, other, tenant).db, id)
    ensures TenantReconcile(db, other, tenant, current).Accepted? ==> KeepsRow(db, TenantReconcile(db, other, tenant, current).db, id)
  {
  }

  lemma CallbackKeepsFinal(db: Db, id: Id, other: Id, tenant: string, source: Target, key: string, payload: CallbackPayload)
    requires CallbacksOk(db) && CalledBack(db, id) && Final(db.ops[id])
    ensures Callback(db, other, tenant, source, key, payload).Accepted? ==>
      KeepsRow(db, Callback(db, other, tenant, source, key, payload).db, id)
  {
  }

  lemma DispatcherKeepsOthers(db: Db, id: Id, other: Id, current: int, locked: set<Id>)
    requires CalledBack(db, id)
    ensures KeepsRow(db, RecoverExpired(db, current, locked), id)
    ensures Claimable(db, other, current) ==> KeepsRow(db, db.(ops := db.ops[other := ClaimRow(db.ops[other], current)]), id)
  {
  }

  predicate KeepsRow(before: Db, after: Db, id: Id) {
    id in before.ops && id in after.ops && after.ops[id] == before.ops[id]
  }

  lemma FinalStep(w: World, s: Step, id: Id)
    requires Inv(w) && Enabled(w, s) && CallbacksOk(w.db) && CalledBack(w.db, id) && Final(w.db.ops[id])
    ensures CalledBack(Do(w, s).db, id) && Do(w, s).db.ops[id] == w.db.ops[id]
  {
    match s
    case ReportFailed(_, _, _) => ReportsStayApart(w, s, id);
    case ReportSucceeded(_, _, _) => ReportsStayApart(w, s, id);
    case OperatorFails(other, reason, current) => RequestsKeepFinal(w.db, id, other, "", reason, current);
    case OperatorRecovers(other, current) => RequestsKeepFinal(w.db, id, other, "", "", current);
    case TenantCancels(other, tenant) => RequestsKeepFinal(w.db, id, other, tenant, "", 0);
    case TenantReconciles(other, tenant, current) => RequestsKeepFinal(w.db, id, other, tenant, "", current);
    case CallsBack(other, tenant, source, key, payload) => CallbackKeepsFinal(w.db, id, other, tenant, source, key, payload);
    case Recover(current, locked) => DispatcherKeepsOthers(w.db, id, id, current, locked);
    case Claim(_, other, current, locked) => DispatcherKeepsOthers(w.db, id, other, current, locked);
    case _ =>
  }

  lemma {:induction false} FinalForever(w: World, steps: seq<Step>, last: World, id: Id)
    requires Inv(w) && CallbacksOk(w.db) && Run(w, steps, last) && CalledBack(w.db, id) && Final(w.db.ops[id])
    ensures CalledBack(last.db, id) && last.db.ops[id] == w.db.ops[id]
    ensures w.db.results <= last.db.results
    decreases steps
  {
    if steps != [] {
      StepInv(w, steps[0]);
      StepOk(w, steps[0]);
      ResultsStay(w, steps[0]);
      FinalStep(w, steps[0], id);
      FinalForever(Do(w, steps[0]), steps[1..], last, id);
    }
  }

  lemma CancelledTakesNothing(db: Db, id: Id, tenant: string, source: Target, key: string, payload: CallbackPayload)
    requires CallbacksOk(db) && CalledBack(db, id) && db.ops[id].state == Cancelled
    ensures Callback(db, id, tenant, source, key, payload).Refused?
  {
    assert !HasResult(db, id);
  }

  /** After an accepted cancel no result is ever accepted for the operation, over every run. */
  lemma CancelledIsNeverCompleted(w: World, id: Id, tenant: string, steps: seq<Step>, last: World)
    requires Inv(w) && CallbacksOk(w.db) && CalledBack(w.db, id) && TenantCancel(w.db, id, tenant).Accepted?
    requires Run(Do(w, TenantCancels(id, tenant)), steps, last)
    ensures CalledBack(last.db, id) && last.db.ops[id].state == Cancelled
    ensures forall r :: r in last.db.results ==> r.op != id
    ensures forall source, key, payload :: Callback(last.db, id, tenant, source, key, payload).Refused?
  {
    var v := Do(w, TenantCancels(id, tenant));
    StepInv(w, TenantCancels(id, tenant));
    StepOk(w, TenantCancels(id, tenant));
    FinalForever(v, steps, last, id);
    RunOk(v, steps, last);
    assert !HasResult(last.db, id);
    forall source, key, payload ensures Callback(last.db, id, tenant, source, key, payload).Refused? {
      CancelledTakesNothing(last.db, id, tenant, source, key, payload);
    }
  }

  lemma RecordedCallback(w: World, id: Id, tenant: string, source: Target, key: string, payload: CallbackPayload)
    requires Inv(w) && CallbacksOk(w.db) && Callback(w.db, id, tenant, source, key, payload).Accepted?
    ensures var v := Do(w, CallsBack(id, tenant, source, key, payload));
            && CalledBack(v.db, id) && v.db.ops[id].state == Completed
            && v.db.ops[id].tenant == tenant && v.db.ops[id].target == source && payload.digest.Some?
            && ResultRow(tenant, id, FromTarget(source), CallbackKey(key), payload.digest.value) in v.db.results
  {
    if !Fresh(Callback(w.db, id, tenant, source, key, payload)) {
      assert HasResult(w.db, id);
    }
  }

  /** Once a result is on record the operation takes that one again, as a repetition, and no other. */
  lemma OnlyTheRecordedIsTaken(db: Db, row: ResultRow, key: string, payload: CallbackPayload)
    requires CallbacksOk(db) && row in db.results && row.key.CallbackKey? && CalledBack(db, row.op)
    ensures var again := Callback(db, row.op, row.tenant, db.ops[row.op].target, key, payload);
            && (again.Accepted? <==> key == row.key.text && payload.readable && payload.digest == Some(row.digest))
            && (again.Accepted? ==> again == Accepted(db, true))
            && (payload.readable && payload.digest.Some? && again.Refused? ==> again.status == 409)
  {
    var target := db.ops[row.op].target;
    assert HasResult(db, row.op);
    if payload.digest.Some? {
      var other := ResultRow(row.tenant, row.op, FromTarget(target), CallbackKey(key), payload.digest.value);
      assert other in db.results ==> other == row;
    }
    if key == row.key.text {
      assert ResultExists(db.results, row.tenant, FromTarget(target), CallbackKey(key));
      assert SameCallback(db, row.op, row.tenant, target, key);
    }
  }

  /**
   An accepted callback stays accepted: over every run the operation remains
   COMPLETED, the same result sent again is acknowledged as a repetition and
   changes nothing, and another result, under this key or any other, is refused.
   */
  lemma AcceptedCallbackIsFinal(
      w: World, id: Id, tenant: string, source: Target, key: string, payload: CallbackPayload,
      steps: seq<Step>, last: World, otherKey: string, other: CallbackPayload)
    requires Inv(w) && CallbacksOk(w.db) && Callback(w.db, id, tenant, source, key, payload).Accepted?
    requires Run(Do(w, CallsBack(id, tenant, source, key, payload)), steps, last)
    ensures CalledBack(last.db, id) && last.db.ops[id].state == Completed
    ensures var again := Callback(last.db, id, tenant, source, otherKey, other);
            && (again.Accepted? <==> otherKey == key && other.readable && other.digest == payload.digest)
            && (again.Accepted? ==> again == Accepted(last.db, true))
            && (other.readable && other.digest.Some? && again.Refused? ==> again.status == 409)
  {
    var s := CallsBack(id, tenant, source, key, payload);
    RecordedCallback(w, id, tenant, source, key, payload);
    StepInv(w, s);
    StepOk(w, s);
    FinalForever(Do(w, s), steps, last, id);
    RunOk(Do(w, s), steps, last);
    OnlyTheRecordedIsTaken(
      last.db, ResultRow(tenant, id, FromTarget(source), CallbackKey(key), payload.digest.value), otherKey, other);
  }

  /** A waiting operation takes the first result that is well formed, can be sealed and has an unused key, from its own target. */
  lemma FirstResultIsTaken(db: Db, id: Id, tenant: string, source: Target, key: string, payload: CallbackPayload)
    requires CalledBack(db, id) && !HasResult(db, id) && CallbacksOk(db)
    ensures Callback(db, id, tenant, source, key, payload).Accepted? <==>
      && tenant == db.ops[id].tenant && source == db.ops[id].target && payload.digest.Some? && payload.sealable
      && db.ops[id].state in {Pending, Processing, Retry} && !ResultExists(db.results, tenant, FromTarget(source), CallbackKey(key))
    ensures var reply := Callback(db, id, tenant, source, key, payload);
            reply.Accepted? ==>
              !reply.value && reply.db.ops == db.ops[id := db.ops[id].(state := Completed, lease := None, error := None)]
  {
  }

  /** The result key stands for a result of another operation, and of no other. */
  predicate UsedByAnother(db: Db, id: Id, tenant: string, source: Target, key: string) {
    && (exists r :: r in db.results && r.tenant == tenant && r.source == FromTarget(source) && r.key == CallbackKey(key))
    && (forall r :: r in db.results && r.tenant == tenant && r.source == FromTarget(source) && r.key == CallbackKey(key) ==> r.op != id)
  }

  /** What a refusal tells: not there, not this sender's to complete, no canonical form, or a conflict or a row that
   cannot be read or sealed. A key another operation used is a conflict, whether its result can be read or not. */
  lemma RefusalsSayWhy(db: Db, id: Id, tenant: string, source: Target, key: string, payload: CallbackPayload)
    ensures var reply := Callback(db, id, tenant, source, key, payload);
            var there := id in db.ops && db.ops[id].tenant == tenant;
            var its := there && db.ops[id].target != Mautic && db.ops[id].target == source;
            reply.Refused? ==>
              && (reply.status == 404 <==> !there)
              && (reply.status == 403 <==> there && !its)
              && (reply.status == 422 <==> its && payload.digest == None)
              && (its && payload.digest.Some? && UsedByAnother(db, id, tenant, source, key) ==> reply.status == 409)
              && (its && payload.digest.Some? ==> reply.status == 409 || (reply.status == 503 && (!payload.readable || !payload.sealable)))
  {
  }
}
