/** What a reader of an operation is told, read off the tables, and for how long an accepted result is shown. */
module ShownResults {
  import opened DurableResults
  import opened DurableRetention
  import opened JsonValue
  import opened OperationReader
  import opened Queue
  import opened ReplayIdentity
  import opened SealedResults
  import opened Text
  import opened Wrappers

  const STATES := {"PENDING", "PROCESSING", "RETRY", "COMPLETED", "DEAD_LETTER", "CANCELLED"}

  /** No two states of an operation are shown alike. */
  lemma StatusDistinguishes(a: string, b: string)
    requires a in STATES && b in STATES && Status(a) == Status(b)
    ensures a == b
  {
  }

  /** A result of the operation itself, from its own target. */
  predicate ItsResult(r: Result, op: Op) {
    r.tenant == op.tenant && r.outbox == op.id && r.source == op.target
  }

  predicate CameLate(tables: Tables, op: Op) {
    op.target == "MAUTIC" &&
    exists r :: r in tables.results && tables.results[r].tenant == op.tenant && tables.results[r].outbox == op.id
                && tables.results[r].source == "MAUTIC_LATE"
  }

  /** Created last, and of those the one with the greatest id. */
  predicate IsItsLatest(tables: Tables, op: Op, r: Id) {
    && r in tables.results && ItsResult(tables.results[r], op)
    && forall other :: other in tables.results && ItsResult(tables.results[other], op) && other != r ==>
         || tables.results[other].created < tables.results[r].created
         || (tables.results[other].created == tables.results[r].created && other < r)
  }

  lemma LateIff(tables: Tables, op: Op)
    ensures Late(tables.results, op) <==> CameLate(tables, op)
  {
    if CameLate(tables, op) {
      var r :| r in tables.results && tables.results[r].tenant == op.tenant && tables.results[r].outbox == op.id
               && tables.results[r].source == "MAUTIC_LATE";
      assert r in Attributed(tables.results, op.tenant, op.id, "MAUTIC_LATE");
    }
    if Late(tables.results, op) {
      var r :| r in Attributed(tables.results, op.tenant, op.id, "MAUTIC_LATE");
      assert tables.results[r].source == "MAUTIC_LATE";
    }
  }

  /** Only a completed operation with a result has one found for it, and it is the latest. */
  lemma PersistedIff(tables: Tables, op: Op, r: Id)
    ensures Persisted(tables.results, op) == Some(r) <==> op.state == "COMPLETED" && IsItsLatest(tables, op, r)
  {
    var rows := Attributed(tables.results, op.tenant, op.id, op.target);
    assert forall x :: x in rows <==> x in tables.results && ItsResult(tables.results[x], op);
    if op.state == "COMPLETED" && IsItsLatest(tables, op, r) {
      assert r in rows;
      var found := Latest(tables.results, rows).value;
      assert IsLatest(tables.results, rows, found);
      assert !Newer(tables.results, found, r);
    }
  }

  predicate Reads(reading: Reading, i: Id, r: Result, view: View)
    requires view.OperationView?
  {
    (view.result, view.availability) == Readback(reading.env, Some(AsRow(i, r)), reading.now, reading.retention)
  }

  /** The view of an operation that shows the result `r`, or no result at all. */
  lemma ViewMeans(reading: Reading, tables: Tables, op: Op, r: Option<Id>)
    requires if r.Some? then op.state == "COMPLETED" && IsItsLatest(tables, op, r.value)
             else op.state != "COMPLETED" || forall x :: x in tables.results ==> !ItsResult(tables.results[x], op)
    ensures var view := OperationJson(reading, tables, Outbox(op));
            && view.OperationView? && view.operationId == op.id && view.status == Status(op.state) && view.version == op.updated
            && (r == None ==> view.result == Record(map[]) && view.availability == Unavailable)
            && (r.Some? ==> Reads(reading, r.value, tables.results[r.value], view))
            && var lost := op.state == "COMPLETED" && view.availability != Available && view.availability != Purged;
            && (view.retryable <==> op.state == "RETRY" && !CameLate(tables, op))
            && (view.reconcile <==> op.state == "DEAD_LETTER" || lost || CameLate(tables, op))
            && (op.error.Some? && op.error != Some("") ==> view.error == op.error)
            && (op.error == None || op.error == Some("") ==>
                  view.error == if lost then Some("operation_result_unavailable") else None)
  {
    LateIff(tables, op);
    if r.Some? {
      PersistedIff(tables, op, r.value);
    } else {
      forall x: Id ensures Persisted(tables.results, op) != Some(x) {
        PersistedIff(tables, op, x);
      }
    }
  }

  /**
   From the moment a result is accepted, through key rotations and rewraps: while
   it is the latest of its completed operation, a reader is shown its redacted
   form until its time is over, and after that that it has expired.
   */
  lemma AcceptedResultIsShown(
      reading: Reading, tables: Tables, op: Op, r: Id, env: Env, v: Value, row: Row, nonce: Nonce, run: seq<Event>)
    requires op.state == "COMPLETED" && IsItsLatest(tables, op, r)
    requires row.binding.kind == Integration && SealResult(env, v, row.binding, nonce) == Some(row.stored)
    requires History(Store(env, row), run) && (forall e :: e in run ==> !IsPurge(e))
    requires After(Store(env, row), run) == Store(reading.env, AsRow(r, tables.results[r]))
    requires Visit(v, 0).Some? && Fits(env.size, v)
    ensures var view := OperationJson(reading, tables, Outbox(op));
            && view.OperationView?
            && (reading.now < row.created + reading.retention ==> view.availability == Available && view.result == Visit(v, 0).value)
            && (reading.now >= row.created + reading.retention ==> view.availability == Expired && view.reconcile)
  {
    var s := Store(env, row);
    AcceptedCarries(env, v, row, nonce);
    HistoryKeeps(s, run, v);
    UnpurgedReadsTheSame(s, run, v, reading.now, reading.retention);
    NeverLegacyAgain(s, run);
    FittingIsReadable(s, run, v);
    ViewMeans(reading, tables, op, Some(r));
  }

  /** Once it is purged, a reader is told so and shown nothing, and the operation is not flagged for it. */
  lemma PurgedResultIsNotShown(reading: Reading, tables: Tables, op: Op, r: Id, v: Value)
    requires op.state == "COMPLETED" && IsItsLatest(tables, op, r)
    requires var s := Store(reading.env, AsRow(r, tables.results[r])); Carries(s, v) && Gone(s, v)
    ensures var view := OperationJson(reading, tables, Outbox(op));
            && view.OperationView? && view.availability == Purged && view.result == Record(map[])
            && (view.reconcile <==> CameLate(tables, op))
  {
    ReadbackMeans(Store(reading.env, AsRow(r, tables.results[r])), v, reading.now, reading.retention);
    ViewMeans(reading, tables, op, Some(r));
  }

  /** A middleware command keeps its own fields; a failed one may be retried, and only a stuck one asks to be reconciled. */
  lemma CommandMeans(reading: Reading, tables: Tables, c: Item)
    requires c.Command?
    ensures var view := OperationJson(reading, tables, c);
            && view.CommandView? && view.operationId == c.id && view.result == c.result && view.error == c.error
            && view.correlation == c.correlation && view.version == c.updated
            && (c.state in {"accepted", "queued"} ==> view.status == "QUEUED" && !view.retryable)
            && (c.state == "completed" ==> view.status == "SUCCEEDED" && !view.retryable && !view.reconcile)
            && (view.reconcile ==> view.retryable)
  {
  }

  /** The states a command fails in, shown. */
  lemma FailedCommands(reading: Reading, tables: Tables, c: Item)
    requires c.Command?
    ensures c.state == "failed" ==> OperationJson(reading, tables, c).status == "FAILED" && OperationJson(reading, tables, c).retryable
    ensures c.state == "processing" ==> OperationJson(reading, tables, c).status == "PROCESSING" && !OperationJson(reading, tables, c).retryable
    ensures c.state == "cancelled" ==> OperationJson(reading, tables, c).status == "CANCELLED" && !OperationJson(reading, tables, c).retryable
  {
    assert Upper("failed") == "FAILED" && Upper("processing") == "PROCESSING" && Upper("cancelled") == "CANCELLED";
  }
}
