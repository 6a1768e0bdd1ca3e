/**
 Reading operations back. The simple reader asks the result table about each
 operation; the batched reader asks it at most twice per tenant.
 */
module OperationReader {
  import opened DurableResults
  import opened JsonValue
  import opened DurableRetention
  import opened Queue
  import opened Text
  import opened Wrappers

  type Identity = (string, string)

  datatype Op = Op(tenant: string, id: string, target: string, state: string, error: Option<string>, updated: int)

  datatype Item =
    | Outbox(op: Op)
    | Command(id: string, state: string, result: Value, error: Option<string>, correlation: string, updated: int)

  datatype Tables = Tables(operations: map<Identity, Op>, results: map<Id, Result>)

  /** How a result is read: the keyring, the clock and the retention period. */
  datatype Reading = Reading(env: Env, now: int, retention: int)

  datatype View =
    | OperationView(
        operationId: string, status: string, result: Value, availability: Availability, error: Option<string>,
        retryable: bool, reconcile: bool, version: int)
    | CommandView(
        operationId: string, status: string, result: Value, error: Option<string>,
        retryable: bool, reconcile: bool, correlation: string, version: int)

  function Status(state: string): string {
    if state == "PENDING" then "QUEUED"
    else if state == "COMPLETED" then "SUCCEEDED"
    else if state == "RETRY" then "FAILED"
    else if state == "DEAD_LETTER" then "RECONCILIATION_REQUIRED"
    else state
  }

  function CommandStatus(state: string): string {
    if state == "accepted" || state == "queued" then "QUEUED"
    else if state == "completed" then "SUCCEEDED"
    else Upper(state)
  }

  function CommandJson(c: Item): View
    requires c.Command?
  {
    var status := CommandStatus(c.state);
    CommandView(c.id, status, c.result, c.error, status in {"FAILED", "RECONCILIATION_REQUIRED"},
                status == "RECONCILIATION_REQUIRED", c.correlation, c.updated)
  }

  /** What the reader says about an operation, given the result it found and whether one came late. */
  function Shown(reading: Reading, results: map<Id, Result>, op: Op, persisted: Option<Id>, late: bool): View {
    var row := if persisted.Some? && persisted.value in results
               then Some(AsRow(persisted.value, results[persisted.value])) else None;
    var (value, availability) := Readback(reading.env, row, reading.now, reading.retention);
    var missing := op.state == "COMPLETED" && availability !in {Available, Purged};
    OperationView(op.id, Status(op.state), value, availability,
                  if op.error.Some? && op.error.value != "" then op.error
                  else if missing then Some("operation_result_unavailable") else None,
                  op.state == "RETRY" && !late, op.state == "DEAD_LETTER" || missing || late, op.updated)
  }

  // ---------------------------------------------------------------------
  // The simple reader
  // ---------------------------------------------------------------------

  function Attributed(results: map<Id, Result>, tenant: string, outbox: string, source: string): set<Id> {
    set r | r in results && results[r].tenant == tenant && results[r].outbox == outbox && results[r].source == source
  }

  predicate Newer(results: map<Id, Result>, a: Id, b: Id)
    requires a in results && b in results
  {
    results[a].created > results[b].created || (results[a].created == results[b].created && a > b)
  }

  predicate IsLatest(results: map<Id, Result>, rows: set<Id>, x: Id)
    requires rows <= results.Keys
  {
    x in rows && forall y :: y in rows && y != x ==> Newer(results, x, y)
  }

  lemma {:induction false} LatestExists(results: map<Id, Result>, rows: set<Id>)
    requires rows <= results.Keys && rows != {}
    ensures exists x :: IsLatest(results, rows, x)
  {
    var y :| y in rows;
    if rows == {y} {
      assert IsLatest(results, rows, y);
    } else {
      assert rows - {y} != {};
      LatestExists(results, rows - {y});
      var z :| IsLatest(results, rows - {y}, z);
      var x := if Newer(results, y, z) then y else z;
      forall u | u in rows && u != x ensures Newer(results, x, u) {
        if u != y && u != z { assert u in rows - {y}; }
      }
      assert IsLatest(results, rows, x);
    }
  }

  /** order by created_at desc, id desc; the first row. */
  function Latest(results: map<Id, Result>, rows: set<Id>): (found: Option<Id>)
    requires rows <= results.Keys
    ensures found.None? <==> rows == {}
    ensures found.Some? ==> IsLatest(results, rows, found.value)
  {
    if rows == {} then None
    else
      LatestExists(results, rows);
      assert forall x, y :: IsLatest(results, rows, x) && IsLatest(results, rows, y) ==> x == y;
      var x :| IsLatest(results, rows, x);
      Some(x)
  }

  function Persisted(results: map<Id, Result>, op: Op): Option<Id> {
    if op.state == "COMPLETED" then Latest(results, Attributed(results, op.tenant, op.id, op.target)) else None
  }

  predicate Late(results: map<Id, Result>, op: Op) {
    op.target == "MAUTIC" && Attributed(results, op.tenant, op.id, "MAUTIC_LATE") != {}
  }

  function OperationJson(reading: Reading, tables: Tables, item: Item): View {
    match item
    case Outbox(op) => Shown(reading, tables.results, op, Persisted(tables.results, op), Late(tables.results, op))
    case Command(_, _, _, _, _, _) => CommandJson(item)
  }

  /** A completed operation whose result cannot be read is always flagged, and nothing retryable is. */
  lemma LostResultsAreFlagged(reading: Reading, tables: Tables, op: Op)
    ensures var view := OperationJson(reading, tables, Outbox(op));
            && view.OperationView?
            && (op.state == "COMPLETED" && view.availability !in {Available, Purged} ==> view.reconcile && view.error.Some?)
            && (view.retryable ==> !view.reconcile)
  {
  }

  // ---------------------------------------------------------------------
  // The two queries of the batched reader
  // ---------------------------------------------------------------------

  function LateQuery(results: map<Id, Result>, tenant: string, ids: set<string>): set<string> {
    set r | r in results && results[r].tenant == tenant && results[r].outbox in ids && results[r].source == "MAUTIC_LATE"
          :: results[r].outbox
  }

  /** The join on the operation: same tenant, and the source is the operation's target. */
  predicate Joined(tables: Tables, r: Id, tenant: string, ids: set<string>) {
    && r in tables.results && tables.results[r].tenant == tenant && tables.results[r].outbox in ids
    && (tenant, tables.results[r].outbox) in tables.operations
    && tables.results[r].source == tables.operations[(tenant, tables.results[r].outbox)].target
  }

  /** row_number() over (partition by tenant, outbox order by created_at desc, id desc). */
  function Position(tables: Tables, r: Id, tenant: string, ids: set<string>): nat
    requires Joined(tables, r, tenant, ids)
  {
    1 + |set y | y in tables.results && Joined(tables, y, tenant, ids)
              && tables.results[y].outbox == tables.results[r].outbox && Newer(tables.results, y, r)|
  }

  function LatestQuery(tables: Tables, tenant: string, ids: set<string>): set<Id> {
    set r | r in tables.results && Joined(tables, r, tenant, ids) && Position(tables, r, tenant, ids) == 1
  }

  /** Position one in its partition is the latest attributed result, and conversely. */
  lemma FirstPositionIsLatest(tables: Tables, op: Op, ids: set<string>, r: Id)
    requires op.id in ids && (op.tenant, op.id) in tables.operations && tables.operations[(op.tenant, op.id)] == op
    ensures r in LatestQuery(tables, op.tenant, ids) && tables.results[r].outbox == op.id
       <==> Latest(tables.results, Attributed(tables.results, op.tenant, op.id, op.target)) == Some(r)
  {
    var part := Attributed(tables.results, op.tenant, op.id, op.target);
    var latest := Latest(tables.results, part);
    if r in part {
      assert Joined(tables, r, op.tenant, ids);
      var ahead := set y | y in tables.results && Joined(tables, y, op.tenant, ids)
                         && tables.results[y].outbox == op.id && Newer(tables.results, y, r);
      assert ahead == set y | y in part && Newer(tables.results, y, r);
      assert Position(tables, r, op.tenant, ids) == 1 + |ahead|;
      if latest != Some(r) {
        assert latest.value in ahead;
      } else {
        assert ahead == {};
      }
    }
  }

  // ---------------------------------------------------------------------
  // The batched reader
  // ---------------------------------------------------------------------

  type Snapshots = map<Identity, (Option<Id>, bool)>

  /** The items are rows of the table, as a session hands them out. */
  predicate Genuine(tables: Tables, items: seq<Item>) {
    forall k :: 0 <= k < |items| && items[k].Outbox? ==>
      var op := items[k].op; (op.tenant, op.id) in tables.operations && tables.operations[(op.tenant, op.id)] == op
  }

  predicate RowsOf(tables: Tables, tenant: string, rows: seq<Op>) {
    forall op :: op in rows ==>
      op.tenant == tenant && (tenant, op.id) in tables.operations && tables.operations[(tenant, op.id)] == op
  }

  function MauticIds(rows: seq<Op>): set<string> {
    set op | op in rows && op.target == "MAUTIC" :: op.id
  }

  function CompletedIds(rows: seq<Op>): set<string> {
    set op | op in rows && op.state == "COMPLETED" :: op.id
  }

  predicate Answered(tables: Tables, snapshots: Snapshots, op: Op) {
    && (op.tenant, op.id) in snapshots
    && snapshots[(op.tenant, op.id)] == (Persisted(tables.results, op), Late(tables.results, op))
  }

  method MarkLate(tables: Tables, tenant: string, rows: seq<Op>, before: Snapshots) returns (after: Snapshots)
    requires RowsOf(tables, tenant, rows)
    requires forall op :: op in rows ==> (tenant, op.id) in before && before[(tenant, op.id)] == (None, false)
    ensures after.Keys == before.Keys
    ensures forall key :: key in before && key.0 != tenant ==> after[key] == before[key]
    ensures forall op :: op in rows ==> after[(tenant, op.id)] == (None, Late(tables.results, op))
  {
    after := before;
    var mautic := MauticIds(rows);
    if mautic == {} {
      assert forall op :: op in rows && op.target == "MAUTIC" ==> op.id in mautic;
      return;
    }
    var late := LateQuery(tables.results, tenant, mautic);
    var rest := late;
    while rest != {}
      invariant rest <= late && after.Keys == before.Keys
      invariant forall key :: key in before ==>
        after[key] == if key.0 == tenant && key.1 in late - rest then (None, true) else before[key]
      decreases rest
    {
      var id :| id in rest;
      after := after[(tenant, id) := (None, true)];
      rest := rest - {id};
    }
    forall op | op in rows ensures after[(tenant, op.id)] == (None, Late(tables.results, op)) {
      LateMeans(tables, tenant, rows, op);
    }
  }

  lemma LateMeans(tables: Tables, tenant: string, rows: seq<Op>, op: Op)
    requires RowsOf(tables, tenant, rows) && op in rows
    ensures op.id in LateQuery(tables.results, tenant, MauticIds(rows)) <==> Late(tables.results, op)
  {
    var late := Attributed(tables.results, op.tenant, op.id, "MAUTIC_LATE");
    if Late(tables.results, op) {
      var r :| r in late;
      assert op.id in MauticIds(rows);
      assert tables.results[r].outbox == op.id;
    }
    if op.id in LateQuery(tables.results, tenant, MauticIds(rows)) {
      var r :| r in tables.results && tables.results[r].tenant == tenant && tables.results[r].outbox == op.id
               && tables.results[r].source == "MAUTIC_LATE";
      assert r in late;
    }
  }

  /** Where the results of the query put an operation: its own latest row, if it has one. */
  lemma LatestMeans(tables: Tables, tenant: string, rows: seq<Op>, op: Op, r: Id)
    requires RowsOf(tables, tenant, rows) && op in rows
    ensures r in LatestQuery(tables, tenant, CompletedIds(rows)) && tables.results[r].outbox == op.id
       <==> Persisted(tables.results, op) == Some(r)
  {
    if op.state == "COMPLETED" {
      assert op.id in CompletedIds(rows);
      FirstPositionIsLatest(tables, op, CompletedIds(rows), r);
    } else {
      assert op.id !in CompletedIds(rows);
    }
  }

  predicate Filled(tables: Tables, done: set<Id>, before: (Option<Id>, bool), after: (Option<Id>, bool), outbox: string) {
    && after.1 == before.1
    && (after.0.None? ==> before.0.None? && forall r :: r in done && r in tables.results ==> tables.results[r].outbox != outbox)
    && (after.0.Some? ==> after.0.value in done && after.0.value in tables.results && tables.results[after.0.value].outbox == outbox)
  }

  lemma FilledNext(tables: Tables, done: set<Id>, r: Id, before: (Option<Id>, bool), prior: (Option<Id>, bool), outbox: string)
    requires Filled(tables, done, before, prior, outbox) && r in tables.results
    ensures Filled(tables, done + {r}, before, if tables.results[r].outbox == outbox then (Some(r), prior.1) else prior, outbox)
  {
  }

  lemma FilledMeans(tables: Tables, tenant: string, rows: seq<Op>, op: Op, before: (Option<Id>, bool), after: (Option<Id>, bool))
    requires RowsOf(tables, tenant, rows) && op in rows && before.0 == None
    requires Filled(tables, LatestQuery(tables, tenant, CompletedIds(rows)), before, after, op.id)
    ensures after == (Persisted(tables.results, op), before.1)
  {
    if after.0.Some? {
      LatestMeans(tables, tenant, rows, op, after.0.value);
    } else if Persisted(tables.results, op).Some? {
      LatestMeans(tables, tenant, rows, op, Persisted(tables.results, op).value);
    }
  }

  /** The results put in place so far; other tenants are untouched. */
  predicate AllFilled(tables: Tables, tenant: string, rows: seq<Op>, done: set<Id>, before: Snapshots, after: Snapshots) {
    && after.Keys == before.Keys
    && (forall key :: key in before && key.0 != tenant ==> after[key] == before[key])
    && forall op :: op in rows ==>
         (tenant, op.id) in before && Filled(tables, done, before[(tenant, op.id)], after[(tenant, op.id)], op.id)
  }

  lemma FillOne(tables: Tables, tenant: string, rows: seq<Op>, done: set<Id>, r: Id, before: Snapshots, prior: Snapshots)
    requires AllFilled(tables, tenant, rows, done, before, prior)
    requires r in tables.results && (tenant, tables.results[r].outbox) in prior
    ensures var identity := (tenant, tables.results[r].outbox);
            AllFilled(tables, tenant, rows, done + {r}, before, prior[identity := (Some(r), prior[identity].1)])
  {
    forall op | op in rows ensures (tenant, op.id) in before {
      FilledNext(tables, done, r, before[(tenant, op.id)], prior[(tenant, op.id)], op.id);
    }
  }

  lemma AllFilledMeans(tables: Tables, tenant: string, rows: seq<Op>, before: Snapshots, after: Snapshots)
    requires RowsOf(tables, tenant, rows)
    requires AllFilled(tables, tenant, rows, LatestQuery(tables, tenant, CompletedIds(rows)), before, after)
    requires forall op :: op in rows ==> (tenant, op.id) in before && before[(tenant, op.id)].0 == None
    ensures forall op :: op in rows ==>
      (tenant, op.id) in after && after[(tenant, op.id)] == (Persisted(tables.results, op), before[(tenant, op.id)].1)
  {
    forall op | op in rows ensures after[(tenant, op.id)] == (Persisted(tables.results, op), before[(tenant, op.id)].1) {
      FilledMeans(tables, tenant, rows, op, before[(tenant, op.id)], after[(tenant, op.id)]);
    }
  }

  /** A result of the query belongs to an operation of the group. */
  lemma LatestRow(tables: Tables, tenant: string, rows: seq<Op>, r: Id, before: Snapshots)
    requires r in LatestQuery(tables, tenant, CompletedIds(rows))
    requires forall op :: op in rows ==> (tenant, op.id) in before
    ensures r in tables.results && (tenant, tables.results[r].outbox) in before
  {
    assert tables.results[r].outbox in CompletedIds(rows);
    var op :| op in rows && op.id == tables.results[r].outbox;
  }

  lemma NoneFilled(tables: Tables, tenant: string, rows: seq<Op>, before: Snapshots)
    requires forall op :: op in rows ==> (tenant, op.id) in before && before[(tenant, op.id)].0 == None
    ensures AllFilled(tables, tenant, rows, {}, before, before)
  {
  }

  /** The assignment of the loop. */
  method PutResult(tables: Tables, tenant: string, rows: seq<Op>, r: Id, ghost done: set<Id>, ghost before: Snapshots, prior: Snapshots)
    returns (after: Snapshots)
    requires AllFilled(tables, tenant, rows, done, before, prior)
    requires r in tables.results && (tenant, tables.results[r].outbox) in before
    ensures AllFilled(tables, tenant, rows, done + {r}, before, after)
  {
    FillOne(tables, tenant, rows, done, r, before, prior);
    var identity := (tenant, tables.results[r].outbox);
    after := prior[identity := (Some(r), prior[identity].1)];
  }

  method MarkLatest(tables: Tables, tenant: string, rows: seq<Op>, before: Snapshots) returns (after: Snapshots)
    requires RowsOf(tables, tenant, rows)
    requires forall op :: op in rows ==> (tenant, op.id) in before && before[(tenant, op.id)].0 == None
    ensures after.Keys == before.Keys
    ensures forall key :: key in before && key.0 != tenant ==> after[key] == before[key]
    ensures forall op :: op in rows ==> after[(tenant, op.id)] == (Persisted(tables.results, op), before[(tenant, op.id)].1)
  {
    var latest := LatestQuery(tables, tenant, CompletedIds(rows));
    var rest := latest;
    NoneFilled(tables, tenant, rows, before);
    after := before;
    assert latest - rest == {};
    while rest != {}
      invariant rest <= latest
      invariant AllFilled(tables, tenant, rows, latest - rest, before, after)
      decreases rest
    {
      var r :| r in rest;
      LatestRow(tables, tenant, rows, r, before);
      assert latest - (rest - {r}) == (latest - rest) + {r};
      after := PutResult(tables, tenant, rows, r, latest - rest, before, after);
      rest := rest - {r};
    }
    assert latest - rest == latest;
    AllFilledMeans(tables, tenant, rows, before, after);
  }

  function GroupOf(groups: map<string, seq<Op>>, tenant: string): seq<Op> {
    if tenant in groups then groups[tenant] else []
  }

  /** Every operation of the list is in its tenant's group, and starts with nothing found. */
  predicate Grouped(tables: Tables, items: seq<Item>, groups: map<string, seq<Op>>, snapshots: Snapshots) {
    && (forall tenant :: tenant in groups ==> RowsOf(tables, tenant, groups[tenant]))
    && (forall tenant, op :: tenant in groups && op in groups[tenant] ==>
          (tenant, op.id) in snapshots && snapshots[(tenant, op.id)] == (None, false))
    && (forall k :: 0 <= k < |items| && items[k].Outbox? ==> items[k].op in GroupOf(groups, items[k].op.tenant))
  }

  method GroupItems(tables: Tables, items: seq<Item>) returns (groups: map<string, seq<Op>>, snapshots: Snapshots)
    requires Genuine(tables, items)
    ensures Grouped(tables, items, groups, snapshots)
  {
    groups, snapshots := map[], map[];
    for n := 0 to |items|
      invariant Grouped(tables, items[..n], groups, snapshots)
    {
      if items[n].Outbox? {
        var op := items[n].op;
        var more := GroupOf(groups, op.tenant) + [op];
        assert RowsOf(tables, op.tenant, more);
        groups := groups[op.tenant := more];
        snapshots := snapshots[(op.tenant, op.id) := (None, false)];
      }
    }
    assert items[..|items|] == items;
  }

  /**
   The batched reader answers every list of operations as the simple reader
   answers each of them, and never looks for an operation it has no entry for.
   */
  method OperationsJson(reading: Reading, tables: Tables, items: seq<Item>) returns (views: seq<View>)
    requires Genuine(tables, items)
    ensures |views| == |items|
    ensures forall k :: 0 <= k < |items| ==> views[k] == OperationJson(reading, tables, items[k])
  {
    var groups, snapshots := GroupItems(tables, items);
    var rest := groups.Keys;
    while rest != {}
      invariant rest <= groups.Keys
      invariant forall tenant, op :: tenant in groups && op in groups[tenant] ==>
        if tenant in rest then (tenant, op.id) in snapshots && snapshots[(tenant, op.id)] == (None, false)
        else Answered(tables, snapshots, op)
      decreases rest
    {
      var tenant :| tenant in rest;
      var late := MarkLate(tables, tenant, groups[tenant], snapshots);
      snapshots := MarkLatest(tables, tenant, groups[tenant], late);
      rest := rest - {tenant};
    }
    views := [];
    for n := 0 to |items|
      invariant |views| == n && forall k :: 0 <= k < n ==> views[k] == OperationJson(reading, tables, items[k])
    {
      match items[n] {
        case Outbox(op) =>
          assert op in GroupOf(groups, op.tenant) && Answered(tables, snapshots, op);
          var (persisted, late) := snapshots[(op.tenant, op.id)];
          views := views + [Shown(reading, tables.results, op, persisted, late)];
        case Command(_, _, _, _, _, _) =>
          views := views + [CommandJson(items[n])];
      }
    }
  }
}
