/**
 One page of provider dead-letter reconciliation: two queues share a bounded
 batch, each event is classified, and with `apply` the rows are rewritten in
 place. The classification reads other tables that the page never writes, so
 it is a parameter; the dispatch on the kind of event is the program's own.
 */
module DeadLetters {
  import opened Wrappers
  import opened Queue

  datatype State = Waiting | Processing | Retry | Delivered | Skipped | DeadLetter

  datatype Event = Event(
    tenant: string, kind: string, payload: string, state: State, attempts: nat,
    created: int, available: int, updated: int, error: Option<string>)

  datatype Usage = Usage(
    tenant: string, state: State, attempts: nat, created: int, available: int, error: Option<string>)

  datatype Db = Db(events: map<Id, Event>, usages: map<Id, Usage>)

  datatype Decision = Requeue(payload: Option<string>) | Skip | Block

  /** Classifiers for inbound and lifecycle events, and the kinds that count as lifecycle. */
  datatype Rules = Rules(inbound: (Id, Event) -> Decision, lifecycle: (Id, Event) -> Decision, lifecycleKinds: set<string>)

  /** The rows other transactions hold locked while each of the four queries runs. */
  datatype Locks = Locks(events: set<Id>, usages: set<Id>, moreEvents: set<Id>, moreUsages: set<Id>)

  datatype Counters = Counters(examined: nat, requeued: nat, skipped: nat, blocked: nat, usageRequeued: nat)

  datatype Report = Report(
    apply: bool, counters: Counters, dueEvents: nat, dueUsages: nat,
    unreviewed: nat, blockedVisible: nat, remaining: nat, hasMore: bool)

  const MARKER := "operator_reconciliation_required"
  const NOT_APPLICABLE := "middleware_delivery_not_applicable"
  const NO_LOCKS := Locks({}, {}, {}, {})

  // ---------------------------------------------------------------------
  // The queries
  // ---------------------------------------------------------------------

  predicate EventDue(e: Event, tenant: string, now: int) {
    e.state == DeadLetter && e.tenant == tenant && e.available <= now
  }

  predicate UsageDue(u: Usage, tenant: string, now: int) {
    u.state == DeadLetter && u.tenant == tenant && u.available <= now
  }

  predicate Reviewed(e: Event) {
    e.error == Some(MARKER)
  }

  function DueEvents(db: Db, tenant: string, now: int): set<Id> {
    set i | i in db.events && EventDue(db.events[i], tenant, now)
  }

  function DueUsages(db: Db, tenant: string, now: int): set<Id> {
    set i | i in db.usages && UsageDue(db.usages[i], tenant, now)
  }

  function Unreviewed(db: Db, tenant: string, now: int): set<Id> {
    set i | i in db.events && EventDue(db.events[i], tenant, now) && !Reviewed(db.events[i])
  }

  function BlockedVisible(db: Db, tenant: string): set<Id> {
    set i | i in db.events && db.events[i].state == DeadLetter && db.events[i].tenant == tenant && Reviewed(db.events[i])
  }

  function EventKeys(db: Db): map<Id, Key> {
    map i | i in db.events :: Key(if Reviewed(db.events[i]) then 1 else 0, db.events[i].created, i)
  }

  function UsageKeys(db: Db): map<Id, Key> {
    map i | i in db.usages :: Key(0, db.usages[i].created, i)
  }

  // ---------------------------------------------------------------------
  // The batch
  // ---------------------------------------------------------------------

  function Budget(limit: nat, dueEvents: nat, dueUsages: nat, unreviewed: nat): (nat, nat)
    requires 1 <= limit
  {
    if dueEvents > 0 && dueUsages > 0 then
      if limit == 1 then (if unreviewed > 0 then (1, 0) else (0, 1))
      else
        var half := if limit / 2 >= 1 then limit / 2 else 1;
        (half, limit - half)
    else if dueEvents > 0 then (limit, 0)
    else (0, limit)
  }

  /** The rows of `more` not among those already loaded, in order. */
  function Unseen(more: seq<Id>, seen: set<Id>): seq<Id> {
    if more == [] then []
    else (if more[0] in seen then [] else [more[0]]) + Unseen(more[1..], seen)
  }

  datatype Batch = Batch(events: seq<Id>, usages: seq<Id>)

  function LoadEvents(db: Db, tenant: string, now: int, n: nat, locked: set<Id>): seq<Id> {
    First(EventKeys(db), DueEvents(db, tenant, now) - locked, n)
  }

  function LoadUsages(db: Db, tenant: string, now: int, n: nat, locked: set<Id>): seq<Id> {
    First(UsageKeys(db), DueUsages(db, tenant, now) - locked, n)
  }

  /** Backfill of the events with the capacity both queries left over. */
  function MoreEvents(db: Db, tenant: string, now: int, events: seq<Id>, unused: int, locked: set<Id>): seq<Id> {
    var due := DueEvents(db, tenant, now);
    if unused > 0 && |due| > |events| then First(EventKeys(db), due - Elements(events) - locked, unused) else []
  }

  /** Backfill of the usages: a longer prefix, less what was loaded. Rows this transaction holds are not skipped. */
  function MoreUsages(db: Db, tenant: string, now: int, usages: seq<Id>, unused: int, locked: set<Id>): seq<Id> {
    var due := DueUsages(db, tenant, now);
    if unused > 0 && |due| > |usages| then
      Unseen(First(UsageKeys(db), due - (locked - Elements(usages)), |usages| + unused), Elements(usages))
    else []
  }

  /** Backfill of unused capacity, events first, without passing the limit. */
  function Backfilled(db: Db, tenant: string, now: int, limit: nat, locks: Locks, batch: Batch): Batch {
    var unused := limit - |batch.events| - |batch.usages|;
    var events := MoreEvents(db, tenant, now, batch.events, unused, locks.moreEvents);
    Batch(batch.events + events,
          batch.usages + MoreUsages(db, tenant, now, batch.usages, unused - |events|, locks.moreUsages))
  }

  function Shares(db: Db, tenant: string, now: int, limit: nat): (nat, nat)
    requires 1 <= limit
  {
    Budget(limit, |DueEvents(db, tenant, now)|, |DueUsages(db, tenant, now)|, |Unreviewed(db, tenant, now)|)
  }

  function FirstBatch(db: Db, tenant: string, now: int, limit: nat, locks: Locks): Batch
    requires 1 <= limit
  {
    var shares := Shares(db, tenant, now, limit);
    Batch(LoadEvents(db, tenant, now, shares.0, locks.events), LoadUsages(db, tenant, now, shares.1, locks.usages))
  }

  function Plan(db: Db, tenant: string, now: int, limit: nat, locks: Locks): Batch
    requires 1 <= limit
  {
    Backfilled(db, tenant, now, limit, locks, FirstBatch(db, tenant, now, limit, locks))
  }

  // ---------------------------------------------------------------------
  // Classification and its effect
  // ---------------------------------------------------------------------

  function Classify(rules: Rules, i: Id, e: Event): Decision {
    if e.kind == "inbound.received" then rules.inbound(i, e)
    else if e.kind in rules.lifecycleKinds then rules.lifecycle(i, e)
    else Block
  }

  function DecisionFor(db: Db, rules: Rules, i: Id): Decision {
    if i in db.events then Classify(rules, i, db.events[i]) else Block
  }

  function ReviewedEvent(decision: Decision, e: Event, now: int): Event {
    match decision
    case Skip => e.(state := Skipped, error := Some(NOT_APPLICABLE), updated := now)
    case Requeue(payload) =>
      e.(payload := if payload.Some? then payload.value else e.payload, state := Retry, attempts := 0,
         available := now, error := None, updated := now)
    case Block => e.(state := DeadLetter, error := Some(MARKER), updated := now)
  }

  function RequeuedUsage(u: Usage, now: int): Usage {
    u.(state := Retry, attempts := 0, available := now, error := None)
  }

  function Applied(db: Db, rules: Rules, batch: Batch, now: int): Db {
    Db(map i | i in db.events :: if i in batch.events then ReviewedEvent(DecisionFor(db, rules, i), db.events[i], now) else db.events[i],
       map i | i in db.usages :: if i in batch.usages then RequeuedUsage(db.usages[i], now) else db.usages[i])
  }

  function Count(c: Counters, decision: Decision): Counters {
    match decision
    case Requeue(_) => c.(examined := c.examined + 1, requeued := c.requeued + 1)
    case Skip => c.(examined := c.examined + 1, skipped := c.skipped + 1)
    case Block => c.(examined := c.examined + 1, blocked := c.blocked + 1)
  }

  function Tally(db: Db, rules: Rules, events: seq<Id>): Counters {
    if events == [] then Counters(0, 0, 0, 0, 0)
    else Count(Tally(db, rules, events[..|events| - 1]), DecisionFor(db, rules, events[|events| - 1]))
  }

  function Totals(c: Counters, usages: nat): Counters {
    c.(examined := c.examined + usages, usageRequeued := usages)
  }

  function ReportOf(db: Db, tenant: string, now: int, apply: bool, counters: Counters): Report {
    var events, usages := |DueEvents(db, tenant, now)|, |DueUsages(db, tenant, now)|;
    Report(apply, counters, events, usages, |Unreviewed(db, tenant, now)|, |BlockedVisible(db, tenant)|,
           events + usages, events > 0 || usages > 0)
  }

  /** What one call does: the new tables, and the report taken after them. */
  function Page(db: Db, tenant: string, now: int, limit: nat, apply: bool, rules: Rules, locks: Locks): (Db, Report)
    requires 1 <= limit
  {
    var batch := Plan(db, tenant, now, limit, locks);
    var after := if apply then Applied(db, rules, batch, now) else db;
    (after, ReportOf(after, tenant, now, apply, Totals(Tally(db, rules, batch.events), |batch.usages|)))
  }

  /** A loaded page: rows of `due`, each once. */
  predicate Within(rows: seq<Id>, due: set<Id>) {
    Distinct(rows) && Elements(rows) <= due
  }

  predicate Loads(db: Db, tenant: string, now: int, batch: Batch) {
    Within(batch.events, DueEvents(db, tenant, now)) && Within(batch.usages, DueUsages(db, tenant, now))
  }

  lemma {:induction false} UnseenIsSuffix(more: seq<Id>, seen: set<Id>)
    requires Distinct(more)
    ensures Distinct(Unseen(more, seen)) && Elements(Unseen(more, seen)) == Elements(more) - seen
  {
    if more != [] {
      UnseenIsSuffix(more[1..], seen);
      var rest := Unseen(more[1..], seen);
      assert more == [more[0]] + more[1..];
      assert Elements(more) == {more[0]} + Elements(more[1..]);
      assert more[0] !in more[1..];
      assert Elements([more[0]] + rest) == {more[0]} + Elements(rest);
      assert more[0] !in Elements(more[1..]);
      assert more[0] !in rest by { assert more[0] !in Elements(rest); }
    }
  }

  lemma Disjoint(a: seq<Id>, b: seq<Id>)
    requires Distinct(a) && Distinct(b) && Elements(a) !! Elements(b)
    ensures Distinct(a + b) && Elements(a + b) == Elements(a) + Elements(b)
  {
    forall j, k | 0 <= j < k < |a + b| ensures (a + b)[j] != (a + b)[k] {
      if j < |a| <= k {
        assert a[j] in Elements(a) && b[k - |a|] in Elements(b);
      }
    }
  }

  lemma MoreEventsAre(db: Db, tenant: string, now: int, events: seq<Id>, unused: int, locked: set<Id>)
    ensures Within(MoreEvents(db, tenant, now, events, unused, locked), DueEvents(db, tenant, now) - Elements(events))
  {
    if unused > 0 {
      FirstIsFirst(EventKeys(db), DueEvents(db, tenant, now) - Elements(events) - locked, unused);
    }
  }

  lemma MoreUsagesAre(db: Db, tenant: string, now: int, usages: seq<Id>, unused: int, locked: set<Id>)
    ensures Within(MoreUsages(db, tenant, now, usages, unused, locked), DueUsages(db, tenant, now) - Elements(usages))
  {
    if unused > 0 {
      var free := DueUsages(db, tenant, now) - (locked - Elements(usages));
      var expanded := First(UsageKeys(db), free, |usages| + unused);
      assert Within(expanded, free) by { FirstIsFirst(UsageKeys(db), free, |usages| + unused); }
      UnseenIsSuffix(expanded, Elements(usages));
    }
  }

  lemma Together(a: seq<Id>, b: seq<Id>, due: set<Id>)
    requires Within(a, due) && Within(b, due - Elements(a))
    ensures Within(a + b, due)
  {
    Disjoint(a, b);
  }

  lemma FirstBatchLoads(db: Db, tenant: string, now: int, limit: nat, locks: Locks)
    requires 1 <= limit
    ensures var batch := FirstBatch(db, tenant, now, limit, locks);
            Within(batch.events, DueEvents(db, tenant, now)) && Within(batch.usages, DueUsages(db, tenant, now))
  {
    var shares := Shares(db, tenant, now, limit);
    FirstIsFirst(EventKeys(db), DueEvents(db, tenant, now) - locks.events, shares.0);
    FirstIsFirst(UsageKeys(db), DueUsages(db, tenant, now) - locks.usages, shares.1);
  }

  lemma BackfilledLoads(db: Db, tenant: string, now: int, limit: nat, locks: Locks, batch: Batch)
    requires Within(batch.events, DueEvents(db, tenant, now)) && Within(batch.usages, DueUsages(db, tenant, now))
    ensures Loads(db, tenant, now, Backfilled(db, tenant, now, limit, locks, batch))
  {
    var unused := limit - |batch.events| - |batch.usages|;
    var events := MoreEvents(db, tenant, now, batch.events, unused, locks.moreEvents);
    MoreEventsAre(db, tenant, now, batch.events, unused, locks.moreEvents);
    MoreUsagesAre(db, tenant, now, batch.usages, unused - |events|, locks.moreUsages);
    Together(batch.events, events, DueEvents(db, tenant, now));
    Together(batch.usages, MoreUsages(db, tenant, now, batch.usages, unused - |events|, locks.moreUsages), DueUsages(db, tenant, now));
  }

  lemma PlanLoads(db: Db, tenant: string, now: int, limit: nat, locks: Locks)
    requires 1 <= limit
    ensures Loads(db, tenant, now, Plan(db, tenant, now, limit, locks))
  {
    FirstBatchLoads(db, tenant, now, limit, locks);
    BackfilledLoads(db, tenant, now, limit, locks, FirstBatch(db, tenant, now, limit, locks));
  }

  // ---------------------------------------------------------------------
  // The page, with the rows updated in place
  // ---------------------------------------------------------------------

  class Reconciler {
    var events: map<Id, Event>
    var usages: map<Id, Usage>

    ghost function View(): Db
      reads this
    {
      Db(events, usages)
    }

    method Reconcile(tenant: string, now: int, limit: int, apply: bool, rules: Rules, locks: Locks) returns (r: Option<Report>)
      modifies this
      ensures r.Some? <==> 1 <= limit <= 50
      ensures r.None? ==> View() == old(View())
      ensures r.Some? ==> (View(), r.value) == Page(old(View()), tenant, now, limit, apply, rules, locks)
    {
      if !(1 <= limit <= 50) {
        return None;
      }
      var db := Db(events, usages);
      var batch := LoadBatch(tenant, now, limit, locks);
      PlanLoads(db, tenant, now, limit, locks);
      var counters := Perform(batch, tenant, now, apply, rules);
      r := Some(ReportOf(Db(events, usages), tenant, now, apply, counters));
    }

    method Perform(batch: Batch, tenant: string, now: int, apply: bool, rules: Rules) returns (counters: Counters)
      requires Loads(View(), tenant, now, batch)
      modifies this
      ensures counters == Totals(Tally(old(View()), rules, batch.events), |batch.usages|)
      ensures View() == if apply then Applied(old(View()), rules, batch, now) else old(View())
    {
      assert forall i :: i in batch.events ==> i in Elements(batch.events);
      assert forall i :: i in batch.usages ==> i in Elements(batch.usages);
      counters := ReviewEvents(batch.events, now, apply, rules);
      counters := counters.(examined := counters.examined + |batch.usages|, usageRequeued := |batch.usages|);
      if apply {
        RequeueUsages(batch.usages, now);
      }
    }

    method LoadBatch(tenant: string, now: int, limit: nat, locks: Locks) returns (batch: Batch)
      requires 1 <= limit
      ensures batch == Plan(View(), tenant, now, limit, locks)
    {
      var db := Db(events, usages);
      var shares := Shares(db, tenant, now, limit);
      var eventRows := LoadEvents(db, tenant, now, shares.0, locks.events);
      var usageRows := LoadUsages(db, tenant, now, shares.1, locks.usages);
      var unused := limit - |eventRows| - |usageRows|;
      var more := MoreEvents(db, tenant, now, eventRows, unused, locks.moreEvents);
      unused := unused - |more|;
      batch := Batch(eventRows + more, usageRows + MoreUsages(db, tenant, now, usageRows, unused, locks.moreUsages));
    }

    method ReviewEvents(rows: seq<Id>, now: int, apply: bool, rules: Rules) returns (counters: Counters)
      requires Distinct(rows) && forall i :: i in rows ==> i in events
      modifies this`events
      ensures counters == Tally(old(View()), rules, rows)
      ensures events == if apply then Applied(old(View()), rules, Batch(rows, []), now).events else old(events)
    {
      counters := Counters(0, 0, 0, 0, 0);
      for n := 0 to |rows|
        invariant events.Keys == old(events).Keys && (!apply ==> events == old(events))
        invariant counters == Tally(old(View()), rules, rows[..n])
        invariant apply ==> forall i :: i in old(events) ==>
          events[i] == if i in rows[..n] then ReviewedEvent(DecisionFor(old(View()), rules, i), old(events)[i], now) else old(events)[i]
      {
        var i := rows[n];
        var event := events[i];
        assert i in rows && i !in rows[..n];
        assert rows[..n + 1] == rows[..n] + [i];
        assert rows[..n + 1][..n] == rows[..n];
        var decision := if event.kind == "inbound.received" then rules.inbound(i, event)
                        else if event.kind in rules.lifecycleKinds then rules.lifecycle(i, event)
                        else Block;
        counters := Count(counters, decision);
        assert decision == DecisionFor(old(View()), rules, i);
        if apply {
          Rewrite(i, decision, now);
        }
      }
      assert rows[..|rows|] == rows;
    }

    method Rewrite(i: Id, decision: Decision, now: int)
      requires i in events
      modifies this`events
      ensures events == old(events)[i := ReviewedEvent(decision, old(events)[i], now)]
    {
      var event := events[i];
      match decision {
        case Skip =>
          event := event.(state := Skipped, error := Some(NOT_APPLICABLE));
        case Requeue(payload) =>
          if payload.Some? {
            event := event.(payload := payload.value);
          }
          event := event.(state := Retry, attempts := 0, available := now, error := None);
        case Block =>
          event := event.(state := DeadLetter, error := Some(MARKER));
      }
      events := events[i := event.(updated := now)];
    }

    method RequeueUsages(rows: seq<Id>, now: int)
      requires Distinct(rows) && forall i :: i in rows ==> i in usages
      modifies this`usages
      ensures usages == map i | i in old(usages) :: if i in rows then RequeuedUsage(old(usages)[i], now) else old(usages)[i]
    {
      for n := 0 to |rows|
        invariant usages.Keys == old(usages).Keys
        invariant forall i :: i in old(usages) ==>
          usages[i] == if i in rows[..n] then RequeuedUsage(old(usages)[i], now) else old(usages)[i]
      {
        var i := rows[n];
        assert i in rows && i !in rows[..n];
        assert rows[..n + 1] == rows[..n] + [i];
        usages := usages[i := usages[i].(state := Retry, attempts := 0, available := now, error := None)];
      }
      assert rows[..|rows|] == rows;
    }
  }
}
