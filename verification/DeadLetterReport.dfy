/**
 What a reconciliation page means for the operator who reads its report and
 calls again, and for the rows: who is touched, in which order, and how the
 two queues share a page.
 */
module DeadLetterReport {
  import opened Numbers
  import opened Reachability
  import opened Wrappers
  import opened Queue
  import opened DeadLetters
  import opened DeadLetterProgress

  // ---------------------------------------------------------------------
  // The report tells what the next page finds
  // ---------------------------------------------------------------------

  lemma ReviewedAndNot(db: Db, tenant: string, now: int)
    ensures |DueEvents(db, tenant, now)| - |Unreviewed(db, tenant, now)| == |BlockedVisible(db, tenant) * DueEvents(db, tenant, now)|
  {
    var due, unseen, seen := DueEvents(db, tenant, now), Unreviewed(db, tenant, now), BlockedVisible(db, tenant) * DueEvents(db, tenant, now);
    assert due == unseen + seen && unseen !! seen;
  }

  /**
   The report of a page, dry or applied, under any locks: there is more exactly
   when a call at the same time would find a row, it would examine as many rows
   as its limit and `remaining` allow, and what it has to work on is the due
   usage and the events not yet reviewed. An event counted as visibly blocked is
   a reviewed one, due now or later.
   */
  lemma ReportTellsTheNextPage(
      db: Db, tenant: string, now: int, limit: nat, apply: bool, rules: Rules, locks: Locks, next: nat)
    requires 1 <= limit && 1 <= next
    ensures var (after, report) := Page(db, tenant, now, limit, apply, rules, locks);
            var batch := Plan(after, tenant, now, next, NO_LOCKS);
            && (report.hasMore <==> batch.events != [] || batch.usages != [])
            && |batch.events| + |batch.usages| == Min(next, report.remaining)
            && (next >= report.remaining ==> |batch.events| == report.dueEvents && |batch.usages| == report.dueUsages)
            && report.unreviewed + report.dueUsages == Backlog(after, tenant, now)
            && report.dueEvents - report.unreviewed <= report.blockedVisible
            && report.apply == apply
  {
    var (after, report) := Page(db, tenant, now, limit, apply, rules, locks);
    var batch := Plan(after, tenant, now, next, NO_LOCKS);
    FullPage(after, tenant, now, next);
    HeadsFit(EventKeys(after), DueEvents(after, tenant, now), batch.events);
    HeadsFit(UsageKeys(after), DueUsages(after, tenant, now), batch.usages);
    ReviewedAndNot(after, tenant, now);
    SmallerSet(BlockedVisible(after, tenant) * DueEvents(after, tenant, now), BlockedVisible(after, tenant));
  }

  lemma HeadsFit(keys: map<Id, Key>, ids: set<Id>, rows: seq<Id>)
    requires Keyed(keys, ids) && Heads(keys, ids, rows)
    ensures |rows| <= |ids|
  {
    DistinctSize(rows);
    SmallerSet(Elements(rows), ids);
  }

  /** Nothing due, nothing left: an operator who pages while there is more ends with an empty queue of work. */
  lemma NoMoreMeansNothingDue(db: Db, tenant: string, now: int, limit: nat, apply: bool, rules: Rules, locks: Locks)
    requires 1 <= limit
    ensures var (after, report) := Page(db, tenant, now, limit, apply, rules, locks);
            !report.hasMore <==>
              && (forall i :: i in after.events ==> !RawDue(after.events[i], tenant, now))
              && (forall i :: i in after.usages ==> !RawDueUsage(after.usages[i], tenant, now))
  {
    var (after, report) := Page(db, tenant, now, limit, apply, rules, locks);
    if i :| i in after.events && RawDue(after.events[i], tenant, now) {
      assert i in DueEvents(after, tenant, now);
    }
    if i :| i in after.usages && RawDueUsage(after.usages[i], tenant, now) {
      assert i in DueUsages(after, tenant, now);
    }
    if report.hasMore {
      if DueEvents(after, tenant, now) != {} {
        var i :| i in DueEvents(after, tenant, now);
        assert RawDue(after.events[i], tenant, now);
      } else {
        assert DueUsages(after, tenant, now) != {};
        var i :| i in DueUsages(after, tenant, now);
        assert RawDueUsage(after.usages[i], tenant, now);
      }
    }
  }

  // ---------------------------------------------------------------------
  // Which rows are touched, and what becomes of them
  // ---------------------------------------------------------------------

  predicate RawDue(e: Event, tenant: string, now: int) {
    e.state == State.DeadLetter && e.tenant == tenant && e.available <= now
  }

  predicate RawDueUsage(u: Usage, tenant: string, now: int) {
    u.state == State.DeadLetter && u.tenant == tenant && u.available <= now
  }

  /** The verdict of the classifier that the event's kind selects; other kinds are blocked. */
  ghost predicate JudgedBy(rules: Rules, i: Id, e: Event, decision: Decision) {
    && (e.kind == "inbound.received" ==> decision == rules.inbound(i, e))
    && (e.kind != "inbound.received" && e.kind in rules.lifecycleKinds ==> decision == rules.lifecycle(i, e))
    && (e.kind != "inbound.received" && e.kind !in rules.lifecycleKinds ==> decision.Block?)
  }

  /** The row a decision leaves: ready at once with a fresh count, skipped for good, or marked and still a dead letter. */
  predicate LeftBy(decision: Decision, e: Event, after: Event, now: int) {
    && after.tenant == e.tenant && after.kind == e.kind && after.created == e.created && after.updated == now
    && match decision
       case Requeue(payload) =>
         && after.state == Retry && after.attempts == 0 && after.available == now && after.error == None
         && after.payload == (if payload == None then e.payload else payload.value)
       case Skip =>
         after.state == Skipped && after.error == Some("middleware_delivery_not_applicable") && after.payload == e.payload
         && after.attempts == e.attempts && after.available == e.available
       case Block =>
         after.state == DeadLetter && after.error == Some("operator_reconciliation_required") && after.payload == e.payload
         && after.attempts == e.attempts && after.available == e.available
  }

  lemma VerdictIsApplied(rules: Rules, i: Id, e: Event, now: int)
    ensures JudgedBy(rules, i, e, Classify(rules, i, e)) && LeftBy(Classify(rules, i, e), e, ReviewedEvent(Classify(rules, i, e), e, now), now)
  {
  }

  /** Whatever is locked, an applied page touches only due dead letters of the tenant, each as its kind's verdict says. */
  lemma OnlyDueEventsAreTouched(db: Db, tenant: string, now: int, limit: nat, rules: Rules, locks: Locks, i: Id)
    requires 1 <= limit && i in db.events
    ensures var after := Page(db, tenant, now, limit, true, rules, locks).0;
            && after.events.Keys == db.events.Keys
            && (after.events[i] != db.events[i] ==>
                  && RawDue(db.events[i], tenant, now)
                  && exists d :: JudgedBy(rules, i, db.events[i], d) && LeftBy(d, db.events[i], after.events[i], now))
  {
    PlanLoads(db, tenant, now, limit, locks);
    var batch := Plan(db, tenant, now, limit, locks);
    VerdictIsApplied(rules, i, db.events[i], now);
    if i in batch.events {
      assert i in Elements(batch.events);
    }
  }

  lemma OnlyDueUsagesAreTouched(db: Db, tenant: string, now: int, limit: nat, rules: Rules, locks: Locks, i: Id)
    requires 1 <= limit && i in db.usages
    ensures var after := Page(db, tenant, now, limit, true, rules, locks).0;
            && after.usages.Keys == db.usages.Keys
            && (after.usages[i] != db.usages[i] ==>
                  && RawDueUsage(db.usages[i], tenant, now)
                  && after.usages[i] == Usage(tenant, Retry, 0, db.usages[i].created, now, None))
  {
    PlanLoads(db, tenant, now, limit, locks);
    var batch := Plan(db, tenant, now, limit, locks);
    assert i in batch.usages ==> i in Elements(batch.usages);
  }

  lemma VisibleIsDue(db: Db, tenant: string, now: int, limit: nat, apply: bool, rules: Rules, locks: Locks, i: Id)
    requires 1 <= limit
    requires i in db.events && (db.events[i].state == DeadLetter && db.events[i].tenant == tenant ==> db.events[i].available <= now)
    ensures var after := Page(db, tenant, now, limit, apply, rules, locks).0;
            i in BlockedVisible(after, tenant) ==> i in DueEvents(after, tenant, now)
  {
    if apply {
      OnlyDueEventsAreTouched(db, tenant, now, limit, rules, locks, i);
    }
  }

  /** Blocked events are visible to the operator whenever they come due. */
  lemma VisibleAreTheReviewed(db: Db, tenant: string, now: int, limit: nat, apply: bool, rules: Rules, locks: Locks)
    requires 1 <= limit
    requires forall i :: i in db.events && db.events[i].state == DeadLetter && db.events[i].tenant == tenant ==> db.events[i].available <= now
    ensures var report := Page(db, tenant, now, limit, apply, rules, locks).1;
            report.blockedVisible == report.dueEvents - report.unreviewed
  {
    var after := Page(db, tenant, now, limit, apply, rules, locks).0;
    ReviewedAndNot(after, tenant, now);
    forall i | i in BlockedVisible(after, tenant) ensures i in DueEvents(after, tenant, now) {
      VisibleIsDue(db, tenant, now, limit, apply, rules, locks, i);
    }
    assert BlockedVisible(after, tenant) * DueEvents(after, tenant, now) == BlockedVisible(after, tenant);
  }

  // ---------------------------------------------------------------------
  // Order and shares
  // ---------------------------------------------------------------------

  /** Unreviewed before reviewed, then older before newer, then by id. */
  predicate GoesBefore(e: Event, i: Id, f: Event, j: Id) {
    var seen, other := e.error == Some("operator_reconciliation_required"), f.error == Some("operator_reconciliation_required");
    (!seen && other) || (seen == other && (e.created < f.created || (e.created == f.created && i < j)))
  }

  /** Without locks, no due event that a page leaves out is ahead of one it takes. */
  lemma NoOvertaking(db: Db, tenant: string, now: int, limit: nat, i: Id, j: Id)
    requires 1 <= limit
    requires i in db.events && j in db.events && RawDue(db.events[j], tenant, now)
    ensures var batch := Plan(db, tenant, now, limit, NO_LOCKS);
            i in batch.events && j !in batch.events ==> GoesBefore(db.events[i], i, db.events[j], j)
  {
    FullPage(db, tenant, now, limit);
    assert j in DueEvents(db, tenant, now);
  }

  lemma NoOvertakingOfUsage(db: Db, tenant: string, now: int, limit: nat, i: Id, j: Id)
    requires 1 <= limit
    requires i in db.usages && j in db.usages && RawDueUsage(db.usages[j], tenant, now)
    ensures var batch := Plan(db, tenant, now, limit, NO_LOCKS);
            i in batch.usages && j !in batch.usages ==>
              db.usages[i].created < db.usages[j].created || (db.usages[i].created == db.usages[j].created && i < j)
  {
    FullPage(db, tenant, now, limit);
    assert j in DueUsages(db, tenant, now);
  }

  /**
   With both queues due and room for two rows, each queue gets half of the page or
   all it has; with room for one, an unreviewed event goes first and otherwise
   the usage, so blocked events never keep usage waiting.
   */
  lemma QueuesShare(db: Db, tenant: string, now: int, limit: nat)
    requires 1 <= limit && DueEvents(db, tenant, now) != {} && DueUsages(db, tenant, now) != {}
    ensures var batch := Plan(db, tenant, now, limit, NO_LOCKS);
            && |batch.events| >= Min(|DueEvents(db, tenant, now)|, limit / 2)
            && |batch.usages| >= Min(|DueUsages(db, tenant, now)|, limit / 2)
            && (limit == 1 ==> (batch.usages == [] <==> Unreviewed(db, tenant, now) != {}))
  {
    FirstBatchHeads(db, tenant, now, limit);
    FullPage(db, tenant, now, limit);
    BackfilledIs(db, tenant, now, limit, FirstBatch(db, tenant, now, limit, NO_LOCKS));
  }
}
