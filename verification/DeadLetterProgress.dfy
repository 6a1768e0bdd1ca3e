/**
 What a page of dead-letter reconciliation achieves: it fills its bound, an
 applied page always makes progress, and paging ends with nothing but blocked
 events. With other transactions releasing locks between the queries the bound
 itself can be passed; the exact condition is stated.
 */
module DeadLetterProgress {
  import opened Numbers
  import opened Reachability
  import opened Wrappers
  import opened Queue
  import opened DeadLetters

  // ---------------------------------------------------------------------
  // Without locks a page is full
  // ---------------------------------------------------------------------

  /** Rows with the same elements as a page are that page, whatever their order. */
  lemma Reordered(keys: map<Id, Key>, ids: set<Id>, n: nat, p: seq<Id>, q: seq<Id>)
    requires Keyed(keys, ids) && IsFirst(keys, ids, n, p) && Distinct(q) && Elements(p) == Elements(q)
    ensures IsFirst(keys, ids, |q|, q)
  {
    DistinctSize(p);
    DistinctSize(q);
    assert forall x :: x in q <==> x in Elements(p);
    assert forall x :: x in p <==> x in Elements(p);
  }

  predicate Heads(keys: map<Id, Key>, ids: set<Id>, rows: seq<Id>)
    requires Keyed(keys, ids)
  {
    IsFirst(keys, ids, |rows|, rows)
  }

  lemma FirstHeads(keys: map<Id, Key>, ids: set<Id>, n: nat)
    requires Keyed(keys, ids)
    ensures var rows := First(keys, ids, n); |rows| == Min(n, |ids|) && Heads(keys, ids, rows)
  {
    FirstIsFirst(keys, ids, n);
  }

  lemma HeadsThenRest(keys: map<Id, Key>, ids: set<Id>, p: seq<Id>, n: nat)
    requires Keyed(keys, ids) && Heads(keys, ids, p)
    ensures var more := First(keys, ids - Elements(p), n);
            |p + more| == Min(|p| + n, |ids|) && Heads(keys, ids, p + more)
  {
    FirstIsFirst(keys, ids - Elements(p), n);
    NextPage(keys, ids, |p|, n, p, First(keys, ids - Elements(p), n));
  }

  lemma HeadsThenUnseen(keys: map<Id, Key>, ids: set<Id>, p: seq<Id>, n: nat)
    requires Keyed(keys, ids) && Heads(keys, ids, p)
    ensures var more := Unseen(First(keys, ids, |p| + n), Elements(p));
            |p + more| == Min(|p| + n, |ids|) && Heads(keys, ids, p + more)
  {
    FirstIsFirst(keys, ids, |p| + n);
    UnseenCompletes(keys, ids, p, |p| + n, First(keys, ids, |p| + n));
  }

  lemma UnseenCompletes(keys: map<Id, Key>, ids: set<Id>, p: seq<Id>, n: nat, longer: seq<Id>)
    requires Keyed(keys, ids) && Heads(keys, ids, p) && |p| <= n && IsFirst(keys, ids, n, longer)
    ensures var page := p + Unseen(longer, Elements(p)); |page| == Min(n, |ids|) && Heads(keys, ids, page)
  {
    var more := Unseen(longer, Elements(p));
    UnseenIsSuffix(longer, Elements(p));
    assert Distinct(p + more) && Elements(p + more) == Elements(longer) by {
      PagesNest(keys, ids, |p|, n, p, longer);
      Disjoint(p, more);
    }
    DistinctSize(longer);
    DistinctSize(p + more);
    Reordered(keys, ids, n, longer, p + more);
  }

  lemma EventsPage(db: Db, tenant: string, now: int, events: seq<Id>, unused: nat)
    requires Heads(EventKeys(db), DueEvents(db, tenant, now), events)
    ensures var due := DueEvents(db, tenant, now);
            var page := events + MoreEvents(db, tenant, now, events, unused, {});
            |page| == Min(|events| + unused, |due|) && Heads(EventKeys(db), due, page)
  {
    var keys, due := EventKeys(db), DueEvents(db, tenant, now);
    if unused > 0 && |due| > |events| {
      assert due - Elements(events) - {} == due - Elements(events);
      HeadsThenRest(keys, due, events, unused);
    } else {
      assert events + [] == events;
    }
  }

  lemma UsagesPage(db: Db, tenant: string, now: int, usages: seq<Id>, unused: nat)
    requires Heads(UsageKeys(db), DueUsages(db, tenant, now), usages)
    ensures var due := DueUsages(db, tenant, now);
            var page := usages + MoreUsages(db, tenant, now, usages, unused, {});
            |page| == Min(|usages| + unused, |due|) && Heads(UsageKeys(db), due, page)
  {
    var keys, due := UsageKeys(db), DueUsages(db, tenant, now);
    if unused > 0 && |due| > |usages| {
      assert due - ({} - Elements(usages)) == due;
      HeadsThenUnseen(keys, due, usages, unused);
    } else {
      assert usages + [] == usages;
    }
  }

  lemma FirstBatchHeads(db: Db, tenant: string, now: int, limit: nat)
    requires 1 <= limit
    ensures var batch, shares := FirstBatch(db, tenant, now, limit, NO_LOCKS), Shares(db, tenant, now, limit);
            var events, usages := DueEvents(db, tenant, now), DueUsages(db, tenant, now);
            && |batch.events| == Min(shares.0, |events|) && Heads(EventKeys(db), events, batch.events)
            && |batch.usages| == Min(shares.1, |usages|) && Heads(UsageKeys(db), usages, batch.usages)
  {
    var shares := Shares(db, tenant, now, limit);
    assert DueEvents(db, tenant, now) - {} == DueEvents(db, tenant, now);
    assert DueUsages(db, tenant, now) - {} == DueUsages(db, tenant, now);
    FirstHeads(EventKeys(db), DueEvents(db, tenant, now), shares.0);
    FirstHeads(UsageKeys(db), DueUsages(db, tenant, now), shares.1);
  }

  lemma BackfilledHeads(db: Db, tenant: string, now: int, limit: nat, batch: Batch)
    requires |batch.events| + |batch.usages| <= limit
    requires Heads(EventKeys(db), DueEvents(db, tenant, now), batch.events)
    requires Heads(UsageKeys(db), DueUsages(db, tenant, now), batch.usages)
    ensures var page := Backfilled(db, tenant, now, limit, NO_LOCKS, batch);
            var events, usages := DueEvents(db, tenant, now), DueUsages(db, tenant, now);
            && |page.events| + |page.usages| == Min(limit, |events| + |usages|)
            && Heads(EventKeys(db), events, page.events) && Heads(UsageKeys(db), usages, page.usages)
  {
    var page := Backfilled(db, tenant, now, limit, NO_LOCKS, batch);
    BackfilledIs(db, tenant, now, limit, batch);
    EventsPage(db, tenant, now, batch.events, limit - |batch.events| - |batch.usages|);
    Filled(limit, |batch.events|, |batch.usages|, |DueEvents(db, tenant, now)|, |DueUsages(db, tenant, now)|);
    UsagesPage(db, tenant, now, batch.usages, limit - |page.events| - |batch.usages|);
  }

  lemma BackfilledIs(db: Db, tenant: string, now: int, limit: nat, batch: Batch)
    ensures var page := Backfilled(db, tenant, now, limit, NO_LOCKS, batch);
            && page.events == batch.events + MoreEvents(db, tenant, now, batch.events, limit - |batch.events| - |batch.usages|, {})
            && page.usages == batch.usages + MoreUsages(db, tenant, now, batch.usages, limit - |page.events| - |batch.usages|, {})
  {
    var unused := limit - |batch.events| - |batch.usages|;
    var more := MoreEvents(db, tenant, now, batch.events, unused, {});
    assert unused - |more| == limit - |batch.events + more| - |batch.usages|;
  }

  lemma Filled(limit: nat, e: nat, u: nat, dueEvents: nat, dueUsages: nat)
    requires e + u <= limit && e <= dueEvents && u <= dueUsages
    ensures var events := Min(e + (limit - e - u), dueEvents);
            events >= e && limit - u >= events && events + Min(u + (limit - u - events), dueUsages) == Min(limit, dueEvents + dueUsages)
  {
  }

  /**
   Without concurrent locks a page examines exactly as many rows as the limit and
   the queues allow, and takes the head of each queue.
   */
  lemma FullPage(db: Db, tenant: string, now: int, limit: nat)
    requires 1 <= limit
    ensures var batch := Plan(db, tenant, now, limit, NO_LOCKS);
            var events, usages := DueEvents(db, tenant, now), DueUsages(db, tenant, now);
            && |batch.events| + |batch.usages| == Min(limit, |events| + |usages|)
            && Heads(EventKeys(db), events, batch.events) && Heads(UsageKeys(db), usages, batch.usages)
  {
    FirstBatchHeads(db, tenant, now, limit);
    BackfilledHeads(db, tenant, now, limit, FirstBatch(db, tenant, now, limit, NO_LOCKS));
  }

  // ---------------------------------------------------------------------
  // An applied page makes progress
  // ---------------------------------------------------------------------

  /** What is still to be looked at: unreviewed due events and due usage. */
  function Backlog(db: Db, tenant: string, now: int): nat {
    |Unreviewed(db, tenant, now)| + |DueUsages(db, tenant, now)|
  }

  /** Exactly the loaded rows leave the backlog, and the due events that stay are the reviewed ones. */
  lemma AppliedBacklog(db: Db, tenant: string, now: int, rules: Rules, batch: Batch, at: int)
    requires Loads(db, tenant, now, batch)
    ensures var after := Applied(db, rules, batch, now);
            && Unreviewed(after, tenant, at) == Unreviewed(db, tenant, at) - Elements(batch.events)
            && DueUsages(after, tenant, at) == DueUsages(db, tenant, at) - Elements(batch.usages)
            && DueEvents(after, tenant, at) <= DueEvents(db, tenant, at)
  {
    assert forall i :: i in batch.events <==> i in Elements(batch.events);
    assert forall i :: i in batch.usages <==> i in Elements(batch.usages);
  }

  /** With work to do, the page holds an unreviewed event or a usage row. */
  lemma PageHoldsWork(db: Db, tenant: string, now: int, limit: nat)
    requires 1 <= limit && Backlog(db, tenant, now) > 0
    ensures var batch := Plan(db, tenant, now, limit, NO_LOCKS);
            Unreviewed(db, tenant, now) * Elements(batch.events) != {} || batch.usages != []
  {
    FullPage(db, tenant, now, limit);
    var batch := Plan(db, tenant, now, limit, NO_LOCKS);
    var first := FirstBatch(db, tenant, now, limit, NO_LOCKS);
    assert DueEvents(db, tenant, now) - {} == DueEvents(db, tenant, now);
    assert DueUsages(db, tenant, now) - {} == DueUsages(db, tenant, now);
    if DueUsages(db, tenant, now) != {} && Shares(db, tenant, now, limit).1 > 0 {
      FirstHeads(UsageKeys(db), DueUsages(db, tenant, now), Shares(db, tenant, now, limit).1);
      assert first.usages != [];
    } else {
      var e :| e in Unreviewed(db, tenant, now);
      assert e in DueEvents(db, tenant, now);
      var n := Shares(db, tenant, now, limit).0;
      FirstHeads(EventKeys(db), DueEvents(db, tenant, now), n);
      var head := first.events[0];
      assert head in Elements(first.events) && batch.events[0] == head;
      assert head in batch.events;
      assert head == e || Before(EventKeys(db)[head], EventKeys(db)[e]);
      assert head in Unreviewed(db, tenant, now);
    }
  }

  lemma AppliedPageProgress(db: Db, tenant: string, now: int, limit: nat, rules: Rules, at: int)
    requires 1 <= limit && now <= at
    ensures var after := Applied(db, rules, Plan(db, tenant, now, limit, NO_LOCKS), now);
            && Backlog(after, tenant, at) <= Backlog(db, tenant, at)
            && (Backlog(db, tenant, now) > 0 ==> Backlog(after, tenant, at) < Backlog(db, tenant, at))
  {
    var batch := Plan(db, tenant, now, limit, NO_LOCKS);
    PlanLoads(db, tenant, now, limit, NO_LOCKS);
    AppliedBacklog(db, tenant, now, rules, batch, at);
    var events, usages := Unreviewed(db, tenant, at), DueUsages(db, tenant, at);
    SmallerSet(events - Elements(batch.events), events);
    SmallerSet(usages - Elements(batch.usages), usages);
    if Backlog(db, tenant, now) > 0 {
      PageHoldsWork(db, tenant, now, limit);
      if batch.usages != [] {
        assert batch.usages[0] in Elements(batch.usages) && batch.usages[0] in usages;
      } else {
        var e :| e in Unreviewed(db, tenant, now) * Elements(batch.events);
        assert e in events;
      }
    }
  }

  // ---------------------------------------------------------------------
  // Repeated pages
  // ---------------------------------------------------------------------

  ghost function Iterate<S(!new), C(!new)>(step: (S, C) -> S, s: S, run: seq<C>): S {
    if run == [] then s else Iterate(step, step(s, run[0]), run[1..])
  }

  /** How many steps of the run found something to do. */
  ghost function Productive<S(!new), C(!new)>(step: (S, C) -> S, works: (S, C) -> bool, s: S, run: seq<C>): nat {
    if run == [] then 0 else (if works(s, run[0]) then 1 else 0) + Productive(step, works, step(s, run[0]), run[1..])
  }

  lemma {:induction false} WorkIsPaidFor<S(!new), C(!new)>(step: (S, C) -> S, works: (S, C) -> bool, backlog: S -> nat, s: S, run: seq<C>)
    requires forall u, c :: c in run ==> backlog(step(u, c)) + (if works(u, c) then 1 else 0) <= backlog(u)
    ensures Productive(step, works, s, run) + backlog(Iterate(step, s, run)) <= backlog(s)
    decreases run
  {
    if run != [] {
      assert run[0] in run && forall c :: c in run[1..] ==> c in run;
      WorkIsPaidFor(step, works, backlog, step(s, run[0]), run[1..]);
    }
  }

  lemma {:induction false} NeverGrows<S(!new), C(!new)>(step: (S, C) -> S, backlog: S -> nat, s: S, run: seq<C>)
    requires forall u, c :: c in run ==> backlog(step(u, c)) <= backlog(u)
    ensures backlog(Iterate(step, s, run)) <= backlog(s)
    decreases run
  {
    if run != [] {
      assert run[0] in run && forall c :: c in run[1..] ==> c in run;
      NeverGrows(step, backlog, step(s, run[0]), run[1..]);
    }
  }

  lemma {:induction false} EveryStepProductive<S(!new), C(!new)>(step: (S, C) -> S, works: (S, C) -> bool, backlog: S -> nat, s: S, run: seq<C>)
    requires forall u, c :: c in run ==> backlog(step(u, c)) <= backlog(u)
    requires forall u, c :: c in run && backlog(u) > 0 ==> works(u, c)
    ensures backlog(Iterate(step, s, run)) > 0 ==> Productive(step, works, s, run) == |run|
    decreases run
  {
    if run != [] {
      assert run[0] in run && forall c :: c in run[1..] ==> c in run;
      EveryStepProductive(step, works, backlog, step(s, run[0]), run[1..]);
      NeverGrows(step, backlog, s, run);
    }
  }

  datatype Call = Call(limit: int, now: int, rules: Rules)

  predicate InRange(c: Call) {
    1 <= c.limit <= 50
  }

  /** An applied page; a limit out of range is an error and changes nothing. */
  function Paged(tenant: string): (Db, Call) -> Db {
    (db: Db, c: Call) =>
      if InRange(c) then Applied(db, c.rules, Plan(db, tenant, c.now, c.limit, NO_LOCKS), c.now) else db
  }

  function HasWork(tenant: string): (Db, Call) -> bool {
    (db: Db, c: Call) => InRange(c) && Backlog(db, tenant, c.now) > 0
  }

  function BacklogAt(tenant: string, at: int): Db -> nat {
    (db: Db) => Backlog(db, tenant, at)
  }

  lemma PagedProgress(db: Db, c: Call, tenant: string, horizon: int)
    requires c.now <= horizon
    ensures BacklogAt(tenant, horizon)(Paged(tenant)(db, c)) + (if HasWork(tenant)(db, c) then 1 else 0) <= BacklogAt(tenant, horizon)(db)
  {
    if InRange(c) {
      AppliedPageProgress(db, tenant, c.now, c.limit, c.rules, horizon);
    }
  }

  /**
   Over any run of applied pages, with any limits and clocks, the pages that find
   work are paid for by the backlog, however many blocked events there are.
   */
  lemma WorkIsBounded(db: Db, tenant: string, run: seq<Call>, horizon: int)
    requires forall c :: c in run ==> c.now <= horizon
    ensures Productive(Paged(tenant), HasWork(tenant), db, run) + Backlog(Iterate(Paged(tenant), db, run), tenant, horizon)
         <= Backlog(db, tenant, horizon)
  {
    forall u: Db, c | c in run
      ensures BacklogAt(tenant, horizon)(Paged(tenant)(u, c)) + (if HasWork(tenant)(u, c) then 1 else 0) <= BacklogAt(tenant, horizon)(u)
    {
      PagedProgress(u, c, tenant, horizon);
    }
    WorkIsPaidFor(Paged(tenant), HasWork(tenant), BacklogAt(tenant, horizon), db, run);
  }

  /** A later clock finds no less to do. */
  lemma BacklogGrowsWithTheClock(db: Db, tenant: string, at: int, later: int)
    requires at <= later
    ensures Backlog(db, tenant, at) <= Backlog(db, tenant, later)
  {
    SmallerSet(Unreviewed(db, tenant, at), Unreviewed(db, tenant, later));
    SmallerSet(DueUsages(db, tenant, at), DueUsages(db, tenant, later));
  }

  /** Seen by any one clock, no page adds to the backlog. */
  lemma PagedNeverAdds(db: Db, c: Call, tenant: string, at: int)
    ensures BacklogAt(tenant, at)(Paged(tenant)(db, c)) <= BacklogAt(tenant, at)(db)
  {
    if InRange(c) {
      var batch := Plan(db, tenant, c.now, c.limit, NO_LOCKS);
      PlanLoads(db, tenant, c.now, c.limit, NO_LOCKS);
      AppliedBacklog(db, tenant, c.now, c.rules, batch, at);
      SmallerSet(Unreviewed(db, tenant, at) - Elements(batch.events), Unreviewed(db, tenant, at));
      SmallerSet(DueUsages(db, tenant, at) - Elements(batch.usages), DueUsages(db, tenant, at));
    }
  }

  /**
   Enough pages, each with its own clock, leave only blocked events due: at any
   time `at` no later than their clocks, after as many pages as the backlog of a
   time no earlier than them.
   */
  lemma PagingEndsWithBlockedEvents(db: Db, tenant: string, run: seq<Call>, at: int, horizon: int)
    requires at <= horizon && forall c :: c in run ==> InRange(c) && at <= c.now <= horizon
    requires Backlog(db, tenant, horizon) <= |run|
    ensures var after := Iterate(Paged(tenant), db, run);
            && DueUsages(after, tenant, at) == {}
            && forall i :: i in DueEvents(after, tenant, at) ==> Reviewed(after.events[i])
  {
    forall u: Db, c | c in run
      ensures BacklogAt(tenant, at)(Paged(tenant)(u, c)) <= BacklogAt(tenant, at)(u)
      ensures BacklogAt(tenant, at)(u) > 0 ==> HasWork(tenant)(u, c)
    {
      PagedNeverAdds(u, c, tenant, at);
      BacklogGrowsWithTheClock(u, tenant, at, c.now);
    }
    var after := Iterate(Paged(tenant), db, run);
    EveryStepProductive(Paged(tenant), HasWork(tenant), BacklogAt(tenant, at), db, run);
    WorkIsBounded(db, tenant, run, horizon);
    BacklogGrowsWithTheClock(after, tenant, at, horizon);
    EmptyBacklog(after, tenant, at);
  }

  lemma EmptyBacklog(db: Db, tenant: string, at: int)
    requires Backlog(db, tenant, at) == 0
    ensures DueUsages(db, tenant, at) == {} && forall i :: i in DueEvents(db, tenant, at) ==> Reviewed(db.events[i])
  {
    assert Unreviewed(db, tenant, at) == {};
    assert forall i :: i in DueEvents(db, tenant, at) ==> Reviewed(db.events[i]) || i in Unreviewed(db, tenant, at);
  }

  // ---------------------------------------------------------------------
  // The dry run tells what apply will do
  // ---------------------------------------------------------------------

  datatype Fate = Requeued | Dropped | KeptBlocked

  function FateOf(db: Db, rules: Rules, i: Id): Fate {
    match DecisionFor(db, rules, i)
    case Requeue(_) => Requeued
    case Skip => Dropped
    case Block => KeptBlocked
  }

  function Those(db: Db, rules: Rules, rows: seq<Id>, fate: Fate): set<Id> {
    set i | i in rows && FateOf(db, rules, i) == fate
  }

  lemma OneMore(db: Db, rules: Rules, rest: seq<Id>, last: Id, fate: Fate)
    requires last !in rest
    ensures |Those(db, rules, rest + [last], fate)| == |Those(db, rules, rest, fate)| + (if FateOf(db, rules, last) == fate then 1 else 0)
  {
    if FateOf(db, rules, last) == fate {
      assert Those(db, rules, rest + [last], fate) == Those(db, rules, rest, fate) + {last};
    } else {
      assert Those(db, rules, rest + [last], fate) == Those(db, rules, rest, fate);
    }
  }

  lemma {:induction false} TallyCounts(db: Db, rules: Rules, rows: seq<Id>)
    requires Distinct(rows)
    ensures Tally(db, rules, rows) ==
      Counters(|rows|, |Those(db, rules, rows, Requeued)|, |Those(db, rules, rows, Dropped)|, |Those(db, rules, rows, KeptBlocked)|, 0)
  {
    if rows == [] {
      assert forall fate :: Those(db, rules, rows, fate) == {};
    } else {
      var last, rest := rows[|rows| - 1], rows[..|rows| - 1];
      TallyCounts(db, rules, rest);
      assert rows == rest + [last] && last !in rest;
      OneMore(db, rules, rest, last, Requeued);
      OneMore(db, rules, rest, last, Dropped);
      OneMore(db, rules, rest, last, KeptBlocked);
    }
  }

  lemma {:induction false} EveryRowHasAFate(db: Db, rules: Rules, rows: seq<Id>)
    ensures var n := Tally(db, rules, rows); n.examined == |rows| && n.examined == n.requeued + n.skipped + n.blocked
  {
    if rows != [] {
      EveryRowHasAFate(db, rules, rows[..|rows| - 1]);
    }
  }

  /** The events that move from DEAD_LETTER to the given state. */
  function Moved(db: Db, after: Db, state: State): set<Id> {
    set i | i in db.events && i in after.events && db.events[i].state == DeadLetter && after.events[i].state == state
  }

  function MovedUsages(db: Db, after: Db): set<Id> {
    set i | i in db.usages && i in after.usages && db.usages[i].state == DeadLetter && after.usages[i].state == Retry
  }

  /**
   A dry run changes nothing and reports the very numbers of rows that apply
   then moves: to RETRY, to SKIPPED, and usage rows to RETRY; the rest of what
   it examined stays DEAD_LETTER.
   */
  lemma DryRunPredictsApply(db: Db, tenant: string, now: int, limit: nat, rules: Rules, locks: Locks)
    requires 1 <= limit
    ensures var (same, plan) := Page(db, tenant, now, limit, false, rules, locks);
            var (after, done) := Page(db, tenant, now, limit, true, rules, locks);
            var n := plan.counters;
            && same == db && done.counters == n
            && n.requeued == |Moved(db, after, Retry)| && n.skipped == |Moved(db, after, Skipped)|
            && n.usageRequeued == |MovedUsages(db, after)|
            && n.examined == n.requeued + n.skipped + n.blocked + n.usageRequeued
  {
    PlanLoads(db, tenant, now, limit, locks);
    BatchCounts(db, tenant, now, rules, Plan(db, tenant, now, limit, locks));
  }

  lemma BatchCounts(db: Db, tenant: string, now: int, rules: Rules, batch: Batch)
    requires Loads(db, tenant, now, batch)
    ensures var n, after := Totals(Tally(db, rules, batch.events), |batch.usages|), Applied(db, rules, batch, now);
            && n.requeued == |Moved(db, after, Retry)| && n.skipped == |Moved(db, after, Skipped)|
            && n.usageRequeued == |MovedUsages(db, after)|
            && n.examined == n.requeued + n.skipped + n.blocked + n.usageRequeued
  {
    MovedByApply(db, tenant, now, rules, batch);
    TallyCounts(db, rules, batch.events);
    EveryRowHasAFate(db, rules, batch.events);
    DistinctSize(batch.usages);
  }

  lemma MovedByApply(db: Db, tenant: string, now: int, rules: Rules, batch: Batch)
    requires Loads(db, tenant, now, batch)
    ensures var after := Applied(db, rules, batch, now);
            && Moved(db, after, Retry) == Those(db, rules, batch.events, Requeued)
            && Moved(db, after, Skipped) == Those(db, rules, batch.events, Dropped)
            && MovedUsages(db, after) == Elements(batch.usages)
  {
    assert forall i :: i in batch.events ==> i in Elements(batch.events);
    assert forall i :: i in batch.usages ==> i in Elements(batch.usages);
  }

  // ---------------------------------------------------------------------
  // The bound, when locks are released between the queries
  // ---------------------------------------------------------------------

  predicate Last(keys: map<Id, Key>, rows: seq<Id>, last: Id) {
    last in rows && forall s :: s in rows && s != last ==> s in keys && last in keys && Before(keys[s], keys[last])
  }

  lemma {:induction false} LastExists(keys: map<Id, Key>, rows: seq<Id>) returns (last: Id)
    requires rows != [] && Keyed(keys, Elements(rows))
    ensures Last(keys, rows, last)
  {
    last := rows[0];
    assert last in Elements(rows);
    if |rows| > 1 {
      assert forall x :: x in rows[1..] ==> x in Elements(rows);
      assert rows == [rows[0]] + rows[1..];
      var z: Id := LastExists(keys, rows[1..]);
      assert z in Elements(rows);
      last := if Before(keys[last], keys[z]) then z else last;
    }
  }

  /** Rows of `ids` not loaded yet, ahead of some row loaded. */
  function Ahead(keys: map<Id, Key>, ids: set<Id>, rows: seq<Id>): set<Id>
    requires Keyed(keys, ids) && Elements(rows) <= ids
  {
    set y | y in ids && y !in rows && exists s :: s in Elements(rows) && Before(keys[y], keys[s])
  }

  lemma EarlierSplits(keys: map<Id, Key>, ids: set<Id>, p: seq<Id>, last: Id)
    requires Keyed(keys, ids) && Distinct(p) && Elements(p) <= ids && Last(keys, p, last) && last in ids
    ensures |Earlier(keys, ids, last)| == |p| - 1 + |Ahead(keys, ids, p)|
  {
    DistinctSize(p);
    assert last in Elements(p);
    forall y | y in ids
      ensures y in Earlier(keys, ids, last) <==> y in Elements(p) - {last} || y in Ahead(keys, ids, p)
    {
      if s :| s in Elements(p) && Before(keys[y], keys[s]) {
        assert Before(keys[y], keys[last]);
      }
    }
    assert Earlier(keys, ids, last) == (Elements(p) - {last}) + Ahead(keys, ids, p);
  }

  lemma Rest(a: set<Id>, b: set<Id>)
    ensures |a - b| == |a| - |a * b|
  {
    assert a == a * b + (a - b);
  }

  /** A page without the last of `p` is a full one. */
  lemma LastLeftOut(keys: map<Id, Key>, ids: set<Id>, n: nat, rows: seq<Id>, last: Id)
    requires Keyed(keys, ids) && IsFirst(keys, ids, n, rows) && last in ids && last !in rows
    ensures |rows| == n
  {
    DistinctSize(rows);
    assert last !in Elements(rows);
    SmallerSet(Elements(rows), ids);
  }

  /** A page with the last of `p` holds all of `p`. */
  lemma LastLetIn(keys: map<Id, Key>, ids: set<Id>, n: nat, rows: seq<Id>, p: seq<Id>, last: Id)
    requires Keyed(keys, ids) && IsFirst(keys, ids, n, rows) && Elements(p) <= ids && Last(keys, p, last) && last in rows
    ensures Elements(p) <= Elements(rows)
  {
    assert last in Elements(rows);
    forall s | s in Elements(p) ensures s in Elements(rows) {
      assert s == last || !Before(keys[last], keys[s]);
    }
  }

  /** The rest of a longer prefix fits the capacity left exactly when the rows that came in ahead do. */
  lemma UnseenFits(keys: map<Id, Key>, ids: set<Id>, p: seq<Id>, n: nat, longer: seq<Id>)
    requires Keyed(keys, ids) && Distinct(p) && Elements(p) <= ids && p != []
    requires IsFirst(keys, ids, |p| + n, longer)
    ensures |Unseen(longer, Elements(p))| <= n <==> |Ahead(keys, ids, p)| <= n
  {
    var last: Id := LastExists(keys, p);
    assert last in Elements(p);
    OnThePage(keys, ids, |p| + n, longer, last);
    EarlierSplits(keys, ids, p, last);
    UnseenSize(longer, p);
    if last in longer {
      LastLetIn(keys, ids, |p| + n, longer, p, last);
      assert Elements(longer) * Elements(p) == Elements(p);
    } else {
      LastLeftOut(keys, ids, |p| + n, longer, last);
      SmallerSet(Elements(longer) * Elements(p), Elements(p) - {last});
    }
  }

  lemma UnseenSize(longer: seq<Id>, p: seq<Id>)
    requires Distinct(longer) && Distinct(p)
    ensures |Unseen(longer, Elements(p))| == |longer| - |Elements(longer) * Elements(p)| && |Elements(p)| == |p|
  {
    UnseenIsSuffix(longer, Elements(p));
    DistinctSize(p);
    DistinctSize(longer);
    DistinctSize(Unseen(longer, Elements(p)));
    Rest(Elements(longer), Elements(p));
  }

  /** Due usage rows no one holds at the backfill, not loaded, ahead of a row the first query loaded. */
  function Overtaking(db: Db, tenant: string, now: int, usages: seq<Id>, locked: set<Id>): set<Id>
    requires Within(usages, DueUsages(db, tenant, now))
  {
    Ahead(UsageKeys(db), DueUsages(db, tenant, now) - (locked - Elements(usages)), usages)
  }

  /** They were locked during the first query and released before the second. */
  lemma OvertakingWasReleased(db: Db, tenant: string, now: int, n: nat, locks: Locks)
    ensures var usages := LoadUsages(db, tenant, now, n, locks.usages);
            && Within(usages, DueUsages(db, tenant, now))
            && Overtaking(db, tenant, now, usages, locks.moreUsages) <= locks.usages - locks.moreUsages
  {
    var keys, free := UsageKeys(db), DueUsages(db, tenant, now) - locks.usages;
    var usages := First(keys, free, n);
    FirstIsFirst(keys, free, n);
    forall y | y in Overtaking(db, tenant, now, usages, locks.moreUsages) ensures y in locks.usages {
      var s :| s in Elements(usages) && Before(keys[y], keys[s]);
      assert !Before(keys[s], keys[y]);
    }
  }

  lemma AllLoaded(db: Db, tenant: string, now: int, usages: seq<Id>, locked: set<Id>)
    requires Within(usages, DueUsages(db, tenant, now)) && (usages == [] || |DueUsages(db, tenant, now)| <= |usages|)
    ensures Overtaking(db, tenant, now, usages, locked) == {}
  {
    var due := DueUsages(db, tenant, now);
    if usages != [] {
      DistinctSize(usages);
      SmallerSet(Elements(usages), due);
      assert forall y :: y in due ==> y in Elements(usages);
    }
  }

  lemma ExpandedFits(db: Db, tenant: string, now: int, usages: seq<Id>, unused: nat, locked: set<Id>)
    requires Within(usages, DueUsages(db, tenant, now)) && usages != []
    ensures var free := DueUsages(db, tenant, now) - (locked - Elements(usages));
            (|Unseen(First(UsageKeys(db), free, |usages| + unused), Elements(usages))| <= unused
             <==> |Overtaking(db, tenant, now, usages, locked)| <= unused)
  {
    var keys, free := UsageKeys(db), DueUsages(db, tenant, now) - (locked - Elements(usages));
    FirstIsFirst(keys, free, |usages| + unused);
    UnseenFits(keys, free, usages, unused, First(keys, free, |usages| + unused));
  }

  lemma {:induction false} UnseenShrinks(more: seq<Id>, seen: set<Id>)
    ensures |Unseen(more, seen)| <= |more|
  {
    if more != [] { UnseenShrinks(more[1..], seen); }
  }

  lemma {:induction false} FirstShrinks(keys: map<Id, Key>, ids: set<Id>, n: nat)
    requires Keyed(keys, ids)
    ensures |First(keys, ids, n)| <= n
    decreases n
  {
    if n != 0 && ids != {} { FirstShrinks(keys, ids - {Least(keys, ids)}, n - 1); }
  }

  lemma ExpandedFromNone(db: Db, tenant: string, now: int, unused: nat, locked: set<Id>)
    ensures |MoreUsages(db, tenant, now, [], unused, locked)| <= unused
  {
    var free := DueUsages(db, tenant, now) - (locked - Elements([]));
    FirstShrinks(UsageKeys(db), free, unused);
    UnseenShrinks(First(UsageKeys(db), free, unused), Elements([]));
  }

  lemma MoreUsagesFit(db: Db, tenant: string, now: int, usages: seq<Id>, unused: nat, locked: set<Id>)
    requires Within(usages, DueUsages(db, tenant, now)) && 0 < unused
    ensures |MoreUsages(db, tenant, now, usages, unused, locked)| <= unused
       <==> |Overtaking(db, tenant, now, usages, locked)| <= unused
  {
    if usages == [] {
      AllLoaded(db, tenant, now, usages, locked);
      ExpandedFromNone(db, tenant, now, unused, locked);
    } else if |DueUsages(db, tenant, now)| <= |usages| {
      AllLoaded(db, tenant, now, usages, locked);
    } else {
      ExpandedFits(db, tenant, now, usages, unused, locked);
    }
  }

  /** The page stays within its limit exactly when the usage rows released ahead of those loaded fit the unused capacity. */
  lemma WithinLimitIff(db: Db, tenant: string, now: int, limit: nat, locks: Locks)
    requires 1 <= limit
    ensures var batch, first := Plan(db, tenant, now, limit, locks), FirstBatch(db, tenant, now, limit, locks);
            && Within(first.usages, DueUsages(db, tenant, now))
            && var over := Overtaking(db, tenant, now, first.usages, locks.moreUsages);
            && over <= locks.usages - locks.moreUsages
            && (|batch.events| + |batch.usages| <= limit <==>
                  |batch.events| + |first.usages| == limit || |batch.events| + |first.usages| + |over| <= limit)
  {
    FirstBatchLoads(db, tenant, now, limit, locks);
    FirstSizes(db, tenant, now, limit, locks);
    OvertakingWasReleased(db, tenant, now, Shares(db, tenant, now, limit).1, locks);
    BackfilledFits(db, tenant, now, limit, locks, FirstBatch(db, tenant, now, limit, locks));
  }

  /** In particular it does whenever no lock on a usage row is released between the two queries. */
  lemma WithinLimitWhileLocksHold(db: Db, tenant: string, now: int, limit: nat, locks: Locks)
    requires 1 <= limit && locks.usages <= locks.moreUsages
    ensures var batch := Plan(db, tenant, now, limit, locks); |batch.events| + |batch.usages| <= limit
  {
    WithinLimitIff(db, tenant, now, limit, locks);
    var first := FirstBatch(db, tenant, now, limit, locks);
    assert Overtaking(db, tenant, now, first.usages, locks.moreUsages) == {};
    EventsLeaveRoom(db, tenant, now, limit, locks);
  }

  lemma EventsLeaveRoom(db: Db, tenant: string, now: int, limit: nat, locks: Locks)
    requires 1 <= limit
    ensures |Plan(db, tenant, now, limit, locks).events| + |FirstBatch(db, tenant, now, limit, locks).usages| <= limit
  {
    var first := FirstBatch(db, tenant, now, limit, locks);
    FirstSizes(db, tenant, now, limit, locks);
    MoreEventsSize(db, tenant, now, first.events, limit - |first.events| - |first.usages|, locks.moreEvents);
  }

  lemma BackfilledFits(db: Db, tenant: string, now: int, limit: nat, locks: Locks, first: Batch)
    requires |first.events| + |first.usages| <= limit && Within(first.usages, DueUsages(db, tenant, now))
    ensures var batch := Backfilled(db, tenant, now, limit, locks, first);
            var over := Overtaking(db, tenant, now, first.usages, locks.moreUsages);
            (|batch.events| + |batch.usages| <= limit <==>
               |batch.events| + |first.usages| == limit || |batch.events| + |first.usages| + |over| <= limit)
  {
    var unused := limit - |first.events| - |first.usages|;
    var more := MoreEvents(db, tenant, now, first.events, unused, locks.moreEvents);
    MoreEventsSize(db, tenant, now, first.events, unused, locks.moreEvents);
    if unused - |more| > 0 {
      MoreUsagesFit(db, tenant, now, first.usages, unused - |more|, locks.moreUsages);
    }
  }

  lemma FirstSizes(db: Db, tenant: string, now: int, limit: nat, locks: Locks)
    requires 1 <= limit
    ensures var first := FirstBatch(db, tenant, now, limit, locks); |first.events| + |first.usages| <= limit
  {
    var shares := Shares(db, tenant, now, limit);
    FirstIsFirst(EventKeys(db), DueEvents(db, tenant, now) - locks.events, shares.0);
    FirstIsFirst(UsageKeys(db), DueUsages(db, tenant, now) - locks.usages, shares.1);
  }

  lemma MoreEventsSize(db: Db, tenant: string, now: int, events: seq<Id>, unused: nat, locked: set<Id>)
    ensures |MoreEvents(db, tenant, now, events, unused, locked)| <= unused
  {
    FirstIsFirst(EventKeys(db), DueEvents(db, tenant, now) - Elements(events) - locked, unused);
  }

  lemma PassedWhenOldestAreReleased(db: Db, locks: Locks)
    requires locks == Locks({}, {0, 1}, {}, {})
    requires DueEvents(db, "t", 0) == {} && DueUsages(db, "t", 0) == {0, 1, 2}
    requires forall k :: k in {0, 1, 2} ==> k in db.usages && db.usages[k].created == k
    ensures var batch := Plan(db, "t", 0, 2, locks); |batch.events| + |batch.usages| > 2
  {
    WithinLimitIff(db, "t", 0, 2, locks);
    OnlyTheNewest(db, locks);
    var over := Overtaking(db, "t", 0, [2], {});
    assert 2 in Elements([2]) && Before(UsageKeys(db)[0], UsageKeys(db)[2]) && Before(UsageKeys(db)[1], UsageKeys(db)[2]);
    SmallerSet({0, 1}, over);
  }

  /** The first query loads the one row it finds free. */
  lemma OnlyTheNewest(db: Db, locks: Locks)
    requires locks == Locks({}, {0, 1}, {}, {})
    requires DueEvents(db, "t", 0) == {} && DueUsages(db, "t", 0) == {0, 1, 2}
    ensures FirstBatch(db, "t", 0, 2, locks) == Batch([], [2])
  {
    assert Shares(db, "t", 0, 2) == (0, 2);
    assert DueUsages(db, "t", 0) - {0, 1} == {2};
    FirstIsFirst(UsageKeys(db), {2}, 2);
    var rows := First(UsageKeys(db), {2}, 2);
    assert rows[0] in Elements(rows);
  }

  /** Three due usage rows, the two oldest locked at the first query only, and a limit of two: all three are loaded. */
  lemma LimitCanBePassed()
    ensures var row := (k: int) => Usage("t", DeadLetter, 8, k, 0, None);
            var db := Db(map[], map[0 := row(0), 1 := row(1), 2 := row(2)]);
            var batch := Plan(db, "t", 0, 2, Locks({}, {0, 1}, {}, {}));
            |batch.events| + |batch.usages| > 2
  {
    var row := (k: int) => Usage("t", DeadLetter, 8, k, 0, None);
    var db := Db(map[], map[0 := row(0), 1 := row(1), 2 := row(2)]);
    assert DueEvents(db, "t", 0) == {} && DueUsages(db, "t", 0) == {0, 1, 2};
    PassedWhenOldestAreReleased(db, Locks({}, {0, 1}, {}, {}));
  }
}
