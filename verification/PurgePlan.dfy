/** What holds of every purge: it counts each candidate once, touches exactly the approved rows, and keeps their identity. */
module PurgePlan {
  import opened DurableResults
  import opened DurableRetention
  import opened KeysetCursor
  import opened Queue
  import opened Wrappers

  lemma PageRows(db: Db, policy: Policy)
    ensures forall i :: i in Page(db, policy) ==> i in Candidates(db, policy) && i > policy.cursor
  {
    PageIs(Candidates(db, policy), policy.cursor, if policy.limit > 0 then policy.limit else 0);
    forall i | i in Page(db, policy) ensures i in Candidates(db, policy) && i > policy.cursor {
      assert i in Elements(Page(db, policy));
    }
  }

  /** Every scanned candidate is eligible or skipped for exactly one reason. */
  lemma EveryCandidateCounted(at: Setting, db: Db, policy: Policy, apply: bool, expected: Option<Plan>)
    requires Purge(at, db, policy, apply, expected).Some?
    ensures var report := Purge(at, db, policy, apply, expected).value.1;
            && report.scanned == report.eligible + report.skipped.held + report.skipped.nonterminal
                                 + report.skipped.ambiguous + report.skipped.purged
            && report.updated == if apply then report.eligible else 0
  {
    SurveyCounts(JudgeIn(at, db), Page(db, policy));
  }

  predicate Planned(plan: Plan, i: Id, stored: Stored) {
    (i, stored) in plan.eligible
  }

  /** The plan lists exactly the rows of the page that are to be purged, each with what it holds now. */
  lemma PlanLists(at: Setting, db: Db, policy: Policy, apply: bool, expected: Option<Plan>, i: Id, stored: Stored)
    requires Purge(at, db, policy, apply, expected).Some?
    ensures Planned(Purge(at, db, policy, apply, expected).value.1.plan, i, stored) <==>
      i in Page(db, policy) && Judge(at.env, db, at.busy, i) == Some(Propose) && i in db.results && db.results[i].stored == stored
  {
    var judge, page := JudgeIn(at, db), Page(db, policy);
    SurveyCounts(judge, page);
    ChosenAre(judge, page, i);
    var rows := Chosen(judge, page);
    var listed := StoredOf(db, rows);
    if (i, stored) in listed {
      var k :| 0 <= k < |listed| && listed[k] == (i, stored);
      assert rows[k] == i;
    }
    if i in rows {
      var k :| 0 <= k < |rows| && rows[k] == i;
      assert listed[k] in listed;
    }
  }

  /** A row a purge changes was proposed: settled, unambiguous, and under no hold. */
  lemma PurgedRow(at: Setting, db: Db, policy: Policy, expected: Option<Plan>, i: Id)
    requires Purge(at, db, policy, true, expected).Some? && i in db.results
    ensures var after := Purge(at, db, policy, true, expected).value.0;
            && i in after.results
            && var proposed := i in Page(db, policy) && Judge(at.env, db, at.busy, i) == Some(Propose);
            && (!proposed ==> after.results[i] == db.results[i])
            && (proposed ==> TombstoneFor(at, db, policy, i).Some?
                             && after.results[i] == db.results[i].(stored := TombstoneFor(at, db, policy, i).value))
  {
    SurveyCounts(JudgeIn(at, db), Page(db, policy));
    ChosenAre(JudgeIn(at, db), Page(db, policy), i);
  }

  /** No purge touches a result under a hold or of a tenant under legal hold, nor one still open or ambiguous. */
  lemma HeldIsNeverPurged(at: Setting, db: Db, policy: Policy, expected: Option<Plan>, i: Id)
    requires Purge(at, db, policy, true, expected).Some? && i in db.results
    requires IsHeld(db, db.results[i]) || !Settled(db, db.results[i]) || !Unambiguous(db, db.results[i])
    ensures i in Purge(at, db, policy, true, expected).value.0.results
    ensures Purge(at, db, policy, true, expected).value.0.results[i] == db.results[i]
  {
    PurgedRow(at, db, policy, expected, i);
  }

  /** A purged row reads as a tombstone of the same digest, stamped with the clock and the policy. */
  lemma PurgedKeepsIdentity(at: Setting, db: Db, policy: Policy, i: Id)
    requires i in db.results && Judge(at.env, db, at.busy, i) == Some(Propose) && TombstoneFor(at, db, policy, i).Some?
    ensures var before := IntegrationRecord(at.env, AsRow(i, db.results[i]));
            var after := IntegrationRecord(at.env, AsRow(i, db.results[i].(stored := TombstoneFor(at, db, policy, i).value)));
            && before.Some? && before.value.Payload?
            && after == Some(Tombstone(before.value.hash, at.now, at.sha(policy)))
  {
  }

  /**
   Whatever happened between the dry run and the apply: if the apply goes through
   with the digest of the dry run's plan, the rows it changes are exactly the rows
   of that plan, each still holding what the plan saw.
   */
  lemma ApplyFollowsThePlan(
      dryAt: Setting, dryDb: Db, dryPolicy: Policy, at: Setting, db: Db, policy: Policy, approved: Plan, i: Id)
    requires Purge(dryAt, dryDb, dryPolicy, false, None).Some?
    requires approved == Purge(dryAt, dryDb, dryPolicy, false, None).value.1.plan
    requires Purge(at, db, policy, true, Some(approved)).Some? && i in db.results
    ensures var after := Purge(at, db, policy, true, Some(approved)).value.0;
            && policy == dryPolicy && i in after.results
            && (after.results[i] != db.results[i] <==> Planned(approved, i, db.results[i].stored))
            && (after.results[i] != db.results[i] ==>
                  && i in dryDb.results && dryDb.results[i].stored == db.results[i].stored
                  && Judge(dryAt.env, dryDb, dryAt.busy, i) == Some(Propose))
  {
    PlanLists(dryAt, dryDb, dryPolicy, false, None, i, db.results[i].stored);
    PlanLists(at, db, policy, true, Some(approved), i, db.results[i].stored);
    PurgedRow(at, db, policy, Some(approved), i);
    if Planned(approved, i, db.results[i].stored) {
      PurgedKeepsIdentity(at, db, policy, i);
    }
  }

  /** And every row of the plan is there, holds what the plan saw, and is changed. */
  lemma WholePlanIsApplied(
      dryAt: Setting, dryDb: Db, dryPolicy: Policy, at: Setting, db: Db, policy: Policy, approved: Plan, i: Id, stored: Stored)
    requires Purge(dryAt, dryDb, dryPolicy, false, None).Some?
    requires approved == Purge(dryAt, dryDb, dryPolicy, false, None).value.1.plan
    requires Purge(at, db, policy, true, Some(approved)).Some? && Planned(approved, i, stored)
    ensures var after := Purge(at, db, policy, true, Some(approved)).value.0;
            i in db.results && db.results[i].stored == stored && i in after.results && after.results[i] != db.results[i]
  {
    PlanLists(at, db, policy, true, Some(approved), i, stored);
    ApplyFollowsThePlan(dryAt, dryDb, dryPolicy, at, db, policy, approved, i);
  }

  // ---------------------------------------------------------------------
  // After the purge
  // ---------------------------------------------------------------------

  /** Judged again, the purged rows are already purged and every other verdict is as it was. */
  lemma JudgedAgain(at: Setting, db: Db, policy: Policy, expected: Option<Plan>, i: Id)
    requires Purge(at, db, policy, true, expected).Some? && i in Page(db, policy)
    ensures var after := Purge(at, db, policy, true, expected).value.0;
            Judge(at.env, after, at.busy, i) ==
              if Judge(at.env, db, at.busy, i) == Some(Propose) then Some(AlreadyPurged) else Judge(at.env, db, at.busy, i)
  {
    PageRows(db, policy);
    PurgedRow(at, db, policy, expected, i);
    var after := Purge(at, db, policy, true, expected).value.0;
    var r := db.results[i];
    SameSurroundings(db, after, r);
    if Judge(at.env, db, at.busy, i) == Some(Propose) {
      PurgedKeepsIdentity(at, db, policy, i);
    }
  }

  /** Purging changes no column a verdict looks at but the stored one. */
  lemma SameSurroundings(db: Db, after: Db, r: Result)
    requires after == db.(results := after.results) && after.results.Keys == db.results.Keys
    requires forall j :: j in db.results ==> after.results[j] == db.results[j].(stored := after.results[j].stored)
    ensures Unambiguous(after, r) == Unambiguous(db, r) && Settled(after, r) == Settled(db, r) && IsHeld(after, r) == IsHeld(db, r)
  {
    if LateResult(db, r.tenant, r.outbox) {
      var j :| j in db.results && db.results[j].tenant == r.tenant && db.results[j].outbox == r.outbox && db.results[j].source == "MAUTIC_LATE";
      assert j in after.results;
    }
    if LateResult(after, r.tenant, r.outbox) {
      var j :| j in after.results && after.results[j].tenant == r.tenant && after.results[j].outbox == r.outbox && after.results[j].source == "MAUTIC_LATE";
      assert j in db.results;
    }
  }

  /** The candidates of a policy stay the same, so the cursor goes on over the same rows. */
  lemma CandidatesStay(at: Setting, db: Db, policy: Policy, expected: Option<Plan>, other: Policy)
    requires Purge(at, db, policy, true, expected).Some?
    ensures Candidates(Purge(at, db, policy, true, expected).value.0, other) == Candidates(db, other)
  {
    forall i | i in db.results
      ensures i in Purge(at, db, policy, true, expected).value.0.results
      ensures var r := Purge(at, db, policy, true, expected).value.0.results[i];
              r.tenant == db.results[i].tenant && r.created == db.results[i].created
    {
      PurgedRow(at, db, policy, expected, i);
    }
  }

  lemma NothingIn(rows: seq<Id>)
    ensures rows == [] || exists i :: i in rows
  {
    if rows != [] {
      assert rows[0] in rows;
    }
  }

  /** The same page surveyed again, in the same setting, scans as many rows and proposes none. */
  lemma PurgeIsDone(at: Setting, db: Db, policy: Policy, expected: Option<Plan>)
    requires Purge(at, db, policy, true, expected).Some?
    ensures var again := Purge(at, Purge(at, db, policy, true, expected).value.0, policy, false, None);
            && again.Some? && again.value.1.eligible == 0
            && again.value.1.scanned == Purge(at, db, policy, true, expected).value.1.scanned
  {
    var after := Purge(at, db, policy, true, expected).value.0;
    CandidatesStay(at, db, policy, expected, policy);
    var page := Page(db, policy);
    SurveyCounts(JudgeIn(at, db), page);
    SurveyCounts(JudgeIn(at, after), page);
    forall i | i in page ensures JudgeIn(at, after)(i).Some? && JudgeIn(at, after)(i) != Some(Propose) {
      JudgedAgain(at, db, policy, expected, i);
    }
    forall i ensures i !in Chosen(JudgeIn(at, after), page) {
      ChosenAre(JudgeIn(at, after), page, i);
    }
    NothingIn(Chosen(JudgeIn(at, after), page));
  }

  // ---------------------------------------------------------------------
  // Purging page after page
  // ---------------------------------------------------------------------

  datatype Call = Call(at: Setting, expected: Option<Plan>)

  /** Applied calls, each from the cursor the call before reported, until no candidate is left beyond it. */
  ghost predicate Purging(db: Db, policy: Policy, calls: seq<Call>)
    decreases calls
  {
    if calls == [] then Page(db, policy) == []
    else
      var outcome := Purge(calls[0].at, db, policy, true, calls[0].expected);
      && outcome.Some? && outcome.value.1.nextAfter.Some?
      && Purging(outcome.value.0, policy.(cursor := outcome.value.1.nextAfter.value), calls[1..])
  }

  /** The rows the calls scan, in order. */
  ghost function Visited(db: Db, policy: Policy, calls: seq<Call>): seq<Id>
    requires Purging(db, policy, calls)
    decreases calls
  {
    if calls == [] then []
    else
      var outcome := Purge(calls[0].at, db, policy, true, calls[0].expected).value;
      Page(db, policy) + Visited(outcome.0, policy.(cursor := outcome.1.nextAfter.value), calls[1..])
  }

  lemma NextCursor(at: Setting, db: Db, policy: Policy, expected: Option<Plan>)
    requires Purge(at, db, policy, true, expected).Some?
    ensures var (after, report) := Purge(at, db, policy, true, expected).value;
            var page := Page(db, policy);
            && (report.nextAfter.Some? <==> page != [])
            && (page != [] ==>
                  && report.nextAfter == Some(page[|page| - 1]) && Ascending(page)
                  && Elements(page) <= Beyond(Candidates(db, policy), policy.cursor)
                  && Beyond(Candidates(after, policy), page[|page| - 1]) == Beyond(Candidates(db, policy), policy.cursor) - Elements(page))
  {
    PageIs(Candidates(db, policy), policy.cursor, policy.limit);
    CandidatesStay(at, db, policy, expected, policy);
  }

  lemma SameCandidates(db: Db, policy: Policy, cursor: int)
    ensures Candidates(db, policy.(cursor := cursor)) == Candidates(db, policy)
  {
  }

  /** Purging page after page, with the tables changed only by the purges, scans every candidate exactly once, in ascending order. */
  lemma {:induction false} PurgingVisitsEveryCandidateOnce(db: Db, policy: Policy, calls: seq<Call>)
    requires policy.limit > 0 && Purging(db, policy, calls)
    ensures Ascending(Visited(db, policy, calls))
    ensures Elements(Visited(db, policy, calls)) == Beyond(Candidates(db, policy), policy.cursor)
    decreases calls
  {
    if calls == [] {
      PageIs(Candidates(db, policy), policy.cursor, policy.limit);
    } else {
      var outcome := Purge(calls[0].at, db, policy, true, calls[0].expected).value;
      var page, last := Page(db, policy), outcome.1.nextAfter.value;
      NextCursor(calls[0].at, db, policy, calls[0].expected);
      SameCandidates(outcome.0, policy, last);
      PurgingVisitsEveryCandidateOnce(outcome.0, policy.(cursor := last), calls[1..]);
      Joined(page, Visited(outcome.0, policy.(cursor := last), calls[1..]), last);
    }
  }

  // ---------------------------------------------------------------------
  // The same with anything else happening in between
  // ---------------------------------------------------------------------

  /** A call, dry or applied, with the tables as it finds them. */
  datatype Visit = Visit(db: Db, at: Setting, apply: bool, expected: Option<Plan>)

  /** The cursor a call reports, if it goes through and scans anything. */
  function Reported(v: Visit, policy: Policy): Option<Id> {
    var outcome := Purge(v.at, v.db, policy, v.apply, v.expected);
    if outcome.Some? then outcome.value.1.nextAfter else None
  }

  lemma ReportedIsLastScanned(v: Visit, policy: Policy)
    requires Reported(v, policy).Some?
    ensures var page := Page(v.db, policy); page != [] && Reported(v, policy) == Some(page[|page| - 1])
  {
  }

  /** Calls that follow the reported cursor; nothing relates the tables one finds to those another left. */
  ghost predicate Sweep(policy: Policy, visits: seq<Visit>, last: Db)
    decreases visits
  {
    if visits == [] then Page(last, policy) == []
    else
      && Reported(visits[0], policy).Some?
      && Sweep(policy.(cursor := Reported(visits[0], policy).value), visits[1..], last)
  }

  ghost function Scanned(policy: Policy, visits: seq<Visit>, last: Db): seq<Id>
    requires Sweep(policy, visits, last)
    decreases visits
  {
    if visits == [] then []
    else Page(visits[0].db, policy) + Scanned(policy.(cursor := Reported(visits[0], policy).value), visits[1..], last)
  }

  lemma PageOf(db: Db, policy: Policy)
    requires policy.limit > 0
    ensures var page := Page(db, policy);
            && Ascending(page) && Elements(page) <= Beyond(Candidates(db, policy), policy.cursor)
            && (page == [] ==> Beyond(Candidates(db, policy), policy.cursor) == {})
            && (page != [] ==>
                  && page[|page| - 1] > policy.cursor
                  && Beyond(Candidates(db, policy), page[|page| - 1]) == Beyond(Candidates(db, policy), policy.cursor) - Elements(page))
  {
    PageIs(Candidates(db, policy), policy.cursor, policy.limit);
    var page := Page(db, policy);
    assert page != [] ==> page[|page| - 1] in Elements(page);
  }

  /** One step of a sweep: what it scans, and where the rest goes on. */
  lemma SweepStep(policy: Policy, visits: seq<Visit>, last: Db) returns (page: seq<Id>, cursor: Id)
    requires policy.limit > 0 && visits != [] && Sweep(policy, visits, last)
    ensures page == Page(visits[0].db, policy) && page != [] && cursor == page[|page| - 1] && cursor > policy.cursor
    ensures Ascending(page) && Elements(page) <= Beyond(Candidates(visits[0].db, policy), policy.cursor)
    ensures Beyond(Candidates(visits[0].db, policy), cursor) == Beyond(Candidates(visits[0].db, policy), policy.cursor) - Elements(page)
    ensures Sweep(policy.(cursor := cursor), visits[1..], last)
    ensures Scanned(policy, visits, last) == page + Scanned(policy.(cursor := cursor), visits[1..], last)
  {
    page := Page(visits[0].db, policy);
    ReportedIsLastScanned(visits[0], policy);
    PageOf(visits[0].db, policy);
    cursor := page[|page| - 1];
  }

  /** Whatever happens between the calls, the rows come in ascending order: no row is scanned twice. */
  lemma {:induction false} NoRowIsScannedTwice(policy: Policy, visits: seq<Visit>, last: Db)
    requires policy.limit > 0 && Sweep(policy, visits, last)
    ensures Ascending(Scanned(policy, visits, last))
    ensures forall j :: j in Elements(Scanned(policy, visits, last)) ==> j > policy.cursor
    decreases visits
  {
    if visits != [] {
      var page, cursor := SweepStep(policy, visits, last);
      NoRowIsScannedTwice(policy.(cursor := cursor), visits[1..], last);
      Joined(page, Scanned(policy.(cursor := cursor), visits[1..], last), cursor);
    }
  }

  lemma CandidateIsOld(db: Db, policy: Policy, i: Id, page: seq<Id>)
    requires i in page && Elements(page) <= Beyond(Candidates(db, policy), policy.cursor)
    ensures IsOld(i, policy, db)
  {
    assert i in Elements(page);
  }

  /** Every row scanned was an old result of the tenant in the tables of some call. */
  lemma {:induction false} ScannedWereCandidates(policy: Policy, visits: seq<Visit>, last: Db, i: Id) returns (k: nat)
    requires policy.limit > 0 && Sweep(policy, visits, last) && i in Scanned(policy, visits, last)
    ensures k < |visits| && IsOld(i, policy, visits[k].db)
    decreases visits
  {
    var page, cursor := SweepStep(policy, visits, last);
    if i in page {
      k := 0;
      CandidateIsOld(visits[0].db, policy, i, page);
    } else {
      var n := ScannedWereCandidates(policy.(cursor := cursor), visits[1..], last, i);
      k := n + 1;
      assert visits[1..][n] == visits[k];
      OldUnderAnyCursor(i, policy, cursor, visits[k].db);
    }
  }

  /** A result of the tenant, created by the cutoff. */
  predicate IsOld(i: Id, policy: Policy, db: Db) {
    i in db.results && db.results[i].tenant == policy.tenant && db.results[i].created <= policy.before
  }

  lemma OldUnderAnyCursor(i: Id, policy: Policy, cursor: int, db: Db)
    ensures IsOld(i, policy.(cursor := cursor), db) <==> IsOld(i, policy, db)
  {
  }

  ghost predicate StaysCandidate(i: Id, policy: Policy, visits: seq<Visit>, last: Db) {
    (forall k :: 0 <= k < |visits| ==> IsOld(i, policy, visits[k].db)) && IsOld(i, policy, last)
  }

  lemma StillStays(i: Id, policy: Policy, cursor: int, visits: seq<Visit>, last: Db)
    requires visits != [] && StaysCandidate(i, policy, visits, last)
    ensures StaysCandidate(i, policy.(cursor := cursor), visits[1..], last)
  {
    forall k | 0 <= k < |visits[1..]| ensures IsOld(i, policy.(cursor := cursor), visits[1..][k].db) {
      assert visits[1..][k] == visits[k + 1];
    }
  }

  /** Every result beyond the start that stays of the tenant and old throughout is scanned. */
  lemma {:induction false} StayingCandidatesAreScanned(policy: Policy, visits: seq<Visit>, last: Db, i: Id)
    requires policy.limit > 0 && Sweep(policy, visits, last)
    requires i > policy.cursor && StaysCandidate(i, policy, visits, last)
    ensures i in Scanned(policy, visits, last)
    decreases visits
  {
    if visits == [] {
      assert i in Beyond(Candidates(last, policy), policy.cursor);
      PageOf(last, policy);
    } else {
      var page, cursor := SweepStep(policy, visits, last);
      assert i in Beyond(Candidates(visits[0].db, policy), policy.cursor);
      if i !in Elements(page) {
        assert i in Beyond(Candidates(visits[0].db, policy), cursor);
        StillStays(i, policy, cursor, visits, last);
        StayingCandidatesAreScanned(policy.(cursor := cursor), visits[1..], last, i);
      }
    }
  }
}
