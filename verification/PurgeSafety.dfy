/**
 When a result is purged, read off the tables: an independent account of the
 candidates, the verdicts and the report, and of what a hold protects.
 */
module PurgeSafety {
  import opened DurableResults
  import opened DurableRetention
  import opened KeysetCursor
  import opened PurgePlan
  import opened Queue
  import opened Reachability
  import opened Wrappers

  // ---------------------------------------------------------------------
  // Which rows a purge may change
  // ---------------------------------------------------------------------

  /** The operation is this tenant's, completed, free of workers, and the result came from its own target. */
  predicate CompletedBy(db: Db, r: Result) {
    && r.outbox in db.operations
    && db.operations[r.outbox] == Operation(r.tenant, "COMPLETED", r.source, false)
    && (r.source == "MAUTIC" || r.source == "N8N" || r.source == "ODOO")
  }

  predicate NobodyHolds(db: Db, r: Result) {
    && r.tenant !in db.legalHolds
    && forall h :: h in db.holds && db.holds[h].tenant == r.tenant && db.holds[h].outbox == r.outbox ==> !db.holds[h].active
  }

  predicate NoneCameLate(db: Db, r: Result) {
    forall j :: j in db.results && db.results[j].tenant == r.tenant && db.results[j].outbox == r.outbox ==>
      db.results[j].source != "MAUTIC_LATE"
  }

  /** The row opens under its own context and still holds its payload. */
  predicate HoldsPayload(env: Env, i: Id, r: Result) {
    r.stored.Envelope? && IntegrationRecord(env, AsRow(i, r)).Some? && IntegrationRecord(env, AsRow(i, r)).value.Payload?
  }

  predicate Purgeable(at: Setting, db: Db, i: Id) {
    && i in db.results
    && var r := db.results[i];
    && CompletedBy(db, r) && r.outbox !in at.busy && NoneCameLate(db, r) && NobodyHolds(db, r) && HoldsPayload(at.env, i, r)
  }

  lemma HeldIff(db: Db, r: Result)
    ensures IsHeld(db, r) <==> !NobodyHolds(db, r)
  {
  }

  lemma LateIff(db: Db, r: Result)
    ensures LateResult(db, r.tenant, r.outbox) <==> !NoneCameLate(db, r)
  {
  }

  /** A verdict proposes a row exactly when it is purgeable. */
  lemma ProposedIff(at: Setting, db: Db, i: Id)
    ensures Judge(at.env, db, at.busy, i) == Some(Propose) <==> Purgeable(at, db, i)
  {
    if i in db.results {
      HeldIff(db, db.results[i]);
      LateIff(db, db.results[i]);
    }
  }

  /**
   A purge that goes through changes only purgeable results of its tenant beyond
   the cursor, none younger than the retention it was given, which is an hour at
   least; and of each nothing but the stored column.
   */
  lemma PurgedWasPurgeable(at: Setting, db: Db, policy: Policy, expected: Option<Plan>, i: Id)
    requires Purge(at, db, policy, true, expected).Some? && i in db.results
    ensures var after := Purge(at, db, policy, true, expected).value.0;
            && after == db.(results := after.results) && after.results.Keys == db.results.Keys
            && (after.results[i] != db.results[i] ==>
                  && Purgeable(at, db, i) && i > policy.cursor
                  && db.results[i].tenant == policy.tenant
                  && db.results[i].created + policy.retention <= at.now && policy.retention >= 3600
                  && after.results[i] == db.results[i].(stored := after.results[i].stored))
  {
    PurgedRow(at, db, policy, expected, i);
    PageRows(db, policy);
    ProposedIff(at, db, i);
  }

  /** And every purgeable result of the tenant by the cutoff, beyond the cursor, is purged by a call with room for it. */
  lemma PurgeableIsPurged(at: Setting, db: Db, policy: Policy, expected: Option<Plan>, i: Id)
    requires Purge(at, db, policy, true, expected).Some?
    requires Purgeable(at, db, i) && IsOld(i, policy, db) && i > policy.cursor
    ensures var (after, report) := Purge(at, db, policy, true, expected).value;
            && i in after.results
            && (after.results[i] != db.results[i] || (report.mayHaveMore && report.nextAfter.Some? && report.nextAfter.value < i))
  {
    PageIs(Candidates(db, policy), policy.cursor, policy.limit);
    PurgedRow(at, db, policy, expected, i);
    ProposedIff(at, db, i);
    var page := Page(db, policy);
    if i in page {
      PurgedKeepsIdentity(at, db, policy, i);
    } else {
      assert i in Beyond(Candidates(db, policy), policy.cursor) && i !in Elements(page);
      assert i in Beyond(Candidates(db, policy), page[|page| - 1]);
    }
  }

  // ---------------------------------------------------------------------
  // The report
  // ---------------------------------------------------------------------

  function Changed(db: Db, after: Db): set<Id> {
    set i | i in db.results && i in after.results && after.results[i] != db.results[i]
  }

  lemma {:induction false} ChosenAscending(judge: Judgement, page: seq<Id>)
    requires Ascending(page)
    ensures Ascending(Chosen(judge, page)) && Elements(Chosen(judge, page)) <= Elements(page)
  {
    if page != [] {
      var init, last := page[..|page| - 1], page[|page| - 1];
      ChosenAscending(judge, init);
      var before := Chosen(judge, init);
      forall k | 0 <= k < |before| ensures before[k] < last {
        assert before[k] in Elements(before) && before[k] in Elements(init);
      }
      assert page == init + [last];
      forall i | i in Elements(Chosen(judge, page)) ensures i in Elements(page) {
        ChosenAre(judge, page, i);
      }
    }
  }

  lemma ChangedAreChosen(at: Setting, db: Db, policy: Policy, expected: Option<Plan>)
    requires Purge(at, db, policy, true, expected).Some?
    ensures var (after, report) := Purge(at, db, policy, true, expected).value;
            |Changed(db, after)| == |Chosen(JudgeIn(at, db), Page(db, policy))| == report.eligible
  {
    var after := Purge(at, db, policy, true, expected).value.0;
    var judge, page := JudgeIn(at, db), Page(db, policy);
    SurveyCounts(judge, page);
    PageIs(Candidates(db, policy), policy.cursor, policy.limit);
    ChosenAscending(judge, page);
    DistinctSize(Chosen(judge, page));
    forall i: Id ensures i in Changed(db, after) <==> i in Chosen(judge, page) {
      ChosenAre(judge, page, i);
      if i in db.results {
        PurgedRow(at, db, policy, expected, i);
        if i in page && judge(i) == Some(Propose) {
          PurgedKeepsIdentity(at, db, policy, i);
        }
      } else {
        assert judge(i).None?;
      }
    }
    assert Changed(db, after) == Elements(Chosen(judge, page));
  }

  /** With the page not full, no old result of the tenant lies beyond it. */
  lemma NothingBeyond(db: Db, policy: Policy, i: Id)
    requires 1 <= policy.limit && |Page(db, policy)| < policy.limit && IsOld(i, policy, db) && i > policy.cursor
    ensures var page := Page(db, policy); page != [] && i <= page[|page| - 1]
  {
    PageIs(Candidates(db, policy), policy.cursor, policy.limit);
    assert i in Elements(Page(db, policy));
  }

  /**
   A dry run changes nothing and counts the rows that applying its plan changes;
   `updated` is their number; and when there is said to be no more, no old result
   of the tenant lies beyond the page.
   */
  lemma ReportIsTrue(at: Setting, db: Db, policy: Policy)
    requires Purge(at, db, policy, false, None).Some?
    ensures var (same, dry) := Purge(at, db, policy, false, None).value;
            var applied := Purge(at, db, policy, true, Some(dry.plan));
            && same == db && dry.updated == 0
            && (applied.Some? ==> applied.value.1.updated == dry.eligible == |Changed(db, applied.value.0)|)
            && (!dry.mayHaveMore ==> forall i: Id :: IsOld(i, policy, db) && i > policy.cursor ==>
                  dry.nextAfter.Some? && i <= dry.nextAfter.value)
            && dry.scanned <= policy.limit <= 1000
  {
    var dry := Purge(at, db, policy, false, None).value.1;
    SurveyCounts(JudgeIn(at, db), Page(db, policy));
    PageIs(Candidates(db, policy), policy.cursor, policy.limit);
    var applied := Purge(at, db, policy, true, Some(dry.plan));
    if applied.Some? {
      ChangedAreChosen(at, db, policy, Some(dry.plan));
    }
    forall i: Id | IsOld(i, policy, db) && i > policy.cursor && !dry.mayHaveMore
      ensures dry.nextAfter.Some? && i <= dry.nextAfter.value
    {
      NothingBeyond(db, policy, i);
    }
  }

  /** Which refusal comes first: nothing but a policy out of bounds or a row that cannot be judged stops a dry run. */
  lemma DryRunPassesIff(at: Setting, db: Db, policy: Policy)
    ensures Purge(at, db, policy, false, None).Some? <==>
      && 1 <= policy.limit <= 1000 && 3600 <= policy.retention <= 7776000 && policy.before + policy.retention <= at.now
      && forall i :: i in Page(db, policy) ==> Judge(at.env, db, at.busy, i).Some?
  {
    SurveyCounts(JudgeIn(at, db), Page(db, policy));
  }

  /**
   An apply goes through exactly where a dry run of the same tables would and its
   plan is the one expected: approval of a dry run suffices, and nothing else does.
   Only a missing active key can stop it besides.
   */
  lemma ApplyPassesIff(at: Setting, db: Db, policy: Policy, expected: Option<Plan>)
    requires at.env.active in at.env.keys
    ensures var dry := Purge(at, db, policy, false, None);
            Purge(at, db, policy, true, expected).Some? <==> dry.Some? && expected == Some(dry.value.1.plan)
  {
    var judge, page := JudgeIn(at, db), Page(db, policy);
    SurveyCounts(judge, page);
    if Survey(judge, page).Some? {
      forall i | i in Survey(judge, page).value.proposed ensures i in db.results && TombstoneFor(at, db, policy, i).Some? {
        ChosenAre(judge, page, i);
        ProposedIff(at, db, i);
      }
    }
  }

  /** A row stops the batch when its operation is missing, another tenant's or busy, or when it alone could be purged but cannot be read as one. */
  lemma JudgedIff(at: Setting, db: Db, i: Id)
    requires i in db.results
    ensures var r := db.results[i];
            Judge(at.env, db, at.busy, i).Some? <==>
              && r.outbox in db.operations && db.operations[r.outbox].tenant == r.tenant && r.outbox !in at.busy
              && (CompletedBy(db, r) && NoneCameLate(db, r) && NobodyHolds(db, r) ==>
                    r.stored.Envelope? && IntegrationRecord(at.env, AsRow(i, r)).Some?)
  {
    HeldIff(db, db.results[i]);
    LateIff(db, db.results[i]);
  }

  /** The reason a row is skipped for, in the order the program gives them. */
  lemma SkippedBecause(at: Setting, db: Db, i: Id)
    requires i in db.results && Judge(at.env, db, at.busy, i).Some?
    ensures var r, verdict := db.results[i], Judge(at.env, db, at.busy, i).value;
            var operation := db.operations[r.outbox];
            && (verdict == Nonterminal <==> operation.state != "COMPLETED" || operation.leased)
            && (verdict == Ambiguous <==> operation.state == "COMPLETED" && !operation.leased
                                          && (!CompletedBy(db, r) || !NoneCameLate(db, r)))
            && (verdict == Held <==> CompletedBy(db, r) && NoneCameLate(db, r) && !NobodyHolds(db, r))
  {
    HeldIff(db, db.results[i]);
    LateIff(db, db.results[i]);
  }

  // ---------------------------------------------------------------------
  // What a hold protects
  // ---------------------------------------------------------------------

  function HoldAll(db: Db, run: seq<HoldRequest>): Db
    decreases |run|
  {
    if run == [] then db else HoldAll(HeldDb(db, run[0]), run[1..])
  }

  predicate IsActive(db: Db, hold: string, tenant: string, outbox: string) {
    hold in db.holds && db.holds[hold].active && db.holds[hold].tenant == tenant && db.holds[hold].outbox == outbox
  }

  /** A hold that is in place stays so until its own release, whatever else is asked for. */
  lemma {:induction false} HoldLasts(db: Db, run: seq<HoldRequest>, hold: string, tenant: string, outbox: string)
    requires IsActive(db, hold, tenant, outbox) && forall q :: q in run && q.release ==> q.hold != hold
    ensures IsActive(HoldAll(db, run), hold, tenant, outbox)
    ensures HoldAll(db, run) == db.(holds := HoldAll(db, run).holds)
    decreases |run|
  {
    if run != [] {
      assert run[0] in run;
      HoldLasts(HeldDb(db, run[0]), run[1..], hold, tenant, outbox);
    }
  }

  /**
   From the moment a hold is accepted until it is released, no purge changes a
   result of the operation, whatever other holds are placed or released.
   */
  lemma HoldProtects(db: Db, q: HoldRequest, run: seq<HoldRequest>, at: Setting, policy: Policy, expected: Option<Plan>, i: Id)
    requires !q.release && HoldChanges(db, q).Some?
    requires forall p :: p in run && p.release ==> p.hold != q.hold
    requires var held := HoldAll(HeldDb(db, q), run);
             && Purge(at, held, policy, true, expected).Some?
             && i in held.results && held.results[i].tenant == q.tenant && held.results[i].outbox == q.outbox
    ensures var held := HoldAll(HeldDb(db, q), run);
            var after := Purge(at, held, policy, true, expected).value.0;
            i in after.results && after.results[i] == held.results[i]
  {
    HoldLasts(HeldDb(db, q), run, q.hold, q.tenant, q.outbox);
    var held := HoldAll(HeldDb(db, q), run);
    PurgedWasPurgeable(at, held, policy, expected, i);
    assert IsActive(held, q.hold, q.tenant, q.outbox);
  }

  /** A release that is accepted ends its own hold and no other. */
  lemma ReleaseEndsItsOwn(db: Db, q: HoldRequest, hold: string, tenant: string, outbox: string)
    requires q.release && HoldChanges(db, q).Some?
    ensures q.hold in HeldDb(db, q).holds && !HeldDb(db, q).holds[q.hold].active
    ensures hold != q.hold ==> (IsActive(HeldDb(db, q), hold, tenant, outbox) <==> IsActive(db, hold, tenant, outbox))
  {
  }

  /** A request is refused exactly when it is not about its tenant's operation, or the name stands for another hold or another change. */
  lemma HoldRefusedIff(db: Db, q: HoldRequest)
    ensures HoldChanges(db, q) == None <==>
      || q.outbox !in db.operations || db.operations[q.outbox].tenant != q.tenant
      || (q.hold !in db.holds && q.release)
      || (q.hold in db.holds &&
            var hold := db.holds[q.hold];
            || hold.tenant != q.tenant || hold.outbox != q.outbox
            || (!hold.active && (!q.release || hold.release != Some(q.change)))
            || (hold.active && !q.release && hold.change != q.change))
  {
  }
}
