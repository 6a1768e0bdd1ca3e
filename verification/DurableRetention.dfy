/**
 Retention of integration results: holds, the dry-run plan, and the purge that
 must follow the approved plan to the letter. The digest of a plan stands for
 the plan itself.
 */
module DurableRetention {
  import opened DurableResults
  import opened KeysetCursor
  import opened Queue
  import opened Wrappers

  datatype Result = Result(tenant: string, outbox: string, source: string, key: string, created: int, stored: Stored)

  datatype Operation = Operation(tenant: string, state: string, target: string, leased: bool)

  datatype Hold = Hold(tenant: string, outbox: string, active: bool, change: string, release: Option<string>)

  datatype Db = Db(
    results: map<Id, Result>, operations: map<string, Operation>, holds: map<string, Hold>, legalHolds: set<string>)

  function AsRow(i: Id, r: Result): Row {
    Row(i, r.tenant, r.created, Binding(Integration, [r.tenant, r.outbox, r.source, r.key]), r.stored)
  }

  // ---------------------------------------------------------------------
  // Holds
  // ---------------------------------------------------------------------

  datatype HoldRequest = HoldRequest(tenant: string, outbox: string, hold: string, change: string, release: bool)

  /** Whether the request would change the hold; None where it is refused. */
  function HoldChanges(db: Db, q: HoldRequest): Option<bool> {
    if q.outbox !in db.operations || db.operations[q.outbox].tenant != q.tenant then None
    else if q.hold !in db.holds then (if q.release then None else Some(true))
    else
      var hold := db.holds[q.hold];
      if hold.tenant != q.tenant || hold.outbox != q.outbox then None
      else if q.release then
        if hold.active then Some(true)
        else if hold.release == Some(q.change) then Some(false) else None
      else if hold.active && hold.change == q.change then Some(false) else None
  }

  function HeldDb(db: Db, q: HoldRequest): Db {
    if HoldChanges(db, q) != Some(true) then db
    else if q.release then
      if q.hold in db.holds then
        db.(holds := db.holds[q.hold := db.holds[q.hold].(active := false, release := Some(q.change))])
      else db
    else db.(holds := db.holds[q.hold := Hold(q.tenant, q.outbox, true, q.change, None)])
  }

  /** A request that went through goes through again and changes nothing. */
  lemma HoldIsIdempotent(db: Db, q: HoldRequest)
    requires HoldChanges(db, q).Some?
    ensures HoldChanges(HeldDb(db, q), q) == Some(false) && HeldDb(HeldDb(db, q), q) == HeldDb(db, q)
  {
  }

  /** A released hold is never active again, and no request moves a hold to another operation. */
  lemma ReleasedStaysReleased(db: Db, q: HoldRequest, h: string)
    requires h in db.holds
    ensures var after := HeldDb(db, q);
            && h in after.holds && (!db.holds[h].active ==> after.holds[h] == db.holds[h])
            && after.holds[h].outbox == db.holds[h].outbox && after.holds[h].tenant == db.holds[h].tenant
  {
  }

  // ---------------------------------------------------------------------
  // Judging one candidate
  // ---------------------------------------------------------------------

  datatype Verdict = Nonterminal | Ambiguous | Held | AlreadyPurged | Propose

  predicate LateResult(db: Db, tenant: string, outbox: string) {
    exists j :: j in db.results && db.results[j].tenant == tenant && db.results[j].outbox == outbox && db.results[j].source == "MAUTIC_LATE"
  }

  predicate ActiveHold(db: Db, tenant: string, outbox: string) {
    exists h :: h in db.holds && db.holds[h].tenant == tenant && db.holds[h].outbox == outbox && db.holds[h].active
  }

  predicate IsHeld(db: Db, r: Result) {
    r.tenant in db.legalHolds || ActiveHold(db, r.tenant, r.outbox)
  }

  predicate Settled(db: Db, r: Result) {
    r.outbox in db.operations && db.operations[r.outbox].tenant == r.tenant
    && db.operations[r.outbox].state == "COMPLETED" && !db.operations[r.outbox].leased
  }

  predicate Unambiguous(db: Db, r: Result) {
    && r.outbox in db.operations && r.source == db.operations[r.outbox].target && r.source in {"MAUTIC", "N8N", "ODOO"}
    && !LateResult(db, r.tenant, r.outbox)
  }

  /** None where the batch raises: a missing or busy operation, legacy JSON, or a row that does not authenticate. */
  function Judge(env: Env, db: Db, busy: set<string>, i: Id): Option<Verdict> {
    if i !in db.results then None
    else
      var r := db.results[i];
      if r.outbox !in db.operations || db.operations[r.outbox].tenant != r.tenant || r.outbox in busy then None
      else if !Settled(db, r) then Some(Nonterminal)
      else if !Unambiguous(db, r) then Some(Ambiguous)
      else if IsHeld(db, r) then Some(Held)
      else if !r.stored.Envelope? then None
      else
        var document :- IntegrationRecord(env, AsRow(i, r));
        Some(if document.Tombstone? then AlreadyPurged else Propose)
  }

  // ---------------------------------------------------------------------
  // Surveying a page
  // ---------------------------------------------------------------------

  datatype Skipped = Skipped(held: nat, nonterminal: nat, ambiguous: nat, purged: nat)

  datatype Findings = Findings(proposed: seq<Id>, skipped: Skipped)

  function Note(f: Findings, i: Id, verdict: Verdict): Findings {
    match verdict
    case Nonterminal => f.(skipped := f.skipped.(nonterminal := f.skipped.nonterminal + 1))
    case Ambiguous => f.(skipped := f.skipped.(ambiguous := f.skipped.ambiguous + 1))
    case Held => f.(skipped := f.skipped.(held := f.skipped.held + 1))
    case AlreadyPurged => f.(skipped := f.skipped.(purged := f.skipped.purged + 1))
    case Propose => f.(proposed := f.proposed + [i])
  }

  type Judgement = Id -> Option<Verdict>

  function Survey(judge: Judgement, page: seq<Id>): Option<Findings> {
    if page == [] then Some(Findings([], Skipped(0, 0, 0, 0)))
    else
      var init :- Survey(judge, page[..|page| - 1]);
      var verdict :- judge(page[|page| - 1]);
      Some(Note(init, page[|page| - 1], verdict))
  }

  predicate Judged(judge: Judgement, page: seq<Id>) {
    forall i :: i in page ==> judge(i).Some?
  }

  function Chosen(judge: Judgement, page: seq<Id>): seq<Id> {
    if page == [] then []
    else Chosen(judge, page[..|page| - 1]) + if judge(page[|page| - 1]) == Some(Propose) then [page[|page| - 1]] else []
  }

  /**
   A survey goes through exactly when every candidate can be judged; it proposes
   exactly the rows judged so, in order; and every candidate is counted once.
   */
  lemma {:induction false} SurveyCounts(judge: Judgement, page: seq<Id>)
    ensures Survey(judge, page).Some? <==> Judged(judge, page)
    ensures Survey(judge, page).Some? ==>
      var f := Survey(judge, page).value;
      && f.proposed == Chosen(judge, page)
      && |page| == |f.proposed| + f.skipped.held + f.skipped.nonterminal + f.skipped.ambiguous + f.skipped.purged
  {
    if page != [] {
      var init, last := page[..|page| - 1], page[|page| - 1];
      SurveyCounts(judge, init);
      assert page == init + [last];
    }
  }

  lemma {:induction false} ChosenAre(judge: Judgement, page: seq<Id>, i: Id)
    ensures i in Chosen(judge, page) <==> i in page && judge(i) == Some(Propose)
  {
    if page != [] {
      ChosenAre(judge, page[..|page| - 1], i);
      assert page == page[..|page| - 1] + [page[|page| - 1]];
    }
  }

  // ---------------------------------------------------------------------
  // The plan and the purge
  // ---------------------------------------------------------------------

  datatype Policy = Policy(tenant: string, before: int, cursor: int, limit: int, retention: int)

  datatype Plan = Plan(policy: Policy, eligible: seq<(Id, Stored)>)

  datatype Report = Report(
    scanned: nat, eligible: nat, updated: nat, skipped: Skipped, plan: Plan, nextAfter: Option<Id>, mayHaveMore: bool)

  /** The clock, the digest of policies, the rows being busy elsewhere and the nonces drawn. */
  datatype Setting = Setting(env: Env, now: int, sha: Policy -> string, busy: set<string>, nonce: Id -> Nonce)

  function Candidates(db: Db, policy: Policy): set<Id> {
    set i | i in db.results && db.results[i].tenant == policy.tenant && db.results[i].created <= policy.before
  }

  predicate InBounds(policy: Policy, now: int) {
    && 1 <= policy.limit <= 1000 && 3600 <= policy.retention <= 7776000
    && policy.before <= now - policy.retention
  }

  function Page(db: Db, policy: Policy): seq<Id> {
    PageAfter(Candidates(db, policy), policy.cursor, if policy.limit > 0 then policy.limit else 0)
  }

  function JudgeIn(at: Setting, db: Db): Judgement {
    (i: Id) => Judge(at.env, db, at.busy, i)
  }

  function StoredOf(db: Db, rows: seq<Id>): seq<(Id, Stored)> {
    seq(|rows|, k requires 0 <= k < |rows| => (rows[k], if rows[k] in db.results then db.results[rows[k]].stored else Garbage))
  }

  function TombstoneFor(at: Setting, db: Db, policy: Policy, i: Id): Option<Stored>
    requires i in db.results
  {
    SealTombstone(at.env, AsRow(i, db.results[i]), at.now, at.sha(policy), at.nonce(i))
  }

  predicate Sealable(at: Setting, db: Db, policy: Policy, rows: seq<Id>) {
    forall i :: i in rows ==> i in db.results && TombstoneFor(at, db, policy, i).Some?
  }

  function Tombstoned(at: Setting, db: Db, policy: Policy, rows: seq<Id>): Db
    requires Sealable(at, db, policy, rows)
  {
    db.(results := map i | i in db.results ::
          if i in rows then db.results[i].(stored := TombstoneFor(at, db, policy, i).value) else db.results[i])
  }

  function ReportOf(db: Db, policy: Policy, page: seq<Id>, f: Findings, apply: bool): Report {
    Report(|page|, |f.proposed|, if apply then |f.proposed| else 0, f.skipped, Plan(policy, StoredOf(db, f.proposed)),
           if page == [] then None else Some(page[|page| - 1]), |page| == policy.limit)
  }

  /** One call: None where it raises, and then nothing has changed. */
  function Purge(at: Setting, db: Db, policy: Policy, apply: bool, expected: Option<Plan>): Option<(Db, Report)> {
    if !InBounds(policy, at.now) then None
    else
      var page := Page(db, policy);
      var f :- Survey(JudgeIn(at, db), page);
      var report := ReportOf(db, policy, page, f, apply);
      if !apply then Some((db, report))
      else if expected != Some(report.plan) || !Sealable(at, db, policy, f.proposed) then None
      else Some((Tombstoned(at, db, policy, f.proposed), report))
  }

  class Archive {
    var results: map<Id, Result>
    var operations: map<string, Operation>
    var holds: map<string, Hold>
    var legalHolds: set<string>

    ghost function View(): Db
      reads this
    {
      Db(results, operations, holds, legalHolds)
    }

    method ResultHold(q: HoldRequest, apply: bool) returns (changed: Option<bool>)
      modifies this`holds
      ensures changed == HoldChanges(old(View()), q)
      ensures View() == if apply then HeldDb(old(View()), q) else old(View())
    {
      changed := HoldChanges(Db(results, operations, holds, legalHolds), q);
      if apply && changed == Some(true) {
        if q.release {
          holds := holds[q.hold := holds[q.hold].(active := false, release := Some(q.change))];
        } else {
          holds := holds[q.hold := Hold(q.tenant, q.outbox, true, q.change, None)];
        }
      }
    }

    method PurgeBatch(at: Setting, policy: Policy, apply: bool, expected: Option<Plan>) returns (r: Option<Report>)
      modifies this`results
      ensures var outcome := Purge(at, old(View()), policy, apply, expected);
              && (r.Some? <==> outcome.Some?)
              && (r.Some? ==> r.value == outcome.value.1 && View() == outcome.value.0)
              && (r.None? ==> View() == old(View()))
    {
      if !InBounds(policy, at.now) {
        return None;
      }
      var db := Db(results, operations, holds, legalHolds);
      var page := Page(db, policy);
      var f := SurveyPage(JudgeIn(at, db), page);
      if f.None? {
        return None;
      }
      var report := ReportOf(db, policy, page, f.value, apply);
      if apply {
        if expected != Some(report.plan) || !Sealable(at, db, policy, f.value.proposed) {
          return None;
        }
        results := Tombstoned(at, db, policy, f.value.proposed).results;
      }
      return Some(report);
    }

    method SurveyPage(judge: Judgement, page: seq<Id>) returns (f: Option<Findings>)
      ensures f == Survey(judge, page)
    {
      var proposed: seq<Id> := [];
      var held, nonterminal, ambiguous, purged := 0, 0, 0, 0;
      for n := 0 to |page|
        invariant Survey(judge, page[..n]) == Some(Findings(proposed, Skipped(held, nonterminal, ambiguous, purged)))
      {
        var i := page[n];
        assert page[..n + 1][..n] == page[..n];
        var verdict := judge(i);
        if verdict.None? {
          SurveyCounts(judge, page);
          assert i in page;
          return None;
        }
        match verdict.value {
          case Nonterminal => nonterminal := nonterminal + 1;
          case Ambiguous => ambiguous := ambiguous + 1;
          case Held => held := held + 1;
          case AlreadyPurged => purged := purged + 1;
          case Propose => proposed := proposed + [i];
        }
      }
      assert page[..|page|] == page;
      return Some(Findings(proposed, Skipped(held, nonterminal, ambiguous, purged)));
    }
  }
}
