/** What the report of a rewrapping batch means, and which rows a rotation reaches. */
module RotationReport {
  import opened DurableMaintenance
  import opened DurableResults
  import opened KeysetCursor
  import opened Queue
  import opened Wrappers

  predicate Of(row: Row, kind: Kind, tenant: string) {
    row.tenant == tenant && row.binding.kind == kind
  }

  predicate Under(row: Row, key: KeyId) {
    row.stored.Envelope? && row.stored.kid == key
  }

  function Changed(before: Rows, after: Rows): set<Id> {
    set i | i in before && i in after && after[i] != before[i]
  }

  /**
   A batch that passes, applied: exactly the rows of the page that were not under
   the active key change, each to be under it and in nothing but its stored
   column; a dry run counts them beforehand.
   */
  lemma EligibleIsWhatChanges(env: Env, rows: Rows, page: seq<Id>, nonce: Id -> Nonce, limit: int, i: Id)
    requires Encodes(env, rows, page, nonce)
    ensures var after := Rewrapped(env, rows, page, nonce);
            && after.Keys == rows.Keys
            && ReportOf(rows, page, env.active, limit, false).eligible == |Changed(rows, after)|
            && ReportOf(rows, page, env.active, limit, false).updated == 0
            && ReportOf(rows, page, env.active, limit, true).updated == |Changed(rows, after)|
            && ReportOf(rows, page, env.active, limit, true).scanned == |page|
            && (i in rows ==>
                  && (after[i] != rows[i] <==> i in page && !Under(rows[i], env.active))
                  && (i in page ==> Under(after[i], env.active))
                  && after[i] == rows[i].(stored := after[i].stored))
  {
    var after := Rewrapped(env, rows, page, nonce);
    forall j ensures j in Changed(rows, after) <==> j in StaleOnes(rows, page, env.active) {
    }
    assert Changed(rows, after) == StaleOnes(rows, page, env.active);
  }

  /** The page is of its own tenant and kind, and where the report says there is no more, every such row beyond the cursor is in it. */
  lemma NoMoreMeansAll(rows: Rows, kind: Kind, tenant: string, cursor: int, limit: nat, key: KeyId, i: Id)
    requires 1 <= limit && i in rows
    ensures var page := PageAfter(Candidates(rows, kind, tenant), cursor, limit);
            var report := ReportOf(rows, page, key, limit, true);
            && (i in page ==> Of(rows[i], kind, tenant) && i > cursor)
            && (Of(rows[i], kind, tenant) && i > cursor && i !in page ==>
                  report.mayHaveMore && report.nextAfter.Some? && report.nextAfter.value < i)
  {
    PageIs(Candidates(rows, kind, tenant), cursor, limit);
    var page := PageAfter(Candidates(rows, kind, tenant), cursor, limit);
    assert i in page ==> i in Elements(page);
    if Of(rows[i], kind, tenant) && i > cursor && i !in page {
      assert i in Beyond(Candidates(rows, kind, tenant), cursor) && i !in Elements(page);
      assert i in Beyond(Candidates(rows, kind, tenant), page[|page| - 1]);
    }
  }

  /** Followed to the end, a rotation puts every row of the tenant and kind under the active key, and touches no other row. */
  lemma RotationReaches(env: Env, rows: Rows, kind: Kind, tenant: string, limit: nat, pages: seq<seq<Id>>, nonce: Id -> Nonce, i: Id)
    requires Paging(Candidates(rows, kind, tenant), -1, limit, pages) && PagesPass(env, rows, pages, nonce) && i in rows
    ensures var after := RewrapPages(env, rows, pages, nonce);
            && i in after
            && (Of(rows[i], kind, tenant) ==> Under(after[i], env.active) && Of(after[i], kind, tenant))
            && (!Of(rows[i], kind, tenant) ==> after[i] == rows[i])
  {
    RotationCompletes(env, rows, kind, tenant, limit, pages, nonce);
    EveryRowOnce(Candidates(rows, kind, tenant), -1, limit, pages);
    PagesTouch(env, rows, pages, nonce, i);
    assert i in Elements(Flat(pages)) ==> i in Candidates(rows, kind, tenant);
  }

  lemma {:induction false} PagesTouch(env: Env, rows: Rows, pages: seq<seq<Id>>, nonce: Id -> Nonce, i: Id)
    requires i in rows
    ensures var after := RewrapPages(env, rows, pages, nonce);
            i in after && after[i] == rows[i].(stored := after[i].stored) && (i !in Flat(pages) ==> after[i] == rows[i])
    decreases pages
  {
    if pages != [] {
      PagesTouch(env, Rewrapped(env, rows, pages[0], nonce), pages[1..], nonce, i);
    }
  }

  /** A batch is refused as a whole exactly when it names no tenant, no sensible limit or another key, or some row of the page is busy or does not read. */
  lemma RefusedIff(env: Env, rows: Rows, tenant: string, expected: KeyId, page: seq<Id>, limit: int, busy: set<Id>, nonce: Id -> Nonce)
    requires env.active in env.keys && forall i :: i in page ==> i in rows && rows[i].binding.kind == Control
    ensures Passes(env, rows, tenant, expected, page, limit, busy, nonce) <==>
      && tenant != "" && 1 <= limit <= 1000 && expected == env.active
      && forall i :: i in page ==> i !in busy && StillReads(env, rows[i])
  {
  }

  /** A control response that opens and may be sealed again. */
  predicate StillReads(env: Env, row: Row) {
    var plain := Unseal(env, row.stored, row.binding);
    plain.Some? && plain.value.Reply? && plain.value.value.Record? && env.size(plain.value.value) <= MAX_DOCUMENT_BYTES
  }
}
