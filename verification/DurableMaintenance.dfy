/**
 Rewrapping one page of stored rows under the active key. A row that is busy
 or does not authenticate fails the whole page.
 */
module DurableMaintenance {
  import opened DurableResults
  import opened JsonValue
  import opened KeysetCursor
  import opened Queue
  import opened ReplayIdentity
  import opened ResultSizes
  import opened Wrappers

  type Rows = map<Id, Row>

  datatype Report = Report(scanned: nat, eligible: nat, updated: nat, nextAfter: Option<Id>, mayHaveMore: bool)

  function Candidates(rows: Rows, kind: Kind, tenant: string): set<Id> {
    set i | i in rows && rows[i].tenant == tenant && rows[i].binding.kind == kind
  }

  /** The column is not under the expected key yet. */
  predicate Stale(row: Row, key: KeyId) {
    !(row.stored.Envelope? && row.stored.kid == key)
  }

  /** The page of rows after a batch has been applied. */
  function Rewrapped(env: Env, rows: Rows, page: seq<Id>, nonce: Id -> Nonce): Rows {
    map i | i in rows ::
      if i in page && Stale(rows[i], env.active) && Rewrap(env, rows[i], nonce(i)).Some?
      then rows[i].(stored := Rewrap(env, rows[i], nonce(i)).value)
      else rows[i]
  }

  function StaleOnes(rows: Rows, page: seq<Id>, key: KeyId): set<Id> {
    set i | i in page && i in rows && Stale(rows[i], key)
  }

  predicate Encodes(env: Env, rows: Rows, page: seq<Id>, nonce: Id -> Nonce) {
    forall i :: i in page ==> i in rows && Rewrap(env, rows[i], nonce(i)).Some?
  }

  /** When a batch goes through. */
  predicate Passes(env: Env, rows: Rows, tenant: string, expected: KeyId, page: seq<Id>, limit: int, busy: set<Id>, nonce: Id -> Nonce) {
    && tenant != "" && 1 <= limit <= 1000 && env.active == expected
    && (forall i :: i in page ==> i !in busy)
    && Encodes(env, rows, page, nonce)
  }

  function ReportOf(rows: Rows, page: seq<Id>, key: KeyId, limit: int, apply: bool): Report {
    var eligible := |StaleOnes(rows, page, key)|;
    Report(|page|, eligible, if apply then eligible else 0,
           if page == [] then None else Some(page[|page| - 1]), |page| == limit)
  }

  lemma PageInRows(rows: Rows, kind: Kind, tenant: string, cursor: int, limit: nat)
    ensures forall i :: i in PageAfter(Candidates(rows, kind, tenant), cursor, limit) ==> i in rows
  {
    PageIs(Candidates(rows, kind, tenant), cursor, limit);
    assert forall i :: i in PageAfter(Candidates(rows, kind, tenant), cursor, limit) ==>
      i in Elements(PageAfter(Candidates(rows, kind, tenant), cursor, limit));
  }

  class Vault {
    var rows: Rows

    method RewrapBatch(env: Env, kind: Kind, tenant: string, expected: KeyId, cursor: int, limit: int, apply: bool,
                       busy: set<Id>, nonce: Id -> Nonce) returns (r: Option<Report>)
      modifies this
      ensures
        var page := PageAfter(Candidates(old(rows), kind, tenant), cursor, if limit > 0 then limit else 0);
        && (r.Some? <==> Passes(env, old(rows), tenant, expected, page, limit, busy, nonce))
        && (r.Some? ==> r.value == ReportOf(old(rows), page, expected, limit, apply))
        && rows == if r.Some? && apply then Rewrapped(env, old(rows), page, nonce) else old(rows)
    {
      if tenant == "" || !(1 <= limit <= 1000) || env.active != expected {
        return None;
      }
      var page := PageAfter(Candidates(rows, kind, tenant), cursor, limit);
      PageInRows(rows, kind, tenant, cursor, limit);
      if i :| i in page && i in busy {
        return None;
      }
      var changes := Encode(env, page, nonce);
      if changes.None? {
        return None;
      }
      var eligible := |changes.value.Keys|;
      r := Some(Report(|page|, eligible, if apply then eligible else 0,
                       if page == [] then None else Some(page[|page| - 1]), |page| == limit));
      if apply {
        Store(env, page, nonce, changes.value);
      }
    }

    method Store(env: Env, page: seq<Id>, nonce: Id -> Nonce, changes: map<Id, Stored>)
      requires Encodes(env, rows, page, nonce) && changes.Keys == StaleOnes(rows, page, env.active)
      requires forall i :: i in changes ==> Some(changes[i]) == Rewrap(env, rows[i], nonce(i))
      modifies this
      ensures rows == Rewrapped(env, old(rows), page, nonce)
    {
      rows := map i | i in rows :: if i in changes then rows[i].(stored := changes[i]) else rows[i];
      forall i | i in old(rows) ensures rows[i] == Rewrapped(env, old(rows), page, nonce)[i] {
        assert i in changes <==> i in page && Stale(old(rows)[i], env.active);
      }
    }

    /** Every row of the page must authenticate; the ones not under the active key are to change. */
    method Encode(env: Env, page: seq<Id>, nonce: Id -> Nonce) returns (changes: Option<map<Id, Stored>>)
      requires forall i :: i in page ==> i in rows
      ensures changes.Some? <==> Encodes(env, rows, page, nonce)
      ensures changes.Some? ==>
        && changes.value.Keys == StaleOnes(rows, page, env.active)
        && forall i :: i in changes.value ==> Some(changes.value[i]) == Rewrap(env, rows[i], nonce(i))
    {
      var found: map<Id, Stored> := map[];
      assert StaleOnes(rows, page[..0], env.active) == {};
      for n := 0 to |page|
        invariant Encodes(env, rows, page[..n], nonce)
        invariant found.Keys == StaleOnes(rows, page[..n], env.active)
        invariant forall i :: i in found ==> Some(found[i]) == Rewrap(env, rows[i], nonce(i))
      {
        var i := page[n];
        var encoded := Rewrap(env, rows[i], nonce(i));
        if encoded.None? {
          assert i in page;
          return None;
        }
        assert page[..n + 1] == page[..n] + [i];
        if Stale(rows[i], env.active) {
          found := found[i := encoded.value];
          assert StaleOnes(rows, page[..n + 1], env.active) == StaleOnes(rows, page[..n], env.active) + {i};
        } else {
          assert StaleOnes(rows, page[..n + 1], env.active) == StaleOnes(rows, page[..n], env.active);
        }
      }
      assert page[..|page|] == page;
      return Some(found);
    }
  }

  // ---------------------------------------------------------------------
  // What rewrapping keeps and what it achieves
  // ---------------------------------------------------------------------

  /** A result that reads longer than a result may be; only redaction makes one. */
  predicate Outgrown(env: Env, row: Row) {
    var document := IntegrationRecord(env, row);
    row.binding.kind == Integration && document.Some? && document.value.Payload? && env.size(document.value.result) > MAX_RESULT_BYTES
  }

  /**
   A rewrapped row reads exactly as before, unless its redacted result is longer
   than a result may be: a legacy row then stops being readable.
   */
  lemma RewrapReads(env: Env, row: Row, nonce: Nonce)
    requires Rewrap(env, row, nonce).Some?
    ensures var after := row.(stored := Rewrap(env, row, nonce).value);
            Reread(env, after) == if Outgrown(env, row) then None else Reread(env, row)
  {
    var plain := Reread(env, row).value;
    if plain.Doc? && plain.document.Payload? {
      var again := plain.document.result;
      assert exists v :: Visit(v, 0) == Some(again) by {
        match Unseal(env, row.stored, row.binding).value
        case Reply(value) => assert Visit(value, 0) == Some(again);
        case Doc(document) => assert Visit(document.result, 0) == Some(again);
      }
      var v :| Visit(v, 0) == Some(again);
      VisitIdempotent(v, 0);
    }
  }

  /** There is such a row: legacy, readable, and no longer readable once rewrapped. */
  lemma RewrapCanLose(keys: map<KeyId, DurableResults.Key>, active: KeyId, row: Row, nonce: Nonce)
    requires active in keys && Bound(row.binding) && row.binding.kind == Integration
    requires row.stored == Legacy(Padded(seq(65519, _ => 'a'), ""))
    ensures var env := Env(keys, active, true, TextSize);
            && Reread(env, row).Some? && Rewrap(env, row, nonce).Some?
            && Reread(env, row.(stored := Rewrap(env, row, nonce).value)) == None
  {
    var env, v := Env(keys, active, true, TextSize), Padded(seq(65519, _ => 'a'), "");
    RedactionOutgrows(keys, active, row.binding, nonce);
    assert "format" !in v.fields;
    assert Rewrap(env, row, nonce) == SealResult(env, v, row.binding, nonce);
    RewrapReads(env, row, nonce);
  }

  predicate AllActive(rows: Rows, ids: set<Id>, key: KeyId) {
    forall i :: i in ids && i in rows ==> !Stale(rows[i], key)
  }

  /** Pages rewrapped one after another. */
  function RewrapPages(env: Env, rows: Rows, pages: seq<seq<Id>>, nonce: Id -> Nonce): Rows
    decreases pages
  {
    if pages == [] then rows else RewrapPages(env, Rewrapped(env, rows, pages[0], nonce), pages[1..], nonce)
  }

  predicate PagesPass(env: Env, rows: Rows, pages: seq<seq<Id>>, nonce: Id -> Nonce)
    decreases pages
  {
    pages == [] ||
    (Encodes(env, rows, pages[0], nonce) && PagesPass(env, Rewrapped(env, rows, pages[0], nonce), pages[1..], nonce))
  }

  lemma RewrapActivates(env: Env, rows: Rows, page: seq<Id>, nonce: Id -> Nonce, done: set<Id>)
    requires Encodes(env, rows, page, nonce) && AllActive(rows, done, env.active)
    ensures AllActive(Rewrapped(env, rows, page, nonce), done + Elements(page), env.active)
  {
    var after := Rewrapped(env, rows, page, nonce);
    forall i | i in done + Elements(page) && i in after ensures !Stale(after[i], env.active) {
      if i in page && Stale(rows[i], env.active) {
        assert Rewrap(env, rows[i], nonce(i)).Some?;
      }
    }
  }

  lemma {:induction false} PagesActivate(env: Env, rows: Rows, pages: seq<seq<Id>>, nonce: Id -> Nonce, done: set<Id>)
    requires PagesPass(env, rows, pages, nonce) && AllActive(rows, done, env.active)
    ensures AllActive(RewrapPages(env, rows, pages, nonce), done + Elements(Flat(pages)), env.active)
    decreases pages
  {
    if pages != [] {
      RewrapActivates(env, rows, pages[0], nonce, done);
      PagesActivate(env, Rewrapped(env, rows, pages[0], nonce), pages[1..], nonce, done + Elements(pages[0]));
      assert Elements(Flat(pages)) == Elements(pages[0]) + Elements(Flat(pages[1..]));
      assert done + Elements(pages[0]) + Elements(Flat(pages[1..])) == done + Elements(Flat(pages));
    }
  }

  /** Following the cursor from before the first row to the end leaves every row of the tenant under the active key. */
  lemma RotationCompletes(env: Env, rows: Rows, kind: Kind, tenant: string, limit: nat, pages: seq<seq<Id>>, nonce: Id -> Nonce)
    requires Paging(Candidates(rows, kind, tenant), -1, limit, pages) && PagesPass(env, rows, pages, nonce)
    ensures AllActive(RewrapPages(env, rows, pages, nonce), Candidates(rows, kind, tenant), env.active)
  {
    EveryRowOnce(Candidates(rows, kind, tenant), -1, limit, pages);
    PagesActivate(env, rows, pages, nonce, {});
    assert Beyond(Candidates(rows, kind, tenant), -1) == Candidates(rows, kind, tenant);
    assert {} + Elements(Flat(pages)) == Elements(Flat(pages));
  }
}
