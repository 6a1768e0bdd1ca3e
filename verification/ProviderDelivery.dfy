/**
 Delivery of provider events and usage: a row under delivery is fenced by the
 time it was claimed. Events keep that time in `updated`; usage rows keep the
 deadline, five minutes later, in `available`. Times are in microseconds.
 */
module ProviderDelivery {
  import opened Numbers
  import opened Wrappers

  type Id = nat

  const SECOND := 1_000_000
  const LEASE := 300 * SECOND
  const MAX_ATTEMPTS := 8

  datatype Queue = Events | Usage

  datatype State = Waiting | Processing | Retry | Delivered | DeadLetter | Skipped

  datatype Row = Row(state: State, attempts: nat, available: int, updated: int, error: Option<string>)

  type Table = map<Id, Row>

  /** The column that holds the claim, and what a claim made at `now` writes there. */
  function Token(q: Queue, row: Row): int {
    if q.Events? then row.updated else row.available
  }

  function ClaimToken(q: Queue, now: int): int {
    if q.Events? then now else now + LEASE
  }

  predicate Stale(q: Queue, row: Row, now: int) {
    row.state == Processing && Token(q, row) < if q.Events? then now - LEASE else now
  }

  function Recovered(row: Row, now: int): Row {
    row.(state := Retry, available := now, error := Some("delivery_lease_expired"))
  }

  predicate Ready(row: Row, now: int) {
    row.state in {Waiting, Retry} && row.available <= now
  }

  function Claimed(q: Queue, row: Row, now: int): Row {
    if q.Events? then row.(state := Processing, updated := now)
    else row.(state := Processing, available := now + LEASE)
  }

  predicate Owned(q: Queue, rows: Table, i: Id, claimedAt: int) {
    i in rows && rows[i].state == Processing && Token(q, rows[i]) == ClaimToken(q, claimedAt)
  }

  /** `now` is read when the row is found, `later` when the retry is scheduled. */
  function Completed(q: Queue, row: Row, ok: bool, error: string, now: int, later: int): Row {
    var counted := row.(attempts := row.attempts + 1, error := if ok then None else Some(error),
                        updated := if q.Events? then now else row.updated);
    if ok then counted.(state := Delivered)
    else counted.(state := if counted.attempts >= MAX_ATTEMPTS then DeadLetter else Retry,
                  available := later + Min(900, Pow2(Min(counted.attempts, 10))) * SECOND)
  }

  function Complete(q: Queue, rows: Table, i: Id, claimedAt: int, ok: bool, error: string, now: int, later: int): Table {
    if Owned(q, rows, i, claimedAt) then rows[i := Completed(q, rows[i], ok, error, now, later)] else rows
  }

  /** The reconciliation of dead letters: requeued with a fresh count, or skipped. */
  function Requeued(row: Row, now: int): Row {
    row.(state := Retry, attempts := 0, available := now, error := None)
  }

  function RecoverAll(rows: Table, ids: set<Id>, now: int): Table {
    map i | i in rows :: if i in ids then Recovered(rows[i], now) else rows[i]
  }

  function ClaimAll(q: Queue, rows: Table, ids: set<Id>, now: int): Table {
    map i | i in rows :: if i in ids then Claimed(q, rows[i], now) else rows[i]
  }

  class Deliveries {
    const queue: Queue
    var rows: Table

    constructor (queue: Queue)
      ensures this.queue == queue && rows == map[]
    {
      this.queue := queue;
      rows := map[];
    }

    /** `stale` and `ready` are the rows the two queries return. */
    method ClaimBatch(stale: seq<Id>, ready: seq<Id>, now: int)
      requires forall i :: i in stale ==> i in rows && Stale(queue, rows[i], now)
      requires forall i :: i in ready ==> i in rows
      requires forall j, k :: 0 <= j < k < |stale| ==> stale[j] != stale[k]
      requires forall j, k :: 0 <= j < k < |ready| ==> ready[j] != ready[k]
      modifies this
      ensures rows == ClaimAll(queue, RecoverAll(old(rows), (set i | i in stale), now), (set i | i in ready), now)
    {
      for n := 0 to |stale|
        invariant rows == RecoverAll(old(rows), (set i | i in stale[..n]), now)
      {
        assert stale[n] !in stale[..n] && stale[..n + 1] == stale[..n] + [stale[n]];
        rows := rows[stale[n] := rows[stale[n]].(state := Retry, available := now, error := Some("delivery_lease_expired"))];
      }
      assert stale[..|stale|] == stale;
      ghost var recovered := rows;
      for n := 0 to |ready|
        invariant rows == ClaimAll(queue, recovered, (set i | i in ready[..n]), now)
      {
        var i := ready[n];
        assert i !in ready[..n] && ready[..n + 1] == ready[..n] + [i];
        if queue.Events? {
          rows := rows[i := rows[i].(state := Processing, updated := now)];
        } else {
          rows := rows[i := rows[i].(state := Processing, available := now + LEASE)];
        }
      }
      assert ready[..|ready|] == ready;
    }

    method CompleteDelivery(i: Id, claimedAt: int, ok: bool, error: string, now: int, later: int) returns (counted: bool)
      modifies this
      ensures counted <==> Owned(queue, old(rows), i, claimedAt)
      ensures rows == Complete(queue, old(rows), i, claimedAt, ok, error, now, later)
    {
      var claim := if queue.Events? then claimedAt else claimedAt + LEASE;
      if i !in rows || rows[i].state != Processing || (if queue.Events? then rows[i].updated else rows[i].available) != claim {
        return false;
      }
      var item := rows[i].(attempts := rows[i].attempts + 1, error := if ok then None else Some(error));
      if queue.Events? {
        item := item.(updated := now);
      }
      if ok {
        item := item.(state := Delivered);
      } else {
        item := item.(state := if item.attempts >= MAX_ATTEMPTS then DeadLetter else Retry);
        item := item.(available := later + Min(900, Pow2(Min(item.attempts, 10))) * SECOND);
      }
      rows := rows[i := item];
      return true;
    }
  }
}
