/**
 The business-event outbox: immutable events, leased one attempt at a time to
 workers that may be slow or gone, completed under a fence of owner, attempt
 and deadline. A digest stands for the text it was taken of.
 */
module BusinessEvents {
  import opened Numbers
  import opened Wrappers

  type Id = nat
  type Owner = nat

  datatype Digest = Digest(of: string)

  datatype State = Pending | Leased | Retrying | Delivered | DeadLetter

  datatype Row = Row(
    eventId: string, tenant: string, payload: string, hash: Digest, state: State, attempts: nat,
    nextAttempt: int, owner: Option<Owner>, expires: Option<int>, delivered: Option<int>, error: Option<string>)

  /** What a worker holds: a copy of the row's fixed parts and of its fence. */
  datatype Lease = Lease(
    row: Id, eventId: string, tenant: string, payload: string, hash: Digest, attempt: nat, owner: Owner, expires: int)

  datatype Outcome = Outcome(accepted: bool, retryable: bool, error: Option<string>)

  type Table = map<Id, Row>

  // ---------------------------------------------------------------------
  // Enqueueing
  // ---------------------------------------------------------------------

  function Existing(rows: Table, eventId: string): set<Id> {
    set i | i in rows && rows[i].eventId == eventId
  }

  function NewRow(eventId: string, tenant: string, payload: string, now: int): Row {
    Row(eventId, tenant, payload, Digest(payload), Pending, 0, now, None, None, None, None)
  }

  /** None where the event id is taken by another payload. */
  function Enqueue(rows: Table, i: Id, eventId: string, tenant: string, payload: string, now: int): Option<Table> {
    if Existing(rows, eventId) == {} then (if i in rows then None else Some(rows[i := NewRow(eventId, tenant, payload, now)]))
    else if forall j :: j in Existing(rows, eventId) ==> rows[j].hash == Digest(payload) && rows[j].payload == payload
    then Some(rows)
    else None
  }

  // ---------------------------------------------------------------------
  // Claiming
  // ---------------------------------------------------------------------

  predicate LeaseOver(row: Row, now: int) {
    row.state == Leased && row.expires.Some? && row.expires.value < now
  }

  function Expired(row: Row, now: int, maxAttempts: nat): Row {
    row.(state := if row.attempts >= maxAttempts then DeadLetter else Retrying, nextAttempt := now,
         owner := None, expires := None, error := Some("business_event_lease_expired"))
  }

  predicate Ready(row: Row, now: int) {
    row.state in {Pending, Retrying} && row.nextAttempt <= now
  }

  function Claimed(row: Row, owner: Owner, now: int, leaseSeconds: nat): Row {
    row.(state := Leased, attempts := row.attempts + 1, owner := Some(owner), expires := Some(now + leaseSeconds))
  }

  function LeaseFor(i: Id, row: Row, owner: Owner, now: int, leaseSeconds: nat): Lease {
    Lease(i, row.eventId, row.tenant, row.payload, row.hash, row.attempts + 1, owner, now + leaseSeconds)
  }

  function ExpireAll(rows: Table, ids: set<Id>, now: int, maxAttempts: nat): Table {
    map i | i in rows :: if i in ids then Expired(rows[i], now, maxAttempts) else rows[i]
  }

  function ClaimAll(rows: Table, ids: set<Id>, owner: Id -> Owner, now: int, leaseSeconds: nat): Table {
    map i | i in rows :: if i in ids then Claimed(rows[i], owner(i), now, leaseSeconds) else rows[i]
  }

  // ---------------------------------------------------------------------
  // Completing and replaying
  // ---------------------------------------------------------------------

  /** The lease is the row's, to the last column, and not over. */
  predicate Fenced(rows: Table, lease: Lease, now: int) {
    && lease.row in rows
    && var row := rows[lease.row];
    && row.state == Leased && row.owner == Some(lease.owner) && row.attempts == lease.attempt
    && row.expires == Some(lease.expires) && lease.expires > now
  }

  function Completed(row: Row, outcome: Outcome, now: int, delay: int, maxAttempts: nat): Row {
    var free := row.(owner := None, expires := None);
    if outcome.accepted then free.(state := Delivered, delivered := Some(now), error := None)
    else if outcome.retryable && row.attempts < maxAttempts then
      free.(state := Retrying, nextAttempt := now + delay, error := outcome.error)
    else free.(state := DeadLetter, nextAttempt := now,
               error := if outcome.error.Some? && outcome.error.value != "" then outcome.error else Some("middleware_delivery_failed"))
  }

  function Complete(rows: Table, lease: Lease, outcome: Outcome, now: int, delay: int, maxAttempts: nat): Table {
    if Fenced(rows, lease, now) then
      rows[lease.row := Completed(rows[lease.row], outcome, now, delay, maxAttempts)]
    else rows
  }

  /** A dead letter whose payload is still the one its digest was taken of. */
  predicate Intact(rows: Table, i: Id) {
    i in rows && rows[i].state == DeadLetter && rows[i].hash == Digest(rows[i].payload)
  }

  /** The row of an event, for the tenant if one is given. */
  predicate IsEvent(rows: Table, i: Id, eventId: string, tenant: Option<string>) {
    i in rows && rows[i].eventId == eventId && (tenant.Some? ==> rows[i].tenant == tenant.value)
  }

  /** `valid`: whether a payload passes the envelope's validation. */
  predicate Replayable(rows: Table, i: Id, eventId: string, tenant: Option<string>, valid: string -> bool) {
    IsEvent(rows, i, eventId, tenant) && Intact(rows, i) && valid(rows[i].payload)
  }

  function Replayed(row: Row, now: int): Row {
    row.(state := Retrying, attempts := 0, nextAttempt := now, owner := None, expires := None, delivered := None, error := None)
  }

  // ---------------------------------------------------------------------
  // The retry delay
  // ---------------------------------------------------------------------

  function Least(a: real, b: real): real { if a <= b then a else b }

  function Most(a: real, b: real): real { if a >= b then a else b }

  function Exponential(base: nat, cap: nat, attempts: nat): (r: real)
    requires 1 <= base <= cap
    ensures 1.0 <= r <= cap as real
  {
    var exponent := if attempts >= 1 then attempts - 1 else 0;
    Pow2Positive(exponent);
    Product(base, Pow2(exponent));
    Least(cap as real, (base * Pow2(exponent)) as real)
  }

  lemma Product(a: nat, b: nat)
    requires 1 <= a && 1 <= b
    ensures a * b >= 1
  {
  }

  /** `jitter` is the random factor, between 0.8 and 1.2. */
  function Backoff(base: nat, cap: nat, attempts: nat, jitter: real, retryAfter: Option<real>): real
    requires 1 <= base <= cap
  {
    Most(Least(cap as real, Exponential(base, cap, attempts) * jitter), if retryAfter.Some? then retryAfter.value else 0.0)
  }

  /** Never sooner than the server asked, never later than the cap unless it asked for later, and always in the future. */
  lemma BackoffBounds(base: nat, cap: nat, attempts: nat, jitter: real, retryAfter: Option<real>)
    requires 1 <= base <= cap && 0.8 <= jitter <= 1.2 && (retryAfter.Some? ==> 0.0 <= retryAfter.value <= 86400.0)
    ensures var asked := if retryAfter.Some? then retryAfter.value else 0.0;
            var delay := Backoff(base, cap, attempts, jitter, retryAfter);
            asked <= delay <= Most(cap as real, asked) && delay >= 0.8
  {
    var exponential := Exponential(base, cap, attempts);
    Scaled(exponential, jitter);
  }

  /** Before jitter the delay starts at the base and doubles with every attempt, up to the cap. */
  lemma BackoffDoubles(base: nat, cap: nat, attempts: nat, jitter: real)
    requires 1 <= base <= cap && 0.8 <= jitter <= 1.2
    ensures Exponential(base, cap, 0) == Exponential(base, cap, 1) == base as real
    ensures attempts >= 1 ==>
      Exponential(base, cap, attempts + 1) ==
        if 2.0 * Exponential(base, cap, attempts) <= cap as real then 2.0 * Exponential(base, cap, attempts) else cap as real
    ensures var scattered := Exponential(base, cap, attempts) * jitter;
            Backoff(base, cap, attempts, jitter, None) == if scattered <= cap as real then scattered else cap as real
  {
    if attempts >= 1 {
      Pow2Positive(attempts - 1);
      assert base * Pow2(attempts) == 2 * (base * Pow2(attempts - 1));
    }
    Scaled(Exponential(base, cap, attempts), jitter);
  }

  /** The server's wish counts in full where it is longer, and not at all where it is shorter. */
  lemma BackoffAsksServer(base: nat, cap: nat, attempts: nat, jitter: real, asked: real)
    requires 1 <= base <= cap && 0.8 <= jitter <= 1.2 && 0.0 <= asked
    ensures var own := Backoff(base, cap, attempts, jitter, None);
            Backoff(base, cap, attempts, jitter, Some(asked)) == if asked > own then asked else own
  {
    Scaled(Exponential(base, cap, attempts), jitter);
  }

  lemma Scaled(x: real, jitter: real)
    requires x >= 1.0 && jitter >= 0.8
    ensures x * jitter >= 0.8
  {
    assert x * jitter >= 1.0 * jitter;
  }

  // ---------------------------------------------------------------------
  // The table, updated in place
  // ---------------------------------------------------------------------

  class EventOutbox {
    var rows: Table

    constructor ()
      ensures rows == map[]
    {
      rows := map[];
    }

    method EnqueueEvent(i: Id, eventId: string, tenant: string, payload: string, now: int) returns (ok: bool)
      modifies this
      ensures ok <==> Enqueue(old(rows), i, eventId, tenant, payload, now).Some?
      ensures rows == if ok then Enqueue(old(rows), i, eventId, tenant, payload, now).value else old(rows)
    {
      var existing := Existing(rows, eventId);
      if existing != {} {
        return forall j :: j in existing ==> rows[j].hash == Digest(payload) && rows[j].payload == payload;
      }
      if i in rows {
        return false;
      }
      rows := rows[i := NewRow(eventId, tenant, payload, now)];
      return true;
    }

    /** `over` and `ready` are the rows the two queries return. */
    method Claim(over: seq<Id>, ready: seq<Id>, owner: Id -> Owner, now: int, leaseSeconds: nat, maxAttempts: nat)
      returns (leases: seq<Lease>)
      requires forall i :: i in over ==> i in rows && LeaseOver(rows[i], now)
      requires forall i :: i in ready ==> i in rows
      requires forall j, k :: 0 <= j < k < |over| ==> over[j] != over[k]
      requires forall j, k :: 0 <= j < k < |ready| ==> ready[j] != ready[k]
      modifies this
      ensures var mid := ExpireAll(old(rows), (set i | i in over), now, maxAttempts);
              && rows == ClaimAll(mid, (set i | i in ready), owner, now, leaseSeconds)
              && |leases| == |ready|
              && forall k :: 0 <= k < |ready| ==> leases[k] == LeaseFor(ready[k], mid[ready[k]], owner(ready[k]), now, leaseSeconds)
    {
      for n := 0 to |over|
        invariant rows == ExpireAll(old(rows), (set i | i in over[..n]), now, maxAttempts)
      {
        var item := rows[over[n]];
        assert over[n] !in over[..n];
        item := item.(state := if item.attempts >= maxAttempts then DeadLetter else Retrying, nextAttempt := now,
                      owner := None, expires := None, error := Some("business_event_lease_expired"));
        rows := rows[over[n] := item];
        assert over[..n + 1] == over[..n] + [over[n]];
      }
      assert over[..|over|] == over;
      leases := ClaimReady(ready, owner, now, leaseSeconds);
    }

    method ClaimReady(ready: seq<Id>, owner: Id -> Owner, now: int, leaseSeconds: nat) returns (leases: seq<Lease>)
      requires forall i :: i in ready ==> i in rows
      requires forall j, k :: 0 <= j < k < |ready| ==> ready[j] != ready[k]
      modifies this
      ensures rows == ClaimAll(old(rows), (set i | i in ready), owner, now, leaseSeconds)
      ensures |leases| == |ready|
      ensures forall k :: 0 <= k < |ready| ==>
        leases[k] == LeaseFor(ready[k], old(rows)[ready[k]], owner(ready[k]), now, leaseSeconds)
    {
      leases := [];
      for n := 0 to |ready|
        invariant rows == ClaimAll(old(rows), (set i | i in ready[..n]), owner, now, leaseSeconds)
        invariant |leases| == n
        invariant forall k :: 0 <= k < n ==>
          leases[k] == LeaseFor(ready[k], old(rows)[ready[k]], owner(ready[k]), now, leaseSeconds)
      {
        var i := ready[n];
        assert i !in ready[..n];
        var item := rows[i].(state := Leased, attempts := rows[i].attempts + 1, owner := Some(owner(i)),
                             expires := Some(now + leaseSeconds));
        rows := rows[i := item];
        leases := leases + [Lease(i, item.eventId, item.tenant, item.payload, item.hash, item.attempts, owner(i), now + leaseSeconds)];
        assert ready[..n + 1] == ready[..n] + [i];
      }
      assert ready[..|ready|] == ready;
    }

    method CompleteLease(lease: Lease, outcome: Outcome, now: int, delay: int, maxAttempts: nat) returns (delivered: bool)
      modifies this
      ensures rows == Complete(old(rows), lease, outcome, now, delay, maxAttempts)
      ensures delivered <==> Fenced(old(rows), lease, now) && outcome.accepted
    {
      if lease.row !in rows {
        return false;
      }
      var item := rows[lease.row];
      if !(item.state == Leased && item.owner == Some(lease.owner) && item.attempts == lease.attempt
           && item.expires == Some(lease.expires) && lease.expires > now) {
        return false;
      }
      item := item.(owner := None, expires := None);
      if outcome.accepted {
        item := item.(state := Delivered, delivered := Some(now), error := None);
      } else if outcome.retryable && item.attempts < maxAttempts {
        item := item.(state := Retrying, nextAttempt := now + delay, error := outcome.error);
      } else {
        var reason := if outcome.error.Some? && outcome.error.value != "" then outcome.error else Some("middleware_delivery_failed");
        item := item.(state := DeadLetter, nextAttempt := now, error := reason);
      }
      rows := rows[lease.row := item];
      return outcome.accepted;
    }

    method ReplayDeadLetter(eventId: string, tenant: Option<string>, valid: string -> bool, now: int) returns (replayed: Option<Id>)
      requires forall i, j :: i in rows && j in rows && rows[i].eventId == rows[j].eventId ==> i == j
      modifies this
      ensures replayed.Some? <==> exists i :: i in old(rows) && Replayable(old(rows), i, eventId, tenant, valid)
      ensures replayed.Some? ==>
        && Replayable(old(rows), replayed.value, eventId, tenant, valid)
        && rows == old(rows)[replayed.value := Replayed(old(rows)[replayed.value], now)]
      ensures replayed.None? ==> rows == old(rows)
    {
      var found := set i | i in rows && IsEvent(rows, i, eventId, tenant);
      assert forall i :: i in rows && IsEvent(rows, i, eventId, tenant) ==> i in found;
      if found == {} {
        return None;
      }
      var i :| i in found;
      assert forall j :: j in found ==> j == i;
      if rows[i].state != DeadLetter || rows[i].hash != Digest(rows[i].payload) || !valid(rows[i].payload) {
        return None;
      }
      rows := rows[i := rows[i].(state := Retrying, attempts := 0, nextAttempt := now, owner := None, expires := None,
                                 delivered := None, error := None)];
      return Some(i);
    }
  }
}
