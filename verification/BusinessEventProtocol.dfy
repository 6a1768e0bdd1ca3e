/**
 The business-event outbox over whole runs: any worker may be slow or gone,
 and any lease it was ever given may still be presented.
 */
module BusinessEventProtocol {
  import opened BusinessEvents
  import opened Wrappers

  datatype World = World(rows: Table, leases: set<Lease>)

  /** A transaction over many rows is a run of these steps. */
  datatype Step =
    | DoEnqueue(i: Id, eventId: string, tenant: string, payload: string, now: int)
    | DoExpire(i: Id, now: int)
    | DoClaim(i: Id, owner: Owner, now: int, leaseSeconds: nat)
    | DoComplete(lease: Lease, outcome: Outcome, now: int, delay: int)
    | DoReplay(i: Id, now: int)

  ghost predicate Enabled(w: World, s: Step) {
    match s
    case DoEnqueue(i, eventId, tenant, payload, now) => Enqueue(w.rows, i, eventId, tenant, payload, now).Some?
    case DoExpire(i, now) => i in w.rows && LeaseOver(w.rows[i], now)
    case DoClaim(i, owner, now, _) =>
      i in w.rows && Ready(w.rows[i], now) && forall l :: l in w.leases ==> l.owner != owner
    case DoComplete(lease, _, _, _) => lease in w.leases
    case DoReplay(i, _) => Intact(w.rows, i)
  }

  ghost function Do(w: World, s: Step, maxAttempts: nat): World
    requires Enabled(w, s)
  {
    match s
    case DoEnqueue(i, eventId, tenant, payload, now) => w.(rows := Enqueue(w.rows, i, eventId, tenant, payload, now).value)
    case DoExpire(i, now) => w.(rows := w.rows[i := Expired(w.rows[i], now, maxAttempts)])
    case DoClaim(i, owner, now, leaseSeconds) =>
      World(w.rows[i := Claimed(w.rows[i], owner, now, leaseSeconds)],
            w.leases + {LeaseFor(i, w.rows[i], owner, now, leaseSeconds)})
    case DoComplete(lease, outcome, now, delay) => w.(rows := Complete(w.rows, lease, outcome, now, delay, maxAttempts))
    case DoReplay(i, now) => w.(rows := w.rows[i := Replayed(w.rows[i], now)])
  }

  ghost predicate Valid(w: World, run: seq<Step>, maxAttempts: nat)
    decreases run
  {
    run == [] || (Enabled(w, run[0]) && Valid(Do(w, run[0], maxAttempts), run[1..], maxAttempts))
  }

  ghost function RunAll(w: World, run: seq<Step>, maxAttempts: nat): World
    requires Valid(w, run, maxAttempts)
    decreases run
  {
    if run == [] then w else RunAll(Do(w, run[0], maxAttempts), run[1..], maxAttempts)
  }

  // ---------------------------------------------------------------------
  // The invariant
  // ---------------------------------------------------------------------

  function FenceOf(i: Id, row: Row): Lease
    requires row.owner.Some? && row.expires.Some?
  {
    Lease(i, row.eventId, row.tenant, row.payload, row.hash, row.attempts, row.owner.value, row.expires.value)
  }

  predicate RowOk(w: World, i: Id, maxAttempts: nat) {
    i in w.rows ==>
      var row := w.rows[i];
      && row.hash == Digest(row.payload) && row.attempts <= maxAttempts
      && (row.state in {Pending, Retrying} ==> row.attempts < maxAttempts)
      && (row.state == Leased <==> row.owner.Some?) && (row.state == Leased <==> row.expires.Some?)
      && (row.state == Leased ==> FenceOf(i, row) in w.leases)
  }

  predicate Unique(w: World, i: Id, j: Id) {
    i in w.rows && j in w.rows && w.rows[i].eventId == w.rows[j].eventId ==> i == j
  }

  /** A lease carries the bytes, the digest and the key of its row. */
  predicate LeaseOk(w: World, l: Lease) {
    l in w.leases ==>
      && l.row in w.rows
      && var row := w.rows[l.row];
      && l.eventId == row.eventId && l.tenant == row.tenant && l.payload == row.payload && l.hash == row.hash
  }

  predicate Apart(w: World, l: Lease, m: Lease) {
    l in w.leases && m in w.leases && l.owner == m.owner ==> l == m
  }

  ghost predicate Inv(w: World, maxAttempts: nat) {
    && (forall i :: RowOk(w, i, maxAttempts)) && (forall i, j :: Unique(w, i, j))
    && (forall l :: LeaseOk(w, l)) && (forall l, m :: Apart(w, l, m))
  }

  lemma StartInv(maxAttempts: nat)
    ensures Inv(World(map[], {}), maxAttempts)
  {
  }

  lemma StepInv(w: World, s: Step, maxAttempts: nat)
    requires Inv(w, maxAttempts) && Enabled(w, s) && 1 <= maxAttempts
    ensures Inv(Do(w, s, maxAttempts), maxAttempts)
  {
    var v := Do(w, s, maxAttempts);
    forall i ensures RowOk(v, i, maxAttempts) {
      assert RowOk(w, i, maxAttempts);
    }
    forall i, j ensures Unique(v, i, j) {
      assert Unique(w, i, j);
      if s.DoEnqueue? {
        assert i in w.rows && w.rows[i].eventId == s.eventId ==> i in Existing(w.rows, s.eventId);
        assert j in w.rows && w.rows[j].eventId == s.eventId ==> j in Existing(w.rows, s.eventId);
      }
    }
    forall l ensures LeaseOk(v, l) {
      assert LeaseOk(w, l);
    }
    forall l, m ensures Apart(v, l, m) {
      assert Apart(w, l, m);
    }
  }

  lemma {:induction false} RunInv(w: World, run: seq<Step>, maxAttempts: nat)
    requires Inv(w, maxAttempts) && Valid(w, run, maxAttempts) && 1 <= maxAttempts
    ensures Inv(RunAll(w, run, maxAttempts), maxAttempts)
    decreases run
  {
    if run != [] {
      StepInv(w, run[0], maxAttempts);
      RunInv(Do(w, run[0], maxAttempts), run[1..], maxAttempts);
    }
  }

  // ---------------------------------------------------------------------
  // Fencing
  // ---------------------------------------------------------------------

  /** The lease is still its row's. */
  predicate Current(w: World, l: Lease) {
    l.row in w.rows && w.rows[l.row].state == Leased && w.rows[l.row].owner == Some(l.owner)
  }

  /** A lease lost to a completion, an expiry or another claim is lost for good. */
  lemma LostStep(w: World, s: Step, l: Lease, maxAttempts: nat)
    requires Inv(w, maxAttempts) && Enabled(w, s) && l in w.leases && !Current(w, l)
    ensures l in Do(w, s, maxAttempts).leases && !Current(Do(w, s, maxAttempts), l)
  {
    assert LeaseOk(w, l) && RowOk(w, l.row, maxAttempts);
  }

  predicate Effective(w: World, s: Step, l: Lease) {
    s.DoComplete? && s.lease == l && Fenced(w.rows, l, s.now)
  }

  /** How often completing the lease had an effect. */
  ghost function Effects(w: World, run: seq<Step>, l: Lease, maxAttempts: nat): nat
    requires Valid(w, run, maxAttempts)
    decreases run
  {
    if run == [] then 0
    else (if Effective(w, run[0], l) then 1 else 0) + Effects(Do(w, run[0], maxAttempts), run[1..], l, maxAttempts)
  }

  /** Every lease is completed effectively at most once, and never after it was lost. */
  lemma {:induction false} AtMostOneEffect(w: World, run: seq<Step>, l: Lease, maxAttempts: nat)
    requires Inv(w, maxAttempts) && Valid(w, run, maxAttempts) && 1 <= maxAttempts && l in w.leases
    ensures Effects(w, run, l, maxAttempts) <= if Current(w, l) then 1 else 0
    decreases run
  {
    if run != [] {
      StepInv(w, run[0], maxAttempts);
      if !Current(w, l) {
        LostStep(w, run[0], l, maxAttempts);
      }
      var v := Do(w, run[0], maxAttempts);
      assert l in v.leases;
      AtMostOneEffect(v, run[1..], l, maxAttempts);
    }
  }

  /** What an effective completion does, and that an ineffective one does nothing: late, foreign or repeated. */
  lemma CompletionIsFenced(w: World, l: Lease, outcome: Outcome, now: int, delay: int, maxAttempts: nat)
    requires Inv(w, maxAttempts) && l in w.leases
    ensures var v := Do(w, DoComplete(l, outcome, now, delay), maxAttempts);
            && (!Current(w, l) || now >= l.expires ==> v == w)
            && (v != w ==> l.row in v.rows && l.row in w.rows && v.rows == w.rows[l.row := v.rows[l.row]]
                           && v.rows[l.row].attempts == w.rows[l.row].attempts
                           && v.rows[l.row].state == if outcome.accepted then Delivered
                                                     else if outcome.retryable && l.attempt < maxAttempts then Retrying else DeadLetter)
  {
    assert LeaseOk(w, l) && RowOk(w, l.row, maxAttempts);
  }

  // ---------------------------------------------------------------------
  // What never changes
  // ---------------------------------------------------------------------

  predicate SameEvent(a: Row, b: Row) {
    a.eventId == b.eventId && a.tenant == b.tenant && a.payload == b.payload && a.hash == b.hash
  }

  /** The event id, the tenant, the payload and its digest never change; a delivered row never changes at all. */
  lemma {:induction false} EventsAreImmutable(w: World, run: seq<Step>, i: Id, maxAttempts: nat)
    requires Inv(w, maxAttempts) && Valid(w, run, maxAttempts) && 1 <= maxAttempts && i in w.rows
    ensures var v := RunAll(w, run, maxAttempts);
            && i in v.rows && SameEvent(v.rows[i], w.rows[i])
            && (w.rows[i].state == Delivered ==> v.rows[i] == w.rows[i])
    decreases run
  {
    if run != [] {
      StepInv(w, run[0], maxAttempts);
      var v := Do(w, run[0], maxAttempts);
      assert i in v.rows && SameEvent(v.rows[i], w.rows[i]);
      assert w.rows[i].state == Delivered ==> v.rows[i] == w.rows[i];
      EventsAreImmutable(v, run[1..], i, maxAttempts);
    }
  }

  /** Every two leases of a row carry the same bytes under the same key, and the bytes match their digest. */
  lemma EveryAttemptSendsTheSame(run: seq<Step>, l: Lease, m: Lease, maxAttempts: nat)
    requires Valid(World(map[], {}), run, maxAttempts) && 1 <= maxAttempts
    requires l in RunAll(World(map[], {}), run, maxAttempts).leases && m in RunAll(World(map[], {}), run, maxAttempts).leases
    requires l.row == m.row
    ensures l.payload == m.payload && l.eventId == m.eventId && l.hash == m.hash == Digest(l.payload)
  {
    StartInv(maxAttempts);
    RunInv(World(map[], {}), run, maxAttempts);
    var w := RunAll(World(map[], {}), run, maxAttempts);
    assert LeaseOk(w, l) && LeaseOk(w, m) && RowOk(w, l.row, maxAttempts);
  }

  // ---------------------------------------------------------------------
  // Attempts
  // ---------------------------------------------------------------------

  function Claims(run: seq<Step>, i: Id): nat {
    if run == [] then 0 else (if run[0].DoClaim? && run[0].i == i then 1 else 0) + Claims(run[1..], i)
  }

  /** Between replays the attempt count is the number of claims, so no event is claimed more than the limit allows. */
  lemma {:induction false} AttemptsCountClaims(w: World, run: seq<Step>, i: Id, maxAttempts: nat)
    requires Inv(w, maxAttempts) && Valid(w, run, maxAttempts) && 1 <= maxAttempts && i in w.rows
    requires forall s :: s in run ==> !(s.DoReplay? && s.i == i)
    ensures var v := RunAll(w, run, maxAttempts);
            && i in v.rows && v.rows[i].attempts == w.rows[i].attempts + Claims(run, i)
            && w.rows[i].attempts + Claims(run, i) <= maxAttempts
    decreases run
  {
    if run == [] {
      assert RowOk(w, i, maxAttempts);
    } else {
      StepInv(w, run[0], maxAttempts);
      assert run[0] in run;
      AttemptsCountClaims(Do(w, run[0], maxAttempts), run[1..], i, maxAttempts);
    }
  }

  // ---------------------------------------------------------------------
  // Leases, retries and what can be delivered
  // ---------------------------------------------------------------------

  /** A lease completes its row until its deadline, and is taken away only after it. */
  lemma LeaseLasts(w: World, i: Id, owner: Owner, now: int, leaseSeconds: nat, t: int, maxAttempts: nat)
    requires Enabled(w, DoClaim(i, owner, now, leaseSeconds))
    ensures var v := Do(w, DoClaim(i, owner, now, leaseSeconds), maxAttempts);
            var lease := LeaseFor(i, w.rows[i], owner, now, leaseSeconds);
            && lease in v.leases
            && (Fenced(v.rows, lease, t) <==> t < now + leaseSeconds)
            && (Enabled(v, DoExpire(i, t)) <==> t > now + leaseSeconds)
  {
  }

  /**
   A failure that may be retried, with an attempt left, is ready again exactly
   after its delay; any other makes a dead letter that says why.
   */
  lemma RetryWaits(w: World, l: Lease, outcome: Outcome, now: int, delay: int, maxAttempts: nat, t: int)
    requires Inv(w, maxAttempts) && l in w.leases && Fenced(w.rows, l, now) && !outcome.accepted
    ensures var row := Do(w, DoComplete(l, outcome, now, delay), maxAttempts).rows[l.row];
            if outcome.retryable && l.attempt < maxAttempts then
              row.error == outcome.error && (Ready(row, t) <==> t >= now + delay)
            else
              && row.state == DeadLetter && row.nextAttempt == now && row.error.Some?
              && (outcome.error.Some? && outcome.error.value != "" ==> row.error == outcome.error)
              && (outcome.error == None || outcome.error == Some("") ==> row.error == Some("middleware_delivery_failed"))
  {
  }

  /** A lease that ran out puts its row back at once while an attempt is left; a replay does so with all of them. */
  lemma BackAtOnce(w: World, i: Id, now: int, maxAttempts: nat, t: int)
    requires Inv(w, maxAttempts) && 1 <= maxAttempts
    ensures Enabled(w, DoExpire(i, now)) ==>
      var row := Do(w, DoExpire(i, now), maxAttempts).rows[i];
      && row.attempts == w.rows[i].attempts && row.error == Some("business_event_lease_expired")
      && if row.attempts < maxAttempts then Ready(row, t) <==> t >= now else row.state == DeadLetter
    ensures Enabled(w, DoReplay(i, now)) ==>
      var row := Do(w, DoReplay(i, now), maxAttempts).rows[i];
      row.attempts == 0 && row.error == None && (Ready(row, t) <==> t >= now)
  {
  }

  lemma TwoSteps(w: World, s: Step, t: Step, maxAttempts: nat)
    requires Enabled(w, s) && Enabled(Do(w, s, maxAttempts), t)
    ensures Valid(w, [s, t], maxAttempts) && RunAll(w, [s, t], maxAttempts) == Do(Do(w, s, maxAttempts), t, maxAttempts)
  {
    var u := Do(w, s, maxAttempts);
    assert [s, t][1..] == [t] && [t][1..] == [];
    assert Valid(Do(u, t, maxAttempts), [], maxAttempts);
    assert Valid(u, [t], maxAttempts);
    assert RunAll(u, [t], maxAttempts) == RunAll(Do(u, t, maxAttempts), [], maxAttempts) == Do(u, t, maxAttempts);
  }

  /** Every ready event can be delivered by the next worker: claimed, and completed before the deadline. */
  lemma ReadyCanBeDelivered(w: World, i: Id, owner: Owner, now: int, leaseSeconds: nat, maxAttempts: nat)
    requires i in w.rows && Ready(w.rows[i], now) && 1 <= leaseSeconds && forall l :: l in w.leases ==> l.owner != owner
    ensures var lease := LeaseFor(i, w.rows[i], owner, now, leaseSeconds);
            var run := [DoClaim(i, owner, now, leaseSeconds), DoComplete(lease, Outcome(true, false, None), now, 0)];
            && Valid(w, run, maxAttempts)
            && var v := RunAll(w, run, maxAttempts);
            && i in v.rows && SameEvent(v.rows[i], w.rows[i])
            && v.rows[i].state == Delivered && v.rows[i].delivered == Some(now) && v.rows[i].error == None
  {
    var lease := LeaseFor(i, w.rows[i], owner, now, leaseSeconds);
    TwoSteps(w, DoClaim(i, owner, now, leaseSeconds), DoComplete(lease, Outcome(true, false, None), now, 0), maxAttempts);
  }

  // ---------------------------------------------------------------------
  // One event id, one payload
  // ---------------------------------------------------------------------

  /** A new event is ready from its enqueueing on. */
  lemma EnqueuedIsReady(w: World, i: Id, eventId: string, tenant: string, payload: string, now: int, t: int)
    requires forall j :: j in w.rows ==> w.rows[j].eventId != eventId
    ensures var after := Enqueue(w.rows, i, eventId, tenant, payload, now);
            && (after.Some? <==> i !in w.rows)
            && (after.Some? ==> after.value[i].tenant == tenant && after.value[i].payload == payload
                                && (Ready(after.value[i], t) <==> t >= now))
  {
    assert Existing(w.rows, eventId) == {};
  }

  /**
   Once an event id is taken, over every run, sending the same payload under it
   changes nothing and sending any other is refused.
   */
  lemma EventIdIsTakenOnce(w: World, i: Id, run: seq<Step>, maxAttempts: nat, j: Id, tenant: string, payload: string, now: int)
    requires Inv(w, maxAttempts) && Valid(w, run, maxAttempts) && 1 <= maxAttempts && i in w.rows
    ensures var rows := RunAll(w, run, maxAttempts).rows;
            Enqueue(rows, j, w.rows[i].eventId, tenant, payload, now) == if payload == w.rows[i].payload then Some(rows) else None
  {
    EventsAreImmutable(w, run, i, maxAttempts);
    RunInv(w, run, maxAttempts);
    var v := RunAll(w, run, maxAttempts);
    assert RowOk(v, i, maxAttempts);
    assert i in Existing(v.rows, w.rows[i].eventId);
    forall k | k in Existing(v.rows, w.rows[i].eventId) ensures k == i {
      assert Unique(v, i, k);
    }
  }

  /** In every reachable outbox the digest of a dead letter is good: a replay is refused only for its state, its tenant or its envelope. */
  lemma ReplayableIff(w: World, i: Id, eventId: string, tenant: Option<string>, valid: string -> bool, maxAttempts: nat)
    requires Inv(w, maxAttempts) && i in w.rows
    ensures Replayable(w.rows, i, eventId, tenant, valid) <==>
      && w.rows[i].state == DeadLetter && w.rows[i].eventId == eventId && (tenant == None || tenant == Some(w.rows[i].tenant))
      && valid(w.rows[i].payload)
  {
    assert RowOk(w, i, maxAttempts);
  }

  // ---------------------------------------------------------------------
  // A batch is a run of single steps
  // ---------------------------------------------------------------------

  ghost predicate DistinctRows(rows: seq<Id>) {
    forall j, k :: 0 <= j < k < |rows| ==> rows[j] != rows[k]
  }

  lemma {:induction false} Chained(w: World, a: seq<Step>, b: seq<Step>, maxAttempts: nat)
    requires Valid(w, a, maxAttempts) && Valid(RunAll(w, a, maxAttempts), b, maxAttempts)
    ensures Valid(w, a + b, maxAttempts) && RunAll(w, a + b, maxAttempts) == RunAll(RunAll(w, a, maxAttempts), b, maxAttempts)
    decreases a
  {
    if a == [] {
      assert a + b == b;
    } else {
      Chained(Do(w, a[0], maxAttempts), a[1..], b, maxAttempts);
      assert (a + b)[1..] == a[1..] + b;
    }
  }

  lemma FirstAndRest(rows: seq<Id>)
    requires rows != [] && DistinctRows(rows)
    ensures DistinctRows(rows[1..]) && rows[0] !in rows[1..] && forall i :: i in rows <==> i == rows[0] || i in rows[1..]
  {
    assert rows == [rows[0]] + rows[1..];
  }

  lemma OneMoreExpired(rows: Table, i: Id, ids: set<Id>, now: int, maxAttempts: nat)
    requires i in rows && i !in ids
    ensures ExpireAll(rows[i := Expired(rows[i], now, maxAttempts)], ids, now, maxAttempts) == ExpireAll(rows, ids + {i}, now, maxAttempts)
  {
  }

  lemma OneMoreClaimed(rows: Table, i: Id, ids: set<Id>, owner: Id -> Owner, now: int, leaseSeconds: nat)
    requires i in rows && i !in ids
    ensures ClaimAll(rows[i := Claimed(rows[i], owner(i), now, leaseSeconds)], ids, owner, now, leaseSeconds)
         == ClaimAll(rows, ids + {i}, owner, now, leaseSeconds)
  {
  }

  lemma {:induction false} ExpireBatch(w: World, over: seq<Id>, now: int, maxAttempts: nat) returns (run: seq<Step>)
    requires DistinctRows(over) && forall i :: i in over ==> i in w.rows && LeaseOver(w.rows[i], now)
    ensures Valid(w, run, maxAttempts)
    ensures RunAll(w, run, maxAttempts) == w.(rows := ExpireAll(w.rows, (set i | i in over), now, maxAttempts))
    decreases |over|
  {
    if over == [] {
      run := [];
      assert ExpireAll(w.rows, (set i | i in over), now, maxAttempts) == w.rows;
    } else {
      FirstAndRest(over);
      var v := Do(w, DoExpire(over[0], now), maxAttempts);
      var rest := ExpireBatch(v, over[1..], now, maxAttempts);
      run := [DoExpire(over[0], now)] + rest;
      assert run[1..] == rest;
      OneMoreExpired(w.rows, over[0], (set i | i in over[1..]), now, maxAttempts);
      assert (set i | i in over) == (set i | i in over[1..]) + {over[0]};
    }
  }

  /** Owners that were never drawn before, and differ among the rows claimed. */
  ghost predicate FreshOwners(w: World, ready: seq<Id>, owner: Id -> Owner) {
    && (forall i, l :: i in ready && l in w.leases ==> l.owner != owner(i))
    && (forall i, j :: i in ready && j in ready && i != j ==> owner(i) != owner(j))
  }

  lemma {:induction false} ClaimBatch(w: World, ready: seq<Id>, owner: Id -> Owner, now: int, leaseSeconds: nat, maxAttempts: nat)
    returns (run: seq<Step>)
    requires DistinctRows(ready) && FreshOwners(w, ready, owner) && forall i :: i in ready ==> i in w.rows && Ready(w.rows[i], now)
    ensures Valid(w, run, maxAttempts)
    ensures RunAll(w, run, maxAttempts).rows == ClaimAll(w.rows, (set i | i in ready), owner, now, leaseSeconds)
    decreases |ready|
  {
    if ready == [] {
      run := [];
      assert ClaimAll(w.rows, (set i | i in ready), owner, now, leaseSeconds) == w.rows;
    } else {
      FirstAndRest(ready);
      var claim := DoClaim(ready[0], owner(ready[0]), now, leaseSeconds);
      var v := Do(w, claim, maxAttempts);
      assert FreshOwners(v, ready[1..], owner);
      var rest := ClaimBatch(v, ready[1..], owner, now, leaseSeconds, maxAttempts);
      run := [claim] + rest;
      assert run[1..] == rest;
      OneMoreClaimed(w.rows, ready[0], (set i | i in ready[1..]), owner, now, leaseSeconds);
      assert (set i | i in ready) == (set i | i in ready[1..]) + {ready[0]};
    }
  }

  /** The claim transaction, which expires and claims many rows at once, is a run of the steps above, so all that holds of runs holds of it. */
  lemma BatchIsARun(
      w: World, over: seq<Id>, ready: seq<Id>, owner: Id -> Owner, now: int, leaseSeconds: nat, maxAttempts: nat) returns (run: seq<Step>)
    requires DistinctRows(over) && forall i :: i in over ==> i in w.rows && LeaseOver(w.rows[i], now)
    requires var mid := ExpireAll(w.rows, (set i | i in over), now, maxAttempts);
             DistinctRows(ready) && FreshOwners(w, ready, owner) && forall i :: i in ready ==> i in mid && Ready(mid[i], now)
    ensures Valid(w, run, maxAttempts)
    ensures RunAll(w, run, maxAttempts).rows ==
      ClaimAll(ExpireAll(w.rows, (set i | i in over), now, maxAttempts), (set i | i in ready), owner, now, leaseSeconds)
  {
    var expire := ExpireBatch(w, over, now, maxAttempts);
    var mid := RunAll(w, expire, maxAttempts);
    var claim := ClaimBatch(mid, ready, owner, now, leaseSeconds, maxAttempts);
    Chained(w, expire, claim, maxAttempts);
    run := expire + claim;
  }
}
