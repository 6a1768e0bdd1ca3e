/**
 Timestamp fencing over whole runs. No order is assumed between the clocks of
 different workers, only that a worker's own clock does not run backwards
 between its claim and its completion.
 */
module ProviderDeliveryProtocol {
  import opened Numbers
  import opened ProviderDelivery
  import opened Wrappers

  datatype Claim = Claim(row: Id, at: int)

  /** `claims`: every claim ever made; all of them may still be completed. */
  datatype World = World(queue: Queue, rows: Table, claims: set<Claim>)

  datatype Step =
    | DoInsert(i: Id, now: int)
    | DoRecover(i: Id, now: int)
    | DoClaim(i: Id, now: int)
    | DoComplete(c: Claim, ok: bool, error: string, now: int, later: int)
    | DoRequeue(i: Id, now: int)
    | DoOperatorRetry(i: Id, now: int)
    | DoSkip(i: Id)

  /** The clock is past every claim the row ever had. */
  ghost predicate LaterThanClaims(w: World, i: Id, now: int) {
    forall c :: c in w.claims && c.row == i ==> c.at < now
  }

  ghost predicate Enabled(w: World, s: Step) {
    match s
    case DoInsert(i, _) => i !in w.rows
    case DoRecover(i, now) => i in w.rows && Stale(w.queue, w.rows[i], now)
    case DoClaim(i, now) => i in w.rows && Ready(w.rows[i], now)
    case DoComplete(c, _, _, now, later) => c in w.claims && c.at <= now <= later
    case DoRequeue(i, now) => i in w.rows && w.rows[i].state == DeadLetter && w.rows[i].available <= now
    case DoOperatorRetry(i, now) =>
      i in w.rows && w.rows[i].state in {Retry, DeadLetter} && LaterThanClaims(w, i, now)
    case DoSkip(i) => i in w.rows && w.rows[i].state == DeadLetter
  }

  ghost function Do(w: World, s: Step): World
    requires Enabled(w, s)
  {
    match s
    case DoInsert(i, now) => w.(rows := w.rows[i := Row(Waiting, 0, now, now, None)])
    case DoRecover(i, now) => w.(rows := w.rows[i := Recovered(w.rows[i], now)])
    case DoClaim(i, now) => w.(rows := w.rows[i := Claimed(w.queue, w.rows[i], now)], claims := w.claims + {Claim(i, now)})
    case DoComplete(c, ok, error, now, later) => w.(rows := Complete(w.queue, w.rows, c.row, c.at, ok, error, now, later))
    case DoRequeue(i, now) => w.(rows := w.rows[i := Requeued(w.rows[i], now)])
    case DoOperatorRetry(i, now) => w.(rows := w.rows[i := Requeued(w.rows[i], now)])
    case DoSkip(i) => w.(rows := w.rows[i := w.rows[i].(state := Skipped)])
  }

  ghost predicate Valid(w: World, run: seq<Step>)
    decreases run
  {
    run == [] || (Enabled(w, run[0]) && Valid(Do(w, run[0]), run[1..]))
  }

  ghost function RunAll(w: World, run: seq<Step>): World
    requires Valid(w, run)
    decreases run
  {
    if run == [] then w else RunAll(Do(w, run[0]), run[1..])
  }

  // ---------------------------------------------------------------------
  // The invariant: a row that can be claimed again is available only after its last claim
  // ---------------------------------------------------------------------

  predicate RowOk(w: World, i: Id) {
    i in w.rows ==>
      var row := w.rows[i];
      && row.attempts <= MAX_ATTEMPTS && (row.state in {Waiting, Processing, Retry} ==> row.attempts < MAX_ATTEMPTS)
      && (row.state == DeadLetter ==> row.attempts == MAX_ATTEMPTS)
      && (row.state == Processing ==> Claim(i, ClaimedAt(w, i)) in w.claims)
  }

  /** When the row under delivery was claimed, read back from its token. */
  function ClaimedAt(w: World, i: Id): int
    requires i in w.rows
  {
    if w.queue.Events? then w.rows[i].updated else w.rows[i].available - LEASE
  }

  predicate ClaimOk(w: World, c: Claim) {
    c in w.claims ==>
      && c.row in w.rows
      && var row := w.rows[c.row];
      && row.state != Waiting
      && (row.state == Processing ==> c.at <= ClaimedAt(w, c.row))
      && (row.state in {Retry, DeadLetter} ==> c.at < row.available)
  }

  ghost predicate Inv(w: World) {
    (forall i :: RowOk(w, i)) && (forall c :: ClaimOk(w, c))
  }

  lemma StartInv(q: Queue)
    ensures Inv(World(q, map[], {}))
  {
  }

  lemma BackoffIsPositive(attempts: nat)
    ensures Min(900, Pow2(Min(attempts, 10))) * SECOND >= SECOND
  {
    Pow2Positive(Min(attempts, 10));
  }

  lemma StepInv(w: World, s: Step)
    requires Inv(w) && Enabled(w, s)
    ensures Inv(Do(w, s))
  {
    var v := Do(w, s);
    if s.DoComplete? {
      CompleteInv(w, s.c, s.ok, s.error, s.now, s.later);
    } else {
      forall i ensures RowOk(v, i) { assert RowOk(w, i); }
      forall c ensures ClaimOk(v, c) { assert ClaimOk(w, c); }
    }
  }

  lemma CompleteInv(w: World, c: Claim, ok: bool, error: string, now: int, later: int)
    requires Inv(w) && c in w.claims && c.at <= now <= later
    ensures Inv(Do(w, DoComplete(c, ok, error, now, later)))
  {
    var v := Do(w, DoComplete(c, ok, error, now, later));
    forall i ensures RowOk(v, i) { assert RowOk(w, i); }
    forall d ensures ClaimOk(v, d) {
      assert ClaimOk(w, d);
      if Owned(w.queue, w.rows, c.row, c.at) && d.row == c.row {
        BackoffIsPositive(w.rows[c.row].attempts + 1);
      }
    }
  }

  lemma {:induction false} RunInv(w: World, run: seq<Step>)
    requires Inv(w) && Valid(w, run)
    ensures Inv(RunAll(w, run))
    decreases run
  {
    if run != [] {
      StepInv(w, run[0]);
      RunInv(Do(w, run[0]), run[1..]);
    }
  }

  // ---------------------------------------------------------------------
  // Fencing
  // ---------------------------------------------------------------------

  /** A new claim is strictly later than every claim the row ever had, so its token differs from all of theirs. */
  lemma ClaimsAreLater(w: World, i: Id, now: int, c: Claim)
    requires Inv(w) && Enabled(w, DoClaim(i, now)) && c in w.claims && c.row == i
    ensures c.at < now && ClaimToken(w.queue, c.at) < ClaimToken(w.queue, now)
    ensures !Owned(w.queue, Do(w, DoClaim(i, now)).rows, i, c.at)
  {
    assert ClaimOk(w, c);
  }

  /**
   An operator may retry a row that is not due, by a clock of its own. Every later
   claim of the row is later than those before exactly when that clock is; the
   steps above take only such retries.
   */
  lemma OperatorRetryKeepsOrderIff(w: World, i: Id, now: int)
    requires i in w.rows
    ensures (forall t, c :: Ready(Requeued(w.rows[i], now), t) && c in w.claims && c.row == i ==> c.at < t)
       <==> LaterThanClaims(w, i, now)
  {
    assert Ready(Requeued(w.rows[i], now), now);
  }

  /** By a clock that is behind, a claim can be made that a stale worker holds as well. */
  lemma SkewedRetryBreaksTheFence(w: World, i: Id, now: int, c: Claim)
    requires i in w.rows && w.rows[i].state in {Retry, DeadLetter} && c in w.claims && c.row == i && now <= c.at
    ensures var v := w.(rows := w.rows[i := Requeued(w.rows[i], now)]);
            Enabled(v, DoClaim(i, c.at)) && Owned(w.queue, Do(v, DoClaim(i, c.at)).rows, i, c.at)
  {
  }

  /** A claim that no longer owns its row never owns it again. */
  lemma LostStep(w: World, s: Step, c: Claim)
    requires Inv(w) && Enabled(w, s) && c in w.claims && !Owned(w.queue, w.rows, c.row, c.at)
    ensures c in Do(w, s).claims && !Owned(w.queue, Do(w, s).rows, c.row, c.at)
  {
    assert ClaimOk(w, c);
    if s.DoClaim? && s.i == c.row {
      ClaimsAreLater(w, s.i, s.now, c);
    }
  }

  predicate Counts(w: World, s: Step, c: Claim) {
    s.DoComplete? && s.c == c && Owned(w.queue, w.rows, c.row, c.at)
  }

  ghost function Effects(w: World, run: seq<Step>, c: Claim): nat
    requires Valid(w, run)
    decreases run
  {
    if run == [] then 0 else (if Counts(w, run[0], c) then 1 else 0) + Effects(Do(w, run[0]), run[1..], c)
  }

  /** A claim is completed effectively at most once, and never after its row was recovered or claimed again. */
  lemma {:induction false} AtMostOneEffect(w: World, run: seq<Step>, c: Claim)
    requires Inv(w) && Valid(w, run) && c in w.claims
    ensures Effects(w, run, c) <= if Owned(w.queue, w.rows, c.row, c.at) then 1 else 0
    decreases run
  {
    if run != [] {
      StepInv(w, run[0]);
      if !Owned(w.queue, w.rows, c.row, c.at) {
        LostStep(w, run[0], c);
      }
      AtMostOneEffect(Do(w, run[0]), run[1..], c);
    }
  }

  /** A stale worker changes nothing; the owner adds one attempt and dead-letters exactly at the eighth failure. */
  lemma CompletionIsFenced(w: World, c: Claim, ok: bool, error: string, now: int, later: int)
    requires Inv(w) && c in w.claims && c.at <= now <= later
    ensures var v := Do(w, DoComplete(c, ok, error, now, later));
            && (!Owned(w.queue, w.rows, c.row, c.at) ==> v == w)
            && (Owned(w.queue, w.rows, c.row, c.at) ==>
                  && c.row in v.rows && c.row in w.rows && v.rows == w.rows[c.row := v.rows[c.row]]
                  && v.rows[c.row].attempts == w.rows[c.row].attempts + 1 <= MAX_ATTEMPTS
                  && (v.rows[c.row].state == Delivered <==> ok)
                  && (v.rows[c.row].state == DeadLetter <==> !ok && v.rows[c.row].attempts == MAX_ATTEMPTS))
  {
    assert RowOk(w, c.row);
  }

  /** A failed delivery is ready again exactly when its delay is over: between two seconds and a quarter of an hour. */
  lemma RetryWaits(q: Queue, row: Row, error: string, now: int, later: int, t: int)
    requires row.attempts + 1 < MAX_ATTEMPTS
    ensures var delay := Min(900, Pow2(Min(row.attempts + 1, 10))) * SECOND;
            && (Ready(Completed(q, row, false, error, now, later), t) <==> t >= later + delay)
            && 2 * SECOND <= delay <= 900 * SECOND
  {
    Pow2Positive(Min(row.attempts + 1, 10) - 1);
  }

  /** DELIVERED and SKIPPED rows never change. */
  lemma {:induction false} DeliveredIsFinal(w: World, run: seq<Step>, i: Id)
    requires Inv(w) && Valid(w, run) && i in w.rows && w.rows[i].state in {Delivered, Skipped}
    ensures i in RunAll(w, run).rows && RunAll(w, run).rows[i] == w.rows[i]
    decreases run
  {
    if run != [] {
      StepInv(w, run[0]);
      assert Do(w, run[0]).rows[i] == w.rows[i];
      DeliveredIsFinal(Do(w, run[0]), run[1..], i);
    }
  }

  // ---------------------------------------------------------------------
  // Attempts count completions, not claims
  // ---------------------------------------------------------------------

  ghost function Completions(w: World, run: seq<Step>, i: Id): nat
    requires Valid(w, run)
    decreases run
  {
    if run == [] then 0
    else (if run[0].DoComplete? && Counts(w, run[0], run[0].c) && run[0].c.row == i then 1 else 0)
         + Completions(Do(w, run[0]), run[1..], i)
  }

  lemma {:induction false} AttemptsCountCompletions(w: World, run: seq<Step>, i: Id)
    requires Inv(w) && Valid(w, run) && i in w.rows && forall s :: s in run ==> !((s.DoRequeue? || s.DoOperatorRetry?) && s.i == i)
    ensures i in RunAll(w, run).rows
    ensures RunAll(w, run).rows[i].attempts == w.rows[i].attempts + Completions(w, run, i) <= MAX_ATTEMPTS
    decreases run
  {
    if run == [] {
      assert RowOk(w, i);
    } else {
      StepInv(w, run[0]);
      assert run[0] in run;
      AttemptsCountCompletions(Do(w, run[0]), run[1..], i);
    }
  }

  /**
   A claim that is never completed costs no attempt: a row whose workers always
   die is claimed and recovered any number of times and is never a dead letter.
   */
  lemma {:induction false} CrashingIsFree(w: World, i: Id, now: int, rounds: nat) returns (run: seq<Step>)
    requires Inv(w) && i in w.rows && Ready(w.rows[i], now)
    ensures Valid(w, run) && |run| == 2 * rounds
    ensures var v := RunAll(w, run);
            i in v.rows && v.rows[i].attempts == w.rows[i].attempts && v.rows[i].state in {Waiting, Retry}
    decreases rounds
  {
    if rounds == 0 {
      run := [];
    } else {
      var claim, recover := DoClaim(i, now), DoRecover(i, now + LEASE + 1);
      var u := Do(w, claim);
      StepInv(w, claim);
      var v := Do(u, recover);
      StepInv(u, recover);
      var rest := CrashingIsFree(v, i, now + LEASE + 1, rounds - 1);
      run := [claim, recover] + rest;
      assert run[1..] == [recover] + rest && ([recover] + rest)[1..] == rest;
      assert Valid(u, [recover] + rest);
    }
  }

  // ---------------------------------------------------------------------
  // Leases, retries and what can be delivered
  // ---------------------------------------------------------------------

  /** A fresh claim owns its row, and for five minutes no recovery can take it away; after that one can. */
  lemma LeaseLasts(w: World, i: Id, now: int, t: int)
    requires Enabled(w, DoClaim(i, now))
    ensures var v := Do(w, DoClaim(i, now));
            && Owned(w.queue, v.rows, i, now)
            && (Enabled(v, DoRecover(i, t)) <==> t > now + 300_000_000)
  {
  }

  /** A recovered row is ready at once and keeps its attempts; a requeued one is ready at once and has eight again. */
  lemma BackAtOnce(w: World, i: Id, now: int, t: int)
    ensures Enabled(w, DoRecover(i, now)) ==>
      var row := Do(w, DoRecover(i, now)).rows[i];
      && (Ready(row, t) <==> t >= now) && row.attempts == w.rows[i].attempts && row.error == Some("delivery_lease_expired")
    ensures Enabled(w, DoRequeue(i, now)) ==>
      var row := Do(w, DoRequeue(i, now)).rows[i];
      (Ready(row, t) <==> t >= now) && row.attempts == 0 && row.error == None
  {
  }

  lemma TwoSteps(w: World, s: Step, t: Step)
    requires Enabled(w, s) && Enabled(Do(w, s), t)
    ensures Valid(w, [s, t]) && RunAll(w, [s, t]) == Do(Do(w, s), t)
  {
    var u := Do(w, s);
    assert [s, t][1..] == [t] && [t][1..] == [];
    assert Valid(Do(u, t), []);
    assert Valid(u, [t]);
    assert RunAll(u, [t]) == RunAll(Do(u, t), []) == Do(u, t);
  }

  /** Claimed and completed by its worker, whatever the answer: delivered, put back with the reason, or dead-lettered at the eighth. */
  lemma ReadyCanBeCompleted(w: World, i: Id, now: int, ok: bool, error: string)
    requires Inv(w) && i in w.rows && Ready(w.rows[i], now)
    ensures var run := [DoClaim(i, now), DoComplete(Claim(i, now), ok, error, now, now)];
            && Valid(w, run)
            && var v := RunAll(w, run);
            && i in v.rows && v.rows[i].attempts == w.rows[i].attempts + 1
            && v.rows[i].error == (if ok then None else Some(error))
            && v.rows[i].updated == (if w.queue.Events? then now else w.rows[i].updated)
            && v.rows[i].state == if ok then Delivered else if w.rows[i].attempts == 7 then DeadLetter else Retry
  {
    assert RowOk(w, i);
    TwoSteps(w, DoClaim(i, now), DoComplete(Claim(i, now), ok, error, now, now));
  }

  /** Failing at every attempt, a new row is a dead letter after exactly eight. */
  lemma {:induction false} EightFailures(w: World, i: Id, now: int, error: string, left: nat) returns (run: seq<Step>)
    requires Inv(w) && i in w.rows && w.rows[i].state in {Waiting, Retry} && w.rows[i].attempts + left == 8
    ensures Valid(w, run) && |run| == 2 * left
    ensures var v := RunAll(w, run); i in v.rows && v.rows[i].state == DeadLetter && v.rows[i].attempts == 8
    decreases left
  {
    assert RowOk(w, i);
    var at := if w.rows[i].available > now then w.rows[i].available else now;
    var claim, complete := DoClaim(i, at), DoComplete(Claim(i, at), false, error, at, at);
    ReadyCanBeCompleted(w, i, at, false, error);
    var first := [claim, complete];
    var v := RunAll(w, first);
    RunInv(w, first);
    if left == 1 {
      run := first;
    } else {
      var rest := EightFailures(v, i, at, error, left - 1);
      run := first + rest;
      Chained(w, first, rest);
    }
  }

  lemma {:induction false} Chained(w: World, a: seq<Step>, b: seq<Step>)
    requires Valid(w, a) && Valid(RunAll(w, a), b)
    ensures Valid(w, a + b) && RunAll(w, a + b) == RunAll(RunAll(w, a), b)
    decreases a
  {
    if a == [] {
      assert a + b == b;
    } else {
      Chained(Do(w, a[0]), a[1..], b);
      assert (a + b)[1..] == a[1..] + b;
    }
  }

  // ---------------------------------------------------------------------
  // A batch is a run of single steps
  // ---------------------------------------------------------------------

  ghost predicate DistinctRows(rows: seq<Id>) {
    forall j, k :: 0 <= j < k < |rows| ==> rows[j] != rows[k]
  }

  lemma FirstAndRest(rows: seq<Id>)
    requires rows != [] && DistinctRows(rows)
    ensures DistinctRows(rows[1..]) && rows[0] !in rows[1..] && forall i :: i in rows <==> i == rows[0] || i in rows[1..]
  {
    assert rows == [rows[0]] + rows[1..];
  }

  lemma OneMoreRecovered(rows: Table, i: Id, ids: set<Id>, now: int)
    requires i in rows && i !in ids
    ensures RecoverAll(rows[i := Recovered(rows[i], now)], ids, now) == RecoverAll(rows, ids + {i}, now)
  {
  }

  lemma OneMoreClaimed(q: Queue, rows: Table, i: Id, ids: set<Id>, now: int)
    requires i in rows && i !in ids
    ensures ClaimAll(q, rows[i := Claimed(q, rows[i], now)], ids, now) == ClaimAll(q, rows, ids + {i}, now)
  {
  }

  lemma {:induction false} RecoverBatch(w: World, stale: seq<Id>, now: int) returns (run: seq<Step>)
    requires DistinctRows(stale) && forall i :: i in stale ==> i in w.rows && Stale(w.queue, w.rows[i], now)
    ensures Valid(w, run) && RunAll(w, run) == w.(rows := RecoverAll(w.rows, (set i | i in stale), now))
    decreases |stale|
  {
    if stale == [] {
      run := [];
      assert RecoverAll(w.rows, (set i | i in stale), now) == w.rows;
    } else {
      FirstAndRest(stale);
      var v := Do(w, DoRecover(stale[0], now));
      var rest := RecoverBatch(v, stale[1..], now);
      run := [DoRecover(stale[0], now)] + rest;
      assert run[1..] == rest;
      OneMoreRecovered(w.rows, stale[0], (set i | i in stale[1..]), now);
      assert (set i | i in stale) == (set i | i in stale[1..]) + {stale[0]};
    }
  }

  lemma {:induction false} ClaimReadyRows(w: World, ready: seq<Id>, now: int) returns (run: seq<Step>)
    requires DistinctRows(ready) && forall i :: i in ready ==> i in w.rows && Ready(w.rows[i], now)
    ensures Valid(w, run) && RunAll(w, run).rows == ClaimAll(w.queue, w.rows, (set i | i in ready), now)
    ensures RunAll(w, run).claims == w.claims + set i | i in ready :: Claim(i, now)
    decreases |ready|
  {
    if ready == [] {
      run := [];
      assert ClaimAll(w.queue, w.rows, (set i | i in ready), now) == w.rows;
    } else {
      FirstAndRest(ready);
      var v := Do(w, DoClaim(ready[0], now));
      var rest := ClaimReadyRows(v, ready[1..], now);
      run := [DoClaim(ready[0], now)] + rest;
      assert run[1..] == rest;
      OneMoreClaimed(w.queue, w.rows, ready[0], (set i | i in ready[1..]), now);
      assert (set i | i in ready) == (set i | i in ready[1..]) + {ready[0]};
    }
  }

  /** The claim transaction, which recovers and claims many rows at once, is a run of the steps above, so all that holds of runs holds of it. */
  lemma BatchIsARun(w: World, stale: seq<Id>, ready: seq<Id>, now: int) returns (run: seq<Step>)
    requires DistinctRows(stale) && forall i :: i in stale ==> i in w.rows && Stale(w.queue, w.rows[i], now)
    requires var mid := RecoverAll(w.rows, (set i | i in stale), now);
             DistinctRows(ready) && forall i :: i in ready ==> i in mid && Ready(mid[i], now)
    ensures Valid(w, run)
    ensures RunAll(w, run).rows == ClaimAll(w.queue, RecoverAll(w.rows, (set i | i in stale), now), (set i | i in ready), now)
    ensures RunAll(w, run).claims == w.claims + set i | i in ready :: Claim(i, now)
  {
    var recover := RecoverBatch(w, stale, now);
    var mid := RunAll(w, recover);
    var claim := ClaimReadyRows(mid, ready, now);
    Chained(w, recover, claim);
    run := recover + claim;
  }
}
