/**
 What the Mautic protocol achieves: a cancelled operation is never sent, a
 waiting one can always be completed and is not passed over for ever, and each
 outcome puts the row where the protocol needs it.
 */
module MauticProgress {

  import opened Numbers
  import opened Wrappers
  import opened IntegrationOutbox
  import opened MauticProtocol

  // ---------------------------------------------------------------------
  // Cancelled is never sent
  // ---------------------------------------------------------------------

  lemma SettledIsNotClaimed(w: World, s: Step, id: Id)
    requires Inv(w) && Enabled(w, s) && IsMautic(w, id) && Settled(w.db.ops[id])
    ensures ClaimCount(Do(w, s).claims, id) == ClaimCount(w.claims, id)
  {
    if s.Claim? {
      var v := Do(w, s);
      assert v.claims[..|v.claims| - 1] == w.claims;
    }
  }

  /** Once a row is settled no run claims it again. */
  lemma {:induction false} SettledIsNeverClaimed(w: World, steps: seq<Step>, last: World, id: Id)
    requires Inv(w) && Run(w, steps, last) && IsMautic(w, id) && Settled(w.db.ops[id])
    ensures ClaimCount(last.claims, id) == ClaimCount(w.claims, id)
    decreases steps
  {
    if steps != [] {
      SettledIsNotClaimed(w, steps[0], id);
      SettledStep(w, steps[0], id);
      StepInv(w, steps[0]);
      SettledIsNeverClaimed(Do(w, steps[0]), steps[1..], last, id);
    }
  }

  /**
   After an accepted cancel, along every run: the row stays CANCELLED, it is
   never claimed again, and no request for it is or ever was with the provider.
   */
  lemma CancelledIsNeverSent(w: World, id: Id, tenant: string, steps: seq<Step>, last: World)
    requires Inv(w) && IsMautic(w, id) && TenantCancel(w.db, id, tenant).Accepted?
    requires Run(Do(w, TenantCancels(id, tenant)), steps, last)
    ensures IsMautic(last, id) && last.db.ops[id].state == Cancelled
    ensures forall t: Token :: t.op == id ==> t !in last.wire && t !in last.effects
    ensures ClaimCount(last.claims, id) == ClaimCount(w.claims, id)
  {
    var v := Do(w, TenantCancels(id, tenant));
    StepInv(w, TenantCancels(id, tenant));
    SettledForever(v, steps, last, id);
    SettledIsNeverClaimed(v, steps, last, id);
    RunInv(v, steps, last);
    forall t: Token | t.op == id ensures t !in last.wire && t !in last.effects {
      assert TokenInv(last, t);
    }
  }

  /** A tenant can cancel a Mautic operation exactly while it waits; nothing else of it changes. */
  lemma CancelIff(w: World, id: Id, tenant: string)
    requires Inv(w) && IsMautic(w, id)
    ensures TenantCancel(w.db, id, tenant).Accepted? <==>
              w.db.ops[id].tenant == tenant && w.db.ops[id].state in {Pending, Retry}
    ensures TenantCancel(w.db, id, tenant).Accepted? ==>
      TenantCancel(w.db, id, tenant).db.ops == w.db.ops[id := w.db.ops[id].(state := Cancelled)]
  {
    match w.db.ops[id].state
    case Pending =>
    case Retry =>
    case _ =>
  }

  predicate Refuses<T>(reply: Reply<T>, status: int) {
    reply.Refused? && reply.status == status
  }

  /** What a refusal tells: 404 for an operation that is not there for the caller, 409 for one in the wrong state. */
  lemma RefusalsSayWhy(db: Db, id: Id, tenant: string, reason: string, current: int)
    ensures Refuses(TenantCancel(db, id, tenant), 404) <==> id !in db.ops || db.ops[id].tenant != tenant
    ensures Refuses(TenantReconcile(db, id, tenant, current), 404) <==> id !in db.ops || db.ops[id].tenant != tenant
    ensures Refuses(OperatorRecover(db, id, current), 404) <==> id !in db.ops || db.ops[id].state !in {Retry, DeadLetter}
    ensures Refuses(OperatorFail(db, id, reason, current), 404) <==> id !in db.ops || db.ops[id].state !in {Pending, Retry}
    ensures TenantCancel(db, id, tenant).Accepted? || TenantCancel(db, id, tenant).status in {404, 409}
    ensures TenantReconcile(db, id, tenant, current).Accepted? || TenantReconcile(db, id, tenant, current).status in {404, 409}
    ensures OperatorRecover(db, id, current).Accepted? || OperatorRecover(db, id, current).status in {404, 409}
    ensures OperatorFail(db, id, reason, current).Accepted? || OperatorFail(db, id, reason, current).status == 404
  {
  }

  // ---------------------------------------------------------------------
  // Who is claimed
  // ---------------------------------------------------------------------

  predicate IsDue(w: World, id: Id, current: int) {
    IsMautic(w, id) && w.db.ops[id].state in {Pending, Retry} && w.db.ops[id].nextAttemptAt <= current
  }

  lemma WaitingIsClaimable(w: World, id: Id, current: int)
    requires Inv(w)
    ensures Claimable(w.db, id, current) <==> IsDue(w, id, current)
  {
    assert RowInv(w, id);
  }

  /**
   In every reachable world a worker can claim exactly the due operations that
   nobody locks and no older due one precedes, once the circuit's time is over.
   No late observation stands in the way: a waiting operation has none.
   */
  lemma ClaimIff(w: World, k: WorkerId, id: Id, current: int, locked: set<Id>)
    requires Inv(w)
    ensures Enabled(w, Claim(k, id, current, locked)) <==>
      && k !in w.workers
      && (w.db.circuit.openUntil.Some? ==> w.db.circuit.openUntil.value <= current)
      && IsDue(w, id, current) && id !in locked
      && forall j :: IsDue(w, j, current) && j !in locked ==> w.db.ops[id].createdAt <= w.db.ops[j].createdAt
  {
    forall j ensures Claimable(w.db, j, current) <==> IsDue(w, j, current) {
      WaitingIsClaimable(w, j, current);
    }
  }

  // ---------------------------------------------------------------------
  // A lease lasts, and then ends
  // ---------------------------------------------------------------------

  /**
   For thirty seconds a fresh claim is in force and no recovery touches it; at
   thirty it is neither in force nor over; after that it is over.
   */
  lemma LeaseLasts(w: World, k: WorkerId, id: Id, current: int, locked: set<Id>, t: int)
    requires Enabled(w, Claim(k, id, current, locked))
    ensures var v := Do(w, Claim(k, id, current, locked));
            && CurrentClaim(v.db.ops[id], v.workers[k].token.attempt, t) <==> t < current + 30
    ensures var v := Do(w, Claim(k, id, current, locked));
            RecoverExpired(v.db, t, {}).ops[id] != v.db.ops[id] <==> t > current + 30
  {
  }

  /** Recovery dead-letters a Mautic row exactly when its lease is over and no other transaction locks it. */
  lemma RecoveryDeadLetters(w: World, current: int, locked: set<Id>, id: Id)
    requires Inv(w) && IsMautic(w, id) && w.db.ops[id].state != DeadLetter
    ensures var v := Do(w, Recover(current, locked));
            && IsMautic(v, id)
            && (v.db.ops[id].state == DeadLetter <==>
                  w.db.ops[id].lease.Some? && w.db.ops[id].lease.value < current && id !in locked)
            && (v.db.ops[id].state == DeadLetter ==>
                  v.db.ops[id].error == Some("worker_lease_expired_ambiguous") && v.db.ops[id].attempts == w.db.ops[id].attempts)
  {
    assert RowInv(w, id);
  }

  // ---------------------------------------------------------------------
  // What a failure leads to
  // ---------------------------------------------------------------------

  /** A success is a JSON object under a 2xx status; a failure is not counted exactly for the other refusals of one request. */
  lemma ClassifyMeans(reply: HttpReply)
    ensures Classify(reply) == Succeed <==> reply.Status? && 200 <= reply.code <= 299 && reply.body == JsonObject
    ensures Classify(reply).Fail? && !Classify(reply).affectsCircuit <==>
              reply.Status? && (reply.code < 200 || 300 <= reply.code < 500) && reply.code !in {401, 403, 408, 429}
  {
  }

  /**
   A failure under the claim in force puts the operation back if and only if it
   proves that the provider did not act and a claim is left; otherwise the row
   is dead-lettered. Without the claim it changes nothing.
   */
  lemma FailureOutcome(w: World, k: WorkerId, error: string, current: int)
    requires Inv(w) && Enabled(w, ReportFailed(k, error, current))
    ensures var v, t := Do(w, ReportFailed(k, error, current)), w.workers[k].token;
            && IsMautic(w, t.op) && IsMautic(v, t.op)
            && var op, after := w.db.ops[t.op], v.db.ops[t.op];
            if CurrentClaim(op, t.attempt, current) then
              && (after.state == Retry <==> w.workers[k].phase.verdict.retryable && op.attempts < MAX_ATTEMPTS)
              && (after.state == DeadLetter <==> after.state != Retry)
              && after.attempts == op.attempts && after.error == Some(error)
            else v.db == w.db
  {
    LiveIsActive(w, k);
  }

  /** A success reported again for a completed attempt is no late observation: nothing changes. One of another attempt is. */
  lemma RepeatedSuccess(db: Db, id: Id, digest: int, attempt: nat, current: int)
    requires id in db.ops && db.ops[id].state == Completed
    requires forall r :: r in db.results && r.key == LateAttempt(id, attempt) ==> r.op == id
    ensures db.ops[id].attempts == attempt ==> Success(db, id, digest, attempt, current) == (db, false)
    ensures db.ops[id].attempts != attempt ==>
      Success(db, id, digest, attempt, current).0.ops == db.ops
      && HasLate(Success(db, id, digest, attempt, current).0.results, id, db.ops[id].tenant)
  {
    var tenant := db.ops[id].tenant;
    if db.ops[id].attempts != attempt && !ResultExists(db.results, tenant, MauticLate, LateAttempt(id, attempt)) {
      assert ResultRow(tenant, id, MauticLate, LateAttempt(id, attempt), 0) in Success(db, id, digest, attempt, current).0.results;
    }
  }

  /** An operator's failure costs a waiting operation an attempt; what is not dead-lettered at eight waits out its delay. */
  lemma OperatorFailureWaits(w: World, id: Id, reason: string, current: int, t: int)
    requires Inv(w) && IsMautic(w, id)
    ensures var v := Do(w, OperatorFails(id, reason, current));
            && IsMautic(v, id)
            && var op, after := w.db.ops[id], v.db.ops[id];
            if op.state in {Pending, Retry} then
              && after.attempts == op.attempts + 1 && after.error == Some(reason)
              && (after.attempts == 8 <==> after.state == DeadLetter)
              && (after.attempts < 8 ==> (Claimable(v.db, id, t) <==> t >= current + Min(900, Pow2(after.attempts))))
            else v == w
  {
    assert RowInv(w, id);
  }

  /** Recovery of a Mautic operation is granted exactly for RETRY, and makes it claimable at once. */
  lemma RecoveredIsClaimable(w: World, id: Id, current: int, t: int)
    requires Inv(w) && IsMautic(w, id)
    ensures OperatorRecover(w.db, id, current).Accepted? <==> w.db.ops[id].state == Retry
    ensures var v := Do(w, OperatorRecovers(id, current));
            w.db.ops[id].state == Retry ==>
              v.db.ops[id].state == Pending && v.db.ops[id].error == None && (Claimable(v.db, id, t) <==> t >= current)
    ensures w.db.ops[id].state == Retry ==>
      Do(w, TenantReconciles(id, w.db.ops[id].tenant, current)) == Do(w, OperatorRecovers(id, current))
  {
    assert RowInv(w, id);
  }

  /** A reconciliation is refused to other tenants and where the provider may have acted, and changes RETRY rows only. */
  lemma ReconcileIff(w: World, id: Id, tenant: string, current: int)
    requires Inv(w) && IsMautic(w, id)
    ensures TenantReconcile(w.db, id, tenant, current).Accepted? <==>
              w.db.ops[id].tenant == tenant && w.db.ops[id].state != DeadLetter && !HasLate(w.db.results, id, tenant)
    ensures Do(w, TenantReconciles(id, tenant, current)) != w ==> w.db.ops[id].state == Retry
    ensures TenantReconcile(w.db, id, tenant, current).Accepted? ==>
      (TenantReconcile(w.db, id, tenant, current).value <==> w.db.ops[id].state == Retry)
  {
    assert RowInv(w, id);
  }

  /** An admitted operation is claimable from its admission on; admitted again it is the same one. */
  lemma AdmittedIsClaimable(w: World, newId: Id, other: Id, tenant: string, key: string, current: int, later: int, t: int)
    requires Inv(w) && newId !in w.db.ops
    requires forall j :: j in w.db.ops ==> (w.db.ops[j].tenant, w.db.ops[j].target, w.db.ops[j].key) != (tenant, Mautic, key)
    ensures var v := Do(w, Admits(newId, tenant, Mautic, key, current));
            && v.db.ops.Keys == w.db.ops.Keys + {newId}
            && (Claimable(v.db, newId, t) <==> t >= current)
            && (other !in v.db.ops ==> Do(v, Admits(other, tenant, Mautic, key, later)) == v)
  {
    var v := Do(w, Admits(newId, tenant, Mautic, key, current));
    assert SameRequest(v.db.ops[newId], tenant, Mautic, key);
    assert !HasLate(w.db.results, newId, tenant);
  }

  // ---------------------------------------------------------------------
  // Every waiting operation can be completed
  // ---------------------------------------------------------------------

  lemma {:induction false} Chained(w: World, a: seq<Step>, mid: World, b: seq<Step>, last: World)
    requires Run(w, a, mid) && Run(mid, b, last)
    ensures Run(w, a + b, last)
    decreases a
  {
    if a == [] {
      assert a + b == b;
    } else {
      Chained(Do(w, a[0]), a[1..], mid, b, last);
      assert (a + b)[0] == a[0] && (a + b)[1..] == a[1..] + b;
    }
  }

  lemma OneStep(w: World, s: Step)
    requires Enabled(w, s)
    ensures Run(w, [s], Do(w, s))
  {
    assert [s][1..] == [];
    assert Run(Do(w, s), [], Do(w, s));
  }

  /** Claimed and checked: the worker may send. */
  lemma CanBeReady(w: World, k: WorkerId, id: Id, current: int, locked: set<Id>) returns (ready: World, token: Token)
    requires Inv(w) && Enabled(w, Claim(k, id, current, locked))
    ensures Run(w, [Claim(k, id, current, locked)] + [Recheck(k, current)], ready)
    ensures Inv(ready) && InPhase(ready, k, Ready) && ready.workers[k].token == token && token.op == id && ready.effects == w.effects
    ensures IsMautic(ready, id) && CurrentClaim(ready.db.ops[id], token.attempt, current)
  {
    var claim, recheck := Claim(k, id, current, locked), Recheck(k, current);
    var claimed := Do(w, claim);
    token := claimed.workers[k].token;
    StepInv(w, claim);
    ready := Do(claimed, recheck);
    StepInv(claimed, recheck);
    OneStep(w, claim);
    OneStep(claimed, recheck);
    Chained(w, [claim], claimed, [recheck], ready);
  }

  lemma CanBeSent(w: World, k: WorkerId, id: Id, current: int, locked: set<Id>) returns (sent: World, token: Token)
    requires Inv(w) && Enabled(w, Claim(k, id, current, locked))
    ensures Run(w, [Claim(k, id, current, locked)] + [Recheck(k, current)] + [Send(k)], sent)
    ensures Inv(sent) && InPhase(sent, k, Waiting) && sent.workers[k].token == token && token.op == id && token in sent.wire
    ensures IsMautic(sent, id) && CurrentClaim(sent.db.ops[id], token.attempt, current) && sent.effects == w.effects
  {
    var ready, t := CanBeReady(w, k, id, current, locked);
    token := t;
    sent := Do(ready, Send(k));
    StepInv(ready, Send(k));
    OneStep(ready, Send(k));
    Chained(w, [Claim(k, id, current, locked)] + [Recheck(k, current)], ready, [Send(k)], sent);
  }

  lemma CanBeAnswered(w: World, k: WorkerId, current: int, digest: int) returns (last: World)
    requires Inv(w) && InPhase(w, k, Waiting) && w.workers[k].token in w.wire && IsMautic(w, w.workers[k].token.op)
    requires CurrentClaim(w.db.ops[w.workers[k].token.op], w.workers[k].token.attempt, current)
    ensures var t := w.workers[k].token;
            && Run(w, [Apply(t)] + [Respond(k, Status(200, JsonObject))] + [ReportSucceeded(k, digest, current)], last)
            && last.effects == w.effects + [t] && IsMautic(last, t.op) && last.db.ops[t.op].state == Completed
            && last.db.ops[t.op].lease == None && last.db.ops[t.op].error == None
            && ResultRow(last.db.ops[t.op].tenant, t.op, FromTarget(Mautic), CompletionOf(t.op), digest) in last.db.results
  {
    var t := w.workers[k].token;
    var apply, respond, report := Apply(t), Respond(k, Status(200, JsonObject)), ReportSucceeded(k, digest, current);
    assert RowInv(w, t.op);
    var applied := Do(w, apply);
    var answered := Do(applied, respond);
    last := Do(answered, report);
    OneStep(w, apply);
    OneStep(applied, respond);
    OneStep(answered, report);
    Chained(w, [apply], applied, [respond], answered);
    Chained(w, [apply] + [respond], answered, [report], last);
  }

  /**
   From every reachable world: an operation that waits, once its delay and the
   circuit's are over, can be sent and completed with exactly one effect, its
   result recorded, by any worker that finds the rows before it locked.
   */
  lemma WaitingCanComplete(w: World, k: WorkerId, id: Id, current: int, digest: int) returns (steps: seq<Step>, last: World)
    requires Inv(w) && k !in w.workers && IsMautic(w, id) && w.db.ops[id].state in {Pending, Retry}
    requires w.db.ops[id].nextAttemptAt <= current
    requires w.db.circuit.openUntil.Some? ==> w.db.circuit.openUntil.value <= current
    ensures Run(w, steps, last) && IsMautic(last, id) && last.db.ops[id].state == Completed
    ensures last.db.ops[id].lease == None && last.db.ops[id].error == None
    ensures exists t: Token :: t.op == id && last.effects == w.effects + [t]
    ensures ResultRow(last.db.ops[id].tenant, id, FromTarget(Mautic), CompletionOf(id), digest) in last.db.results
  {
    var locked := w.db.ops.Keys - {id};
    ClaimIff(w, k, id, current, locked);
    var claim := [Claim(k, id, current, locked)] + [Recheck(k, current)] + [Send(k)];
    var sent, token := CanBeSent(w, k, id, current, locked);
    last := CanBeAnswered(sent, k, current, digest);
    var answer := [Apply(token)] + [Respond(k, Status(200, JsonObject))] + [ReportSucceeded(k, digest, current)];
    Chained(w, claim, sent, answer, last);
    steps := claim + answer;
  }

  // ---------------------------------------------------------------------
  // No starvation
  // ---------------------------------------------------------------------

  /** The operations admitted no later than `id`. */
  function Elders(db: Db, id: Id): set<Id>
    requires id in db.ops
  {
    set j | j in db.ops && db.ops[j].createdAt <= db.ops[id].createdAt
  }

  lemma AdmissionTimeIsKept(w: World, s: Step, id: Id)
    requires Inv(w) && Enabled(w, s) && id in w.db.ops
    ensures id in Do(w, s).db.ops && Do(w, s).db.ops[id].createdAt == w.db.ops[id].createdAt
  {
    if IsQuiet(s) {
      StepsOutsideWorkersAreQuiet(w, s);
    }
  }

  lemma {:induction false} EldersStay(w: World, steps: seq<Step>, last: World, id: Id)
    requires Inv(w) && Run(w, steps, last) && id in w.db.ops
    ensures id in last.db.ops && Elders(w.db, id) <= Elders(last.db, id)
    decreases steps
  {
    if steps != [] {
      var v := Do(w, steps[0]);
      StepInv(w, steps[0]);
      forall j | j in w.db.ops ensures j in v.db.ops && v.db.ops[j].createdAt == w.db.ops[j].createdAt {
        AdmissionTimeIsKept(w, steps[0], j);
      }
      EldersStay(v, steps[1..], last, id);
    }
  }

  /** At every claim of the run, `id` could have been claimed instead. */
  ghost predicate PassedOver(w: World, steps: seq<Step>, id: Id)
    decreases steps
  {
    steps == [] ||
    (&& Enabled(w, steps[0])
     && (steps[0].Claim? ==> Claimable(w.db, id, steps[0].current) && id !in steps[0].locked && id != steps[0].id)
     && PassedOver(Do(w, steps[0]), steps[1..], id))
  }

  ghost predicate GoFirst(before: World, after: World, elders: set<Id>) {
    && |before.claims| <= |after.claims| && before.claims == after.claims[..|before.claims|]
    && forall n :: |before.claims| <= n < |after.claims| ==> after.claims[n].op in elders
  }

  lemma ElderGoesFirst(w: World, s: Step, id: Id)
    requires Enabled(w, s) && id in w.db.ops
    requires s.Claim? ==> Claimable(w.db, id, s.current) && id !in s.locked
    ensures GoFirst(w, Do(w, s), Elders(w.db, id))
  {
    if s.Claim? {
      assert ClaimChoice(w.db, s.current, s.locked, s.id);
    }
  }

  lemma GoOn(w: World, v: World, last: World, few: set<Id>, many: set<Id>)
    requires GoFirst(w, v, few) && GoFirst(v, last, many) && few <= many
    ensures GoFirst(w, last, many)
  {
    forall n | |w.claims| <= n < |last.claims| ensures last.claims[n].op in many {
      if n < |v.claims| {
        assert last.claims[n] == v.claims[n];
      }
    }
  }

  lemma {:induction false} EldersGoFirst(w: World, steps: seq<Step>, last: World, id: Id)
    requires Inv(w) && Run(w, steps, last) && id in w.db.ops && PassedOver(w, steps, id)
    ensures id in last.db.ops && GoFirst(w, last, Elders(last.db, id))
    decreases steps
  {
    if steps != [] {
      var v := Do(w, steps[0]);
      StepInv(w, steps[0]);
      AdmissionTimeIsKept(w, steps[0], id);
      EldersStay(w, steps, last, id);
      EldersGoFirst(v, steps[1..], last, id);
      ElderGoesFirst(w, steps[0], id);
      GoOn(w, v, last, Elders(w.db, id), Elders(last.db, id));
    }
  }

  function Others(claims: seq<Token>, id: Id): seq<Token> {
    if claims == [] then []
    else
      var init := claims[..|claims| - 1];
      Others(init, id) + if claims[|claims| - 1].op == id then [] else [claims[|claims| - 1]]
  }

  lemma {:induction false} OthersAre(claims: seq<Token>, id: Id, t: Token)
    ensures t in Others(claims, id) <==> t in claims && t.op != id
  {
    if claims != [] {
      OthersAre(claims[..|claims| - 1], id, t);
      assert claims == claims[..|claims| - 1] + [claims[|claims| - 1]];
    }
  }

  lemma {:induction false} OthersSize(claims: seq<Token>, id: Id)
    ensures |claims| == |Others(claims, id)| + ClaimCount(claims, id)
  {
    if claims != [] {
      OthersSize(claims[..|claims| - 1], id);
    }
  }

  lemma {:induction false} OthersCount(claims: seq<Token>, id: Id, j: Id)
    requires j != id
    ensures ClaimCount(Others(claims, id), j) == ClaimCount(claims, j)
  {
    if claims != [] {
      var init, last := claims[..|claims| - 1], claims[|claims| - 1];
      OthersCount(init, id, j);
      var rest := Others(claims, id);
      if last.op == id {
        assert rest == Others(init, id);
      } else {
        assert rest == Others(init, id) + [last] && rest[..|rest| - 1] == Others(init, id);
      }
    }
  }

  ghost predicate AtMostEach(claims: seq<Token>, ids: set<Id>) {
    (forall t :: t in claims ==> t.op in ids) && (forall j :: j in ids ==> ClaimCount(claims, j) <= MAX_ATTEMPTS)
  }

  lemma OneFewer(claims: seq<Token>, ids: set<Id>, id: Id)
    requires AtMostEach(claims, ids) && id in ids
    ensures AtMostEach(Others(claims, id), ids - {id})
  {
    forall t | t in Others(claims, id) ensures t.op in ids - {id} {
      OthersAre(claims, id, t);
    }
    forall j | j in ids - {id} ensures ClaimCount(Others(claims, id), j) <= MAX_ATTEMPTS {
      OthersCount(claims, id, j);
    }
  }

  lemma SomeClaim(claims: seq<Token>)
    ensures claims == [] || exists t :: t in claims
  {
    if claims != [] {
      assert claims[0] in claims;
    }
  }

  lemma {:induction false} FewEach(claims: seq<Token>, ids: set<Id>)
    requires AtMostEach(claims, ids)
    ensures |claims| <= MAX_ATTEMPTS * |ids|
    decreases ids
  {
    if ids == {} {
      SomeClaim(claims);
    } else {
      var id :| id in ids;
      OneFewer(claims, ids, id);
      OthersSize(claims, id);
      FewEach(Others(claims, id), ids - {id});
      assert |ids| == |ids - {id}| + 1;
    }
  }

  lemma {:induction false} SuffixCount(a: seq<Token>, b: seq<Token>, id: Id)
    ensures ClaimCount(a + b, id) == ClaimCount(a, id) + ClaimCount(b, id)
    decreases b
  {
    if b == [] {
      assert a + b == a;
    } else {
      SuffixCount(a, b[..|b| - 1], id);
      assert (a + b)[..|a + b| - 1] == a + b[..|b| - 1];
    }
  }

  lemma ClaimedIsMautic(w: World, s: Step)
    requires Inv(w) && Enabled(w, s)
    requires forall t :: t in w.claims ==> IsMautic(w, t.op)
    ensures forall t :: t in Do(w, s).claims ==> IsMautic(Do(w, s), t.op)
  {
    forall t | t in w.claims ensures IsMautic(Do(w, s), t.op) {
      SettledStep(w, s, t.op);
    }
    if s.Claim? {
      SettledStep(w, s, s.id);
    }
  }

  lemma {:induction false} ClaimedAreMautic(w: World, steps: seq<Step>, last: World)
    requires Inv(w) && Run(w, steps, last)
    requires forall t :: t in w.claims ==> IsMautic(w, t.op)
    ensures forall t :: t in last.claims ==> IsMautic(last, t.op)
    decreases steps
  {
    if steps != [] {
      ClaimedIsMautic(w, steps[0]);
      StepInv(w, steps[0]);
      ClaimedAreMautic(Do(w, steps[0]), steps[1..], last);
    }
  }

  /**
   A claimable operation is not passed over for ever: while every claim prefers
   another row, there are at most five claims for each operation admitted no
   later than it.
   */
  lemma NoStarvation(clock: int, prefix: seq<Step>, w: World, steps: seq<Step>, last: World, id: Id)
    requires Run(Initial(clock), prefix, w) && Run(w, steps, last) && id in w.db.ops && PassedOver(w, steps, id)
    ensures id in last.db.ops && |last.claims| - |w.claims| <= 5 * |Elders(last.db, id)|
  {
    InitialInv(clock);
    RunInv(Initial(clock), prefix, w);
    RunInv(w, steps, last);
    EldersGoFirst(w, steps, last, id);
    ClaimedAreMautic(Initial(clock), prefix, w);
    ClaimedAreMautic(w, steps, last);
    var elders, recent := Elders(last.db, id), last.claims[|w.claims|..];
    assert last.claims == w.claims + recent;
    forall j | j in elders ensures ClaimCount(recent, j) <= MAX_ATTEMPTS {
      SuffixCount(w.claims, recent, j);
      assert RowInv(last, j);
      if ClaimCount(recent, j) > 0 && !IsMautic(last, j) {
        NoClaimsYet(last.claims, j);
      }
    }
    FewEach(recent, elders);
  }
}
