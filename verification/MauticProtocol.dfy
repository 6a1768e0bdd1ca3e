/**
 Mautic dispatch as a protocol: any number of workers, an unreliable provider,
 operators and tenants, interleaved transaction by transaction.

 A worker that crashes is a worker that never takes another step. A request on
 the wire may be applied at any later time, also after its worker gave up or
 its lease was recovered. Clock readings are arbitrary: no step assumes that
 two processes agree on the time.
 The provider is trusted in one respect only: a 429 reply or a failed
 connection means that the request was not and will not be applied.
 */
module MauticProtocol {

  import opened Numbers
  import opened Wrappers
  import opened IntegrationOutbox

  // ---------------------------------------------------------------------
  // Outcome classification
  // ---------------------------------------------------------------------

  datatype Body = JsonObject | Oversized | Malformed

  datatype HttpReply = Status(code: int, body: Body) | ConnectError | TransportError

  datatype Verdict = Succeed | Fail(retryable: bool, affectsCircuit: bool)

  function Classify(reply: HttpReply): Verdict {
    match reply
    case ConnectError => Fail(true, true)
    case TransportError => Fail(false, true)
    case Status(code, body) =>
      if code == 429 then Fail(true, true)
      else if code >= 500 then Fail(false, true)
      else if !(200 <= code < 300) then Fail(false, code in {401, 403, 408})
      else if body.JsonObject? then Succeed
      else Fail(false, true)
  }

  /** The replies that prove the provider did not act. */
  predicate ProvesNotApplied(reply: HttpReply) {
    reply.ConnectError? || (reply.Status? && reply.code == 429)
  }

  lemma RetryableMeansNotApplied(reply: HttpReply)
    ensures Classify(reply).Fail? && Classify(reply).retryable <==> ProvesNotApplied(reply)
  {
  }

  // ---------------------------------------------------------------------
  // The world and its steps
  // ---------------------------------------------------------------------

  type WorkerId = nat

  /** An attempt of an operation: the fencing token of a claim. */
  datatype Token = Token(op: Id, attempt: nat)

  datatype Phase = Claimed | Ready | Waiting | Reporting(verdict: Verdict) | Gone

  datatype Worker = Worker(token: Token, phase: Phase)

  /** `wire`: requests the provider may still apply. `effects`, `claims`: logs, oldest first. */
  datatype World = World(
    db: Db, workers: map<WorkerId, Worker>, wire: set<Token>,
    effects: seq<Token>, claims: seq<Token>, clock: int)

  datatype Step =
    | Recover(current: int, locked: set<Id>)
    | Claim(worker: WorkerId, id: Id, current: int, locked: set<Id>)
    | Recheck(worker: WorkerId, current: int)
    | Send(worker: WorkerId)
    | Unsendable(worker: WorkerId, called: bool)
    | Apply(token: Token)
    | Respond(worker: WorkerId, reply: HttpReply)
    | ReportFailed(worker: WorkerId, error: string, current: int)
    | ReportSucceeded(worker: WorkerId, digest: int, current: int)
    | SealingFailed(worker: WorkerId)
    | OperatorFails(id: Id, reason: string, current: int)
    | OperatorRecovers(id: Id, current: int)
    | TenantCancels(id: Id, tenant: string)
    | TenantReconciles(id: Id, tenant: string, current: int)
    | Admits(newId: Id, tenant: string, target: Target, key: string, current: int)
    | CallsBack(id: Id, tenant: string, source: Target, key: string, payload: CallbackPayload)

  predicate InPhase(w: World, k: WorkerId, phase: Phase) {
    k in w.workers && w.workers[k].phase == phase
  }

  ghost predicate Enabled(w: World, s: Step) {
    match s
    case Claim(k, id, current, locked) =>
      k !in w.workers && !CircuitOpen(w.db.circuit, current) && ClaimChoice(w.db, current, locked, id)
    case Recheck(k, _) => InPhase(w, k, Claimed)
    case Send(k) => InPhase(w, k, Ready)
    case Unsendable(k, _) => InPhase(w, k, Ready)
    case Apply(token) => token in w.wire
    case Respond(k, reply) => InPhase(w, k, Waiting) && (ProvesNotApplied(reply) ==> w.workers[k].token in w.wire)
    case ReportFailed(k, _, _) => k in w.workers && w.workers[k].phase.Reporting? && w.workers[k].phase.verdict.Fail?
    case ReportSucceeded(k, _, _) => InPhase(w, k, Reporting(Succeed))
    case SealingFailed(k) => InPhase(w, k, Reporting(Succeed))
    case Admits(newId, _, _, _, _) => newId !in w.db.ops
    case _ => true
  }

  function Tick(w: World, current: int): World {
    if current > w.clock then w.(clock := current) else w
  }

  function Move(w: World, k: WorkerId, phase: Phase): World
    requires k in w.workers
  {
    w.(workers := w.workers[k := w.workers[k].(phase := phase)])
  }

  function Commit<T>(w: World, reply: Reply<T>): World {
    if reply.Accepted? then w.(db := reply.db) else w
  }

  ghost function Do(w: World, s: Step): World
    requires Enabled(w, s)
  {
    match s
    case Recover(current, locked) => Tick(w, current).(db := RecoverExpired(w.db, current, locked))
    case Claim(k, id, current, _) =>
      var token := Token(id, w.db.ops[id].attempts + 1);
      Tick(w, current).(
        db := w.db.(ops := w.db.ops[id := ClaimRow(w.db.ops[id], current)]),
        workers := w.workers[k := Worker(token, Claimed)],
        claims := w.claims + [token])
    case Recheck(k, current) =>
      var t := w.workers[k].token;
      Move(Tick(w, current), k,
        if t.op in w.db.ops && CurrentClaim(w.db.ops[t.op], t.attempt, current)
           && !HasLate(w.db.results, t.op, w.db.ops[t.op].tenant) then Ready else Gone)
    case Send(k) => Move(w.(wire := w.wire + {w.workers[k].token}), k, Waiting)
    case Unsendable(k, called) => Move(w, k, Reporting(Fail(false, called)))
    case Apply(token) => w.(wire := w.wire - {token}, effects := w.effects + [token])
    case Respond(k, reply) =>
      Move(w.(wire := if ProvesNotApplied(reply) then w.wire - {w.workers[k].token} else w.wire),
           k, Reporting(Classify(reply)))
    case ReportFailed(k, error, current) =>
      var t, v := w.workers[k].token, w.workers[k].phase.verdict;
      Move(Tick(w, current), k, Gone).(db := Failure(w.db, t.op, error, v.retryable, t.attempt, v.affectsCircuit, current).0)
    case ReportSucceeded(k, digest, current) =>
      var t := w.workers[k].token;
      Move(Tick(w, current), k, Gone).(db := Success(w.db, t.op, digest, t.attempt, current).0)
    case SealingFailed(k) => Move(w, k, Reporting(Fail(false, true)))
    case OperatorFails(id, reason, current) => Commit(w, OperatorFail(w.db, id, reason, current))
    case OperatorRecovers(id, current) => Commit(w, OperatorRecover(w.db, id, current))
    case TenantCancels(id, tenant) => Commit(w, TenantCancel(w.db, id, tenant))
    case TenantReconciles(id, tenant, current) => Commit(w, TenantReconcile(w.db, id, tenant, current))
    case Admits(newId, tenant, target, key, current) => w.(db := Enqueue(w.db, newId, tenant, target, key, current))
    case CallsBack(id, tenant, source, key, payload) => Commit(w, Callback(w.db, id, tenant, source, key, payload))
  }

  function Initial(clock: int): World {
    World(Db(map[], {}, Circuit(0, None)), map[], {}, [], [], clock)
  }

  /** `steps` lead from `w` to `last`, each enabled where it is taken. */
  ghost predicate Run(w: World, steps: seq<Step>, last: World)
    decreases steps
  {
    if steps == [] then w == last
    else Enabled(w, steps[0]) && Run(Do(w, steps[0]), steps[1..], last)
  }

  // ---------------------------------------------------------------------
  // The invariant
  // ---------------------------------------------------------------------

  predicate Live(w: World, k: WorkerId) {
    k in w.workers && w.workers[k].phase != Gone
  }

  /** The attempt can still act on the provider or on the row, or has acted on the provider. */
  predicate Active(w: World, t: Token) {
    t in w.wire || t in w.effects || exists k | k in w.workers :: Live(w, k) && w.workers[k].token == t
  }

  predicate IsMautic(w: World, id: Id) {
    id in w.db.ops && w.db.ops[id].target == Mautic
  }

  function ClaimCount(claims: seq<Token>, id: Id): nat {
    if claims == [] then 0
    else ClaimCount(claims[..|claims| - 1], id) + if claims[|claims| - 1].op == id then 1 else 0
  }

  ghost predicate RowInv(w: World, id: Id) {
    IsMautic(w, id) ==>
      var op := w.db.ops[id];
      && (op.state == Processing <==> op.lease.Some?)
      && op.attempts <= OPERATOR_MAX_ATTEMPTS
      && ClaimCount(w.claims, id) <= op.attempts
      && ClaimCount(w.claims, id) <= MAX_ATTEMPTS
      && (op.state in {Pending, Retry} ==> op.attempts < OPERATOR_MAX_ATTEMPTS && ClaimCount(w.claims, id) < MAX_ATTEMPTS)
      && (ResultExists(w.db.results, op.tenant, FromTarget(Mautic), CompletionOf(id)) <==> op.state == Completed)
      && (HasLate(w.db.results, id, op.tenant) ==>
            op.state == DeadLetter || (op.state == Processing && op.lease.value <= w.clock))
  }

  /** Only the row's current attempt is active, and only after its claim and with no way back. */
  ghost predicate TokenInv(w: World, t: Token) {
    Active(w, t) ==>
      && IsMautic(w, t.op)
      && t.attempt == w.db.ops[t.op].attempts
      && w.db.ops[t.op].state in {Processing, Completed, DeadLetter}
  }

  /** A live worker's row is not settled, and a worker that may still retry knows it had no effect. */
  ghost predicate WorkerInv(w: World, k: WorkerId) {
    Live(w, k) ==>
      var t, phase := w.workers[k].token, w.workers[k].phase;
      && IsMautic(w, t.op)
      && w.db.ops[t.op].state in {Processing, DeadLetter}
      && !HasLate(w.db.results, t.op, w.db.ops[t.op].tenant)
      && (phase in {Claimed, Ready} || (phase.Reporting? && phase.verdict.Fail? && phase.verdict.retryable) ==>
            t !in w.wire && t !in w.effects)
  }

  ghost predicate LogInv(w: World) {
    && (forall i, j :: 0 <= i < j < |w.effects| ==> w.effects[i] != w.effects[j])
    && (forall t :: t in w.wire ==> t !in w.effects)
    && (forall k, l :: Live(w, k) && Live(w, l) && k != l ==> w.workers[k].token != w.workers[l].token)
  }

  ghost predicate TableInv(w: World) {
    && (forall t :: t in w.claims ==> t.op in w.db.ops)
    && (forall r :: r in w.db.results ==> r.op in w.db.ops)
    && (forall r :: r in w.db.results && r.key.CompletionOf? ==> r.key.op == r.op)
    && (forall r :: r in w.db.results && r.key.LateAttempt? ==> r.key.lateOp == r.op)
    && (forall a, b :: a in w.db.ops && b in w.db.ops && a != b ==>
          !SameRequest(w.db.ops[a], w.db.ops[b].tenant, w.db.ops[b].target, w.db.ops[b].key))
  }

  ghost predicate Inv(w: World) {
    && LogInv(w)
    && TableInv(w)
    && (forall id :: RowInv(w, id))
    && (forall t :: TokenInv(w, t))
    && (forall k :: WorkerInv(w, k))
  }

  lemma InitialInv(clock: int)
    ensures Inv(Initial(clock))
  {
  }

  // ---------------------------------------------------------------------
  // Every step keeps the invariant
  // ---------------------------------------------------------------------

  lemma LiveIsActive(w: World, k: WorkerId)
    requires Inv(w) && Live(w, k)
    ensures Active(w, w.workers[k].token)
    ensures TokenInv(w, w.workers[k].token) && WorkerInv(w, k)
  {
  }

  lemma OneLiveWorkerPerRow(w: World, j: WorkerId, k: WorkerId)
    requires Inv(w) && Live(w, j) && Live(w, k) && w.workers[j].token.op == w.workers[k].token.op
    ensures j == k
  {
    LiveIsActive(w, j);
    LiveIsActive(w, k);
  }

  lemma NoClaimsYet(claims: seq<Token>, id: Id)
    requires forall t :: t in claims ==> t.op != id
    ensures ClaimCount(claims, id) == 0
  {
  }

  /** What a step outside the workers may do to an existing Mautic row. */
  ghost predicate QuietRow(a: Op, b: Op) {
    match a.state
       case Completed => b == a
       case DeadLetter => b == a
       case Cancelled => b == a
       case Processing => b == a || b == ExpiredRow(a)
       case _ =>
         && b.lease == a.lease
         && (|| (b.state in {Pending, Retry, Cancelled} && b.attempts == a.attempts)
             || (b.state == Retry && b.attempts == a.attempts + 1 && b.attempts < OPERATOR_MAX_ATTEMPTS)
             || (b.state == DeadLetter && b.attempts == a.attempts + 1 && b.attempts >= OPERATOR_MAX_ATTEMPTS))
  }

  ghost predicate QuietDb(a: Db, b: Db) {
    && a.results <= b.results
    && (forall r :: r in b.results && r !in a.results ==>
          r.op in a.ops && a.ops[r.op].target != Mautic && r.key.CallbackKey?)
    && (forall id :: id in a.ops ==> id in b.ops && SameIdentity(a.ops[id], b.ops[id]))
    && (forall id :: id in a.ops && a.ops[id].target == Mautic ==> QuietRow(a.ops[id], b.ops[id]))
    && (forall id :: id in b.ops && id !in a.ops ==>
          b.ops[id].state == Pending && b.ops[id].attempts == 0 && b.ops[id].lease == None &&
          !KeyTaken(a, b.ops[id].tenant, b.ops[id].target, b.ops[id].key))
    && (forall i, j :: i in b.ops && i !in a.ops && j in b.ops && j !in a.ops ==> i == j)
  }

  predicate SameIdentity(a: Op, b: Op) {
    a.tenant == b.tenant && a.target == b.target && a.key == b.key && a.createdAt == b.createdAt
  }

  ghost predicate Quiet(w: World, v: World) {
    && v.workers == w.workers && v.wire == w.wire && v.effects == w.effects && v.claims == w.claims && v.clock >= w.clock
    && QuietDb(w.db, v.db)
  }

  lemma RecoverExpiredIsQuiet(db: Db, current: int, locked: set<Id>)
    ensures QuietDb(db, RecoverExpired(db, current, locked))
  {
  }

  lemma OperatorFailIsQuiet(db: Db, id: Id, reason: string, current: int)
    ensures OperatorFail(db, id, reason, current).Accepted? ==> QuietDb(db, OperatorFail(db, id, reason, current).db)
  {
  }

  lemma OperatorRecoverIsQuiet(db: Db, id: Id, current: int)
    ensures OperatorRecover(db, id, current).Accepted? ==> QuietDb(db, OperatorRecover(db, id, current).db)
  {
  }

  lemma CancelIsQuiet(db: Db, id: Id, tenant: string)
    ensures TenantCancel(db, id, tenant).Accepted? ==> QuietDb(db, TenantCancel(db, id, tenant).db)
  {
  }

  lemma ReconcileIsQuiet(db: Db, id: Id, tenant: string, current: int)
    ensures TenantReconcile(db, id, tenant, current).Accepted? ==> QuietDb(db, TenantReconcile(db, id, tenant, current).db)
  {
  }

  lemma AdmissionIsQuiet(db: Db, newId: Id, tenant: string, target: Target, key: string, current: int)
    requires newId !in db.ops
    ensures QuietDb(db, Enqueue(db, newId, tenant, target, key, current))
  {
  }

  lemma CallbackIsQuiet(db: Db, id: Id, tenant: string, source: Target, key: string, payload: CallbackPayload)
    ensures Callback(db, id, tenant, source, key, payload).Accepted? ==>
              QuietDb(db, Callback(db, id, tenant, source, key, payload).db)
  {
  }

  predicate IsQuiet(s: Step) {
    s.Recover? || s.OperatorFails? || s.OperatorRecovers? || s.TenantCancels? || s.TenantReconciles? || s.Admits? || s.CallsBack?
  }

  lemma StepsOutsideWorkersAreQuiet(w: World, s: Step)
    requires IsQuiet(s) && Enabled(w, s)
    ensures Quiet(w, Do(w, s))
  {
    match s
    case Recover(current, locked) => RecoverExpiredIsQuiet(w.db, current, locked);
    case OperatorFails(id, reason, current) => OperatorFailIsQuiet(w.db, id, reason, current);
    case OperatorRecovers(id, current) => OperatorRecoverIsQuiet(w.db, id, current);
    case TenantCancels(id, tenant) => CancelIsQuiet(w.db, id, tenant);
    case TenantReconciles(id, tenant, current) => ReconcileIsQuiet(w.db, id, tenant, current);
    case Admits(newId, tenant, target, key, current) => AdmissionIsQuiet(w.db, newId, tenant, target, key, current);
    case CallsBack(id, tenant, source, key, payload) => CallbackIsQuiet(w.db, id, tenant, source, key, payload);
  }

  lemma QuietLateKept(a: Db, b: Db, id: Id)
    requires QuietDb(a, b) && id in a.ops && a.ops[id].target == Mautic
    ensures HasLate(b.results, id, b.ops[id].tenant) <==> HasLate(a.results, id, a.ops[id].tenant)
  {
  }

  lemma QuietTables(w: World, v: World)
    requires TableInv(w) && Quiet(w, v)
    ensures TableInv(v)
  {
    forall a, b | a in v.db.ops && b in v.db.ops && a != b
      ensures !SameRequest(v.db.ops[a], v.db.ops[b].tenant, v.db.ops[b].target, v.db.ops[b].key)
    {
      if a in w.db.ops && b in w.db.ops {
        assert !SameRequest(w.db.ops[a], w.db.ops[b].tenant, w.db.ops[b].target, w.db.ops[b].key);
      } else if a in w.db.ops {
        assert !SameRequest(w.db.ops[a], v.db.ops[b].tenant, v.db.ops[b].target, v.db.ops[b].key);
      } else if b in w.db.ops {
        assert !SameRequest(w.db.ops[b], v.db.ops[a].tenant, v.db.ops[a].target, v.db.ops[a].key);
      }
    }
  }

  lemma QuietRows(w: World, v: World, id: Id)
    requires Inv(w) && Quiet(w, v)
    ensures RowInv(v, id)
  {
    assert RowInv(w, id);
    if IsMautic(w, id) {
      QuietLateKept(w.db, v.db, id);
    } else if IsMautic(v, id) {
      NoClaimsYet(w.claims, id);
    }
  }

  lemma QuietInv(w: World, v: World)
    requires Inv(w) && Quiet(w, v)
    ensures Inv(v)
  {
    QuietTables(w, v);
    forall id ensures RowInv(v, id) {
      QuietRows(w, v, id);
    }
    forall t ensures TokenInv(v, t) {
      assert TokenInv(w, t);
    }
    forall k ensures WorkerInv(v, k) {
      assert WorkerInv(w, k);
      if Live(w, k) { QuietLateKept(w.db, v.db, w.workers[k].token.op); }
    }
  }

  lemma ClaimedRow(w: World, s: Step, id: Id)
    requires Inv(w) && s.Claim? && Enabled(w, s)
    ensures RowInv(Do(w, s), id)
  {
    assert RowInv(w, id);
    var v := Do(w, s);
    assert v.claims[..|v.claims| - 1] == w.claims;
  }

  /** A claimable row has no active token: the claim's own token is the first. */
  lemma ClaimedToken(w: World, s: Step, t: Token)
    requires Inv(w) && s.Claim? && Enabled(w, s)
    ensures TokenInv(Do(w, s), t)
    ensures t.op == s.id ==> !Active(w, t)
  {
    assert TokenInv(w, t);
  }

  lemma ClaimInv(w: World, s: Step)
    requires Inv(w) && s.Claim? && Enabled(w, s)
    ensures Inv(Do(w, s))
  {
    var v := Do(w, s);
    var token := Token(s.id, w.db.ops[s.id].attempts + 1);
    ClaimedToken(w, s, token);
    forall id ensures RowInv(v, id) {
      ClaimedRow(w, s, id);
    }
    forall t ensures TokenInv(v, t) && (t.op == s.id ==> !Active(w, t)) {
      ClaimedToken(w, s, t);
    }
    forall k ensures WorkerInv(v, k) && (Live(w, k) ==> w.workers[k].token != token) {
      ClaimedWorker(w, s, k);
    }
  }

  lemma ClaimedWorker(w: World, s: Step, k: WorkerId)
    requires Inv(w) && s.Claim? && Enabled(w, s)
    ensures WorkerInv(Do(w, s), k) && (Live(w, k) ==> w.workers[k].token != Token(s.id, w.db.ops[s.id].attempts + 1))
  {
    assert WorkerInv(w, k);
    if Live(w, k) {
      LiveIsActive(w, k);
      ClaimedToken(w, s, w.workers[k].token);
    }
    ClaimedToken(w, s, Token(s.id, w.db.ops[s.id].attempts + 1));
  }

  /** Steps that leave the tables alone: the rest follows from what they activate. */
  lemma MoveInv(w: World, v: World)
    requires Inv(w) && v.db == w.db && v.claims == w.claims && v.clock >= w.clock
    requires forall t :: Active(v, t) ==> Active(w, t)
    requires LogInv(v) && forall k :: WorkerInv(v, k)
    ensures Inv(v)
  {
    forall id ensures RowInv(v, id) {
      assert RowInv(w, id);
    }
    forall t ensures TokenInv(v, t) {
      assert TokenInv(w, t);
    }
  }

  lemma PhaseStepInv(w: World, s: Step)
    requires Inv(w) && Enabled(w, s)
    requires s.Recheck? || s.Unsendable? || s.SealingFailed?
    ensures Inv(Do(w, s))
  {
    var v := Do(w, s);
    LiveIsActive(w, s.worker);
    forall k ensures WorkerInv(v, k) {
      assert WorkerInv(w, k);
    }
    MoveInv(w, v);
  }

  lemma SendInv(w: World, s: Step)
    requires Inv(w) && Enabled(w, s) && s.Send?
    ensures Inv(Do(w, s))
  {
    var v := Do(w, s);
    LiveIsActive(w, s.worker);
    forall k ensures WorkerInv(v, k) {
      assert WorkerInv(w, k);
    }
    MoveInv(w, v);
  }

  lemma RespondInv(w: World, s: Step)
    requires Inv(w) && Enabled(w, s) && s.Respond?
    ensures Inv(Do(w, s))
  {
    var v := Do(w, s);
    LiveIsActive(w, s.worker);
    RetryableMeansNotApplied(s.reply);
    forall k ensures WorkerInv(v, k) {
      assert WorkerInv(w, k);
    }
    MoveInv(w, v);
  }

  lemma ApplyInv(w: World, s: Step)
    requires Inv(w) && Enabled(w, s) && s.Apply?
    ensures Inv(Do(w, s))
  {
    var v := Do(w, s);
    forall k ensures WorkerInv(v, k) {
      assert WorkerInv(w, k);
    }
    MoveInv(w, v);
  }

  /** What a report may leave behind: nothing, its row settled or retryable, or an observation. */
  ghost predicate Reported(w: World, v: World, k: WorkerId)
    requires Live(w, k) && IsMautic(w, w.workers[k].token.op)
  {
    var t := w.workers[k].token;
    var a := w.db.ops[t.op];
    && v.claims == w.claims && v.wire == w.wire && v.effects == w.effects && v.clock >= w.clock
    && v.workers == w.workers[k := Worker(t, Gone)]
    && v.db.ops.Keys == w.db.ops.Keys
    && (forall id :: id in w.db.ops && id != t.op ==> v.db.ops[id] == w.db.ops[id])
    && w.db.results <= v.db.results
    && (forall r :: r in v.db.results && r !in w.db.results ==> r.op == t.op && r.tenant == a.tenant)
    && var b := v.db.ops[t.op];
    && b.tenant == a.tenant && b.target == a.target && b.key == a.key && b.attempts == a.attempts
    && if b == a then
         && (forall r :: r in v.db.results && r !in w.db.results ==> r.source == MauticLate && r.key == LateAttempt(t.op, t.attempt))
         && (v.db.results == w.db.results || !CurrentClaim(a, t.attempt, v.clock))
       else
         && a.state == Processing && b.lease == None
         && b.state in {Retry, Completed, DeadLetter}
         && (forall r :: r in v.db.results && r !in w.db.results ==> r.source == FromTarget(Mautic) && r.key == CompletionOf(t.op))
         && (b.state == Completed <==> ResultExists(v.db.results, a.tenant, FromTarget(Mautic), CompletionOf(t.op)))
         && (b.state == Retry ==> a.attempts < MAX_ATTEMPTS && t !in w.wire && t !in w.effects)
  }

  lemma FailureReported(w: World, s: Step)
    requires Inv(w) && Enabled(w, s) && s.ReportFailed?
    ensures Live(w, s.worker) && IsMautic(w, w.workers[s.worker].token.op) && Reported(w, Do(w, s), s.worker)
  {
    LiveIsActive(w, s.worker);
    assert RowInv(w, w.workers[s.worker].token.op);
  }

  lemma CompletionReported(w: World, s: Step)
    requires Inv(w) && Enabled(w, s) && s.ReportSucceeded?
    requires var t := w.workers[s.worker].token; t.op in w.db.ops && CurrentClaim(w.db.ops[t.op], t.attempt, s.current)
    ensures Live(w, s.worker) && IsMautic(w, w.workers[s.worker].token.op) && Reported(w, Do(w, s), s.worker)
  {
    LiveIsActive(w, s.worker);
    var t := w.workers[s.worker].token;
    assert RowInv(w, t.op);
    var row := ResultRow(w.db.ops[t.op].tenant, t.op, FromTarget(Mautic), CompletionOf(t.op), s.digest);
    assert row in Do(w, s).db.results;
  }

  lemma LateReported(w: World, s: Step)
    requires Inv(w) && Enabled(w, s) && s.ReportSucceeded?
    requires var t := w.workers[s.worker].token; t.op in w.db.ops && !CurrentClaim(w.db.ops[t.op], t.attempt, s.current)
    ensures Live(w, s.worker) && IsMautic(w, w.workers[s.worker].token.op) && Reported(w, Do(w, s), s.worker)
  {
    LiveIsActive(w, s.worker);
  }

  lemma SuccessReported(w: World, s: Step)
    requires Inv(w) && Enabled(w, s) && s.ReportSucceeded?
    ensures Live(w, s.worker) && IsMautic(w, w.workers[s.worker].token.op) && Reported(w, Do(w, s), s.worker)
  {
    LiveIsActive(w, s.worker);
    var t := w.workers[s.worker].token;
    if CurrentClaim(w.db.ops[t.op], t.attempt, s.current) {
      CompletionReported(w, s);
    } else {
      LateReported(w, s);
    }
  }

  lemma ReportedRow(w: World, v: World, k: WorkerId, id: Id)
    requires Inv(w) && Live(w, k) && IsMautic(w, w.workers[k].token.op) && Reported(w, v, k)
    ensures RowInv(v, id)
  {
    LiveIsActive(w, k);
    assert RowInv(w, id);
  }

  lemma ReportedToken(w: World, v: World, k: WorkerId, u: Token)
    requires Inv(w) && Live(w, k) && IsMautic(w, w.workers[k].token.op) && Reported(w, v, k)
    ensures TokenInv(v, u)
  {
    LiveIsActive(w, k);
    assert TokenInv(w, u);
    if Active(v, u) && u.op == w.workers[k].token.op {
      assert u == w.workers[k].token;
      assert !exists j :: j in v.workers && Live(v, j) && v.workers[j].token == u;
    }
  }

  lemma ReportedWorker(w: World, v: World, k: WorkerId, j: WorkerId)
    requires Inv(w) && Live(w, k) && IsMautic(w, w.workers[k].token.op) && Reported(w, v, k)
    ensures WorkerInv(v, j)
  {
    LiveIsActive(w, k);
    assert WorkerInv(w, j);
    if Live(w, j) && j != k && w.workers[j].token.op == w.workers[k].token.op {
      OneLiveWorkerPerRow(w, j, k);
    }
  }

  lemma ReportedTables(w: World, v: World, k: WorkerId)
    requires Inv(w) && Live(w, k) && IsMautic(w, w.workers[k].token.op) && Reported(w, v, k)
    ensures TableInv(v) && LogInv(v)
  {
  }

  lemma ReportedInv(w: World, v: World, k: WorkerId)
    requires Inv(w) && Live(w, k) && IsMautic(w, w.workers[k].token.op) && Reported(w, v, k)
    ensures Inv(v)
  {
    ReportedTables(w, v, k);
    forall id ensures RowInv(v, id) {
      ReportedRow(w, v, k, id);
    }
    forall u ensures TokenInv(v, u) {
      ReportedToken(w, v, k, u);
    }
    forall j ensures WorkerInv(v, j) {
      ReportedWorker(w, v, k, j);
    }
  }

  lemma StepInv(w: World, s: Step)
    requires Inv(w) && Enabled(w, s)
    ensures Inv(Do(w, s))
  {
    if IsQuiet(s) {
      StepsOutsideWorkersAreQuiet(w, s);
      QuietInv(w, Do(w, s));
    } else {
      match s
      case Claim(_, _, _, _) => ClaimInv(w, s);
      case Send(_) => SendInv(w, s);
      case Respond(_, _) => RespondInv(w, s);
      case Apply(_) => ApplyInv(w, s);
      case ReportFailed(k, _, _) => FailureReported(w, s); ReportedInv(w, Do(w, s), k);
      case ReportSucceeded(k, _, _) => SuccessReported(w, s); ReportedInv(w, Do(w, s), k);
      case _ => PhaseStepInv(w, s);
    }
  }

  lemma {:induction false} RunInv(w: World, steps: seq<Step>, last: World)
    requires Inv(w) && Run(w, steps, last)
    ensures Inv(last)
    decreases steps
  {
    if steps != [] {
      StepInv(w, steps[0]);
      RunInv(Do(w, steps[0]), steps[1..], last);
    }
  }

  // ---------------------------------------------------------------------
  // Theorems over every run
  // ---------------------------------------------------------------------

  /**
   The provider is affected at most once per operation, and at most once per
   admitted request: no two effects share tenant and idempotency key.
   */
  lemma AtMostOneEffect(clock: int, steps: seq<Step>, w: World, i: nat, j: nat)
    requires Run(Initial(clock), steps, w) && i < j < |w.effects|
    ensures w.effects[i].op != w.effects[j].op
    ensures IsMautic(w, w.effects[i].op) && IsMautic(w, w.effects[j].op)
    ensures var a, b := w.db.ops[w.effects[i].op], w.db.ops[w.effects[j].op]; a.tenant != b.tenant || a.key != b.key
  {
    InitialInv(clock);
    RunInv(Initial(clock), steps, w);
    assert TokenInv(w, w.effects[i]) && TokenInv(w, w.effects[j]);
    assert Active(w, w.effects[i]) && Active(w, w.effects[j]);
  }

  /** An operation the provider has acted on is never waiting to be sent, retried or cancelled. */
  lemma AppliedIsNeverResent(clock: int, steps: seq<Step>, w: World, t: Token)
    requires Run(Initial(clock), steps, w) && (t in w.effects || t in w.wire)
    ensures IsMautic(w, t.op)
    ensures w.db.ops[t.op].state in {Processing, Completed, DeadLetter}
    ensures w.db.ops[t.op].attempts == t.attempt
  {
    InitialInv(clock);
    RunInv(Initial(clock), steps, w);
    assert TokenInv(w, t) && Active(w, t);
  }

  lemma ClaimsAreBounded(clock: int, steps: seq<Step>, w: World, id: Id)
    requires Run(Initial(clock), steps, w) && IsMautic(w, id)
    ensures ClaimCount(w.claims, id) <= MAX_ATTEMPTS
    ensures ClaimCount(w.claims, id) <= w.db.ops[id].attempts <= OPERATOR_MAX_ATTEMPTS
  {
    InitialInv(clock);
    RunInv(Initial(clock), steps, w);
    assert RowInv(w, id);
  }

  /** A late observation marks an unsettled row; a completed row has its result and no observation. */
  lemma LateObservationExcludesCompletion(clock: int, steps: seq<Step>, w: World, id: Id)
    requires Run(Initial(clock), steps, w) && IsMautic(w, id)
    ensures var op := w.db.ops[id];
            HasLate(w.db.results, id, op.tenant) ==>
              op.state == DeadLetter || (op.state == Processing && op.lease.Some? && op.lease.value <= w.clock)
    ensures var op := w.db.ops[id];
            op.state == Completed <==> ResultExists(w.db.results, op.tenant, FromTarget(Mautic), CompletionOf(id))
  {
    InitialInv(clock);
    RunInv(Initial(clock), steps, w);
    assert RowInv(w, id);
  }

  predicate Settled(op: Op) {
    op.state in {Completed, DeadLetter, Cancelled}
  }

  lemma ReportKeepsSettled(w: World, s: Step, id: Id)
    requires Inv(w) && Enabled(w, s) && IsMautic(w, id) && (s.ReportFailed? || s.ReportSucceeded?)
    ensures IsMautic(Do(w, s), id)
    ensures w.db.ops[id].attempts <= Do(w, s).db.ops[id].attempts
    ensures Settled(w.db.ops[id]) ==> Do(w, s).db.ops[id] == w.db.ops[id]
  {
    if s.ReportFailed? {
      FailureReported(w, s);
    } else {
      SuccessReported(w, s);
    }
  }

  lemma SettledStep(w: World, s: Step, id: Id)
    requires Inv(w) && Enabled(w, s) && IsMautic(w, id)
    ensures IsMautic(Do(w, s), id)
    ensures w.db.ops[id].attempts <= Do(w, s).db.ops[id].attempts
    ensures Settled(w.db.ops[id]) ==> Do(w, s).db.ops[id] == w.db.ops[id]
  {
    if IsQuiet(s) {
      StepsOutsideWorkersAreQuiet(w, s);
    } else if s.ReportFailed? || s.ReportSucceeded? {
      ReportKeepsSettled(w, s, id);
    }
  }

  /** COMPLETED, DEAD_LETTER and CANCELLED Mautic rows never change again; attempts never decrease. */
  lemma {:induction false} SettledForever(w: World, steps: seq<Step>, last: World, id: Id)
    requires Inv(w) && Run(w, steps, last) && IsMautic(w, id)
    ensures IsMautic(last, id)
    ensures w.db.ops[id].attempts <= last.db.ops[id].attempts
    ensures Settled(w.db.ops[id]) ==> last.db.ops[id] == w.db.ops[id]
    decreases steps
  {
    if steps != [] {
      StepInv(w, steps[0]);
      SettledStep(w, steps[0], id);
      SettledForever(Do(w, steps[0]), steps[1..], last, id);
    }
  }

  /** At any time at most one worker is still acting for an operation. */
  lemma OneWorkerPerOperation(clock: int, steps: seq<Step>, w: World, k: WorkerId, l: WorkerId)
    requires Run(Initial(clock), steps, w) && Live(w, k) && Live(w, l) && w.workers[k].token.op == w.workers[l].token.op
    ensures k == l
  {
    InitialInv(clock);
    RunInv(Initial(clock), steps, w);
    OneLiveWorkerPerRow(w, k, l);
  }

  predicate CircuitOk(c: Circuit) {
    c.openUntil.Some? <==> c.streak >= CIRCUIT_THRESHOLD
  }

  /** The circuit is set exactly from the fifth counted failure in a row on. */
  lemma {:induction false} CircuitOpensAtTheFifth(w: World, steps: seq<Step>, last: World)
    requires Run(w, steps, last) && CircuitOk(w.db.circuit)
    ensures CircuitOk(last.db.circuit)
    decreases steps
  {
    if steps != [] {
      CircuitOpensAtTheFifth(Do(w, steps[0]), steps[1..], last);
    }
  }

  /** The circuit is set, and to no earlier than `until`. */
  predicate HeldUntil(c: Circuit, until: int) {
    c.streak >= CIRCUIT_THRESHOLD && c.openUntil.Some? && c.openUntil.value >= until
  }

  predicate EffectiveSuccess(w: World, s: Step) {
    && s.ReportSucceeded? && s.worker in w.workers
    && Success(w.db, w.workers[s.worker].token.op, s.digest, w.workers[s.worker].token.attempt, s.current).1
  }

  predicate CountedFailure(w: World, s: Step) {
    && s.ReportFailed? && s.worker in w.workers && w.workers[s.worker].phase.Reporting? && w.workers[s.worker].phase.verdict.Fail?
    && var t, v := w.workers[s.worker].token, w.workers[s.worker].phase.verdict;
    && v.affectsCircuit && Failure(w.db, t.op, s.error, v.retryable, t.attempt, true, s.current).1
  }

  /** What ends a hold: a success of any worker, or a failure counted by a clock more than a minute short of it. */
  predicate Releases(w: World, s: Step, until: int) {
    EffectiveSuccess(w, s) || (CountedFailure(w, s) && s.current + 60 < until)
  }

  /** A hold survives a step if and only if the step does not end it. */
  lemma HoldStep(w: World, s: Step, until: int)
    requires Enabled(w, s) && HeldUntil(w.db.circuit, until)
    ensures HeldUntil(Do(w, s).db.circuit, until) <==> !Releases(w, s, until)
  {
  }

  /** No step of the run ends the hold. */
  ghost predicate NoRelease(w: World, steps: seq<Step>, until: int)
    decreases steps
  {
    steps == [] ||
    (Enabled(w, steps[0]) && !Releases(w, steps[0], until) && NoRelease(Do(w, steps[0]), steps[1..], until))
  }

  /** As long as nothing ends the hold no claim is possible before `until`, whatever rows are locked. */
  lemma {:induction false} HeldCircuitStopsClaims(w: World, steps: seq<Step>, last: World, until: int)
    requires Run(w, steps, last) && HeldUntil(w.db.circuit, until) && NoRelease(w, steps, until)
    ensures HeldUntil(last.db.circuit, until)
    ensures forall s :: s in steps && s.Claim? ==> s.current >= until
    ensures forall s: Step :: s.Claim? && s.current < until ==> !Enabled(last, s)
    decreases steps
  {
    if steps != [] {
      HoldStep(w, steps[0], until);
      HeldCircuitStopsClaims(Do(w, steps[0]), steps[1..], last, until);
      forall s | s in steps && s.Claim? ensures s.current >= until {
        assert s == steps[0] || s in steps[1..];
      }
    }
  }

  /**
   From any world: the failure that makes five in a row, or any counted
   after it, keeps claims away for a minute along every run in which no worker
   succeeds and no earlier clock counts another failure.
   */
  lemma FifthFailureStopsClaims(w: World, failure: Step, steps: seq<Step>, last: World)
    requires Enabled(w, failure) && CountedFailure(w, failure)
    requires w.db.circuit.streak + 1 >= CIRCUIT_THRESHOLD
    requires Run(Do(w, failure), steps, last) && NoRelease(Do(w, failure), steps, failure.current + 60)
    ensures forall s :: s in steps && s.Claim? ==> s.current >= failure.current + 60
    ensures forall s: Step :: s.Claim? && s.current < failure.current + 60 ==> !Enabled(last, s)
  {
    HeldCircuitStopsClaims(Do(w, failure), steps, last, failure.current + 60);
  }

  /** A success of any worker closes the circuit at once: what was claimable can be claimed again. */
  lemma SuccessReopensClaims(w: World, success: Step, k: WorkerId, id: Id, current: int, locked: set<Id>)
    requires Enabled(w, success) && EffectiveSuccess(w, success) && k !in w.workers
    ensures var v := Do(w, success);
            && v.db.circuit == Circuit(0, None)
            && (ClaimChoice(v.db, current, locked, id) ==> Enabled(v, Claim(k, id, current, locked)))
  {
  }

  /** A retried operation is claimable exactly when its delay, at most five minutes, is over. */
  lemma RetryWaits(db: Db, id: Id, error: string, attempt: nat, affects: bool, current: int, t: int)
    ensures var (after, effective) := Failure(db, id, error, true, attempt, affects, current);
            effective && after.ops[id].state == Retry && after.ops[id].target == Mautic ==>
              (Claimable(after, id, t) <==> t >= current + Min(300, Pow2(attempt)))
  {
  }

  /** Recovery of a dead letter is granted exactly when the operation is not a Mautic one. */
  lemma DeadLetterRecovery(db: Db, id: Id, current: int)
    requires id in db.ops && db.ops[id].state == DeadLetter
    ensures OperatorRecover(db, id, current).Accepted? <==> db.ops[id].target != Mautic
    ensures TenantReconcile(db, id, db.ops[id].tenant, current).Accepted? <==> db.ops[id].target != Mautic
  {
  }

  lemma LateIsRecorded(db: Db, id: Id, digest: int, attempt: nat, current: int)
    requires id in db.ops && db.ops[id].state == DeadLetter
    requires forall r :: r in db.results && r.key == LateAttempt(id, attempt) ==> r.op == id
    ensures var (after, effective) := Success(db, id, digest, attempt, current);
            !effective && after.ops == db.ops && HasLate(after.results, id, db.ops[id].tenant)
  {
    var tenant := db.ops[id].tenant;
    var after := Success(db, id, digest, attempt, current).0;
    if ResultExists(db.results, tenant, MauticLate, LateAttempt(id, attempt)) {
    } else {
      assert ResultRow(tenant, id, MauticLate, LateAttempt(id, attempt), 0) in after.results;
    }
  }

  lemma LateReport(w: World, k: WorkerId, digest: int, current: int) returns (last: World)
    requires TableInv(w) && InPhase(w, k, Waiting) && IsMautic(w, w.workers[k].token.op)
    requires w.db.ops[w.workers[k].token.op].state == DeadLetter
    ensures Run(w, [Respond(k, Status(200, JsonObject)), ReportSucceeded(k, digest, current)], last)
    ensures var t := w.workers[k].token;
            last.effects == w.effects && last.db.ops == w.db.ops && HasLate(last.db.results, t.op, last.db.ops[t.op].tenant)
  {
    var t := w.workers[k].token;
    var s, r := Respond(k, Status(200, JsonObject)), ReportSucceeded(k, digest, current);
    var mid := Do(w, s);
    last := Do(mid, r);
    LateIsRecorded(mid.db, t.op, digest, t.attempt, current);
    assert [s, r][1..] == [r] && [r][1..] == [];
    assert Run(mid, [r], last);
  }

  /**
   The guard is needed: whenever a lease runs out while the request is on the
   wire, the row can be dead-lettered first and the provider act on it after.
   The worker's report then leaves an observation and no completion.
   */
  lemma EffectAfterDeadLetter(w: World, k: WorkerId, digest: int, current: int) returns (last: World)
    requires Inv(w) && InPhase(w, k, Waiting) && w.workers[k].token in w.wire
    requires var op := w.workers[k].token.op; op in w.db.ops && Expired(w.db.ops[op], current)
    ensures var t := w.workers[k].token;
            && Run(w, [Recover(current, {}), Apply(t)] + [Respond(k, Status(200, JsonObject)), ReportSucceeded(k, digest, current)], last)
            && IsMautic(last, t.op) && t in last.effects && last.db.ops[t.op].state == DeadLetter
            && HasLate(last.db.results, t.op, last.db.ops[t.op].tenant)
  {
    var t := w.workers[k].token;
    var s0, s1 := Recover(current, {}), Apply(t);
    var rest := [Respond(k, Status(200, JsonObject)), ReportSucceeded(k, digest, current)];
    var w1 := Do(w, s0);
    var w2 := Do(w1, s1);
    last := LateReport(w2, k, digest, current);
    assert ([s0, s1] + rest)[1..] == [s1] + rest && ([s1] + rest)[1..] == rest;
    assert Run(w1, [s1] + rest, last);
  }
}
