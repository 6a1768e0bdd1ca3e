/**
 The campaign dispatcher as a protocol. Any number of workers claim a run,
 lease its items in a later transaction without another look at the run, ask
 for message admission, mark each result and finish; any of them may stop or
 be delayed at any point. The tenant schedules, pauses, resumes and cancels.
 */
module CampaignProtocol {
  import opened Numbers
  import opened Text
  import opened Wrappers
  import opened CampaignTables

  datatype Verdict = Verdict(item: ItemId, state: ItemState, error: Fault)

  /**
   `todo`: what each worker that has leased still has to visit. `pending`: an
   admission result not yet marked. `admitted`: the messages the provider took.
   */
  datatype World = World(
    db: Db, issued: set<Credential>, todo: map<Credential, set<ItemId>>,
    pending: map<Credential, Verdict>, admitted: set<ItemId>)

  datatype Step =
    | DoSchedule(id: CampaignId, candidates: seq<string>, at: int)
    | DoPause(id: CampaignId, now: int)
    | DoResume(id: CampaignId, now: int)
    | DoCancel(id: CampaignId, now: int)
    | DoClaim(expired: Option<CampaignId>, id: CampaignId, owner: Owner, now: int, leaseSeconds: nat)
    | DoLease(c: Credential, rows: set<ItemId>, now: int)
    | DoSkip(c: Credential, i: ItemId)
    | DoSend(c: Credential, i: ItemId, admission: Admission)
    | DoMark(c: Credential, now: int)
    | DoFinish(c: Credential, now: int)

  ghost predicate Enabled(w: World, s: Step) {
    match s
    case DoSchedule(_, _, _) => true
    case DoPause(id, now) => Pause(w.db, id, now).Accepted?
    case DoResume(id, now) => Resume(w.db, id, now).Accepted?
    case DoCancel(_, _) => true
    case DoClaim(expired, id, owner, now, _) =>
      && (expired.Some? ==> expired.value in w.db.runs && LeaseOver(w.db.runs[expired.value], now))
      && var mid := Expired(w.db, expired, now);
      && id in mid.runs && Claimable(mid.runs[id], now)
      && forall c :: c in w.issued ==> c.owner != owner
    case DoLease(c, rows, now) =>
      c in w.issued && c !in w.todo && c.campaign in w.db.runs && forall i :: i in rows ==> Leasable(w.db, i, c.campaign, now)
    case DoSkip(c, i) => c in w.todo && c !in w.pending && i in w.todo[c] && !Active(w.db, c)
    case DoSend(c, i, _) => c in w.todo && c !in w.pending && i in w.todo[c] && Active(w.db, c)
    case DoMark(c, _) => c in w.pending && c in w.todo
    case DoFinish(c, _) => c in w.todo && w.todo[c] == {}
  }

  function LeaseWork(db: Db, c: Credential, rows: set<ItemId>): set<ItemId> {
    if c.campaign in db.snapshots then rows * db.audience else {}
  }

  ghost function Do(w: World, s: Step): World
    requires Enabled(w, s)
  {
    match s
    case DoSchedule(id, candidates, at) => w.(db := Schedule(w.db, id, Audience(candidates), at))
    case DoPause(id, now) => w.(db := Pause(w.db, id, now).db)
    case DoResume(id, now) => w.(db := Resume(w.db, id, now).db)
    case DoCancel(id, now) => w.(db := Cancel(w.db, id, now))
    case DoClaim(expired, id, owner, now, leaseSeconds) =>
      var mid := Expired(w.db, expired, now);
      w.(db := ClaimRun(mid, id, owner, now, leaseSeconds),
         issued := w.issued + {Credential(id, owner, mid.runs[id].fence + 1)})
    case DoLease(c, rows, now) =>
      w.(db := LeaseItems(w.db, c, rows, now), todo := w.todo[c := LeaseWork(w.db, c, rows)])
    case DoSkip(c, i) => w.(todo := w.todo[c := w.todo[c] - {i}])
    case DoSend(c, i, admission) =>
      w.(pending := w.pending[c := Verdict(i, Outcome(admission), FaultOf(admission))],
         admitted := if admission.Admitted? then w.admitted + {i} else w.admitted)
    case DoMark(c, now) =>
      var v := w.pending[c];
      w.(db := MarkResult(w.db, v.item, c, v.state, v.error, now).0,
         pending := w.pending - {c}, todo := w.todo[c := w.todo[c] - {v.item}])
    case DoFinish(c, now) => w.(db := FinishRun(w.db, c, now))
  }

  ghost predicate Valid(w: World, run: seq<Step>)
    decreases run
  {
    run == [] || (Enabled(w, run[0]) && Valid(Do(w, run[0]), run[1..]))
  }

  ghost function RunAll(w: World, run: seq<Step>): World
    requires Valid(w, run)
    decreases run
  {
    if run == [] then w else RunAll(Do(w, run[0]), run[1..])
  }

  const Start := World(Db(map[], map[], {}, {}), {}, map[], map[], {})

  // ---------------------------------------------------------------------
  // The invariant
  // ---------------------------------------------------------------------

  function LeaseOf(i: ItemId, item: Item): Credential
    requires item.owner.Some? && item.fence.Some?
  {
    Credential(i.campaign, item.owner.value, item.fence.value)
  }

  predicate CredentialOk(w: World, c: Credential) {
    c in w.issued ==> c.campaign in w.db.runs && 1 <= c.fence <= w.db.runs[c.campaign].fence
  }

  predicate Apart(w: World, c: Credential, d: Credential) {
    c in w.issued && d in w.issued && (c.owner == d.owner || (c.campaign == d.campaign && c.fence == d.fence)) ==> c == d
  }

  predicate RunOk(w: World, id: CampaignId) {
    id in w.db.runs ==>
      var run := w.db.runs[id];
      && id in w.db.snapshots && run.state != Broken
      && (run.state == Running <==> run.owner.Some?) && (run.state == Running <==> run.leaseExpiresAt.Some?)
      && (run.state == Running ==> Credential(id, run.owner.value, run.fence) in w.issued)
  }

  predicate ItemOk(w: World, i: ItemId) {
    i in w.db.items ==>
      var item := w.db.items[i];
      && i.campaign in w.db.runs && i in w.db.audience
      && (item.state == Leased <==> item.owner.Some?) && (item.state == Leased <==> item.fence.Some?)
      && (item.state == Leased ==> LeaseOf(i, item) in w.issued)
      && (item.state == Delivered ==> i in w.admitted)
  }

  /** What a settled run says about its items, and a withdrawn item about its run. */
  predicate BalanceOk(w: World, i: ItemId) {
    i in w.db.items && i.campaign in w.db.runs ==>
      var item, run := w.db.items[i], w.db.runs[i.campaign];
      && (run.state == Completed ==> item.state in {Delivered, Suppressed, Failed})
      && (run.state == Cancelled ==> !Open(item.state))
      && (item.state == Withdrawn ==> run.state == Cancelled)
  }

  predicate WorkOk(w: World, c: Credential) {
    && (c in w.todo ==> c in w.issued)
    && (c in w.pending ==>
          && c in w.todo && w.pending[c].item in w.todo[c]
          && w.pending[c].state in {Delivered, Suppressed, Failed, Retrying}
          && (w.pending[c].state == Delivered ==> w.pending[c].item in w.admitted))
  }

  /** An item leased under the claim in force is still on that worker's list. */
  predicate LeaseOk(w: World, i: ItemId) {
    i in w.db.items && w.db.items[i].owner.Some? && w.db.items[i].fence.Some? && Active(w.db, LeaseOf(i, w.db.items[i])) ==>
      var c := LeaseOf(i, w.db.items[i]);
      c in w.todo && i in w.todo[c]
  }

  ghost predicate Inv(w: World) {
    && (forall c :: CredentialOk(w, c))
    && (forall c, d :: Apart(w, c, d))
    && (forall id :: RunOk(w, id))
    && (forall i :: ItemOk(w, i))
    && (forall i :: BalanceOk(w, i))
    && (forall c :: WorkOk(w, c))
    && (forall i :: LeaseOk(w, i))
  }

  lemma StartInv()
    ensures Inv(Start)
  {
  }

  // ---------------------------------------------------------------------
  // One step keeps the invariant
  // ---------------------------------------------------------------------

  lemma ScheduleInv(w: World, id: CampaignId, candidates: seq<string>, at: int)
    requires Inv(w)
    ensures Inv(Do(w, DoSchedule(id, candidates, at)))
  {
    var v := Do(w, DoSchedule(id, candidates, at));
    if id in w.db.runs { return; }
    forall c ensures CredentialOk(v, c) && WorkOk(v, c) { assert CredentialOk(w, c) && WorkOk(w, c); }
    forall c, d ensures Apart(v, c, d) { assert Apart(w, c, d); }
    forall j ensures RunOk(v, j) { assert RunOk(w, j); }
    forall i ensures ItemOk(v, i) && BalanceOk(v, i) && LeaseOk(v, i) {
      assert ItemOk(w, i) && BalanceOk(w, i) && LeaseOk(w, i);
    }
  }

  /** Taking the run away from its owner and releasing its leases. */
  lemma ReleaseInv(w: World, v: World, id: CampaignId, now: int)
    requires Inv(w) && id in w.db.runs
    requires v == w.(db := w.db.(runs := v.db.runs, items := ReleaseLeases(w.db.items, id, now)))
    requires id in v.db.runs && v.db.runs == w.db.runs[id := v.db.runs[id]]
    requires v.db.runs[id].state in {Paused, Resting} && w.db.runs[id].state !in {Completed, Cancelled}
    requires v.db.runs[id].owner == None && v.db.runs[id].leaseExpiresAt == None && v.db.runs[id].fence == w.db.runs[id].fence
    ensures Inv(v)
  {
    forall c ensures CredentialOk(v, c) && WorkOk(v, c) { assert CredentialOk(w, c) && WorkOk(w, c); }
    forall c, d ensures Apart(v, c, d) { assert Apart(w, c, d); }
    forall j ensures RunOk(v, j) { assert RunOk(w, j); }
    forall i ensures ItemOk(v, i) && BalanceOk(v, i) && LeaseOk(v, i) {
      assert ItemOk(w, i) && BalanceOk(w, i) && LeaseOk(w, i);
    }
  }

  lemma ResumeInv(w: World, id: CampaignId, now: int)
    requires Inv(w) && Enabled(w, DoResume(id, now))
    ensures Inv(Do(w, DoResume(id, now)))
  {
    var v := Do(w, DoResume(id, now));
    assert RunOk(w, id);
    forall c ensures CredentialOk(v, c) && WorkOk(v, c) { assert CredentialOk(w, c) && WorkOk(w, c); }
    forall c, d ensures Apart(v, c, d) { assert Apart(w, c, d); }
    forall j ensures RunOk(v, j) { assert RunOk(w, j); }
    forall i ensures ItemOk(v, i) && BalanceOk(v, i) && LeaseOk(v, i) {
      assert ItemOk(w, i) && BalanceOk(w, i) && LeaseOk(w, i);
    }
  }

  lemma CancelInv(w: World, id: CampaignId, now: int)
    requires Inv(w)
    ensures Inv(Do(w, DoCancel(id, now)))
  {
    var v := Do(w, DoCancel(id, now));
    forall c ensures CredentialOk(v, c) && WorkOk(v, c) { assert CredentialOk(w, c) && WorkOk(w, c); }
    forall c, d ensures Apart(v, c, d) { assert Apart(w, c, d); }
    forall j ensures RunOk(v, j) { assert RunOk(w, j); }
    forall i ensures ItemOk(v, i) && BalanceOk(v, i) && LeaseOk(v, i) {
      assert ItemOk(w, i) && BalanceOk(w, i) && LeaseOk(w, i);
    }
  }

  lemma ClaimInv(w: World, id: CampaignId, owner: Owner, now: int, leaseSeconds: nat)
    requires Inv(w) && Enabled(w, DoClaim(None, id, owner, now, leaseSeconds))
    ensures Inv(Do(w, DoClaim(None, id, owner, now, leaseSeconds)))
  {
    var v := Do(w, DoClaim(None, id, owner, now, leaseSeconds));
    assert RunOk(w, id);
    forall c ensures CredentialOk(v, c) && WorkOk(v, c) { assert CredentialOk(w, c) && WorkOk(w, c); }
    forall c, d ensures Apart(v, c, d) { assert Apart(w, c, d) && CredentialOk(w, c) && CredentialOk(w, d); }
    forall j ensures RunOk(v, j) { assert RunOk(w, j); }
    forall i ensures ItemOk(v, i) && BalanceOk(v, i) && LeaseOk(v, i) {
      assert ItemOk(w, i) && BalanceOk(w, i) && LeaseOk(w, i);
    }
  }

  lemma ExpiringClaimInv(w: World, expired: CampaignId, id: CampaignId, owner: Owner, now: int, leaseSeconds: nat)
    requires Inv(w) && Enabled(w, DoClaim(Some(expired), id, owner, now, leaseSeconds))
    ensures Inv(Do(w, DoClaim(Some(expired), id, owner, now, leaseSeconds)))
  {
    var mid := w.(db := Expire(w.db, expired, now));
    ReleaseInv(w, mid, expired, now);
    ClaimInv(mid, id, owner, now, leaseSeconds);
  }

  lemma LeaseInv(w: World, c: Credential, rows: set<ItemId>, now: int)
    requires Inv(w) && Enabled(w, DoLease(c, rows, now))
    ensures Inv(Do(w, DoLease(c, rows, now)))
  {
    var v := Do(w, DoLease(c, rows, now));
    assert CredentialOk(w, c) && RunOk(w, c.campaign);
    forall d ensures CredentialOk(v, d) && WorkOk(v, d) { assert CredentialOk(w, d) && WorkOk(w, d); }
    forall d, e ensures Apart(v, d, e) { assert Apart(w, d, e); }
    forall j ensures RunOk(v, j) { assert RunOk(w, j); }
    forall i ensures ItemOk(v, i) && BalanceOk(v, i) && LeaseOk(v, i) {
      assert ItemOk(w, i) && BalanceOk(w, i) && LeaseOk(w, i);
    }
  }

  lemma WorkInv(w: World, s: Step)
    requires Inv(w) && Enabled(w, s) && (s.DoSkip? || s.DoSend?)
    ensures Inv(Do(w, s))
  {
    var v := Do(w, s);
    forall d ensures CredentialOk(v, d) && WorkOk(v, d) { assert CredentialOk(w, d) && WorkOk(w, d); }
    forall d, e ensures Apart(v, d, e) { assert Apart(w, d, e); }
    forall j ensures RunOk(v, j) { assert RunOk(w, j); }
    forall i ensures ItemOk(v, i) && BalanceOk(v, i) && LeaseOk(v, i) {
      assert ItemOk(w, i) && BalanceOk(w, i) && LeaseOk(w, i);
    }
  }

  lemma MarkInv(w: World, c: Credential, now: int)
    requires Inv(w) && Enabled(w, DoMark(c, now))
    ensures Inv(Do(w, DoMark(c, now)))
  {
    var v := Do(w, DoMark(c, now));
    var marked := w.pending[c].item;
    assert WorkOk(w, c) && ItemOk(w, marked);
    forall d ensures CredentialOk(v, d) && WorkOk(v, d) { assert CredentialOk(w, d) && WorkOk(w, d); }
    forall d, e ensures Apart(v, d, e) { assert Apart(w, d, e); }
    forall j ensures RunOk(v, j) { assert RunOk(w, j); }
    forall i ensures ItemOk(v, i) && BalanceOk(v, i) && LeaseOk(v, i) {
      assert ItemOk(w, i) && BalanceOk(w, i) && LeaseOk(w, i);
    }
  }

  lemma FinishInv(w: World, c: Credential, now: int)
    requires Inv(w) && Enabled(w, DoFinish(c, now))
    ensures Inv(Do(w, DoFinish(c, now)))
  {
    var v := Do(w, DoFinish(c, now));
    forall d ensures CredentialOk(v, d) && WorkOk(v, d) { assert CredentialOk(w, d) && WorkOk(w, d); }
    forall d, e ensures Apart(v, d, e) { assert Apart(w, d, e); }
    forall j ensures RunOk(v, j) { assert RunOk(w, j); }
    forall i ensures ItemOk(v, i) && BalanceOk(v, i) && LeaseOk(v, i) {
      assert ItemOk(w, i) && BalanceOk(w, i) && LeaseOk(w, i);
      assert i in w.db.items && i.campaign == c.campaign && Open(w.db.items[i].state) ==> i in OpenItems(w.db, c.campaign);
    }
  }

  lemma StepInv(w: World, s: Step)
    requires Inv(w) && Enabled(w, s)
    ensures Inv(Do(w, s))
  {
    match s
    case DoSchedule(id, candidates, at) => ScheduleInv(w, id, candidates, at);
    case DoPause(id, now) => ReleaseInv(w, Do(w, s), id, now);
    case DoResume(id, now) => ResumeInv(w, id, now);
    case DoCancel(id, now) => CancelInv(w, id, now);
    case DoClaim(expired, id, owner, now, leaseSeconds) =>
      if expired.Some? {
        ExpiringClaimInv(w, expired.value, id, owner, now, leaseSeconds);
      } else {
        ClaimInv(w, id, owner, now, leaseSeconds);
      }
    case DoLease(c, rows, now) => LeaseInv(w, c, rows, now);
    case DoSkip(_, _) => WorkInv(w, s);
    case DoSend(_, _, _) => WorkInv(w, s);
    case DoMark(c, now) => MarkInv(w, c, now);
    case DoFinish(c, now) => FinishInv(w, c, now);
  }

  lemma {:induction false} RunInv(w: World, run: seq<Step>)
    requires Inv(w) && Valid(w, run)
    ensures Inv(RunAll(w, run))
    decreases run
  {
    if run != [] {
      StepInv(w, run[0]);
      RunInv(Do(w, run[0]), run[1..]);
    }
  }

  // ---------------------------------------------------------------------
  // Terminal items and settled runs
  // ---------------------------------------------------------------------

  predicate Terminal(state: ItemState) {
    state in {Delivered, Suppressed, Failed, Withdrawn}
  }

  predicate Settled(db: Db, id: CampaignId) {
    id in db.runs && db.runs[id].state in {Completed, Cancelled}
  }

  lemma TerminalStep(w: World, s: Step, i: ItemId)
    requires Inv(w) && Enabled(w, s) && i in w.db.items && Terminal(w.db.items[i].state)
    ensures i in Do(w, s).db.items && Do(w, s).db.items[i] == w.db.items[i]
  {
    assert ItemOk(w, i);
  }

  /** A delivered, suppressed, failed or withdrawn item keeps its row through every run. */
  lemma {:induction false} TerminalItemsNeverChange(w: World, run: seq<Step>, i: ItemId)
    requires Inv(w) && Valid(w, run) && i in w.db.items && Terminal(w.db.items[i].state)
    ensures i in RunAll(w, run).db.items && RunAll(w, run).db.items[i] == w.db.items[i]
    decreases run
  {
    if run != [] {
      StepInv(w, run[0]);
      TerminalStep(w, run[0], i);
      TerminalItemsNeverChange(Do(w, run[0]), run[1..], i);
    }
  }

  lemma SettledStep(w: World, s: Step, id: CampaignId)
    requires Inv(w) && Enabled(w, s) && Settled(w.db, id)
    ensures id in Do(w, s).db.runs && Do(w, s).db.runs[id] == w.db.runs[id]
  {
    assert RunOk(w, id);
    if s.DoLease? {
      assert RunOk(w, s.c.campaign) && CredentialOk(w, s.c);
    }
  }

  /** COMPLETED and CANCELLED are absorbing, for the whole row of the run. */
  lemma {:induction false} SettledRunsNeverChange(w: World, run: seq<Step>, id: CampaignId)
    requires Inv(w) && Valid(w, run) && Settled(w.db, id)
    ensures id in RunAll(w, run).db.runs && RunAll(w, run).db.runs[id] == w.db.runs[id]
    decreases run
  {
    if run != [] {
      StepInv(w, run[0]);
      SettledStep(w, run[0], id);
      SettledRunsNeverChange(Do(w, run[0]), run[1..], id);
    }
  }

  // ---------------------------------------------------------------------
  // Fences
  // ---------------------------------------------------------------------

  function FenceOf(db: Db, id: CampaignId): nat {
    if id in db.runs then db.runs[id].fence else 0
  }

  function Claims(run: seq<Step>, id: CampaignId): nat {
    if run == [] then 0 else (if run[0].DoClaim? && run[0].id == id then 1 else 0) + Claims(run[1..], id)
  }

  lemma FenceStep(w: World, s: Step, id: CampaignId)
    requires Enabled(w, s)
    ensures FenceOf(Do(w, s).db, id) == FenceOf(w.db, id) + Claims([s], id)
  {
  }

  /** The fence token counts the claims: it grows by one with each, and nothing else moves it. */
  lemma {:induction false} FenceCountsClaims(w: World, run: seq<Step>, id: CampaignId)
    requires Valid(w, run)
    ensures FenceOf(RunAll(w, run).db, id) == FenceOf(w.db, id) + Claims(run, id)
    decreases run
  {
    if run != [] {
      FenceStep(w, run[0], id);
      assert [run[0]][1..] == [];
      FenceCountsClaims(Do(w, run[0]), run[1..], id);
    }
  }

  // ---------------------------------------------------------------------
  // The balance of the audience
  // ---------------------------------------------------------------------

  lemma AudienceStep(w: World, s: Step, id: CampaignId)
    requires Inv(w) && Enabled(w, s) && id in w.db.runs
    ensures id in Do(w, s).db.runs && ItemsOf(Do(w, s).db, id) == ItemsOf(w.db, id)
  {
    if s.DoMark? {
      assert WorkOk(w, s.c);
    }
  }

  lemma {:induction false} AudienceIsFrozen(w: World, run: seq<Step>, id: CampaignId)
    requires Inv(w) && Valid(w, run) && id in w.db.runs
    ensures id in RunAll(w, run).db.runs && ItemsOf(RunAll(w, run).db, id) == ItemsOf(w.db, id)
    decreases run
  {
    if run != [] {
      StepInv(w, run[0]);
      AudienceStep(w, run[0], id);
      AudienceIsFrozen(Do(w, run[0]), run[1..], id);
    }
  }

  lemma {:induction false} DistinctRecipients(id: CampaignId, recipients: set<string>)
    ensures |Ids(id, recipients)| == |recipients|
  {
    if recipients != {} {
      var r :| r in recipients;
      DistinctRecipients(id, recipients - {r});
      assert Ids(id, recipients) == Ids(id, recipients - {r}) + {ItemId(id, r)};
    } else {
      assert Ids(id, recipients) == {};
    }
  }

  lemma Partition(db: Db, id: CampaignId)
    requires forall i :: i in db.items && i.campaign == id ==> Terminal(db.items[i].state)
    ensures var n := CountsOf(db, id); n.delivered + n.suppressed + n.failed + n.cancelled == n.audience
  {
    var d, s := InState(db, id, Delivered), InState(db, id, Suppressed);
    var f, x := InState(db, id, Failed), InState(db, id, Withdrawn);
    assert ItemsOf(db, id) == d + s + f + x;
    FourParts(d, s, f, x);
  }

  lemma FourParts(a: set<ItemId>, b: set<ItemId>, c: set<ItemId>, d: set<ItemId>)
    requires a !! b !! c !! d
    ensures |a + b + c + d| == |a| + |b| + |c| + |d|
  {
  }

  /**
   From any reachable world, whatever happens after a campaign is scheduled: once
   its run is COMPLETED, every recipient of the frozen audience is delivered,
   suppressed or failed; once it is CANCELLED, the withdrawn make up the rest.
   */
  lemma EveryRecipientIsAccountedFor(w: World, id: CampaignId, candidates: seq<string>, at: int, run: seq<Step>)
    requires Inv(w) && id !in w.db.runs && Valid(Do(w, DoSchedule(id, candidates, at)), run)
    ensures var db := RunAll(Do(w, DoSchedule(id, candidates, at)), run).db;
            var n := CountsOf(db, id);
            && id in db.runs && n.audience == |Audience(candidates)|
            && (db.runs[id].state == Completed ==> n.cancelled == 0 && n.delivered + n.suppressed + n.failed == n.audience)
            && (db.runs[id].state == Cancelled ==> n.delivered + n.suppressed + n.failed + n.cancelled == n.audience)
  {
    var v := Do(w, DoSchedule(id, candidates, at));
    StepInv(w, DoSchedule(id, candidates, at));
    forall i ensures i in ItemsOf(v.db, id) <==> i in Ids(id, Audience(candidates)) {
      assert ItemOk(w, i);
    }
    assert ItemsOf(v.db, id) == Ids(id, Audience(candidates));
    DistinctRecipients(id, Audience(candidates));
    AudienceIsFrozen(v, run, id);
    RunInv(v, run);
    SettledBalance(RunAll(v, run), id);
  }

  lemma SettledBalance(w: World, id: CampaignId)
    requires Inv(w) && id in w.db.runs
    ensures var n := CountsOf(w.db, id);
            && (w.db.runs[id].state == Completed ==> n.cancelled == 0 && n.delivered + n.suppressed + n.failed == n.audience)
            && (w.db.runs[id].state == Cancelled ==> n.delivered + n.suppressed + n.failed + n.cancelled == n.audience)
  {
    if Settled(w.db, id) {
      forall i | i in w.db.items && i.campaign == id
        ensures Terminal(w.db.items[i].state) && (w.db.items[i].state == Withdrawn ==> w.db.runs[id].state == Cancelled)
      {
        assert BalanceOk(w, i);
      }
      Partition(w.db, id);
      assert w.db.runs[id].state == Completed ==> InState(w.db, id, Withdrawn) == {};
    }
  }

  /** After a cancel no item of the campaign is ever open again, whatever stale workers still do. */
  lemma CancelIsFinal(w: World, id: CampaignId, now: int, run: seq<Step>)
    requires Inv(w) && id in w.db.runs && Valid(Do(w, DoCancel(id, now)), run)
    ensures OpenItems(RunAll(Do(w, DoCancel(id, now)), run).db, id) == {}
  {
    var v := Do(w, DoCancel(id, now));
    StepInv(w, DoCancel(id, now));
    RunInv(v, run);
    SettledRunsNeverChange(v, run, id);
    var u := RunAll(v, run);
    forall i ensures i !in OpenItems(u.db, id) {
      assert BalanceOk(u, i);
    }
  }

  /** In every run from the empty tables, a delivered item was taken by the provider, and no run is ever FAILED. */
  lemma DeliveredWasAdmitted(run: seq<Step>, i: ItemId, id: CampaignId)
    requires Valid(Start, run)
    ensures var w := RunAll(Start, run);
            && (i in w.db.items && w.db.items[i].state == Delivered ==> i in w.admitted)
            && (id in w.db.runs ==> w.db.runs[id].state != Broken)
  {
    StartInv();
    RunInv(Start, run);
    assert ItemOk(RunAll(Start, run), i) && RunOk(RunAll(Start, run), id);
  }

  // ---------------------------------------------------------------------
  // Leases and the claim in force
  // ---------------------------------------------------------------------

  /** Once a claim is no longer in force, it never is again. */
  lemma InactiveStep(w: World, s: Step, c: Credential)
    requires Inv(w) && Enabled(w, s) && c in w.issued && !Active(w.db, c)
    ensures c in Do(w, s).issued && !Active(Do(w, s).db, c)
  {
    assert CredentialOk(w, c);
  }

  predicate OwnedAt(db: Db, i: ItemId) {
    i in db.items && db.items[i].owner.Some? && db.items[i].fence.Some? ==> Active(db, LeaseOf(i, db.items[i]))
  }

  /** Every leased item belongs to the claim in force. */
  ghost predicate Owned(db: Db) {
    forall i :: OwnedAt(db, i)
  }

  predicate StaleLease(w: World, s: Step) {
    s.DoLease? && s.rows != {} && !Active(w.db, s.c)
  }

  lemma OwnedKept(w: World, s: Step)
    requires Inv(w) && Enabled(w, s) && Owned(w.db) && !StaleLease(w, s)
    ensures Owned(Do(w, s).db)
  {
    forall i ensures OwnedAt(Do(w, s).db, i) {
      OwnedAtKept(w, s, i);
    }
  }

  lemma OwnedAtKept(w: World, s: Step, i: ItemId)
    requires Inv(w) && Enabled(w, s) && OwnedAt(w.db, i) && !StaleLease(w, s)
    ensures OwnedAt(Do(w, s).db, i)
  {
    assert ItemOk(w, i) && LeaseOk(w, i) && RunOk(w, i.campaign);
    if s.DoLease? {
      assert CredentialOk(w, s.c) && RunOk(w, s.c.campaign);
    }
  }

  /**
   "Every leased item belongs to the claim in force" survives a step exactly
   when the step is not a lease taken under a claim that is over.
   */
  lemma OwnedPreservedIff(w: World, s: Step)
    requires Inv(w) && Enabled(w, s) && Owned(w.db)
    ensures Owned(Do(w, s).db) <==> !StaleLease(w, s)
  {
    if StaleLease(w, s) {
      var i :| i in s.rows;
      assert CredentialOk(w, s.c) && RunOk(w, s.c.campaign) && ItemOk(w, i);
      assert !OwnedAt(Do(w, s).db, i);
    } else {
      OwnedKept(w, s);
    }
  }

  /** An item put back for a retry may be leased exactly when its delay, at most a quarter of an hour, is over. */
  lemma RetryWaits(db: Db, i: ItemId, c: Credential, error: Fault, now: int, t: int)
    requires i in db.items && Holds(db.items[i], c)
    ensures var after := MarkResult(db, i, c, Retrying, error, now).0;
            Leasable(after, i, i.campaign, t) <==> t >= now + Min(900, Pow2(db.items[i].attempts))
  {
  }

  // ---------------------------------------------------------------------
  // What a stale lease leaves behind
  // ---------------------------------------------------------------------

  /** A leased item whose claim is over and whose worker holds no result for it. */
  predicate Orphan(w: World, i: ItemId) {
    && i in w.db.items && w.db.items[i].state == Leased && w.db.items[i].owner.Some? && w.db.items[i].fence.Some?
    && var c := LeaseOf(i, w.db.items[i]);
    && c in w.issued && !Active(w.db, c)
    && (c in w.pending ==> w.pending[c].item != i)
  }

  predicate Rescues(s: Step, id: CampaignId) {
    (s.DoPause? && s.id == id) || (s.DoCancel? && s.id == id) || (s.DoClaim? && s.expired == Some(id))
  }

  /** Only a pause, a cancel or a lease expiry of the campaign frees an orphaned item. */
  lemma OrphanStep(w: World, s: Step, i: ItemId)
    requires Inv(w) && Enabled(w, s) && Orphan(w, i)
    ensures Orphan(Do(w, s), i) && Do(w, s).db.items[i] == w.db.items[i] <==> !Rescues(s, i.campaign)
  {
    var c := LeaseOf(i, w.db.items[i]);
    assert ItemOk(w, i) && BalanceOk(w, i) && CredentialOk(w, c) && RunOk(w, i.campaign);
    InactiveStep(w, s, c);
    if s.DoMark? {
      assert Apart(w, s.c, c) && WorkOk(w, s.c);
    } else if s.DoLease? {
      assert CredentialOk(w, s.c) && RunOk(w, s.c.campaign);
    }
  }

  /** Until then the item stays leased to nobody and its run cannot complete. */
  lemma {:induction false} OrphanHoldsTheRunOpen(w: World, run: seq<Step>, i: ItemId)
    requires Inv(w) && Valid(w, run) && Orphan(w, i)
    requires forall s :: s in run ==> !Rescues(s, i.campaign)
    ensures var v := RunAll(w, run); Orphan(v, i) && v.db.items[i] == w.db.items[i] && !Settled(v.db, i.campaign)
    decreases run
  {
    if run == [] {
      assert BalanceOk(w, i) && ItemOk(w, i);
    } else {
      StepInv(w, run[0]);
      OrphanStep(w, run[0], i);
      OrphanHoldsTheRunOpen(Do(w, run[0]), run[1..], i);
    }
  }

  /** A pause between any claim and its lease makes an orphan of every row the lease query returns. */
  lemma PauseBetweenClaimAndLease(w: World, c: Credential, i: ItemId, now: int)
    requires Inv(w) && c in w.issued && c !in w.todo && Active(w.db, c) && Leasable(w.db, i, c.campaign, now)
    ensures var pause, lease := DoPause(c.campaign, now), DoLease(c, {i}, now);
            && Enabled(w, pause) && Enabled(Do(w, pause), lease)
            && var v := Do(Do(w, pause), lease);
            && Orphan(v, i) && c.campaign in v.db.runs && v.db.runs[c.campaign].state == Paused
  {
    var pause, lease := DoPause(c.campaign, now), DoLease(c, {i}, now);
    assert RunOk(w, c.campaign) && ItemOk(w, i) && WorkOk(w, c);
    var u := Do(w, pause);
    assert Leasable(u.db, i, c.campaign, now);
    assert Enabled(u, lease);
  }

  lemma OneRecipient()
    ensures Audience(["a"]) == {"a"}
  {
    assert StripLeft("a") == "a" && StripRight("a") == "a";
    assert Lower("a") == "a";
    assert Normalize("a") == "a";
    assert "a" in ["a"];
    assert forall c :: c in ["a"] ==> c == "a";
  }

  /** Scheduled and claimed: one item waiting, and a worker that has not leased it yet. */
  lemma ScheduledAndClaimed() returns (w: World, c: Credential, i: ItemId)
    ensures var schedule, claim := DoSchedule(0, ["a"], 0), DoClaim(None, 0, 7, 0, 120);
            && Enabled(Start, schedule) && Enabled(Do(Start, schedule), claim) && w == Do(Do(Start, schedule), claim)
    ensures Inv(w) && c in w.issued && c !in w.todo && Active(w.db, c) && c.campaign == 0 && Leasable(w.db, i, 0, 1)
  {
    c, i := Credential(0, 7, 1), ItemId(0, "a");
    OneRecipient();
    assert i in Ids(0, Audience(["a"]));
    var schedule, claim := DoSchedule(0, ["a"], 0), DoClaim(None, 0, 7, 0, 120);
    StartInv();
    StepInv(Start, schedule);
    var u := Do(Start, schedule);
    assert u.db.runs[0] == Run(Scheduled, 0, 0, None, None, 0, None);
    StepInv(u, claim);
    w := Do(u, claim);
  }

  /** From the empty tables: schedule, claim, pause, lease. */
  lemma FourStepsToAnOrphan() returns (run: seq<Step>, i: ItemId)
    ensures |run| == 4 && Valid(Start, run) && Orphan(RunAll(Start, run), i)
  {
    var w, c, j := ScheduledAndClaimed();
    i := j;
    var schedule, claim, pause, lease := DoSchedule(0, ["a"], 0), DoClaim(None, 0, 7, 0, 120), DoPause(0, 1), DoLease(c, {i}, 1);
    PauseBetweenClaimAndLease(w, c, i, 1);
    run := [schedule, claim] + [pause, lease];
    TwoSteps(w, pause, lease);
    TwoSteps(Start, schedule, claim);
    Chained(Start, [schedule, claim], [pause, lease]);
  }

  lemma TwoSteps(w: World, s: Step, t: Step)
    requires Enabled(w, s) && Enabled(Do(w, s), t)
    ensures Valid(w, [s, t]) && RunAll(w, [s, t]) == Do(Do(w, s), t)
  {
    var u := Do(w, s);
    assert [s, t][1..] == [t] && [t][1..] == [];
    assert Valid(Do(u, t), []);
    assert Valid(u, [t]);
    assert RunAll(u, [t]) == RunAll(Do(u, t), []) == Do(u, t);
  }

  lemma {:induction false} Chained(w: World, a: seq<Step>, b: seq<Step>)
    requires Valid(w, a) && Valid(RunAll(w, a), b)
    ensures Valid(w, a + b) && RunAll(w, a + b) == RunAll(RunAll(w, a), b)
    decreases a
  {
    if a == [] {
      assert a + b == b;
    } else {
      Chained(Do(w, a[0]), a[1..], b);
      assert (a + b)[1..] == a[1..] + b;
    }
  }
}
