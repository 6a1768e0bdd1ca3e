/**
 What the dispatcher achieves: a run is completed exactly when no item is open,
 every unsettled run can still be completed, nothing is sent before its time,
 and a paused run stays put.
 */
module CampaignProgress {
  import opened Numbers
  import opened Text
  import opened Wrappers
  import opened CampaignTables
  import opened CampaignProtocol

  // ---------------------------------------------------------------------
  // Completion
  // ---------------------------------------------------------------------

  predicate AllTerminal(db: Db, id: CampaignId) {
    forall i :: i in db.items && i.campaign == id ==> Terminal(db.items[i].state)
  }

  lemma OpenOrTerminal(state: ItemState)
    ensures Open(state) <==> !Terminal(state)
  {
    match state
    case Pending =>
    case Leased =>
    case Retrying =>
    case _ =>
  }

  lemma NothingOpen(db: Db, id: CampaignId)
    ensures OpenItems(db, id) == {} <==> AllTerminal(db, id)
  {
    if AllTerminal(db, id) {
      assert OpenItems(db, id) == {};
    } else {
      var i :| i in db.items && i.campaign == id && !Terminal(db.items[i].state);
      OpenOrTerminal(db.items[i].state);
      assert i in OpenItems(db, id);
    }
  }

  /** The worker with the claim in force completes the run exactly when every item is terminal; else it may be claimed two seconds on. */
  lemma FinishCompletesIff(w: World, c: Credential, now: int, t: int)
    requires Enabled(w, DoFinish(c, now)) && Active(w.db, c)
    ensures var v := Do(w, DoFinish(c, now));
            && c.campaign in v.db.runs && v.db.items == w.db.items
            && var run := v.db.runs[c.campaign];
            && (run.state == Completed <==> AllTerminal(w.db, c.campaign))
            && (run.state == Completed ==> run.completedAt == Some(now))
            && (run.state != Completed ==> (Claimable(run, t) <==> t >= now + 2 && t >= run.scheduledAt))
            && run.owner == None && run.leaseExpiresAt == None
  {
    NothingOpen(w.db, c.campaign);
  }

  /** A worker whose claim is over finishes nothing. */
  lemma StaleFinishChangesNothing(w: World, c: Credential, now: int)
    requires Enabled(w, DoFinish(c, now)) && !Active(w.db, c)
    ensures Do(w, DoFinish(c, now)) == w
  {
  }

  // ---------------------------------------------------------------------
  // Every unsettled run can be completed
  // ---------------------------------------------------------------------

  /** The worker holds every open item of its campaign, and each of them is on its list. */
  ghost predicate HoldsAllOpen(w: World, c: Credential) {
    && c in w.todo && c !in w.pending && Active(w.db, c)
    && OpenItems(w.db, c.campaign) == w.todo[c]
    && forall i :: i in w.todo[c] ==> Holds(w.db.items[i], c)
  }

  /** The items of `id` in `ids` are delivered; the others of the campaign are as they were. */
  predicate DeliveredOnly(a: Db, b: Db, id: CampaignId, ids: set<ItemId>) {
    forall i :: i in a.items && i.campaign == id ==>
      && i in b.items
      && (i in ids ==> b.items[i].state == Delivered)
      && (i !in ids ==> b.items[i] == a.items[i])
  }

  lemma DeliverOne(w: World, c: Credential, i: ItemId, now: int) returns (v: World)
    requires Inv(w) && HoldsAllOpen(w, c) && i in w.todo[c]
    ensures Valid(w, [DoSend(c, i, Admitted), DoMark(c, now)]) && v == RunAll(w, [DoSend(c, i, Admitted), DoMark(c, now)])
    ensures Inv(v) && HoldsAllOpen(v, c) && v.todo[c] == w.todo[c] - {i} && i in v.admitted
    ensures DeliveredOnly(w.db, v.db, c.campaign, {i})
  {
    var send, mark := DoSend(c, i, Admitted), DoMark(c, now);
    StepInv(w, send);
    var sent := Do(w, send);
    assert i in OpenItems(w.db, c.campaign);
    StepInv(sent, mark);
    v := Do(sent, mark);
    TwoSteps(w, send, mark);
    assert v.todo[c] == w.todo[c] - {i};
    forall j ensures j in OpenItems(v.db, c.campaign) <==> j in w.todo[c] - {i} {
      assert j in OpenItems(w.db, c.campaign) <==> j in w.todo[c];
    }
  }

  predicate ByWorkers(run: seq<Step>) {
    forall s :: s in run ==> s.DoClaim? || s.DoLease? || s.DoSend? || s.DoMark? || s.DoFinish?
  }

  lemma {:induction false} DeliverAll(w: World, c: Credential, now: int) returns (run: seq<Step>)
    requires Inv(w) && HoldsAllOpen(w, c)
    ensures Valid(w, run) && ByWorkers(run)
    ensures var v := RunAll(w, run);
            && Inv(v) && c in v.todo && v.todo[c] == {} && Active(v.db, c) && OpenItems(v.db, c.campaign) == {}
            && DeliveredOnly(w.db, v.db, c.campaign, w.todo[c])
    decreases w.todo[c]
  {
    if w.todo[c] == {} {
      run := [];
    } else {
      var i :| i in w.todo[c];
      var v := DeliverOne(w, c, i, now);
      var rest := DeliverAll(v, c, now);
      run := [DoSend(c, i, Admitted), DoMark(c, now)] + rest;
      Chained(w, [DoSend(c, i, Admitted), DoMark(c, now)], rest);
    }
  }

  /** The items of `id` that are not open keep their rows. */
  ghost predicate ClosedAreKept(a: Db, b: Db, id: CampaignId) {
    forall i :: i in a.items && i.campaign == id && i !in OpenItems(a, id) ==> i in b.items && b.items[i] == a.items[i]
  }

  /** Late enough for the run and all its open items. */
  predicate DueBy(db: Db, id: CampaignId, now: int) {
    && id in db.runs && db.runs[id].scheduledAt <= now
    && forall i :: i in OpenItems(db, id) ==> db.items[i].nextAttemptAt <= now
  }

  lemma {:induction false} LatestOf(db: Db, ids: set<ItemId>, from: int) returns (now: int)
    requires forall i :: i in ids ==> i in db.items
    ensures now >= from && forall i :: i in ids ==> db.items[i].nextAttemptAt <= now
    decreases ids
  {
    now := from;
    if ids != {} {
      var i :| i in ids;
      now := LatestOf(db, ids - {i}, from);
      if now < db.items[i].nextAttemptAt {
        now := db.items[i].nextAttemptAt;
      }
    }
  }

  lemma SomeTimeIsDue(db: Db, id: CampaignId) returns (now: int)
    requires id in db.runs
    ensures DueBy(db, id, now)
  {
    now := LatestOf(db, OpenItems(db, id), db.runs[id].scheduledAt);
  }

  /** A pause and a resume free every lease, the orphaned ones too. */
  lemma FreedByPause(w: World, id: CampaignId, now: int) returns (v: World)
    requires Inv(w) && id in w.db.runs && !Settled(w.db, id) && DueBy(w.db, id, now)
    ensures Valid(w, [DoPause(id, now), DoResume(id, now)]) && v == RunAll(w, [DoPause(id, now), DoResume(id, now)])
    ensures Inv(v) && id in v.db.runs && Claimable(v.db.runs[id], now)
    ensures v.issued == w.issued && OpenItems(v.db, id) == OpenItems(w.db, id)
    ensures forall i :: i in OpenItems(v.db, id) ==> Leasable(v.db, i, id, now)
    ensures ClosedAreKept(w.db, v.db, id)
  {
    assert RunOk(w, id);
    var pause, resume := DoPause(id, now), DoResume(id, now);
    StepInv(w, pause);
    var paused := Do(w, pause);
    StepInv(paused, resume);
    v := Do(paused, resume);
    TwoSteps(w, pause, resume);
    forall i ensures i in OpenItems(v.db, id) <==> i in OpenItems(w.db, id) {
    }
    forall i | i in OpenItems(v.db, id) ensures Leasable(v.db, i, id, now) {
      assert i in OpenItems(w.db, id);
    }
  }

  /** One worker claims the run, expiring its last lease first if there is one; its open items are there to lease. */
  lemma Taken(w: World, expired: Option<CampaignId>, id: CampaignId, owner: Owner, now: int, leaseSeconds: nat)
    returns (v: World, c: Credential)
    requires Inv(w) && id in w.db.runs && (expired.Some? ==> expired.value == id && LeaseOver(w.db.runs[id], now))
    requires Claimable(Expired(w.db, expired, now).runs[id], now)
    requires forall d :: d in w.issued ==> d.owner != owner
    requires forall i :: i in OpenItems(w.db, id) ==> Leasable(Expired(w.db, expired, now), i, id, now)
    ensures var claim := DoClaim(expired, id, owner, now, leaseSeconds); Enabled(w, claim) && v == Do(w, claim)
    ensures Inv(v) && c.campaign == id && c in v.issued && c !in v.todo && Active(v.db, c) && ClosedAreKept(w.db, v.db, id)
    ensures OpenItems(v.db, id) == OpenItems(w.db, id) && forall i :: i in OpenItems(w.db, id) ==> Leasable(v.db, i, id, now)
  {
    c := Credential(id, owner, w.db.runs[id].fence + 1);
    var claim := DoClaim(expired, id, owner, now, leaseSeconds);
    assert Enabled(w, claim);
    StepInv(w, claim);
    v := Do(w, claim);
    assert WorkOk(w, c);
    forall i ensures i in OpenItems(v.db, id) <==> i in OpenItems(w.db, id) {
      assert i in v.db.items <==> i in w.db.items;
    }
  }

  /** It leases every open item, without another look at the run. */
  lemma LeasedAll(w: World, c: Credential, now: int) returns (v: World)
    requires Inv(w) && c in w.issued && c !in w.todo && Active(w.db, c)
    requires forall i :: i in OpenItems(w.db, c.campaign) ==> Leasable(w.db, i, c.campaign, now)
    ensures var lease := DoLease(c, OpenItems(w.db, c.campaign), now); Enabled(w, lease) && v == Do(w, lease)
    ensures Inv(v) && HoldsAllOpen(v, c) && v.todo[c] == OpenItems(w.db, c.campaign) && ClosedAreKept(w.db, v.db, c.campaign)
  {
    var rows := OpenItems(w.db, c.campaign);
    var lease := DoLease(c, rows, now);
    assert RunOk(w, c.campaign) && WorkOk(w, c);
    forall i | i in rows ensures i in w.db.audience {
      assert ItemOk(w, i);
    }
    StepInv(w, lease);
    v := Do(w, lease);
    assert v.todo[c] == rows;
    forall i ensures i in OpenItems(v.db, c.campaign) <==> i in rows {
      assert i in v.db.items <==> i in w.db.items;
    }
  }

  lemma AllLeased(w: World, expired: Option<CampaignId>, id: CampaignId, owner: Owner, now: int, leaseSeconds: nat)
    returns (v: World, c: Credential)
    requires Inv(w) && id in w.db.runs && (expired.Some? ==> expired.value == id && LeaseOver(w.db.runs[id], now))
    requires Claimable(Expired(w.db, expired, now).runs[id], now)
    requires forall d :: d in w.issued ==> d.owner != owner
    requires forall i :: i in OpenItems(w.db, id) ==> Leasable(Expired(w.db, expired, now), i, id, now)
    ensures c.campaign == id
    ensures var steps := [DoClaim(expired, id, owner, now, leaseSeconds), DoLease(c, OpenItems(w.db, id), now)];
            Valid(w, steps) && v == RunAll(w, steps)
    ensures Inv(v) && HoldsAllOpen(v, c) && v.todo[c] == OpenItems(w.db, id)
    ensures ClosedAreKept(w.db, v.db, id)
  {
    var claimed, d := Taken(w, expired, id, owner, now, leaseSeconds);
    c := d;
    v := LeasedAll(claimed, c, now);
    TwoSteps(w, DoClaim(expired, id, owner, now, leaseSeconds), DoLease(c, OpenItems(w.db, id), now));
  }

  lemma LastStep(w: World, s: Step)
    requires Enabled(w, s)
    ensures Valid(w, [s]) && RunAll(w, [s]) == Do(w, s)
  {
    var u := Do(w, s);
    assert [s][1..] == [];
    assert Valid(u, []) && RunAll(u, []) == u;
  }

  /** Every open item of `w` is delivered in `v`, every other keeps its row, and the run is completed. */
  ghost predicate CompletedFrom(w: World, v: World, id: CampaignId) {
    && id in v.db.runs && v.db.runs[id].state == Completed
    && DeliveredOnly(w.db, v.db, id, OpenItems(w.db, id))
  }

  lemma WorkedOff(w: World, c: Credential, now: int) returns (run: seq<Step>)
    requires Inv(w) && HoldsAllOpen(w, c)
    ensures Valid(w, run) && ByWorkers(run) && CompletedFrom(w, RunAll(w, run), c.campaign)
  {
    var deliver := DeliverAll(w, c, now);
    var done := RunAll(w, deliver);
    var finish := DoFinish(c, now);
    NothingOpen(done.db, c.campaign);
    FinishCompletesIff(done, c, now, now);
    LastStep(done, finish);
    Chained(w, deliver, [finish]);
    run := deliver + [finish];
  }

  /** The worker's part: claim, lease, deliver, finish. */
  lemma ClaimedAndWorkedOff(w: World, expired: Option<CampaignId>, id: CampaignId, owner: Owner, now: int, leaseSeconds: nat)
    returns (run: seq<Step>)
    requires Inv(w) && id in w.db.runs && (expired.Some? ==> expired.value == id && LeaseOver(w.db.runs[id], now))
    requires Claimable(Expired(w.db, expired, now).runs[id], now)
    requires forall d :: d in w.issued ==> d.owner != owner
    requires forall i :: i in OpenItems(w.db, id) ==> Leasable(Expired(w.db, expired, now), i, id, now)
    ensures Valid(w, run) && ByWorkers(run) && CompletedFrom(w, RunAll(w, run), id)
  {
    var v, c := AllLeased(w, expired, id, owner, now, leaseSeconds);
    var take := [DoClaim(expired, id, owner, now, leaseSeconds), DoLease(c, OpenItems(w.db, id), now)];
    var work := WorkedOff(v, c, now);
    Chained(w, take, work);
    run := take + work;
  }

  /**
   From every reachable world the workers alone can complete an unsettled run that
   is not paused, unless it waits with an item still leased: a RUNNING run once
   its lease is over, the others once they are due.
   */
  lemma WorkersCanComplete(w: World, id: CampaignId, owner: Owner, leaseSeconds: nat) returns (run: seq<Step>)
    requires Inv(w) && id in w.db.runs && w.db.runs[id].state in {Scheduled, Resting, Running}
    requires w.db.runs[id].state == Running || InState(w.db, id, Leased) == {}
    requires forall d :: d in w.issued ==> d.owner != owner
    ensures Valid(w, run) && ByWorkers(run) && CompletedFrom(w, RunAll(w, run), id)
  {
    assert RunOk(w, id);
    var row := w.db.runs[id];
    var now := SomeTimeIsDue(w.db, id);
    if row.state == Running {
      now := if row.leaseExpiresAt.value < now then now else row.leaseExpiresAt.value + 1;
      run := ClaimedAndWorkedOff(w, Some(id), id, owner, now, leaseSeconds);
    } else {
      now := if row.nextAttemptAt < now then now else row.nextAttemptAt;
      forall i | i in OpenItems(w.db, id) ensures Leasable(w.db, i, id, now) {
        assert i !in InState(w.db, id, Leased);
      }
      run := ClaimedAndWorkedOff(w, None, id, owner, now, leaseSeconds);
    }
  }

  /** From every reachable world an unsettled run can be completed and every open item of it delivered, paused or not, orphans included. */
  lemma EveryRunCanComplete(w: World, id: CampaignId, owner: Owner, leaseSeconds: nat) returns (run: seq<Step>)
    requires Inv(w) && id in w.db.runs && !Settled(w.db, id)
    requires forall d :: d in w.issued ==> d.owner != owner
    ensures Valid(w, run) && CompletedFrom(w, RunAll(w, run), id)
  {
    var now := SomeTimeIsDue(w.db, id);
    var v := FreedByPause(w, id, now);
    var free := [DoPause(id, now), DoResume(id, now)];
    var work := ClaimedAndWorkedOff(v, None, id, owner, now, leaseSeconds);
    Chained(w, free, work);
    run := free + work;
  }

  // ---------------------------------------------------------------------
  // Times
  // ---------------------------------------------------------------------

  /** A scheduled campaign and its items are due exactly from the scheduled time on. */
  lemma ScheduledIsDue(w: World, id: CampaignId, candidates: seq<string>, at: int, recipient: string, t: int)
    requires Inv(w) && id !in w.db.runs && recipient in Audience(candidates)
    ensures var db := Do(w, DoSchedule(id, candidates, at)).db;
            && (Claimable(db.runs[id], t) <==> t >= at)
            && (Leasable(db, ItemId(id, recipient), id, t) <==> t >= at)
  {
  }

  /** A claim is in force until its lease is over, and over exactly after its last second. */
  lemma LeaseLasts(w: World, id: CampaignId, owner: Owner, now: int, leaseSeconds: nat, t: int)
    requires Enabled(w, DoClaim(None, id, owner, now, leaseSeconds))
    ensures var v := Do(w, DoClaim(None, id, owner, now, leaseSeconds));
            && Active(v.db, Credential(id, owner, v.db.runs[id].fence))
            && (LeaseOver(v.db.runs[id], t) <==> t > now + leaseSeconds)
  {
  }

  /** A run that is expired or resumed may be claimed at once, and an item its pause or expiry released may be leased at once. */
  lemma ReleasedIsDue(w: World, id: CampaignId, now: int, i: ItemId, t: int)
    requires Inv(w) && id in w.db.runs && i in w.db.items && i.campaign == id && w.db.items[i].state == Leased
    ensures LeaseOver(w.db.runs[id], now) ==>
      var db := Expire(w.db, id, now);
      && (Claimable(db.runs[id], t) <==> t >= now && t >= db.runs[id].scheduledAt)
      && (Leasable(db, i, id, t) <==> t >= now)
    ensures Enabled(w, DoPause(id, now)) ==>
      var db := Do(w, DoPause(id, now)).db;
      !Claimable(db.runs[id], t) && (Leasable(db, i, id, t) <==> t >= now)
    ensures Enabled(w, DoResume(id, now)) ==>
      var db := Do(w, DoResume(id, now)).db;
      Claimable(db.runs[id], t) <==> t >= now && t >= db.runs[id].scheduledAt
  {
  }

  lemma ScheduleIsKept(w: World, s: Step, id: CampaignId)
    requires Enabled(w, s) && id in w.db.runs
    ensures id in Do(w, s).db.runs && Do(w, s).db.runs[id].scheduledAt == w.db.runs[id].scheduledAt
  {
  }

  /** Over every run no campaign is claimed before its scheduled time. */
  lemma {:induction false} NeverBeforeItsTime(w: World, run: seq<Step>, id: CampaignId)
    requires Inv(w) && Valid(w, run) && id in w.db.runs
    ensures forall s :: s in run && s.DoClaim? && s.id == id ==> s.now >= w.db.runs[id].scheduledAt
    decreases run
  {
    if run != [] {
      StepInv(w, run[0]);
      ScheduleIsKept(w, run[0], id);
      NeverBeforeItsTime(Do(w, run[0]), run[1..], id);
      forall s | s in run && s.DoClaim? && s.id == id ensures s.now >= w.db.runs[id].scheduledAt {
        if s == run[0] {
          assert Claimable(Expired(w.db, s.expired, s.now).runs[id], s.now);
        } else {
          assert s in run[1..];
        }
      }
    }
  }

  // ---------------------------------------------------------------------
  // Paused
  // ---------------------------------------------------------------------

  predicate PausedOrCancelled(db: Db, id: CampaignId) {
    id in db.runs && db.runs[id].state in {Paused, Cancelled}
  }

  /** After a pause, until a resume: the run is never claimed, no result of it is sent, and it does not settle unless it is cancelled. */
  lemma {:induction false} PausedStaysPut(w: World, run: seq<Step>, id: CampaignId)
    requires Inv(w) && Valid(w, run) && PausedOrCancelled(w.db, id)
    requires forall s :: s in run && s.DoResume? ==> s.id != id
    ensures PausedOrCancelled(RunAll(w, run).db, id)
    ensures forall s :: s in run ==> !(s.DoClaim? && s.id == id) && !(s.DoSend? && s.c.campaign == id)
    decreases run
  {
    if run != [] {
      assert RunOk(w, id);
      StepInv(w, run[0]);
      assert PausedOrCancelled(Do(w, run[0]).db, id) by {
        if run[0].DoLease? {
          assert CredentialOk(w, run[0].c) && RunOk(w, run[0].c.campaign);
        }
      }
      PausedStaysPut(Do(w, run[0]), run[1..], id);
      forall s | s in run ensures !(s.DoClaim? && s.id == id) && !(s.DoSend? && s.c.campaign == id) {
        assert s == run[0] || s in run[1..];
      }
    }
  }

  /** A tenant can pause a run exactly while it is unsettled, and resume it exactly while it is paused. */
  lemma PauseResumeIff(w: World, id: CampaignId, now: int)
    requires Inv(w) && id in w.db.runs
    ensures Enabled(w, DoPause(id, now)) <==> !Settled(w.db, id)
    ensures Enabled(w, DoPause(id, now)) ==> Enabled(Do(w, DoPause(id, now)), DoResume(id, now))
    ensures Enabled(w, DoResume(id, now)) ==> w.db.runs[id].state == Paused
    ensures !Enabled(w, DoPause(id, now)) ==> Pause(w.db, id, now) == Refused(409)
    ensures !Enabled(w, DoResume(id, now)) ==> Resume(w.db, id, now) == Refused(409)
  {
    assert RunOk(w, id);
  }

  /** A cancel settles every run that is not completed, and stamps it. */
  lemma CancelSettles(w: World, id: CampaignId, now: int)
    requires Inv(w) && id in w.db.runs
    ensures var run := Do(w, DoCancel(id, now)).db.runs[id];
            && run.state == (if w.db.runs[id].state == Completed then Completed else Cancelled)
            && (!Settled(w.db, id) ==> run.completedAt == Some(now))
  {
  }

  // ---------------------------------------------------------------------
  // Attempts
  // ---------------------------------------------------------------------

  function AttemptsOf(db: Db, i: ItemId): nat {
    if i in db.items then db.items[i].attempts else 0
  }

  function Leases(run: seq<Step>, i: ItemId): nat {
    if run == [] then 0 else (if run[0].DoLease? && i in run[0].rows then 1 else 0) + Leases(run[1..], i)
  }

  lemma AttemptStep(w: World, s: Step, i: ItemId)
    requires Inv(w) && Enabled(w, s)
    ensures AttemptsOf(Do(w, s).db, i) == AttemptsOf(w.db, i) + if s.DoLease? && i in s.rows then 1 else 0
  {
    assert ItemOk(w, i);
    if s.DoLease? {
      assert CredentialOk(w, s.c) && RunOk(w, s.c.campaign);
    }
  }

  /** The attempts of an item, which set the delay of its retries, count its leases over every run. */
  lemma {:induction false} AttemptsCountLeases(w: World, run: seq<Step>, i: ItemId)
    requires Inv(w) && Valid(w, run)
    ensures AttemptsOf(RunAll(w, run).db, i) == AttemptsOf(w.db, i) + Leases(run, i)
    decreases run
  {
    if run != [] {
      StepInv(w, run[0]);
      AttemptStep(w, run[0], i);
      AttemptsCountLeases(Do(w, run[0]), run[1..], i);
    }
  }

  // ---------------------------------------------------------------------
  // Results
  // ---------------------------------------------------------------------

  /** An admission is terminal unless it failed in passing; suppression is told apart from the other refusals. */
  lemma OutcomeMeans(a: Admission)
    ensures Outcome(a) == Delivered <==> a.Admitted?
    ensures Outcome(a) == Retrying <==> a.Rejected? && a.status in {408, 429, 500, 502, 503, 504}
    ensures Outcome(a) == Suppressed <==> a.Rejected? && a.status == 422 && a.detail in {"recipient_suppressed", "marketing_consent_required"}
    ensures Outcome(a) in {Delivered, Retrying, Suppressed, Failed}
    ensures FaultOf(a) == NoFault <==> Outcome(a) == Delivered
    ensures Outcome(a) == Suppressed ==> FaultOf(a) == Refusal(a.detail)
    ensures Outcome(a) in {Retrying, Failed} ==> FaultOf(a) == NotAdmitted(a.status)
  {
  }

  /**
   A result sent under a claim is recorded if and only if the item is still leased
   under exactly that claim; then the item shows it and is leased no more.
   */
  lemma ResultIsRecordedIff(w: World, c: Credential, now: int)
    requires Inv(w) && Enabled(w, DoMark(c, now))
    ensures var v, verdict := Do(w, DoMark(c, now)), w.pending[c];
            if verdict.item in w.db.items && Holds(w.db.items[verdict.item], c) then
              && verdict.item in v.db.items
              && var before, after := w.db.items[verdict.item], v.db.items[verdict.item];
              && after.state == verdict.state && after.error == verdict.error && after.attempts == before.attempts
              && after.owner == None && after.fence == None
              && (verdict.state != Retrying ==> after.nextAttemptAt == before.nextAttemptAt)
              && MarkResult(w.db, verdict.item, c, verdict.state, verdict.error, now).1
            else v.db == w.db && !MarkResult(w.db, verdict.item, c, verdict.state, verdict.error, now).1
  {
    assert WorkOk(w, c);
  }

  /** Leasing holds exactly the rows with an audience snapshot; without the campaign's own it breaks the run instead. */
  lemma LeaseOutcome(db: Db, c: Credential, rows: set<ItemId>, now: int, i: ItemId)
    requires c.campaign in db.runs && i in rows && forall j :: j in rows ==> j in db.items && Leasable(db, j, c.campaign, now)
    ensures var after := LeaseItems(db, c, rows, now);
            && i in after.items
            && if c.campaign in db.snapshots then
                 && after.runs == db.runs
                 && (Holds(after.items[i], c) <==> i in db.audience)
                 && (after.items[i].state == Failed && after.items[i].error == SnapshotMissing <==> i !in db.audience)
               else after.items == db.items && after.runs[c.campaign].state == Broken && after.runs[c.campaign].completedAt == Some(now)
  {
  }

  // ---------------------------------------------------------------------
  // Recipients
  // ---------------------------------------------------------------------

  /** Every recipient is in normal form: addresses that differ in case or in blanks around them get one item. */
  lemma NormalForm(address: string)
    ensures Normalize(Normalize(address)) == Normalize(address)
  {
    LowerStripTwice(address);
  }

  /** Two addresses share an item exactly when their normal forms agree; an empty one gets none. */
  lemma AudienceMeans(candidates: seq<string>, recipient: string)
    ensures recipient in Audience(candidates) <==> exists c :: c in candidates && c != "" && Normalize(c) == recipient
    ensures recipient in Audience(candidates) ==> Normalize(recipient) == recipient
  {
    if recipient in Audience(candidates) {
      var c :| c in candidates && c != "" && Normalize(c) == recipient;
      NormalForm(c);
    }
  }

  /** The program drops empty addresses before it strips them: a blank one becomes an item for the empty recipient. */
  lemma BlankAddress()
    ensures "" in Audience([" "])
  {
    assert " "[1..] == "";
    assert StripLeft(" ") == StripLeft("") == "";
    assert Normalize(" ") == "";
    assert " " in [" "];
  }

  // ---------------------------------------------------------------------
  // The order of claims
  // ---------------------------------------------------------------------

  /** While some run nobody locks can be claimed, the query finds one. */
  lemma SomeNext(runs: map<CampaignId, Run>, ids: set<CampaignId>, locked: set<CampaignId>, now: int) returns (a: CampaignId)
    requires ids != {} && ids <= runs.Keys
    requires forall j :: j in ids <==> j in runs && j !in locked && Claimable(runs[j], now)
    ensures IsNext(runs, a, locked, now)
  {
    a := LeastOf(runs, ids);
  }

  lemma {:induction false} LeastOf(runs: map<CampaignId, Run>, ids: set<CampaignId>) returns (a: CampaignId)
    requires ids != {} && ids <= runs.Keys
    ensures a in ids && forall j :: j in ids ==> Precedes(runs, a, j)
    decreases ids
  {
    var i :| i in ids;
    a := i;
    if ids != {i} {
      assert ids - {i} != {};
      var least := LeastOf(runs, ids - {i});
      a := if Precedes(runs, i, least) then i else least;
      forall j | j in ids ensures Precedes(runs, a, j) {
        assert j == i || j in ids - {i};
      }
    }
  }

  /** The claim query has one answer: the earliest scheduled, then the smallest id. */
  lemma NextIsUnique(runs: map<CampaignId, Run>, a: CampaignId, b: CampaignId, locked: set<CampaignId>, now: int)
    requires IsNext(runs, a, locked, now) && b in runs && b !in locked && Claimable(runs[b], now)
    ensures runs[a].scheduledAt <= runs[b].scheduledAt
    ensures IsNext(runs, b, locked, now) <==> a == b
  {
  }
}
