/**
 The campaign dispatcher's tables and the transactions that change them:
 scheduling, pause, resume and cancel by the tenant; claiming, leasing, marking
 and finishing by the workers. A campaign has one run; its items are keyed by
 campaign and normalised recipient, as the unique constraint has them.
 */
module CampaignTables {
  import opened Numbers
  import opened Text
  import opened Wrappers

  type CampaignId = nat
  type Owner = nat

  datatype RunState = Scheduled | Running | Resting | Paused | Completed | Cancelled | Broken

  /** `Resting` and `Broken` are the states RETRYING and FAILED of a run. */
  datatype Run = Run(
    state: RunState, scheduledAt: int, nextAttemptAt: int,
    owner: Option<Owner>, leaseExpiresAt: Option<int>, fence: nat, completedAt: Option<int>)

  /** What an item records of its last attempt. */
  datatype Fault = NoFault | SnapshotMissing | Refusal(detail: string) | NotAdmitted(status: int)

  datatype ItemState = Pending | Leased | Retrying | Delivered | Suppressed | Failed | Withdrawn

  /** `Withdrawn` is the state CANCELLED of an item. */
  datatype Item = Item(
    state: ItemState, attempts: nat, nextAttemptAt: int,
    owner: Option<Owner>, fence: Option<nat>, error: Fault)

  datatype ItemId = ItemId(campaign: CampaignId, recipient: string)

  datatype Db = Db(
    runs: map<CampaignId, Run>, items: map<ItemId, Item>,
    snapshots: set<CampaignId>, audience: set<ItemId>)

  /** What a worker holds after a claim: the run, the lease owner it was given, the fence token. */
  datatype Credential = Credential(campaign: CampaignId, owner: Owner, fence: nat)

  datatype Reply = Accepted(db: Db) | Refused(status: int)

  predicate Open(state: ItemState) {
    state in {Pending, Leased, Retrying}
  }

  predicate Active(db: Db, c: Credential) {
    && c.campaign in db.runs
    && var run := db.runs[c.campaign];
    && run.state == Running && run.owner == Some(c.owner) && run.fence == c.fence
  }

  predicate Holds(item: Item, c: Credential) {
    item.state == Leased && item.owner == Some(c.owner) && item.fence == Some(c.fence)
  }

  function OpenItems(db: Db, id: CampaignId): set<ItemId> {
    set i | i in db.items && i.campaign == id && Open(db.items[i].state)
  }

  function InState(db: Db, id: CampaignId, state: ItemState): set<ItemId> {
    set i | i in db.items && i.campaign == id && db.items[i].state == state
  }

  function ItemsOf(db: Db, id: CampaignId): set<ItemId> {
    set i | i in db.items && i.campaign == id
  }

  /** What the summary event of a run reports. */
  datatype Counts = Counts(audience: nat, delivered: nat, suppressed: nat, failed: nat, cancelled: nat)

  function CountsOf(db: Db, id: CampaignId): Counts {
    Counts(|ItemsOf(db, id)|, |InState(db, id, Delivered)|, |InState(db, id, Suppressed)|,
           |InState(db, id, Failed)|, |InState(db, id, Withdrawn)|)
  }

  // ---------------------------------------------------------------------
  // The frozen audience
  // ---------------------------------------------------------------------

  function Normalize(address: string): string {
    Lower(Strip(address))
  }

  function Audience(candidates: seq<string>): set<string> {
    set c | c in candidates && c != "" :: Normalize(c)
  }

  // ---------------------------------------------------------------------
  // Transactions as functions
  // ---------------------------------------------------------------------

  function NewItem(at: int): Item {
    Item(Pending, 0, at, None, None, NoFault)
  }

  function Ids(id: CampaignId, recipients: set<string>): set<ItemId> {
    set r | r in recipients :: ItemId(id, r)
  }

  function AddItems(items: map<ItemId, Item>, ids: set<ItemId>, at: int): map<ItemId, Item> {
    map i | i in items.Keys + ids :: if i in ids then NewItem(at) else items[i]
  }

  function Schedule(db: Db, id: CampaignId, recipients: set<string>, at: int): Db {
    if id in db.runs then db
    else
      Db(db.runs[id := Run(Scheduled, at, at, None, None, 0, None)], AddItems(db.items, Ids(id, recipients), at),
         db.snapshots + {id}, db.audience + Ids(id, recipients))
  }

  function ReleasedItem(item: Item, now: int): Item {
    item.(state := Retrying, owner := None, fence := None, nextAttemptAt := now)
  }

  /** Every leased item of the campaign goes back to RETRYING. */
  function ReleaseLeases(items: map<ItemId, Item>, id: CampaignId, now: int): map<ItemId, Item> {
    map i | i in items :: if i.campaign == id && items[i].state == Leased then ReleasedItem(items[i], now) else items[i]
  }

  function WithdrawnItem(item: Item): Item {
    item.(state := Withdrawn, owner := None, fence := None)
  }

  function WithdrawOpen(items: map<ItemId, Item>, id: CampaignId): map<ItemId, Item> {
    map i | i in items :: if i.campaign == id && Open(items[i].state) then WithdrawnItem(items[i]) else items[i]
  }

  function Pause(db: Db, id: CampaignId, now: int): Reply {
    if id !in db.runs || db.runs[id].state in {Completed, Cancelled, Broken} then Refused(409)
    else Accepted(db.(runs := db.runs[id := db.runs[id].(state := Paused, owner := None, leaseExpiresAt := None)],
                      items := ReleaseLeases(db.items, id, now)))
  }

  function Resume(db: Db, id: CampaignId, now: int): Reply {
    if id !in db.runs || db.runs[id].state != Paused then Refused(409)
    else Accepted(db.(runs := db.runs[id := db.runs[id].(state := Resting, nextAttemptAt := now)]))
  }

  function Cancel(db: Db, id: CampaignId, now: int): Db {
    if id !in db.runs || db.runs[id].state in {Completed, Cancelled} then db
    else db.(runs := db.runs[id := db.runs[id].(state := Cancelled, completedAt := Some(now), owner := None, leaseExpiresAt := None)],
             items := WithdrawOpen(db.items, id))
  }

  predicate LeaseOver(run: Run, now: int) {
    run.state == Running && run.leaseExpiresAt.Some? && run.leaseExpiresAt.value < now
  }

  function Expire(db: Db, id: CampaignId, now: int): Db
    requires id in db.runs
  {
    db.(runs := db.runs[id := db.runs[id].(state := Resting, nextAttemptAt := now, owner := None, leaseExpiresAt := None)],
        items := ReleaseLeases(db.items, id, now))
  }

  function Expired(db: Db, id: Option<CampaignId>, now: int): Db
    requires id.Some? ==> id.value in db.runs
  {
    if id.Some? then Expire(db, id.value, now) else db
  }

  predicate Claimable(run: Run, now: int) {
    run.state in {Scheduled, Resting} && run.scheduledAt <= now && run.nextAttemptAt <= now
  }

  function ClaimRun(db: Db, id: CampaignId, owner: Owner, now: int, leaseSeconds: nat): Db
    requires id in db.runs
  {
    var run := db.runs[id];
    db.(runs := db.runs[id := run.(state := Running, fence := run.fence + 1, owner := Some(owner),
                                   leaseExpiresAt := Some(now + leaseSeconds))])
  }

  predicate Precedes(runs: map<CampaignId, Run>, a: CampaignId, b: CampaignId)
    requires a in runs && b in runs
  {
    runs[a].scheduledAt < runs[b].scheduledAt || (runs[a].scheduledAt == runs[b].scheduledAt && a <= b)
  }

  predicate IsNext(runs: map<CampaignId, Run>, id: CampaignId, locked: set<CampaignId>, now: int) {
    && id in runs && id !in locked && Claimable(runs[id], now)
    && forall j :: j in runs && j !in locked && Claimable(runs[j], now) ==> Precedes(runs, id, j)
  }

  predicate Leasable(db: Db, i: ItemId, id: CampaignId, now: int) {
    i in db.items && i.campaign == id && db.items[i].state in {Pending, Retrying} && db.items[i].nextAttemptAt <= now
  }

  function LeasedItem(db: Db, i: ItemId, c: Credential): Item
    requires i in db.items
  {
    var item := db.items[i];
    if i !in db.audience then item.(state := Failed, error := SnapshotMissing)
    else item.(state := Leased, attempts := item.attempts + 1, owner := Some(c.owner), fence := Some(c.fence))
  }

  /** Leasing after a claim, without another look at the run: `rows` are what the query returned. */
  function LeaseItems(db: Db, c: Credential, rows: set<ItemId>, now: int): Db
    requires c.campaign in db.runs && forall i :: i in rows ==> i in db.items
  {
    if c.campaign !in db.snapshots then
      db.(runs := db.runs[c.campaign := db.runs[c.campaign].(state := Broken, completedAt := Some(now))])
    else db.(items := map i | i in db.items :: if i in rows then LeasedItem(db, i, c) else db.items[i])
  }

  function MarkedItem(item: Item, state: ItemState, error: Fault, now: int): Item {
    var marked := item.(state := state, error := error, owner := None, fence := None);
    if state == Retrying then marked.(nextAttemptAt := now + Min(900, Pow2(item.attempts))) else marked
  }

  function MarkResult(db: Db, i: ItemId, c: Credential, state: ItemState, error: Fault, now: int): (Db, bool) {
    if i in db.items && Holds(db.items[i], c) then
      (db.(items := db.items[i := MarkedItem(db.items[i], state, error, now)]), true)
    else (db, false)
  }

  function FinishRun(db: Db, c: Credential, now: int): Db {
    if !Active(db, c) then db
    else
      var run := db.runs[c.campaign].(owner := None, leaseExpiresAt := None);
      var finished := if OpenItems(db, c.campaign) != {} then run.(state := Resting, nextAttemptAt := now + 2)
                      else run.(state := Completed, completedAt := Some(now));
      db.(runs := db.runs[c.campaign := finished])
  }

  // ---------------------------------------------------------------------
  // Message admission
  // ---------------------------------------------------------------------

  datatype Admission = Admitted | Rejected(status: int, detail: string)

  function Outcome(a: Admission): ItemState {
    match a
    case Admitted => Delivered
    case Rejected(status, detail) =>
      if status == 422 && detail in {"recipient_suppressed", "marketing_consent_required"} then Suppressed
      else if status in {408, 429, 500, 502, 503, 504} then Retrying
      else Failed
  }

  function FaultOf(a: Admission): Fault {
    match a
    case Admitted => NoFault
    case Rejected(status, detail) => if Outcome(a) == Suppressed then Refusal(detail) else NotAdmitted(status)
  }

  // ---------------------------------------------------------------------
  // The tables, updated in place
  // ---------------------------------------------------------------------

  class Dispatcher {
    var runs: map<CampaignId, Run>
    var items: map<ItemId, Item>
    var snapshots: set<CampaignId>
    var audience: set<ItemId>

    constructor ()
      ensures View() == Db(map[], map[], {}, {})
    {
      runs, items, snapshots, audience := map[], map[], {}, {};
    }

    ghost function View(): Db
      reads this
    {
      Db(runs, items, snapshots, audience)
    }

    method ScheduleCampaign(id: CampaignId, candidates: seq<string>, at: int)
      modifies this
      ensures View() == Schedule(old(View()), id, Audience(candidates), at)
    {
      if id in runs {
        return;
      }
      snapshots := snapshots + {id};
      AddRecipients(id, Audience(candidates), at);
      runs := runs[id := Run(Scheduled, at, at, None, None, 0, None)];
    }

    method AddRecipients(id: CampaignId, recipients: set<string>, at: int)
      modifies this`items, this`audience
      ensures items == AddItems(old(items), Ids(id, recipients), at)
      ensures audience == old(audience) + Ids(id, recipients)
    {
      var rest := recipients;
      ghost var done := {};
      while rest != {}
        invariant Ids(id, recipients) == done + Ids(id, rest)
        invariant items == AddItems(old(items), done, at) && audience == old(audience) + done
        decreases rest
      {
        var recipient :| recipient in rest;
        audience := audience + {ItemId(id, recipient)};
        items := items[ItemId(id, recipient) := NewItem(at)];
        assert Ids(id, rest) == Ids(id, rest - {recipient}) + {ItemId(id, recipient)};
        done := done + {ItemId(id, recipient)};
        rest := rest - {recipient};
      }
      assert Ids(id, rest) == {};
    }

    /** The loop shared by pause and expiry. */
    method ReleaseLeasesOf(id: CampaignId, now: int)
      modifies this`items
      ensures items == ReleaseLeases(old(items), id, now)
    {
      var rest := set i | i in items && i.campaign == id && items[i].state == Leased;
      ghost var all, start := rest, items;
      while rest != {}
        invariant rest <= all && items.Keys == start.Keys
        invariant forall i :: i in start ==> items[i] == if i in all - rest then ReleasedItem(start[i], now) else start[i]
        decreases rest
      {
        var i :| i in rest;
        items := items[i := items[i].(state := Retrying, owner := None, fence := None, nextAttemptAt := now)];
        rest := rest - {i};
      }
    }

    method PauseCampaign(id: CampaignId, now: int) returns (ok: bool)
      modifies this
      ensures ok <==> Pause(old(View()), id, now).Accepted?
      ensures View() == if ok then Pause(old(View()), id, now).db else old(View())
    {
      if id !in runs || runs[id].state in {Completed, Cancelled, Broken} {
        return false;
      }
      runs := runs[id := runs[id].(state := Paused, owner := None, leaseExpiresAt := None)];
      ReleaseLeasesOf(id, now);
      return true;
    }

    method ResumeCampaign(id: CampaignId, now: int) returns (ok: bool)
      modifies this
      ensures ok <==> Resume(old(View()), id, now).Accepted?
      ensures View() == if ok then Resume(old(View()), id, now).db else old(View())
    {
      if id !in runs || runs[id].state != Paused {
        return false;
      }
      runs := runs[id := runs[id].(state := Resting, nextAttemptAt := now)];
      return true;
    }

    method CancelCampaign(id: CampaignId, now: int)
      modifies this
      ensures View() == Cancel(old(View()), id, now)
    {
      if id !in runs || runs[id].state in {Completed, Cancelled} {
        return;
      }
      runs := runs[id := runs[id].(state := Cancelled, completedAt := Some(now), owner := None, leaseExpiresAt := None)];
      var rest := set i | i in items && i.campaign == id && Open(items[i].state);
      ghost var all, start := rest, items;
      while rest != {}
        invariant rest <= all && items.Keys == start.Keys
        invariant runs == old(runs)[id := old(runs)[id].(state := Cancelled, completedAt := Some(now), owner := None, leaseExpiresAt := None)]
        invariant snapshots == old(snapshots) && audience == old(audience)
        invariant forall i :: i in start ==> items[i] == if i in all - rest then WithdrawnItem(start[i]) else start[i]
        decreases rest
      {
        var i :| i in rest;
        items := items[i := items[i].(state := Withdrawn, owner := None, fence := None)];
        rest := rest - {i};
      }
    }

    /**
     One claim transaction. `expired` is the run whose lease the first query found to be over, if any.
     With nothing to claim the transaction is rolled back, the expiry with it.
     */
    method ClaimNext(expired: Option<CampaignId>, owner: Owner, now: int, leaseSeconds: nat, locked: set<CampaignId>)
      returns (claim: Option<Credential>)
      requires expired.Some? ==> expired.value in runs && LeaseOver(runs[expired.value], now)
      modifies this
      ensures claim.None? ==> View() == old(View())
      ensures var mid := Expired(old(View()), expired, now);
              && (claim.None? ==> forall id :: id in mid.runs && id !in locked ==> !Claimable(mid.runs[id], now))
              && (claim.Some? ==>
                    && IsNext(mid.runs, claim.value.campaign, locked, now)
                    && View() == ClaimRun(mid, claim.value.campaign, owner, now, leaseSeconds)
                    && claim.value == Credential(claim.value.campaign, owner, mid.runs[claim.value.campaign].fence + 1))
    {
      var before := (runs, items);
      if expired.Some? {
        var id := expired.value;
        runs := runs[id := runs[id].(state := Resting, nextAttemptAt := now, owner := None, leaseExpiresAt := None)];
        ReleaseLeasesOf(id, now);
      }
      var next := NextClaimable(locked, now);
      if next.None? {
        runs, items := before.0, before.1;
        return None;
      }
      var run := runs[next.value];
      runs := runs[next.value := run.(state := Running, fence := run.fence + 1, owner := Some(owner),
                                      leaseExpiresAt := Some(now + leaseSeconds))];
      return Some(Credential(next.value, owner, run.fence + 1));
    }

    /** The claimable run that comes first by (scheduled_at, id) among those no one has locked. */
    method NextClaimable(locked: set<CampaignId>, now: int) returns (next: Option<CampaignId>)
      ensures next.None? ==> forall id :: id in runs && id !in locked ==> !Claimable(runs[id], now)
      ensures next.Some? ==> IsNext(runs, next.value, locked, now)
    {
      ghost var all := set id | id in runs && id !in locked && Claimable(runs[id], now);
      var rest := set id | id in runs && id !in locked && Claimable(runs[id], now);
      next := None;
      while rest != {}
        invariant rest <= all && (next.None? ==> rest == all) && (next.Some? ==> next.value in all)
        invariant next.Some? ==> forall j :: j in all - rest ==> Precedes(runs, next.value, j)
        decreases rest
      {
        var id :| id in rest;
        if next.None? || Precedes(runs, id, next.value) {
          forall j | j in all - rest
            ensures Precedes(runs, id, j)
          {
            assert Precedes(runs, next.value, j);
          }
          next := Some(id);
        }
        rest := rest - {id};
      }
      forall j | j in runs && j !in locked && Claimable(runs[j], now)
        ensures next.Some? && Precedes(runs, next.value, j)
      {
        assert j in all && j !in rest;
      }
    }

    method LeaseRows(c: Credential, rows: seq<ItemId>, now: int)
      requires c.campaign in runs && forall i :: i in rows ==> i in items
      requires forall j, k :: 0 <= j < k < |rows| ==> rows[j] != rows[k]
      modifies this
      ensures View() == LeaseItems(old(View()), c, (set i | i in rows), now)
    {
      if c.campaign !in snapshots {
        runs := runs[c.campaign := runs[c.campaign].(state := Broken, completedAt := Some(now))];
        return;
      }
      ghost var start := items;
      for n := 0 to |rows|
        invariant items.Keys == start.Keys && runs == old(runs) && snapshots == old(snapshots) && audience == old(audience)
        invariant forall i :: i in start ==> items[i] == if i in rows[..n] then LeasedItem(old(View()), i, c) else start[i]
      {
        var i := rows[n];
        assert i in rows && i !in rows[..n];
        assert rows[..n + 1] == rows[..n] + [i];
        if i !in audience {
          items := items[i := items[i].(state := Failed, error := SnapshotMissing)];
        } else {
          items := items[i := items[i].(state := Leased, attempts := items[i].attempts + 1,
                                        owner := Some(c.owner), fence := Some(c.fence))];
        }
      }
      assert rows[..|rows|] == rows;
    }

    method Mark(i: ItemId, c: Credential, state: ItemState, error: Fault, now: int) returns (effective: bool)
      modifies this
      ensures (View(), effective) == MarkResult(old(View()), i, c, state, error, now)
    {
      if i !in items || items[i].state != Leased || items[i].owner != Some(c.owner) || items[i].fence != Some(c.fence) {
        return false;
      }
      var item := items[i].(state := state, error := error, owner := None, fence := None);
      if state == Retrying {
        item := item.(nextAttemptAt := now + Min(900, Pow2(item.attempts)));
      }
      items := items[i := item];
      return true;
    }

    method Finish(c: Credential, now: int)
      modifies this
      ensures View() == FinishRun(old(View()), c, now)
    {
      if !Active(Db(runs, items, snapshots, audience), c) {
        return;
      }
      var remaining := |OpenItems(Db(runs, items, snapshots, audience), c.campaign)|;
      var run := runs[c.campaign].(owner := None, leaseExpiresAt := None);
      if remaining != 0 {
        run := run.(state := Resting, nextAttemptAt := now + 2);
      } else {
        run := run.(state := Completed, completedAt := Some(now));
      }
      runs := runs[c.campaign := run];
    }
  }
}
