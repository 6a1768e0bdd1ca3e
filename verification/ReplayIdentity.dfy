/**
 A stored result keeps its identity: through any sequence of key rotations that
 keep the old keys, rewraps and purge tombstones, a repeated submission is
 recognised exactly when it is the one first accepted.
 */
module ReplayIdentity {
  import opened DurableResults
  import opened JsonValue
  import opened Wrappers

  datatype Event = Rotate(next: Env) | RewrapRow(nonce: Nonce) | PurgeRow(now: int, policy: string, nonce: Nonce)

  datatype Store = Store(env: Env, row: Row)

  /** Old keys stay as they are; the active key and the legacy switch may change. */
  ghost predicate Extends(env: Env, next: Env) {
    && next.active in next.keys && next.size == env.size
    && forall k :: k in env.keys ==> k in next.keys && next.keys[k] == env.keys[k]
  }

  ghost predicate Possible(s: Store, e: Event) {
    e.Rotate? ==> Extends(s.env, e.next)
  }

  /** A rewrap or a purge that raises leaves the row alone. */
  function Apply(s: Store, e: Event): Store {
    match e
    case Rotate(next) => s.(env := next)
    case RewrapRow(nonce) =>
      var stored := Rewrap(s.env, s.row, nonce);
      if stored.Some? then s.(row := s.row.(stored := stored.value)) else s
    case PurgeRow(now, policy, nonce) =>
      var stored := SealTombstone(s.env, s.row, now, policy, nonce);
      if stored.Some? then s.(row := s.row.(stored := stored.value)) else s
  }

  ghost predicate History(s: Store, run: seq<Event>)
    decreases run
  {
    run == [] || (Possible(s, run[0]) && History(Apply(s, run[0]), run[1..]))
  }

  ghost function After(s: Store, run: seq<Event>): Store
    decreases run
  {
    if run == [] then s else After(Apply(s, run[0]), run[1..])
  }

  /** The redacted form is itself within the limit a result is read under. */
  predicate Fits(size: Size, v: Value)
    requires Visit(v, 0).Some?
  {
    size(Visit(v, 0).value) <= MAX_RESULT_BYTES
  }

  predicate Opens(env: Env, row: Row, document: Document) {
    && row.stored.Envelope? && row.stored.kid in env.keys
    && row.stored.cipher == Cipher(env.keys[row.stored.kid], row.stored.nonce, Context(row.stored.kid, row.binding), Doc(document))
    && PlainSize(env.size, Doc(document)) <= MAX_DOCUMENT_BYTES
  }

  /** The row holds the result `v`, in one of the forms it may take. */
  ghost predicate Carries(s: Store, v: Value) {
    && s.env.active in s.env.keys && Bound(s.row.binding) && s.row.binding.kind == Integration
    && Canonical(s.env.size, v, MAX_RESULT_BYTES) && Visit(v, 0).Some?
    && (Awaiting(s, v) || Sealed(s, v) || Gone(s, v))
  }

  predicate Awaiting(s: Store, v: Value) {
    s.row.stored == Legacy(v) && v.Record? && "format" !in v.fields
  }

  predicate Sealed(s: Store, v: Value) {
    Visit(v, 0).Some? && Opens(s.env, s.row, Payload(Digest(v), Visit(v, 0).value))
  }

  ghost predicate Gone(s: Store, v: Value) {
    exists at, policy :: Opens(s.env, s.row, Tombstone(Digest(v), at, policy))
  }

  /** Whether the row can be read at all, as it is now. */
  ghost predicate Readable(s: Store, v: Value)
    requires Visit(v, 0).Some?
  {
    Gone(s, v) || (Awaiting(s, v) && s.env.legacyRead) || (Sealed(s, v) && Fits(s.env.size, v))
  }

  lemma AcceptedCarries(env: Env, v: Value, row: Row, nonce: Nonce)
    requires row.binding.kind == Integration && SealResult(env, v, row.binding, nonce) == Some(row.stored)
    ensures Carries(Store(env, row), v)
  {
  }

  lemma RotationKeeps(s: Store, next: Env, v: Value)
    requires Carries(s, v) && Extends(s.env, next)
    ensures Carries(s.(env := next), v)
  {
    if Gone(s, v) {
      var at, policy :| Opens(s.env, s.row, Tombstone(Digest(v), at, policy));
      assert Opens(next, s.row, Tombstone(Digest(v), at, policy));
    }
  }

  /** What a row that carries `v` reads as. */
  lemma RecordOf(s: Store, v: Value)
    requires Carries(s, v)
    ensures IntegrationRecord(s.env, s.row).Some? <==> Readable(s, v)
    ensures Readable(s, v) ==>
      var document := IntegrationRecord(s.env, s.row).value;
      && document.hash == Digest(v)
      && if Gone(s, v) then document.Tombstone? && Opens(s.env, s.row, document)
         else document == Payload(Digest(v), Visit(v, 0).value)
  {
    VisitIdempotent(v, 0);
    if Gone(s, v) {
      var at, policy :| Opens(s.env, s.row, Tombstone(Digest(v), at, policy));
      assert IntegrationRecord(s.env, s.row) == Some(Tombstone(Digest(v), at, policy));
    }
  }

  lemma RewrapKeeps(s: Store, nonce: Nonce, v: Value)
    requires Carries(s, v)
    ensures Carries(Apply(s, RewrapRow(nonce)), v)
    ensures Gone(s, v) <==> Gone(Apply(s, RewrapRow(nonce)), v)
  {
    RecordOf(s, v);
    var t := Apply(s, RewrapRow(nonce));
    if Rewrap(s.env, s.row, nonce).Some? {
      if Gone(s, v) {
        var document := IntegrationRecord(s.env, s.row).value;
        assert Opens(t.env, t.row, Tombstone(Digest(v), document.purgedAt, document.policy));
      } else {
        assert Opens(t.env, t.row, Payload(Digest(v), Visit(v, 0).value));
      }
    }
  }

  lemma PurgeKeeps(s: Store, now: int, policy: string, nonce: Nonce, v: Value)
    requires Carries(s, v)
    ensures Carries(Apply(s, PurgeRow(now, policy, nonce)), v)
    ensures Gone(Apply(s, PurgeRow(now, policy, nonce)), v) <==> Readable(s, v)
    ensures Gone(s, v) ==> Apply(s, PurgeRow(now, policy, nonce)) == s
  {
    RecordOf(s, v);
    var t := Apply(s, PurgeRow(now, policy, nonce));
    if Readable(s, v) && !Gone(s, v) {
      assert Opens(t.env, t.row, Tombstone(Digest(v), now, policy));
    }
  }

  lemma StepKeeps(s: Store, e: Event, v: Value)
    requires Carries(s, v) && Possible(s, e)
    ensures Carries(Apply(s, e), v)
  {
    match e
    case Rotate(next) => RotationKeeps(s, next, v);
    case RewrapRow(nonce) => RewrapKeeps(s, nonce, v);
    case PurgeRow(now, policy, nonce) => PurgeKeeps(s, now, policy, nonce, v);
  }

  lemma {:induction false} HistoryKeeps(s: Store, run: seq<Event>, v: Value)
    requires Carries(s, v) && History(s, run)
    ensures Carries(After(s, run), v)
    decreases run
  {
    if run != [] {
      StepKeeps(s, run[0], v);
      HistoryKeeps(Apply(s, run[0]), run[1..], v);
    }
  }

  /**
   Replay identity. Through any history, a submission matches the row exactly
   when it is the value first accepted; the check answers exactly when the row
   is readable.
   */
  lemma IdentityIsKept(s: Store, run: seq<Event>, v: Value, w: Value)
    requires Carries(s, v) && History(s, run) && Canonical(s.env.size, w, MAX_RESULT_BYTES)
    ensures var t := After(s, run);
            Matches(t.env, t.row, w) == if Visit(v, 0).Some? && Readable(t, v) then Some(w == v) else None
  {
    HistoryKeeps(s, run, v);
    SizeKept(s, run);
    RecordOf(After(s, run), v);
  }

  lemma {:induction false} SizeKept(s: Store, run: seq<Event>)
    requires History(s, run)
    ensures After(s, run).env.size == s.env.size
    decreases run
  {
    if run != [] {
      SizeKept(Apply(s, run[0]), run[1..]);
    }
  }

  function Unpurged(v: Value, created: int, now: int, retention: int): (Value, Availability)
    requires Visit(v, 0).Some?
  {
    if created + retention <= now then (Record(map[]), Expired) else (Visit(v, 0).value, Available)
  }

  predicate IsPurge(e: Event) { e.PurgeRow? }

  /** Until it is purged, a readable row reads the same result through every history. */
  lemma {:induction false} UnpurgedReadsTheSame(s: Store, run: seq<Event>, v: Value, now: int, retention: int)
    requires Carries(s, v) && History(s, run) && !Gone(s, v)
    requires forall e :: e in run ==> !IsPurge(e)
    ensures var t := After(s, run);
            && !Gone(t, v)
            && (Readable(t, v) ==> Readback(t.env, Some(t.row), now, retention) == Unpurged(v, s.row.created, now, retention))
    decreases run
  {
    if run == [] {
      RecordOf(s, v);
    } else {
      StepKeeps(s, run[0], v);
      assert run[0] in run;
      if run[0].RewrapRow? {
        RewrapKeeps(s, run[0].nonce, v);
      }
      UnpurgedReadsTheSame(Apply(s, run[0]), run[1..], v, now, retention);
    }
  }

  /**
   Where the redacted form fits its limit, only the legacy switch can make a row
   unreadable, and only while the row is still legacy.
   */
  lemma FittingIsReadable(s: Store, run: seq<Event>, v: Value)
    requires Carries(s, v) && History(s, run) && Fits(s.env.size, v)
    ensures var t := After(s, run); Visit(v, 0).Some? && (Readable(t, v) <==> (t.row.stored.Legacy? ==> t.env.legacyRead))
  {
    HistoryKeeps(s, run, v);
    SizeKept(s, run);
  }

  /**
   Redaction can make a value longer. A result accepted and sealed is readable
   exactly when its redacted form fits; otherwise no rotation, rewrap or purge
   ever changes the row again, and every check of it raises.
   */
  lemma {:induction false} OutgrownIsLost(s: Store, run: seq<Event>, v: Value, w: Value)
    requires Carries(s, v) && Sealed(s, v) && History(s, run)
    ensures Matches(s.env, s.row, v).Some? <==> Fits(s.env.size, v)
    ensures !Fits(s.env.size, v) ==>
      var t := After(s, run);
      t.row == s.row && Matches(t.env, t.row, w).None? && Readback(t.env, Some(t.row), 0, 0) == (Record(map[]), Invalid)
    decreases run
  {
    RecordOf(s, v);
    if !Fits(s.env.size, v) && run != [] {
      StepKeeps(s, run[0], v);
      assert Apply(s, run[0]).row == s.row;
      OutgrownIsLost(Apply(s, run[0]), run[1..], v, w);
    }
  }

  /**
   From the moment a result is accepted, through any history: a submission is
   recognised exactly when it is the one accepted, if the redacted form fits, and
   every check raises if it does not.
   */
  lemma AcceptedIdentityIsKept(env: Env, v: Value, row: Row, nonce: Nonce, run: seq<Event>, w: Value)
    requires row.binding.kind == Integration && SealResult(env, v, row.binding, nonce) == Some(row.stored)
    requires History(Store(env, row), run) && Canonical(env.size, w, MAX_RESULT_BYTES)
    ensures var t := After(Store(env, row), run);
            && Visit(v, 0).Some? && Matches(t.env, t.row, w) == if Fits(env.size, v) then Some(w == v) else None
  {
    var s := Store(env, row);
    AcceptedCarries(env, v, row, nonce);
    IdentityIsKept(s, run, v, w);
    if Fits(env.size, v) {
      HistoryKeeps(s, run, v);
      SizeKept(s, run);
      NeverLegacyAgain(s, run);
    } else {
      OutgrownIsLost(s, run, v, w);
    }
  }

  lemma {:induction false} NeverLegacyAgain(s: Store, run: seq<Event>)
    requires History(s, run) && s.row.stored.Envelope?
    ensures After(s, run).row.stored.Envelope?
    decreases run
  {
    if run != [] {
      NeverLegacyAgain(Apply(s, run[0]), run[1..]);
    }
  }
}
