/** The sliding-window limiter: one queue of acceptance times per key, trimmed from the left at every call. */
module RateLimiter {
  const WINDOW: real := 60.0

  type Queue = seq<real>
  type Buckets = map<string, Queue>

  function Bucket(buckets: Buckets, key: string): Queue {
    if key in buckets then buckets[key] else []
  }

  function Trimmed(q: Queue, now: real): Queue {
    if q != [] && q[0] < now - WINDOW then Trimmed(q[1..], now) else q
  }

  class Limiter {
    var buckets: Buckets

    constructor ()
      ensures buckets == map[]
    {
      buckets := map[];
    }

    method Admit(key: string, now: real, limit: int) returns (ok: bool)
      modifies this
      ensures var q := Trimmed(Bucket(old(buckets), key), now);
              && (ok <==> |q| < limit)
              && buckets == old(buckets)[key := if ok then q + [now] else q]
      ensures var r, c := Record(old(buckets), map[]), Call(key, now, limit);
              (ok <==> Accepts(r, c)) && buckets == Step(r, c).buckets
    {
      var q := Bucket(buckets, key);
      while q != [] && q[0] < now - WINDOW
        invariant Trimmed(q, now) == Trimmed(Bucket(old(buckets), key), now)
        decreases |q|
      {
        q := q[1..];
      }
      ok := |q| < limit;
      buckets := buckets[key := if ok then q + [now] else q];
    }
  }

  // ---------------------------------------------------------------------
  // Whole runs, with the log of what was accepted
  // ---------------------------------------------------------------------

  datatype Call = Call(key: string, now: real, limit: int)

  datatype Record = Record(buckets: Buckets, logs: Buckets)

  predicate Accepts(r: Record, c: Call) {
    |Trimmed(Bucket(r.buckets, c.key), c.now)| < c.limit
  }

  function Step(r: Record, c: Call): Record {
    var q, log := Trimmed(Bucket(r.buckets, c.key), c.now), Bucket(r.logs, c.key);
    if Accepts(r, c) then Record(r.buckets[c.key := q + [c.now]], r.logs[c.key := log + [c.now]])
    else r.(buckets := r.buckets[c.key := q])
  }

  function Run(r: Record, calls: seq<Call>): Record {
    if calls == [] then r else Step(Run(r, calls[..|calls| - 1]), calls[|calls| - 1])
  }

  const Start := Record(map[], map[])

  /** The clock never runs backwards. */
  predicate Clocked(calls: seq<Call>) {
    forall j, k :: 0 <= j < k < |calls| ==> calls[j].now <= calls[k].now
  }

  function CountIn(log: Queue, a: real, b: real): nat {
    if log == [] then 0 else CountIn(log[..|log| - 1], a, b) + if a <= log[|log| - 1] <= b then 1 else 0
  }

  // ---------------------------------------------------------------------
  // The invariant: the queue is a sorted suffix of the log, and what it lacks is too old
  // ---------------------------------------------------------------------

  predicate Sorted(q: Queue) {
    forall j, k :: 0 <= j < k < |q| ==> q[j] <= q[k]
  }

  predicate Tracks(q: Queue, log: Queue, now: real) {
    && |q| <= |log| && log[|log| - |q|..] == q && Sorted(log)
    && (forall k :: 0 <= k < |log| ==> log[k] <= now)
    && forall k :: 0 <= k < |log| - |q| ==> log[k] < now - WINDOW
  }

  ghost predicate Inv(r: Record, now: real) {
    forall key :: Tracks(Bucket(r.buckets, key), Bucket(r.logs, key), now)
  }

  lemma {:induction false} TrimKeepsTrack(q: Queue, log: Queue, then_: real, now: real)
    requires Tracks(q, log, then_) && then_ <= now
    ensures var t := Trimmed(q, now);
            Tracks(t, log, now) && forall k :: 0 <= k < |t| ==> now - WINDOW <= t[k]
    decreases |q|
  {
    if q != [] && q[0] < now - WINDOW {
      assert log[|log| - |q|] == q[0];
      assert forall k :: 0 <= k < |log| - |q| + 1 ==> log[k] <= log[|log| - |q|];
      TrimOne(q, log, then_, now);
      TrimKeepsTrack(q[1..], log, now, now);
    } else if q != [] {
      assert forall k :: 0 <= k < |q| ==> q[k] == log[|log| - |q| + k];
    }
  }

  lemma TrimOne(q: Queue, log: Queue, then_: real, now: real)
    requires Tracks(q, log, then_) && then_ <= now && q != [] && q[0] < now - WINDOW
    ensures Tracks(q[1..], log, now)
  {
    assert log[|log| - |q|..][1..] == log[|log| - |q| + 1..];
    assert log[|log| - |q|] == q[0];
  }

  lemma AppendTracks(t: Queue, log: Queue, now: real)
    requires Tracks(t, log, now)
    ensures Tracks(t + [now], log + [now], now)
  {
    assert (log + [now])[|log| - |t|..] == log[|log| - |t|..] + [now];
  }

  lemma OneChanged(r: Record, v: Record, changed: string, last: real, now: real)
    requires Inv(r, last) && last <= now
    requires Tracks(Bucket(v.buckets, changed), Bucket(v.logs, changed), now)
    requires forall key :: key != changed ==> Bucket(v.buckets, key) == Bucket(r.buckets, key) && Bucket(v.logs, key) == Bucket(r.logs, key)
    ensures Inv(v, now)
  {
    forall key ensures Tracks(Bucket(v.buckets, key), Bucket(v.logs, key), now) {
      if key != changed {
        assert Tracks(Bucket(r.buckets, key), Bucket(r.logs, key), last);
      }
    }
  }

  lemma AcceptTracks(r: Record, key: string, t: Queue, last: real, now: real)
    requires Inv(r, last) && last <= now && Tracks(t, Bucket(r.logs, key), now)
    ensures Inv(Record(r.buckets[key := t + [now]], r.logs[key := Bucket(r.logs, key) + [now]]), now)
  {
    var log := Bucket(r.logs, key);
    AppendTracks(t, log, now);
    var v := Record(r.buckets[key := t + [now]], r.logs[key := log + [now]]);
    assert Tracks(Bucket(v.buckets, key), Bucket(v.logs, key), now);
    OneChanged(r, v, key, last, now);
  }

  lemma StepTracks(r: Record, c: Call, last: real)
    requires Inv(r, last) && last <= c.now
    ensures Inv(Step(r, c), c.now)
  {
    var q, log := Bucket(r.buckets, c.key), Bucket(r.logs, c.key);
    var t := Trimmed(q, c.now);
    assert Tracks(t, log, c.now) by {
      assert Tracks(q, log, last);
      TrimKeepsTrack(q, log, last, c.now);
    }
    if Accepts(r, c) {
      AcceptTracks(r, c.key, t, last, c.now);
    } else {
      OneChanged(r, r.(buckets := r.buckets[c.key := t]), c.key, last, c.now);
    }
  }

  lemma {:induction false} RunTracks(calls: seq<Call>, now: real)
    requires Clocked(calls) && forall k :: 0 <= k < |calls| ==> calls[k].now <= now
    ensures Inv(Run(Start, calls), now)
    decreases calls
  {
    if calls == [] {
      forall key ensures Tracks(Bucket(Start.buckets, key), Bucket(Start.logs, key), now) { }
    } else {
      var c := calls[|calls| - 1];
      RunTracks(calls[..|calls| - 1], c.now);
      StepTracks(Run(Start, calls[..|calls| - 1]), c, c.now);
      var v := Run(Start, calls);
      forall key ensures Tracks(Bucket(v.buckets, key), Bucket(v.logs, key), now) {
        assert Tracks(Bucket(v.buckets, key), Bucket(v.logs, key), c.now);
      }
    }
  }

  // ---------------------------------------------------------------------
  // Counting
  // ---------------------------------------------------------------------

  /** A sorted log counted over a window that ends it: what is not too old. */
  lemma {:induction false} CountRecent(log: Queue, n: nat, from: real, now: real)
    requires n <= |log| && (forall k :: 0 <= k < |log| - n ==> log[k] < from)
    requires forall k :: |log| - n <= k < |log| ==> from <= log[k] <= now
    ensures CountIn(log, from, now) == n
    decreases |log|
  {
    if log != [] {
      CountRecent(log[..|log| - 1], if n > 0 then n - 1 else 0, from, now);
    }
  }

  lemma {:induction false} CountShrinks(log: Queue, a: real, b: real, c: real, d: real)
    requires forall k :: 0 <= k < |log| && a <= log[k] <= b ==> c <= log[k] <= d
    ensures CountIn(log, a, b) <= CountIn(log, c, d)
    decreases |log|
  {
    if log != [] {
      CountShrinks(log[..|log| - 1], a, b, c, d);
    }
  }

  /**
   A call is accepted exactly when fewer than `limit` calls of its key were
   accepted in the closed window of the last sixty seconds.
   */
  lemma AcceptsIffRoom(calls: seq<Call>, c: Call)
    requires Clocked(calls + [c])
    ensures var r := Run(Start, calls);
            Accepts(r, c) <==> CountIn(Bucket(r.logs, c.key), c.now - WINDOW, c.now) < c.limit
  {
    var r := Run(Start, calls);
    forall k | 0 <= k < |calls| ensures calls[k].now <= c.now {
      assert (calls + [c])[k] == calls[k] && (calls + [c])[|calls|] == c;
    }
    assert Clocked(calls) by {
      forall j, k | 0 <= j < k < |calls| ensures calls[j].now <= calls[k].now {
        assert (calls + [c])[j] == calls[j] && (calls + [c])[k] == calls[k];
      }
    }
    RunTracks(calls, c.now);
    RoomIsCounted(r, c);
  }

  lemma RoomIsCounted(r: Record, c: Call)
    requires Inv(r, c.now)
    ensures CountIn(Bucket(r.logs, c.key), c.now - WINDOW, c.now) == |Trimmed(Bucket(r.buckets, c.key), c.now)|
  {
    var q, log := Bucket(r.buckets, c.key), Bucket(r.logs, c.key);
    assert Tracks(q, log, c.now);
    TrimKeepsTrack(q, log, c.now, c.now);
    var t := Trimmed(q, c.now);
    forall k | |log| - |t| <= k < |log| ensures c.now - WINDOW <= log[k] <= c.now {
      assert log[k] == t[k - (|log| - |t|)];
    }
    CountRecent(log, |t|, c.now - WINDOW, c.now);
  }

  /** Over any run, every closed window of sixty seconds holds at most `bound` accepted calls of each key. */
  lemma {:induction false} EveryWindowIsBounded(calls: seq<Call>, bound: nat, key: string, from: real)
    requires Clocked(calls) && forall c :: c in calls ==> c.limit <= bound
    ensures CountIn(Bucket(Run(Start, calls).logs, key), from, from + WINDOW) <= bound
    decreases calls
  {
    if calls != [] {
      var init, c := calls[..|calls| - 1], calls[|calls| - 1];
      EveryWindowIsBounded(init, bound, key, from);
      var r := Run(Start, init);
      var log := Bucket(r.logs, key);
      if key == c.key && Accepts(r, c) {
        assert c in calls;
        RunTracks(init, c.now);
        RoomIsCounted(r, c);
        assert Tracks(Bucket(r.buckets, key), log, c.now);
        assert (log + [c.now])[..|log|] == log;
        if from <= c.now <= from + WINDOW {
          CountShrinks(log, from, from + WINDOW, c.now - WINDOW, c.now);
        }
      }
    }
  }

  // ---------------------------------------------------------------------
  // In terms of the calls alone
  // ---------------------------------------------------------------------

  /** Call `k` was accepted, is of the key, and lies between the two times. */
  predicate Counted(calls: seq<Call>, k: nat, key: string, a: real, b: real)
    requires k < |calls|
  {
    calls[k].key == key && Accepts(Run(Start, calls[..k]), calls[k]) && a <= calls[k].now <= b
  }

  function AcceptedCalls(calls: seq<Call>, key: string, a: real, b: real): set<nat> {
    set k | 0 <= k < |calls| && Counted(calls, k, key, a, b)
  }

  lemma CountedBefore(calls: seq<Call>, k: nat, key: string, a: real, b: real)
    requires k < |calls| - 1
    ensures Counted(calls, k, key, a, b) <==> Counted(calls[..|calls| - 1], k, key, a, b)
  {
    assert calls[..|calls| - 1][..k] == calls[..k];
  }

  lemma AcceptedCallsStep(calls: seq<Call>, key: string, a: real, b: real)
    requires calls != []
    ensures |AcceptedCalls(calls, key, a, b)| ==
      |AcceptedCalls(calls[..|calls| - 1], key, a, b)| + if Counted(calls, |calls| - 1, key, a, b) then 1 else 0
  {
    var init, last := calls[..|calls| - 1], |calls| - 1;
    forall k | 0 <= k < last ensures Counted(calls, k, key, a, b) <==> Counted(init, k, key, a, b) {
      CountedBefore(calls, k, key, a, b);
    }
    var before, after := AcceptedCalls(init, key, a, b), AcceptedCalls(calls, key, a, b);
    assert last !in before;
    assert after == if Counted(calls, last, key, a, b) then before + {last} else before;
  }

  /** The log holds exactly the accepted calls. */
  lemma {:induction false} LogIsTheAccepted(calls: seq<Call>, key: string, a: real, b: real)
    ensures CountIn(Bucket(Run(Start, calls).logs, key), a, b) == |AcceptedCalls(calls, key, a, b)|
    decreases calls
  {
    if calls == [] {
      assert AcceptedCalls(calls, key, a, b) == {};
    } else {
      var init, c := calls[..|calls| - 1], calls[|calls| - 1];
      LogIsTheAccepted(init, key, a, b);
      AcceptedCallsStep(calls, key, a, b);
      var log := Bucket(Run(Start, init).logs, key);
      if key == c.key && Accepts(Run(Start, init), c) {
        assert (log + [c.now])[..|log|] == log;
      }
    }
  }

  /** A call is accepted exactly when fewer than `limit` earlier calls of its key were accepted in the last sixty seconds. */
  lemma AcceptsIffFewWereAccepted(calls: seq<Call>, c: Call)
    requires Clocked(calls + [c])
    ensures Accepts(Run(Start, calls), c) <==> |AcceptedCalls(calls, c.key, c.now - 60.0, c.now)| < c.limit
  {
    AcceptsIffRoom(calls, c);
    LogIsTheAccepted(calls, c.key, c.now - 60.0, c.now);
  }
}
