/**
 What "order by ... limit n" returns: the first n of a finite set of rows in
 a strict total order. The last part of a key is the row's own id, so no two
 rows tie.
 */
module Queue {
  import opened Reachability

  type Id = nat

  datatype Key = Key(rank: nat, created: int, id: Id)

  predicate Before(a: Key, b: Key) {
    a.rank < b.rank || (a.rank == b.rank && (a.created < b.created || (a.created == b.created && a.id < b.id)))
  }

  predicate Keyed(keys: map<Id, Key>, ids: set<Id>) {
    forall i :: i in ids ==> i in keys && keys[i].id == i
  }

  predicate IsLeast(keys: map<Id, Key>, ids: set<Id>, x: Id)
    requires Keyed(keys, ids)
  {
    x in ids && forall y :: y in ids && y != x ==> Before(keys[x], keys[y])
  }

  lemma {:induction false} LeastExists(keys: map<Id, Key>, ids: set<Id>)
    requires Keyed(keys, ids) && ids != {}
    ensures exists x :: IsLeast(keys, ids, x)
  {
    var y :| y in ids;
    if ids == {y} {
      assert IsLeast(keys, ids, y);
    } else {
      assert ids - {y} != {};
      LeastExists(keys, ids - {y});
      var z :| IsLeast(keys, ids - {y}, z);
      var x := if Before(keys[y], keys[z]) then y else z;
      forall u | u in ids && u != x ensures Before(keys[x], keys[u]) {
        if u != y && u != z { assert u in ids - {y}; }
      }
      assert IsLeast(keys, ids, x);
    }
  }

  function Least(keys: map<Id, Key>, ids: set<Id>): (x: Id)
    requires Keyed(keys, ids) && ids != {}
    ensures IsLeast(keys, ids, x)
  {
    LeastExists(keys, ids);
    assert forall x, y :: IsLeast(keys, ids, x) && IsLeast(keys, ids, y) ==> x == y;
    var x :| IsLeast(keys, ids, x);
    x
  }

  function Elements(rows: seq<Id>): set<Id> {
    set i | i in rows
  }

  predicate Distinct(rows: seq<Id>) {
    forall j, k :: 0 <= j < k < |rows| ==> rows[j] != rows[k]
  }

  lemma {:induction false} DistinctSize(rows: seq<Id>)
    requires Distinct(rows)
    ensures |Elements(rows)| == |rows|
  {
    if rows != [] {
      DistinctSize(rows[1..]);
      assert rows == [rows[0]] + rows[1..];
      assert Elements(rows) == Elements(rows[1..]) + {rows[0]};
      assert rows[0] !in rows[1..];
    }
  }

  /** What makes `rows` the first `n` of `ids`. */
  predicate IsFirst(keys: map<Id, Key>, ids: set<Id>, n: nat, rows: seq<Id>)
    requires Keyed(keys, ids)
  {
    && Distinct(rows) && Elements(rows) <= ids
    && |rows| == (if n <= |ids| then n else |ids|)
    && forall x, y :: x in rows && y in ids && y !in rows ==> Before(keys[x], keys[y])
  }

  function First(keys: map<Id, Key>, ids: set<Id>, n: nat): (rows: seq<Id>)
    requires Keyed(keys, ids)
    decreases n
  {
    if n == 0 || ids == {} then [] else
      var x := Least(keys, ids);
      [x] + First(keys, ids - {x}, n - 1)
  }

  /** The least row followed by the first of the others is the first of all. */
  lemma LeastThenRest(keys: map<Id, Key>, ids: set<Id>, n: nat, x: Id, rest: seq<Id>)
    requires Keyed(keys, ids) && 0 < n && IsLeast(keys, ids, x) && IsFirst(keys, ids - {x}, n - 1, rest)
    ensures IsFirst(keys, ids, n, [x] + rest)
  {
    var rows := [x] + rest;
    assert forall y :: y in rest ==> y in Elements(rest);
    assert Distinct(rows) by {
      forall j, k | 0 <= j < k < |rows| ensures rows[j] != rows[k] {
        assert rows[k] == rest[k - 1];
        if j > 0 { assert rows[j] == rest[j - 1]; }
      }
    }
    assert Elements(rows) <= ids;
    assert |ids - {x}| == |ids| - 1;
    forall y, z | y in rows && z in ids && z !in rows ensures Before(keys[y], keys[z]) {
      if y != x {
        assert y in rest && z in ids - {x} && z !in rest;
      }
    }
  }

  lemma {:induction false} FirstIsFirst(keys: map<Id, Key>, ids: set<Id>, n: nat)
    requires Keyed(keys, ids)
    ensures IsFirst(keys, ids, n, First(keys, ids, n))
    decreases n
  {
    if n != 0 && ids != {} {
      var x := Least(keys, ids);
      FirstIsFirst(keys, ids - {x}, n - 1);
      LeastThenRest(keys, ids, n, x, First(keys, ids - {x}, n - 1));
    }
  }

  /** A page and the page after it are one longer page. */
  lemma NextPage(keys: map<Id, Key>, ids: set<Id>, a: nat, b: nat, p: seq<Id>, q: seq<Id>)
    requires Keyed(keys, ids) && IsFirst(keys, ids, a, p)
    requires IsFirst(keys, ids - Elements(p), b, q)
    ensures IsFirst(keys, ids, a + b, p + q)
  {
    DistinctSize(p);
    assert forall x :: x in q ==> x in Elements(q);
    assert Distinct(p + q) by {
      forall j, k | 0 <= j < k < |p + q| ensures (p + q)[j] != (p + q)[k] {
        if j < |p| <= k {
          assert q[k - |p|] in q && p[j] in p;
        }
      }
    }
    assert Elements(p + q) <= ids;
    assert |ids - Elements(p)| == |ids| - |Elements(p)|;
    forall x, y | x in p + q && y in ids && y !in p + q ensures Before(keys[x], keys[y]) {
      if x in q {
        assert y in ids - Elements(p);
      }
    }
  }

  /** A shorter page is part of a longer one. */
  lemma PagesNest(keys: map<Id, Key>, ids: set<Id>, a: nat, b: nat, p: seq<Id>, q: seq<Id>)
    requires Keyed(keys, ids) && a <= b && IsFirst(keys, ids, a, p) && IsFirst(keys, ids, b, q)
    ensures Elements(p) <= Elements(q)
  {
    DistinctSize(p);
    DistinctSize(q);
    if x :| x in Elements(p) && x !in Elements(q) {
      forall y | y in Elements(q) ensures y in Elements(p) - {x} {
        assert Before(keys[y], keys[x]);
      }
      SmallerSet(Elements(q), Elements(p) - {x});
    }
  }

  /** The rows before `x` leave room for it exactly when it is on the page. */
  lemma OnThePage(keys: map<Id, Key>, ids: set<Id>, n: nat, page: seq<Id>, x: Id)
    requires Keyed(keys, ids) && x in ids && IsFirst(keys, ids, n, page)
    ensures x in page <==> |Earlier(keys, ids, x)| < n
  {
    DistinctSize(page);
    if x in page {
      assert forall y :: y in ids && y !in page ==> Before(keys[x], keys[y]);
      assert Earlier(keys, ids, x) <= Elements(page) - {x};
      SmallerSet(Earlier(keys, ids, x), Elements(page) - {x});
    } else if n <= |ids| {
      SmallerSet(Elements(page), Earlier(keys, ids, x));
    } else {
      SmallerSet(Elements(page), ids - {x});
    }
  }

  function Earlier(keys: map<Id, Key>, ids: set<Id>, x: Id): set<Id>
    requires Keyed(keys, ids) && x in ids
  {
    set y | y in ids && Before(keys[y], keys[x])
  }
}
