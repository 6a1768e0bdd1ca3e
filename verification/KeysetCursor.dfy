/**
 Paging by key: each call takes the first `limit` rows after the last row of
 the call before. Over rows that stay, the pages visit every row once, in order.
 */
module KeysetCursor {
  import opened Queue
  import opened Reachability

  /** Rows are ordered by their id alone. */
  function IdKeys(ids: set<Id>): map<Id, Key> {
    map i | i in ids :: Key(0, 0, i)
  }

  function Beyond(ids: set<Id>, cursor: int): set<Id> {
    set i | i in ids && i > cursor
  }

  function PageAfter(ids: set<Id>, cursor: int, limit: nat): seq<Id> {
    First(IdKeys(ids), Beyond(ids, cursor), limit)
  }

  predicate Ascending(rows: seq<Id>) {
    forall j, k :: 0 <= j < k < |rows| ==> rows[j] < rows[k]
  }

  lemma {:induction false} FirstAscending(keys: map<Id, Key>, ids: set<Id>, n: nat)
    requires Keyed(keys, ids) && forall i :: i in ids ==> keys[i] == Key(0, 0, i)
    ensures Ascending(First(keys, ids, n))
    decreases n
  {
    if n != 0 && ids != {} {
      var x := Least(keys, ids);
      var rest := First(keys, ids - {x}, n - 1);
      FirstAscending(keys, ids - {x}, n - 1);
      FirstIsFirst(keys, ids - {x}, n - 1);
      forall k | 0 <= k < |rest| ensures x < rest[k] {
        assert rest[k] in Elements(rest);
        assert Before(keys[x], keys[rest[k]]);
      }
    }
  }

  lemma PageIs(ids: set<Id>, cursor: int, limit: nat)
    ensures var page := PageAfter(ids, cursor, limit);
            && Ascending(page) && Elements(page) <= Beyond(ids, cursor) && |page| <= limit
            && (|page| < limit ==> Elements(page) == Beyond(ids, cursor))
            && (limit > 0 && Beyond(ids, cursor) != {} ==> page != [])
            && (page != [] ==> Beyond(ids, page[|page| - 1]) == Beyond(ids, cursor) - Elements(page))
  {
    var keys, due := IdKeys(ids), Beyond(ids, cursor);
    var page := PageAfter(ids, cursor, limit);
    FirstIsFirst(keys, due, limit);
    FirstAscending(keys, due, limit);
    DistinctSize(page);
    if |page| < limit {
      SmallerSet(Elements(page), due);
    }
    if page != [] {
      var last := page[|page| - 1];
      assert last in Elements(page);
      forall i ensures i in Beyond(ids, last) <==> i in due - Elements(page) {
        if i in Elements(page) {
          assert i <= last;
        } else if i in due {
          assert Before(keys[last], keys[i]);
        }
      }
    }
  }

  /** Pages taken one after another from a cursor on, until nothing is left. */
  ghost predicate Paging(ids: set<Id>, cursor: int, limit: nat, pages: seq<seq<Id>>)
    decreases pages
  {
    if pages == [] then Beyond(ids, cursor) == {}
    else
      && pages[0] == PageAfter(ids, cursor, limit) && pages[0] != []
      && Paging(ids, pages[0][|pages[0]| - 1], limit, pages[1..])
  }

  function Flat(pages: seq<seq<Id>>): seq<Id> {
    if pages == [] then [] else pages[0] + Flat(pages[1..])
  }

  /** Following the cursor to the end visits every row beyond it exactly once, in ascending order. */
  lemma {:induction false} EveryRowOnce(ids: set<Id>, cursor: int, limit: nat, pages: seq<seq<Id>>)
    requires Paging(ids, cursor, limit, pages)
    ensures Ascending(Flat(pages)) && Elements(Flat(pages)) == Beyond(ids, cursor)
    decreases pages
  {
    if pages != [] {
      var page := pages[0];
      var last := page[|page| - 1];
      PageIs(ids, cursor, limit);
      EveryRowOnce(ids, last, limit, pages[1..]);
      Joined(page, Flat(pages[1..]), last);
    }
  }

  lemma Joined(page: seq<Id>, rest: seq<Id>, last: Id)
    requires page != [] && last == page[|page| - 1] && Ascending(page) && Ascending(rest)
    requires forall i :: i in Elements(rest) ==> i > last
    ensures Ascending(page + rest) && Elements(page + rest) == Elements(page) + Elements(rest)
  {
    forall j, k | 0 <= j < k < |page + rest| ensures (page + rest)[j] < (page + rest)[k] {
      if j < |page| <= k {
        assert rest[k - |page|] in Elements(rest);
      }
    }
  }
}
