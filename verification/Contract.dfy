/**
 `contract` of the compatibility gate: a value together with everything its
 local references reach in the document, cyclic or not.
 */
module Contract {
  import opened Text
  import opened Wrappers
  import opened Json
  import opened JsonPointer
  import opened Reachability

  /** The truthy `$ref` values in `j`, at any depth. */
  function RefsIn(j: Json): set<Json> {
    match j
    case Arr(items) => set i, r | 0 <= i < |items| && r in RefsIn(items[i]) :: r
    case Obj(fields) => OwnRef(fields) + set k, r | k in fields.Keys && r in RefsIn(fields[k]) :: r
    case _ => {}
  }

  function OwnRef(fields: map<string, Json>): set<Json> {
    if Truthy(Lookup(fields, "$ref")) then {fields["$ref"]} else {}
  }

  /** The references that following `ref` leads to. */
  function Next(document: Json, ref: Json): set<Json> {
    var target := Resolve(ref, document);
    if target.Some? then RefsIn(target.value) else {}
  }

  ghost function Graph(document: Json): Json -> set<Json> {
    ref => Next(document, ref)
  }

  ghost predicate Reaches(j: Json, document: Json, ref: Json) {
    Reachable(RefsIn(j), Graph(document), ref)
  }

  datatype Contract = Contract(value: Json, refs: map<Json, Json>)

  ghost function ReachedRefs(j: Json, document: Json): set<Json> {
    set r | r in RefsIn(j) + RefsIn(document) && Reaches(j, document, r)
  }

  /** The contract of a value, or None when some reachable reference does not resolve. */
  ghost function ContractOf(j: Json, document: Json): Option<Contract> {
    var refs := ReachedRefs(j, document);
    if forall r :: r in refs ==> Resolve(r, document).Some?
    then Some(Contract(j, map r | r in refs :: Resolve(r, document).value))
    else None
  }

  lemma {:induction false} WalkStaysInside(target: Json, keys: seq<string>)
    requires Walk(target, keys).Some?
    ensures RefsIn(Walk(target, keys).value) <= RefsIn(target)
    decreases keys
  {
    if keys != [] {
      WalkStaysInside(target.fields[keys[0]], keys[1..]);
      assert RefsIn(target.fields[keys[0]]) <= RefsIn(target);
    }
  }

  lemma NextInDocument(document: Json, ref: Json)
    ensures Next(document, ref) <= RefsIn(document)
  {
    if Resolve(ref, document).Some? {
      WalkStaysInside(document, DecodeAll(Split(ref.s[2..], '/')));
    }
  }

  /** The bound in `ReachedRefs` leaves nothing out. */
  lemma ReachedIsReachable(j: Json, document: Json, ref: Json)
    ensures ref in ReachedRefs(j, document) <==> Reaches(j, document, ref)
  {
    var all := RefsIn(j) + RefsIn(document);
    forall r | r in all ensures Graph(document)(r) <= all {
      NextInDocument(document, r);
    }
    if Reaches(j, document, ref) {
      ClosedContainsReachable(RefsIn(j), Graph(document), all, ref);
    }
  }

  // ---------------------------------------------------------------------
  // The dictionary that `collect` fills
  // ---------------------------------------------------------------------

  ghost predicate Consistent(document: Json, refs: map<Json, Json>) {
    forall r :: r in refs ==> Resolve(r, document) == Some(refs[r])
  }

  /** References that were added have their own references collected as well. */
  ghost predicate ClosedSince(before: map<Json, Json>, after: map<Json, Json>) {
    before.Keys <= after.Keys && forall r :: r in after.Keys - before.Keys ==> RefsIn(after[r]) <= after.Keys
  }

  /** Following a reference in `reach` stays in `reach`. */
  ghost predicate Closed(document: Json, reach: set<Json>) {
    forall r :: r in reach ==> Next(document, r) <= reach
  }

  lemma ClosedStep(document: Json, a: map<Json, Json>, b: map<Json, Json>, c: map<Json, Json>)
    requires Consistent(document, b) && Consistent(document, c)
    requires ClosedSince(a, b) && ClosedSince(b, c)
    ensures ClosedSince(a, c)
  {
    forall r | r in c.Keys - a.Keys ensures RefsIn(c[r]) <= c.Keys {
      if r in b { assert b[r] == c[r]; }
    }
  }

  lemma FieldRefs(item: Json, key: string)
    requires item.Obj? && key in item.fields
    ensures RefsIn(item.fields[key]) <= RefsIn(item)
  {
  }

  ghost predicate FieldsCovered(fields: map<string, Json>, done: set<string>, keys: set<Json>) {
    forall k :: k in done && k in fields ==> RefsIn(fields[k]) <= keys
  }

  lemma FieldsCoveredNext(fields: map<string, Json>, done: set<string>, key: string, before: set<Json>, after: set<Json>)
    requires key in fields && FieldsCovered(fields, done, before) && before <= after && RefsIn(fields[key]) <= after
    ensures FieldsCovered(fields, done + {key}, after)
  {
  }

  lemma ObjectCovered(item: Json, keys: set<Json>)
    requires item.Obj? && OwnRef(item.fields) <= keys && FieldsCovered(item.fields, item.fields.Keys, keys)
    ensures RefsIn(item) <= keys
  {
  }

  lemma ItemRefs(item: Json, i: nat)
    requires item.Arr? && i < |item.items|
    ensures RefsIn(item.items[i]) <= RefsIn(item)
  {
  }

  ghost predicate Covered(items: seq<Json>, n: nat, keys: set<Json>)
    requires n <= |items|
  {
    forall i :: 0 <= i < n ==> RefsIn(items[i]) <= keys
  }

  lemma CoveredNext(items: seq<Json>, n: nat, before: set<Json>, after: set<Json>)
    requires n < |items| && Covered(items, n, before) && before <= after && RefsIn(items[n]) <= after
    ensures Covered(items, n + 1, after)
  {
  }

  lemma ItemsCovered(item: Json, keys: set<Json>)
    requires item.Arr? && Covered(item.items, |item.items|, keys)
    ensures RefsIn(item) <= keys
  {
  }

  lemma NextOf(document: Json, ref: Json, target: Json)
    requires Resolve(ref, document) == Some(target)
    ensures Graph(document)(ref) == RefsIn(target)
  {
  }

  /** The nested function `collect` with the dictionary it fills. */
  class Collector {
    const document: Json
    var refs: map<Json, Json>

    constructor (document: Json)
      ensures this.document == document && refs == map[]
    {
      this.document := document;
      refs := map[];
    }

    ghost predicate Within(reach: set<Json>)
      reads this
    {
      Consistent(document, refs) && refs.Keys <= reach && Closed(document, reach)
    }

    ghost predicate Unresolved(reach: set<Json>) {
      exists r :: r in reach && Resolve(r, document).None?
    }

    /** False where the script raises. `reach` bounds what may be collected. */
    method Collect(item: Json, ghost reach: set<Json>) returns (ok: bool)
      requires Within(reach) && RefsIn(item) <= reach
      modifies this`refs
      ensures Within(reach) && old(refs).Keys <= refs.Keys
      ensures if ok then RefsIn(item) <= refs.Keys && ClosedSince(old(refs), refs) else Unresolved(reach)
      decreases |reach - refs.Keys|, item, 2
    {
      if item.Obj? {
        ok := CollectReference(item, reach);
        if ok {
          SmallerSet(reach - refs.Keys, reach - old(refs).Keys);
          ghost var mid := refs;
          ok := CollectFields(item, reach);
          if ok { ClosedStep(document, old(refs), mid, refs); }
        }
      } else if item.Arr? {
        ok := CollectItems(item, reach);
      } else {
        ok := true;
      }
    }

    /** An unseen reference is recorded before its target is visited, which is what stops cycles. */
    method CollectReference(item: Json, ghost reach: set<Json>) returns (ok: bool)
      requires item.Obj? && Within(reach) && RefsIn(item) <= reach
      modifies this`refs
      ensures Within(reach) && old(refs).Keys <= refs.Keys
      ensures if ok then OwnRef(item.fields) <= refs.Keys && ClosedSince(old(refs), refs) else Unresolved(reach)
      decreases |reach - refs.Keys|, item, 1
    {
      var ref := Lookup(item.fields, "$ref");
      if !Truthy(ref) || ref in refs {
        return true;
      }
      assert ref in reach;
      var target := Resolve(ref, document);
      if target.None? {
        return false;
      }
      assert Next(document, ref) <= reach;
      refs := refs[ref := target.value];
      ghost var mid := refs;
      assert ref in reach - old(refs).Keys && ref !in reach - refs.Keys;
      SmallerSet(reach - refs.Keys, reach - old(refs).Keys);
      ok := Collect(target.value, reach);
      if ok {
        assert refs[ref] == target.value;
        forall r | r in refs.Keys - old(refs).Keys ensures RefsIn(refs[r]) <= refs.Keys {
          if r != ref { assert r in refs.Keys - mid.Keys; }
        }
      }
    }

    method CollectFields(item: Json, ghost reach: set<Json>) returns (ok: bool)
      requires item.Obj? && Within(reach) && RefsIn(item) <= reach && OwnRef(item.fields) <= refs.Keys
      modifies this`refs
      ensures Within(reach) && old(refs).Keys <= refs.Keys
      ensures if ok then RefsIn(item) <= refs.Keys && ClosedSince(old(refs), refs) else Unresolved(reach)
      decreases |reach - refs.Keys|, item, 0
    {
      var rest := item.fields.Keys;
      while rest != {}
        invariant rest <= item.fields.Keys && Within(reach) && ClosedSince(old(refs), refs)
        invariant FieldsCovered(item.fields, item.fields.Keys - rest, refs.Keys)
        decreases rest
      {
        var key :| key in rest;
        ghost var mid := refs;
        FieldRefs(item, key);
        SmallerSet(reach - refs.Keys, reach - old(refs).Keys);
        ok := Collect(item.fields[key], reach);
        if !ok {
          return false;
        }
        ClosedStep(document, old(refs), mid, refs);
        FieldsCoveredNext(item.fields, item.fields.Keys - rest, key, mid.Keys, refs.Keys);
        rest := rest - {key};
        assert item.fields.Keys - rest == item.fields.Keys - (rest + {key}) + {key};
      }
      ObjectCovered(item, refs.Keys);
      return true;
    }

    method CollectItems(item: Json, ghost reach: set<Json>) returns (ok: bool)
      requires item.Arr? && Within(reach) && RefsIn(item) <= reach
      modifies this`refs
      ensures Within(reach) && old(refs).Keys <= refs.Keys
      ensures if ok then RefsIn(item) <= refs.Keys && ClosedSince(old(refs), refs) else Unresolved(reach)
      decreases |reach - refs.Keys|, item, 0
    {
      for i := 0 to |item.items|
        invariant Within(reach) && ClosedSince(old(refs), refs)
        invariant Covered(item.items, i, refs.Keys)
      {
        ghost var mid := refs;
        ItemRefs(item, i);
        SmallerSet(reach - refs.Keys, reach - old(refs).Keys);
        ok := Collect(item.items[i], reach);
        if !ok {
          return false;
        }
        ClosedStep(document, old(refs), mid, refs);
        CoveredNext(item.items, i, mid.Keys, refs.Keys);
      }
      ItemsCovered(item, refs.Keys);
      return true;
    }
  }

  lemma ReachedIsClosed(value: Json, document: Json)
    ensures Closed(document, ReachedRefs(value, document)) && RefsIn(value) <= ReachedRefs(value, document)
  {
    var reach := ReachedRefs(value, document);
    forall r | r in reach ensures Next(document, r) <= reach {
      forall s | s in Next(document, r) ensures s in reach {
        StepReachable(RefsIn(value), Graph(document), r, s);
        ReachedIsReachable(value, document, s);
      }
    }
    forall r | r in RefsIn(value) ensures r in reach {
      StartReachable(RefsIn(value), Graph(document), r);
      ReachedIsReachable(value, document, r);
    }
  }

  lemma CollectedSuccessors(document: Json, refs: map<Json, Json>, r: Json)
    requires Consistent(document, refs) && ClosedSince(map[], refs) && r in refs
    ensures Graph(document)(r) <= refs.Keys
  {
    NextOf(document, r, refs[r]);
    assert r in refs.Keys - {};
  }

  /** A closed collection of reachable references is all of them. */
  lemma CollectedIsReached(value: Json, document: Json, refs: map<Json, Json>)
    requires refs.Keys <= ReachedRefs(value, document) && RefsIn(value) <= refs.Keys
    requires forall r :: r in refs ==> Graph(document)(r) <= refs.Keys
    ensures refs.Keys == ReachedRefs(value, document)
  {
    forall r | r in ReachedRefs(value, document) ensures r in refs {
      ClosedContainsReachable(RefsIn(value), Graph(document), refs.Keys, r);
    }
  }

  lemma CollectedIsContract(value: Json, document: Json, refs: map<Json, Json>)
    requires Consistent(document, refs) && refs.Keys == ReachedRefs(value, document)
    ensures ContractOf(value, document) == Some(Contract(value, refs))
  {
    assert refs == map r | r in ReachedRefs(value, document) :: Resolve(r, document).value;
  }

  /** `contract` collects exactly the reachable references and raises exactly when one of them does not resolve. */
  method ComputeContract(value: Json, document: Json) returns (contract: Option<Contract>)
    ensures contract == ContractOf(value, document)
  {
    var collector := new Collector(document);
    ReachedIsClosed(value, document);
    var ok := collector.Collect(value, ReachedRefs(value, document));
    if !ok {
      return None;
    }
    forall r | r in collector.refs ensures Graph(document)(r) <= collector.refs.Keys {
      CollectedSuccessors(document, collector.refs, r);
    }
    CollectedIsReached(value, document, collector.refs);
    CollectedIsContract(value, document, collector.refs);
    return Some(Contract(value, collector.refs));
  }
}
