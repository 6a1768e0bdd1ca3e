/**
 What equality of contracts means: both values unfold to the same tree, at
 every depth, each following its references in its own document.
 */
module ContractMeaning {
  import opened Wrappers
  import opened Json
  import opened JsonPointer
  import opened Reachability
  import opened Contract

  datatype Link = NoRef | Cut | Broken | To(tree: Tree)

  datatype Tree = Leaf(value: Json) | ListOf(items: seq<Tree>) | Node(fields: map<string, Tree>, link: Link)

  /** `j` with references followed `n` deep, in addition to what stands beside them. */
  ghost function Unfold(j: Json, document: Json, n: nat): Tree
    decreases n, 1, j
  {
    match j
    case Arr(items) => ListOf(seq(|items|, i requires 0 <= i < |items| => Unfold(items[i], document, n)))
    case Obj(fields) => Node(map k | k in fields :: Unfold(fields[k], document, n), Follow(Lookup(fields, "$ref"), document, n))
    case _ => Leaf(j)
  }

  ghost function Follow(ref: Json, document: Json, n: nat): Link
    decreases n, 0
  {
    if !Truthy(ref) then NoRef
    else if n == 0 then Cut
    else match Resolve(ref, document)
         case None => Broken
         case Some(target) => To(Unfold(target, document, n - 1))
  }

  ghost predicate SameUnfoldings(j: Json, d: Json, k: Json, e: Json) {
    forall n: nat :: Unfold(j, d, n) == Unfold(k, e, n)
  }

  // ---------------------------------------------------------------------
  // Equal contracts unfold equally
  // ---------------------------------------------------------------------

  ghost predicate Shared(refs: map<Json, Json>, d: Json, e: Json) {
    forall r :: r in refs ==> Resolve(r, d) == Some(refs[r]) && Resolve(r, e) == Some(refs[r]) && RefsIn(refs[r]) <= refs.Keys
  }

  lemma {:induction false} SharedUnfold(j: Json, refs: map<Json, Json>, d: Json, e: Json, n: nat)
    requires Shared(refs, d, e) && RefsIn(j) <= refs.Keys
    ensures Unfold(j, d, n) == Unfold(j, e, n)
    decreases n, 1, j
  {
    match j
    case Arr(items) =>
      forall i | 0 <= i < |items| ensures Unfold(items[i], d, n) == Unfold(items[i], e, n) {
        ItemRefs(j, i);
        SharedUnfold(items[i], refs, d, e, n);
      }
    case Obj(fields) =>
      forall k | k in fields ensures Unfold(fields[k], d, n) == Unfold(fields[k], e, n) {
        FieldRefs(j, k);
        SharedUnfold(fields[k], refs, d, e, n);
      }
      SharedFollow(Lookup(fields, "$ref"), refs, d, e, n);
      SameNode(fields, d, e, n);
    case _ =>
  }

  lemma SameNode(fields: map<string, Json>, d: Json, e: Json, n: nat)
    requires forall k :: k in fields ==> Unfold(fields[k], d, n) == Unfold(fields[k], e, n)
    requires Follow(Lookup(fields, "$ref"), d, n) == Follow(Lookup(fields, "$ref"), e, n)
    ensures Unfold(Obj(fields), d, n) == Unfold(Obj(fields), e, n)
  {
    var a, b := Unfold(Obj(fields), d, n), Unfold(Obj(fields), e, n);
    assert a.fields.Keys == fields.Keys == b.fields.Keys;
    forall k | k in fields ensures a.fields[k] == b.fields[k] {
      assert a.fields[k] == Unfold(fields[k], d, n) && b.fields[k] == Unfold(fields[k], e, n);
    }
    assert a.fields == b.fields && a.link == b.link;
  }

  lemma SharedFollow(ref: Json, refs: map<Json, Json>, d: Json, e: Json, n: nat)
    requires Shared(refs, d, e) && (Truthy(ref) ==> ref in refs)
    ensures Follow(ref, d, n) == Follow(ref, e, n)
    decreases n, 0
  {
    if Truthy(ref) && n > 0 {
      SharedUnfold(refs[ref], refs, d, e, n - 1);
    }
  }

  lemma ContractIsClosed(j: Json, document: Json)
    requires ContractOf(j, document).Some?
    ensures var refs := ContractOf(j, document).value.refs;
            RefsIn(j) <= refs.Keys && forall r :: r in refs ==> Resolve(r, document) == Some(refs[r]) && RefsIn(refs[r]) <= refs.Keys
  {
    ReachedIsClosed(j, document);
    var refs := ContractOf(j, document).value.refs;
    forall r | r in refs ensures RefsIn(refs[r]) <= refs.Keys {
      assert Next(document, r) <= ReachedRefs(j, document);
    }
  }

  lemma EqualContractsUnfoldEqually(j: Json, d: Json, k: Json, e: Json)
    requires ContractOf(j, d).Some? && ContractOf(j, d) == ContractOf(k, e)
    ensures SameUnfoldings(j, d, k, e)
  {
    var refs := ContractOf(j, d).value.refs;
    ContractIsClosed(j, d);
    ContractIsClosed(k, e);
    forall n: nat ensures Unfold(j, d, n) == Unfold(k, e, n) {
      SharedUnfold(j, refs, d, e, n);
    }
  }

  // ---------------------------------------------------------------------
  // Values that unfold equally have equal contracts
  // ---------------------------------------------------------------------

  /** Unfolding forgets nothing about the value itself. */
  lemma {:induction false} UnfoldIsInjective(j: Json, d: Json, k: Json, e: Json, n: nat)
    requires Unfold(j, d, n) == Unfold(k, e, n)
    ensures j == k
    decreases j
  {
    match j
    case Arr(items) =>
      assert |k.items| == |items|;
      forall i | 0 <= i < |items| ensures items[i] == k.items[i] {
        assert Unfold(j, d, n).items[i] == Unfold(k, e, n).items[i];
        UnfoldIsInjective(items[i], d, k.items[i], e, n);
      }
    case Obj(fields) =>
      assert Unfold(j, d, n).fields.Keys == fields.Keys && Unfold(k, e, n).fields.Keys == k.fields.Keys;
      forall key | key in fields ensures fields[key] == k.fields[key] {
        assert Unfold(j, d, n).fields[key] == Unfold(k, e, n).fields[key];
        UnfoldIsInjective(fields[key], d, k.fields[key], e, n);
      }
    case _ =>
  }

  /** `r` occurs in `j`: both documents resolve it alike, to targets that again unfold alike. */
  lemma {:induction false} RefUnfoldsAlike(j: Json, d: Json, e: Json, r: Json)
    requires SameUnfoldings(j, d, j, e) && r in RefsIn(j)
    requires Resolve(r, d).Some? && Resolve(r, e).Some?
    ensures Resolve(r, d) == Resolve(r, e) && SameUnfoldings(Resolve(r, d).value, d, Resolve(r, d).value, e)
    decreases j
  {
    match j
    case Arr(items) =>
      var i :| 0 <= i < |items| && r in RefsIn(items[i]);
      forall n: nat ensures Unfold(items[i], d, n) == Unfold(items[i], e, n) {
        assert Unfold(j, d, n).items[i] == Unfold(j, e, n).items[i];
      }
      RefUnfoldsAlike(items[i], d, e, r);
    case Obj(fields) =>
      if r in OwnRef(fields) {
        var s, t := Resolve(r, d).value, Resolve(r, e).value;
        forall n: nat ensures Unfold(s, d, n) == Unfold(t, e, n) {
          assert Unfold(j, d, n + 1).link == Unfold(j, e, n + 1).link;
          assert Follow(r, d, n + 1) == To(Unfold(s, d, n)) && Follow(r, e, n + 1) == To(Unfold(t, e, n));
        }
        UnfoldIsInjective(s, d, t, e, 0);
      } else {
        var k :| k in fields && r in RefsIn(fields[k]);
        forall n: nat ensures Unfold(fields[k], d, n) == Unfold(fields[k], e, n) {
          assert Unfold(j, d, n).fields[k] == Unfold(j, e, n).fields[k];
        }
        RefUnfoldsAlike(fields[k], d, e, r);
      }
  }

  /** `r` is reached in both documents, resolves alike in both, and its target unfolds alike. */
  ghost predicate Alike(j: Json, d: Json, e: Json, r: Json) {
    && r in ReachedRefs(j, d) && r in ReachedRefs(j, e)
    && Resolve(r, d).Some? && Resolve(r, d) == Resolve(r, e)
    && SameUnfoldings(Resolve(r, d).value, d, Resolve(r, d).value, e)
  }

  lemma RefAlike(j: Json, d: Json, e: Json, item: Json, r: Json)
    requires SameUnfoldings(item, d, item, e) && r in RefsIn(item)
    requires RefsIn(item) <= ReachedRefs(j, d) && RefsIn(item) <= ReachedRefs(j, e)
    requires ContractOf(j, d).Some? && ContractOf(j, e).Some?
    ensures Alike(j, d, e, r)
  {
    RefUnfoldsAlike(item, d, e, r);
  }

  lemma AlikeStep(j: Json, d: Json, e: Json, r: Json, next: Json)
    requires ContractOf(j, d).Some? && ContractOf(j, e).Some?
    requires Alike(j, d, e, r) && next in Graph(d)(r)
    ensures Alike(j, d, e, next)
  {
    var target := Resolve(r, d).value;
    ReachedIsClosed(j, d);
    ReachedIsClosed(j, e);
    NextOf(d, r, target);
    NextOf(e, r, target);
    RefAlike(j, d, e, target, next);
  }

  ghost function AllAlike(j: Json, d: Json, e: Json): set<Json> {
    set r | r in ReachedRefs(j, d) && Alike(j, d, e, r)
  }

  lemma AllAlikeIsClosed(j: Json, d: Json, e: Json, r: Json)
    requires ContractOf(j, d).Some? && ContractOf(j, e).Some? && r in AllAlike(j, d, e)
    ensures Graph(d)(r) <= AllAlike(j, d, e)
  {
    forall next | next in Graph(d)(r) ensures next in AllAlike(j, d, e) {
      AlikeStep(j, d, e, r, next);
    }
  }

  lemma AllAlikeContainsRefs(j: Json, d: Json, e: Json)
    requires SameUnfoldings(j, d, j, e) && ContractOf(j, d).Some? && ContractOf(j, e).Some?
    ensures RefsIn(j) <= AllAlike(j, d, e)
  {
    ReachedIsClosed(j, d);
    ReachedIsClosed(j, e);
    forall r | r in RefsIn(j) ensures r in AllAlike(j, d, e) {
      RefAlike(j, d, e, j, r);
    }
  }

  lemma AllReachedAreAlike(j: Json, d: Json, e: Json, alike: set<Json>, r: Json)
    requires RefsIn(j) <= alike && forall s :: s in alike ==> Graph(d)(s) <= alike
    requires r in ReachedRefs(j, d)
    ensures r in alike
  {
    ClosedContainsReachable(RefsIn(j), Graph(d), alike, r);
  }

  lemma ReachedAlike(j: Json, d: Json, e: Json, r: Json)
    requires SameUnfoldings(j, d, j, e) && ContractOf(j, d).Some? && ContractOf(j, e).Some?
    requires r in ReachedRefs(j, d)
    ensures r in AllAlike(j, d, e)
  {
    AllAlikeContainsRefs(j, d, e);
    forall s | s in AllAlike(j, d, e) ensures Graph(d)(s) <= AllAlike(j, d, e) {
      AllAlikeIsClosed(j, d, e, s);
    }
    AllReachedAreAlike(j, d, e, AllAlike(j, d, e), r);
  }

  lemma ContractsAgree(j: Json, d: Json, e: Json)
    requires ContractOf(j, d).Some? && ContractOf(j, e).Some?
    requires ReachedRefs(j, d) == ReachedRefs(j, e)
    requires forall r :: r in ReachedRefs(j, d) ==> Resolve(r, d) == Resolve(r, e)
    ensures ContractOf(j, d) == ContractOf(j, e)
  {
    assert ContractOf(j, d).value.refs == ContractOf(j, e).value.refs;
  }

  lemma EqualUnfoldingsHaveEqualContracts(j: Json, d: Json, e: Json)
    requires SameUnfoldings(j, d, j, e) && ContractOf(j, d).Some? && ContractOf(j, e).Some?
    ensures ContractOf(j, d) == ContractOf(j, e)
  {
    assert SameUnfoldings(j, e, j, d);
    forall r | r in ReachedRefs(j, d) ensures r in ReachedRefs(j, e) && Resolve(r, d) == Resolve(r, e) {
      ReachedAlike(j, d, e, r);
    }
    forall r | r in ReachedRefs(j, e) ensures r in ReachedRefs(j, d) {
      ReachedAlike(j, e, d, r);
    }
    assert ReachedRefs(j, d) == ReachedRefs(j, e);
    ContractsAgree(j, d, e);
  }

  /** Two contracts are equal exactly when the two values unfold equally at every depth. */
  lemma ContractEqualityIsUnfoldingEquality(j: Json, d: Json, k: Json, e: Json)
    requires ContractOf(j, d).Some? && ContractOf(k, e).Some?
    ensures ContractOf(j, d) == ContractOf(k, e) <==> SameUnfoldings(j, d, k, e)
  {
    if ContractOf(j, d) == ContractOf(k, e) {
      EqualContractsUnfoldEqually(j, d, k, e);
    } else if SameUnfoldings(j, d, k, e) {
      UnfoldIsInjective(j, d, k, e, 0);
      EqualUnfoldingsHaveEqualContracts(j, d, e);
    }
  }
}
