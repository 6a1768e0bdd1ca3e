/**
 Theorems about the compatibility gate: what a pass means, and exactly when the
 relation behaves as the preorder it is used as along a chain of releases.
 */
module ApiCompatibility {
  import opened Wrappers
  import opened Json
  import opened Contract
  import opened ContractMeaning
  import opened ApiChanges

  // ---------------------------------------------------------------------
  // What a pass means
  // ---------------------------------------------------------------------

  lemma ParametersAreObjects(parameters: seq<Json>)
    ensures Keyed(parameters).Some? ==> forall k :: k in Keyed(parameters).value ==> Keyed(parameters).value[k].Obj?
  {
  }

  /** The contract of a missing parameter is the contract of null, which no parameter has. */
  lemma ParameterKept(a: Side, b: Side, k: ParamKey)
    requires !ParametersRaise(a, b) && k in ParametersOf(a).value
    ensures var prior, following := ParametersOf(a).value, ParametersOf(b).value;
            !ParameterDiffers(a, b, prior, following, k) <==>
            k in following && SameUnfoldings(prior[k], a.document, following[k], b.document)
  {
    var prior, following := ParametersOf(a).value, ParametersOf(b).value;
    assert !ParameterRaises(a, b, prior, following, k);
    ContractEqualityIsUnfoldingEquality(prior[k], a.document, ParamOrNull(following, k), b.document);
    var own := if "parameters" in a.operation then a.operation["parameters"] else Arr([]);
    var shared := if "parameters" in a.item then a.item["parameters"] else Arr([]);
    ParametersAreObjects(Concatenated(shared, own).value);
    assert prior[k].Obj?;
  }

  /** What a client of `a` finds unchanged in `b` when difference `d` is not reported. */
  ghost predicate Keeps(a: Side, b: Side, d: Difference)
    requires a.document.Obj? && b.document.Obj? && !SidesRaise(a, b)
  {
    var prior, following, responses := ParametersOf(a).value, ParametersOf(b).value, ResponsesOf(a).value;
    match d
    case Removed => true
    case Changed(key) => key in COMPARED_KEYS ==>
      SameUnfoldings(Lookup(a.operation, key), a.document, Lookup(b.operation, key), b.document)
    case Authentication => Security(a) == Security(b)
    case Scheme(n) => n in SchemeNames(Security(a)).value ==> SchemeOf(a.document, n) == SchemeOf(b.document, n)
    case Parameter(k) => k in prior ==> k in following && SameUnfoldings(prior[k], a.document, following[k], b.document)
    case Added(k) => k in following && k !in prior ==> !Demands(following[k])
    case Response(s) => s in responses ==>
      SameUnfoldings(responses[s], a.document, Lookup(ResponsesOf(b).value, s), b.document)
  }

  lemma KeptUnlessReported(a: Side, b: Side, d: Difference)
    requires a.document.Obj? && b.document.Obj? && !SidesRaise(a, b)
    ensures Keeps(a, b, d) <==> !Reported(a, b, d)
  {
    match d
    case Changed(key) =>
      if key in COMPARED_KEYS {
        assert !KeyRaises(a, b, key);
        ContractEqualityIsUnfoldingEquality(Lookup(a.operation, key), a.document, Lookup(b.operation, key), b.document);
      }
    case Parameter(k) => if k in ParametersOf(a).value { ParameterKept(a, b, k); }
    case Response(s) =>
      var responses := ResponsesOf(a).value;
      if s in responses {
        assert !ResponseRaises(a, b, responses, s);
        ContractEqualityIsUnfoldingEquality(responses[s], a.document, Lookup(ResponsesOf(b).value, s), b.document);
      }
    case _ =>
  }

  /**
   The gate passes exactly when every operation is still there and is
   preserved: same bodies and responses at every depth of references, same
   authentication, every parameter kept, none demanded anew.
   */
  lemma CompatibleMeansPreserved(before: Json, after: Json)
    requires !Raises(before, after)
    ensures Compatible(before, after) <==> forall path, verb :: Declares(before, path, verb) ==>
      StillThere(after, path, verb) && OperationPreserved(before, after, path, verb)
  {
    forall path, verb | Declares(before, path, verb)
      ensures (forall d :: !Fails(before, after, Failure(path, verb, d))) <==>
        StillThere(after, path, verb) && OperationPreserved(before, after, path, verb)
    {
      OperationMeaning(before, after, path, verb);
    }
    if Compatible(before, after) {
    } else {
      var f :| Fails(before, after, f);
      assert f == Failure(f.path, f.verb, f.difference);
    }
  }

  predicate StillThere(after: Json, path: string, verb: string) {
    ItemOf(after, path).Some? && Lookup(ItemOf(after, path).value, verb) != Null
  }

  ghost predicate OperationPreserved(before: Json, after: Json, path: string, verb: string) {
    var a, b := SideOf(before, path, verb), SideOf(after, path, verb);
    && a.Some? && b.Some?
    && a.value.document.Obj? && b.value.document.Obj? && !SidesRaise(a.value, b.value)
    && forall d :: Keeps(a.value, b.value, d)
  }

  lemma OperationMeaning(before: Json, after: Json, path: string, verb: string)
    requires Declares(before, path, verb) && !OperationRaises(before, after, path, verb)
    ensures (forall d :: !OperationFails(before, after, Failure(path, verb, d))) <==>
      StillThere(after, path, verb) && OperationPreserved(before, after, path, verb)
  {
    if StillThere(after, path, verb) {
      var a, b := SideOf(before, path, verb).value, SideOf(after, path, verb).value;
      forall d ensures Keeps(a, b, d) <==> !OperationFails(before, after, Failure(path, verb, d)) {
        KeptUnlessReported(a, b, d);
      }
    } else {
      assert OperationFails(before, after, Failure(path, verb, Removed));
    }
  }
}
