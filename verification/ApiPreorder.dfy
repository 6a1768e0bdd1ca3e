/**
 Compatibility along a chain of releases. The gate is used as a preorder; it is
 one except for JSON nulls standing where an operation or a response belongs.
 Both exceptions are characterised exactly.
 */
module ApiPreorder {
  import opened Wrappers
  import opened Json
  import opened JsonPointer
  import opened Contract
  import opened ApiChanges
  import ApiCompatibility

  // ---------------------------------------------------------------------
  // Reflexivity
  // ---------------------------------------------------------------------

  predicate NullOperation(document: Json, path: string, verb: string) {
    Declares(document, path, verb) && Lookup(ItemOf(document, path).value, verb) == Null
  }

  /** A document is compatible with itself exactly when no operation is null. */
  lemma Reflexivity(document: Json)
    requires !Raises(document, document)
    ensures Compatible(document, document) <==> forall path, verb :: !NullOperation(document, path, verb)
  {
    if path, verb :| NullOperation(document, path, verb) {
      assert !OperationRaises(document, document, path, verb);
      assert Fails(document, document, Failure(path, verb, Removed));
    } else {
      forall f ensures !Fails(document, document, f) {
        if Declares(document, f.path, f.verb) {
          assert !OperationRaises(document, document, f.path, f.verb);
          assert !NullOperation(document, f.path, f.verb);
        }
      }
    }
  }

  // ---------------------------------------------------------------------
  // Transitivity, one operation
  // ---------------------------------------------------------------------

  /** Nothing raised and nothing reported between two versions of an operation. */
  ghost predicate Passes(a: Side, b: Side) {
    a.document.Obj? && b.document.Obj? && !SidesRaise(a, b) && forall d :: !Reported(a, b, d)
  }

  /** A response that `a` lists as null and `c` fills. */
  predicate NullResponseFilled(a: Side, c: Side, status: string) {
    && ResponsesOf(a).Some? && status in ResponsesOf(a).value && ResponsesOf(a).value[status] == Null
    && (ResponsesOf(c).None? || Lookup(ResponsesOf(c).value, status) != Null)
  }

  lemma EqualContractsHaveEqualValues(j: Json, d: Json, k: Json, e: Json)
    requires ContractOf(j, d).Some? && ContractOf(j, d) == ContractOf(k, e)
    ensures j == k
  {
  }

  lemma KeysPass(a: Side, b: Side, c: Side)
    requires Passes(a, b) && Passes(b, c)
    ensures !KeysRaise(a, c) && forall key :: !Reported'(a, c, Changed(key))
  {
    forall key | key in COMPARED_KEYS ensures !KeyRaises(a, c, key) && !KeyDiffers(a, c, key) {
      assert !KeyRaises(a, b, key) && !KeyRaises(b, c, key);
      assert !Reported(a, b, Changed(key)) && !Reported(b, c, Changed(key));
    }
  }

  /** `Reported` where it is defined. */
  ghost predicate Reported'(a: Side, c: Side, d: Difference) {
    && a.document.Obj? && c.document.Obj?
    && SchemeNames(Security(a)).Some? && ParametersOf(a).Some? && ParametersOf(c).Some? && ResponsesOf(a).Some?
    && Reported(a, c, d)
  }

  lemma SchemesPass(a: Side, b: Side, c: Side)
    requires Passes(a, b) && Passes(b, c)
    ensures !SchemesRaise(a, c) && Security(a) == Security(c)
    ensures forall n :: n in SchemeNames(Security(a)).value ==> !SchemeDiffers(a, c, n)
  {
    assert !Reported(a, b, Authentication) && !Reported(b, c, Authentication);
    forall n | n in SchemeNames(Security(a)).value ensures !SchemeRaises(a, c, n) && !SchemeDiffers(a, c, n) {
      assert !SchemeRaises(a, b, n) && !SchemeRaises(b, c, n);
      assert !Reported(a, b, Scheme(n)) && !Reported(b, c, Scheme(n));
    }
  }

  /** A passing comparison keeps each parameter, with the same contract. */
  lemma ParameterStays(a: Side, b: Side, k: ParamKey)
    requires Passes(a, b) && k in ParametersOf(a).value
    ensures k in ParametersOf(b).value && ParametersOf(a).value[k] == ParametersOf(b).value[k]
    ensures ContractOf(ParametersOf(a).value[k], a.document).Some?
    ensures ContractOf(ParametersOf(a).value[k], a.document) == ContractOf(ParametersOf(b).value[k], b.document)
  {
    var prior, following := ParametersOf(a).value, ParametersOf(b).value;
    assert !ParameterRaises(a, b, prior, following, k) && !Reported(a, b, Parameter(k));
    ApiCompatibility.ParameterKept(a, b, k);
    EqualContractsHaveEqualValues(prior[k], a.document, following[k], b.document);
  }

  lemma ParametersPass(a: Side, b: Side, c: Side)
    requires Passes(a, b) && Passes(b, c)
    ensures !ParametersRaise(a, c)
    ensures forall k :: !Reported'(a, c, Parameter(k)) && !Reported'(a, c, Added(k))
  {
    var first, middle, last := ParametersOf(a).value, ParametersOf(b).value, ParametersOf(c).value;
    forall k | k in first ensures !ParameterRaises(a, c, first, last, k) && !ParameterDiffers(a, c, first, last, k) {
      ParameterStays(a, b, k);
      ParameterStays(b, c, k);
    }
    forall k | k in last && k !in first ensures !Demands(last[k]) {
      assert !Reported(a, b, Added(k)) && !Reported(b, c, Added(k));
      if k in middle {
        ParameterStays(b, c, k);
      }
    }
  }

  /** A passing comparison keeps each response that is not null. */
  lemma ResponseStays(a: Side, b: Side, s: string)
    requires Passes(a, b) && s in ResponsesOf(a).value
    ensures ResponsesOf(b).Some? && Lookup(ResponsesOf(b).value, s) == ResponsesOf(a).value[s]
    ensures ContractOf(ResponsesOf(a).value[s], a.document).Some?
    ensures ContractOf(ResponsesOf(a).value[s], a.document) == ContractOf(Lookup(ResponsesOf(b).value, s), b.document)
  {
    assert !ResponseRaises(a, b, ResponsesOf(a).value, s) && !Reported(a, b, Response(s));
    EqualContractsHaveEqualValues(ResponsesOf(a).value[s], a.document, Lookup(ResponsesOf(b).value, s), b.document);
  }

  lemma NullContract(document: Json)
    ensures ContractOf(Null, document) == Some(Contract(Null, map[]))
  {
    forall r ensures r !in ReachedRefs(Null, document) {
      if r in ReachedRefs(Null, document) {
        Reachability.ClosedContainsReachable({}, Graph(document), {}, r);
      }
    }
    assert ContractOf(Null, document).Some? && ContractOf(Null, document).value.refs == map[];
  }

  /** What happens to one response of `a` two releases later. */
  lemma ResponsePasses(a: Side, b: Side, c: Side, s: string)
    requires Passes(a, b) && Passes(b, c) && s in ResponsesOf(a).value
    ensures !ResponseRaises(a, c, ResponsesOf(a).value, s) && !ResponseDiffers(a, c, ResponsesOf(a).value, s)
            <==> !NullResponseFilled(a, c, s)
  {
    ResponseStays(a, b, s);
    if ResponsesOf(a).value[s] != Null {
      assert s in ResponsesOf(b).value;
      ResponseStays(b, c, s);
    } else {
      NullContract(a.document);
      NullContract(c.document);
      if ResponsesOf(c).Some? && !ResponseRaises(a, c, ResponsesOf(a).value, s) && !ResponseDiffers(a, c, ResponsesOf(a).value, s) {
        EqualContractsHaveEqualValues(Null, a.document, Lookup(ResponsesOf(c).value, s), c.document);
      }
    }
  }

  lemma SidesTransitivity(a: Side, b: Side, c: Side)
    requires Passes(a, b) && Passes(b, c)
    ensures Passes(a, c) <==> forall s :: !NullResponseFilled(a, c, s)
  {
    KeysPass(a, b, c);
    SchemesPass(a, b, c);
    ParametersPass(a, b, c);
    forall s | s in ResponsesOf(a).value
      ensures (!ResponseRaises(a, c, ResponsesOf(a).value, s) && !ResponseDiffers(a, c, ResponsesOf(a).value, s))
              <==> !NullResponseFilled(a, c, s)
    {
      ResponsePasses(a, b, c, s);
    }
    if s :| NullResponseFilled(a, c, s) {
      assert ResponseRaises(a, c, ResponsesOf(a).value, s) || Reported'(a, c, Response(s));
    } else {
      assert !ResponsesRaise(a, c);
      forall d ensures !Reported(a, c, d) {
        match d
        case Changed(key) => assert !Reported'(a, c, Changed(key));
        case Parameter(k) => assert !Reported'(a, c, Parameter(k));
        case Added(k) => assert !Reported'(a, c, Added(k));
        case Response(s) => assert !NullResponseFilled(a, c, s);
        case _ =>
      }
    }
  }

  // ---------------------------------------------------------------------
  // Transitivity, whole documents
  // ---------------------------------------------------------------------

  /** An operation of `a` has a null response that `c` fills. */
  predicate NullFilled(a: Json, c: Json, path: string, verb: string, status: string) {
    && Declares(a, path, verb)
    && SideOf(a, path, verb).Some? && SideOf(c, path, verb).Some?
    && NullResponseFilled(SideOf(a, path, verb).value, SideOf(c, path, verb).value, status)
  }

  lemma OperationPasses(a: Json, b: Json, path: string, verb: string)
    requires Compatible(a, b) && Declares(a, path, verb)
    ensures Declares(b, path, verb) && Lookup(ItemOf(b, path).value, verb) != Null
    ensures SideOf(a, path, verb).Some? && SideOf(b, path, verb).Some?
    ensures Passes(SideOf(a, path, verb).value, SideOf(b, path, verb).value)
  {
    assert !OperationRaises(a, b, path, verb);
    assert !Fails(a, b, Failure(path, verb, Removed));
    assert StillDeclared(b, path, verb);
    forall d ensures !Reported(SideOf(a, path, verb).value, SideOf(b, path, verb).value, d) {
      assert !Fails(a, b, Failure(path, verb, d));
    }
  }

  predicate StillDeclared(b: Json, path: string, verb: string) {
    ItemOf(b, path).Some? && Lookup(ItemOf(b, path).value, verb) != Null
  }

  lemma CompatibleIfOperationsPass(a: Json, c: Json)
    requires PathsOf(a).Some? && forall path :: path in PathsOf(a).value ==> ItemOf(a, path).Some?
    requires forall path, verb :: Declares(a, path, verb) ==>
      && StillDeclared(c, path, verb) && SideOf(a, path, verb).Some? && SideOf(c, path, verb).Some?
      && Passes(SideOf(a, path, verb).value, SideOf(c, path, verb).value)
    ensures Compatible(a, c)
  {
    forall path, verb | Declares(a, path, verb) ensures !OperationRaises(a, c, path, verb) {
    }
    forall f ensures !Fails(a, c, f) {
      if Declares(a, f.path, f.verb) {
        assert !OperationFails(a, c, f);
      }
    }
  }

  /**
   Two passing steps make a passing whole exactly when no response that the
   oldest document lists as null is filled by the newest.
   */
  lemma Transitivity(a: Json, b: Json, c: Json)
    requires Compatible(a, b) && Compatible(b, c)
    ensures Compatible(a, c) <==> forall path, verb, status :: !NullFilled(a, c, path, verb, status)
  {
    forall path, verb | Declares(a, path, verb)
      ensures StillDeclared(c, path, verb) && SideOf(a, path, verb).Some? && SideOf(c, path, verb).Some?
      ensures Passes(SideOf(a, path, verb).value, SideOf(c, path, verb).value)
              <==> forall status :: !NullFilled(a, c, path, verb, status)
    {
      OperationPasses(a, b, path, verb);
      OperationPasses(b, c, path, verb);
      var x, z := SideOf(a, path, verb).value, SideOf(c, path, verb).value;
      SidesTransitivity(x, SideOf(b, path, verb).value, z);
      assert forall s :: NullFilled(a, c, path, verb, s) <==> NullResponseFilled(x, z, s);
    }
    if path, verb, status :| NullFilled(a, c, path, verb, status) {
      if Compatible(a, c) {
        OperationPasses(a, c, path, verb);
        assert false;
      }
    } else {
      CompatibleIfOperationsPass(a, c);
    }
  }

  // ---------------------------------------------------------------------
  // The exception occurs
  // ---------------------------------------------------------------------

  function Minimal(operation: map<string, Json>): Json {
    Obj(map["paths" := Obj(map["/p" := Obj(map["get" := Obj(operation)])])])
  }

  lemma MinimalSide(operation: map<string, Json>)
    ensures var d := Minimal(operation);
            && PathsOf(d) == Some(map["/p" := Obj(map["get" := Obj(operation)])])
            && (forall path, verb :: Declares(d, path, verb) <==> path == "/p" && verb == "get")
            && SideOf(d, "/p", "get") == Some(Side(d, map["get" := Obj(operation)], operation))
  {
  }

  lemma MinimalSideIsBare(operation: map<string, Json>)
    requires operation.Keys <= {"responses"}
    ensures var a := Side(Minimal(operation), map["get" := Obj(operation)], operation);
            && Security(a) == Arr([]) && SchemeNames(Security(a)) == Some({}) && ParametersOf(a) == Some(map[])
            && (forall key :: key in COMPARED_KEYS ==> ContractOf(Lookup(a.operation, key), a.document) == Some(Contract(Null, map[])))
  {
    NullContract(Minimal(operation));
    var requirements: set<Json> := {};
    assert Iterate(Arr([])).Some? && Iterate(Arr([])).value == requirements;
    assert SchemeNames(Arr([])).Some? && SchemeNames(Arr([])).value == {};
    assert Keyed([]) == Some(map[]);
  }

  lemma MinimalPasses(p: map<string, Json>, q: map<string, Json>)
    requires p.Keys <= {"responses"} && q.Keys <= {"responses"}
    requires var a, b := Side(Minimal(p), map["get" := Obj(p)], p), Side(Minimal(q), map["get" := Obj(q)], q);
             && ResponsesOf(a).Some? && ResponsesOf(b).Some?
             && forall s :: s in ResponsesOf(a).value ==>
                  ResponsesOf(a).value[s] == Null && Lookup(ResponsesOf(b).value, s) == Null
    ensures Compatible(Minimal(p), Minimal(q))
  {
    var a, b := Side(Minimal(p), map["get" := Obj(p)], p), Side(Minimal(q), map["get" := Obj(q)], q);
    MinimalSide(p);
    MinimalSide(q);
    MinimalSideIsBare(p);
    MinimalSideIsBare(q);
    NullContract(Minimal(p));
    NullContract(Minimal(q));
    forall d ensures !Reported(a, b, d) {
    }
    CompatibleIfOperationsPass(Minimal(p), Minimal(q));
  }

  /** Dropping a null response passes, adding it back with content passes, the two together do not. */
  lemma ChainThatBreaks()
    ensures var a, b, c := Minimal(map["responses" := Obj(map["200" := Null])]), Minimal(map[]),
                           Minimal(map["responses" := Obj(map["200" := EMPTY])]);
            Compatible(a, b) && Compatible(b, c) && !Compatible(a, c)
  {
    var p, q, r := map["responses" := Obj(map["200" := Null])], map[], map["responses" := Obj(map["200" := EMPTY])];
    MinimalPasses(p, q);
    MinimalPasses(q, r);
    MinimalSide(p);
    MinimalSide(r);
    assert NullFilled(Minimal(p), Minimal(r), "/p", "get", "200");
    Transitivity(Minimal(p), Minimal(q), Minimal(r));
  }

  /** A null operation makes a document incompatible with itself. */
  lemma NullOperationBreaks()
    ensures var d := Obj(map["paths" := Obj(map["/p" := Obj(map["get" := Null])])]);
            !Raises(d, d) && !Compatible(d, d)
  {
    var d := Obj(map["paths" := Obj(map["/p" := Obj(map["get" := Null])])]);
    assert PathsOf(d) == Some(map["/p" := Obj(map["get" := Null])]);
    assert ItemOf(d, "/p") == Some(map["get" := Null]);
    assert NullOperation(d, "/p", "get");
    assert forall path, verb :: Declares(d, path, verb) ==> !OperationRaises(d, d, path, verb);
    Reflexivity(d);
  }
}
