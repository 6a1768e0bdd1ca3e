/**
 A reference definition of the compatibility gate, read off two well-formed
 documents by looking keys up, and the proof that the gate computes it: on such
 documents it never raises, and passes exactly what the definition allows.
 */
module ApiReference {
  import opened Text
  import opened Wrappers
  import opened Json
  import JsonPointer
  import opened Contract
  import opened ContractMeaning
  import opened ApiChanges
  import opened ApiCompatibility

  const VERBS := {"get", "post", "put", "patch", "delete", "options", "head", "trace"}

  // ---------------------------------------------------------------------
  // Looking up
  // ---------------------------------------------------------------------

  function Get(j: Option<Json>, key: string): Option<Json> {
    if j.Some? && j.value.Obj? && key in j.value.fields then Some(j.value.fields[key]) else None
  }

  function OrNull(j: Option<Json>): Json {
    if j.Some? then j.value else Null
  }

  function PathItem(d: Json, path: string): Option<Json> {
    Get(Get(Some(d), "paths"), path)
  }

  function Operation(d: Json, path: string, verb: string): Option<Json> {
    Get(PathItem(d, path), verb)
  }

  function Items(list: Option<Json>): seq<Json> {
    if list.Some? && list.value.Arr? then list.value.items else []
  }

  /** The parameters of the path, then those of the operation. */
  function Parameters(d: Json, path: string, verb: string): seq<Json> {
    Items(Get(PathItem(d, path), "parameters")) + Items(Get(Operation(d, path, verb), "parameters"))
  }

  function SchemeIn(d: Json, name: string): Json {
    OrNull(Get(Get(Get(Some(d), "components"), "securitySchemes"), name))
  }

  // ---------------------------------------------------------------------
  // Well-formed documents
  // ---------------------------------------------------------------------

  predicate AbsentOrObject(j: Option<Json>) {
    j.Some? ==> j.value.Obj?
  }

  /** A referenced parameter, or one with a location and a name. */
  predicate WellFormedParameter(p: Json) {
    && p.Obj?
    && if "$ref" in p.fields then p.fields["$ref"].Str? && p.fields["$ref"].s != ""
       else "in" in p.fields && p.fields["in"].Str? && "name" in p.fields && p.fields["name"].Str?
  }

  predicate WellFormedParameters(list: Option<Json>) {
    list.Some? ==> list.value.Arr? && forall n :: 0 <= n < |list.value.items| ==> WellFormedParameter(list.value.items[n])
  }

  predicate WellFormedSecurity(list: Option<Json>) {
    list.Some? ==> list.value.Arr? && forall n :: 0 <= n < |list.value.items| ==> list.value.items[n].Obj?
  }

  ghost predicate WellFormed(d: Json) {
    && d.Obj?
    && AbsentOrObject(Get(Some(d), "paths"))
    && (forall path :: AbsentOrObject(PathItem(d, path)) && WellFormedParameters(Get(PathItem(d, path), "parameters")))
    && (forall path, verb :: verb in VERBS ==> WellFormedOperation(Operation(d, path, verb)))
    && WellFormedSecurity(Get(Some(d), "security"))
    && AbsentOrObject(Get(Some(d), "components"))
    && AbsentOrObject(Get(Get(Some(d), "components"), "securitySchemes"))
    && forall r :: r in RefsIn(d) ==> JsonPointer.Resolve(r, d).Some?
  }

  predicate WellFormedOperation(operation: Option<Json>) {
    && AbsentOrObject(operation)
    && WellFormedParameters(Get(operation, "parameters"))
    && WellFormedSecurity(Get(operation, "security"))
    && AbsentOrObject(Get(operation, "responses"))
  }

  // ---------------------------------------------------------------------
  // What has to be preserved
  // ---------------------------------------------------------------------

  /** Both are the same reference, or name the same thing in the same place; header names ignore case. */
  predicate SameParameter(p: Json, q: Json) {
    if Get(Some(p), "$ref").Some? || Get(Some(q), "$ref").Some? then Get(Some(p), "$ref") == Get(Some(q), "$ref")
    else
      && Get(Some(p), "in") == Get(Some(q), "in")
      && (Get(Some(p), "name") == Get(Some(q), "name")
          || (Get(Some(p), "in") == Some(Str("header")) && SameHeader(Get(Some(p), "name"), Get(Some(q), "name"))))
  }

  predicate SameHeader(x: Option<Json>, y: Option<Json>) {
    x.Some? && y.Some? && x.value.Str? && y.value.Str? && Lower(x.value.s) == Lower(y.value.s)
  }

  /** No later parameter of the list replaces this one. */
  predicate Effective(ps: seq<Json>, n: int) {
    0 <= n < |ps| && forall m :: n < m < |ps| ==> !SameParameter(ps[n], ps[m])
  }

  ghost predicate ParametersKept(a: Json, b: Json, path: string, verb: string) {
    var prior, next := Parameters(a, path, verb), Parameters(b, path, verb);
    forall n :: Effective(prior, n) ==>
      exists m :: Effective(next, m) && SameParameter(prior[n], next[m]) && SameUnfoldings(prior[n], a, next[m], b)
  }

  /** A new parameter is optional and spelled out. */
  ghost predicate NoneDemanded(a: Json, b: Json, path: string, verb: string) {
    var prior, next := Parameters(a, path, verb), Parameters(b, path, verb);
    forall m :: Effective(next, m) ==>
      || (exists n :: 0 <= n < |prior| && SameParameter(prior[n], next[m]))
      || (!Truthy(OrNull(Get(Some(next[m]), "required"))) && Get(Some(next[m]), "$ref").None?)
  }

  /** What the document asks of operations that say nothing. */
  function Default(d: Json): Json {
    if Get(Some(d), "security").Some? then Get(Some(d), "security").value else Arr([])
  }

  predicate SameAuthentication(a: Json, b: Json, path: string, verb: string) {
    match (Get(Operation(a, path, verb), "security"), Get(Operation(b, path, verb), "security"))
    case (Some(x), Some(y)) => x == y
    case (Some(x), None) => x == Default(b)
    case (None, Some(y)) => Default(a) == y
    case (None, None) => Default(a) == Default(b)
  }

  /** Some requirement on the operation names the scheme. */
  predicate AsksFor(d: Json, path: string, verb: string, name: string) {
    var own := Get(Operation(d, path, verb), "security");
    var list := if own.Some? then Items(own) else Items(Get(Some(d), "security"));
    exists n :: 0 <= n < |list| && list[n].Obj? && name in list[n].fields
  }

  ghost predicate SchemesKept(a: Json, b: Json, path: string, verb: string) {
    forall name :: AsksFor(a, path, verb, name) ==> SchemeIn(a, name) == SchemeIn(b, name)
  }

  ghost predicate FieldKept(a: Json, b: Json, path: string, verb: string, key: string) {
    SameUnfoldings(OrNull(Get(Operation(a, path, verb), key)), a, OrNull(Get(Operation(b, path, verb), key)), b)
  }

  ghost predicate ResponsesKept(a: Json, b: Json, path: string, verb: string) {
    var prior, next := Get(Operation(a, path, verb), "responses"), Get(Operation(b, path, verb), "responses");
    forall status :: Get(prior, status).Some? ==> SameUnfoldings(Get(prior, status).value, a, OrNull(Get(next, status)), b)
  }

  /** The operation is still there, and a client of `a` finds nothing of it changed. */
  ghost predicate Preserved(a: Json, b: Json, path: string, verb: string) {
    && Operation(b, path, verb).Some?
    && FieldKept(a, b, path, verb, "operationId") && FieldKept(a, b, path, verb, "requestBody")
    && SameAuthentication(a, b, path, verb) && SchemesKept(a, b, path, verb)
    && ParametersKept(a, b, path, verb) && NoneDemanded(a, b, path, verb)
    && ResponsesKept(a, b, path, verb)
  }

  // ---------------------------------------------------------------------
  // The gate reads the same operations
  // ---------------------------------------------------------------------

  lemma SameVerbs()
    ensures VERBS == METHODS
  {
  }

  lemma ReadsOperation(d: Json, path: string, verb: string)
    requires WellFormed(d)
    ensures PathsOf(d).Some? && ItemOf(d, path).Some?
    ensures Declares(d, path, verb) <==> Operation(d, path, verb).Some? && verb in VERBS
    ensures Lookup(ItemOf(d, path).value, verb) == OrNull(Operation(d, path, verb))
    ensures verb in VERBS && Operation(d, path, verb).Some? ==>
      SideOf(d, path, verb) == Some(Side(d, PathItem(d, path).value.fields, Operation(d, path, verb).value.fields))
  {
    SameVerbs();
    assert AbsentOrObject(PathItem(d, path));
    if verb in VERBS {
      assert WellFormedOperation(Operation(d, path, verb));
    }
  }

  // ---------------------------------------------------------------------
  // Contracts exist
  // ---------------------------------------------------------------------

  /** Everything `j` refers to is referred to in `d`. */
  predicate Inside(j: Json, d: Json) {
    RefsIn(j) <= RefsIn(d)
  }

  lemma GetInside(j: Option<Json>, key: string, d: Json)
    requires j.Some? ==> Inside(j.value, d)
    ensures Get(j, key).Some? ==> Inside(Get(j, key).value, d)
  {
    if Get(j, key).Some? {
      FieldRefs(j.value, key);
    }
  }

  lemma OperationInside(d: Json, path: string, verb: string, key: string)
    ensures Get(Operation(d, path, verb), key).Some? ==> Inside(Get(Operation(d, path, verb), key).value, d)
    ensures Get(PathItem(d, path), key).Some? ==> Inside(Get(PathItem(d, path), key).value, d)
  {
    GetInside(Some(d), "paths", d);
    GetInside(Get(Some(d), "paths"), path, d);
    GetInside(PathItem(d, path), key, d);
    GetInside(PathItem(d, path), verb, d);
    GetInside(Operation(d, path, verb), key, d);
  }

  lemma ContractExists(j: Json, d: Json)
    requires WellFormed(d) && (Inside(j, d) || j == Null)
    ensures ContractOf(j, d).Some?
  {
    forall r | r in ReachedRefs(j, d) ensures JsonPointer.Resolve(r, d).Some? {
      assert r in RefsIn(j) + RefsIn(d);
    }
  }

  lemma FieldsAgree(a: Json, b: Json, path: string, verb: string, key: string)
    requires WellFormed(a) && WellFormed(b) && verb in VERBS && Operation(a, path, verb).Some? && Operation(b, path, verb).Some?
    ensures var x, y := SideOf(a, path, verb).value, SideOf(b, path, verb).value;
            && !KeyRaises(x, y, key)
            && (SameUnfoldings(Lookup(x.operation, key), a, Lookup(y.operation, key), b) <==> FieldKept(a, b, path, verb, key))
  {
    ReadsOperation(a, path, verb);
    ReadsOperation(b, path, verb);
    OperationInside(a, path, verb, key);
    OperationInside(b, path, verb, key);
    var x, y := SideOf(a, path, verb).value, SideOf(b, path, verb).value;
    ContractExists(Lookup(x.operation, key), a);
    ContractExists(Lookup(y.operation, key), b);
  }

  // ---------------------------------------------------------------------
  // Authentication
  // ---------------------------------------------------------------------

  lemma ReadsAuthentication(d: Json, path: string, verb: string, name: string)
    requires WellFormed(d) && verb in VERBS && Operation(d, path, verb).Some?
    ensures var names := SchemeNames(Security(SideOf(d, path, verb).value));
            && names.Some? && (forall n :: n in names.value ==> n.Str?)
            && (Str(name) in names.value <==> AsksFor(d, path, verb, name))
    ensures SchemeOf(d, Str(name)) == Some(SchemeIn(d, name))
  {
    ReadsOperation(d, path, verb);
    assert WellFormedOperation(Operation(d, path, verb));
    var list := Security(SideOf(d, path, verb).value);
    assert list.Arr? && forall n :: 0 <= n < |list.items| ==> list.items[n].Obj?;
    var requirements := Iterate(list).value;
    forall r | r in requirements ensures r.Obj? {
      var n :| 0 <= n < |list.items| && list.items[n] == r;
    }
    if AsksFor(d, path, verb, name) {
      var n :| 0 <= n < |list.items| && list.items[n].Obj? && name in list.items[n].fields;
      assert list.items[n] in requirements;
      assert Str(name) in Iterate(list.items[n]).value;
    }
    if Str(name) in SchemeNames(list).value {
      var r :| r in requirements && Str(name) in Iterate(r).value;
      var n :| 0 <= n < |list.items| && list.items[n] == r;
      assert name in list.items[n].fields;
      assert AsksFor(d, path, verb, name);
    }
  }

  lemma AuthenticationAgrees(a: Json, b: Json, path: string, verb: string)
    requires WellFormed(a) && WellFormed(b) && verb in VERBS && Operation(a, path, verb).Some? && Operation(b, path, verb).Some?
    ensures var x, y := SideOf(a, path, verb).value, SideOf(b, path, verb).value;
            && !SchemesRaise(x, y)
            && (Security(x) == Security(y) <==> SameAuthentication(a, b, path, verb))
            && ((forall n :: n in SchemeNames(Security(x)).value ==> SchemeOf(a, n) == SchemeOf(b, n)) <==> SchemesKept(a, b, path, verb))
  {
    ReadsOperation(a, path, verb);
    ReadsOperation(b, path, verb);
    var x, y := SideOf(a, path, verb).value, SideOf(b, path, verb).value;
    ReadsAuthentication(a, path, verb, "");
    forall name: string
      ensures Str(name) in SchemeNames(Security(x)).value <==> AsksFor(a, path, verb, name)
      ensures SchemeOf(a, Str(name)) == Some(SchemeIn(a, name)) && SchemeOf(b, Str(name)) == Some(SchemeIn(b, name))
    {
      ReadsAuthentication(a, path, verb, name);
      ReadsAuthentication(b, path, verb, name);
    }
    forall n | n in SchemeNames(Security(x)).value
      ensures !SchemeRaises(x, y, n) && AsksFor(a, path, verb, n.s)
      ensures SchemeOf(a, n) == Some(SchemeIn(a, n.s)) && SchemeOf(b, n) == Some(SchemeIn(b, n.s))
    {
      assert n == Str(n.s);
    }
    if SchemesKept(a, b, path, verb) {
    } else {
      var name :| AsksFor(a, path, verb, name) && SchemeIn(a, name) != SchemeIn(b, name);
      assert Str(name) in SchemeNames(Security(x)).value;
    }
  }

  // ---------------------------------------------------------------------
  // Parameters
  // ---------------------------------------------------------------------

  predicate AllWellFormed(ps: seq<Json>) {
    forall n :: 0 <= n < |ps| ==> WellFormedParameter(ps[n])
  }

  lemma KeysTellApart(p: Json, q: Json)
    requires WellFormedParameter(p) && WellFormedParameter(q)
    ensures ParameterKey(p).Some? && ParameterKey(q).Some?
    ensures ParameterKey(p) == ParameterKey(q) <==> SameParameter(p, q)
  {
  }

  lemma {:induction false} KeyedReads(ps: seq<Json>)
    requires AllWellFormed(ps)
    ensures Keyed(ps).Some?
  {
    if ps != [] {
      KeyedReads(ps[..|ps| - 1]);
      KeysTellApart(ps[|ps| - 1], ps[|ps| - 1]);
    }
  }

  /** The dictionary holds each parameter that no later one replaces. */
  lemma {:induction false} KeyedHoldsEffective(ps: seq<Json>, n: int)
    requires AllWellFormed(ps) && Effective(ps, n)
    ensures Keyed(ps).Some? && ParameterKey(ps[n]).Some?
    ensures ParameterKey(ps[n]).value in Keyed(ps).value && Keyed(ps).value[ParameterKey(ps[n]).value] == ps[n]
  {
    var last := |ps| - 1;
    KeyedReads(ps);
    KeyedReads(ps[..last]);
    KeysTellApart(ps[n], ps[last]);
    if n < last {
      EffectiveBefore(ps, n);
      KeyedHoldsEffective(ps[..last], n);
    }
  }

  /** And nothing else. */
  lemma {:induction false} KeyedIsEffective(ps: seq<Json>, k: ParamKey) returns (n: int)
    requires AllWellFormed(ps) && Keyed(ps).Some? && k in Keyed(ps).value
    ensures Effective(ps, n) && ParameterKey(ps[n]) == Some(k) && Keyed(ps).value[k] == ps[n]
  {
    var last := |ps| - 1;
    n := last;
    if ParameterKey(ps[last]) != Some(k) {
      n := KeyedIsEffective(ps[..last], k);
      KeysTellApart(ps[n], ps[last]);
      EffectiveStill(ps, n);
    }
  }

  lemma EffectiveBefore(ps: seq<Json>, n: int)
    requires ps != [] && Effective(ps, n) && n < |ps| - 1
    ensures Effective(ps[..|ps| - 1], n) && !SameParameter(ps[n], ps[|ps| - 1])
  {
  }

  lemma EffectiveStill(ps: seq<Json>, n: int)
    requires ps != [] && Effective(ps[..|ps| - 1], n) && !SameParameter(ps[n], ps[|ps| - 1])
    ensures Effective(ps, n)
  {
    forall m | n < m < |ps| ensures !SameParameter(ps[n], ps[m]) {
      if m < |ps| - 1 {
        assert ps[..|ps| - 1][m] == ps[m];
      }
    }
  }

  lemma ReadsParameters(d: Json, path: string, verb: string)
    requires WellFormed(d) && verb in VERBS && Operation(d, path, verb).Some?
    ensures AllWellFormed(Parameters(d, path, verb))
    ensures ParametersOf(SideOf(d, path, verb).value) == Keyed(Parameters(d, path, verb))
    ensures forall n :: 0 <= n < |Parameters(d, path, verb)| ==> Inside(Parameters(d, path, verb)[n], d)
  {
    ReadsOperation(d, path, verb);
    assert WellFormedOperation(Operation(d, path, verb));
    assert WellFormedParameters(Get(PathItem(d, path), "parameters"));
    var shared, own := Get(PathItem(d, path), "parameters"), Get(Operation(d, path, verb), "parameters");
    OperationInside(d, path, verb, "parameters");
    ItemsInside(shared, d);
    ItemsInside(own, d);
  }

  lemma ItemsInside(list: Option<Json>, d: Json)
    requires list.Some? ==> Inside(list.value, d)
    ensures forall n :: 0 <= n < |Items(list)| ==> Inside(Items(list)[n], d)
  {
    forall n | 0 <= n < |Items(list)| ensures Inside(Items(list)[n], d) {
      ItemRefs(list.value, n);
    }
  }

  /** One list has a parameter that the other keeps, in the terms of the gate's dictionaries. */
  lemma ParameterAgrees(a: Json, b: Json, path: string, verb: string, n: int)
    requires WellFormed(a) && WellFormed(b) && verb in VERBS && Operation(a, path, verb).Some? && Operation(b, path, verb).Some?
    requires Effective(Parameters(a, path, verb), n)
    ensures var p, next, following := Parameters(a, path, verb)[n], Parameters(b, path, verb), Keyed(Parameters(b, path, verb));
            && ParameterKey(p).Some? && following.Some?
            && var k := ParameterKey(p).value;
            (k in following.value && SameUnfoldings(p, a, following.value[k], b)) <==>
            (exists m :: Effective(next, m) && SameParameter(p, next[m]) && SameUnfoldings(p, a, next[m], b))
  {
    ReadsParameters(a, path, verb);
    ReadsParameters(b, path, verb);
    var p, next := Parameters(a, path, verb)[n], Parameters(b, path, verb);
    KeyedReads(next);
    KeysTellApart(p, p);
    var k, following := ParameterKey(p).value, Keyed(next).value;
    if k in following {
      var m := KeyedIsEffective(next, k);
      KeysTellApart(p, next[m]);
    }
    forall m | Effective(next, m) && SameParameter(p, next[m]) ensures k in following && following[k] == next[m] {
      KeysTellApart(p, next[m]);
      KeyedHoldsEffective(next, m);
    }
  }

  lemma ParameterExists(a: Json, b: Json, path: string, verb: string, k: ParamKey)
    requires WellFormed(a) && WellFormed(b) && verb in VERBS && Operation(a, path, verb).Some? && Operation(b, path, verb).Some?
    ensures var before, after := Keyed(Parameters(a, path, verb)), Keyed(Parameters(b, path, verb));
            && before.Some? && after.Some?
            && (k in before.value ==> ContractOf(before.value[k], a).Some? && ContractOf(ParamOrNull(after.value, k), b).Some?)
  {
    ReadsParameters(a, path, verb);
    ReadsParameters(b, path, verb);
    var ps, qs := Parameters(a, path, verb), Parameters(b, path, verb);
    KeyedReads(ps);
    KeyedReads(qs);
    if k in Keyed(ps).value {
      var n := KeyedIsEffective(ps, k);
      ContractExists(ps[n], a);
      if k in Keyed(qs).value {
        var m := KeyedIsEffective(qs, k);
        ContractExists(qs[m], b);
      } else {
        ContractExists(Null, b);
      }
    }
  }

  lemma ParametersExist(a: Json, b: Json, path: string, verb: string)
    requires WellFormed(a) && WellFormed(b) && verb in VERBS && Operation(a, path, verb).Some? && Operation(b, path, verb).Some?
    ensures !ParametersRaise(SideOf(a, path, verb).value, SideOf(b, path, verb).value)
  {
    ReadsOperation(a, path, verb);
    ReadsOperation(b, path, verb);
    ReadsParameters(a, path, verb);
    ReadsParameters(b, path, verb);
    var before, after := Parameters(a, path, verb), Parameters(b, path, verb);
    KeyedReads(before);
    KeyedReads(after);
    var x, y, prior, following := SideOf(a, path, verb).value, SideOf(b, path, verb).value, Keyed(before).value, Keyed(after).value;
    forall k | k in prior ensures !ParameterRaises(x, y, prior, following, k) {
      ParameterExists(a, b, path, verb, k);
    }
  }

  lemma ParametersAgree(a: Json, b: Json, path: string, verb: string)
    requires WellFormed(a) && WellFormed(b) && verb in VERBS && Operation(a, path, verb).Some? && Operation(b, path, verb).Some?
    ensures var before, after := Keyed(Parameters(a, path, verb)), Keyed(Parameters(b, path, verb));
            && before.Some? && after.Some?
            && ((forall k :: k in before.value ==> k in after.value && SameUnfoldings(before.value[k], a, after.value[k], b)) <==>
                ParametersKept(a, b, path, verb))
  {
    ReadsParameters(a, path, verb);
    ReadsParameters(b, path, verb);
    var ps, qs := Parameters(a, path, verb), Parameters(b, path, verb);
    KeyedReads(ps);
    KeyedReads(qs);
    var before, after := Keyed(ps).value, Keyed(qs).value;
    forall n | Effective(ps, n)
      ensures ParameterKey(ps[n]).Some? && ParameterKey(ps[n]).value in before && before[ParameterKey(ps[n]).value] == ps[n]
      ensures (ParameterKey(ps[n]).value in after && SameUnfoldings(ps[n], a, after[ParameterKey(ps[n]).value], b)) <==>
              (exists m :: Effective(qs, m) && SameParameter(ps[n], qs[m]) && SameUnfoldings(ps[n], a, qs[m], b))
    {
      ParameterAgrees(a, b, path, verb, n);
      KeyedHoldsEffective(ps, n);
    }
    forall k | k in before ensures exists n :: Effective(ps, n) && ParameterKey(ps[n]) == Some(k) && before[k] == ps[n] {
      var n := KeyedIsEffective(ps, k);
    }
  }

  lemma AdditionsAgree(a: Json, b: Json, path: string, verb: string)
    requires WellFormed(a) && WellFormed(b) && verb in VERBS && Operation(a, path, verb).Some? && Operation(b, path, verb).Some?
    ensures var before, after := Keyed(Parameters(a, path, verb)), Keyed(Parameters(b, path, verb));
            && before.Some? && after.Some?
            && ((forall k :: k in after.value && k !in before.value ==> !Demands(after.value[k])) <==> NoneDemanded(a, b, path, verb))
  {
    ReadsParameters(a, path, verb);
    ReadsParameters(b, path, verb);
    var ps, qs := Parameters(a, path, verb), Parameters(b, path, verb);
    KeyedReads(ps);
    KeyedReads(qs);
    var before, after := Keyed(ps).value, Keyed(qs).value;
    forall m | Effective(qs, m)
      ensures ParameterKey(qs[m]).Some? && ParameterKey(qs[m]).value in after && after[ParameterKey(qs[m]).value] == qs[m]
      ensures ParameterKey(qs[m]).value in before <==> exists n :: 0 <= n < |ps| && SameParameter(ps[n], qs[m])
      ensures Demands(qs[m]) <==> Truthy(OrNull(Get(Some(qs[m]), "required"))) || Get(Some(qs[m]), "$ref").Some?
    {
      KeyedHoldsEffective(qs, m);
      IsKnown(ps, qs[m]);
    }
    forall k | k in after ensures exists m :: Effective(qs, m) && ParameterKey(qs[m]) == Some(k) && after[k] == qs[m] {
      var m := KeyedIsEffective(qs, k);
    }
  }

  /** A parameter's key is in the dictionary exactly when the list has the parameter. */
  lemma {:induction false} IsKnown(ps: seq<Json>, q: Json)
    requires AllWellFormed(ps) && WellFormedParameter(q)
    ensures Keyed(ps).Some? && ParameterKey(q).Some?
    ensures ParameterKey(q).value in Keyed(ps).value <==> exists n :: 0 <= n < |ps| && SameParameter(ps[n], q)
  {
    KeyedReads(ps);
    KeysTellApart(q, q);
    if ps != [] {
      var last := |ps| - 1;
      IsKnown(ps[..last], q);
      KeysTellApart(ps[last], q);
      if ParameterKey(q).value in Keyed(ps).value {
        if !SameParameter(ps[last], q) {
          var n :| 0 <= n < last && SameParameter(ps[..last][n], q);
          assert SameParameter(ps[n], q);
        }
      }
      if n :| 0 <= n < |ps| && SameParameter(ps[n], q) {
        if n < last {
          assert SameParameter(ps[..last][n], q);
        }
      }
    }
  }

  // ---------------------------------------------------------------------
  // Responses
  // ---------------------------------------------------------------------

  lemma ReadsResponse(d: Json, path: string, verb: string, s: string)
    requires WellFormed(d) && verb in VERBS && Operation(d, path, verb).Some?
    ensures SideOf(d, path, verb).Some?
    ensures var x, responses := SideOf(d, path, verb).value, Get(Operation(d, path, verb), "responses");
            && ResponsesOf(x).Some? && (s in ResponsesOf(x).value <==> Get(responses, s).Some?)
            && Lookup(ResponsesOf(x).value, s) == OrNull(Get(responses, s))
            && ContractOf(Lookup(ResponsesOf(x).value, s), d).Some?
  {
    ReadsOperation(d, path, verb);
    assert WellFormedOperation(Operation(d, path, verb));
    OperationInside(d, path, verb, "responses");
    GetInside(Get(Operation(d, path, verb), "responses"), s, d);
    ContractExists(Lookup(ResponsesOf(SideOf(d, path, verb).value).value, s), d);
  }

  lemma ResponseAgrees(a: Json, b: Json, path: string, verb: string, s: string)
    requires WellFormed(a) && WellFormed(b) && verb in VERBS && Operation(a, path, verb).Some? && Operation(b, path, verb).Some?
    ensures SideOf(a, path, verb).Some? && SideOf(b, path, verb).Some?
    ensures var x, y := SideOf(a, path, verb).value, SideOf(b, path, verb).value;
            var prior, next := Get(Operation(a, path, verb), "responses"), Get(Operation(b, path, verb), "responses");
            && ResponsesOf(x).Some? && ResponsesOf(y).Some?
            && (s in ResponsesOf(x).value <==> Get(prior, s).Some?)
            && (s in ResponsesOf(x).value ==>
                  ResponsesOf(x).value[s] == Get(prior, s).value && !ResponseRaises(x, y, ResponsesOf(x).value, s))
            && Lookup(ResponsesOf(y).value, s) == OrNull(Get(next, s))
  {
    ReadsOperation(a, path, verb);
    ReadsOperation(b, path, verb);
    ReadsResponse(a, path, verb, s);
    ReadsResponse(b, path, verb, s);
  }

  lemma ResponsesAgree(a: Json, b: Json, path: string, verb: string)
    requires WellFormed(a) && WellFormed(b) && verb in VERBS && Operation(a, path, verb).Some? && Operation(b, path, verb).Some?
    ensures SideOf(a, path, verb).Some? && SideOf(b, path, verb).Some?
    ensures var x, y := SideOf(a, path, verb).value, SideOf(b, path, verb).value;
            && !ResponsesRaise(x, y) && ResponsesOf(x).Some? && ResponsesOf(y).Some?
            && ((forall s :: s in ResponsesOf(x).value ==>
                   SameUnfoldings(ResponsesOf(x).value[s], a, Lookup(ResponsesOf(y).value, s), b)) <==> ResponsesKept(a, b, path, verb))
  {
    ResponseAgrees(a, b, path, verb, "");
    var x, y := SideOf(a, path, verb).value, SideOf(b, path, verb).value;
    var prior, next := Get(Operation(a, path, verb), "responses"), Get(Operation(b, path, verb), "responses");
    forall s
      ensures s in ResponsesOf(x).value <==> Get(prior, s).Some?
      ensures s in ResponsesOf(x).value ==> ResponsesOf(x).value[s] == Get(prior, s).value && !ResponseRaises(x, y, ResponsesOf(x).value, s)
      ensures Lookup(ResponsesOf(y).value, s) == OrNull(Get(next, s))
    {
      ResponseAgrees(a, b, path, verb, s);
    }
  }

  // ---------------------------------------------------------------------
  // The gate is the definition
  // ---------------------------------------------------------------------

  lemma SidesExist(a: Json, b: Json, path: string, verb: string)
    requires WellFormed(a) && WellFormed(b) && verb in VERBS && Operation(a, path, verb).Some? && Operation(b, path, verb).Some?
    ensures SideOf(a, path, verb).Some? && SideOf(b, path, verb).Some?
    ensures !SidesRaise(SideOf(a, path, verb).value, SideOf(b, path, verb).value)
  {
    ReadsOperation(a, path, verb);
    ReadsOperation(b, path, verb);
    forall key ensures !KeyRaises(SideOf(a, path, verb).value, SideOf(b, path, verb).value, key) {
      FieldsAgree(a, b, path, verb, key);
    }
    AuthenticationAgrees(a, b, path, verb);
    ParametersExist(a, b, path, verb);
    ResponsesAgree(a, b, path, verb);
  }

  ghost predicate FieldsKeep(x: Side, y: Side)
    requires x.document.Obj? && y.document.Obj? && !SidesRaise(x, y)
  {
    && SameUnfoldings(Lookup(x.operation, "operationId"), x.document, Lookup(y.operation, "operationId"), y.document)
    && SameUnfoldings(Lookup(x.operation, "requestBody"), x.document, Lookup(y.operation, "requestBody"), y.document)
    && Security(x) == Security(y)
    && (forall n :: n in SchemeNames(Security(x)).value ==> SchemeOf(x.document, n) == SchemeOf(y.document, n))
  }

  ghost predicate ParametersKeep(x: Side, y: Side)
    requires x.document.Obj? && y.document.Obj? && !SidesRaise(x, y)
  {
    var prior, following := ParametersOf(x).value, ParametersOf(y).value;
    && (forall k :: k in prior ==> k in following && SameUnfoldings(prior[k], x.document, following[k], y.document))
    && (forall k :: k in following && k !in prior ==> !Demands(following[k]))
  }

  ghost predicate ResponsesKeep(x: Side, y: Side)
    requires x.document.Obj? && y.document.Obj? && !SidesRaise(x, y)
  {
    var responses := ResponsesOf(x).value;
    forall s :: s in responses ==> SameUnfoldings(responses[s], x.document, Lookup(ResponsesOf(y).value, s), y.document)
  }

  ghost predicate SidesKeep(x: Side, y: Side)
    requires x.document.Obj? && y.document.Obj? && !SidesRaise(x, y)
  {
    FieldsKeep(x, y) && ParametersKeep(x, y) && ResponsesKeep(x, y)
  }

  lemma KeptDifference(x: Side, y: Side, d: Difference)
    requires x.document.Obj? && y.document.Obj? && !SidesRaise(x, y) && SidesKeep(x, y)
    ensures Keeps(x, y, d)
  {
  }

  lemma FieldsKept(x: Side, y: Side)
    requires x.document.Obj? && y.document.Obj? && !SidesRaise(x, y) && forall d :: Keeps(x, y, d)
    ensures FieldsKeep(x, y)
  {
    assert Keeps(x, y, Changed("operationId")) && Keeps(x, y, Changed("requestBody")) && Keeps(x, y, Authentication);
    forall n | n in SchemeNames(Security(x)).value ensures SchemeOf(x.document, n) == SchemeOf(y.document, n) {
      assert Keeps(x, y, Scheme(n));
    }
  }

  lemma OthersKept(x: Side, y: Side)
    requires x.document.Obj? && y.document.Obj? && !SidesRaise(x, y) && forall d :: Keeps(x, y, d)
    ensures ParametersKeep(x, y) && ResponsesKeep(x, y)
  {
    var prior, following, responses := ParametersOf(x).value, ParametersOf(y).value, ResponsesOf(x).value;
    forall k | k in prior ensures k in following && SameUnfoldings(prior[k], x.document, following[k], y.document) {
      assert Keeps(x, y, Parameter(k));
    }
    forall k | k in following && k !in prior ensures !Demands(following[k]) {
      assert Keeps(x, y, Added(k));
    }
    forall s | s in responses ensures SameUnfoldings(responses[s], x.document, Lookup(ResponsesOf(y).value, s), y.document) {
      assert Keeps(x, y, Response(s));
    }
  }

  lemma KeepsEachDifference(x: Side, y: Side)
    requires x.document.Obj? && y.document.Obj? && !SidesRaise(x, y)
    ensures (forall d :: Keeps(x, y, d)) <==> SidesKeep(x, y)
  {
    if forall d :: Keeps(x, y, d) {
      FieldsKept(x, y);
      OthersKept(x, y);
    }
    if SidesKeep(x, y) {
      forall d ensures Keeps(x, y, d) {
        KeptDifference(x, y, d);
      }
    }
  }

  /** Everything kept in the terms of the gate is everything preserved in terms of the documents. */
  lemma KeptIsPreserved(a: Json, b: Json, path: string, verb: string)
    requires WellFormed(a) && WellFormed(b) && verb in VERBS && Operation(a, path, verb).Some? && Operation(b, path, verb).Some?
    ensures SideOf(a, path, verb).Some? && SideOf(b, path, verb).Some?
    ensures !SidesRaise(SideOf(a, path, verb).value, SideOf(b, path, verb).value)
    ensures SidesKeep(SideOf(a, path, verb).value, SideOf(b, path, verb).value) <==> Preserved(a, b, path, verb)
  {
    SidesExist(a, b, path, verb);
    ReadsOperation(a, path, verb);
    ReadsOperation(b, path, verb);
    ReadsParameters(a, path, verb);
    ReadsParameters(b, path, verb);
    FieldsAgree(a, b, path, verb, "operationId");
    FieldsAgree(a, b, path, verb, "requestBody");
    AuthenticationAgrees(a, b, path, verb);
    ParametersAgree(a, b, path, verb);
    AdditionsAgree(a, b, path, verb);
    ResponsesAgree(a, b, path, verb);
  }

  /**
   On well-formed documents the gate never raises, and it passes exactly when
   every operation of the old document is preserved in the new one.
   */
  lemma GateIsTheDefinition(a: Json, b: Json)
    requires WellFormed(a) && WellFormed(b)
    ensures !Raises(a, b)
    ensures Compatible(a, b) <==>
      forall path, verb :: verb in VERBS && Operation(a, path, verb).Some? ==> Preserved(a, b, path, verb)
  {
    ReadsOperation(a, "", "get");
    forall path ensures ItemOf(a, path).Some? {
      ReadsOperation(a, path, "get");
    }
    forall path, verb
      ensures Declares(a, path, verb) <==> verb in VERBS && Operation(a, path, verb).Some?
      ensures Declares(a, path, verb) ==> !OperationRaises(a, b, path, verb)
      ensures Declares(a, path, verb) ==>
        (StillThere(b, path, verb) && OperationPreserved(a, b, path, verb) <==> Preserved(a, b, path, verb))
    {
      OperationAgrees(a, b, path, verb);
    }
    CompatibleMeansPreserved(a, b);
  }

  lemma OperationAgrees(a: Json, b: Json, path: string, verb: string)
    requires WellFormed(a) && WellFormed(b)
    ensures Declares(a, path, verb) <==> verb in VERBS && Operation(a, path, verb).Some?
    ensures Declares(a, path, verb) ==> !OperationRaises(a, b, path, verb)
    ensures Declares(a, path, verb) ==>
      (StillThere(b, path, verb) && OperationPreserved(a, b, path, verb) <==> Preserved(a, b, path, verb))
  {
    ReadsOperation(a, path, verb);
    ReadsOperation(b, path, verb);
    if Declares(a, path, verb) && Operation(b, path, verb).Some? {
      assert WellFormedOperation(Operation(b, path, verb));
      KeptIsPreserved(a, b, path, verb);
      KeepsEachDifference(SideOf(a, path, verb).value, SideOf(b, path, verb).value);
    }
  }

  // ---------------------------------------------------------------------
  // Documents that are not well formed
  // ---------------------------------------------------------------------

  predicate ListOrObject(j: Json) {
    j.Arr? || j.Obj?
  }

  lemma NamesAreHashable(security: Json, requirement: Json, item: Json)
    requires SchemeNames(security).Some? && security.Arr? && requirement.Arr? && requirement in security.items && item in requirement.items
    ensures !ListOrObject(item)
  {
    var k :| 0 <= k < |security.items| && security.items[k] == requirement;
    var m :| 0 <= m < |requirement.items| && requirement.items[m] == item;
    assert requirement in Iterate(security).value && item in Iterate(requirement).value;
    assert item in SchemeNames(security).value;
  }

  /** What cannot be a key stops the script: in a requirement, as a reference, as a place or as a name. */
  lemma UnusableKeys(security: Json, requirement: Json, item: Json, parameter: Json)
    ensures security.Arr? && requirement.Arr? && requirement in security.items && item in requirement.items && ListOrObject(item) ==>
      SchemeNames(security) == None
    ensures parameter.Obj? && ListOrObject(OrNull(Get(Some(parameter), "$ref"))) && Truthy(OrNull(Get(Some(parameter), "$ref"))) ==>
      ParameterKey(parameter) == None
    ensures Get(Some(parameter), "$ref") == None
            && (ListOrObject(OrNull(Get(Some(parameter), "in"))) || ListOrObject(OrNull(Get(Some(parameter), "name")))) ==>
      ParameterKey(parameter) == None
  {
    if security.Arr? && requirement.Arr? && requirement in security.items && item in requirement.items && ListOrObject(item) {
      if SchemeNames(security).Some? {
        NamesAreHashable(security, requirement, item);
      }
    }
  }

  /** Lists of parameters are put together; of anything else only two empty texts can be, to no parameters. */
  lemma PutTogether(x: Json, y: Json)
    ensures Concatenated(x, y).Some? <==> (x.Arr? && y.Arr?) || (x == Str("") && y == Str(""))
    ensures x.Arr? && y.Arr? ==> Concatenated(x, y) == Some(x.items + y.items)
    ensures x == y == Str("") ==> Concatenated(x, y) == Some([])
  {
  }

  /** A scheme that some requirement names cannot be compared when either document keeps its schemes in anything but objects. */
  lemma UnreadableSchemes(x: Side, y: Side, name: Json)
    requires x.document.Obj? && y.document.Obj?
    requires SchemeNames(Security(x)).Some? && name in SchemeNames(Security(x)).value
    ensures !SchemesReadable(x.document) || !SchemesReadable(y.document) ==> SchemesRaise(x, y)
  {
    assert SchemeRaises(x, y, name) <==> !SchemesReadable(x.document) || !SchemesReadable(y.document);
  }

  predicate SchemesReadable(d: Json) {
    AbsentOrObject(Get(Some(d), "components")) && AbsentOrObject(Get(Get(Some(d), "components"), "securitySchemes"))
  }

  // ---------------------------------------------------------------------
  // References
  // ---------------------------------------------------------------------

  /** A reference to a component denotes what looking up its three keys finds, whatever characters they have. */
  lemma ReferenceFinds(d: Json, first: string, second: string, third: string)
    ensures JsonPointer.Resolve(Str("#" + JsonPointer.Pointer([first, second, third])), d) == Get(Get(Get(Some(d), first), second), third)
  {
    var keys := [first, second, third];
    JsonPointer.PointerDenotesPath(d, keys);
    assert keys[1..] == [second, third] && [second, third][1..] == [third] && [third][1..] == [];
    if d.Obj? && first in d.fields {
      var e := d.fields[first];
      assert JsonPointer.Walk(d, keys) == JsonPointer.Walk(e, [second, third]);
      if e.Obj? && second in e.fields {
        var f := e.fields[second];
        assert JsonPointer.Walk(e, [second, third]) == JsonPointer.Walk(f, [third]);
        assert f.Obj? && third in f.fields ==> JsonPointer.Walk(f, [third]) == JsonPointer.Walk(f.fields[third], []);
      }
    }
  }

  lemma ContractResolves(j: Json, d: Json, r: Json)
    requires ContractOf(j, d).Some? && r in RefsIn(j)
    ensures JsonPointer.Resolve(r, d).Some?
  {
    ReachedIsClosed(j, d);
    assert r in ReachedRefs(j, d);
  }

  lemma ResolvedIsLocal(r: Json, d: Json)
    requires JsonPointer.Resolve(r, d).Some?
    ensures r.Str? && |r.s| >= 2 && r.s[0] == '#' && r.s[1] == '/'
  {
    assert r.s[..2][0] == r.s[0] && r.s[..2][1] == r.s[1];
  }

  /** A value with a contract refers only into its own document, and to something: any other reference makes the script raise. */
  lemma ContractIsLocal(j: Json, d: Json, r: Json)
    requires ContractOf(j, d).Some? && r in RefsIn(j)
    ensures r.Str? && |r.s| >= 2 && r.s[0] == '#' && r.s[1] == '/' && JsonPointer.Resolve(r, d).Some?
  {
    ContractResolves(j, d, r);
    ResolvedIsLocal(r, d);
  }
}
