/**
 `changes`: the compatibility relation between two OpenAPI documents. None
 stands for the exceptions the script raises on documents it cannot read.
 The list of failure messages is modelled as the set of failures.
 */
module ApiChanges {
  import opened Text
  import opened Wrappers
  import opened Json
  import opened Contract

  const METHODS := {"get", "post", "put", "patch", "delete", "options", "head", "trace"}

  const COMPARED_KEYS := {"operationId", "requestBody"}

  /** A parameter is identified by its reference, or else by location and name. */
  datatype ParamKey = ByRef(ref: Json) | ByName(location: Json, name: Json)

  datatype Difference =
    | Removed
    | Changed(key: string)
    | Authentication
    | Scheme(name: Json)
    | Parameter(param: ParamKey)
    | Added(param: ParamKey)
    | Response(status: string)

  datatype Failure = Failure(path: string, verb: string, difference: Difference)

  /** One operation, with the path item that holds it and the document that holds both. */
  datatype Side = Side(document: Json, item: map<string, Json>, operation: map<string, Json>)

  // ---------------------------------------------------------------------
  // Reading a document
  // ---------------------------------------------------------------------

  const EMPTY := Obj(map[])

  function PathsOf(document: Json): Option<map<string, Json>> {
    var paths :- Field(document, "paths", EMPTY);
    AsObject(paths)
  }

  function ItemOf(document: Json, path: string): Option<map<string, Json>> {
    var paths :- PathsOf(document);
    AsObject(if path in paths then paths[path] else EMPTY)
  }

  function Security(side: Side): Json
    requires side.document.Obj?
  {
    if "security" in side.operation then side.operation["security"]
    else if "security" in side.document.fields then side.document.fields["security"] else Arr([])
  }

  predicate Hashable(j: Json) {
    !j.Arr? && !j.Obj?
  }

  /** The scheme names of all requirements; None when a requirement or a name is unusable. */
  function SchemeNames(security: Json): Option<set<Json>> {
    var requirements :- Iterate(security);
    if exists r | r in requirements :: Iterate(r).None? then None
    else
      var names := set r, n | r in requirements && n in Iterate(r).value :: n;
      if exists n | n in names :: !Hashable(n) then None else Some(names)
  }

  function SchemeOf(document: Json, name: Json): Option<Json> {
    var components :- Field(document, "components", EMPTY);
    var schemes :- Field(components, "securitySchemes", EMPTY);
    var fields :- AsObject(schemes);
    Some(if name.Str? then Lookup(fields, name.s) else Null)
  }

  function ParameterKey(parameter: Json): Option<ParamKey> {
    var fields :- AsObject(parameter);
    var ref := Lookup(fields, "$ref");
    if Truthy(ref) then (if Hashable(ref) then Some(ByRef(ref)) else None)
    else if "in" !in fields || "name" !in fields then None
    else
      var location, name := fields["in"], fields["name"];
      if location == Str("header") then (if name.Str? then Some(ByName(location, Str(Lower(name.s)))) else None)
      else if Hashable(location) && Hashable(name) then Some(ByName(location, name)) else None
  }

  /** `a + b` for two parameter lists; two empty strings also pass. */
  function Concatenated(a: Json, b: Json): Option<seq<Json>> {
    if a.Arr? && b.Arr? then Some(a.items + b.items)
    else if a == Str("") && b == Str("") then Some([])
    else None
  }

  /** The dictionary built from a parameter list: for equal keys the last entry stays. */
  function Keyed(parameters: seq<Json>): Option<map<ParamKey, Json>> {
    if parameters == [] then Some(map[])
    else
      var last := |parameters| - 1;
      var earlier :- Keyed(parameters[..last]);
      var key :- ParameterKey(parameters[last]);
      Some(earlier[key := parameters[last]])
  }

  function ParametersOf(side: Side): Option<map<ParamKey, Json>> {
    var own := if "parameters" in side.operation then side.operation["parameters"] else Arr([]);
    var shared := if "parameters" in side.item then side.item["parameters"] else Arr([]);
    var all :- Concatenated(shared, own);
    Keyed(all)
  }

  function ResponsesOf(side: Side): Option<map<string, Json>> {
    AsObject(if "responses" in side.operation then side.operation["responses"] else EMPTY)
  }

  function ParamOrNull(parameters: map<ParamKey, Json>, key: ParamKey): Json {
    if key in parameters then parameters[key] else Null
  }

  /** An added parameter that old clients cannot know to be harmless. */
  predicate Demands(parameter: Json) {
    parameter.Obj? && (Truthy(Lookup(parameter.fields, "required")) || "$ref" in parameter.fields)
  }

  // ---------------------------------------------------------------------
  // The relation
  // ---------------------------------------------------------------------

  ghost predicate ContractsRaise(j: Json, d: Json, k: Json, e: Json) {
    ContractOf(j, d).None? || ContractOf(k, e).None?
  }

  ghost predicate KeyRaises(a: Side, b: Side, key: string) {
    ContractsRaise(Lookup(a.operation, key), a.document, Lookup(b.operation, key), b.document)
  }

  ghost predicate KeyDiffers(a: Side, b: Side, key: string) {
    ContractOf(Lookup(a.operation, key), a.document) != ContractOf(Lookup(b.operation, key), b.document)
  }

  predicate SchemeRaises(a: Side, b: Side, name: Json) {
    SchemeOf(a.document, name).None? || SchemeOf(b.document, name).None?
  }

  predicate SchemeDiffers(a: Side, b: Side, name: Json) {
    SchemeOf(a.document, name) != SchemeOf(b.document, name)
  }

  ghost predicate ParameterRaises(a: Side, b: Side, prior: map<ParamKey, Json>, following: map<ParamKey, Json>, key: ParamKey) {
    ContractsRaise(ParamOrNull(prior, key), a.document, ParamOrNull(following, key), b.document)
  }

  ghost predicate ParameterDiffers(a: Side, b: Side, prior: map<ParamKey, Json>, following: map<ParamKey, Json>, key: ParamKey) {
    ContractOf(ParamOrNull(prior, key), a.document) != ContractOf(ParamOrNull(following, key), b.document)
  }

  ghost predicate ResponseRaises(a: Side, b: Side, prior: map<string, Json>, status: string) {
    ResponsesOf(b).None? ||
    ContractsRaise(Lookup(prior, status), a.document, Lookup(ResponsesOf(b).value, status), b.document)
  }

  ghost predicate ResponseDiffers(a: Side, b: Side, prior: map<string, Json>, status: string) {
    ResponsesOf(b).Some? &&
    ContractOf(Lookup(prior, status), a.document) != ContractOf(Lookup(ResponsesOf(b).value, status), b.document)
  }

  ghost predicate KeysRaise(a: Side, b: Side) {
    exists key :: key in COMPARED_KEYS && KeyRaises(a, b, key)
  }

  ghost predicate SchemesRaise(a: Side, b: Side)
    requires a.document.Obj?
  {
    var names := SchemeNames(Security(a));
    names.None? || exists n :: n in names.value && SchemeRaises(a, b, n)
  }

  ghost predicate ParametersRaise(a: Side, b: Side) {
    var prior, following := ParametersOf(a), ParametersOf(b);
    prior.None? || following.None? || exists k :: k in prior.value && ParameterRaises(a, b, prior.value, following.value, k)
  }

  ghost predicate ResponsesRaise(a: Side, b: Side) {
    var prior := ResponsesOf(a);
    prior.None? || exists s :: s in prior.value && ResponseRaises(a, b, prior.value, s)
  }

  ghost predicate SidesRaise(a: Side, b: Side)
    requires a.document.Obj?
  {
    KeysRaise(a, b) || SchemesRaise(a, b) || ParametersRaise(a, b) || ResponsesRaise(a, b)
  }

  /** The differences reported between two versions of an operation. */
  ghost predicate Reported(a: Side, b: Side, difference: Difference)
    requires a.document.Obj? && b.document.Obj?
    requires SchemeNames(Security(a)).Some? && ParametersOf(a).Some? && ParametersOf(b).Some? && ResponsesOf(a).Some?
  {
    match difference
    case Removed => false
    case Changed(key) => key in COMPARED_KEYS && KeyDiffers(a, b, key)
    case Authentication => Security(a) != Security(b)
    case Scheme(name) => name in SchemeNames(Security(a)).value && SchemeDiffers(a, b, name)
    case Parameter(key) =>
      key in ParametersOf(a).value && ParameterDiffers(a, b, ParametersOf(a).value, ParametersOf(b).value, key)
    case Added(key) =>
      key in ParametersOf(b).value && key !in ParametersOf(a).value && Demands(ParametersOf(b).value[key])
    case Response(status) => status in ResponsesOf(a).value && ResponseDiffers(a, b, ResponsesOf(a).value, status)
  }

  /** The operations the old document has, null entries included. */
  predicate Declares(document: Json, path: string, verb: string) {
    && PathsOf(document).Some?
    && path in PathsOf(document).value
    && ItemOf(document, path).Some?
    && verb in ItemOf(document, path).value
    && verb in METHODS
  }

  function SideOf(document: Json, path: string, verb: string): Option<Side> {
    var item :- ItemOf(document, path);
    var operation :- AsObject(Lookup(item, verb));
    Some(Side(document, item, operation))
  }

  /** Comparing one operation of the old document raises. */
  ghost predicate OperationRaises(before: Json, after: Json, path: string, verb: string)
    requires Declares(before, path, verb)
  {
    var current := ItemOf(after, path);
    current.None? ||
    (Lookup(current.value, verb) != Null &&
      (SideOf(before, path, verb).None? || SideOf(after, path, verb).None? ||
       SidesRaise(SideOf(before, path, verb).value, SideOf(after, path, verb).value)))
  }

  ghost predicate Raises(before: Json, after: Json) {
    || PathsOf(before).None?
    || (exists path :: path in PathsOf(before).value && ItemOf(before, path).None?)
    || (exists path, verb :: Declares(before, path, verb) && OperationRaises(before, after, path, verb))
  }

  ghost predicate OperationFails(before: Json, after: Json, f: Failure)
    requires Declares(before, f.path, f.verb) && !OperationRaises(before, after, f.path, f.verb)
  {
    if Lookup(ItemOf(after, f.path).value, f.verb) == Null then f.difference == Removed
    else Reported(SideOf(before, f.path, f.verb).value, SideOf(after, f.path, f.verb).value, f.difference)
  }

  ghost predicate Fails(before: Json, after: Json, f: Failure)
    requires !Raises(before, after)
  {
    Declares(before, f.path, f.verb) && OperationFails(before, after, f)
  }

  /** The gate passes: nothing raised, nothing reported. */
  ghost predicate Compatible(before: Json, after: Json) {
    !Raises(before, after) && forall failure :: !Fails(before, after, failure)
  }

  // ---------------------------------------------------------------------
  // The script's loops
  // ---------------------------------------------------------------------

  method CompareKeys(a: Side, b: Side) returns (r: Option<set<Difference>>)
    ensures r.None? <==> KeysRaise(a, b)
    ensures r.Some? ==> forall d :: d in r.value <==> d.Changed? && d.key in COMPARED_KEYS && KeyDiffers(a, b, d.key)
  {
    var found: set<Difference> := {};
    var rest := COMPARED_KEYS;
    while rest != {}
      invariant rest <= COMPARED_KEYS
      invariant forall key :: key in COMPARED_KEYS - rest ==> !KeyRaises(a, b, key)
      invariant forall d :: d in found <==> d.Changed? && d.key in COMPARED_KEYS - rest && KeyDiffers(a, b, d.key)
      decreases rest
    {
      var key :| key in rest;
      var before := ComputeContract(Lookup(a.operation, key), a.document);
      var after := ComputeContract(Lookup(b.operation, key), b.document);
      if before.None? || after.None? {
        assert KeyRaises(a, b, key);
        return None;
      }
      if before != after {
        found := found + {Changed(key)};
      }
      rest := rest - {key};
    }
    return Some(found);
  }

  method CompareSchemes(a: Side, b: Side) returns (r: Option<set<Difference>>)
    requires a.document.Obj? && b.document.Obj?
    ensures r.None? <==> SchemesRaise(a, b)
    ensures r.Some? ==> forall d :: d in r.value <==>
      (d.Authentication? && Security(a) != Security(b)) ||
      (d.Scheme? && d.name in SchemeNames(Security(a)).value && SchemeDiffers(a, b, d.name))
  {
    var found: set<Difference> := if Security(a) != Security(b) then {Authentication} else {};
    var names := SchemeNames(Security(a));
    if names.None? {
      return None;
    }
    var rest := names.value;
    while rest != {}
      invariant rest <= names.value
      invariant forall n :: n in names.value - rest ==> !SchemeRaises(a, b, n)
      invariant forall d :: d in found <==>
        (d.Authentication? && Security(a) != Security(b)) || (d.Scheme? && d.name in names.value - rest && SchemeDiffers(a, b, d.name))
      decreases rest
    {
      var name :| name in rest;
      if SchemeRaises(a, b, name) {
        return None;
      }
      if SchemeDiffers(a, b, name) {
        found := found + {Scheme(name)};
      }
      rest := rest - {name};
    }
    return Some(found);
  }

  method CompareParameters(a: Side, b: Side) returns (r: Option<set<Difference>>)
    ensures r.None? <==> ParametersRaise(a, b)
    ensures r.Some? ==> forall d :: d in r.value <==>
      var prior, following := ParametersOf(a).value, ParametersOf(b).value;
      (d.Parameter? && d.param in prior && ParameterDiffers(a, b, prior, following, d.param)) ||
      (d.Added? && d.param in following && d.param !in prior && Demands(following[d.param]))
  {
    var before, after := ParametersOf(a), ParametersOf(b);
    if before.None? || after.None? {
      return None;
    }
    var prior, following := before.value, after.value;
    var changed: set<Difference> := {};
    var rest := prior.Keys;
    while rest != {}
      invariant rest <= prior.Keys
      invariant forall k :: k in prior.Keys - rest ==> !ParameterRaises(a, b, prior, following, k)
      invariant forall d :: d in changed <==>
        d.Parameter? && d.param in prior.Keys - rest && ParameterDiffers(a, b, prior, following, d.param)
      decreases rest
    {
      var key :| key in rest;
      var x := ComputeContract(prior[key], a.document);
      var y := ComputeContract(ParamOrNull(following, key), b.document);
      if x.None? || y.None? {
        assert ParameterRaises(a, b, prior, following, key);
        return None;
      }
      if x != y {
        changed := changed + {Parameter(key)};
      }
      rest := rest - {key};
    }
    var added := set key | key in following && key !in prior && Demands(following[key]) :: Added(key);
    return Some(changed + added);
  }

  method CompareResponses(a: Side, b: Side) returns (r: Option<set<Difference>>)
    ensures r.None? <==> ResponsesRaise(a, b)
    ensures r.Some? ==> forall d :: d in r.value <==>
      d.Response? && d.status in ResponsesOf(a).value && ResponseDiffers(a, b, ResponsesOf(a).value, d.status)
  {
    var before, after := ResponsesOf(a), ResponsesOf(b);
    if before.None? {
      return None;
    }
    var found: set<Difference> := {};
    var rest := before.value.Keys;
    while rest != {}
      invariant rest <= before.value.Keys
      invariant forall s :: s in before.value.Keys - rest ==> !ResponseRaises(a, b, before.value, s)
      invariant forall d :: d in found <==>
        d.Response? && d.status in before.value.Keys - rest && ResponseDiffers(a, b, before.value, d.status)
      decreases rest
    {
      var status :| status in rest;
      var x := ComputeContract(before.value[status], a.document);
      if x.None? || after.None? {
        assert ResponseRaises(a, b, before.value, status);
        return None;
      }
      var y := ComputeContract(Lookup(after.value, status), b.document);
      if y.None? {
        assert ResponseRaises(a, b, before.value, status);
        return None;
      }
      if x != y {
        found := found + {Response(status)};
      }
      rest := rest - {status};
    }
    return Some(found);
  }

  method CompareOperation(a: Side, b: Side) returns (r: Option<set<Difference>>)
    requires a.document.Obj? && b.document.Obj?
    ensures r.None? <==> SidesRaise(a, b)
    ensures r.Some? ==> forall d :: d in r.value <==> Reported(a, b, d)
  {
    var keys := CompareKeys(a, b);
    var schemes := CompareSchemes(a, b);
    var parameters := CompareParameters(a, b);
    var responses := CompareResponses(a, b);
    if keys.None? || schemes.None? || parameters.None? || responses.None? {
      return None;
    }
    return Some(keys.value + schemes.value + parameters.value + responses.value);
  }

  /** All failures of one operation of the old document. */
  method CheckOperation(before: Json, after: Json, path: string, verb: string) returns (r: Option<set<Failure>>)
    requires Declares(before, path, verb)
    ensures r.None? <==> OperationRaises(before, after, path, verb)
    ensures r.Some? ==> forall f :: f in r.value <==>
      f.path == path && f.verb == verb && OperationFails(before, after, f)
  {
    var current := ItemOf(after, path);
    if current.None? {
      return None;
    }
    if Lookup(current.value, verb) == Null {
      return Some({Failure(path, verb, Removed)});
    }
    var a, b := SideOf(before, path, verb), SideOf(after, path, verb);
    if a.None? || b.None? {
      return None;
    }
    var differences := CompareOperation(a.value, b.value);
    if differences.None? {
      return None;
    }
    return Some(set d | d in differences.value :: Failure(path, verb, d));
  }

  method CheckItem(before: Json, after: Json, path: string) returns (r: Option<set<Failure>>)
    requires PathsOf(before).Some? && path in PathsOf(before).value
    ensures r.None? <==>
      (ItemOf(before, path).None? || exists verb :: Declares(before, path, verb) && OperationRaises(before, after, path, verb))
    ensures r.Some? ==> forall f :: f in r.value <==>
      f.path == path && Declares(before, path, f.verb) && OperationFails(before, after, f)
  {
    var item := ItemOf(before, path);
    if item.None? {
      return None;
    }
    var found: set<Failure> := {};
    var verbs := set v | v in item.value && v in METHODS;
    var rest := verbs;
    while rest != {}
      invariant rest <= verbs
      invariant forall v :: v in verbs - rest ==> !OperationRaises(before, after, path, v)
      invariant forall f :: f in found <==> f.path == path && f.verb in verbs - rest && OperationFails(before, after, f)
      decreases rest
    {
      var verb :| verb in rest;
      var failures := CheckOperation(before, after, path, verb);
      if failures.None? {
        return None;
      }
      found := found + failures.value;
      rest := rest - {verb};
    }
    assert forall v :: Declares(before, path, v) ==> v in verbs;
    return Some(found);
  }

  /** The whole comparison: raises exactly when `Raises`, and reports exactly the failures. */
  method Changes(before: Json, after: Json) returns (r: Option<set<Failure>>)
    ensures r.None? <==> Raises(before, after)
    ensures r.Some? ==> forall f :: f in r.value <==> Fails(before, after, f)
  {
    var paths := PathsOf(before);
    if paths.None? {
      return None;
    }
    var found: set<Failure> := {};
    var rest := paths.value.Keys;
    while rest != {}
      invariant rest <= paths.value.Keys
      invariant forall p :: p in paths.value.Keys - rest ==>
        ItemOf(before, p).Some? && forall v :: Declares(before, p, v) ==> !OperationRaises(before, after, p, v)
      invariant forall f :: f in found <==>
        f.path in paths.value.Keys - rest && Declares(before, f.path, f.verb) && OperationFails(before, after, f)
      decreases rest
    {
      var path :| path in rest;
      var failures := CheckItem(before, after, path);
      if failures.None? {
        return None;
      }
      found := found + failures.value;
      rest := rest - {path};
    }
    return Some(found);
  }
}
