/**
 The audience export read off the document: which operations it holds, what a
 value needs by what occurs in it, and that the export needs nothing it lacks.
 */
module AudienceReference {
  import opened AudienceSchema
  import opened Json
  import opened Reachability
  import opened Wrappers

  // ---------------------------------------------------------------------
  // What occurs in a value, and what an occurrence asks for
  // ---------------------------------------------------------------------

  /** The objects in `j`, at any depth. */
  function Objects(j: Json): set<Json> {
    match j
    case Arr(items) => set i, o | 0 <= i < |items| && o in Objects(items[i]) :: o
    case Obj(fields) => {j} + set k, o | k in fields.Keys && o in Objects(fields[k]) :: o
    case _ => {}
  }

  predicate HasSlash(s: string) {
    exists k :: 0 <= k < |s| && s[k] == '/'
  }

  /** The object's reference is to the component `name` of `kind`. */
  predicate RefersTo(o: Json, kind: string, name: string) {
    && o.Obj? && !HasSlash(kind)
    && "$ref" in o.fields && o.fields["$ref"] == Str("#/components/" + kind + "/" + name)
  }

  /** A requirement of the object names the scheme: in an object, as a key; in a list or a text, as an item. */
  predicate Requires(o: Json, name: string) {
    && o.Obj? && "security" in o.fields
    && var list := Iterate(o.fields["security"]);
    && list.Some?
    && exists r :: r in list.value && Names(r).Some? && name in Names(r).value
  }

  predicate AsksFor(o: Json, kind: string, name: string) {
    RefersTo(o, kind, name) || (kind == "securitySchemes" && Requires(o, name))
  }

  lemma {:induction false} SlashIsFirst(kind: string, name: string)
    requires !HasSlash(kind)
    ensures FirstSlash(kind + "/" + name) == |kind|
    decreases kind
  {
    if kind != "" {
      assert kind[0] != '/' by {
        if kind[0] == '/' { assert HasSlash(kind); }
      }
      assert !HasSlash(kind[1..]) by {
        forall k | 0 <= k < |kind[1..]| ensures kind[1..][k] != '/' {
          assert kind[1..][k] == kind[k + 1];
        }
      }
      SlashIsFirst(kind[1..], name);
      assert (kind + "/" + name)[1..] == kind[1..] + "/" + name;
    }
  }

  lemma {:induction false} NoSlashBefore(s: string)
    ensures !HasSlash(s[..FirstSlash(s)])
    decreases s
  {
    if s != "" && s[0] != '/' {
      NoSlashBefore(s[1..]);
      var head := s[..FirstSlash(s)];
      forall k | 0 <= k < |head| ensures head[k] != '/' {
        if k > 0 {
          assert head[k] == s[1..][..FirstSlash(s[1..])][k - 1];
        }
      }
    }
  }

  /** Splitting a reference at its first slash finds what it was put together from. */
  lemma TargetIff(ref: string, kind: string, name: string)
    requires PREFIX <= ref
    ensures RefTarget(ref) == Some((kind, name)) <==> !HasSlash(kind) && ref == PREFIX + kind + "/" + name
  {
    var rest := ref[|PREFIX|..];
    assert ref == PREFIX + rest;
    if RefTarget(ref) == Some((kind, name)) {
      NoSlashBefore(rest);
      var i := FirstSlash(rest);
      assert rest == rest[..i] + [rest[i]] + rest[i + 1..];
      assert rest == kind + "/" + name;
      assert PREFIX + (kind + "/" + name) == PREFIX + kind + "/" + name;
    }
    if !HasSlash(kind) && ref == PREFIX + kind + "/" + name {
      assert ref == PREFIX + (kind + "/" + name);
      assert rest == kind + "/" + name;
      SlashIsFirst(kind, name);
      assert rest[..|kind|] == kind && rest[|kind| + 1..] == name;
    }
  }

  lemma RefNeedsAre(o: Json, kind: string, name: string)
    requires o.Obj?
    ensures Component(kind, name) in RefNeeds(o.fields) <==> RefersTo(o, kind, name)
  {
    var own := OwnRef(o.fields);
    assert PREFIX == "#/components/";
    if own.Str? && PREFIX <= own.s {
      TargetIff(own.s, kind, name);
      if RefTarget(own.s).Some? {
        TargetIff(own.s, RefTarget(own.s).value.0, RefTarget(own.s).value.1);
      }
    }
    if RefersTo(o, kind, name) {
      assert PREFIX <= PREFIX + kind + "/" + name;
    }
  }

  lemma SecurityNeedsAre(o: Json, kind: string, name: string)
    requires o.Obj?
    ensures Component(kind, name) in SecurityNeeds(o.fields) <==> kind == "securitySchemes" && Requires(o, name)
  {
    if "security" !in o.fields {
      assert Iterate(Arr([])).value == {};
    }
    if Component(kind, name) in SecurityNeeds(o.fields) {
      var r :| r in Iterate(OwnSecurity(o.fields)).value && Component(kind, name) in RequirementNeeds(r);
      assert Names(r).Some? && name in Names(r).value;
    }
    if kind == "securitySchemes" && Requires(o, name) {
      var r :| r in Iterate(o.fields["security"]).value && Names(r).Some? && name in Names(r).value;
      assert Component(kind, name) in RequirementNeeds(r);
    }
  }

  /** Some object in the value asks for the component. */
  predicate AskedIn(j: Json, kind: string, name: string) {
    exists o :: o in Objects(j) && AsksFor(o, kind, name)
  }

  lemma AskedInItems(items: seq<Json>, kind: string, name: string)
    ensures AskedIn(Arr(items), kind, name) <==> exists i :: 0 <= i < |items| && AskedIn(items[i], kind, name)
  {
    if AskedIn(Arr(items), kind, name) {
      var o :| o in Objects(Arr(items)) && AsksFor(o, kind, name);
      var i :| 0 <= i < |items| && o in Objects(items[i]);
      assert AskedIn(items[i], kind, name);
    }
    if i :| 0 <= i < |items| && AskedIn(items[i], kind, name) {
      var o :| o in Objects(items[i]) && AsksFor(o, kind, name);
      assert o in Objects(Arr(items));
    }
  }

  lemma AskedInFields(fields: map<string, Json>, kind: string, name: string)
    ensures AskedIn(Obj(fields), kind, name) <==>
      AsksFor(Obj(fields), kind, name) || exists k :: k in fields.Keys && AskedIn(fields[k], kind, name)
  {
    if AsksFor(Obj(fields), kind, name) {
      assert Obj(fields) in Objects(Obj(fields));
    }
    if AskedIn(Obj(fields), kind, name) && !AsksFor(Obj(fields), kind, name) {
      var o :| o in Objects(Obj(fields)) && AsksFor(o, kind, name);
      var k :| k in fields.Keys && o in Objects(fields[k]);
      assert AskedIn(fields[k], kind, name);
    }
    if k :| k in fields.Keys && AskedIn(fields[k], kind, name) {
      var o :| o in Objects(fields[k]) && AsksFor(o, kind, name);
      assert o in Objects(Obj(fields));
    }
  }

  lemma OwnNeedsAre(j: Json, kind: string, name: string)
    requires j.Obj?
    ensures Component(kind, name) in NeedsOf(j) <==>
      AsksFor(j, kind, name) || exists k :: k in j.fields.Keys && Component(kind, name) in NeedsOf(j.fields[k])
  {
    RefNeedsAre(j, kind, name);
    SecurityNeedsAre(j, kind, name);
  }

  /** A value needs a component exactly when an object in it asks for it. */
  lemma {:induction false} NeedsAre(j: Json, kind: string, name: string)
    ensures Component(kind, name) in NeedsOf(j) <==> AskedIn(j, kind, name)
    decreases j
  {
    match j
    case Arr(items) =>
      AskedInItems(items, kind, name);
      forall i | 0 <= i < |items| ensures Component(kind, name) in NeedsOf(items[i]) <==> AskedIn(items[i], kind, name) {
        NeedsAre(items[i], kind, name);
      }
    case Obj(fields) =>
      AskedInFields(fields, kind, name);
      OwnNeedsAre(j, kind, name);
      forall k | k in fields.Keys ensures Component(kind, name) in NeedsOf(fields[k]) <==> AskedIn(fields[k], kind, name) {
        NeedsAre(fields[k], kind, name);
      }
    case _ =>
  }

  // ---------------------------------------------------------------------
  // The export needs nothing it lacks, and lacks nothing it needs
  // ---------------------------------------------------------------------

  predicate Holds(e: Export, kind: string, name: string) {
    kind in e.components && name in e.components[kind]
  }

  /** What the export method promises of its result. */
  ghost predicate IsExport(schema: Json, audiences: set<string>, e: Export) {
    && KeptPaths(schema, audiences) == Some(e.paths)
    && (forall kind, name :: Holds(e, kind, name) <==> Needed(Obj(e.paths), schema, Component(kind, name)))
    && (forall kind, name :: Holds(e, kind, name) ==> ComponentAt(schema, kind, name) == Some(e.components[kind][name]))
  }

  lemma ComponentIsSelfContained(
      schema: Json, audiences: set<string>, e: Export, k: string, n: string, o: Json, kind: string, name: string)
    requires IsExport(schema, audiences, e) && Holds(e, k, n) && o in Objects(e.components[k][n]) && AsksFor(o, kind, name)
    ensures Holds(e, kind, name)
  {
    NeedsAre(e.components[k][n], kind, name);
    assert Component(kind, name) in Next(schema, Component(k, n));
    StepReachable(NeedsOf(Obj(e.paths)), Graph(schema), Component(k, n), Component(kind, name));
  }

  /** Every component that an exported operation or an exported component asks for is exported. */
  lemma ExportIsSelfContained(schema: Json, audiences: set<string>, e: Export, o: Json, kind: string, name: string)
    requires IsExport(schema, audiences, e) && AsksFor(o, kind, name)
    requires o in Objects(Obj(e.paths)) || exists k, n :: Holds(e, k, n) && o in Objects(e.components[k][n])
    ensures Holds(e, kind, name)
  {
    if o in Objects(Obj(e.paths)) {
      NeedsAre(Obj(e.paths), kind, name);
      StartReachable(NeedsOf(Obj(e.paths)), Graph(schema), Component(kind, name));
    } else {
      var k, n :| Holds(e, k, n) && o in Objects(e.components[k][n]);
      ComponentIsSelfContained(schema, audiences, e, k, n, o, kind, name);
    }
  }

  /** All that the components in `enough` ask for is in it. */
  ghost predicate Suffices(schema: Json, enough: set<(string, string)>) {
    forall c, o, k, n ::
      (c in enough && ComponentAt(schema, c.0, c.1).Some? && o in Objects(ComponentAt(schema, c.0, c.1).value) && AsksFor(o, k, n))
      ==> (k, n) in enough
  }

  /** Components that contain all they and the exported operations ask for contain every exported one: nothing is exported without need. */
  lemma NothingUnneeded(schema: Json, audiences: set<string>, e: Export, enough: set<(string, string)>, kind: string, name: string)
    requires IsExport(schema, audiences, e)
    requires forall o, k, n :: o in Objects(Obj(e.paths)) && AsksFor(o, k, n) ==> (k, n) in enough
    requires Suffices(schema, enough)
    ensures Holds(e, kind, name) ==> (kind, name) in enough
  {
    var all := AllNeeded(Obj(e.paths), schema);
    var needs := set n | n in all && (n.Component? ==> (n.kind, n.name) in enough);
    AllNeededIsClosed(Obj(e.paths), schema);
    forall n | n in NeedsOf(Obj(e.paths)) ensures n in needs {
      if n.Component? { NeedsAre(Obj(e.paths), n.kind, n.name); }
    }
    forall n | n in needs ensures Next(schema, n) <= needs {
      NextIsEnough(schema, n, all, enough);
    }
    AllNeededIsLeast(Obj(e.paths), schema, needs);
    AllNeededIsNeeded(Obj(e.paths), schema, Component(kind, name));
  }

  lemma NextIsEnough(schema: Json, n: Need, all: set<Need>, enough: set<(string, string)>)
    requires n in all && Closed(schema, all) && (n.Component? ==> (n.kind, n.name) in enough)
    requires Suffices(schema, enough)
    ensures forall m :: m in Next(schema, n) ==> m in all && (m.Component? ==> (m.kind, m.name) in enough)
  {
    forall m | m in Next(schema, n) ensures m.Component? ==> (m.kind, m.name) in enough {
      if m.Component? {
        var c := (n.kind, n.name);
        NeedsAre(ComponentAt(schema, c.0, c.1).value, m.kind, m.name);
      }
    }
  }

  /** The operation at a path and verb of a document. */
  function OperationAt(paths: map<string, Json>, path: string, verb: string): Option<Json> {
    if path in paths && paths[path].Obj? && verb in paths[path].fields then Some(paths[path].fields[verb]) else None
  }

  /** An operation is exported, unchanged, exactly when it is in the document and marked for one of the audiences. */
  lemma ExportedIffMarked(schema: Json, audiences: set<string>, e: Export, path: string, verb: string)
    requires IsExport(schema, audiences, e)
    ensures schema.Obj? && "paths" in schema.fields && schema.fields["paths"].Obj?
    ensures var there := OperationAt(schema.fields["paths"].fields, path, verb);
            OperationAt(e.paths, path, verb) ==
              if there.Some? && there.value.Obj? && "x-klyrow-audience" in there.value.fields
                 && there.value.fields["x-klyrow-audience"].Str? && there.value.fields["x-klyrow-audience"].s in audiences
              then there else None
  {
    ExportedOperations(schema, audiences, path, verb);
  }

  /** No path is exported empty. */
  lemma NoEmptyPath(schema: Json, audiences: set<string>, e: Export, path: string)
    requires IsExport(schema, audiences, e) && path in e.paths
    ensures exists verb :: OperationAt(e.paths, path, verb).Some?
  {
    var kept := e.paths[path].fields;
    assert kept != map[];
    var verb :| verb in kept;
    assert OperationAt(e.paths, path, verb).Some?;
  }

  /** Of the document's other entries the export keeps all but the internal ones and those it writes anew. */
  lemma RestIsPublic(fields: map<string, Json>, key: string)
    ensures key in Rest(fields) <==>
      key in fields && key != "info" && key != "paths" && key != "components" && (|key| < 9 || key[..9] != "x-klyrow-")
    ensures key in Rest(fields) ==> Rest(fields)[key] == fields[key]
  {
    assert |INTERNAL| == 9;
  }

  // ---------------------------------------------------------------------
  // When the script raises
  // ---------------------------------------------------------------------

  /** A reference that is no text, or one to a component that names no kind. */
  predicate BadRef(o: Json) {
    && o.Obj? && "$ref" in o.fields
    && var ref := o.fields["$ref"];
    !ref.Str? || ("#/components/" <= ref.s && !HasSlash(ref.s[|"#/components/"|..]))
  }

  /** A security entry that cannot be gone through, or whose requirements name something that is no text. */
  predicate BadSecurity(o: Json) {
    && o.Obj? && "security" in o.fields
    && var list := Iterate(o.fields["security"]);
    list.None? || exists r :: r in list.value && (Iterate(r).None? || exists n :: n in Iterate(r).value && !n.Str?)
  }

  lemma {:induction false} SlashIff(s: string)
    ensures FirstSlash(s) < |s| <==> HasSlash(s)
    decreases s
  {
    if s != "" && s[0] != '/' {
      SlashIff(s[1..]);
      if HasSlash(s) {
        var k :| 0 <= k < |s| && s[k] == '/';
        assert s[1..][k - 1] == '/';
      }
    }
  }

  lemma BadIff(o: Json)
    requires o.Obj?
    ensures RefMalformed(o.fields) || SecurityMalformed(o.fields) <==> BadRef(o) || BadSecurity(o)
  {
    var own := OwnRef(o.fields);
    assert PREFIX == "#/components/";
    if own.Str? && PREFIX <= own.s {
      SlashIff(own.s[|PREFIX|..]);
    }
    if "security" !in o.fields {
      assert Iterate(Arr([])).value == {};
    } else if Iterate(o.fields["security"]).Some? {
      forall r ensures Names(r).None? <==> Iterate(r).None? || exists n :: n in Iterate(r).value && !n.Str? {
      }
    }
  }

  /** A value is malformed exactly when an object in it is: with a bad reference or bad requirements. */
  lemma {:induction false} MalformedIff(j: Json)
    ensures Malformed(j) <==> exists o :: o in Objects(j) && (BadRef(o) || BadSecurity(o))
    decreases j
  {
    match j
    case Arr(items) =>
      forall i | 0 <= i < |items|
        ensures Malformed(items[i]) <==> exists o :: o in Objects(items[i]) && (BadRef(o) || BadSecurity(o))
      {
        MalformedIff(items[i]);
      }
    case Obj(fields) =>
      BadIff(j);
      forall k | k in fields.Keys
        ensures Malformed(fields[k]) <==> exists o :: o in Objects(fields[k]) && (BadRef(o) || BadSecurity(o))
      {
        MalformedIff(fields[k]);
      }
    case _ =>
  }

  /** The operations can be chosen exactly from a document whose paths hold objects, none of them marked with a list or an object. */
  lemma PathsReadIff(schema: Json, audiences: set<string>)
    ensures KeptPaths(schema, audiences).Some? <==>
      && schema.Obj? && "paths" in schema.fields && schema.fields["paths"].Obj?
      && forall p :: p in schema.fields["paths"].fields ==>
           && schema.fields["paths"].fields[p].Obj?
           && forall v :: v in schema.fields["paths"].fields[p].fields ==> !MarkedOddly(schema.fields["paths"].fields[p].fields[v])
  {
  }

  predicate MarkedOddly(operation: Json) {
    && operation.Obj? && "x-klyrow-audience" in operation.fields
    && (operation.fields["x-klyrow-audience"].Arr? || operation.fields["x-klyrow-audience"].Obj?)
  }
}
