/**
 `audience_schema`: the part of the API document one audience gets to see. Its
 operations are the ones marked for the audience, its components the ones those
 operations need, directly or through other components. None stands for the
 exceptions the script raises.
 */
module AudienceSchema {
  import opened Wrappers
  import opened Json
  import opened Reachability

  const EMPTY := Obj(map[])
  const PREFIX := "#/components/"

  // ---------------------------------------------------------------------
  // Operations
  // ---------------------------------------------------------------------

  predicate ForAudience(operation: Json, audiences: set<string>) {
    && operation.Obj?
    && var mark := Lookup(operation.fields, "x-klyrow-audience");
    && mark.Str? && mark.s in audiences
  }

  /** A mark that cannot be looked up in a set of audiences. */
  predicate BadMark(operation: Json) {
    && operation.Obj?
    && var mark := Lookup(operation.fields, "x-klyrow-audience");
    && (mark.Arr? || mark.Obj?)
  }

  function KeptOperations(item: map<string, Json>, audiences: set<string>): map<string, Json> {
    map verb | verb in item && ForAudience(item[verb], audiences) :: item[verb]
  }

  function KeptPaths(schema: Json, audiences: set<string>): Option<map<string, Json>> {
    var fields :- AsObject(schema);
    if "paths" !in fields || !fields["paths"].Obj? then None
    else
      var paths := fields["paths"].fields;
      if exists p | p in paths :: !paths[p].Obj? || exists v | v in paths[p].fields :: BadMark(paths[p].fields[v]) then None
      else Some(map p | p in paths && KeptOperations(paths[p].fields, audiences) != map[] ::
                  Obj(KeptOperations(paths[p].fields, audiences)))
  }

  // ---------------------------------------------------------------------
  // What a value needs
  // ---------------------------------------------------------------------

  /** An entry of the `needed` dictionary: a kind, or a name under a kind. */
  datatype Need = Kind(kind: string) | Component(kind: string, name: string)

  function FirstSlash(s: string): (i: nat)
    ensures i <= |s| && (i < |s| ==> s[i] == '/')
  {
    if s == "" || s[0] == '/' then 0 else 1 + FirstSlash(s[1..])
  }

  predicate IsComponentRef(ref: Json) {
    ref.Str? && PREFIX <= ref.s
  }

  /** Kind and name of a component reference; None when a part is missing. */
  function RefTarget(ref: string): Option<(string, string)>
    requires PREFIX <= ref
  {
    var rest := ref[|PREFIX|..];
    var i := FirstSlash(rest);
    if i == |rest| then None else Some((rest[..i], rest[i + 1..]))
  }

  /** The names `set.update(requirement)` adds. */
  function Names(requirement: Json): Option<set<string>> {
    var items :- Iterate(requirement);
    if exists i | i in items :: !i.Str? then None else Some(set i | i in items :: i.s)
  }

  function OwnRef(fields: map<string, Json>): Json {
    if "$ref" in fields then fields["$ref"] else Str("")
  }

  function OwnSecurity(fields: map<string, Json>): Json {
    if "security" in fields then fields["security"] else Arr([])
  }

  predicate RefMalformed(fields: map<string, Json>) {
    !OwnRef(fields).Str? || (IsComponentRef(OwnRef(fields)) && RefTarget(OwnRef(fields).s).None?)
  }

  predicate SecurityMalformed(fields: map<string, Json>) {
    var requirements := Iterate(OwnSecurity(fields));
    requirements.None? || exists r | r in requirements.value :: Names(r).None?
  }

  function RefNeeds(fields: map<string, Json>): set<Need> {
    if IsComponentRef(OwnRef(fields)) && RefTarget(OwnRef(fields).s).Some? then
      var (kind, name) := RefTarget(OwnRef(fields).s).value;
      {Kind(kind), Component(kind, name)}
    else {}
  }

  function RequirementNeeds(requirement: Json): set<Need> {
    {Kind("securitySchemes")} +
    if Names(requirement).Some? then set n | n in Names(requirement).value :: Component("securitySchemes", n) else {}
  }

  function RequirementsNeeds(requirements: set<Json>): set<Need> {
    set r, n | r in requirements && n in RequirementNeeds(r) :: n
  }

  function SecurityNeeds(fields: map<string, Json>): set<Need> {
    var requirements := Iterate(OwnSecurity(fields));
    if requirements.None? then {} else RequirementsNeeds(requirements.value)
  }

  function NeedsOf(j: Json): set<Need> {
    match j
    case Arr(items) => set i, n | 0 <= i < |items| && n in NeedsOf(items[i]) :: n
    case Obj(fields) => RefNeeds(fields) + SecurityNeeds(fields) + set k, n | k in fields.Keys && n in NeedsOf(fields[k]) :: n
    case _ => {}
  }

  predicate Malformed(j: Json) {
    match j
    case Arr(items) => exists i | 0 <= i < |items| :: Malformed(items[i])
    case Obj(fields) => RefMalformed(fields) || SecurityMalformed(fields) || exists k | k in fields.Keys :: Malformed(fields[k])
    case _ => false
  }

  // ---------------------------------------------------------------------
  // The components that are needed
  // ---------------------------------------------------------------------

  function ComponentAt(schema: Json, kind: string, name: string): Option<Json> {
    var components :- Field(schema, "components", EMPTY);
    var kinds :- AsObject(components);
    if kind in kinds && kinds[kind].Obj? && name in kinds[kind].fields then Some(kinds[kind].fields[name]) else None
  }

  function Next(schema: Json, need: Need): set<Need> {
    match need
    case Kind(_) => {}
    case Component(kind, name) =>
      var component := ComponentAt(schema, kind, name);
      if component.Some? then NeedsOf(component.value) else {}
  }

  ghost function Graph(schema: Json): Need -> set<Need> {
    need => Next(schema, need)
  }

  ghost predicate Needed(paths: Json, schema: Json, need: Need) {
    Reachable(NeedsOf(paths), Graph(schema), need)
  }

  /** A component that is needed but missing or malformed. */
  predicate Unusable(schema: Json, need: Need) {
    need.Component? &&
    var component := ComponentAt(schema, need.kind, need.name);
    component.None? || Malformed(component.value)
  }

  ghost predicate Fails(paths: Json, schema: Json) {
    Malformed(paths) || exists need :: Needed(paths, schema, need) && Unusable(schema, need)
  }

  function Entries(needed: map<string, set<string>>): set<Need> {
    (set k | k in needed :: Kind(k)) + set k, n | k in needed && n in needed[k] :: Component(k, n)
  }

  lemma ComponentNeeds(schema: Json, kind: string, name: string)
    requires ComponentAt(schema, kind, name).Some?
    ensures NeedsOf(ComponentAt(schema, kind, name).value) <= NeedsOf(schema)
  {
    var components := Field(schema, "components", EMPTY).value;
    FieldNeeds(components.fields[kind], name);
    FieldNeeds(components, kind);
    if "components" in schema.fields {
      FieldNeeds(schema, "components");
    }
  }

  lemma FieldNeeds(j: Json, key: string)
    requires j.Obj? && key in j.fields
    ensures NeedsOf(j.fields[key]) <= NeedsOf(j)
  {
  }

  // Partial results of the loops in `discover`

  function FieldsNeeds(fields: map<string, Json>, done: set<string>): set<Need> {
    set k, n | k in done && k in fields && n in NeedsOf(fields[k]) :: n
  }

  function ItemsNeeds(items: seq<Json>, count: nat): set<Need>
    requires count <= |items|
  {
    set i, n | 0 <= i < count && n in NeedsOf(items[i]) :: n
  }

  lemma FieldsNeedsStep(fields: map<string, Json>, done: set<string>, key: string)
    requires key in fields
    ensures FieldsNeeds(fields, done + {key}) == FieldsNeeds(fields, done) + NeedsOf(fields[key])
  {
  }

  lemma ItemsNeedsStep(items: seq<Json>, i: nat)
    requires i < |items|
    ensures ItemsNeeds(items, i + 1) == ItemsNeeds(items, i) + NeedsOf(items[i])
  {
  }

  lemma RequirementsNeedsStep(done: set<Json>, requirement: Json)
    ensures RequirementsNeeds(done + {requirement}) == RequirementsNeeds(done) + RequirementNeeds(requirement)
  {
  }

  lemma NeedsOfParts(j: Json)
    ensures j.Obj? ==> NeedsOf(j) == RefNeeds(j.fields) + SecurityNeeds(j.fields) + FieldsNeeds(j.fields, j.fields.Keys)
    ensures j.Arr? ==> NeedsOf(j) == ItemsNeeds(j.items, |j.items|)
  {
  }

  lemma EntriesAdded(before: map<string, set<string>>, kind: string, names: set<string>)
    ensures var after := before[kind := (if kind in before then before[kind] else {}) + names];
            Entries(after) == Entries(before) + {Kind(kind)} + set n | n in names :: Component(kind, n)
  {
    var after := before[kind := (if kind in before then before[kind] else {}) + names];
    forall e ensures e in Entries(after) <==> e in Entries(before) + {Kind(kind)} + set n | n in names :: Component(kind, n) {
    }
  }

  /** The nested function `discover` with the dictionary it fills; `entries` is its contents. */
  class Discovery {
    var needed: map<string, set<string>>
    ghost var entries: set<Need>

    constructor ()
      ensures needed == map[] && entries == {}
    {
      needed, entries := map[], {};
    }

    /** `needed.setdefault(kind, set()).update(names)` */
    method Add(kind: string, names: set<string>)
      requires entries == Entries(needed)
      modifies this
      ensures entries == Entries(needed)
      ensures entries == old(entries) + {Kind(kind)} + set n | n in names :: Component(kind, n)
    {
      EntriesAdded(needed, kind, names);
      needed := needed[kind := (if kind in needed then needed[kind] else {}) + names];
      entries := Entries(needed);
    }

    /** Adds exactly what the value needs, unless the value is malformed. */
    method Discover(j: Json) returns (ok: bool)
      requires entries == Entries(needed)
      modifies this
      ensures entries == Entries(needed)
      ensures ok <==> !Malformed(j)
      ensures ok ==> entries == old(entries) + NeedsOf(j)
      decreases j, 1
    {
      NeedsOfParts(j);
      if j.Obj? {
        ok := DiscoverReference(j.fields);
        if ok {
          ok := DiscoverSecurity(j.fields);
        }
        if ok {
          ok := DiscoverFields(j);
        }
      } else if j.Arr? {
        ok := DiscoverItems(j);
      } else {
        ok := true;
      }
    }

    method DiscoverReference(fields: map<string, Json>) returns (ok: bool)
      requires entries == Entries(needed)
      modifies this
      ensures entries == Entries(needed)
      ensures ok <==> !RefMalformed(fields)
      ensures ok ==> entries == old(entries) + RefNeeds(fields)
    {
      var ref := OwnRef(fields);
      if !ref.Str? {
        return false;
      }
      if IsComponentRef(ref) {
        var target := RefTarget(ref.s);
        if target.None? {
          return false;
        }
        var (kind, name) := target.value;
        Add(kind, {name});
        assert (set n | n in {name} :: Component(kind, n)) == {Component(kind, name)};
      }
      return true;
    }

    method AddRequirement(requirement: Json) returns (ok: bool)
      requires entries == Entries(needed)
      modifies this
      ensures entries == Entries(needed)
      ensures ok <==> Names(requirement).Some?
      ensures ok ==> entries == old(entries) + RequirementNeeds(requirement)
    {
      var names := Names(requirement);
      if names.None? {
        return false;
      }
      Add("securitySchemes", names.value);
      return true;
    }

    method DiscoverSecurity(fields: map<string, Json>) returns (ok: bool)
      requires entries == Entries(needed)
      modifies this
      ensures entries == Entries(needed)
      ensures ok <==> !SecurityMalformed(fields)
      ensures ok ==> entries == old(entries) + SecurityNeeds(fields)
    {
      var requirements := Iterate(OwnSecurity(fields));
      if requirements.None? {
        return false;
      }
      var rest := requirements.value;
      while rest != {}
        invariant rest <= requirements.value && entries == Entries(needed)
        invariant forall r :: r in requirements.value - rest ==> Names(r).Some?
        invariant entries == old(entries) + RequirementsNeeds(requirements.value - rest)
        decreases rest
      {
        var requirement :| requirement in rest;
        ok := AddRequirement(requirement);
        if !ok {
          return;
        }
        RequirementsNeedsStep(requirements.value - rest, requirement);
        rest := rest - {requirement};
        assert requirements.value - rest == requirements.value - (rest + {requirement}) + {requirement};
      }
      return true;
    }

    method DiscoverFields(j: Json) returns (ok: bool)
      requires j.Obj? && entries == Entries(needed)
      modifies this
      ensures entries == Entries(needed)
      ensures ok <==> forall k :: k in j.fields ==> !Malformed(j.fields[k])
      ensures ok ==> entries == old(entries) + FieldsNeeds(j.fields, j.fields.Keys)
      decreases j, 0
    {
      var rest := j.fields.Keys;
      while rest != {}
        invariant rest <= j.fields.Keys && entries == Entries(needed)
        invariant forall k :: k in j.fields.Keys - rest ==> !Malformed(j.fields[k])
        invariant entries == old(entries) + FieldsNeeds(j.fields, j.fields.Keys - rest)
        decreases rest
      {
        var key :| key in rest;
        ok := Discover(j.fields[key]);
        if !ok {
          return;
        }
        FieldsNeedsStep(j.fields, j.fields.Keys - rest, key);
        rest := rest - {key};
        assert j.fields.Keys - rest == j.fields.Keys - (rest + {key}) + {key};
      }
      return true;
    }

    method DiscoverItems(j: Json) returns (ok: bool)
      requires j.Arr? && entries == Entries(needed)
      modifies this
      ensures entries == Entries(needed)
      ensures ok <==> forall i :: 0 <= i < |j.items| ==> !Malformed(j.items[i])
      ensures ok ==> entries == old(entries) + ItemsNeeds(j.items, |j.items|)
      decreases j, 0
    {
      assert ItemsNeeds(j.items, 0) == {};
      for i := 0 to |j.items|
        invariant entries == Entries(needed)
        invariant forall k :: 0 <= k < i ==> !Malformed(j.items[k])
        invariant entries == old(entries) + ItemsNeeds(j.items, i)
      {
        ghost var before := entries;
        ok := Discover(j.items[i]);
        if !ok {
          assert Malformed(j.items[i]);
          return;
        }
        assert entries == before + NeedsOf(j.items[i]);
        ItemsNeedsStep(j.items, i);
        assert entries == old(entries) + (ItemsNeeds(j.items, i) + NeedsOf(j.items[i]));
      }
      return true;
    }
  }

  // ---------------------------------------------------------------------
  // The loop to a fixpoint
  // ---------------------------------------------------------------------

  /** All that is needed, as a finite set; the bound leaves nothing out. */
  ghost function AllNeeded(paths: Json, schema: Json): set<Need> {
    set n | n in NeedsOf(paths) + NeedsOf(schema) && Needed(paths, schema, n)
  }

  lemma NextInSchema(schema: Json, need: Need)
    ensures Next(schema, need) <= NeedsOf(schema)
  {
    if need.Component? && ComponentAt(schema, need.kind, need.name).Some? {
      ComponentNeeds(schema, need.kind, need.name);
    }
  }

  lemma AllNeededIsNeeded(paths: Json, schema: Json, need: Need)
    ensures need in AllNeeded(paths, schema) <==> Needed(paths, schema, need)
  {
    var all := NeedsOf(paths) + NeedsOf(schema);
    forall n | n in all ensures Graph(schema)(n) <= all {
      NextInSchema(schema, n);
    }
    if Needed(paths, schema, need) {
      ClosedContainsReachable(NeedsOf(paths), Graph(schema), all, need);
    }
  }

  ghost predicate Closed(schema: Json, needs: set<Need>) {
    forall n :: n in needs ==> Next(schema, n) <= needs
  }

  lemma AllNeededIsClosed(paths: Json, schema: Json)
    ensures NeedsOf(paths) <= AllNeeded(paths, schema) && Closed(schema, AllNeeded(paths, schema))
  {
    forall n | n in NeedsOf(paths) ensures n in AllNeeded(paths, schema) {
      StartReachable(NeedsOf(paths), Graph(schema), n);
    }
    forall n | n in AllNeeded(paths, schema) ensures Next(schema, n) <= AllNeeded(paths, schema) {
      forall m | m in Next(schema, n) ensures m in AllNeeded(paths, schema) {
        StepReachable(NeedsOf(paths), Graph(schema), n, m);
        AllNeededIsNeeded(paths, schema, m);
      }
    }
  }

  /** Least: any closed collection that holds the start holds all that is needed. */
  lemma AllNeededIsLeast(paths: Json, schema: Json, needs: set<Need>)
    requires NeedsOf(paths) <= needs && Closed(schema, needs)
    ensures AllNeeded(paths, schema) <= needs
  {
    forall n | n in AllNeeded(paths, schema) ensures n in needs {
      assert forall m :: m in needs ==> Graph(schema)(m) <= needs;
      ClosedContainsReachable(NeedsOf(paths), Graph(schema), needs, n);
    }
  }

  method DiscoverComponent(d: Discovery, schema: Json, need: Need) returns (ok: bool)
    requires d.entries == Entries(d.needed)
    modifies d
    ensures d.entries == Entries(d.needed)
    ensures ok <==> !Unusable(schema, need)
    ensures ok ==> d.entries == old(d.entries) + Next(schema, need)
  {
    if need.Kind? {
      return true;
    }
    var component := ComponentAt(schema, need.kind, need.name);
    if component.None? {
      return false;
    }
    ok := d.Discover(component.value);
  }

  ghost predicate Visited(schema: Json, done: set<Need>, entries: set<Need>) {
    forall n :: n in done ==> !Unusable(schema, n) && Next(schema, n) <= entries
  }

  /** One pass of the loop: every component needed so far is discovered. */
  method DiscoverComponents(d: Discovery, schema: Json, ghost reach: set<Need>) returns (ok: bool)
    requires d.entries == Entries(d.needed) && d.entries <= reach && Closed(schema, reach)
    modifies d
    ensures d.entries == Entries(d.needed)
    ensures if ok then old(d.entries) <= d.entries <= reach && Visited(schema, old(d.entries), d.entries)
            else exists n :: n in reach && Unusable(schema, n)
  {
    ghost var before := d.entries;
    var todo := Entries(d.needed);
    while todo != {}
      invariant todo <= before && before <= d.entries && d.entries == Entries(d.needed) && d.entries <= reach
      invariant Visited(schema, before - todo, d.entries)
      decreases todo
    {
      var need :| need in todo;
      ok := DiscoverComponent(d, schema, need);
      if !ok {
        return;
      }
      todo := todo - {need};
    }
    return true;
  }

  /** The `while True` loop: it ends because each further pass finds something new. */
  method Saturate(d: Discovery, schema: Json, ghost reach: set<Need>) returns (ok: bool)
    requires d.entries == Entries(d.needed) && d.entries <= reach && Closed(schema, reach)
    modifies d
    ensures d.entries == Entries(d.needed)
    ensures if ok then old(d.entries) <= d.entries <= reach && Visited(schema, d.entries, d.entries)
            else exists n :: n in reach && Unusable(schema, n)
  {
    while true
      invariant d.entries == Entries(d.needed) && old(d.entries) <= d.entries <= reach
      decreases |reach| - |d.entries|
    {
      var before := d.needed;
      ghost var entries := d.entries;
      ok := DiscoverComponents(d, schema, reach);
      if !ok {
        return;
      }
      if before == d.needed {
        return;
      }
      DifferentEntries(before, d.needed);
      SmallerSet(entries, d.entries);
      SmallerSet(d.entries, reach);
    }
  }

  /**
   The components an audience needs: None exactly when something needed is
   missing or malformed, otherwise the least collection closed under needs.
   */
  method CloseComponents(paths: Json, schema: Json) returns (needed: Option<map<string, set<string>>>)
    ensures needed.None? <==> Malformed(paths) || exists n :: n in AllNeeded(paths, schema) && Unusable(schema, n)
    ensures needed.Some? ==> Entries(needed.value) == AllNeeded(paths, schema)
  {
    var d := new Discovery();
    var ok := d.Discover(paths);
    if !ok {
      return None;
    }
    AllNeededIsClosed(paths, schema);
    ok := Saturate(d, schema, AllNeeded(paths, schema));
    if !ok {
      return None;
    }
    AllNeededIsLeast(paths, schema, d.entries);
    return Some(d.needed);
  }

  /** The dictionary is determined by its entries, so the comparison of dictionaries detects growth. */
  lemma DifferentEntries(a: map<string, set<string>>, b: map<string, set<string>>)
    ensures Entries(a) == Entries(b) <==> a == b
  {
    if Entries(a) == Entries(b) {
      forall k ensures k in a <==> k in b {
        assert Kind(k) in Entries(a) <==> k in a;
        assert Kind(k) in Entries(b) <==> k in b;
      }
      forall k | k in a ensures a[k] == b[k] {
        forall n ensures n in a[k] <==> n in b[k] {
          assert Component(k, n) in Entries(a) <==> n in a[k];
          assert Component(k, n) in Entries(b) <==> n in b[k];
        }
      }
    }
  }

  // ---------------------------------------------------------------------
  // The export
  // ---------------------------------------------------------------------

  function ComponentOrNull(schema: Json, kind: string, name: string): Json {
    var component := ComponentAt(schema, kind, name);
    if component.Some? then component.value else Null
  }

  function Components(needed: map<string, set<string>>, schema: Json): map<string, map<string, Json>> {
    map kind | kind in needed :: map name | name in needed[kind] :: ComponentOrNull(schema, kind, name)
  }

  datatype Export = Export(
    info: map<string, Json>, audiences: set<string>, rest: map<string, Json>,
    paths: map<string, Json>, components: map<string, map<string, Json>>)

  /** The document's description, if there is one to put the title in. */
  predicate HasInfo(schema: Json) {
    schema.Obj? && "info" in schema.fields && schema.fields["info"].Obj?
  }

  const INTERNAL := "x-klyrow-"

  /** The other top-level entries, but for internal ones. */
  function Rest(fields: map<string, Json>): map<string, Json> {
    map k | k in fields && !(INTERNAL <= k) && k !in {"info", "paths", "components"} :: fields[k]
  }

  /**
   The export holds the operations marked for the audience, under their paths,
   and a component exactly when it is needed, with the content it has in the
   full document. Its description has the new title.
   */
  method AudienceExport(schema: Json, audiences: set<string>, title: string) returns (r: Option<Export>)
    ensures r.None? <==>
      (!HasInfo(schema) ||
       KeptPaths(schema, audiences).None? ||
       Malformed(Obj(KeptPaths(schema, audiences).value)) ||
       exists n :: n in AllNeeded(Obj(KeptPaths(schema, audiences).value), schema) && Unusable(schema, n))
    ensures r.Some? ==>
      && r.value.info == schema.fields["info"].fields["title" := Str(title)]
      && r.value.audiences == audiences && r.value.rest == Rest(schema.fields)
    ensures r.Some? ==> r.value.paths == KeptPaths(schema, audiences).value
    ensures r.Some? ==> forall kind, name :: kind in r.value.components && name in r.value.components[kind] <==>
                          Needed(Obj(r.value.paths), schema, Component(kind, name))
    ensures r.Some? ==> forall kind, name :: kind in r.value.components && name in r.value.components[kind] ==>
                          ComponentAt(schema, kind, name) == Some(r.value.components[kind][name])
  {
    if !HasInfo(schema) {
      return None;
    }
    var info := schema.fields["info"].fields["title" := Str(title)];
    var paths := KeptPaths(schema, audiences);
    if paths.None? {
      return None;
    }
    var needed := CloseComponents(Obj(paths.value), schema);
    if needed.None? {
      return None;
    }
    var components := Components(needed.value, schema);
    forall kind, name
      ensures kind in components && name in components[kind] <==> Needed(Obj(paths.value), schema, Component(kind, name))
      ensures kind in components && name in components[kind] ==>
                ComponentAt(schema, kind, name) == Some(components[kind][name])
    {
      var n := Component(kind, name);
      AllNeededIsNeeded(Obj(paths.value), schema, n);
      assert n in Entries(needed.value) <==> kind in components && name in components[kind];
      if n in AllNeeded(Obj(paths.value), schema) { assert !Unusable(schema, n); }
    }
    return Some(Export(info, audiences, Rest(schema.fields), paths.value, components));
  }

  /** An operation is exported to an audience exactly when it is marked with it. */
  lemma ExportedOperations(schema: Json, audiences: set<string>, path: string, verb: string)
    requires KeptPaths(schema, audiences).Some?
    ensures var kept, all := KeptPaths(schema, audiences).value, schema.fields["paths"].fields;
            (path in kept && kept[path].Obj? && verb in kept[path].fields) <==>
            (path in all && verb in all[path].fields && ForAudience(all[path].fields[verb], audiences))
  {
    var all := schema.fields["paths"].fields;
    if path in all && verb in all[path].fields && ForAudience(all[path].fields[verb], audiences) {
      assert verb in KeptOperations(all[path].fields, audiences);
    }
  }

  /** Disjoint audiences never share an exported operation. */
  lemma ExportsAreDisjoint(schema: Json, a: set<string>, b: set<string>, path: string, verb: string)
    requires a !! b && KeptPaths(schema, a).Some? && KeptPaths(schema, b).Some?
    requires var kept := KeptPaths(schema, a).value; path in kept && kept[path].Obj? && verb in kept[path].fields
    ensures var kept := KeptPaths(schema, b).value; !(path in kept && kept[path].Obj? && verb in kept[path].fields)
  {
    ExportedOperations(schema, a, path, verb);
    ExportedOperations(schema, b, path, verb);
  }
}
