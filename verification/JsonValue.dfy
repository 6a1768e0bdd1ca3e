/**
 JSON values with the distinctions their text makes: a boolean is no number,
 and a number is its literal. Two values have the same canonical text (sorted
 keys, no spaces, escapes for all but printable ASCII) exactly when they are
 equal.
 */
module JsonValue {
  import opened Wrappers

  datatype Value =
    | Null | Flag(b: bool) | Number(literal: string) | Words(s: string)
    | Items(items: seq<Value>) | Record(fields: map<string, Value>)

  function AsRecord(v: Value): Option<map<string, Value>> {
    if v.Record? then Some(v.fields) else None
  }

  function AsItems(v: Value): Option<seq<Value>> {
    if v.Items? then Some(v.items) else None
  }

  /** `fields.get(key)`: a missing key and a null read the same. */
  function Lookup(fields: map<string, Value>, key: string): Value {
    if key in fields then fields[key] else Null
  }

  // ---------------------------------------------------------------------
  // The length of the canonical text
  // ---------------------------------------------------------------------

  type Size = Value -> nat

  function CharSize(c: char): nat {
    if c in {'"', '\\', '\U{8}', '\U{C}', '\n', '\r', '\t'} then 2
    else if ' ' <= c <= '~' then 1
    else if c as int <= 0xFFFF then 6
    else 12
  }

  function CharsSize(s: string): nat {
    if s == "" then 0 else CharSize(s[0]) + CharsSize(s[1..])
  }

  function WordSize(s: string): nat {
    2 + CharsSize(s)
  }

  function Commas(n: nat): nat {
    if n == 0 then 0 else n - 1
  }

  ghost function TextSize(v: Value): nat {
    match v
    case Null => 4
    case Flag(b) => if b then 4 else 5
    case Number(literal) => |literal|
    case Words(s) => WordSize(s)
    case Items(items) => 2 + Commas(|items|) + Sum(seq(|items|, k requires 0 <= k < |items| => TextSize(items[k])))
    case Record(fields) => 2 + Commas(|fields|) + FieldsSize(map k | k in fields :: TextSize(fields[k]))
  }

  function Sum(s: seq<nat>): nat {
    if s == [] then 0 else s[0] + Sum(s[1..])
  }

  /** The members of an object, given the size of each value; the order they are written in does not matter. */
  ghost function FieldsSize(sizes: map<string, nat>): nat
    decreases |sizes|
  {
    if sizes == map[] then 0
    else
      var k :| k in sizes;
      assert sizes - {k} != sizes && |sizes - {k}| < |sizes| by { Fewer(sizes, k); }
      MemberSize(k, sizes[k]) + FieldsSize(sizes - {k})
  }

  function MemberSize(key: string, size: nat): nat {
    WordSize(key) + 1 + size
  }

  lemma Fewer(sizes: map<string, nat>, k: string)
    requires k in sizes
    ensures k !in sizes - {k} && |sizes - {k}| == |sizes| - 1
  {
    assert (sizes - {k}).Keys == sizes.Keys - {k};
  }

  /** Any member may be counted first. */
  lemma {:induction false} FieldsSizeBy(sizes: map<string, nat>, key: string)
    requires key in sizes
    ensures FieldsSize(sizes) == MemberSize(key, sizes[key]) + FieldsSize(sizes - {key})
    decreases |sizes|
  {
    var k :| k in sizes && FieldsSize(sizes) == MemberSize(k, sizes[k]) + FieldsSize(sizes - {k});
    if k != key {
      Fewer(sizes, k);
      Fewer(sizes, key);
      FieldsSizeBy(sizes - {k}, key);
      FieldsSizeBy(sizes - {key}, k);
      assert sizes - {k} - {key} == sizes - {key} - {k};
    }
  }

  lemma {:induction false} PlainCharsSize(s: string)
    requires forall k :: 0 <= k < |s| ==> CharSize(s[k]) == 1
    ensures CharsSize(s) == |s|
  {
    if s != "" { PlainCharsSize(s[1..]); }
  }

  /** A field name of lower-case letters and underscores is as long as it looks, plus its quotes. */
  lemma NameSize(s: string)
    requires forall k :: 0 <= k < |s| ==> 'a' <= s[k] <= 'z' || s[k] == '_'
    ensures WordSize(s) == 2 + |s|
  {
    PlainCharsSize(s);
  }

  lemma RecordSize(fields: map<string, Value>, sizes: map<string, nat>)
    requires sizes.Keys == fields.Keys && forall k :: k in fields ==> sizes[k] == TextSize(fields[k])
    ensures TextSize(Record(fields)) == 2 + Commas(|fields|) + FieldsSize(sizes)
  {
    assert sizes == map k | k in fields :: TextSize(fields[k]);
  }

  lemma OneMember(a: string, x: nat)
    ensures FieldsSize(map[a := x]) == MemberSize(a, x)
  {
    FieldsSizeBy(map[a := x], a);
    assert map[a := x] - {a} == map[];
  }

  lemma TwoMembers(a: string, x: nat, b: string, y: nat)
    requires a != b
    ensures FieldsSize(map[a := x, b := y]) == MemberSize(a, x) + MemberSize(b, y)
  {
    FieldsSizeBy(map[a := x, b := y], a);
    assert map[a := x, b := y] - {a} == map[b := y];
    OneMember(b, y);
  }

  lemma ThreeMembers(a: string, x: nat, b: string, y: nat, c: string, z: nat)
    requires a != b && b != c && a != c
    ensures FieldsSize(map[a := x, b := y, c := z]) == MemberSize(a, x) + MemberSize(b, y) + MemberSize(c, z)
  {
    FieldsSizeBy(map[a := x, b := y, c := z], a);
    assert map[a := x, b := y, c := z] - {a} == map[b := y, c := z];
    TwoMembers(b, y, c, z);
  }
}
