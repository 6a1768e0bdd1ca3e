/**
 Local references: `#/` followed by segments separated by `/`, each with the
 escapes of RFC 6901, section 4. The script decodes `~1` before `~0`.
 */
module JsonPointer {
  import opened Wrappers
  import opened Json
  import opened Text

  /** `s.replace(pat, rep)` for a two-character pattern: left to right, without overlaps. */
  function Replace(s: string, p0: char, p1: char, rep: char): string {
    if |s| < 2 then s
    else if s[0] == p0 && s[1] == p1 then [rep] + Replace(s[2..], p0, p1, rep)
    else [s[0]] + Replace(s[1..], p0, p1, rep)
  }

  function Decode(segment: string): string {
    Replace(Replace(segment, '~', '1', '/'), '~', '0', '~')
  }

  function Walk(target: Json, keys: seq<string>): Option<Json>
    decreases keys
  {
    if keys == [] then Some(target)
    else if target.Obj? && keys[0] in target.fields then Walk(target.fields[keys[0]], keys[1..])
    else None
  }

  function DecodeAll(parts: seq<string>): (keys: seq<string>)
    ensures |keys| == |parts|
  {
    if parts == [] then [] else [Decode(parts[0])] + DecodeAll(parts[1..])
  }

  /** The value a `$ref` denotes; None where the script raises. */
  function Resolve(ref: Json, document: Json): Option<Json> {
    if ref.Str? && |ref.s| >= 2 && ref.s[..2] == "#/" then Walk(document, DecodeAll(Split(ref.s[2..], '/')))
    else None
  }

  // ---------------------------------------------------------------------
  // References written by the rules of RFC 6901 denote what they spell
  // ---------------------------------------------------------------------

  function EncodeChar(c: char): string {
    if c == '~' then "~0" else if c == '/' then "~1" else [c]
  }

  function Encode(key: string): string {
    if key == "" then "" else EncodeChar(key[0]) + Encode(key[1..])
  }

  function Pointer(keys: seq<string>): string {
    if keys == [] then "" else "/" + Encode(keys[0]) + Pointer(keys[1..])
  }

  /** `Encode` with only the tilde escaped: what is left after `~1` is decoded. */
  function EncodeTilde(key: string): string {
    if key == "" then "" else (if key[0] == '~' then "~0" else [key[0]]) + EncodeTilde(key[1..])
  }

  lemma ReplaceSkips(c: char, rest: string, p0: char, p1: char, rep: char)
    requires c != p0
    ensures Replace([c] + rest, p0, p1, rep) == [c] + Replace(rest, p0, p1, rep)
  {
    var s := [c] + rest;
    assert s[1..] == rest;
  }

  lemma ReplaceMisses(c: char, rest: string, p0: char, p1: char, rep: char)
    requires c != p0 && c != p1
    ensures Replace([p0, c] + rest, p0, p1, rep) == [p0, c] + Replace(rest, p0, p1, rep)
  {
    var s := [p0, c] + rest;
    assert s[1..] == [c] + rest;
    ReplaceSkips(c, rest, p0, p1, rep);
  }

  lemma ReplaceHits(rest: string, p0: char, p1: char, rep: char)
    ensures Replace([p0, p1] + rest, p0, p1, rep) == [rep] + Replace(rest, p0, p1, rep)
  {
    var s := [p0, p1] + rest;
    assert s[2..] == rest;
  }

  lemma {:induction false} SlashesDecoded(key: string)
    ensures Replace(Encode(key), '~', '1', '/') == EncodeTilde(key)
  {
    if key != "" {
      var rest := Encode(key[1..]);
      SlashesDecoded(key[1..]);
      if key[0] == '~' {
        ReplaceMisses('0', rest, '~', '1', '/');
      } else if key[0] == '/' {
        ReplaceHits(rest, '~', '1', '/');
      } else {
        ReplaceSkips(key[0], rest, '~', '1', '/');
      }
    }
  }

  lemma {:induction false} TildesDecoded(key: string)
    ensures Replace(EncodeTilde(key), '~', '0', '~') == key
  {
    if key != "" {
      var rest := EncodeTilde(key[1..]);
      TildesDecoded(key[1..]);
      if key[0] == '~' {
        ReplaceHits(rest, '~', '0', '~');
      } else {
        ReplaceSkips(key[0], rest, '~', '0', '~');
      }
      assert [key[0]] + key[1..] == key;
    }
  }

  lemma DecodeEncode(key: string)
    ensures Decode(Encode(key)) == key
  {
    SlashesDecoded(key);
    TildesDecoded(key);
  }

  /** The other order would not decode: `~1` is written `~01` and would come back as `/`. */
  lemma DecodingOrderMatters()
    ensures Encode("~1") == "~01" && Decode("~01") == "~1"
    ensures Replace(Replace("~01", '~', '0', '~'), '~', '1', '/') == "/"
  {
    DecodeEncode("~1");
    assert Encode("~1") == "~0" + Encode("1") && Encode("1") == "1" + Encode("");
    assert "~01"[2..] == "1";
  }

  lemma {:induction false} SegmentSplits(segment: string, tail: string)
    requires '/' !in segment
    ensures Split(segment + tail, '/') == [segment + Split(tail, '/')[0]] + Split(tail, '/')[1..]
  {
    var head := Split(tail, '/')[0];
    if segment == "" {
      assert segment + tail == tail && segment + head == head;
    } else {
      SegmentSplits(segment[1..], tail);
      assert (segment + tail)[1..] == segment[1..] + tail;
      assert [segment[0]] + (segment[1..] + head) == segment + head;
    }
  }

  lemma {:induction false} EncodedHasNoSlash(key: string)
    ensures '/' !in Encode(key)
  {
    if key != "" {
      EncodedHasNoSlash(key[1..]);
    }
  }

  lemma {:induction false} PointerDecodes(keys: seq<string>)
    requires keys != []
    ensures DecodeAll(Split(Pointer(keys)[1..], '/')) == keys
  {
    var text := Pointer(keys);
    var tail := Pointer(keys[1..]);
    assert text[1..] == Encode(keys[0]) + tail;
    EncodedHasNoSlash(keys[0]);
    SegmentSplits(Encode(keys[0]), tail);
    DecodeEncode(keys[0]);
    var parts := Split(text[1..], '/');
    if keys[1..] == [] {
      assert Encode(keys[0]) + "" == Encode(keys[0]);
      assert parts == [Encode(keys[0])];
      assert parts[1..] == [];
    } else {
      PointerDecodes(keys[1..]);
      assert tail[0] == '/';
      assert Split(tail, '/') == [""] + Split(tail[1..], '/');
      assert Encode(keys[0]) + "" == Encode(keys[0]);
      assert parts[1..] == Split(tail[1..], '/');
    }
    assert [keys[0]] + keys[1..] == keys;
  }

  /** A reference spelled from a path of keys denotes the value at that path, whatever the keys contain. */
  lemma PointerDenotesPath(document: Json, keys: seq<string>)
    requires keys != []
    ensures Resolve(Str("#" + Pointer(keys)), document) == Walk(document, keys)
  {
    PointerDecodes(keys);
    var text := "#" + Pointer(keys);
    assert text[..2] == "#/";
    assert text[2..] == Pointer(keys)[1..];
  }
}
