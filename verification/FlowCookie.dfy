/**
 The cookie that binds a browser to the sign-in flows it has open: up to eight
 bindings, oldest first. A single binding is written bare, any other number
 behind a version.
 */
module FlowCookie {
  import opened Text

  const VERSION := "v1."
  const MAX_BINDINGS := 8

  predicate HexDigit(c: char) {
    '0' <= c <= '9' || 'a' <= c <= 'f'
  }

  predicate ValidBinding(s: string) {
    |s| == 64 && forall k :: 0 <= k < |s| ==> HexDigit(s[k])
  }

  function Normal(s: string): string {
    Lower(Strip(s))
  }

  function Newest(bindings: seq<string>): seq<string> {
    if |bindings| <= MAX_BINDINGS then bindings else bindings[|bindings| - MAX_BINDINGS..]
  }

  /** Valid bindings in order, each where it first occurs. */
  function Kept(bindings: seq<string>): seq<string> {
    if bindings == [] then []
    else
      var before, last := Kept(bindings[..|bindings| - 1]), bindings[|bindings| - 1];
      if ValidBinding(last) && last !in before then before + [last] else before
  }

  function Normals(bindings: seq<string>): seq<string> {
    seq(|bindings|, k requires 0 <= k < |bindings| => Normal(bindings[k]))
  }

  function Join(parts: seq<string>): string {
    if parts == [] then "" else if |parts| == 1 then parts[0] else parts[0] + "." + Join(parts[1..])
  }

  function Parse(raw: string): seq<string> {
    var value := Normal(raw);
    if value == "" then []
    else if ValidBinding(value) then [value]
    else if |value| < |VERSION| || value[..|VERSION|] != VERSION then []
    else Newest(Kept(Split(value[|VERSION|..], '.')))
  }

  function Encoded(bounded: seq<string>): string {
    if |bounded| == 1 then bounded[0] else VERSION + Join(bounded)
  }

  function Encode(bindings: seq<string>): string {
    Encoded(Newest(Kept(Normals(bindings))))
  }

  /** The bindings other than `expected`, in order. */
  function Without(bindings: seq<string>, expected: string): seq<string> {
    if bindings == [] then []
    else Without(bindings[..|bindings| - 1], expected) + if bindings[|bindings| - 1] == expected then [] else [bindings[|bindings| - 1]]
  }

  // ---------------------------------------------------------------------
  // The program's loops
  // ---------------------------------------------------------------------

  method ParseFlowCookie(raw: string) returns (bindings: seq<string>)
    ensures bindings == Parse(raw)
  {
    var value := Normal(raw);
    if value == "" {
      return [];
    }
    if ValidBinding(value) {
      return [value];
    }
    if |value| < |VERSION| || value[..|VERSION|] != VERSION {
      return [];
    }
    var parts := Split(value[|VERSION|..], '.');
    var result: seq<string> := [];
    for n := 0 to |parts|
      invariant result == Kept(parts[..n])
    {
      assert parts[..n + 1][..n] == parts[..n];
      if ValidBinding(parts[n]) && parts[n] !in result {
        result := result + [parts[n]];
      }
    }
    assert parts[..|parts|] == parts;
    return Newest(result);
  }

  method EncodeFlowCookie(bindings: seq<string>) returns (cookie: string)
    ensures cookie == Encode(bindings)
  {
    var valid: seq<string> := [];
    for n := 0 to |bindings|
      invariant valid == Kept(Normals(bindings[..n]))
    {
      var normalized := Normal(bindings[n]);
      assert Normals(bindings[..n + 1]) == Normals(bindings[..n]) + [normalized];
      if ValidBinding(normalized) && normalized !in valid {
        valid := valid + [normalized];
      }
    }
    assert bindings[..|bindings|] == bindings;
    var bounded := Newest(valid);
    if |bounded| == 1 {
      return bounded[0];
    }
    return VERSION + Join(bounded);
  }

  method SetFlowCookie(raw: string, expected: string) returns (cookie: string)
    ensures cookie == Encode(Without(Parse(raw), expected) + [expected])
  {
    var bindings := ParseFlowCookie(raw);
    var others := DropBinding(bindings, expected);
    cookie := EncodeFlowCookie(others + [expected]);
  }

  /** An empty cookie is one that is deleted. */
  method RemoveFlowCookie(raw: string, expected: string) returns (cookie: string)
    ensures var remaining := Without(Parse(raw), expected);
            cookie == if remaining == [] then "" else Encode(remaining)
  {
    var bindings := ParseFlowCookie(raw);
    var remaining := DropBinding(bindings, expected);
    if remaining == [] {
      return "";
    }
    cookie := EncodeFlowCookie(remaining);
  }

  method DropBinding(bindings: seq<string>, expected: string) returns (rest: seq<string>)
    ensures rest == Without(bindings, expected)
  {
    rest := [];
    for n := 0 to |bindings|
      invariant rest == Without(bindings[..n], expected)
    {
      assert bindings[..n + 1][..n] == bindings[..n];
      if bindings[n] != expected {
        rest := rest + [bindings[n]];
      }
    }
    assert bindings[..|bindings|] == bindings;
  }

  method RequireFlowCookie(raw: string, expected: string) returns (matched: bool)
    ensures matched <==> expected in Parse(raw)
  {
    var supplied := ParseFlowCookie(raw);
    matched := false;
    for n := 0 to |supplied|
      invariant matched <==> expected in supplied[..n]
    {
      assert supplied[..n + 1] == supplied[..n] + [supplied[n]];
      matched := supplied[n] == expected || matched;
    }
    assert supplied[..|supplied|] == supplied;
  }

  // ---------------------------------------------------------------------
  // Writing and reading back
  // ---------------------------------------------------------------------

  predicate AllValid(bindings: seq<string>) {
    forall k :: 0 <= k < |bindings| ==> ValidBinding(bindings[k])
  }

  predicate Distinct(bindings: seq<string>) {
    forall j, k :: 0 <= j < k < |bindings| ==> bindings[j] != bindings[k]
  }

  /** A list a cookie may hold. */
  predicate Proper(bindings: seq<string>) {
    AllValid(bindings) && Distinct(bindings) && |bindings| <= MAX_BINDINGS
  }

  lemma {:induction false} KeptIsProper(bindings: seq<string>)
    ensures AllValid(Kept(bindings)) && Distinct(Kept(bindings))
    ensures forall b :: b in Kept(bindings) <==> b in bindings && ValidBinding(b)
  {
    if bindings != [] {
      KeptIsProper(bindings[..|bindings| - 1]);
      assert bindings == bindings[..|bindings| - 1] + [bindings[|bindings| - 1]];
    }
  }

  lemma {:induction false} ProperIsKept(bindings: seq<string>)
    requires AllValid(bindings) && Distinct(bindings)
    ensures Kept(bindings) == bindings
  {
    if bindings != [] {
      ProperIsKept(bindings[..|bindings| - 1]);
      assert bindings == bindings[..|bindings| - 1] + [bindings[|bindings| - 1]];
    }
  }

  /** Text a cookie is made of: nothing to strip, nothing to lower. */
  predicate Plain(s: string) {
    forall k :: 0 <= k < |s| ==> HexDigit(s[k]) || s[k] == 'v' || s[k] == '.'
  }

  lemma PlainIsNormal(s: string)
    requires Plain(s)
    ensures Normal(s) == s
  {
    assert StripLeft(s) == s;
    assert StripRight(s) == s;
  }

  lemma {:induction false} JoinIsPlain(parts: seq<string>)
    requires AllValid(parts)
    ensures Plain(Join(parts))
  {
    if |parts| > 1 {
      JoinIsPlain(parts[1..]);
    }
  }

  lemma {:induction false} SplitWord(word: string, rest: string)
    requires forall k :: 0 <= k < |word| ==> word[k] != '.'
    ensures Split(word + rest, '.') == [word + Split(rest, '.')[0]] + Split(rest, '.')[1..]
  {
    if word == "" {
      var parts := Split(rest, '.');
      assert word + rest == rest && word + parts[0] == parts[0];
      assert [parts[0]] + parts[1..] == parts;
    } else {
      SplitWord(word[1..], rest);
      assert (word + rest)[1..] == word[1..] + rest;
      assert [word[0]] + (word[1..] + Split(rest, '.')[0]) == word + Split(rest, '.')[0];
    }
  }

  lemma {:induction false} SplitJoin(parts: seq<string>)
    requires AllValid(parts) && parts != []
    ensures Split(Join(parts), '.') == parts
  {
    if |parts| == 1 {
      SplitWord(parts[0], "");
      assert parts[0] + "" == parts[0];
    } else {
      SplitJoin(parts[1..]);
      var tail := "." + Join(parts[1..]);
      assert parts[0] + "." + Join(parts[1..]) == parts[0] + tail;
      assert tail[1..] == Join(parts[1..]);
      SplitWord(parts[0], tail);
      assert parts[0] + "" == parts[0];
      assert [parts[0]] + parts[1..] == parts;
    }
  }

  /** A proper list written into a cookie reads back as it was: empty, single or several. */
  lemma ProperReadsBack(bounded: seq<string>)
    requires Proper(bounded)
    ensures Parse(Encoded(bounded)) == bounded
  {
    var cookie := Encoded(bounded);
    JoinIsPlain(bounded);
    PlainIsNormal(cookie);
    if |bounded| != 1 {
      assert cookie[0] == 'v';
      assert cookie[|VERSION|..] == Join(bounded) && cookie[..|VERSION|] == VERSION;
      if bounded == [] {
        assert Split("", '.') == [""];
        assert Kept([""]) == [];
      } else {
        SplitJoin(bounded);
        ProperIsKept(bounded);
      }
    }
  }

  lemma NewestIsProper(bindings: seq<string>)
    requires AllValid(bindings) && Distinct(bindings)
    ensures Proper(Newest(bindings))
  {
  }

  /** Whatever the cookie says, what is read from it is a proper list. */
  lemma ParsedIsProper(raw: string)
    ensures Proper(Parse(raw))
  {
    var value := Normal(raw);
    if !ValidBinding(value) && |value| >= |VERSION| {
      KeptIsProper(Split(value[|VERSION|..], '.'));
      NewestIsProper(Kept(Split(value[|VERSION|..], '.')));
    }
  }

  /** Reading back an encoded list gives its last eight distinct valid bindings, normalised. */
  lemma RoundTrip(bindings: seq<string>)
    ensures Parse(Encode(bindings)) == Newest(Kept(Normals(bindings)))
  {
    KeptIsProper(Normals(bindings));
    NewestIsProper(Kept(Normals(bindings)));
    ProperReadsBack(Newest(Kept(Normals(bindings))));
  }

  // ---------------------------------------------------------------------
  // Setting and removing
  // ---------------------------------------------------------------------

  lemma {:induction false} WithoutAre(bindings: seq<string>, expected: string, b: string)
    ensures b in Without(bindings, expected) <==> b in bindings && b != expected
  {
    if bindings != [] {
      WithoutAre(bindings[..|bindings| - 1], expected, b);
      assert bindings == bindings[..|bindings| - 1] + [bindings[|bindings| - 1]];
    }
  }

  lemma {:induction false} WithoutIsProper(bindings: seq<string>, expected: string)
    requires AllValid(bindings) && Distinct(bindings)
    ensures var rest := Without(bindings, expected);
            && AllValid(rest) && Distinct(rest) && |rest| == |bindings| - (if expected in bindings then 1 else 0)
  {
    if bindings != [] {
      var init, last := bindings[..|bindings| - 1], bindings[|bindings| - 1];
      WithoutIsProper(init, expected);
      WithoutAre(init, expected, last);
      assert bindings == init + [last] && last !in init;
    }
  }

  lemma ProperEncodes(bindings: seq<string>)
    requires AllValid(bindings) && Distinct(bindings)
    ensures Parse(Encode(bindings)) == Newest(bindings)
  {
    forall k | 0 <= k < |bindings| ensures Normal(bindings[k]) == bindings[k] {
      PlainIsNormal(bindings[k]);
    }
    assert Normals(bindings) == bindings;
    ProperIsKept(bindings);
    RoundTrip(bindings);
  }

  /**
   After setting, the binding is present and newest, the others keep their order,
   and only the oldest of eight others is evicted.
   */
  lemma SetAddsNewest(raw: string, expected: string)
    requires ValidBinding(expected)
    ensures var others := Without(Parse(raw), expected);
            var after := Parse(Encode(others + [expected]));
            && Proper(after) && after == (if |others| == MAX_BINDINGS then others[1..] else others) + [expected]
  {
    ParsedIsProper(raw);
    WithoutIsProper(Parse(raw), expected);
    WithoutAre(Parse(raw), expected, expected);
    var others := Without(Parse(raw), expected);
    AppendedNewest(others, expected);
    ProperEncodes(others + [expected]);
  }

  lemma AppendedNewest(others: seq<string>, expected: string)
    requires Proper(others) && ValidBinding(expected) && expected !in others
    ensures AllValid(others + [expected]) && Distinct(others + [expected]) && Proper(Newest(others + [expected]))
    ensures Newest(others + [expected]) == (if |others| == MAX_BINDINGS then others[1..] else others) + [expected]
  {
    assert AllValid(others + [expected]) && Distinct(others + [expected]);
    if |others| == MAX_BINDINGS {
      assert (others + [expected])[1..] == others[1..] + [expected];
    }
    NewestIsProper(others + [expected]);
  }

  /** Removing drops its own binding and no other; the last one to go leaves no cookie. */
  lemma RemoveDropsOnlyItsOwn(raw: string, expected: string)
    ensures var remaining := Without(Parse(raw), expected);
            var after := Parse(if remaining == [] then "" else Encode(remaining));
            && after == remaining && expected !in after
            && forall b :: b in Parse(raw) && b != expected ==> b in after
  {
    ParsedIsProper(raw);
    WithoutIsProper(Parse(raw), expected);
    var remaining := Without(Parse(raw), expected);
    ProperEncodes(remaining);
    PlainIsNormal("");
    forall b ensures b in remaining <==> b in Parse(raw) && b != expected {
      WithoutAre(Parse(raw), expected, b);
    }
  }

  // ---------------------------------------------------------------------
  // Foreign cookies
  // ---------------------------------------------------------------------

  /** Case and blanks around a cookie do not matter. */
  lemma ParseNormalizes(raw: string)
    ensures Parse(Normal(raw)) == Parse(raw)
  {
    LowerStripTwice(raw);
  }

  /** Bindings keep the order of their first occurrence: reading on adds only at the end. */
  lemma {:induction false} KeptExtends(bindings: seq<string>, more: seq<string>)
    ensures Kept(bindings) <= Kept(bindings + more)
    decreases more
  {
    if more == [] {
      assert bindings + more == bindings;
    } else {
      KeptExtends(bindings, more[..|more| - 1]);
      assert (bindings + more)[..|bindings + more| - 1] == bindings + more[..|more| - 1];
    }
  }

  /** Of more than eight the newest eight are kept, in order. */
  lemma NewestAre(bindings: seq<string>)
    ensures |Newest(bindings)| == (if |bindings| < 8 then |bindings| else 8)
    ensures forall k :: 0 <= k < |Newest(bindings)| ==> Newest(bindings)[k] == bindings[|bindings| - |Newest(bindings)| + k]
  {
  }

  /** A binding is 64 lower-case hexadecimal digits. */
  lemma BindingMeans(s: string)
    ensures ValidBinding(s) <==> |s| == 64 && forall k :: 0 <= k < |s| ==> s[k] in "0123456789abcdef"
  {
    var digits := "0123456789abcdef";
    forall k | 0 <= k < |s| ensures HexDigit(s[k]) <==> s[k] in digits {
      DigitMeans(s[k]);
    }
  }

  lemma DigitMeans(c: char)
    ensures HexDigit(c) <==> c in "0123456789abcdef"
  {
    var digits := "0123456789abcdef";
    forall n | 0 <= n < 16 ensures digits[n] == if n < 10 then '0' + n as char else 'a' + (n - 10) as char {
    }
    if '0' <= c <= '9' {
      assert digits[(c - '0') as int] == c;
    } else if 'a' <= c <= 'f' {
      assert digits[10 + (c - 'a') as int] == c;
    }
  }

  /** A cookie that is neither a binding nor behind the version is read as none. */
  lemma UnversionedIsNothing(raw: string)
    requires !ValidBinding(Normal(raw)) && (|Normal(raw)| < 3 || Normal(raw)[..3] != "v1.")
    ensures Parse(raw) == []
  {
  }
}
