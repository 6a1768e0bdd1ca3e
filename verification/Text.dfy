/** The string operations several parts share, on ASCII. */
module Text {
  /** What strip() removes: the space, tab to carriage return, and the four separators. */
  predicate Blank(c: char) {
    c == ' ' || '\t' <= c <= '\r' || '\U{1C}' <= c <= '\U{1F}'
  }

  function StripLeft(s: string): string {
    if s != "" && Blank(s[0]) then StripLeft(s[1..]) else s
  }

  function StripRight(s: string): string {
    if s != "" && Blank(s[|s| - 1]) then StripRight(s[..|s| - 1]) else s
  }

  function Lower(s: string): string {
    seq(|s|, i requires 0 <= i < |s| => if 'A' <= s[i] <= 'Z' then s[i] - 'A' + 'a' else s[i])
  }

  function Strip(s: string): string {
    StripRight(StripLeft(s))
  }

  function Upper(s: string): string {
    seq(|s|, i requires 0 <= i < |s| => if 'a' <= s[i] <= 'z' then s[i] - 'a' + 'A' else s[i])
  }

  /** `s.split(sep)`: the empty text has one part, the empty one. */
  function Split(s: string, sep: char): (parts: seq<string>)
    ensures parts != []
  {
    if s == "" then [""]
    else
      var rest := Split(s[1..], sep);
      if s[0] == sep then [""] + rest else [[s[0]] + rest[0]] + rest[1..]
  }

  // ---------------------------------------------------------------------
  // Stripping and lowering
  // ---------------------------------------------------------------------

  predicate AllBlank(s: string) {
    forall k :: 0 <= k < |s| ==> Blank(s[k])
  }

  /** Nothing to strip at either end. */
  predicate Stripped(s: string) {
    s == "" || (!Blank(s[0]) && !Blank(s[|s| - 1]))
  }

  lemma {:induction false} StripLeftIs(s: string)
    ensures StripLeft(s) == "" || !Blank(StripLeft(s)[0])
    ensures |StripLeft(s)| <= |s| && s[|s| - |StripLeft(s)|..] == StripLeft(s) && AllBlank(s[..|s| - |StripLeft(s)|])
    decreases s
  {
    var n := |s| - |StripLeft(s)|;
    if s != "" && Blank(s[0]) {
      StripLeftIs(s[1..]);
      assert s[n..] == s[1..][n - 1..];
      forall k | 0 <= k < n ensures Blank(s[..n][k]) {
        if k > 0 {
          assert s[..n][k] == s[1..][..n - 1][k - 1];
        }
      }
    } else {
      assert s[0..] == s && s[..0] == "";
    }
  }

  lemma {:induction false} StripRightIs(s: string)
    requires s == "" || !Blank(s[0])
    ensures Stripped(StripRight(s))
    ensures |StripRight(s)| <= |s| && s[..|StripRight(s)|] == StripRight(s) && AllBlank(s[|StripRight(s)|..])
    decreases |s|
  {
    if s != "" && Blank(s[|s| - 1]) {
      StripRightIs(s[..|s| - 1]);
      var rest := StripRight(s[..|s| - 1]);
      forall k | 0 <= k < |s[|rest|..]| ensures Blank(s[|rest|..][k]) {
        if k < |s| - 1 - |rest| {
          assert s[..|s| - 1][|rest|..][k] == s[|rest|..][k];
        }
      }
    }
  }

  /** Stripping takes away blanks at the ends, all of them and nothing else. */
  lemma StripIs(s: string) returns (left: string, right: string)
    ensures s == left + Strip(s) + right && AllBlank(left) && AllBlank(right) && Stripped(Strip(s))
  {
    StripLeftIs(s);
    var rest := StripLeft(s);
    StripRightIs(rest);
    left, right := s[..|s| - |rest|], rest[|Strip(s)|..];
    assert s == left + rest && rest == Strip(s) + right;
  }

  lemma StripOfStripped(s: string)
    requires Stripped(s)
    ensures Strip(s) == s
  {
  }

  lemma LowerKeepsBlanks(c: char)
    ensures Blank(Lower([c])[0]) <==> Blank(c)
  {
  }

  /** Lowered and stripped text is lowered and stripped already. */
  lemma LowerStripTwice(s: string)
    ensures Lower(Strip(Lower(Strip(s)))) == Lower(Strip(s))
  {
    var left, right := StripIs(s);
    var rest := Strip(s);
    if rest != "" {
      LowerKeepsBlanks(rest[0]);
      LowerKeepsBlanks(rest[|rest| - 1]);
      assert Lower(rest)[0] == Lower([rest[0]])[0] && Lower(rest)[|rest| - 1] == Lower([rest[|rest| - 1]])[0];
    }
    StripOfStripped(Lower(rest));
  }
}
