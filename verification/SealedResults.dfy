/**
 What sealing and redaction promise: an envelope opens only in its own place
 and under its own key, exactly the shallow values of bounded lists can be
 redacted, and a name is sensitive whatever stands around a sensitive word.
 */
module SealedResults {
  import opened DurableResults
  import opened JsonValue
  import opened ReplayIdentity
  import opened Text
  import opened Wrappers

  // ---------------------------------------------------------------------
  // Envelopes
  // ---------------------------------------------------------------------

  /**
   A sealed row opens under a later keyring, in whatever row it is put, exactly
   in the place it was sealed for and while the keyring has the key it was sealed
   with; and then it gives back what was sealed.
   */
  lemma SealedOpensOnlyThere(env: Env, plain: Plain, binding: Binding, nonce: Nonce, later: Env, place: Binding)
    requires Seal(env, plain, binding, nonce).Some? && later.size == env.size
    ensures var found := Unseal(later, Seal(env, plain, binding, nonce).value, place);
            && (found.Some? <==> place == binding && env.active in later.keys && later.keys[env.active] == env.keys[env.active])
            && (found.Some? ==> found == Some(plain))
  {
  }

  /** An integration result can be sealed exactly when it is a bounded object that redaction takes, and its place is named. */
  lemma AcceptedIff(env: Env, v: Value, binding: Binding, nonce: Nonce)
    requires env.active in env.keys && forall p :: p in binding.parts ==> p != ""
    ensures SealResult(env, v, binding, nonce).Some? <==>
      && v.Record? && env.size(v) <= 65536 && Visit(v, 0).Some? && env.size(Visit(v, 0).value) <= 65536 + 1024 - 112
  {
  }

  /** An envelope whose key name or nonce was exchanged does not open, and one that holds a control response reads as no result. */
  lemma TamperedDoesNotOpen(env: Env, plain: Plain, binding: Binding, nonce: Nonce, kid: KeyId, other: Nonce, row: Row)
    requires Seal(env, plain, binding, nonce).Some? && (kid != env.active || other != nonce)
    ensures var sealed := Seal(env, plain, binding, nonce).value;
            && Unseal(env, Envelope(kid, other, sealed.cipher), binding) == None
            && (plain.Reply? && row.binding == binding && row.stored == sealed ==> IntegrationRecord(env, row) == None)
  {
  }

  /** Legacy JSON reads as itself, where that is switched on and it is a bounded object without the mark of an envelope. */
  lemma LegacyReadsIff(env: Env, v: Value, binding: Binding)
    ensures Unseal(env, Legacy(v), binding) ==
      if (forall p :: p in binding.parts ==> p != "") && env.legacyRead && v.Record? && env.size(v) <= 65536 && "format" !in v.fields
      then Some(Reply(v)) else None
  {
  }

  /** Sealing a tombstone over a tombstone gives it back, and a submission that is no bounded object cannot be compared. */
  lemma OddRequests(s: Store, v: Value, now: int, policy: string, nonce: Nonce, w: Value)
    requires Carries(s, v)
    ensures Gone(s, v) ==> SealTombstone(s.env, s.row, now, policy, nonce) == Some(s.row.stored)
    ensures !w.Record? || s.env.size(w) > 65536 ==> Matches(s.env, s.row, w) == None
  {
    RecordOf(s, v);
  }

  /** Nothing is sealed for a place with an unnamed part, and nothing opens there. */
  lemma UnnamedPlaces(env: Env, plain: Plain, binding: Binding, nonce: Nonce, stored: Stored)
    requires "" in binding.parts
    ensures Seal(env, plain, binding, nonce) == None && Unseal(env, stored, binding) == None
  {
  }

  // ---------------------------------------------------------------------
  // What can be redacted
  // ---------------------------------------------------------------------

  /** Every list that is looked into is short enough, and nothing looked into lies deeper than `room`. */
  predicate Shallow(v: Value, room: int) {
    room >= 0 &&
    match v
    case Record(fields) => forall k :: k in fields && !Sensitive(k) ==> Shallow(fields[k], room - 1)
    case Items(items) => |items| <= 1000 && forall k :: 0 <= k < |items| ==> Shallow(items[k], room - 1)
    case _ => true
  }

  /** Redaction takes exactly the values of thirteen levels and lists of a thousand, what it hides not counted. */
  lemma {:induction false} RedactableIff(v: Value, depth: nat)
    ensures Visit(v, depth).Some? <==> Shallow(v, 12 - depth)
    decreases v
  {
    if depth <= 12 {
      match v
      case Record(fields) =>
        forall k | k in fields ensures Visit(fields[k], depth + 1).Some? <==> Shallow(fields[k], 12 - (depth + 1)) {
          RedactableIff(fields[k], depth + 1);
        }
      case Items(items) =>
        forall k | 0 <= k < |items| ensures Visit(items[k], depth + 1).Some? <==> Shallow(items[k], 12 - (depth + 1)) {
          RedactableIff(items[k], depth + 1);
        }
      case _ =>
    }
  }

  /** Redaction keeps the shape: the same fields and as many items, and under a name that is not sensitive the redacted value. */
  lemma RedactionKeepsShape(v: Value, depth: nat)
    requires Visit(v, depth).Some?
    ensures var r := Visit(v, depth).value;
            match v
            case Record(fields) =>
              && r.Record? && r.fields.Keys == fields.Keys
              && forall k :: k in fields ==>
                   if Sensitive(k) then r.fields[k] == Words("[REDACTED]") else Visit(fields[k], depth + 1) == Some(r.fields[k])
            case Items(items) =>
              && r.Items? && |r.items| == |items|
              && forall k :: 0 <= k < |items| ==> Visit(items[k], depth + 1) == Some(r.items[k])
            case _ => r == v
  {
  }

  // ---------------------------------------------------------------------
  // Sensitive names
  // ---------------------------------------------------------------------

  lemma {:induction false} AlphanumericJoins(a: string, b: string)
    ensures Alphanumeric(a + b) == Alphanumeric(a) + Alphanumeric(b)
    decreases a
  {
    if a == "" {
      assert a + b == b;
    } else {
      var s := a + b;
      var head := if 'a' <= a[0] <= 'z' || '0' <= a[0] <= '9' then [a[0]] else "";
      assert s[0] == a[0] && s[1..] == a[1..] + b;
      AlphanumericJoins(a[1..], b);
      assert Alphanumeric(a) == head + Alphanumeric(a[1..]);
      assert Alphanumeric(s) == head + Alphanumeric(s[1..]);
    }
  }

  lemma LowerJoins(a: string, b: string)
    ensures Lower(a + b) == Lower(a) + Lower(b)
  {
  }

  /** A letter or a digit in either case, as opposed to what separates words. */
  predicate Separates(c: char) {
    !('a' <= c <= 'z' || 'A' <= c <= 'Z' || '0' <= c <= '9')
  }

  lemma {:induction false} SeparatorsVanish(s: string)
    requires forall k :: 0 <= k < |s| ==> Separates(s[k])
    ensures Alphanumeric(Lower(s)) == ""
  {
    if s != "" {
      assert Lower(s)[1..] == Lower(s[1..]);
      SeparatorsVanish(s[1..]);
    }
  }

  lemma ContainsInside(a: string, word: string, b: string)
    ensures Contains(a + word + b, word)
  {
    assert (a + word + b)[|a|..][..|word|] == word;
  }

  lemma SameSpelling(name: string, other: string)
    requires Alphanumeric(Lower(name)) == Alphanumeric(Lower(other))
    ensures Sensitive(name) <==> Sensitive(other)
  {
  }

  /** Neither case nor separators inside a name hide it: `X-Api_Key` is as sensitive as `xapikey`. */
  lemma SeparatorsDoNotHide(before: string, separators: string, after: string)
    requires forall k :: 0 <= k < |separators| ==> Separates(separators[k])
    ensures Sensitive(before + separators + after) <==> Sensitive(before + after)
    ensures Sensitive(Lower(before)) <==> Sensitive(before)
  {
    SeparatorsVanish(separators);
    LowerJoins(before + separators, after);
    LowerJoins(before, separators);
    LowerJoins(before, after);
    AlphanumericJoins(Lower(before) + Lower(separators), Lower(after));
    AlphanumericJoins(Lower(before), Lower(separators));
    AlphanumericJoins(Lower(before), Lower(after));
    SameSpelling(before + separators + after, before + after);
    LowerTwice(before);
  }

  lemma LowerTwice(s: string)
    ensures Lower(Lower(s)) == Lower(s)
  {
  }

  predicate Spelled(word: string) {
    forall k :: 0 <= k < |word| ==> 'a' <= word[k] <= 'z' || '0' <= word[k] <= '9'
  }

  /** Letters and digits are all kept: a digit inside a word makes it another. */
  lemma {:induction false} SpelledStays(word: string)
    requires Spelled(word)
    ensures Alphanumeric(Lower(word)) == word
  {
    if word != "" {
      assert Lower(word)[1..] == Lower(word[1..]);
      SpelledStays(word[1..]);
    }
  }

  /** Whatever stands before and after it, a secret or a content word makes a name sensitive. */
  lemma WordsAreFound(before: string, word: string, after: string)
    requires word in {"password", "secret", "token", "authorization", "cookie", "credential", "apikey", "signature", "session",
                      "privatekey", "accesskey", "reseturl", "verificationurl", "body", "raw", "mime", "html", "htmlbody",
                      "textbody", "headers", "url", "uri", "email", "recipient", "recipients", "phone", "cardnumber", "cvv"}
    ensures Sensitive(before + word + after)
  {
    assert Spelled(word);
    assert word in SECRET_WORDS + CONTENT_WORDS by { Listed(word); }
    SpelledStays(word);
    LowerJoins(before + word, after);
    LowerJoins(before, word);
    AlphanumericJoins(Lower(before) + Lower(word), Lower(after));
    AlphanumericJoins(Lower(before), Lower(word));
    ContainsInside(Alphanumeric(Lower(before)), word, Alphanumeric(Lower(after)));
  }

  lemma Listed(word: string)
    requires word in {"password", "secret", "token", "authorization", "cookie", "credential", "apikey", "signature", "session",
                      "privatekey", "accesskey", "reseturl", "verificationurl", "body", "raw", "mime", "html", "htmlbody",
                      "textbody", "headers", "url", "uri", "email", "recipient", "recipients", "phone", "cardnumber", "cvv"}
    ensures word in SECRET_WORDS + CONTENT_WORDS
  {
    assert word in SECRET_WORDS || word in CONTENT_WORDS;
  }

  /** A name of fewer than three letters and digits is always shown: no sensitive word is that short. */
  lemma ShortNamesAreShown(name: string)
    requires |Alphanumeric(Lower(name))| < 3
    ensures !Sensitive(name)
  {
    forall w | w in SECRET_WORDS + CONTENT_WORDS ensures !Contains(Alphanumeric(Lower(name)), w) {
      assert w in SECRET_WORDS || w in CONTENT_WORDS;
      assert |w| >= 3;
    }
  }

  // ---------------------------------------------------------------------
  // What the reader answers
  // ---------------------------------------------------------------------

  /** A row that carries an accepted result is shown by what has become of it: its payload, nothing after its time, or a tombstone. */
  lemma ReadbackMeans(s: Store, v: Value, now: int, retention: int)
    requires Carries(s, v)
    ensures var (value, availability) := Readback(s.env, Some(s.row), now, retention);
            && (availability == Invalid <==> !Readable(s, v))
            && (availability == Purged <==> Gone(s, v))
            && (availability == Expired <==> Readable(s, v) && !Gone(s, v) && s.row.created + retention <= now)
            && (availability == Available <==> Readable(s, v) && !Gone(s, v) && now < s.row.created + retention)
            && Visit(v, 0).Some? && value == if availability == Available then Visit(v, 0).value else Record(map[])
  {
    RecordOf(s, v);
  }

  /** After a rotation a rewrap puts a readable row under the new key. */
  lemma RotateThenRewrap(s: Store, next: Env, nonce: Nonce, v: Value)
    requires Carries(s, v) && Extends(s.env, next) && Readable(s.(env := next), v) && Fits(s.env.size, v)
    ensures var t := After(s, [Rotate(next), RewrapRow(nonce)]);
            t.env == next && t.row.stored.Envelope? && t.row.stored.kid == next.active && Carries(t, v)
  {
    var rotate, rewrap := Rotate(next), RewrapRow(nonce);
    var rotated := Apply(s, rotate);
    RotationKeeps(s, next, v);
    RecordOf(rotated, v);
    RewrapKeeps(rotated, nonce, v);
    assert [rotate, rewrap][1..] == [rewrap] && [rewrap][1..] == [];
    assert After(rotated, [rewrap]) == After(Apply(rotated, rewrap), []) == Apply(rotated, rewrap);
  }
}
