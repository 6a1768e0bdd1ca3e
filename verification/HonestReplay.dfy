/**
 Attachment replay read off its inputs: a manifest that is accepted is well
 formed and reads back, an honest payload is accepted in whatever order it
 comes, and what is replayed is what was declared.
 */
module HonestReplay {
  import opened Attachments
  import opened JsonValue
  import opened Text
  import opened Wrappers

  // ---------------------------------------------------------------------
  // The manifest
  // ---------------------------------------------------------------------

  predicate LowerHex(s: string) {
    forall k :: 0 <= k < |s| ==> '0' <= s[k] <= '9' || 'a' <= s[k] <= 'f'
  }

  /** Named, typed, of some size, with a digest of 64 lower-case digits. */
  predicate WellFormed(entry: Entry) {
    entry.filename != "" && entry.contentType != "" && entry.size >= 0 && |entry.sha256| == 64 && LowerHex(entry.sha256)
  }

  lemma LowerIsLowerHex(s: string)
    requires IsHex(s)
    ensures LowerHex(Lower(s)) && |Lower(s)| == |s|
  {
  }

  /** Every entry read from a manifest is well formed. */
  lemma {:induction false} EntriesAreWellFormed(codec: Codec, items: seq<Value>)
    requires Entries(codec, items).Some?
    ensures |Entries(codec, items).value| == |items|
    ensures forall entry :: entry in Entries(codec, items).value ==> WellFormed(entry)
  {
    if items != [] {
      EntriesAreWellFormed(codec, items[..|items| - 1]);
      var digest := Lookup(items[|items| - 1].fields, "sha256");
      LowerIsLowerHex(digest.s);
    }
  }

  /** The JSON of an entry, its size written as `literal`. */
  function EntryJson(entry: Entry, literal: string): Value {
    Record(map["filename" := Words(entry.filename), "content_type" := Words(entry.contentType),
               "size" := Number(literal), "sha256" := Words(entry.sha256)])
  }

  lemma LowerHexIsLower(s: string)
    requires LowerHex(s)
    ensures Lower(s) == s && IsHex(s)
  {
  }

  /** A well-formed entry, written down, is read back as it was. */
  lemma EntryReadsBack(codec: Codec, entry: Entry, literal: string)
    requires WellFormed(entry) && codec.truncate(literal) == Some(entry.size)
    ensures ManifestEntry(codec, EntryJson(entry, literal)) == Some(entry)
  {
    LowerHexIsLower(entry.sha256);
  }

  /** The digest may be written in either case, the size as a number or as text. */
  lemma EntryReadsInAnyCase(codec: Codec, entry: Entry, size: Value, digest: string)
    requires WellFormed(entry) && Lower(digest) == entry.sha256
    requires (size.Number? && codec.truncate(size.literal) == Some(entry.size)) || (size.Words? && codec.parseInt(size.s) == Some(entry.size))
    ensures ManifestEntry(codec, Record(map["filename" := Words(entry.filename), "content_type" := Words(entry.contentType),
                                            "size" := size, "sha256" := Words(digest)])) == Some(entry)
  {
    forall k | 0 <= k < |digest| ensures IsHex([digest[k]]) {
      assert Lower(digest)[k] == Lower([digest[k]])[0];
    }
    assert IsHex(digest) by {
      forall k | 0 <= k < |digest|
        ensures '0' <= digest[k] <= '9' || 'a' <= digest[k] <= 'f' || 'A' <= digest[k] <= 'F'
      {
        assert IsHex([digest[k]]) && [digest[k]][0] == digest[k];
      }
    }
  }

  /** As a size, truth values are one and nothing, and what is no number, text or truth value is refused. */
  lemma OddSizes(codec: Codec, v: Value)
    ensures ToInt(codec, Flag(true)) == Some(1) && ToInt(codec, Flag(false)) == Some(0)
    ensures v.Null? || v.Items? || v.Record? ==> ToInt(codec, v) == None
  {
  }

  function EntriesJson(entries: seq<Entry>, literal: Entry -> string): seq<Value> {
    seq(|entries|, k requires 0 <= k < |entries| => EntryJson(entries[k], literal(entries[k])))
  }

  ghost predicate Literals(codec: Codec, literal: Entry -> string) {
    forall entry: Entry :: codec.truncate(literal(entry)) == Some(entry.size)
  }

  /** A list of well-formed entries, written down, reads back as it was. */
  lemma {:induction false} ManifestReadsBack(codec: Codec, entries: seq<Entry>, literal: Entry -> string)
    requires Literals(codec, literal) && forall entry :: entry in entries ==> WellFormed(entry)
    ensures Manifest(codec, Items(EntriesJson(entries, literal))) == Some(entries)
  {
    var items := EntriesJson(entries, literal);
    if entries != [] {
      var init, last := entries[..|entries| - 1], entries[|entries| - 1];
      ManifestReadsBack(codec, init, literal);
      EntryReadsBack(codec, last, literal(last));
      assert items[..|items| - 1] == EntriesJson(init, literal);
      assert entries == init + [last];
    }
  }

  // ---------------------------------------------------------------------
  // An honest payload is accepted
  // ---------------------------------------------------------------------

  /** The bytes that `data` encodes have the size and the digest of the entry. */
  predicate Encodes(codec: Codec, data: string, entry: Entry) {
    var bytes := codec.decode(data);
    bytes.Some? && |bytes.value| == entry.size && codec.sha256(bytes.value) == entry.sha256
  }

  function Candidate(entry: Entry, literal: string, data: string): Value {
    Record(map["filename" := Words(entry.filename), "content_type" := Words(entry.contentType), "size" := Number(literal),
               "sha256" := Words(entry.sha256), "data_b64" := Words(data)])
  }

  function Candidates(entries: seq<Entry>, literal: Entry -> string, data: seq<string>): seq<Value>
    requires |data| == |entries|
  {
    seq(|entries|, k requires 0 <= k < |entries| => Candidate(entries[k], literal(entries[k]), data[k]))
  }

  lemma CandidateIsGenuine(codec: Codec, entry: Entry, literal: string, data: string)
    requires WellFormed(entry) && codec.truncate(literal) == Some(entry.size) && Encodes(codec, data, entry)
    ensures Claim(codec, Candidate(entry, literal, data)) == Some(entry)
    ensures Verifies(codec, Candidate(entry, literal, data), entry)
  {
    LowerHexIsLower(entry.sha256);
  }

  lemma OneTakenOut<C(!new), K(!new)>(claim: C -> Option<K>, p: seq<C>, x: C, q: seq<C>)
    ensures multiset(p + [x] + q) == multiset(p + q) + multiset{x}
    ensures multiset(Claims(claim, p + [x] + q)) == multiset(Claims(claim, p + q)) + multiset{claim(x)}
  {
    assert Claims(claim, p + [x] + q) == Claims(claim, p) + [claim(x)] + Claims(claim, q);
    assert Claims(claim, p + q) == Claims(claim, p) + Claims(claim, q);
  }

  lemma {:induction false} ClaimsOfPermutation<C(!new), K(!new)>(claim: C -> Option<K>, a: seq<C>, b: seq<C>)
    requires multiset(a) == multiset(b)
    ensures multiset(Claims(claim, a)) == multiset(Claims(claim, b))
    decreases |a|
  {
    if a == [] {
      NoElements(b);
    } else {
      var init, x := a[..|a| - 1], a[|a| - 1];
      assert a == init + [x];
      assert Claims(claim, a) == Claims(claim, init) + [claim(x)];
      assert x in multiset(b);
      var k :| 0 <= k < |b| && b[k] == x;
      assert b == b[..k] + [x] + b[k + 1..];
      OneTakenOut(claim, b[..k], x, b[k + 1..]);
      Cancel(multiset(init), multiset(b[..k] + b[k + 1..]), x);
      ClaimsOfPermutation(claim, init, b[..k] + b[k + 1..]);
    }
  }

  lemma Cancel<C(!new)>(m: multiset<C>, n: multiset<C>, x: C)
    requires m + multiset{x} == n + multiset{x}
    ensures m == n
  {
    forall y ensures m[y] == n[y] {
      assert (m + multiset{x})[y] == (n + multiset{x})[y];
    }
  }

  lemma NoElements<C>(b: seq<C>)
    requires multiset(b) == multiset{}
    ensures b == []
  {
    assert |multiset(b)| == |b|;
  }

  ghost predicate Honest(codec: Codec, entries: seq<Entry>, literal: Entry -> string, data: seq<string>) {
    && Literals(codec, literal) && |data| == |entries|
    && forall k :: 0 <= k < |entries| ==> WellFormed(entries[k]) && Encodes(codec, data[k], entries[k])
  }

  lemma CandidatesClaim(codec: Codec, entries: seq<Entry>, literal: Entry -> string, data: seq<string>)
    requires Honest(codec, entries, literal, data)
    ensures var candidates := Candidates(entries, literal, data);
            && Claims(ClaimBy(codec), candidates) == Somes(entries)
            && forall k :: 0 <= k < |entries| ==>
                 ClaimBy(codec)(candidates[k]) == Some(entries[k]) && GenuineBy(codec)(candidates[k], entries[k])
  {
    forall k | 0 <= k < |entries|
      ensures ClaimBy(codec)(Candidates(entries, literal, data)[k]) == Some(entries[k])
      ensures GenuineBy(codec)(Candidates(entries, literal, data)[k], entries[k])
    {
      CandidateIsGenuine(codec, entries[k], literal(entries[k]), data[k]);
    }
  }

  lemma SameKeys<C(!new), K(!new)>(claim: C -> Option<K>, keys: seq<K>, items: seq<C>)
    requires multiset(Claims(claim, items)) == multiset(Somes(keys))
    ensures forall key :: multiset(keys)[key] == multiset(Claims(claim, items))[Some(key)]
  {
    forall key ensures multiset(keys)[key] == multiset(Claims(claim, items))[Some(key)] {
      SomesCount(keys, Some(key));
    }
  }

  /**
   For every stored manifest, the attachments it was made from, supplied again in
   any order, are authoritative: the matcher takes them.
   */
  lemma HonestReplayIsAuthoritative(
      codec: Codec, entries: seq<Entry>, literal: Entry -> string, data: seq<string>, items: seq<Value>)
    requires Honest(codec, entries, literal, data)
    requires multiset(items) == multiset(Candidates(entries, literal, data))
    ensures Manifest(codec, Items(EntriesJson(entries, literal))) == Some(entries)
    ensures Authoritative(ClaimBy(codec), GenuineBy(codec), entries, items)
  {
    ManifestReadsBack(codec, entries, literal);
    CandidatesClaim(codec, entries, literal, data);
    var claim, candidates := ClaimBy(codec), Candidates(entries, literal, data);
    forall j | j in items ensures claim(j).Some? && GenuineBy(codec)(j, claim(j).value) {
      assert j in multiset(items) && j in multiset(candidates);
      var k :| 0 <= k < |candidates| && candidates[k] == j;
    }
    ClaimsOfPermutation(claim, items, candidates);
    SameKeys(claim, entries, items);
  }

  // ---------------------------------------------------------------------
  // What is replayed is what was declared
  // ---------------------------------------------------------------------

  function TextOf(v: Value, key: string): Option<string> {
    if v.Record? && key in v.fields && v.fields[key].Words? then Some(v.fields[key].s) else None
  }

  /**
   Every attachment of a replay decodes to bytes of the declared size and digest,
   and comes from a candidate that says so itself, name and type included.
   */
  lemma ReplayedAsDeclared(codec: Codec, manifest: seq<Entry>, used: seq<Value>, replay: seq<Replay>, k: nat)
    requires Follows(ClaimBy(codec), GenuineBy(codec), manifest, used) && ReplaysTo(manifest, used, replay) && k < |manifest|
    ensures k < |replay| && replay[k].entry == manifest[k] && Encodes(codec, replay[k].data, manifest[k])
    ensures k < |used| && TextOf(used[k], "data_b64") == Some(replay[k].data)
    ensures TextOf(used[k], "filename").Some? ==> TextOf(used[k], "filename") == Some(manifest[k].filename)
    ensures TextOf(used[k], "content_type").Some? ==> TextOf(used[k], "content_type") == Some(manifest[k].contentType)
    ensures TextOf(used[k], "sha256").Some? ==> Lower(TextOf(used[k], "sha256").value) == manifest[k].sha256
  {
    assert ClaimBy(codec)(used[k]) == Some(manifest[k]) && GenuineBy(codec)(used[k], manifest[k]);
  }

  lemma ClaimIsListed<C(!new), K(!new)>(claim: C -> Option<K>, genuine: (C, K) -> bool, manifest: seq<K>, items: seq<C>, j: C)
    requires Authoritative(claim, genuine, manifest, items) && j in items
    ensures claim(j).Some? && claim(j).value in manifest && genuine(j, claim(j).value)
  {
    var k :| 0 <= k < |items| && items[k] == j;
    assert Claims(claim, items)[k] == Some(claim(j).value);
    assert Some(claim(j).value) in multiset(Claims(claim, items));
    assert multiset(manifest)[claim(j).value] > 0;
  }

  /** In an accepted payload every candidate's bytes are those of an entry: nothing else is let through. */
  lemma EveryCandidateIsDeclared(codec: Codec, manifest: seq<Entry>, items: seq<Value>, j: Value) returns (entry: Entry)
    requires Authoritative(ClaimBy(codec), GenuineBy(codec), manifest, items) && j in items
    ensures entry in manifest && TextOf(j, "data_b64").Some? && Encodes(codec, TextOf(j, "data_b64").value, entry)
  {
    ClaimIsListed(ClaimBy(codec), GenuineBy(codec), manifest, items, j);
    entry := ClaimBy(codec)(j).value;
  }
}
