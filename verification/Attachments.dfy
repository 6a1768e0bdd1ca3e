/**
 Replay of an inbound message whose attachments are kept as metadata only: the
 bytes supplied with the old payload are matched, one for one, against the
 stored manifest. Base64, SHA-256 and Python's conversions are parameters.
 */
module Attachments {
  import opened JsonValue
  import opened Text
  import opened Wrappers

  /** The four declared properties of an attachment; also the key it is matched by. */
  datatype Entry = Entry(filename: string, contentType: string, size: int, sha256: string)

  datatype Replay = Replay(entry: Entry, data: string)

  datatype Codec = Codec(
    parseInt: string -> Option<int>, truncate: string -> Option<int>, show: Value -> string,
    decode: string -> Option<seq<int>>, sha256: seq<int> -> string)

  /** int(): booleans are 0 and 1, numbers truncate toward zero, text is parsed, anything else raises. */
  function ToInt(codec: Codec, j: Value): Option<int> {
    match j
    case Flag(b) => Some(if b then 1 else 0)
    case Number(literal) => codec.truncate(literal)
    case Words(s) => codec.parseInt(s)
    case _ => None
  }

  function ToText(codec: Codec, j: Value): string {
    if j.Words? then j.s else codec.show(j)
  }

  predicate IsHex(s: string) {
    forall k :: 0 <= k < |s| ==> '0' <= s[k] <= '9' || 'a' <= s[k] <= 'f' || 'A' <= s[k] <= 'F'
  }

  // ---------------------------------------------------------------------
  // The manifest
  // ---------------------------------------------------------------------

  function ManifestEntry(codec: Codec, j: Value): Option<Entry> {
    var fields :- AsRecord(j);
    var filename, contentType, digest := Lookup(fields, "filename"), Lookup(fields, "content_type"), Lookup(fields, "sha256");
    var size :- ToInt(codec, Lookup(fields, "size"));
    if filename.Words? && filename.s != "" && contentType.Words? && contentType.s != "" && size >= 0
      && digest.Words? && |digest.s| == 64 && IsHex(digest.s)
    then Some(Entry(filename.s, contentType.s, size, Lower(digest.s)))
    else None
  }

  function Entries(codec: Codec, items: seq<Value>): Option<seq<Entry>> {
    if items == [] then Some([])
    else
      var init :- Entries(codec, items[..|items| - 1]);
      var last :- ManifestEntry(codec, items[|items| - 1]);
      Some(init + [last])
  }

  function Manifest(codec: Codec, raw: Value): Option<seq<Entry>> {
    var items :- AsItems(raw);
    Entries(codec, items)
  }

  method NormalizedManifest(codec: Codec, raw: Value) returns (manifest: Option<seq<Entry>>)
    ensures manifest == Manifest(codec, raw)
  {
    if !raw.Items? {
      return None;
    }
    var entries: seq<Entry> := [];
    for n := 0 to |raw.items|
      invariant Entries(codec, raw.items[..n]) == Some(entries)
    {
      assert raw.items[..n + 1][..n] == raw.items[..n];
      var entry := ManifestEntry(codec, raw.items[n]);
      if entry.None? {
        NoEntries(codec, raw.items, n);
        return None;
      }
      entries := entries + [entry.value];
    }
    assert raw.items[..|raw.items|] == raw.items;
    return Some(entries);
  }

  lemma {:induction false} NoEntries(codec: Codec, items: seq<Value>, n: nat)
    requires n < |items| && ManifestEntry(codec, items[n]).None?
    ensures Entries(codec, items).None?
  {
    if n < |items| - 1 {
      NoEntries(codec, items[..|items| - 1], n);
    }
  }

  // ---------------------------------------------------------------------
  // The candidates
  // ---------------------------------------------------------------------

  /** What a supplied attachment claims to be; None where the code refuses the whole replay. */
  function Claim(codec: Codec, j: Value): Option<Entry> {
    var fields :- AsRecord(j);
    if {"filename", "content_type", "size", "sha256"} <= fields.Keys then
      var size :- ToInt(codec, fields["size"]);
      Some(Entry(ToText(codec, fields["filename"]), ToText(codec, fields["content_type"]), size,
                 Lower(ToText(codec, fields["sha256"]))))
    else None
  }

  function Payload(j: Value): Option<string> {
    var fields :- AsRecord(j);
    var data := Lookup(fields, "data_b64");
    if data.Words? then Some(data.s) else None
  }

  /** The supplied bytes are what `entry` declares. */
  predicate Verifies(codec: Codec, j: Value, entry: Entry) {
    && Payload(j).Some?
    && var bytes := codec.decode(Payload(j).value);
    && bytes.Some? && |bytes.value| == entry.size && codec.sha256(bytes.value) == entry.sha256
  }

  // ---------------------------------------------------------------------
  // Matching by key, for any claim a candidate makes and any check of it
  // ---------------------------------------------------------------------

  function Claims<C, K>(claim: C -> Option<K>, items: seq<C>): seq<Option<K>> {
    seq(|items|, k requires 0 <= k < |items| => claim(items[k]))
  }

  /** When a replay is authoritative: the same keys, as a multiset, and every candidate genuine. */
  ghost predicate Authoritative<C(!new), K(!new)>(claim: C -> Option<K>, genuine: (C, K) -> bool, manifest: seq<K>, items: seq<C>) {
    && (forall j :: j in items ==> claim(j).Some?)
    && (forall key :: multiset(manifest)[key] == multiset(Claims(claim, items))[Some(key)])
    && (forall j :: j in items ==> genuine(j, claim(j).value))
  }

  function Bucket<C, K>(supplied: map<K, seq<C>>, key: K): seq<C> {
    if key in supplied then supplied[key] else []
  }

  /** Every candidate lies in the bucket of its own claim. */
  ghost predicate Sorted<C(!new), K(!new)>(claim: C -> Option<K>, supplied: map<K, seq<C>>) {
    forall key, j :: key in supplied && j in supplied[key] ==> claim(j) == Some(key)
  }

  predicate AccountedAt<C(==), K(==)>(claim: C -> Option<K>, supplied: map<K, seq<C>>, used: seq<C>, items: seq<C>, j: C) {
    claim(j).Some? ==> multiset(used)[j] + multiset(Bucket(supplied, claim(j).value))[j] == multiset(items)[j]
  }

  /** Used and waiting candidates together are the candidates supplied. */
  ghost predicate Accounted<C(!new), K(!new)>(claim: C -> Option<K>, supplied: map<K, seq<C>>, used: seq<C>, items: seq<C>) {
    forall j :: AccountedAt(claim, supplied, used, items, j)
  }

  predicate SizedAt<C, K(==)>(claim: C -> Option<K>, supplied: map<K, seq<C>>, items: seq<C>, key: K) {
    |Bucket(supplied, key)| == multiset(Claims(claim, items))[Some(key)]
  }

  /** A bucket is as long as the number of candidates with its claim. */
  ghost predicate Sized<C(!new), K(!new)>(claim: C -> Option<K>, supplied: map<K, seq<C>>, items: seq<C>) {
    forall key :: SizedAt(claim, supplied, items, key)
  }

  predicate WantedAt<C, K(==)>(supplied: map<K, seq<C>>, rest: seq<K>, key: K) {
    |Bucket(supplied, key)| == multiset(rest)[key]
  }

  /** Every bucket holds what the rest of the manifest asks of it. */
  ghost predicate Wanted<C, K(!new)>(supplied: map<K, seq<C>>, rest: seq<K>) {
    forall key :: WantedAt(supplied, rest, key)
  }

  lemma Inserted<C(!new), K(!new)>(claim: C -> Option<K>, supplied: map<K, seq<C>>, items: seq<C>, candidate: C, key: K)
    requires claim(candidate) == Some(key)
    requires Sorted(claim, supplied) && Accounted(claim, supplied, [], items) && Sized(claim, supplied, items)
    ensures var more := supplied[key := Bucket(supplied, key) + [candidate]];
            && Sorted(claim, more) && Accounted(claim, more, [], items + [candidate]) && Sized(claim, more, items + [candidate])
  {
    var more := supplied[key := Bucket(supplied, key) + [candidate]];
    assert Claims(claim, items + [candidate]) == Claims(claim, items) + [Some(key)];
    forall other ensures SizedAt(claim, more, items + [candidate], other) {
      assert SizedAt(claim, supplied, items, other);
    }
    forall j ensures AccountedAt(claim, more, [], items + [candidate], j) {
      assert AccountedAt(claim, supplied, [], items, j);
    }
  }

  method Group<C(==,!new), K(==,!new)>(claim: C -> Option<K>, items: seq<C>) returns (supplied: Option<map<K, seq<C>>>)
    ensures supplied.None? <==> exists j :: j in items && claim(j).None?
    ensures supplied.Some? ==>
      Sorted(claim, supplied.value) && Accounted(claim, supplied.value, [], items) && Sized(claim, supplied.value, items)
  {
    var buckets: map<K, seq<C>> := map[];
    assert Sorted(claim, buckets) && Accounted(claim, buckets, [], []) && Sized(claim, buckets, []);
    for n := 0 to |items|
      invariant forall j :: j in items[..n] ==> claim(j).Some?
      invariant Sorted(claim, buckets) && Accounted(claim, buckets, [], items[..n]) && Sized(claim, buckets, items[..n])
    {
      var candidate := items[n];
      var key := claim(candidate);
      if key.None? {
        return None;
      }
      Inserted(claim, buckets, items[..n], candidate, key.value);
      assert items[..n + 1] == items[..n] + [candidate];
      buckets := buckets[key.value := Bucket(buckets, key.value) + [candidate]];
    }
    assert items[..|items|] == items;
    return Some(buckets);
  }

  /** The comparison of the two counters. */
  predicate SameCounts<C, K(==)>(manifest: seq<K>, supplied: map<K, seq<C>>) {
    forall key :: key in supplied.Keys + (set e | e in manifest) ==> WantedAt(supplied, manifest, key)
  }

  lemma SameCountsMeans<C(!new), K(!new)>(manifest: seq<K>, supplied: map<K, seq<C>>)
    ensures SameCounts(manifest, supplied) <==> Wanted(supplied, manifest)
  {
    if SameCounts(manifest, supplied) {
      forall key ensures WantedAt(supplied, manifest, key) {
        if key !in supplied.Keys + (set e | e in manifest) {
          assert key !in manifest;
        }
      }
    }
  }

  /**
   One candidate leaves its bucket. The bucket cannot be empty: once the counters
   agree, every key still has as many candidates as the rest of the manifest asks for.
   */
  lemma Popped<C(!new), K(!new)>(claim: C -> Option<K>, supplied: map<K, seq<C>>, used: seq<C>, items: seq<C>, key: K, rest: seq<K>)
    requires Sorted(claim, supplied) && Accounted(claim, supplied, used, items) && Wanted(supplied, [key] + rest)
    ensures var bucket := Bucket(supplied, key);
            && bucket != []
            && var candidate, less := bucket[|bucket| - 1], supplied[key := bucket[..|bucket| - 1]];
            && candidate in items && claim(candidate) == Some(key)
            && Sorted(claim, less) && Accounted(claim, less, used + [candidate], items) && Wanted(less, rest)
  {
    assert WantedAt(supplied, [key] + rest, key);
    var bucket := Bucket(supplied, key);
    var candidate, less := bucket[|bucket| - 1], supplied[key := bucket[..|bucket| - 1]];
    assert bucket == bucket[..|bucket| - 1] + [candidate];
    assert claim(candidate) == Some(key) && Sorted(claim, less) by {
      assert candidate in supplied[key];
    }
    assert candidate in items by {
      assert AccountedAt(claim, supplied, used, items, candidate);
    }
    forall j ensures AccountedAt(claim, less, used + [candidate], items, j) {
      OneMoved(claim, supplied, used, items, key, candidate, j);
    }
    forall other ensures WantedAt(less, rest, other) {
      assert WantedAt(supplied, [key] + rest, other);
    }
  }

  lemma OneMoved<C, K>(claim: C -> Option<K>, supplied: map<K, seq<C>>, used: seq<C>, items: seq<C>, key: K, candidate: C, j: C)
    requires AccountedAt(claim, supplied, used, items, j)
    requires claim(candidate) == Some(key) && Bucket(supplied, key) != [] && candidate == Bucket(supplied, key)[|Bucket(supplied, key)| - 1]
    ensures AccountedAt(claim, supplied[key := Bucket(supplied, key)[..|Bucket(supplied, key)| - 1]], used + [candidate], items, j)
  {
    var bucket := Bucket(supplied, key);
    assert bucket == bucket[..|bucket| - 1] + [candidate];
    assert multiset(bucket)[j] == multiset(bucket[..|bucket| - 1])[j] + multiset([candidate])[j];
    assert multiset(used + [candidate])[j] == multiset(used)[j] + multiset([candidate])[j];
  }

  /** Candidate by candidate, `used` makes the claims of the manifest, and each is genuine. */
  ghost predicate Follows<C(!new), K(!new)>(claim: C -> Option<K>, genuine: (C, K) -> bool, manifest: seq<K>, used: seq<C>) {
    |used| == |manifest| && forall k :: 0 <= k < |used| ==> claim(used[k]) == Some(manifest[k]) && genuine(used[k], manifest[k])
  }

  /**
   The matcher takes exactly the authoritative replays, whatever order the
   candidates come in; what it takes follows the manifest, and is the supplied
   list with every candidate once.
   */
  method Match<C(==,!new), K(==,!new)>(claim: C -> Option<K>, genuine: (C, K) -> bool, manifest: seq<K>, items: seq<C>)
    returns (used: Option<seq<C>>)
    ensures used.Some? <==> Authoritative(claim, genuine, manifest, items)
    ensures used.Some? ==> Follows(claim, genuine, manifest, used.value) && multiset(used.value) == multiset(items)
  {
    if |manifest| != |items| {
      if Authoritative(claim, genuine, manifest, items) {
        SameLength(claim, manifest, items);
      }
      return None;
    }
    var supplied := Group(claim, items);
    if supplied.None? {
      return None;
    }
    var buckets := supplied.value;
    SameCountsMeans(manifest, buckets);
    CountsCompareClaims(claim, manifest, buckets, items);
    if !SameCounts(manifest, buckets) {
      return None;
    }
    var taken: seq<C> := [];
    assert manifest[0..] == manifest;
    for n := 0 to |manifest|
      invariant Sorted(claim, buckets) && Accounted(claim, buckets, taken, items) && Wanted(buckets, manifest[n..])
      invariant Follows(claim, genuine, manifest[..n], taken)
    {
      var expected := manifest[n];
      assert manifest[n..] == [expected] + manifest[n + 1..];
      Popped(claim, buckets, taken, items, expected, manifest[n + 1..]);
      var bucket := Bucket(buckets, expected);
      var candidate := bucket[|bucket| - 1];
      buckets := buckets[expected := bucket[..|bucket| - 1]];
      if !genuine(candidate, expected) {
        return None;
      }
      assert manifest[..n + 1] == manifest[..n] + [expected];
      taken := taken + [candidate];
    }
    assert manifest[..|manifest|] == manifest && manifest[|manifest|..] == [];
    AllUsed(claim, genuine, buckets, manifest, taken, items);
    return Some(taken);
  }

  lemma CountsCompareClaims<C(!new), K(!new)>(claim: C -> Option<K>, manifest: seq<K>, supplied: map<K, seq<C>>, items: seq<C>)
    requires Sized(claim, supplied, items)
    ensures Wanted(supplied, manifest) <==> forall key :: multiset(manifest)[key] == multiset(Claims(claim, items))[Some(key)]
  {
    forall key ensures WantedAt(supplied, manifest, key) <==> multiset(manifest)[key] == multiset(Claims(claim, items))[Some(key)] {
      assert SizedAt(claim, supplied, items, key);
    }
  }

  /** With every bucket empty, the candidates taken are the candidates supplied, and all are genuine. */
  lemma AllUsed<C(!new), K(!new)>(
      claim: C -> Option<K>, genuine: (C, K) -> bool, supplied: map<K, seq<C>>, manifest: seq<K>, used: seq<C>, items: seq<C>)
    requires Wanted(supplied, []) && Accounted(claim, supplied, used, items) && Follows(claim, genuine, manifest, used)
    requires forall j :: j in items ==> claim(j).Some?
    ensures multiset(used) == multiset(items)
    ensures forall j :: j in items ==> genuine(j, claim(j).value)
  {
    forall j ensures multiset(used)[j] == multiset(items)[j] {
      assert AccountedAt(claim, supplied, used, items, j);
      if claim(j).None? {
        assert j !in items && j !in used;
      } else {
        assert WantedAt(supplied, [], claim(j).value);
      }
    }
    forall j | j in items ensures genuine(j, claim(j).value) {
      assert j in multiset(used);
      var k :| 0 <= k < |used| && used[k] == j;
    }
  }

  function Somes<K>(manifest: seq<K>): seq<Option<K>> {
    seq(|manifest|, k requires 0 <= k < |manifest| => Some(manifest[k]))
  }

  lemma {:induction false} SomesCount<K>(manifest: seq<K>, o: Option<K>)
    ensures multiset(Somes(manifest))[o] == if o.Some? then multiset(manifest)[o.value] else 0
  {
    if manifest == [] {
      assert Somes(manifest) == [];
    } else {
      var init, last := manifest[..|manifest| - 1], manifest[|manifest| - 1];
      SomesCount(init, o);
      assert manifest == init + [last] && Somes(manifest) == Somes(init) + [Some(last)];
    }
  }

  lemma SameLength<C(!new), K(!new)>(claim: C -> Option<K>, manifest: seq<K>, items: seq<C>)
    requires forall j :: j in items ==> claim(j).Some?
    requires forall key :: multiset(manifest)[key] == multiset(Claims(claim, items))[Some(key)]
    ensures |manifest| == |items|
  {
    forall o ensures multiset(Somes(manifest))[o] == multiset(Claims(claim, items))[o] {
      SomesCount(manifest, o);
      if o.None? {
        assert None !in Claims(claim, items);
      } else {
        assert multiset(manifest)[o.value] == multiset(Claims(claim, items))[Some(o.value)];
      }
    }
    assert multiset(Somes(manifest)) == multiset(Claims(claim, items));
    assert |multiset(Somes(manifest))| == |manifest| && |multiset(Claims(claim, items))| == |items|;
  }

  // ---------------------------------------------------------------------
  // The replay of one inbound item
  // ---------------------------------------------------------------------

  function ClaimBy(codec: Codec): Value -> Option<Entry> {
    (j: Value) => Claim(codec, j)
  }

  function GenuineBy(codec: Codec): (Value, Entry) -> bool {
    (j: Value, entry: Entry) => Verifies(codec, j, entry)
  }

  /** The manifest in order, each entry with the bytes of the candidate at its place. */
  predicate ReplaysTo(manifest: seq<Entry>, used: seq<Value>, replay: seq<Replay>) {
    && |replay| == |used| == |manifest|
    && forall k :: 0 <= k < |manifest| ==> replay[k].entry == manifest[k] && Payload(used[k]) == Some(replay[k].data)
  }

  method MatchReplay(codec: Codec, raw: Value, payload: Value) returns (replay: Option<seq<Replay>>, ghost used: seq<Value>)
    ensures replay.Some? <==>
      && Manifest(codec, raw).Some? && payload.Items?
      && Authoritative(ClaimBy(codec), GenuineBy(codec), Manifest(codec, raw).value, payload.items)
    ensures replay.Some? ==>
      && ReplaysTo(Manifest(codec, raw).value, used, replay.value)
      && Follows(ClaimBy(codec), GenuineBy(codec), Manifest(codec, raw).value, used)
      && multiset(used) == multiset(payload.items)
  {
    used := [];
    var manifest := NormalizedManifest(codec, raw);
    if manifest.None? || !payload.Items? {
      return None, used;
    }
    var matched := Match(ClaimBy(codec), GenuineBy(codec), manifest.value, payload.items);
    if matched.None? {
      return None, used;
    }
    used := matched.value;
    var normalized := Attach(codec, manifest.value, matched.value);
    return Some(normalized), used;
  }

  method Attach(codec: Codec, manifest: seq<Entry>, used: seq<Value>) returns (replay: seq<Replay>)
    requires Follows(ClaimBy(codec), GenuineBy(codec), manifest, used)
    ensures ReplaysTo(manifest, used, replay)
  {
    replay := [];
    for n := 0 to |manifest|
      invariant |replay| == n
      invariant forall k :: 0 <= k < n ==> replay[k].entry == manifest[k] && Payload(used[k]) == Some(replay[k].data)
    {
      assert GenuineBy(codec)(used[n], manifest[n]);
      replay := replay + [Replay(manifest[n], Payload(used[n]).value)];
    }
  }
}
