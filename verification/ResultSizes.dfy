/** The limits of durable results, measured on the canonical text: redaction can take a value over them. */
module ResultSizes {
  import opened DurableResults
  import opened JsonValue
  import opened ReplayIdentity
  import opened Text
  import opened Wrappers

  /** The frame of a document is what its text has beside the result. */
  lemma FrameIsExact(hash: string, result: Value)
    requires |hash| == 64 && forall k :: 0 <= k < 64 ==> CharSize(hash[k]) == 1
    ensures TextSize(DocumentText("schema_version", "request_hash", "result", hash, result)) == DOCUMENT_FRAME + TextSize(result)
  {
    PlainCharsSize(hash);
    VersionName();
    HashName();
    ResultName();
    DocumentSize("schema_version", "request_hash", "result", hash, result);
  }

  function DocumentText(version: string, digest: string, name: string, hash: string, result: Value): Value {
    Record(map[version := Number("1"), digest := Words(hash), name := result])
  }

  lemma DocumentSize(version: string, digest: string, name: string, hash: string, result: Value)
    requires version != digest && digest != name && version != name
    ensures TextSize(DocumentText(version, digest, name, hash, result))
         == 4 + MemberSize(version, 1) + MemberSize(digest, WordSize(hash)) + MemberSize(name, TextSize(result))
  {
    var fields := map[version := Number("1"), digest := Words(hash), name := result];
    var sizes := map[version := 1, digest := WordSize(hash), name := TextSize(result)];
    assert fields.Keys == {version, digest, name} == sizes.Keys;
    assert |fields| == |fields.Keys| == 3;
    RecordSize(fields, sizes);
    ThreeMembers(version, 1, digest, WordSize(hash), name, TextSize(result));
  }

  lemma VersionName()
    ensures WordSize("schema_version") == 16
  {
    NameSize("schema_version");
  }

  lemma HashName()
    ensures WordSize("request_hash") == 14
  {
    NameSize("request_hash");
  }

  lemma ResultName()
    ensures WordSize("result") == 8
  {
    NameSize("result");
  }

  /** One plain field and one that is redacted. */
  function Padded(pad: string, url: string): Value {
    Record(map["n" := Words(pad), "url" := Words(url)])
  }

  lemma PaddedSize(pad: string, url: string)
    ensures TextSize(Padded(pad, url)) == 17 + CharsSize(pad) + CharsSize(url)
  {
    var fields := map["n" := Words(pad), "url" := Words(url)];
    PaddedMembers(WordSize(pad), WordSize(url));
    assert |fields.Keys| == 2 by { assert fields.Keys == {"n", "url"}; }
    RecordSize(fields, map["n" := WordSize(pad), "url" := WordSize(url)]);
  }

  lemma PaddedMembers(pad: nat, url: nat)
    ensures FieldsSize(map["n" := pad, "url" := url]) == 10 + pad + url
  {
    TwoMembers("n", pad, "url", url);
    PlainCharsSize("n");
    PlainCharsSize("url");
  }

  lemma UrlIsSensitive()
    ensures Sensitive("url")
  {
    assert Lower("url") == "url";
    assert Alphanumeric("url") == ['u'] + Alphanumeric("rl") == "u" + (['r'] + Alphanumeric("l")) == "url";
    assert "url"[0..][..3] == "url";
    assert Contains("url", "url");
    assert CONTENT_WORDS[7] == "url" && "url" in CONTENT_WORDS;
    assert "url" in SECRET_WORDS + CONTENT_WORDS;
  }

  lemma {:induction false} AlphanumericShrinks(s: string)
    ensures |Alphanumeric(s)| <= |s|
  {
    if s != "" { AlphanumericShrinks(s[1..]); }
  }

  /** Every sensitive word has at least three letters. */
  lemma ShortNamesAreNotSensitive(name: string)
    requires |name| < 3
    ensures !Sensitive(name)
  {
    AlphanumericShrinks(Lower(name));
    forall w | w in SECRET_WORDS + CONTENT_WORDS ensures |w| >= 3 {
      if w in SECRET_WORDS { SecretWordsAreLong(w); } else { ContentWordsAreLong(w); }
    }
  }

  lemma SecretWordsAreLong(w: string)
    requires w in SECRET_WORDS
    ensures |w| >= 3
  {
    var k :| 0 <= k < |SECRET_WORDS| && SECRET_WORDS[k] == w;
  }

  lemma ContentWordsAreLong(w: string)
    requires w in CONTENT_WORDS
    ensures |w| >= 3
  {
    var k :| 0 <= k < |CONTENT_WORDS| && CONTENT_WORDS[k] == w;
  }

  lemma PaddedRedacts(pad: string, url: string)
    ensures Visit(Padded(pad, url), 0) == Some(Padded(pad, "[REDACTED]"))
  {
    UrlIsSensitive();
    ShortNamesAreNotSensitive("n");
    RedactsTwo("n", Words(pad), "url", Words(url));
  }

  lemma RedactsTwo(plain: string, v: Value, secret: string, w: Value)
    requires !Sensitive(plain) && Sensitive(secret) && Visit(v, 1) == Some(v)
    ensures Visit(Record(map[plain := v, secret := w]), 0) == Some(Record(map[plain := v, secret := REDACTED]))
  {
    var before, after := map[plain := v, secret := w], map[plain := v, secret := REDACTED];
    assert forall k :: k in before ==> Sensitive(k) || Visit(before[k], 1).Some?;
    assert after == map k | k in before :: if Sensitive(k) then REDACTED else Visit(before[k], 1).value;
  }

  /** Where one value is at the limit and its redacted form beyond, it is accepted and cannot be read. */
  lemma OutgrowsIfLonger(env: Env, v: Value, redacted: Value, binding: Binding, nonce: Nonce)
    requires env.active in env.keys && Bound(binding) && v.Record? && Visit(v, 0) == Some(redacted)
    requires env.size(v) <= MAX_RESULT_BYTES < env.size(redacted) <= MAX_DOCUMENT_BYTES - DOCUMENT_FRAME
    ensures Canonical(env.size, v, MAX_RESULT_BYTES) && SealResult(env, v, binding, nonce).Some? && !Fits(env.size, v)
  {
  }

  /** A value of exactly the limit whose one sensitive field is empty: redaction takes it ten bytes over. */
  lemma RedactionOutgrows(keys: map<KeyId, Key>, active: KeyId, binding: Binding, nonce: Nonce)
    requires active in keys && Bound(binding)
    ensures var env, v := Env(keys, active, true, TextSize), Padded(seq(65519, _ => 'a'), "");
            && Canonical(env.size, v, MAX_RESULT_BYTES) && SealResult(env, v, binding, nonce).Some?
            && Visit(v, 0).Some? && !Fits(env.size, v)
  {
    var env, pad := Env(keys, active, true, TextSize), seq(65519, _ => 'a');
    PlainCharsSize(pad);
    PlainCharsSize("[REDACTED]");
    PaddedSize(pad, "");
    PaddedSize(pad, "[REDACTED]");
    PaddedRedacts(pad, "");
    OutgrowsIfLonger(env, Padded(pad, ""), Padded(pad, "[REDACTED]"), binding, nonce);
  }
}
