/**
 Durable results: redaction, sealing under a keyring, and the record a row
 reads back as. Encryption is symbolic: a ciphertext opens under exactly the
 key, nonce and context it was made with. A digest stands for the canonical
 text it was taken of, and two values have the same canonical text exactly
 when they are equal. Sizes of canonical text come from a parameter.
 */
module DurableResults {
  import opened JsonValue
  import opened Text
  import opened Wrappers

  const MAX_RESULT_BYTES: nat := 65536
  const MAX_DOCUMENT_BYTES: nat := MAX_RESULT_BYTES + 1024
  const MAX_DEPTH: nat := 12
  const MAX_LIST: nat := 1000

  /** The bytes around a result in its document: both keys, the digest and the version. */
  const DOCUMENT_FRAME: nat := 112

  const REDACTED := Words("[REDACTED]")

  // ---------------------------------------------------------------------
  // Redaction
  // ---------------------------------------------------------------------

  const SECRET_WORDS := ["password", "secret", "token", "authorization", "cookie", "credential", "privatekey",
    "apikey", "accesskey", "signature", "session", "reseturl", "verificationurl"]

  const CONTENT_WORDS := ["body", "raw", "mime", "html", "htmlbody", "textbody", "headers", "url", "uri",
    "email", "recipient", "recipients", "phone", "cardnumber", "cvv"]

  function Alphanumeric(s: string): string {
    if s == "" then ""
    else (if 'a' <= s[0] <= 'z' || '0' <= s[0] <= '9' then [s[0]] else "") + Alphanumeric(s[1..])
  }

  predicate Contains(s: string, word: string) {
    exists k :: 0 <= k && k + |word| <= |s| && s[k..][..|word|] == word
  }

  predicate Sensitive(name: string) {
    exists w :: w in SECRET_WORDS + CONTENT_WORDS && Contains(Alphanumeric(Lower(name)), w)
  }

  /** The recursive walk; None where it raises: too deep, or too long a list. */
  function Visit(v: Value, depth: nat): Option<Value> {
    if depth > MAX_DEPTH then None
    else match v
      case Record(fields) =>
        if forall k :: k in fields ==> Sensitive(k) || Visit(fields[k], depth + 1).Some? then
          Some(Record(map k | k in fields :: if Sensitive(k) then REDACTED else Visit(fields[k], depth + 1).value))
        else None
      case Items(items) =>
        if |items| <= MAX_LIST && forall k :: 0 <= k < |items| ==> Visit(items[k], depth + 1).Some? then
          Some(Items(seq(|items|, k requires 0 <= k < |items| => Visit(items[k], depth + 1).value)))
        else None
      case _ => Some(v)
  }

  /** canonical(): only objects, and only up to a limit. */
  predicate Canonical(size: Size, v: Value, limit: nat) {
    v.Record? && size(v) <= limit
  }

  function Redact(size: Size, v: Value): Option<Value> {
    if Canonical(size, v, MAX_RESULT_BYTES) then Visit(v, 0) else None
  }

  // ---------------------------------------------------------------------
  // Sealing
  // ---------------------------------------------------------------------

  type KeyId = string
  type Key = nat
  type Nonce = nat

  /** sha256 of a canonical text. */
  datatype Digest = Digest(of: Value)

  datatype Document =
    | Payload(hash: Digest, result: Value)
    | Tombstone(hash: Digest, purgedAt: int, policy: string)

  /** What is encrypted: a control response, or the document of an integration result. */
  datatype Plain = Reply(value: Value) | Doc(document: Document)

  datatype Binding = Binding(kind: Kind, parts: seq<string>)

  datatype Kind = Control | Integration

  datatype Context = Context(kid: KeyId, binding: Binding)

  datatype Cipher = Cipher(key: Key, nonce: Nonce, context: Context, plain: Plain)

  /** The stored column: legacy JSON, an envelope, or anything else. */
  datatype Stored = Legacy(value: Value) | Envelope(kid: KeyId, nonce: Nonce, cipher: Cipher) | Garbage

  datatype Env = Env(keys: map<KeyId, Key>, active: KeyId, legacyRead: bool, size: Size)

  datatype Row = Row(id: nat, tenant: string, created: int, binding: Binding, stored: Stored)

  function PlainSize(size: Size, plain: Plain): nat {
    match plain
    case Reply(value) => size(value)
    case Doc(Payload(_, result)) => DOCUMENT_FRAME + size(result)
    case Doc(Tombstone(_, _, _)) => 0
  }

  predicate Bound(binding: Binding) {
    forall p :: p in binding.parts ==> p != ""
  }

  function Seal(env: Env, plain: Plain, binding: Binding, nonce: Nonce): Option<Stored> {
    if Bound(binding) && env.active in env.keys && PlainSize(env.size, plain) <= MAX_DOCUMENT_BYTES
      && (plain.Reply? ==> plain.value.Record?)
    then Some(Envelope(env.active, nonce, Cipher(env.keys[env.active], nonce, Context(env.active, binding), plain)))
    else None
  }

  function Decrypt(key: Key, nonce: Nonce, context: Context, cipher: Cipher): Option<Plain> {
    if cipher.key == key && cipher.nonce == nonce && cipher.context == context then Some(cipher.plain) else None
  }

  function Unseal(env: Env, stored: Stored, binding: Binding): Option<Plain> {
    match stored
    case Garbage => None
    case Legacy(value) =>
      if Bound(binding) && env.legacyRead && Canonical(env.size, value, MAX_RESULT_BYTES) && "format" !in value.fields
      then Some(Reply(value)) else None
    case Envelope(kid, nonce, cipher) =>
      if Bound(binding) && kid in env.keys then
        var plain :- Decrypt(env.keys[kid], nonce, Context(kid, binding), cipher);
        if PlainSize(env.size, plain) <= MAX_DOCUMENT_BYTES then Some(plain) else None
      else None
  }

  // ---------------------------------------------------------------------
  // Integration results
  // ---------------------------------------------------------------------

  function SealResult(env: Env, v: Value, binding: Binding, nonce: Nonce): Option<Stored> {
    var result :- Redact(env.size, v);
    Seal(env, Doc(Payload(Digest(v), result)), binding, nonce)
  }

  function IntegrationRecord(env: Env, row: Row): Option<Document> {
    var plain :- Unseal(env, row.stored, row.binding);
    match plain
    case Reply(value) =>
      if row.stored.Legacy? then
        var result :- Redact(env.size, value);
        Some(Payload(Digest(value), result))
      else None
    case Doc(Payload(hash, result)) =>
      var again :- Redact(env.size, result);
      Some(Payload(hash, again))
    case Doc(Tombstone(hash, purgedAt, policy)) => Some(Tombstone(hash, purgedAt, policy))
  }

  function SealTombstone(env: Env, row: Row, now: int, policy: string, nonce: Nonce): Option<Stored> {
    var document :- IntegrationRecord(env, row);
    if document.Tombstone? then Some(row.stored)
    else Seal(env, Doc(Tombstone(document.hash, now, policy)), row.binding, nonce)
  }

  /** Whether a repeated submission is the one first accepted; None where the check raises. */
  function Matches(env: Env, row: Row, v: Value): Option<bool> {
    var document :- IntegrationRecord(env, row);
    if Canonical(env.size, v, MAX_RESULT_BYTES) then Some(document.hash == Digest(v)) else None
  }

  datatype Availability = Unavailable | Purged | Expired | Available | Invalid

  function Readback(env: Env, row: Option<Row>, now: int, retention: int): (Value, Availability) {
    if row.None? then (Record(map[]), Unavailable)
    else match IntegrationRecord(env, row.value)
      case None => (Record(map[]), Invalid)
      case Some(Tombstone(_, _, _)) => (Record(map[]), Purged)
      case Some(Payload(_, result)) =>
        if row.value.created + retention <= now then (Record(map[]), Expired) else (result, Available)
  }

  // ---------------------------------------------------------------------
  // Rewrapping
  // ---------------------------------------------------------------------

  function Reread(env: Env, row: Row): Option<Plain> {
    match row.binding.kind
    case Control =>
      var plain :- Unseal(env, row.stored, row.binding);
      if plain.Reply? then Some(plain) else None
    case Integration =>
      var document :- IntegrationRecord(env, row);
      Some(Doc(document))
  }

  function Rewrap(env: Env, row: Row, nonce: Nonce): Option<Stored> {
    var plain :- Reread(env, row);
    Seal(env, plain, row.binding, nonce)
  }

  // ---------------------------------------------------------------------
  // Redaction is idempotent
  // ---------------------------------------------------------------------

  /** Redacting what is already redacted changes nothing, at any depth it was redacted at or above. */
  lemma {:induction false} VisitIdempotent(v: Value, depth: nat)
    requires Visit(v, depth).Some?
    ensures Visit(Visit(v, depth).value, depth) == Some(Visit(v, depth).value)
    decreases v
  {
    var r := Visit(v, depth).value;
    match v
    case Record(fields) =>
      forall k | k in fields && !Sensitive(k)
        ensures Visit(r.fields[k], depth + 1) == Some(r.fields[k])
      {
        VisitIdempotent(fields[k], depth + 1);
      }
      assert forall k :: k in r.fields ==> Sensitive(k) || Visit(r.fields[k], depth + 1).Some?;
      assert Visit(r, depth).value.fields == r.fields;
    case Items(items) =>
      forall k | 0 <= k < |items|
        ensures Visit(r.items[k], depth + 1) == Some(r.items[k])
      {
        VisitIdempotent(items[k], depth + 1);
      }
      assert Visit(r, depth).value.items == r.items;
    case _ =>
  }

  /** No field with a sensitive name holds anything but the mark, at any depth. */
  predicate Clean(v: Value) {
    match v
    case Record(fields) => forall k :: k in fields ==> if Sensitive(k) then fields[k] == REDACTED else Clean(fields[k])
    case Items(items) => forall k :: 0 <= k < |items| ==> Clean(items[k])
    case _ => true
  }

  lemma {:induction false} VisitCleans(v: Value, depth: nat)
    requires Visit(v, depth).Some?
    ensures Clean(Visit(v, depth).value)
    decreases v
  {
    var r := Visit(v, depth).value;
    match v
    case Record(fields) =>
      forall k | k in fields && !Sensitive(k) ensures Clean(r.fields[k]) {
        VisitCleans(fields[k], depth + 1);
      }
    case Items(items) =>
      forall k | 0 <= k < |items| ensures Clean(r.items[k]) {
        VisitCleans(items[k], depth + 1);
      }
    case _ =>
  }

  /** Redaction touches nothing else: a value that is clean already is left as it is. */
  lemma {:induction false} CleanIsUntouched(v: Value, depth: nat)
    requires Visit(v, depth).Some? && Clean(v)
    ensures Visit(v, depth) == Some(v)
    decreases v
  {
    match v
    case Record(fields) =>
      forall k | k in fields && !Sensitive(k) ensures Visit(fields[k], depth + 1) == Some(fields[k]) {
        CleanIsUntouched(fields[k], depth + 1);
      }
      assert Visit(v, depth).value.fields == fields;
    case Items(items) =>
      forall k | 0 <= k < |items| ensures Visit(items[k], depth + 1) == Some(items[k]) {
        CleanIsUntouched(items[k], depth + 1);
      }
      assert Visit(v, depth).value.items == items;
    case _ =>
  }
}
