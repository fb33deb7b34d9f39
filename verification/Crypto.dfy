/** Field encryption and key preimages, over abstract primitives. */
module Crypto {
  import opened Wrappers
  import opened Text
  import opened Models

  /** The foreign code: hashing, authenticated encryption, base64 and JSON, and the two configured secrets. */
  datatype Env = Env(
    masterKey: string,
    jwtSecret: Bytes,
    utf8: string -> Bytes,
    sha256: Bytes -> Bytes,
    seal: (Bytes, Bytes, string) -> Bytes,
    unseal: (Bytes, Bytes, Bytes) -> Option<string>,
    base64: Bytes -> string,
    unbase64: string -> Option<Bytes>,
    base64Url: Bytes -> string,
    unbase64Url: string -> Option<Bytes>,
    configJson: ClientConfig -> string,
    parseConfig: string -> Option<ClientConfig>,
    payloadJson: PushPayload -> string,
    parsePayload: string -> Option<PushPayload>,
    claimsJson: Claims -> Bytes,
    parseClaims: Bytes -> Option<Claims>,
    headerAlg: Bytes -> Option<string>)

  /** Opening what was sealed under the same key and nonce gives the plaintext; base64 decodes what it encoded. */
  ghost predicate CipherLaws(env: Env) {
    && (forall k: Bytes, n: Bytes, text: string :: env.unseal(k, n, env.seal(k, n, text)) == Some(text))
    && (forall b: Bytes :: env.unbase64(env.base64(b)) == Some(b))
    && (forall b: Bytes :: ':' !in env.base64(b))
  }

  /** JSON reads a payload back as it was written. */
  ghost predicate PayloadSurvives(env: Env, m: PushPayload) {
    env.parsePayload(env.payloadJson(m)) == Some(m)
  }

  const NONCE_LENGTH := 12

  /** The text whose hash is the encryption key. */
  function KeyPreimage(master: string, context: string): string {
    master + ":" + context
  }

  function DeriveKey(env: Env, master: string, context: string): Bytes {
    env.sha256(env.utf8(KeyPreimage(master, context)))
  }

  /** Ciphertext and nonce, both in base64. */
  function EncryptParts(env: Env, master: string, context: string, plaintext: string, nonce: Bytes): (string, string) {
    (env.base64(env.seal(DeriveKey(env, master, context), nonce, plaintext)), env.base64(nonce))
  }

  function DecryptParts(env: Env, master: string, context: string, ciphertext: string, nonce: string): Option<string> {
    var c := env.unbase64(ciphertext);
    var n := env.unbase64(nonce);
    if c.None? || n.None? || |n.value| != NONCE_LENGTH then None
    else env.unseal(DeriveKey(env, master, context), n.value, c.value)
  }

  function EncryptToBase64(env: Env, master: string, context: string, plaintext: string, nonce: Bytes): string {
    var (ciphertext, n) := EncryptParts(env, master, context, plaintext, nonce);
    n + ":" + ciphertext
  }

  function DecryptFromBase64(env: Env, master: string, context: string, value: string): Option<string> {
    match SplitOnce(value, ':')
    case None => None
    case Some((nonce, ciphertext)) => DecryptParts(env, master, context, ciphertext, nonce)
  }

  /** A stored field decrypts to the text it was made from, whatever nonce was drawn. */
  lemma DecryptAfterEncrypt(env: Env, master: string, context: string, plaintext: string, nonce: Bytes)
    requires CipherLaws(env) && |nonce| == 12
    ensures DecryptFromBase64(env, master, context, EncryptToBase64(env, master, context, plaintext, nonce))
            == Some(plaintext)
  {
    var (ciphertext, n) := EncryptParts(env, master, context, plaintext, nonce);
    SplitOnceOfPieces(n, ciphertext, ':');
    assert n + ":" + ciphertext == n + [':'] + ciphertext;
  }

  /** A stored value opens only if it is a base64 nonce of 12 bytes, a colon and a base64 ciphertext. */
  lemma OpensOnlySealed(env: Env, master: string, context: string, value: string)
    requires DecryptFromBase64(env, master, context, value).Some?
    ensures exists nonce: string, ciphertext: string ::
              && value == nonce + ":" + ciphertext && ':' !in nonce
              && env.unbase64(nonce).Some? && |env.unbase64(nonce).value| == 12 && env.unbase64(ciphertext).Some?
  {
    var parts := SplitOnce(value, ':').value;
    assert value == parts.0 + ":" + parts.1;
  }

  /** A stored value with no separator is refused under every key. */
  lemma PlainTextIsRefused(env: Env, master: string, context: string, value: string)
    requires ':' !in value
    ensures DecryptFromBase64(env, master, context, value) == None
  {
    assert SplitOnce(value, ':') == None;
  }

  function PushKeyMaterial(deviceId: string, deviceToken: string): string {
    deviceId + ":" + deviceToken
  }

  function PushContext(deviceId: string, version: nat): string {
    "push:" + deviceId + ":" + Decimal(version)
  }

  /** What is hashed into the key of one push. */
  function PushKeyPreimage(deviceId: string, deviceToken: string, version: nat): string {
    KeyPreimage(PushKeyMaterial(deviceId, deviceToken), PushContext(deviceId, version))
  }

  /** Two pushes share a key preimage only when device, token and version all agree. */
  lemma PushKeyPreimageInjective(id: string, token: string, version: nat, id': string, token': string, version': nat)
    requires ':' !in id && ':' !in token && ':' !in id' && ':' !in token'
    requires PushKeyPreimage(id, token, version) == PushKeyPreimage(id', token', version')
    ensures id == id' && token == token' && version == version'
  {
    PreimagePieces(id, token, version);
    PreimagePieces(id', token', version');
    SplitUnique(id, token + [':'] + PushContext(id, version), id', token' + [':'] + PushContext(id', version'), ':');
    SplitUnique(token, PushContext(id, version), token', PushContext(id', version'), ':');
    var skip := |"push:" + id + ":"|;
    assert PushContext(id, version)[skip..] == Decimal(version);
    assert PushContext(id', version')[skip..] == Decimal(version');
    DecimalInjective(version, version');
  }

  /** The text that both ends hash into the key of a push. */
  lemma PushKeyText(env: Env, id: string, token: string, version: nat)
    ensures DeriveKey(env, PushKeyMaterial(id, token), PushContext(id, version))
            == env.sha256(env.utf8(id + ":" + token + ":push:" + id + ":" + Decimal(version)))
  {
    assert id + ":" + token + ":" + ("push:" + id + ":" + Decimal(version))
           == id + ":" + token + ":push:" + id + ":" + Decimal(version);
  }

  lemma PreimagePieces(id: string, token: string, version: nat)
    ensures PushKeyPreimage(id, token, version) == id + [':'] + (token + [':'] + PushContext(id, version))
  {
  }
}
