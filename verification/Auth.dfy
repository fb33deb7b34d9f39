/** Login tokens: the HMAC they rest on, signing and verification. */
module Auth {
  import opened Wrappers
  import opened Text
  import opened Models
  import opened Crypto

  // ---------------------------------------------------------------- HMAC-SHA-256

  const BLOCK_SIZE := 64
  const DIGEST_SIZE := 32
  const IPAD: bv8 := 0x36
  const OPAD: bv8 := 0x5c

  ghost predicate DigestLaw(env: Env) {
    forall b: Bytes :: |env.sha256(b)| == DIGEST_SIZE
  }

  /** The key as one block: hashed when longer, then filled up with zeros. */
  function KeyBlock(env: Env, key: Bytes): (block: Bytes)
    ensures |block| == BLOCK_SIZE
  {
    var k := if |key| > BLOCK_SIZE then env.sha256(key) else key;
    seq(BLOCK_SIZE, i requires 0 <= i => if i < |k| then k[i] else 0)
  }

  function XorWith(block: Bytes, pad: bv8): (r: Bytes)
    ensures |r| == |block|
  {
    seq(|block|, i requires 0 <= i < |block| => pad ^ block[i])
  }

  /** H(K XOR opad, H(K XOR ipad, text)), as section 2 of RFC 2104 defines it. */
  function Hmac(env: Env, key: Bytes, text: Bytes): Bytes {
    var k := KeyBlock(env, key);
    env.sha256(XorWith(k, OPAD) + env.sha256(XorWith(k, IPAD) + text))
  }

  /** The formula written out, with the pads and the block length of section 2 of RFC 2104. */
  lemma HmacFormula(env: Env, key: Bytes, text: Bytes)
    ensures var k := if |key| > 64 then env.sha256(key) else key;
            var inner := seq(64, i requires 0 <= i < 64 => 0x36 as bv8 ^ if i < |k| then k[i] else 0);
            var outer := seq(64, i requires 0 <= i < 64 => 0x5c as bv8 ^ if i < |k| then k[i] else 0);
            Hmac(env, key, text) == env.sha256(outer + env.sha256(inner + text))
  {
    var k := if |key| > 64 then env.sha256(key) else key;
    assert XorWith(KeyBlock(env, key), IPAD)
           == seq(64, i requires 0 <= i < 64 => 0x36 as bv8 ^ if i < |k| then k[i] else 0);
    assert XorWith(KeyBlock(env, key), OPAD)
           == seq(64, i requires 0 <= i < 64 => 0x5c as bv8 ^ if i < |k| then k[i] else 0);
  }

  /** The key copied, or hashed, into a zeroed block. */
  method NormalizedKey(env: Env, key: Bytes) returns (normalized: array<bv8>)
    requires DigestLaw(env)
    ensures fresh(normalized) && normalized[..] == KeyBlock(env, key)
  {
    normalized := new bv8[BLOCK_SIZE](_ => 0);
    if |key| > BLOCK_SIZE {
      var digest := env.sha256(key);
      forall i | 0 <= i < DIGEST_SIZE { normalized[i] := digest[i]; }
    } else {
      forall i | 0 <= i < |key| { normalized[i] := key[i]; }
    }
  }

  /** The loop over fixed arrays computes it for keys of every length. */
  method HmacSha256(env: Env, key: Bytes, text: Bytes) returns (r: Bytes)
    requires DigestLaw(env)
    ensures r == Hmac(env, key, text)
    ensures var k := if |key| > 64 then env.sha256(key) else key;
            var inner := seq(64, i requires 0 <= i < 64 => 0x36 as bv8 ^ if i < |k| then k[i] else 0);
            var outer := seq(64, i requires 0 <= i < 64 => 0x5c as bv8 ^ if i < |k| then k[i] else 0);
            r == env.sha256(outer + env.sha256(inner + text))
  {
    HmacFormula(env, key, text);
    hide KeyBlock;
    var normalized := NormalizedKey(env, key);
    ghost var block := KeyBlock(env, key);
    assert normalized.Length == |normalized[..]|;
    var ipad := new bv8[BLOCK_SIZE](_ => IPAD);
    var opad := new bv8[BLOCK_SIZE](_ => OPAD);
    for i := 0 to BLOCK_SIZE
      invariant normalized[..] == block
      invariant forall j :: 0 <= j < i ==> ipad[j] == IPAD ^ block[j] && opad[j] == OPAD ^ block[j]
      invariant forall j :: i <= j < BLOCK_SIZE ==> ipad[j] == IPAD && opad[j] == OPAD
    {
      assert normalized[i] == block[i];
      ipad[i] := ipad[i] ^ normalized[i];
      opad[i] := opad[i] ^ normalized[i];
    }
    assert ipad[..] == XorWith(block, IPAD) && opad[..] == XorWith(block, OPAD);
    var inner := env.sha256(ipad[..] + text);
    r := env.sha256(opad[..] + inner);
  }

  /** A key longer than a block counts as its digest, and zeros up to a block do not count at all. */
  lemma EquivalentKeys(env: Env, key: Bytes, zeros: nat, text: Bytes)
    requires DigestLaw(env)
    ensures |key| > BLOCK_SIZE ==> Hmac(env, key, text) == Hmac(env, env.sha256(key), text)
    ensures |key| + zeros <= BLOCK_SIZE ==> Hmac(env, key + seq(zeros, _ => 0 as bv8), text) == Hmac(env, key, text)
  {
    if |key| > BLOCK_SIZE {
      assert KeyBlock(env, key) == KeyBlock(env, env.sha256(key));
    }
    if |key| + zeros <= BLOCK_SIZE {
      assert KeyBlock(env, key + seq(zeros, _ => 0 as bv8)) == KeyBlock(env, key);
    }
  }

  /** Two texts with one authentication code give two inputs with one digest. */
  lemma CodeCollision(env: Env, key: Bytes, a: Bytes, b: Bytes) returns (x: Bytes, y: Bytes)
    requires a != b && Hmac(env, key, a) == Hmac(env, key, b)
    ensures x != y && env.sha256(x) == env.sha256(y)
  {
    var k := KeyBlock(env, key);
    var i, o := XorWith(k, IPAD), XorWith(k, OPAD);
    if env.sha256(i + a) == env.sha256(i + b) {
      x, y := i + a, i + b;
      assert x[|i|..] == a && y[|i|..] == b;
    } else {
      x, y := o + env.sha256(i + a), o + env.sha256(i + b);
      assert x[|o|..] == env.sha256(i + a) && y[|o|..] == env.sha256(i + b);
    }
  }

  // ---------------------------------------------------------------- comparison

  lemma DiffZero(d: bv8, x: bv8, y: bv8)
    ensures d | (x ^ y) == 0 <==> d == 0 && x == y
  {
  }

  /** Accumulating all differences says the same as comparing. */
  method ConstantTimeEq(a: Bytes, b: Bytes) returns (same: bool)
    ensures same <==> a == b
  {
    if |a| != |b| { return false; }
    var diff: bv8 := 0;
    for i := 0 to |a|
      invariant diff == 0 <==> a[..i] == b[..i]
    {
      DiffZero(diff, a[i], b[i]);
      diff := diff | (a[i] ^ b[i]);
      assert a[..i + 1] == a[..i] + [a[i]] && b[..i + 1] == b[..i] + [b[i]];
    }
    assert a[..|a|] == a && b[..|b|] == b;
    return diff == 0;
  }

  // ---------------------------------------------------------------- tokens

  const HEADER := "{\"alg\":\"HS256\",\"typ\":\"JWT\"}"
  const LIFETIME := 24 * 3600

  /** Clock readings and expiry times as unsigned 64-bit values. */
  function AsU64(n: int): nat {
    n % 0x1_0000_0000_0000_0000
  }

  /** Unpadded base64url decodes what it encoded and has no dot; the fixed header reads as what it says. */
  ghost predicate TokenLaws(env: Env) {
    && DigestLaw(env)
    && (forall b: Bytes :: env.unbase64Url(env.base64Url(b)) == Some(b))
    && (forall b: Bytes :: '.' !in env.base64Url(b))
    && env.headerAlg(env.utf8(HEADER)) == Some("HS256")
  }

  /** JSON reads the claims back as they were written. */
  ghost predicate ClaimsSurvive(env: Env, c: Claims) {
    env.parseClaims(env.claimsJson(c)) == Some(c)
  }

  function SigningInput(header: string, payload: string): string {
    header + "." + payload
  }

  function Code(env: Env, header: string, payload: string): Bytes {
    Hmac(env, env.jwtSecret, env.utf8(SigningInput(header, payload)))
  }

  function ClaimsAt(userId: string, username: string, role: string, now: int): Claims {
    Claims(userId, username, role, AsU64(now + LIFETIME))
  }

  function Token(env: Env, c: Claims): string {
    var header, payload := env.base64Url(env.utf8(HEADER)), env.base64Url(env.claimsJson(c));
    SigningInput(header, payload) + "." + env.base64Url(Code(env, header, payload))
  }

  method Sign(env: Env, userId: string, username: string, role: string, now: int) returns (token: string)
    requires DigestLaw(env)
    ensures token == Token(env, ClaimsAt(userId, username, role, now))
    ensures var header := env.base64Url(env.utf8("{\"alg\":\"HS256\",\"typ\":\"JWT\"}"));
            var claims := Claims(userId, username, role, (now + 86400) % 0x1_0000_0000_0000_0000);
            var input := header + "." + env.base64Url(env.claimsJson(claims));
            token == input + "." + env.base64Url(Hmac(env, env.jwtSecret, env.utf8(input)))
  {
    var claims := Claims(userId, username, role, AsU64(now + LIFETIME));
    var header := env.base64Url(env.utf8(HEADER));
    var payload := env.base64Url(env.claimsJson(claims));
    var input := header + "." + payload;
    var code := HmacSha256(env, env.jwtSecret, env.utf8(input));
    token := input + "." + env.base64Url(code);
  }

  /** The claims of a token of three parts whose header, signature and expiry check out. */
  function Verified(env: Env, token: string, now: int): Option<Claims> {
    var parts := Split(token, '.');
    if |parts| != 3 then None else
      var header := env.unbase64Url(parts[0]);
      if header.None? || env.headerAlg(header.value) != Some("HS256") then None else
        var actual := env.unbase64Url(parts[2]);
        if actual != Some(Code(env, parts[0], parts[1])) then None else
          var payload := env.unbase64Url(parts[1]);
          if payload.None? then None else
            var claims := env.parseClaims(payload.value);
            if claims.None? || claims.value.exp < AsU64(now) then None else claims
  }

  method VerifyToken(env: Env, token: string, now: int) returns (claims: Option<Claims>)
    requires DigestLaw(env)
    ensures claims == Verified(env, token, now)
  {
    var parts := Split(token, '.');
    if |parts| != 3 { return None; }
    var header := env.unbase64Url(parts[0]);
    if header.None? || env.headerAlg(header.value) != Some("HS256") { return None; }
    var expected := HmacSha256(env, env.jwtSecret, env.utf8(parts[0] + "." + parts[1]));
    var actual := env.unbase64Url(parts[2]);
    if actual.None? { return None; }
    var same := ConstantTimeEq(expected, actual.value);
    if !same { return None; }
    var payload := env.unbase64Url(parts[1]);
    if payload.None? { return None; }
    claims := env.parseClaims(payload.value);
    if claims.None? || claims.value.exp < AsU64(now) { return None; }
  }

  /** A signed token gives its claims back exactly until they expire. */
  lemma SignedIsVerified(env: Env, c: Claims, now: int)
    requires TokenLaws(env) && ClaimsSurvive(env, c)
    ensures Verified(env, Token(env, c), now) == if AsU64(now) <= c.exp then Some(c) else None
  {
    hide Hmac;
    var header, payload := env.base64Url(env.utf8(HEADER)), env.base64Url(env.claimsJson(c));
    var signature := env.base64Url(Code(env, header, payload));
    SplitOfThree(header, payload, signature, '.');
    assert Token(env, c) == header + ['.'] + (payload + ['.'] + signature);
  }

  lemma AsU64InRange(n: int)
    requires 0 <= n < 0x1_0000_0000_0000_0000
    ensures AsU64(n) == n
  {
  }

  /** With clock readings not before the epoch, a token lives for a day, to the second. */
  lemma TokenLivesOneDay(env: Env, userId: string, username: string, role: string, issued: int, now: int)
    requires TokenLaws(env) && ClaimsSurvive(env, ClaimsAt(userId, username, role, issued))
    requires 0 <= issued < 0x8000_0000_0000_0000 && 0 <= now < 0x8000_0000_0000_0000
    ensures Verified(env, Token(env, ClaimsAt(userId, username, role, issued)), now).Some? <==> now - issued <= 86400
  {
    hide Verified, Token, AsU64;
    SignedIsVerified(env, ClaimsAt(userId, username, role, issued), now);
    AsU64InRange(now);
    AsU64InRange(issued + LIFETIME);
  }

  /**
   * Of the texts with three parts, exactly those are verified whose header names HS256, whose signature decodes to the
   * code of the other two parts, and whose claims can be read and have not expired; the claims are what is returned.
   */
  lemma VerifiedExactly(env: Env, header: string, payload: string, signature: string, now: int, c: Claims)
    requires '.' !in header && '.' !in payload && '.' !in signature
    ensures Verified(env, header + "." + payload + "." + signature, now) == Some(c)
            <==> && env.unbase64Url(header).Some? && env.headerAlg(env.unbase64Url(header).value) == Some("HS256")
                 && env.unbase64Url(signature)
                    == Some(Hmac(env, env.jwtSecret, env.utf8(header + "." + payload)))
                 && env.unbase64Url(payload).Some? && env.parseClaims(env.unbase64Url(payload).value) == Some(c)
                 && now % 0x1_0000_0000_0000_0000 <= c.exp
  {
    hide Hmac;
    SplitOfThree(header, payload, signature, '.');
    assert header + "." + payload + "." + signature == header + ['.'] + (payload + ['.'] + signature);
  }

  /** A verified token is its three parts in compact form, and carries the code of its first two. */
  lemma VerifiedIsSigned(env: Env, token: string, now: int)
    requires Verified(env, token, now).Some?
    ensures var p := Split(token, '.');
            && |p| == 3 && token == SigningInput(p[0], p[1]) + "." + p[2]
            && env.unbase64Url(p[2]) == Some(Code(env, p[0], p[1]))
  {
    hide Hmac, Split;
    SplitJoins(token, '.');
    var p := Split(token, '.');
    assert p[0] + ['.'] + (p[1] + ['.'] + p[2]) == p[0] + "." + p[1] + "." + p[2];
  }

  /** Two verified tokens that share a signature but not the signed text exhibit a collision of the hash. */
  lemma SharedSignature(env: Env, a: string, b: string, now: int) returns (x: Bytes, y: Bytes)
    requires Verified(env, a, now).Some? && Verified(env, b, now).Some?
    requires Split(a, '.')[2..] == Split(b, '.')[2..]
    requires forall s: string, t: string :: env.utf8(s) == env.utf8(t) ==> s == t
    requires a != b
    ensures x != y && env.sha256(x) == env.sha256(y)
  {
    hide Hmac, Split, Verified;
    VerifiedIsSigned(env, a, now);
    VerifiedIsSigned(env, b, now);
    var p, q := Split(a, '.'), Split(b, '.');
    assert p[2] == p[2..][0] && q[2] == q[2..][0];
    x, y := CodeCollision(env, env.jwtSecret, env.utf8(SigningInput(p[0], p[1])), env.utf8(SigningInput(q[0], q[1])));
  }
}
