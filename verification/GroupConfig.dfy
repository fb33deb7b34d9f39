/** How a group keeps its configuration: four columns, each encrypted on its own. */
module GroupConfig {
  import opened Wrappers
  import opened Models
  import opened Crypto

  /** The columns encrypted_token, encrypted_server, encrypted_password and extra_config. */
  datatype SealedConfig = SealedConfig(
    token: Option<string>, server: Option<string>, password: Option<string>, extra: Option<string>)

  /** One fresh nonce per encrypted column. */
  datatype Nonces = Nonces(token: Bytes, server: Bytes, password: Bytes, extra: Bytes)

  predicate GoodNonces(n: Nonces) {
    |n.token| == NONCE_LENGTH && |n.server| == NONCE_LENGTH && |n.password| == NONCE_LENGTH && |n.extra| == NONCE_LENGTH
  }

  /** Reading the columns back: a decryption failure, no configuration at all, or a configuration. */
  datatype Reading = Unreadable | Absent | Readable(config: ClientConfig) {
    function ToOption(): Option<ClientConfig> {
      if Readable? then Some(config) else None
    }
  }

  function TokenContext(groupId: string): string { "group:" + groupId + ":token" }
  function ServerContext(groupId: string): string { "group:" + groupId + ":server" }
  function PasswordContext(groupId: string): string { "group:" + groupId + ":password" }
  function ExtraContext(groupId: string): string { "group:" + groupId + ":config" }

  /** The configuration with the separately stored fields taken out. */
  function Cleared(c: ClientConfig): ClientConfig {
    c.(token := "", serverAddress := "", password := None)
  }

  /** JSON reads the remainder of the configuration back as it was written. */
  ghost predicate Survives(env: Env, c: ClientConfig) {
    env.parseConfig(env.configJson(Cleared(c))) == Some(Cleared(c))
  }

  function EncryptOptional(env: Env, context: string, value: Option<string>, nonce: Bytes): Option<string> {
    match value
    case None => None
    case Some(v) => Some(EncryptToBase64(env, env.masterKey, context, v, nonce))
  }

  /** The four columns of a configuration. */
  function SealConfig(env: Env, groupId: string, c: ClientConfig, n: Nonces): SealedConfig {
    SealedConfig(
      Some(EncryptToBase64(env, env.masterKey, TokenContext(groupId), c.token, n.token)),
      Some(EncryptToBase64(env, env.masterKey, ServerContext(groupId), c.serverAddress, n.server)),
      EncryptOptional(env, PasswordContext(groupId), c.password, n.password),
      Some(EncryptToBase64(env, env.masterKey, ExtraContext(groupId), env.configJson(Cleared(c)), n.extra)))
  }

  /** The columns after an update: with no new configuration every column keeps its value. */
  function ResealConfig(env: Env, groupId: string, stored: SealedConfig, c: Option<ClientConfig>,
                        n: Nonces): SealedConfig {
    match c
    case None => stored
    case Some(config) => SealConfig(env, groupId, config, n)
  }

  function DecryptField(env: Env, context: string, value: string): Option<string> {
    DecryptFromBase64(env, env.masterKey, context, value)
  }

  /** The configuration held by the four columns. */
  function ReadConfig(env: Env, groupId: string, s: SealedConfig): Reading {
    if s.extra.None? then Absent else
      var json := DecryptField(env, ExtraContext(groupId), s.extra.value);
      if json.None? then Unreadable else
        var parsed := env.parseConfig(json.value);
        if parsed.None? then Unreadable else
          var token := if s.token.None? then Some(parsed.value.token)
              else DecryptField(env, TokenContext(groupId), s.token.value);
          var server := if s.server.None? then Some(parsed.value.serverAddress)
              else DecryptField(env, ServerContext(groupId), s.server.value);
          var password := if s.password.None? then Some("")
              else DecryptField(env, PasswordContext(groupId), s.password.value);
          if token.None? || server.None? || password.None? then Unreadable
          else Readable(parsed.value.(
                          token := token.value, serverAddress := server.value,
                          password := if s.password.None? then parsed.value.password else password))
  }

  /** The text hashed into the key of each column. */
  lemma ColumnKeyTexts(env: Env, g: string)
    ensures DeriveKey(env, env.masterKey, TokenContext(g))
            == env.sha256(env.utf8(env.masterKey + ":group:" + g + ":token"))
    ensures DeriveKey(env, env.masterKey, ServerContext(g))
            == env.sha256(env.utf8(env.masterKey + ":group:" + g + ":server"))
    ensures DeriveKey(env, env.masterKey, PasswordContext(g))
            == env.sha256(env.utf8(env.masterKey + ":group:" + g + ":password"))
    ensures DeriveKey(env, env.masterKey, ExtraContext(g))
            == env.sha256(env.utf8(env.masterKey + ":group:" + g + ":config"))
  {
    var m := env.masterKey;
    assert m + ":" + ("group:" + g + ":token") == m + ":group:" + g + ":token";
    assert m + ":" + ("group:" + g + ":server") == m + ":group:" + g + ":server";
    assert m + ":" + ("group:" + g + ":password") == m + ":group:" + g + ":password";
    assert m + ":" + ("group:" + g + ":config") == m + ":group:" + g + ":config";
  }

  /** No two columns of any two groups have a context, and so a key text, in common. */
  lemma ColumnContextsDiffer(g: string, g': string)
    ensures {TokenContext(g), ServerContext(g), PasswordContext(g), ExtraContext(g)}
            !! (if g == g' then {} else {TokenContext(g'), ServerContext(g'), PasswordContext(g'), ExtraContext(g')})
    ensures |{TokenContext(g), ServerContext(g), PasswordContext(g), ExtraContext(g)}| == 4
  {
    LastLetters(g);
    LastLetters(g');
    if TokenContext(g) == TokenContext(g') { SameMiddle(g, g', ":token"); }
    if ServerContext(g) == ServerContext(g') { SameMiddle(g, g', ":server"); }
    if PasswordContext(g) == PasswordContext(g') { SameMiddle(g, g', ":password"); }
    if ExtraContext(g) == ExtraContext(g') { SameMiddle(g, g', ":config"); }
    hide TokenContext, ServerContext, PasswordContext, ExtraContext;
  }

  function Last(s: string): char
    requires s != ""
  {
    s[|s| - 1]
  }

  lemma LastLetters(g: string)
    ensures Last(TokenContext(g)) == 'n' && Last(ServerContext(g)) == 'r'
    ensures Last(PasswordContext(g)) == 'd' && Last(ExtraContext(g)) == 'g'
  {
  }

  lemma SameMiddle(g: string, g': string, end: string)
    requires "group:" + g + end == "group:" + g' + end
    ensures g == g'
  {
    assert ("group:" + g + end)[6..|"group:" + g + end| - |end|] == g;
    assert ("group:" + g' + end)[6..|"group:" + g' + end| - |end|] == g';
  }

  /** The remainder column says nothing about token, server address and password. */
  lemma RemainderHidesSecrets(env: Env, g: string, c: ClientConfig, token: string, server: string,
                              password: Option<string>, n: Nonces)
    ensures SealConfig(env, g, c.(token := token, serverAddress := server, password := password), n).extra
            == SealConfig(env, g, c, n).extra
    ensures SealConfig(env, g, c, n).password.Some? <==> c.password.Some?
  {
    hide EncryptToBase64;
  }

  /** Sealing a configuration and reading the columns gives the configuration back, with or without a password. */
  lemma ReadAfterSeal(env: Env, groupId: string, c: ClientConfig, n: Nonces)
    requires CipherLaws(env) && GoodNonces(n) && Survives(env, c)
    ensures ReadConfig(env, groupId, SealConfig(env, groupId, c, n)) == Readable(c)
  {
    DecryptAfterEncrypt(env, env.masterKey, TokenContext(groupId), c.token, n.token);
    DecryptAfterEncrypt(env, env.masterKey, ServerContext(groupId), c.serverAddress, n.server);
    DecryptAfterEncrypt(env, env.masterKey, ExtraContext(groupId), env.configJson(Cleared(c)), n.extra);
    if c.password.Some? {
      DecryptAfterEncrypt(env, env.masterKey, PasswordContext(groupId), c.password.value, n.password);
    }
  }

  /** After an update the columns read as the requested configuration, or as before when none was requested. */
  lemma ReadAfterReseal(env: Env, groupId: string, stored: SealedConfig, c: Option<ClientConfig>, n: Nonces)
    requires CipherLaws(env) && GoodNonces(n) && (c.Some? ==> Survives(env, c.value))
    ensures ReadConfig(env, groupId, ResealConfig(env, groupId, stored, c, n))
            == if c.Some? then Readable(c.value) else ReadConfig(env, groupId, stored)
  {
    if c.Some? {
      ReadAfterSeal(env, groupId, c.value, n);
    }
  }
}
