/** The laws asked of the foreign code can be met: an environment for any finite collection of values. */
module Environments {
  import opened Wrappers
  import opened Models
  import opened Crypto
  import opened GroupConfig
  import opened Auth
  import opened Runs
  import Storage

  // ---------------------------------------------------------------- texts as bytes and bytes as letters

  /** Each character as that many ones and a zero. */
  function Encode(s: string): Bytes {
    if s == [] then [] else seq(s[0] as nat, _ => 1 as bv8) + [0] + Encode(s[1..])
  }

  lemma {:induction false} EncodeInjective(s: string, t: string)
    requires Encode(s) == Encode(t)
    ensures s == t
  {
    var a, b := Encode(s), Encode(t);
    if s != [] && t != [] {
      var m, n := s[0] as nat, t[0] as nat;
      assert a[m] == 0 && b[n] == 0;
      assert (forall i :: 0 <= i < m ==> a[i] == 1) && forall i :: 0 <= i < n ==> b[i] == 1;
      assert m == n;
      assert a[m + 1..] == Encode(s[1..]) && b[n + 1..] == Encode(t[1..]);
      EncodeInjective(s[1..], t[1..]);
    }
  }

  ghost function Decode(b: Bytes): Option<string> {
    if exists s :: Encode(s) == b then
      var s :| Encode(s) == b;
      Some(s)
    else None
  }

  lemma DecodeEncode(s: string)
    ensures Decode(Encode(s)) == Some(s)
  {
    forall t | Encode(t) == Encode(s) ensures t == s { EncodeInjective(t, s); }
  }

  function Letter(b: bv8, mask: bv8): char {
    if b & mask == 0 then 'a' else 'b'
  }

  /** A byte as eight letters. */
  function Letters(b: bv8): (s: string)
    ensures |s| == 8 && forall i :: 0 <= i < 8 ==> s[i] == 'a' || s[i] == 'b'
  {
    [Letter(b, 1), Letter(b, 2), Letter(b, 4), Letter(b, 8), Letter(b, 16), Letter(b, 32), Letter(b, 64),
     Letter(b, 128)]
  }

  lemma BitsDecide(a: bv8, b: bv8)
    requires (a & 1 == 0 <==> b & 1 == 0) && (a & 2 == 0 <==> b & 2 == 0) && (a & 4 == 0 <==> b & 4 == 0)
    requires (a & 8 == 0 <==> b & 8 == 0) && (a & 16 == 0 <==> b & 16 == 0) && (a & 32 == 0 <==> b & 32 == 0)
    requires (a & 64 == 0 <==> b & 64 == 0) && (a & 128 == 0 <==> b & 128 == 0)
    ensures a == b
  {
  }

  lemma LettersInjective(a: bv8, b: bv8)
    requires Letters(a) == Letters(b)
    ensures a == b
  {
    var s, t := Letters(a), Letters(b);
    assert s[0] == t[0] && s[1] == t[1] && s[2] == t[2] && s[3] == t[3];
    assert s[4] == t[4] && s[5] == t[5] && s[6] == t[6] && s[7] == t[7];
    BitsDecide(a, b);
  }

  function Spell(b: Bytes): (s: string)
    ensures |s| == 8 * |b| && forall i :: 0 <= i < |s| ==> s[i] == 'a' || s[i] == 'b'
  {
    if b == [] then [] else Letters(b[0]) + Spell(b[1..])
  }

  lemma {:induction false} SpellInjective(a: Bytes, b: Bytes)
    requires Spell(a) == Spell(b)
    ensures a == b
  {
    assert |a| == |b|;
    if a != [] {
      assert Spell(a)[..8] == Letters(a[0]) && Spell(b)[..8] == Letters(b[0]);
      assert Spell(a)[8..] == Spell(a[1..]) && Spell(b)[8..] == Spell(b[1..]);
      LettersInjective(a[0], b[0]);
      SpellInjective(a[1..], b[1..]);
    }
  }

  ghost function Unspell(s: string): Option<Bytes> {
    if exists b :: Spell(b) == s then
      var b :| Spell(b) == s;
      Some(b)
    else None
  }

  lemma UnspellSpell(b: Bytes)
    ensures Unspell(Spell(b)) == Some(b)
  {
    forall c | Spell(c) == Spell(b) ensures c == b { SpellInjective(c, b); }
  }

  // ---------------------------------------------------------------- writing values as their place in a list

  function Place<T(==)>(xs: seq<T>, x: T): nat {
    if xs == [] || xs[0] == x then 0 else 1 + Place(xs[1..], x)
  }

  lemma {:induction false} PlaceOf<T>(xs: seq<T>, x: T)
    requires x in xs
    ensures Place(xs, x) < |xs| && xs[Place(xs, x)] == x
  {
    if xs[0] != x {
      PlaceOf(xs[1..], x);
    }
  }

  function At<T>(xs: seq<T>, i: nat): Option<T> {
    if i < |xs| then Some(xs[i]) else None
  }

  function ClearedAll(cs: seq<ClientConfig>): (r: seq<ClientConfig>)
    ensures |r| == |cs| && forall i :: 0 <= i < |cs| ==> r[i] == Cleared(cs[i])
  {
    seq(|cs|, i requires 0 <= i < |cs| => Cleared(cs[i]))
  }

  /** Sealing hides nothing and the digest is constant, but every law holds of it. */
  ghost function Plain(configs: seq<ClientConfig>, payloads: seq<PushPayload>, claims: seq<Claims>): Env {
    var cleared := ClearedAll(configs);
    Env("", [],
        Encode,
        b => seq(DIGEST_SIZE, _ => 0 as bv8),
        (k, n, text) => Encode(text),
        (k, n, b) => Decode(b),
        Spell, s => Unspell(s), Spell, s => Unspell(s),
        c => seq(Place(cleared, c), _ => 'a'), s => At(cleared, |s|),
        m => seq(Place(payloads, m), _ => 'a'), s => At(payloads, |s|),
        c => seq(Place(claims, c), _ => 0 as bv8), b => At(claims, |b|),
        b => Some("HS256"))
  }

  /**
   * For every finite collection of configurations, payloads and claims there is an environment that meets all laws and
   * reads each of them back: the premises about the foreign code are consistent with one another.
   */
  lemma LawsCanBeMet(configs: seq<ClientConfig>, payloads: seq<PushPayload>, claims: seq<Claims>)
    ensures var env := Plain(configs, payloads, claims);
            && CipherLaws(env) && TokenLaws(env)
            && (forall c <- configs :: Survives(env, c))
            && (forall m <- payloads :: PayloadSurvives(env, m))
            && (forall c <- claims :: ClaimsSurvive(env, c))
            && forall s: string, t: string :: env.utf8(s) == env.utf8(t) ==> s == t
  {
    var env := Plain(configs, payloads, claims);
    hide Encode, Decode, Spell, Unspell;
    forall s: string ensures Decode(Encode(s)) == Some(s) { DecodeEncode(s); }
    forall b: Bytes ensures Unspell(Spell(b)) == Some(b) { UnspellSpell(b); }
    forall s: string, t: string | env.utf8(s) == env.utf8(t) ensures s == t { EncodeInjective(s, t); }
    forall c | c in configs ensures Survives(env, c) {
      var i :| 0 <= i < |configs| && configs[i] == c;
      assert ClearedAll(configs)[i] == Cleared(c);
      PlaceOf(ClearedAll(configs), Cleared(c));
    }
    forall m | m in payloads ensures PayloadSurvives(env, m) { PlaceOf(payloads, m); }
    forall c | c in claims ensures ClaimsSurvive(env, c) { PlaceOf(claims, c); }
  }

  // ---------------------------------------------------------------- the premise about runs

  /** The configurations that an action stores. */
  function Stored(a: Action): seq<ClientConfig> {
    match a
    case Console(CreateGroup(_, _, _, config, _, _)) => [config]
    case Console(UpdateGroup(_, _, _, config, _, _)) => if config.Some? then [config.value] else []
    case Message(_, ConfigState(_, _, _, config, _), _, _) => [config]
    case _ => []
  }

  predicate DrawsNonces(a: Action) {
    match a
    case Console(CreateGroup(_, _, _, _, nonces, _)) => GoodNonces(nonces)
    case Console(UpdateGroup(_, _, _, _, nonces, _)) => GoodNonces(nonces)
    case Message(_, ConfigState(_, _, _, _, _), draw, _) => GoodNonces(draw.nonces)
    case _ => true
  }

  function StoredBy(actions: seq<Action>): seq<ClientConfig> {
    if actions == [] then [] else Stored(actions[0]) + StoredBy(actions[1..])
  }

  lemma {:induction false} StoredIsStored(actions: seq<Action>, a: Action)
    requires a in actions
    ensures forall c <- Stored(a) :: c in StoredBy(actions)
  {
    hide Stored;
    if a != actions[0] {
      StoredIsStored(actions[1..], a);
    }
  }

  /** Every run whose handlers draw nonces of the right length has an environment in which it stores well. */
  lemma RunsCanStoreWell(actions: seq<Action>)
    requires forall a <- actions :: DrawsNonces(a)
    ensures var env := Plain(StoredBy(actions), [], []);
            CipherLaws(env) && forall a <- actions :: Storage.StoresWell(env, a)
  {
    var env := Plain(StoredBy(actions), [], []);
    LawsCanBeMet(StoredBy(actions), [], []);
    hide Plain, CipherLaws, TokenLaws, GoodNonces, Survives;
    forall a | a in actions ensures Storage.StoresWell(env, a) {
      StoredIsStored(actions, a);
      assert DrawsNonces(a) && forall c <- Stored(a) :: Survives(env, c);
    }
  }
}
