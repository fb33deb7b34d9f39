/** What pushes say: a push reads back, and a group push is its members' individual pushes, all or nothing. */
module GroupPush {
  import opened Wrappers
  import opened Models
  import opened Crypto
  import opened GroupConfig
  import opened Schema
  import opened Effects
  import opened Hubs
  import opened Listings

  // ---------------------------------------------------------------- one push

  /** Whoever knows the device's id and token reads in a push exactly the payload that was sealed. */
  lemma PushReadsBack(env: Env, t: Tables, d: string, e: Effective, seed: PushSeed)
    requires CipherLaws(env) && |seed.nonce| == NONCE_LENGTH
    requires d in t.devices && e.Effective? && PayloadSurvives(env, PayloadOf(t, d, e))
    ensures OpenPush(env, d, t.devices[d].deviceToken, PushMessage(env, t, d, e, seed)) == Some(PayloadOf(t, d, e))
  {
    var token := t.devices[d].deviceToken;
    var payload := PayloadOf(t, d, e);
    var master, context := PushKeyMaterial(d, token), PushContext(d, AsU32(e.version));
    assert payload.configVersion == e.version;
    hide PayloadOf, PushKeyMaterial, PushContext, AsU32;
    PartsReadBack(env, master, context, env.payloadJson(payload), seed.nonce);
    hide EncryptParts, DecryptParts;
    assert SealPayload(env, d, token, payload, seed.nonce)
           == EncryptParts(env, master, context, env.payloadJson(payload), seed.nonce);
  }

  lemma PartsReadBack(env: Env, master: string, context: string, plaintext: string, nonce: Bytes)
    requires CipherLaws(env) && |nonce| == NONCE_LENGTH
    ensures var (ciphertext, n) := EncryptParts(env, master, context, plaintext, nonce);
            DecryptParts(env, master, context, ciphertext, n) == Some(plaintext)
  {
    hide DeriveKey;
  }

  /** Asking for the configuration under a group's override is asking for it after moving the device into the group. */
  lemma OverrideIsMembership(env: Env, t: Tables, d: string, room: string, g: string)
    requires SetDeviceGroup(t, room, Some(g), d).Some?
    ensures DeviceConfig(env, t, d, Some(g)) == DeviceConfig(env, SetDeviceGroup(t, room, Some(g), d).value, d, None)
  {
    hide ReadConfig;
  }

  /** With the device's own fields put back, the configuration of a member is its group's stored one. */
  lemma OnlyOwnFieldsDiffer(env: Env, t: Tables, d: string, g: string, stored: ClientConfig)
    requires d in t.devices && t.devices[d].groupId == Some(g) && g in t.groups
    requires ReadConfig(env, g, t.groups[g].sealed) == Readable(stored)
    ensures var e := DeviceConfig(env, t, d, None);
            && e.Effective? && e.groupId == Some(g) && e.version == t.groups[g].configVersion
            && e.config.(deviceId := stored.deviceId, name := stored.name, ip := stored.ip) == stored
            && e.config.deviceId == t.devices[d].networkNodeId.GetOr(d)
            && e.config.name == t.devices[d].displayName
            && e.config.ip == t.devices[d].networkIp.Or(stored.ip)
  {
    hide ReadConfig;
  }

  // ---------------------------------------------------------------- a group push

  /** Fresh row ids, all different. */
  ghost predicate FreshSeeds(t: Tables, seeds: seq<PushSeed>) {
    && (forall i :: 0 <= i < |seeds| ==> seeds[i].id !in t.pushes)
    && (forall i, j :: 0 <= i < j < |seeds| ==> seeds[i].id != seeds[j].id)
  }

  ghost predicate AllMembers(t: Tables, members: seq<string>, g: string) {
    forall d <- members :: d in t.devices && t.devices[d].groupId == Some(g)
  }

  /** The row and the message of an individual push to a device. */
  function OwnRow(env: Env, t: Tables, d: string, seed: PushSeed, now: int): Option<Push> {
    var e := DeviceConfig(env, t, d, None);
    if d in t.devices && e.Effective? then Some(PushRow(env, t, d, e, seed, now)) else None
  }

  function OwnMessage(env: Env, t: Tables, d: string, seed: PushSeed): seq<ServerMessage> {
    var e := DeviceConfig(env, t, d, None);
    if d in t.devices && e.Effective? then [PushMessage(env, t, d, e, seed)] else []
  }

  /** What individual pushes to the devices, in order, would queue for one session. */
  function SentTo(env: Env, h: Hub, members: seq<string>, seeds: seq<PushSeed>, session: nat): seq<ServerMessage>
    requires |members| == |seeds|
    decreases |members|
  {
    if members == [] then [] else
      (if members[0] in h.clients
       && h.clients[members[0]] == session then OwnMessage(env, h.tables, members[0], seeds[0]) else [])
      + SentTo(env, h, members[1..], seeds[1..], session)
  }

  /** A member's push under the override records its own row and queues its own message. */
  lemma MemberPush(env: Env, h: Hub, d: string, g: string, seed: PushSeed, now: int)
    requires d in h.tables.devices && h.tables.devices[d].groupId == Some(g) && g in h.tables.groups
    requires seed.id !in h.tables.pushes
    ensures var own := OwnRow(env, h.tables, d, seed, now);
            var (h', r) := PushConfig(env, h, d, Some(g), seed, now);
            && (own.Some? <==> !ReadConfig(env, g, h.tables.groups[g].sealed).Unreadable?)
            && (own.None? ==> h' == h && r == Failed)
            && (own.Some? ==>
                  && r == Pushed(d in h.clients)
                  && h'.tables == h.tables.(pushes := h.tables.pushes[seed.id := own.value])
                  && h'.clients == h.clients && h'.outbound.Keys == h.outbound.Keys
                  && forall s <- h.outbound ::
                       h'.outbound[s] == h.outbound[s]
                                         + if d in h.clients && h.clients[d] == s
                                             then OwnMessage(env, h.tables, d, seed) else [])
  {
    var t := h.tables;
    assert DeviceConfig(env, t, d, Some(g)) == DeviceConfig(env, t, d, None);
    var e := DeviceConfig(env, t, d, None);
    assert e.Failure? <==> ReadConfig(env, g, t.groups[g].sealed).Unreadable?;
    assert !e.NoDevice?;
    hide DeviceConfig, ReadConfig, PushRow, PushMessage;
    if e.Failure? {
    } else {
      assert OwnRow(env, t, d, seed, now) == Some(PushRow(env, t, d, e, seed, now));
      if d in h.clients {
        if h.clients[d] in h.outbound {
        } else {
        }
      } else {
      }
    }
  }

  /** A push changes nothing that another device's push is made of. */
  lemma OwnRowKept(env: Env, t: Tables, s: Tables, d: string, seed: PushSeed, now: int)
    requires s.devices == t.devices && s.groups == t.groups
    ensures OwnRow(env, s, d, seed, now) == OwnRow(env, t, d, seed, now)
    ensures OwnMessage(env, s, d, seed) == OwnMessage(env, t, d, seed)
  {
    assert DeviceConfig(env, s, d, None) == DeviceConfig(env, t, d, None) by { hide ReadConfig, Overlay; }
    var e := DeviceConfig(env, t, d, None);
    hide DeviceConfig, SealPayload;
    if d in t.devices && e.Effective? {
      assert PayloadOf(s, d, e) == PayloadOf(t, d, e);
    } else {
    }
  }

  lemma {:induction false} SentToKept(env: Env, h: Hub, k: Hub, members: seq<string>, seeds: seq<PushSeed>,
                                      session: nat)
    requires |members| == |seeds|
    requires k.tables.devices == h.tables.devices && k.tables.groups == h.tables.groups && k.clients == h.clients
    ensures SentTo(env, k, members, seeds, session) == SentTo(env, h, members, seeds, session)
    decreases |members|
  {
    hide OwnMessage;
    if members == [] {
    } else {
      OwnRowKept(env, h.tables, k.tables, members[0], seeds[0], 0);
      SentToKept(env, h, k, members[1..], seeds[1..], session);
    }
  }

  function Ids(seeds: seq<PushSeed>): set<string> {
    set i | 0 <= i < |seeds| :: seeds[i].id
  }

  lemma IdsStep(seeds: seq<PushSeed>)
    requires seeds != []
    ensures Ids(seeds) == {seeds[0].id} + Ids(seeds[1..])
  {
    forall i | 0 < i < |seeds| ensures seeds[i].id in Ids(seeds[1..]) {
      assert seeds[1..][i - 1].id == seeds[i].id;
    }
  }

  /** The recorded rows are the old ones and one own row per listed device. */
  ghost predicate RecordsEach(env: Env, h: Hub, h': Hub, members: seq<string>, seeds: seq<PushSeed>, now: int)
    requires |members| == |seeds|
  {
    && h'.tables == h.tables.(pushes := h'.tables.pushes)
    && h'.tables.pushes.Keys == h.tables.pushes.Keys + Ids(seeds)
    && (forall p <- h.tables.pushes :: h'.tables.pushes[p] == h.tables.pushes[p])
    && (forall i :: 0 <= i < |seeds| ==>
          Some(h'.tables.pushes[seeds[i].id]) == OwnRow(env, h.tables, members[i], seeds[i], now))
  }

  ghost predicate QueuesEach(env: Env, h: Hub, h': Hub, members: seq<string>, seeds: seq<PushSeed>)
    requires |members| == |seeds|
  {
    && h'.clients == h.clients && h'.outbound.Keys == h.outbound.Keys
    && forall s <- h.outbound :: h'.outbound[s] == h.outbound[s] + SentTo(env, h, members, seeds, s)
  }

  /** One recorded row and one queued message are the records and messages of a list of one device. */
  lemma OneRecord(env: Env, h: Hub, h': Hub, d: string, seed: PushSeed, now: int)
    requires seed.id !in h.tables.pushes && OwnRow(env, h.tables, d, seed, now).Some?
    requires h'.tables == h.tables.(pushes := h.tables.pushes[seed.id := OwnRow(env, h.tables, d, seed, now).value])
    ensures RecordsEach(env, h, h', [d], [seed], now)
  {
    hide OwnRow;
    assert Ids([seed]) == {[seed][0].id};
  }

  lemma OneMessage(env: Env, h: Hub, h': Hub, d: string, seed: PushSeed)
    requires h'.clients == h.clients && h'.outbound.Keys == h.outbound.Keys
    requires forall s <- h.outbound ::
               h'.outbound[s] == h.outbound[s] + if d in h.clients
               && h.clients[d] == s then OwnMessage(env, h.tables, d, seed) else []
    ensures QueuesEach(env, h, h', [d], [seed])
  {
    hide OwnMessage;
    forall s: nat
      ensures SentTo(env, h, [d], [seed], s) == if d in h.clients
              && h.clients[d] == s then OwnMessage(env, h.tables, d, seed) else []
    {
      assert [d][1..] == [] && [seed][1..] == [];
    }
  }

  lemma RecordsStep(env: Env, h: Hub, k: Hub, h': Hub, members: seq<string>, seeds: seq<PushSeed>, now: int)
    requires |members| == |seeds| && members != [] && FreshSeeds(h.tables, seeds)
    requires OwnRow(env, h.tables, members[0], seeds[0], now).Some?
    requires k.tables
             == h.tables.(pushes :=
                  h.tables.pushes[seeds[0].id := OwnRow(env, h.tables, members[0], seeds[0], now).value])
    requires RecordsEach(env, k, h', members[1..], seeds[1..], now)
    ensures RecordsEach(env, h, h', members, seeds, now)
  {
    hide OwnRow;
    IdsStep(seeds);
    hide Ids;
    forall i | 0 <= i < |seeds|
      ensures Some(h'.tables.pushes[seeds[i].id]) == OwnRow(env, h.tables, members[i], seeds[i], now)
    {
      if i == 0 {
        assert seeds[0].id in k.tables.pushes;
      } else {
        assert seeds[1..][i - 1] == seeds[i] && members[1..][i - 1] == members[i];
        OwnRowKept(env, h.tables, k.tables, members[i], seeds[i], now);
      }
    }
  }

  lemma SentToStep(env: Env, h: Hub, k: Hub, members: seq<string>, seeds: seq<PushSeed>, session: nat)
    requires |members| == |seeds| && members != []
    requires k.tables.devices == h.tables.devices && k.tables.groups == h.tables.groups && k.clients == h.clients
    ensures SentTo(env, h, [members[0]], [seeds[0]], session) + SentTo(env, k, members[1..], seeds[1..], session)
            == SentTo(env, h, members, seeds, session)
  {
    hide OwnMessage;
    SentToKept(env, h, k, members[1..], seeds[1..], session);
    assert [members[0]][1..] == [] && [seeds[0]][1..] == [];
  }

  lemma QueuesStep(env: Env, h: Hub, k: Hub, h': Hub, members: seq<string>, seeds: seq<PushSeed>)
    requires |members| == |seeds| && members != []
    requires k.tables.devices == h.tables.devices && k.tables.groups == h.tables.groups && k.clients == h.clients
    requires QueuesEach(env, h, k, [members[0]], [seeds[0]]) && QueuesEach(env, k, h', members[1..], seeds[1..])
    ensures QueuesEach(env, h, h', members, seeds)
  {
    hide SentTo;
    forall s | s in h.outbound ensures h'.outbound[s] == h.outbound[s] + SentTo(env, h, members, seeds, s) {
      var first, rest := SentTo(env, h, [members[0]], [seeds[0]], s), SentTo(env, k, members[1..], seeds[1..], s);
      SentToStep(env, h, k, members, seeds, s);
      assert k.outbound[s] == h.outbound[s] + first && h'.outbound[s] == k.outbound[s] + rest;
    }
  }

  lemma NoMembers(env: Env, h: Hub, members: seq<string>, seeds: seq<PushSeed>, now: int)
    requires |members| == |seeds| == 0
    ensures RecordsEach(env, h, h, members, seeds, now) && QueuesEach(env, h, h, members, seeds)
    ensures |set d | d in members && d in h.clients| == 0
  {
    assert Ids(seeds) == {};
    assert (set d | d in members && d in h.clients) == {};
  }

  lemma FirstMember(t: Tables, members: seq<string>, seeds: seq<PushSeed>, g: string)
    requires |members| == |seeds| > 0 && FreshSeeds(t, seeds) && AllMembers(t, members, g)
    ensures members[0] in t.devices && t.devices[members[0]].groupId == Some(g) && seeds[0].id !in t.pushes
    ensures AllMembers(t, members[1..], g)
  {
    assert members[0] in members;
  }

  lemma SameMembers(t: Tables, s: Tables, members: seq<string>, g: string)
    requires AllMembers(t, members, g) && s.devices == t.devices
    ensures AllMembers(s, members, g)
  {
  }

  lemma {:induction false} MembersPush(env: Env, h: Hub, g: string, members: seq<string>, seeds: seq<PushSeed>,
                                       now: int)
    requires |members| == |seeds| && g in h.tables.groups
    requires FreshSeeds(h.tables, seeds) && AllMembers(h.tables, members, g)
    requires members == [] || !ReadConfig(env, g, h.tables.groups[g].sealed).Unreadable?
    requires forall i, j :: 0 <= i < j < |members| ==> members[i] != members[j]
    ensures var (h', count) := PushMembers(env, h, g, members, seeds, now);
            && RecordsEach(env, h, h', members, seeds, now) && QueuesEach(env, h, h', members, seeds)
            && count == Some(|set d | d in members && d in h.clients|)
    decreases |members|
  {
    hide PushConfig, ReadConfig, OwnRow, OwnMessage, RecordsEach, QueuesEach, FreshSeeds, AllMembers;
    if members == [] {
      NoMembers(env, h, members, seeds, now);
    } else {
      FirstMember(h.tables, members, seeds, g);
      var (k, r) := PushConfig(env, h, members[0], Some(g), seeds[0], now);
      MemberPush(env, h, members[0], g, seeds[0], now);
      assert FreshSeeds(k.tables, seeds[1..]) by { FreshTail(h.tables, k.tables, seeds); }
      assert AllMembers(k.tables, members[1..], g) by { SameMembers(h.tables, k.tables, members[1..], g); }
      OneMessage(env, h, k, members[0], seeds[0]);
      MembersPush(env, k, g, members[1..], seeds[1..], now);
      var (h', count) := PushMembers(env, k, g, members[1..], seeds[1..], now);
      RecordsStep(env, h, k, h', members, seeds, now);
      QueuesStep(env, h, k, h', members, seeds);
      CountStep(members, h.clients.Keys);
    }
  }

  lemma FreshTail(t: Tables, s: Tables, seeds: seq<PushSeed>)
    requires seeds != [] && FreshSeeds(t, seeds)
    requires s.pushes.Keys == t.pushes.Keys + {seeds[0].id}
    ensures FreshSeeds(s, seeds[1..])
  {
    assert forall i :: 0 <= i < |seeds| - 1 ==> seeds[1..][i] == seeds[i + 1];
  }

  lemma CountStep(members: seq<string>, live: set<string>)
    requires members != [] && forall i, j :: 0 <= i < j < |members| ==> members[i] != members[j]
    ensures |set d | d in members && d in live|
            == |set d | d in members[1..] && d in live| + if members[0] in live then 1 else 0
  {
    var all, rest := set d | d in members && d in live, set d | d in members[1..] && d in live;
    assert members[0] !in members[1..];
    assert members == [members[0]] + members[1..];
    assert all == rest + if members[0] in live then {members[0]} else {};
  }

  /**
   * A group push is all or nothing although its loop is not a transaction. It succeeds exactly when the group is empty
   * or its configuration is readable; then it records one row per member, the row an individual push to that member
   * would record, queues each member's own message, and returns the number of members that are registered. Otherwise
   * it changes nothing.
   */
  lemma GroupPushIsMemberPushes(env: Env, h: Hub, room: string, g: string, members: seq<string>, seeds: seq<PushSeed>,
                                now: int)
    requires g in h.tables.groups && h.tables.groups[g].roomId == room
    requires Lists(members, Members(h.tables, room, g)) && |members| == |seeds| && FreshSeeds(h.tables, seeds)
    ensures var (h', count) := PushGroup(env, h, room, g, members, seeds, now);
            && (count.Some? <==> members == [] || !ReadConfig(env, g, h.tables.groups[g].sealed).Unreadable?)
            && (count.None? ==> h' == h)
            && (count.Some? ==>
                  && RecordsEach(env, h, h', members, seeds, now) && QueuesEach(env, h, h', members, seeds)
                  && count.value == |Members(h.tables, room, g) * h.clients.Keys|)
  {
    hide ReadConfig, PushConfig, RecordsEach, QueuesEach;
    assert AllMembers(h.tables, members, g);
    if members == [] || !ReadConfig(env, g, h.tables.groups[g].sealed).Unreadable? {
      MembersPush(env, h, g, members, seeds, now);
      assert (set d | d in members && d in h.clients) == Members(h.tables, room, g) * h.clients.Keys;
    } else {
      assert members[0] in members && seeds[0].id !in h.tables.pushes;
      hide FreshSeeds, Lists, Members;
      MemberPush(env, h, members[0], g, seeds[0], now);
    }
  }

  /** What an individual push to a member of the room records and queues. */
  lemma IndividualPush(env: Env, h: Hub, room: string, d: string, seed: PushSeed, now: int)
    requires d in h.tables.devices && h.tables.devices[d].roomId == room && seed.id !in h.tables.pushes
    ensures var own := OwnRow(env, h.tables, d, seed, now);
            var (h', r) := PushDevice(env, h, room, d, seed, now);
            && (r.Pushed? <==> own.Some?)
            && (r.Pushed? ==>
                  RecordsEach(env, h, h', [d], [seed], now) && QueuesEach(env, h, h', [d], [seed])
                  && r.sent == (d in h.clients))
            && (!r.Pushed? ==> h' == h)
  {
    var e := DeviceConfig(env, h.tables, d, None);
    assert !e.NoDevice?;
    hide DeviceConfig, PushRow, PushMessage;
    if e.Failure? {
    } else {
      var own := PushRow(env, h.tables, d, e, seed, now);
      assert OwnRow(env, h.tables, d, seed, now) == Some(own);
      var h' := PushDevice(env, h, room, d, seed, now).0;
      assert h'.tables == h.tables.(pushes := h.tables.pushes[seed.id := own]);
      hide RecordsEach, QueuesEach, OwnRow;
      OneRecord(env, h, h', d, seed, now);
      OneMessage(env, h, h', d, seed);
    }
  }
}
