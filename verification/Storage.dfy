/** In every run the stored configuration of every group can be read, so no push ever fails on it. */
module Storage {
  import opened Wrappers
  import opened Models
  import opened Crypto
  import opened GroupConfig
  import opened Schema
  import opened Effects
  import opened Hubs
  import opened Listings
  import opened Runs
  import opened Invariants
  import Adoption
  import GroupPush

  ghost predicate AllReadable(env: Env, t: Tables) {
    forall g <- t.groups :: ReadConfig(env, g, t.groups[g].sealed).Readable?
  }

  /** The nonces that a handler draws have the cipher's length, and the configuration it stores survives JSON. */
  ghost predicate StoresWell(env: Env, a: Action) {
    match a
    case Console(CreateGroup(_, _, _, config, nonces, _)) => GoodNonces(nonces) && Survives(env, config)
    case Console(UpdateGroup(_, _, _, config, nonces, _)) =>
      GoodNonces(nonces) && (config.Some? ==> Survives(env, config.value))
    case Message(_, ConfigState(_, _, _, config, _), draw, _) => GoodNonces(draw.nonces) && Survives(env, config)
    case _ => true
  }

  lemma FewerReadable(env: Env, t: Tables, s: Tables)
    requires AllReadable(env, t)
    requires forall g <- s.groups :: g in t.groups && s.groups[g] == t.groups[g]
    ensures AllReadable(env, s)
  {
    hide ReadConfig;
  }

  lemma OneMoreReadable(env: Env, t: Tables, s: Tables, g: string, row: Group)
    requires AllReadable(env, t) && s.groups == t.groups[g := row] && ReadConfig(env, g, row.sealed).Readable?
    ensures AllReadable(env, s)
  {
    hide ReadConfig;
  }

  lemma CreatedIsReadable(env: Env, t: Tables, room: string, id: string, name: string, config: ClientConfig,
                          version: int,
                          nonces: Nonces, now: int)
    requires CipherLaws(env) && GoodNonces(nonces) && Survives(env, config) && AllReadable(env, t)
    ensures AllReadable(env, Effects.CreateGroup(env, t, room, id, name, config, version, nonces, now).GetOr(t))
  {
    ReadAfterSeal(env, id, config, nonces);
    hide SealConfig, ReadConfig, AllReadable, Max;
    var next := Effects.CreateGroup(env, t, room, id, name, config, version, nonces, now);
    if next.Some? {
      OneMoreReadable(env, t, next.value, id, next.value.groups[id]);
    } else {
    }
  }

  lemma UpdatedIsReadable(env: Env, t: Tables, room: string, g: string, name: Option<string>,
                          config: Option<ClientConfig>, nonces: Nonces, now: int)
    requires CipherLaws(env) && GoodNonces(nonces) && AllReadable(env, t)
             && (config.Some? ==> Survives(env, config.value))
    ensures AllReadable(env, Effects.UpdateGroup(env, t, room, g, name, config, nonces, now).GetOr(t))
  {
    if g in t.groups { ReadAfterReseal(env, g, t.groups[g].sealed, config, nonces); }
    hide ResealConfig, ReadConfig;
    var next := Effects.UpdateGroup(env, t, room, g, name, config, nonces, now);
    if next.Some? {
      OneMoreReadable(env, t, next.value, g, next.value.groups[g]);
    } else {
    }
  }

  lemma ApplyKeepsReadable(env: Env, t: Tables, e: Edit)
    requires CipherLaws(env) && AllReadable(env, t) && StoresWell(env, Console(e))
    ensures AllReadable(env, Apply(env, t, e).GetOr(t))
  {
    hide AllReadable, Effects.CreateGroup, Effects.UpdateGroup, RoomRemovable, GroupHeldElsewhere, GoodNonces, Survives;
    match e
    case Register(id, username, password, now) => FewerReadable(env, t, Apply(env, t, e).GetOr(t));
    case DeleteAccount(id) => FewerReadable(env, t, Apply(env, t, e).GetOr(t));
    case CreateRoom(id, owner, name, now) => FewerReadable(env, t, Apply(env, t, e).GetOr(t));
    case DeleteRoom(room) => FewerReadable(env, t, Apply(env, t, e).GetOr(t));
    case CreateGroup(room, id, name, config, nonces, now) =>
      CreatedIsReadable(env, t, room, id, name, config, 1, nonces, now);
    case UpdateGroup(room, g, name, config, nonces, now) =>
      UpdatedIsReadable(env, t, room, g, name, config, nonces, now);
    case DeleteGroup(room, g) => FewerReadable(env, t, Apply(env, t, e).GetOr(t));
    case SetDeviceGroup(room, group, d) => FewerReadable(env, t, Apply(env, t, e).GetOr(t));
    case UpdateDevice(room, d, edit) => FewerReadable(env, t, Apply(env, t, e).GetOr(t));
  }

  lemma ConnectKeepsGroups(env: Env, h: Hub, hello: ClientMessage, ip: string, session: nat,
                           freshId: string, freshToken: string, seed: PushSeed, now: int)
    ensures Hubs.Connect(env, h, hello, ip, session, freshId, freshToken, seed, now).hub.tables.groups
            == h.tables.groups
  {
    hide DeviceConfig, PushConfig;
    if hello.Hello? && hello.protocolVersion == 1 && hello.roomId in h.tables.rooms {
      var r := UpsertDeviceHello(h.tables, hello.roomId, hello.deviceId, hello.deviceToken, hello.deviceName,
                                 hello.clientVersion, Some(ip), freshId, freshToken, now);
      if r.Admitted? {
        assert r.tables.groups == h.tables.groups;
        hide UpsertDeviceHello;
        if r.status != KICKED {
          var registered := Hub(r.tables, h.clients[r.id := session],
                                h.outbound[session := [HelloAck(r.id, r.newToken, r.status)]]);
          PushConfigQuiet(env, registered, r.id, None, seed, now);
        }
      }
    }
  }

  lemma ReconcileKeepsReadable(env: Env, h: Hub, d: string, version: nat, groupId: Option<string>, name: Option<string>,
                               config: ClientConfig, draw: Draw, now: int)
    requires CipherLaws(env) && AllReadable(env, h.tables) && GoodNonces(draw.nonces) && Survives(env, config)
    ensures AllReadable(env, Reconcile(env, h, d, version, groupId, name, config, draw, now).tables)
  {
    hide PushIfDiffers, Effects.CreateGroup, Blank, AdoptedName, ReadConfig, GoodNonces;
    var t := h.tables;
    if d !in t.devices {
    } else if t.devices[d].groupId.Some? {
      Adoption.PushIfKeepsGroups(env, h, d, version, draw.push, now);
    } else if groupId.Some? && !Blank(groupId.value) && groupId.value in t.groups
    && t.groups[groupId.value].roomId == t.devices[d].roomId {
      Adoption.PushIfKeepsGroups(env, h.(tables := SetRow(t, d, t.devices[d].(groupId := groupId))), d, version,
                                 draw.push, now);
    } else {
      CreatedIsReadable(env, t, t.devices[d].roomId, draw.id, AdoptedName(name), config, version, draw.nonces, now);
    }
  }

  lemma MessageKeepsReadable(env: Env, h: Hub, d: string, m: ClientMessage, draw: Draw, now: int)
    requires CipherLaws(env) && AllReadable(env, h.tables)
    requires m.ConfigState? ==> GoodNonces(draw.nonces) && Survives(env, m.config)
    ensures AllReadable(env, HandleMessage(env, h, d, m, draw, now).tables)
  {
    hide GoodNonces;
    if m.ConfigState? {
      EditRowQuiet(h.tables, d, Recorded(m.configVersion, now));
      var recorded := if m.running then EditRow(h.tables, d, Recorded(m.configVersion, now)) else h.tables;
      assert recorded.groups == h.tables.groups;
      hide EditRow, Reconcile, ReadConfig, Quiet;
      ReconcileKeepsReadable(env, h.(tables := recorded), d, m.configVersion, m.groupId, m.configName, m.config, draw,
                             now);
    } else {
      OtherMessagesQuiet(env, h, d, m, draw, now);
      hide HandleMessage, ReadConfig;
    }
  }

  lemma StepKeepsReadable(env: Env, h: Hub, a: Action)
    requires CipherLaws(env) && AllReadable(env, h.tables) && StoresWell(env, a)
    ensures AllReadable(env, Step(env, h, a).tables)
  {
    hide AllReadable, Apply, Effects.DeleteDevice, Effects.RegenerateToken, EditRow, Hubs.KickDevice, PushConfig,
         PushMembers, Hubs.Connect, HandleMessage, GoodNonces;
    var t := h.tables;
    match a
    case Console(edit) => ApplyKeepsReadable(env, t, edit);
    case DeleteDevice(room, d) => DeviceDeletesKeepGroups(env, t, room, d);
    case RegenerateToken(room, d, token) =>
      RowUpdatesQuiet(h, room, d, token);
      FewerReadable(env, t, Effects.RegenerateToken(t, room, d, token));
    case KickDevice(room, d) =>
      RowUpdatesQuiet(h, room, d, "");
      FewerReadable(env, t, Step(env, h, a).tables);
    case PushDevice(room, d, seed, now) =>
      PushConfigQuiet(env, h, d, None, seed, now);
      FewerReadable(env, t, Step(env, h, a).tables);
    case PushGroup(room, g, members, seeds, now) =>
      if |members| == |seeds| { PushMembersQuiet(env, h, g, members, seeds, now); }
      FewerReadable(env, t, Step(env, h, a).tables);
    case Connect(hello, ip, session, freshId, freshToken, seed, now) =>
      ConnectKeepsGroups(env, h, hello, ip, session, freshId, freshToken, seed, now);
      FewerReadable(env, t, Step(env, h, a).tables);
    case Message(d, m, draw, now) => MessageKeepsReadable(env, h, d, m, draw, now);
    case EndSession(d, session) =>
      EditRowQuiet(t, d, WentOffline);
      FewerReadable(env, t, EditRow(t, d, WentOffline));
  }

  lemma DeviceDeletesKeepGroups(env: Env, t: Tables, room: string, d: string)
    requires AllReadable(env, t)
    ensures AllReadable(env, Effects.DeleteDevice(t, room, d))
  {
    hide ReadConfig;
  }

  lemma {:induction false} RunKeepsReadable(env: Env, h: Hub, actions: seq<Action>)
    requires CipherLaws(env) && AllReadable(env, h.tables)
    requires forall a <- actions :: StoresWell(env, a)
    ensures AllReadable(env, Run(env, h, actions).tables)
    decreases |actions|
  {
    hide AllReadable, StoresWell, Step;
    if actions == [] {
    } else {
      assert actions[0] in actions;
      StepKeepsReadable(env, h, actions[0]);
      RunKeepsReadable(env, Step(env, h, actions[0]), actions[1..]);
    }
  }

  /** Whatever happened since the empty database, pushing to a group of the room reaches every member once. */
  lemma GroupPushSucceeds(env: Env, actions: seq<Action>, room: string, g: string, members: seq<string>,
                          seeds: seq<PushSeed>, now: int)
    requires CipherLaws(env) && forall a <- actions :: StoresWell(env, a)
    requires var t := Run(env, START, actions).tables;
             && g in t.groups && t.groups[g].roomId == room
             && Lists(members, Members(t, room, g)) && |members| == |seeds| && GroupPush.FreshSeeds(t, seeds)
    ensures var h := Run(env, START, actions);
            var (h', count) := Hubs.PushGroup(env, h, room, g, members, seeds, now);
            && count == Some(|Members(h.tables, room, g) * h.clients.Keys|)
            && GroupPush.RecordsEach(env, h, h', members, seeds, now)
            && GroupPush.QueuesEach(env, h, h', members, seeds)
  {
    RunKeepsReadable(env, START, actions);
    GroupPush.GroupPushIsMemberPushes(env, Run(env, START, actions), room, g, members, seeds, now);
    hide Run, ReadConfig, Hubs.PushGroup, GroupPush.RecordsEach, GroupPush.QueuesEach;
  }
}
