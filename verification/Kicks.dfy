/** A kick is final: no handler but the kick itself changes who is kicked, and no kicked device stays registered. */
module Kicks {
  import opened Wrappers
  import opened Models
  import opened Crypto
  import opened GroupConfig
  import opened Schema
  import opened Effects
  import opened Hubs
  import opened Runs
  import opened Invariants

  /** Rows that stay keep their kick or their lack of one, and new rows are not kicked. */
  ghost predicate KicksKept(t: Tables, s: Tables) {
    forall d <- s.devices :: KickedIn(s, d) <==> d in t.devices && KickedIn(t, d)
  }

  /** The id of a kicked row is never registered. */
  ghost predicate NoKickedClient(h: Hub) {
    forall d <- h.clients :: !KickedIn(h.tables, d)
  }

  lemma SameDevices(t: Tables, s: Tables)
    requires s.devices == t.devices
    ensures KicksKept(t, s)
  {
  }

  lemma QuietKicks(t: Tables, s: Tables)
    requires Quiet(t, s)
    ensures KicksKept(t, s)
  {
  }

  lemma JoinsKicks(t: Tables, s: Tables, d: string)
    requires Joins(t, s, d)
    ensures KicksKept(t, s)
  {
  }

  lemma ApplyKicks(env: Env, t: Tables, e: Edit)
    ensures KicksKept(t, Apply(env, t, e).GetOr(t))
  {
    SameDevices(t, t);
    hide KicksKept, RoomRemovable, RoomRemoved, Effects.CreateGroup, Effects.UpdateGroup, Effects.DeleteGroup,
         Effects.SetDeviceGroup, Effects.UpdateDevice;
    match e
    case Register(id, username, password, now) => SameDevices(t, Apply(env, t, e).GetOr(t));
    case DeleteAccount(id) => SameDevices(t, Apply(env, t, e).GetOr(t));
    case CreateRoom(id, owner, name, now) => SameDevices(t, Apply(env, t, e).GetOr(t));
    case DeleteRoom(room) => RoomRemovedKicks(t, room);
    case CreateGroup(room, id, name, config, nonces, now) =>
      CreateGroupKicks(env, t, room, id, name, config, 1, nonces, now);
    case UpdateGroup(room, g, name, config, nonces, now) =>
      UpdateGroupKicks(env, t, room, g, name, config, nonces, now);
    case DeleteGroup(room, g) => DeleteGroupKicks(t, room, g);
    case SetDeviceGroup(room, group, d) => SetDeviceGroupKicks(t, room, group, d);
    case UpdateDevice(room, d, edit) => UpdateDeviceKicks(t, room, d, edit);
  }

  lemma CreateGroupKicks(env: Env, t: Tables, room: string, id: string, name: string, config: ClientConfig,
                         version: int, nonces: Nonces, now: int)
    ensures KicksKept(t, Effects.CreateGroup(env, t, room, id, name, config, version, nonces, now).GetOr(t))
  {
    hide SealConfig, KicksKept;
    SameDevices(t, Effects.CreateGroup(env, t, room, id, name, config, version, nonces, now).GetOr(t));
  }

  lemma UpdateGroupKicks(env: Env, t: Tables, room: string, g: string, name: Option<string>,
                         config: Option<ClientConfig>, nonces: Nonces, now: int)
    ensures KicksKept(t, Effects.UpdateGroup(env, t, room, g, name, config, nonces, now).GetOr(t))
  {
    hide ReadConfig, ResealConfig, KicksKept;
    SameDevices(t, Effects.UpdateGroup(env, t, room, g, name, config, nonces, now).GetOr(t));
  }

  lemma RoomRemovedKicks(t: Tables, room: string)
    ensures KicksKept(t, RoomRemoved(t, room))
  {
  }

  lemma DeleteGroupKicks(t: Tables, room: string, g: string)
    ensures KicksKept(t, Effects.DeleteGroup(t, room, g).GetOr(t))
  {
    hide GroupHeldElsewhere;
    assert KicksKept(t, Detached(t, room, g));
  }

  lemma SetDeviceGroupKicks(t: Tables, room: string, group: Option<string>, d: string)
    ensures KicksKept(t, Effects.SetDeviceGroup(t, room, group, d).GetOr(t))
  {
    if d in t.devices { assert KicksKept(t, SetRow(t, d, t.devices[d].(groupId := group))); }
  }

  lemma UpdateDeviceKicks(t: Tables, room: string, d: string, edit: DeviceEdit)
    ensures KicksKept(t, Effects.UpdateDevice(t, room, d, edit).GetOr(t))
  {
    var next := Effects.UpdateDevice(t, room, d, edit);
    if next.Some? {
      assert next.value.devices == t.devices[d := next.value.devices[d]];
    } else {
    }
  }

  /** A hello leaves kicks alone; the status it returns is the one before it. */
  lemma HelloKicks(t: Tables, room: string, id: Option<string>, token: Option<string>, name: string,
                   version: Option<string>, ip: Option<string>, freshId: string, freshToken: string, now: int)
    ensures var r := UpsertDeviceHello(t, room, id, token, name, version, ip, freshId, freshToken, now);
            r.Admitted? ==>
              && KicksKept(t, r.tables) && (KickedIn(r.tables, r.id) <==> r.status == KICKED)
              && t.devices.Keys <= r.tables.devices.Keys
  {
    StatusesDiffer();
  }

  lemma ConnectKicks(env: Env, h: Hub, hello: ClientMessage, ip: string, session: nat,
                     freshId: string, freshToken: string, seed: PushSeed, now: int)
    ensures var h' := Hubs.Connect(env, h, hello, ip, session, freshId, freshToken, seed, now).hub;
            && KicksKept(h.tables, h'.tables)
            && (forall d <- h'.clients :: d in h.clients || !KickedIn(h'.tables, d))
            && h.tables.devices.Keys <= h'.tables.devices.Keys
  {
    SameDevices(h.tables, h.tables);
    hide UpsertDeviceHello, PushIfBehind, KicksKept;
    if hello.Hello? && hello.protocolVersion == 1 && hello.roomId in h.tables.rooms {
      HelloKicks(h.tables, hello.roomId, hello.deviceId, hello.deviceToken, hello.deviceName,
                 hello.clientVersion, Some(ip), freshId, freshToken, now);
      var r := UpsertDeviceHello(h.tables, hello.roomId, hello.deviceId, hello.deviceToken, hello.deviceName,
                                 hello.clientVersion, Some(ip), freshId, freshToken, now);
      if r.Admitted? && r.status != KICKED {
        var registered := Hub(r.tables, h.clients[r.id := session],
                              h.outbound[session := [HelloAck(r.id, r.newToken, r.status)]]);
        PushIfBehindKicks(env, h.tables, registered, r.id, seed, now);
      }
    } else {
    }
  }

  lemma PushIfBehindKicks(env: Env, t: Tables, h: Hub, d: string, seed: PushSeed, now: int)
    requires KicksKept(t, h.tables)
    ensures var h' := PushIfBehind(env, h, d, seed, now);
            KicksKept(t, h'.tables) && h'.tables.devices == h.tables.devices && h'.clients == h.clients
  {
    hide DeviceConfig, PushConfig;
    PushConfigQuiet(env, h, d, None, seed, now);
  }

  lemma MessageKicks(env: Env, h: Hub, d: string, m: ClientMessage, draw: Draw, now: int)
    ensures var h' := HandleMessage(env, h, d, m, draw, now);
            KicksKept(h.tables, h'.tables) && h'.clients.Keys <= h.clients.Keys
  {
    hide SyncReported, KicksKept;
    var h' := HandleMessage(env, h, d, m, draw, now);
    if m.ConfigState? {
      SyncReportedJoins(env, h, d, m.configVersion, m.groupId, m.configName, m.config, m.running, draw, now);
      hide Joins;
      JoinsKicks(h.tables, h'.tables, d);
    } else {
      OtherMessagesQuiet(env, h, d, m, draw, now);
      hide Quiet;
      QuietKicks(h.tables, h'.tables);
    }
  }

  /** Every step but a kick keeps the kicks, and only a hello can register a device. */
  lemma StepKicks(env: Env, h: Hub, a: Action)
    requires !a.KickDevice?
    ensures var h' := Step(env, h, a);
            && KicksKept(h.tables, h'.tables)
            && (forall d <- h'.clients :: d in h.clients || !KickedIn(h'.tables, d))
  {
    hide KicksKept, Apply, Effects.DeleteDevice, Effects.RegenerateToken, EditRow, PushConfig, PushMembers,
         Hubs.Connect, HandleMessage, Quiet, KickedIn;
    var t := h.tables;
    match a
    case Console(edit) => ApplyKicks(env, t, edit);
    case DeleteDevice(room, d) => DeleteDeviceKicks(t, room, d);
    case RegenerateToken(room, d, token) =>
      RowUpdatesQuiet(h, room, d, token);
      QuietKicks(t, Effects.RegenerateToken(t, room, d, token));
    case PushDevice(room, d, seed, now) =>
      PushConfigQuiet(env, h, d, None, seed, now);
      SameDevices(t, Step(env, h, a).tables);
    case PushGroup(room, g, members, seeds, now) =>
      if |members| == |seeds| { PushMembersQuiet(env, h, g, members, seeds, now); }
      SameDevices(t, Step(env, h, a).tables);
    case Connect(hello, ip, session, freshId, freshToken, seed, now) =>
      ConnectKicks(env, h, hello, ip, session, freshId, freshToken, seed, now);
    case Message(d, m, draw, now) => MessageKicks(env, h, d, m, draw, now);
    case EndSession(d, session) =>
      EditRowQuiet(t, d, WentOffline);
      QuietKicks(t, EditRow(t, d, WentOffline));
  }

  lemma DeleteDeviceKicks(t: Tables, room: string, d: string)
    ensures KicksKept(t, Effects.DeleteDevice(t, room, d))
  {
  }

  /** A kick unregisters the device it kicks. */
  lemma KickStep(h: Hub, room: string, d: string)
    ensures var h' := Hubs.KickDevice(h, room, d).GetOr(h);
            && h'.clients.Keys <= h.clients.Keys
            && (d in h.tables.devices && h.tables.devices[d].roomId == room
                ==> KickedIn(h'.tables, d) && d !in h'.clients)
  {
    var h' := Hubs.KickDevice(h, room, d).GetOr(h);
    if d !in h.tables.devices || h.tables.devices[d].roomId != room {
      assert h' == h;
    } else {
      assert h'.tables == SetRow(h.tables, d, h.tables.devices[d].(status := KICKED));
      assert h'.clients == h.clients - {d};
    }
  }

  lemma StepKeepsNoKickedClient(env: Env, h: Hub, a: Action)
    requires NoKickedClient(h)
    ensures NoKickedClient(Step(env, h, a))
  {
    if a.KickDevice? {
      KickStep(h, a.room, a.d);
      RowUpdatesQuiet(h, a.room, a.d, "");
      hide Hubs.KickDevice;
    } else {
      StepKicks(env, h, a);
      hide Step;
    }
  }

  /** A kicked row stays kicked for as long as it is there. */
  lemma StepKeepsKick(env: Env, h: Hub, a: Action, d: string)
    requires KickedIn(h.tables, d) && d in Step(env, h, a).tables.devices
    ensures KickedIn(Step(env, h, a).tables, d)
  {
    if a.KickDevice? {
      RowUpdatesQuiet(h, a.room, a.d, "");
      hide Hubs.KickDevice;
    } else {
      StepKicks(env, h, a);
      hide Step;
    }
  }

  /** The device's row is there before, during and after the run. */
  predicate Stays(env: Env, h: Hub, actions: seq<Action>, d: string)
    decreases |actions|
  {
    d in h.tables.devices && (actions == [] || Stays(env, Step(env, h, actions[0]), actions[1..], d))
  }

  /** In every run a kicked device stays kicked until its row is deleted, and is never registered. */
  lemma {:induction false} KickIsAbsorbing(env: Env, h: Hub, actions: seq<Action>, d: string)
    requires NoKickedClient(h) && KickedIn(h.tables, d)
    requires Stays(env, h, actions, d)
    ensures KickedIn(Run(env, h, actions).tables, d)
    ensures d !in Run(env, h, actions).clients
    decreases |actions|
  {
    hide Step;
    if actions == [] {
    } else {
      StepKeepsNoKickedClient(env, h, actions[0]);
      StepKeepsKick(env, h, actions[0], d);
      KickIsAbsorbing(env, Step(env, h, actions[0]), actions[1..], d);
    }
  }

  /** No run from a state without kicked clients ever has one. */
  lemma {:induction false} RunHasNoKickedClient(env: Env, h: Hub, actions: seq<Action>)
    requires NoKickedClient(h)
    ensures NoKickedClient(Run(env, h, actions))
    decreases |actions|
  {
    hide Step, NoKickedClient;
    if actions == [] {
    } else {
      StepKeepsNoKickedClient(env, h, actions[0]);
      RunHasNoKickedClient(env, Step(env, h, actions[0]), actions[1..]);
    }
  }
}
