/** Groups stay within rooms: what keeps it, what breaks it, and what any room's deletion needs. */
module Invariants {
  import opened Wrappers
  import opened Models
  import opened Crypto
  import opened GroupConfig
  import opened Schema
  import opened Effects
  import opened Hubs
  import opened Runs

  // ---------------------------------------------------------------- groups stay within rooms

  /** The one check the console leaves to its caller: an edit names a group of the room it edits. */
  predicate EditChecked(t: Tables, e: Edit) {
    e.UpdateDevice? && e.edit.groupId.Some? && e.edit.groupId.value in t.groups
    ==> t.groups[e.edit.groupId.value].roomId == e.room
  }

  predicate Checked(t: Tables, a: Action) {
    a.Console? ==> EditChecked(t, a.edit)
  }

  /** A device edit that goes through keeps the invariant exactly when it names no group or one of the room. */
  lemma UpdateDeviceKeepsSameRoom(t: Tables, room: string, d: string, edit: DeviceEdit)
    requires SameRoom(t) && Effects.UpdateDevice(t, room, d, edit).Some?
    ensures SameRoom(Effects.UpdateDevice(t, room, d, edit).value)
            <==> edit.groupId.None? || t.groups[edit.groupId.value].roomId == room
  {
    var s := Effects.UpdateDevice(t, room, d, edit).value;
    assert GroupInRoom(t, d);
    assert GroupInRoom(s, d) <==> edit.groupId.None? || t.groups[edit.groupId.value].roomId == room;
    forall e | e in s.devices && e != d ensures GroupInRoom(s, e) { assert GroupInRoom(t, e); }
  }

  lemma DeleteRoomKeepsSameRoom(t: Tables, room: string)
    requires SameRoom(t)
    ensures SameRoom(RoomRemoved(t, room))
  {
    var s := RoomRemoved(t, room);
    forall d | d in s.devices ensures GroupInRoom(s, d) {
      assert GroupInRoom(t, d);
    }
  }

  lemma DeleteGroupKeepsSameRoom(t: Tables, room: string, g: string)
    requires SameRoom(t)
    ensures SameRoom(Effects.DeleteGroup(t, room, g).GetOr(t))
  {
    if Effects.DeleteGroup(t, room, g).Some? {
      var s := Effects.DeleteGroup(t, room, g).value;
      forall d | d in s.devices ensures GroupInRoom(s, d) { assert GroupInRoom(t, d); }
    } else {
    }
  }

  lemma GroupsGrowKeepsSameRoom(t: Tables, g: string, row: Group)
    requires SameRoom(t) && (g in t.groups ==> row.roomId == t.groups[g].roomId)
    ensures SameRoom(t.(groups := t.groups[g := row]))
  {
    var s := t.(groups := t.groups[g := row]);
    forall d | d in s.devices ensures GroupInRoom(s, d) { assert GroupInRoom(t, d); }
  }

  lemma SetDeviceGroupKeepsSameRoom(t: Tables, room: string, group: Option<string>, d: string)
    requires SameRoom(t)
    ensures SameRoom(Effects.SetDeviceGroup(t, room, group, d).GetOr(t))
  {
    if Effects.SetDeviceGroup(t, room, group, d).Some? {
      var s := Effects.SetDeviceGroup(t, room, group, d).value;
      forall e | e in s.devices ensures GroupInRoom(s, e) { if e != d { assert GroupInRoom(t, e); } }
    } else {
    }
  }

  lemma SameRows(t: Tables, s: Tables)
    requires SameRoom(t) && s.devices == t.devices && s.groups == t.groups
    ensures SameRoom(s)
  {
    forall d | d in s.devices ensures GroupInRoom(s, d) { assert GroupInRoom(t, d); }
  }

  lemma CreateGroupKeepsSameRoom(env: Env, t: Tables, room: string, id: string, name: string, config: ClientConfig,
                                 version: int, nonces: Nonces, now: int)
    requires SameRoom(t)
    ensures SameRoom(Effects.CreateGroup(env, t, room, id, name, config, version, nonces, now).GetOr(t))
  {
    hide SealConfig, SameRoom;
    if id in t.groups || room !in t.rooms {
    } else {
      GroupsGrowKeepsSameRoom(t, id, Group(room, name, SealConfig(env, id, config, nonces), Max(version, 1), now, now));
    }
  }

  lemma UpdateGroupKeepsSameRoom(env: Env, t: Tables, room: string, g: string, name: Option<string>,
                                 config: Option<ClientConfig>, nonces: Nonces, now: int)
    requires SameRoom(t)
    ensures SameRoom(Effects.UpdateGroup(env, t, room, g, name, config, nonces, now).GetOr(t))
  {
    hide ReadConfig, ResealConfig, SameRoom;
    var next := Effects.UpdateGroup(env, t, room, g, name, config, nonces, now);
    if next.Some? {
      GroupsGrowKeepsSameRoom(t, g, next.value.groups[g]);
    } else {
    }
  }

  lemma ApplyKeepsSameRoom(env: Env, t: Tables, e: Edit)
    requires SameRoom(t) && EditChecked(t, e)
    ensures SameRoom(Apply(env, t, e).GetOr(t))
  {
    hide SameRoom, Effects.CreateGroup, Effects.UpdateGroup, Effects.DeleteGroup, Effects.SetDeviceGroup,
         Effects.UpdateDevice, RoomRemoved, RoomRemovable;
    match e
    case Register(id, username, password, now) => SameRows(t, Apply(env, t, e).GetOr(t));
    case DeleteAccount(id) => SameRows(t, Apply(env, t, e).GetOr(t));
    case CreateRoom(id, owner, name, now) => SameRows(t, Apply(env, t, e).GetOr(t));
    case DeleteRoom(room) => DeleteRoomKeepsSameRoom(t, room);
    case CreateGroup(room, id, name, config, nonces, now) =>
      CreateGroupKeepsSameRoom(env, t, room, id, name, config, 1, nonces, now);
    case UpdateGroup(room, g, name, config, nonces, now) =>
      UpdateGroupKeepsSameRoom(env, t, room, g, name, config, nonces, now);
    case DeleteGroup(room, g) => DeleteGroupKeepsSameRoom(t, room, g);
    case SetDeviceGroup(room, group, d) => SetDeviceGroupKeepsSameRoom(t, room, group, d);
    case UpdateDevice(room, d, edit) => CheckedEditKeepsSameRoom(t, room, d, edit);
  }

  lemma CheckedEditKeepsSameRoom(t: Tables, room: string, d: string, edit: DeviceEdit)
    requires SameRoom(t)
             && (edit.groupId.Some? && edit.groupId.value in t.groups ==> t.groups[edit.groupId.value].roomId == room)
    ensures SameRoom(Effects.UpdateDevice(t, room, d, edit).GetOr(t))
  {
    if Effects.UpdateDevice(t, room, d, edit).Some? { UpdateDeviceKeepsSameRoom(t, room, d, edit); }
  }

  lemma HelloKeepsSameRoom(t: Tables, room: string, id: Option<string>, token: Option<string>, name: string,
                           version: Option<string>, ip: Option<string>, freshId: string, freshToken: string, now: int)
    requires SameRoom(t)
    ensures var r := UpsertDeviceHello(t, room, id, token, name, version, ip, freshId, freshToken, now);
            r.Admitted? ==> SameRoom(r.tables)
  {
    var r := UpsertDeviceHello(t, room, id, token, name, version, ip, freshId, freshToken, now);
    if r.Admitted? {
      forall d | d in r.tables.devices ensures GroupInRoom(r.tables, d) {
        if d in t.devices { assert GroupInRoom(t, d); }
      }
    }
  }

  lemma ConnectKeepsSameRoom(env: Env, h: Hub, hello: ClientMessage, ip: string, session: nat,
                             freshId: string, freshToken: string, seed: PushSeed, now: int)
    requires SameRoom(h.tables)
    ensures SameRoom(Hubs.Connect(env, h, hello, ip, session, freshId, freshToken, seed, now).hub.tables)
  {
    hide SameRoom, UpsertDeviceHello, DeviceConfig, PushConfig;
    if hello.Hello? && hello.protocolVersion == 1 && hello.roomId in h.tables.rooms {
      HelloKeepsSameRoom(h.tables, hello.roomId, hello.deviceId, hello.deviceToken, hello.deviceName,
                         hello.clientVersion, Some(ip), freshId, freshToken, now);
      var r := UpsertDeviceHello(h.tables, hello.roomId, hello.deviceId, hello.deviceToken, hello.deviceName,
                                 hello.clientVersion, Some(ip), freshId, freshToken, now);
      if r.Admitted? && r.status != KICKED {
        var registered := Hub(r.tables, h.clients[r.id := session],
                              h.outbound[session := [HelloAck(r.id, r.newToken, r.status)]]);
        PushConfigQuiet(env, registered, r.id, None, seed, now);
        SameRows(r.tables, PushIfBehind(env, registered, r.id, seed, now).tables);
      }
    }
  }

  lemma MessageKeepsSameRoom(env: Env, h: Hub, d: string, m: ClientMessage, draw: Draw, now: int)
    requires SameRoom(h.tables)
    ensures SameRoom(HandleMessage(env, h, d, m, draw, now).tables)
  {
    hide SameRoom, SyncReported;
    if m.ConfigState? {
      SyncReportedJoins(env, h, d, m.configVersion, m.groupId, m.configName, m.config, m.running, draw, now);
      hide Joins;
      JoinsKeepsSameRoom(h.tables, HandleMessage(env, h, d, m, draw, now).tables, d);
    } else {
      OtherMessagesQuiet(env, h, d, m, draw, now);
      hide HandleMessage, Quiet;
      QuietKeepsSameRoom(h.tables, HandleMessage(env, h, d, m, draw, now).tables);
    }
  }

  /** Device updates made by the console on its own, and the end of a session. */
  lemma RowUpdatesQuiet(h: Hub, room: string, d: string, token: string)
    ensures Quiet(h.tables, Effects.RegenerateToken(h.tables, room, d, token))
    ensures var s := Hubs.KickDevice(h, room, d).GetOr(h).tables;
            s.groups == h.tables.groups && s.devices.Keys == h.tables.devices.Keys
            && forall e <- h.tables.devices ::
                 && s.devices[e].roomId == h.tables.devices[e].roomId
                    && s.devices[e].groupId == h.tables.devices[e].groupId
                 && (KickedIn(s, e) <==> KickedIn(h.tables, e) || (e == d && h.tables.devices[e].roomId == room))
  {
    var t := h.tables;
    if d in t.devices && t.devices[d].roomId == room {
      SetRowQuiet(t, d, t.devices[d].(deviceToken := token));
      if d in h.clients {
      } else {
      }
    } else {
    }
  }

  lemma RemoveDeviceKeepsSameRoom(t: Tables, room: string, d: string)
    requires SameRoom(t)
    ensures SameRoom(Effects.DeleteDevice(t, room, d))
  {
    var s := Effects.DeleteDevice(t, room, d);
    forall e | e in s.devices ensures GroupInRoom(s, e) { assert GroupInRoom(t, e); }
  }

  lemma KickKeepsSameRoom(h: Hub, room: string, d: string)
    requires SameRoom(h.tables)
    ensures SameRoom(Hubs.KickDevice(h, room, d).GetOr(h).tables)
  {
    RowUpdatesQuiet(h, room, d, "");
    hide Hubs.KickDevice;
    var s := Hubs.KickDevice(h, room, d).GetOr(h).tables;
    forall e | e in s.devices ensures GroupInRoom(s, e) { assert GroupInRoom(h.tables, e); }
  }

  lemma StepKeepsSameRoom(env: Env, h: Hub, a: Action)
    requires SameRoom(h.tables) && Checked(h.tables, a)
    ensures SameRoom(Step(env, h, a).tables)
  {
    hide SameRoom, Apply, EditChecked, Effects.DeleteDevice, Effects.RegenerateToken, EditRow, Hubs.KickDevice,
         PushConfig, PushMembers, Hubs.Connect, HandleMessage, Quiet;
    var t := h.tables;
    match a
    case Console(edit) => ApplyKeepsSameRoom(env, t, edit);
    case DeleteDevice(room, d) => RemoveDeviceKeepsSameRoom(t, room, d);
    case RegenerateToken(room, d, token) =>
      RowUpdatesQuiet(h, room, d, token);
      QuietKeepsSameRoom(t, Effects.RegenerateToken(t, room, d, token));
    case KickDevice(room, d) => KickKeepsSameRoom(h, room, d);
    case PushDevice(room, d, seed, now) =>
      PushConfigQuiet(env, h, d, None, seed, now);
      SameRows(t, Step(env, h, a).tables);
    case PushGroup(room, g, members, seeds, now) =>
      if |members| == |seeds| { PushMembersQuiet(env, h, g, members, seeds, now); }
      SameRows(t, Step(env, h, a).tables);
    case Connect(hello, ip, session, freshId, freshToken, seed, now) =>
      ConnectKeepsSameRoom(env, h, hello, ip, session, freshId, freshToken, seed, now);
    case Message(d, m, draw, now) => MessageKeepsSameRoom(env, h, d, m, draw, now);
    case EndSession(d, session) =>
      EditRowQuiet(t, d, WentOffline);
      QuietKeepsSameRoom(t, EditRow(t, d, WentOffline));
  }

  /** Every device edit of the run names no group, a missing one, or one of the room it edits. */
  predicate RunChecked(env: Env, h: Hub, actions: seq<Action>)
    decreases |actions|
  {
    actions == [] || (Checked(h.tables, actions[0]) && RunChecked(env, Step(env, h, actions[0]), actions[1..]))
  }

  lemma {:induction false} RunKeepsSameRoom(env: Env, h: Hub, actions: seq<Action>)
    requires SameRoom(h.tables) && RunChecked(env, h, actions)
    ensures SameRoom(Run(env, h, actions).tables)
    decreases |actions|
  {
    hide SameRoom, Step, Checked;
    if actions == [] {
    } else {
      StepKeepsSameRoom(env, h, actions[0]);
      RunKeepsSameRoom(env, Step(env, h, actions[0]), actions[1..]);
    }
  }

  const START := Hub(EMPTY, map[], map[])

  /** From the empty database every run is closed, and keeps groups within rooms; any room can then be deleted. */
  lemma RunFromStart(env: Env, actions: seq<Action>, room: string)
    requires RunChecked(env, START, actions)
    ensures var t := Run(env, START, actions).tables;
            && Closed(t) && SameRoom(t)
            && Effects.DeleteRoom(t, room) == Some(RoomRemoved(t, room))
  {
    RunKeepsClosed(env, START, actions);
    RunKeepsSameRoom(env, START, actions);
    SameRoomIsRemovable(Run(env, START, actions).tables, room);
  }

  lemma SameRoomIsRemovable(t: Tables, room: string)
    requires SameRoom(t)
    ensures RoomRemovable(t, room)
  {
    forall d | d in t.devices ensures GroupInRoom(t, d) { }
  }
}
