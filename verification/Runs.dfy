/** Runs of the whole console: every handler is one step, in any order and for any devices. */
module Runs {
  import opened Wrappers
  import opened Models
  import opened Crypto
  import opened GroupConfig
  import opened Schema
  import opened Effects
  import opened Hubs
  import opened References

  /** Console operations that only edit the tables. */
  datatype Edit =
    | Register(id: string, username: string, password: string, now: int)
    | DeleteAccount(id: string)
    | CreateRoom(id: string, owner: string, name: string, now: int)
    | DeleteRoom(room: string)
    | CreateGroup(room: string, id: string, name: string, config: ClientConfig, nonces: Nonces, now: int)
    | UpdateGroup(room: string, g: string, newName: Option<string>, newConfig: Option<ClientConfig>, nonces: Nonces,
                  now: int)
    | DeleteGroup(room: string, g: string)
    | SetDeviceGroup(room: string, group: Option<string>, d: string)
    | UpdateDevice(room: string, d: string, edit: DeviceEdit)

  /** One handler call with the ids, nonces and clock reading it draws. */
  datatype Action =
    | Console(edit: Edit)
    | DeleteDevice(room: string, d: string)
    | RegenerateToken(room: string, d: string, token: string)
    | KickDevice(room: string, d: string)
    | PushDevice(room: string, d: string, seed: PushSeed, now: int)
    | PushGroup(room: string, g: string, members: seq<string>, seeds: seq<PushSeed>, now: int)
    | Connect(hello: ClientMessage, ip: string, session: nat, freshId: string, freshToken: string, seed: PushSeed,
              now: int)
    | Message(d: string, m: ClientMessage, draw: Draw, now: int)
    | EndSession(d: string, session: nat)

  function Apply(env: Env, t: Tables, e: Edit): Option<Tables> {
    match e
    case Register(id, username, password, now) => Effects.Register(t, id, username, password, now)
    case DeleteAccount(id) => Effects.DeleteAccount(t, id)
    case CreateRoom(id, owner, name, now) => Effects.CreateRoom(t, id, owner, name, now)
    case DeleteRoom(room) => Effects.DeleteRoom(t, room)
    case CreateGroup(room, id, name, config, nonces, now) =>
      Effects.CreateGroup(env, t, room, id, name, config, 1, nonces, now)
    case UpdateGroup(room, g, name, config, nonces, now) =>
      Effects.UpdateGroup(env, t, room, g, name, config, nonces, now)
    case DeleteGroup(room, g) => Effects.DeleteGroup(t, room, g)
    case SetDeviceGroup(room, group, d) => Effects.SetDeviceGroup(t, room, group, d)
    case UpdateDevice(room, d, edit) => Effects.UpdateDevice(t, room, d, edit)
  }

  function Step(env: Env, h: Hub, a: Action): Hub {
    match a
    case Console(edit) => Commit(h, Apply(env, h.tables, edit))
    case DeleteDevice(room, d) => RemoveDevice(h, room, d)
    case RegenerateToken(room, d, token) => ReplaceToken(h, room, d, token)
    case KickDevice(room, d) => Hubs.KickDevice(h, room, d).GetOr(h)
    case PushDevice(room, d, seed, now) => Hubs.PushDevice(env, h, room, d, seed, now).0
    case PushGroup(room, g, members, seeds, now) =>
      if |members| == |seeds| then Hubs.PushGroup(env, h, room, g, members, seeds, now).0 else h
    case Connect(hello, ip, session, freshId, freshToken, seed, now) =>
      Hubs.Connect(env, h, hello, ip, session, freshId, freshToken, seed, now).hub
    case Message(d, m, draw, now) => HandleMessage(env, h, d, m, draw, now)
    case EndSession(d, session) => Hubs.EndSession(h, d, session)
  }

  function Run(env: Env, h: Hub, actions: seq<Action>): Hub
    decreases |actions|
  {
    if actions == [] then h else Run(env, Step(env, h, actions[0]), actions[1..])
  }

  lemma RunStarts(env: Env, h: Hub, a: Action, rest: seq<Action>)
    ensures Run(env, h, [a] + rest) == Run(env, Step(env, h, a), rest)
  {
    hide Step;
    assert ([a] + rest)[1..] == rest;
  }

  // ---------------------------------------------------------------- references

  lemma ApplyKeepsClosed(env: Env, t: Tables, e: Edit)
    requires Closed(t)
    ensures Closed(Apply(env, t, e).GetOr(t))
  {
    hide Closed, Effects.Register, Effects.DeleteAccount, Effects.CreateRoom, Effects.DeleteRoom, Effects.CreateGroup,
         Effects.UpdateGroup, Effects.DeleteGroup, Effects.SetDeviceGroup, Effects.UpdateDevice;
    match e
    case Register(id, username, password, now) => RegisterClosed(t, id, username, password, now);
    case DeleteAccount(id) => DeleteAccountClosed(t, id);
    case CreateRoom(id, owner, name, now) => CreateRoomClosed(t, id, owner, name, now);
    case DeleteRoom(room) => DeleteRoomClosed(t, room);
    case CreateGroup(room, id, name, config, nonces, now) =>
      CreateGroupClosed(env, t, room, id, name, config, 1, nonces, now);
    case UpdateGroup(room, g, name, config, nonces, now) =>
      UpdateGroupClosed(env, t, room, g, name, config, nonces, now);
    case DeleteGroup(room, g) => DeleteGroupClosed(t, room, g);
    case SetDeviceGroup(room, group, d) => SetDeviceGroupClosed(t, room, group, d);
    case UpdateDevice(room, d, edit) => UpdateDeviceClosed(t, room, d, edit);
  }

  lemma RegisterClosed(t: Tables, id: string, username: string, password: string, now: int)
    requires Closed(t)
    ensures Closed(Effects.Register(t, id, username, password, now).GetOr(t))
  {
  }

  lemma DeleteAccountClosed(t: Tables, id: string)
    requires Closed(t)
    ensures Closed(Effects.DeleteAccount(t, id).GetOr(t))
  {
    DeleteUsersClosed(t, id);
  }

  lemma CreateRoomClosed(t: Tables, id: string, owner: string, name: string, now: int)
    requires Closed(t)
    ensures Closed(Effects.CreateRoom(t, id, owner, name, now).GetOr(t))
  {
  }

  lemma DeleteRoomClosed(t: Tables, room: string)
    requires Closed(t)
    ensures Closed(Effects.DeleteRoom(t, room).GetOr(t))
  {
    RoomDeleted(t, room);
  }

  lemma SetDeviceGroupClosed(t: Tables, room: string, group: Option<string>, d: string)
    requires Closed(t)
    ensures Closed(Effects.SetDeviceGroup(t, room, group, d).GetOr(t))
  {
    if d in t.devices { SetRowClosed(t, d, t.devices[d].(groupId := group)); }
  }

  lemma RegenerateTokenClosed(t: Tables, room: string, d: string, token: string)
    requires Closed(t)
    ensures Closed(Effects.RegenerateToken(t, room, d, token))
  {
    if d in t.devices { SetRowClosed(t, d, t.devices[d].(deviceToken := token)); }
  }

  lemma KickClosed(h: Hub, room: string, d: string)
    requires Closed(h.tables)
    ensures Closed(Hubs.KickDevice(h, room, d).GetOr(h).tables)
  {
    if d in h.tables.devices { SetRowClosed(h.tables, d, h.tables.devices[d].(status := KICKED)); }
    hide Closed;
    if d !in h.tables.devices || h.tables.devices[d].roomId != room {
    } else if d in h.clients {
    } else {
    }
  }

  lemma StepKeepsClosed(env: Env, h: Hub, a: Action)
    requires Closed(h.tables)
    ensures Closed(Step(env, h, a).tables)
  {
    hide Closed, Apply, Effects.DeleteDevice, Effects.RegenerateToken, EditRow, Hubs.KickDevice, PushConfig,
         PushMembers, Hubs.Connect, HandleMessage;
    var t := h.tables;
    match a
    case Console(edit) => ApplyKeepsClosed(env, t, edit);
    case DeleteDevice(room, d) => DeviceDeleted(t, room, d);
    case RegenerateToken(room, d, token) => RegenerateTokenClosed(t, room, d, token);
    case KickDevice(room, d) => KickClosed(h, room, d);
    case PushDevice(room, d, seed, now) => PushConfigClosed(env, h, d, None, seed, now);
    case PushGroup(room, g, members, seeds, now) =>
      if |members| == |seeds| { PushMembersClosed(env, h, g, members, seeds, now); }
    case Connect(hello, ip, session, freshId, freshToken, seed, now) =>
      ConnectClosed(env, h, hello, ip, session, freshId, freshToken, seed, now);
    case Message(d, m, draw, now) => HandleMessageClosed(env, h, d, m, draw, now);
    case EndSession(d, session) => EditRowClosed(t, d, WentOffline);
  }

  lemma DeleteGroupClosed(t: Tables, room: string, g: string)
    requires Closed(t)
    ensures Closed(Effects.DeleteGroup(t, room, g).GetOr(t))
  {
    DetachedClosed(t, room, g);
    if g in t.groups && t.groups[g].roomId == room {
      GroupDeleted(t, room, g);
    } else {
      assert t.groups - {} == t.groups;
    }
  }

  lemma UpdateDeviceClosed(t: Tables, room: string, d: string, edit: DeviceEdit)
    requires Closed(t)
    ensures Closed(Effects.UpdateDevice(t, room, d, edit).GetOr(t))
  {
    var next := Effects.UpdateDevice(t, room, d, edit);
    if next.Some? { SetRowClosed(t, d, next.value.devices[d]); }
  }

  /** In every run every reference resolves, so no handler ever meets a refused statement it did not cause. */
  lemma {:induction false} RunKeepsClosed(env: Env, h: Hub, actions: seq<Action>)
    requires Closed(h.tables)
    ensures Closed(Run(env, h, actions).tables)
    decreases |actions|
  {
    if actions == [] {
    } else {
      StepKeepsClosed(env, h, actions[0]);
      RunKeepsClosed(env, Step(env, h, actions[0]), actions[1..]);
    }
  }

  // ---------------------------------------------------------------- what most handlers leave alone

  predicate KickedIn(t: Tables, d: string) {
    d in t.devices && t.devices[d].status == KICKED
  }

  /** The same devices with the same rooms, groups and kicks, and the same groups. */
  ghost predicate Quiet(t: Tables, s: Tables) {
    && s.groups == t.groups
    && s.devices.Keys == t.devices.Keys
    && forall d <- t.devices ::
         && s.devices[d].roomId == t.devices[d].roomId
         && s.devices[d].groupId == t.devices[d].groupId
         && (KickedIn(s, d) <==> KickedIn(t, d))
  }

  lemma QuietTransitive(t: Tables, s: Tables, u: Tables)
    requires Quiet(t, s) && Quiet(s, u)
    ensures Quiet(t, u)
  {
  }

  lemma QuietKeepsSameRoom(t: Tables, s: Tables)
    requires Quiet(t, s) && SameRoom(t)
    ensures SameRoom(s)
  {
    forall d | d in s.devices ensures GroupInRoom(s, d) { assert GroupInRoom(t, d); }
  }

  lemma StatusesDiffer()
    ensures ONLINE != KICKED && OFFLINE != KICKED && PENDING != KICKED
  {
    assert ONLINE[0] != KICKED[0] && OFFLINE[0] != KICKED[0] && PENDING[0] != KICKED[0];
  }

  lemma SetRowQuiet(t: Tables, d: string, row: Device)
    requires d in t.devices && row.roomId == t.devices[d].roomId && row.groupId == t.devices[d].groupId
    requires row.status == KICKED <==> t.devices[d].status == KICKED
    ensures Quiet(t, SetRow(t, d, row))
  {
  }

  lemma EditRowQuiet(t: Tables, d: string, e: RowEdit)
    ensures Quiet(t, EditRow(t, d, e))
  {
    StatusesDiffer();
    if d in t.devices {
      SetRowQuiet(t, d, Edited(t.devices[d], e));
    } else {
    }
  }

  /** A push changes neither devices nor groups nor registrations. */
  lemma PushConfigQuiet(env: Env, h: Hub, d: string, group: Option<string>, seed: PushSeed, now: int)
    ensures var h' := PushConfig(env, h, d, group, seed, now).0;
            h'.tables.devices == h.tables.devices && h'.tables.groups == h.tables.groups && h'.clients == h.clients
  {
    PushEffectiveQuiet(env, h, d, DeviceConfig(env, h.tables, d, group), seed, now);
    hide PushEffective, DeviceConfig;
  }

  lemma PushEffectiveQuiet(env: Env, h: Hub, d: string, e: Effective, seed: PushSeed, now: int)
    ensures var h' := PushEffective(env, h, d, e, seed, now).0;
            h'.tables.devices == h.tables.devices && h'.tables.groups == h.tables.groups && h'.clients == h.clients
  {
    hide PushRow, PushMessage, Deliver;
    if e.NoDevice? || d !in h.tables.devices {
    } else if e.Failure? {
    } else {
      DeliverQuiet(h, d, seed.id, PushRow(env, h.tables, d, e, seed, now), PushMessage(env, h.tables, d, e, seed));
    }
  }

  lemma DeliverQuiet(h: Hub, d: string, id: string, row: Push, message: ServerMessage)
    ensures var h' := Deliver(h, d, id, row, message).0;
            h'.tables.devices == h.tables.devices && h'.tables.groups == h.tables.groups && h'.clients == h.clients
  {
    var h' := Deliver(h, d, id, row, message).0;
    if id in h.tables.pushes {
      assert h' == h;
    } else if d in h.clients {
      assert h'.tables == h.tables.(pushes := h.tables.pushes[id := row]);
    } else {
      assert h'.tables == h.tables.(pushes := h.tables.pushes[id := row]);
    }
  }

  lemma {:induction false} PushMembersQuiet(env: Env, h: Hub, g: string, members: seq<string>, seeds: seq<PushSeed>,
                                            now: int)
    requires |members| == |seeds|
    ensures var h' := PushMembers(env, h, g, members, seeds, now).0;
            h'.tables.devices == h.tables.devices && h'.tables.groups == h.tables.groups && h'.clients == h.clients
    decreases |members|
  {
    if members == [] {
    } else {
      PushConfigQuiet(env, h, members[0], Some(g), seeds[0], now);
      PushMembersQuiet(env, PushConfig(env, h, members[0], Some(g), seeds[0], now).0, g, members[1..], seeds[1..], now);
    }
  }

  lemma ReportEventQuiet(t: Tables, d: string, m: ClientMessage, id: string, now: int)
    requires m.EventReport?
    ensures Quiet(t, ReportEvent(t, d, m, id, now))
  {
    var t1 := if m.traffic.Some? then EditRow(t, d, Traffic(m.traffic.value.0, m.traffic.value.1, now)) else t;
    if m.traffic.Some? { EditRowQuiet(t, d, Traffic(m.traffic.value.0, m.traffic.value.1, now)); }
    var t2 := if m.vntsStatus.Some? then EditRow(t1, d, Vnts(m.vntsStatus.value.0, m.vntsStatus.value.1, now)) else t1;
    if m.vntsStatus.Some? { EditRowQuiet(t1, d, Vnts(m.vntsStatus.value.0, m.vntsStatus.value.1, now)); }
    QuietTransitive(t, t1, t2);
    AddEventQuiet(t2, id, d, m.eventType, m.payload, now);
    QuietTransitive(t, t2, ReportEvent(t, d, m, id, now));
  }

  lemma AddEventQuiet(t: Tables, id: string, d: string, eventType: string, payload: string, now: int)
    ensures Quiet(t, AddEvent(t, id, d, eventType, payload, now).GetOr(t))
  {
    if id in t.events || d !in t.devices {
    } else {
    }
  }

  /** The handler of a message other than a state report. */
  lemma OtherMessagesQuiet(env: Env, h: Hub, d: string, m: ClientMessage, draw: Draw, now: int)
    requires !m.ConfigState?
    ensures Quiet(h.tables, HandleMessage(env, h, d, m, draw, now).tables)
  {
    var t := h.tables;
    match m
    case EventReport(_, _, _, _) => ReportEventQuiet(t, d, m, draw.id, now);
    case ConfigAck(version) => EditRowQuiet(t, d, Recorded(version, now));
    case Heartbeat => EditRowQuiet(t, d, Seen(now));
    case Disconnect => EditRowQuiet(t, d, WentOffline);
    case TrafficStats(up, down) => EditRowQuiet(t, d, Traffic(up, down, now));
    case Hello(_, _, _, _, _, _) =>
  }

  /** What joining and adopting leave behind: no group is lost or moved, and only this device changes its group. */
  ghost predicate Joins(t: Tables, s: Tables, d: string) {
    && s.devices.Keys == t.devices.Keys
    && (forall g <- t.groups :: g in s.groups && s.groups[g] == t.groups[g])
    && (forall e <- t.devices :: s.devices[e].roomId == t.devices[e].roomId && (KickedIn(s, e) <==> KickedIn(t, e)))
    && (forall e <- t.devices :: e != d ==> s.devices[e].groupId == t.devices[e].groupId)
    && (d in t.devices ==>
          s.devices[d].groupId == t.devices[d].groupId || (t.devices[d].groupId.None? && GroupInRoom(s, d)))
  }

  lemma ReconcileJoins(env: Env, h: Hub, d: string, version: nat, groupId: Option<string>, name: Option<string>,
                       config: ClientConfig, draw: Draw, now: int)
    ensures var h' := Reconcile(env, h, d, version, groupId, name, config, draw, now);
            Joins(h.tables, h'.tables, d) && h'.clients == h.clients
  {
    hide PushIfDiffers, Adopt, Joins;
    var t := h.tables;
    JoinsReflexive(t, t, d);
    if d !in t.devices {
    } else if t.devices[d].groupId.Some? {
      PushIfJoins(env, t, h, d, version, draw.push, now);
    } else if groupId.Some? && !Blank(groupId.value) && groupId.value in t.groups
              && t.groups[groupId.value].roomId == t.devices[d].roomId {
      var joined := h.(tables := SetRow(t, d, t.devices[d].(groupId := groupId)));
      SetGroupJoins(t, d, groupId);
      PushIfJoins(env, t, joined, d, version, draw.push, now);
    } else {
      AdoptJoins(env, t, d, draw.id, AdoptedName(name), config, version, draw.nonces, now);
    }
  }

  lemma JoinsReflexive(t: Tables, s: Tables, d: string)
    requires s.devices == t.devices && s.groups == t.groups
    ensures Joins(t, s, d)
  {
  }

  lemma SetGroupJoins(t: Tables, d: string, g: Option<string>)
    requires d in t.devices && t.devices[d].groupId.None?
    requires g.Some? && g.value in t.groups && t.groups[g.value].roomId == t.devices[d].roomId
    ensures Joins(t, SetRow(t, d, t.devices[d].(groupId := g)), d)
  {
  }

  /** A push after a join leaves the join as it is. */
  lemma PushIfJoins(env: Env, t: Tables, h: Hub, d: string, version: nat, seed: PushSeed, now: int)
    requires Joins(t, h.tables, d)
    ensures var h' := PushIfDiffers(env, h, d, version, seed, now);
            Joins(t, h'.tables, d) && h'.clients == h.clients
  {
    PushConfigQuiet(env, h, d, None, seed, now);
    hide PushConfig, DeviceConfig;
    var h' := PushIfDiffers(env, h, d, version, seed, now);
    assert h'.tables.devices == h.tables.devices && h'.tables.groups == h.tables.groups;
  }

  lemma AdoptJoins(env: Env, t: Tables, d: string, id: string, name: string, config: ClientConfig, version: nat,
                   nonces: Nonces, now: int)
    requires d in t.devices && t.devices[d].groupId.None?
    ensures Joins(t, Adopt(env, t, d, id, name, config, version, nonces, now), d)
  {
    hide SealConfig;
  }

  lemma JoinsKeepsSameRoom(t: Tables, s: Tables, d: string)
    requires Joins(t, s, d) && SameRoom(t)
    ensures SameRoom(s)
  {
    forall e | e in s.devices ensures GroupInRoom(s, e) { assert GroupInRoom(t, e); }
  }

  lemma SyncReportedJoins(env: Env, h: Hub, d: string, version: nat, groupId: Option<string>, name: Option<string>,
                          config: ClientConfig, running: bool, draw: Draw, now: int)
    ensures var h' := SyncReported(env, h, d, version, groupId, name, config, running, draw, now);
            Joins(h.tables, h'.tables, d) && h'.clients == h.clients
  {
    EditRowQuiet(h.tables, d, Recorded(version, now));
    var recorded := if running then EditRow(h.tables, d, Recorded(version, now)) else h.tables;
    ReconcileJoins(env, h.(tables := recorded), d, version, groupId, name, config, draw, now);
  }
}
