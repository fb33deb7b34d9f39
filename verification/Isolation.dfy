/** What happens in one room leaves the others alone: their rows and their registrations, over whole runs. */
module Isolation {
  import opened Wrappers
  import opened Models
  import opened Crypto
  import opened GroupConfig
  import opened Schema
  import opened Effects
  import opened Hubs
  import opened Runs
  import opened Operations
  import opened Sessions

  // ---------------------------------------------------------------- the part of the state that is a room's

  function GroupOf(t: Tables, q: string, g: string): Option<Group> {
    if g in t.groups && t.groups[g].roomId == q then Some(t.groups[g]) else None
  }

  function DeviceOf(t: Tables, q: string, d: string): Option<Device> {
    if InRoom(t, d, q) then Some(t.devices[d]) else None
  }

  function EventOf(t: Tables, q: string, x: string): Option<Event> {
    if x in t.events && InRoom(t, t.events[x].deviceId, q) then Some(t.events[x]) else None
  }

  function PushOf(t: Tables, q: string, p: string): Option<Push> {
    if p in t.pushes && InRoom(t, t.pushes[p].deviceId, q) then Some(t.pushes[p]) else None
  }

  function ClientOf(h: Hub, q: string, d: string): Option<nat> {
    if InRoom(h.tables, d, q) && d in h.clients then Some(h.clients[d]) else None
  }

  /** The room's row, groups, devices, and their events and pushes are the same. */
  ghost predicate RoomKept(t: Tables, s: Tables, q: string) {
    && (q in s.rooms <==> q in t.rooms) && (q in t.rooms ==> s.rooms[q] == t.rooms[q])
    && (forall g :: GroupOf(s, q, g) == GroupOf(t, q, g))
    && (forall d :: DeviceOf(s, q, d) == DeviceOf(t, q, d))
    && (forall x :: EventOf(s, q, x) == EventOf(t, q, x))
    && (forall p :: PushOf(s, q, p) == PushOf(t, q, p))
  }

  /** And its devices are registered as they were. */
  ghost predicate Untouched(h: Hub, h': Hub, q: string) {
    && RoomKept(h.tables, h'.tables, q)
    && forall d :: ClientOf(h', q, d) == ClientOf(h, q, d)
  }

  lemma KeptTransitive(t: Tables, s: Tables, u: Tables, q: string)
    requires RoomKept(t, s, q) && RoomKept(s, u, q)
    ensures RoomKept(t, u, q)
  {
    hide GroupOf, DeviceOf, EventOf, PushOf;
  }

  lemma UntouchedTransitive(h: Hub, k: Hub, l: Hub, q: string)
    requires Untouched(h, k, q) && Untouched(k, l, q)
    ensures Untouched(h, l, q)
  {
    KeptTransitive(h.tables, k.tables, l.tables, q);
    hide RoomKept, ClientOf;
  }

  /** The same registrations of the room's devices. */
  lemma SameClients(h: Hub, h': Hub, q: string)
    requires RoomKept(h.tables, h'.tables, q)
    requires forall d :: InRoom(h.tables, d, q) ==>
               (d in h'.clients <==> d in h.clients) && (d in h.clients ==> h'.clients[d] == h.clients[d])
    ensures Untouched(h, h', q)
  {
    forall d ensures ClientOf(h', q, d) == ClientOf(h, q, d) {
      assert DeviceOf(h'.tables, q, d) == DeviceOf(h.tables, q, d);
    }
  }

  // ---------------------------------------------------------------- changes elsewhere

  lemma SetRowElsewhere(t: Tables, d: string, row: Device, q: string)
    requires !InRoom(t, d, q) && row.roomId != q
    ensures RoomKept(t, SetRow(t, d, row), q)
  {
  }

  lemma EditRowElsewhere(t: Tables, d: string, e: RowEdit, q: string)
    requires !InRoom(t, d, q)
    ensures RoomKept(t, EditRow(t, d, e), q)
  {
    if d in t.devices {
      SetRowElsewhere(t, d, Edited(t.devices[d], e), q);
    } else {
    }
  }

  lemma AddPushElsewhere(t: Tables, id: string, row: Push, q: string)
    requires id !in t.pushes && !InRoom(t, row.deviceId, q)
    ensures RoomKept(t, t.(pushes := t.pushes[id := row]), q)
  {
  }

  lemma AddEventElsewhere(t: Tables, id: string, d: string, eventType: string, payload: string, now: int, q: string)
    requires !InRoom(t, d, q)
    ensures RoomKept(t, AddEvent(t, id, d, eventType, payload, now).GetOr(t), q)
  {
  }

  lemma SetGroupRowElsewhere(t: Tables, g: string, row: Group, q: string)
    requires GroupOf(t, q, g).None? && row.roomId != q
    ensures RoomKept(t, t.(groups := t.groups[g := row]), q)
  {
  }

  lemma MarkElsewhere(t: Tables, d: string, settled: Option<string>, q: string)
    requires !InRoom(t, d, q) && (settled.Some? ==> settled.value in t.pushes && t.pushes[settled.value].deviceId == d)
    ensures RoomKept(t, MarkAcked(t, settled), q)
  {
  }

  // ---------------------------------------------------------------- console edits

  lemma RoomRemovedElsewhere(t: Tables, room: string, q: string)
    requires room != q
    ensures RoomKept(t, Effects.DeleteRoom(t, room).GetOr(t), q)
  {
    RoomDeletion(t, room);
    hide Effects.DeleteRoom;
    if Effects.DeleteRoom(t, room).Some? {
      WithoutKeeps(t, Effects.DeleteRoom(t, room).value, room, q);
    }
  }

  lemma WithoutKeeps(t: Tables, s: Tables, room: string, q: string)
    requires WithoutRoom(t, s, room) && room != q
    ensures RoomKept(t, s, q)
  {
  }

  lemma GroupCreatedElsewhere(env: Env, t: Tables, room: string, id: string, name: string, config: ClientConfig,
                              version: int, nonces: Nonces, now: int, q: string)
    requires room != q
    ensures RoomKept(t, Effects.CreateGroup(env, t, room, id, name, config, version, nonces, now).GetOr(t), q)
  {
    hide SealConfig, RoomKept;
    var row := Group(room, name, SealConfig(env, id, config, nonces), Max(version, 1), now, now);
    SameRows(t, q);
    if id !in t.groups { SetGroupRowElsewhere(t, id, row, q); }
  }

  lemma SameRows(t: Tables, q: string)
    ensures RoomKept(t, t, q)
  {
  }

  lemma GroupUpdatedElsewhere(env: Env, t: Tables, room: string, g: string, name: Option<string>,
                              config: Option<ClientConfig>, nonces: Nonces, now: int, q: string)
    requires room != q
    ensures RoomKept(t, Effects.UpdateGroup(env, t, room, g, name, config, nonces, now).GetOr(t), q)
  {
    GroupUpdated(env, t, room, g, name, config, nonces, now);
    hide Effects.UpdateGroup, ReadConfig;
    var s := Effects.UpdateGroup(env, t, room, g, name, config, nonces, now);
    if s.Some? {
      assert s.value == t.(groups := t.groups[g := s.value.groups[g]]);
      hide OnlyGroup;
    }
  }

  lemma GroupDeletedElsewhere(t: Tables, room: string, g: string, q: string)
    requires room != q
    ensures RoomKept(t, Effects.DeleteGroup(t, room, g).GetOr(t), q)
  {
    GroupDeletion(t, room, g);
    SameRows(t, q);
    hide Effects.DeleteGroup, RoomKept;
    var s := Effects.DeleteGroup(t, room, g);
    if s.Some? { RowsElsewhere(t, s.value, q); }
  }

  lemma RowsElsewhere(t: Tables, s: Tables, q: string)
    requires s == t.(groups := s.groups, devices := s.devices) && s.devices.Keys == t.devices.Keys
    requires forall d <- t.devices ::
               s.devices[d].roomId == t.devices[d].roomId && (t.devices[d].roomId == q ==> s.devices[d] == t.devices[d])
    requires forall g :: GroupOf(s, q, g) == GroupOf(t, q, g)
    ensures RoomKept(t, s, q)
  {
    hide GroupOf;
    assert forall d :: InRoom(s, d, q) <==> InRoom(t, d, q);
  }

  lemma AssignedElsewhere(t: Tables, room: string, group: Option<string>, d: string, q: string)
    requires room != q
    ensures RoomKept(t, Effects.SetDeviceGroup(t, room, group, d).GetOr(t), q)
  {
    SameRows(t, q);
    if Effects.SetDeviceGroup(t, room, group, d).Some? {
      SetRowElsewhere(t, d, t.devices[d].(groupId := group), q);
      hide RoomKept;
    }
  }

  lemma EditedElsewhere(t: Tables, room: string, d: string, edit: DeviceEdit, q: string)
    requires room != q
    ensures RoomKept(t, Effects.UpdateDevice(t, room, d, edit).GetOr(t), q)
  {
    SameRows(t, q);
    var s := Effects.UpdateDevice(t, room, d, edit);
    if s.Some? {
      SetRowElsewhere(t, d, s.value.devices[d], q);
      hide RoomKept;
    }
  }

  /** The room that a console edit is about. */
  function EditRoom(e: Edit): Option<string> {
    match e
    case Register(_, _, _, _) => None
    case DeleteAccount(_) => None
    case CreateRoom(id, _, _, _) => Some(id)
    case DeleteRoom(room) => Some(room)
    case CreateGroup(room, _, _, _, _, _) => Some(room)
    case UpdateGroup(room, _, _, _, _, _) => Some(room)
    case DeleteGroup(room, _) => Some(room)
    case SetDeviceGroup(room, _, _) => Some(room)
    case UpdateDevice(room, _, _) => Some(room)
  }

  lemma ApplyElsewhere(env: Env, t: Tables, e: Edit, q: string)
    requires EditRoom(e) != Some(q)
    ensures RoomKept(t, Apply(env, t, e).GetOr(t), q)
  {
    hide Effects.CreateGroup, Effects.UpdateGroup, Effects.DeleteGroup, Effects.SetDeviceGroup, Effects.UpdateDevice,
         Effects.DeleteRoom;
    match e
    case Register(id, username, password, now) =>
    case DeleteAccount(id) =>
    case CreateRoom(id, owner, name, now) =>
    case DeleteRoom(room) => RoomRemovedElsewhere(t, room, q); hide RoomKept;
    case CreateGroup(room, id, name, config, nonces, now) =>
      GroupCreatedElsewhere(env, t, room, id, name, config, 1, nonces, now, q);
      hide RoomKept;
    case UpdateGroup(room, g, name, config, nonces, now) =>
      GroupUpdatedElsewhere(env, t, room, g, name, config, nonces, now, q);
      hide RoomKept;
    case DeleteGroup(room, g) => GroupDeletedElsewhere(t, room, g, q); hide RoomKept;
    case SetDeviceGroup(room, group, d) => AssignedElsewhere(t, room, group, d, q); hide RoomKept;
    case UpdateDevice(room, d, edit) => EditedElsewhere(t, room, d, edit, q); hide RoomKept;
  }

  // ---------------------------------------------------------------- pushes

  lemma PushElsewhere(env: Env, h: Hub, d: string, group: Option<string>, seed: PushSeed, now: int, q: string)
    requires !InRoom(h.tables, d, q)
    ensures Untouched(h, PushConfig(env, h, d, group, seed, now).0, q)
    ensures PushConfig(env, h, d, group, seed, now).0.tables.devices == h.tables.devices
  {
    SameRows(h.tables, q);
    PushFails(env, h, d, group, seed, now);
    PushConfigQuiet(env, h, d, group, seed, now);
    var e := DeviceConfig(env, h.tables, d, group);
    var h' := PushConfig(env, h, d, group, seed, now).0;
    if d in h.tables.devices && e.Effective? && seed.id !in h.tables.pushes {
      var row := PushRow(env, h.tables, d, e, seed, now);
      assert row.deviceId == d;
      hide DeviceConfig, PushRow, PushMessage, RoomKept, Untouched;
      assert h'.tables == h.tables.(pushes := h.tables.pushes[seed.id := row]);
      AddPushElsewhere(h.tables, seed.id, row, q);
      SameClients(h, h', q);
    } else {
      hide PushConfig, DeviceConfig;
    }
  }

  lemma {:induction false} PushMembersElsewhere(env: Env, h: Hub, g: string, members: seq<string>, seeds: seq<PushSeed>,
                                                now: int, q: string)
    requires |members| == |seeds| && forall d <- members :: !InRoom(h.tables, d, q)
    ensures Untouched(h, PushMembers(env, h, g, members, seeds, now).0, q)
    decreases |members|
  {
    if members == [] {
      SameRows(h.tables, q);
    } else {
      assert members[0] in members;
      PushElsewhere(env, h, members[0], Some(g), seeds[0], now, q);
      hide PushConfig, Untouched;
      var k := PushConfig(env, h, members[0], Some(g), seeds[0], now).0;
      forall d | d in members[1..] ensures !InRoom(k.tables, d, q) { assert d in members; }
      PushMembersElsewhere(env, k, g, members[1..], seeds[1..], now, q);
      UntouchedTransitive(h, k, PushMembers(env, k, g, members[1..], seeds[1..], now).0, q);
    }
  }

  // ---------------------------------------------------------------- messages and sessions

  lemma TablesElsewhere(h: Hub, s: Tables, q: string)
    requires RoomKept(h.tables, s, q)
    ensures Untouched(h, h.(tables := s), q)
  {
    hide RoomKept;
    var h' := h.(tables := s);
    forall d ensures ClientOf(h', q, d) == ClientOf(h, q, d) { KeptInRoom(h.tables, s, q, d); }
  }

  lemma KeptInRoom(t: Tables, s: Tables, q: string, d: string)
    requires RoomKept(t, s, q)
    ensures InRoom(s, d, q) <==> InRoom(t, d, q)
  {
    assert DeviceOf(s, q, d) == DeviceOf(t, q, d);
  }

  lemma LeaveElsewhere(h: Hub, d: string, outbound: map<nat, seq<ServerMessage>>, q: string)
    requires !InRoom(h.tables, d, q)
    ensures Untouched(h, Hub(EditRow(h.tables, d, WentOffline), h.clients - {d}, outbound), q)
  {
    EditRowElsewhere(h.tables, d, WentOffline, q);
    hide EditRow, RoomKept;
    SameClients(h, Hub(EditRow(h.tables, d, WentOffline), h.clients - {d}, outbound), q);
  }

  lemma ReportEventElsewhere(t: Tables, d: string, m: ClientMessage, id: string, now: int, q: string)
    requires m.EventReport? && !InRoom(t, d, q)
    ensures RoomKept(t, ReportEvent(t, d, m, id, now), q)
  {
    EventReported(t, d, m, id, now);
    hide ReportEvent;
    SameRows(t, q);
    if d in t.devices {
      var s := ReportEvent(t, d, m, id, now);
      var u := SetRow(t, d, s.devices[d]);
      SetRowElsewhere(t, d, s.devices[d], q);
      KeptInRoom(t, u, q, d);
      AddEventElsewhere(u, id, d, m.eventType, m.payload, now, q);
      hide RoomKept, CarriesOver;
      KeptTransitive(t, u, s, q);
    }
  }

  lemma PushIfElsewhere(env: Env, h: Hub, d: string, version: nat, seed: PushSeed, now: int, q: string)
    requires !InRoom(h.tables, d, q)
    ensures Untouched(h, PushIfDiffers(env, h, d, version, seed, now), q)
    ensures Untouched(h, PushIfBehind(env, h, d, seed, now), q)
  {
    SameRows(h.tables, q);
    PushElsewhere(env, h, d, None, seed, now, q);
    hide PushConfig, DeviceConfig, RoomKept;
  }

  lemma AdoptElsewhere(env: Env, t: Tables, d: string, id: string, name: string, config: ClientConfig, version: nat,
                       nonces: Nonces, now: int, q: string)
    requires d in t.devices && t.devices[d].roomId != q
    ensures RoomKept(t, Adopt(env, t, d, id, name, config, version, nonces, now), q)
  {
    var room := t.devices[d].roomId;
    SameRows(t, q);
    GroupCreatedElsewhere(env, t, room, id, name, config, version, nonces, now, q);
    var grown := Effects.CreateGroup(env, t, room, id, name, config, version, nonces, now);
    if grown.Some? {
      var row := t.devices[d].(groupId := Some(id), configVersion := version);
      SetRowElsewhere(grown.value, d, row, q);
      hide RoomKept, Effects.CreateGroup;
      KeptTransitive(t, grown.value, SetRow(grown.value, d, row), q);
    }
  }

  lemma ReconcileElsewhere(env: Env, h: Hub, d: string, version: nat, groupId: Option<string>, name: Option<string>,
                           config: ClientConfig, draw: Draw, now: int, q: string)
    requires !InRoom(h.tables, d, q)
    ensures Untouched(h, Reconcile(env, h, d, version, groupId, name, config, draw, now), q)
  {
    hide PushIfDiffers, Adopt, Untouched;
    var t := h.tables;
    TablesElsewhere(h, t, q) by { SameRows(t, q); }
    if d !in t.devices {
    } else if t.devices[d].groupId.Some? {
      PushIfElsewhere(env, h, d, version, draw.push, now, q);
    } else if groupId.Some? && !Blank(groupId.value) && groupId.value in t.groups
              && t.groups[groupId.value].roomId == t.devices[d].roomId {
      var joined := h.(tables := SetRow(t, d, t.devices[d].(groupId := groupId)));
      SetRowElsewhere(t, d, t.devices[d].(groupId := groupId), q);
      TablesElsewhere(h, joined.tables, q);
      PushIfElsewhere(env, joined, d, version, draw.push, now, q);
      UntouchedTransitive(h, joined, PushIfDiffers(env, joined, d, version, draw.push, now), q);
    } else {
      AdoptElsewhere(env, t, d, draw.id, AdoptedName(name), config, version, draw.nonces, now, q);
      TablesElsewhere(h, Adopt(env, t, d, draw.id, AdoptedName(name), config, version, draw.nonces, now), q);
    }
  }

  lemma ReportElsewhere(env: Env, h: Hub, d: string, version: nat, groupId: Option<string>, name: Option<string>,
                        config: ClientConfig, running: bool, draw: Draw, now: int, q: string)
    requires !InRoom(h.tables, d, q)
    ensures Untouched(h, SyncReported(env, h, d, version, groupId, name, config, running, draw, now), q)
  {
    SameRows(h.tables, q);
    EditRowElsewhere(h.tables, d, Recorded(version, now), q);
    hide EditRow, Reconcile, RoomKept, Untouched;
    var k := h.(tables := if running then EditRow(h.tables, d, Recorded(version, now)) else h.tables);
    TablesElsewhere(h, k.tables, q);
    KeptInRoom(h.tables, k.tables, q, d);
    ReconcileElsewhere(env, k, d, version, groupId, name, config, draw, now, q);
    UntouchedTransitive(h, k, Reconcile(env, k, d, version, groupId, name, config, draw, now), q);
  }

  lemma MessageElsewhere(env: Env, h: Hub, d: string, m: ClientMessage, draw: Draw, now: int, q: string)
    requires !InRoom(h.tables, d, q) && (m.ConfigAck? ==> Settles(h.tables.pushes, d, draw.settled))
    ensures Untouched(h, HandleMessage(env, h, d, m, draw, now), q)
  {
    var t := h.tables;
    hide SyncReported, EditRow, ReportEvent, Untouched;
    match m
    case EventReport(_, _, _, _) =>
      ReportEventElsewhere(t, d, m, draw.id, now, q);
      TablesElsewhere(h, ReportEvent(t, d, m, draw.id, now), q);
    case ConfigAck(version) =>
      AckElsewhere(t, d, version, draw.settled, now, q);
      TablesElsewhere(h, MarkAcked(EditRow(t, d, Recorded(version, now)), draw.settled), q);
    case ConfigState(version, groupId, name, config, running) =>
      ReportElsewhere(env, h, d, version, groupId, name, config, running, draw, now, q);
    case Heartbeat =>
      EditRowElsewhere(t, d, Seen(now), q);
      TablesElsewhere(h, EditRow(t, d, Seen(now)), q);
    case Disconnect => LeaveElsewhere(h, d, h.outbound, q);
    case TrafficStats(up, down) =>
      EditRowElsewhere(t, d, Traffic(up, down, now), q);
      TablesElsewhere(h, EditRow(t, d, Traffic(up, down, now)), q);
    case Hello(_, _, _, _, _, _) =>
      SameRows(t, q);
      TablesElsewhere(h, t, q);
  }

  lemma AckElsewhere(t: Tables, d: string, version: nat, settled: Option<string>, now: int, q: string)
    requires !InRoom(t, d, q) && Settles(t.pushes, d, settled)
    ensures RoomKept(t, MarkAcked(EditRow(t, d, Recorded(version, now)), settled), q)
  {
    var s := EditRow(t, d, Recorded(version, now));
    assert s.pushes == t.pushes;
    EditRowElsewhere(t, d, Recorded(version, now), q);
    hide EditRow;
    KeptInRoom(t, s, q, d);
    MarkElsewhere(s, d, settled, q);
    hide RoomKept, MarkAcked, Settles;
    KeptTransitive(t, s, MarkAcked(s, settled), q);
  }

  lemma HelloElsewhere(t: Tables, room: string, id: Option<string>, token: Option<string>, name: string,
                       version: Option<string>, ip: Option<string>, freshId: string, freshToken: string, now: int,
                       q: string)
    requires room != q
    ensures var r := UpsertDeviceHello(t, room, id, token, name, version, ip, freshId, freshToken, now);
            r.Admitted? ==> RoomKept(t, r.tables, q) && !InRoom(t, r.id, q)
  {
    var r := UpsertDeviceHello(t, room, id, token, name, version, ip, freshId, freshToken, now);
    if r.Admitted? {
      SetRowElsewhere(t, r.id, r.tables.devices[r.id], q);
      hide RoomKept;
    }
  }

  lemma ConnectElsewhere(env: Env, h: Hub, hello: ClientMessage, ip: string, session: nat, freshId: string,
                         freshToken: string, seed: PushSeed, now: int, q: string)
    requires hello.Hello? ==> hello.roomId != q
    ensures Untouched(h, Hubs.Connect(env, h, hello, ip, session, freshId, freshToken, seed, now).hub, q)
  {
    hide UpsertDeviceHello, PushIfBehind, Untouched;
    TablesElsewhere(h, h.tables, q) by { SameRows(h.tables, q); }
    if hello.Hello? && hello.protocolVersion == 1 && hello.roomId in h.tables.rooms {
      var r := UpsertDeviceHello(h.tables, hello.roomId, hello.deviceId, hello.deviceToken, hello.deviceName,
                                 hello.clientVersion, Some(ip), freshId, freshToken, now);
      HelloElsewhere(h.tables, hello.roomId, hello.deviceId, hello.deviceToken, hello.deviceName, hello.clientVersion,
                     Some(ip), freshId, freshToken, now, q);
      if r.Admitted? {
        TablesElsewhere(h, r.tables, q);
        if r.status != KICKED {
          var k := Hub(r.tables, h.clients[r.id := session],
                       h.outbound[session := [HelloAck(r.id, r.newToken, r.status)]]);
          KeptInRoom(h.tables, r.tables, q, r.id);
          hide RoomKept;
          SameClients(h, k, q);
          PushIfElsewhere(env, k, r.id, 0, seed, now, q);
          UntouchedTransitive(h, k, PushIfBehind(env, k, r.id, seed, now), q);
        }
      }
    }
  }

  lemma KickElsewhere(h: Hub, room: string, d: string, q: string)
    requires room != q
    ensures Untouched(h, Hubs.KickDevice(h, room, d).GetOr(h), q)
  {
    KickTells(h, room, d);
    KickMarks(h.tables, room, d);
    TablesElsewhere(h, h.tables, q) by { SameRows(h.tables, q); }
    var k := Hubs.KickDevice(h, room, d);
    hide Hubs.KickDevice, Untouched;
    if k.Some? {
      assert k.value.tables == SetRow(h.tables, d, k.value.tables.devices[d]);
      SetRowElsewhere(h.tables, d, k.value.tables.devices[d], q);
      hide Kick, OnlyDevice, RoomKept;
      SameClients(h, k.value, q);
    }
  }

  // ---------------------------------------------------------------- steps and runs

  /** The room that a handler call is about. */
  function RoomOf(t: Tables, a: Action): Option<string> {
    match a
    case Console(edit) => EditRoom(edit)
    case DeleteDevice(room, _) => Some(room)
    case RegenerateToken(room, _, _) => Some(room)
    case KickDevice(room, _) => Some(room)
    case PushDevice(room, _, _, _) => Some(room)
    case PushGroup(room, _, _, _, _) => Some(room)
    case Connect(hello, _, _, _, _, _, _) => if hello.Hello? then Some(hello.roomId) else None
    case Message(d, _, _, _) => if d in t.devices then Some(t.devices[d].roomId) else None
    case EndSession(d, _) => if d in t.devices then Some(t.devices[d].roomId) else None
  }

  /**
   * The call is about another room. The two that go by device id alone do not name a device of `q`; a group push goes
   * to the group's members, and an acknowledgement marks the row that its query finds.
   */
  predicate Elsewhere(h: Hub, a: Action, q: string) {
    && RoomOf(h.tables, a) != Some(q)
    && (a.DeleteDevice? || a.RegenerateToken? ==> !InRoom(h.tables, a.d, q))
    && (a.PushGroup? ==> forall d <- a.members :: d in Members(h.tables, a.room, a.g))
    && (a.Message? && a.m.ConfigAck? ==> Settles(h.tables.pushes, a.d, a.draw.settled))
  }

  lemma StepElsewhere(env: Env, h: Hub, a: Action, q: string)
    requires Elsewhere(h, a, q)
    ensures Untouched(h, Step(env, h, a), q)
  {
    var t := h.tables;
    TablesElsewhere(h, t, q) by { SameRows(t, q); }
    hide Untouched, Apply, Effects.DeleteDevice, Effects.RegenerateToken, EditRow, Hubs.KickDevice, PushConfig,
         PushMembers, Hubs.Connect, HandleMessage, Settles;
    match a
    case Console(edit) =>
      ApplyElsewhere(env, t, edit, q);
      TablesElsewhere(h, Apply(env, t, edit).GetOr(t), q);
    case DeleteDevice(room, d) => RemovalElsewhere(h, room, d, q);
    case RegenerateToken(room, d, token) => ReplacementElsewhere(h, room, d, token, q);
    case KickDevice(room, d) => KickElsewhere(h, room, d, q);
    case PushDevice(room, d, seed, now) =>
      if d in t.devices && t.devices[d].roomId == room { PushElsewhere(env, h, d, None, seed, now, q); }
    case PushGroup(room, g, members, seeds, now) =>
      if |members| == |seeds| { PushMembersElsewhere(env, h, g, members, seeds, now, q); }
    case Connect(hello, ip, session, freshId, freshToken, seed, now) =>
      ConnectElsewhere(env, h, hello, ip, session, freshId, freshToken, seed, now, q);
    case Message(d, m, draw, now) => MessageElsewhere(env, h, d, m, draw, now, q);
    case EndSession(d, session) => LeaveElsewhere(h, d, h.outbound - {session}, q);
  }

  lemma RemovalElsewhere(h: Hub, room: string, d: string, q: string)
    requires room != q && !InRoom(h.tables, d, q)
    ensures Untouched(h, RemoveDevice(h, room, d), q)
  {
    DeviceDeletion(h.tables, room, d);
    hide Effects.DeleteDevice;
    assert RoomKept(h.tables, RemoveDevice(h, room, d).tables, q);
    hide RoomKept;
    SameClients(h, RemoveDevice(h, room, d), q);
  }

  lemma ReplacementElsewhere(h: Hub, room: string, d: string, token: string, q: string)
    requires room != q && !InRoom(h.tables, d, q)
    ensures Untouched(h, ReplaceToken(h, room, d, token), q)
  {
    TokenReplaced(h.tables, room, d, token);
    SameRows(h.tables, q);
    if d in h.tables.devices && h.tables.devices[d].roomId == room {
      SetRowElsewhere(h.tables, d, h.tables.devices[d].(deviceToken := token), q);
    }
    hide RoomKept, OnlyDevice;
    SameClients(h, ReplaceToken(h, room, d, token), q);
  }

  /** Every call of the run is about another room than `q`. */
  predicate AllElsewhere(env: Env, h: Hub, actions: seq<Action>, q: string)
    decreases |actions|
  {
    actions == [] || (Elsewhere(h, actions[0], q) && AllElsewhere(env, Step(env, h, actions[0]), actions[1..], q))
  }

  /**
   * Whatever is done about other rooms, in any order and number, a room keeps its row, its groups and devices with
   * their events and pushes, and the registrations of its devices.
   */
  lemma {:induction false} RunElsewhere(env: Env, h: Hub, actions: seq<Action>, q: string)
    requires AllElsewhere(env, h, actions, q)
    ensures Untouched(h, Run(env, h, actions), q)
    decreases |actions|
  {
    hide Step, Untouched, Elsewhere;
    if actions == [] {
      TablesElsewhere(h, h.tables, q) by { SameRows(h.tables, q); }
    } else {
      StepElsewhere(env, h, actions[0], q);
      RunElsewhere(env, Step(env, h, actions[0]), actions[1..], q);
      UntouchedTransitive(h, Step(env, h, actions[0]), Run(env, h, actions), q);
    }
  }

  // ---------------------------------------------------------------- the two calls that go by device id alone

  /**
   * Deleting a device under another room's id keeps its row, but not its pushes, events and registration: its room is
   * left alone exactly when it has none of them.
   */
  lemma DeletedUnderOtherRoom(h: Hub, room: string, d: string, q: string)
    requires InRoom(h.tables, d, q) && room != q
    ensures var k := RemoveDevice(h, room, d);
            && DeviceOf(k.tables, q, d) == Some(h.tables.devices[d])
            && (Untouched(h, k, q) <==> PushesOf(h.tables, {d}) == {} && EventsOf(h.tables, {d}) == {}
                                        && d !in h.clients)
  {
    DeviceDeletion(h.tables, room, d);
    hide Effects.DeleteDevice;
    var k := RemoveDevice(h, room, d);
    if PushesOf(h.tables, {d}) == {} && EventsOf(h.tables, {d}) == {} && d !in h.clients {
      NothingOfDevice(h.tables, d);
      assert RoomKept(h.tables, k.tables, q);
      SameClients(h, k, q);
    } else if Untouched(h, k, q) {
      LostOfDevice(h, k, d, q);
    }
  }

  lemma NothingOfDevice(t: Tables, d: string)
    requires PushesOf(t, {d}) == {} && EventsOf(t, {d}) == {}
    ensures (forall p <- t.pushes :: t.pushes[p].deviceId != d) && forall x <- t.events :: t.events[x].deviceId != d
  {
    forall p | p in t.pushes ensures t.pushes[p].deviceId != d { assert p !in PushesOf(t, {d}); }
    forall x | x in t.events ensures t.events[x].deviceId != d { assert x !in EventsOf(t, {d}); }
  }

  lemma LostOfDevice(h: Hub, k: Hub, d: string, q: string)
    requires InRoom(h.tables, d, q) && Untouched(h, k, q) && d !in k.clients
    requires (forall p <- k.tables.pushes :: k.tables.pushes[p].deviceId != d)
    requires (forall x <- k.tables.events :: k.tables.events[x].deviceId != d)
    ensures PushesOf(h.tables, {d}) == {} && EventsOf(h.tables, {d}) == {} && d !in h.clients
  {
    assert ClientOf(k, q, d) == ClientOf(h, q, d);
    forall p | p in h.tables.pushes ensures h.tables.pushes[p].deviceId != d {
      assert PushOf(k.tables, q, p) == PushOf(h.tables, q, p);
    }
    forall x | x in h.tables.events ensures h.tables.events[x].deviceId != d {
      assert EventOf(k.tables, q, x) == EventOf(h.tables, q, x);
    }
  }

  /** Replacing a token under another room's id changes no row, and unregisters the device if it is registered. */
  lemma ReplacedUnderOtherRoom(h: Hub, room: string, d: string, token: string, q: string)
    requires InRoom(h.tables, d, q) && room != q
    ensures var k := ReplaceToken(h, room, d, token);
            && k.tables == h.tables && k.clients == h.clients - {d}
            && (Untouched(h, k, q) <==> d !in h.clients)
  {
    TokenReplaced(h.tables, room, d, token);
    hide Effects.RegenerateToken;
    SameRows(h.tables, q);
    var k := ReplaceToken(h, room, d, token);
    if d !in h.clients {
      SameClients(h, k, q);
    } else {
      assert ClientOf(k, q, d).None? && ClientOf(h, q, d).Some?;
    }
  }
}
