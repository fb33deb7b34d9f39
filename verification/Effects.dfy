/** The net effect of each database operation on the tables. `None` is an operation that fails and changes nothing. */
module Effects {
  import opened Wrappers
  import opened Models
  import opened Crypto
  import opened GroupConfig
  import opened Schema

  /** 64-bit reinterpretation of an unsigned counter, as a bound INTEGER parameter stores it. */
  function AsI64(n: nat): int {
    var m := n % 0x1_0000_0000_0000_0000;
    if m < 0x8000_0000_0000_0000 then m else m - 0x1_0000_0000_0000_0000
  }

  const U32 := 0x1_0000_0000

  /** Truncation to an unsigned 32-bit value. */
  function AsU32(n: int): nat {
    n % U32
  }

  function KeepKicked(row: Device, status: string): string {
    if row.status == KICKED then row.status else status
  }

  function SetRow(t: Tables, d: string, row: Device): Tables {
    t.(devices := t.devices[d := row])
  }

  // ---------------------------------------------------------------- when one statement keeps every reference resolved

  lemma SetRowClosed(t: Tables, d: string, row: Device)
    requires Closed(t)
    ensures Closed(SetRow(t, d, row))
            <==> row.roomId in t.rooms && (row.groupId.Some? ==> row.groupId.value in t.groups)
  {
    var s := SetRow(t, d, row);
    assert d in s.devices && s.devices[d] == row;
  }

  lemma SetGroupClosed(t: Tables, g: string, row: Group)
    requires Closed(t)
    ensures Closed(t.(groups := t.groups[g := row])) <==> row.roomId in t.rooms
  {
    var s := t.(groups := t.groups[g := row]);
    assert g in s.groups && s.groups[g] == row;
  }

  lemma DeletePushesClosed(t: Tables, gone: set<string>)
    requires Closed(t)
    ensures Closed(t.(pushes := t.pushes - gone))
  {
  }

  lemma DeleteEventsClosed(t: Tables, gone: set<string>)
    requires Closed(t)
    ensures Closed(t.(events := t.events - gone))
  {
  }

  lemma DeleteDevicesClosed(t: Tables, gone: set<string>)
    requires Closed(t)
    requires PushesOf(t, gone) == {} && EventsOf(t, gone) == {}
    ensures Closed(t.(devices := t.devices - gone))
  {
    forall k | k in t.pushes ensures t.pushes[k].deviceId !in gone { assert k !in PushesOf(t, gone); }
    forall k | k in t.events ensures t.events[k].deviceId !in gone { assert k !in EventsOf(t, gone); }
  }

  lemma DeleteGroupsClosed(t: Tables, gone: set<string>)
    requires Closed(t)
    ensures Closed(t.(groups := t.groups - gone))
            <==> forall d <- t.devices :: t.devices[d].groupId.Some? ==> t.devices[d].groupId.value !in gone
  {
    var s := t.(groups := t.groups - gone);
    assert s.devices == t.devices;
  }

  lemma DeleteRoomsClosed(t: Tables, room: string)
    requires Closed(t)
    requires DevicesOfRoom(t, room) == {} && GroupsOfRoom(t, room) == {}
    ensures Closed(t.(rooms := t.rooms - {room}))
  {
    forall k | k in t.devices ensures t.devices[k].roomId != room { assert k !in DevicesOfRoom(t, room); }
    forall k | k in t.groups ensures t.groups[k].roomId != room { assert k !in GroupsOfRoom(t, room); }
  }

  lemma DeleteUsersClosed(t: Tables, u: string)
    requires Closed(t)
    ensures Closed(t.(users := t.users - {u}))
            <==> (forall r <- t.rooms :: t.rooms[r].ownerId != u)
                 && (forall s <- t.sessions :: t.sessions[s].userId != u)
  {
    var s := t.(users := t.users - {u});
    assert s.rooms == t.rooms && s.sessions == t.sessions;
  }

  // ---------------------------------------------------------------- users and rooms

  function Register(t: Tables, id: string, username: string, password: string, now: int): Option<Tables> {
    if id in t.users || exists u <- t.users :: t.users[u].username == username then None
    else Some(t.(users := t.users[id := User(username, password, "user", now)]))
  }

  function DeleteAccount(t: Tables, id: string): Option<Tables> {
    if (exists r <- t.rooms :: t.rooms[r].ownerId == id) || (exists s <- t.sessions :: t.sessions[s].userId == id)
    then None
    else Some(t.(users := t.users - {id}))
  }

  function CreateRoom(t: Tables, id: string, owner: string, name: string, now: int): Option<Tables> {
    if id in t.rooms || owner !in t.users then None
    else Some(t.(rooms := t.rooms[id := Room(name, owner, now)]))
  }

  /** The tables without a room and everything below it. */
  function RoomRemoved(t: Tables, room: string): Tables {
    var gone := DevicesOfRoom(t, room);
    t.(pushes := t.pushes - PushesOf(t, gone), events := t.events - EventsOf(t, gone),
       devices := t.devices - gone, groups := t.groups - GroupsOfRoom(t, room), rooms := t.rooms - {room})
  }

  /** No device of another room uses a group of this room. */
  predicate RoomRemovable(t: Tables, room: string) {
    forall d <- t.devices ::
      t.devices[d].groupId.Some? && t.devices[d].groupId.value in GroupsOfRoom(t, room) ==> t.devices[d].roomId == room
  }

  function DeleteRoom(t: Tables, room: string): Option<Tables> {
    if RoomRemovable(t, room) then Some(RoomRemoved(t, room)) else None
  }

  /** The tables after each DELETE of `delete_room`. */
  function PushesGone(t: Tables, room: string): Tables {
    t.(pushes := t.pushes - PushesOf(t, DevicesOfRoom(t, room)))
  }

  function EventsGone(t: Tables, room: string): Tables {
    t.(events := t.events - EventsOf(t, DevicesOfRoom(t, room)))
  }

  function DevicesGone(t: Tables, room: string): Tables {
    t.(devices := t.devices - DevicesOfRoom(t, room))
  }

  function GroupsGone(t: Tables, room: string): Tables {
    t.(groups := t.groups - GroupsOfRoom(t, room))
  }

  function RoomGone(t: Tables, room: string): Tables {
    t.(rooms := t.rooms - {room})
  }

  /** The first three deletes never leave a dangling reference. */
  lemma DevicesOfRoomDeleted(t: Tables, room: string)
    requires Closed(t)
    ensures Closed(PushesGone(t, room))
    ensures Closed(EventsGone(PushesGone(t, room), room))
    ensures Closed(DevicesGone(EventsGone(PushesGone(t, room), room), room))
  {
    var t1 := PushesGone(t, room);
    var t2 := EventsGone(t1, room);
    DeletePushesClosed(t, PushesOf(t, DevicesOfRoom(t, room)));
    DeleteEventsClosed(t1, EventsOf(t1, DevicesOfRoom(t1, room)));
    DeleteDevicesClosed(t2, DevicesOfRoom(t2, room));
  }

  /** The fourth one dangles exactly when a device elsewhere uses a group of the room; the fifth never does. */
  lemma RoomDeleted(t: Tables, room: string)
    requires Closed(t)
    ensures var t3 := DevicesGone(EventsGone(PushesGone(t, room), room), room);
            && (Closed(GroupsGone(t3, room)) <==> RoomRemovable(t, room))
            && (RoomRemovable(t, room) ==> Closed(RoomGone(GroupsGone(t3, room), room)))
            && RoomGone(GroupsGone(t3, room), room) == RoomRemoved(t, room)
  {
    DevicesOfRoomDeleted(t, room);
    var t3 := DevicesGone(EventsGone(PushesGone(t, room), room), room);
    DeleteGroupsClosed(t3, GroupsOfRoom(t3, room));
    assert GroupsOfRoom(t3, room) == GroupsOfRoom(t, room);
    assert forall d <- t.devices :: t.devices[d].roomId != room ==> d in t3.devices;
    if RoomRemovable(t, room) {
      DeleteRoomsClosed(GroupsGone(t3, room), room);
    }
  }

  // ---------------------------------------------------------------- devices

  /** The answer to a client's hello; `status` is the status before the hello. */
  datatype HelloResult = Refused | Admitted(tables: Tables, id: string, newToken: Option<string>, status: string)

  function UpsertDeviceHello(
    t: Tables, room: string, id: Option<string>, token: Option<string>, name: string,
    version: Option<string>, ip: Option<string>, freshId: string, freshToken: string, now: int): HelloResult
  {
    if id.Some? && token.Some? then
      var d := id.value;
      if d !in t.devices || t.devices[d].roomId != room || t.devices[d].deviceToken != token.value then Refused
      else
        var row := t.devices[d];
        var next := row.(displayName := name, clientVersion := version.Or(row.clientVersion),
                         consolePublicIp := ip.Or(row.consolePublicIp), lastSeen := Some(now),
                         status := KeepKicked(row, ONLINE));
        Admitted(SetRow(t, d, next), d, None, row.status)
    else if room !in t.rooms || freshId in t.devices then Refused
    else
      var row := Device(room, None, name, version, ip, None, None, freshToken, Some(now), PENDING,
                        None, None, None, 0, Some(0), Some(0), None, now);
      Admitted(SetRow(t, freshId, row), freshId, Some(freshToken), PENDING)
  }

  function UpdateDevice(t: Tables, room: string, d: string, edit: DeviceEdit): Option<Tables> {
    if d !in t.devices || t.devices[d].roomId != room then None else
      var row := t.devices[d];
      var group := edit.groupId.Or(row.groupId);
      if group.Some? && group.value !in t.groups then None else
        Some(SetRow(t, d, row.(displayName := edit.displayName.GetOr(row.displayName), groupId := group,
                               networkIp := edit.networkIp.Or(row.networkIp),
                               networkNodeId := edit.networkNodeId.Or(row.networkNodeId))))
  }

  /** Pushes and events go by device id alone; the row goes only when it is in the given room. */
  function DeleteDevice(t: Tables, room: string, d: string): Tables {
    var gone := if d in t.devices && t.devices[d].roomId == room then {d} else {};
    t.(pushes := t.pushes - PushesOf(t, {d}), events := t.events - EventsOf(t, {d}), devices := t.devices - gone)
  }

  function RegenerateToken(t: Tables, room: string, d: string, token: string): Tables {
    if d in t.devices && t.devices[d].roomId == room then SetRow(t, d, t.devices[d].(deviceToken := token)) else t
  }

  function Kick(t: Tables, room: string, d: string): Option<Tables> {
    if d in t.devices && t.devices[d].roomId == room then Some(SetRow(t, d, t.devices[d].(status := KICKED))) else None
  }

  /** The updates of a device row that client messages and session ends make. */
  datatype RowEdit =
    | Recorded(version: int, now: int)
    | Seen(now: int)
    | WentOffline
    | Traffic(up: nat, down: nat, now: int)
    | Vnts(status: string, error: Option<string>, now: int)

  function Edited(row: Device, e: RowEdit): Device {
    match e
    case Recorded(version, now) =>
      row.(configVersion := version, lastSeen := Some(now), status := KeepKicked(row, ONLINE))
    case Seen(now) => row.(lastSeen := Some(now))
    case WentOffline => row.(status := KeepKicked(row, OFFLINE))
    case Traffic(up, down, now) =>
      row.(upStream := Some(AsI64(up)), downStream := Some(AsI64(down)), trafficUpdatedAt := Some(now),
           lastSeen := Some(now))
    case Vnts(status, error, now) =>
      row.(vntsStatus := Some(status), vntsError := error, vntsUpdatedAt := Some(now), lastSeen := Some(now))
  }

  function EditRow(t: Tables, d: string, e: RowEdit): Tables {
    if d in t.devices then SetRow(t, d, Edited(t.devices[d], e)) else t
  }

  lemma EditRowClosed(t: Tables, d: string, e: RowEdit)
    requires Closed(t)
    ensures Closed(EditRow(t, d, e))
  {
    if d in t.devices {
      SetRowClosed(t, d, Edited(t.devices[d], e));
    } else {
    }
  }

  function AddEvent(t: Tables, id: string, d: string, eventType: string, payload: string, now: int): Option<Tables> {
    if id in t.events || d !in t.devices then None
    else Some(t.(events := t.events[id := Event(d, eventType, Some(payload), now)]))
  }

  // ---------------------------------------------------------------- groups

  function Max(a: int, b: int): int { if a < b then b else a }

  function CreateGroup(env: Env, t: Tables, room: string, id: string, name: string, config: ClientConfig,
                       version: int, nonces: Nonces, now: int): Option<Tables>
  {
    if id in t.groups || room !in t.rooms then None
    else Some(t.(groups := t.groups[id := Group(room, name, SealConfig(env, id, config, nonces), Max(version, 1), now,
                                                now)]))
  }

  function UpdateGroup(env: Env, t: Tables, room: string, g: string, name: Option<string>,
                       config: Option<ClientConfig>, nonces: Nonces, now: int): Option<Tables>
  {
    if g !in t.groups || t.groups[g].roomId != room || ReadConfig(env, g, t.groups[g].sealed).Unreadable? then None else
      var row := t.groups[g];
      Some(t.(groups := t.groups[g := row.(name := name.GetOr(row.name), configVersion := row.configVersion + 1,
                                           updatedAt := now,
                                           sealed := ResealConfig(env, g, row.sealed, config, nonces))]))
  }

  /** The configuration that an update hands back to its caller. */
  function ReturnedConfig(env: Env, t: Tables, g: string, config: Option<ClientConfig>): Option<ClientConfig>
    requires g in t.groups
  {
    config.Or(ReadConfig(env, g, t.groups[g].sealed).ToOption())
  }

  /** It is the configuration the next listing reads, given or kept, and the version grows by one. */
  lemma UpdateReadsBack(env: Env, t: Tables, room: string, g: string, name: Option<string>,
                        config: Option<ClientConfig>, nonces: Nonces, now: int)
    requires CipherLaws(env) && GoodNonces(nonces) && (config.Some? ==> Survives(env, config.value))
    requires UpdateGroup(env, t, room, g, name, config, nonces, now).Some?
    ensures var s := UpdateGroup(env, t, room, g, name, config, nonces, now).value;
            && g in s.groups && s.groups[g].configVersion == t.groups[g].configVersion + 1
            && !ReadConfig(env, g, s.groups[g].sealed).Unreadable?
            && ReturnedConfig(env, t, g, config) == ReadConfig(env, g, s.groups[g].sealed).ToOption()
            && (config.Some? ==> ReadConfig(env, g, s.groups[g].sealed) == Readable(config.value))
            && (config.None? ==> ReadConfig(env, g, s.groups[g].sealed) == ReadConfig(env, g, t.groups[g].sealed))
  {
    ReadAfterReseal(env, g, t.groups[g].sealed, config, nonces);
  }

  /** The group is in the room and a device of another room uses it. */
  predicate GroupHeldElsewhere(t: Tables, room: string, g: string) {
    && g in t.groups && t.groups[g].roomId == room
    && exists d <- t.devices :: t.devices[d].groupId == Some(g) && t.devices[d].roomId != room
  }

  function Detached(t: Tables, room: string, g: string): Tables {
    t.(devices := map d | d in t.devices ::
                    if t.devices[d].roomId == room && t.devices[d].groupId == Some(g)
                    then t.devices[d].(groupId := None) else t.devices[d])
  }

  function DeleteGroup(t: Tables, room: string, g: string): Option<Tables> {
    if GroupHeldElsewhere(t, room, g) then None else
      var gone := if g in t.groups && t.groups[g].roomId == room then {g} else {};
      Some(Detached(t, room, g).(groups := t.groups - gone))
  }

  lemma DetachedClosed(t: Tables, room: string, g: string)
    requires Closed(t)
    ensures Closed(Detached(t, room, g))
  {
  }

  /** Deleting the group after detaching its members dangles exactly when a device of another room uses it. */
  lemma GroupDeleted(t: Tables, room: string, g: string)
    requires Closed(t) && g in t.groups && t.groups[g].roomId == room
    ensures Closed(Detached(t, room, g).(groups := t.groups - {g})) <==> !GroupHeldElsewhere(t, room, g)
  {
    DetachedClosed(t, room, g);
    var s := Detached(t, room, g);
    DeleteGroupsClosed(s, {g});
    hide Closed;
    forall d | d in t.devices
      ensures s.devices[d].groupId == Some(g) <==> t.devices[d].groupId == Some(g) && t.devices[d].roomId != room
    {
    }
  }

  /** The tables after each DELETE of `delete_device`. */
  function DevicePushesGone(t: Tables, d: string): Tables {
    t.(pushes := t.pushes - PushesOf(t, {d}))
  }

  function DeviceEventsGone(t: Tables, d: string): Tables {
    t.(events := t.events - EventsOf(t, {d}))
  }

  lemma DeviceDeleteSteps(t: Tables, d: string)
    requires Closed(t)
    ensures var t1 := DevicePushesGone(t, d);
            var t2 := DeviceEventsGone(t1, d);
            Closed(t1) && Closed(t2) && Closed(t2.(devices := t2.devices - {d}))
  {
    var t1 := DevicePushesGone(t, d);
    var t2 := DeviceEventsGone(t1, d);
    DeletePushesClosed(t, PushesOf(t, {d}));
    DeleteEventsClosed(t1, EventsOf(t1, {d}));
    assert PushesOf(t2, {d}) == {} && EventsOf(t2, {d}) == {};
    DeleteDevicesClosed(t2, {d});
  }

  lemma DeviceDeleted(t: Tables, room: string, d: string)
    requires Closed(t)
    ensures Closed(DeleteDevice(t, room, d))
  {
    DeviceDeleteSteps(t, d);
    hide Closed;
    var t2 := DeviceEventsGone(DevicePushesGone(t, d), d);
    if d !in t.devices || t.devices[d].roomId != room {
      assert t.devices - {} == t.devices;
      assert DeleteDevice(t, room, d) == t2;
    } else {
      assert DeleteDevice(t, room, d) == t2.(devices := t2.devices - {d});
    }
  }

  function SetDeviceGroup(t: Tables, room: string, g: Option<string>, d: string): Option<Tables> {
    if g.Some? && (g.value !in t.groups || t.groups[g.value].roomId != room) then None
    else if d !in t.devices || t.devices[d].roomId != room then None
    else Some(SetRow(t, d, t.devices[d].(groupId := g)))
  }

  // ---------------------------------------------------------------- the configuration of a device

  /** What a device should run: no such device, a failure, or its group, version and configuration. */
  datatype Effective = NoDevice | Failure | Effective(groupId: Option<string>, version: int, config: ClientConfig)

  /** The stored configuration with the device's own fields laid over it. */
  function Overlay(d: string, row: Device, c: ClientConfig): ClientConfig {
    c.(deviceId := row.networkNodeId.GetOr(d), name := row.displayName, ip := row.networkIp.Or(c.ip))
  }

  function DeviceConfig(env: Env, t: Tables, d: string, override: Option<string>): Effective {
    if d !in t.devices then NoDevice else
      var row := t.devices[d];
      var group := override.Or(row.groupId);
      if override.Some? && override.value !in t.groups then Failure
      else if group.None? then Effective(None, row.configVersion + 1, Overlay(d, row, DEFAULT_CONFIG))
      else if group.value !in t.groups then Effective(group, row.configVersion + 1, Overlay(d, row, DEFAULT_CONFIG))
      else
        var g := t.groups[group.value];
        match ReadConfig(env, group.value, g.sealed)
        case Unreadable => Failure
        case Absent => Effective(group, g.configVersion, Overlay(d, row, DEFAULT_CONFIG))
        case Readable(c) => Effective(group, g.configVersion, Overlay(d, row, c))
  }
}
