/** What the database operations mean for their callers: when each succeeds, what it changes and what it leaves. */
module Operations {
  import opened Wrappers
  import opened Models
  import opened Crypto
  import opened GroupConfig
  import opened Schema
  import opened Effects

  /** Of all rows of all tables, only the device's own may differ. */
  ghost predicate OnlyDevice(t: Tables, s: Tables, d: string) {
    && s == t.(devices := s.devices) && s.devices.Keys == t.devices.Keys
    && forall e <- t.devices :: e != d ==> s.devices[e] == t.devices[e]
  }

  /** Of all rows of all tables, only the group's own may differ. */
  ghost predicate OnlyGroup(t: Tables, s: Tables, g: string) {
    && s == t.(groups := s.groups) && s.groups.Keys == t.groups.Keys
    && forall x <- t.groups :: x != g ==> s.groups[x] == t.groups[x]
  }

  // ---------------------------------------------------------------- hellos

  /** The id names a device of the room and the token is the one on record. */
  predicate Authentic(t: Tables, room: string, d: string, token: string) {
    d in t.devices && t.devices[d].roomId == room && t.devices[d].deviceToken == token
  }

  /**
   * A hello with id and token is admitted exactly when they are those of a device of the room. It is then told its
   * status as it was and gets no new token; its row is refreshed, and its group, version, token and kick are kept.
   */
  lemma HelloAuthenticates(t: Tables, room: string, d: string, token: string, name: string, version: Option<string>,
                           ip: Option<string>, freshId: string, freshToken: string, now: int)
    ensures var r := UpsertDeviceHello(t, room, Some(d), Some(token), name, version, ip, freshId, freshToken, now);
            && (r.Admitted? <==> Authentic(t, room, d, token))
            && (r.Admitted? ==>
                  && r.id == d && r.newToken.None? && r.status == t.devices[d].status && OnlyDevice(t, r.tables, d)
                  && var row, next := t.devices[d], r.tables.devices[d];
                     && next.displayName == name && next.lastSeen == Some(now)
                     && next.clientVersion == (if version.Some? then version else row.clientVersion)
                     && next.consolePublicIp == (if ip.Some? then ip else row.consolePublicIp)
                     && next.status == (if row.status == "kicked" then "kicked" else "online")
                     && next.(displayName := row.displayName, clientVersion := row.clientVersion, status := row.status,
                              consolePublicIp := row.consolePublicIp, lastSeen := row.lastSeen) == row)
  {
  }

  /** A hello without id or token is admitted exactly when its room exists, and becomes a new pending device of it. */
  lemma HelloEnrols(t: Tables, room: string, id: Option<string>, token: Option<string>, name: string,
                    version: Option<string>, ip: Option<string>, freshId: string, freshToken: string, now: int)
    requires (id.None? || token.None?) && freshId !in t.devices
    ensures var r := UpsertDeviceHello(t, room, id, token, name, version, ip, freshId, freshToken, now);
            && (r.Admitted? <==> room in t.rooms)
            && (r.Admitted? ==>
                  && r.id == freshId && r.newToken == Some(freshToken) && r.status == "pending"
                  && r.tables.(devices := r.tables.devices - {freshId}) == t && freshId in r.tables.devices
                  && var row := r.tables.devices[freshId];
                     && row.roomId == room && row.groupId.None? && row.deviceToken == freshToken
                     && row.status == "pending" && row.configVersion == 0 && row.displayName == name
                     && row.clientVersion == version && row.consolePublicIp == ip
                     && row.createdAt == now && row.lastSeen == Some(now)
                     && row.networkIp.None? && row.networkNodeId.None? && row.trafficUpdatedAt.None?
                     && row.upStream == row.downStream == Some(0)
                     && row.vntsStatus.None? && row.vntsError.None? && row.vntsUpdatedAt.None?)
  {
    var r := UpsertDeviceHello(t, room, id, token, name, version, ip, freshId, freshToken, now);
    if r.Admitted? {
      assert r.tables.devices - {freshId} == t.devices;
    }
  }

  /** What a hello hands out is what the next hello has to show, in the same room and with no other token. */
  lemma EnrolledReturns(t: Tables, room: string, name: string, version: Option<string>, ip: Option<string>,
                        freshId: string, freshToken: string, now: int, elsewhere: string, shown: string)
    requires room in t.rooms && freshId !in t.devices
    ensures var r := UpsertDeviceHello(t, room, None, None, name, version, ip, freshId, freshToken, now);
            && r.Admitted? && r.newToken.Some?
            && (Authentic(r.tables, elsewhere, r.id, shown) <==> elsewhere == room && shown == r.newToken.value)
  {
    HelloEnrols(t, room, None, None, name, version, ip, freshId, freshToken, now);
    hide UpsertDeviceHello;
  }

  // ---------------------------------------------------------------- device rows

  /**
   * Deleting a device of the room removes its row, its pushes and its events and nothing else. Under another room's id
   * the row stays, but the pushes and events go by device id alone.
   */
  lemma DeviceDeletion(t: Tables, room: string, d: string)
    ensures var s := DeleteDevice(t, room, d);
            && s == t.(devices := s.devices, pushes := s.pushes, events := s.events)
            && (d in s.devices <==> d in t.devices && t.devices[d].roomId != room)
            && (forall e :: e != d ==> (e in s.devices <==> e in t.devices))
            && (forall e <- s.devices :: s.devices[e] == t.devices[e])
            && (forall p :: p in s.pushes <==> p in t.pushes && t.pushes[p].deviceId != d)
            && (forall p <- s.pushes :: s.pushes[p] == t.pushes[p])
            && (forall x :: x in s.events <==> x in t.events && t.events[x].deviceId != d)
            && (forall x <- s.events :: s.events[x] == t.events[x])
  {
  }

  /** The token is replaced, and nothing else, exactly when the device is of the room. */
  lemma TokenReplaced(t: Tables, room: string, d: string, token: string)
    ensures var s := RegenerateToken(t, room, d, token);
            && (d in t.devices && t.devices[d].roomId == room ==>
                  && OnlyDevice(t, s, d) && s.devices[d].deviceToken == token
                  && s.devices[d].(deviceToken := t.devices[d].deviceToken) == t.devices[d])
            && (d !in t.devices || t.devices[d].roomId != room ==> s == t)
  {
    if d in t.devices && t.devices[d].roomId == room {
      assert RegenerateToken(t, room, d, token) == SetRow(t, d, t.devices[d].(deviceToken := token));
    } else {
    }
  }

  /** A kick finds exactly the devices of the room and writes the status alone. */
  lemma KickMarks(t: Tables, room: string, d: string)
    ensures var s := Kick(t, room, d);
            && (s.Some? <==> d in t.devices && t.devices[d].roomId == room)
            && (s.Some? ==>
                  && OnlyDevice(t, s.value, d) && s.value.devices[d].status == "kicked"
                  && s.value.devices[d].(status := t.devices[d].status) == t.devices[d])
  {
  }

  /** An edit finds exactly the devices of the room, is refused for a missing group, and writes what was given. */
  lemma DeviceEdited(t: Tables, room: string, d: string, edit: DeviceEdit)
    requires Closed(t)
    ensures var s := UpdateDevice(t, room, d, edit);
            && (s.Some? <==> d in t.devices && t.devices[d].roomId == room
                             && (edit.groupId.Some? ==> edit.groupId.value in t.groups))
            && (s.Some? ==>
                  && OnlyDevice(t, s.value, d)
                  && var row, next := t.devices[d], s.value.devices[d];
                     && next.displayName == (if edit.displayName.Some? then edit.displayName.value else row.displayName)
                     && next.groupId == (if edit.groupId.Some? then edit.groupId else row.groupId)
                     && next.networkIp == (if edit.networkIp.Some? then edit.networkIp else row.networkIp)
                     && next.networkNodeId
                        == (if edit.networkNodeId.Some? then edit.networkNodeId else row.networkNodeId)
                     && next.(displayName := row.displayName, groupId := row.groupId, networkIp := row.networkIp,
                              networkNodeId := row.networkNodeId) == row)
  {
  }

  /** A device is put into a group, or out of its own, exactly when both are of the room. */
  lemma GroupAssigned(t: Tables, room: string, g: Option<string>, d: string)
    ensures var s := SetDeviceGroup(t, room, g, d);
            && (s.Some? <==> d in t.devices && t.devices[d].roomId == room
                             && (g.Some? ==> g.value in t.groups && t.groups[g.value].roomId == room))
            && (s.Some? ==>
                  && OnlyDevice(t, s.value, d) && s.value.devices[d].groupId == g
                  && s.value.devices[d].(groupId := t.devices[d].groupId) == t.devices[d])
  {
  }

  /** What a message or a session's end writes into the device's row: these columns, and no row but that one. */
  lemma RowEdited(t: Tables, d: string, version: int, up: nat, down: nat, status: string, error: Option<string>,
                  now: int)
    requires d in t.devices
    ensures var row := t.devices[d];
            var kept := row.status == "kicked";
            && EditRow(t, d, Recorded(version, now))
               == t.(devices := t.devices[d := row.(configVersion := version, lastSeen := Some(now),
                                                    status := if kept then "kicked" else "online")])
            && EditRow(t, d, Seen(now)) == t.(devices := t.devices[d := row.(lastSeen := Some(now))])
            && EditRow(t, d, WentOffline)
               == t.(devices := t.devices[d := row.(status := if kept then "kicked" else "offline")])
            && EditRow(t, d, Vnts(status, error, now))
               == t.(devices := t.devices[d := row.(vntsStatus := Some(status), vntsError := error,
                                                    vntsUpdatedAt := Some(now), lastSeen := Some(now))])
            && var next := EditRow(t, d, Traffic(up, down, now));
               && OnlyDevice(t, next, d) && next.devices[d].upStream.Some? && next.devices[d].downStream.Some?
               && next.devices[d].(upStream := row.upStream, downStream := row.downStream,
                                   trafficUpdatedAt := row.trafficUpdatedAt, lastSeen := row.lastSeen) == row
               && next.devices[d].lastSeen == next.devices[d].trafficUpdatedAt == Some(now)
               && Reinterprets(up, next.devices[d].upStream.value)
               && Reinterprets(down, next.devices[d].downStream.value)
  {
    CounterCast(up);
    CounterCast(down);
    hide AsI64;
  }

  /** `i` is `n` in 64 bits of two's complement. */
  predicate Reinterprets(n: nat, i: int) {
    -0x8000_0000_0000_0000 <= i < 0x8000_0000_0000_0000 && (i - n) % 0x1_0000_0000_0000_0000 == 0
  }

  lemma CounterCast(n: nat)
    ensures Reinterprets(n, AsI64(n))
  {
  }

  /** An event is added exactly when its id is unused and its device is there. */
  lemma EventAdded(t: Tables, id: string, d: string, eventType: string, payload: string, now: int)
    ensures var s := AddEvent(t, id, d, eventType, payload, now);
            && (s.Some? <==> id !in t.events && d in t.devices)
            && (s.Some? ==>
                  && s.value.(events := s.value.events - {id}) == t && id in s.value.events
                  && s.value.events[id] == Event(d, eventType, Some(payload), now))
  {
    var s := AddEvent(t, id, d, eventType, payload, now);
    if s.Some? {
      assert s.value.events - {id} == t.events;
    }
  }

  // ---------------------------------------------------------------- users and rooms

  /** A registration is refused exactly when it would break a key or the uniqueness of names. */
  lemma Registered(t: Tables, id: string, username: string, password: string, now: int)
    requires UniqueNames(t)
    ensures var s := Register(t, id, username, password, now);
            var grown := t.(users := t.users[id := User(username, password, "user", now)]);
            && (s.Some? <==> id !in t.users && UniqueNames(grown))
            && (s.Some? ==> s.value == grown)
  {
    var grown := t.(users := t.users[id := User(username, password, "user", now)]);
    if id !in t.users && UniqueNames(grown) {
      forall u | u in t.users ensures t.users[u].username != username {
        assert grown.users[u].username == grown.users[id].username ==> u == id;
      }
    }
  }

  /** An account or a room is created or deleted exactly when every reference still resolves afterwards. */
  lemma RoomCreated(t: Tables, id: string, owner: string, name: string, now: int)
    requires Closed(t) && id !in t.rooms
    ensures var grown := t.(rooms := t.rooms[id := Room(name, owner, now)]);
            && (CreateRoom(t, id, owner, name, now).Some? <==> Closed(grown))
            && (Closed(grown) ==> CreateRoom(t, id, owner, name, now) == Some(grown))
  {
    var grown := t.(rooms := t.rooms[id := Room(name, owner, now)]);
    assert id in grown.rooms && grown.rooms[id].ownerId == owner;
  }

  lemma AccountDeleted(t: Tables, id: string)
    requires Closed(t)
    ensures var less := t.(users := t.users - {id});
            && (DeleteAccount(t, id).Some? <==> Closed(less))
            && (Closed(less) ==> DeleteAccount(t, id) == Some(less))
  {
    DeleteUsersClosed(t, id);
  }

  /**
   * A room is deleted exactly when no device of another room uses one of its groups. Then the room is gone with its
   * groups, its devices and their pushes and events, and every other row of every table is as it was.
   */
  lemma RoomDeletion(t: Tables, room: string)
    ensures var s := DeleteRoom(t, room);
            && (s.Some? <==>
                  forall d <- t.devices, g <- t.groups ::
                    t.devices[d].groupId == Some(g) && t.groups[g].roomId == room ==> t.devices[d].roomId == room)
            && (s.Some? ==> WithoutRoom(t, s.value, room))
  {
    hide RoomRemoved;
    if DeleteRoom(t, room).Some? { RemovedIsWithout(t, room); }
  }

  ghost predicate WithoutRoom(t: Tables, s: Tables, room: string) {
    && s.users == t.users && s.sessions == t.sessions && s.settings == t.settings
    && (forall r :: r in s.rooms <==> r in t.rooms && r != room)
    && (forall r <- s.rooms :: s.rooms[r] == t.rooms[r])
    && (forall g :: g in s.groups <==> g in t.groups && t.groups[g].roomId != room)
    && (forall g <- s.groups :: s.groups[g] == t.groups[g])
    && (forall d :: d in s.devices <==> d in t.devices && t.devices[d].roomId != room)
    && (forall d <- s.devices :: s.devices[d] == t.devices[d])
    && (forall p :: p in s.pushes <==> p in t.pushes && !InRoom(t, t.pushes[p].deviceId, room))
    && (forall p <- s.pushes :: s.pushes[p] == t.pushes[p])
    && (forall x :: x in s.events <==> x in t.events && !InRoom(t, t.events[x].deviceId, room))
    && (forall x <- s.events :: s.events[x] == t.events[x])
  }

  predicate InRoom(t: Tables, d: string, room: string) {
    d in t.devices && t.devices[d].roomId == room
  }

  lemma RemovedIsWithout(t: Tables, room: string)
    ensures WithoutRoom(t, RoomRemoved(t, room), room)
  {
  }

  // ---------------------------------------------------------------- groups

  /** A group is created exactly when its id is unused and its room exists, at the given version but at least 1. */
  lemma GroupCreated(env: Env, t: Tables, room: string, id: string, name: string, config: ClientConfig, version: int,
                     nonces: Nonces, now: int)
    ensures var s := CreateGroup(env, t, room, id, name, config, version, nonces, now);
            && (s.Some? <==> id !in t.groups && room in t.rooms)
            && (s.Some? ==>
                  && s.value.(groups := s.value.groups - {id}) == t && id in s.value.groups
                  && var row := s.value.groups[id];
                     && row.roomId == room && row.name == name && row.createdAt == row.updatedAt == now
                     && row.configVersion >= version && row.configVersion >= 1
                     && (row.configVersion == version || row.configVersion == 1))
  {
    hide SealConfig;
    var s := CreateGroup(env, t, room, id, name, config, version, nonces, now);
    if s.Some? {
      assert s.value.groups - {id} == t.groups;
    }
  }

  /**
   * An update succeeds exactly when the group is of the room and its columns can be read. It writes that one row: the
   * next version, the time, the name when one is given, the configuration when one is given, and nothing else of it.
   */
  lemma GroupUpdated(env: Env, t: Tables, room: string, g: string, name: Option<string>, config: Option<ClientConfig>,
                     nonces: Nonces, now: int)
    ensures var s := UpdateGroup(env, t, room, g, name, config, nonces, now);
            && (s.Some? <==> g in t.groups && t.groups[g].roomId == room
                             && !ReadConfig(env, g, t.groups[g].sealed).Unreadable?)
            && (s.Some? ==>
                  && OnlyGroup(t, s.value, g)
                  && var row, next := t.groups[g], s.value.groups[g];
                     && next.roomId == room && next.createdAt == row.createdAt && next.updatedAt == now
                     && next.configVersion == row.configVersion + 1
                     && next.name == (if name.Some? then name.value else row.name)
                     && (config.None? ==> next.sealed == row.sealed))
  {
    hide ReadConfig, SealConfig;
  }

  /**
   * A group of the room is deleted exactly when no device of another room uses it. Then the group is gone, the room's
   * members are in no group, and nothing else changes; a group of another room stays, as do its members elsewhere.
   */
  lemma GroupDeletion(t: Tables, room: string, g: string)
    ensures var s := DeleteGroup(t, room, g);
            && (s.Some? <==>
                  (g in t.groups && t.groups[g].roomId == room ==>
                     forall d <- t.devices :: t.devices[d].groupId == Some(g) ==> t.devices[d].roomId == room))
            && (s.Some? ==>
                  && s.value == t.(groups := s.value.groups, devices := s.value.devices)
                  && (forall x ::
                        x in s.value.groups <==> x in t.groups && (x == g ==> t.groups[g].roomId != room))
                  && (forall x <- s.value.groups :: s.value.groups[x] == t.groups[x])
                  && s.value.devices.Keys == t.devices.Keys
                  && forall d <- t.devices ::
                       s.value.devices[d]
                       == if t.devices[d].roomId == room && t.devices[d].groupId == Some(g)
                          then t.devices[d].(groupId := None) else t.devices[d])
  {
  }

  // ---------------------------------------------------------------- the configuration of a device

  /** A group whose columns hold no configuration gives its members the defaults at its own version. */
  lemma EmptyGroupRunsDefaults(env: Env, t: Tables, d: string, g: string)
    requires d in t.devices && t.devices[d].groupId == Some(g) && g in t.groups && t.groups[g].sealed.extra.None?
    ensures var e := DeviceConfig(env, t, d, None);
            && e.Effective? && e.groupId == Some(g) && e.version == t.groups[g].configVersion
            && e.config.serverAddress == "vnt.wherewego.top:29872" && e.config.token == ""
            && e.config.password.None? && e.config.settings == DEFAULT_SETTINGS
            && e.config.name == t.devices[d].displayName && e.config.ip == t.devices[d].networkIp
  {
  }

  /** There is no configuration for a device that is not there, under a group that is not, or that cannot be read. */
  lemma NoConfiguration(env: Env, t: Tables, d: string, override: Option<string>)
    requires Closed(t)
    ensures var e := DeviceConfig(env, t, d, override);
            && (e.NoDevice? <==> d !in t.devices)
            && (e.Failure? <==>
                  d in t.devices
                  && var g := if override.Some? then override else t.devices[d].groupId;
                     g.Some? && (g.value in t.groups ==>
                                   ReadConfig(env, g.value, t.groups[g.value].sealed).Unreadable?))
  {
    hide ReadConfig, Overlay;
  }

  /** A device in no group runs the defaults under its own name, at the version after the one on record. */
  lemma UngroupedRunsDefaults(env: Env, t: Tables, d: string)
    requires d in t.devices && t.devices[d].groupId.None?
    ensures var e := DeviceConfig(env, t, d, None);
            && e.Effective? && e.groupId.None? && e.version == t.devices[d].configVersion + 1
            && e.config.serverAddress == "vnt.wherewego.top:29872" && e.config.token == ""
            && e.config.password.None? && e.config.settings == DEFAULT_SETTINGS
            && e.config.name == t.devices[d].displayName && e.config.ip == t.devices[d].networkIp
            && e.config.deviceId == (if t.devices[d].networkNodeId.Some? then t.devices[d].networkNodeId.value else d)
  {
  }
}
