/** The tables of the database and the constraints its schema declares. */
module Schema {
  import opened Wrappers
  import opened GroupConfig

  /** Row types; the primary key of a row is its key in the table's map. */
  datatype User = User(username: string, password: string, role: string, createdAt: int)

  datatype Room = Room(name: string, ownerId: string, createdAt: int)

  datatype Group = Group(
    roomId: string, name: string, sealed: SealedConfig, configVersion: int, createdAt: int, updatedAt: int)

  datatype Device = Device(
    roomId: string, groupId: Option<string>, displayName: string, clientVersion: Option<string>,
    consolePublicIp: Option<string>, networkIp: Option<string>, networkNodeId: Option<string>,
    deviceToken: string, lastSeen: Option<int>, status: string, vntsStatus: Option<string>,
    vntsError: Option<string>, vntsUpdatedAt: Option<int>, configVersion: int, upStream: Option<int>,
    downStream: Option<int>, trafficUpdatedAt: Option<int>, createdAt: int)

  datatype Event = Event(deviceId: string, eventType: string, payload: Option<string>, createdAt: int)

  datatype Push = Push(
    deviceId: string, groupId: Option<string>, configSnapshot: string, pushedAt: int, acked: int)

  datatype WebSession = WebSession(userId: string, createdAt: int, expiresAt: int)

  datatype Setting = Setting(value: string, updatedAt: int)

  datatype Tables = Tables(
    users: map<string, User>, rooms: map<string, Room>, groups: map<string, Group>,
    devices: map<string, Device>, events: map<string, Event>, pushes: map<string, Push>,
    sessions: map<string, WebSession>, settings: map<string, Setting>)

  const EMPTY := Tables(map[], map[], map[], map[], map[], map[], map[], map[])

  const KICKED := "kicked"
  const ONLINE := "online"
  const OFFLINE := "offline"
  const PENDING := "pending"

  /** Every FOREIGN KEY of the schema resolves. */
  predicate Closed(t: Tables) {
    && (forall k <- t.rooms :: t.rooms[k].ownerId in t.users)
    && (forall k <- t.groups :: t.groups[k].roomId in t.rooms)
    && (forall k <- t.devices :: t.devices[k].roomId in t.rooms)
    && (forall k <- t.devices :: t.devices[k].groupId.Some? ==> t.devices[k].groupId.value in t.groups)
    && (forall k <- t.events :: t.events[k].deviceId in t.devices)
    && (forall k <- t.pushes :: t.pushes[k].deviceId in t.devices)
    && (forall k <- t.sessions :: t.sessions[k].userId in t.users)
  }

  /** The UNIQUE constraint on usernames. */
  predicate UniqueNames(t: Tables) {
    forall a <- t.users, b <- t.users :: t.users[a].username == t.users[b].username ==> a == b
  }

  /** A device's group, when it has one, is a group of the device's own room. */
  ghost predicate GroupInRoom(t: Tables, d: string)
    requires d in t.devices
  {
    var row := t.devices[d];
    row.groupId.Some? ==> row.groupId.value in t.groups && t.groups[row.groupId.value].roomId == row.roomId
  }

  ghost predicate SameRoom(t: Tables) {
    forall d <- t.devices :: GroupInRoom(t, d)
  }

  function DevicesOfRoom(t: Tables, room: string): set<string> {
    set d | d in t.devices && t.devices[d].roomId == room
  }

  function GroupsOfRoom(t: Tables, room: string): set<string> {
    set g | g in t.groups && t.groups[g].roomId == room
  }

  function EventsOf(t: Tables, devices: set<string>): set<string> {
    set e | e in t.events && t.events[e].deviceId in devices
  }

  function PushesOf(t: Tables, devices: set<string>): set<string> {
    set p | p in t.pushes && t.pushes[p].deviceId in devices
  }
}
