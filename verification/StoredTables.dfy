/** The tables of the console as rows of the database, so that what holds of backups holds of every run. */
module StoredTables {
  import opened Wrappers
  import opened Schema
  import R = Rows
  import opened Imports
  import opened RoundTrip
  import opened Ownership

  function TextOr(o: Option<string>): R.Cell {
    if o.Some? then R.Text(o.value) else R.Null
  }

  function IntegerOr(o: Option<int>): R.Cell {
    if o.Some? then R.Integer(o.value) else R.Null
  }

  function UserCell(k: string, u: User, c: R.Column): R.Cell {
    match c
    case Id => R.Text(k)
    case Username => R.Text(u.username)
    case Password => R.Text(u.password)
    case Role => R.Text(u.role)
    case CreatedAt => R.Integer(u.createdAt)
    case _ => R.Null
  }

  function StoredUser(k: string, u: User): R.Row {
    map c | c in R.ColumnsOf(R.Users) :: UserCell(k, u, c)
  }

  function RoomCell(k: string, r: Room, c: R.Column): R.Cell {
    match c
    case Id => R.Text(k)
    case Name => R.Text(r.name)
    case OwnerId => R.Text(r.ownerId)
    case CreatedAt => R.Integer(r.createdAt)
    case _ => R.Null
  }

  function StoredRoom(k: string, r: Room): R.Row {
    map c | c in R.ColumnsOf(R.Rooms) :: RoomCell(k, r, c)
  }

  function GroupCell(k: string, g: Group, c: R.Column): R.Cell {
    match c
    case Id => R.Text(k)
    case RoomId => R.Text(g.roomId)
    case Name => R.Text(g.name)
    case EncryptedToken => TextOr(g.sealed.token)
    case EncryptedServer => TextOr(g.sealed.server)
    case EncryptedPassword => TextOr(g.sealed.password)
    case ExtraConfig => TextOr(g.sealed.extra)
    case ConfigVersion => R.Integer(g.configVersion)
    case CreatedAt => R.Integer(g.createdAt)
    case UpdatedAt => R.Integer(g.updatedAt)
    case _ => R.Null
  }

  function StoredGroup(k: string, g: Group): R.Row {
    map c | c in R.ColumnsOf(R.Groups) :: GroupCell(k, g, c)
  }

  function DeviceCell(k: string, d: Device, c: R.Column): R.Cell {
    match c
    case Id => R.Text(k)
    case RoomId => R.Text(d.roomId)
    case GroupId => TextOr(d.groupId)
    case DisplayName => R.Text(d.displayName)
    case ClientVersion => TextOr(d.clientVersion)
    case ConsolePublicIp => TextOr(d.consolePublicIp)
    case NetworkIp => TextOr(d.networkIp)
    case NetworkNodeId => TextOr(d.networkNodeId)
    case DeviceToken => R.Text(d.deviceToken)
    case LastSeen => IntegerOr(d.lastSeen)
    case Status => R.Text(d.status)
    case VntsStatus => TextOr(d.vntsStatus)
    case VntsError => TextOr(d.vntsError)
    case VntsUpdatedAt => IntegerOr(d.vntsUpdatedAt)
    case ConfigVersion => R.Integer(d.configVersion)
    case UpStream => IntegerOr(d.upStream)
    case DownStream => IntegerOr(d.downStream)
    case TrafficUpdatedAt => IntegerOr(d.trafficUpdatedAt)
    case CreatedAt => R.Integer(d.createdAt)
    case _ => R.Null
  }

  function StoredDevice(k: string, d: Device): R.Row {
    map c | c in R.ColumnsOf(R.Devices) :: DeviceCell(k, d, c)
  }

  function EventCell(k: string, e: Event, c: R.Column): R.Cell {
    match c
    case Id => R.Text(k)
    case DeviceId => R.Text(e.deviceId)
    case EventType => R.Text(e.eventType)
    case Payload => TextOr(e.payload)
    case CreatedAt => R.Integer(e.createdAt)
    case _ => R.Null
  }

  function StoredEvent(k: string, e: Event): R.Row {
    map c | c in R.ColumnsOf(R.Events) :: EventCell(k, e, c)
  }

  function PushCell(k: string, p: Push, c: R.Column): R.Cell {
    match c
    case Id => R.Text(k)
    case DeviceId => R.Text(p.deviceId)
    case GroupId => TextOr(p.groupId)
    case ConfigSnapshot => R.Text(p.configSnapshot)
    case PushedAt => R.Integer(p.pushedAt)
    case Acked => R.Integer(p.acked)
    case _ => R.Null
  }

  function StoredPush(k: string, p: Push): R.Row {
    map c | c in R.ColumnsOf(R.ConfigPushes) :: PushCell(k, p, c)
  }

  function SessionCell(k: string, s: WebSession, c: R.Column): R.Cell {
    match c
    case Token => R.Text(k)
    case UserId => R.Text(s.userId)
    case CreatedAt => R.Integer(s.createdAt)
    case ExpiresAt => R.Integer(s.expiresAt)
    case _ => R.Null
  }

  function StoredSession(k: string, s: WebSession): R.Row {
    map c | c in R.ColumnsOf(R.Sessions) :: SessionCell(k, s, c)
  }

  function SettingCell(k: string, v: Setting, c: R.Column): R.Cell {
    match c
    case Key => R.Text(k)
    case Value => R.Text(v.value)
    case UpdatedAt => R.Integer(v.updatedAt)
    case _ => R.Null
  }

  function StoredSetting(k: string, v: Setting): R.Row {
    map c | c in R.ColumnsOf(R.SystemConfig) :: SettingCell(k, v, c)
  }

  function StoreOf(t: Tables): R.Store {
    R.Store(map k | k in t.users :: StoredUser(k, t.users[k]),
            map k | k in t.rooms :: StoredRoom(k, t.rooms[k]),
            map k | k in t.groups :: StoredGroup(k, t.groups[k]),
            map k | k in t.devices :: StoredDevice(k, t.devices[k]),
            map k | k in t.events :: StoredEvent(k, t.events[k]),
            map k | k in t.pushes :: StoredPush(k, t.pushes[k]),
            map k | k in t.sessions :: StoredSession(k, t.sessions[k]),
            map k | k in t.settings :: StoredSetting(k, t.settings[k]))
  }

  // ---------------------------------------------------------------- stored rows are typed

  /** Every integer fits the 64 bits of its column. */
  predicate Fits64(cell: R.Cell) {
    cell.Integer? ==> -R.I64_LIMIT <= cell.n < R.I64_LIMIT
  }

  predicate InRange(row: R.Row) {
    forall c <- row :: Fits64(row[c])
  }

  ghost predicate AllInRange(s: R.Store) {
    forall t: R.Table, k :: k in s.At(t) ==> InRange(s.At(t)[k])
  }

  /** The cell may stand in the column, given that integers are in range. */
  predicate Fits(t: R.Table, c: R.Column, cell: R.Cell) {
    (cell == R.Null && R.Nullable(t, c)) || (cell != R.Null && Typed(c, cell))
  }

  lemma FitsTyped(t: R.Table, k: string, row: R.Row)
    requires row.Keys == R.ColumnsOf(t) && R.CellOf(row, R.KeyColumn(t)) == R.Text(k)
    requires forall c <- row :: Fits(t, c, row[c])
    ensures TypedRow(t, k, row)
  {
    hide R.ColumnsOf, R.KeyColumn, R.Nullable, R.IsInteger;
  }

  lemma UserFits(k: string, u: User, c: R.Column)
    requires c in R.ColumnsOf(R.Users) && Fits64(UserCell(k, u, c))
    ensures Fits(R.Users, c, UserCell(k, u, c))
  {
    match c
    case Id => case Username => case Password => case Role => case CreatedAt =>
  }

  lemma UserTyped(k: string, u: User)
    requires InRange(StoredUser(k, u))
    ensures TypedRow(R.Users, k, StoredUser(k, u))
  {
    assert R.CellOf(StoredUser(k, u), R.KeyColumn(R.Users)) == R.Text(k);
    hide UserCell, Fits, R.ColumnsOf;
    forall c | c in R.ColumnsOf(R.Users) ensures Fits(R.Users, c, UserCell(k, u, c)) {
      assert StoredUser(k, u)[c] == UserCell(k, u, c);
      UserFits(k, u, c);
    }
    FitsTyped(R.Users, k, StoredUser(k, u));
  }

  lemma RoomFits(k: string, r: Room, c: R.Column)
    requires c in R.ColumnsOf(R.Rooms) && Fits64(RoomCell(k, r, c))
    ensures Fits(R.Rooms, c, RoomCell(k, r, c))
  {
    match c
    case Id => case Name => case OwnerId => case CreatedAt =>
  }

  lemma RoomTyped(k: string, r: Room)
    requires InRange(StoredRoom(k, r))
    ensures TypedRow(R.Rooms, k, StoredRoom(k, r))
  {
    assert R.CellOf(StoredRoom(k, r), R.KeyColumn(R.Rooms)) == R.Text(k);
    hide RoomCell, Fits, R.ColumnsOf;
    forall c | c in R.ColumnsOf(R.Rooms) ensures Fits(R.Rooms, c, RoomCell(k, r, c)) {
      assert StoredRoom(k, r)[c] == RoomCell(k, r, c);
      RoomFits(k, r, c);
    }
    FitsTyped(R.Rooms, k, StoredRoom(k, r));
  }

  lemma GroupFits(k: string, g: Group, c: R.Column)
    requires c in R.ColumnsOf(R.Groups) && Fits64(GroupCell(k, g, c))
    ensures Fits(R.Groups, c, GroupCell(k, g, c))
  {
    match c
    case Id => case RoomId => case Name => case EncryptedToken => case EncryptedServer => case EncryptedPassword =>
    case ExtraConfig => case ConfigVersion => case CreatedAt => case UpdatedAt =>
  }

  lemma GroupTyped(k: string, g: Group)
    requires InRange(StoredGroup(k, g))
    ensures TypedRow(R.Groups, k, StoredGroup(k, g))
  {
    assert R.CellOf(StoredGroup(k, g), R.KeyColumn(R.Groups)) == R.Text(k);
    hide GroupCell, Fits, R.ColumnsOf;
    forall c | c in R.ColumnsOf(R.Groups) ensures Fits(R.Groups, c, GroupCell(k, g, c)) {
      assert StoredGroup(k, g)[c] == GroupCell(k, g, c);
      GroupFits(k, g, c);
    }
    FitsTyped(R.Groups, k, StoredGroup(k, g));
  }

  lemma DeviceFits(k: string, d: Device, c: R.Column)
    requires c in R.ColumnsOf(R.Devices) && Fits64(DeviceCell(k, d, c))
    ensures Fits(R.Devices, c, DeviceCell(k, d, c))
  {
    match c
    case Id => case RoomId => case GroupId => case DisplayName => case ClientVersion => case ConsolePublicIp =>
    case NetworkIp => case NetworkNodeId => case DeviceToken => case LastSeen => case Status => case VntsStatus =>
    case VntsError => case VntsUpdatedAt => case ConfigVersion => case UpStream => case DownStream =>
    case TrafficUpdatedAt => case CreatedAt =>
  }

  lemma DeviceTyped(k: string, d: Device)
    requires InRange(StoredDevice(k, d))
    ensures TypedRow(R.Devices, k, StoredDevice(k, d))
  {
    assert R.CellOf(StoredDevice(k, d), R.KeyColumn(R.Devices)) == R.Text(k);
    hide DeviceCell, Fits, R.ColumnsOf;
    forall c | c in R.ColumnsOf(R.Devices) ensures Fits(R.Devices, c, DeviceCell(k, d, c)) {
      assert StoredDevice(k, d)[c] == DeviceCell(k, d, c);
      DeviceFits(k, d, c);
    }
    FitsTyped(R.Devices, k, StoredDevice(k, d));
  }

  lemma EventFits(k: string, e: Event, c: R.Column)
    requires c in R.ColumnsOf(R.Events) && Fits64(EventCell(k, e, c))
    ensures Fits(R.Events, c, EventCell(k, e, c))
  {
    match c
    case Id => case DeviceId => case EventType => case Payload => case CreatedAt =>
  }

  lemma EventTyped(k: string, e: Event)
    requires InRange(StoredEvent(k, e))
    ensures TypedRow(R.Events, k, StoredEvent(k, e))
  {
    assert R.CellOf(StoredEvent(k, e), R.KeyColumn(R.Events)) == R.Text(k);
    hide EventCell, Fits, R.ColumnsOf;
    forall c | c in R.ColumnsOf(R.Events) ensures Fits(R.Events, c, EventCell(k, e, c)) {
      assert StoredEvent(k, e)[c] == EventCell(k, e, c);
      EventFits(k, e, c);
    }
    FitsTyped(R.Events, k, StoredEvent(k, e));
  }

  lemma PushFits(k: string, p: Push, c: R.Column)
    requires c in R.ColumnsOf(R.ConfigPushes) && Fits64(PushCell(k, p, c))
    ensures Fits(R.ConfigPushes, c, PushCell(k, p, c))
  {
    match c
    case Id => case DeviceId => case GroupId => case ConfigSnapshot => case PushedAt => case Acked =>
  }

  lemma PushTyped(k: string, p: Push)
    requires InRange(StoredPush(k, p))
    ensures TypedRow(R.ConfigPushes, k, StoredPush(k, p))
  {
    assert R.CellOf(StoredPush(k, p), R.KeyColumn(R.ConfigPushes)) == R.Text(k);
    hide PushCell, Fits, R.ColumnsOf;
    forall c | c in R.ColumnsOf(R.ConfigPushes) ensures Fits(R.ConfigPushes, c, PushCell(k, p, c)) {
      assert StoredPush(k, p)[c] == PushCell(k, p, c);
      PushFits(k, p, c);
    }
    FitsTyped(R.ConfigPushes, k, StoredPush(k, p));
  }

  lemma SessionFits(k: string, s: WebSession, c: R.Column)
    requires c in R.ColumnsOf(R.Sessions) && Fits64(SessionCell(k, s, c))
    ensures Fits(R.Sessions, c, SessionCell(k, s, c))
  {
    match c
    case Token => case UserId => case CreatedAt => case ExpiresAt =>
  }

  lemma SessionTyped(k: string, s: WebSession)
    requires InRange(StoredSession(k, s))
    ensures TypedRow(R.Sessions, k, StoredSession(k, s))
  {
    assert R.CellOf(StoredSession(k, s), R.KeyColumn(R.Sessions)) == R.Text(k);
    hide SessionCell, Fits, R.ColumnsOf;
    forall c | c in R.ColumnsOf(R.Sessions) ensures Fits(R.Sessions, c, SessionCell(k, s, c)) {
      assert StoredSession(k, s)[c] == SessionCell(k, s, c);
      SessionFits(k, s, c);
    }
    FitsTyped(R.Sessions, k, StoredSession(k, s));
  }

  lemma SettingFits(k: string, v: Setting, c: R.Column)
    requires c in R.ColumnsOf(R.SystemConfig) && Fits64(SettingCell(k, v, c))
    ensures Fits(R.SystemConfig, c, SettingCell(k, v, c))
  {
    match c
    case Key => case Value => case UpdatedAt =>
  }

  lemma SettingTyped(k: string, v: Setting)
    requires InRange(StoredSetting(k, v))
    ensures TypedRow(R.SystemConfig, k, StoredSetting(k, v))
  {
    assert R.CellOf(StoredSetting(k, v), R.KeyColumn(R.SystemConfig)) == R.Text(k);
    hide SettingCell, Fits, R.ColumnsOf;
    forall c | c in R.ColumnsOf(R.SystemConfig) ensures Fits(R.SystemConfig, c, SettingCell(k, v, c)) {
      assert StoredSetting(k, v)[c] == SettingCell(k, v, c);
      SettingFits(k, v, c);
    }
    FitsTyped(R.SystemConfig, k, StoredSetting(k, v));
  }

  lemma StoredAreTyped(t: Tables, table: R.Table)
    requires AllInRange(StoreOf(t))
    ensures TypedTable(table, StoreOf(t).At(table))
  {
    hide StoredUser, StoredRoom, StoredGroup, StoredDevice, StoredEvent, StoredPush, StoredSession, StoredSetting,
         TypedRow, InRange;
    var s := StoreOf(t);
    forall k | k in s.At(table) ensures TypedRow(table, k, s.At(table)[k]) {
      assert InRange(s.At(table)[k]);
      match table
      case Users => UserTyped(k, t.users[k]);
      case Rooms => RoomTyped(k, t.rooms[k]);
      case Groups => GroupTyped(k, t.groups[k]);
      case Devices => DeviceTyped(k, t.devices[k]);
      case Events => EventTyped(k, t.events[k]);
      case ConfigPushes => PushTyped(k, t.pushes[k]);
      case Sessions => SessionTyped(k, t.sessions[k]);
      case SystemConfig => SettingTyped(k, t.settings[k]);
    }
  }

  // ---------------------------------------------------------------- references and names

  lemma RoomResolves(s: R.Store, k: string, r: Room)
    ensures R.RowResolves(s, R.Rooms, StoredRoom(k, r)) <==> r.ownerId in s.users
  {
    OneReference(s, R.Rooms, StoredRoom(k, r), R.OwnerId);
  }

  lemma GroupResolves(s: R.Store, k: string, g: Group)
    ensures R.RowResolves(s, R.Groups, StoredGroup(k, g)) <==> g.roomId in s.rooms
  {
    OneReference(s, R.Groups, StoredGroup(k, g), R.RoomId);
  }

  lemma EventResolves(s: R.Store, k: string, e: Event)
    ensures R.RowResolves(s, R.Events, StoredEvent(k, e)) <==> e.deviceId in s.devices
  {
    OneReference(s, R.Events, StoredEvent(k, e), R.DeviceId);
  }

  lemma PushResolves(s: R.Store, k: string, p: Push)
    ensures R.RowResolves(s, R.ConfigPushes, StoredPush(k, p)) <==> p.deviceId in s.devices
  {
    OneReference(s, R.ConfigPushes, StoredPush(k, p), R.DeviceId);
  }

  lemma SessionResolves(s: R.Store, k: string, w: WebSession)
    ensures R.RowResolves(s, R.Sessions, StoredSession(k, w)) <==> w.userId in s.users
  {
    OneReference(s, R.Sessions, StoredSession(k, w), R.UserId);
  }

  lemma DeviceResolves(s: R.Store, k: string, d: Device)
    ensures R.RowResolves(s, R.Devices, StoredDevice(k, d))
            <==> d.roomId in s.rooms && (d.groupId.Some? ==> d.groupId.value in s.groups)
  {
    var row := StoredDevice(k, d);
    assert R.RoomId in row && row[R.RoomId] == R.Text(d.roomId) && R.GroupId in row
           && row[R.GroupId] == TextOr(d.groupId);
    assert forall c :: R.Parent(R.Devices, c).Some? ==> c == R.RoomId || c == R.GroupId;
    assert R.Parent(R.Devices, R.RoomId) == Some(R.Rooms) && R.Parent(R.Devices, R.GroupId) == Some(R.Groups);
    hide StoredDevice, R.Parent;
  }

  lemma StoredAreClosed(t: Tables)
    ensures Closed(t) ==> R.Closed(StoreOf(t))
  {
    hide StoredUser, StoredRoom, StoredGroup, StoredDevice, StoredEvent, StoredPush, StoredSession, StoredSetting,
         R.RowResolves, R.Closed;
    var s := StoreOf(t);
    if Closed(t) {
      forall table: R.Table ensures R.TableResolves(s, table) {
        forall k | k in s.At(table) ensures R.RowResolves(s, table, s.At(table)[k]) {
          StoredResolves(t, table, k);
        }
      }
      EveryTable(s);
    }
  }

  lemma StoredResolves(t: Tables, table: R.Table, k: string)
    requires Closed(t) && k in StoreOf(t).At(table)
    ensures R.RowResolves(StoreOf(t), table, StoreOf(t).At(table)[k])
  {
    var s := StoreOf(t);
    hide StoredUser, StoredRoom, StoredGroup, StoredDevice, StoredEvent, StoredPush, StoredSession, StoredSetting,
         R.RowResolves;
    match table
    case Users => NoReference(s, R.Users, s.users[k]);
    case Rooms => RoomResolves(s, k, t.rooms[k]);
    case Groups => GroupResolves(s, k, t.groups[k]);
    case Devices => DeviceResolves(s, k, t.devices[k]);
    case Events => EventResolves(s, k, t.events[k]);
    case ConfigPushes => PushResolves(s, k, t.pushes[k]);
    case Sessions => SessionResolves(s, k, t.sessions[k]);
    case SystemConfig => NoReference(s, R.SystemConfig, s.systemConfig[k]);
  }

  lemma NoReference(s: R.Store, table: R.Table, row: R.Row)
    requires table == R.Users || table == R.SystemConfig
    ensures R.RowResolves(s, table, row)
  {
    assert forall c :: R.Parent(table, c).None?;
    hide R.Parent;
  }

  /** The stored rows have every reference resolved exactly when the console's own rows do. */
  lemma ClosedIsStoredClosed(t: Tables)
    ensures Closed(t) <==> R.Closed(StoreOf(t))
  {
    hide Closed, StoreOf, R.Closed;
    StoredAreClosed(t);
    if R.Closed(StoreOf(t)) {
      RoomsResolve(t);
      DevicesResolve(t);
      AllResolve(t);
    }
  }

  /** What the first and what the last tables refer to is there. */
  predicate RoomsThere(t: Tables) {
    && (forall k <- t.rooms :: t.rooms[k].ownerId in t.users)
    && (forall k <- t.groups :: t.groups[k].roomId in t.rooms)
    && (forall k <- t.sessions :: t.sessions[k].userId in t.users)
  }

  predicate DevicesThere(t: Tables) {
    && (forall k <- t.devices :: t.devices[k].roomId in t.rooms)
    && (forall k <- t.devices :: t.devices[k].groupId.Some? ==> t.devices[k].groupId.value in t.groups)
    && (forall k <- t.events :: t.events[k].deviceId in t.devices)
    && (forall k <- t.pushes :: t.pushes[k].deviceId in t.devices)
  }

  lemma AllResolve(t: Tables)
    ensures Closed(t) <==> RoomsThere(t) && DevicesThere(t)
  {
  }

  lemma RoomsResolve(t: Tables)
    requires R.Closed(StoreOf(t))
    ensures RoomsThere(t)
  {
    hide StoredUser, StoredRoom, StoredGroup, StoredDevice, StoredEvent, StoredPush, StoredSession, StoredSetting,
         R.RowResolves, R.Closed;
    var s := StoreOf(t);
    forall k | k in t.rooms ensures t.rooms[k].ownerId in t.users {
      ResolvesIn(s, R.Rooms, k);
      RoomResolves(s, k, t.rooms[k]);
    }
    forall k | k in t.groups ensures t.groups[k].roomId in t.rooms {
      ResolvesIn(s, R.Groups, k);
      GroupResolves(s, k, t.groups[k]);
    }
    forall k | k in t.sessions ensures t.sessions[k].userId in t.users {
      ResolvesIn(s, R.Sessions, k);
      SessionResolves(s, k, t.sessions[k]);
    }
  }

  lemma DevicesResolve(t: Tables)
    requires R.Closed(StoreOf(t))
    ensures DevicesThere(t)
  {
    hide StoredUser, StoredRoom, StoredGroup, StoredDevice, StoredEvent, StoredPush, StoredSession, StoredSetting,
         R.RowResolves, R.Closed;
    var s := StoreOf(t);
    forall k | k in t.devices
      ensures t.devices[k].roomId in t.rooms && (t.devices[k].groupId.Some? ==> t.devices[k].groupId.value in t.groups)
    {
      ResolvesIn(s, R.Devices, k);
      DeviceResolves(s, k, t.devices[k]);
    }
    forall k | k in t.events ensures t.events[k].deviceId in t.devices {
      ResolvesIn(s, R.Events, k);
      EventResolves(s, k, t.events[k]);
    }
    forall k | k in t.pushes ensures t.pushes[k].deviceId in t.devices {
      ResolvesIn(s, R.ConfigPushes, k);
      PushResolves(s, k, t.pushes[k]);
    }
  }

  lemma ResolvesIn(s: R.Store, table: R.Table, k: string)
    requires R.Closed(s) && k in s.At(table)
    ensures R.RowResolves(s, table, s.At(table)[k])
  {
    R.ClosedTable(s, table);
    hide R.Closed, R.RowResolves;
  }

  lemma NameOf(k: string, u: User)
    ensures R.CellOf(StoredUser(k, u), R.Username) == R.Text(u.username)
  {
  }

  lemma StoredNames(t: Tables)
    ensures Schema.UniqueNames(t) <==> RoundTrip.UniqueNames(StoreOf(t).users)
  {
    hide StoredUser, StoredRoom, StoredGroup, StoredDevice, StoredEvent, StoredPush, StoredSession, StoredSetting,
         R.CellOf;
    var rows := StoreOf(t).users;
    forall a, b | a in t.users && b in t.users
      ensures t.users[a].username == t.users[b].username
              <==> R.CellOf(rows[a], R.Username) == R.CellOf(rows[b], R.Username)
    {
      NameOf(a, t.users[a]);
      NameOf(b, t.users[b]);
    }
  }

  /** Tables meet the schema's constraints exactly when their stored form is a sound database. */
  lemma StoredAreSound(t: Tables)
    requires AllInRange(StoreOf(t))
    ensures Closed(t) && Schema.UniqueNames(t) <==> Sound(StoreOf(t))
  {
    hide R.Closed, TypedTable, AllInRange, Closed, StoreOf, Schema.UniqueNames, RoundTrip.UniqueNames;
    var s := StoreOf(t);
    ClosedIsStoredClosed(t);
    StoredNames(t);
    forall table: R.Table ensures TypedTable(table, s.At(table)) { StoredAreTyped(t, table); }
  }

  // ---------------------------------------------------------------- ownership

  lemma RoomCells(k: string, r: Room)
    ensures R.CellOf(StoredRoom(k, r), R.OwnerId) == R.Text(r.ownerId)
  {
  }

  lemma GroupCells(k: string, g: Group)
    ensures R.CellOf(StoredGroup(k, g), R.RoomId) == R.Text(g.roomId)
  {
  }

  lemma DeviceCells(k: string, d: Device)
    ensures R.CellOf(StoredDevice(k, d), R.RoomId) == R.Text(d.roomId)
    ensures R.CellOf(StoredDevice(k, d), R.GroupId) == TextOr(d.groupId)
  {
  }

  lemma EventCells(k: string, e: Event)
    ensures R.CellOf(StoredEvent(k, e), R.DeviceId) == R.Text(e.deviceId)
  {
  }

  lemma PushCells(k: string, p: Push)
    ensures R.CellOf(StoredPush(k, p), R.DeviceId) == R.Text(p.deviceId)
  {
  }

  lemma SameRoomIsStored(t: Tables)
    requires SameRoom(t)
    ensures GroupsInRoom(StoreOf(t))
  {
    var s := StoreOf(t);
    hide StoredUser, StoredRoom, StoredGroup, StoredDevice, StoredEvent, StoredPush, StoredSession, StoredSetting,
         R.CellOf;
    forall d | d in s.devices && R.CellOf(s.devices[d], R.GroupId).Text?
      ensures var g := R.CellOf(s.devices[d], R.GroupId).s;
              g in s.groups && R.CellOf(s.groups[g], R.RoomId) == R.CellOf(s.devices[d], R.RoomId)
    {
      DeviceCells(d, t.devices[d]);
      assert GroupInRoom(t, d);
      GroupCells(t.devices[d].groupId.value, t.groups[t.devices[d].groupId.value]);
    }
  }

  // ---------------------------------------------------------------- nothing is lost in storing

  lemma UserIsKept(k: string, a: User, b: User)
    requires StoredUser(k, a) == StoredUser(k, b)
    ensures a == b
  {
    forall c | c in R.ColumnsOf(R.Users) ensures UserCell(k, a, c) == UserCell(k, b, c) {
      assert StoredUser(k, a)[c] == UserCell(k, a, c) && StoredUser(k, b)[c] == UserCell(k, b, c);
    }
    assert UserCell(k, a, R.Username) == UserCell(k, b, R.Username);
    assert UserCell(k, a, R.Password) == UserCell(k, b, R.Password);
    assert UserCell(k, a, R.Role) == UserCell(k, b, R.Role);
    assert UserCell(k, a, R.CreatedAt) == UserCell(k, b, R.CreatedAt);
  }

  lemma RoomIsKept(k: string, a: Room, b: Room)
    requires StoredRoom(k, a) == StoredRoom(k, b)
    ensures a == b
  {
    forall c | c in R.ColumnsOf(R.Rooms) ensures RoomCell(k, a, c) == RoomCell(k, b, c) {
      assert StoredRoom(k, a)[c] == RoomCell(k, a, c) && StoredRoom(k, b)[c] == RoomCell(k, b, c);
    }
    assert RoomCell(k, a, R.Name) == RoomCell(k, b, R.Name);
    assert RoomCell(k, a, R.OwnerId) == RoomCell(k, b, R.OwnerId);
    assert RoomCell(k, a, R.CreatedAt) == RoomCell(k, b, R.CreatedAt);
  }

  lemma GroupIsKept(k: string, a: Group, b: Group)
    requires StoredGroup(k, a) == StoredGroup(k, b)
    ensures a == b
  {
    forall c | c in R.ColumnsOf(R.Groups) ensures GroupCell(k, a, c) == GroupCell(k, b, c) {
      assert StoredGroup(k, a)[c] == GroupCell(k, a, c) && StoredGroup(k, b)[c] == GroupCell(k, b, c);
    }
    assert GroupCell(k, a, R.RoomId) == GroupCell(k, b, R.RoomId);
    assert GroupCell(k, a, R.Name) == GroupCell(k, b, R.Name);
    assert GroupCell(k, a, R.EncryptedToken) == GroupCell(k, b, R.EncryptedToken);
    assert GroupCell(k, a, R.EncryptedServer) == GroupCell(k, b, R.EncryptedServer);
    assert GroupCell(k, a, R.EncryptedPassword) == GroupCell(k, b, R.EncryptedPassword);
    assert GroupCell(k, a, R.ExtraConfig) == GroupCell(k, b, R.ExtraConfig);
    assert GroupCell(k, a, R.ConfigVersion) == GroupCell(k, b, R.ConfigVersion);
    assert GroupCell(k, a, R.CreatedAt) == GroupCell(k, b, R.CreatedAt);
    assert GroupCell(k, a, R.UpdatedAt) == GroupCell(k, b, R.UpdatedAt);
  }

  lemma DeviceFieldsKept(k: string, a: Device, b: Device)
    requires forall c :: DeviceCell(k, a, c) == DeviceCell(k, b, c)
    ensures a.roomId == b.roomId && a.groupId == b.groupId && a.displayName == b.displayName
    ensures a.clientVersion == b.clientVersion && a.consolePublicIp == b.consolePublicIp && a.networkIp == b.networkIp
  {
    assert DeviceCell(k, a, R.RoomId) == DeviceCell(k, b, R.RoomId);
    assert DeviceCell(k, a, R.GroupId) == DeviceCell(k, b, R.GroupId);
    assert DeviceCell(k, a, R.DisplayName) == DeviceCell(k, b, R.DisplayName);
    assert DeviceCell(k, a, R.ClientVersion) == DeviceCell(k, b, R.ClientVersion);
    assert DeviceCell(k, a, R.ConsolePublicIp) == DeviceCell(k, b, R.ConsolePublicIp);
    assert DeviceCell(k, a, R.NetworkIp) == DeviceCell(k, b, R.NetworkIp);
  }

  lemma DeviceStateKept(k: string, a: Device, b: Device)
    requires forall c :: DeviceCell(k, a, c) == DeviceCell(k, b, c)
    ensures a.networkNodeId == b.networkNodeId && a.deviceToken == b.deviceToken && a.lastSeen == b.lastSeen
    ensures a.status == b.status && a.vntsStatus == b.vntsStatus && a.vntsError == b.vntsError
  {
    assert DeviceCell(k, a, R.NetworkNodeId) == DeviceCell(k, b, R.NetworkNodeId);
    assert DeviceCell(k, a, R.DeviceToken) == DeviceCell(k, b, R.DeviceToken);
    assert DeviceCell(k, a, R.LastSeen) == DeviceCell(k, b, R.LastSeen);
    assert DeviceCell(k, a, R.Status) == DeviceCell(k, b, R.Status);
    assert DeviceCell(k, a, R.VntsStatus) == DeviceCell(k, b, R.VntsStatus);
    assert DeviceCell(k, a, R.VntsError) == DeviceCell(k, b, R.VntsError);
  }

  lemma DeviceCountersKept(k: string, a: Device, b: Device)
    requires forall c :: DeviceCell(k, a, c) == DeviceCell(k, b, c)
    ensures a.vntsUpdatedAt == b.vntsUpdatedAt && a.configVersion == b.configVersion && a.upStream == b.upStream
    ensures a.downStream == b.downStream && a.trafficUpdatedAt == b.trafficUpdatedAt && a.createdAt == b.createdAt
  {
    assert DeviceCell(k, a, R.VntsUpdatedAt) == DeviceCell(k, b, R.VntsUpdatedAt);
    assert DeviceCell(k, a, R.ConfigVersion) == DeviceCell(k, b, R.ConfigVersion);
    assert DeviceCell(k, a, R.UpStream) == DeviceCell(k, b, R.UpStream);
    assert DeviceCell(k, a, R.DownStream) == DeviceCell(k, b, R.DownStream);
    assert DeviceCell(k, a, R.TrafficUpdatedAt) == DeviceCell(k, b, R.TrafficUpdatedAt);
    assert DeviceCell(k, a, R.CreatedAt) == DeviceCell(k, b, R.CreatedAt);
  }

  lemma NoDeviceCell(k: string, d: Device, c: R.Column)
    requires c !in R.ColumnsOf(R.Devices)
    ensures DeviceCell(k, d, c) == R.Null
  {
    match c
    case Id => case RoomId => case GroupId => case DisplayName => case ClientVersion => case ConsolePublicIp =>
    case NetworkIp => case NetworkNodeId => case DeviceToken => case LastSeen => case Status => case VntsStatus =>
    case VntsError => case VntsUpdatedAt => case ConfigVersion => case UpStream => case DownStream =>
    case TrafficUpdatedAt => case CreatedAt => case _ =>
  }

  lemma DeviceIsKept(k: string, a: Device, b: Device)
    requires StoredDevice(k, a) == StoredDevice(k, b)
    ensures a == b
  {
    hide DeviceCell, R.ColumnsOf;
    forall c ensures DeviceCell(k, a, c) == DeviceCell(k, b, c) {
      if c in R.ColumnsOf(R.Devices) {
        assert StoredDevice(k, a)[c] == DeviceCell(k, a, c) && StoredDevice(k, b)[c] == DeviceCell(k, b, c);
      } else {
        NoDeviceCell(k, a, c);
        NoDeviceCell(k, b, c);
      }
    }
    hide StoredDevice;
    DeviceFieldsKept(k, a, b);
    DeviceStateKept(k, a, b);
    DeviceCountersKept(k, a, b);
  }

  lemma EventIsKept(k: string, a: Event, b: Event)
    requires StoredEvent(k, a) == StoredEvent(k, b)
    ensures a == b
  {
    forall c | c in R.ColumnsOf(R.Events) ensures EventCell(k, a, c) == EventCell(k, b, c) {
      assert StoredEvent(k, a)[c] == EventCell(k, a, c) && StoredEvent(k, b)[c] == EventCell(k, b, c);
    }
    assert EventCell(k, a, R.DeviceId) == EventCell(k, b, R.DeviceId);
    assert EventCell(k, a, R.EventType) == EventCell(k, b, R.EventType);
    assert EventCell(k, a, R.Payload) == EventCell(k, b, R.Payload);
    assert EventCell(k, a, R.CreatedAt) == EventCell(k, b, R.CreatedAt);
  }

  lemma PushIsKept(k: string, a: Push, b: Push)
    requires StoredPush(k, a) == StoredPush(k, b)
    ensures a == b
  {
    forall c | c in R.ColumnsOf(R.ConfigPushes) ensures PushCell(k, a, c) == PushCell(k, b, c) {
      assert StoredPush(k, a)[c] == PushCell(k, a, c) && StoredPush(k, b)[c] == PushCell(k, b, c);
    }
    assert PushCell(k, a, R.DeviceId) == PushCell(k, b, R.DeviceId);
    assert PushCell(k, a, R.GroupId) == PushCell(k, b, R.GroupId);
    assert PushCell(k, a, R.ConfigSnapshot) == PushCell(k, b, R.ConfigSnapshot);
    assert PushCell(k, a, R.PushedAt) == PushCell(k, b, R.PushedAt);
    assert PushCell(k, a, R.Acked) == PushCell(k, b, R.Acked);
  }

  lemma SessionIsKept(k: string, a: WebSession, b: WebSession)
    requires StoredSession(k, a) == StoredSession(k, b)
    ensures a == b
  {
    forall c | c in R.ColumnsOf(R.Sessions) ensures SessionCell(k, a, c) == SessionCell(k, b, c) {
      assert StoredSession(k, a)[c] == SessionCell(k, a, c) && StoredSession(k, b)[c] == SessionCell(k, b, c);
    }
    assert SessionCell(k, a, R.UserId) == SessionCell(k, b, R.UserId);
    assert SessionCell(k, a, R.CreatedAt) == SessionCell(k, b, R.CreatedAt);
    assert SessionCell(k, a, R.ExpiresAt) == SessionCell(k, b, R.ExpiresAt);
  }

  lemma SettingIsKept(k: string, a: Setting, b: Setting)
    requires StoredSetting(k, a) == StoredSetting(k, b)
    ensures a == b
  {
    forall c | c in R.ColumnsOf(R.SystemConfig) ensures SettingCell(k, a, c) == SettingCell(k, b, c) {
      assert StoredSetting(k, a)[c] == SettingCell(k, a, c) && StoredSetting(k, b)[c] == SettingCell(k, b, c);
    }
    assert SettingCell(k, a, R.Value) == SettingCell(k, b, R.Value);
    assert SettingCell(k, a, R.UpdatedAt) == SettingCell(k, b, R.UpdatedAt);
  }

  lemma UsersKept(t: Tables, u: Tables)
    requires StoreOf(t).users == StoreOf(u).users
    ensures t.users == u.users
  {
    hide StoredUser, StoredRoom, StoredGroup, StoredDevice, StoredEvent, StoredPush, StoredSession, StoredSetting;
    assert t.users.Keys == StoreOf(t).users.Keys && u.users.Keys == StoreOf(u).users.Keys;
    forall k | k in t.users ensures t.users[k] == u.users[k] {
      assert StoreOf(t).users[k] == StoreOf(u).users[k];
      UserIsKept(k, t.users[k], u.users[k]);
    }
  }

  lemma RoomsKept(t: Tables, u: Tables)
    requires StoreOf(t).rooms == StoreOf(u).rooms
    ensures t.rooms == u.rooms
  {
    hide StoredUser, StoredRoom, StoredGroup, StoredDevice, StoredEvent, StoredPush, StoredSession, StoredSetting;
    assert t.rooms.Keys == StoreOf(t).rooms.Keys && u.rooms.Keys == StoreOf(u).rooms.Keys;
    forall k | k in t.rooms ensures t.rooms[k] == u.rooms[k] {
      assert StoreOf(t).rooms[k] == StoreOf(u).rooms[k];
      RoomIsKept(k, t.rooms[k], u.rooms[k]);
    }
  }

  lemma GroupsKept(t: Tables, u: Tables)
    requires StoreOf(t).groups == StoreOf(u).groups
    ensures t.groups == u.groups
  {
    hide StoredUser, StoredRoom, StoredGroup, StoredDevice, StoredEvent, StoredPush, StoredSession, StoredSetting;
    assert t.groups.Keys == StoreOf(t).groups.Keys && u.groups.Keys == StoreOf(u).groups.Keys;
    forall k | k in t.groups ensures t.groups[k] == u.groups[k] {
      assert StoreOf(t).groups[k] == StoreOf(u).groups[k];
      GroupIsKept(k, t.groups[k], u.groups[k]);
    }
  }

  lemma DevicesKept(t: Tables, u: Tables)
    requires StoreOf(t).devices == StoreOf(u).devices
    ensures t.devices == u.devices
  {
    hide StoredUser, StoredRoom, StoredGroup, StoredDevice, StoredEvent, StoredPush, StoredSession, StoredSetting;
    assert t.devices.Keys == StoreOf(t).devices.Keys && u.devices.Keys == StoreOf(u).devices.Keys;
    forall k | k in t.devices ensures t.devices[k] == u.devices[k] {
      assert StoreOf(t).devices[k] == StoreOf(u).devices[k];
      DeviceIsKept(k, t.devices[k], u.devices[k]);
    }
  }

  lemma EventsKept(t: Tables, u: Tables)
    requires StoreOf(t).events == StoreOf(u).events
    ensures t.events == u.events
  {
    hide StoredUser, StoredRoom, StoredGroup, StoredDevice, StoredEvent, StoredPush, StoredSession, StoredSetting;
    assert t.events.Keys == StoreOf(t).events.Keys && u.events.Keys == StoreOf(u).events.Keys;
    forall k | k in t.events ensures t.events[k] == u.events[k] {
      assert StoreOf(t).events[k] == StoreOf(u).events[k];
      EventIsKept(k, t.events[k], u.events[k]);
    }
  }

  lemma PushesKept(t: Tables, u: Tables)
    requires StoreOf(t).configPushes == StoreOf(u).configPushes
    ensures t.pushes == u.pushes
  {
    hide StoredUser, StoredRoom, StoredGroup, StoredDevice, StoredEvent, StoredPush, StoredSession, StoredSetting;
    assert t.pushes.Keys == StoreOf(t).configPushes.Keys && u.pushes.Keys == StoreOf(u).configPushes.Keys;
    forall k | k in t.pushes ensures t.pushes[k] == u.pushes[k] {
      assert StoreOf(t).configPushes[k] == StoreOf(u).configPushes[k];
      PushIsKept(k, t.pushes[k], u.pushes[k]);
    }
  }

  lemma SessionsKept(t: Tables, u: Tables)
    requires StoreOf(t).sessions == StoreOf(u).sessions
    ensures t.sessions == u.sessions
  {
    hide StoredUser, StoredRoom, StoredGroup, StoredDevice, StoredEvent, StoredPush, StoredSession, StoredSetting;
    assert t.sessions.Keys == StoreOf(t).sessions.Keys && u.sessions.Keys == StoreOf(u).sessions.Keys;
    forall k | k in t.sessions ensures t.sessions[k] == u.sessions[k] {
      assert StoreOf(t).sessions[k] == StoreOf(u).sessions[k];
      SessionIsKept(k, t.sessions[k], u.sessions[k]);
    }
  }

  lemma SettingsKept(t: Tables, u: Tables)
    requires StoreOf(t).systemConfig == StoreOf(u).systemConfig
    ensures t.settings == u.settings
  {
    hide StoredUser, StoredRoom, StoredGroup, StoredDevice, StoredEvent, StoredPush, StoredSession, StoredSetting;
    assert t.settings.Keys == StoreOf(t).systemConfig.Keys && u.settings.Keys == StoreOf(u).systemConfig.Keys;
    forall k | k in t.settings ensures t.settings[k] == u.settings[k] {
      assert StoreOf(t).systemConfig[k] == StoreOf(u).systemConfig[k];
      SettingIsKept(k, t.settings[k], u.settings[k]);
    }
  }

  /** Two consoles with the same stored rows have the same tables. */
  lemma StoredOnce(t: Tables, u: Tables)
    requires StoreOf(t) == StoreOf(u)
    ensures t == u
  {
    hide StoreOf;
    UsersKept(t, u);
    RoomsKept(t, u);
    GroupsKept(t, u);
    DevicesKept(t, u);
    EventsKept(t, u);
    PushesKept(t, u);
    SessionsKept(t, u);
    SettingsKept(t, u);
  }
}
