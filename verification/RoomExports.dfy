/** What deleting a room does to the users' backups: its owner's loses the room, the others' stay as they were. */
module RoomExports {
  import opened Wrappers
  import opened Schema
  import opened Effects
  import opened Invariants
  import R = Rows
  import RoundTrip
  import Ownership
  import opened StoredTables

  function RoomOwnerOf(t: Tables, r: string): Option<string> {
    if r in t.rooms then Some(t.rooms[r].ownerId) else None
  }

  function DeviceOwnerOf(t: Tables, d: string): Option<string> {
    if d in t.devices then RoomOwnerOf(t, t.devices[d].roomId) else None
  }

  function TableOwner(t: Tables, table: R.Table, k: string): Option<string> {
    match table
    case Users => if k in t.users then Some(k) else None
    case Rooms => RoomOwnerOf(t, k)
    case Groups => if k in t.groups then RoomOwnerOf(t, t.groups[k].roomId) else None
    case Devices => DeviceOwnerOf(t, k)
    case Events => if k in t.events then DeviceOwnerOf(t, t.events[k].deviceId) else None
    case ConfigPushes => if k in t.pushes then DeviceOwnerOf(t, t.pushes[k].deviceId) else None
    case Sessions => None
    case SystemConfig => None
  }

  lemma StoredRoomOwner(t: Tables, cell: R.Cell)
    ensures Ownership.RoomOwner(StoreOf(t), cell) == if cell.Text? then RoomOwnerOf(t, cell.s) else None
  {
    hide StoredUser, StoredRoom, StoredGroup, StoredDevice, StoredEvent, StoredPush, StoredSession, StoredSetting,
         R.CellOf;
    if cell.Text? && cell.s in t.rooms { RoomCells(cell.s, t.rooms[cell.s]); }
  }

  lemma StoredDeviceOwner(t: Tables, cell: R.Cell)
    ensures Ownership.DeviceOwner(StoreOf(t), cell) == if cell.Text? then DeviceOwnerOf(t, cell.s) else None
  {
    hide StoredUser, StoredRoom, StoredGroup, StoredDevice, StoredEvent, StoredPush, StoredSession, StoredSetting,
         R.CellOf, Ownership.RoomOwner;
    if cell.Text? && cell.s in t.devices {
      DeviceCells(cell.s, t.devices[cell.s]);
      StoredRoomOwner(t, R.Text(t.devices[cell.s].roomId));
    }
  }

  /** Who owns a stored row, read off the console's own rows. */
  lemma StoredOwner(t: Tables, table: R.Table, k: string)
    ensures Ownership.OwnerOf(StoreOf(t), table, k) == TableOwner(t, table, k)
  {
    hide StoredUser, StoredRoom, StoredGroup, StoredDevice, StoredEvent, StoredPush, StoredSession, StoredSetting,
         R.CellOf, Ownership.RoomOwner, Ownership.DeviceOwner, RoomOwnerOf, DeviceOwnerOf;
    match table
    case Users =>
    case Rooms => StoredRoomOwner(t, R.Text(k));
    case Groups =>
      if k in t.groups {
        GroupCells(k, t.groups[k]);
        StoredRoomOwner(t, R.Text(t.groups[k].roomId));
      }
    case Devices => StoredDeviceOwner(t, R.Text(k));
    case Events =>
      if k in t.events {
        EventCells(k, t.events[k]);
        StoredDeviceOwner(t, R.Text(t.events[k].deviceId));
      }
    case ConfigPushes =>
      if k in t.pushes {
        PushCells(k, t.pushes[k]);
        StoredDeviceOwner(t, R.Text(t.pushes[k].deviceId));
      }
    case Sessions =>
    case SystemConfig =>
  }

  // ---------------------------------------------------------------- deleting a room

  /** The room and everything under it. */
  function Below(t: Tables, room: string, table: R.Table): set<string> {
    match table
    case Users => {}
    case Rooms => {room}
    case Groups => GroupsOfRoom(t, room)
    case Devices => DevicesOfRoom(t, room)
    case Events => EventsOf(t, DevicesOfRoom(t, room))
    case ConfigPushes => PushesOf(t, DevicesOfRoom(t, room))
    case Sessions => {}
    case SystemConfig => {}
  }

  lemma RemovedRows(t: Tables, room: string, table: R.Table)
    ensures StoreOf(RoomRemoved(t, room)).At(table) == StoreOf(t).At(table) - Below(t, room, table)
  {
    hide StoredUser, StoredRoom, StoredGroup, StoredDevice, StoredEvent, StoredPush, StoredSession, StoredSetting,
         GroupsOfRoom, DevicesOfRoom, EventsOf, PushesOf;
    match table
    case Users => case Rooms => case Groups => case Devices =>
    case Events => case ConfigPushes => case Sessions => case SystemConfig =>
  }

  /** What goes belongs to the owner of the room, and what stays keeps its owner. */
  lemma RemovedOwners(t: Tables, room: string, table: R.Table, k: string)
    requires room in t.rooms
    ensures k in Below(t, room, table) ==> TableOwner(t, table, k) == Some(t.rooms[room].ownerId)
    ensures k in StoreOf(t).At(table) && k !in Below(t, room, table) ==>
              TableOwner(RoomRemoved(t, room), table, k) == TableOwner(t, table, k)
  {
    hide StoredUser, StoredRoom, StoredGroup, StoredDevice, StoredEvent, StoredPush, StoredSession, StoredSetting;
    match table
    case Users => case Rooms => case Groups => case Devices =>
    case Events => case ConfigPushes => case Sessions => case SystemConfig =>
  }

  lemma OwnedAfterRemoval(t: Tables, room: string, uid: string, table: R.Table)
    requires room in t.rooms
    ensures var s, s' := StoreOf(t), StoreOf(RoomRemoved(t, room));
            && Ownership.OwnedBy(s', uid, table) == Ownership.OwnedBy(s, uid, table) - Below(t, room, table)
            && (uid != t.rooms[room].ownerId ==> Ownership.OwnedBy(s', uid, table) == Ownership.OwnedBy(s, uid, table))
            && (uid != t.rooms[room].ownerId ==>
                  Ownership.Owned(s', uid).At(table) == Ownership.Owned(s, uid).At(table))
  {
    var s, s' := StoreOf(t), StoreOf(RoomRemoved(t, room));
    RemovedRows(t, room, table);
    Ownership.OwnedAt(s, uid, table);
    Ownership.OwnedAt(s', uid, table);
    hide StoreOf, Below, Ownership.OwnerOf, TableOwner, RoomRemoved, Ownership.Owned, R.Store.At;
    forall k ensures k in Ownership.OwnedBy(s', uid, table)
    <==> k in Ownership.OwnedBy(s, uid, table) && k !in Below(t, room, table) {
      RemovedOwners(t, room, table, k);
      StoredOwner(t, table, k);
      StoredOwner(RoomRemoved(t, room), table, k);
    }
    if uid != t.rooms[room].ownerId {
      forall k | k in Ownership.OwnedBy(s, uid, table) ensures k !in Below(t, room, table) {
        RemovedOwners(t, room, table, k);
        StoredOwner(t, table, k);
      }
      hide Ownership.OwnedBy;
    }
  }

  /**
   * Deleting a room with groups kept in their rooms always commits. It removes exactly the room's subtree from every
   * table, takes exactly that subtree out of the owner's export, and leaves every other user's export as it was.
   */
  lemma DeleteRoomKeepsOtherExports(t: Tables, room: string, uid: string)
    requires Closed(t) && SameRoom(t) && room in t.rooms
    ensures Effects.DeleteRoom(t, room) == Some(RoomRemoved(t, room)) && Closed(RoomRemoved(t, room))
    ensures var s, s' := StoreOf(t), StoreOf(RoomRemoved(t, room));
            && (forall table: R.Table :: s'.At(table) == s.At(table) - Below(t, room, table))
            && (forall table: R.Table ::
                  Ownership.OwnedBy(s', uid, table) == Ownership.OwnedBy(s, uid, table) - Below(t, room, table))
            && (uid != t.rooms[room].ownerId ==> Ownership.Owned(s', uid) == Ownership.Owned(s, uid))
  {
    SameRoomIsRemovable(t, room);
    RoomDeleted(t, room);
    var s, s' := StoreOf(t), StoreOf(RoomRemoved(t, room));
    hide StoreOf, Below, Ownership.OwnedBy, Ownership.Owned, R.Store.At, RoomRemoved, RoomRemovable, Closed, SameRoom;
    forall table: R.Table
      ensures s'.At(table) == s.At(table) - Below(t, room, table)
      ensures Ownership.OwnedBy(s', uid, table) == Ownership.OwnedBy(s, uid, table) - Below(t, room, table)
      ensures uid != t.rooms[room].ownerId ==> Ownership.Owned(s', uid).At(table) == Ownership.Owned(s, uid).At(table)
    {
      RemovedRows(t, room, table);
      OwnedAfterRemoval(t, room, uid, table);
    }
    if uid != t.rooms[room].ownerId {
      RoundTrip.SameStore(Ownership.Owned(s', uid), Ownership.Owned(s, uid));
    }
  }
}
