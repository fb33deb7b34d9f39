/** The backup of one user: what it holds, how the backups of all users add up, and when it can be restored alone. */
module Ownership {
  import opened Wrappers
  import opened Listings
  import opened Rows
  import opened Imports
  import opened RoundTrip

  // ---------------------------------------------------------------- who owns a row

  /** The owner of the room that a cell names. */
  function RoomOwner(s: Store, cell: Cell): Option<string> {
    if cell.Text? && cell.s in s.rooms then
      var owner := CellOf(s.rooms[cell.s], OwnerId);
      if owner.Text? then Some(owner.s) else None
    else None
  }

  /** The owner of the device that a cell names. */
  function DeviceOwner(s: Store, cell: Cell): Option<string> {
    if cell.Text? && cell.s in s.devices then RoomOwner(s, CellOf(s.devices[cell.s], RoomId)) else None
  }

  function OwnerOf(s: Store, t: Table, k: string): Option<string> {
    match t
    case Users => if k in s.users then Some(k) else None
    case Rooms => RoomOwner(s, Text(k))
    case Groups => if k in s.groups then RoomOwner(s, CellOf(s.groups[k], RoomId)) else None
    case Devices => DeviceOwner(s, Text(k))
    case Events => if k in s.events then DeviceOwner(s, CellOf(s.events[k], DeviceId)) else None
    case ConfigPushes => if k in s.configPushes then DeviceOwner(s, CellOf(s.configPushes[k], DeviceId)) else None
    case Sessions => None
    case SystemConfig => None
  }

  function OwnedBy(s: Store, uid: string, t: Table): set<string> {
    set k | k in s.At(t) && OwnerOf(s, t, k) == Some(uid)
  }

  // ---------------------------------------------------------------- the joins of the user's queries

  predicate InOwnRoom(s: Store, uid: string, row: Row, r: string) {
    r in s.rooms && CellOf(row, RoomId) == Text(r) && CellOf(s.rooms[r], OwnerId) == Text(uid)
  }

  /** Rows joined with their room, restricted to the rooms of one owner. */
  function RoomJoin(s: Store, uid: string, t: Table): set<(string, string)> {
    set k, r | k in s.At(t) && r in s.rooms && InOwnRoom(s, uid, s.At(t)[k], r) :: (k, r)
  }

  /** Rows joined with their device and its room, restricted to the rooms of one owner. */
  function DeviceJoin(s: Store, uid: string, t: Table): set<(string, (string, string))> {
    set k, d, r | k in s.At(t) && d in s.devices && r in s.rooms && CellOf(s.At(t)[k], DeviceId) == Text(d)
                  && InOwnRoom(s, uid, s.devices[d], r) :: (k, (d, r))
  }

  function Firsts<B>(joined: seq<(string, B)>): (ks: seq<string>)
    ensures |ks| == |joined|
    ensures forall i :: 0 <= i < |ks| ==> ks[i] == joined[i].0
  {
    if joined == [] then [] else [joined[0].0] + Firsts(joined[1..])
  }

  /** When a row joins at most once, the joined rows are each row once. */
  lemma FirstsAreRows<B>(joined: seq<(string, B)>, joins: set<(string, B)>, rows: set<string>)
    requires Lists(joined, joins)
    requires forall a <- joins, b <- joins :: a.0 == b.0 ==> a == b
    requires forall a <- joins :: a.0 in rows
    requires forall k <- rows :: exists a <- joins :: a.0 == k
    ensures Lists(Firsts(joined), rows)
  {
    var ks := Firsts(joined);
    forall k | k in ks ensures k in rows {
      var i :| 0 <= i < |ks| && ks[i] == k;
      assert joined[i] in joins;
    }
    forall k | k in rows ensures k in ks {
      var a :| a in joins && a.0 == k;
      var i :| 0 <= i < |joined| && joined[i] == a;
      assert ks[i] == k;
    }
    forall i, j | 0 <= i < j < |ks| ensures ks[i] != ks[j] {
      assert joined[i] in joins && joined[j] in joins;
    }
  }

  /** The joined groups or devices of an owner are exactly the owned ones, with no duplicates. */
  lemma RoomJoinIsOwned(s: Store, uid: string, t: Table, joined: seq<(string, string)>)
    requires (t == Groups || t == Devices) && Lists(joined, RoomJoin(s, uid, t))
    ensures Lists(Firsts(joined), OwnedBy(s, uid, t))
  {
    forall k | k in OwnedBy(s, uid, t) ensures exists a <- RoomJoin(s, uid, t) :: a.0 == k {
      var r := CellOf(s.At(t)[k], RoomId).s;
      assert InOwnRoom(s, uid, s.At(t)[k], r);
      assert (k, r) in RoomJoin(s, uid, t);
    }
    hide Store.At, Lists;
    FirstsAreRows(joined, RoomJoin(s, uid, t), OwnedBy(s, uid, t));
  }

  /** The same for events and pushes, which join through their device. */
  lemma DeviceJoinIsOwned(s: Store, uid: string, t: Table, joined: seq<(string, (string, string))>)
    requires (t == Events || t == ConfigPushes) && Lists(joined, DeviceJoin(s, uid, t))
    ensures Lists(Firsts(joined), OwnedBy(s, uid, t))
  {
    forall k | k in OwnedBy(s, uid, t) ensures exists a <- DeviceJoin(s, uid, t) :: a.0 == k {
      var d := CellOf(s.At(t)[k], DeviceId).s;
      var r := CellOf(s.devices[d], RoomId).s;
      assert InOwnRoom(s, uid, s.devices[d], r);
      assert (k, (d, r)) in DeviceJoin(s, uid, t);
    }
    hide Store.At, Lists;
    FirstsAreRows(joined, DeviceJoin(s, uid, t), OwnedBy(s, uid, t));
  }

  // ---------------------------------------------------------------- the users' backups partition the full one

  predicate IsOwnable(t: Table) {
    t != Sessions && t != SystemConfig
  }

  /** The column refers to the parent and may not be NULL. */
  predicate Mandatory(t: Table, c: Column, parent: Table) {
    Parent(t, c) == Some(parent) && !Nullable(t, c) && c in ColumnsOf(t) && !IsInteger(c)
  }

  lemma RoomReferences()
    ensures Mandatory(Rooms, OwnerId, Users)
    ensures Mandatory(Groups, RoomId, Rooms)
    ensures Mandatory(Devices, RoomId, Rooms)
  {
  }

  lemma DeviceReferences()
    ensures Mandatory(Events, DeviceId, Devices)
    ensures Mandatory(ConfigPushes, DeviceId, Devices)
  {
  }

  lemma MandatoryReferences()
    ensures Mandatory(Rooms, OwnerId, Users) && Mandatory(Groups, RoomId, Rooms) && Mandatory(Devices, RoomId, Rooms)
    ensures Mandatory(Events, DeviceId, Devices) && Mandatory(ConfigPushes, DeviceId, Devices)
  {
    hide Mandatory;
    RoomReferences();
    DeviceReferences();
  }

  lemma ReferenceResolves(s: Store, t: Table, k: string, c: Column, parent: Table)
    requires Closed(s) && TypedTable(t, s.At(t)) && k in s.At(t) && Mandatory(t, c, parent)
    ensures CellOf(s.At(t)[k], c).Text? && CellOf(s.At(t)[k], c).s in s.At(parent)
  {
    var row := s.At(t)[k];
    assert TypedRow(t, k, row);
    hide ColumnsOf, Nullable, IsInteger, Parent, Store.At, Closed, TypedTable;
    assert c in row && row[c] != Null && Typed(c, row[c]);
    ClosedTable(s, t);
    assert RowResolves(s, t, row);
  }

  lemma SoundTable(s: Store, t: Table)
    requires Sound(s)
    ensures Closed(s) && TypedTable(t, s.At(t))
  {
    hide Closed, TypedTable, UniqueNames;
  }

  /** Every row of an ownable table has exactly one owner, and that owner is a user. */
  lemma EveryRowHasAnOwner(s: Store, t: Table, k: string)
    requires Sound(s) && IsOwnable(t) && k in s.At(t)
    ensures OwnerOf(s, t, k).Some? && OwnerOf(s, t, k).value in s.users
  {
    hide Sound, TypedTable, Closed, RoomOwner, DeviceOwner, CellOf;
    match t
    case Users =>
    case Rooms =>
      SoundTable(s, Rooms);
      RoomHasOwner(s, k);
    case Groups => GroupHasOwner(s, k);
    case Devices =>
      SoundTable(s, Rooms);
      SoundTable(s, Devices);
      DeviceHasOwner(s, k);
    case Events => LogHasOwner(s, Events, k);
    case ConfigPushes => LogHasOwner(s, ConfigPushes, k);
  }

  lemma GroupHasOwner(s: Store, g: string)
    requires Sound(s) && g in s.groups
    ensures var cell := CellOf(s.groups[g], RoomId); RoomOwner(s, cell).Some? && RoomOwner(s, cell).value in s.users
  {
    hide Sound, TypedTable, Closed, RoomOwner, CellOf, Mandatory;
    SoundTable(s, Rooms);
    SoundTable(s, Groups);
    MandatoryReferences();
    ReferenceResolves(s, Groups, g, RoomId, Rooms);
    RoomHasOwner(s, CellOf(s.groups[g], RoomId).s);
  }

  lemma LogHasOwner(s: Store, t: Table, k: string)
    requires Sound(s) && (t == Events || t == ConfigPushes) && k in s.At(t)
    ensures var cell := CellOf(s.At(t)[k], DeviceId);
            DeviceOwner(s, cell).Some? && DeviceOwner(s, cell).value in s.users
  {
    hide Sound, TypedTable, Closed, DeviceOwner, CellOf, Mandatory;
    SoundTable(s, Rooms);
    SoundTable(s, Devices);
    SoundTable(s, t);
    MandatoryReferences();
    ReferenceResolves(s, t, k, DeviceId, Devices);
    DeviceHasOwner(s, CellOf(s.At(t)[k], DeviceId).s);
  }

  lemma RoomHasOwner(s: Store, r: string)
    requires Closed(s) && TypedTable(Rooms, s.At(Rooms)) && r in s.rooms
    ensures CellOf(s.rooms[r], OwnerId).Text? && CellOf(s.rooms[r], OwnerId).s in s.users
    ensures RoomOwner(s, Text(r)) == Some(CellOf(s.rooms[r], OwnerId).s)
  {
    hide Closed, TypedTable, CellOf, Mandatory;
    MandatoryReferences();
    ReferenceResolves(s, Rooms, r, OwnerId, Users);
  }

  lemma DeviceHasOwner(s: Store, d: string)
    requires Closed(s) && TypedTable(Rooms, s.At(Rooms)) && TypedTable(Devices, s.At(Devices)) && d in s.devices
    ensures DeviceOwner(s, Text(d)).Some? && DeviceOwner(s, Text(d)).value in s.users
  {
    hide Closed, TypedTable, CellOf, RoomOwner, Mandatory;
    MandatoryReferences();
    ReferenceResolves(s, Devices, d, RoomId, Rooms);
    RoomHasOwner(s, CellOf(s.devices[d], RoomId).s);
  }

  function OwnedByAny(s: Store, users: seq<string>, t: Table): set<string> {
    if users == [] then {} else OwnedBy(s, users[0], t) + OwnedByAny(s, users[1..], t)
  }

  function RowsExported(s: Store, users: seq<string>, t: Table): nat {
    if users == [] then 0 else |OwnedBy(s, users[0], t)| + RowsExported(s, users[1..], t)
  }

  lemma {:induction false} OwnedByOne(s: Store, users: seq<string>, t: Table, k: string)
    ensures k in OwnedByAny(s, users, t)
            <==> k in s.At(t) && OwnerOf(s, t, k).Some? && OwnerOf(s, t, k).value in users
  {
    hide OwnerOf, Store.At;
    if users == [] {
    } else {
      OwnedByOne(s, users[1..], t, k);
      assert users == [users[0]] + users[1..];
    }
  }

  lemma {:induction false} ExportedCount(s: Store, users: seq<string>, t: Table)
    requires forall i, j :: 0 <= i < j < |users| ==> users[i] != users[j]
    ensures RowsExported(s, users, t) == |OwnedByAny(s, users, t)|
  {
    hide OwnerOf, Store.At;
    if users == [] {
    } else {
      ExportedCount(s, users[1..], t);
      forall k | k in OwnedBy(s, users[0], t) ensures k !in OwnedByAny(s, users[1..], t) {
        OwnedByOne(s, users[1..], t, k);
      }
      assert OwnedBy(s, users[0], t) !! OwnedByAny(s, users[1..], t);
    }
  }

  /**
   * The users' exports are a partition of every ownable table: no row is in two of them, every row is in one, and their
   * sizes add up to the table's.
   */
  lemma UserBackupsPartition(s: Store, users: seq<string>, t: Table)
    requires Sound(s) && IsOwnable(t) && Lists(users, s.users.Keys)
    ensures forall a, b :: a != b ==> OwnedBy(s, a, t) !! OwnedBy(s, b, t)
    ensures OwnedByAny(s, users, t) == s.At(t).Keys
    ensures RowsExported(s, users, t) == |s.At(t)|
  {
    ExportedCount(s, users, t);
    forall k ensures k in OwnedByAny(s, users, t) <==> k in s.At(t) {
      OwnedByOne(s, users, t, k);
      if k in s.At(t) { EveryRowHasAnOwner(s, t, k); }
    }
  }

  // ---------------------------------------------------------------- one owner's part of the database

  function Pick(rows: TableRows, ks: set<string>): TableRows {
    map k | k in rows && k in ks :: rows[k]
  }

  /** The rows of one owner, without sessions and settings. */
  function Owned(s: Store, uid: string): Store {
    Store(Pick(s.users, OwnedBy(s, uid, Users)), Pick(s.rooms, OwnedBy(s, uid, Rooms)),
          Pick(s.groups, OwnedBy(s, uid, Groups)),
          Pick(s.devices, OwnedBy(s, uid, Devices)), Pick(s.events, OwnedBy(s, uid, Events)),
          Pick(s.configPushes, OwnedBy(s, uid, ConfigPushes)), map[], map[])
  }

  lemma OwnedAt(s: Store, uid: string, t: Table)
    ensures Owned(s, uid).At(t) == Pick(s.At(t), OwnedBy(s, uid, t))
  {
    match t
    case Users => case Rooms => case Groups => case Devices =>
    case Events => case ConfigPushes => case Sessions => case SystemConfig =>
  }

  /** Every grouped device of the owner uses a group of the owner. */
  ghost predicate GroupsAtHome(s: Store, uid: string) {
    forall d <- s.devices :: OwnerOf(s, Devices, d) == Some(uid) && CellOf(s.devices[d], GroupId).Text? ==>
      OwnerOf(s, Groups, CellOf(s.devices[d], GroupId).s) == Some(uid)
  }

  /** Every grouped device uses a group of its own room. */
  ghost predicate GroupsInRoom(s: Store) {
    forall d <- s.devices :: CellOf(s.devices[d], GroupId).Text? ==>
      var g := CellOf(s.devices[d], GroupId).s;
      g in s.groups && CellOf(s.groups[g], RoomId) == CellOf(s.devices[d], RoomId)
  }

  lemma GroupsInRoomAreAtHome(s: Store, uid: string)
    requires GroupsInRoom(s)
    ensures GroupsAtHome(s, uid)
  {
  }

  /** A mandatory reference of an owned row leads to a row of the same owner. */
  lemma OwnedReference(s: Store, uid: string, t: Table, k: string, c: Column, parent: Table)
    requires Sound(s) && k in OwnedBy(s, uid, t) && Mandatory(t, c, parent) && IsOwnable(t)
    ensures CellOf(s.At(t)[k], c).Text? && CellOf(s.At(t)[k], c).s in OwnedBy(s, uid, parent)
  {
    hide Sound, Closed, TypedTable, CellOf;
    SoundTable(s, t);
    SoundTable(s, Rooms);
    ReferenceResolves(s, t, k, c, parent);
    var cell := CellOf(s.At(t)[k], c);
    assert cell == Text(cell.s);
    assert (t == Rooms && c == OwnerId) || (c == RoomId && (t == Groups || t == Devices))
           || (c == DeviceId && (t == Events || t == ConfigPushes));
    hide Mandatory;
    match t
    case Rooms => RoomHasOwner(s, k);
    case Groups => hide RoomOwner;
    case Devices => hide RoomOwner;
    case Events => hide DeviceOwner;
    case ConfigPushes => hide DeviceOwner;
  }

  lemma ReferencesOf(t: Table, c: Column)
    ensures Parent(t, c).Some? && IsOwnable(t) ==> Mandatory(t, c, Parent(t, c).value) || (t == Devices && c == GroupId)
    ensures Parent(Devices, GroupId) == Some(Groups)
  {
  }

  lemma OwnedRowResolves(s: Store, uid: string, t: Table, k: string)
    requires Sound(s) && IsOwnable(t) && k in OwnedBy(s, uid, t)
    requires t == Devices && CellOf(s.devices[k], GroupId).Text?
             ==> CellOf(s.devices[k], GroupId).s in OwnedBy(s, uid, Groups)
    ensures RowResolves(Owned(s, uid), t, s.At(t)[k])
  {
    hide Sound, Owned, OwnerOf, Parent, Mandatory;
    var row := s.At(t)[k];
    forall c | c in row && Parent(t, c).Some? ensures Resolves(Owned(s, uid), Parent(t, c).value, row[c]) {
      var parent := Parent(t, c).value;
      OwnedAt(s, uid, parent);
      ReferencesOf(t, c);
      if Mandatory(t, c, parent) {
        OwnedReference(s, uid, t, k, c, parent);
      }
    }
  }

  /** The owner's part is closed under all references exactly when the owner's devices use the owner's groups. */
  lemma OwnedIsClosed(s: Store, uid: string)
    requires Sound(s)
    ensures Closed(Owned(s, uid)) <==> GroupsAtHome(s, uid)
  {
    hide Sound, Closed;
    var part := Owned(s, uid);
    if GroupsAtHome(s, uid) {
      forall t: Table ensures TableResolves(part, t) {
        OwnedTableResolves(s, uid, t);
      }
      EveryTable(part);
    }
    if Closed(part) {
      ClosedTable(part, Devices);
      forall d | d in s.devices && OwnerOf(s, Devices, d) == Some(uid) && CellOf(s.devices[d], GroupId).Text?
        ensures OwnerOf(s, Groups, CellOf(s.devices[d], GroupId).s) == Some(uid)
      {
        GroupOfOwned(s, uid, d);
      }
    }
  }

  lemma OwnedTableResolves(s: Store, uid: string, t: Table)
    requires Sound(s) && GroupsAtHome(s, uid)
    ensures TableResolves(Owned(s, uid), t)
  {
    hide Sound, Closed;
    OwnedAt(s, uid, t);
    var part := Owned(s, uid);
    forall k | k in part.At(t) ensures RowResolves(part, t, part.At(t)[k]) {
      assert k in OwnedBy(s, uid, t) && IsOwnable(t);
      if t == Devices && CellOf(s.devices[k], GroupId).Text? { GroupIsThere(s, uid, k); }
      hide Owned, OwnerOf, RowResolves;
      OwnedRowResolves(s, uid, t, k);
    }
  }

  lemma GroupIsThere(s: Store, uid: string, d: string)
    requires Sound(s) && GroupsAtHome(s, uid) && d in OwnedBy(s, uid, Devices) && CellOf(s.devices[d], GroupId).Text?
    ensures CellOf(s.devices[d], GroupId).s in OwnedBy(s, uid, Groups)
  {
    hide Sound;
    assert OwnerOf(s, Devices, d) == Some(uid);
    var cell := CellOf(s.devices[d], GroupId);
    assert OwnerOf(s, Groups, cell.s) == Some(uid);
    hide GroupsAtHome, RoomOwner, DeviceOwner;
  }

  lemma GroupOfOwned(s: Store, uid: string, d: string)
    requires TableResolves(Owned(s, uid), Devices) && d in OwnedBy(s, uid, Devices)
             && CellOf(s.devices[d], GroupId).Text?
    ensures OwnerOf(s, Groups, CellOf(s.devices[d], GroupId).s) == Some(uid)
  {
    var part := Owned(s, uid);
    OwnedAt(s, uid, Devices);
    OwnedAt(s, uid, Groups);
    hide Owned, OwnerOf;
    assert d in part.At(Devices) && part.At(Devices)[d] == s.devices[d];
    assert RowResolves(part, Devices, s.devices[d]);
    assert GroupId in s.devices[d] && Resolves(part, Groups, s.devices[d][GroupId]);
  }

  lemma OwnedIsSound(s: Store, uid: string)
    requires Sound(s) && GroupsAtHome(s, uid)
    ensures Sound(Owned(s, uid))
  {
    OwnedIsClosed(s, uid);
    var part := Owned(s, uid);
    forall t: Table ensures TypedTable(t, part.At(t)) {
      assert TypedTable(t, s.At(t));
      OwnedAt(s, uid, t);
      hide TypedRow, OwnerOf, Owned;
    }
    hide Closed, TypedTable, OwnerOf;
  }

  // ---------------------------------------------------------------- restoring one owner's backup

  /** The order in which the user's queries return their rows; no settings are exported. */
  ghost predicate CoversOwner(o: Order, s: Store, uid: string) {
    o.systemConfig == [] && forall t: Table :: IsOwnable(t) ==> Lists(o.Of(t), OwnedBy(s, uid, t))
  }

  lemma {:induction false} PickExports(rows: TableRows, ks: seq<string>, owned: set<string>)
    requires forall k <- ks :: k in owned
    ensures ExportRows(Pick(rows, owned), ks) == ExportRows(rows, ks)
  {
    hide ExportRow;
    if ks == [] {
    } else {
      PickExports(rows, ks[..|ks| - 1], owned);
    }
  }

  /** A user's export is the full export of the user's part. */
  lemma UserExportIsFullExport(s: Store, uid: string, o: Order)
    requires CoversOwner(o, s, uid)
    ensures Export(s, o) == Export(Owned(s, uid), o)
  {
    forall t: Table | IsOwnable(t) ensures Export(s, o).Of(t) == Export(Owned(s, uid), o).Of(t) {
      assert Lists(o.Of(t), OwnedBy(s, uid, t));
      OwnedAt(s, uid, t);
      ExportOf(s, o, t);
      ExportOf(Owned(s, uid), o, t);
      PickExports(s.At(t), o.Of(t), OwnedBy(s, uid, t));
    }
    hide Owned;
    SameBackup(Export(s, o), Export(Owned(s, uid), o));
  }

  lemma SameBackup(a: Backup, b: Backup)
    requires (forall t: Table :: IsOwnable(t) ==> a.Of(t) == b.Of(t)) && a.systemConfig == b.systemConfig
    ensures a == b
  {
    assert a.Of(Users) == b.Of(Users) && a.Of(Rooms) == b.Of(Rooms) && a.Of(Groups) == b.Of(Groups);
    assert a.Of(Devices) == b.Of(Devices) && a.Of(Events) == b.Of(Events) && a.Of(ConfigPushes) == b.Of(ConfigPushes);
  }

  lemma OwnerOrderCovers(s: Store, uid: string, o: Order)
    requires CoversOwner(o, s, uid)
    ensures o.Covers(Owned(s, uid))
  {
    forall t: Table | t != Sessions ensures Lists(o.Of(t), Owned(s, uid).At(t).Keys) {
      OwnedAt(s, uid, t);
      if IsOwnable(t) {
        assert Pick(s.At(t), OwnedBy(s, uid, t)).Keys == OwnedBy(s, uid, t);
      } else {
        assert Owned(s, uid).At(t).Keys == {};
      }
    }
  }

  /**
   * The backup of an owner whose devices use the owner's own groups, imported with overwrite into any database whose
   * references resolve, commits and leaves exactly that owner's part, every row reported as imported.
   */
  lemma UserBackupRestores(numeric: string -> Cell, s: Store, uid: string, o: Order, target: Store)
    requires Sound(s) && GroupsAtHome(s, uid) && CoversOwner(o, s, uid) && Closed(target)
    ensures var data := Export(s, o);
            && data.AllKeyed(numeric)
            && Import(numeric, target, data, true).Loaded?
            && Import(numeric, target, data, true).store == Owned(s, uid)
            && FullReports(Owned(s, uid), LOAD_ORDER, Import(numeric, target, data, true).reports)
  {
    UserExportIsFullExport(s, uid, o);
    OwnedIsSound(s, uid);
    OwnerOrderCovers(s, uid, o);
    assert Owned(s, uid).(sessions := map[]) == Owned(s, uid);
    hide Sound, GroupsAtHome, CoversOwner, Closed, Export, Import, Order.Covers, Owned, FullReports, Backup.AllKeyed;
    BackupRoundTrip(numeric, Owned(s, uid), o, target);
  }
}
