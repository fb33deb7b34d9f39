/** Exactly when the backup of one user can be restored on its own. */
module UserRestore {
  import opened Wrappers
  import opened Listings
  import opened Rows
  import opened Imports
  import opened Merges
  import opened RoundTrip
  import opened Ownership

  /** The database without its devices and what refers to them. */
  function Deviceless(s: Store): Store {
    s.(devices := map[], events := map[], configPushes := map[])
  }

  function DevicelessOrder(o: Order): Order {
    o.(devices := [], events := [], configPushes := [])
  }

  const BEFORE_DEVICES: seq<Table> := [Users, Rooms, Groups]

  lemma DevicelessIsSound(s: Store)
    requires Sound(s)
    ensures Sound(Deviceless(s))
  {
    var s' := Deviceless(s);
    forall t: Table ensures TypedTable(t, s'.At(t)) && TableResolves(s', t) {
      SoundTable(s, t);
      ClosedTable(s, t);
      if t != Devices && t != Events && t != ConfigPushes {
        assert s'.At(t) == s.At(t);
        forall k | k in s'.At(t) ensures RowResolves(s', t, s'.At(t)[k]) {
          OtherRowResolves(s, t, s.At(t)[k]);
        }
      } else {
        assert s'.At(t) == map[];
      }
    }
    EveryTable(s');
    assert UniqueNames(s.users);
    hide Closed, TypedTable, UniqueNames;
  }

  lemma OtherRowResolves(s: Store, t: Table, row: Row)
    requires t != Devices && t != Events && t != ConfigPushes && RowResolves(s, t, row)
    ensures RowResolves(Deviceless(s), t, row)
  {
    forall c | c in row && Parent(t, c).Some?
      ensures Resolves(Deviceless(s), Parent(t, c).value, row[c])
    {
      assert Parent(t, c).value != Devices && Parent(t, c).value != Events && Parent(t, c).value != ConfigPushes;
      assert Resolves(s, Parent(t, c).value, row[c]);
    }
  }

  lemma {:induction false} SameLoads(numeric: string -> Cell, s: Store, a: Backup, b: Backup, tables: seq<Table>)
    requires a.AllKeyed(numeric) && b.AllKeyed(numeric)
    requires forall t <- tables :: a.Of(t) == b.Of(t)
    ensures LoadTables(numeric, s, a, tables, true) == LoadTables(numeric, s, b, tables, true)
  {
    hide Keyed, LoadTable, Backup.Of;
    if tables == [] {
    } else {
      var n := |tables| - 1;
      assert tables == tables[..n] + [tables[n]];
      SameLoads(numeric, s, a, b, tables[..n]);
    }
  }

  /** The first three tables of the backup load, and hold the owner's rows. */
  lemma FirstTablesLoad(numeric: string -> Cell, s: Store, uid: string, o: Order)
    requires Sound(s) && CoversOwner(o, s, uid) && Export(s, o).AllKeyed(numeric)
    ensures var l := LoadTables(numeric, BLANK, Export(s, o), BEFORE_DEVICES, true);
            && l.Loaded? && Closed(l.store) && l.store.groups == Pick(s.groups, OwnedBy(s, uid, Groups))
  {
    var s', o' := Deviceless(s), DevicelessOrder(o);
    DevicelessIsSound(s);
    assert GroupsAtHome(s', uid);
    OwnedIsSound(s', uid);
    DevicelessOrderCovers(s, uid, o);
    UserExportIsFullExport(s', uid, o');
    OwnerOrderCovers(s', uid, o');
    hide Sound, GroupsAtHome, CoversOwner, Closed, Order.Covers, Owned, Backup.AllKeyed, LoadTables, Upto;
    ExportIsAllKeyed(numeric, Owned(s', uid), o');
    DevicelessExport(s, o);
    FirstTablesInOrder();
    hide ParentsFirst, DistinctTables, Export;
    SameLoads(numeric, BLANK, Export(s, o), Export(s', o'), BEFORE_DEVICES);
    LoadRestores(numeric, Owned(s', uid), o', BEFORE_DEVICES);
    UptoAt(Owned(s', uid), BEFORE_DEVICES, Groups);
    OwnedAt(s', uid, Groups);
    assert OwnedBy(s', uid, Groups) == OwnedBy(s, uid, Groups);
    assert BEFORE_DEVICES[2] == Groups;
  }

  lemma FirstTablesInOrder()
    ensures ParentsFirst(BEFORE_DEVICES) && DistinctTables(BEFORE_DEVICES) && Sessions !in BEFORE_DEVICES
  {
    forall i, c: Column | 0 <= i < 3 && Parent(BEFORE_DEVICES[i], c).Some?
      ensures Parent(BEFORE_DEVICES[i], c).value in BEFORE_DEVICES[..i]
    {
      var j := match Parent(BEFORE_DEVICES[i], c).value case Users => 0 case _ => 1;
      assert BEFORE_DEVICES[..i][j] == Parent(BEFORE_DEVICES[i], c).value;
    }
  }

  lemma DevicelessOrderCovers(s: Store, uid: string, o: Order)
    requires CoversOwner(o, s, uid)
    ensures CoversOwner(DevicelessOrder(o), Deviceless(s), uid)
  {
    var s', o' := Deviceless(s), DevicelessOrder(o);
    forall t: Table | IsOwnable(t) ensures Lists(o'.Of(t), OwnedBy(s', uid, t)) {
      assert Lists(o.Of(t), OwnedBy(s, uid, t));
      if t == Users || t == Rooms || t == Groups {
        assert OwnedBy(s', uid, t) == OwnedBy(s, uid, t) && o'.Of(t) == o.Of(t);
      } else {
        assert OwnedBy(s', uid, t) == {} && o'.Of(t) == [];
      }
    }
  }

  lemma DevicelessExport(s: Store, o: Order)
    ensures forall t <- BEFORE_DEVICES :: Export(s, o).Of(t) == Export(Deviceless(s), DevicelessOrder(o)).Of(t)
  {
    hide ExportRows;
  }

  /** A device whose group is missing is not storable. */
  lemma StrayDevice(numeric: string -> Cell, s: Store, mid: Store, d: string, ks: seq<string>)
    requires Sound(s) && d in s.devices && d in ks
    requires CellOf(s.devices[d], GroupId).Text? && CellOf(s.devices[d], GroupId).s !in mid.groups
    ensures !AllStorable(numeric, mid, Devices, ExportRows(s.devices, ks))
  {
    hide Sound, TypedRow, RowResolves, ExportRow, BoundRow, Completed, ExportRows, ItemKey;
    var row := s.devices[d];
    TypedRowOf(s, Devices, d);
    RowRoundTrip(numeric, Devices, d, row);
    StrayRow(mid, d, row);
    ExportHas(s.devices, ks, d);
    assert !Storable(numeric, mid, Devices, ExportRow(row));
  }

  lemma TypedRowOf(s: Store, t: Table, k: string)
    requires Sound(s) && k in s.At(t)
    ensures TypedRow(t, k, s.At(t)[k])
  {
    hide Sound, TypedRow, Store.At;
    SoundTable(s, t);
  }

  lemma StrayRow(mid: Store, d: string, row: Row)
    requires CellOf(row, GroupId).Text? && CellOf(row, GroupId).s !in mid.groups
    ensures !RowResolves(mid, Devices, row)
  {
    ReferencesOf(Devices, GroupId);
    hide Parent;
    assert GroupId in row && !Resolves(mid, Groups, row[GroupId]);
  }

  lemma {:induction false} ExportHas(rows: TableRows, ks: seq<string>, k: string)
    requires k in rows && k in ks
    ensures ExportRow(rows[k]) in ExportRows(rows, ks)
  {
    hide ExportRow;
    var n := |ks| - 1;
    var front := ks[..n];
    assert ks == front + [ks[n]];
    if ks[n] != k {
      ExportHas(rows, front, k);
    }
  }

  /** Its import fails once the groups of the owner are all there are. */
  lemma StrayFails(numeric: string -> Cell, s: Store, mid: Store, d: string, ks: seq<string>)
    requires Sound(s) && Closed(mid) && d in s.devices && d in ks
    requires CellOf(s.devices[d], GroupId).Text? && CellOf(s.devices[d], GroupId).s !in mid.groups
    requires Keyed(numeric, Devices, ExportRows(s.devices, ks))
    ensures ImportItems(numeric, mid, Devices, ExportRows(s.devices, ks), true).Failed?
  {
    hide Sound, Closed, Keyed, AllStorable, LastWins, ExportRows, ImportItems, CellOf;
    StrayDevice(numeric, s, mid, d, ks);
    OverwriteIsLastWins(numeric, mid, Devices, ExportRows(s.devices, ks));
  }

  lemma StrayBreaks(numeric: string -> Cell, s: Store, uid: string, o: Order, d: string)
    requires Sound(s) && CoversOwner(o, s, uid) && Export(s, o).AllKeyed(numeric)
    requires d in OwnedBy(s, uid, Devices) && CellOf(s.devices[d], GroupId).Text?
    requires CellOf(s.devices[d], GroupId).s !in OwnedBy(s, uid, Groups)
    ensures LoadTables(numeric, BLANK, Export(s, o), LOAD_ORDER, true).Broken?
  {
    var data := Export(s, o);
    hide Sound, CoversOwner, Closed, Export, Keyed, LoadTables, ImportItems, Backup.Of, Order.Of, CellOf, Pick;
    ExportedDevices(numeric, s, uid, o);
    DevicesAreFourth();
    FirstTablesLoad(numeric, s, uid, o);
    var mid := LoadTables(numeric, BLANK, data, BEFORE_DEVICES, true).store;
    NotPicked(s, uid, CellOf(s.devices[d], GroupId).s);
    hide OwnedBy;
    StrayFails(numeric, s, mid, d, o.devices);
    LoadOneMore(numeric, BLANK, data, BEFORE_DEVICES, Devices, true);
    BrokenStays(numeric, BLANK, data, LOAD_ORDER, 4, true);
  }

  lemma NotPicked(s: Store, uid: string, g: string)
    ensures g in Pick(s.groups, OwnedBy(s, uid, Groups)) <==> g in OwnedBy(s, uid, Groups)
  {
    hide OwnerOf;
  }

  lemma ExportedDevices(numeric: string -> Cell, s: Store, uid: string, o: Order)
    requires CoversOwner(o, s, uid) && Export(s, o).AllKeyed(numeric)
    ensures Export(s, o).Of(Devices) == ExportRows(s.devices, o.devices)
            && Keyed(numeric, Devices, ExportRows(s.devices, o.devices))
    ensures forall d <- OwnedBy(s, uid, Devices) :: d in s.devices && d in o.devices
  {
    assert Lists(o.Of(Devices), OwnedBy(s, uid, Devices));
    assert Keyed(numeric, Devices, Export(s, o).Of(Devices));
  }

  lemma DevicesAreFourth()
    ensures |LOAD_ORDER| == 7 && LOAD_ORDER[..4] == BEFORE_DEVICES + [Devices]
  {
  }

  lemma UserExportIsKeyed(numeric: string -> Cell, s: Store, uid: string, o: Order)
    requires Sound(s) && CoversOwner(o, s, uid)
    ensures Export(s, o).AllKeyed(numeric)
  {
    hide Sound, ExportRows, Export;
    forall t: Table ensures Keyed(numeric, t, Export(s, o).Of(t)) {
      ExportOf(s, o, t);
      if IsOwnable(t) {
        assert Lists(o.Of(t), OwnedBy(s, uid, t));
        SoundTable(s, t);
        ExportIsKeyed(numeric, t, s.At(t), o.Of(t));
      } else if t == SystemConfig {
        SoundTable(s, t);
        ExportIsKeyed(numeric, t, s.At(t), []);
      }
    }
  }

  /**
   * A user's backup restores on its own exactly when the user's devices use the user's groups; then what is restored is
   * exactly the user's part of the database.
   */
  lemma UserBackupRestoresIff(numeric: string -> Cell, s: Store, uid: string, o: Order, target: Store)
    requires Sound(s) && CoversOwner(o, s, uid) && Closed(target)
    ensures Export(s, o).AllKeyed(numeric)
    ensures var l := Import(numeric, target, Export(s, o), true);
            && (l.Loaded? <==> GroupsAtHome(s, uid))
            && (l.Loaded? ==> l.store == Owned(s, uid))
  {
    UserExportIsKeyed(numeric, s, uid, o);
    hide Import, Closed;
    if GroupsAtHome(s, uid) {
      hide Sound, CoversOwner, OwnerOf, Export, Owned, Backup.AllKeyed, FullReports;
      UserBackupRestores(numeric, s, uid, o, target);
    } else {
      var d :| d in s.devices && OwnerOf(s, Devices, d) == Some(uid) && CellOf(s.devices[d], GroupId).Text?
               && OwnerOf(s, Groups, CellOf(s.devices[d], GroupId).s) != Some(uid);
      assert d in OwnedBy(s, uid, Devices);
      StrayBreaks(numeric, s, uid, o, d);
      hide Sound, CoversOwner, Closed, Export, OwnerOf, Backup.AllKeyed, LoadTables;
      ImportLoadsBlank(numeric, target, Export(s, o));
    }
  }

  lemma ImportLoadsBlank(numeric: string -> Cell, target: Store, data: Backup)
    requires Closed(target) && data.AllKeyed(numeric)
    ensures Import(numeric, target, data, true) == LoadTables(numeric, BLANK, data, LOAD_ORDER, true)
  {
    OrdersAreOrders();
    hide Closed, Backup.AllKeyed, LoadTables, ChildrenFirst, ParentsFirst, DistinctTables, Emptied, Clear;
    ClearNeverDangles(target, CLEAR_ORDER);
    AllEmptied(target);
  }
}
