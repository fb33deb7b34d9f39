/** The backup operations of the database object: exports as queries, imports as transactions. */
module BackupDatabases {
  import opened Wrappers
  import opened Listings
  import opened Rows
  import Imports
  import opened RoundTrip
  import opened Ownership

  class BackupDatabase {
    var store: Store
    /** What INTEGER affinity makes of a text. */
    const numeric: string -> Cell

    constructor (store: Store, numeric: string -> Cell)
      ensures this.store == store && this.numeric == numeric
    {
      this.store := store;
      this.numeric := numeric;
    }

    // -------------------------------------------------------------- exports

    /** Turns rows into JSON objects, column by column. */
    method ExportQuery(rows: seq<Row>) returns (items: seq<Item>)
      ensures |items| == |rows|
      ensures forall i :: 0 <= i < |rows| ==> items[i] == ExportRow(rows[i])
    {
      items := [];
      for i := 0 to |rows|
        invariant |items| == i
        invariant forall j :: 0 <= j < i ==> items[j] == ExportRow(rows[j])
      {
        var fields: map<Column, Json> := map[];
        var rest := rows[i].Keys;
        while rest != {}
          invariant rest <= rows[i].Keys && fields.Keys == rows[i].Keys - rest
          invariant forall c <- fields :: fields[c] == ExportCell(rows[i][c])
          decreases rest
        {
          var c :| c in rest;
          fields := fields[c := ExportCell(rows[i][c])];
          rest := rest - {c};
        }
        items := items + [Object(fields)];
      }
    }

    /** The rows of a table with the given keys, as JSON objects. */
    method ExportKeys(t: Table, ks: seq<string>) returns (items: seq<Item>)
      requires forall k <- ks :: k in store.At(t)
      ensures items == ExportRows(store.At(t), ks)
    {
      var rows := store.At(t);
      assert forall i :: 0 <= i < |ks| ==> ks[i] in ks && ks[i] in rows;
      items := ExportQuery(seq(|ks|, i requires 0 <= i < |ks| && ks[i] in rows => rows[ks[i]]));
      ExportedInOrder(rows, ks, items);
    }

    /** SELECT * of a table, in whatever order it comes. */
    method ExportTable(t: Table) returns (items: seq<Item>, ghost ks: seq<string>)
      ensures Lists(ks, store.At(t).Keys) && items == ExportRows(store.At(t), ks)
    {
      var keys := Enumerate(store.At(t).Keys);
      ks := keys;
      items := ExportKeys(t, keys);
    }

    method ExportBackup() returns (data: Backup)
      ensures exists o: Order :: o.Covers(store) && data == Export(store, o)
    {
      hide Lists, ExportRows;
      var users, users' := ExportTable(Users);
      var rooms, rooms' := ExportTable(Rooms);
      var groups, groups' := ExportTable(Groups);
      var devices, devices' := ExportTable(Devices);
      var events, events' := ExportTable(Events);
      var pushes, pushes' := ExportTable(ConfigPushes);
      var settings, settings' := ExportTable(SystemConfig);
      data := Backup(users, rooms, groups, devices, events, pushes, settings);
      ghost var o := Order(users', rooms', groups', devices', events', pushes', settings');
      AllCovered(store, o);
      hide Order.Covers;
      assert o.Covers(store) && data == Export(store, o);
    }

    /** SELECT t.* ... JOIN rooms ... WHERE owner_id. */
    method ExportByRoom(t: Table, uid: string) returns (items: seq<Item>, ghost ks: seq<string>)
      requires t == Groups || t == Devices
      ensures Lists(ks, OwnedBy(store, uid, t)) && items == ExportRows(store.At(t), ks)
    {
      var joined := Enumerate(RoomJoin(store, uid, t));
      RoomJoinIsOwned(store, uid, t, joined);
      var keys := Firsts(joined);
      ks := keys;
      items := ExportKeys(t, keys);
    }

    /** SELECT t.* ... JOIN devices ... JOIN rooms ... WHERE owner_id. */
    method ExportByDevice(t: Table, uid: string) returns (items: seq<Item>, ghost ks: seq<string>)
      requires t == Events || t == ConfigPushes
      ensures Lists(ks, OwnedBy(store, uid, t)) && items == ExportRows(store.At(t), ks)
    {
      var joined := Enumerate(DeviceJoin(store, uid, t));
      DeviceJoinIsOwned(store, uid, t, joined);
      var keys := Firsts(joined);
      ks := keys;
      items := ExportKeys(t, keys);
    }

    method ExportUserBackup(uid: string) returns (data: Backup)
      ensures exists o: Order :: CoversOwner(o, store, uid) && data == Export(store, o)
    {
      hide ExportRows, OwnedBy;
      var users' := Enumerate(set k | k in store.users && k == uid);
      var users := ExportKeys(Users, users');
      var rooms' := Enumerate(set k | k in store.rooms && CellOf(store.rooms[k], OwnerId) == Text(uid));
      var rooms := ExportKeys(Rooms, rooms');
      DirectlyOwned(store, uid);
      hide Lists;
      var groups, groups' := ExportByRoom(Groups, uid);
      var devices, devices' := ExportByRoom(Devices, uid);
      var events, events' := ExportByDevice(Events, uid);
      var pushes, pushes' := ExportByDevice(ConfigPushes, uid);
      data := Backup(users, rooms, groups, devices, events, pushes, []);
      ghost var o := Order(users', rooms', groups', devices', events', pushes', []);
      OwnerCovered(store, uid, o);
      hide CoversOwner;
      assert CoversOwner(o, store, uid) && data == Export(store, o);
    }

    // -------------------------------------------------------------- imports

    /** Inserts the rows one by one; the administrator's row is passed over in a merge. `None` is a failed statement. */
    method ImportRows(t: Table, items: seq<Item>, overwrite: bool) returns (report: Option<TableReport>)
      requires Keyed(numeric, t, items)
      modifies this
      ensures match ImportItems(numeric, old(store), t, items, overwrite)
              case Failed => report.None?
              case Progress(s, imported, skipped) =>
                store == s && report == Some(TableReport(t, |items|, imported, skipped))
    {
      hide Insert, Skips, ItemKey;
      var imported, skipped := 0, 0;
      ghost var start := store;
      for i := 0 to |items|
        invariant ImportItems(numeric, start, t, items[..i], overwrite) == Progress(store, imported, skipped)
      {
        KeyedPrefix(numeric, t, items, i);
        assert items[..i + 1] == items[..i] + [items[i]];
        Imports.KeyedStep(numeric, t, items[..i], items[i]);
        ImportOneMore(numeric, start, t, items[..i], items[i], overwrite);
        if !items[i].Object? || Skips(t, items[i], overwrite) {
          skipped := skipped + 1;
        } else {
          match Insert(numeric, store, t, items[i], overwrite) {
            case Error =>
              FailedStays(numeric, start, t, items, i + 1, overwrite);
              return None;
            case Ignored => skipped := skipped + 1;
            case Inserted(next) =>
              store := next;
              imported := imported + 1;
          }
        }
      }
      assert items[..|items|] == items;
      return Some(TableReport(t, |items|, imported, skipped));
    }

    /** DELETE FROM each table in turn. */
    method ClearTables() returns (ok: bool)
      modifies this
      ensures ok <==> Clear(old(store), CLEAR_ORDER).Some?
      ensures ok ==> store == Clear(old(store), CLEAR_ORDER).value
    {
      ghost var start := store;
      var tables := CLEAR_ORDER;
      for i := 0 to |tables|
        invariant Clear(start, tables[..i]) == Some(store)
      {
        assert tables[..i + 1][..i] == tables[..i];
        var next := store.With(tables[i], map[]);
        if !Closed(next) {
          ClearFails(start, tables, i + 1);
          return false;
        }
        store := next;
      }
      assert tables[..|tables|] == tables;
      return true;
    }

    /** The next table of the load, unless one before it failed. */
    method Load(data: Backup, i: nat, overwrite: bool, reports: Option<seq<TableReport>>, ghost start: Store)
      returns (next: Option<seq<TableReport>>)
      requires data.AllKeyed(numeric) && i < |LOAD_ORDER|
      requires Reached(start, data, i, overwrite, reports)
      modifies this
      ensures Reached(start, data, i + 1, overwrite, next)
    {
      LoadOneMore(numeric, start, data, LOAD_ORDER[..i], LOAD_ORDER[i], overwrite);
      assert LOAD_ORDER[..i + 1] == LOAD_ORDER[..i] + [LOAD_ORDER[i]];
      assert Keyed(numeric, LOAD_ORDER[i], data.Of(LOAD_ORDER[i]));
      hide ImportItems, LoadTables, Keyed;
      if reports.None? { return None; }
      var report := ImportRows(LOAD_ORDER[i], data.Of(LOAD_ORDER[i]), overwrite);
      return if report.None? then None else Some(reports.value + [report.value]);
    }

    /** The state after loading the first `i` tables. */
    ghost predicate Reached(start: Store, data: Backup, i: nat, overwrite: bool, reports: Option<seq<TableReport>>)
      requires data.AllKeyed(numeric) && i <= |LOAD_ORDER|
      reads this
    {
      match LoadTables(numeric, start, data, LOAD_ORDER[..i], overwrite)
      case Broken => reports.None?
      case Loaded(s, done) => store == s && reports == Some(done)
    }

    /** A whole import in one transaction: `None` is a rollback to the state before it. */
    method ImportBackup(data: Backup, overwrite: bool) returns (reports: Option<seq<TableReport>>)
      requires data.AllKeyed(numeric)
      modifies this
      ensures match Import(numeric, old(store), data, overwrite)
              case Broken => reports.None? && store == old(store)
              case Loaded(s, done) => store == s && reports == Some(done)
    {
      hide LoadTables, Clear;
      var saved := store;
      if overwrite {
        var ok := ClearTables();
        if !ok {
          store := saved;
          return None;
        }
      }
      ghost var start := store;
      NothingLoaded(numeric, start, data, overwrite);
      reports := Some([]);
      reports := Load(data, 0, overwrite, reports, start);
      reports := Load(data, 1, overwrite, reports, start);
      reports := Load(data, 2, overwrite, reports, start);
      reports := Load(data, 3, overwrite, reports, start);
      reports := Load(data, 4, overwrite, reports, start);
      reports := Load(data, 5, overwrite, reports, start);
      reports := Load(data, 6, overwrite, reports, start);
      assert LOAD_ORDER[..7] == LOAD_ORDER;
      if reports.None? { store := saved; }
    }
  }

  // ---------------------------------------------------------------- steps of the methods

  lemma {:induction false} ExportedInOrder(rows: TableRows, ks: seq<string>, items: seq<Item>)
    requires |items| == |ks| && forall i :: 0 <= i < |ks| ==> ks[i] in rows && items[i] == ExportRow(rows[ks[i]])
    ensures items == ExportRows(rows, ks)
  {
    hide ExportRow;
    if ks == [] {
    } else {
      var n := |ks| - 1;
      ExportedInOrder(rows, ks[..n], items[..n]);
      assert items == items[..n] + [items[n]];
    }
  }

  lemma AllCovered(s: Store, o: Order)
    requires Lists(o.users, s.users.Keys) && Lists(o.rooms, s.rooms.Keys) && Lists(o.groups, s.groups.Keys)
    requires Lists(o.devices, s.devices.Keys) && Lists(o.events, s.events.Keys)
    requires Lists(o.configPushes, s.configPushes.Keys) && Lists(o.systemConfig, s.systemConfig.Keys)
    ensures o.Covers(s)
  {
    hide Lists;
  }

  lemma OwnerCovered(s: Store, uid: string, o: Order)
    requires Lists(o.users, OwnedBy(s, uid, Users)) && Lists(o.rooms, OwnedBy(s, uid, Rooms))
    requires Lists(o.groups, OwnedBy(s, uid, Groups)) && Lists(o.devices, OwnedBy(s, uid, Devices))
    requires Lists(o.events, OwnedBy(s, uid, Events)) && Lists(o.configPushes, OwnedBy(s, uid, ConfigPushes))
    requires o.systemConfig == []
    ensures CoversOwner(o, s, uid)
  {
    hide Lists, OwnedBy;
  }

  /** The two queries without a join. */
  lemma DirectlyOwned(s: Store, uid: string)
    ensures (set k | k in s.users && k == uid) == OwnedBy(s, uid, Users)
    ensures (set k | k in s.rooms && CellOf(s.rooms[k], OwnerId) == Text(uid)) == OwnedBy(s, uid, Rooms)
  {
  }

  lemma KeyedPrefix(numeric: string -> Cell, t: Table, items: seq<Item>, i: nat)
    requires Keyed(numeric, t, items) && i < |items|
    ensures Keyed(numeric, t, items[..i]) && Keyed(numeric, t, items[..i + 1])
  {
    hide ItemKey;
  }

  lemma {:induction false} FailedStays(numeric: string -> Cell, s: Store, t: Table, items: seq<Item>, i: nat,
                                       overwrite: bool)
    requires Keyed(numeric, t, items) && i <= |items| && Keyed(numeric, t, items[..i])
    requires ImportItems(numeric, s, t, items[..i], overwrite).Failed?
    ensures ImportItems(numeric, s, t, items, overwrite).Failed?
    decreases |items|
  {
    hide ItemKey, Insert, Skips;
    if i == |items| {
      assert items[..i] == items;
    } else {
      var n := |items| - 1;
      assert items[..n][..i] == items[..i];
      KeyedPrefix(numeric, t, items, n);
      FailedStays(numeric, s, t, items[..n], i, overwrite);
    }
  }

  lemma {:induction false} ClearFails(s: Store, tables: seq<Table>, i: nat)
    requires i <= |tables| && Clear(s, tables[..i]).None?
    ensures Clear(s, tables).None?
    decreases |tables|
  {
    hide Closed;
    if i == |tables| {
      assert tables[..i] == tables;
    } else {
      assert tables[..|tables| - 1][..i] == tables[..i];
      ClearFails(s, tables[..|tables| - 1], i);
    }
  }

  lemma NothingLoaded(numeric: string -> Cell, s: Store, data: Backup, overwrite: bool)
    requires data.AllKeyed(numeric)
    ensures LoadTables(numeric, s, data, LOAD_ORDER[..0], overwrite) == Loaded(s, [])
  {
    hide Keyed, LoadTable;
    assert LOAD_ORDER[..0] == [];
  }
}
