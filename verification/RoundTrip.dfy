/** Exporting every table and importing the result with overwrite restores exactly what was exported. */
module RoundTrip {
  import opened Wrappers
  import opened Listings
  import opened Rows
  import opened Imports
  import opened Merges

  // ---------------------------------------------------------------- exports

  function ExportCell(cell: Cell): Json {
    match cell
    case Null => JNull
    case Integer(n) => JInt(n)
    case Real(_) => JNull
    case Text(s) => JString(s)
  }

  function ExportRow(row: Row): Item {
    Object(map c | c in row :: ExportCell(row[c]))
  }

  /** The rows with the listed keys, in the order of the list. */
  function ExportRows(rows: TableRows, ks: seq<string>): (items: seq<Item>)
    ensures |items| == |ks|
  {
    if ks == [] then [] else
      var k := ks[|ks| - 1];
      ExportRows(rows, ks[..|ks| - 1]) + [ExportRow(if k in rows then rows[k] else map[])]
  }

  /** The order in which each table's SELECT happens to return its keys. */
  datatype Order = Order(
    users: seq<string>, rooms: seq<string>, groups: seq<string>, devices: seq<string>, events: seq<string>,
    configPushes: seq<string>, systemConfig: seq<string>)
  {
    function Of(t: Table): seq<string> {
      match t
      case Users => users
      case Rooms => rooms
      case Groups => groups
      case Devices => devices
      case Events => events
      case ConfigPushes => configPushes
      case Sessions => []
      case SystemConfig => systemConfig
    }

    ghost predicate Covers(s: Store) {
      forall t: Table :: t != Sessions ==> Lists(Of(t), s.At(t).Keys)
    }
  }

  function Export(s: Store, o: Order): Backup {
    Backup(ExportRows(s.users, o.users), ExportRows(s.rooms, o.rooms), ExportRows(s.groups, o.groups),
           ExportRows(s.devices, o.devices), ExportRows(s.events, o.events), ExportRows(s.configPushes, o.configPushes),
           ExportRows(s.systemConfig, o.systemConfig))
  }

  lemma ExportOf(s: Store, o: Order, t: Table)
    ensures t != Sessions ==> Export(s, o).Of(t) == ExportRows(s.At(t), o.Of(t))
    ensures t == Sessions ==> Export(s, o).Of(t) == []
  {
  }

  // ---------------------------------------------------------------- well-typed rows

  /** The cell fits its column's declared type. */
  predicate Typed(c: Column, cell: Cell) {
    || cell.Null?
    || (if IsInteger(c) then cell.Integer? && -I64_LIMIT <= cell.n < I64_LIMIT else cell.Text?)
  }

  predicate TypedRow(t: Table, k: string, row: Row) {
    && row.Keys == ColumnsOf(t) && CellOf(row, KeyColumn(t)) == Text(k)
    && Complete(t, row)
    && forall c <- row :: Typed(c, row[c])
  }

  predicate TypedTable(t: Table, rows: TableRows) {
    forall k <- rows :: TypedRow(t, k, rows[k])
  }

  ghost predicate UniqueNames(rows: TableRows) {
    forall a <- rows, b <- rows :: CellOf(rows[a], Username) == CellOf(rows[b], Username) ==> a == b
  }

  /** A database as the schema allows it: typed rows, resolved references, unique usernames. */
  ghost predicate Sound(s: Store) {
    Closed(s) && UniqueNames(s.users) && forall t: Table :: TypedTable(t, s.At(t))
  }

  /** A typed cell survives the trip through JSON. */
  lemma CellRoundTrip(numeric: string -> Cell, c: Column, cell: Cell)
    requires Typed(c, cell)
    ensures Bind(numeric, c, ExportCell(cell)) == cell
  {
  }

  lemma BoundIsRow(numeric: string -> Cell, t: Table, row: Row)
    requires row.Keys == ColumnsOf(t) && forall c <- row :: Typed(c, row[c])
    ensures ExportRow(row).Object? && BoundRow(numeric, t, ExportRow(row).fields) == row
  {
    hide Typed, Bind, ExportCell, ColumnsOf;
    var fields := ExportRow(row).fields;
    forall c | c in ColumnsOf(t) ensures Bind(numeric, c, FieldOf(fields, c)) == row[c] {
      assert c in row && FieldOf(fields, c) == ExportCell(row[c]);
      CellRoundTrip(numeric, c, row[c]);
    }
  }

  lemma CompletedIsRow(t: Table, row: Row)
    requires Complete(t, row)
    ensures Completed(t, row) == row
  {
    hide Nullable, Default;
  }

  lemma KeyIsKept(numeric: string -> Cell, t: Table, k: string, row: Row)
    requires CellOf(row, KeyColumn(t)) == Text(k)
    ensures ItemKey(numeric, t, ExportRow(row)) == Some(k)
  {
    assert !IsInteger(KeyColumn(t));
    hide IsInteger, KeyColumn;
  }

  lemma RowRoundTrip(numeric: string -> Cell, t: Table, k: string, row: Row)
    requires TypedRow(t, k, row)
    ensures ExportRow(row).Object? && BoundRow(numeric, t, ExportRow(row).fields) == row
    ensures ItemKey(numeric, t, ExportRow(row)) == Some(k)
    ensures Complete(t, row) && Completed(t, row) == row
  {
    hide Typed, ColumnsOf, KeyColumn, ExportRow, BoundRow, ItemKey, Complete, Completed;
    BoundIsRow(numeric, t, row);
    KeyIsKept(numeric, t, k, row);
    CompletedIsRow(t, row);
  }

  // ---------------------------------------------------------------- loading one table

  function Restrict(rows: TableRows, ks: seq<string>): TableRows {
    map k | k in rows && k in ks :: rows[k]
  }

  lemma RestrictAll(rows: TableRows, ks: seq<string>)
    requires Lists(ks, rows.Keys)
    ensures Restrict(rows, ks) == rows
  {
  }

  /** The tables that a table refers to are those of `source`. */
  ghost predicate HasParents(source: Store, s: Store, t: Table) {
    forall c: Column :: Parent(t, c).Some? ==> s.At(Parent(t, c).value) == source.At(Parent(t, c).value)
  }

  lemma ParentsResolve(source: Store, s: Store, t: Table, row: Row)
    requires HasParents(source, s, t) && RowResolves(source, t, row)
    ensures RowResolves(s, t, row)
  {
    hide Parent, Store.At;
  }

  lemma RestrictOneMore(rows: TableRows, front: seq<string>, k: string)
    requires k in rows
    ensures Restrict(rows, front + [k]) == Restrict(rows, front)[k := rows[k]]
    ensures k in Restrict(rows, front) <==> k in front
  {
  }

  /** No user loaded so far has the name of the next one. */
  lemma NoClash(source: Store, s: Store, t: Table, ks: seq<string>, k: string)
    requires UniqueNames(source.users) && s.At(t) == Restrict(source.At(t), ks) && k in source.At(t) && k !in ks
    ensures Clashing(s, t, source.At(t)[k]) == {}
  {
    if t == Users {
      forall j | j in s.users ensures CellOf(s.users[j], Username) != CellOf(source.users[k], Username) {
        assert j in source.users && j != k;
      }
    }
  }

  /** The next row of the source goes in under its key. */
  lemma RestoreRow(numeric: string -> Cell, source: Store, s: Store, t: Table, ks: seq<string>, k: string)
    requires Sound(source) && Closed(s) && HasParents(source, s, t)
    requires s.At(t) == Restrict(source.At(t), ks) && k in source.At(t) && k !in ks
    ensures var item := ExportRow(source.At(t)[k]);
            && ItemKey(numeric, t, item) == Some(k)
            && Insert(numeric, s, t, item, true) == Inserted(Put(s, t, {}, k, source.At(t)[k]))
            && Closed(Put(s, t, {}, k, source.At(t)[k]))
  {
    var row := source.At(t)[k];
    ClosedTable(source, t);
    assert RowResolves(source, t, row) && TypedTable(t, source.At(t)) && TypedRow(t, k, row)
           && UniqueNames(source.users);
    hide Sound, Closed, UniqueNames, TypedTable, TableResolves, RowResolves, HasParents, TypedRow, Restrict, Store.At,
         ItemKey, BoundRow, Completed, Complete, Clashing, ExportRow, Put;
    RowRoundTrip(numeric, t, k, row);
    NoClash(source, s, t, ks, k);
    ParentsResolve(source, s, t, row);
    PutResolves(s, t, k, row);
  }

  lemma RestoredIs(source: Store, s: Store, mid: Store, t: Table, ks: seq<string>, k: string)
    requires mid == s.With(t, Restrict(source.At(t), ks)) && k in source.At(t)
    ensures Put(mid, t, {}, k, source.At(t)[k]) == s.With(t, Restrict(source.At(t), ks + [k]))
  {
    RestrictOneMore(source.At(t), ks, k);
    NothingGone(mid.At(t));
    hide Restrict;
  }

  lemma ExportOneMore(rows: TableRows, front: seq<string>, k: string)
    requires k in rows
    ensures ExportRows(rows, front + [k]) == ExportRows(rows, front) + [ExportRow(rows[k])]
  {
    assert (front + [k])[..|front|] == front;
  }

  lemma ImportOneMore(numeric: string -> Cell, s: Store, t: Table, front: seq<Item>, item: Item, overwrite: bool)
    requires Keyed(numeric, t, front + [item])
    ensures Keyed(numeric, t, front) && (item.Object? ==> ItemKey(numeric, t, item).Some?)
    ensures ImportItems(numeric, s, t, front + [item], overwrite)
            == ImportItem(numeric, ImportItems(numeric, s, t, front, overwrite), t, item, overwrite)
  {
    KeyedStep(numeric, t, front, item);
    hide ItemKey, ImportItem, Keyed;
    assert (front + [item])[..|front|] == front;
  }

  lemma {:induction false} ExportIsKeyed(numeric: string -> Cell, t: Table, rows: TableRows, ks: seq<string>)
    requires TypedTable(t, rows) && forall k <- ks :: k in rows
    ensures Keyed(numeric, t, ExportRows(rows, ks))
  {
    hide ItemKey, ExportRow, TypedRow;
    if ks == [] {
    } else {
      var n := |ks| - 1;
      ExportIsKeyed(numeric, t, rows, ks[..n]);
      assert TypedRow(t, ks[n], rows[ks[n]]);
      RowRoundTrip(numeric, t, ks[n], rows[ks[n]]);
    }
  }

  lemma RestoreOne(numeric: string -> Cell, source: Store, s: Store, t: Table, front: seq<string>, k: string)
    requires Sound(source) && HasParents(source, s, t) && k in source.At(t) && k !in front
    requires Closed(s.With(t, Restrict(source.At(t), front)))
    requires ItemKey(numeric, t, ExportRow(source.At(t)[k])).Some?
    ensures var mid, next := s.With(t, Restrict(source.At(t), front)), s.With(t, Restrict(source.At(t), front + [k]));
            && ImportItem(numeric, Progress(mid, |front|, 0), t, ExportRow(source.At(t)[k]), true)
               == Progress(next, |front| + 1, 0)
            && Closed(next)
  {
    hide Sound, Closed, Restrict, Store.At, Put, Insert, ItemKey, HasParents;
    var mid := s.With(t, Restrict(source.At(t), front));
    OtherParents(source, s, mid, t);
    RestoreRow(numeric, source, mid, t, front, k);
    RestoredIs(source, s, mid, t, front, k);
    KeyIsOfObject(numeric, t, ExportRow(source.At(t)[k]));
    hide OnlyIn, ExportRow;
    assert !Skips(t, ExportRow(source.At(t)[k]), true);
    hide Skips;
  }

  /** Loading exported rows of distinct keys into an empty table restores them one for one. */
  lemma {:induction false} RestoreRows(numeric: string -> Cell, source: Store, s: Store, t: Table, ks: seq<string>)
    requires Sound(source) && Closed(s) && HasParents(source, s, t) && s.At(t) == map[]
    requires (forall k <- ks :: k in source.At(t)) && forall i, j :: 0 <= i < j < |ks| ==> ks[i] != ks[j]
    requires Keyed(numeric, t, ExportRows(source.At(t), ks))
    ensures var next := s.With(t, Restrict(source.At(t), ks));
            ImportItems(numeric, s, t, ExportRows(source.At(t), ks), true) == Progress(next, |ks|, 0) && Closed(next)
  {
    hide Sound, Closed, Keyed, HasParents, Restrict, ItemKey, ExportRow;
    if ks == [] {
      RestrictNone(source.At(t));
      assert s.With(t, map[]) == s;
    } else {
      hide ExportRows, ImportItems, Store.At, ImportItem;
      var n := |ks| - 1;
      var front, k := ks[..n], ks[n];
      assert ks == front + [k] && k !in front;
      ExportOneMore(source.At(t), front, k);
      ImportOneMore(numeric, s, t, ExportRows(source.At(t), front), ExportRow(source.At(t)[k]), true);
      RestoreRows(numeric, source, s, t, front);
      ExportedIsObject(source.At(t)[k]);
      RestoreOne(numeric, source, s, t, front, k);
    }
  }

  lemma RestrictNone(rows: TableRows)
    ensures Restrict(rows, []) == map[]
  {
  }

  lemma ExportedIsObject(row: Row)
    ensures ExportRow(row).Object?
  {
  }

  lemma OtherParents(source: Store, s: Store, mid: Store, t: Table)
    requires HasParents(source, s, t) && OnlyIn(s, mid, t)
    ensures HasParents(source, mid, t)
  {
    ParentsDiffer(t);
    hide Parent, Store.At;
  }

  // ---------------------------------------------------------------- clearing and loading all tables

  const BLANK := Store(map[], map[], map[], map[], map[], map[], map[], map[])

  /** Every table that refers to one of the list comes before it. */
  ghost predicate ChildrenFirst(tables: seq<Table>) {
    forall i, u: Table, c: Column :: 0 <= i < |tables| && Parent(u, c) == Some(tables[i]) ==> u in tables[..i]
  }

  /** Every table that one of the list refers to comes before it. */
  ghost predicate ParentsFirst(tables: seq<Table>) {
    forall i, c: Column :: 0 <= i < |tables| && Parent(tables[i], c).Some? ==> Parent(tables[i], c).value in tables[..i]
  }

  function Emptied(s: Store, tables: seq<Table>): Store {
    if tables == [] then s else Emptied(s, tables[..|tables| - 1]).With(tables[|tables| - 1], map[])
  }

  lemma {:induction false} EmptiedAt(s: Store, tables: seq<Table>, t: Table)
    ensures Emptied(s, tables).At(t) == if t in tables then map[] else s.At(t)
  {
    hide Store.At;
    if tables == [] {
    } else {
      var n := |tables| - 1;
      assert tables == tables[..n] + [tables[n]];
      EmptiedAt(s, tables[..n], t);
    }
  }

  /** Emptying a table that no row refers to. */
  lemma EmptyingResolves(s: Store, t: Table)
    requires Closed(s)
    requires forall u: Table, c: Column :: Parent(u, c) == Some(t) ==> s.At(u) == map[]
    ensures Closed(s.With(t, map[]))
  {
    var next := s.With(t, map[]);
    hide Closed, Parent, Store.At;
    forall u: Table ensures TableResolves(next, u) {
      ClosedTable(s, u);
      if u != t {
        forall k | k in next.At(u) ensures RowResolves(next, u, next.At(u)[k]) {
          assert RowResolves(s, u, s.At(u)[k]);
        }
      }
    }
    EveryTable(next);
  }

  /** Children first, no DELETE leaves a dangling reference. */
  lemma {:induction false} ClearNeverDangles(s: Store, tables: seq<Table>)
    requires Closed(s) && ChildrenFirst(tables)
    ensures Clear(s, tables) == Some(Emptied(s, tables)) && Closed(Emptied(s, tables))
  {
    hide Closed, Store.At, Parent;
    if tables == [] {
    } else {
      var n := |tables| - 1;
      var front := tables[..n];
      assert forall i :: 0 <= i < n ==> front[i] == tables[i] && front[..i] == tables[..i];
      ClearNeverDangles(s, front);
      forall u: Table, c: Column | Parent(u, c) == Some(tables[n]) ensures Emptied(s, front).At(u) == map[] {
        EmptiedAt(s, front, u);
      }
      EmptyingResolves(Emptied(s, front), tables[n]);
    }
  }

  function Upto(source: Store, tables: seq<Table>): Store {
    if tables == [] then BLANK
    else Upto(source, tables[..|tables| - 1]).With(tables[|tables| - 1], source.At(tables[|tables| - 1]))
  }

  lemma {:induction false} UptoAt(source: Store, tables: seq<Table>, t: Table)
    ensures Upto(source, tables).At(t) == if t in tables then source.At(t) else map[]
  {
    if tables == [] {
    } else {
      hide Store.At;
      var n := |tables| - 1;
      assert tables == tables[..n] + [tables[n]];
      UptoAt(source, tables[..n], t);
    }
  }

  ghost predicate FullReports(source: Store, tables: seq<Table>, reports: seq<TableReport>) {
    && |reports| == |tables|
    && forall i :: 0 <= i < |tables| ==>
         var n := |source.At(tables[i])|; reports[i] == TableReport(tables[i], n, n, 0)
  }

  lemma UptoHasParents(source: Store, tables: seq<Table>, t: Table)
    requires forall c: Column :: Parent(t, c).Some? ==> Parent(t, c).value in tables
    ensures HasParents(source, Upto(source, tables), t)
  {
    hide Parent, Store.At, Upto;
    forall c: Column | Parent(t, c).Some?
      ensures Upto(source, tables).At(Parent(t, c).value) == source.At(Parent(t, c).value)
    {
      UptoAt(source, tables, Parent(t, c).value);
    }
  }

  /** Loading one table after those it refers to. */
  lemma RestoreTable(numeric: string -> Cell, source: Store, o: Order, front: seq<Table>, t: Table)
    requires Sound(source) && o.Covers(source) && t != Sessions && t !in front
    requires Closed(Upto(source, front))
    requires forall c: Column :: Parent(t, c).Some? ==> Parent(t, c).value in front
    requires Keyed(numeric, t, Export(source, o).Of(t))
    ensures var n := |source.At(t)|;
            var next := Upto(source, front).With(t, source.At(t));
            && ImportItems(numeric, Upto(source, front), t, Export(source, o).Of(t), true) == Progress(next, n, 0)
            && |Export(source, o).Of(t)| == n && Closed(next)
  {
    var s, ks := Upto(source, front), o.Of(t);
    ExportOf(source, o, t);
    UptoAt(source, front, t);
    UptoHasParents(source, front, t);
    assert Lists(ks, source.At(t).Keys);
    ListingLength(ks, source.At(t).Keys);
    RestrictAll(source.At(t), ks);
    hide Store.At, Upto, Export, ImportItems, Sound, Closed, HasParents, Keyed, Parent, Restrict, Order.Covers,
         Order.Of, Backup.Of;
    RestoreRows(numeric, source, s, t, ks);
  }

  lemma LoadOneMore(numeric: string -> Cell, s: Store, data: Backup, front: seq<Table>, t: Table, overwrite: bool)
    requires data.AllKeyed(numeric)
    ensures LoadTables(numeric, s, data, front + [t], overwrite)
            == LoadTable(numeric, LoadTables(numeric, s, data, front, overwrite), t, data.Of(t), overwrite)
  {
    hide Keyed, LoadTable;
    assert (front + [t])[..|front|] == front;
  }

  lemma {:induction false} BrokenStays(numeric: string -> Cell, s: Store, data: Backup, tables: seq<Table>, i: nat,
                                       overwrite: bool)
    requires data.AllKeyed(numeric) && i <= |tables|
    requires LoadTables(numeric, s, data, tables[..i], overwrite).Broken?
    ensures LoadTables(numeric, s, data, tables, overwrite).Broken?
    decreases |tables|
  {
    hide Keyed, Backup.Of, ImportItems;
    if i == |tables| {
      assert tables[..i] == tables;
    } else {
      var n := |tables| - 1;
      assert tables[..n][..i] == tables[..i];
      BrokenStays(numeric, s, data, tables[..n], i, overwrite);
    }
  }

  lemma RestoreNext(numeric: string -> Cell, source: Store, o: Order, front: seq<Table>, t: Table, l: Load)
    requires Sound(source) && o.Covers(source) && t != Sessions && t !in front
    requires forall c: Column :: Parent(t, c).Some? ==> Parent(t, c).value in front
    requires Keyed(numeric, t, Export(source, o).Of(t))
    requires l.Loaded? && l.store == Upto(source, front) && Closed(l.store) && FullReports(source, front, l.reports)
    ensures var l' := LoadTable(numeric, l, t, Export(source, o).Of(t), true);
            && l'.Loaded? && l'.store == Upto(source, front + [t]) && Closed(l'.store)
            && FullReports(source, front + [t], l'.reports)
  {
    hide Sound, Closed, Store.At, Parent, Export, Keyed, ImportItems, Order.Covers, Backup.Of;
    assert (front + [t])[..|front|] == front;
    RestoreTable(numeric, source, o, front, t);
    hide Upto;
    ReportsOneMore(source, front, t, l.reports);
    hide FullReports;
  }

  lemma ReportsOneMore(source: Store, front: seq<Table>, t: Table, reports: seq<TableReport>)
    requires FullReports(source, front, reports)
    ensures FullReports(source, front + [t], reports + [TableReport(t, |source.At(t)|, |source.At(t)|, 0)])
  {
    hide Store.At;
  }

  ghost predicate AllLoadable(numeric: string -> Cell, source: Store, o: Order) {
    Sound(source) && o.Covers(source) && Export(source, o).AllKeyed(numeric)
  }

  /** Parents first, no INSERT leaves a dangling reference and every row is restored. */
  lemma {:induction false} LoadRestores(numeric: string -> Cell, source: Store, o: Order, tables: seq<Table>)
    requires AllLoadable(numeric, source, o)
    requires ParentsFirst(tables) && DistinctTables(tables) && Sessions !in tables
    ensures var l := LoadTables(numeric, BLANK, Export(source, o), tables, true);
            && l.Loaded? && l.store == Upto(source, tables) && Closed(l.store)
            && FullReports(source, tables, l.reports)
  {
    hide Sound, Parent, Export, Keyed, Order.Covers, Backup.Of, LoadTable;
    if tables == [] {
    } else {
      hide Closed, Store.At, Upto, FullReports;
      var n := |tables| - 1;
      var front, t := tables[..n], tables[n];
      FrontOfOrder(tables);
      hide ParentsFirst, DistinctTables;
      LoadRestores(numeric, source, o, front);
      RestoreNext(numeric, source, o, front, t, LoadTables(numeric, BLANK, Export(source, o), front, true));
    }
  }

  lemma FrontOfOrder(tables: seq<Table>)
    requires tables != [] && ParentsFirst(tables) && DistinctTables(tables)
    ensures var n := |tables| - 1;
            && ParentsFirst(tables[..n]) && DistinctTables(tables[..n]) && tables[n] !in tables[..n]
            && tables == tables[..n] + [tables[n]]
            && forall c: Column :: Parent(tables[n], c).Some? ==> Parent(tables[n], c).value in tables[..n]
  {
    hide Parent;
    var n := |tables| - 1;
    assert forall i :: 0 <= i < n ==> tables[..n][i] == tables[i] && tables[..n][..i] == tables[..i];
  }

  lemma ExportIsAllKeyed(numeric: string -> Cell, source: Store, o: Order)
    requires Sound(source) && o.Covers(source)
    ensures AllLoadable(numeric, source, o)
  {
    forall t: Table ensures Keyed(numeric, t, Export(source, o).Of(t)) {
      ExportOf(source, o, t);
      if t != Sessions {
        assert Lists(o.Of(t), source.At(t).Keys) && TypedTable(t, source.At(t));
        ExportIsKeyed(numeric, t, source.At(t), o.Of(t));
      }
    }
  }

  lemma OrdersAreOrders()
    ensures ChildrenFirst(CLEAR_ORDER) && ParentsFirst(LOAD_ORDER) && DistinctTables(LOAD_ORDER)
            && Sessions !in LOAD_ORDER
    ensures forall t: Table :: t in CLEAR_ORDER && (t != Sessions ==> t in LOAD_ORDER)
  {
    forall i, u: Table, c: Column | 0 <= i < |CLEAR_ORDER| && Parent(u, c) == Some(CLEAR_ORDER[i])
      ensures u in CLEAR_ORDER[..i]
    {
      var j := match u case ConfigPushes => 0 case Events => 1 case Devices => 2 case Groups => 3
                       case Rooms => 4 case _ => 5;
      assert CLEAR_ORDER[..i][j] == u;
    }
    forall i, c: Column | 0 <= i < |LOAD_ORDER|
    && Parent(LOAD_ORDER[i], c).Some? ensures Parent(LOAD_ORDER[i], c).value in LOAD_ORDER[..i] {
      var j := match Parent(LOAD_ORDER[i], c).value case Users => 0 case Rooms => 1 case Groups => 2 case _ => 3;
      assert LOAD_ORDER[..i][j] == Parent(LOAD_ORDER[i], c).value;
    }
    AllInOrders();
  }

  lemma AllInOrders()
    ensures forall t: Table :: t in CLEAR_ORDER && (t != Sessions ==> t in LOAD_ORDER)
  {
    forall t: Table ensures t in CLEAR_ORDER && (t != Sessions ==> t in LOAD_ORDER) {
      assert CLEAR_ORDER[0] == ConfigPushes && CLEAR_ORDER[1] == Events && CLEAR_ORDER[2] == Devices
             && CLEAR_ORDER[3] == Groups;
      assert CLEAR_ORDER[4] == Rooms && CLEAR_ORDER[5] == Sessions && CLEAR_ORDER[6] == Users
             && CLEAR_ORDER[7] == SystemConfig;
      assert LOAD_ORDER[0] == Users && LOAD_ORDER[1] == Rooms && LOAD_ORDER[2] == Groups && LOAD_ORDER[3] == Devices;
      assert LOAD_ORDER[4] == Events && LOAD_ORDER[5] == ConfigPushes && LOAD_ORDER[6] == SystemConfig;
      match t
      case Users => case Rooms => case Groups => case Devices =>
      case Events => case ConfigPushes => case Sessions => case SystemConfig =>
    }
  }

  /**
   * The full backup of any sound database, imported with overwrite into any database whose references resolve, commits:
   * all seven tables are the source's, the sessions are gone, and every row of every table is reported as imported.
   */
  lemma BackupRoundTrip(numeric: string -> Cell, source: Store, o: Order, target: Store)
    requires Sound(source) && o.Covers(source) && Closed(target)
    ensures var data := Export(source, o);
            && data.AllKeyed(numeric)
            && Import(numeric, target, data, true).Loaded?
            && Import(numeric, target, data, true).store == source.(sessions := map[])
            && FullReports(source, LOAD_ORDER, Import(numeric, target, data, true).reports)
  {
    OrdersAreOrders();
    ExportIsAllKeyed(numeric, source, o);
    ClearNeverDangles(target, CLEAR_ORDER);
    LoadRestores(numeric, source, o, LOAD_ORDER);
    AllEmptied(target);
    AllRestored(source);
    hide Sound, Closed, Export, LoadTables, Clear, Order.Covers, Upto, Emptied, FullReports, Keyed;
  }

  lemma SameStore(s: Store, u: Store)
    requires forall t: Table :: s.At(t) == u.At(t)
    ensures s == u
  {
    assert s.At(Users) == u.At(Users) && s.At(Rooms) == u.At(Rooms) && s.At(Groups) == u.At(Groups);
    assert s.At(Devices) == u.At(Devices) && s.At(Events) == u.At(Events) && s.At(ConfigPushes) == u.At(ConfigPushes);
    assert s.At(Sessions) == u.At(Sessions) && s.At(SystemConfig) == u.At(SystemConfig);
  }

  lemma AllEmptied(s: Store)
    ensures Emptied(s, CLEAR_ORDER) == BLANK
  {
    OrdersAreOrders();
    hide Emptied;
    forall t: Table ensures Emptied(s, CLEAR_ORDER).At(t) == BLANK.At(t) {
      EmptiedAt(s, CLEAR_ORDER, t);
    }
    SameStore(Emptied(s, CLEAR_ORDER), BLANK);
  }

  lemma AllRestored(source: Store)
    ensures Upto(source, LOAD_ORDER) == source.(sessions := map[])
  {
    OrdersAreOrders();
    hide Upto;
    forall t: Table ensures Upto(source, LOAD_ORDER).At(t) == source.(sessions := map[]).At(t) {
      UptoAt(source, LOAD_ORDER, t);
    }
    SameStore(Upto(source, LOAD_ORDER), source.(sessions := map[]));
  }
}
