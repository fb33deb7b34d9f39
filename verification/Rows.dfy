/** The database as SQL sees it: tables of dynamically typed rows, and the insert statements of the backup import. */
module Rows {
  import opened Wrappers
  import opened Text

  datatype Table = Users | Rooms | Groups | Devices | Events | ConfigPushes | Sessions | SystemConfig

  datatype Column =
    | Id | Username | Password | Role | CreatedAt | Name | OwnerId | RoomId | EncryptedToken | EncryptedServer
    | EncryptedPassword | ExtraConfig | ConfigVersion | UpdatedAt | GroupId | DisplayName | ClientVersion
    | ConsolePublicIp | NetworkIp | NetworkNodeId | DeviceToken | LastSeen | Status | VntsStatus | VntsError
    | VntsUpdatedAt | UpStream | DownStream | TrafficUpdatedAt | DeviceId | EventType | Payload | ConfigSnapshot
    | PushedAt | Acked | Key | Value | Token | UserId | ExpiresAt

  datatype Cell = Null | Integer(n: int) | Real(r: real) | Text(s: string)

  type Row = map<Column, Cell>

  type TableRows = map<string, Row>

  /** All tables, each keyed by its primary key. */
  datatype Store = Store(
    users: TableRows, rooms: TableRows, groups: TableRows, devices: TableRows, events: TableRows,
    configPushes: TableRows,
    sessions: TableRows, systemConfig: TableRows)
  {
    function At(t: Table): TableRows {
      match t
      case Users => users
      case Rooms => rooms
      case Groups => groups
      case Devices => devices
      case Events => events
      case ConfigPushes => configPushes
      case Sessions => sessions
      case SystemConfig => systemConfig
    }

    function With(t: Table, rows: TableRows): (s: Store)
      ensures forall u: Table :: s.At(u) == if u == t then rows else At(u)
    {
      match t
      case Users => this.(users := rows)
      case Rooms => this.(rooms := rows)
      case Groups => this.(groups := rows)
      case Devices => this.(devices := rows)
      case Events => this.(events := rows)
      case ConfigPushes => this.(configPushes := rows)
      case Sessions => this.(sessions := rows)
      case SystemConfig => this.(systemConfig := rows)
    }
  }

  // ---------------------------------------------------------------- the schema

  function ColumnsOf(t: Table): set<Column> {
    match t
    case Users => {Id, Username, Password, Role, CreatedAt}
    case Rooms => {Id, Name, OwnerId, CreatedAt}
    case Groups =>
      {Id, RoomId, Name, EncryptedToken, EncryptedServer, EncryptedPassword, ExtraConfig, ConfigVersion, CreatedAt,
       UpdatedAt}
    case Devices =>
      {Id, RoomId, GroupId, DisplayName, ClientVersion, ConsolePublicIp, NetworkIp, NetworkNodeId, DeviceToken,
       LastSeen,
       Status, VntsStatus, VntsError, VntsUpdatedAt, ConfigVersion, UpStream, DownStream, TrafficUpdatedAt, CreatedAt}
    case Events => {Id, DeviceId, EventType, Payload, CreatedAt}
    case ConfigPushes => {Id, DeviceId, GroupId, ConfigSnapshot, PushedAt, Acked}
    case Sessions => {Token, UserId, CreatedAt, ExpiresAt}
    case SystemConfig => {Key, Value, UpdatedAt}
  }

  function KeyColumn(t: Table): Column {
    match t
    case Sessions => Token
    case SystemConfig => Key
    case _ => Id
  }

  /** Columns declared INTEGER; every other column is TEXT. */
  predicate IsInteger(c: Column) {
    || c == CreatedAt || c == UpdatedAt || c == ConfigVersion || c == LastSeen || c == VntsUpdatedAt || c == UpStream
    || c == DownStream || c == TrafficUpdatedAt || c == PushedAt || c == Acked || c == ExpiresAt
  }

  /** Columns that may hold NULL. A TEXT primary key is one of them in SQLite. */
  predicate Nullable(t: Table, c: Column) {
    || c == KeyColumn(t)
    || (t == Groups && (c == EncryptedToken || c == EncryptedServer || c == EncryptedPassword || c == ExtraConfig))
    || (t == Devices && (c == GroupId || c == ClientVersion || c == ConsolePublicIp || c == NetworkIp
                         || c == NetworkNodeId
                         || c == LastSeen || c == VntsStatus || c == VntsError || c == VntsUpdatedAt || c == UpStream
                         || c == DownStream || c == TrafficUpdatedAt))
    || (t == Events && c == Payload)
    || (t == ConfigPushes && c == GroupId)
  }

  /** DEFAULT clauses of the columns that may not hold NULL. */
  function Default(t: Table, c: Column): Cell {
    match (t, c)
    case (Users, Role) => Text("user")
    case (Groups, ConfigVersion) => Integer(1)
    case (Devices, Status) => Text("pending")
    case (Devices, ConfigVersion) => Integer(0)
    case (ConfigPushes, Acked) => Integer(0)
    case _ => Null
  }

  /** FOREIGN KEY clauses: the table that a column refers to. */
  function Parent(t: Table, c: Column): Option<Table> {
    match (t, c)
    case (Rooms, OwnerId) => Some(Users)
    case (Groups, RoomId) => Some(Rooms)
    case (Devices, RoomId) => Some(Rooms)
    case (Devices, GroupId) => Some(Groups)
    case (Events, DeviceId) => Some(Devices)
    case (ConfigPushes, DeviceId) => Some(Devices)
    case (Sessions, UserId) => Some(Users)
    case _ => None
  }

  predicate Resolves(s: Store, parent: Table, cell: Cell) {
    cell.Text? ==> cell.s in s.At(parent)
  }

  /** Every reference of the row resolves. */
  predicate RowResolves(s: Store, t: Table, row: Row) {
    forall c <- row :: Parent(t, c).Some? ==> Resolves(s, Parent(t, c).value, row[c])
  }

  predicate TableResolves(s: Store, t: Table) {
    forall k <- s.At(t) :: RowResolves(s, t, s.At(t)[k])
  }

  /** No reference dangles. */
  predicate Closed(s: Store) {
    && TableResolves(s, Users) && TableResolves(s, Rooms) && TableResolves(s, Groups) && TableResolves(s, Devices)
    && TableResolves(s, Events) && TableResolves(s, ConfigPushes) && TableResolves(s, Sessions)
    && TableResolves(s, SystemConfig)
  }

  lemma ClosedTable(s: Store, t: Table)
    requires Closed(s)
    ensures TableResolves(s, t)
  {
    match t
    case Users => case Rooms => case Groups => case Devices =>
    case Events => case ConfigPushes => case Sessions => case SystemConfig =>
  }

  function CellOf(row: Row, c: Column): Cell {
    if c in row then row[c] else Null
  }

  // ---------------------------------------------------------------- binding JSON values

  /** A JSON value; `JOther` is a boolean, a fraction, an array or an object, with its JSON text. */
  datatype Json = JNull | JInt(n: int) | JString(s: string) | JOther(text: string)

  /** A row of a backup file: an object, of which only the table's columns matter, or something else. */
  datatype Item = NotObject | Object(fields: map<Column, Json>)

  const I64_LIMIT := 0x8000_0000_0000_0000

  /** The cast of a JSON integer, signed or unsigned 64-bit, to a signed one. */
  function WrapI64(n: int): int {
    if n < I64_LIMIT then n else n - 2 * I64_LIMIT
  }

  /** What a column stores for a JSON value; `numeric` is what INTEGER affinity makes of a text. */
  function Bind(numeric: string -> Cell, c: Column, j: Json): Cell {
    match j
    case JNull => Null
    case JInt(n) => if IsInteger(c) then Integer(WrapI64(n)) else Text(SignedDecimal(WrapI64(n)))
    case JString(s) => if IsInteger(c) then numeric(s) else Text(s)
    case JOther(s) => if IsInteger(c) then numeric(s) else Text(s)
  }

  function FieldOf(fields: map<Column, Json>, c: Column): Json {
    if c in fields then fields[c] else JNull
  }

  function BoundRow(numeric: string -> Cell, t: Table, fields: map<Column, Json>): Row {
    map c | c in ColumnsOf(t) :: Bind(numeric, c, FieldOf(fields, c))
  }

  // ---------------------------------------------------------------- the insert statements

  predicate Complete(t: Table, row: Row) {
    forall c <- row :: Nullable(t, c) || row[c] != Null
  }

  /** REPLACE puts the declared default in place of a NULL that the column may not hold. */
  function Completed(t: Table, row: Row): Row {
    map c | c in row :: if !Nullable(t, c) && row[c] == Null then Default(t, c) else row[c]
  }

  /** The users that already have the row's name. */
  function Clashing(s: Store, t: Table, row: Row): set<string> {
    if t == Users then set k | k in s.At(Users) && CellOf(s.At(Users)[k], Username) == CellOf(row, Username) else {}
  }

  function Put(s: Store, t: Table, gone: set<string>, k: string, row: Row): Store {
    s.With(t, (s.At(t) - gone)[k := row])
  }

  datatype Outcome = Error | Ignored | Inserted(store: Store)

  function InsertOrReplace(s: Store, t: Table, k: string, row: Row): Outcome {
    var full := Completed(t, row);
    if !Complete(t, full) then Error else
      var next := Put(s, t, Clashing(s, t, full), k, full);
      if Closed(next) then Inserted(next) else Error
  }

  function InsertOrIgnore(s: Store, t: Table, k: string, row: Row): Outcome {
    if !Complete(t, row) || k in s.At(t) || Clashing(s, t, row) != {} then Ignored else
      var next := Put(s, t, {}, k, row);
      if Closed(next) then Inserted(next) else Error
  }

  // ---------------------------------------------------------------- importing the rows of a table

  /** The key a row would be stored under. */
  function ItemKey(numeric: string -> Cell, t: Table, item: Item): (k: Option<string>)
    ensures k.Some? ==> item.Object?
  {
    if item.Object? && Bind(numeric, KeyColumn(t), FieldOf(item.fields, KeyColumn(t))).Text?
    then Some(Bind(numeric, KeyColumn(t), FieldOf(item.fields, KeyColumn(t))).s) else None
  }

  /** Every object of the list has a key. */
  predicate Keyed(numeric: string -> Cell, t: Table, items: seq<Item>) {
    forall item <- items :: item.Object? ==> ItemKey(numeric, t, item).Some?
  }

  /** A merge passes over the administrator's account. */
  predicate Skips(t: Table, item: Item, overwrite: bool) {
    !overwrite && t == Users && item.Object? && FieldOf(item.fields, Username) == JString("admin")
  }

  function Insert(numeric: string -> Cell, s: Store, t: Table, item: Item, overwrite: bool): Outcome
    requires ItemKey(numeric, t, item).Some?
  {
    var k, row := ItemKey(numeric, t, item).value, BoundRow(numeric, t, item.fields);
    if overwrite then InsertOrReplace(s, t, k, row) else InsertOrIgnore(s, t, k, row)
  }

  datatype Progress = Failed | Progress(store: Store, imported: nat, skipped: nat)

  function ImportItem(numeric: string -> Cell, p: Progress, t: Table, item: Item, overwrite: bool): Progress
    requires item.Object? ==> ItemKey(numeric, t, item).Some?
  {
    if p.Failed? then Failed
    else if !item.Object? || Skips(t, item, overwrite) then p.(skipped := p.skipped + 1)
    else
      match Insert(numeric, p.store, t, item, overwrite)
      case Error => Failed
      case Ignored => p.(skipped := p.skipped + 1)
      case Inserted(next) => Progress(next, p.imported + 1, p.skipped)
  }

  /** The rows in order; the first failing statement fails the import. */
  function ImportItems(numeric: string -> Cell, s: Store, t: Table, items: seq<Item>, overwrite: bool): Progress
    requires Keyed(numeric, t, items)
  {
    if items == [] then Progress(s, 0, 0) else
      var n := |items| - 1;
      ImportItem(numeric, ImportItems(numeric, s, t, items[..n], overwrite), t, items[n], overwrite)
  }

  // ---------------------------------------------------------------- importing a backup

  datatype Backup = Backup(
    users: seq<Item>, rooms: seq<Item>, groups: seq<Item>, devices: seq<Item>, events: seq<Item>,
    configPushes: seq<Item>, systemConfig: seq<Item>)
  {
    function Of(t: Table): seq<Item> {
      match t
      case Users => users
      case Rooms => rooms
      case Groups => groups
      case Devices => devices
      case Events => events
      case ConfigPushes => configPushes
      case Sessions => []
      case SystemConfig => systemConfig
    }

    predicate AllKeyed(numeric: string -> Cell) {
      forall t: Table :: Keyed(numeric, t, Of(t))
    }
  }

  datatype TableReport = TableReport(table: Table, attempted: nat, imported: nat, skipped: nat)

  /** Children first. */
  const CLEAR_ORDER: seq<Table> := [ConfigPushes, Events, Devices, Groups, Rooms, Sessions, Users, SystemConfig]

  /** Parents first. */
  const LOAD_ORDER: seq<Table> := [Users, Rooms, Groups, Devices, Events, ConfigPushes, SystemConfig]

  /** One DELETE of every row of a table after another; none may leave a dangling reference. */
  function Clear(s: Store, tables: seq<Table>): Option<Store> {
    if tables == [] then Some(s) else
      var n := |tables| - 1;
      var before := Clear(s, tables[..n]);
      if before.None? then None else
        var next: Store := before.value.With(tables[n], map[]);
        if Closed(next) then Some(next) else None
  }

  datatype Load = Broken | Loaded(store: Store, reports: seq<TableReport>)

  function LoadTable(numeric: string -> Cell, l: Load, t: Table, items: seq<Item>, overwrite: bool): Load
    requires Keyed(numeric, t, items)
  {
    if l.Broken? then Broken else
      match ImportItems(numeric, l.store, t, items, overwrite)
      case Failed => Broken
      case Progress(s, imported, skipped) => Loaded(s, l.reports + [TableReport(t, |items|, imported, skipped)])
  }

  function LoadTables(numeric: string -> Cell, s: Store, data: Backup, tables: seq<Table>, overwrite: bool): Load
    requires data.AllKeyed(numeric)
  {
    if tables == [] then Loaded(s, []) else
      var n := |tables| - 1;
      LoadTable(numeric, LoadTables(numeric, s, data, tables[..n], overwrite), tables[n], data.Of(tables[n]), overwrite)
  }

  /** A whole import: clear when overwriting, then load; broken means rolled back. */
  function Import(numeric: string -> Cell, s: Store, data: Backup, overwrite: bool): Load
    requires data.AllKeyed(numeric)
  {
    var cleared := if overwrite then Clear(s, CLEAR_ORDER) else Some(s);
    if cleared.None? then Broken else LoadTables(numeric, cleared.value, data, LOAD_ORDER, overwrite)
  }
}
