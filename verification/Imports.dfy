/** What an import of rows does to its table: overwriting is a last-wins map, merging a first-wins union. */
module Imports {
  import opened Wrappers
  import opened Rows
  import T = Text

  // ---------------------------------------------------------------- accounting

  function Objects(items: seq<Item>): nat {
    if items == [] then 0 else Objects(items[..|items| - 1]) + if items[|items| - 1].Object? then 1 else 0
  }

  /** Every row is counted once, as imported or as skipped. */
  lemma {:induction false} RowsAreAccounted(numeric: string -> Cell, s: Store, t: Table, items: seq<Item>,
                                            overwrite: bool)
    requires Keyed(numeric, t, items)
    ensures var p := ImportItems(numeric, s, t, items, overwrite);
            p.Progress? ==> p.imported + p.skipped == |items|
  {
    hide ItemKey, ImportItem, Keyed;
    if items == [] {
    } else {
      var n := |items| - 1;
      assert items == items[..n] + [items[n]];
      KeyedStep(numeric, t, items[..n], items[n]);
      RowsAreAccounted(numeric, s, t, items[..n], overwrite);
      ItemIsAccounted(numeric, ImportItems(numeric, s, t, items[..n], overwrite), t, items[n], overwrite);
    }
  }

  lemma ItemIsAccounted(numeric: string -> Cell, p: Progress, t: Table, item: Item, overwrite: bool)
    requires item.Object? ==> ItemKey(numeric, t, item).Some?
    ensures var q := ImportItem(numeric, p, t, item, overwrite);
            q.Progress? ==> p.Progress? && q.imported + q.skipped == p.imported + p.skipped + 1
  {
    hide Insert, Skips, ItemKey;
  }

  // ---------------------------------------------------------------- which columns an object must give

  /** The columns declared NOT NULL. */
  function NotNullColumns(t: Table): set<Column> {
    match t
    case Users => {Username, Password, Role, CreatedAt}
    case Rooms => {Name, OwnerId, CreatedAt}
    case Groups => {RoomId, Name, ConfigVersion, CreatedAt, UpdatedAt}
    case Devices => {RoomId, DisplayName, DeviceToken, Status, ConfigVersion, CreatedAt}
    case Events => {DeviceId, EventType, CreatedAt}
    case ConfigPushes => {DeviceId, ConfigSnapshot, PushedAt, Acked}
    case Sessions => {UserId, CreatedAt, ExpiresAt}
    case SystemConfig => {Value, UpdatedAt}
  }

  /** Those among them with a DEFAULT, and what it is. */
  function Defaulted(t: Table): map<Column, Cell> {
    match t
    case Users => map[Role := Text("user")]
    case Groups => map[ConfigVersion := Integer(1)]
    case Devices => map[Status := Text("pending"), ConfigVersion := Integer(0)]
    case ConfigPushes => map[Acked := Integer(0)]
    case _ => map[]
  }

  /**
   * A merge passes over every object without a value for a mandatory column, whether or not the column has a default.
   * An overwriting import fills in the defaults, and fails only for want of a mandatory column that has none.
   */
  lemma MandatoryColumns(t: Table, row: Row)
    requires row.Keys == ColumnsOf(t)
    ensures Complete(t, row) <==> forall c <- NotNullColumns(t) :: CellOf(row, c) != Null
    ensures Complete(t, Completed(t, row))
            <==> forall c <- NotNullColumns(t) - Defaulted(t).Keys :: CellOf(row, c) != Null
    ensures forall c <- row :: Completed(t, row)[c]
                               == if row[c] == Null && c in Defaulted(t) then Defaulted(t)[c] else row[c]
  {
    hide CellOf;
    NullableColumns(t);
    hide Nullable, Default, NotNullColumns, Defaulted, ColumnsOf;
    forall c | c in row ensures CellOf(row, c) == row[c] { CellInRow(row, c); }
    var full := Completed(t, row);
    forall c | c in row ensures full[c] == if row[c] == Null && c in Defaulted(t) then Defaulted(t)[c] else row[c] { }
  }

  lemma CellInRow(row: Row, c: Column)
    requires c in row
    ensures CellOf(row, c) == row[c]
  {
  }

  lemma NullableColumns(t: Table)
    ensures NotNullColumns(t) <= ColumnsOf(t) && Defaulted(t).Keys <= NotNullColumns(t)
    ensures forall c <- ColumnsOf(t) :: c in NotNullColumns(t) <==> !Nullable(t, c)
    ensures forall c <- NotNullColumns(t) :: Default(t, c) == if c in Defaulted(t) then Defaulted(t)[c] else Null
    ensures forall c <- Defaulted(t) :: Defaulted(t)[c] != Null
  {
    forall c ensures c in NotNullColumns(t) <==> c in ColumnsOf(t) && !Nullable(t, c) { MandatoryColumn(t, c); }
    forall c
      ensures c in Defaulted(t) ==> c in NotNullColumns(t) && Defaulted(t)[c] != Null
      ensures c in NotNullColumns(t) ==> Default(t, c) == if c in Defaulted(t) then Defaulted(t)[c] else Null
    {
      DefaultedColumn(t, c);
    }
    hide NotNullColumns, Defaulted, ColumnsOf, Nullable, Default;
  }

  lemma MandatoryColumn(t: Table, c: Column)
    ensures c in NotNullColumns(t) <==> c in ColumnsOf(t) && !Nullable(t, c)
  {
    if t == Devices {
      DeviceColumn(c);
      hide NotNullColumns, ColumnsOf, Nullable;
    } else {
      match t
      case Users => case Rooms => case Groups =>
      case Events => case ConfigPushes => case Sessions => case SystemConfig =>
    }
  }

  lemma DeviceColumn(c: Column)
    ensures c in NotNullColumns(Devices) <==> c in ColumnsOf(Devices) && !Nullable(Devices, c)
  {
  }

  lemma DefaultedColumn(t: Table, c: Column)
    ensures c in Defaulted(t) ==> c in NotNullColumns(t) && Defaulted(t)[c] != Null
    ensures c in NotNullColumns(t) ==> Default(t, c) == if c in Defaulted(t) then Defaulted(t)[c] else Null
  {
    if t == Devices {
    } else if t == Users {
    } else if t == Groups {
    } else if t == ConfigPushes {
    } else {
      match t
      case Rooms => case Events => case Sessions => case SystemConfig =>
    }
  }

  /**
   * What a column stores for a JSON value: an integer column a 64-bit integer, with an unsigned one reinterpreted; a
   * text column the text, or the decimal digits of an integer; either NULL for null.
   */
  lemma BoundCells(numeric: string -> Cell, c: Column, n: int, s: string)
    requires -0x8000_0000_0000_0000 <= n < 0x1_0000_0000_0000_0000
    ensures var integer := c in {CreatedAt, UpdatedAt, ConfigVersion, LastSeen, VntsUpdatedAt, UpStream, DownStream,
                                 TrafficUpdatedAt, PushedAt, Acked, ExpiresAt};
            var i := if n < 0x8000_0000_0000_0000 then n else n - 0x1_0000_0000_0000_0000;
            && Bind(numeric, c, JNull) == Null
            && Bind(numeric, c, JInt(n)) == (if integer then Integer(i) else Text(T.SignedDecimal(i)))
            && Bind(numeric, c, JString(s)) == (if integer then numeric(s) else Text(s))
  {
  }

  // ---------------------------------------------------------------- one statement

  /** Only the table itself changes. */
  ghost predicate OnlyIn(s: Store, next: Store, t: Table) {
    forall u: Table :: u != t ==> next.At(u) == s.At(u)
  }

  lemma OwnTableResolves(s: Store, next: Store, t: Table, k: string, row: Row)
    requires TableResolves(s, t) && RowResolves(s, t, row)
    requires OnlyIn(s, next, t) && next.At(t) == s.At(t)[k := row]
    ensures TableResolves(next, t)
  {
    hide RowResolves;
    forall j | j in next.At(t) ensures RowResolves(next, t, next.At(t)[j]) {
      SameParents(s, next, t, next.At(t)[j]);
    }
  }

  lemma PutShape(s: Store, t: Table, k: string, row: Row)
    ensures OnlyIn(s, Put(s, t, {}, k, row), t)
    ensures Put(s, t, {}, k, row).At(t) == s.At(t)[k := row]
    ensures forall u: Table :: s.At(u).Keys <= Put(s, t, {}, k, row).At(u).Keys
  {
    NothingGone(s.At(t));
    KeysGrow(s, Put(s, t, {}, k, row), t, k, row);
  }

  lemma NothingGone(rows: TableRows)
    ensures rows - {} == rows
  {
  }

  lemma KeysGrow(s: Store, next: Store, t: Table, k: string, row: Row)
    requires next.At(t) == s.At(t)[k := row] && OnlyIn(s, next, t)
    ensures forall u: Table :: s.At(u).Keys <= next.At(u).Keys
  {
    assert s.At(t).Keys <= next.At(t).Keys;
  }

  /** No row of the table refers to the table, so putting a row in resolves exactly when the row does. */
  lemma PutResolves(s: Store, t: Table, k: string, row: Row)
    requires Closed(s)
    ensures Closed(Put(s, t, {}, k, row)) <==> RowResolves(s, t, row)
  {
    hide RowResolves, Closed, TableResolves;
    var next := Put(s, t, {}, k, row);
    PutShape(s, t, k, row);
    hide Put;
    if RowResolves(s, t, row) {
      forall u: Table ensures TableResolves(next, u) {
        ClosedTable(s, u);
        if u == t {
          OwnTableResolves(s, next, t, k, row);
        } else {
          StillResolves(s, next, u);
        }
      }
      EveryTable(next);
    } else if Closed(next) {
      ClosedTable(next, t);
      RowOfTable(next, t, k);
      SameParents(s, next, t, row);
    }
  }

  lemma RowOfTable(s: Store, t: Table, k: string)
    requires TableResolves(s, t) && k in s.At(t)
    ensures RowResolves(s, t, s.At(t)[k])
  {
  }

  lemma ParentsDiffer(t: Table)
    ensures forall c :: Parent(t, c) != Some(t)
  {
  }

  /** A row of a table with one referring column. */
  lemma OneReference(s: Store, t: Table, row: Row, c: Column)
    requires c in row && Parent(t, c).Some? && forall b :: Parent(t, b).Some? ==> b == c
    ensures RowResolves(s, t, row) <==> Resolves(s, Parent(t, c).value, row[c])
  {
    hide Parent;
  }

  lemma EveryTable(s: Store)
    requires forall t: Table :: TableResolves(s, t)
    ensures Closed(s)
  {
    hide TableResolves;
  }

  lemma SameParents(s: Store, next: Store, t: Table, row: Row)
    requires OnlyIn(s, next, t)
    ensures RowResolves(next, t, row) <==> RowResolves(s, t, row)
  {
    ParentsDiffer(t);
    hide Parent;
  }

  /** References go on resolving when no key is lost. */
  lemma StillResolves(s: Store, next: Store, u: Table)
    requires TableResolves(s, u) && next.At(u) == s.At(u)
    requires forall t: Table :: s.At(t).Keys <= next.At(t).Keys
    ensures TableResolves(next, u)
  {
    hide Parent;
    forall k | k in next.At(u) ensures RowResolves(next, u, next.At(u)[k]) {
      assert RowResolves(s, u, s.At(u)[k]);
    }
  }

  // ---------------------------------------------------------------- overwriting

  /** The row that the list leaves under a key: that of the last object with the key. */
  function LastRow(numeric: string -> Cell, t: Table, items: seq<Item>, k: string): Option<Row> {
    if items == [] then None else
      var item := items[|items| - 1];
      if ItemKey(numeric, t, item) == Some(k) then Some(Completed(t, BoundRow(numeric, t, item.fields)))
      else LastRow(numeric, t, items[..|items| - 1], k)
  }

  /** It is the row of an object with the key such that no later object has the key. */
  lemma {:induction false} LastRowIsLast(numeric: string -> Cell, t: Table, items: seq<Item>, k: string)
    returns (i: nat)
    ensures LastRow(numeric, t, items, k).None? <==> forall item <- items :: ItemKey(numeric, t, item) != Some(k)
    ensures LastRow(numeric, t, items, k).Some? ==>
              && i < |items| && ItemKey(numeric, t, items[i]) == Some(k)
              && (forall j :: i < j < |items| ==> ItemKey(numeric, t, items[j]) != Some(k))
              && LastRow(numeric, t, items, k).value == Completed(t, BoundRow(numeric, t, items[i].fields))
  {
    hide ItemKey, BoundRow, Completed;
    if items == [] {
      i := 0;
    } else {
      var n := |items| - 1;
      i := LastRowIsLast(numeric, t, items[..n], k);
      assert items == items[..n] + [items[n]];
      if ItemKey(numeric, t, items[n]) == Some(k) { i := n; }
    }
  }

  /** One REPLACE in a table without a second unique column. */
  lemma ReplaceOne(numeric: string -> Cell, s: Store, t: Table, item: Item)
    requires t != Users && Closed(s) && ItemKey(numeric, t, item).Some?
    ensures var k, full := ItemKey(numeric, t, item).value, Completed(t, BoundRow(numeric, t, item.fields));
            Insert(numeric, s, t, item, true)
            == if Complete(t, full) && RowResolves(s, t, full) then Inserted(Put(s, t, {}, k, full)) else Error
  {
    var k, full := ItemKey(numeric, t, item).value, Completed(t, BoundRow(numeric, t, item.fields));
    assert Clashing(s, t, full) == {};
    hide ItemKey, BoundRow, Completed, Complete, Closed, RowResolves, Clashing;
    PutResolves(s, t, k, full);
  }

  /** The row an object brings is storable: nothing mandatory is missing and every reference resolves. */
  predicate Storable(numeric: string -> Cell, s: Store, t: Table, item: Item) {
    item.Object? ==>
      var full := Completed(t, BoundRow(numeric, t, item.fields)); Complete(t, full) && RowResolves(s, t, full)
  }

  lemma SameStorable(numeric: string -> Cell, s: Store, next: Store, t: Table, item: Item)
    requires OnlyIn(s, next, t)
    ensures Storable(numeric, next, t, item) <==> Storable(numeric, s, t, item)
  {
    hide BoundRow, Completed, Complete;
    if item.Object? { SameParents(s, next, t, Completed(t, BoundRow(numeric, t, item.fields))); }
  }

  function RowAt(s: Store, t: Table, k: string): Option<Row> {
    if k in s.At(t) then Some(s.At(t)[k]) else None
  }

  /** `next` is `s` with the last row of every key of the list put into the table. */
  ghost predicate LastWins(numeric: string -> Cell, s: Store, next: Store, t: Table, items: seq<Item>) {
    && OnlyIn(s, next, t)
    && forall k :: RowAt(next, t, k) == LastRow(numeric, t, items, k).Or(RowAt(s, t, k))
  }

  ghost predicate AllStorable(numeric: string -> Cell, s: Store, t: Table, items: seq<Item>) {
    forall item <- items :: Storable(numeric, s, t, item)
  }

  lemma AllStorableStep(numeric: string -> Cell, s: Store, t: Table, front: seq<Item>, item: Item)
    ensures AllStorable(numeric, s, t, front + [item])
            <==> AllStorable(numeric, s, t, front) && Storable(numeric, s, t, item)
  {
    hide Storable;
    assert forall x <- front :: x in front + [item];
    assert item in front + [item];
  }

  lemma KeyedStep(numeric: string -> Cell, t: Table, front: seq<Item>, item: Item)
    requires Keyed(numeric, t, front + [item])
    ensures Keyed(numeric, t, front) && (item.Object? ==> ItemKey(numeric, t, item).Some?)
  {
    hide ItemKey;
    assert forall x <- front :: x in front + [item];
    assert item in front + [item];
  }

  ghost predicate Overwritten(numeric: string -> Cell, s: Store, t: Table, items: seq<Item>, p: Progress) {
    && (p.Progress? <==> AllStorable(numeric, s, t, items))
    && (p.Progress? ==> Closed(p.store) && LastWins(numeric, s, p.store, t, items) && p.imported == Objects(items))
  }

  lemma OverwriteStep(numeric: string -> Cell, s: Store, t: Table, front: seq<Item>, item: Item, p: Progress)
    requires t != Users && (item.Object? ==> ItemKey(numeric, t, item).Some?)
    requires Overwritten(numeric, s, t, front, p)
    ensures Overwritten(numeric, s, t, front + [item], ImportItem(numeric, p, t, item, true))
  {
    AllStorableStep(numeric, s, t, front, item);
    assert (front + [item])[..|front|] == front;
    hide LastWins, AllStorable, ItemKey, Closed, Storable, Insert;
    if p.Failed? {
    } else if !item.Object? {
      NotObjectLast(numeric, s, p.store, t, front);
      StorableAnyway(numeric, s, t, item);
    } else {
      LastWinsOnlyIn(numeric, s, p.store, t, front);
      hide OnlyIn;
      SameStorable(numeric, s, p.store, t, item);
      ReplaceLast(numeric, s, p.store, t, front, item);
    }
  }

  /**
   * An overwriting import of a table whose only uniqueness is its key commits exactly when every object is storable;
   * then each key holds the row of its last object, and every object counts as imported.
   */
  lemma {:induction false} OverwriteIsLastWins(numeric: string -> Cell, s: Store, t: Table, items: seq<Item>)
    requires t != Users && Closed(s) && Keyed(numeric, t, items)
    ensures var p := ImportItems(numeric, s, t, items, true);
            && (p.Progress? <==> AllStorable(numeric, s, t, items))
            && (p.Progress? ==>
                  Closed(p.store) && LastWins(numeric, s, p.store, t, items) && p.imported == Objects(items))
  {
    hide ItemKey, Closed, Storable, Insert, Keyed, ImportItem;
    if items == [] {
    } else {
      var n := |items| - 1;
      var front, item := items[..n], items[n];
      assert items == front + [item];
      KeyedStep(numeric, t, front, item);
      OverwriteIsLastWins(numeric, s, t, front);
      hide LastWins, AllStorable;
      OverwriteStep(numeric, s, t, front, item, ImportItems(numeric, s, t, front, true));
    }
  }

  lemma LastWinsOnlyIn(numeric: string -> Cell, s: Store, next: Store, t: Table, items: seq<Item>)
    requires LastWins(numeric, s, next, t, items)
    ensures OnlyIn(s, next, t)
  {
  }

  lemma StorableAnyway(numeric: string -> Cell, s: Store, t: Table, item: Item)
    requires !item.Object?
    ensures Storable(numeric, s, t, item)
  {
  }

  lemma NotObjectLast(numeric: string -> Cell, s: Store, next: Store, t: Table, front: seq<Item>)
    requires LastWins(numeric, s, next, t, front)
    ensures LastWins(numeric, s, next, t, front + [NotObject])
  {
    LastOfOneMore(numeric, t, front, NotObject);
    assert ItemKey(numeric, t, NotObject).None?;
    hide LastRow, ItemKey, OnlyIn;
  }

  lemma ReplaceLast(numeric: string -> Cell, s: Store, mid: Store, t: Table, front: seq<Item>, item: Item)
    requires t != Users && Closed(mid) && ItemKey(numeric, t, item).Some?
    requires LastWins(numeric, s, mid, t, front)
    ensures var r := Insert(numeric, mid, t, item, true);
            && (r.Inserted? <==> Storable(numeric, mid, t, item)) && !r.Ignored?
            && (r.Inserted? ==> Closed(r.store) && LastWins(numeric, s, r.store, t, front + [item]))
  {
    ReplaceOne(numeric, mid, t, item);
    var k, full := ItemKey(numeric, t, item).value, Completed(t, BoundRow(numeric, t, item.fields));
    KeyIsOfObject(numeric, t, item);
    hide ItemKey, BoundRow, Completed, Complete, Insert, Closed, RowResolves, LastWins, OnlyIn;
    if Complete(t, full) && RowResolves(mid, t, full) {
      PutResolves(mid, t, k, full);
      PutShape(mid, t, k, full);
      hide Put;
      LastWinsStep(numeric, s, mid, Put(mid, t, {}, k, full), t, front, item);
    } else {
    }
  }

  lemma LastWinsStep(numeric: string -> Cell, s: Store, mid: Store, next: Store, t: Table, front: seq<Item>, item: Item)
    requires ItemKey(numeric, t, item).Some? && LastWins(numeric, s, mid, t, front) && OnlyIn(mid, next, t)
    requires next.At(t) == mid.At(t)[ItemKey(numeric, t, item).value := Completed(t, BoundRow(numeric, t, item.fields))]
    ensures LastWins(numeric, s, next, t, front + [item])
  {
    LastOfOneMore(numeric, t, front, item);
    hide ItemKey, BoundRow, Completed, LastRow;
  }

  lemma LastOfOneMore(numeric: string -> Cell, t: Table, front: seq<Item>, item: Item)
    ensures forall k :: LastRow(numeric, t, front + [item], k)
                        == if ItemKey(numeric, t, item) == Some(k)
                           then Some(Completed(t, BoundRow(numeric, t, item.fields)))
                           else LastRow(numeric, t, front, k)
  {
    hide ItemKey, BoundRow, Completed;
    assert (front + [item])[..|front|] == front;
  }

  // ---------------------------------------------------------------- how many rows an overwrite leaves

  /** No two objects of the list have the same key. */
  ghost predicate DistinctKeys(numeric: string -> Cell, t: Table, items: seq<Item>) {
    forall i, j :: 0 <= i < j < |items| && ItemKey(numeric, t, items[j]).Some? ==>
      ItemKey(numeric, t, items[i]) != ItemKey(numeric, t, items[j])
  }

  function KeysOf(numeric: string -> Cell, t: Table, items: seq<Item>): set<string> {
    if items == [] then {} else
      var k := ItemKey(numeric, t, items[|items| - 1]);
      KeysOf(numeric, t, items[..|items| - 1]) + if k.Some? then {k.value} else {}
  }

  lemma {:induction false} KeysAreOfRows(numeric: string -> Cell, t: Table, items: seq<Item>, k: string)
    ensures k in KeysOf(numeric, t, items) <==> LastRow(numeric, t, items, k).Some?
  {
    hide ItemKey, BoundRow, Completed;
    if items == [] {
    } else {
      KeysAreOfRows(numeric, t, items[..|items| - 1], k);
    }
  }

  lemma {:induction false} KeyIsThere(numeric: string -> Cell, t: Table, items: seq<Item>, k: string)
    ensures k in KeysOf(numeric, t, items) <==> exists i :: 0 <= i < |items| && ItemKey(numeric, t, items[i]) == Some(k)
  {
    hide ItemKey;
    if items == [] {
    } else {
      var n := |items| - 1;
      KeyIsThere(numeric, t, items[..n], k);
      assert forall i :: 0 <= i < n ==> items[..n][i] == items[i];
    }
  }

  lemma DistinctStep(numeric: string -> Cell, t: Table, front: seq<Item>, item: Item)
    ensures DistinctKeys(numeric, t, front + [item])
            <==> && DistinctKeys(numeric, t, front)
                 && (ItemKey(numeric, t, item).Some? ==> ItemKey(numeric, t, item).value !in KeysOf(numeric, t, front))
  {
    var items, n, key := front + [item], |front|, ItemKey(numeric, t, item);
    hide ItemKey, KeysOf;
    if key.Some? { KeyIsThere(numeric, t, front, key.value); }
    assert items[n] == item && forall i :: 0 <= i < n ==> items[i] == front[i];
    if key.Some? && key.value in KeysOf(numeric, t, front) {
      var i :| 0 <= i < n && ItemKey(numeric, t, front[i]) == key;
      assert ItemKey(numeric, t, items[i]) == ItemKey(numeric, t, items[n]);
    }
  }

  lemma KeyIsOfObject(numeric: string -> Cell, t: Table, item: Item)
    ensures ItemKey(numeric, t, item).Some? ==> item.Object?
  {
  }

  lemma {:induction false} KeysCounted(numeric: string -> Cell, t: Table, items: seq<Item>)
    requires Keyed(numeric, t, items)
    ensures |KeysOf(numeric, t, items)| <= Objects(items)
    ensures |KeysOf(numeric, t, items)| == Objects(items) <==> DistinctKeys(numeric, t, items)
  {
    if items == [] {
    } else {
      var n := |items| - 1;
      var front, item := items[..n], items[n];
      assert items == front + [item];
      KeysCounted(numeric, t, front);
      DistinctStep(numeric, t, front, item);
      KeyIsOfObject(numeric, t, item);
      hide ItemKey, DistinctKeys;
      assert item.Object? ==> ItemKey(numeric, t, item).Some?;
    }
  }

  /** Into an empty table, the imported count bounds the rows there are, and equals them exactly when no key repeats. */
  lemma OverwriteSize(numeric: string -> Cell, s: Store, t: Table, items: seq<Item>)
    requires t != Users && Closed(s) && Keyed(numeric, t, items) && s.At(t) == map[]
    requires ImportItems(numeric, s, t, items, true).Progress?
    ensures var p := ImportItems(numeric, s, t, items, true);
            && |p.store.At(t)| <= p.imported
            && (|p.store.At(t)| == p.imported <==> DistinctKeys(numeric, t, items))
  {
    OverwriteIsLastWins(numeric, s, t, items);
    KeysCounted(numeric, t, items);
    var p := ImportItems(numeric, s, t, items, true);
    hide ItemKey, ImportItems, DistinctKeys, Keyed, Closed, LastRow, KeysOf, AllStorable;
    forall k ensures k in p.store.At(t).Keys <==> k in KeysOf(numeric, t, items) {
      assert k in p.store.At(t) <==> RowAt(p.store, t, k).Some?;
      KeysAreOfRows(numeric, t, items, k);
    }
    assert p.store.At(t).Keys == KeysOf(numeric, t, items);
  }
}
