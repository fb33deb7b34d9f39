/** What an overwriting import leaves: of the users the last of each id and name, and of a whole file the last rows. */
module Overwrites {
  import opened Wrappers
  import opened Rows
  import opened Imports
  import opened Merges
  import opened RoundTrip

  // ---------------------------------------------------------------- the users

  /** The user that an object brings, and its name. */
  function UserOf(numeric: string -> Cell, item: Item): Row
    requires item.Object?
  {
    Completed(Users, BoundRow(numeric, Users, item.fields))
  }

  function NameIn(numeric: string -> Cell, item: Item): Cell
    requires item.Object?
  {
    CellOf(UserOf(numeric, item), Username)
  }

  /** The object takes the place of a user: it has the user's id or the user's name. */
  predicate Displaces(numeric: string -> Cell, item: Item, k: string, row: Row) {
    item.Object? && (ItemKey(numeric, Users, item) == Some(k) || NameIn(numeric, item) == CellOf(row, Username))
  }

  /** The user that the list leaves under an id. */
  function LastUser(numeric: string -> Cell, items: seq<Item>, k: string): Option<Row> {
    if items == [] then None else
      var n := |items| - 1;
      var before := LastUser(numeric, items[..n], k);
      if items[n].Object? && ItemKey(numeric, Users, items[n]) == Some(k) then Some(UserOf(numeric, items[n]))
      else if before.Some? && Displaces(numeric, items[n], k, before.value) then None
      else before
  }

  /** The object has the id, and no later object has the id or the name. */
  predicate IsLast(numeric: string -> Cell, items: seq<Item>, i: nat, k: string) {
    && i < |items| && items[i].Object? && ItemKey(numeric, Users, items[i]) == Some(k)
    && forall j :: i < j < |items| ==> !Displaces(numeric, items[j], k, UserOf(numeric, items[i]))
  }

  /** A user that is left is that of such an object. */
  lemma {:induction false} LastUserIsLast(numeric: string -> Cell, items: seq<Item>, k: string) returns (i: nat)
    ensures LastUser(numeric, items, k).Some? ==>
              IsLast(numeric, items, i, k) && LastUser(numeric, items, k).value == UserOf(numeric, items[i])
  {
    hide Displaces, UserOf, ItemKey;
    i := 0;
    if items != [] {
      var n := |items| - 1;
      i := LastUserIsLast(numeric, items[..n], k);
      if items[n].Object? && ItemKey(numeric, Users, items[n]) == Some(k) { i := n; }
    }
  }

  /** And each such object leaves its user. */
  lemma {:induction false} LastIsLeft(numeric: string -> Cell, items: seq<Item>, i: nat, k: string)
    requires IsLast(numeric, items, i, k)
    ensures LastUser(numeric, items, k) == Some(UserOf(numeric, items[i]))
    decreases |items|
  {
    hide UserOf, ItemKey, Displaces;
    var n := |items| - 1;
    if i < n {
      NotItsId(numeric, items[n], k, UserOf(numeric, items[i]));
      assert !Displaces(numeric, items[n], k, UserOf(numeric, items[i]));
      assert items[..n][i] == items[i];
      assert forall j :: i < j < n ==> items[..n][j] == items[j];
      LastIsLeft(numeric, items[..n], i, k);
    }
  }

  lemma NotItsId(numeric: string -> Cell, item: Item, k: string, row: Row)
    requires !Displaces(numeric, item, k, row)
    ensures item.Object? ==> ItemKey(numeric, Users, item) != Some(k)
  {
  }

  /** The database's own user is left when no object has its id or its name. */
  ghost predicate Undisturbed(numeric: string -> Cell, items: seq<Item>, k: string, row: Row) {
    forall item <- items :: !Displaces(numeric, item, k, row)
  }

  /** The user under an id after the list: the one the list leaves, or else the undisturbed one of the database. */
  ghost function Left(numeric: string -> Cell, s: Store, items: seq<Item>, k: string): Option<Row> {
    LastUser(numeric, items, k).Or(
      if k in s.users && Undisturbed(numeric, items, k, s.users[k]) then Some(s.users[k]) else None)
  }

  /** What one REPLACE with the id and the row makes of the user under an id. */
  function Replaced(k: string, row: Row, j: string, user: Option<Row>): Option<Row> {
    if j == k then Some(row)
    else if user.Some? && CellOf(user.value, Username) == CellOf(row, Username) then None
    else user
  }

  ghost predicate UsersReplaced(numeric: string -> Cell, s: Store, next: Store, items: seq<Item>) {
    OnlyIn(s, next, Users) && forall k :: RowAt(next, Users, k) == Left(numeric, s, items, k)
  }

  /** One REPLACE of a user: the users with its id or its name go, and it is put in. */
  lemma ReplaceUser(numeric: string -> Cell, s: Store, item: Item)
    requires ItemKey(numeric, Users, item).Some? && Insert(numeric, s, Users, item, true).Inserted?
    ensures var k, row := ItemKey(numeric, Users, item).value, UserOf(numeric, item);
            var next := Insert(numeric, s, Users, item, true).store;
            && item.Object? && OnlyIn(s, next, Users)
            && forall j :: RowAt(next, Users, j) == Replaced(k, row, j, RowAt(s, Users, j))
  {
    var k, row := ItemKey(numeric, Users, item).value, UserOf(numeric, item);
    KeyIsOfObject(numeric, Users, item);
    hide ItemKey, BoundRow, Completed, Complete, Closed;
    var next := Insert(numeric, s, Users, item, true).store;
    assert next == s.With(Users, (s.users - Clashing(s, Users, row))[k := row]);
  }

  lemma LeftStep(numeric: string -> Cell, s: Store, front: seq<Item>, item: Item, j: string)
    requires item.Object? && ItemKey(numeric, Users, item).Some?
    ensures Left(numeric, s, front + [item], j)
            == Replaced(ItemKey(numeric, Users, item).value, UserOf(numeric, item), j, Left(numeric, s, front, j))
  {
    assert (front + [item])[..|front|] == front;
    if j in s.users {
      UndisturbedStep(numeric, front, item, j, s.users[j]);
      if LastUser(numeric, front, j).Some? { LastDisturbs(numeric, front, j, s.users[j]); }
    }
    hide UserOf, ItemKey, Undisturbed;
  }

  lemma LastDisturbs(numeric: string -> Cell, items: seq<Item>, k: string, row: Row)
    requires LastUser(numeric, items, k).Some?
    ensures !Undisturbed(numeric, items, k, row)
  {
    var i := LastUserIsLast(numeric, items, k);
    hide LastUser, UserOf, ItemKey;
    assert Displaces(numeric, items[i], k, row);
  }

  lemma UndisturbedStep(numeric: string -> Cell, front: seq<Item>, item: Item, k: string, row: Row)
    ensures Undisturbed(numeric, front + [item], k, row)
            <==> Undisturbed(numeric, front, k, row) && !Displaces(numeric, item, k, row)
  {
    hide Displaces;
    assert forall x <- front :: x in front + [item];
    assert item in front + [item];
  }

  lemma UsersStep(numeric: string -> Cell, s: Store, mid: Store, next: Store, front: seq<Item>, item: Item)
    requires item.Object? && ItemKey(numeric, Users, item).Some? && UsersReplaced(numeric, s, mid, front)
    requires OnlyIn(mid, next, Users)
    requires var k, row := ItemKey(numeric, Users, item).value, UserOf(numeric, item);
             forall j :: RowAt(next, Users, j) == Replaced(k, row, j, RowAt(mid, Users, j))
    ensures UsersReplaced(numeric, s, next, front + [item])
  {
    hide Left, Replaced, ItemKey, UserOf, Store.At;
    forall j ensures RowAt(next, Users, j) == Left(numeric, s, front + [item], j) {
      LeftStep(numeric, s, front, item, j);
    }
  }

  /**
   * After an overwriting import of users, each id holds the user of the object with the id that no later object
   * displaces by id or name, or else the user that was there, when no object displaces it.
   */
  lemma {:induction false} OverwriteUsers(numeric: string -> Cell, s: Store, items: seq<Item>)
    requires Keyed(numeric, Users, items)
    ensures var p := ImportItems(numeric, s, Users, items, true);
            p.Progress? ==> UsersReplaced(numeric, s, p.store, items)
  {
    hide Keyed, Insert, UserOf, ItemKey;
    if items == [] {
    } else {
      var n := |items| - 1;
      var front, item := items[..n], items[n];
      assert items == front + [item];
      KeyedStep(numeric, Users, front, item);
      OverwriteUsers(numeric, s, front);
      hide UsersReplaced;
      var p := ImportItems(numeric, s, Users, front, true);
      if p.Progress? {
        if item.Object? {
          if Insert(numeric, p.store, Users, item, true).Inserted? {
            var next := Insert(numeric, p.store, Users, item, true).store;
            ReplaceUser(numeric, p.store, item);
            UsersStep(numeric, s, p.store, next, front, item);
          }
          NeverIgnored(numeric, p.store, item);
        } else {
          NotAUser(numeric, s, p.store, front);
        }
      }
    }
  }

  lemma NeverIgnored(numeric: string -> Cell, s: Store, item: Item)
    requires ItemKey(numeric, Users, item).Some?
    ensures !Insert(numeric, s, Users, item, true).Ignored?
  {
    hide ItemKey, BoundRow, Completed, Complete, Closed, Clashing;
  }

  lemma NotAUser(numeric: string -> Cell, s: Store, next: Store, front: seq<Item>)
    requires UsersReplaced(numeric, s, next, front)
    ensures UsersReplaced(numeric, s, next, front + [NotObject])
  {
    var items := front + [NotObject];
    assert items[..|front|] == front;
    hide UserOf, ItemKey;
    forall j ensures Left(numeric, s, items, j) == Left(numeric, s, front, j) {
      if j in s.users { UndisturbedStep(numeric, front, NotObject, j, s.users[j]); }
      hide Undisturbed;
    }
    hide Left;
  }

  // ---------------------------------------------------------------- when an overwriting import of users commits

  /** No object lacks a mandatory column without a default. */
  ghost predicate AllComplete(numeric: string -> Cell, items: seq<Item>) {
    forall item <- items :: item.Object? ==> Complete(Users, UserOf(numeric, item))
  }

  lemma CompleteStep(numeric: string -> Cell, front: seq<Item>, item: Item)
    ensures AllComplete(numeric, front + [item])
            <==> AllComplete(numeric, front) && (item.Object? ==> Complete(Users, UserOf(numeric, item)))
  {
    hide Complete, UserOf;
    assert forall x <- front :: x in front + [item];
    assert item in front + [item];
  }

  /** Nothing refers to a user. */
  predicate NobodyRefers(s: Store) {
    s.rooms == map[] && s.sessions == map[]
  }

  lemma UsersAreFree(s: Store, next: Store)
    requires Closed(s) && NobodyRefers(s) && OnlyIn(s, next, Users)
    ensures Closed(next) && NobodyRefers(next)
  {
    assert next.rooms == next.At(Rooms) == s.At(Rooms) && next.sessions == next.At(Sessions) == s.At(Sessions);
    forall t: Table ensures TableResolves(next, t) {
      ClosedTable(s, t);
      FreeTable(s, next, t);
    }
    hide Closed, TableResolves;
    EveryTable(next);
  }

  lemma FreeTable(s: Store, next: Store, t: Table)
    requires TableResolves(s, t) && OnlyIn(s, next, Users) && NobodyRefers(next)
    ensures TableResolves(next, t)
  {
    assert forall c :: Parent(Users, c).None?;
    if t == Users || t == Rooms || t == Sessions {
    } else {
      forall c ensures Parent(t, c) != Some(Users) { }
      hide Parent;
      forall k | k in next.At(t) ensures RowResolves(next, t, next.At(t)[k]) {
        assert RowResolves(s, t, s.At(t)[k]);
      }
    }
  }

  lemma ReplaceCommits(numeric: string -> Cell, s: Store, item: Item)
    requires Closed(s) && NobodyRefers(s) && ItemKey(numeric, Users, item).Some? && item.Object?
    ensures var r := Insert(numeric, s, Users, item, true);
            && (r.Inserted? <==> Complete(Users, UserOf(numeric, item))) && !r.Ignored?
            && (r.Inserted? ==> Closed(r.store) && NobodyRefers(r.store))
  {
    var k, row := ItemKey(numeric, Users, item).value, UserOf(numeric, item);
    var next := Put(s, Users, Clashing(s, Users, row), k, row);
    assert OnlyIn(s, next, Users);
    hide ItemKey, BoundRow, Completed, Complete, Closed, Clashing, Put, OnlyIn;
    UsersAreFree(s, next);
  }

  /**
   * While nothing refers to a user, as after the clearing that precedes it, an overwriting import of users commits
   * exactly when no object lacks a mandatory column, and counts every object as imported.
   */
  lemma {:induction false} OverwriteUsersCommits(numeric: string -> Cell, s: Store, items: seq<Item>)
    requires Closed(s) && NobodyRefers(s) && Keyed(numeric, Users, items)
    ensures var p := ImportItems(numeric, s, Users, items, true);
            && (p.Progress? <==> AllComplete(numeric, items))
            && (p.Progress? ==> Closed(p.store) && NobodyRefers(p.store) && p.imported == Objects(items))
  {
    hide Keyed, Insert, UserOf, ItemKey, Closed, NobodyRefers, Complete;
    if items == [] {
    } else {
      var n := |items| - 1;
      var front, item := items[..n], items[n];
      assert items == front + [item];
      KeyedStep(numeric, Users, front, item);
      CompleteStep(numeric, front, item);
      OverwriteUsersCommits(numeric, s, front);
      hide AllComplete;
      var p := ImportItems(numeric, s, Users, front, true);
      if p.Progress? && item.Object? {
        ReplaceCommits(numeric, p.store, item);
      }
    }
  }

  // ---------------------------------------------------------------- names stay unique

  /** Whatever an import of users does, in either mode, no two users have one name if none had before. */
  lemma {:induction false} ImportKeepsNames(numeric: string -> Cell, s: Store, items: seq<Item>, overwrite: bool)
    requires UniqueNames(s.users) && Keyed(numeric, Users, items)
    ensures var p := ImportItems(numeric, s, Users, items, overwrite);
            p.Progress? ==> UniqueNames(p.store.users)
  {
    hide Keyed, Insert, ItemKey, UniqueNames, Skips;
    if items == [] {
    } else {
      var n := |items| - 1;
      var front, item := items[..n], items[n];
      assert items == front + [item];
      KeyedStep(numeric, Users, front, item);
      ImportKeepsNames(numeric, s, front, overwrite);
      var p := ImportItems(numeric, s, Users, front, overwrite);
      if p.Progress? && item.Object? {
        if Insert(numeric, p.store, Users, item, overwrite).Inserted? {
          InsertKeepsNames(numeric, p.store, item, overwrite);
        }
      }
    }
  }

  lemma InsertKeepsNames(numeric: string -> Cell, s: Store, item: Item, overwrite: bool)
    requires UniqueNames(s.users) && ItemKey(numeric, Users, item).Some?
    requires Insert(numeric, s, Users, item, overwrite).Inserted?
    ensures UniqueNames(Insert(numeric, s, Users, item, overwrite).store.users)
  {
    var next := Insert(numeric, s, Users, item, overwrite).store;
    if overwrite {
      ReplaceUser(numeric, s, item);
      ReplacedNames(s, next, ItemKey(numeric, Users, item).value, UserOf(numeric, item));
    } else {
      var k, row := ItemKey(numeric, Users, item).value, BoundRow(numeric, Users, item.fields);
      hide ItemKey, BoundRow, Complete, Closed;
      assert next.users == (s.users - {})[k := row] && Clashing(s, Users, row) == {};
      forall j | j in s.users ensures CellOf(s.users[j], Username) != CellOf(row, Username) {
        assert j !in Clashing(s, Users, row);
      }
    }
  }

  lemma ReplacedNames(s: Store, next: Store, k: string, row: Row)
    requires UniqueNames(s.users)
    requires forall j :: RowAt(next, Users, j) == Replaced(k, row, j, RowAt(s, Users, j))
    ensures UniqueNames(next.users)
  {
    hide CellOf;
    forall a, b | a in next.users && b in next.users
                  && CellOf(next.users[a], Username) == CellOf(next.users[b], Username)
      ensures a == b
    {
      assert RowAt(next, Users, a) == Replaced(k, row, a, RowAt(s, Users, a));
      assert RowAt(next, Users, b) == Replaced(k, row, b, RowAt(s, Users, b));
    }
  }

  // ---------------------------------------------------------------- a whole file

  /** The table's rows are the last ones that the file has under each key; of users, by id and name. */
  ghost predicate TookLast(numeric: string -> Cell, next: Store, t: Table, items: seq<Item>) {
    forall k :: RowAt(next, t, k) == if t == Users then LastUser(numeric, items, k) else LastRow(numeric, t, items, k)
  }

  lemma TableTookLast(numeric: string -> Cell, s: Store, t: Table, items: seq<Item>)
    requires Closed(s) && Keyed(numeric, t, items) && s.At(t) == map[]
    requires ImportItems(numeric, s, t, items, true).Progress?
    ensures var p := ImportItems(numeric, s, t, items, true);
            OnlyIn(s, p.store, t) && TookLast(numeric, p.store, t, items)
  {
    hide Closed, Keyed, ImportItems, LastRow, LastUser, OnlyIn, AllStorable, Undisturbed;
    if t == Users {
      OverwriteUsers(numeric, s, items);
    } else {
      OverwriteIsLastWins(numeric, s, t, items);
      LastWinsOnlyIn(numeric, s, ImportItems(numeric, s, t, items, true).store, t, items);
    }
  }

  lemma {:induction false} ImportStaysClosed(numeric: string -> Cell, s: Store, t: Table, items: seq<Item>)
    requires Closed(s) && Keyed(numeric, t, items)
    ensures var p := ImportItems(numeric, s, t, items, true);
            p.Progress? ==> Closed(p.store)
  {
    hide Closed, Keyed, ItemKey, BoundRow, Completed, Complete, Put;
    if items == [] {
    } else {
      var n := |items| - 1;
      assert items == items[..n] + [items[n]];
      KeyedStep(numeric, t, items[..n], items[n]);
      ImportStaysClosed(numeric, s, t, items[..n]);
    }
  }

  ghost predicate LoadedLast(numeric: string -> Cell, data: Backup, tables: seq<Table>, l: Load)
  {
    l.Loaded? ==>
      && Closed(l.store) && UniqueNames(l.store.users)
      && (forall t: Table :: t !in tables ==> l.store.At(t) == map[])
      && forall t <- tables :: TookLast(numeric, l.store, t, data.Of(t))
  }

  lemma {:induction false} LoadsTakeLast(numeric: string -> Cell, data: Backup, tables: seq<Table>)
    requires data.AllKeyed(numeric) && DistinctTables(tables)
    ensures LoadedLast(numeric, data, tables, LoadTables(numeric, BLANK, data, tables, true))
  {
    hide Closed, Keyed, LoadTable, TookLast, Backup.Of;
    if tables == [] {
      BlankIsClosed();
    } else {
      var n := |tables| - 1;
      assert tables == tables[..n] + [tables[n]];
      LoadsTakeLast(numeric, data, tables[..n]);
      hide LoadedLast;
      LoadNext(numeric, data, tables[..n], tables[n], LoadTables(numeric, BLANK, data, tables[..n], true));
    }
  }

  lemma BlankIsClosed()
    ensures Closed(BLANK) && UniqueNames(BLANK.users) && forall t: Table :: BLANK.At(t) == map[]
  {
  }

  lemma LoadNext(numeric: string -> Cell, data: Backup, front: seq<Table>, t: Table, l: Load)
    requires t !in front && Keyed(numeric, t, data.Of(t)) && LoadedLast(numeric, data, front, l)
    ensures LoadedLast(numeric, data, front + [t], LoadTable(numeric, l, t, data.Of(t), true))
  {
    hide Closed, Keyed, ImportItems, TookLast, UniqueNames, Backup.Of, Store.At;
    if l.Loaded? {
      var items := data.Of(t);
      var p := ImportItems(numeric, l.store, t, items, true);
      if p.Progress? {
        TableTookLast(numeric, l.store, t, items);
        ImportStaysClosed(numeric, l.store, t, items);
        NamesAfter(numeric, l.store, t, items);
        forall u | u in front + [t] ensures TookLast(numeric, p.store, u, data.Of(u)) {
          if u != t { SameTable(numeric, l.store, p.store, u, data.Of(u)); }
        }
      }
    }
  }

  lemma SameTable(numeric: string -> Cell, s: Store, next: Store, t: Table, items: seq<Item>)
    requires next.At(t) == s.At(t) && TookLast(numeric, s, t, items)
    ensures TookLast(numeric, next, t, items)
  {
    hide LastRow, LastUser, Store.At;
    forall k ensures RowAt(next, t, k) == RowAt(s, t, k) { }
  }

  lemma NamesAfter(numeric: string -> Cell, s: Store, t: Table, items: seq<Item>)
    requires Closed(s) && Keyed(numeric, t, items) && s.At(t) == map[] && UniqueNames(s.users)
    requires ImportItems(numeric, s, t, items, true).Progress?
    ensures UniqueNames(ImportItems(numeric, s, t, items, true).store.users)
  {
    hide Closed, Keyed, ImportItems, UniqueNames, TookLast;
    if t == Users {
      ImportKeepsNames(numeric, s, items, true);
    } else {
      TableTookLast(numeric, s, t, items);
      var p := ImportItems(numeric, s, t, items, true);
      assert p.store.users == p.store.At(Users) == s.At(Users) == s.users;
    }
  }

  /**
   * An overwriting import that commits leaves of every table exactly the rows that the file has last under each key, of
   * the users the last under each id and each name, and no session; whatever the database held before is gone.
   */
  lemma OverwriteLeavesLast(numeric: string -> Cell, s: Store, data: Backup)
    requires Closed(s) && data.AllKeyed(numeric) && Import(numeric, s, data, true).Loaded?
    ensures var l := Import(numeric, s, data, true);
            && (forall t <- LOAD_ORDER :: TookLast(numeric, l.store, t, data.Of(t)))
            && l.store.At(Sessions) == map[] && Closed(l.store) && UniqueNames(l.store.users)
  {
    OrdersAreOrders();
    ClearNeverDangles(s, CLEAR_ORDER);
    AllEmptied(s);
    hide Closed, Clear, Emptied, LoadTables, Backup.AllKeyed, TookLast, UniqueNames, ChildrenFirst, ParentsFirst,
         DistinctTables;
    LoadsTakeLast(numeric, data, LOAD_ORDER);
  }
}
