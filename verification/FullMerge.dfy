/** When a full backup can be merged, as the administrator's account is passed over, and what is then there. */
module FullMerge {
  import opened Wrappers
  import opened Listings
  import opened Rows
  import opened Imports
  import opened Merges
  import opened RoundTrip
  import opened Ownership
  import S = Schema
  import StoredTables

  // ---------------------------------------------------------------- merging the users

  /** The row's name is not the administrator's and no user of the database has it. */
  predicate NameIsFree(s: Store, row: Row) {
    && CellOf(row, Username) != Text("admin")
    && forall k <- s.users :: CellOf(s.users[k], Username) != CellOf(row, Username)
  }

  /** After merging the listed users into `s`, its users are those and the listed ones whose names were free. */
  ghost predicate UsersMerged(source: Store, s: Store, next: Store, ks: seq<string>) {
    && OnlyIn(s, next, Users)
    && (forall k ::
          k in next.users <==> k in s.users || (k in ks && k in source.users && NameIsFree(s, source.users[k])))
    && (forall k <- next.users :: next.users[k] == if k in s.users then s.users[k] else CellsOfUser(source, k))
  }

  function CellsOfUser(source: Store, k: string): Row {
    if k in source.users then source.users[k] else map[]
  }

  /** Among the users merged so far, the next one's name is taken exactly when it was taken before. */
  lemma NameStaysFree(source: Store, s: Store, mid: Store, front: seq<string>, k: string)
    requires UniqueNames(source.users) && UsersMerged(source, s, mid, front) && k in source.users && k !in front
             && k !in s.users
    ensures NameIsFree(s, source.users[k])
            <==> CellOf(source.users[k], Username) != Text("admin") && Clashing(mid, Users, source.users[k]) == {}
  {
    var row := source.users[k];
    if NameIsFree(s, row) {
      forall j | j in mid.users ensures CellOf(mid.users[j], Username) != CellOf(row, Username) {
        if j !in s.users { assert mid.users[j] == source.users[j] && j != k; }
      }
    }
    if Clashing(mid, Users, row) == {} {
      forall j | j in s.users ensures CellOf(s.users[j], Username) != CellOf(row, Username) {
        assert mid.users[j] == s.users[j];
        assert j !in Clashing(mid, Users, row);
      }
    }
  }

  lemma SkipsAdmin(row: Row)
    ensures Skips(Users, ExportRow(row), false) <==> CellOf(row, Username) == Text("admin")
  {
  }

  lemma UserRowResolves(s: Store, row: Row)
    ensures RowResolves(s, Users, row)
  {
    assert forall c :: Parent(Users, c).None?;
    hide Parent;
  }

  lemma MergeUser(numeric: string -> Cell, source: Store, s: Store, mid: Store, front: seq<string>, k: string,
                  imported: nat, skipped: nat)
    requires Sound(source) && Closed(mid) && UsersMerged(source, s, mid, front) && k in source.users && k !in front
    requires ItemKey(numeric, Users, ExportRow(source.users[k])).Some?
    ensures var p := ImportItem(numeric, Progress(mid, imported, skipped), Users, ExportRow(source.users[k]), false);
            p.Progress? && Closed(p.store) && UsersMerged(source, s, p.store, front + [k])
  {
    hide Sound, TypedRow, ExportRow, BoundRow, ItemKey, Complete, Skips, Insert, RowResolves, UsersMerged, CellOf, Put,
         Clashing, PassedOver, Store.At, Closed;
    var row := source.users[k];
    var item := ExportRow(row);
    TypedUser(source, k);
    RowRoundTrip(numeric, Users, k, row);
    MergeUserRow(source, s, mid, front, k);
    IgnoreOne(numeric, mid, Users, item);
    if Skips(Users, item, false) {
    } else if PassedOver(mid, Users, k, row) {
    } else {
    }
  }

  lemma TypedUser(source: Store, k: string)
    requires Sound(source) && k in source.users
    ensures TypedRow(Users, k, source.users[k]) && UniqueNames(source.users)
  {
    SoundTable(source, Users);
    hide TypedRow, Closed;
  }

  /** The three things that can happen to the next user's row. */
  lemma MergeUserRow(source: Store, s: Store, mid: Store, front: seq<string>, k: string)
    requires Sound(source) && Closed(mid) && UsersMerged(source, s, mid, front) && k in source.users && k !in front
    requires Complete(Users, source.users[k])
    ensures var row := source.users[k];
            var next := Put(mid, Users, {}, k, row);
            && RowResolves(mid, Users, row) && Closed(next)
            && (Skips(Users, ExportRow(row), false) ==> UsersMerged(source, s, mid, front + [k]))
            && (PassedOver(mid, Users, k, row) ==> UsersMerged(source, s, mid, front + [k]))
            && (!Skips(Users, ExportRow(row), false) && !PassedOver(mid, Users, k, row)
                ==> UsersMerged(source, s, next, front + [k]))
  {
    hide Sound, ExportRow, Complete, Skips, RowResolves, UsersMerged, CellOf, Put, Clashing, PassedOver, Store.At,
         Closed, UniqueNames, TypedRow;
    var row := source.users[k];
    TypedUser(source, k);
    SkipsAdmin(row);
    UserRowResolves(mid, row);
    PutResolves(mid, Users, k, row);
    if CellOf(row, Username) == Text("admin") { SkippedUser(source, s, mid, front, k); }
    if PassedOver(mid, Users, k, row) {
      PassedUser(source, s, mid, front, k);
    } else if CellOf(row, Username) != Text("admin") {
      InsertedUser(source, s, mid, front, k);
    }
  }

  lemma SkippedUser(source: Store, s: Store, mid: Store, front: seq<string>, k: string)
    requires UsersMerged(source, s, mid, front) && k in source.users
             && CellOf(source.users[k], Username) == Text("admin")
    ensures UsersMerged(source, s, mid, front + [k])
  {
    hide OnlyIn;
  }

  lemma PassedUser(source: Store, s: Store, mid: Store, front: seq<string>, k: string)
    requires UniqueNames(source.users) && UsersMerged(source, s, mid, front) && k in source.users && k !in front
    requires Complete(Users, source.users[k]) && PassedOver(mid, Users, k, source.users[k])
    ensures UsersMerged(source, s, mid, front + [k])
  {
    if k !in s.users { NameStaysFree(source, s, mid, front, k); }
    hide OnlyIn, Complete, UniqueNames, NameIsFree, Clashing;
  }

  lemma InsertedUser(source: Store, s: Store, mid: Store, front: seq<string>, k: string)
    requires UniqueNames(source.users) && UsersMerged(source, s, mid, front) && k in source.users && k !in front
    requires CellOf(source.users[k], Username) != Text("admin") && !PassedOver(mid, Users, k, source.users[k])
    ensures UsersMerged(source, s, Put(mid, Users, {}, k, source.users[k]), front + [k])
  {
    hide UsersMerged, Complete, UniqueNames, NameIsFree, Clashing, Put, OnlyIn;
    var next := Put(mid, Users, {}, k, source.users[k]);
    MergedKeeps(source, s, mid, front, k);
    NameStaysFree(source, s, mid, front, k);
    PutShape(mid, Users, k, source.users[k]);
    assert next.users == mid.users[k := source.users[k]];
    InsertedMerges(source, s, mid, next, front, k);
  }

  lemma MergedKeeps(source: Store, s: Store, mid: Store, front: seq<string>, k: string)
    requires UsersMerged(source, s, mid, front) && k !in mid.users
    ensures k !in s.users
  {
    hide OnlyIn;
  }

  lemma InsertedMerges(source: Store, s: Store, mid: Store, next: Store, front: seq<string>, k: string)
    requires k in source.users && k !in s.users && NameIsFree(s, source.users[k])
    requires UsersMerged(source, s, mid, front) && OnlyIn(mid, next, Users)
             && next.users == mid.users[k := source.users[k]]
    ensures UsersMerged(source, s, next, front + [k])
  {
    hide NameIsFree, Store.At;
  }

  /** Merging users never fails. */
  lemma {:induction false} MergeUsers(numeric: string -> Cell, source: Store, s: Store, ks: seq<string>)
    requires Sound(source) && Closed(s)
    requires (forall k <- ks :: k in source.users) && forall i, j :: 0 <= i < j < |ks| ==> ks[i] != ks[j]
    requires Keyed(numeric, Users, ExportRows(source.users, ks))
    ensures var p := ImportItems(numeric, s, Users, ExportRows(source.users, ks), false);
            p.Progress? && Closed(p.store) && UsersMerged(source, s, p.store, ks)
  {
    hide Sound, Closed, Keyed, ItemKey, ExportRow;
    if ks == [] {
    } else {
      hide UsersMerged, ExportRows, ImportItems, ImportItem;
      var n := |ks| - 1;
      var front, k := ks[..n], ks[n];
      assert ks == front + [k] && k !in front;
      ExportOneMore(source.users, front, k);
      ImportOneMore(numeric, s, Users, ExportRows(source.users, front), ExportRow(source.users[k]), false);
      ExportedIsObject(source.users[k]);
      MergeUsers(numeric, source, s, front);
      var p := ImportItems(numeric, s, Users, ExportRows(source.users, front), false);
      MergeUser(numeric, source, s, p.store, front, k, p.imported, p.skipped);
    }
  }

  // ---------------------------------------------------------------- merging the other tables

  /** What the list of a sound table's exported rows offers first for each key is the row itself. */
  lemma {:induction false} FirstIsOwn(numeric: string -> Cell, t: Table, rows: TableRows, ks: seq<string>, k: string)
    requires TypedTable(t, rows) && forall j <- ks :: j in rows
    ensures FirstRow(numeric, t, ExportRows(rows, ks), k) == if k in ks then Some(rows[k]) else None
  {
    hide TypedRow, ItemKey, BoundRow, Complete, ExportRow;
    if ks == [] {
    } else {
      var n := |ks| - 1;
      var front, last := ks[..n], ks[n];
      assert ks == front + [last];
      FirstIsOwn(numeric, t, rows, front, k);
      ExportOneMore(rows, front, last);
      FirstOfOneMore(numeric, t, ExportRows(rows, front), ExportRow(rows[last]));
      assert TypedRow(t, last, rows[last]);
      RowRoundTrip(numeric, t, last, rows[last]);
    }
  }

  /** The list offers, for each key, the row of `rows` with that key. */
  ghost predicate Offers(numeric: string -> Cell, t: Table, items: seq<Item>, rows: TableRows) {
    forall k :: FirstRow(numeric, t, items, k) == if k in rows then Some(rows[k]) else None
  }

  ghost predicate NewResolve(s: Store, t: Table, rows: TableRows) {
    forall k <- rows :: k !in s.At(t) ==> RowResolves(s, t, rows[k])
  }

  lemma OfferedResolve(numeric: string -> Cell, s: Store, t: Table, items: seq<Item>, rows: TableRows)
    requires Offers(numeric, t, items, rows)
    ensures NewRowsResolve(numeric, s, t, items) <==> NewResolve(s, t, rows)
  {
    hide FirstRow, RowResolves, Store.At;
    forall k | k in rows ensures FirstRow(numeric, t, items, k) == Some(rows[k]) { }
  }

  lemma OfferedKeys(numeric: string -> Cell, s: Store, next: Store, t: Table, items: seq<Item>, rows: TableRows)
    requires Offers(numeric, t, items, rows) && FirstWins(numeric, s, next, t, items)
    ensures next.At(t).Keys == s.At(t).Keys + rows.Keys
  {
    hide FirstRow, Store.At, OnlyIn;
    forall k ensures k in next.At(t) <==> k in s.At(t) || k in rows {
      assert RowAt(next, t, k) == RowAt(s, t, k).Or(FirstRow(numeric, t, items, k));
    }
  }

  /** Merging a sound table commits exactly when each of its new rows resolves, and then adds all of them. */
  lemma MergeTable(numeric: string -> Cell, source: Store, o: Order, s: Store, t: Table)
    requires Sound(source) && o.Covers(source) && t != Users && t != Sessions && Closed(s)
    requires Keyed(numeric, t, Export(source, o).Of(t))
    ensures var p := ImportItems(numeric, s, t, Export(source, o).Of(t), false);
            && (p.Progress? <==> NewResolve(s, t, source.At(t)))
            && (p.Progress? ==>
                  Closed(p.store) && OnlyIn(s, p.store, t)
                  && p.store.At(t).Keys == s.At(t).Keys + source.At(t).Keys)
  {
    hide Sound, Order.Covers, Export, Closed, Store.At, Keyed, ImportItems, OnlyIn, Offers, FirstWins, NewRowsResolve,
         NewResolve, Backup.Of;
    var items := Export(source, o).Of(t);
    ExportOffers(numeric, source, o, t);
    MergeIsFirstWins(numeric, s, t, items);
    OfferedResolve(numeric, s, t, items, source.At(t));
    var p := ImportItems(numeric, s, t, items, false);
    if p.Progress? {
      OfferedKeys(numeric, s, p.store, t, items, source.At(t));
      FirstWinsOnlyIn(numeric, s, p.store, t, items);
    }
  }

  lemma ExportOffers(numeric: string -> Cell, source: Store, o: Order, t: Table)
    requires Sound(source) && o.Covers(source) && t != Sessions
    ensures Offers(numeric, t, Export(source, o).Of(t), source.At(t))
  {
    assert Lists(o.Of(t), source.At(t).Keys);
    hide Sound, Order.Covers, Export, Store.At, TypedTable, ExportRows, Offers, Lists;
    ExportOf(source, o, t);
    SoundTable(source, t);
    RowsOffer(numeric, t, source.At(t), o.Of(t));
  }

  lemma RowsOffer(numeric: string -> Cell, t: Table, rows: TableRows, ks: seq<string>)
    requires TypedTable(t, rows) && Lists(ks, rows.Keys)
    ensures Offers(numeric, t, ExportRows(rows, ks), rows)
  {
    hide TypedTable, ExportRows, FirstRow;
    forall k ensures FirstRow(numeric, t, ExportRows(rows, ks), k) == if k in rows then Some(rows[k]) else None {
      FirstIsOwn(numeric, t, rows, ks, k);
    }
  }

  /** Every key of the listed tables of the source is there. */
  ghost predicate Includes(s: Store, source: Store, tables: seq<Table>) {
    forall t <- tables :: source.At(t).Keys <= s.At(t).Keys
  }

  lemma RowsResolveThere(source: Store, s: Store, t: Table, front: seq<Table>)
    requires Closed(source) && Includes(s, source, front)
    requires forall c: Column :: Parent(t, c).Some? ==> Parent(t, c).value in front
    ensures forall k <- source.At(t) :: RowResolves(s, t, source.At(t)[k])
  {
    ClosedTable(source, t);
    hide Parent, Closed, Store.At;
    forall k | k in source.At(t) ensures RowResolves(s, t, source.At(t)[k]) {
      assert RowResolves(source, t, source.At(t)[k]);
    }
  }

  lemma MergeNext(numeric: string -> Cell, source: Store, o: Order, front: seq<Table>, t: Table, l: Load)
    requires AllLoadable(numeric, source, o) && t != Users && t != Sessions && t !in front
    requires forall c: Column :: Parent(t, c).Some? ==> Parent(t, c).value in front
    requires l.Loaded? && Closed(l.store) && Includes(l.store, source, front)
    ensures Keyed(numeric, t, Export(source, o).Of(t))
    ensures var l' := LoadTable(numeric, l, t, Export(source, o).Of(t), false);
            l'.Loaded? && Closed(l'.store) && Includes(l'.store, source, front + [t])
  {
    assert Closed(source) && Keyed(numeric, t, Export(source, o).Of(t));
    hide Sound, Closed, Store.At, Parent, Export, Keyed, ImportItems, Order.Covers, Backup.Of, RowResolves;
    RowsResolveThere(source, l.store, t, front);
    assert NewResolve(l.store, t, source.At(t));
    hide NewResolve;
    MergeTable(numeric, source, o, l.store, t);
    var p := ImportItems(numeric, l.store, t, Export(source, o).Of(t), false);
    IncludesMore(l.store, p.store, source, front, t);
    hide Includes, OnlyIn;
  }

  lemma IncludesMore(s: Store, next: Store, source: Store, front: seq<Table>, t: Table)
    requires Includes(s, source, front) && OnlyIn(s, next, t) && next.At(t).Keys == s.At(t).Keys + source.At(t).Keys
    ensures Includes(next, source, front + [t])
  {
    hide Store.At;
    forall u | u in front + [t] ensures source.At(u).Keys <= next.At(u).Keys {
      if u != t { assert u in front && next.At(u) == s.At(u); }
    }
  }

  // ---------------------------------------------------------------- the whole merge

  lemma Slices<T>(s: seq<T>, i: nat)
    requires 1 <= i < |s|
    ensures s[1..i + 1] == s[1..i] + [s[i]] && s[..i + 1] == s[..i] + [s[i]]
    ensures forall x :: x in s[1..i] <==> exists j :: 1 <= j < i && s[j] == x
  {
    assert forall j :: 1 <= j < i ==> s[1..i][j - 1] == s[j];
  }

  lemma Positions()
    ensures |LOAD_ORDER| == 7 && LOAD_ORDER[0] == Users && LOAD_ORDER[1] == Rooms && LOAD_ORDER[2] == Groups
    ensures LOAD_ORDER[3] == Devices && LOAD_ORDER[4] == Events && LOAD_ORDER[5] == ConfigPushes
            && LOAD_ORDER[6] == SystemConfig
  {
  }

  /** Where a table after the rooms finds the tables it refers to. */
  function Place(t: Table): nat {
    match t
    case Rooms => 1
    case Groups => 2
    case _ => 3
  }

  lemma ParentBefore(order: seq<Table>, i: nat, c: Column)
    requires |order| == 7 && order[1] == Rooms && order[2] == Groups && order[3] == Devices
    requires order[4] == Events && order[5] == ConfigPushes && order[6] == SystemConfig
    requires 2 <= i < 7 && Parent(order[i], c).Some?
    ensures var j := Place(Parent(order[i], c).value); 1 <= j < i && order[j] == Parent(order[i], c).value
  {
  }

  /** After the rooms, every table refers to tables loaded since the users. */
  lemma OrderAfterRooms(order: seq<Table>, i: nat)
    requires |order| == 7 && order[0] == Users && order[1] == Rooms && order[2] == Groups && order[3] == Devices
    requires order[4] == Events && order[5] == ConfigPushes && order[6] == SystemConfig
    requires 2 <= i < 7
    ensures var t := order[i];
            && t != Users && t != Sessions && t !in order[1..i]
            && (forall c: Column :: Parent(t, c).Some? ==> Parent(t, c).value in order[1..i])
            && order[1..i + 1] == order[1..i] + [t] && order[..i + 1] == order[..i] + [t]
  {
    Slices(order, i);
    forall c: Column | Parent(order[i], c).Some? ensures Parent(order[i], c).value in order[1..i] {
      ParentBefore(order, i, c);
      assert order[Place(Parent(order[i], c).value)] == Parent(order[i], c).value;
    }
  }

  /** Once the rooms are in, the rest of the backup follows. */
  lemma {:induction false} RestFollows(numeric: string -> Cell, source: Store, o: Order, target: Store, i: nat)
    requires AllLoadable(numeric, source, o) && 2 <= i <= |LOAD_ORDER|
    requires var l := LoadTables(numeric, target, Export(source, o), LOAD_ORDER[..2], false);
             l.Loaded? && Closed(l.store) && Includes(l.store, source, LOAD_ORDER[1..2])
    ensures var l := LoadTables(numeric, target, Export(source, o), LOAD_ORDER[..i], false);
            l.Loaded? && Closed(l.store) && Includes(l.store, source, LOAD_ORDER[1..i])
  {
    hide Sound, Closed, Parent, Export, Keyed, Order.Covers, Backup.Of, LoadTable, LoadTables, Includes;
    if i == 2 {
    } else {
      Positions();
      OrderAfterRooms(LOAD_ORDER, i - 1);
      RestFollows(numeric, source, o, target, i - 1);
      LoadOneMore(numeric, target, Export(source, o), LOAD_ORDER[..i - 1], LOAD_ORDER[i - 1], false);
      MergeNext(numeric, source, o, LOAD_ORDER[1..i - 1], LOAD_ORDER[i - 1],
                LoadTables(numeric, target, Export(source, o), LOAD_ORDER[..i - 1], false));
    }
  }

  /** The owner of the source's room will be there: a user of the target, or one whose name is free in it. */
  predicate OwnerArrives(target: Store, source: Store, r: string)
    requires r in source.rooms
  {
    var owner := CellOf(source.rooms[r], OwnerId);
    owner.Text? && (owner.s in target.users || (owner.s in source.users && NameIsFree(target, source.users[owner.s])))
  }

  lemma RoomRowResolves(source: Store, s: Store, r: string)
    requires Sound(source) && r in source.rooms
    ensures var owner := CellOf(source.rooms[r], OwnerId);
            owner.Text? && (RowResolves(s, Rooms, source.rooms[r]) <==> owner.s in s.users)
  {
    hide Sound, Closed, TypedTable, RowResolves, Parent, RoomOwner;
    SoundTable(source, Rooms);
    RoomHasOwner(source, r);
    RoomsReferToOwners();
    OneReference(s, Rooms, source.rooms[r], OwnerId);
  }

  lemma RoomsReferToOwners()
    ensures forall c :: Parent(Rooms, c) == if c == OwnerId then Some(Users) else None
  {
  }

  /** The first two tables: the users always load, the rooms exactly when the owners of the new ones are there. */
  lemma RoomsMerge(numeric: string -> Cell, source: Store, o: Order, target: Store)
    requires AllLoadable(numeric, source, o) && Closed(target)
    ensures var l := LoadTables(numeric, target, Export(source, o), LOAD_ORDER[..2], false);
            && (l.Loaded? <==> forall r <- source.rooms :: r !in target.rooms ==> OwnerArrives(target, source, r))
            && (l.Loaded? ==> Closed(l.store) && Includes(l.store, source, LOAD_ORDER[1..2]))
  {
    var data := Export(source, o);
    FirstTwo(numeric, data, target);
    UsersOf(numeric, source, o);
    hide Sound, Closed, Export, Keyed, Order.Covers, Backup.Of, Order.Of, ImportItems, LoadTables, UsersMerged, Lists,
         OwnerArrives, NewResolve, Includes, OnlyIn, ExportRows;
    ListedUsers(source, o);
    MergeUsers(numeric, source, target, o.users);
    var p := ImportItems(numeric, target, Users, data.Of(Users), false);
    MergeTable(numeric, source, o, p.store, Rooms);
    NewRoomsResolve(source, target, p.store, o.users);
    var q := ImportItems(numeric, p.store, Rooms, data.Of(Rooms), false);
    if q.Progress? {
      RoomsIncluded(source, p.store, q.store);
    }
  }

  lemma ListedUsers(source: Store, o: Order)
    requires Lists(o.users, source.users.Keys)
    ensures forall k <- o.users :: k in source.users
    ensures forall i, j :: 0 <= i < j < |o.users| ==> o.users[i] != o.users[j]
    ensures forall k <- source.users :: k in o.users
  {
  }

  lemma RoomsIncluded(source: Store, s: Store, next: Store)
    requires next.At(Rooms).Keys == s.At(Rooms).Keys + source.At(Rooms).Keys
    ensures Includes(next, source, LOAD_ORDER[1..2])
  {
    assert LOAD_ORDER[1..2] == [Rooms];
  }

  lemma NewRoomsResolve(source: Store, target: Store, s: Store, ks: seq<string>)
    requires Sound(source) && UsersMerged(source, target, s, ks) && forall k <- source.users :: k in ks
    ensures NewResolve(s, Rooms, source.At(Rooms))
            <==> forall r <- source.rooms :: r !in target.rooms ==> OwnerArrives(target, source, r)
  {
    assert s.At(Rooms) == target.At(Rooms);
    hide Sound, RowResolves, NameIsFree, CellOf, OnlyIn;
    forall r | r in source.rooms ensures RowResolves(s, Rooms, source.rooms[r]) <==> OwnerArrives(target, source, r) {
      RoomRowResolves(source, s, r);
    }
    hide UsersMerged, OwnerArrives;
  }

  lemma FirstTwo(numeric: string -> Cell, data: Backup, target: Store)
    requires data.AllKeyed(numeric)
    ensures Keyed(numeric, Users, data.Of(Users)) && Keyed(numeric, Rooms, data.Of(Rooms))
    ensures LoadTables(numeric, target, data, LOAD_ORDER[..2], false)
            == LoadTable(numeric, LoadTable(numeric, Loaded(target, []), Users, data.Of(Users), false),
                         Rooms, data.Of(Rooms), false)
  {
    hide LoadTable, Keyed, Backup.Of;
    assert LOAD_ORDER[..2] == [] + [Users] + [Rooms];
    LoadOneMore(numeric, target, data, [], Users, false);
    LoadOneMore(numeric, target, data, [] + [Users], Rooms, false);
  }

  lemma UsersOf(numeric: string -> Cell, source: Store, o: Order)
    requires AllLoadable(numeric, source, o)
    ensures Export(source, o).Of(Users) == ExportRows(source.users, o.users)
            && Keyed(numeric, Users, ExportRows(source.users, o.users))
    ensures Lists(o.users, source.users.Keys)
  {
    hide Sound, Lists;
    assert Lists(o.Of(Users), source.At(Users).Keys);
    assert Keyed(numeric, Users, Export(source, o).Of(Users));
  }

  /**
   * Merging a full backup into a database whose references resolve commits exactly when every room that is new to the
   * database has an owner that is a user of it or whose name is free in it. The administrator's name never is.
   */
  lemma FullMergeCommitsIff(numeric: string -> Cell, source: Store, o: Order, target: Store)
    requires Sound(source) && o.Covers(source) && Closed(target)
    ensures Export(source, o).AllKeyed(numeric)
    ensures Import(numeric, target, Export(source, o), false).Loaded?
            <==> forall r <- source.rooms :: r !in target.rooms ==> OwnerArrives(target, source, r)
  {
    ExportIsAllKeyed(numeric, source, o);
    RoomsMerge(numeric, source, o, target);
    hide Sound, Closed, Export, Order.Covers, LoadTables, OwnerArrives, Backup.AllKeyed, Includes;
    var data := Export(source, o);
    assert LOAD_ORDER[..7] == LOAD_ORDER;
    if LoadTables(numeric, target, data, LOAD_ORDER[..2], false).Loaded? {
      RestFollows(numeric, source, o, target, 7);
    } else {
      BrokenStays(numeric, target, data, LOAD_ORDER, 2, false);
    }
  }

  /** What the backup adds under a key: its row there, if its name is free when it is a user's. */
  function Arriving(target: Store, source: Store, t: Table, k: string): Option<Row> {
    if k in source.At(t) && (t == Users ==> NameIsFree(target, source.At(t)[k])) then Some(source.At(t)[k]) else None
  }

  ghost predicate ReportOfAll(source: Store, target: Store, next: Store, t: Table, r: TableReport) {
    && r.table == t && r.attempted == |source.At(t)|
    && r.imported == |next.At(t)| - |target.At(t)| && r.skipped == r.attempted - r.imported
  }

  /** Every table is the target's rows and, under new keys, the arriving ones; each table is reported once. */
  ghost predicate FullyMerged(source: Store, target: Store, l: Load) {
    && l.Loaded? && Closed(l.store) && l.store.At(Sessions) == target.At(Sessions)
    && (forall t: Table, k ::
          t != Sessions ==> RowAt(l.store, t, k) == RowAt(target, t, k).Or(Arriving(target, source, t, k)))
    && |l.reports| == |LOAD_ORDER|
    && forall i :: 0 <= i < |LOAD_ORDER| ==> ReportOfAll(source, target, l.store, LOAD_ORDER[i], l.reports[i])
  }

  /** Of the exported users, those arrive whose names are free. */
  lemma UsersArrive(numeric: string -> Cell, source: Store, o: Order, target: Store, k: string)
    requires AllLoadable(numeric, source, o) && Closed(target)
    ensures RowAt(target, Users, k).Or(TakenRow(numeric, target, Users, Export(source, o).Of(Users), k))
            == RowAt(target, Users, k).Or(Arriving(target, source, Users, k))
  {
    UsersOf(numeric, source, o);
    ListedUsers(source, o);
    var items := Export(source, o).Of(Users);
    hide Sound, Closed, Export, Keyed, Order.Covers, Backup.Of, ImportItems, Lists, TakenRow, TakenResolve, NameIsFree,
         ExportRows, OnlyIn;
    MergeUsers(numeric, source, target, o.users);
    MergeTakesFirst(numeric, target, Users, items);
    var p := ImportItems(numeric, target, Users, items, false);
    assert RowAt(p.store, Users, k) == RowAt(target, Users, k).Or(TakenRow(numeric, target, Users, items, k));
  }

  /** In the other tables every row arrives. */
  lemma RowsArrive(numeric: string -> Cell, source: Store, o: Order, target: Store, t: Table, k: string)
    requires Sound(source) && o.Covers(source) && t != Users && t != Sessions
    ensures RowAt(target, t, k).Or(TakenRow(numeric, target, t, Export(source, o).Of(t), k))
            == RowAt(target, t, k).Or(Arriving(target, source, t, k))
  {
    hide Sound, Export, Order.Covers, Backup.Of, FirstRow, TakenRow, Store.At;
    ExportOffers(numeric, source, o, t);
    TakenIsFirst(numeric, target, t, Export(source, o).Of(t), k);
  }

  lemma ExportedCount(source: Store, o: Order, t: Table)
    requires o.Covers(source) && t != Sessions
    ensures |Export(source, o).Of(t)| == |source.At(t)|
  {
    assert Lists(o.Of(t), source.At(t).Keys);
    ExportOf(source, o, t);
    hide Lists, Export, Order.Covers, Store.At, ExportRows;
    ListingLength(o.Of(t), source.At(t).Keys);
  }

  /** Each table's rows, read off the reports. */
  lemma TakenInAll(numeric: string -> Cell, s: Store, data: Backup, l: Load, t: Table, k: string)
    requires MergeReports(numeric, s, data, LOAD_ORDER, l) && l.Loaded? && t != Sessions
    ensures RowAt(l.store, t, k) == RowAt(s, t, k).Or(TakenRow(numeric, s, t, data.Of(t), k))
  {
    Positions();
    var i := match t case Users => 0 case Rooms => 1 case Groups => 2 case Devices => 3
                     case Events => 4 case ConfigPushes => 5 case _ => 6;
    hide Closed, Kept, TakenRow, AllSettled, Store.At, Backup.Of;
    assert ReportOf(numeric, s, l.store, LOAD_ORDER[i], data.Of(LOAD_ORDER[i]), l.reports[i]);
  }

  lemma MergedRows(numeric: string -> Cell, source: Store, o: Order, target: Store, l: Load, t: Table, k: string)
    requires AllLoadable(numeric, source, o) && Closed(target) && t != Sessions
    requires MergeReports(numeric, target, Export(source, o), LOAD_ORDER, l) && l.Loaded?
    ensures RowAt(l.store, t, k) == RowAt(target, t, k).Or(Arriving(target, source, t, k))
  {
    assert Sound(source) && o.Covers(source);
    hide Sound, Closed, Export, Order.Covers, Keyed, Backup.Of, MergeReports, TakenRow, Arriving, Store.At;
    TakenInAll(numeric, target, Export(source, o), l, t, k);
    if t == Users {
      UsersArrive(numeric, source, o, target, k);
    } else {
      RowsArrive(numeric, source, o, target, t, k);
    }
  }

  lemma MergedReport(numeric: string -> Cell, source: Store, o: Order, target: Store, l: Load, i: nat)
    requires o.Covers(source) && MergeReports(numeric, target, Export(source, o), LOAD_ORDER, l) && l.Loaded?
    requires i < |LOAD_ORDER|
    ensures |l.reports| == |LOAD_ORDER| && ReportOfAll(source, target, l.store, LOAD_ORDER[i], l.reports[i])
  {
    Positions();
    ExportedCount(source, o, LOAD_ORDER[i]);
    hide Export, Order.Covers, Closed, Kept, Backup.Of, AllSettled, TookFirst, Store.At;
    assert ReportOf(numeric, target, l.store, LOAD_ORDER[i], Export(source, o).Of(LOAD_ORDER[i]), l.reports[i]);
  }

  lemma ReportedSessions(numeric: string -> Cell, s: Store, data: Backup, l: Load)
    requires MergeReports(numeric, s, data, LOAD_ORDER, l) && l.Loaded?
    ensures Closed(l.store) && l.store.At(Sessions) == s.At(Sessions)
  {
    LoadOrderIsDistinct();
    hide Closed, Kept, ReportOf, Store.At;
  }

  /**
   * When such a merge commits, every table but the users is its rows and the backup's under the new keys, the users are
   * joined by the backup's new ones whose names were free, nobody's session changes, and the reports count this.
   */
  lemma FullMergeResult(numeric: string -> Cell, source: Store, o: Order, target: Store)
    requires Sound(source) && o.Covers(source) && Closed(target)
    requires forall r <- source.rooms :: r !in target.rooms ==> OwnerArrives(target, source, r)
    ensures Export(source, o).AllKeyed(numeric)
    ensures FullyMerged(source, target, Import(numeric, target, Export(source, o), false))
  {
    var data := Export(source, o);
    FullMergeCommitsIff(numeric, source, o, target);
    ImportReports(numeric, target, data);
    hide Sound, Closed, Export, Order.Covers, Import, OwnerArrives, MergeReports, Arriving, Store.At, RowAt,
         ReportOfAll;
    var l := Import(numeric, target, data, false);
    ReportedSessions(numeric, target, data, l);
    forall t: Table, k | t != Sessions
      ensures RowAt(l.store, t, k) == RowAt(target, t, k).Or(Arriving(target, source, t, k))
    {
      MergedRows(numeric, source, o, target, l, t, k);
    }
    forall i | 0 <= i < |LOAD_ORDER|
      ensures |l.reports| == |LOAD_ORDER| && ReportOfAll(source, target, l.store, LOAD_ORDER[i], l.reports[i])
    {
      MergedReport(numeric, source, o, target, l, i);
    }
    MergedReport(numeric, source, o, target, l, 0);
  }

  /** A backup of an installation whose administrator owns a room cannot be merged into a fresh one. */
  lemma AdministratorsRoomRefusesMerge(numeric: string -> Cell, source: Store, o: Order, target: Store, r: string,
                                       u: string)
    requires Sound(source) && o.Covers(source) && Closed(target)
    requires r in source.rooms && r !in target.rooms && CellOf(source.rooms[r], OwnerId) == Text(u)
    requires u in source.users && CellOf(source.users[u], Username) == Text("admin") && u !in target.users
    ensures Export(source, o).AllKeyed(numeric)
    ensures Import(numeric, target, Export(source, o), false).Broken?
  {
    FullMergeCommitsIff(numeric, source, o, target);
    hide Sound, Closed, Export, Order.Covers, Backup.AllKeyed, Import;
    assert !OwnerArrives(target, source, r);
  }

  // ---------------------------------------------------------------- an instance

  /** An administrator with one room. */
  function OneRoom(): S.Tables {
    S.EMPTY.(users := map["u" := S.User("admin", "hash", "admin", 0)], rooms := map["r" := S.Room("home", "u", 0)])
  }

  const ONE_ROOM_ORDER := Order(["u"], ["r"], [], [], [], [], [])

  /** Its full backup is that of a sound database, and no fresh installation accepts it as a merge. */
  lemma OneRoomCannotBeMerged(numeric: string -> Cell)
    ensures var source := StoredTables.StoreOf(OneRoom());
            && Sound(source) && ONE_ROOM_ORDER.Covers(source) && Export(source, ONE_ROOM_ORDER).AllKeyed(numeric)
            && Import(numeric, BLANK, Export(source, ONE_ROOM_ORDER), false).Broken?
  {
    hide Sound, Export, Import, Order.Covers, Backup.AllKeyed, StoredTables.StoreOf, OneRoom;
    OneRoomIsSound();
    OneRoomRows();
    OneRoomCovered();
    AdministratorsRoomRefusesMerge(numeric, StoredTables.StoreOf(OneRoom()), ONE_ROOM_ORDER, BLANK, "r", "u");
  }

  lemma OneRoomIsSound()
    ensures Sound(StoredTables.StoreOf(OneRoom()))
  {
    hide Sound, StoredTables.StoreOf, StoredTables.AllInRange;
    OneRoomInRange();
    StoredTables.StoredAreSound(OneRoom());
  }

  lemma OneRoomRows()
    ensures var source := StoredTables.StoreOf(OneRoom());
            && "u" in source.users && CellOf(source.users["u"], Username) == Text("admin")
            && "r" in source.rooms && CellOf(source.rooms["r"], OwnerId) == Text("u")
  {
    hide StoredTables.StoredUser, StoredTables.StoredRoom;
    var t := OneRoom();
    StoredTables.RoomCells("r", t.rooms["r"]);
    StoredTables.NameOf("u", t.users["u"]);
  }

  lemma OneRoomCovered()
    ensures ONE_ROOM_ORDER.Covers(StoredTables.StoreOf(OneRoom()))
  {
    hide StoredTables.StoredUser, StoredTables.StoredRoom;
    var t := OneRoom();
    assert t.users.Keys == {"u"} && t.rooms.Keys == {"r"};
    var source := StoredTables.StoreOf(t);
    assert source.users.Keys == {"u"} && source.rooms.Keys == {"r"};
    forall table: Table | table != Sessions ensures Lists(ONE_ROOM_ORDER.Of(table), source.At(table).Keys) {
      match table
      case Users => case Rooms => case Groups => case Devices =>
      case Events => case ConfigPushes => case SystemConfig =>
    }
  }

  lemma OneRoomInRange()
    ensures StoredTables.AllInRange(StoredTables.StoreOf(OneRoom()))
  {
    var t := OneRoom();
    var source := StoredTables.StoreOf(t);
    assert source.users == map["u" := StoredTables.StoredUser("u", t.users["u"])];
    assert source.rooms == map["r" := StoredTables.StoredRoom("r", t.rooms["r"])];
    forall table: Table, k | k in source.At(table) ensures StoredTables.InRange(source.At(table)[k]) {
      match table
      case Users => forall c | c in source.users["u"] ensures StoredTables.Fits64(source.users["u"][c]) { }
      case Rooms => forall c | c in source.rooms["r"] ensures StoredTables.Fits64(source.rooms["r"][c]) { }
      case Groups => case Devices => case Events => case ConfigPushes => case Sessions => case SystemConfig =>
    }
  }
}
