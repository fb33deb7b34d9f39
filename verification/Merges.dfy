/** What a merging import does: a first-wins union that a second import of the same rows leaves as it is. */
module Merges {
  import opened Wrappers
  import opened Rows
  import opened Imports

  /** The table keeps all its rows, and the other tables are as they were. */
  ghost predicate Merged(s: Store, next: Store, t: Table) {
    && OnlyIn(s, next, t)
    && forall k <- s.At(t) :: k in next.At(t) && next.At(t)[k] == s.At(t)[k]
  }

  /** An IGNORE of the row would be passed over: something mandatory is missing, or its key or its name is taken. */
  predicate PassedOver(s: Store, t: Table, k: string, row: Row) {
    !Complete(t, row) || k in s.At(t) || Clashing(s, t, row) != {}
  }

  predicate Settled(numeric: string -> Cell, s: Store, t: Table, item: Item) {
    var k := ItemKey(numeric, t, item);
    k.Some? && !Skips(t, item, false) ==> PassedOver(s, t, k.value, BoundRow(numeric, t, item.fields))
  }

  ghost predicate AllSettled(numeric: string -> Cell, s: Store, t: Table, items: seq<Item>) {
    forall item <- items :: Settled(numeric, s, t, item)
  }

  lemma AllSettledStep(numeric: string -> Cell, s: Store, t: Table, front: seq<Item>, item: Item)
    ensures AllSettled(numeric, s, t, front + [item])
            <==> AllSettled(numeric, s, t, front) && Settled(numeric, s, t, item)
  {
    hide Settled;
    assert forall x <- front :: x in front + [item];
    assert item in front + [item];
  }

  lemma PassedOverStays(s: Store, next: Store, t: Table, k: string, row: Row)
    requires Merged(s, next, t) && PassedOver(s, t, k, row)
    ensures PassedOver(next, t, k, row)
  {
    if t == Users && Clashing(s, t, row) != {} {
      var j :| j in Clashing(s, t, row);
      assert j in Clashing(next, t, row);
    }
  }

  lemma AllSettledStays(numeric: string -> Cell, s: Store, next: Store, t: Table, items: seq<Item>)
    requires Merged(s, next, t) && AllSettled(numeric, s, t, items)
    ensures AllSettled(numeric, next, t, items)
  {
    hide PassedOver, Merged, BoundRow, ItemKey, Skips;
    forall item | item in items ensures Settled(numeric, next, t, item) {
      var k := ItemKey(numeric, t, item);
      if k.Some? && !Skips(t, item, false) {
        assert Settled(numeric, s, t, item);
        PassedOverStays(s, next, t, k.value, BoundRow(numeric, t, item.fields));
      }
    }
  }

  /** One IGNORE: passed over, inserted as bound, or refused for a dangling reference. */
  lemma IgnoreOne(numeric: string -> Cell, s: Store, t: Table, item: Item)
    requires Closed(s) && ItemKey(numeric, t, item).Some?
    ensures var k, row := ItemKey(numeric, t, item).value, BoundRow(numeric, t, item.fields);
            && (PassedOver(s, t, k, row) ==> Insert(numeric, s, t, item, false) == Ignored)
            && (!PassedOver(s, t, k, row) && RowResolves(s, t, row) ==>
                  Insert(numeric, s, t, item, false) == Inserted(Put(s, t, {}, k, row)))
            && (!PassedOver(s, t, k, row) && !RowResolves(s, t, row) ==> Insert(numeric, s, t, item, false) == Error)
  {
    var k, row := ItemKey(numeric, t, item).value, BoundRow(numeric, t, item.fields);
    hide ItemKey, BoundRow, Complete, Closed, RowResolves, Clashing;
    PutResolves(s, t, k, row);
  }

  /** The same as a step of the import. */
  lemma IgnoreItem(numeric: string -> Cell, p: Progress, t: Table, item: Item)
    requires p.Progress? && Closed(p.store) && ItemKey(numeric, t, item).Some? && !Skips(t, item, false)
    ensures var k, row := ItemKey(numeric, t, item).value, BoundRow(numeric, t, item.fields);
            var q := ImportItem(numeric, p, t, item, false);
            && (PassedOver(p.store, t, k, row) ==> q == p.(skipped := p.skipped + 1))
            && (!PassedOver(p.store, t, k, row) && RowResolves(p.store, t, row) ==>
                  q == Progress(Put(p.store, t, {}, k, row), p.imported + 1, p.skipped))
            && (!PassedOver(p.store, t, k, row) && !RowResolves(p.store, t, row) ==> q == Failed)
  {
    KeyIsOfObject(numeric, t, item);
    hide Closed, BoundRow, ItemKey, RowResolves, Insert, Skips, Put, PassedOver;
    IgnoreOne(numeric, p.store, t, item);
  }

  lemma PutMerges(s: Store, t: Table, k: string, row: Row)
    requires k !in s.At(t)
    ensures Merged(s, Put(s, t, {}, k, row), t)
    ensures |Put(s, t, {}, k, row).At(t)| == |s.At(t)| + 1
    ensures PassedOver(Put(s, t, {}, k, row), t, k, row)
  {
    PutShape(s, t, k, row);
    OneRowMore(s.At(t), k, row);
    hide Put, OnlyIn, PassedOver;
    GrownMerges(s, Put(s, t, {}, k, row), t, k, row);
    hide Merged;
  }

  lemma GrownMerges(s: Store, next: Store, t: Table, k: string, row: Row)
    requires k !in s.At(t) && OnlyIn(s, next, t) && next.At(t) == s.At(t)[k := row]
    ensures Merged(s, next, t)
    ensures PassedOver(next, t, k, row)
  {
    hide OnlyIn;
  }

  lemma OneRowMore(rows: TableRows, k: string, row: Row)
    requires k !in rows
    ensures |rows[k := row]| == |rows| + 1
  {
    assert rows[k := row].Keys == rows.Keys + {k};
    assert |rows[k := row]| == |rows[k := row].Keys| && |rows| == |rows.Keys|;
  }

  lemma MergedTransitive(s: Store, mid: Store, next: Store, t: Table)
    requires Merged(s, mid, t) && Merged(mid, next, t)
    ensures Merged(s, next, t)
  {
  }

  // ---------------------------------------------------------------- what a merge keeps and counts

  ghost predicate Grown(numeric: string -> Cell, s: Store, t: Table, items: seq<Item>, p: Progress) {
    p.Progress? ==>
      && Closed(p.store) && Merged(s, p.store, t)
      && p.imported == |p.store.At(t)| - |s.At(t)|
      && AllSettled(numeric, p.store, t, items)
  }

  /** Putting in a row that is not passed over. */
  lemma MergeRow(numeric: string -> Cell, s: Store, mid: Store, t: Table, front: seq<Item>, k: string, row: Row)
    requires Closed(mid) && Merged(s, mid, t) && AllSettled(numeric, mid, t, front)
    requires !PassedOver(mid, t, k, row) && RowResolves(mid, t, row)
    ensures Closed(Put(mid, t, {}, k, row))
    ensures Merged(s, Put(mid, t, {}, k, row), t)
    ensures |Put(mid, t, {}, k, row).At(t)| == |mid.At(t)| + 1
    ensures AllSettled(numeric, Put(mid, t, {}, k, row), t, front)
    ensures PassedOver(Put(mid, t, {}, k, row), t, k, row)
  {
    hide Closed, Merged, AllSettled, RowResolves, Put;
    NotPassedOver(mid, t, k, row);
    hide PassedOver;
    var next := Put(mid, t, {}, k, row);
    PutResolves(mid, t, k, row);
    PutMerges(mid, t, k, row);
    MergedTransitive(s, mid, next, t);
    AllSettledStays(numeric, mid, next, t, front);
  }

  lemma MergePassed(numeric: string -> Cell, s: Store, t: Table, front: seq<Item>, item: Item, p: Progress)
    requires p.Progress? && Grown(numeric, s, t, front, p) && Settled(numeric, p.store, t, item)
    ensures Grown(numeric, s, t, front + [item], p.(skipped := p.skipped + 1))
  {
    hide Closed, Merged, AllSettled, Settled;
    AllSettledStep(numeric, p.store, t, front, item);
  }

  lemma MergeInserted(numeric: string -> Cell, s: Store, t: Table, front: seq<Item>, item: Item, p: Progress,
                      k: string, row: Row)
    requires p.Progress? && Grown(numeric, s, t, front, p)
    requires ItemKey(numeric, t, item) == Some(k) && row == BoundRow(numeric, t, item.fields)
    requires !PassedOver(p.store, t, k, row) && RowResolves(p.store, t, row)
    ensures Grown(numeric, s, t, front + [item], Progress(Put(p.store, t, {}, k, row), p.imported + 1, p.skipped))
  {
    hide Closed, Merged, AllSettled, BoundRow, ItemKey, RowResolves, Put, Store.At, PassedOver, Settled;
    MergeRow(numeric, s, p.store, t, front, k, row);
    PassedIsSettled(numeric, Put(p.store, t, {}, k, row), t, item);
    AllSettledStep(numeric, Put(p.store, t, {}, k, row), t, front, item);
  }

  lemma MergeObject(numeric: string -> Cell, s: Store, t: Table, front: seq<Item>, item: Item, p: Progress)
    requires p.Progress? && ItemKey(numeric, t, item).Some? && !Skips(t, item, false)
    requires Grown(numeric, s, t, front, p)
    ensures Grown(numeric, s, t, front + [item], ImportItem(numeric, p, t, item, false))
  {
    var k, row := ItemKey(numeric, t, item).value, BoundRow(numeric, t, item.fields);
    KeyIsOfObject(numeric, t, item);
    GrownIsClosed(numeric, s, t, front, p);
    hide Closed, Grown, BoundRow, ItemKey, RowResolves, Insert, Skips, Put, Store.At, PassedOver, Settled, ImportItem;
    IgnoreItem(numeric, p, t, item);
    FailedIsGrown(numeric, s, t, front + [item]);
    MergeOutcomes(numeric, s, t, front, item, p, k, row);
    if PassedOver(p.store, t, k, row) {
    } else if RowResolves(p.store, t, row) {
    } else {
    }
  }

  lemma MergeOutcomes(numeric: string -> Cell, s: Store, t: Table, front: seq<Item>, item: Item, p: Progress,
                      k: string, row: Row)
    requires p.Progress? && Grown(numeric, s, t, front, p)
    requires ItemKey(numeric, t, item) == Some(k) && row == BoundRow(numeric, t, item.fields)
    ensures PassedOver(p.store, t, k, row) ==> Grown(numeric, s, t, front + [item], p.(skipped := p.skipped + 1))
    ensures !PassedOver(p.store, t, k, row) && RowResolves(p.store, t, row) ==>
              Grown(numeric, s, t, front + [item], Progress(Put(p.store, t, {}, k, row), p.imported + 1, p.skipped))
  {
    hide Grown, BoundRow, ItemKey, RowResolves, Put, PassedOver, Settled;
    if PassedOver(p.store, t, k, row) {
      PassedIsSettled(numeric, p.store, t, item);
      MergePassed(numeric, s, t, front, item, p);
    } else if RowResolves(p.store, t, row) {
      MergeInserted(numeric, s, t, front, item, p, k, row);
    }
  }

  lemma GrownIsClosed(numeric: string -> Cell, s: Store, t: Table, items: seq<Item>, p: Progress)
    requires p.Progress? && Grown(numeric, s, t, items, p)
    ensures Closed(p.store)
  {
  }

  lemma FailedIsGrown(numeric: string -> Cell, s: Store, t: Table, items: seq<Item>)
    ensures Grown(numeric, s, t, items, Failed)
  {
  }

  lemma PassedIsSettled(numeric: string -> Cell, s: Store, t: Table, item: Item)
    requires ItemKey(numeric, t, item).Some?
    requires PassedOver(s, t, ItemKey(numeric, t, item).value, BoundRow(numeric, t, item.fields))
    ensures Settled(numeric, s, t, item)
  {
    hide PassedOver;
  }

  lemma MergeStep(numeric: string -> Cell, s: Store, t: Table, front: seq<Item>, item: Item, p: Progress)
    requires item.Object? ==> ItemKey(numeric, t, item).Some?
    requires Grown(numeric, s, t, front, p)
    ensures Grown(numeric, s, t, front + [item], ImportItem(numeric, p, t, item, false))
  {
    KeyIsOfObject(numeric, t, item);
    hide Closed, Merged, AllSettled, BoundRow, ItemKey, PassedOver, RowResolves, Insert;
    if p.Failed? {
    } else if !item.Object? || Skips(t, item, false) {
      AllSettledStep(numeric, p.store, t, front, item);
    } else {
      hide Skips;
      MergeObject(numeric, s, t, front, item, p);
    }
  }

  lemma NotPassedOver(s: Store, t: Table, k: string, row: Row)
    requires !PassedOver(s, t, k, row)
    ensures k !in s.At(t)
  {
  }

  /** A merge that commits keeps every row, counts exactly the rows it adds, and leaves nothing more to import. */
  lemma {:induction false} MergeIsUnion(numeric: string -> Cell, s: Store, t: Table, items: seq<Item>)
    requires Closed(s) && Keyed(numeric, t, items)
    ensures var p := ImportItems(numeric, s, t, items, false);
            p.Progress? ==>
              && Closed(p.store) && Merged(s, p.store, t)
              && p.imported == |p.store.At(t)| - |s.At(t)|
              && AllSettled(numeric, p.store, t, items)
  {
    hide ItemKey, Closed, Keyed, ImportItem, Settled;
    if items == [] {
    } else {
      var n := |items| - 1;
      var front, item := items[..n], items[n];
      assert items == front + [item];
      KeyedStep(numeric, t, front, item);
      MergeIsUnion(numeric, s, t, front);
      hide Merged, AllSettled;
      MergeStep(numeric, s, t, front, item, ImportItems(numeric, s, t, front, false));
    }
  }

  /** Importing rows that are all settled changes nothing and imports nothing. */
  lemma {:induction false} SettledIsIdle(numeric: string -> Cell, s: Store, t: Table, items: seq<Item>)
    requires Closed(s) && Keyed(numeric, t, items) && AllSettled(numeric, s, t, items)
    ensures ImportItems(numeric, s, t, items, false) == Progress(s, 0, |items|)
  {
    hide ItemKey, Closed, Keyed, PassedOver, BoundRow, Insert, Skips, AllSettled;
    if items == [] {
    } else {
      var n := |items| - 1;
      var front, item := items[..n], items[n];
      assert items == front + [item];
      KeyedStep(numeric, t, front, item);
      AllSettledStep(numeric, s, t, front, item);
      SettledIsIdle(numeric, s, t, front);
      if item.Object? && !Skips(t, item, false) {
        IgnoreOne(numeric, s, t, item);
      }
    }
  }

  // ---------------------------------------------------------------- which rows a merge adds

  /** The row that the list offers for a key: that of the first complete object with the key. */
  function FirstRow(numeric: string -> Cell, t: Table, items: seq<Item>, k: string): Option<Row> {
    if items == [] then None else
      var item := items[|items| - 1];
      FirstRow(numeric, t, items[..|items| - 1], k).Or(Offered(numeric, t, item, k))
  }

  function Offered(numeric: string -> Cell, t: Table, item: Item, k: string): Option<Row> {
    if ItemKey(numeric, t, item) == Some(k) && Complete(t, BoundRow(numeric, t, item.fields))
    then Some(BoundRow(numeric, t, item.fields)) else None
  }

  /** It is the row that an item offers such that no earlier one offers any. */
  lemma {:induction false} FirstRowIsFirst(numeric: string -> Cell, t: Table, items: seq<Item>,
                                           k: string) returns (i: nat)
    ensures FirstRow(numeric, t, items, k).None? <==> forall item <- items :: Offered(numeric, t, item, k).None?
    ensures FirstRow(numeric, t, items, k).Some? ==>
              && i < |items| && Offered(numeric, t, items[i], k) == FirstRow(numeric, t, items, k)
              && forall j :: 0 <= j < i ==> Offered(numeric, t, items[j], k).None?
  {
    hide Offered;
    if items == [] {
      i := 0;
    } else {
      var n := |items| - 1;
      i := FirstRowIsFirst(numeric, t, items[..n], k);
      assert items == items[..n] + [items[n]];
      if FirstRow(numeric, t, items[..n], k).None? {
        i := n;
        assert forall j :: 0 <= j < n ==> items[j] == items[..n][j] && items[j] in items[..n];
      }
    }
  }

  /** The row that a merge takes for a key: that of the first object that brings it to a free place. */
  ghost function TakenRow(numeric: string -> Cell, s: Store, t: Table, items: seq<Item>, k: string): Option<Row>
    decreases |items|, 0
  {
    if items == [] then None else
      var n := |items| - 1;
      TakenRow(numeric, s, t, items[..n], k).Or(
        if ItemKey(numeric, t, items[n]) == Some(k) && Free(numeric, s, t, items[..n], items[n])
        then Some(BoundRow(numeric, t, items[n].fields)) else None)
  }

  /**
   * The place an object asks for, after the objects before it: its row is complete and not the administrator's, and
   * neither the database nor a row taken before has its key or, among users, its name.
   */
  ghost predicate Free(numeric: string -> Cell, s: Store, t: Table, front: seq<Item>, item: Item)
    decreases |front|, 2
  {
    && ItemKey(numeric, t, item).Some? && !Skips(t, item, false)
    && var k, row := ItemKey(numeric, t, item).value, BoundRow(numeric, t, item.fields);
       && Complete(t, row) && k !in s.At(t) && TakenRow(numeric, s, t, front, k).None?
       && (t == Users ==> NameUnused(s, row) && NameUntaken(numeric, s, t, front, row))
  }

  predicate NameUnused(s: Store, row: Row) {
    forall k <- s.users :: CellOf(s.users[k], Username) != CellOf(row, Username)
  }

  ghost predicate NameUntaken(numeric: string -> Cell, s: Store, t: Table, front: seq<Item>, row: Row)
    decreases |front|, 1
  {
    forall k :: TakenRow(numeric, s, t, front, k).Some? ==>
      CellOf(TakenRow(numeric, s, t, front, k).value, Username) != CellOf(row, Username)
  }

  /** It is the row of an object that finds its place free, and without such an object there is none. */
  lemma {:induction false} TakenRowIsFirst(numeric: string -> Cell, s: Store, t: Table, items: seq<Item>, k: string)
    returns (i: nat)
    ensures TakenRow(numeric, s, t, items, k).None?
            <==> forall j :: 0 <= j < |items| && ItemKey(numeric, t, items[j]) == Some(k) ==>
                   !Free(numeric, s, t, items[..j], items[j])
    ensures TakenRow(numeric, s, t, items, k).Some? ==>
              && i < |items| && ItemKey(numeric, t, items[i]) == Some(k)
              && Free(numeric, s, t, items[..i], items[i])
              && TakenRow(numeric, s, t, items, k).value == BoundRow(numeric, t, items[i].fields)
  {
    hide Free, ItemKey, BoundRow;
    if items == [] {
      i := 0;
    } else {
      var n := |items| - 1;
      i := TakenRowIsFirst(numeric, s, t, items[..n], k);
      assert forall j :: 0 <= j < n ==> items[..n][j] == items[j] && items[..n][..j] == items[..j];
      if TakenRow(numeric, s, t, items[..n], k).None? { i := n; }
    }
  }

  lemma TakenOfOneMore(numeric: string -> Cell, s: Store, t: Table, front: seq<Item>, item: Item, k: string)
    ensures TakenRow(numeric, s, t, front + [item], k)
            == TakenRow(numeric, s, t, front, k).Or(
                 if ItemKey(numeric, t, item) == Some(k) && Free(numeric, s, t, front, item)
                 then Some(BoundRow(numeric, t, item.fields)) else None)
  {
    hide Free, ItemKey, BoundRow;
    assert (front + [item])[..|front|] == front;
  }

  /** What is taken is new. */
  lemma {:induction false} TakenIsNew(numeric: string -> Cell, s: Store, t: Table, items: seq<Item>, k: string)
    requires TakenRow(numeric, s, t, items, k).Some?
    ensures k !in s.At(t)
  {
    hide ItemKey, BoundRow, Complete, Skips;
    var n := |items| - 1;
    if TakenRow(numeric, s, t, items[..n], k).Some? { TakenIsNew(numeric, s, t, items[..n], k); }
  }

  /** Every taken row resolves. */
  ghost predicate TakenResolve(numeric: string -> Cell, s: Store, t: Table, items: seq<Item>) {
    forall k :: TakenRow(numeric, s, t, items, k).Some? ==> RowResolves(s, t, TakenRow(numeric, s, t, items, k).value)
  }

  /** The table is its old rows and the taken ones. */
  ghost predicate TakesFirst(numeric: string -> Cell, s: Store, next: Store, t: Table, items: seq<Item>) {
    && OnlyIn(s, next, t)
    && forall k :: RowAt(next, t, k) == RowAt(s, t, k).Or(TakenRow(numeric, s, t, items, k))
  }

  ghost predicate Taking(numeric: string -> Cell, s: Store, t: Table, items: seq<Item>, p: Progress) {
    && (p.Progress? <==> TakenResolve(numeric, s, t, items))
    && (p.Progress? ==> Closed(p.store) && TakesFirst(numeric, s, p.store, t, items))
  }

  lemma TakesOnlyIn(numeric: string -> Cell, s: Store, next: Store, t: Table, items: seq<Item>)
    requires TakesFirst(numeric, s, next, t, items)
    ensures OnlyIn(s, next, t)
  {
  }

  /** Among the rows merged so far, a name clashes exactly when it is used or taken. */
  lemma NamesClash(numeric: string -> Cell, s: Store, mid: Store, front: seq<Item>, row: Row)
    requires TakesFirst(numeric, s, mid, Users, front)
    ensures Clashing(mid, Users, row) == {} <==> NameUnused(s, row) && NameUntaken(numeric, s, Users, front, row)
  {
    hide TakenRow, CellOf, OnlyIn;
    forall k ensures k in mid.users <==> k in s.users || TakenRow(numeric, s, Users, front, k).Some? {
      assert RowAt(mid, Users, k) == RowAt(s, Users, k).Or(TakenRow(numeric, s, Users, front, k));
    }
    forall k | k in mid.users
      ensures mid.users[k] == if k in s.users then s.users[k] else TakenRow(numeric, s, Users, front, k).value
    {
      assert RowAt(mid, Users, k) == RowAt(s, Users, k).Or(TakenRow(numeric, s, Users, front, k));
    }
    if Clashing(mid, Users, row) == {} {
      forall k | k in s.users ensures CellOf(s.users[k], Username) != CellOf(row, Username) {
        assert k !in Clashing(mid, Users, row);
      }
      forall k | TakenRow(numeric, s, Users, front, k).Some?
        ensures CellOf(TakenRow(numeric, s, Users, front, k).value, Username) != CellOf(row, Username)
      {
        TakenIsNew(numeric, s, Users, front, k);
        assert k !in Clashing(mid, Users, row);
      }
    }
  }

  /** An object's place is free exactly when the statement does not pass it over. */
  lemma FreeIsNotPassed(numeric: string -> Cell, s: Store, mid: Store, t: Table, front: seq<Item>, item: Item)
    requires TakesFirst(numeric, s, mid, t, front) && ItemKey(numeric, t, item).Some?
    ensures Free(numeric, s, t, front, item)
            <==> !Skips(t, item, false)
                 && !PassedOver(mid, t, ItemKey(numeric, t, item).value, BoundRow(numeric, t, item.fields))
  {
    var k, row := ItemKey(numeric, t, item).value, BoundRow(numeric, t, item.fields);
    hide TakenRow, ItemKey, BoundRow, Skips, Complete, NameUnused, NameUntaken, OnlyIn;
    assert RowAt(mid, t, k) == RowAt(s, t, k).Or(TakenRow(numeric, s, t, front, k));
    if t == Users { NamesClash(numeric, s, mid, front, row); }
  }

  /** The object finds no free place. */
  lemma NothingTaken(numeric: string -> Cell, s: Store, next: Store, t: Table, front: seq<Item>, item: Item)
    requires TakesFirst(numeric, s, next, t, front) && !Free(numeric, s, t, front, item)
    ensures TakenResolve(numeric, s, t, front + [item]) <==> TakenResolve(numeric, s, t, front)
    ensures TakesFirst(numeric, s, next, t, front + [item])
  {
    forall k ensures TakenRow(numeric, s, t, front + [item], k) == TakenRow(numeric, s, t, front, k) {
      TakenOfOneMore(numeric, s, t, front, item, k);
    }
    hide Free, TakenRow, RowResolves, OnlyIn;
  }

  /** The object finds its place free. */
  lemma PlaceTaken(numeric: string -> Cell, s: Store, mid: Store, t: Table, front: seq<Item>, item: Item)
    requires TakesFirst(numeric, s, mid, t, front) && TakenResolve(numeric, s, t, front)
             && Free(numeric, s, t, front, item)
    ensures var k, row := ItemKey(numeric, t, item).value, BoundRow(numeric, t, item.fields);
            && (TakenResolve(numeric, s, t, front + [item]) <==> RowResolves(s, t, row))
            && TakesFirst(numeric, s, Put(mid, t, {}, k, row), t, front + [item])
  {
    var k, row := ItemKey(numeric, t, item).value, BoundRow(numeric, t, item.fields);
    assert k !in s.At(t) && TakenRow(numeric, s, t, front, k).None?;
    forall j ensures TakenRow(numeric, s, t, front + [item], j)
                     == if j == k then Some(row) else TakenRow(numeric, s, t, front, j)
    {
      TakenOfOneMore(numeric, s, t, front, item, j);
    }
    hide Free, TakenRow, ItemKey, BoundRow, RowResolves, TakenResolve, TakesFirst, Put, OnlyIn;
    TakenOneMore(numeric, s, t, front, item, k, row);
    PutShape(mid, t, k, row);
    PlacedRows(numeric, s, mid, Put(mid, t, {}, k, row), t, front, item, k, row);
  }

  lemma PlacedRows(numeric: string -> Cell, s: Store, mid: Store, next: Store, t: Table, front: seq<Item>, item: Item,
                   k: string, row: Row)
    requires TakesFirst(numeric, s, mid, t, front) && OnlyIn(mid, next, t) && next.At(t) == mid.At(t)[k := row]
    requires k !in s.At(t)
    requires forall j :: TakenRow(numeric, s, t, front + [item], j)
                         == if j == k then Some(row) else TakenRow(numeric, s, t, front, j)
    ensures TakesFirst(numeric, s, next, t, front + [item])
  {
    hide TakenRow, Store.At;
    forall j ensures RowAt(next, t, j) == RowAt(s, t, j).Or(TakenRow(numeric, s, t, front + [item], j)) {
      assert RowAt(mid, t, j) == RowAt(s, t, j).Or(TakenRow(numeric, s, t, front, j));
    }
  }

  lemma TakenOneMore(numeric: string -> Cell, s: Store, t: Table, front: seq<Item>, item: Item, k: string, row: Row)
    requires TakenResolve(numeric, s, t, front) && TakenRow(numeric, s, t, front, k).None?
    requires forall j :: TakenRow(numeric, s, t, front + [item], j)
                         == if j == k then Some(row) else TakenRow(numeric, s, t, front, j)
    ensures TakenResolve(numeric, s, t, front + [item]) <==> RowResolves(s, t, row)
  {
    hide TakenRow, RowResolves;
    assert TakenRow(numeric, s, t, front + [item], k) == Some(row);
  }

  lemma StillUnresolved(numeric: string -> Cell, s: Store, t: Table, front: seq<Item>, item: Item)
    requires !TakenResolve(numeric, s, t, front)
    ensures !TakenResolve(numeric, s, t, front + [item])
  {
    hide TakenRow, RowResolves, Free, ItemKey, BoundRow;
    var k :| TakenRow(numeric, s, t, front, k).Some? && !RowResolves(s, t, TakenRow(numeric, s, t, front, k).value);
    TakenOfOneMore(numeric, s, t, front, item, k);
  }

  /** What one statement does to the taken rows. */
  lemma TakeRow(numeric: string -> Cell, s: Store, mid: Store, t: Table, front: seq<Item>, item: Item, k: string,
                row: Row)
    requires ItemKey(numeric, t, item) == Some(k) && row == BoundRow(numeric, t, item.fields)
    requires Closed(mid) && TakesFirst(numeric, s, mid, t, front) && TakenResolve(numeric, s, t, front)
    ensures Skips(t, item, false) || PassedOver(mid, t, k, row) ==>
              TakenResolve(numeric, s, t, front + [item]) && TakesFirst(numeric, s, mid, t, front + [item])
    ensures !Skips(t, item, false) && !PassedOver(mid, t, k, row) ==>
              && (TakenResolve(numeric, s, t, front + [item]) <==> RowResolves(mid, t, row))
              && TakesFirst(numeric, s, Put(mid, t, {}, k, row), t, front + [item])
              && (RowResolves(mid, t, row) ==> Closed(Put(mid, t, {}, k, row)))
  {
    hide Closed, BoundRow, ItemKey, TakesFirst, TakenResolve, RowResolves, PassedOver, Skips, Free, Put, OnlyIn;
    FreeIsNotPassed(numeric, s, mid, t, front, item);
    if Free(numeric, s, t, front, item) {
      PlaceTaken(numeric, s, mid, t, front, item);
      TakesOnlyIn(numeric, s, mid, t, front);
      SameParents(s, mid, t, row);
      PutResolves(mid, t, k, row);
    } else {
      NothingTaken(numeric, s, mid, t, front, item);
    }
  }

  lemma TakeObject(numeric: string -> Cell, s: Store, t: Table, front: seq<Item>, item: Item, p: Progress)
    requires p.Progress? && ItemKey(numeric, t, item).Some? && Taking(numeric, s, t, front, p)
    ensures Taking(numeric, s, t, front + [item], ImportItem(numeric, p, t, item, false))
  {
    var k, row := ItemKey(numeric, t, item).value, BoundRow(numeric, t, item.fields);
    hide Closed, BoundRow, ItemKey, Insert, TakesFirst, TakenResolve, RowResolves, Skips, PassedOver, Put, Store.At;
    KeyIsOfObject(numeric, t, item);
    IgnoreOne(numeric, p.store, t, item);
    TakeRow(numeric, s, p.store, t, front, item, k, row);
    if Skips(t, item, false) {
    } else if PassedOver(p.store, t, k, row) {
    } else if RowResolves(p.store, t, row) {
    } else {
    }
  }

  lemma TakeStep(numeric: string -> Cell, s: Store, t: Table, front: seq<Item>, item: Item, p: Progress)
    requires (item.Object? ==> ItemKey(numeric, t, item).Some?) && Taking(numeric, s, t, front, p)
    ensures Taking(numeric, s, t, front + [item], ImportItem(numeric, p, t, item, false))
  {
    KeyIsOfObject(numeric, t, item);
    hide TakenResolve, TakesFirst, Closed, ItemKey, Insert, Skips;
    if p.Failed? {
      StillUnresolved(numeric, s, t, front, item);
    } else if item.Object? {
      TakeObject(numeric, s, t, front, item, p);
    } else {
      NothingTaken(numeric, s, p.store, t, front, item);
    }
  }

  /**
   * A merging import of any table commits exactly when the row of every object that finds its place free resolves; then
   * the table is its old rows and those rows, first come, first served.
   */
  lemma {:induction false} MergeTakesFirst(numeric: string -> Cell, s: Store, t: Table, items: seq<Item>)
    requires Closed(s) && Keyed(numeric, t, items)
    ensures var p := ImportItems(numeric, s, t, items, false);
            && (p.Progress? <==> TakenResolve(numeric, s, t, items))
            && (p.Progress? ==> Closed(p.store) && TakesFirst(numeric, s, p.store, t, items))
  {
    hide ItemKey, Closed, Keyed, ImportItem, RowResolves, Free, BoundRow;
    if items == [] {
    } else {
      var n := |items| - 1;
      var front, item := items[..n], items[n];
      assert items == front + [item];
      KeyedStep(numeric, t, front, item);
      MergeTakesFirst(numeric, s, t, front);
      hide TakesFirst, TakenResolve;
      TakeStep(numeric, s, t, front, item, ImportItems(numeric, s, t, front, false));
    }
  }

  /** Without a second unique column the free places are the keys that are new, each for its first complete object. */
  lemma {:induction false} TakenIsFirst(numeric: string -> Cell, s: Store, t: Table, items: seq<Item>, k: string)
    requires t != Users
    ensures TakenRow(numeric, s, t, items, k) == if k in s.At(t) then None else FirstRow(numeric, t, items, k)
  {
    hide ItemKey, BoundRow, Complete, Store.At;
    if items == [] {
    } else {
      TakenIsFirst(numeric, s, t, items[..|items| - 1], k);
      assert !Skips(t, items[|items| - 1], false);
    }
  }

  /** Every new key's first row resolves. */
  ghost predicate NewRowsResolve(numeric: string -> Cell, s: Store, t: Table, items: seq<Item>) {
    forall k :: k !in s.At(t) && FirstRow(numeric, t, items, k).Some? ==>
      RowResolves(s, t, FirstRow(numeric, t, items, k).value)
  }

  ghost predicate FirstWins(numeric: string -> Cell, s: Store, next: Store, t: Table, items: seq<Item>) {
    && OnlyIn(s, next, t)
    && forall k :: RowAt(next, t, k) == RowAt(s, t, k).Or(FirstRow(numeric, t, items, k))
  }

  lemma FirstOfOneMore(numeric: string -> Cell, t: Table, front: seq<Item>, item: Item)
    ensures forall k ::
              FirstRow(numeric, t, front + [item], k) == FirstRow(numeric, t, front, k).Or(Offered(numeric, t, item, k))
  {
    hide Offered;
    assert (front + [item])[..|front|] == front;
  }

  lemma FirstWinsOnlyIn(numeric: string -> Cell, s: Store, next: Store, t: Table, items: seq<Item>)
    requires FirstWins(numeric, s, next, t, items)
    ensures OnlyIn(s, next, t)
  {
  }

  /**
   * A merging import of a table whose only uniqueness is its key commits exactly when the first complete row offered
   * for each new key resolves; then the table is its old rows and, for the new keys, those first rows.
   */
  lemma MergeIsFirstWins(numeric: string -> Cell, s: Store, t: Table, items: seq<Item>)
    requires t != Users && Closed(s) && Keyed(numeric, t, items)
    ensures var p := ImportItems(numeric, s, t, items, false);
            && (p.Progress? <==> NewRowsResolve(numeric, s, t, items))
            && (p.Progress? ==> Closed(p.store) && FirstWins(numeric, s, p.store, t, items))
  {
    hide ImportItems, Closed, Keyed, TakenRow, FirstRow, RowResolves, OnlyIn;
    MergeTakesFirst(numeric, s, t, items);
    forall k
      ensures TakenRow(numeric, s, t, items, k) == if k in s.At(t) then None else FirstRow(numeric, t, items, k)
    {
      TakenIsFirst(numeric, s, t, items, k);
    }
    hide Store.At;
  }

  // ---------------------------------------------------------------- a whole backup

  ghost predicate DistinctTables(tables: seq<Table>) {
    forall i, j :: 0 <= i < j < |tables| ==> tables[i] != tables[j]
  }

  /** No row of any table is lost or changed. */
  ghost predicate Kept(s: Store, next: Store) {
    forall t: Table, k :: k in s.At(t) ==> RowAt(next, t, k) == RowAt(s, t, k)
  }

  ghost predicate ReportOf(numeric: string -> Cell, s: Store, next: Store, t: Table, items: seq<Item>, r: TableReport) {
    && r.table == t && r.attempted == |items|
    && r.imported == |next.At(t)| - |s.At(t)| && r.skipped == |items| - r.imported
    && AllSettled(numeric, next, t, items)
    && TookFirst(numeric, s, next, t, items)
  }

  /** The table is the old one's rows and those of the objects that found their place free in it. */
  ghost predicate TookFirst(numeric: string -> Cell, s: Store, next: Store, t: Table, items: seq<Item>) {
    forall k :: RowAt(next, t, k) == RowAt(s, t, k).Or(TakenRow(numeric, s, t, items, k))
  }

  /** What is free in a table does not depend on the other tables. */
  lemma {:induction false} SameTaken(numeric: string -> Cell, s: Store, u: Store, t: Table, items: seq<Item>, k: string)
    requires s.At(t) == u.At(t)
    ensures TakenRow(numeric, s, t, items, k) == TakenRow(numeric, u, t, items, k)
    decreases |items|
  {
    hide ItemKey, BoundRow, Complete, Skips, CellOf;
    if items == [] {
    } else {
      var n := |items| - 1;
      forall j ensures TakenRow(numeric, s, t, items[..n], j) == TakenRow(numeric, u, t, items[..n], j) {
        SameTaken(numeric, s, u, t, items[..n], j);
      }
      KeyIsOfObject(numeric, t, items[n]);
      if ItemKey(numeric, t, items[n]).Some? { SameFree(numeric, s, u, t, items[..n], items[n]); }
      hide Free;
    }
  }

  lemma SameFree(numeric: string -> Cell, s: Store, u: Store, t: Table, front: seq<Item>, item: Item)
    requires s.At(t) == u.At(t) && ItemKey(numeric, t, item).Some?
    requires forall j :: TakenRow(numeric, s, t, front, j) == TakenRow(numeric, u, t, front, j)
    ensures Free(numeric, s, t, front, item) <==> Free(numeric, u, t, front, item)
  {
    hide ItemKey, BoundRow, Complete, Skips, CellOf, TakenRow;
    if t == Users { assert s.users == s.At(t) == u.At(t) == u.users; }
    KeyIsOfObject(numeric, t, item);
    var row := BoundRow(numeric, t, item.fields);
    assert t == Users ==> (NameUnused(s, row) <==> NameUnused(u, row));
    SameUntaken(numeric, s, u, t, front, row);
    hide NameUnused, NameUntaken, Store.At;
  }

  lemma SameUntaken(numeric: string -> Cell, s: Store, u: Store, t: Table, front: seq<Item>, row: Row)
    requires forall j :: TakenRow(numeric, s, t, front, j) == TakenRow(numeric, u, t, front, j)
    ensures NameUntaken(numeric, s, t, front, row) <==> NameUntaken(numeric, u, t, front, row)
  {
    hide TakenRow, CellOf;
    forall k ensures TakenRow(numeric, s, t, front, k) == TakenRow(numeric, u, t, front, k) {
    }
  }

  lemma TookInBase(numeric: string -> Cell, s: Store, mid: Store, next: Store, t: Table, items: seq<Item>)
    requires TakesFirst(numeric, mid, next, t, items) && mid.At(t) == s.At(t)
    ensures TookFirst(numeric, s, next, t, items)
  {
    forall k ensures TakenRow(numeric, mid, t, items, k) == TakenRow(numeric, s, t, items, k) {
      SameTaken(numeric, mid, s, t, items, k);
    }
    hide TakenRow, OnlyIn, Store.At;
    forall k ensures RowAt(next, t, k) == RowAt(s, t, k).Or(TakenRow(numeric, s, t, items, k)) {
      assert RowAt(next, t, k) == RowAt(mid, t, k).Or(TakenRow(numeric, mid, t, items, k));
    }
  }

  /** What the reports of a merge say: each table's imported rows are its growth, and its rows are all settled. */
  ghost predicate MergeReports(numeric: string -> Cell, s: Store, data: Backup, tables: seq<Table>, l: Load) {
    l.Loaded? ==>
      && Closed(l.store) && Kept(s, l.store) && |l.reports| == |tables|
      && (forall t: Table :: t !in tables ==> l.store.At(t) == s.At(t))
      && forall i :: 0 <= i < |tables| ==> ReportOf(numeric, s, l.store, tables[i], data.Of(tables[i]), l.reports[i])
  }

  lemma MergedKept(s: Store, mid: Store, next: Store, t: Table)
    requires Kept(s, mid) && Merged(mid, next, t)
    ensures Kept(s, next)
  {
    forall u: Table, k | k in s.At(u) ensures RowAt(next, u, k) == RowAt(s, u, k) {
      assert RowAt(mid, u, k) == RowAt(s, u, k);
      assert u != t ==> next.At(u) == mid.At(u);
    }
  }

  lemma ReportElsewhere(numeric: string -> Cell, s: Store, mid: Store, next: Store, t: Table, items: seq<Item>,
                        r: TableReport)
    requires ReportOf(numeric, s, mid, t, items, r) && next.At(t) == mid.At(t)
    ensures ReportOf(numeric, s, next, t, items, r)
  {
    SettledElsewhere(numeric, mid, next, t, items);
    hide AllSettled, TakenRow, Store.At;
    forall k ensures RowAt(next, t, k) == RowAt(s, t, k).Or(TakenRow(numeric, s, t, items, k)) {
      assert RowAt(mid, t, k) == RowAt(s, t, k).Or(TakenRow(numeric, s, t, items, k));
    }
  }

  lemma SettledElsewhere(numeric: string -> Cell, s: Store, next: Store, t: Table, items: seq<Item>)
    requires next.At(t) == s.At(t)
    ensures AllSettled(numeric, next, t, items) <==> AllSettled(numeric, s, t, items)
  {
    hide ItemKey, BoundRow, Skips, Complete;
    forall item ensures Settled(numeric, next, t, item) <==> Settled(numeric, s, t, item) {
      if ItemKey(numeric, t, item).Some? {
        assert Clashing(next, t, BoundRow(numeric, t, item.fields))
               == Clashing(s, t, BoundRow(numeric, t, item.fields));
      }
    }
  }

  lemma LoadStep(numeric: string -> Cell, s: Store, data: Backup, tables: seq<Table>, t: Table, l: Load)
    requires t !in tables && Keyed(numeric, t, data.Of(t))
    requires MergeReports(numeric, s, data, tables, l)
    ensures MergeReports(numeric, s, data, tables + [t], LoadTable(numeric, l, t, data.Of(t), false))
  {
    hide ItemKey, Settled, AllSettled, Closed, Keyed, ImportItems, Kept;
    if l.Loaded? {
      var items := data.Of(t);
      MergeIsUnion(numeric, l.store, t, items);
      MergeTakesFirst(numeric, l.store, t, items);
      RowsAreAccounted(numeric, l.store, t, items, false);
      hide TakesFirst, TakenResolve;
      var p := ImportItems(numeric, l.store, t, items, false);
      if p.Progress? {
        TookInBase(numeric, s, l.store, p.store, t, items);
        MergedKept(s, l.store, p.store, t);
        ReportsGrow(numeric, s, data, tables, t, l, p);
      }
    }
  }

  lemma ReportsGrow(numeric: string -> Cell, s: Store, data: Backup, tables: seq<Table>, t: Table, l: Load, p: Progress)
    requires t !in tables && l.Loaded? && MergeReports(numeric, s, data, tables, l)
    requires p.Progress? && Closed(p.store) && Kept(s, p.store) && Merged(l.store, p.store, t)
    requires p.imported == |p.store.At(t)| - |l.store.At(t)| && AllSettled(numeric, p.store, t, data.Of(t))
    requires p.imported + p.skipped == |data.Of(t)|
    requires TookFirst(numeric, s, p.store, t, data.Of(t))
    ensures MergeReports(numeric, s, data, tables + [t],
                         Loaded(p.store, l.reports + [TableReport(t, |data.Of(t)|, p.imported, p.skipped)]))
  {
    hide AllSettled, Closed, Kept, TookFirst;
    var r := TableReport(t, |data.Of(t)|, p.imported, p.skipped);
    assert l.store.At(t) == s.At(t);
    assert ReportOf(numeric, s, p.store, t, data.Of(t), r);
    forall i | 0 <= i < |tables| ensures ReportOf(numeric, s, p.store, tables[i], data.Of(tables[i]), l.reports[i]) {
      assert tables[i] in tables;
      ReportElsewhere(numeric, s, l.store, p.store, tables[i], data.Of(tables[i]), l.reports[i]);
    }
    forall u: Table | u !in tables + [t] ensures p.store.At(u) == s.At(u) {
      assert u !in tables && u != t;
    }
    hide Merged, ReportOf;
  }

  lemma {:induction false} MergeLoads(numeric: string -> Cell, s: Store, data: Backup, tables: seq<Table>)
    requires Closed(s) && data.AllKeyed(numeric) && DistinctTables(tables)
    ensures MergeReports(numeric, s, data, tables, LoadTables(numeric, s, data, tables, false))
  {
    hide ItemKey, Settled, AllSettled, Closed, Keyed, LoadTable;
    if tables == [] {
    } else {
      var n := |tables| - 1;
      assert tables == tables[..n] + [tables[n]];
      MergeLoads(numeric, s, data, tables[..n]);
      hide MergeReports;
      LoadStep(numeric, s, data, tables[..n], tables[n], LoadTables(numeric, s, data, tables[..n], false));
    }
  }

  /** Loading settled tables changes nothing. */
  lemma {:induction false} SettledLoads(numeric: string -> Cell, s: Store, data: Backup, tables: seq<Table>)
    requires Closed(s) && data.AllKeyed(numeric)
    requires forall t <- tables :: AllSettled(numeric, s, t, data.Of(t))
    ensures var l := LoadTables(numeric, s, data, tables, false);
            && l.Loaded? && l.store == s && |l.reports| == |tables|
            && forall i ::
                 0 <= i < |tables|
                 ==> l.reports[i] == TableReport(tables[i], |data.Of(tables[i])|, 0, |data.Of(tables[i])|)
  {
    hide ItemKey, Settled, AllSettled, Closed, Keyed, ImportItems;
    if tables == [] {
    } else {
      var n := |tables| - 1;
      assert tables == tables[..n] + [tables[n]];
      SettledLoads(numeric, s, data, tables[..n]);
      SettledIsIdle(numeric, s, tables[n], data.Of(tables[n]));
    }
  }

  lemma LoadsTakeFirst(numeric: string -> Cell, s: Store, data: Backup, tables: seq<Table>)
    requires Closed(s) && data.AllKeyed(numeric) && DistinctTables(tables)
    requires LoadTables(numeric, s, data, tables, false).Loaded?
    ensures var l := LoadTables(numeric, s, data, tables, false);
            && (forall t <- tables :: TookFirst(numeric, s, l.store, t, data.Of(t)))
            && (forall t: Table :: t !in tables ==> l.store.At(t) == s.At(t))
  {
    var l := LoadTables(numeric, s, data, tables, false);
    MergeLoads(numeric, s, data, tables);
    hide LoadTables, AllSettled, Closed, Kept, Backup.AllKeyed, Store.At, TookFirst;
    forall t | t in tables ensures TookFirst(numeric, s, l.store, t, data.Of(t)) {
      var i :| 0 <= i < |tables| && tables[i] == t;
      assert ReportOf(numeric, s, l.store, tables[i], data.Of(tables[i]), l.reports[i]);
    }
  }

  /**
   * A merging import that commits leaves in every table its old rows and those of the file's objects that found their
   * place free there, first come, first served; the sessions are as they were.
   */
  lemma MergeIsFirstComeUnion(numeric: string -> Cell, s: Store, data: Backup)
    requires Closed(s) && data.AllKeyed(numeric) && Import(numeric, s, data, false).Loaded?
    ensures var l := Import(numeric, s, data, false);
            && (forall t <- LOAD_ORDER :: TookFirst(numeric, s, l.store, t, data.Of(t)))
            && l.store.At(Sessions) == s.At(Sessions)
  {
    hide LoadTables, Closed, Backup.AllKeyed, TookFirst;
    assert Import(numeric, s, data, false) == LoadTables(numeric, s, data, LOAD_ORDER, false);
    hide Import;
    LoadOrderIsDistinct();
    hide DistinctTables;
    LoadsTakeFirst(numeric, s, data, LOAD_ORDER);
  }

  /**
   * A merging import that commits keeps every row of every table, reports for each table how much it grew, and leaves
   * the sessions alone; the same import again commits, changes nothing and reports no row imported anywhere.
   */
  lemma MergeTwice(numeric: string -> Cell, s: Store, data: Backup)
    requires Closed(s) && data.AllKeyed(numeric) && Import(numeric, s, data, false).Loaded?
    ensures var l := Import(numeric, s, data, false);
            && Closed(l.store) && l.store.At(Sessions) == s.At(Sessions) && |l.reports| == |LOAD_ORDER|
            && Kept(s, l.store)
            && (forall i :: 0 <= i < |LOAD_ORDER| ==>
                  && l.reports[i].table == LOAD_ORDER[i]
                  && l.reports[i].imported == |l.store.At(LOAD_ORDER[i])| - |s.At(LOAD_ORDER[i])|)
            && var again := Import(numeric, l.store, data, false);
               && again.Loaded? && again.store == l.store && |again.reports| == |LOAD_ORDER|
               && forall i :: 0 <= i < |LOAD_ORDER| ==> again.reports[i].imported == 0
  {
    hide LoadTables, Closed, Kept, Backup.AllKeyed;
    var l := Import(numeric, s, data, false);
    assert l == LoadTables(numeric, s, data, LOAD_ORDER, false);
    assert Import(numeric, l.store, data, false) == LoadTables(numeric, l.store, data, LOAD_ORDER, false);
    hide Import;
    LoadOrderIsDistinct();
    hide DistinctTables;
    LoadTwice(numeric, s, data, LOAD_ORDER);
  }

  /** The reports of a whole import. */
  lemma ImportReports(numeric: string -> Cell, s: Store, data: Backup)
    requires Closed(s) && data.AllKeyed(numeric)
    ensures MergeReports(numeric, s, data, LOAD_ORDER, Import(numeric, s, data, false))
  {
    hide LoadTables, Closed, Backup.AllKeyed, MergeReports;
    assert Import(numeric, s, data, false) == LoadTables(numeric, s, data, LOAD_ORDER, false);
    hide Import;
    LoadOrderIsDistinct();
    hide DistinctTables;
    MergeLoads(numeric, s, data, LOAD_ORDER);
  }

  lemma LoadOrderIsDistinct()
    ensures DistinctTables(LOAD_ORDER) && Sessions !in LOAD_ORDER
  {
  }

  lemma LoadTwice(numeric: string -> Cell, s: Store, data: Backup, tables: seq<Table>)
    requires Closed(s) && data.AllKeyed(numeric) && DistinctTables(tables)
    requires LoadTables(numeric, s, data, tables, false).Loaded?
    ensures var l := LoadTables(numeric, s, data, tables, false);
            && Closed(l.store) && Kept(s, l.store) && |l.reports| == |tables|
            && (forall t: Table :: t !in tables ==> l.store.At(t) == s.At(t))
            && (forall i :: 0 <= i < |tables| ==>
                  && l.reports[i].table == tables[i]
                  && l.reports[i].imported == |l.store.At(tables[i])| - |s.At(tables[i])|)
            && var again := LoadTables(numeric, l.store, data, tables, false);
               && again.Loaded? && again.store == l.store && |again.reports| == |tables|
               && forall i :: 0 <= i < |tables| ==> again.reports[i].imported == 0
  {
    var l := LoadTables(numeric, s, data, tables, false);
    MergeLoads(numeric, s, data, tables);
    hide LoadTables, AllSettled, Closed, Kept, Backup.AllKeyed, Store.At, TookFirst;
    forall t | t in tables ensures AllSettled(numeric, l.store, t, data.Of(t)) {
      var i :| 0 <= i < |tables| && tables[i] == t;
      assert ReportOf(numeric, s, l.store, tables[i], data.Of(tables[i]), l.reports[i]);
    }
    SettledLoads(numeric, l.store, data, tables);
  }
}
