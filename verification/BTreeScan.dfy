/** The scanning cursor (db_lab/table.h:267-294, 379-391): started on a well-formed table and
    advanced until the end, it visits every row once, in strictly increasing key order. */
module BTreeScan {
  import opened BTreeModel
  import opened BTreeProofs
  import opened BTreeTheorems
  import opened BTreePages

  datatype Scan = Scan(page: nat, cell: nat, end: bool)

  /** Table::StartCursor (table.h:379-391). */
  function Start(t: Pages, L: Layout): Scan
    requires Linked(t, L)
  {
    var c := BTreeModel.Find(t, L, 0);
    Scan(c.page, c.cell, |t[c.page].rows| == 0)
  }

  /** Cursor::Advance (table.h:267-294). */
  function Next(t: Pages, s: Scan): Scan
    requires s.page < |t| && t[s.page].Leaf?
  {
    if s.end then s
    else if s.cell + 1 < |t[s.page].rows| then s.(cell := s.cell + 1)
    else if t[s.page].next == 0 then Scan(s.page, s.cell + 1, true)
    else Scan(t[s.page].next, 0, false)
  }

  // ---- Positions in the chain of leaves ----

  /** The cursor stands on row x of the i-th leaf. */
  ghost predicate At(t: Pages, L: Layout, s: Scan, i: nat, x: nat)
    requires Linked(t, L)
  {
    i < |Kids(t)| && x < |Leaves(t, L)[i]| && s == Scan(Kids(t)[i], x, false)
  }

  /** The rows from row x of leaf i on. */
  function From(ls: seq<seq<Row>>, i: nat, x: nat): seq<Row>
    requires i < |ls| && x <= |ls[i]|
  {
    ls[i][x..] + Flatten(ls[i + 1..])
  }

  lemma FromStep(ls: seq<seq<Row>>, i: nat, x: nat)
    requires i < |ls| && x < |ls[i]|
    ensures From(ls, i, x) == [ls[i][x]] + (if x + 1 < |ls[i]| then From(ls, i, x + 1) else Flatten(ls[i + 1..]))
    ensures i + 1 < |ls| ==> Flatten(ls[i + 1..]) == From(ls, i + 1, 0)
  {
    assert ls[i][x..] == [ls[i][x]] + ls[i][x + 1..];
    if i + 1 < |ls| {
      assert ls[i + 1..][1..] == ls[i + 2..];
    }
  }

  /** The cursor is on the rows still to come, or at the end when there are none. */
  ghost predicate Facing(t: Pages, L: Layout, s: Scan, rest: seq<Row>)
    requires Linked(t, L)
  {
    && s.page < |t| && t[s.page].Leaf?
    && if rest == [] then s.end
       else exists i: nat, x: nat :: At(t, L, s, i, x) && rest == From(Leaves(t, L), i, x)
  }

  lemma KidAt(t: Pages, L: Layout, i: nat)
    requires Linked(t, L) && i < |Kids(t)|
    ensures Kids(t)[i] < |t| && t[Kids(t)[i]].Leaf? && t[Kids(t)[i]].rows == Leaves(t, L)[i]
    ensures i + 1 < |Kids(t)| ==> t[Kids(t)[i]].next == Kids(t)[i + 1] != 0 && |Leaves(t, L)[i + 1]| > 0
    ensures i + 1 == |Kids(t)| ==> t[Kids(t)[i]].next == 0
  {
    if t[0].Inner? {
      assert After(Kids(t), i) == t[Kids(t)[i]].next;
    }
  }

  lemma NothingBelowZero(rows: seq<Row>, cell: nat)
    requires cell <= |rows| && RowsSplit(rows, 0, cell, cell)
    ensures cell == 0
  {
    var first: int := if rows == [] then 0 else rows[0].key;
    assert first >= 0;
  }

  lemma StartFaces(t: Pages, L: Layout)
    requires WellFormed(t, L)
    ensures Facing(t, L, Start(t, L), Rows(t, L))
  {
    hide WellFormed, Linked, Start, Kids, Leaves, Flatten;
    assert Linked(t, L) by { WellFormedLinked(t, L); }
    StartsFirst(t, L);
    var s, ls := Start(t, L), Leaves(t, L);
    KidAt(t, L, 0);
    AllFromFirst(ls);
    if |ls[0]| > 0 {
      FromStep(ls, 0, 0);
      assert At(t, L, s, 0, 0);
    } else {
      EmptyTable(t, L);
    }
  }

  lemma AllFromFirst(ls: seq<seq<Row>>)
    requires |ls| > 0
    ensures Flatten(ls) == From(ls, 0, 0)
  {
  }

  lemma NoSlotBelowZero(slots: seq<Slot>, r: nat)
    requires r <= |slots| && SlotsSplit(slots, 0, r, r)
    ensures r == 0
  {
    var first: int := if slots == [] then 0 else slots[0].key;
    assert first >= 0;
  }

  /** The search for key 0 ends on the first cell of the first leaf. */
  lemma StartsFirst(t: Pages, L: Layout)
    requires WellFormed(t, L)
    ensures |Kids(t)| > 0 && Start(t, L) == Scan(Kids(t)[0], 0, |Leaves(t, L)[0]| == 0)
  {
    hide InnerProbe, LeafProbe, SortedLeaves, Bounded, Chained, RowsSplit, SlotsSplit;
    RouteBound(t, L, 0);
    NoSlotBelowZero(Seps(t), Route(t, 0));
    var c := BTreeModel.Find(t, L, 0);
    CellBound(t, L, 0);
    NothingBelowZero(t[c.page].rows, c.cell);
  }

  lemma EmptyTable(t: Pages, L: Layout)
    requires Linked(t, L) && |Leaves(t, L)[0]| == 0
    ensures Rows(t, L) == []
  {
    if t[0].Inner? {
      KidPage(t, L, 0);
    } else {
      assert Leaves(t, L) == [[]];
      FlattenOne([]);
    }
  }

  lemma AdvanceAt(t: Pages, L: Layout, s: Scan, i: nat, x: nat)
    requires Linked(t, L) && At(t, L, s, i, x)
    ensures s.page < |t| && t[s.page].Leaf? && !s.end && s.cell < |t[s.page].rows|
    ensures t[s.page].rows[s.cell] == Leaves(t, L)[i][x]
    ensures var s' := Next(t, s);
            && s'.page < |t| && t[s'.page].Leaf?
            && (x + 1 < |Leaves(t, L)[i]| ==> At(t, L, s', i, x + 1))
            && (x + 1 == |Leaves(t, L)[i]| && i + 1 < |Leaves(t, L)| ==> At(t, L, s', i + 1, 0))
            && (x + 1 == |Leaves(t, L)[i]| && i + 1 == |Leaves(t, L)| ==> s'.end)
  {
    KidAt(t, L, i);
    if i + 1 < |Kids(t)| {
      KidAt(t, L, i + 1);
    }
    hide Linked, Kids;
  }

  lemma FacingFrom(t: Pages, L: Layout, s: Scan, i: nat, x: nat)
    requires Linked(t, L) && At(t, L, s, i, x) && s.page < |t| && t[s.page].Leaf?
    ensures Facing(t, L, s, From(Leaves(t, L), i, x))
  {
    FromStep(Leaves(t, L), i, x);
    hide At, From, Linked, Leaves;
  }

  /** Advancing leaves behind exactly the row the cursor stood on. */
  lemma AdvanceFaces(t: Pages, L: Layout, s: Scan, rest: seq<Row>)
    requires WellFormed(t, L) && Facing(t, L, s, rest) && rest != []
    ensures !s.end && s.cell < |t[s.page].rows| && t[s.page].rows[s.cell] == rest[0]
    ensures Facing(t, L, Next(t, s), rest[1..])
  {
    var ls := Leaves(t, L);
    var i: nat, x: nat :| At(t, L, s, i, x) && rest == From(ls, i, x);
    FromStep(ls, i, x);
    hide WellFormed, Linked, Kids, Leaves, From, Next;
    AdvanceAt(t, L, s, i, x);
    if x + 1 < |ls[i]| {
      FacingFrom(t, L, Next(t, s), i, x + 1);
      assert rest[1..] == From(ls, i, x + 1);
    } else if i + 1 < |ls| {
      FacingFrom(t, L, Next(t, s), i + 1, 0);
      assert rest[1..] == From(ls, i + 1, 0);
    } else {
      assert ls[i + 1..] == [];
      assert rest[1..] == [];
    }
  }

  lemma FacingEnd(t: Pages, L: Layout, s: Scan, rest: seq<Row>)
    requires Linked(t, L) && Facing(t, L, s, rest)
    ensures s.page < |t| && t[s.page].Leaf? && (s.end <==> rest == [])
  {
    hide Linked;
  }

  // ---- The rows come in key order ----

  lemma {:induction false} FlattenAbove(ls: seq<seq<Row>>, key: int)
    requires forall i :: 0 <= i < |ls| ==> AllAbove(ls[i], key)
    ensures AllAbove(Flatten(ls), key)
  {
    if ls != [] {
      FlattenAbove(ls[1..], key);
    }
  }

  lemma {:induction false} FlattenSorted(ls: seq<seq<Row>>, slots: seq<Slot>)
    requires |ls| == |slots| + 1 && SortedLeaves(ls) && Bounded(ls, slots)
    ensures SortedRows(Flatten(ls))
    decreases |ls|
  {
    if slots == [] {
      assert ls == [ls[0]];
      FlattenOne(ls[0]);
    } else {
      var rest := Flatten(ls[1..]);
      assert forall i :: 0 <= i < |ls[1..]| ==> AllAbove(ls[1..][i], slots[0].key);
      FlattenAbove(ls[1..], slots[0].key);
      assert NoneAbove(ls[0], slots[0].key);
      assert Bounded(ls[1..], slots[1..]) by { BoundedTail(ls, slots); }
      FlattenSorted(ls[1..], slots[1..]);
      SortedConcat(ls[0], rest, slots[0].key);
    }
  }

  lemma BoundedTail(ls: seq<seq<Row>>, slots: seq<Slot>)
    requires |ls| == |slots| + 1 && slots != [] && Bounded(ls, slots)
    ensures Bounded(ls[1..], slots[1..])
  {
    hide AllAbove, NoneAbove;
  }

  lemma SortedConcat(a: seq<Row>, b: seq<Row>, key: int)
    requires SortedRows(a) && SortedRows(b) && NoneAbove(a, key) && AllAbove(b, key)
    ensures SortedRows(a + b)
  {
  }

  lemma RowsSorted(t: Pages, L: Layout)
    requires WellFormed(t, L)
    ensures SortedRows(Rows(t, L))
  {
    hide SortedRows, SortedLeaves, Bounded, Flatten, Chained;
    FlattenSorted(Leaves(t, L), Seps(t));
  }

  /** One position of a scan shows `row` and leads to the next position. */
  ghost predicate ScanStep(t: Pages, s: Scan, s': Scan, row: Row) {
    && s.page < |t| && t[s.page].Leaf? && !s.end
    && s.cell < |t[s.page].rows| && t[s.page].rows[s.cell] == row && s' == Next(t, s)
  }

  /** `scans` are the positions of a scan that shows `rows` and then stands at the end. */
  ghost predicate IsScan(t: Pages, scans: seq<Scan>, rows: seq<Row>) {
    && |scans| == |rows| + 1
    && (forall k :: 0 <= k < |rows| ==> ScanStep(t, scans[k], scans[k + 1], rows[k]))
    && scans[|rows|].end
  }

  lemma {:induction false} ScanFrom(t: Pages, L: Layout, s: Scan, rest: seq<Row>) returns (scans: seq<Scan>)
    requires WellFormed(t, L) && Facing(t, L, s, rest)
    ensures IsScan(t, scans, rest) && scans[0] == s
    decreases |rest|
  {
    FacingEnd(t, L, s, rest);
    hide WellFormed, Linked, Facing, Next;
    if rest == [] {
      scans := [s];
    } else {
      AdvanceFaces(t, L, s, rest);
      var more := ScanFrom(t, L, Next(t, s), rest[1..]);
      scans := [s] + more;
      ScanCons(t, s, more, rest);
    }
  }

  lemma ScanCons(t: Pages, s: Scan, more: seq<Scan>, rows: seq<Row>)
    requires rows != [] && IsScan(t, more, rows[1..]) && ScanStep(t, s, more[0], rows[0])
    ensures IsScan(t, [s] + more, rows)
  {
    hide ScanStep;
    var scans := [s] + more;
    forall k | 0 <= k < |rows|
      ensures ScanStep(t, scans[k], scans[k + 1], rows[k])
    {
      if k > 0 {
        assert scans[k] == more[k - 1] && scans[k + 1] == more[k - 1 + 1] && rows[k] == rows[1..][k - 1];
      }
    }
  }

  /** The whole scan: from StartCursor, one Advance per row reaches the end, and the k-th
      position shows the k-th row of the table in strictly increasing key order. */
  lemma ScanVisitsAll(t: Pages, L: Layout) returns (scans: seq<Scan>)
    requires WellFormed(t, L)
    ensures IsScan(t, scans, Rows(t, L)) && scans[0] == Start(t, L) && SortedRows(Rows(t, L))
  {
    hide Facing, SortedRows, IsScan, Start, Rows;
    RowsSorted(t, L);
    StartFaces(t, L);
    scans := ScanFrom(t, L, Start(t, L), Rows(t, L));
  }

  // ---- The cursor object ----

  class TableCursor {
    const table: Table
    var page: nat
    var cell: nat
    var end: bool

    ghost function View(): (s: Scan)
      reads this
      ensures s.end == end
    {
      Scan(page, cell, end)
    }

    /** StartCursor (table.h:379-391). */
    constructor (table: Table)
      requires table.Valid() && WellFormed(table.model, table.L)
      ensures this.table == table && View() == Start(table.model, table.L)
    {
      this.table := table;
      var p, c := table.Find(0);
      assert table.pages[p].View(table.L) == table.model[p];
      page, cell, end := p, c, table.pages[p].count == 0;
    }

    /** Cursor::Value (table.h:113-121) with the key beside it. */
    method Value() returns (row: Row)
      requires table.Valid() && page < |table.model| && table.model[page].Leaf? && cell < |table.model[page].rows|
      ensures row == table.model[page].rows[cell]
    {
      assert table.pages[page].View(table.L) == table.model[page];
      row := table.pages[page].cells[cell];
    }

    /** Cursor::Advance (table.h:267-294). */
    method Advance()
      requires table.Valid() && page < |table.model| && table.model[page].Leaf? && !end
      modifies this
      ensures View() == Next(table.model, old(View()))
    {
      var leaf := table.pages[page];
      assert leaf.View(table.L) == table.model[page];
      cell := cell + 1;
      if cell >= leaf.count {
        if leaf.link == 0 {
          end := true;
        } else {
          page := leaf.link;
          cell := 0;
        }
      }
    }
  }

  /** The body of DumpTree's loop (table.h:63-68). */
  method TakeRow(cursor: TableCursor, ghost rest: seq<Row>) returns (row: Row)
    requires cursor.table.Valid() && WellFormed(cursor.table.model, cursor.table.L) && !cursor.end
    requires Facing(cursor.table.model, cursor.table.L, cursor.View(), rest)
    modifies cursor
    ensures rest != [] && row == rest[0]
    ensures Facing(cursor.table.model, cursor.table.L, cursor.View(), rest[1..])
  {
    hide Facing, Linked, Table.Valid, Next, SortedLeaves, Bounded, Leaves, Seps;
    FacingEnd(cursor.table.model, cursor.table.L, cursor.View(), rest);
    AdvanceFaces(cursor.table.model, cursor.table.L, cursor.View(), rest);
    row := cursor.Value();
    cursor.Advance();
  }

  /** The loop of DumpTree (table.h:60-69), collecting the rows instead of printing them. */
  method DumpTree(table: Table) returns (rows: seq<Row>)
    requires table.Valid() && Linked(table.model, table.L) && WellFormed(table.model, table.L)
    ensures rows == Rows(table.model, table.L) && SortedRows(rows)
  {
    hide *;
    ghost var t, L := table.model, table.L;
    RowsSorted(t, L);
    StartFaces(t, L);
    ghost var rest := Rows(t, L);
    var cursor := new TableCursor(table);
    rows := [];
    while !cursor.end
      invariant fresh(cursor) && cursor.table == table && table.Valid() && table.model == t
      invariant Facing(t, L, cursor.View(), rest)
      invariant Rows(t, L) == rows + rest
      decreases |rest|
    {
      var row := TakeRow(cursor, rest);
      rows := rows + [row];
      rest := rest[1..];
    }
    FacingEnd(t, L, cursor.View(), rest);
  }
}
