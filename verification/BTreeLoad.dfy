/** Loading keys in ascending order: how many pages there are and how full they are. */
module BTreeLoad {
  import opened BTreeModel
  import opened BTreeProofs
  import opened BTreeTheorems
  import opened BTreeRuns

  /** A full leaf and the new row are split in halves, the left one larger by a row that is left
      over, so that no page is less than half full. */
  lemma SplitsEvenly(L: Layout)
    requires L.Ok()
    ensures L.LeftSplit() + L.RightSplit() == L.cells + 1
    ensures L.RightSplit() <= L.LeftSplit() <= L.RightSplit() + 1 && 1 <= L.RightSplit() <= L.LeftSplit() <= L.cells
    ensures 2 * L.RightSplit() >= L.cells
  {
  }

  /** The internal keys after m ascending inserts. */
  function LoadedKeys(L: Layout, m: nat): nat
    requires L.Ok()
  {
    if m <= L.cells then 0 else 1 + (m - L.cells - 1) / L.LeftSplit()
  }

  ghost predicate LeafSizes(ls: seq<seq<Row>>, each: nat, last: nat) {
    && |ls| > 0 && (forall i :: 0 <= i < |ls| - 1 ==> |ls[i]| == each) && |ls[|ls| - 1]| == last
  }

  /** Leaves of exactly LeftSplit cells, the remainder in the last one. */
  ghost predicate Sized(ls: seq<seq<Row>>, L: Layout, m: nat)
    requires L.Ok() && L.cells < m
  {
    var x := m - L.cells - 1;
    && |ls| == 2 + x / L.LeftSplit()
    && LeafSizes(ls, L.LeftSplit(), L.RightSplit() + x % L.LeftSplit())
  }

  ghost predicate Loaded(t: Pages, L: Layout, m: nat)
    requires L.Ok() && Linked(t, L)
  {
    if m <= L.cells then t[0].Leaf? && |t[0].rows| == m
    else t[0].Inner? && Sized(Leaves(t, L), L, m)
  }

  ghost predicate RowsBelow(rows: seq<Row>, key: int) {
    forall x :: 0 <= x < |rows| ==> rows[x].key < key
  }

  lemma {:induction false} FlattenBelow(ls: seq<seq<Row>>, key: int)
    requires RowsBelow(Flatten(ls), key)
    ensures forall i :: 0 <= i < |ls| ==> RowsBelow(ls[i], key)
  {
    if ls != [] {
      assert forall x :: 0 <= x < |ls[0]| ==> Flatten(ls)[x] == ls[0][x];
      var rest := Flatten(ls[1..]);
      assert forall x :: 0 <= x < |rest| ==> Flatten(ls)[x + |ls[0]|] == rest[x];
      FlattenBelow(ls[1..], key);
      assert forall i :: 0 < i < |ls| ==> ls[i] == ls[1..][i - 1];
    }
  }

  lemma DivStep(x: nat, l: nat)
    requires l > 0
    ensures x % l < l - 1 ==> (x + 1) / l == x / l && (x + 1) % l == x % l + 1
    ensures x % l == l - 1 ==> (x + 1) / l == x / l + 1 && (x + 1) % l == 0
  {
    var q, r := x / l, x % l;
    assert x == q * l + r;
    if r < l - 1 {
      DivUnique(x + 1, l, q, r + 1);
    } else {
      assert x + 1 == (q + 1) * l + 0;
      DivUnique(x + 1, l, q + 1, 0);
    }
  }

  lemma Multiple(a: int, l: nat)
    ensures a >= 1 ==> a * l >= l
    ensures a <= -1 ==> a * l + l <= 0
  {
    if a >= 1 {
      assert (a - 1) * l >= 0;
    } else if a <= -1 {
      assert (-1 - a) * l >= 0;
    }
  }

  lemma DivUnique(x: nat, l: nat, q: nat, r: nat)
    requires l > 0 && x == q * l + r && r < l
    ensures x / l == q && x % l == r
  {
    var q', r' := x / l, x % l;
    assert x == q' * l + r';
    assert (q - q') * l == r' - r;
    Multiple(q - q', l);
  }

  lemma PastSeparators(ls: seq<seq<Row>>, slots: seq<Slot>, key: int)
    requires |ls| == |slots| + 1 && Bounded(ls, slots)
    requires forall i :: 0 < i < |ls| ==> |ls[i]| > 0 && RowsBelow(ls[i], key)
    ensures InnerProbe(slots, key, 0, |slots|) == |slots|
  {
    forall i | 0 <= i < |slots|
      ensures slots[i].key < key
    {
      assert AllAbove(ls[i + 1], slots[i].key);
      assert slots[i].key < ls[i + 1][0].key;
    }
    InnerProbePast(slots, key, 0, |slots|);
  }

  /** A key above all others is new and belongs to the last leaf. */
  lemma NewKey(t: Pages, L: Layout, key: Key)
    requires WellFormed(t, L) && RowsBelow(Rows(t, L), key)
    ensures !Holds(t, L, key) && Route(t, key) == |Seps(t)|
  {
    hide SortedLeaves, Bounded, InnerProbe;
    var ls := Leaves(t, L);
    FlattenBelow(ls, key);
    if t[0].Inner? {
      PastSeparators(ls, Seps(t), key);
    }
    assert forall i :: 0 <= i < |ls| ==> !RowsHold(ls[i], key);
  }

  lemma GainBelow(was: seq<Row>, now: seq<Row>, row: Row, key: int)
    requires GainsRow(was, now, row) && RowsBelow(was, key) && row.key < key
    ensures RowsBelow(now, key)
  {
    var at: nat :| at <= |was| && now == Spliced(was, at, row);
    assert forall x :: 0 <= x < |now| ==> now[x] == if x < at then was[x] else if x == at then row else was[x - 1];
  }

  // ---- One insert of a new largest key ----

  lemma SizedGrows(ls: seq<seq<Row>>, L: Layout, m: nat, rows: seq<Row>)
    requires L.Ok() && L.cells < m && Sized(ls, L, m)
    requires |ls[|ls| - 1]| < L.cells && |rows| == |ls[|ls| - 1]| + 1
    ensures Sized(ls[|ls| - 1 := rows], L, m + 1)
  {
    DivStep(m - L.cells - 1, L.LeftSplit());
  }

  lemma SizedSplits(ls: seq<seq<Row>>, L: Layout, m: nat, left: seq<Row>, right: seq<Row>)
    requires L.Ok() && L.cells < m && Sized(ls, L, m)
    requires |ls[|ls| - 1]| == L.cells && |left| == L.LeftSplit() && |right| == L.RightSplit()
    ensures Sized(ls[..|ls| - 1] + [left, right], L, m + 1)
  {
    DivStep(m - L.cells - 1, L.LeftSplit());
  }

  lemma SizedFirst(L: Layout, left: seq<Row>, right: seq<Row>)
    requires L.Ok() && |left| == L.LeftSplit() && |right| == L.RightSplit()
    ensures Sized([left, right], L, L.cells + 1)
  {
    DivUnique(0, L.LeftSplit(), 0, 0);
  }

  lemma LoadRootLeaf(t: Pages, L: Layout, m: nat, row: Row)
    requires L.Ok() && WellFormed(t, L) && Loaded(t, L, m) && m < L.cells
    ensures Insert(t, L, row).Done? && Linked(Insert(t, L, row).pages, L)
    ensures Loaded(Insert(t, L, row).pages, L, m + 1)
  {
    hide InnerProbe, LeafProbe;
    assert Find(t, L, row.key).page == 0;
  }

  lemma LoadSplitsRoot(t: Pages, L: Layout, row: Row)
    requires L.Ok() && WellFormed(t, L) && Loaded(t, L, L.cells) && !Holds(t, L, row.key)
    ensures Insert(t, L, row).Done? && Linked(Insert(t, L, row).pages, L)
    ensures Loaded(Insert(t, L, row).pages, L, L.cells + 1)
  {
    var c := Find(t, L, row.key);
    assert c.page == 0 by { hide InnerProbe, LeafProbe; }
    var all := Spliced(t[0].rows, c.cell, row);
    var left, right := all[..L.LeftSplit()], all[L.LeftSplit()..];
    RoutedFits(t, L, row);
    Halves(all, L.LeftSplit());
    hide InnerProbe, LeafProbe, SortedRows, Bounded, Chained, SortedLeaves, Sized;
    SplitRootWellFormed(t, L, left, right);
    assert Insert(t, L, row).pages == SplitRoot(t, L, left, right);
    SizedFirst(L, left, right);
  }

  lemma InsertRefills(t: Pages, L: Layout, row: Row)
    requires L.Ok() && Linked(t, L) && t[0].Inner? && |Leaves(t, L)[Route(t, row.key)]| < L.cells
    ensures var c := Find(t, L, row.key);
            && c.page == Kids(t)[Route(t, row.key)] && t[c.page].rows == Leaves(t, L)[Route(t, row.key)]
            && Insert(t, L, row) == Done(t[c.page := t[c.page].(rows := Spliced(t[c.page].rows, c.cell, row))])
  {
    hide InnerProbe, LeafProbe;
  }

  lemma LoadRightmost(t: Pages, L: Layout, m: nat, row: Row)
    requires L.Ok() && WellFormed(t, L) && L.cells < m && Loaded(t, L, m)
    requires Route(t, row.key) == t[0].count && |Leaves(t, L)[t[0].count]| < L.cells
    ensures Insert(t, L, row).Done? && Linked(Insert(t, L, row).pages, L)
    ensures Loaded(Insert(t, L, row).pages, L, m + 1)
  {
    var c := Find(t, L, row.key);
    var all := Spliced(t[c.page].rows, c.cell, row);
    hide InnerProbe, LeafProbe, SortedRows, Bounded, Chained, SortedLeaves, Spliced, Insert, Find, Sized, Route;
    InsertRefills(t, L, row);
    KidPage(t, L, t[0].count);
    RefilledLinked(t, L, t[0].count, all);
    SizedGrows(Leaves(t, L), L, m, all);
  }

  lemma LoadSplitsRightmost(t: Pages, L: Layout, m: nat, row: Row)
    requires L.Ok() && WellFormed(t, L) && L.cells < m && Loaded(t, L, m) && !Holds(t, L, row.key)
    requires Route(t, row.key) == t[0].count < L.keys && |Leaves(t, L)[t[0].count]| == L.cells
    ensures Insert(t, L, row).Done? && Linked(Insert(t, L, row).pages, L)
    ensures Loaded(Insert(t, L, row).pages, L, m + 1)
  {
    var c := Find(t, L, row.key);
    hide InnerProbe, LeafProbe, SortedRows, Bounded, Chained, SortedLeaves, Insert, RightmostSplit, Sized, Spliced,
         Holds, Route, Find;
    RightmostOutcome(t, L, row);
    LastKid(t, L);
    LoadSplitsAt(t, L, m, Spliced(t[t[0].right].rows, c.cell, row));
  }

  lemma RightmostInner(t: Pages, left: seq<Row>, right: seq<Row>)
    requires |t| > 0 && t[0].Inner? && 0 < t[0].right < |t| && t[t[0].right].Leaf?
    requires |left| > 0 && t[0].count < |t[0].slots|
    ensures RightmostSplit(t, left, right)[0].Inner?
  {
  }

  lemma LoadSplitsAt(t: Pages, L: Layout, m: nat, all: seq<Row>)
    requires L.Ok() && WellFormed(t, L) && L.cells < m && Loaded(t, L, m) && t[0].count < L.keys
    requires |Leaves(t, L)[t[0].count]| == L.cells && |all| == L.cells + 1
    requires 0 < t[0].right < |t| && t[t[0].right].Leaf?
    ensures var t' := RightmostSplit(t, all[..L.LeftSplit()], all[L.LeftSplit()..]);
            Linked(t', L) && Loaded(t', L, m + 1)
  {
    var left, right := all[..L.LeftSplit()], all[L.LeftSplit()..];
    hide SortedLeaves, Bounded, Chained, Sized, Kids, RightmostSplit;
    RightmostSplitLinked(t, L, left, right);
    RightmostInner(t, left, right);
    SizedSplits(Leaves(t, L), L, m, left, right);
  }

  // ---- The whole load ----

  /** The separators and the sizes of a loaded table. */
  lemma LoadedCount(t: Pages, L: Layout, m: nat)
    requires L.Ok() && Linked(t, L) && Loaded(t, L, m)
    ensures m <= L.cells ==> t[0].Leaf? && |t| == 1
    ensures L.cells < m ==> t[0].Inner? && t[0].count == LoadedKeys(L, m) && |t| == 2 + LoadedKeys(L, m)
  {
    hide Chained;
  }

  lemma DivGrows(x: nat, l: nat)
    requires l > 0
    ensures x / l <= (x + 1) / l
  {
    DivStep(x, l);
  }

  /** There is room for the next key: either its leaf has room or the root has. */
  lemma RoomForNext(t: Pages, L: Layout, m: nat)
    requires L.Ok() && Linked(t, L) && L.cells < m && Loaded(t, L, m) && LoadedKeys(L, m + 1) <= L.keys
    ensures |Leaves(t, L)[t[0].count]| <= L.cells
    ensures |Leaves(t, L)[t[0].count]| == L.cells ==> t[0].count < L.keys
  {
    hide Chained;
    LoadedCount(t, L, m);
    DivStep(m - L.cells - 1, L.LeftSplit());
  }

  lemma LoadStep(t: Pages, L: Layout, m: nat, row: Row)
    requires L.Ok() && WellFormed(t, L) && Loaded(t, L, m) && RowsBelow(Rows(t, L), row.key)
    requires LoadedKeys(L, m + 1) <= L.keys
    ensures CanInsert(t, L, row.key) && Insert(t, L, row).Done?
    ensures WellFormed(Insert(t, L, row).pages, L) && Loaded(Insert(t, L, row).pages, L, m + 1)
    ensures GainsRow(Rows(t, L), Rows(Insert(t, L, row).pages, L), row)
  {
    hide WellFormed, Rows, Chained, Holds, Sized, InnerProbe, LeafProbe, Insert, GainsRow, LoadedKeys;
    InsertCorrectIff(t, L, row);
    LoadStepShape(t, L, m, row);
  }

  lemma LoadStepShape(t: Pages, L: Layout, m: nat, row: Row)
    requires L.Ok() && WellFormed(t, L) && Loaded(t, L, m) && RowsBelow(Rows(t, L), row.key)
    requires LoadedKeys(L, m + 1) <= L.keys
    ensures CanInsert(t, L, row.key) && Insert(t, L, row).Done?
    ensures Linked(Insert(t, L, row).pages, L) && Loaded(Insert(t, L, row).pages, L, m + 1)
  {
    NewKey(t, L, row.key);
    FullLeaf(t, L, row.key);
    hide Rows, Chained, Holds, Sized, InnerProbe, LeafProbe, Insert, LoadedKeys, Bounded, SortedLeaves;
    if m < L.cells {
      LoadRootLeaf(t, L, m, row);
    } else if m == L.cells {
      LoadSplitsRoot(t, L, row);
    } else {
      RoomForNext(t, L, m);
      if |Leaves(t, L)[t[0].count]| < L.cells {
        LoadRightmost(t, L, m, row);
      } else {
        LoadSplitsRightmost(t, L, m, row);
      }
    }
  }

  predicate Ascending(rows: seq<Row>) {
    forall i, j :: 0 <= i < j < |rows| ==> rows[i].key < rows[j].key
  }

  lemma LoadedKeysGrow(L: Layout, i: nat, m: nat)
    requires L.Ok() && i <= m
    ensures LoadedKeys(L, i) <= LoadedKeys(L, m)
    decreases m - i
  {
    if i < m {
      LoadedKeysGrow(L, i + 1, m);
      if L.cells < i {
        DivGrows(i - L.cells - 1, L.LeftSplit());
      }
    }
  }

  /** Loading strictly ascending keys never fails while the internal keys fit: the table
      ends well formed with the rows loaded, on 1 page if they fit in one leaf and otherwise
      on 3 + (m - cells - 1) / LeftSplit pages, every leaf but the last holding exactly
      LeftSplit rows. */
  lemma {:induction false} AscendingLoad(L: Layout, rows: seq<Row>) returns (ts: seq<Pages>)
    requires L.Ok() && Ascending(rows) && LoadedKeys(L, |rows|) <= L.keys
    ensures IsRun(ts, L, rows)
    ensures var t := ts[|rows|];
            && WellFormed(t, L) && Represents(MapOf(rows), Rows(t, L))
            && |t| == (if |rows| <= L.cells then 1
                       else 3 + (|rows| - L.cells - 1) / L.LeftSplit())
            && (forall i :: 0 <= i < |Leaves(t, L)| - 1 ==> |Leaves(t, L)[i]| == L.LeftSplit())
  {
    hide *;
    ts := LoadRun(L, rows);
    RunLength(ts, L, rows);
    LoadRefines(ts, L, rows);
    WellFormedLinked(ts[|rows|], L);
    LoadedShape(ts[|rows|], L, |rows|);
  }

  lemma LoadRefines(ts: seq<Pages>, L: Layout, rows: seq<Row>)
    requires L.Ok() && IsRun(ts, L, rows) && |ts| == |rows| + 1 && LoadedRun(ts, L, rows)
    ensures WellFormed(ts[|rows|], L) && Represents(MapOf(rows), Rows(ts[|rows|], L))
  {
    hide IsRun, Linked, CanInsert, Represents, Rows, MapOf, Leaves, SortedLeaves, Bounded;
    RunRefinesMap(ts, L, rows, |rows|);
    assert rows[..|rows|] == rows;
  }

  lemma LoadedShape(t: Pages, L: Layout, m: nat)
    requires L.Ok() && Linked(t, L) && Loaded(t, L, m)
    ensures |t| == if m <= L.cells then 1 else 3 + (m - L.cells - 1) / L.LeftSplit()
    ensures forall i :: 0 <= i < |Leaves(t, L)| - 1 ==> |Leaves(t, L)[i]| == L.LeftSplit()
  {
    hide Linked, Loaded;
    LoadedCount(t, L, m);
    LoadedSizes(t, L, m);
  }

  lemma LoadedSizes(t: Pages, L: Layout, m: nat)
    requires L.Ok() && Linked(t, L) && Loaded(t, L, m)
    ensures forall i :: 0 <= i < |Leaves(t, L)| - 1 ==> |Leaves(t, L)[i]| == L.LeftSplit()
  {
    hide Chained;
    if t[0].Leaf? {
      LeafPerSeparator(t, L);
    }
  }

  ghost predicate LoadedRun(ts: seq<Pages>, L: Layout, rows: seq<Row>)
    requires L.Ok() && |ts| == |rows| + 1
  {
    forall i :: 0 <= i < |rows| ==> Linked(ts[i], L) && CanInsert(ts[i], L, rows[i].key)
  }

  /** All rows lie below every key above the last one. */
  ghost predicate LoadedBelow(t: Pages, L: Layout, rows: seq<Row>)
    requires Linked(t, L)
  {
    forall key: int :: (rows != [] ==> rows[|rows| - 1].key < key) ==> RowsBelow(Rows(t, L), key)
  }

  lemma {:induction false} LoadRun(L: Layout, rows: seq<Row>) returns (ts: seq<Pages>)
    requires L.Ok() && Ascending(rows) && LoadedKeys(L, |rows|) <= L.keys
    ensures IsRun(ts, L, rows) && LoadedRun(ts, L, rows)
    ensures WellFormed(ts[|rows|], L) && Loaded(ts[|rows|], L, |rows|) && LoadedBelow(ts[|rows|], L, rows)
  {
    hide *;
    if rows == [] {
      FreshRun(L);
      ts := [Fresh()];
    } else {
      var n := |rows| - 1;
      LoadedKeysGrow(L, n, |rows|);
      AscendingFront(rows);
      var init := LoadRun(L, rows[..n]);
      ts := LoadOne(init, L, rows);
    }
  }

  lemma LoadOne(init: seq<Pages>, L: Layout, rows: seq<Row>) returns (ts: seq<Pages>)
    requires L.Ok() && |rows| > 0 && Ascending(rows) && LoadedKeys(L, |rows|) <= L.keys
    requires var front := rows[..|rows| - 1];
             && IsRun(init, L, front) && LoadedRun(init, L, front) && WellFormed(init[|front|], L)
             && Loaded(init[|front|], L, |front|) && LoadedBelow(init[|front|], L, front)
    ensures IsRun(ts, L, rows) && LoadedRun(ts, L, rows)
    ensures WellFormed(ts[|rows|], L) && Loaded(ts[|rows|], L, |rows|) && LoadedBelow(ts[|rows|], L, rows)
  {
    hide *;
    var n := |rows| - 1;
    RunLength(init, L, rows[..n]);
    var t, row := init[n], rows[n];
    NextAbove(t, L, rows);
    WellFormedLinked(t, L);
    LoadStep(t, L, n, row);
    var t' := Insert(t, L, row).pages;
    WellFormedLinked(t', L);
    ts := init + [t'];
    InsertSteps(t, L, row);
    LoadRunExtends(init, ts, L, rows, t, t');
    StillBelow(t, t', L, rows);
  }

  lemma InsertSteps(t: Pages, L: Layout, row: Row)
    requires L.Ok() && Linked(t, L) && Insert(t, L, row).Done?
    ensures Steps(t, Insert(t, L, row).pages, L, row)
  {
    hide Linked, Insert;
  }

  lemma NextAbove(t: Pages, L: Layout, rows: seq<Row>)
    requires WellFormed(t, L) && Ascending(rows) && |rows| > 0 && LoadedBelow(t, L, rows[..|rows| - 1])
    ensures RowsBelow(Rows(t, L), rows[|rows| - 1].key)
  {
    AscendingFront(rows);
    hide RowsBelow, Rows, Linked, Ascending;
  }

  lemma StillBelow(t: Pages, t': Pages, L: Layout, rows: seq<Row>)
    requires Linked(t, L) && Linked(t', L) && Ascending(rows) && |rows| > 0
    requires LoadedBelow(t, L, rows[..|rows| - 1]) && GainsRow(Rows(t, L), Rows(t', L), rows[|rows| - 1])
    ensures LoadedBelow(t', L, rows)
  {
    AscendingFront(rows);
    hide RowsBelow, Rows, Linked, Ascending, GainsRow;
    var row := rows[|rows| - 1];
    forall key: int | row.key < key
      ensures RowsBelow(Rows(t', L), key)
    {
      assert RowsBelow(Rows(t, L), key);
      GainBelow(Rows(t, L), Rows(t', L), row, key);
    }
  }

  lemma FreshRun(L: Layout)
    requires L.Ok()
    ensures WellFormed(Fresh(), L) && Loaded(Fresh(), L, 0) && IsRun([Fresh()], L, []) && LoadedRun([Fresh()], L, [])
    ensures LoadedBelow(Fresh(), L, [])
  {
    hide Chained, CanInsert;
    FreshRows(L);
  }

  lemma AscendingFront(rows: seq<Row>)
    requires Ascending(rows) && |rows| > 0
    ensures var front := rows[..|rows| - 1];
            Ascending(front) && (front != [] ==> front[|front| - 1].key < rows[|rows| - 1].key)
  {
  }

  lemma RunLength(ts: seq<Pages>, L: Layout, rows: seq<Row>)
    requires IsRun(ts, L, rows)
    ensures |ts| == |rows| + 1
  {
    hide Steps;
  }

  lemma LoadRunExtends(init: seq<Pages>, ts: seq<Pages>, L: Layout, rows: seq<Row>, t: Pages, t': Pages)
    requires L.Ok() && |rows| > 0 && IsRun(init, L, rows[..|rows| - 1]) && LoadedRun(init, L, rows[..|rows| - 1])
    requires t == init[|rows| - 1] && ts == init + [t'] && Steps(t, t', L, rows[|rows| - 1])
    requires Linked(t, L) && CanInsert(t, L, rows[|rows| - 1].key)
    ensures IsRun(ts, L, rows) && LoadedRun(ts, L, rows)
  {
    hide Steps, Linked, CanInsert;
    var n := |rows| - 1;
    forall i | 0 <= i < |rows|
      ensures Steps(ts[i], ts[i + 1], L, rows[i]) && Linked(ts[i], L) && CanInsert(ts[i], L, rows[i].key)
    {
      if i < n {
        assert ts[i] == init[i] && ts[i + 1] == init[i + 1] && rows[..n][i] == rows[i];
      }
    }
  }
}
