/** What one `Insert` does to a well-formed table: it stays well formed and gains exactly
    the new row, if and only if the key is new and the overflowing leaf, if there is one,
    is the root leaf or the rightmost leaf. */
module BTreeProofs {
  import opened BTreeModel

  // ---- The binary searches find the lower bound ----

  predicate SortedSlots(slots: seq<Slot>) {
    forall i, j :: 0 <= i < j < |slots| ==> slots[i].key < slots[j].key
  }

  /** `r` splits the separators at the key. */
  predicate SlotsSplit(slots: seq<Slot>, key: int, lo: nat, hi: nat) {
    && (forall i :: 0 <= i < lo && i < |slots| ==> slots[i].key < key)
    && (forall i :: hi <= i < |slots| ==> key <= slots[i].key)
  }

  lemma {:induction false} InnerProbeBound(slots: seq<Slot>, key: int, lo: nat, hi: nat)
    requires lo <= hi <= |slots| && SortedSlots(slots) && SlotsSplit(slots, key, lo, hi)
    ensures var r := InnerProbe(slots, key, lo, hi); SlotsSplit(slots, key, r, r)
    decreases hi - lo
  {
    if lo < hi {
      var mid := (lo + hi) / 2;
      if slots[mid].key >= key {
        InnerProbeBound(slots, key, lo, mid);
      } else {
        InnerProbeBound(slots, key, mid + 1, hi);
      }
    }
  }

  predicate RowsSplit(rows: seq<Row>, key: int, lo: nat, hi: nat) {
    && (forall i :: 0 <= i < lo && i < |rows| ==> rows[i].key < key)
    && (forall i :: hi <= i < |rows| ==> key <= rows[i].key)
  }

  lemma {:induction false} LeafProbeBound(rows: seq<Row>, key: int, lo: nat, hi: nat)
    requires lo <= hi <= |rows| && SortedRows(rows) && RowsSplit(rows, key, lo, hi)
    ensures var r := LeafProbe(rows, key, lo, hi); RowsSplit(rows, key, r, r)
    decreases hi - lo
  {
    if lo < hi {
      var mid := (lo + hi) / 2;
      if key < rows[mid].key {
        LeafProbeBound(rows, key, lo, mid);
      } else if key > rows[mid].key {
        LeafProbeBound(rows, key, mid + 1, hi);
      }
    }
  }

  lemma SeparatorsIncrease(ls: seq<seq<Row>>, slots: seq<Slot>)
    requires |slots| < |ls| && Bounded(ls, slots)
    requires forall i :: 0 <= i < |ls| ==> |ls[i]| > 0
    ensures SortedSlots(slots)
  {
    forall i, j | 0 <= i < j < |slots|
      ensures slots[i].key < slots[j].key
    {
      assert AllAbove(ls[j], slots[i].key) && NoneAbove(ls[j], slots[j].key);
      assert ls[j][0].key <= slots[j].key;
    }
  }

  /** The root routes a key past exactly the separators below it. */
  lemma RouteBound(t: Pages, L: Layout, key: int)
    requires WellFormed(t, L)
    ensures SlotsSplit(Seps(t), key, Route(t, key), Route(t, key))
  {
    if t[0].Inner? {
      SeparatorsIncrease(Leaves(t, L), Seps(t));
      InnerProbeBound(Seps(t), key, 0, |Seps(t)|);
    }
  }

  /** Find's cell splits its leaf at the key. */
  lemma CellBound(t: Pages, L: Layout, key: int)
    requires WellFormed(t, L)
    ensures var c := Find(t, L, key);
            && c.page == Kids(t)[Route(t, key)] && t[c.page].rows == Leaves(t, L)[Route(t, key)]
            && SortedRows(t[c.page].rows) && RowsSplit(t[c.page].rows, key, c.cell, c.cell)
  {
    var rows := Leaves(t, L)[Route(t, key)];
    LeafProbeBound(rows, key, 0, |rows|);
  }

  predicate RowsHold(rows: seq<Row>, key: int) {
    exists x :: 0 <= x < |rows| && rows[x].key == key
  }

  /** The table holds a row with this key. */
  ghost predicate Holds(t: Pages, L: Layout, key: int)
    requires Linked(t, L)
  {
    exists i :: 0 <= i < |Leaves(t, L)| && RowsHold(Leaves(t, L)[i], key)
  }

  /** Only the leaf that the separators select can hold a key. */
  lemma OnlyRouted(ls: seq<seq<Row>>, slots: seq<Slot>, key: int, p: nat, i: nat)
    requires |slots| < |ls| && Bounded(ls, slots) && p <= |slots| && SlotsSplit(slots, key, p, p)
    requires i < |ls| && i <= |slots| && RowsHold(ls[i], key)
    ensures i == p
  {
    var x :| 0 <= x < |ls[i]| && ls[i][x].key == key;
    assert i < |slots| ==> NoneAbove(ls[i], slots[i].key);
    assert p < i ==> AllAbove(ls[i], slots[p].key);
  }

  lemma HoldsRouted(t: Pages, L: Layout, key: int)
    requires WellFormed(t, L)
    ensures Holds(t, L, key) <==> RowsHold(Leaves(t, L)[Route(t, key)], key)
  {
    RouteBound(t, L, key);
    if Holds(t, L, key) {
      var i :| 0 <= i < |Leaves(t, L)| && RowsHold(Leaves(t, L)[i], key);
      OnlyRouted(Leaves(t, L), Seps(t), key, Route(t, key), i);
    }
  }

  lemma SplitDecides(rows: seq<Row>, key: int, cell: nat)
    requires SortedRows(rows) && RowsSplit(rows, key, cell, cell)
    ensures RowsHold(rows, key) <==> cell < |rows| && rows[cell].key == key
  {
  }

  /** Find is a correct search: the cursor stands on the key exactly when the table holds it. */
  lemma FindCorrect(t: Pages, L: Layout, key: int)
    requires WellFormed(t, L)
    ensures var c := Find(t, L, key);
            Holds(t, L, key) <==> c.cell < |t[c.page].rows| && t[c.page].rows[c.cell].key == key
  {
    var c := Find(t, L, key);
    hide InnerProbe, LeafProbe, Holds, SortedLeaves, Bounded, SortedRows, RowsSplit, RowsHold, Find, WellFormed;
    HoldsRouted(t, L, key);
    CellBound(t, L, key);
    SplitDecides(t[c.page].rows, key, c.cell);
  }

  // ---- The rows of a table in key order ----

  function Flatten(ls: seq<seq<Row>>): seq<Row> {
    if ls == [] then [] else ls[0] + Flatten(ls[1..])
  }

  lemma {:induction false} FlattenConcat(a: seq<seq<Row>>, b: seq<seq<Row>>)
    ensures Flatten(a + b) == Flatten(a) + Flatten(b)
  {
    if a == [] {
      assert a + b == b;
    } else {
      assert (a + b)[1..] == a[1..] + b;
      FlattenConcat(a[1..], b);
    }
  }

  lemma FlattenAt(ls: seq<seq<Row>>, p: nat)
    requires p < |ls|
    ensures Flatten(ls) == Flatten(ls[..p]) + ls[p] + Flatten(ls[p + 1..])
  {
    assert ls == ls[..p] + ls[p..];
    FlattenConcat(ls[..p], ls[p..]);
  }

  /** All rows, leaf by leaf. */
  function Rows(t: Pages, L: Layout): seq<Row>
    requires Linked(t, L)
  {
    Flatten(Leaves(t, L))
  }

  lemma SplicedInside(a: seq<Row>, m: seq<Row>, b: seq<Row>, cell: nat, row: Row)
    requires cell <= |m|
    ensures a + Spliced(m, cell, row) + b == Spliced(a + m + b, |a| + cell, row)
  {
    assert (a + m + b)[..|a| + cell] == a + m[..cell];
    assert (a + m + b)[|a| + cell..] == m[cell..] + b;
  }

  /** `now` is `was` with `row` put in at one place. */
  ghost predicate GainsRow(was: seq<Row>, now: seq<Row>, row: Row) {
    exists at: nat :: at <= |was| && now == Spliced(was, at, row)
  }

  /** Replacing one leaf by leaves holding the same rows and one more adds that row. */
  lemma FlattenReplaced(ls: seq<seq<Row>>, p: nat, mid: seq<seq<Row>>, cell: nat, row: Row)
    requires p < |ls| && cell <= |ls[p]|
    requires Flatten(mid) == Spliced(ls[p], cell, row)
    ensures GainsRow(Flatten(ls), Flatten(ls[..p] + mid + ls[p + 1..]), row)
  {
    FlattenAt(ls, p);
    FlattenConcat(ls[..p] + mid, ls[p + 1..]);
    FlattenConcat(ls[..p], mid);
    SplicedInside(Flatten(ls[..p]), ls[p], Flatten(ls[p + 1..]), cell, row);
    var at := |Flatten(ls[..p])| + cell;
    assert Flatten(ls[..p] + mid + ls[p + 1..]) == Spliced(Flatten(ls), at, row);
  }

  lemma FlattenOne(a: seq<Row>)
    ensures Flatten([a]) == a
  {
    assert [a][1..] == [];
  }

  lemma FlattenPair(a: seq<Row>, b: seq<Row>)
    ensures Flatten([a, b]) == a + b
  {
    assert [a, b][1..] == [b];
    FlattenOne(b);
  }

  // ---- Inserting a new key ----

  /** `t'` is well formed and holds the rows of `t` with `row` put in at one place. */
  ghost predicate Gains(t: Pages, L: Layout, row: Row, t': Pages)
    requires Linked(t, L)
  {
    WellFormed(t', L) && GainsRow(Rows(t, L), Rows(t', L), row)
  }

  lemma SplicedSorted(rows: seq<Row>, cell: nat, row: Row)
    requires SortedRows(rows) && cell <= |rows| && RowsSplit(rows, row.key, cell, cell)
    requires !RowsHold(rows, row.key)
    ensures SortedRows(Spliced(rows, cell, row))
  {
    var all := Spliced(rows, cell, row);
    assert forall x :: 0 <= x < cell ==> all[x] == rows[x];
    assert forall x :: cell < x < |all| ==> all[x] == rows[x - 1];
  }

  lemma SplicedBounds(rows: seq<Row>, cell: nat, row: Row, key: int)
    requires cell <= |rows|
    ensures NoneAbove(rows, key) && row.key <= key ==> NoneAbove(Spliced(rows, cell, row), key)
    ensures AllAbove(rows, key) && key < row.key ==> AllAbove(Spliced(rows, cell, row), key)
  {
    var all := Spliced(rows, cell, row);
    assert forall x :: 0 <= x < |all| ==>
             all[x] == if x < cell then rows[x] else if x == cell then row else rows[x - 1];
  }

  /** `rows` may stand as leaf p among the others. */
  predicate FitsAt(slots: seq<Slot>, p: nat, rows: seq<Row>) {
    && SortedRows(rows)
    && (p < |slots| ==> NoneAbove(rows, slots[p].key))
    && (forall i :: 0 <= i < p && i < |slots| ==> AllAbove(rows, slots[i].key))
  }

  lemma SplicedFits(ls: seq<seq<Row>>, slots: seq<Slot>, p: nat, cell: nat, row: Row)
    requires |slots| < |ls| && p <= |slots| && Bounded(ls, slots) && SlotsSplit(slots, row.key, p, p)
    requires SortedRows(ls[p]) && cell <= |ls[p]| && RowsSplit(ls[p], row.key, cell, cell)
    requires !RowsHold(ls[p], row.key)
    ensures FitsAt(slots, p, Spliced(ls[p], cell, row))
  {
    hide Spliced, SortedRows, RowsSplit, RowsHold, NoneAbove, AllAbove;
    SplicedSorted(ls[p], cell, row);
    if p < |slots| {
      SplicedBounds(ls[p], cell, row, slots[p].key);
    }
    forall i | 0 <= i < p && i < |slots|
      ensures AllAbove(Spliced(ls[p], cell, row), slots[i].key)
    {
      SplicedBounds(ls[p], cell, row, slots[i].key);
    }
  }

  lemma WellFormedLinked(t: Pages, L: Layout)
    requires WellFormed(t, L)
    ensures Linked(t, L)
  {
    hide Linked;
  }

  lemma LeafPerSeparator(t: Pages, L: Layout)
    requires Linked(t, L)
    ensures |t| > 0 && (t[0].Inner? ==> t[0].count <= |t[0].slots|)
    ensures |Leaves(t, L)| == |Kids(t)| == |Seps(t)| + 1
  {
    hide Chained;
  }

  /** The leaf that a new key is routed to, with the key put in, still fits in its place. */
  lemma RoutedFits(t: Pages, L: Layout, row: Row)
    requires WellFormed(t, L) && !Holds(t, L, row.key)
    ensures var c := Find(t, L, row.key);
            FitsAt(Seps(t), Route(t, row.key), Spliced(t[c.page].rows, c.cell, row))
  {
    hide Linked, Leaves, SortedLeaves, Bounded, Kids, Seps, Route, Find, Holds, RowsHold, RowsSplit, SlotsSplit,
         SortedRows, Spliced, FitsAt;
    LeafPerSeparator(t, L);
    CellBound(t, L, row.key);
    RouteBound(t, L, row.key);
    HoldsRouted(t, L, row.key);
    SplicedFits(Leaves(t, L), Seps(t), Route(t, row.key), Find(t, L, row.key).cell, row);
  }

  // A leaf with room.

  lemma RefilledChained(t: Pages, ks: seq<nat>, L: Layout, p: nat, rows: seq<Row>)
    requires Chained(t, ks, L) && p < |ks| && 1 <= |rows| <= L.cells
    ensures var t' := t[ks[p] := t[ks[p]].(rows := rows)];
            Chained(t', ks, L) && RowsOf(t', ks) == RowsOf(t, ks)[p := rows]
  {
  }

  lemma RefilledLinked(t: Pages, L: Layout, p: nat, rows: seq<Row>)
    requires Linked(t, L) && p < |Kids(t)| && 1 <= |rows| <= L.cells
    ensures var t' := t[Kids(t)[p] := t[Kids(t)[p]].(rows := rows)];
            && Linked(t', L) && Seps(t') == Seps(t)
            && Leaves(t', L) == Leaves(t, L)[p := rows]
  {
    if t[0].Inner? {
      RefilledChained(t, Kids(t), L, p, rows);
    }
  }

  lemma RefilledBounded(ls: seq<seq<Row>>, slots: seq<Slot>, p: nat, rows: seq<Row>)
    requires |slots| < |ls| && p < |ls| && SortedLeaves(ls) && Bounded(ls, slots) && FitsAt(slots, p, rows)
    ensures SortedLeaves(ls[p := rows]) && Bounded(ls[p := rows], slots)
  {
  }

  lemma RefilledGains(t: Pages, L: Layout, p: nat, cell: nat, row: Row)
    requires WellFormed(t, L) && p < |Kids(t)| && |Leaves(t, L)[p]| < L.cells && cell <= |Leaves(t, L)[p]|
    requires FitsAt(Seps(t), p, Spliced(Leaves(t, L)[p], cell, row))
    ensures var k := Kids(t)[p];
            Gains(t, L, row, t[k := t[k].(rows := Spliced(Leaves(t, L)[p], cell, row))])
  {
    hide Leaves, SortedLeaves, Bounded, Flatten, SortedRows, GainsRow, FitsAt, Chained;
    var ls := Leaves(t, L);
    var all := Spliced(ls[p], cell, row);
    RefilledLinked(t, L, p, all);
    RefilledBounded(ls, Seps(t), p, all);
    FlattenOne(all);
    FlattenReplaced(ls, p, [all], cell, row);
    assert ls[p := all] == ls[..p] + [all] + ls[p + 1..];
  }

  lemma InsertWithRoom(t: Pages, L: Layout, row: Row)
    requires L.Ok() && WellFormed(t, L) && !Holds(t, L, row.key)
    requires |t[Find(t, L, row.key).page].rows| < L.cells
    ensures Insert(t, L, row).Done? && Gains(t, L, row, Insert(t, L, row).pages)
  {
    RoutedFits(t, L, row);
    RefilledGains(t, L, Route(t, row.key), Find(t, L, row.key).cell, row);
  }

  // The root leaf overflows.

  lemma Halves(all: seq<Row>, n: nat)
    requires SortedRows(all) && 0 < n < |all|
    ensures SortedRows(all[..n]) && SortedRows(all[n..]) && all[..n] + all[n..] == all
    ensures NoneAbove(all[..n], all[..n][n - 1].key) && AllAbove(all[n..], all[..n][n - 1].key)
  {
    assert forall x :: 0 <= x < |all| - n ==> all[n..][x] == all[n + x];
  }

  lemma SplitRootWellFormed(t: Pages, L: Layout, left: seq<Row>, right: seq<Row>)
    requires L.Ok() && Linked(t, L) && t[0].Leaf?
    requires SortedRows(left) && SortedRows(right) && 1 <= |left| <= L.cells && 1 <= |right| <= L.cells
    requires NoneAbove(left, left[|left| - 1].key) && AllAbove(right, left[|left| - 1].key)
    ensures var t' := SplitRoot(t, L, left, right);
            WellFormed(t', L) && Leaves(t', L) == [left, right]
  {
    var t' := SplitRoot(t, L, left, right);
    assert Kids(t') == [2, 1];
    assert Seps(t') == [Slot(2, left[|left| - 1].key)];
  }

  lemma InsertSplitsRoot(t: Pages, L: Layout, row: Row)
    requires L.Ok() && WellFormed(t, L) && !Holds(t, L, row.key)
    requires t[0].Leaf? && |t[0].rows| == L.cells
    ensures Insert(t, L, row).Done? && Gains(t, L, row, Insert(t, L, row).pages)
  {
    var c := Find(t, L, row.key);
    var all := Spliced(t[0].rows, c.cell, row);
    var left, right := all[..L.LeftSplit()], all[L.LeftSplit()..];
    RoutedFits(t, L, row);
    Halves(all, L.LeftSplit());
    SplitRootWellFormed(t, L, left, right);
    FlattenPair(left, right);
    assert Leaves(t, L) == [t[0].rows];
    FlattenOne(t[0].rows);
    assert Rows(Insert(t, L, row).pages, L) == Spliced(Rows(t, L), c.cell, row);
  }

  // The rightmost leaf overflows.

  /** The root and the two halves once the rightmost leaf has been split. */
  function RightmostSplit(t: Pages, left: seq<Row>, right: seq<Row>): Pages
    requires |t| > 0 && t[0].Inner? && 0 < t[0].right < |t| && t[t[0].right].Leaf?
    requires |left| > 0 && t[0].count < |t[0].slots|
  {
    var r := t[0];
    var root := Inner(r.root, r.count + 1, r.slots[r.count := Slot(r.right, left[|left| - 1].key)], |t|);
    Halved(t, r.right, left, right)[0 := root]
  }

  lemma LastKid(t: Pages, L: Layout)
    requires Linked(t, L) && t[0].Inner?
    ensures Kids(t)[t[0].count] == t[0].right && 0 < t[0].right < |t| && t[t[0].right].Leaf?
    ensures Leaves(t, L)[t[0].count] == t[t[0].right].rows && t[t[0].right].next == 0
    ensures |t[t[0].right].rows| > 0 && !t[t[0].right].root
  {
    assert After(Kids(t), t[0].count) == 0;
  }

  lemma HalvedChained(t: Pages, ks: seq<nat>, L: Layout, left: seq<Row>, right: seq<Row>, t': Pages)
    requires Chained(t, ks, L) && |ks| > 0
    requires 1 <= |left| <= L.cells && 1 <= |right| <= L.cells
    requires var h := Halved(t, ks[|ks| - 1], left, right);
             |t'| == |h| && forall k :: 0 < k < |h| ==> t'[k] == h[k]
    ensures Chained(t', ks + [|t|], L)
    ensures RowsOf(t', ks + [|t|]) == RowsOf(t, ks)[..|ks| - 1] + [left, right]
  {
    var n := |ks| - 1;
    var ks' := ks + [|t|];
    forall i | 0 <= i < n
      ensures t'[ks[i]] == t[ks[i]] && After(ks', i) == After(ks, i)
    {
      assert ks[i] != ks[n];
    }
    assert t[ks[n]].next == After(ks, n) == 0;
    assert t'[ks[n]] == t[ks[n]].(next := |t|, rows := left);
    assert t'[|t|] == Leaf(0, false, 0, right);
  }

  lemma RightmostSplitLinked(t: Pages, L: Layout, left: seq<Row>, right: seq<Row>)
    requires Linked(t, L) && t[0].Inner? && t[0].count < L.keys
    requires 0 < t[0].right < |t| && t[t[0].right].Leaf?
    requires 1 <= |left| <= L.cells && 1 <= |right| <= L.cells
    ensures var t' := RightmostSplit(t, left, right);
            && Linked(t', L) && Leaves(t', L) == Leaves(t, L)[..t[0].count] + [left, right]
            && Seps(t') == Seps(t) + [Slot(t[0].right, left[|left| - 1].key)]
  {
    hide Chained;
    var t' := RightmostSplit(t, left, right);
    LastKid(t, L);
    assert Seps(t') == Seps(t) + [Slot(t[0].right, left[|left| - 1].key)];
    assert Kids(t') == Kids(t) + [|t|];
    HalvedChained(t, Kids(t), L, left, right, t');
  }

  lemma HalvesAbove(all: seq<Row>, n: nat, key: int)
    requires AllAbove(all, key) && n <= |all|
    ensures AllAbove(all[..n], key) && AllAbove(all[n..], key)
  {
  }

  lemma RightmostSplitBounded(ls: seq<seq<Row>>, slots: seq<Slot>, all: seq<Row>, n: nat, page: nat)
    requires |ls| == |slots| + 1 && SortedLeaves(ls) && Bounded(ls, slots)
    requires 0 < n < |all| && FitsAt(slots, |slots|, all)
    ensures var ls' := ls[..|slots|] + [all[..n], all[n..]];
            SortedLeaves(ls') && Bounded(ls', slots + [Slot(page, all[..n][n - 1].key)])
  {
    Halves(all, n);
    forall i | 0 <= i < |slots|
      ensures AllAbove(all[..n], slots[i].key) && AllAbove(all[n..], slots[i].key)
    {
      HalvesAbove(all, n, slots[i].key);
    }
    hide SortedRows, AllAbove, NoneAbove;
  }

  /** On the rightmost leaf the code's separator updates come out right. */
  lemma RightmostRoot(root: Node, L: Layout, oldMax: Key, page: nat, maxKey: Key, rightMax: Key)
    requires SlotsOk(root, L) && root.count < L.keys
    requires InnerProbe(root.slots, oldMax, 0, root.count) == root.count && maxKey > rightMax
    ensures Entered(Overwritten(root, oldMax), page, maxKey, rightMax)
         == Inner(root.root, root.count + 1, root.slots[root.count := Slot(root.right, rightMax)], page)
  {
    var n := root.count;
    assert Overwritten(root, oldMax).slots[n := Slot(root.right, rightMax)]
        == root.slots[n := Slot(root.right, rightMax)];
  }

  lemma SplitBelowRightmost(t: Pages, L: Layout, left: seq<Row>, right: seq<Row>)
    requires WellFormed(t, L) && t[0].Inner? && t[0].count < L.keys
    requires 0 < t[0].right < |t| && t[t[0].right].Leaf? && |t[t[0].right].rows| > 0
    requires |left| > 0 && |right| > 0 && AllAbove(right, left[|left| - 1].key)
    ensures SplitBelowRoot(t, t[0].right, left, right) == RightmostSplit(t, left, right)
  {
    hide Chained, SortedLeaves, Bounded, InnerProbe, Entered, Kids;
    LastKid(t, L);
    PastAllSeparators(t, L, |t[t[0].right].rows| - 1);
    RightmostRoot(t[0], L, MaxOf(t, t[0].right), |t|, right[|right| - 1].key, left[|left| - 1].key);
  }

  lemma RightmostOutcome(t: Pages, L: Layout, row: Row)
    requires L.Ok() && WellFormed(t, L) && !Holds(t, L, row.key)
    requires t[0].Inner? && t[0].count < L.keys && Route(t, row.key) == t[0].count
    requires |Leaves(t, L)[t[0].count]| == L.cells
    ensures 0 < t[0].right < |t| && t[t[0].right].Leaf?
    ensures var c := Find(t, L, row.key);
            var all := Spliced(t[t[0].right].rows, c.cell, row);
            Insert(t, L, row) == Done(RightmostSplit(t, all[..L.LeftSplit()], all[L.LeftSplit()..]))
  {
    hide Chained, Holds, SortedLeaves, Bounded, RowsSplit, InnerProbe, LeafProbe, SplitBelowRoot, RightmostSplit,
         SortedRows, AllAbove, NoneAbove;
    LastKid(t, L);
    RoutedFits(t, L, row);
    var all := Spliced(t[t[0].right].rows, Find(t, L, row.key).cell, row);
    Halves(all, L.LeftSplit());
    SplitBelowRightmost(t, L, all[..L.LeftSplit()], all[L.LeftSplit()..]);
  }

  lemma {:induction false} InnerProbePrefix(slots: seq<Slot>, n: nat, key: int, lo: nat, hi: nat)
    requires lo <= hi <= n <= |slots|
    ensures InnerProbe(slots[..n], key, lo, hi) == InnerProbe(slots, key, lo, hi)
    decreases hi - lo
  {
    if lo < hi {
      var mid := (lo + hi) / 2;
      if slots[mid].key >= key {
        InnerProbePrefix(slots, n, key, lo, mid);
      } else {
        InnerProbePrefix(slots, n, key, mid + 1, hi);
      }
    }
  }

  lemma {:induction false} InnerProbePast(slots: seq<Slot>, key: int, lo: nat, hi: nat)
    requires lo <= hi <= |slots| && forall i :: lo <= i < hi ==> slots[i].key < key
    ensures InnerProbe(slots, key, lo, hi) == hi
    decreases hi - lo
  {
    if lo < hi {
      InnerProbePast(slots, key, (lo + hi) / 2 + 1, hi);
    }
  }

  /** The search for the rightmost leaf's maximum runs past every separator. */
  lemma PastAllSeparators(t: Pages, L: Layout, x: nat)
    requires WellFormed(t, L) && t[0].Inner? && x < |Leaves(t, L)[t[0].count]|
    ensures InnerProbe(t[0].slots, Leaves(t, L)[t[0].count][x].key, 0, t[0].count) == t[0].count
  {
    hide InnerProbe, SortedLeaves, SortedRows, Chained;
    var n := t[0].count;
    var rows := Leaves(t, L)[n];
    forall i | 0 <= i < n
      ensures t[0].slots[i].key < rows[x].key
    {
      assert AllAbove(rows, Seps(t)[i].key);
    }
    InnerProbePast(t[0].slots, rows[x].key, 0, n);
  }

  lemma InsertSplitsRightmost(t: Pages, L: Layout, row: Row)
    requires L.Ok() && WellFormed(t, L) && !Holds(t, L, row.key)
    requires t[0].Inner? && t[0].count < L.keys && Route(t, row.key) == t[0].count
    requires |Leaves(t, L)[t[0].count]| == L.cells
    ensures Insert(t, L, row).Done? && Gains(t, L, row, Insert(t, L, row).pages)
  {
    var n := t[0].count;
    LastKid(t, L);
    var c := Find(t, L, row.key);
    var all := Spliced(t[c.page].rows, c.cell, row);
    RightmostOutcome(t, L, row);
    RoutedFits(t, L, row);
    RightmostGains(t, L, c.cell, row, all, L.LeftSplit());
  }

  lemma RightmostRows(ls: seq<seq<Row>>, n: nat, left: seq<Row>, right: seq<Row>, cell: nat, row: Row)
    requires |ls| == n + 1 && cell <= |ls[n]| && left + right == Spliced(ls[n], cell, row)
    ensures GainsRow(Flatten(ls), Flatten(ls[..n] + [left, right]), row)
  {
    FlattenPair(left, right);
    FlattenReplaced(ls, n, [left, right], cell, row);
    assert ls[..n] + [left, right] == ls[..n] + [left, right] + ls[n + 1..];
  }

  lemma RightmostGains(t: Pages, L: Layout, cell: nat, row: Row, all: seq<Row>, n: nat)
    requires WellFormed(t, L) && t[0].Inner? && t[0].count < L.keys
    requires 0 < t[0].right < |t| && t[t[0].right].Leaf? && cell <= |t[t[0].right].rows|
    requires all == Spliced(t[t[0].right].rows, cell, row) && FitsAt(Seps(t), t[0].count, all)
    requires 1 <= n <= L.cells && 1 <= |all| - n <= L.cells
    ensures Gains(t, L, row, RightmostSplit(t, all[..n], all[n..]))
  {
    hide Chained, Kids, SortedLeaves, Bounded, Flatten, SortedRows, GainsRow, FitsAt, RightmostSplit, Spliced;
    LastKid(t, L);
    assert all[..n] + all[n..] == all;
    RightmostSplitLinked(t, L, all[..n], all[n..]);
    RightmostSplitBounded(Leaves(t, L), Seps(t), all, n, t[0].right);
    RightmostRows(Leaves(t, L), t[0].count, all[..n], all[n..], cell, row);
  }
}
