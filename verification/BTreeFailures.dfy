/** What is lost when a full leaf in the middle is split, and that every table can be brought
    there: the condition of `InsertCorrectIff` fails after a short run of new keys whatever the
    layout. */
module BTreeFailures {
  import opened BTreeModel
  import opened BTreeProofs
  import opened BTreeTheorems
  import opened BTreeRuns
  import opened BTreeLoad

  // ---- Where Find looks ----

  /** Find is led to a leaf that holds the key (table.h:311-363), in any table, well formed or
      not. A root that leads to itself is searched for ever. */
  ghost predicate Reaches(t: Pages, key: int) {
    && |t| > 0 && (t[0].Inner? ==> t[0].count <= |t[0].slots|)
    && var c := Kids(t)[Route(t, key)];
       c < |t| && t[c].Leaf? && RowsHold(t[c].rows, key)
  }

  /** In a well-formed table Find reaches exactly the keys held. */
  lemma ReachesHeld(t: Pages, L: Layout, key: int)
    requires WellFormed(t, L)
    ensures Reaches(t, key) <==> Holds(t, L, key)
  {
    hide InnerProbe, LeafProbe, SortedLeaves, Bounded, RowsHold, Holds;
    HoldsRouted(t, L, key);
    FullLeaf(t, L, key);
  }

  /** Two keys with no separator between them take the same way. */
  lemma {:induction false} SameProbe(slots: seq<Slot>, x: int, y: int, lo: nat, hi: nat)
    requires lo <= hi <= |slots| && x <= y && forall i :: lo <= i < hi ==> slots[i].key < x || y <= slots[i].key
    ensures InnerProbe(slots, x, lo, hi) == InnerProbe(slots, y, lo, hi)
    decreases hi - lo
  {
    if lo < hi {
      var mid := (lo + hi) / 2;
      SameProbe(slots, x, y, lo, mid);
      SameProbe(slots, x, y, mid + 1, hi);
    }
  }

  lemma SplicedKey(rows: seq<Row>, cell: nat, row: Row, z: nat)
    requires cell <= |rows| && z <= |rows|
    ensures Spliced(rows, cell, row)[z] == row || RowsHold(rows, Spliced(rows, cell, row)[z].key)
  {
    var all := Spliced(rows, cell, row);
    assert z < cell ==> all[z] == rows[z];
    assert z > cell ==> all[z] == rows[z - 1];
  }

  lemma PageHolds(t: Pages, L: Layout, c: nat, key: int)
    requires Linked(t, L) && t[0].Inner? && 0 < c < |t| && t[c].Leaf? && RowsHold(t[c].rows, key)
    ensures Holds(t, L, key)
  {
    hide Chained, RowsHold;
    var i := PageIsKid(t, L, c);
    assert Leaves(t, L)[i] == t[c].rows by { hide Linked; }
  }

  /** No other page has a key of the leaf on page k with the new row. */
  lemma KeyElsewhere(t: Pages, L: Layout, row: Row, k: nat, cell: nat, c: nat, z: nat)
    requires WellFormed(t, L) && !Holds(t, L, row.key) && t[0].Inner?
    requires 0 < k < |t| && 0 < c < |t| && c != k && t[c].Leaf? && t[k].Leaf? && cell <= |t[k].rows| && z <= |t[k].rows|
    ensures !RowsHold(t[c].rows, Spliced(t[k].rows, cell, row)[z].key)
  {
    hide SortedLeaves, Bounded, Chained, Holds, Kids, Spliced;
    var key := Spliced(t[k].rows, cell, row)[z].key;
    SplicedKey(t[k].rows, cell, row, z);
    if RowsHold(t[c].rows, key) {
      PageHolds(t, L, c, key);
      var y: nat :| y < |t[c].rows| && t[c].rows[y].key == key;
      var x: nat :| x < |t[k].rows| && t[k].rows[x].key == key;
      PagesDisjoint(t, L, c, k, y, x);
    }
  }

  // ---- The root after a split in the middle ----

  /** The separator of leaf p replaced by the root's last one. */
  function Raised(root: Node, p: nat): (s: seq<Slot>)
    requires root.Inner? && p < root.count <= |root.slots|
    ensures |s| == |root.slots|
  {
    root.slots[p := Slot(root.slots[p].child, root.slots[root.count - 1].key)]
  }

  /** The new page stands at `index` before the right child, or has replaced the right child
      behind a slot that leads nowhere. */
  ghost predicate RootAfter(root: Node, r: Node, p: nat, page: nat, maxKey: Key, index: nat)
    requires root.Inner? && p < root.count < |root.slots|
  {
    var n, s := root.count, Raised(root, p);
    && r.Inner? && r.count == n + 1 && |r.slots| == |root.slots| && index <= n + 1
    && if index <= n then
         r.right == root.right && r.slots == s[..index] + [Slot(page, maxKey)] + s[index..n] + s[n + 1..]
       else r.right == page && r.slots[..n] == s[..n] && r.slots[n].child == 0
  }

  /** Where InsertInternal enters the new page: it searches for the number of keys. */
  function EntryIndex(root: Node, p: nat): (index: nat)
    requires root.Inner? && p < root.count < |root.slots|
    ensures index <= root.count + 1
  {
    InnerProbe(Raised(root, p), root.count, 0, root.count + 1)
  }

  lemma RootShape(root: Node, L: Layout, p: nat, oldMax: Key, page: nat, maxKey: Key, rightMax: Key)
    returns (index: nat)
    requires SlotsOk(root, L) && root.count < L.keys && p < root.count && maxKey <= rightMax
    requires InnerProbe(root.slots, oldMax, 0, root.count) == p
    ensures RootAfter(root, Entered(Overwritten(root, oldMax), page, maxKey, rightMax), p, page, maxKey, index)
    ensures index == EntryIndex(root, p)
  {
    var over := Overwritten(root, oldMax);
    assert over.slots == Raised(root, p);
    index := InnerProbe(over.slots, root.count, 0, root.count + 1);
  }

  /** A leaf before the right child was split: `t'` has the two halves, a root as described and
      all other leaves as before. */
  ghost predicate MiddleSplit(t: Pages, t': Pages, L: Layout, row: Row, index: nat)
    requires Linked(t, L)
  {
    var c := Find(t, L, row.key);
    var all := Spliced(t[c.page].rows, c.cell, row);
    && t[0].Inner? && Route(t, row.key) < t[0].count < |t[0].slots| && 0 < c.page && |t'| == |t| + 1
    && index <= t[0].count + 1 && HalvesAt(t', all, L.LeftSplit(), c.page, |t|)
    && RootAfter(t[0], t'[0], Route(t, row.key), |t|, all[|all| - 1].key, index)
    && forall x :: 0 < x < |t| && x != c.page ==> t'[x] == t[x]
  }

  lemma MiddlePages(t: Pages, L: Layout, row: Row) returns (index: nat)
    requires L.Ok() && WellFormed(t, L) && !Holds(t, L, row.key)
    requires t[0].Inner? && Route(t, row.key) < t[0].count < L.keys
    requires |t[Find(t, L, row.key).page].rows| == L.cells
    ensures t[0].count < |t[0].slots| && index == EntryIndex(t[0], Route(t, row.key))
    ensures Insert(t, L, row).Done? && MiddleSplit(t, Insert(t, L, row).pages, L, row, index)
  {
    hide Holds, Linked, Leaves, SortedLeaves, Bounded, Insert, Find, Spliced, Kids, Route, HalvesAt, RootAfter,
         EntryIndex, Seps;
    index := MiddleHalves(t, L, row);
    SplitLeafPages(t, L, row);
  }

  lemma MiddleHalves(t: Pages, L: Layout, row: Row) returns (index: nat)
    requires L.Ok() && WellFormed(t, L) && !Holds(t, L, row.key)
    requires t[0].Inner? && Route(t, row.key) < t[0].count < L.keys
    requires |t[Find(t, L, row.key).page].rows| == L.cells
    ensures Insert(t, L, row).Done? && |Insert(t, L, row).pages| == |t| + 1 && t[0].count < |t[0].slots|
    ensures var t', c := Insert(t, L, row).pages, Find(t, L, row.key);
            var all := Spliced(t[c.page].rows, c.cell, row);
            && 0 < c.page && index == EntryIndex(t[0], Route(t, row.key))
            && RootAfter(t[0], t'[0], Route(t, row.key), |t|, all[|all| - 1].key, index)
            && forall x :: 0 < x < |t| && x != c.page ==> t'[x] == t[x]
  {
    var c, p := Find(t, L, row.key), Route(t, row.key);
    var all := Spliced(t[c.page].rows, c.cell, row);
    hide *;
    WellFormedLinked(t, L);
    RowFitsBelow(t, L, row);
    InsertSplitsBelow(t, L, row);
    HalvesOf(all, L, Seps(t)[p].key);
    var left, right := all[..L.LeftSplit()], all[L.LeftSplit()..];
    index := MiddleRoot(t, L, p, left, right);
    BelowOthers(t, c.page, left, right);
  }

  lemma HalvesOf(all: seq<Row>, L: Layout, key: int)
    requires L.Ok() && |all| == L.cells + 1 && NoneAbove(all, key)
    ensures L.cells > 0 && 0 < L.LeftSplit() < |all|
    ensures all[L.LeftSplit()..][|all| - L.LeftSplit() - 1] == all[|all| - 1] && NoneAbove(all[L.LeftSplit()..], key)
  {
  }

  lemma RowFitsBelow(t: Pages, L: Layout, row: Row)
    requires WellFormed(t, L) && !Holds(t, L, row.key) && t[0].Inner? && Route(t, row.key) < t[0].count
    ensures t[0].count <= |t[0].slots| && |Seps(t)| == t[0].count
    ensures var c := Find(t, L, row.key);
            NoneAbove(Spliced(t[c.page].rows, c.cell, row), Seps(t)[Route(t, row.key)].key)
  {
    hide Holds, Linked, Leaves, Bounded, SortedLeaves, Spliced, Find, Kids, Route, NoneAbove;
    RootCount(t, L);
    RoutedFits(t, L, row);
  }

  lemma BelowOthers(t: Pages, k: nat, left: seq<Row>, right: seq<Row>)
    requires 0 < k < |t| && t[k].Leaf? && |t[k].rows| > 0 && |left| > 0 && |right| > 0
    requires t[0].Inner? && 0 < t[0].count && t[0].count + 1 < |t[0].slots|
    requires 0 < t[0].right < |t| && t[t[0].right].Leaf? && |t[t[0].right].rows| > 0
    ensures forall x :: 0 < x < |t| && x != k ==> SplitBelowRoot(t, k, left, right)[x] == t[x]
  {
    hide Entered, Overwritten;
  }

  lemma MiddleRoot(t: Pages, L: Layout, p: nat, left: seq<Row>, right: seq<Row>) returns (index: nat)
    requires WellFormed(t, L) && t[0].Inner? && p < t[0].count < L.keys
    requires |left| > 0 && |right| > 0 && NoneAbove(right, Seps(t)[p].key)
    requires 0 < Kids(t)[p] < |t| && t[Kids(t)[p]].Leaf? && |t[Kids(t)[p]].rows| > 0
    requires 0 < t[0].right < |t| && t[t[0].right].Leaf? && |t[t[0].right].rows| > 0
    ensures t[0].count + 1 < |t[0].slots|
    ensures RootAfter(t[0], SplitBelowRoot(t, Kids(t)[p], left, right)[0], p, |t|, right[|right| - 1].key, index)
    ensures index == EntryIndex(t[0], p)
  {
    hide InnerProbe, EntryIndex, Chained, Kids, Entered, Bounded, SortedLeaves;
    OldMaxSlot(t, L, p);
    BelowRightChild(t, L, p);
    NotRightChild(t, L, p);
    var half := Halved(t, Kids(t)[p], left, right);
    assert MaxOf(half, t[0].right) == MaxOf(t, t[0].right);
    index := RootShape(t[0], L, p, MaxOf(t, Kids(t)[p]), |t|, right[|right| - 1].key, MaxOf(half, t[0].right));
  }

  // ---- What is lost ----

  /** A separator of the new root is the new one or one that was raised. */
  lemma RootSlots(root: Node, r: Node, p: nat, page: nat, maxKey: Key, index: nat, i: nat) returns (j: nat)
    requires root.Inner? && p < root.count < |root.slots| && RootAfter(root, r, p, page, maxKey, index)
    requires index <= root.count && i <= root.count
    ensures i == index ==> r.slots[i].key == maxKey
    ensures i != index ==> j < root.count && r.slots[i] == Raised(root, p)[j]
  {
    j := if i < index then i else if i > index then i - 1 else 0;
  }

  lemma AfterCount(root: Node, r: Node, p: nat, page: nat, maxKey: Key, index: nat)
    requires root.Inner? && p < root.count < |root.slots| && RootAfter(root, r, p, page, maxKey, index)
    ensures r.Inner? && r.count == root.count + 1 <= |r.slots|
  {
  }

  /** No separator of the new root lies between two keys of the leaf that was split. */
  lemma NoneBetween(t: Pages, L: Layout, p: nat, r: Node, page: nat, index: nat, all: seq<Row>, x: nat, y: nat)
    requires WellFormed(t, L) && t[0].Inner? && p < t[0].count < |t[0].slots|
    requires FitsAt(Seps(t), p, all) && x < y < |all| && index <= t[0].count
    requires RootAfter(t[0], r, p, page, all[|all| - 1].key, index)
    ensures r.Inner? && r.count == t[0].count + 1 <= |r.slots|
    ensures forall i :: 0 <= i <= t[0].count ==> r.slots[i].key < all[x].key || all[y].key <= r.slots[i].key
  {
    hide Linked, Leaves, SortedLeaves, Bounded, FitsAt, RootAfter, Raised, Seps;
    assert |t| > 0 by { TableHasRoot(t, L); }
    AfterCount(t[0], r, p, page, all[|all| - 1].key, index);
    LastIsLargest(t, p, all, y);
    forall i | 0 <= i <= t[0].count
      ensures r.slots[i].key < all[x].key || all[y].key <= r.slots[i].key
    {
      var j := RootSlots(t[0], r, p, page, all[|all| - 1].key, index, i);
      if i != index {
        RaisedBeside(t, L, p, all, j, x, y);
      }
    }
  }

  lemma TableHasRoot(t: Pages, L: Layout)
    requires Linked(t, L)
    ensures |t| > 0
  {
  }

  lemma LastIsLargest(t: Pages, p: nat, all: seq<Row>, y: nat)
    requires |t| > 0 && (t[0].Inner? ==> t[0].count <= |t[0].slots|) && FitsAt(Seps(t), p, all) && y < |all|
    ensures all[y].key <= all[|all| - 1].key
  {
    hide Seps, AllAbove, NoneAbove;
  }

  lemma RaisedBeside(t: Pages, L: Layout, p: nat, all: seq<Row>, i: nat, x: nat, y: nat)
    requires WellFormed(t, L) && t[0].Inner? && p < t[0].count <= |t[0].slots| && i < t[0].count
    requires FitsAt(Seps(t), p, all) && x < y < |all|
    ensures Raised(t[0], p)[i].key < all[x].key || all[y].key <= Raised(t[0], p)[i].key
  {
    hide SortedLeaves, Chained, Bounded;
    assert SortedSlots(Seps(t)) by {
      LeavesFilled(t, L);
      SeparatorsIncrease(Leaves(t, L), Seps(t));
    }
    hide Linked;
    if i < p {
      assert AllAbove(all, Seps(t)[i].key);
    } else {
      assert NoneAbove(all, Seps(t)[p].key);
      assert Seps(t)[p].key <= Seps(t)[i].key && Seps(t)[p].key <= Seps(t)[t[0].count - 1].key;
    }
  }

  /** Only one page has the key. */
  lemma OnOnePage(t: Pages, t': Pages, L: Layout, row: Row, k: nat, cell: nat, m: nat, z: nat, c: nat)
    requires WellFormed(t, L) && !Holds(t, L, row.key) && t[0].Inner?
    requires 0 < k < |t| && t[k].Leaf? && cell <= |t[k].rows| && SortedRows(Spliced(t[k].rows, cell, row))
    requires HalvesAt(t', Spliced(t[k].rows, cell, row), m, k, |t|) && z <= |t[k].rows| && |t'| == |t| + 1
    requires forall x :: 0 < x < |t| && x != k ==> t'[x] == t[x]
    requires c < |t'| && t'[c].Leaf? && RowsHold(t'[c].rows, Spliced(t[k].rows, cell, row)[z].key)
    ensures c == if z < m then k else |t|
  {
    hide WellFormed, Holds, Spliced;
    var all := Spliced(t[k].rows, cell, row);
    if c != k && c != |t| {
      KeyElsewhere(t, L, row, k, cell, c, z);
      assert false;
    }
    var x :| 0 <= x < |t'[c].rows| && t'[c].rows[x].key == all[z].key;
    var at := if c == k then x else m + x;
    assert t'[c].rows[x] == all[at];
    assert at == z;
  }

  /** The new page was entered before the right child: the last key of the left half and the
      first of the right half take the same way. */
  lemma NeighboursTogether(t: Pages, t': Pages, L: Layout, row: Row, index: nat)
    requires WellFormed(t, L) && !Holds(t, L, row.key) && MiddleSplit(t, t', L, row, index) && index <= t[0].count
    ensures t'[0].Inner? && t'[0].count <= |t'[0].slots|
    ensures var c := Find(t, L, row.key);
            var all := Spliced(t[c.page].rows, c.cell, row);
            && 0 < L.LeftSplit() < |all| && all[L.LeftSplit() - 1].key < all[L.LeftSplit()].key
            && Route(t', all[L.LeftSplit() - 1].key) == Route(t', all[L.LeftSplit()].key)
  {
    hide Holds, Linked, Leaves, SortedLeaves, Bounded, Find, Spliced, Route, RootAfter, HalvesAt, Seps;
    var c, m, p := Find(t, L, row.key), L.LeftSplit(), Route(t, row.key);
    var all := Spliced(t[c.page].rows, c.cell, row);
    RoutedFits(t, L, row);
    SplitInside(t', all, m, c.page, |t|);
    NoneBetween(t, L, p, t'[0], |t|, index, all, m - 1, m);
    FittingIsSorted(t, p, all);
    SortedNeighbours(all, m);
    SameWay(t', t[0].count + 1, all[m - 1].key, all[m].key);
  }

  lemma SplitInside(t': Pages, all: seq<Row>, m: nat, k: nat, q: nat)
    requires HalvesAt(t', all, m, k, q)
    ensures 0 < m < |all| && |t'| > 0 && t'[0].Inner?
  {
  }

  lemma FittingIsSorted(t: Pages, p: nat, all: seq<Row>)
    requires |t| > 0 && (t[0].Inner? ==> t[0].count <= |t[0].slots|) && FitsAt(Seps(t), p, all)
    ensures SortedRows(all)
  {
    hide Seps, AllAbove, NoneAbove, SortedRows;
  }

  /** But they are on different pages. */
  lemma NeighboursApart(t: Pages, t': Pages, L: Layout, row: Row, index: nat, child: nat)
    requires WellFormed(t, L) && !Holds(t, L, row.key) && MiddleSplit(t, t', L, row, index)
    requires child < |t'| && t'[child].Leaf?
    ensures var c := Find(t, L, row.key);
            var all := Spliced(t[c.page].rows, c.cell, row);
            && 0 < L.LeftSplit() < |all|
            && !(RowsHold(t'[child].rows, all[L.LeftSplit() - 1].key)
                 && RowsHold(t'[child].rows, all[L.LeftSplit()].key))
  {
    hide Holds, Linked, Leaves, SortedLeaves, Bounded, Find, Spliced, Route, RootAfter, HalvesAt, RowsHold, Seps;
    var c, m, p := Find(t, L, row.key), L.LeftSplit(), Route(t, row.key);
    var all := Spliced(t[c.page].rows, c.cell, row);
    RoutedFits(t, L, row);
    FittingIsSorted(t, p, all);
    SplitInside(t', all, m, c.page, |t|);
    SplitPage(t, L, row.key);
    if RowsHold(t'[child].rows, all[m - 1].key) {
      OnOnePage(t, t', L, row, c.page, c.cell, m, m - 1, child);
    }
    if RowsHold(t'[child].rows, all[m].key) {
      OnOnePage(t, t', L, row, c.page, c.cell, m, m, child);
    }
  }

  lemma SplitPage(t: Pages, L: Layout, key: int)
    requires Linked(t, L)
    ensures var c := Find(t, L, key); c.page < |t| && t[c.page].Leaf? && c.cell <= |t[c.page].rows|
  {
    hide Linked;
  }

  lemma NeighbourLost(t: Pages, t': Pages, L: Layout, row: Row, index: nat) returns (lost: Key)
    requires WellFormed(t, L) && !Holds(t, L, row.key) && MiddleSplit(t, t', L, row, index) && index <= t[0].count
    ensures (lost == row.key || Holds(t, L, lost)) && !Reaches(t', lost)
  {
    hide *;
    WellFormedLinked(t, L);
    var c, m := Find(t, L, row.key), L.LeftSplit();
    var all := Spliced(t[c.page].rows, c.cell, row);
    MiddleSplitPage(t, t', L, row, index);
    NeighboursTogether(t, t', L, row, index);
    KeyIsOld(t, L, row, m - 1);
    KeyIsOld(t, L, row, m);
    if Reaches(t', all[m].key) {
      ReachesAt(t', all[m].key);
      NeighboursApart(t, t', L, row, index, Kids(t')[Route(t', all[m].key)]);
      if Reaches(t', all[m - 1].key) {
        ReachesAt(t', all[m - 1].key);
        assert false;
      }
      lost := all[m - 1].key;
    } else {
      lost := all[m].key;
    }
  }

  lemma ReachesAt(t: Pages, key: int)
    requires Reaches(t, key)
    ensures |t| > 0 && (t[0].Inner? ==> t[0].count <= |t[0].slots|)
    ensures var c := Kids(t)[Route(t, key)]; c < |t| && t[c].Leaf? && RowsHold(t[c].rows, key)
  {
  }

  lemma MiddleSplitPage(t: Pages, t': Pages, L: Layout, row: Row, index: nat)
    requires Linked(t, L) && MiddleSplit(t, t', L, row, index)
    ensures t[0].Inner? && 0 < Find(t, L, row.key).page && |t'| == |t| + 1
  {
    hide Linked, Find, RootAfter, HalvesAt, Route;
  }

  lemma SortedNeighbours(rows: seq<Row>, m: nat)
    requires SortedRows(rows) && 0 < m < |rows|
    ensures rows[m - 1].key < rows[m].key
  {
  }

  lemma SameWay(t: Pages, n: nat, x: int, y: int)
    requires |t| > 0 && t[0].Inner? && t[0].count == n <= |t[0].slots| && x <= y
    requires forall i :: 0 <= i < n ==> t[0].slots[i].key < x || y <= t[0].slots[i].key
    ensures Route(t, x) == Route(t, y)
  {
    SameProbe(Seps(t), x, y, 0, n);
  }

  /** The rows of the leaf are those held before, and the new one. */
  lemma KeyIsOld(t: Pages, L: Layout, row: Row, z: nat)
    requires WellFormed(t, L) && t[0].Inner? && 0 < Find(t, L, row.key).page
    requires z <= |t[Find(t, L, row.key).page].rows|
    ensures var c := Find(t, L, row.key);
            var key := Spliced(t[c.page].rows, c.cell, row)[z].key;
            key == row.key || Holds(t, L, key)
  {
    var c := Find(t, L, row.key);
    hide InnerProbe, LeafProbe, Holds, Spliced, Find, Linked, Bounded, SortedLeaves, RowsHold;
    SplicedKey(t[c.page].rows, c.cell, row, z);
    if Spliced(t[c.page].rows, c.cell, row)[z] != row {
      PageHolds(t, L, c.page, Spliced(t[c.page].rows, c.cell, row)[z].key);
    }
  }

  /** The new page has replaced the right child: nothing leads to the right child any more. */
  lemma RightChildLost(t: Pages, t': Pages, L: Layout, row: Row, y: nat)
    requires WellFormed(t, L) && !Holds(t, L, row.key)
    requires t[0].Inner? && MiddleSplit(t, t', L, row, t[0].count + 1)
    requires 0 < t[0].right < |t| && t[t[0].right].Leaf? && y < |t[t[0].right].rows|
    ensures Holds(t, L, t[t[0].right].rows[y].key) && !Reaches(t', t[t[0].right].rows[y].key)
  {
    hide Holds, Linked, Find, Spliced, Route, RootAfter, HalvesAt, RowsHold, Kids;
    var c, p := Find(t, L, row.key), Route(t, row.key);
    var all := Spliced(t[c.page].rows, c.cell, row);
    var right := t[0].right;
    SplitIsRouted(t, L, row.key);
    NotRightChild(t, L, p);
    HoldsItsKeys(t[right].rows, y);
    PageHolds(t, L, right, t[right].rows[y].key);
    OldRightApart(t, t', L, p, |t|, all[|all| - 1].key);
    hide WellFormed;
    var child := Kids(t')[Route(t', t[right].rows[y].key)];
    if child < |t'| && t'[child].Leaf? {
      RightElsewhere(t, t', L, row, right, y, child);
    }
  }

  lemma HoldsItsKeys(rows: seq<Row>, x: nat)
    requires x < |rows|
    ensures RowsHold(rows, rows[x].key)
  {
  }

  lemma SplitIsRouted(t: Pages, L: Layout, key: int)
    requires Linked(t, L)
    ensures Find(t, L, key).page == Kids(t)[Route(t, key)]
  {
    hide Linked;
  }

  /** A key on a leaf that was not split is on no other page. */
  lemma RightElsewhere(t: Pages, t': Pages, L: Layout, row: Row, right: nat, y: nat, child: nat)
    requires WellFormed(t, L) && !Holds(t, L, row.key)
    requires t[0].Inner? && MiddleSplit(t, t', L, row, t[0].count + 1)
    requires 0 < right < |t| && right != Find(t, L, row.key).page && t[right].Leaf? && y < |t[right].rows|
    requires child < |t'| && child != right && t'[child].Leaf?
    ensures !RowsHold(t'[child].rows, t[right].rows[y].key)
  {
    hide Holds, Linked, Leaves, SortedLeaves, Bounded, Find, Spliced, Route, RootAfter, HalvesAt;
    var c, m := Find(t, L, row.key), L.LeftSplit();
    var all := Spliced(t[c.page].rows, c.cell, row);
    SplitInside(t', all, m, c.page, |t|);
    if RowsHold(t'[child].rows, t[right].rows[y].key) {
      var x :| 0 <= x < |t'[child].rows| && t'[child].rows[x].key == t[right].rows[y].key;
      if child == c.page || child == |t| {
        var z := HalfIndex(t', all, m, c.page, |t|, child, x);
        KeyElsewhere(t, L, row, c.page, c.cell, right, z);
      } else {
        PagesDisjoint(t, L, child, right, x, y);
      }
    }
  }

  lemma HalfIndex(t': Pages, all: seq<Row>, m: nat, k: nat, q: nat, child: nat, x: nat) returns (z: nat)
    requires HalvesAt(t', all, m, k, q) && (child == k || child == q) && x < |t'[child].rows|
    ensures z < |all| && t'[child].rows[x] == all[z]
  {
    z := if child == k then x else m + x;
  }

  lemma KidAt(t: Pages, i: nat)
    requires |t| > 0 && t[0].Inner? && t[0].count <= |t[0].slots| && i <= t[0].count
    ensures Kids(t)[i] == if i < t[0].count then t[0].slots[i].child else t[0].right
  {
  }

  /** The pages that the new root leads to do not include the old right child. */
  lemma OldRightApart(t: Pages, t': Pages, L: Layout, p: nat, page: nat, maxKey: Key)
    requires Linked(t, L) && t[0].Inner? && p < t[0].count < |t[0].slots| && |t'| > 0 && page >= |t|
    requires RootAfter(t[0], t'[0], p, page, maxKey, t[0].count + 1)
    ensures t'[0].Inner? && t'[0].count <= |t'[0].slots|
    ensures forall i :: 0 <= i < |Kids(t')| ==> Kids(t')[i] != t[0].right
  {
    hide Kids, Linked, RootAfter;
    LastKid(t, L);
    AfterCount(t[0], t'[0], p, page, maxKey, t[0].count + 1);
    forall i | 0 <= i < |Kids(t')|
      ensures Kids(t')[i] != t[0].right
    {
      KidAt(t', i);
      SameChild(t[0], t'[0], p, page, maxKey, i);
      if i < t[0].count {
        KidAt(t, i);
        NotRightChild(t, L, i);
      }
    }
  }

  lemma SameChild(root: Node, r: Node, p: nat, page: nat, maxKey: Key, i: nat)
    requires root.Inner? && p < root.count < |root.slots| && RootAfter(root, r, p, page, maxKey, root.count + 1)
    requires i <= r.count
    ensures i < root.count ==> r.slots[i].child == root.slots[i].child
    ensures i == root.count ==> r.slots[i].child == 0
    ensures i == r.count ==> r.right == page
  {
    if i < root.count {
      assert r.slots[..root.count][i] == Raised(root, p)[..root.count][i];
    }
  }

  /** After the split of a full leaf that is neither the root nor the rightmost one, Find no
      longer reaches some key: one that the table held, or the new one. */
  lemma MiddleSplitLoses(t: Pages, L: Layout, row: Row) returns (lost: Key)
    requires L.Ok() && WellFormed(t, L) && !Holds(t, L, row.key)
    requires t[0].Inner? && Route(t, row.key) < t[0].count < L.keys
    requires |t[Find(t, L, row.key).page].rows| == L.cells
    ensures Insert(t, L, row).Done? && (lost == row.key || Holds(t, L, lost))
    ensures !Reaches(Insert(t, L, row).pages, lost)
  {
    hide Holds, Reaches, Route, Insert, Find, Linked, Leaves, SortedLeaves, Bounded;
    var index := MiddlePages(t, L, row);
    if index <= t[0].count {
      lost := NeighbourLost(t, Insert(t, L, row).pages, L, row, index);
    } else {
      LastKid(t, L);
      lost := t[t[0].right].rows[0].key;
      RightChildLost(t, Insert(t, L, row).pages, L, row, 0);
    }
  }

  // ---- A run that ends there, for every layout ----

  /** Two leaves below the root, the first with `size` rows, the second as it was split off, all
      keys above `low`. */
  ghost predicate TwoLeaves(t: Pages, L: Layout, size: nat, low: int) {
    && WellFormed(t, L) && t[0].Inner? && t[0].count == 1
    && |Leaves(t, L)[0]| == size && |Leaves(t, L)[1]| == L.RightSplit()
    && AllAbove(Leaves(t, L)[0], low) && AllAbove(Leaves(t, L)[1], low)
  }

  /** A key below all others is new and belongs to the first leaf. */
  lemma LeastKey(t: Pages, L: Layout, size: nat, low: int)
    requires TwoLeaves(t, L, size, low) && size >= 1
    ensures !Holds(t, L, low) && Route(t, low) == 0
  {
    hide Chained, SortedLeaves, Route, Leaves;
    RouteBound(t, L, low);
    var ls: seq<seq<Row>> := Leaves(t, L);
    assert low < ls[0][0].key;
    assert NoneAbove(ls[0], Seps(t)[0].key);
    assert forall i :: 0 <= i < |ls| ==> !RowsHold(ls[i], low);
  }

  lemma PutFirst(t: Pages, L: Layout, size: nat, low: Key, row: Row)
    requires L.Ok() && TwoLeaves(t, L, size, low) && 1 <= size < L.cells && row.key == low
    ensures Linked(t, L) && CanInsert(t, L, low) && Insert(t, L, row).Done?
    ensures TwoLeaves(Insert(t, L, row).pages, L, size + 1, low - 1)
  {
    hide SortedLeaves, Bounded, Linked, Holds, Insert, Find, Route, Spliced, Kids;
    LeastKey(t, L, size, low);
    InsertRefills(t, L, row);
    InsertCorrectIff(t, L, row);
    var c := Find(t, L, low);
    var all := Spliced(t[c.page].rows, c.cell, row);
    RefilledLinked(t, L, 0, all);
    AboveLower(Leaves(t, L)[0], low);
    AboveLower(Leaves(t, L)[1], low);
    SplicedBounds(Leaves(t, L)[0], c.cell, row, low - 1);
    FirstKid(t, L);
  }

  lemma AboveLower(rows: seq<Row>, low: int)
    requires AllAbove(rows, low)
    ensures AllAbove(rows, low - 1)
  {
  }

  lemma FirstKid(t: Pages, L: Layout)
    requires Linked(t, L) && t[0].Inner?
    ensures 0 < Kids(t)[0] < |t|
  {
  }

  /** Ever smaller keys fill the first leaf. */
  lemma {:induction false} FillFirst(ts: seq<Pages>, L: Layout, rows: seq<Row>, size: nat, low: int, u: User)
    returns (ts': seq<Pages>, rows': seq<Row>)
    requires L.Ok() && IsRun(ts, L, rows) && |ts| == |rows| + 1 && LoadedRun(ts, L, rows)
    requires TwoLeaves(ts[|rows|], L, size, low) && 1 <= size <= L.cells && L.cells - size <= low < 0x1_0000_0000
    ensures IsRun(ts', L, rows') && |ts'| == |rows'| + 1 && LoadedRun(ts', L, rows')
    ensures |rows'| == |rows| + L.cells - size && TwoLeaves(ts'[|rows'|], L, L.cells, low - (L.cells - size))
    decreases L.cells - size
  {
    hide IsRun, LoadedRun, TwoLeaves, Linked, CanInsert, Insert;
    if size == L.cells {
      ts', rows' := ts, rows;
    } else {
      var t, row := ts[|rows|], Row(low, u);
      PutFirst(t, L, size, low, row);
      var ts1, rows1 := ts + [Insert(t, L, row).pages], rows + [row];
      assert rows1[..|rows1| - 1] == rows;
      LoadRunExtends(ts, ts1, L, rows1, t, Insert(t, L, row).pages);
      ts', rows' := FillFirst(ts1, L, rows1, size + 1, low - 1, u);
    }
  }

  function UpFrom(low: Key, n: nat, u: User): (rows: seq<Row>)
    requires low + n <= 0x1_0000_0000
    ensures |rows| == n && forall i :: 0 <= i < n ==> rows[i] == Row(low + i, u)
  {
    seq(n, i requires 0 <= i < n => Row(low + i, u))
  }

  lemma {:induction false} MapOfKeys(rows: seq<Row>, key: Key)
    requires key in MapOf(rows)
    ensures RowsHold(rows, key)
  {
    var n := |rows| - 1;
    if rows[n].key != key {
      MapOfKeys(rows[..n], key);
      var x :| 0 <= x < |rows[..n]| && rows[..n][x].key == key;
      assert rows[x].key == key;
    }
  }

  /** The leaves of a loaded table hold nothing below the loaded keys. */
  lemma LoadedAbove(t: Pages, L: Layout, rows: seq<Row>, low: int, i: nat)
    requires Linked(t, L) && Represents(MapOf(rows), Rows(t, L)) && i < |Leaves(t, L)|
    requires forall x :: 0 <= x < |rows| ==> low < rows[x].key
    ensures AllAbove(Leaves(t, L)[i], low)
  {
    hide Linked, MapOf;
    var ls: seq<seq<Row>> := Leaves(t, L);
    forall x | 0 <= x < |ls[i]|
      ensures low < ls[i][x].key
    {
      assert RowsHold(ls[i], ls[i][x].key);
      FlattenHolds(ls, ls[i][x].key);
      MapOfKeys(rows, ls[i][x].key);
    }
  }

  /** One row more than a leaf holds, in ascending order. */
  lemma LoadTwoLeaves(L: Layout, u: User) returns (ts: seq<Pages>, rows: seq<Row>)
    requires L.Ok() && L.cells + L.RightSplit() < 0x1_0000_0000
    ensures IsRun(ts, L, rows) && |ts| == |rows| + 1 == L.cells + 2 && LoadedRun(ts, L, rows)
    ensures TwoLeaves(ts[|rows|], L, L.LeftSplit(), L.RightSplit() - 1)
  {
    hide Represents, Steps, CanInsert, LoadedBelow, Linked, Leaves, SortedLeaves, Bounded, AllAbove, Rows, MapOf;
    rows := UpFrom(L.RightSplit(), L.cells + 1, u);
    OneKey(L);
    ts := LoadRun(L, rows);
    var t := ts[|rows|];
    RunRefinesMap(ts, L, rows, |rows|);
    assert rows[..|rows|] == rows;
    LoadedCount(t, L, L.cells + 1);
    LoadedAbove(t, L, rows, L.RightSplit() - 1, 0);
    LoadedAbove(t, L, rows, L.RightSplit() - 1, 1);
  }

  lemma OneKey(L: Layout)
    requires L.Ok()
    ensures LoadedKeys(L, L.cells + 1) == 1
  {
    DivUnique(0, L.LeftSplit(), 0, 0);
  }

  /** Below a root with one key the search for the number of keys goes past the end. */
  lemma EntryPastEnd(t: Pages, L: Layout)
    requires Linked(t, L) && t[0].Inner? && t[0].count == 1
    ensures |t[0].slots| > 1 && EntryIndex(t[0], 0) == 2
  {
    hide Chained;
    var s := Raised(t[0], 0);
    assert s[1] == Slot(0, 0);
    assert InnerProbe(s, 1, 2, 2) == 2;
  }

  lemma RootLeadsToItself(t: Pages, t': Pages, L: Layout, row: Row)
    requires Linked(t, L) && t[0].Inner? && MiddleSplit(t, t', L, row, t[0].count + 1)
    ensures |t'| > 0 && t'[0].Inner? && t[0].count < t'[0].count <= |t'[0].slots| && t'[0].slots[t[0].count].child == 0
  {
    hide Find, Linked, HalvesAt, Route, Spliced;
  }

  /** A table of two leaves, the first one full: what a new least key does to it. */
  lemma TwoLeavesFail(t: Pages, L: Layout, low: Key, u: User)
    requires L.Ok() && L.keys >= 2 && TwoLeaves(t, L, L.cells, low)
    ensures !Holds(t, L, low) && !CanInsert(t, L, low)
    ensures Insert(t, L, Row(low, u)).Done? && !WellFormed(Insert(t, L, Row(low, u)).pages, L)
    ensures var t' := Insert(t, L, Row(low, u)).pages;
            && |t'| > 0 && t'[0].Inner? && 1 < t'[0].count <= |t'[0].slots| && t'[0].slots[1].child == 0
            && forall y :: 0 <= y < L.RightSplit() ==> !Reaches(t', Leaves(t, L)[1][y].key)
  {
    hide Linked, Holds, Insert, Find, Route, Reaches, SortedLeaves, Bounded, AllAbove, MiddleSplit, EntryIndex, Leaves;
    var row := Row(low, u);
    LeastKey(t, L, L.cells, low);
    FullLeaf(t, L, low);
    MiddleSplitBreaks(t, L, row);
    EntryPastEnd(t, L);
    var index := MiddlePages(t, L, row);
    LastKid(t, L);
    RootLeadsToItself(t, Insert(t, L, row).pages, L, row);
    forall y | 0 <= y < L.RightSplit()
      ensures !Reaches(Insert(t, L, row).pages, Leaves(t, L)[1][y].key)
    {
      RightChildLost(t, Insert(t, L, row).pages, L, row, y);
    }
  }

  /** Whatever the layout, as long as the root has room for a second key: a run of
      cells + RightSplit new keys, each of which could be inserted, leaves a well-formed table
      of two leaves, into which the new key 0 cannot be put. Insert puts it in all the same: the
      root then leads to itself, and Find no longer reaches any row of the second leaf. */
  lemma SomeRunFails(L: Layout, u: User) returns (ts: seq<Pages>, rows: seq<Row>)
    requires L.Ok() && L.keys >= 2 && L.cells + L.RightSplit() < 0x1_0000_0000
    ensures |rows| == L.cells + L.RightSplit() && IsRun(ts, L, rows)
    ensures forall i :: 0 <= i < |rows| ==> Linked(ts[i], L) && CanInsert(ts[i], L, rows[i].key)
    ensures var t := ts[|rows|];
            && WellFormed(t, L) && |Leaves(t, L)| == 2 && |Leaves(t, L)[1]| == L.RightSplit()
            && !Holds(t, L, 0) && !CanInsert(t, L, 0)
            && Insert(t, L, Row(0, u)).Done? && !WellFormed(Insert(t, L, Row(0, u)).pages, L)
            && var t' := Insert(t, L, Row(0, u)).pages;
               && t'[0].Inner? && 1 < t'[0].count <= |t'[0].slots| && t'[0].slots[1].child == 0
               && forall y :: 0 <= y < L.RightSplit() ==> !Reaches(t', Leaves(t, L)[1][y].key)
  {
    hide Linked, Holds, Insert, Find, Route, Reaches, Steps, SortedLeaves, Bounded, AllAbove, CanInsert;
    ts, rows := LoadTwoLeaves(L, u);
    ts, rows := FillFirst(ts, L, rows, L.LeftSplit(), L.RightSplit() - 1, u);
    TwoLeavesFail(ts[|rows|], L, 0, u);
  }

  /** In db_lab as it is compiled, twenty rows are enough, and one more loses seven of them. */
  lemma DbLabFails(u: User) returns (ts: seq<Pages>, rows: seq<Row>)
    ensures |rows| == 20 && IsRun(ts, DB_LAB, rows)
    ensures forall i :: 0 <= i <= 20 ==> WellFormed(ts[i], DB_LAB)
    ensures var t := ts[20];
            && WellFormed(t, DB_LAB) && |Leaves(t, DB_LAB)| == 2 && |Leaves(t, DB_LAB)[1]| == 7
            && !Holds(t, DB_LAB, 0) && Insert(t, DB_LAB, Row(0, u)).Done?
            && forall y :: 0 <= y < 7 ==> !Reaches(Insert(t, DB_LAB, Row(0, u)).pages, Leaves(t, DB_LAB)[1][y].key)
  {
    hide Linked, Holds, Insert, Find, Route, Reaches, Steps, SortedLeaves, Bounded, CanInsert, Leaves;
    ts, rows := SomeRunFails(DB_LAB, u);
    RunCorrectIff(ts, DB_LAB, rows);
  }
}
