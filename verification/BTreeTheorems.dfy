/** Exactly when `Insert` keeps a table well formed, and what whole runs of inserts leave. */
module BTreeTheorems {
  import opened BTreeModel
  import opened BTreeProofs

  // ---- Every page of a well-formed table is one of its leaves ----

  function UpTo(n: nat): (r: set<nat>)
    ensures |r| == n && forall k :: k in r <==> 1 <= k <= n
  {
    if n == 0 then {} else UpTo(n - 1) + {n}
  }

  function Elements(ks: seq<nat>): set<nat> { set k | k in ks }

  lemma {:induction false} DistinctSize(ks: seq<nat>)
    requires Distinct(ks)
    ensures |Elements(ks)| == |ks|
  {
    if ks != [] {
      var n := |ks| - 1;
      DistinctSize(ks[..n]);
      assert ks[n] !in Elements(ks[..n]);
      assert Elements(ks) == Elements(ks[..n]) + {ks[n]};
    }
  }

  lemma SubsetOfSameSize(a: set<nat>, b: set<nat>)
    requires a <= b && |a| == |b|
    ensures a == b
  {
    assert |b| == |a| + |b - a| by { assert b == a + (b - a); }
    assert b - a == {};
  }

  lemma Pigeonhole(ks: seq<nat>, k: nat)
    requires Distinct(ks) && 0 < k <= |ks|
    requires forall i :: 0 <= i < |ks| ==> 0 < ks[i] <= |ks|
    ensures k in ks
  {
    DistinctSize(ks);
    SubsetOfSameSize(Elements(ks), UpTo(|ks|));
    assert k in Elements(ks);
  }

  lemma PageIsKid(t: Pages, L: Layout, k: nat) returns (i: nat)
    requires Linked(t, L) && t[0].Inner? && 0 < k < |t|
    ensures i < |Kids(t)| && Kids(t)[i] == k
  {
    Pigeonhole(Kids(t), k);
    i :| 0 <= i < |Kids(t)| && Kids(t)[i] == k;
  }

  lemma PageSorted(t: Pages, L: Layout, k: nat)
    requires WellFormed(t, L) && k < |t| && t[k].Leaf?
    ensures SortedRows(t[k].rows)
  {
    hide SortedRows, Bounded;
    if t[0].Leaf? {
      assert Leaves(t, L)[0] == t[0].rows;
    } else {
      var i := PageIsKid(t, L, k);
      assert Leaves(t, L)[i] == t[k].rows;
    }
  }

  /** Rows on different pages have different keys. */
  lemma PagesDisjoint(t: Pages, L: Layout, a: nat, b: nat, x: nat, y: nat)
    requires WellFormed(t, L) && t[0].Inner? && 0 < a < |t| && 0 < b < |t| && a != b
    requires t[a].Leaf? && t[b].Leaf? && x < |t[a].rows| && y < |t[b].rows|
    ensures t[a].rows[x].key != t[b].rows[y].key
  {
    hide SortedLeaves;
    var i := PageIsKid(t, L, a);
    var j := PageIsKid(t, L, b);
    var ls, slots := Leaves(t, L), Seps(t);
    assert ls[i] == t[a].rows && ls[j] == t[b].rows;
    if i < j {
      assert NoneAbove(ls[i], slots[i].key) && AllAbove(ls[j], slots[i].key);
    } else {
      assert NoneAbove(ls[j], slots[j].key) && AllAbove(ls[i], slots[j].key);
    }
  }

  // ---- A key that is already there ----

  lemma SplicedTwins(rows: seq<Row>, cell: nat, row: Row)
    requires cell < |rows| && rows[cell].key == row.key
    ensures var all := Spliced(rows, cell, row);
            |all| == |rows| + 1 && all[cell].key == all[cell + 1].key
  {
  }

  /** The rows of the leaf after the insertion, wherever they went, hold one key twice. */
  lemma TwinsBreak(t': Pages, L: Layout, all: seq<Row>, cell: nat, n: nat, a: nat, b: nat)
    requires cell + 1 < |all| && all[cell].key == all[cell + 1].key
    requires HalvesAt(t', all, n, a, b)
    ensures !WellFormed(t', L)
  {
    assert cell + 1 < n ==> all[..n][cell].key == all[..n][cell + 1].key;
    assert n <= cell ==> all[n..][cell - n].key == all[n..][cell + 1 - n].key;
    assert cell + 1 == n ==> all[..n][cell].key == all[n..][0].key;
    if WellFormed(t', L) {
      hide WellFormed;
      PageSorted(t', L, a);
      PageSorted(t', L, b);
      if cell + 1 == n {
        PagesDisjoint(t', L, a, b, cell, 0);
      }
    }
  }

  /** Where the two halves of a leaf stand after it has been split. */
  ghost predicate HalvesAt(t': Pages, all: seq<Row>, n: nat, a: nat, b: nat) {
    && 0 < a < |t'| && 0 < b < |t'| && a != b && t'[0].Inner? && 0 < n < |all|
    && t'[a].Leaf? && t'[b].Leaf? && t'[a].rows == all[..n] && t'[b].rows == all[n..]
  }

  lemma SplitRootPages(t: Pages, L: Layout, row: Row)
    requires L.Ok() && Linked(t, L) && t[0].Leaf? && |t[0].rows| == L.cells
    ensures var all := Spliced(t[0].rows, Find(t, L, row.key).cell, row);
            Insert(t, L, row).Done? && HalvesAt(Insert(t, L, row).pages, all, L.LeftSplit(), 2, 1)
  {
    hide InnerProbe, LeafProbe;
    var c := Find(t, L, row.key);
    assert c.page == 0;
    var all := Spliced(t[0].rows, c.cell, row);
    assert |all| == L.cells + 1;
    assert Insert(t, L, row) == Done(SplitRoot(t, L, all[..L.LeftSplit()], all[L.LeftSplit()..]));
  }

  lemma KidPage(t: Pages, L: Layout, i: nat)
    requires Linked(t, L) && t[0].Inner? && i < |Kids(t)|
    ensures 0 < Kids(t)[i] < |t| && IsLeafOf(t[Kids(t)[i]], L)
  {
  }

  lemma SplitLeafPages(t: Pages, L: Layout, row: Row)
    requires L.Ok() && Linked(t, L) && t[0].Inner? && Insert(t, L, row).Done?
    requires |t[Find(t, L, row.key).page].rows| == L.cells
    ensures var c := Find(t, L, row.key);
            var all := Spliced(t[c.page].rows, c.cell, row);
            HalvesAt(Insert(t, L, row).pages, all, L.LeftSplit(), c.page, |t|)
  {
    hide InnerProbe, LeafProbe, Entered, Overwritten, Chained;
    KidPage(t, L, Route(t, row.key));
  }

  lemma DuplicateWithRoom(t: Pages, L: Layout, row: Row)
    requires L.Ok() && WellFormed(t, L) && |t[Find(t, L, row.key).page].rows| < L.cells
    requires var c := Find(t, L, row.key);
             c.cell < |t[c.page].rows| && t[c.page].rows[c.cell].key == row.key
    ensures Insert(t, L, row).Done? && !WellFormed(Insert(t, L, row).pages, L)
  {
    var c := Find(t, L, row.key);
    SplicedTwins(t[c.page].rows, c.cell, row);
    hide InnerProbe, LeafProbe, WellFormed, Find;
    var t' := Insert(t, L, row).pages;
    assert t'[c.page].Leaf? && !SortedRows(t'[c.page].rows);
    if WellFormed(t', L) {
      PageSorted(t', L, c.page);
    }
  }

  lemma DuplicateInFull(t: Pages, L: Layout, row: Row)
    requires L.Ok() && Linked(t, L) && |t[Find(t, L, row.key).page].rows| == L.cells && Insert(t, L, row).Done?
    requires var c := Find(t, L, row.key);
             c.cell < |t[c.page].rows| && t[c.page].rows[c.cell].key == row.key
    ensures !WellFormed(Insert(t, L, row).pages, L)
  {
    hide WellFormed, Insert, Spliced, HalvesAt, Find, Linked;
    var c := Find(t, L, row.key);
    SplicedTwins(t[c.page].rows, c.cell, row);
    var all := Spliced(t[c.page].rows, c.cell, row);
    if t[0].Leaf? {
      RootIsFound(t, L, row.key);
      SplitRootPages(t, L, row);
      TwinsBreak(Insert(t, L, row).pages, L, all, c.cell, L.LeftSplit(), 2, 1);
    } else {
      SplitLeafPages(t, L, row);
      TwinsBreak(Insert(t, L, row).pages, L, all, c.cell, L.LeftSplit(), c.page, |t|);
    }
  }

  lemma RootIsFound(t: Pages, L: Layout, key: int)
    requires Linked(t, L) && t[0].Leaf?
    ensures Find(t, L, key).page == 0
  {
    hide InnerProbe, LeafProbe;
  }

  lemma DuplicateBreaks(t: Pages, L: Layout, row: Row)
    requires L.Ok() && WellFormed(t, L) && Holds(t, L, row.key) && Insert(t, L, row).Done?
    ensures !WellFormed(Insert(t, L, row).pages, L)
  {
    FindCorrect(t, L, row.key);
    FullLeaf(t, L, row.key);
    hide InnerProbe, LeafProbe, Holds, Insert, Find, Chained, Kids, SortedLeaves, Bounded;
    if |t[Find(t, L, row.key).page].rows| < L.cells {
      DuplicateWithRoom(t, L, row);
    } else {
      DuplicateInFull(t, L, row);
    }
  }

  // ---- A full leaf that is neither the root nor the rightmost ----

  /** The root has a slot that leads nowhere, or both slots among the first n + 1. */
  ghost predicate Misplaced(root: Node, n: nat, first: Slot, second: Slot) {
    && root.Inner? && root.count == n + 1 <= |root.slots|
    && (|| root.slots[n].child == 0
        || exists a, b :: 0 <= a <= n && 0 <= b <= n && a != b && root.slots[a] == first && root.slots[b] == second)
  }

  /** The root after such a leaf has been split: the new page is entered at `index` before
      the right child, and the old page's separator is the root's last one. */
  lemma MisplacedRoot(root: Node, L: Layout, p: nat, oldMax: Key, page: nat, maxKey: Key, rightMax: Key)
    requires SlotsOk(root, L) && root.count < L.keys && p < root.count && maxKey <= rightMax
    requires InnerProbe(root.slots, oldMax, 0, root.count) == p
    ensures var r := Entered(Overwritten(root, oldMax), page, maxKey, rightMax);
            Misplaced(r, root.count, Slot(page, maxKey),
                      Slot(root.slots[p].child, root.slots[root.count - 1].key))
  {
    var over := Overwritten(root, oldMax);
    var n := root.count;
    var index := InnerProbe(over.slots, n, 0, n + 1);
    var r := Entered(over, page, maxKey, rightMax);
    if index <= n {
      var b := if p < index then p else p + 1;
      assert r.slots[index] == Slot(page, maxKey);
      assert r.slots[b] == over.slots[p];
    }
  }

  /** Whichever of the two halves comes first, one of them is on the wrong side of the
      other's separator. */
  lemma MisplacedBreaks(ls: seq<seq<Row>>, slots: seq<Slot>, all: seq<Row>, n: nat, a: nat, b: nat)
    requires |slots| < |ls| && a < |slots| && b < |slots| && a != b
    requires 0 < n < |all| && SortedRows(all) && NoneAbove(all, slots[b].key)
    requires ls[a] == all[n..] && ls[b] == all[..n] && slots[a].key == all[|all| - 1].key
    ensures !Bounded(ls, slots)
  {
    assert ls[a][0] == all[n] && ls[b][0] == all[0];
    assert a < b ==> !AllAbove(ls[b], slots[a].key);
    assert b < a ==> !AllAbove(ls[a], slots[b].key);
  }

  /** The separators and leaves of the table after the split, for a table still linked. */
  lemma MisplacedTable(t': Pages, L: Layout, all: seq<Row>, n: nat, a: nat, b: nat, k: nat, q: nat)
    requires Linked(t', L) && t'[0].Inner? && a < t'[0].count && b < t'[0].count && a != b
    requires HalvesAt(t', all, n, k, q) && SortedRows(all)
    requires t'[0].slots[a].child == q && t'[0].slots[a].key == all[|all| - 1].key
    requires t'[0].slots[b].child == k && NoneAbove(all, t'[0].slots[b].key)
    ensures !WellFormed(t', L)
  {
    hide Chained, Bounded;
    var ls := Leaves(t', L);
    assert Kids(t')[a] == q && Kids(t')[b] == k;
    assert ls[a] == t'[q].rows && ls[b] == t'[k].rows;
    MisplacedBreaks(ls, Seps(t'), all, n, a, b);
  }

  /** The search for a leaf's maximum finds the leaf's own separator. */
  lemma OldMaxSlot(t: Pages, L: Layout, p: nat)
    requires WellFormed(t, L) && t[0].Inner? && p < t[0].count
    ensures 0 < Kids(t)[p] < |t| && t[Kids(t)[p]].Leaf? && |t[Kids(t)[p]].rows| > 0
    ensures InnerProbe(t[0].slots, MaxOf(t, Kids(t)[p]), 0, t[0].count) == p
  {
    KidPage(t, L, p);
    var max := MaxOf(t, Kids(t)[p]);
    hide InnerProbe, SortedLeaves, Chained;
    RouteBound(t, L, max);
    assert RowsHold(Leaves(t, L)[p], max);
    OnlyRouted(Leaves(t, L), Seps(t), max, Route(t, max), p);
    InnerProbePrefix(t[0].slots, t[0].count, max, 0, t[0].count);
  }

  lemma NotRightChild(t: Pages, L: Layout, p: nat)
    requires Linked(t, L) && t[0].Inner? && p < t[0].count
    ensures Kids(t)[p] != t[0].right && Seps(t)[p].child == Kids(t)[p]
  {
    assert Kids(t)[t[0].count] == t[0].right;
  }

  lemma BelowLast(ls: seq<seq<Row>>, slots: seq<Slot>, p: nat)
    requires |ls| == |slots| + 1 && p < |slots| && Bounded(ls, slots)
    requires forall i :: 0 <= i < |ls| ==> |ls[i]| > 0
    ensures slots[p].key < ls[|slots|][|ls[|slots|]| - 1].key && slots[p].key <= slots[|slots| - 1].key
  {
    SeparatorsIncrease(ls, slots);
    assert AllAbove(ls[|slots|], slots[p].key);
  }

  /** A leaf before the last one lies wholly below the right child. */
  lemma BelowRightChild(t: Pages, L: Layout, p: nat)
    requires WellFormed(t, L) && t[0].Inner? && p < t[0].count
    ensures 0 < t[0].right < |t| && t[t[0].right].Leaf? && |t[t[0].right].rows| > 0
    ensures Seps(t)[p].key < MaxOf(t, t[0].right) && Seps(t)[p].key <= t[0].slots[t[0].count - 1].key
  {
    hide SortedLeaves, Bounded, Linked, Leaves;
    RootCount(t, L);
    LastKid(t, L);
    LeavesFilled(t, L);
    BelowLast(Leaves(t, L), Seps(t), p);
  }

  lemma RootCount(t: Pages, L: Layout)
    requires Linked(t, L) && t[0].Inner?
    ensures 0 < t[0].count <= L.keys && |t[0].slots| == L.keys + 1 && |Kids(t)| == t[0].count + 1
  {
    hide Chained;
  }

  lemma LeavesFilled(t: Pages, L: Layout)
    requires Linked(t, L) && t[0].Inner?
    ensures |Leaves(t, L)| == |Kids(t)| && forall i :: 0 <= i < |Kids(t)| ==> |Leaves(t, L)[i]| > 0
  {
    forall i | 0 <= i < |Kids(t)|
      ensures |Leaves(t, L)[i]| > 0
    {
      KidPage(t, L, i);
      hide Linked;
    }
  }

  /** The root after the split of leaf p. */
  lemma SplitBelowMisplaces(t: Pages, L: Layout, p: nat, left: seq<Row>, right: seq<Row>)
    requires WellFormed(t, L) && t[0].Inner? && p < t[0].count < L.keys
    requires |left| > 0 && |right| > 0 && NoneAbove(right, Seps(t)[p].key)
    requires 0 < Kids(t)[p] < |t| && t[Kids(t)[p]].Leaf? && |t[Kids(t)[p]].rows| > 0
    requires 0 < t[0].right < |t| && t[t[0].right].Leaf? && |t[t[0].right].rows| > 0
    ensures var r := SplitBelowRoot(t, Kids(t)[p], left, right)[0];
            Misplaced(r, t[0].count, Slot(|t|, right[|right| - 1].key),
                      Slot(Kids(t)[p], t[0].slots[t[0].count - 1].key))
  {
    hide InnerProbe, Chained, Kids, Entered, Bounded, SortedLeaves;
    OldMaxSlot(t, L, p);
    BelowRightChild(t, L, p);
    NotRightChild(t, L, p);
    var half := Halved(t, Kids(t)[p], left, right);
    assert MaxOf(half, t[0].right) == MaxOf(t, t[0].right);
    MisplacedRoot(t[0], L, p, MaxOf(t, Kids(t)[p]), |t|, right[|right| - 1].key, MaxOf(half, t[0].right));
  }

  lemma ZeroChildBreaks(t: Pages, L: Layout, i: nat)
    requires |t| > 0 && t[0].Inner? && t[0].count <= |t[0].slots| && i < t[0].count && t[0].slots[i].child == 0
    ensures !Linked(t, L)
  {
    assert Kids(t)[i] == 0;
  }

  lemma InsertSplitsBelow(t: Pages, L: Layout, row: Row)
    requires L.Ok() && Linked(t, L) && t[0].Inner? && t[0].count < L.keys
    requires |t[Find(t, L, row.key).page].rows| == L.cells
    ensures var c := Find(t, L, row.key);
            && c.page == Kids(t)[Route(t, row.key)] && 0 < c.page && 0 < t[0].right < |t|
            && t[t[0].right].Leaf? && |t[t[0].right].rows| > 0 && !t[c.page].root
    ensures var c := Find(t, L, row.key);
            var all := Spliced(t[c.page].rows, c.cell, row);
            Insert(t, L, row) == Done(SplitBelowRoot(t, c.page, all[..L.LeftSplit()], all[L.LeftSplit()..]))
  {
    hide InnerProbe, LeafProbe, Chained, SplitBelowRoot;
    KidPage(t, L, Route(t, row.key));
    LastKid(t, L);
  }

  lemma NoneAboveRaised(rows: seq<Row>, low: int, high: int)
    requires NoneAbove(rows, low) && low <= high
    ensures NoneAbove(rows, high)
  {
  }

  lemma HalvesNotAbove(all: seq<Row>, n: nat, key: int)
    requires NoneAbove(all, key) && n <= |all|
    ensures NoneAbove(all[n..], key)
  {
  }

  /** When a full leaf that is neither the root leaf nor the rightmost leaf receives a new
      key, the table that `Insert` leaves is not well formed. */
  lemma MiddleSplitBreaks(t: Pages, L: Layout, row: Row)
    requires L.Ok() && WellFormed(t, L) && !Holds(t, L, row.key)
    requires t[0].Inner? && Route(t, row.key) < t[0].count < L.keys
    requires |t[Find(t, L, row.key).page].rows| == L.cells
    ensures Insert(t, L, row).Done? && !WellFormed(Insert(t, L, row).pages, L)
  {
    var c := Find(t, L, row.key);
    var p := Route(t, row.key);
    var n := t[0].count;
    var all := Spliced(t[c.page].rows, c.cell, row);
    hide InnerProbe, LeafProbe, Holds, Chained, Bounded, SortedLeaves, SortedRows, Spliced, SplitBelowRoot, Insert,
         Find, Kids, Route, NoneAbove;
    InsertSplitsBelow(t, L, row);
    RoutedFits(t, L, row);
    BelowRightChild(t, L, p);
    HalvesNotAbove(all, L.LeftSplit(), Seps(t)[p].key);
    MiddleSplitBreaksAt(t, L, row, p, all);
  }

  /** What the root of the resulting table looks like. */
  lemma MiddleOutcome(t: Pages, L: Layout, row: Row, p: nat, all: seq<Row>)
    requires L.Ok() && WellFormed(t, L) && t[0].Inner? && p == Route(t, row.key) < t[0].count < L.keys
    requires |t[Find(t, L, row.key).page].rows| == L.cells
    requires all == Spliced(t[Find(t, L, row.key).page].rows, Find(t, L, row.key).cell, row)
    requires 0 < L.LeftSplit() < |all| && NoneAbove(all[L.LeftSplit()..], Seps(t)[p].key)
    ensures Insert(t, L, row).Done? && |Insert(t, L, row).pages| > 0
    ensures Misplaced(Insert(t, L, row).pages[0], t[0].count, Slot(|t|, all[|all| - 1].key),
                      Slot(Find(t, L, row.key).page, t[0].slots[t[0].count - 1].key))
  {
    var m := L.LeftSplit();
    hide Linked, Bounded, SortedLeaves, Spliced, Insert, Find, Kids, Route, Misplaced, NoneAbove, SplitBelowRoot;
    RootCount(t, L);
    InsertSplitsBelow(t, L, row);
    SplitBelowMisplaces(t, L, p, all[..m], all[m..]);
  }

  lemma MiddleSplitBreaksAt(t: Pages, L: Layout, row: Row, p: nat, all: seq<Row>)
    requires L.Ok() && WellFormed(t, L) && t[0].Inner? && p == Route(t, row.key) < t[0].count < L.keys
    requires |t[Find(t, L, row.key).page].rows| == L.cells
    requires all == Spliced(t[Find(t, L, row.key).page].rows, Find(t, L, row.key).cell, row)
    requires 0 < L.LeftSplit() < |all|
    requires SortedRows(all) && NoneAbove(all, Seps(t)[p].key) && NoneAbove(all[L.LeftSplit()..], Seps(t)[p].key)
    ensures Insert(t, L, row).Done? && !WellFormed(Insert(t, L, row).pages, L)
  {
    var last := t[0].slots[t[0].count - 1].key;
    hide InnerProbe, LeafProbe, Chained, Bounded, SortedLeaves, SortedRows, Spliced, Insert, Find,
         Kids, Route, Misplaced, HalvesAt, NoneAbove, WellFormed;
    BelowRightChild(t, L, p);
    NoneAboveRaised(all, Seps(t)[p].key, last);
    MiddleOutcome(t, L, row, p, all);
    SplitLeafPages(t, L, row);
    MiddleSplitBreaksFrom(Insert(t, L, row).pages, L, all, L.LeftSplit(), t[0].count, Find(t, L, row.key).page,
                          |t|, last);
  }

  lemma MiddleSplitBreaksFrom(t': Pages, L: Layout, all: seq<Row>, m: nat, n: nat, k: nat, q: nat, last: Key)
    requires HalvesAt(t', all, m, k, q) && SortedRows(all) && NoneAbove(all, last)
    requires Misplaced(t'[0], n, Slot(q, all[|all| - 1].key), Slot(k, last))
    ensures !WellFormed(t', L)
  {
    if t'[0].slots[n].child == 0 {
      ZeroChildBreaks(t', L, n);
    } else if Linked(t', L) {
      var a: nat, b: nat :| 0 <= a <= n && 0 <= b <= n && a != b
           && t'[0].slots[a] == Slot(q, all[|all| - 1].key) && t'[0].slots[b] == Slot(k, last);
      hide Linked, WellFormed, SortedRows, NoneAbove;
      MisplacedTable(t', L, all, m, a, b, k, q);
    }
  }

  // ---- Exactly when Insert is right ----

  /** What a caller can check before `Insert`: the key is new, and if its leaf is full then
      that leaf is the root, or the rightmost leaf below a root with room for one more key. */
  ghost predicate CanInsert(t: Pages, L: Layout, key: Key)
    requires Linked(t, L)
  {
    && !Holds(t, L, key)
    && (|| |t[Find(t, L, key).page].rows| < L.cells
        || t[0].Leaf?
        || Route(t, key) == t[0].count < L.keys)
  }

  lemma FullLeaf(t: Pages, L: Layout, key: int)
    requires Linked(t, L)
    ensures |t[Find(t, L, key).page].rows| <= L.cells
    ensures t[0].Inner? ==> Find(t, L, key).page == Kids(t)[Route(t, key)] && Route(t, key) <= t[0].count
    ensures t[0].Inner? ==> t[Find(t, L, key).page].rows == Leaves(t, L)[Route(t, key)]
    ensures t[0].Inner? ==> !t[Find(t, L, key).page].root && t[0].count <= L.keys
  {
    hide InnerProbe, LeafProbe;
  }

  /** From a well-formed table, `Insert` succeeds and leaves a well-formed table if and only
      if `CanInsert` holds, and then the table has gained exactly the new row. */
  lemma InsertCorrectIff(t: Pages, L: Layout, row: Row)
    requires L.Ok() && WellFormed(t, L)
    ensures CanInsert(t, L, row.key) <==>
              Insert(t, L, row).Done? && WellFormed(Insert(t, L, row).pages, L)
    ensures CanInsert(t, L, row.key) ==> Gains(t, L, row, Insert(t, L, row).pages)
  {
    hide InnerProbe, LeafProbe, Holds, Chained, SplitBelowRoot, Bounded, SortedLeaves, Spliced, GainsRow, SplitRoot;
    FullLeaf(t, L, row.key);
    if Holds(t, L, row.key) {
      if Insert(t, L, row).Done? {
        DuplicateBreaks(t, L, row);
      }
    } else if |t[Find(t, L, row.key).page].rows| < L.cells {
      InsertWithRoom(t, L, row);
    } else if t[0].Leaf? {
      assert Find(t, L, row.key).page == 0;
      InsertSplitsRoot(t, L, row);
    } else if t[0].count == L.keys {
      assert Insert(t, L, row).Aborted?;
    } else if Route(t, row.key) == t[0].count {
      InsertSplitsRightmost(t, L, row);
    } else {
      MiddleSplitBreaks(t, L, row);
    }
  }
}
