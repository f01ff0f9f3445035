/** The pages of the db_lab table as values, and what `Table::Insert` does to them.

    A page is a leaf or an internal node; a table is the sequence of its pages, page 0
    being the root. The functions here follow db_lab/table.h and db_lab/node.h branch by
    branch, including the branch that goes wrong when a leaf that is neither the root nor
    the rightmost one overflows. The page classes in BTreePages.dfy refine them. */
module BTreeModel {

  /** Keys are `uint32_t` (node.h:166). */
  type Key = k: int | 0 <= k < 0x1_0000_0000

  /** The user record stored beside a key; the tree never looks inside it. */
  type User(==, 0, !new)

  datatype Row = Row(key: Key, val: User)

  /** A cell of an internal page: a child and the largest key below it (node.h:79-83). */
  datatype Slot = Slot(child: nat, key: Key)

  /** `Leaf.rows` are the cells in use; `Inner.slots` is the whole cell body, of which the
      first `count` cells are in use. */
  datatype Node =
    | Leaf(parent: nat, root: bool, next: nat, rows: seq<Row>)
    | Inner(root: bool, count: nat, slots: seq<Slot>, right: nat)

  type Pages = seq<Node>

  /** `cells` is LeafPage::CellsCapacity, `keys` is InternalPage::MaxCells. The cell body
      of an internal page has room for one cell more than `keys` (node.h:83). */
  datatype Layout = Layout(cells: nat, keys: nat) {
    predicate Ok() { cells >= 1 && keys >= 1 }
    function RightSplit(): nat { (cells + 1) / 2 }                    // node.h:255
    function LeftSplit(): nat { cells + 1 - RightSplit() }            // node.h:256
  }

  /** The layout compiled into db_lab: 4096-byte pages, 13 leaf cells, 508 internal keys. */
  const DB_LAB := Layout(13, 508)

  // ---- Binary searches ----

  /** InternalNode::FindCell between two bounds (node.h:191-208), on any slots at all. */
  function InnerProbe(slots: seq<Slot>, key: int, lo: nat, hi: nat): (r: nat)
    requires lo <= hi <= |slots|
    ensures lo <= r <= hi
    decreases hi - lo
  {
    if lo == hi then lo
    else
      var mid := (lo + hi) / 2;
      if slots[mid].key >= key then InnerProbe(slots, key, lo, mid)
      else InnerProbe(slots, key, mid + 1, hi)
  }

  /** LeafNode::FindCell between two bounds (node.h:334-357). */
  function LeafProbe(rows: seq<Row>, key: int, lo: nat, hi: nat): (r: nat)
    requires lo <= hi <= |rows|
    ensures lo <= r <= hi
    decreases hi - lo
  {
    if lo == hi then lo
    else
      var mid := (lo + hi) / 2;
      if key == rows[mid].key then mid
      else if key < rows[mid].key then LeafProbe(rows, key, lo, mid)
      else LeafProbe(rows, key, mid + 1, hi)
  }

  // ---- Well-formed tables ----

  predicate SortedRows(rows: seq<Row>) {
    forall x, y :: 0 <= x < y < |rows| ==> rows[x].key < rows[y].key
  }

  /** The child of each slot in turn. */
  function Children(slots: seq<Slot>): (ks: seq<nat>)
    ensures |ks| == |slots| && forall i :: 0 <= i < |ks| ==> ks[i] == slots[i].child
  {
    seq(|slots|, i requires 0 <= i < |slots| => slots[i].child)
  }

  /** The page numbers of the leaves in key order. */
  function Kids(t: Pages): (ks: seq<nat>)
    requires |t| > 0 && (t[0].Inner? ==> t[0].count <= |t[0].slots|)
    ensures |ks| == if t[0].Leaf? then 1 else t[0].count + 1
  {
    if t[0].Leaf? then [0] else Children(t[0].slots[..t[0].count]) + [t[0].right]
  }

  ghost predicate SlotsOk(root: Node, L: Layout) {
    && root.Inner? && 1 <= root.count <= L.keys && |root.slots| == L.keys + 1
    && forall i :: root.count <= i < |root.slots| ==> root.slots[i] == Slot(0, 0)
  }

  ghost predicate IsLeafOf(n: Node, L: Layout) {
    n.Leaf? && !n.root && n.parent == 0 && 1 <= |n.rows| <= L.cells
  }

  ghost predicate Distinct(ks: seq<nat>) {
    forall i, j :: 0 <= i < j < |ks| ==> ks[i] != ks[j]
  }

  /** What follows the i-th of a chain of pages; 0 ends the chain. */
  function After(ks: seq<nat>, i: nat): nat {
    if i + 1 < |ks| then ks[i + 1] else 0
  }

  /** The pages `ks` are leaves below the root, all different, chained in this order. */
  ghost predicate Chained(t: Pages, ks: seq<nat>, L: Layout) {
    && (forall i :: 0 <= i < |ks| ==> 0 < ks[i] < |t| && IsLeafOf(t[ks[i]], L))
    && (forall i :: 0 <= i < |ks| ==> t[ks[i]].next == After(ks, i))
    && Distinct(ks)
  }

  /** Parents, page numbers and next links are right: either the root is the only page and a
      leaf, or every other page is a leaf below it, used once and chained in key order. */
  ghost predicate Linked(t: Pages, L: Layout) {
    && |t| > 0 && t[0].root
    && if t[0].Leaf? then |t| == 1 && t[0].next == 0 && |t[0].rows| <= L.cells
       else SlotsOk(t[0], L) && |t| == t[0].count + 2 && Chained(t, Kids(t), L)
  }

  /** The rows of the pages `ks`, page by page. */
  function RowsOf(t: Pages, ks: seq<nat>): (ls: seq<seq<Row>>)
    requires forall i :: 0 <= i < |ks| ==> ks[i] < |t| && t[ks[i]].Leaf?
    ensures |ls| == |ks| && forall i :: 0 <= i < |ks| ==> ls[i] == t[ks[i]].rows
  {
    seq(|ks|, i requires 0 <= i < |ks| => t[ks[i]].rows)
  }

  /** The rows leaf by leaf, in key order. */
  function Leaves(t: Pages, L: Layout): (ls: seq<seq<Row>>)
    requires Linked(t, L)
    ensures |ls| == |Kids(t)|
  {
    RowsOf(t, Kids(t))
  }

  predicate SortedLeaves(ls: seq<seq<Row>>) {
    forall i :: 0 <= i < |ls| ==> SortedRows(ls[i])
  }

  predicate AllAbove(rows: seq<Row>, key: int) {
    forall x :: 0 <= x < |rows| ==> key < rows[x].key
  }

  predicate NoneAbove(rows: seq<Row>, key: int) {
    forall x :: 0 <= x < |rows| ==> rows[x].key <= key
  }

  /** Every leaf's keys lie above the separators to its left and not above its own. */
  predicate Bounded(ls: seq<seq<Row>>, slots: seq<Slot>)
    requires |slots| < |ls|
  {
    && (forall i :: 0 <= i < |slots| ==> NoneAbove(ls[i], slots[i].key))
    && (forall i, j :: 0 <= i < |slots| && i < j < |ls| ==> AllAbove(ls[j], slots[i].key))
  }

  /** The separators in use. */
  function Seps(t: Pages): seq<Slot>
    requires |t| > 0 && (t[0].Inner? ==> t[0].count <= |t[0].slots|)
  {
    if t[0].Leaf? then [] else t[0].slots[..t[0].count]
  }

  /** The tables that `Insert` can work on. */
  ghost predicate WellFormed(t: Pages, L: Layout) {
    Linked(t, L) && SortedLeaves(Leaves(t, L)) && Bounded(Leaves(t, L), Seps(t))
  }

  /** A new table: one empty root leaf (table.h:22-29). */
  function Fresh(): (t: Pages)
    ensures forall L: Layout :: WellFormed(t, L)
  {
    [Leaf(0, true, 0, [])]
  }

  // ---- Find ----

  datatype Cursor = Cursor(page: nat, cell: nat)

  /** Which leaf the root sends `key` to (table.h:313). */
  function Route(t: Pages, key: int): (i: nat)
    requires |t| > 0 && (t[0].Inner? ==> t[0].count <= |t[0].slots|)
    ensures i < |Kids(t)|
  {
    InnerProbe(Seps(t), key, 0, |Seps(t)|)
  }

  /** Table::Find (table.h:311-363) on a table whose leaves hang directly below the root. */
  function Find(t: Pages, L: Layout, key: int): (c: Cursor)
    requires Linked(t, L)
    ensures c.page < |t| && t[c.page].Leaf? && c.cell <= |t[c.page].rows|
  {
    var page := Kids(t)[Route(t, key)];
    Cursor(page, LeafProbe(t[page].rows, key, 0, |t[page].rows|))
  }

  // ---- Insert ----

  /** `Aborted` is the unfinished branch at table.h:150-153, an `assert(false)`. */
  datatype Outcome = Done(pages: Pages) | Aborted

  /** `row` put in before the cell `cell`. */
  function Spliced(rows: seq<Row>, cell: nat, row: Row): (r: seq<Row>)
    requires cell <= |rows|
    ensures |r| == |rows| + 1
  {
    rows[..cell] + [row] + rows[cell..]
  }

  function ZeroSlots(n: nat): (s: seq<Slot>)
    ensures |s| == n && forall i :: 0 <= i < n ==> s[i] == Slot(0, 0)
  {
    seq(n, i => Slot(0, 0))
  }

  /** SplitRoot (table.h:71-105): the right half is on page 1, the left half moves to page 2
      and page 0 becomes an internal page. */
  function SplitRoot(t: Pages, L: Layout, left: seq<Row>, right: seq<Row>): Pages
    requires Linked(t, L) && t[0].Leaf? && |left| > 0
  {
    var slots := ZeroSlots(L.keys + 1);
    [Inner(true, 1, slots[0 := Slot(2, left[|left| - 1].key)], 1),
     Leaf(0, false, t[0].next, right),
     Leaf(0, false, 1, left)]
  }

  /** Where a separator of the root is overwritten before the new page is entered
      (table.h:225-232): the slot found for the leaf's old maximum gets the last separator. */
  function Overwritten(root: Node, oldMax: Key): (r: Node)
    requires root.Inner? && 0 < root.count < |root.slots|
    ensures r.Inner? && r.count == root.count && |r.slots| == |root.slots|
  {
    var at := InnerProbe(root.slots, oldMax, 0, root.count);
    root.(slots := root.slots[at := root.slots[at].(key := root.slots[root.count - 1].key)])
  }

  /** InsertInternal (table.h:142-173) once there is room: `page` holds keys up to `maxKey`,
      `rightMax` is the largest key of the right child. The index is searched for with the
      number of keys instead of a key; an index past the last key makes `SetChild` replace
      the right child (node.h:115-128). */
  function Entered(root: Node, page: nat, maxKey: Key, rightMax: Key): (r: Node)
    requires root.Inner? && root.count + 1 < |root.slots|
    ensures r.Inner? && r.count == root.count + 1 && |r.slots| == |root.slots|
  {
    var n := root.count;
    var index := InnerProbe(root.slots, n, 0, n + 1);
    if maxKey > rightMax then
      Inner(root.root, n + 1, root.slots[n := Slot(root.right, rightMax)], page)
    else if index <= n then
      Inner(root.root, n + 1,
            root.slots[..index] + [Slot(page, maxKey)] + root.slots[index..n] + root.slots[n + 1..],
            root.right)
    else
      Inner(root.root, n + 1, root.slots[index := root.slots[index].(key := maxKey)], page)
  }

  /** The two leaves after DoInsertAndSplit's stages 1 and 2 (table.h:178-220), before the
      root is told: leaf `p` keeps the left half, a new last page takes the right half. */
  function Halved(t: Pages, p: nat, left: seq<Row>, right: seq<Row>): Pages
    requires p < |t| && t[p].Leaf?
  {
    t[p := t[p].(next := |t|, rows := left)] + [Leaf(t[p].parent, false, t[p].next, right)]
  }

  /** A leaf below the root is halved and the root is told (table.h:178-235). */
  function SplitBelowRoot(t: Pages, p: nat, left: seq<Row>, right: seq<Row>): (r: Pages)
    requires 0 < p < |t| && t[p].Leaf? && |t[p].rows| > 0 && |left| > 0 && |right| > 0
    requires t[0].Inner? && 0 < t[0].count && t[0].count + 1 < |t[0].slots|
    requires 0 < t[0].right < |t| && t[t[0].right].Leaf? && |t[t[0].right].rows| > 0
    ensures |r| == |t| + 1
  {
    var half := Halved(t, p, left, right);
    var root := Overwritten(t[0], MaxOf(t, p));
    half[0 := Entered(root, |t|, MaxOf(half, |t|), MaxOf(half, t[0].right))]
  }

  /** ExecuteInsert and DoInsertAndSplit (table.h:175-265) at the cursor found for the key. */
  function Insert(t: Pages, L: Layout, row: Row): Outcome
    requires L.Ok() && Linked(t, L)
  {
    var c := Find(t, L, row.key);
    var leaf := t[c.page];
    var all := Spliced(leaf.rows, c.cell, row);
    if |leaf.rows| < L.cells then
      Done(t[c.page := leaf.(rows := all)])
    else
      var left, right := all[..L.LeftSplit()], all[L.LeftSplit()..];
      if leaf.root then
        Done(SplitRoot(t, L, left, right))
      else if t[0].count >= L.keys then
        Aborted
      else
        assert t[0].right == Kids(t)[t[0].count];
        Done(SplitBelowRoot(t, c.page, left, right))
  }

  /** LeafNode::GetMaxKey (node.h:400-412) of a page. */
  function MaxOf(t: Pages, page: nat): Key
    requires page < |t| && t[page].Leaf? && |t[page].rows| > 0
  {
    t[page].rows[|t[page].rows| - 1].key
  }
}
