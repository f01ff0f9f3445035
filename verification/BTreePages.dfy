/** The pages of db_lab as mutable objects: header fields and cell bodies that the methods
    search, shift and split in place (db_lab/node.h, db_lab/table.h). Each method is proved
    against the value functions of BTreeModel. */
module BTreePages {
  import opened BTreeModel
  import opened BTreeProofs
  import opened BTreeTheorems
  import opened BTreeLoad

  /** Node::Type (node.h:9-13). */
  datatype Kind = NONE | INTERNAL | LEAF

  /** One page. `count` is num_cells of a leaf and num_keys of an internal page, `link` is
      next_leaf and right_child: both headers have the same two words. */
  class Page {
    var parent: nat
    var kind: Kind
    var isRoot: bool
    var count: nat
    var link: nat
    const cells: array<Row>
    const slots: array<Slot>

    ghost function Own(): set<object> { {this, cells, slots} }

    /** The body has the layout's size and the cells in use fit. */
    ghost predicate Fits(L: Layout)
      reads this
    {
      && cells.Length == L.cells && slots.Length == L.keys + 1 && cells as object != slots
      && (kind == LEAF ==> count <= L.cells) && (kind == INTERNAL ==> count <= L.keys)
    }

    /** The page as a value. */
    ghost function View(L: Layout): Node
      requires Fits(L) && kind != NONE
      reads this, cells, slots
    {
      if kind == LEAF then Leaf(parent, isRoot, link, cells[..count])
      else Inner(isRoot, count, slots[..], link)
    }

    /** A page as `calloc` leaves it (pager.h:53). */
    constructor (L: Layout)
      ensures Fits(L) && kind == NONE && parent == 0 && !isRoot && count == 0 && link == 0
      ensures fresh(cells) && fresh(slots)
    {
      parent, kind, isRoot, count, link := 0, NONE, false, 0, 0;
      cells := new Row[L.cells];
      slots := new Slot[L.keys + 1](i => Slot(0, 0));
    }

    /** LeafNode::FindCell (node.h:334-357). */
    method FindLeafCell(L: Layout, key: Key) returns (cell: nat)
      requires Fits(L) && kind == LEAF
      ensures cell == LeafProbe(cells[..count], key, 0, count)
    {
      var lo, hi := 0, count;
      while lo != hi
        invariant lo <= hi <= count
        invariant LeafProbe(cells[..count], key, lo, hi) == LeafProbe(cells[..count], key, 0, count)
        decreases hi - lo
      {
        var mid := (lo + hi) / 2;
        var it := cells[mid].key;
        assert cells[..count][mid].key == it;
        if key == it {
          return mid;
        } else if key < it {
          hi := mid;
        } else {
          lo := mid + 1;
        }
      }
      return lo;
    }

    /** InternalNode::FindCell (node.h:191-208), over the first `n` cells. */
    method FindSlot(key: int, n: nat) returns (cell: nat)
      requires n <= slots.Length
      ensures cell == InnerProbe(slots[..], key, 0, n)
    {
      var lo, hi := 0, n;
      while lo != hi
        invariant lo <= hi <= n
        invariant InnerProbe(slots[..], key, lo, hi) == InnerProbe(slots[..], key, 0, n)
        decreases hi - lo
      {
        var mid := (lo + hi) / 2;
        var it := slots[mid].key;
        assert slots[..][mid].key == it;
        if it >= key {
          hi := mid;
        } else {
          lo := mid + 1;
        }
      }
      return lo;
    }

    /** ExecuteInsert on a leaf with room (table.h:251-262): shift the cells up, then write. */
    method InsertCell(L: Layout, cell: nat, row: Row)
      requires Fits(L) && kind == LEAF && count < L.cells && cell <= count
      modifies this`count, cells
      ensures Fits(L) && count == old(count) + 1
      ensures cells[..count] == Spliced(old(cells[..count]), cell, row)
    {
      ghost var was := cells[..count];
      var i := count;
      while i > cell
        invariant cell <= i <= count == old(count)
        invariant cells[..i] == was[..i]
        invariant cells[i + 1..count + 1] == was[i..]
      {
        cells[i] := cells[i - 1];
        i := i - 1;
      }
      count := count + 1;
      cells[cell] := row;
    }

    /** InternalNode::Reset (node.h:91-96). */
    method ResetInternal(L: Layout)
      requires Fits(L)
      modifies this`kind, this`count, slots
      ensures Fits(L) && kind == INTERNAL && count == 0 && slots[..] == ZeroSlots(L.keys + 1)
    {
      kind, count := INTERNAL, 0;
      var i := 0;
      while i < slots.Length
        invariant 0 <= i <= slots.Length && kind == INTERNAL && count == 0
        invariant forall j :: 0 <= j < i ==> slots[j] == Slot(0, 0)
      {
        slots[i] := Slot(0, 0);
        i := i + 1;
      }
    }

    /** The parent's side of a split (table.h:228-232): the slot found for the leaf's old
        maximum takes over the last separator. */
    method OverwriteSlot(L: Layout, oldMax: Key)
      requires Fits(L) && kind == INTERNAL && 0 < count
      modifies slots
      ensures View(L) == Overwritten(old(View(L)), oldMax)
    {
      var newMax := slots[count - 1].key;
      var at := FindSlot(oldMax, count);
      slots[at] := slots[at].(key := newMax);
    }

    /** The loop of InsertInternal (table.h:165-167): cells index .. n - 1 move up by one. */
    method ShiftSlots(index: nat, n: nat)
      requires index <= n < slots.Length
      modifies slots
      ensures slots[..] == old(slots[..index]) + old(slots[index..index + 1]) + old(slots[index..n])
              + old(slots[n + 1..])
    {
      ghost var was := slots[..];
      var i := n;
      while i > index
        invariant index <= i <= n
        invariant forall j :: 0 <= j <= i ==> slots[j] == was[j]
        invariant forall j :: i < j <= n ==> slots[j] == was[j - 1]
        invariant forall j :: n < j < slots.Length ==> slots[j] == was[j]
      {
        slots[i] := slots[i - 1];
        i := i - 1;
      }
    }

    method InsertSlot(index: nat, n: nat, slot: Slot)
      requires index <= n < slots.Length
      modifies slots
      ensures slots[..] == old(slots[..index]) + [slot] + old(slots[index..n]) + old(slots[n + 1..])
    {
      ghost var was := slots[..];
      ShiftSlots(index, n);
      slots[index] := slots[index].(key := slot.key);
      slots[index] := slots[index].(child := slot.child);
    }

    /** InsertInternal once the root has room and both maxima are known (table.h:147-170). */
    method EnterSlot(L: Layout, page: nat, maxKey: Key, rightMax: Key)
      requires Fits(L) && kind == INTERNAL && count < L.keys
      modifies this`count, this`link, slots
      ensures Fits(L) && kind == INTERNAL && View(L) == Entered(old(View(L)), page, maxKey, rightMax)
    {
      hide InnerProbe;
      var n := count;
      count := n + 1;
      var index := FindSlot(n, n + 1);
      if maxKey > rightMax {
        slots[n] := Slot(link, rightMax);
        link := page;
      } else if index == count {
        slots[index] := slots[index].(key := maxKey);
        link := page;
      } else {
        InsertSlot(index, n, Slot(page, maxKey));
      }
    }

    /** The parent's side of a split with room for the new page (table.h:226-233, 142-173). */
    method TakeIn(L: Layout, oldMax: Key, page: nat, maxKey: Key, rightMax: Key)
      requires Fits(L) && kind == INTERNAL && 0 < count < L.keys
      modifies this`count, this`link, slots
      ensures Fits(L) && kind == INTERNAL
      ensures View(L) == Entered(Overwritten(old(View(L)), oldMax), page, maxKey, rightMax)
    {
      hide Entered;
      OverwriteSlot(L, oldMax);
      EnterSlot(L, page, maxKey, rightMax);
    }

    /** SplitRoot's copy of the root into the new left page (table.h:89-90, 101). */
    method CopyLeaf(L: Layout, from: Page)
      requires Fits(L) && from.Fits(L) && from.kind == LEAF && Own() !! from.Own()
      modifies this, cells
      ensures Fits(L) && kind == LEAF && View(L) == Leaf(0, false, old(from.link), old(from.cells[..from.count]))
    {
      kind, count, link, isRoot, parent := from.kind, from.count, from.link, false, 0;
      forall i | 0 <= i < cells.Length {
        cells[i] := from.cells[i];
      }
    }

    /** SplitRoot's new root (table.h:92-99). */
    method BecomeRoot(L: Layout, left: nat, leftMax: Key, right: nat)
      requires Fits(L) && 1 <= L.keys
      modifies this`kind, this`count, this`isRoot, this`link, slots
      ensures Fits(L) && kind == INTERNAL
      ensures View(L) == Inner(true, 1, ZeroSlots(L.keys + 1)[0 := Slot(left, leftMax)], right)
    {
      ResetInternal(L);
      isRoot, count := true, 1;
      slots[0] := Slot(left, leftMax);
      link := right;
    }
  }

  /** An index below twice the left count, reduced modulo the left count. */
  lemma SplitIndex(i: nat, left: nat)
    requires 0 < left && i < 2 * left
    ensures i % left == if i < left then i else i - left
  {
    if i < left {
      DivUnique(i, left, 0, i);
    } else {
      DivUnique(i, left, 1, i - left);
    }
  }

  /** Stage 2 of DoInsertAndSplit (table.h:193-217): one pass from the highest cell down
      distributes the full leaf and the new row over the two pages. Every cell is read while
      it still has its old content, and no access leaves its page. */
  method SplitCells(curr: Page, next: Page, L: Layout, cell: nat, row: Row)
    requires L.Ok() && curr.Fits(L) && next.Fits(L) && curr.Own() !! next.Own()
    requires cell <= L.cells
    modifies curr.cells, next.cells
    ensures var all := Spliced(old(curr.cells[..]), cell, row);
            && curr.cells[..L.LeftSplit()] == all[..L.LeftSplit()]
            && next.cells[..L.RightSplit()] == all[L.LeftSplit()..]
  {
    hide Spliced;
    ghost var was := curr.cells[..];
    ghost var all := Spliced(was, cell, row);
    var left := L.LeftSplit();
    SplitCounts(L);
    var i: int := L.cells;
    while i >= 0
      invariant -1 <= i <= L.cells
      invariant forall j :: 0 <= j <= i && j < L.cells ==> curr.cells[j] == was[j]
      invariant i < left ==> forall j :: i < j < left ==> curr.cells[j] == all[j]
      invariant forall j :: i < j <= L.cells && left <= j ==> next.cells[j - left] == all[j]
      decreases i
    {
      SplitIndex(i, left);
      SplicedAt(was, cell, row, i);
      var des := if i >= left then next else curr;
      var at := i % left;
      if i > cell {
        des.cells[at] := curr.cells[i - 1];
      } else if i < cell {
        des.cells[at] := curr.cells[i];
      } else {
        des.cells[at] := row;
      }
      i := i - 1;
    }
    assert curr.cells[..left] == all[..left];
    assert next.cells[..L.RightSplit()] == all[left..];
  }

  lemma SplitCounts(L: Layout)
    requires L.Ok()
    ensures 1 <= L.LeftSplit() <= L.cells && L.RightSplit() <= L.LeftSplit() <= L.RightSplit() + 1
    ensures L.LeftSplit() + L.RightSplit() == L.cells + 1
  {
  }

  lemma SplicedAt(rows: seq<Row>, cell: nat, row: Row, i: nat)
    requires cell <= |rows| && i <= |rows|
    ensures Spliced(rows, cell, row)[i] == if i < cell then rows[i] else if i == cell then row else rows[i - 1]
  {
  }

  /** DoInsertAndSplit on the two leaves (table.h:186-220); `num` is the new page's number. */
  method SplitLeaf(curr: Page, next: Page, L: Layout, num: nat, cell: nat, row: Row)
    requires L.Ok() && curr.Fits(L) && next.Fits(L) && curr.Own() !! next.Own()
    requires curr.kind == LEAF && curr.count == L.cells && next.kind == NONE && next.count == 0 && !next.isRoot
             && cell <= L.cells
    modifies curr`link, curr`count, curr.cells, next, next.cells
    ensures curr.Fits(L) && next.Fits(L) && curr.kind == LEAF && next.kind == LEAF
    ensures var was := old(curr.View(L));
            var all := Spliced(was.rows, cell, row);
            && curr.View(L) == was.(next := num, rows := all[..L.LeftSplit()])
            && next.View(L) == Leaf(was.parent, false, was.next, all[L.LeftSplit()..])
  {
    assert curr.cells[..] == curr.cells[..curr.count];
    next.kind, next.parent, next.link := LEAF, curr.parent, curr.link;
    curr.link := num;
    SplitCells(curr, next, L, cell, row);
    curr.count := L.LeftSplit();
    next.count := L.RightSplit();
  }

  lemma LeafRoot(t: Pages, L: Layout)
    requires Linked(t, L) && t[0].Leaf?
    ensures |t| == 1 && t[0].next == 0
  {
  }

  lemma HalvedFacts(t: Pages, page: nat, left: seq<Row>, right: seq<Row>)
    requires 0 < page < |t| && t[page].Leaf? && |left| > 0 && |right| > 0 && t[0].Inner?
    requires 0 < t[0].right < |t| && t[t[0].right].Leaf? && |t[t[0].right].rows| > 0
    ensures var h := Halved(t, page, left, right);
            && |h| == |t| + 1 && h[0] == t[0] && h[|t|].Leaf? && |h[|t|].rows| > 0
            && h[t[0].right].Leaf? && |h[t[0].right].rows| > 0
  {
  }

  /** The three ways an insertion goes, seen from the leaf it lands in. */
  lemma InsertCases(t: Pages, L: Layout, row: Row, page: nat, cell: nat)
    requires L.Ok() && Linked(t, L) && Cursor(page, cell) == Find(t, L, row.key)
    ensures page < |t| && t[page].Leaf? && |t[page].rows| <= L.cells && cell <= |t[page].rows|
    ensures var all := Spliced(t[page].rows, cell, row);
            |t[page].rows| < L.cells ==> Insert(t, L, row) == Done(t[page := t[page].(rows := all)])
    ensures var all := Spliced(t[page].rows, cell, row);
            |t[page].rows| == L.cells && t[page].root ==>
              && page == 0 && Insert(t, L, row) == Done(SplitRoot(t, L, all[..L.LeftSplit()], all[L.LeftSplit()..]))
    ensures |t[page].rows| == L.cells && !t[page].root ==>
              && 0 < page && t[0].Inner? && 0 < t[0].right < |t|
              && t[t[0].right].Leaf? && |t[t[0].right].rows| > 0
              && (t[0].count < L.keys <==> Insert(t, L, row).Done?)
    ensures var all := Spliced(t[page].rows, cell, row);
            |t[page].rows| == L.cells && !t[page].root && t[0].count < L.keys ==>
              && 0 < t[0].count && t[0].count + 1 < |t[0].slots|
              && Insert(t, L, row) == Done(SplitBelowRoot(t, page, all[..L.LeftSplit()], all[L.LeftSplit()..]))
  {
    hide InnerProbe, LeafProbe, Chained, SplitBelowRoot, SplitRoot, Spliced;
    FullLeaf(t, L, row.key);
    if t[0].Inner? {
      LastKid(t, L);
      KidPage(t, L, Route(t, row.key));
    }
  }

  class Table {
    const L: Layout
    var pages: seq<Page>
    /** The pages as values. */
    ghost var model: Pages

    ghost var Repr: set<object>

    /** The pages are separate objects and show what `model` says. */
    ghost predicate Valid()
      reads this, Repr
      ensures Valid() ==> L.Ok() && |model| == |pages|
    {
      && L.Ok() && |model| == |pages| && this !in Repr
      && (forall i :: 0 <= i < |pages| ==> pages[i].Own() <= Repr)
      && (forall i, j :: 0 <= i < j < |pages| ==> pages[i].Own() !! pages[j].Own())
      && (forall i :: 0 <= i < |pages| ==> pages[i].Fits(L) && pages[i].kind != NONE)
      && (forall i :: 0 <= i < |pages| ==> pages[i].View(L) == model[i])
    }

    lemma PageAt(i: nat)
      requires Valid() && i < |pages|
      ensures pages[i].Own() <= Repr && this !in Repr && L.Ok()
      ensures pages[i].Fits(L) && pages[i].kind != NONE && pages[i].View(L) == model[i]
    {
    }

    /** Only page i has changed. */
    twostate lemma Changed(i: nat)
      requires old(Valid()) && i < |pages| && pages == old(pages) && Repr == old(Repr)
      requires forall o :: o in Repr && o !in pages[i].Own() ==> unchanged(o)
      requires pages[i].Fits(L) && pages[i].kind != NONE && model == old(model)[i := pages[i].View(L)]
      ensures Valid()
    {
      forall j | 0 <= j < |pages| && j != i
        ensures pages[j].Fits(L) && pages[j].kind != NONE && pages[j].View(L) == model[j]
      {
        assert pages[j].Own() !! pages[i].Own();
        assert unchanged(pages[j]) && unchanged(pages[j].cells) && unchanged(pages[j].slots);
      }
    }

    /** Page i has changed and a new last page was added. */
    twostate lemma Grown(i: nat, new page: Page)
      requires old(Valid()) && i < old(|pages|) && pages == old(pages) + [page] && Repr == old(Repr) + page.Own()
      requires fresh(page.Own()) && forall o :: o in old(Repr) && o !in pages[i].Own() ==> unchanged(o)
      requires pages[i].Fits(L) && pages[i].kind != NONE && page.Fits(L) && page.kind != NONE
      requires model == old(model)[i := pages[i].View(L)] + [page.View(L)]
      ensures Valid()
    {
      forall j | 0 <= j < old(|pages|) && j != i
        ensures pages[j].Fits(L) && pages[j].kind != NONE && pages[j].View(L) == model[j]
      {
        assert pages[j] == old(pages)[j] && pages[j].Own() !! pages[i].Own();
        assert unchanged(pages[j]) && unchanged(pages[j].cells) && unchanged(pages[j].slots);
      }
    }

    /** Table::Open on an empty file (table.h:22-29). */
    constructor (L: Layout)
      requires L.Ok()
      ensures Valid() && this.L == L && model == Fresh() && fresh(Repr)
    {
      this.L := L;
      var page := new Page(L);
      page.kind := LEAF;
      page.isRoot := true;
      pages := [page];
      model := Fresh();
      Repr := page.Own();
      new;
      assert pages[0].cells[..0] == [];
    }

    /** Table::Find, InternalPageFind and LeafPageFind (table.h:302-363). */
    method Find(key: Key) returns (page: nat, cell: nat)
      requires Valid() && Linked(model, L)
      ensures Cursor(page, cell) == BTreeModel.Find(model, L, key)
    {
      hide Chained, SlotsOk, InnerProbe, LeafProbe;
      var root := pages[0];
      page := 0;
      assert root.View(L) == model[0];
      if root.kind == INTERNAL {
        assert root.count <= |model[0].slots| by { RootCount(model, L); }
        InnerProbePrefix(model[0].slots, root.count, key, 0, root.count);
        var i := root.FindSlot(key, root.count);
        page := if i < root.count then root.slots[i].child else root.link;
        assert page == Kids(model)[i];
        KidPage(model, L, i);
      }
      assert pages[page].View(L) == model[page];
      cell := pages[page].FindLeafCell(L, key);
    }

    /** LeafNode::GetMaxKey (node.h:400-412) of a page that is not empty. */
    method GetMaxKey(page: nat) returns (key: Key)
      requires Valid() && page < |pages| && model[page].Leaf? && |model[page].rows| > 0
      ensures key == MaxOf(model, page)
    {
      assert pages[page].View(L) == model[page];
      return pages[page].cells[pages[page].count - 1].key;
    }

    /** DoInsertAndSplit up to the point where the root has to be told (table.h:178-220). */
    method Halve(page: nat, cell: nat, row: Row)
      requires Valid() && page < |pages| && model[page].Leaf? && |model[page].rows| == L.cells && cell <= L.cells
      modifies this, Repr
      ensures Valid() && fresh(Repr - old(Repr)) && |pages| == |old(pages)| + 1
      ensures var all := Spliced(old(model)[page].rows, cell, row);
              model == Halved(old(model), page, all[..L.LeftSplit()], all[L.LeftSplit()..])
    {
      hide Spliced, Valid;
      PageAt(page);
      ghost var all := Spliced(model[page].rows, cell, row);
      var next := new Page(L);
      SplitLeaf(pages[page], next, L, |pages|, cell, row);
      pages := pages + [next];
      Repr := Repr + next.Own();
      model := Halved(model, page, all[..L.LeftSplit()], all[L.LeftSplit()..]);
      Grown(page, next);
    }

    /** The first half of SplitRoot (table.h:74-90): the root leaf is copied to a new page. */
    method CopyRoot()
      requires Valid() && 0 < |pages| && model[0].Leaf?
      modifies this
      ensures Valid() && fresh(Repr - old(Repr)) && old(Repr) <= Repr
      ensures model == old(model) + [old(model)[0].(parent := 0, root := false)]
    {
      hide Valid;
      PageAt(0);
      var left := new Page(L);
      left.CopyLeaf(L, pages[0]);
      pages := pages + [left];
      Repr := Repr + left.Own();
      model := model + [model[0].(parent := 0, root := false)];
      Grown(0, left);
    }

    /** SplitRoot's new root (table.h:92-99): the last page is the left child. */
    method Reroot(right: nat)
      requires Valid() && |pages| > 1 && model[|model| - 1].Leaf? && |model[|model| - 1].rows| > 0
      modifies Repr, this`model
      ensures Valid() && Repr == old(Repr) && pages == old(pages)
      ensures var left := |old(model)| - 1;
              model == old(model)[0 :=
                Inner(true, 1, ZeroSlots(L.keys + 1)[0 := Slot(left, MaxOf(old(model), left))], right)]
    {
      hide Valid;
      PageAt(0);
      var left := |pages| - 1;
      var max := GetMaxKey(left);
      pages[0].BecomeRoot(L, left, max, right);
      model := model[0 := Inner(true, 1, ZeroSlots(L.keys + 1)[0 := Slot(left, max)], right)];
      Changed(0);
    }

    /** Node::SetParentPage on a leaf (table.h:101-102). */
    method SetParent(page: nat, parent: nat)
      requires Valid() && page < |pages| && model[page].Leaf?
      modifies Repr, this`model
      ensures Valid() && Repr == old(Repr) && pages == old(pages)
      ensures model == old(model)[page := old(model)[page].(parent := parent)]
    {
      hide Valid;
      PageAt(page);
      pages[page].parent := parent;
      model := model[page := model[page].(parent := parent)];
      Changed(page);
    }

    /** The parent is told of the new page (table.h:226-233, 142-173); `false` when it is full. */
    method TellRoot(oldMax: Key, page: nat) returns (ok: bool)
      requires Valid() && 0 < page < |pages| && model[page].Leaf? && |model[page].rows| > 0
      requires model[0].Inner? && 0 < model[0].count < |model[0].slots|
      requires 0 < model[0].right < |model| && model[model[0].right].Leaf? && |model[model[0].right].rows| > 0
      modifies this, Repr
      ensures ok == (old(model)[0].count < L.keys)
      ensures ok ==> Valid() && Repr == old(Repr)
      ensures ok ==> old(model)[0].count + 1 < |old(model)[0].slots|
      ensures ok ==>
        model == old(model)[0 := Entered(Overwritten(old(model)[0], oldMax), page,
                                         MaxOf(old(model), page), MaxOf(old(model), old(model)[0].right))]
    {
      hide Entered, Overwritten, Valid;
      PageAt(0);
      var root := pages[0];
      if root.count >= L.keys {
        return false;
      }
      var maxKey := GetMaxKey(page);
      var rightMax := GetMaxKey(root.link);
      root.TakeIn(L, oldMax, page, maxKey, rightMax);
      model := model[0 := Entered(Overwritten(model[0], oldMax), page, maxKey, rightMax)];
      Changed(0);
      return true;
    }

    /** Table::Insert (table.h:365-377): find the leaf, put the row in, split if it is full. The
        pages end as the value function says; `false` is the unfinished split of a full root. */
    method Insert(key: Key, val: User) returns (ok: bool)
      requires Valid() && Linked(model, L)
      modifies this, Repr
      ensures ok == BTreeModel.Insert(old(model), L, Row(key, val)).Done?
      ensures ok ==> Valid() && fresh(Repr - old(Repr))
      ensures ok ==> model == BTreeModel.Insert(old(model), L, Row(key, val)).pages
    {
      hide BTreeModel.Insert, Linked, SplitBelowRoot, SplitRoot, Spliced, BTreeModel.Find;
      var page, cell := Find(key);
      InsertCases(model, L, Row(key, val), page, cell);
      assert pages[page].View(L) == model[page];
      if pages[page].count < L.cells {
        ok := true;
        PutRow(page, cell, Row(key, val));
      } else if pages[page].isRoot {
        ok := true;
        InsertSplitRoot(cell, Row(key, val));
      } else {
        ok := InsertSplitLeaf(page, cell, Row(key, val));
      }
    }

    method PutRow(page: nat, cell: nat, row: Row)
      requires Valid() && page < |pages| && model[page].Leaf? && |model[page].rows| < L.cells
      requires cell <= |model[page].rows|
      modifies Repr, this`model
      ensures Valid()
      ensures model == old(model)[page := old(model)[page].(rows := Spliced(old(model)[page].rows, cell, row))]
    {
      hide Spliced, Valid;
      PageAt(page);
      pages[page].InsertCell(L, cell, row);
      model := model[page := model[page].(rows := Spliced(model[page].rows, cell, row))];
      Changed(page);
    }

    method InsertSplitRoot(cell: nat, row: Row)
      requires Valid() && Linked(model, L) && model[0].Leaf? && |model[0].rows| == L.cells && cell <= L.cells
      modifies this, Repr
      ensures Valid() && fresh(Repr - old(Repr))
      ensures var all := Spliced(old(model)[0].rows, cell, row);
              model == SplitRoot(old(model), L, all[..L.LeftSplit()], all[L.LeftSplit()..])
    {
      hide Spliced, Valid, ZeroSlots, Linked;
      assert |model| == 1 && model[0].next == 0 by { LeafRoot(model, L); }
      Halve(0, cell, row);
      CopyRoot();
      Reroot(1);
      SetParent(1, 0);
    }

    method InsertSplitLeaf(page: nat, cell: nat, row: Row) returns (ok: bool)
      requires Valid() && Linked(model, L) && 0 < page < |pages| && model[page].Leaf? && model[0].Inner?
      requires |model[page].rows| == L.cells && cell <= L.cells
      requires 0 < model[0].right < |model| && model[model[0].right].Leaf? && |model[model[0].right].rows| > 0
      modifies this, Repr
      ensures ok == (old(model)[0].count < L.keys)
      ensures ok ==> Valid() && fresh(Repr - old(Repr))
      ensures ok ==>
        var all := Spliced(old(model)[page].rows, cell, row);
        && 0 < old(model)[0].count && old(model)[0].count + 1 < |old(model)[0].slots|
        && model == SplitBelowRoot(old(model), page, all[..L.LeftSplit()], all[L.LeftSplit()..])
    {
      RootCount(model, L);
      hide Linked, Entered, Overwritten, Spliced, Valid;
      var oldMax := GetMaxKey(page);
      var num := |pages|;
      ghost var all := Spliced(model[page].rows, cell, row);
      HalvedFacts(model, page, all[..L.LeftSplit()], all[L.LeftSplit()..]);
      hide Halved;
      Halve(page, cell, row);
      ok := TellRoot(oldMax, num);
    }
  }
}
