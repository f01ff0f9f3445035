/** The chain of leaves through every split (db_lab/table.h:178-235): whichever leaf is split, the
    next links still lead through all rows and the new one in key order, also where the separators
    of the root come out wrong and `Find` no longer gets there. */
module BTreeChain {
  import opened BTreeModel
  import opened BTreeProofs
  import opened BTreeTheorems
  import opened BTreeFailures
  import opened BTreeScan

  /** The leaves `ks` with a new page behind leaf p. */
  function Behind(ks: seq<nat>, p: nat, page: nat): (r: seq<nat>)
    requires p < |ks|
    ensures |r| == |ks| + 1
  {
    ks[..p + 1] + [page] + ks[p + 1..]
  }

  /** The pages `ks` are leaves, all different, each leading to the next. */
  ghost predicate Chain(t: Pages, ks: seq<nat>) {
    && (forall i :: 0 <= i < |ks| ==> 0 < ks[i] < |t| && t[ks[i]].Leaf?)
    && (forall i :: 0 <= i < |ks| && ks[i] < |t| && t[ks[i]].Leaf? ==> t[ks[i]].next == After(ks, i))
    && Distinct(ks)
  }

  lemma ChainedChain(t: Pages, ks: seq<nat>, L: Layout)
    requires Chained(t, ks, L)
    ensures Chain(t, ks)
  {
  }

  /** What a split makes of the leaves: `left` stays, `right` goes to a new last page. */
  ghost predicate LeafSplit(t: Pages, t': Pages, k: nat, left: seq<Row>, right: seq<Row>)
    requires k < |t| && t[k].Leaf?
  {
    && |t'| == |t| + 1 && t'[k] == t[k].(next := |t|, rows := left)
    && t'[|t|].Leaf? && t'[|t|].next == t[k].next && t'[|t|].rows == right
    && forall x :: 0 < x < |t| && x != k ==> t'[x] == t[x]
  }

  lemma SplitLeaves(t: Pages, k: nat, left: seq<Row>, right: seq<Row>)
    requires 0 < k < |t| && t[k].Leaf? && |t[k].rows| > 0 && |left| > 0 && |right| > 0
    requires t[0].Inner? && 0 < t[0].count && t[0].count + 1 < |t[0].slots|
    requires 0 < t[0].right < |t| && t[t[0].right].Leaf? && |t[t[0].right].rows| > 0
    ensures LeafSplit(t, SplitBelowRoot(t, k, left, right), k, left, right)
  {
    hide Entered, Overwritten;
    BelowOthers(t, k, left, right);
  }

  lemma BehindAt(ks: seq<nat>, p: nat, page: nat, i: nat)
    requires p < |ks| && i <= |ks|
    ensures Behind(ks, p, page)[i] == if i <= p then ks[i] else if i == p + 1 then page else ks[i - 1]
  {
  }

  lemma BehindDistinct(ks: seq<nat>, p: nat, page: nat)
    requires Distinct(ks) && p < |ks| && forall i :: 0 <= i < |ks| ==> ks[i] != page
    ensures Distinct(Behind(ks, p, page))
  {
    var js := Behind(ks, p, page);
    forall i, j | 0 <= i < j < |js|
      ensures js[i] != js[j]
    {
      BehindAt(ks, p, page, i);
      BehindAt(ks, p, page, j);
    }
  }

  /** One page of the chain after the split. */
  lemma PageAfter(t: Pages, t': Pages, ks: seq<nat>, p: nat, left: seq<Row>, right: seq<Row>, i: nat)
    requires Chain(t, ks) && p < |ks| && i <= |ks| && LeafSplit(t, t', ks[p], left, right)
    ensures var js := Behind(ks, p, |t|);
            && 0 < js[i] < |t'| && t'[js[i]].Leaf? && t'[js[i]].next == After(js, i)
            && t'[js[i]].rows ==
               if i == p then left else if i == p + 1 then right else t[ks[if i < p then i else i - 1]].rows
  {
    BehindAt(ks, p, |t|, i);
    if i < |ks| {
      BehindAt(ks, p, |t|, i + 1);
    }
    hide Behind;
    var k := if i <= p then i else i - 1;
    assert k != p ==> ks[k] != ks[p];
    assert k != p ==> t'[ks[k]] == t[ks[k]];
  }

  /** The new page has its place in the chain behind the leaf that was split. */
  lemma ChainSplit(t: Pages, t': Pages, ks: seq<nat>, p: nat, left: seq<Row>, right: seq<Row>)
    requires Chain(t, ks) && p < |ks| && LeafSplit(t, t', ks[p], left, right)
    ensures Chain(t', Behind(ks, p, |t|))
  {
    BehindDistinct(ks, p, |t|);
    hide Behind, LeafSplit, After;
    var js := Behind(ks, p, |t|);
    forall i: nat | i < |js|
      ensures 0 < js[i] < |t'| && t'[js[i]].Leaf? && t'[js[i]].next == After(js, i)
    {
      PageAfter(t, t', ks, p, left, right, i);
    }
  }

  lemma RowsSplitUp(t: Pages, t': Pages, ks: seq<nat>, p: nat, left: seq<Row>, right: seq<Row>)
    requires Chain(t, ks) && p < |ks| && LeafSplit(t, t', ks[p], left, right) && Chain(t', Behind(ks, p, |t|))
    ensures var ls := RowsOf(t, ks);
            RowsOf(t', Behind(ks, p, |t|)) == ls[..p] + [left, right] + ls[p + 1..]
  {
    var js, ls := Behind(ks, p, |t|), RowsOf(t, ks);
    var now := ls[..p] + [left, right] + ls[p + 1..];
    forall i: nat | i < |js|
      ensures RowsOf(t', js)[i] == now[i]
    {
      PageAfter(t, t', ks, p, left, right, i);
      NowAt(ls, p, left, right, i);
    }
    assert |RowsOf(t', js)| == |now|;
  }

  lemma NowAt(ls: seq<seq<Row>>, p: nat, left: seq<Row>, right: seq<Row>, i: nat)
    requires p < |ls| && i <= |ls|
    ensures (ls[..p] + [left, right] + ls[p + 1..])[i] ==
              if i == p then left else if i == p + 1 then right else ls[if i < p then i else i - 1]
  {
  }

  /** The leaves from first to last, with the two halves in place of the one split, hold the rows
      of the table and the new one, in strictly increasing key order. */
  lemma HalvesInPlace(t: Pages, L: Layout, row: Row, n: nat)
    requires WellFormed(t, L) && !Holds(t, L, row.key)
    requires n <= |t[Find(t, L, row.key).page].rows| + 1
    ensures |Leaves(t, L)| == |Kids(t)| && Route(t, row.key) < |Kids(t)|
    ensures var c, ls, p := Find(t, L, row.key), Leaves(t, L), Route(t, row.key);
            var all := Spliced(t[c.page].rows, c.cell, row);
            var now := Flatten(ls[..p] + [all[..n], all[n..]] + ls[p + 1..]);
            GainsRow(Rows(t, L), now, row) && SortedRows(now)
  {
    hide Linked, Leaves, SortedLeaves, Bounded, Kids, Seps, Route, Find, Holds, SortedRows, Spliced, FitsAt, Flatten,
         GainsRow;
    WellFormedLinked(t, L);
    LeafPerSeparator(t, L);
    var c, ls, p := Find(t, L, row.key), Leaves(t, L), Route(t, row.key);
    var all := Spliced(t[c.page].rows, c.cell, row);
    RoutedLeaf(t, L, row.key);
    RoutedFits(t, L, row);
    FlattenPair(all[..n], all[n..]);
    assert all[..n] + all[n..] == all;
    FlattenReplaced(ls, p, [all[..n], all[n..]], c.cell, row);
    RefilledBounded(ls, Seps(t), p, all);
    FlattenSorted(ls[p := all], Seps(t));
    SameRows(ls, p, all, n);
  }

  lemma RoutedLeaf(t: Pages, L: Layout, key: int)
    requires Linked(t, L)
    ensures |Leaves(t, L)| == |Kids(t)| && Route(t, key) < |Kids(t)|
    ensures t[Find(t, L, key).page].rows == Leaves(t, L)[Route(t, key)]
  {
  }

  lemma SameRows(ls: seq<seq<Row>>, p: nat, all: seq<Row>, n: nat)
    requires p < |ls| && n <= |all|
    ensures Flatten(ls[p := all]) == Flatten(ls[..p] + [all[..n], all[n..]] + ls[p + 1..])
  {
    hide Flatten;
    var mid := [all[..n], all[n..]];
    assert ls[p := all] == ls[..p] + [all] + ls[p + 1..];
    FlattenConcat(ls[..p] + [all], ls[p + 1..]);
    FlattenConcat(ls[..p], [all]);
    FlattenOne(all);
    FlattenConcat(ls[..p] + mid, ls[p + 1..]);
    FlattenConcat(ls[..p], mid);
    FlattenPair(all[..n], all[n..]);
    assert all[..n] + all[n..] == all;
  }

  /** Every split of a leaf below the root that goes through, the wrong ones included, leaves a
      chain from the first leaf to the last that shows the rows there were and the new row, in
      strictly increasing key order: what `Find` loses is still in the chain. */
  lemma ChainSurvives(t: Pages, L: Layout, row: Row)
    requires L.Ok() && WellFormed(t, L) && !Holds(t, L, row.key) && t[0].Inner? && t[0].count < L.keys
    requires |t[Find(t, L, row.key).page].rows| == L.cells
    ensures Route(t, row.key) < |Kids(t)| && Insert(t, L, row).Done?
    ensures var t', js := Insert(t, L, row).pages, Behind(Kids(t), Route(t, row.key), |t|);
            && Chain(t', js) && GainsRow(Rows(t, L), Flatten(RowsOf(t', js)), row)
            && SortedRows(Flatten(RowsOf(t', js)))
  {
    var c, ks, p := Find(t, L, row.key), Kids(t), Route(t, row.key);
    var all := Spliced(t[c.page].rows, c.cell, row);
    var left, right := all[..L.LeftSplit()], all[L.LeftSplit()..];
    hide Holds, Linked, Leaves, SortedLeaves, Bounded, Insert, Find, Spliced, Kids, Route, SplitBelowRoot, Chain,
         Behind, LeafSplit, GainsRow, SortedRows, Flatten, SlotsOk, Chained;
    WellFormedLinked(t, L);
    InsertSplitsBelow(t, L, row);
    RootCount(t, L);
    KidsChained(t, L);
    SplitLeaves(t, c.page, left, right);
    var t' := Insert(t, L, row).pages;
    ChainSplit(t, t', ks, p, left, right);
    ChainIsLeaves(t', Behind(ks, p, |t|));
    RowsSplitUp(t, t', ks, p, left, right);
    HalvesInPlace(t, L, row, L.LeftSplit());
  }

  lemma ChainIsLeaves(t: Pages, ks: seq<nat>)
    requires Chain(t, ks)
    ensures forall i :: 0 <= i < |ks| ==> ks[i] < |t| && t[ks[i]].Leaf?
  {
  }

  lemma KidsChained(t: Pages, L: Layout)
    requires Linked(t, L) && t[0].Inner?
    ensures Chain(t, Kids(t)) && (forall i :: 0 <= i < |Kids(t)| ==> Kids(t)[i] < |t| && t[Kids(t)[i]].Leaf?)
    ensures Leaves(t, L) == RowsOf(t, Kids(t))
  {
    ChainedChain(t, Kids(t), L);
  }
}
