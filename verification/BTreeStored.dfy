/** The table in its file: the pages of module BTreeModel as bytes in the pager of module
    PagerModel (db_lab/table.h, db_lab/pager.h). `enc` and `dec` stand for the layout of a page
    in memory; nothing is used of them but that a page that was written reads back. */
module BTreeStored {
  import opened ByteStrings
  import opened Options
  import opened BTreeModel
  import opened BTreeProofs
  import opened BTreeTheorems
  import R = BTreeRuns
  import P = PagerModel

  type Encoder = Node -> Bytes

  type Decoder = Bytes -> Node

  /** Each page of the table is a page of the pager and can be read back. */
  ghost predicate Readable(t: Pages, enc: Encoder, dec: Decoder) {
    forall i :: 0 <= i < |t| ==> |enc(t[i])| == P.PAGE_SIZE && dec(enc(t[i])) == t[i]
  }

  function Bytewise(t: Pages, enc: Encoder): seq<Bytes> { seq(|t|, i requires 0 <= i < |t| => enc(t[i])) }

  function Decoded(pages: seq<Bytes>, dec: Decoder): Pages {
    seq(|pages|, i requires 0 <= i < |pages| => dec(pages[i]))
  }

  ghost predicate PagerOk(p: P.Pager) { P.Inv(p) && P.BeyondZero(p) }

  /** What was written last to page i. */
  function LastPut(ops: seq<P.Op>, i: nat): Option<Bytes> {
    if ops == [] then None
    else
      var o := ops[|ops| - 1];
      if o.Put? && o.num == i then Some(o.page) else LastPut(ops[..|ops| - 1], i)
  }

  /** The requests and writes of an insertion that leads from `t` to `t'`: no page beyond those
      of `t'` is asked for, and what is written last to a page is what `t'` has there; a page that
      is not written is the same in both. In between pages may be written piece by piece, flushed
      and read again in any order. */
  ghost predicate Saves(ops: seq<P.Op>, t: Pages, t': Pages, enc: Encoder) {
    && |t| <= |t'|
    && (forall o :: o in ops && o.Get? ==> o.num < |t'|)
    && (forall i :: 0 <= i < |t'| ==>
          if LastPut(ops, i).Some? then LastPut(ops, i).value == enc(t'[i]) else i < |t| && t[i] == t'[i])
  }

  lemma {:induction false} SimpleSnoc(pages: seq<Bytes>, ops: seq<P.Op>)
    requires ops != []
    ensures P.SimpleAfter(pages, ops) == P.Simple(P.SimpleAfter(pages, ops[..|ops| - 1]), ops[|ops| - 1])
    decreases |ops|
  {
    hide P.Simple;
    if |ops| > 1 {
      SimpleSnoc(P.Simple(pages, ops[0]), ops[1..]);
      assert ops[1..][..|ops| - 2] == ops[..|ops| - 1][1..];
    }
  }

  /** A page holds what was written to it last, or what it held before. */
  lemma {:induction false} HoldsLast(pages: seq<Bytes>, ops: seq<P.Op>, n: nat)
    requires |pages| <= n && forall o :: o in ops && o.Get? ==> o.num < n
    ensures var after := P.SimpleAfter(pages, ops);
            && |pages| <= |after| <= n
            && (forall i :: 0 <= i < |after| && LastPut(ops, i).None? && i < |pages| ==> after[i] == pages[i])
    decreases |ops|
  {
    if ops != [] {
      var front := ops[..|ops| - 1];
      SimpleSnoc(pages, ops);
      HoldsLast(pages, front, n);
      assert ops[|ops| - 1] in ops;
    }
  }

  lemma {:induction false} PutsLast(p: P.Pager, ops: seq<P.Op>, i: nat)
    requires PagerOk(p) && P.IsRun(p, ops) && LastPut(ops, i).Some?
    ensures var after := P.SimpleAfter(P.View(p), ops);
            i < |after| && after[i] == LastPut(ops, i).value
    decreases |ops|
  {
    var n := |ops| - 1;
    RunSnoc(p, ops);
    SimpleSnoc(P.View(p), ops);
    P.RunIsSimple(p, ops[..n]);
    RunPagerOk(p, ops[..n]);
    hide P.View, PagerOk;
    if ops[n].Put? && ops[n].num == i {
      assert i < |P.View(P.After(p, ops[..n]))| by { CachedIsPage(P.After(p, ops[..n]), i); }
    } else {
      PutsLast(p, ops[..n], i);
    }
  }

  lemma CachedIsPage(p: P.Pager, i: nat)
    requires PagerOk(p) && i in p.cached
    ensures i < |P.View(p)|
  {
  }

  lemma {:induction false} RunSnoc(p: P.Pager, ops: seq<P.Op>)
    requires P.IsRun(p, ops) && ops != []
    ensures P.IsRun(p, ops[..|ops| - 1]) && P.CanDo(P.After(p, ops[..|ops| - 1]), ops[|ops| - 1])
    ensures P.After(p, ops) == P.Did(P.After(p, ops[..|ops| - 1]), ops[|ops| - 1])
    decreases |ops|
  {
    hide P.CanDo, P.Did;
    if |ops| > 1 {
      RunSnoc(P.Did(p, ops[0]), ops[1..]);
      assert ops[1..][..|ops| - 2] == ops[..|ops| - 1][1..];
    }
  }

  lemma {:induction false} RunPagerOk(p: P.Pager, ops: seq<P.Op>)
    requires PagerOk(p) && P.IsRun(p, ops)
    ensures PagerOk(P.After(p, ops))
    decreases |ops|
  {
    hide P.Inv, P.BeyondZero, P.CanDo, P.Did, P.View;
    if ops != [] {
      P.StepSimple(p, ops[0]);
      RunPagerOk(P.Did(p, ops[0]), ops[1..]);
    }
  }

  /** An insertion that saves its pages leaves the new table in the pager. */
  lemma StepStored(p: P.Pager, ops: seq<P.Op>, t: Pages, t': Pages, enc: Encoder)
    requires PagerOk(p) && P.View(p) == Bytewise(t, enc) && P.IsRun(p, ops) && Saves(ops, t, t', enc)
    ensures PagerOk(P.After(p, ops)) && P.View(P.After(p, ops)) == Bytewise(t', enc)
  {
    hide PagerOk, P.View, P.IsRun, P.After, P.SimpleAfter, LastPut;
    RunPagerOk(p, ops);
    assert P.View(P.After(p, ops)) == P.SimpleAfter(P.View(p), ops) by { ViewsSimple(p, ops); }
    var after := P.SimpleAfter(P.View(p), ops);
    HoldsLast(P.View(p), ops, |t'|);
    forall i | 0 <= i < |t'|
      ensures i < |after| && after[i] == enc(t'[i])
    {
      if LastPut(ops, i).Some? {
        PutsLast(p, ops, i);
      }
    }
    if |t'| > 0 {
      assert t'[|t'| - 1] in t' && |t'| - 1 < |after|;
    }
    assert after == Bytewise(t', enc);
  }

  lemma ViewsSimple(p: P.Pager, ops: seq<P.Op>)
    requires PagerOk(p) && P.IsRun(p, ops)
    ensures P.View(P.After(p, ops)) == P.SimpleAfter(P.View(p), ops)
  {
    P.RunIsSimple(p, ops);
  }

  /** Closing the file and opening it again finds the table. */
  lemma Reopened(p: P.Pager, t: Pages, enc: Encoder, dec: Decoder)
    requires PagerOk(p) && P.View(p) == Bytewise(t, enc) && Readable(t, enc, dec)
    ensures (forall n :: n in p.cached ==> |p.cached[n]| == P.PAGE_SIZE)
    ensures Decoded(P.View(P.Open(P.Close(p).file)), dec) == t
  {
    P.CloseView(p);
    hide P.View;
    assert Decoded(Bytewise(t, enc), dec) == t;
  }

  // ---- Whole runs ----

  /** `ts` are the tables of a run of insertions; `ps` are the pagers that hold them, and `opss`
      what each insertion asks of the pager. */
  ghost predicate StoredRun(ps: seq<P.Pager>, opss: seq<seq<P.Op>>, ts: seq<Pages>, rows: seq<Row>, L: Layout,
                            enc: Encoder)
  {
    && R.IsRun(ts, L, rows) && |ts| == |rows| + 1 && |ps| == |ts| && |opss| == |rows|
    && PagerOk(ps[0]) && P.View(ps[0]) == Bytewise(ts[0], enc)
    && forall i :: 0 <= i < |rows| ==> StoredStep(ps[i], opss[i], ps[i + 1], ts[i], ts[i + 1], enc)
  }

  ghost predicate StoredStep(p: P.Pager, ops: seq<P.Op>, q: P.Pager, t: Pages, t': Pages, enc: Encoder) {
    P.IsRun(p, ops) && q == P.After(p, ops) && Saves(ops, t, t', enc)
  }

  lemma {:induction false} RunStored(ps: seq<P.Pager>, opss: seq<seq<P.Op>>, ts: seq<Pages>, rows: seq<Row>, L: Layout,
                                     enc: Encoder, i: nat)
    requires StoredRun(ps, opss, ts, rows, L, enc) && i <= |rows|
    ensures PagerOk(ps[i]) && P.View(ps[i]) == Bytewise(ts[i], enc)
    decreases i
  {
    hide R.IsRun, PagerOk, P.View, Saves, Bytewise, P.IsRun, P.After;
    if i > 0 {
      RunStored(ps, opss, ts, rows, L, enc, i - 1);
      assert StoredStep(ps[i - 1], opss[i - 1], ps[i - 1 + 1], ts[i - 1], ts[i - 1 + 1], enc);
      StepStored(ps[i - 1], opss[i - 1], ts[i - 1], ts[i], enc);
    }
  }

  /** A new file in which the first page has been made an empty root leaf (table.h:22-29). */
  lemma FreshStored(enc: Encoder)
    requires |enc(Fresh()[0])| == P.PAGE_SIZE
    ensures var ops := [P.Get(0), P.Put(0, enc(Fresh()[0]))];
            && P.IsRun(P.Open([]), ops) && PagerOk(P.After(P.Open([]), ops))
            && P.View(P.After(P.Open([]), ops)) == Bytewise(Fresh(), enc)
  {
    var p := P.Open([]);
    P.OpenInv([]);
    var q := P.Did(p, P.Get(0));
    P.StepSimple(p, P.Get(0));
    var put := P.Put(0, enc(Fresh()[0]));
    P.StepSimple(q, put);
    ThenRun(p, [], P.Get(0));
    ThenRun(p, [] + [P.Get(0)], put);
    assert [] + [P.Get(0)] + [put] == [P.Get(0), put];
    hide P.IsRun, P.After;
    assert P.View(p) == [];
    assert P.View(P.Did(q, put)) == [enc(Fresh()[0])];
  }

  /** One way of saving a table: every page is asked for and written. */
  lemma {:induction false} SavedPages(p: P.Pager, t: Pages, enc: Encoder, n: nat) returns (ops: seq<P.Op>)
    requires PagerOk(p) && n <= |t| <= P.MAX_PAGES && forall i :: 0 <= i < |t| ==> |enc(t[i])| == P.PAGE_SIZE
    ensures P.IsRun(p, ops) && (forall o :: o in ops && o.Get? ==> o.num < n)
    ensures forall i :: 0 <= i < |t| ==> LastPut(ops, i) == if i < n then Some(enc(t[i])) else None
  {
    ops := [];
    if n > 0 {
      var front := SavedPages(p, t, enc, n - 1);
      RunPagerOk(p, front);
      var get, put := P.Get(n - 1), P.Put(n - 1, enc(t[n - 1]));
      ThenRun(p, front, get);
      RunPagerOk(p, front + [get]);
      ThenRun(p, front + [get], put);
      ops := front + [get] + [put];
      forall i | 0 <= i < |t|
        ensures LastPut(ops, i) == if i < n then Some(enc(t[i])) else None
      {
        LastPutSnoc(front, get, i);
        LastPutSnoc(front + [get], put, i);
      }
    }
  }

  lemma LastPutSnoc(ops: seq<P.Op>, o: P.Op, i: nat)
    ensures LastPut(ops + [o], i) == if o.Put? && o.num == i then Some(o.page) else LastPut(ops, i)
  {
    assert (ops + [o])[..|ops|] == ops;
  }

  lemma {:induction false} ThenRun(p: P.Pager, ops: seq<P.Op>, o: P.Op)
    requires P.IsRun(p, ops) && P.CanDo(P.After(p, ops), o)
    ensures P.IsRun(p, ops + [o]) && P.After(p, ops + [o]) == P.Did(P.After(p, ops), o)
    decreases |ops|
  {
    hide P.CanDo, P.Did;
    if ops == [] {
      assert [o][1..] == [];
    } else {
      assert (ops + [o])[1..] == ops[1..] + [o];
      ThenRun(P.Did(p, ops[0]), ops[1..], o);
    }
  }

  /** Every step of a table can be saved. */
  lemma CanSave(p: P.Pager, t: Pages, t': Pages, enc: Encoder) returns (ops: seq<P.Op>)
    requires PagerOk(p) && |t| <= |t'| <= P.MAX_PAGES && forall i :: 0 <= i < |t'| ==> |enc(t'[i])| == P.PAGE_SIZE
    ensures P.IsRun(p, ops) && Saves(ops, t, t', enc)
  {
    ops := SavedPages(p, t', enc, |t'|);
  }

  /** A table that was filled by any run of keys that could be inserted, its pages flushed and
      read again at will, then closed and opened again, is the same table: well formed, and its
      rows are exactly the map of the rows inserted. */
  lemma ReopenedRun(ps: seq<P.Pager>, opss: seq<seq<P.Op>>, ts: seq<Pages>, rows: seq<Row>, L: Layout,
                    enc: Encoder, dec: Decoder)
    requires StoredRun(ps, opss, ts, rows, L, enc) && Readable(ts[|rows|], enc, dec)
    requires forall i :: 0 <= i < |rows| ==> Linked(ts[i], L) && CanInsert(ts[i], L, rows[i].key)
    ensures forall n :: n in ps[|rows|].cached ==> |ps[|rows|].cached[n]| == P.PAGE_SIZE
    ensures var t := Decoded(P.View(P.Open(P.Close(ps[|rows|]).file)), dec);
            t == ts[|rows|] && WellFormed(t, L) && R.Represents(R.MapOf(rows), Rows(t, L))
  {
    hide R.IsRun, PagerOk, P.View, StoredStep, Bytewise, Decoded, Readable, P.Close, Linked, CanInsert, R.Represents,
         R.MapOf, Rows, SortedLeaves, Bounded, Leaves;
    RunStored(ps, opss, ts, rows, L, enc, |rows|);
    Reopened(ps[|rows|], ts[|rows|], enc, dec);
    R.RunRefinesMap(ts, L, rows, |rows|);
    assert rows[..|rows|] == rows;
  }
}
