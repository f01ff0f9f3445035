/** AddDocs (rocksdb_lab/rocksdb_impl.cpp:526-569) collects the writes of many documents in one
    batch, all reads going to the store as it was before the batch. For documents with
    pairwise distinct uids the result is that of adding them one by one. */
module DocBatch {
  import opened ByteStrings
  import opened StoreKeys
  import opened DocStore
  import opened DocInvariants
  import opened Options

  /** Store and cursor after some additions; `rolled` is the flag `updated` (line 549). */
  datatype Result = Result(store: Store, cur: Addr, rolled: bool)

  predicate Whole(docs: seq<Doc>, n: nat) {
    1 <= n <= 255 && forall i :: 0 <= i < |docs| ==> |docs[i]| == n
  }

  /** AddDoc for each document in turn (lines 571-615). */
  function AddEach(s: Store, tid: U64, cur: Addr, docs: seq<Doc>, n: nat): (r: Result)
    requires cur.id < SEGMENT_SIZE && Whole(docs, n)
    ensures r.cur.id < SEGMENT_SIZE
    decreases |docs|
  {
    if docs == [] then Result(s, cur, false)
    else
      var p := PlanFor(s, tid, cur, docs[0][0]);
      var r := AddEach(Apply(s, DocOps(s, tid, cur, docs[0])), tid, NewCursor(cur, p), docs[1..], n);
      r.(rolled := Rolls(cur, p) || r.rolled)
  }

  /** The batch of AddDocs: `ops`, and the cursor and flag passed along by reference. */
  datatype Batch = Batch(ops: seq<Op>, cur: Addr, rolled: bool)

  function BatchOps(r: Store, tid: U64, cur: Addr, docs: seq<Doc>, n: nat): (b: Batch)
    requires cur.id < SEGMENT_SIZE && Whole(docs, n)
    ensures b.cur.id < SEGMENT_SIZE
    decreases |docs|
  {
    if docs == [] then Batch([], cur, false)
    else
      var p := PlanFor(r, tid, cur, docs[0][0]);
      var b := BatchOps(r, tid, NewCursor(cur, p), docs[1..], n);
      Batch(DocOps(r, tid, cur, docs[0]) + b.ops, b.cur, Rolls(cur, p) || b.rolled)
  }

  /** The segment of a batch's cursor changes only when the flag says so. */
  lemma {:induction false} BatchSegment(r: Store, tid: U64, cur: Addr, docs: seq<Doc>, n: nat)
    requires cur.id < SEGMENT_SIZE && Whole(docs, n)
    ensures !BatchOps(r, tid, cur, docs, n).rolled ==> BatchOps(r, tid, cur, docs, n).cur.sid == cur.sid
    decreases |docs|
  {
    hide DocOps, PlanFor;
    if docs != [] {
      BatchSegment(r, tid, NewCursor(cur, PlanFor(r, tid, cur, docs[0][0])), docs[1..], n);
    }
  }

  predicate DistinctUids(docs: seq<Doc>)
    requires forall i :: 0 <= i < |docs| ==> |docs[i]| > 0
  {
    forall i, j :: 0 <= i < j < |docs| ==> docs[i][0] != docs[j][0]
  }

  /** Both stores answer the reads made for `uid` alike. */
  ghost predicate ReadAlike(r: Store, s: Store, tid: U64, uid: Bytes) {
    && Get(r, UidKey(tid, uid)) == Get(s, UidKey(tid, uid))
    && forall a: Addr, f: Byte :: Get(s, UidKey(tid, uid)) == Some(At(a)) ==>
         Get(r, ValueKey(tid, a, f)) == Get(s, ValueKey(tid, a, f))
  }

  lemma {:induction false} FieldsOpsAlike(r: Store, s: Store, tid: U64, p: Plan, doc: Doc, m: nat)
    requires m <= |doc| <= 255
    requires forall f: Byte :: p.was.Some? ==>
               Get(r, ValueKey(tid, p.was.value, f)) == Get(s, ValueKey(tid, p.was.value, f))
    ensures FieldsOps(r, tid, p, doc, m) == FieldsOps(s, tid, p, doc, m)
  {
    if m > 0 {
      FieldsOpsAlike(r, s, tid, p, doc, m - 1);
      assert FieldOps(r, tid, p, m - 1, doc[m - 1]) == FieldOps(s, tid, p, m - 1, doc[m - 1]);
    }
  }

  lemma DocOpsAlike(r: Store, s: Store, tid: U64, cur: Addr, doc: Doc)
    requires cur.id < SEGMENT_SIZE && 1 <= |doc| <= 255 && ReadAlike(r, s, tid, doc[0])
    ensures PlanFor(r, tid, cur, doc[0]) == PlanFor(s, tid, cur, doc[0])
    ensures DocOps(r, tid, cur, doc) == DocOps(s, tid, cur, doc)
  {
    FieldsOpsAlike(r, s, tid, PlanFor(s, tid, cur, doc[0]), doc, |doc|);
  }

  /** Adding another document does not change what is read for `uid`. */
  lemma ReadAlikeAfter(r: Store, s: Store, tid: U64, n: nat, cur: Addr, doc: Doc, uid: Bytes)
    requires TableOk(s, tid, n, cur) && |doc| == n && uid != doc[0] && ReadAlike(r, s, tid, uid)
    ensures ReadAlike(r, Apply(s, DocOps(s, tid, cur, doc)), tid, uid)
  {
    hide Apply, DocOps, DocGet, TableOk, PlanFor, Complete, Added, Reads;
    assert cur.id < SEGMENT_SIZE && 1 <= n <= 255 by { CursorInSegment(s, tid, n, cur); }
    var t := Apply(s, DocOps(s, tid, cur, doc));
    AddedByOps(s, s, tid, cur, doc);
    AddedUid(s, s, t, tid, cur, doc, uid);
    if UidKey(tid, uid) in s {
      ReadsItself(s, tid, n, cur);
      OtherStays(s, s, t, tid, n, cur, doc, uid);
    }
  }

  lemma CursorInSegment(s: Store, tid: U64, n: nat, cur: Addr)
    requires TableOk(s, tid, n, cur)
    ensures cur.id < SEGMENT_SIZE && 1 <= n <= 255
  {
  }

  /** The operations of one document, looked up in `r`, on a store in order. */
  lemma StepStore(r: Store, s: Store, tid: U64, n: nat, cur: Addr, doc: Doc)
    requires TableOk(s, tid, n, cur) && Reads(r, s, tid, cur) && |doc| == n && Room(cur)
    ensures cur.id < SEGMENT_SIZE && 1 <= n <= 255
    ensures var t, next := Apply(s, DocOps(r, tid, cur, doc)), NewCursor(cur, PlanFor(r, tid, cur, doc[0]));
            TableOk(t, tid, n, next) && Reads(r, t, tid, next) && cur.sid <= next.sid <= cur.sid + 1
  {
    hide Apply, DocOps, Added, TableOk, PlanFor, Reads;
    CursorInSegment(s, tid, n, cur);
    AddedByOps(r, s, tid, cur, doc);
    AddedTableOk(r, s, Apply(s, DocOps(r, tid, cur, doc)), tid, n, cur, doc);
    ReadsStep(r, s, Apply(s, DocOps(r, tid, cur, doc)), tid, cur, doc);
  }

  lemma NextStore(s: Store, tid: U64, n: nat, cur: Addr, doc: Doc)
    requires TableOk(s, tid, n, cur) && |doc| == n && Room(cur)
    ensures cur.id < SEGMENT_SIZE && 1 <= n <= 255
    ensures TableOk(Apply(s, DocOps(s, tid, cur, doc)), tid, n, NewCursor(cur, PlanFor(s, tid, cur, doc[0])))
    ensures NewCursor(cur, PlanFor(s, tid, cur, doc[0])).sid <= cur.sid + 1
  {
    hide TableOk, Reads, Apply, DocOps, PlanFor, NewCursor;
    ReadsItself(s, tid, n, cur);
    StepStore(s, s, tid, n, cur, doc);
  }

  lemma {:induction false} BatchOkFrom(r: Store, s: Store, tid: U64, cur: Addr, docs: seq<Doc>, n: nat)
    requires TableOk(s, tid, n, cur) && Reads(r, s, tid, cur) && Whole(docs, n)
    requires cur.id < SEGMENT_SIZE && cur.sid + |docs| < 0x1_0000_0000_0000_0000
    ensures var b := BatchOps(r, tid, cur, docs, n);
            TableOk(Apply(s, b.ops), tid, n, b.cur) && b.cur.sid <= cur.sid + |docs|
    decreases |docs|
  {
    hide DocOps, TableOk, PlanFor, NewCursor, Rolls, Apply, Reads;
    if docs == [] {
      ApplyNone(s);
    } else {
      var next := NewCursor(cur, PlanFor(r, tid, cur, docs[0][0]));
      StepStore(r, s, tid, n, cur, docs[0]);
      BatchOkFrom(r, Apply(s, DocOps(r, tid, cur, docs[0])), tid, next, docs[1..], n);
      ApplyConcat(s, DocOps(r, tid, cur, docs[0]), BatchOps(r, tid, next, docs[1..], n).ops);
    }
  }

  /** Every batch keeps its table in order, whatever uids occur in it and how often. */
  lemma BatchOk(s: Store, tid: U64, cur: Addr, docs: seq<Doc>, n: nat)
    requires TableOk(s, tid, n, cur) && Whole(docs, n)
    requires cur.id < SEGMENT_SIZE && cur.sid + |docs| < 0x1_0000_0000_0000_0000
    ensures var b := BatchOps(s, tid, cur, docs, n);
            TableOk(Apply(s, b.ops), tid, n, b.cur) && b.cur.sid <= cur.sid + |docs|
  {
    hide TableOk;
    ReadsItself(s, tid, n, cur);
    BatchOkFrom(s, s, tid, cur, docs, n);
  }

  lemma {:induction false} BatchFrom(r: Store, s: Store, tid: U64, cur: Addr, docs: seq<Doc>, n: nat)
    requires TableOk(s, tid, n, cur) && Whole(docs, n) && DistinctUids(docs)
    requires cur.id < SEGMENT_SIZE && cur.sid + |docs| < 0x1_0000_0000_0000_0000
    requires forall i :: 0 <= i < |docs| ==> ReadAlike(r, s, tid, docs[i][0])
    ensures var b, e := BatchOps(r, tid, cur, docs, n), AddEach(s, tid, cur, docs, n);
            Apply(s, b.ops) == e.store && b.cur == e.cur && b.rolled == e.rolled
    decreases |docs|
  {
    hide DocOps, TableOk, PlanFor, ReadAlike, NewCursor, Rolls;
    if docs != [] {
      var doc := docs[0];
      DocOpsAlike(r, s, tid, cur, doc);
      NextStore(s, tid, n, cur, doc);
      var cur' := NewCursor(cur, PlanFor(s, tid, cur, doc[0]));
      var s' := Apply(s, DocOps(s, tid, cur, doc));
      forall i | 0 <= i < |docs[1..]|
        ensures ReadAlike(r, s', tid, docs[1..][i][0])
      {
        assert docs[1..][i] == docs[i + 1] && ReadAlike(r, s, tid, docs[i + 1][0]);
        ReadAlikeAfter(r, s, tid, n, cur, doc, docs[i + 1][0]);
      }
      BatchFrom(r, s', tid, cur', docs[1..], n);
      ApplyConcat(s, DocOps(s, tid, cur, doc), BatchOps(r, tid, cur', docs[1..], n).ops);
    }
  }

  /** AddDocs leaves exactly the store, the cursor and the segment flag of adding the documents
      one by one, although none of its reads sees the pending batch. */
  lemma BatchIsSequential(s: Store, tid: U64, cur: Addr, docs: seq<Doc>, n: nat)
    requires TableOk(s, tid, n, cur) && Whole(docs, n) && DistinctUids(docs)
    requires cur.id < SEGMENT_SIZE && cur.sid + |docs| < 0x1_0000_0000_0000_0000
    ensures var b, e := BatchOps(s, tid, cur, docs, n), AddEach(s, tid, cur, docs, n);
            Apply(s, b.ops) == e.store && b.cur == e.cur && b.rolled == e.rolled
  {
    BatchFrom(s, s, tid, cur, docs, n);
  }

  // ---- The index over a sequence of additions ----

  /** Index and records agree before, between and after the additions. */
  ghost predicate AlwaysExact(s: Store, tid: U64, cur: Addr, docs: seq<Doc>, n: nat)
    requires cur.id < SEGMENT_SIZE && Whole(docs, n)
    decreases |docs|
  {
    && Exact(s, tid)
    && (docs != [] ==>
          AlwaysExact(Apply(s, DocOps(s, tid, cur, docs[0])), tid,
                      NewCursor(cur, PlanFor(s, tid, cur, docs[0][0])), docs[1..], n))
  }

  /** Some document is re-added in its current segment with a changed value. */
  ghost predicate SomeChange(s: Store, tid: U64, cur: Addr, docs: seq<Doc>, n: nat)
    requires cur.id < SEGMENT_SIZE && Whole(docs, n)
    decreases |docs|
  {
    docs != [] &&
      (|| ChangesInPlace(s, tid, cur, docs[0])
       || SomeChange(Apply(s, DocOps(s, tid, cur, docs[0])), tid,
                     NewCursor(cur, PlanFor(s, tid, cur, docs[0][0])), docs[1..], n))
  }

  /** Starting from agreement, index and records agree throughout if and only if no document is
      re-added in its current segment with a changed value. */
  lemma {:induction false} AlwaysExactIff(s: Store, tid: U64, cur: Addr, docs: seq<Doc>, n: nat)
    requires TableOk(s, tid, n, cur) && Whole(docs, n) && Exact(s, tid)
    requires cur.id < SEGMENT_SIZE && cur.sid + |docs| < 0x1_0000_0000_0000_0000
    ensures AlwaysExact(s, tid, cur, docs, n) <==> !SomeChange(s, tid, cur, docs, n)
    decreases |docs|
  {
    hide DocOps, TableOk, PlanFor, NewCursor, Apply, Exact, ChangesInPlace, Added, Reads, StillThere, SameThere;
    if docs != [] {
      var t := Apply(s, DocOps(s, tid, cur, docs[0]));
      NextStore(s, tid, n, cur, docs[0]);
      AddedByOps(s, s, tid, cur, docs[0]);
      ItselfThere(s, tid, n, cur, docs[0][0]);
      ExactIff(s, s, t, tid, n, cur, docs[0]);
      if Exact(t, tid) {
        AlwaysExactIff(t, tid, NewCursor(cur, PlanFor(s, tid, cur, docs[0][0])), docs[1..], n);
      }
    }
  }

  lemma SingleUnfold(r: Store, s: Store, tid: U64, cur: Addr, e: Doc, n: nat)
    requires cur.id < SEGMENT_SIZE && 1 <= n <= 255 && |e| == n
    ensures AddEach(s, tid, cur, [e], n).store == Apply(s, DocOps(s, tid, cur, e))
    ensures AddEach(s, tid, cur, [e], n).cur == NewCursor(cur, PlanFor(s, tid, cur, e[0]))
    ensures BatchOps(r, tid, cur, [e], n).ops == DocOps(r, tid, cur, e)
    ensures BatchOps(r, tid, cur, [e], n).cur == NewCursor(cur, PlanFor(r, tid, cur, e[0]))
  {
    hide DocOps, PlanFor, NewCursor, Apply, Rolls;
    assert [e][1..] == [];
    var b := DocOps(r, tid, cur, e);
    assert b + [] == b;
  }
}
