/** AddDocs against AddDoc on the whole database, store and cache
    (rocksdb_lab/rocksdb_impl.cpp:526-753). */
module DocSequential {
  import opened ByteStrings
  import opened StoreKeys
  import opened DocStore
  import opened DocInvariants
  import opened DocBatch
  import opened DocRepeats
  import opened DocDatabase

  /** Calling AddDoc for each document in turn leads from `db` to `to`. */
  ghost predicate OneByOne(db: DB, name: Bytes, docs: seq<Doc>, to: DB)
    decreases |docs|
  {
    if docs == [] then to == db
    else Fits(db, name, [docs[0]]) && OneByOne(AddDoc(db, name, docs[0], true).0, name, docs[1..], to)
  }

  lemma {:induction false} OneByOneUnique(db: DB, name: Bytes, docs: seq<Doc>, x: DB, y: DB)
    requires OneByOne(db, name, docs, x) && OneByOne(db, name, docs, y)
    ensures x == y
    decreases |docs|
  {
    hide Fits, AddDoc;
    if docs != [] {
      OneByOneUnique(AddDoc(db, name, docs[0], true).0, name, docs[1..], x, y);
    }
  }

  /** The batch can be added: the table is known, the documents are whole and the segment
      numbers do not run out. */
  ghost predicate CanAdd(db: DB, name: Bytes, docs: seq<Doc>) {
    && DbOk(db) && Known(db.cache, name) && Whole(docs, |db.cache.schemas[name]|)
    && CursorOf(db, name).id < SEGMENT_SIZE && CursorOf(db, name).sid + |docs| < 0x1_0000_0000_0000_0000
  }

  function CursorOf(db: DB, name: Bytes): Addr
    requires Known(db.cache, name)
  {
    CacheCursor(db.cache, db.cache.tids[name])
  }

  /** The additions one by one, on the records of the table. */
  ghost function Each(db: DB, name: Bytes, docs: seq<Doc>): (e: Result)
    requires CanAdd(db, name, docs)
    ensures e.cur.id < SEGMENT_SIZE
  {
    AddEach(db.store, db.cache.tids[name], CursorOf(db, name), docs, |db.cache.schemas[name]|)
  }

  ghost function Batched(db: DB, name: Bytes, docs: seq<Doc>): Batch
    requires CanAdd(db, name, docs)
  {
    BatchOps(db.store, db.cache.tids[name], CursorOf(db, name), docs, |db.cache.schemas[name]|)
  }

  /** The database with another store, in which one table's cursor has moved. */
  function Moved(db: DB, store: Store, tid: U64, cur: Addr): DB {
    DB(store, db.cache.(segs := db.cache.segs[tid := cur.sid], offs := db.cache.offs[tid := cur.id]))
  }

  ghost function EachDB(db: DB, name: Bytes, docs: seq<Doc>): DB
    requires CanAdd(db, name, docs)
  {
    Moved(db, Each(db, name, docs).store, db.cache.tids[name], Each(db, name, docs).cur)
  }

  lemma AddDocsMoves(db: DB, name: Bytes, docs: seq<Doc>)
    requires CanAdd(db, name, docs) && Fits(db, name, docs)
    ensures var b := Batched(db, name, docs);
            AddDocs(db, name, docs).0 == Moved(db, Apply(db.store, b.ops), db.cache.tids[name], b.cur)
  {
    hide DbOk, BatchOps, Apply;
    BatchSegment(db.store, db.cache.tids[name], CursorOf(db, name), docs, |db.cache.schemas[name]|);
    CacheMoves(db.cache, db.cache.tids[name], Batched(db, name, docs).cur, Batched(db, name, docs).rolled);
  }

  /** What is known about a table's place in the cache. */
  lemma KnownCursor(db: DB, name: Bytes)
    requires DbOk(db) && Known(db.cache, name)
    ensures var c := db.cache;
            var tid := c.tids[name];
            && tid in c.offs && CursorOf(db, name) == Addr(c.segs[tid], c.offs[tid])
            && TableOk(db.store, tid, |c.schemas[name]|, CursorOf(db, name))
            && Moved(db, db.store, tid, CursorOf(db, name)) == db
  {
    hide TableOk, NoStrays;
    var c := db.cache;
    var tid := c.tids[name];
    assert c.segs[tid := c.segs[tid]] == c.segs && c.offs[tid := c.offs[tid]] == c.offs;
    assert TableOk(db.store, tid, |c.schemas[name]|, Addr(c.segs[tid], c.offs[tid]));
  }

  /** One document: the batch is the addition. */
  lemma SingleAdded(db: DB, name: Bytes, doc: Doc)
    requires CanAdd(db, name, [doc])
    ensures Fits(db, name, [doc]) && AddDoc(db, name, doc, true).0 == EachDB(db, name, [doc])
    ensures DbOk(EachDB(db, name, [doc])) && Each(db, name, [doc]).cur.sid <= CursorOf(db, name).sid + 1
  {
    hide DbOk, AddEach, BatchOps, DocOps, Apply, AddDocs, TableOk;
    var c, n := db.cache, |db.cache.schemas[name]|;
    assert [doc][0] == doc;
    SingleUnfold(db.store, db.store, c.tids[name], CursorOf(db, name), doc, n);
    AddDocsMoves(db, name, [doc]);
    AddDocsStore(db, name, [doc]);
    AddDocsOk(db, name, [doc]);
  }

  lemma WholeRest(docs: seq<Doc>, n: nat)
    requires docs != [] && Whole(docs, n)
    ensures Whole([docs[0]], n) && Whole(docs[1..], n)
  {
  }

  /** After the first document the rest can be added. */
  lemma RestCanBeAdded(db: DB, name: Bytes, docs: seq<Doc>)
    requires CanAdd(db, name, docs) && docs != []
    ensures CanAdd(db, name, [docs[0]]) && CanAdd(EachDB(db, name, [docs[0]]), name, docs[1..])
    ensures CursorOf(EachDB(db, name, [docs[0]]), name) == Each(db, name, [docs[0]]).cur
  {
    hide DbOk, AddDoc, Fits, Each;
    WholeRest(docs, |db.cache.schemas[name]|);
    hide Whole;
    SingleAdded(db, name, docs[0]);
  }

  lemma EachStep(db: DB, name: Bytes, docs: seq<Doc>)
    requires CanAdd(db, name, docs) && docs != [] && CanAdd(db, name, [docs[0]])
    requires CanAdd(EachDB(db, name, [docs[0]]), name, docs[1..])
    requires CursorOf(EachDB(db, name, [docs[0]]), name) == Each(db, name, [docs[0]]).cur
    ensures EachDB(EachDB(db, name, [docs[0]]), name, docs[1..]) == EachDB(db, name, docs)
  {
    hide DbOk, DocOps, PlanFor, NewCursor, Apply, Rolls;
    var c, tid := db.cache, db.cache.tids[name];
    SingleUnfold(db.store, db.store, tid, CursorOf(db, name), docs[0], |c.schemas[name]|);
    var e1, e := Each(db, name, [docs[0]]), Each(db, name, docs);
    assert c.segs[tid := e1.cur.sid][tid := e.cur.sid] == c.segs[tid := e.cur.sid];
    assert c.offs[tid := e1.cur.id][tid := e.cur.id] == c.offs[tid := e.cur.id];
  }

  lemma {:induction false} EachIsOneByOne(db: DB, name: Bytes, docs: seq<Doc>)
    requires CanAdd(db, name, docs)
    ensures OneByOne(db, name, docs, EachDB(db, name, docs))
    decreases |docs|
  {
    hide CanAdd, AddDoc, EachDB, Each, Fits, CursorOf;
    if docs == [] {
      NothingAdded(db, name);
    } else {
      RestCanBeAdded(db, name, docs);
      SingleAdded(db, name, docs[0]);
      EachIsOneByOne(EachDB(db, name, [docs[0]]), name, docs[1..]);
      EachStep(db, name, docs);
    }
  }

  lemma NothingAdded(db: DB, name: Bytes)
    requires CanAdd(db, name, [])
    ensures EachDB(db, name, []) == db
  {
    hide DbOk, TableOk;
    KnownCursor(db, name);
  }

  /** On the whole database: AddDocs leaves the store and the cache that calling AddDoc on each
      document in turn leaves if and only if the batch's repeated uids satisfy `RepeatsOk`. */
  lemma AddDocsIff(db: DB, name: Bytes, docs: seq<Doc>)
    requires CanAdd(db, name, docs)
    ensures Fits(db, name, docs)
    ensures Whole(docs, |db.cache.schemas[name]|)
    ensures OneByOne(db, name, docs, AddDocs(db, name, docs).0) <==>
              RepeatsOk(db.store, db.cache.tids[name], CursorOf(db, name), docs, 0)
  {
    hide DbOk, TableOk, AddDocs, BatchOps, AddEach, Apply, OneByOne, RepeatsOk, CacheCursor;
    assert Fits(db, name, docs);
    var tid := db.cache.tids[name];
    KnownCursor(db, name);
    BatchIffRepeatsOk(db.store, tid, CursorOf(db, name), docs, |db.cache.schemas[name]|);
    AddDocsMoves(db, name, docs);
    EachIsOneByOne(db, name, docs);
    var b, e := Batched(db, name, docs), Each(db, name, docs);
    MovedInjective(db, Apply(db.store, b.ops), b.cur, e.store, e.cur, tid);
    if OneByOne(db, name, docs, AddDocs(db, name, docs).0) {
      OneByOneUnique(db, name, docs, AddDocs(db, name, docs).0, EachDB(db, name, docs));
    }
  }

  lemma MovedInjective(db: DB, s: Store, a: Addr, t: Store, b: Addr, tid: U64)
    ensures Moved(db, s, tid, a) == Moved(db, t, tid, b) <==> s == t && a == b
  {
    var m, o := db.cache.segs, db.cache.offs;
    assert m[tid := a.sid][tid] == a.sid && m[tid := b.sid][tid] == b.sid;
    assert o[tid := a.id][tid] == a.id && o[tid := b.id][tid] == b.id;
  }

  /** For pairwise distinct uids that is always so, although none of the batch's reads sees the
      pending writes. */
  lemma AddDocsIsOneByOne(db: DB, name: Bytes, docs: seq<Doc>)
    requires CanAdd(db, name, docs) && Whole(docs, |db.cache.schemas[name]|) && DistinctUids(docs)
    ensures Fits(db, name, docs) && OneByOne(db, name, docs, AddDocs(db, name, docs).0)
  {
    hide DbOk, AddDocs, OneByOne, Fits;
    AddDocsIff(db, name, docs);
    forall i | 0 <= i < |docs|
      ensures RepeatOk(db.store, db.cache.tids[name], CursorOf(db, name), docs, i)
    {
      assert forall k :: 0 <= k < i ==> docs[..i][k] == docs[k];
      assert Last(docs[..i], docs[i][0]).None?;
    }
  }
}
