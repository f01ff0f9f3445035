/** What the rocksdb_lab database is to its callers: for each table a map from uids to documents.
    Every run of CreateTable, AddDoc and AddDocs (rocksdb_lab/rocksdb_impl.cpp:526-835) does to the
    records what it would do to those maps, and answers as they say. */
module DocContents {
  import opened ByteStrings
  import opened Options
  import opened StoreKeys
  import opened DocStore
  import opened DocInvariants
  import opened DocBatch
  import opened DocRepeats
  import opened DocDatabase
  import S = DocSchema

  type Documents = map<Bytes, Doc>

  /** The documents with those of a batch put in, the later ones over the earlier ones. */
  function With(m: Documents, docs: seq<Doc>): Documents
    decreases |docs|
  {
    if docs == [] then m
    else With(if docs[0] == [] then m else m[docs[0][0] := docs[0]], docs[1..])
  }

  /** The table's records are those of the documents `m`: each uid is mapped exactly if it is
      in `m`, and every field of its document is stored. */
  ghost predicate Holds(s: Store, tid: U64, m: Documents, n: nat) {
    && 1 <= n <= 255
    && (forall uid :: UidKey(tid, uid) in s <==> uid in m)
    && (forall uid :: uid in m ==> HoldsDoc(s, tid, uid, m[uid], n))
  }

  ghost predicate HoldsDoc(s: Store, tid: U64, uid: Bytes, doc: Doc, n: nat)
    requires 1 <= n <= 255
  {
    |doc| == n && doc[0] == uid && Stored(s, tid, doc)
  }

  // ---- One table ----

  lemma OwnStored(r: Store, s: Store, t: Store, tid: U64, cur: Addr, doc: Doc)
    requires cur.id < SEGMENT_SIZE && 1 <= |doc| <= 255 && Added(r, s, t, tid, cur, doc)
    ensures Stored(t, tid, doc)
  {
    hide Added, PlanFor;
    AddedUid(r, s, t, tid, cur, doc, doc[0]);
    forall f: Byte | f < |doc|
      ensures Get(t, ValueKey(tid, PlanFor(r, tid, cur, doc[0]).addr, f)) == Some(Raw(doc[f]))
    {
      OwnValue(r, s, t, tid, cur, doc, f);
    }
  }

  lemma OtherStored(r: Store, s: Store, t: Store, tid: U64, n: nat, cur: Addr, doc: Doc, other: Doc)
    requires TableOk(s, tid, n, cur) && Reads(r, s, tid, cur) && |doc| == n && Added(r, s, t, tid, cur, doc)
    requires |other| == n && other[0] != doc[0] && Stored(s, tid, other)
    ensures Stored(t, tid, other)
  {
    OtherStays(r, s, t, tid, n, cur, doc, other[0]);
    hide TableOk, Reads, Added;
    var a := s[UidKey(tid, other[0])].addr;
    forall f: Byte | f < n
      ensures Get(t, ValueKey(tid, a, f)) == Some(Raw(other[f]))
    {
      assert Get(t, ValueKey(tid, a, f)) == Get(s, ValueKey(tid, a, f));
    }
  }

  lemma AddedHolds(r: Store, s: Store, t: Store, tid: U64, n: nat, cur: Addr, doc: Doc, m: Documents)
    requires TableOk(s, tid, n, cur) && Reads(r, s, tid, cur) && |doc| == n && Added(r, s, t, tid, cur, doc)
    requires Holds(s, tid, m, n)
    ensures Holds(t, tid, m[doc[0] := doc], n)
  {
    hide TableOk, Reads, Added, Stored, PlanFor;
    CursorInSegment(s, tid, n, cur);
    OwnStored(r, s, t, tid, cur, doc);
    var m' := m[doc[0] := doc];
    forall uid
      ensures UidKey(tid, uid) in t <==> uid in m'
    {
      AddedUid(r, s, t, tid, cur, doc, uid);
    }
    forall uid | uid in m'
      ensures HoldsDoc(t, tid, uid, m'[uid], n)
    {
      if uid != doc[0] {
        assert HoldsDoc(s, tid, uid, m[uid], n);
        OtherStored(r, s, t, tid, n, cur, doc, m[uid]);
      }
    }
  }

  lemma {:induction false} BatchHoldsFrom(r: Store, s: Store, tid: U64, cur: Addr, docs: seq<Doc>, n: nat, m: Documents)
    requires TableOk(s, tid, n, cur) && Reads(r, s, tid, cur) && Whole(docs, n) && Holds(s, tid, m, n)
    requires cur.id < SEGMENT_SIZE && cur.sid + |docs| < 0x1_0000_0000_0000_0000
    ensures Holds(Apply(s, BatchOps(r, tid, cur, docs, n).ops), tid, With(m, docs), n)
    decreases |docs|
  {
    hide DocOps, TableOk, PlanFor, NewCursor, Rolls, Apply, Reads, Holds, Added;
    if docs == [] {
      ApplyNone(s);
    } else {
      var next := NewCursor(cur, PlanFor(r, tid, cur, docs[0][0]));
      var t := Apply(s, DocOps(r, tid, cur, docs[0]));
      AddedByOps(r, s, tid, cur, docs[0]);
      StepStore(r, s, tid, n, cur, docs[0]);
      AddedHolds(r, s, t, tid, n, cur, docs[0], m);
      BatchHoldsFrom(r, t, tid, next, docs[1..], n, m[docs[0][0] := docs[0]]);
      ApplyConcat(s, DocOps(r, tid, cur, docs[0]), BatchOps(r, tid, next, docs[1..], n).ops);
    }
  }

  /** A batch puts its documents in: afterwards the table holds the last version of each uid in it,
      whole, and all other documents as they were. */
  lemma BatchHolds(s: Store, tid: U64, cur: Addr, docs: seq<Doc>, n: nat, m: Documents)
    requires TableOk(s, tid, n, cur) && Whole(docs, n) && Holds(s, tid, m, n)
    requires cur.id < SEGMENT_SIZE && cur.sid + |docs| < 0x1_0000_0000_0000_0000
    ensures Holds(Apply(s, BatchOps(s, tid, cur, docs, n).ops), tid, With(m, docs), n)
  {
    hide TableOk, Holds, Apply, BatchOps;
    ReadsItself(s, tid, n, cur);
    BatchHoldsFrom(s, s, tid, cur, docs, n, m);
  }

  /** The last version wins, and what the batch does not name stays. */
  lemma {:induction false} WithLast(m: Documents, docs: seq<Doc>, uid: Bytes)
    requires forall k :: 0 <= k < |docs| ==> |docs[k]| > 0
    ensures match Last(docs, uid)
            case None => (uid in With(m, docs) <==> uid in m) && (uid in m ==> With(m, docs)[uid] == m[uid])
            case Some(j) => uid in With(m, docs) && With(m, docs)[uid] == docs[j]
    decreases |docs|
  {
    hide Last;
    if docs != [] {
      var m1 := m[docs[0][0] := docs[0]];
      WithLast(m1, docs[1..], uid);
      var j, l := Last(docs[1..], uid), Last(docs, uid);
      assert forall i :: 0 < i < |docs| ==> docs[i] == docs[1..][i - 1];
      assert l.Some? && l.value > 0 ==> docs[1..][l.value - 1][0] == uid;
      assert j.Some? ==> docs[j.value + 1][0] == uid;
    }
  }

  // ---- The whole database ----

  datatype Table = Table(schema: Schema, docs: Documents)

  type Tables = map<Bytes, Table>

  /** The tables with their documents are `c`. */
  ghost predicate Represents(db: DB, c: Tables) {
    && c.Keys == db.cache.tids.Keys
    && forall name :: name in c ==> RepresentsTable(db, name, c[name])
  }

  ghost predicate RepresentsTable(db: DB, name: Bytes, table: Table) {
    && name in db.cache.tids && name in db.cache.schemas && db.cache.schemas[name] == table.schema
    && Holds(db.store, db.cache.tids[name], table.docs, |table.schema|)
  }

  /** What a command does to the tables, and what it answers. */
  function Told(c: Tables, cmd: Command): (Tables, Status) {
    match cmd
    case CreateTableCmd(name, schema, built) =>
      if name in c then (c, OK) else if !built then (c, InvalidArgument) else (c[name := Table(schema, map[])], OK)
    case AddDocCmd(name, doc, built) =>
      if name !in c then (c, NotFound) else if !built then (c, InvalidArgument) else (Put(c, name, [doc]), OK)
    case AddDocsCmd(name, docs) => if name !in c then (c, NotFound) else (Put(c, name, docs), OK)
  }

  function Put(c: Tables, name: Bytes, docs: seq<Doc>): Tables
    requires name in c
  {
    c[name := c[name].(docs := With(c[name].docs, docs))]
  }

  /** The status of a command on the database. */
  ghost function Answer(db: DB, cmd: Command): Status
    requires Allowed(db, cmd)
  {
    match cmd
    case CreateTableCmd(name, schema, built) => CreateTable(db, name, schema, built).1
    case AddDocCmd(name, doc, built) => AddDoc(db, name, doc, built).1
    case AddDocsCmd(name, docs) => AddDocs(db, name, docs).1
  }

  lemma HoldsFrame(s: Store, t: Store, tid: U64, m: Documents, n: nat)
    requires Holds(s, tid, m, n) && SameFor(s, t, tid)
    ensures Holds(t, tid, m, n)
  {
    hide SameFor, Stored;
    forall uid
      ensures UidKey(tid, uid) in t <==> uid in m
    {
      SameUid(s, t, tid, uid);
    }
    forall uid | uid in m
      ensures HoldsDoc(t, tid, uid, m[uid], n)
    {
      assert HoldsDoc(s, tid, uid, m[uid], n);
      StoredFrame(s, t, tid, m[uid]);
    }
  }

  lemma StoredFrame(s: Store, t: Store, tid: U64, doc: Doc)
    requires SameFor(s, t, tid) && 0 < |doc| <= 255 && Stored(s, tid, doc)
    ensures Stored(t, tid, doc)
  {
    hide SameFor;
    SameUid(s, t, tid, doc[0]);
    forall f: Byte | f < |doc|
      ensures Get(t, ValueKey(tid, Where(s, tid, doc[0]).value, f)) == Some(Raw(doc[f]))
    {
      SameValue(s, t, tid, Where(s, tid, doc[0]).value, f);
    }
  }

  lemma KnownIff(db: DB, name: Bytes)
    requires NamesOk(db) && SchemasOk(db) && TablesOk(db)
    ensures Known(db.cache, name) <==> name in db.cache.tids
    ensures name in db.cache.schemas <==> name in db.cache.tids
    ensures TableKey(name) in db.store <==> name in db.cache.tids
  {
    hide TableOk, S.Sorted, S.Storable, S.SchemaBytes;
    assert Get(db.store, TableKey(name)) == if name in db.cache.tids then Some(Num(db.cache.tids[name])) else None;
  }

  lemma DistinctIds(db: DB, name: Bytes, other: Bytes)
    requires NamesOk(db) && name in db.cache.tids && other in db.cache.tids && other != name
    ensures db.cache.tids[other] != db.cache.tids[name]
  {
  }

  lemma AddDocsTold(db: DB, c: Tables, name: Bytes, docs: seq<Doc>)
    requires DbOk(db) && Represents(db, c) && Fits(db, name, docs)
    requires Known(db.cache, name) ==>
               CacheCursor(db.cache, db.cache.tids[name]).sid + |docs| < 0x1_0000_0000_0000_0000
    ensures AddDocs(db, name, docs).1 == if name in c then OK else NotFound
    ensures Represents(AddDocs(db, name, docs).0, if name in c then Put(c, name, docs) else c)
  {
    hide NamesOk, SchemasOk, TablesOk, NoStrays, BatchOps, Apply, RepresentsTable, With, TableOk, Advanced;
    KnownIff(db, name);
    if name in c {
      AddDocsOwn(db, c, name, docs);
      AddDocsAdvances(db, name, docs);
      AddDocsStore(db, name, docs);
      var to, c' := AddDocs(db, name, docs).0, Put(c, name, docs);
      var tid := db.cache.tids[name];
      var cur := BatchOps(db.store, tid, CacheCursor(db.cache, tid), docs, |db.cache.schemas[name]|).cur;
      forall other | other in c'
        ensures RepresentsTable(to, other, c'[other])
      {
        if other != name {
          OtherAdvanced(db, to, c, name, other, cur);
        }
      }
    }
  }

  lemma AddDocsOwn(db: DB, c: Tables, name: Bytes, docs: seq<Doc>)
    requires DbOk(db) && Represents(db, c) && Fits(db, name, docs) && name in c && Known(db.cache, name)
    requires CacheCursor(db.cache, db.cache.tids[name]).sid + |docs| < 0x1_0000_0000_0000_0000
    ensures RepresentsTable(AddDocs(db, name, docs).0, name, Put(c, name, docs)[name])
  {
    assert RepresentsTable(db, name, c[name]);
    hide DbOk, BatchOps, Apply, TableOk, Holds, With;
    AddDocsStore(db, name, docs);
    var tid, n := db.cache.tids[name], |db.cache.schemas[name]|;
    BatchHolds(db.store, tid, CacheCursor(db.cache, tid), docs, n, c[name].docs);
  }

  lemma OtherAdvanced(db: DB, to: DB, c: Tables, name: Bytes, other: Bytes, cur: Addr)
    requires NamesOk(db) && Represents(db, c) && other in c && other != name && name in db.cache.tids
    requires Advanced(db, to, db.cache.tids[name], cur)
    ensures RepresentsTable(to, other, c[other])
  {
    assert RepresentsTable(db, other, c[other]);
    DistinctIds(db, name, other);
    hide NamesOk, Holds, SameFor;
    AdvancedSameFor(db, to, db.cache.tids[name], cur, db.cache.tids[other]);
    HoldsFrame(db.store, to.store, db.cache.tids[other], c[other].docs, |c[other].schema|);
  }

  lemma AdvancedSameFor(db: DB, to: DB, tid: U64, cur: Addr, t: U64)
    requires Advanced(db, to, tid, cur) && t != tid
    ensures SameFor(db.store, to.store, t)
  {
  }

  lemma FreshHolds(s: Store, tid: U64, n: nat)
    requires FreshIn(s, tid) && 1 <= n <= 255
    ensures Holds(s, tid, map[], n)
  {
    assert forall uid :: KeyTid(UidKey(tid, uid)) == Some(tid);
  }

  lemma CreateTold(db: DB, c: Tables, name: Bytes, schema: Schema, built: bool)
    requires DbOk(db) && Represents(db, c) && 1 <= |schema| <= 255
    ensures CreateTable(db, name, schema, built).1 == Told(c, CreateTableCmd(name, schema, built)).1
    ensures Represents(CreateTable(db, name, schema, built).0, Told(c, CreateTableCmd(name, schema, built)).0)
  {
    hide NamesOk, SchemasOk, TablesOk, NoStrays, TableOps, Apply, RepresentsTable, CacheWithTable, Created;
    KnownIff(db, name);
    if name !in c && built {
      CreateTableCreates(db, name, schema);
      var to, c' := CreateTable(db, name, schema, built).0, c[name := Table(schema, map[])];
      CreatedHolds(db, to, name, schema);
      forall other | other in c
        ensures RepresentsTable(to, other, c[other])
      {
        OtherCreated(db, to, c, name, schema, other);
      }
      CreatedTids(db, to, name, schema);
      assert c'.Keys == c.Keys + {name};
    }
  }

  lemma CreatedTids(db: DB, to: DB, name: Bytes, schema: Schema)
    requires Created(db, to, name, schema)
    ensures to.cache.tids.Keys == db.cache.tids.Keys + {name}
  {
  }

  lemma CreatedHolds(db: DB, to: DB, name: Bytes, schema: Schema)
    requires DbOk(db) && Created(db, to, name, schema) && 1 <= |schema| <= 255
    ensures RepresentsTable(to, name, Table(schema, map[]))
  {
    NextUnused(db);
    hide DbOk, FreshIn, Holds, S.SchemaBytes, Get;
    FreshKeys(db, to, name, schema);
    FreshHolds(to.store, db.cache.next, |schema|);
  }

  lemma OtherCreated(db: DB, to: DB, c: Tables, name: Bytes, schema: Schema, other: Bytes)
    requires NamesOk(db) && Represents(db, c) && other in c && other != name && Created(db, to, name, schema)
    ensures RepresentsTable(to, other, c[other])
  {
    assert RepresentsTable(db, other, c[other]);
    assert db.cache.tids[other] < db.cache.next;
    hide NamesOk, Holds, SameFor, S.SchemaBytes, Get;
    CreatedSameFor(db, to, name, schema, db.cache.tids[other]);
    HoldsFrame(db.store, to.store, db.cache.tids[other], c[other].docs, |c[other].schema|);
  }

  /** A command does to the database what it does to the tables, and answers the same. */
  lemma CommandTold(db: DB, c: Tables, cmd: Command, most: nat)
    requires DbOk(db) && Represents(db, c) && Allowed(db, cmd)
    requires Within(db, most) && most + Cost(cmd) < 0x1_0000_0000_0000_0000
    ensures Represents(Do(db, cmd), Told(c, cmd).0) && Answer(db, cmd) == Told(c, cmd).1
  {
    KnownParts(db, c, cmd.name);
    hide DbOk, Represents, CreateTable, AddDocs, With, S.Sorted;
    match cmd
    case CreateTableCmd(name, schema, built) => CreateTold(db, c, name, schema, built);
    case AddDocCmd(name, doc, built) =>
      if name in c && built {
        AddDocsTold(db, c, name, [doc]);
      }
    case AddDocsCmd(name, docs) => AddDocsTold(db, c, name, docs);
  }

  lemma KnownParts(db: DB, c: Tables, name: Bytes)
    requires DbOk(db) && Represents(db, c)
    ensures name in db.cache.schemas <==> name in c
  {
    KnownIff(db, name);
  }

  /** What the commands of a run make of no tables at all. */
  function Contents(cmds: seq<Command>): Tables {
    if cmds == [] then map[] else Told(Contents(cmds[..|cmds| - 1]), cmds[|cmds| - 1]).0
  }

  /** In every state of every run the database holds exactly the documents that a map from uids to
      documents for each table would: the last version added of each, with all its fields, and no
      other uid. And every command answers what it would answer on those maps: OK if the table
      exists or now does, NotFound for a table that was never created, InvalidArgument for what is
      not built. */
  lemma {:induction false} RunRefinesTables(dbs: seq<DB>, cmds: seq<Command>, i: nat)
    requires IsRun(dbs, cmds) && i <= |cmds| && TotalCost(cmds[..i]) < 0x1_0000_0000_0000_0000
    ensures Represents(dbs[i], Contents(cmds[..i]))
    ensures forall j :: 0 <= j < i ==> Allowed(dbs[j], cmds[j])
    ensures forall j :: 0 <= j < i ==> Answer(dbs[j], cmds[j]) == Told(Contents(cmds[..j]), cmds[j]).1
    decreases i
  {
    hide DbOk, Do, Allowed, Cost, Within, Represents, Told, Answer;
    if i == 0 {
      EmptyTables();
    } else {
      assert cmds[..i][..i - 1] == cmds[..i - 1];
      RunRefinesTables(dbs, cmds, i - 1);
      RunOk(dbs, cmds, i - 1);
      assert dbs[i - 1 + 1] == Do(dbs[i - 1], cmds[i - 1]);
      CommandTold(dbs[i - 1], Contents(cmds[..i - 1]), cmds[i - 1], TotalCost(cmds[..i - 1]));
    }
  }

  lemma EmptyTables()
    ensures Represents(EmptyDB(), map[])
  {
  }
}
