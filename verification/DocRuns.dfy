/** Runs of CreateTable, AddDoc and AddDocs over any number of tables: exactly which of them leave
    every record with an owner, and exactly which leave the index in agreement with the records
    (rocksdb_lab/rocksdb_impl.cpp:526-835). */
module DocRuns {
  import opened ByteStrings
  import opened Options
  import opened StoreKeys
  import opened DocStore
  import opened DocInvariants
  import opened DocBatch
  import opened DocOwners
  import opened DocDatabase
  import S = DocSchema

  /** Records have owners, or the index agrees with them. */
  datatype Matter = Owners | Index

  ghost predicate Tidy(m: Matter, s: Store, tid: U64) { if m.Owners? then Owned(s, tid) else Exact(s, tid) }

  /** What a caller can check of a batch beforehand. */
  predicate Minds(m: Matter, s: Store, tid: U64, cur: Addr, docs: seq<Doc>)
    requires forall k :: 0 <= k < |docs| ==> 0 < |docs[k]| <= 255
  {
    if m.Owners? then LeavesNone(s, tid, cur, docs) else ChangesNone(s, tid, cur, docs)
  }

  ghost predicate AllTidy(m: Matter, db: DB) {
    forall t :: t in db.cache.names ==> Tidy(m, db.store, t)
  }

  predicate MindsTable(m: Matter, db: DB, name: Bytes, docs: seq<Doc>)
    requires Fits(db, name, docs)
  {
    Known(db.cache, name) ==>
      Minds(m, db.store, db.cache.tids[name], CacheCursor(db.cache, db.cache.tids[name]), docs)
  }

  /** The same for a command. */
  predicate MindsCommand(m: Matter, db: DB, cmd: Command)
    requires Allowed(db, cmd)
  {
    match cmd
    case CreateTableCmd(_, _, _) => true
    case AddDocCmd(name, doc, built) => built ==> MindsTable(m, db, name, [doc])
    case AddDocsCmd(name, docs) => MindsTable(m, db, name, docs)
  }

  // ---- One table at a time ----

  lemma BatchTidyIff(m: Matter, s: Store, tid: U64, cur: Addr, docs: seq<Doc>, n: nat)
    requires TableOk(s, tid, n, cur) && Whole(docs, n)
    requires cur.id < SEGMENT_SIZE && cur.sid + |docs| < 0x1_0000_0000_0000_0000
    ensures Tidy(m, Apply(s, BatchOps(s, tid, cur, docs, n).ops), tid) <==>
              Tidy(m, s, tid) && Minds(m, s, tid, cur, docs)
  {
    hide TableOk, BatchOps, Apply, Owned, Exact, LeavesNone, ChangesNone;
    BatchOwnedIff(s, tid, cur, docs, n);
    BatchExactIff(s, tid, cur, docs, n);
  }

  lemma TidyFrame(m: Matter, s: Store, t: Store, tid: U64)
    requires SameFor(s, t, tid) && Tidy(m, s, tid)
    ensures Tidy(m, t, tid)
  {
    hide SameFor;
    if m.Owners? {
      forall a: Addr, f: Byte | ValueKey(tid, a, f) in t
        ensures HasRaw(t, ValueKey(tid, a, 0)) && Maps(t, tid, t[ValueKey(tid, a, 0)].bytes, a)
      {
        SameValue(s, t, tid, a, f);
        SameValue(s, t, tid, a, 0);
        SameUid(s, t, tid, s[ValueKey(tid, a, 0)].bytes);
      }
    } else {
      forall f: Byte, v: Bytes, a: Addr | IndexKey(tid, f, v, a) in t
        ensures Get(t, ValueKey(tid, a, f)) == Some(Raw(v))
      {
        SameIndex(s, t, tid, f, v, a);
        SameValue(s, t, tid, a, f);
      }
    }
  }

  lemma SameForBack(s: Store, t: Store, tid: U64)
    requires SameFor(s, t, tid)
    ensures SameFor(t, s, tid)
  {
  }

  /** Another table is as tidy as before. */
  lemma OthersTidy(m: Matter, s: Store, t: Store, tid: U64)
    requires SameFor(s, t, tid)
    ensures Tidy(m, s, tid) <==> Tidy(m, t, tid)
  {
    hide SameFor, Tidy;
    SameForBack(s, t, tid);
    if Tidy(m, s, tid) {
      TidyFrame(m, s, t, tid);
    } else if Tidy(m, t, tid) {
      TidyFrame(m, t, s, tid);
    }
  }

  lemma FreshTidy(m: Matter, s: Store, tid: U64)
    requires FreshIn(s, tid)
    ensures Tidy(m, s, tid)
  {
    assert forall a: Addr, f: Byte :: KeyTid(ValueKey(tid, a, f)) == Some(tid);
    assert forall f: Byte, v: Bytes, a: Addr :: KeyTid(IndexKey(tid, f, v, a)) == Some(tid);
  }

  // ---- One command ----

  lemma AddDocsTidyIff(m: Matter, db: DB, name: Bytes, docs: seq<Doc>)
    requires DbOk(db) && Fits(db, name, docs)
    requires Known(db.cache, name) ==>
               CacheCursor(db.cache, db.cache.tids[name]).sid + |docs| < 0x1_0000_0000_0000_0000
    ensures AllTidy(m, AddDocs(db, name, docs).0) <==> AllTidy(m, db) && MindsTable(m, db, name, docs)
  {
    hide DbOk, TableOk, BatchOps, Apply, Tidy, Minds, AddDocs;
    if Known(db.cache, name) {
      var c, tid := db.cache, db.cache.tids[name];
      var to := AddDocs(db, name, docs).0;
      AddDocsStore(db, name, docs);
      AddDocsAdvances(db, name, docs);
      BatchTidyIff(m, db.store, tid, CacheCursor(c, tid), docs, |c.schemas[name]|);
      forall t | t != tid
        ensures Tidy(m, db.store, t) <==> Tidy(m, to.store, t)
      {
        assert SameFor(db.store, to.store, t);
        OthersTidy(m, db.store, to.store, t);
      }
    } else {
      UnknownUnchanged(db, name, docs);
    }
  }

  lemma UnknownUnchanged(db: DB, name: Bytes, docs: seq<Doc>)
    requires !Known(db.cache, name)
    ensures AddDocs(db, name, docs).0 == db
  {
  }

  lemma CreatedTidyIff(m: Matter, db: DB, to: DB, name: Bytes, schema: Schema)
    requires NamesOk(db) && NoStrays(db) && Created(db, to, name, schema)
    ensures AllTidy(m, to) <==> AllTidy(m, db)
  {
    hide NamesOk, NoStrays, Created, FreshIn, S.SchemaBytes, Tidy, Get;
    NextUnused(db);
    FreshKeys(db, to, name, schema);
    FreshTidy(m, to.store, db.cache.next);
    CreatedLookups(db, to, name, schema);
    assert to.cache.names.Keys == db.cache.names.Keys + {db.cache.next};
    forall t | t != db.cache.next
      ensures Tidy(m, db.store, t) <==> Tidy(m, to.store, t)
    {
      CreatedSameFor(db, to, name, schema, t);
      OthersTidy(m, db.store, to.store, t);
    }
  }

  lemma CreateTableTidyIff(m: Matter, db: DB, name: Bytes, schema: Schema, built: bool)
    requires DbOk(db)
    ensures AllTidy(m, CreateTable(db, name, schema, built).0) <==> AllTidy(m, db)
  {
    hide NamesOk, NoStrays, SchemasOk, TablesOk, AllTidy, Created, TableOps, Apply;
    if TableKey(name) !in db.store && built {
      CreateTableCreates(db, name, schema);
      CreatedTidyIff(m, db, CreateTable(db, name, schema, built).0, name, schema);
    }
  }

  lemma CommandTidyIff(m: Matter, db: DB, cmd: Command, most: nat)
    requires DbOk(db) && Allowed(db, cmd) && Within(db, most) && most + Cost(cmd) < 0x1_0000_0000_0000_0000
    ensures AllTidy(m, Do(db, cmd)) <==> AllTidy(m, db) && MindsCommand(m, db, cmd)
  {
    hide DbOk, AllTidy, CreateTable, AddDocs, MindsTable;
    match cmd
    case CreateTableCmd(name, schema, built) => CreateTableTidyIff(m, db, name, schema, built);
    case AddDocCmd(name, doc, built) =>
      if name in db.cache.schemas && built {
        AddDocsTidyIff(m, db, name, [doc]);
      } else {
        NothingMinded(m, db, name, doc);
      }
    case AddDocsCmd(name, docs) => AddDocsTidyIff(m, db, name, docs);
  }

  lemma NothingMinded(m: Matter, db: DB, name: Bytes, doc: Doc)
    requires Fits(db, name, [doc])
    ensures name !in db.cache.schemas ==> MindsTable(m, db, name, [doc])
  {
  }

  // ---- Runs ----

  /** After any run from the empty database, in all tables: every record belongs to the document
      mapped to its address if and only if no batch of the run left a version behind; and index
      and records agree if and only if no command put a changed document in place. What goes
      wrong once stays wrong. */
  lemma {:induction false} RunTidyIff(m: Matter, dbs: seq<DB>, cmds: seq<Command>, i: nat)
    requires IsRun(dbs, cmds) && i <= |cmds| && TotalCost(cmds[..i]) < 0x1_0000_0000_0000_0000
    ensures forall j :: 0 <= j < i ==> Allowed(dbs[j], cmds[j])
    ensures AllTidy(m, dbs[i]) <==> forall j :: 0 <= j < i ==> MindsCommand(m, dbs[j], cmds[j])
    decreases i
  {
    hide DbOk, Do, Allowed, Cost, MindsCommand, Within, Tidy;
    if i == 0 {
      EmptyTidy(m);
    } else {
      assert cmds[..i][..i - 1] == cmds[..i - 1];
      RunTidyIff(m, dbs, cmds, i - 1);
      RunOk(dbs, cmds, i - 1);
      assert dbs[i - 1 + 1] == Do(dbs[i - 1], cmds[i - 1]);
      CommandTidyIff(m, dbs[i - 1], cmds[i - 1], TotalCost(cmds[..i - 1]));
    }
  }

  lemma EmptyTidy(m: Matter)
    ensures AllTidy(m, EmptyDB())
  {
  }
}
