/** The whole rocksdb_lab database: the store, the in-memory cache beside it, and what every
    run of CreateTable, AddDoc and AddDocs keeps between the two
    (rocksdb_lab/rocksdb_impl.cpp:526-615, 755-835; rocksdb_lab/rocksdb_impl.h:19-116). */
module DocDatabase {
  import opened ByteStrings
  import opened StoreKeys
  import opened DocStore
  import opened DocInvariants
  import opened DocBatch
  import S = DocSchema
  import opened Options

  type Schema = seq<S.Field>

  /** DBCache (rocksdb_impl.h:110-115). */
  datatype Cache = Cache(
    next: U64,                     // tid_
    tids: map<Bytes, U64>,         // tnamenamp_
    names: map<U64, Bytes>,        // tidnamemap_
    schemas: map<Bytes, Schema>,   // tschemaamp_
    segs: map<U64, U64>,           // segmap_
    offs: map<U64, U64>)           // offset_

  datatype DB = DB(store: Store, cache: Cache)

  datatype Status = OK | NotFound | InvalidArgument

  // ---- CreateTable (rocksdb_impl.cpp:755-835) ----

  function Succ(n: U64): U64 { (n + 1) % 0x1_0000_0000_0000_0000 }

  function TableOps(tid: U64, name: Bytes, schema: Schema): seq<Op> {
    [Put(SequenceKey, Num(Succ(tid))),
     Put(TableKey(name), Num(tid)),
     Put(SegmentKey(tid), Num(0)),
     Put(NextKey(tid), At(Addr(0, 0))),
     Put(SchemaKey(tid), Raw(S.SchemaBytes(schema)))]
  }

  function CacheWithTable(c: Cache, name: Bytes, schema: Schema): Cache {
    Cache(Succ(c.next), c.tids[name := c.next], c.names[c.next := name], c.schemas[name := schema],
          c.segs[c.next := 0], c.offs[c.next := 0])
  }

  function CreateTable(db: DB, name: Bytes, schema: Schema, built: bool): (DB, Status) {
    if TableKey(name) in db.store then (db, OK)
    else if !built then (db, InvalidArgument)
    else (DB(Apply(db.store, TableOps(db.cache.next, name, schema)), CacheWithTable(db.cache, name, schema)), OK)
  }

  // ---- AddDoc and AddDocs (rocksdb_impl.cpp:526-615) ----

  /** The table's cursor as the cache holds it; a missing offset reads as zero
      (rocksdb_impl.h:57-62). */
  function CacheCursor(c: Cache, tid: U64): Addr
    requires tid in c.segs
  {
    Addr(c.segs[tid], if tid in c.offs then c.offs[tid] else 0)
  }

  predicate Known(c: Cache, name: Bytes) {
    name in c.schemas && name in c.tids && c.tids[name] in c.segs
  }

  function CacheAfter(c: Cache, tid: U64, cur: Addr, rolled: bool): Cache {
    c.(segs := if rolled then c.segs[tid := cur.sid] else c.segs, offs := c.offs[tid := cur.id])
  }

  /** `documents` fit the table they are added to. */
  predicate Fits(db: DB, name: Bytes, docs: seq<Doc>) {
    Known(db.cache, name) ==>
      && CacheCursor(db.cache, db.cache.tids[name]).id < SEGMENT_SIZE
      && Whole(docs, |db.cache.schemas[name]|)
  }

  function AddDocs(db: DB, name: Bytes, docs: seq<Doc>): (DB, Status)
    requires Fits(db, name, docs)
  {
    if !Known(db.cache, name) then (db, NotFound)
    else
      var tid := db.cache.tids[name];
      var b := BatchOps(db.store, tid, CacheCursor(db.cache, tid), docs, |db.cache.schemas[name]|);
      (DB(Apply(db.store, b.ops), CacheAfter(db.cache, tid, b.cur, b.rolled)), OK)
  }

  /** AddDoc refuses a document that has not been built (rocksdb_impl.cpp:577-579). */
  function AddDoc(db: DB, name: Bytes, doc: Doc, built: bool): (DB, Status)
    requires built ==> Fits(db, name, [doc])
  {
    if name !in db.cache.schemas then (db, NotFound)
    else if !built then (db, InvalidArgument)
    else AddDocs(db, name, [doc])
  }

  // ---- What every run keeps ----

  function KeyTid(k: Key): Option<U64> {
    match k
    case SequenceKey => None
    case TableKey(_) => None
    case SegmentKey(t) => Some(t)
    case NextKey(t) => Some(t)
    case UidKey(t, _) => Some(t)
    case SchemaKey(t) => Some(t)
    case IndexKey(t, _, _, _) => Some(t)
    case ValueKey(t, _, _) => Some(t)
  }

  /** The name records and the three name maps say the same. */
  ghost predicate NamesOk(db: DB) {
    var c := db.cache;
    && Get(db.store, SequenceKey) == Some(Num(c.next))
    && (forall n :: Get(db.store, TableKey(n)) == if n in c.tids then Some(Num(c.tids[n])) else None)
    && (forall n :: n in c.tids ==> c.tids[n] < c.next && c.tids[n] in c.names && c.names[c.tids[n]] == n)
    && (forall t :: t in c.names ==> c.names[t] in c.tids && c.tids[c.names[t]] == t)
  }

  /** Each table's schema is stored and can be read back. */
  ghost predicate SchemasOk(db: DB) {
    var c := db.cache;
    && (forall n :: n in c.schemas <==> n in c.tids)
    && (forall n :: n in c.schemas && n in c.tids ==>
          && S.Sorted(c.schemas[n]) && S.Storable(c.schemas[n]) && |c.schemas[n]| >= 1
          && Get(db.store, SchemaKey(c.tids[n])) == Some(Raw(S.SchemaBytes(c.schemas[n]))))
  }

  /** Each table is in order at the cursor the cache holds. */
  ghost predicate TablesOk(db: DB) {
    var c := db.cache;
    && (forall t :: t in c.segs <==> t in c.names)
    && (forall t :: t in c.offs <==> t in c.names)
    && (forall t :: t in c.segs && t in c.offs && t in c.names && c.names[t] in c.schemas ==>
          TableOk(db.store, t, |c.schemas[c.names[t]]|, Addr(c.segs[t], c.offs[t])))
  }

  /** Nothing is stored for a table that was never created. */
  ghost predicate NoStrays(db: DB) {
    forall k :: k in db.store && KeyTid(k).Some? ==> KeyTid(k).value in db.cache.names
  }

  ghost predicate DbOk(db: DB) {
    NamesOk(db) && SchemasOk(db) && TablesOk(db) && NoStrays(db)
  }

  /** The database Init makes of an empty store (rocksdb_impl.cpp:33-43). */
  function EmptyDB(): DB {
    DB(map[SequenceKey := Num(0)], Cache(0, map[], map[], map[], map[], map[]))
  }

  lemma EmptyOk()
    ensures DbOk(EmptyDB())
  {
  }

  // Records of one table do not see writes to another.

  ghost predicate SameFor(s: Store, t: Store, tid: U64) {
    forall k :: KeyTid(k) == Some(tid) ==> Get(s, k) == Get(t, k)
  }

  lemma TableOkFrame(s: Store, t: Store, tid: U64, n: nat, cur: Addr)
    requires TableOk(s, tid, n, cur) && SameFor(s, t, tid)
    ensures TableOk(t, tid, n, cur)
  {
    FrameUids(s, t, tid, n, cur);
    FrameValues(s, t, tid, n, cur);
    FrameIndex(s, t, tid, n, cur);
    hide UidsOk, ValuesOk, Indexed, IndexBelow;
    assert KeyTid(NextKey(tid)) == Some(tid) && KeyTid(SegmentKey(tid)) == Some(tid);
  }

  lemma SameValue(s: Store, t: Store, tid: U64, a: Addr, f: Byte)
    requires SameFor(s, t, tid)
    ensures Get(s, ValueKey(tid, a, f)) == Get(t, ValueKey(tid, a, f))
  {
    assert KeyTid(ValueKey(tid, a, f)) == Some(tid);
  }

  lemma SameUid(s: Store, t: Store, tid: U64, uid: Bytes)
    requires SameFor(s, t, tid)
    ensures Get(s, UidKey(tid, uid)) == Get(t, UidKey(tid, uid))
  {
    assert KeyTid(UidKey(tid, uid)) == Some(tid);
  }

  lemma SameIndex(s: Store, t: Store, tid: U64, f: Byte, v: Bytes, a: Addr)
    requires SameFor(s, t, tid)
    ensures Get(s, IndexKey(tid, f, v, a)) == Get(t, IndexKey(tid, f, v, a))
  {
    assert KeyTid(IndexKey(tid, f, v, a)) == Some(tid);
  }

  lemma FrameComplete(s: Store, t: Store, tid: U64, n: nat, uid: Bytes, a: Addr)
    requires Complete(s, tid, n, uid, a) && SameFor(s, t, tid)
    ensures Complete(t, tid, n, uid, a)
  {
    hide SameFor;
    SameValue(s, t, tid, a, 0);
    forall f: Byte | f < n
      ensures HasRaw(t, ValueKey(tid, a, f))
    {
      SameValue(s, t, tid, a, f);
      assert HasRaw(s, ValueKey(tid, a, f));
    }
  }

  lemma FrameUids(s: Store, t: Store, tid: U64, n: nat, cur: Addr)
    requires UidsOk(s, tid, n, cur) && SameFor(s, t, tid)
    ensures UidsOk(t, tid, n, cur)
  {
    hide SameFor, Complete;
    forall uid | UidKey(tid, uid) in t
      ensures UidKey(tid, uid) in s && s[UidKey(tid, uid)] == t[UidKey(tid, uid)]
      ensures t[UidKey(tid, uid)].At? && Complete(t, tid, n, uid, t[UidKey(tid, uid)].addr)
    {
      SameUid(s, t, tid, uid);
      FrameComplete(s, t, tid, n, uid, s[UidKey(tid, uid)].addr);
    }
  }

  lemma FrameValues(s: Store, t: Store, tid: U64, n: nat, cur: Addr)
    requires ValuesOk(s, tid, n, cur) && SameFor(s, t, tid)
    ensures ValuesOk(t, tid, n, cur)
  {
    hide SameFor, Before;
    forall a: Addr, f: Byte | ValueKey(tid, a, f) in t
      ensures ValueKey(tid, a, f) in s && s[ValueKey(tid, a, f)] == t[ValueKey(tid, a, f)]
    {
      SameValue(s, t, tid, a, f);
    }
  }

  lemma FrameIndex(s: Store, t: Store, tid: U64, n: nat, cur: Addr)
    requires Indexed(s, tid) && IndexBelow(s, tid, n, cur) && SameFor(s, t, tid)
    ensures Indexed(t, tid) && IndexBelow(t, tid, n, cur)
  {
    hide SameFor;
    forall a: Addr, f: Byte | HasRaw(t, ValueKey(tid, a, f))
      ensures Get(t, IndexKey(tid, f, t[ValueKey(tid, a, f)].bytes, a)) == Some(Raw([]))
    {
      SameValue(s, t, tid, a, f);
      assert HasRaw(s, ValueKey(tid, a, f));
      SameIndex(s, t, tid, f, s[ValueKey(tid, a, f)].bytes, a);
    }
    forall f: Byte, v: Bytes, a: Addr | IndexKey(tid, f, v, a) in t
      ensures IndexKey(tid, f, v, a) in s
    {
      SameIndex(s, t, tid, f, v, a);
    }
  }

  // ---- AddDocs keeps the database in order ----

  lemma DocFrame(r: Store, s: Store, tid: U64, cur: Addr, doc: Doc, k: Key)
    requires cur.id < SEGMENT_SIZE && 1 <= |doc| <= 255 && (KeyTid(k) != Some(tid) || k.SchemaKey?)
    ensures Get(Apply(s, DocOps(r, tid, cur, doc)), k) == Get(s, k)
  {
    hide PlanFor, Apply, DocOps;
    DocEffect(s, r, tid, cur, doc, k);
  }

  lemma {:induction false} BatchFrame(r: Store, s: Store, tid: U64, cur: Addr, docs: seq<Doc>, n: nat, k: Key)
    requires cur.id < SEGMENT_SIZE && Whole(docs, n) && (KeyTid(k) != Some(tid) || k.SchemaKey?)
    ensures Get(Apply(s, BatchOps(r, tid, cur, docs, n).ops), k) == Get(s, k)
    decreases |docs|
  {
    hide DocOps, Apply, PlanFor, NewCursor, Rolls, KeyTid;
    if docs == [] {
      ApplyNone(s);
    } else {
      var next := NewCursor(cur, PlanFor(r, tid, cur, docs[0][0]));
      DocFrame(r, s, tid, cur, docs[0], k);
      BatchFrame(r, Apply(s, DocOps(r, tid, cur, docs[0])), tid, next, docs[1..], n, k);
      ApplyConcat(s, DocOps(r, tid, cur, docs[0]), BatchOps(r, tid, next, docs[1..], n).ops);
    }
  }

  /** What AddDocs does to the store and the cache of a known table. */
  lemma AddDocsStore(db: DB, name: Bytes, docs: seq<Doc>)
    requires DbOk(db) && Known(db.cache, name) && Fits(db, name, docs)
    requires var c := db.cache; CacheCursor(c, c.tids[name]).sid + |docs| < 0x1_0000_0000_0000_0000
    ensures var c := db.cache;
            var tid, n := c.tids[name], |c.schemas[name]|;
            var cur := CacheCursor(c, tid);
            var b := BatchOps(db.store, tid, cur, docs, n);
            && tid in c.names && c.names[tid] == name && cur == Addr(c.segs[tid], c.offs[tid]) && tid in c.offs
            && TableOk(db.store, tid, n, cur)
            && TableOk(Apply(db.store, b.ops), tid, n, b.cur) && b.cur.sid <= cur.sid + |docs|
            && AddDocs(db, name, docs) == (DB(Apply(db.store, b.ops), CacheAfter(c, tid, b.cur, b.rolled)), OK)
  {
    hide TableOk, NoStrays, BatchOps, Apply;
    var c := db.cache;
    var tid, n := c.tids[name], |c.schemas[name]|;
    var cur := CacheCursor(c, tid);
    assert TableOk(db.store, tid, n, cur);
    BatchOk(db.store, tid, cur, docs, n);
  }

  /** A database in which one table's records and cursor have moved on. */
  ghost predicate Advanced(db: DB, to: DB, tid: U64, cur: Addr) {
    && (forall k :: KeyTid(k) != Some(tid) || k.SchemaKey? ==> Get(to.store, k) == Get(db.store, k))
    && to.cache == db.cache.(segs := db.cache.segs[tid := cur.sid], offs := db.cache.offs[tid := cur.id])
  }

  lemma AdvancedLookups(db: DB, to: DB, tid: U64, cur: Addr)
    requires Advanced(db, to, tid, cur)
    ensures to.cache.(segs := map[], offs := map[]) == db.cache.(segs := map[], offs := map[])
    ensures Get(to.store, SequenceKey) == Get(db.store, SequenceKey)
    ensures forall n :: Get(to.store, TableKey(n)) == Get(db.store, TableKey(n))
    ensures forall t :: Get(to.store, SchemaKey(t)) == Get(db.store, SchemaKey(t))
  {
    forall n
      ensures Get(to.store, TableKey(n)) == Get(db.store, TableKey(n))
    {
      assert KeyTid(TableKey(n)) == None;
    }
    assert KeyTid(SequenceKey) == None;
  }

  lemma AdvancedNames(db: DB, to: DB, tid: U64, cur: Addr)
    requires NamesOk(db) && SchemasOk(db) && Advanced(db, to, tid, cur)
    ensures NamesOk(to) && SchemasOk(to)
  {
    hide Advanced, Get, S.Sorted, S.Storable, S.SchemaBytes;
    AdvancedLookups(db, to, tid, cur);
  }

  lemma AdvancedTables(db: DB, to: DB, tid: U64, cur: Addr)
    requires NamesOk(db) && SchemasOk(db) && TablesOk(db) && Advanced(db, to, tid, cur)
    requires tid in db.cache.names && db.cache.names[tid] in db.cache.schemas
    requires TableOk(to.store, tid, |db.cache.schemas[db.cache.names[tid]]|, cur)
    ensures TablesOk(to)
  {
    hide TableOk, NamesOk, SchemasOk;
    var c := to.cache;
    forall t | t in c.segs && t in c.offs && t in c.names && c.names[t] in c.schemas
      ensures TableOk(to.store, t, |c.schemas[c.names[t]]|, Addr(c.segs[t], c.offs[t]))
    {
      if t != tid {
        assert SameFor(db.store, to.store, t);
        TableOkFrame(db.store, to.store, t, |c.schemas[c.names[t]]|, Addr(c.segs[t], c.offs[t]));
      }
    }
  }

  lemma AdvancedOk(db: DB, to: DB, tid: U64, cur: Addr)
    requires DbOk(db) && Advanced(db, to, tid, cur)
    requires tid in db.cache.names && db.cache.names[tid] in db.cache.schemas
    requires TableOk(to.store, tid, |db.cache.schemas[db.cache.names[tid]]|, cur)
    ensures DbOk(to)
  {
    AdvancedNames(db, to, tid, cur);
    AdvancedTables(db, to, tid, cur);
    hide TableOk, NamesOk, SchemasOk, TablesOk;
    forall k | k in to.store && KeyTid(k).Some?
      ensures KeyTid(k).value in to.cache.names
    {
      if KeyTid(k) != Some(tid) {
        assert Get(to.store, k) == Get(db.store, k);
      }
    }
  }

  lemma AddDocsAdvances(db: DB, name: Bytes, docs: seq<Doc>)
    requires DbOk(db) && Known(db.cache, name) && Fits(db, name, docs)
    requires var c := db.cache; CacheCursor(c, c.tids[name]).sid + |docs| < 0x1_0000_0000_0000_0000
    ensures var c := db.cache;
            var b := BatchOps(db.store, c.tids[name], CacheCursor(c, c.tids[name]), docs, |c.schemas[name]|);
            Advanced(db, AddDocs(db, name, docs).0, c.tids[name], b.cur)
  {
    var c := db.cache;
    var tid, n := c.tids[name], |c.schemas[name]|;
    var cur := CacheCursor(c, tid);
    hide DbOk, TableOk, BatchOps, Apply, AddDocs, KeyTid, CacheAfter;
    AddDocsStore(db, name, docs);
    var b := BatchOps(db.store, tid, cur, docs, n);
    forall k | KeyTid(k) != Some(tid) || k.SchemaKey?
      ensures Get(Apply(db.store, b.ops), k) == Get(db.store, k)
    {
      BatchFrame(db.store, db.store, tid, cur, docs, n, k);
    }
    BatchSegment(db.store, tid, cur, docs, n);
    CacheMoves(c, tid, b.cur, b.rolled);
  }

  lemma CacheMoves(c: Cache, tid: U64, cur: Addr, rolled: bool)
    requires tid in c.segs && (!rolled ==> cur.sid == c.segs[tid])
    ensures CacheAfter(c, tid, cur, rolled) == c.(segs := c.segs[tid := cur.sid], offs := c.offs[tid := cur.id])
  {
    assert !rolled ==> c.segs[tid := cur.sid] == c.segs;
  }

  /** AddDocs keeps the database in order, whatever uids occur in the batch and how often. */
  lemma AddDocsOk(db: DB, name: Bytes, docs: seq<Doc>)
    requires DbOk(db) && Fits(db, name, docs)
    requires Known(db.cache, name) ==>
               CacheCursor(db.cache, db.cache.tids[name]).sid + |docs| < 0x1_0000_0000_0000_0000
    ensures DbOk(AddDocs(db, name, docs).0)
    ensures Known(db.cache, name) ==>
              var c, c' := db.cache, AddDocs(db, name, docs).0.cache;
              && c'.next == c.next && c'.segs.Keys == c.segs.Keys + {c.tids[name]}
              && (forall t :: t in c.segs && t != c.tids[name] ==> c'.segs[t] == c.segs[t])
              && c'.segs[c.tids[name]] <= c.segs[c.tids[name]] + |docs|
  {
    hide DbOk, TableOk, BatchOps, Apply;
    if Known(db.cache, name) {
      AddDocsStore(db, name, docs);
      AddDocsAdvances(db, name, docs);
      var c := db.cache;
      var b := BatchOps(db.store, c.tids[name], CacheCursor(c, c.tids[name]), docs, |c.schemas[name]|);
      hide AddDocs;
      AdvancedOk(db, AddDocs(db, name, docs).0, c.tids[name], b.cur);
    }
  }

  // ---- CreateTable keeps the database in order ----

  lemma TableEffect(s: Store, tid: U64, name: Bytes, schema: Schema, k: Key)
    ensures Get(Apply(s, TableOps(tid, name, schema)), k) ==
              if k == SequenceKey then Some(Num(Succ(tid)))
              else if k == TableKey(name) then Some(Num(tid))
              else if k == SegmentKey(tid) then Some(Num(0))
              else if k == NextKey(tid) then Some(At(Addr(0, 0)))
              else if k == SchemaKey(tid) then Some(Raw(S.SchemaBytes(schema)))
              else Get(s, k)
  {
    hide S.SchemaBytes;
    var a := [Put(SequenceKey, Num(Succ(tid))), Put(TableKey(name), Num(tid))];
    var b := [Put(SegmentKey(tid), Num(0)), Put(NextKey(tid), At(Addr(0, 0)))];
    var c := [Put(SchemaKey(tid), Raw(S.SchemaBytes(schema)))];
    assert TableOps(tid, name, schema) == a + b + c;
    ApplyConcat(s, a + b, c);
    ApplyConcat(s, a, b);
    ApplyTwo(s, a[0], a[1]);
    ApplyTwo(Apply(s, a), b[0], b[1]);
    ApplyOne(Apply(Apply(s, a), b), c[0]);
  }

  /** `to` is `db` with one more table. */
  ghost predicate Created(db: DB, to: DB, name: Bytes, schema: Schema) {
    var tid := db.cache.next;
    && to.cache == CacheWithTable(db.cache, name, schema)
    && forall k :: Get(to.store, k) ==
         if k == SequenceKey then Some(Num(Succ(tid)))
         else if k == TableKey(name) then Some(Num(tid))
         else if k == SegmentKey(tid) then Some(Num(0))
         else if k == NextKey(tid) then Some(At(Addr(0, 0)))
         else if k == SchemaKey(tid) then Some(Raw(S.SchemaBytes(schema)))
         else Get(db.store, k)
  }

  lemma CreateTableCreates(db: DB, name: Bytes, schema: Schema)
    requires TableKey(name) !in db.store
    ensures Created(db, CreateTable(db, name, schema, true).0, name, schema)
  {
    hide TableOps, Apply, S.SchemaBytes, Succ;
    forall k
      ensures Get(Apply(db.store, TableOps(db.cache.next, name, schema)), k) ==
                if k == SequenceKey then Some(Num(Succ(db.cache.next)))
                else if k == TableKey(name) then Some(Num(db.cache.next))
                else if k == SegmentKey(db.cache.next) then Some(Num(0))
                else if k == NextKey(db.cache.next) then Some(At(Addr(0, 0)))
                else if k == SchemaKey(db.cache.next) then Some(Raw(S.SchemaBytes(schema)))
                else Get(db.store, k)
    {
      TableEffect(db.store, db.cache.next, name, schema, k);
    }
  }

  /** The id of a new table has not been used. */
  lemma NextUnused(db: DB)
    requires NamesOk(db) && NoStrays(db)
    ensures db.cache.next !in db.cache.names
    ensures forall k :: KeyTid(k) == Some(db.cache.next) ==> k !in db.store
  {
    var name := if db.cache.next in db.cache.names then db.cache.names[db.cache.next] else [];
    assert name in db.cache.tids ==> db.cache.tids[name] < db.cache.next;
  }

  lemma CreatedLookups(db: DB, to: DB, name: Bytes, schema: Schema)
    requires Created(db, to, name, schema)
    ensures to.cache == CacheWithTable(db.cache, name, schema)
    ensures Get(to.store, SequenceKey) == Some(Num(Succ(db.cache.next)))
    ensures forall n :: Get(to.store, TableKey(n)) ==
              if n == name then Some(Num(db.cache.next)) else Get(db.store, TableKey(n))
    ensures forall t :: Get(to.store, SchemaKey(t)) ==
              if t == db.cache.next then Some(Raw(S.SchemaBytes(schema))) else Get(db.store, SchemaKey(t))
  {
    hide S.SchemaBytes, CacheWithTable;
  }

  lemma CreatedNames(db: DB, to: DB, name: Bytes, schema: Schema)
    requires NamesOk(db) && NoStrays(db) && Created(db, to, name, schema)
    requires name !in db.cache.tids && db.cache.next + 1 < 0x1_0000_0000_0000_0000
    ensures NamesOk(to)
  {
    hide S.SchemaBytes, NoStrays, Created, Get;
    NextUnused(db);
    CreatedLookups(db, to, name, schema);
    assert to.cache.next == db.cache.next + 1;
  }

  lemma CreatedSchemas(db: DB, to: DB, name: Bytes, schema: Schema)
    requires NamesOk(db) && NoStrays(db) && SchemasOk(db) && Created(db, to, name, schema)
    requires name !in db.cache.tids && S.Sorted(schema) && S.Storable(schema) && |schema| >= 1
    ensures SchemasOk(to)
  {
    hide S.SchemaBytes, NoStrays, S.Sorted, S.Storable, Created, Get;
    NextUnused(db);
    CreatedLookups(db, to, name, schema);
    forall n | n in to.cache.schemas && n in to.cache.tids
      ensures S.Sorted(to.cache.schemas[n]) && S.Storable(to.cache.schemas[n]) && |to.cache.schemas[n]| >= 1
      ensures Get(to.store, SchemaKey(to.cache.tids[n])) == Some(Raw(S.SchemaBytes(to.cache.schemas[n])))
    {
      if n != name {
        assert n in db.cache.schemas && n in db.cache.tids;
      }
    }
  }

  lemma FreshTable(db: DB, to: DB, name: Bytes, schema: Schema)
    requires NamesOk(db) && NoStrays(db) && Created(db, to, name, schema) && 1 <= |schema| <= 255
    ensures TableOk(to.store, db.cache.next, |schema|, Addr(0, 0))
  {
    NextUnused(db);
    hide S.SchemaBytes, NoStrays, NamesOk;
    FreshKeys(db, to, name, schema);
    FreshStore(to.store, db.cache.next, |schema|);
  }

  /** A new table's cursor, and nothing of any document. */
  ghost predicate FreshIn(s: Store, tid: U64) {
    && Get(s, SegmentKey(tid)) == Some(Num(0)) && Get(s, NextKey(tid)) == Some(At(Addr(0, 0)))
    && forall k :: KeyTid(k) == Some(tid) && k in s ==> k == SegmentKey(tid) || k == NextKey(tid) || k == SchemaKey(tid)
  }

  lemma FreshKeys(db: DB, to: DB, name: Bytes, schema: Schema)
    requires Created(db, to, name, schema)
    requires forall k :: KeyTid(k) == Some(db.cache.next) ==> k !in db.store
    ensures FreshIn(to.store, db.cache.next)
  {
    hide S.SchemaBytes, CacheWithTable;
    var tid := db.cache.next;
    forall k | KeyTid(k) == Some(tid) && k in to.store
      ensures k == SegmentKey(tid) || k == NextKey(tid) || k == SchemaKey(tid)
    {
      assert Get(db.store, k) == None;
    }
  }

  lemma FreshStore(s: Store, tid: U64, n: nat)
    requires FreshIn(s, tid) && 1 <= n <= 255
    ensures TableOk(s, tid, n, Addr(0, 0))
  {
    hide Complete;
    assert forall uid :: KeyTid(UidKey(tid, uid)) == Some(tid);
    assert forall a: Addr, f: Byte :: KeyTid(ValueKey(tid, a, f)) == Some(tid);
    assert forall f: Byte, v: Bytes, a: Addr :: KeyTid(IndexKey(tid, f, v, a)) == Some(tid);
  }

  lemma CreatedSameFor(db: DB, to: DB, name: Bytes, schema: Schema, t: U64)
    requires Created(db, to, name, schema) && t != db.cache.next
    ensures SameFor(db.store, to.store, t)
  {
    hide S.SchemaBytes, CacheWithTable;
  }

  /** The other tables stay in order. */
  lemma CreatedOther(db: DB, to: DB, name: Bytes, schema: Schema, t: U64)
    requires TablesOk(db) && Created(db, to, name, schema) && t != db.cache.next
    requires t in db.cache.segs && t in db.cache.offs && t in db.cache.names && db.cache.names[t] in db.cache.schemas
    ensures TableOk(to.store, t, |db.cache.schemas[db.cache.names[t]]|, Addr(db.cache.segs[t], db.cache.offs[t]))
  {
    hide TableOk, Created, SameFor;
    CreatedSameFor(db, to, name, schema, t);
    var c := db.cache;
    TableOkFrame(db.store, to.store, t, |c.schemas[c.names[t]]|, Addr(c.segs[t], c.offs[t]));
  }

  lemma CreatedTables(db: DB, to: DB, name: Bytes, schema: Schema)
    requires NamesOk(db) && NoStrays(db) && SchemasOk(db) && TablesOk(db) && Created(db, to, name, schema)
    requires name !in db.cache.tids && 1 <= |schema| <= 255
    ensures TablesOk(to)
  {
    hide S.SchemaBytes, NoStrays, TableOk, Created, Get, S.Sorted, S.Storable;
    NextUnused(db);
    FreshTable(db, to, name, schema);
    CreatedLookups(db, to, name, schema);
    var c := to.cache;
    forall t | t in c.segs && t in c.offs && t in c.names && c.names[t] in c.schemas
      ensures TableOk(to.store, t, |c.schemas[c.names[t]]|, Addr(c.segs[t], c.offs[t]))
    {
      if t != db.cache.next {
        assert c.names[t] == db.cache.names[t] != name;
        CreatedOther(db, to, name, schema, t);
      }
    }
  }

  lemma CreatedNoStrays(db: DB, to: DB, name: Bytes, schema: Schema)
    requires NoStrays(db) && Created(db, to, name, schema)
    ensures NoStrays(to)
  {
    hide S.SchemaBytes;
    forall k | k in to.store && KeyTid(k).Some?
      ensures KeyTid(k).value in to.cache.names
    {
      if KeyTid(k) != Some(db.cache.next) {
        assert Get(to.store, k) == Get(db.store, k);
      }
    }
  }

  /** CreateTable keeps the database in order for a built schema that can be stored. */
  lemma CreateTableOk(db: DB, name: Bytes, schema: Schema, built: bool)
    requires DbOk(db) && db.cache.next + 1 < 0x1_0000_0000_0000_0000
    requires S.Sorted(schema) && S.Storable(schema) && |schema| >= 1
    ensures var to := CreateTable(db, name, schema, built).0;
            && DbOk(to) && to.cache.next <= db.cache.next + 1
            && (to == db || (to.cache.segs == db.cache.segs[db.cache.next := 0] && name in to.cache.tids))
  {
    hide TablesOk, SchemasOk, NoStrays, S.SchemaBytes, S.Sorted;
    if TableKey(name) !in db.store && built {
      assert name !in db.cache.tids by { assert Get(db.store, TableKey(name)) == None; }
      CreateTableCreates(db, name, schema);
      var to := CreateTable(db, name, schema, built).0;
      CreatedNames(db, to, name, schema);
      CreatedSchemas(db, to, name, schema);
      CreatedTables(db, to, name, schema);
      CreatedNoStrays(db, to, name, schema);
    }
  }

  // ---- Runs ----

  datatype Command =
    | CreateTableCmd(name: Bytes, schema: Schema, built: bool)
    | AddDocCmd(name: Bytes, doc: Doc, built: bool)
    | AddDocsCmd(name: Bytes, docs: seq<Doc>)

  /** What the callers owe: schemas that can be stored, and whole documents. */
  ghost predicate Allowed(db: DB, cmd: Command) {
    match cmd
    case CreateTableCmd(_, schema, _) => S.Sorted(schema) && S.Storable(schema) && |schema| >= 1
    case AddDocCmd(name, doc, built) => Fits(db, name, [doc])
    case AddDocsCmd(name, docs) => Fits(db, name, docs)
  }

  ghost function Do(db: DB, cmd: Command): DB
    requires Allowed(db, cmd)
  {
    match cmd
    case CreateTableCmd(name, schema, built) => CreateTable(db, name, schema, built).0
    case AddDocCmd(name, doc, built) => AddDoc(db, name, doc, built).0
    case AddDocsCmd(name, docs) => AddDocs(db, name, docs).0
  }

  /** How many ids a command can use up. */
  function Cost(cmd: Command): nat {
    match cmd
    case CreateTableCmd(_, _, _) => 1
    case AddDocCmd(_, _, _) => 1
    case AddDocsCmd(_, docs) => |docs|
  }

  function TotalCost(cmds: seq<Command>): nat {
    if cmds == [] then 0 else TotalCost(cmds[..|cmds| - 1]) + Cost(cmds[|cmds| - 1])
  }

  ghost predicate IsRun(dbs: seq<DB>, cmds: seq<Command>) {
    && |dbs| == |cmds| + 1 && dbs[0] == EmptyDB()
    && forall i :: 0 <= i < |cmds| ==> Allowed(dbs[i], cmds[i]) && dbs[i + 1] == Do(dbs[i], cmds[i])
  }

  /** No id counter has passed `m`. */
  ghost predicate Within(db: DB, m: nat) {
    db.cache.next <= m && forall t :: t in db.cache.segs ==> db.cache.segs[t] <= m
  }

  lemma DoCreate(db: DB, cmd: Command, m: nat)
    requires DbOk(db) && Within(db, m) && m + 1 < 0x1_0000_0000_0000_0000 && Allowed(db, cmd) && cmd.CreateTableCmd?
    ensures DbOk(Do(db, cmd)) && Within(Do(db, cmd), m + 1)
  {
    hide DbOk, CreateTable;
    CreateTableOk(db, cmd.name, cmd.schema, cmd.built);
  }

  lemma DoAddDocs(db: DB, name: Bytes, docs: seq<Doc>, m: nat)
    requires DbOk(db) && Within(db, m) && m + |docs| < 0x1_0000_0000_0000_0000 && Fits(db, name, docs)
    ensures DbOk(AddDocs(db, name, docs).0) && Within(AddDocs(db, name, docs).0, m + |docs|)
  {
    hide DbOk, BatchOps, Apply;
    AddDocsOk(db, name, docs);
  }

  lemma DoKeeps(db: DB, cmd: Command, m: nat)
    requires DbOk(db) && Within(db, m) && m + Cost(cmd) < 0x1_0000_0000_0000_0000 && Allowed(db, cmd)
    ensures DbOk(Do(db, cmd)) && Within(Do(db, cmd), m + Cost(cmd))
  {
    hide DbOk, CreateTable, AddDocs;
    match cmd
    case CreateTableCmd(_, _, _) => DoCreate(db, cmd, m);
    case AddDocCmd(name, doc, built) =>
      if name in db.cache.schemas && built {
        DoAddDocs(db, name, [doc], m);
      }
    case AddDocsCmd(name, docs) => DoAddDocs(db, name, docs, m);
  }

  /** Every state of every run is in order: each mapped uid has all its field records at an
      address of its own below the table's cursor, every record is indexed, and the cache
      mirrors the store. The bound says that the 64-bit ids are not used up. */
  lemma {:induction false} RunOk(dbs: seq<DB>, cmds: seq<Command>, i: nat)
    requires IsRun(dbs, cmds) && i <= |cmds| && TotalCost(cmds[..i]) < 0x1_0000_0000_0000_0000
    ensures DbOk(dbs[i]) && Within(dbs[i], TotalCost(cmds[..i]))
    decreases i
  {
    hide DbOk, Do, Allowed, Cost;
    if i == 0 {
      EmptyOk();
    } else {
      assert cmds[..i][..i - 1] == cmds[..i - 1];
      RunOk(dbs, cmds, i - 1);
      assert dbs[i - 1 + 1] == Do(dbs[i - 1], cmds[i - 1]);
      DoKeeps(dbs[i - 1], cmds[i - 1], TotalCost(cmds[..i - 1]));
    }
  }

  // ---- The store determines the cache ----

  lemma SameNames(s: Store, c: Cache, d: Cache)
    requires NamesOk(DB(s, c)) && NamesOk(DB(s, d))
    ensures c.next == d.next && c.tids == d.tids && c.names == d.names
  {
    forall n
      ensures n in c.tids <==> n in d.tids
      ensures n in c.tids && n in d.tids ==> c.tids[n] == d.tids[n]
    {
      assert Get(s, TableKey(n)) == if n in c.tids then Some(Num(c.tids[n])) else None;
    }
    assert c.tids == d.tids;
    forall t
      ensures t in c.names <==> t in d.names
      ensures t in c.names && t in d.names ==> c.names[t] == d.names[t]
    {
      if t in c.names { assert d.tids[c.names[t]] == t; }
      if t in d.names { assert c.tids[d.names[t]] == t; }
    }
  }

  lemma SameSchemas(s: Store, c: Cache, d: Cache)
    requires SchemasOk(DB(s, c)) && SchemasOk(DB(s, d)) && c.tids == d.tids
    ensures c.schemas == d.schemas
  {
    hide S.SchemaBytes, S.Sorted, S.Storable;
    forall n | n in c.schemas
      ensures n in d.schemas && c.schemas[n] == d.schemas[n]
    {
      S.SchemaRoundTrip(c.schemas[n]);
      S.SchemaRoundTrip(d.schemas[n]);
    }
    assert c.schemas.Keys == d.schemas.Keys;
  }

  lemma CursorIs(s: Store, t: U64, n: nat, a: Addr, b: Addr)
    requires TableOk(s, t, n, a) && TableOk(s, t, n, b)
    ensures a == b
  {
    hide UidsOk, ValuesOk, Indexed, IndexBelow;
  }

  lemma SameCursors(s: Store, c: Cache, d: Cache)
    requires TablesOk(DB(s, c)) && TablesOk(DB(s, d)) && c.names == d.names && c.schemas == d.schemas
    requires forall t :: t in c.names ==> c.names[t] in c.schemas
    ensures c.segs == d.segs && c.offs == d.offs
  {
    hide TableOk;
    forall t | t in c.names
      ensures t in c.segs && t in d.segs && t in c.offs && t in d.offs
      ensures c.segs[t] == d.segs[t] && c.offs[t] == d.offs[t]
    {
      var n := |c.schemas[c.names[t]]|;
      CursorIs(s, t, n, Addr(c.segs[t], c.offs[t]), Addr(d.segs[t], d.offs[t]));
    }
    assert c.segs.Keys == d.segs.Keys && c.offs.Keys == d.offs.Keys;
  }

  /** The cache that fits a store is unique, so a restart can and must rebuild the one held
      before: next table id, name and id maps, schemas, segments and offsets. */
  lemma CacheDetermined(s: Store, c: Cache, d: Cache)
    requires DbOk(DB(s, c)) && DbOk(DB(s, d))
    ensures c == d
  {
    hide TableOk, NoStrays, S.SchemaBytes;
    SameNames(s, c, d);
    SameSchemas(s, c, d);
    SameCursors(s, c, d);
  }
}
