/** RocksDBImpl and DBCache as objects over a store of bytes (rocksdb_lab/rocksdb_impl.cpp,
    rocksdb_lab/rocksdb_impl.h). Keys and values are put together byte by byte as the code
    does; every method is proved to do what the functions of DocDatabase say. */
module DocImpl {
  import opened ByteStrings
  import opened StoreKeys
  import opened StoreRanges
  import opened DocStore
  import opened DocInvariants
  import opened DocBatch
  import D = DocDatabase
  import S = DocSchema
  import opened Options

  /** DBCache (rocksdb_impl.h:19-116). */
  class DBCache {
    var next: U64
    var tids: map<Bytes, U64>
    var names: map<U64, Bytes>
    var schemas: map<Bytes, D.Schema>
    var segs: map<U64, U64>
    var offs: map<U64, U64>

    ghost function View(): D.Cache
      reads this
    {
      D.Cache(next, tids, names, schemas, segs, offs)
    }

    constructor ()
      ensures View() == D.Cache(0, map[], map[], map[], map[], map[])
    {
      next, tids, names, schemas, segs, offs := 0, map[], map[], map[], map[], map[];
    }

    /** SetTid with a table: it gets the id that was next (lines 24-32). */
    method SetTid(tid: U64, name: Bytes, schema: D.Schema)
      modifies this
      ensures View() == old(View()).(next := tid, tids := old(tids)[name := old(next)],
                                     names := old(names)[old(next) := name], schemas := old(schemas)[name := schema])
    {
      tids := tids[name := next];
      names := names[next := name];
      schemas := schemas[name := schema];
      next := tid;
    }

    method UpdateTableName(tid: U64, name: Bytes)
      modifies this
      ensures View() == old(View()).(tids := old(tids)[name := tid], names := old(names)[tid := name])
    {
      tids := tids[name := tid];
      names := names[tid := name];
    }

    method UpdateTableSchema(tid: U64, schema: D.Schema)
      requires tid in names
      modifies this
      ensures View() == old(View()).(schemas := old(schemas)[old(names)[tid] := schema])
    {
      schemas := schemas[names[tid] := schema];
    }

    method UpdateSegMap(tid: U64, sid: U64)
      modifies this
      ensures View() == old(View()).(segs := old(segs)[tid := sid])
    {
      segs := segs[tid := sid];
    }

    method UpdateTidOffset(tid: U64, offset: U64)
      modifies this
      ensures View() == old(View()).(offs := old(offs)[tid := offset])
    {
      offs := offs[tid := offset];
    }
  }

  // ---- Keys put together piece by piece ----

  method Key64(prefix: Bytes, tid: U64) returns (key: Bytes)
    ensures key == prefix + Num64(tid)
  {
    key := Serialize(tid, 8, prefix);
  }

  lemma OneByteNumber(f: Byte)
    ensures BigEndian(f, 1) == [f]
  {
    assert BigEndian(f / 256, 0) == [];
    assert f % 256 == f;
  }

  /** $TFV $tid $sid$id $fid (lines 669-672, 698-703). */
  method ValueKeyBytes(tid: U64, addr: Bytes, fid: Byte, ghost a: Addr) returns (key: Bytes)
    requires addr == AddrBytes(a)
    ensures key == Encode(ValueKey(tid, a, fid))
  {
    key := Key64(TFV, tid);
    key := key + addr;
    OneByteNumber(fid);
    key := Serialize(fid, 1, key);
    assert TFV + Num64(tid) + addr + [fid] == TFV + (Num64(tid) + (addr + [fid]));
  }

  /** $TFI $tid $fid $fval $sid$id (lines 684-688, 715-720). */
  method IndexKeyBytes(tid: U64, fid: Byte, val: Bytes, addr: Bytes, ghost a: Addr) returns (key: Bytes)
    requires addr == AddrBytes(a)
    ensures key == Encode(IndexKey(tid, fid, val, a))
  {
    key := Key64(TFI, tid);
    OneByteNumber(fid);
    key := Serialize(fid, 1, key);
    key := key + val;
    key := key + addr;
    assert TFI + Num64(tid) + [fid] + val + addr == TFI + (Num64(tid) + ([fid] + (val + addr)));
  }

  method AddrValue(sid: U64, id: U64) returns (val: Bytes)
    ensures val == AddrBytes(Addr(sid, id))
  {
    val := Serialize(sid, 8, []);
    assert [] + Num64(sid) == Num64(sid);
    val := Serialize(id, 8, val);
  }

  lemma EncodeOpsConcat(a: seq<Op>, b: seq<Op>)
    ensures EncodeOps(a + b) == EncodeOps(a) + EncodeOps(b)
  {
  }

  lemma AddrParts(a: Addr)
    ensures AddrBytes(a)[..8] == Num64(a.sid) && AddrBytes(a)[8..16] == Num64(a.id)
    ensures FromBigEndian(AddrBytes(a)[..8]) == a.sid && FromBigEndian(AddrBytes(a)[8..16]) == a.id
  {
    Num64Injective(a.sid, a.sid);
    Num64Injective(a.id, a.id);
  }

  /** The reads of AddDoc for a document of n fields find what they look for (lines 640-677). */
  ghost predicate Readable(s: Store, tid: U64, n: nat) {
    forall uid :: UidKey(tid, uid) in s ==>
      s[UidKey(tid, uid)].At?
      && forall f: Byte :: f < n ==> HasRaw(s, ValueKey(tid, s[UidKey(tid, uid)].addr, f))
  }

  lemma TableReadable(s: Store, tid: U64, n: nat, cur: Addr)
    requires TableOk(s, tid, n, cur)
    ensures Readable(s, tid, n)
  {
    hide ValuesOk, Indexed, IndexBelow;
    forall uid | UidKey(tid, uid) in s
      ensures s[UidKey(tid, uid)].At?
      ensures forall f: Byte :: f < n ==> HasRaw(s, ValueKey(tid, s[UidKey(tid, uid)].addr, f))
    {
      assert Complete(s, tid, n, uid, s[UidKey(tid, uid)].addr);
    }
  }

  // ---- Iterators ----

  function InsertKey(keys: seq<Bytes>, k: Bytes): seq<Bytes> {
    if keys == [] || Less(k, keys[0]) then [k] + keys else [keys[0]] + InsertKey(keys[1..], k)
  }

  predicate Increasing(keys: seq<Bytes>) {
    forall i, j :: 0 <= i < j < |keys| ==> Less(keys[i], keys[j])
  }

  lemma {:induction false} InsertKeyElements(keys: seq<Bytes>, k: Bytes)
    ensures forall x :: x in InsertKey(keys, k) <==> x in keys || x == k
  {
    if !(keys == [] || Less(k, keys[0])) {
      InsertKeyElements(keys[1..], k);
      assert keys == [keys[0]] + keys[1..];
    }
  }

  lemma {:induction false} InsertKeyIncreasing(keys: seq<Bytes>, k: Bytes)
    requires Increasing(keys) && k !in keys
    ensures Increasing(InsertKey(keys, k))
  {
    if keys == [] {
    } else if Less(k, keys[0]) {
      forall i | 0 <= i < |keys|
        ensures Less(k, keys[i])
      {
        if i > 0 { LessTransitive(k, keys[0], keys[i]); }
      }
    } else {
      LessTotal(k, keys[0]);
      assert forall i :: 0 < i < |keys| ==> keys[i] == keys[1..][i - 1];
      InsertKeyIncreasing(keys[1..], k);
      InsertKeyElements(keys[1..], k);
      var rest := InsertKey(keys[1..], k);
      forall i | 0 <= i < |rest|
        ensures Less(keys[0], rest[i])
      {
        assert rest[i] in rest;
        if rest[i] != k {
          var j :| 0 <= j < |keys[1..]| && keys[1..][j] == rest[i];
          assert keys[j + 1] == rest[i];
        }
      }
    }
  }

  /** A RocksDB iterator with its bounds: the keys in the range, in bytewise order. */
  method Scan(db: ByteStore, lower: Bytes, upper: Option<Bytes>) returns (keys: seq<Bytes>)
    ensures forall x :: x in keys <==> x in db && AtMost(lower, x) && (upper.Some? ==> Less(x, upper.value))
    ensures Increasing(keys)
  {
    hide Less, InsertKey;
    var rest := db.Keys;
    keys := [];
    while rest != {}
      invariant rest <= db.Keys && Increasing(keys)
      invariant forall x :: x in keys <==>
                  x in db.Keys - rest && AtMost(lower, x) && (upper.Some? ==> Less(x, upper.value))
      decreases |rest|
    {
      var k :| k in rest;
      rest := rest - {k};
      if AtMost(lower, k) && (upper.None? || Less(k, upper.value)) {
        InsertKeyIncreasing(keys, k);
        InsertKeyElements(keys, k);
        keys := InsertKey(keys, k);
      }
    }
  }

  /** The name scan's keys with the prefix come before all others. */
  lemma PrefixFirst(x: Bytes, y: Bytes)
    requires AtMost(TTP, x) && Less(x, y) && |y| >= 3 && y[..3] == TTP
    ensures |x| >= 3 && x[..3] == TTP
  {
    assert TTP + [] == TTP && y == TTP + y[3..];
    BetweenHasPrefix(TTP, [], y[3..], x);
  }

  lemma StartsWithTable(name: Bytes)
    ensures |Encode(TableKey(name))| >= 3 && Encode(TableKey(name))[..3] == TTP
  {
    NameKeyPrefix(TableKey(name));
  }

  // ---- Maps filled step by step ----

  ghost predicate Sub<K, V>(m: map<K, V>, h: map<K, V>) {
    forall k :: k in m ==> k in h && m[k] == h[k]
  }

  lemma SubPut<K, V>(m: map<K, V>, h: map<K, V>, k: K)
    requires Sub(m, h) && k in h
    ensures Sub(m[k := h[k]], h)
  {
  }

  lemma SubEmpty<K, V>(h: map<K, V>)
    ensures Sub(map[], h)
  {
  }

  /** If `x` is a table-name key, its table has been entered. */
  ghost predicate NameRead(c: D.Cache, held: D.Cache, x: Bytes) {
    forall n :: x == Encode(TableKey(n)) ==> n in c.tids && n in held.tids && held.tids[n] in c.names
  }

  lemma NameReadNow(c: D.Cache, held: D.Cache, x: Bytes, name: Bytes)
    requires x == Encode(TableKey(name)) && name in c.tids && name in held.tids && held.tids[name] in c.names
    ensures NameRead(c, held, x)
  {
    forall n | x == Encode(TableKey(n))
      ensures n == name
    {
      EncodeInjective(TableKey(n), TableKey(name));
    }
  }

  lemma NamesComplete(c: D.Cache, held: D.Cache, s: Store)
    requires D.NamesOk(D.DB(s, held)) && Sub(c.tids, held.tids) && Sub(c.names, held.names)
    requires forall n :: n in held.tids ==> NameRead(c, held, Encode(TableKey(n)))
    ensures c.tids == held.tids && c.names == held.names
  {
    forall t | t in held.names
      ensures t in c.names
    {
      assert NameRead(c, held, Encode(TableKey(held.names[t])));
    }
    forall n | n in held.tids
      ensures n in c.tids
    {
      assert NameRead(c, held, Encode(TableKey(n)));
    }
    assert c.tids.Keys == held.tids.Keys && c.names.Keys == held.names.Keys;
  }

  function ScanBound(schema: bool, tid: U64): Bytes {
    ((if schema then TMP else TSS) + []) + Num64(tid)
  }

  lemma OnlyTid(x: Bytes, tid: U64, schema: bool)
    requires x == Encode(if schema then SchemaKey(tid) else NextKey(tid))
    ensures forall t :: x == Encode(if schema then SchemaKey(t) else NextKey(t)) ==> t == tid
  {
    hide Encode;
    forall t | x == Encode(if schema then SchemaKey(t) else NextKey(t))
      ensures t == tid
    {
      EncodeInjective(if schema then SchemaKey(t) else NextKey(t), if schema then SchemaKey(tid) else NextKey(tid));
    }
  }

  /** All maps of a held cache speak of the same tables. */
  lemma TablesKnown(s: Store, held: D.Cache)
    requires D.DbOk(D.DB(s, held))
    ensures forall t :: t in held.segs <==> t in held.names
    ensures forall t :: t in held.offs <==> t in held.names
    ensures forall n :: n in held.schemas ==>
              n in held.tids && held.tids[n] in held.names && held.names[held.tids[n]] == n
  {
    hide TableOk, D.NoStrays, S.SchemaBytes;
  }

  // ---- RocksDBImpl ----

  class RocksDBImpl {
    var db: ByteStore
    const cache: DBCache
    /** What the bytes mean. */
    ghost var store: Store

    ghost predicate Valid()
      reads this
    {
      Encodes(db, store)
    }

    ghost function View(): D.DB
      reads this, cache
    {
      D.DB(store, cache.View())
    }

    /** A lookup by the bytes of a key is a lookup of the key. */
    lemma Lookup(k: Key)
      requires Valid()
      ensures Encode(k) in db <==> k in store
      ensures k in store ==> db[Encode(k)] == EncodeVal(store[k])
    {
      EncodesLookup(db, store, k);
    }

    /** The uid part of AddDoc (lines 634-666): the mapping is looked up, deleted if it is in
        another segment, and written; `left` is the address left behind, empty if none. */
    method PutUid(tid: U64, sid: U64, offset: U64, uid: Bytes)
      returns (ops: seq<ByteOp>, left: Bytes, offsetUsed: U64, hasNew: bool)
      requires Valid()
      requires UidKey(tid, uid) in store ==> store[UidKey(tid, uid)].At?
      ensures var p := PlanFor(store, tid, Addr(sid, offset), uid);
              && ops == EncodeOps(UidOps(tid, p, uid)) && p.addr == Addr(sid, offsetUsed) && hasNew == p.isNew
              && left == if p.was.Some? then AddrBytes(p.was.value) else []
    {
      hide Valid;
      ops, left, offsetUsed, hasNew := [], [], offset, true;
      var key := Key64(TID, tid);
      key := key + uid;
      assert key == Encode(UidKey(tid, uid)) by { assert TID + Num64(tid) + uid == TID + (Num64(tid) + uid); }
      Lookup(UidKey(tid, uid));
      if key in db {
        left := db[key];
        ghost var a := store[UidKey(tid, uid)].addr;
        AddrParts(a);
        var sidUsed := Deserialize(left[..8]);
        if sidUsed != sid {
          ops := ops + [DeleteBytes(key)];
        } else {
          hasNew := false;
          offsetUsed := Deserialize(left[8..16]);
          left := [];
        }
      }
      var val := AddrValue(sid, offsetUsed);
      ops := ops + [PutBytes(key, val)];
    }

    /** The field part of AddDoc (lines 668-729): an old version's record and index entry are
        deleted, the new ones written. */
    method PutField(tid: U64, left: Bytes, sid: U64, offsetUsed: U64, fid: Byte, v: Bytes, ghost p: Plan)
      returns (ops: seq<ByteOp>)
      requires Valid() && p.addr == Addr(sid, offsetUsed)
      requires left == if p.was.Some? then AddrBytes(p.was.value) else []
      requires p.was.Some? ==> HasRaw(store, ValueKey(tid, p.was.value, fid))
      ensures ops == EncodeOps(FieldOps(store, tid, p, fid, v))
    {
      hide Valid, Encode, AddrBytes;
      ops := [];
      if left != [] {
        var fieldKey := ValueKeyBytes(tid, left, fid, p.was.value);
        Lookup(ValueKey(tid, p.was.value, fid));
        var fval := db[fieldKey];
        ops := ops + [DeleteBytes(fieldKey)];
        var indexKey := IndexKeyBytes(tid, fid, fval, left, p.was.value);
        ops := ops + [DeleteBytes(indexKey)];
      }
      var addr := AddrValue(sid, offsetUsed);
      var valueKey := ValueKeyBytes(tid, addr, fid, p.addr);
      ops := ops + [PutBytes(valueKey, v)];
      var key := IndexKeyBytes(tid, fid, v, addr, p.addr);
      ops := ops + [PutBytes(key, [])];
      assert |AddrBytes(p.addr)| == 16;
    }

    /** The end of AddDoc (lines 733-752): the cursor moves on after a new document. */
    method PutCursor(tid: U64, sid: U64, offset: U64, hasNew: bool, ghost p: Plan)
      returns (ops: seq<ByteOp>, sid': U64, offset': U64, rolled: bool)
      requires offset < SEGMENT_SIZE && hasNew == p.isNew
      ensures ops == EncodeOps(CursorOps(tid, Addr(sid, offset), p))
      ensures Addr(sid', offset') == NewCursor(Addr(sid, offset), p) && rolled == Rolls(Addr(sid, offset), p)
    {
      ops, sid', offset', rolled := [], sid, offset, false;
      if hasNew {
        offset' := offset + 1;
        if offset' >= SEGMENT_SIZE {
          sid' := (sid + 1) % 0x1_0000_0000_0000_0000;
          offset' := 0;
          rolled := true;
          var seg := Key64(TSP, tid);
          var v := Serialize(sid', 8, []);
          assert [] + Num64(sid') == Num64(sid');
          ops := ops + [PutBytes(seg, v)];
        }
      }
      var key := Key64(TSS, tid);
      var val := AddrValue(sid', offset');
      ops := ops + [PutBytes(key, val)];
    }

    /** The loop over the fields (lines 631-731) after the uid. */
    method PutFields(doc: Doc, tid: U64, left: Bytes, sid: U64, offsetUsed: U64, ghost p: Plan)
      returns (ops: seq<ByteOp>)
      requires Valid() && 1 <= |doc| <= 255 && p.addr == Addr(sid, offsetUsed)
      requires left == if p.was.Some? then AddrBytes(p.was.value) else []
      requires p.was.Some? ==> forall f: Byte :: f < |doc| ==> HasRaw(store, ValueKey(tid, p.was.value, f))
      ensures ops == EncodeOps(FieldsOps(store, tid, p, doc, |doc|))
    {
      hide Valid, Encode, AddrBytes, FieldOps, EncodeOps;
      ops := [];
      assert EncodeOps([]) == [] by { EncodeNone(); }
      var fid := 0;
      while fid < |doc|
        invariant 0 <= fid <= |doc|
        invariant ops == EncodeOps(FieldsOps(store, tid, p, doc, fid))
      {
        var more := PutField(tid, left, sid, offsetUsed, fid, doc[fid], p);
        EncodeOpsConcat(FieldsOps(store, tid, p, doc, fid), FieldOps(store, tid, p, fid, doc[fid]));
        ops := ops + more;
        fid := fid + 1;
      }
    }

    /** AddDoc on a batch (lines 617-753): segment and offset are passed on to the next
        document of the batch. */
    method AddToBatch(doc: Doc, tid: U64, sid: U64, offset: U64)
      returns (ops: seq<ByteOp>, sid': U64, offset': U64, rolled: bool)
      requires Valid() && 1 <= |doc| <= 255 && offset < SEGMENT_SIZE && Readable(store, tid, |doc|)
      ensures var cur := Addr(sid, offset);
              var p := PlanFor(store, tid, cur, doc[0]);
              && ops == EncodeOps(DocOps(store, tid, cur, doc))
              && Addr(sid', offset') == NewCursor(cur, p) && rolled == Rolls(cur, p)
    {
      hide Valid, AddrBytes, UidOps, FieldsOps, CursorOps, EncodeOps, NewCursor, Rolls;
      ghost var p := PlanFor(store, tid, Addr(sid, offset), doc[0]);
      var uidOps, left, offsetUsed, hasNew := PutUid(tid, sid, offset, doc[0]);
      var fieldOps := PutFields(doc, tid, left, sid, offsetUsed, p);
      var cursorOps;
      cursorOps, sid', offset', rolled := PutCursor(tid, sid, offset, hasNew, p);
      ops := uidOps + fieldOps + cursorOps;
      EncodeOpsConcat(UidOps(tid, p, doc[0]), FieldsOps(store, tid, p, doc, |doc|));
      EncodeOpsConcat(UidOps(tid, p, doc[0]) + FieldsOps(store, tid, p, doc, |doc|),
                      CursorOps(tid, Addr(sid, offset), p));
    }

    /** The loop of AddDocs over the batch (lines 548-556). */
    method BuildBatch(docs: seq<Doc>, tid: U64, sid0: U64, offset0: U64, ghost n: nat)
      returns (batch: seq<ByteOp>, sid: U64, offset: U64, updated: bool)
      requires Valid() && Whole(docs, n) && offset0 < SEGMENT_SIZE && Readable(store, tid, n)
      ensures var b := BatchOps(store, tid, Addr(sid0, offset0), docs, n);
              batch == EncodeOps(b.ops) && Addr(sid, offset) == b.cur && updated == b.rolled
    {
      hide Valid, Readable, EncodeOps, DocOps, PlanFor, NewCursor, Rolls;
      batch, sid, offset, updated := [], sid0, offset0, false;
      ghost var done: seq<Op> := [];
      assert EncodeOps([]) == [] by { EncodeNone(); }
      ghost var all := BatchOps(store, tid, Addr(sid0, offset0), docs, n);
      var i := 0;
      assert docs[0..] == docs;
      while i < |docs|
        invariant 0 <= i <= |docs| && offset < SEGMENT_SIZE && batch == EncodeOps(done)
        invariant var rest := BatchOps(store, tid, Addr(sid, offset), docs[i..], n);
                  all == Batch(done + rest.ops, rest.cur, updated || rest.rolled)
      {
        ghost var cur := Addr(sid, offset);
        assert docs[i..][0] == docs[i] && docs[i..][1..] == docs[i + 1..];
        var ops, sid', offset', rolled := AddToBatch(docs[i], tid, sid, offset);
        EncodeOpsConcat(done, DocOps(store, tid, cur, docs[i]));
        batch := batch + ops;
        ghost var rest := BatchOps(store, tid, Addr(sid', offset'), docs[i + 1..], n).ops;
        assert done + (DocOps(store, tid, cur, docs[i]) + rest) == (done + DocOps(store, tid, cur, docs[i])) + rest;
        done := done + DocOps(store, tid, cur, docs[i]);
        sid, offset, updated := sid', offset', updated || rolled;
        i := i + 1;
      }
      assert done + [] == done;
    }

    /** The table's own state, as the cache knows it. */
    lemma KnownTable(name: Bytes)
      requires D.DbOk(View()) && D.Known(cache.View(), name)
      ensures var tid := cache.tids[name];
              && tid in cache.offs && cache.offs[tid] < SEGMENT_SIZE
              && Readable(store, tid, |cache.schemas[name]|)
    {
      var tid := cache.tids[name];
      hide TableOk, Readable, D.NoStrays;
      assert TableOk(store, tid, |cache.schemas[name]|, Addr(cache.segs[tid], cache.offs[tid]));
      TableReadable(store, tid, |cache.schemas[name]|, Addr(cache.segs[tid], cache.offs[tid]));
      assert cache.offs[tid] < SEGMENT_SIZE by {
        CursorInSegment(store, tid, |cache.schemas[name]|, Addr(cache.segs[tid], cache.offs[tid]));
      }
    }

    /** rocksdb::DB::Write. */
    method Write(batch: seq<ByteOp>, ghost ops: seq<Op>)
      requires Valid() && batch == EncodeOps(ops)
      modifies this
      ensures Valid() && store == Apply(old(store), ops)
    {
      EncodesApply(db, store, ops);
      db := ApplyBytes(db, batch);
      store := Apply(store, ops);
    }

    /** AddDocs (lines 526-569). */
    method AddDocs(name: Bytes, docs: seq<Doc>) returns (status: D.Status)
      requires Valid() && D.DbOk(View()) && D.Fits(View(), name, docs)
      modifies this, cache
      ensures Valid() && (View(), status) == D.AddDocs(old(View()), name, docs)
    {
      hide Valid, D.DbOk, BatchOps, Apply, EncodeOps, Readable;
      if name !in cache.schemas || name !in cache.tids {
        return D.NotFound;
      }
      var tid := cache.tids[name];
      if tid !in cache.segs {
        return D.NotFound;
      }
      KnownTable(name);
      var sid, offset := cache.segs[tid], cache.offs[tid];
      ghost var n := |cache.schemas[name]|;
      ghost var b := BatchOps(store, tid, Addr(sid, offset), docs, n);
      var batch, updated;
      batch, sid, offset, updated := BuildBatch(docs, tid, sid, offset, n);
      Write(batch, b.ops);
      if updated {
        cache.UpdateSegMap(tid, sid);
      }
      cache.UpdateTidOffset(tid, offset);
      return D.OK;
    }

    /** AddDoc (lines 571-615). */
    method AddDoc(name: Bytes, doc: Doc, built: bool) returns (status: D.Status)
      requires Valid() && D.DbOk(View()) && (built ==> D.Fits(View(), name, [doc]))
      modifies this, cache
      ensures Valid() && (View(), status) == D.AddDoc(old(View()), name, doc, built)
    {
      hide Valid, D.DbOk, D.AddDocs, D.Fits;
      if name !in cache.schemas {
        return D.NotFound;
      }
      if !built {
        return D.InvalidArgument;
      }
      status := AddDocs(name, [doc]);
    }

    /** The batch of CreateTable (lines 768-807). */
    method TableBatch(tid: U64, name: Bytes, schema: D.Schema) returns (batch: seq<ByteOp>)
      ensures batch == EncodeOps(D.TableOps(tid, name, schema))
    {
      hide S.SchemaBytes, BigEndian;
      var t := Serialize(D.Succ(tid), 8, []);
      assert [] + Num64(D.Succ(tid)) == Num64(D.Succ(tid));
      assert TSK == TSK + [];
      var tv := Serialize(tid, 8, []);
      assert [] + Num64(tid) == Num64(tid);
      var segKey := Key64(TSP, tid);
      var segVal := Serialize(0, 8, []);
      assert [] + Num64(0) == Num64(0);
      var nextKey := Key64(TSS, tid);
      var nextVal := AddrValue(0, 0);
      var data := S.SerializeSchema(schema);
      var schemaKey := Key64(TMP, tid);
      batch := [PutBytes(TSK, t), PutBytes(TTP + name, tv), PutBytes(segKey, segVal), PutBytes(nextKey, nextVal),
                PutBytes(schemaKey, data)];
    }

    /** CreateTable (lines 755-835). */
    method CreateTable(name: Bytes, schema: D.Schema, built: bool) returns (status: D.Status)
      requires Valid()
      modifies this, cache
      ensures Valid() && (View(), status) == D.CreateTable(old(View()), name, schema, built)
    {
      hide Valid, Apply, D.TableOps, EncodeOps;
      Lookup(TableKey(name));
      assert Encode(TableKey(name)) == TTP + name;
      if TTP + name in db {
        return D.OK;
      }
      if !built {
        return D.InvalidArgument;
      }
      var tid := cache.next;
      var batch := TableBatch(tid, name, schema);
      Write(batch, D.TableOps(tid, name, schema));
      cache.UpdateSegMap(tid, 0);
      cache.UpdateTidOffset(tid, 0);
      cache.SetTid(D.Succ(tid), name, schema);
      cache.UpdateTableSchema(tid, schema);
      assert cache.schemas == old(cache.schemas)[name := schema];
      return D.OK;
    }

    /** The constructor runs Init (lines 20-136). On an empty store it writes the table sequence
        and starts with an empty cache. On a store left by earlier runs, whose cache was `held`,
        it rebuilds exactly that cache. */
    constructor (bytes: ByteStore, ghost was: Store, ghost held: D.Cache)
      requires Encodes(bytes, was)
      requires if SequenceKey in was then D.DbOk(D.DB(was, held)) else was == map[]
      ensures Valid() && fresh(cache)
      ensures View() == if SequenceKey in was then D.DB(was, held) else D.EmptyDB()
    {
      db, store := bytes, was;
      cache := new DBCache();
      new;
      hide Valid, Encodes, D.DbOk;
      Lookup(SequenceKey);
      assert Encode(SequenceKey) == TSK;
      if TSK !in db {
        var zero := Serialize(0, 8, []);
        assert zero == Num64(0);
        ApplyOne(store, Put(SequenceKey, Num(0)));
        Write([PutBytes(TSK, zero)], [Put(SequenceKey, Num(0))]);
      } else {
        ReadSequence(held);
        ReadNames(held);
        ReadCursors(held);
        ReadSchemas(held);
      }
    }

    /** Lines 49-51. */
    method ReadSequence(ghost held: D.Cache)
      requires Valid() && D.DbOk(D.DB(store, held)) && cache.View() == D.Cache(0, map[], map[], map[], map[], map[])
      modifies cache
      ensures cache.View() == D.Cache(held.next, map[], map[], map[], map[], map[])
    {
      Lookup(SequenceKey);
      hide Valid, D.SchemasOk, D.TablesOk, D.NoStrays;
      assert Encode(SequenceKey) == TSK;
      Num64Injective(held.next, held.next);
      var tid := Deserialize(db[TSK]);
      cache.next := tid;
    }

    /** A scanned table-name key, and what the cache held for it. */
    lemma NameKey(x: Bytes, held: D.Cache) returns (name: Bytes)
      requires Valid() && D.NamesOk(D.DB(store, held)) && x in db && |x| >= 3 && x[..3] == TTP
      ensures x == Encode(TableKey(name)) && name == x[3..] && name in held.tids
      ensures db[x] == Num64(held.tids[name]) && held.tids[name] in held.names && held.names[held.tids[name]] == name
    {
      var k :| k in store && x == Encode(k);
      NameKeyPrefix(k);
      name := k.name;
      Lookup(k);
      assert Get(store, TableKey(name)) == if name in held.tids then Some(Num(held.tids[name])) else None;
    }

    lemma NameScanned(name: Bytes, held: D.Cache)
      requires Valid() && D.NamesOk(D.DB(store, held)) && name in held.tids
      ensures Encode(TableKey(name)) in db && AtMost(TTP, Encode(TableKey(name)))
    {
      assert Get(store, TableKey(name)) == Some(Num(held.tids[name]));
      Lookup(TableKey(name));
      LessPieces(TTP, [], TTP, name);
      assert TTP + [] == TTP;
    }

    /** Lines 55-74: the scan over the table names. */
    method ReadNames(ghost held: D.Cache)
      requires Valid() && D.DbOk(D.DB(store, held))
               && cache.View() == D.Cache(held.next, map[], map[], map[], map[], map[])
      modifies cache
      ensures cache.View() == D.Cache(held.next, held.tids, held.names, map[], map[], map[])
    {
      hide Valid, D.SchemasOk, D.TablesOk, D.NoStrays, D.NamesOk, Less, Encode;
      var keys := Scan(db, TTP, None);
      var i := 0;
      while i < |keys|
        invariant 0 <= i <= |keys| && Valid() && unchanged(this)
        invariant cache.next == held.next && cache.schemas == map[] && cache.segs == map[] && cache.offs == map[]
        invariant Sub(cache.tids, held.tids) && Sub(cache.names, held.names)
        invariant forall j :: 0 <= j < i ==> NameRead(cache.View(), held, keys[j])
      {
        if |keys[i]| < 3 || keys[i][..3] != TTP {
          break;
        }
        ghost var n := NameKey(keys[i], held);
        var name := keys[i][3..];
        Num64Injective(held.tids[name], held.tids[name]);
        var tid := Deserialize(db[keys[i]]);
        cache.UpdateTableName(tid, name);
        NameReadNow(cache.View(), held, keys[i], name);
        i := i + 1;
      }
      forall n | n in held.tids
        ensures NameRead(cache.View(), held, Encode(TableKey(n)))
      {
        NameScanned(n, held);
        var j :| 0 <= j < |keys| && keys[j] == Encode(TableKey(n));
        StartsWithTable(n);
        if i < j {
          PrefixFirst(keys[i], keys[j]);
        }
      }
      NamesComplete(cache.View(), held, store);
    }

    /** A key that the scan over one of the per-table prefixes returns. */
    lemma TidKey(x: Bytes, held: D.Cache, schema: bool) returns (tid: U64)
      requires Valid() && D.DbOk(D.DB(store, held)) && x in db
      requires InRange(x, ScanBound(schema, 0), ScanBound(schema, held.next))
      ensures x == Encode(if schema then SchemaKey(tid) else NextKey(tid)) && tid in held.names
      ensures (if schema then SchemaKey(tid) else NextKey(tid)) in store
      ensures |x| == 11 && FromBigEndian(x[3..11]) == tid
    {
      hide D.NamesOk, D.SchemasOk, D.TablesOk, InRange, Less, AddrBytes;
      var k :| k in store && x == Encode(k);
      TidRangeExact(k, held.next, schema);
      tid := k.tid;
      Num64Injective(tid, tid);
      assert x[3..11] == Num64(tid);
    }

    /** The scans' bounds (lines 76-84, 107-115). */
    method TidScan(schema: bool, ghost held: D.Cache) returns (keys: seq<Bytes>)
      requires Valid() && D.DbOk(D.DB(store, held))
      ensures forall x :: x in keys <==>
                x in db && InRange(x, ScanBound(schema, 0), ScanBound(schema, held.next))
    {
      hide Valid, D.SchemasOk, D.TablesOk, D.NoStrays, Less;
      Lookup(SequenceKey);
      assert Encode(SequenceKey) == TSK;
      var prefix := if schema then TMP else TSS;
      var lower := Serialize(0, 8, prefix);
      var upper := prefix + db[TSK];
      assert prefix + [] == prefix;
      keys := Scan(db, lower, Some(upper));
    }

    lemma TidScanned(tid: U64, held: D.Cache, schema: bool)
      requires Valid() && D.DbOk(D.DB(store, held)) && tid in held.names
      requires (if schema then SchemaKey(tid) else NextKey(tid)) in store
      ensures var x := Encode(if schema then SchemaKey(tid) else NextKey(tid));
              x in db && InRange(x, ScanBound(schema, 0), ScanBound(schema, held.next))
    {
      hide D.SchemasOk, D.TablesOk, D.NoStrays, InRange, Valid;
      Lookup(if schema then SchemaKey(tid) else NextKey(tid));
      assert held.tids[held.names[tid]] == tid;
      TidRangeExact(if schema then SchemaKey(tid) else NextKey(tid), held.next, schema);
    }

    /** The cursor record of a known table. */
    lemma CursorRecord(tid: U64, held: D.Cache)
      requires D.DbOk(D.DB(store, held)) && tid in held.names
      ensures tid in held.segs && tid in held.offs
      ensures Get(store, NextKey(tid)) == Some(At(Addr(held.segs[tid], held.offs[tid])))
    {
      hide UidsOk, ValuesOk, Indexed, IndexBelow, D.NoStrays;
      assert held.names[tid] in held.tids && held.names[tid] in held.schemas;
      assert TableOk(store, tid, |held.schemas[held.names[tid]]|, Addr(held.segs[tid], held.offs[tid]));
    }

    /** One step of the scan over the cursors (lines 86-104). */
    method ReadCursor(key: Bytes, ghost held: D.Cache) returns (ghost t: U64)
      requires Valid() && D.DbOk(D.DB(store, held)) && key in db
      requires InRange(key, ScanBound(false, 0), ScanBound(false, held.next))
      modifies cache
      ensures unchanged(this) && key == Encode(NextKey(t)) && t in held.names && t in held.segs && t in held.offs
      ensures cache.View() == old(cache.View()).(segs := old(cache.segs)[t := held.segs[t]],
                                                 offs := old(cache.offs)[t := held.offs[t]])
    {
      hide Valid, D.DbOk, Encode, InRange, AddrBytes;
      t := TidKey(key, held, false);
      CursorRecord(t, held);
      Lookup(NextKey(t));
      AddrParts(Addr(held.segs[t], held.offs[t]));
      var tid := Deserialize(key[3..11]);
      var val := db[key];
      var sid := Deserialize(val[..8]);
      var id := Deserialize(val[8..16]);
      cache.UpdateSegMap(tid, sid);
      cache.UpdateTidOffset(tid, id);
    }

    /** Every cursor was met by the scan. */
    lemma CursorsComplete(keys: seq<Bytes>, held: D.Cache)
      requires Valid() && D.DbOk(D.DB(store, held)) && Sub(cache.segs, held.segs) && Sub(cache.offs, held.offs)
      requires forall x :: x in keys <==>
                 x in db && InRange(x, ScanBound(false, 0), ScanBound(false, held.next))
      requires forall j, t :: 0 <= j < |keys| && keys[j] == Encode(NextKey(t)) ==> t in cache.segs && t in cache.offs
      ensures cache.segs == held.segs && cache.offs == held.offs
    {
      hide Valid, D.DbOk, Encode, InRange;
      forall t | t in held.names
        ensures t in cache.segs && t in cache.offs
      {
        CursorRecord(t, held);
        TidScanned(t, held, false);
        var j :| 0 <= j < |keys| && keys[j] == Encode(NextKey(t));
      }
      TablesKnown(store, held);
      assert cache.segs.Keys == held.segs.Keys && cache.offs.Keys == held.offs.Keys;
    }

    /** Lines 76-105: the scan over the cursors. */
    method ReadCursors(ghost held: D.Cache)
      requires Valid() && D.DbOk(D.DB(store, held))
               && cache.View() == D.Cache(held.next, held.tids, held.names, map[], map[], map[])
      modifies cache
      ensures cache.View() == D.Cache(held.next, held.tids, held.names, map[], held.segs, held.offs)
    {
      hide Valid, D.DbOk, Encode, InRange, ScanBound, Sub;
      var keys := TidScan(false, held);
      SubEmpty(held.segs);
      SubEmpty(held.offs);
      var i := 0;
      while i < |keys|
        invariant 0 <= i <= |keys| && Valid() && unchanged(this)
        invariant cache.View() == D.Cache(held.next, held.tids, held.names, map[], cache.segs, cache.offs)
        invariant Sub(cache.segs, held.segs) && Sub(cache.offs, held.offs)
        invariant forall j, t :: 0 <= j < i && keys[j] == Encode(NextKey(t)) ==> t in cache.segs && t in cache.offs
      {
        assert keys[i] in keys;
        ghost var segs, offs := cache.segs, cache.offs;
        ghost var t := ReadCursor(keys[i], held);
        SubPut(segs, held.segs, t);
        SubPut(offs, held.offs, t);
        OnlyTid(keys[i], t, false);
        i := i + 1;
      }
      CursorsComplete(keys, held);
    }

    /** The schema record of a known table reads back as the schema. */
    lemma SchemaRecord(tid: U64, held: D.Cache)
      requires D.DbOk(D.DB(store, held)) && tid in held.names
      ensures held.names[tid] in held.schemas
      ensures Get(store, SchemaKey(tid)) == Some(Raw(S.SchemaBytes(held.schemas[held.names[tid]])))
      ensures S.Parse(S.SchemaBytes(held.schemas[held.names[tid]])) == Some(held.schemas[held.names[tid]])
    {
      hide D.NoStrays, D.TablesOk, S.SchemaBytes, S.Parse, S.Sorted, S.Storable;
      assert held.names[tid] in held.tids;
      S.SchemaRoundTrip(held.schemas[held.names[tid]]);
    }

    /** One step of the scan over the schemas (lines 118-134). */
    method ReadSchema(key: Bytes, ghost held: D.Cache) returns (ghost t: U64)
      requires Valid() && D.DbOk(D.DB(store, held)) && key in db
      requires InRange(key, ScanBound(true, 0), ScanBound(true, held.next))
      requires cache.View() == held.(schemas := cache.schemas)
      modifies cache
      ensures unchanged(this) && key == Encode(SchemaKey(t)) && t in held.names && held.names[t] in held.schemas
      ensures cache.View() == held.(schemas := cache.schemas)
      ensures cache.schemas == old(cache.schemas)[held.names[t] := held.schemas[held.names[t]]]
    {
      hide Valid, D.DbOk, Encode, InRange, S.SchemaBytes, S.Parse;
      t := TidKey(key, held, true);
      SchemaRecord(t, held);
      Lookup(SchemaKey(t));
      var schema := S.DeserializeSchema(db[key]);
      var tid := Deserialize(key[3..11]);
      cache.UpdateTableSchema(tid, schema.value);
    }

    /** Every schema was met by the scan. */
    lemma SchemasComplete(keys: seq<Bytes>, held: D.Cache)
      requires Valid() && D.DbOk(D.DB(store, held)) && Sub(cache.schemas, held.schemas)
      requires forall x :: x in keys <==>
                 x in db && InRange(x, ScanBound(true, 0), ScanBound(true, held.next))
      requires forall j, t :: 0 <= j < |keys| && keys[j] == Encode(SchemaKey(t)) ==>
                 t in held.names && held.names[t] in cache.schemas
      ensures cache.schemas == held.schemas
    {
      hide Valid, D.DbOk, Encode, InRange, S.SchemaBytes, S.Parse;
      forall t | t in held.names
        ensures held.names[t] in cache.schemas
      {
        SchemaRecord(t, held);
        TidScanned(t, held, true);
        var j :| 0 <= j < |keys| && keys[j] == Encode(SchemaKey(t));
      }
      TablesKnown(store, held);
      forall n | n in held.schemas
        ensures n in cache.schemas
      {
        assert held.names[held.tids[n]] == n;
      }
      assert cache.schemas.Keys == held.schemas.Keys;
    }

    /** Lines 107-135: the scan over the schemas. */
    method ReadSchemas(ghost held: D.Cache)
      requires Valid() && D.DbOk(D.DB(store, held))
               && cache.View() == D.Cache(held.next, held.tids, held.names, map[], held.segs, held.offs)
      modifies cache
      ensures cache.View() == held
    {
      hide Valid, D.DbOk, Encode, InRange, ScanBound, Sub;
      var keys := TidScan(true, held);
      SubEmpty(held.schemas);
      var i := 0;
      while i < |keys|
        invariant 0 <= i <= |keys| && Valid() && unchanged(this)
        invariant cache.View() == held.(schemas := cache.schemas) && Sub(cache.schemas, held.schemas)
        invariant forall j, t :: 0 <= j < i && keys[j] == Encode(SchemaKey(t)) ==>
                    t in held.names && held.names[t] in cache.schemas
      {
        assert keys[i] in keys;
        ghost var schemas := cache.schemas;
        ghost var t := ReadSchema(keys[i], held);
        SubPut(schemas, held.schemas, held.names[t]);
        OnlyTid(keys[i], t, true);
        i := i + 1;
      }
      SchemasComplete(keys, held);
    }
  }

  lemma EncodeNone()
    ensures EncodeOps([]) == []
  {
  }
}
