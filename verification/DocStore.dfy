/** Adding documents to one table of the rocksdb_lab store: which records a document writes
    and deletes, and what every addition keeps (rocksdb_lab/rocksdb_impl.cpp:617-753).

    A document is the sequence of its serialized fields; field 0 is the one the store looks
    documents up by, called its uid here. */
module DocStore {
  import opened ByteStrings
  import opened StoreKeys
  import opened Options

  /** DBTableSegmentSize (rocksdb_util.h:10). */
  const SEGMENT_SIZE := 50000

  type Doc = seq<Bytes>

  function Get(s: Store, k: Key): Option<Val> {
    if k in s then Some(s[k]) else None
  }

  /** The address after `c` in allocation order; a full segment is followed by the next one. */
  function NextAddr(c: Addr): (r: Addr)
    requires c.id < SEGMENT_SIZE
    ensures r.id < SEGMENT_SIZE
  {
    if c.id + 1 >= SEGMENT_SIZE then Addr((c.sid + 1) % 0x1_0000_0000_0000_0000, 0) else Addr(c.sid, c.id + 1)
  }

  predicate Before(a: Addr, c: Addr) {
    a.sid < c.sid || (a.sid == c.sid && a.id < c.id)
  }

  // ---- One document (rocksdb_impl.cpp:617-753) ----

  /** Where the document goes, and the address of an older version in another segment. */
  datatype Plan = Plan(addr: Addr, was: Option<Addr>, isNew: bool)

  /** Lines 640-660: a uid found in the current segment is overwritten in place; one found in
      another segment is moved. */
  function PlanFor(s: Store, tid: U64, cur: Addr, uid: Bytes): Plan {
    match Get(s, UidKey(tid, uid))
    case Some(At(a)) => if a.sid == cur.sid then Plan(a, None, false) else Plan(cur, Some(a), true)
    case _ => Plan(cur, None, true)
  }

  /** The stored value of a field, for the index entry to delete (lines 669-688). */
  function OldVal(s: Store, tid: U64, a: Addr, f: Byte): Bytes {
    match Get(s, ValueKey(tid, a, f))
    case Some(Raw(v)) => v
    case _ => []
  }

  function FieldOps(s: Store, tid: U64, p: Plan, f: Byte, v: Bytes): seq<Op> {
    (if p.was.Some?
     then [Delete(ValueKey(tid, p.was.value, f)),
           Delete(IndexKey(tid, f, OldVal(s, tid, p.was.value, f), p.was.value))]
     else [])
    + [Put(ValueKey(tid, p.addr, f), Raw(v)), Put(IndexKey(tid, f, v, p.addr), Raw([]))]
  }

  /** The first m fields. */
  function FieldsOps(s: Store, tid: U64, p: Plan, doc: Doc, m: nat): seq<Op>
    requires m <= |doc| <= 255
  {
    if m == 0 then [] else FieldsOps(s, tid, p, doc, m - 1) + FieldOps(s, tid, p, m - 1, doc[m - 1])
  }

  function UidOps(tid: U64, p: Plan, uid: Bytes): seq<Op> {
    (if p.was.Some? then [Delete(UidKey(tid, uid))] else []) + [Put(UidKey(tid, uid), At(p.addr))]
  }

  function NewCursor(cur: Addr, p: Plan): (r: Addr)
    requires cur.id < SEGMENT_SIZE
    ensures r.id < SEGMENT_SIZE
  {
    if p.isNew then NextAddr(cur) else cur
  }

  /** A new segment is begun exactly when a new document filled the old one (lines 733-744). */
  predicate Rolls(cur: Addr, p: Plan) { p.isNew && cur.id + 1 >= SEGMENT_SIZE }

  function CursorOps(tid: U64, cur: Addr, p: Plan): seq<Op>
    requires cur.id < SEGMENT_SIZE
  {
    (if Rolls(cur, p) then [Put(SegmentKey(tid), Num(NewCursor(cur, p).sid))] else [])
    + [Put(NextKey(tid), At(NewCursor(cur, p)))]
  }

  /** Everything one document adds to the write batch, reading from `s`. */
  function DocOps(s: Store, tid: U64, cur: Addr, doc: Doc): seq<Op>
    requires cur.id < SEGMENT_SIZE && 1 <= |doc| <= 255
  {
    var p := PlanFor(s, tid, cur, doc[0]);
    UidOps(tid, p, doc[0]) + FieldsOps(s, tid, p, doc, |doc|) + CursorOps(tid, cur, p)
  }

  // ---- What the operations do, key by key ----

  /** The lookups after the first m fields have been written over `s`, old values read from `r`. */
  function FieldsGet(s: Store, r: Store, tid: U64, p: Plan, doc: Doc, m: nat, k: Key): Option<Val>
    requires m <= |doc| <= 255
  {
    match k
    case ValueKey(t, a, f) =>
      if t != tid || f >= m then Get(s, k)
      else if a == p.addr then Some(Raw(doc[f]))
      else if p.was == Some(a) then None
      else Get(s, k)
    case IndexKey(t, f, v, a) =>
      if t != tid || f >= m then Get(s, k)
      else if a == p.addr && v == doc[f] then Some(Raw([]))
      else if p.was == Some(a) && v == OldVal(r, tid, a, f) then None
      else Get(s, k)
    case _ => Get(s, k)
  }

  lemma ApplyOne(s: Store, op: Op)
    ensures Apply(s, [op]) == ApplyOp(s, op)
  {
    assert [op][1..] == [];
  }

  lemma ApplyTwo(s: Store, a: Op, b: Op)
    ensures Apply(s, [a, b]) == ApplyOp(ApplyOp(s, a), b)
  {
    assert [a, b] == [a] + [b];
    ApplyConcat(s, [a], [b]);
    ApplyOne(s, a);
    ApplyOne(ApplyOp(s, a), b);
  }

  lemma FieldEffect(s: Store, r: Store, tid: U64, p: Plan, f: Byte, v: Bytes, k: Key)
    requires p.was != Some(p.addr)
    ensures Get(Apply(s, FieldOps(r, tid, p, f, v)), k) ==
              if k == ValueKey(tid, p.addr, f) then Some(Raw(v))
              else if k == IndexKey(tid, f, v, p.addr) then Some(Raw([]))
              else if p.was.Some? && (k == ValueKey(tid, p.was.value, f)
                                      || k == IndexKey(tid, f, OldVal(r, tid, p.was.value, f), p.was.value)) then None
              else Get(s, k)
  {
    var puts := [Put(ValueKey(tid, p.addr, f), Raw(v)), Put(IndexKey(tid, f, v, p.addr), Raw([]))];
    if p.was.Some? {
      var k1, k2 := ValueKey(tid, p.was.value, f), IndexKey(tid, f, OldVal(r, tid, p.was.value, f), p.was.value);
      ApplyConcat(s, [Delete(k1), Delete(k2)], puts);
      ApplyTwo(s, Delete(k1), Delete(k2));
      ApplyTwo(s - {k1} - {k2}, puts[0], puts[1]);
    } else {
      assert [] + puts == puts;
      ApplyTwo(s, puts[0], puts[1]);
    }
  }

  lemma {:induction false} FieldsEffect(s: Store, r: Store, tid: U64, p: Plan, doc: Doc, m: nat, k: Key)
    requires m <= |doc| <= 255 && p.was != Some(p.addr)
    ensures Get(Apply(s, FieldsOps(r, tid, p, doc, m)), k) == FieldsGet(s, r, tid, p, doc, m, k)
    decreases m
  {
    hide FieldOps, Apply;
    if m == 0 {
      assert Apply(s, []) == s by { ApplyNone(s); }
    } else {
      var a, b := FieldsOps(r, tid, p, doc, m - 1), FieldOps(r, tid, p, m - 1, doc[m - 1]);
      ApplyConcat(s, a, b);
      FieldsEffect(s, r, tid, p, doc, m - 1, k);
      FieldEffect(Apply(s, a), r, tid, p, m - 1, doc[m - 1], k);
    }
  }

  lemma ApplyNone(s: Store)
    ensures Apply(s, []) == s
  {
  }

  /** The lookups after a whole document has been written over `s`, reading from `r`. */
  function DocGet(s: Store, r: Store, tid: U64, cur: Addr, doc: Doc, k: Key): Option<Val>
    requires cur.id < SEGMENT_SIZE && 1 <= |doc| <= 255
  {
    var p := PlanFor(r, tid, cur, doc[0]);
    if k == UidKey(tid, doc[0]) then Some(At(p.addr))
    else if k == NextKey(tid) then Some(At(NewCursor(cur, p)))
    else if k == SegmentKey(tid) && Rolls(cur, p) then Some(Num(NewCursor(cur, p).sid))
    else FieldsGet(s, r, tid, p, doc, |doc|, k)
  }

  lemma UidEffect(s: Store, tid: U64, p: Plan, uid: Bytes, k: Key)
    ensures Get(Apply(s, UidOps(tid, p, uid)), k) == if k == UidKey(tid, uid) then Some(At(p.addr)) else Get(s, k)
  {
    var del, put := Delete(UidKey(tid, uid)), Put(UidKey(tid, uid), At(p.addr));
    if p.was.Some? {
      ApplyConcat(s, [del], [put]);
      ApplyOne(s, del);
      ApplyOne(ApplyOp(s, del), put);
    } else {
      assert [] + [put] == [put];
      ApplyOne(s, put);
    }
  }

  lemma CursorEffect(s: Store, tid: U64, cur: Addr, p: Plan, k: Key)
    requires cur.id < SEGMENT_SIZE
    ensures Get(Apply(s, CursorOps(tid, cur, p)), k) ==
              if k == NextKey(tid) then Some(At(NewCursor(cur, p)))
              else if k == SegmentKey(tid) && Rolls(cur, p) then Some(Num(NewCursor(cur, p).sid))
              else Get(s, k)
  {
    var next := Put(NextKey(tid), At(NewCursor(cur, p)));
    if Rolls(cur, p) {
      var seg := Put(SegmentKey(tid), Num(NewCursor(cur, p).sid));
      ApplyConcat(s, [seg], [next]);
      ApplyOne(s, seg);
      ApplyOne(ApplyOp(s, seg), next);
    } else {
      assert [] + [next] == [next];
      ApplyOne(s, next);
    }
  }

  /** The plan's two addresses are in different segments. */
  lemma PlanApart(s: Store, tid: U64, cur: Addr, uid: Bytes)
    ensures var p := PlanFor(s, tid, cur, uid); p.was != Some(p.addr)
  {
  }

  /** The batch of one document, described without its order. */
  lemma DocEffect(s: Store, r: Store, tid: U64, cur: Addr, doc: Doc, k: Key)
    requires cur.id < SEGMENT_SIZE && 1 <= |doc| <= 255
    ensures Get(Apply(s, DocOps(r, tid, cur, doc)), k) == DocGet(s, r, tid, cur, doc, k)
  {
    var p := PlanFor(r, tid, cur, doc[0]);
    var a, b, c := UidOps(tid, p, doc[0]), FieldsOps(r, tid, p, doc, |doc|), CursorOps(tid, cur, p);
    hide Apply, UidOps, FieldsOps, CursorOps, NewCursor, Rolls, PlanFor, OldVal;
    PlanApart(r, tid, cur, doc[0]);
    ApplyConcat(s, a + b, c);
    ApplyConcat(s, a, b);
    UidEffect(s, tid, p, doc[0], k);
    FieldsEffect(Apply(s, a), r, tid, p, doc, |doc|, k);
    CursorEffect(Apply(Apply(s, a), b), tid, cur, p, k);
  }
}
