/** What every added document keeps in the records of its table, and when the secondary index
    agrees with the records exactly. */
module DocInvariants {
  import opened ByteStrings
  import opened StoreKeys
  import opened DocStore
  import opened Options

  predicate HasRaw(s: Store, k: Key) {
    k in s && s[k].Raw?
  }

  /** The document `uid` is complete at address `a`. */
  ghost predicate Complete(s: Store, tid: U64, n: nat, uid: Bytes, a: Addr) {
    && Get(s, ValueKey(tid, a, 0)) == Some(Raw(uid))
    && forall f: Byte :: f < n ==> HasRaw(s, ValueKey(tid, a, f))
  }

  /** Every uid is mapped to an address below the cursor at which its document is complete. */
  ghost predicate UidsOk(s: Store, tid: U64, n: nat, cur: Addr) {
    forall uid :: UidKey(tid, uid) in s ==>
      && s[UidKey(tid, uid)].At?
      && Before(s[UidKey(tid, uid)].addr, cur) && s[UidKey(tid, uid)].addr.id < SEGMENT_SIZE
      && Complete(s, tid, n, uid, s[UidKey(tid, uid)].addr)
  }

  /** Records lie below the cursor and are of fields of the schema. */
  ghost predicate ValuesOk(s: Store, tid: U64, n: nat, cur: Addr) {
    forall a: Addr, f: Byte :: ValueKey(tid, a, f) in s ==> f < n && s[ValueKey(tid, a, f)].Raw? && Before(a, cur)
  }

  /** Every record is indexed. */
  ghost predicate Indexed(s: Store, tid: U64) {
    forall a: Addr, f: Byte :: HasRaw(s, ValueKey(tid, a, f)) ==>
      Get(s, IndexKey(tid, f, s[ValueKey(tid, a, f)].bytes, a)) == Some(Raw([]))
  }

  /** Index entries lie below the cursor and name fields of the schema. */
  ghost predicate IndexBelow(s: Store, tid: U64, n: nat, cur: Addr) {
    forall f: Byte, v: Bytes, a: Addr :: IndexKey(tid, f, v, a) in s ==> Before(a, cur) && f < n
  }

  ghost predicate CursorOk(s: Store, tid: U64, cur: Addr) {
    && cur.id < SEGMENT_SIZE && Get(s, NextKey(tid)) == Some(At(cur))
    && Get(s, SegmentKey(tid)) == Some(Num(cur.sid))
  }

  /** What holds of a table with n fields whose next free address is `cur`. */
  ghost predicate TableOk(s: Store, tid: U64, n: nat, cur: Addr) {
    && 1 <= n <= 255 && CursorOk(s, tid, cur) && UidsOk(s, tid, n, cur) && ValuesOk(s, tid, n, cur)
    && Indexed(s, tid) && IndexBelow(s, tid, n, cur)
  }

  /** The segment number can still be incremented. */
  predicate Room(cur: Addr) { cur.sid + 1 < 0x1_0000_0000_0000_0000 }

  /** `t` is `s` with the document added, its older version looked up in `r`. A single addition
      looks in the store that it writes to; a batch looks in the one from before it. */
  ghost predicate Added(r: Store, s: Store, t: Store, tid: U64, cur: Addr, doc: Doc)
    requires cur.id < SEGMENT_SIZE && 1 <= |doc| <= 255
  {
    forall k :: Get(t, k) == DocGet(s, r, tid, cur, doc, k)
  }

  lemma AddedByOps(r: Store, s: Store, tid: U64, cur: Addr, doc: Doc)
    requires cur.id < SEGMENT_SIZE && 1 <= |doc| <= 255
    ensures Added(r, s, Apply(s, DocOps(r, tid, cur, doc)), tid, cur, doc)
  {
    hide Apply, DocOps, DocGet;
    var t := Apply(s, DocOps(r, tid, cur, doc));
    forall k
      ensures Get(t, k) == DocGet(s, r, tid, cur, doc, k)
    {
      DocEffect(s, r, tid, cur, doc, k);
    }
  }

  // ---- Every addition keeps the table in order ----

  predicate Maps(s: Store, tid: U64, uid: Bytes, a: Addr) { Get(s, UidKey(tid, uid)) == Some(At(a)) }

  /** What is looked up in `r` lies below the cursor, at an address that neither store has given
      to another uid. */
  ghost predicate Reads(r: Store, s: Store, tid: U64, cur: Addr) {
    && (forall uid, a :: Maps(r, tid, uid, a) ==> Before(a, cur) && a.id < SEGMENT_SIZE)
    && (forall uid, other, a :: Maps(r, tid, uid, a) && Maps(r, tid, other, a) ==> uid == other)
    && (forall uid, other, a :: Maps(r, tid, uid, a) && Maps(s, tid, other, a) ==> uid == other)
  }

  lemma ReadsItself(s: Store, tid: U64, n: nat, cur: Addr)
    requires TableOk(s, tid, n, cur)
    ensures Reads(s, s, tid, cur)
  {
    hide ValuesOk, Indexed, IndexBelow, Before;
    forall uid, a | Maps(s, tid, uid, a)
      ensures Before(a, cur) && a.id < SEGMENT_SIZE && Get(s, ValueKey(tid, a, 0)) == Some(Raw(uid))
    {
      assert Complete(s, tid, n, uid, a);
    }
  }

  /** Another document's address is touched by no operation of this one. */
  lemma OthersApart(r: Store, s: Store, tid: U64, n: nat, cur: Addr, uid: Bytes, other: Bytes)
    requires TableOk(s, tid, n, cur) && Reads(r, s, tid, cur) && other != uid && UidKey(tid, other) in s
    ensures s[UidKey(tid, other)].At?
    ensures var p := PlanFor(r, tid, cur, uid);
            var a := s[UidKey(tid, other)].addr;
            a != p.addr && p.was != Some(a)
  {
    hide ValuesOk, Indexed, IndexBelow, Complete;
    var p, a := PlanFor(r, tid, cur, uid), s[UidKey(tid, other)].addr;
    assert Maps(s, tid, other, a) && a != cur;
    assert p.addr == cur || Maps(r, tid, uid, p.addr);
    assert p.was.Some? ==> Maps(r, tid, uid, p.was.value);
    hide PlanFor;
  }

  lemma NextAddrAfter(c: Addr)
    requires c.id < SEGMENT_SIZE && Room(c)
    ensures Before(c, NextAddr(c)) && NextAddr(c).id < SEGMENT_SIZE
    ensures forall a :: Before(a, c) ==> Before(a, NextAddr(c))
  {
  }

  /** The plan's address is where the cursor allows a document to be afterwards. */
  lemma PlanBelow(r: Store, s: Store, tid: U64, cur: Addr, uid: Bytes)
    requires Reads(r, s, tid, cur) && cur.id < SEGMENT_SIZE && Room(cur)
    ensures var p := PlanFor(r, tid, cur, uid);
            && Before(p.addr, NewCursor(cur, p)) && p.addr.id < SEGMENT_SIZE
            && NewCursor(cur, p).id < SEGMENT_SIZE
            && (forall a :: Before(a, cur) ==> Before(a, NewCursor(cur, p)))
            && NewCursor(cur, p).sid <= cur.sid + 1
  {
    NextAddrAfter(cur);
    if UidKey(tid, uid) in r && r[UidKey(tid, uid)].At? {
      assert Maps(r, tid, uid, r[UidKey(tid, uid)].addr);
    }
  }

  lemma AddedCursor(r: Store, s: Store, t: Store, tid: U64, n: nat, cur: Addr, doc: Doc)
    requires TableOk(s, tid, n, cur) && Reads(r, s, tid, cur) && |doc| == n && Room(cur)
    requires Added(r, s, t, tid, cur, doc)
    ensures CursorOk(t, tid, NewCursor(cur, PlanFor(r, tid, cur, doc[0])))
  {
    var p := PlanFor(r, tid, cur, doc[0]);
    hide ValuesOk, Indexed, IndexBelow, Complete, UidsOk, PlanFor;
    PlanBelow(r, s, tid, cur, doc[0]);
    assert Get(t, NextKey(tid)) == DocGet(s, r, tid, cur, doc, NextKey(tid));
    assert Get(t, SegmentKey(tid)) == DocGet(s, r, tid, cur, doc, SegmentKey(tid));
  }

  /** A record at an address the document does not touch is unchanged. */
  lemma UntouchedValue(r: Store, s: Store, t: Store, tid: U64, cur: Addr, doc: Doc, a: Addr, f: Byte)
    requires cur.id < SEGMENT_SIZE && 1 <= |doc| <= 255 && Added(r, s, t, tid, cur, doc)
    requires var p := PlanFor(r, tid, cur, doc[0]); a != p.addr && p.was != Some(a)
    ensures Get(t, ValueKey(tid, a, f)) == Get(s, ValueKey(tid, a, f))
    ensures forall v :: Get(t, IndexKey(tid, f, v, a)) == Get(s, IndexKey(tid, f, v, a))
  {
    hide PlanFor;
    assert Get(t, ValueKey(tid, a, f)) == DocGet(s, r, tid, cur, doc, ValueKey(tid, a, f));
    forall v
      ensures Get(t, IndexKey(tid, f, v, a)) == Get(s, IndexKey(tid, f, v, a))
    {
      assert Get(t, IndexKey(tid, f, v, a)) == DocGet(s, r, tid, cur, doc, IndexKey(tid, f, v, a));
    }
  }

  /** The records at the document's own address. */
  lemma OwnValue(r: Store, s: Store, t: Store, tid: U64, cur: Addr, doc: Doc, f: Byte)
    requires cur.id < SEGMENT_SIZE && 1 <= |doc| <= 255 && Added(r, s, t, tid, cur, doc) && f < |doc|
    ensures var a := PlanFor(r, tid, cur, doc[0]).addr;
            && Get(t, ValueKey(tid, a, f)) == Some(Raw(doc[f]))
            && Get(t, IndexKey(tid, f, doc[f], a)) == Some(Raw([]))
            && forall v :: v != doc[f] ==> Get(t, IndexKey(tid, f, v, a)) == Get(s, IndexKey(tid, f, v, a))
  {
    PlanApart(r, tid, cur, doc[0]);
    hide PlanFor;
    var a := PlanFor(r, tid, cur, doc[0]).addr;
    assert Get(t, ValueKey(tid, a, f)) == DocGet(s, r, tid, cur, doc, ValueKey(tid, a, f));
    assert Get(t, IndexKey(tid, f, doc[f], a)) == DocGet(s, r, tid, cur, doc, IndexKey(tid, f, doc[f], a));
    forall v | v != doc[f]
      ensures Get(t, IndexKey(tid, f, v, a)) == Get(s, IndexKey(tid, f, v, a))
    {
      assert Get(t, IndexKey(tid, f, v, a)) == DocGet(s, r, tid, cur, doc, IndexKey(tid, f, v, a));
    }
  }

  /** The records at the address the document moved away from. */
  lemma OldValue(r: Store, s: Store, t: Store, tid: U64, cur: Addr, doc: Doc, a: Addr, f: Byte)
    requires cur.id < SEGMENT_SIZE && 1 <= |doc| <= 255 && Added(r, s, t, tid, cur, doc) && f < |doc|
    requires PlanFor(r, tid, cur, doc[0]).was == Some(a)
    ensures ValueKey(tid, a, f) !in t && IndexKey(tid, f, OldVal(r, tid, a, f), a) !in t
    ensures forall v :: v != OldVal(r, tid, a, f) ==>
              Get(t, IndexKey(tid, f, v, a)) == Get(s, IndexKey(tid, f, v, a))
  {
    PlanApart(r, tid, cur, doc[0]);
    hide PlanFor, OldVal;
    assert Get(t, ValueKey(tid, a, f)) == DocGet(s, r, tid, cur, doc, ValueKey(tid, a, f));
    forall v
      ensures Get(t, IndexKey(tid, f, v, a)) ==
                if v == OldVal(r, tid, a, f) then None else Get(s, IndexKey(tid, f, v, a))
    {
      assert Get(t, IndexKey(tid, f, v, a)) == DocGet(s, r, tid, cur, doc, IndexKey(tid, f, v, a));
    }
  }

  /** Fields beyond the schema are never written or deleted. */
  lemma BeyondFields(r: Store, s: Store, t: Store, tid: U64, cur: Addr, doc: Doc, a: Addr, f: Byte)
    requires cur.id < SEGMENT_SIZE && 1 <= |doc| <= 255 && Added(r, s, t, tid, cur, doc) && f >= |doc|
    ensures Get(t, ValueKey(tid, a, f)) == Get(s, ValueKey(tid, a, f))
    ensures forall v :: Get(t, IndexKey(tid, f, v, a)) == Get(s, IndexKey(tid, f, v, a))
  {
    hide PlanFor;
    assert Get(t, ValueKey(tid, a, f)) == DocGet(s, r, tid, cur, doc, ValueKey(tid, a, f));
    forall v
      ensures Get(t, IndexKey(tid, f, v, a)) == Get(s, IndexKey(tid, f, v, a))
    {
      assert Get(t, IndexKey(tid, f, v, a)) == DocGet(s, r, tid, cur, doc, IndexKey(tid, f, v, a));
    }
  }

  lemma AddedUid(r: Store, s: Store, t: Store, tid: U64, cur: Addr, doc: Doc, uid: Bytes)
    requires cur.id < SEGMENT_SIZE && 1 <= |doc| <= 255 && Added(r, s, t, tid, cur, doc)
    ensures Get(t, UidKey(tid, uid)) ==
              if uid == doc[0] then Some(At(PlanFor(r, tid, cur, doc[0]).addr)) else Get(s, UidKey(tid, uid))
  {
    hide PlanFor;
    assert Get(t, UidKey(tid, uid)) == DocGet(s, r, tid, cur, doc, UidKey(tid, uid));
  }

  /** A document other than the added one stays where it is, complete. */
  lemma OtherStays(r: Store, s: Store, t: Store, tid: U64, n: nat, cur: Addr, doc: Doc, other: Bytes)
    requires TableOk(s, tid, n, cur) && Reads(r, s, tid, cur) && |doc| == n && Added(r, s, t, tid, cur, doc)
    requires other != doc[0] && UidKey(tid, other) in s
    ensures s[UidKey(tid, other)].At? && Get(t, UidKey(tid, other)) == Get(s, UidKey(tid, other))
    ensures var a := s[UidKey(tid, other)].addr;
            && Complete(t, tid, n, other, a)
            && forall f: Byte :: Get(t, ValueKey(tid, a, f)) == Get(s, ValueKey(tid, a, f))
  {
    hide Added, ValuesOk, Indexed, IndexBelow, PlanFor;
    OthersApart(r, s, tid, n, cur, doc[0], other);
    AddedUid(r, s, t, tid, cur, doc, other);
    var a := s[UidKey(tid, other)].addr;
    assert Complete(s, tid, n, other, a);
    forall f: Byte
      ensures Get(t, ValueKey(tid, a, f)) == Get(s, ValueKey(tid, a, f))
    {
      UntouchedValue(r, s, t, tid, cur, doc, a, f);
    }
  }

  lemma OwnComplete(r: Store, s: Store, t: Store, tid: U64, cur: Addr, doc: Doc)
    requires cur.id < SEGMENT_SIZE && 1 <= |doc| <= 255 && Added(r, s, t, tid, cur, doc)
    ensures Complete(t, tid, |doc|, doc[0], PlanFor(r, tid, cur, doc[0]).addr)
  {
    hide Added, PlanFor;
    forall f: Byte | f < |doc|
      ensures Get(t, ValueKey(tid, PlanFor(r, tid, cur, doc[0]).addr, f)) == Some(Raw(doc[f]))
    {
      OwnValue(r, s, t, tid, cur, doc, f);
    }
  }

  lemma AddedUids(r: Store, s: Store, t: Store, tid: U64, n: nat, cur: Addr, doc: Doc)
    requires TableOk(s, tid, n, cur) && Reads(r, s, tid, cur) && |doc| == n && Room(cur)
    requires Added(r, s, t, tid, cur, doc)
    ensures UidsOk(t, tid, n, NewCursor(cur, PlanFor(r, tid, cur, doc[0])))
  {
    hide Added, ValuesOk, Indexed, IndexBelow, PlanFor, NewCursor, Complete, Before;
    PlanBelow(r, s, tid, cur, doc[0]);
    OwnComplete(r, s, t, tid, cur, doc);
    forall uid | UidKey(tid, uid) in t
      ensures t[UidKey(tid, uid)].At?
      ensures Before(t[UidKey(tid, uid)].addr, NewCursor(cur, PlanFor(r, tid, cur, doc[0])))
      ensures t[UidKey(tid, uid)].addr.id < SEGMENT_SIZE
      ensures Complete(t, tid, n, uid, t[UidKey(tid, uid)].addr)
    {
      AddedUid(r, s, t, tid, cur, doc, uid);
      if uid != doc[0] {
        OtherStays(r, s, t, tid, n, cur, doc, uid);
      }
    }
  }

  lemma AddedValues(r: Store, s: Store, t: Store, tid: U64, n: nat, cur: Addr, doc: Doc)
    requires TableOk(s, tid, n, cur) && Reads(r, s, tid, cur) && |doc| == n && Room(cur)
    requires Added(r, s, t, tid, cur, doc)
    ensures ValuesOk(t, tid, n, NewCursor(cur, PlanFor(r, tid, cur, doc[0])))
  {
    hide UidsOk, Indexed, IndexBelow, PlanFor, NewCursor, Before;
    PlanBelow(r, s, tid, cur, doc[0]);
    forall a: Addr, f: Byte | ValueKey(tid, a, f) in t
      ensures f < n && t[ValueKey(tid, a, f)].Raw? && Before(a, NewCursor(cur, PlanFor(r, tid, cur, doc[0])))
    {
      assert Get(t, ValueKey(tid, a, f)) == DocGet(s, r, tid, cur, doc, ValueKey(tid, a, f));
    }
  }

  lemma AddedIndexed(r: Store, s: Store, t: Store, tid: U64, n: nat, cur: Addr, doc: Doc)
    requires TableOk(s, tid, n, cur) && Reads(r, s, tid, cur) && |doc| == n && Added(r, s, t, tid, cur, doc)
    ensures Indexed(t, tid)
  {
    forall a: Addr, f: Byte | HasRaw(t, ValueKey(tid, a, f))
      ensures Get(t, IndexKey(tid, f, t[ValueKey(tid, a, f)].bytes, a)) == Some(Raw([]))
    {
      AddedIndexOf(r, s, t, tid, n, cur, doc, a, f);
    }
  }

  lemma AddedIndexOf(r: Store, s: Store, t: Store, tid: U64, n: nat, cur: Addr, doc: Doc, a: Addr, f: Byte)
    requires TableOk(s, tid, n, cur) && Reads(r, s, tid, cur) && |doc| == n && Added(r, s, t, tid, cur, doc)
    requires HasRaw(t, ValueKey(tid, a, f))
    ensures Get(t, IndexKey(tid, f, t[ValueKey(tid, a, f)].bytes, a)) == Some(Raw([]))
  {
    var p := PlanFor(r, tid, cur, doc[0]);
    hide Added, UidsOk, IndexBelow, PlanFor;
    if f >= n {
      BeyondFields(r, s, t, tid, cur, doc, a, f);
    } else if a == p.addr {
      OwnValue(r, s, t, tid, cur, doc, f);
    } else if p.was == Some(a) {
      OldValue(r, s, t, tid, cur, doc, a, f);
    } else {
      UntouchedValue(r, s, t, tid, cur, doc, a, f);
    }
  }

  lemma AddedIndexBelow(r: Store, s: Store, t: Store, tid: U64, n: nat, cur: Addr, doc: Doc)
    requires TableOk(s, tid, n, cur) && Reads(r, s, tid, cur) && |doc| == n && Room(cur)
    requires Added(r, s, t, tid, cur, doc)
    ensures IndexBelow(t, tid, n, NewCursor(cur, PlanFor(r, tid, cur, doc[0])))
  {
    hide ValuesOk, UidsOk, Indexed, PlanFor, NewCursor, Before;
    PlanBelow(r, s, tid, cur, doc[0]);
    forall f: Byte, v: Bytes, a: Addr | IndexKey(tid, f, v, a) in t
      ensures Before(a, NewCursor(cur, PlanFor(r, tid, cur, doc[0]))) && f < n
    {
      assert Get(t, IndexKey(tid, f, v, a)) == DocGet(s, r, tid, cur, doc, IndexKey(tid, f, v, a));
    }
  }

  /** Adding a document keeps its table in order, at the cursor it leaves. */
  lemma AddedTableOk(r: Store, s: Store, t: Store, tid: U64, n: nat, cur: Addr, doc: Doc)
    requires TableOk(s, tid, n, cur) && Reads(r, s, tid, cur) && |doc| == n && Room(cur)
    requires Added(r, s, t, tid, cur, doc)
    ensures TableOk(t, tid, n, NewCursor(cur, PlanFor(r, tid, cur, doc[0])))
  {
    AddedCursor(r, s, t, tid, n, cur, doc);
    AddedUids(r, s, t, tid, n, cur, doc);
    AddedValues(r, s, t, tid, n, cur, doc);
    AddedIndexed(r, s, t, tid, n, cur, doc);
    AddedIndexBelow(r, s, t, tid, n, cur, doc);
    hide Added, CursorOk, UidsOk, ValuesOk, Indexed, IndexBelow, PlanFor, NewCursor;
  }

  /** What the next document of a batch looks up is still out of the way. */
  lemma ReadsStep(r: Store, s: Store, t: Store, tid: U64, cur: Addr, doc: Doc)
    requires Reads(r, s, tid, cur) && cur.id < SEGMENT_SIZE && Room(cur) && 1 <= |doc| <= 255
    requires Added(r, s, t, tid, cur, doc)
    ensures Reads(r, t, tid, NewCursor(cur, PlanFor(r, tid, cur, doc[0])))
  {
    PlanBelow(r, s, tid, cur, doc[0]);
    var p := PlanFor(r, tid, cur, doc[0]);
    assert p.addr == cur || Maps(r, tid, doc[0], p.addr);
    hide Added, PlanFor, NewCursor;
    forall uid, other, a | uid != other && Maps(r, tid, uid, a)
      ensures !Maps(t, tid, other, a)
    {
      AddedUid(r, s, t, tid, cur, doc, other);
      assert !Maps(s, tid, other, a) && !Maps(r, tid, other, a);
      assert a != cur;
    }
  }

  /** Two documents never share an address. */
  lemma AddressesDistinct(s: Store, tid: U64, n: nat, cur: Addr, uid: Bytes, other: Bytes)
    requires TableOk(s, tid, n, cur) && uid != other
    requires UidKey(tid, uid) in s && UidKey(tid, other) in s
    ensures s[UidKey(tid, uid)] != s[UidKey(tid, other)]
  {
    hide ValuesOk, Indexed, IndexBelow;
    assert Complete(s, tid, n, uid, s[UidKey(tid, uid)].addr);
    assert Complete(s, tid, n, other, s[UidKey(tid, other)].addr);
  }

  // ---- When the index agrees with the records exactly ----

  /** Every index entry belongs to a record with that value. */
  ghost predicate Exact(s: Store, tid: U64) {
    forall f: Byte, v: Bytes, a: Addr :: IndexKey(tid, f, v, a) in s ==> Get(s, ValueKey(tid, a, f)) == Some(Raw(v))
  }

  /** The document is already in the current segment with a value that differs. */
  ghost predicate ChangesInPlace(s: Store, tid: U64, cur: Addr, doc: Doc)
    requires 1 <= |doc| <= 255
  {
    var p := PlanFor(s, tid, cur, doc[0]);
    !p.isNew && exists f: Byte :: f < |doc| && Get(s, ValueKey(tid, p.addr, f)) != Some(Raw(doc[f]))
  }

  /** A document to be overwritten in place is there in `s`, and one to be moved away has its
      records in `s` or has lost the index entries that go with the values in `r`. */
  ghost predicate StillThere(r: Store, s: Store, tid: U64, n: nat, cur: Addr, uid: Bytes) {
    var p := PlanFor(r, tid, cur, uid);
    && (!p.isNew ==> Maps(s, tid, uid, p.addr))
    && (forall a: Addr, f: Byte :: p.was == Some(a) && f < n ==>
          ValueKey(tid, a, f) in s || IndexKey(tid, f, OldVal(r, tid, a, f), a) !in s)
  }

  /** What `s` has at the addresses of the plan is what `r` has there. */
  ghost predicate SameThere(r: Store, s: Store, tid: U64, n: nat, cur: Addr, uid: Bytes) {
    var p := PlanFor(r, tid, cur, uid);
    forall a: Addr, f: Byte :: f < n && ((!p.isNew && a == p.addr) || p.was == Some(a)) && ValueKey(tid, a, f) in s ==>
      Get(s, ValueKey(tid, a, f)) == Get(r, ValueKey(tid, a, f))
  }

  lemma ItselfThere(s: Store, tid: U64, n: nat, cur: Addr, uid: Bytes)
    requires TableOk(s, tid, n, cur)
    ensures Reads(s, s, tid, cur) && StillThere(s, s, tid, n, cur, uid) && SameThere(s, s, tid, n, cur, uid)
  {
    ReadsItself(s, tid, n, cur);
    hide ValuesOk, Indexed, IndexBelow, Reads, Before;
    if UidKey(tid, uid) in s {
      assert Complete(s, tid, n, uid, s[UidKey(tid, uid)].addr);
    }
  }

  /** The records of a mapped uid, and their index entries. */
  lemma MappedThere(s: Store, tid: U64, n: nat, cur: Addr, uid: Bytes, a: Addr, f: Byte)
    requires TableOk(s, tid, n, cur) && Maps(s, tid, uid, a) && f < n
    ensures HasRaw(s, ValueKey(tid, a, f)) && IndexKey(tid, f, s[ValueKey(tid, a, f)].bytes, a) in s
  {
    hide ValuesOk, IndexBelow, CursorOk;
    assert Complete(s, tid, n, uid, a);
  }

  lemma IndexedThere(s: Store, tid: U64, n: nat, cur: Addr, a: Addr, f: Byte)
    requires TableOk(s, tid, n, cur) && ValueKey(tid, a, f) in s
    ensures f < n && HasRaw(s, ValueKey(tid, a, f)) && IndexKey(tid, f, s[ValueKey(tid, a, f)].bytes, a) in s
  {
    hide UidsOk, IndexBelow, CursorOk;
    assert HasRaw(s, ValueKey(tid, a, f));
  }

  lemma NothingAtCursor(s: Store, tid: U64, n: nat, cur: Addr)
    requires TableOk(s, tid, n, cur)
    ensures forall f: Byte, v: Bytes :: IndexKey(tid, f, v, cur) !in s
    ensures forall f: Byte, v: Bytes, a: Addr :: IndexKey(tid, f, v, a) in s ==> f < n
    ensures forall f: Byte :: ValueKey(tid, cur, f) !in s
  {
    hide UidsOk, Indexed, CursorOk;
  }

  /** An index entry that is wrong, or another one in its place, stays wrong. */
  lemma StaleStays(r: Store, s: Store, t: Store, tid: U64, n: nat, cur: Addr, doc: Doc)
    requires TableOk(s, tid, n, cur) && Reads(r, s, tid, cur) && |doc| == n && Added(r, s, t, tid, cur, doc)
    requires StillThere(r, s, tid, n, cur, doc[0]) && !Exact(s, tid)
    ensures !Exact(t, tid)
  {
    var f: Byte, v: Bytes, a: Addr :| IndexKey(tid, f, v, a) in s && Get(s, ValueKey(tid, a, f)) != Some(Raw(v));
    var p := PlanFor(r, tid, cur, doc[0]);
    NothingAtCursor(s, tid, n, cur);
    assert p.isNew ==> p.addr == cur;
    hide Added, PlanFor, TableOk, OldVal, Reads, Maps;
    if a == p.addr {
      MappedThere(s, tid, n, cur, doc[0], a, f);
      OwnValue(r, s, t, tid, cur, doc, f);
      var u := if v == doc[f] then s[ValueKey(tid, a, f)].bytes else v;
      assert IndexKey(tid, f, u, a) in t && u != doc[f];
    } else if p.was == Some(a) {
      OldValue(r, s, t, tid, cur, doc, a, f);
      if v == OldVal(r, tid, a, f) {
        IndexedThere(s, tid, n, cur, a, f);
        assert IndexKey(tid, f, s[ValueKey(tid, a, f)].bytes, a) in t;
      }
    } else {
      UntouchedValue(r, s, t, tid, cur, doc, a, f);
      assert IndexKey(tid, f, v, a) in t;
    }
  }

  lemma StaleAfterChange(r: Store, s: Store, t: Store, tid: U64, n: nat, cur: Addr, doc: Doc)
    requires TableOk(s, tid, n, cur) && Reads(r, s, tid, cur) && |doc| == n && Added(r, s, t, tid, cur, doc)
    requires StillThere(r, s, tid, n, cur, doc[0]) && SameThere(r, s, tid, n, cur, doc[0])
    requires ChangesInPlace(r, tid, cur, doc)
    ensures !Exact(t, tid)
  {
    var p := PlanFor(r, tid, cur, doc[0]);
    var f: Byte :| f < |doc| && Get(r, ValueKey(tid, p.addr, f)) != Some(Raw(doc[f]));
    hide Added, PlanFor, TableOk, Reads;
    MappedThere(s, tid, n, cur, doc[0], p.addr, f);
    OwnValue(r, s, t, tid, cur, doc, f);
    assert IndexKey(tid, f, s[ValueKey(tid, p.addr, f)].bytes, p.addr) in t;
  }

  lemma ExactAt(r: Store, s: Store, t: Store, tid: U64, n: nat, cur: Addr, doc: Doc, f: Byte, v: Bytes, a: Addr)
    requires TableOk(s, tid, n, cur) && |doc| == n && Added(r, s, t, tid, cur, doc)
    requires SameThere(r, s, tid, n, cur, doc[0]) && Exact(s, tid) && !ChangesInPlace(r, tid, cur, doc)
    requires IndexKey(tid, f, v, a) in t
    ensures Get(t, ValueKey(tid, a, f)) == Some(Raw(v))
  {
    var p := PlanFor(r, tid, cur, doc[0]);
    NothingAtCursor(s, tid, n, cur);
    assert p.isNew ==> p.addr == cur;
    assert !p.isNew && f < n ==> Get(r, ValueKey(tid, p.addr, f)) == Some(Raw(doc[f]));
    hide Added, PlanFor, TableOk, ChangesInPlace;
    if f >= n {
      BeyondFields(r, s, t, tid, cur, doc, a, f);
    } else if a == p.addr {
      OwnValue(r, s, t, tid, cur, doc, f);
    } else if p.was == Some(a) {
      OldValue(r, s, t, tid, cur, doc, a, f);
      assert IndexKey(tid, f, v, a) in s && v != OldVal(r, tid, a, f);
    } else {
      UntouchedValue(r, s, t, tid, cur, doc, a, f);
    }
  }

  /** Index and records agree after an addition if and only if they did before it and the
      document was not re-added in its current segment with a changed value. */
  lemma ExactIff(r: Store, s: Store, t: Store, tid: U64, n: nat, cur: Addr, doc: Doc)
    requires TableOk(s, tid, n, cur) && Reads(r, s, tid, cur) && |doc| == n && Added(r, s, t, tid, cur, doc)
    requires StillThere(r, s, tid, n, cur, doc[0]) && SameThere(r, s, tid, n, cur, doc[0])
    ensures Exact(t, tid) <==> Exact(s, tid) && !ChangesInPlace(r, tid, cur, doc)
  {
    if !Exact(s, tid) {
      StaleStays(r, s, t, tid, n, cur, doc);
    } else if ChangesInPlace(r, tid, cur, doc) {
      StaleAfterChange(r, s, t, tid, n, cur, doc);
    } else {
      forall f: Byte, v: Bytes, a: Addr | IndexKey(tid, f, v, a) in t
        ensures Get(t, ValueKey(tid, a, f)) == Some(Raw(v))
      {
        ExactAt(r, s, t, tid, n, cur, doc, f, v, a);
      }
    }
  }
}
