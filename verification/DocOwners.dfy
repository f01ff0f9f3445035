/** What a batch leaves behind (rocksdb_lab/rocksdb_impl.cpp:526-753): exactly when every record
    still belongs to the document mapped to its address, and exactly when the index still agrees
    with the records, for batches of any length in which uids may occur more than once. */
module DocOwners {
  import opened ByteStrings
  import opened Options
  import opened StoreKeys
  import opened DocStore
  import opened DocInvariants
  import opened DocBatch
  import opened DocRepeats

  /** Every record belongs to the document that is mapped to its address. */
  ghost predicate Owned(s: Store, tid: U64) {
    forall a: Addr, f: Byte :: ValueKey(tid, a, f) in s ==>
      HasRaw(s, ValueKey(tid, a, 0)) && Maps(s, tid, s[ValueKey(tid, a, 0)].bytes, a)
  }

  // ---- What a caller can check before the batch ----

  /** A uid that occurs again is in the current segment, and is put there the first time. */
  predicate LeavesNone(r: Store, tid: U64, cur: Addr, docs: seq<Doc>)
    requires forall k :: 0 <= k < |docs| ==> |docs[k]| > 0
  {
    forall i, j :: 0 <= i < j < |docs| && docs[i][0] == docs[j][0] ==>
      InSegment(r, tid, cur, docs[i][0]) && !Full(r, tid, cur, docs, i)
  }

  /** A document that is put in place in the current segment is stored as it is. */
  predicate ChangesNone(r: Store, tid: U64, cur: Addr, docs: seq<Doc>)
    requires forall k :: 0 <= k < |docs| ==> 0 < |docs[k]| <= 255
  {
    forall i :: 0 <= i < |docs| ==> UnchangedAt(r, tid, cur, docs, i)
  }

  predicate UnchangedAt(r: Store, tid: U64, cur: Addr, docs: seq<Doc>, i: nat)
    requires i < |docs| && forall k :: 0 <= k < |docs| ==> 0 < |docs[k]| <= 255
  {
    InSegment(r, tid, cur, docs[i][0]) && !Full(r, tid, cur, docs, i) ==> Stored(r, tid, docs[i])
  }

  /** The last version before the i-th document is not left behind by it. */
  predicate LastKept(r: Store, tid: U64, cur: Addr, docs: seq<Doc>, i: nat)
    requires i < |docs| && forall k :: 0 <= k < |docs| ==> |docs[k]| > 0
  {
    match Last(docs[..i], docs[i][0])
    case None => true
    case Some(j) => InSegment(r, tid, cur, docs[i][0]) && !Full(r, tid, cur, docs, j)
  }

  lemma LastKeptPairs(r: Store, tid: U64, cur: Addr, docs: seq<Doc>)
    requires forall k :: 0 <= k < |docs| ==> |docs[k]| > 0
    ensures LeavesNone(r, tid, cur, docs) <==> forall i :: 0 <= i < |docs| ==> LastKept(r, tid, cur, docs, i)
  {
    hide InSegment, Last, Newcomers;
    forall i | 0 <= i < |docs|
      ensures LastKept(r, tid, cur, docs, i) <==>
                forall k :: 0 <= k < i && docs[k][0] == docs[i][0] ==>
                  InSegment(r, tid, cur, docs[i][0]) && !Full(r, tid, cur, docs, k)
    {
      assert forall k :: 0 <= k < i ==> docs[..i][k] == docs[k];
      var j := Last(docs[..i], docs[i][0]);
      if j.Some? {
        forall k | 0 <= k < i && docs[k][0] == docs[i][0] && !Full(r, tid, cur, docs, j.value)
          ensures !Full(r, tid, cur, docs, k)
        {
          assert k <= j.value;
          NewcomersGrow(r, tid, cur, docs[..j.value], k);
          assert docs[..j.value][..k] == docs[..k];
        }
      }
    }
  }

  // ---- Along the batch ----

  /** What `r` has of a uid is there in `s`, or gone together with its index entries. */
  ghost predicate Kept(r: Store, s: Store, tid: U64, n: nat, cur: Addr) {
    forall uid, a :: Maps(r, tid, uid, a) ==> Maps(s, tid, uid, a) || (a.sid != cur.sid && Gone(r, s, tid, n, a))
  }

  ghost predicate Gone(r: Store, s: Store, tid: U64, n: nat, a: Addr) {
    forall f: Byte :: f < n ==> ValueKey(tid, a, f) !in s && IndexKey(tid, f, OldVal(r, tid, a, f), a) !in s
  }

  /** Where the last version of each uid is: at the address that `r` has, or at a new one. */
  ghost predicate PutAt(r: Store, s: Store, tid: U64, cur0: Addr, seen: seq<Doc>, uid: Bytes)
    requires forall k :: 0 <= k < |seen| ==> |seen[k]| > 0
  {
    var j := Last(seen, uid);
    if j.None? || (InSegment(r, tid, cur0, uid) && !Full(r, tid, cur0, seen, j.value))
    then forall a :: Maps(s, tid, uid, a) ==> Maps(r, tid, uid, a)
    else UidKey(tid, uid) in s && forall a :: Maps(s, tid, uid, a) ==> !Before(a, cur0)
  }

  ghost predicate Along(r: Store, s: Store, tid: U64, n: nat, cur0: Addr, cur: Addr, seen: seq<Doc>) {
    && Whole(seen, n) && TableOk(r, tid, n, cur0) && TableOk(s, tid, n, cur) && Reads(r, s, tid, cur)
    && Kept(r, s, tid, n, cur) && CursorAt(r, tid, cur0, seen, cur)
    && forall uid :: PutAt(r, s, tid, cur0, seen, uid)
  }

  lemma AlongStart(s: Store, tid: U64, n: nat, cur: Addr)
    requires TableOk(s, tid, n, cur)
    ensures Along(s, s, tid, n, cur, cur, [])
  {
    CursorInSegment(s, tid, n, cur);
    ReadsItself(s, tid, n, cur);
    hide TableOk, Reads;
  }

  /** The plan, in terms of what can be checked before the batch. */
  lemma PlanAlong(r: Store, s: Store, tid: U64, n: nat, cur0: Addr, cur: Addr, seen: seq<Doc>, uid: Bytes)
    requires Along(r, s, tid, n, cur0, cur, seen)
    ensures var p := PlanFor(r, tid, cur, uid);
            && !p.isNew == (InSegment(r, tid, cur0, uid) && !Full(r, tid, cur0, seen, |seen|))
            && (p.isNew ==> p.addr == cur)
            && (!p.isNew ==> Maps(r, tid, uid, p.addr) && p.was.None? && p.addr.sid == cur.sid)
            && (p.was.Some? ==> Maps(r, tid, uid, p.was.value) && p.was.value.sid < cur.sid)
            && (forall a :: Maps(r, tid, uid, a) ==> p.addr == a || p.was == Some(a))
    ensures !Before(cur, cur0) && !Before(cur, cur) && cur.id < SEGMENT_SIZE && 1 <= n <= 255
  {
    CursorInSegment(s, tid, n, cur);
    CursorInSegment(r, tid, n, cur0);
    hide TableOk, Reads, Kept, PutAt, Newcomers;
    PlanWhere(r, tid, cur, uid);
    if Where(r, tid, uid).Some? {
      MappedBelow(r, tid, n, cur0, uid);
    }
  }

  lemma KeptStep(r: Store, s: Store, t: Store, tid: U64, n: nat, cur0: Addr, cur: Addr, seen: seq<Doc>, doc: Doc)
    requires Along(r, s, tid, n, cur0, cur, seen) && |doc| == n && cur.id < SEGMENT_SIZE && 1 <= n <= 255 && Room(cur)
    requires Added(r, s, t, tid, cur, doc)
    ensures Kept(r, t, tid, n, NewCursor(cur, PlanFor(r, tid, cur, doc[0])))
  {
    var p := PlanFor(r, tid, cur, doc[0]);
    PlanAlong(r, s, tid, n, cur0, cur, seen, doc[0]);
    hide TableOk, PlanFor, Added, PutAt, CursorAt;
    forall uid, a | Maps(r, tid, uid, a)
      ensures Maps(t, tid, uid, a) || (a.sid != NewCursor(cur, p).sid && Gone(r, t, tid, n, a))
    {
      AddedUid(r, s, t, tid, cur, doc, uid);
      assert Before(a, cur);
      if uid == doc[0] {
        if p.addr != a {
          GoneNow(r, s, t, tid, n, cur, doc, a);
        }
      } else if !Maps(s, tid, uid, a) {
        assert a != p.addr && p.was != Some(a);
        StillGone(r, s, t, tid, n, cur, doc, a);
      }
    }
  }

  lemma GoneNow(r: Store, s: Store, t: Store, tid: U64, n: nat, cur: Addr, doc: Doc, a: Addr)
    requires |doc| == n && cur.id < SEGMENT_SIZE && 1 <= n <= 255 && Added(r, s, t, tid, cur, doc)
    requires PlanFor(r, tid, cur, doc[0]).was == Some(a)
    ensures Gone(r, t, tid, n, a)
  {
    hide PlanFor, Added, OldVal;
    forall f: Byte | f < n
      ensures ValueKey(tid, a, f) !in t && IndexKey(tid, f, OldVal(r, tid, a, f), a) !in t
    {
      OldValue(r, s, t, tid, cur, doc, a, f);
    }
  }

  lemma StillGone(r: Store, s: Store, t: Store, tid: U64, n: nat, cur: Addr, doc: Doc, a: Addr)
    requires |doc| == n && cur.id < SEGMENT_SIZE && 1 <= n <= 255 && Added(r, s, t, tid, cur, doc)
    requires Gone(r, s, tid, n, a)
    requires a != PlanFor(r, tid, cur, doc[0]).addr && PlanFor(r, tid, cur, doc[0]).was != Some(a)
    ensures Gone(r, t, tid, n, a)
  {
    hide PlanFor, Added, OldVal;
    forall f: Byte | f < n
      ensures ValueKey(tid, a, f) !in t && IndexKey(tid, f, OldVal(r, tid, a, f), a) !in t
    {
      UntouchedValue(r, s, t, tid, cur, doc, a, f);
    }
  }

  lemma PutStep(r: Store, s: Store, t: Store, tid: U64, n: nat, cur0: Addr, cur: Addr, seen: seq<Doc>, doc: Doc,
                uid: Bytes)
    requires Along(r, s, tid, n, cur0, cur, seen) && |doc| == n && cur.id < SEGMENT_SIZE && 1 <= n <= 255
    requires Added(r, s, t, tid, cur, doc)
    ensures Whole(seen + [doc], n)
    ensures PutAt(r, t, tid, cur0, seen + [doc], uid)
  {
    PlanAlong(r, s, tid, n, cur0, cur, seen, doc[0]);
    hide TableOk, PlanFor, Added, Kept, Reads, CursorAt, InSegment, Newcomers, Last;
    assert PutAt(r, s, tid, cur0, seen, uid);
    AddedUid(r, s, t, tid, cur, doc, uid);
    LastAppend(seen, doc, uid);
    FullPrefix(r, tid, cur0, seen, [doc], |seen|);
    var j := Last(seen, uid);
    if j.Some? {
      FullPrefix(r, tid, cur0, seen, [doc], j.value);
    }
  }

  lemma AlongStep(r: Store, s: Store, tid: U64, n: nat, cur0: Addr, cur: Addr, seen: seq<Doc>, doc: Doc)
    requires Along(r, s, tid, n, cur0, cur, seen) && |doc| == n && Room(cur) && cur.id < SEGMENT_SIZE && 1 <= n <= 255
    ensures var t, next := Apply(s, DocOps(r, tid, cur, doc)), NewCursor(cur, PlanFor(r, tid, cur, doc[0]));
            Along(r, t, tid, n, cur0, next, seen + [doc]) && cur.sid <= next.sid <= cur.sid + 1
  {
    var t := Apply(s, DocOps(r, tid, cur, doc));
    hide TableOk, PlanFor, Added, Kept, Reads, PutAt, CursorAt, NewCursor, Apply, DocOps;
    AddedByOps(r, s, tid, cur, doc);
    StepStore(r, s, tid, n, cur, doc);
    KeptStep(r, s, t, tid, n, cur0, cur, seen, doc);
    CursorStep(r, tid, n, cur0, r, cur, seen, doc);
    forall uid
      ensures PutAt(r, t, tid, cur0, seen + [doc], uid)
    {
      PutStep(r, s, t, tid, n, cur0, cur, seen, doc, uid);
    }
  }

  // ---- Owners ----

  /** The uid's address in `s` is the one written to, or one that is emptied. */
  ghost predicate NotLeft(r: Store, s: Store, tid: U64, cur: Addr, uid: Bytes) {
    var p := PlanFor(r, tid, cur, uid);
    forall a :: Maps(s, tid, uid, a) ==> a == p.addr || p.was == Some(a)
  }

  lemma OwnedAt(r: Store, s: Store, t: Store, tid: U64, n: nat, cur: Addr, doc: Doc, a: Addr, f: Byte)
    requires TableOk(s, tid, n, cur) && |doc| == n && Added(r, s, t, tid, cur, doc)
    requires Owned(s, tid) && NotLeft(r, s, tid, cur, doc[0]) && ValueKey(tid, a, f) in t
    ensures HasRaw(t, ValueKey(tid, a, 0)) && Maps(t, tid, t[ValueKey(tid, a, 0)].bytes, a)
  {
    var p := PlanFor(r, tid, cur, doc[0]);
    hide PlanFor, Added, UidsOk, Indexed, IndexBelow, CursorOk;
    if a == p.addr {
      OwnValue(r, s, t, tid, cur, doc, 0);
      AddedUid(r, s, t, tid, cur, doc, doc[0]);
    } else if p.was == Some(a) {
      if f < n {
        OldValue(r, s, t, tid, cur, doc, a, f);
      } else {
        BeyondFields(r, s, t, tid, cur, doc, a, f);
      }
      assert false;
    } else {
      UntouchedValue(r, s, t, tid, cur, doc, a, f);
      UntouchedValue(r, s, t, tid, cur, doc, a, 0);
      AddedUid(r, s, t, tid, cur, doc, s[ValueKey(tid, a, 0)].bytes);
    }
  }

  /** A record without an owner, or with one that is left behind, has none afterwards. */
  lemma OrphanAt(r: Store, s: Store, t: Store, tid: U64, n: nat, cur: Addr, doc: Doc, a: Addr, f: Byte)
    requires TableOk(s, tid, n, cur) && |doc| == n && Added(r, s, t, tid, cur, doc) && ValueKey(tid, a, f) in s
    requires var p := PlanFor(r, tid, cur, doc[0]); a != p.addr && p.was != Some(a)
    requires HasRaw(s, ValueKey(tid, a, 0)) && Maps(s, tid, s[ValueKey(tid, a, 0)].bytes, a) ==>
               s[ValueKey(tid, a, 0)].bytes == doc[0]
    ensures !Owned(t, tid)
  {
    var p := PlanFor(r, tid, cur, doc[0]);
    hide PlanFor, Added, UidsOk, ValuesOk, Indexed, IndexBelow, CursorOk;
    UntouchedValue(r, s, t, tid, cur, doc, a, f);
    UntouchedValue(r, s, t, tid, cur, doc, a, 0);
    if HasRaw(s, ValueKey(tid, a, 0)) {
      AddedUid(r, s, t, tid, cur, doc, s[ValueKey(tid, a, 0)].bytes);
    }
    assert ValueKey(tid, a, f) in t;
  }

  /** The records of a mapped uid are its own. */
  lemma MappedOwns(s: Store, tid: U64, n: nat, cur: Addr, uid: Bytes, a: Addr)
    requires TableOk(s, tid, n, cur) && Maps(s, tid, uid, a)
    ensures Get(s, ValueKey(tid, a, 0)) == Some(Raw(uid))
  {
    hide ValuesOk, Indexed, IndexBelow, CursorOk;
    assert Complete(s, tid, n, uid, a);
  }

  lemma OwnedStep(r: Store, s: Store, t: Store, tid: U64, n: nat, cur0: Addr, cur: Addr, seen: seq<Doc>, doc: Doc)
    requires Along(r, s, tid, n, cur0, cur, seen) && |doc| == n && cur.id < SEGMENT_SIZE && 1 <= n <= 255
    requires Added(r, s, t, tid, cur, doc)
    ensures Owned(t, tid) <==> Owned(s, tid) && NotLeft(r, s, tid, cur, doc[0])
  {
    var p := PlanFor(r, tid, cur, doc[0]);
    PlanAlong(r, s, tid, n, cur0, cur, seen, doc[0]);
    if !Owned(s, tid) {
      var a: Addr, f: Byte :| ValueKey(tid, a, f) in s
        && !(HasRaw(s, ValueKey(tid, a, 0)) && Maps(s, tid, s[ValueKey(tid, a, 0)].bytes, a));
      OrphanApart(r, s, tid, n, cur0, cur, seen, doc[0], a, f);
      OrphanAt(r, s, t, tid, n, cur, doc, a, f);
    } else if !NotLeft(r, s, tid, cur, doc[0]) {
      var a :| Maps(s, tid, doc[0], a) && a != p.addr && p.was != Some(a);
      MappedOwns(s, tid, n, cur, doc[0], a);
      OrphanAt(r, s, t, tid, n, cur, doc, a, 0);
    } else {
      hide TableOk, Along, Added, NotLeft, PlanFor;
      forall a: Addr, f: Byte | ValueKey(tid, a, f) in t
        ensures HasRaw(t, ValueKey(tid, a, 0)) && Maps(t, tid, t[ValueKey(tid, a, 0)].bytes, a)
      {
        assert TableOk(s, tid, n, cur) by { AlongTable(r, s, tid, n, cur0, cur, seen); }
        OwnedAt(r, s, t, tid, n, cur, doc, a, f);
      }
    }
  }

  lemma AlongTable(r: Store, s: Store, tid: U64, n: nat, cur0: Addr, cur: Addr, seen: seq<Doc>)
    requires Along(r, s, tid, n, cur0, cur, seen)
    ensures TableOk(s, tid, n, cur) && Reads(r, s, tid, cur)
  {
    hide TableOk, Reads, Kept, CursorAt, PutAt;
  }

  /** A record without an owner is at no address that the document writes or empties. */
  lemma OrphanApart(r: Store, s: Store, tid: U64, n: nat, cur0: Addr, cur: Addr, seen: seq<Doc>, uid: Bytes,
                    a: Addr, f: Byte)
    requires Along(r, s, tid, n, cur0, cur, seen) && ValueKey(tid, a, f) in s
    requires !(HasRaw(s, ValueKey(tid, a, 0)) && Maps(s, tid, s[ValueKey(tid, a, 0)].bytes, a))
    ensures a != PlanFor(r, tid, cur, uid).addr && PlanFor(r, tid, cur, uid).was != Some(a)
  {
    PlanAlong(r, s, tid, n, cur0, cur, seen, uid);
    var p := PlanFor(r, tid, cur, uid);
    hide PlanFor, Reads, CursorAt, PutAt, TableOk;
    NothingAtCursor(s, tid, n, cur);
    IndexedThere(s, tid, n, cur, a, f);
    if Maps(r, tid, uid, a) && Maps(s, tid, uid, a) {
      MappedOwns(s, tid, n, cur, uid, a);
    }
  }

  lemma NotLeftIff(r: Store, s: Store, tid: U64, n: nat, cur0: Addr, cur: Addr, seen: seq<Doc>,
                   doc: Doc, docs: seq<Doc>)
    requires Along(r, s, tid, n, cur0, cur, seen) && |doc| == n && seen + [doc] <= docs && Whole(docs, n)
    ensures NotLeft(r, s, tid, cur, doc[0]) <==> LastKept(r, tid, cur0, docs, |seen|)
  {
    PlanAlong(r, s, tid, n, cur0, cur, seen, doc[0]);
    var i, uid := |seen|, doc[0];
    assert docs[..i] == seen && docs[i] == doc;
    assert PutAt(r, s, tid, cur0, seen, uid);
    var j := Last(seen, uid);
    if j.Some? {
      assert docs[..i][..j.value] == docs[..j.value] && seen[..j.value] == docs[..j.value];
      if UidKey(tid, uid) in s {
        UidIsMapped(s, tid, n, cur, uid);
      }
      assert forall a :: Maps(r, tid, uid, a) ==> Before(a, cur0) by { ReadsBelow(r, tid, n, cur0); }
    }
    hide TableOk, PlanFor, Kept, Reads, CursorAt, InSegment, Newcomers, Last;
  }

  lemma ReadsBelow(r: Store, tid: U64, n: nat, cur0: Addr)
    requires TableOk(r, tid, n, cur0)
    ensures forall uid, a :: Maps(r, tid, uid, a) ==> Before(a, cur0)
  {
    hide ValuesOk, Indexed, IndexBelow, CursorOk, Complete;
  }

  lemma UidIsMapped(s: Store, tid: U64, n: nat, cur: Addr, uid: Bytes)
    requires TableOk(s, tid, n, cur) && UidKey(tid, uid) in s
    ensures exists a :: Maps(s, tid, uid, a) && Before(a, cur)
  {
    hide ValuesOk, Indexed, IndexBelow, CursorOk, Complete;
    assert Maps(s, tid, uid, s[UidKey(tid, uid)].addr);
  }

  /** The rest of a batch, from a state along it. */
  function RestOf(r: Store, s: Store, tid: U64, cur: Addr, docs: seq<Doc>, n: nat, i: nat): Store
    requires cur.id < SEGMENT_SIZE && Whole(docs, n) && i <= |docs|
  {
    Apply(s, BatchOps(r, tid, cur, docs[i..], n).ops)
  }

  lemma RestUnfold(r: Store, s: Store, tid: U64, cur: Addr, docs: seq<Doc>, n: nat, i: nat)
    requires cur.id < SEGMENT_SIZE && Whole(docs, n) && i < |docs|
    ensures RestOf(r, s, tid, cur, docs, n, i) ==
              RestOf(r, Apply(s, DocOps(r, tid, cur, docs[i])), tid, NewCursor(cur, PlanFor(r, tid, cur, docs[i][0])),
                     docs, n, i + 1)
  {
    hide DocOps, PlanFor, NewCursor, Rolls, Apply;
    var rest := docs[i..];
    assert rest[0] == docs[i] && rest[1..] == docs[i + 1..];
    var next := NewCursor(cur, PlanFor(r, tid, cur, docs[i][0]));
    ApplyConcat(s, DocOps(r, tid, cur, docs[i]), BatchOps(r, tid, next, rest[1..], n).ops);
  }

  lemma RestNone(r: Store, s: Store, tid: U64, cur: Addr, docs: seq<Doc>, n: nat)
    requires cur.id < SEGMENT_SIZE && Whole(docs, n)
    ensures RestOf(r, s, tid, cur, docs, n, |docs|) == s
  {
    assert docs[|docs|..] == [];
    ApplyNone(s);
  }

  lemma {:induction false} OwnedFrom(r: Store, s: Store, tid: U64, n: nat, cur0: Addr, cur: Addr,
                                     docs: seq<Doc>, i: nat)
    requires i <= |docs| && Whole(docs, n) && Along(r, s, tid, n, cur0, cur, docs[..i])
    requires cur.id < SEGMENT_SIZE && cur.sid + (|docs| - i) < 0x1_0000_0000_0000_0000
    ensures Owned(RestOf(r, s, tid, cur, docs, n, i), tid) <==>
              Owned(s, tid) && forall k :: i <= k < |docs| ==> LastKept(r, tid, cur0, docs, k)
    decreases |docs| - i
  {
    hide Along, Owned, LastKept, RestOf, NotLeft, DocOps, PlanFor, NewCursor, Apply, Added;
    if i == |docs| {
      RestNone(r, s, tid, cur, docs, n);
    } else {
      var doc := docs[i];
      var t, next := Apply(s, DocOps(r, tid, cur, doc)), NewCursor(cur, PlanFor(r, tid, cur, doc[0]));
      assert docs[..i] + [doc] == docs[..i + 1];
      AddedByOps(r, s, tid, cur, doc);
      OwnedStep(r, s, t, tid, n, cur0, cur, docs[..i], doc);
      NotLeftIff(r, s, tid, n, cur0, cur, docs[..i], doc, docs);
      AlongStep(r, s, tid, n, cur0, cur, docs[..i], doc);
      RestUnfold(r, s, tid, cur, docs, n, i);
      OwnedFrom(r, t, tid, n, cur0, next, docs, i + 1);
    }
  }

  /** A batch leaves every record with an owner if and only if every record had one before and
      each uid that occurs again is in the current segment and was put there the time before.
      Otherwise the version before is left at an address that nothing is mapped to, for good. */
  lemma BatchOwnedIff(s: Store, tid: U64, cur: Addr, docs: seq<Doc>, n: nat)
    requires TableOk(s, tid, n, cur) && Whole(docs, n)
    requires cur.id < SEGMENT_SIZE && cur.sid + |docs| < 0x1_0000_0000_0000_0000
    ensures Owned(Apply(s, BatchOps(s, tid, cur, docs, n).ops), tid) <==>
              Owned(s, tid) && LeavesNone(s, tid, cur, docs)
  {
    hide TableOk, Along, Owned, LastKept, LeavesNone, Apply, BatchOps;
    AlongStart(s, tid, n, cur);
    assert docs[..0] == [] && docs[0..] == docs;
    OwnedFrom(s, s, tid, n, cur, cur, docs, 0);
    WholeDocs(docs, n);
    LastKeptPairs(s, tid, cur, docs);
  }

  // ---- The index ----

  /** What `s` still has at an address mapped in `r` is what `r` has there. */
  ghost predicate Same(r: Store, s: Store, tid: U64, n: nat) {
    forall uid, a: Addr, f: Byte :: Maps(r, tid, uid, a) && f < n && ValueKey(tid, a, f) in s ==>
      Get(s, ValueKey(tid, a, f)) == Get(r, ValueKey(tid, a, f))
  }

  lemma ThereAlong(r: Store, s: Store, tid: U64, n: nat, cur0: Addr, cur: Addr, seen: seq<Doc>, uid: Bytes)
    requires Along(r, s, tid, n, cur0, cur, seen)
    ensures StillThere(r, s, tid, n, cur, uid)
    ensures Same(r, s, tid, n) ==> SameThere(r, s, tid, n, cur, uid)
  {
    PlanAlong(r, s, tid, n, cur0, cur, seen, uid);
    var p := PlanFor(r, tid, cur, uid);
    hide PlanFor, TableOk, Reads, CursorAt, PutAt, OldVal;
    forall a: Addr, f: Byte | p.was == Some(a) && f < n
      ensures ValueKey(tid, a, f) in s || IndexKey(tid, f, OldVal(r, tid, a, f), a) !in s
    {
      if Maps(s, tid, uid, a) {
        MappedThere(s, tid, n, cur, uid, a, f);
      }
    }
  }

  lemma ChangesAlong(r: Store, s: Store, tid: U64, n: nat, cur0: Addr, cur: Addr, seen: seq<Doc>,
                     doc: Doc, docs: seq<Doc>)
    requires Along(r, s, tid, n, cur0, cur, seen) && |doc| == n && seen + [doc] <= docs && Whole(docs, n)
    ensures 1 <= n <= 255 && (ChangesInPlace(r, tid, cur, doc) <==> !UnchangedAt(r, tid, cur0, docs, |seen|))
  {
    PlanAlong(r, s, tid, n, cur0, cur, seen, doc[0]);
    assert docs[..|seen|] == seen == seen[..|seen|] && docs[|seen|] == doc;
    hide PlanFor, Along, Newcomers;
  }

  lemma SameStep(r: Store, s: Store, t: Store, tid: U64, n: nat, cur0: Addr, cur: Addr, seen: seq<Doc>, doc: Doc)
    requires Along(r, s, tid, n, cur0, cur, seen) && |doc| == n && cur.id < SEGMENT_SIZE && 1 <= n <= 255
    requires Added(r, s, t, tid, cur, doc) && Same(r, s, tid, n) && !ChangesInPlace(r, tid, cur, doc)
    ensures Same(r, t, tid, n)
  {
    var p := PlanFor(r, tid, cur, doc[0]);
    PlanAlong(r, s, tid, n, cur0, cur, seen, doc[0]);
    assert !p.isNew ==> forall f: Byte :: f < n ==> Get(r, ValueKey(tid, p.addr, f)) == Some(Raw(doc[f]));
    assert forall uid, a :: Maps(r, tid, uid, a) ==> Before(a, cur);
    hide PlanFor, Added, Along, ChangesInPlace, Maps, Before;
    forall uid, a: Addr, f: Byte | Maps(r, tid, uid, a) && f < n && ValueKey(tid, a, f) in t
      ensures Get(t, ValueKey(tid, a, f)) == Get(r, ValueKey(tid, a, f))
    {
      if a == p.addr {
        OwnValue(r, s, t, tid, cur, doc, f);
      } else if p.was == Some(a) {
        OldValue(r, s, t, tid, cur, doc, a, f);
      } else {
        UntouchedValue(r, s, t, tid, cur, doc, a, f);
      }
    }
  }

  /** Once wrong, the index stays wrong to the end of the batch. */
  lemma {:induction false} StaleFrom(r: Store, s: Store, tid: U64, n: nat, cur0: Addr, cur: Addr,
                                     docs: seq<Doc>, i: nat)
    requires i <= |docs| && Whole(docs, n) && Along(r, s, tid, n, cur0, cur, docs[..i]) && !Exact(s, tid)
    requires cur.id < SEGMENT_SIZE && cur.sid + (|docs| - i) < 0x1_0000_0000_0000_0000
    ensures !Exact(RestOf(r, s, tid, cur, docs, n, i), tid)
    decreases |docs| - i
  {
    hide Along, Exact, RestOf, DocOps, PlanFor, NewCursor, Apply, Added, TableOk, Reads, StillThere;
    if i == |docs| {
      RestNone(r, s, tid, cur, docs, n);
    } else {
      var doc := docs[i];
      assert docs[..i] + [doc] == docs[..i + 1];
      AddedByOps(r, s, tid, cur, doc);
      AlongTable(r, s, tid, n, cur0, cur, docs[..i]);
      ThereAlong(r, s, tid, n, cur0, cur, docs[..i], doc[0]);
      StaleStays(r, s, Apply(s, DocOps(r, tid, cur, doc)), tid, n, cur, doc);
      AlongStep(r, s, tid, n, cur0, cur, docs[..i], doc);
      RestUnfold(r, s, tid, cur, docs, n, i);
      StaleFrom(r, Apply(s, DocOps(r, tid, cur, doc)), tid, n, cur0, NewCursor(cur, PlanFor(r, tid, cur, doc[0])),
                docs, i + 1);
    }
  }

  lemma {:induction false} ExactFrom(r: Store, s: Store, tid: U64, n: nat, cur0: Addr, cur: Addr,
                                     docs: seq<Doc>, i: nat)
    requires i <= |docs| && Whole(docs, n) && Along(r, s, tid, n, cur0, cur, docs[..i]) && Same(r, s, tid, n)
    requires cur.id < SEGMENT_SIZE && cur.sid + (|docs| - i) < 0x1_0000_0000_0000_0000
    ensures forall k :: 0 <= k < |docs| ==> 0 < |docs[k]| <= 255
    ensures Exact(RestOf(r, s, tid, cur, docs, n, i), tid) <==>
              Exact(s, tid) && forall k :: i <= k < |docs| ==> UnchangedAt(r, tid, cur0, docs, k)
    decreases |docs| - i
  {
    hide Along, Exact, RestOf, DocOps, PlanFor, NewCursor, Apply, Added, TableOk, Reads, StillThere, SameThere, Same,
         UnchangedAt, ChangesInPlace;
    WholeDocs(docs, n);
    if i == |docs| {
      RestNone(r, s, tid, cur, docs, n);
    } else {
      var doc := docs[i];
      var t, next := Apply(s, DocOps(r, tid, cur, doc)), NewCursor(cur, PlanFor(r, tid, cur, doc[0]));
      assert docs[..i] + [doc] == docs[..i + 1];
      AddedByOps(r, s, tid, cur, doc);
      AlongTable(r, s, tid, n, cur0, cur, docs[..i]);
      ThereAlong(r, s, tid, n, cur0, cur, docs[..i], doc[0]);
      ExactIff(r, s, t, tid, n, cur, doc);
      ChangesAlong(r, s, tid, n, cur0, cur, docs[..i], doc, docs);
      AlongStep(r, s, tid, n, cur0, cur, docs[..i], doc);
      RestUnfold(r, s, tid, cur, docs, n, i);
      if UnchangedAt(r, tid, cur0, docs, i) {
        SameStep(r, s, t, tid, n, cur0, cur, docs[..i], doc);
        ExactFrom(r, t, tid, n, cur0, next, docs, i + 1);
      } else {
        StaleFrom(r, t, tid, n, cur0, next, docs, i + 1);
      }
    }
  }

  /** After a batch index and records agree if and only if they did before it and every document
      that was put in place in the current segment was stored there as it is already. */
  lemma BatchExactIff(s: Store, tid: U64, cur: Addr, docs: seq<Doc>, n: nat)
    requires TableOk(s, tid, n, cur) && Whole(docs, n)
    requires cur.id < SEGMENT_SIZE && cur.sid + |docs| < 0x1_0000_0000_0000_0000
    ensures Exact(Apply(s, BatchOps(s, tid, cur, docs, n).ops), tid) <==>
              Exact(s, tid) && ChangesNone(s, tid, cur, docs)
  {
    hide TableOk, Along, Exact, UnchangedAt, Apply, BatchOps;
    AlongStart(s, tid, n, cur);
    assert docs[..0] == [] && docs[0..] == docs;
    ExactFrom(s, s, tid, n, cur, cur, docs, 0);
  }
}
