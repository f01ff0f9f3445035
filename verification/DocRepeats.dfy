/** Batches in which a uid occurs more than once (rocksdb_lab/rocksdb_impl.cpp:526-753): exactly
    when AddDocs leaves what adding the documents one by one would leave.

    The reads of a batch see the committed store `r`. Along the batch the proof follows `t`, the
    store after the documents so far were added one by one. */
module DocRepeats {
  import opened ByteStrings
  import opened Options
  import opened StoreKeys
  import opened DocStore
  import opened DocInvariants
  import opened DocBatch

  /** The address that the uid is mapped to. */
  function Where(s: Store, tid: U64, uid: Bytes): Option<Addr> {
    match Get(s, UidKey(tid, uid))
    case Some(At(a)) => Some(a)
    case _ => None
  }

  /** The last of the documents that has the uid. */
  function Last(docs: seq<Doc>, uid: Bytes): (j: Option<nat>)
    requires forall i :: 0 <= i < |docs| ==> |docs[i]| > 0
    ensures j.Some? ==> j.value < |docs| && docs[j.value][0] == uid
    ensures j.Some? ==> forall i :: j.value < i < |docs| ==> docs[i][0] != uid
    ensures j.None? ==> forall i :: 0 <= i < |docs| ==> docs[i][0] != uid
  {
    if docs == [] then None
    else if docs[|docs| - 1][0] == uid then Some(|docs| - 1)
    else Last(docs[..|docs| - 1], uid)
  }

  // ---- What a caller can check before the batch ----

  /** The uid is stored in the current segment, so that its document is overwritten in place. */
  predicate InSegment(r: Store, tid: U64, cur: Addr, uid: Bytes) {
    Where(r, tid, uid).Some? && Where(r, tid, uid).value.sid == cur.sid
  }

  /** How many of the documents take a new address. */
  function Newcomers(r: Store, tid: U64, cur: Addr, docs: seq<Doc>): (k: nat)
    requires forall i :: 0 <= i < |docs| ==> |docs[i]| > 0
    ensures k <= |docs|
  {
    if docs == [] then 0
    else Newcomers(r, tid, cur, docs[..|docs| - 1])
         + if InSegment(r, tid, cur, docs[|docs| - 1][0]) then 0 else 1
  }

  /** The current segment is full before the i-th document. */
  predicate Full(r: Store, tid: U64, cur: Addr, docs: seq<Doc>, i: nat)
    requires i <= |docs| && forall k :: 0 <= k < |docs| ==> |docs[k]| > 0
  {
    cur.id + Newcomers(r, tid, cur, docs[..i]) >= SEGMENT_SIZE
  }

  /** The document is stored as it is. */
  predicate Stored(r: Store, tid: U64, doc: Doc)
    requires 0 < |doc| <= 255
  {
    Where(r, tid, doc[0]).Some?
    && forall f: Byte :: f < |doc| ==> Get(r, ValueKey(tid, Where(r, tid, doc[0]).value, f)) == Some(Raw(doc[f]))
  }

  /** If the i-th document is a further version of an earlier one: its uid is stored in the
      current segment, the version before it was still put there, and if the segment is full by
      now that version was the stored one. */
  predicate RepeatOk(r: Store, tid: U64, cur: Addr, docs: seq<Doc>, i: nat)
    requires i < |docs| && forall k :: 0 <= k < |docs| ==> 0 < |docs[k]| <= 255
  {
    match Last(docs[..i], docs[i][0])
    case None => true
    case Some(j) =>
      && InSegment(r, tid, cur, docs[i][0]) && !Full(r, tid, cur, docs, j)
      && (Full(r, tid, cur, docs, i) ==> Stored(r, tid, docs[j]))
  }

  predicate RepeatsOk(r: Store, tid: U64, cur: Addr, docs: seq<Doc>, from: nat)
    requires forall k :: 0 <= k < |docs| ==> 0 < |docs[k]| <= 255
  {
    forall i :: from <= i < |docs| ==> RepeatOk(r, tid, cur, docs, i)
  }

  lemma LastAppend(docs: seq<Doc>, doc: Doc, uid: Bytes)
    requires |doc| > 0 && forall i :: 0 <= i < |docs| ==> |docs[i]| > 0
    ensures Last(docs + [doc], uid) == if doc[0] == uid then Some(|docs|) else Last(docs, uid)
  {
    assert (docs + [doc])[..|docs|] == docs;
  }

  lemma FullPrefix(r: Store, tid: U64, cur: Addr, docs: seq<Doc>, more: seq<Doc>, i: nat)
    requires i <= |docs| && forall k :: 0 <= k < |docs + more| ==> |(docs + more)[k]| > 0
    ensures forall k :: 0 <= k < |docs| ==> |docs[k]| > 0
    ensures Full(r, tid, cur, docs + more, i) == Full(r, tid, cur, docs, i)
  {
    assert forall k :: 0 <= k < |docs| ==> (docs + more)[k] == docs[k];
    assert (docs + more)[..i] == docs[..i];
  }

  lemma NewcomersAppend(r: Store, tid: U64, cur: Addr, docs: seq<Doc>, doc: Doc)
    requires |doc| > 0 && forall i :: 0 <= i < |docs| ==> |docs[i]| > 0
    ensures Newcomers(r, tid, cur, docs + [doc]) ==
              Newcomers(r, tid, cur, docs) + if InSegment(r, tid, cur, doc[0]) then 0 else 1
  {
    assert (docs + [doc])[..|docs|] == docs;
  }

  lemma {:induction false} NewcomersGrow(r: Store, tid: U64, cur: Addr, docs: seq<Doc>, i: nat)
    requires i <= |docs| && forall k :: 0 <= k < |docs| ==> |docs[k]| > 0
    ensures Newcomers(r, tid, cur, docs[..i]) <= Newcomers(r, tid, cur, docs)
    decreases |docs|
  {
    if i == |docs| {
      assert docs[..i] == docs;
    } else {
      NewcomersGrow(r, tid, cur, docs[..|docs| - 1], i);
      assert docs[..|docs| - 1][..i] == docs[..i];
    }
  }

  // ---- Where the two ways stand while they agree ----

  /** The cursor after the documents `seen`. */
  predicate CursorAt(r: Store, tid: U64, cur0: Addr, seen: seq<Doc>, cur: Addr)
    requires forall k :: 0 <= k < |seen| ==> |seen[k]| > 0
  {
    if Full(r, tid, cur0, seen, |seen|) then cur.sid > cur0.sid
    else cur.sid == cur0.sid && cur.id == cur0.id + Newcomers(r, tid, cur0, seen)
  }

  /** The uid was put in by `doc`, before which the segment was full or not. */
  ghost predicate PutBy(r: Store, tid: U64, cur0: Addr, t: Store, doc: Doc, full: bool)
    requires 0 < |doc| <= 255
  {
    var at := Where(t, tid, doc[0]);
    && at.Some?
    && (forall f: Byte :: f < |doc| ==> Get(t, ValueKey(tid, at.value, f)) == Some(Raw(doc[f])))
    && (if full then at.value.sid > cur0.sid else at.value.sid == cur0.sid)
    && (if InSegment(r, tid, cur0, doc[0]) && !full then Where(r, tid, doc[0]) == at else !Before(at.value, cur0))
  }

  ghost predicate SeenOk(r: Store, tid: U64, cur0: Addr, t: Store, seen: seq<Doc>)
    requires forall k :: 0 <= k < |seen| ==> 0 < |seen[k]| <= 255
  {
    forall uid :: Last(seen, uid).Some? ==>
      PutBy(r, tid, cur0, t, seen[Last(seen, uid).value], Full(r, tid, cur0, seen, Last(seen, uid).value))
  }

  ghost predicate UnseenOk(r: Store, tid: U64, t: Store, seen: seq<Doc>)
    requires forall k :: 0 <= k < |seen| ==> |seen[k]| > 0
  {
    forall uid :: Last(seen, uid).None? ==> ReadAlike(r, t, tid, uid)
  }

  /** A document that has not moved still has all its committed index entries. */
  ghost predicate KeptOk(r: Store, tid: U64, t: Store) {
    forall uid, f: Byte, v: Bytes, a: Addr ::
      Where(r, tid, uid) == Some(a) && Where(t, tid, uid) == Some(a) && IndexKey(tid, f, v, a) in r ==>
        IndexKey(tid, f, v, a) in t
  }

  ghost predicate Sim(r: Store, tid: U64, n: nat, cur0: Addr, t: Store, cur: Addr, seen: seq<Doc>) {
    && Whole(seen, n) && TableOk(r, tid, n, cur0) && TableOk(t, tid, n, cur)
    && CursorAt(r, tid, cur0, seen, cur)
    && SeenOk(r, tid, cur0, t, seen) && UnseenOk(r, tid, t, seen) && KeptOk(r, tid, t)
  }

  /** The batch's reads for the document give what the reads of a single addition give. */
  ghost predicate Agrees(r: Store, t: Store, tid: U64, cur: Addr, doc: Doc)
    requires |doc| > 0
  {
    var p := PlanFor(t, tid, cur, doc[0]);
    && PlanFor(r, tid, cur, doc[0]) == p
    && (p.was.Some? ==> forall f: Byte ::
          Get(r, ValueKey(tid, p.was.value, f)) == Get(t, ValueKey(tid, p.was.value, f)))
  }

  lemma AgreesOps(r: Store, t: Store, tid: U64, cur: Addr, doc: Doc)
    requires cur.id < SEGMENT_SIZE && 1 <= |doc| <= 255 && Agrees(r, t, tid, cur, doc)
    ensures DocOps(r, tid, cur, doc) == DocOps(t, tid, cur, doc)
  {
    hide PlanFor;
    FieldsOpsAlike(r, t, tid, PlanFor(t, tid, cur, doc[0]), doc, |doc|);
  }

  /** The plan, in terms of the uid's address. */
  lemma PlanWhere(s: Store, tid: U64, cur: Addr, uid: Bytes)
    ensures PlanFor(s, tid, cur, uid) ==
              match Where(s, tid, uid)
              case Some(a) => if a.sid == cur.sid then Plan(a, None, false) else Plan(cur, Some(a), true)
              case None => Plan(cur, None, true)
  {
  }

  lemma MappedBelow(s: Store, tid: U64, n: nat, cur: Addr, uid: Bytes)
    requires TableOk(s, tid, n, cur) && Where(s, tid, uid).Some?
    ensures var a := Where(s, tid, uid).value;
            && UidKey(tid, uid) in s && s[UidKey(tid, uid)] == At(a)
            && Before(a, cur) && a.sid <= cur.sid && Get(s, ValueKey(tid, a, 0)) == Some(Raw(uid))
            && forall f: Byte :: f < n ==> HasRaw(s, ValueKey(tid, a, f))
  {
    hide ValuesOk, Indexed, IndexBelow, CursorOk;
    assert Complete(s, tid, n, uid, Where(s, tid, uid).value);
  }

  lemma FieldsBelow(s: Store, tid: U64, n: nat, cur: Addr, a: Addr, f: Byte)
    requires TableOk(s, tid, n, cur) && f >= n
    ensures Get(s, ValueKey(tid, a, f)) == None
  {
    hide UidsOk, Indexed, IndexBelow, CursorOk;
  }

  /** For a uid that has not occurred in the batch the reads agree. */
  lemma UnseenAgrees(r: Store, t: Store, tid: U64, cur: Addr, doc: Doc)
    requires |doc| > 0 && ReadAlike(r, t, tid, doc[0])
    ensures Agrees(r, t, tid, cur, doc)
  {
  }

  /** For one that has, they agree exactly under the condition of `RepeatOk`. */
  lemma RepeatAgrees(r: Store, tid: U64, n: nat, cur0: Addr, t: Store, cur: Addr, doc: Doc, before: Doc, full0: bool,
      full: bool)
    requires TableOk(r, tid, n, cur0) && TableOk(t, tid, n, cur) && |doc| == |before| == n && doc[0] == before[0]
    requires 1 <= n <= 255 && PutBy(r, tid, cur0, t, before, full0) && (full0 ==> full)
    requires if full then cur.sid > cur0.sid else cur.sid == cur0.sid
    ensures Agrees(r, t, tid, cur, doc) <==>
              InSegment(r, tid, cur0, doc[0]) && !full0 && (full ==> Stored(r, tid, before))
  {
    var uid := doc[0];
    hide TableOk, PlanFor, Before;
    PlanWhere(r, tid, cur, uid);
    PlanWhere(t, tid, cur, uid);
    MappedBelow(t, tid, n, cur, uid);
    var a := Where(t, tid, uid).value;
    if Where(r, tid, uid).Some? {
      MappedBelow(r, tid, n, cur0, uid);
    }
    if InSegment(r, tid, cur0, uid) && !full0 {
      if full {
        forall f: Byte | f >= n
          ensures Get(r, ValueKey(tid, a, f)) == Get(t, ValueKey(tid, a, f))
        {
          FieldsBelow(r, tid, n, cur0, a, f);
          FieldsBelow(t, tid, n, cur, a, f);
        }
      }
    }
  }

  lemma WholeDocs(docs: seq<Doc>, n: nat)
    requires Whole(docs, n)
    ensures forall k :: 0 <= k < |docs| ==> 0 < |docs[k]| <= 255
  {
  }

  lemma WholeAppend(docs: seq<Doc>, doc: Doc, n: nat)
    requires Whole(docs, n) && |doc| == n
    ensures Whole(docs + [doc], n)
  {
  }

  /** Under agreement so far, the next document agrees exactly when `RepeatOk` says so. */
  lemma NextAgrees(r: Store, tid: U64, n: nat, cur0: Addr, t: Store, cur: Addr, seen: seq<Doc>, doc: Doc,
      docs: seq<Doc>)
    requires Sim(r, tid, n, cur0, t, cur, seen) && |doc| == n && seen + [doc] <= docs && Whole(docs, n)
    ensures Agrees(r, t, tid, cur, doc) <==> RepeatOk(r, tid, cur0, docs, |seen|)
  {
    hide TableOk, Agrees, PutBy, InSegment, Newcomers, ReadAlike, KeptOk, Stored, Last;
    WholeDocs(docs, n);
    var i, uid := |seen|, doc[0];
    assert docs[..i] == seen && docs[i] == doc;
    match Last(seen, uid) {
      case None =>
        UnseenAgrees(r, t, tid, cur, doc);
      case Some(j) =>
        NewcomersGrow(r, tid, cur0, docs[..i], j);
        assert docs[..i][..j] == docs[..j] && seen[..j] == docs[..j];
        assert seen[..i] == docs[..i];
        RepeatAgrees(r, tid, n, cur0, t, cur, doc, seen[j], Full(r, tid, cur0, seen, j), Full(r, tid, cur0, seen, i));
    }
  }

  // ---- Agreement is kept ----

  lemma CursorStep(r: Store, tid: U64, n: nat, cur0: Addr, t: Store, cur: Addr, seen: seq<Doc>, doc: Doc)
    requires TableOk(r, tid, n, cur0) && Whole(seen, n) && CursorAt(r, tid, cur0, seen, cur) && |doc| == n
    requires cur.id < SEGMENT_SIZE && Room(cur) && PlanFor(r, tid, cur, doc[0]) == PlanFor(t, tid, cur, doc[0])
    ensures Whole(seen + [doc], n)
    ensures CursorAt(r, tid, cur0, seen + [doc], NewCursor(cur, PlanFor(t, tid, cur, doc[0])))
  {
    WholeAppend(seen, doc, n);
    hide TableOk, PlanFor, Newcomers;
    NewcomersAppend(r, tid, cur0, seen, doc);
    PlanWhere(r, tid, cur, doc[0]);
    if Where(r, tid, doc[0]).Some? {
      MappedBelow(r, tid, n, cur0, doc[0]);
    }
    assert seen[..|seen|] == seen && (seen + [doc])[..|seen + [doc]|] == seen + [doc];
  }

  lemma UnseenStep(r: Store, tid: U64, n: nat, t: Store, cur: Addr, seen: seq<Doc>, doc: Doc)
    requires TableOk(t, tid, n, cur) && Whole(seen, n) && |doc| == n && UnseenOk(r, tid, t, seen)
    requires cur.id < SEGMENT_SIZE
    ensures Whole(seen + [doc], n)
    ensures UnseenOk(r, tid, Apply(t, DocOps(t, tid, cur, doc)), seen + [doc])
  {
    WholeAppend(seen, doc, n);
    hide TableOk, ReadAlike, Last, Apply, DocOps;
    var t' := Apply(t, DocOps(t, tid, cur, doc));
    forall uid | Last(seen + [doc], uid).None?
      ensures ReadAlike(r, t', tid, uid)
    {
      LastAppend(seen, doc, uid);
      ReadAlikeAfter(r, t, tid, n, cur, doc, uid);
    }
  }

  lemma OwnPut(r: Store, tid: U64, n: nat, cur0: Addr, t: Store, cur: Addr, seen: seq<Doc>, doc: Doc)
    requires TableOk(r, tid, n, cur0) && TableOk(t, tid, n, cur) && Whole(seen, n) && CursorAt(r, tid, cur0, seen, cur)
    requires |doc| == n && PlanFor(r, tid, cur, doc[0]) == PlanFor(t, tid, cur, doc[0])
    requires cur.id < SEGMENT_SIZE && 1 <= n <= 255
    ensures PutBy(r, tid, cur0, Apply(t, DocOps(t, tid, cur, doc)), doc, Full(r, tid, cur0, seen, |seen|))
  {
    hide TableOk, PlanFor, Newcomers, Apply, DocOps, Added;
    var t' := Apply(t, DocOps(t, tid, cur, doc));
    AddedByOps(t, t, tid, cur, doc);
    AddedUid(t, t, t', tid, cur, doc, doc[0]);
    PlanWhere(r, tid, cur, doc[0]);
    if Where(r, tid, doc[0]).Some? {
      MappedBelow(r, tid, n, cur0, doc[0]);
    }
    var a := PlanFor(t, tid, cur, doc[0]).addr;
    forall f: Byte | f < |doc|
      ensures Get(t', ValueKey(tid, a, f)) == Some(Raw(doc[f]))
    {
      OwnValue(t, t, t', tid, cur, doc, f);
    }
  }

  lemma OtherPut(r: Store, tid: U64, n: nat, cur0: Addr, t: Store, cur: Addr, doc: Doc, other: Doc, full: bool)
    requires TableOk(t, tid, n, cur) && |doc| == |other| == n && other[0] != doc[0] && cur.id < SEGMENT_SIZE
    requires 1 <= n <= 255 && PutBy(r, tid, cur0, t, other, full)
    ensures PutBy(r, tid, cur0, Apply(t, DocOps(t, tid, cur, doc)), other, full)
  {
    hide TableOk, Apply, DocOps, Added, Before, InSegment;
    var t' := Apply(t, DocOps(t, tid, cur, doc));
    AddedByOps(t, t, tid, cur, doc);
    MappedBelow(t, tid, n, cur, other[0]);
    ReadsItself(t, tid, n, cur);
    OtherStays(t, t, t', tid, n, cur, doc, other[0]);
    var a := Where(t, tid, other[0]).value;
    assert t[UidKey(tid, other[0])].addr == a;
    assert Where(t', tid, other[0]) == Some(a);
  }

  lemma SeenStep(r: Store, tid: U64, n: nat, cur0: Addr, t: Store, cur: Addr, seen: seq<Doc>, doc: Doc)
    requires TableOk(r, tid, n, cur0) && TableOk(t, tid, n, cur) && Whole(seen, n) && CursorAt(r, tid, cur0, seen, cur)
    requires |doc| == n && PlanFor(r, tid, cur, doc[0]) == PlanFor(t, tid, cur, doc[0])
    requires cur.id < SEGMENT_SIZE && SeenOk(r, tid, cur0, t, seen)
    ensures Whole(seen + [doc], n)
    ensures SeenOk(r, tid, cur0, Apply(t, DocOps(t, tid, cur, doc)), seen + [doc])
  {
    WholeAppend(seen, doc, n);
    hide TableOk, PlanFor, Last, Apply, DocOps, PutBy, Full, CursorAt;
    var t', seen' := Apply(t, DocOps(t, tid, cur, doc)), seen + [doc];
    forall uid | Last(seen', uid).Some?
      ensures PutBy(r, tid, cur0, t', seen'[Last(seen', uid).value], Full(r, tid, cur0, seen', Last(seen', uid).value))
    {
      LastAppend(seen, doc, uid);
      FullPrefix(r, tid, cur0, seen, [doc], Last(seen', uid).value);
      if uid == doc[0] {
        OwnPut(r, tid, n, cur0, t, cur, seen, doc);
      } else {
        var j := Last(seen, uid).value;
        OtherPut(r, tid, n, cur0, t, cur, doc, seen[j], Full(r, tid, cur0, seen, j));
      }
    }
  }

  /** An index entry of a document that has not moved survives the addition. */
  lemma IndexStays(tid: U64, n: nat, t: Store, cur: Addr, doc: Doc, uid: Bytes, a: Addr, f: Byte, v: Bytes)
    requires TableOk(t, tid, n, cur) && |doc| == n && cur.id < SEGMENT_SIZE && 1 <= n <= 255
    requires Where(t, tid, uid) == Some(a) && IndexKey(tid, f, v, a) in t
    requires Where(Apply(t, DocOps(t, tid, cur, doc)), tid, uid) == Some(a) || uid != doc[0]
    ensures IndexKey(tid, f, v, a) in Apply(t, DocOps(t, tid, cur, doc))
  {
    hide TableOk, Apply, DocOps, PlanFor, Before, Complete;
    var t' := Apply(t, DocOps(t, tid, cur, doc));
    AddedByOps(t, t, tid, cur, doc);
    AddedUid(t, t, t', tid, cur, doc, doc[0]);
    PlanWhere(t, tid, cur, doc[0]);
    MappedBelow(t, tid, n, cur, uid);
    if uid != doc[0] {
      ReadsItself(t, tid, n, cur);
      OthersApart(t, t, tid, n, cur, doc[0], uid);
    }
    assert Get(t', IndexKey(tid, f, v, a)) == DocGet(t, t, tid, cur, doc, IndexKey(tid, f, v, a));
  }

  lemma KeptStep(r: Store, tid: U64, n: nat, cur0: Addr, t: Store, cur: Addr, doc: Doc)
    requires TableOk(r, tid, n, cur0) && TableOk(t, tid, n, cur) && |doc| == n && cur.id < SEGMENT_SIZE && 1 <= n <= 255
    requires KeptOk(r, tid, t) && !Before(cur, cur0)
    ensures KeptOk(r, tid, Apply(t, DocOps(t, tid, cur, doc)))
  {
    hide TableOk, Apply, DocOps, PlanFor, Before, Complete, Added;
    var t' := Apply(t, DocOps(t, tid, cur, doc));
    AddedByOps(t, t, tid, cur, doc);
    forall uid, f: Byte, v: Bytes, a: Addr |
        Where(r, tid, uid) == Some(a) && Where(t', tid, uid) == Some(a) && IndexKey(tid, f, v, a) in r
      ensures IndexKey(tid, f, v, a) in t'
    {
      AddedUid(t, t, t', tid, cur, doc, uid);
      PlanWhere(t, tid, cur, doc[0]);
      MappedBelow(r, tid, n, cur0, uid);
      assert a != cur;
      assert Where(t, tid, uid) == Some(a);
      IndexStays(tid, n, t, cur, doc, uid, a, f, v);
    }
  }

  lemma CursorPast(r: Store, tid: U64, n: nat, cur0: Addr, t: Store, cur: Addr, seen: seq<Doc>)
    requires Sim(r, tid, n, cur0, t, cur, seen)
    ensures !Before(cur, cur0) && cur.id < SEGMENT_SIZE && cur0.id < SEGMENT_SIZE && 1 <= n <= 255
  {
    CursorInSegment(t, tid, n, cur);
    CursorInSegment(r, tid, n, cur0);
    hide TableOk, SeenOk, UnseenOk, KeptOk, Newcomers;
  }

  lemma SimStep(r: Store, tid: U64, n: nat, cur0: Addr, t: Store, cur: Addr, seen: seq<Doc>, doc: Doc)
    requires Sim(r, tid, n, cur0, t, cur, seen) && |doc| == n && Room(cur) && cur.id < SEGMENT_SIZE && 1 <= n <= 255
    requires Agrees(r, t, tid, cur, doc)
    ensures Sim(r, tid, n, cur0, Apply(t, DocOps(t, tid, cur, doc)), NewCursor(cur, PlanFor(t, tid, cur, doc[0])),
            seen + [doc])
  {
    CursorPast(r, tid, n, cur0, t, cur, seen);
    hide TableOk, SeenOk, UnseenOk, KeptOk, CursorAt, Newcomers, Apply, DocOps, PlanFor, NewCursor, Before;
    NextStore(t, tid, n, cur, doc);
    CursorStep(r, tid, n, cur0, t, cur, seen, doc);
    UnseenStep(r, tid, n, t, cur, seen, doc);
    SeenStep(r, tid, n, cur0, t, cur, seen, doc);
    KeptStep(r, tid, n, cur0, t, cur, doc);
  }

  // ---- A disagreement never heals ----

  /** Documents that the committed store has in the current segment are still there. */
  ghost predicate Fixed(r: Store, tid: U64, t: Store, cur: Addr) {
    forall uid, a :: Where(r, tid, uid) == Some(a) && a.sid == cur.sid ==> Where(t, tid, uid) == Some(a)
  }

  lemma SimFixed(r: Store, tid: U64, n: nat, cur0: Addr, t: Store, cur: Addr, seen: seq<Doc>)
    requires Sim(r, tid, n, cur0, t, cur, seen)
    ensures Fixed(r, tid, t, cur)
  {
    hide TableOk, KeptOk, Newcomers, Last, Before;
    forall uid, a | Where(r, tid, uid) == Some(a) && a.sid == cur.sid
      ensures Where(t, tid, uid) == Some(a)
    {
      MappedBelow(r, tid, n, cur0, uid);
      if Last(seen, uid).None? {
        assert ReadAlike(r, t, tid, uid);
      } else {
        var j := Last(seen, uid).value;
        NewcomersGrow(r, tid, cur0, seen, j);
        assert seen[..|seen|] == seen;
        assert PutBy(r, tid, cur0, t, seen[j], Full(r, tid, cur0, seen, j));
      }
    }
  }

  lemma FixedStep(r: Store, tid: U64, n: nat, cur0: Addr, t: Store, cur: Addr, doc: Doc)
    requires TableOk(r, tid, n, cur0) && !Before(cur, cur0) && Fixed(r, tid, t, cur)
    requires |doc| == n && 1 <= n <= 255 && cur.id < SEGMENT_SIZE && Room(cur)
    ensures Fixed(r, tid, Apply(t, DocOps(t, tid, cur, doc)), NewCursor(cur, PlanFor(t, tid, cur, doc[0])))
  {
    hide TableOk, Apply, DocOps, PlanFor, Added;
    var t' := Apply(t, DocOps(t, tid, cur, doc));
    AddedByOps(t, t, tid, cur, doc);
    PlanWhere(t, tid, cur, doc[0]);
    forall uid, a | Where(r, tid, uid) == Some(a) && a.sid == NewCursor(cur, PlanFor(t, tid, cur, doc[0])).sid
      ensures Where(t', tid, uid) == Some(a)
    {
      MappedBelow(r, tid, n, cur0, uid);
      AddedUid(t, t, t', tid, cur, doc, uid);
      assert Where(t, tid, uid) == Some(a);
    }
  }

  lemma NextKeepsOrder(a: Addr, b: Addr)
    requires a.id < SEGMENT_SIZE && b.id < SEGMENT_SIZE && Room(b) && Before(a, b)
    ensures Before(NextAddr(a), NextAddr(b)) && Before(a, NextAddr(b)) && Before(b, NextAddr(b))
    ensures NextAddr(b).sid <= b.sid + 1
  {
  }

  /** A batch that is ahead with its addresses stays ahead. */
  lemma {:induction false} GapStays(r: Store, tid: U64, n: nat, cur0: Addr, t: Store, ce: Addr, cb: Addr,
      docs: seq<Doc>)
    requires TableOk(r, tid, n, cur0) && TableOk(t, tid, n, ce) && Whole(docs, n) && Fixed(r, tid, t, ce)
    requires !Before(ce, cur0) && Before(ce, cb) && ce.id < SEGMENT_SIZE && cb.id < SEGMENT_SIZE
    requires cb.sid + |docs| < 0x1_0000_0000_0000_0000
    ensures Before(AddEach(t, tid, ce, docs, n).cur, BatchOps(r, tid, cb, docs, n).cur)
    decreases |docs|
  {
    hide TableOk, Fixed, DocOps, Apply, PlanFor, Rolls;
    if docs != [] {
      var doc := docs[0];
      var ce' := NewCursor(ce, PlanFor(t, tid, ce, doc[0]));
      var cb' := NewCursor(cb, PlanFor(r, tid, cb, doc[0]));
      GapStep(r, tid, n, cur0, t, ce, cb, doc);
      NextStore(t, tid, n, ce, doc);
      FixedStep(r, tid, n, cur0, t, ce, doc);
      GapStays(r, tid, n, cur0, Apply(t, DocOps(t, tid, ce, doc)), ce', cb', docs[1..]);
    }
  }

  lemma GapStep(r: Store, tid: U64, n: nat, cur0: Addr, t: Store, ce: Addr, cb: Addr, doc: Doc)
    requires TableOk(r, tid, n, cur0) && Fixed(r, tid, t, ce) && |doc| == n && n > 0
    requires !Before(ce, cur0) && Before(ce, cb) && ce.id < SEGMENT_SIZE && cb.id < SEGMENT_SIZE && Room(cb)
    ensures var ce', cb' := NewCursor(ce, PlanFor(t, tid, ce, doc[0])), NewCursor(cb, PlanFor(r, tid, cb, doc[0]));
            Before(ce', cb') && !Before(ce', cur0) && cb'.sid <= cb.sid + 1 && Room(ce)
  {
    hide TableOk, PlanFor;
    PlanWhere(r, tid, cb, doc[0]);
    PlanWhere(t, tid, ce, doc[0]);
    if Where(r, tid, doc[0]).Some? {
      MappedBelow(r, tid, n, cur0, doc[0]);
    }
    NextKeepsOrder(ce, cb);
    NextAddrAfter(ce);
    hide Fixed;
  }

  /** An address that a single addition has moved away from is never used again. */
  lemma {:induction false} AbandonedStays(tid: U64, n: nat, t: Store, cur: Addr, docs: seq<Doc>, a: Addr, f: Byte,
      v: Bytes)
    requires TableOk(t, tid, n, cur) && Whole(docs, n) && Before(a, cur) && ValueKey(tid, a, 0) !in t
    requires cur.id < SEGMENT_SIZE && cur.sid + |docs| < 0x1_0000_0000_0000_0000
    ensures ValueKey(tid, a, 0) !in AddEach(t, tid, cur, docs, n).store
    ensures IndexKey(tid, f, v, a) in t ==> IndexKey(tid, f, v, a) in AddEach(t, tid, cur, docs, n).store
    decreases |docs|
  {
    hide TableOk, DocOps, Apply, PlanFor, NewCursor, Rolls, Before;
    if docs != [] {
      var doc := docs[0];
      NextStore(t, tid, n, cur, doc);
      AbandonedStep(tid, n, t, cur, doc, a, f, v);
      AbandonedStays(tid, n, Apply(t, DocOps(t, tid, cur, doc)), NewCursor(cur, PlanFor(t, tid, cur, doc[0])),
                     docs[1..], a, f, v);
    }
  }

  lemma AbandonedStep(tid: U64, n: nat, t: Store, cur: Addr, doc: Doc, a: Addr, f: Byte, v: Bytes)
    requires TableOk(t, tid, n, cur) && |doc| == n && Before(a, cur) && ValueKey(tid, a, 0) !in t && Room(cur)
    requires cur.id < SEGMENT_SIZE && 1 <= n <= 255
    ensures var t' := Apply(t, DocOps(t, tid, cur, doc));
            && ValueKey(tid, a, 0) !in t' && (IndexKey(tid, f, v, a) in t ==> IndexKey(tid, f, v, a) in t')
            && Before(a, NewCursor(cur, PlanFor(t, tid, cur, doc[0])))
  {
    ReadsItself(t, tid, n, cur);
    PlanBelow(t, t, tid, cur, doc[0]);
    assert cur != a;
    hide TableOk, Apply, DocOps, PlanFor, NewCursor, Added, Before;
    var t' := Apply(t, DocOps(t, tid, cur, doc));
    AddedByOps(t, t, tid, cur, doc);
    PlanWhere(t, tid, cur, doc[0]);
    if Where(t, tid, doc[0]).Some? {
      MappedBelow(t, tid, n, cur, doc[0]);
    }
    UntouchedValue(t, t, t', tid, cur, doc, a, 0);
    UntouchedValue(t, t, t', tid, cur, doc, a, f);
    assert Get(t', IndexKey(tid, f, v, a)) == Get(t, IndexKey(tid, f, v, a));
  }

  /** A batch never deletes at an address that is not a committed one. */
  lemma {:induction false} BatchKeepsValue(r: Store, tid: U64, n: nat, b: Store, cb: Addr, docs: seq<Doc>, a: Addr)
    requires Whole(docs, n) && cb.id < SEGMENT_SIZE && ValueKey(tid, a, 0) in b
    requires forall uid :: Where(r, tid, uid) != Some(a)
    ensures ValueKey(tid, a, 0) in Apply(b, BatchOps(r, tid, cb, docs, n).ops)
    decreases |docs|
  {
    hide DocOps, Apply, PlanFor, NewCursor, Rolls, Where;
    if docs == [] {
      ApplyNone(b);
    } else {
      var doc := docs[0];
      var cb' := NewCursor(cb, PlanFor(r, tid, cb, doc[0]));
      ApplyConcat(b, DocOps(r, tid, cb, doc), BatchOps(r, tid, cb', docs[1..], n).ops);
      PlanWhere(r, tid, cb, doc[0]);
      DocEffect(b, r, tid, cb, doc, ValueKey(tid, a, 0));
      BatchKeepsValue(r, tid, n, Apply(b, DocOps(r, tid, cb, doc)), cb', docs[1..], a);
    }
  }

  /** A batch never writes into an earlier segment. */
  lemma {:induction false} BatchKeepsGone(r: Store, tid: U64, n: nat, b: Store, cb: Addr, docs: seq<Doc>,
                                          a: Addr, f: Byte, v: Bytes)
    requires Whole(docs, n) && cb.id < SEGMENT_SIZE && IndexKey(tid, f, v, a) !in b && a.sid < cb.sid
    requires cb.sid + |docs| < 0x1_0000_0000_0000_0000
    ensures IndexKey(tid, f, v, a) !in Apply(b, BatchOps(r, tid, cb, docs, n).ops)
    decreases |docs|
  {
    hide DocOps, Apply, PlanFor, Rolls, Where;
    if docs == [] {
      ApplyNone(b);
    } else {
      var doc := docs[0];
      var cb' := NewCursor(cb, PlanFor(r, tid, cb, doc[0]));
      ApplyConcat(b, DocOps(r, tid, cb, doc), BatchOps(r, tid, cb', docs[1..], n).ops);
      PlanWhere(r, tid, cb, doc[0]);
      DocEffect(b, r, tid, cb, doc, IndexKey(tid, f, v, a));
      BatchKeepsGone(r, tid, n, Apply(b, DocOps(r, tid, cb, doc)), cb', docs[1..], a, f, v);
    }
  }

  // ---- The first disagreement decides ----

  /** The two ways end differently. */
  ghost predicate Differs(r: Store, tid: U64, n: nat, t: Store, cur: Addr, docs: seq<Doc>)
    requires cur.id < SEGMENT_SIZE && Whole(docs, n)
  {
    var b, e := BatchOps(r, tid, cur, docs, n), AddEach(t, tid, cur, docs, n);
    Apply(t, b.ops) != e.store || b.cur != e.cur
  }

  lemma Unfold(r: Store, tid: U64, n: nat, t: Store, cur: Addr, docs: seq<Doc>)
    requires cur.id < SEGMENT_SIZE && Whole(docs, n) && docs != []
    ensures Whole(docs[1..], n)
    ensures var doc, rest := docs[0], docs[1..];
            var cb, ce := NewCursor(cur, PlanFor(r, tid, cur, doc[0])), NewCursor(cur, PlanFor(t, tid, cur, doc[0]));
            var b, e := BatchOps(r, tid, cur, docs, n), AddEach(t, tid, cur, docs, n);
            var b', e' := BatchOps(r, tid, cb, rest, n), AddEach(Apply(t, DocOps(t, tid, cur, doc)), tid, ce, rest, n);
            && Apply(t, b.ops) == Apply(Apply(t, DocOps(r, tid, cur, doc)), b'.ops) && b.cur == b'.cur
            && e.store == e'.store && e.cur == e'.cur
            && b.rolled == (Rolls(cur, PlanFor(r, tid, cur, doc[0])) || b'.rolled)
            && e.rolled == (Rolls(cur, PlanFor(t, tid, cur, doc[0])) || e'.rolled)
  {
    hide DocOps, Apply, PlanFor, NewCursor, Rolls;
    var cb := NewCursor(cur, PlanFor(r, tid, cur, docs[0][0]));
    ApplyConcat(t, DocOps(r, tid, cur, docs[0]), BatchOps(r, tid, cb, docs[1..], n).ops);
  }

  /** The batch takes a new address where a single addition overwrites. */
  lemma DiffersAhead(r: Store, tid: U64, n: nat, cur0: Addr, t: Store, cur: Addr, docs: seq<Doc>)
    requires TableOk(r, tid, n, cur0) && TableOk(t, tid, n, cur) && Fixed(r, tid, t, cur) && !Before(cur, cur0)
    requires Whole(docs, n) && docs != [] && cur.id < SEGMENT_SIZE && cur.sid + |docs| < 0x1_0000_0000_0000_0000
    requires PlanFor(r, tid, cur, docs[0][0]).isNew && !PlanFor(t, tid, cur, docs[0][0]).isNew
    ensures Differs(r, tid, n, t, cur, docs)
  {
    hide TableOk, Fixed, DocOps, Apply, PlanFor, Rolls, BatchOps, AddEach;
    Unfold(r, tid, n, t, cur, docs);
    NextStore(t, tid, n, cur, docs[0]);
    FixedStep(r, tid, n, cur0, t, cur, docs[0]);
    NextAddrAfter(cur);
    GapStays(r, tid, n, cur0, Apply(t, DocOps(t, tid, cur, docs[0])), cur, NextAddr(cur), docs[1..]);
  }

  /** The address that a single addition moves away from stays empty, and keeps the index
      entries of other values than the one read. */
  lemma MovedAway(tid: U64, n: nat, t: Store, cur: Addr, docs: seq<Doc>, a: Addr, f: Byte, v: Bytes)
    requires TableOk(t, tid, n, cur) && Whole(docs, n) && docs != [] && f < n
    requires cur.id < SEGMENT_SIZE && cur.sid + |docs| < 0x1_0000_0000_0000_0000
    requires PlanFor(t, tid, cur, docs[0][0]) == Plan(cur, Some(a), true) && Where(t, tid, docs[0][0]) == Some(a)
    ensures var e := AddEach(t, tid, cur, docs, n).store;
            && ValueKey(tid, a, 0) !in e
            && (IndexKey(tid, f, v, a) in t && v != OldVal(t, tid, a, f) ==> IndexKey(tid, f, v, a) in e)
  {
    var doc := docs[0];
    var t' := Apply(t, DocOps(t, tid, cur, doc));
    hide TableOk, DocOps, Apply, PlanFor, NewCursor, Rolls, BatchOps, AddEach, Added, Where, Before, OldVal;
    CursorInSegment(t, tid, n, cur);
    Unfold(t, tid, n, t, cur, docs);
    NextStore(t, tid, n, cur, doc);
    MappedBelow(t, tid, n, cur, doc[0]);
    AddedByOps(t, t, tid, cur, doc);
    OldValue(t, t, t', tid, cur, doc, a, 0);
    OldValue(t, t, t', tid, cur, doc, a, f);
    assert v != OldVal(t, tid, a, f) ==> Get(t', IndexKey(tid, f, v, a)) == Get(t, IndexKey(tid, f, v, a));
    ReadsItself(t, tid, n, cur);
    PlanBelow(t, t, tid, cur, doc[0]);
    AbandonedStays(tid, n, t', NewCursor(cur, PlanFor(t, tid, cur, doc[0])), docs[1..], a, f, v);
  }

  /** A single addition leaves an address that the batch does not know of. */
  lemma DiffersBehind(r: Store, tid: U64, n: nat, cur0: Addr, t: Store, cur: Addr, docs: seq<Doc>, a: Addr)
    requires TableOk(t, tid, n, cur) && Whole(docs, n) && docs != []
    requires cur.id < SEGMENT_SIZE && cur.sid + |docs| < 0x1_0000_0000_0000_0000
    requires PlanFor(t, tid, cur, docs[0][0]) == Plan(cur, Some(a), true) && Where(t, tid, docs[0][0]) == Some(a)
    requires PlanFor(r, tid, cur, docs[0][0]).addr == cur && forall uid :: Where(r, tid, uid) != Some(a)
    ensures Differs(r, tid, n, t, cur, docs)
  {
    hide TableOk, PlanFor, BatchOps, AddEach, Apply, Where;
    MovedAway(tid, n, t, cur, docs, a, 0, []);
    MappedBelow(t, tid, n, cur, docs[0][0]);
    BatchLeaves(r, tid, n, t, cur, docs, a);
  }

  lemma BatchLeaves(r: Store, tid: U64, n: nat, t: Store, cur: Addr, docs: seq<Doc>, a: Addr)
    requires Whole(docs, n) && docs != [] && cur.id < SEGMENT_SIZE && ValueKey(tid, a, 0) in t
    requires forall uid :: Where(r, tid, uid) != Some(a)
    ensures ValueKey(tid, a, 0) in Apply(t, BatchOps(r, tid, cur, docs, n).ops)
  {
    hide *;
    BatchKeepsValue(r, tid, n, t, cur, docs, a);
  }

  /** The batch deletes the index entry of the committed value, a single addition that of the
      last version. */
  lemma DiffersInIndex(r: Store, tid: U64, n: nat, t: Store, cur: Addr, docs: seq<Doc>, a: Addr, f: Byte, v: Bytes)
    requires TableOk(t, tid, n, cur) && Whole(docs, n) && docs != [] && f < n
    requires cur.id < SEGMENT_SIZE && cur.sid + |docs| < 0x1_0000_0000_0000_0000
    requires PlanFor(t, tid, cur, docs[0][0]) == PlanFor(r, tid, cur, docs[0][0]) == Plan(cur, Some(a), true)
    requires Where(t, tid, docs[0][0]) == Some(a) && a.sid < cur.sid
    requires Get(r, ValueKey(tid, a, f)) == Some(Raw(v)) && IndexKey(tid, f, v, a) in t
    requires Get(t, ValueKey(tid, a, f)) != Some(Raw(v))
    ensures Differs(r, tid, n, t, cur, docs)
  {
    MappedBelow(t, tid, n, cur, docs[0][0]);
    assert HasRaw(t, ValueKey(tid, a, f));
    assert OldVal(t, tid, a, f) != v && OldVal(r, tid, a, f) == v;
    hide TableOk, PlanFor, BatchOps, AddEach, Apply, Where, OldVal, HasRaw;
    MovedAway(tid, n, t, cur, docs, a, f, v);
    BatchUnindexes(r, tid, n, t, cur, docs, a, f, v);
  }

  lemma BatchUnindexes(r: Store, tid: U64, n: nat, t: Store, cur: Addr, docs: seq<Doc>, a: Addr, f: Byte, v: Bytes)
    requires Whole(docs, n) && docs != [] && f < n
    requires cur.id < SEGMENT_SIZE && cur.sid + |docs| < 0x1_0000_0000_0000_0000
    requires PlanFor(r, tid, cur, docs[0][0]) == Plan(cur, Some(a), true) && a.sid < cur.sid
             && OldVal(r, tid, a, f) == v
    ensures IndexKey(tid, f, v, a) !in Apply(t, BatchOps(r, tid, cur, docs, n).ops)
  {
    var doc := docs[0];
    hide DocOps, Apply, PlanFor, NewCursor, Rolls, BatchOps, AddEach, OldVal;
    Unfold(r, tid, n, t, cur, docs);
    IndexDeleted(r, tid, t, cur, doc, a, f, v);
    StepBound(r, tid, cur, doc);
    BatchKeepsGone(r, tid, n, Apply(t, DocOps(r, tid, cur, doc)), NewCursor(cur, PlanFor(r, tid, cur, doc[0])),
                   docs[1..], a, f, v);
  }

  lemma IndexDeleted(r: Store, tid: U64, t: Store, cur: Addr, doc: Doc, a: Addr, f: Byte, v: Bytes)
    requires 1 <= |doc| <= 255 && f < |doc| && cur.id < SEGMENT_SIZE && a != cur
    requires PlanFor(r, tid, cur, doc[0]) == Plan(cur, Some(a), true) && OldVal(r, tid, a, f) == v
    ensures IndexKey(tid, f, v, a) !in Apply(t, DocOps(r, tid, cur, doc))
  {
    hide DocOps, Apply, PlanFor, NewCursor, Rolls, OldVal;
    DocEffect(t, r, tid, cur, doc, IndexKey(tid, f, v, a));
  }

  lemma Diverges(r: Store, tid: U64, n: nat, cur0: Addr, t: Store, cur: Addr, seen: seq<Doc>, docs: seq<Doc>)
    requires Sim(r, tid, n, cur0, t, cur, seen) && Whole(docs, n) && docs != []
    requires cur.id < SEGMENT_SIZE && cur.sid + |docs| < 0x1_0000_0000_0000_0000
    requires !Agrees(r, t, tid, cur, docs[0])
    ensures Differs(r, tid, n, t, cur, docs)
  {
    var doc, uid := docs[0], docs[0][0];
    CursorPast(r, tid, n, cur0, t, cur, seen);
    SimFixed(r, tid, n, cur0, t, cur, seen);
    if Last(seen, uid).None? {
      UnseenAgrees(r, t, tid, cur, doc);
    }
    var j := Last(seen, uid).value;
    assert PutBy(r, tid, cur0, t, seen[j], Full(r, tid, cur0, seen, j));
    DivergesAt(r, tid, n, cur0, t, cur, docs, seen[j], Full(r, tid, cur0, seen, j));
  }

  lemma DivergesAt(r: Store, tid: U64, n: nat, cur0: Addr, t: Store, cur: Addr, docs: seq<Doc>, before: Doc, full: bool)
    requires TableOk(r, tid, n, cur0) && TableOk(t, tid, n, cur) && Fixed(r, tid, t, cur) && !Before(cur, cur0)
    requires Whole(docs, n) && docs != [] && |before| == n && before[0] == docs[0][0]
    requires PutBy(r, tid, cur0, t, before, full) && KeptOk(r, tid, t)
    requires cur.id < SEGMENT_SIZE && cur.sid + |docs| < 0x1_0000_0000_0000_0000
    requires !Agrees(r, t, tid, cur, docs[0])
    ensures Differs(r, tid, n, t, cur, docs)
  {
    var doc, uid := docs[0], docs[0][0];
    hide TableOk, PlanFor, Differs, Before;
    PlanWhere(r, tid, cur, uid);
    PlanWhere(t, tid, cur, uid);
    MappedBelow(t, tid, n, cur, uid);
    var a := Where(t, tid, uid).value;
    if a.sid == cur.sid {
      assert PlanFor(r, tid, cur, uid).isNew;
      DiffersAhead(r, tid, n, cur0, t, cur, docs);
    } else if Where(r, tid, uid) == Some(a) {
      var f: Byte :| Get(r, ValueKey(tid, a, f)) != Get(t, ValueKey(tid, a, f));
      DiffersInValue(r, tid, n, cur0, t, cur, docs, a, f);
    } else {
      assert !Before(a, cur0);
      forall other
        ensures Where(r, tid, other) != Some(a)
      {
        if Where(r, tid, other).Some? {
          MappedBelow(r, tid, n, cur0, other);
        }
      }
      DiffersBehind(r, tid, n, cur0, t, cur, docs, a);
    }
  }

  lemma DiffersInValue(r: Store, tid: U64, n: nat, cur0: Addr, t: Store, cur: Addr, docs: seq<Doc>, a: Addr, f: Byte)
    requires TableOk(r, tid, n, cur0) && TableOk(t, tid, n, cur) && Whole(docs, n) && docs != [] && KeptOk(r, tid, t)
    requires cur.id < SEGMENT_SIZE && cur.sid + |docs| < 0x1_0000_0000_0000_0000
    requires Where(t, tid, docs[0][0]) == Where(r, tid, docs[0][0]) == Some(a) && a.sid < cur.sid
    requires Get(r, ValueKey(tid, a, f)) != Get(t, ValueKey(tid, a, f))
    ensures Differs(r, tid, n, t, cur, docs)
  {
    hide TableOk, PlanFor, Differs, KeptOk;
    PlanWhere(r, tid, cur, docs[0][0]);
    PlanWhere(t, tid, cur, docs[0][0]);
    if f >= n {
      FieldsBelow(r, tid, n, cur0, a, f);
      FieldsBelow(t, tid, n, cur, a, f);
    }
    MappedBelow(r, tid, n, cur0, docs[0][0]);
    assert HasRaw(r, ValueKey(tid, a, f));
    var v := r[ValueKey(tid, a, f)].bytes;
    IndexedAt(r, tid, n, cur0, a, f);
    KeptAt(r, tid, t, docs[0][0], f, v, a);
    DiffersInIndex(r, tid, n, t, cur, docs, a, f, v);
  }

  lemma IndexedAt(s: Store, tid: U64, n: nat, cur: Addr, a: Addr, f: Byte)
    requires TableOk(s, tid, n, cur) && HasRaw(s, ValueKey(tid, a, f))
    ensures IndexKey(tid, f, s[ValueKey(tid, a, f)].bytes, a) in s
  {
    hide UidsOk, ValuesOk, IndexBelow, CursorOk;
    assert Get(s, IndexKey(tid, f, s[ValueKey(tid, a, f)].bytes, a)) == Some(Raw([]));
  }

  lemma KeptAt(r: Store, tid: U64, t: Store, uid: Bytes, f: Byte, v: Bytes, a: Addr)
    requires KeptOk(r, tid, t) && Where(r, tid, uid) == Some(a) && Where(t, tid, uid) == Some(a)
    requires IndexKey(tid, f, v, a) in r
    ensures IndexKey(tid, f, v, a) in t
  {
  }

  // ---- The exact condition ----

  lemma {:induction false} RepeatsFrom(r: Store, tid: U64, n: nat, cur0: Addr, t: Store, cur: Addr, seen: seq<Doc>,
      docs: seq<Doc>)
    requires Sim(r, tid, n, cur0, t, cur, seen) && Whole(docs, n) && seen <= docs
    requires cur.id < SEGMENT_SIZE && cur.sid + (|docs| - |seen|) < 0x1_0000_0000_0000_0000
    ensures Whole(docs[|seen|..], n)
    ensures RepeatsOk(r, tid, cur0, docs, |seen|) <==> !Differs(r, tid, n, t, cur, docs[|seen|..])
    decreases |docs| - |seen|
  {
    hide Sim, Agrees, RepeatOk, Differs;
    WholeDocs(docs, n);
    var rest := docs[|seen|..];
    if rest == [] {
      NothingDiffers(r, tid, n, t, cur);
    } else {
      CursorPast(r, tid, n, cur0, t, cur, seen);
      var doc := rest[0];
      assert seen + [doc] <= docs && docs[|seen + [doc]|..] == rest[1..];
      NextAgrees(r, tid, n, cur0, t, cur, seen, doc, docs);
      if Agrees(r, t, tid, cur, doc) {
        SimStep(r, tid, n, cur0, t, cur, seen, doc);
        AgreesUnfold(r, tid, n, t, cur, rest);
        StepBound(t, tid, cur, doc);
        RepeatsFrom(r, tid, n, cur0, Apply(t, DocOps(t, tid, cur, doc)), NewCursor(cur, PlanFor(t, tid, cur, doc[0])),
                    seen + [doc], docs);
      } else {
        Diverges(r, tid, n, cur0, t, cur, seen, rest);
      }
    }
  }

  lemma StepBound(t: Store, tid: U64, cur: Addr, doc: Doc)
    requires cur.id < SEGMENT_SIZE && Room(cur) && |doc| > 0
    ensures cur.sid <= NewCursor(cur, PlanFor(t, tid, cur, doc[0])).sid <= cur.sid + 1
  {
  }

  lemma NothingDiffers(r: Store, tid: U64, n: nat, t: Store, cur: Addr)
    requires cur.id < SEGMENT_SIZE && 1 <= n <= 255
    ensures !Differs(r, tid, n, t, cur, [])
  {
    ApplyNone(t);
  }

  lemma AgreesUnfold(r: Store, tid: U64, n: nat, t: Store, cur: Addr, docs: seq<Doc>)
    requires cur.id < SEGMENT_SIZE && Whole(docs, n) && docs != [] && Agrees(r, t, tid, cur, docs[0])
    ensures Whole(docs[1..], n)
    ensures Differs(r, tid, n, t, cur, docs) <==>
              Differs(r, tid, n, Apply(t, DocOps(t, tid, cur, docs[0])),
                      NewCursor(cur, PlanFor(t, tid, cur, docs[0][0])), docs[1..])
  {
    hide DocOps, Apply, PlanFor, NewCursor, Rolls, BatchOps, AddEach;
    Unfold(r, tid, n, t, cur, docs);
    AgreesOps(r, t, tid, cur, docs[0]);
  }

  /** A batch leaves the store and the cursor of adding its documents one by one if and only if
      every further version of a uid in it satisfies `RepeatOk`, whatever the length of the
      batch and whether or not it begins new segments. */
  lemma BatchIffRepeatsOk(s: Store, tid: U64, cur: Addr, docs: seq<Doc>, n: nat)
    requires TableOk(s, tid, n, cur) && Whole(docs, n)
    requires cur.id < SEGMENT_SIZE && cur.sid + |docs| < 0x1_0000_0000_0000_0000
    ensures var b, e := BatchOps(s, tid, cur, docs, n), AddEach(s, tid, cur, docs, n);
            Apply(s, b.ops) == e.store && b.cur == e.cur <==> RepeatsOk(s, tid, cur, docs, 0)
  {
    hide TableOk, RepeatOk, BatchOps, AddEach, Apply;
    StartsAlike(s, tid, n, cur);
    RepeatsFrom(s, tid, n, cur, s, cur, [], docs);
    assert docs[0..] == docs;
  }

  lemma StartsAlike(s: Store, tid: U64, n: nat, cur: Addr)
    requires TableOk(s, tid, n, cur) && cur.id < SEGMENT_SIZE
    ensures Sim(s, tid, n, cur, s, cur, [])
  {
    CursorInSegment(s, tid, n, cur);
    hide TableOk;
  }

  /** As long as the current segment has room for the whole batch: AddDocs agrees with adding one
      by one if and only if every uid that occurs twice is already stored in that segment. */
  lemma BatchWithRoomIff(s: Store, tid: U64, cur: Addr, docs: seq<Doc>, n: nat)
    requires TableOk(s, tid, n, cur) && Whole(docs, n)
    requires cur.id + |docs| < SEGMENT_SIZE && cur.sid + |docs| < 0x1_0000_0000_0000_0000
    ensures var b, e := BatchOps(s, tid, cur, docs, n), AddEach(s, tid, cur, docs, n);
            Apply(s, b.ops) == e.store && b.cur == e.cur <==>
              forall i, j :: 0 <= i < j < |docs| && docs[i][0] == docs[j][0] ==> InSegment(s, tid, cur, docs[j][0])
  {
    hide TableOk, BatchOps, AddEach, Apply, InSegment;
    BatchIffRepeatsOk(s, tid, cur, docs, n);
    forall i | 0 <= i < |docs|
      ensures RepeatOk(s, tid, cur, docs, i) <==>
                forall k :: 0 <= k < i && docs[k][0] == docs[i][0] ==> InSegment(s, tid, cur, docs[i][0])
    {
      RoomyRepeat(s, tid, cur, docs, n, i);
    }
  }

  lemma RoomyRepeat(s: Store, tid: U64, cur: Addr, docs: seq<Doc>, n: nat, i: nat)
    requires Whole(docs, n) && cur.id + |docs| < SEGMENT_SIZE && i < |docs|
    ensures RepeatOk(s, tid, cur, docs, i) <==>
              forall k :: 0 <= k < i && docs[k][0] == docs[i][0] ==> InSegment(s, tid, cur, docs[i][0])
  {
    hide InSegment, Last, Newcomers, Stored;
    assert forall k :: 0 <= k < i ==> docs[..i][k] == docs[k];
    var j := Last(docs[..i], docs[i][0]);
    if j.Some? {
      assert docs[j.value][0] == docs[i][0];
      assert !Full(s, tid, cur, docs, j.value) && !Full(s, tid, cur, docs, i);
    }
  }

  /** Two versions of one document: the same as one by one if and only if the document is already
      stored in the current segment. */
  lemma PairIff(s: Store, tid: U64, n: nat, cur: Addr, d: Doc, e: Doc)
    requires TableOk(s, tid, n, cur) && |d| == n && |e| == n && d[0] == e[0] && cur.id < SEGMENT_SIZE && 1 <= n <= 255
    requires cur.sid + 2 < 0x1_0000_0000_0000_0000
    ensures var b, r := BatchOps(s, tid, cur, [d, e], n), AddEach(s, tid, cur, [d, e], n);
            Apply(s, b.ops) == r.store && b.cur == r.cur <==> InSegment(s, tid, cur, d[0])
  {
    hide TableOk, BatchOps, AddEach, Apply, InSegment, Stored;
    BatchIffRepeatsOk(s, tid, cur, [d, e], n);
    assert [d, e][..0] == [] && [d, e][..1] == [d];
    assert [d][..0] == [];
    assert RepeatOk(s, tid, cur, [d, e], 0);
    assert Last([d], e[0]) == Some(0);
    assert Newcomers(s, tid, cur, [d]) == if InSegment(s, tid, cur, d[0]) then 0 else 1;
    assert RepeatOk(s, tid, cur, [d, e], 1) <==> InSegment(s, tid, cur, d[0]);
  }
}
