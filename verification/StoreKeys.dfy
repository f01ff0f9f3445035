/** The keys and values that rocksdb_lab writes (rocksdb_lab/rocksdb_util.h:14-46), as
    structured data and as bytes. The byte form is injective, so a store of structured keys
    and its byte image go through the same writes, and the byte ranges that the readers scan
    select exactly the structured keys they mean. */
module StoreKeys {
  import opened ByteStrings

  /** Where a document lives: segment and position in the segment. */
  datatype Addr = Addr(sid: U64, id: U64)

  datatype Key =
    | SequenceKey                                             // TSK: the next table id
    | TableKey(name: Bytes)                                   // TTP name -> tid
    | SegmentKey(tid: U64)                                    // TSP tid -> sid
    | NextKey(tid: U64)                                       // TSS tid -> sid id
    | UidKey(tid: U64, uid: Bytes)                            // TID tid uid -> sid id
    | SchemaKey(tid: U64)                                     // TMP tid -> schema
    | IndexKey(tid: U64, fid: Byte, val: Bytes, addr: Addr)   // TFI tid fid val sid id -> nothing
    | ValueKey(tid: U64, addr: Addr, fid: Byte)               // TFV tid sid id fid -> val

  datatype Val = Num(n: U64) | At(addr: Addr) | Raw(bytes: Bytes)

  type Store = map<Key, Val>

  const TSK: Bytes := [84, 83, 75]
  const TTP: Bytes := [84, 84, 80]
  const TSP: Bytes := [84, 83, 80]
  const TSS: Bytes := [84, 83, 83]
  const TID: Bytes := [84, 73, 68]
  const TMP: Bytes := [84, 77, 80]
  const TFI: Bytes := [84, 70, 73]
  const TFV: Bytes := [84, 70, 86]

  function Num64(n: U64): (s: Bytes)
    ensures |s| == 8
  {
    BigEndian(n, 8)
  }

  function AddrBytes(a: Addr): (s: Bytes)
    ensures |s| == 16
  {
    Num64(a.sid) + Num64(a.id)
  }

  function Prefix(k: Key): (p: Bytes)
    ensures |p| == 3
  {
    match k
    case SequenceKey => TSK
    case TableKey(_) => TTP
    case SegmentKey(_) => TSP
    case NextKey(_) => TSS
    case UidKey(_, _) => TID
    case SchemaKey(_) => TMP
    case IndexKey(_, _, _, _) => TFI
    case ValueKey(_, _, _) => TFV
  }

  /** What follows the three-byte prefix. */
  function Suffix(k: Key): Bytes {
    match k
    case SequenceKey => []
    case TableKey(name) => name
    case SegmentKey(tid) => Num64(tid)
    case NextKey(tid) => Num64(tid)
    case UidKey(tid, uid) => Num64(tid) + uid
    case SchemaKey(tid) => Num64(tid)
    case IndexKey(tid, fid, val, addr) => Num64(tid) + ([fid] + (val + AddrBytes(addr)))
    case ValueKey(tid, addr, fid) => Num64(tid) + (AddrBytes(addr) + [fid])
  }

  function Encode(k: Key): Bytes { Prefix(k) + Suffix(k) }

  function EncodeVal(v: Val): Bytes {
    match v
    case Num(n) => Num64(n)
    case At(addr) => AddrBytes(addr)
    case Raw(bytes) => bytes
  }

  // ---- The encoding is injective ----

  lemma Num64Injective(m: U64, n: U64)
    ensures Num64(m) == Num64(n) <==> m == n
    ensures Less(Num64(m), Num64(n)) <==> m < n
    ensures FromBigEndian(Num64(m)) == m
  {
    Pow256Of8();
    BigEndianOrder(m, n, 8);
    BigEndianRoundTrip(m, 8);
  }

  lemma SplitEqual(a: Bytes, b: Bytes, c: Bytes, d: Bytes)
    requires a + b == c + d && |a| == |c|
    ensures a == c && b == d
  {
    assert a == (a + b)[..|a|] && c == (c + d)[..|c|];
    assert b == (a + b)[|a|..] && d == (c + d)[|c|..];
  }

  lemma AddrInjective(a: Addr, b: Addr)
    requires AddrBytes(a) == AddrBytes(b)
    ensures a == b
  {
    SplitEqual(Num64(a.sid), Num64(a.id), Num64(b.sid), Num64(b.id));
    Num64Injective(a.sid, b.sid);
    Num64Injective(a.id, b.id);
  }

  lemma PrefixesDiffer(k: Key, l: Key)
    requires Prefix(k) == Prefix(l)
    ensures k.SequenceKey? == l.SequenceKey? && k.TableKey? == l.TableKey? && k.SegmentKey? == l.SegmentKey?
    ensures k.NextKey? == l.NextKey? && k.UidKey? == l.UidKey? && k.SchemaKey? == l.SchemaKey?
    ensures k.IndexKey? == l.IndexKey? && k.ValueKey? == l.ValueKey?
  {
    var p, q := Prefix(k), Prefix(l);
    assert p[1] == q[1] && p[2] == q[2];
  }

  lemma IndexInjective(k: Key, l: Key)
    requires k.IndexKey? && l.IndexKey? && Suffix(k) == Suffix(l)
    ensures k == l
  {
    SplitEqual(Num64(k.tid), [k.fid] + (k.val + AddrBytes(k.addr)), Num64(l.tid),
               [l.fid] + (l.val + AddrBytes(l.addr)));
    SplitEqual([k.fid], k.val + AddrBytes(k.addr), [l.fid], l.val + AddrBytes(l.addr));
    assert |k.val| == |l.val|;
    SplitEqual(k.val, AddrBytes(k.addr), l.val, AddrBytes(l.addr));
    AddrInjective(k.addr, l.addr);
    Num64Injective(k.tid, l.tid);
    assert [k.fid][0] == [l.fid][0];
  }

  lemma ValueInjective(k: Key, l: Key)
    requires k.ValueKey? && l.ValueKey? && Suffix(k) == Suffix(l)
    ensures k == l
  {
    SplitEqual(Num64(k.tid), AddrBytes(k.addr) + [k.fid], Num64(l.tid), AddrBytes(l.addr) + [l.fid]);
    SplitEqual(AddrBytes(k.addr), [k.fid], AddrBytes(l.addr), [l.fid]);
    AddrInjective(k.addr, l.addr);
    Num64Injective(k.tid, l.tid);
    assert [k.fid][0] == [l.fid][0];
  }

  /** No two keys have the same bytes. */
  lemma EncodeInjective(k: Key, l: Key)
    requires Encode(k) == Encode(l)
    ensures k == l
  {
    SplitEqual(Prefix(k), Suffix(k), Prefix(l), Suffix(l));
    PrefixesDiffer(k, l);
    match k
    case SequenceKey =>
    case TableKey(_) =>
    case SegmentKey(_) => Num64Injective(k.tid, l.tid);
    case NextKey(_) => Num64Injective(k.tid, l.tid);
    case UidKey(_, _) =>
      SplitEqual(Num64(k.tid), k.uid, Num64(l.tid), l.uid);
      Num64Injective(k.tid, l.tid);
    case SchemaKey(_) => Num64Injective(k.tid, l.tid);
    case IndexKey(_, _, _, _) => IndexInjective(k, l);
    case ValueKey(_, _, _) => ValueInjective(k, l);
  }

  // ---- Write batches ----

  datatype Op = Put(key: Key, val: Val) | Delete(key: Key)

  function ApplyOp(s: Store, op: Op): Store {
    match op
    case Put(k, v) => s[k := v]
    case Delete(k) => s - {k}
  }

  /** The store after a write batch. */
  function Apply(s: Store, ops: seq<Op>): Store
    decreases |ops|
  {
    if ops == [] then s else Apply(ApplyOp(s, ops[0]), ops[1..])
  }

  lemma {:induction false} ApplyConcat(s: Store, a: seq<Op>, b: seq<Op>)
    ensures Apply(s, a + b) == Apply(Apply(s, a), b)
    decreases |a|
  {
    if a == [] {
      assert a + b == b;
    } else {
      assert (a + b)[1..] == a[1..] + b && (a + b)[0] == a[0];
      ApplyConcat(ApplyOp(s, a[0]), a[1..], b);
    }
  }

  datatype ByteOp = PutBytes(key: Bytes, val: Bytes) | DeleteBytes(key: Bytes)

  type ByteStore = map<Bytes, Bytes>

  function ApplyByteOp(s: ByteStore, op: ByteOp): ByteStore {
    match op
    case PutBytes(k, v) => s[k := v]
    case DeleteBytes(k) => s - {k}
  }

  /** rocksdb::DB::Write: all operations of the batch, in order. */
  function ApplyBytes(s: ByteStore, ops: seq<ByteOp>): ByteStore
    decreases |ops|
  {
    if ops == [] then s else ApplyBytes(ApplyByteOp(s, ops[0]), ops[1..])
  }

  function EncodeOp(op: Op): ByteOp {
    match op
    case Put(k, v) => PutBytes(Encode(k), EncodeVal(v))
    case Delete(k) => DeleteBytes(Encode(k))
  }

  function EncodeOps(ops: seq<Op>): (r: seq<ByteOp>)
    ensures |r| == |ops| && forall i :: 0 <= i < |ops| ==> r[i] == EncodeOp(ops[i])
  {
    seq(|ops|, i requires 0 <= i < |ops| => EncodeOp(ops[i]))
  }

  /** The byte store holds exactly the encodings of the structured store. */
  ghost predicate Encodes(b: ByteStore, s: Store) {
    && (forall k :: k in s ==> Encode(k) in b && b[Encode(k)] == EncodeVal(s[k]))
    && (forall x :: x in b ==> exists k :: k in s && x == Encode(k))
  }

  lemma EncodesLookup(b: ByteStore, s: Store, k: Key)
    requires Encodes(b, s)
    ensures Encode(k) in b <==> k in s
    ensures k in s ==> b[Encode(k)] == EncodeVal(s[k])
  {
    if Encode(k) in b {
      var l :| l in s && Encode(k) == Encode(l);
      EncodeInjective(k, l);
    }
  }

  lemma EncodesPut(b: ByteStore, s: Store, key: Key, val: Val)
    requires Encodes(b, s)
    ensures Encodes(b[Encode(key) := EncodeVal(val)], s[key := val])
  {
    hide Encode, EncodeVal;
    var b', s' := b[Encode(key) := EncodeVal(val)], s[key := val];
    forall k | k in s'
      ensures Encode(k) in b' && b'[Encode(k)] == EncodeVal(s'[k])
    {
      if k != key && Encode(k) == Encode(key) {
        EncodeInjective(k, key);
      }
    }
    forall x | x in b'
      ensures exists k :: k in s' && x == Encode(k)
    {
      if x == Encode(key) {
        assert key in s';
      } else {
        var k :| k in s && x == Encode(k);
        assert k in s';
      }
    }
  }

  lemma EncodesDelete(b: ByteStore, s: Store, key: Key)
    requires Encodes(b, s)
    ensures Encodes(b - {Encode(key)}, s - {key})
  {
    hide Encode, EncodeVal;
    var b', s' := b - {Encode(key)}, s - {key};
    forall k | k in s'
      ensures Encode(k) in b' && b'[Encode(k)] == EncodeVal(s'[k])
    {
      if Encode(k) == Encode(key) {
        EncodeInjective(k, key);
      }
    }
    forall x | x in b'
      ensures exists k :: k in s' && x == Encode(k)
    {
      var k :| k in s && x == Encode(k);
      assert k in s';
    }
  }

  lemma EncodesOp(b: ByteStore, s: Store, op: Op)
    requires Encodes(b, s)
    ensures Encodes(ApplyByteOp(b, EncodeOp(op)), ApplyOp(s, op))
  {
    hide Encode, EncodeVal, Encodes;
    match op
    case Put(k, v) => EncodesPut(b, s, k, v);
    case Delete(k) => EncodesDelete(b, s, k);
  }

  /** Writing a batch of encoded operations keeps the two stores in step. */
  lemma {:induction false} EncodesApply(b: ByteStore, s: Store, ops: seq<Op>)
    requires Encodes(b, s)
    ensures Encodes(ApplyBytes(b, EncodeOps(ops)), Apply(s, ops))
    decreases |ops|
  {
    hide Encodes, EncodeOp, ApplyOp, ApplyByteOp;
    if ops != [] {
      EncodesOp(b, s, ops[0]);
      assert EncodeOps(ops)[1..] == EncodeOps(ops[1..]);
      EncodesApply(ApplyByteOp(b, EncodeOp(ops[0])), ApplyOp(s, ops[0]), ops[1..]);
    }
  }
}
