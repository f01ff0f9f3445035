/** The byte ranges that the readers of rocksdb_lab scan, and the structured keys in them
    (rocksdb_lab/rocksdb_impl.cpp:54-118, 163-186, 256-277). */
module StoreRanges {
  import opened ByteStrings
  import opened StoreKeys

  /** An iterator with these bounds visits the key. */
  predicate InRange(x: Bytes, lower: Bytes, upper: Bytes) { AtMost(lower, x) && Less(x, upper) }

  /** A key whose encoding lies between two strings that extend `p + q` has prefix `p`, and
      the rest of it lies between the extensions. */
  lemma RangePrefix(k: Key, p: Bytes, q: Bytes, lo: Bytes, hi: Bytes)
    requires |p| == 3 && InRange(Encode(k), (p + q) + lo, (p + q) + hi)
    ensures Prefix(k) == p && |q| <= |Suffix(k)| && Suffix(k)[..|q|] == q
    ensures InRange(Suffix(k)[|q|..], lo, hi)
  {
    var x := Encode(k);
    BetweenHasPrefix(p + q, lo, hi, x);
    assert x[..3] == (x[..3 + |q|])[..3] == (p + q)[..3] == p;
    assert x[..3] == Prefix(k);
    assert x[3..3 + |q|] == (p + q)[3..] == q;
    assert Suffix(k) == x[3..];
    assert Suffix(k)[|q|..] == x[3 + |q|..];
  }

  lemma SamePrefix(p: Bytes, a: Bytes, b: Bytes)
    ensures Less(p + a, p + b) <==> Less(a, b)
    ensures AtMost(p + a, p + b) <==> AtMost(a, b)
  {
    LessPieces(p, a, p, b);
    LessIrreflexive(p);
    if p + a == p + b {
      SplitEqual(p, a, p, b);
    }
  }

  lemma OneByte(a: Byte, b: Byte)
    ensures Less([a], [b]) <==> a < b
    ensures AtMost([a], [b]) <==> a <= b
  {
    assert [a][1..] == [] && [b][1..] == [];
    assert [a] == [b] ==> [a][0] == [b][0];
  }

  // ---- GetDoc (rocksdb_impl.cpp:256-277) ----

  function DocBound(tid: U64, addr: Addr, fid: Byte): Bytes {
    (TFV + (Num64(tid) + AddrBytes(addr))) + [fid]
  }

  lemma ValueEncoding(tid: U64, addr: Addr, fid: Byte)
    ensures Encode(ValueKey(tid, addr, fid)) == DocBound(tid, addr, fid)
  {
    var t, a := Num64(tid), AddrBytes(addr);
    assert TFV + (t + (a + [fid])) == (TFV + (t + a)) + [fid];
  }

  /** GetDoc's range holds exactly the fields of the document at one address, all but a field
      numbered 255, and orders them by field id. */
  lemma DocRangeExact(k: Key, tid: U64, addr: Addr)
    ensures InRange(Encode(k), DocBound(tid, addr, 0), DocBound(tid, addr, 255)) <==>
              k.ValueKey? && k.tid == tid && k.addr == addr && k.fid < 255
    ensures forall f: Byte, g: Byte ::
              Less(Encode(ValueKey(tid, addr, f)), Encode(ValueKey(tid, addr, g))) <==> f < g
  {
    var q := Num64(tid) + AddrBytes(addr);
    forall f: Byte, g: Byte
      ensures Less(Encode(ValueKey(tid, addr, f)), Encode(ValueKey(tid, addr, g))) <==> f < g
    {
      ValueEncoding(tid, addr, f);
      ValueEncoding(tid, addr, g);
      SamePrefix(TFV + q, [f], [g]);
      OneByte(f, g);
    }
    if k.ValueKey? && k.tid == tid && k.addr == addr {
      ValueEncoding(tid, addr, k.fid);
      SamePrefix(TFV + q, [0], [k.fid]);
      SamePrefix(TFV + q, [k.fid], [255]);
      OneByte(0, k.fid);
      OneByte(k.fid, 255);
    } else if InRange(Encode(k), DocBound(tid, addr, 0), DocBound(tid, addr, 255)) {
      RangePrefix(k, TFV, q, [0], [255]);
      PrefixesDiffer(k, ValueKey(tid, addr, 0));
      var a := AddrBytes(k.addr);
      assert Suffix(k)[..24] == Num64(k.tid) + a;
      SplitEqual(Num64(k.tid), a, Num64(tid), AddrBytes(addr));
      Num64Injective(k.tid, tid);
      AddrInjective(k.addr, addr);
    }
  }

  // ---- GetDocs (rocksdb_impl.cpp:163-186) ----

  const ZERO16: Bytes := AddrBytes(Addr(0, 0))

  function IndexBound(tid: U64, fid: Byte, val: Bytes): Bytes {
    (TFI + (Num64(tid) + [fid])) + (val + ZERO16)
  }

  lemma IndexEncoding(k: Key)
    requires k.IndexKey?
    ensures Encode(k) == (TFI + (Num64(k.tid) + [k.fid])) + (k.val + AddrBytes(k.addr))
  {
    var t, r := Num64(k.tid), k.val + AddrBytes(k.addr);
    assert TFI + (t + ([k.fid] + r)) == (TFI + (t + [k.fid])) + r;
  }

  /** The entry of value v at address a comes before the bound b: v does, and if b continues v
      the address comes before what is left of b and the zeros that follow it. */
  predicate Below(v: Bytes, a: Addr, b: Bytes) {
    Less(v, b) && (v <= b ==> Less(AddrBytes(a), b[|v|..] + ZERO16))
  }

  lemma {:induction false} NotBelowZeros(x: Bytes, zeros: Bytes)
    requires |x| >= |zeros| && forall i :: 0 <= i < |zeros| ==> zeros[i] == 0
    ensures !Less(x, zeros)
  {
    if zeros != [] {
      NotBelowZeros(x[1..], zeros[1..]);
    }
  }

  lemma {:induction false} ZeroBytes(k: nat)
    ensures forall i :: 0 <= i < k ==> BigEndian(0, k)[i] == 0
  {
    if k > 0 {
      ZeroBytes(k - 1);
    }
  }

  lemma ZeroAddr()
    ensures forall i :: 0 <= i < 16 ==> ZERO16[i] == 0
  {
    ZeroBytes(8);
    assert ZERO16 == Num64(0) + Num64(0);
  }

  lemma {:induction false} PaddedLess(v: Bytes, a: Addr, b: Bytes)
    ensures Less(v + AddrBytes(a), b + ZERO16) <==> Below(v, a, b)
    decreases |v|
  {
    hide AddrBytes;
    if b == [] {
      assert b + ZERO16 == ZERO16;
      ZeroAddr();
      NotBelowZeros(v + AddrBytes(a), ZERO16);
    } else if v == [] {
      assert v + AddrBytes(a) == AddrBytes(a) && b[0..] == b;
    } else {
      assert (v + AddrBytes(a))[0] == v[0] && (b + ZERO16)[0] == b[0];
      assert (v + AddrBytes(a))[1..] == v[1..] + AddrBytes(a) && (b + ZERO16)[1..] == b[1..] + ZERO16;
      if v[0] == b[0] {
        PaddedLess(v[1..], a, b[1..]);
        assert v == [v[0]] + v[1..] && b == [b[0]] + b[1..];
        assert v <= b <==> v[1..] <= b[1..];
        if v <= b {
          assert b[1..][|v| - 1..] == b[|v|..];
        }
      }
    }
  }

  /** GetDocs' range, for all values, addresses and bounds whatever. */
  lemma IndexRangeExact(k: Key, tid: U64, fid: Byte, lower: Bytes, upper: Bytes)
    ensures InRange(Encode(k), IndexBound(tid, fid, lower), IndexBound(tid, fid, upper)) <==>
              && k.IndexKey? && k.tid == tid && k.fid == fid
              && !Below(k.val, k.addr, lower) && Below(k.val, k.addr, upper)
  {
    hide Below, Less;
    if k.IndexKey? && k.tid == tid && k.fid == fid {
      var p, x := TFI + (Num64(tid) + [fid]), k.val + AddrBytes(k.addr);
      IndexEncoding(k);
      SamePrefix(p, lower + ZERO16, x);
      SamePrefix(p, x, upper + ZERO16);
      PaddedLess(k.val, k.addr, lower);
      PaddedLess(k.val, k.addr, upper);
      AtMostIsNotLess(lower + ZERO16, x);
    } else if InRange(Encode(k), IndexBound(tid, fid, lower), IndexBound(tid, fid, upper)) {
      InIndexRange(k, tid, fid, lower, upper);
    }
  }

  lemma AtMostIsNotLess(a: Bytes, b: Bytes)
    ensures AtMost(a, b) <==> !Less(b, a)
  {
    LessTotal(a, b);
    LessIrreflexive(a);
    if Less(a, b) && Less(b, a) {
      LessTransitive(a, b, a);
    }
  }

  /** For values as long as the bounds, as those of a fixed-size field are: exactly the values at
      least the lower bound and below the upper one. */
  lemma FixedSizeExact(k: Key, tid: U64, fid: Byte, lower: Bytes, upper: Bytes)
    requires |lower| == |upper|
    requires k.IndexKey? && k.tid == tid && k.fid == fid ==> |k.val| == |lower|
    ensures InRange(Encode(k), IndexBound(tid, fid, lower), IndexBound(tid, fid, upper)) <==>
              k.IndexKey? && k.tid == tid && k.fid == fid && AtMost(lower, k.val) && Less(k.val, upper)
  {
    IndexRangeExact(k, tid, fid, lower, upper);
    if k.IndexKey? && k.tid == tid && k.fid == fid {
      AtMostIsNotLess(lower, k.val);
      SameSizeBelow(k.val, k.addr, lower);
      SameSizeBelow(k.val, k.addr, upper);
    }
  }

  lemma SameSizeBelow(v: Bytes, a: Addr, b: Bytes)
    requires |v| == |b|
    ensures Below(v, a, b) <==> Less(v, b)
  {
    if v <= b {
      assert v == b;
      LessIrreflexive(v);
    }
  }

  /** Only index entries of the field lie between two bounds of GetDocs. */
  lemma InIndexRange(k: Key, tid: U64, fid: Byte, lower: Bytes, upper: Bytes)
    requires InRange(Encode(k), IndexBound(tid, fid, lower), IndexBound(tid, fid, upper))
    ensures k.IndexKey? && k.tid == tid && k.fid == fid
  {
    RangePrefix(k, TFI, Num64(tid) + [fid], lower + ZERO16, upper + ZERO16);
    PrefixesDiffer(k, IndexKey(tid, fid, [], Addr(0, 0)));
    assert Suffix(k)[..9] == Num64(k.tid) + [k.fid];
    SplitEqual(Num64(k.tid), [k.fid], Num64(tid), [fid]);
    Num64Injective(k.tid, tid);
  }

  /** The scan for the values of a long field from `lo` to `hi` has the entry of value v. */
  ghost predicate Scanned(tid: U64, fid: Byte, addr: Addr, v: I64, lo: I64, hi: I64) {
    InRange(Encode(IndexKey(tid, fid, EncodeLong(v), addr)),
            IndexBound(tid, fid, EncodeLong(lo)), IndexBound(tid, fid, EncodeLong(hi)))
  }

  lemma ScannedUnsigned(tid: U64, fid: Byte, addr: Addr, v: I64, lo: I64, hi: I64)
    ensures Scanned(tid, fid, addr, v, lo, hi) <==> AsUnsigned(lo) <= AsUnsigned(v) < AsUnsigned(hi)
  {
    FixedSizeExact(IndexKey(tid, fid, EncodeLong(v), addr), tid, fid, EncodeLong(lo), EncodeLong(hi));
    LongAsUnsigned(lo, v);
    LongAsUnsigned(v, hi);
  }

  /** A scan of a long field returns exactly the values in [lo, hi), of all there are, if and
      only if the bounds have the same sign. With bounds of different signs it already gets the
      lower bound wrong. */
  lemma LongRangeExact(tid: U64, fid: Byte, addr: Addr, lo: I64, hi: I64)
    ensures (forall v: I64 :: Scanned(tid, fid, addr, v, lo, hi) <==> lo <= v < hi) <==> (lo < 0 <==> hi < 0)
  {
    hide Scanned;
    ScannedUnsigned(tid, fid, addr, lo, lo, hi);
    forall v: I64
      ensures Scanned(tid, fid, addr, v, lo, hi) <==> AsUnsigned(lo) <= AsUnsigned(v) < AsUnsigned(hi)
    {
      ScannedUnsigned(tid, fid, addr, v, lo, hi);
    }
  }

  // Strings, which differ in length

  predicate UpTo(a: Addr, max: Addr) { a.sid < max.sid || (a.sid == max.sid && a.id <= max.id) }

  /** What a caller can check of a bound: every rest of it, with the zeros that follow, comes
      after the last address in use. */
  predicate BoundOk(b: Bytes, max: Addr) {
    forall k :: 0 <= k < |b| ==> Less(AddrBytes(max), b[k..] + ZERO16)
  }

  lemma UpToBytes(a: Addr, max: Addr)
    requires UpTo(a, max)
    ensures AtMost(AddrBytes(a), AddrBytes(max))
  {
    LessPieces(Num64(a.sid), Num64(a.id), Num64(max.sid), Num64(max.id));
    Num64Injective(a.sid, max.sid);
    Num64Injective(a.id, max.id);
  }

  lemma BoundOkBelow(v: Bytes, a: Addr, b: Bytes, max: Addr)
    requires BoundOk(b, max) && UpTo(a, max)
    ensures Below(v, a, b) <==> Less(v, b)
  {
    hide AddrBytes;
    if Less(v, b) && v <= b {
      if |v| == |b| {
        assert v == b;
        LessIrreflexive(v);
      }
      UpToBytes(a, max);
      var rest := b[|v|..] + ZERO16;
      assert Less(AddrBytes(max), rest);
      if AddrBytes(a) != AddrBytes(max) {
        LessTransitive(AddrBytes(a), AddrBytes(max), rest);
      }
    }
  }

  lemma {:induction false} PrefixLess(b: Bytes, k: nat)
    requires k < |b|
    ensures Less(b[..k], b)
  {
    if k > 0 {
      PrefixLess(b[1..], k - 1);
      assert b[..k][1..] == b[1..][..k - 1];
    }
  }

  /** A bound takes the entries of the smaller values to be the smaller ones, of all values at
      addresses up to `max`, if and only if it meets `BoundOk`. */
  lemma BoundOkIff(b: Bytes, max: Addr)
    ensures (forall v: Bytes, a: Addr :: UpTo(a, max) ==> (Below(v, a, b) <==> Less(v, b))) <==> BoundOk(b, max)
  {
    if BoundOk(b, max) {
      forall v: Bytes, a: Addr | UpTo(a, max)
        ensures Below(v, a, b) <==> Less(v, b)
      {
        BoundOkBelow(v, a, b, max);
      }
    } else {
      var k :| 0 <= k < |b| && !Less(AddrBytes(max), b[k..] + ZERO16);
      PrefixLess(b, k);
      assert b[..k] <= b && b[|b[..k]|..] == b[k..];
      assert UpTo(max, max) && !Below(b[..k], max, b);
    }
  }

  /** A scan without a lower bound returns exactly the values below its upper bound, of all
      byte strings at all addresses up to `max`, if and only if the bound meets `BoundOk`. */
  lemma UpperExactIff(tid: U64, fid: Byte, upper: Bytes, max: Addr)
    ensures (forall v: Bytes, a: Addr :: UpTo(a, max) ==>
               (InRange(Encode(IndexKey(tid, fid, v, a)), IndexBound(tid, fid, []), IndexBound(tid, fid, upper))
                <==> Less(v, upper)))
            <==> BoundOk(upper, max)
  {
    BoundOkIff(upper, max);
    hide Encode, IndexBound, InRange, BoundOk, UpTo;
    forall v: Bytes, a: Addr
      ensures InRange(Encode(IndexKey(tid, fid, v, a)), IndexBound(tid, fid, []), IndexBound(tid, fid, upper))
              <==> Below(v, a, upper)
    {
      IndexRangeExact(IndexKey(tid, fid, v, a), tid, fid, [], upper);
      assert !Below(v, a, []);
    }
  }

  /** A scan without an upper end that matters starts exactly at the values from its lower bound
      on if and only if that bound meets `BoundOk`. */
  lemma LowerExactIff(tid: U64, fid: Byte, lower: Bytes, max: Addr)
    ensures (forall v: Bytes, a: Addr :: UpTo(a, max) ==>
               (AtMost(IndexBound(tid, fid, lower), Encode(IndexKey(tid, fid, v, a))) <==> AtMost(lower, v)))
            <==> BoundOk(lower, max)
  {
    BoundOkIff(lower, max);
    hide Encode, AtMost, BoundOk, UpTo, Less, Below, AddrBytes;
    forall v: Bytes, a: Addr
      ensures AtMost(IndexBound(tid, fid, lower), Encode(IndexKey(tid, fid, v, a))) <==> !Below(v, a, lower)
      ensures AtMost(lower, v) <==> !Less(v, lower)
    {
      IndexEncoding(IndexKey(tid, fid, v, a));
      SamePrefix(TFI + (Num64(tid) + [fid]), lower + ZERO16, v + AddrBytes(a));
      AtMostIsNotLess(lower + ZERO16, v + AddrBytes(a));
      PaddedLess(v, a, lower);
      AtMostIsNotLess(lower, v);
    }
  }

  /** With two such bounds the scan returns exactly the entries of the field from the lower bound
      to below the upper one. */
  lemma BoundsExact(k: Key, tid: U64, fid: Byte, lower: Bytes, upper: Bytes, max: Addr)
    requires BoundOk(lower, max) && BoundOk(upper, max)
    requires k.IndexKey? && k.tid == tid && k.fid == fid ==> UpTo(k.addr, max)
    ensures InRange(Encode(k), IndexBound(tid, fid, lower), IndexBound(tid, fid, upper)) <==>
              k.IndexKey? && k.tid == tid && k.fid == fid && AtMost(lower, k.val) && Less(k.val, upper)
  {
    IndexRangeExact(k, tid, fid, lower, upper);
    if k.IndexKey? && k.tid == tid && k.fid == fid {
      BoundOkBelow(k.val, k.addr, lower, max);
      BoundOkBelow(k.val, k.addr, upper, max);
      AtMostIsNotLess(lower, k.val);
    }
  }

  predicate NoZero(s: Bytes) { forall i :: 0 <= i < |s| ==> s[i] != 0 }

  lemma LeadingZero(a: Addr)
    requires a.sid < 0x100_0000_0000_0000
    ensures AddrBytes(a)[0] == 0
  {
    var s := Num64(a.sid);
    Num64Injective(a.sid, a.sid);
    FromBigEndianHead(s);
    assert Pow256(7) == 0x100_0000_0000_0000 by { assert Pow256(4) == 0x1_0000_0000; }
  }

  lemma NoZeroBoundOk(b: Bytes, max: Addr)
    requires NoZero(b) && max.sid < 0x100_0000_0000_0000
    ensures BoundOk(b, max)
  {
    LeadingZero(max);
    forall k | 0 <= k < |b|
      ensures Less(AddrBytes(max), b[k..] + ZERO16)
    {
      assert (b[k..] + ZERO16)[0] == b[k];
    }
  }

  /** In particular for bounds without zero bytes, such as C strings, while the segments are below
      2^56: whatever bytes the values have. */
  lemma StringRangeExact(k: Key, tid: U64, fid: Byte, lower: Bytes, upper: Bytes)
    requires NoZero(lower) && NoZero(upper)
    requires k.IndexKey? && k.tid == tid && k.fid == fid ==> k.addr.sid < 0x100_0000_0000_0000
    ensures InRange(Encode(k), IndexBound(tid, fid, lower), IndexBound(tid, fid, upper)) <==>
              k.IndexKey? && k.tid == tid && k.fid == fid && AtMost(lower, k.val) && Less(k.val, upper)
  {
    var max := if k.IndexKey? && k.addr.sid < 0x100_0000_0000_0000 then k.addr else Addr(0, 0);
    NoZeroBoundOk(lower, max);
    NoZeroBoundOk(upper, max);
    BoundsExact(k, tid, fid, lower, upper, max);
  }

  /** A bound that ends with a zero misses the value before it, at every address but the first. */
  lemma ZeroByteMissed(tid: U64, fid: Byte, s: Bytes, addr: Addr, lower: Bytes)
    requires addr != Addr(0, 0)
    ensures Less(s, s + [0])
    ensures !InRange(Encode(IndexKey(tid, fid, s, addr)), IndexBound(tid, fid, lower), IndexBound(tid, fid, s + [0]))
  {
    hide AddrBytes;
    assert (s + [0])[..|s|] == s && (s + [0])[|s|..] == [0];
    PrefixLess(s + [0], |s|);
    IndexRangeExact(IndexKey(tid, fid, s, addr), tid, fid, lower, s + [0]);
    NotBeforeZeros(addr);
  }

  lemma NotBeforeZeros(addr: Addr)
    requires addr != Addr(0, 0)
    ensures !Less(AddrBytes(addr), [0] + ZERO16)
  {
    var a := AddrBytes(addr);
    ZeroAddr();
    assert [0] + ZERO16 == ZERO16 + [0];
    hide Less, AddrBytes;
    assert a + [] == a;
    LessPieces(a, [], ZERO16, [0]);
    NotBelowZeros(a, ZERO16);
    if a == ZERO16 {
      AddrInjective(addr, Addr(0, 0));
    }
  }

  // ---- Init (rocksdb_impl.cpp:54-118) ----

  /** The table-name scan starts at the bare prefix and stops at the first key without it, so
      it reaches a key if every key from the bare prefix up to it has the prefix. */
  ghost predicate Reached(keys: set<Key>, k: Key) {
    && k in keys && AtMost(TTP, Encode(k))
    && forall l :: l in keys && AtMost(TTP, Encode(l)) && AtMost(Encode(l), Encode(k)) ==> Encode(l)[..3] == TTP
  }

  lemma NameKeyPrefix(k: Key)
    ensures Encode(k)[..3] == Prefix(k)
    ensures Prefix(k) == TTP <==> k.TableKey?
  {
    if Prefix(k) == TTP {
      PrefixesDiffer(k, TableKey([]));
    }
  }

  /** In any store the table-name scan reaches exactly the table-name keys. */
  lemma TableScanExact(keys: set<Key>, k: Key)
    ensures Reached(keys, k) <==> k in keys && k.TableKey?
  {
    NameKeyPrefix(k);
    assert AtMost(Encode(k), Encode(k));
    if k in keys && k.TableKey? {
      SamePrefix(TTP, [], k.name);
      assert TTP + [] == TTP;
      forall l | l in keys && AtMost(TTP, Encode(l)) && AtMost(Encode(l), Encode(k))
        ensures Encode(l)[..3] == TTP
      {
        if Encode(l) != Encode(k) {
          BetweenHasPrefix(TTP, [], k.name, Encode(l));
        }
      }
    }
  }

  /** A scan from id 0 to `next` over one of the per-table prefixes selects the tables created
      so far. */
  lemma TidRangeExact(k: Key, next: U64, schema: bool)
    ensures var p := if schema then TMP else TSS;
            InRange(Encode(k), (p + []) + Num64(0), (p + []) + Num64(next)) <==>
              (if schema then k.SchemaKey? else k.NextKey?) && k.tid < next
  {
    var p := if schema then TMP else TSS;
    var sample := if schema then SchemaKey(0) else NextKey(0);
    if if schema then k.SchemaKey? else k.NextKey? {
      assert Encode(k) == (p + []) + Num64(k.tid);
      SamePrefix(p + [], Num64(0), Num64(k.tid));
      SamePrefix(p + [], Num64(k.tid), Num64(next));
      Num64Injective(0, k.tid);
      Num64Injective(k.tid, next);
    } else if InRange(Encode(k), (p + []) + Num64(0), (p + []) + Num64(next)) {
      RangePrefix(k, p, [], Num64(0), Num64(next));
      PrefixesDiffer(k, sample);
    }
  }
}
