/** Byte strings in bytewise order, and the big-endian encoding that rocksdb_lab puts into
    keys and values (rocksdb_lab/utils.h). */
module ByteStrings {

  type Byte = x: int | 0 <= x < 256
  type Bytes = seq<Byte>

  type U64 = x: int | 0 <= x < 0x1_0000_0000_0000_0000

  type I64 = x: int | -0x8000_0000_0000_0000 <= x < 0x8000_0000_0000_0000

  // ---- Big-endian numbers ----

  function Pow256(k: nat): (p: nat)
    ensures p >= 1
  {
    if k == 0 then 1 else 256 * Pow256(k - 1)
  }

  /** The k low bytes of `n`, most significant first. */
  function BigEndian(n: nat, k: nat): (s: Bytes)
    ensures |s| == k
  {
    if k == 0 then [] else BigEndian(n / 256, k - 1) + [n % 256]
  }

  function FromBigEndian(s: Bytes): nat {
    if s == [] then 0 else FromBigEndian(s[..|s| - 1]) * 256 + s[|s| - 1]
  }

  /** Decoding an encoded number gives the number back, as long as it fits. */
  lemma {:induction false} BigEndianRoundTrip(n: nat, k: nat)
    requires n < Pow256(k)
    ensures FromBigEndian(BigEndian(n, k)) == n
  {
    if k > 0 {
      BigEndianRoundTrip(n / 256, k - 1);
      var s := BigEndian(n, k);
      assert s[..k - 1] == BigEndian(n / 256, k - 1);
    }
  }

  lemma {:induction false} FromBigEndianRange(s: Bytes)
    ensures FromBigEndian(s) < Pow256(|s|)
  {
    if s != [] {
      FromBigEndianRange(s[..|s| - 1]);
    }
  }

  lemma {:induction false} FromBigEndianHead(s: Bytes)
    requires s != []
    ensures FromBigEndian(s) == s[0] * Pow256(|s| - 1) + FromBigEndian(s[1..])
  {
    if |s| > 1 {
      var n := |s| - 1;
      FromBigEndianHead(s[..n]);
      assert s[..n][1..] == s[1..][..n - 1];
      assert s[..n][0] == s[0] && s[1..][n - 1] == s[n];
      assert Pow256(n) == 256 * Pow256(n - 1);
      var h, p, m, l: int := s[0], Pow256(n - 1), FromBigEndian(s[1..][..n - 1]), s[n];
      assert FromBigEndian(s) == (h * p + m) * 256 + l;
      assert (h * p + m) * 256 + l == h * (256 * p) + (m * 256 + l);
    } else {
      assert s[..0] == [] && s[1..] == [];
    }
  }

  // ---- Bytewise order ----

  /** RocksDB's default comparator. */
  predicate Less(a: Bytes, b: Bytes) {
    if b == [] then false
    else if a == [] then true
    else if a[0] != b[0] then a[0] < b[0]
    else Less(a[1..], b[1..])
  }

  predicate AtMost(a: Bytes, b: Bytes) { a == b || Less(a, b) }

  lemma {:induction false} LessIrreflexive(a: Bytes)
    ensures !Less(a, a)
  {
    if a != [] {
      LessIrreflexive(a[1..]);
    }
  }

  lemma {:induction false} LessTransitive(a: Bytes, b: Bytes, c: Bytes)
    requires Less(a, b) && Less(b, c)
    ensures Less(a, c)
  {
    if a != [] && a[0] == b[0] == c[0] {
      LessTransitive(a[1..], b[1..], c[1..]);
    }
  }

  lemma {:induction false} LessTotal(a: Bytes, b: Bytes)
    ensures a == b || Less(a, b) || Less(b, a)
  {
    if a != [] && b != [] && a[0] == b[0] {
      LessTotal(a[1..], b[1..]);
      assert a == [a[0]] + a[1..] && b == [b[0]] + b[1..];
    }
  }

  /** Strings are compared piece by piece when the first pieces have equal length. */
  lemma {:induction false} LessPieces(a: Bytes, b: Bytes, c: Bytes, d: Bytes)
    requires |a| == |c|
    ensures Less(a + b, c + d) <==> Less(a, c) || (a == c && Less(b, d))
  {
    if a == [] {
      assert a + b == b && c + d == d;
    } else {
      assert (a + b)[1..] == a[1..] + b && (c + d)[1..] == c[1..] + d;
      if a[0] == c[0] {
        LessPieces(a[1..], b, c[1..], d);
        assert a == c <==> a[1..] == c[1..] by {
          assert a == [a[0]] + a[1..] && c == [c[0]] + c[1..];
        }
      }
    }
  }

  /** Whatever lies between two strings with a common prefix has that prefix. */
  lemma {:induction false} BetweenHasPrefix(p: Bytes, lo: Bytes, hi: Bytes, k: Bytes)
    requires AtMost(p + lo, k) && Less(k, p + hi)
    ensures |p| <= |k| && k[..|p|] == p
    ensures AtMost(lo, k[|p|..]) && Less(k[|p|..], hi)
  {
    if p == [] {
      assert p + lo == lo && p + hi == hi && k[0..] == k;
    } else {
      assert (p + lo)[0] == p[0] && (p + hi)[0] == p[0];
      assert (p + lo)[1..] == p[1..] + lo && (p + hi)[1..] == p[1..] + hi;
      assert k != [] && k[0] == p[0];
      BetweenHasPrefix(p[1..], lo, hi, k[1..]);
      assert k[1..][..|p| - 1] == k[1..|p|] && k[1..][|p| - 1..] == k[|p|..];
      assert k[..|p|] == [k[0]] + k[1..|p|] && p == [p[0]] + p[1..];
    }
  }

  /** Equal-length strings are ordered as the numbers they encode. */
  lemma {:induction false} LessIsNumeric(a: Bytes, b: Bytes)
    requires |a| == |b|
    ensures Less(a, b) <==> FromBigEndian(a) < FromBigEndian(b)
  {
    if a != [] {
      LessIsNumeric(a[1..], b[1..]);
      FromBigEndianHead(a);
      FromBigEndianHead(b);
      FromBigEndianRange(a[1..]);
      FromBigEndianRange(b[1..]);
      LeadingDigit(a[0], b[0], Pow256(|a| - 1), FromBigEndian(a[1..]), FromBigEndian(b[1..]));
    }
  }

  lemma LeadingDigit(x: int, y: int, p: nat, u: nat, v: nat)
    requires u < p && v < p
    ensures x * p + u < y * p + v <==> x < y || (x == y && u < v)
  {
    if x < y {
      var d := y - x - 1;
      assert y * p == x * p + p + d * p && d * p >= 0;
    } else if y < x {
      var d := x - y - 1;
      assert x * p == y * p + p + d * p && d * p >= 0;
    }
  }

  /** Big-endian encoding is injective and keeps the order of unsigned numbers. */
  lemma BigEndianOrder(m: nat, n: nat, k: nat)
    requires m < Pow256(k) && n < Pow256(k)
    ensures BigEndian(m, k) == BigEndian(n, k) <==> m == n
    ensures Less(BigEndian(m, k), BigEndian(n, k)) <==> m < n
  {
    BigEndianRoundTrip(m, k);
    BigEndianRoundTrip(n, k);
    LessIsNumeric(BigEndian(m, k), BigEndian(n, k));
  }

  // ---- Serializer (utils.h:6-55) ----

  /** A number as a little-endian machine stores it. */
  function LittleEndian(n: nat, k: nat): (s: Bytes)
    ensures |s| == k
  {
    if k == 0 then [] else [n % 256] + LittleEndian(n / 256, k - 1)
  }

  function Reversed(s: Bytes): (r: Bytes)
    ensures |r| == |s| && forall i :: 0 <= i < |s| ==> r[i] == s[|s| - 1 - i]
  {
    if s == [] then [] else Reversed(s[1..]) + [s[0]]
  }

  lemma {:induction false} SwappedIsBigEndian(n: nat, k: nat)
    ensures Reversed(LittleEndian(n, k)) == BigEndian(n, k)
  {
    if k > 0 {
      SwappedIsBigEndian(n / 256, k - 1);
      assert LittleEndian(n, k)[1..] == LittleEndian(n / 256, k - 1);
    }
  }

  /** What a little-endian machine loads from memory. */
  function FromLittleEndian(s: Bytes): nat {
    if s == [] then 0 else s[0] + 256 * FromLittleEndian(s[1..])
  }

  lemma {:induction false} SwappedLoad(s: Bytes)
    ensures FromLittleEndian(Reversed(s)) == FromBigEndian(s)
  {
    if s != [] {
      var n := |s| - 1;
      SwappedLoad(s[..n]);
      assert Reversed(s)[1..] == Reversed(s[..n]);
    }
  }

  /** SwapEndian (utils.h:6-16): the bytes of the value, reverse-copied. */
  method SwapEndian(raw: array<Byte>)
    modifies raw
    ensures raw[..] == Reversed(old(raw[..]))
  {
    var src := raw[..];
    var i := 0;
    while i < raw.Length
      invariant 0 <= i <= raw.Length == |src|
      invariant forall j :: 0 <= j < i ==> raw[j] == src[|src| - 1 - j]
    {
      raw[i] := src[|src| - 1 - i];
      i := i + 1;
    }
  }

  /** Serializer::Serialize of a number of `k` bytes (utils.h:36-41): what the string has
      gained is the number's big-endian encoding. */
  method Serialize(n: nat, k: nat, data: Bytes) returns (r: Bytes)
    ensures r == data + BigEndian(n, k)
  {
    var raw := new Byte[k];
    var m, i := n, 0;
    while i < k
      invariant 0 <= i <= k
      invariant LittleEndian(n, k) == raw[..i] + LittleEndian(m, k - i)
    {
      raw[i] := m % 256;
      assert raw[..i + 1] == raw[..i] + [m % 256];
      m := m / 256;
      i := i + 1;
    }
    assert raw[..] == LittleEndian(n, k);
    SwapEndian(raw);
    SwappedIsBigEndian(n, k);
    r := data + raw[..];
  }

  /** Serializer::Deserialize of a number (utils.h:51-55). */
  method Deserialize(data: Bytes) returns (n: nat)
    ensures n == FromBigEndian(data)
  {
    var raw := new Byte[|data|](i requires 0 <= i < |data| => data[i]);
    assert raw[..] == data;
    SwapEndian(raw);
    SwappedLoad(data);
    n := FromLittleEndian(raw[..]);
  }

  // ---- Signed keys ----

  /** A signed 64-bit value as the bytes of its two's complement. */
  function EncodeLong(v: I64): (s: Bytes)
    ensures |s| == 8
  {
    BigEndian(AsUnsigned(v), 8)
  }

  function AsUnsigned(v: I64): U64 { if v < 0 then v + 0x1_0000_0000_0000_0000 else v }

  lemma Pow256Of8()
    ensures Pow256(8) == 0x1_0000_0000_0000_0000
  {
    assert Pow256(4) == 0x1_0000_0000;
    assert Pow256(6) == 0x1_0000_0000_0000;
  }

  /** Encoded longs are in numeric order exactly when their signs agree: with different
      signs the negative one comes last. */
  lemma LongOrder(a: I64, b: I64)
    requires a != b
    ensures (Less(EncodeLong(a), EncodeLong(b)) <==> a < b) <==> (a < 0 <==> b < 0)
  {
    LongAsUnsigned(a, b);
  }

  lemma LongAsUnsigned(a: I64, b: I64)
    ensures EncodeLong(a) == EncodeLong(b) <==> AsUnsigned(a) == AsUnsigned(b)
    ensures Less(EncodeLong(a), EncodeLong(b)) <==> AsUnsigned(a) < AsUnsigned(b)
  {
    Pow256Of8();
    BigEndianOrder(AsUnsigned(a), AsUnsigned(b), 8);
  }
}
