/** The document schema of rocksdb_lab: fields kept in name order, numbered by `Build`, and
    stored as bytes (rocksdb_lab/doc.cpp:51-83, 137-190, 283-312; rocksdb_lab/doc.h:97-133). */
module DocSchema {
  import opened ByteStrings
  import opened Options

  /** FieldTypeValue of the four kinds that a schema can hold (fields.h:279-347). */
  type Kind = k: int | 1 <= k <= 4 witness 1

  datatype Field = Field(name: Bytes, kind: Kind)

  /** `fields_schema_`, a std::map: sorted by name, each name once. */
  predicate Sorted(s: seq<Field>) {
    forall i, j :: 0 <= i < j < |s| ==> Less(s[i].name, s[j].name)
  }

  predicate HasName(s: seq<Field>, name: Bytes) {
    exists i :: 0 <= i < |s| && s[i].name == name
  }

  /** AddLongField and its siblings (doc.cpp:137-230): a name already there is skipped. */
  function AddField(s: seq<Field>, f: Field): (r: seq<Field>)
    ensures |s| <= |r| <= |s| + 1
  {
    if s == [] then [f]
    else if s[0].name == f.name then s
    else if Less(f.name, s[0].name) then [f] + s
    else [s[0]] + AddField(s[1..], f)
  }

  // ---- Bytes ----

  /** One field as the handler writes it (doc.cpp:292-312). */
  function FieldBytes(i: nat, f: Field): Bytes {
    [i % 256, f.kind, |f.name| % 256] + f.name
  }

  function FieldsBytes(s: seq<Field>, i: nat): Bytes
    requires i <= |s|
    decreases |s| - i
  {
    if i == |s| then [] else FieldBytes(i, s[i]) + FieldsBytes(s, i + 1)
  }

  /** DocSchema::Serialize. */
  function SchemaBytes(s: seq<Field>): Bytes { [|s| % 256] + FieldsBytes(s, 0) }

  /** DocSchema::Deserialize from a position on (doc.h:104-128): `n` fields are still to come.
      Reading past the end is a failure; a kind the code does not know is skipped. */
  function ParseFields(data: Bytes, n: nat, acc: seq<Field>): Option<seq<Field>>
    decreases n
  {
    if n == 0 then Some(acc)
    else if |data| < 3 || |data| < NameEnd(data) then None
    else ParseFields(data[NameEnd(data)..], n - 1, Parsed(data, acc))
  }

  /** Where the name of the field at the front ends. */
  function NameEnd(data: Bytes): nat
    requires |data| >= 3
  {
    var size: nat := data[2]; 3 + size
  }

  /** The schema after the field at the front has been added. */
  function Parsed(data: Bytes, acc: seq<Field>): (r: seq<Field>)
    requires |data| >= 3 && |data| >= NameEnd(data)
    ensures |acc| <= |r| <= |acc| + 1
  {
    if 1 <= data[1] <= 4 then AddField(acc, Field(data[3..NameEnd(data)], data[1])) else acc
  }

  function Parse(data: Bytes): Option<seq<Field>> {
    if data == [] then None else ParseFields(data[1..], data[0], [])
  }

  // ---- The round trip ----

  predicate Storable(s: seq<Field>) {
    |s| <= 255 && forall i :: 0 <= i < |s| ==> |s[i].name| <= 255
  }

  lemma {:induction false} AddLast(s: seq<Field>, f: Field)
    requires forall i :: 0 <= i < |s| ==> Less(s[i].name, f.name)
    ensures AddField(s, f) == s + [f]
  {
    if s != [] {
      LessIrreflexive(s[0].name);
      if Less(f.name, s[0].name) {
        LessTransitive(s[0].name, f.name, s[0].name);
      }
      AddLast(s[1..], f);
      assert s == [s[0]] + s[1..];
    }
  }

  /** Parsing a field that was written with its true name length consumes exactly its bytes. */
  lemma ParseOne(i: nat, f: Field, rest: Bytes, n: nat, acc: seq<Field>)
    requires |f.name| <= 255 && n > 0
    ensures ParseFields(FieldBytes(i, f) + rest, n, acc) == ParseFields(rest, n - 1, AddField(acc, f))
  {
    var data := FieldBytes(i, f) + rest;
    assert data[2] == |f.name| && data[1] == f.kind;
    assert data[3..3 + |f.name|] == f.name && data[3 + |f.name|..] == rest;
  }

  /** As long as the names are short, parsing rebuilds the schema field by field. */
  lemma {:induction false} ParsePrefix(s: seq<Field>, i: nat, j: nat, n: nat)
    requires Sorted(s) && i <= j <= |s| && j - i <= n
    requires forall k :: i <= k < j ==> |s[k].name| <= 255
    ensures ParseFields(FieldsBytes(s, i), n, s[..i]) == ParseFields(FieldsBytes(s, j), n - (j - i), s[..j])
    decreases j - i
  {
    hide ParseFields, FieldBytes, AddField, Less;
    if i < j {
      ParseOne(i, s[i], FieldsBytes(s, i + 1), n, s[..i]);
      AddLast(s[..i], s[i]);
      assert s[..i] + [s[i]] == s[..i + 1];
      ParsePrefix(s, i + 1, j, n - 1);
    }
  }

  lemma {:induction false} ParseGrows(data: Bytes, n: nat, acc: seq<Field>)
    ensures ParseFields(data, n, acc).Some? ==> |ParseFields(data, n, acc).value| <= |acc| + n
    decreases n
  {
    if n > 0 && |data| >= 3 && |data| >= NameEnd(data) {
      ParseGrows(data[NameEnd(data)..], n - 1, Parsed(data, acc));
    }
  }

  lemma {:induction false} AddKeepsNames(s: seq<Field>, f: Field, name: Bytes)
    ensures HasName(AddField(s, f), name) <==> HasName(s, name) || name == f.name
  {
    if s == [] {
      assert AddField(s, f)[0] == f;
    } else if s[0].name == f.name {
      assert HasName(s, f.name);
    } else if Less(f.name, s[0].name) {
      TailNames([f] + s, name);
      assert ([f] + s)[1..] == s;
    } else {
      AddKeepsNames(s[1..], f, name);
      TailNames(s, name);
      TailNames([s[0]] + AddField(s[1..], f), name);
      assert ([s[0]] + AddField(s[1..], f))[1..] == AddField(s[1..], f);
    }
  }

  lemma FirstIsLeast(s: seq<Field>, name: Bytes)
    requires s != [] && Sorted(s) && Less(name, s[0].name)
    ensures !HasName(s, name)
  {
    LessIrreflexive(name);
    forall i | 0 < i < |s|
      ensures s[i].name != name
    {
      LessTransitive(name, s[0].name, s[i].name);
    }
  }

  lemma {:induction false} AddPresent(s: seq<Field>, f: Field)
    requires HasName(s, f.name) && Sorted(s)
    ensures AddField(s, f) == s
  {
    hide Less;
    if s[0].name != f.name {
      if Less(f.name, s[0].name) {
        FirstIsLeast(s, f.name);
      } else {
        TailNames(s, f.name);
        AddPresent(s[1..], f);
        assert s == [s[0]] + s[1..];
      }
    }
  }

  lemma TailNames(s: seq<Field>, name: Bytes)
    requires s != []
    ensures HasName(s, name) <==> s[0].name == name || HasName(s[1..], name)
  {
    if HasName(s, name) {
      var i :| 0 <= i < |s| && s[i].name == name;
      if i > 0 { assert s[1..][i - 1].name == name; }
    }
    if HasName(s[1..], name) {
      var i :| 0 <= i < |s[1..]| && s[1..][i].name == name;
      assert s[i + 1].name == name;
    }
  }

  lemma {:induction false} ParseKeepsNames(data: Bytes, n: nat, acc: seq<Field>, name: Bytes)
    requires HasName(acc, name)
    ensures ParseFields(data, n, acc).Some? ==> HasName(ParseFields(data, n, acc).value, name)
    decreases n
  {
    hide HasName, AddField;
    if n > 0 && |data| >= 3 && |data| >= NameEnd(data) {
      if 1 <= data[1] <= 4 {
        AddKeepsNames(acc, Field(data[3..NameEnd(data)], data[1]), name);
      }
      ParseKeepsNames(data[NameEnd(data)..], n - 1, Parsed(data, acc), name);
    }
  }

  lemma {:induction false} ProperPrefixLess(p: Bytes, s: Bytes)
    requires |p| < |s| && s[..|p|] == p
    ensures Less(p, s)
  {
    if p != [] {
      assert s[0] == p[0];
      assert s[1..][..|p| - 1] == p[1..];
      ProperPrefixLess(p[1..], s[1..]);
    }
  }

  /** In a sorted schema the names below the j-th are those before it. */
  lemma SmallerIsBefore(s: seq<Field>, j: nat, name: Bytes)
    requires Sorted(s) && j < |s| && Less(name, s[j].name) && HasName(s, name)
    ensures HasName(s[..j], name)
  {
    var i :| 0 <= i < |s| && s[i].name == name;
    LessIrreflexive(name);
    if j < i {
      LessTransitive(name, s[j].name, name);
    }
    assert i < j;
    assert s[..j][i].name == name;
  }

  /** A name longer than 255 bytes is cut when it is read back, which loses a field or brings
      in a name that was not there. */
  lemma LongNameBreaks(s: seq<Field>, j: nat)
    requires Sorted(s) && j < |s| <= 255 && |s[j].name| > 255
    requires forall k :: 0 <= k < j ==> |s[k].name| <= 255
    ensures Parse(SchemaBytes(s)) != Some(s)
  {
    hide ParseFields, FieldsBytes, AddField, Less, Sorted;
    assert SchemaBytes(s)[1..] == FieldsBytes(s, 0) && s[..0] == [];
    ParsePrefix(s, 0, j, |s|);
    var rest := CutStep(s, j);
    var cut := s[j].name[..|s[j].name| % 256];
    ProperPrefixLess(cut, s[j].name);
    CutBreaks(s, j, cut, rest);
  }

  lemma CutStep(s: seq<Field>, j: nat) returns (rest: Bytes)
    requires j < |s|
    ensures var cut := s[j].name[..|s[j].name| % 256];
            ParseFields(FieldsBytes(s, j), |s| - j, s[..j])
            == ParseFields(rest, |s| - j - 1, AddField(s[..j], Field(cut, s[j].kind)))
  {
    hide AddField, FieldsBytes;
    var data := FieldsBytes(s, j);
    CutName(s, j);
    rest := data[NameEnd(data)..];
  }

  lemma CutBreaks(s: seq<Field>, j: nat, cut: Bytes, rest: Bytes)
    requires Sorted(s) && j < |s| && Less(cut, s[j].name)
    ensures ParseFields(rest, |s| - j - 1, AddField(s[..j], Field(cut, s[j].kind))) != Some(s)
  {
    hide ParseFields, FieldsBytes, AddField, Less;
    var acc := AddField(s[..j], Field(cut, s[j].kind));
    AddKeepsNames(s[..j], Field(cut, s[j].kind), cut);
    ParseGrows(rest, |s| - j - 1, acc);
    ParseKeepsNames(rest, |s| - j - 1, acc, cut);
    assert Sorted(s[..j]);
    if HasName(s, cut) {
      SmallerIsBefore(s, j, cut);
      AddPresent(s[..j], Field(cut, s[j].kind));
    }
  }

  lemma CutName(s: seq<Field>, j: nat)
    requires j < |s|
    ensures var data := FieldsBytes(s, j);
            var size := |s[j].name| % 256;
            && |data| >= 3 && NameEnd(data) == 3 + size <= |data| && data[1] == s[j].kind
            && data[3..3 + size] == s[j].name[..size]
  {
    var data := FieldsBytes(s, j);
    var head := [j % 256, s[j].kind, |s[j].name| % 256];
    assert data == head + (s[j].name + FieldsBytes(s, j + 1));
    assert data[2] == head[2] && data[1] == head[1];
  }

  lemma {:induction false} FirstLongName(s: seq<Field>, i: nat) returns (j: nat)
    requires i < |s| && |s[i].name| > 255
    ensures j <= i && |s[j].name| > 255 && forall k :: 0 <= k < j ==> |s[k].name| <= 255
    decreases i
  {
    if k: nat :| k < i && |s[k].name| > 255 {
      j := FirstLongName(s, k);
    } else {
      j := i;
    }
  }

  /** A built schema survives being stored and read back if and only if it has at most 255
      fields and no name is longer than 255 bytes. */
  lemma SchemaRoundTrip(s: seq<Field>)
    requires Sorted(s)
    ensures Parse(SchemaBytes(s)) == Some(s) <==> Storable(s)
  {
    hide FieldBytes, AddField, Less, NameEnd, HasName;
    assert SchemaBytes(s)[1..] == FieldsBytes(s, 0) && s[..0] == [] && s[..|s|] == s;
    if Storable(s) {
      ParsePrefix(s, 0, |s|, |s|);
    } else if |s| > 255 {
      ParseGrows(FieldsBytes(s, 0), |s| % 256, []);
    } else {
      var i :| 0 <= i < |s| && |s[i].name| > 255;
      var j := FirstLongName(s, i);
      LongNameBreaks(s, j);
    }
  }

  // ---- The methods ----

  /** What `Build` assigns (doc.cpp:51-76): ids in name order, as bytes. */
  datatype Ids = Ids(nameId: map<Bytes, Byte>, idName: seq<Bytes>, idType: seq<Kind>)

  ghost predicate Numbers(ids: Ids, s: seq<Field>) {
    && |ids.idName| == |s| && |ids.idType| == |s|
    && (forall i :: 0 <= i < |s| ==> ids.idName[i] == s[i].name && ids.idType[i] == s[i].kind)
    && (forall i :: 0 <= i < |s| ==> s[i].name in ids.nameId && ids.nameId[s[i].name] == i % 256)
    && (forall x :: x in ids.nameId ==> HasName(s, x))
  }

  lemma SortedDistinct(s: seq<Field>, i: nat, j: nat)
    requires Sorted(s) && i < j < |s|
    ensures s[i].name != s[j].name
  {
    LessIrreflexive(s[i].name);
  }

  /** DocSchema::Build: names, ids and types agree field by field. */
  method Build(s: seq<Field>) returns (ids: Ids)
    requires Sorted(s)
    ensures Numbers(ids, s)
  {
    ids := Ids(map[], [], []);
    var i := 0;
    while i < |s|
      invariant 0 <= i <= |s|
      invariant Numbers(ids, s[..i])
    {
      forall j | 0 <= j < i
        ensures s[..i][j].name != s[i].name
      {
        SortedDistinct(s, j, i);
      }
      NumbersNext(ids, s, i);
      ids := Ids(ids.nameId[s[i].name := i % 256], ids.idName + [s[i].name], ids.idType + [s[i].kind]);
      i := i + 1;
    }
    assert s[..|s|] == s;
  }

  lemma NumbersNext(ids: Ids, s: seq<Field>, i: nat)
    requires i < |s| && Numbers(ids, s[..i]) && forall j :: 0 <= j < i ==> s[..i][j].name != s[i].name
    ensures Numbers(Ids(ids.nameId[s[i].name := i % 256], ids.idName + [s[i].name], ids.idType + [s[i].kind]),
            s[..i + 1])
  {
    var next := Ids(ids.nameId[s[i].name := i % 256], ids.idName + [s[i].name], ids.idType + [s[i].kind]);
    var t := s[..i + 1];
    forall x | x in next.nameId
      ensures HasName(t, x)
    {
      if x == s[i].name {
        assert t[i].name == x;
      } else {
        var j :| 0 <= j < |s[..i]| && s[..i][j].name == x;
        assert t[j].name == x;
      }
    }
    forall j | 0 <= j < |t|
      ensures t[j].name in next.nameId && next.nameId[t[j].name] == j % 256
    {
      if j < i {
        assert t[j] == s[..i][j];
      }
    }
  }

  /** DocSchema::Serialize through the handler (doc.cpp:78-83, 283-312). */
  method SerializeSchema(s: seq<Field>) returns (data: Bytes)
    ensures data == SchemaBytes(s)
  {
    data := [|s| % 256];
    var i := 0;
    while i < |s|
      invariant 0 <= i <= |s|
      invariant SchemaBytes(s) == data + FieldsBytes(s, i)
    {
      data := data + [i % 256];
      data := data + [s[i].kind];
      data := data + [|s[i].name| % 256];
      data := data + s[i].name;
      i := i + 1;
    }
  }

  /** DocSchema::Deserialize (doc.h:97-133), failing instead of reading past the end. */
  method DeserializeSchema(data: Bytes) returns (r: Option<seq<Field>>)
    ensures r == Parse(data)
  {
    if data == [] {
      return None;
    }
    var n: nat := data[0];
    var rest := data[1..];
    var acc: seq<Field> := [];
    while n > 0
      invariant ParseFields(rest, n, acc) == Parse(data)
    {
      if |rest| < 3 || |rest| < NameEnd(rest) {
        return None;
      }
      acc := Parsed(rest, acc);
      rest := rest[NameEnd(rest)..];
      n := n - 1;
    }
    return Some(acc);
  }
}
