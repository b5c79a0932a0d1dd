/** Lookup by name in one scan, and reading values back. */
module BsonReader {
  import opened Bytes
  import opened Bson
  import opened BsonWriter
  import opened Options

  // ------------------------------------------------------------------ where elements lie

  lemma {:induction false} BodyConcat(a: seq<Field>, b: seq<Field>)
    ensures EncodeBody(a + b) == EncodeBody(a) + EncodeBody(b)
  {
    if a == [] {
      assert a + b == b;
    } else {
      assert (a + b)[1..] == a[1..] + b;
      BodyConcat(a[1..], b);
    }
  }

  /** The offset of element `j` from the start of the document. */
  function OffsetAt(fs: seq<Field>, j: nat): nat
    requires j <= |fs|
  {
    4 + |EncodeBody(fs[..j])|
  }

  lemma BodyAround(fs: seq<Field>, j: nat)
    requires j < |fs|
    ensures EncodeBody(fs) == EncodeBody(fs[..j]) + (EncodeField(fs[j]) + EncodeBody(fs[j + 1..]))
    ensures OffsetAt(fs, j + 1) == OffsetAt(fs, j) + |EncodeField(fs[j])|
  {
    assert fs == fs[..j] + fs[j..] && fs[j..][1..] == fs[j + 1..];
    BodyConcat(fs[..j], fs[j..]);
    assert fs[..j + 1] == fs[..j] + [fs[j]];
    BodyAppend(fs[..j], fs[j]);
  }

  lemma WrapSlice(a: seq<Byte>, f: seq<Byte>, b: seq<Byte>)
    ensures |Wrap(a + (f + b))| == |a| + |f| + |b| + 5
    ensures Wrap(a + (f + b))[4 + |a|..] == f + (b + [0])
  {
  }

  lemma ElementAt(fs: seq<Field>, j: nat)
    requires j < |fs|
    ensures OffsetAt(fs, j + 1) == OffsetAt(fs, j) + |EncodeField(fs[j])| < |Encode(fs)|
    ensures Encode(fs)[OffsetAt(fs, j)..] == EncodeField(fs[j]) + (EncodeBody(fs[j + 1..]) + [0])
  {
    BodyAround(fs, j);
    WrapSlice(EncodeBody(fs[..j]), EncodeField(fs[j]), EncodeBody(fs[j + 1..]));
  }

  /** The terminator. */
  lemma EndAt(fs: seq<Field>)
    ensures OffsetAt(fs, |fs|) == |Encode(fs)| - 1
    ensures Encode(fs)[|Encode(fs)| - 1] == 0
  {
    assert fs[..|fs|] == fs;
  }

  lemma {:induction false} GoodAt(fs: seq<Field>, j: nat)
    requires GoodFields(fs) && j < |fs|
    ensures NoNul(fs[j].key) && GoodValue(fs[j].value)
  {
    if j > 0 {
      GoodAt(fs[1..], j - 1);
    }
  }

  // ------------------------------------------------------------------ association lists

  /** The first element called `key`, or -1. */
  function FirstIndex(fs: seq<Field>, key: seq<Byte>): (j: int)
    ensures -1 <= j < |fs|
    ensures j >= 0 ==> fs[j].key == key && forall i :: 0 <= i < j ==> fs[i].key != key
    ensures j < 0 ==> forall i :: 0 <= i < |fs| ==> fs[i].key != key
  {
    if fs == [] then -1
    else if fs[0].key == key then 0
    else
      var j := FirstIndex(fs[1..], key);
      if j < 0 then -1 else j + 1
  }

  function Offset(fs: seq<Field>, key: seq<Byte>): int {
    var j := FirstIndex(fs, key);
    if j < 0 then -1 else OffsetAt(fs, j)
  }

  /** How many of `keys` occur. */
  function Found(fs: seq<Field>, keys: seq<seq<Byte>>): nat {
    if keys == [] then 0
    else
      var n := |keys| - 1;
      Found(fs, keys[..n]) + if FirstIndex(fs, keys[n]) >= 0 then 1 else 0
  }

  ghost predicate DistinctKeys(keys: seq<seq<Byte>>) {
    forall i, j :: 0 <= i < j < |keys| ==> keys[i] != keys[j]
  }

  lemma FirstIndexNext(fs: seq<Field>, j: nat, key: seq<Byte>)
    requires j < |fs|
    ensures FirstIndex(fs[..j + 1], key) ==
            if FirstIndex(fs[..j], key) >= 0 then FirstIndex(fs[..j], key)
            else if fs[j].key == key then j else -1
  {
    var a, b := fs[..j], fs[..j + 1];
    assert forall i :: 0 <= i < j ==> b[i] == a[i];
    assert b[j] == fs[j];
  }

  lemma {:induction false} FoundNext(fs: seq<Field>, j: nat, keys: seq<seq<Byte>>, at: int)
    requires j < |fs| && DistinctKeys(keys)
    requires -1 <= at < |keys|
    requires at >= 0 ==> keys[at] == fs[j].key && FirstIndex(fs[..j], keys[at]) < 0
    requires at < 0 ==> forall i :: 0 <= i < |keys| ==> keys[i] == fs[j].key ==> FirstIndex(fs[..j], keys[i]) >= 0
    ensures Found(fs[..j + 1], keys) == Found(fs[..j], keys) + if at >= 0 then 1 else 0
  {
    if keys != [] {
      var n := |keys| - 1;
      FirstIndexNext(fs, j, keys[n]);
      FoundNext(fs, j, keys[..n], if at == n then -1 else at);
    }
  }

  lemma {:induction false} AllFound(fs: seq<Field>, keys: seq<seq<Byte>>)
    ensures Found(fs, keys) <= |keys|
    ensures Found(fs, keys) == |keys| ==> forall i :: 0 <= i < |keys| ==> FirstIndex(fs, keys[i]) >= 0
  {
    if keys != [] {
      AllFound(fs, keys[..|keys| - 1]);
    }
  }

  /** What has been found stays the first of its name, however many elements follow. */
  lemma FirstIndexStays(fs: seq<Field>, j: nat, key: seq<Byte>)
    requires j <= |fs| && FirstIndex(fs[..j], key) >= 0
    ensures FirstIndex(fs, key) == FirstIndex(fs[..j], key)
  {
    var k := FirstIndex(fs[..j], key);
    assert forall i :: 0 <= i <= k ==> fs[i] == fs[..j][i];
  }

  lemma {:induction false} FoundStays(fs: seq<Field>, j: nat, keys: seq<seq<Byte>>)
    requires j <= |fs| && Found(fs[..j], keys) == |keys|
    ensures Found(fs, keys) == |keys|
  {
    if keys != [] {
      var n := |keys| - 1;
      AllFound(fs[..j], keys);
      AllFound(fs[..j], keys[..n]);
      FoundStays(fs, j, keys[..n]);
      FirstIndexStays(fs, j, keys[n]);
    }
  }

  /** A later append keeps every offset that was found. */
  lemma AppendKeepsOffsets(fs: seq<Field>, f: Field, key: seq<Byte>)
    requires Offset(fs, key) >= 0
    ensures Offset(fs + [f], key) == Offset(fs, key)
  {
    var gs := fs + [f];
    assert gs[..|fs|] == fs;
    FirstIndexStays(gs, |fs|, key);
    var j := FirstIndex(fs, key);
    assert gs[..j] == fs[..j];
  }

  // ---------------------------------------------------------------------------- the scan

  /** What the scan has written for `key` once it is past the first `j` elements. */
  function Seen(fs: seq<Field>, j: nat, key: seq<Byte>): int
    requires j <= |fs|
  {
    var k := FirstIndex(fs[..j], key);
    if k < 0 then -1 else OffsetAt(fs, k)
  }

  lemma SeenAll(fs: seq<Field>, key: seq<Byte>)
    ensures Seen(fs, |fs|, key) == Offset(fs, key)
  {
    assert fs[..|fs|] == fs;
  }

  /** Where the value of element `j` starts. */
  function ValueAt(fs: seq<Field>, j: nat): nat
    requires j < |fs|
  {
    OffsetAt(fs, j) + |fs[j].key| + 2
  }

  lemma TailSlices(e: seq<Byte>, at: nat, b: seq<Byte>, n: nat)
    requires at <= |e| && e[at..] == b && n + 2 <= |b|
    ensures at + n + 2 <= |e| && e[at] == b[0]
    ensures e[at + 1..] == b[1..] && e[at + n + 2..] == b[n + 2..]
    ensures e[at + 1..at + 1 + n] == b[1..n + 1]
  {
    assert e[at..][0] == e[at];
    assert e[at..][1..] == e[at + 1..];
    assert e[at..][n + 2..] == e[at + n + 2..];
    assert e[at + 1..][..n] == e[at + 1..at + 1 + n] && b[1..][..n] == b[1..n + 1];
  }

  /** An element taken apart by its offset in the document. */
  lemma ElementPieces(fs: seq<Field>, j: nat)
    requires Good(fs) && j < |fs|
    ensures ValueAt(fs, j) < |Encode(fs)|
    ensures var e := Encode(fs);
            var at := OffsetAt(fs, j);
            && e[at] == Tag(fs[j].value) != 0 && NulAt(e[at + 1..]) == |fs[j].key|
            && e[at + 1..at + 1 + |fs[j].key|] == fs[j].key
    ensures Encode(fs)[ValueAt(fs, j)..] == EncodeValue(fs[j].value) + (EncodeBody(fs[j + 1..]) + [0])
  {
    var f, tail := fs[j], EncodeBody(fs[j + 1..]) + [0];
    ElementAt(fs, j);
    GoodAt(fs, j);
    FieldPieces(f, tail);
    TagIsNotNul(f.value);
    TailSlices(Encode(fs), OffsetAt(fs, j), EncodeField(f) + tail, |f.key|);
  }

  lemma ElementMeasures(fs: seq<Field>, j: nat)
    requires Good(fs) && j < |fs|
    ensures ValueAt(fs, j) <= |Encode(fs)|
    ensures var data := Encode(fs)[ValueAt(fs, j)..];
            (HasLength(Tag(fs[j].value)) ==> |data| >= 4)
            && ValueAt(fs, j) + Measure(Tag(fs[j].value), data) == OffsetAt(fs, j + 1) < |Encode(fs)|
  {
    var v, tail := fs[j].value, EncodeBody(fs[j + 1..]) + [0];
    ElementPieces(fs, j);
    ElementAt(fs, j);
    GoodAt(fs, j);
    FieldSize(fs[j]);
    MeasureIsExact(v, tail);
  }

  method SkipValue(bytes: seq<Byte>, kind: Byte, value: nat, ghost fs: seq<Field>, ghost j: nat)
    returns (next: nat)
    requires Good(fs) && j < |fs| && bytes == Encode(fs)
    requires kind == Tag(fs[j].value) && value == ValueAt(fs, j)
    ensures next == OffsetAt(fs, j + 1) < |bytes|
  {
    ElementMeasures(fs, j);
    next := value + Measure(kind, bytes[value..]);
  }

  method ReadElement(doc: array<Byte>, data: nat, end: nat, ghost fs: seq<Field>, ghost j: nat)
    returns (name: seq<Byte>, next: nat)
    requires Good(fs) && Holds(doc, fs) && end == |Encode(fs)|
    requires j < |fs| && data == OffsetAt(fs, j)
    ensures name == fs[j].key && next == OffsetAt(fs, j + 1) < end
  {
    ElementPieces(fs, j);
    var bytes := doc[..end];
    var len := NulAt(bytes[data + 1..]);
    name := bytes[data + 1..data + 1 + len];
    next := SkipValue(bytes, bytes[data], data + 1 + len + 1, fs, j);
  }

  method GetProps(doc: array<Byte>, keys: seq<seq<Byte>>, off: array<int>, ghost fs: seq<Field>)
    returns (scanned: nat)
    requires Good(fs) && Holds(doc, fs) && DistinctKeys(keys) && off.Length == |keys|
    modifies off
    ensures scanned == Found(fs, keys)
    ensures forall i :: 0 <= i < |keys| ==> off[i] == Offset(fs, keys[i])
  {
    var end := ReadLength(doc, fs);
    forall i | 0 <= i < |keys| {
      off[i] := -1;
    }
    scanned := 0;
    var data := 4;
    ghost var j := 0;
    assert fs[..0] == [];
    NothingFound(keys);
    EndAt(fs);
    while data < end
      invariant j <= |fs| && data == OffsetAt(fs, j) <= end - 1 == OffsetAt(fs, |fs|)
      invariant scanned == Found(fs[..j], keys)
      invariant forall i :: 0 <= i < |keys| ==> off[i] == Seen(fs, j, keys[i])
      decreases |fs| - j
    {
      assert doc[data] == Encode(fs)[data];
      if j < |fs| {
        ElementPieces(fs, j);
      }
      if doc[data] == 0 {
        break;
      }
      var name, next := ReadElement(doc, data, end, fs, j);
      var at := Note(off, keys, name, data, fs, j);
      FoundNext(fs, j, keys, at);
      j := j + 1;
      if at >= 0 {
        scanned := scanned + 1;
        if scanned == |keys| {
          AllFoundIsFinal(fs, j, keys);
          return;
        }
      }
      data := next;
    }
    assert fs[..j] == fs;
    forall i | 0 <= i < |keys|
      ensures off[i] == Offset(fs, keys[i])
    {
      SeenAll(fs, keys[i]);
    }
  }

  lemma {:induction false} NothingFound(keys: seq<seq<Byte>>)
    ensures Found([], keys) == 0
  {
    if keys != [] {
      NothingFound(keys[..|keys| - 1]);
    }
  }

  /** The early exit changes nothing. */
  lemma {:induction false} AllFoundIsFinal(fs: seq<Field>, j: nat, keys: seq<seq<Byte>>)
    requires j <= |fs| && Found(fs[..j], keys) == |keys|
    ensures Found(fs, keys) == |keys|
    ensures forall i :: 0 <= i < |keys| ==> Seen(fs, j, keys[i]) == Offset(fs, keys[i])
  {
    FoundStays(fs, j, keys);
    AllFound(fs[..j], keys);
    forall i | 0 <= i < |keys|
      ensures Seen(fs, j, keys[i]) == Offset(fs, keys[i])
    {
      FirstIndexStays(fs, j, keys[i]);
    }
  }

  /** The loop over the queries: notes `data` for the query called `name` that is still open. */
  method Note(off: array<int>, keys: seq<seq<Byte>>, name: seq<Byte>, data: nat,
              ghost fs: seq<Field>, ghost j: nat) returns (at: int)
    requires DistinctKeys(keys) && off.Length == |keys|
    requires j < |fs| && name == fs[j].key && data == OffsetAt(fs, j)
    requires forall i :: 0 <= i < |keys| ==> off[i] == Seen(fs, j, keys[i])
    modifies off
    ensures -1 <= at < |keys|
    ensures at >= 0 ==> keys[at] == name && FirstIndex(fs[..j], keys[at]) < 0
    ensures at < 0 ==> forall i :: 0 <= i < |keys| ==> keys[i] == name ==> FirstIndex(fs[..j], keys[i]) >= 0
    ensures forall i :: 0 <= i < |keys| ==> off[i] == Seen(fs, j + 1, keys[i])
  {
    forall i | 0 <= i < |keys|
      ensures Seen(fs, j + 1, keys[i]) ==
              if Seen(fs, j, keys[i]) < 0 && keys[i] == name then data else Seen(fs, j, keys[i])
    {
      FirstIndexNext(fs, j, keys[i]);
    }
    at := 0;
    while at < |keys|
      invariant 0 <= at <= |keys|
      invariant forall i :: 0 <= i < |keys| ==> off[i] == Seen(fs, j, keys[i])
      invariant forall i :: 0 <= i < at ==> off[i] >= 0 || keys[i] != name
    {
      if off[at] < 0 && keys[at] == name {
        off[at] := data;
        return;
      }
      at := at + 1;
    }
    at := -1;
  }

  // -------------------------------------------------------------------------------- getters

  /** `offset` names element `j`, or is one of those that mean "no such element". */
  ghost predicate Names(doc: array?<Byte>, offset: int, fs: seq<Field>, j: nat)
    reads Frame(doc)
  {
    doc != null && offset >= 4 ==>
      Good(fs) && Holds(doc, fs) && j < |fs| && offset == OffsetAt(fs, j)
  }

  predicate Present(doc: array?<Byte>, offset: int) {
    doc != null && offset >= 4
  }

  /** Where the value starts, if the element exists and is of one of the two kinds; `bytes` are
      the document's. */
  method SeekData(doc: array?<Byte>, offset: int, low: Byte, high: Byte, ghost fs: seq<Field>, ghost j: nat)
    returns (data: Option<nat>, bytes: seq<Byte>)
    requires Names(doc, offset, fs, j)
    ensures data.Some? <==> Present(doc, offset) && (Tag(fs[j].value) == low || Tag(fs[j].value) == high)
    ensures data.Some? ==> data.value == ValueAt(fs, j) && bytes == Encode(fs)
  {
    data, bytes := None, [];
    if doc == null || offset < 4 {
      return;
    }
    ElementPieces(fs, j);
    var end := ReadLength(doc, fs);
    bytes := doc[..end];
    if bytes[offset] != low && bytes[offset] != high {
      return;
    }
    data := Some(offset + 1 + NulAt(bytes[offset + 1..]) + 1);
  }

  lemma ValueBytes(fs: seq<Field>, j: nat)
    requires Good(fs) && j < |fs|
    ensures ValueAt(fs, j) + |EncodeValue(fs[j].value)| < |Encode(fs)|
    ensures Encode(fs)[ValueAt(fs, j)..ValueAt(fs, j) + |EncodeValue(fs[j].value)|] == EncodeValue(fs[j].value)
  {
    ElementPieces(fs, j);
    var at, v := ValueAt(fs, j), EncodeValue(fs[j].value);
    var rest := Encode(fs)[at..];
    assert rest[..|v|] == v && Encode(fs)[at..at + |v|] == rest[..|v|];
  }

  /** A C string ends at its first NUL. */
  function CString(b: seq<Byte>): seq<Byte> {
    b[..NulAt(b)]
  }

  lemma SubSlice(e: seq<Byte>, at: nat, v: seq<Byte>, from: nat, to: nat)
    requires at + |v| <= |e| && e[at..at + |v|] == v && from <= to <= |v|
    ensures e[at + from..at + to] == v[from..to]
  {
    forall k | 0 <= k < to - from
      ensures e[at + from..at + to][k] == v[from..to][k]
    {
      assert e[at..at + |v|][from + k] == e[at + from + k];
    }
  }

  lemma StringValue(fs: seq<Field>, j: nat)
    requires Good(fs) && j < |fs| && fs[j].value.Str?
    ensures var e, at, s := Encode(fs), ValueAt(fs, j), fs[j].value.text;
            && at + 4 + |s| + 1 < |e| && GetInt(e[at..at + 4]) == |s| + 1
            && e[at + 4..at + 4 + |s|] == s && e[at + 4 + |s|] == 0
  {
    var e, at, s := Encode(fs), ValueAt(fs, j), fs[j].value.text;
    ValueBytes(fs, j);
    var v := Counted(s);
    assert EncodeValue(fs[j].value) == v;
    GetPut(|s| + 1);
    SubSlice(e, at, v, 0, 4);
    SubSlice(e, at, v, 4, 4 + |s|);
    SubSlice(e, at, v, 4 + |s|, 5 + |s|);
    assert v[..4] == PutInt(|s| + 1) && v[4..4 + |s|] == s;
    assert e[at + 4 + |s|] == v[4 + |s|..5 + |s|][0];
  }

  method GetString(doc: array?<Byte>, offset: int, ghost fs: seq<Field>, ghost j: nat)
    returns (r: Option<seq<Byte>>)
    requires Names(doc, offset, fs, j)
    ensures r == if Present(doc, offset) && fs[j].value.Str? then Some(CString(fs[j].value.text + [0])) else None
  {
    if Present(doc, offset) {
      TagOfKind(fs, j);
    }
    var data, bytes := SeekData(doc, offset, 0x02, 0x02, fs, j);
    if data.None? {
      return None;
    }
    StringValue(fs, j);
    var at := data.value;
    var len := GetInt(bytes[at..at + 4]);
    at := at + 4;
    if len <= 0 || |bytes| - at < len || bytes[at + len - 1] != 0 {
      return None;
    }
    assert bytes[at..at + len] == fs[j].value.text + [0];
    r := Some(CString(bytes[at..at + len]));
  }

  /** The kinds the getters look for belong to one constructor each. */
  lemma TagOfKind(fs: seq<Field>, j: nat)
    requires GoodFields(fs) && j < |fs|
    ensures var v := fs[j].value;
            && (Tag(v) == 0x02 <==> v.Str?) && (Tag(v) == 0x03 <==> v.Doc?) && (Tag(v) == 0x04 <==> v.Arr?)
            && (Tag(v) == 0x05 <==> v.Bin?) && (Tag(v) == 0x08 <==> v.Boolean?) && (Tag(v) == 0x10 <==> v.Int32?)
  {
    GoodAt(fs, j);
  }

  method GetInt32(doc: array?<Byte>, offset: int, default: int, ghost fs: seq<Field>, ghost j: nat)
    returns (r: int)
    requires Names(doc, offset, fs, j)
    ensures r == if Present(doc, offset) && fs[j].value.Int32? then fs[j].value.n else default
  {
    if Present(doc, offset) {
      TagOfKind(fs, j);
      GoodAt(fs, j);
    }
    var data, bytes := SeekData(doc, offset, 0x10, 0x10, fs, j);
    if data.None? {
      return default;
    }
    ValueBytes(fs, j);
    GetPut(fs[j].value.n);
    r := GetInt(bytes[data.value..data.value + 4]);
  }

  method GetBoolean(doc: array?<Byte>, offset: int, default: int, ghost fs: seq<Field>, ghost j: nat)
    returns (r: int)
    requires Names(doc, offset, fs, j)
    ensures r == if Present(doc, offset) && fs[j].value.Boolean? then (if fs[j].value.on then 1 else 0) else default
  {
    if Present(doc, offset) {
      TagOfKind(fs, j);
    }
    var data, bytes := SeekData(doc, offset, 0x08, 0x08, fs, j);
    if data.None? {
      return default;
    }
    ValueBytes(fs, j);
    assert bytes[data.value..data.value + 1][0] == bytes[data.value];
    r := if bytes[data.value] != 0 then 1 else 0;
  }

  /** The embedded document or array starts at `data`. */
  method GetSubdocument(doc: array?<Byte>, offset: int, ghost fs: seq<Field>, ghost j: nat)
    returns (data: Option<nat>)
    requires Names(doc, offset, fs, j)
    ensures data.Some? <==> Present(doc, offset) && (fs[j].value.Doc? || fs[j].value.Arr?)
    ensures data.Some? ==>
              var inner := Encode(fs[j].value.fields);
              data.value + |inner| < doc.Length && doc[data.value..data.value + |inner|] == inner
  {
    if Present(doc, offset) {
      TagOfKind(fs, j);
    }
    ghost var bytes;
    data, bytes := SeekData(doc, offset, 0x04, 0x03, fs, j);
    if data.Some? {
      ValueBytes(fs, j);
      ghost var inner := Encode(fs[j].value.fields);
      assert EncodeValue(fs[j].value) == inner;
      assert doc[..|bytes|][data.value..data.value + |inner|] == doc[data.value..data.value + |inner|];
    }
  }

  lemma {:induction false} BinaryValue(fs: seq<Field>, j: nat)
    requires Good(fs) && j < |fs| && fs[j].value.Bin?
    ensures var e, at, d := Encode(fs), ValueAt(fs, j), fs[j].value.data;
            at + 5 + |d| < |e| && GetInt(e[at..at + 4]) == |d| && e[at + 5..at + 5 + |d|] == d
  {
    var e, at, d := Encode(fs), ValueAt(fs, j), fs[j].value.data;
    ValueBytes(fs, j);
    var v := PutInt(|d|) + [fs[j].value.subtype] + d;
    assert EncodeValue(fs[j].value) == v;
    GetPut(|d|);
    SubSlice(e, at, v, 0, 4);
    SubSlice(e, at, v, 5, 5 + |d|);
    assert v[..4] == PutInt(|d|) && v[5..5 + |d|] == d;
  }

  /** A binary reads back exactly when it is not empty. */
  method GetBinary(doc: array?<Byte>, offset: int, ghost fs: seq<Field>, ghost j: nat)
    returns (r: Option<seq<Byte>>)
    requires Names(doc, offset, fs, j)
    ensures r == if Present(doc, offset) && fs[j].value.Bin? && fs[j].value.data != []
                 then Some(fs[j].value.data) else None
  {
    if Present(doc, offset) {
      TagOfKind(fs, j);
    }
    var data, bytes := SeekData(doc, offset, 0x05, 0x05, fs, j);
    if data.None? {
      return None;
    }
    BinaryValue(fs, j);
    var len := GetInt(bytes[data.value..data.value + 4]);
    var at := data.value + 5;
    if len <= 0 || |bytes| - at < len {
      return None;
    }
    r := Some(bytes[at..at + len]);
  }
}
