/** The setters: elements are appended to a document in place, over its terminator. */
module BsonWriter {
  import opened Bytes
  import opened Bson

  /** The buffer starts with the document `fs`. */
  ghost predicate Holds(doc: array<Byte>, fs: seq<Field>)
    reads doc
  {
    |Encode(fs)| <= doc.Length && doc[..|Encode(fs)|] == Encode(fs)
  }

  lemma {:induction false} BodyAppend(fs: seq<Field>, f: Field)
    ensures EncodeBody(fs + [f]) == EncodeBody(fs) + EncodeField(f)
  {
    if fs == [] {
      assert [f][1..] == [] && [] + [f] == [f];
    } else {
      assert (fs + [f])[1..] == fs[1..] + [f];
      BodyAppend(fs[1..], f);
    }
  }

  /** An appended element makes a document longer by exactly its own size. */
  lemma EncodeAppend(fs: seq<Field>, f: Field)
    ensures |Encode(fs + [f])| == |Encode(fs)| + |EncodeField(f)|
  {
    BodyAppend(fs, f);
  }

  lemma {:induction false} GoodAppend(fs: seq<Field>, f: Field)
    ensures GoodFields(fs + [f]) <==> GoodFields(fs) && NoNul(f.key) && GoodValue(f.value)
  {
    if fs == [] {
      assert [f][1..] == [] && [] + [f] == [f];
    } else {
      assert (fs + [f])[1..] == fs[1..] + [f] && (fs + [f])[0] == fs[0];
      GoodAppend(fs[1..], f);
    }
  }

  lemma FieldSize(f: Field)
    ensures |EncodeField(f)| == 2 + |f.key| + |EncodeValue(f.value)|
    ensures f.value.Str? ==> |EncodeValue(f.value)| == 5 + |f.value.text|
    ensures f.value.Bin? ==> |EncodeValue(f.value)| == 5 + |f.value.data|
  {
  }

  // -------------------------------------------------------------------- building one element

  /** In the middle of an append: the body of `fs` and `part` of the next element are in place. */
  ghost predicate Building(doc: array<Byte>, fs: seq<Field>, part: seq<Byte>, end: nat)
    reads doc
  {
    4 <= end <= doc.Length && doc[4..end] == EncodeBody(fs) + part
  }

  method ReadLength(doc: array<Byte>, ghost fs: seq<Field>) returns (end: nat)
    requires Holds(doc, fs) && |Encode(fs)| < TWO_31
    ensures end == |Encode(fs)|
  {
    WrapMeasure(EncodeBody(fs), []);
    assert Encode(fs) + [] == Encode(fs);
    assert doc[..4] == Encode(fs)[..4];
    end := GetInt(doc[..4]);
  }

  method Extend(doc: array<Byte>, end: nat, bytes: seq<Byte>, ghost fs: seq<Field>, ghost part: seq<Byte>)
    returns (next: nat)
    requires Building(doc, fs, part, end) && end + |bytes| <= doc.Length
    modifies doc
    ensures next == end + |bytes| && Building(doc, fs, part + bytes, next)
    ensures forall i :: next <= i < doc.Length ==> doc[i] == old(doc[i])
  {
    ghost var was := doc[4..end];
    forall i | 0 <= i < |bytes| {
      doc[end + i] := bytes[i];
    }
    next := end + |bytes|;
    assert doc[4..next] == was + bytes;
  }

  /** The kind goes where the terminator was, the key behind it. */
  method Open(doc: array<Byte>, kind: Byte, key: seq<Byte>, ghost fs: seq<Field>) returns (end: nat)
    requires Holds(doc, fs) && |Encode(fs)| < TWO_31
    requires |Encode(fs)| + |key| + 1 <= doc.Length
    modifies doc
    ensures end == |Encode(fs)| + |key| + 1
    ensures Building(doc, fs, [kind] + key + [0], end)
    ensures forall i :: end <= i < doc.Length ==> doc[i] == old(doc[i])
  {
    end := ReadLength(doc, fs);
    assert doc[4..end - 1] == Encode(fs)[4..end - 1] == EncodeBody(fs);
    doc[end - 1] := kind;
    assert doc[4..end] == doc[4..end - 1] + [kind];
    end := Extend(doc, end, key + [0], fs, [kind]);
    assert [kind] + (key + [0]) == [kind] + key + [0];
  }

  /** `write_unaligned_int` at the start of the document. */
  method WriteLength(doc: array<Byte>, n: int)
    requires doc.Length >= 4
    modifies doc
    ensures doc[..4] == PutInt(n)
    ensures forall i :: 4 <= i < doc.Length ==> doc[i] == old(doc[i])
  {
    var length := PutInt(n);
    doc[0], doc[1], doc[2], doc[3] := length[0], length[1], length[2], length[3];
  }

  method Close(doc: array<Byte>, end: nat, ghost fs: seq<Field>, ghost f: Field)
    requires Building(doc, fs, EncodeField(f), end) && end < doc.Length
    modifies doc
    ensures Holds(doc, fs + [f]) && |Encode(fs + [f])| == end + 1
    ensures forall i :: end < i < doc.Length ==> doc[i] == old(doc[i])
  {
    BodyAppend(fs, f);
    ghost var body := doc[4..end];
    doc[end] := 0;
    WriteLength(doc, end + 1);
    assert doc[4..end] == body;
    assert doc[..end + 1] == doc[..4] + doc[4..end] + [doc[end]];
  }

  // -------------------------------------------------------------------------------- setters

  ghost function Frame(doc: array?<Byte>): set<object> {
    if doc == null then {} else {doc}
  }

  /** Room for one more element, in a buffer that may be absent when only measuring. */
  ghost predicate Room(doc: array?<Byte>, fs: seq<Field>, f: Field)
    reads Frame(doc)
  {
    doc != null ==> Holds(doc, fs) && |Encode(fs)| + |EncodeField(f)| <= doc.Length
                    && |Encode(fs)| + |EncodeField(f)| < TWO_31
  }

  method SetSubelement(doc: array?<Byte>, key: seq<Byte>, kind: Byte, bytes: seq<Byte>,
                       ghost fs: seq<Field>, ghost v: Value) returns (n: nat)
    requires kind == Tag(v) && bytes == EncodeValue(v)
    requires Room(doc, fs, Field(key, v))
    modifies Frame(doc)
    ensures n == |EncodeField(Field(key, v))|
    ensures doc != null ==> Holds(doc, fs + [Field(key, v)]) && |Encode(fs + [Field(key, v)])| == |Encode(fs)| + n
    ensures doc != null ==> forall i :: |Encode(fs)| + n <= i < doc.Length ==> doc[i] == old(doc[i])
  {
    FieldSize(Field(key, v));
    if doc != null {
      var end := Open(doc, kind, key, fs);
      end := Extend(doc, end, bytes, fs, [kind] + key + [0]);
      Close(doc, end, fs, Field(key, v));
    }
    n := 1 + (|key| + 1) + |bytes|;
  }

  method SetString(doc: array?<Byte>, key: seq<Byte>, text: seq<Byte>, ghost fs: seq<Field>) returns (n: nat)
    requires Room(doc, fs, Field(key, Str(text)))
    modifies Frame(doc)
    ensures n == |EncodeField(Field(key, Str(text)))|
    ensures doc != null ==> Holds(doc, fs + [Field(key, Str(text))])
                            && |Encode(fs + [Field(key, Str(text))])| == |Encode(fs)| + n
    ensures doc != null ==> forall i :: |Encode(fs)| + n <= i < doc.Length ==> doc[i] == old(doc[i])
  {
    FieldSize(Field(key, Str(text)));
    if doc != null {
      var end := Open(doc, 0x02, key, fs);
      ghost var part := [0x02] + key + [0];
      end := Extend(doc, end, PutInt(|text| + 1), fs, part);
      end := Extend(doc, end, text + [0], fs, part + PutInt(|text| + 1));
      assert part + PutInt(|text| + 1) + (text + [0]) == EncodeField(Field(key, Str(text)));
      Close(doc, end, fs, Field(key, Str(text)));
    }
    n := 1 + (|key| + 1) + 4 + (|text| + 1);
  }

  method SetSubdocument(doc: array?<Byte>, key: seq<Byte>, sub: array<Byte>,
                        ghost fs: seq<Field>, ghost inner: seq<Field>) returns (n: nat)
    requires Holds(sub, inner) && |Encode(inner)| < TWO_31 && sub != doc
    requires Room(doc, fs, Field(key, Doc(inner)))
    modifies Frame(doc)
    ensures n == |EncodeField(Field(key, Doc(inner)))|
    ensures doc != null ==> Holds(doc, fs + [Field(key, Doc(inner))])
                            && |Encode(fs + [Field(key, Doc(inner))])| == |Encode(fs)| + n
    ensures doc != null ==> forall i :: |Encode(fs)| + n <= i < doc.Length ==> doc[i] == old(doc[i])
  {
    var len := ReadLength(sub, inner);
    n := SetSubelement(doc, key, 0x03, sub[..len], fs, Doc(inner));
  }

  method SetArray(doc: array?<Byte>, key: seq<Byte>, sub: array<Byte>,
                  ghost fs: seq<Field>, ghost inner: seq<Field>) returns (n: nat)
    requires Holds(sub, inner) && |Encode(inner)| < TWO_31 && sub != doc
    requires Room(doc, fs, Field(key, Arr(inner)))
    modifies Frame(doc)
    ensures n == |EncodeField(Field(key, Arr(inner)))|
    ensures doc != null ==> Holds(doc, fs + [Field(key, Arr(inner))])
                            && |Encode(fs + [Field(key, Arr(inner))])| == |Encode(fs)| + n
    ensures doc != null ==> forall i :: |Encode(fs)| + n <= i < doc.Length ==> doc[i] == old(doc[i])
  {
    var len := ReadLength(sub, inner);
    n := SetSubelement(doc, key, 0x04, sub[..len], fs, Arr(inner));
  }

  method SetBoolean(doc: array?<Byte>, key: seq<Byte>, value: int, ghost fs: seq<Field>) returns (n: nat)
    requires Room(doc, fs, Field(key, Boolean(value != 0)))
    modifies Frame(doc)
    ensures n == |EncodeField(Field(key, Boolean(value != 0)))|
    ensures doc != null ==> Holds(doc, fs + [Field(key, Boolean(value != 0))])
                            && |Encode(fs + [Field(key, Boolean(value != 0))])| == |Encode(fs)| + n
    ensures doc != null ==> forall i :: |Encode(fs)| + n <= i < doc.Length ==> doc[i] == old(doc[i])
  {
    n := SetSubelement(doc, key, 0x08, [if value != 0 then 1 else 0], fs, Boolean(value != 0));
  }

  method SetInt32(doc: array?<Byte>, key: seq<Byte>, value: int, ghost fs: seq<Field>) returns (n: nat)
    requires Room(doc, fs, Field(key, Int32(value)))
    modifies Frame(doc)
    ensures n == |EncodeField(Field(key, Int32(value)))|
    ensures doc != null ==> Holds(doc, fs + [Field(key, Int32(value))])
                            && |Encode(fs + [Field(key, Int32(value))])| == |Encode(fs)| + n
    ensures doc != null ==> forall i :: |Encode(fs)| + n <= i < doc.Length ==> doc[i] == old(doc[i])
  {
    n := SetSubelement(doc, key, 0x10, PutInt(value), fs, Int32(value));
  }

  method SetNull(doc: array?<Byte>, key: seq<Byte>, ghost fs: seq<Field>) returns (n: nat)
    requires Room(doc, fs, Field(key, Null))
    modifies Frame(doc)
    ensures n == |EncodeField(Field(key, Null))|
    ensures doc != null ==> Holds(doc, fs + [Field(key, Null)])
                            && |Encode(fs + [Field(key, Null)])| == |Encode(fs)| + n
    ensures doc != null ==> forall i :: |Encode(fs)| + n <= i < doc.Length ==> doc[i] == old(doc[i])
  {
    n := SetSubelement(doc, key, 0x0a, [], fs, Null);
  }

  function Blank(n: nat): seq<Byte> {
    seq(n, _ => 0)
  }

  /** Appends `binlen` zero bytes as a generic binary; `buf` is where the caller may fill it. */
  method SetBinary(doc: array?<Byte>, key: seq<Byte>, binlen: int, ghost fs: seq<Field>)
    returns (n: int, buf: nat)
    requires binlen >= 0 ==> Room(doc, fs, Field(key, Bin(0, Blank(binlen))))
    modifies Frame(doc)
    ensures binlen < 0 ==> n == -1
    ensures binlen < 0 && doc != null ==> doc[..] == old(doc[..])
    ensures binlen >= 0 ==> n == |EncodeField(Field(key, Bin(0, Blank(binlen))))|
    ensures binlen >= 0 && doc != null ==>
              Holds(doc, fs + [Field(key, Bin(0, Blank(binlen)))])
              && |Encode(fs + [Field(key, Bin(0, Blank(binlen)))])| == |Encode(fs)| + n
              && buf == |Encode(fs)| + |key| + 6
              && forall i :: |Encode(fs)| + n <= i < doc.Length ==> doc[i] == old(doc[i])
  {
    buf := 0;
    if binlen < 0 {
      return -1, 0;
    }
    FieldSize(Field(key, Bin(0, Blank(binlen))));
    if doc != null {
      var end := Open(doc, 0x05, key, fs);
      ghost var part := [0x05] + key + [0];
      end := Extend(doc, end, PutInt(binlen), fs, part);
      end := Extend(doc, end, [0], fs, part + PutInt(binlen));
      buf := end;
      end := Extend(doc, end, Blank(binlen), fs, part + PutInt(binlen) + [0]);
      assert part + PutInt(binlen) + [0] + Blank(binlen) == EncodeField(Field(key, Bin(0, Blank(binlen))));
      Close(doc, end, fs, Field(key, Bin(0, Blank(binlen))));
    }
    n := 1 + (|key| + 1) + 4 + 1 + binlen;
  }

  method CreateEmpty(doc: array<Byte>)
    requires doc.Length >= 5
    modifies doc
    ensures Holds(doc, []) && |Encode([])| == 5
    ensures forall i :: 5 <= i < doc.Length ==> doc[i] == old(doc[i])
  {
    doc[0], doc[1], doc[2], doc[3], doc[4] := 5, 0, 0, 0, 0;
    assert doc[..5] == [5, 0, 0, 0, 0] && PutInt(5) == [5, 0, 0, 0];
  }
}
