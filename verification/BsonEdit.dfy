/** Shrinking the last binary of a document in place, and copying an element between documents. */
module BsonEdit {
  import opened Bytes
  import opened Bson
  import opened BsonWriter
  import opened BsonReader

  // ------------------------------------------------------------------------------ shrinking

  /** The part of a binary element in front of its length field. */
  function BinHead(key: seq<Byte>): seq<Byte> {
    [0x05] + key + [0]
  }

  /** The buffer of the binary that follows `fs`. */
  function BufferAt(fs: seq<Field>, key: seq<Byte>): nat {
    |Encode(fs)| + |key| + 6
  }

  lemma BinLayout(fs: seq<Field>, key: seq<Byte>, t: Byte, d: seq<Byte>)
    ensures Encode(fs + [Field(key, Bin(t, d))]) ==
            PutInt(BufferAt(fs, key) + |d| + 1) + (EncodeBody(fs) + BinHead(key)) + PutInt(|d|) + ([t] + d) + [0]
  {
    var f := Field(key, Bin(t, d));
    BodyAppend(fs, f);
    FieldSize(f);
    assert EncodeValue(f.value) == PutInt(|d|) + [t] + d;
    BinField(key, PutInt(|d|), t, d);
    Regroup(PutInt(BufferAt(fs, key) + |d| + 1), EncodeBody(fs), BinHead(key), PutInt(|d|), [t] + d);
  }

  lemma BinField(key: seq<Byte>, n: seq<Byte>, t: Byte, d: seq<Byte>)
    ensures [0x05] + key + [0] + (n + [t] + d) == BinHead(key) + n + ([t] + d)
  {
  }

  lemma Regroup(l: seq<Byte>, b: seq<Byte>, h: seq<Byte>, n: seq<Byte>, v: seq<Byte>)
    ensures l + (b + (h + n + v)) + [0] == l + (b + h) + n + v + [0]
  {
  }

  lemma Pieces(a: seq<Byte>, p: seq<Byte>, n: seq<Byte>, v: seq<Byte>, k: nat)
    requires |a| == 4 && |n| == 4 && k <= |v|
    ensures var e := a + p + n + v + [0];
            var at := 4 + |p|;
            && |e| == at + 4 + |v| + 1 && e[at + 4 + |v|] == 0
            && e[4..at] == p && e[at..at + 4] == n && e[at + 4..at + 4 + k] == v[..k]
  {
  }

  lemma BinPieces(fs: seq<Field>, key: seq<Byte>, t: Byte, d: seq<Byte>, k: nat)
    requires k <= |d|
    ensures var e, buf := Encode(fs + [Field(key, Bin(t, d))]), BufferAt(fs, key);
            && |e| == buf + |d| + 1 && e[buf + |d|] == 0 && e[buf - 5..buf - 1] == PutInt(|d|)
            && e[4..buf - 5] == EncodeBody(fs) + BinHead(key) && e[buf - 1..buf + k] == [t] + d[..k]
  {
    BinLayout(fs, key, t, d);
    Pieces(PutInt(BufferAt(fs, key) + |d| + 1), EncodeBody(fs) + BinHead(key), PutInt(|d|), [t] + d, k + 1);
    assert ([t] + d)[..k + 1] == [t] + d[..k];
  }

  /** The bytes of the shrunk document, from those of the document before. */
  lemma ShrunkLayout(fs: seq<Field>, key: seq<Byte>, t: Byte, d: seq<Byte>, k: nat)
    requires k <= |d|
    ensures var e, buf := Encode(fs + [Field(key, Bin(t, d))]), BufferAt(fs, key);
            && |e| == buf + |d| + 1 && e[buf + |d|] == 0 && e[buf - 5..buf - 1] == PutInt(|d|)
            && Encode(fs + [Field(key, Bin(t, d[..k]))]) ==
               PutInt(buf + k + 1) + e[4..buf - 5] + PutInt(k) + e[buf - 1..buf + k] + [0]
  {
    BinPieces(fs, key, t, d, k);
    BinLayout(fs, key, t, d[..k]);
  }

  lemma MoreLayout(fs: seq<Field>, f: Field, more: seq<Field>)
    requires GoodFields(fs + [f] + more)
    ensures var e := Encode(fs + [f] + more);
            var last := |Encode(fs + [f])| - 1;
            last < |e| && e[4..last] == EncodeBody(fs + [f])
            && (e[last] == 0 <==> more == [])
  {
    BodyConcat(fs + [f], more);
    if more != [] {
      GoodAt(fs + [f] + more, |fs| + 1);
      assert (fs + [f] + more)[|fs| + 1] == more[0];
      TagIsNotNul(more[0].value);
      assert EncodeBody(more)[0] == EncodeField(more[0])[0];
      var e := Encode(fs + [f] + more);
      var last := |Encode(fs + [f])| - 1;
      assert e[last] == EncodeBody(more)[0];
    }
  }

  method WriteInt(doc: array<Byte>, at: nat, n: int)
    requires at + 4 <= doc.Length
    modifies doc
    ensures doc[at..at + 4] == PutInt(n)
    ensures forall i :: 0 <= i < doc.Length && !(at <= i < at + 4) ==> doc[i] == old(doc[i])
  {
    var b := PutInt(n);
    doc[at], doc[at + 1], doc[at + 2], doc[at + 3] := b[0], b[1], b[2], b[3];
  }

  /** What the checks read, whatever follows the binary. */
  lemma LengthAndNext(fs: seq<Field>, key: seq<Byte>, t: Byte, d: seq<Byte>, more: seq<Field>)
    requires Good(fs + [Field(key, Bin(t, d))] + more)
    ensures var e, buf := Encode(fs + [Field(key, Bin(t, d))] + more), BufferAt(fs, key);
            buf + |d| < |e| && e[buf - 5..buf - 1] == PutInt(|d|) && (e[buf + |d|] == 0 <==> more == [])
  {
    var f := Field(key, Bin(t, d));
    var e, s, buf := Encode(fs + [f] + more), Encode(fs + [f]), BufferAt(fs, key);
    MoreLayout(fs, f, more);
    ShrunkLayout(fs, key, t, d, |d|);
    assert s[4..|s| - 1] == e[4..|s| - 1];
    SubSlice(e, 4, s[4..|s| - 1], buf - 9, buf - 5);
    SubSlice(s, 4, s[4..|s| - 1], buf - 9, buf - 5);
  }

  lemma LengthPrefix(fs: seq<Field>)
    ensures Encode(fs)[..4] == PutInt(|Encode(fs)|)
  {
  }

  lemma PrefixSlice(s: seq<Byte>, e: seq<Byte>, from: nat, to: nat)
    requires |e| <= |s| && s[..|e|] == e && from <= to <= |e|
    ensures s[from..to] == e[from..to]
  {
    assert s[0..0 + |e|] == e;
    SubSlice(s, 0, e, from, to);
  }

  method ReadInt(doc: array<Byte>, at: nat) returns (n: int)
    requires at + 4 <= doc.Length
    ensures n == GetInt(doc[..][at..at + 4])
  {
    assert doc[at..at + 4] == doc[..][at..at + 4];
    n := GetInt(doc[at..at + 4]);
  }

  /** Reads the binary's length and looks at the byte behind it. */
  method ReadBinary(doc: array<Byte>, buf: nat, ghost fs: seq<Field>, ghost key: seq<Byte>,
                    ghost t: Byte, ghost d: seq<Byte>, ghost more: seq<Field>)
    returns (binlen: int, last: bool)
    requires var all := fs + [Field(key, Bin(t, d))] + more; Good(all) && Holds(doc, all)
    requires buf == BufferAt(fs, key)
    ensures binlen == |d| && buf + |d| < doc.Length
    ensures last <==> more == []
  {
    LengthAndNext(fs, key, t, d, more);
    GetPut(|d|);
    ghost var e := Encode(fs + [Field(key, Bin(t, d))] + more);
    PrefixSlice(doc[..], e, buf - 5, buf - 1);
    assert doc[buf + |d|] == doc[..|e|][buf + |d|];
    binlen := ReadInt(doc, buf - 5);
    last := doc[buf + binlen] == 0;
  }

  /** Shrinking the binary gives the document that setting only its first `binlen` bytes would
      have given; it is refused, with nothing changed, when another element follows or when it
      would be growing. */
  method ShrinkBinary(doc: array<Byte>, buf: nat, binlen: nat, ghost fs: seq<Field>, ghost key: seq<Byte>,
                      ghost t: Byte, ghost d: seq<Byte>, ghost more: seq<Field>) returns (r: int)
    requires var all := fs + [Field(key, Bin(t, d))] + more; Good(all) && Holds(doc, all)
    requires buf == BufferAt(fs, key)
    modifies doc
    ensures r == 0 <==> more == [] && binlen <= |d|
    ensures r == 0 || r == -1
    ensures r == 0 ==> Holds(doc, fs + [Field(key, Bin(t, d[..binlen]))])
                       && |Encode(fs + [Field(key, Bin(t, d[..binlen]))])| == buf + binlen + 1
    ensures r == -1 ==> doc[..] == old(doc[..])
  {
    var oldBinlen, last := ReadBinary(doc, buf, fs, key, t, d, more);
    if !last {
      return -1;
    }
    if oldBinlen < binlen {
      return -1;
    }
    NothingMore(fs + [Field(key, Bin(t, d))], more);
    if oldBinlen == binlen {
      SameLength(fs, key, t, d);
      return 0;
    }
    ShrinkLast(doc, buf, oldBinlen, binlen, fs, key, t, d);
    r := 0;
  }

  lemma NothingMore(fs: seq<Field>, more: seq<Field>)
    requires more == []
    ensures fs + more == fs
  {
  }

  lemma SameLength(fs: seq<Field>, key: seq<Byte>, t: Byte, d: seq<Byte>)
    ensures d[..|d|] == d && |Encode(fs + [Field(key, Bin(t, d))])| == BufferAt(fs, key) + |d| + 1
  {
    ShrunkLayout(fs, key, t, d, |d|);
  }

  method ShrinkLast(doc: array<Byte>, buf: nat, oldBinlen: nat, binlen: nat, ghost fs: seq<Field>,
                    ghost key: seq<Byte>, ghost t: Byte, ghost d: seq<Byte>)
    requires Good(fs + [Field(key, Bin(t, d))]) && Holds(doc, fs + [Field(key, Bin(t, d))])
    requires buf == BufferAt(fs, key) && binlen < oldBinlen == |d|
    modifies doc
    ensures Holds(doc, fs + [Field(key, Bin(t, d[..binlen]))])
    ensures |Encode(fs + [Field(key, Bin(t, d[..binlen]))])| == buf + binlen + 1
  {
    ghost var all := fs + [Field(key, Bin(t, d))];
    LengthPrefix(all);
    SameLength(fs, key, t, d);
    SameLength(fs, key, t, d[..binlen]);
    WriteShrunk(doc, buf, oldBinlen, binlen, Encode(all));
    ShrunkLayout(fs, key, t, d, binlen);
  }

  lemma Reassembled(s: seq<Byte>, i: nat, last: nat)
    requires 4 <= i && i + 4 <= last && |s| == last + 1
    ensures s == s[..4] + s[4..i] + s[i..i + 4] + s[i + 4..last] + [s[last]]
  {
  }

  method WriteShrunk(doc: array<Byte>, buf: nat, oldBinlen: nat, binlen: nat, ghost e: seq<Byte>)
    requires |e| <= doc.Length && doc[..|e|] == e && |e| < TWO_31
    requires 9 <= buf && buf + oldBinlen + 1 == |e| && binlen < oldBinlen
    requires e[..4] == PutInt(|e|)
    modifies doc
    ensures doc[..buf + binlen + 1] ==
            PutInt(buf + binlen + 1) + e[4..buf - 5] + PutInt(binlen) + e[buf - 1..buf + binlen] + [0]
  {
    ghost var last := buf + binlen;
    WriteThree(doc, buf, oldBinlen, binlen, e);
    ghost var s := doc[..last + 1];
    Reassembled(s, buf - 5, last);
    assert s[..4] == doc[..4] && s[buf - 5..buf - 1] == doc[buf - 5..buf - 1];
    SameSlice(s, e, 4, buf - 5);
    SameSlice(s, e, buf - 1, last);
  }

  lemma SameSlice(s: seq<Byte>, e: seq<Byte>, from: nat, to: nat)
    requires from <= to <= |s| && to <= |e|
    requires forall i :: from <= i < to ==> s[i] == e[i]
    ensures s[from..to] == e[from..to]
  {
  }

  /** The new terminator, the new length of the binary and the new length of the document. */
  method WriteThree(doc: array<Byte>, buf: nat, oldBinlen: nat, binlen: nat, ghost e: seq<Byte>)
    requires |e| <= doc.Length && doc[..|e|] == e && |e| < TWO_31
    requires 9 <= buf && buf + oldBinlen + 1 == |e| && binlen < oldBinlen
    requires e[..4] == PutInt(|e|)
    modifies doc
    ensures doc[..4] == PutInt(buf + binlen + 1) && doc[buf - 5..buf - 1] == PutInt(binlen)
    ensures doc[buf + binlen] == 0
    ensures forall i :: 4 <= i < buf - 5 || buf - 1 <= i < buf + binlen ==> doc[i] == e[i]
  {
    assert forall i :: 0 <= i < |e| ==> doc[i] == doc[..|e|][i] == e[i];
    doc[buf + binlen] := 0;
    WriteInt(doc, buf - 5, binlen);
    GetPut(|e|);
    assert doc[..4] == e[..4];
    var oldDoclen := GetInt(doc[..4]);
    WriteInt(doc, 0, oldDoclen - (oldBinlen - binlen));
  }

  // -------------------------------------------------------------- a reply of bytes just read

  /** Bytes stored into a binary's buffer become its contents. */
  method Fill(doc: array<Byte>, buf: nat, content: seq<Byte>, ghost fs: seq<Field>, ghost key: seq<Byte>, ghost n: nat)
    requires |content| <= n && buf == BufferAt(fs, key)
    requires Holds(doc, fs + [Field(key, Bin(0, Blank(n)))])
    modifies doc
    ensures Holds(doc, fs + [Field(key, Bin(0, content + Blank(n - |content|)))])
    ensures |Encode(fs + [Field(key, Bin(0, content + Blank(n - |content|)))])| == buf + n + 1
  {
    ghost var was := Encode(fs + [Field(key, Bin(0, Blank(n)))]);
    ghost var now := Encode(fs + [Field(key, Bin(0, content + Blank(n - |content|)))]);
    FilledLayout(fs, key, n, content);
    StoreContent(doc, buf, content, was, now);
  }

  method StoreContent(doc: array<Byte>, buf: nat, content: seq<Byte>, ghost was: seq<Byte>, ghost now: seq<Byte>)
    requires |was| == |now| <= doc.Length && doc[..|was|] == was && buf + |content| <= |was|
    requires forall i :: 0 <= i < |now| ==>
               now[i] == if buf <= i < buf + |content| then content[i - buf] else was[i]
    modifies doc
    ensures doc[..|now|] == now
  {
    assert forall i :: 0 <= i < |was| ==> doc[i] == doc[..|was|][i] == was[i];
    forall i | 0 <= i < |content| {
      doc[buf + i] := content[i];
    }
  }

  lemma FilledLayout(fs: seq<Field>, key: seq<Byte>, n: nat, content: seq<Byte>)
    requires |content| <= n
    ensures var buf := BufferAt(fs, key);
            var was := Encode(fs + [Field(key, Bin(0, Blank(n)))]);
            var now := Encode(fs + [Field(key, Bin(0, content + Blank(n - |content|)))]);
            |was| == |now| == buf + n + 1
            && forall i :: 0 <= i < |now| ==>
                 now[i] == if buf <= i < buf + |content| then content[i - buf] else was[i]
  {
    var filled := content + Blank(n - |content|);
    BinLayout(fs, key, 0, Blank(n));
    BinLayout(fs, key, 0, filled);
    var front := PutInt(BufferAt(fs, key) + n + 1) + (EncodeBody(fs) + BinHead(key)) + PutInt(n);
    assert front + ([0] + Blank(n)) + [0] == (front + [0]) + (Blank(n) + [0]);
    assert front + ([0] + filled) + [0] == (front + [0]) + (filled + [0]);
  }

  const DATA: seq<Byte> := [0x64, 0x61, 0x74, 0x61]
  const LENGTH: seq<Byte> := [0x6c, 0x65, 0x6e, 0x67, 0x74, 0x68]

  lemma ReadReplyNames()
    ensures DATA == Ascii("data") && LENGTH == Ascii("length")
  {
  }

  lemma SingleIsGood(key: seq<Byte>, v: Value)
    requires NoNul(key) && GoodValue(v) && |key| + |EncodeValue(v)| < 0x7fff_0000
    ensures var empty: seq<Field> := []; Good(empty + [Field(key, v)])
  {
    var empty: seq<Field> := [];
    GoodAppend(empty, Field(key, v));
    EncodeAppend(empty, Field(key, v));
    FieldSize(Field(key, v));
  }

  /** The reply to `fs.read`: room is made for `len` bytes, `content` is what the read returned,
      and after shrinking the buffer still has room for the length element. */
  method ReadReply(len: nat, content: seq<Byte>) returns (result: array<Byte>)
    requires |content| <= len < 0x4000_0000
    ensures Holds(result, [Field(DATA, Bin(0, content)), Field(LENGTH, Int32(|content|))])
  {
    var n1, unused := SetBinary(null, DATA, len, []);
    var n2 := SetInt32(null, LENGTH, 0, []);
    FieldSize(Field(DATA, Bin(0, Blank(len))));
    FieldSize(Field(LENGTH, Int32(0)));
    result := new Byte[5 + n1 + n2](_ => 0);
    CreateEmpty(result);
    var m, buf := SetBinary(result, DATA, len, []);
    var empty: seq<Field> := [];
    ghost var filled := content + Blank(len - |content|);
    assert empty + [Field(DATA, Bin(0, Blank(len)))] + [] == empty + [Field(DATA, Bin(0, Blank(len)))];
    Fill(result, buf, content, empty, DATA, len);
    assert empty + [Field(DATA, Bin(0, filled))] + [] == empty + [Field(DATA, Bin(0, filled))];
    SingleIsGood(DATA, Bin(0, filled));
    var shrunk := ShrinkBinary(result, buf, |content|, empty, DATA, 0, filled, []);
    assert filled[..|content|] == content;
    ghost var one := empty + [Field(DATA, Bin(0, content))];
    FieldSize(Field(LENGTH, Int32(|content|)));
    var k := SetInt32(result, LENGTH, |content|, one);
    assert one + [Field(LENGTH, Int32(|content|))] == [Field(DATA, Bin(0, content)), Field(LENGTH, Int32(|content|))];
  }

  // -------------------------------------------------------------------------------- copying

  /** Appends, under a new name, the element of `doc2` at `offset`; only measures if `doc1` is
      absent, and does nothing if the offset says that there is no such element. */
  method SetElement(doc1: array?<Byte>, key: seq<Byte>, doc2: array?<Byte>, offset: int,
                    ghost fs1: seq<Field>, ghost fs2: seq<Field>, ghost j: nat) returns (n: nat)
    requires Names(doc2, offset, fs2, j) && (doc1 != null ==> doc1 != doc2)
    requires Present(doc2, offset) ==> Room(doc1, fs1, Field(key, fs2[j].value))
    modifies Frame(doc1)
    ensures !Present(doc2, offset) ==> n == 0 && (doc1 != null ==> doc1[..] == old(doc1[..]))
    ensures Present(doc2, offset) ==> n == |EncodeField(Field(key, fs2[j].value))|
    ensures Present(doc2, offset) && doc1 != null ==>
              Holds(doc1, fs1 + [Field(key, fs2[j].value)])
              && |Encode(fs1 + [Field(key, fs2[j].value)])| == |Encode(fs1)| + n
  {
    if doc2 == null || offset < 4 {
      return 0;
    }
    ElementPieces(fs2, j);
    ValueBytes(fs2, j);
    ElementAt(fs2, j);
    FieldSize(fs2[j]);
    var end2 := ReadLength(doc2, fs2);
    var bytes := doc2[..end2];
    var kind := bytes[offset];
    var data2 := offset + 1 + NulAt(bytes[offset + 1..]) + 1;
    var next := SkipValue(bytes, kind, data2, fs2, j);
    n := SetSubelement(doc1, key, kind, bytes[data2..next], fs1, fs2[j].value);
  }
}
