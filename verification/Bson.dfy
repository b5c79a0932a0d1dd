/** BSON documents: their bytes, and a parser that moves from element to element by measuring.
    (BSON specification 1.1, "Specification" grammar.) */
module Bson {
  import opened Bytes
  import opened Options

  datatype Field = Field(key: seq<Byte>, value: Value)

  /** `Fixed` stands for the kinds of a fixed size that have no setter here, `Text` for the
      other kinds laid out like a string. */
  datatype Value =
    | Str(text: seq<Byte>)
    | Doc(fields: seq<Field>)
    | Arr(fields: seq<Field>)
    | Bin(subtype: Byte, data: seq<Byte>)
    | Boolean(on: bool)
    | Null
    | Int32(n: int)
    | Fixed(kind: Byte, bytes: seq<Byte>)
    | Text(kind: Byte, text: seq<Byte>)
    | Regex(pattern: seq<Byte>, options: seq<Byte>)
    | Pointer(name: seq<Byte>, id: seq<Byte>)

  // ------------------------------------------------------------------------------ printing

  function Tag(v: Value): Byte {
    match v
    case Str(_) => 0x02
    case Doc(_) => 0x03
    case Arr(_) => 0x04
    case Bin(_, _) => 0x05
    case Boolean(_) => 0x08
    case Null => 0x0a
    case Int32(_) => 0x10
    case Fixed(k, _) => k
    case Text(k, _) => k
    case Regex(_, _) => 0x0b
    case Pointer(_, _) => 0x0c
  }

  function Counted(s: seq<Byte>): seq<Byte> {
    PutInt(|s| + 1) + s + [0]
  }

  function EncodeValue(v: Value): seq<Byte>
    decreases v, 1
  {
    match v
    case Str(s) => Counted(s)
    case Doc(fs) => Wrap(EncodeBody(fs))
    case Arr(fs) => Wrap(EncodeBody(fs))
    case Bin(t, data) => PutInt(|data|) + [t] + data
    case Boolean(on) => if on then [1] else [0]
    case Null => []
    case Int32(n) => PutInt(n)
    case Fixed(_, bytes) => bytes
    case Text(_, s) => Counted(s)
    case Regex(p, o) => p + [0] + o + [0]
    case Pointer(s, id) => Counted(s) + id
  }

  function EncodeField(f: Field): (b: seq<Byte>)
    ensures |b| >= 2
    decreases f, 2
  {
    [Tag(f.value)] + f.key + [0] + EncodeValue(f.value)
  }

  function EncodeBody(fs: seq<Field>): seq<Byte>
    decreases fs, 0
  {
    if fs == [] then [] else EncodeField(fs[0]) + EncodeBody(fs[1..])
  }

  /** A body with its length in front and its terminator behind. */
  function Wrap(body: seq<Byte>): seq<Byte> {
    PutInt(|body| + 5) + body + [0]
  }

  function Encode(fs: seq<Field>): seq<Byte> {
    Wrap(EncodeBody(fs))
  }

  function FixedSize(kind: Byte): int {
    if kind == 0x01 || kind == 0x09 || kind == 0x11 || kind == 0x12 then 8
    else if kind == 0x06 then 0
    else if kind == 0x07 then 12
    else if kind == 0x13 then 16
    else -1
  }

  predicate NoNul(s: seq<Byte>) {
    0 !in s
  }

  predicate GoodValue(v: Value)
    decreases v, 1
  {
    match v
    case Doc(fs) => GoodFields(fs)
    case Arr(fs) => GoodFields(fs)
    case Int32(n) => IsInt32(n)
    case Fixed(k, bytes) => FixedSize(k) == |bytes|
    case Text(k, s) => k == 0x0d || k == 0x0e
    case Regex(p, o) => NoNul(p) && NoNul(o)
    case Pointer(s, id) => |id| == 12
    case _ => true
  }

  /** What can be written as BSON at all: keys without NUL, integers of 32 bits, and so on. */
  predicate GoodFields(fs: seq<Field>)
    decreases fs, 0
  {
    fs == [] || (NoNul(fs[0].key) && GoodValue(fs[0].value) && GoodFields(fs[1..]))
  }

  /** Small enough for the 32-bit length field. */
  predicate Good(fs: seq<Field>) {
    GoodFields(fs) && |Encode(fs)| < TWO_31
  }

  // ------------------------------------------------------------------------------- parsing

  /** Where the first NUL is, or the length if there is none: `strnlen`. */
  function NulAt(b: seq<Byte>): (n: nat)
    ensures n <= |b| && NoNul(b[..n]) && (n < |b| ==> b[n] == 0)
  {
    if b == [] || b[0] == 0 then 0
    else
      var n := 1 + NulAt(b[1..]);
      assert b[..n] == [b[0]] + b[1..][..n - 1];
      n
  }

  predicate HasLength(kind: Byte) {
    kind == 0x02 || kind == 0x0d || kind == 0x0e || kind == 0x0f
    || kind == 0x03 || kind == 0x04 || kind == 0x05 || kind == 0x0c
  }

  /** The number of bytes of a value of kind `kind` that starts at `data` and may run up to the
      end of the document, or -1. */
  function Measure(kind: Byte, data: seq<Byte>): int
    requires HasLength(kind) ==> |data| >= 4
  {
    if FixedSize(kind) >= 0 then FixedSize(kind)
    else if HasLength(kind) then
      var len := GetInt(data[..4]);
      if len < 0 then -1
      else if kind == 0x03 || kind == 0x04 then len
      else if kind == 0x05 then len + 5
      else if kind == 0x0c then len + 16
      else len + 4
    else if kind == 0x08 then 1
    else if kind == 0x0a then 0
    else if kind == 0x10 then 4
    else if kind == 0x0b then
      var n := NulAt(data) + 1;
      if n >= |data| then -1
      else
        var m := n + NulAt(data[n..]) + 1;
        if m >= |data| then -1 else m
    else -1
  }

  /** The sizes kind by kind, as the specification has them. */
  lemma MeasureByKind(kind: Byte, data: seq<Byte>)
    requires |data| >= 4
    ensures var len := GetInt(data[..4]);
            var m := Measure(kind, data);
            && (kind in {0x01, 0x09, 0x11, 0x12} ==> m == 8)
            && (kind == 0x07 ==> m == 12) && (kind == 0x13 ==> m == 16)
            && (kind == 0x08 ==> m == 1) && (kind == 0x10 ==> m == 4) && (kind in {0x06, 0x0a} ==> m == 0)
            && (kind in {0x02, 0x0d, 0x0e, 0x0f} ==> m == if len < 0 then -1 else 4 + len)
            && (kind in {0x03, 0x04} ==> m == if len < 0 then -1 else len)
            && (kind == 0x05 ==> m == if len < 0 then -1 else 4 + 1 + len)
            && (kind == 0x0c ==> m == if len < 0 then -1 else 4 + len + 12)
            && (kind == 0x00 || kind > 0x13 ==> m == -1)
            && m >= -1
  {
  }

  function ParseCounted(b: seq<Byte>): Option<seq<Byte>> {
    if |b| >= 5 && GetInt(b[..4]) == |b| - 4 && b[|b| - 1] == 0 then Some(b[4..|b| - 1]) else None
  }

  function ParseValue(kind: Byte, b: seq<Byte>): Option<Value>
    decreases |b|, 1
  {
    if kind == 0x02 then
      match ParseCounted(b) case Some(s) => Some(Str(s)) case None => None
    else if kind == 0x0d || kind == 0x0e then
      match ParseCounted(b) case Some(s) => Some(Text(kind, s)) case None => None
    else if kind == 0x03 then
      match ParseDoc(b) case Some(fs) => Some(Doc(fs)) case None => None
    else if kind == 0x04 then
      match ParseDoc(b) case Some(fs) => Some(Arr(fs)) case None => None
    else if kind == 0x05 then
      if |b| >= 5 && GetInt(b[..4]) == |b| - 5 then Some(Bin(b[4], b[5..])) else None
    else if kind == 0x08 then
      if b == [0] then Some(Boolean(false)) else if b == [1] then Some(Boolean(true)) else None
    else if kind == 0x0a then if b == [] then Some(Null) else None
    else if kind == 0x10 then if |b| == 4 then Some(Int32(GetInt(b))) else None
    else if kind == 0x0b then
      var n := NulAt(b);
      if n >= |b| then None
      else
        var m := NulAt(b[n + 1..]);
        if n + 1 + m + 1 != |b| then None else Some(Regex(b[..n], b[n + 1..n + 1 + m]))
    else if kind == 0x0c then
      if |b| < 12 then None
      else
        match ParseCounted(b[..|b| - 12])
        case Some(s) => Some(Pointer(s, b[|b| - 12..]))
        case None => None
    else if FixedSize(kind) == |b| then Some(Fixed(kind, b))
    else None
  }

  function ParseDoc(b: seq<Byte>): Option<seq<Field>>
    decreases |b|, 0
  {
    if |b| >= 5 && GetInt(b[..4]) == |b| then ParseFields(b[4..]) else None
  }

  /** Elements up to the terminator, which must be the last byte. */
  function ParseFields(b: seq<Byte>): Option<seq<Field>>
    decreases |b|, 2
  {
    if b == [] then None
    else if b[0] == 0 then if |b| == 1 then Some([]) else None
    else
      var n := NulAt(b[1..]);
      if n + 2 >= |b| then None
      else
        var data := b[n + 2..];
        if HasLength(b[0]) && |data| < 4 then None
        else
          var len := Measure(b[0], data);
          if len < 0 || len >= |data| then None
          else
            match ParseValue(b[0], data[..len])
            case None => None
            case Some(v) =>
              match ParseFields(data[len..])
              case None => None
              case Some(fs) => Some([Field(b[1..n + 1], v)] + fs)
  }

  // ------------------------------------------------------------------------- round trip

  lemma NulAtOf(s: seq<Byte>, tail: seq<Byte>)
    requires NoNul(s)
    ensures NulAt(s + [0] + tail) == |s|
  {
    var b := s + [0] + tail;
    assert b[|s|] == 0;
    assert forall i :: 0 <= i < |s| ==> b[i] == s[i] && s[i] in s;
  }

  lemma {:induction false} CountedParses(s: seq<Byte>)
    requires |s| + 1 < TWO_31
    ensures ParseCounted(Counted(s)) == Some(s)
  {
    GetPut(|s| + 1);
    var b := Counted(s);
    assert b[..4] == PutInt(|s| + 1);
    assert b[4..|b| - 1] == s;
  }

  lemma PrefixInt(n: int, rest: seq<Byte>)
    requires IsInt32(n)
    ensures GetInt((PutInt(n) + rest)[..4]) == n
  {
    GetPut(n);
    assert (PutInt(n) + rest)[..4] == PutInt(n);
  }

  lemma RegexMeasure(p: seq<Byte>, o: seq<Byte>, tail: seq<Byte>)
    requires NoNul(p) && NoNul(o) && tail != []
    ensures Measure(0x0b, p + [0] + o + [0] + tail) == |p| + |o| + 2
  {
    var b := p + [0] + o + [0] + tail;
    NulAtOf(p, o + [0] + tail);
    assert b == p + [0] + (o + [0] + tail);
    assert b[|p| + 1..] == o + [0] + tail;
    NulAtOf(o, tail);
  }

  lemma NulAtNone(s: seq<Byte>)
    requires NoNul(s)
    ensures NulAt(s) == |s|
  {
    if s != [] {
      assert s[0] in s && forall b :: b in s[1..] ==> b in s;
      NulAtNone(s[1..]);
    }
  }

  /** A regular expression that the document ends in, or right behind, is not valid. */
  lemma RegexCutOff(p: seq<Byte>, o: seq<Byte>)
    requires NoNul(p) && NoNul(o)
    ensures Measure(0x0b, p) == -1
    ensures Measure(0x0b, p + [0] + o) == -1
    ensures Measure(0x0b, p + [0] + o + [0]) == -1
  {
    NulAtNone(p);
    NulAtNone(o);
    NulAtOf(p, o);
    NulAtOf(p, o + [0]);
    NulAtOf(o, []);
    assert o + [0] + [] == o + [0];
    assert p + [0] + (o + [0]) == p + [0] + o + [0];
    assert (p + [0] + o)[|p| + 1..] == o && (p + [0] + o + [0])[|p| + 1..] == o + [0];
  }

  lemma {:induction false} CountedMeasure(s: seq<Byte>, tail: seq<Byte>)
    requires |s| + 1 < TWO_31
    ensures GetInt((Counted(s) + tail)[..4]) == |s| + 1
  {
    PrefixInt(|s| + 1, s + [0] + tail);
    assert Counted(s) + tail == PutInt(|s| + 1) + (s + [0] + tail);
  }

  lemma {:induction false} BinMeasure(t: Byte, bytes: seq<Byte>, tail: seq<Byte>)
    requires |bytes| < TWO_31
    ensures GetInt((PutInt(|bytes|) + [t] + bytes + tail)[..4]) == |bytes|
  {
    PrefixInt(|bytes|, [t] + bytes + tail);
    assert PutInt(|bytes|) + [t] + bytes + tail == PutInt(|bytes|) + ([t] + bytes + tail);
  }

  /** Measuring finds exactly the bytes of every well-formed value, whatever follows it. */
  lemma {:induction false} MeasureIsExact(v: Value, tail: seq<Byte>)
    requires GoodValue(v) && |EncodeValue(v)| < TWO_31 && tail != []
    ensures HasLength(Tag(v)) ==> |EncodeValue(v)| >= 4
    ensures Measure(Tag(v), EncodeValue(v) + tail) == |EncodeValue(v)|
  {
    match v
    case Str(s) => CountedMeasure(s, tail);
    case Text(_, s) => CountedMeasure(s, tail);
    case Pointer(s, id) =>
      CountedMeasure(s, id + tail);
      assert Counted(s) + id + tail == Counted(s) + (id + tail);
    case Doc(fs) => WrapMeasure(EncodeBody(fs), tail);
    case Arr(fs) => WrapMeasure(EncodeBody(fs), tail);
    case Bin(t, bytes) => BinMeasure(t, bytes, tail);
    case Regex(p, o) => RegexMeasure(p, o, tail);
    case _ =>
  }

  lemma {:induction false} WrapMeasure(body: seq<Byte>, tail: seq<Byte>)
    requires |body| + 5 < TWO_31
    ensures GetInt((Wrap(body) + tail)[..4]) == |body| + 5
  {
    PrefixInt(|body| + 5, body + [0] + tail);
    assert Wrap(body) + tail == PutInt(|body| + 5) + (body + [0] + tail);
  }

  lemma {:induction false} BinParses(t: Byte, bytes: seq<Byte>)
    requires |bytes| < TWO_31
    ensures ParseValue(0x05, PutInt(|bytes|) + [t] + bytes) == Some(Bin(t, bytes))
  {
    var b := PutInt(|bytes|) + [t] + bytes;
    GetPut(|bytes|);
    assert b[..4] == PutInt(|bytes|) && b[4] == t && b[5..] == bytes;
  }

  lemma RegexPieces(p: seq<Byte>, o: seq<Byte>)
    requires NoNul(p) && NoNul(o)
    ensures var b := p + [0] + o + [0];
            NulAt(b) == |p| && NulAt(b[|p| + 1..]) == |o|
            && b[..|p|] == p && b[|p| + 1..|p| + 1 + |o|] == o
  {
    var b := p + [0] + o + [0];
    assert b == p + [0] + (o + [0]);
    NulAtOf(p, o + [0]);
    assert b[|p| + 1..] == o + [0] + [];
    NulAtOf(o, []);
  }

  lemma {:induction false} RegexParses(p: seq<Byte>, o: seq<Byte>)
    requires NoNul(p) && NoNul(o)
    ensures ParseValue(0x0b, p + [0] + o + [0]) == Some(Regex(p, o))
  {
    RegexPieces(p, o);
  }

  lemma {:induction false} PointerParses(s: seq<Byte>, id: seq<Byte>)
    requires |id| == 12 && |s| + 1 < TWO_31
    ensures ParseValue(0x0c, Counted(s) + id) == Some(Pointer(s, id))
  {
    var b := Counted(s) + id;
    CountedParses(s);
    assert b[..|b| - 12] == Counted(s) && b[|b| - 12..] == id;
  }

  lemma {:induction false} ValueParses(v: Value)
    requires GoodValue(v) && |EncodeValue(v)| < TWO_31
    ensures ParseValue(Tag(v), EncodeValue(v)) == Some(v)
    decreases v, 1
  {
    match v
    case Str(s) => CountedParses(s);
    case Text(_, s) => CountedParses(s);
    case Pointer(s, id) => PointerParses(s, id);
    case Doc(fs) => DocParses(fs);
    case Arr(fs) => DocParses(fs);
    case Bin(t, bytes) => BinParses(t, bytes);
    case Int32(n) => GetPut(n);
    case Regex(p, o) => RegexParses(p, o);
    case _ =>
  }

  lemma {:induction false} DocParses(fs: seq<Field>)
    requires Good(fs)
    ensures ParseDoc(Encode(fs)) == Some(fs)
    decreases fs, 2
  {
    var b := Encode(fs);
    WrapMeasure(EncodeBody(fs), []);
    assert b + [] == b;
    assert b[4..] == EncodeBody(fs) + [0];
    FieldsParse(fs);
  }

  /** Where the pieces of an element are. */
  lemma FieldPieces(f: Field, tail: seq<Byte>)
    requires NoNul(f.key)
    ensures var b := EncodeField(f) + tail;
            var n := |f.key|;
            && b[0] == Tag(f.value) && NulAt(b[1..]) == n && b[1..n + 1] == f.key
            && b[n + 2..] == EncodeValue(f.value) + tail
  {
    var v := EncodeValue(f.value);
    var b := EncodeField(f) + tail;
    assert b[1..] == f.key + [0] + (v + tail);
    NulAtOf(f.key, v + tail);
  }

  lemma TagIsNotNul(v: Value)
    requires GoodValue(v)
    ensures Tag(v) != 0
  {
  }

  /** The kinds as the BSON specification numbers them. */
  lemma Tags(text: seq<Byte>, fs: seq<Field>, b: bool, n: int, t: Byte)
    ensures Tag(Str(text)) == 0x02 && Tag(Doc(fs)) == 0x03 && Tag(Arr(fs)) == 0x04 && Tag(Bin(t, text)) == 0x05
    ensures Tag(Boolean(b)) == 0x08 && Tag(Null) == 0x0a && Tag(Regex(text, text)) == 0x0b
    ensures Tag(Pointer(text, text)) == 0x0c && Tag(Int32(n)) == 0x10
  {
  }

  lemma EncodeOne(f: Field)
    ensures Encode([f]) == PutInt(|EncodeField(f)| + 5) + EncodeField(f) + [0]
  {
    assert [f][1..] == [];
    assert EncodeBody([]) == [] && EncodeField(f) + [] == EncodeField(f);
  }

  /** The specification's own example, {"hello": "world"}. */
  lemma HelloWorld(hello: seq<Byte>, world: seq<Byte>)
    requires hello == Ascii("hello") && world == Ascii("world")
    ensures Encode([Field(hello, Str(world))]) ==
            [0x16, 0, 0, 0] + [0x02] + hello + [0] + [6, 0, 0, 0] + world + [0] + [0]
  {
    var f := Field(hello, Str(world));
    EncodeOne(f);
    HelloElement(hello, world);
    assert PutInt(22) == [0x16, 0, 0, 0];
  }

  lemma HelloElement(hello: seq<Byte>, world: seq<Byte>)
    requires |hello| == 5 && |world| == 5
    ensures var b := EncodeField(Field(hello, Str(world)));
            |b| == 17 && b == [0x02] + hello + [0] + [6, 0, 0, 0] + world + [0]
  {
    assert PutInt(6) == [6, 0, 0, 0];
  }

  /** One element of every kind that has a setter. */
  lemma ElementBytes(k: Byte)
    ensures EncodeField(Field([k], Int32(-2))) == [0x10, k, 0, 0xfe, 0xff, 0xff, 0xff]
    ensures EncodeField(Field([k], Boolean(true))) == [0x08, k, 0, 1]
    ensures EncodeField(Field([k], Boolean(false))) == [0x08, k, 0, 0]
    ensures EncodeField(Field([k], Null)) == [0x0a, k, 0]
    ensures EncodeField(Field([k], Bin(0, [7, 8]))) == [0x05, k, 0, 2, 0, 0, 0, 0, 7, 8]
    ensures EncodeField(Field([k], Str([7, 8]))) == [0x02, k, 0, 3, 0, 0, 0, 7, 8, 0]
    ensures EncodeField(Field([k], Doc([]))) == [0x03, k, 0, 5, 0, 0, 0, 0]
    ensures EncodeField(Field([k], Arr([]))) == [0x04, k, 0, 5, 0, 0, 0, 0]
  {
    assert EncodeBody([]) == [] && Wrap([]) == [5, 0, 0, 0, 0];
    assert PutInt(-2) == [0xfe, 0xff, 0xff, 0xff];
  }

  lemma {:induction false} FieldParses(f: Field, tail: seq<Byte>)
    requires NoNul(f.key) && GoodValue(f.value) && |EncodeValue(f.value)| < TWO_31 && tail != []
    requires ParseValue(Tag(f.value), EncodeValue(f.value)) == Some(f.value)
    ensures ParseFields(EncodeField(f) + tail) ==
            match ParseFields(tail) case None => None case Some(fs) => Some([f] + fs)
  {
    var v := EncodeValue(f.value);
    FieldPieces(f, tail);
    TagIsNotNul(f.value);
    MeasureIsExact(f.value, tail);
    assert (v + tail)[..|v|] == v && (v + tail)[|v|..] == tail;
  }

  lemma BodySplit(fs: seq<Field>)
    requires fs != []
    ensures EncodeBody(fs) + [0] == EncodeField(fs[0]) + (EncodeBody(fs[1..]) + [0])
    ensures |EncodeValue(fs[0].value)| + |EncodeBody(fs[1..])| < |EncodeBody(fs)|
  {
  }

  lemma {:induction false} FieldsParse(fs: seq<Field>)
    requires GoodFields(fs) && |EncodeBody(fs)| + 5 < TWO_31
    ensures ParseFields(EncodeBody(fs) + [0]) == Some(fs)
    decreases fs, 0
  {
    if fs == [] {
      assert EncodeBody(fs) + [0] == [0];
    } else {
      BodySplit(fs);
      var f, rest := fs[0], fs[1..];
      var tail := EncodeBody(rest) + [0];
      FieldsParse(rest);
      ValueParses(f.value);
      FieldParses(f, tail);
      assert [f] + rest == fs;
    }
  }

  /** For every document, at every depth, parsing by measuring gives back exactly the keys, the
      kinds and the values that were written, in order. */
  lemma ParseAfterEncode(fs: seq<Field>)
    requires Good(fs)
    ensures ParseDoc(Encode(fs)) == Some(fs)
  {
    DocParses(fs);
  }

  // ------------------------------------------------------------------ the other direction

  lemma {:induction false} CountedPrints(b: seq<Byte>)
    requires ParseCounted(b).Some?
    ensures Counted(ParseCounted(b).value) == b
  {
    PutGet(b[..4]);
    var s := b[4..|b| - 1];
    assert b == b[..4] + s + [b[|b| - 1]];
  }

  lemma {:induction false} BinPrints(b: seq<Byte>)
    requires |b| >= 5 && GetInt(b[..4]) == |b| - 5
    ensures EncodeValue(Bin(b[4], b[5..])) == b
  {
    PutGet(b[..4]);
    assert b == b[..4] + [b[4]] + b[5..];
  }

  lemma {:induction false} PointerPrints(b: seq<Byte>)
    requires |b| >= 12 && ParseCounted(b[..|b| - 12]).Some?
    ensures EncodeValue(Pointer(ParseCounted(b[..|b| - 12]).value, b[|b| - 12..])) == b
  {
    CountedPrints(b[..|b| - 12]);
  }

  lemma TwoStrings(b: seq<Byte>, n: nat, m: nat)
    requires n + 1 + m + 1 == |b| && b[n] == 0 && b[n + 1 + m] == 0
    ensures b == b[..n] + [0] + b[n + 1..n + 1 + m] + [0]
  {
  }

  lemma {:induction false} RegexPrints(b: seq<Byte>, v: Value)
    requires ParseValue(0x0b, b) == Some(v)
    ensures EncodeValue(v) == b && GoodValue(v)
  {
    var n := NulAt(b);
    var rest := b[n + 1..];
    var m := NulAt(rest);
    assert rest[m] == b[n + 1 + m];
    assert b[n + 1..n + 1 + m] == rest[..m];
    TwoStrings(b, n, m);
  }

  lemma {:induction false} ValuePrints(kind: Byte, b: seq<Byte>, v: Value)
    requires ParseValue(kind, b) == Some(v)
    ensures EncodeValue(v) == b && Tag(v) == kind && GoodValue(v)
    decreases |b|, 1
  {
    if kind == 0x02 || kind == 0x0d || kind == 0x0e {
      CountedPrints(b);
    } else if kind == 0x03 || kind == 0x04 {
      DocPrints(b, v.fields);
    } else if kind == 0x05 {
      BinPrints(b);
    } else if kind == 0x0b {
      RegexPrints(b, v);
    } else if kind == 0x0c {
      PointerPrints(b);
    } else if kind == 0x10 {
      PutGet(b);
    }
  }

  lemma Rewrap(b: seq<Byte>, body: seq<Byte>)
    requires |b| >= 5 && PutInt(|b|) == b[..4] && b[4..] == body + [0]
    ensures Wrap(body) == b
  {
    assert b == b[..4] + b[4..];
    assert PutInt(|b|) + (body + [0]) == PutInt(|b|) + body + [0];
  }

  lemma {:induction false} DocPrints(b: seq<Byte>, fs: seq<Field>)
    requires ParseDoc(b) == Some(fs)
    ensures Encode(fs) == b && GoodFields(fs)
    decreases |b|, 0
  {
    FieldsPrint(b[4..], fs);
    PutGet(b[..4]);
    Rewrap(b, EncodeBody(fs));
  }

  lemma FieldJoins(b: seq<Byte>, n: nat, len: nat)
    requires n + 2 < |b| && n == NulAt(b[1..]) && len < |b| - n - 2
    ensures b == [b[0]] + b[1..n + 1] + [0] + b[n + 2..][..len] + b[n + 2..][len..]
    ensures NoNul(b[1..n + 1])
  {
    assert b[1..n + 1] == b[1..][..n] && b[n + 1] == b[1..][n] == 0;
  }

  lemma ConsPrints(f: Field, rest: seq<Field>)
    ensures EncodeBody([f] + rest) + [0] == EncodeField(f) + (EncodeBody(rest) + [0])
    ensures GoodFields([f] + rest) <==> NoNul(f.key) && GoodValue(f.value) && GoodFields(rest)
  {
    assert ([f] + rest)[1..] == rest;
  }

  lemma {:induction false} FieldsPrint(b: seq<Byte>, fs: seq<Field>)
    requires ParseFields(b) == Some(fs)
    ensures EncodeBody(fs) + [0] == b && GoodFields(fs)
    decreases |b|, 2
  {
    if b[0] == 0 {
      assert b == [0];
    } else {
      var n := NulAt(b[1..]);
      var data := b[n + 2..];
      var len := Measure(b[0], data);
      var f := Field(b[1..n + 1], ParseValue(b[0], data[..len]).value);
      var rest := ParseFields(data[len..]).value;
      ValuePrints(b[0], data[..len], f.value);
      FieldsPrint(data[len..], rest);
      FieldJoins(b, n, len);
      assert b == EncodeField(f) + data[len..];
      ConsPrints(f, rest);
    }
  }

  /** And whatever the parser accepts is, byte for byte, what the printer makes of the result:
      no two byte strings stand for the same document. */
  lemma {:induction false} EncodeAfterParse(b: seq<Byte>, fs: seq<Field>)
    requires ParseDoc(b) == Some(fs)
    ensures Encode(fs) == b
  {
    DocPrints(b, fs);
  }
}
