/** Answering a request: the reply is measured, allocated to the byte and written; and every job
    ends by being freed once. (JSON-RPC 2.0, sections 4.1 and 5.) */
module RpcReply {
  import opened Bytes
  import opened Bson
  import opened BsonWriter
  import opened BsonReader
  import opened BsonEdit
  import opened Options

  const JSONRPC: seq<Byte> := [0x6a, 0x73, 0x6f, 0x6e, 0x72, 0x70, 0x63]
  const METHOD: seq<Byte> := [0x6d, 0x65, 0x74, 0x68, 0x6f, 0x64]
  const PARAMS: seq<Byte> := [0x70, 0x61, 0x72, 0x61, 0x6d, 0x73]
  const ID: seq<Byte> := [0x69, 0x64]
  const RESULT: seq<Byte> := [0x72, 0x65, 0x73, 0x75, 0x6c, 0x74]
  const ERROR: seq<Byte> := [0x65, 0x72, 0x72, 0x6f, 0x72]
  const CODE: seq<Byte> := [0x63, 0x6f, 0x64, 0x65]
  const VERSION: seq<Byte> := [0x32, 0x2e, 0x30]

  const PARSE_ERROR := -32700
  const INVALID_REQUEST := -32600
  const METHOD_NOT_FOUND := -32601
  const INTERNAL_ERROR := -32603

  lemma MemberNames()
    ensures JSONRPC == Ascii("jsonrpc") && METHOD == Ascii("method") && PARAMS == Ascii("params")
    ensures ID == Ascii("id") && RESULT == Ascii("result") && ERROR == Ascii("error")
    ensures CODE == Ascii("code") && VERSION == Ascii("2.0")
  {
  }

  /** The value of the first member called `key`. */
  function ValueOf(fs: seq<Field>, key: seq<Byte>): Option<Value> {
    var k := FirstIndex(fs, key);
    if k < 0 then None else Some(fs[k].value)
  }

  // ------------------------------------------------------------------------------ the reply

  /** What is to be answered: a result, possibly absent, or an error with or without its own
      document. */
  datatype Outcome =
    | Success(result: Option<seq<Field>>)
    | Failure(errno: int, error: Option<seq<Field>>)

  function OutcomeOf(document: Option<seq<Field>>, errno: int): Outcome {
    if errno == 0 then Success(document) else Failure(errno, document)
  }

  function ErrorDoc(errno: int): seq<Field> {
    [Field(CODE, Int32(errno))]
  }

  function LastField(o: Outcome): Field {
    match o
    case Success(Some(rs)) => Field(RESULT, Doc(rs))
    case Success(None) => Field(RESULT, Null)
    case Failure(_, Some(es)) => Field(ERROR, Doc(es))
    case Failure(errno, None) => Field(ERROR, Doc(ErrorDoc(errno)))
  }

  function Heading(id: Option<Value>): seq<Field> {
    [Field(JSONRPC, Str(VERSION))] + if id.Some? then [Field(ID, id.value)] else []
  }

  /** The members of a response object. */
  function Reply(id: Option<Value>, o: Outcome): seq<Field> {
    Heading(id) + [LastField(o)]
  }

  ghost predicate GoodOutcome(o: Outcome) {
    match o
    case Success(document) => document.Some? ==> GoodFields(document.value)
    case Failure(errno, document) => IsInt32(errno) && (document.Some? ==> GoodFields(document.value))
  }

  ghost predicate Sendable(id: Option<Value>, o: Outcome) {
    (id.Some? ==> GoodValue(id.value)) && GoodOutcome(o) && |Encode(Reply(id, o))| < TWO_31
  }

  lemma NamesHaveNoNul()
    ensures NoNul(JSONRPC) && NoNul(ID) && NoNul(RESULT) && NoNul(ERROR) && NoNul(CODE)
  {
  }

  lemma ReplyIsGood(id: Option<Value>, o: Outcome)
    requires Sendable(id, o)
    ensures Good(Reply(id, o))
  {
    NamesHaveNoNul();
    var empty: seq<Field> := [];
    var first := Field(JSONRPC, Str(VERSION));
    GoodAppend(empty, first);
    assert empty + [first] == [first];
    if id.Some? {
      GoodAppend([first], Field(ID, id.value));
    }
    if o.Failure? {
      GoodAppend(empty, Field(CODE, Int32(o.errno)));
      assert empty + ErrorDoc(o.errno) == ErrorDoc(o.errno);
    }
    GoodAppend(Heading(id), LastField(o));
  }

  lemma NamesDiffer()
    ensures JSONRPC != ID && JSONRPC != RESULT && JSONRPC != ERROR
    ensures ID != RESULT && ID != ERROR && RESULT != ERROR
  {
    assert JSONRPC[0] != ID[0] && JSONRPC[0] != RESULT[0] && JSONRPC[0] != ERROR[0];
    assert ID[0] != RESULT[0] && ID[0] != ERROR[0] && RESULT[0] != ERROR[0];
  }

  lemma ReplyMembers(id: Option<Value>, o: Outcome)
    ensures var r := Reply(id, o);
            r[0].key == JSONRPC && r[|r| - 1] == LastField(o)
            && |r| == (if id.Some? then 3 else 2) && (id.Some? ==> r[1] == Field(ID, id.value))
    ensures LastField(o).key == if o.Success? then RESULT else ERROR
  {
  }

  /** Whoever parses the reply finds the request's own id in it, kind and value, or none if the
      request had none; and a result or an error, never both. */
  lemma {:induction false} ReplyEchoesId(id: Option<Value>, o: Outcome)
    requires Sendable(id, o)
    ensures ParseDoc(Encode(Reply(id, o))) == Some(Reply(id, o))
    ensures var r := Reply(id, o);
            var at := FirstIndex(r, ID);
            (at >= 0 <==> id.Some?) && (at >= 0 ==> r[at].value == id.value)
    ensures FirstIndex(Reply(id, o), RESULT) >= 0 <==> o.Success?
    ensures FirstIndex(Reply(id, o), ERROR) >= 0 <==> o.Failure?
  {
    ReplyIsGood(id, o);
    ParseAfterEncode(Reply(id, o));
    NamesDiffer();
    ReplyMembers(id, o);
  }

  /** The reply is a response object with this id and, called `name`, this value. */
  ghost predicate Carries(reply: seq<Byte>, id: Option<Value>, name: seq<Byte>, v: Value) {
    var r := ParseDoc(reply);
    && r.Some?
    && ValueOf(r.value, Ascii("jsonrpc")) == Some(Str(Ascii("2.0")))
    && ValueOf(r.value, Ascii("id")) == id
    && ValueOf(r.value, name) == Some(v)
  }

  /** One with an error, and this code in it. */
  ghost predicate CarriesCode(reply: seq<Byte>, id: Option<Value>, code: int) {
    exists es :: Carries(reply, id, Ascii("error"), Doc(es)) && ValueOf(es, Ascii("code")) == Some(Int32(code))
  }

  /** After a success the document that the method returned, or null if it returned none; after a
      failure the document of the error, or one that holds its number. */
  ghost predicate CarriesOutcome(reply: seq<Byte>, id: Option<Value>, o: Outcome) {
    match o
    case Success(Some(rs)) => Carries(reply, id, Ascii("result"), Doc(rs))
    case Success(None) => Carries(reply, id, Ascii("result"), Null)
    case Failure(_, Some(es)) => Carries(reply, id, Ascii("error"), Doc(es))
    case Failure(errno, None) => CarriesCode(reply, id, errno)
  }

  lemma LastOfReply(id: Option<Value>, o: Outcome)
    ensures ValueOf(Reply(id, o), JSONRPC) == Some(Str(VERSION)) && ValueOf(Reply(id, o), ID) == id
    ensures ValueOf(Reply(id, o), LastField(o).key) == Some(LastField(o).value)
  {
    NamesDiffer();
    ReplyMembers(id, o);
  }

  /** Whoever parses the reply finds that in it. */
  lemma {:induction false} ReplyCarries(id: Option<Value>, o: Outcome)
    requires Sendable(id, o)
    ensures CarriesOutcome(Encode(Reply(id, o)), id, o)
  {
    ReplyEchoesId(id, o);
    LastOfReply(id, o);
    MemberNames();
    if o.Failure? && o.error.None? {
      assert ErrorDoc(o.errno)[0].key == CODE;
      assert Carries(Encode(Reply(id, o)), id, Ascii("error"), Doc(ErrorDoc(o.errno)));
    }
  }

  /** The 16 bytes set aside for an error document are enough for every code. */
  lemma ErrorDocFits(errno: int)
    ensures |Encode(ErrorDoc(errno))| == 15
  {
    var empty: seq<Field> := [];
    var f := Field(CODE, Int32(errno));
    assert empty + [f] == ErrorDoc(errno);
    EncodeAppend(empty, f);
    FieldSize(f);
  }

  lemma ReplySize(id: Option<Value>, o: Outcome)
    ensures |Encode([Field(JSONRPC, Str(VERSION))])| == 5 + |EncodeField(Field(JSONRPC, Str(VERSION)))|
    ensures |Encode(Heading(id))| == |Encode([Field(JSONRPC, Str(VERSION))])|
                                     + if id.Some? then |EncodeField(Field(ID, id.value))| else 0
    ensures |Encode(Reply(id, o))| == |Encode(Heading(id))| + |EncodeField(LastField(o))|
  {
    var empty: seq<Field> := [];
    var first := Field(JSONRPC, Str(VERSION));
    assert empty + [first] == [first];
    EncodeAppend(empty, first);
    if id.Some? {
      EncodeAppend([first], Field(ID, id.value));
    } else {
      assert Heading(id) == [first];
    }
    EncodeAppend(Heading(id), LastField(o));
  }

  // ------------------------------------------------------------------------------- writing it

  /** `document` is absent or holds `ds`. */
  ghost predicate DocIs(document: array?<Byte>, ds: Option<seq<Field>>)
    reads Frame(document)
  {
    (document != null <==> ds.Some?)
    && (document != null ==> Holds(document, ds.value) && |Encode(ds.value)| < TWO_31)
  }

  /** The id that `offset` names in the request. */
  ghost predicate IdIs(request: array?<Byte>, offset: int, fs: seq<Field>, j: nat, id: Option<Value>)
    reads Frame(request)
  {
    Names(request, offset, fs, j)
    && id == if Present(request, offset) then Some(fs[j].value) else None
  }

  /** The result or the error, or only its size if there is no `output`. `error` holds the error
      document when there is an error. */
  method SetLast(output: array?<Byte>, document: array?<Byte>, errno: int, error: array<Byte>,
                 ghost fs: seq<Field>, ghost ds: Option<seq<Field>>, ghost es: seq<Field>) returns (n: nat)
    requires DocIs(document, ds) && IsInt32(errno)
    requires output != null ==> output != document && output != error
    requires errno != 0 ==> Holds(error, es) && |Encode(es)| < TWO_31
                            && es == if ds.Some? then ds.value else ErrorDoc(errno)
    requires Room(output, fs, LastField(OutcomeOf(ds, errno)))
    modifies Frame(output)
    ensures n == |EncodeField(LastField(OutcomeOf(ds, errno)))|
    ensures output != null ==> Holds(output, fs + [LastField(OutcomeOf(ds, errno))])
  {
    if errno == 0 {
      if document != null {
        n := SetSubdocument(output, RESULT, document, fs, ds.value);
      } else {
        n := SetNull(output, RESULT, fs);
      }
    } else {
      n := SetSubdocument(output, ERROR, error, fs, es);
    }
  }

  method MeasureReply(request: array?<Byte>, offset: int, document: array?<Byte>, errno: int, error: array<Byte>,
                      ghost fs: seq<Field>, ghost j: nat, ghost id: Option<Value>,
                      ghost ds: Option<seq<Field>>, ghost es: seq<Field>) returns (len: nat)
    requires IdIs(request, offset, fs, j, id) && DocIs(document, ds) && IsInt32(errno)
    requires errno != 0 ==> Holds(error, es) && |Encode(es)| < TWO_31
                            && es == if ds.Some? then ds.value else ErrorDoc(errno)
    ensures len == |Encode(Reply(id, OutcomeOf(ds, errno)))|
  {
    ReplySize(id, OutcomeOf(ds, errno));
    var n1 := SetString(null, JSONRPC, VERSION, []);
    var n2 := SetElement(null, ID, request, offset, [], fs, j);
    var n3 := SetLast(null, document, errno, error, [], ds, es);
    len := 5 + n1 + n2 + n3;
  }

  /** The buffer has exactly the measured length, and the reply fills it. */
  method WriteReply(output: array<Byte>, request: array?<Byte>, offset: int, document: array?<Byte>, errno: int,
                    error: array<Byte>, ghost fs: seq<Field>, ghost j: nat, ghost id: Option<Value>,
                    ghost ds: Option<seq<Field>>, ghost es: seq<Field>)
    requires IdIs(request, offset, fs, j, id) && DocIs(document, ds) && IsInt32(errno)
    requires output != request && output != document && output != error
    requires errno != 0 ==> Holds(error, es) && |Encode(es)| < TWO_31
                            && es == if ds.Some? then ds.value else ErrorDoc(errno)
    requires output.Length == |Encode(Reply(id, OutcomeOf(ds, errno)))| < TWO_31
    modifies output
    ensures Holds(output, Reply(id, OutcomeOf(ds, errno)))
  {
    WriteHeading(output, request, offset, fs, j, id, OutcomeOf(ds, errno));
    ReplySize(id, OutcomeOf(ds, errno));
    var n3 := SetLast(output, document, errno, error, Heading(id), ds, es);
  }

  method WriteHeading(output: array<Byte>, request: array?<Byte>, offset: int,
                      ghost fs: seq<Field>, ghost j: nat, ghost id: Option<Value>, ghost o: Outcome)
    requires IdIs(request, offset, fs, j, id) && output != request
    requires output.Length == |Encode(Reply(id, o))| < TWO_31
    modifies output
    ensures Holds(output, Heading(id))
  {
    ReplySize(id, o);
    CreateEmpty(output);
    ghost var empty: seq<Field> := [];
    ghost var first := Field(JSONRPC, Str(VERSION));
    var n1 := SetString(output, JSONRPC, VERSION, empty);
    assert empty + [first] == [first];
    var n2 := SetElement(output, ID, request, offset, [first], fs, j);
    if id.None? {
      assert Heading(id) == [first];
    }
  }

  // ------------------------------------------------------------------------- one whole answer

  datatype Freed = FreeJob | FreeDocument

  /** How often `x` was freed. */
  function Times(log: seq<Freed>, x: Freed): nat {
    multiset(log)[x]
  }

  function RetryOutcome(): Outcome {
    Failure(INTERNAL_ERROR, None)
  }

  /** What reaches the host: the reply, or an internal error if there was no room for a result,
      or nothing if there was no room for that either. */
  function Sent(id: Option<Value>, o: Outcome, grant: nat -> bool): Option<seq<Byte>> {
    if grant(0) then Some(Encode(Reply(id, o)))
    else if o.Success? && grant(1) then Some(Encode(Reply(id, RetryOutcome())))
    else None
  }

  /** Sends at most one reply and frees the job once, and the document once if there is one, on
      every path. `grant(i)` says whether the `i`-th allocation of a reply succeeds. */
  method SendReply(request: array?<Byte>, offset: int, document: array?<Byte>, errno: int, grant: nat -> bool,
                   ghost fs: seq<Field>, ghost j: nat, ghost id: Option<Value>, ghost ds: Option<seq<Field>>)
    returns (sent: Option<seq<Byte>>, log: seq<Freed>)
    requires IdIs(request, offset, fs, j, id) && DocIs(document, ds) && IsInt32(errno)
    requires Sendable(id, OutcomeOf(ds, errno)) && Sendable(id, RetryOutcome())
    ensures sent == Sent(id, OutcomeOf(ds, errno), grant)
    ensures Times(log, FreeJob) == 1
    ensures Times(log, FreeDocument) == if document != null then 1 else 0
  {
    log := [];
    var r, ok := TryReply(request, offset, document, errno, grant(0), fs, j, id, ds);
    if ok {
      log := log + [FreeJob] + if document != null then [FreeDocument] else [];
      return Some(r), log;
    }
    if errno != 0 {
      log := log + (if document != null then [FreeDocument] else []) + [FreeJob];
      return None, log;
    }
    log := log + if document != null then [FreeDocument] else [];
    r, ok := TryReply(request, offset, null, INTERNAL_ERROR, grant(1), fs, j, id, None);
    log := log + [FreeJob];
    sent := if ok then Some(r) else None;
  }

  /** The error document of a failure that brings none of its own. */
  method BuildError(error: array<Byte>, errno: int)
    requires error.Length == 16 && IsInt32(errno)
    modifies error
    ensures Holds(error, ErrorDoc(errno)) && |Encode(ErrorDoc(errno))| < TWO_31
  {
    CreateEmpty(error);
    ErrorDocFits(errno);
    ghost var empty: seq<Field> := [];
    FieldSize(Field(CODE, Int32(errno)));
    var n := SetInt32(error, CODE, errno, empty);
    assert empty + [Field(CODE, Int32(errno))] == ErrorDoc(errno);
  }

  /** One pass from the `reply` label: measure, allocate, write. */
  method TryReply(request: array?<Byte>, offset: int, document: array?<Byte>, errno: int, granted: bool,
                  ghost fs: seq<Field>, ghost j: nat, ghost id: Option<Value>, ghost ds: Option<seq<Field>>)
    returns (reply: seq<Byte>, ok: bool)
    requires IdIs(request, offset, fs, j, id) && DocIs(document, ds) && IsInt32(errno)
    requires Sendable(id, OutcomeOf(ds, errno))
    ensures ok == granted
    ensures ok ==> reply == Encode(Reply(id, OutcomeOf(ds, errno)))
  {
    var error := new Byte[16](_ => 0);
    ghost var es := if ds.Some? then ds.value else ErrorDoc(errno);
    if errno != 0 {
      if document != null {
        error := document;
      } else {
        BuildError(error, errno);
      }
    }
    var len := MeasureReply(request, offset, document, errno, error, fs, j, id, ds, es);
    if !granted {
      return [], false;
    }
    var output := new Byte[len](_ => 0);
    WriteReply(output, request, offset, document, errno, error, fs, j, id, ds, es);
    ok := true;
    reply := output[..len];
  }
}
