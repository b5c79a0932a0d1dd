/** Serving one job: which requests are answered, with what, and which are not. */
module RpcService {
  import opened Bytes
  import opened Bson
  import opened BsonWriter
  import opened BsonReader
  import opened RpcReply
  import opened Options
  import RpcSlot

  /** A registered method: its name, and whether it answers at once. */
  datatype Entry = Entry(name: seq<Byte>, sync: bool)

  /** What the called method will do: the document and error a synchronous one returns, the
      error an asynchronous one returns (0: it will call back). */
  datatype Behaviour = Behaviour(document: Option<seq<Field>>, syncErrno: int, asyncErrno: int)

  datatype Verdict = Answer(outcome: Outcome) | Silent | Deferred

  const KEYS: seq<seq<Byte>> := [JSONRPC, METHOD, PARAMS, ID]

  function StringOf(fs: seq<Field>, key: seq<Byte>): Option<seq<Byte>> {
    match ValueOf(fs, key)
    case Some(Str(text)) => Some(CString(text + [0]))
    case _ => None
  }

  lemma {:induction false} NulAtEnd(text: seq<Byte>)
    ensures NulAt(text + [0]) <= |text|
  {
    if text != [] && text[0] != 0 {
      assert (text + [0])[1..] == text[1..] + [0];
      NulAtEnd(text[1..]);
    }
  }

  /** A string is its text up to the first NUL; anything else is none. */
  lemma StringOfElement(fs: seq<Field>, key: seq<Byte>)
    ensures match ValueOf(fs, key)
            case Some(Str(text)) =>
              var r := StringOf(fs, key);
              r.Some? && r.value <= text && NoNul(r.value) && (|r.value| < |text| ==> text[|r.value|] == 0)
            case _ => StringOf(fs, key) == None
  {
    match ValueOf(fs, key)
    case Some(Str(text)) =>
      NulAtEnd(text);
      assert CString(text + [0]) == text[..NulAt(text + [0])];
    case _ =>
  }

  predicate ValidRequest(fs: seq<Field>) {
    StringOf(fs, JSONRPC) == Some(VERSION) && StringOf(fs, METHOD).Some?
  }

  /** Entry `i` is called `name`, and none before it is. */
  predicate FirstNamed(entries: seq<Entry>, name: seq<Byte>, i: nat) {
    i < |entries| && entries[i].name == name && forall j :: 0 <= j < i ==> entries[j].name != name
  }

  function FindEntry(entries: seq<Entry>, name: seq<Byte>): (r: Option<Entry>)
    ensures r.Some? ==> exists i: nat :: FirstNamed(entries, name, i) && r.value == entries[i]
    ensures r.None? <==> forall i :: 0 <= i < |entries| ==> entries[i].name != name
  {
    if entries == [] then None
    else if entries[0].name == name then Some(entries[0])
    else
      var r := FindEntry(entries[1..], name);
      assert r.Some? ==> exists i: nat :: FirstNamed(entries, name, i) && r.value == entries[i] by {
        if r.Some? {
          var i: nat :| FirstNamed(entries[1..], name, i) && r.value == entries[1..][i];
          assert FirstNamed(entries, name, i + 1);
        }
      }
      r
  }

  lemma OnlyFirst(entries: seq<Entry>, name: seq<Byte>, i: nat, j: nat)
    requires FirstNamed(entries, name, i) && FirstNamed(entries, name, j)
    ensures i == j
  {
    assert entries[i].name == name && entries[j].name == name;
  }

  lemma FoundIs(entries: seq<Entry>, name: seq<Byte>, i: nat)
    requires FirstNamed(entries, name, i)
    ensures FindEntry(entries, name) == Some(entries[i])
  {
    var r := FindEntry(entries, name);
    assert entries[i].name == name;
    var j: nat :| FirstNamed(entries, name, j) && r.value == entries[j];
    OnlyFirst(entries, name, i, j);
  }

  function Judge(fs: seq<Field>, entries: seq<Entry>, b: Behaviour): Verdict {
    if Found(fs, KEYS) == 0 then Answer(Failure(PARSE_ERROR, None))
    else if !ValidRequest(fs) then Answer(Failure(INVALID_REQUEST, None))
    else
      var entry := FindEntry(entries, StringOf(fs, METHOD).value);
      if entry.Some? && !entry.value.sync && b.asyncErrno == 0 then Deferred
      else if ValueOf(fs, ID).None? then Silent
      else if entry.None? then Answer(Failure(METHOD_NOT_FOUND, None))
      else if entry.value.sync then
        if b.document.Some? then Answer(Success(b.document)) else Answer(OutcomeOf(None, b.syncErrno))
      else Answer(Failure(b.asyncErrno, None))
  }

  /** What becomes of the job, as the slot's runs count it. */
  function Disposed(fs: seq<Field>, entries: seq<Entry>, b: Behaviour, grant: nat -> bool): RpcSlot.Disposal {
    match Judge(fs, entries, b)
    case Answer(o) => RpcSlot.Free(Sent(ValueOf(fs, ID), o, grant))
    case Silent => RpcSlot.Free(None)
    case Deferred => RpcSlot.Queue
  }

  /** What the callback of a queued job sends. */
  function CalledBack(fs: seq<Field>, late: Outcome, grant: nat -> bool): Option<seq<Byte>> {
    if ValueOf(fs, ID).Some? then Sent(ValueOf(fs, ID), late, grant) else None
  }

  lemma KeysAreDistinct()
    ensures |KEYS| == 4 && DistinctKeys(KEYS)
    ensures KEYS[0] == JSONRPC && KEYS[1] == METHOD && KEYS[2] == PARAMS && KEYS[3] == ID
  {
    assert |METHOD| == 6 && |PARAMS| == 6 && METHOD[0] != PARAMS[0];
    assert |JSONRPC| == 7 && |ID| == 2;
  }

  lemma SomethingFound(fs: seq<Field>, i: nat)
    requires i < 4 && FirstIndex(fs, KEYS[i]) >= 0
    ensures Found(fs, KEYS) > 0
  {
    KeysAreDistinct();
    MemberNames();
    FoundNothing(fs);
  }

  // ------------------------------------------------------------- what a request is answered with

  /** None of the four members that are looked for. */
  predicate NothingAsked(fs: seq<Field>) {
    && ValueOf(fs, Ascii("jsonrpc")).None? && ValueOf(fs, Ascii("method")).None?
    && ValueOf(fs, Ascii("params")).None? && ValueOf(fs, Ascii("id")).None?
  }

  /** Version 2.0, and a string that names the method. */
  predicate Asks(fs: seq<Field>, name: seq<Byte>) {
    StringOf(fs, Ascii("jsonrpc")) == Some(Ascii("2.0")) && StringOf(fs, Ascii("method")) == Some(name)
  }

  lemma {:induction false} FoundNothing(fs: seq<Field>)
    ensures Found(fs, KEYS) == 0 <==> NothingAsked(fs)
  {
    KeysAreDistinct();
    MemberNames();
    assert KEYS[..4] == KEYS && KEYS[..4][..3] == KEYS[..3] && KEYS[..3][..2] == KEYS[..2];
    assert KEYS[..2][..1] == KEYS[..1] && KEYS[..1][..0] == [];
    assert Found(fs, KEYS) == Found(fs, KEYS[..3]) + if FirstIndex(fs, KEYS[3]) >= 0 then 1 else 0;
    assert Found(fs, KEYS[..3]) == Found(fs, KEYS[..2]) + if FirstIndex(fs, KEYS[2]) >= 0 then 1 else 0;
    assert Found(fs, KEYS[..2]) == Found(fs, KEYS[..1]) + if FirstIndex(fs, KEYS[1]) >= 0 then 1 else 0;
    assert Found(fs, KEYS[..1]) == Found(fs, []) + if FirstIndex(fs, KEYS[0]) >= 0 then 1 else 0;
  }

  /** Requests that ask for nothing that can be called, whatever the id. */
  lemma MalformedRequest(fs: seq<Field>, entries: seq<Entry>, b: Behaviour)
    requires forall name :: !Asks(fs, name)
    ensures Judge(fs, entries, b) == Answer(Failure(if NothingAsked(fs) then -32700 else -32600, None))
  {
    FoundNothing(fs);
    MemberNames();
    assert ValidRequest(fs) ==> Asks(fs, StringOf(fs, METHOD).value);
  }

  lemma AskedIsValid(fs: seq<Field>, name: seq<Byte>)
    requires Asks(fs, name)
    ensures ValidRequest(fs) && StringOf(fs, METHOD) == Some(name) && Found(fs, KEYS) > 0
  {
    MemberNames();
    FoundNothing(fs);
  }

  /** A request for a name that no method has. */
  lemma UnregisteredMethod(fs: seq<Field>, entries: seq<Entry>, b: Behaviour, name: seq<Byte>)
    requires Asks(fs, name) && forall i :: 0 <= i < |entries| ==> entries[i].name != name
    ensures Judge(fs, entries, b) ==
            if ValueOf(fs, Ascii("id")).None? then Silent else Answer(Failure(-32601, None))
  {
    AskedIsValid(fs, name);
    MemberNames();
  }

  /** A request for the name of a method that answers at once: the first one registered by it. */
  lemma SyncMethod(fs: seq<Field>, entries: seq<Entry>, b: Behaviour, name: seq<Byte>, i: nat)
    requires Asks(fs, name) && FirstNamed(entries, name, i) && entries[i].sync
    ensures Judge(fs, entries, b) ==
            if ValueOf(fs, Ascii("id")).None? then Silent
            else Answer(if b.document.Some? || b.syncErrno == 0 then Success(b.document)
                        else Failure(b.syncErrno, None))
  {
    AskedIsValid(fs, name);
    MemberNames();
    FoundIs(entries, name, i);
  }

  /** One that calls back: it is answered now only if it could not be started. */
  lemma AsyncMethod(fs: seq<Field>, entries: seq<Entry>, b: Behaviour, name: seq<Byte>, i: nat)
    requires Asks(fs, name) && FirstNamed(entries, name, i) && !entries[i].sync
    ensures Judge(fs, entries, b) ==
            if b.asyncErrno == 0 then Deferred
            else if ValueOf(fs, Ascii("id")).None? then Silent else Answer(Failure(b.asyncErrno, None))
  {
    AskedIsValid(fs, name);
    MemberNames();
    FoundIs(entries, name, i);
  }

  /** What a client parses from what is sent: the outcome, or an internal error if there was no room
      for a result. */
  lemma SentCarries(id: Option<Value>, o: Outcome, grant: nat -> bool)
    requires Sendable(id, o) && Sendable(id, RetryOutcome())
    ensures var sent := Sent(id, o, grant);
            && (sent.Some? <==> grant(0) || (o.Success? && grant(1)))
            && (grant(0) ==> CarriesOutcome(sent.value, id, o))
            && (!grant(0) && o.Success? && grant(1) ==> CarriesCode(sent.value, id, -32603))
  {
    ReplyCarries(id, o);
    ReplyCarries(id, RetryOutcome());
  }

  /** The same from what the call comes to, as the callback of an asynchronous method reports it: a
      document and an error number, 0 if there is no error. */
  lemma CallCarries(id: Option<Value>, document: Option<seq<Field>>, errno: int, grant: nat -> bool)
    requires Sendable(id, OutcomeOf(document, errno)) && Sendable(id, RetryOutcome()) && grant(0)
    ensures var reply := Encode(Reply(id, OutcomeOf(document, errno)));
            && Sent(id, OutcomeOf(document, errno), grant) == Some(reply)
            && CarriesOutcome(reply, id, if errno == 0 then Success(document) else Failure(errno, document))
  {
    SentCarries(id, OutcomeOf(document, errno), grant);
  }

  // ------------------------------------------------------------------------------ the service

  method FindMethod(entries: seq<Entry>, name: seq<Byte>) returns (r: Option<Entry>)
    ensures r == FindEntry(entries, name)
  {
    var i := 0;
    while i < |entries|
      invariant 0 <= i <= |entries|
      invariant FindEntry(entries, name) == FindEntry(entries[i..], name)
    {
      if entries[i].name == name {
        return Some(entries[i]);
      }
      assert entries[i..][1..] == entries[i + 1..];
      i := i + 1;
    }
    r := None;
  }

  ghost function IndexOf(fs: seq<Field>, key: seq<Byte>): nat {
    if FirstIndex(fs, key) < 0 then 0 else FirstIndex(fs, key)
  }

  /** An offset that the lookup has written names the element it found. */
  lemma OffsetNames(doc: array<Byte>, fs: seq<Field>, key: seq<Byte>)
    requires Good(fs) && Holds(doc, fs)
    ensures Names(doc, Offset(fs, key), fs, IndexOf(fs, key))
    ensures Present(doc, Offset(fs, key)) <==> ValueOf(fs, key).Some?
    ensures ValueOf(fs, key).Some? ==> fs[IndexOf(fs, key)].value == ValueOf(fs, key).value
  {
  }

  method GetStringOf(job: array<Byte>, offset: int, ghost fs: seq<Field>, ghost key: seq<Byte>)
    returns (r: Option<seq<Byte>>)
    requires Good(fs) && Holds(job, fs) && offset == Offset(fs, key)
    ensures r == StringOf(fs, key)
  {
    OffsetNames(job, fs, key);
    r := GetString(job, offset, fs, IndexOf(fs, key));
  }

  datatype Done = NoJob | Queued | Finished(sent: Option<seq<Byte>>, log: seq<Freed>)

  /** What a finished job must have led to. */
  ghost predicate Settles(done: Done, fs: seq<Field>, o: Option<Outcome>, document: bool, grant: nat -> bool) {
    && done.Finished?
    && done.sent == (if o.Some? then Sent(ValueOf(fs, ID), o.value, grant) else None)
    && Times(done.log, FreeJob) == 1
    && Times(done.log, FreeDocument) == if document then 1 else 0
  }

  ghost predicate AllSendable(fs: seq<Field>, b: Behaviour) {
    && IsInt32(b.syncErrno) && IsInt32(b.asyncErrno)
    && forall o :: o in {Failure(PARSE_ERROR, None), Failure(INVALID_REQUEST, None), Failure(METHOD_NOT_FOUND, None),
                         RetryOutcome(), OutcomeOf(None, b.syncErrno), Failure(b.asyncErrno, None),
                         Success(b.document)} ==>
         Sendable(ValueOf(fs, ID), o)
  }

  method ReplyWith(job: array<Byte>, offset: int, document: array?<Byte>, errno: int, grant: nat -> bool,
                   ghost fs: seq<Field>, ghost ds: Option<seq<Field>>) returns (done: Done)
    requires Good(fs) && Holds(job, fs) && offset == Offset(fs, ID) && DocIs(document, ds) && IsInt32(errno)
    requires Sendable(ValueOf(fs, ID), OutcomeOf(ds, errno)) && Sendable(ValueOf(fs, ID), RetryOutcome())
    ensures Settles(done, fs, Some(OutcomeOf(ds, errno)), document != null, grant)
  {
    OffsetNames(job, fs, ID);
    var sent, log := SendReply(job, offset, document, errno, grant, fs, IndexOf(fs, ID), ValueOf(fs, ID), ds);
    done := Finished(sent, log);
  }

  /** One call of the service. `document`, `syncErrno` and `asyncErrno` are what the method that
      it may call does; the document counts only if a synchronous method is called. */
  method Service(job: array?<Byte>, entries: seq<Entry>, document: array?<Byte>, syncErrno: int, asyncErrno: int,
                 grant: nat -> bool, ghost fs: seq<Field>, ghost b: Behaviour) returns (done: Done)
    requires job != null ==> Good(fs) && Holds(job, fs) && AllSendable(fs, b)
    requires DocIs(document, b.document) && b.syncErrno == syncErrno && b.asyncErrno == asyncErrno
    ensures job == null <==> done == NoJob
    ensures job != null ==>
              var verdict := Judge(fs, entries, b);
              var called := StringOf(fs, METHOD).Some? && ValidRequest(fs)
                            && FindEntry(entries, StringOf(fs, METHOD).value).Some?
                            && FindEntry(entries, StringOf(fs, METHOD).value).value.sync;
              match verdict
              case Deferred => done == Queued
              case Silent => Settles(done, fs, None, called && document != null, grant)
              case Answer(o) => Settles(done, fs, Some(o), called && document != null, grant)
    ensures job != null ==>
              Disposed(fs, entries, b, grant) == if done.Queued? then RpcSlot.Queue else RpcSlot.Free(done.sent)
  {
    if job == null {
      return NoJob;
    }
    KeysAreDistinct();
    var off := new int[4];
    var found := GetProps(job, KEYS, off, fs);
    var offId := off[3];
    assert forall i :: 0 <= i < 4 ==> off[i] == Offset(fs, KEYS[i]);
    if found <= 0 {
      done := ReplyWith(job, offId, null, PARSE_ERROR, grant, fs, None);
      assert Judge(fs, entries, b) == Answer(Failure(PARSE_ERROR, None));
      NothingCalled(fs);
      return;
    }
    var jsonrpc := GetStringOf(job, off[0], fs, JSONRPC);
    var name := GetStringOf(job, off[1], fs, METHOD);
    if jsonrpc != Some(VERSION) || name.None? {
      done := ReplyWith(job, offId, null, INVALID_REQUEST, grant, fs, None);
      return;
    }
    OffsetNames(job, fs, ID);
    var entry := FindMethod(entries, name.value);
    done := Dispatch(job, offId, entry, document, syncErrno, asyncErrno, grant, fs, b);
  }

  lemma NothingCalled(fs: seq<Field>)
    requires Found(fs, KEYS) == 0
    ensures !ValidRequest(fs)
  {
    KeysAreDistinct();
    if FirstIndex(fs, KEYS[0]) >= 0 {
      SomethingFound(fs, 0);
    }
  }

  /** The part from the call of the method on. */
  method Dispatch(job: array<Byte>, offId: int, entry: Option<Entry>, document: array?<Byte>,
                  syncErrno: int, asyncErrno: int, grant: nat -> bool, ghost fs: seq<Field>, ghost b: Behaviour)
    returns (done: Done)
    requires Good(fs) && Holds(job, fs) && offId == Offset(fs, ID) && AllSendable(fs, b)
    requires DocIs(document, b.document) && b.syncErrno == syncErrno && b.asyncErrno == asyncErrno
    ensures entry.Some? && !entry.value.sync && asyncErrno == 0 ==> done == Queued
    ensures !(entry.Some? && !entry.value.sync && asyncErrno == 0) ==>
              var o := if entry.None? then Failure(METHOD_NOT_FOUND, None)
                       else if !entry.value.sync then Failure(asyncErrno, None)
                       else if document != null then Success(b.document) else OutcomeOf(None, syncErrno);
              Settles(done, fs, if ValueOf(fs, ID).Some? then Some(o) else None,
                      entry.Some? && entry.value.sync && document != null, grant)
  {
    var result: array?<Byte> := null;
    var errno;
    ghost var ds: Option<seq<Field>> := None;
    if entry.Some? {
      if entry.value.sync {
        result, errno := document, syncErrno;
        ds := b.document;
      } else {
        errno := asyncErrno;
        if errno == 0 {
          return Queued;
        }
      }
    } else {
      errno := METHOD_NOT_FOUND;
    }
    OffsetNames(job, fs, ID);
    if offId < 0 {
      return Finished(None, (if result != null then [FreeDocument] else []) + [FreeJob]);
    }
    done := ReplyWith(job, offId, result, if result != null then 0 else errno, grant, fs, ds);
  }

  /** The callback of an asynchronous method ends a job that the service has left queued. */
  method AsyncReply(job: array<Byte>, document: array?<Byte>, errno: int, grant: nat -> bool,
                    ghost fs: seq<Field>, ghost ds: Option<seq<Field>>) returns (done: Done)
    requires Good(fs) && Holds(job, fs) && DocIs(document, ds) && IsInt32(errno)
    requires Sendable(ValueOf(fs, ID), OutcomeOf(ds, errno)) && Sendable(ValueOf(fs, ID), RetryOutcome())
    ensures Settles(done, fs, if ValueOf(fs, ID).Some? then Some(OutcomeOf(ds, errno)) else None,
                    document != null, grant)
    ensures done.sent == CalledBack(fs, OutcomeOf(ds, errno), grant)
  {
    var off := new int[1];
    var keys := [ID];
    var found := GetProps(job, keys, off, fs);
    assert keys[..0] == [] && off[0] == Offset(fs, ID);
    assert found == Found(fs, keys[..0]) + if FirstIndex(fs, keys[0]) >= 0 then 1 else 0;
    if found == 1 {
      done := ReplyWith(job, off[0], document, errno, grant, fs, ds);
    } else {
      done := Finished(None, (if document != null then [FreeDocument] else []) + [FreeJob]);
    }
  }
}
