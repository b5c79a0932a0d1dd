/** The ring between a channel's sink and a file descriptor's reader: one producer, one
    consumer, each working from a snapshot of the offsets that the other may outdate. */
module HostPipe {
  import opened Bytes
  import opened Capacity

  // ------------------------------------------------------------------------ ring geometry

  function Wrap(x: nat, cap: nat): nat {
    if x == cap then 0 else x
  }

  function Dist(r: nat, w: nat, cap: nat): int {
    if r <= w then w - r else w + cap - r
  }

  function At(from: nat, i: nat, cap: nat): nat {
    if from + i < cap then from + i else from + i - cap
  }

  /** The `n` bytes of the ring from `r` on. */
  function Ring(buffer: seq<Byte>, r: nat, n: nat): seq<Byte>
    requires r < |buffer| && n <= |buffer|
  {
    seq(n, i requires 0 <= i < n => buffer[At(r, i, |buffer|)])
  }

  /** How a transfer splits in two at the end of the ring. */
  datatype Split = Split(first: nat, second: nat)

  function ReadSplit(r: nat, w: nat, cap: nat, len: nat): Split
    requires r < cap && w < cap
  {
    var avail1 := if r <= w then w - r else cap - r;
    var avail2 := if r <= w then 0 else w;
    if len < avail1 then Split(len, 0)
    else Split(avail1, if len - avail1 < avail2 then len - avail1 else avail2)
  }

  /** The free run that starts at `w`; one cell always stays empty. */
  function Free1(r: nat, w: nat, cap: nat): nat
    requires r < cap && w < cap
  {
    if r > w then r - w - 1 else if r == 0 then cap - w - 1 else cap - w
  }

  function WriteSplit(r: nat, w: nat, cap: nat, len: nat): Split
    requires r < cap && w < cap
  {
    var free1 := Free1(r, w, cap);
    var free2 := if r > w || r == 0 then 0 else r - 1;
    if len < free1 then Split(len, 0)
    else Split(free1, if len - free1 < free2 then len - free1 else free2)
  }

  predicate Fits(s: Split, from: nat, cap: nat) {
    from + s.first <= cap && s.second < cap && (s.second > 0 ==> from + s.first == cap)
  }

  /** The offset after a transfer, by masking as the code has it. */
  function Advance(from: nat, s: Split, cap: nat): (n: nat)
    requires IsPow2(cap) && Fits(s, from, cap)
    ensures n == if s.second > 0 then s.second else Wrap(from + s.first, cap)
  {
    MaskIsWrap(from + s.first, cap);
    if s.second > 0 then s.second else BitAnd(from + s.first, cap - 1)
  }

  function Min(a: int, b: int): int {
    if a < b then a else b
  }

  lemma SplitsAddUp(r: nat, w: nat, cap: nat, len: nat)
    requires r < cap && w < cap
    ensures var s := ReadSplit(r, w, cap, len);
            s.first + s.second == Min(len, Dist(r, w, cap)) && Fits(s, r, cap)
    ensures var s := WriteSplit(r, w, cap, len);
            s.first + s.second == Min(len, cap - 1 - Dist(r, w, cap)) && Fits(s, w, cap)
  {
  }

  lemma RingGrows(buffer: seq<Byte>, r: nat, n: nat, m: nat)
    requires r < |buffer| && n + m <= |buffer|
    ensures Ring(buffer, r, n + m) == Ring(buffer, r, n) + Ring(buffer, At(r, n, |buffer|), m)
            || n == |buffer|
  {
    if n < |buffer| {
      assert forall i :: 0 <= i < m ==>
        At(r, n + i, |buffer|) == At(At(r, n, |buffer|), i, |buffer|);
    }
  }

  // ------------------------------------------------------------- one producer, one consumer

  datatype Reader =
    | ReaderIdle
    | ReaderCalled(len: nat)
    | ReaderSeen(r: nat, w: nat, len: nat)
    | ReaderBlocked(len: nat)
    | ReaderCopying(r: nat, split: Split, got: seq<Byte>)

  datatype Writer =
    | WriterIdle
    | WriterCalled(data: seq<Byte>)
    | WriterSeen(r: nat, w: nat, data: seq<Byte>)
    | WriterCopying(r: nat, w: nat, split: Split, data: seq<Byte>, done: nat)
    | WriterStored(post: bool)

  /** `accepted` is what `Sink` has returned for, `consumed` what `Read` has returned. */
  datatype Pipe = Pipe(
    buffer: seq<Byte>, readOffset: nat, writeOffset: nat, sem: nat,
    reader: Reader, writer: Writer, accepted: seq<Byte>, consumed: seq<Byte>)

  /** Either side is called, or takes its next single step: a snapshot, a test, one byte of a
      copy, the commit of its offset, or the post that may follow. */
  datatype Event = CallRead(len: nat) | GoRead | CallWrite(data: seq<Byte>) | GoWrite

  ghost predicate Shape(p: Pipe) {
    && IsPow2(|p.buffer|)
    && p.readOffset < |p.buffer| && p.writeOffset < |p.buffer|
    && match p.reader {
       case ReaderSeen(r, w, _) => r < |p.buffer| && w < |p.buffer|
       case ReaderCopying(r, s, got) =>
         r < |p.buffer| && Fits(s, r, |p.buffer|) && |got| <= s.first + s.second <= |p.buffer|
       case _ => true
       }
    && match p.writer {
       case WriterSeen(r, w, _) => r < |p.buffer| && w < |p.buffer|
       case WriterCopying(_, w, s, data, done) =>
         w < |p.buffer| && Fits(s, w, |p.buffer|)
         && done <= s.first + s.second <= |p.buffer| && s.first + s.second <= |data|
       case _ => true
       }
  }

  function GoReader(p: Pipe): (q: Pipe)
    requires Shape(p)
    ensures Shape(q)
  {
    var cap := |p.buffer|;
    match p.reader
    case ReaderIdle => p
    case ReaderCalled(len) => p.(reader := ReaderSeen(p.readOffset, p.writeOffset, len))
    case ReaderSeen(r, w, len) =>
      if r == w then p.(reader := ReaderBlocked(len))
      else p.(reader := ReaderCopying(r, ReadSplit(r, w, cap, len), []))
    case ReaderBlocked(len) =>
      if p.sem == 0 then p else p.(sem := p.sem - 1, reader := ReaderCalled(len))
    case ReaderCopying(r, s, got) =>
      if |got| < s.first + s.second then
        p.(reader := ReaderCopying(r, s, got + [p.buffer[At(r, |got|, cap)]]))
      else
        p.(reader := ReaderIdle, readOffset := Advance(r, s, cap), consumed := p.consumed + got)
  }

  function GoWriter(p: Pipe): (q: Pipe)
    requires Shape(p)
    ensures Shape(q)
  {
    var cap := |p.buffer|;
    match p.writer
    case WriterIdle => p
    case WriterCalled(data) => p.(writer := WriterSeen(p.readOffset, p.writeOffset, data))
    case WriterSeen(r, w, data) =>
      SplitsAddUp(r, w, cap, |data|);
      var s := WriteSplit(r, w, cap, |data|);
      if Free1(r, w, cap) == 0 then p.(writer := WriterIdle)
      else p.(writer := WriterCopying(r, w, s, data, 0))
    case WriterCopying(r, w, s, data, done) =>
      if done < s.first + s.second then
        p.(writer := WriterCopying(r, w, s, data, done + 1),
           buffer := p.buffer[At(w, done, cap) := data[done]])
      else
        p.(writer := WriterStored(r == w), writeOffset := Advance(w, s, cap),
           accepted := p.accepted + data[..done])
    case WriterStored(post) => p.(writer := WriterIdle, sem := if post then p.sem + 1 else p.sem)
  }

  function Happen(p: Pipe, e: Event): (q: Pipe)
    requires Shape(p)
    ensures Shape(q)
  {
    match e
    case CallRead(len) => if p.reader.ReaderIdle? then p.(reader := ReaderCalled(len)) else p
    case CallWrite(data) => if p.writer.WriterIdle? then p.(writer := WriterCalled(data)) else p
    case GoRead => GoReader(p)
    case GoWrite => GoWriter(p)
  }

  function Run(p: Pipe, es: seq<Event>): (q: Pipe)
    requires Shape(p)
    ensures Shape(q)
  {
    if es == [] then p else Happen(Run(p, es[..|es| - 1]), es[|es| - 1])
  }

  function Stored(p: Pipe): nat
    requires Shape(p)
  {
    Dist(p.readOffset, p.writeOffset, |p.buffer|)
  }

  function Contents(p: Pipe): seq<Byte>
    requires Shape(p)
  {
    Ring(p.buffer, p.readOffset, Stored(p))
  }

  /** The queue, and what each side's stale snapshot may still be relied on for. */
  ghost predicate Inv(p: Pipe) {
    && Shape(p)
    && p.accepted == p.consumed + Contents(p)
    && match p.reader {
       case ReaderSeen(r, w, _) =>
         r == p.readOffset && Dist(r, w, |p.buffer|) <= Stored(p)
       case ReaderCopying(r, s, got) =>
         r == p.readOffset && s.first + s.second <= Stored(p)
         && got == Ring(p.buffer, r, |got|)
       case _ => true
       }
    && match p.writer {
       case WriterSeen(r, w, _) =>
         w == p.writeOffset && Stored(p) <= Dist(r, w, |p.buffer|)
       case WriterCopying(r, w, s, data, done) =>
         w == p.writeOffset && s.first + s.second < |p.buffer| - Stored(p)
         && Ring(p.buffer, w, done) == data[..done]
       case _ => true
       }
  }

  lemma RingUntouched(buffer: seq<Byte>, r: nat, n: nat, at: nat, b: Byte)
    requires r < |buffer| && n <= |buffer| && at < |buffer|
    requires forall i :: 0 <= i < n ==> At(r, i, |buffer|) != at
    ensures Ring(buffer[at := b], r, n) == Ring(buffer, r, n)
  {
  }

  lemma {:induction false} ReaderKeepsInv(p: Pipe)
    requires Inv(p)
    ensures Inv(GoReader(p))
  {
    var cap := |p.buffer|;
    match p.reader
    case ReaderSeen(r, w, len) =>
      SplitsAddUp(r, w, cap, len);
    case ReaderCopying(r, s, got) =>
      if |got| < s.first + s.second {
        ReaderCopyKeepsInv(p);
      } else {
        ReaderCommitKeepsInv(p);
      }
    case _ =>
  }

  lemma ReaderCopyKeepsInv(p: Pipe)
    requires Inv(p) && p.reader.ReaderCopying?
    requires |p.reader.got| < p.reader.split.first + p.reader.split.second
    ensures Inv(GoReader(p))
  {
    var ReaderCopying(r, s, got) := p.reader;
    assert Ring(p.buffer, r, |got| + 1) == Ring(p.buffer, r, |got|) + [p.buffer[At(r, |got|, |p.buffer|)]];
  }

  lemma ReaderCommitKeepsInv(p: Pipe)
    requires Inv(p) && p.reader.ReaderCopying?
    requires |p.reader.got| == p.reader.split.first + p.reader.split.second
    ensures Inv(GoReader(p))
  {
    var ReaderCopying(r, s, got) := p.reader;
    var q := GoReader(p);
    var n := |got|;
    assert q.readOffset == At(r, n, |p.buffer|) && Stored(q) == Stored(p) - n;
    RingGrows(p.buffer, r, n, Stored(q));
    assert Contents(p) == got + Contents(q);
  }

  lemma {:induction false} WriterKeepsInv(p: Pipe)
    requires Inv(p)
    ensures Inv(GoWriter(p))
  {
    var cap := |p.buffer|;
    match p.writer
    case WriterSeen(r, w, data) =>
      SplitsAddUp(r, w, cap, |data|);
    case WriterCopying(r, w, s, data, done) =>
      var n := s.first + s.second;
      if done < n {
        WriterStoreKeepsInv(p);
      } else {
        WriterCommitKeepsInv(p);
      }
    case _ =>
  }

  lemma WriterCommitKeepsInv(p: Pipe)
    requires Inv(p) && p.writer.WriterCopying?
    requires p.writer.done == p.writer.split.first + p.writer.split.second
    ensures Inv(GoWriter(p))
  {
    var WriterCopying(r, w, s, data, n) := p.writer;
    var q := GoWriter(p);
    assert At(p.readOffset, Stored(p), |p.buffer|) == w;
    assert q.writeOffset == At(w, n, |p.buffer|) && Stored(q) == Stored(p) + n;
    RingGrows(p.buffer, p.readOffset, Stored(p), n);
    assert Contents(q) == Contents(p) + data[..n];
  }

  /** A store lands outside everything that is stored, that the reader is copying, and that this
      call has stored before. */
  lemma WriterStoreKeepsInv(p: Pipe)
    requires Inv(p) && p.writer.WriterCopying?
    requires p.writer.done < p.writer.split.first + p.writer.split.second
    ensures Inv(GoWriter(p))
  {
    var cap := |p.buffer|;
    var WriterCopying(r, w, s, data, done) := p.writer;
    var at := At(w, done, cap);
    var buffer := p.buffer[at := data[done]];
    assert at == At(p.readOffset, Stored(p) + done, cap);
    RingUntouched(p.buffer, p.readOffset, Stored(p), at, data[done]);
    if p.reader.ReaderCopying? {
      RingUntouched(p.buffer, p.readOffset, |p.reader.got|, at, data[done]);
    }
    RingUntouched(p.buffer, w, done, at, data[done]);
    assert Ring(buffer, w, done + 1) == Ring(buffer, w, done) + [data[done]];
    assert data[..done + 1] == data[..done] + [data[done]];
  }

  /** In every reachable state of every interleaving, the bytes the reader has been given,
      followed by the bytes in the ring, are the bytes the sink has accepted, and neither side's
      stale snapshot lets it touch a cell it must not touch. */
  lemma {:induction false} PipeIsAQueue(p: Pipe, es: seq<Event>)
    requires Inv(p)
    ensures Inv(Run(p, es))
  {
    if es != [] {
      var n := |es| - 1;
      PipeIsAQueue(p, es[..n]);
      var q := Run(p, es[..n]);
      match es[n]
      case GoRead => ReaderKeepsInv(q);
      case GoWrite => WriterKeepsInv(q);
      case _ =>
    }
  }

  ghost predicate IsNew(p: Pipe) {
    IsPow2(|p.buffer|) && p.readOffset == 0 && p.writeOffset == 0 && p.sem == 0
    && p.reader == ReaderIdle && p.writer == WriterIdle && p.accepted == [] && p.consumed == []
  }

  /** The same for a fresh pipe, as an observer of its two ends sees it. */
  lemma NothingLostOrReordered(p: Pipe, es: seq<Event>)
    requires IsNew(p)
    ensures var q := Run(p, es);
            q.accepted == q.consumed + Contents(q) && Stored(q) < |q.buffer|
  {
    PipeIsAQueue(p, es);
  }

  // ------------------------------------------------------------------------------ waking up

  /** A call between its snapshot and the commit of its offset. */
  predicate Snapped(p: Pipe) {
    p.writer.WriterSeen? || p.writer.WriterCopying?
  }

  /** The call under way took its snapshot with the ring empty: it will post. */
  predicate WillPost(p: Pipe) {
    (Snapped(p) && p.writer.r == p.writer.w) || p.writer == WriterStored(true)
  }

  /** Asleep, or about to be: the ring was empty when the reader looked. */
  predicate Sleepy(p: Pipe) {
    p.reader.ReaderBlocked? || (p.reader.ReaderSeen? && p.reader.r == p.reader.w)
  }

  /** The reader sleeps beside stored bytes, nothing has been posted, and nothing will be. */
  ghost predicate Missed(p: Pipe)
    requires Shape(p)
  {
    Sleepy(p) && p.sem == 0 && Stored(p) > 0 && !WillPost(p)
  }

  /** A commit of at least one byte that will not be posted, because the snapshot was not empty,
      onto a ring that has been drained since, while the reader sleeps and no post is left. */
  ghost predicate Loses(p: Pipe, e: Event)
    requires Shape(p)
  {
    && e.GoWrite? && p.writer.WriterCopying? && p.writer.r != p.writer.w
    && 0 < p.writer.done == p.writer.split.first + p.writer.split.second
    && Sleepy(p) && p.sem == 0 && Stored(p) == 0
  }

  lemma MissedStep(p: Pipe, e: Event)
    requires Inv(p)
    ensures Missed(Happen(p, e)) <==> Missed(p) || Loses(p, e)
  {
    if e.GoWrite? && p.writer.WriterSeen? {
      SplitsAddUp(p.writer.r, p.writer.w, |p.buffer|, |p.writer.data|);
    }
  }

  ghost predicate HasLosingStep(p: Pipe, es: seq<Event>)
    requires Shape(p)
  {
    es != [] && (HasLosingStep(p, es[..|es| - 1]) || Loses(Run(p, es[..|es| - 1]), es[|es| - 1]))
  }

  /** A wake-up has been missed if and only if some step of the run was such a commit; so what
      has been missed once is missed for good. */
  lemma {:induction false} WakeUpIsLostIff(p: Pipe, es: seq<Event>)
    requires IsNew(p)
    ensures Missed(Run(p, es)) <==> HasLosingStep(p, es)
  {
    if es != [] {
      var n := |es| - 1;
      WakeUpIsLostIff(p, es[..n]);
      PipeIsAQueue(p, es[..n]);
      MissedStep(Run(p, es[..n]), es[n]);
    }
  }

  /** As the two ends see it: a reader found asleep with nothing posted, and no call under way,
      has nothing to read unless the run has such a commit. */
  lemma NoLostWakeUp(p: Pipe, es: seq<Event>)
    requires IsNew(p)
    ensures var q := Run(p, es);
            q.reader.ReaderBlocked? && q.sem == 0 && q.writer.WriterIdle? ==>
              (Contents(q) == [] <==> !HasLosingStep(p, es))
  {
    WakeUpIsLostIff(p, es);
  }

  /** The reader commits only while no sink call is between its snapshot and its commit. */
  predicate Calm(p: Pipe, e: Event) {
    (e.GoRead? && p.reader.ReaderCopying?
     && |p.reader.got| == p.reader.split.first + p.reader.split.second) ==> !Snapped(p)
  }

  predicate CalmRun(p: Pipe, es: seq<Event>)
    requires Shape(p)
  {
    es == [] || (CalmRun(p, es[..|es| - 1]) && Calm(Run(p, es[..|es| - 1]), es[|es| - 1]))
  }

  /** Under calm schedules a call's snapshot does not go stale. */
  lemma {:induction false} CalmRunKeepsSnapshot(p: Pipe, es: seq<Event>)
    requires IsNew(p) && CalmRun(p, es)
    ensures var q := Run(p, es); Inv(q) && (Snapped(q) ==> q.writer.r == q.readOffset)
  {
    PipeIsAQueue(p, es);
    if es != [] {
      CalmRunKeepsSnapshot(p, es[..|es| - 1]);
    }
  }

  /** So they have no such commit. */
  lemma {:induction false} CalmRunLosesNothing(p: Pipe, es: seq<Event>)
    requires IsNew(p) && CalmRun(p, es)
    ensures !HasLosingStep(p, es)
  {
    if es != [] {
      var n := |es| - 1;
      CalmRunLosesNothing(p, es[..n]);
      CalmRunKeepsSnapshot(p, es[..n]);
    }
  }

  /** What has been missed stays missed. */
  lemma {:induction false} MissedForever(p: Pipe, es: seq<Event>)
    requires Inv(p) && Missed(p)
    ensures Missed(Run(p, es))
  {
    if es != [] {
      var n := |es| - 1;
      MissedForever(p, es[..n]);
      PipeIsAQueue(p, es[..n]);
      MissedStep(Run(p, es[..n]), es[n]);
    }
  }

  lemma Extend(p: Pipe, es: seq<Event>, e: Event)
    requires Shape(p)
    ensures Run(p, es + [e]) == Happen(Run(p, es), e)
  {
    assert (es + [e])[..|es|] == es;
  }

  lemma {:induction false} RunConcat(p: Pipe, a: seq<Event>, b: seq<Event>)
    requires Shape(p)
    ensures Run(p, a + b) == Run(Run(p, a), b)
  {
    if b == [] {
      assert a + b == a;
    } else {
      var n := |b| - 1;
      assert a + b == (a + b[..n]) + [b[n]];
      RunConcat(p, a, b[..n]);
      Extend(p, a + b[..n], b[n]);
    }
  }

  lemma {:induction false} Run5(p: Pipe, a: Event, b: Event, c: Event, d: Event, e: Event)
    requires Shape(p)
    ensures Run(p, [a, b, c, d, e]) == Happen(Happen(Happen(Happen(Happen(p, a), b), c), d), e)
  {
    var es := [a, b, c, d, e];
    assert es[..4] == [a, b, c, d] && [a, b, c, d][..3] == [a, b, c];
    assert [a, b, c][..2] == [a, b] && [a, b][..1] == [a] && [a][..0] == [];
    assert Run(p, [a]) == Happen(p, a);
    assert Run(p, [a, b]) == Happen(Run(p, [a]), b);
    assert Run(p, [a, b, c]) == Happen(Run(p, [a, b]), c);
  }

  /** The schedule that loses a wake-up, in six parts: a first sink call and its post; a
      second call that sees the first one's byte; the reader emptying the ring; the reader going
      to sleep; and only then the second call's commit. */
  ghost const FIRST_CALL := [CallWrite([1]), GoWrite, GoWrite, GoWrite, GoWrite]
  ghost const POSTING := [GoWrite, GoRead, GoRead, GoRead, GoRead]
  ghost const SECOND_CALL := [CallWrite([2]), GoWrite, GoWrite, CallRead(1), GoRead]
  ghost const EMPTYING := [GoRead, GoRead, GoRead, CallRead(1), GoRead]
  ghost const FALLING_ASLEEP := [GoRead, GoRead, GoRead, GoRead, GoWrite]
  ghost const COMMIT := [GoWrite, GoWrite, GoRead, GoRead, GoRead]

  lemma {:induction false} FirstCall(p: Pipe)
    requires IsNew(p) && |p.buffer| >= 3
    ensures Run(p, FIRST_CALL) ==
            p.(buffer := p.buffer[0 := 1], writeOffset := 1, writer := WriterStored(true), accepted := [1])
  {
    Run5(p, CallWrite([1]), GoWrite, GoWrite, GoWrite, GoWrite);
    var p2 := Happen(Happen(p, CallWrite([1])), GoWrite);
    assert p2 == p.(writer := WriterSeen(0, 0, [1]));
    var p3 := Happen(p2, GoWrite);
    assert p3 == p.(writer := WriterCopying(0, 0, Split(1, 0), [1], 0));
    var p4 := Happen(p3, GoWrite);
    assert p4 == p.(writer := WriterCopying(0, 0, Split(1, 0), [1], 1), buffer := p.buffer[0 := 1]);
  }

  lemma Posting(p: Pipe)
    requires Shape(p) && p.writer == WriterStored(true) && p.reader == ReaderIdle
    ensures Run(p, POSTING) == p.(writer := WriterIdle, sem := p.sem + 1)
  {
    Run5(p, GoWrite, GoRead, GoRead, GoRead, GoRead);
  }

  ghost predicate OneByteIn(p: Pipe) {
    IsPow2(|p.buffer|) && |p.buffer| >= 3 && p.buffer[0] == 1 && p.readOffset == 0 && p.writeOffset == 1 && p.sem == 1
    && p.accepted == [1] && p.consumed == [] && p.reader == ReaderIdle && p.writer == WriterIdle
  }

  lemma SecondCall(p: Pipe)
    requires OneByteIn(p)
    ensures Run(p, SECOND_CALL) ==
            p.(writer := WriterCopying(0, 1, Split(1, 0), [2], 0), reader := ReaderSeen(0, 1, 1))
  {
    Run5(p, CallWrite([2]), GoWrite, GoWrite, CallRead(1), GoRead);
    var p2 := Happen(Happen(p, CallWrite([2])), GoWrite);
    assert p2 == p.(writer := WriterSeen(0, 1, [2]));
    assert Happen(p2, GoWrite) == p.(writer := WriterCopying(0, 1, Split(1, 0), [2], 0));
  }

  lemma Emptying(p: Pipe)
    requires Shape(p) && |p.buffer| >= 3 && p.buffer[0] == 1 && p.consumed == []
    requires p.reader == ReaderSeen(0, 1, 1) && p.writeOffset == 1
    ensures Run(p, EMPTYING) ==
            p.(readOffset := 1, consumed := [1], reader := ReaderSeen(1, 1, 1))
  {
    Run5(p, GoRead, GoRead, GoRead, CallRead(1), GoRead);
    var p1 := Happen(p, GoRead);
    assert p1 == p.(reader := ReaderCopying(0, Split(1, 0), []));
    var p2 := Happen(p1, GoRead);
    assert p2 == p.(reader := ReaderCopying(0, Split(1, 0), [1]));
    assert Happen(p2, GoRead) == p.(readOffset := 1, consumed := [1], reader := ReaderIdle);
  }

  lemma FallingAsleep(p: Pipe)
    requires Shape(p) && |p.buffer| >= 3 && p.readOffset == 1 && p.writeOffset == 1
    requires p.reader == ReaderSeen(1, 1, 1) && p.sem == 1
    requires p.writer == WriterCopying(0, 1, Split(1, 0), [2], 0)
    ensures Run(p, FALLING_ASLEEP) ==
            p.(reader := ReaderBlocked(1), sem := 0, buffer := p.buffer[1 := 2],
               writer := WriterCopying(0, 1, Split(1, 0), [2], 1))
  {
    Run5(p, GoRead, GoRead, GoRead, GoRead, GoWrite);
    assert Happen(Happen(p, GoRead), GoRead) == p.(sem := 0, reader := ReaderCalled(1));
  }

  lemma Commit(p: Pipe)
    requires Shape(p) && |p.buffer| >= 3 && p.readOffset == 1 && p.writeOffset == 1
    requires p.reader == ReaderBlocked(1) && p.sem == 0
    requires p.writer == WriterCopying(0, 1, Split(1, 0), [2], 1)
    ensures Run(p, COMMIT) ==
            p.(writer := WriterIdle, writeOffset := 2, accepted := p.accepted + [2])
  {
    Run5(p, GoWrite, GoWrite, GoRead, GoRead, GoRead);
    assert [2][..1] == [2];
  }

  ghost const LOSING_SCHEDULE :=
    FIRST_CALL + POSTING + SECOND_CALL + EMPTYING + FALLING_ASLEEP + COMMIT

  lemma SecondCallStarts(p: Pipe)
    requires IsNew(p) && |p.buffer| >= 3
    ensures var q := Run(p, FIRST_CALL + POSTING + SECOND_CALL);
            Shape(q) && q.buffer[0] == 1 && |q.buffer| >= 3 && q.readOffset == 0 && q.writeOffset == 1
            && q.sem == 1 && q.consumed == [] && q.reader == ReaderSeen(0, 1, 1)
            && q.writer == WriterCopying(0, 1, Split(1, 0), [2], 0)
  {
    FirstCall(p);
    var p1 := Run(p, FIRST_CALL);
    Posting(p1);
    SecondCall(Run(p1, POSTING));
    RunConcat(p, FIRST_CALL, POSTING);
    RunConcat(p, FIRST_CALL + POSTING, SECOND_CALL);
  }

  lemma LosingScheduleMisses(p: Pipe)
    requires IsNew(p) && |p.buffer| >= 3
    ensures var q := Run(p, LOSING_SCHEDULE);
            Missed(q) && q.reader.ReaderBlocked? && q.writer.WriterIdle?
  {
    var start := FIRST_CALL + POSTING + SECOND_CALL;
    SecondCallStarts(p);
    var p3 := Run(p, start);
    Emptying(p3);
    var p4 := Run(p3, EMPTYING);
    FallingAsleep(p4);
    Commit(Run(p4, FALLING_ASLEEP));
    RunConcat(p, start, EMPTYING);
    RunConcat(p, start + EMPTYING, FALLING_ASLEEP);
    RunConcat(p, start + EMPTYING + FALLING_ASLEEP, COMMIT);
  }

  /** Such a run exists in every ring of three cells or more, and whatever happens after it the
      reader sleeps beside stored bytes. */
  lemma WakeUpIsLost(p: Pipe, later: seq<Event>)
    requires IsNew(p) && |p.buffer| >= 3
    ensures Missed(Run(p, LOSING_SCHEDULE + later))
  {
    LosingScheduleMisses(p);
    PipeIsAQueue(p, LOSING_SCHEDULE);
    RunConcat(p, LOSING_SCHEDULE, later);
    MissedForever(Run(p, LOSING_SCHEDULE), later);
  }

  /** In a ring of two cells a call that sees a byte sees no room. */
  lemma {:induction false} SmallRing(p: Pipe, es: seq<Event>)
    requires IsNew(p) && |p.buffer| <= 2
    ensures var q := Run(p, es);
            |q.buffer| == |p.buffer| && (q.writer.WriterCopying? ==> q.writer.r == q.writer.w)
    ensures !HasLosingStep(p, es)
  {
    if es != [] {
      var n := |es| - 1;
      SmallRing(p, es[..n]);
      SmallRingStep(Run(p, es[..n]), es[n]);
    }
  }

  lemma SmallRingStep(p: Pipe, e: Event)
    requires Shape(p) && |p.buffer| <= 2 && (p.writer.WriterCopying? ==> p.writer.r == p.writer.w)
    ensures var q := Happen(p, e);
            |q.buffer| == |p.buffer| && (q.writer.WriterCopying? ==> q.writer.r == q.writer.w)
  {
  }

  /** Some schedule loses a wake-up, for good, if and only if the ring has three cells or more. */
  lemma {:induction false} CanMissIff(p: Pipe)
    requires IsNew(p)
    ensures (exists es :: Missed(Run(p, es))) <==> |p.buffer| >= 3
  {
    if |p.buffer| >= 3 {
      LosingScheduleMisses(p);
    } else {
      forall es
        ensures !Missed(Run(p, es))
      {
        SmallRing(p, es);
        WakeUpIsLostIff(p, es);
      }
    }
  }
}
