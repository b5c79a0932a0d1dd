/** One call of either end of the pipe, run through its single steps while the other end rests. */
module PipeCalls {
  import opened Bytes
  import opened HostPipe

  function Steps(e: Event, n: nat): seq<Event> {
    seq(n, _ => e)
  }

  lemma StepsNext(p: Pipe, e: Event, n: nat)
    requires Shape(p)
    ensures Run(p, Steps(e, n + 1)) == Happen(Run(p, Steps(e, n)), e)
  {
    assert Steps(e, n + 1)[..n] == Steps(e, n);
  }

  lemma StepsNone(p: Pipe, e: Event)
    requires Shape(p)
    ensures Run(p, Steps(e, 0)) == p
  {
    assert Steps(e, 0) == [];
  }

  lemma StepsTwo(p: Pipe, e: Event)
    requires Shape(p)
    ensures Run(p, Steps(e, 2)) == Happen(Happen(p, e), e)
  {
    StepsNone(p, e);
    StepsNext(p, e, 0);
    StepsNext(p, e, 1);
  }

  lemma StepsConcat(p: Pipe, e: Event, m: nat, n: nat)
    requires Shape(p)
    ensures Run(p, Steps(e, m + n)) == Run(Run(p, Steps(e, m)), Steps(e, n))
  {
    assert Steps(e, m + n) == Steps(e, m) + Steps(e, n);
    RunConcat(p, Steps(e, m), Steps(e, n));
  }

  // ------------------------------------------------------------------------------- reading

  /** The copy, byte by byte. */
  lemma {:induction false} CopiesOut(p: Pipe, r: nat, s: Split, n: nat)
    requires Inv(p) && p.reader == ReaderCopying(r, s, []) && n <= s.first + s.second
    ensures Run(p, Steps(GoRead, n)) == p.(reader := ReaderCopying(r, s, Contents(p)[..n]))
    ensures n <= Stored(p)
  {
    if n == 0 {
      StepsNone(p, GoRead);
    } else {
      CopiesOut(p, r, s, n - 1);
      StepsNext(p, GoRead, n - 1);
      CopiesOne(p, r, s, n - 1);
    }
  }

  lemma CopiesOne(p: Pipe, r: nat, s: Split, n: nat)
    requires Inv(p) && p.reader == ReaderCopying(r, s, []) && n < s.first + s.second
    ensures var q := p.(reader := ReaderCopying(r, s, Contents(p)[..n]));
            Shape(q) && Happen(q, GoRead) == p.(reader := ReaderCopying(r, s, Contents(p)[..n + 1]))
  {
    assert Contents(p)[..n + 1] == Contents(p)[..n] + [p.buffer[At(r, n, |p.buffer|)]];
  }

  lemma ReadPlanned(p: Pipe, len: nat)
    requires Inv(p) && p.reader == ReaderCalled(len) && Stored(p) > 0
    ensures var s := ReadSplit(p.readOffset, p.writeOffset, |p.buffer|, len);
            && Run(p, Steps(GoRead, 2)) == p.(reader := ReaderCopying(p.readOffset, s, []))
            && s.first + s.second == Min(len, Stored(p))
  {
    StepsTwo(p, GoRead);
    SplitsAddUp(p.readOffset, p.writeOffset, |p.buffer|, len);
  }

  lemma ReadCommits(p: Pipe, r: nat, s: Split)
    requires Inv(p) && p.reader.ReaderCopying? && p.reader.r == r && p.reader.split == s
    requires |p.reader.got| == s.first + s.second
    ensures var q := Happen(p, GoRead);
            && q.reader == ReaderIdle && q.consumed == p.consumed + p.reader.got
            && q.accepted == p.accepted && q.sem == p.sem && q.writer == p.writer
  {
  }

  /** A read of a ring that is not empty: as many bytes as asked for or there are, the oldest ones,
      and it posts nothing and waits for nothing. */
  lemma {:induction false} ReadAlone(p: Pipe, len: nat)
    requires Inv(p) && p.reader == ReaderCalled(len) && Stored(p) > 0
    ensures var n := Min(len, Stored(p));
            var q := Run(p, Steps(GoRead, n + 3));
            && Inv(q) && q.reader == ReaderIdle && q.consumed == p.consumed + Contents(p)[..n]
            && Contents(q) == Contents(p)[n..] && q.accepted == p.accepted && q.sem == p.sem
  {
    var n := Min(len, Stored(p));
    var s := ReadSplit(p.readOffset, p.writeOffset, |p.buffer|, len);
    ReadPlanned(p, len);
    PipeIsAQueue(p, Steps(GoRead, 2));
    var planned := Run(p, Steps(GoRead, 2));
    CopiesOut(planned, p.readOffset, s, n);
    PipeIsAQueue(planned, Steps(GoRead, n));
    var copied := Run(planned, Steps(GoRead, n));
    ReadCommits(copied, p.readOffset, s);
    StepsConcat(p, GoRead, 2, n);
    StepsNext(p, GoRead, n + 2);
    PipeIsAQueue(p, Steps(GoRead, n + 3));
    Remaining(p.consumed, Contents(p), n, Contents(Run(p, Steps(GoRead, n + 3))));
  }

  lemma Remaining(consumed: seq<Byte>, contents: seq<Byte>, n: nat, rest: seq<Byte>)
    requires n <= |contents| && consumed + contents == consumed + contents[..n] + rest
    ensures rest == contents[n..]
  {
    assert consumed + contents == consumed + contents[..n] + contents[n..];
    var front := consumed + contents[..n];
    assert (front + rest)[|front|..] == rest && (front + contents[n..])[|front|..] == contents[n..];
  }

  /** A read of an empty ring goes to sleep, and one post wakes it up again. */
  lemma ReadSleeps(p: Pipe, len: nat)
    requires Inv(p) && p.reader == ReaderCalled(len) && Stored(p) == 0
    ensures Run(p, Steps(GoRead, 2)) == p.(reader := ReaderBlocked(len))
    ensures var q := p.(reader := ReaderBlocked(len));
            Happen(q, GoRead) == if p.sem == 0 then q else p.(sem := p.sem - 1)
  {
    StepsTwo(p, GoRead);
    EmptyOffsets(p);
  }

  lemma EmptyOffsets(p: Pipe)
    requires Shape(p)
    ensures Stored(p) == 0 <==> p.readOffset == p.writeOffset
  {
  }

  // ------------------------------------------------------------------------------- writing

  lemma {:induction false} CopiesIn(p: Pipe, r: nat, w: nat, s: Split, data: seq<Byte>, n: nat)
    requires Inv(p) && p.writer == WriterCopying(r, w, s, data, 0) && n <= s.first + s.second
    ensures var q := Run(p, Steps(GoWrite, n));
            && q == p.(writer := WriterCopying(r, w, s, data, n), buffer := q.buffer)
            && |q.buffer| == |p.buffer|
  {
    if n == 0 {
      StepsNone(p, GoWrite);
    } else {
      CopiesIn(p, r, w, s, data, n - 1);
      StepsNext(p, GoWrite, n - 1);
    }
  }

  /** The room that is left: one cell always stays empty. */
  function Room(p: Pipe): int
    requires Shape(p)
  {
    |p.buffer| - 1 - Stored(p)
  }

  lemma WritePlanned(p: Pipe, data: seq<Byte>)
    requires Inv(p) && p.writer == WriterCalled(data) && Room(p) > 0
    ensures var s := WriteSplit(p.readOffset, p.writeOffset, |p.buffer|, |data|);
            && Run(p, Steps(GoWrite, 2)) == p.(writer := WriterCopying(p.readOffset, p.writeOffset, s, data, 0))
            && s.first + s.second == Min(|data|, Room(p))
  {
    StepsTwo(p, GoWrite);
    RoomOffsets(p);
    SplitsAddUp(p.readOffset, p.writeOffset, |p.buffer|, |data|);
  }

  lemma RoomOffsets(p: Pipe)
    requires Shape(p)
    ensures Room(p) == 0 <==> Free1(p.readOffset, p.writeOffset, |p.buffer|) == 0
  {
  }

  lemma WriteCommits(p: Pipe, r: nat, w: nat, s: Split, data: seq<Byte>)
    requires Inv(p) && p.writer == WriterCopying(r, w, s, data, s.first + s.second)
    ensures var q := Happen(Happen(p, GoWrite), GoWrite);
            && q.writer == WriterIdle && q.accepted == p.accepted + data[..s.first + s.second]
            && q.consumed == p.consumed && q.reader == p.reader
            && q.sem == if r == w then p.sem + 1 else p.sem
  {
  }

  lemma WriteCopied(p: Pipe, data: seq<Byte>)
    requires Inv(p) && p.writer == WriterCalled(data) && Room(p) > 0
    ensures var n := Min(|data|, Room(p));
            var s := WriteSplit(p.readOffset, p.writeOffset, |p.buffer|, |data|);
            var q := Run(p, Steps(GoWrite, n + 2));
            && Inv(q) && s.first + s.second == n
            && q == p.(writer := WriterCopying(p.readOffset, p.writeOffset, s, data, n), buffer := q.buffer)
  {
    var n := Min(|data|, Room(p));
    var s := WriteSplit(p.readOffset, p.writeOffset, |p.buffer|, |data|);
    WritePlanned(p, data);
    PipeIsAQueue(p, Steps(GoWrite, 2));
    CopiesIn(Run(p, Steps(GoWrite, 2)), p.readOffset, p.writeOffset, s, data, n);
    StepsConcat(p, GoWrite, 2, n);
    PipeIsAQueue(p, Steps(GoWrite, n + 2));
  }

  /** A sink call on a ring that is not full takes as many bytes as there is room for, and posts
      exactly if the ring was empty. */
  lemma {:induction false} WriteAlone(p: Pipe, data: seq<Byte>)
    requires Inv(p) && p.writer == WriterCalled(data) && Room(p) > 0
    ensures var n := Min(|data|, Room(p));
            var q := Run(p, Steps(GoWrite, n + 4));
            && Inv(q) && q.writer == WriterIdle && q.accepted == p.accepted + data[..n]
            && Contents(q) == Contents(p) + data[..n] && q.consumed == p.consumed
            && q.sem == if Stored(p) == 0 then p.sem + 1 else p.sem
  {
    var n := Min(|data|, Room(p));
    WriteCopied(p, data);
    WriteCommits(Run(p, Steps(GoWrite, n + 2)), p.readOffset, p.writeOffset,
                 WriteSplit(p.readOffset, p.writeOffset, |p.buffer|, |data|), data);
    EmptyOffsets(p);
    StepsNext(p, GoWrite, n + 2);
    StepsNext(p, GoWrite, n + 3);
    PipeIsAQueue(p, Steps(GoWrite, n + 4));
    Extended(p.consumed, Contents(p), data[..n], Contents(Run(p, Steps(GoWrite, n + 4))));
  }

  lemma Extended(consumed: seq<Byte>, contents: seq<Byte>, more: seq<Byte>, now: seq<Byte>)
    requires consumed + contents + more == consumed + now
    ensures now == contents + more
  {
    assert consumed + contents + more == consumed + (contents + more);
    assert (consumed + now)[|consumed|..] == now;
    assert (consumed + (contents + more))[|consumed|..] == contents + more;
  }

  /** On a full one it takes nothing. */
  lemma WriteRefused(p: Pipe, data: seq<Byte>)
    requires Inv(p) && p.writer == WriterCalled(data) && Room(p) == 0
    ensures Run(p, Steps(GoWrite, 2)) == p.(writer := WriterIdle)
  {
    StepsTwo(p, GoWrite);
    RoomOffsets(p);
  }
}
