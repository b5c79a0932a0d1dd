/** Channels in raw mode: what reaches the sink of a channel that is not packetized. */
module RawDelivery {
  import opened Bytes
  import opened AvalonSt
  import opened HostBridge
  import opened Demux
  import opened Exposure
  import opened BadCuts
  import opened Options

  /** The line stands on the raw channel `c`, and no prefix is pending. */
  predicate StandsOn(g: Gate, c: Channel) {
    !c.packetized && g.sink == Some(c) && !g.channelPrefix && !g.escapePrefix
  }

  predicate RawArrives(channels: seq<Channel>, g: Gate, c: Channel, data: seq<Byte>, chunks: seq<seq<Byte>>) {
    Delivered(ServeAll(channels, g, chunks).delivered, c.number) == Delivered(g.delivered, c.number) + data
  }

  /** The reads are a cutting of the escaped form of `data`. */
  predicate Cuts(data: seq<Byte>, chunks: seq<seq<Byte>>) {
    Readable(chunks) && Join(chunks) == EscapeAll(data)
  }

  lemma {:induction false} PlainRoute(channels: seq<Channel>, d: Demux, bs: seq<Byte>)
    requires IsRaw(d.sink) && !d.channelPrefix && !d.escapePrefix && AllPlain(bs)
    ensures GentleAll(channels, d, bs) && RouteAll(channels, d, bs) == d.(held := d.held + bs)
  {
    if bs == [] {
      assert d.held + bs == d.held;
    } else {
      var before, b := AllButLast(bs), bs[|bs| - 1];
      PlainRoute(channels, d, before);
      assert b in bs;
      HeldNext(d.held, bs);
    }
  }

  lemma HeldNext(held: seq<Byte>, bs: seq<Byte>)
    requires bs != []
    ensures held + AllButLast(bs) + [bs[|bs| - 1]] == held + bs
  {
    assert bs == AllButLast(bs) + [bs[|bs| - 1]];
  }

  lemma PlainRead(channels: seq<Channel>, g: Gate, c: Channel, read: seq<Byte>)
    requires StandsOn(g, c) && AllPlain(read)
    ensures Serve(channels, g, read) == g.(delivered := Deliver(g.delivered, g.sink, read))
  {
    var d := Demux(g.sink, g.channelPrefix, g.escapePrefix, [], g.delivered);
    PlainRoute(channels, d, read);
    assert [] + read == read;
    ServeIsServeRead(channels, d, read);
  }

  /** Plain bytes arrive as they are, whatever the cutting: nothing is dropped or rewritten. */
  lemma {:induction false} PlainReads(channels: seq<Channel>, g: Gate, c: Channel, chunks: seq<seq<Byte>>)
    requires StandsOn(g, c) && AllPlain(Join(chunks))
    ensures ServeAll(channels, g, chunks) == g.(delivered := Deliver(g.delivered, g.sink, Join(chunks)))
  {
    if chunks != [] {
      var n := |chunks| - 1;
      var before := Join(chunks[..n]);
      assert forall b :: b in before || b in chunks[n] ==> b in Join(chunks);
      PlainReads(channels, g, c, chunks[..n]);
      PlainRead(channels, ServeAll(channels, g, chunks[..n]), c, chunks[n]);
      DeliverTwice(g.delivered, g.sink, before, chunks[n]);
    }
  }

  /** What a sink has been handed is never taken back. */
  lemma {:induction false} ScanGrows(channels: seq<Channel>, s: Scan, k: Byte)
    requires s.Open()
    ensures Delivered(s.delivered, k) <= Delivered(ScanAll(channels, s).delivered, k)
    decreases s.readLen - s.index
  {
    if s.index < s.readLen {
      StepGrows(channels, s, k);
      ScanGrows(channels, ScanStep(channels, s), k);
    }
  }

  lemma StepGrows(channels: seq<Channel>, s: Scan, k: Byte)
    requires s.Valid() && s.index < s.readLen
    ensures Delivered(s.delivered, k) <= Delivered(ScanStep(channels, s).delivered, k)
  {
  }

  lemma {:induction false} ServeAllGrows(channels: seq<Channel>, g: Gate, chunks: seq<seq<Byte>>, k: Byte)
    ensures Delivered(g.delivered, k) <= Delivered(ServeAll(channels, g, chunks).delivered, k)
  {
    if chunks != [] {
      var n := |chunks| - 1;
      ServeAllGrows(channels, g, chunks[..n], k);
      var h := ServeAll(channels, g, chunks[..n]);
      ScanGrows(channels, Scan(chunks[n], |chunks[n]|, 0, 0, h.sink, h.channelPrefix, h.escapePrefix, h.delivered), k);
    }
  }

  /** An escape and its body in one read: the shift overwrites the escape with the body, and the
      body is then passed over. */
  lemma EscapedPair(channels: seq<Channel>, g: Gate, c: Channel, e: Byte)
    requires StandsOn(g, c)
    ensures Serve(channels, g, [ESCAPE_PREFIX, e]).delivered == Deliver(g.delivered, g.sink, [e])
  {
    var read := [ESCAPE_PREFIX, e];
    var s := Scan(read, 2, 0, 0, g.sink, g.channelPrefix, g.escapePrefix, g.delivered);
    assert MoveDown(read, 1) == [e, e];
    var t := ScanStep(channels, s);
    assert t == s.(buffer := [e, e], readLen := 1, index := 1, escapePrefix := true);
    assert ScanAll(channels, s) == ScanAll(channels, t);
    assert ScanAll(channels, t) == t.(delivered := Deliver(t.delivered, t.sink, Slice(t.buffer, 0, 1)));
    assert Slice([e, e], 0, 1) == [e];
  }

  lemma {:induction false} ServeAllConcat(channels: seq<Channel>, g: Gate, a: seq<seq<Byte>>, b: seq<seq<Byte>>)
    ensures ServeAll(channels, g, a + b) == ServeAll(channels, ServeAll(channels, g, a), b)
  {
    if b == [] {
      assert a + b == a;
    } else {
      var n := |b| - 1;
      assert (a + b)[..|a + b| - 1] == a + b[..n];
      ServeAllConcat(channels, g, a, b[..n]);
    }
  }

  function FirstSpecial(data: seq<Byte>): (i: nat)
    requires !AllPlain(data)
    ensures i < |data| && NeedsEscape(data[i]) && AllPlain(data[..i])
  {
    if AllPlain(AllButLast(data)) then |data| - 1
    else
      assert AllButLast(data)[..FirstSpecial(AllButLast(data))] == data[..FirstSpecial(AllButLast(data))];
      FirstSpecial(AllButLast(data))
  }

  /** Single bytes, but for the first escape, which comes with its body. */
  function BadReads(data: seq<Byte>): seq<seq<Byte>>
    requires !AllPlain(data)
  {
    var i := FirstSpecial(data);
    Singles(data[..i]) + [EscapeByte(data[i])] + Singles(EscapeAll(data[i + 1..]))
  }

  lemma {:induction false} EscapeAllConcat(a: seq<Byte>, b: seq<Byte>)
    ensures EscapeAll(a + b) == EscapeAll(a) + EscapeAll(b)
  {
    if b == [] {
      assert a + b == a;
    } else {
      var n := |b| - 1;
      assert (a + b)[..|a + b| - 1] == a + b[..n];
      EscapeAllConcat(a, b[..n]);
    }
  }

  lemma EscapeAllAround(front: seq<Byte>, b: Byte, rest: seq<Byte>)
    requires AllPlain(front)
    ensures EscapeAll(front + [b] + rest) == front + EscapeByte(b) + EscapeAll(rest)
  {
    EscapeAllOfPlain(front);
    EscapeAllConcat(front + [b], rest);
    assert (front + [b])[..|front|] == front;
  }

  lemma BadReadsCut(data: seq<Byte>)
    requires !AllPlain(data)
    ensures Cuts(data, BadReads(data))
  {
    var i := FirstSpecial(data);
    var front, rest := data[..i], data[i + 1..];
    assert data == front + [data[i]] + rest;
    EscapeAllAround(front, data[i], rest);
    JoinSingles(front);
    JoinOne(EscapeByte(data[i]));
    JoinSingles(EscapeAll(rest));
    JoinConcat(Singles(front), [EscapeByte(data[i])]);
    JoinConcat(Singles(front) + [EscapeByte(data[i])], Singles(EscapeAll(rest)));
  }

  lemma ServeAllOne(channels: seq<Channel>, g: Gate, read: seq<Byte>)
    ensures ServeAll(channels, g, [read]) == Serve(channels, g, read)
  {
    assert [read][..0] == [];
  }

  /** Plain bytes, then the pair: the body arrives as it is on the line. */
  lemma PairArrives(channels: seq<Channel>, g: Gate, c: Channel, front: seq<Byte>, b: Byte)
    requires StandsOn(g, c) && AllPlain(front) && NeedsEscape(b)
    ensures var h := ServeAll(channels, g, Singles(front) + [EscapeByte(b)]);
            Delivered(h.delivered, c.number) == Delivered(g.delivered, c.number) + front + [EscapeXor(b)]
  {
    JoinSingles(front);
    PlainReads(channels, g, c, Singles(front));
    var h := ServeAll(channels, g, Singles(front));
    assert Delivered(h.delivered, c.number) == Delivered(g.delivered, c.number) + front;
    EscapedPair(channels, h, c, EscapeXor(b));
    ServeAllOne(channels, h, EscapeByte(b));
    ServeAllConcat(channels, g, Singles(front), [EscapeByte(b)]);
  }

  lemma BadReadsSpoil(channels: seq<Channel>, g: Gate, c: Channel, data: seq<Byte>)
    requires StandsOn(g, c) && !AllPlain(data)
    ensures !RawArrives(channels, g, c, data, BadReads(data))
  {
    var i := FirstSpecial(data);
    var early := Singles(data[..i]) + [EscapeByte(data[i])];
    var rest := Singles(EscapeAll(data[i + 1..]));
    PairArrives(channels, g, c, data[..i], data[i]);
    var h := ServeAll(channels, g, early);
    ServeAllGrows(channels, h, rest, c.number);
    ServeAllConcat(channels, g, early, rest);
    Differs(Delivered(g.delivered, c.number), data, i, EscapeXor(data[i]),
            Delivered(ServeAll(channels, h, rest).delivered, c.number));
  }

  lemma Differs(before: seq<Byte>, data: seq<Byte>, i: nat, e: Byte, handed: seq<Byte>)
    requires i < |data| && e != data[i] && before + data[..i] + [e] <= handed
    ensures handed != before + data
  {
    assert (before + data)[|before| + i] == data[i];
    assert (before + data[..i] + [e])[|before| + i] == e;
  }

  /** Raw delivery is right for every cutting if and only if no byte needs escaping. */
  lemma RawArrivesIff(channels: seq<Channel>, g: Gate, c: Channel, data: seq<Byte>)
    requires StandsOn(g, c)
    ensures (forall chunks :: Cuts(data, chunks) ==> RawArrives(channels, g, c, data, chunks)) <==> AllPlain(data)
  {
    if AllPlain(data) {
      EscapeAllOfPlain(data);
      forall chunks | Cuts(data, chunks)
        ensures RawArrives(channels, g, c, data, chunks)
      {
        PlainReads(channels, g, c, chunks);
        assert Delivered(g.delivered, c.number) + [] == Delivered(g.delivered, c.number);
      }
    } else {
      BadReadsCut(data);
      BadReadsSpoil(channels, g, c, data);
    }
  }

  /** For example: the shift that drops a special byte moves the start of the buffer instead of the
      rest, and the escaped form of 41 7a reaches a raw sink as 7d 7d. */
  lemma RawSinkGetsWrongBytes(raw: Channel)
    requires !raw.packetized && raw.number == 1
    ensures EscapeAll([0x41, 0x7a]) == [0x41, 0x7d, 0x5a]
    ensures Delivered(ScanAll([raw], Scan([0x41, 0x7d, 0x5a], 3, 0, 0, Some(raw), false, false, map[])).delivered, 1)
            == [0x7d, 0x7d]
  {
    EscapedExample();
    var s0 := Scan([0x41, 0x7d, 0x5a], 3, 0, 0, Some(raw), false, false, map[]);
    var s1 := ScanStep([raw], s0);
    assert s1 == s0.(index := 1);
    ShiftedScan(raw);
    var s2 := ScanStep([raw], s1);
    assert ScanAll([raw], s2) == s2.(delivered := Deliver(map[], Some(raw), Slice(s2.buffer, 0, 2)));
    assert Slice(s2.buffer, 0, 2) == [0x7d, 0x7d];
  }

  lemma EscapedExample()
    ensures EscapeAll([0x41, 0x7a]) == [0x41, 0x7d, 0x5a]
  {
    assert [0x41, 0x7a][..1] == [0x41] && [0x41][..0] == [];
    assert EscapeAll([0x41]) == [0x41];
  }

  lemma ShiftedScan(raw: Channel)
    requires !raw.packetized
    ensures ScanStep([raw], Scan([0x41, 0x7d, 0x5a], 3, 1, 0, Some(raw), false, false, map[]))
         == Scan([0x7d, 0x7d, 0x5a], 2, 2, 0, Some(raw), false, true, map[])
  {
    assert MoveDown([0x41, 0x7d, 0x5a], 1) == [0x7d, 0x7d, 0x5a];
  }
}
