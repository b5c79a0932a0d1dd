/** What a raw channel can do to a packetized one beside it: a read that spoils the raw data can
    also lose the channel number that follows. */
module RawBeside {
  import opened Bytes
  import opened AvalonSt
  import opened HostBridge
  import opened SourceRun
  import opened Demux
  import opened Exposure
  import opened BadCuts
  import opened RawDelivery
  import opened EndToEnd
  import opened RawCalls
  import opened Options

  /** The last call sends a packet on `k`; the line stands on the raw channel `r` before it. */
  predicate PacketAfterRaw(calls: seq<Call>, r: Channel, k: Channel) {
    && |calls| > 0 && !r.packetized && k.packetized && r.number != k.number
    && calls[|calls| - 1].channel.number == k.number && calls[|calls| - 1].packetize && calls[|calls| - 1].data != []
    && Current(calls[..|calls| - 1]) == r.number
  }

  /** What was sent last on `r` was data, and its last byte is escaped on the line. */
  predicate EndsEscaped(calls: seq<Call>) {
    calls != [] &&
    var c := calls[|calls| - 1];
    !c.packetize && c.data != [] && NeedsEscape(c.data[|c.data| - 1])
  }

  // -------------------------------------------------------------------- reads byte by byte

  lemma ServeByteHere(channels: seq<Channel>, g: Gate, b: Byte, k: Channel)
    requires g.sink == Some(k) && k.packetized && !g.channelPrefix
    ensures Delivered(Serve(channels, g, [b]).delivered, k.number) == Delivered(g.delivered, k.number) + [b]
  {
    var s := ScanOf(g, [b]);
    ScanLast(channels, s);
    assert Slice([b], 0, 1) == [b];
    DeliveredMore(g.delivered, k, [b]);
  }

  predicate HereOrElsewhere(g: Gate, k: Channel) {
    (g.sink == Some(k) && k.packetized) || (g.sink.Some? ==> g.sink.value.number != k.number)
  }

  /** Without channel prefixes the sink stays, and is handed every byte if it is packetized. */
  lemma {:induction false} ServeSinglesAt(channels: seq<Channel>, g: Gate, bs: seq<Byte>, k: Channel)
    requires HereOrElsewhere(g, k) && !g.channelPrefix && CHANNEL_PREFIX !in bs
    ensures var h := ServeAll(channels, g, Singles(bs));
            && h.sink == g.sink && !h.channelPrefix
            && Delivered(h.delivered, k.number) ==
               Delivered(g.delivered, k.number) + if g.sink == Some(k) then bs else []
  {
    if bs != [] {
      var before, b := AllButLast(bs), bs[|bs| - 1];
      ServeSinglesAt(channels, g, before, k);
      SinglesNext(bs);
      var h := ServeAll(channels, g, Singles(before));
      ServeByteFlags(channels, h, b);
      if g.sink == Some(k) {
        ServeByteHere(channels, h, b, k);
        assert before + [b] == bs;
      } else {
        ServeByteElsewhere(channels, h, b, k.number);
      }
    }
  }

  lemma {:induction false} ServeTwoSingles(channels: seq<Channel>, g: Gate, a: Byte, b: Byte)
    ensures ServeAll(channels, g, Singles([a, b])) == Serve(channels, Serve(channels, g, [a]), [b])
  {
    assert [] + [a] == [a] && [a] + [b] == [a, b];
    SinglesAppend([], a);
    SinglesAppend([a], b);
    ServeAllNext(channels, g, Singles([]), [a]);
    ServeAllNext(channels, g, Singles([a]), [b]);
  }

  /** Nothing reaches `k` while the line leaves another channel. */
  lemma {:induction false} ServeSelectSingles(channels: seq<Channel>, g: Gate, number: Byte, k: Channel)
    requires g.sink.Some? ==> g.sink.value.number != k.number
    requires !g.channelPrefix && !g.escapePrefix
    ensures var h := ServeAll(channels, g, Singles(ChannelSelect(number)));
            h.sink == Find(channels, number) && !h.channelPrefix
            && Delivered(h.delivered, k.number) == Delivered(g.delivered, k.number)
  {
    ServeByteElsewhere(channels, g, CHANNEL_PREFIX, k.number);
    ServeByteFlags(channels, g, CHANNEL_PREFIX);
    var g1 := Serve(channels, g, [CHANNEL_PREFIX]);
    if NeedsEscape(number) {
      var x := EscapeXor(number);
      EscapeXorInvolutive(number);
      ServeByteElsewhere(channels, g1, ESCAPE_PREFIX, k.number);
      ServeByteFlags(channels, g1, ESCAPE_PREFIX);
      var g2 := Serve(channels, g1, [ESCAPE_PREFIX]);
      ServeByteElsewhere(channels, g2, x, k.number);
      ServeByteFlags(channels, g2, x);
      SinglesAppend([CHANNEL_PREFIX, ESCAPE_PREFIX], x);
      ServeTwoSingles(channels, g, CHANNEL_PREFIX, ESCAPE_PREFIX);
      ServeAllNext(channels, g, Singles([CHANNEL_PREFIX, ESCAPE_PREFIX]), [x]);
      assert [CHANNEL_PREFIX, ESCAPE_PREFIX] + [x] == ChannelSelect(number);
    } else {
      ServeByteElsewhere(channels, g1, number, k.number);
      ServeByteFlags(channels, g1, number);
      ServeTwoSingles(channels, g, CHANNEL_PREFIX, number);
      assert [CHANNEL_PREFIX, number] == ChannelSelect(number);
    }
  }

  lemma SinglesAppend(bs: seq<Byte>, b: Byte)
    ensures Singles(bs + [b]) == Singles(bs) + [[b]]
  {
    assert AllButLast(bs + [b]) == bs;
  }

  lemma ServeAllNext(channels: seq<Channel>, g: Gate, chunks: seq<seq<Byte>>, read: seq<Byte>)
    ensures ServeAll(channels, g, chunks + [read]) == Serve(channels, ServeAll(channels, g, chunks), read)
  {
    assert (chunks + [read])[..|chunks|] == chunks;
  }

  /** A frame after the right number. */
  lemma {:induction false} FrameArrives(channels: seq<Channel>, g: Gate, k: Channel, data: seq<Byte>)
    requires Distinct(channels) && k in channels && k.packetized
    requires Elsewhere(g, k) && !g.escapePrefix
    ensures var h := ServeAll(channels, g, Singles(ChannelSelect(k.number)) + Singles(Frame(data)));
            Delivered(h.delivered, k.number) == Delivered(g.delivered, k.number) + Frame(data)
  {
    ServeSelectSingles(channels, g, k.number, k);
    assert Find(channels, k.number) == Some(k);
    FrameHasNoSelect(data);
    ServeSinglesAt(channels, ServeAll(channels, g, Singles(ChannelSelect(k.number))), Frame(data), k);
    ServeAllConcat(channels, g, Singles(ChannelSelect(k.number)), Singles(Frame(data)));
  }

  lemma FrameHasNoSelect(data: seq<Byte>)
    ensures CHANNEL_PREFIX !in Frame(data)
  {
    if data != [] {
      EscapedHasNoSelect(data[..|data| - 1]);
    }
  }

  // -------------------------------------------------------------------- reads that mislead

  /** An escaped byte of raw data and the next channel number in one read: the escape is still
      pending when the number comes. */
  lemma {:induction false} EscapeMeetsNumber(channels: seq<Channel>, g: Gate, c: Channel, e: Byte, number: Byte)
    requires StandsOn(g, c) && !NeedsEscape(number)
    ensures var h := Serve(channels, g, [ESCAPE_PREFIX, e, CHANNEL_PREFIX, number]);
            h.sink == Find(channels, EscapeXor(number)) && !h.channelPrefix
            && h.delivered == Deliver(g.delivered, g.sink, [e])
  {
    var s := ScanOf(g, [ESCAPE_PREFIX, e, CHANNEL_PREFIX, number]);
    var t := s.(buffer := [e, CHANNEL_PREFIX, number, number], readLen := 3, escapePrefix := true, index := 1);
    assert MoveDown(s.buffer, 3) == t.buffer;
    TwoSteps(channels, s, t);
    var u := t.(channelPrefix := true, index := 2);
    TwoSteps(channels, t, u);
    ScanLast(channels, u);
    assert u.buffer[2 := EscapeXor(number)][0..1] == [e];
  }

  /** An escaped number in one read: prefix and escape stay pending, and take the start of the
      packet that follows for the number. */
  lemma {:induction false} StartMeetsPrefix(channels: seq<Channel>, g: Gate, c: Channel, x: Byte)
    requires StandsOn(g, c)
    ensures var h := Serve(channels, Serve(channels, g, [CHANNEL_PREFIX, ESCAPE_PREFIX, x]), [SOP]);
            h.sink == Find(channels, EscapeXor(SOP)) && !h.channelPrefix
            && h.delivered == Deliver(g.delivered, g.sink, [ESCAPE_PREFIX, ESCAPE_PREFIX])
  {
    EscapedNumberWhole(channels, g, c, x);
    EscapedNumberFlags(channels, g, c, x);
    var h := Serve(channels, g, [CHANNEL_PREFIX, ESCAPE_PREFIX, x]);
    ServeByteFlags(channels, h, SOP);
    ServeRawByte(channels, h, SOP);
  }

  lemma EscapedNumberFlags(channels: seq<Channel>, g: Gate, c: Channel, x: Byte)
    requires StandsOn(g, c)
    ensures var h := Serve(channels, g, [CHANNEL_PREFIX, ESCAPE_PREFIX, x]);
            h.sink == g.sink && h.channelPrefix && h.escapePrefix
  {
    var s := ScanOf(g, [CHANNEL_PREFIX, ESCAPE_PREFIX, x]);
    var t := s.(channelPrefix := true, index := 1);
    TwoSteps(channels, s, t);
    ScanLast(channels, t);
  }

  // ---------------------------------------------------------------------- packets get lost

  ghost predicate ArriveForAnyCut(channels: seq<Channel>, calls: seq<Call>, k: Channel) {
    forall chunks :: CutsLine(calls, chunks) ==> Arrives(channels, calls, chunks, k)
  }

  /** One cutting hands `k` a frame more than another: they cannot both be right. */
  lemma FrameMoreOrLess(channels: seq<Channel>, calls: seq<Call>, k: Channel, a: seq<seq<Byte>>, b: seq<seq<Byte>>,
                        data: seq<Byte>)
    requires CutsLine(calls, a) && CutsLine(calls, b) && data != []
    requires Handed(channels, a, k) == Handed(channels, b, k) + Frame(data)
    ensures !ArriveForAnyCut(channels, calls, k)
  {
    AcceptAllConcat(NEW_DEFRAMER, Handed(channels, b, k), Frame(data));
    AcceptFrame(AcceptAll(NEW_DEFRAMER, Handed(channels, b, k)), data);
    assert Arrives(channels, calls, a, k) ==> !Arrives(channels, calls, b, k);
  }

  predicate Elsewhere(g: Gate, k: Channel) {
    (g.sink.Some? ==> g.sink.value.number != k.number) && !g.channelPrefix
  }

  /** The line up to the last packet's channel number is read in `good`: single bytes do the rest. */
  lemma {:induction false} FinishGood(channels: seq<Channel>, calls: seq<Call>, k: Channel, data: seq<Byte>,
                                      good: seq<seq<Byte>>)
    requires Distinct(channels) && k in channels && k.packetized
    requires Readable(good) && Join(good) + ChannelSelect(k.number) + Frame(data) == LineOf(calls)
    requires var g := ServeAll(channels, NEW_GATE, good); Elsewhere(g, k) && !g.escapePrefix
    ensures var all := good + (Singles(ChannelSelect(k.number)) + Singles(Frame(data)));
            CutsLine(calls, all) && Handed(channels, all, k) == Handed(channels, good, k) + Frame(data)
  {
    var select, frame := Singles(ChannelSelect(k.number)), Singles(Frame(data));
    FrameArrives(channels, ServeAll(channels, NEW_GATE, good), k, data);
    ServeAllConcat(channels, NEW_GATE, good, select + frame);
    JoinSingles(ChannelSelect(k.number));
    JoinSingles(Frame(data));
    JoinConcat(select, frame);
    JoinConcat(good, select + frame);
    Assoc(Join(good), ChannelSelect(k.number), Frame(data));
  }

  /** After `bad` the gate is not where the line is: the rest is lost. */
  lemma {:induction false} FinishBad(channels: seq<Channel>, calls: seq<Call>, k: Channel, bad: seq<seq<Byte>>,
                                     rest: seq<Byte>)
    requires Readable(bad) && Join(bad) + rest == LineOf(calls) && CHANNEL_PREFIX !in rest
    requires Elsewhere(ServeAll(channels, NEW_GATE, bad), k)
    ensures var all := bad + Singles(rest);
            CutsLine(calls, all) && Handed(channels, all, k) == Handed(channels, bad, k)
  {
    ServeSinglesAt(channels, ServeAll(channels, NEW_GATE, bad), rest, k);
    ServeAllConcat(channels, NEW_GATE, bad, Singles(rest));
    JoinSingles(rest);
    JoinConcat(bad, Singles(rest));
    assert Handed(channels, bad, k) + [] == Handed(channels, bad, k);
  }

  lemma {:induction false} FrameGoesAstray(channels: seq<Channel>, calls: seq<Call>, k: Channel, data: seq<Byte>,
                                           good: seq<seq<Byte>>, bad: seq<seq<Byte>>, rest: seq<Byte>)
    requires Distinct(channels) && k in channels && k.packetized && data != []
    requires Readable(good) && Join(good) + ChannelSelect(k.number) + Frame(data) == LineOf(calls)
    requires Readable(bad) && Join(bad) + rest == LineOf(calls) && CHANNEL_PREFIX !in rest
    requires var g := ServeAll(channels, NEW_GATE, good); Elsewhere(g, k) && !g.escapePrefix
    requires Elsewhere(ServeAll(channels, NEW_GATE, bad), k)
    requires Handed(channels, good, k) == Handed(channels, bad, k)
    ensures !ArriveForAnyCut(channels, calls, k)
  {
    FinishGood(channels, calls, k, data, good);
    FinishBad(channels, calls, k, bad, rest);
    FrameMoreOrLess(channels, calls, k, good + (Singles(ChannelSelect(k.number)) + Singles(Frame(data))),
                    bad + Singles(rest), data);
  }

  lemma DeliveredElsewhere(m: Deliveries, r: Channel, bs: seq<Byte>, k: Channel)
    requires r.number != k.number
    ensures Delivered(Deliver(m, Some(r), bs), k.number) == Delivered(m, k.number)
  {
  }

  /** The line of a packet that is sent last, on another channel. */
  lemma LastLine(calls: seq<Call>, r: Channel, k: Channel)
    requires PacketAfterRaw(calls, r, k)
    ensures var n := |calls| - 1;
            LineOf(calls) == LineOf(calls[..n]) + ChannelSelect(k.number) + Frame(calls[n].data)
  {
    var n := |calls| - 1;
    Assoc(LineOf(calls[..n]), ChannelSelect(k.number), Frame(calls[n].data));
  }

  /** The misleading reads: an escaped number whole, and the start of the frame. */
  lemma ReadsOfNumber(front: seq<Byte>, number: Byte, data: seq<Byte>)
    requires NeedsEscape(number) && data != []
    ensures var bad := Singles(front) + [ChannelSelect(number)] + [[SOP]];
            Readable(bad) && Join(bad) + FrameBody(data) == front + ChannelSelect(number) + Frame(data)
    ensures CHANNEL_PREFIX !in FrameBody(data)
  {
    var select := ChannelSelect(number);
    JoinSingles(front);
    JoinOne(select);
    JoinOne([SOP]);
    JoinConcat(Singles(front), [select]);
    JoinConcat(Singles(front) + [select], [[SOP]]);
    FrameIsSopAndBody(data);
    FrameHasNoSelect(data);
    Assoc(front + select, [SOP], FrameBody(data));
  }

  /** `front` leaves the line on the raw channel `r`, read byte by byte. */
  ghost predicate LeadsTo(channels: seq<Channel>, front: seq<Byte>, r: Channel) {
    StandsOn(ServeAll(channels, NEW_GATE, Singles(front)), r)
  }

  lemma NumberMissed(channels: seq<Channel>, front: seq<Byte>, r: Channel, k: Channel)
    requires LeadsTo(channels, front, r) && r.number != k.number && NeedsEscape(k.number)
    ensures var bad := Singles(front) + [ChannelSelect(k.number)] + [[SOP]];
            Elsewhere(ServeAll(channels, NEW_GATE, bad), k)
            && Handed(channels, bad, k) == Handed(channels, Singles(front), k)
  {
    var g := ServeAll(channels, NEW_GATE, Singles(front));
    var x := EscapeXor(k.number);
    StartMeetsPrefix(channels, g, r, x);
    DeliveredElsewhere(g.delivered, r, [ESCAPE_PREFIX, ESCAPE_PREFIX], k);
    assert ChannelSelect(k.number) == [CHANNEL_PREFIX, ESCAPE_PREFIX, x];
    ReadAfter(channels, front, ChannelSelect(k.number));
    ReadMore(channels, Singles(front) + [ChannelSelect(k.number)], [SOP]);
  }

  /** A raw channel is left by an escaped number. */
  lemma {:induction false} LostAfterEscapedNumber(channels: seq<Channel>, calls: seq<Call>, r: Channel, k: Channel)
    requires Distinct(channels) && r in channels && k in channels && AllEscaped(calls)
    requires PacketAfterRaw(calls, r, k) && NeedsEscape(k.number)
    ensures !ArriveForAnyCut(channels, calls, k)
  {
    var n := |calls| - 1;
    var front, data := LineOf(calls[..n]), calls[n].data;
    LastLine(calls, r, k);
    RunDecodes(calls[..n]);
    StandsAfter(channels, front, r);
    NumberMissed(channels, front, r, k);
    ReadsOfNumber(front, k.number, data);
    JoinSingles(front);
    FrameGoesAstray(channels, calls, k, data, Singles(front), Singles(front) + [ChannelSelect(k.number)] + [[SOP]],
                    FrameBody(data));
  }

  lemma NumberMisread(channels: seq<Channel>, front: seq<Byte>, r: Channel, k: Channel, e: Byte)
    requires LeadsTo(channels, front, r) && r.number != k.number && !NeedsEscape(k.number) && !NeedsEscape(e)
    ensures var bad := Singles(front) + [[ESCAPE_PREFIX, e, CHANNEL_PREFIX, k.number]];
            && Readable(bad) && Join(bad) == front + [ESCAPE_PREFIX, e, CHANNEL_PREFIX, k.number]
            && Elsewhere(ServeAll(channels, NEW_GATE, bad), k)
            && Handed(channels, bad, k) == Handed(channels, Singles(front), k)
  {
    var g := ServeAll(channels, NEW_GATE, Singles(front));
    EscapeMeetsNumber(channels, g, r, e, k.number);
    DeliveredElsewhere(g.delivered, r, [e], k);
    ReadAfter(channels, front, [ESCAPE_PREFIX, e, CHANNEL_PREFIX, k.number]);
  }

  lemma ByteApart(channels: seq<Channel>, front: seq<Byte>, r: Channel, k: Channel, e: Byte)
    requires LeadsTo(channels, front, r) && r.number != k.number && !NeedsEscape(e)
    ensures var good := Singles(front) + [[ESCAPE_PREFIX]] + [[e]];
            var h := ServeAll(channels, NEW_GATE, good);
            && Readable(good) && Join(good) == front + [ESCAPE_PREFIX, e]
            && Elsewhere(h, k) && !h.escapePrefix
            && Handed(channels, good, k) == Handed(channels, Singles(front), k)
  {
    ReadTwiceAfter(channels, front, ESCAPE_PREFIX, e);
    EscapedByteSingly(channels, ServeAll(channels, NEW_GATE, Singles(front)), r, e, k);
  }

  /** The last byte sent on it is escaped. */
  lemma {:induction false} LostAfterEscapedByte(channels: seq<Channel>, calls: seq<Call>, r: Channel, k: Channel)
    requires Distinct(channels) && r in channels && k in channels && AllEscaped(calls)
    requires PacketAfterRaw(calls, r, k) && EndsEscaped(calls[..|calls| - 1]) && !NeedsEscape(k.number)
    ensures !ArriveForAnyCut(channels, calls, k)
  {
    var n := |calls| - 1;
    var data := calls[n].data;
    var front, e := BeforeLast(calls[..n]), LastBody(calls[..n]);
    LastLine(calls, r, k);
    RawLine(calls[..n]);
    RawDecodes(calls[..n]);
    StandsAfter(channels, front, r);
    NumberMisread(channels, front, r, k, e);
    ByteApart(channels, front, r, k, e);
    FrameHasNoSelect(data);
    EscapeAndNumber(front, e, k.number);
    FrameGoesAstray(channels, calls, k, data, Singles(front) + [[ESCAPE_PREFIX]] + [[e]],
                    Singles(front) + [[ESCAPE_PREFIX, e, CHANNEL_PREFIX, k.number]], Frame(data));
  }

  lemma EscapeAndNumber(front: seq<Byte>, e: Byte, number: Byte)
    requires !NeedsEscape(number)
    ensures front + [ESCAPE_PREFIX, e] + ChannelSelect(number) == front + [ESCAPE_PREFIX, e, CHANNEL_PREFIX, number]
  {
  }

  /** The line up to the last byte sent, and the body of its escaped form. */
  function BeforeLast(calls: seq<Call>): seq<Byte>
    requires EndsEscaped(calls)
  {
    var n := |calls| - 1;
    UpTo(calls, n) + EscapeAll(calls[n].data[..|calls[n].data| - 1])
  }

  function LastBody(calls: seq<Call>): (e: Byte)
    requires EndsEscaped(calls)
    ensures !NeedsEscape(e)
  {
    var data := calls[|calls| - 1].data;
    EscapeXor(data[|data| - 1])
  }

  lemma {:induction false} RawDecodes(calls: seq<Call>)
    requires EndsEscaped(calls) && AllEscaped(calls)
    ensures var l := TakeAll(START, BeforeLast(calls));
            LegalAll(START, BeforeLast(calls)) && Idle(l) && l.channel == Current(calls)
  {
    var n := |calls| - 1;
    var body := calls[n].data[..|calls[n].data| - 1];
    UpToDecodes(calls, n);
    TakeEscaped(TakeAll(START, UpTo(calls, n)), body);
    TakeAllConcat(START, UpTo(calls, n), EscapeAll(body));
  }

  lemma {:induction false} RawLine(calls: seq<Call>)
    requires EndsEscaped(calls) && AllEscaped(calls)
    ensures LineOf(calls) == BeforeLast(calls) + [ESCAPE_PREFIX, LastBody(calls)]
  {
    var n := |calls| - 1;
    var data := calls[n].data;
    assert calls[..n + 1] == calls;
    UpToNext(calls, n);
    Assoc(UpTo(calls, n), EscapeAll(data[..|data| - 1]), EscapeByte(data[|data| - 1]));
  }

  lemma EscapedByteSingly(channels: seq<Channel>, g: Gate, r: Channel, e: Byte, k: Channel)
    requires StandsOn(g, r) && r.number != k.number && !NeedsEscape(e)
    ensures var h := Serve(channels, Serve(channels, g, [ESCAPE_PREFIX]), [e]);
            h.sink == g.sink && !h.channelPrefix && !h.escapePrefix
            && Delivered(h.delivered, k.number) == Delivered(g.delivered, k.number)
  {
    ServeByteFlags(channels, g, ESCAPE_PREFIX);
    ServeByteElsewhere(channels, g, ESCAPE_PREFIX, k.number);
    var g1 := Serve(channels, g, [ESCAPE_PREFIX]);
    ServeByteFlags(channels, g1, e);
    ServeByteElsewhere(channels, g1, e, k.number);
  }

  /** A packet that follows raw data directly can be lost if that data ends in a byte to be escaped,
      or if the packet's channel number does. */
  lemma PacketAfterRawCanBeLost(channels: seq<Channel>, calls: seq<Call>, r: Channel, k: Channel)
    requires Distinct(channels) && r in channels && k in channels && AllEscaped(calls)
    requires PacketAfterRaw(calls, r, k) && (EndsEscaped(calls[..|calls| - 1]) || NeedsEscape(k.number))
    ensures !ArriveForAnyCut(channels, calls, k)
  {
    if NeedsEscape(k.number) {
      LostAfterEscapedNumber(channels, calls, r, k);
    } else {
      LostAfterEscapedByte(channels, calls, r, k);
    }
  }

  // --------------------------------------------------------------------------- for example

  ghost const RAW := Channel(2, false)
  const MISLEADING: seq<Byte> := [0x7d, 0x5a, 0x7c, 1, 0x7a, 0x7b, 0x41]

  /** The byte 7a is sent on raw channel 2 and the packet 41 on channel 1. Read like this, channel 1
      is handed nothing. */
  lemma RawByteLosesPacket(calls: seq<Call>)
    requires calls == [Call(RAW, [0x7a], false, false), Call(ONE, [0x41], true, false)]
    ensures CutsLine(calls, [[0x7c, 2], MISLEADING]) && SentOn(1, calls) == [[0x41]]
    ensures Handed([ONE, RAW], [[0x7c, 2], MISLEADING], ONE) == []
  {
    ExampleLine(calls);
    ExampleServed([ONE, RAW]);
    ServeTwo([ONE, RAW], NEW_GATE, [0x7c, 2], MISLEADING);
  }

  lemma ExampleLine(calls: seq<Call>)
    requires calls == [Call(RAW, [0x7a], false, false), Call(ONE, [0x41], true, false)]
    ensures CutsLine(calls, [[0x7c, 2], MISLEADING]) && SentOn(1, calls) == [[0x41]]
  {
    var first, second := calls[0], calls[1];
    assert calls == ([] + [first]) + [second];
    LineNext([], first);
    LineNext([] + [first], second);
    FrameOfByte(0x41);
    assert [0x7a][..0] == [] && EscapeAll([0x7a]) == EscapeAll([]) + [0x7d, 0x5a];
    assert LineOf([] + [first]) == [0x7c, 2, 0x7d, 0x5a];
    var a: seq<Byte> := [0x7c, 2];
    JoinOne(a);
    JoinOne(MISLEADING);
    JoinConcat([a], [MISLEADING]);
    assert [a, MISLEADING] == [a] + [MISLEADING];
    assert LineOf(calls) == a + MISLEADING;
  }

  lemma ExampleServed(channels: seq<Channel>)
    requires channels == [ONE, RAW]
    ensures Delivered(Serve(channels, Serve(channels, NEW_GATE, [0x7c, 2]), MISLEADING).delivered, 1) == []
  {
    var s := ScanOf(NEW_GATE, [0x7c, 2]);
    TwoSteps(channels, s, s.(channelPrefix := true, index := 1));
    assert Find(channels[1..], 2) == Some(RAW);
    ScanLast(channels, s.(channelPrefix := true, index := 1));
    var g := Gate(Some(RAW), false, false, map[]);
    assert Serve(channels, NEW_GATE, [0x7c, 2]) == g;
    MisleadingServed(channels, g);
  }

  lemma MisleadingServed(channels: seq<Channel>, g: Gate)
    requires channels == [ONE, RAW] && g == Gate(Some(RAW), false, false, map[])
    ensures Delivered(Serve(channels, g, MISLEADING).delivered, 1) == []
  {
    var s := ScanOf(g, MISLEADING);
    var buffer: seq<Byte> := [0x5a, 0x7c, 1, 0x7a, 0x7b, 0x41, 0x41];
    assert MoveDown(MISLEADING, 6) == buffer;
    var t := s.(buffer := buffer, readLen := 6, escapePrefix := true, index := 1);
    TwoSteps(channels, s, t);
    var u := t.(channelPrefix := true, index := 2);
    TwoSteps(channels, t, u);
    WrongNumber(channels, u, buffer);
  }

  /** The number of channel 1 is read as 21. */
  lemma WrongNumber(channels: seq<Channel>, u: Scan, buffer: seq<Byte>)
    requires channels == [ONE, RAW] && buffer == [0x5a, 0x7c, 1, 0x7a, 0x7b, 0x41, 0x41]
    requires u == Scan(buffer, 6, 2, 0, Some(RAW), true, true, map[])
    ensures Delivered(ScanAll(channels, u).delivered, 1) == []
  {
    assert Find(channels, 0x21) == None;
    var v := u.(buffer := buffer[2 := 0x21], sink := None, channelPrefix := false, escapePrefix := false, head := 3,
                index := 3, delivered := Deliver(map[], Some(RAW), Slice(buffer[2 := 0x21], 0, 1)));
    TwoSteps(channels, u, v);
    ScanNowhere(channels, v);
  }

  /** With no channel selected nothing is delivered. */
  lemma {:induction false} ScanNowhere(channels: seq<Channel>, s: Scan)
    requires s.Valid() && s.sink == None && !s.channelPrefix
    requires forall i :: s.index <= i < s.readLen ==> s.buffer[i] != CHANNEL_PREFIX
    ensures ScanAll(channels, s).delivered == s.delivered
    decreases s.readLen - s.index
  {
    if s.index < s.readLen {
      ScanNowhere(channels, ScanStep(channels, s));
    }
  }
}
