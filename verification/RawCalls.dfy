/** Raw and packetized channels side by side: exactly which runs of `Source` calls arrive whatever
    reads the line is cut into. */
module RawCalls {
  import opened Bytes
  import opened AvalonSt
  import opened HostBridge
  import opened SourceRun
  import opened Demux
  import opened Exposure
  import opened BadCuts
  import opened RawDelivery
  import opened EndToEnd
  import opened Options

  /** All that `calls` send on channel `k`, with no packet boundaries. */
  function RawSentOn(k: int, calls: seq<Call>): seq<Byte> {
    if calls == [] then []
    else
      var n := |calls| - 1;
      RawSentOn(k, calls[..n]) + if calls[n].channel.number == k then calls[n].data else []
  }

  /** Call `c`, made while the line stands on `current`, sends something on `k` that is not plain
      bytes outside packets, or selects a channel while the line stands on `k`. */
  predicate Disturbs(k: int, current: int, c: Call) {
    || (c.channel.number == k && c.data != [] && (c.packetize || !AllPlain(c.data)))
    || (current == k && Selects(current, c))
  }

  predicate Undisturbed(k: int, calls: seq<Call>) {
    calls == [] ||
    var n := |calls| - 1;
    Undisturbed(k, calls[..n]) && !Disturbs(k, Current(calls[..n]), calls[n])
  }

  ghost predicate RawArrive(channels: seq<Channel>, calls: seq<Call>, chunks: seq<seq<Byte>>, k: Channel) {
    Handed(channels, chunks, k) == RawSentOn(k.number, calls)
  }

  ghost predicate RawArriveForAnyCut(channels: seq<Channel>, calls: seq<Call>, k: Channel) {
    forall chunks :: CutsLine(calls, chunks) ==> RawArrive(channels, calls, chunks, k)
  }

  // --------------------------------------------------------- undisturbed channels get it all

  function BytesOn(k: int, beats: seq<Beat>): seq<Byte> {
    if beats == [] then []
    else
      var n := |beats| - 1;
      BytesOn(k, beats[..n]) + if beats[n].channel == k then [beats[n].data] else []
  }

  lemma BytesOnNext(k: int, beats: seq<Beat>, b: Beat)
    ensures BytesOn(k, beats + [b]) == BytesOn(k, beats) + if b.channel == k then [b.data] else []
  {
    assert (beats + [b])[..|beats|] == beats;
  }

  lemma {:induction false} BytesOnCall(k: int, before: seq<Beat>, number: Byte, data: seq<Byte>, packet: bool, i: nat)
    requires i <= |data|
    ensures BytesOn(k, before + Beats(number, data, packet)[..i]) ==
            BytesOn(k, before) + if number == k then data[..i] else []
  {
    var b := Beats(number, data, packet);
    if i == 0 {
      assert before + b[..0] == before && data[..0] == [];
      assert BytesOn(k, before) + [] == BytesOn(k, before);
    } else {
      BytesOnCall(k, before, number, data, packet, i - 1);
      BytesOnNext(k, before + b[..i - 1], b[i - 1]);
      Grow(before, b, i - 1);
      Grow(BytesOn(k, before), data, i - 1);
    }
  }

  lemma Grow<T>(front: seq<T>, s: seq<T>, i: nat)
    requires i < |s|
    ensures front + s[..i + 1] == (front + s[..i]) + [s[i]]
  {
  }

  lemma {:induction false} BytesOfRun(k: int, calls: seq<Call>)
    ensures BytesOn(k, BeatsOf(calls)) == RawSentOn(k, calls)
  {
    if calls != [] {
      var n := |calls| - 1;
      var c := calls[n];
      BytesOfRun(k, calls[..n]);
      BytesOnCall(k, BeatsOf(calls[..n]), c.channel.number, c.data, c.packetize, |c.data|);
      var b := Beats(c.channel.number, c.data, c.packetize);
      assert b[..|c.data|] == b && c.data[..|c.data|] == c.data;
    }
  }

  /** Once the line stands on `k`, plain bytes and nothing else. */
  predicate StaysAll(k: int, l: Line, bs: seq<Byte>) {
    bs == [] ||
    var before, b := AllButLast(bs), bs[|bs| - 1];
    StaysAll(k, l, before) && (TakeAll(l, before).channel == k ==> !TakeAll(l, before).escaped && !NeedsEscape(b))
  }

  lemma {:induction false} StaysConcat(k: int, l: Line, a: seq<Byte>, b: seq<Byte>)
    ensures StaysAll(k, l, a + b) <==> StaysAll(k, l, a) && StaysAll(k, TakeAll(l, a), b)
  {
    if b == [] {
      assert a + b == a;
    } else {
      var n := |b| - 1;
      assert AllButLast(a + b) == a + b[..n];
      StaysConcat(k, l, a, b[..n]);
      TakeAllConcat(l, a, b[..n]);
    }
  }

  lemma StaysOne(k: int, l: Line, b: Byte)
    requires l.channel == k ==> !l.escaped && !NeedsEscape(b)
    ensures StaysAll(k, l, [b])
  {
    assert AllButLast([b]) == [] && StaysAll(k, l, []);
  }

  lemma StaysSelect(k: int, l: Line, number: Byte)
    requires Idle(l) && l.channel != k
    ensures StaysAll(k, l, ChannelSelect(number))
  {
    StaysOne(k, l, CHANNEL_PREFIX);
    TakeOne(l, CHANNEL_PREFIX);
    var m := Take(l, CHANNEL_PREFIX);
    if NeedsEscape(number) {
      StaysOne(k, m, ESCAPE_PREFIX);
      TakeOne(m, ESCAPE_PREFIX);
      StaysOne(k, m.(escaped := true), EscapeXor(number));
      StaysConcat(k, m, [ESCAPE_PREFIX], [EscapeXor(number)]);
      assert EscapeByte(number) == [ESCAPE_PREFIX] + [EscapeXor(number)];
    } else {
      StaysOne(k, m, number);
    }
    StaysConcat(k, l, [CHANNEL_PREFIX], EscapeByte(number));
  }

  /** Without channel prefixes the line stays on its channel. */
  lemma {:induction false} ChannelStays(l: Line, bs: seq<Byte>)
    requires !l.channelNext && CHANNEL_PREFIX !in bs
    ensures !TakeAll(l, bs).channelNext && TakeAll(l, bs).channel == l.channel
  {
    if bs != [] {
      ChannelStays(l, AllButLast(bs));
    }
  }

  lemma {:induction false} StaysElsewhere(k: int, l: Line, bs: seq<Byte>)
    requires !l.channelNext && CHANNEL_PREFIX !in bs && l.channel != k
    ensures StaysAll(k, l, bs)
  {
    if bs != [] {
      StaysElsewhere(k, l, AllButLast(bs));
      ChannelStays(l, AllButLast(bs));
    }
  }

  lemma {:induction false} StaysPlain(k: int, l: Line, bs: seq<Byte>)
    requires !l.escaped && AllPlain(bs)
    ensures StaysAll(k, l, bs) && !TakeAll(l, bs).escaped
  {
    if bs != [] {
      StaysPlain(k, l, AllButLast(bs));
      assert bs[|bs| - 1] in bs;
    }
  }

  lemma StaysCall(k: int, l: Line, c: Call)
    requires Idle(l) && !Verbatim(c) && !Disturbs(k, l.channel, c)
    ensures StaysAll(k, l, SourceBytes(l.channel, c))
  {
    var select := if Selects(l.channel, c) then ChannelSelect(c.channel.number) else [];
    if select != [] {
      StaysSelect(k, l, c.channel.number);
      TakeSelect(l, c.channel.number);
    } else {
      assert StaysAll(k, l, []);
    }
    var m := TakeAll(l, select);
    if m.channel == k {
      if c.data != [] {
        EscapeAllOfPlain(c.data);
      }
      StaysPlain(k, m, Payload(c));
    } else {
      PayloadHasNoSelect(c);
      StaysElsewhere(k, m, Payload(c));
    }
    StaysConcat(k, l, select, Payload(c));
  }

  lemma {:induction false} StaysRun(k: int, calls: seq<Call>)
    requires AllEscaped(calls) && Undisturbed(k, calls)
    ensures StaysAll(k, START, LineOf(calls))
  {
    if calls != [] {
      var n := |calls| - 1;
      StaysRun(k, calls[..n]);
      RunDecodes(calls[..n]);
      StaysCall(k, TakeAll(START, LineOf(calls[..n])), calls[n]);
      StaysConcat(k, START, LineOf(calls[..n]), SourceBytes(Current(calls[..n]), calls[n]));
    }
  }

  /** The raw sink of `k` has been handed, or will be when the read ends, what the decoder has put
      out on its channel. */
  ghost predicate Supplied(channels: seq<Channel>, l: Line, d: Demux, k: Channel) {
    Linked(channels, l, d) && Owed(d, k) == BytesOn(k.number, l.beats) && (l.channel == k.number ==> !l.channelNext)
  }

  lemma SuppliedStep(channels: seq<Channel>, l: Line, d: Demux, k: Channel, b: Byte)
    requires Distinct(channels) && k in channels && Supplied(channels, l, d, k) && Legal(l, b)
    requires l.channel == k.number ==> !l.escaped && !NeedsEscape(b)
    ensures Supplied(channels, Take(l, b), Route(channels, d, b), k)
  {
    SinkIs(channels, l, d, k);
    LinkedStep(channels, l, d, b);
    var e := Route(channels, d, b);
    if l.channelNext && !NeedsEscape(b) {
      OwedAfterNumber(channels, d, b, k);
    } else {
      OwedNext(channels, d, k, b, e);
      BytesOnNext(k.number, l.beats, Beat(l.channel, if l.escaped then EscapeXor(b) else b, l.sop, l.eop));
    }
  }

  lemma {:induction false} SuppliedAll(channels: seq<Channel>, l: Line, d: Demux, k: Channel, bs: seq<Byte>)
    requires Distinct(channels) && k in channels && Supplied(channels, l, d, k)
    requires LegalAll(l, bs) && StaysAll(k.number, l, bs)
    ensures Supplied(channels, TakeAll(l, bs), RouteAll(channels, d, bs), k)
  {
    if bs != [] {
      var before := AllButLast(bs);
      SuppliedAll(channels, l, d, k, before);
      SuppliedStep(channels, TakeAll(l, before), RouteAll(channels, d, before), k, bs[|bs| - 1]);
    }
  }

  lemma {:induction false} ServeReadsSupplies(channels: seq<Channel>, chunks: seq<seq<Byte>>, k: Channel)
    requires Distinct(channels) && k in channels
    requires LegalAll(START, Join(chunks)) && StaysAll(k.number, START, Join(chunks))
    ensures var d := ServeReads(channels, NEW_DEMUX, chunks);
            d.held == [] && Supplied(channels, TakeAll(START, Join(chunks)), d, k)
  {
    if chunks != [] {
      var n := |chunks| - 1;
      var before := Join(chunks[..n]);
      TakeAllConcat(START, before, chunks[n]);
      StaysConcat(k.number, START, before, chunks[n]);
      ServeReadsSupplies(channels, chunks[..n], k);
      var l, d := TakeAll(START, before), ServeReads(channels, NEW_DEMUX, chunks[..n]);
      SuppliedAll(channels, l, d, k, chunks[n]);
      SinkIs(channels, TakeAll(l, chunks[n]), RouteAll(channels, d, chunks[n]), k);
      OwedAtEnd(RouteAll(channels, d, chunks[n]), k);
    }
  }

  /** Raw channels that are not disturbed are spared. */
  lemma {:induction false} UndisturbedIsSpared(channels: seq<Channel>, calls: seq<Call>)
    requires forall k :: k in channels && !k.packetized ==> Undisturbed(k.number, calls)
    ensures SparesRaw(channels, calls)
  {
    if calls != [] {
      var n := |calls| - 1;
      UndisturbedIsSpared(channels, calls[..n]);
      if RawNumber(channels, calls[n].channel.number) {
        var k := Find(channels, calls[n].channel.number).value;
        assert Undisturbed(k.number, calls);
      }
      if RawNumber(channels, Current(calls[..n])) {
        var k := Find(channels, Current(calls[..n])).value;
        assert Undisturbed(k.number, calls);
      }
    }
  }

  /** Beside raw channels that are spared, an undisturbed one is handed what was sent on it. */
  lemma {:induction false} RawSentArrives(channels: seq<Channel>, calls: seq<Call>, chunks: seq<seq<Byte>>, k: Channel)
    requires Distinct(channels) && k in channels && AllEscaped(calls) && SparesRaw(channels, calls)
    requires Undisturbed(k.number, calls) && Join(chunks) == LineOf(calls)
    ensures RawArrive(channels, calls, chunks, k)
  {
    RunDecodes(calls);
    CalmRun(channels, calls);
    StaysRun(k.number, calls);
    ServeAllIsServeReads(channels, chunks);
    ServeReadsSupplies(channels, chunks, k);
    BytesOfRun(k.number, calls);
  }

  // ------------------------------------------------------------- disturbed channels do not

  /** The gate after single bytes stands where the decoder does, raw sinks or not. */
  ghost predicate GateLinked(channels: seq<Channel>, l: Line, g: Gate) {
    && g.channelPrefix == l.channelNext && g.escapePrefix == l.escaped
    && g.sink == (if 0 <= l.channel < 256 then Find(channels, l.channel) else None)
  }

  predicate NoBracket(s: seq<Byte>) {
    SOP !in s && EOP_PREFIX !in s
  }

  function Unescaped(g: Gate, b: Byte): Byte {
    if g.escapePrefix then EscapeXor(b) else b
  }

  /** What a raw sink is handed of a byte that is read alone: the byte, or what an escape makes of
      it, but never the start or the end of a packet. */
  function RawByte(g: Gate, b: Byte): (r: seq<Byte>)
    ensures NoBracket(r)
  {
    if b == CHANNEL_PREFIX then [b]
    else if b == ESCAPE_PREFIX || g.channelPrefix || Unescaped(g, b) in {SOP, EOP_PREFIX} then []
    else [Unescaped(g, b)]
  }

  function ScanOf(g: Gate, read: seq<Byte>): Scan {
    Scan(read, |read|, 0, 0, g.sink, g.channelPrefix, g.escapePrefix, g.delivered)
  }

  lemma ScanLast(channels: seq<Channel>, s: Scan)
    requires s.Valid() && s.index < s.readLen
    requires var t := ScanStep(channels, s); t.readLen <= t.index
    ensures var t := ScanStep(channels, s);
            ScanAll(channels, s) == t.(delivered := Deliver(t.delivered, t.sink, Slice(t.buffer, t.head, t.readLen)))
  {
  }

  lemma ServeByteFlags(channels: seq<Channel>, g: Gate, b: Byte)
    ensures var h := Serve(channels, g, [b]);
            var d := Route(channels, Demux(g.sink, g.channelPrefix, g.escapePrefix, [], map[]), b);
            h.sink == d.sink && h.channelPrefix == d.channelPrefix && h.escapePrefix == d.escapePrefix
  {
    ScanLast(channels, ScanOf(g, [b]));
  }

  lemma ServeRawByte(channels: seq<Channel>, g: Gate, b: Byte)
    requires IsRaw(g.sink)
    ensures Serve(channels, g, [b]).delivered == Deliver(g.delivered, g.sink, RawByte(g, b))
  {
    var s := ScanOf(g, [b]);
    ScanLast(channels, s);
    var t := ScanStep(channels, s);
    if b == CHANNEL_PREFIX {
      assert Slice(t.buffer, 0, 1) == [b];
    } else if b != ESCAPE_PREFIX && !g.channelPrefix && Unescaped(g, b) !in {SOP, EOP_PREFIX} {
      assert Slice(t.buffer, 0, 1) == [Unescaped(g, b)];
    }
  }

  lemma ServeByteElsewhere(channels: seq<Channel>, g: Gate, b: Byte, k: Byte)
    requires g.sink.Some? ==> g.sink.value.number != k
    ensures Delivered(Serve(channels, g, [b]).delivered, k) == Delivered(g.delivered, k)
  {
    var s := ScanOf(g, [b]);
    ScanLast(channels, s);
    StepElsewhere(channels, s, b, k);
  }

  lemma StepElsewhere(channels: seq<Channel>, s: Scan, b: Byte, k: Byte)
    requires s.buffer == [b] && s.readLen == 1 && s.index == 0 && s.head == 0
    requires s.sink.Some? ==> s.sink.value.number != k
    ensures var t := ScanStep(channels, s);
            Delivered(t.delivered, k) == Delivered(s.delivered, k)
            && (t.sink == s.sink || Slice(t.buffer, t.head, t.readLen) == [])
  {
  }

  lemma ServeByte(channels: seq<Channel>, g: Gate, b: Byte, k: Byte)
    requires g.sink.Some? && g.sink.value.number == k ==> IsRaw(g.sink)
    requires NoBracket(Delivered(g.delivered, k))
    ensures NoBracket(Delivered(Serve(channels, g, [b]).delivered, k))
  {
    if g.sink.Some? && g.sink.value.number == k {
      ServeRawByte(channels, g, b);
    } else {
      ServeByteElsewhere(channels, g, b, k);
    }
  }

  lemma SinglesNext(bs: seq<Byte>)
    requires bs != []
    ensures var rs := Singles(bs);
            rs[..|rs| - 1] == Singles(AllButLast(bs)) && rs[|rs| - 1] == [bs[|bs| - 1]]
  {
  }

  lemma {:induction false} ServeSingleBytes(channels: seq<Channel>, bs: seq<Byte>, k: Channel)
    requires Distinct(channels) && k in channels && !k.packetized && LegalAll(START, bs)
    ensures var g := ServeAll(channels, NEW_GATE, Singles(bs));
            GateLinked(channels, TakeAll(START, bs), g) && NoBracket(Delivered(g.delivered, k.number))
  {
    if bs != [] {
      var before, b := AllButLast(bs), bs[|bs| - 1];
      ServeSingleBytes(channels, before, k);
      SinglesNext(bs);
      var g := ServeAll(channels, NEW_GATE, Singles(before));
      assert Find(channels, k.number) == Some(k);
      ServeByte(channels, g, b, k.number);
      ServeByteFlags(channels, g, b);
      LinkedGateStep(channels, TakeAll(START, before), g, b);
    }
  }

  lemma LinkedGateStep(channels: seq<Channel>, l: Line, g: Gate, b: Byte)
    requires GateLinked(channels, l, g) && Legal(l, b)
    ensures var d := Route(channels, Demux(g.sink, g.channelPrefix, g.escapePrefix, [], map[]), b);
            GateLinked(channels, Take(l, b), AsGate(d))
  {
  }

  // ------------------------------------------------------------------ reads that do the harm

  lemma TwoSteps(channels: seq<Channel>, s: Scan, t: Scan)
    requires s.Open() && s.index < s.readLen && ScanStep(channels, s) == t
    ensures ScanAll(channels, s) == ScanAll(channels, t)
  {
  }

  /** A channel prefix alone is taken for data. */
  lemma PrefixAlone(channels: seq<Channel>, g: Gate, c: Channel, number: Byte)
    requires StandsOn(g, c) && !NeedsEscape(number)
    ensures var h := Serve(channels, Serve(channels, g, [CHANNEL_PREFIX]), [number]);
            h == Gate(Find(channels, number), false, false, Deliver(g.delivered, g.sink, [CHANNEL_PREFIX]))
  {
    ServeByteFlags(channels, g, CHANNEL_PREFIX);
    ServeRawByte(channels, g, CHANNEL_PREFIX);
    var h := Serve(channels, g, [CHANNEL_PREFIX]);
    ServeByteFlags(channels, h, number);
    ServeRawByte(channels, h, number);
  }

  /** Not so together with the number. */
  lemma PrefixWithNumber(channels: seq<Channel>, g: Gate, c: Channel, number: Byte)
    requires StandsOn(g, c) && !NeedsEscape(number)
    ensures Serve(channels, g, [CHANNEL_PREFIX, number]) == Gate(Find(channels, number), false, false, g.delivered)
  {
    var s := ScanOf(g, [CHANNEL_PREFIX, number]);
    TwoSteps(channels, s, s.(channelPrefix := true, index := 1));
    ScanLast(channels, s.(channelPrefix := true, index := 1));
  }

  /** An escaped number, read whole: the shift puts two escapes at the front, and the number itself
      is passed over. */
  lemma EscapedNumberWhole(channels: seq<Channel>, g: Gate, c: Channel, e: Byte)
    requires StandsOn(g, c)
    ensures Serve(channels, g, [CHANNEL_PREFIX, ESCAPE_PREFIX, e]).delivered
         == Deliver(g.delivered, g.sink, [ESCAPE_PREFIX, ESCAPE_PREFIX])
  {
    var s := ScanOf(g, [CHANNEL_PREFIX, ESCAPE_PREFIX, e]);
    var t := s.(channelPrefix := true, index := 1);
    TwoSteps(channels, s, t);
    assert MoveDown(t.buffer, 1) == [ESCAPE_PREFIX, ESCAPE_PREFIX, e];
    ScanLast(channels, t);
    assert Slice([ESCAPE_PREFIX, ESCAPE_PREFIX, e], 0, 2) == [ESCAPE_PREFIX, ESCAPE_PREFIX];
  }

  /** An escape and its body, read apart. */
  lemma EscapedApart(channels: seq<Channel>, g: Gate, c: Channel, e: Byte)
    requires StandsOn(g, c) && !NeedsEscape(e) && EscapeXor(e) !in {SOP, EOP_PREFIX}
    ensures Serve(channels, Serve(channels, g, [ESCAPE_PREFIX]), [e]).delivered
         == Deliver(g.delivered, g.sink, [EscapeXor(e)])
  {
    ServeByteFlags(channels, g, ESCAPE_PREFIX);
    ServeRawByte(channels, g, ESCAPE_PREFIX);
    ServeRawByte(channels, Serve(channels, g, [ESCAPE_PREFIX]), e);
  }

  lemma DeliveredMore(m: Deliveries, c: Channel, bs: seq<Byte>)
    ensures Delivered(Deliver(m, Some(c), bs), c.number) == Delivered(m, c.number) + bs
  {
  }

  /** The end prefix of a packet, in one read between two bytes of its data: the shift that is to
      drop it moves it to the front. */
  lemma EndOfPacketInside(channels: seq<Channel>, g: Gate, c: Channel, z: Byte, y: Byte)
    requires !c.packetized && g.sink == Some(c) && !g.channelPrefix
    requires !NeedsEscape(z) || (z == SOP && !g.escapePrefix)
    requires !NeedsEscape(y) || y == ESCAPE_PREFIX
    ensures EOP_PREFIX in Delivered(Serve(channels, g, [z, EOP_PREFIX, y]).delivered, c.number)
  {
    var s := ScanOf(g, [z, EOP_PREFIX, y]);
    var v := if z == SOP then z else Unescaped(g, z);
    if v in {SOP, EOP_PREFIX} {
      var t := s.(buffer := [EOP_PREFIX, y, y], readLen := 2, escapePrefix := false, index := 1);
      BracketDropped(channels, s, z, y);
      TwoSteps(channels, s, t);
      EndAtFront(channels, t, c, y);
    } else {
      var t := s.(buffer := [v, EOP_PREFIX, y], escapePrefix := false, index := 1);
      assert z != EOP_PREFIX;
      TwoSteps(channels, s, t);
      assert MoveDown(t.buffer, 1) == [EOP_PREFIX, EOP_PREFIX, y];
      ScanLast(channels, t);
      assert Slice([EOP_PREFIX, EOP_PREFIX, y], 0, 2) == [EOP_PREFIX, EOP_PREFIX];
      DeliveredMore(g.delivered, c, [EOP_PREFIX, EOP_PREFIX]);
    }
  }

  lemma BracketDropped(channels: seq<Channel>, s: Scan, z: Byte, y: Byte)
    requires s.buffer == [z, EOP_PREFIX, y] && s.readLen == 3 && s.index == 0 && s.head == 0
    requires IsRaw(s.sink) && !s.channelPrefix
    requires (z == SOP && !s.escapePrefix)
             || (!NeedsEscape(z) && (if s.escapePrefix then EscapeXor(z) else z) in {SOP, EOP_PREFIX})
    ensures ScanStep(channels, s) ==
            s.(buffer := [EOP_PREFIX, y, y], readLen := 2, escapePrefix := false, index := 1)
  {
    forall x: Byte
      ensures MoveDown([x, EOP_PREFIX, y], 2) == [EOP_PREFIX, y, y]
    {
    }
  }

  lemma EndAtFront(channels: seq<Channel>, t: Scan, c: Channel, y: Byte)
    requires t.buffer == [EOP_PREFIX, y, y] && t.readLen == 2 && t.index == 1 && t.head == 0
    requires t.sink == Some(c) && !c.packetized && !t.channelPrefix && !t.escapePrefix
    requires !NeedsEscape(y) || y == ESCAPE_PREFIX
    ensures EOP_PREFIX in Delivered(ScanAll(channels, t).delivered, c.number)
  {
    ScanLast(channels, t);
    if y == ESCAPE_PREFIX {
      assert MoveDown(t.buffer, 0) == t.buffer;
      assert Slice(t.buffer, 0, 1) == [EOP_PREFIX];
      DeliveredMore(t.delivered, c, [EOP_PREFIX]);
    } else {
      assert Slice(t.buffer, 0, 2) == [EOP_PREFIX, y];
      DeliveredMore(t.delivered, c, [EOP_PREFIX, y]);
    }
  }

  // -------------------------------------------------------------- what was delivered before

  /** Two scans that differ only in what has been delivered, `k` having got `x` on top of `m` and `n`. */
  predicate Shifted(a: Scan, b: Scan, m: Deliveries, n: Deliveries, k: Byte, x: seq<Byte>) {
    && a == b.(delivered := a.delivered)
    && Delivered(a.delivered, k) == Delivered(m, k) + x
    && Delivered(b.delivered, k) == Delivered(n, k) + x
  }

  /** What a pass hands the sinks does not depend on what they have been handed before. */
  lemma {:induction false} ScanShifts(channels: seq<Channel>, s: Scan, m: Deliveries, k: Byte) returns (x: seq<Byte>)
    requires s.Open()
    ensures var a, b := ScanAll(channels, s), ScanAll(channels, s.(delivered := m));
            Shifted(a, b, s.delivered, m, k, x)
    decreases s.readLen - s.index
  {
    if s.index < s.readLen {
      var t, u := ScanStep(channels, s), ScanStep(channels, s.(delivered := m));
      var y := StepShifts(channels, s, m, k);
      var z := ScanShifts(channels, t, u.delivered, k);
      x := y + z;
      Assoc(Delivered(s.delivered, k), y, z);
      Assoc(Delivered(m, k), y, z);
    } else {
      x := DeliverShifts(s.delivered, m, s.sink, Slice(s.buffer, s.head, s.readLen), k);
    }
  }

  lemma DeliverShifts(m: Deliveries, n: Deliveries, sink: Option<Channel>, bs: seq<Byte>, k: Byte)
    returns (x: seq<Byte>)
    ensures Delivered(Deliver(m, sink, bs), k) == Delivered(m, k) + x
    ensures Delivered(Deliver(n, sink, bs), k) == Delivered(n, k) + x
  {
    x := if sink.Some? && sink.value.number == k then bs else [];
  }

  lemma StepShifts(channels: seq<Channel>, s: Scan, m: Deliveries, k: Byte) returns (x: seq<Byte>)
    requires s.Valid() && s.index < s.readLen
    ensures var a, b := ScanStep(channels, s), ScanStep(channels, s.(delivered := m));
            Shifted(a, b, s.delivered, m, k, x)
  {
    var byte := s.buffer[s.index];
    if byte == CHANNEL_PREFIX || byte == ESCAPE_PREFIX {
      SpecialShifts(channels, s, m, k);
      x := [];
    } else {
      x := StepDataShifts(channels, s, m, k);
    }
  }

  lemma StepDataShifts(channels: seq<Channel>, s: Scan, m: Deliveries, k: Byte) returns (x: seq<Byte>)
    requires s.Valid() && s.index < s.readLen && s.buffer[s.index] !in {CHANNEL_PREFIX, ESCAPE_PREFIX}
    ensures var a, b := ScanStep(channels, s), ScanStep(channels, s.(delivered := m));
            Shifted(a, b, s.delivered, m, k, x)
  {
    StepOfData(channels, s, m);
    x := DataShifts(channels, Prepared(s), m, Meant(s), k);
  }

  /** The byte at the index, with any escape undone. */
  function Meant(s: Scan): Byte
    requires s.Valid() && s.index < s.readLen
  {
    if s.escapePrefix then EscapeXor(s.buffer[s.index]) else s.buffer[s.index]
  }

  /** The scan before that byte is looked at. */
  function Prepared(s: Scan): (r: Scan)
    requires s.Valid() && s.index < s.readLen
    ensures r.Valid() && r.index == s.index && r.readLen == s.readLen
  {
    if !s.escapePrefix then s
    else (if s.Raw() then s.(buffer := s.buffer[s.index := Meant(s)]) else s).(escapePrefix := false)
  }

  lemma StepOfData(channels: seq<Channel>, s: Scan, m: Deliveries)
    requires s.Valid() && s.index < s.readLen && s.buffer[s.index] !in {CHANNEL_PREFIX, ESCAPE_PREFIX}
    ensures ScanStep(channels, s) == ScanData(channels, Prepared(s), Meant(s)).(index := s.index + 1)
    ensures ScanStep(channels, s.(delivered := m)) ==
            ScanData(channels, Prepared(s).(delivered := m), Meant(s)).(index := s.index + 1)
    ensures Prepared(s).delivered == s.delivered
  {
  }

  lemma SpecialShifts(channels: seq<Channel>, s: Scan, m: Deliveries, k: Byte)
    requires s.Valid() && s.index < s.readLen && s.buffer[s.index] in {CHANNEL_PREFIX, ESCAPE_PREFIX}
    ensures Shifted(ScanStep(channels, s), ScanStep(channels, s.(delivered := m)), s.delivered, m, k, [])
  {
  }

  lemma DataShifts(channels: seq<Channel>, s: Scan, m: Deliveries, v: Byte, k: Byte) returns (x: seq<Byte>)
    requires s.Valid() && s.index < s.readLen
    ensures var a, b := ScanData(channels, s, v), ScanData(channels, s.(delivered := m), v);
            Shifted(a, b, s.delivered, m, k, x)
  {
    x := [];
    if s.channelPrefix {
      x := DeliverShifts(s.delivered, m, s.sink, Slice(s.buffer, s.head, s.index - 1), k);
    }
  }

  lemma {:induction false} ServeAllShifts(channels: seq<Channel>, g: Gate, m: Deliveries, chunks: seq<seq<Byte>>,
                                        k: Byte)
    returns (x: seq<Byte>)
    ensures var a, b := ServeAll(channels, g, chunks), ServeAll(channels, g.(delivered := m), chunks);
            && a == b.(delivered := a.delivered)
            && Delivered(a.delivered, k) == Delivered(g.delivered, k) + x
            && Delivered(b.delivered, k) == Delivered(m, k) + x
  {
    if chunks == [] {
      x := [];
    } else {
      var n := |chunks| - 1;
      var y := ServeAllShifts(channels, g, m, chunks[..n], k);
      var a, b := ServeAll(channels, g, chunks[..n]), ServeAll(channels, g.(delivered := m), chunks[..n]);
      var z := ScanShifts(channels, ScanOf(a, chunks[n]), b.delivered, k);
      x := y + z;
      Assoc(Delivered(g.delivered, k), y, z);
      Assoc(Delivered(m, k), y, z);
    }
  }

  // ---------------------------------------------------------------------- the line of the calls

  lemma {:induction false} LineFront(calls: seq<Call>, n: nat)
    requires n <= |calls|
    ensures LineOf(calls[..n]) <= LineOf(calls)
  {
    if n == |calls| {
      assert calls[..n] == calls;
    } else {
      LineFront(calls[..|calls| - 1], n);
      assert calls[..|calls| - 1][..n] == calls[..n];
    }
  }

  /** The line up to the payload of call `n`. */
  function UpTo(calls: seq<Call>, n: nat): seq<Byte>
    requires n < |calls|
  {
    LineOf(calls[..n])
    + if Selects(Current(calls[..n]), calls[n]) then ChannelSelect(calls[n].channel.number) else []
  }

  lemma UpToNext(calls: seq<Call>, n: nat)
    requires n < |calls|
    ensures LineOf(calls[..n + 1]) == UpTo(calls, n) + Payload(calls[n])
  {
    assert calls[..n + 1][..n] == calls[..n];
    var select := if Selects(Current(calls[..n]), calls[n]) then ChannelSelect(calls[n].channel.number) else [];
    Assoc(LineOf(calls[..n]), select, Payload(calls[n]));
  }

  lemma {:induction false} UpToLine(calls: seq<Call>, n: nat, part: seq<Byte>)
    requires n < |calls| && part <= Payload(calls[n])
    ensures UpTo(calls, n) + part <= LineOf(calls)
  {
    LineFront(calls, n + 1);
    UpToNext(calls, n);
    PrefixAfter(UpTo(calls, n), part, Payload(calls[n]));
  }

  lemma {:induction false} SelectLine(calls: seq<Call>, n: nat, part: seq<Byte>)
    requires n < |calls| && Selects(Current(calls[..n]), calls[n])
    requires part <= ChannelSelect(calls[n].channel.number)
    ensures LineOf(calls[..n]) + part <= LineOf(calls)
  {
    UpToLine(calls, n, []);
    assert UpTo(calls, n) + [] == UpTo(calls, n);
    PrefixAfter(LineOf(calls[..n]), part, ChannelSelect(calls[n].channel.number));
  }

  lemma PrefixAfter<T>(front: seq<T>, a: seq<T>, b: seq<T>)
    requires a <= b
    ensures front + a <= front + b
  {
  }

  lemma {:induction false} UpToDecodes(calls: seq<Call>, n: nat)
    requires n < |calls| && AllEscaped(calls)
    ensures LegalAll(START, UpTo(calls, n))
    ensures var l := TakeAll(START, UpTo(calls, n)); Idle(l) && l.channel == calls[n].channel.number
  {
    RunDecodes(calls[..n]);
    var l := TakeAll(START, LineOf(calls[..n]));
    if Selects(Current(calls[..n]), calls[n]) {
      TakeSelect(l, calls[n].channel.number);
      TakeAllConcat(START, LineOf(calls[..n]), ChannelSelect(calls[n].channel.number));
    } else {
      assert UpTo(calls, n) == LineOf(calls[..n]);
    }
  }

  // ------------------------------------------------------------------ no cutting may do harm

  /** If every cutting is right, all that any reads of the first part of the line hand over is right. */
  lemma {:induction false} PartOfAll(channels: seq<Channel>, calls: seq<Call>, k: Channel, chunks: seq<seq<Byte>>)
    requires RawArriveForAnyCut(channels, calls, k) && Readable(chunks) && Join(chunks) <= LineOf(calls)
    ensures Handed(channels, chunks, k) <= RawSentOn(k.number, calls)
    ensures CutsLine(calls, chunks + Singles(LineOf(calls)[|Join(chunks)|..]))
  {
    var rest := Singles(LineOf(calls)[|Join(chunks)|..]);
    RestCuts(calls, chunks);
    assert RawArrive(channels, calls, chunks + rest, k);
    ServeAllConcat(channels, NEW_GATE, chunks, rest);
    ServeAllGrows(channels, ServeAll(channels, NEW_GATE, chunks), rest, k.number);
  }

  lemma {:induction false} SentHasNoBracket(channels: seq<Channel>, calls: seq<Call>, k: Channel)
    requires Distinct(channels) && k in channels && !k.packetized && AllEscaped(calls)
    requires RawArriveForAnyCut(channels, calls, k)
    ensures NoBracket(RawSentOn(k.number, calls))
  {
    var line := LineOf(calls);
    RunDecodes(calls);
    JoinSingles(line);
    assert CutsLine(calls, Singles(line));
    assert RawArrive(channels, calls, Singles(line), k);
    ServeSingleBytes(channels, line, k);
  }

  /** The first part of the line read byte by byte, then `read`. */
  lemma ReadAfter(channels: seq<Channel>, front: seq<Byte>, read: seq<Byte>)
    requires |read| <= READ_BUFFER_LEN
    ensures Readable(Singles(front) + [read]) && Join(Singles(front) + [read]) == front + read
    ensures ServeAll(channels, NEW_GATE, Singles(front) + [read])
         == Serve(channels, ServeAll(channels, NEW_GATE, Singles(front)), read)
  {
    JoinSingles(front);
    ReadMore(channels, Singles(front), read);
  }

  lemma ReadMore(channels: seq<Channel>, chunks: seq<seq<Byte>>, read: seq<Byte>)
    requires Readable(chunks) && |read| <= READ_BUFFER_LEN
    ensures Readable(chunks + [read]) && Join(chunks + [read]) == Join(chunks) + read
    ensures ServeAll(channels, NEW_GATE, chunks + [read]) == Serve(channels, ServeAll(channels, NEW_GATE, chunks), read)
  {
    assert (chunks + [read])[..|chunks|] == chunks;
  }

  lemma ReadTwiceAfter(channels: seq<Channel>, front: seq<Byte>, a: Byte, b: Byte)
    ensures var chunks := Singles(front) + [[a]] + [[b]];
            && Readable(chunks) && Join(chunks) == front + [a, b]
            && ServeAll(channels, NEW_GATE, chunks)
               == Serve(channels, Serve(channels, ServeAll(channels, NEW_GATE, Singles(front)), [a]), [b])
  {
    ReadAfter(channels, front, [a]);
    ReadMore(channels, Singles(front) + [[a]], [b]);
    assert front + [a] + [b] == front + [a, b];
  }

  /** The line stands on `k` after `front`, read byte by byte. */
  lemma StandsAfter(channels: seq<Channel>, front: seq<Byte>, k: Channel)
    requires Distinct(channels) && k in channels && !k.packetized && LegalAll(START, front)
    requires var l := TakeAll(START, front); l.channel == k.number && !l.channelNext
    ensures var g := ServeAll(channels, NEW_GATE, Singles(front));
            && g.sink == Some(k) && !g.channelPrefix && g.escapePrefix == TakeAll(START, front).escaped
            && NoBracket(Delivered(g.delivered, k.number))
  {
    ServeSingleBytes(channels, front, k);
    assert Find(channels, k.number) == Some(k);
  }

  /** Two ways to read the same bytes that leave the gate alike, but `k` with more or less. */
  lemma Forks(channels: seq<Channel>, calls: seq<Call>, k: Channel, a: seq<seq<Byte>>, b: seq<seq<Byte>>)
    requires Readable(a) && Readable(b) && Join(a) == Join(b) <= LineOf(calls)
    requires var g, h := ServeAll(channels, NEW_GATE, a), ServeAll(channels, NEW_GATE, b);
             g == h.(delivered := g.delivered)
             && |Delivered(g.delivered, k.number)| != |Delivered(h.delivered, k.number)|
    ensures !RawArriveForAnyCut(channels, calls, k)
  {
    var rest := Singles(LineOf(calls)[|Join(a)|..]);
    RestCuts(calls, a);
    RestCuts(calls, b);
    ForksApart(channels, k, a, b, rest);
    assert RawArrive(channels, calls, a + rest, k) ==> !RawArrive(channels, calls, b + rest, k);
  }

  lemma ForksApart(channels: seq<Channel>, k: Channel, a: seq<seq<Byte>>, b: seq<seq<Byte>>, rest: seq<seq<Byte>>)
    requires var g, h := ServeAll(channels, NEW_GATE, a), ServeAll(channels, NEW_GATE, b);
             g == h.(delivered := g.delivered)
             && |Delivered(g.delivered, k.number)| != |Delivered(h.delivered, k.number)|
    ensures Handed(channels, a + rest, k) != Handed(channels, b + rest, k)
  {
    var g, h := ServeAll(channels, NEW_GATE, a), ServeAll(channels, NEW_GATE, b);
    ServeAllConcat(channels, NEW_GATE, a, rest);
    ServeAllConcat(channels, NEW_GATE, b, rest);
    var x := ServeAllShifts(channels, g, h.delivered, rest, k.number);
  }

  /** Single bytes complete a cutting. */
  lemma {:induction false} RestCuts(calls: seq<Call>, chunks: seq<seq<Byte>>)
    requires Readable(chunks) && Join(chunks) <= LineOf(calls)
    ensures CutsLine(calls, chunks + Singles(LineOf(calls)[|Join(chunks)|..]))
  {
    var rest := LineOf(calls)[|Join(chunks)|..];
    JoinSingles(rest);
    JoinConcat(chunks, Singles(rest));
  }

  lemma NotBothPrefixes(before: seq<Byte>, x: seq<Byte>, y: seq<Byte>, all: seq<Byte>)
    requires x != [] && y != [] && x[0] != y[0]
    ensures !(before + x <= all && before + y <= all)
  {
    assert (before + x)[|before|] == x[0];
    assert (before + y)[|before|] == y[0];
  }

  /** Two ways to read a part of the line that hand `k` different bytes in the same place. */
  lemma {:induction false} Clashes(channels: seq<Channel>, calls: seq<Call>, k: Channel, a: seq<seq<Byte>>,
                                   b: seq<seq<Byte>>, before: seq<Byte>, x: seq<Byte>, y: seq<Byte>)
    requires Readable(a) && Readable(b) && Join(a) <= LineOf(calls) && Join(b) <= LineOf(calls)
    requires Handed(channels, a, k) == before + x && Handed(channels, b, k) == before + y
    requires x != [] && y != [] && x[0] != y[0]
    ensures !RawArriveForAnyCut(channels, calls, k)
  {
    NotBothPrefixes(before, x, y, RawSentOn(k.number, calls));
    if RawArriveForAnyCut(channels, calls, k) {
      PartOfAll(channels, calls, k, a);
      PartOfAll(channels, calls, k, b);
    }
  }

  /** A call selects a channel by a plain number while the line stands on `k`. */
  lemma {:induction false} PlainSelectSpoils(channels: seq<Channel>, calls: seq<Call>, k: Channel, n: nat)
    requires Distinct(channels) && k in channels && !k.packetized && AllEscaped(calls) && n < |calls|
    requires Current(calls[..n]) == k.number && Selects(k.number, calls[n]) && !NeedsEscape(calls[n].channel.number)
    ensures !RawArriveForAnyCut(channels, calls, k)
  {
    var front, number := LineOf(calls[..n]), calls[n].channel.number;
    SelectLine(calls, n, [CHANNEL_PREFIX, number]);
    RunDecodes(calls[..n]);
    StandsAfter(channels, front, k);
    var g := ServeAll(channels, NEW_GATE, Singles(front));
    ReadTwiceAfter(channels, front, CHANNEL_PREFIX, number);
    ReadAfter(channels, front, [CHANNEL_PREFIX, number]);
    PrefixAlone(channels, g, k, number);
    PrefixWithNumber(channels, g, k, number);
    DeliveredMore(g.delivered, k, [CHANNEL_PREFIX]);
    Forks(channels, calls, k, Singles(front) + [[CHANNEL_PREFIX]] + [[number]],
          Singles(front) + [[CHANNEL_PREFIX, number]]);
  }

  /** By an escaped one. */
  lemma {:induction false} EscapedSelectSpoils(channels: seq<Channel>, calls: seq<Call>, k: Channel, n: nat)
    requires Distinct(channels) && k in channels && !k.packetized && AllEscaped(calls) && n < |calls|
    requires Current(calls[..n]) == k.number && Selects(k.number, calls[n]) && NeedsEscape(calls[n].channel.number)
    ensures !RawArriveForAnyCut(channels, calls, k)
  {
    var front, e := LineOf(calls[..n]), EscapeXor(calls[n].channel.number);
    var read := [CHANNEL_PREFIX, ESCAPE_PREFIX, e];
    SelectLine(calls, n, [CHANNEL_PREFIX]);
    SelectLine(calls, n, read);
    RunDecodes(calls[..n]);
    StandsAfter(channels, front, k);
    var g := ServeAll(channels, NEW_GATE, Singles(front));
    ReadAfter(channels, front, [CHANNEL_PREFIX]);
    ReadAfter(channels, front, read);
    ServeRawByte(channels, g, CHANNEL_PREFIX);
    EscapedNumberWhole(channels, g, k, e);
    DeliveredMore(g.delivered, k, [CHANNEL_PREFIX]);
    DeliveredMore(g.delivered, k, [ESCAPE_PREFIX, ESCAPE_PREFIX]);
    Clashes(channels, calls, k, Singles(front) + [[CHANNEL_PREFIX]], Singles(front) + [read],
            Delivered(g.delivered, k.number), [CHANNEL_PREFIX], [ESCAPE_PREFIX, ESCAPE_PREFIX]);
  }

  /** A byte to be escaped, outside packets. */
  lemma {:induction false} SpecialByteSpoils(channels: seq<Channel>, calls: seq<Call>, k: Channel, n: nat)
    requires Distinct(channels) && k in channels && !k.packetized && AllEscaped(calls) && n < |calls|
    requires calls[n].channel.number == k.number && !calls[n].packetize
    requires !AllPlain(calls[n].data) && NoBracket(calls[n].data)
    ensures !RawArriveForAnyCut(channels, calls, k)
  {
    var data := calls[n].data;
    var i := FirstSpecial(data);
    var front := UpTo(calls, n) + EscapeAll(data[..i]);
    var v := data[i];
    var read := [ESCAPE_PREFIX, EscapeXor(v)];
    SpecialLine(calls, n, i);
    EscapeXorInvolutive(v);
    UpToDecodes(calls, n);
    TakeEscaped(TakeAll(START, UpTo(calls, n)), data[..i]);
    TakeAllConcat(START, UpTo(calls, n), EscapeAll(data[..i]));
    StandsAfter(channels, front, k);
    var g := ServeAll(channels, NEW_GATE, Singles(front));
    ReadTwiceAfter(channels, front, ESCAPE_PREFIX, EscapeXor(v));
    ReadAfter(channels, front, read);
    EscapedApart(channels, g, k, EscapeXor(v));
    EscapedPair(channels, g, k, EscapeXor(v));
    DeliveredMore(g.delivered, k, [v]);
    DeliveredMore(g.delivered, k, [EscapeXor(v)]);
    Clashes(channels, calls, k, Singles(front) + [[ESCAPE_PREFIX]] + [[EscapeXor(v)]], Singles(front) + [read],
            Delivered(g.delivered, k.number), [v], [EscapeXor(v)]);
  }

  lemma SpecialLine(calls: seq<Call>, n: nat, i: nat)
    requires n < |calls| && !calls[n].packetize && !Verbatim(calls[n])
    requires i < |calls[n].data| && NeedsEscape(calls[n].data[i])
    ensures var data := calls[n].data;
            UpTo(calls, n) + EscapeAll(data[..i]) + [ESCAPE_PREFIX, EscapeXor(data[i])] <= LineOf(calls)
  {
    var data := calls[n].data;
    var front := EscapeAll(data[..i]);
    assert data == data[..i + 1] + data[i + 1..] && data[..i + 1][..i] == data[..i];
    EscapeAllConcat(data[..i + 1], data[i + 1..]);
    UpToLine(calls, n, front + EscapeByte(data[i]));
    Assoc(UpTo(calls, n), front, EscapeByte(data[i]));
  }

  /** Single bytes up to the last byte before a packet's end prefix, then that byte, the end prefix
      and what comes after it in one read. */
  function EndReads(calls: seq<Call>, n: nat): seq<seq<Byte>>
    requires n < |calls| && calls[n].data != []
  {
    var opening, y := OpeningOf(calls[n].data), EscapeByte(calls[n].data[|calls[n].data| - 1])[0];
    Singles(UpTo(calls, n) + AllButLast(opening)) + [[opening[|opening| - 1], EOP_PREFIX, y]]
  }

  lemma {:induction false} EndReadsDeliverEnd(channels: seq<Channel>, calls: seq<Call>, k: Channel, n: nat)
    requires Distinct(channels) && k in channels && !k.packetized && AllEscaped(calls) && n < |calls|
    requires calls[n].channel.number == k.number && calls[n].packetize && calls[n].data != []
    ensures Readable(EndReads(calls, n)) && Join(EndReads(calls, n)) <= LineOf(calls)
    ensures EOP_PREFIX in Handed(channels, EndReads(calls, n), k)
  {
    var opening, y := OpeningOf(calls[n].data), EscapeByte(calls[n].data[|calls[n].data| - 1])[0];
    var z := opening[|opening| - 1];
    var front := UpTo(calls, n) + AllButLast(opening);
    PacketLine(calls, n);
    PacketDecodes(calls, n);
    StandsAfter(channels, front, k);
    OpeningEnds(calls[n].data);
    EndOfPacketInside(channels, ServeAll(channels, NEW_GATE, Singles(front)), k, z, y);
    ReadAfter(channels, front, [z, EOP_PREFIX, y]);
  }

  /** Anything in a packet. */
  lemma {:induction false} PacketSpoils(channels: seq<Channel>, calls: seq<Call>, k: Channel, n: nat)
    requires Distinct(channels) && k in channels && !k.packetized && AllEscaped(calls) && n < |calls|
    requires calls[n].channel.number == k.number && calls[n].packetize && calls[n].data != []
    ensures !RawArriveForAnyCut(channels, calls, k)
  {
    EndReadsDeliverEnd(channels, calls, k, n);
    if RawArriveForAnyCut(channels, calls, k) {
      SentHasNoBracket(channels, calls, k);
      PartOfAll(channels, calls, k, EndReads(calls, n));
    }
  }

  /** A frame up to its end prefix. */
  function OpeningOf(data: seq<Byte>): (r: seq<Byte>)
    requires data != []
    ensures r != []
  {
    [SOP] + EscapeAll(data[..|data| - 1])
  }

  lemma OpeningEnds(data: seq<Byte>)
    requires data != []
    ensures var r := OpeningOf(data); if |r| == 1 then r == [SOP] else !NeedsEscape(r[|r| - 1])
  {
    var body := data[..|data| - 1];
    if body != [] {
      assert EscapeAll(body) != [];
      var last := EscapeByte(body[|body| - 1]);
      assert OpeningOf(data)[|OpeningOf(data)| - 1] == last[|last| - 1];
    }
  }

  lemma {:induction false} PacketLine(calls: seq<Call>, n: nat)
    requires n < |calls| && calls[n].packetize && calls[n].data != []
    ensures var opening := OpeningOf(calls[n].data);
            UpTo(calls, n) + AllButLast(opening)
            + [opening[|opening| - 1], EOP_PREFIX, EscapeByte(calls[n].data[|calls[n].data| - 1])[0]] <= LineOf(calls)
  {
    var data := calls[n].data;
    var opening, last := OpeningOf(data), EscapeByte(data[|data| - 1]);
    var read := [opening[|opening| - 1], EOP_PREFIX, last[0]];
    assert AllButLast(opening) + read == opening + [EOP_PREFIX] + last[..1];
    PrefixAfter(opening + [EOP_PREFIX], last[..1], last);
    UpToLine(calls, n, AllButLast(opening) + read);
    Assoc(UpTo(calls, n), AllButLast(opening), read);
  }

  lemma PacketDecodes(calls: seq<Call>, n: nat)
    requires n < |calls| && AllEscaped(calls) && calls[n].packetize && calls[n].data != []
    ensures var front := UpTo(calls, n) + AllButLast(OpeningOf(calls[n].data));
            var l := TakeAll(START, front);
            LegalAll(START, front) && l.channel == calls[n].channel.number && !l.channelNext
            && (|OpeningOf(calls[n].data)| == 1 ==> !l.escaped)
  {
    UpToDecodes(calls, n);
    OpeningDecodes(TakeAll(START, UpTo(calls, n)), calls[n].data);
    TakeAllConcat(START, UpTo(calls, n), AllButLast(OpeningOf(calls[n].data)));
  }

  lemma OpeningDecodes(l: Line, data: seq<Byte>)
    requires Idle(l) && data != []
    ensures var front := AllButLast(OpeningOf(data));
            LegalAll(l, front) && TakeAll(l, front).channel == l.channel && !TakeAll(l, front).channelNext
            && (|OpeningOf(data)| == 1 ==> !TakeAll(l, front).escaped)
  {
    var opening, body := OpeningOf(data), data[..|data| - 1];
    TakeOpening(l, body);
    SplitOpening(data);
    TakeAllConcat(l, AllButLast(opening), [opening[|opening| - 1], EOP_PREFIX]);
    EscapedHasNoSelect(body);
    assert CHANNEL_PREFIX !in opening;
    ChannelStays(l, AllButLast(opening));
  }

  lemma SplitOpening(data: seq<Byte>)
    requires data != []
    ensures var opening := OpeningOf(data);
            AllButLast(opening) + [opening[|opening| - 1], EOP_PREFIX]
            == [SOP] + EscapeAll(data[..|data| - 1]) + [EOP_PREFIX]
  {
  }

  lemma {:induction false} SentContains(k: int, calls: seq<Call>, n: nat)
    requires n < |calls| && calls[n].channel.number == k && NoBracket(RawSentOn(k, calls))
    ensures NoBracket(calls[n].data)
  {
    var m := |calls| - 1;
    if n < m {
      SentContains(k, calls[..m], n);
    }
  }

  lemma {:induction false} Disturbance(k: int, calls: seq<Call>) returns (n: nat)
    requires !Undisturbed(k, calls)
    ensures n < |calls| && Disturbs(k, Current(calls[..n]), calls[n])
  {
    n := |calls| - 1;
    if !Undisturbed(k, calls[..n]) {
      var m := n;
      n := Disturbance(k, calls[..n]);
      assert calls[..m][..n] == calls[..n];
    }
  }

  /** Whatever disturbs a raw channel can spoil it, whether or not other channels are raw. */
  lemma {:induction false} DisturbanceSpoils(channels: seq<Channel>, calls: seq<Call>, k: Channel)
    requires Distinct(channels) && k in channels && !k.packetized && AllEscaped(calls)
    requires !Undisturbed(k.number, calls)
    ensures !RawArriveForAnyCut(channels, calls, k)
  {
    var n := Disturbance(k.number, calls);
    if Current(calls[..n]) == k.number && Selects(k.number, calls[n]) {
      if NeedsEscape(calls[n].channel.number) {
        EscapedSelectSpoils(channels, calls, k, n);
      } else {
        PlainSelectSpoils(channels, calls, k, n);
      }
    } else if calls[n].packetize {
      PacketSpoils(channels, calls, k, n);
    } else if NoBracket(calls[n].data) {
      SpecialByteSpoils(channels, calls, k, n);
    } else if RawArriveForAnyCut(channels, calls, k) {
      SentHasNoBracket(channels, calls, k);
      SentContains(k.number, calls, n);
    }
  }

  /** Beside other raw channels that are spared, every cutting hands a raw channel exactly what was
      sent on it if and only if nothing disturbs it: all that is sent on it is plain bytes outside
      packets, and no channel is selected while the line stands on it. */
  lemma {:induction false} RawArrivesForAnyCutIff(channels: seq<Channel>, calls: seq<Call>, k: Channel)
    requires Distinct(channels) && k in channels && !k.packetized && AllEscaped(calls)
    requires Undisturbed(k.number, calls) ==> SparesRaw(channels, calls)
    ensures RawArriveForAnyCut(channels, calls, k) <==> Undisturbed(k.number, calls)
  {
    if Undisturbed(k.number, calls) {
      forall chunks | CutsLine(calls, chunks)
        ensures RawArrive(channels, calls, chunks, k)
      {
        RawSentArrives(channels, calls, chunks, k);
      }
    } else {
      DisturbanceSpoils(channels, calls, k);
    }
  }

  /** What was sent on `k` arrives, packet by packet or, on a raw channel, byte by byte. */
  ghost predicate AllArrives(channels: seq<Channel>, calls: seq<Call>, chunks: seq<seq<Byte>>, k: Channel) {
    if k.packetized then Arrives(channels, calls, chunks, k) else RawArrive(channels, calls, chunks, k)
  }

  /** Channel by channel, whether the calls are such that nothing can go wrong. */
  predicate Harmless(calls: seq<Call>, k: Channel) {
    if k.packetized then !Exposed(k.number, calls) else Undisturbed(k.number, calls)
  }

  /** With no condition on the channels at all: every cutting delivers everything on every channel
      if and only if no raw channel is disturbed and no packet of another one is exposed. */
  lemma {:induction false} EverythingArrivesIff(channels: seq<Channel>, calls: seq<Call>)
    requires Distinct(channels) && AllEscaped(calls)
    ensures (forall chunks, k :: CutsLine(calls, chunks) && k in channels ==> AllArrives(channels, calls, chunks, k))
            <==> (forall k :: k in channels ==> Harmless(calls, k))
  {
    if k :| k in channels && !k.packetized && !Undisturbed(k.number, calls) {
      DisturbanceSpoils(channels, calls, k);
      var chunks :| CutsLine(calls, chunks) && !RawArrive(channels, calls, chunks, k);
      assert !AllArrives(channels, calls, chunks, k) && !Harmless(calls, k);
    } else {
      UndisturbedIsSpared(channels, calls);
      if k :| k in channels && k.packetized && Exposed(k.number, calls) {
        HarmfulReadsSpoil(channels, calls, k);
        assert !AllArrives(channels, calls, HarmfulReads(k.number, calls), k) && !Harmless(calls, k);
      } else {
        HarmlessArrives(channels, calls);
      }
    }
  }

  lemma {:induction false} HarmlessArrives(channels: seq<Channel>, calls: seq<Call>)
    requires Distinct(channels) && AllEscaped(calls) && SparesRaw(channels, calls)
    requires forall k :: k in channels ==> Harmless(calls, k)
    ensures forall chunks, k :: CutsLine(calls, chunks) && k in channels ==> AllArrives(channels, calls, chunks, k)
  {
    forall chunks, k | CutsLine(calls, chunks) && k in channels
      ensures AllArrives(channels, calls, chunks, k)
    {
      assert Harmless(calls, k);
      if k.packetized {
        PacketsArrive(channels, calls, chunks, k);
      } else {
        RawSentArrives(channels, calls, chunks, k);
      }
    }
  }
}
