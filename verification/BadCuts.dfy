/** The other direction: a cutting that spoils a packet whenever the calls expose one. */
module BadCuts {
  import opened Bytes
  import opened AvalonSt
  import opened HostBridge
  import opened SourceRun
  import opened Demux
  import opened Exposure
  import opened Options

  predicate Readable(chunks: seq<seq<Byte>>) {
    forall c :: c in chunks ==> |c| <= READ_BUFFER_LEN
  }

  // --------------------------------------------------------------------------- the reads

  function Singles(bs: seq<Byte>): seq<seq<Byte>> {
    if bs == [] then [] else Singles(AllButLast(bs)) + [[bs[|bs| - 1]]]
  }

  /** A channel number in one read, or cut between its escape and its body. */
  function SelectReads(number: Byte, cut: bool): seq<seq<Byte>> {
    if cut && NeedsEscape(number) then [[CHANNEL_PREFIX, ESCAPE_PREFIX], [EscapeXor(number)]]
    else [ChannelSelect(number)]
  }

  function CallReads(current: int, c: Call, cut: bool): seq<seq<Byte>> {
    (if Selects(current, c) then SelectReads(c.channel.number, cut) else []) + Singles(Payload(c))
  }

  function CleanReads(calls: seq<Call>): seq<seq<Byte>> {
    if calls == [] then []
    else
      var n := |calls| - 1;
      CleanReads(calls[..n]) + CallReads(Current(calls[..n]), calls[n], false)
  }

  /** Cut inside the last escaped number by which the line left `k`. */
  function RiskyReads(k: int, calls: seq<Call>): seq<seq<Byte>> {
    if calls == [] then []
    else
      var n := |calls| - 1;
      var current := Current(calls[..n]);
      if LeavesEscaped(k, current, calls[n]) then
        CleanReads(calls[..n]) + CallReads(current, calls[n], true)
      else RiskyReads(k, calls[..n]) + CallReads(current, calls[n], false)
  }

  /** The same up to the first packet that is exposed. */
  function HarmfulReads(k: int, calls: seq<Call>): seq<seq<Byte>> {
    if calls == [] then []
    else
      var n := |calls| - 1;
      if Exposed(k, calls[..n]) then
        HarmfulReads(k, calls[..n]) + CallReads(Current(calls[..n]), calls[n], false)
      else RiskyReads(k, calls)
  }

  lemma {:induction false} JoinConcat(a: seq<seq<Byte>>, b: seq<seq<Byte>>)
    ensures Join(a + b) == Join(a) + Join(b)
  {
    if b == [] {
      assert a + b == a;
    } else {
      var n := |b| - 1;
      assert (a + b)[..|a + b| - 1] == a + b[..n];
      JoinConcat(a, b[..n]);
    }
  }

  lemma {:induction false} JoinSingles(bs: seq<Byte>)
    ensures Join(Singles(bs)) == bs && Readable(Singles(bs))
  {
    if bs != [] {
      JoinSingles(AllButLast(bs));
      assert bs == AllButLast(bs) + [bs[|bs| - 1]];
    }
  }

  lemma JoinSelect(number: Byte, cut: bool)
    ensures Join(SelectReads(number, cut)) == ChannelSelect(number) && Readable(SelectReads(number, cut))
  {
    if cut && NeedsEscape(number) {
      var first, second := [CHANNEL_PREFIX, ESCAPE_PREFIX], [EscapeXor(number)];
      JoinConcat([first], [second]);
      JoinOne(first);
      JoinOne(second);
      assert SelectReads(number, cut) == [first] + [second];
      assert first + second == ChannelSelect(number);
    } else {
      JoinOne(ChannelSelect(number));
    }
  }

  lemma JoinOne(chunk: seq<Byte>)
    ensures Join([chunk]) == chunk
  {
    assert [chunk][..0] == [];
  }

  lemma JoinCall(current: int, c: Call, cut: bool)
    ensures Join(CallReads(current, c, cut)) == SourceBytes(current, c) && Readable(CallReads(current, c, cut))
  {
    JoinSelect(c.channel.number, cut);
    JoinSingles(Payload(c));
    JoinConcat(if Selects(current, c) then SelectReads(c.channel.number, cut) else [], Singles(Payload(c)));
  }

  lemma {:induction false} JoinNext(calls: seq<Call>, chunks: seq<seq<Byte>>, cut: bool)
    requires calls != [] && Join(chunks) == LineOf(calls[..|calls| - 1]) && Readable(chunks)
    ensures var more := chunks + CallReads(Current(calls[..|calls| - 1]), calls[|calls| - 1], cut);
            Join(more) == LineOf(calls) && Readable(more)
  {
    var n := |calls| - 1;
    JoinCall(Current(calls[..n]), calls[n], cut);
    JoinConcat(chunks, CallReads(Current(calls[..n]), calls[n], cut));
  }

  lemma {:induction false} JoinClean(calls: seq<Call>)
    ensures Join(CleanReads(calls)) == LineOf(calls) && Readable(CleanReads(calls))
  {
    if calls != [] {
      JoinClean(calls[..|calls| - 1]);
      JoinNext(calls, CleanReads(calls[..|calls| - 1]), false);
    }
  }

  lemma {:induction false} JoinRisky(k: int, calls: seq<Call>)
    ensures Join(RiskyReads(k, calls)) == LineOf(calls) && Readable(RiskyReads(k, calls))
  {
    if calls != [] {
      var n := |calls| - 1;
      if LeavesEscaped(k, Current(calls[..n]), calls[n]) {
        JoinClean(calls[..n]);
        JoinNext(calls, CleanReads(calls[..n]), true);
      } else {
        JoinRisky(k, calls[..n]);
        JoinNext(calls, RiskyReads(k, calls[..n]), false);
      }
    }
  }

  lemma {:induction false} JoinHarmful(k: int, calls: seq<Call>)
    ensures Join(HarmfulReads(k, calls)) == LineOf(calls) && Readable(HarmfulReads(k, calls))
  {
    if calls != [] {
      var n := |calls| - 1;
      if Exposed(k, calls[..n]) {
        JoinHarmful(k, calls[..n]);
        JoinNext(calls, HarmfulReads(k, calls[..n]), false);
      } else {
        JoinRisky(k, calls);
      }
    }
  }

  // ------------------------------------------------------------- what they do to a sink

  lemma {:induction false} ServeReadsConcat(channels: seq<Channel>, d: Demux, a: seq<seq<Byte>>, b: seq<seq<Byte>>)
    ensures ServeReads(channels, d, a + b) == ServeReads(channels, ServeReads(channels, d, a), b)
  {
    if b == [] {
      assert a + b == a;
    } else {
      var n := |b| - 1;
      assert (a + b)[..|a + b| - 1] == a + b[..n];
      ServeReadsConcat(channels, d, a, b[..n]);
    }
  }

  lemma RouteOne(channels: seq<Channel>, d: Demux, b: Byte)
    ensures RouteAll(channels, d, [b]) == Route(channels, d, b)
  {
    assert [b][..0] == [];
  }

  lemma ServeOneRead(channels: seq<Channel>, d: Demux, read: seq<Byte>)
    ensures ServeReads(channels, d, [read]) == ServeRead(channels, d, read)
  {
    assert [read][..0] == [];
  }

  /** Between calls: nothing is held, no prefix is pending, the sink is that of `current`. */
  predicate Rested(channels: seq<Channel>, d: Demux, current: int) {
    d.held == [] && !d.channelPrefix && !d.escapePrefix
    && d.sink == (if 0 <= current < 256 then Find(channels, current) else None)
  }

  lemma DeliverTwice(m: Deliveries, sink: Option<Channel>, a: seq<Byte>, b: seq<Byte>)
    ensures Deliver(Deliver(m, sink, a), sink, b) == Deliver(m, sink, a + b)
  {
    if a == [] {
      assert a + b == b;
    } else if b == [] {
      assert a + b == a;
    } else if sink.Some? {
      var n := sink.value.number;
      assert (Delivered(m, n) + a) + b == Delivered(m, n) + (a + b);
    }
  }

  lemma DeliverOne(channels: seq<Channel>, m: Deliveries, sink: Option<Channel>, bs: seq<Byte>, k: Channel)
    requires sink.Some? && sink != Some(k) ==> sink.value.number != k.number
    ensures Delivered(Deliver(m, sink, bs), k.number) == Delivered(m, k.number) + if sink == Some(k) then bs else []
  {
  }

  lemma ServeSingle(channels: seq<Channel>, d: Demux, b: Byte)
    requires d.held == [] && !d.channelPrefix && b != CHANNEL_PREFIX
    ensures ServeRead(channels, d, [b]) ==
            d.(escapePrefix := b == ESCAPE_PREFIX, delivered := Deliver(d.delivered, d.sink, [b]))
  {
    RouteOne(channels, d, b);
    assert d.held + [b] == [b];
  }

  lemma ServeReadsNext(channels: seq<Channel>, d: Demux, chunks: seq<seq<Byte>>, read: seq<Byte>)
    ensures ServeReads(channels, d, chunks + [read]) == ServeRead(channels, ServeReads(channels, d, chunks), read)
  {
    assert (chunks + [read])[..|chunks|] == chunks;
  }

  lemma {:induction false} ServeSingles(channels: seq<Channel>, d: Demux, bs: seq<Byte>)
    requires d.held == [] && !d.channelPrefix && CHANNEL_PREFIX !in bs
    ensures ServeReads(channels, d, Singles(bs)) ==
            d.(escapePrefix := if bs == [] then d.escapePrefix else bs[|bs| - 1] == ESCAPE_PREFIX,
               delivered := Deliver(d.delivered, d.sink, bs))
  {
    if bs != [] {
      var before, b := AllButLast(bs), bs[|bs| - 1];
      ServeSingles(channels, d, before);
      ServeReadsNext(channels, d, Singles(before), [b]);
      ServeSingle(channels, ServeReads(channels, d, Singles(before)), b);
      DeliverTwice(d.delivered, d.sink, before, [b]);
      assert before + [b] == bs;
    }
  }

  /** The number in one read: the sink being left is handed the channel prefix if it is escaped. */
  lemma ServeSelect(channels: seq<Channel>, d: Demux, current: int, number: Byte)
    requires Rested(channels, d, current)
    ensures var e := ServeReads(channels, d, SelectReads(number, false));
            Rested(channels, e, number)
            && e.delivered ==
               if NeedsEscape(number) then Deliver(d.delivered, d.sink, [CHANNEL_PREFIX]) else d.delivered
  {
    var read := ChannelSelect(number);
    ServeOneRead(channels, d, read);
    var d1 := d.(channelPrefix := true, held := [CHANNEL_PREFIX]);
    assert read[..0] == [] && read[..1] == [CHANNEL_PREFIX];
    RouteNext(channels, d, read, 0);
    RouteNext(channels, d, read, 1);
    assert d.held + [CHANNEL_PREFIX] == [CHANNEL_PREFIX];
    assert RouteAll(channels, d, read[..1]) == d1;
    if NeedsEscape(number) {
      EscapeXorInvolutive(number);
      assert read[..2] == [CHANNEL_PREFIX, ESCAPE_PREFIX] && read[..3] == read;
      RouteNext(channels, d, read, 2);
      assert d1.held + [ESCAPE_PREFIX] == [CHANNEL_PREFIX, ESCAPE_PREFIX];
    } else {
      assert read[..2] == read;
    }
  }

  /** Cut inside: it is handed the escape as well. */
  lemma ServeSelectCut(channels: seq<Channel>, d: Demux, current: int, number: Byte)
    requires Rested(channels, d, current) && NeedsEscape(number)
    ensures var e := ServeReads(channels, d, SelectReads(number, true));
            Rested(channels, e, number)
            && e.delivered == Deliver(d.delivered, d.sink, [CHANNEL_PREFIX, ESCAPE_PREFIX])
  {
    EscapeXorInvolutive(number);
    var read := [CHANNEL_PREFIX, ESCAPE_PREFIX];
    assert SelectReads(number, true) == [read] + [[EscapeXor(number)]];
    ServeReadsConcat(channels, d, [read], [[EscapeXor(number)]]);
    ServeOneRead(channels, d, read);
    assert read[..0] == [] && read[..1] == [CHANNEL_PREFIX] && read[..2] == read;
    RouteNext(channels, d, read, 0);
    RouteNext(channels, d, read, 1);
    assert d.held + [CHANNEL_PREFIX] == [CHANNEL_PREFIX];
    assert [CHANNEL_PREFIX] + [ESCAPE_PREFIX] == read;
    var e := ServeRead(channels, d, read);
    ServeOneRead(channels, e, [EscapeXor(number)]);
    RouteOne(channels, e, EscapeXor(number));
  }

  lemma PayloadEndsUnescaped(c: Call)
    requires !Verbatim(c) && Payload(c) != []
    ensures Payload(c)[|Payload(c)| - 1] != ESCAPE_PREFIX
  {
  }

  lemma ServePayload(channels: seq<Channel>, d: Demux, c: Call)
    requires Rested(channels, d, c.channel.number) && !Verbatim(c)
    ensures var e := ServeReads(channels, d, Singles(Payload(c)));
            Rested(channels, e, c.channel.number) && e.delivered == Deliver(d.delivered, d.sink, Payload(c))
  {
    PayloadHasNoSelect(c);
    ServeSingles(channels, d, Payload(c));
    if Payload(c) != [] {
      PayloadEndsUnescaped(c);
    }
  }

  // ------------------------------------------------------------- what the deframer makes of it

  function At(d: Demux, k: Channel): Deframer {
    AcceptAll(NEW_DEFRAMER, Delivered(d.delivered, k.number))
  }

  /** A deframer between packets. */
  function Between(escape: bool, packets: seq<seq<Byte>>): Deframer {
    Deframer(escape, false, false, [], packets)
  }

  /** Outside a packet only the last byte's escape matters. */
  lemma {:induction false} AcceptOutside(escape: bool, packets: seq<seq<Byte>>, s: seq<Byte>)
    ensures AcceptAll(Between(escape, packets), EscapeAll(s)) == Between(escape && s == [], packets)
  {
    if s != [] {
      var n := |s| - 1;
      AcceptOutside(escape, packets, s[..n]);
      AcceptAllConcat(Between(escape, packets), EscapeAll(s[..n]), EscapeByte(s[n]));
      AcceptByteOutside(escape && n == 0, packets, s[n]);
    }
  }

  lemma AcceptByteOutside(escape: bool, packets: seq<seq<Byte>>, b: Byte)
    ensures AcceptAll(Between(escape, packets), EscapeByte(b)) == Between(false, packets)
  {
    var g := Between(escape, packets);
    if NeedsEscape(b) {
      AcceptOne(g, ESCAPE_PREFIX);
      AcceptOne(g.(escape := true), EscapeXor(b));
      AcceptAllConcat(g, [ESCAPE_PREFIX], [EscapeXor(b)]);
      assert EscapeByte(b) == [ESCAPE_PREFIX] + [EscapeXor(b)];
    } else {
      AcceptOne(g, b);
    }
  }

  lemma AcceptPayload(escape: bool, packets: seq<seq<Byte>>, c: Call)
    requires !Verbatim(c)
    ensures AcceptAll(Between(escape, packets), Payload(c)) ==
            if c.data == [] then Between(escape, packets)
            else Between(false, packets + if c.packetize then [Tainted(escape, c.data)] else [])
  {
    if c.packetize && c.data != [] {
      AcceptFrame(Between(escape, packets), c.data);
    } else if !c.packetize {
      AcceptOutside(escape, packets, c.data);
      assert packets + [] == packets;
    }
  }

  /** What is handed to `k`'s sink when the line leaves it by `c`. */
  lemma AcceptLeave(escape: bool, packets: seq<seq<Byte>>, cut: bool)
    ensures AcceptAll(Between(escape, packets), [CHANNEL_PREFIX] + if cut then [ESCAPE_PREFIX] else [])
            == Between(cut, packets)
  {
    var g := Between(escape, packets);
    AcceptOne(g, CHANNEL_PREFIX);
    if cut {
      AcceptOne(Accept(g, CHANNEL_PREFIX), ESCAPE_PREFIX);
      AcceptAllConcat(g, [CHANNEL_PREFIX], [ESCAPE_PREFIX]);
    } else {
      assert [CHANNEL_PREFIX] + [] == [CHANNEL_PREFIX];
    }
  }

  lemma AtAfter(channels: seq<Channel>, d: Demux, bs: seq<Byte>, e: Demux, k: Channel)
    requires Distinct(channels) && k in channels && e.delivered == Deliver(d.delivered, d.sink, bs)
    requires d.sink.Some? ==> d.sink == Find(channels, d.sink.value.number)
    ensures At(e, k) == if d.sink == Some(k) then AcceptAll(At(d, k), bs) else At(d, k)
  {
    assert Find(channels, k.number) == Some(k);
    DeliverOne(channels, d.delivered, d.sink, bs, k);
    if d.sink == Some(k) {
      AcceptAllConcat(NEW_DEFRAMER, Delivered(d.delivered, k.number), bs);
    } else {
      assert Delivered(d.delivered, k.number) + [] == Delivered(d.delivered, k.number);
    }
  }

  lemma RestedSink(channels: seq<Channel>, d: Demux, current: int, k: Channel)
    requires Distinct(channels) && k in channels && Rested(channels, d, current)
    ensures d.sink == Some(k) <==> current == k.number
    ensures d.sink.Some? ==> d.sink == Find(channels, d.sink.value.number)
  {
    assert Find(channels, k.number) == Some(k);
  }

  lemma SelectEffect(channels: seq<Channel>, d: Demux, current: int, c: Call, cut: bool, k: Channel,
                     escape: bool, packets: seq<seq<Byte>>)
    requires Distinct(channels) && k in channels && Rested(channels, d, current) && Selects(current, c)
    requires At(d, k) == Between(escape, packets) && (cut ==> NeedsEscape(c.channel.number))
    ensures var e := ServeReads(channels, d, SelectReads(c.channel.number, cut));
            Rested(channels, e, c.channel.number)
            && At(e, k) == Between(if LeavesEscaped(k.number, current, c) then cut else escape, packets)
  {
    var number := c.channel.number;
    RestedSink(channels, d, current, k);
    var e := ServeReads(channels, d, SelectReads(number, cut));
    if cut {
      ServeSelectCut(channels, d, current, number);
      assert [CHANNEL_PREFIX] + [ESCAPE_PREFIX] == [CHANNEL_PREFIX, ESCAPE_PREFIX];
    } else {
      ServeSelect(channels, d, current, number);
      assert [CHANNEL_PREFIX] + [] == [CHANNEL_PREFIX];
    }
    if NeedsEscape(number) {
      AcceptLeave(escape, packets, cut);
      AtAfter(channels, d, [CHANNEL_PREFIX] + if cut then [ESCAPE_PREFIX] else [], e, k);
    }
  }

  /** One call, read like that: the escape that waits at `k`'s sink afterwards, and the packet that
      it is given. */
  lemma {:induction false} CallEffect(channels: seq<Channel>, d: Demux, current: int, c: Call, cut: bool, k: Channel,
                   escape: bool, packets: seq<seq<Byte>>)
    requires Distinct(channels) && k in channels && Rested(channels, d, current) && !Verbatim(c)
    requires At(d, k) == Between(escape, packets)
    requires cut ==> Selects(current, c) && NeedsEscape(c.channel.number)
    ensures var e := ServeReads(channels, d, CallReads(current, c, cut));
            var waits := if LeavesEscaped(k.number, current, c) then cut else escape;
            Rested(channels, e, c.channel.number)
            && At(e, k) ==
               if c.channel.number != k.number || c.data == [] then Between(waits, packets)
               else Between(false, packets + if c.packetize then [Tainted(waits, c.data)] else [])
  {
    var select := if Selects(current, c) then SelectReads(c.channel.number, cut) else [];
    ServeReadsConcat(channels, d, select, Singles(Payload(c)));
    if Selects(current, c) {
      SelectEffect(channels, d, current, c, cut, k, escape, packets);
    }
    var e := ServeReads(channels, d, select);
    var waits := if LeavesEscaped(k.number, current, c) then cut else escape;
    ServePayload(channels, e, c);
    RestedSink(channels, e, c.channel.number, k);
    AtAfter(channels, e, Payload(c), ServeReads(channels, e, Singles(Payload(c))), k);
    AcceptPayload(waits, packets, c);
  }

  // ---------------------------------------------------------------------- the three cuttings

  lemma {:induction false} CleanArrives(channels: seq<Channel>, calls: seq<Call>, k: Channel)
    requires Distinct(channels) && k in channels && AllEscaped(calls)
    ensures var d := ServeReads(channels, NEW_DEMUX, CleanReads(calls));
            Rested(channels, d, Current(calls)) && At(d, k) == Between(false, SentOn(k.number, calls))
  {
    if calls != [] {
      var n := |calls| - 1;
      CleanArrives(channels, calls[..n], k);
      var chunks := CallReads(Current(calls[..n]), calls[n], false);
      ServeReadsConcat(channels, NEW_DEMUX, CleanReads(calls[..n]), chunks);
      var d := ServeReads(channels, NEW_DEMUX, CleanReads(calls[..n]));
      CallEffect(channels, d, Current(calls[..n]), calls[n], false, k, false, SentOn(k.number, calls[..n]));
      NotTainted(calls[n].data);
    }
  }

  lemma NotTainted(data: seq<Byte>)
    ensures Tainted(false, data) == data
    ensures data != [] && !NeedsEscape(data[0]) ==> Tainted(true, data) != data
  {
    if data != [] {
      assert Tainted(true, data)[0] == AfterEscape(true, data[0]);
    }
  }

  /** An escape waits when `c` is read: what `k`'s sink has afterwards. */
  function Spoilt(k: int, before: seq<seq<Byte>>, c: Call): Deframer {
    if c.channel.number != k || c.data == [] then Between(true, before)
    else Between(false, before + if c.packetize then [Tainted(true, c.data)] else [])
  }

  lemma {:induction false} LeavesNow(channels: seq<Channel>, calls: seq<Call>, c: Call, k: Channel)
    requires Distinct(channels) && k in channels && AllEscaped(calls) && !Verbatim(c)
    requires LeavesEscaped(k.number, Current(calls), c)
    ensures var d := ServeReads(channels, NEW_DEMUX, CleanReads(calls) + CallReads(Current(calls), c, true));
            Rested(channels, d, c.channel.number) && At(d, k) == Spoilt(k.number, SentOn(k.number, calls), c)
  {
    CleanArrives(channels, calls, k);
    ServeReadsConcat(channels, NEW_DEMUX, CleanReads(calls), CallReads(Current(calls), c, true));
    CallEffect(channels, ServeReads(channels, NEW_DEMUX, CleanReads(calls)), Current(calls), c, true, k,
               false, SentOn(k.number, calls));
  }

  lemma LeftBefore(channels: seq<Channel>, calls: seq<Call>, chunks: seq<seq<Byte>>, c: Call, k: Channel)
    requires Distinct(channels) && k in channels && !Verbatim(c)
    requires !LeavesEscaped(k.number, Current(calls), c)
    requires var d := ServeReads(channels, NEW_DEMUX, chunks);
             Rested(channels, d, Current(calls)) && At(d, k) == Between(true, SentOn(k.number, calls))
    ensures var d := ServeReads(channels, NEW_DEMUX, chunks + CallReads(Current(calls), c, false));
            Rested(channels, d, c.channel.number) && At(d, k) == Spoilt(k.number, SentOn(k.number, calls), c)
  {
    ServeReadsConcat(channels, NEW_DEMUX, chunks, CallReads(Current(calls), c, false));
    CallEffect(channels, ServeReads(channels, NEW_DEMUX, chunks), Current(calls), c, false, k,
               true, SentOn(k.number, calls));
  }

  /** What `RiskyReads` leaves at `k`'s sink. */
  lemma {:induction false} RiskyLeaves(channels: seq<Channel>, calls: seq<Call>, k: Channel)
    requires Distinct(channels) && k in channels && AllEscaped(calls) && calls != []
    requires var n := |calls| - 1;
             AtRisk(k.number, calls[..n]) || LeavesEscaped(k.number, Current(calls[..n]), calls[n])
    ensures var n := |calls| - 1;
            var d := ServeReads(channels, NEW_DEMUX, RiskyReads(k.number, calls));
            Rested(channels, d, Current(calls))
            && At(d, k) == Spoilt(k.number, SentOn(k.number, calls[..n]), calls[n])
  {
    var n := |calls| - 1;
    if LeavesEscaped(k.number, Current(calls[..n]), calls[n]) {
      LeavesNow(channels, calls[..n], calls[n], k);
    } else {
      RiskyLeaves(channels, calls[..n], k);
      assert SentOn(k.number, calls[..n]) == SentOn(k.number, calls[..n][..n - 1]) + [];
      LeftBefore(channels, calls[..n], RiskyReads(k.number, calls[..n]), calls[n], k);
    }
  }

  /** If the calls expose a packet on `k`, packet `i` comes out wrong and stays so. */
  lemma {:induction false} HarmfulSpoils(channels: seq<Channel>, calls: seq<Call>, k: Channel) returns (i: nat)
    requires Distinct(channels) && k in channels && AllEscaped(calls) && Exposed(k.number, calls)
    ensures var d := ServeReads(channels, NEW_DEMUX, HarmfulReads(k.number, calls));
            var sent := SentOn(k.number, calls);
            Rested(channels, d, Current(calls)) && At(d, k) == Between(At(d, k).escape, At(d, k).packets)
            && i < |At(d, k).packets| && i < |sent| && At(d, k).packets[i] != sent[i]
  {
    var n := |calls| - 1;
    var before := SentOn(k.number, calls[..n]);
    if Exposed(k.number, calls[..n]) {
      i := HarmfulSpoils(channels, calls[..n], k);
      var d := ServeReads(channels, NEW_DEMUX, HarmfulReads(k.number, calls[..n]));
      var chunks := CallReads(Current(calls[..n]), calls[n], false);
      ServeReadsConcat(channels, NEW_DEMUX, HarmfulReads(k.number, calls[..n]), chunks);
      CallEffect(channels, d, Current(calls[..n]), calls[n], false, k, At(d, k).escape, At(d, k).packets);
    } else {
      RiskyLeaves(channels, calls, k);
      NotTainted(calls[n].data);
      i := |before|;
    }
  }
}
