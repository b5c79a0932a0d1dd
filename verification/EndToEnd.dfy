/** Encoder, demultiplexer and deframers composed: what is sent on a channel arrives there. */
module EndToEnd {
  import opened Bytes
  import opened AvalonSt
  import opened HostBridge
  import opened SourceRun
  import opened Demux
  import opened Exposure
  import opened BadCuts
  import opened RpcSink
  import opened Options
  import RpcSlot

  /** All that the sink of `k` is handed when the line arrives in `chunks`. */
  function Handed(channels: seq<Channel>, chunks: seq<seq<Byte>>, k: Channel): seq<Byte> {
    Delivered(ServeAll(channels, NEW_GATE, chunks).delivered, k.number)
  }

  ghost predicate Arrives(channels: seq<Channel>, calls: seq<Call>, chunks: seq<seq<Byte>>, k: Channel) {
    AcceptAll(NEW_DEFRAMER, Handed(channels, chunks, k)).packets == SentOn(k.number, calls)
  }

  /** The line of `calls`, cut into reads that the receiver's buffer can hold. */
  predicate CutsLine(calls: seq<Call>, chunks: seq<seq<Byte>>) {
    Readable(chunks) && Join(chunks) == LineOf(calls)
  }

  /** For every run of escaped `Source` calls that spares the raw channels and every cutting of the
      line into reads, each registered channel's deframer recovers exactly the packets sent on it,
      unless a read ends inside an escaped channel number and the calls expose a packet to that. */
  lemma {:induction false} PacketsArrive(channels: seq<Channel>, calls: seq<Call>, chunks: seq<seq<Byte>>, k: Channel)
    requires Distinct(channels) && k in channels && AllEscaped(calls) && SparesRaw(channels, calls)
    requires Join(chunks) == LineOf(calls) && (CutsAllowed(chunks) || !Exposed(k.number, calls))
    ensures Arrives(channels, calls, chunks, k)
  {
    RunDecodes(calls);
    RunAssembles(k.number, calls);
    RiskOfRun(k.number, calls);
    CalmRun(channels, calls);
    DemuxRefinesDecoder(channels, chunks, k);
  }

  lemma {:induction false} HarmfulReadsSpoil(channels: seq<Channel>, calls: seq<Call>, k: Channel)
    requires Distinct(channels) && k in channels && AllEscaped(calls) && SparesRaw(channels, calls)
    requires Exposed(k.number, calls)
    ensures CutsLine(calls, HarmfulReads(k.number, calls))
    ensures !Arrives(channels, calls, HarmfulReads(k.number, calls), k)
  {
    var chunks := HarmfulReads(k.number, calls);
    JoinHarmful(k.number, calls);
    RunDecodes(calls);
    CalmRun(channels, calls);
    ServeAllIsServeReads(channels, chunks);
    var i := HarmfulSpoils(channels, calls, k);
  }

  /** Every cutting delivers what was sent on `k` if and only if the calls never leave `k` by an
      escaped number and then send on it first a packet whose first byte needs no escape. */
  lemma PacketsArriveForAnyCut(channels: seq<Channel>, calls: seq<Call>, k: Channel)
    requires Distinct(channels) && k in channels && AllEscaped(calls) && SparesRaw(channels, calls)
    ensures (forall chunks :: CutsLine(calls, chunks) ==> Arrives(channels, calls, chunks, k))
            <==> !Exposed(k.number, calls)
  {
    if Exposed(k.number, calls) {
      HarmfulReadsSpoil(channels, calls, k);
    } else {
      forall chunks | CutsLine(calls, chunks)
        ensures Arrives(channels, calls, chunks, k)
      {
        PacketsArrive(channels, calls, chunks, k);
      }
    }
  }

  /** When no channel number needs escaping the cutting does not matter at all: a read may end
      inside a packet, inside an escape, or between a channel prefix and its number. */
  lemma {:induction false} PlainNumbersArrive(channels: seq<Channel>, calls: seq<Call>, chunks: seq<seq<Byte>>,
                                              k: Channel)
    requires Distinct(channels) && k in channels && AllEscaped(calls) && SparesRaw(channels, calls)
    requires Join(chunks) == LineOf(calls) && PlainNumbers(calls)
    ensures Arrives(channels, calls, chunks, k)
  {
    PlainNumbersExposeNothing(k.number, calls);
    PacketsArrive(channels, calls, chunks, k);
  }

  // ------------------------------------------------------------------- down to the workers

  /** Whatever the cutting of the line and whatever the schedule of the sink's pushing back and of
      the slot being emptied, once the sink has accepted all it was handed, the jobs taken, followed
      by the one still pending, are the admitted requests, in order. */
  lemma {:induction false} RequestsArrive(c: Config, channels: seq<Channel>, calls: seq<Call>, chunks: seq<seq<Byte>>,
                       k: Channel, es: seq<Event>)
    requires Distinct(channels) && k in channels && AllEscaped(calls) && SparesRaw(channels, calls)
    requires Join(chunks) == LineOf(calls) && (CutsAllowed(chunks) || !Exposed(k.number, calls))
    requires SanePackets(c, NONE_YET, SentOn(k.number, calls))
    ensures var w := HappenAll(c, World(NEW_SINK, Handed(channels, chunks, k), []), es);
            w.todo == [] ==>
              Collect(Free(w.sink, w.taken)).jobs
                == AdmitAll(c, NONE_YET, SentOn(k.number, calls)).jobs
  {
    var handed := Handed(channels, chunks, k);
    HandedIsSane(c, channels, calls, chunks, k);
    BackPressureIsInvisible(c, NEW_SINK, handed, es);
    SinkAdmitsPackets(c, handed);
    assert handed[..|handed|] == handed;
  }

  /** All that the deframer of `k` is handed is its packets, and what they make the sink do. */
  lemma {:induction false} HandedIsSane(c: Config, channels: seq<Channel>, calls: seq<Call>, chunks: seq<seq<Byte>>,
                                      k: Channel)
    requires Distinct(channels) && k in channels && AllEscaped(calls) && SparesRaw(channels, calls)
    requires Join(chunks) == LineOf(calls) && (CutsAllowed(chunks) || !Exposed(k.number, calls))
    ensures var handed := Handed(channels, chunks, k);
            && Bracketed(NEW_DEFRAMER, handed)
            && AcceptAll(NEW_DEFRAMER, handed).packets == SentOn(k.number, calls)
            && (FreeRun(c, Free(NEW_SINK, []), handed).sink.fault
                <==> !SanePackets(c, NONE_YET, SentOn(k.number, calls)))
  {
    PacketsArrive(channels, calls, chunks, k);
    RunDecodes(calls);
    CalmRun(channels, calls);
    RiskOfRun(k.number, calls);
    RunAssembles(k.number, calls);
    DemuxRefinesDecoder(channels, chunks, k);
    FaultsIff(c, Handed(channels, chunks, k));
  }

  /** And in the single steps of sink and workers: with the posts that these requests make, some
      schedule of the workers loses a job if and only if a request posts without a job and a later
      one with one. */
  lemma {:induction false} RequestsCanBeLostIff(
    c: Config, channels: seq<Channel>, calls: seq<Call>, chunks: seq<seq<Byte>>, k: Channel, plan: RpcSlot.Plan,
    s: RpcSlot.System)
    requires Distinct(channels) && k in channels && AllEscaped(calls) && SparesRaw(channels, calls)
    requires Join(chunks) == LineOf(calls) && (CutsAllowed(chunks) || !Exposed(k.number, calls))
    requires SanePackets(c, NONE_YET, SentOn(k.number, calls))
    requires RpcSlot.IsNew(s) && |s.workers| > 0
    ensures RpcSlot.CanLose(plan, s, Posts(c, Free(NEW_SINK, []), Handed(channels, chunks, k)))
            <==> RpcSlot.EmptyBeforeJob(PostsOf(c, SentOn(k.number, calls)))
  {
    HandedIsSane(c, channels, calls, chunks, k);
    PostsFollowPackets(c, Handed(channels, chunks, k));
    RpcSlot.CanLoseIff(plan, s, PostsOf(c, SentOn(k.number, calls)));
  }

  /** Or frees one twice, if there are two workers or more. */
  lemma {:induction false} RequestsCanBeFreedTwiceIff(
    c: Config, channels: seq<Channel>, calls: seq<Call>, chunks: seq<seq<Byte>>, k: Channel, plan: RpcSlot.Plan,
    s: RpcSlot.System)
    requires Distinct(channels) && k in channels && AllEscaped(calls) && SparesRaw(channels, calls)
    requires Join(chunks) == LineOf(calls) && (CutsAllowed(chunks) || !Exposed(k.number, calls))
    requires SanePackets(c, NONE_YET, SentOn(k.number, calls)) && RpcSlot.IsNew(s)
    ensures RpcSlot.CanFreeTwice(plan, s, Posts(c, Free(NEW_SINK, []), Handed(channels, chunks, k)))
            <==> RpcSlot.EmptyBeforeJob(PostsOf(c, SentOn(k.number, calls))) && |s.workers| >= 2
  {
    HandedIsSane(c, channels, calls, chunks, k);
    PostsFollowPackets(c, Handed(channels, chunks, k));
    RpcSlot.CanFreeTwiceIff(plan, s, PostsOf(c, SentOn(k.number, calls)));
  }

  lemma {:induction false} NoEmptyPost(c: Config, ps: seq<seq<Byte>>)
    requires forall p :: p in ps ==> |p| >= 5
    ensures false !in PostsOf(c, ps)
  {
    if ps != [] {
      NoEmptyPost(c, ps[..|ps| - 1]);
      assert ps[|ps| - 1] in ps;
    }
  }

  lemma {:induction false} NothingBefore(cs: seq<bool>)
    requires false !in cs
    ensures !RpcSlot.EmptyBeforeJob(cs)
  {
    if cs != [] {
      NothingBefore(cs[..|cs| - 1]);
    }
  }

  /** So no schedule loses a request if every one is as long as an empty document. */
  lemma {:induction false} DocumentsAreNotLost(
    c: Config, channels: seq<Channel>, calls: seq<Call>, chunks: seq<seq<Byte>>, k: Channel, plan: RpcSlot.Plan,
    s: RpcSlot.System)
    requires Distinct(channels) && k in channels && AllEscaped(calls) && SparesRaw(channels, calls)
    requires Join(chunks) == LineOf(calls) && (CutsAllowed(chunks) || !Exposed(k.number, calls))
    requires SanePackets(c, NONE_YET, SentOn(k.number, calls))
    requires forall p :: p in SentOn(k.number, calls) ==> |p| >= 5
    requires RpcSlot.IsNew(s) && |s.workers| > 0
    ensures !RpcSlot.CanLose(plan, s, Posts(c, Free(NEW_SINK, []), Handed(channels, chunks, k)))
  {
    RequestsCanBeLostIff(c, channels, calls, chunks, k, plan, s);
    NoEmptyPost(c, SentOn(k.number, calls));
    NothingBefore(PostsOf(c, SentOn(k.number, calls)));
  }

  // ------------------------------------------------------------------------- the two loops

  method SendAll(bridge: Bridge, calls: seq<Call>)
    requires bridge.line == [] && bridge.sourceChannelNumber == -1
    modifies bridge`line, bridge`sourceChannelNumber
    ensures bridge.line == LineOf(calls) && bridge.sourceChannelNumber == Current(calls)
  {
    var i := 0;
    while i < |calls|
      invariant 0 <= i <= |calls|
      invariant bridge.line == LineOf(calls[..i]) && bridge.sourceChannelNumber == Current(calls[..i])
    {
      var _ := bridge.Source(calls[i]);
      assert calls[..i + 1][..i] == calls[..i];
      i := i + 1;
    }
    assert calls[..i] == calls;
  }

  /** One bridge sends, another receives the line cut into `chunks`. */
  method Transfer(sender: Bridge, receiver: Bridge, calls: seq<Call>, chunks: seq<seq<Byte>>)
    requires sender.line == [] && sender.sourceChannelNumber == -1
    requires GateOf(receiver) == NEW_GATE && Distinct(receiver.channels)
    requires AllEscaped(calls) && SparesRaw(receiver.channels, calls) && CutsLine(calls, chunks)
    modifies sender`line, sender`sourceChannelNumber
    modifies receiver`sinkChannel, receiver`channelPrefix, receiver`escapePrefix, receiver`delivered
    ensures sender.line == Join(chunks)
    ensures forall k :: k in receiver.channels && (CutsAllowed(chunks) || !Exposed(k.number, calls)) ==>
              AcceptAll(NEW_DEFRAMER, Delivered(receiver.delivered, k.number)).packets
                == SentOn(k.number, calls)
  {
    SendAll(sender, calls);
    Receive(receiver, chunks);
    forall k | k in receiver.channels && (CutsAllowed(chunks) || !Exposed(k.number, calls))
      ensures AcceptAll(NEW_DEFRAMER, Delivered(receiver.delivered, k.number)).packets
                == SentOn(k.number, calls)
    {
      PacketsArrive(receiver.channels, calls, chunks, k);
    }
  }

  // -------------------------------------------------------------- a cut that spoils a packet

  ghost const ONE := Channel(1, true)
  ghost const ESCAPED := Channel(0x7a, true)

  /** The second packet on channel 1 is exposed by the packet on channel 7a before it. */
  ghost const EXPOSING: seq<Call> :=
    [] + [Call(ONE, [0x41], true, false)] + [Call(ESCAPED, [0x42], true, false)] + [Call(ONE, [0x43], true, false)]

  const FIRST_READ: seq<Byte> := [0x7c, 1, 0x7a, 0x7b, 0x41, 0x7c, 0x7d]
  const SECOND_READ: seq<Byte> := [0x5a, 0x7a, 0x7b, 0x42, 0x7c, 1, 0x7a, 0x7b, 0x43]

  lemma LineNext(calls: seq<Call>, c: Call)
    ensures LineOf(calls + [c]) == LineOf(calls) + SourceBytes(Current(calls), c)
    ensures Current(calls + [c]) == c.channel.number
    ensures SentOn(1, calls + [c]) ==
            SentOn(1, calls) + if c.packetize && c.channel.number == 1 && c.data != [] then [c.data] else []
  {
    assert (calls + [c])[..|calls|] == calls;
  }

  lemma FrameOfByte(b: Byte)
    requires !NeedsEscape(b)
    ensures Frame([b]) == [SOP, EOP_PREFIX, b]
  {
    assert [b][..0] == [] && EscapeAll([]) == [];
  }

  /** These two reads are a cutting of its line. */
  lemma ExposingLine()
    ensures LineOf(EXPOSING) == FIRST_READ + SECOND_READ && SentOn(1, EXPOSING) == [[0x41], [0x43]]
  {
    var c1, c2 := Call(ONE, [0x41], true, false), Call(ESCAPED, [0x42], true, false);
    var c3 := Call(ONE, [0x43], true, false);
    FrameOfByte(0x41);
    FrameOfByte(0x42);
    FrameOfByte(0x43);
    LineNext([], c1);
    LineNext([] + [c1], c2);
    LineNext([] + [c1] + [c2], c3);
    assert LineOf([] + [c1]) == [0x7c, 1, 0x7a, 0x7b, 0x41];
    assert LineOf([] + [c1] + [c2]) == FIRST_READ + [0x5a, 0x7a, 0x7b, 0x42];
  }

  lemma RouteTo(channels: seq<Channel>, d: Demux, bs: seq<Byte>, e: Demux, b: Byte, f: Demux)
    requires RouteAll(channels, d, bs) == e && Route(channels, e, b) == f
    ensures RouteAll(channels, d, bs + [b]) == f
  {
    assert (bs + [b])[..|bs|] == bs;
  }

  /** Bytes without prefixes are held for the sink. */
  lemma RouteFrame(channels: seq<Channel>, d: Demux, bs: seq<Byte>, e: Demux, b: Byte)
    requires RouteAll(channels, d, bs) == e && !e.channelPrefix && !e.escapePrefix && !NeedsEscape(b)
    ensures RouteAll(channels, d, bs + [SOP] + [EOP_PREFIX] + [b]) == e.(held := e.held + [SOP, EOP_PREFIX, b])
  {
    RouteTo(channels, d, bs, e, SOP, e.(held := e.held + [SOP]));
    RouteTo(channels, d, bs + [SOP], e.(held := e.held + [SOP]), EOP_PREFIX, e.(held := e.held + [SOP] + [EOP_PREFIX]));
    RouteTo(channels, d, bs + [SOP] + [EOP_PREFIX], e.(held := e.held + [SOP] + [EOP_PREFIX]), b,
            e.(held := e.held + [SOP] + [EOP_PREFIX] + [b]));
    assert e.held + [SOP] + [EOP_PREFIX] + [b] == e.held + [SOP, EOP_PREFIX, b];
  }

  /** A plain channel number, in the same read as its prefix. */
  lemma RouteNumber(channels: seq<Channel>, d: Demux, bs: seq<Byte>, e: Demux, number: Byte)
    requires RouteAll(channels, d, bs) == e && !e.channelPrefix && !e.escapePrefix && !NeedsEscape(number)
    ensures RouteAll(channels, d, bs + [CHANNEL_PREFIX] + [number]) ==
            Demux(Find(channels, number), false, false, [], Deliver(e.delivered, e.sink, e.held))
  {
    var f := e.(channelPrefix := true, held := e.held + [CHANNEL_PREFIX]);
    RouteTo(channels, d, bs, e, CHANNEL_PREFIX, f);
    assert AllButLast(f.held) == e.held;
    RouteTo(channels, d, bs + [CHANNEL_PREFIX], f, number,
            Demux(Find(channels, number), false, false, [], Deliver(e.delivered, e.sink, e.held)));
  }

  lemma FirstReadServed(channels: seq<Channel>)
    requires channels == [ONE, ESCAPED]
    ensures ServeRead(channels, NEW_DEMUX, FIRST_READ) ==
            Demux(Some(ONE), true, true, [], Deliver(map[], Some(ONE), [0x7a, 0x7b, 0x41, 0x7c, 0x7d]))
  {
    RouteNumber(channels, NEW_DEMUX, [], NEW_DEMUX, 1);
    var bs := [] + [CHANNEL_PREFIX] + [1];
    var e := Demux(Some(ONE), false, false, [], map[]);
    RouteFrame(channels, NEW_DEMUX, bs, e, 0x41);
    var cs := bs + [SOP] + [EOP_PREFIX] + [0x41];
    var f := e.(held := [0x7a, 0x7b, 0x41]);
    assert e.held + [SOP, EOP_PREFIX, 0x41] == f.held;
    var g := f.(channelPrefix := true, held := f.held + [0x7c]);
    RouteTo(channels, NEW_DEMUX, cs, f, CHANNEL_PREFIX, g);
    RouteTo(channels, NEW_DEMUX, cs + [CHANNEL_PREFIX], g, ESCAPE_PREFIX,
            g.(escapePrefix := true, held := g.held + [0x7d]));
    assert cs + [CHANNEL_PREFIX] + [ESCAPE_PREFIX] == FIRST_READ;
    assert g.held + [0x7d] == [0x7a, 0x7b, 0x41, 0x7c, 0x7d];
  }

  lemma SecondReadServed(channels: seq<Channel>, d: Demux)
    requires channels == [ONE, ESCAPED] && d.sink == Some(ONE) && d.channelPrefix && d.escapePrefix && d.held == []
    ensures ServeRead(channels, d, SECOND_READ) ==
            Demux(Some(ONE), false, false, [],
                  Deliver(Deliver(d.delivered, Some(ESCAPED), [0x7a, 0x7b, 0x42]), Some(ONE), [0x7a, 0x7b, 0x43]))
  {
    var e := Demux(Some(ESCAPED), false, false, [], d.delivered);
    assert Find(channels[1..], 0x7a) == Some(ESCAPED);
    RouteTo(channels, d, [], d, 0x5a, e);
    var bs := [] + [0x5a];
    RouteFrame(channels, d, bs, e, 0x42);
    assert e.held + [SOP, EOP_PREFIX, 0x42] == [0x7a, 0x7b, 0x42];
    var cs := bs + [SOP] + [EOP_PREFIX] + [0x42];
    RouteNumber(channels, d, cs, e.(held := [0x7a, 0x7b, 0x42]), 1);
    var f := Demux(Some(ONE), false, false, [], Deliver(d.delivered, Some(ESCAPED), [0x7a, 0x7b, 0x42]));
    var ds := cs + [CHANNEL_PREFIX] + [1];
    RouteFrame(channels, d, ds, f, 0x43);
    assert f.held + [SOP, EOP_PREFIX, 0x43] == [0x7a, 0x7b, 0x43];
    assert ds + [SOP] + [EOP_PREFIX] + [0x43] == SECOND_READ;
  }

  /** The second packet on channel 1 is received as 63 instead of 43. */
  lemma EscapedNumberSpoilsPacket()
    ensures CutsLine(EXPOSING, [FIRST_READ, SECOND_READ])
    ensures var handed := Handed([ONE, ESCAPED], [FIRST_READ, SECOND_READ], ONE);
            handed == [0x7a, 0x7b, 0x41, 0x7c, 0x7d, 0x7a, 0x7b, 0x43]
            && AcceptAll(NEW_DEFRAMER, handed).packets == [[0x41], [0x63]]
  {
    var channels := [ONE, ESCAPED];
    ExposingLine();
    JoinConcat([FIRST_READ], [SECOND_READ]);
    JoinOne(FIRST_READ);
    JoinOne(SECOND_READ);
    assert [FIRST_READ, SECOND_READ] == [FIRST_READ] + [SECOND_READ];
    ServedInTwoReads(channels);
    FirstReadServed(channels);
    SecondReadServed(channels, ServeRead(channels, NEW_DEMUX, FIRST_READ));
    assert [0x7a, 0x7b, 0x41, 0x7c, 0x7d] + [0x7a, 0x7b, 0x43] == [0x7a, 0x7b, 0x41, 0x7c, 0x7d, 0x7a, 0x7b, 0x43];
    DeframesTo63();
  }

  lemma NoRawIsGentle(channels: seq<Channel>, d: Demux, bs: seq<Byte>)
    requires (forall c :: c in channels ==> c.packetized) && !IsRaw(d.sink)
    ensures GentleAll(channels, d, bs) && !IsRaw(RouteAll(channels, d, bs).sink)
  {
    if bs != [] {
      NoRawIsGentle(channels, d, AllButLast(bs));
    }
  }

  lemma ServedInTwoReads(channels: seq<Channel>)
    requires channels == [ONE, ESCAPED]
    ensures ServeAll(channels, NEW_GATE, [FIRST_READ, SECOND_READ])
         == AsGate(ServeRead(channels, ServeRead(channels, NEW_DEMUX, FIRST_READ), SECOND_READ))
  {
    var d := ServeRead(channels, NEW_DEMUX, FIRST_READ);
    NoRawIsGentle(channels, NEW_DEMUX, FIRST_READ);
    ServeIsServeRead(channels, NEW_DEMUX, FIRST_READ);
    NoRawIsGentle(channels, d, SECOND_READ);
    ServeIsServeRead(channels, d, SECOND_READ);
    ServeTwo(channels, NEW_GATE, FIRST_READ, SECOND_READ);
  }

  lemma ServeTwo(channels: seq<Channel>, g: Gate, a: seq<Byte>, b: seq<Byte>)
    ensures ServeAll(channels, g, [a, b]) == Serve(channels, Serve(channels, g, a), b)
  {
    assert [a, b][..1] == [a];
    assert [a][..0] == [] && ServeAll(channels, g, [a]) == Serve(channels, g, a);
  }

  lemma DeframesTo63()
    ensures AcceptAll(NEW_DEFRAMER, [0x7a, 0x7b, 0x41, 0x7c, 0x7d, 0x7a, 0x7b, 0x43]).packets == [[0x41], [0x63]]
  {
    FrameOfByte(0x43);
    FirstDeframes();
    SecondDeframes();
    var first: seq<Byte> := [0x7a, 0x7b, 0x41, 0x7c, 0x7d];
    AcceptAllConcat(NEW_DEFRAMER, first, Frame([0x43]));
    assert first + Frame([0x43]) == [0x7a, 0x7b, 0x41, 0x7c, 0x7d, 0x7a, 0x7b, 0x43];
  }

  lemma FirstDeframes()
    ensures AcceptAll(NEW_DEFRAMER, [0x7a, 0x7b, 0x41, 0x7c, 0x7d]) == Between(true, [[0x41]])
  {
    FrameOfByte(0x41);
    AcceptFrame(NEW_DEFRAMER, [0x41]);
    assert Tainted(false, [0x41]) == [0x41] && [] + [[0x41]] == [[0x41]];
    AcceptLeave(false, [[0x41]], true);
    AcceptAllConcat(NEW_DEFRAMER, Frame([0x41]), [CHANNEL_PREFIX] + [ESCAPE_PREFIX]);
    assert Frame([0x41]) + ([CHANNEL_PREFIX] + [ESCAPE_PREFIX]) == [0x7a, 0x7b, 0x41, 0x7c, 0x7d];
  }

  lemma SecondDeframes()
    ensures AcceptAll(Between(true, [[0x41]]), Frame([0x43])).packets == [[0x41], [0x63]]
  {
    AcceptFrame(Between(true, [[0x41]]), [0x43]);
    assert Tainted(true, [0x43]) == [0x63] && [[0x41]] + [[0x63]] == [[0x41], [0x63]];
  }
}
