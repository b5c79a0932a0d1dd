/** Demultiplexing refines the reference decoder: whatever reads the line arrives in, each
    packetized sink is handed bytes that deframe to the packets of its own channel. */
module Demux {
  import opened Bytes
  import opened AvalonSt
  import opened HostBridge
  import opened Options

  // --------------------------------------------------------------- a sink's deframer

  /** The framing part that every packetized sink has in common. */
  datatype Deframer = Deframer(
    escape: bool, eop: bool, inside: bool, data: seq<Byte>, packets: seq<seq<Byte>>)

  const NEW_DEFRAMER := Deframer(false, false, false, [], [])

  function Accept(g: Deframer, b: Byte): Deframer {
    if b == SOP then g.(data := [], inside := true, eop := false)
    else if b == EOP_PREFIX then g.(eop := true)
    else if b == ESCAPE_PREFIX then g.(escape := true)
    else
      var v := if g.escape then EscapeXor(b) else b;
      var h := g.(escape := false);
      if !h.inside then h
      else if !h.eop then h.(data := h.data + [v])
      else h.(data := [], eop := false, inside := false, packets := h.packets + [h.data + [v]])
  }

  function AcceptAll(g: Deframer, bs: seq<Byte>): Deframer {
    if bs == [] then g else Accept(AcceptAll(g, bs[..|bs| - 1]), bs[|bs| - 1])
  }

  lemma AcceptNext(g: Deframer, bs: seq<Byte>, b: Byte)
    ensures AcceptAll(g, bs + [b]) == Accept(AcceptAll(g, bs), b)
  {
    assert (bs + [b])[..|bs|] == bs;
  }

  /** No packet starts inside another one. */
  predicate Bracketed(g: Deframer, bs: seq<Byte>) {
    bs == [] ||
    (Bracketed(g, AllButLast(bs)) && (bs[|bs| - 1] == SOP ==> !AcceptAll(g, AllButLast(bs)).inside))
  }

  lemma BracketedNext(g: Deframer, bs: seq<Byte>, b: Byte)
    requires Bracketed(g, bs) && (b == SOP ==> !AcceptAll(g, bs).inside)
    ensures Bracketed(g, bs + [b])
  {
    assert AllButLast(bs + [b]) == bs;
  }

  lemma {:induction false} AcceptAllConcat(g: Deframer, a: seq<Byte>, b: seq<Byte>)
    ensures AcceptAll(g, a + b) == AcceptAll(AcceptAll(g, a), b)
  {
    if b == [] {
      assert a + b == a;
    } else {
      var n := |b| - 1;
      assert a + b == (a + b[..n]) + [b[n]];
      AcceptAllConcat(g, a, b[..n]);
      AcceptNext(g, a + b[..n], b[n]);
    }
  }

  lemma AcceptOne(g: Deframer, b: Byte)
    ensures AcceptAll(g, [b]) == Accept(g, b)
  {
    assert [b][..0] == [];
  }

  /** What a pending escape makes of the next escaped byte. */
  function AfterEscape(escape: bool, b: Byte): Byte {
    if escape && !NeedsEscape(b) then EscapeXor(b) else b
  }

  lemma {:induction false} AcceptByte(g: Deframer, b: Byte)
    requires g.inside
    ensures AcceptAll(g, EscapeByte(b)) ==
            var data := g.data + [AfterEscape(g.escape, b)];
            if g.eop then Deframer(false, false, false, [], g.packets + [data])
            else g.(escape := false, data := data)
  {
    if NeedsEscape(b) {
      EscapeXorInvolutive(b);
      AcceptOne(g, ESCAPE_PREFIX);
      AcceptOne(g.(escape := true), EscapeXor(b));
      AcceptAllConcat(g, [ESCAPE_PREFIX], [EscapeXor(b)]);
      assert EscapeByte(b) == [ESCAPE_PREFIX] + [EscapeXor(b)];
    } else {
      AcceptOne(g, b);
    }
  }

  /** A payload as a deframer with an escape pending reads it. */
  function Tainted(escape: bool, s: seq<Byte>): seq<Byte> {
    if s == [] then [] else [AfterEscape(escape, s[0])] + s[1..]
  }

  lemma TaintedNext(escape: bool, s: seq<Byte>)
    requires s != []
    ensures var n := |s| - 1;
            Tainted(escape, s) == Tainted(escape, s[..n]) + [AfterEscape(escape && n == 0, s[n])]
  {
  }

  lemma {:induction false} AcceptEscaped(g: Deframer, s: seq<Byte>)
    requires g.inside && !g.eop && g.data == []
    ensures AcceptAll(g, EscapeAll(s)) ==
            g.(escape := g.escape && s == [], data := Tainted(g.escape, s))
  {
    if s != [] {
      var n := |s| - 1;
      AcceptEscaped(g, s[..n]);
      var h := g.(escape := g.escape && n == 0, data := Tainted(g.escape, s[..n]));
      AcceptByte(h, s[n]);
      AcceptAllConcat(g, EscapeAll(s[..n]), EscapeByte(s[n]));
      TaintedNext(g.escape, s);
    }
  }

  /** What is left of a frame once its first byte is gone. */
  function FrameBody(payload: seq<Byte>): seq<Byte>
    requires payload != []
  {
    var n := |payload| - 1;
    EscapeAll(payload[..n]) + [EOP_PREFIX] + EscapeByte(payload[n])
  }

  lemma FrameIsSopAndBody(payload: seq<Byte>)
    requires payload != []
    ensures Frame(payload) == [SOP] + FrameBody(payload)
  {
  }

  lemma AcceptBody(g: Deframer, payload: seq<Byte>)
    requires g.inside && !g.eop && g.data == [] && payload != []
    ensures AcceptAll(g, FrameBody(payload)) ==
            Deframer(false, false, false, [], g.packets + [Tainted(g.escape, payload)])
  {
    var n := |payload| - 1;
    var body := EscapeAll(payload[..n]);
    AcceptEscaped(g, payload[..n]);
    AcceptNext(g, body, EOP_PREFIX);
    AcceptByte(Accept(AcceptAll(g, body), EOP_PREFIX), payload[n]);
    AcceptAllConcat(g, body + [EOP_PREFIX], EscapeByte(payload[n]));
    TaintedNext(g.escape, payload);
  }

  /** Resynchronisation, from any state at all: a frame adds one packet, and that packet is
      the payload unless an escape was pending, which the start of a packet does not clear. */
  lemma {:induction false} AcceptFrame(g: Deframer, payload: seq<Byte>)
    requires payload != []
    ensures AcceptAll(g, Frame(payload)) ==
            Deframer(false, false, false, [], g.packets + [Tainted(g.escape, payload)])
  {
    FrameIsSopAndBody(payload);
    AcceptOne(g, SOP);
    AcceptAllConcat(g, [SOP], FrameBody(payload));
    AcceptBody(Accept(g, SOP), payload);
  }

  /** For example the packet 7b. */
  lemma AcceptSpecial(line: seq<Byte>)
    requires line == [0x7a, 0x7b, 0x7d, 0x5b]
    ensures AcceptAll(NEW_DEFRAMER, line).packets == [[0x7b]]
  {
    EscapedForms();
    var payload: seq<Byte> := [0x7b];
    assert payload[..0] == [];
    assert Frame(payload) == line;
    AcceptFrame(NEW_DEFRAMER, payload);
    assert Tainted(false, payload) == payload && [] + [payload] == [payload];
  }

  /** Exactly when the packet survives. */
  lemma FrameRecoveredIff(g: Deframer, payload: seq<Byte>)
    requires payload != []
    ensures AcceptAll(g, Frame(payload)).packets == g.packets + [payload]
            <==> !g.escape || NeedsEscape(payload[0])
  {
    AcceptFrame(g, payload);
    var t := Tainted(g.escape, payload);
    assert (g.packets + [t])[|g.packets|] == t;
    assert t[0] == AfterEscape(g.escape, payload[0]);
    assert t == payload <==> t[0] == payload[0];
  }

  // ------------------------------------------------------- the demultiplexer, byte by byte

  /** `held` is the part of the read that no sink has been handed yet. */
  datatype Demux = Demux(
    sink: Option<Channel>, channelPrefix: bool, escapePrefix: bool, held: seq<Byte>,
    delivered: Deliveries)

  const NEW_DEMUX := Demux(None, false, false, [], map[])

  function AllButLast(s: seq<Byte>): seq<Byte> {
    if s == [] then [] else s[..|s| - 1]
  }

  function Route(channels: seq<Channel>, d: Demux, b: Byte): Demux {
    if b == CHANNEL_PREFIX then d.(channelPrefix := true, held := d.held + [b])
    else if b == ESCAPE_PREFIX then d.(escapePrefix := true, held := d.held + [b])
    else
      var v := if d.escapePrefix then EscapeXor(b) else b;
      if d.channelPrefix then
        Demux(Find(channels, v), false, false, [], Deliver(d.delivered, d.sink, AllButLast(d.held)))
      else d.(escapePrefix := false, held := d.held + [b])
  }

  function RouteAll(channels: seq<Channel>, d: Demux, bs: seq<Byte>): Demux {
    if bs == [] then d
    else Route(channels, RouteAll(channels, d, bs[..|bs| - 1]), bs[|bs| - 1])
  }

  function EndOfRead(d: Demux): Demux {
    d.(held := [], delivered := Deliver(d.delivered, d.sink, d.held))
  }

  predicate IsRaw(sink: Option<Channel>) {
    sink.Some? && !sink.value.packetized
  }

  /** A raw sink is sent nothing that its own pass over the buffer would drop or rewrite. */
  predicate Gentle(d: Demux, b: Byte) {
    IsRaw(d.sink) ==> !d.escapePrefix && (b == CHANNEL_PREFIX || !NeedsEscape(b))
  }

  predicate GentleAll(channels: seq<Channel>, d: Demux, bs: seq<Byte>) {
    bs == [] ||
    (GentleAll(channels, d, AllButLast(bs)) && Gentle(RouteAll(channels, d, AllButLast(bs)), bs[|bs| - 1]))
  }

  lemma {:induction false} GentleAt(channels: seq<Channel>, d: Demux, bs: seq<Byte>, i: nat)
    requires GentleAll(channels, d, bs) && i < |bs|
    ensures Gentle(RouteAll(channels, d, bs[..i]), bs[i])
  {
    if i < |bs| - 1 {
      GentleAt(channels, d, AllButLast(bs), i);
      assert AllButLast(bs)[..i] == bs[..i];
    }
  }

  lemma GentleWithin(channels: seq<Channel>, d: Demux, buffer: seq<Byte>, n: nat, i: nat)
    requires i < n <= |buffer| && GentleAll(channels, d, buffer[..n])
    ensures Gentle(RouteAll(channels, d, buffer[..i]), buffer[i])
  {
    GentleAt(channels, d, buffer[..n], i);
    assert buffer[..n][..i] == buffer[..i];
  }

  ghost predicate Tracks(s: Scan, d: Demux)
    requires s.Valid()
  {
    s.sink == d.sink && s.channelPrefix == d.channelPrefix && s.escapePrefix == d.escapePrefix
    && s.delivered == d.delivered && s.buffer[s.head..s.index] == d.held
  }

  lemma TracksStep(channels: seq<Channel>, s: Scan, d: Demux)
    requires s.Valid() && s.index < s.readLen && Tracks(s, d) && Gentle(d, s.buffer[s.index])
    ensures var t := ScanStep(channels, s);
            t.Valid() && t.buffer == s.buffer && t.readLen == s.readLen && t.index == s.index + 1
            && Tracks(t, Route(channels, d, s.buffer[s.index]))
  {
    assert s.buffer[s.head..s.index + 1] == d.held + [s.buffer[s.index]];
    assert s.head < s.index ==> s.buffer[s.head..s.index - 1] == AllButLast(d.held);
  }

  lemma RouteNext(channels: seq<Channel>, d: Demux, bs: seq<Byte>, i: nat)
    requires i < |bs|
    ensures RouteAll(channels, d, bs[..i + 1]) == Route(channels, RouteAll(channels, d, bs[..i]), bs[i])
  {
    assert bs[..i + 1][..i] == bs[..i];
  }

  lemma {:induction false} TracksNext(channels: seq<Channel>, s: Scan, d: Demux)
    requires s.Valid() && s.index < s.readLen && Tracks(s, RouteAll(channels, d, s.buffer[..s.index]))
    requires GentleAll(channels, d, s.buffer[..s.readLen])
    ensures var t := ScanStep(channels, s);
            t.Valid() && t.buffer == s.buffer && t.readLen == s.readLen && t.index == s.index + 1
            && Tracks(t, RouteAll(channels, d, s.buffer[..s.index + 1]))
  {
    GentleWithin(channels, d, s.buffer, s.readLen, s.index);
    TracksStep(channels, s, RouteAll(channels, d, s.buffer[..s.index]));
    RouteNext(channels, d, s.buffer, s.index);
  }

  lemma {:induction false} TracksAll(channels: seq<Channel>, s: Scan, d: Demux)
    requires s.Valid() && Tracks(s, RouteAll(channels, d, s.buffer[..s.index]))
    requires GentleAll(channels, d, s.buffer[..s.readLen])
    ensures var r := ScanAll(channels, s);
            var e := EndOfRead(RouteAll(channels, d, s.buffer[..s.readLen]));
            r.sink == e.sink && r.channelPrefix == e.channelPrefix
            && r.escapePrefix == e.escapePrefix && r.delivered == e.delivered
    decreases s.readLen - s.index
  {
    if s.index < s.readLen {
      TracksNext(channels, s, d);
      TracksAll(channels, ScanStep(channels, s), d);
    }
  }

  // ------------------------------------------------------------------------ whole reads

  /** What the bridge remembers from one read to the next, and what the sinks have been handed. */
  datatype Gate = Gate(
    sink: Option<Channel>, channelPrefix: bool, escapePrefix: bool, delivered: Deliveries)

  const NEW_GATE := Gate(None, false, false, map[])

  /** The pass over one read, in the code's own terms: raw sinks included. */
  function Serve(channels: seq<Channel>, g: Gate, read: seq<Byte>): Gate {
    var s := ScanAll(channels, Scan(read, |read|, 0, 0, g.sink, g.channelPrefix, g.escapePrefix, g.delivered));
    Gate(s.sink, s.channelPrefix, s.escapePrefix, s.delivered)
  }

  function ServeAll(channels: seq<Channel>, g: Gate, chunks: seq<seq<Byte>>): Gate {
    if chunks == [] then g
    else Serve(channels, ServeAll(channels, g, chunks[..|chunks| - 1]), chunks[|chunks| - 1])
  }

  function AsGate(d: Demux): Gate {
    Gate(d.sink, d.channelPrefix, d.escapePrefix, d.delivered)
  }

  function ServeRead(channels: seq<Channel>, d: Demux, read: seq<Byte>): Demux {
    EndOfRead(RouteAll(channels, d, read))
  }

  function ServeReads(channels: seq<Channel>, d: Demux, chunks: seq<seq<Byte>>): Demux {
    if chunks == [] then d
    else ServeRead(channels, ServeReads(channels, d, chunks[..|chunks| - 1]), chunks[|chunks| - 1])
  }

  /** The pass over the buffer with its indexes does what the byte-by-byte demultiplexer does. */
  lemma ServeIsServeRead(channels: seq<Channel>, d: Demux, read: seq<Byte>)
    requires d.held == [] && GentleAll(channels, d, read)
    ensures Serve(channels, AsGate(d), read) == AsGate(ServeRead(channels, d, read))
  {
    var s := Scan(read, |read|, 0, 0, d.sink, d.channelPrefix, d.escapePrefix, d.delivered);
    assert read[..0] == [] && read[..|read|] == read;
    TracksAll(channels, s, d);
  }

  function Join(chunks: seq<seq<Byte>>): seq<Byte> {
    if chunks == [] then [] else Join(chunks[..|chunks| - 1]) + chunks[|chunks| - 1]
  }

  // -------------------------------------------------------------- the simulation relation

  /** The bytes handed to the sink of `k`, and those it will be handed when the read ends. */
  function Owed(d: Demux, k: Channel): seq<Byte> {
    Delivered(d.delivered, k.number) + if d.sink == Some(k) then d.held else []
  }

  /** `Owed` without the prefix byte that a channel number would take back. */
  function Settled(d: Demux, k: Channel): seq<Byte> {
    Delivered(d.delivered, k.number) + if d.sink == Some(k) then AllButLast(d.held) else []
  }

  // A read that ends between the escape and the body of a channel number hands the escape to the
  // sink that the line is leaving. It waits there until the next data on that channel.

  /** Whether such an escape may be waiting at `k`'s sink after byte `b`. `free`: reads may end
      anywhere. */
  function RiskNext(k: int, free: bool, l: Line, r: bool, b: Byte): bool {
    if b == ESCAPE_PREFIX && l.channelNext && l.channel == k then r || free
    else if NeedsEscape(b) || l.channelNext || l.channel != k then r
    else false
  }

  function RiskAll(k: int, free: bool, l: Line, r: bool, bs: seq<Byte>): bool {
    if bs == [] then r
    else
      var before := AllButLast(bs);
      RiskNext(k, free, TakeAll(l, before), RiskAll(k, free, l, r, before), bs[|bs| - 1])
  }

  /** The first byte of a packet on `k`, not escaped, with such an escape possibly waiting. */
  predicate Harms(k: int, l: Line, r: bool, b: Byte) {
    r && !NeedsEscape(b) && !l.channelNext && l.channel == k && l.sop && !l.escaped
  }

  predicate SafeAll(k: int, free: bool, l: Line, r: bool, bs: seq<Byte>) {
    bs == [] ||
    var before := AllButLast(bs);
    SafeAll(k, free, l, r, before)
    && !Harms(k, TakeAll(l, before), RiskAll(k, free, l, r, before), bs[|bs| - 1])
  }

  lemma {:induction false} RiskConcat(k: int, free: bool, l: Line, r: bool, a: seq<Byte>, b: seq<Byte>)
    ensures RiskAll(k, free, l, r, a + b) == RiskAll(k, free, TakeAll(l, a), RiskAll(k, free, l, r, a), b)
    ensures SafeAll(k, free, l, r, a + b) <==>
            SafeAll(k, free, l, r, a) && SafeAll(k, free, TakeAll(l, a), RiskAll(k, free, l, r, a), b)
  {
    if b == [] {
      assert a + b == a;
    } else {
      var n := |b| - 1;
      assert AllButLast(a + b) == a + b[..n];
      RiskConcat(k, free, l, r, a, b[..n]);
      TakeAllConcat(l, a, b[..n]);
    }
  }

  /** If no read ends inside an escaped channel number there is no risk. */
  lemma {:induction false} NoRisk(k: int, l: Line, bs: seq<Byte>)
    ensures !RiskAll(k, false, l, false, bs) && SafeAll(k, false, l, false, bs)
  {
    if bs != [] {
      NoRisk(k, l, AllButLast(bs));
    }
  }

  predicate AtRest(g: Deframer, a: Assembly, r: bool) {
    !g.inside && (g.escape ==> r) && g.packets == a.packets && !a.open
  }

  /** The deframer of the channel that the line stands on. */
  ghost predicate Matches(l: Line, g: Deframer, a: Assembly, r: bool) {
    && g.inside == l.inPacket && g.packets == a.packets
    && (l.escaped ==> g.escape) && (g.escape ==> l.escaped || r)
    && (g.inside ==> g.eop == l.eop && (if l.sop then g.data == [] && !a.open else a.open && g.data == a.data))
    && (!g.inside ==> !a.open)
    && (r && g.inside ==> l.sop)
  }

  /** What the deframer of `k` knows, set against the reference decoder `l`. */
  ghost predicate Agrees(l: Line, d: Demux, k: Channel, r: bool, free: bool) {
    var a := Assemble(k.number, l.beats);
    var g := AcceptAll(NEW_DEFRAMER, Owed(d, k));
    if l.channelNext then
      AtRest(AcceptAll(NEW_DEFRAMER, Settled(d, k)), a, r) && (!l.escaped || free ==> AtRest(g, a, r))
    else if l.channel != k.number then AtRest(g, a, r)
    else Matches(l, g, a, r)
  }

  /** Demultiplexer and decoder are in the same place. */
  ghost predicate Linked(channels: seq<Channel>, l: Line, d: Demux) {
    && d.channelPrefix == l.channelNext && d.escapePrefix == l.escaped
    && d.sink == (if 0 <= l.channel < 256 then Find(channels, l.channel) else None)
    && (l.channelNext ==> !l.inPacket)
    && (!l.inPacket ==> !l.eop && !l.sop)
  }

  lemma SinkIs(channels: seq<Channel>, l: Line, d: Demux, k: Channel)
    requires Distinct(channels) && k in channels && Linked(channels, l, d)
    ensures d.sink == Some(k) <==> l.channel == k.number
    ensures d.sink.Some? && d.sink != Some(k) ==> d.sink.value.number != k.number
  {
    assert Find(channels, k.number) == Some(k);
  }

  lemma OwedNext(channels: seq<Channel>, d: Demux, k: Channel, b: Byte, e: Demux)
    requires e.held == d.held + [b] && e.sink == d.sink && e.delivered == d.delivered
    ensures Settled(e, k) == Owed(d, k)
    ensures Owed(e, k) == if d.sink == Some(k) then Owed(d, k) + [b] else Owed(d, k)
    ensures AcceptAll(NEW_DEFRAMER, Owed(e, k)) ==
            if d.sink == Some(k) then Accept(AcceptAll(NEW_DEFRAMER, Owed(d, k)), b)
            else AcceptAll(NEW_DEFRAMER, Owed(d, k))
  {
    if d.sink == Some(k) {
      assert Owed(e, k) == Owed(d, k) + [b];
      AcceptNext(NEW_DEFRAMER, Owed(d, k), b);
    }
  }

  lemma AgreesSpecial(channels: seq<Channel>, l: Line, d: Demux, b: Byte, k: Channel, r: bool, free: bool)
    requires Linked(channels, l, d) && Agrees(l, d, k, r, free) && Legal(l, b) && NeedsEscape(b)
    requires d.sink == Some(k) <==> l.channel == k.number
    ensures Agrees(Take(l, b), Route(channels, d, b), k, RiskNext(k.number, free, l, r, b), free)
  {
    OwedNext(channels, d, k, b, Route(channels, d, b));
  }

  lemma OwedAfterNumber(channels: seq<Channel>, d: Demux, b: Byte, k: Channel)
    requires d.channelPrefix && !NeedsEscape(b)
    requires d.sink.Some? && d.sink != Some(k) ==> d.sink.value.number != k.number
    ensures Owed(Route(channels, d, b), k) == Settled(d, k)
  {
  }

  lemma AgreesNumber(channels: seq<Channel>, l: Line, d: Demux, b: Byte, k: Channel, r: bool, free: bool)
    requires Linked(channels, l, d) && Agrees(l, d, k, r, free) && l.channelNext && !NeedsEscape(b)
    requires d.sink.Some? && d.sink != Some(k) ==> d.sink.value.number != k.number
    ensures Agrees(Take(l, b), Route(channels, d, b), k, r, free)
  {
    OwedAfterNumber(channels, d, b, k);
  }

  lemma AssembleNext(k: int, beats: seq<Beat>, beat: Beat)
    ensures var a := Assemble(k, beats);
            Assemble(k, beats + [beat]) ==
            if beat.channel != k || !(a.open || beat.sop) then a
            else
              var data := (if beat.sop then [] else a.data) + [beat.data];
              if beat.eop then Assembly(false, [], a.packets + [data]) else Assembly(true, data, a.packets)
  {
    assert (beats + [beat])[..|beats|] == beats;
  }

  lemma AgreesElsewhere(channels: seq<Channel>, l: Line, d: Demux, b: Byte, k: Channel, r: bool, free: bool)
    requires Linked(channels, l, d) && Agrees(l, d, k, r, free) && !l.channelNext && !NeedsEscape(b)
    requires l.channel != k.number && d.sink != Some(k)
    ensures Agrees(Take(l, b), Route(channels, d, b), k, r, free)
  {
    OwedNext(channels, d, k, b, Route(channels, d, b));
    AssembleNext(k.number, l.beats, Beat(l.channel, if l.escaped then EscapeXor(b) else b, l.sop, l.eop));
  }

  lemma AgreesHere(channels: seq<Channel>, l: Line, d: Demux, b: Byte, k: Channel, r: bool, free: bool)
    requires d.channelPrefix == l.channelNext && d.escapePrefix == l.escaped
    requires !l.inPacket ==> !l.eop && !l.sop
    requires Agrees(l, d, k, r, free) && !l.channelNext && !NeedsEscape(b)
    requires l.channel == k.number && d.sink == Some(k) && !Harms(k.number, l, r, b)
    ensures Agrees(Take(l, b), Route(channels, d, b), k, false, free)
  {
    var e := Route(channels, d, b);
    var g := AcceptAll(NEW_DEFRAMER, Owed(d, k));
    OwedNext(channels, d, k, b, e);
    MatchesData(l, g, k.number, b, r);
    assert AcceptAll(NEW_DEFRAMER, Owed(e, k)) == Accept(g, b);
  }

  lemma MatchesData(l: Line, g: Deframer, k: int, b: Byte, r: bool)
    requires Matches(l, g, Assemble(k, l.beats), r) && !l.channelNext && !NeedsEscape(b) && l.channel == k
    requires (!l.inPacket ==> !l.eop && !l.sop) && !Harms(k, l, r, b)
    ensures Matches(Take(l, b), Accept(g, b), Assemble(k, Take(l, b).beats), false)
  {
    AssembleNext(k, l.beats, Beat(l.channel, if l.escaped then EscapeXor(b) else b, l.sop, l.eop));
  }

  lemma AgreesStep(channels: seq<Channel>, l: Line, d: Demux, b: Byte, k: Channel, r: bool, free: bool)
    requires Distinct(channels) && k in channels && Linked(channels, l, d)
    requires Agrees(l, d, k, r, free) && Legal(l, b) && !Harms(k.number, l, r, b)
    ensures Agrees(Take(l, b), Route(channels, d, b), k, RiskNext(k.number, free, l, r, b), free)
  {
    SinkIs(channels, l, d, k);
    if NeedsEscape(b) {
      AgreesSpecial(channels, l, d, b, k, r, free);
    } else if l.channelNext {
      AgreesNumber(channels, l, d, b, k, r, free);
    } else if l.channel == k.number {
      AgreesHere(channels, l, d, b, k, r, free);
    } else {
      AgreesElsewhere(channels, l, d, b, k, r, free);
    }
  }

  lemma SettledIsFront(d: Demux, k: Channel)
    ensures Settled(d, k) == Owed(d, k) || (Owed(d, k) != [] && Settled(d, k) == AllButLast(Owed(d, k)))
  {
  }

  /** No packet starts inside another one at the sink of a channel that has caught up. */
  lemma BracketedStep(channels: seq<Channel>, l: Line, d: Demux, b: Byte, k: Channel, r: bool, free: bool)
    requires Distinct(channels) && k in channels && Linked(channels, l, d)
    requires Agrees(l, d, k, r, free) && Legal(l, b) && Bracketed(NEW_DEFRAMER, Owed(d, k))
    ensures Bracketed(NEW_DEFRAMER, Owed(Route(channels, d, b), k))
  {
    SinkIs(channels, l, d, k);
    var e := Route(channels, d, b);
    if l.channelNext && !NeedsEscape(b) {
      OwedAfterNumber(channels, d, b, k);
      SettledIsFront(d, k);
    } else {
      OwedNext(channels, d, k, b, e);
      if d.sink == Some(k) {
        BracketedNext(NEW_DEFRAMER, Owed(d, k), b);
      }
    }
  }

  lemma LinkedStep(channels: seq<Channel>, l: Line, d: Demux, b: Byte)
    requires Linked(channels, l, d) && Legal(l, b)
    ensures Linked(channels, Take(l, b), Route(channels, d, b))
  {
  }

  /** Demultiplexer and decoder in the same place, and the sink of `k` where it should be. */
  ghost predicate Simulates(channels: seq<Channel>, l: Line, d: Demux, k: Channel, r: bool, free: bool) {
    Linked(channels, l, d) && Agrees(l, d, k, r, free) && Bracketed(NEW_DEFRAMER, Owed(d, k))
  }

  lemma {:induction false} SimulatesAll(channels: seq<Channel>, l: Line, d: Demux, k: Channel, r: bool,
                                        free: bool, bs: seq<Byte>)
    requires Distinct(channels) && k in channels && Simulates(channels, l, d, k, r, free)
    requires LegalAll(l, bs) && SafeAll(k.number, free, l, r, bs)
    ensures Simulates(channels, TakeAll(l, bs), RouteAll(channels, d, bs), k,
                      RiskAll(k.number, free, l, r, bs), free)
  {
    if bs != [] {
      var before, b := AllButLast(bs), bs[|bs| - 1];
      SimulatesAll(channels, l, d, k, r, free, before);
      var m, e, q := TakeAll(l, before), RouteAll(channels, d, before), RiskAll(k.number, free, l, r, before);
      LinkedStep(channels, m, e, b);
      AgreesStep(channels, m, e, b, k, q, free);
      BracketedStep(channels, m, e, b, k, q, free);
    }
  }

  /** A read may end anywhere but between the escape and the body of a channel number. */
  predicate MayEndRead(l: Line) {
    !(l.channelNext && l.escaped)
  }

  lemma SimulatesEndOfRead(channels: seq<Channel>, l: Line, d: Demux, k: Channel, r: bool, free: bool)
    requires Distinct(channels) && k in channels
    requires Simulates(channels, l, d, k, r, free) && (free || MayEndRead(l))
    ensures Simulates(channels, l, EndOfRead(d), k, r, free)
  {
    SinkIs(channels, l, d, k);
    OwedAtEnd(d, k);
  }

  lemma OwedAtEnd(d: Demux, k: Channel)
    requires d.sink.Some? && d.sink != Some(k) ==> d.sink.value.number != k.number
    ensures Owed(EndOfRead(d), k) == Owed(d, k) == Settled(EndOfRead(d), k)
  {
  }

  predicate CutsAllowed(chunks: seq<seq<Byte>>) {
    chunks == [] || (CutsAllowed(chunks[..|chunks| - 1]) && MayEndRead(TakeAll(START, Join(chunks))))
  }

  lemma {:induction false} ServeReadsSimulates(channels: seq<Channel>, chunks: seq<seq<Byte>>, k: Channel, free: bool)
    requires Distinct(channels) && k in channels && LegalAll(START, Join(chunks))
    requires (free || CutsAllowed(chunks)) && SafeAll(k.number, free, START, false, Join(chunks))
    ensures var d := ServeReads(channels, NEW_DEMUX, chunks);
            d.held == [] && Simulates(channels, TakeAll(START, Join(chunks)), d, k,
                                      RiskAll(k.number, free, START, false, Join(chunks)), free)
  {
    if chunks != [] {
      var n := |chunks| - 1;
      var before := Join(chunks[..n]);
      TakeAllConcat(START, before, chunks[n]);
      RiskConcat(k.number, free, START, false, before, chunks[n]);
      ServeReadsSimulates(channels, chunks[..n], k, free);
      var l, d := TakeAll(START, before), ServeReads(channels, NEW_DEMUX, chunks[..n]);
      var r := RiskAll(k.number, free, START, false, before);
      SimulatesAll(channels, l, d, k, r, free, chunks[n]);
      SimulatesEndOfRead(channels, TakeAll(l, chunks[n]), RouteAll(channels, d, chunks[n]), k,
                         RiskAll(k.number, free, l, r, chunks[n]), free);
    }
  }

  // ------------------------------------------------------------------- beside raw channels

  predicate RawNumber(channels: seq<Channel>, n: int) {
    0 <= n < 256 && IsRaw(Find(channels, n))
  }

  /** While the line stands on a raw channel, nothing but plain bytes and channel prefixes. */
  predicate CalmAll(channels: seq<Channel>, l: Line, bs: seq<Byte>) {
    bs == [] ||
    var before, b := AllButLast(bs), bs[|bs| - 1];
    CalmAll(channels, l, before)
    && (RawNumber(channels, TakeAll(l, before).channel) ==>
          !TakeAll(l, before).escaped && (b == CHANNEL_PREFIX || !NeedsEscape(b)))
  }

  lemma {:induction false} CalmConcat(channels: seq<Channel>, l: Line, a: seq<Byte>, b: seq<Byte>)
    ensures CalmAll(channels, l, a + b) <==> CalmAll(channels, l, a) && CalmAll(channels, TakeAll(l, a), b)
  {
    if b == [] {
      assert a + b == a;
    } else {
      var n := |b| - 1;
      assert AllButLast(a + b) == a + b[..n];
      CalmConcat(channels, l, a, b[..n]);
      TakeAllConcat(l, a, b[..n]);
    }
  }

  lemma {:induction false} CalmIsGentle(channels: seq<Channel>, l: Line, d: Demux, bs: seq<Byte>)
    requires Linked(channels, l, d) && LegalAll(l, bs) && CalmAll(channels, l, bs)
    ensures GentleAll(channels, d, bs) && Linked(channels, TakeAll(l, bs), RouteAll(channels, d, bs))
  {
    if bs != [] {
      var before := AllButLast(bs);
      CalmIsGentle(channels, l, d, before);
      LinkedStep(channels, TakeAll(l, before), RouteAll(channels, d, before), bs[|bs| - 1]);
    }
  }

  /** On a line that is calm while it stands on raw channels, the code does what the byte-by-byte
      demultiplexer does, whatever the cutting. */
  lemma {:induction false} ServeAllIsServeReads(channels: seq<Channel>, chunks: seq<seq<Byte>>)
    requires LegalAll(START, Join(chunks)) && CalmAll(channels, START, Join(chunks))
    ensures var d := ServeReads(channels, NEW_DEMUX, chunks);
            ServeAll(channels, NEW_GATE, chunks) == AsGate(d) && d.held == []
            && Linked(channels, TakeAll(START, Join(chunks)), d)
  {
    if chunks != [] {
      var n := |chunks| - 1;
      var before := Join(chunks[..n]);
      TakeAllConcat(START, before, chunks[n]);
      CalmConcat(channels, START, before, chunks[n]);
      ServeAllIsServeReads(channels, chunks[..n]);
      var d := ServeReads(channels, NEW_DEMUX, chunks[..n]);
      CalmIsGentle(channels, TakeAll(START, before), d, chunks[n]);
      ServeIsServeRead(channels, d, chunks[n]);
    }
  }

  /** For every legal line that is calm on raw channels, and every way of cutting it into reads: if
      no read ends inside an escaped channel number, or none could do harm, the sink of each
      registered channel has been handed bytes that deframe to exactly the packets that the
      reference decoder finds on that channel. */
  lemma {:induction false} DemuxRefinesDecoder(channels: seq<Channel>, chunks: seq<seq<Byte>>, k: Channel)
    requires Distinct(channels) && k in channels
    requires LegalAll(START, Join(chunks)) && CalmAll(channels, START, Join(chunks))
    requires CutsAllowed(chunks) || SafeAll(k.number, true, START, false, Join(chunks))
    ensures var handed := Delivered(ServeAll(channels, NEW_GATE, chunks).delivered, k.number);
            AcceptAll(NEW_DEFRAMER, handed).packets
              == Assemble(k.number, TakeAll(START, Join(chunks)).beats).packets
            && Bracketed(NEW_DEFRAMER, handed)
            && (!TakeAll(START, Join(chunks)).inPacket ==> !AcceptAll(NEW_DEFRAMER, handed).inside)
  {
    ServeAllIsServeReads(channels, chunks);
    var free := !CutsAllowed(chunks);
    NoRisk(k.number, START, Join(chunks));
    ServeReadsSimulates(channels, chunks, k, free);
    var d := ServeReads(channels, NEW_DEMUX, chunks);
    assert Owed(d, k) == Delivered(d.delivered, k.number);
    if !free && chunks != [] {
      assert MayEndRead(TakeAll(START, Join(chunks)));
    }
  }

  // ------------------------------------------------------------------- the receiver thread

  ghost function GateOf(bridge: Bridge): Gate
    reads bridge
  {
    Gate(bridge.sinkChannel, bridge.channelPrefix, bridge.escapePrefix, bridge.delivered)
  }

  /** The receiver's loop over the reads of one run, whatever the channels. */
  method Receive(bridge: Bridge, chunks: seq<seq<Byte>>)
    requires forall c :: c in chunks ==> |c| <= READ_BUFFER_LEN
    modifies bridge`sinkChannel, bridge`channelPrefix, bridge`escapePrefix, bridge`delivered
    ensures GateOf(bridge) == ServeAll(bridge.channels, old(GateOf(bridge)), chunks)
  {
    var i := 0;
    while i < |chunks|
      invariant 0 <= i <= |chunks|
      invariant GateOf(bridge) == ServeAll(bridge.channels, old(GateOf(bridge)), chunks[..i])
    {
      assert chunks[..i + 1][..i] == chunks[..i];
      bridge.Service(chunks[i]);
      i := i + 1;
    }
    assert chunks[..i] == chunks;
  }
}
