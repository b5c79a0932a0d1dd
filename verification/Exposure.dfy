/** What a run of `Source` calls asks of the receiver: when an escaped channel number can spoil a
    packet, and when raw channels stand by without getting in the way. */
module Exposure {
  import opened Bytes
  import opened AvalonSt
  import opened HostBridge
  import opened SourceRun
  import opened Demux

  predicate Selects(current: int, c: Call) {
    c.channel.number != current || c.reset
  }

  /** The call leaves `k` by a channel number that needs escaping: a read may end inside it. */
  predicate LeavesEscaped(k: int, current: int, c: Call) {
    Selects(current, c) && NeedsEscape(c.channel.number) && current == k
  }

  /** Some call has left `k` like that, and no call since has sent anything on `k`. */
  predicate AtRisk(k: int, calls: seq<Call>) {
    calls != [] &&
    var n := |calls| - 1;
    var c := calls[n];
    !(c.channel.number == k && c.data != [])
    && (AtRisk(k, calls[..n]) || LeavesEscaped(k, Current(calls[..n]), c))
  }

  /** The first thing that is then sent on `k` is a packet whose first byte needs no escape. */
  predicate Exposed(k: int, calls: seq<Call>) {
    calls != [] &&
    var n := |calls| - 1;
    var c := calls[n];
    Exposed(k, calls[..n])
    || (c.channel.number == k && c.packetize && c.data != [] && !NeedsEscape(c.data[0])
        && (AtRisk(k, calls[..n]) || LeavesEscaped(k, Current(calls[..n]), c)))
  }

  predicate PlainNumbers(calls: seq<Call>) {
    forall c :: c in calls ==> !NeedsEscape(c.channel.number)
  }

  lemma {:induction false} PlainNumbersExposeNothing(k: int, calls: seq<Call>)
    requires PlainNumbers(calls)
    ensures !AtRisk(k, calls) && !Exposed(k, calls)
  {
    if calls != [] {
      PlainNumbersExposeNothing(k, calls[..|calls| - 1]);
    }
  }

  // ---------------------------------------------------------- the risk, byte by byte

  lemma RiskOne(k: int, l: Line, r: bool, b: Byte)
    ensures RiskAll(k, true, l, r, [b]) == RiskNext(k, true, l, r, b)
    ensures SafeAll(k, true, l, r, [b]) <==> !Harms(k, l, r, b)
  {
    assert AllButLast([b]) == [];
    assert SafeAll(k, true, l, r, []);
  }

  lemma RiskOfSelect(k: int, l: Line, r: bool, number: Byte)
    requires Idle(l)
    ensures RiskAll(k, true, l, r, ChannelSelect(number)) == (r || (NeedsEscape(number) && l.channel == k))
    ensures SafeAll(k, true, l, r, ChannelSelect(number))
  {
    RiskOne(k, l, r, CHANNEL_PREFIX);
    TakeOne(l, CHANNEL_PREFIX);
    var m := Take(l, CHANNEL_PREFIX);
    if NeedsEscape(number) {
      RiskOne(k, m, r, ESCAPE_PREFIX);
      TakeOne(m, ESCAPE_PREFIX);
      var q := RiskNext(k, true, m, r, ESCAPE_PREFIX);
      RiskOne(k, m.(escaped := true), q, EscapeXor(number));
      RiskConcat(k, true, m, r, [ESCAPE_PREFIX], [EscapeXor(number)]);
      assert EscapeByte(number) == [ESCAPE_PREFIX] + [EscapeXor(number)];
    } else {
      RiskOne(k, m, r, number);
    }
    RiskConcat(k, true, l, r, [CHANNEL_PREFIX], EscapeByte(number));
  }

  lemma RiskOfByte(k: int, l: Line, r: bool, b: Byte)
    requires !l.channelNext && !l.escaped
    ensures RiskAll(k, true, l, r, EscapeByte(b)) == (r && l.channel != k)
    ensures SafeAll(k, true, l, r, EscapeByte(b)) <==> !(r && l.channel == k && l.sop && !NeedsEscape(b))
  {
    if NeedsEscape(b) {
      RiskOne(k, l, r, ESCAPE_PREFIX);
      TakeOne(l, ESCAPE_PREFIX);
      RiskOne(k, l.(escaped := true), r, EscapeXor(b));
      RiskConcat(k, true, l, r, [ESCAPE_PREFIX], [EscapeXor(b)]);
      assert EscapeByte(b) == [ESCAPE_PREFIX] + [EscapeXor(b)];
    } else {
      RiskOne(k, l, r, b);
    }
  }

  /** The first byte spends the risk, whatever follows. */
  lemma {:induction false} RiskOfEscaped(k: int, l: Line, r: bool, s: seq<Byte>)
    requires !l.channelNext && !l.escaped && !l.eop
    ensures RiskAll(k, true, l, r, EscapeAll(s)) == (r && !(l.channel == k && s != []))
    ensures SafeAll(k, true, l, r, EscapeAll(s)) <==>
            s == [] || !(r && l.channel == k && l.sop && !NeedsEscape(s[0]))
  {
    if s != [] {
      var n := |s| - 1;
      RiskOfEscaped(k, l, r, s[..n]);
      TakeEscaped(l, s[..n]);
      RiskOfByte(k, TakeAll(l, EscapeAll(s[..n])), RiskAll(k, true, l, r, EscapeAll(s[..n])), s[n]);
      RiskConcat(k, true, l, r, EscapeAll(s[..n]), EscapeByte(s[n]));
    }
  }

  lemma RiskOfFrame(k: int, l: Line, r: bool, data: seq<Byte>)
    requires Idle(l)
    ensures RiskAll(k, true, l, r, Frame(data)) == (r && !(l.channel == k && data != []))
    ensures SafeAll(k, true, l, r, Frame(data)) <==>
            data == [] || !(r && l.channel == k && !NeedsEscape(data[0]))
  {
    if data != [] {
      var n := |data| - 1;
      var body := data[..n];
      var opening := [SOP] + EscapeAll(body);
      var m := l.(sop := true, inPacket := true);
      RiskOne(k, l, r, SOP);
      TakeOne(l, SOP);
      RiskOfEscaped(k, m, r, body);
      RiskConcat(k, true, l, r, [SOP], EscapeAll(body));
      TakeEscaped(m, body);
      TakeAllConcat(l, [SOP], EscapeAll(body));
      var q := RiskAll(k, true, l, r, opening);
      RiskOne(k, TakeAll(l, opening), q, EOP_PREFIX);
      RiskConcat(k, true, l, r, opening, [EOP_PREFIX]);
      TakeOpening(l, body);
      RiskOfByte(k, TakeAll(l, opening + [EOP_PREFIX]), q, data[n]);
      RiskConcat(k, true, l, r, opening + [EOP_PREFIX], EscapeByte(data[n]));
    }
  }

  lemma RiskOfCall(k: int, l: Line, r: bool, c: Call)
    requires Idle(l) && !Verbatim(c)
    ensures var q := r || LeavesEscaped(k, l.channel, c);
            var bs := SourceBytes(l.channel, c);
            && RiskAll(k, true, l, r, bs) == (q && !(c.channel.number == k && c.data != []))
            && (SafeAll(k, true, l, r, bs) <==>
                  !(q && c.channel.number == k && c.packetize && c.data != [] && !NeedsEscape(c.data[0])))
  {
    var number := c.channel.number;
    var select := if Selects(l.channel, c) then ChannelSelect(number) else [];
    if select != [] {
      RiskOfSelect(k, l, r, number);
      TakeSelect(l, number);
    } else {
      assert SafeAll(k, true, l, r, []);
    }
    var m := TakeAll(l, select);
    var q := RiskAll(k, true, l, r, select);
    if c.packetize {
      RiskOfFrame(k, m, q, c.data);
    } else {
      RiskOfEscaped(k, m, q, c.data);
    }
    RiskConcat(k, true, l, r, select, Payload(c));
  }

  /** The risk on the line is the one that the calls show. */
  lemma {:induction false} RiskOfRun(k: int, calls: seq<Call>)
    requires AllEscaped(calls)
    ensures RiskAll(k, true, START, false, LineOf(calls)) == AtRisk(k, calls)
    ensures SafeAll(k, true, START, false, LineOf(calls)) <==> !Exposed(k, calls)
  {
    if calls != [] {
      var n := |calls| - 1;
      RiskOfRun(k, calls[..n]);
      RunDecodes(calls[..n]);
      var before := LineOf(calls[..n]);
      RiskOfCall(k, TakeAll(START, before), AtRisk(k, calls[..n]), calls[n]);
      RiskConcat(k, true, START, false, before, SourceBytes(Current(calls[..n]), calls[n]));
    }
  }

  // ------------------------------------------------------------------------- raw channels

  /** No byte of `s` needs escaping. */
  predicate AllPlain(s: seq<Byte>) {
    forall b :: b in s ==> !NeedsEscape(b)
  }

  /** On registered raw channels nothing is sent but plain bytes outside packets, and they are left
      by plain channel numbers. */
  predicate SparesRaw(channels: seq<Channel>, calls: seq<Call>) {
    calls == [] ||
    var n := |calls| - 1;
    var c := calls[n];
    SparesRaw(channels, calls[..n])
    && (RawNumber(channels, c.channel.number) ==> c.data == [] || (!c.packetize && AllPlain(c.data)))
    && (RawNumber(channels, Current(calls[..n])) && Selects(Current(calls[..n]), c) ==>
          !NeedsEscape(c.channel.number))
  }

  predicate NamesNoRaw(channels: seq<Channel>, calls: seq<Call>) {
    forall c :: c in calls ==> !RawNumber(channels, c.channel.number)
  }

  /** In particular the raw channels may not be used at all. */
  lemma {:induction false} UnusedRawIsSpared(channels: seq<Channel>, calls: seq<Call>)
    requires NamesNoRaw(channels, calls)
    ensures SparesRaw(channels, calls)
  {
    if calls != [] {
      var n := |calls| - 1;
      UnusedRawIsSpared(channels, calls[..n]);
      assert n > 0 ==> calls[..n][n - 1] in calls;
    }
  }

  lemma CalmOne(channels: seq<Channel>, l: Line, b: Byte)
    requires RawNumber(channels, l.channel) ==> !l.escaped && (b == CHANNEL_PREFIX || !NeedsEscape(b))
    ensures CalmAll(channels, l, [b])
  {
    assert AllButLast([b]) == [] && CalmAll(channels, l, []);
  }

  lemma CalmSelect(channels: seq<Channel>, l: Line, number: Byte)
    requires Idle(l) && (RawNumber(channels, l.channel) ==> !NeedsEscape(number))
    ensures CalmAll(channels, l, ChannelSelect(number))
  {
    CalmOne(channels, l, CHANNEL_PREFIX);
    TakeOne(l, CHANNEL_PREFIX);
    var m := Take(l, CHANNEL_PREFIX);
    if NeedsEscape(number) {
      CalmOne(channels, m, ESCAPE_PREFIX);
      TakeOne(m, ESCAPE_PREFIX);
      CalmOne(channels, m.(escaped := true), EscapeXor(number));
      CalmConcat(channels, m, [ESCAPE_PREFIX], [EscapeXor(number)]);
      assert EscapeByte(number) == [ESCAPE_PREFIX] + [EscapeXor(number)];
    } else {
      CalmOne(channels, m, number);
    }
    CalmConcat(channels, l, [CHANNEL_PREFIX], EscapeByte(number));
  }

  /** Without channel prefixes the line stays on its channel. */
  lemma {:induction false} CalmElsewhere(channels: seq<Channel>, l: Line, bs: seq<Byte>)
    requires !l.channelNext && CHANNEL_PREFIX !in bs && !RawNumber(channels, l.channel)
    ensures CalmAll(channels, l, bs) && !TakeAll(l, bs).channelNext && TakeAll(l, bs).channel == l.channel
  {
    if bs != [] {
      CalmElsewhere(channels, l, AllButLast(bs));
    }
  }

  lemma {:induction false} CalmPlain(channels: seq<Channel>, l: Line, bs: seq<Byte>)
    requires !l.escaped && AllPlain(bs)
    ensures CalmAll(channels, l, bs) && !TakeAll(l, bs).escaped
  {
    if bs != [] {
      CalmPlain(channels, l, AllButLast(bs));
      assert bs[|bs| - 1] in bs;
    }
  }

  lemma NotInEither(b: Byte, s: seq<Byte>, t: seq<Byte>)
    ensures b !in s + t <==> b !in s && b !in t
  {
  }

  lemma {:induction false} EscapedHasNoSelect(s: seq<Byte>)
    ensures CHANNEL_PREFIX !in EscapeAll(s)
  {
    if s != [] {
      var front, last := EscapeAll(s[..|s| - 1]), EscapeByte(s[|s| - 1]);
      EscapedHasNoSelect(s[..|s| - 1]);
      assert EscapeAll(s) == front + last;
      NotInEither(CHANNEL_PREFIX, front, last);
    }
  }

  lemma {:induction false} EscapeAllOfPlain(s: seq<Byte>)
    requires AllPlain(s)
    ensures EscapeAll(s) == s
  {
    if s != [] {
      EscapeAllOfPlain(s[..|s| - 1]);
      assert s[|s| - 1] in s;
    }
  }

  lemma PayloadHasNoSelect(c: Call)
    requires !Verbatim(c)
    ensures CHANNEL_PREFIX !in Payload(c)
  {
    EscapedHasNoSelect(c.data);
    if c.data != [] {
      EscapedHasNoSelect(c.data[..|c.data| - 1]);
    }
  }

  lemma CalmCall(channels: seq<Channel>, l: Line, c: Call)
    requires Idle(l) && !Verbatim(c)
    requires RawNumber(channels, c.channel.number) ==> c.data == [] || (!c.packetize && AllPlain(c.data))
    requires RawNumber(channels, l.channel) && Selects(l.channel, c) ==> !NeedsEscape(c.channel.number)
    ensures CalmAll(channels, l, SourceBytes(l.channel, c))
  {
    var select := if Selects(l.channel, c) then ChannelSelect(c.channel.number) else [];
    if select != [] {
      CalmSelect(channels, l, c.channel.number);
      TakeSelect(l, c.channel.number);
    } else {
      assert CalmAll(channels, l, []);
    }
    var m := TakeAll(l, select);
    if RawNumber(channels, m.channel) {
      if c.data != [] {
        EscapeAllOfPlain(c.data);
      }
      CalmPlain(channels, m, Payload(c));
    } else {
      PayloadHasNoSelect(c);
      CalmElsewhere(channels, m, Payload(c));
    }
    CalmConcat(channels, l, select, Payload(c));
  }

  lemma {:induction false} CalmRun(channels: seq<Channel>, calls: seq<Call>)
    requires AllEscaped(calls) && SparesRaw(channels, calls)
    ensures CalmAll(channels, START, LineOf(calls))
  {
    if calls != [] {
      var n := |calls| - 1;
      CalmRun(channels, calls[..n]);
      RunDecodes(calls[..n]);
      CalmCall(channels, TakeAll(START, LineOf(calls[..n])), calls[n]);
      CalmConcat(channels, START, LineOf(calls[..n]), SourceBytes(Current(calls[..n]), calls[n]));
    }
  }
}
