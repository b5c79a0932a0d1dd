/** Runs of `Source`: what a receiver of the whole line can recover. */
module SourceRun {
  import opened Bytes
  import opened AvalonSt
  import opened HostBridge

  /** The channel the line stands on after `calls`. */
  function Current(calls: seq<Call>): int {
    if calls == [] then -1 else calls[|calls| - 1].channel.number
  }

  /** Everything a run of `Source` calls puts on the line. */
  function LineOf(calls: seq<Call>): seq<Byte> {
    if calls == [] then []
    else
      var n := |calls| - 1;
      LineOf(calls[..n]) + SourceBytes(Current(calls[..n]), calls[n])
  }

  predicate AllEscaped(calls: seq<Call>) {
    forall c :: c in calls ==> !Verbatim(c)
  }

  function BeatsOf(calls: seq<Call>): seq<Beat> {
    if calls == [] then []
    else
      var c := calls[|calls| - 1];
      BeatsOf(calls[..|calls| - 1]) + Beats(c.channel.number, c.data, c.packetize)
  }

  lemma TakeSelect(l: Line, number: Byte)
    requires Idle(l)
    ensures LegalAll(l, ChannelSelect(number))
    ensures TakeAll(l, ChannelSelect(number)) == l.(channel := number)
  {
    TakeOne(l, CHANNEL_PREFIX);
    var m := Take(l, CHANNEL_PREFIX);
    if NeedsEscape(number) {
      EscapeXorInvolutive(number);
      TakeOne(m, ESCAPE_PREFIX);
      TakeOne(m.(escaped := true), EscapeXor(number));
      TakeAllConcat(m, [ESCAPE_PREFIX], [EscapeXor(number)]);
      assert EscapeByte(number) == [ESCAPE_PREFIX] + [EscapeXor(number)];
    } else {
      TakeOne(m, number);
    }
    TakeAllConcat(l, [CHANNEL_PREFIX], EscapeByte(number));
  }

  lemma TakePayload(l: Line, c: Call)
    requires Idle(l) && !Verbatim(c)
    ensures LegalAll(l, Payload(c))
    ensures TakeAll(l, Payload(c)) == l.(beats := l.beats + Beats(l.channel, c.data, c.packetize))
  {
    if c.packetize {
      TakeFrame(l, c.data);
    } else {
      TakeEscaped(l, c.data);
      BeatsSplit(l.channel, c.data, false);
    }
  }

  /** The prefix may be left out exactly because the decoder already stands on the channel. */
  lemma TakeCall(l: Line, c: Call)
    requires Idle(l) && !Verbatim(c)
    ensures LegalAll(l, SourceBytes(l.channel, c))
    ensures TakeAll(l, SourceBytes(l.channel, c)) ==
            l.(channel := c.channel.number,
               beats := l.beats + Beats(c.channel.number, c.data, c.packetize))
  {
    var select := if c.channel.number != l.channel || c.reset then ChannelSelect(c.channel.number) else [];
    if select != [] {
      TakeSelect(l, c.channel.number);
    }
    var m := TakeAll(l, select);
    TakePayload(m, c);
    TakeAllConcat(l, select, Payload(c));
  }

  /** Over any run, a decoder of the whole line is idle between calls, stands on the channel
      the encoder believes it stands on, and has put out every call's bytes, bracketed into
      packets where the call asked for it. */
  lemma {:induction false} RunDecodes(calls: seq<Call>)
    requires AllEscaped(calls)
    ensures LegalAll(START, LineOf(calls))
    ensures TakeAll(START, LineOf(calls)) ==
            START.(channel := Current(calls), beats := BeatsOf(calls))
  {
    if calls != [] {
      var n := |calls| - 1;
      RunDecodes(calls[..n]);
      TakeCall(TakeAll(START, LineOf(calls[..n])), calls[n]);
      TakeAllConcat(START, LineOf(calls[..n]), SourceBytes(Current(calls[..n]), calls[n]));
    }
  }

  // ------------------------------------------------------------------ packets per channel

  /** The packets that `calls` send on channel `k`. */
  function SentOn(k: int, calls: seq<Call>): seq<seq<Byte>> {
    if calls == [] then []
    else
      var c := calls[|calls| - 1];
      SentOn(k, calls[..|calls| - 1])
      + if c.packetize && c.channel.number == k && c.data != [] then [c.data] else []
  }

  lemma {:induction false} AssembleCall(k: int, before: seq<Beat>, number: Byte, data: seq<Byte>, packet: bool, i: nat)
    requires i <= |data|
    requires var a := Assemble(k, before); !a.open && a.data == []
    ensures var was := Assemble(k, before).packets;
            Assemble(k, before + Beats(number, data, packet)[..i]) ==
            if number != k || !packet || i == 0 then Assembly(false, [], was)
            else if i < |data| then Assembly(true, data[..i], was)
            else Assembly(false, [], was + [data])
  {
    var b := Beats(number, data, packet);
    if i == 0 {
      assert before + b[..0] == before;
    } else {
      AssembleCall(k, before, number, data, packet, i - 1);
      var bs := before + b[..i];
      assert bs[..|bs| - 1] == before + b[..i - 1];
      assert data[..i] == data[..i - 1] + [data[i - 1]];
      assert data[..|data|] == data;
    }
  }

  /** The beats of a run assemble to exactly the packets sent, channel by channel. */
  lemma {:induction false} RunAssembles(k: int, calls: seq<Call>)
    ensures Assemble(k, BeatsOf(calls)) == Assembly(false, [], SentOn(k, calls))
  {
    if calls != [] {
      var n := |calls| - 1;
      var c := calls[n];
      RunAssembles(k, calls[..n]);
      AssembleCall(k, BeatsOf(calls[..n]), c.channel.number, c.data, c.packetize, |c.data|);
      var b := Beats(c.channel.number, c.data, c.packetize);
      assert b[..|c.data|] == b;
    }
  }
}
