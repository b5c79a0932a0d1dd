/** The Avalon-ST packets-to-bytes line format: the special bytes, the escaping of a
    payload, and a reference decoder that reads a line byte by byte. */
module AvalonSt {
  import opened Bytes

  const SOP: Byte := 0x7a
  const EOP_PREFIX: Byte := 0x7b
  const CHANNEL_PREFIX: Byte := 0x7c
  const ESCAPE_PREFIX: Byte := 0x7d

  predicate NeedsEscape(b: Byte) {
    SOP <= b <= ESCAPE_PREFIX
  }

  /** The exclusive or of `b` with 0x20, as arithmetic on its bit 5. */
  function EscapeXor(b: Byte): (r: Byte)
    ensures r != b
    ensures NeedsEscape(b) ==> !NeedsEscape(r)
  {
    if b % 64 < 32 then b + 32 else b - 32
  }

  /** Bit 5 is flipped, and no other bit. */
  lemma EscapeXorFlipsBit5(b: Byte)
    ensures var r := EscapeXor(b);
            r % 32 == b % 32 && r / 64 == b / 64 && (r / 32 % 2 == 1 <==> b / 32 % 2 == 0)
  {
  }

  /** So these are the forms that the four special bytes take on the line. */
  lemma EscapedForms()
    ensures EscapeByte(0x7a) == [0x7d, 0x5a] && EscapeByte(0x7b) == [0x7d, 0x5b]
    ensures EscapeByte(0x7c) == [0x7d, 0x5c] && EscapeByte(0x7d) == [0x7d, 0x5d]
    ensures forall b: Byte :: !(0x7a <= b <= 0x7d) ==> EscapeByte(b) == [b]
  {
  }

  /** For example a packet of all four. */
  lemma {:induction false} EscapedFrame(payload: seq<Byte>)
    requires payload == [0x7a, 0x7b, 0x7c, 0x7d]
    ensures Frame(payload) == [0x7a, 0x7d, 0x5a, 0x7d, 0x5b, 0x7d, 0x5c, 0x7b, 0x7d, 0x5d]
  {
    EscapedForms();
    assert payload[..3][..2] == payload[..2] && payload[..2][..1] == payload[..1] && payload[..1][..0] == [];
    assert EscapeAll(payload[..1]) == [0x7d, 0x5a];
    assert EscapeAll(payload[..2]) == [0x7d, 0x5a, 0x7d, 0x5b];
    assert EscapeAll(payload[..3]) == [0x7d, 0x5a, 0x7d, 0x5b, 0x7d, 0x5c];
  }

  lemma EscapeXorInvolutive(b: Byte)
    ensures EscapeXor(EscapeXor(b)) == b
  {
  }

  function EscapeByte(b: Byte): seq<Byte> {
    if NeedsEscape(b) then [ESCAPE_PREFIX, EscapeXor(b)] else [b]
  }

  function EscapeAll(s: seq<Byte>): seq<Byte> {
    if s == [] then [] else EscapeAll(s[..|s| - 1]) + EscapeByte(s[|s| - 1])
  }

  /** One packet on the line; an empty payload puts nothing on the line. */
  function Frame(payload: seq<Byte>): seq<Byte> {
    if payload == [] then []
    else
      var n := |payload| - 1;
      [SOP] + EscapeAll(payload[..n]) + [EOP_PREFIX] + EscapeByte(payload[n])
  }

  // ---------------------------------------------------------------- reference decoder

  /** One transfer of the packet-side stream interface. */
  datatype Beat = Beat(channel: int, data: Byte, sop: bool, eop: bool)

  /** The decoder's registers and every beat it has put out. `channel` is -1 until the line
      has named one. */
  datatype Line = Line(
    channel: int, channelNext: bool, escaped: bool, sop: bool, eop: bool, inPacket: bool,
    beats: seq<Beat>)

  const START := Line(-1, false, false, false, false, false, [])

  predicate Idle(l: Line) {
    !l.channelNext && !l.escaped && !l.sop && !l.eop && !l.inPacket
  }

  function Take(l: Line, b: Byte): Line {
    if b == SOP then l.(sop := true, inPacket := true)
    else if b == EOP_PREFIX then l.(eop := true)
    else if b == CHANNEL_PREFIX then l.(channelNext := true)
    else if b == ESCAPE_PREFIX then l.(escaped := true)
    else
      var v := if l.escaped then EscapeXor(b) else b;
      if l.channelNext then l.(channel := v, channelNext := false, escaped := false)
      else l.(escaped := false, sop := false, eop := false, inPacket := l.inPacket && !l.eop,
              beats := l.beats + [Beat(l.channel, v, l.sop, l.eop)])
  }

  function TakeAll(l: Line, bs: seq<Byte>): Line {
    if bs == [] then l else Take(TakeAll(l, bs[..|bs| - 1]), bs[|bs| - 1])
  }

  /** What the format lets a sender put next: nothing special inside an escape or a channel
      number, packets are not nested, and the channel changes only between packets. */
  predicate Legal(l: Line, b: Byte) {
    if b == SOP then !l.escaped && !l.channelNext && !l.inPacket
    else if b == EOP_PREFIX then !l.escaped && !l.channelNext && l.inPacket && !l.eop
    else if b == CHANNEL_PREFIX then !l.escaped && !l.channelNext && !l.inPacket
    else if b == ESCAPE_PREFIX then !l.escaped
    else true
  }

  predicate LegalAll(l: Line, bs: seq<Byte>) {
    bs == [] ||
    (LegalAll(l, bs[..|bs| - 1]) && Legal(TakeAll(l, bs[..|bs| - 1]), bs[|bs| - 1]))
  }

  lemma TakeOne(l: Line, b: Byte)
    ensures TakeAll(l, [b]) == Take(l, b)
    ensures LegalAll(l, [b]) <==> Legal(l, b)
  {
    assert [b][..0] == [];
    assert LegalAll(l, []);
  }

  lemma {:induction false} TakeAllConcat(l: Line, a: seq<Byte>, b: seq<Byte>)
    ensures TakeAll(l, a + b) == TakeAll(TakeAll(l, a), b)
    ensures LegalAll(l, a + b) <==> LegalAll(l, a) && LegalAll(TakeAll(l, a), b)
  {
    if b == [] {
      assert a + b == a;
    } else {
      var n := |b| - 1;
      assert (a + b)[..|a + b| - 1] == a + b[..n];
      TakeAllConcat(l, a, b[..n]);
    }
  }

  // ------------------------------------------------- what a frame means to the decoder

  function Beats(channel: int, s: seq<Byte>, packet: bool): seq<Beat> {
    seq(|s|, i requires 0 <= i < |s| =>
      Beat(channel, s[i], packet && i == 0, packet && i == |s| - 1))
  }

  lemma {:induction false} TakeByte(l: Line, b: Byte)
    requires !l.channelNext && !l.escaped
    ensures LegalAll(l, EscapeByte(b))
    ensures TakeAll(l, EscapeByte(b)) ==
            l.(sop := false, eop := false, inPacket := l.inPacket && !l.eop,
               beats := l.beats + [Beat(l.channel, b, l.sop, l.eop)])
  {
    if NeedsEscape(b) {
      EscapeXorInvolutive(b);
      TakeOne(l, ESCAPE_PREFIX);
      TakeOne(l.(escaped := true), EscapeXor(b));
      TakeAllConcat(l, [ESCAPE_PREFIX], [EscapeXor(b)]);
      assert EscapeByte(b) == [ESCAPE_PREFIX] + [EscapeXor(b)];
    } else {
      TakeOne(l, b);
    }
  }

  /** The beats of bytes that are not the last of a packet; `sop` belongs to the first one. */
  function Leading(channel: int, s: seq<Byte>, sop: bool): seq<Beat> {
    if s == [] then []
    else
      var n := |s| - 1;
      Leading(channel, s[..n], sop) + [Beat(channel, s[n], sop && n == 0, false)]
  }

  lemma {:induction false} LeadingAt(channel: int, s: seq<Byte>, sop: bool)
    ensures |Leading(channel, s, sop)| == |s|
    ensures forall i :: 0 <= i < |s| ==> Leading(channel, s, sop)[i] == Beat(channel, s[i], sop && i == 0, false)
  {
    if s != [] {
      LeadingAt(channel, s[..|s| - 1], sop);
    }
  }

  lemma BeatsSplit(channel: int, s: seq<Byte>, packet: bool)
    ensures s == [] ==> Beats(channel, s, packet) == []
    ensures s != [] ==>
              var n := |s| - 1;
              Beats(channel, s, packet) ==
              Leading(channel, s[..n], packet) + [Beat(channel, s[n], packet && n == 0, packet)]
    ensures Beats(channel, s, false) == Leading(channel, s, false)
  {
    LeadingAt(channel, s, false);
    if s != [] {
      LeadingAt(channel, s[..|s| - 1], packet);
    }
  }

  lemma {:induction false} TakeEscaped(l: Line, s: seq<Byte>)
    requires !l.channelNext && !l.escaped && !l.eop
    ensures LegalAll(l, EscapeAll(s))
    ensures TakeAll(l, EscapeAll(s)) ==
            l.(sop := l.sop && s == [], beats := l.beats + Leading(l.channel, s, l.sop))
  {
    if s != [] {
      var n := |s| - 1;
      TakeEscaped(l, s[..n]);
      var m := l.(sop := l.sop && n == 0, beats := l.beats + Leading(l.channel, s[..n], l.sop));
      TakeByte(m, s[n]);
      TakeAllConcat(l, EscapeAll(s[..n]), EscapeByte(s[n]));
      BeatsAssoc(l.beats, Leading(l.channel, s[..n], l.sop), [Beat(l.channel, s[n], m.sop, false)]);
    }
  }

  lemma BeatsAssoc(a: seq<Beat>, b: seq<Beat>, c: seq<Beat>)
    ensures (a + b) + c == a + (b + c)
  {
  }

  lemma {:induction false} TakeOpening(l: Line, body: seq<Byte>)
    requires Idle(l)
    ensures LegalAll(l, [SOP] + EscapeAll(body) + [EOP_PREFIX])
    ensures TakeAll(l, [SOP] + EscapeAll(body) + [EOP_PREFIX]) ==
            l.(sop := body == [], eop := true, inPacket := true,
               beats := l.beats + Leading(l.channel, body, true))
  {
    var m := l.(sop := true, inPacket := true);
    TakeOne(l, SOP);
    TakeEscaped(m, body);
    TakeAllConcat(l, [SOP], EscapeAll(body));
    TakeOne(TakeAll(m, EscapeAll(body)), EOP_PREFIX);
    TakeAllConcat(l, [SOP] + EscapeAll(body), [EOP_PREFIX]);
  }

  /** A frame is legal between packets and decodes to exactly its payload, bracketed by the
      first and the last beat. */
  lemma {:induction false} TakeFrame(l: Line, payload: seq<Byte>)
    requires Idle(l)
    ensures LegalAll(l, Frame(payload))
    ensures TakeAll(l, Frame(payload)) == l.(beats := l.beats + Beats(l.channel, payload, true))
  {
    BeatsSplit(l.channel, payload, true);
    if payload != [] {
      var n := |payload| - 1;
      var opening := [SOP] + EscapeAll(payload[..n]) + [EOP_PREFIX];
      TakeOpening(l, payload[..n]);
      TakeByte(TakeAll(l, opening), payload[n]);
      TakeAllConcat(l, opening, EscapeByte(payload[n]));
    }
  }

  // ----------------------------------------------------------- packets of one channel

  datatype Assembly = Assembly(open: bool, data: seq<Byte>, packets: seq<seq<Byte>>)

  /** Puts together the packets that the beats of channel `k` carry. */
  function Assemble(k: int, beats: seq<Beat>): Assembly {
    if beats == [] then Assembly(false, [], [])
    else
      var a := Assemble(k, beats[..|beats| - 1]);
      var b := beats[|beats| - 1];
      if b.channel != k || !(a.open || b.sop) then a
      else
        var data := (if b.sop then [] else a.data) + [b.data];
        if b.eop then Assembly(false, [], a.packets + [data])
        else Assembly(true, data, a.packets)
  }
}
