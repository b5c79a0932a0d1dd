/** The software host bridge: `Source` puts channel data on the line to the host, `Service`
    hands what the host sent to the sinks of the registered channels. */
module HostBridge {
  import opened Bytes
  import opened AvalonSt
  import opened Options

  const READ_BUFFER_LEN := 128
  const WRITE_BUFFER_LEN := 128
  const EEXIST := 17

  datatype Channel = Channel(number: Byte, packetized: bool)

  // ------------------------------------------------------------------------- encoder

  /** One call of `Source`. */
  datatype Call = Call(channel: Channel, data: seq<Byte>, packetize: bool, reset: bool)

  function ChannelSelect(number: Byte): seq<Byte> {
    [CHANNEL_PREFIX] + EscapeByte(number)
  }

  predicate Verbatim(c: Call) {
    c.channel.packetized && !c.packetize
  }

  function Payload(c: Call): seq<Byte> {
    if Verbatim(c) then c.data
    else if c.packetize then Frame(c.data)
    else EscapeAll(c.data)
  }

  /** What one call adds to the line when `current` is the channel last named (-1: none). */
  function SourceBytes(current: int, c: Call): seq<Byte> {
    (if c.channel.number != current || c.reset then ChannelSelect(c.channel.number) else [])
    + Payload(c)
  }

  /** For example the packet 7b, first on channel 1 and then on channel 7c. */
  lemma SourceOfSpecial(one: Call, other: Call)
    requires one == Call(Channel(1, true), [0x7b], true, false)
    requires other == Call(Channel(0x7c, true), [0x7b], true, false)
    ensures SourceBytes(-1, one) == [0x7c, 1, 0x7a, 0x7b, 0x7d, 0x5b]
    ensures SourceBytes(1, one) == [0x7a, 0x7b, 0x7d, 0x5b]
    ensures SourceBytes(1, other) == [0x7c, 0x7d, 0x5c, 0x7a, 0x7b, 0x7d, 0x5b]
    ensures SourceBytes(1, one.(reset := true)) == [0x7c, 1, 0x7a, 0x7b, 0x7d, 0x5b]
  {
    EscapedForms();
    assert one.data[..0] == [];
    assert Frame(one.data) == [0x7a, 0x7b, 0x7d, 0x5b];
  }

  /** Without packets: verbatim on a packetized channel, escaped on a raw one. */
  lemma SourceUnpacketized(c: Call)
    requires c.data == [0x7b] && !c.packetize && !c.reset && c.channel.number == 1
    ensures SourceBytes(1, c) == if c.channel.packetized then [0x7b] else [0x7d, 0x5b]
  {
    EscapedForms();
    assert c.data[..0] == [] && EscapeAll(c.data) == [0x7d, 0x5b];
  }

  /** The escaped form of the first `i` bytes, as the staging loop builds it. */
  ghost function Written(data: seq<Byte>, i: nat, packetize: bool): seq<Byte>
    requires 0 < |data| && i <= |data|
  {
    if packetize then
      if i == |data| then Frame(data) else [SOP] + EscapeAll(data[..i])
    else EscapeAll(data[..i])
  }

  /** What has reached the host once the first `i` bytes have been flushed. */
  ghost function Flushed(data: seq<Byte>, i: nat, packetize: bool): seq<Byte>
    requires i <= |data|
  {
    if i == 0 then [] else Written(data, i, packetize)
  }

  lemma Assoc(a: seq<Byte>, b: seq<Byte>, c: seq<Byte>)
    ensures (a + b) + c == a + (b + c)
  {
  }

  lemma WrittenNext(data: seq<Byte>, i: nat, packetize: bool)
    requires i < |data|
    ensures Written(data, i + 1, packetize) ==
            Written(data, i, packetize)
            + ((if packetize && i + 1 == |data| then [EOP_PREFIX] else []) + EscapeByte(data[i]))
  {
    assert data[..i + 1][..i] == data[..i];
  }

  // ------------------------------------------------------------------------- demux

  function Find(channels: seq<Channel>, number: Byte): (r: Option<Channel>)
    ensures r.Some? ==> r.value in channels && r.value.number == number
    ensures r.None? ==> forall c :: c in channels ==> c.number != number
  {
    if channels == [] then None
    else if channels[0].number == number then Some(channels[0])
    else Find(channels[1..], number)
  }

  /** No two registered channels share a number. */
  ghost predicate Distinct(channels: seq<Channel>) {
    forall k :: k in channels ==> Find(channels, k.number) == Some(k)
  }

  lemma {:induction false} FindAppend(channels: seq<Channel>, c: Channel, number: Byte)
    ensures Find(channels + [c], number) ==
            if Find(channels, number).Some? then Find(channels, number)
            else if c.number == number then Some(c) else None
  {
    if channels != [] {
      assert (channels + [c])[1..] == channels[1..] + [c];
      FindAppend(channels[1..], c, number);
    }
  }

  lemma AppendKeepsDistinct(channels: seq<Channel>, c: Channel)
    requires Distinct(channels) && Find(channels, c.number).None?
    ensures Distinct(channels + [c])
  {
    forall k | k in channels + [c]
      ensures Find(channels + [c], k.number) == Some(k)
    {
      FindAppend(channels, c, k.number);
    }
  }

  type Deliveries = map<Byte, seq<Byte>>

  /** Everything the sink of channel `k` has been handed so far. */
  function Delivered(m: Deliveries, k: Byte): seq<Byte> {
    if k in m then m[k] else []
  }

  function Deliver(m: Deliveries, sink: Option<Channel>, bytes: seq<Byte>): Deliveries {
    if sink.None? || bytes == [] then m
    else m[sink.value.number := Delivered(m, sink.value.number) + bytes]
  }

  /** The variables of one pass over a read buffer. */
  datatype Scan = Scan(
    buffer: seq<Byte>, readLen: int, index: int, head: int,
    sink: Option<Channel>, channelPrefix: bool, escapePrefix: bool, delivered: Deliveries)
  {
    predicate Valid() {
      0 <= index <= readLen <= |buffer| && 0 <= head <= index
    }

    /** `Valid`, or one past the end: dropping the last byte leaves the index behind it. */
    predicate Open() {
      Valid() || (index == readLen + 1 && 0 <= readLen <= |buffer| && 0 <= head)
    }

    predicate Raw() {
      sink.Some? && !sink.value.packetized
    }
  }

  function Slice(buffer: seq<Byte>, from: int, to: int): seq<Byte>
    requires 0 <= from && to <= |buffer|
  {
    if from <= to then buffer[from..to] else []
  }

  /** `memmove(buffer, buffer + 1, n)` */
  function MoveDown(buffer: seq<Byte>, n: nat): seq<Byte>
    requires n < |buffer|
  {
    buffer[1..n + 1] + buffer[n..]
  }

  function DropSpecial(s: Scan): Scan
    requires s.Valid() && s.index < s.readLen
  {
    s.(readLen := s.readLen - 1, buffer := MoveDown(s.buffer, s.readLen - 1 - s.index))
  }

  /** A byte that is neither prefix: `v` is its value with any escape undone. */
  function ScanData(channels: seq<Channel>, s: Scan, v: Byte): Scan
    requires s.Valid() && s.index < s.readLen
  {
    if s.channelPrefix then
      s.(delivered := Deliver(s.delivered, s.sink, Slice(s.buffer, s.head, s.index - 1)),
         sink := Find(channels, v), head := s.index + 1, channelPrefix := false)
    else if s.Raw() && (v == SOP || v == EOP_PREFIX) then DropSpecial(s)
    else s
  }

  /** One turn of the byte loop. */
  function ScanStep(channels: seq<Channel>, s: Scan): (r: Scan)
    requires s.Valid() && s.index < s.readLen
    ensures r.Open()
    ensures r.readLen - r.index < s.readLen - s.index
    ensures |r.buffer| == |s.buffer|
  {
    var byte := s.buffer[s.index];
    var t :=
      if byte == CHANNEL_PREFIX then s.(channelPrefix := true)
      else if byte == ESCAPE_PREFIX then
        (if s.Raw() then DropSpecial(s) else s).(escapePrefix := true)
      else if !s.escapePrefix then ScanData(channels, s, byte)
      else
        var v := EscapeXor(byte);
        var u := if s.Raw() then s.(buffer := s.buffer[s.index := v]) else s;
        ScanData(channels, u.(escapePrefix := false), v);
    t.(index := s.index + 1)
  }

  /** The loop to its end, with the final write. */
  function ScanAll(channels: seq<Channel>, s: Scan): Scan
    requires s.Open()
    decreases s.readLen - s.index
  {
    if s.index < s.readLen then ScanAll(channels, ScanStep(channels, s))
    else s.(delivered := Deliver(s.delivered, s.sink, Slice(s.buffer, s.head, s.readLen)))
  }

  // ------------------------------------------------------------------------- the bridge

  class Bridge {
    var channels: seq<Channel>
    var sinkChannel: Option<Channel>
    var sourceChannelNumber: int
    var channelPrefix: bool
    var escapePrefix: bool
    /** Every byte written to the host. */
    var line: seq<Byte>
    /** Every byte the sinks have accepted. */
    var delivered: Deliveries

    constructor ()
      ensures channels == [] && sinkChannel == None && sourceChannelNumber == -1
      ensures !channelPrefix && !escapePrefix && line == [] && delivered == map[]
    {
      channels, sinkChannel, sourceChannelNumber := [], None, -1;
      channelPrefix, escapePrefix := false, false;
      line, delivered := [], map[];
    }

    method FindChannel(number: Byte) returns (r: Option<Channel>)
      ensures r == Find(channels, number)
    {
      var i := 0;
      while i < |channels|
        invariant 0 <= i <= |channels|
        invariant Find(channels, number) == Find(channels[i..], number)
      {
        if channels[i].number == number {
          return Some(channels[i]);
        }
        assert channels[i..][1..] == channels[i + 1..];
        i := i + 1;
      }
      r := None;
    }

    /** Appends the channel unless its number is taken; a registered channel keeps its place. */
    method RegisterChannel(channel: Channel) returns (r: int)
      modifies this`channels
      ensures r == if exists c :: c in old(channels) && c.number == channel.number then -17 else 0
      ensures channels == if r == 0 then old(channels) + [channel] else old(channels)
      ensures old(Distinct(channels)) ==> Distinct(channels)
    {
      var i := 0;
      while i < |channels|
        invariant 0 <= i <= |channels|
        invariant Find(channels, channel.number) == Find(channels[i..], channel.number)
      {
        if channels[i].number == channel.number {
          return -EEXIST;
        }
        assert channels[i..][1..] == channels[i + 1..];
        i := i + 1;
      }
      if Distinct(channels) {
        AppendKeepsDistinct(channels, channel);
      }
      channels := channels + [channel];
      r := 0;
    }

    method WriteToHost(buffer: array<Byte>, len: nat)
      requires len <= buffer.Length
      modifies this`line
      ensures line == old(line) + buffer[..len]
    {
      line := line + buffer[..len];
    }

    method WriteSelect(number: Byte)
      modifies this`line
      ensures line == old(line) + ChannelSelect(number)
    {
      var buffer := new Byte[3](_ => 0);
      var writeLen;
      buffer[0] := CHANNEL_PREFIX;
      if NeedsEscape(number) {
        buffer[1] := ESCAPE_PREFIX;
        buffer[2] := EscapeXor(number);
        writeLen := 3;
      } else {
        buffer[1] := number;
        writeLen := 2;
      }
      assert buffer[..writeLen] == ChannelSelect(number);
      WriteToHost(buffer, writeLen);
    }

    /** Whatever the payload, the staging buffer of WRITE_BUFFER_LEN + 2 bytes is enough, and
        its flushes add up to the unchunked form. */
    method Source(c: Call) returns (r: int)
      modifies this`line, this`sourceChannelNumber
      ensures r == 0
      ensures sourceChannelNumber == c.channel.number
      ensures line == old(line) + SourceBytes(old(sourceChannelNumber), c)
    {
      var number := c.channel.number;
      ghost var select := [];
      if number != sourceChannelNumber || c.reset {
        select := ChannelSelect(number);
        WriteSelect(number);
        sourceChannelNumber := number;
      }
      if c.channel.packetized && !c.packetize {
        line := line + c.data;
      } else {
        WritePayload(c.data, c.packetize);
      }
      Assoc(old(line), select, Payload(c));
      r := 0;
    }

    method WritePayload(data: seq<Byte>, packetized: bool)
      modifies this`line
      ensures line == old(line) + if packetized then Frame(data) else EscapeAll(data)
    {
      var buffer := new Byte[WRITE_BUFFER_LEN + 2](_ => 0);
      var packetize := if packetized then 1 else 0;
      var src := 0;
      while src < |data|
        invariant src <= |data|
        invariant packetize == if !packetized then 0 else if src == 0 then 1 else -1
        invariant line == old(line) + Flushed(data, src, packetized)
      {
        ghost var done := Flushed(data, src, packetized);
        var writeLen;
        writeLen, src := FillBuffer(buffer, data, src, packetize);
        packetize := if packetize > 0 then -1 else packetize;
        Assoc(old(line), done, buffer[..writeLen]);
        WriteToHost(buffer, writeLen);
      }
      assert data[..|data|] == data;
    }

    ghost function Scanning(buffer: seq<Byte>, readLen: int, index: int, head: int): Scan
      reads this
    {
      Scan(buffer, readLen, index, head, sinkChannel, channelPrefix, escapePrefix, delivered)
    }

    method WriteToChannel(sink: Option<Channel>, buffer: array<Byte>, from: int, to: int)
      requires 0 <= from && to <= buffer.Length
      modifies this`delivered
      ensures delivered == Deliver(old(delivered), sink, Slice(buffer[..], from, to))
    {
      if sink.Some? && from < to {
        var number := sink.value.number;
        delivered := delivered[number := Delivered(delivered, number) + buffer[from..to]];
      }
    }

    method ScanDataByte(buffer: array<Byte>, len: int, index: int, from: int, v: Byte)
      returns (readLen: int, head: int)
      requires 0 <= from <= index < len <= buffer.Length
      modifies this`sinkChannel, this`channelPrefix, this`delivered, buffer
      ensures Scanning(buffer[..], readLen, index, head)
           == ScanData(channels, old(Scanning(buffer[..], len, index, from)), v)
    {
      readLen, head := len, from;
      if channelPrefix {
        WriteToChannel(sinkChannel, buffer, head, index - 1);
        sinkChannel := FindChannel(v);
        head := index + 1;
        channelPrefix := false;
      } else if sinkChannel.Some? && !sinkChannel.value.packetized {
        if v == SOP || v == EOP_PREFIX {
          readLen := readLen - 1;
          MemMoveDown(buffer, readLen - index);
        }
      }
    }

    method ScanByte(buffer: array<Byte>, len: int, index: int, from: int)
      returns (readLen: int, head: int)
      requires 0 <= from <= index < len <= buffer.Length
      modifies this`sinkChannel, this`channelPrefix, this`escapePrefix, this`delivered, buffer
      ensures Scanning(buffer[..], readLen, index + 1, head)
           == ScanStep(channels, old(Scanning(buffer[..], len, index, from)))
    {
      readLen, head := len, from;
      var byte := buffer[index];
      if byte == CHANNEL_PREFIX {
        channelPrefix := true;
      } else if byte == ESCAPE_PREFIX {
        escapePrefix := true;
        if sinkChannel.Some? && !sinkChannel.value.packetized {
          readLen := readLen - 1;
          MemMoveDown(buffer, readLen - index);
        }
      } else {
        if escapePrefix {
          byte := EscapeXor(byte);
          if sinkChannel.Some? && !sinkChannel.value.packetized {
            ghost var was := buffer[..];
            buffer[index] := byte;
            assert buffer[..] == was[index := byte];
          }
          escapePrefix := false;
        }
        readLen, head := ScanDataByte(buffer, readLen, index, head, byte);
      }
    }

    /** Demultiplexes one read of the line. */
    method Service(read: seq<Byte>)
      requires |read| <= READ_BUFFER_LEN
      modifies this`sinkChannel, this`channelPrefix, this`escapePrefix, this`delivered
      ensures var s := ScanAll(channels, old(Scanning(read, |read|, 0, 0)));
              Scanning(s.buffer, s.readLen, s.index, s.head) == s
    {
      if |read| == 0 {
        return;
      }
      var buffer := new Byte[|read|](i requires 0 <= i < |read| => read[i]);
      var readLen, index, head := |read|, 0, 0;
      assert buffer[..] == read;
      while index < readLen
        invariant Scanning(buffer[..], readLen, index, head).Open()
        invariant ScanAll(channels, Scanning(buffer[..], readLen, index, head))
               == ScanAll(channels, old(Scanning(read, |read|, 0, 0)))
        decreases readLen - index
      {
        readLen, head := ScanByte(buffer, readLen, index, head);
        index := index + 1;
      }
      WriteToChannel(sinkChannel, buffer, head, readLen);
    }
  }

  method StageByte(buffer: array<Byte>, at: nat, byte: Byte, last: bool) returns (writeLen: nat)
    requires at + 3 <= buffer.Length
    modifies buffer
    ensures at < writeLen <= at + 3
    ensures buffer[..writeLen] ==
            old(buffer[..at]) + ((if last then [EOP_PREFIX] else []) + EscapeByte(byte))
  {
    writeLen := at;
    if last {
      buffer[writeLen] := EOP_PREFIX;
      writeLen := writeLen + 1;
    }
    if NeedsEscape(byte) {
      buffer[writeLen] := ESCAPE_PREFIX;
      writeLen := writeLen + 1;
      buffer[writeLen] := EscapeXor(byte);
      writeLen := writeLen + 1;
    } else {
      buffer[writeLen] := byte;
      writeLen := writeLen + 1;
    }
  }

  /** Fills the staging buffer once; `packetize` is 1 before a packet's first flush, -1 after. */
  method FillBuffer(buffer: array<Byte>, data: seq<Byte>, from: nat, packetize: int)
    returns (writeLen: nat, src: nat)
    requires buffer.Length == WRITE_BUFFER_LEN + 2
    requires from < |data|
    requires packetize == 1 ==> from == 0
    requires packetize == -1 ==> from > 0
    requires packetize == 0 || packetize == 1 || packetize == -1
    modifies buffer
    ensures from < src <= |data| && writeLen <= buffer.Length
    ensures Flushed(data, src, packetize != 0)
         == Flushed(data, from, packetize != 0) + buffer[..writeLen]
  {
    writeLen, src := 0, from;
    if packetize > 0 {
      buffer[0] := SOP;
      writeLen := 1;
    }
    ghost var done := Flushed(data, from, packetize != 0);
    assert done + buffer[..writeLen] == Written(data, src, packetize != 0) by {
      assert data[..0] == [];
    }
    while writeLen < WRITE_BUFFER_LEN && src < |data|
      invariant from <= src <= |data| && writeLen <= buffer.Length
      invariant from == src ==> writeLen <= 1
      invariant done + buffer[..writeLen] == Written(data, src, packetize != 0)
    {
      writeLen := StageNext(buffer, writeLen, data, src, packetize, done);
      src := src + 1;
    }
  }

  method StageNext(buffer: array<Byte>, at: nat, data: seq<Byte>, src: nat, packetize: int, ghost done: seq<Byte>)
    returns (writeLen: nat)
    requires at + 3 <= buffer.Length && src < |data|
    requires done + buffer[..at] == Written(data, src, packetize != 0)
    modifies buffer
    ensures at < writeLen <= at + 3
    ensures done + buffer[..writeLen] == Written(data, src + 1, packetize != 0)
  {
    WrittenNext(data, src, packetize != 0);
    ghost var staged := buffer[..at];
    ghost var more := (if packetize != 0 && src + 1 == |data| then [EOP_PREFIX] else [])
                      + EscapeByte(data[src]);
    writeLen := StageByte(buffer, at, data[src], packetize != 0 && |data| - src == 1);
    Assoc(done, staged, more);
  }

  method MemMoveDown(buffer: array<Byte>, n: nat)
    requires n < buffer.Length
    modifies buffer
    ensures buffer[..] == MoveDown(old(buffer[..]), n)
  {
    forall i | 0 <= i < n {
      buffer[i] := buffer[i + 1];
    }
  }
}
