/** The sink of channel 0: a memory-mapped read-only master that answers every packet. */
module AvmSink {
  import opened Bytes
  import opened AvalonSt
  import opened HostBridge
  import opened Demux

  const READABLE_BASE := 0x1000_0000
  const READABLE_END := READABLE_BASE + 16

  const OFFSET_FULL := 8
  const OFFSET_WRITE := 9
  const OFFSET_READ := 10
  const OFFSET_NOTR := 11

  const AVM_CHANNEL := Channel(0, true)

  /** Memory as the processor sees it. */
  type Memory = int -> Byte

  function Window(mem: Memory, addr: int, size: nat): seq<Byte> {
    seq(size, i => mem(addr + i))
  }

  /** The exclusive or of `b` with 0x80. */
  function ToggleReply(b: Byte): Byte {
    if b < 0x80 then b + 0x80 else b - 0x80
  }

  /** Bit 7 is flipped, and no other bit. */
  lemma ToggleFlipsBit7(b: Byte)
    ensures ToggleReply(b) % 128 == b % 128 && (ToggleReply(b) >= 128 <==> b < 128)
  {
  }

  function BigEndian16(b: seq<Byte>): nat
    requires |b| == 2
  {
    Word(b[1], b[0], 0, 0)
  }

  function BigEndian32(b: seq<Byte>): nat
    requires |b| == 4
  {
    Word(b[3], b[2], b[1], b[0])
  }

  datatype Avm = Avm(escape: bool, eop: bool, inside: bool, offset: nat, buffer: seq<Byte>,
                     calls: seq<Call>)
  {
    predicate Valid() {
      |buffer| == 8 && offset != OFFSET_FULL && offset <= OFFSET_NOTR
    }
  }

  function Dispatch(command: Byte): nat {
    if command == 0x00 || command == 0x04 then OFFSET_WRITE
    else if command == 0x10 || command == 0x14 then OFFSET_READ
    else OFFSET_NOTR
  }

  /** A read at `addr`; the sum is one of 32-bit words. */
  function ReadAt(mem: Memory, addr: nat, size: nat): seq<Byte> {
    if addr < READABLE_BASE || (addr + size) % TWO_32 > READABLE_END then [0]
    else Window(mem, addr, size)
  }

  function ReadReply(mem: Memory, header: seq<Byte>): seq<Byte>
    requires |header| == 8
  {
    ReadAt(mem, BigEndian32(header[4..8]), BigEndian16(header[2..4]))
  }

  function Finish(mem: Memory, s: Avm, reset: bool): (r: Avm)
    requires s.Valid()
    ensures r.Valid()
  {
    var t := s.(eop := false, inside := false,
                buffer := s.buffer[0 := ToggleReply(s.buffer[0])][1 := 0]);
    if t.offset == OFFSET_READ then
      t.(calls := t.calls + [Call(AVM_CHANNEL, ReadReply(mem, t.buffer), true, reset)])
    else
      var u := t.(buffer := t.buffer[2 := 0][3 := 0]);
      u.(calls := u.calls + [Call(AVM_CHANNEL, u.buffer[..4], true, reset)])
  }

  /** A byte inside a packet. `reset` lives for one turn only. */
  function Store(mem: Memory, s: Avm, v: Byte): (r: Avm)
    requires s.Valid()
    ensures r.Valid()
  {
    var t := if s.offset < OFFSET_FULL
             then s.(buffer := s.buffer[s.offset := v], offset := s.offset + 1) else s;
    var full := t.offset == OFFSET_FULL;
    var u := if full then t.(offset := Dispatch(t.buffer[0])) else t;
    if u.eop then Finish(mem, u, full && t.buffer[0] == 0x7f) else u
  }

  function Step(mem: Memory, s: Avm, b: Byte): (r: Avm)
    requires s.Valid()
    ensures r.Valid()
  {
    if b == SOP then s.(offset := 0, inside := true, eop := false)
    else if b == EOP_PREFIX then s.(eop := true)
    else if b == ESCAPE_PREFIX then s.(escape := true)
    else
      var v := if s.escape then EscapeXor(b) else b;
      var t := s.(escape := false);
      if t.inside then Store(mem, t, v) else t
  }

  function Run(mem: Memory, s: Avm, bs: seq<Byte>): (r: Avm)
    requires s.Valid()
    ensures r.Valid()
  {
    if bs == [] then s else Step(mem, Run(mem, s, bs[..|bs| - 1]), bs[|bs| - 1])
  }

  // ------------------------------------------------------------- what a packet is answered

  predicate IsRead(p: seq<Byte>) {
    |p| >= 8 && (p[0] == 0x10 || p[0] == 0x14)
  }

  /** The answer to one packet, from its bytes alone. */
  function Answer(mem: Memory, p: seq<Byte>): Call
    requires p != []
  {
    Call(AVM_CHANNEL,
         if IsRead(p) then ReadReply(mem, p[..8]) else [ToggleReply(p[0]), 0, 0, 0],
         true, p[0] == 0x7f && |p| == 8)
  }

  ghost predicate NoneEmpty(ps: seq<seq<Byte>>) {
    forall i :: 0 <= i < |ps| ==> ps[i] != []
  }

  function Answers(mem: Memory, ps: seq<seq<Byte>>): seq<Call>
    requires NoneEmpty(ps)
  {
    if ps == [] then [] else Answers(mem, ps[..|ps| - 1]) + [Answer(mem, ps[|ps| - 1])]
  }

  ghost predicate Follows(mem: Memory, s: Avm, g: Deframer) {
    && s.Valid() && s.escape == g.escape && s.inside == g.inside
    && NoneEmpty(g.packets) && s.calls == Answers(mem, g.packets)
    && (g.inside ==>
          && s.eop == g.eop
          && if |g.data| < 8 then s.offset == |g.data| && s.buffer[..s.offset] == g.data
             else s.buffer == g.data[..8] && s.offset == Dispatch(g.data[0]))
  }

  lemma StoreFollows(mem: Memory, s: Avm, data: seq<Byte>, v: Byte)
    requires s.Valid()
    requires if |data| < 8 then s.offset == |data| && s.buffer[..s.offset] == data
             else s.buffer == data[..8] && s.offset == Dispatch(data[0])
    ensures var p := data + [v];
            var t := Store(mem, s, v);
            && t.escape == s.escape
            && if s.eop then !t.inside && t.calls == s.calls + [Answer(mem, p)]
               else
                 && t.inside == s.inside && !t.eop && t.calls == s.calls
                 && if |p| < 8 then t.offset == |p| && t.buffer[..t.offset] == p
                    else t.buffer == p[..8] && t.offset == Dispatch(p[0])
  {
    var p := data + [v];
    if |data| < 8 {
      var b := s.buffer[s.offset := v];
      assert b[..s.offset + 1] == p;
      assert b[0] == p[0];
      if |data| == 7 {
        assert b == p[..8];
      }
      if s.eop {
        var u := s.(buffer := b, offset := if |p| == 8 then Dispatch(p[0]) else |p|);
        FinishAnswers(mem, u, p, |p| == 8 && p[0] == 0x7f);
      }
    } else {
      assert p[..8] == data[..8] && s.buffer[0] == data[..8][0] == p[0];
      if s.eop {
        FinishAnswers(mem, s, p, false);
      }
    }
  }

  lemma FinishAnswers(mem: Memory, s: Avm, p: seq<Byte>, reset: bool)
    requires s.Valid() && p != [] && s.buffer[0] == p[0] && (|p| >= 8 ==> s.buffer == p[..8])
    requires s.offset == OFFSET_READ <==> IsRead(p)
    ensures Finish(mem, s, reset).calls == s.calls + [Answer(mem, p).(reset := reset)]
  {
    if IsRead(p) {
      HeaderOnly(mem, s.buffer);
    } else {
      var t := s.buffer[0 := ToggleReply(s.buffer[0])][1 := 0][2 := 0][3 := 0];
      assert t[..4] == [ToggleReply(p[0]), 0, 0, 0];
    }
  }

  /** Overwriting command and reserved byte leaves address and size alone. */
  lemma HeaderOnly(mem: Memory, b: seq<Byte>)
    requires |b| == 8
    ensures ReadReply(mem, b[0 := ToggleReply(b[0])][1 := 0]) == ReadReply(mem, b)
  {
    var h := b[0 := ToggleReply(b[0])][1 := 0];
    assert h[4..8] == b[4..8] && h[2..4] == b[2..4];
  }

  lemma {:induction false} FollowsStep(mem: Memory, s: Avm, g: Deframer, b: Byte)
    requires Follows(mem, s, g)
    ensures Follows(mem, Step(mem, s, b), Accept(g, b))
  {
    if b != SOP && b != EOP_PREFIX && b != ESCAPE_PREFIX && g.inside {
      var v := if g.escape then EscapeXor(b) else b;
      StoreFollows(mem, s.(escape := false), g.data, v);
      if g.eop {
        var h := Accept(g, b);
        assert h.packets[..|h.packets| - 1] == g.packets;
      }
    }
  }

  const NEW_AVM := Avm(false, false, false, 0, [0, 0, 0, 0, 0, 0, 0, 0], [])

  /** Over every byte stream whatever, the master makes exactly one `Source` call for each
      packet that ends, in order, and the call depends on that packet alone: nothing leaks from
      the header buffer of an earlier or an abandoned packet. */
  lemma {:induction false} EveryPacketIsAnswered(mem: Memory, bs: seq<Byte>)
    ensures Follows(mem, Run(mem, NEW_AVM, bs), AcceptAll(NEW_DEFRAMER, bs))
  {
    if bs != [] {
      var n := |bs| - 1;
      EveryPacketIsAnswered(mem, bs[..n]);
      FollowsStep(mem, Run(mem, NEW_AVM, bs[..n]), AcceptAll(NEW_DEFRAMER, bs[..n]), bs[n]);
    }
  }

  /** What a read is answered with: memory if it lies inside the readable window, and also if
      the sum of its address and size wraps around 2^32; a single zero otherwise. */
  lemma ReadIsAnswered(mem: Memory, p: seq<Byte>)
    requires IsRead(p)
    ensures var addr := BigEndian32(p[4..8]);
            var end := addr + BigEndian16(p[2..4]);
            Answer(mem, p).data ==
            if READABLE_BASE <= addr && (end <= READABLE_END || end >= TWO_32)
            then Window(mem, addr, end - addr) else [0]
  {
    assert p[..8][4..8] == p[4..8] && p[..8][2..4] == p[2..4];
    ReadAtEnd(mem, BigEndian32(p[4..8]), BigEndian16(p[2..4]));
  }

  lemma ReadAtEnd(mem: Memory, addr: nat, size: nat)
    requires addr < TWO_32 && size < TWO_32
    ensures ReadAt(mem, addr, size) ==
            if READABLE_BASE <= addr && (addr + size <= READABLE_END || addr + size >= TWO_32)
               && (addr + size < TWO_32 || addr + size - TWO_32 <= READABLE_END)
            then Window(mem, addr, size) else [0]
  {
  }

  /** The same in the packet's own bytes: the third and fourth are the size, the last four of the
      header the address, in both the high-order byte first; the window is 10000000 to 1000000f. */
  lemma {:induction false} ReadInBytes(mem: Memory, p: seq<Byte>)
    requires |p| >= 8 && (p[0] == 0x10 || p[0] == 0x14)
    ensures var size: int := p[2] as int * 0x100 + p[3];
            var addr: int := p[4] as int * 0x100_0000 + p[5] as int * 0x1_0000 + p[6] as int * 0x100 + p[7];
            var answer := Answer(mem, p);
            && answer.channel == Channel(0, true) && answer.packetize && !answer.reset
            && if 0x1000_0000 <= addr && (addr + size <= 0x1000_0010 || addr + size >= 0x1_0000_0000)
               then |answer.data| == size && forall i :: 0 <= i < size ==> answer.data[i] == mem(addr + i)
               else answer.data == [0]
  {
    ReadIsAnswered(mem, p);
    assert p[4..8] == [p[4], p[5], p[6], p[7]] && p[2..4] == [p[2], p[3]];
  }

  /** Any other packet, whatever its length, is answered with its command, bit 7 flipped, and three
      zeros; the command 7f in a packet of just a header resets the channel as well. */
  lemma OthersInBytes(mem: Memory, p: seq<Byte>)
    requires p != [] && !(|p| >= 8 && (p[0] == 0x10 || p[0] == 0x14))
    ensures var answer := Answer(mem, p);
            && answer.channel == Channel(0, true) && answer.packetize
            && (answer.reset <==> p[0] == 0x7f && |p| == 8)
            && answer.data == [if p[0] < 128 then p[0] + 128 else p[0] - 128, 0, 0, 0]
  {
    ToggleFlipsBit7(p[0]);
  }

  ghost predicate SameWindow(m1: Memory, m2: Memory) {
    forall a :: READABLE_BASE <= a < READABLE_END ==> m1(a) == m2(a)
  }

  /** The answer tells nothing about memory outside the readable window. */
  ghost predicate StaysInWindow(p: seq<Byte>)
    requires IsRead(p)
  {
    forall m1: Memory, m2: Memory :: SameWindow(m1, m2) ==> Answer(m1, p).data == Answer(m2, p).data
  }

  /** A read stays inside the window if and only if address plus size does not wrap. */
  lemma ReadStaysInWindow(p: seq<Byte>)
    requires IsRead(p)
    ensures StaysInWindow(p) <==> BigEndian32(p[4..8]) + BigEndian16(p[2..4]) < TWO_32
  {
    var addr := BigEndian32(p[4..8]);
    var size := BigEndian16(p[2..4]);
    if addr + size < TWO_32 {
      forall m1: Memory, m2: Memory | SameWindow(m1, m2)
        ensures Answer(m1, p).data == Answer(m2, p).data
      {
        ReadIsAnswered(m1, p);
        ReadIsAnswered(m2, p);
      }
    } else {
      var m1: Memory := a => 0;
      var m2: Memory := a => if READABLE_BASE <= a < READABLE_END then 0 else 1;
      ReadIsAnswered(m1, p);
      ReadIsAnswered(m2, p);
      assert SameWindow(m1, m2);
      assert Window(m1, addr, size)[0] == 0 && Window(m2, addr, size)[0] == 1;
    }
  }

  // ------------------------------------------------------------------------ the sink itself

  class Master {
    const mem: Memory
    var escapePrefix: bool
    var eopPrefix: bool
    var insidePacket: bool
    var offset: nat
    const buffer: array<Byte>
    /** The `Source` calls made so far. */
    var calls: seq<Call>

    ghost predicate Valid()
      reads this, buffer
    {
      buffer.Length == 8 && View().Valid()
    }

    ghost function View(): Avm
      reads this, buffer
    {
      Avm(escapePrefix, eopPrefix, insidePacket, offset, buffer[..], calls)
    }

    constructor (mem: Memory)
      ensures Valid() && View() == NEW_AVM && this.mem == mem && fresh(buffer)
    {
      this.mem := mem;
      escapePrefix, eopPrefix, insidePacket, offset, calls := false, false, false, 0, [];
      buffer := new Byte[8](_ => 0);
    }

    method Source(data: seq<Byte>, reset: bool)
      modifies this`calls
      ensures calls == old(calls) + [Call(AVM_CHANNEL, data, true, reset)]
    {
      calls := calls + [Call(AVM_CHANNEL, data, true, reset)];
    }

    method EndPacket(reset: bool)
      requires Valid()
      modifies this, buffer
      ensures Valid() && View() == Finish(mem, old(View()), reset)
    {
      ghost var was := buffer[..];
      eopPrefix, insidePacket := false, false;
      buffer[0] := ToggleReply(buffer[0]);
      buffer[1] := 0;
      ghost var now := buffer[..];
      assert now == was[0 := ToggleReply(was[0])][1 := 0];
      if offset == OFFSET_READ {
        var addr := BigEndian32(buffer[4..8]);
        var size := BigEndian16(buffer[2..4]);
        assert now[4..8] == buffer[4..8] && now[2..4] == buffer[2..4];
        if addr < READABLE_BASE || (addr + size) % TWO_32 > READABLE_END {
          Source([0], reset);
        } else {
          Source(Window(mem, addr, size), reset);
        }
      } else {
        buffer[2], buffer[3] := 0, 0;
        assert buffer[..] == now[2 := 0][3 := 0];
        Source(buffer[..4], reset);
      }
    }

    method StoreByte(v: Byte)
      requires Valid() && insidePacket
      modifies this, buffer
      ensures Valid() && View() == Store(mem, old(View()), v)
    {
      var reset := false;
      ghost var was := buffer[..];
      if offset < OFFSET_FULL {
        buffer[offset] := v;
        assert buffer[..] == was[offset := v];
        offset := offset + 1;
      }
      if offset == OFFSET_FULL {
        var command := buffer[0];
        if command == 0x00 || command == 0x04 {
          offset := OFFSET_WRITE;
        } else if command == 0x10 || command == 0x14 {
          offset := OFFSET_READ;
        } else {
          reset := command == 0x7f;
          offset := OFFSET_NOTR;
        }
      }
      if eopPrefix {
        EndPacket(reset);
      }
    }

    method Accept(src: seq<Byte>) returns (len: nat)
      requires Valid()
      modifies this, buffer
      ensures Valid() && len == |src|
      ensures View() == Run(mem, old(View()), src)
    {
      var i := 0;
      assert src[..0] == [];
      while i < |src|
        invariant 0 <= i <= |src|
        invariant Valid() && View() == Run(mem, old(View()), src[..i])
      {
        assert src[..i + 1][..i] == src[..i];
        var byte := src[i];
        i := i + 1;
        if byte == SOP {
          offset, insidePacket, eopPrefix := 0, true, false;
        } else if byte == EOP_PREFIX {
          eopPrefix := true;
        } else if byte == ESCAPE_PREFIX {
          escapePrefix := true;
        } else {
          if escapePrefix {
            byte := EscapeXor(byte);
            escapePrefix := false;
          }
          if insidePacket {
            StoreByte(byte);
          }
        }
      }
      assert src[..i] == src;
      len := |src|;
    }
  }
}
