/** The ring buffer itself, each call taken as a whole. */
module PipeRing {
  import opened Bytes
  import opened HostPipe
  import opened Capacity

  class RingBuffer {
    const buffer: array<Byte>
    var readOffset: nat
    var writeOffset: nat
    var semRead: nat

    ghost predicate Valid()
      reads this
    {
      IsPow2(buffer.Length) && readOffset < buffer.Length && writeOffset < buffer.Length
    }

    ghost function Stored(): nat
      requires Valid()
      reads this
    {
      Dist(readOffset, writeOffset, buffer.Length)
    }

    ghost function Contents(): seq<Byte>
      requires Valid()
      reads this, buffer
    {
      Ring(buffer[..], readOffset, Stored())
    }

    /** The capacity asked for is rounded up, so that offsets can be masked. */
    constructor (requested: nat)
      requires 0 < requested <= 0x8000_0000
      ensures Valid() && fresh(buffer) && requested <= buffer.Length < 2 * requested
      ensures Contents() == [] && semRead == 0
    {
      var capacity := RoundupPow2(requested);
      buffer := new Byte[capacity](_ => 0);
      readOffset, writeOffset, semRead := 0, 0, 0;
    }

    /** The offset after a transfer from `from` on: wrapped by masking unless the second run has
        wrapped it already. */
    method Moved(from: nat, split: Split) returns (n: nat)
      requires Valid() && Fits(split, from, buffer.Length)
      requires from < buffer.Length && split.first + split.second < buffer.Length
      ensures n == At(from, split.first + split.second, buffer.Length)
    {
      MaskIsWrap(from + split.first, buffer.Length);
      if split.second > 0 {
        n := split.second;
      } else {
        n := BitAnd(from + split.first, buffer.Length - 1);
      }
    }

    /** `memcpy(buffer + at, src, |src|)` */
    method CopyIn(at: nat, src: seq<Byte>)
      requires at + |src| <= buffer.Length
      modifies buffer
      ensures buffer[..] == old(buffer[..at]) + src + old(buffer[at + |src|..])
    {
      forall i | 0 <= i < |src| {
        buffer[at + i] := src[i];
      }
    }

    /** The one or two copies of a split transfer. */
    method CopyRun(data: seq<Byte>, split: Split)
      requires Valid() && Fits(split, writeOffset, buffer.Length)
      requires |data| == split.first + split.second <= buffer.Length
      modifies buffer
      ensures buffer[..] == StoreRun(old(buffer[..]), writeOffset, data)
    {
      CopyIn(writeOffset, data[..split.first]);
      if split.second > 0 {
        CopyIn(0, data[split.first..]);
      }
    }

    /** How much of `len` bytes goes where; nothing at all if the first run is empty. */
    method PlanWrite(len: nat) returns (full: bool, split: Split)
      requires Valid()
      ensures full <==> Stored() == buffer.Length - 1
      ensures !full ==> split == WriteSplit(readOffset, writeOffset, buffer.Length, len)
    {
      var free1, free2;
      if readOffset <= writeOffset {
        free1, free2 := buffer.Length - writeOffset, readOffset - 1;
        if free2 < 0 {
          free1, free2 := free1 - 1, 0;
        }
      } else {
        free1, free2 := readOffset - writeOffset - 1, 0;
      }
      full := free1 == 0;
      if len < free1 {
        free1, free2 := len, 0;
      } else if len - free1 < free2 {
        free2 := len - free1;
      }
      split := Split(free1, free2);
    }

    /** Takes as much of `data` as there is room for, in two runs if the free space wraps, and
        wakes the reader if the ring was empty. */
    method Sink(data: seq<Byte>) returns (n: nat)
      requires Valid()
      modifies this`writeOffset, this`semRead, buffer
      ensures Valid()
      ensures n == Min(|data|, buffer.Length - 1 - old(Stored()))
      ensures Contents() == old(Contents()) + data[..n]
      ensures semRead == old(semRead)
                + (if old(Stored()) == 0 && buffer.Length > 1 then 1 else 0)
    {
      var full, split := PlanWrite(|data|);
      if full {
        return 0;
      }
      SplitsAddUp(readOffset, writeOffset, buffer.Length, |data|);
      n := split.first + split.second;
      var wasEmpty := readOffset == writeOffset;
      StoreRunAt(data[..n], split);
      if wasEmpty {
        semRead := semRead + 1;
      }
    }

    /** Copies and commits: the contents are extended by the data. */
    method StoreRunAt(data: seq<Byte>, split: Split)
      requires Valid() && Fits(split, writeOffset, buffer.Length)
      requires |data| == split.first + split.second < buffer.Length - Stored()
      modifies this`writeOffset, buffer
      ensures Valid() && Contents() == old(Contents()) + data
    {
      StoreRunExtends(buffer[..], readOffset, Stored(), data);
      CopyRun(data, split);
      writeOffset := Moved(writeOffset, split);
    }

    /** Hands over the oldest bytes, or says that there are none and the caller must sleep. */
    method Read(len: nat) returns (empty: bool, got: seq<Byte>)
      requires Valid()
      modifies this`readOffset
      ensures Valid()
      ensures empty <==> old(Stored()) == 0
      ensures got == old(Contents())[..Min(len, old(Stored()))]
      ensures Contents() == old(Contents())[|got|..]
    {
      if readOffset == writeOffset {
        return true, [];
      }
      empty := false;
      got := TakeRun(len);
    }

    /** How much of `len` bytes comes from where. */
    method PlanRead(len: nat) returns (split: Split)
      requires Valid()
      ensures split == ReadSplit(readOffset, writeOffset, buffer.Length, len)
    {
      var avail1, avail2;
      if readOffset <= writeOffset {
        avail1, avail2 := writeOffset - readOffset, 0;
      } else {
        avail1, avail2 := buffer.Length - readOffset, writeOffset;
      }
      if len < avail1 {
        avail1, avail2 := len, 0;
      } else if len - avail1 < avail2 {
        avail2 := len - avail1;
      }
      split := Split(avail1, avail2);
    }

    method TakeRun(len: nat) returns (got: seq<Byte>)
      requires Valid() && Stored() > 0
      modifies this`readOffset
      ensures Valid()
      ensures got == old(Contents())[..Min(len, old(Stored()))]
      ensures Contents() == old(Contents())[|got|..]
    {
      var split := PlanRead(len);
      SplitsAddUp(readOffset, writeOffset, buffer.Length, len);
      got := buffer[readOffset..readOffset + split.first];
      if split.second > 0 {
        got := got + buffer[..split.second];
      }
      TakenIsFront(buffer[..], readOffset, Stored(), split);
      readOffset := Moved(readOffset, split);
    }
  }

  /** The ring after `data` is written from `w` on, past the end if need be. */
  ghost function StoreRun(buffer: seq<Byte>, w: nat, data: seq<Byte>): (r: seq<Byte>)
    requires w < |buffer| && |data| <= |buffer|
    ensures |r| == |buffer|
  {
    seq(|buffer|, i requires 0 <= i < |buffer| =>
      var k := if i >= w then i - w else i + |buffer| - w;
      if k < |data| then data[k] else buffer[i])
  }

  /** The two runs of a transfer are the front of the contents; the rest begins where they end. */
  lemma TakenIsFront(buffer: seq<Byte>, r: nat, n: nat, s: Split)
    requires r < |buffer| && n < |buffer| && Fits(s, r, |buffer|) && s.first + s.second <= n
    ensures var m, all := s.first + s.second, Ring(buffer, r, n);
            buffer[r..r + s.first] + buffer[..s.second] == all[..m]
            && Ring(buffer, At(r, m, |buffer|), n - m) == all[m..]
  {
  }

  /** Stored at the write offset, the data extends the contents. */
  lemma StoreRunExtends(buffer: seq<Byte>, r: nat, n: nat, data: seq<Byte>)
    requires r < |buffer| && n + |data| < |buffer|
    ensures var w := At(r, n, |buffer|);
            Ring(StoreRun(buffer, w, data), r, n + |data|) == Ring(buffer, r, n) + data
  {
  }
}
