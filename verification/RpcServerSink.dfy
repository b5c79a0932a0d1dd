/** The sink as the server runs it: fields changed in place and jobs in allocated buffers. */
module RpcServerSink {
  import opened Bytes
  import opened AvalonSt
  import opened HostBridge
  import opened RpcSink
  import opened Options

  lemma {:induction false} FaultSticks(c: Config, s: Sink, bs: seq<Byte>)
    requires s.Valid() && s.fault
    ensures Feed(c, s, bs).0.fault
    decreases |bs|
  {
    if bs != [] && s.pending.None? {
      FaultSticks(c, Step(c, s, bs[0]), bs[1..]);
    }
  }

  class Server {
    const config: Config
    var escapePrefix: bool
    var eopPrefix: bool
    var insidePacket: bool
    var offset: nat
    const length: array<Byte>
    var incomingJob: array?<Byte>
    var pendingJob: array?<Byte>
    var sem: nat
    ghost var stored: nat
    ghost var pendingStored: nat
    var mallocs: nat
    ghost var posts: nat

    ghost predicate Valid()
      reads this
    {
      && length.Length == 4
      && (incomingJob != null ==> incomingJob != length && stored <= incomingJob.Length)
      && (pendingJob != null ==> pendingJob != length && pendingStored <= pendingJob.Length
                                 && pendingJob != incomingJob)
    }

    ghost function View(): Sink
      requires Valid()
      reads this, length, incomingJob, pendingJob
    {
      Sink(escapePrefix, eopPrefix, insidePacket, offset, length[..],
           if incomingJob == null then None else Some(Job(incomingJob.Length, incomingJob[..stored])),
           if pendingJob == null then None else Some(Job(pendingJob.Length, pendingJob[..pendingStored])),
           mallocs, posts, false)
    }

    /** The only buffer besides `length` that the sink writes to. */
    ghost function Filling(): set<object>
      reads this
    {
      if incomingJob == null then {} else {incomingJob}
    }

    constructor (config: Config)
      ensures Valid() && View() == NEW_SINK && this.config == config && fresh(length)
    {
      this.config := config;
      escapePrefix, eopPrefix, insidePacket, offset := false, false, false, 0;
      length := new Byte[4](_ => 0);
      incomingJob, pendingJob, sem := null, null, 0;
      stored, pendingStored, mallocs, posts := 0, 0, 0, 0;
    }

    method DropPacket()
      requires Valid()
      modifies this
      ensures Valid() && View() == NextPacket(old(View()))
      ensures incomingJob == null && pendingJob == old(pendingJob) && sem == old(sem)
    {
      incomingJob := null;
      offset, eopPrefix, insidePacket := 0, false, false;
    }

    method NewJob(size: int) returns (job: array?<Byte>)
      requires length.Length == 4 && (config.alloc(mallocs) ==> size >= 4)
      modifies this`mallocs
      ensures mallocs == old(mallocs) + 1
      ensures job != null <==> config.alloc(old(mallocs))
      ensures job != null ==> fresh(job) && job.Length == size && job[..4] == length[..]
    {
      job := null;
      if config.alloc(mallocs) {
        job := new Byte[size](_ => 0);
        job[0], job[1], job[2], job[3] := length[0], length[1], length[2], length[3];
      }
      mallocs := mallocs + 1;
    }

    method PutLengthByte(v: Byte)
      requires Valid() && offset < 4
      modifies this`offset, length
      ensures offset == old(offset) + 1
      ensures View() == old(View().(length := length[..][offset := v], offset := offset + 1))
    {
      ghost var was := View();
      length[offset] := v;
      offset := offset + 1;
      assert length[..] == was.length[was.offset := v];
    }

    /** All four bytes of the length are there: allocate, unless the request is too long. */
    method Allocate()
      requires Valid()
      requires GetInt(length[..]) <= config.max && config.alloc(mallocs) ==> GetInt(length[..]) >= 4
      modifies this`incomingJob, this`stored, this`mallocs
      ensures Valid()
      ensures var was := old(View());
              var size := GetInt(was.length);
              View() == if size > config.max then was
                        else was.(incoming := if config.alloc(was.mallocs) then Some(Job(size, was.length)) else None,
                                  mallocs := was.mallocs + 1)
      ensures incomingJob == old(incomingJob) || fresh(Filling())
    {
      var size := GetInt(length[..]);
      if size <= config.max {
        incomingJob := NewJob(size);
        stored := 4;
      }
    }

    method StoreLengthByte(v: Byte)
      requires Valid() && offset < 4
      requires !StoreLength(config, View(), v).fault
      modifies this, length
      ensures Valid() && View() == StoreLength(config, old(View()), v)
      ensures pendingJob == old(pendingJob) && sem == old(sem) && posts == old(posts)
      ensures incomingJob == old(incomingJob) || fresh(Filling())
    {
      PutLengthByte(v);
      if offset == 4 {
        Allocate();
      }
    }

    method StoreDataByte(v: Byte)
      requires Valid() && !StoreData(View(), v).fault
      modifies this, Filling()
      ensures Valid() && View() == StoreData(old(View()), v)
      ensures pendingJob == old(pendingJob) && incomingJob == old(incomingJob) && sem == old(sem)
    {
      if incomingJob != null {
        ghost var was := incomingJob[..stored];
        incomingJob[offset] := v;
        stored := if offset < stored then stored else offset + 1;
        assert incomingJob[..stored] == if offset < |was| then was[offset := v] else was + [v];
        offset := offset + 1;
      }
    }

    /** The byte goes where the packet's progress says; `dropped` if the packet is too long. */
    method PutByte(v: Byte) returns (dropped: bool)
      requires Valid() && pendingJob == null && insidePacket
      requires !StoreByte(config, View(), v).fault
      modifies this, length, Filling()
      ensures Valid() && pendingJob == null && sem == old(sem)
      ensures dropped <==> old(offset) >= 4 && old(offset) >= AsUnsigned(GetInt(old(length[..])))
      ensures View() == if dropped then NextPacket(old(View()))
                        else if old(offset) < 4 then StoreLength(config, old(View()), v)
                        else StoreData(old(View()), v)
      ensures incomingJob == old(incomingJob) || fresh(Filling())
    {
      dropped := false;
      if offset < 4 {
        StoreLengthByte(v);
      } else if offset >= AsUnsigned(GetInt(length[..])) {
        dropped := true;
        DropPacket();
      } else {
        StoreDataByte(v);
      }
    }

    /** Hands the finished packet over, if there is one, and posts in any case. */
    method Handover()
      requires Valid() && pendingJob == null
      modifies this
      ensures Valid()
      ensures View() == NextPacket(old(View())).(pending := old(View().incoming), posts := old(posts) + 1)
      ensures incomingJob == null && sem == old(sem) + 1
    {
      pendingJob, pendingStored := incomingJob, stored;
      incomingJob := null;
      sem, posts := sem + 1, posts + 1;
      DropPacket();
    }

    method TakeData(v: Byte)
      requires Valid() && pendingJob == null && insidePacket
      requires !StoreByte(config, View(), v).fault
      modifies this, length, Filling()
      ensures Valid() && View() == StoreByte(config, old(View()), v)
      ensures incomingJob == old(incomingJob) || fresh(Filling())
      ensures sem - old(sem) == posts - old(posts)
    {
      var dropped := PutByte(v);
      if dropped || !eopPrefix {
        return;
      }
      if offset != AsUnsigned(GetInt(length[..])) {
        DropPacket();
      } else {
        Handover();
      }
    }

    method TakeByte(byte: Byte)
      requires Valid() && pendingJob == null
      requires !Step(config, View(), byte).fault
      modifies this, length, Filling()
      ensures Valid() && View() == Step(config, old(View()), byte)
      ensures incomingJob == old(incomingJob) || fresh(Filling())
      ensures sem - old(sem) == posts - old(posts)
    {
      if byte == SOP {
        offset, insidePacket, eopPrefix := 0, true, false;
      } else if byte == EOP_PREFIX {
        eopPrefix := true;
      } else if byte == ESCAPE_PREFIX {
        escapePrefix := true;
      } else {
        var v := byte;
        if escapePrefix {
          v := EscapeXor(byte);
          escapePrefix := false;
        }
        if insidePacket {
          TakeData(v);
        }
      }
    }

    /** Accepts bytes until a job is pending. Which streams make it store outside an allocation is
        what `FaultsIff` states, and `OfferIsSafe` that an offer of any other stream does not. */
    method Accept(src: seq<Byte>) returns (readLen: nat)
      requires Valid() && !Feed(config, View(), src).0.fault
      modifies this, length, Filling()
      ensures Valid()
      ensures (View(), readLen) == Feed(config, old(View()), src)
      ensures sem - old(sem) == posts - old(posts)
    {
      readLen := 0;
      assert src[0..] == src;
      while readLen < |src| && pendingJob == null
        invariant Valid() && readLen <= |src|
        invariant incomingJob == old(incomingJob) || fresh(Filling())
        invariant var (t, n) := Feed(config, View(), src[readLen..]);
                  Feed(config, old(View()), src) == (t, n + readLen)
        invariant sem - old(sem) == posts - old(posts)
      {
        ghost var rest := src[readLen..];
        assert rest[1..] == src[readLen + 1..];
        if Step(config, View(), rest[0]).fault {
          FaultSticks(config, Step(config, View(), rest[0]), rest[1..]);
        }
        TakeByte(src[readLen]);
        readLen := readLen + 1;
      }
    }
  }
}
