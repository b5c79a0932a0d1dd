/** The sink of the RPC channel: it deframes requests byte by byte into a freshly granted
    job, and takes nothing more while a finished job waits for a worker. */
module RpcSink {
  import opened Bytes
  import opened AvalonSt
  import opened HostBridge
  import opened Demux
  import opened Options
  import Exposure

  /** `max` is the longest request accepted; `alloc(i)` says whether allocation `i` succeeds. */
  datatype Config = Config(max: int, alloc: nat -> bool)

  /** A granted request: how many bytes there is room for, and those stored so far. */
  datatype Job = Job(size: int, bytes: seq<Byte>)

  /** `fault` records a store outside an allocation; `posts` counts semaphore posts. */
  datatype Sink = Sink(
    escape: bool, eop: bool, inside: bool, offset: nat, length: seq<Byte>,
    incoming: Option<Job>, pending: Option<Job>, mallocs: nat, posts: nat, fault: bool)
  {
    predicate Valid() {
      |length| == 4
    }
  }

  const NEW_SINK := Sink(false, false, false, 0, [0, 0, 0, 0], None, None, 0, 0, false)

  function StoreLength(c: Config, s: Sink, v: Byte): (r: Sink)
    requires s.Valid() && s.offset < 4
    ensures r.Valid()
  {
    var t := s.(length := s.length[s.offset := v], offset := s.offset + 1);
    var size := GetInt(t.length);
    if t.offset == 4 && size <= c.max then
      t.(incoming := if c.alloc(t.mallocs) then Some(Job(size, t.length)) else None,
         mallocs := t.mallocs + 1, fault := t.fault || (c.alloc(t.mallocs) && size < 4))
    else t
  }

  function StoreData(s: Sink, v: Byte): (r: Sink)
    requires s.Valid()
    ensures r.Valid()
  {
    if s.incoming.None? then s
    else
      var job := s.incoming.value;
      if s.offset < job.size && s.offset < |job.bytes| then
        s.(incoming := Some(job.(bytes := job.bytes[s.offset := v])), offset := s.offset + 1)
      else if s.offset < job.size && s.offset == |job.bytes| then
        s.(incoming := Some(job.(bytes := job.bytes + [v])), offset := s.offset + 1)
      else s.(fault := true)
  }

  function NextPacket(s: Sink): Sink {
    s.(incoming := None, offset := 0, eop := false, inside := false)
  }

  function StoreByte(c: Config, s: Sink, v: Byte): (r: Sink)
    requires s.Valid()
    ensures r.Valid()
  {
    if s.offset >= 4 && s.offset >= AsUnsigned(GetInt(s.length)) then NextPacket(s)
    else
      var t := if s.offset < 4 then StoreLength(c, s, v) else StoreData(s, v);
      if !t.eop then t
      else if t.offset != AsUnsigned(GetInt(t.length)) then NextPacket(t)
      else NextPacket(t).(pending := t.incoming, posts := t.posts + 1)
  }

  /** One turn of the byte loop, with no job pending. */
  function Step(c: Config, s: Sink, b: Byte): (r: Sink)
    requires s.Valid()
    ensures r.Valid()
  {
    if b == SOP then s.(offset := 0, inside := true, eop := false)
    else if b == EOP_PREFIX then s.(eop := true)
    else if b == ESCAPE_PREFIX then s.(escape := true)
    else
      var v := if s.escape then EscapeXor(b) else b;
      var t := s.(escape := false);
      if t.inside then StoreByte(c, t, v) else t
  }

  /** The loop over one buffer, and the count it returns. */
  function Feed(c: Config, s: Sink, bs: seq<Byte>): (r: (Sink, nat))
    requires s.Valid()
    ensures r.0.Valid() && r.1 <= |bs|
    decreases |bs|
  {
    if bs == [] || s.pending.Some? then (s, 0)
    else
      var (t, n) := Feed(c, Step(c, s, bs[0]), bs[1..]);
      (t, n + 1)
  }

  // ------------------------------------------------------------------ back-pressure

  /** The sink with a consumer that never keeps it waiting: finished jobs go straight to `jobs`. */
  datatype Free = Free(sink: Sink, jobs: seq<Job>)

  function Collect(f: Free): Free {
    match f.sink.pending
    case None => f
    case Some(job) => Free(f.sink.(pending := None), f.jobs + [job])
  }

  function FreeStep(c: Config, f: Free, b: Byte): (r: Free)
    requires f.sink.Valid()
    ensures r.sink.Valid()
  {
    Collect(Free(Step(c, f.sink, b), f.jobs))
  }

  function FreeRun(c: Config, f: Free, bs: seq<Byte>): (r: Free)
    requires f.sink.Valid()
    ensures r.sink.Valid()
  {
    if bs == [] then f else FreeStep(c, FreeRun(c, f, bs[..|bs| - 1]), bs[|bs| - 1])
  }

  lemma FreeNext(c: Config, f: Free, bs: seq<Byte>, b: Byte)
    requires f.sink.Valid()
    ensures FreeRun(c, f, bs + [b]) == FreeStep(c, FreeRun(c, f, bs), b)
  {
    assert (bs + [b])[..|bs|] == bs;
  }

  /** The real thing: bytes not yet accepted, the sink, and the jobs that workers have taken. */
  datatype World = World(sink: Sink, todo: seq<Byte>, taken: seq<Job>)

  /** The writer offers some of what is left, or a worker takes the pending job. */
  datatype Event = Offer(len: nat) | TakeJob

  function Happen(c: Config, w: World, e: Event): (r: World)
    requires w.sink.Valid()
    ensures r.sink.Valid()
  {
    match e
    case Offer(len) =>
      var (s, n) := Feed(c, w.sink, if len <= |w.todo| then w.todo[..len] else w.todo);
      w.(sink := s, todo := w.todo[n..])
    case TakeJob =>
      var f := Collect(Free(w.sink, w.taken));
      w.(sink := f.sink, taken := f.jobs)
  }

  function HappenAll(c: Config, w: World, es: seq<Event>): (r: World)
    requires w.sink.Valid()
    ensures r.sink.Valid()
  {
    if es == [] then w else Happen(c, HappenAll(c, w, es[..|es| - 1]), es[|es| - 1])
  }

  /** Between them, the jobs taken and the one pending are those of the bytes accepted. */
  ghost predicate KeepsPace(c: Config, f0: Free, all: seq<Byte>, w: World)
    requires f0.sink.Valid() && w.sink.Valid()
  {
    |w.todo| <= |all| && w.todo == all[|all| - |w.todo|..]
    && Collect(Free(w.sink, w.taken)) == FreeRun(c, f0, all[..|all| - |w.todo|])
  }

  lemma {:induction false} FeedKeepsPace(c: Config, f0: Free, all: seq<Byte>, w: World, len: nat)
    requires f0.sink.Valid() && w.sink.Valid()
    requires KeepsPace(c, f0, all, w) && len <= |w.todo|
    ensures var (s, n) := Feed(c, w.sink, w.todo[..len]);
            KeepsPace(c, f0, all, w.(sink := s, todo := w.todo[n..]))
    decreases len
  {
    var bs := w.todo[..len];
    if bs == [] || w.sink.pending.Some? {
      assert w.todo[0..] == w.todo;
    } else {
      var v := w.(sink := Step(c, w.sink, bs[0]), todo := w.todo[1..]);
      ByteKeepsPace(c, f0, all, w);
      assert v.todo[..len - 1] == bs[1..];
      FeedKeepsPace(c, f0, all, v, len - 1);
      var (s, n) := Feed(c, v.sink, bs[1..]);
      assert v.todo[n..] == w.todo[n + 1..];
    }
  }

  lemma {:induction false} ByteKeepsPace(c: Config, f0: Free, all: seq<Byte>, w: World)
    requires f0.sink.Valid() && w.sink.Valid() && w.sink.pending.None?
    requires KeepsPace(c, f0, all, w) && w.todo != []
    ensures KeepsPace(c, f0, all, w.(sink := Step(c, w.sink, w.todo[0]), todo := w.todo[1..]))
  {
    var at := |all| - |w.todo|;
    CutNext(all, at);
    FreeNext(c, f0, all[..at], w.todo[0]);
  }

  lemma CutNext(all: seq<Byte>, at: nat)
    requires at < |all|
    ensures all[..at + 1] == all[..at] + [all[at]] && all[at..][1..] == all[at + 1..] && all[at..][0] == all[at]
  {
  }

  /** Back-pressure loses nothing, repeats nothing and reorders nothing: under any schedule of
      offers, of any sizes, and takes, the jobs handed over are those of a sink that is never
      held up, for every byte stream whatever. */
  lemma {:induction false} BackPressureIsInvisible(c: Config, s: Sink, all: seq<Byte>, es: seq<Event>)
    requires s.Valid() && s.pending.None?
    ensures KeepsPace(c, Free(s, []), all, HappenAll(c, World(s, all, []), es))
  {
    if es == [] {
      assert all[|all| - |all|..] == all && all[..0] == [];
    } else {
      var n := |es| - 1;
      BackPressureIsInvisible(c, s, all, es[..n]);
      var w := HappenAll(c, World(s, all, []), es[..n]);
      if es[n].Offer? {
        var len := if es[n].len <= |w.todo| then es[n].len else |w.todo|;
        assert w.todo[..|w.todo|] == w.todo;
        FeedKeepsPace(c, Free(s, []), all, w, len);
      }
    }
  }

  /** An offer is accepted byte by byte until a job is pending, and only then is the rest refused. */
  lemma {:induction false} FeedStopsForJob(c: Config, s: Sink, bs: seq<Byte>)
    requires s.Valid()
    ensures var (t, n) := Feed(c, s, bs);
            && (n == |bs| || t.pending.Some?)
            && (s.pending.None? && bs != [] ==> n > 0)
            && (s.pending.Some? ==> n == 0 && t == s)
    decreases |bs|
  {
    if bs != [] && s.pending.None? {
      FeedStopsForJob(c, Step(c, s, bs[0]), bs[1..]);
    }
  }

  /** A byte at a time, each job taken at once. */
  function OneByOne(n: nat): seq<Event> {
    if n == 0 then [] else OneByOne(n - 1) + [Offer(1)] + [TakeJob]
  }

  lemma {:induction false} DrainedTo(c: Config, s: Sink, all: seq<Byte>, n: nat)
    requires s.Valid() && s.pending.None? && n <= |all|
    ensures var w := HappenAll(c, World(s, all, []), OneByOne(n));
            w.todo == all[n..] && w.sink.pending.None?
  {
    if n > 0 {
      DrainedTo(c, s, all, n - 1);
      var es := OneByOne(n - 1);
      var w := HappenAll(c, World(s, all, []), es);
      assert (es + [Offer(1)])[..|es|] == es;
      assert (es + [Offer(1)] + [TakeJob])[..|es| + 1] == es + [Offer(1)];
      OneOffered(c, w);
      assert all[n - 1..][1..] == all[n..];
    }
  }

  lemma OneOffered(c: Config, w: World)
    requires w.sink.Valid() && w.sink.pending.None? && w.todo != []
    ensures Happen(c, w, Offer(1)).todo == w.todo[1..]
  {
    assert Feed(c, w.sink, w.todo[..1]).1 == 1;
  }

  /** So every stream can be taken in, and then all its jobs have been handed over. */
  lemma CanDrain(c: Config, s: Sink, all: seq<Byte>)
    requires s.Valid() && s.pending.None?
    ensures var w := HappenAll(c, World(s, all, []), OneByOne(|all|));
            w.todo == [] && w.sink.pending.None? && w.taken == FreeRun(c, Free(s, []), all).jobs
  {
    DrainedTo(c, s, all, |all|);
    BackPressureIsInvisible(c, s, all, OneByOne(|all|));
    assert all[..|all|] == all;
  }

  /** Not one of the three bytes that the sink treats specially. */
  predicate IsData(b: Byte) {
    b != SOP && b != EOP_PREFIX && b != ESCAPE_PREFIX
  }

  // ------------------------------------------------------- which packets become jobs

  datatype Admission = Admission(jobs: seq<Job>, mallocs: nat)

  /** A packet becomes a job when its length field fits, its buffer could be granted, and it
      is as long as the field says. */
  function Admit(c: Config, a: Admission, p: seq<Byte>): Admission {
    if |p| < 4 || GetInt(p[..4]) > c.max then a
    else
      Admission(
        if c.alloc(a.mallocs) && |p| == GetInt(p[..4]) then a.jobs + [Job(|p|, p)] else a.jobs,
        a.mallocs + 1)
  }

  function AdmitAll(c: Config, a: Admission, ps: seq<seq<Byte>>): Admission {
    if ps == [] then a else Admit(c, AdmitAll(c, a, ps[..|ps| - 1]), ps[|ps| - 1])
  }

  /** The packet makes the sink store outside an allocation: its length field does not cover even
      itself, and it is granted a buffer all the same. */
  predicate Overruns(c: Config, mallocs: nat, p: seq<Byte>) {
    |p| >= 4 && GetInt(p[..4]) < 4 && GetInt(p[..4]) <= c.max && c.alloc(mallocs)
  }

  /** No packet so far does, nor does the one under way. */
  ghost predicate SanePackets(c: Config, a0: Admission, ps: seq<seq<Byte>>) {
    ps == [] ||
    var n := |ps| - 1;
    SanePackets(c, a0, ps[..n]) && !Overruns(c, AdmitAll(c, a0, ps[..n]).mallocs, ps[n])
  }

  ghost predicate SaneAll(c: Config, a0: Admission, g: Deframer) {
    SanePackets(c, a0, g.packets)
    && (g.inside ==> !Overruns(c, AdmitAll(c, a0, g.packets).mallocs, g.data))
  }

  /** A sink that may still hold the buffer of a packet that was cut off (`resync`) must be sent a
      length field that replaces it. */
  predicate Replaces(c: Config, resync: bool, p: seq<Byte>) {
    resync && |p| >= 4 ==> GetInt(p[..4]) <= c.max
  }

  ghost predicate ReplacesAll(c: Config, resync: bool, g: Deframer) {
    && (forall p :: p in g.packets ==> Replaces(c, resync, p) && (resync ==> |p| >= 4))
    && (g.inside ==> Replaces(c, resync, g.data))
  }

  ghost predicate InPacket(c: Config, s: Sink, data: seq<Byte>, mallocs: nat)
    requires s.Valid()
  {
    if |data| < 4 then
      s.inside && s.offset == |data| && s.length[..s.offset] == data && s.mallocs == mallocs
    else
      var size := GetInt(data[..4]);
      var granted := size <= c.max && c.alloc(mallocs);
      && s.mallocs == mallocs + (if size <= c.max then 1 else 0)
      && (s.incoming.Some? ==> s.inside)
      && if !s.inside then |data| > size
         else
           && s.length == data[..4]
           && if granted then
                s.incoming == Some(Job(size, data)) && s.offset == |data| <= size
              else s.incoming.None? && s.offset == 4
  }

  /** What a byte of a packet, `p` so far, makes of `s`. */
  ghost predicate Stored(c: Config, s: Sink, t: Sink, p: seq<Byte>, mallocs: nat)
    requires t.Valid()
  {
    && t.escape == s.escape && !t.fault
    && if !s.eop then
         InPacket(c, t, p, mallocs) && t.pending.None? && !t.eop && t.posts == s.posts
         && (|p| < 4 ==> t.incoming == s.incoming)
       else
         var a := Admit(c, Admission([], mallocs), p);
         !t.inside && t.incoming.None? && t.mallocs == a.mallocs
         && (|p| >= 5 ==> t.posts == s.posts + if t.pending.Some? then 1 else 0)
         && a.jobs == (if t.pending.Some? then [t.pending.value] else [])
  }

  lemma StoreByteInPacket(c: Config, s: Sink, data: seq<Byte>, v: Byte, mallocs: nat)
    requires s.Valid() && s.inside && s.pending.None? && !s.fault
    requires InPacket(c, s, data, mallocs) && !Overruns(c, mallocs, data + [v])
    requires |data| == 3 && s.incoming.Some? ==> GetInt(data + [v]) <= c.max
    requires |data| < 3 && s.incoming.Some? ==> !s.eop
    ensures Stored(c, s, StoreByte(c, s, v), data + [v], mallocs)
  {
    if |data| < 3 {
      assert s.length[s.offset := v][..s.offset + 1] == data + [v];
    } else if |data| == 3 {
      StoreFourthByte(c, s, data, v, mallocs);
    } else {
      StoreLaterByte(c, s, data, v, mallocs);
    }
  }

  lemma StoreFourthByte(c: Config, s: Sink, data: seq<Byte>, v: Byte, mallocs: nat)
    requires s.Valid() && s.inside && s.pending.None? && !s.fault && |data| == 3
    requires InPacket(c, s, data, mallocs) && !Overruns(c, mallocs, data + [v])
    requires s.incoming.Some? ==> GetInt(data + [v]) <= c.max
    ensures Stored(c, s, StoreByte(c, s, v), data + [v], mallocs)
  {
    var p := data + [v];
    assert p[..4] == p && p[3] == v;
    FourthByte(c, s, p);
  }

  lemma StoreLaterByte(c: Config, s: Sink, data: seq<Byte>, v: Byte, mallocs: nat)
    requires s.Valid() && s.inside && s.pending.None? && !s.fault && |data| >= 4
    requires InPacket(c, s, data, mallocs) && !Overruns(c, mallocs, data + [v])
    ensures Stored(c, s, StoreByte(c, s, v), data + [v], mallocs)
  {
    assert (data + [v])[..4] == data[..4];
  }

  /** The fourth byte of a length field that is granted too small a buffer. */
  lemma OverrunFaults(c: Config, s: Sink, data: seq<Byte>, v: Byte, mallocs: nat)
    requires s.Valid() && s.inside && InPacket(c, s, data, mallocs)
    requires !Overruns(c, mallocs, data) && Overruns(c, mallocs, data + [v])
    ensures StoreByte(c, s, v).fault
  {
    var p := data + [v];
    OverrunsAtFour(c, mallocs, data, v);
    assert s.length[3 := v] == p && p[..4] == p;
  }

  lemma OverrunsAtFour(c: Config, mallocs: nat, data: seq<Byte>, v: Byte)
    ensures |data| >= 4 ==> (Overruns(c, mallocs, data + [v]) <==> Overruns(c, mallocs, data))
    ensures Overruns(c, mallocs, data + [v]) && !Overruns(c, mallocs, data) ==> |data| == 3
  {
    if |data| >= 4 {
      assert (data + [v])[..4] == data[..4];
    }
  }

  /** The sink, its jobs starting from `a0`, set against a deframer of the same bytes. */
  ghost predicate Follows(c: Config, resync: bool, a0: Admission, f: Free, g: Deframer) {
    var s := f.sink;
    var a := AdmitAll(c, a0, g.packets);
    && s.Valid() && s.escape == g.escape && s.pending.None? && !s.fault && f.jobs == a.jobs
    && if !g.inside then !s.inside && s.incoming.None? && s.mallocs == a.mallocs
       else
         && InPacket(c, s, g.data, a.mallocs)
         && (s.inside ==> s.eop == g.eop)
         && (|g.data| < 4 && !resync ==> s.incoming.None?)
  }

  lemma FollowsDropped(c: Config, resync: bool, a0: Admission, f: Free, g: Deframer, v: Byte)
    requires Follows(c, resync, a0, f, g) && g.inside && !f.sink.inside
    requires !g.escape
    ensures var p := g.data + [v];
            var h := if g.eop then Deframer(false, false, false, [], g.packets + [p]) else g.(data := p);
            Follows(c, resync, a0, f, h)
  {
    var p := g.data + [v];
    assert p[..4] == g.data[..4];
    assert (g.packets + [p])[..|g.packets|] == g.packets;
  }

  lemma FollowsData(c: Config, resync: bool, a0: Admission, f: Free, g: Deframer, v: Byte)
    requires Follows(c, resync, a0, f, g) && f.sink.inside && g.inside && !g.escape
    requires var p := g.data + [v];
             !Overruns(c, AdmitAll(c, a0, g.packets).mallocs, p)
             && Replaces(c, resync, p) && (resync && g.eop ==> |p| >= 4)
    ensures var p := g.data + [v];
            var h := if g.eop then Deframer(false, false, false, [], g.packets + [p]) else g.(data := p);
            Follows(c, resync, a0, Collect(Free(StoreByte(c, f.sink, v), f.jobs)), h)
  {
    var p := g.data + [v];
    StoreByteInPacket(c, f.sink, g.data, v, AdmitAll(c, a0, g.packets).mallocs);
    assert (g.packets + [p])[..|g.packets|] == g.packets;
  }

  lemma AdmitNext(c: Config, a0: Admission, ps: seq<seq<Byte>>, p: seq<Byte>)
    ensures AdmitAll(c, a0, ps + [p]) == Admit(c, AdmitAll(c, a0, ps), p)
    ensures SanePackets(c, a0, ps + [p]) <==>
            SanePackets(c, a0, ps) && !Overruns(c, AdmitAll(c, a0, ps).mallocs, p)
  {
    assert (ps + [p])[..|ps|] == ps;
  }

  /** What a packet is that its next byte, `v`, would complete or continue. */
  lemma SaneNext(c: Config, a0: Admission, g: Deframer, b: Byte)
    requires b == SOP ==> !g.inside
    ensures var p := g.data + [if g.escape then EscapeXor(b) else b];
            SaneAll(c, a0, Accept(g, b)) <==>
            SaneAll(c, a0, g)
            && (IsData(b) && g.inside ==> !Overruns(c, AdmitAll(c, a0, g.packets).mallocs, p))
  {
    var v := if g.escape then EscapeXor(b) else b;
    var p := g.data + [v];
    assert |g.data| >= 4 ==> p[..4] == g.data[..4];
    if IsData(b) && g.inside && g.eop {
      AdmitNext(c, a0, g.packets, p);
    }
  }

  lemma ReplacesNext(c: Config, resync: bool, g: Deframer, b: Byte)
    requires ReplacesAll(c, resync, Accept(g, b)) && (b == SOP ==> !g.inside)
    ensures ReplacesAll(c, resync, g)
    ensures var p := g.data + [if g.escape then EscapeXor(b) else b];
            IsData(b) && g.inside ==> Replaces(c, resync, p) && (resync && g.eop ==> |p| >= 4)
  {
    var h := Accept(g, b);
    var p := g.data + [if g.escape then EscapeXor(b) else b];
    forall q | q in g.packets
      ensures q in h.packets
    {
    }
    if IsData(b) && g.inside {
      assert g.eop ==> h.packets[|h.packets| - 1] == p;
      assert |g.data| >= 4 ==> p[..4] == g.data[..4];
    }
  }

  lemma FollowsStep(c: Config, resync: bool, a0: Admission, f: Free, g: Deframer, b: Byte)
    requires Follows(c, resync, a0, f, g)
    requires b == SOP ==> !g.inside
    requires SaneAll(c, a0, Accept(g, b)) && ReplacesAll(c, resync, Accept(g, b))
    ensures Follows(c, resync, a0, FreeStep(c, f, b), Accept(g, b))
  {
    if IsData(b) && g.inside {
      var v := if g.escape then EscapeXor(b) else b;
      var f1, g1 := f.(sink := f.sink.(escape := false)), g.(escape := false);
      assert Follows(c, resync, a0, f1, g1);
      SaneNext(c, a0, g, b);
      ReplacesNext(c, resync, g, b);
      if f.sink.inside {
        FollowsData(c, resync, a0, f1, g1, v);
      } else {
        FollowsDropped(c, resync, a0, f1, g1, v);
      }
    }
  }

  lemma {:induction false} FollowsRun(c: Config, resync: bool, a0: Admission, f: Free, g: Deframer, bs: seq<Byte>)
    requires Follows(c, resync, a0, f, g) && Bracketed(g, bs)
    requires SaneAll(c, a0, AcceptAll(g, bs)) && ReplacesAll(c, resync, AcceptAll(g, bs))
    ensures Follows(c, resync, a0, FreeRun(c, f, bs), AcceptAll(g, bs))
  {
    if bs != [] {
      var n := |bs| - 1;
      SaneNext(c, a0, AcceptAll(g, bs[..n]), bs[n]);
      ReplacesNext(c, resync, AcceptAll(g, bs[..n]), bs[n]);
      FollowsRun(c, resync, a0, f, g, bs[..n]);
      FollowsStep(c, resync, a0, FreeRun(c, f, bs[..n]), AcceptAll(g, bs[..n]), bs[n]);
    }
  }

  const NONE_YET := Admission([], 0)

  lemma StoreByteFault(c: Config, s: Sink, v: Byte)
    requires s.Valid() && s.fault
    ensures StoreByte(c, s, v).fault
  {
  }

  lemma FaultStays(c: Config, s: Sink, b: Byte)
    requires s.Valid() && s.fault
    ensures Step(c, s, b).fault
  {
    if IsData(b) && s.inside {
      StoreByteFault(c, s.(escape := false), if s.escape then EscapeXor(b) else b);
    }
  }

  /** The last byte of `bs` is the one that stores outside an allocation. */
  lemma FaultsHere(c: Config, f: Free, g: Deframer, b: Byte)
    requires Follows(c, false, NONE_YET, f, g) && (b == SOP ==> !g.inside)
    requires SaneAll(c, NONE_YET, g) && !SaneAll(c, NONE_YET, Accept(g, b))
    ensures FreeStep(c, f, b).sink.fault
  {
    SaneNext(c, NONE_YET, g, b);
    var v := if g.escape then EscapeXor(b) else b;
    var mallocs := AdmitAll(c, NONE_YET, g.packets).mallocs;
    OverrunFaults(c, f.sink.(escape := false), g.data, v, mallocs);
  }

  /** On any bracketed line, the sink stores outside an allocation if and only if some length field
      that is within the maximum, and granted, is below 4. */
  lemma {:induction false} FaultsIff(c: Config, bs: seq<Byte>)
    requires Bracketed(NEW_DEFRAMER, bs)
    ensures FreeRun(c, Free(NEW_SINK, []), bs).sink.fault <==> !SaneAll(c, NONE_YET, AcceptAll(NEW_DEFRAMER, bs))
  {
    if bs != [] {
      var n := |bs| - 1;
      var g := AcceptAll(NEW_DEFRAMER, bs[..n]);
      var f := FreeRun(c, Free(NEW_SINK, []), bs[..n]);
      FaultsIff(c, bs[..n]);
      SaneNext(c, NONE_YET, g, bs[n]);
      if !SaneAll(c, NONE_YET, g) {
        FaultStays(c, f.sink, bs[n]);
      } else {
        FollowsRun(c, false, NONE_YET, Free(NEW_SINK, []), NEW_DEFRAMER, bs[..n]);
        if SaneAll(c, NONE_YET, Accept(g, bs[n])) {
          FollowsStep(c, false, NONE_YET, f, g, bs[n]);
        } else {
          FaultsHere(c, f, g, bs[n]);
        }
      }
    }
  }

  /** On any bracketed line on which it does not, the jobs it produces are, in order, exactly the
      packets that admission lets through. */
  lemma SinkAdmitsPackets(c: Config, bs: seq<Byte>)
    requires Bracketed(NEW_DEFRAMER, bs)
    requires !FreeRun(c, Free(NEW_SINK, []), bs).sink.fault
    ensures FreeRun(c, Free(NEW_SINK, []), bs).jobs
         == AdmitAll(c, NONE_YET, AcceptAll(NEW_DEFRAMER, bs).packets).jobs
  {
    FaultsIff(c, bs);
    FollowsRun(c, false, NONE_YET, Free(NEW_SINK, []), NEW_DEFRAMER, bs);
  }

  lemma {:induction false} FaultStaysInRun(c: Config, f: Free, bs: seq<Byte>)
    requires f.sink.Valid() && f.sink.fault
    ensures FreeRun(c, f, bs).sink.fault
  {
    if bs != [] {
      FaultStaysInRun(c, f, bs[..|bs| - 1]);
      FaultStays(c, FreeRun(c, f, bs[..|bs| - 1]).sink, bs[|bs| - 1]);
    }
  }

  lemma FaultOfPrefix(c: Config, f: Free, all: seq<Byte>, n: nat)
    requires f.sink.Valid() && n <= |all| && FreeRun(c, f, all[..n]).sink.fault
    ensures FreeRun(c, f, all).sink.fault
  {
    FaultOfFirst(c, f, all[..n], all[n..]);
    assert all == all[..n] + all[n..];
  }

  lemma FaultOfFirst(c: Config, f: Free, a: seq<Byte>, b: seq<Byte>)
    requires f.sink.Valid() && FreeRun(c, f, a).sink.fault
    ensures FreeRun(c, f, a + b).sink.fault
  {
    FreeRunConcat(c, f, a, b);
    FaultStaysInRun(c, FreeRun(c, f, a), b);
  }

  /** Whatever the schedule, no offer makes the sink store outside an allocation unless the stream
      does so to a sink that is never held up. */
  lemma OfferIsSafe(c: Config, s: Sink, all: seq<Byte>, es: seq<Event>, len: nat)
    requires s.Valid() && s.pending.None? && !FreeRun(c, Free(s, []), all).sink.fault
    requires len <= |HappenAll(c, World(s, all, []), es).todo|
    ensures var w := HappenAll(c, World(s, all, []), es); !Feed(c, w.sink, w.todo[..len]).0.fault
  {
    BackPressureIsInvisible(c, s, all, es);
    var w := HappenAll(c, World(s, all, []), es);
    FeedKeepsPace(c, Free(s, []), all, w, len);
    var (t, n) := Feed(c, w.sink, w.todo[..len]);
    PaceIsSafe(c, Free(s, []), all, w.(sink := t, todo := w.todo[n..]));
  }

  lemma PaceIsSafe(c: Config, f0: Free, all: seq<Byte>, w: World)
    requires f0.sink.Valid() && w.sink.Valid() && KeepsPace(c, f0, all, w)
    requires !FreeRun(c, f0, all).sink.fault
    ensures !w.sink.fault
  {
    if FreeRun(c, f0, all[..|all| - |w.todo|]).sink.fault {
      FaultOfPrefix(c, f0, all, |all| - |w.todo|);
    }
  }

  // -------------------------------------------------------------------- posts and their jobs

  /** The length bytes once those of `p` have come in, over what they were before. */
  function Stamp(stale: seq<Byte>, p: seq<Byte>): (r: seq<Byte>)
    requires |stale| == 4
    ensures |r| == 4
  {
    if |p| >= 4 then p[..4] else p + stale[|p|..]
  }

  function LengthAfter(ps: seq<seq<Byte>>): (r: seq<Byte>)
    ensures |r| == 4
  {
    if ps == [] then [0, 0, 0, 0] else Stamp(LengthAfter(ps[..|ps| - 1]), ps[|ps| - 1])
  }

  /** The packet posts although it leaves no job: it is too short to have a length of its own and
      is as long as the bytes left from before say; or it is nothing but a length, which it has
      right, and there is no buffer for it. */
  predicate PostsEmpty(c: Config, mallocs: nat, stale: seq<Byte>, p: seq<Byte>)
    requires |stale| == 4
  {
    || (|p| < 4 && GetInt(Stamp(stale, p)) == |p|)
    || (|p| == 4 && GetInt(p) == 4 && !(4 <= c.max && c.alloc(mallocs)))
  }

  /** The post that one packet makes, if it makes one: whether it has a job. */
  function PostOf(c: Config, mallocs: nat, stale: seq<Byte>, p: seq<Byte>): seq<bool>
    requires |stale| == 4
  {
    if Admit(c, Admission([], mallocs), p).jobs != [] then [true]
    else if PostsEmpty(c, mallocs, stale, p) then [false] else []
  }

  function PostsOf(c: Config, ps: seq<seq<Byte>>): seq<bool> {
    if ps == [] then []
    else
      var n := |ps| - 1;
      PostsOf(c, ps[..n])
      + PostOf(c, AdmitAll(c, NONE_YET, ps[..n]).mallocs, LengthAfter(ps[..n]), ps[n])
  }

  /** The posts of a run, in order: whether each had a job. */
  function Posts(c: Config, f: Free, bs: seq<Byte>): seq<bool>
    requires f.sink.Valid()
  {
    if bs == [] then []
    else
      var n := |bs| - 1;
      Posts(c, f, bs[..n]) + PostIn(c, FreeRun(c, f, bs[..n]).sink, bs[n])
  }

  function PostIn(c: Config, s: Sink, b: Byte): seq<bool>
    requires s.Valid()
  {
    PostBetween(s, Step(c, s, b))
  }

  function PostBetween(s: Sink, t: Sink): seq<bool> {
    if t.posts > s.posts then [t.pending.Some?] else []
  }

  lemma StampNext(stale: seq<Byte>, data: seq<Byte>, v: Byte)
    requires |stale| == 4
    ensures |data| < 4 ==> Stamp(stale, data)[|data| := v] == Stamp(stale, data + [v])
    ensures |data| >= 4 ==> Stamp(stale, data) == Stamp(stale, data + [v])
  {
  }

  /** The last byte of a packet. */
  lemma {:induction false} PostOfLastByte(c: Config, s: Sink, data: seq<Byte>, v: Byte, stale: seq<Byte>, mallocs: nat)
    requires s.Valid() && s.inside && s.pending.None? && !s.fault && s.eop
    requires InPacket(c, s, data, mallocs) && !Overruns(c, mallocs, data + [v])
    requires |data| < 4 ==> s.incoming.None?
    requires |stale| == 4 && s.length == Stamp(stale, data)
    ensures PostBetween(s, StoreByte(c, s, v)) == PostOf(c, mallocs, stale, data + [v])
  {
    StampNext(stale, data, v);
    if |data| < 4 {
      ShortLastByte(c, s, data, v, stale, mallocs);
    } else {
      assert (data + [v])[..4] == data[..4];
    }
  }

  lemma ShortLastByte(c: Config, s: Sink, data: seq<Byte>, v: Byte, stale: seq<Byte>, mallocs: nat)
    requires s.Valid() && s.inside && s.pending.None? && s.eop && s.incoming.None?
    requires |data| < 4 && s.offset == |data| && s.mallocs == mallocs && !Overruns(c, mallocs, data + [v])
    requires |stale| == 4 && s.length[|data| := v] == Stamp(stale, data + [v])
    ensures PostBetween(s, StoreByte(c, s, v)) == PostOf(c, mallocs, stale, data + [v])
  {
    var p := data + [v];
    if |data| == 3 {
      assert p[..4] == p;
    }
  }

  ghost predicate LengthFollows(f: Free, g: Deframer) {
    f.sink.length == Stamp(LengthAfter(g.packets), if g.inside then g.data else [])
  }

  function Undo(escape: bool, b: Byte): Byte {
    if escape then EscapeXor(b) else b
  }

  /** A data byte, for a sink that may have dropped the packet already. */
  lemma DataStep(c: Config, f: Free, b: Byte)
    requires f.sink.Valid() && IsData(b)
    ensures var s := f.sink.(escape := false);
            var v := Undo(f.sink.escape, b);
            Step(c, f.sink, b) == if s.inside then StoreByte(c, s, v) else s
    ensures FreeStep(c, f, b).sink.length == Step(c, f.sink, b).length
  {
  }

  lemma LengthStored(c: Config, s: Sink, v: Byte)
    requires s.Valid()
    ensures s.offset >= 4 ==> StoreByte(c, s, v).length == s.length
    ensures s.offset < 4 ==> StoreByte(c, s, v).length == s.length[s.offset := v]
  {
    if s.offset < 4 {
      assert StoreLength(c, s, v).length == s.length[s.offset := v];
    } else {
      assert StoreData(s, v).length == s.length;
    }
  }

  lemma {:induction false} LengthOfData(c: Config, s: Sink, data: seq<Byte>, v: Byte, stale: seq<Byte>, mallocs: nat)
    requires s.Valid() && InPacket(c, s, data, mallocs)
    requires |stale| == 4 && s.length == Stamp(stale, data)
    ensures (if s.inside then StoreByte(c, s, v) else s).length == Stamp(stale, data + [v])
  {
    StampNext(stale, data, v);
    if s.inside {
      LengthStored(c, s, v);
    }
  }

  lemma LengthAfterNext(ps: seq<seq<Byte>>, p: seq<Byte>)
    ensures LengthAfter(ps + [p]) == Stamp(LengthAfter(ps), p)
    ensures Stamp(LengthAfter(ps), []) == LengthAfter(ps)
  {
    assert (ps + [p])[..|ps|] == ps;
  }

  lemma {:induction false} LengthStepData(c: Config, f: Free, g: Deframer, b: Byte)
    requires f.sink.Valid() && f.sink.escape == g.escape && IsData(b) && g.inside
    requires InPacket(c, f.sink, g.data, AdmitAll(c, NONE_YET, g.packets).mallocs)
    requires LengthFollows(f, g)
    ensures LengthFollows(FreeStep(c, f, b), Accept(g, b))
  {
    DataStep(c, f, b);
    var p := g.data + [Undo(g.escape, b)];
    var mallocs := AdmitAll(c, NONE_YET, g.packets).mallocs;
    LengthOfData(c, f.sink.(escape := false), g.data, Undo(g.escape, b), LengthAfter(g.packets), mallocs);
    LengthAfterNext(g.packets, p);
    LengthAfterNext(g.packets + [p], []);
  }

  lemma {:induction false} LengthStep(c: Config, f: Free, g: Deframer, b: Byte)
    requires Follows(c, false, NONE_YET, f, g) && LengthFollows(f, g)
    requires b == SOP ==> !g.inside
    ensures LengthFollows(FreeStep(c, f, b), Accept(g, b))
  {
    if IsData(b) && g.inside {
      LengthStepData(c, f, g, b);
    } else {
      LengthStepOther(c, f, g, b);
    }
  }

  lemma LengthUntouched(c: Config, f: Free, b: Byte)
    requires f.sink.Valid() && (!IsData(b) || !f.sink.inside)
    ensures FreeStep(c, f, b).sink.length == f.sink.length
  {
    assert Step(c, f.sink, b).length == f.sink.length;
  }

  lemma PacketsUntouched(g: Deframer, b: Byte)
    requires (b == SOP ==> !g.inside) && (!IsData(b) || !g.inside)
    ensures var h := Accept(g, b);
            h.packets == g.packets && (if h.inside then h.data else []) == if g.inside then g.data else []
  {
  }

  lemma LengthStepOther(c: Config, f: Free, g: Deframer, b: Byte)
    requires f.sink.Valid() && (!g.inside ==> !f.sink.inside) && LengthFollows(f, g)
    requires (b == SOP ==> !g.inside) && (!IsData(b) || !g.inside)
    ensures LengthFollows(FreeStep(c, f, b), Accept(g, b))
  {
    PacketsUntouched(g, b);
    LengthUntouched(c, f, b);
  }

  lemma PostsOfNext(c: Config, ps: seq<seq<Byte>>, p: seq<Byte>)
    ensures PostsOf(c, ps + [p]) ==
            PostsOf(c, ps) + PostOf(c, AdmitAll(c, NONE_YET, ps).mallocs, LengthAfter(ps), p)
  {
    assert (ps + [p])[..|ps|] == ps;
  }

  /** A byte of a packet that is not its last one posts nothing, nor does one that comes too late. */
  lemma NoPost(c: Config, s: Sink, data: seq<Byte>, v: Byte, stale: seq<Byte>, mallocs: nat)
    requires s.Valid() && s.pending.None? && !s.fault && InPacket(c, s, data, mallocs)
    requires !Overruns(c, mallocs, data + [v]) && (|data| < 4 ==> s.incoming.None?)
    requires |stale| == 4
    ensures s.inside && !s.eop ==> PostBetween(s, StoreByte(c, s, v)) == []
    ensures !s.inside ==> PostOf(c, mallocs, stale, data + [v]) == []
  {
    if s.inside && !s.eop {
      StoreByteInPacket(c, s, data, v, mallocs);
    }
    if !s.inside {
      assert (data + [v])[..4] == data[..4];
    }
  }

  lemma {:induction false} PostStepData(c: Config, s: Sink, g: Deframer, v: Byte)
    requires s.Valid() && s.pending.None? && !s.fault && (s.inside ==> s.eop == g.eop)
    requires InPacket(c, s, g.data, AdmitAll(c, NONE_YET, g.packets).mallocs)
    requires |g.data| < 4 ==> s.incoming.None?
    requires s.length == Stamp(LengthAfter(g.packets), g.data)
    requires !Overruns(c, AdmitAll(c, NONE_YET, g.packets).mallocs, g.data + [v])
    ensures var posted := if s.inside then PostBetween(s, StoreByte(c, s, v)) else [];
            if g.eop then PostsOf(c, g.packets + [g.data + [v]]) == PostsOf(c, g.packets) + posted
            else posted == []
  {
    var stale := LengthAfter(g.packets);
    var mallocs := AdmitAll(c, NONE_YET, g.packets).mallocs;
    NoPost(c, s, g.data, v, stale, mallocs);
    PostsOfNext(c, g.packets, g.data + [v]);
    if g.eop && s.inside {
      PostOfLastByte(c, s, g.data, v, stale, mallocs);
    }
  }

  lemma NothingPosted(cs: seq<bool>)
    ensures cs + [] == cs
  {
  }

  lemma {:induction false} PostStep(c: Config, f: Free, g: Deframer, b: Byte)
    requires Follows(c, false, NONE_YET, f, g) && LengthFollows(f, g)
    requires b == SOP ==> !g.inside
    requires SaneAll(c, NONE_YET, Accept(g, b))
    ensures PostsOf(c, Accept(g, b).packets) == PostsOf(c, g.packets) + PostIn(c, f.sink, b)
  {
    NothingPosted(PostsOf(c, g.packets));
    if IsData(b) && g.inside {
      var v := Undo(g.escape, b);
      SaneNext(c, NONE_YET, g, b);
      DataStep(c, f, b);
      PostStepData(c, f.sink.(escape := false), g, v);
      PostBetweenIgnores(c, f.sink, b);
    }
  }

  lemma PostBetweenIgnores(c: Config, s: Sink, b: Byte)
    requires s.Valid() && IsData(b)
    ensures var t := s.(escape := false);
            PostIn(c, s, b) == if s.inside then PostBetween(t, StoreByte(c, t, Undo(s.escape, b))) else []
  {
  }

  /** The posts of a run, and whether each has a job, are exactly those that its packets call for. */
  lemma {:induction false} PostsFollowPackets(c: Config, bs: seq<Byte>)
    requires Bracketed(NEW_DEFRAMER, bs)
    requires !FreeRun(c, Free(NEW_SINK, []), bs).sink.fault
    ensures LengthFollows(FreeRun(c, Free(NEW_SINK, []), bs), AcceptAll(NEW_DEFRAMER, bs))
    ensures Posts(c, Free(NEW_SINK, []), bs) == PostsOf(c, AcceptAll(NEW_DEFRAMER, bs).packets)
  {
    var f0 := Free(NEW_SINK, []);
    if bs != [] {
      var n := |bs| - 1;
      var g := AcceptAll(NEW_DEFRAMER, bs[..n]);
      SaneNext(c, NONE_YET, g, bs[n]);
      FaultsIff(c, bs);
      FaultsIff(c, bs[..n]);
      PostsFollowPackets(c, bs[..n]);
      FollowsRun(c, false, NONE_YET, f0, NEW_DEFRAMER, bs[..n]);
      var f := FreeRun(c, f0, bs[..n]);
      LengthStep(c, f, g, bs[n]);
      PostStep(c, f, g, bs[n]);
    }
  }

  function CountOf(b: bool, cs: seq<bool>): nat {
    if cs == [] then 0 else CountOf(b, cs[..|cs| - 1]) + if cs[|cs| - 1] == b then 1 else 0
  }

  lemma CountNext(b: bool, cs: seq<bool>, x: bool)
    ensures CountOf(b, cs + [x]) == CountOf(b, cs) + if x == b then 1 else 0
  {
    assert (cs + [x])[..|cs|] == cs;
  }

  lemma StoreBytePosts(c: Config, s: Sink, v: Byte)
    requires s.Valid() && s.pending.None?
    ensures var t := StoreByte(c, s, v);
            t.posts == s.posts + |PostBetween(s, t)| && (t.pending.Some? ==> t.posts > s.posts)
  {
    var t := if s.offset < 4 then StoreLength(c, s, v) else StoreData(s, v);
    assert t.posts == s.posts && t.pending.None?;
  }

  lemma {:induction false} StepPosts(c: Config, s: Sink, b: Byte)
    requires s.Valid() && s.pending.None?
    ensures var t := Step(c, s, b);
            t.posts == s.posts + |PostIn(c, s, b)| && (t.pending.Some? ==> t.posts > s.posts)
  {
    if IsData(b) && s.inside {
      StoreBytePosts(c, s.(escape := false), Undo(s.escape, b));
    }
  }

  lemma CountStep(c: Config, f: Free, posts: seq<bool>, b: Byte)
    requires f.sink.Valid() && f.sink.pending.None?
    requires f.sink.posts == |posts| && |f.jobs| == CountOf(true, posts)
    ensures var r := FreeStep(c, f, b);
            var more := posts + PostIn(c, f.sink, b);
            r.sink.posts == |more| && |r.jobs| == CountOf(true, more) && r.sink.pending.None?
  {
    var t := Step(c, f.sink, b);
    StepPosts(c, f.sink, b);
    CountNext(true, posts, t.pending.Some?);
    assert posts + [] == posts;
  }

  lemma {:induction false} CountPosts(c: Config, bs: seq<Byte>)
    ensures var f := FreeRun(c, Free(NEW_SINK, []), bs);
            var posts := Posts(c, Free(NEW_SINK, []), bs);
            f.sink.posts == |posts| && |f.jobs| == CountOf(true, posts) && f.sink.pending.None?
  {
    if bs != [] {
      var n := |bs| - 1;
      CountPosts(c, bs[..n]);
      CountStep(c, FreeRun(c, Free(NEW_SINK, []), bs[..n]), Posts(c, Free(NEW_SINK, []), bs[..n]), bs[n]);
    }
  }

  lemma {:induction false} CountAll(cs: seq<bool>)
    ensures CountOf(true, cs) <= |cs|
    ensures CountOf(true, cs) == |cs| <==> false !in cs
  {
    if cs != [] {
      var n := |cs| - 1;
      CountAll(cs[..n]);
      assert cs == cs[..n] + [cs[n]];
    }
  }

  /** Packet `i` posts without a job. */
  predicate EmptyAt(c: Config, ps: seq<seq<Byte>>, i: nat)
    requires i < |ps|
  {
    PostsEmpty(c, AdmitAll(c, NONE_YET, ps[..i]).mallocs, LengthAfter(ps[..i]), ps[i])
  }

  ghost predicate SomeEmpty(c: Config, ps: seq<seq<Byte>>) {
    exists i: nat :: i < |ps| && EmptyAt(c, ps, i)
  }

  lemma SomeEmptyNext(c: Config, ps: seq<seq<Byte>>)
    requires ps != []
    ensures var n := |ps| - 1;
            SomeEmpty(c, ps) <==> SomeEmpty(c, ps[..n]) || EmptyAt(c, ps, n)
  {
    var n := |ps| - 1;
    forall i: nat | i < n
      ensures EmptyAt(c, ps, i) <==> EmptyAt(c, ps[..n], i)
    {
      assert ps[..n][..i] == ps[..i];
    }
    if SomeEmpty(c, ps[..n]) {
      var i: nat :| i < n && EmptyAt(c, ps[..n], i);
      assert EmptyAt(c, ps, i);
    }
  }

  lemma {:induction false} EmptyPostsAt(c: Config, ps: seq<seq<Byte>>)
    ensures false in PostsOf(c, ps) <==> SomeEmpty(c, ps)
  {
    if ps != [] {
      var n := |ps| - 1;
      EmptyPostsAt(c, ps[..n]);
      SomeEmptyNext(c, ps);
      var post := PostOf(c, AdmitAll(c, NONE_YET, ps[..n]).mallocs, LengthAfter(ps[..n]), ps[n]);
      NotBoth(c, AdmitAll(c, NONE_YET, ps[..n]).mallocs, LengthAfter(ps[..n]), ps[n]);
      assert false in PostsOf(c, ps) <==> false in PostsOf(c, ps[..n]) || false in post;
    }
  }

  lemma NotBoth(c: Config, mallocs: nat, stale: seq<Byte>, p: seq<Byte>)
    requires |stale| == 4
    ensures PostsEmpty(c, mallocs, stale, p) <==> PostOf(c, mallocs, stale, p) == [false]
  {
    if |p| == 4 {
      assert p[..4] == p;
    }
  }

  /** Every post has its job, whether or not allocations fail, if and only if no packet is such a
      short one. */
  lemma {:induction false} PostsMatchJobs(c: Config, bs: seq<Byte>)
    requires Bracketed(NEW_DEFRAMER, bs)
    requires !FreeRun(c, Free(NEW_SINK, []), bs).sink.fault
    ensures var f := FreeRun(c, Free(NEW_SINK, []), bs);
            var ps := AcceptAll(NEW_DEFRAMER, bs).packets;
            f.sink.posts == |f.jobs| <==> !SomeEmpty(c, ps)
  {
    CountPosts(c, bs);
    PostsFollowPackets(c, bs);
    CountAll(Posts(c, Free(NEW_SINK, []), bs));
    EmptyPostsAt(c, AcceptAll(NEW_DEFRAMER, bs).packets);
  }

  lemma FrameOfOne()
    ensures Frame([1]) == [] + [SOP] + [EOP_PREFIX] + [1]
  {
    assert [1][..0] == [] && EscapeAll([]) == [];
  }

  /** The shortest such packet: the length bytes that it does not send are those left from before,
      here zeros, and the one that it does send matches its size. */
  lemma ShortPacketPostsWithoutJob(c: Config)
    ensures var f := FreeRun(c, Free(NEW_SINK, []), Frame([1])); f.sink.posts == 1 && f.jobs == []
  {
    FrameOfOne();
    var f0 := Free(NEW_SINK, []);
    var f2 := Free(NEW_SINK.(inside := true, eop := true), []);
    FreeNext(c, f0, [], SOP);
    FreeNext(c, f0, [] + [SOP], EOP_PREFIX);
    FreeNext(c, f0, [] + [SOP] + [EOP_PREFIX], 1);
    assert FreeRun(c, f0, [] + [SOP] + [EOP_PREFIX]) == f2;
    LastByteOfShortPacket(c);
  }

  lemma LastByteOfShortPacket(c: Config)
    ensures var f := FreeStep(c, Free(NEW_SINK.(inside := true, eop := true), []), 1);
            f.sink.posts == 1 && f.jobs == []
  {
    assert NEW_SINK.length[0 := 1] == [1, 0, 0, 0];
    assert GetInt([1, 0, 0, 0]) == 1;
  }

  // --------------------------------------------------------------------- resynchronisation

  lemma {:induction false} EscapedIsBracketed(g: Deframer, bs: seq<Byte>, s: seq<Byte>)
    requires Bracketed(g, bs)
    ensures Bracketed(g, bs + EscapeAll(s))
  {
    if s == [] {
      assert bs + EscapeAll(s) == bs;
    } else {
      var n := |s| - 1;
      var before := bs + EscapeAll(s[..n]);
      EscapedIsBracketed(g, bs, s[..n]);
      AppendBracketed(g, before, s[n]);
      assert before + EscapeByte(s[n]) == bs + EscapeAll(s);
    }
  }

  lemma AppendBracketed(g: Deframer, bs: seq<Byte>, b: Byte)
    requires Bracketed(g, bs)
    ensures Bracketed(g, bs + EscapeByte(b))
  {
    if NeedsEscape(b) {
      BracketedNext(g, bs, ESCAPE_PREFIX);
      BracketedNext(g, bs + [ESCAPE_PREFIX], EscapeXor(b));
      assert bs + EscapeByte(b) == bs + [ESCAPE_PREFIX] + [EscapeXor(b)];
    } else {
      BracketedNext(g, bs, b);
    }
  }

  const OPENED := Deframer(false, false, true, [], [])

  lemma FrameBodyBracketed(doc: seq<Byte>)
    requires doc != []
    ensures Bracketed(OPENED, FrameBody(doc))
  {
    var n := |doc| - 1;
    EscapedIsBracketed(OPENED, [], doc[..n]);
    assert [] + EscapeAll(doc[..n]) == EscapeAll(doc[..n]);
    BracketedNext(OPENED, EscapeAll(doc[..n]), EOP_PREFIX);
    AppendBracketed(OPENED, EscapeAll(doc[..n]) + [EOP_PREFIX], doc[n]);
  }

  lemma AdmitOne(c: Config, a: Admission, p: seq<Byte>)
    ensures AdmitAll(c, a, [p]) == Admit(c, a, p)
  {
    assert [p][..0] == [];
  }

  lemma FreeRunOne(c: Config, f: Free, b: Byte)
    requires f.sink.Valid()
    ensures FreeRun(c, f, [b]) == FreeStep(c, f, b)
  {
    assert [b][..0] == [];
  }

  /** What a frame does to a sink that holds no buffer, or is sent a length field that replaces
      the one it holds. */
  lemma {:induction false} FrameAdmitted(c: Config, f: Free, doc: seq<Byte>)
    requires f.sink.Valid() && f.sink.pending.None? && !f.sink.escape && !f.sink.fault
    requires doc != [] && !Overruns(c, f.sink.mallocs, doc)
    requires f.sink.incoming.Some? ==> |doc| >= 4 && GetInt(doc[..4]) <= c.max
    ensures var r := FreeRun(c, f, Frame(doc));
            && r.jobs == f.jobs + Admit(c, Admission([], f.sink.mallocs), doc).jobs
            && !r.sink.inside && !r.sink.escape && !r.sink.fault
            && r.sink.pending.None? && r.sink.incoming.None?
  {
    FrameFollows(c, f, doc);
    AdmitOne(c, Admission(f.jobs, f.sink.mallocs), doc);
  }

  function Completed(p: seq<Byte>): Deframer {
    Deframer(false, false, false, [], [p])
  }

  lemma FrameFollows(c: Config, f: Free, doc: seq<Byte>)
    requires f.sink.Valid() && f.sink.pending.None? && !f.sink.escape && !f.sink.fault
    requires doc != [] && !Overruns(c, f.sink.mallocs, doc)
    requires f.sink.incoming.Some? ==> |doc| >= 4 && GetInt(doc[..4]) <= c.max
    ensures var held := f.sink.incoming.Some?;
            Follows(c, held, Admission(f.jobs, f.sink.mallocs), FreeRun(c, f, Frame(doc)), Completed(doc))
  {
    var f1 := FreeRun(c, f, [SOP]);
    FreeRunOne(c, f, SOP);
    FollowsOpened(c, f.sink.incoming.Some?, f);
    BodyFollows(c, f.sink.incoming.Some?, Admission(f.jobs, f.sink.mallocs), f1, doc);
    FrameIsSopAndBody(doc);
    FreeRunConcat(c, f, [SOP], FrameBody(doc));
  }

  lemma BodyFollows(c: Config, resync: bool, a0: Admission, f: Free, doc: seq<Byte>)
    requires Follows(c, resync, a0, f, OPENED) && doc != []
    requires !Overruns(c, a0.mallocs, doc) && (resync ==> |doc| >= 4 && GetInt(doc[..4]) <= c.max)
    ensures Follows(c, resync, a0, FreeRun(c, f, FrameBody(doc)), Completed(doc))
  {
    AcceptBody(OPENED, doc);
    assert Tainted(false, doc) == doc;
    assert [] + [doc] == [doc];
    FrameBodyBracketed(doc);
    SaneFrame(c, resync, a0, doc);
    FollowsRun(c, resync, a0, f, OPENED, FrameBody(doc));
  }

  lemma FollowsOpened(c: Config, resync: bool, f: Free)
    requires f.sink.Valid() && f.sink.pending.None? && !f.sink.escape && !f.sink.fault
    requires f.sink.incoming.Some? ==> resync
    ensures Follows(c, resync, Admission(f.jobs, f.sink.mallocs), FreeStep(c, f, SOP), OPENED)
  {
    assert FreeStep(c, f, SOP).sink.length[..0] == [];
  }

  lemma SaneFrame(c: Config, resync: bool, a0: Admission, doc: seq<Byte>)
    requires !Overruns(c, a0.mallocs, doc) && (resync ==> |doc| >= 4 && GetInt(doc[..4]) <= c.max)
    ensures SaneAll(c, a0, Completed(doc)) && ReplacesAll(c, resync, Completed(doc))
  {
    AdmitNext(c, a0, [], doc);
    assert [] + [doc] == [doc];
  }

  /** The data bytes of a packet, none of them its last. */
  function StoreAll(c: Config, s: Sink, data: seq<Byte>): (r: Sink)
    requires s.Valid()
    ensures r.Valid()
  {
    if data == [] then s
    else
      var t := StoreAll(c, s, data[..|data| - 1]);
      if t.inside then StoreByte(c, t, data[|data| - 1]) else t
  }

  /** Between two bytes of a packet. */
  predicate Amid(s: Sink) {
    s.Valid() && !s.eop && !s.escape && s.pending.None?
  }

  lemma StoreByteAmid(c: Config, s: Sink, v: Byte)
    requires Amid(s)
    ensures Amid(StoreByte(c, s, v))
  {
  }

  lemma FeedByte(c: Config, s: Sink, jobs: seq<Job>, v: Byte)
    requires Amid(s)
    ensures FreeRun(c, Free(s, jobs), EscapeByte(v)) == Free(if s.inside then StoreByte(c, s, v) else s, jobs)
  {
    if s.inside {
      StoreByteAmid(c, s, v);
    }
    if NeedsEscape(v) {
      EscapeXorInvolutive(v);
      FreeRunOne(c, Free(s, jobs), ESCAPE_PREFIX);
      FreeRunOne(c, Free(s.(escape := true), jobs), EscapeXor(v));
      FreeRunConcat(c, Free(s, jobs), [ESCAPE_PREFIX], [EscapeXor(v)]);
      assert EscapeByte(v) == [ESCAPE_PREFIX] + [EscapeXor(v)];
    } else {
      FreeRunOne(c, Free(s, jobs), v);
    }
  }

  lemma {:induction false} FeedData(c: Config, s: Sink, jobs: seq<Job>, data: seq<Byte>)
    requires Amid(s)
    ensures FreeRun(c, Free(s, jobs), EscapeAll(data)) == Free(StoreAll(c, s, data), jobs)
    ensures Amid(StoreAll(c, s, data))
  {
    if data != [] {
      var n := |data| - 1;
      FeedData(c, s, jobs, data[..n]);
      var t := StoreAll(c, s, data[..n]);
      FeedByte(c, t, jobs, data[n]);
      if t.inside {
        StoreByteAmid(c, t, data[n]);
      }
      FreeRunConcat(c, Free(s, jobs), EscapeAll(data[..n]), EscapeByte(data[n]));
    }
  }

  function Opened(s: Sink): Sink {
    s.(offset := 0, inside := true, eop := false)
  }

  /** The sink after a frame of `data + [v]`, before a finished job is collected. */
  function Framed(c: Config, s: Sink, data: seq<Byte>, v: Byte): (r: Sink)
    requires s.Valid()
    ensures r.Valid()
  {
    var t := StoreAll(c, Opened(s), data).(eop := true);
    if t.inside then StoreByte(c, t, v) else t
  }

  lemma LastByte(c: Config, s: Sink, jobs: seq<Job>, v: Byte)
    requires s.Valid() && s.eop && !s.escape && s.pending.None?
    ensures FreeRun(c, Free(s, jobs), EscapeByte(v)) == Collect(Free(if s.inside then StoreByte(c, s, v) else s, jobs))
  {
    if NeedsEscape(v) {
      EscapeXorInvolutive(v);
      FreeRunOne(c, Free(s, jobs), ESCAPE_PREFIX);
      FreeRunOne(c, Free(s.(escape := true), jobs), EscapeXor(v));
      FreeRunConcat(c, Free(s, jobs), [ESCAPE_PREFIX], [EscapeXor(v)]);
      assert EscapeByte(v) == [ESCAPE_PREFIX] + [EscapeXor(v)];
    } else {
      FreeRunOne(c, Free(s, jobs), v);
    }
  }

  lemma OpenData(c: Config, f: Free, data: seq<Byte>)
    requires f.sink.Valid() && f.sink.pending.None? && !f.sink.escape
    ensures FreeRun(c, f, [SOP] + EscapeAll(data)) == Free(StoreAll(c, Opened(f.sink), data), f.jobs)
    ensures Amid(StoreAll(c, Opened(f.sink), data))
  {
    FreeRunOne(c, f, SOP);
    FeedData(c, Opened(f.sink), f.jobs, data);
    FreeRunConcat(c, f, [SOP], EscapeAll(data));
  }

  lemma FeedFrame(c: Config, f: Free, data: seq<Byte>, v: Byte)
    requires f.sink.Valid() && f.sink.pending.None? && !f.sink.escape
    ensures FreeRun(c, f, Frame(data + [v])) == Collect(Free(Framed(c, f.sink, data, v), f.jobs))
  {
    var t := StoreAll(c, Opened(f.sink), data);
    OpenData(c, f, data);
    FreeRunOne(c, Free(t, f.jobs), EOP_PREFIX);
    FreeRunConcat(c, f, [SOP] + EscapeAll(data), [EOP_PREFIX]);
    LastByte(c, t.(eop := true), f.jobs, v);
    FreeRunConcat(c, f, [SOP] + EscapeAll(data) + [EOP_PREFIX], EscapeByte(v));
    assert (data + [v])[..|data|] == data;
  }

  lemma {:induction false} ShortData(c: Config, s: Sink, data: seq<Byte>)
    requires s.Valid() && |data| < 4
    ensures StoreAll(c, Opened(s), data) == Opened(s).(offset := |data|, length := Stamp(s.length, data))
  {
    if data == [] {
      assert s.length[0..] == s.length;
    } else {
      var n := |data| - 1;
      ShortData(c, s, data[..n]);
      StampNext(s.length, data[..n], data[n]);
      assert data == data[..n] + [data[n]];
    }
  }

  /** A frame shorter than a length field, over the buffer that the sink holds. */
  lemma ShortFrame(c: Config, f: Free, doc: seq<Byte>)
    requires f.sink.Valid() && f.sink.pending.None? && !f.sink.escape && !f.sink.fault
    requires 0 < |doc| < 4
    ensures var r := FreeRun(c, f, Frame(doc));
            && r.jobs == f.jobs + (if GetInt(Stamp(f.sink.length, doc)) == |doc| && f.sink.incoming.Some?
                                   then [f.sink.incoming.value] else [])
            && !r.sink.inside && !r.sink.escape && !r.sink.fault
            && r.sink.pending.None? && r.sink.incoming.None?
  {
    var n := |doc| - 1;
    assert doc == doc[..n] + [doc[n]];
    FeedFrame(c, f, doc[..n], doc[n]);
    ShortData(c, f.sink, doc[..n]);
    StampNext(f.sink.length, doc[..n], doc[n]);
  }

  /** A buffer that the sink holds was granted within the maximum, and has at least its length. */
  predicate Held(c: Config, s: Sink) {
    s.incoming.Some? ==>
      var job := s.incoming.value;
      4 <= |job.bytes| <= job.size <= c.max
  }

  /** In every run that stores nothing outside an allocation. */
  lemma {:induction false} HeldAlways(c: Config, bs: seq<Byte>)
    requires !FreeRun(c, Free(NEW_SINK, []), bs).sink.fault
    ensures Held(c, FreeRun(c, Free(NEW_SINK, []), bs).sink)
  {
    if bs != [] {
      var n := |bs| - 1;
      var s := FreeRun(c, Free(NEW_SINK, []), bs[..n]).sink;
      if s.fault {
        FaultStays(c, s, bs[n]);
      }
      HeldAlways(c, bs[..n]);
      HeldStep(c, s, bs[n]);
    }
  }

  lemma HeldStep(c: Config, s: Sink, b: Byte)
    requires s.Valid() && Held(c, s) && !Step(c, s, b).fault
    ensures Held(c, Step(c, s, b))
  {
    if IsData(b) && s.inside {
      HeldByte(c, s.(escape := false), Undo(s.escape, b));
    }
  }

  lemma HeldByte(c: Config, s: Sink, v: Byte)
    requires s.Valid() && Held(c, s) && !StoreByte(c, s, v).fault
    ensures Held(c, StoreByte(c, s, v))
  {
    if s.offset < 4 {
      HeldLength(c, s, v);
    } else if s.offset < AsUnsigned(GetInt(s.length)) {
      HeldData(c, s, v);
    }
  }

  lemma HeldLength(c: Config, s: Sink, v: Byte)
    requires s.Valid() && Held(c, s) && s.offset < 4
    ensures !StoreLength(c, s, v).fault ==> Held(c, StoreLength(c, s, v))
    ensures StoreByte(c, s, v).fault == StoreLength(c, s, v).fault
    ensures StoreByte(c, s, v).incoming in {None, StoreLength(c, s, v).incoming}
  {
  }

  lemma HeldData(c: Config, s: Sink, v: Byte)
    requires s.Valid() && Held(c, s) && 4 <= s.offset < AsUnsigned(GetInt(s.length))
    ensures Held(c, StoreData(s, v))
    ensures StoreByte(c, s, v).incoming in {None, StoreData(s, v).incoming}
  {
  }

  /** An over-long frame goes on filling the buffer that the sink holds, from its fifth byte on. */
  ghost predicate Refills(s: Sink, job: Job, data: seq<Byte>)
    requires s.Valid() && |data| >= 4
  {
    && s.inside && s.length == data[..4] && s.offset == |data| <= job.size
    && s.incoming.Some? && s.incoming.value.size == job.size && |data| <= |s.incoming.value.bytes| <= job.size
  }

  /** The fourth byte of a packet completes its length field. */
  lemma FourthByte(c: Config, s: Sink, data: seq<Byte>)
    requires s.Valid() && |data| == 4 && s.offset == 3 && s.length[3 := data[3]] == data
    ensures var size := GetInt(data);
            var t := s.(length := data, offset := 4);
            StoreLength(c, s, data[3]) ==
            if size > c.max then t
            else t.(incoming := if c.alloc(s.mallocs) then Some(Job(size, data)) else None,
                    mallocs := s.mallocs + 1, fault := s.fault || (c.alloc(s.mallocs) && size < 4))
  {
  }

  /** What the sink is like before it. */
  lemma ThreeBytes(c: Config, s: Sink, data: seq<Byte>)
    requires s.Valid() && |data| == 4
    ensures var t := StoreAll(c, Opened(s), data[..3]);
            && t == Opened(s).(offset := 3, length := Stamp(s.length, data[..3]))
            && t.length[3 := data[3]] == data
  {
    ShortData(c, s, data[..3]);
    StampNext(s.length, data[..3], data[3]);
    assert data == data[..3] + [data[3]];
  }

  lemma FourBytes(c: Config, s: Sink, data: seq<Byte>)
    requires s.Valid() && |data| == 4
    ensures StoreAll(c, Opened(s), data) ==
            StoreLength(c, Opened(s).(offset := 3, length := Stamp(s.length, data[..3])), data[3])
  {
    ThreeBytes(c, s, data);
  }

  lemma StoreAllNext(c: Config, s: Sink, data: seq<Byte>)
    requires s.Valid() && |data| > 4
    ensures var n := |data| - 1;
            var t := StoreAll(c, s, data[..n]);
            && data[..n][..4] == data[..4] && data == data[..n] + [data[n]]
            && StoreAll(c, s, data) == if t.inside then StoreByte(c, t, data[n]) else t
  {
  }

  /** A byte beyond the length field, in a packet longer than the maximum. */
  lemma RefillByte(c: Config, s: Sink, job: Job, data: seq<Byte>, v: Byte)
    requires s.Valid() && |data| >= 4 && Refills(s, job, data) && job.size <= c.max < GetInt(s.length)
    ensures StoreByte(c, s, v).fault <==> s.fault || |data| == job.size
    ensures !s.eop && |data| < job.size ==> Refills(StoreByte(c, s, v), job, data + [v])
    ensures s.eop && |data| < job.size ==>
              StoreByte(c, s, v) == NextPacket(s)
  {
    assert (data + [v])[..4] == data[..4];
  }

  lemma {:induction false} OverlongData(c: Config, s: Sink, data: seq<Byte>)
    requires s.Valid() && !s.fault && Held(c, s) && s.incoming.Some?
    requires |data| >= 4 && GetInt(data[..4]) > c.max
    ensures var t := StoreAll(c, Opened(s), data);
            && (t.fault <==> |data| > s.incoming.value.size)
            && (!t.fault ==> Refills(t, s.incoming.value, data))
    decreases |data|
  {
    if |data| == 4 {
      assert data[..4] == data;
      ThreeBytes(c, s, data);
      FourBytes(c, s, data);
      FourthByte(c, StoreAll(c, Opened(s), data[..3]), data);
    } else {
      var n := |data| - 1;
      StoreAllNext(c, Opened(s), data);
      OverlongData(c, s, data[..n]);
      var t := StoreAll(c, Opened(s), data[..n]);
      if t.fault {
        StoreByteFault(c, t, data[n]);
      } else {
        RefillByte(c, t, s.incoming.value, data[..n], data[n]);
      }
    }
  }

  /** So it makes no job, and stores outside the buffer exactly if it is longer than that. */
  lemma OverlongFrame(c: Config, f: Free, doc: seq<Byte>)
    requires f.sink.Valid() && f.sink.pending.None? && !f.sink.escape && !f.sink.fault
    requires Held(c, f.sink) && f.sink.incoming.Some? && |doc| >= 4 && GetInt(doc[..4]) > c.max
    ensures var r := FreeRun(c, f, Frame(doc));
            && (r.sink.fault <==> |doc| > f.sink.incoming.value.size)
            && (!r.sink.fault ==> r.jobs == f.jobs && !r.sink.inside && !r.sink.escape
                                  && r.sink.pending.None? && r.sink.incoming.None?)
  {
    var n := |doc| - 1;
    assert doc == doc[..n] + [doc[n]];
    FeedFrame(c, f, doc[..n], doc[n]);
    OverlongFramed(c, f.sink, doc);
  }

  lemma OverlongFramed(c: Config, s: Sink, doc: seq<Byte>)
    requires s.Valid() && s.pending.None? && !s.escape && !s.fault
    requires Held(c, s) && s.incoming.Some? && |doc| >= 4 && GetInt(doc[..4]) > c.max
    ensures var r := Framed(c, s, doc[..|doc| - 1], doc[|doc| - 1]);
            && (r.fault <==> |doc| > s.incoming.value.size)
            && (!r.fault ==> !r.inside && !r.escape && r.pending.None? && r.incoming.None?)
  {
    var n := |doc| - 1;
    if |doc| == 4 {
      assert doc[..4] == doc;
      ThreeBytes(c, s, doc);
      FourthByte(c, StoreAll(c, Opened(s), doc[..3]).(eop := true), doc);
    } else {
      StoreAllNext(c, Opened(s), doc);
      OverlongData(c, s, doc[..n]);
      FeedData(c, Opened(s), [], doc[..n]);
      OverlongLast(c, s, doc);
    }
  }

  lemma OverlongLast(c: Config, s: Sink, doc: seq<Byte>)
    requires s.Valid() && s.pending.None? && !s.escape && Held(c, s) && s.incoming.Some?
    requires |doc| > 4 && GetInt(doc[..|doc| - 1][..4]) > c.max
    requires var t := StoreAll(c, Opened(s), doc[..|doc| - 1]);
             && (t.fault <==> |doc| - 1 > s.incoming.value.size)
             && (!t.fault ==> Refills(t, s.incoming.value, doc[..|doc| - 1]))
             && Amid(t)
    ensures var r := Framed(c, s, doc[..|doc| - 1], doc[|doc| - 1]);
            && (r.fault <==> |doc| > s.incoming.value.size)
            && (!r.fault ==> !r.inside && !r.escape && r.pending.None? && r.incoming.None?)
  {
    var n := |doc| - 1;
    var t := StoreAll(c, Opened(s), doc[..n]).(eop := true);
    if t.fault {
      StoreByteFault(c, t, doc[n]);
    } else {
      RefillByte(c, t, s.incoming.value, doc[..n], doc[n]);
    }
  }

  lemma {:induction false} OverrunData(c: Config, s: Sink, data: seq<Byte>)
    requires s.Valid() && Overruns(c, s.mallocs, data)
    ensures StoreAll(c, Opened(s), data).fault
    decreases |data|
  {
    if |data| == 4 {
      assert data[..4] == data;
      ThreeBytes(c, s, data);
      FourBytes(c, s, data);
      FourthByte(c, StoreAll(c, Opened(s), data[..3]), data);
    } else {
      var n := |data| - 1;
      StoreAllNext(c, Opened(s), data);
      OverrunData(c, s, data[..n]);
      StoreByteFault(c, StoreAll(c, Opened(s), data[..n]), data[n]);
    }
  }

  lemma OverrunFrame(c: Config, f: Free, doc: seq<Byte>)
    requires f.sink.Valid() && f.sink.pending.None? && !f.sink.escape && Overruns(c, f.sink.mallocs, doc)
    ensures FreeRun(c, f, Frame(doc)).sink.fault
  {
    var n := |doc| - 1;
    assert doc == doc[..n] + [doc[n]];
    FeedFrame(c, f, doc[..n], doc[n]);
    OverrunFramed(c, f.sink, doc);
  }

  lemma OverrunFramed(c: Config, s: Sink, doc: seq<Byte>)
    requires s.Valid() && Overruns(c, s.mallocs, doc)
    ensures Framed(c, s, doc[..|doc| - 1], doc[|doc| - 1]).fault
  {
    var n := |doc| - 1;
    var t := StoreAll(c, Opened(s), doc[..n]).(eop := true);
    if |doc| == 4 {
      assert doc[..4] == doc;
      ThreeBytes(c, s, doc);
      FourthByte(c, t, doc);
    } else {
      StoreAllNext(c, Opened(s), doc);
      OverrunData(c, s, doc[..n]);
      StoreByteFault(c, t, doc[n]);
    }
  }

  /** One frame stores outside an allocation if it is granted a buffer too small for its length
      field, or if its length field is above the maximum, and so replaces no buffer, and the frame
      is longer than the one that the sink still holds. */
  predicate FrameFaults(c: Config, s: Sink, doc: seq<Byte>) {
    Overruns(c, s.mallocs, doc)
    || (s.incoming.Some? && |doc| >= 4 && GetInt(doc[..4]) > c.max && |doc| > s.incoming.value.size)
  }

  /** The job of one frame: the document, if it is as long as its length field says and was granted;
      or, for a frame shorter than a length field, the buffer that the sink still holds, if the frame
      is as long as its own and the stale length bytes say. */
  function FrameJobs(c: Config, s: Sink, doc: seq<Byte>): seq<Job>
    requires s.Valid()
  {
    if |doc| >= 4 then
      if |doc| == GetInt(doc[..4]) <= c.max && c.alloc(s.mallocs) then [Job(|doc|, doc)] else []
    else if GetInt(Stamp(s.length, doc)) == |doc| && s.incoming.Some? then [s.incoming.value]
    else []
  }

  /** Exactly what one frame does, from any state with no job pending and no escape pending, even in
      the middle of another packet. */
  lemma FrameResynchronises(c: Config, f: Free, doc: seq<Byte>)
    requires f.sink.Valid() && f.sink.pending.None? && !f.sink.escape && !f.sink.fault && Held(c, f.sink)
    requires doc != []
    ensures var r := FreeRun(c, f, Frame(doc));
            && (r.sink.fault <==> FrameFaults(c, f.sink, doc))
            && (!r.sink.fault ==> r.jobs == f.jobs + FrameJobs(c, f.sink, doc)
                                  && !r.sink.inside && !r.sink.escape
                                  && r.sink.pending.None? && r.sink.incoming.None?)
  {
    if Overruns(c, f.sink.mallocs, doc) {
      OverrunFrame(c, f, doc);
    } else if |doc| < 4 {
      ShortFrame(c, f, doc);
    } else if f.sink.incoming.Some? && GetInt(doc[..4]) > c.max {
      OverlongFrame(c, f, doc);
      assert f.jobs + [] == f.jobs;
    } else {
      FrameAdmitted(c, f, doc);
    }
  }

  /** A frame to a sink that has seen nothing yet: it becomes a job exactly if it is as long as its
      first four bytes say, that is at most the maximum, and the buffer is granted. */
  lemma FirstFrame(c: Config, doc: seq<Byte>)
    requires doc != []
    ensures var r := FreeRun(c, Free(NEW_SINK, []), Frame(doc));
            && (r.sink.fault <==> |doc| >= 4 && GetInt(doc[..4]) < 4 && GetInt(doc[..4]) <= c.max && c.alloc(0))
            && (!r.sink.fault ==>
                  r.jobs == if |doc| >= 4 && GetInt(doc[..4]) == |doc| && |doc| <= c.max && c.alloc(0)
                            then [Job(|doc|, doc)] else [])
  {
    FrameResynchronises(c, Free(NEW_SINK, []), doc);
    assert [] + FrameJobs(c, NEW_SINK, doc) == FrameJobs(c, NEW_SINK, doc);
  }

  /** A packet of 10 bytes cut off after 5, and a frame of one byte: what there is of the cut packet
      becomes the job. */
  lemma HeldBufferBecomesJob(c: Config, cut: seq<Byte>, doc: seq<Byte>)
    requires c.max >= 10 && c.alloc(0) && cut == [0x7a, 0x0a, 0, 0, 0, 7] && doc == [1]
    ensures var f := FreeRun(c, Free(NEW_SINK, []), cut);
            var r := FreeRun(c, f, Frame(doc));
            f.jobs == [] && r.jobs == [Job(10, [10, 0, 0, 0, 7])] && !r.sink.fault
  {
    CutPacket(c, cut, cut[1..]);
    assert GetInt([1, 0, 0, 0]) == 1;
    var f := FreeRun(c, Free(NEW_SINK, []), cut);
    assert Stamp(f.sink.length, doc) == [1, 0, 0, 0];
    FrameResynchronises(c, f, doc);
  }

  lemma CutPacket(c: Config, cut: seq<Byte>, data: seq<Byte>)
    requires c.max >= 10 && c.alloc(0) && cut == [SOP] + data && data == [10, 0, 0, 0, 7]
    ensures FreeRun(c, Free(NEW_SINK, []), cut) ==
            Free(CUT_LENGTH.(offset := 5, incoming := Some(Job(10, [10, 0, 0, 0, 7]))), [])
  {
    CutLength(c);
    CutData(c);
    OpenData(c, Free(NEW_SINK, []), data);
    Exposure.EscapeAllOfPlain(data);
  }

  const CUT_LENGTH := Opened(NEW_SINK).(
    offset := 4, length := [10, 0, 0, 0], incoming := Some(Job(10, [10, 0, 0, 0])), mallocs := 1)

  lemma CutLength(c: Config)
    requires c.max >= 10 && c.alloc(0)
    ensures StoreAll(c, Opened(NEW_SINK), [10, 0, 0, 0]) == CUT_LENGTH
  {
    var data := [10, 0, 0, 0];
    ThreeBytes(c, NEW_SINK, data);
    FourBytes(c, NEW_SINK, data);
    FourthByte(c, StoreAll(c, Opened(NEW_SINK), data[..3]), data);
    assert GetInt(data) == 10;
  }

  lemma CutData(c: Config)
    requires StoreAll(c, Opened(NEW_SINK), [10, 0, 0, 0]) == CUT_LENGTH
    ensures StoreAll(c, Opened(NEW_SINK), [10, 0, 0, 0, 7]) ==
            CUT_LENGTH.(offset := 5, incoming := Some(Job(10, [10, 0, 0, 0, 7])))
  {
    var data := [10, 0, 0, 0, 7];
    assert data[..4] == [10, 0, 0, 0];
    StoreAllNext(c, Opened(NEW_SINK), data);
    assert GetInt([10, 0, 0, 0]) == 10;
    assert [10, 0, 0, 0] + [7] == data;
  }

  lemma {:induction false} FreeRunConcat(c: Config, f: Free, a: seq<Byte>, b: seq<Byte>)
    requires f.sink.Valid()
    ensures FreeRun(c, f, a + b) == FreeRun(c, FreeRun(c, f, a), b)
  {
    if b == [] {
      assert a + b == a;
    } else {
      var n := |b| - 1;
      assert a + b == (a + b[..n]) + [b[n]];
      FreeRunConcat(c, f, a, b[..n]);
      FreeNext(c, f, a + b[..n], b[n]);
    }
  }
}
