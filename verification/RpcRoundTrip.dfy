/** From the documents sent on the RPC channel to the replies that come back: the line, the sink,
    the slot and the service in one statement. */
module RpcRoundTrip {
  import opened Bytes
  import opened AvalonSt
  import opened HostBridge
  import opened SourceRun
  import opened Demux
  import opened Exposure
  import opened EndToEnd
  import opened Bson
  import opened RpcSink
  import opened RpcLifecycle
  import opened Options
  import RpcService
  import RpcSlot

  function Encodings(docs: seq<seq<Field>>): (ps: seq<seq<Byte>>)
    ensures |ps| == |docs|
  {
    if docs == [] then [] else Encodings(docs[..|docs| - 1]) + [Encode(docs[|docs| - 1])]
  }

  ghost predicate AllGood(docs: seq<seq<Field>>) {
    forall fs :: fs in docs ==> Good(fs)
  }

  /** The documents that are let in, and the allocations tried so far. */
  datatype Admitted = Admitted(docs: seq<seq<Field>>, mallocs: nat)

  /** A document is let in if it is not above the maximum and its buffer is granted. */
  function AdmitDoc(c: Config, a: Admitted, fs: seq<Field>): Admitted {
    if |Encode(fs)| > c.max then a
    else Admitted(if c.alloc(a.mallocs) then a.docs + [fs] else a.docs, a.mallocs + 1)
  }

  function AdmitDocs(c: Config, docs: seq<seq<Field>>): Admitted {
    if docs == [] then Admitted([], 0) else AdmitDoc(c, AdmitDocs(c, docs[..|docs| - 1]), docs[|docs| - 1])
  }

  function JobsOf(docs: seq<seq<Field>>): (jobs: seq<Job>)
    ensures |jobs| == |docs|
  {
    if docs == [] then []
    else JobsOf(docs[..|docs| - 1]) + [Job(|Encode(docs[|docs| - 1])|, Encode(docs[|docs| - 1]))]
  }

  lemma JobsNext(docs: seq<seq<Field>>, fs: seq<Field>)
    ensures JobsOf(docs + [fs]) == JobsOf(docs) + [Job(|Encode(fs)|, Encode(fs))]
  {
    assert (docs + [fs])[..|docs|] == docs;
  }

  /** A printed document begins with its own length. */
  lemma {:induction false} LengthField(fs: seq<Field>)
    requires Good(fs)
    ensures |Encode(fs)| >= 5 && GetInt(Encode(fs)[..4]) == |Encode(fs)|
  {
    GetPut(|EncodeBody(fs)| + 5);
    assert Encode(fs)[..4] == PutInt(|EncodeBody(fs)| + 5);
  }

  lemma {:induction false} DocAdmitted(c: Config, a: Admitted, fs: seq<Field>)
    requires Good(fs)
    ensures var b := AdmitDoc(c, a, fs);
            Admit(c, Admission(JobsOf(a.docs), a.mallocs), Encode(fs)) == Admission(JobsOf(b.docs), b.mallocs)
    ensures !Overruns(c, a.mallocs, Encode(fs)) && |Encode(fs)| >= 5
  {
    LengthField(fs);
    JobsNext(a.docs, fs);
  }

  lemma GoodFront(docs: seq<seq<Field>>)
    requires AllGood(docs) && docs != []
    ensures AllGood(docs[..|docs| - 1]) && Good(docs[|docs| - 1])
  {
  }

  lemma {:induction false} DocsAdmitted(c: Config, docs: seq<seq<Field>>)
    requires AllGood(docs)
    ensures var a := AdmitDocs(c, docs);
            AdmitAll(c, NONE_YET, Encodings(docs)) == Admission(JobsOf(a.docs), a.mallocs)
    ensures SanePackets(c, NONE_YET, Encodings(docs))
  {
    if docs != [] {
      var n := |docs| - 1;
      GoodFront(docs);
      DocsAdmitted(c, docs[..n]);
      DocAdmitted(c, AdmitDocs(c, docs[..n]), docs[n]);
      AdmitNext(c, NONE_YET, Encodings(docs[..n]), Encode(docs[n]));
    }
  }

  lemma {:induction false} LongEnough(docs: seq<seq<Field>>)
    requires AllGood(docs)
    ensures forall p :: p in Encodings(docs) ==> |p| >= 5
  {
    if docs != [] {
      GoodFront(docs);
      LongEnough(docs[..|docs| - 1]);
      LengthField(docs[|docs| - 1]);
    }
  }

  lemma {:induction false} AdmittedAreGood(c: Config, docs: seq<seq<Field>>)
    requires AllGood(docs)
    ensures AllGood(AdmitDocs(c, docs).docs)
  {
    if docs != [] {
      GoodFront(docs);
      AdmittedAreGood(c, docs[..|docs| - 1]);
    }
  }

  /** Each job is the print of its document, and so is parsed as that document. */
  lemma {:induction false} JobsParse(docs: seq<seq<Field>>, j: nat)
    requires AllGood(docs) && j < |docs|
    ensures ParseDoc(JobsOf(docs)[j].bytes) == Some(docs[j])
  {
    if j < |docs| - 1 {
      JobsParse(docs[..|docs| - 1], j);
    } else {
      ParseAfterEncode(docs[j]);
    }
  }

  lemma {:induction false} CompletedCount(p: RpcSlot.Plan, s: RpcSlot.System, es: seq<RpcSlot.Event>)
    ensures RpcSlot.Run(p, s, es).completed == s.completed + CountOf(true, RpcSlot.Completed(p, s, es))
  {
    if es != [] {
      var n := |es| - 1;
      CompletedCount(p, s, es[..n]);
      var cs := RpcSlot.Completed(p, s, es[..n]);
      if es[n].Complete? {
        CountNext(true, cs, es[n].hasJob);
      }
      assert cs + [] == cs;
    }
  }

  /** Request `j` is what is parsed from job `j`. */
  ghost predicate Serves(requests: nat -> Request, jobs: seq<Job>) {
    forall j: nat :: j < |jobs| ==> ParseDoc(jobs[j].bytes) == Some(requests(j).fs)
  }

  /** What the sink makes of the documents: one job and one post each. */
  lemma {:induction false} DocumentsBecomeJobs(
    c: Config, channels: seq<Channel>, calls: seq<Call>, chunks: seq<seq<Byte>>, k: Channel, docs: seq<seq<Field>>)
    requires Distinct(channels) && k in channels && AllEscaped(calls) && SparesRaw(channels, calls)
    requires Join(chunks) == LineOf(calls) && (CutsAllowed(chunks) || !Exposed(k.number, calls))
    requires SentOn(k.number, calls) == Encodings(docs) && AllGood(docs)
    ensures var handed := Handed(channels, chunks, k);
            var f := FreeRun(c, Free(NEW_SINK, []), handed);
            var posts := Posts(c, Free(NEW_SINK, []), handed);
            && !f.sink.fault && f.jobs == JobsOf(AdmitDocs(c, docs).docs)
            && false !in posts && CountOf(true, posts) == |AdmitDocs(c, docs).docs|
  {
    var handed := Handed(channels, chunks, k);
    HandedIsSane(c, channels, calls, chunks, k);
    DocsAdmitted(c, docs);
    SinkAdmitsPackets(c, handed);
    PostsFollowPackets(c, handed);
    CountPosts(c, handed);
    LongEnough(docs);
    NoEmptyPost(c, Encodings(docs));
    CountAll(Posts(c, Free(NEW_SINK, []), handed));
  }

  function BytesSent(sent: seq<RpcSlot.Sending>): seq<seq<Byte>> {
    if sent == [] then [] else BytesSent(sent[..|sent| - 1]) + [sent[|sent| - 1].bytes]
  }

  /** Documents are sent on `k` among other calls. Whatever reads the line comes in, whatever the
      workers' schedule, whichever allocations fail and whatever the methods do: the workers serve
      exactly the documents that were let in, in order; once nothing is under way each has had exactly
      the replies that it must have; and if what is sent is put on the line as packets, a decoder of
      that line recovers all of it. */
  lemma {:induction false} DocumentsAreAnswered(
    c: Config, channels: seq<Channel>, calls: seq<Call>, chunks: seq<seq<Byte>>, k: Channel, docs: seq<seq<Field>>,
    requests: nat -> Request, entries: seq<RpcService.Entry>, s: RpcSlot.System, es: seq<RpcSlot.Event>,
    replies: seq<Call>, j: nat)
    requires Distinct(channels) && k in channels && AllEscaped(calls) && SparesRaw(channels, calls)
    requires Join(chunks) == LineOf(calls) && (CutsAllowed(chunks) || !Exposed(k.number, calls))
    requires SentOn(k.number, calls) == Encodings(docs) && AllGood(docs)
    requires var handed := Handed(channels, chunks, k);
             && Serves(requests, FreeRun(c, Free(NEW_SINK, []), handed).jobs)
             && RpcSlot.Completed(PlanOf(requests, entries), s, es) == Posts(c, Free(NEW_SINK, []), handed)
    requires RpcSlot.IsNew(s)
    requires AllEscaped(replies)
             && SentOn(k.number, replies) == BytesSent(RpcSlot.Run(PlanOf(requests, entries), s, es).sent)
    ensures var t := RpcSlot.Run(PlanOf(requests, entries), s, es);
            var served := AdmitDocs(c, docs).docs;
            && (forall i :: 0 <= i < |t.taken| ==> t.taken[i] == i)
            && |t.taken| + (if t.pending.Some? then 1 else 0) == |served|
            && (j < |served| ==> requests(j).fs == served[j])
            && (RpcSlot.Quiet(t) && j in t.taken ==>
                  RpcSlot.RepliesTo(t.sent, j) == RepliesFor(requests(j), entries))
            && Assemble(k.number, TakeAll(START, LineOf(replies)).beats).packets == BytesSent(t.sent)
  {
    var p := PlanOf(requests, entries);
    var served := AdmitDocs(c, docs).docs;
    DocumentsBecomeJobs(c, channels, calls, chunks, k, docs);
    NothingBefore(RpcSlot.Completed(p, s, es));
    RpcSlot.HandoffIsAQueue(p, s, es);
    CompletedCount(p, s, es);
    EveryRequestIsSettled(requests, entries, s, es, j);
    if j < |served| {
      AdmittedAreGood(c, docs);
      JobsParse(served, j);
    }
    RunDecodes(replies);
    RunAssembles(k.number, replies);
  }

  lemma {:induction false} JobsAreCounted(cs: seq<bool>)
    ensures RpcSlot.Jobs(cs) == CountOf(true, cs)
  {
    if cs != [] {
      JobsAreCounted(cs[..|cs| - 1]);
    }
  }

  /** And it can come to that: with at least one worker there is a schedule for these very packets
      after which nothing is under way and every document let in has had its replies. */
  lemma {:induction false} DocumentsCanBeAnswered(
    c: Config, channels: seq<Channel>, calls: seq<Call>, chunks: seq<seq<Byte>>, k: Channel, docs: seq<seq<Field>>,
    requests: nat -> Request, entries: seq<RpcService.Entry>, s: RpcSlot.System, j: nat)
    returns (es: seq<RpcSlot.Event>)
    requires Distinct(channels) && k in channels && AllEscaped(calls) && SparesRaw(channels, calls)
    requires Join(chunks) == LineOf(calls) && (CutsAllowed(chunks) || !Exposed(k.number, calls))
    requires SentOn(k.number, calls) == Encodings(docs) && AllGood(docs)
    requires RpcSlot.IsNew(s) && |s.workers| > 0
    ensures var p := PlanOf(requests, entries);
            var t := RpcSlot.Run(p, s, es);
            var served := AdmitDocs(c, docs).docs;
            && RpcSlot.Completed(p, s, es) == Posts(c, Free(NEW_SINK, []), Handed(channels, chunks, k))
            && RpcSlot.Quiet(t) && t.pending.None? && |t.taken| == |served|
            && t.freed[j] == (if j < |served| then 1 else 0)
            && RpcSlot.RepliesTo(t.sent, j) == if j < |served| then RepliesFor(requests(j), entries) else []
  {
    var posts := Posts(c, Free(NEW_SINK, []), Handed(channels, chunks, k));
    var p := PlanOf(requests, entries);
    DocumentsBecomeJobs(c, channels, calls, chunks, k, docs);
    JobsAreCounted(posts);
    es := RpcSlot.ServeEach(posts);
    var sent := RpcSlot.CanServeAll(p, s, posts);
    RpcSlot.AllServedAnswers(p, s, RpcSlot.Jobs(posts), sent, j);
    DueIsReplies(requests, entries, j);
  }
}
