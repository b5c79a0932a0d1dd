/** The one-slot handoff from the sink to the workers, in single steps of every thread, and what
    becomes of each job afterwards. */
module RpcSlot {
  import opened Bytes
  import opened Options

  /** A worker waits, reads the slot, clears it, and then serves the job it read. */
  datatype Worker = Waiting | Awake | HasRead(seen: Option<nat>) | Serving(job: nat)

  /** The sink tests the slot at the head of its loop; a finished packet is stored, then posted. */
  datatype Producer = Testing | Filling | Storing

  /** A job is freed, with or without a reply; or left to an asynchronous method. */
  datatype Disposal = Free(reply: Option<seq<Byte>>) | Queue

  /** What serving each job comes to, and what its callback sends if it has been queued. */
  datatype Plan = Plan(serve: nat -> Disposal, callback: nat -> Option<seq<Byte>>)

  datatype Sending = Sending(job: nat, bytes: seq<Byte>)

  /** Jobs are numbered in the order in which their packets were completed. */
  datatype System = System(
    pending: Option<nat>, sem: nat, producer: Producer, workers: seq<Worker>, completed: nat,
    taken: seq<nat>, queued: multiset<nat>, freed: multiset<nat>, sent: seq<Sending>)

  /** `Complete(false)` is a packet that posts although there is no job to store. */
  datatype Event =
    | Test
    | Complete(hasJob: bool)
    | Post
    | Wake(w: nat)
    | Read(w: nat)
    | Clear(w: nat)
    | Finish(w: nat)
    | Callback(job: nat)

  function Dispose(s: System, job: nat, reply: Option<seq<Byte>>): System {
    s.(freed := s.freed + multiset{job},
       sent := if reply.Some? then s.sent + [Sending(job, reply.value)] else s.sent)
  }

  /** An event that is not possible leaves the system as it is. */
  function Happen(p: Plan, s: System, e: Event): System {
    match e
    case Test =>
      if s.producer.Testing? && s.pending.None? then s.(producer := Filling) else s
    case Complete(hasJob) =>
      if !s.producer.Filling? then s
      else if hasJob then s.(producer := Storing, pending := Some(s.completed), completed := s.completed + 1)
      else s.(producer := Storing, pending := None)
    case Post =>
      if s.producer.Storing? then s.(producer := Testing, sem := s.sem + 1) else s
    case Wake(w) =>
      if w < |s.workers| && s.workers[w].Waiting? && s.sem > 0
      then s.(sem := s.sem - 1, workers := s.workers[w := Awake]) else s
    case Read(w) =>
      if w < |s.workers| && s.workers[w].Awake?
      then s.(workers := s.workers[w := HasRead(s.pending)]) else s
    case Clear(w) =>
      if w < |s.workers| && s.workers[w].HasRead? then
        var t := s.(pending := None);
        match s.workers[w].seen
        case None => t.(workers := s.workers[w := Waiting])
        case Some(job) => t.(workers := s.workers[w := Serving(job)], taken := s.taken + [job])
      else s
    case Finish(w) =>
      if w < |s.workers| && s.workers[w].Serving? then
        var job := s.workers[w].job;
        var t := s.(workers := s.workers[w := Waiting]);
        match p.serve(job)
        case Free(reply) => Dispose(t, job, reply)
        case Queue => t.(queued := t.queued + multiset{job})
      else s
    case Callback(job) =>
      if job in s.queued then Dispose(s.(queued := s.queued - multiset{job}), job, p.callback(job)) else s
  }

  function Run(p: Plan, s: System, es: seq<Event>): System {
    if es == [] then s else Happen(p, Run(p, s, es[..|es| - 1]), es[|es| - 1])
  }

  /** The packets completed in a run, in order: whether each had a job. */
  function Completed(p: Plan, s: System, es: seq<Event>): seq<bool> {
    if es == [] then []
    else
      var n := |es| - 1;
      Completed(p, s, es[..n])
      + if es[n].Complete? && Run(p, s, es[..n]).producer.Filling? then [es[n].hasJob] else []
  }

  /** Some job is completed after a packet that had none. */
  predicate EmptyBeforeJob(cs: seq<bool>) {
    cs != [] && (EmptyBeforeJob(cs[..|cs| - 1]) || (cs[|cs| - 1] && false in cs[..|cs| - 1]))
  }

  function RepliesTo(sent: seq<Sending>, job: nat): seq<seq<Byte>> {
    if sent == [] then []
    else
      var n := |sent| - 1;
      RepliesTo(sent[..n], job) + if sent[n].job == job then [sent[n].bytes] else []
  }

  /** The replies that a job must have been sent once it is freed: one or none. */
  function Due(p: Plan, job: nat): seq<seq<Byte>> {
    var reply := match p.serve(job) case Free(r) => r case Queue => p.callback(job);
    if reply.Some? then [reply.value] else []
  }

  // ----------------------------------------------------------------------------- invariants

  predicate Holding(w: Worker) {
    w.Awake? || w.HasRead?
  }

  ghost predicate NoneHolds(ws: seq<Worker>) {
    forall w :: 0 <= w < |ws| ==> !Holding(ws[w])
  }

  ghost predicate OnlyHolds(ws: seq<Worker>, w: nat) {
    w < |ws| && Holding(ws[w]) && forall v :: 0 <= v < |ws| && v != w ==> !Holding(ws[v])
  }

  /** While a job waits, the right to take it is in exactly one place: about to be posted, in the
      semaphore, or with one worker. */
  ghost predicate OneToken(s: System) {
    if s.pending.None? then
      s.sem == 0 && !s.producer.Storing? && NoneHolds(s.workers)
    else
      || (s.producer.Storing? && s.sem == 0 && NoneHolds(s.workers))
      || (s.producer.Testing? && s.sem == 1 && NoneHolds(s.workers))
      || (s.producer.Testing? && s.sem == 0 && exists w :: OnlyHolds(s.workers, w))
  }

  ghost predicate InOrder(s: System) {
    && (forall i :: 0 <= i < |s.taken| ==> s.taken[i] == i)
    && s.completed == |s.taken| + (if s.pending.Some? then 1 else 0)
    && (s.pending.Some? ==> s.pending.value == |s.taken|)
    && forall w :: 0 <= w < |s.workers| && s.workers[w].HasRead? ==> s.workers[w].seen == s.pending
  }

  /** Some worker serves `j`. */
  ghost predicate Served(s: System, j: nat) {
    exists w :: 0 <= w < |s.workers| && s.workers[w] == Serving(j)
  }

  /** Every job taken is with one worker, or queued once, or freed once. */
  ghost predicate Accounted(s: System) {
    && (forall w :: 0 <= w < |s.workers| && s.workers[w].Serving? ==>
          s.workers[w].job in s.taken && s.workers[w].job !in s.queued && s.freed[s.workers[w].job] == 0)
    && (forall v, w :: 0 <= v < w < |s.workers| && s.workers[v].Serving? && s.workers[w].Serving? ==>
          s.workers[v].job != s.workers[w].job)
    && (forall j :: j in s.queued ==> j in s.taken && s.freed[j] == 0 && s.queued[j] == 1)
    && (forall j :: s.freed[j] <= 1)
    && (forall j :: j in s.freed ==> j in s.taken)
    && (forall j :: j in s.taken && j !in s.queued && s.freed[j] == 0 ==> Served(s, j))
  }

  /** A job has been sent nothing before it is freed, and what is due when it is. */
  ghost predicate Answered(p: Plan, s: System) {
    && (forall j :: j in s.queued ==> p.serve(j).Queue?)
    && forall j: nat :: RepliesTo(s.sent, j) == if s.freed[j] == 0 then [] else Due(p, j)
  }

  /** `drained`: some packet without a job has been completed, and no job after it. */
  ghost predicate Inv(p: Plan, s: System, drained: bool) {
    && InOrder(s) && Accounted(s) && Answered(p, s)
    && if drained then s.pending.None? else OneToken(s)
  }

  ghost predicate IsNew(s: System) {
    s.pending.None? && s.sem == 0 && s.producer.Testing? && s.completed == 0 && s.taken == []
    && s.queued == multiset{} && s.freed == multiset{} && s.sent == []
    && forall w :: 0 <= w < |s.workers| ==> s.workers[w].Waiting?
  }

  /** The event completes a packet. */
  predicate Completes(s: System, e: Event, hasJob: bool) {
    e == Complete(hasJob) && s.producer.Filling?
  }

  lemma TokenStep(p: Plan, s: System, e: Event)
    requires OneToken(s) && InOrder(s) && !Completes(s, e, false)
    ensures OneToken(Happen(p, s, e))
  {
    var t := Happen(p, s, e);
    if e.Wake? && t != s {
      assert OnlyHolds(t.workers, e.w);
    } else if e.Read? && t != s {
      assert OnlyHolds(t.workers, e.w);
    } else if (e.Clear? || e.Finish?) && t != s {
      if exists w :: OnlyHolds(s.workers, w) {
        var w :| OnlyHolds(s.workers, w);
        assert e.Finish? ==> OnlyHolds(t.workers, w);
      }
    }
  }

  /** A packet without a job finds the slot empty and nothing in flight. */
  lemma EmptyStep(p: Plan, s: System, e: Event)
    requires OneToken(s) && InOrder(s) && Completes(s, e, false)
    ensures InOrder(Happen(p, s, e)) && Happen(p, s, e).pending.None?
  {
  }

  lemma OrderStep(p: Plan, s: System, e: Event)
    requires InOrder(s) && (OneToken(s) || s.pending.None?)
    requires OneToken(s) ==> !Completes(s, e, false)
    requires !OneToken(s) ==> !Completes(s, e, true)
    ensures InOrder(Happen(p, s, e))
  {
    if e.Clear? && e.w < |s.workers| && s.workers[e.w].HasRead? {
      OrderClear(p, s, e.w);
    }
  }

  lemma OrderClear(p: Plan, s: System, w: nat)
    requires InOrder(s) && (OneToken(s) || s.pending.None?) && w < |s.workers| && s.workers[w].HasRead?
    ensures InOrder(Happen(p, s, Clear(w)))
  {
  }

  lemma DrainedStep(p: Plan, s: System, e: Event)
    requires InOrder(s) && s.pending.None? && !Completes(s, e, true)
    ensures InOrder(Happen(p, s, e)) && Happen(p, s, e).pending.None?
  {
  }

  /** An event that neither starts nor ends a job: the same workers serve the same jobs. */
  lemma AccountedStays(s: System, t: System)
    requires Accounted(s) && |t.workers| == |s.workers|
    requires t.taken == s.taken && t.queued == s.queued && t.freed == s.freed
    requires forall w :: 0 <= w < |s.workers| ==>
               t.workers[w] == s.workers[w] || (!t.workers[w].Serving? && !s.workers[w].Serving?)
    ensures Accounted(t)
  {
    forall j | j in t.taken && j !in t.queued && t.freed[j] == 0
      ensures Served(t, j)
    {
      assert Served(s, j);
    }
  }

  /** The job that worker `w` has read, if any, has not been taken before. */
  predicate TakesNew(s: System, w: nat) {
    w < |s.workers| && s.workers[w].HasRead? && s.workers[w].seen.Some? ==> s.workers[w].seen.value !in s.taken
  }

  lemma {:induction false} ClearAccounted(p: Plan, s: System, w: nat)
    requires Accounted(s) && w < |s.workers| && s.workers[w].HasRead? && TakesNew(s, w)
    ensures Accounted(Happen(p, s, Clear(w)))
  {
    var t := Happen(p, s, Clear(w));
    if s.workers[w].seen.None? {
      AccountedStays(s, t);
    } else {
      var next := s.workers[w].seen.value;
      assert t.workers[w] == Serving(next);
      forall j | j in t.taken && j !in t.queued && t.freed[j] == 0
        ensures Served(t, j)
      {
        if j in s.taken {
          assert Served(s, j);
          var v :| 0 <= v < |s.workers| && s.workers[v] == Serving(j);
          assert t.workers[v] == Serving(j);
        }
      }
    }
  }

  /** Every job but the one that worker `w` has served keeps its worker. */
  lemma ServedStays(s: System, t: System, w: nat, j: nat)
    requires w < |s.workers| && s.workers[w].Serving? && t.workers == s.workers[w := Waiting]
    requires Served(s, j) && s.workers[w].job != j
    ensures Served(t, j)
  {
    var v :| 0 <= v < |s.workers| && s.workers[v] == Serving(j);
    assert v != w && t.workers[v] == Serving(j);
  }

  lemma FreeAccounted(s: System, t: System, w: nat)
    requires Accounted(s) && w < |s.workers| && s.workers[w].Serving?
    requires t.workers == s.workers[w := Waiting] && t.taken == s.taken && t.queued == s.queued
    requires t.freed == s.freed + multiset{s.workers[w].job}
    ensures Accounted(t)
  {
    var job := s.workers[w].job;
    assert forall j :: t.freed[j] == s.freed[j] + if j == job then 1 else 0;
    forall j | j in t.taken && j !in t.queued && t.freed[j] == 0
      ensures Served(t, j)
    {
      assert Served(s, j);
      ServedStays(s, t, w, j);
    }
  }

  lemma QueueAccounted(s: System, t: System, w: nat)
    requires Accounted(s) && w < |s.workers| && s.workers[w].Serving?
    requires t.workers == s.workers[w := Waiting] && t.taken == s.taken && t.freed == s.freed
    requires t.queued == s.queued + multiset{s.workers[w].job}
    ensures Accounted(t)
  {
    var job := s.workers[w].job;
    assert forall j :: t.queued[j] == s.queued[j] + if j == job then 1 else 0;
    forall j | j in t.taken && j !in t.queued && t.freed[j] == 0
      ensures Served(t, j)
    {
      assert Served(s, j);
      ServedStays(s, t, w, j);
    }
  }

  lemma FinishAccounted(p: Plan, s: System, w: nat)
    requires Accounted(s) && w < |s.workers| && s.workers[w].Serving?
    ensures Accounted(Happen(p, s, Finish(w)))
  {
    if p.serve(s.workers[w].job).Free? {
      FreeAccounted(s, Happen(p, s, Finish(w)), w);
    } else {
      QueueAccounted(s, Happen(p, s, Finish(w)), w);
    }
  }

  lemma CallbackAccounted(p: Plan, s: System, job: nat)
    requires Accounted(s) && job in s.queued
    ensures Accounted(Happen(p, s, Callback(job)))
  {
    var t := Happen(p, s, Callback(job));
    forall j | j in t.taken && j !in t.queued && t.freed[j] == 0
      ensures Served(t, j)
    {
      assert Served(s, j);
      var v :| 0 <= v < |s.workers| && s.workers[v] == Serving(j);
      assert t.workers[v] == Serving(j);
    }
  }

  lemma {:induction false} AccountedStep(p: Plan, s: System, e: Event)
    requires Accounted(s) && (e.Clear? ==> TakesNew(s, e.w))
    ensures Accounted(Happen(p, s, e))
  {
    var t := Happen(p, s, e);
    if t == s {
    } else if e.Clear? {
      ClearAccounted(p, s, e.w);
    } else if e.Finish? {
      FinishAccounted(p, s, e.w);
    } else if e.Callback? {
      CallbackAccounted(p, s, e.job);
    } else {
      AccountedStays(s, t);
    }
  }

  lemma OrderTakesNew(s: System, w: nat)
    requires InOrder(s)
    ensures TakesNew(s, w)
  {
  }

  lemma RepliesNext(sent: seq<Sending>, x: Sending, job: nat)
    ensures RepliesTo(sent + [x], job) == RepliesTo(sent, job) + if x.job == job then [x.bytes] else []
  {
    assert (sent + [x])[..|sent|] == sent;
  }

  lemma DisposeAnswers(p: Plan, s: System, job: nat, reply: Option<seq<Byte>>)
    requires Answered(p, s) && s.freed[job] == 0
    requires Due(p, job) == if reply.Some? then [reply.value] else []
    ensures Answered(p, Dispose(s, job, reply))
  {
    var t := Dispose(s, job, reply);
    forall j: nat
      ensures RepliesTo(t.sent, j) == if t.freed[j] == 0 then [] else Due(p, j)
    {
      if reply.Some? {
        RepliesNext(s.sent, Sending(job, reply.value), j);
      }
      assert RepliesTo(s.sent, j) == if s.freed[j] == 0 then [] else Due(p, j);
    }
  }

  lemma {:induction false} FinishAnswered(p: Plan, s: System, w: nat)
    requires Accounted(s) && Answered(p, s) && w < |s.workers| && s.workers[w].Serving?
    ensures Answered(p, Happen(p, s, Finish(w)))
  {
    var job := s.workers[w].job;
    if p.serve(job).Free? {
      DisposeAnswers(p, s.(workers := s.workers[w := Waiting]), job, p.serve(job).reply);
    } else {
      QueueAnswers(p, s, Happen(p, s, Finish(w)), job);
    }
  }

  lemma QueueAnswers(p: Plan, s: System, t: System, job: nat)
    requires Answered(p, s) && p.serve(job).Queue?
    requires t.queued == s.queued + multiset{job} && t.freed == s.freed && t.sent == s.sent
    ensures Answered(p, t)
  {
  }

  lemma LessQueued(p: Plan, s: System, t: System)
    requires Answered(p, s) && t.queued <= s.queued && t.freed == s.freed && t.sent == s.sent
    ensures Answered(p, t)
  {
    assert forall j :: j in t.queued ==> j in s.queued;
  }

  lemma {:induction false} CallbackAnswered(p: Plan, s: System, job: nat)
    requires Accounted(s) && Answered(p, s) && job in s.queued
    ensures Answered(p, Happen(p, s, Callback(job)))
  {
    var t := s.(queued := s.queued - multiset{job});
    LessQueued(p, s, t);
    assert p.serve(job).Queue? && t.freed[job] == 0;
    DisposeAnswers(p, t, job, p.callback(job));
    CallbackDisposes(p, s, job);
  }

  lemma CallbackDisposes(p: Plan, s: System, job: nat)
    requires job in s.queued
    ensures Happen(p, s, Callback(job)) == Dispose(s.(queued := s.queued - multiset{job}), job, p.callback(job))
  {
  }

  lemma {:induction false} AnsweredStep(p: Plan, s: System, e: Event)
    requires Accounted(s) && Answered(p, s)
    ensures Answered(p, Happen(p, s, e))
  {
    if e.Finish? && e.w < |s.workers| && s.workers[e.w].Serving? {
      FinishAnswered(p, s, e.w);
    } else if e.Callback? && e.job in s.queued {
      CallbackAnswered(p, s, e.job);
    } else {
      NothingDisposed(p, s, e);
      StillAnswered(p, s, Happen(p, s, e));
    }
  }

  lemma NothingDisposed(p: Plan, s: System, e: Event)
    requires e.Finish? ==> !(e.w < |s.workers| && s.workers[e.w].Serving?)
    requires e.Callback? ==> e.job !in s.queued
    ensures var t := Happen(p, s, e); t.queued == s.queued && t.freed == s.freed && t.sent == s.sent
  {
  }

  lemma StillAnswered(p: Plan, s: System, t: System)
    requires Answered(p, s) && t.queued == s.queued && t.freed == s.freed && t.sent == s.sent
    ensures Answered(p, t)
  {
  }

  lemma {:induction false} InvStep(p: Plan, s: System, e: Event, drained: bool)
    requires Inv(p, s, drained) && !(drained && Completes(s, e, true))
    ensures Inv(p, Happen(p, s, e), drained || Completes(s, e, false))
  {
    if e.Clear? {
      OrderTakesNew(s, e.w);
    }
    AccountedStep(p, s, e);
    AnsweredStep(p, s, e);
    if drained {
      DrainedStep(p, s, e);
    } else if Completes(s, e, false) {
      EmptyStep(p, s, e);
    } else {
      TokenStep(p, s, e);
      OrderStep(p, s, e);
    }
  }

  lemma {:induction false} InvAlways(p: Plan, s: System, es: seq<Event>)
    requires IsNew(s) && !EmptyBeforeJob(Completed(p, s, es))
    ensures Inv(p, Run(p, s, es), false in Completed(p, s, es))
  {
    if es != [] {
      var n := |es| - 1;
      var before := Completed(p, s, es[..n]);
      var after := Completed(p, s, es);
      if after != before {
        assert after[..|before|] == before;
      }
      InvAlways(p, s, es[..n]);
      InvStep(p, Run(p, s, es[..n]), es[n], false in before);
    }
  }

  // ------------------------------------------------------------------------ a single worker

  /** Neither the job that waits nor the one that the only worker has read has been taken. */
  ghost predicate Alone(s: System) {
    && |s.workers| <= 1
    && (s.pending.Some? ==> s.pending.value < s.completed && s.pending.value !in s.taken)
    && (forall w :: 0 <= w < |s.workers| && s.workers[w].HasRead? && s.workers[w].seen.Some? ==>
          s.workers[w].seen.value < s.completed && s.workers[w].seen.value !in s.taken)
    && (forall j :: j in s.taken ==> j < s.completed)
  }

  lemma AloneStep(p: Plan, s: System, e: Event)
    requires Alone(s)
    ensures Alone(Happen(p, s, e))
  {
    if !e.Clear? {
      assert Happen(p, s, e).taken == s.taken;
    }
  }

  lemma {:induction false} AloneAlways(p: Plan, s: System, es: seq<Event>)
    requires IsNew(s) && |s.workers| <= 1
    ensures var t := Run(p, s, es); Alone(t) && Accounted(t) && Answered(p, t)
  {
    if es != [] {
      var n := |es| - 1;
      AloneAlways(p, s, es[..n]);
      var t := Run(p, s, es[..n]);
      AloneStep(p, t, es[n]);
      AccountedStep(p, t, es[n]);
      AnsweredStep(p, t, es[n]);
    }
  }

  // --------------------------------------------------------------------- what the runs keep

  /** With any number of workers and any interleaving: the jobs taken are all the completed ones
      but at most the one that waits, each taken once, in order; a packet is only completed while
      the slot is empty, so that a waiting job is never overwritten. */
  lemma HandoffIsAQueue(p: Plan, s: System, es: seq<Event>)
    requires IsNew(s) && !EmptyBeforeJob(Completed(p, s, es))
    ensures var t := Run(p, s, es);
            && (forall i :: 0 <= i < |t.taken| ==> t.taken[i] == i)
            && t.completed == |t.taken| + (if t.pending.Some? then 1 else 0)
            && (t.pending.Some? ==> t.pending.value == |t.taken|)
            && (t.producer.Filling? ==> t.pending.None?)
  {
    InvAlways(p, s, es);
  }

  lemma NothingLost(p: Plan, s: System, es: seq<Event>, job: nat)
    requires IsNew(s) && !EmptyBeforeJob(Completed(p, s, es))
    ensures !Lost(Run(p, s, es), job)
  {
    InvAlways(p, s, es);
    TakenOrWaiting(Run(p, s, es), job);
  }

  lemma TakenOrWaiting(t: System, job: nat)
    requires InOrder(t)
    ensures !Lost(t, job)
  {
    if job < |t.taken| {
      assert t.taken[job] == job;
    }
  }

  /** Nothing is under way: no worker has a job, and no callback is owed. */
  predicate Quiet(s: System) {
    s.queued == multiset{} && forall w :: 0 <= w < |s.workers| ==> !s.workers[w].Serving?
  }

  /** Every job is freed at most once and sent nothing but what is due to it; once nothing is under
      way, every job that was taken has been freed exactly once and sent exactly what is due. One
      worker keeps this in every run; more of them as long as no job follows an empty packet. */
  lemma {:induction false} JobsEndOnce(p: Plan, s: System, es: seq<Event>, j: nat)
    requires IsNew(s) && (|s.workers| <= 1 || !EmptyBeforeJob(Completed(p, s, es)))
    ensures var t := Run(p, s, es);
            && t.freed[j] <= 1 && (t.freed[j] == 1 ==> j in t.taken)
            && RepliesTo(t.sent, j) == (if t.freed[j] == 0 then [] else Due(p, j))
            && (Quiet(t) && j in t.taken ==> t.freed[j] == 1)
  {
    if |s.workers| <= 1 {
      AloneAlways(p, s, es);
    } else {
      InvAlways(p, s, es);
    }
    Settled(p, Run(p, s, es), j);
  }

  lemma Settled(p: Plan, t: System, j: nat)
    requires Accounted(t) && Answered(p, t)
    ensures t.freed[j] <= 1 && (t.freed[j] == 1 ==> j in t.taken)
    ensures RepliesTo(t.sent, j) == if t.freed[j] == 0 then [] else Due(p, j)
    ensures Quiet(t) && j in t.taken ==> t.freed[j] == 1
  {
    assert t.freed[j] > 0 ==> j in t.freed;
    assert Quiet(t) ==> !Served(t, j);
  }

  // ------------------------------------------------------- completions with nothing to store

  /** Completed, but neither in the slot, nor seen by a worker, nor ever taken. */
  ghost predicate Lost(s: System, job: nat) {
    && job < s.completed && s.pending != Some(job) && job !in s.taken
    && forall w :: 0 <= w < |s.workers| ==> s.workers[w] != HasRead(Some(job))
  }

  lemma LostStep(p: Plan, s: System, e: Event, job: nat)
    requires Lost(s, job)
    ensures Lost(Happen(p, s, e), job)
  {
    var t := Happen(p, s, e);
    if e.Clear? && t != s && s.workers[e.w].seen.Some? {
      assert s.workers[e.w].seen.value != job;
    }
  }

  /** A job that is in no place is never taken later. */
  lemma {:induction false} LostForever(p: Plan, s: System, es: seq<Event>, job: nat)
    requires Lost(s, job)
    ensures Lost(Run(p, s, es), job)
  {
    if es != [] {
      var n := |es| - 1;
      LostForever(p, s, es[..n], job);
      LostStep(p, Run(p, s, es[..n]), es[n], job);
    }
  }

  lemma {:induction false} RunConcat(p: Plan, s: System, a: seq<Event>, b: seq<Event>)
    ensures Run(p, s, a + b) == Run(p, Run(p, s, a), b)
    ensures Completed(p, s, a + b) == Completed(p, s, a) + Completed(p, Run(p, s, a), b)
  {
    if b == [] {
      assert a + b == a;
    } else {
      var n := |b| - 1;
      assert (a + b)[..|a + b| - 1] == a + b[..n] && (a + b)[|a + b| - 1] == b[n];
      RunConcat(p, s, a, b[..n]);
    }
  }

  /** Runs `t` on to `u`, adding `cs` to the packets completed. */
  ghost predicate Leads(p: Plan, t: System, es: seq<Event>, u: System, cs: seq<bool>) {
    Run(p, t, es) == u && Completed(p, t, es) == cs
  }

  lemma Next(p: Plan, s: System, es: seq<Event>, t: System, cs: seq<bool>, e: Event)
    requires Leads(p, s, es, t, cs)
    ensures Leads(p, s, es + [e], Happen(p, t, e),
                  cs + if e.Complete? && t.producer.Filling? then [e.hasJob] else [])
  {
    assert (es + [e])[..|es|] == es;
  }

  /** The sink tests the slot, worker 0 waits, and nobody else does anything. */
  ghost predicate Ready(s: System) {
    && s.pending.None? && s.producer.Testing? && |s.workers| > 0
    && (forall w :: 0 <= w < |s.workers| ==> s.workers[w].Waiting?)
    && forall i :: 0 <= i < |s.taken| ==> s.taken[i] < s.completed
  }

  ghost function Posted(b: bool): seq<Event> {
    [] + [Test] + [Complete(b)] + [Post]
  }

  lemma PostedLeads(p: Plan, s: System, b: bool)
    requires s.pending.None? && s.producer.Testing?
    ensures Leads(p, s, Posted(b),
                  if b then s.(pending := Some(s.completed), completed := s.completed + 1, sem := s.sem + 1)
                  else s.(sem := s.sem + 1), [b])
  {
    assert Leads(p, s, [], s, []);
    Next(p, s, [], s, [], Test);
    var t := Happen(p, s, Test);
    Next(p, s, [] + [Test], t, [], Complete(b));
    Next(p, s, [] + [Test] + [Complete(b)], Happen(p, t, Complete(b)), [b], Post);
  }

  ghost const SEEN: seq<Event> := [] + [Wake(0)] + [Read(0)]
  ghost const SERVED: seq<Event> := [] + [Clear(0)] + [Finish(0)]

  lemma SeenLeads(p: Plan, s: System)
    requires |s.workers| > 0 && s.workers[0].Waiting? && s.sem > 0
    ensures Leads(p, s, SEEN, s.(sem := s.sem - 1, workers := s.workers[0 := HasRead(s.pending)]), [])
  {
    assert Leads(p, s, [], s, []);
    Next(p, s, [], s, [], Wake(0));
    var t := s.(sem := s.sem - 1, workers := s.workers[0 := Awake]);
    Next(p, s, [] + [Wake(0)], t, [], Read(0));
    assert t.workers[0 := HasRead(s.pending)] == s.workers[0 := HasRead(s.pending)];
  }

  lemma ServedLeads(p: Plan, s: System)
    requires |s.workers| > 0 && s.workers[0].HasRead? && s.producer.Testing?
    requires forall w :: 0 < w < |s.workers| ==> s.workers[w].Waiting?
    requires s.workers[0].seen.Some? ==> s.workers[0].seen.value < s.completed
    requires forall i :: 0 <= i < |s.taken| ==> s.taken[i] < s.completed
    ensures Ready(Run(p, s, SERVED)) && Completed(p, s, SERVED) == []
    ensures Run(p, s, SERVED).completed == s.completed
    ensures s.workers[0].seen.None? ==> Run(p, s, SERVED).taken == s.taken
  {
    assert Leads(p, s, [], s, []);
    Next(p, s, [], s, [], Clear(0));
    var t := Happen(p, s, Clear(0));
    Next(p, s, [] + [Clear(0)], t, [], Finish(0));
  }

  /** One packet from completion to disposal, with nothing in between. */
  ghost function Handled(b: bool): seq<Event> {
    Posted(b) + SEEN + SERVED
  }

  lemma HandledLeads(p: Plan, s: System, b: bool)
    requires Ready(s)
    ensures Ready(Run(p, s, Handled(b))) && Completed(p, s, Handled(b)) == [b]
  {
    PostedLeads(p, s, b);
    var t := Run(p, s, Posted(b));
    SeenLeads(p, t);
    RunConcat(p, s, Posted(b), SEEN);
    ServedLeads(p, Run(p, t, SEEN));
    RunConcat(p, s, Posted(b) + SEEN, SERVED);
  }

  /** A packet without a job, and a job that is completed between the read and the clear of the
      worker that was woken for nothing. */
  ghost const LOSING: seq<Event> := Posted(false) + SEEN + Posted(true) + SERVED

  lemma LosingLeads(p: Plan, s: System)
    requires Ready(s)
    ensures var t := Run(p, s, LOSING);
            Ready(t) && Completed(p, s, LOSING) == [false, true] && Lost(t, s.completed)
  {
    PostedLeads(p, s, false);
    var t := Run(p, s, Posted(false));
    SeenLeads(p, t);
    RunConcat(p, s, Posted(false), SEEN);
    var u := Run(p, t, SEEN);
    PostedLeads(p, u, true);
    RunConcat(p, s, Posted(false) + SEEN, Posted(true));
    ServedLeads(p, Run(p, u, Posted(true)));
    RunConcat(p, s, Posted(false) + SEEN + Posted(true), SERVED);
  }

  /** Handles every packet on its own. */
  ghost function HandledAll(cs: seq<bool>): seq<Event> {
    if cs == [] then [] else HandledAll(cs[..|cs| - 1]) + Handled(cs[|cs| - 1])
  }

  /** Two runs, one after the other, the second from a state `t` that is ready. */
  lemma {:induction false} Append(p: Plan, s: System, a: seq<Event>, b: seq<Event>, cs: seq<bool>, ds: seq<bool>)
    requires Completed(p, s, a) == cs && Completed(p, Run(p, s, a), b) == ds
    ensures Run(p, s, a + b) == Run(p, Run(p, s, a), b) && Completed(p, s, a + b) == cs + ds
  {
    RunConcat(p, s, a, b);
  }

  lemma StillReady(p: Plan, s: System, early: seq<Event>, cs: seq<bool>, c: bool)
    requires Ready(Run(p, s, early)) && Completed(p, s, early) == cs
    ensures var es := early + Handled(c);
            Ready(Run(p, s, es)) && Completed(p, s, es) == cs + [c]
  {
    HandledLeads(p, Run(p, s, early), c);
    Append(p, s, early, Handled(c), cs, [c]);
  }

  lemma {:induction false} HandledAllLeads(p: Plan, s: System, cs: seq<bool>)
    requires Ready(s)
    ensures Ready(Run(p, s, HandledAll(cs))) && Completed(p, s, HandledAll(cs)) == cs
  {
    if cs != [] {
      var n := |cs| - 1;
      HandledAllLeads(p, s, cs[..n]);
      StillReady(p, s, HandledAll(cs[..n]), cs[..n], cs[n]);
      assert cs == cs[..n] + [cs[n]];
    }
  }

  /** Where a job follows an empty packet directly. */
  function GapAt(cs: seq<bool>): (i: nat)
    requires EmptyBeforeJob(cs)
    ensures i + 2 <= |cs| && cs[i..i + 2] == [false, true]
  {
    var n := |cs| - 1;
    if EmptyBeforeJob(cs[..n]) then
      var i := GapAt(cs[..n]);
      assert cs[..n][i..i + 2] == cs[i..i + 2];
      i
    else
      EmptyJustBefore(cs);
      n - 1
  }

  lemma EmptyJustBefore(cs: seq<bool>)
    requires EmptyBeforeJob(cs) && !EmptyBeforeJob(cs[..|cs| - 1])
    ensures |cs| >= 2 && cs[|cs| - 2..] == [false, true]
  {
    var before := cs[..|cs| - 1];
    var n := |before| - 1;
    assert false in before && before == before[..n] + [before[n]];
  }

  /** Handles packets on their own but for an empty one and the job after it, which `block` does. */
  ghost function Around(cs: seq<bool>, block: seq<Event>): seq<Event>
    requires EmptyBeforeJob(cs)
  {
    var i := GapAt(cs);
    HandledAll(cs[..i]) + block + HandledAll(cs[i + 2..])
  }

  /** `block` between packets that are handled on their own. */
  lemma {:induction false} BetweenLeads(p: Plan, s: System, cs: seq<bool>, block: seq<Event>, ds: seq<bool>)
    requires Ready(s)
    requires var t := Run(p, s, HandledAll(cs)); Ready(Run(p, t, block)) && Completed(p, t, block) == [false, true]
    ensures var es := HandledAll(cs) + block + HandledAll(ds);
            && Completed(p, s, es) == cs + [false, true] + ds
            && Run(p, s, es) == Run(p, Run(p, Run(p, s, HandledAll(cs)), block), HandledAll(ds))
  {
    HandledAllLeads(p, s, cs);
    Append(p, s, HandledAll(cs), block, cs, [false, true]);
    HandledAllLeads(p, Run(p, s, HandledAll(cs) + block), ds);
    Append(p, s, HandledAll(cs) + block, HandledAll(ds), cs + [false, true], ds);
  }

  lemma GapSplits(cs: seq<bool>, i: nat)
    requires i + 2 <= |cs| && cs[i..i + 2] == [false, true]
    ensures cs == cs[..i] + [false, true] + cs[i + 2..]
  {
    assert cs == cs[..i] + cs[i..i + 2] + cs[i + 2..];
  }

  lemma {:induction false} AroundLeads(p: Plan, s: System, cs: seq<bool>, block: seq<Event>)
    requires Ready(s) && EmptyBeforeJob(cs)
    requires var t := Run(p, s, HandledAll(cs[..GapAt(cs)]));
             Ready(Run(p, t, block)) && Completed(p, t, block) == [false, true]
    ensures Completed(p, s, Around(cs, block)) == cs
    ensures var u := Run(p, Run(p, s, HandledAll(cs[..GapAt(cs)])), block);
            Run(p, s, Around(cs, block)) == Run(p, u, HandledAll(cs[GapAt(cs) + 2..]))
  {
    var i := GapAt(cs);
    BetweenLeads(p, s, cs[..i], block, cs[i + 2..]);
    GapSplits(cs, i);
  }

  lemma LosingAllLeads(p: Plan, s: System, cs: seq<bool>) returns (job: nat)
    requires Ready(s) && EmptyBeforeJob(cs)
    ensures var es := Around(cs, LOSING);
            Completed(p, s, es) == cs && Lost(Run(p, s, es), job)
  {
    var i := GapAt(cs);
    HandledAllLeads(p, s, cs[..i]);
    var t := Run(p, s, HandledAll(cs[..i]));
    LosingLeads(p, t);
    AroundLeads(p, s, cs, LOSING);
    job := t.completed;
    LostForever(p, Run(p, t, LOSING), HandledAll(cs[i + 2..]), job);
  }

  /** Some schedule completes the packets `cs` and loses a job. */
  ghost predicate CanLose(p: Plan, s: System, cs: seq<bool>) {
    exists es: seq<Event>, job: nat :: Completed(p, s, es) == cs && Lost(Run(p, s, es), job)
  }

  /** A job can be lost if and only if some packet before it posts without having a job. */
  lemma CanLoseIff(p: Plan, s: System, cs: seq<bool>)
    requires IsNew(s) && |s.workers| > 0
    ensures CanLose(p, s, cs) <==> EmptyBeforeJob(cs)
  {
    if EmptyBeforeJob(cs) {
      var job := LosingAllLeads(p, s, cs);
      assert Completed(p, s, Around(cs, LOSING)) == cs && Lost(Run(p, s, Around(cs, LOSING)), job);
    } else {
      forall es: seq<Event>, job: nat | Completed(p, s, es) == cs
        ensures !Lost(Run(p, s, es), job)
      {
        NothingLost(p, s, es, job);
      }
    }
  }

  // ------------------------------------------------------------------- a job served twice

  ghost const BOTH_WOKEN: seq<Event> := Posted(false) + ([] + [Wake(0)]) + Posted(true) + ([] + [Wake(1)])
  ghost const BOTH_READ: seq<Event> := [] + [Read(0)] + [Read(1)] + [Clear(0)] + [Clear(1)]

  ghost function BothDone(job: nat): seq<Event> {
    [] + [Finish(0)] + [Finish(1)] + [Callback(job)] + [Callback(job)]
  }

  /** The worker woken for nothing and the one woken for the job both read the slot before either
      clears it. */
  ghost function Doubling(job: nat): seq<Event> {
    BOTH_WOKEN + BOTH_READ + BothDone(job)
  }

  lemma One(p: Plan, s: System, e: Event)
    requires !e.Complete?
    ensures Leads(p, s, [] + [e], Happen(p, s, e), [])
  {
    assert Leads(p, s, [], s, []);
    Next(p, s, [], s, [], e);
  }

  lemma BothWoken(p: Plan, s: System)
    requires Ready(s) && |s.workers| >= 2
    ensures var job := s.completed;
            Leads(p, s, BOTH_WOKEN,
                  s.(pending := Some(job), completed := job + 1,
                     workers := s.workers[0 := Awake][1 := Awake]), [false, true])
  {
    PostedLeads(p, s, false);
    var t1 := s.(sem := s.sem + 1);
    One(p, t1, Wake(0));
    var t2 := s.(workers := s.workers[0 := Awake]);
    Append(p, s, Posted(false), [] + [Wake(0)], [false], []);
    PostedLeads(p, t2, true);
    var t3 := t2.(pending := Some(s.completed), completed := s.completed + 1, sem := s.sem + 1);
    Append(p, s, Posted(false) + ([] + [Wake(0)]), Posted(true), [false] + [], [true]);
    One(p, t3, Wake(1));
    Append(p, s, Posted(false) + ([] + [Wake(0)]) + Posted(true), [] + [Wake(1)], [false] + [] + [true], []);
  }

  lemma BothRead(p: Plan, s: System, job: nat)
    requires |s.workers| >= 2 && s.workers[0].Awake? && s.workers[1].Awake? && s.pending == Some(job)
    ensures Leads(p, s, BOTH_READ,
                  s.(pending := None, taken := s.taken + [job] + [job],
                     workers := s.workers[0 := Serving(job)][1 := Serving(job)]), [])
  {
    assert Leads(p, s, [], s, []);
    Next(p, s, [], s, [], Read(0));
    var t1 := s.(workers := s.workers[0 := HasRead(Some(job))]);
    Next(p, s, [] + [Read(0)], t1, [], Read(1));
    var t2 := s.(workers := s.workers[0 := HasRead(Some(job))][1 := HasRead(Some(job))]);
    Next(p, s, [] + [Read(0)] + [Read(1)], t2, [], Clear(0));
    var t3 := t2.(pending := None, taken := s.taken + [job], workers := t2.workers[0 := Serving(job)]);
    Next(p, s, [] + [Read(0)] + [Read(1)] + [Clear(0)], t3, [], Clear(1));
    assert t3.workers[1 := Serving(job)] == s.workers[0 := Serving(job)][1 := Serving(job)];
  }

  /** Whether the job is freed at once or by its callbacks, it is freed twice. */
  lemma FinishesOne(p: Plan, s: System, w: nat, job: nat)
    requires w < |s.workers| && s.workers[w] == Serving(job)
    ensures var t := Happen(p, s, Finish(w));
            && t.workers == s.workers[w := Waiting]
            && t.pending == s.pending && t.producer == s.producer && t.taken == s.taken && t.completed == s.completed
            && t.freed[job] == s.freed[job] + (if p.serve(job).Free? then 1 else 0)
            && t.queued[job] == s.queued[job] + (if p.serve(job).Queue? then 1 else 0)
  {
  }

  lemma CallsBack(p: Plan, s: System, job: nat)
    ensures var t := Happen(p, s, Callback(job));
            && t.workers == s.workers && t.pending == s.pending && t.producer == s.producer
            && t.taken == s.taken && t.completed == s.completed
            && t.freed[job] == s.freed[job] + (if s.queued[job] > 0 then 1 else 0)
            && t.queued[job] == if s.queued[job] > 0 then s.queued[job] - 1 else 0
  {
  }

  lemma BothDoneLeads(p: Plan, s: System, job: nat)
    requires |s.workers| >= 2 && s.workers[0] == Serving(job) && s.workers[1] == Serving(job)
    ensures var t := Run(p, s, BothDone(job));
            && Completed(p, s, BothDone(job)) == [] && t.freed[job] >= s.freed[job] + 2
            && t.workers == s.workers[0 := Waiting][1 := Waiting]
            && t.pending == s.pending && t.producer == s.producer && t.taken == s.taken
            && t.completed == s.completed
  {
    assert Leads(p, s, [], s, []);
    Next(p, s, [], s, [], Finish(0));
    var t1 := Happen(p, s, Finish(0));
    Next(p, s, [] + [Finish(0)], t1, [], Finish(1));
    var t2 := Happen(p, t1, Finish(1));
    Next(p, s, [] + [Finish(0)] + [Finish(1)], t2, [], Callback(job));
    var t3 := Happen(p, t2, Callback(job));
    Next(p, s, [] + [Finish(0)] + [Finish(1)] + [Callback(job)], t3, [], Callback(job));
    FinishesOne(p, s, 0, job);
    FinishesOne(p, t1, 1, job);
    CallsBack(p, t2, job);
    CallsBack(p, t3, job);
  }

  lemma DoublingLeads(p: Plan, s: System)
    requires Ready(s) && |s.workers| >= 2
    ensures var t := Run(p, s, Doubling(s.completed));
            Ready(t) && Completed(p, s, Doubling(s.completed)) == [false, true]
            && t.freed[s.completed] >= 2
  {
    var job := s.completed;
    BothWoken(p, s);
    var t := Run(p, s, BOTH_WOKEN);
    BothRead(p, t, job);
    var u := Run(p, t, BOTH_READ);
    BothDoneLeads(p, u, job);
    Append(p, s, BOTH_WOKEN, BOTH_READ, [false, true], []);
    Append(p, s, BOTH_WOKEN + BOTH_READ, BothDone(job), [false, true] + [], []);
    var v := Run(p, u, BothDone(job));
    assert v.workers == s.workers;
    assert forall i :: 0 <= i < |v.taken| ==> v.taken[i] < v.completed;
  }

  lemma FreedStep(p: Plan, s: System, e: Event, job: nat)
    ensures Happen(p, s, e).freed[job] >= s.freed[job]
  {
  }

  /** For example on a new system: an empty packet, a request, and two workers. */
  lemma JobFreedTwice(p: Plan, s: System)
    requires IsNew(s) && |s.workers| >= 2
    ensures Completed(p, s, Doubling(0)) == [false, true] && Run(p, s, Doubling(0)).freed[0] >= 2
  {
    DoublingLeads(p, s);
  }

  lemma {:induction false} FreedGrows(p: Plan, s: System, es: seq<Event>, job: nat)
    ensures Run(p, s, es).freed[job] >= s.freed[job]
  {
    if es != [] {
      var n := |es| - 1;
      FreedGrows(p, s, es[..n], job);
      FreedStep(p, Run(p, s, es[..n]), es[n], job);
    }
  }

  /** Some schedule completes the packets `cs` and frees a job twice. */
  ghost predicate CanFreeTwice(p: Plan, s: System, cs: seq<bool>) {
    exists es: seq<Event>, job: nat :: Completed(p, s, es) == cs && Run(p, s, es).freed[job] >= 2
  }

  /** A job can be freed twice if and only if there are two workers or more and some packet before
      it posts without having a job. */
  lemma CanFreeTwiceIff(p: Plan, s: System, cs: seq<bool>)
    requires IsNew(s)
    ensures CanFreeTwice(p, s, cs) <==> EmptyBeforeJob(cs) && |s.workers| >= 2
  {
    if EmptyBeforeJob(cs) && |s.workers| >= 2 {
      var i := GapAt(cs);
      HandledAllLeads(p, s, cs[..i]);
      var t := Run(p, s, HandledAll(cs[..i]));
      WorkersStay(p, s, HandledAll(cs[..i]));
      DoublingLeads(p, t);
      AroundLeads(p, s, cs, Doubling(t.completed));
      var es := Around(cs, Doubling(t.completed));
      FreedGrows(p, Run(p, t, Doubling(t.completed)), HandledAll(cs[i + 2..]), t.completed);
      assert Completed(p, s, es) == cs && Run(p, s, es).freed[t.completed] >= 2;
    } else {
      forall es: seq<Event>, job: nat | Completed(p, s, es) == cs
        ensures Run(p, s, es).freed[job] <= 1
      {
        JobsEndOnce(p, s, es, job);
      }
    }
  }

  lemma WorkersStep(p: Plan, s: System, e: Event)
    ensures |Happen(p, s, e).workers| == |s.workers|
  {
  }

  lemma {:induction false} WorkersStay(p: Plan, s: System, es: seq<Event>)
    ensures |Run(p, s, es).workers| == |s.workers|
  {
    if es != [] {
      var n := |es| - 1;
      WorkersStay(p, s, es[..n]);
      WorkersStep(p, Run(p, s, es[..n]), es[n]);
    }
  }

  // ------------------------------------------------------------------- every job can be served

  /** What job `j` adds to what is sent. */
  function DueSending(p: Plan, j: nat): seq<Sending> {
    var due := Due(p, j);
    if due == [] then [] else [Sending(j, due[0])]
  }

  function InTurn(n: nat): (r: seq<nat>)
    ensures |r| == n && forall j :: 0 <= j < n ==> r[j] == j
  {
    if n == 0 then [] else InTurn(n - 1) + [n - 1]
  }

  /** One job after the other has been taken and freed, and nothing else has happened. */
  function AllServed(s: System, n: nat, sent: seq<Sending>): System {
    s.(completed := n, taken := InTurn(n), freed := multiset(InTurn(n)), sent := sent)
  }

  ghost function ServedPacket(b: bool, job: nat): seq<Event> {
    if b then Handled(true) + ([] + [Callback(job)]) else Handled(false)
  }

  ghost predicate Resting(s: System) {
    && s.pending.None? && s.sem == 0 && s.producer.Testing? && s.queued == multiset{} && |s.workers| > 0
    && forall w :: 0 <= w < |s.workers| ==> s.workers[w].Waiting?
  }

  lemma EmptyHandled(p: Plan, s: System)
    requires Resting(s)
    ensures Leads(p, s, Handled(false), s, [false])
  {
    PostedLeads(p, s, false);
    var t := s.(sem := s.sem + 1);
    SeenLeads(p, t);
    Append(p, s, Posted(false), SEEN, [false], []);
    var u := s.(workers := s.workers[0 := HasRead(None)]);
    One(p, u, Clear(0));
    assert u.workers[0 := Waiting] == s.workers;
    One(p, s, Finish(0));
    Append(p, u, [] + [Clear(0)], [] + [Finish(0)], [], []);
    assert SERVED == [] + [Clear(0)] + ([] + [Finish(0)]);
    Append(p, s, Posted(false) + SEEN, SERVED, [false] + [], []);
  }

  /** The worker has read the job and nothing else is under way. */
  lemma JobTaken(p: Plan, s: System)
    requires Resting(s)
    ensures Leads(p, s, Posted(true) + SEEN + ([] + [Clear(0)]),
                  s.(completed := s.completed + 1, taken := s.taken + [s.completed],
                     workers := s.workers[0 := Serving(s.completed)]), [true])
  {
    var job := s.completed;
    PostedLeads(p, s, true);
    var t := s.(pending := Some(job), completed := job + 1, sem := s.sem + 1);
    SeenLeads(p, t);
    Append(p, s, Posted(true), SEEN, [true], []);
    var u := t.(sem := s.sem, workers := s.workers[0 := HasRead(Some(job))]);
    One(p, u, Clear(0));
    Append(p, s, Posted(true) + SEEN, [] + [Clear(0)], [true] + [], []);
    assert u.workers[0 := Serving(job)] == s.workers[0 := Serving(job)];
  }

  lemma JobDone(p: Plan, s: System, job: nat)
    requires Resting(s)
    ensures Leads(p, s.(workers := s.workers[0 := Serving(job)]), [] + [Finish(0)] + [Callback(job)],
                  s.(freed := s.freed + multiset{job}, sent := s.sent + DueSending(p, job)), [])
  {
    var u := s.(workers := s.workers[0 := Serving(job)]);
    One(p, u, Finish(0));
    var v := Happen(p, u, Finish(0));
    assert u.workers[0 := Waiting] == s.workers;
    One(p, v, Callback(job));
    Append(p, u, [] + [Finish(0)], [] + [Callback(job)], [], []);
    assert [] + [Finish(0)] + ([] + [Callback(job)]) == [] + [Finish(0)] + [Callback(job)];
    assert multiset{job} - multiset{job} == multiset{};
    assert s.sent + [] == s.sent;
  }

  lemma JobHandled(p: Plan, s: System)
    requires Resting(s)
    ensures var job := s.completed;
            Leads(p, s, ServedPacket(true, job),
                  s.(completed := job + 1, taken := s.taken + [job], freed := s.freed + multiset{job},
                     sent := s.sent + DueSending(p, job)), [true])
  {
    var job := s.completed;
    var taking, ending := Posted(true) + SEEN + ([] + [Clear(0)]), [] + [Finish(0)] + [Callback(job)];
    JobTaken(p, s);
    JobDone(p, s.(completed := job + 1, taken := s.taken + [job]), job);
    Append(p, s, taking, ending, [true], []);
    assert taking + ending == ServedPacket(true, job);
  }

  ghost function ServeEach(cs: seq<bool>): seq<Event> {
    if cs == [] then []
    else
      var n := |cs| - 1;
      ServeEach(cs[..n]) + ServedPacket(cs[n], Jobs(cs[..n]))
  }

  /** How many of the packets have a job. */
  function Jobs(cs: seq<bool>): nat {
    if cs == [] then 0 else Jobs(cs[..|cs| - 1]) + if cs[|cs| - 1] then 1 else 0
  }

  lemma AllServedNext(s: System, n: nat, sent: seq<Sending>, more: seq<Sending>)
    ensures var t := AllServed(s, n, sent);
            AllServed(s, n + 1, sent + more) ==
            t.(completed := n + 1, taken := t.taken + [n], freed := t.freed + multiset{n}, sent := t.sent + more)
  {
  }

  /** The first `n` jobs have been sent what is due to them, the others nothing. */
  ghost predicate AnsweredTo(p: Plan, sent: seq<Sending>, n: nat) {
    forall j: nat :: RepliesTo(sent, j) == if j < n then Due(p, j) else []
  }

  lemma AnsweredNext(p: Plan, sent: seq<Sending>, n: nat)
    requires AnsweredTo(p, sent, n)
    ensures AnsweredTo(p, sent + DueSending(p, n), n + 1)
  {
    forall j: nat
      ensures RepliesTo(sent + DueSending(p, n), j) == if j < n + 1 then Due(p, j) else []
    {
      OneSent(p, sent, n, j);
      assert RepliesTo(sent, j) == if j < n then Due(p, j) else [];
    }
  }

  lemma NoneAnswered(p: Plan)
    ensures AnsweredTo(p, [], 0)
  {
  }

  lemma {:induction false} ServeNext(p: Plan, s: System, early: seq<Event>, cs: seq<bool>, b: bool, k: nat,
                                     sent: seq<Sending>) returns (now: seq<Sending>)
    requires IsNew(s) && |s.workers| > 0 && Leads(p, s, early, AllServed(s, k, sent), cs)
    requires AnsweredTo(p, sent, k)
    ensures var n := if b then k + 1 else k;
            Leads(p, s, early + ServedPacket(b, k), AllServed(s, n, now), cs + [b]) && AnsweredTo(p, now, n)
  {
    now := sent;
    if b {
      now := sent + DueSending(p, k);
      JobHandled(p, AllServed(s, k, sent));
      AllServedNext(s, k, sent, DueSending(p, k));
      AnsweredNext(p, sent, k);
    } else {
      EmptyHandled(p, AllServed(s, k, sent));
    }
    Append(p, s, early, ServedPacket(b, k), cs, [b]);
  }

  /** From a new system with at least one worker, whatever packets come and whatever the plan: a
      schedule that completes them and serves every job, in order, sending exactly what is due. */
  lemma {:induction false} CanServeAll(p: Plan, s: System, cs: seq<bool>) returns (sent: seq<Sending>)
    requires IsNew(s) && |s.workers| > 0
    ensures Leads(p, s, ServeEach(cs), AllServed(s, Jobs(cs), sent), cs) && AnsweredTo(p, sent, Jobs(cs))
  {
    if cs == [] {
      sent := [];
      NoneAnswered(p);
    } else {
      var n := |cs| - 1;
      var es := ServeEach(cs[..n]) + ServedPacket(cs[n], Jobs(cs[..n]));
      sent := CanServeAll(p, s, cs[..n]);
      sent := ServeNext(p, s, ServeEach(cs[..n]), cs[..n], cs[n], Jobs(cs[..n]), sent);
      ServeLast(cs);
      assert Leads(p, s, es, AllServed(s, Jobs(cs), sent), cs);
    }
  }

  lemma ServeLast(cs: seq<bool>)
    requires cs != []
    ensures var n := |cs| - 1; cs[..n] + [cs[n]] == cs
    ensures var n := |cs| - 1; Jobs(cs) == if cs[n] then Jobs(cs[..n]) + 1 else Jobs(cs[..n])
  {
  }

  lemma OneSent(p: Plan, before: seq<Sending>, n: nat, j: nat)
    ensures RepliesTo(before + DueSending(p, n), j) == RepliesTo(before, j) + if j == n then Due(p, j) else []
  {
    var due := Due(p, n);
    if due == [] {
      assert before + [] == before;
    } else {
      assert due == [due[0]];
      RepliesNext(before, Sending(n, due[0]), j);
    }
  }

  lemma {:induction false} OnceInTurn(n: nat, j: nat)
    ensures multiset(InTurn(n))[j] == if j < n then 1 else 0
  {
    if n > 0 {
      OnceInTurn(n - 1, j);
    }
  }

  /** After it nothing is under way, and each of the `n` jobs has been freed once and sent exactly
      what is due to it. */
  lemma AllServedAnswers(p: Plan, s: System, n: nat, sent: seq<Sending>, j: nat)
    requires IsNew(s) && |s.workers| > 0 && AnsweredTo(p, sent, n)
    ensures var t := AllServed(s, n, sent);
            && Quiet(t) && t.pending.None? && |t.taken| == n
            && t.freed[j] == (if j < n then 1 else 0)
            && RepliesTo(t.sent, j) == if j < n then Due(p, j) else []
  {
    OnceInTurn(n, j);
  }
}
