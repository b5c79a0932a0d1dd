/** Requests over whole runs: the slot and its workers, with what serving each request comes to. */
module RpcLifecycle {
  import opened Bytes
  import opened Bson
  import opened Options
  import opened RpcReply
  import opened RpcService
  import opened RpcSlot

  /** A job's request, what the method that it may call does, with what that calls back if it is
      asynchronous, and which allocations of a reply succeed. */
  datatype Request = Request(fs: seq<Field>, behaviour: Behaviour, late: Outcome, grant: nat -> bool)

  function PlanOf(requests: nat -> Request, entries: seq<RpcService.Entry>): Plan {
    Plan((j: nat) => Disposed(requests(j).fs, entries, requests(j).behaviour, requests(j).grant),
         (j: nat) => CalledBack(requests(j).fs, requests(j).late, requests(j).grant))
  }

  /** The outcome that the request is answered with, now or when its method calls back. */
  function OutcomeFor(r: Request, entries: seq<RpcService.Entry>): Option<Outcome> {
    match Judge(r.fs, entries, r.behaviour)
    case Answer(o) => Some(o)
    case Silent => None
    case Deferred => if ValueOf(r.fs, ID).Some? then Some(r.late) else None
  }

  /** The replies that must reach the host: the outcome, or an internal error if a result finds no
      room, or none if that finds no room either. */
  function RepliesFor(r: Request, entries: seq<RpcService.Entry>): seq<seq<Byte>> {
    match OutcomeFor(r, entries)
    case None => []
    case Some(o) =>
      var id := ValueOf(r.fs, ID);
      if r.grant(0) then [Encode(Reply(id, o))]
      else if o.Success? && r.grant(1) then [Encode(Reply(id, RetryOutcome()))]
      else []
  }

  /** Only valid notifications are not answered, and they never are. */
  lemma OnlyNotificationsAreUnanswered(r: Request, entries: seq<RpcService.Entry>)
    ensures OutcomeFor(r, entries).None? <==> ValidRequest(r.fs) && ValueOf(r.fs, ID).None?
  {
    if ValidRequest(r.fs) {
      SomethingFound(r.fs, 0);
    }
  }

  /** And what a client parses from them: exactly one reply if it found room, with the request's id
      and that outcome; or with an internal error if only that found room. */
  lemma {:induction false} RepliesCarry(r: Request, entries: seq<RpcService.Entry>)
    requires var o := OutcomeFor(r, entries);
             o.Some? ==> Sendable(ValueOf(r.fs, ID), o.value) && Sendable(ValueOf(r.fs, ID), RetryOutcome())
    ensures var o := OutcomeFor(r, entries);
            var id := ValueOf(r.fs, Ascii("id"));
            var replies := RepliesFor(r, entries);
            && (o.None? ==> replies == [])
            && (o.Some? && r.grant(0) ==> |replies| == 1 && CarriesOutcome(replies[0], id, o.value))
            && (o.Some? && !r.grant(0) && o.value.Success? && r.grant(1) ==>
                  |replies| == 1 && CarriesCode(replies[0], id, -32603))
            && (o.Some? && !r.grant(0) && (o.value.Failure? || !r.grant(1)) ==> replies == [])
  {
    MemberNames();
    var o := OutcomeFor(r, entries);
    if o.Some? {
      SentCarries(ValueOf(r.fs, ID), o.value, r.grant);
    }
  }

  lemma DueIsReplies(requests: nat -> Request, entries: seq<RpcService.Entry>, j: nat)
    ensures Due(PlanOf(requests, entries), j) == RepliesFor(requests(j), entries)
  {
  }

  /** What keeps a job from being served twice. */
  predicate ServesOnce(requests: nat -> Request, entries: seq<RpcService.Entry>, s: System, es: seq<Event>) {
    |s.workers| <= 1 || !EmptyBeforeJob(Completed(PlanOf(requests, entries), s, es))
  }

  /** With one worker in every run, with more in every run in which no job follows an empty packet,
      whatever the requests: once nothing is under way, every request taken has been freed exactly
      once and answered as it must be; before that it has been sent nothing or the same. */
  lemma {:induction false} EveryRequestIsSettled(requests: nat -> Request, entries: seq<RpcService.Entry>, s: System,
                              es: seq<Event>, j: nat)
    requires IsNew(s) && ServesOnce(requests, entries, s, es)
    ensures var t := Run(PlanOf(requests, entries), s, es);
            && (t.freed[j] == 0 ==> RepliesTo(t.sent, j) == [])
            && (t.freed[j] != 0 ==> RepliesTo(t.sent, j) == RepliesFor(requests(j), entries))
            && (Quiet(t) && j in t.taken ==> t.freed[j] == 1)
  {
    JobsEndOnce(PlanOf(requests, entries), s, es, j);
    DueIsReplies(requests, entries, j);
  }

  /** So at rest a request with an id has been answered exactly once, unless there was no room for
      the reply and, after a success, none for an internal error; and a notification not at all. */
  lemma {:induction false} AnsweredExactlyOnce(requests: nat -> Request, entries: seq<RpcService.Entry>, s: System,
                            es: seq<Event>, j: nat)
    requires IsNew(s) && ServesOnce(requests, entries, s, es)
    requires var t := Run(PlanOf(requests, entries), s, es); Quiet(t) && j in t.taken
    ensures var replies := RepliesTo(Run(PlanOf(requests, entries), s, es).sent, j);
            var r := requests(j);
            var o := OutcomeFor(r, entries);
            && |replies| <= 1
            && (ValueOf(r.fs, ID).Some? ==> o.Some?)
            && (o.Some? ==> (replies == [] <==> !r.grant(0) && (o.value.Failure? || !r.grant(1))))
            && (ValidRequest(r.fs) && ValueOf(r.fs, ID).None? ==> replies == [])
  {
    EveryRequestIsSettled(requests, entries, s, es, j);
    OnlyNotificationsAreUnanswered(requests(j), entries);
  }
}
