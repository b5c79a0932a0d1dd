/** The table of virtual descriptors, in single steps: any number of opens racing with cleanups. */
module VfdTable {
  const FREE := -1
  const ALLOC := -2
  const CANCELED := -3

  /** One call each. A scan holds the lock; `OpenAllocated` is about to ask the system for a
      descriptor, `CleanHas` has read one from its slot, and the `Closing` phases are about to
      close one. */
  datatype Thread =
    | OpenNew
    | OpenScan(at: nat)
    | OpenAllocated(slot: nat)
    | OpenFailed(slot: nat)
    | OpenOpened(slot: nat, fd: nat)
    | OpenClosing(fd: nat)
    | OpenDone(installed: bool)
    | CleanNew
    | CleanScan(at: nat)
    | CleanHas(at: nat, fd: nat)
    | CleanClosing(at: nat, fd: nat)
    | CleanDone

  /** `open` are the descriptors that the system has handed out and not been given back. */
  datatype Table = Table(slots: seq<int>, locked: bool, open: set<int>, threads: seq<Thread>)

  predicate Locker(th: Thread) {
    th.OpenScan? || th.CleanScan? || th.CleanHas? || th.CleanClosing?
  }

  predicate Fits(s: Table, th: Thread) {
    match th
    case OpenScan(at) => at <= |s.slots|
    case OpenAllocated(v) => v < |s.slots|
    case OpenFailed(v) => v < |s.slots|
    case OpenOpened(v, _) => v < |s.slots|
    case CleanScan(at) => at <= |s.slots|
    case CleanHas(at, _) => at < |s.slots|
    case CleanClosing(at, _) => at < |s.slots|
    case _ => true
  }

  predicate Shape(s: Table) {
    forall t :: 0 <= t < |s.threads| ==> Fits(s, s.threads[t])
  }

  function Move(s: Table, t: nat, th: Thread): Table
    requires t < |s.threads|
  {
    s.(threads := s.threads[t := th])
  }

  function OpenStep(s: Table, t: nat, result: int): (r: Table)
    requires Shape(s) && t < |s.threads|
    ensures Shape(r) && |r.slots| == |s.slots| && |r.threads| == |s.threads|
  {
    match s.threads[t]
    case OpenNew =>
      if s.locked then s else Move(s, t, OpenScan(0)).(locked := true)
    case OpenScan(at) =>
      if at == |s.slots| then Move(s, t, OpenDone(false)).(locked := false)
      else if s.slots[at] == FREE then
        Move(s, t, OpenAllocated(at)).(locked := false, slots := s.slots[at := ALLOC])
      else Move(s, t, OpenScan(at + 1))
    case OpenAllocated(v) =>
      if result < 0 then Move(s, t, OpenFailed(v))
      else if result in s.open then s
      else Move(s, t, OpenOpened(v, result)).(open := s.open + {result})
    case OpenFailed(v) =>
      Move(s, t, OpenDone(false)).(slots := s.slots[v := FREE])
    case OpenOpened(v, fd) =>
      if s.slots[v] == ALLOC then Move(s, t, OpenDone(true)).(slots := s.slots[v := fd])
      else Move(s, t, OpenClosing(fd)).(slots := s.slots[v := FREE])
    case OpenClosing(fd) =>
      Move(s, t, OpenDone(false)).(open := s.open - {fd})
    case _ => s
  }

  function CleanStep(s: Table, t: nat): (r: Table)
    requires Shape(s) && t < |s.threads|
    ensures Shape(r) && |r.slots| == |s.slots| && |r.threads| == |s.threads|
  {
    match s.threads[t]
    case CleanNew =>
      if s.locked then s else Move(s, t, CleanScan(0)).(locked := true)
    case CleanScan(at) =>
      if at == |s.slots| then Move(s, t, CleanDone).(locked := false)
      else
        var u := if s.slots[at] == ALLOC then s.(slots := s.slots[at := CANCELED]) else s;
        if s.slots[at] >= 0 then Move(u, t, CleanHas(at, s.slots[at])) else Move(u, t, CleanScan(at + 1))
    case CleanHas(at, fd) =>
      Move(s, t, CleanClosing(at, fd)).(slots := s.slots[at := FREE])
    case CleanClosing(at, fd) =>
      Move(s, t, CleanScan(at + 1)).(open := s.open - {fd})
    case _ => s
  }

  predicate IsClean(th: Thread) {
    th.CleanNew? || th.CleanScan? || th.CleanHas? || th.CleanClosing? || th.CleanDone?
  }

  /** The next step of thread `t`; `result` is what the system answers if it is asked to open.
      A step that is not possible changes nothing. */
  function Step(s: Table, t: nat, result: int): (r: Table)
    requires Shape(s)
    ensures Shape(r) && |r.slots| == |s.slots| && |r.threads| == |s.threads|
  {
    if t >= |s.threads| then s
    else if IsClean(s.threads[t]) then CleanStep(s, t)
    else OpenStep(s, t, result)
  }

  /** Which thread moves, and what the system would answer it. */
  datatype Event = Event(t: nat, result: int)

  function Run(s: Table, es: seq<Event>): (r: Table)
    requires Shape(s)
    ensures Shape(r) && |r.slots| == |s.slots| && |r.threads| == |s.threads|
  {
    if es == [] then s
    else Step(Run(s, es[..|es| - 1]), es[|es| - 1].t, es[|es| - 1].result)
  }

  // ------------------------------------------------------------------------------ invariants

  /** The slot that an open has reserved and not yet settled. */
  predicate Reserves(th: Thread, v: int) {
    (th.OpenAllocated? || th.OpenFailed? || th.OpenOpened?) && th.slot == v
  }

  /** The descriptor that a thread is responsible for. */
  predicate Carries(th: Thread, fd: int) {
    (th.OpenOpened? || th.OpenClosing? || th.CleanClosing?) && th.fd == fd
  }

  ghost predicate OneLocker(s: Table) {
    && (forall t :: 0 <= t < |s.threads| && Locker(s.threads[t]) ==> s.locked)
    && (forall t, u :: 0 <= t < u < |s.threads| ==> !(Locker(s.threads[t]) && Locker(s.threads[u])))
  }

  /** A slot is marked exactly while one open in flight has reserved it. */
  ghost predicate Reserved(s: Table) {
    && (forall t :: 0 <= t < |s.threads| ==>
          forall v :: 0 <= v < |s.slots| && Reserves(s.threads[t], v) ==> s.slots[v] == ALLOC || s.slots[v] == CANCELED)
    && (forall t, u :: 0 <= t < u < |s.threads| ==>
          forall v :: 0 <= v < |s.slots| && Reserves(s.threads[t], v) ==> !Reserves(s.threads[u], v))
    && (forall v :: 0 <= v < |s.slots| ==> s.slots[v] >= CANCELED)
    && (forall v :: 0 <= v < |s.slots| && (s.slots[v] == ALLOC || s.slots[v] == CANCELED) ==> HasOwner(s, v))
  }

  ghost predicate HasOwner(s: Table, v: int) {
    exists t :: 0 <= t < |s.threads| && Reserves(s.threads[t], v)
  }

  ghost predicate HasHolder(s: Table, fd: int) {
    || (exists v :: 0 <= v < |s.slots| && s.slots[v] == fd)
    || (exists t :: 0 <= t < |s.threads| && Carries(s.threads[t], fd))
  }

  /** Every open descriptor is in exactly one place, and only open ones are anywhere. */
  ghost predicate Conserved(s: Table) {
    && (forall fd :: fd in s.open ==> fd >= 0 && HasHolder(s, fd))
    && (forall v :: 0 <= v < |s.slots| && s.slots[v] >= 0 ==> s.slots[v] in s.open)
    && (forall t, fd :: 0 <= t < |s.threads| && Carries(s.threads[t], fd) ==> fd in s.open)
    && (forall v, w :: 0 <= v < w < |s.slots| && s.slots[v] >= 0 ==> s.slots[v] != s.slots[w])
    && (forall t, v :: 0 <= t < |s.threads| && 0 <= v < |s.slots| ==> !Carries(s.threads[t], s.slots[v]))
    && (forall t, u, fd :: 0 <= t < u < |s.threads| && Carries(s.threads[t], fd) ==> !Carries(s.threads[u], fd))
  }

  /** How far the cleanup under way has got. */
  ghost predicate Swept(s: Table) {
    forall t :: 0 <= t < |s.threads| ==> SweptBy(s, s.threads[t])
  }

  ghost predicate SweptTo(s: Table, n: nat) {
    n <= |s.slots| && forall v :: 0 <= v < n ==> s.slots[v] == FREE || s.slots[v] == CANCELED
  }

  ghost predicate Inv(s: Table) {
    Shape(s) && OneLocker(s) && Reserved(s) && Conserved(s) && Swept(s)
  }

  ghost predicate IsNew(s: Table) {
    && !s.locked && s.open == {}
    && (forall v :: 0 <= v < |s.slots| ==> s.slots[v] == FREE)
    && (forall t :: 0 <= t < |s.threads| ==> s.threads[t].OpenNew? || s.threads[t].CleanNew?)
  }

  lemma LockerStep(s: Table, t: nat, result: int)
    requires Shape(s) && OneLocker(s)
    ensures OneLocker(Step(s, t, result))
  {
  }

  /** Steps that leave every slot and every reservation alone. */
  lemma ReservedStays(s: Table, r: Table)
    requires Reserved(s) && r.slots == s.slots && |r.threads| == |s.threads|
    requires forall u, v :: 0 <= u < |s.threads| && 0 <= v < |s.slots| ==>
               (Reserves(r.threads[u], v) <==> Reserves(s.threads[u], v))
    ensures Reserved(r)
  {
    forall v | 0 <= v < |r.slots| && (r.slots[v] == ALLOC || r.slots[v] == CANCELED)
      ensures HasOwner(r, v)
    {
      assert HasOwner(s, v);
      var u :| 0 <= u < |s.threads| && Reserves(s.threads[u], v);
      assert Reserves(r.threads[u], v);
    }
  }

  lemma ReservedAlloc(s: Table, t: nat, result: int)
    requires Shape(s) && Reserved(s) && t < |s.threads|
    requires s.threads[t].OpenScan? && s.threads[t].at < |s.slots| && s.slots[s.threads[t].at] == FREE
    ensures Reserved(Step(s, t, result))
  {
    var r, at := Step(s, t, result), s.threads[t].at;
    assert r.threads == s.threads[t := OpenAllocated(at)] && r.slots == s.slots[at := ALLOC];
    assert Reserves(r.threads[t], at);
    OwnersKept(s, r, t, at);
  }

  lemma ReservedRelease(s: Table, t: nat, result: int)
    requires Shape(s) && Reserved(s) && t < |s.threads|
    requires s.threads[t].OpenFailed? || s.threads[t].OpenOpened?
    ensures Reserved(Step(s, t, result))
  {
    var r, v := Step(s, t, result), s.threads[t].slot;
    assert r.slots == s.slots[v := r.slots[v]] && r.slots[v] >= FREE;
    assert r.threads == s.threads[t := r.threads[t]];
    assert forall w :: !Reserves(r.threads[t], w);
    OwnersKept(s, r, t, v);
  }

  lemma ReservedSweep(s: Table, t: nat, result: int)
    requires Shape(s) && Reserved(s) && Swept(s) && t < |s.threads|
    requires (s.threads[t].CleanScan? && s.threads[t].at < |s.slots|) || s.threads[t].CleanHas?
    ensures Reserved(Step(s, t, result))
  {
    var r, at := Step(s, t, result), s.threads[t].at;
    assert r.slots == s.slots[at := r.slots[at]] && r.threads == s.threads[t := r.threads[t]];
    assert forall w :: !Reserves(r.threads[t], w) && !Reserves(s.threads[t], w);
    OwnersKept(s, r, t, at);
    if s.slots[at] == ALLOC || s.slots[at] == CANCELED {
      assert HasOwner(s, at);
      var u :| 0 <= u < |s.threads| && Reserves(s.threads[u], at);
      assert Reserves(r.threads[u], at);
    }
  }

  /** Only thread `t` and slot `at` changed: every other marked slot keeps its owner. */
  lemma OwnersKept(s: Table, r: Table, t: nat, at: nat)
    requires Reserved(s) && t < |s.threads| && at < |s.slots|
    requires |r.slots| == |s.slots| && |r.threads| == |s.threads|
    requires r.slots == s.slots[at := r.slots[at]] && r.threads == s.threads[t := r.threads[t]]
    requires forall v :: Reserves(s.threads[t], v) ==> v == at
    ensures forall v :: 0 <= v < |r.slots| && v != at && (r.slots[v] == ALLOC || r.slots[v] == CANCELED) ==>
              HasOwner(r, v)
  {
    forall v | 0 <= v < |r.slots| && v != at && (r.slots[v] == ALLOC || r.slots[v] == CANCELED)
      ensures HasOwner(r, v)
    {
      assert HasOwner(s, v);
      var u :| 0 <= u < |s.threads| && Reserves(s.threads[u], v);
      assert u != t && Reserves(r.threads[u], v);
    }
  }

  lemma {:induction false} ReservedStep(s: Table, t: nat, result: int)
    requires Shape(s) && Reserved(s) && Swept(s)
    ensures Reserved(Step(s, t, result))
  {
    if t < |s.threads| {
      var th := s.threads[t];
      if th.OpenScan? && th.at < |s.slots| && s.slots[th.at] == FREE {
        ReservedAlloc(s, t, result);
      } else if th.OpenFailed? || th.OpenOpened? {
        ReservedRelease(s, t, result);
      } else if (th.CleanScan? && th.at < |s.slots|) || th.CleanHas? {
        ReservedSweep(s, t, result);
      } else {
        ReservedStays(s, Step(s, t, result));
      }
    }
  }

  ghost predicate SweptBy(s: Table, th: Thread) {
    match th
    case CleanScan(at) => SweptTo(s, at)
    case CleanHas(at, fd) => at < |s.slots| && SweptTo(s, at) && s.slots[at] == fd
    case CleanClosing(at, fd) => SweptTo(s, at + 1)
    case _ => true
  }

  /** No step of another thread undoes what a cleanup has swept: it holds the lock. */
  lemma SweptByOther(s: Table, t: nat, u: nat, result: int)
    requires Shape(s) && OneLocker(s) && Reserved(s) && t < |s.threads| && u < |s.threads| && t != u
    requires Locker(s.threads[u]) && SweptBy(s, s.threads[u])
    ensures SweptBy(Step(s, t, result), s.threads[u])
  {
    var th := s.threads[t];
    if th.OpenFailed? || th.OpenOpened? {
      assert Reserves(th, th.slot);
    }
  }

  lemma {:induction false} SweptStep(s: Table, t: nat, result: int)
    requires Shape(s) && OneLocker(s) && Reserved(s) && Swept(s)
    ensures Swept(Step(s, t, result))
  {
    var r := Step(s, t, result);
    if t < |s.threads| {
      assert SweptBy(s, s.threads[t]) && SweptBy(r, r.threads[t]);
      forall u | 0 <= u < |r.threads|
        ensures SweptBy(r, r.threads[u])
      {
        assert SweptBy(s, s.threads[u]);
        if u != t && Locker(s.threads[u]) {
          SweptByOther(s, t, u, result);
        }
      }
    }
  }

  // ---------------------------------------------------------------------- descriptors conserved

  /** Thread `t` moved and no descriptor did. */
  lemma ConservedStays(s: Table, r: Table)
    requires Conserved(s) && r.open == s.open
    requires |r.threads| == |s.threads| && |r.slots| == |s.slots|
    requires forall u, fd :: 0 <= u < |s.threads| ==> (Carries(r.threads[u], fd) <==> Carries(s.threads[u], fd))
    requires forall v :: 0 <= v < |s.slots| ==> r.slots[v] == s.slots[v] || (r.slots[v] < 0 && s.slots[v] < 0)
    ensures Conserved(r)
  {
    forall fd | fd in r.open
      ensures HasHolder(r, fd)
    {
      assert HasHolder(s, fd);
      if exists v :: 0 <= v < |s.slots| && s.slots[v] == fd {
        var v :| 0 <= v < |s.slots| && s.slots[v] == fd;
        assert r.slots[v] == fd;
      } else {
        var u :| 0 <= u < |s.threads| && Carries(s.threads[u], fd);
        assert Carries(r.threads[u], fd);
      }
    }
  }

  /** A descriptor's holders, when only thread `t` and slot `at` have changed. */
  lemma HoldersKept(s: Table, r: Table, t: nat, at: nat, fd: int)
    requires HasHolder(s, fd) && t < |s.threads| && at < |s.slots|
    requires |r.slots| == |s.slots| && |r.threads| == |s.threads|
    requires r.slots == s.slots[at := r.slots[at]] && r.threads == s.threads[t := r.threads[t]]
    requires s.slots[at] != fd && !Carries(s.threads[t], fd)
    ensures HasHolder(r, fd)
  {
    if exists v :: 0 <= v < |s.slots| && s.slots[v] == fd {
      var v :| 0 <= v < |s.slots| && s.slots[v] == fd;
      assert r.slots[v] == fd;
    } else {
      var u :| 0 <= u < |s.threads| && Carries(s.threads[u], fd);
      assert Carries(r.threads[u], fd);
    }
  }

  /** The system hands out a descriptor that was not open. */
  lemma ConservedObtain(s: Table, t: nat, result: int)
    requires Shape(s) && Conserved(s) && t < |s.threads| && s.threads[t].OpenAllocated?
    requires result >= 0 && result !in s.open
    ensures Conserved(Step(s, t, result))
  {
    var r := Step(s, t, result);
    assert Carries(r.threads[t], result);
    assert forall fd :: !Carries(s.threads[t], fd);
    forall fd | fd in r.open
      ensures HasHolder(r, fd)
    {
      if fd != result {
        assert HasHolder(s, fd);
        if exists v :: 0 <= v < |s.slots| && s.slots[v] == fd {
          var v :| 0 <= v < |s.slots| && s.slots[v] == fd;
          assert r.slots[v] == fd;
        } else {
          var u :| 0 <= u < |s.threads| && Carries(s.threads[u], fd);
          assert Carries(r.threads[u], fd);
        }
      }
    }
  }

  /** The open commits: the descriptor moves into its slot, or stays with the thread. */
  lemma {:induction false} ConservedCommit(s: Table, t: nat, result: int)
    requires Shape(s) && Reserved(s) && Conserved(s) && t < |s.threads| && s.threads[t].OpenOpened?
    ensures Conserved(Step(s, t, result))
  {
    var r, v, fd := Step(s, t, result), s.threads[t].slot, s.threads[t].fd;
    assert Reserves(s.threads[t], v) && Carries(s.threads[t], fd);
    assert forall x :: Carries(s.threads[t], x) ==> x == fd;
    if s.slots[v] == ALLOC {
      assert r.slots[v] == fd && forall x :: !Carries(r.threads[t], x);
    } else {
      assert Carries(r.threads[t], fd);
    }
    forall x | x in r.open
      ensures HasHolder(r, x)
    {
      if x != fd {
        HoldersKept(s, r, t, v, x);
      }
    }
  }

  /** Cleanup takes a descriptor out of its slot, in order to close it. */
  lemma ConservedTake(s: Table, t: nat, result: int)
    requires Shape(s) && Conserved(s) && Swept(s) && t < |s.threads| && s.threads[t].CleanHas?
    ensures Conserved(Step(s, t, result))
  {
    var r, at, fd := Step(s, t, result), s.threads[t].at, s.threads[t].fd;
    assert s.slots[at] == fd && Carries(r.threads[t], fd);
    assert forall x :: !Carries(s.threads[t], x);
    assert forall x :: Carries(r.threads[t], x) ==> x == fd;
    forall x | x in r.open
      ensures HasHolder(r, x)
    {
      if x != fd {
        HoldersKept(s, r, t, at, x);
      }
    }
  }

  /** Closing a descriptor: it was open, and nothing holds it afterwards. */
  lemma {:induction false} ConservedClose(s: Table, t: nat, result: int)
    requires Shape(s) && Conserved(s) && t < |s.threads|
    requires s.threads[t].OpenClosing? || s.threads[t].CleanClosing?
    ensures Conserved(Step(s, t, result))
    ensures s.threads[t].fd in s.open && Step(s, t, result).open == s.open - {s.threads[t].fd}
  {
    var r, fd := Step(s, t, result), s.threads[t].fd;
    assert Carries(s.threads[t], fd);
    assert forall x :: !Carries(r.threads[t], x);
    forall x | x in r.open
      ensures HasHolder(r, x)
    {
      CloseKeepsHolder(s, t, result, x);
    }
  }

  lemma CloseKeepsHolder(s: Table, t: nat, result: int, x: int)
    requires Shape(s) && t < |s.threads| && (s.threads[t].OpenClosing? || s.threads[t].CleanClosing?)
    requires HasHolder(s, x) && x != s.threads[t].fd
    ensures HasHolder(Step(s, t, result), x)
  {
    var r := Step(s, t, result);
    assert r.slots == s.slots;
    if exists v :: 0 <= v < |s.slots| && s.slots[v] == x {
      var v :| 0 <= v < |s.slots| && s.slots[v] == x;
      assert r.slots[v] == x;
    } else {
      var u :| 0 <= u < |s.threads| && Carries(s.threads[u], x);
      assert Carries(r.threads[u], x);
    }
  }

  /** Every other step moves no descriptor. */
  lemma {:induction false} ConservedOtherClean(s: Table, t: nat)
    requires Shape(s) && Conserved(s) && t < |s.threads|
    requires s.threads[t].CleanNew? || s.threads[t].CleanScan? || s.threads[t].CleanDone?
    ensures Conserved(CleanStep(s, t))
  {
    var r := CleanStep(s, t);
    assert r.threads[t].CleanNew? || r.threads[t].CleanScan? || r.threads[t].CleanHas? || r.threads[t].CleanDone?;
    ConservedMoved(s, r, t);
  }

  lemma {:induction false} ConservedOtherOpen(s: Table, t: nat, result: int)
    requires Shape(s) && Reserved(s) && Conserved(s) && t < |s.threads|
    requires s.threads[t].OpenNew? || s.threads[t].OpenScan? || s.threads[t].OpenFailed? || s.threads[t].OpenDone?
             || (s.threads[t].OpenAllocated? && (result < 0 || result in s.open))
    ensures Conserved(OpenStep(s, t, result))
  {
    var r := OpenStep(s, t, result);
    if s.threads[t].OpenFailed? {
      assert Reserves(s.threads[t], s.threads[t].slot);
    }
    assert !r.threads[t].OpenOpened? && !r.threads[t].OpenClosing? && !r.threads[t].CleanClosing?;
    ConservedMoved(s, r, t);
  }

  lemma ConservedMoved(s: Table, r: Table, t: nat)
    requires Conserved(s) && r.open == s.open && t < |s.threads|
    requires |r.threads| == |s.threads| && |r.slots| == |s.slots|
    requires r.threads == s.threads[t := r.threads[t]]
    requires forall fd :: !Carries(s.threads[t], fd) && !Carries(r.threads[t], fd)
    requires forall v :: 0 <= v < |s.slots| ==> r.slots[v] == s.slots[v] || (r.slots[v] < 0 && s.slots[v] < 0)
    ensures Conserved(r)
  {
    forall u, fd | 0 <= u < |s.threads|
      ensures Carries(r.threads[u], fd) <==> Carries(s.threads[u], fd)
    {
    }
    ConservedStays(s, r);
  }

  lemma {:induction false} ConservedStep(s: Table, t: nat, result: int)
    requires Shape(s) && Reserved(s) && Conserved(s) && Swept(s)
    ensures Conserved(Step(s, t, result))
  {
    if t < |s.threads| {
      var th := s.threads[t];
      if th.OpenAllocated? && result >= 0 && result !in s.open {
        ConservedObtain(s, t, result);
      } else if th.OpenOpened? {
        ConservedCommit(s, t, result);
      } else if th.CleanHas? {
        ConservedTake(s, t, result);
      } else if th.OpenClosing? || th.CleanClosing? {
        ConservedClose(s, t, result);
      } else if IsClean(th) {
        ConservedOtherClean(s, t);
      } else {
        ConservedOtherOpen(s, t, result);
      }
    }
  }

  // ------------------------------------------------------------------------------ whole runs

  lemma {:induction false} InvAlways(s: Table, es: seq<Event>)
    requires IsNew(s)
    ensures Shape(s) && Inv(Run(s, es))
  {
    if es == [] {
      InvAtStart(s);
    } else {
      var n := |es| - 1;
      InvAlways(s, es[..n]);
      var r := Run(s, es[..n]);
      InvStep(r, es[n].t, es[n].result);
    }
  }

  lemma InvAtStart(s: Table)
    requires IsNew(s)
    ensures Inv(s)
  {
    assert forall t, v :: 0 <= t < |s.threads| ==> !Reserves(s.threads[t], v) && !Carries(s.threads[t], v);
  }

  lemma {:induction false} InvStep(s: Table, t: nat, result: int)
    requires Inv(s)
    ensures Inv(Step(s, t, result))
  {
    LockerStep(s, t, result);
    ReservedStep(s, t, result);
    ConservedStep(s, t, result);
    SweptStep(s, t, result);
  }

  /** For every interleaving, each descriptor that the system has handed out and that has not been
      closed is in exactly one slot or with exactly one thread; so no descriptor is lost, shared,
      or closed twice. */
  lemma {:induction false} NoDescriptorLeaks(s: Table, es: seq<Event>)
    requires IsNew(s)
    ensures Shape(s) && Conserved(Run(s, es))
  {
    InvAlways(s, es);
  }

  /** When a cleanup has gone through the table, and still holds the lock, nothing is open in it:
      every slot is free, or is marked canceled and belongs to an open in flight. */
  lemma CleanupEmptiesTable(s: Table, es: seq<Event>, t: nat)
    requires IsNew(s)
    requires Shape(s) && t < |s.threads| && Run(s, es).threads[t] == CleanScan(|s.slots|)
    ensures var r := Run(s, es);
            forall v :: 0 <= v < |r.slots| ==>
              r.slots[v] == FREE || (r.slots[v] == CANCELED && HasOwner(r, v))
  {
    InvAlways(s, es);
  }

  /** A reservation that a cleanup has canceled. */
  ghost predicate Doomed(s: Table, t: nat)
    requires Shape(s)
  {
    t < |s.threads|
    && match s.threads[t]
       case OpenAllocated(v) => s.slots[v] == CANCELED
       case OpenFailed(v) => s.slots[v] == CANCELED
       case OpenOpened(v, _) => s.slots[v] == CANCELED
       case OpenClosing(_) => true
       case OpenDone(installed) => !installed
       case _ => false
  }

  lemma {:induction false} DoomedStep(s: Table, t: nat, u: nat, result: int)
    requires Inv(s) && Doomed(s, t)
    ensures Doomed(Step(s, u, result), t)
  {
    if u != t && u < |s.threads|
       && (s.threads[t].OpenAllocated? || s.threads[t].OpenFailed? || s.threads[t].OpenOpened?) {
      CanceledStays(s, t, s.threads[t].slot, u, result);
    }
  }

  /** Another thread's step leaves a canceled slot canceled. */
  lemma CanceledStays(s: Table, t: nat, v: nat, u: nat, result: int)
    requires Shape(s) && Reserved(s) && Swept(s) && t < |s.threads| && u < |s.threads| && u != t
    requires v < |s.slots| && Reserves(s.threads[t], v) && s.slots[v] == CANCELED
    ensures Step(s, u, result).slots[v] == CANCELED
  {
    assert !Reserves(s.threads[u], v);
    assert SweptBy(s, s.threads[u]);
  }

  lemma {:induction false} DoomedForever(s: Table, es: seq<Event>, more: seq<Event>, t: nat)
    requires IsNew(s) && Shape(s) && Doomed(Run(s, es), t)
    ensures Doomed(Run(s, es + more), t)
  {
    if more == [] {
      assert es + more == es;
    } else {
      var n := |more| - 1;
      DoomedForever(s, es, more[..n], t);
      InvAlways(s, es + more[..n]);
      assert (es + more)[..|es + more| - 1] == es + more[..n];
      DoomedStep(Run(s, es + more[..n]), t, more[n].t, more[n].result);
    }
  }

  /** An open that is in flight when a cleanup ends never installs its descriptor, whatever
      happens later. */
  lemma CleanupStopsOpens(s: Table, es: seq<Event>, more: seq<Event>, c: nat, t: nat)
    requires IsNew(s) && Shape(s) && c < |s.threads| && t < |s.threads|
    requires Run(s, es).threads[c] == CleanScan(|s.slots|)
    requires var th := Run(s, es).threads[t]; th.OpenAllocated? || th.OpenFailed? || th.OpenOpened?
    ensures Run(s, es + more).threads[t] != OpenDone(true)
  {
    InvAlways(s, es);
    var r := Run(s, es);
    assert Reserves(r.threads[t], r.threads[t].slot);
    DoomedForever(s, es, more, t);
  }
}
