/** What opens and cleanups come to: exactly when an open installs its descriptor, and what either
    does if nothing else moves. */
module VfdOpens {
  import opened VfdTable

  /** Between reserving a slot and settling it. */
  predicate InFlight(th: Thread) {
    th.OpenAllocated? || th.OpenFailed? || th.OpenOpened?
  }

  // --------------------------------------------------------- canceled, or installed at the commit

  /** The event moves a cleanup past the slot that open `t` has reserved. */
  predicate Passes(r: Table, e: Event, t: nat) {
    && t < |r.threads| && e.t < |r.threads| && InFlight(r.threads[t])
    && r.threads[e.t] == CleanScan(r.threads[t].slot)
  }

  /** Some cleanup has passed it while it was reserved. */
  ghost predicate Canceled(s: Table, es: seq<Event>, t: nat)
    requires Shape(s)
  {
    es != [] && (Canceled(s, es[..|es| - 1], t) || Passes(Run(s, es[..|es| - 1]), es[|es| - 1], t))
  }

  /** The system has given open `t` a descriptor. */
  ghost predicate Obtained(s: Table, es: seq<Event>, t: nat)
    requires Shape(s) && t < |s.threads|
  {
    es != [] && (Obtained(s, es[..|es| - 1], t) || Run(s, es).threads[t].OpenOpened?)
  }

  /** What the phase of open `t` says about its past. */
  ghost predicate Tells(r: Table, t: nat, obtained: bool, canceled: bool)
    requires t < |r.threads|
  {
    match r.threads[t]
    case OpenNew => !obtained && !canceled
    case OpenScan(_) => !obtained && !canceled
    case OpenAllocated(v) => !obtained && v < |r.slots| && r.slots[v] == (if canceled then CANCELED else ALLOC)
    case OpenFailed(v) => !obtained && v < |r.slots| && r.slots[v] == (if canceled then CANCELED else ALLOC)
    case OpenOpened(v, _) => obtained && v < |r.slots| && r.slots[v] == (if canceled then CANCELED else ALLOC)
    case OpenClosing(_) => obtained && canceled
    case OpenDone(installed) => installed <==> obtained && !canceled
    case _ => true
  }

  /** Another thread's step changes a reserved slot only by passing it as a cleanup. */
  lemma ReservedSlotStays(r: Table, e: Event, t: nat)
    requires Inv(r) && t < |r.threads| && e.t != t && InFlight(r.threads[t])
    requires r.slots[r.threads[t].slot] == ALLOC || r.slots[r.threads[t].slot] == CANCELED
    ensures var v := r.threads[t].slot;
            Step(r, e.t, e.result).slots[v] == if Passes(r, e, t) then CANCELED else r.slots[v]
  {
    if e.t < |r.threads| {
      assert Reserves(r.threads[t], r.threads[t].slot);
      assert !Reserves(r.threads[e.t], r.threads[t].slot);
      assert SweptBy(r, r.threads[e.t]);
    }
  }

  lemma {:induction false} TellsStep(r: Table, e: Event, t: nat, obtained: bool, canceled: bool)
    requires Inv(r) && t < |r.threads| && Tells(r, t, obtained, canceled)
    ensures var q := Step(r, e.t, e.result);
            Tells(q, t, obtained || q.threads[t].OpenOpened?, canceled || Passes(r, e, t))
  {
    if e.t != t {
      OthersStay(r, e, t);
      if InFlight(r.threads[t]) {
        ReservedSlotStays(r, e, t);
      }
    } else {
      OwnStepTells(r, e, t, obtained, canceled);
    }
  }

  lemma OthersStay(r: Table, e: Event, t: nat)
    requires Shape(r) && t < |r.threads| && e.t != t
    ensures Step(r, e.t, e.result).threads[t] == r.threads[t]
  {
  }

  lemma OwnStepTells(r: Table, e: Event, t: nat, obtained: bool, canceled: bool)
    requires Shape(r) && t < |r.threads| && e.t == t && Tells(r, t, obtained, canceled)
    ensures var q := Step(r, t, e.result);
            Tells(q, t, obtained || q.threads[t].OpenOpened?, canceled) && !Passes(r, e, t)
  {
  }

  lemma {:induction false} TellsAlways(s: Table, es: seq<Event>, t: nat)
    requires IsNew(s) && Shape(s) && t < |s.threads|
    ensures Tells(Run(s, es), t, Obtained(s, es, t), Canceled(s, es, t))
  {
    if es != [] {
      var n := |es| - 1;
      TellsAlways(s, es[..n], t);
      InvAlways(s, es[..n]);
      TellsStep(Run(s, es[..n]), es[n], t, Obtained(s, es[..n], t), Canceled(s, es[..n], t));
    }
  }

  /** An open that ends has installed its descriptor if and only if the system gave it one and no
      cleanup passed its slot in the meantime. */
  lemma OpenInstallsIff(s: Table, es: seq<Event>, t: nat)
    requires IsNew(s) && Shape(s) && t < |s.threads| && Run(s, es).threads[t].OpenDone?
    ensures Run(s, es).threads[t] == OpenDone(true) <==> Obtained(s, es, t) && !Canceled(s, es, t)
  {
    TellsAlways(s, es, t);
  }

  /** At the commit the descriptor goes into the slot that was reserved, and nothing else changes; or
      the slot is freed and the descriptor is left to be closed. */
  lemma CommitInstallsIff(s: Table, es: seq<Event>, t: nat, result: int)
    requires IsNew(s) && Shape(s) && t < |s.threads| && Run(s, es).threads[t].OpenOpened?
    ensures var r := Run(s, es);
            var v, fd := r.threads[t].slot, r.threads[t].fd;
            v < |r.slots|
            && Step(r, t, result) ==
               if Canceled(s, es, t) then
                 r.(threads := r.threads[t := OpenClosing(fd)], slots := r.slots[v := FREE])
               else
                 r.(threads := r.threads[t := OpenDone(true)], slots := r.slots[v := fd])
  {
    TellsAlways(s, es, t);
  }

  /** Once installed it stays until a cleanup takes it out to close it. */
  lemma InstalledStays(s: Table, es: seq<Event>, e: Event, v: nat)
    requires IsNew(s) && Shape(s) && v < |s.slots| && Run(s, es).slots[v] >= 0
    ensures var r := Run(s, es);
            Step(r, e.t, e.result).slots[v] ==
            if e.t < |r.threads| && r.threads[e.t] == CleanHas(v, r.slots[v]) then FREE else r.slots[v]
  {
    InvAlways(s, es);
    var r := Run(s, es);
    if e.t < |r.threads| {
      assert SweptBy(r, r.threads[e.t]);
      if InFlight(r.threads[e.t]) {
        assert Reserves(r.threads[e.t], r.threads[e.t].slot);
      }
    }
  }

  // --------------------------------------------------------------------- nothing else moves

  /** Thread `t` takes `n` steps. */
  function Alone(t: nat, result: int, n: nat): seq<Event> {
    seq(n, _ => Event(t, result))
  }

  lemma AloneNext(s: Table, t: nat, result: int, n: nat)
    requires Shape(s)
    ensures Run(s, Alone(t, result, n + 1)) == Step(Run(s, Alone(t, result, n)), t, result)
  {
    assert Alone(t, result, n + 1)[..n] == Alone(t, result, n);
  }

  ghost predicate NoneFree(s: Table, n: nat) {
    n <= |s.slots| && forall v :: 0 <= v < n ==> s.slots[v] != FREE
  }

  lemma {:induction false} ScanReaches(s: Table, t: nat, result: int, n: nat)
    requires Shape(s) && t < |s.threads| && s.threads[t].OpenNew? && !s.locked && NoneFree(s, n)
    ensures Run(s, Alone(t, result, n + 1)) == Move(s, t, OpenScan(n)).(locked := true)
  {
    AloneNext(s, t, result, n);
    if n == 0 {
      assert Alone(t, result, 0) == [];
    } else {
      ScanReaches(s, t, result, n - 1);
    }
  }

  lemma SlotReserved(s: Table, t: nat, result: int, v: nat)
    requires Shape(s) && t < |s.threads| && s.threads[t].OpenNew? && !s.locked
    requires NoneFree(s, v) && v < |s.slots| && s.slots[v] == FREE
    ensures Run(s, Alone(t, result, v + 2)) == Move(s, t, OpenAllocated(v)).(slots := s.slots[v := ALLOC])
  {
    ScanReaches(s, t, result, v);
    AloneNext(s, t, result, v + 1);
    ScanReserves(s, t, result, v);
  }

  lemma ScanReserves(s: Table, t: nat, result: int, v: nat)
    requires Shape(s) && t < |s.threads| && !s.locked && v < |s.slots| && s.slots[v] == FREE
    ensures var r := Move(s, t, OpenScan(v)).(locked := true);
            Shape(r) && Step(r, t, result) == Move(s, t, OpenAllocated(v)).(slots := s.slots[v := ALLOC])
  {
  }

  /** On a table with a free slot an open ends installed, its descriptor in the first one. */
  lemma {:induction false} OpenAloneInstalls(s: Table, t: nat, fd: nat, v: nat)
    requires Shape(s) && t < |s.threads| && s.threads[t].OpenNew? && !s.locked && fd !in s.open
    requires NoneFree(s, v) && v < |s.slots| && s.slots[v] == FREE
    ensures Run(s, Alone(t, fd, v + 4)) ==
            s.(threads := s.threads[t := OpenDone(true)], slots := s.slots[v := fd], open := s.open + {fd})
  {
    SlotReserved(s, t, fd, v);
    AloneNext(s, t, fd, v + 2);
    AloneNext(s, t, fd, v + 3);
  }

  /** If the system refuses it, the table is as before. */
  lemma {:induction false} OpenAloneFails(s: Table, t: nat, result: int, v: nat)
    requires Shape(s) && t < |s.threads| && s.threads[t].OpenNew? && !s.locked && result < 0
    requires NoneFree(s, v) && v < |s.slots| && s.slots[v] == FREE
    ensures Run(s, Alone(t, result, v + 4)) == Move(s, t, OpenDone(false))
  {
    SlotReserved(s, t, result, v);
    AloneNext(s, t, result, v + 2);
    AloneNext(s, t, result, v + 3);
    assert s.slots[v := ALLOC][v := FREE] == s.slots;
  }

  /** And if no slot is free the system is not even asked. */
  lemma {:induction false} OpenAloneFull(s: Table, t: nat, result: int)
    requires Shape(s) && t < |s.threads| && s.threads[t].OpenNew? && !s.locked && NoneFree(s, |s.slots|)
    ensures Run(s, Alone(t, result, |s.slots| + 2)) == Move(s, t, OpenDone(false))
  {
    ScanReaches(s, t, result, |s.slots|);
    AloneNext(s, t, result, |s.slots| + 1);
  }

  /** The first `n` slots as a cleanup leaves them, and the descriptors that it has closed. */
  function SweptSlots(slots: seq<int>, n: nat): (r: seq<int>)
    requires n <= |slots|
    ensures |r| == |slots|
  {
    seq(|slots|, v requires 0 <= v < |slots| =>
      if v >= n then slots[v]
      else if slots[v] >= 0 then FREE
      else if slots[v] == ALLOC then CANCELED
      else slots[v])
  }

  function Closed(slots: seq<int>, n: nat): set<int>
    requires n <= |slots|
  {
    set v | 0 <= v < n && slots[v] >= 0 :: slots[v]
  }

  /** How many steps that takes. */
  function SweepSteps(slots: seq<int>, n: nat): nat
    requires n <= |slots|
  {
    if n == 0 then 1 else SweepSteps(slots, n - 1) + if slots[n - 1] >= 0 then 3 else 1
  }

  ghost function SweptTable(s: Table, t: nat, n: nat): Table
    requires t < |s.threads| && n <= |s.slots|
  {
    Move(s, t, CleanScan(n)).(locked := true, slots := SweptSlots(s.slots, n), open := s.open - Closed(s.slots, n))
  }

  lemma SweptNext(slots: seq<int>, n: nat)
    requires n < |slots|
    ensures var r, q := SweptSlots(slots, n), SweptSlots(slots, n + 1);
            && r[n] == slots[n]
            && q == (if slots[n] >= 0 then r[n := FREE] else if slots[n] == ALLOC then r[n := CANCELED] else r)
    ensures Closed(slots, n + 1) == Closed(slots, n) + if slots[n] >= 0 then {slots[n]} else {}
  {
  }

  lemma OneSwept(s: Table, t: nat, n: nat)
    requires Shape(s) && t < |s.threads| && n < |s.slots| && Shape(SweptTable(s, t, n))
    ensures var r := SweptTable(s, t, n);
            SweptTable(s, t, n + 1) ==
            if s.slots[n] >= 0 then Step(Step(Step(r, t, 0), t, 0), t, 0) else Step(r, t, 0)
  {
    var r := SweptTable(s, t, n);
    SweptNext(s.slots, n);
    if s.slots[n] >= 0 {
      var fd := s.slots[n];
      assert Step(r, t, 0) == Move(r, t, CleanHas(n, fd));
      assert r.open - {fd} == s.open - Closed(s.slots, n + 1);
    }
  }

  lemma {:induction false} SweepReaches(s: Table, t: nat, n: nat)
    requires Shape(s) && t < |s.threads| && s.threads[t].CleanNew? && !s.locked && n <= |s.slots|
    ensures Run(s, Alone(t, 0, SweepSteps(s.slots, n))) == SweptTable(s, t, n)
  {
    if n == 0 {
      assert Alone(t, 0, 0) == [] && SweptSlots(s.slots, 0) == s.slots;
      AloneNext(s, t, 0, 0);
    } else {
      var k := SweepSteps(s.slots, n - 1);
      SweepReaches(s, t, n - 1);
      OneSwept(s, t, n - 1);
      if s.slots[n - 1] >= 0 {
        AloneThrice(s, t, 0, k);
      } else {
        AloneNext(s, t, 0, k);
      }
    }
  }

  lemma AloneThrice(s: Table, t: nat, result: int, n: nat)
    requires Shape(s)
    ensures Run(s, Alone(t, result, n + 3)) ==
            Step(Step(Step(Run(s, Alone(t, result, n)), t, result), t, result), t, result)
  {
    AloneNext(s, t, result, n);
    AloneNext(s, t, result, n + 1);
    AloneNext(s, t, result, n + 2);
  }

  /** A cleanup goes through the whole table: it closes every descriptor in it, frees their slots,
      cancels every reservation, and lets go of the lock. */
  lemma {:induction false} CleanupAloneCloses(s: Table, t: nat)
    requires Shape(s) && t < |s.threads| && s.threads[t].CleanNew? && !s.locked
    ensures var n := |s.slots|;
            Run(s, Alone(t, 0, SweepSteps(s.slots, n) + 1)) ==
            Move(s, t, CleanDone).(slots := SweptSlots(s.slots, n), open := s.open - Closed(s.slots, n))
  {
    SweepReaches(s, t, |s.slots|);
    AloneNext(s, t, 0, SweepSteps(s.slots, |s.slots|));
  }
}
