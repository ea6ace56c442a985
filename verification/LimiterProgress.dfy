/** Lock ordering: attempts alone never wedge, nor do failures beside Snapshots; a Snapshot can
    wedge with a successful release, that is the only way, and then nobody gets in any more. */
module LimiterProgress {
  import opened Common
  import opened Addresses
  import opened Backoff
  import opened LimiterProtocol
  import opened LimiterHistory
  import opened LimiterWitness

  /** A goroutine queued for the write lock; Go's RWMutex then turns new readers away. */
  predicate WaitsToWrite(th: Thread) {
    th.Attempt? && (th.pc.WantWrite? || th.pc.WantSwap? || th.pc.WantDelete?)
  }

  /** Thread `t` can take a step now, even if pending writers are preferred over new readers. */
  ghost predicate CanStep(s: State, t: nat) {
    exists a :: StepOf(s, t, a)
  }

  ghost predicate StepOf(s: State, t: nat, a: Action) {
    && (a.Move? || a.Release? || a.Pick?) && a.t == t && t < |s.threads|
    && Plan(s, a).Some? && Ready(s, Plan(s, a).value)
    && (Plan(s, a).value.mapOp.ReadLock? ==>
          forall u :: 0 <= u < |s.threads| ==> !WaitsToWrite(s.threads[u]))
  }

  /** Snapshot `t` holds the map lock and waits for entry `e`; attempt `u` holds `e` and waits
      for the map lock in order to delete it. */
  ghost predicate Wedged(s: State, t: nat, u: nat) {
    && t < |s.threads| && u < |s.threads|
    && s.threads[t].Snapshot? && s.threads[t].at.SnapWait?
    && s.threads[u].Attempt? && s.threads[u].pc == WantDelete(s.threads[t].at.e)
    && t in s.readers
    && s.threads[t].at.e < |s.entries| && s.entries[s.threads[t].at.e].owner == Some(u)
  }

  /** The next step of whoever holds an entry takes no lock but the map's, for deleting. */
  lemma HolderStep(s: State, e: nat, u: nat)
    requires u < |s.threads| && HeldEntry(s.threads[u]) == Some(e)
    ensures var th := s.threads[u];
            var step := Plan(s, if th.Attempt? && th.pc.Holding? then Release(u, false) else Move(u));
            && step.Some? && !step.value.mapOp.ReadLock? && !step.value.entryOp.Lock?
            && (step.value.mapOp.WriteLock? ==> th.Attempt? && th.pc == WantDelete(e))
            && (step.value.entryOp.Unlock? || step.value.entryOp.FailAndUnlock? ==> step.value.entryOp.e == e)
  {
    hide ComputeDelay;
  }

  /** Whoever owns an entry can step, or waits to delete it while the map lock is taken. */
  lemma OwnerCanStep(s: State, e: nat, u: nat)
    requires Structure(s) && e < |s.entries| && s.entries[e].owner == Some(u)
    ensures u < |s.threads|
    ensures CanStep(s, u) || (s.threads[u].Attempt? && s.threads[u].pc == WantDelete(e) && !MapFree(s))
  {
    hide LocksOk, ThreadsOk, TableOk, ComputeDelay;
    assert HeldEntry(s.threads[u]) == Some(e);
    HolderStep(s, e, u);
    if s.threads[u].Attempt? && s.threads[u].pc.Holding? {
      assert StepOf(s, u, Release(u, false));
    } else if !(s.threads[u].Attempt? && s.threads[u].pc == WantDelete(e) && !MapFree(s)) {
      assert StepOf(s, u, Move(u));
    }
  }

  lemma ReaderCanStep(s: State, t: nat)
    requires Structure(s) && t in s.readers
    ensures (exists u :: CanStep(s, u)) || (exists u :: Wedged(s, t, u))
  {
    var th := s.threads[t];
    assert ThreadOk(s, th);
    if th.Snapshot? && th.at.SnapWait? && s.entries[th.at.e].owner.Some? {
      var u := s.entries[th.at.e].owner.value;
      OwnerCanStep(s, th.at.e, u);
      assert CanStep(s, u) || Wedged(s, t, u);
    } else if th.Snapshot? && th.at.SnapNext? && th.at.todo != {} {
      var k :| k in th.at.todo;
      assert StepOf(s, t, Pick(t, k));
      assert CanStep(s, t);
    } else {
      assert StepOf(s, t, Move(t));
      assert CanStep(s, t);
    }
  }

  lemma FreeMapCanStep(s: State, t: nat)
    requires Structure(s) && MapFree(s) && t < |s.threads| && !Finished(s.threads[t])
    ensures exists u :: CanStep(s, u)
  {
    var th := s.threads[t];
    assert ThreadOk(s, th);
    if w :| 0 <= w < |s.threads| && WaitsToWrite(s.threads[w]) {
      assert StepOf(s, w, Move(w));
      assert CanStep(s, w);
    } else if HeldEntry(th).Some? {
      OwnerCanStep(s, HeldEntry(th).value, t);
    } else if th.Attempt? && th.pc.WantEntry? && s.entries[th.pc.e].owner.Some? {
      OwnerCanStep(s, th.pc.e, s.entries[th.pc.e].owner.value);
    } else {
      assert StepOf(s, t, Move(t));
      assert CanStep(s, t);
    }
  }

  /** In every reachable state with unfinished work either some thread can step, or a Snapshot
      and a successful release are wedged against each other. */
  lemma StuckOnlyWhenWedged(acts: seq<Action>, t: nat)
    requires t < |Run(acts).threads| && !Finished(Run(acts).threads[t])
    ensures var s := Run(acts); (exists u :: CanStep(s, u)) || (exists r, u :: Wedged(s, r, u))
  {
    EveryRun(acts);
    var s := Run(acts);
    if s.writer.Some? {
      var w := s.writer.value;
      assert ThreadOk(s, s.threads[w]);
      assert StepOf(s, w, Move(w));
      assert CanStep(s, w);
    } else if s.readers != {} {
      var r :| r in s.readers;
      ReaderCanStep(s, r);
    } else {
      FreeMapCanStep(s, t);
    }
  }

  /** Without Snapshot calls the limiter never deadlocks. */
  lemma AttemptsNeverDeadlock(acts: seq<Action>, t: nat)
    requires t < |Run(acts).threads| && !Finished(Run(acts).threads[t])
    requires forall i :: 0 <= i < |acts| ==> !acts[i].BeginSnapshot?
    ensures exists u :: CanStep(Run(acts), u)
  {
    StuckOnlyWhenWedged(acts, t);
    NoSnapshotThreads(acts);
  }

  lemma {:induction false} NoSnapshotThreads(acts: seq<Action>)
    requires forall i :: 0 <= i < |acts| ==> !acts[i].BeginSnapshot?
    ensures forall t :: 0 <= t < |Run(acts).threads| ==> Run(acts).threads[t].Attempt?
    decreases |acts|
  {
    if acts != [] {
      var before, a := acts[..|acts| - 1], acts[|acts| - 1];
      NoSnapshotThreads(before);
      if Plan(Run(before), a).Some? { PlanCoherent(Run(before), a); }
    }
  }

  /** No attempt of the run reports a success. */
  ghost predicate OnlyFailures(acts: seq<Action>) {
    forall i :: 0 <= i < |acts| ==> !(acts[i].Release? && acts[i].success)
  }

  /** With Snapshot calls as well, the limiter does not deadlock while every attempt fails. */
  lemma FailuresNeverDeadlock(acts: seq<Action>, t: nat)
    requires t < |Run(acts).threads| && !Finished(Run(acts).threads[t]) && OnlyFailures(acts)
    ensures exists u :: CanStep(Run(acts), u)
  {
    hide Run, CanStep;
    StuckOnlyWhenWedged(acts, t);
    NoDeleters(acts);
  }

  lemma {:induction false} NoDeleters(acts: seq<Action>)
    requires OnlyFailures(acts)
    ensures forall t :: 0 <= t < |Run(acts).threads| && Run(acts).threads[t].Attempt? ==>
          !Run(acts).threads[t].pc.WantDelete?
    decreases |acts|
  {
    if acts != [] {
      var before, a := acts[..|acts| - 1], acts[|acts| - 1];
      NoDeleters(before);
      if Plan(Run(before), a).Some? { DeletersSucceeded(Run(before), a); }
    }
  }

  lemma DeletersSucceeded(s: State, a: Action)
    requires Plan(s, a).Some?
    ensures Plan(s, a).value.next.Attempt? && Plan(s, a).value.next.pc.WantDelete? ==> a.Release? && a.success
  {
    hide ComputeDelay;
  }

  /** The Snapshot waits for an entry that is taken, the attempt for a lock that is held. */
  lemma WedgedCannotMove(s: State, a: Action, t: nat, u: nat)
    requires Wedged(s, t, u) && Plan(s, a).Some? && Ready(s, Plan(s, a).value)
    ensures a.t != t && a.t != u
  {
    hide ComputeDelay;
  }

  /** The wedge is permanent: whatever else happens, neither thread ever moves again. */
  lemma WedgedStep(s: State, a: Action, t: nat, u: nat)
    requires Structure(s) && Wedged(s, t, u)
    ensures Wedged(Step(s, a), t, u)
  {
    hide LocksOk, ThreadsOk, TableOk, AttemptStep, SnapshotStep, Ready;
    if Plan(s, a).Some? && Ready(s, Plan(s, a).value) {
      PlanCoherent(s, a);
      WedgedCannotMove(s, a, t, u);
      OthersKeepWedge(s, a.t, Plan(s, a).value, t, u);
    }
  }

  lemma OthersKeepWedge(s: State, v: nat, eff: Effect, t: nat, u: nat)
    requires OwnersOk(s) && Wedged(s, t, u) && v < |s.threads| && v != t && v != u
    requires Coherent(s, v, s.threads[v], eff) && Ready(s, eff)
    ensures Wedged(Apply(s, v, eff), t, u)
  {
    EntryPersists(s, v, eff.entryOp, s.threads[t].at.e);
  }

  lemma {:induction false} WedgedForever(s: State, more: seq<Action>, t: nat, u: nat)
    requires Inv(s) && Wedged(s, t, u)
    ensures Wedged(RunFrom(s, more), t, u)
    decreases |more|
  {
    if more != [] {
      WedgedForever(s, more[..|more| - 1], t, u);
      EveryRunFrom(s, more[..|more| - 1]);
      WedgedStep(RunFrom(s, more[..|more| - 1]), more[|more| - 1], t, u);
    }
  }

  // ----- what a wedge costs -----

  /** A step under the lock's own rule: a new reader waits behind a pending writer. */
  ghost function StrictStep(s: State, a: Action): State {
    if (a.Move? || a.Release? || a.Pick?) && !StepOf(s, a.t, a) then s else Step(s, a)
  }

  ghost function StrictRunFrom(s: State, more: seq<Action>): State
    decreases |more|
  {
    if more == [] then s else StrictStep(StrictRunFrom(s, more[..|more| - 1]), more[|more| - 1])
  }

  /** The thread is at a point where it needs the map lock next. */
  predicate NeedsMap(th: Thread) {
    match th
    case Attempt(_, pc) => pc.WantRead? || pc.WantWrite? || pc.WantSwap? || pc.WantDelete?
    case Snapshot(at) => at.SnapStart?
  }

  /** What a thread does first. */
  predicate AtStart(th: Thread) {
    match th
    case Attempt(_, pc) => pc == WantRead(false)
    case Snapshot(at) => at.SnapStart?
  }

  lemma MapNeededMeansLock(s: State, a: Action)
    requires Plan(s, a).Some? && NeedsMap(s.threads[a.t])
    ensures Plan(s, a).value.mapOp.ReadLock? || Plan(s, a).value.mapOp.WriteLock?
  {
    hide ComputeDelay;
  }

  lemma WedgedParts(s: State, t: nat, u: nat)
    requires Wedged(s, t, u)
    ensures u < |s.threads| && WaitsToWrite(s.threads[u]) && !MapFree(s) && s.readers != {}
  {
  }

  lemma WedgeBars(s: State, a: Action, t: nat, u: nat)
    requires Inv(s) && Wedged(s, t, u)
    ensures var s' := StrictStep(s, a);
            && Inv(s') && Wedged(s', t, u) && |s.threads| <= |s'.threads| && s'.table == s.table
            && (forall v :: 0 <= v < |s.threads| && NeedsMap(s.threads[v]) ==> s'.threads[v] == s.threads[v])
            && (forall v :: |s.threads| <= v < |s'.threads| ==> AtStart(s'.threads[v]))
  {
    hide CountsOk, Faithful, Referenced, OwnersOk, ThreadsOk, TableOk, ComputeDelay, Plan, NewEntries;
    hide Wedged;
    StepKeepsInv(s, a);
    WedgedStep(s, a, t, u);
    WedgedParts(s, t, u);
    if Plan(s, a).Some? {
      PlanCoherent(s, a);
      if NeedsMap(s.threads[a.t]) {
        MapNeededMeansLock(s, a);
        assert WaitsToWrite(s.threads[u]) && !MapFree(s);
      }
      assert s.writer.None?;
    }
  }

  /** Once a Snapshot and a successful release are wedged, the table is frozen: whoever needs the
      map lock never moves again, and every attempt and every Snapshot begun afterwards, from
      whatever address, stays at its very first step. */
  lemma {:induction false} WedgeBlocksEveryone(s: State, more: seq<Action>, t: nat, u: nat)
    requires Inv(s) && Wedged(s, t, u)
    ensures var s' := StrictRunFrom(s, more);
            && Inv(s') && Wedged(s', t, u) && |s.threads| <= |s'.threads| && s'.table == s.table
            && (forall v :: 0 <= v < |s.threads| && NeedsMap(s.threads[v]) ==> s'.threads[v] == s.threads[v])
            && (forall v :: |s.threads| <= v < |s'.threads| ==> AtStart(s'.threads[v]))
    decreases |more|
  {
    hide Inv, Wedged, StrictStep;
    if more != [] {
      var before := more[..|more| - 1];
      WedgeBlocksEveryone(s, before, t, u);
      WedgeBars(StrictRunFrom(s, before), more[|more| - 1], t, u);
      assert forall th :: AtStart(th) ==> NeedsMap(th);
    }
  }

  /** A Snapshot and a successful release from the same address can wedge. */
  lemma SnapshotCanWedge(k: Key) returns (acts: seq<Action>)
    ensures Wedged(Run(acts), 1, 0)
  {
    hide Reaches, ComputeDelay;
    var inside := NewcomerIn(INIT, k, Anything);
    var waiting := SnapshotQueues(inside, k);
    Onwards(INIT, inside, waiting, Anything);
    var last := Go(INIT, waiting, Release(0, true), Anything);
    acts := AsRun(last, Anything);
  }

  lemma SnapshotQueues(s: State, k: Key) returns (s': State)
    requires |s.threads| == 1 && MapFree(s) && s.table == map[k := 0]
    ensures Reaches(s, s', Anything)
    ensures s'.threads == s.threads + [Snapshot(SnapWait(k, 0, {}, map[]))] && s'.entries == s.entries
    ensures 1 in s'.readers && s'.writer.None?
  {
    hide Reaches, ComputeDelay;
    Stay(s, Anything);
    s' := Go(s, s, BeginSnapshot, Anything);
    s' := Go(s, s', Move(1), Anything);
    assert s.table.Keys == {k};
    assert s'.threads[1] == Snapshot(SnapNext({k}, map[]));
    s' := Go(s, s', Pick(1, k), Anything);
    assert {k} - {k} == {};
  }
}
