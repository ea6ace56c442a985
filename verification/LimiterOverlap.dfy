/** When two attempts on one address can be inside at once: exactly what per-entry exclusion
    leaves open. */
module LimiterOverlap {
  import opened Common
  import opened Addresses
  import opened Backoff
  import opened LimiterProtocol
  import opened LimiterHistory
  import opened LimiterSerial
  import opened LimiterWitness

  /** An attempt succeeded on entry `e` of key `k`, or found it idle for too long. */
  ghost predicate Dropped(trace: seq<Event>, k: Key, e: nat) {
    exists i :: 0 <= i < |trace| && (trace[i].Succeeded? || trace[i].Expired?) && trace[i].key == k && trace[i].e == e
  }

  /** An entry is in the table under its own key, or was dropped. */
  ghost predicate EntriesAccounted(s: State) {
    forall e :: 0 <= e < |s.entries| ==> Current(s, s.entries[e].key, e) || Dropped(s.trace, s.entries[e].key, e)
  }

  predicate OnTheWayOut(pc: Pc) { pc.WantSwap? || pc.Swapping? || pc.WantDelete? || pc.Deleting? }

  /** Whoever is about to unmap an entry has recorded why. */
  ghost predicate LeaversAccounted(s: State) {
    forall t :: 0 <= t < |s.threads| && s.threads[t].Attempt? && OnTheWayOut(s.threads[t].pc) ==>
      Dropped(s.trace, s.threads[t].key, s.threads[t].pc.e)
  }

  lemma DroppedStays(trace: seq<Event>, more: seq<Event>, k: Key, e: nat)
    requires Dropped(trace, k, e)
    ensures Dropped(trace + more, k, e)
  {
    var i :| 0 <= i < |trace| && (trace[i].Succeeded? || trace[i].Expired?) && trace[i].key == k && trace[i].e == e;
    assert (trace + more)[i] == trace[i];
  }

  /** Setting out to unmap an entry is recorded, and only such an attempt unmaps anything. */
  lemma PlanRecordsLeaving(s: State, a: Action)
    requires Plan(s, a).Some?
    ensures var th, eff := s.threads[a.t], Plan(s, a).value;
            && (eff.next.Attempt? && OnTheWayOut(eff.next.pc) ==>
                  || (th.Attempt? && OnTheWayOut(th.pc) && th.key == eff.next.key && th.pc.e == eff.next.pc.e)
                  || Dropped(eff.events, eff.next.key, eff.next.pc.e))
            && (eff.tableOp.RemoveIf? ==>
                  th.Attempt? && OnTheWayOut(th.pc) && th.key == eff.tableOp.key && th.pc.e == eff.tableOp.e)
  {
    hide ComputeDelay;
    var th, eff := s.threads[a.t], Plan(s, a).value;
    if eff.next.Attempt? && OnTheWayOut(eff.next.pc) && |eff.events| == 1 {
      assert eff.events[0].key == eff.next.key && eff.events[0].e == eff.next.pc.e;
    }
  }

  lemma ApplyKeepsLeavers(s: State, a: Action)
    requires LeaversAccounted(s) && Plan(s, a).Some?
    ensures LeaversAccounted(Apply(s, a.t, Plan(s, a).value))
  {
    hide Dropped;
    var eff := Plan(s, a).value;
    var s' := Apply(s, a.t, eff);
    PlanRecordsLeaving(s, a);
    forall t | 0 <= t < |s'.threads| && s'.threads[t].Attempt? && OnTheWayOut(s'.threads[t].pc)
      ensures Dropped(s'.trace, s'.threads[t].key, s'.threads[t].pc.e)
    {
      var k, e := s'.threads[t].key, s'.threads[t].pc.e;
      if Dropped(s.trace, k, e) {
        DroppedStays(s.trace, eff.events, k, e);
      } else {
        DroppedLast(s.trace, eff.events, k, e);
      }
    }
  }

  lemma DroppedLast(trace: seq<Event>, more: seq<Event>, k: Key, e: nat)
    requires Dropped(more, k, e)
    ensures Dropped(trace + more, k, e)
  {
    var i :| 0 <= i < |more| && (more[i].Succeeded? || more[i].Expired?) && more[i].key == k && more[i].e == e;
    assert (trace + more)[|trace| + i] == more[i];
  }

  lemma ApplyKeepsEntries(s: State, a: Action)
    requires Structure(s) && LeaversAccounted(s) && EntriesAccounted(s)
    requires Plan(s, a).Some? && Ready(s, Plan(s, a).value)
    ensures EntriesAccounted(Apply(s, a.t, Plan(s, a).value))
  {
    hide Dropped, LocksOk, OwnersOk, ThreadsOk;
    var eff := Plan(s, a).value;
    var s' := Apply(s, a.t, eff);
    PlanCoherent(s, a);
    PlanRecordsLeaving(s, a);
    forall e | 0 <= e < |s'.entries|
      ensures Current(s', s'.entries[e].key, e) || Dropped(s'.trace, s'.entries[e].key, e)
    {
      if e < |s.entries| {
        EntryPersists(s, a.t, eff.entryOp, e);
        var k := s.entries[e].key;
        if Dropped(s.trace, k, e) { DroppedStays(s.trace, eff.events, k, e); }
      }
    }
  }

  lemma {:induction false} EveryDropIsAccounted(acts: seq<Action>)
    ensures LeaversAccounted(Run(acts)) && EntriesAccounted(Run(acts))
    decreases |acts|
  {
    hide LeaversAccounted, EntriesAccounted;
    if acts == [] {
      EmptyAccounted();
    } else {
      var s, a := Run(acts[..|acts| - 1]), acts[|acts| - 1];
      EveryDropIsAccounted(acts[..|acts| - 1]);
      EveryRun(acts[..|acts| - 1]);
      if Plan(s, a).Some? && Ready(s, Plan(s, a).value) {
        ApplyKeepsLeavers(s, a);
        ApplyKeepsEntries(s, a);
      } else {
        IdleKeepsAccounts(s, a);
      }
    }
  }

  lemma EmptyAccounted()
    ensures LeaversAccounted(INIT) && EntriesAccounted(INIT)
  {
  }

  lemma IdleKeepsAccounts(s: State, a: Action)
    requires LeaversAccounted(s) && EntriesAccounted(s)
    requires !(Plan(s, a).Some? && Ready(s, Plan(s, a).value))
    ensures LeaversAccounted(Step(s, a)) && EntriesAccounted(Step(s, a))
  {
    hide Dropped;
  }

  /** In every run, two attempts on one address are inside together only if one of them is on an
      entry that an attempt on that address has since succeeded on or found expired: at most one
      of them is on the entry the table holds. */
  lemma OverlapNeedsADrop(acts: seq<Action>, k: Key, t: nat, u: nat)
    requires var s := Run(acts);
             t < |s.threads| && u < |s.threads| && t != u && IsHolding(s.threads[t], k) && IsHolding(s.threads[u], k)
    ensures var s := Run(acts); var e, f := s.threads[t].pc.e, s.threads[u].pc.e;
            && e != f && !(Current(s, k, e) && Current(s, k, f))
            && (Current(s, k, e) || Dropped(s.trace, k, e)) && (Current(s, k, f) || Dropped(s.trace, k, f))
            && !Clean(s.trace, k)
  {
    hide Structure, CountsOk, Faithful, Referenced;
    EveryDropIsAccounted(acts);
    EveryRun(acts);
    var s := Run(acts);
    HolderIsOnItsEntry(s, t, k);
    HolderIsOnItsEntry(s, u, k);
    if s.threads[t].pc.e == s.threads[u].pc.e { assert false; }
    if Clean(s.trace, k) {
      CleanMeansNotDropped(s.trace, k, s.threads[t].pc.e);
      CleanMeansNotDropped(s.trace, k, s.threads[u].pc.e);
      assert false;
    }
  }

  lemma HolderIsOnItsEntry(s: State, t: nat, k: Key)
    requires Structure(s) && t < |s.threads| && IsHolding(s.threads[t], k)
    ensures var e := s.threads[t].pc.e; e < |s.entries| && s.entries[e].key == k && s.entries[e].owner == Some(t)
  {
    assert ThreadOk(s, s.threads[t]);
    assert HeldEntry(s.threads[t]) == Some(s.threads[t].pc.e);
  }

  lemma CleanMeansNotDropped(trace: seq<Event>, k: Key, e: nat)
    requires Clean(trace, k)
    ensures !Dropped(trace, k, e)
  {
    if i :| 0 <= i < |trace| && (trace[i].Succeeded? || trace[i].Expired?) && trace[i].key == k && trace[i].e == e {
      assert false;
    }
  }

  // ----- runs in which it happens -----

  /** Exclusion is per entry, not per address: after a success, an attempt that was already
      queued keeps the unmapped entry while a newcomer gets a fresh one. */
  lemma SuccessSplitsAKey(k: Key) returns (acts: seq<Action>)
    ensures !Exclusive(Run(acts), k)
  {
    hide Reaches, ComputeDelay;
    var m := Anything;
    var inside := NewcomerIn(INIT, k, m);
    var queued := FindAlone(inside, k, m);
    Onwards(INIT, inside, queued, m);
    assert queued.threads[0] == Attempt(k, Holding(0, ComputeDelay(0)));
    var leaving := Go(INIT, queued, Release(0, true), m);
    assert leaving.threads == [Attempt(k, WantDelete(0)), Attempt(k, WantEntry(false, 0))];
    var last := SplitAfterDelete(leaving, k, m);
    Onwards(INIT, leaving, last, m);
    acts := AsRun(last, m);
  }

  lemma SplitAfterDelete(leaving: State, k: Key, m: Mode) returns (last: State)
    requires MapFree(leaving)
    requires leaving.threads == [Attempt(k, WantDelete(0)), Attempt(k, WantEntry(false, 0))]
    requires leaving.entries == [Entry(k, 0, 0, Some(0))] && leaving.table == map[k := 0]
    ensures Reaches(leaving, last, m) && !Exclusive(last, k)
  {
    hide ComputeDelay, Reaches;
    var unmapped := DeleteAlone(leaving, 0, k, 0, m);
    var free := UnlockAlone(unmapped, 0, k, 0, m);
    Onwards(leaving, unmapped, free, m);
    var one := BringIn(free, 1, k, 0, m);
    Onwards(leaving, free, one, m);
    last := NewcomerIn(one, k, m);
    Onwards(leaving, one, last, m);
    assert IsHolding(last.threads[1], k) && IsHolding(last.threads[2], k);
  }

  /** Up to the point where an attempt has swapped a stale entry and queues for the fresh one. */
  lemma FirstSwap(k: Key) returns (s: State)
    ensures Reaches(INIT, s, NoSuccess) && MapFree(s)
    ensures s.threads == [Attempt(k, Done), Attempt(k, WantEntry(true, 1))]
    ensures |s.entries| == 2 && s.entries[1] == Entry(k, 0, 0, None) && s.table == map[k := 1]
  {
    hide Reaches, ComputeDelay;
    var inside := NewcomerIn(INIT, k, NoSuccess);
    var idle := FailAndIdle(inside, 0, k, 0, NoSuccess);
    Onwards(INIT, inside, idle, NoSuccess);
    s := FindStaleAndSwap(idle, k, NoSuccess);
    Onwards(INIT, idle, s, NoSuccess);
  }

  /** An attempt past its swap queues for an entry that has itself expired and been replaced. */
  lemma QueuedForExpired(k: Key) returns (s: State)
    ensures Reaches(INIT, s, NoSuccess) && MapFree(s)
    ensures |s.threads| == 4 && s.threads[0] == s.threads[2] == Attempt(k, Done)
    ensures s.threads[1] == Attempt(k, WantEntry(true, 1)) && s.threads[3] == Attempt(k, WantEntry(true, 2))
    ensures |s.entries| == 3 && s.entries[1].owner.None? && s.entries[1].failCount == 1 && Stale(s.entries[1], s.now)
    ensures s.entries[2] == Entry(k, 0, 0, None) && s.table == map[k := 2]
  {
    hide Reaches, ComputeDelay;
    var swapped := FirstSwap(k);
    var inside := NewcomerIn(swapped, k, NoSuccess);
    Onwards(INIT, swapped, inside, NoSuccess);
    var idle := FailAndIdle(inside, 2, k, 1, NoSuccess);
    Onwards(INIT, inside, idle, NoSuccess);
    s := FindStaleAndSwap(idle, k, NoSuccess);
    Onwards(INIT, idle, s, NoSuccess);
  }

  /** Without a single success, two attempts on one address can be inside together: the one that
      queued after its swap is let in on an entry that has itself expired and been replaced, and
      pays for a failure that should have been forgotten. */
  lemma ExpirySplitsAKey(k: Key) returns (acts: seq<Action>)
    ensures forall ev :: ev in Run(acts).trace ==> !ev.Succeeded?
    ensures var s := Run(acts);
            && |s.threads| == 4 && s.threads[1] == Attempt(k, Holding(1, ComputeDelay(1)))
            && s.threads[3] == Attempt(k, Holding(2, ComputeDelay(0))) && Current(s, k, 2)
  {
    hide Reaches, ComputeDelay;
    var queued := QueuedForExpired(k);
    var one := BringIn(queued, 3, k, 2, NoSuccess);
    Onwards(INIT, queued, one, NoSuccess);
    var two := BringIn(one, 1, k, 1, NoSuccess);
    Onwards(INIT, one, two, NoSuccess);
    acts := AsRun(two, NoSuccess);
  }
}
