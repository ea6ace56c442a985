/** What every interleaving of the limiter keeps, stated against the history of the run. */
module LimiterHistory {
  import opened Common
  import opened Backoff
  import opened LimiterProtocol

  /** How many `release(false)` calls have completed on entry `e`. */
  function Fails(trace: seq<Event>, e: nat): nat
    decreases |trace|
  {
    if trace == [] then 0
    else
      var last := trace[|trace| - 1];
      Fails(trace[..|trace| - 1], e) + (if last.Failed? && last.e == e then 1 else 0)
  }

  lemma FailsAppend(trace: seq<Event>, more: seq<Event>, e: nat)
    requires |more| <= 1
    ensures Fails(trace + more, e) ==
            Fails(trace, e) + (if |more| == 1 && more[0].Failed? && more[0].e == e then 1 else 0)
  {
    if |more| == 1 { assert (trace + more)[..|trace|] == trace; } else { assert trace + more == trace; }
  }

  /** An attempt is let in with the delay its entry has earned by then; a Snapshot reads the
      number of failures recorded by then. */
  predicate EventFaithful(before: seq<Event>, ev: Event) {
    match ev
    case Entered(_, _, e, delay) => delay == ComputeDelay(Fails(before, e))
    case Observed(_, _, e, count) => count == Fails(before, e)
    case _ => true
  }

  ghost predicate Faithful(trace: seq<Event>) {
    forall i :: 0 <= i < |trace| ==> EventFaithful(trace[..i], trace[i])
  }

  ghost predicate CountsOk(s: State) {
    forall e: nat :: Fails(s.trace, e) == FailCount(s, e)
  }

  ghost predicate Refers(s: State, t: nat, e: nat) {
    t < |s.threads| && RefEntry(s.threads[t]) == Some(e)
  }

  /** A mapped entry with no failure is still being worked on. */
  ghost predicate Referenced(s: State) {
    forall k :: k in s.table && FailCount(s, s.table[k]) == 0 ==> exists t: nat :: Refers(s, t, s.table[k])
  }

  ghost predicate Inv(s: State) { Structure(s) && CountsOk(s) && Faithful(s.trace) && Referenced(s) }

  lemma FailCountAfter(s: State, t: nat, op: EntryOp, e: nat)
    requires op.FailAndUnlock? ==> op.e < |s.entries|
    ensures var es := NewEntries(s, t, op);
            (if e < |es| then es[e].failCount else 0) == FailCount(s, e) + (if op == FailAndUnlock(e) then 1 else 0)
  {
  }

  lemma ApplyCounts(s: State, t: nat, eff: Effect)
    requires CountsOk(s) && t < |s.threads| && Ready(s, eff) && EventsCoherent(s, t, s.threads[t], eff)
    ensures CountsOk(Apply(s, t, eff))
  {
    var s' := Apply(s, t, eff);
    forall e: nat ensures Fails(s'.trace, e) == FailCount(s', e) {
      assert Fails(s.trace, e) == FailCount(s, e);
      FailsAppend(s.trace, eff.events, e);
      FailCountAfter(s, t, eff.entryOp, e);
    }
  }

  lemma ApplyFaithful(s: State, t: nat, eff: Effect)
    requires t < |s.threads| && EventsCoherent(s, t, s.threads[t], eff)
    requires CountsOk(s) && Faithful(s.trace)
    ensures Faithful(s.trace + eff.events)
  {
    var tr := s.trace + eff.events;
    forall i | 0 <= i < |tr| ensures EventFaithful(tr[..i], tr[i]) {
      if i < |s.trace| {
        assert tr[..i] == s.trace[..i] && EventFaithful(s.trace[..i], s.trace[i]);
      } else {
        assert tr[..i] == s.trace;
      }
    }
  }

  /** An attempt drops its entry only with a failure on it, or with the entry out of the table. */
  lemma DropsEarnedOrUnmapped(s: State, a: Action, e: nat)
    requires Structure(s) && Plan(s, a).Some? && Ready(s, Plan(s, a).value)
    requires RefEntry(s.threads[a.t]) == Some(e) && RefEntry(Plan(s, a).value.next) != Some(e)
    ensures var s' := Apply(s, a.t, Plan(s, a).value);
            FailCount(s', e) > 0 || (forall k :: k in s'.table ==> s'.table[k] != e)
  {
    hide LocksOk, OwnersOk, ComputeDelay;
    assert ThreadOk(s, s.threads[a.t]);
    assert s.threads[a.t].pc.Unlocking? || s.threads[a.t].pc.Swapping? || a.Release?;
  }

  lemma InsertedIsReferenced(s: State, a: Action)
    requires Plan(s, a).Some?
    ensures Plan(s, a).value.tableOp.Insert? ==> RefEntry(Plan(s, a).value.next) == Some(|s.entries|)
  {
    hide ComputeDelay;
  }

  lemma ApplyReferenced(s: State, a: Action)
    requires Structure(s) && Referenced(s) && Plan(s, a).Some? && Ready(s, Plan(s, a).value)
    ensures Referenced(Apply(s, a.t, Plan(s, a).value))
  {
    hide LocksOk, OwnersOk, ThreadsOk, Plan, Ready, ComputeDelay;
    var t, eff := a.t, Plan(s, a).value;
    var s' := Apply(s, t, eff);
    PlanCoherent(s, a);
    InsertedIsReferenced(s, a);
    forall k | k in s'.table && FailCount(s', s'.table[k]) == 0
      ensures exists u: nat :: Refers(s', u, s'.table[k])
    {
      if k in s.table && s.table[k] == s'.table[k] {
        var e := s.table[k];
        EntryPersists(s, t, eff.entryOp, e);
        var u: nat :| Refers(s, u, e);
        if u == t && RefEntry(eff.next) != Some(e) { DropsEarnedOrUnmapped(s, a, e); }
        assert Refers(s', u, e);
      } else {
        assert eff.tableOp == Insert(k);
        assert Refers(s', t, s'.table[k]);
      }
    }
  }

  lemma StepKeepsInv(s: State, a: Action)
    requires Inv(s)
    ensures Inv(Step(s, a))
  {
    hide Structure, CountsOk, Faithful, Referenced, Plan, Ready, NewEntries, NewTable;
    StepKeepsStructure(s, a);
    if Plan(s, a).Some? && Ready(s, Plan(s, a).value) {
      PlanCoherent(s, a);
      ApplyCounts(s, a.t, Plan(s, a).value);
      ApplyFaithful(s, a.t, Plan(s, a).value);
      ApplyReferenced(s, a);
    } else {
      IdleKeepsReferenced(s, a);
      IdleKeepsHistory(s, a);
    }
  }

  lemma IdleKeepsHistory(s: State, a: Action)
    requires !(Plan(s, a).Some? && Ready(s, Plan(s, a).value)) && CountsOk(s)
    ensures Step(s, a).trace == s.trace && CountsOk(Step(s, a))
  {
    hide Plan, Ready, Fails;
  }

  lemma IdleKeepsReferenced(s: State, a: Action)
    requires Referenced(s)
    requires !(Plan(s, a).Some? && Ready(s, Plan(s, a).value))
    ensures Referenced(Step(s, a))
  {
    var s' := Step(s, a);
    forall k | k in s'.table && FailCount(s', s'.table[k]) == 0
      ensures exists u: nat :: Refers(s', u, s'.table[k])
    {
      var u: nat :| Refers(s, u, s.table[k]);
      assert Refers(s', u, s'.table[k]);
    }
  }

  lemma {:induction false} EveryRunFrom(s: State, acts: seq<Action>)
    requires Inv(s)
    ensures Inv(RunFrom(s, acts))
    decreases |acts|
  {
    if acts != [] {
      EveryRunFrom(s, acts[..|acts| - 1]);
      StepKeepsInv(RunFrom(s, acts[..|acts| - 1]), acts[|acts| - 1]);
    }
  }

  lemma EveryRun(acts: seq<Action>)
    ensures Inv(Run(acts))
  {
    EveryRunFrom(INIT, acts);
  }

  // ----- per-entry exclusion and counting -----

  /** In every interleaving: an entry mutex has at most one holder, the fail count is the number
      of completed failures on that entry, and whoever is between Acquire and release was given
      exactly the delay those failures earned. */
  lemma ExclusionAndCounting(acts: seq<Action>)
    ensures var s := Run(acts);
            && (forall t, u :: 0 <= t < u < |s.threads| && HeldEntry(s.threads[t]).Some? ==>
                  HeldEntry(s.threads[t]) != HeldEntry(s.threads[u]))
            && (forall e :: 0 <= e < |s.entries| ==> s.entries[e].failCount == Fails(s.trace, e))
            && (forall t :: 0 <= t < |s.threads| && s.threads[t].Attempt? && s.threads[t].pc.Holding? ==>
                  s.threads[t].pc.delay == ComputeDelay(Fails(s.trace, s.threads[t].pc.e)))
            && Faithful(s.trace)
  {
    EveryRun(acts);
    var s := Run(acts);
    forall e | 0 <= e < |s.entries| ensures s.entries[e].failCount == Fails(s.trace, e) {
      assert FailCount(s, e) == s.entries[e].failCount;
    }
    forall t | 0 <= t < |s.threads| && s.threads[t].Attempt? && s.threads[t].pc.Holding?
      ensures s.threads[t].pc.delay == ComputeDelay(Fails(s.trace, s.threads[t].pc.e))
    {
      assert ThreadOk(s, s.threads[t]);
    }
  }

  /** A fail count moves only by one, only upwards, and only when the attempt that holds the
      entry's mutex releases it with a failure. */
  lemma OnlyTheHolderCounts(s: State, a: Action, e: nat)
    requires Structure(s) && e < |s.entries|
    ensures var s' := Step(s, a);
            && e < |s'.entries|
            && (s'.entries[e].failCount != s.entries[e].failCount ==>
                  && s'.entries[e].failCount == s.entries[e].failCount + 1
                  && s'.entries[e].lastFail == s.now
                  && a.Release? && !a.success && s.entries[e].owner == Some(a.t))
  {
    hide LocksOk, ThreadsOk, TableOk, Plan, Ready, NewTable, ComputeDelay;
    if Plan(s, a).Some? && Ready(s, Plan(s, a).value) {
      PlanCoherent(s, a);
      EntryPersists(s, a.t, Plan(s, a).value.entryOp, e);
      FailuresAreReleases(s, a);
    }
  }

  lemma FailuresAreReleases(s: State, a: Action)
    requires Plan(s, a).Some?
    ensures Plan(s, a).value.entryOp.FailAndUnlock? ==> a.Release? && !a.success
  {
    hide ComputeDelay;
  }

  // ----- the table -----

  ghost predicate Mapped(s: State, e: nat) { exists k :: k in s.table && s.table[k] == e }

  lemma StepNeverRemaps(s: State, a: Action, e: nat)
    requires Structure(s) && e < |s.entries| && !Mapped(s, e)
    ensures !Mapped(Step(s, a), e) && e < |Step(s, a).entries|
  {
    hide LocksOk, OwnersOk, ThreadsOk, Plan, Ready, NewEntries, ComputeDelay;
    if Plan(s, a).Some? && Ready(s, Plan(s, a).value) {
      PlanCoherent(s, a);
      EntryPersists(s, a.t, Plan(s, a).value.entryOp, e);
      forall k | k in Step(s, a).table ensures Step(s, a).table[k] != e {
      }
    }
  }

  /** Once an entry has left the table, by success or expiry, no continuation maps it again. */
  lemma {:induction false} UnmappedForever(s: State, more: seq<Action>, e: nat)
    requires Inv(s) && e < |s.entries| && !Mapped(s, e)
    ensures !Mapped(RunFrom(s, more), e) && e < |RunFrom(s, more).entries|
    decreases |more|
  {
    if more != [] {
      UnmappedForever(s, more[..|more| - 1], e);
      EveryRunFrom(s, more[..|more| - 1]);
      StepNeverRemaps(RunFrom(s, more[..|more| - 1]), more[|more| - 1], e);
    }
  }

  /** No two keys share an entry, and when nothing is in flight the table holds only addresses
      with at least one failure recorded against them. */
  lemma QuietTableOnlyHoldsFailures(acts: seq<Action>)
    ensures var s := Run(acts);
            && (forall j, k :: j in s.table && k in s.table && s.table[j] == s.table[k] ==> j == k)
            && ((forall t :: 0 <= t < |s.threads| ==> Finished(s.threads[t])) ==>
                  forall k :: k in s.table ==> Fails(s.trace, s.table[k]) >= 1)
  {
    EveryRun(acts);
    var s := Run(acts);
    if forall t :: 0 <= t < |s.threads| ==> Finished(s.threads[t]) {
      forall k | k in s.table ensures Fails(s.trace, s.table[k]) >= 1 {
        assert Fails(s.trace, s.table[k]) == FailCount(s, s.table[k]);
        if FailCount(s, s.table[k]) == 0 {
          assert false;
        }
      }
    }
  }
}
