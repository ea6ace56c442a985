/** What a Snapshot returns when it runs beside any number of attempts. */
module LimiterSnapshot {
  import opened Addresses
  import opened Backoff
  import opened LimiterProtocol
  import opened LimiterHistory
  import opened LimiterSerial

  /** The i-th event is the reading by thread `t` that gave `n` for `k`. */
  predicate IsReading(trace: seq<Event>, i: int, t: nat, k: Key, n: nat) {
    0 <= i < |trace| && trace[i].Observed? && trace[i].t == t && trace[i].key == k && trace[i].count == n
  }

  /** Every number in `out` was read by `t` itself, from the entry the table has for its key. */
  ghost predicate Backed(trace: seq<Event>, t: nat, out: map<Key, nat>, table: map<Key, nat>) {
    forall k :: k in out ==> k in table && exists i :: IsReading(trace, i, t, k, out[k]) && trace[i].e == table[k]
  }

  function OutOf(at: SnapPc): map<Key, nat> { if at.SnapStart? then map[] else at.out }

  /** While the map lock is held, the keys reported, in hand and left are those of the table. */
  ghost predicate KeysCovered(at: SnapPc, keys: set<Key>) {
    match at
    case SnapNext(todo, out) => out.Keys + todo == keys && out.Keys !! todo
    case SnapWait(k, _, todo, out) => out.Keys + todo + {k} == keys && k !in todo && k !in out && out.Keys !! todo
    case SnapRead(k, _, todo, out) => out.Keys + todo + {k} == keys && k !in todo && k !in out && out.Keys !! todo
    case _ => true
  }

  ghost predicate ReportOk(s: State, t: nat)
    requires t < |s.threads|
  {
    s.threads[t].Snapshot? && !s.threads[t].at.SnapDone? ==>
      && KeysCovered(s.threads[t].at, s.table.Keys)
      && Backed(s.trace, t, OutOf(s.threads[t].at), s.table)
  }

  ghost predicate ReportsOk(s: State) {
    forall t :: 0 <= t < |s.threads| ==> ReportOk(s, t)
  }

  lemma BackedGrows(trace: seq<Event>, more: seq<Event>, t: nat, out: map<Key, nat>, table: map<Key, nat>)
    requires Backed(trace, t, out, table)
    ensures Backed(trace + more, t, out, table)
  {
    forall k | k in out
      ensures k in table && exists i :: IsReading(trace + more, i, t, k, out[k]) && (trace + more)[i].e == table[k]
    {
      var i :| IsReading(trace, i, t, k, out[k]) && trace[i].e == table[k];
      assert IsReading(trace + more, i, t, k, out[k]) && (trace + more)[i].e == table[k];
    }
  }

  lemma BackedAdds(trace: seq<Event>, t: nat, out: map<Key, nat>, k: Key, n: nat, table: map<Key, nat>)
    requires Backed(trace, t, out, table) && k in table
    ensures Backed(trace + [Observed(t, k, table[k], n)], t, out[k := n], table)
  {
    var trace' := trace + [Observed(t, k, table[k], n)];
    BackedGrows(trace, [Observed(t, k, table[k], n)], t, out, table);
    assert IsReading(trace', |trace|, t, k, n) && trace'[|trace|].e == table[k];
  }

  /** The step of a Snapshot: it starts with all keys, picks one, locks it, reports it, or ends. */
  lemma ReporterOk(s: State, a: Action)
    requires Structure(s) && Plan(s, a).Some? && s.threads[a.t].Snapshot? && ReportOk(s, a.t)
    ensures ReportOk(Apply(s, a.t, Plan(s, a).value), a.t)
  {
    hide LocksOk, OwnersOk, TableOk, Backed, ComputeDelay;
    var at, eff := s.threads[a.t].at, Plan(s, a).value;
    PlanCoherent(s, a);
    if at.SnapRead? {
      assert ThreadOk(s, s.threads[a.t]);
      BackedAdds(s.trace, a.t, at.out, at.k, FailCount(s, at.e), s.table);
    } else {
      if !at.SnapDone? { BackedGrows(s.trace, eff.events, a.t, OutOf(at), s.table); }
      StartsEmpty(s.trace + eff.events, a.t, s.table);
    }
    ReporterCovers(s, a);
  }

  lemma StartsEmpty(trace: seq<Event>, t: nat, table: map<Key, nat>)
    ensures Backed(trace, t, map[], table)
  {
  }

  lemma ReporterCovers(s: State, a: Action)
    requires Plan(s, a).Some? && s.threads[a.t].Snapshot? && KeysCovered(s.threads[a.t].at, s.table.Keys)
    ensures var eff := Plan(s, a).value; eff.tableOp.TableKeep? && KeysCovered(eff.next.at, s.table.Keys)
  {
    hide ComputeDelay;
  }

  /** Beside another thread's step: nobody changes the table under a Snapshot. */
  lemma ReportStands(s: State, a: Action, u: nat)
    requires Structure(s) && Plan(s, a).Some? && Ready(s, Plan(s, a).value)
    requires u < |s.threads| && u != a.t && ReportOk(s, u)
    ensures ReportOk(Apply(s, a.t, Plan(s, a).value), u)
  {
    hide OwnersOk, ThreadsOk, TableOk, Backed, Plan, Ready, ComputeDelay;
    var eff := Plan(s, a).value;
    PlanCoherent(s, a);
    if s.threads[u].Snapshot? && s.threads[u].at.SnapStart? {
      StartsEmpty(s.trace + eff.events, u, Apply(s, a.t, eff).table);
    } else if s.threads[u].Snapshot? && !s.threads[u].at.SnapDone? {
      assert HoldsRead(s.threads[u]) && s.writer.None?;
      BackedGrows(s.trace, eff.events, u, OutOf(s.threads[u].at), s.table);
    }
  }

  lemma StepKeepsReports(s: State, a: Action)
    requires Structure(s) && ReportsOk(s)
    ensures ReportsOk(Step(s, a))
  {
    hide Structure, Plan, Ready, Apply;
    var s' := Step(s, a);
    if Plan(s, a).Some? && Ready(s, Plan(s, a).value) {
      PlanCoherent(s, a);
      forall t | 0 <= t < |s'.threads| ensures ReportOk(s', t) {
        AppliedThreads(s, a);
        assert ReportOk(s, t);
        if t != a.t { ReportStands(s, a, t); } else if s.threads[t].Snapshot? { ReporterOk(s, a); }
      }
    } else {
      IdleKeepsReports(s, a);
    }
  }

  lemma AppliedThreads(s: State, a: Action)
    requires Plan(s, a).Some?
    ensures Apply(s, a.t, Plan(s, a).value).threads == s.threads[a.t := Plan(s, a).value.next]
  {
  }

  lemma IdleKeepsReports(s: State, a: Action)
    requires ReportsOk(s) && !(Plan(s, a).Some? && Ready(s, Plan(s, a).value))
    ensures ReportsOk(Step(s, a))
  {
    hide Plan, Ready;
    var s' := Step(s, a);
    forall t | 0 <= t < |s'.threads| ensures ReportOk(s', t) {
      if t < |s.threads| { assert ReportOk(s, t); } else { StartsEmpty(s'.trace, t, s'.table); }
    }
  }

  lemma {:induction false} EveryRunReports(acts: seq<Action>)
    ensures ReportsOk(Run(acts))
    decreases |acts|
  {
    hide ReportsOk, Step;
    if acts == [] {
      EmptyReports();
    } else {
      EveryRunReports(acts[..|acts| - 1]);
      EveryRun(acts[..|acts| - 1]);
      StepKeepsReports(Run(acts[..|acts| - 1]), acts[|acts| - 1]);
    }
  }

  lemma EmptyReports()
    ensures ReportsOk(INIT)
  {
  }

  /** At moment `n` of the run thread `t` has read everything and is about to return `out`. */
  ghost predicate ReturnsAt(acts: seq<Action>, n: int, t: nat, out: map<Key, nat>) {
    0 <= n <= |acts| && t < |Run(acts[..n]).threads| && Run(acts[..n]).threads[t] == Snapshot(SnapNext({}, out))
  }

  lemma {:induction false} DoneReturned(acts: seq<Action>, t: nat, out: map<Key, nat>)
    requires t < |Run(acts).threads| && Run(acts).threads[t] == Snapshot(SnapDone(out))
    ensures exists n :: ReturnsAt(acts, n, t, out)
    decreases |acts|
  {
    assert acts != [];
    var before, a := acts[..|acts| - 1], acts[|acts| - 1];
    var s := Run(before);
    if t < |s.threads| && s.threads[t] == Snapshot(SnapDone(out)) {
      DoneReturned(before, t, out);
      var n :| ReturnsAt(before, n, t, out);
      assert acts[..n] == before[..n];
      assert ReturnsAt(acts, n, t, out);
    } else {
      OnlyLastStepReturns(s, a, t, out);
      assert ReturnsAt(acts, |before|, t, out);
    }
  }

  lemma OnlyLastStepReturns(s: State, a: Action, t: nat, out: map<Key, nat>)
    requires t < |Step(s, a).threads| && Step(s, a).threads[t] == Snapshot(SnapDone(out))
    requires !(t < |s.threads| && s.threads[t] == Snapshot(SnapDone(out)))
    ensures t < |s.threads| && s.threads[t] == Snapshot(SnapNext({}, out))
  {
    hide ComputeDelay, NewEntries, NewTable;
  }

  lemma {:induction false} TracePrefix(acts: seq<Action>, n: nat)
    requires n <= |acts|
    ensures Run(acts[..n]).trace <= Run(acts).trace
    decreases |acts|
  {
    hide Step;
    if n < |acts| {
      var before := acts[..|acts| - 1];
      TracePrefix(before, n);
      assert before[..n] == acts[..n];
      var es := StepAppends(Run(before), acts[|acts| - 1]);
    } else {
      assert acts[..n] == acts;
    }
  }

  /** The number reported for `k` is one that `t` read itself, before the moment it returns, from the
      entry the table then has for `k`, and it is the failures completed there at the time. */
  ghost predicate ReportedFor(tr: seq<Event>, s: State, t: nat, k: Key, n: nat) {
    exists i :: IsReading(tr, i, t, k, n) && i < |s.trace| && Current(s, k, tr[i].e) && n == Fails(tr[..i], tr[i].e)
  }

  /** In every interleaving, the map a Snapshot returns has exactly the keys of the table at the
      moment it returns, and each number in it is one it read itself: the failures completed on the
      entry the table has for that key, at the time of that reading. */
  lemma SnapshotReports(acts: seq<Action>, t: nat, out: map<Key, nat>)
    requires t < |Run(acts).threads| && Run(acts).threads[t] == Snapshot(SnapDone(out))
    ensures exists n ::
              && ReturnsAt(acts, n, t, out) && Run(acts[..n]).table.Keys == out.Keys
              && forall k :: k in out ==> ReportedFor(Run(acts).trace, Run(acts[..n]), t, k, out[k])
  {
    hide Run, ReportedFor, Backed;
    DoneReturned(acts, t, out);
    var n :| ReturnsAt(acts, n, t, out);
    EveryRunReports(acts[..n]);
    assert ReportOk(Run(acts[..n]), t);
    forall k | k in out ensures ReportedFor(Run(acts).trace, Run(acts[..n]), t, k, out[k]) {
      ReadBeforeReturn(acts, n, t, out, k);
    }
  }

  lemma ReadBeforeReturn(acts: seq<Action>, n: nat, t: nat, out: map<Key, nat>, k: Key)
    requires n <= |acts| && k in out && Backed(Run(acts[..n]).trace, t, out, Run(acts[..n]).table)
    ensures ReportedFor(Run(acts).trace, Run(acts[..n]), t, k, out[k])
  {
    hide Run, Structure, CountsOk, Referenced, Fails;
    TracePrefix(acts, n);
    EveryRun(acts);
    var s, tr := Run(acts[..n]), Run(acts).trace;
    var i :| IsReading(s.trace, i, t, k, out[k]) && s.trace[i].e == s.table[k];
    assert tr[i] == s.trace[i];
    assert EventFaithful(tr[..i], tr[i]);
  }

  /** For an address without success or expiry so far, Snapshot reports exactly the failures
      completed there when it was read, and leaves the address out only if there were none. */
  lemma SnapshotReportsFailures(acts: seq<Action>, t: nat, out: map<Key, nat>, k: Key)
    requires t < |Run(acts).threads| && Run(acts).threads[t] == Snapshot(SnapDone(out))
    requires Clean(Run(acts).trace, k)
    ensures var tr := Run(acts).trace;
            if k in out then exists i :: IsReading(tr, i, t, k, out[k]) && out[k] == |Turns(tr[..i], k)| / 2
            else exists n :: ReturnsAt(acts, n, t, out) && |Turns(Run(acts[..n]).trace, k)| / 2 == 0
  {
    hide Run, Turns, Fails;
    var tr := Run(acts).trace;
    SnapshotReports(acts, t, out);
    var n :| ReturnsAt(acts, n, t, out) && Run(acts[..n]).table.Keys == out.Keys
             && forall k :: k in out ==> ReportedFor(Run(acts).trace, Run(acts[..n]), t, k, out[k]);
    if k in out {
      FailingKeyIsSerialised(acts, k);
      assert ReportedFor(tr, Run(acts[..n]), t, k, out[k]);
    } else {
      TracePrefix(acts, n);
      assert forall ev :: ev in Run(acts[..n]).trace ==> ev in tr;
      FailingKeyIsSerialised(acts[..n], k);
    }
  }
}
