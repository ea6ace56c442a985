/** At most one way in: the condition under which an address is served one attempt at a time, and
    that it lasts. */
module LimiterCalm {
  import opened Common
  import opened Addresses
  import opened Backoff
  import opened LimiterProtocol
  import opened LimiterHistory
  import opened LimiterSerial
  import opened LimiterOverlap

  // ----- the condition -----

  predicate On(s: State, k: Key, t: nat) { t < |s.threads| && s.threads[t].Attempt? && s.threads[t].key == k }

  predicate StaleAt(s: State, e: nat) { e < |s.entries| && Stale(s.entries[e], s.now) }

  /** The attempt is past the staleness test of `e`, or will not make it. */
  predicate Unchecked(pc: Pc, e: nat) { pc == WantEntry(true, e) || pc == Computing(e) || (pc.Holding? && pc.e == e) }

  /** The attempt has given an entry up as stale: it will look its key up once more, and take what
      it finds without a test. */
  predicate LooksAgain(pc: Pc) {
    match pc
    case WantRead(again) => again
    case Reading(again) => again
    case WantWrite(again) => again
    case Creating(again) => again
    case WantSwap(_) => true
    case Swapping(_) => true
    case _ => false
  }

  ghost predicate Headed(s: State, k: Key, e: nat) {
    exists t: nat :: On(s, k, t) && Heading(s.threads[t].pc) == Some(e)
  }

  ghost predicate Sure(s: State, k: Key, e: nat) { exists t: nat :: On(s, k, t) && Unchecked(s.threads[t].pc, e) }

  /** Somebody will come back to the table while `e` is in it. */
  ghost predicate Returns(s: State, k: Key, e: nat) {
    exists t: nat :: On(s, k, t) && LooksAgain(s.threads[t].pc) && Leaving(s.threads[t].pc) != Some(e)
  }

  ghost predicate Removed(s: State, k: Key, e: nat) {
    exists t: nat :: On(s, k, t) && Leaving(s.threads[t].pc) == Some(e)
  }

  /** The mutex of `e` is with an attempt that has yet to find it stale. */
  predicate Blocked(s: State, e: nat) {
    && StaleAt(s, e) && s.entries[e].owner.Some?
    && var o := s.entries[e].owner.value; o < |s.threads| && s.threads[o].Attempt? && s.threads[o].pc == Checking(e)
  }

  /** Somebody can get in on `e` without an expiry, from where the attempts now are ... */
  ghost predicate Open(s: State, k: Key, e: nat) { !Blocked(s, e) && (!StaleAt(s, e) || Sure(s, k, e)) }

  /** ... or, for the entry in the table, after coming back to it. */
  ghost predicate Admits(s: State, k: Key, e: nat) {
    !Blocked(s, e) && (!StaleAt(s, e) || Sure(s, k, e) || Returns(s, k, e))
  }

  /** An entry outside the table through which somebody can still get in. */
  ghost predicate SideDoor(s: State, k: Key, e: nat) {
    e < |s.entries| && !Current(s, k, e) && Headed(s, k, e) && Open(s, k, e)
  }

  /** There is at most one way in: no two side doors, no side door beside a table that lets anybody
      in, and no removal of an entry that can be entered, which would make it a side door. */
  ghost predicate Calm(s: State, k: Key) {
    && (forall e: nat, f: nat :: SideDoor(s, k, e) && SideDoor(s, k, f) ==> e == f)
    && (forall e: nat :: SideDoor(s, k, e) ==> k in s.table && !Removed(s, k, s.table[k]) && !Admits(s, k, s.table[k]))
    && (k in s.table && Removed(s, k, s.table[k]) ==> !Admits(s, k, s.table[k]))
  }

  // ----- nothing opens by itself -----

  lemma EntryKept(s: State, t: nat, op: EntryOp, e: nat)
    requires e < |s.entries| && op != FailAndUnlock(e)
    ensures var es := NewEntries(s, t, op);
            e < |es| && es[e].failCount == s.entries[e].failCount && es[e].lastFail == s.entries[e].lastFail
    ensures op != Lock(e) && op != Unlock(e) ==> NewEntries(s, t, op)[e] == s.entries[e]
  {
  }

  /** Where an attempt that is past the test comes from. */
  lemma MoverUnchecked(s: State, a: Action, e: nat)
    requires Plan(s, a).Some? && s.threads[a.t].Attempt? && e < |s.entries|
    requires Unchecked(Plan(s, a).value.next.pc, e)
    ensures var pc, k := s.threads[a.t].pc, s.threads[a.t].key;
            || Unchecked(pc, e)
            || (pc == Checking(e) && !StaleAt(s, e))
            || (Current(s, k, e) && (pc == Reading(true) || pc == Creating(true)))
  {
    hide ComputeDelay;
  }

  lemma MoverLooks(s: State, a: Action, k: Key)
    requires Plan(s, a).Some? && s.threads[a.t].Attempt? && s.threads[a.t].key == k
    requires Clean(Plan(s, a).value.events, k)
    ensures var pc, pc' := s.threads[a.t].pc, Plan(s, a).value.next.pc;
            && (LooksAgain(pc') ==> LooksAgain(pc))
            && (Leaving(pc').Some? ==> Leaving(pc) == Leaving(pc'))
            && (LooksAgain(pc) && Leaving(pc).Some? && Leaving(pc') != Leaving(pc) ==>
                  Plan(s, a).value.tableOp == RemoveIf(k, Leaving(pc).value))
  {
    hide ComputeDelay;
    var events := Plan(s, a).value.events;
    if |events| == 1 { assert events[0] in events; }
  }

  lemma AppliedOn(s: State, a: Action, k: Key, t: nat)
    requires Plan(s, a).Some? && On(Apply(s, a.t, Plan(s, a).value), k, t)
    ensures On(s, k, t)
    ensures Apply(s, a.t, Plan(s, a).value).threads[t] == if t == a.t then Plan(s, a).value.next else s.threads[t]
  {
    hide Plan;
    PlanCoherent(s, a);
  }

  lemma BlockedStays(s: State, a: Action, k: Key, e: nat)
    requires Structure(s) && Plan(s, a).Some? && Ready(s, Plan(s, a).value) && Clean(Plan(s, a).value.events, k)
    requires e < |s.entries| && s.entries[e].key == k && Blocked(s, e)
    ensures Blocked(Apply(s, a.t, Plan(s, a).value), e)
  {
    hide LocksOk, TableOk, Plan, NewEntries, ComputeDelay;
    var o, eff := s.entries[e].owner.value, Plan(s, a).value;
    PlanCoherent(s, a);
    assert ThreadOk(s, s.threads[o]) && HeldEntry(s.threads[o]) == Some(e);
    if a.t == o {
      CheckerExpires(s, a, e);
      assert false;
    }
    assert eff.entryOp != FailAndUnlock(e) && eff.entryOp != Unlock(e) && eff.entryOp != Lock(e);
    EntryKept(s, a.t, eff.entryOp, e);
  }

  lemma CheckerExpires(s: State, a: Action, e: nat)
    requires Plan(s, a).Some? && s.threads[a.t].Attempt? && s.threads[a.t].pc == Checking(e) && StaleAt(s, e)
    ensures Plan(s, a).value.events == [Expired(a.t, s.threads[a.t].key, e)]
  {
  }

  /** An entry stops being stale only by a failure of somebody inside. */
  lemma StaleStays(s: State, a: Action, k: Key, e: nat)
    requires Structure(s) && Plan(s, a).Some? && e < |s.entries| && s.entries[e].key == k && StaleAt(s, e)
    ensures StaleAt(Apply(s, a.t, Plan(s, a).value), e) || Sure(s, k, e)
  {
    hide LocksOk, OwnersOk, TableOk, Plan, NewEntries, ComputeDelay;
    var eff := Plan(s, a).value;
    PlanTurnShape(s, a);
    PlanCoherent(s, a);
    if eff.entryOp == FailAndUnlock(e) {
      assert ThreadOk(s, s.threads[a.t]);
      assert On(s, k, a.t);
    } else {
      EntryKept(s, a.t, eff.entryOp, e);
    }
  }

  lemma SureBefore(s: State, a: Action, k: Key, e: nat)
    requires Plan(s, a).Some? && e < |s.entries| && Sure(Apply(s, a.t, Plan(s, a).value), k, e)
    ensures Sure(s, k, e) || !StaleAt(s, e) || (Current(s, k, e) && Returns(s, k, e))
  {
    hide Plan, Apply, Unchecked, ComputeDelay;
    var s' := Apply(s, a.t, Plan(s, a).value);
    var t: nat :| On(s', k, t) && Unchecked(s'.threads[t].pc, e);
    AppliedOn(s, a, k, t);
    if t == a.t { MoverUnchecked(s, a, e); }
  }

  /** What can be entered after a step could be entered before it. */
  lemma OpenBefore(s: State, a: Action, k: Key, e: nat)
    requires Structure(s) && Plan(s, a).Some? && Ready(s, Plan(s, a).value) && Clean(Plan(s, a).value.events, k)
    requires e < |s.entries| && s.entries[e].key == k && Open(Apply(s, a.t, Plan(s, a).value), k, e)
    ensures Open(s, k, e) || (Current(s, k, e) && Admits(s, k, e))
  {
    hide Structure, Plan, Ready, Apply, Blocked, StaleAt, Sure, Returns, Clean;
    if Blocked(s, e) { BlockedStays(s, a, k, e); }
    if StaleAt(s, e) {
      StaleStays(s, a, k, e);
      if Sure(Apply(s, a.t, Plan(s, a).value), k, e) { SureBefore(s, a, k, e); }
    }
  }

  lemma ReturnsBefore(s: State, a: Action, k: Key, e: nat)
    requires Plan(s, a).Some? && Clean(Plan(s, a).value.events, k)
    requires Current(s, k, e) && Current(Apply(s, a.t, Plan(s, a).value), k, e)
    requires Returns(Apply(s, a.t, Plan(s, a).value), k, e)
    ensures Returns(s, k, e)
  {
    hide Plan, LooksAgain, ComputeDelay, NewEntries;
    var s' := Apply(s, a.t, Plan(s, a).value);
    var t: nat :| On(s', k, t) && LooksAgain(s'.threads[t].pc) && Leaving(s'.threads[t].pc) != Some(e);
    AppliedOn(s, a, k, t);
    if t == a.t { MoverLooks(s, a, k); }
  }

  lemma AdmitsBefore(s: State, a: Action, k: Key, e: nat)
    requires Structure(s) && Plan(s, a).Some? && Ready(s, Plan(s, a).value) && Clean(Plan(s, a).value.events, k)
    requires e < |s.entries| && s.entries[e].key == k && Current(s, k, e)
    requires Current(Apply(s, a.t, Plan(s, a).value), k, e) && Admits(Apply(s, a.t, Plan(s, a).value), k, e)
    ensures Admits(s, k, e)
  {
    hide Structure, Plan, Ready, Apply, Blocked, StaleAt, Sure, Returns, Clean, Current;
    var s' := Apply(s, a.t, Plan(s, a).value);
    if Open(s', k, e) {
      OpenBefore(s, a, k, e);
    } else {
      if Blocked(s, e) { BlockedStays(s, a, k, e); }
      ReturnsBefore(s, a, k, e);
    }
  }

  lemma RemovedBefore(s: State, a: Action, k: Key, e: nat)
    requires Plan(s, a).Some? && Clean(Plan(s, a).value.events, k) && Removed(Apply(s, a.t, Plan(s, a).value), k, e)
    ensures Removed(s, k, e)
  {
    hide Plan, Apply, LooksAgain, ComputeDelay;
    var s' := Apply(s, a.t, Plan(s, a).value);
    var t: nat :| On(s', k, t) && Leaving(s'.threads[t].pc) == Some(e);
    AppliedOn(s, a, k, t);
    if t == a.t { MoverLooks(s, a, k); }
  }

  lemma HeadedBefore(s: State, a: Action, k: Key, e: nat)
    requires Plan(s, a).Some? && e < |s.entries| && !Current(s, k, e) && Headed(Apply(s, a.t, Plan(s, a).value), k, e)
    ensures Headed(s, k, e)
  {
    hide Plan, NewEntries, ComputeDelay;
    var s' := Apply(s, a.t, Plan(s, a).value);
    var t: nat :| On(s', k, t) && Heading(s'.threads[t].pc) == Some(e);
    AppliedOn(s, a, k, t);
    if t == a.t {
      MoverHeads(s, a);
      PlanCoherent(s, a);
    }
  }

  lemma HeadedIsKeyed(s: State, k: Key, e: nat)
    requires Structure(s) && Headed(s, k, e)
    ensures e < |s.entries| && s.entries[e].key == k
  {
    hide LocksOk, OwnersOk, TableOk, ComputeDelay;
    var t: nat :| On(s, k, t) && Heading(s.threads[t].pc) == Some(e);
    assert ThreadOk(s, s.threads[t]);
    HeadingRefers(s.threads[t]);
  }

  /** A side door after a step was one before, or it is the entry just taken out of the table. */
  lemma SideDoorBefore(s: State, a: Action, k: Key, e: nat)
    requires Structure(s) && Plan(s, a).Some? && Ready(s, Plan(s, a).value) && Clean(Plan(s, a).value.events, k)
    requires SideDoor(Apply(s, a.t, Plan(s, a).value), k, e)
    requires Structure(Apply(s, a.t, Plan(s, a).value))
    ensures e < |s.entries| && (if Current(s, k, e) then Removed(s, k, e) && Admits(s, k, e) else SideDoor(s, k, e))
  {
    hide Structure, Plan, Ready, Open, Admits, Headed, Clean, Apply;
    FreshIsCurrent(s, a, k, e);
    HeadedIsKeyed(Apply(s, a.t, Plan(s, a).value), k, e);
    EntryKeyKept(s, a, e);
    OpenBefore(s, a, k, e);
    if Current(s, k, e) {
      UnmappedByRemover(s, a, k, e);
      if Open(s, k, e) { OpenAdmits(s, k, e); }
    } else {
      HeadedBefore(s, a, k, e);
    }
  }

  lemma OpenAdmits(s: State, k: Key, e: nat)
    requires Open(s, k, e)
    ensures Admits(s, k, e)
  {
  }

  lemma EntryKeyKept(s: State, a: Action, e: nat)
    requires Plan(s, a).Some? && e < |s.entries|
    ensures var s' := Apply(s, a.t, Plan(s, a).value); e < |s'.entries| && s'.entries[e].key == s.entries[e].key
  {
    hide Plan;
  }

  /** An entry made in this step is in the table. */
  lemma FreshIsCurrent(s: State, a: Action, k: Key, e: nat)
    requires Structure(s) && Plan(s, a).Some? && SideDoor(Apply(s, a.t, Plan(s, a).value), k, e)
    requires Structure(Apply(s, a.t, Plan(s, a).value))
    ensures e < |s.entries|
  {
    hide LocksOk, OwnersOk, ThreadsOk, Plan, Open, Headed, ComputeDelay;
    PlanCoherent(s, a);
    HeadedKey(Apply(s, a.t, Plan(s, a).value), k, e);
  }

  lemma HeadedKey(s: State, k: Key, e: nat)
    requires Structure(s) && SideDoor(s, k, e)
    ensures s.entries[e].key == k
  {
    hide Structure;
    HeadedIsKeyed(s, k, e);
  }

  lemma UnmappedByRemover(s: State, a: Action, k: Key, e: nat)
    requires Plan(s, a).Some? && Current(s, k, e) && !Current(Apply(s, a.t, Plan(s, a).value), k, e) && e < |s.entries|
    ensures Removed(s, k, e)
  {
    hide Plan, NewEntries, ComputeDelay;
    PlanCoherent(s, a);
    RemoverLeaves(s, a);
    assert On(s, k, a.t);
  }

  // ----- calm lasts -----

  lemma ApplyKeepsCalm(s: State, a: Action, k: Key)
    requires Structure(s) && Calm(s, k)
    requires Plan(s, a).Some? && Ready(s, Plan(s, a).value) && Clean(Plan(s, a).value.events, k)
    requires Structure(Apply(s, a.t, Plan(s, a).value))
    ensures Calm(Apply(s, a.t, Plan(s, a).value), k)
  {
    hide Structure, Plan, Ready, Apply, SideDoor, Admits, Removed, Clean, Current;
    var s' := Apply(s, a.t, Plan(s, a).value);
    forall e: nat | SideDoor(s', k, e) ensures SideDoor(s, k, e) && !Current(s, k, e) {
      SideDoorBefore(s, a, k, e);
      CurrentIsTable(s, k, e);
      SideDoorIsOutside(s, k, e);
    }
    TableAfter(s, a, k);
    if k in s'.table && k in s.table && s'.table[k] == s.table[k] {
      var f := s.table[k];
      CurrentIsTable(s, k, f);
      CurrentIsTable(s', k, f);
      TableKey(s, k);
      if Admits(s', k, f) { AdmitsBefore(s, a, k, f); }
      if Removed(s', k, f) { RemovedBefore(s, a, k, f); }
    }
  }

  lemma CurrentIsTable(s: State, k: Key, e: nat)
    ensures Current(s, k, e) <==> k in s.table && s.table[k] == e
  {
  }

  lemma SideDoorIsOutside(s: State, k: Key, e: nat)
    ensures SideDoor(s, k, e) ==> !Current(s, k, e)
  {
  }

  lemma TableKey(s: State, k: Key)
    requires Structure(s) && k in s.table
    ensures s.table[k] < |s.entries| && s.entries[s.table[k]].key == k
  {
    hide LocksOk, OwnersOk, ThreadsOk;
  }

  /** The table's entry for `k` is kept, or taken out by a remover, or made for a key that had
      none, and then nobody is about to remove it. */
  lemma TableAfter(s: State, a: Action, k: Key)
    requires Structure(s) && Plan(s, a).Some? && Clean(Plan(s, a).value.events, k)
    ensures var s' := Apply(s, a.t, Plan(s, a).value);
            && (k in s.table && k in s'.table ==> s'.table[k] == s.table[k])
            && (k in s.table && k !in s'.table ==> Removed(s, k, s.table[k]))
            && (k !in s.table && k in s'.table ==> !Removed(s', k, s'.table[k]))
  {
    hide LocksOk, OwnersOk, ThreadsOk, Plan, NewEntries, Removed, Clean, ComputeDelay;
    var s' := Apply(s, a.t, Plan(s, a).value);
    PlanCoherent(s, a);
    if k in s.table && k !in s'.table { UnmappedByRemover(s, a, k, s.table[k]); }
    if k !in s.table && k in s'.table && Removed(s', k, s'.table[k]) {
      RemovedBefore(s, a, k, s'.table[k]);
      RemovedIsOld(s, k, s'.table[k]);
      assert false;
    }
  }

  lemma RemovedIsOld(s: State, k: Key, e: nat)
    requires Structure(s) && Removed(s, k, e)
    ensures e < |s.entries|
  {
    hide LocksOk, OwnersOk, TableOk, ComputeDelay;
    var t: nat :| On(s, k, t) && Leaving(s.threads[t].pc) == Some(e);
    assert ThreadOk(s, s.threads[t]);
    HeadingRefers(s.threads[t]);
  }

  /** Starting a thread or letting time pass opens nothing either. */
  lemma IdleKeepsCalm(s: State, a: Action, k: Key)
    requires Structure(s) && Calm(s, k) && !(Plan(s, a).Some? && Ready(s, Plan(s, a).value))
    ensures Calm(Step(s, a), k)
  {
    hide Structure, Plan, Ready, SideDoor, Admits, Removed, Heading, Leaving, LooksAgain;
    var s' := Step(s, a);
    forall e: nat ensures (SideDoor(s', k, e) ==> SideDoor(s, k, e)) && (Removed(s', k, e) ==> Removed(s, k, e)) {
      IdleOpensNothing(s, a, k, e);
    }
    if k in s.table { IdleOpensNothing(s, a, k, s.table[k]); }
  }

  lemma IdleOpensNothing(s: State, a: Action, k: Key, e: nat)
    requires Structure(s) && !(Plan(s, a).Some? && Ready(s, Plan(s, a).value))
    ensures var s' := Step(s, a);
            && s'.table == s.table
            && (SideDoor(s', k, e) ==> SideDoor(s, k, e)) && (Removed(s', k, e) ==> Removed(s, k, e))
            && (Admits(s', k, e) ==> Admits(s, k, e))
  {
    hide Structure, Plan, Ready;
    var s' := Step(s, a);
    assert s'.table == s.table && s'.entries == s.entries && s'.now >= s.now;
    assert s.threads <= s'.threads && forall u :: |s.threads| <= u < |s'.threads| ==> Begins(s'.threads[u]);
    assert StaleAt(s, e) ==> StaleAt(s', e);
    assert Blocked(s, e) ==> Blocked(s', e);
    forall t: nat | On(s', k, t)
      ensures (t < |s.threads| && On(s, k, t) && s'.threads[t] == s.threads[t]) || s'.threads[t].pc == WantRead(false)
    {
    }
  }

  lemma CalmIsExclusive(s: State, k: Key)
    requires Structure(s) && Calm(s, k)
    ensures Exclusive(s, k)
  {
    hide Structure, Calm;
    forall t, u | 0 <= t < u < |s.threads| && IsHolding(s.threads[t], k) ensures !IsHolding(s.threads[u], k) {
      if IsHolding(s.threads[u], k) { TwoHoldersAreNotCalm(s, k, t, u); }
    }
  }

  /** Whoever is inside keeps his entry open. */
  lemma HolderOpens(s: State, k: Key, t: nat)
    requires Structure(s) && t < |s.threads| && IsHolding(s.threads[t], k)
    ensures var e := s.threads[t].pc.e;
            && e < |s.entries| && s.entries[e].owner == Some(t) && Open(s, k, e) && Admits(s, k, e) && Headed(s, k, e)
  {
    hide Structure;
    HolderIsOnItsEntry(s, t, k);
    assert On(s, k, t) && Unchecked(s.threads[t].pc, s.threads[t].pc.e);
  }

  lemma TwoHoldersAreNotCalm(s: State, k: Key, t: nat, u: nat)
    requires Structure(s) && t < |s.threads| && u < |s.threads| && t != u
    requires IsHolding(s.threads[t], k) && IsHolding(s.threads[u], k)
    ensures !Calm(s, k)
  {
    hide Structure, Open, Admits, Headed, Removed;
    HolderOpens(s, k, t);
    HolderOpens(s, k, u);
    var e, f := s.threads[t].pc.e, s.threads[u].pc.e;
    assert e != f;
    assert Current(s, k, e) || SideDoor(s, k, e);
    assert Current(s, k, f) || SideDoor(s, k, f);
  }

  lemma {:induction false} CalmRuns(s: State, more: seq<Action>, k: Key)
    requires Inv(s) && Calm(s, k) && Clean(NewEvents(s, more), k)
    ensures Calm(RunFrom(s, more), k)
    decreases |more|
  {
    hide Inv, Calm, Plan, Ready, Step;
    if more != [] {
      var before, a := more[..|more| - 1], more[|more| - 1];
      var mid := RunFrom(s, before);
      EveryRunFrom(s, before);
      TraceGrows(s, before);
      var es := StepAppends(mid, a);
      assert NewEvents(s, more) == NewEvents(s, before) + es;
      assert forall ev :: ev in NewEvents(s, before) ==> ev in NewEvents(s, more);
      assert forall ev :: ev in es ==> ev in NewEvents(s, more);
      CalmRuns(s, before, k);
      StepKeepsCalm(mid, a, k);
    }
  }

  lemma StepKeepsCalm(s: State, a: Action, k: Key)
    requires Inv(s) && Calm(s, k)
    requires Plan(s, a).Some? && Ready(s, Plan(s, a).value) ==> Clean(Plan(s, a).value.events, k)
    ensures Calm(Step(s, a), k)
  {
    hide Structure, CountsOk, Faithful, Referenced, Calm, Clean, Plan, Ready, Apply;
    StepKeepsInv(s, a);
    if Plan(s, a).Some? && Ready(s, Plan(s, a).value) {
      ApplyKeepsCalm(s, a, k);
    } else {
      IdleKeepsCalm(s, a, k);
    }
  }

  /** Until the next success or expiry on `k`, at most one attempt on it is ever inside. */
  ghost predicate StaysExclusive(s: State, k: Key) {
    forall more :: Clean(NewEvents(s, more), k) ==> Exclusive(RunFrom(s, more), k)
  }

  /** Calm is enough, in every reachable state. */
  lemma CalmStaysExclusive(s: State, k: Key)
    requires Inv(s) && Calm(s, k)
    ensures StaysExclusive(s, k)
  {
    hide Structure, CountsOk, Faithful, Referenced, Calm, Exclusive, RunFrom, NewEvents;
    forall more | Clean(NewEvents(s, more), k) ensures Exclusive(RunFrom(s, more), k) {
      CalmRuns(s, more, k);
      EveryRunFrom(s, more);
      CalmIsExclusive(RunFrom(s, more), k);
    }
  }
}
