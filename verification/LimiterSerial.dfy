/** Per-address serialisation: from any state in which no attempt on the address is astray, it
    lasts until the next success or expiry there. */
module LimiterSerial {
  import opened Common
  import opened Addresses
  import opened Backoff
  import opened LimiterProtocol
  import opened LimiterHistory

  /** No attempt on `k` succeeds in these events, and none finds its entry idle for too long. */
  ghost predicate Clean(events: seq<Event>, k: Key) {
    forall ev :: ev in events && (ev.Succeeded? || ev.Expired?) ==> ev.key != k
  }

  predicate IsTurn(ev: Event, k: Key) { (ev.Entered? || ev.Failed?) && ev.key == k }

  /** The entries and failed exits on key `k`, in order. */
  function Turns(trace: seq<Event>, k: Key): seq<Event>
    decreases |trace|
  {
    if trace == [] then []
    else
      var last := trace[|trace| - 1];
      Turns(trace[..|trace| - 1], k) + (if IsTurn(last, k) then [last] else [])
  }

  lemma TurnsAppend(trace: seq<Event>, more: seq<Event>, k: Key)
    requires |more| <= 1
    ensures Turns(trace + more, k) == Turns(trace, k) + (if |more| == 1 && IsTurn(more[0], k) then more else [])
  {
    if |more| == 1 {
      assert (trace + more)[..|trace|] == trace && more == [more[0]];
    } else {
      assert trace + more == trace;
    }
  }

  /** One attempt at a time, starting from `base` failures: the i-th to get in (counting from
      zero) waits `ComputeDelay(base + i)` and records its failure before the next one gets in. */
  ghost predicate Serial(turns: seq<Event>, base: nat) {
    && (forall i :: 0 <= i < |turns| && i % 2 == 0 ==>
          turns[i].Entered? && turns[i].delay == ComputeDelay(base + i / 2))
    && (forall i :: 0 <= i < |turns| && i % 2 == 1 ==>
          turns[i].Failed? && turns[i - 1].Entered? && turns[i].t == turns[i - 1].t && turns[i].e == turns[i - 1].e)
  }

  // ----- attempts astray -----

  /** `e` is the entry the table holds for `k`. */
  predicate Current(s: State, k: Key, e: nat) { k in s.table && s.table[k] == e }

  /** The entry an attempt is in on, or will be let in on unless it has expired. */
  function Heading(pc: Pc): Option<nat> {
    match pc
    case WantEntry(_, e) => Some(e)
    case Checking(e) => Some(e)
    case Computing(e) => Some(e)
    case Holding(e, _) => Some(e)
    case _ => None
  }

  /** The entry an attempt is about to take out of the table, if it is still there. */
  function Leaving(pc: Pc): Option<nat> {
    match pc
    case WantSwap(e) => Some(e)
    case Swapping(e) => Some(e)
    case WantDelete(e) => Some(e)
    case Deleting(e) => Some(e)
    case _ => None
  }

  ghost predicate ThreadSettled(s: State, k: Key, th: Thread) {
    th.Attempt? && th.key == k ==>
      && (Heading(th.pc).Some? ==> Current(s, k, Heading(th.pc).value))
      && (Leaving(th.pc).Some? ==> !Current(s, k, Leaving(th.pc).value))
  }

  /** Whoever is in on `k` or on the way in is on the entry in the table, and nobody is about to
      remove that entry. */
  ghost predicate Settled(s: State, k: Key) {
    forall t :: 0 <= t < |s.threads| ==> ThreadSettled(s, k, s.threads[t])
  }

  predicate IsHolding(th: Thread, k: Key) { th.Attempt? && th.key == k && th.pc.Holding? }

  /** At most one attempt on `k` is between Acquire and release. */
  ghost predicate Exclusive(s: State, k: Key) {
    forall t, u :: 0 <= t < u < |s.threads| && IsHolding(s.threads[t], k) ==> !IsHolding(s.threads[u], k)
  }

  /** Without a success or expiry on `k`, an entry is current after a step exactly if it was. */
  lemma CurrentKept(s: State, a: Action, k: Key, e: nat)
    requires Structure(s) && Settled(s, k) && Plan(s, a).Some? && Ready(s, Plan(s, a).value) && e < |s.entries|
    ensures Current(Apply(s, a.t, Plan(s, a).value), k, e) <==> Current(s, k, e)
  {
    hide LocksOk, OwnersOk, ThreadsOk, ComputeDelay;
    PlanCoherent(s, a);
    assert ThreadSettled(s, k, s.threads[a.t]);
    RemoverLeaves(s, a);
  }

  lemma RemoverLeaves(s: State, a: Action)
    requires Plan(s, a).Some?
    ensures var th, eff := s.threads[a.t], Plan(s, a).value;
            eff.tableOp.RemoveIf? ==> th.Attempt? && th.key == eff.tableOp.key && Leaving(th.pc) == Some(eff.tableOp.e)
  {
    hide ComputeDelay;
  }

  /** Where a step takes an attempt: on to the entry the table holds, on with its own entry, or
      towards removing it, which is recorded. */
  lemma MoverHeads(s: State, a: Action)
    requires Plan(s, a).Some? && s.threads[a.t].Attempt?
    ensures var th, eff := s.threads[a.t], Plan(s, a).value;
            && eff.next.Attempt? && eff.next.key == th.key
            && (Heading(eff.next.pc).Some? ==>
                  || Heading(eff.next.pc) == Heading(th.pc)
                  || Current(Apply(s, a.t, eff), th.key, Heading(eff.next.pc).value))
            && (Leaving(eff.next.pc).Some? ==>
                  || Leaving(eff.next.pc) == Leaving(th.pc)
                  || (|eff.events| == 1 && (eff.events[0].Succeeded? || eff.events[0].Expired?)
                        && eff.events[0].key == th.key))
  {
    hide ComputeDelay;
  }

  lemma ApplySettled(s: State, a: Action, k: Key)
    requires Structure(s) && Settled(s, k) && Plan(s, a).Some? && Ready(s, Plan(s, a).value)
    requires Clean(Plan(s, a).value.events, k)
    ensures Settled(Apply(s, a.t, Plan(s, a).value), k)
  {
    hide LocksOk, OwnersOk, ComputeDelay, Plan, Ready, Current;
    var eff := Plan(s, a).value;
    var s' := Apply(s, a.t, eff);
    PlanCoherent(s, a);
    forall t | 0 <= t < |s'.threads| ensures ThreadSettled(s', k, s'.threads[t]) {
      assert ThreadSettled(s, k, s.threads[t]) && ThreadOk(s, s.threads[t]);
      HeadingRefers(s.threads[t]);
      if s.threads[t].Attempt? && RefEntry(s.threads[t]).Some? { CurrentKept(s, a, k, RefEntry(s.threads[t]).value); }
      if t == a.t && s.threads[t].Attempt? { MoverHeads(s, a); }
    }
  }

  lemma HeadingRefers(th: Thread)
    ensures th.Attempt? && Heading(th.pc).Some? ==> RefEntry(th) == Heading(th.pc)
    ensures th.Attempt? && Leaving(th.pc).Some? ==> RefEntry(th) == Leaving(th.pc)
  {
  }

  /** Whoever holds the current entry of `k` is the only attempt on `k` that is in. */
  lemma SameHolder(s: State, k: Key, t: nat, u: nat, e: nat)
    requires Structure(s) && Settled(s, k) && t < |s.threads| && u < |s.threads|
    requires s.threads[t].Attempt? && s.threads[t].key == k && Heading(s.threads[t].pc) == Some(e)
    requires HeldEntry(s.threads[t]) == Some(e) && IsHolding(s.threads[u], k)
    ensures t == u && Current(s, k, e)
  {
    hide LocksOk, ThreadsOk, TableOk, ComputeDelay;
    assert ThreadSettled(s, k, s.threads[t]) && ThreadSettled(s, k, s.threads[u]);
    assert HeldEntry(s.threads[u]) == Some(s.threads[u].pc.e);
  }

  lemma SettledIsExclusive(s: State, k: Key)
    requires Structure(s) && Settled(s, k)
    ensures Exclusive(s, k)
  {
    hide Structure, Settled;
    forall t, u | 0 <= t < u < |s.threads| && IsHolding(s.threads[t], k) ensures !IsHolding(s.threads[u], k) {
      if IsHolding(s.threads[u], k) {
        SameHolder(s, k, t, u, s.threads[t].pc.e);
        assert false;
      }
    }
  }

  // ----- turns since a given state -----

  /** Where we start counting: the length of the trace, the attempt already in (as the event that
      let it in), and the failures recorded so far. */
  datatype Origin = Origin(start: nat, inside: seq<Event>, base: nat)

  function Since(trace: seq<Event>, start: nat): seq<Event> {
    if start <= |trace| then trace[start..] else []
  }

  function TurnsSince(o: Origin, events: seq<Event>, k: Key): seq<Event> { o.inside + Turns(events, k) }

  /** Every Snapshot reading of `k` is the number of failures completed on `k` by then. */
  ghost predicate ReadsExact(o: Origin, events: seq<Event>, k: Key) {
    forall i :: 0 <= i < |events| && events[i].Observed? && events[i].key == k ==>
      events[i].count == o.base + |TurnsSince(o, events[..i], k)| / 2
  }

  /** The attempt inside, if any, is the one whose entry has no matching failure yet. */
  ghost predicate Inside(s: State, k: Key, turns: seq<Event>) {
    && (|turns| % 2 == 0 ==> forall t :: 0 <= t < |s.threads| ==> !IsHolding(s.threads[t], k))
    && (|turns| % 2 == 1 ==>
          var last := turns[|turns| - 1];
          !last.Observed? && last.t < |s.threads| && IsHolding(s.threads[last.t], k)
                && s.threads[last.t].pc.e == last.e)
  }

  function CountOf(s: State, k: Key): nat { if k in s.table then FailCount(s, s.table[k]) else 0 }

  ghost predicate CountsTurns(s: State, k: Key, base: nat, turns: seq<Event>) {
    CountOf(s, k) == base + |turns| / 2 && (k !in s.table ==> turns == [] && base == 0)
  }

  ghost predicate SerialOk(s: State, k: Key, o: Origin) {
    var turns := TurnsSince(o, Since(s.trace, o.start), k);
    && o.start <= |s.trace|
    && Settled(s, k)
    && Serial(turns, o.base)
    && Inside(s, k, turns)
    && CountsTurns(s, k, o.base, turns)
    && ReadsExact(o, Since(s.trace, o.start), k)
  }

  lemma SinceAppend(trace: seq<Event>, more: seq<Event>, o: Origin, k: Key)
    requires o.start <= |trace| && |more| <= 1
    ensures Since(trace + more, o.start) == Since(trace, o.start) + more
    ensures var turns := TurnsSince(o, Since(trace, o.start), k);
            var turns' := TurnsSince(o, Since(trace + more, o.start), k);
            turns' == turns + (if |more| == 1 && IsTurn(more[0], k) then more else [])
  {
    hide Turns;
    assert Since(trace + more, o.start) == Since(trace, o.start) + more;
    TurnsAppend(Since(trace, o.start), more, k);
  }

  lemma ReadsExactAppend(o: Origin, events: seq<Event>, more: seq<Event>, k: Key)
    requires |more| <= 1 && ReadsExact(o, events, k)
    requires |more| == 1 && more[0].Observed? && more[0].key == k ==>
               more[0].count == o.base + |TurnsSince(o, events, k)| / 2
    ensures ReadsExact(o, events + more, k)
  {
    hide Turns;
    var es := events + more;
    forall i | 0 <= i < |es| && es[i].Observed? && es[i].key == k
      ensures es[i].count == o.base + |TurnsSince(o, es[..i], k)| / 2
    {
      if i < |events| { assert es[..i] == events[..i]; } else { assert es[..i] == events; }
    }
  }

  // ----- one step -----

  /** How a step shows in the turns: it enters, it fails, or it leaves them alone. */
  predicate TurnShape(t: nat, th: Thread, eff: Effect) {
    if |eff.events| == 1 && eff.events[0].Entered? then
      var ev := eff.events[0];
      && ev.t == t && th == Attempt(ev.key, Computing(ev.e)) && eff.next == Attempt(ev.key, Holding(ev.e, ev.delay))
      && !eff.entryOp.FailAndUnlock?
    else if |eff.events| == 1 && eff.events[0].Failed? then
      var ev := eff.events[0];
      && ev.t == t && th.Attempt? && th.key == ev.key && th.pc.Holding? && th.pc.e == ev.e
            && eff.next == Attempt(ev.key, Done)
      && eff.entryOp == FailAndUnlock(ev.e)
    else
      && |eff.events| <= 1 && !eff.entryOp.FailAndUnlock?
      && (eff.next.Attempt? ==> !eff.next.pc.Holding?)
      && (th.Attempt? && th.pc.Holding? ==>
            |eff.events| == 1 && eff.events[0].Succeeded? && eff.events[0].key == th.key)
  }

  lemma PlanTurnShape(s: State, a: Action)
    requires Plan(s, a).Some?
    ensures TurnShape(a.t, s.threads[a.t], Plan(s, a).value)
  {
    hide ComputeDelay;
  }

  lemma SerialEnter(turns: seq<Event>, base: nat, ev: Event)
    requires Serial(turns, base) && |turns| % 2 == 0 && ev.Entered? && ev.delay == ComputeDelay(base + |turns| / 2)
    ensures Serial(turns + [ev], base) && |turns + [ev]| / 2 == |turns| / 2
  {
    hide ComputeDelay;
  }

  lemma SerialFail(turns: seq<Event>, base: nat, ev: Event)
    requires Serial(turns, base) && |turns| % 2 == 1
    requires ev.Failed? && turns[|turns| - 1].Entered? && ev.t == turns[|turns| - 1].t && ev.e == turns[|turns| - 1].e
    ensures Serial(turns + [ev], base) && |turns + [ev]| / 2 == |turns| / 2 + 1
  {
    hide ComputeDelay;
  }

  lemma LastEntered(turns: seq<Event>, base: nat)
    requires Serial(turns, base) && |turns| % 2 == 1
    ensures turns[|turns| - 1].Entered?
  {
    assert (|turns| - 1) % 2 == 0;
  }

  lemma LastIsInside(s: State, k: Key, turns: seq<Event>)
    requires Inside(s, k, turns) && |turns| % 2 == 1
    ensures var last := turns[|turns| - 1];
            !last.Observed? && last.t < |s.threads| && IsHolding(s.threads[last.t], k)
                  && s.threads[last.t].pc.e == last.e
  {
  }

  /** Getting in: nobody else is inside, so the turn count is even and fixes the delay. */
  lemma EnterIsSerial(s: State, t: nat, eff: Effect, k: Key, base: nat, turns: seq<Event>)
    requires Structure(s) && Settled(s, k) && Serial(turns, base) && Inside(s, k, turns)
          && CountsTurns(s, k, base, turns)
    requires t < |s.threads| && TurnShape(t, s.threads[t], eff)
    requires |eff.events| == 1 && eff.events[0].Entered? && eff.events[0].key == k
    requires eff.events[0].delay == ComputeDelay(FailCount(s, eff.events[0].e))
    ensures Serial(turns + eff.events, base) && Inside(Apply(s, t, eff), k, turns + eff.events)
    ensures |turns + eff.events| / 2 == |turns| / 2 && k in s.table
  {
    hide Structure, Settled, Serial, ComputeDelay;
    var ev := eff.events[0];
    EntrantFindsRoom(s, t, k, ev.e, turns);
    assert eff.events == [ev];
    SerialEnter(turns, base, ev);
    assert (turns + [ev])[|turns|] == ev;
  }

  lemma EntrantFindsRoom(s: State, t: nat, k: Key, e: nat, turns: seq<Event>)
    requires Structure(s) && Settled(s, k) && Inside(s, k, turns)
    requires t < |s.threads| && s.threads[t] == Attempt(k, Computing(e))
    ensures |turns| % 2 == 0 && Current(s, k, e)
  {
    hide Structure, Inside, Current;
    if |turns| % 2 == 1 {
      LastIsInside(s, k, turns);
      SameHolder(s, k, t, turns[|turns| - 1].t, e);
      assert false;
    }
    assert ThreadSettled(s, k, s.threads[t]);
  }

  /** Recording a failure: the attempt doing it is the one that is inside. */
  lemma FailureIsSerial(s: State, t: nat, eff: Effect, k: Key, base: nat, turns: seq<Event>)
    requires Structure(s) && Settled(s, k) && Serial(turns, base) && Inside(s, k, turns)
    requires t < |s.threads| && TurnShape(t, s.threads[t], eff)
    requires |eff.events| == 1 && eff.events[0].Failed? && eff.events[0].key == k
    ensures Serial(turns + eff.events, base) && Inside(Apply(s, t, eff), k, turns + eff.events)
    ensures |turns + eff.events| / 2 == |turns| / 2 + 1 && Current(s, k, eff.events[0].e)
  {
    hide Structure, Settled, Serial, ComputeDelay, Exclusive;
    var ev := eff.events[0];
    assert IsHolding(s.threads[t], k);
    assert |turns| % 2 == 1;
    LastIsInside(s, k, turns);
    LastEntered(turns, base);
    SameHolder(s, k, t, turns[|turns| - 1].t, ev.e);
    assert eff.events == [ev];
    SerialFail(turns, base, ev);
    LeaverWasAlone(s, t, k);
  }

  lemma LeaverWasAlone(s: State, t: nat, k: Key)
    requires Structure(s) && Settled(s, k) && t < |s.threads| && IsHolding(s.threads[t], k)
    ensures forall u :: 0 <= u < |s.threads| && u != t ==> !IsHolding(s.threads[u], k)
  {
    hide Structure, Settled;
    SettledIsExclusive(s, k);
  }

  /** Any other step leaves the attempt inside as it was. */
  lemma OtherIsSerial(s: State, t: nat, eff: Effect, k: Key, turns: seq<Event>)
    requires Inside(s, k, turns) && t < |s.threads| && TurnShape(t, s.threads[t], eff)
    requires |eff.events| == 1 ==> !IsTurn(eff.events[0], k)
    requires |eff.events| == 1 && eff.events[0].Succeeded? ==> eff.events[0].key != k
    requires s.threads[t].Attempt? == eff.next.Attempt? && (eff.next.Attempt? ==> eff.next.key == s.threads[t].key)
    ensures Inside(Apply(s, t, eff), k, turns)
  {
    hide ComputeDelay;
    assert !IsHolding(s.threads[t], k) && !IsHolding(eff.next, k);
    if |turns| % 2 == 1 { LastIsInside(s, k, turns); }
  }

  /** The turns of `k` after a step: serial, with the attempt inside still the last to get in, and
      matched by the count of the entry that was current. */
  lemma ApplyTurns(s: State, a: Action, k: Key, base: nat, turns: seq<Event>)
    requires Structure(s) && Settled(s, k) && Serial(turns, base) && Inside(s, k, turns)
          && CountsTurns(s, k, base, turns)
    requires Plan(s, a).Some? && Ready(s, Plan(s, a).value) && Clean(Plan(s, a).value.events, k)
    ensures var eff := Plan(s, a).value; var s' := Apply(s, a.t, eff);
            var turns' := turns + (if |eff.events| == 1 && IsTurn(eff.events[0], k) then eff.events else []);
            && Serial(turns', base) && Inside(s', k, turns')
            && (k in s.table ==> FailCount(s', s.table[k]) == base + |turns'| / 2)
            && (k !in s.table ==> turns' == [])
  {
    hide Structure, Settled, Serial, Inside, ComputeDelay, Plan, Ready, TurnShape, CountsTurns, Apply;
    var t, eff := a.t, Plan(s, a).value;
    PlanCoherent(s, a);
    PlanTurnShape(s, a);
    if |eff.events| == 1 && eff.events[0].Entered? && eff.events[0].key == k {
      EnterIsSerial(s, t, eff, k, base, turns);
    } else if |eff.events| == 1 && eff.events[0].Failed? && eff.events[0].key == k {
      FailureIsSerial(s, t, eff, k, base, turns);
    } else {
      OtherIsSerial(s, t, eff, k, turns);
      assert turns + [] == turns;
    }
    ApplyTurnCount(s, a, k, base, turns);
  }

  lemma ApplyTurnCount(s: State, a: Action, k: Key, base: nat, turns: seq<Event>)
    requires Structure(s) && Settled(s, k) && CountsTurns(s, k, base, turns) && Inside(s, k, turns)
    requires Plan(s, a).Some? && Ready(s, Plan(s, a).value)
    ensures var eff := Plan(s, a).value; var s' := Apply(s, a.t, eff);
            var turns' := turns + (if |eff.events| == 1 && IsTurn(eff.events[0], k) then eff.events else []);
            && (k in s.table ==> FailCount(s', s.table[k]) == base + |turns'| / 2)
            && (k !in s.table ==> turns' == [])
  {
    hide LocksOk, OwnersOk, ComputeDelay, Plan, Ready, NewEntries, Inside;
    var t, eff := a.t, Plan(s, a).value;
    PlanTurnShape(s, a);
    assert ThreadOk(s, s.threads[t]) && ThreadSettled(s, k, s.threads[t]);
    if k in s.table {
      ReadyEntry(s, a);
      FailCountAfter(s, t, eff.entryOp, s.table[k]);
      assert s.table[k] < |s.entries| && s.entries[s.table[k]].key == k;
    }
    TurnsParity(s, t, eff, k, turns);
  }

  lemma ReadyEntry(s: State, a: Action)
    requires Plan(s, a).Some? && Ready(s, Plan(s, a).value)
    ensures Plan(s, a).value.entryOp.FailAndUnlock? ==> Plan(s, a).value.entryOp.e < |s.entries|
  {
    hide Plan;
  }

  lemma TurnsParity(s: State, t: nat, eff: Effect, k: Key, turns: seq<Event>)
    requires Structure(s) && Settled(s, k) && Inside(s, k, turns) && t < |s.threads| && TurnShape(t, s.threads[t], eff)
    ensures |eff.events| == 1 && IsTurn(eff.events[0], k) ==> (|turns| % 2 == 0 <==> eff.events[0].Entered?)
  {
    hide Structure, Settled;
    if |eff.events| == 1 && eff.events[0].Entered? && eff.events[0].key == k {
      EntrantFindsRoom(s, t, k, eff.events[0].e, turns);
    }
  }

  /** The table cell of `k` is stable, and a cell just made starts with no failure. */
  lemma ApplyCell(s: State, a: Action, k: Key)
    requires Structure(s) && Settled(s, k) && Plan(s, a).Some? && Ready(s, Plan(s, a).value)
    ensures var s' := Apply(s, a.t, Plan(s, a).value);
            && (k in s.table ==> Current(s', k, s.table[k]))
            && (k !in s.table && k in s'.table ==> FailCount(s', s'.table[k]) == 0)
  {
    hide LocksOk, OwnersOk, ThreadsOk, ComputeDelay, Plan, Ready;
    PlanCoherent(s, a);
    if k in s.table { CurrentKept(s, a, k, s.table[k]); }
  }

  lemma ApplyReads(s: State, a: Action, k: Key, o: Origin, events: seq<Event>)
    requires Structure(s) && CountsTurns(s, k, o.base, TurnsSince(o, events, k)) && ReadsExact(o, events, k)
    requires Plan(s, a).Some?
    ensures ReadsExact(o, events + Plan(s, a).value.events, k)
  {
    hide LocksOk, OwnersOk, ComputeDelay, Turns, TurnsSince, ReadsExact;
    var eff := Plan(s, a).value;
    PlanCoherent(s, a);
    assert ThreadOk(s, s.threads[a.t]);
    if |eff.events| == 1 && eff.events[0].Observed? { ObservedCell(s, a); }
    ReadsExactAppend(o, events, eff.events, k);
  }

  lemma ObservedCell(s: State, a: Action)
    requires Structure(s) && Plan(s, a).Some?
    requires |Plan(s, a).value.events| == 1 && Plan(s, a).value.events[0].Observed?
    ensures var ev := Plan(s, a).value.events[0]; Current(s, ev.key, ev.e) && ev.count == FailCount(s, ev.e)
  {
    hide LocksOk, OwnersOk, ComputeDelay, AttemptOk;
    assert ThreadOk(s, s.threads[a.t]);
  }

  lemma ApplySerial(s: State, a: Action, k: Key, o: Origin)
    requires Structure(s) && SerialOk(s, k, o) && Plan(s, a).Some? && Ready(s, Plan(s, a).value)
    requires Clean(Plan(s, a).value.events, k)
    ensures SerialOk(Apply(s, a.t, Plan(s, a).value), k, o)
  {
    hide Structure, Settled, Serial, Inside, ReadsExact, Since, TurnsSince, Plan, Ready, ComputeDelay, NewEntries,
          NewTable;
    var eff := Plan(s, a).value;
    var turns := TurnsSince(o, Since(s.trace, o.start), k);
    PlanCoherent(s, a);
    ApplySettled(s, a, k);
    ApplyCell(s, a, k);
    ApplyTurns(s, a, k, o.base, turns);
    SinceAppend(s.trace, eff.events, o, k);
    ApplyReads(s, a, k, o, Since(s.trace, o.start));
  }

  lemma IdleKeepsSerial(s: State, a: Action, k: Key, o: Origin)
    requires SerialOk(s, k, o)
    requires !(Plan(s, a).Some? && Ready(s, Plan(s, a).value))
    ensures SerialOk(Step(s, a), k, o) && Step(s, a).trace == s.trace
  {
    hide Serial, ReadsExact, Since, TurnsSince, ComputeDelay, Plan, Ready;
    var s' := Step(s, a);
    assert s'.table == s.table && s'.entries == s.entries && s'.trace == s.trace;
    forall t | 0 <= t < |s'.threads| ensures ThreadSettled(s', k, s'.threads[t]) {
      if t < |s.threads| { assert ThreadSettled(s, k, s.threads[t]); }
    }
  }

  // ----- whole runs -----

  /** The events of a continuation. */
  function NewEvents(s: State, more: seq<Action>): seq<Event> { Since(RunFrom(s, more).trace, |s.trace|) }

  lemma StepAppends(s: State, a: Action) returns (es: seq<Event>)
    ensures Step(s, a).trace == s.trace + es && |es| <= 1
    ensures es == if Plan(s, a).Some? && Ready(s, Plan(s, a).value) then Plan(s, a).value.events else []
  {
    hide Ready, ComputeDelay;
    if Plan(s, a).Some? && Ready(s, Plan(s, a).value) {
      es := Plan(s, a).value.events;
      PlanTurnShape(s, a);
    } else {
      es := [];
    }
  }

  lemma {:induction false} TraceGrows(s: State, more: seq<Action>)
    ensures RunFrom(s, more).trace == s.trace + NewEvents(s, more)
    decreases |more|
  {
    if more != [] {
      TraceGrows(s, more[..|more| - 1]);
      var es := StepAppends(RunFrom(s, more[..|more| - 1]), more[|more| - 1]);
    }
  }

  lemma {:induction false} SerialRuns(s: State, more: seq<Action>, k: Key, o: Origin)
    requires Inv(s) && o.start == |s.trace| && SerialOk(s, k, o)
    requires Clean(NewEvents(s, more), k)
    ensures SerialOk(RunFrom(s, more), k, o)
    decreases |more|
  {
    hide SerialOk, Plan, Ready, Step;
    if more != [] {
      var before, a := more[..|more| - 1], more[|more| - 1];
      var mid := RunFrom(s, before);
      EveryRunFrom(s, before);
      TraceGrows(s, before);
      var es := StepAppends(mid, a);
      assert NewEvents(s, more) == NewEvents(s, before) + es;
      assert forall ev :: ev in NewEvents(s, before) ==> ev in NewEvents(s, more);
      assert forall ev :: ev in es ==> ev in NewEvents(s, more);
      SerialRuns(s, before, k, o);
      StepKeepsSerial(mid, a, k, o);
    }
  }

  lemma StepKeepsSerial(s: State, a: Action, k: Key, o: Origin)
    requires Inv(s) && SerialOk(s, k, o)
    requires Plan(s, a).Some? && Ready(s, Plan(s, a).value) ==> Clean(Plan(s, a).value.events, k)
    ensures SerialOk(Step(s, a), k, o)
  {
    hide SerialOk, Structure, CountsOk, Faithful, Referenced, Clean;
    if Plan(s, a).Some? && Ready(s, Plan(s, a).value) {
      ApplySerial(s, a, k, o);
    } else {
      IdleKeepsSerial(s, a, k, o);
    }
  }

  /** The attempt on `k` that is inside, as the event that let it in. */
  ghost function InsideAt(s: State, k: Key): seq<Event> {
    if t: nat :| t < |s.threads| && IsHolding(s.threads[t], k)
    then [Entered(t, k, s.threads[t].pc.e, s.threads[t].pc.delay)]
    else []
  }

  ghost function OriginAt(s: State, k: Key): Origin { Origin(|s.trace|, InsideAt(s, k), CountOf(s, k)) }

  lemma InsideAtIs(s: State, k: Key)
    ensures var i := InsideAt(s, k);
            if i == [] then forall t :: 0 <= t < |s.threads| ==> !IsHolding(s.threads[t], k)
            else
              && |i| == 1 && i[0].Entered? && i[0].t < |s.threads| && IsHolding(s.threads[i[0].t], k)
              && i[0] == Entered(i[0].t, k, s.threads[i[0].t].pc.e, s.threads[i[0].t].pc.delay)
  {
  }

  lemma InsideIsSerial(s: State, k: Key)
    requires Structure(s) && Settled(s, k)
    ensures var turns := InsideAt(s, k);
            Serial(turns, CountOf(s, k)) && Inside(s, k, turns) && CountsTurns(s, k, CountOf(s, k), turns)
  {
    hide LocksOk, OwnersOk, TableOk, Exclusive, InsideAt;
    var turns := InsideAt(s, k);
    InsideAtIs(s, k);
    if turns != [] {
      var t := turns[0].t;
      assert ThreadOk(s, s.threads[t]) && ThreadSettled(s, k, s.threads[t]);
      assert turns[0].delay == ComputeDelay(CountOf(s, k) + 0 / 2);
    }
  }

  lemma OriginIsSerial(s: State, k: Key)
    requires Inv(s) && Settled(s, k)
    ensures SerialOk(s, k, OriginAt(s, k))
  {
    hide Structure, CountsOk, Faithful, Referenced, Serial, Inside, CountsTurns, Settled, InsideAt;
    var o := OriginAt(s, k);
    assert Since(s.trace, o.start) == [];
    assert TurnsSince(o, [], k) == o.inside;
    InsideIsSerial(s, k);
  }

  /** What serial service from state `s` on means for the state `s'` reached by `events`. */
  ghost predicate ServedSerially(s: State, events: seq<Event>, s': State, k: Key) {
    var turns := TurnsSince(OriginAt(s, k), events, k);
    && Settled(s', k) && Exclusive(s', k)
    && Serial(turns, CountOf(s, k))
    && ReadsExact(OriginAt(s, k), events, k)
    && CountOf(s', k) == CountOf(s, k) + |turns| / 2
  }

  /** From any reachable state in which nobody is astray on `k`, whatever happened before: until
      the next success or expiry on `k`, attempts on it run strictly one at a time, each given the
      delay of the failures counted before it, and Snapshot reads exactly that count. */
  lemma SettledKeyIsSerialised(s: State, more: seq<Action>, k: Key)
    requires Inv(s) && Settled(s, k) && Clean(NewEvents(s, more), k)
    ensures ServedSerially(s, NewEvents(s, more), RunFrom(s, more), k)
  {
    hide Structure, Settled, Serial, Inside, ReadsExact, ComputeDelay, Exclusive;
    OriginIsSerial(s, k);
    SerialRuns(s, more, k, OriginAt(s, k));
    EveryRunFrom(s, more);
    SettledIsExclusive(RunFrom(s, more), k);
  }

  /** In particular, as long as no attempt on `k` has succeeded or found the entry expired,
      attempts on `k` run strictly one at a time, the i-th one in is given `ComputeDelay(i)`, and
      Snapshot reads exactly the number of failures completed. */
  lemma FailingKeyIsSerialised(acts: seq<Action>, k: Key)
    requires Clean(Run(acts).trace, k)
    ensures var s := Run(acts); var turns := Turns(s.trace, k);
            && Serial(turns, 0) && Exclusive(s, k) && CountOf(s, k) == |turns| / 2
            && (forall i :: 0 <= i < |s.trace| && s.trace[i].Observed? && s.trace[i].key == k ==>
                  s.trace[i].count == |Turns(s.trace[..i], k)| / 2)
  {
    hide Structure, Serial, Exclusive, ComputeDelay, Turns;
    EveryRun([]);
    assert Run([]) == INIT;
    assert OriginAt(INIT, k) == Origin(0, [], 0);
    assert Since(Run(acts).trace, 0) == Run(acts).trace;
    SettledKeyIsSerialised(INIT, acts, k);
    forall tr ensures TurnsSince(Origin(0, [], 0), tr, k) == Turns(tr, k) {
      assert [] + Turns(tr, k) == Turns(tr, k);
    }
  }
}
