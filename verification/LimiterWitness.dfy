/** Building runs of the limiter: which states can follow which, and the usual stretches of an
    undisturbed attempt. */
module LimiterWitness {
  import opened Common
  import opened Addresses
  import opened Backoff
  import opened LimiterProtocol
  import opened LimiterHistory
  import opened LimiterSerial

  /** Which events a stretch of a run may contain. */
  datatype Mode = Anything | NoSuccess | QuietOn(key: Key)

  predicate Allowed(m: Mode, ev: Event) {
    match m
    case Anything => true
    case NoSuccess => !ev.Succeeded?
    case QuietOn(k) => !((ev.Succeeded? || ev.Expired?) && ev.key == k)
  }

  ghost predicate AllAllowed(m: Mode, events: seq<Event>) { forall ev :: ev in events ==> Allowed(m, ev) }

  ghost predicate Path(s: State, s': State, more: seq<Action>, m: Mode) {
    RunFrom(s, more) == s' && AllAllowed(m, NewEvents(s, more))
  }

  /** Some continuation of `s` leads to `s'` through allowed events only. */
  ghost predicate Reaches(s: State, s': State, m: Mode) { exists more :: Path(s, s', more, m) }

  lemma Stay(s: State, m: Mode)
    ensures Reaches(s, s, m)
  {
    assert Path(s, s, [], m);
  }

  lemma Go(from: State, s: State, a: Action, m: Mode) returns (s': State)
    requires Reaches(from, s, m) && (Plan(s, a).Some? ==> AllAllowed(m, Plan(s, a).value.events))
    ensures s' == Step(s, a) && Reaches(from, s', m)
  {
    hide Step, Plan, Ready, Allowed;
    s' := Step(s, a);
    var more :| Path(from, s, more, m);
    var longer := more + [a];
    assert longer[..|more|] == more;
    TraceGrows(from, more);
    var es := StepAppends(s, a);
    assert NewEvents(from, longer) == NewEvents(from, more) + es;
    assert Path(from, s', longer, m);
  }

  lemma {:induction false} RunsCompose(s: State, a: seq<Action>, b: seq<Action>)
    ensures RunFrom(s, a + b) == RunFrom(RunFrom(s, a), b)
    decreases |b|
  {
    if b == [] {
      assert a + b == a;
    } else {
      assert (a + b)[..|a + b| - 1] == a + b[..|b| - 1];
      RunsCompose(s, a, b[..|b| - 1]);
    }
  }

  lemma Onwards(s: State, mid: State, s': State, m: Mode)
    requires Reaches(s, mid, m) && Reaches(mid, s', m)
    ensures Reaches(s, s', m)
  {
    hide Allowed, RunFrom;
    var a :| Path(s, mid, a, m);
    var b :| Path(mid, s', b, m);
    RunsCompose(s, a, b);
    TraceGrows(s, a);
    TraceGrows(mid, b);
    assert NewEvents(s, a + b) == NewEvents(s, a) + NewEvents(mid, b);
    assert Path(s, s', a + b, m);
  }

  lemma ReachedIsInv(s: State, s': State, m: Mode)
    requires Inv(s) && Reaches(s, s', m)
    ensures Inv(s')
  {
    hide Inv;
    var more :| Path(s, s', more, m);
    EveryRunFrom(s, more);
  }

  /** Reachable states are those of runs. */
  lemma AsRun(s: State, m: Mode) returns (acts: seq<Action>)
    requires Reaches(INIT, s, m)
    ensures Run(acts) == s && AllAllowed(m, s.trace)
  {
    acts :| Path(INIT, s, acts, m);
    TraceGrows(INIT, acts);
  }

  /** `s'` is `s` with other threads, entries and table, at the same time and with the same locks. */
  predicate Becomes(s: State, s': State, threads: seq<Thread>, entries: seq<Entry>, table: map<Key, nat>) {
    s' == State(threads, entries, table, s.writer, s.readers, s.now, s'.trace)
  }

  // ----- finding an entry -----

  /** An attempt on an unknown key, with nobody holding the map lock, makes its entry. */
  lemma CreateAlone(s: State, k: Key, m: Mode) returns (s': State)
    requires MapFree(s) && k !in s.table
    ensures Reaches(s, s', m)
    ensures Becomes(s, s', s.threads + [Attempt(k, WantEntry(false, |s.entries|))],
                    s.entries + [Entry(k, 0, 0, None)], s.table[k := |s.entries|])
  {
    hide ComputeDelay, Reaches, Structure;
    var t := |s.threads|;
    Stay(s, m);
    s' := Go(s, s, Begin(k), m);
    assert s' == s.(threads := s.threads + [Attempt(k, WantRead(false))]);
    s' := MissThenCreate(s, s', k, t, false, m);
    assert s'.threads == s.threads + [Attempt(k, WantEntry(false, |s.entries|))];
  }

  /** From the start of a lookup that will miss to the queue for the entry it makes. */
  lemma MissThenCreate(from: State, s: State, k: Key, t: nat, again: bool, m: Mode) returns (s': State)
    requires Reaches(from, s, m) && MapFree(s) && k !in s.table
    requires t < |s.threads| && s.threads[t] == Attempt(k, WantRead(again))
    ensures Reaches(from, s', m)
    ensures Becomes(s, s', s.threads[t := Attempt(k, WantEntry(again, |s.entries|))],
                    s.entries + [Entry(k, 0, 0, None)], s.table[k := |s.entries|])
  {
    hide ComputeDelay, Reaches;
    s' := Go(from, s, Move(t), m);
    assert s' == s.(threads := s.threads[t := Attempt(k, Reading(again))], readers := {t});
    s' := Go(from, s', Move(t), m);
    assert s' == s.(threads := s.threads[t := Attempt(k, WantWrite(again))]);
    s' := CreateUnderLock(from, s', k, t, again, m);
    assert s'.threads == s.threads[t := Attempt(k, WantEntry(again, |s.entries|))];
  }

  lemma CreateUnderLock(from: State, s: State, k: Key, t: nat, again: bool, m: Mode) returns (s': State)
    requires Reaches(from, s, m) && MapFree(s) && k !in s.table
    requires t < |s.threads| && s.threads[t] == Attempt(k, WantWrite(again))
    ensures Reaches(from, s', m)
    ensures Becomes(s, s', s.threads[t := Attempt(k, WantEntry(again, |s.entries|))],
                    s.entries + [Entry(k, 0, 0, None)], s.table[k := |s.entries|])
  {
    hide ComputeDelay, Reaches;
    s' := Go(from, s, Move(t), m);
    assert s' == s.(threads := s.threads[t := Attempt(k, Creating(again))], writer := Some(t));
    s' := Go(from, s', Move(t), m);
  }

  /** An attempt on a known key queues for the entry in the table. */
  lemma FindAlone(s: State, k: Key, m: Mode) returns (s': State)
    requires MapFree(s) && k in s.table
    ensures Reaches(s, s', m)
    ensures Becomes(s, s', s.threads + [Attempt(k, WantEntry(false, s.table[k]))], s.entries, s.table)
  {
    hide ComputeDelay, Reaches;
    var t := |s.threads|;
    Stay(s, m);
    s' := Go(s, s, Begin(k), m);
    assert s' == s.(threads := s.threads + [Attempt(k, WantRead(false))]);
    s' := Go(s, s', Move(t), m);
    assert s' == s.(threads := s.threads + [Attempt(k, Reading(false))], readers := {t});
    s' := Go(s, s', Move(t), m);
  }

  // ----- getting in -----

  /** Attempt `t` on `k` can be let in on entry `e` without waiting for anybody. */
  predicate MayEnter(s: State, t: nat, k: Key, e: nat) {
    && t < |s.threads| && s.threads[t].Attempt? && s.threads[t].key == k && e < |s.entries|
    && match s.threads[t].pc
       case WantEntry(again, f) => f == e && s.entries[e].owner.None? && (again || !Stale(s.entries[e], s.now))
       case Checking(f) => f == e && s.entries[e].owner == Some(t) && !Stale(s.entries[e], s.now)
       case Computing(f) => f == e && s.entries[e].owner == Some(t)
       case Holding(f, delay) => f == e && s.entries[e].owner == Some(t)
             && delay == ComputeDelay(s.entries[e].failCount)
       case _ => false
  }

  lemma BringIn(s: State, t: nat, k: Key, e: nat, m: Mode) returns (s': State)
    requires MayEnter(s, t, k, e)
    ensures Reaches(s, s', m)
    ensures Becomes(s, s', s.threads[t := Attempt(k, Holding(e, ComputeDelay(s.entries[e].failCount)))],
                    s.entries[e := s.entries[e].(owner := Some(t))], s.table)
  {
    hide ComputeDelay, Reaches;
    Stay(s, m);
    s' := s;
    if s'.threads[t].pc.WantEntry? {
      s' := Go(s, s', Move(t), m);
      assert Becomes(s, s', s.threads[t := s'.threads[t]], s.entries[e := s.entries[e].(owner := Some(t))], s.table);
    }
    if s'.threads[t].pc.Checking? {
      s' := PassCheck(s, s', t, k, e, m);
      assert Becomes(s, s', s.threads[t := s'.threads[t]], s.entries[e := s.entries[e].(owner := Some(t))], s.table);
    }
    if s'.threads[t].pc.Computing? { s' := Compute(s, s', t, k, e, m); }
  }

  lemma PassCheck(from: State, s: State, t: nat, k: Key, e: nat, m: Mode) returns (s': State)
    requires Reaches(from, s, m) && t < |s.threads| && s.threads[t] == Attempt(k, Checking(e))
    requires e < |s.entries| && !Stale(s.entries[e], s.now)
    ensures Reaches(from, s', m) && Becomes(s, s', s.threads[t := Attempt(k, Computing(e))], s.entries, s.table)
  {
    hide ComputeDelay, Reaches;
    s' := Go(from, s, Move(t), m);
  }

  lemma Compute(from: State, s: State, t: nat, k: Key, e: nat, m: Mode) returns (s': State)
    requires Reaches(from, s, m) && t < |s.threads| && s.threads[t] == Attempt(k, Computing(e)) && e < |s.entries|
    ensures Reaches(from, s', m)
    ensures Becomes(s, s', s.threads[t := Attempt(k, Holding(e, ComputeDelay(s.entries[e].failCount)))], s.entries,
          s.table)
  {
    hide ComputeDelay, Reaches;
    s' := Go(from, s, Move(t), m);
  }

  /** A newcomer gets in if the key is unknown, or its entry is free and fresh enough. */
  lemma NewcomerIn(s: State, k: Key, m: Mode) returns (s': State)
    requires MapFree(s)
    requires k in s.table ==>
               var f := s.table[k]; f < |s.entries| && s.entries[f].owner.None? && !Stale(s.entries[f], s.now)
    ensures Reaches(s, s', m)
    ensures var t := |s.threads|; var f := if k in s.table then s.table[k] else |s.entries|;
            var entries := if k in s.table then s.entries else s.entries + [Entry(k, 0, 0, None)];
            Becomes(s, s', s.threads + [Attempt(k, Holding(f, ComputeDelay(entries[f].failCount)))],
                    entries[f := entries[f].(owner := Some(t))], s.table[k := f])
  {
    hide ComputeDelay, Reaches;
    var t := |s.threads|;
    var mid;
    if k in s.table { mid := FindAlone(s, k, m); } else { mid := CreateAlone(s, k, m); }
    s' := BringIn(mid, t, k, mid.table[k], m);
    Onwards(s, mid, s', m);
    assert s'.threads[..t] == s.threads;
    assert s.table[k := mid.table[k]] == mid.table;
  }

  // ----- getting out -----

  function Without(s: State, k: Key, e: nat): map<Key, nat> { if Current(s, k, e) then s.table - {k} else s.table }

  /** A successful attempt takes the map lock and unmaps its entry ... */
  lemma DeleteAlone(s: State, t: nat, k: Key, e: nat, m: Mode) returns (s': State)
    requires MapFree(s) && t < |s.threads| && s.threads[t] == Attempt(k, WantDelete(e))
    ensures Reaches(s, s', m)
    ensures Becomes(s, s', s.threads[t := Attempt(k, Unlocking(e))], s.entries, Without(s, k, e))
  {
    hide ComputeDelay, Reaches;
    Stay(s, m);
    s' := Go(s, s, Move(t), m);
    assert s' == s.(threads := s.threads[t := Attempt(k, Deleting(e))], writer := Some(t));
    s' := Go(s, s', Move(t), m);
  }

  /** ... and drops the entry's mutex. */
  lemma UnlockAlone(s: State, t: nat, k: Key, e: nat, m: Mode) returns (s': State)
    requires t < |s.threads| && s.threads[t] == Attempt(k, Unlocking(e)) && e < |s.entries|
    ensures Reaches(s, s', m)
    ensures Becomes(s, s', s.threads[t := Attempt(k, Done)], s.entries[e := s.entries[e].(owner := None)], s.table)
  {
    hide ComputeDelay, Reaches;
    Stay(s, m);
    s' := Go(s, s, Move(t), m);
  }

  /** An attempt that found its entry stale unmaps it and starts over. */
  lemma SwapAlone(s: State, t: nat, k: Key, e: nat, m: Mode) returns (s': State)
    requires MapFree(s) && t < |s.threads| && s.threads[t] == Attempt(k, WantSwap(e))
    ensures Reaches(s, s', m)
    ensures Becomes(s, s', s.threads[t := Attempt(k, WantRead(true))], s.entries, Without(s, k, e))
  {
    hide ComputeDelay, Reaches;
    Stay(s, m);
    s' := Go(s, s, Move(t), m);
    assert s' == s.(threads := s.threads[t := Attempt(k, Swapping(e))], writer := Some(t));
    s' := Go(s, s', Move(t), m);
  }

  /** A failed release followed by more than ten idle minutes leaves a stale entry. */
  lemma FailAndIdle(s: State, t: nat, k: Key, e: nat, m: Mode) returns (s': State)
    requires t < |s.threads| && s.threads[t].Attempt? && s.threads[t].key == k && s.threads[t].pc.Holding?
    requires s.threads[t].pc.e == e && e < |s.entries|
    ensures Reaches(s, s', m)
    ensures var entry := s.entries[e];
            && s' == State(s.threads[t := Attempt(k, Done)],
                           s.entries[e := entry.(failCount := entry.failCount + 1, lastFail := s.now, owner := None)],
                           s.table, s.writer, s.readers, s.now + IDLE_EXPIRY + 1, s'.trace)
            && Stale(s'.entries[e], s'.now)
  {
    hide ComputeDelay, Reaches;
    Stay(s, m);
    s' := Go(s, s, Release(t, false), m);
    s' := Go(s, s', Tick(IDLE_EXPIRY + 1), m);
  }

  /** An attempt on an address whose free entry has gone stale swaps it for a fresh one, and
      queues for that. */
  lemma FindStaleAndSwap(s: State, k: Key, m: Mode) returns (s': State)
    requires MapFree(s) && k in s.table && !m.QuietOn? && s.table[k] < |s.entries|
    requires s.entries[s.table[k]].owner.None? && Stale(s.entries[s.table[k]], s.now)
    ensures Reaches(s, s', m)
    ensures Becomes(s, s', s.threads + [Attempt(k, WantEntry(true, |s.entries|))],
                    s.entries + [Entry(k, 0, 0, None)], s.table[k := |s.entries|])
  {
    hide ComputeDelay, Reaches;
    var t, e := |s.threads|, s.table[k];
    var found := FindAlone(s, k, m);
    var stale := GoStale(found, t, k, e, m);
    Onwards(s, found, stale, m);
    var gone := SwapAlone(stale, t, k, e, m);
    Onwards(s, stale, gone, m);
    s' := MissThenCreate(s, gone, k, t, true, m);
    assert (s.table - {k})[k := |s.entries|] == s.table[k := |s.entries|];
    assert s'.threads[..t] == s.threads;
  }

  lemma GoStale(s: State, t: nat, k: Key, e: nat, m: Mode) returns (s': State)
    requires t < |s.threads| && s.threads[t] == Attempt(k, WantEntry(false, e)) && !m.QuietOn?
    requires e < |s.entries| && s.entries[e].owner.None? && Stale(s.entries[e], s.now)
    ensures Reaches(s, s', m) && Becomes(s, s', s.threads[t := Attempt(k, WantSwap(e))], s.entries, s.table)
  {
    hide ComputeDelay, Reaches;
    Stay(s, m);
    s' := Go(s, s, Move(t), m);
    assert s'.threads == s.threads[t := Attempt(k, Checking(e))];
    s' := Go(s, s', Move(t), m);
    assert s'.entries == s.entries;
  }
}
