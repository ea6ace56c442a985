/** The limiter as the interleaving of any number of Acquire/release attempts and Snapshot
    calls. A step is either "take a lock" (disabled while the lock is taken) or "run the guarded
    section and drop the lock"; every shared field is only touched inside such a section. */
module LimiterProtocol {
  import opened Common
  import opened Addresses
  import opened Backoff

  /** `key` is auxiliary: the key the entry was created for. `owner` is the holder of `mu`. */
  datatype Entry = Entry(key: Key, failCount: nat, lastFail: int, owner: Option<nat>)

  /** Where an attempt is. `again` is set on the second pass, after an expiry swap. */
  datatype Pc =
    | WantRead(again: bool)                // loadOrCreate: before RLock
    | Reading(again: bool)                 // holds the map lock for reading
    | WantWrite(again: bool)               // not found: before Lock
    | Creating(again: bool)                // holds the map lock for writing
    | WantEntry(again: bool, e: nat)       // before e.mu.Lock
    | Checking(e: nat)                     // holds e.mu: staleness test
    | WantSwap(e: nat)                     // stale: e.mu dropped, before Lock
    | Swapping(e: nat)                     // holds the map lock: conditional delete
    | Computing(e: nat)                    // holds e.mu: delay from the fail count
    | Holding(e: nat, delay: int)          // Acquire returned; the caller owns e.mu
    | WantDelete(e: nat)                   // release(true): owns e.mu, before Lock
    | Deleting(e: nat)                     // owns e.mu and the map lock
    | Unlocking(e: nat)                    // map lock dropped, before e.mu.Unlock
    | Done

  datatype SnapPc =
    | SnapStart
    | SnapNext(todo: set<Key>, out: map<Key, nat>)
    | SnapWait(k: Key, e: nat, todo: set<Key>, out: map<Key, nat>)
    | SnapRead(k: Key, e: nat, todo: set<Key>, out: map<Key, nat>)
    | SnapDone(out: map<Key, nat>)

  datatype Thread = Attempt(key: Key, pc: Pc) | Snapshot(at: SnapPc)

  /** What happened, in order. Auxiliary: nothing below reads it. */
  datatype Event =
    | Entered(t: nat, key: Key, e: nat, delay: int)
    | Failed(t: nat, key: Key, e: nat)
    | Succeeded(t: nat, key: Key, e: nat)
    | Expired(t: nat, key: Key, e: nat)
    | Observed(t: nat, key: Key, e: nat, count: nat)

  datatype State = State(
    threads: seq<Thread>,
    entries: seq<Entry>,
    table: map<Key, nat>,
    writer: Option<nat>,
    readers: set<nat>,
    now: int,
    trace: seq<Event>)

  const INIT: State := State([], [], map[], None, {}, 0, [])

  datatype Action =
    | Begin(key: Key)
    | BeginSnapshot
    | Tick(dt: nat)
    | Move(t: nat)
    | Release(t: nat, success: bool)
    | Pick(t: nat, key: Key)

  // ----- transitions -----

  datatype MapOp = MapKeep | ReadLock | ReadUnlock | WriteLock | WriteUnlock
  datatype EntryOp = EntryKeep | Lock(e: nat) | Unlock(e: nat) | FailAndUnlock(e: nat) | New(key: Key)
  datatype TableOp = TableKeep | Insert(key: Key) | RemoveIf(key: Key, e: nat)

  /** One step of one thread: where it goes and what it does to the shared state. */
  datatype Effect = Effect(next: Thread, mapOp: MapOp, entryOp: EntryOp, tableOp: TableOp, events: seq<Event>)

  predicate Stale(entry: Entry, now: int) { TooIdle(entry.failCount, entry.lastFail, now) }

  function FailCount(s: State, e: nat): nat { if e < |s.entries| then s.entries[e].failCount else 0 }

  /** The next step of attempt `t`, before asking whether its lock is free. */
  function AttemptStep(s: State, t: nat, k: Key, pc: Pc): Option<Effect> {
    match pc
    case WantRead(again) => Some(Effect(Attempt(k, Reading(again)), ReadLock, EntryKeep, TableKeep, []))
    case Reading(again) =>
      var next := if k in s.table then WantEntry(again, s.table[k]) else WantWrite(again);
      Some(Effect(Attempt(k, next), ReadUnlock, EntryKeep, TableKeep, []))
    case WantWrite(again) => Some(Effect(Attempt(k, Creating(again)), WriteLock, EntryKeep, TableKeep, []))
    case Creating(again) =>
      if k in s.table then
        Some(Effect(Attempt(k, WantEntry(again, s.table[k])), WriteUnlock, EntryKeep, TableKeep, []))
      else
        Some(Effect(Attempt(k, WantEntry(again, |s.entries|)), WriteUnlock, New(k), Insert(k), []))
    case WantEntry(again, e) =>
      Some(Effect(Attempt(k, if again then Computing(e) else Checking(e)), MapKeep, Lock(e), TableKeep, []))
    case Checking(e) =>
      if e < |s.entries| && Stale(s.entries[e], s.now) then
        Some(Effect(Attempt(k, WantSwap(e)), MapKeep, Unlock(e), TableKeep, [Expired(t, k, e)]))
      else Some(Effect(Attempt(k, Computing(e)), MapKeep, EntryKeep, TableKeep, []))
    case WantSwap(e) => Some(Effect(Attempt(k, Swapping(e)), WriteLock, EntryKeep, TableKeep, []))
    case Swapping(e) => Some(Effect(Attempt(k, WantRead(true)), WriteUnlock, EntryKeep, RemoveIf(k, e), []))
    case Computing(e) =>
      var delay := ComputeDelay(FailCount(s, e));
      Some(Effect(Attempt(k, Holding(e, delay)), MapKeep, EntryKeep, TableKeep, [Entered(t, k, e, delay)]))
    case Holding(_, _) => None
    case WantDelete(e) => Some(Effect(Attempt(k, Deleting(e)), WriteLock, EntryKeep, TableKeep, []))
    case Deleting(e) => Some(Effect(Attempt(k, Unlocking(e)), WriteUnlock, EntryKeep, RemoveIf(k, e), []))
    case Unlocking(e) => Some(Effect(Attempt(k, Done), MapKeep, Unlock(e), TableKeep, []))
    case Done => None
  }

  /** The caller's `release(success)`. */
  function ReleaseStep(t: nat, k: Key, pc: Pc, success: bool): Option<Effect> {
    match pc
    case Holding(e, _) =>
      if success then
        Some(Effect(Attempt(k, WantDelete(e)), MapKeep, EntryKeep, TableKeep, [Succeeded(t, k, e)]))
      else
        Some(Effect(Attempt(k, Done), MapKeep, FailAndUnlock(e), TableKeep, [Failed(t, k, e)]))
    case _ => None
  }

  function SnapshotStep(s: State, t: nat, at: SnapPc): Option<Effect> {
    match at
    case SnapStart =>
      Some(Effect(Snapshot(SnapNext(s.table.Keys, map[])), ReadLock, EntryKeep, TableKeep, []))
    case SnapNext(todo, out) =>
      if todo == {} then Some(Effect(Snapshot(SnapDone(out)), ReadUnlock, EntryKeep, TableKeep, [])) else None
    case SnapWait(k, e, todo, out) =>
      Some(Effect(Snapshot(SnapRead(k, e, todo, out)), MapKeep, Lock(e), TableKeep, []))
    case SnapRead(k, e, todo, out) =>
      var n := FailCount(s, e);
      Some(Effect(Snapshot(SnapNext(todo, out[k := n])), MapKeep, Unlock(e), TableKeep, [Observed(t, k, e, n)]))
    case SnapDone(_) => None
  }

  /** Map iteration order is unspecified: the next key is any key left. */
  function PickStep(s: State, at: SnapPc, k: Key): Option<Effect> {
    match at
    case SnapNext(todo, out) =>
      if k in todo && k in s.table then
        Some(Effect(Snapshot(SnapWait(k, s.table[k], todo - {k}, out)), MapKeep, EntryKeep, TableKeep, []))
      else None
    case _ => None
  }

  /** The step action `a` stands for, if its thread is at a point where it can be taken. */
  function Plan(s: State, a: Action): (step: Option<Effect>)
    ensures step.Some? ==> (a.Move? || a.Release? || a.Pick?) && a.t < |s.threads|
  {
    if !(a.Move? || a.Release? || a.Pick?) || a.t >= |s.threads| then None
    else
      match s.threads[a.t]
      case Attempt(k, pc) =>
        if a.Move? then AttemptStep(s, a.t, k, pc)
        else if a.Release? then ReleaseStep(a.t, k, pc, a.success)
        else None
      case Snapshot(at) =>
        if a.Move? then SnapshotStep(s, a.t, at)
        else if a.Pick? then PickStep(s, at, a.key)
        else None
  }

  predicate MapFree(s: State) { s.writer.None? && s.readers == {} }

  /** Whether the lock the step takes, if any, is free. */
  predicate Ready(s: State, eff: Effect) {
    && (eff.mapOp.ReadLock? ==> s.writer.None?)
    && (eff.mapOp.WriteLock? ==> MapFree(s))
    && match eff.entryOp
       case Lock(e) => e < |s.entries| && s.entries[e].owner.None?
       case Unlock(e) => e < |s.entries|
       case FailAndUnlock(e) => e < |s.entries|
       case _ => true
  }

  function NewEntries(s: State, t: nat, op: EntryOp): seq<Entry> {
    match op
    case EntryKeep => s.entries
    case Lock(e) => if e < |s.entries| then s.entries[e := s.entries[e].(owner := Some(t))] else s.entries
    case Unlock(e) => if e < |s.entries| then s.entries[e := s.entries[e].(owner := None)] else s.entries
    case FailAndUnlock(e) =>
      if e < |s.entries| then
        s.entries[e := s.entries[e].(failCount := s.entries[e].failCount + 1, lastFail := s.now, owner := None)]
      else s.entries
    case New(k) => s.entries + [Entry(k, 0, 0, None)]
  }

  function NewTable(s: State, op: TableOp): map<Key, nat> {
    match op
    case TableKeep => s.table
    case Insert(k) => s.table[k := |s.entries|]
    case RemoveIf(k, e) => if k in s.table && s.table[k] == e then s.table - {k} else s.table
  }

  function Apply(s: State, t: nat, eff: Effect): State
    requires t < |s.threads|
  {
    State(
      s.threads[t := eff.next],
      NewEntries(s, t, eff.entryOp),
      NewTable(s, eff.tableOp),
      match eff.mapOp { case WriteLock => Some(t) case WriteUnlock => None case _ => s.writer },
      match eff.mapOp { case ReadLock => s.readers + {t} case ReadUnlock => s.readers - {t} case _ => s.readers },
      s.now,
      s.trace + eff.events)
  }

  /** A disabled action leaves the state unchanged. */
  function Step(s: State, a: Action): State {
    match a
    case Begin(k) => s.(threads := s.threads + [Attempt(k, WantRead(false))])
    case BeginSnapshot => s.(threads := s.threads + [Snapshot(SnapStart)])
    case Tick(dt) => s.(now := s.now + dt)
    case _ => if Plan(s, a).Some? && Ready(s, Plan(s, a).value) then Apply(s, a.t, Plan(s, a).value) else s
  }

  /** Any interleaving is some list of actions. */
  function RunFrom(s: State, acts: seq<Action>): State
    decreases |acts|
  {
    if acts == [] then s else Step(RunFrom(s, acts[..|acts| - 1]), acts[|acts| - 1])
  }

  function Run(acts: seq<Action>): State { RunFrom(INIT, acts) }

  // ----- what a thread holds -----

  function HeldEntry(th: Thread): Option<nat> {
    match th
    case Attempt(_, Checking(e)) => Some(e)
    case Attempt(_, Computing(e)) => Some(e)
    case Attempt(_, Holding(e, _)) => Some(e)
    case Attempt(_, WantDelete(e)) => Some(e)
    case Attempt(_, Deleting(e)) => Some(e)
    case Attempt(_, Unlocking(e)) => Some(e)
    case Snapshot(SnapRead(_, e, _, _)) => Some(e)
    case _ => None
  }

  predicate HoldsRead(th: Thread) {
    match th
    case Attempt(_, pc) => pc.Reading?
    case Snapshot(at) => at.SnapNext? || at.SnapWait? || at.SnapRead?
  }

  predicate HoldsWrite(th: Thread) {
    th.Attempt? && (th.pc.Creating? || th.pc.Swapping? || th.pc.Deleting?)
  }

  /** The entry an unfinished attempt is working on. */
  function RefEntry(th: Thread): Option<nat> {
    match th
    case Attempt(_, WantEntry(_, e)) => Some(e)
    case Attempt(_, WantSwap(e)) => Some(e)
    case Attempt(_, Swapping(e)) => Some(e)
    case Attempt(_, _) => HeldEntry(th)
    case Snapshot(_) => None
  }

  predicate Finished(th: Thread) {
    match th
    case Attempt(_, pc) => pc.Done?
    case Snapshot(at) => at.SnapDone?
  }

  // ----- the invariant -----

  ghost predicate LocksOk(s: State) {
    && (forall t :: t in s.readers ==> t < |s.threads| && HoldsRead(s.threads[t]))
    && (forall t :: 0 <= t < |s.threads| && HoldsRead(s.threads[t]) ==> t in s.readers)
    && (s.writer.Some? ==> s.readers == {} && s.writer.value < |s.threads| && HoldsWrite(s.threads[s.writer.value]))
    && (forall t :: 0 <= t < |s.threads| && HoldsWrite(s.threads[t]) ==> s.writer == Some(t))
  }

  ghost predicate OwnersOk(s: State) {
    && (forall t :: 0 <= t < |s.threads| && HeldEntry(s.threads[t]).Some? ==>
          var e := HeldEntry(s.threads[t]).value;
          e < |s.entries| && s.entries[e].owner == Some(t))
    && (forall e :: 0 <= e < |s.entries| && s.entries[e].owner.Some? ==>
          var t := s.entries[e].owner.value;
          t < |s.threads| && HeldEntry(s.threads[t]) == Some(e))
  }

  ghost predicate AttemptOk(s: State, th: Thread)
    requires th.Attempt?
  {
    && (RefEntry(th).Some? ==>
          RefEntry(th).value < |s.entries| && s.entries[RefEntry(th).value].key == th.key)
    && (th.pc.WantSwap? || th.pc.Swapping? ==> s.entries[th.pc.e].failCount > 0)
    && (th.pc.Unlocking? ==> !(th.key in s.table && s.table[th.key] == th.pc.e))
    && (th.pc.Holding? ==> th.pc.delay == ComputeDelay(s.entries[th.pc.e].failCount))
  }

  ghost predicate SnapshotOk(s: State, at: SnapPc) {
    match at
    case SnapNext(todo, _) => todo <= s.table.Keys
    case SnapWait(k, e, todo, _) => todo <= s.table.Keys && k in s.table && s.table[k] == e
    case SnapRead(k, e, todo, _) => todo <= s.table.Keys && k in s.table && s.table[k] == e
    case _ => true
  }

  ghost predicate ThreadOk(s: State, th: Thread) {
    match th
    case Attempt(_, _) => AttemptOk(s, th)
    case Snapshot(at) => SnapshotOk(s, at)
  }

  ghost predicate ThreadsOk(s: State) {
    forall t :: 0 <= t < |s.threads| ==> ThreadOk(s, s.threads[t])
  }

  /** An entry is only ever mapped under the key it was created for. */
  ghost predicate TableOk(s: State) {
    forall k :: k in s.table ==> s.table[k] < |s.entries| && s.entries[s.table[k]].key == k
  }

  ghost predicate Structure(s: State) { LocksOk(s) && OwnersOk(s) && ThreadsOk(s) && TableOk(s) }

  /** The step agrees with what the thread holds before and after it. */
  predicate Coherent(s: State, t: nat, th: Thread, eff: Effect) {
    && th.Attempt? == eff.next.Attempt?
    && (th.Attempt? ==> th.key == eff.next.key)
    && MapCoherent(th, eff)
    && EntryCoherent(th, eff)
    && TableCoherent(s, th, eff)
    && EventsCoherent(s, t, th, eff)
  }

  predicate MapCoherent(th: Thread, eff: Effect) {
    match eff.mapOp
    case MapKeep => HoldsRead(th) == HoldsRead(eff.next) && HoldsWrite(th) == HoldsWrite(eff.next)
    case ReadLock => !HoldsRead(th) && HoldsRead(eff.next) && !HoldsWrite(th) && !HoldsWrite(eff.next)
    case ReadUnlock => HoldsRead(th) && !HoldsRead(eff.next) && !HoldsWrite(th) && !HoldsWrite(eff.next)
    case WriteLock => !HoldsRead(th) && !HoldsRead(eff.next) && !HoldsWrite(th) && HoldsWrite(eff.next)
    case WriteUnlock => !HoldsRead(th) && !HoldsRead(eff.next) && HoldsWrite(th) && !HoldsWrite(eff.next)
  }

  predicate EntryCoherent(th: Thread, eff: Effect) {
    match eff.entryOp
    case EntryKeep => HeldEntry(th) == HeldEntry(eff.next)
    case Lock(e) => HeldEntry(th).None? && HeldEntry(eff.next) == Some(e)
    case Unlock(e) => HeldEntry(th) == Some(e) && HeldEntry(eff.next).None?
    case FailAndUnlock(e) => HeldEntry(th) == Some(e) && HeldEntry(eff.next).None? && th.Attempt?
    case New(_) => HeldEntry(th).None? && HeldEntry(eff.next).None?
  }

  /** The table changes only under the write lock, for the thread's own key, and an insertion
      is always of a fresh entry under a key that is not mapped. */
  predicate TableCoherent(s: State, th: Thread, eff: Effect) {
    match eff.tableOp
    case TableKeep => !eff.entryOp.New?
    case Insert(k) => HoldsWrite(th) && k == th.key && eff.entryOp == New(k) && k !in s.table
    case RemoveIf(k, _) => HoldsWrite(th) && k == th.key && !eff.entryOp.New?
  }

  predicate EventsCoherent(s: State, t: nat, th: Thread, eff: Effect) {
    && |eff.events| <= 1
    && (eff.entryOp.FailAndUnlock? <==> |eff.events| == 1 && eff.events[0].Failed?)
    && (|eff.events| == 1 ==>
          match eff.events[0]
          case Failed(u, k, e) => u == t && th.Attempt? && k == th.key && eff.entryOp == FailAndUnlock(e)
          case Entered(u, k, e, d) =>
            u == t && th.Attempt? && k == th.key && HeldEntry(th) == Some(e) && d == ComputeDelay(FailCount(s, e))
          case Succeeded(u, k, e) => u == t && th.Attempt? && k == th.key && HeldEntry(th) == Some(e)
          case Expired(u, k, e) => u == t && th.Attempt? && k == th.key && HeldEntry(th) == Some(e)
          case Observed(u, _, e, n) => u == t && th.Snapshot? && HeldEntry(th) == Some(e) && n == FailCount(s, e))
  }

  lemma PlanCoherent(s: State, a: Action)
    requires Plan(s, a).Some?
    ensures Coherent(s, a.t, s.threads[a.t], Plan(s, a).value)
  {
  }

  lemma ApplyKeepsLocks(s: State, t: nat, eff: Effect)
    requires LocksOk(s) && t < |s.threads| && Ready(s, eff) && MapCoherent(s.threads[t], eff)
    ensures LocksOk(Apply(s, t, eff))
  {
  }

  lemma ApplyKeepsOwners(s: State, t: nat, eff: Effect)
    requires OwnersOk(s) && t < |s.threads| && Ready(s, eff) && EntryCoherent(s.threads[t], eff)
    ensures OwnersOk(Apply(s, t, eff))
  {
    var s' := Apply(s, t, eff);
    forall u | 0 <= u < |s'.threads| && HeldEntry(s'.threads[u]).Some?
      ensures var e := HeldEntry(s'.threads[u]).value; e < |s'.entries| && s'.entries[e].owner == Some(u)
    {
      if u != t { assert HeldEntry(s.threads[u]).Some?; }
    }
    forall e | 0 <= e < |s'.entries| && s'.entries[e].owner.Some?
      ensures var u := s'.entries[e].owner.value; u < |s'.threads| && HeldEntry(s'.threads[u]) == Some(e)
    {
      if e < |s.entries| && s.entries[e].owner.Some? && s.entries[e].owner.value == t {
        assert HeldEntry(s.threads[t]) == Some(e);
      }
    }
  }

  lemma ApplyKeepsTable(s: State, t: nat, eff: Effect)
    requires TableOk(s) && t < |s.threads| && TableCoherent(s, s.threads[t], eff)
    ensures TableOk(Apply(s, t, eff))
  {
  }

  /** What `NewEntries` keeps of an entry that already exists. */
  lemma EntryPersists(s: State, t: nat, op: EntryOp, e: nat)
    requires e < |s.entries|
    ensures var es := NewEntries(s, t, op);
            && e < |es| && es[e].key == s.entries[e].key
            && es[e].failCount == s.entries[e].failCount + (if op == FailAndUnlock(e) then 1 else 0)
  {
  }

  /** The thread that moved is still in order: looking the entry up or creating it ... */
  lemma FinderOk(s: State, t: nat, k: Key, pc: Pc)
    requires Structure(s) && t < |s.threads| && s.threads[t] == Attempt(k, pc)
    requires pc.WantRead? || pc.Reading? || pc.WantWrite? || pc.Creating? || pc.Swapping?
    ensures var eff := AttemptStep(s, t, k, pc).value; AttemptOk(Apply(s, t, eff), eff.next)
  {
    assert ThreadOk(s, s.threads[t]);
  }

  /** ... working on the entry it found ... */
  lemma WorkerOk(s: State, t: nat, k: Key, pc: Pc)
    requires Structure(s) && t < |s.threads| && s.threads[t] == Attempt(k, pc)
    requires AttemptStep(s, t, k, pc).Some? && RefEntry(s.threads[t]).Some? && !pc.Swapping?
    ensures var eff := AttemptStep(s, t, k, pc).value; AttemptOk(Apply(s, t, eff), eff.next)
  {
    hide LocksOk, OwnersOk, TableOk, NewEntries, ComputeDelay;
    assert ThreadOk(s, s.threads[t]);
    EntryPersists(s, t, AttemptStep(s, t, k, pc).value.entryOp, RefEntry(s.threads[t]).value);
  }

  /** ... or releasing it. */
  lemma ReleaserOk(s: State, t: nat, k: Key, pc: Pc, success: bool)
    requires Structure(s) && t < |s.threads| && s.threads[t] == Attempt(k, pc)
    requires ReleaseStep(t, k, pc, success).Some?
    ensures var eff := ReleaseStep(t, k, pc, success).value; AttemptOk(Apply(s, t, eff), eff.next)
  {
    assert ThreadOk(s, s.threads[t]);
  }

  lemma SnapshotMoverOk(s: State, t: nat, at: SnapPc, eff: Effect)
    requires Structure(s) && t < |s.threads| && s.threads[t] == Snapshot(at)
    requires SnapshotStep(s, t, at) == Some(eff) || (exists k :: PickStep(s, at, k) == Some(eff))
    ensures SnapshotOk(Apply(s, t, eff), eff.next.at)
  {
    assert ThreadOk(s, s.threads[t]);
  }

  /** Another attempt keeps its entry, its entry's key, and, if it holds the entry, its count. */
  lemma BystanderAttemptOk(s: State, t: nat, eff: Effect, u: nat)
    requires OwnersOk(s) && t < |s.threads| && u < |s.threads| && t != u
    requires EntryCoherent(s.threads[t], eff) && TableCoherent(s, s.threads[t], eff)
    requires s.threads[u].Attempt? && AttemptOk(s, s.threads[u])
    ensures AttemptOk(Apply(s, t, eff), s.threads[u])
  {
    hide ComputeDelay;
    var th := s.threads[u];
    if RefEntry(th).Some? {
      var e := RefEntry(th).value;
      EntryPersists(s, t, eff.entryOp, e);
      if th.pc.Holding? {
        assert s.entries[e].owner == Some(u);
        assert eff.entryOp != FailAndUnlock(e);
      }
    }
  }

  /** A Snapshot holds the map lock, so nobody changes the table under it. */
  lemma BystanderSnapshotOk(s: State, t: nat, eff: Effect, u: nat)
    requires LocksOk(s) && t < |s.threads| && u < |s.threads| && t != u
    requires TableCoherent(s, s.threads[t], eff)
    requires s.threads[u].Snapshot? && SnapshotOk(s, s.threads[u].at)
    ensures SnapshotOk(Apply(s, t, eff), s.threads[u].at)
  {
    if HoldsRead(s.threads[u]) { assert s.writer.None?; }
  }

  lemma BystanderOk(s: State, t: nat, eff: Effect, u: nat)
    requires Structure(s) && t < |s.threads| && u < |s.threads| && t != u
    requires Coherent(s, t, s.threads[t], eff)
    ensures ThreadOk(Apply(s, t, eff), s.threads[u])
  {
    hide AttemptOk, SnapshotOk, Apply;
    assert ThreadOk(s, s.threads[u]);
    if s.threads[u].Attempt? { BystanderAttemptOk(s, t, eff, u); } else { BystanderSnapshotOk(s, t, eff, u); }
  }

  lemma StepKeepsStructure(s: State, a: Action)
    requires Structure(s)
    ensures Structure(Step(s, a))
  {
    hide LocksOk, OwnersOk, ThreadsOk, TableOk, Plan, Ready, Apply;
    if Plan(s, a).Some? && Ready(s, Plan(s, a).value) {
      var t, eff := a.t, Plan(s, a).value;
      PlanCoherent(s, a);
      ApplyKeepsLocks(s, t, eff);
      ApplyKeepsOwners(s, t, eff);
      ApplyKeepsTable(s, t, eff);
      PlanMoverOk(s, a);
      ApplyKeepsThreads(s, t, eff);
    } else {
      IdleKeepsStructure(s, a);
    }
  }

  lemma PlanMoverOk(s: State, a: Action)
    requires Structure(s) && Plan(s, a).Some?
    ensures ThreadOk(Apply(s, a.t, Plan(s, a).value), Plan(s, a).value.next)
  {
    hide LocksOk, OwnersOk, ThreadsOk, TableOk, Apply, ComputeDelay;
    match s.threads[a.t] {
      case Attempt(k, pc) =>
        if a.Release? { ReleaserOk(s, a.t, k, pc, a.success); }
        else if RefEntry(s.threads[a.t]).Some? && !pc.Swapping? { WorkerOk(s, a.t, k, pc); }
        else { FinderOk(s, a.t, k, pc); }
      case Snapshot(at) => SnapshotMoverOk(s, a.t, at, Plan(s, a).value);
    }
  }

  lemma ApplyKeepsThreads(s: State, t: nat, eff: Effect)
    requires Structure(s) && t < |s.threads| && Ready(s, eff) && Coherent(s, t, s.threads[t], eff)
    requires ThreadOk(Apply(s, t, eff), eff.next)
    ensures ThreadsOk(Apply(s, t, eff))
  {
    var s' := Apply(s, t, eff);
    forall u | 0 <= u < |s'.threads| ensures ThreadOk(s', s'.threads[u]) {
      if u != t { BystanderOk(s, t, eff, u); }
    }
  }

  /** A thread that holds nothing and has found nothing. */
  predicate Begins(th: Thread) { (th.Attempt? && th.pc == WantRead(false)) || (th.Snapshot? && th.at == SnapStart) }

  /** Starting a thread or advancing the clock touches nothing the others rely on. */
  lemma IdleKeepsStructure(s: State, a: Action)
    requires Structure(s)
    requires !(Plan(s, a).Some? && Ready(s, Plan(s, a).value))
    ensures Structure(Step(s, a))
  {
    hide Plan, Ready, ComputeDelay;
    var s' := Step(s, a);
    assert s'.entries == s.entries && s'.table == s.table && s'.writer == s.writer && s'.readers == s.readers;
    assert s.threads <= s'.threads && forall u :: |s.threads| <= u < |s'.threads| ==> Begins(s'.threads[u]);
    forall u | 0 <= u < |s'.threads| ensures ThreadOk(s', s'.threads[u]) {
      if u < |s.threads| { assert ThreadOk(s, s.threads[u]); }
    }
  }
}
