/** Exactly when an address is served one attempt at a time: without calm, two can get in. */
module LimiterExact {
  import opened Common
  import opened Addresses
  import opened Backoff
  import opened LimiterProtocol
  import opened LimiterHistory
  import opened LimiterSerial
  import opened LimiterWitness
  import opened LimiterOverlap
  import opened LimiterCalm

  // ----- otherwise, two get in -----

  /** Between `s` and `s'` only entry `e` of `k` has changed hands: `v` is now inside on it, and a
      leaver may have let it go. */
  ghost predicate OnlyHands(s: State, s': State, k: Key, e: nat, v: nat) {
    && s'.table == s.table && s'.writer == s.writer && s'.readers == s.readers && s'.now == s.now
    && |s'.threads| == |s.threads| && |s'.entries| == |s.entries| && e < |s.entries|
    && (forall f :: 0 <= f < |s.entries| && f != e ==> s'.entries[f] == s.entries[f])
    && On(s, k, v) && Heading(s.threads[v].pc) == Some(e)
    && On(s', k, v) && s'.threads[v].pc.Holding? && s'.threads[v].pc.e == e
    && forall u :: 0 <= u < |s.threads| && u != v ==>
         || s'.threads[u] == s.threads[u]
         || (s'.threads[u] == Attempt(k, Done)
             && (s.threads[u] == Attempt(k, WantDelete(e)) || s.threads[u] == Attempt(k, Unlocking(e))))
  }

  /** With the map lock free, whoever owns an entry of `k` is an attempt on `k` that is in or
      getting in, or one that is done with it. */
  lemma OwnerOf(s: State, e: nat, u: nat)
    requires Structure(s) && MapFree(s) && e < |s.entries| && s.entries[e].owner == Some(u)
    ensures u < |s.threads| && s.threads[u].Attempt? && s.threads[u].key == s.entries[e].key
    ensures var pc := s.threads[u].pc;
            || (Heading(pc) == Some(e) && !pc.WantEntry?)
            || pc == WantDelete(e)
            || (pc == Unlocking(e) && !Current(s, s.entries[e].key, e))
  {
    hide TableOk, ComputeDelay;
    assert HeldEntry(s.threads[u]) == Some(e) && ThreadOk(s, s.threads[u]);
    if HoldsRead(s.threads[u]) { assert false; }
    if HoldsWrite(s.threads[u]) { assert false; }
  }

  /** The owner of an entry that is not blocked has only its own steps to take. */
  lemma OwnerMayEnter(s: State, k: Key, e: nat, u: nat)
    requires Structure(s) && On(s, k, u) && e < |s.entries| && s.entries[e].owner == Some(u) && !Blocked(s, e)
    requires Heading(s.threads[u].pc) == Some(e) && !s.threads[u].pc.WantEntry?
    ensures MayEnter(s, u, k, e)
  {
    hide LocksOk, OwnersOk, TableOk, ComputeDelay;
    assert ThreadOk(s, s.threads[u]);
  }

  lemma FreeMeansQueued(s: State, k: Key, e: nat, t: nat)
    requires OwnersOk(s) && On(s, k, t) && Heading(s.threads[t].pc) == Some(e)
    requires e < |s.entries| && s.entries[e].owner.None?
    ensures s.threads[t].pc.WantEntry?
  {
    HeadedHolds(s.threads[t], e);
  }

  lemma HeadedHolds(th: Thread, e: nat)
    requires th.Attempt? && Heading(th.pc) == Some(e)
    ensures th.pc.WantEntry? || HeldEntry(th) == Some(e)
  {
  }

  /** A free open entry that somebody is headed for has somebody who may enter. */
  lemma QueuedMayEnter(s: State, k: Key, e: nat) returns (t: nat)
    requires Structure(s) && Headed(s, k, e) && Open(s, k, e) && e < |s.entries| && s.entries[e].owner.None?
    ensures MayEnter(s, t, k, e) && On(s, k, t) && Heading(s.threads[t].pc) == Some(e)
  {
    hide LocksOk, TableOk, ThreadsOk, ComputeDelay;
    if StaleAt(s, e) {
      t :| On(s, k, t) && Unchecked(s.threads[t].pc, e);
    } else {
      t :| On(s, k, t) && Heading(s.threads[t].pc) == Some(e);
    }
    FreeMeansQueued(s, k, e, t);
  }

  /** Somebody gets in through a side door. */
  lemma EnterBySideDoor(s: State, k: Key, e: nat) returns (s': State, v: nat)
    requires Inv(s) && MapFree(s) && SideDoor(s, k, e)
    ensures Reaches(s, s', QuietOn(k)) && OnlyHands(s, s', k, e, v)
  {
    hide Structure, CountsOk, Faithful, Referenced, ComputeDelay, Reaches, Open, Headed, Blocked;
    var m := QuietOn(k);
    HeadedIsKeyed(s, k, e);
    OpenIsNotBlocked(s, k, e);
    if s.entries[e].owner.None? {
      v := QueuedMayEnter(s, k, e);
      s' := BringIn(s, v, k, e, m);
    } else {
      var o := s.entries[e].owner.value;
      OwnerOf(s, e, o);
      if Heading(s.threads[o].pc) == Some(e) {
        v := o;
        OwnerMayEnter(s, k, e, o);
        s' := BringIn(s, v, k, e, m);
      } else {
        s', v := EnterAfterLeaver(s, k, e, o);
      }
    }
  }

  lemma OpenIsNotBlocked(s: State, k: Key, e: nat)
    requires Open(s, k, e)
    ensures !Blocked(s, e)
  {
  }

  lemma EnterAfterLeaver(s: State, k: Key, e: nat, o: nat) returns (s': State, v: nat)
    requires Inv(s) && MapFree(s) && SideDoor(s, k, e) && o < |s.threads|
    requires s.threads[o] == Attempt(k, WantDelete(e)) || s.threads[o] == Attempt(k, Unlocking(e))
    ensures Reaches(s, s', QuietOn(k)) && OnlyHands(s, s', k, e, v)
  {
    hide Inv, Structure, ComputeDelay, Reaches, Open, Headed, MayEnter;
    var m := QuietOn(k);
    var mid := LetGo(s, o, k, e, m);
    ReachedIsInv(s, mid, m);
    LeaverKeepsOpen(s, mid, k, e, o);
    assert Structure(mid) by { InvHasStructure(mid); }
    v := QueuedMayEnter(mid, k, e);
    s' := BringIn(mid, v, k, e, m);
    Onwards(s, mid, s', m);
  }

  lemma InvHasStructure(s: State)
    requires Inv(s)
    ensures Structure(s)
  {
    hide Structure;
  }

  lemma LeaverKeepsOpen(s: State, s': State, k: Key, e: nat, o: nat)
    requires SideDoor(s, k, e) && o < |s.threads| && e < |s.entries|
    requires s.threads[o] == Attempt(k, WantDelete(e)) || s.threads[o] == Attempt(k, Unlocking(e))
    requires Becomes(s, s', s.threads[o := Attempt(k, Done)], s.entries[e := s.entries[e].(owner := None)], s.table)
    ensures Headed(s', k, e) && Open(s', k, e)
  {
    assert forall t: nat :: On(s, k, t) && t != o ==> On(s', k, t) && s'.threads[t] == s.threads[t];
    var t: nat :| On(s, k, t) && Heading(s.threads[t].pc) == Some(e);
    assert On(s', k, t);
    if Sure(s, k, e) {
      var u: nat :| On(s, k, u) && Unchecked(s.threads[u].pc, e);
      assert On(s', k, u);
    }
  }

  /** A leaver finishes: its entry is out of the table and free. */
  lemma LetGo(s: State, o: nat, k: Key, e: nat, m: Mode) returns (s': State)
    requires MapFree(s) && e < |s.entries| && o < |s.threads| && !Current(s, k, e)
    requires s.threads[o] == Attempt(k, WantDelete(e)) || s.threads[o] == Attempt(k, Unlocking(e))
    ensures Reaches(s, s', m)
    ensures Becomes(s, s', s.threads[o := Attempt(k, Done)], s.entries[e := s.entries[e].(owner := None)], s.table)
  {
    hide ComputeDelay, Reaches;
    if s.threads[o].pc.WantDelete? {
      var mid := DeleteAlone(s, o, k, e, m);
      s' := UnlockAlone(mid, o, k, e, m);
      Onwards(s, mid, s', m);
    } else {
      s' := UnlockAlone(s, o, k, e, m);
    }
  }

  /** What another entry lets happen is not affected. */
  lemma HandsElsewhere(s: State, s': State, k: Key, e: nat, v: nat, f: nat)
    requires OnlyHands(s, s', k, e, v) && f != e
    ensures SideDoor(s, k, f) ==> SideDoor(s', k, f)
    ensures Admits(s, k, f) ==> Admits(s', k, f)
    ensures Removed(s, k, f) ==> Removed(s', k, f)
  {
    hide Heading, Leaving;
    forall t: nat | On(s, k, t)
      ensures On(s', k, t)
      ensures Heading(s.threads[t].pc) == Some(f) ==> Heading(s'.threads[t].pc) == Some(f)
      ensures Unchecked(s.threads[t].pc, f) ==> Unchecked(s'.threads[t].pc, f)
      ensures Leaving(s.threads[t].pc) == Some(f) ==> Leaving(s'.threads[t].pc) == Some(f)
      ensures LooksAgain(s.threads[t].pc) && Leaving(s.threads[t].pc) != Some(f) ==>
                LooksAgain(s'.threads[t].pc) && Leaving(s'.threads[t].pc) != Some(f)
    {
      PcFacts(s.threads[t].pc, e, f);
    }
    assert Blocked(s', f) ==> Blocked(s, f);
  }

  /** An attempt that is headed for one entry, or done with it, has nothing to do with another. */
  lemma PcFacts(pc: Pc, e: nat, f: nat)
    requires e != f
    ensures Heading(pc) == Some(e) ==> !Unchecked(pc, f) && Leaving(pc).None? && !LooksAgain(pc)
    ensures pc == WantDelete(e) || pc == Unlocking(e) ==>
              Heading(pc).None? && !Unchecked(pc, f) && Leaving(pc) != Some(f) && !LooksAgain(pc)
  {
  }

  // ----- through the table -----

  /** An attempt that looks its key up again finds the entry in the table and queues for it. */
  lemma ComesBack(s: State, t: nat, k: Key) returns (s': State)
    requires MapFree(s) && k in s.table && On(s, k, t)
    requires LooksAgain(s.threads[t].pc) && Leaving(s.threads[t].pc) != Some(s.table[k])
    requires !s.threads[t].pc.Reading? && !s.threads[t].pc.Creating? && !s.threads[t].pc.Swapping?
    ensures Reaches(s, s', QuietOn(k))
    ensures Becomes(s, s', s.threads[t := Attempt(k, WantEntry(true, s.table[k]))], s.entries, s.table)
  {
    hide ComputeDelay, Reaches;
    var m := QuietOn(k);
    if s.threads[t].pc.WantWrite? {
      s' := FindUnderLock(s, t, k, m);
    } else if s.threads[t].pc.WantSwap? {
      var mid := SwapAlone(s, t, k, s.threads[t].pc.e, m);
      s' := FindAgain(mid, t, k, m);
      Onwards(s, mid, s', m);
    } else {
      s' := FindAgain(s, t, k, m);
    }
  }

  lemma FindAgain(s: State, t: nat, k: Key, m: Mode) returns (s': State)
    requires MapFree(s) && k in s.table && t < |s.threads| && s.threads[t] == Attempt(k, WantRead(true))
    ensures Reaches(s, s', m)
    ensures Becomes(s, s', s.threads[t := Attempt(k, WantEntry(true, s.table[k]))], s.entries, s.table)
  {
    hide ComputeDelay, Reaches;
    Stay(s, m);
    s' := Go(s, s, Move(t), m);
    assert s' == s.(threads := s.threads[t := Attempt(k, Reading(true))], readers := {t});
    s' := Go(s, s', Move(t), m);
  }

  lemma FindUnderLock(s: State, t: nat, k: Key, m: Mode) returns (s': State)
    requires MapFree(s) && k in s.table && t < |s.threads| && s.threads[t] == Attempt(k, WantWrite(true))
    ensures Reaches(s, s', m)
    ensures Becomes(s, s', s.threads[t := Attempt(k, WantEntry(true, s.table[k]))], s.entries, s.table)
  {
    hide ComputeDelay, Reaches;
    Stay(s, m);
    s' := Go(s, s, Move(t), m);
    assert s' == s.(threads := s.threads[t := Attempt(k, Creating(true))], writer := Some(t));
    s' := Go(s, s', Move(t), m);
  }

  /** With the map lock free nobody is at a point that holds it. */
  lemma NobodyHoldsMap(s: State, t: nat)
    requires Structure(s) && MapFree(s) && t < |s.threads| && s.threads[t].Attempt?
    ensures !s.threads[t].pc.Reading? && !s.threads[t].pc.Creating? && !s.threads[t].pc.Swapping?
          && !s.threads[t].pc.Deleting?
  {
    hide OwnersOk, ThreadsOk, TableOk;
    assert !HoldsRead(s.threads[t]) && !HoldsWrite(s.threads[t]);
  }

  /** An attempt that comes back leaves the entry open to itself. */
  lemma BackIsSure(s: State, s': State, k: Key, t: nat)
    requires k in s.table && On(s, k, t) && s.table[k] < |s.entries| && !Blocked(s, s.table[k])
    requires LooksAgain(s.threads[t].pc)
    requires Becomes(s, s', s.threads[t := Attempt(k, WantEntry(true, s.table[k]))], s.entries, s.table)
    ensures Sure(s', k, s.table[k]) && Headed(s', k, s.table[k]) && Open(s', k, s.table[k])
    ensures forall u: nat :: On(s, k, u) && u != t ==> On(s', k, u) && s'.threads[u] == s.threads[u]
  {
    assert On(s', k, t) && Unchecked(s'.threads[t].pc, s.table[k]);
    assert Heading(s'.threads[t].pc) == Some(s.table[k]);
    assert !Blocked(s', s.table[k]);
  }

  /** An attempt gets in on the open entry in the table, beside one that is inside elsewhere. */
  lemma EnterByTable(s: State, k: Key, v: nat) returns (s': State)
    requires Inv(s) && MapFree(s) && k in s.table && Open(s, k, s.table[k]) && !Removed(s, k, s.table[k])
    requires On(s, k, v) && IsHolding(s.threads[v], k) && s.threads[v].pc.e != s.table[k]
    ensures Reaches(s, s', QuietOn(k)) && !Exclusive(s', k)
  {
    hide Structure, CountsOk, Faithful, Referenced, ComputeDelay, Reaches, Open, Blocked, Removed, Sure, Headed,
          StaleAt;
    var m, f := QuietOn(k), s.table[k];
    TableKey(s, k);
    OpenIsNotBlocked(s, k, f);
    var u: nat;
    if s.entries[f].owner.Some? {
      u := s.entries[f].owner.value;
      OwnerOf(s, f, u);
      if s.threads[u].pc == WantDelete(f) { RemoverRemoves(s, k, f, u); assert false; }
      OwnerMayEnter(s, k, f, u);
      s' := BringIn(s, u, k, f, m);
    } else if StaleAt(s, f) {
      OpenStaleIsSure(s, k, f);
      u := QueuedMayEnter(s, k, f);
      s' := BringIn(s, u, k, f, m);
    } else {
      StaleAtIs(s, f);
      u := |s.threads|;
      s' := NewcomerIn(s, k, m);
    }
    BothIn(s', k, u, v);
  }

  lemma StaleAtIs(s: State, e: nat)
    requires e < |s.entries|
    ensures StaleAt(s, e) <==> Stale(s.entries[e], s.now)
  {
  }

  lemma RemoverRemoves(s: State, k: Key, e: nat, u: nat)
    requires On(s, k, u) && Leaving(s.threads[u].pc) == Some(e)
    ensures Removed(s, k, e)
  {
  }

  lemma OpenStaleIsSure(s: State, k: Key, e: nat)
    requires Open(s, k, e) && StaleAt(s, e)
    ensures Sure(s, k, e) && Headed(s, k, e)
  {
    var t: nat :| On(s, k, t) && Unchecked(s.threads[t].pc, e);
    assert Heading(s.threads[t].pc) == Some(e);
  }

  lemma BothIn(s: State, k: Key, t: nat, u: nat)
    requires t < |s.threads| && u < |s.threads| && t != u && IsHolding(s.threads[t], k) && IsHolding(s.threads[u], k)
    ensures !Exclusive(s, k)
  {
    var lo, hi := if t < u then t else u, if t < u then u else t;
    assert 0 <= lo < hi < |s.threads| && IsHolding(s.threads[lo], k) && IsHolding(s.threads[hi], k);
  }

  /** The table's entry is taken out by whoever is about to do it. */
  lemma TakeOut(s: State, k: Key, l: nat) returns (s': State)
    requires Structure(s) && MapFree(s) && k in s.table && On(s, k, l) && Leaving(s.threads[l].pc) == Some(s.table[k])
    ensures Reaches(s, s', QuietOn(k)) && |s'.threads| == |s.threads|
    ensures s'.threads[l].Attempt? && Heading(s'.threads[l].pc).None?
    ensures Becomes(s, s', s.threads[l := s'.threads[l]], s.entries, s.table - {k})
  {
    hide Structure, ComputeDelay, Reaches;
    NobodyHoldsMap(s, l);
    if s.threads[l].pc.WantDelete? {
      s' := DeleteAlone(s, l, k, s.table[k], QuietOn(k));
    } else {
      s' := SwapAlone(s, l, k, s.table[k], QuietOn(k));
    }
  }

  /** With one attempt inside beside the table, another gets in through it. */
  lemma EnterBeside(s: State, k: Key, v: nat) returns (s': State)
    requires Inv(s) && MapFree(s) && On(s, k, v) && IsHolding(s.threads[v], k) && !Current(s, k, s.threads[v].pc.e)
    requires k in s.table ==> Removed(s, k, s.table[k]) || Admits(s, k, s.table[k])
    ensures Reaches(s, s', QuietOn(k)) && !Exclusive(s', k)
  {
    hide Structure, CountsOk, Faithful, Referenced, ComputeDelay, Reaches, Open, Blocked;
    var m := QuietOn(k);
    if k !in s.table {
      s' := NewcomerIn(s, k, m);
      BothIn(s', k, v, |s.threads|);
    } else if Removed(s, k, s.table[k]) {
      var l: nat :| On(s, k, l) && Leaving(s.threads[l].pc) == Some(s.table[k]);
      var mid := TakeOut(s, k, l);
      s' := NewcomerIn(mid, k, m);
      Onwards(s, mid, s', m);
      BothIn(s', k, v, |s.threads|);
    } else if Open(s, k, s.table[k]) {
      s' := EnterByTable(s, k, v);
    } else {
      s' := EnterAfterReturn(s, k, v);
    }
  }

  lemma EnterAfterReturn(s: State, k: Key, v: nat) returns (s': State)
    requires Inv(s) && MapFree(s) && On(s, k, v) && IsHolding(s.threads[v], k) && !Current(s, k, s.threads[v].pc.e)
    requires k in s.table && Admits(s, k, s.table[k]) && !Open(s, k, s.table[k]) && !Removed(s, k, s.table[k])
    ensures Reaches(s, s', QuietOn(k)) && !Exclusive(s', k)
  {
    hide Structure, CountsOk, Faithful, Referenced, ComputeDelay, Reaches, Blocked, Sure, Exclusive;
    var t: nat :| On(s, k, t) && LooksAgain(s.threads[t].pc) && Leaving(s.threads[t].pc) != Some(s.table[k]);
    NobodyHoldsMap(s, t);
    TableKey(s, k);
    var mid := ComesBack(s, t, k);
    ReachedIsInv(s, mid, QuietOn(k));
    BackIsSure(s, mid, k, t);
    StillNotRemoved(s, mid, k, t);
    s' := EnterByTable(mid, k, v);
    Onwards(s, mid, s', QuietOn(k));
  }

  lemma StillNotRemoved(s: State, s': State, k: Key, t: nat)
    requires k in s.table && t < |s.threads| && !Removed(s, k, s.table[k])
    requires Becomes(s, s', s.threads[t := Attempt(k, WantEntry(true, s.table[k]))], s.entries, s.table)
    ensures !Removed(s', k, s.table[k])
  {
    assert forall u: nat :: On(s', k, u) && u != t ==> On(s, k, u) && s'.threads[u] == s.threads[u];
  }

  // ----- the three ways not to be calm -----

  lemma SideDoorAndTable(s: State, k: Key, e: nat) returns (s': State)
    requires Inv(s) && MapFree(s) && SideDoor(s, k, e)
    requires k in s.table ==> Removed(s, k, s.table[k]) || Admits(s, k, s.table[k])
    ensures Reaches(s, s', QuietOn(k)) && !Exclusive(s', k)
  {
    hide Inv, Reaches, Exclusive, SideDoor, Admits, Removed;
    SideDoorIsOutside(s, k, e);
    var mid, v := EnterBySideDoor(s, k, e);
    ReachedIsInv(s, mid, QuietOn(k));
    if k in s.table { HandsElsewhere(s, mid, k, e, v, s.table[k]); }
    s' := EnterBeside(mid, k, v);
    Onwards(s, mid, s', QuietOn(k));
  }

  lemma TwoSideDoors(s: State, k: Key, e: nat, f: nat) returns (s': State)
    requires Inv(s) && MapFree(s) && SideDoor(s, k, e) && SideDoor(s, k, f) && e != f
    ensures Reaches(s, s', QuietOn(k)) && !Exclusive(s', k)
  {
    hide Inv, Reaches, Exclusive, SideDoor, Admits, Removed;
    var mid, v := EnterBySideDoor(s, k, e);
    ReachedIsInv(s, mid, QuietOn(k));
    HandsElsewhere(s, mid, k, e, v, f);
    var u;
    s', u := EnterBySideDoor(mid, k, f);
    Onwards(s, mid, s', QuietOn(k));
    BothIn(s', k, u, v);
  }

  /** Somebody is headed for the entry in the table, or can be. */
  lemma HeadForTable(s: State, k: Key, l: nat) returns (s': State)
    requires Inv(s) && MapFree(s) && k in s.table && Admits(s, k, s.table[k])
    requires On(s, k, l) && Leaving(s.threads[l].pc) == Some(s.table[k])
    ensures Reaches(s, s', QuietOn(k)) && MapFree(s') && s'.table == s.table && s'.entries == s.entries
    ensures Headed(s', k, s.table[k]) && Open(s', k, s.table[k])
    ensures On(s', k, l) && s'.threads[l] == s.threads[l]
  {
    hide Structure, CountsOk, Faithful, Referenced, ComputeDelay, Reaches;
    var f, m := s.table[k], QuietOn(k);
    TableKey(s, k);
    if !StaleAt(s, f) {
      s' := FindAlone(s, k, m);
      assert On(s', k, |s.threads|) && Heading(s'.threads[|s.threads|].pc) == Some(f);
    } else if Sure(s, k, f) {
      s' := s;
      Stay(s, m);
      OpenStaleIsSure(s, k, f);
    } else {
      var t: nat :| On(s, k, t) && LooksAgain(s.threads[t].pc) && Leaving(s.threads[t].pc) != Some(f);
      NobodyHoldsMap(s, t);
      s' := ComesBack(s, t, k);
      BackIsSure(s, s', k, t);
    }
  }

  /** An entry that can be entered and is taken out of the table becomes a side door beside a table
      without an entry. */
  lemma RemovedWhileOpen(s: State, k: Key) returns (s': State)
    requires Inv(s) && MapFree(s) && k in s.table && Removed(s, k, s.table[k]) && Admits(s, k, s.table[k])
    ensures Reaches(s, s', QuietOn(k)) && !Exclusive(s', k)
  {
    hide Inv, ComputeDelay, Reaches, Admits, Headed, Open, Exclusive;
    var f, m := s.table[k], QuietOn(k);
    var l: nat :| On(s, k, l) && Leaving(s.threads[l].pc) == Some(f);
    var mid := HeadForTable(s, k, l);
    ReachedIsInv(s, mid, m);
    InvHasStructure(mid);
    TableKey(mid, k);
    var out := TakeOut(mid, k, l);
    Onwards(s, mid, out, m);
    ReachedIsInv(s, out, m);
    TakenOutIsSideDoor(mid, out, k, f, l);
    s' := SideDoorAndTable(out, k, f);
    Onwards(s, out, s', m);
  }

  lemma TakenOutIsSideDoor(s: State, s': State, k: Key, f: nat, l: nat)
    requires f < |s.entries| && On(s, k, l) && Leaving(s.threads[l].pc) == Some(f) && Headed(s, k, f) && Open(s, k, f)
    requires |s'.threads| == |s.threads| && s'.threads[l].Attempt? && Heading(s'.threads[l].pc).None?
    requires Becomes(s, s', s.threads[l := s'.threads[l]], s.entries, s.table - {k})
    ensures SideDoor(s', k, f)
  {
    assert forall u: nat :: On(s, k, u) && u != l ==> On(s', k, u) && s'.threads[u] == s.threads[u];
    var t: nat :| On(s, k, t) && Heading(s.threads[t].pc) == Some(f);
    assert On(s', k, t);
    if Sure(s, k, f) {
      var u: nat :| On(s, k, u) && Unchecked(s.threads[u].pc, f);
      assert On(s', k, u);
    }
    assert !Blocked(s', f);
  }

  lemma NotCalmOverlaps(s: State, k: Key) returns (s': State)
    requires Inv(s) && MapFree(s) && !Calm(s, k)
    ensures Reaches(s, s', QuietOn(k)) && !Exclusive(s', k)
  {
    hide Inv, Reaches, Exclusive, SideDoor, Admits, Removed;
    if k in s.table && Removed(s, k, s.table[k]) && Admits(s, k, s.table[k]) {
      s' := RemovedWhileOpen(s, k);
    } else if e: nat, f: nat :| SideDoor(s, k, e) && SideDoor(s, k, f) && e != f {
      s' := TwoSideDoors(s, k, e, f);
    } else {
      var e: nat :| SideDoor(s, k, e) && !(k in s.table && !Removed(s, k, s.table[k]) && !Admits(s, k, s.table[k]));
      s' := SideDoorAndTable(s, k, e);
    }
  }

  // ----- the result -----

  /** The documented critical section per address, exactly: whenever the map lock is free, the
      address is served one attempt at a time until its next success or expiry if and only if there
      is at most one way in. */
  lemma ExclusiveIffCalm(acts: seq<Action>, k: Key)
    requires MapFree(Run(acts))
    ensures StaysExclusive(Run(acts), k) <==> Calm(Run(acts), k)
  {
    hide Inv, Calm, Exclusive, NewEvents, RunFrom, Run;
    EveryRun(acts);
    var s := Run(acts);
    if Calm(s, k) {
      CalmStaysExclusive(s, k);
    } else {
      var s' := NotCalmOverlaps(s, k);
      var more :| Path(s, s', more, QuietOn(k));
      assert Clean(NewEvents(s, more), k) && !Exclusive(RunFrom(s, more), k);
    }
  }

  /** Nothing on the address that still has to be tested has been idle for too long. */
  ghost predicate NoneStale(s: State, k: Key) {
    && (k in s.table ==> !StaleAt(s, s.table[k]))
    && forall t: nat :: On(s, k, t) ==>
         var pc := s.threads[t].pc;
         pc.Checking? || (pc.WantEntry? && !pc.again) ==> !StaleAt(s, pc.e)
  }

  /** Where nothing is stale, calm means that nobody is astray. */
  lemma CalmIffSettled(s: State, k: Key)
    requires Structure(s) && NoneStale(s, k)
    ensures Calm(s, k) <==> Settled(s, k)
  {
    if Settled(s, k) {
      SettledIsCalm(s, k);
    } else {
      var t :| 0 <= t < |s.threads| && !ThreadSettled(s, k, s.threads[t]);
      AstrayIsNotCalm(s, k, t);
    }
  }

  lemma SettledIsCalm(s: State, k: Key)
    requires Settled(s, k)
    ensures Calm(s, k)
  {
    hide Admits, Open;
    assert forall t: nat :: On(s, k, t) ==> ThreadSettled(s, k, s.threads[t]);
    assert forall e: nat :: !SideDoor(s, k, e);
  }

  lemma AstrayIsNotCalm(s: State, k: Key, t: nat)
    requires Structure(s) && NoneStale(s, k) && t < |s.threads| && !ThreadSettled(s, k, s.threads[t])
    ensures !Calm(s, k)
  {
    hide LocksOk, OwnersOk, TableOk, ComputeDelay;
    assert On(s, k, t) && ThreadOk(s, s.threads[t]);
    HeadingRefers(s.threads[t]);
    if k in s.table { assert !Blocked(s, s.table[k]) && Admits(s, k, s.table[k]); }
    if Leaving(s.threads[t].pc).Some? {
      RemoverRemoves(s, k, s.table[k], t);
    } else {
      var e := Heading(s.threads[t].pc).value;
      StrayIsOpen(s, k, e, t);
      assert SideDoor(s, k, e);
    }
  }

  lemma StrayIsOpen(s: State, k: Key, e: nat, t: nat)
    requires OwnersOk(s) && NoneStale(s, k) && On(s, k, t) && Heading(s.threads[t].pc) == Some(e)
    requires e < |s.entries| && s.entries[e].key == k && ThreadsOk(s)
    ensures Open(s, k, e)
  {
    hide ComputeDelay;
    if s.entries[e].owner.Some? {
      var o := s.entries[e].owner.value;
      assert ThreadOk(s, s.threads[o]);
      assert s.threads[o].Attempt? ==> On(s, k, o);
    }
    if StaleAt(s, e) { assert Unchecked(s.threads[t].pc, e); }
  }

  /** In particular, where nothing is stale: exclusion lasts until the next success or expiry if
      and only if everybody in or on the way in is on the entry in the table and nobody is about to
      remove that entry. */
  lemma ExclusiveIffSettled(acts: seq<Action>, k: Key)
    requires MapFree(Run(acts)) && NoneStale(Run(acts), k)
    ensures StaysExclusive(Run(acts), k) <==> Settled(Run(acts), k)
  {
    hide Structure, CountsOk, Faithful, Referenced, Calm, Settled, StaysExclusive, Run, NoneStale;
    EveryRun(acts);
    ExclusiveIffCalm(acts, k);
    CalmIffSettled(Run(acts), k);
  }

  /** The expiry case: a state reached without any success, with the map lock free, in which an
      attempt past its swap queues for an entry that has itself expired and been replaced. It is a
      side door beside an open table, so the address is not served one at a time from there. */
  lemma ExpiryLeavesASideDoor(k: Key) returns (acts: seq<Action>)
    ensures forall ev :: ev in Run(acts).trace ==> !ev.Succeeded?
    ensures var s := Run(acts);
            && MapFree(s) && StaleAt(s, 1) && SideDoor(s, k, 1) && Current(s, k, 2) && Admits(s, k, 2)
            && !Settled(s, k) && !Calm(s, k) && !StaysExclusive(s, k)
  {
    hide Reaches, ComputeDelay, StaysExclusive;
    var s := QueuedForExpired(k);
    acts := AsRun(s, NoSuccess);
    assert On(s, k, 1) && Unchecked(s.threads[1].pc, 1) && Heading(s.threads[1].pc) == Some(1);
    assert SideDoor(s, k, 1) && Admits(s, k, 2);
    assert !ThreadSettled(s, k, s.threads[1]);
    ExclusiveIffCalm(acts, k);
  }
}
