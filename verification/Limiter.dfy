/** The limiter as its callers see it while attempts on one address do not overlap, against the
    plain history of attempts. */
module Limiter {
  import opened Common
  import opened Addresses
  import opened Backoff

  /** One completed Acquire/release pair: the clock at Acquire, the outcome, the clock at release. */
  datatype Attempt = Attempt(key: Key, acquired: int, success: bool, released: int)

  /** The attempts on one key, oldest first. */
  function OfKey(h: seq<Attempt>, k: Key): seq<Attempt> {
    if h == [] then []
    else OfKey(h[..|h| - 1], k) + (if h[|h| - 1].key == k then [h[|h| - 1]] else [])
  }

  lemma OfKeyAppend(h: seq<Attempt>, a: Attempt, k: Key)
    ensures OfKey(h + [a], k) == if a.key == k then OfKey(h, k) + [a] else OfKey(h, k)
  {
    assert (h + [a])[..|h|] == h;
  }

  // In nanoseconds.
  const TEN_MINUTES: int := 600_000_000_000

  /** The last `n` attempts all failed, each begun within the idle window of the one before. */
  ghost predicate UnbrokenRun(hk: seq<Attempt>, n: nat) {
    && n <= |hk|
    && (forall i :: |hk| - n <= i < |hk| ==> !hk[i].success)
    && (forall i :: |hk| - n < i < |hk| ==> hk[i].acquired - hk[i - 1].released <= TEN_MINUTES)
  }

  /** ... and the last of them is still within the window at time `now`. */
  ghost predicate LiveRun(hk: seq<Attempt>, now: int, n: nat) {
    UnbrokenRun(hk, n) && (n > 0 ==> now - hk[|hk| - 1].released <= TEN_MINUTES)
  }

  /** `n` is the length of the latest unbroken run of failures, seen at time `now`. */
  ghost predicate LatestRun(hk: seq<Attempt>, now: int, n: nat) {
    LiveRun(hk, now, n) && forall m :: n < m <= |hk| ==> !LiveRun(hk, now, m)
  }

  lemma LatestRunUnique(hk: seq<Attempt>, now: int, m: nat, n: nat)
    requires LatestRun(hk, now, m) && LatestRun(hk, now, n)
    ensures m == n
  {
    assert LiveRun(hk, now, m) && LiveRun(hk, now, n);
  }

  /** What a stored entry says about its key: a run of exactly `n` ended with a failure at `last`. */
  ghost predicate Recorded(hk: seq<Attempt>, n: int, last: int) {
    && 1 <= n <= |hk| && UnbrokenRun(hk, n) && last == hk[|hk| - 1].released
    && forall m :: n < m <= |hk| ==> !UnbrokenRun(hk, m)
  }

  /** What a missing entry says about its key. */
  ghost predicate Forgotten(hk: seq<Attempt>) { hk == [] || hk[|hk| - 1].success }

  /** The cell of a key agrees with the history of that key: missing, in flight, or at rest. */
  ghost predicate CellOk(hk: seq<Attempt>, present: bool, started: Option<int>, locked: bool, n: int, last: int) {
    if !present then started.None? && Forgotten(hk)
    else
      match started
      case Some(at) => locked && n >= 0 && LatestRun(hk, at, n)
      case None => !locked && Recorded(hk, n, last)
  }

  lemma ForgottenSeenAs(hk: seq<Attempt>, now: int)
    requires Forgotten(hk)
    ensures LatestRun(hk, now, 0)
  {
  }

  lemma RecordedSeenAs(hk: seq<Attempt>, n: int, last: int, now: int)
    requires Recorded(hk, n, last)
    ensures LatestRun(hk, now, if now - last > TEN_MINUTES then 0 else n)
  {
  }

  /** A failure extends the run that was seen by exactly one. */
  lemma FailureExtends(hk: seq<Attempt>, n: nat, x: Attempt)
    requires LatestRun(hk, x.acquired, n) && !x.success
    ensures Recorded(hk + [x], n + 1, x.released)
  {
    var hk' := hk + [x];
    assert UnbrokenRun(hk', n + 1);
    forall m | n + 1 < m <= |hk'| ensures !UnbrokenRun(hk', m) {
      assert !LiveRun(hk, x.acquired, m - 1);
      if UnbrokenRun(hk', m) {
        assert hk'[|hk|] == x && hk'[|hk| - 1] == hk[|hk| - 1];
        assert forall i :: 0 <= i < |hk| ==> hk'[i] == hk[i];
        assert UnbrokenRun(hk, m - 1);
        assert false;
      }
    }
  }

  class Entry {
    var locked: bool
    var failCount: int
    var lastFail: int

    constructor ()
      ensures !locked && failCount == 0 && lastFail == 0
    {
      locked, failCount, lastFail := false, 0, 0;
    }
  }

  class Limiter {
    var entries: map<Key, Entry>
    // Auxiliary: completed attempts, and the Acquire time of each attempt in flight.
    ghost var history: seq<Attempt>
    ghost var started: map<Key, int>

    ghost predicate Distinct()
      reads this
    {
      forall j, k :: j in entries && k in entries && j != k ==> entries[j] != entries[k]
    }

    ghost predicate KeyOk(k: Key)
      reads this, entries.Values
    {
      var flight := if k in started then Some(started[k]) else None;
      if k in entries then
        CellOk(OfKey(history, k), true, flight, entries[k].locked, entries[k].failCount, entries[k].lastFail)
      else CellOk(OfKey(history, k), false, flight, false, 0, 0)
    }

    ghost predicate Valid()
      reads this, entries.Values
    {
      Distinct() && forall k :: KeyOk(k)
    }

    constructor ()
      ensures Valid() && entries == map[] && history == [] && started == map[]
    {
      entries, history, started := map[], [], map[];
    }

    method LoadOrCreate(key: Key) returns (e: Entry)
      requires Distinct()
      modifies this`entries
      ensures key in entries && entries[key] == e && Distinct()
      ensures key in old(entries) ==> entries == old(entries)
      ensures key !in old(entries) ==> fresh(e) && entries == old(entries)[key := e]
      ensures key !in old(entries) ==> !e.locked && e.failCount == 0
    {
      if key in entries {
        e := entries[key];
      } else {
        e := new Entry();
        entries := entries[key := e];
      }
    }

    /** The locking half of Acquire: find or make the entry, lock it, and swap it for a fresh
        one if it has been idle for too long. */
    method LockEntry(key: Key, now: int) returns (e: Entry)
      requires Distinct()
      modifies this`entries, entries.Values
      ensures Distinct() && key in entries && entries[key] == e && e.locked
      ensures key in old(entries) && !old(TooIdle(entries[key].failCount, entries[key].lastFail, now)) ==>
                e.failCount == old(entries[key].failCount)
      ensures key !in old(entries) || old(TooIdle(entries[key].failCount, entries[key].lastFail, now)) ==>
            e.failCount == 0
      ensures entries.Keys == old(entries).Keys + {key} && fresh(entries.Values - old(entries).Values)
      ensures forall k :: k in old(entries) && k != key ==> entries[k] == old(entries[k]) && unchanged(entries[k])
    {
      e := LoadOrCreate(key);
      e.locked := true;
      if TooIdle(e.failCount, e.lastFail, now) {
        e.locked := false;
        if key in entries && entries[key] == e {
          entries := entries - {key};
        }
        e := LoadOrCreate(key);
        e.locked := true;
      }
    }

    /** Begins an attempt. Called while another attempt on the same key is in flight it would
        block, hence the precondition. The count it locks is the length of the key's latest
        unbroken run of failures; no other key is read or changed. */
    method Acquire(ip: Addr, now: int) returns (delay: int, key: Key, e: Entry)
      requires Valid() && Normalize(ip) !in started
      modifies this, entries.Values
      ensures Valid() && key == Normalize(ip) && key in entries && entries[key] == e
      ensures history == old(history) && started == old(started)[key := now]
      ensures e.failCount >= 0 && LatestRun(OfKey(history, key), now, e.failCount)
      ensures delay == ComputeDelay(e.failCount)
      ensures entries.Keys == old(entries).Keys + {key} && fresh(entries.Values - old(entries).Values)
      ensures forall k :: k in old(entries) && k != key ==> entries[k] == old(entries[k]) && unchanged(entries[k])
    {
      hide LatestRun, OfKey, ComputeDelay;
      key := Normalize(ip);
      assert KeyOk(key);
      e := LockEntry(key, now);
      assert LatestRun(OfKey(history, key), now, e.failCount) by {
        if key in old(entries) {
          RecordedSeenAs(OfKey(history, key), old(entries[key].failCount), old(entries[key].lastFail), now);
        } else {
          ForgottenSeenAs(OfKey(history, key), now);
        }
      }
      delay := ComputeDelay(e.failCount);
      started := started[key := now];
      forall k ensures KeyOk(k) {
        if k != key { assert old(KeyOk(k)); }
      }
    }

    /** The closure Acquire returns, for the attempt in flight on `key`. */
    method Release(key: Key, e: Entry, success: bool, now: int)
      requires Valid() && key in started && key in entries && entries[key] == e
      modifies this, e
      ensures Valid()
      ensures history == old(history) + [Attempt(key, old(started[key]), success, now)]
      ensures started == old(started) - {key}
      ensures entries == if success then old(entries) - {key} else old(entries)
      ensures !e.locked && (success ==> e.failCount == old(e.failCount) && e.lastFail == old(e.lastFail))
      ensures !success ==> e.failCount == old(e.failCount) + 1 && e.lastFail == now
    {
      hide LatestRun, OfKey;
      ghost var hk := OfKey(history, key);
      ghost var x := Attempt(key, started[key], success, now);
      assert KeyOk(key);
      if success {
        if key in entries && entries[key] == e {
          entries := entries - {key};
        }
        e.locked := false;
      } else {
        FailureExtends(hk, e.failCount, x);
        e.failCount := e.failCount + 1;
        e.lastFail := now;
        e.locked := false;
      }
      history := history + [x];
      started := started - {key};
      forall k ensures KeyOk(k) {
        OfKeyAppend(old(history), x, k);
        if k != key { assert old(KeyOk(k)); }
      }
    }

    /** A copy of the fail counts. An entry in flight is read only once its holder lets go, so
        nothing is promised here about its value. */
    method Snapshot() returns (out: map<Key, int>)
      requires Valid()
      ensures out.Keys == entries.Keys
      ensures forall k :: k in entries && !entries[k].locked ==> out[k] == entries[k].failCount
    {
      out := map[];
      var todo := entries.Keys;
      while todo != {}
        invariant todo <= entries.Keys && out.Keys == entries.Keys - todo
        invariant forall k :: k in out ==> out[k] == entries[k].failCount
        decreases |todo|
      {
        var k :| k in todo;
        out := out[k := entries[k].failCount];
        todo := todo - {k};
      }
    }
  }
}
