/** The two authentication callbacks: ordered effects on the limiter and the log. */
module Auth {
  import opened Addresses
  import opened Backoff
  import opened Limiter

  datatype Method = Password | Publickey

  datatype Reason = BadUser | BadPassword | BadKey

  datatype Record =
    | AuthOk(via: Method)
    | AuthFail(via: Method, reason: Reason, attempt: int, nextDelay: int)

  /** What the checks answer for one presented credential. */
  datatype Verdict = Accepted | Refused(reason: Reason)

  function NormalizeKey(ip: Addr): Key
    requires ip != []
  {
    var v4 := To4(ip);
    if v4.Some? then v4.value else ip
  }

  /** The callback's own copy of the backoff formula. */
  function NextDelay(failCount: int): int {
    if failCount <= 0 then 0
    else
      var exp := failCount - 1;
      if exp > 62 then MAX_DELAY
      else
        var d := Int64(Int64(Pow2(exp)) * SECOND);
        if d > MAX_DELAY || d < 0 then MAX_DELAY else d
  }

  lemma SameFormula(n: int)
    ensures NextDelay(n) == ComputeDelay(n)
  {
  }

  /** The publickey verdict: both checks run, and a bad user outranks a bad key. */
  function KeyVerdict(userOk: bool, keyOk: bool): (v: Verdict)
    ensures v.Accepted? <==> userOk && keyOk
    ensures v.Refused? ==> (v.reason == BadUser <==> !userOk) && (v.reason == BadKey <==> userOk)
  {
    if userOk && keyOk then Accepted
    else if !userOk then Refused(BadUser)
    else Refused(BadKey)
  }

  /** At any time within the idle window of the failure just recorded, the key's latest run has
      length `n`. */
  ghost predicate NextSees(lim: Limiter, key: Key, since: int, n: nat)
    reads lim
  {
    forall now :: now - since <= TEN_MINUTES ==> LatestRun(OfKey(lim.history, key), now, n)
  }

  /** The record of a refusal, from a Snapshot taken right after the release: its attempt number is
      the length of the run of failures that now ends the history of the address. */
  method LogRefusal(lim: Limiter, ip: Addr, via: Method, reason: Reason) returns (log: Record)
    requires lim.Valid() && ip != [] && Normalize(ip) in lim.entries && Normalize(ip) !in lim.started
    ensures log.AuthFail? && log.via == via && log.reason == reason && log.nextDelay == ComputeDelay(log.attempt)
    ensures var e := lim.entries[Normalize(ip)];
            log.attempt == e.failCount && Recorded(OfKey(lim.history, Normalize(ip)), log.attempt, e.lastFail)
  {
    hide Recorded, LatestRun, OfKey, ComputeDelay, Pow2;
    assert lim.KeyOk(Normalize(ip));
    var lookup := NormalizeKey(ip);
    var snapshot := lim.Snapshot();
    var attempt := if lookup in snapshot then snapshot[lookup] else 0;
    SameFormula(attempt);
    log := AuthFail(via, reason, attempt, NextDelay(attempt));
  }

  /** The body shared by the two callbacks: acquire, sleep, check, release, log. */
  method Authenticate(lim: Limiter, ip: Addr, began: int, verdict: Verdict, ended: int, via: Method)
    returns (ok: bool, slept: int, log: Record)
    requires lim.Valid() && ip != [] && Normalize(ip) !in lim.started
    modifies lim, lim.entries.Values
    ensures lim.Valid() && fresh(lim.entries.Values - old(lim.entries).Values)
    ensures lim.started == old(lim.started)
    ensures lim.history == old(lim.history) + [Attempt(Normalize(ip), began, ok, ended)]
    ensures ok == verdict.Accepted?
    ensures exists n: nat :: LatestRun(OfKey(old(lim.history), Normalize(ip)), began, n) && slept == ComputeDelay(n)
    ensures ok ==> log == AuthOk(via)
    ensures !ok ==>
              && log.AuthFail? && log.via == via && log.reason == verdict.reason
              && log.attempt >= 1 && LatestRun(OfKey(old(lim.history), Normalize(ip)), began, log.attempt - 1)
              && log.nextDelay == ComputeDelay(log.attempt)
              && NextSees(lim, Normalize(ip), ended, log.attempt)
  {
    hide LatestRun, OfKey, ComputeDelay, Pow2;
    var delay, key, e := lim.Acquire(ip, began);
    slept := delay;
    ok := verdict.Accepted?;
    lim.Release(key, e, ok, ended);
    if ok {
      log := AuthOk(via);
    } else {
      log := LogRefusal(lim, ip, via, verdict.reason);
      forall now | now - ended <= TEN_MINUTES ensures LatestRun(OfKey(lim.history, key), now, log.attempt) {
        RecordedSeenAs(OfKey(lim.history, key), log.attempt, ended, now);
      }
    }
  }

  method PasswordCallback(lim: Limiter, ip: Addr, began: int, check: Verdict, ended: int)
    returns (ok: bool, slept: int, log: Record)
    requires lim.Valid() && ip != [] && Normalize(ip) !in lim.started
    modifies lim, lim.entries.Values
    ensures lim.Valid() && fresh(lim.entries.Values - old(lim.entries).Values)
    ensures lim.started == old(lim.started)
    ensures lim.history == old(lim.history) + [Attempt(Normalize(ip), began, ok, ended)]
    ensures ok == check.Accepted?
    ensures exists n: nat :: LatestRun(OfKey(old(lim.history), Normalize(ip)), began, n) && slept == ComputeDelay(n)
    ensures ok ==> log == AuthOk(Password)
    ensures !ok ==>
              && log.AuthFail? && log.via == Password && log.reason == check.reason
              && log.attempt >= 1 && LatestRun(OfKey(old(lim.history), Normalize(ip)), began, log.attempt - 1)
              && log.nextDelay == ComputeDelay(log.attempt)
              && NextSees(lim, Normalize(ip), ended, log.attempt)
  {
    hide LatestRun, OfKey, ComputeDelay, NextSees;
    ok, slept, log := Authenticate(lim, ip, began, check, ended, Password);
  }

  method PublickeyCallback(lim: Limiter, ip: Addr, began: int, userOk: bool, keyOk: bool, ended: int)
    returns (ok: bool, slept: int, log: Record)
    requires lim.Valid() && ip != [] && Normalize(ip) !in lim.started
    modifies lim, lim.entries.Values
    ensures lim.Valid() && fresh(lim.entries.Values - old(lim.entries).Values)
    ensures lim.started == old(lim.started)
    ensures lim.history == old(lim.history) + [Attempt(Normalize(ip), began, ok, ended)]
    ensures ok == (userOk && keyOk)
    ensures exists n: nat :: LatestRun(OfKey(old(lim.history), Normalize(ip)), began, n) && slept == ComputeDelay(n)
    ensures ok ==> log == AuthOk(Publickey)
    ensures !ok ==>
              && log.AuthFail? && log.via == Publickey && log.reason == (if userOk then BadKey else BadUser)
              && log.attempt >= 1 && LatestRun(OfKey(old(lim.history), Normalize(ip)), began, log.attempt - 1)
              && log.nextDelay == ComputeDelay(log.attempt)
              && NextSees(lim, Normalize(ip), ended, log.attempt)
  {
    hide LatestRun, OfKey, ComputeDelay, NextSees;
    ok, slept, log := Authenticate(lim, ip, began, KeyVerdict(userOk, keyOk), ended, Publickey);
  }

  /** Something another connection does to the limiter: begin an attempt or end one. */
  datatype Traffic = Begins(ip: Addr, at: int) | Ends(key: Key, success: bool, at: int)

  predicate InFlight(lim: Limiter, key: Key)
    reads lim, lim.entries.Values
  {
    key in lim.entries && lim.entries[key].locked
  }

  lemma InFlightMeansStarted(lim: Limiter, key: Key)
    requires lim.Valid()
    ensures InFlight(lim, key) <==> key in lim.started
  {
    assert lim.KeyOk(key);
  }

  /** Any traffic on other keys, overlapping in any way, leaves the history of `key` alone. An
      attempt on a key that is in flight would block, so it is not begun. */
  method OtherTraffic(lim: Limiter, key: Key, traffic: seq<Traffic>)
    requires lim.Valid()
    modifies lim, lim.entries.Values
    ensures lim.Valid() && fresh(lim.entries.Values - old(lim.entries).Values)
    ensures OfKey(lim.history, key) == OfKey(old(lim.history), key)
    ensures key in lim.started <==> key in old(lim.started)
  {
    var i := 0;
    while i < |traffic|
      invariant 0 <= i <= |traffic|
      invariant lim.Valid() && fresh(lim.entries.Values - old(lim.entries).Values)
      invariant OfKey(lim.history, key) == OfKey(old(lim.history), key)
      invariant key in lim.started <==> key in old(lim.started)
    {
      OneEvent(lim, key, traffic[i]);
      i := i + 1;
    }
  }

  method OneEvent(lim: Limiter, key: Key, x: Traffic)
    requires lim.Valid()
    modifies lim, lim.entries.Values
    ensures lim.Valid() && fresh(lim.entries.Values - old(lim.entries).Values)
    ensures OfKey(lim.history, key) == OfKey(old(lim.history), key)
    ensures key in lim.started <==> key in old(lim.started)
  {
    hide LatestRun, OfKey, ComputeDelay, CellOk;
    match x {
      case Begins(ip, at) =>
        var k := Normalize(ip);
        InFlightMeansStarted(lim, k);
        if k != key && !InFlight(lim, k) {
          var _, _, _ := lim.Acquire(ip, at);
        }
      case Ends(k, success, at) =>
        InFlightMeansStarted(lim, k);
        if k != key && InFlight(lim, k) {
          ghost var before := lim.history;
          ghost var began := lim.started[k];
          lim.Release(k, lim.entries[k], success, at);
          OfKeyAppend(before, Attempt(k, began, success, at), key);
        }
    }
  }

  /** How an attempt is refused. */
  datatype Refusal = ByPassword(reason: Reason) | ByPublickey(userOk: bool, keyOk: bool)

  /** The promise behind the logged `next_delay`: after an attempt refused by either method, and
      whatever other addresses do in between, the next attempt from any address with the same
      normalised form, begun within ten minutes, is given exactly the delay that was logged. */
  method RefusedThenRetried(lim: Limiter, ip: Addr, how: Refusal, began: int, ended: int,
                            between: seq<Traffic>, again: Addr, retried: int)
    returns (log: Record, delay: int)
    requires lim.Valid() && ip != [] && Normalize(ip) !in lim.started
    requires how.ByPublickey? ==> !(how.userOk && how.keyOk)
    requires Normalize(again) == Normalize(ip) && retried - ended <= TEN_MINUTES
    modifies lim, lim.entries.Values
    ensures log.AuthFail? && delay == log.nextDelay
  {
    hide LatestRun, OfKey, ComputeDelay;
    var ok, slept;
    match how {
      case ByPassword(reason) =>
        ok, slept, log := PasswordCallback(lim, ip, began, Refused(reason), ended);
      case ByPublickey(userOk, keyOk) =>
        ok, slept, log := PublickeyCallback(lim, ip, began, userOk, keyOk, ended);
    }
    ghost var hk := OfKey(lim.history, Normalize(ip));
    assert LatestRun(hk, retried, log.attempt);
    OtherTraffic(lim, Normalize(ip), between);
    var key, e;
    delay, key, e := lim.Acquire(again, retried);
    LatestRunUnique(hk, retried, log.attempt, e.failCount);
  }
}
