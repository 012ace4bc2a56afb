/**
 Timer rules and the token bucket over handshake work
 (crates/wg-core/src/timers.rs). Times are milliseconds.
 */
module Timers {
  import opened Common

  const REJECT_AFTER_TIME_MS := 180_000
  const REKEY_AFTER_TIME_MS := 120_000
  const REKEY_TIMEOUT_MS := 5_000
  const KEEPALIVE_TIMEOUT_MS := 10_000
  const RATE_MS := 50
  const BURST := 8

  predicate SessionIsAlive(established: nat, now: nat) {
    Since(now, established) < REJECT_AFTER_TIME_MS
  }

  predicate RekeyIsDue(established: nat, now: nat) {
    Since(now, established) >= REKEY_AFTER_TIME_MS
  }

  predicate RetryIsDue(lastAttempt: Option<nat>, now: nat) {
    lastAttempt.None? || Since(now, lastAttempt.value) >= REKEY_TIMEOUT_MS
  }

  predicate KeepaliveIsDue(armed: Option<nat>, now: nat) {
    armed.Some? && Since(now, armed.value) >= KEEPALIVE_TIMEOUT_MS
  }

  /** The bucket's two fields, as a value. */
  datatype Budget = Budget(tokens: nat, lastRefill: Option<nat>)

  const FULL := Budget(BURST, None)

  function Refill(b: Budget, now: nat): (r: Budget)
    ensures r.lastRefill.Some?
  {
    match b.lastRefill
    case None => Budget(b.tokens, Some(now))
    case Some(last) =>
      var earned := Since(now, last) / RATE_MS;
      if earned > 0 then
        Budget(Min(Min(b.tokens + Min(earned, 0xFFFF_FFFF), 0xFFFF_FFFF), BURST), Some(last + earned * RATE_MS))
      else b
  }

  function Take(b: Budget, now: nat): (r: (Budget, bool)) {
    var filled := Refill(b, now);
    if filled.tokens == 0 then (filled, false) else (filled.(tokens := filled.tokens - 1), true)
  }

  class HandshakeBudget {
    var tokens: nat
    var lastRefill: Option<nat>

    function View(): Budget
      reads this
    {
      Budget(tokens, lastRefill)
    }

    constructor ()
      ensures View() == FULL
    {
      tokens := BURST;
      lastRefill := None;
    }

    method TakeOne(now: nat) returns (granted: bool)
      modifies this
      ensures (View(), granted) == Take(old(View()), now)
    {
      if lastRefill.None? {
        lastRefill := Some(now);
      } else {
        var earned := Since(now, lastRefill.value) / RATE_MS;
        if earned > 0 {
          tokens := Min(Min(tokens + Min(earned, 0xFFFF_FFFF), 0xFFFF_FFFF), BURST);
          lastRefill := Some(lastRefill.value + earned * RATE_MS);
        }
      }
      if tokens == 0 {
        return false;
      }
      tokens := tokens - 1;
      return true;
    }
  }

  // ---------------------------------------------------------------------
  // Whole runs: the bucket asked at each of a list of times.

  predicate NonDecreasing(times: seq<nat>) {
    forall i, j :: 0 <= i < j < |times| ==> times[i] <= times[j]
  }

  /** The bucket after a run of requests. */
  function After(b: Budget, times: seq<nat>): (r: Budget) {
    if times == [] then b else Take(After(b, times[..|times| - 1]), times[|times| - 1]).0
  }

  /** How many requests of a run are granted. */
  function Granted(b: Budget, times: seq<nat>): (n: nat) {
    if times == [] then 0
    else
      var before := times[..|times| - 1];
      Granted(b, before) + if Take(After(b, before), times[|times| - 1]).1 then 1 else 0
  }

  /** A bucket that can occur at time `now` on a clock that has not gone backwards. */
  predicate Reachable(b: Budget, now: nat) {
    && b.tokens <= BURST
    && (b.lastRefill.None? ==> b == FULL)
    && (b.lastRefill.Some? ==> b.lastRefill.value <= now)
  }

  lemma {:induction false} ReachableAfter(times: seq<nat>)
    requires NonDecreasing(times) && times != []
    ensures Reachable(After(FULL, times), times[|times| - 1])
    ensures After(FULL, times).lastRefill == Some(times[0] + (times[|times| - 1] - times[0]) / RATE_MS * RATE_MS)
  {
    var last := |times| - 1;
    if last > 0 {
      ReachableAfter(times[..last]);
      var r := times[last - 1] - times[0];
      var rest := times[last] - (times[0] + r / RATE_MS * RATE_MS);
      assert rest == (times[last] - times[0]) - r / RATE_MS * RATE_MS;
      RefillSplits(times[last] - times[0], r / RATE_MS);
    }
  }

  lemma RefillSplits(d: nat, q: nat)
    requires q * RATE_MS <= d
    ensures q + (d - q * RATE_MS) / RATE_MS == d / RATE_MS
  {
  }

  /**
   No fraction of an interval is ever lost: whatever the polling pattern, the
   refill mark sits a whole number of intervals after the first request, less
   than one interval behind the clock.
   */
  lemma RemainderIsKept(times: seq<nat>)
    requires NonDecreasing(times) && times != []
    ensures var mark := After(FULL, times).lastRefill;
            && mark.Some?
            && (mark.value - times[0]) % RATE_MS == 0
            && times[0] <= mark.value <= times[|times| - 1] < mark.value + RATE_MS
  {
    ReachableAfter(times);
    var d := times[|times| - 1] - times[0];
    assert d == d / RATE_MS * RATE_MS + d % RATE_MS;
  }

  /** A refused request leaves the bucket exactly as it was, so nothing later can tell it happened. */
  lemma RefusedTakeIsInvisible(b: Budget, now: nat, later: seq<nat>)
    requires Reachable(b, now) && !Take(b, now).1
    ensures Take(b, now).0 == b
    ensures After(Take(b, now).0, later) == After(b, later)
    ensures Granted(Take(b, now).0, later) == Granted(b, later)
  {
  }

  /** Tokens in hand plus tokens granted never exceed what was there at the start plus what time has earned. */
  lemma {:induction false} Accounting(b: Budget, start: nat, times: seq<nat>)
    requires Reachable(b, start) && b.lastRefill.Some?
    requires NonDecreasing([start] + times)
    ensures Reachable(After(b, times), if times == [] then start else times[|times| - 1])
    ensures After(b, times).lastRefill.Some? && After(b, times).lastRefill.value >= b.lastRefill.value
    ensures (After(b, times).lastRefill.value - b.lastRefill.value) % RATE_MS == 0
    ensures Granted(b, times) + After(b, times).tokens
         <= b.tokens + (After(b, times).lastRefill.value - b.lastRefill.value) / RATE_MS
  {
    var last := |times| - 1;
    if last >= 0 {
      var before := times[..last];
      assert [start] + before == ([start] + times)[..|times|];
      Accounting(b, start, before);
      var mid := After(b, before);
      var prev := if before == [] then start else before[|before| - 1];
      assert prev <= times[last] by {
        assert ([start] + times)[|times| - 1] == prev;
        assert ([start] + times)[|times|] == times[last];
      }
      var earned := Since(times[last], mid.lastRefill.value) / RATE_MS;
      var gained := (mid.lastRefill.value - b.lastRefill.value) / RATE_MS;
      assert mid.lastRefill.value - b.lastRefill.value == gained * RATE_MS;
      assert (gained + earned) * RATE_MS / RATE_MS == gained + earned;
    }
  }

  /**
   The rate limit: take any stretch of a run, starting from any reachable
   bucket. The requests granted in it number at most the burst plus one per
   started interval of the time it spans.
   */
  lemma RateLimit(b: Budget, start: nat, times: seq<nat>)
    requires Reachable(b, start) && times != []
    requires NonDecreasing([start] + times)
    ensures Granted(b, times) <= BURST + (Since(times[|times| - 1], times[0]) + RATE_MS - 1) / RATE_MS
  {
    var first, rest := times[0], times[1..];
    assert first >= start by {
      assert ([start] + times)[0] == start && ([start] + times)[1] == first;
    }
    RefillCatchesUp(b, first);
    assert NonDecreasing([first] + rest) by {
      assert [first] + rest == times;
      assert forall i :: 0 <= i < |times| ==> times[i] == ([start] + times)[i + 1];
    }
    Split(b, times);
    var one := Take(b, first).0;
    Accounting(one, first, rest);
    var end := After(one, rest);
    var last := times[|times| - 1];
    assert last == if rest == [] then first else rest[|rest| - 1];
    var span := end.lastRefill.value - one.lastRefill.value;
    assert span <= last - first + RATE_MS - 1;
    assert span / RATE_MS <= (last - first + RATE_MS - 1) / RATE_MS;
  }

  lemma RefillCatchesUp(b: Budget, now: nat)
    requires Reachable(b, now)
    ensures var r := Refill(b, now);
            Reachable(r, now) && now - r.lastRefill.value < RATE_MS
  {
    if b.lastRefill.Some? {
      var d := now - b.lastRefill.value;
      assert d == d / RATE_MS * RATE_MS + d % RATE_MS;
    }
  }

  /** The first request of a run, split off from the rest. */
  lemma {:induction false} Split(b: Budget, times: seq<nat>)
    requires times != []
    ensures After(b, times) == After(Take(b, times[0]).0, times[1..])
    ensures Granted(b, times) == (if Take(b, times[0]).1 then 1 else 0) + Granted(Take(b, times[0]).0, times[1..])
  {
    var last := |times| - 1;
    if last > 0 {
      Split(b, times[..last]);
      assert times[..last][1..] == times[1..][..last - 1];
    } else {
      assert times[..0] == [] && times[1..] == [];
    }
  }

  /** The sustained rate is always served: a request one interval after another is never refused. */
  lemma SustainedRateIsServed(b: Budget, earlier: nat, now: nat)
    requires Reachable(b, earlier) && now >= earlier + RATE_MS
    ensures Take(Take(b, earlier).0, now).1
  {
    RefillCatchesUp(b, earlier);
  }

  function Repeated(now: nat, n: nat): (r: seq<nat>)
    ensures |r| == n
  {
    seq(n, _ => now)
  }

  /** Requests at one instant: as many as the bucket holds are granted, and no more. */
  lemma {:induction false} InstantServesTokens(b: Budget, now: nat, n: nat)
    requires Reachable(b, now)
    ensures Granted(b, Repeated(now, n)) == Min(n, Refill(b, now).tokens)
    ensures n > 0 ==>
              After(b, Repeated(now, n))
              == Refill(b, now).(tokens := Refill(b, now).tokens - Min(n, Refill(b, now).tokens))
  {
    if n > 0 {
      InstantServesTokens(b, now, n - 1);
      assert Repeated(now, n)[..n - 1] == Repeated(now, n - 1);
      RefillCatchesUp(b, now);
    }
  }

  /** A bucket left alone for eight intervals, or never used, absorbs a burst of eight at one instant. */
  lemma IdleRestoresBurst(b: Budget, start: nat, now: nat, n: nat)
    requires Reachable(b, start) && (b.lastRefill.Some? ==> now >= start + 8 * 50) && now >= start
    ensures Granted(b, Repeated(now, n)) == Min(n, 8)
  {
    InstantServesTokens(b, now, n);
    if b.lastRefill.Some? {
      var earned := (now - b.lastRefill.value) / RATE_MS;
      assert earned >= 8;
    }
  }

  /** A run cut in two. */
  lemma {:induction false} RunsCompose(b: Budget, first: seq<nat>, rest: seq<nat>)
    ensures After(b, first + rest) == After(After(b, first), rest)
    ensures Granted(b, first + rest) == Granted(b, first) + Granted(After(b, first), rest)
  {
    hide Take;
    if rest == [] {
      assert first + rest == first;
    } else {
      var n := |rest| - 1;
      var both := first + rest;
      assert both[|both| - 1] == rest[n] && both[..|both| - 1] == first + rest[..n];
      RunsCompose(b, first, rest[..n]);
    }
  }
}
