/** What polling sends, and to whom: exactly the peers for which something is due. */
module DevicePolls {
  import opened Common
  import opened Symbolic
  import opened Noise
  import opened Transport
  import opened Timers
  import opened Device
  import opened DeviceSessions

  // ---------------------------------------------------------------------
  // Keepalives.

  /** Data arrived ten seconds ago or more, nothing has been sent since, and there is a session to send under. */
  predicate Owed(p: Peer, now: nat) {
    && p.armed.Some? && now >= p.armed.value + 10_000
    && p.current.Some? && Live(p.current.value, now) && p.current.value.confirmed
  }

  /** The first peer from `i` on that is owed a keepalive. */
  predicate FirstOwed(d: State, i: nat, k: nat, now: nat) {
    i <= k < |d.peers| && Owed(d.peers[k], now) && forall q :: i <= q < k ==> !Owed(d.peers[q], now)
  }

  predicate NoneOwed(d: State, i: nat, now: nat) {
    forall q :: i <= q < |d.peers| ==> !Owed(d.peers[q], now)
  }

  lemma OwedIsDue(p: Peer, now: nat)
    ensures Owed(p, now) <==>
            KeepaliveIsDue(p.armed, now) && Expire(p, now).current.Some? && Expire(p, now).current.value.confirmed
    ensures Owed(Expire(p, now), now) == Owed(p, now)
  {
    RetiredIsExpired(p, now);
  }

  /** An empty message under the next counter. */
  function KeepaliveUnder(s: Session): DataMsg
    requires s.sendCounter < 0xFFFF_FFFF_FFFF_FFFF
  {
    DataMsg(s.peerIndex, s.sendCounter, Sealed(s.sending, s.sendCounter, Empty, Raw([])), 16)
  }

  /** Who was owed a keepalive still is, except the peer just served. */
  predicate ServesOne(d: State, after: State, a: Action, now: nat) {
    && |after.peers| == |d.peers|
    && forall q :: 0 <= q < |d.peers| ==>
         Owed(after.peers[q], now) == (Owed(d.peers[q], now) && !(a.Send? && a.peer == q))
  }

  /** One call of `poll_timers` serves the first peer that is owed a keepalive, and sends nothing only if none is. */
  lemma {:induction false} PollServesFirst(d: State, i: nat, now: nat, room: nat)
    requires i <= |d.peers| && room >= 32
    ensures var (after, a) := PollTimersFrom(d, i, now, room);
            && ServesOne(d, after, a, now)
            && (NoneOwed(d, i, now) ==> a == NoAction)
            && (forall k: nat :: FirstOwed(d, i, k, now) ==>
                  a == Send(k, DataDatagram(KeepaliveUnder(d.peers[k].current.value))) && after.peers[k].armed.None?)
    decreases |d.peers| - i
  {
    if i < |d.peers| {
      var d1 := d.With(i, Expire(d.peers[i], now));
      if Owed(d.peers[i], now) {
        PollServes(d, i, now, room);
        hide PollTimersFrom, Owed;
      } else {
        PollPasses(d, i, now, room);
        OwedIsDue(d.peers[i], now);
        hide PollTimersFrom, Owed;
        PollServesFirst(d1, i + 1, now, room);
        forall k: nat | FirstOwed(d, i, k, now) ensures FirstOwed(d1, i + 1, k, now) && d1.peers[k] == d.peers[k] {
        }
        assert NoneOwed(d, i, now) ==> NoneOwed(d1, i + 1, now);
      }
    } else {
      assert PollTimersFrom(d, i, now, room) == (d, NoAction);
    }
  }

  lemma PollServes(d: State, i: nat, now: nat, room: nat)
    requires i < |d.peers| && Owed(d.peers[i], now) && room >= 32
    ensures var (after, a) := PollTimersFrom(d, i, now, room);
            && a == Send(i, DataDatagram(KeepaliveUnder(d.peers[i].current.value)))
            && |after.peers| == |d.peers| && after.peers[i].armed.None? && !Owed(after.peers[i], now)
            && forall q :: 0 <= q < |d.peers| && q != i ==> after.peers[q] == d.peers[q]
  {
    hide Live, IsUsable, Seal, KeepaliveIsDue;
    OwedIsDue(d.peers[i], now);
    RetiredIsExpired(d.peers[i], now);
    SealsKeepalive(d.peers[i].current.value, now, room);
  }

  lemma PollPasses(d: State, i: nat, now: nat, room: nat)
    requires i < |d.peers| && !Owed(d.peers[i], now)
    ensures PollTimersFrom(d, i, now, room) == PollTimersFrom(d.With(i, Expire(d.peers[i], now)), i + 1, now, room)
  {
    hide Live, IsUsable, Seal, KeepaliveIsDue;
    OwedIsDue(d.peers[i], now);
  }

  lemma SealsKeepalive(s: Session, now: nat, room: nat)
    requires Live(s, now) && room >= 32
    ensures Seal(s, [], room) == (s.(sendCounter := s.sendCounter + 1),
              Ok(KeepaliveUnder(s)))
  {
    assert Pad([]) == [];
  }

  /** How many keepalives a row of polls at one instant sends to one peer. */
  function KeepalivesTo(d: State, k: nat, now: nat, rooms: seq<nat>): nat
    decreases |rooms|
  {
    if rooms == [] then 0
    else
      var (d', a) := PollTimersFrom(d, 0, now, rooms[0]);
      (if a.Send? && a.peer == k then 1 else 0) + KeepalivesTo(d', k, now, rooms[1..])
  }

  /** How many peers before `n` are owed one. */
  function OwedBelow(d: State, n: nat, now: nat): nat
    requires n <= |d.peers|
  {
    if n == 0 then 0 else OwedBelow(d, n - 1, now) + if Owed(d.peers[n - 1], now) then 1 else 0
  }

  lemma {:induction false} OwedBelowAgree(d: State, e: State, n: nat, now: nat, served: nat)
    requires n <= |d.peers| == |e.peers|
    requires forall q :: 0 <= q < |d.peers| ==> Owed(e.peers[q], now) == (Owed(d.peers[q], now) && q != served)
    requires served < |d.peers| && Owed(d.peers[served], now)
    ensures OwedBelow(e, n, now) == OwedBelow(d, n, now) - if served < n then 1 else 0
  {
    hide Owed;
    if n > 0 {
      OwedBelowAgree(d, e, n - 1, now, served);
    }
  }

  lemma {:induction false} SomeOwed(d: State, n: nat, now: nat) returns (k: nat)
    requires n <= |d.peers| && exists q :: 0 <= q < n && Owed(d.peers[q], now)
    ensures FirstOwed(d, 0, k, now) && k < n
  {
    hide Owed;
    if exists q :: 0 <= q < n - 1 && Owed(d.peers[q], now) {
      k := SomeOwed(d, n - 1, now);
    } else {
      k := n - 1;
    }
  }

  /**
   Polled at one instant at least once for every peer that is owed a keepalive, the
   device sends exactly one to each of them and none to anyone else.
   */
  lemma {:induction false} EveryoneIsKeptAlive(d: State, k: nat, now: nat, rooms: seq<nat>)
    requires k < |d.peers| && |rooms| >= OwedBelow(d, |d.peers|, now)
    requires forall j :: 0 <= j < |rooms| ==> rooms[j] >= 32
    ensures KeepalivesTo(d, k, now, rooms) == if Owed(d.peers[k], now) then 1 else 0
    decreases |rooms|
  {
    hide Owed;
    if rooms == [] {
      OwedCounts(d, |d.peers|, k, now);
    } else {
      var (d', a) := PollTimersFrom(d, 0, now, rooms[0]);
      PollServesFirst(d, 0, now, rooms[0]);
      if exists q :: 0 <= q < |d.peers| && Owed(d.peers[q], now) {
        var f := SomeOwed(d, |d.peers|, now);
        OwedBelowAgree(d, d', |d.peers|, now, f);
      } else {
        OwedNone(d', |d.peers|, now);
      }
      EveryoneIsKeptAlive(d', k, now, rooms[1..]);
    }
  }

  lemma {:induction false} OwedCounts(d: State, n: nat, k: nat, now: nat)
    requires k < n <= |d.peers|
    ensures Owed(d.peers[k], now) ==> OwedBelow(d, n, now) > 0
  {
    hide Owed;
    if k < n - 1 {
      OwedCounts(d, n - 1, k, now);
    }
  }

  lemma {:induction false} OwedNone(d: State, n: nat, now: nat)
    requires n <= |d.peers| && forall q :: 0 <= q < n ==> !Owed(d.peers[q], now)
    ensures OwedBelow(d, n, now) == 0
  {
    hide Owed;
    if n > 0 {
      OwedNone(d, n - 1, now);
    }
  }

  // ---------------------------------------------------------------------
  // Handshakes.

  /**
   This side starts, there is no session that is both live and younger than two
   minutes, and the last attempt, if any, is five seconds old.
   */
  predicate Calls(p: Peer, now: nat) {
    && p.initiating
    && (p.current.Some? && Live(p.current.value, now) ==> now >= p.current.value.established + 120_000)
    && (p.pendingLastSent.Some? ==> now >= p.pendingLastSent.value + 5_000)
  }

  lemma CallsIsWants(p: Peer, now: nat)
    ensures Calls(p, now) <==> WantsHandshake(p, now)
    ensures Calls(Expire(p, now), now) == Calls(p, now)
  {
    if p.current.Some? {
      LiveIsUsable(p.current.value, now);
    }
  }

  predicate FirstCalled(d: State, i: nat, k: nat, now: nat) {
    i <= k < |d.peers| && Calls(d.peers[k], now) && forall q :: i <= q < k ==> !Calls(d.peers[q], now)
  }

  predicate NoneCalled(d: State, i: nat, now: nat) {
    forall q :: i <= q < |d.peers| ==> !Calls(d.peers[q], now)
  }

  /** What a started handshake leaves. */
  predicate Started(p: Peer, q: Peer, h: Handshake, now: nat) {
    && q.pending == Some(h) && q.pendingLastSent == Some(now)
    && q.pendingSince == (if p.pendingSince.Some? then p.pendingSince else Some(now))
    && q.lastTimestamp == p.lastTimestamp && q.armed == p.armed && q.initiating
  }

  /** Every peer has a key that a call can be made to. */
  predicate Callable(d: State) {
    forall q :: 0 <= q < |d.peers| ==> d.peers[q].public.PublicOf?
  }

  /**
   One call of `poll_handshakes` calls the first peer that is due for it, with the
   message `create_initiation` makes, as long as there is a token; otherwise nobody.
   */
  lemma {:induction false} PollCallsFirst(
    d: State, i: nat, now: nat, timestamp: seq<byte>, draws: seq<Draw>, room: nat)
    requires i <= |d.peers| == |draws| && room >= 148 && Callable(d)
    ensures var (after, a) := PollHandshakesFrom(d, i, now, timestamp, draws, room);
            && |after.peers| == |d.peers| && Callable(after) && after.private == d.private
            && (NoneCalled(d, i, now) ==> a == NoAction && after.budget == d.budget)
            && (!NoneCalled(d, i, now) ==> after.budget == Take(d.budget, now).0)
            && (!NoneCalled(d, i, now) && !Take(d.budget, now).1 ==> a == NoAction)
            && (forall k: nat :: FirstCalled(d, i, k, now) && Take(d.budget, now).1 ==>
                  var made := CreateInitiation(
                    d.private, d.Public(), d.peers[k].public, draws[k].index, draws[k].secret, timestamp, room);
                  && made.Ok? && a == Send(k, InitiationDatagram(made.value.0))
                  && Started(d.peers[k], after.peers[k], made.value.1, now))
            && (forall q :: 0 <= q < |d.peers| ==>
                  Calls(after.peers[q], now) == (Calls(d.peers[q], now) && !(a.Send? && a.peer == q)))
    decreases |d.peers| - i
  {
    hide Live, IsUsable, Take, CreateInitiation, WantsHandshake;
    if i < |d.peers| {
      CallsIsWants(d.peers[i], now);
      CallsIsWants(Expire(d.peers[i], now), now);
      var p := Expire(d.peers[i], now);
      var d1 := d.With(i, p);
      if Calls(d.peers[i], now) {
        CanCall(d, d.peers[i].public, draws[i], timestamp, room);
        assert FirstCalled(d, i, i, now);
      } else {
        PollCallsFirst(d1, i + 1, now, timestamp, draws, room);
        forall k: nat | FirstCalled(d, i, k, now) ensures FirstCalled(d1, i + 1, k, now) && d1.peers[k] == d.peers[k] {
        }
        NoneCalledRest(d, d1, i, now);
      }
    }
  }

  lemma NoneCalledRest(d: State, e: State, i: nat, now: nat)
    requires i < |d.peers| == |e.peers| && !Calls(d.peers[i], now)
    requires forall q :: i < q < |d.peers| ==> e.peers[q] == d.peers[q]
    ensures NoneCalled(d, i, now) <==> NoneCalled(e, i + 1, now)
  {
    hide Calls;
    if NoneCalled(e, i + 1, now) {
      forall q | i <= q < |d.peers| ensures !Calls(d.peers[q], now) {
        assert q > i ==> e.peers[q] == d.peers[q];
      }
    }
    if NoneCalled(d, i, now) {
      forall q | i + 1 <= q < |d.peers| ensures !Calls(e.peers[q], now) {
        assert e.peers[q] == d.peers[q];
      }
    }
  }

  lemma CanCall(d: State, public: PublicKey, draw: Draw, timestamp: seq<byte>, room: nat)
    requires public.PublicOf? && room >= 148
    ensures CreateInitiation(d.private, d.Public(), public, draw.index, draw.secret, timestamp, room).Ok?
  {
  }

  /** How many calls a row of polls at one instant makes to one peer. */
  function CallsTo(d: State, k: nat, now: nat, timestamp: seq<byte>, polls: seq<seq<Draw>>, room: nat): nat
    decreases |polls|
  {
    if polls == [] then 0
    else if |polls[0]| != |d.peers| then CallsTo(d, k, now, timestamp, polls[1..], room)
    else
      var (d', a) := PollHandshakesFrom(d, 0, now, timestamp, polls[0], room);
      (if a.Send? && a.peer == k then 1 else 0) + CallsTo(d', k, now, timestamp, polls[1..], room)
  }

  function CalledBelow(d: State, n: nat, now: nat): nat
    requires n <= |d.peers|
  {
    if n == 0 then 0 else CalledBelow(d, n - 1, now) + if Calls(d.peers[n - 1], now) then 1 else 0
  }

  lemma {:induction false} CalledBelowAgree(d: State, e: State, n: nat, now: nat, served: nat)
    requires n <= |d.peers| == |e.peers|
    requires forall q :: 0 <= q < |d.peers| ==> Calls(e.peers[q], now) == (Calls(d.peers[q], now) && q != served)
    requires served < |d.peers| && Calls(d.peers[served], now)
    ensures CalledBelow(e, n, now) == CalledBelow(d, n, now) - if served < n then 1 else 0
  {
    hide Calls;
    if n > 0 {
      CalledBelowAgree(d, e, n - 1, now, served);
    }
  }

  lemma {:induction false} SomeCalled(d: State, n: nat, now: nat) returns (k: nat)
    requires n <= |d.peers| && exists q :: 0 <= q < n && Calls(d.peers[q], now)
    ensures FirstCalled(d, 0, k, now) && k < n
  {
    hide Calls;
    if exists q :: 0 <= q < n - 1 && Calls(d.peers[q], now) {
      k := SomeCalled(d, n - 1, now);
    } else {
      k := n - 1;
    }
  }

  lemma {:induction false} CalledCounts(d: State, n: nat, k: nat, now: nat)
    requires k < n <= |d.peers|
    ensures Calls(d.peers[k], now) ==> CalledBelow(d, n, now) > 0
  {
    hide Calls;
    if k < n - 1 {
      CalledCounts(d, n - 1, k, now);
    }
  }

  lemma {:induction false} CalledNone(d: State, n: nat, now: nat)
    requires n <= |d.peers| && forall q :: 0 <= q < n ==> !Calls(d.peers[q], now)
    ensures CalledBelow(d, n, now) == 0
  {
    hide Calls;
    if n > 0 {
      CalledNone(d, n - 1, now);
    }
  }

  /**
   Polled at one instant at least once for every peer due for a call, with a token for
   each, the device calls exactly those, once each.
   */
  lemma {:induction false} EveryoneIsCalled(
    d: State, k: nat, now: nat, timestamp: seq<byte>, polls: seq<seq<Draw>>, room: nat)
    requires k < |d.peers| && room >= 148 && Callable(d)
    requires |polls| >= CalledBelow(d, |d.peers|, now) && forall j :: 0 <= j < |polls| ==> |polls[j]| == |d.peers|
    requires Refill(d.budget, now).tokens >= CalledBelow(d, |d.peers|, now)
    ensures CallsTo(d, k, now, timestamp, polls, room) == if Calls(d.peers[k], now) then 1 else 0
    decreases |polls|
  {
    hide Calls;
    if polls == [] {
      CalledCounts(d, |d.peers|, k, now);
    } else {
      var (d', a) := PollHandshakesFrom(d, 0, now, timestamp, polls[0], room);
      PollCallsFirst(d, 0, now, timestamp, polls[0], room);
      if exists q :: 0 <= q < |d.peers| && Calls(d.peers[q], now) {
        var f := SomeCalled(d, |d.peers|, now);
        CalledCounts(d, |d.peers|, f, now);
        assert !NoneCalled(d, 0, now);
        TokensLeft(d.budget, now);
        CalledBelowAgree(d, d', |d.peers|, now, f);
      } else {
        CalledNone(d, |d.peers|, now);
        CalledNone(d', |d.peers|, now);
      }
      EveryoneIsCalled(d', k, now, timestamp, polls[1..], room);
    }
  }

  lemma TokensLeft(b: Budget, now: nat)
    requires Refill(b, now).tokens > 0
    ensures Take(b, now).1 && Refill(Take(b, now).0, now).tokens == Refill(b, now).tokens - 1
  {
  }
}
