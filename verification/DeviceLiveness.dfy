/**
 Bounds over runs of a device: timestamps accepted from a peer only move
 forward, keepalives are paid for by deliveries, polling at one instant ends,
 and handshake work obeys the token bucket.
 */
module DeviceLiveness {
  import opened Common
  import opened Symbolic
  import opened Noise
  import opened Transport
  import opened Timers
  import opened Device
  import opened DeviceRuns

  // ---------------------------------------------------------------------
  // What the loops over peers leave alone.

  /** `poll_timers` and `open_data` touch only sessions and the keepalive timer. */
  predicate SessionsOnly(d: State, after: State) {
    && |after.peers| == |d.peers|
    && forall i :: 0 <= i < |d.peers| ==>
         after.peers[i] == d.peers[i].(current := after.peers[i].current, previous := after.peers[i].previous,
                                       armed := after.peers[i].armed)
  }

  lemma {:induction false} OpenDataFrame(d: State, i: nat, m: DataMsg, now: nat, room: nat)
    ensures var (after, out) := OpenDataFrom(d, i, m, now, room);
            && SessionsOnly(d, after)
            && !(out.Ok? && out.value.Send?)
            && after.budget == d.budget
            && forall p :: 0 <= p < |d.peers| ==>
                 if out.Ok? && out.value.Receive? && out.value.peer == p then after.peers[p].armed.Some?
                 else after.peers[p].armed == d.peers[p].armed
    decreases |d.peers| - i
  {
    hide OpenAt, Match;
    if i < |d.peers| {
      var d1 := d.With(i, Expire(d.peers[i], now));
      var slot := Match(d1.peers[i], m.receiver);
      if slot == Neither {
        OpenDataFrame(d1, i + 1, m, now, room);
      } else {
        OpenAtFrame(d1, i, slot, m, now, room);
      }
    }
  }

  lemma OpenAtFrame(d: State, i: nat, slot: Slot, m: DataMsg, now: nat, room: nat)
    requires i < |d.peers| && slot == Match(d.peers[i], m.receiver) != Neither
    ensures var (after, out) := OpenAt(d, i, slot, m, now, room);
            && SessionsOnly(d, after)
            && !(out.Ok? && out.value.Send?)
            && after.budget == d.budget
            && forall p :: 0 <= p < |d.peers| ==>
                 if out.Ok? && out.value.Receive? && out.value.peer == p then after.peers[p].armed.Some?
                 else after.peers[p].armed == d.peers[p].armed
  {
    hide OpenMsg, PacketLen;
  }

  lemma {:induction false} PollTimersFrame(d: State, i: nat, now: nat, room: nat)
    ensures var (after, a) := PollTimersFrom(d, i, now, room);
            && SessionsOnly(d, after)
            && after.budget == d.budget
            && !a.Receive?
            && (a.Send? ==> a.peer < |d.peers| && a.msg.DataDatagram? && KeepaliveIsDue(d.peers[a.peer].armed, now))
            && forall p :: 0 <= p < |d.peers| ==>
                 after.peers[p].armed == if a.Send? && a.peer == p then None else d.peers[p].armed
    decreases |d.peers| - i
  {
    if i < |d.peers| {
      var d1 := d.With(i, Expire(d.peers[i], now));
      var p := d1.peers[i];
      if KeepaliveIsDue(p.armed, now) && p.current.Some? && p.current.value.confirmed
         && SendUnder(d1, i, [], room).1.Ok?
      {
        assert d.peers[i].armed == p.armed;
      } else {
        PollTimersFrame(d1, i + 1, now, room);
        assert PollTimersFrom(d, i, now, room) == PollTimersFrom(d1, i + 1, now, room);
        var a := PollTimersFrom(d1, i + 1, now, room).1;
        if a.Send? {
          assert d1.peers[a.peer].armed == d.peers[a.peer].armed;
        }
      }
    }
  }

  /** One peer under `poll_handshakes`: its timestamp and timer stay, and it wants
      a handshake afterwards exactly when it did before and was not just sent one. */
  predicate Polled(p: Peer, p': Peer, now: nat, sent: bool) {
    && p'.armed == p.armed
    && p'.lastTimestamp == p.lastTimestamp
    && (WantsHandshake(p', now) <==> WantsHandshake(p, now) && !sent)
  }

  lemma StartPolled(d: State, i: nat, now: nat, timestamp: seq<byte>, draw: Draw, room: nat)
    requires i < |d.peers|
    ensures var (after, r) := StartHandshake(d, i, now, timestamp, draw, room);
            && |after.peers| == |d.peers|
            && Polled(d.peers[i], after.peers[i], now, r.Ok?)
            && forall p :: 0 <= p < |d.peers| && p != i ==> after.peers[p] == d.peers[p]
  {
    hide Take, CreateInitiation;
  }

  lemma {:induction false} PollHandshakesFrame(
    d: State, i: nat, now: nat, timestamp: seq<byte>, draws: seq<Draw>, room: nat)
    requires |draws| == |d.peers|
    ensures var (after, a) := PollHandshakesFrom(d, i, now, timestamp, draws, room);
            && |after.peers| == |d.peers|
            && !a.Receive?
            && (a.Send? ==>
                  && i <= a.peer < |d.peers|
                  && a.msg.InitiationDatagram? && WantsHandshake(d.peers[a.peer], now))
            && forall p :: 0 <= p < |d.peers| ==> Polled(d.peers[p], after.peers[p], now, a.Send? && a.peer == p)
    decreases |d.peers| - i
  {
    hide StartHandshake;
    if i < |d.peers| {
      var d1 := d.With(i, Expire(d.peers[i], now));
      assert Polled(d.peers[i], d1.peers[i], now, false);
      if !WantsHandshake(d1.peers[i], now) {
        PollHandshakesFrame(d1, i + 1, now, timestamp, draws, room);
      } else {
        StartPolled(d1, i, now, timestamp, draws[i], room);
        var (d2, r) := StartHandshake(d1, i, now, timestamp, draws[i], room);
        if r.Err? && r.error != RateLimited {
          PollHandshakesFrame(d2, i + 1, now, timestamp, draws, room);
        }
      }
    }
  }

  // ---------------------------------------------------------------------
  // Timestamps.

  /** The peer and timestamp of an initiation that was answered. */
  function AcceptedStamp(m: Moment): Option<(nat, seq<byte>)> {
    if m.event.CallHandleUdp? && m.event.datagram.InitiationDatagram? && m.out.Ok? && m.out.value.Send? then
      var seen := ConsumeInitiation(m.before.private, m.before.Public(), m.before.Mac(), m.event.datagram.initiation);
      if seen.Ok? then Some((m.out.value.peer, seen.value.timestamp)) else None
    else None
  }

  /** What a call does to the newest stamp on file for each peer. */
  ghost predicate StampMoves(d: State, after: State, accepted: Option<(nat, seq<byte>)>) {
    && |after.peers| >= |d.peers|
    && (accepted.Some? ==> accepted.value.0 < |d.peers| && |accepted.value.1| == TIMESTAMP_LEN)
    && forall p :: 0 <= p < |d.peers| ==>
         if accepted.Some? && accepted.value.0 == p then
           && after.peers[p].lastTimestamp == Some(accepted.value.1)
           && (d.peers[p].lastTimestamp.Some? ==>
                 TimestampIsNewer(accepted.value.1, d.peers[p].lastTimestamp.value))
         else after.peers[p].lastTimestamp == d.peers[p].lastTimestamp
  }

  /** Handshake messages leave the keepalive timer unset and file at most the stamp they carry. */
  lemma HandshakeFrame(d: State, e: Event)
    requires e.CallHandleUdp? && !e.datagram.DataDatagram?
    ensures var (after, out) := Step(d, e);
            && |after.peers| == |d.peers|
            && StampMoves(d, after, AcceptedStamp(Moment(d, e, out)))
            && !(out.Ok? && out.value.Receive?)
            && forall p :: 0 <= p < |d.peers| && after.peers[p].armed.Some? ==> d.peers[p].armed.Some?
  {
    hide RespondToInitiation, HandleResponse;
    match e.datagram {
      case InitiationDatagram(m) =>
        InitiationFrame(d, m, e.now, e.draw, e.room);
        assert Step(d, e) == RespondToInitiation(d, m, e.now, e.draw, e.room);
      case ResponseDatagram(m) => ResponseFrame(d, m, e.now, e.room);
      case _ =>
    }
  }

  lemma InitiationFrame(d: State, m: InitiationMsg, now: nat, draw: Draw, room: nat)
    ensures var (after, out) := RespondToInitiation(d, m, now, draw, room);
            && !(out.Ok? && out.value.Receive?)
            && (out.Ok? ==> out.value.Send?)
            && (out.Err? ==> after.peers == d.peers)
            && (out.Ok? ==>
                  var seen := ConsumeInitiation(d.private, d.Public(), d.Mac(), m);
                  seen.Ok? && StampMoves(d, after, Some((out.value.peer, seen.value.timestamp))))
            && |after.peers| == |d.peers|
            && forall p :: 0 <= p < |d.peers| && after.peers[p].armed.Some? ==> d.peers[p].armed.Some?
  {
    hide Take, CreateResponse, FindPublic, VerifyInitiationMac1, TimestampIsNewer;
  }

  lemma ResponseFrame(d: State, m: ResponseMsg, now: nat, room: nat)
    ensures var (after, out) := HandleResponse(d, m, now, room);
            && |after.peers| == |d.peers|
            && !(out.Ok? && out.value.Receive?)
            && StampMoves(d, after, None)
            && forall p :: 0 <= p < |d.peers| && after.peers[p].armed.Some? ==> d.peers[p].armed.Some?
  {
    hide Take, ConsumeResponse, FindPending, VerifyResponseMac1, Seal;
  }

  lemma StampsAdvance(d: State, e: Event)
    requires Fits(d, e)
    ensures var (after, out) := Step(d, e); StampMoves(d, after, AcceptedStamp(Moment(d, e, out)))
  {
    hide OpenDataFrom, PollTimersFrom, PollHandshakesFrom, RespondToInitiation, HandleResponse;
    match e {
      case CallPollTimers(now, room) => PollTimersFrame(d, 0, now, room);
      case CallPollHandshakes(now, timestamp, draws, room) => PollHandshakesFrame(d, 0, now, timestamp, draws, room);
      case CallHandleUdp(datagram, now, draw, room) =>
        if datagram.DataDatagram? {
          OpenDataFrame(d, 0, datagram.data, now, room);
        } else {
          HandshakeFrame(d, e);
        }
      case _ =>
    }
  }

  /** The newest stamp on file is at least as late as every stamp accepted so far. */
  ghost predicate StampsOnFile(d: State, ms: seq<Moment>) {
    forall k :: 0 <= k < |ms| && AcceptedStamp(ms[k]).Some? ==>
      var (p, stamp) := AcceptedStamp(ms[k]).value;
      && p < |d.peers| && d.peers[p].lastTimestamp.Some?
      && |stamp| == TIMESTAMP_LEN == |d.peers[p].lastTimestamp.value|
      && BigEndian(stamp) <= BigEndian(d.peers[p].lastTimestamp.value)
  }

  ghost predicate StampsIncrease(ms: seq<Moment>) {
    forall j, k :: 0 <= j < k < |ms| && AcceptedStamp(ms[j]).Some? && AcceptedStamp(ms[k]).Some?
                   && AcceptedStamp(ms[j]).value.0 == AcceptedStamp(ms[k]).value.0 ==>
      BigEndian(AcceptedStamp(ms[j]).value.1) < BigEndian(AcceptedStamp(ms[k]).value.1)
  }

  lemma StampsStep(d: State, ms: seq<Moment>, m: Moment, after: State)
    requires StampsOnFile(d, ms) && StampsIncrease(ms)
    requires StampMoves(d, after, AcceptedStamp(m))
    ensures StampsOnFile(after, ms + [m]) && StampsIncrease(ms + [m])
  {
    var accepted := AcceptedStamp(m);
    if accepted.Some? && d.peers[accepted.value.0].lastTimestamp.Some? {
      var last := d.peers[accepted.value.0].lastTimestamp.value;
      if |last| == TIMESTAMP_LEN {
        NewerIsLater(accepted.value.1, last);
      }
    }
  }

  /** In every run, the initiations a peer gets answered carry strictly increasing times. */
  lemma {:induction false} TimestampsStrictlyIncrease(private: Secret, capacity: nat, events: seq<Event>)
    ensures StampsIncrease(Moments(private, capacity, events))
    ensures StampsOnFile(StateAfter(private, capacity, events), Moments(private, capacity, events))
  {
    if events != [] {
      var n := |events| - 1;
      TimestampsStrictlyIncrease(private, capacity, events[..n]);
      var d := StateAfter(private, capacity, events[..n]);
      if Fits(d, events[n]) {
        var (after, out) := Step(d, events[n]);
        StampsAdvance(d, events[n]);
        StampsStep(d, Moments(private, capacity, events[..n]), Moment(d, events[n], out), after);
      } else {
        assert Moments(private, capacity, events) == Moments(private, capacity, events[..n]);
      }
    }
  }

  // ---------------------------------------------------------------------
  // Keepalives.

  predicate IsKeepalive(m: Moment, p: nat) {
    m.event.CallPollTimers? && m.out.Ok? && m.out.value.Send? && m.out.value.peer == p
  }

  predicate IsDelivery(m: Moment, p: nat) {
    m.out.Ok? && m.out.value.Receive? && m.out.value.peer == p
  }

  function Keepalives(ms: seq<Moment>, p: nat): nat {
    if ms == [] then 0 else Keepalives(ms[..|ms| - 1], p) + if IsKeepalive(ms[|ms| - 1], p) then 1 else 0
  }

  function Deliveries(ms: seq<Moment>, p: nat): nat {
    if ms == [] then 0 else Deliveries(ms[..|ms| - 1], p) + if IsDelivery(ms[|ms| - 1], p) then 1 else 0
  }

  function Debt(d: State, p: nat): nat {
    if p < |d.peers| && d.peers[p].armed.Some? then 1 else 0
  }

  lemma DebtMoves(d: State, e: Event, p: nat)
    requires Fits(d, e)
    ensures var m := Moment(d, e, Step(d, e).1);
            var paid, earned := if IsKeepalive(m, p) then 1 else 0, if IsDelivery(m, p) then 1 else 0;
            paid + Debt(Step(d, e).0, p) <= Debt(d, p) + earned
  {
    hide OpenDataFrom, PollTimersFrom, PollHandshakesFrom, RespondToInitiation, HandleResponse, StampMoves;
    match e {
      case CallPollTimers(now, room) => PollTimersFrame(d, 0, now, room);
      case CallPollHandshakes(now, timestamp, draws, room) => PollHandshakesFrame(d, 0, now, timestamp, draws, room);
      case CallHandleUdp(datagram, now, draw, room) =>
        if datagram.DataDatagram? {
          OpenDataFrame(d, 0, datagram.data, now, room);
        } else {
          HandshakeFrame(d, e);
        }
      case _ =>
    }
  }

  /** Over any run, the keepalives sent to a peer never outnumber the packets delivered from it. */
  lemma {:induction false} KeepalivesArePaidFor(private: Secret, capacity: nat, events: seq<Event>, p: nat)
    ensures var ms := Moments(private, capacity, events);
            Keepalives(ms, p) + Debt(StateAfter(private, capacity, events), p) <= Deliveries(ms, p)
  {
    if events != [] {
      var n := |events| - 1;
      KeepalivesArePaidFor(private, capacity, events[..n], p);
      var d := StateAfter(private, capacity, events[..n]);
      if Fits(d, events[n]) {
        DebtMoves(d, events[n], p);
        var ms := Moments(private, capacity, events[..n]);
        assert (ms + [Moment(d, events[n], Step(d, events[n]).1)])[..|ms|] == ms;
      } else {
        assert Moments(private, capacity, events) == Moments(private, capacity, events[..n]);
      }
    }
  }

  // ---------------------------------------------------------------------
  // Polling at one instant.

  ghost function Due(d: State, now: nat): set<nat> {
    set i: nat | i < |d.peers| && KeepaliveIsDue(d.peers[i].armed, now)
  }

  ghost function Wanting(d: State, now: nat): set<nat> {
    set i: nat | i < |d.peers| && WantsHandshake(d.peers[i], now)
  }

  /** How many of a row of `poll_timers` calls at one instant send something. */
  function TimerSends(d: State, now: nat, rooms: seq<nat>): nat
    decreases |rooms|
  {
    if rooms == [] then 0
    else
      var (d', a) := PollTimersFrom(d, 0, now, rooms[0]);
      (if a.Send? then 1 else 0) + TimerSends(d', now, rooms[1..])
  }

  function HandshakeSends(d: State, now: nat, timestamp: seq<byte>, polls: seq<(seq<Draw>, nat)>): nat
    decreases |polls|
  {
    if polls == [] then 0
    else if |polls[0].0| != |d.peers| then HandshakeSends(d, now, timestamp, polls[1..])
    else
      var (d', a) := PollHandshakesFrom(d, 0, now, timestamp, polls[0].0, polls[0].1);
      (if a.Send? then 1 else 0) + HandshakeSends(d', now, timestamp, polls[1..])
  }

  function Below(n: nat): (r: set<nat>) {
    if n == 0 then {} else Below(n - 1) + {n - 1}
  }

  lemma {:induction false} BelowHasAll(n: nat)
    ensures |Below(n)| <= n
    ensures forall x: nat :: x < n ==> x in Below(n)
  {
    if n > 0 {
      BelowHasAll(n - 1);
    }
  }

  lemma AtMost(s: set<nat>, n: nat)
    requires forall x: nat :: x in s ==> x < n
    ensures |s| <= n
  {
    BelowHasAll(n);
    assert Below(n) == s + (Below(n) - s);
  }

  /** Polling `poll_timers` at one instant sends at most one keepalive to each peer, however long it goes on. */
  lemma {:induction false} TimerPollsEnd(d: State, now: nat, rooms: seq<nat>)
    ensures TimerSends(d, now, rooms) <= |Due(d, now)| <= |d.peers|
    decreases |rooms|
  {
    AtMost(Due(d, now), |d.peers|);
    if rooms != [] {
      var (d', a) := PollTimersFrom(d, 0, now, rooms[0]);
      PollTimersFrame(d, 0, now, rooms[0]);
      TimerPollsEnd(d', now, rooms[1..]);
      assert Due(d', now) == if a.Send? then Due(d, now) - {a.peer} else Due(d, now);
    }
  }

  /** The same for `poll_handshakes`: one initiation per peer at one instant. */
  lemma {:induction false} HandshakePollsEnd(d: State, now: nat, timestamp: seq<byte>, polls: seq<(seq<Draw>, nat)>)
    ensures HandshakeSends(d, now, timestamp, polls) <= |Wanting(d, now)| <= |d.peers|
    decreases |polls|
  {
    AtMost(Wanting(d, now), |d.peers|);
    if polls != [] {
      if |polls[0].0| != |d.peers| {
        HandshakePollsEnd(d, now, timestamp, polls[1..]);
      } else {
        var (d', a) := PollHandshakesFrom(d, 0, now, timestamp, polls[0].0, polls[0].1);
        PollHandshakesFrame(d, 0, now, timestamp, polls[0].0, polls[0].1);
        HandshakePollsEnd(d', now, timestamp, polls[1..]);
        assert Wanting(d', now) == if a.Send? then Wanting(d, now) - {a.peer} else Wanting(d, now);
      }
    }
  }

  // ---------------------------------------------------------------------
  // Handshake work and the token bucket.

  /** A call that did handshake work: it sent an initiation, answered one, or completed a handshake. */
  predicate DidWork(e: Event, out: Outcome) {
    out.Ok? && out.value.Send? &&
    (!out.value.msg.DataDatagram? || (e.CallHandleUdp? && e.datagram.ResponseDatagram?))
  }

  function WorkIn(d: State, events: seq<Event>): nat
    decreases |events|
  {
    if events == [] then 0
    else if !Fits(d, events[0]) then WorkIn(d, events[1..])
    else
      var (d', out) := Step(d, events[0]);
      (if DidWork(events[0], out) then 1 else 0) + WorkIn(d', events[1..])
  }

  /** The clock starts at `from`, never runs backwards and does not pass `to`. */
  predicate Timely(events: seq<Event>, from: nat, to: nat)
    decreases |events|
  {
    from <= to &&
    (events != [] ==>
       if Clock(events[0]).Some? then from <= Clock(events[0]).value && Timely(events[1..], Clock(events[0]).value, to)
       else Timely(events[1..], from, to))
  }

  /** The token requests of a call, all at its own time; each piece of work is covered by a granted one. */
  lemma StepTakes(d: State, e: Event) returns (times: seq<nat>)
    requires Fits(d, e)
    ensures forall i :: 0 <= i < |times| ==> Clock(e) == Some(times[i])
    ensures Step(d, e).0.budget == After(d.budget, times)
    ensures (if DidWork(e, Step(d, e).1) then 1 else 0) <= Granted(d.budget, times)
  {
    match e {
      case CallPollHandshakes(now, timestamp, draws, room) => times := PollTakes(d, 0, now, timestamp, draws, room);
      case CallPollTimers(now, room) =>
        PollTimersFrame(d, 0, now, room);
        times := [];
      case CallStartHandshake(peer, now, _, _, _) =>
        times := if peer < |d.peers| then [now] else [];
        OneTake(d.budget, now);
      case CallHandleUdp(datagram, now, draw, room) =>
        OneTake(d.budget, now);
        match datagram {
          case DataDatagram(m) =>
            OpenDataFrame(d, 0, m, now, room);
            times := [];
          case InitiationDatagram(m) =>
            times := if VerifyInitiationMac1(d.Mac(), m).Ok? then [now] else [];
          case ResponseDatagram(m) =>
            times := if VerifyResponseMac1(d.Mac(), m).Ok? && FindPending(d.peers, m.receiver).Some? then [now] else [];
          case _ => times := [];
        }
      case _ => times := [];
    }
  }

  lemma OneTake(b: Budget, now: nat)
    ensures After(b, [now]) == Take(b, now).0
    ensures Granted(b, [now]) == if Take(b, now).1 then 1 else 0
  {
    assert [now][..0] == [];
  }

  lemma {:induction false} PollTakes(
    d: State, i: nat, now: nat, timestamp: seq<byte>, draws: seq<Draw>, room: nat) returns (times: seq<nat>)
    requires |draws| == |d.peers|
    ensures var (after, a) := PollHandshakesFrom(d, i, now, timestamp, draws, room);
            && after.budget == After(d.budget, times)
            && (if a.Send? then 1 else 0) <= Granted(d.budget, times)
    ensures forall k :: 0 <= k < |times| ==> times[k] == now
    decreases |d.peers| - i
  {
    hide StartHandshake, Take, After, Granted, WantsHandshake;
    times := [];
    NoTakes(d.budget);
    if i < |d.peers| {
      var d1 := d.With(i, Expire(d.peers[i], now));
      if !WantsHandshake(d1.peers[i], now) {
        times := PollTakes(d1, i + 1, now, timestamp, draws, room);
      } else {
        OneTake(d.budget, now);
        StartTakes(d1, i, now, timestamp, draws[i], room);
        var (d2, r) := StartHandshake(d1, i, now, timestamp, draws[i], room);
        if r.Err? && r.error != RateLimited {
          var rest := PollTakes(d2, i + 1, now, timestamp, draws, room);
          times := [now] + rest;
          Split(d.budget, times);
          assert times[1..] == rest;
        } else {
          times := [now];
        }
      }
    }
  }

  lemma NoTakes(b: Budget)
    ensures After(b, []) == b && Granted(b, []) == 0
  {
  }

  lemma StartTakes(d: State, i: nat, now: nat, timestamp: seq<byte>, draw: Draw, room: nat)
    requires i < |d.peers|
    ensures var (after, r) := StartHandshake(d, i, now, timestamp, draw, room);
            && |after.peers| == |d.peers|
            && after.budget == Take(d.budget, now).0
            && (r.Ok? ==> Take(d.budget, now).1)
  {
    hide Take, CreateInitiation;
  }

  lemma {:induction false} WorkTakes(d: State, events: seq<Event>, from: nat, to: nat) returns (times: seq<nat>)
    requires Timely(events, from, to)
    ensures NonDecreasing(times) && forall i :: 0 <= i < |times| ==> from <= times[i] <= to
    ensures WorkIn(d, events) <= Granted(d.budget, times)
    decreases |events|
  {
    times := [];
    if events != [] {
      var e := events[0];
      var from' := if Clock(e).Some? then Clock(e).value else from;
      if !Fits(d, e) {
        times := WorkTakes(d, events[1..], from', to);
      } else {
        var own := StepTakes(d, e);
        assert from' <= to;
        var rest := WorkTakes(Step(d, e).0, events[1..], from', to);
        RunsCompose(d.budget, own, rest);
        times := own + rest;
      }
    }
  }

  /**
   The bound on handshake work: from any state whose bucket is reachable, over
   any stretch of calls on a clock that does not run backwards, initiations
   sent, initiations answered and handshakes completed together number at most
   eight plus one for every fifty milliseconds begun.
   */
  lemma HandshakeWorkIsBounded(d: State, events: seq<Event>, from: nat, to: nat)
    requires Timely(events, from, to) && Reachable(d.budget, from)
    ensures WorkIn(d, events) <= BURST + (to - from + RATE_MS - 1) / RATE_MS
  {
    var times := WorkTakes(d, events, from, to);
    if times != [] {
      assert NonDecreasing([from] + times);
      RateLimit(d.budget, from, times);
      assert Since(times[|times| - 1], times[0]) <= to - from;
    }
  }
}
