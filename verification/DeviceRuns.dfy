/** When the session indices of a device stay distinct, over every run. */
module DeviceRuns {
  import opened Common
  import opened Symbolic
  import opened Noise
  import opened Transport
  import opened Timers
  import opened Device

  /** One call of a run: the state before it, the call and what it returned. */
  datatype Moment = Moment(before: State, event: Event, out: Outcome)

  function Moments(private: Secret, capacity: nat, events: seq<Event>): seq<Moment> {
    if events == [] then []
    else
      var n := |events| - 1;
      var d := StateAfter(private, capacity, events[..n]);
      Moments(private, capacity, events[..n])
      + if Fits(d, events[n]) then [Moment(d, events[n], Step(d, events[n]).1)] else []
  }

  // ---------------------------------------------------------------------
  // Session indices.

  function IndexOf(s: Option<Session>): set<int> {
    if s.Some? then {s.value.localIndex} else {}
  }

  function PendingIndex(p: Peer): set<int> {
    if p.pending.Some? then {p.pending.value.localIndex} else {}
  }

  function SessionIndices(p: Peer): set<int> {
    IndexOf(p.current) + IndexOf(p.previous)
  }

  function Indices(p: Peer): set<int> {
    SessionIndices(p) + PendingIndex(p)
  }

  /** Every current and previous session of every peer has an index of its own. */
  ghost predicate UniqueSessions(d: State) {
    && (forall i :: 0 <= i < |d.peers| ==> IndexOf(d.peers[i].current) !! IndexOf(d.peers[i].previous))
    && (forall i, j :: 0 <= i < j < |d.peers| ==> SessionIndices(d.peers[i]) !! SessionIndices(d.peers[j]))
  }

  /** The same with the handshakes in flight counted in. */
  ghost predicate UniqueIndices(d: State) {
    && (forall i :: 0 <= i < |d.peers| ==>
          && IndexOf(d.peers[i].current) !! IndexOf(d.peers[i].previous)
          && SessionIndices(d.peers[i]) !! PendingIndex(d.peers[i]))
    && (forall i, j :: 0 <= i < j < |d.peers| ==> Indices(d.peers[i]) !! Indices(d.peers[j]))
  }

  /** What `allocate_index` ensures, plus what it does not look at: the draw is
      neither a live session's index nor a pending handshake's. */
  predicate Unclaimed(d: State, index: u32) {
    forall i :: 0 <= i < |d.peers| ==> index !in Indices(d.peers[i])
  }

  predicate DrawsUnclaimed(d: State, e: Event) {
    match e
    case CallHandleUdp(_, _, draw, _) => Unclaimed(d, draw.index)
    case CallStartHandshake(_, _, _, draw, _) => Unclaimed(d, draw.index)
    case CallPollHandshakes(now, _, draws, _) =>
      // The loop has retired the stale sessions of the peers it has reached.
      forall i :: 0 <= i < |draws| ==> Unclaimed(ExpiredRange(d, 0, i + 1, now), draws[i].index)
    case _ => true
  }

  lemma ReplaceIndices(d: State, i: nat, p: Peer, new_: set<int>)
    requires UniqueIndices(d) && i < |d.peers|
    requires forall j :: 0 <= j < |d.peers| ==> new_ !! Indices(d.peers[j])
    requires Indices(p) <= Indices(d.peers[i]) + new_
    requires IndexOf(p.current) !! IndexOf(p.previous) && SessionIndices(p) !! PendingIndex(p)
    ensures UniqueIndices(d.With(i, p))
  {
    var d' := d.With(i, p);
    forall j, k | 0 <= j < k < |d'.peers| ensures Indices(d'.peers[j]) !! Indices(d'.peers[k]) {
      assert Indices(d.peers[j]) !! Indices(d.peers[k]);
    }
  }

  lemma ExpireIndices(d: State, i: nat, now: nat)
    requires UniqueIndices(d) && i < |d.peers|
    ensures UniqueIndices(d.With(i, Expire(d.peers[i], now)))
    ensures Indices(Expire(d.peers[i], now)) <= Indices(d.peers[i])
  {
    ReplaceIndices(d, i, Expire(d.peers[i], now), {});
  }

  lemma {:induction false} PollHandshakesIndices(
    d: State, i: nat, now: nat, timestamp: seq<byte>, draws: seq<Draw>, room: nat)
    requires UniqueIndices(d) && |draws| == |d.peers|
    requires forall k :: i <= k < |draws| ==> Unclaimed(ExpiredRange(d, i, k + 1, now), draws[k].index)
    ensures UniqueIndices(PollHandshakesFrom(d, i, now, timestamp, draws, room).0)
    decreases |d.peers| - i
  {
    if i < |d.peers| {
      ExpireIndices(d, i, now);
      var d1 := d.With(i, Expire(d.peers[i], now));
      assert ExpiredRange(d, i, i + 1, now) == d1;
      forall k | i < k < |draws| ensures Unclaimed(ExpiredRange(d1, i + 1, k + 1, now), draws[k].index) {
        assert ExpiredRange(d1, i + 1, k + 1, now) == ExpiredRange(d, i, k + 1, now);
      }
      if !WantsHandshake(d1.peers[i], now) {
        PollHandshakesIndices(d1, i + 1, now, timestamp, draws, room);
      } else {
        var (d2, r) := StartHandshake(d1, i, now, timestamp, draws[i], room);
        StartIndices(d1, i, now, timestamp, draws[i], room);
        if r.Err? && r.error != RateLimited {
          forall k | i < k < |draws| ensures Unclaimed(ExpiredRange(d2, i + 1, k + 1, now), draws[k].index) {
            assert ExpiredRange(d2, i + 1, k + 1, now).peers == ExpiredRange(d1, i + 1, k + 1, now).peers;
            assert Unclaimed(ExpiredRange(d1, i + 1, k + 1, now), draws[k].index);
          }
          PollHandshakesIndices(d2, i + 1, now, timestamp, draws, room);
        }
      }
    }
  }

  lemma StartIndices(d: State, peer: nat, now: nat, timestamp: seq<byte>, draw: Draw, room: nat)
    requires UniqueIndices(d) && Unclaimed(d, draw.index)
    ensures UniqueIndices(StartHandshake(d, peer, now, timestamp, draw, room).0)
  {
    var (after, r) := StartHandshake(d, peer, now, timestamp, draw, room);
    if r.Ok? {
      ReplaceIndices(d.(budget := after.budget), peer, after.peers[peer], {draw.index});
    }
  }

  lemma {:induction false} OpenDataIndices(d: State, i: nat, m: DataMsg, now: nat, room: nat)
    requires UniqueIndices(d)
    ensures UniqueIndices(OpenDataFrom(d, i, m, now, room).0)
    decreases |d.peers| - i
  {
    if i < |d.peers| {
      ExpireIndices(d, i, now);
      var d1 := d.With(i, Expire(d.peers[i], now));
      var slot := Match(d1.peers[i], m.receiver);
      if slot == Neither {
        OpenDataIndices(d1, i + 1, m, now, room);
      } else {
        var after := OpenAt(d1, i, slot, m, now, room).0;
        ReplaceIndices(d1, i, after.peers[i], {});
        assert after == d1.With(i, after.peers[i]);
      }
    }
  }

  lemma {:induction false} PollTimersIndices(d: State, i: nat, now: nat, room: nat)
    requires UniqueIndices(d)
    ensures UniqueIndices(PollTimersFrom(d, i, now, room).0)
    decreases |d.peers| - i
  {
    if i < |d.peers| {
      ExpireIndices(d, i, now);
      var p := Expire(d.peers[i], now);
      var d1 := d.With(i, p);
      if !KeepaliveIsDue(p.armed, now) || p.current.None? || !p.current.value.confirmed {
        PollTimersIndices(d1, i + 1, now, room);
      } else {
        SendIndices(d1, i, [], room);
        if SendUnder(d1, i, [], room).1.Err? {
          PollTimersIndices(d1, i + 1, now, room);
        }
      }
    }
  }

  lemma SendIndices(d: State, i: nat, packet: seq<byte>, room: nat)
    requires UniqueIndices(d) && i < |d.peers| && d.peers[i].current.Some?
    ensures UniqueIndices(SendUnder(d, i, packet, room).0)
  {
    var after := SendUnder(d, i, packet, room).0;
    ReplaceIndices(d, i, after.peers[i], {});
    assert after == d.With(i, after.peers[i]);
  }

  lemma RespondIndices(d: State, m: InitiationMsg, now: nat, draw: Draw, room: nat)
    requires UniqueIndices(d) && Unclaimed(d, draw.index)
    ensures UniqueIndices(RespondToInitiation(d, m, now, draw, room).0)
  {
    var (after, out) := RespondToInitiation(d, m, now, draw, room);
    if out.Ok? {
      var i := out.value.peer;
      ReplaceIndices(d.(budget := after.budget), i, after.peers[i], {draw.index});
      assert after == d.(budget := after.budget).With(i, after.peers[i]);
    }
  }

  lemma CompleteIndices(d: State, m: ResponseMsg, now: nat)
    requires UniqueIndices(d)
    ensures UniqueIndices(CompleteHandshake(d, m, now).0)
  {
    var (after, r) := CompleteHandshake(d, m, now);
    if r.Ok? {
      ReplaceIndices(d.(budget := after.budget), r.value, after.peers[r.value], {});
      assert after == d.(budget := after.budget).With(r.value, after.peers[r.value]);
    }
  }

  lemma UdpIndices(d: State, e: Event)
    requires UniqueIndices(d) && e.CallHandleUdp? && Unclaimed(d, e.draw.index)
    ensures UniqueIndices(Step(d, e).0)
  {
    match e.datagram {
      case InitiationDatagram(m) => RespondIndices(d, m, e.now, e.draw, e.room);
      case ResponseDatagram(m) =>
        CompleteIndices(d, m, e.now);
        var (d1, r) := CompleteHandshake(d, m, e.now);
        if r.Ok? {
          SendIndices(d1, r.value, [], e.room);
        }
      case DataDatagram(m) => OpenDataIndices(d, 0, m, e.now, e.room);
      case _ =>
    }
  }

  lemma StepIndices(d: State, e: Event)
    requires UniqueIndices(d) && Fits(d, e) && DrawsUnclaimed(d, e)
    ensures UniqueIndices(Step(d, e).0)
  {
    match e {
      case CallHandleUdp(_, _, _, _) => UdpIndices(d, e);
      case CallStartHandshake(peer, now, timestamp, draw, room) => StartIndices(d, peer, now, timestamp, draw, room);
      case CallPollHandshakes(now, timestamp, draws, room) => PollHandshakesIndices(d, 0, now, timestamp, draws, room);
      case CallPollTimers(now, room) => PollTimersIndices(d, 0, now, room);
      case CallEncapsulate(peer, packet, now, room) =>
        if peer < |d.peers| {
          ExpireIndices(d, peer, now);
          var d1 := d.With(peer, Expire(d.peers[peer], now));
          var current := d1.peers[peer].current;
          if current.Some? && current.value.confirmed {
            SendIndices(d1, peer, packet, room);
          }
        }
      case CallSetInitiating(peer, on) =>
        if peer < |d.peers| {
          ReplaceIndices(d, peer, Step(d, e).0.peers[peer], {});
        }
      case CallAddPeer(_, _) =>
    }
  }

  /**
   In every run whose index draws avoid live sessions and pending handshakes,
   all current and previous session indices of all peers are distinct.
   */
  lemma {:induction false} IndicesStayUnique(private: Secret, capacity: nat, events: seq<Event>)
    requires forall m :: m in Moments(private, capacity, events) ==> DrawsUnclaimed(m.before, m.event)
    ensures UniqueIndices(StateAfter(private, capacity, events))
    ensures UniqueSessions(StateAfter(private, capacity, events))
  {
    if events != [] {
      var n := |events| - 1;
      IndicesStayUnique(private, capacity, events[..n]);
      var d := StateAfter(private, capacity, events[..n]);
      if Fits(d, events[n]) {
        assert Moment(d, events[n], Step(d, events[n]).1) in Moments(private, capacity, events);
        StepIndices(d, events[n]);
      }
    }
    UniqueGivesSessions(StateAfter(private, capacity, events));
  }

  lemma UniqueGivesSessions(d: State)
    requires UniqueIndices(d)
    ensures UniqueSessions(d)
  {
    forall i, j | 0 <= i < j < |d.peers| ensures SessionIndices(d.peers[i]) !! SessionIndices(d.peers[j]) {
      assert Indices(d.peers[i]) !! Indices(d.peers[j]);
    }
  }

  /** A device that only answers: nobody starts a handshake. */
  predicate NeverStarts(events: seq<Event>) {
    forall i :: 0 <= i < |events| ==> !events[i].CallStartHandshake? && !events[i].CallPollHandshakes?
  }

  predicate NothingPending(d: State) {
    forall i :: 0 <= i < |d.peers| ==> d.peers[i].pending.None?
  }

  /** For a device that only answers, what `allocate_index` checks is enough. */
  lemma {:induction false} ResponderIndicesUnique(private: Secret, capacity: nat, events: seq<Event>)
    requires NeverStarts(events)
    requires forall m :: m in Moments(private, capacity, events) && m.event.CallHandleUdp? ==>
                           !Taken(m.before, m.event.draw.index)
    ensures NothingPending(StateAfter(private, capacity, events))
    ensures UniqueSessions(StateAfter(private, capacity, events))
  {
    ResponderInvariant(private, capacity, events);
    UniqueGivesSessions(StateAfter(private, capacity, events));
  }

  lemma {:induction false} ResponderInvariant(private: Secret, capacity: nat, events: seq<Event>)
    requires NeverStarts(events)
    requires forall m :: m in Moments(private, capacity, events) && m.event.CallHandleUdp? ==>
                           !Taken(m.before, m.event.draw.index)
    ensures NothingPending(StateAfter(private, capacity, events))
    ensures UniqueIndices(StateAfter(private, capacity, events))
  {
    if events != [] {
      var n := |events| - 1;
      assert forall i :: 0 <= i < n ==> events[..n][i] == events[i];
      ResponderInvariant(private, capacity, events[..n]);
      var d := StateAfter(private, capacity, events[..n]);
      var e := events[n];
      if Fits(d, e) {
        assert Moment(d, e, Step(d, e).1) in Moments(private, capacity, events);
        if e.CallHandleUdp? {
          forall i | 0 <= i < |d.peers| ensures e.draw.index !in Indices(d.peers[i]) {
            assert !UsesIndex(d.peers[i], e.draw.index);
          }
        }
        StepIndices(d, e);
        PendingOnlyFromStart(d, e);
      }
    }
  }

  lemma PendingOnlyFromStart(d: State, e: Event)
    requires NothingPending(d) && Fits(d, e) && !e.CallStartHandshake? && !e.CallPollHandshakes?
    ensures NothingPending(Step(d, e).0)
  {
    match e {
      case CallPollTimers(now, room) => PollTimersPending(d, 0, now, room);
      case CallHandleUdp(datagram, now, draw, room) =>
        if datagram.DataDatagram? {
          OpenDataPending(d, 0, datagram.data, now, room);
        }
      case _ =>
    }
  }

  lemma {:induction false} PollTimersPending(d: State, i: nat, now: nat, room: nat)
    requires NothingPending(d)
    ensures NothingPending(PollTimersFrom(d, i, now, room).0)
    decreases |d.peers| - i
  {
    if i < |d.peers| {
      PollTimersPending(d.With(i, Expire(d.peers[i], now)), i + 1, now, room);
    }
  }

  lemma {:induction false} OpenDataPending(d: State, i: nat, m: DataMsg, now: nat, room: nat)
    requires NothingPending(d)
    ensures NothingPending(OpenDataFrom(d, i, m, now, room).0)
    decreases |d.peers| - i
  {
    if i < |d.peers| {
      OpenDataPending(d.With(i, Expire(d.peers[i], now)), i + 1, m, now, room);
    }
  }

  /**
   Exactly when completing a handshake keeps session indices distinct: when no
   session that survives it already uses the index drawn when it was started.
   */
  lemma CompletionKeepsUniqueIff(d: State, m: ResponseMsg, now: nat)
    requires UniqueSessions(d) && CompleteHandshake(d, m, now).1.Ok?
    ensures var (after, r) := CompleteHandshake(d, m, now);
            UniqueSessions(after) <==>
              && m.receiver !in IndexOf(d.peers[r.value].current)
              && forall j :: 0 <= j < |d.peers| && j != r.value ==> m.receiver !in SessionIndices(d.peers[j])
  {
    var (after, r) := CompleteHandshake(d, m, now);
    var i := r.value;
    assert forall j :: 0 <= j < |d.peers| && j != i ==> after.peers[j] == d.peers[j];
    assert SessionIndices(after.peers[i]) == {m.receiver} + IndexOf(d.peers[i].current);
    if UniqueSessions(after) {
      forall j | 0 <= j < |d.peers| && j != i ensures m.receiver !in SessionIndices(d.peers[j]) {
        assert SessionIndices(after.peers[Min(i, j)]) !! SessionIndices(after.peers[Max(i, j)]);
      }
    } else {
      forall a, b | 0 <= a < b < |d.peers| ensures SessionIndices(d.peers[a]) !! SessionIndices(d.peers[b]) {
      }
    }
  }

  // ---------------------------------------------------------------------
  // The exact condition for whole runs.

  lemma ReplaceSessions(d: State, i: nat, p: Peer, new_: set<int>)
    requires UniqueSessions(d) && i < |d.peers|
    requires forall j :: 0 <= j < |d.peers| ==> new_ !! SessionIndices(d.peers[j])
    requires SessionIndices(p) <= SessionIndices(d.peers[i]) + new_ && IndexOf(p.current) !! IndexOf(p.previous)
    ensures UniqueSessions(d.With(i, p))
  {
    var d' := d.With(i, p);
    forall j, k | 0 <= j < k < |d'.peers| ensures SessionIndices(d'.peers[j]) !! SessionIndices(d'.peers[k]) {
      assert SessionIndices(d.peers[j]) !! SessionIndices(d.peers[k]);
    }
  }

  lemma ExpireSessions(d: State, i: nat, now: nat)
    requires UniqueSessions(d) && i < |d.peers|
    ensures UniqueSessions(d.With(i, Expire(d.peers[i], now)))
  {
    ReplaceSessions(d, i, Expire(d.peers[i], now), {});
  }

  lemma {:induction false} PollHandshakesSessions(
    d: State, i: nat, now: nat, timestamp: seq<byte>, draws: seq<Draw>, room: nat)
    requires UniqueSessions(d) && |draws| == |d.peers|
    ensures UniqueSessions(PollHandshakesFrom(d, i, now, timestamp, draws, room).0)
    decreases |d.peers| - i
  {
    if i < |d.peers| {
      ExpireSessions(d, i, now);
      var d1 := d.With(i, Expire(d.peers[i], now));
      if !WantsHandshake(d1.peers[i], now) {
        PollHandshakesSessions(d1, i + 1, now, timestamp, draws, room);
      } else {
        var (d2, r) := StartHandshake(d1, i, now, timestamp, draws[i], room);
        StartSessions(d1, i, now, timestamp, draws[i], room);
        if r.Err? && r.error != RateLimited {
          PollHandshakesSessions(d2, i + 1, now, timestamp, draws, room);
        }
      }
    }
  }

  lemma StartSessions(d: State, peer: nat, now: nat, timestamp: seq<byte>, draw: Draw, room: nat)
    requires UniqueSessions(d)
    ensures UniqueSessions(StartHandshake(d, peer, now, timestamp, draw, room).0)
  {
    var (after, r) := StartHandshake(d, peer, now, timestamp, draw, room);
    if r.Ok? {
      ReplaceSessions(d.(budget := after.budget), peer, after.peers[peer], {});
    }
  }

  lemma {:induction false} OpenDataSessions(d: State, i: nat, m: DataMsg, now: nat, room: nat)
    requires UniqueSessions(d)
    ensures UniqueSessions(OpenDataFrom(d, i, m, now, room).0)
    decreases |d.peers| - i
  {
    if i < |d.peers| {
      ExpireSessions(d, i, now);
      var d1 := d.With(i, Expire(d.peers[i], now));
      var slot := Match(d1.peers[i], m.receiver);
      if slot == Neither {
        OpenDataSessions(d1, i + 1, m, now, room);
      } else {
        var after := OpenAt(d1, i, slot, m, now, room).0;
        ReplaceSessions(d1, i, after.peers[i], {});
        assert after == d1.With(i, after.peers[i]);
      }
    }
  }

  lemma {:induction false} PollTimersSessions(d: State, i: nat, now: nat, room: nat)
    requires UniqueSessions(d)
    ensures UniqueSessions(PollTimersFrom(d, i, now, room).0)
    decreases |d.peers| - i
  {
    if i < |d.peers| {
      ExpireSessions(d, i, now);
      var p := Expire(d.peers[i], now);
      var d1 := d.With(i, p);
      if !KeepaliveIsDue(p.armed, now) || p.current.None? || !p.current.value.confirmed {
        PollTimersSessions(d1, i + 1, now, room);
      } else {
        SendSessions(d1, i, [], room);
        if SendUnder(d1, i, [], room).1.Err? {
          PollTimersSessions(d1, i + 1, now, room);
        }
      }
    }
  }

  lemma SendSessions(d: State, i: nat, packet: seq<byte>, room: nat)
    requires i < |d.peers| && d.peers[i].current.Some?
    ensures UniqueSessions(SendUnder(d, i, packet, room).0) <==> UniqueSessions(d)
  {
    var after := SendUnder(d, i, packet, room).0;
    assert after == d.With(i, after.peers[i]);
    assert d == after.With(i, d.peers[i]);
    if UniqueSessions(d) {
      ReplaceSessions(d, i, after.peers[i], {});
    } else if UniqueSessions(after) {
      ReplaceSessions(after, i, d.peers[i], {});
    }
  }

  /** An answer needs no more than what `allocate_index` checks. */
  lemma RespondSessions(d: State, m: InitiationMsg, now: nat, draw: Draw, room: nat)
    requires UniqueSessions(d) && !Taken(d, draw.index)
    ensures UniqueSessions(RespondToInitiation(d, m, now, draw, room).0)
  {
    var (after, out) := RespondToInitiation(d, m, now, draw, room);
    if out.Ok? {
      var i := out.value.peer;
      forall j | 0 <= j < |d.peers| ensures {draw.index as int} !! SessionIndices(d.peers[j]) {
        assert !UsesIndex(d.peers[j], draw.index);
      }
      ReplaceSessions(d.(budget := after.budget), i, after.peers[i], {draw.index});
      assert after == d.(budget := after.budget).With(i, after.peers[i]);
    }
  }

  /** What `allocate_index` ensures of an answer's draw. */
  predicate DrawUntaken(d: State, e: Event) {
    e.CallHandleUdp? && e.datagram.InitiationDatagram? ==> !Taken(d, e.draw.index)
  }

  predicate Completes(d: State, e: Event) {
    e.CallHandleUdp? && e.datagram.ResponseDatagram? && CompleteHandshake(d, e.datagram.response, e.now).1.Ok?
  }

  /** A handshake that completes does so under an index no session that survives it uses. */
  predicate CompletesSafely(d: State, e: Event) {
    Completes(d, e) ==>
      (var m, i := e.datagram.response, CompleteHandshake(d, e.datagram.response, e.now).1.value;
       && i < |d.peers| && m.receiver !in IndexOf(d.peers[i].current)
       && forall j :: 0 <= j < |d.peers| && j != i ==> m.receiver !in SessionIndices(d.peers[j]))
  }

  /** Every call other than a completion keeps session indices distinct. */
  lemma OtherCallsKeepUnique(d: State, e: Event)
    requires UniqueSessions(d) && Fits(d, e) && DrawUntaken(d, e) && !Completes(d, e)
    ensures UniqueSessions(Step(d, e).0)
  {
    match e {
      case CallHandleUdp(datagram, now, draw, room) =>
        match datagram {
          case InitiationDatagram(m) => RespondSessions(d, m, now, draw, room);
          case DataDatagram(m) => OpenDataSessions(d, 0, m, now, room);
          case _ =>
        }
      case CallStartHandshake(peer, now, timestamp, draw, room) => StartSessions(d, peer, now, timestamp, draw, room);
      case CallPollHandshakes(now, timestamp, draws, room) => PollHandshakesSessions(d, 0, now, timestamp, draws, room);
      case CallPollTimers(now, room) => PollTimersSessions(d, 0, now, room);
      case CallEncapsulate(peer, packet, now, room) =>
        if peer < |d.peers| {
          ExpireSessions(d, peer, now);
          var d1 := d.With(peer, Expire(d.peers[peer], now));
          var current := d1.peers[peer].current;
          if current.Some? && current.value.confirmed {
            SendSessions(d1, peer, packet, room);
          }
        }
      case CallSetInitiating(peer, on) =>
        if peer < |d.peers| {
          ReplaceSessions(d, peer, Step(d, e).0.peers[peer], {});
        }
      case CallAddPeer(_, _) =>
    }
  }

  /** One call: distinct indices stay distinct exactly when a completion, if it is one, is safe. */
  lemma StepKeepsUniqueIff(d: State, e: Event)
    requires UniqueSessions(d) && Fits(d, e) && DrawUntaken(d, e)
    ensures UniqueSessions(Step(d, e).0) <==> CompletesSafely(d, e)
  {
    if Completes(d, e) {
      var m := e.datagram.response;
      var (d1, r) := CompleteHandshake(d, m, e.now);
      CompletionKeepsUniqueIff(d, m, e.now);
      SendSessions(d1, r.value, [], e.room);
    } else {
      OtherCallsKeepUnique(d, e);
    }
  }

  lemma NewIsUnique(private: Secret, capacity: nat)
    ensures UniqueSessions(New(private, capacity))
  {
  }

  /** Distinct at every moment of a run. */
  ghost predicate AlwaysUnique(private: Secret, capacity: nat, events: seq<Event>) {
    forall n :: 0 <= n <= |events| ==> UniqueSessions(StateAfter(private, capacity, events[..n]))
  }

  lemma AlwaysUniqueSplits(private: Secret, capacity: nat, events: seq<Event>)
    requires events != []
    ensures AlwaysUnique(private, capacity, events) <==>
            && AlwaysUnique(private, capacity, events[..|events| - 1])
            && UniqueSessions(StateAfter(private, capacity, events))
    ensures AlwaysUnique(private, capacity, events[..|events| - 1]) ==>
              UniqueSessions(StateAfter(private, capacity, events[..|events| - 1]))
  {
    hide UniqueSessions, StateAfter;
    var past := events[..|events| - 1];
    assert forall k :: 0 <= k <= |past| ==> past[..k] == events[..k];
    assert events[..|events|] == events && past[..|past|] == past;
  }

  /** Every completion of a run was safe. */
  ghost predicate AlwaysSafe(private: Secret, capacity: nat, events: seq<Event>) {
    forall m :: m in Moments(private, capacity, events) ==> CompletesSafely(m.before, m.event)
  }

  lemma MomentsSplit(private: Secret, capacity: nat, events: seq<Event>)
    requires events != []
    ensures var n := |events| - 1;
            var d, past := StateAfter(private, capacity, events[..n]), Moments(private, capacity, events[..n]);
            && (forall m :: m in past ==> m in Moments(private, capacity, events))
            && (Fits(d, events[n]) ==> Moment(d, events[n], Step(d, events[n]).1) in Moments(private, capacity, events))
            && (AlwaysSafe(private, capacity, events) <==>
                  AlwaysSafe(private, capacity, events[..n]) && (Fits(d, events[n]) ==> CompletesSafely(d, events[n])))
  {
    hide CompletesSafely, Step;
    var n := |events| - 1;
    var d, past := StateAfter(private, capacity, events[..n]), Moments(private, capacity, events[..n]);
    if Fits(d, events[n]) {
      var now := Moment(d, events[n], Step(d, events[n]).1);
      assert Moments(private, capacity, events) == past + [now];
    } else {
      assert Moments(private, capacity, events) == past + [];
    }
  }

  /**
   For whole runs: whenever the index of an answer is in no session, as
   `allocate_index` sees to, session indices are distinct at every moment if and
   only if every handshake completed under an index that no surviving session used.
   */
  lemma {:induction false} UniqueThroughoutIff(private: Secret, capacity: nat, events: seq<Event>)
    requires forall m :: m in Moments(private, capacity, events) ==> DrawUntaken(m.before, m.event)
    ensures AlwaysUnique(private, capacity, events) <==> AlwaysSafe(private, capacity, events)
  {
    if events == [] {
      NewIsUnique(private, capacity);
    } else {
      var n := |events| - 1;
      var d := StateAfter(private, capacity, events[..n]);
      MomentsSplit(private, capacity, events);
      AlwaysUniqueSplits(private, capacity, events);
      hide UniqueSessions, CompletesSafely, DrawUntaken, Step, AlwaysUnique, AlwaysSafe, Moments;
      UniqueThroughoutIff(private, capacity, events[..n]);
      if Fits(d, events[n]) && AlwaysUnique(private, capacity, events[..n]) {
        StepKeepsUniqueIff(d, events[n]);
      }
    }
  }

  /** Distinct indices attribute a delivered packet to one session of one peer. */
  lemma {:induction false} DeliveredPeerOwnsIndex(d: State, i: nat, m: DataMsg, now: nat, room: nat)
    requires UniqueSessions(d)
    requires var out := OpenDataFrom(d, i, m, now, room).1; out.Ok? && out.value.Receive?
    ensures var p := OpenDataFrom(d, i, m, now, room).1.value.peer;
            && i <= p < |d.peers| && m.receiver in SessionIndices(d.peers[p])
            && (m.receiver in IndexOf(d.peers[p].current) ==> m.receiver !in IndexOf(d.peers[p].previous))
            && forall q :: 0 <= q < |d.peers| && q != p ==> m.receiver !in SessionIndices(d.peers[q])
    decreases |d.peers| - i
  {
    var p := Expire(d.peers[i], now);
    var d1 := d.With(i, p);
    assert SessionIndices(p) <= SessionIndices(d.peers[i]);
    if Match(p, m.receiver) == Neither {
      forall a, b | 0 <= a < b < |d1.peers| ensures SessionIndices(d1.peers[a]) !! SessionIndices(d1.peers[b]) {
        assert SessionIndices(d.peers[a]) !! SessionIndices(d.peers[b]);
      }
      DeliveredPeerOwnsIndex(d1, i + 1, m, now, room);
      var q := OpenDataFrom(d1, i + 1, m, now, room).1.value.peer;
      assert d1.peers[q] == d.peers[q];
    } else {
      assert m.receiver in SessionIndices(d.peers[i]);
    }
    var q := OpenDataFrom(d, i, m, now, room).1.value.peer;
    forall k | 0 <= k < |d.peers| && k != q ensures m.receiver !in SessionIndices(d.peers[k]) {
      assert SessionIndices(d.peers[Min(k, q)]) !! SessionIndices(d.peers[Max(k, q)]);
    }
  }
}
