/**
 Two devices talking to each other, and the run in which two sessions end up
 with one index.
 */
module DeviceScenarios {
  import opened Common
  import opened Symbolic
  import opened Noise
  import opened Transport
  import opened Timers
  import opened Device
  import opened DeviceRuns
  import Replay

  /** What `s` sends `t` can open, and `t` has seen nothing `s` has yet to send. */
  ghost predicate OneWay(s: Session, t: Session) {
    && s.sending == t.receiving
    && s.peerIndex == t.localIndex
    && forall c :: c in t.accepted ==> c < s.sendCounter
  }

  /** An inner packet that states its own length truthfully and fits the buffers. */
  predicate Carriable(packet: seq<byte>, room: nat) {
    Declares(packet, |packet|) && room >= DATA_HEADER_LEN + PaddedLen(|packet|) + TAG_LEN
  }

  /** Devices `a` and `b` hold the two ends of a live session at `i` and `j`. */
  ghost predicate Linked(a: State, i: nat, b: State, j: nat, now: nat) {
    && i < |a.peers| && a.peers[i].current.Some? && IsUsable(a.peers[i].current.value, now)
    && j < |b.peers| && b.peers[j].current.Some? && IsUsable(b.peers[j].current.value, now)
    && OneWay(a.peers[i].current.value, b.peers[j].current.value)
    && forall q :: 0 <= q < j ==> !UsesIndex(b.peers[q], b.peers[j].current.value.localIndex)
  }

  lemma {:induction false} FindsSession(d: State, k: nat, j: nat, m: DataMsg, now: nat, room: nat)
    requires k <= j < |d.peers| && d.peers[j].current.Some? && IsUsable(d.peers[j].current.value, now)
    requires d.peers[j].current.value.localIndex == m.receiver
    requires forall q :: k <= q < j ==> !UsesIndex(d.peers[q], m.receiver)
    ensures var r := OpenDataFrom(d, k, m, now, room);
            var reached := ExpiredRange(d, k, j + 1, now);
            r == OpenAt(reached, j, Current, m, now, room)
    decreases j - k
  {
    var d1 := d.With(k, Expire(d.peers[k], now));
    if k < j {
      assert !UsesIndex(d.peers[k], m.receiver);
      FindsSession(d1, k + 1, j, m, now, room);
      assert ExpiredRange(d1, k + 1, j + 1, now) == ExpiredRange(d, k, j + 1, now);
    } else {
      assert ExpiredRange(d, k, j + 1, now) == d1;
    }
  }

  /**
   A packet sealed at one end is delivered, byte for byte, at the other, which
   thereby becomes free to answer, and the link is ready for the next packet.
   */
  lemma LinkCarries(a: State, i: nat, b: State, j: nat, packet: seq<byte>, now: nat, draw: Draw, room: nat)
    requires Linked(a, i, b, j, now) && a.peers[i].current.value.confirmed && Carriable(packet, room)
    ensures var (a', out) := Encapsulate(a, i, packet, now, room);
            && out.Ok? && out.value.Send? && out.value.peer == i
            && var (b', got) := HandleUdp(b, out.value.msg, now, draw, room);
            && got == Ok(Receive(j, packet))
            && |a'.peers| == |a.peers| && a'.peers[i].current.Some?
            && |b'.peers| == |b.peers| && b'.peers[j].current.Some? && b'.peers[j].current.value.confirmed
            && OneWay(a'.peers[i].current.value, b'.peers[j].current.value)
  {
    var s, t := a.peers[i].current.value, b.peers[j].current.value;
    var (a', out) := Encapsulate(a, i, packet, now, room);
    var m := Seal(s, packet, room).1.value;
    assert Replay.Fresh(t.accepted, s.sendCounter);
    SealThenOpen(s, t, packet, room);
    PaddingUndone(packet);
    FindsSession(b, 0, j, m, now, room);
    var reached := ExpiredRange(b, 0, j + 1, now);
    assert reached.peers[j].current == Some(t);
    assert Pad(packet)[..|packet|] == packet;
    assert OpenMsg(t, m, room).1 == Ok(Pad(packet));
  }

  /** A single-peer device pointed at `other`. */
  function Pointed(private: Secret, other: Secret, psk: Term): State {
    AddPeer(New(private, 1), PublicOf(other), psk).0
  }

  /**
   From nothing to a working tunnel, for all identities, keys and draws: the
   answer to an initiation may not carry data yet, the initiator's confirmation
   lifts that, and from then on packets pass in both directions.
   */
  lemma TunnelComesUp(
    a: Secret, b: Secret, psk: Term, timestamp: seq<byte>, drawA: Draw, drawB: Draw, other: Draw,
    packet: seq<byte>, now: nat, room: nat)
    requires |timestamp| == TIMESTAMP_LEN && Carriable(packet, room) && room >= INITIATION_LEN
    ensures
      var (a1, first) := StartHandshake(Pointed(a, b, psk), 0, now, timestamp, drawA, room);
      && first.Ok?
      && var (b1, second) := HandleUdp(Pointed(b, a, psk), InitiationDatagram(first.value), now, drawB, room);
      && second.Ok? && second.value.Send?
      && Encapsulate(b1, 0, packet, now, room).1 == Err(Unconfirmed)
      && var (a2, third) := HandleUdp(a1, second.value.msg, now, other, room);
      && third.Ok? && third.value.Send?
      && var (b2, fourth) := HandleUdp(b1, third.value.msg, now, other, room);
      && fourth == Ok(NoAction)
      && Linked(a2, 0, b2, 0, now) && a2.peers[0].current.value.confirmed
      && Linked(b2, 0, a2, 0, now) && b2.peers[0].current.value.confirmed
  {
    var a1, first := Calls(a, b, psk, timestamp, drawA, now, room);
    var b1, msg, keys := Answers(a, b, psk, timestamp, drawA, drawB, now, room);
    var a2, third := HandleUdp(a1, ResponseDatagram(msg), now, other, room).0,
                     HandleUdp(a1, ResponseDatagram(msg), now, other, room).1;
    Confirmed(a1, msg, now, other, room);
    Settles(b1, third.value.msg.data, now, other, room);
  }

  /** The initiator's side of the first message. */
  lemma Calls(a: Secret, b: Secret, psk: Term, timestamp: seq<byte>, draw: Draw, now: nat, room: nat)
    returns (after: State, r: Result<InitiationMsg, Error>)
    requires |timestamp| == TIMESTAMP_LEN && room >= INITIATION_LEN
    ensures (after, r) == StartHandshake(Pointed(a, b, psk), 0, now, timestamp, draw, room)
    ensures var made := CreateInitiation(a, PublicOf(a), PublicOf(b), draw.index, draw.secret, timestamp, room);
            && made.Ok? && r == Ok(made.value.0)
            && |after.peers| == 1 && after.peers[0].pending == Some(made.value.1)
            && after.private == a && after.peers[0].psk == psk && Take(after.budget, now).1
  {
    var d := Pointed(a, b, psk);
    after, r := StartHandshake(d, 0, now, timestamp, draw, room).0, StartHandshake(d, 0, now, timestamp, draw, room).1;
  }

  /** The responder's side, and what the initiator will make of its answer. */
  lemma Answers(
    a: Secret, b: Secret, psk: Term, timestamp: seq<byte>, drawA: Draw, drawB: Draw, now: nat, room: nat)
    returns (after: State, msg: ResponseMsg, keys: TransportKeys)
    requires |timestamp| == TIMESTAMP_LEN && room >= INITIATION_LEN
    ensures var made := CreateInitiation(a, PublicOf(a), PublicOf(b), drawA.index, drawA.secret, timestamp, room);
            && made.Ok?
            && HandleUdp(Pointed(b, a, psk), InitiationDatagram(made.value.0), now, drawB, room)
               == (after, Ok(Send(0, ResponseDatagram(msg))))
            && |after.peers| == 1
            && after.peers[0].current == Some(NewSession(keys, drawB.index, drawA.index, now))
            && msg.receiver == drawA.index
            && VerifyResponseMac1(Mac1Key(PublicOf(a)), msg).Ok?
            && ConsumeResponse(made.value.1, a, psk, msg) ==
               Ok((drawB.index, TransportKeys(keys.sending, keys.receiving)))
  {
    var d := Pointed(b, a, psk);
    var made := CreateInitiation(a, PublicOf(a), PublicOf(b), drawA.index, drawA.secret, timestamp, room).value;
    InitiationReaches(a, PublicOf(b), drawA.index, drawA.secret, timestamp, room, b);
    var seen := ConsumeInitiation(b, PublicOf(b), Mac1Key(PublicOf(b)), made.0).value;
    assert FindPublic(d.peers, PublicOf(a)) == Some(0);
    var r := CreateResponse(seen, psk, drawB.index, drawB.secret, room).value;
    msg, keys := r.0, r.1;
    after := HandleUdp(d, InitiationDatagram(made.0), now, drawB, room).0;
    assert ConsumeResponse(made.1, a, psk, msg) == Ok((drawB.index, TransportKeys(keys.sending, keys.receiving))) by {
      ResponseAcceptedIff(made.1, a, psk, seen, psk, drawB.index, drawB.secret, room);
    }
  }

  /** The confirming keepalive arrives at a responder that has heard nothing yet. */
  lemma Settles(d: State, m: DataMsg, now: nat, draw: Draw, room: nat)
    requires |d.peers| == 1 && d.peers[0].current.Some?
    requires var t := d.peers[0].current.value;
             && t.accepted == {} && IsUsable(t, now) && t.localIndex == m.receiver
             && m == DataMsg(t.localIndex, 0, Sealed(t.receiving, 0, Empty, Raw([])), TAG_LEN)
    ensures var (after, out) := HandleUdp(d, DataDatagram(m), now, draw, room);
            && out == Ok(NoAction) && |after.peers| == 1
            && after.peers[0].current == Some(d.peers[0].current.value.(confirmed := true, accepted := {0}))
  {
    var t := d.peers[0].current.value;
    FindsSession(d, 0, 0, m, now, room);
    assert Replay.Fresh(t.accepted, 0);
    assert t.accepted + {0} == {0};
    assert OpenMsg(t, m, room) == (t.(accepted := {0}), Ok([]));
  }

  /** A response that completes the only handshake in flight: what the initiator then holds and sends. */
  lemma Confirmed(d: State, m: ResponseMsg, now: nat, draw: Draw, room: nat)
    requires |d.peers| == 1 && d.peers[0].pending.Some? && room >= INITIATION_LEN
    requires m.receiver == d.peers[0].pending.value.localIndex
    requires VerifyResponseMac1(d.Mac(), m).Ok? && Take(d.budget, now).1
    requires ConsumeResponse(d.peers[0].pending.value, d.private, d.peers[0].psk, m).Ok?
    ensures var (after, out) := HandleUdp(d, ResponseDatagram(m), now, draw, room);
            var keys := ConsumeResponse(d.peers[0].pending.value, d.private, d.peers[0].psk, m).value;
            && |after.peers| == 1
            && after.peers[0].current ==
               Some(Session(m.receiver, keys.0, keys.1.sending, keys.1.receiving, 1, {}, now, true))
            && out == Ok(Send(0, DataDatagram(DataMsg(keys.0, 0, Sealed(keys.1.sending, 0, Empty, Raw([])), TAG_LEN))))
  {
    assert FindPending(d.peers, m.receiver) == Some(0);
    assert Pad([]) == [];
  }

  // ---------------------------------------------------------------------
  // `allocate_index` does not look at handshakes in flight.

  /** Device `a` with peers `b` and `c`, an index, ephemerals for all three and a timestamp. */
  datatype Cast = Cast(a: Secret, b: Secret, c: Secret, x: u32, ea: Secret, eb: Secret, ec: Secret, er: Secret,
                       stamp: seq<byte>)

  predicate Apt(k: Cast) {
    k.b != k.c && |k.stamp| == TIMESTAMP_LEN
  }

  function ToB(k: Cast): (InitiationMsg, Handshake) {
    CreateInitiation(k.a, PublicOf(k.a), PublicOf(k.b), k.x, k.ea, k.stamp, INITIATION_LEN).value
  }

  function FromC(k: Cast): InitiationMsg {
    CreateInitiation(k.c, PublicOf(k.c), PublicOf(k.a), 0, k.ec, k.stamp, INITIATION_LEN).value.0
  }

  /** What `b` learns from the initiation addressed to it. */
  function SeenByB(k: Cast): Initiation {
    Initiation(PublicOf(k.a), PublicOf(k.ea), k.x, k.stamp, ToB(k).1.chainingKey, ToB(k).1.hash)
  }

  function FromB(k: Cast): ResponseMsg {
    CreateResponse(SeenByB(k), Empty, 0, k.eb, RESPONSE_LEN).value.0
  }

  /** `a` starts a handshake with `b` under index `x`; `c` then calls and `x` is
      drawn again; then `b` answers. */
  function Collision(k: Cast): seq<Event> {
    [CallAddPeer(PublicOf(k.b), Empty),
     CallAddPeer(PublicOf(k.c), Empty),
     CallStartHandshake(0, 0, k.stamp, Draw(k.x, k.ea), INITIATION_LEN),
     CallHandleUdp(InitiationDatagram(FromC(k)), 0, Draw(k.x, k.er), INITIATION_LEN),
     CallHandleUdp(ResponseDatagram(FromB(k)), 0, Draw(k.x, k.er), INITIATION_LEN)]
  }

  lemma OneMore(private: Secret, capacity: nat, events: seq<Event>, n: nat)
    requires n < |events| && Fits(StateAfter(private, capacity, events[..n]), events[n])
    ensures StateAfter(private, capacity, events[..n + 1]) ==
            Step(StateAfter(private, capacity, events[..n]), events[n]).0
  {
    assert events[..n + 1][..n] == events[..n];
  }

  function Blank(public: PublicKey): Peer {
    Peer(public, Empty, None, None, None, None, false, None, None, None)
  }

  lemma CollisionConfigured(k: Cast)
    ensures StateAfter(k.a, 2, Collision(k)[..2]) == State(k.a, 2, [Blank(PublicOf(k.b)), Blank(PublicOf(k.c))], FULL)
  {
    var es := Collision(k);
    assert es[..0] == [];
    OneMore(k.a, 2, es, 0);
    OneMore(k.a, 2, es, 1);
  }

  function Started(k: Cast): State {
    State(k.a, 2, [Blank(PublicOf(k.b)).(pending := Some(ToB(k).1), pendingSince := Some(0),
        pendingLastSent := Some(0)),
                   Blank(PublicOf(k.c))], Budget(7, Some(0)))
  }

  lemma CollisionStarted(k: Cast)
    ensures StateAfter(k.a, 2, Collision(k)[..3]) == Started(k)
  {
    CollisionConfigured(k);
    OneMore(k.a, 2, Collision(k), 2);
  }

  lemma AnswersC(k: Cast)
    requires Apt(k)
    ensures var after := RespondToInitiation(Started(k), FromC(k), 0, Draw(k.x, k.er), INITIATION_LEN).0;
            && |after.peers| == 2 && after.peers[0] == Started(k).peers[0] && after.private == k.a
            && after.peers[1].current.Some? && after.peers[1].current.value.localIndex == k.x
            && after.budget == Budget(6, Some(0))
  {
    var d := Started(k);
    InitiationReaches(k.c, PublicOf(k.a), 0, k.ec, k.stamp, INITIATION_LEN, k.a);
    assert FindPublic(d.peers, PublicOf(k.c)) == Some(1);
  }

  lemma CompletesB(k: Cast, d: State)
    requires |d.peers| == 2 && d.private == k.a && d.peers[0] == Started(k).peers[0] && d.budget == Budget(6, Some(0))
    ensures var after := HandleResponse(d, FromB(k), 0, INITIATION_LEN).0;
            && |after.peers| == 2 && after.peers[1] == d.peers[1]
            && after.peers[0].current.Some? && after.peers[0].current.value.localIndex == k.x
  {
    assert ConsumeResponse(ToB(k).1, k.a, Empty, FromB(k)).Ok? by {
      ResponseAcceptedIff(ToB(k).1, k.a, Empty, SeenByB(k), Empty, 0, k.eb, RESPONSE_LEN);
    }
    assert FindPending(d.peers, k.x) == Some(0);
    assert CompleteHandshake(d, FromB(k), 0).1 == Ok(0);
  }

  /**
   Index uniqueness is false of runs that start handshakes, for every device,
   pair of peers and index: every index drawn here was in no session at the
   time, and the sessions of both peers end up with it.
   */
  lemma PendingIndexCollides(k: Cast)
    requires Apt(k)
    ensures var d := StateAfter(k.a, 2, Collision(k));
            && !Taken(StateAfter(k.a, 2, Collision(k)[..2]), k.x)
            && !Taken(StateAfter(k.a, 2, Collision(k)[..3]), k.x)
            && |d.peers| == 2
            && k.x in IndexOf(d.peers[0].current) && k.x in IndexOf(d.peers[1].current)
            && !UniqueSessions(d)
  {
    hide StateAfter, Collision, ToB;
    CollisionConfigured(k);
    CollisionStarted(k);
    CollisionEnds(k);
    var d := StateAfter(k.a, 2, Collision(k));
    assert k.x in SessionIndices(d.peers[0]) && k.x in SessionIndices(d.peers[1]);
  }

  /** The last two calls, as the functions they invoke. */
  lemma CollisionUnfolds(k: Cast)
    ensures StateAfter(k.a, 2, Collision(k)) ==
            HandleResponse(RespondToInitiation(Started(k), FromC(k), 0, Draw(k.x, k.er), INITIATION_LEN).0,
                           FromB(k), 0, INITIATION_LEN).0
  {
    var es := Collision(k);
    CollisionStarted(k);
    OneMore(k.a, 2, es, 3);
    OneMore(k.a, 2, es, 4);
    assert es[..5] == es;
  }

  lemma CollisionEnds(k: Cast)
    requires Apt(k)
    ensures var d := StateAfter(k.a, 2, Collision(k));
            |d.peers| == 2 && k.x in IndexOf(d.peers[0].current) && k.x in IndexOf(d.peers[1].current)
  {
    CollisionUnfolds(k);
    AnswersC(k);
    CompletesB(k, RespondToInitiation(Started(k), FromC(k), 0, Draw(k.x, k.er), INITIATION_LEN).0);
  }
}
