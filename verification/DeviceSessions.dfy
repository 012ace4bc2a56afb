/**
 What a device does with each datagram, said of the datagram and of the state
 before it: which session takes a packet and what becomes of it, which calls are
 answered and what a new session leaves of the old one.
 */
module DeviceSessions {
  import opened Common
  import opened Symbolic
  import opened Noise
  import opened Transport
  import opened Timers
  import opened Device
  import Replay

  // ---------------------------------------------------------------------
  // Data.

  /** Younger than three minutes and short of the message limit. */
  predicate Live(s: Session, now: nat) {
    now < s.established + 180_000 && s.sendCounter < 0xFFFF_FFFF_FFFF_DFFF
  }

  lemma LiveIsUsable(s: Session, now: nat)
    ensures IsUsable(s, now) <==> Live(s, now)
  {
  }

  /** The live session of a peer that an index names; the current one goes first. */
  predicate Names(p: Peer, index: u32, now: nat, old_: bool) {
    var byCurrent := p.current.Some? && Live(p.current.value, now) && p.current.value.localIndex == index;
    if old_ then !byCurrent && p.previous.Some? && Live(p.previous.value, now) && p.previous.value.localIndex == index
    else byCurrent
  }

  /** Peer `i` is the first one with a session of this index. */
  predicate Owns(d: State, i: nat, index: u32, now: nat, old_: bool) {
    && i < |d.peers| && Names(d.peers[i], index, now, old_)
    && forall q :: 0 <= q < i ==> !Names(d.peers[q], index, now, false) && !Names(d.peers[q], index, now, true)
  }

  function Under(p: Peer, old_: bool): Session
    requires if old_ then p.previous.Some? else p.current.Some?
  {
    if old_ then p.previous.value else p.current.value
  }

  /** A message sealed by the other end of a session, that arrives in time and fits the buffer. */
  predicate Genuine(s: Session, m: DataMsg, plain: seq<byte>, room: nat) {
    && m.body == Sealed(s.receiving, m.counter, Empty, Raw(plain))
    && m.bodyLen == |plain| + 16 && |plain| % 16 == 0 && |plain| <= room
    && m.counter < 0xFFFF_FFFF_FFFF_DFFF && Replay.Fresh(s.accepted, m.counter)
  }

  function IfLive(s: Option<Session>, now: nat): Option<Session> {
    if s.Some? && Live(s.value, now) then s else None
  }

  /** A peer without the sessions that are past use. */
  function Retired(p: Peer, now: nat): Peer {
    p.(current := IfLive(p.current, now), previous := IfLive(p.previous, now))
  }

  lemma RetiredIsExpired(p: Peer, now: nat)
    ensures Expire(p, now) == Retired(p, now)
  {
  }

  /** The search over peers stops at the owner, with the stale sessions up to it retired. */
  lemma {:induction false} OwnerFound(d: State, k: nat, i: nat, m: DataMsg, now: nat, room: nat, old_: bool)
    requires k <= i && Owns(d, i, m.receiver, now, old_)
    ensures OpenDataFrom(d, k, m, now, room)
         == OpenAt(ExpiredRange(d, k, i + 1, now), i, if old_ then Previous else Current, m, now, room)
    decreases i - k
  {
    hide OpenAt, IsUsable;
    var d1 := d.With(k, Expire(d.peers[k], now));
    MatchIsNames(d.peers[k], m.receiver, now);
    if k < i {
      OwnsAfter(d, k, i, m.receiver, now, old_);
      OwnerFound(d1, k + 1, i, m, now, room, old_);
      assert ExpiredRange(d1, k + 1, i + 1, now) == ExpiredRange(d, k, i + 1, now);
    } else {
      assert ExpiredRange(d, k, i + 1, now) == d1;
    }
  }

  lemma MatchIsNames(p: Peer, index: u32, now: nat)
    ensures Match(Expire(p, now), index) == Current <==> Names(p, index, now, false)
    ensures Match(Expire(p, now), index) == Previous <==> Names(p, index, now, true)
  {
    if p.current.Some? {
      LiveIsUsable(p.current.value, now);
    }
    if p.previous.Some? {
      LiveIsUsable(p.previous.value, now);
    }
  }

  lemma OwnsAfter(d: State, k: nat, i: nat, index: u32, now: nat, old_: bool)
    requires k < i && Owns(d, i, index, now, old_)
    ensures Owns(d.With(k, Expire(d.peers[k], now)), i, index, now, old_)
  {
    MatchIsNames(d.peers[k], index, now);
    MatchIsNames(Expire(d.peers[k], now), index, now);
    assert Expire(Expire(d.peers[k], now), now) == Expire(d.peers[k], now);
  }

  /**
   A genuine message is taken by the session its index names. That session is
   confirmed and becomes, or stays, the peer's current one. If it was the previous
   one, what had replaced it is dropped, since the peer still uses the old keys.
   */
  lemma DataIsTaken(d: State, i: nat, m: DataMsg, plain: seq<byte>, now: nat, draw: Draw, room: nat, old_: bool)
    requires Owns(d, i, m.receiver, now, old_) && Genuine(Under(d.peers[i], old_), m, plain, room)
    ensures var (after, out) := HandleUdp(d, DataDatagram(m), now, draw, room);
            var p, s := d.peers[i], Under(d.peers[i], old_);
            && |after.peers| == |d.peers|
            && after.peers[i].current == Some(s.(accepted := s.accepted + {m.counter}, confirmed := true))
            && after.peers[i].previous == (if old_ then None else IfLive(p.previous, now))
            && after.peers[i].armed == (if out.Ok? && out.value.Receive? && p.armed.None? then Some(now) else p.armed)
            && (plain == [] ==> out == Ok(NoAction))
            && (forall n: nat :: plain != [] && Declares(plain, n) && n <= |plain| ==>
                  out == Ok(Receive(i, plain[..n])))
            && (plain != [] && (forall n: nat :: Declares(plain, n) ==> n > |plain|) ==> out == Err(Malformed))
            && (forall q :: 0 <= q < |d.peers| && q != i ==>
                  after.peers[q] == if q < i then Retired(d.peers[q], now) else d.peers[q])
  {
    OwnerFound(d, 0, i, m, now, room, old_);
    var reached := ExpiredRange(d, 0, i + 1, now);
    var p, s := d.peers[i], Under(d.peers[i], old_);
    LiveIsUsable(s, now);
    RetiredIsExpired(p, now);
    OpenMsgGenuine(s, m, plain, room);
    DeclaredLength(plain);
    hide OpenMsg, PacketLen, Declares, Genuine, Names, IsUsable, Live;
    forall q | 0 <= q < i ensures reached.peers[q] == Retired(d.peers[q], now) {
      RetiredIsExpired(d.peers[q], now);
    }
  }

  lemma OpenMsgGenuine(s: Session, m: DataMsg, plain: seq<byte>, room: nat)
    requires Genuine(s, m, plain, room)
    ensures OpenMsg(s, m, room) == (s.(accepted := s.accepted + {m.counter}), Ok(plain))
  {
  }

  lemma DeclaredLength(plain: seq<byte>)
    ensures forall n: nat :: Declares(plain, n) && n <= |plain| ==> PacketLen(plain) == Some(n)
    ensures (forall n: nat :: Declares(plain, n) ==> n > |plain|) ==> PacketLen(plain).None?
  {
    var len := PacketLen(plain);
    if len.Some? {
      PacketLenIff(plain, len.value);
    }
    forall n: nat | Declares(plain, n) && n <= |plain| ensures len == Some(n) {
      PacketLenIff(plain, n);
    }
  }

  /**
   After a message under the previous session, the next packet for that peer goes
   out under the same session, for as long as it lives.
   */
  lemma PreviousSessionCarriesOn(
    d: State, i: nat, m: DataMsg, plain: seq<byte>, now: nat, draw: Draw, room: nat,
    packet: seq<byte>, later: nat, space: nat)
    requires Owns(d, i, m.receiver, now, true) && Genuine(d.peers[i].previous.value, m, plain, room)
    requires Live(d.peers[i].previous.value, later) && space >= 32 + PaddedLen(|packet|)
    ensures var s := d.peers[i].previous.value;
            var after := HandleUdp(d, DataDatagram(m), now, draw, room).0;
            && |after.peers| == |d.peers|
            && var (_, out) := Encapsulate(after, i, packet, later, space);
               out == Ok(Send(i, DataDatagram(DataMsg(
                 s.peerIndex, s.sendCounter, Sealed(s.sending, s.sendCounter, Empty, Raw(Pad(packet))),
                 PaddedLen(|packet|) + 16))))
  {
    DataIsTaken(d, i, m, plain, now, draw, room, true);
    var s := d.peers[i].previous.value;
    var after := HandleUdp(d, DataDatagram(m), now, draw, room).0;
    hide HandleUdp;
    LiveIsUsable(after.peers[i].current.value, later);
  }

  /** A message whose index no live session has is refused, and nothing but stale sessions goes. */
  lemma {:induction false} UnknownDataRefused(d: State, k: nat, m: DataMsg, now: nat, room: nat)
    requires forall q :: k <= q < |d.peers| ==>
               !Names(d.peers[q], m.receiver, now, false) && !Names(d.peers[q], m.receiver, now, true)
    ensures OpenDataFrom(d, k, m, now, room) == (ExpiredRange(d, k, |d.peers|, now), Err(UnknownSession))
    decreases |d.peers| - k
  {
    if k < |d.peers| {
      MatchIsNames(d.peers[k], m.receiver, now);
      var d1 := d.With(k, Expire(d.peers[k], now));
      UnknownDataRefused(d1, k + 1, m, now, room);
      assert ExpiredRange(d1, k + 1, |d.peers|, now) == ExpiredRange(d, k, |d.peers|, now);
    } else {
      assert ExpiredRange(d, k, |d.peers|, now) == d;
    }
  }

  /** So is a message that its session's other end did not seal, that is late or that does not fit. */
  lemma ForgedDataRefused(d: State, i: nat, m: DataMsg, now: nat, draw: Draw, room: nat, old_: bool)
    requires Owns(d, i, m.receiver, now, old_)
    requires forall plain :: !Genuine(Under(d.peers[i], old_), m, plain, room)
    ensures var (after, out) := HandleUdp(d, DataDatagram(m), now, draw, room);
            out.Err? && after == ExpiredRange(d, 0, i + 1, now)
  {
    OwnerFound(d, 0, i, m, now, room, old_);
    var s := Under(d.peers[i], old_);
    LiveIsUsable(s, now);
    var opened_ := OpenMsg(s, m, room).1;
    if opened_.Ok? {
      assert Genuine(s, m, opened_.value, room);
    }
  }

  // ---------------------------------------------------------------------
  // Handshakes.

  /** Peer `i` is the first one configured with this key. */
  predicate Configured(d: State, i: nat, public: PublicKey) {
    i < |d.peers| && d.peers[i].public == public && forall q :: 0 <= q < i ==> d.peers[q].public != public
  }

  predicate Newer(stamp: seq<byte>, last: Option<seq<byte>>)
    requires |stamp| == TIMESTAMP_LEN
  {
    last.Some? ==> |last.value| == TIMESTAMP_LEN && BigEndian(stamp) > BigEndian(last.value)
  }

  /** A session fresh from a handshake, with the one it replaces kept for packets in flight. */
  predicate Replaces(p: Peer, q: Peer, s: Session) {
    && q.current == Some(s) && q.previous == p.current
    && q.pending.None? && q.pendingSince.None? && q.pendingLastSent.None? && q.armed.None?
    && q.public == p.public && q.psk == p.psk && q.initiating == p.initiating
    && s.sendCounter == 0 && s.accepted == {}
  }

  lemma ConfiguredIsFound(d: State, i: nat, public: PublicKey)
    requires Configured(d, i, public)
    ensures FindPublic(d.peers, public) == Some(i)
  {
  }

  /**
   A configured peer's call is answered if and only if a token is left, its timestamp
   is later than the last one answered and the answer fits. The new session, not yet
   confirmed, takes the place of the current one, which becomes the previous one.
   */
  lemma CallIsAnsweredIff(
    d: State, i: nat, caller: Secret, index: u32, ephemeral: Secret, stamp: seq<byte>, now: nat, draw: Draw, room: nat)
    requires Configured(d, i, PublicOf(caller)) && |stamp| == TIMESTAMP_LEN
    requires d.peers[i].lastTimestamp.Some? ==> |d.peers[i].lastTimestamp.value| == TIMESTAMP_LEN
    ensures var made := CreateInitiation(caller, PublicOf(caller), d.Public(), index, ephemeral, stamp, INITIATION_LEN);
            && made.Ok?
            && var (after, out) := HandleUdp(d, InitiationDatagram(made.value.0), now, draw, room);
            && (out.Ok? <==> Take(d.budget, now).1 && Newer(stamp, d.peers[i].lastTimestamp) && room >= 92)
            && after.budget == Take(d.budget, now).0 && |after.peers| == |d.peers|
            && (forall q :: 0 <= q < |d.peers| && (q != i || out.Err?) ==> after.peers[q] == d.peers[q])
            && (out.Ok? ==>
                  && out.value.Send? && out.value.peer == i && out.value.msg.ResponseDatagram?
                  && after.peers[i].lastTimestamp == Some(stamp)
                  && after.peers[i].current.Some?
                  && var s := after.peers[i].current.value;
                     && Replaces(d.peers[i], after.peers[i], s)
                     && s.localIndex == draw.index && s.peerIndex == index && s.established == now && !s.confirmed)
  {
    hide Take;
    var made := CreateInitiation(caller, PublicOf(caller), d.Public(), index, ephemeral, stamp, INITIATION_LEN);
    assert made.Ok?;
    InitiationReaches(caller, d.Public(), index, ephemeral, stamp, INITIATION_LEN, d.private);
    var seen := ConsumeInitiation(d.private, d.Public(), d.Mac(), made.value.0).value;
    ConfiguredIsFound(d, i, PublicOf(caller));
    if d.peers[i].lastTimestamp.Some? {
      NewerIsLater(stamp, d.peers[i].lastTimestamp.value);
    }
    hide ConsumeInitiation, CreateInitiation;
    assert VerifyInitiationMac1(d.Mac(), made.value.0).Ok? by {
      AcceptedPassesMac(d, made.value.0);
    }
  }

  lemma AcceptedPassesMac(d: State, m: InitiationMsg)
    requires ConsumeInitiation(d.private, d.Public(), d.Mac(), m).Ok?
    ensures VerifyInitiationMac1(d.Mac(), m).Ok?
  {
  }

  /** Peer `i` is the first one with a handshake in flight under this index. */
  predicate Awaits(d: State, i: nat, index: u32) {
    && i < |d.peers| && d.peers[i].pending.Some? && d.peers[i].pending.value.localIndex == index
    && forall q :: 0 <= q < i && d.peers[q].pending.Some? ==> d.peers[q].pending.value.localIndex != index
  }

  lemma AwaitedIsFound(d: State, i: nat, index: u32)
    requires Awaits(d, i, index)
    ensures FindPending(d.peers, index) == Some(i)
  {
  }

  /**
   The answer to our own call completes the handshake if and only if a token is left
   and the other side used our pre-shared key. The confirmed session takes the place
   of the current one, which becomes the previous one, and a keepalive tells the peer.
   */
  lemma AnswerCompletesIff(
    d: State, i: nat, seen: Initiation, psk: Term, index: u32, ephemeral: Secret, now: nat, draw: Draw, room: nat)
    requires i < |d.peers| && d.peers[i].pending.Some? && Awaits(d, i, seen.peerIndex)
    requires SameTranscript(d.peers[i].pending.value, d.private, seen) && room >= 92
    ensures var made := CreateResponse(seen, psk, index, ephemeral, room);
            && made.Ok?
            && var (after, out) := HandleUdp(d, ResponseDatagram(made.value.0), now, draw, room);
            && (out.Ok? <==> Take(d.budget, now).1 && psk == d.peers[i].psk)
            && after.budget == Take(d.budget, now).0 && |after.peers| == |d.peers|
            && (forall q :: 0 <= q < |d.peers| && (q != i || out.Err?) ==> after.peers[q] == d.peers[q])
            && (out.Ok? ==>
                  && after.peers[i].current.Some?
                  && var s, keys := after.peers[i].current.value, made.value.1;
                     && Replaces(d.peers[i], after.peers[i].(current := Some(s.(sendCounter := 0))),
                                 s.(sendCounter := 0))
                     && s == Session(seen.peerIndex, index, keys.receiving, keys.sending, 1, {}, now, true)
                     && out == Ok(Send(i, DataDatagram(
                          DataMsg(index, 0, Sealed(s.sending, 0, Empty, Raw([])), 16)))))
  {
    hide Take;
    var made := CreateResponse(seen, psk, index, ephemeral, room);
    var p := d.peers[i];
    AwaitedIsFound(d, i, seen.peerIndex);
    ResponseAcceptedIff(p.pending.value, d.private, p.psk, seen, psk, index, ephemeral, room);
    var m := made.value.0;
    assert VerifyResponseMac1(d.Mac(), m).Ok?;
    hide ConsumeResponse, VerifyResponseMac1, CreateResponse;
    assert Pad([]) == [];
  }

  /**
   Packets in flight under the old keys survive a rekey the peer started: they are
   delivered, and the old session carries on until the peer has shown the new keys.
   */
  lemma OldSessionOutlivesRekey(
    d: State, i: nat, caller: Secret, index: u32, ephemeral: Secret, stamp: seq<byte>, now: nat, draw: Draw, room: nat,
    m: DataMsg, plain: seq<byte>, later: nat)
    requires Configured(d, i, PublicOf(caller)) && |stamp| == TIMESTAMP_LEN && room >= 92
    requires d.peers[i].lastTimestamp.Some? ==> |d.peers[i].lastTimestamp.value| == TIMESTAMP_LEN
    requires Take(d.budget, now).1 && Newer(stamp, d.peers[i].lastTimestamp)
    requires Owns(d, i, m.receiver, later, false) && draw.index != m.receiver
    requires Genuine(d.peers[i].current.value, m, plain, room)
    ensures var call := CreateInitiation(caller, PublicOf(caller), d.Public(), index, ephemeral, stamp, INITIATION_LEN);
            && call.Ok?
            && var mid := HandleUdp(d, InitiationDatagram(call.value.0), now, draw, room).0;
            var (after, out) := HandleUdp(mid, DataDatagram(m), later, draw, room);
            && |after.peers| == |d.peers|
            && after.peers[i].current
               == Some(d.peers[i].current.value.(
                    accepted := d.peers[i].current.value.accepted + {m.counter}, confirmed := true))
            && (forall n: nat :: plain != [] && Declares(plain, n) && n <= |plain| ==>
                  out == Ok(Receive(i, plain[..n])))
  {
    CallIsAnsweredIff(d, i, caller, index, ephemeral, stamp, now, draw, room);
    var call := CreateInitiation(caller, PublicOf(caller), d.Public(), index, ephemeral, stamp, INITIATION_LEN).value.0;
    var mid := HandleUdp(d, InitiationDatagram(call), now, draw, room).0;
    hide HandleUdp, Take, CreateInitiation, Genuine, Live;
    assert Owns(mid, i, m.receiver, later, true);
    DataIsTaken(mid, i, m, plain, later, draw, room, true);
  }

  /**
   The other side of that rule: on the side that started the rekey, one late packet
   under the old keys drops the new session although the peer already uses it, and
   the peer's next packet under the new keys is refused.
   */
  lemma LatePacketUndoesRekey(
    d: State, i: nat, m: DataMsg, plain: seq<byte>, now: nat, draw: Draw, room: nat, next: DataMsg, later: nat)
    requires Owns(d, i, m.receiver, now, true) && Genuine(d.peers[i].previous.value, m, plain, room)
    requires d.peers[i].current.Some? && next.receiver == d.peers[i].current.value.localIndex != m.receiver
    requires forall q :: 0 <= q < |d.peers| && q != i ==> !UsesIndex(d.peers[q], next.receiver)
    ensures var after := HandleUdp(d, DataDatagram(m), now, draw, room).0;
            HandleUdp(after, DataDatagram(next), later, draw, room).1 == Err(UnknownSession)
  {
    DataIsTaken(d, i, m, plain, now, draw, room, true);
    var after := HandleUdp(d, DataDatagram(m), now, draw, room).0;
    forall q | 0 <= q < |after.peers|
      ensures !Names(after.peers[q], next.receiver, later, false) && !Names(after.peers[q], next.receiver, later, true)
    {
      if q != i {
        assert !UsesIndex(d.peers[q], next.receiver);
      }
    }
    UnknownDataRefused(after, 0, next, later, room);
  }

  /** A peer switched off is called no more, and an answer to an earlier call finds nothing. */
  lemma SwitchedOffIsSilent(d: State, i: nat, m: ResponseMsg, now: nat, draw: Draw, room: nat)
    requires Awaits(d, i, m.receiver)
    requires forall q :: i < q < |d.peers| && d.peers[q].pending.Some? ==>
               d.peers[q].pending.value.localIndex != m.receiver
    ensures var (after, r) := SetInitiating(d, i, false);
            && r == Ok(()) && |after.peers| == |d.peers|
            && HandleUdp(after, ResponseDatagram(m), now, draw, room) == (after,
                 Err(if VerifyResponseMac1(d.Mac(), m).Ok? then UnknownSession else InvalidMac))
            && !WantsHandshake(after.peers[i], now)
            && (forall q :: 0 <= q < |d.peers| && q != i ==> after.peers[q] == d.peers[q])
  {
    var after := SetInitiating(d, i, false).0;
    assert forall q :: 0 <= q < |after.peers| && after.peers[q].pending.Some? ==>
             after.peers[q].pending.value.localIndex != m.receiver;
    assert FindPending(after.peers, m.receiver).None?;
  }
}
