/**
 The device as an object whose fields its methods update, with the loops of
 crates/wg-core/src/lib.rs. Every method is proved to have exactly the effect of
 the corresponding function of `Device`, on which the theorems about runs rest.
 */
module DeviceObject {
  import opened Common
  import opened Symbolic
  import opened Noise
  import opened Transport
  import opened Timers
  import opened Device

  class WireGuardDevice {
    const private: Secret
    const capacity: nat
    var peers: seq<Peer>
    const budget: HandshakeBudget

    function View(): State
      reads this, budget
    {
      State(private, capacity, peers, budget.View())
    }

    constructor (private: Secret, capacity: nat)
      ensures View() == New(private, capacity) && fresh(budget)
    {
      this.private := private;
      this.capacity := capacity;
      peers := [];
      budget := new HandshakeBudget();
    }

    method AddPeerCall(public: PublicKey, psk: Term) returns (r: Result<nat, Error>)
      modifies this
      ensures (View(), r) == AddPeer(old(View()), public, psk)
    {
      if |peers| >= capacity {
        return Err(TooManyPeers);
      }
      r := Ok(|peers|);
      peers := peers + [Peer(public, psk, None, None, None, None, false, None, None, None)];
    }

    method SetInitiatingCall(peer: nat, initiating: bool) returns (r: Result<(), Error>)
      modifies this
      ensures (View(), r) == SetInitiating(old(View()), peer, initiating)
    {
      if peer >= |peers| {
        return Err(UnknownPeer);
      }
      var p := peers[peer].(initiating := initiating);
      if !initiating {
        p := ClearPending(p);
      }
      peers := peers[peer := p];
      return Ok(());
    }

    /** `allocate_index`: keep drawing until a candidate is in no session. */
    method AllocateIndex(candidates: seq<u32>) returns (index: u32)
      requires exists k :: 0 <= k < |candidates| && !Taken(View(), candidates[k])
      ensures index == FirstFree(View(), candidates) && !Taken(View(), index)
    {
      var k := 0;
      while true
        invariant 0 <= k < |candidates|
        invariant exists j :: k <= j < |candidates| && !Taken(View(), candidates[j])
        invariant FirstFree(View(), candidates[k..]) == FirstFree(View(), candidates)
        decreases |candidates| - k
      {
        var taken := false;
        for i := 0 to |peers|
          invariant taken <==> exists j :: 0 <= j < i && UsesIndex(peers[j], candidates[k])
        {
          if UsesIndex(peers[i], candidates[k]) {
            taken := true;
          }
        }
        if !taken {
          return candidates[k];
        }
        assert Taken(View(), candidates[k]);
        assert candidates[k..][1..] == candidates[k + 1..];
        k := k + 1;
      }
    }

    method StartHandshakeCall(
      peer: nat, now: nat, timestamp: seq<byte>, candidates: seq<u32>, secret: Secret, room: nat)
      returns (r: Result<InitiationMsg, Error>)
      requires exists k :: 0 <= k < |candidates| && !Taken(View(), candidates[k])
      modifies this, budget
      ensures (View(), r) == StartHandshake(old(View()), peer, now, timestamp,
                                            Draw(FirstFree(old(View()), candidates), secret), room)
    {
      if peer >= |peers| {
        return Err(UnknownPeer);
      }
      ghost var d := View();
      var granted := budget.TakeOne(now);
      if !granted {
        return Err(RateLimited);
      }
      SamePeersSameChoice(d, View(), candidates);
      var index := AllocateIndex(candidates);
      var p := peers[peer];
      var made := CreateInitiation(private, PublicOf(private), p.public, index, secret, timestamp, room);
      if made.Err? {
        return Err(made.error);
      }
      if p.pendingSince.None? {
        p := p.(pendingSince := Some(now));
      }
      p := p.(pendingLastSent := Some(now), pending := Some(made.value.1));
      peers := peers[peer := p];
      return Ok(made.value.0);
    }

    /** The draws a round of `poll_handshakes` would make, peer by peer. */
    static function Chosen(d: State, now: nat, candidates: seq<seq<u32>>, secrets: seq<Secret>): seq<Draw>
      requires |candidates| == |secrets| == |d.peers|
    {
      seq(|d.peers|, k requires 0 <= k < |d.peers| =>
                       Draw(FirstFree(ExpiredRange(d, 0, k + 1, now), candidates[k]), secrets[k]))
    }

    static lemma ExpiryFrees(d: State, to: nat, now: nat, index: u32)
      requires !Taken(d, index)
      ensures !Taken(ExpiredRange(d, 0, to, now), index)
    {
      forall i | 0 <= i < |d.peers| ensures !UsesIndex(ExpiredRange(d, 0, to, now).peers[i], index) {
        assert !UsesIndex(d.peers[i], index);
      }
    }

    /** Only sessions decide which indices are free. */
    static lemma SamePeersSameChoice(d: State, d': State, candidates: seq<u32>)
      requires d.peers == d'.peers
      ensures FirstFree(d, candidates) == FirstFree(d', candidates)
      ensures forall x: u32 :: Taken(d, x) == Taken(d', x)
    {
      forall x: u32 ensures Taken(d, x) == Taken(d', x) {
      }
      if candidates != [] {
        SamePeersSameChoice(d, d', candidates[1..]);
      }
    }

    method PollHandshakesCall(
      now: nat, timestamp: seq<byte>, candidates: seq<seq<u32>>, secrets: seq<Secret>, room: nat)
      returns (a: Action)
      requires |candidates| == |secrets| == |peers|
      requires forall i :: 0 <= i < |candidates| ==>
                 exists k :: 0 <= k < |candidates[i]| && !Taken(View(), candidates[i][k])
      modifies this, budget
      ensures (View(), a) ==
              PollHandshakesFrom(old(View()), 0, now, timestamp, Chosen(old(View()), now, candidates, secrets), room)
    {
      hide Take, CreateInitiation, WantsHandshake;
      ghost var d := View();
      ghost var draws := Chosen(d, now, candidates, secrets);
      ghost var final := PollHandshakesFrom(d, 0, now, timestamp, draws, room);
      assert ExpiredRange(d, 0, 0, now) == d;
      for i := 0 to |peers|
        invariant peers == ExpiredRange(d, 0, i, now).peers
        invariant final == PollHandshakesFrom(View(), i, now, timestamp, draws, room)
      {
        peers := peers[i := Expire(peers[i], now)];
        assert peers == ExpiredRange(d, 0, i + 1, now).peers;
        if !WantsHandshake(peers[i], now) {
          continue;
        }
        SamePeersSameChoice(View(), ExpiredRange(d, 0, i + 1, now), candidates[i]);
        ghost var k :| 0 <= k < |candidates[i]| && !Taken(d, candidates[i][k]);
        ExpiryFrees(d, i + 1, now, candidates[i][k]);
        var r := StartHandshakeCall(i, now, timestamp, candidates[i], secrets[i], room);
        if r.Ok? {
          return Send(i, InitiationDatagram(r.value));
        }
        if r.error == RateLimited {
          return NoAction;
        }
      }
      return NoAction;
    }

    method CompleteHandshakeCall(m: ResponseMsg, now: nat) returns (r: Result<nat, Error>)
      modifies this, budget
      ensures (View(), r) == CompleteHandshake(old(View()), m, now)
    {
      if VerifyResponseMac1(View().Mac(), m).Err? {
        return Err(InvalidMac);
      }
      var found := FindPending(peers, m.receiver);
      if found.None? {
        return Err(UnknownSession);
      }
      var granted := budget.TakeOne(now);
      if !granted {
        return Err(RateLimited);
      }
      var p := peers[found.value];
      var index := p.pending.value.localIndex;
      var keys := ConsumeResponse(p.pending.value, private, p.psk, m);
      if keys.Err? {
        return Err(keys.error);
      }
      p := ClearPending(p);
      p := p.(previous := p.current);
      var s := NewSession(keys.value.1, index, keys.value.0, now);
      s := s.(confirmed := true);
      p := p.(current := Some(s), armed := None);
      peers := peers[found.value := p];
      return Ok(found.value);
    }

    method RespondToInitiationCall(m: InitiationMsg, now: nat, candidates: seq<u32>, secret: Secret, room: nat)
      returns (r: Outcome)
      requires exists k :: 0 <= k < |candidates| && !Taken(View(), candidates[k])
      modifies this, budget
      ensures (View(), r) ==
              RespondToInitiation(old(View()), m, now, Draw(FirstFree(old(View()), candidates), secret), room)
    {
      ghost var d := View();
      if VerifyInitiationMac1(View().Mac(), m).Err? {
        return Err(InvalidMac);
      }
      var granted := budget.TakeOne(now);
      if !granted {
        return Err(RateLimited);
      }
      var seen := ConsumeInitiation(private, PublicOf(private), View().Mac(), m);
      if seen.Err? {
        return Err(seen.error);
      }
      var found := FindPublic(peers, seen.value.peerStatic);
      if found.None? {
        return Err(UnknownPeer);
      }
      var p := peers[found.value];
      if p.lastTimestamp.Some? && !TimestampIsNewer(seen.value.timestamp, p.lastTimestamp.value) {
        return Err(StaleTimestamp);
      }
      SamePeersSameChoice(d, View(), candidates);
      var index := AllocateIndex(candidates);
      var made := CreateResponse(seen.value, p.psk, index, secret, room);
      if made.Err? {
        return Err(made.error);
      }
      p := p.(lastTimestamp := Some(seen.value.timestamp));
      p := p.(previous := p.current);
      p := p.(current := Some(NewSession(made.value.1, index, seen.value.peerIndex, now)), armed := None);
      p := ClearPending(p);
      peers := peers[found.value := p];
      return Ok(Send(found.value, ResponseDatagram(made.value.0)));
    }

    method OpenDataCall(m: DataMsg, now: nat, room: nat) returns (r: Outcome)
      modifies this
      ensures (View(), r) == OpenDataFrom(old(View()), 0, m, now, room)
    {
      ghost var final := OpenDataFrom(View(), 0, m, now, room);
      for i := 0 to |peers|
        invariant |peers| == |old(peers)|
        invariant final == OpenDataFrom(View(), i, m, now, room)
      {
        peers := peers[i := Expire(peers[i], now)];
        var p := peers[i];
        var slot := Match(p, m.receiver);
        if slot == Neither {
          continue;
        }
        ghost var reached := peers;
        assert final == OpenAt(View(), i, slot, m, now, room);
        var (s, plain) := OpenMsg(if slot == Current then p.current.value else p.previous.value, m, room);
        if plain.Err? {
          return Err(plain.error);
        }
        s := s.(confirmed := true);
        p := p.(current := Some(s));
        if slot == Previous {
          p := p.(previous := None);
        }
        peers := peers[i := p];
        if plain.value == [] {
          return Ok(NoAction);
        }
        var len := PacketLen(plain.value);
        if len.None? {
          return Err(Malformed);
        }
        if p.armed.None? {
          p := p.(armed := Some(now));
        }
        peers := peers[i := p];
        assert peers == reached[i := p];
        return Ok(Receive(i, plain.value[..len.value]));
      }
      return Err(UnknownSession);
    }

    /** Seal under the current session of a peer and disarm its keepalive. */
    method SealFor(peer: nat, packet: seq<byte>, room: nat) returns (r: Outcome)
      requires peer < |peers| && peers[peer].current.Some?
      modifies this
      ensures (View(), r) == SendUnder(old(View()), peer, packet, room)
    {
      var p := peers[peer];
      var (s, sealed) := Seal(p.current.value, packet, room);
      if sealed.Err? {
        return Err(sealed.error);
      }
      peers := peers[peer := p.(current := Some(s), armed := None)];
      return Ok(Send(peer, DataDatagram(sealed.value)));
    }

    method HandleUdpCall(datagram: Datagram, now: nat, candidates: seq<u32>, secret: Secret, room: nat)
      returns (r: Outcome)
      requires exists k :: 0 <= k < |candidates| && !Taken(View(), candidates[k])
      modifies this, budget
      ensures (View(), r)
           == HandleUdp(old(View()), datagram, now, Draw(FirstFree(old(View()), candidates), secret), room)
    {
      match datagram {
        case Garbage => return Err(Malformed);
        case CookieReply => return Err(Unsupported);
        case InitiationDatagram(m) => r := RespondToInitiationCall(m, now, candidates, secret, room);
        case DataDatagram(m) => r := OpenDataCall(m, now, room);
        case ResponseDatagram(m) =>
          var peer := CompleteHandshakeCall(m, now);
          if peer.Err? {
            return Err(peer.error);
          }
          r := SealFor(peer.value, [], room);
      }
    }

    method EncapsulateCall(peer: nat, packet: seq<byte>, now: nat, room: nat) returns (r: Outcome)
      modifies this
      ensures (View(), r) == Encapsulate(old(View()), peer, packet, now, room)
    {
      if peer >= |peers| {
        return Err(UnknownPeer);
      }
      peers := peers[peer := Expire(peers[peer], now)];
      var current := peers[peer].current;
      if current.None? {
        return Err(NoSession);
      }
      if !current.value.confirmed {
        return Err(Unconfirmed);
      }
      r := SealFor(peer, packet, room);
    }

    method PollTimersCall(now: nat, room: nat) returns (a: Action)
      modifies this
      ensures (View(), a) == PollTimersFrom(old(View()), 0, now, room)
    {
      ghost var final := PollTimersFrom(View(), 0, now, room);
      for i := 0 to |peers|
        invariant |peers| == |old(peers)|
        invariant final == PollTimersFrom(View(), i, now, room)
      {
        peers := peers[i := Expire(peers[i], now)];
        var p := peers[i];
        if !KeepaliveIsDue(p.armed, now) {
          continue;
        }
        if p.current.None? {
          continue;
        }
        if !p.current.value.confirmed {
          continue;
        }
        var r := SealFor(i, [], room);
        if r.Err? {
          continue;
        }
        return r.value;
      }
      return NoAction;
    }
  }
}
