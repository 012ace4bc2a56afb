/**
 The WireGuard device (crates/wg-core/src/lib.rs): its state and the effect of
 every entry point, as functions from the old state to the new one. The object
 that updates its fields in place is in `DeviceObject`.

 Randomness is an argument: a `Draw` is the index that `allocate_index` settled
 on and the ephemeral secret drawn after it.
 */
module Device {
  import opened Common
  import opened Symbolic
  import opened Noise
  import opened Transport
  import opened Timers

  datatype Draw = Draw(index: u32, secret: Secret)

  datatype Datagram =
    | Garbage
    | CookieReply
    | InitiationDatagram(initiation: InitiationMsg)
    | ResponseDatagram(response: ResponseMsg)
    | DataDatagram(data: DataMsg)

  datatype Action =
    | NoAction
    | Send(peer: nat, msg: Datagram)
    | Receive(peer: nat, packet: seq<byte>)

  datatype Peer = Peer(
    public: PublicKey, psk: Term, lastTimestamp: Option<seq<byte>>,
    current: Option<Session>, previous: Option<Session>,
    armed: Option<nat>, initiating: bool,
    pending: Option<Handshake>, pendingSince: Option<nat>, pendingLastSent: Option<nat>)

  datatype State = State(private: Secret, capacity: nat, peers: seq<Peer>, budget: Budget) {
    function Public(): PublicKey { PublicOf(private) }
    function Mac(): Term { Mac1Key(Public()) }
    function With(i: nat, p: Peer): State
      requires i < |peers|
    {
      this.(peers := peers[i := p])
    }
  }

  type Outcome = Result<Action, Error>

  function New(private: Secret, capacity: nat): State {
    State(private, capacity, [], FULL)
  }

  // ---------------------------------------------------------------------
  // One peer.

  function KeepUsable(s: Option<Session>, now: nat): Option<Session> {
    if s.Some? && !IsUsable(s.value, now) then None else s
  }

  function Expire(p: Peer, now: nat): Peer {
    p.(current := KeepUsable(p.current, now), previous := KeepUsable(p.previous, now))
  }

  predicate WantsHandshake(p: Peer, now: nat) {
    && p.initiating
    && (p.current.None? || !IsUsable(p.current.value, now) || RekeyIsDue(p.current.value.established, now))
    && RetryIsDue(p.pendingLastSent, now)
  }

  function ClearPending(p: Peer): Peer {
    p.(pending := None, pendingSince := None, pendingLastSent := None)
  }

  /** Make a fresh session current, keeping the old one for packets in flight. */
  function Install(p: Peer, s: Session): Peer {
    ClearPending(p).(previous := p.current, current := Some(s), armed := None)
  }

  // ---------------------------------------------------------------------
  // Configuration.

  function AddPeer(d: State, public: PublicKey, psk: Term): (State, Result<nat, Error>) {
    if |d.peers| >= d.capacity then (d, Err(TooManyPeers))
    else
      (d.(peers := d.peers + [Peer(public, psk, None, None, None, None, false, None, None, None)]), Ok(|d.peers|))
  }

  function SetInitiating(d: State, peer: nat, initiating: bool): (State, Result<(), Error>) {
    if peer >= |d.peers| then (d, Err(UnknownPeer))
    else
      var p := d.peers[peer].(initiating := initiating);
      (d.With(peer, if initiating then p else ClearPending(p)), Ok(()))
  }

  // ---------------------------------------------------------------------
  // Handshakes.

  predicate UsesIndex(p: Peer, index: u32) {
    || (p.current.Some? && p.current.value.localIndex == index)
    || (p.previous.Some? && p.previous.value.localIndex == index)
  }

  predicate Taken(d: State, index: u32) {
    exists i :: 0 <= i < |d.peers| && UsesIndex(d.peers[i], index)
  }

  /** The index `allocate_index` settles on: the first candidate no session uses. */
  function FirstFree(d: State, candidates: seq<u32>): u32 {
    if candidates == [] then 0
    else if !Taken(d, candidates[0]) then candidates[0]
    else FirstFree(d, candidates[1..])
  }

  /** The device once peers `from..to` have had their stale sessions retired. */
  function ExpiredRange(d: State, from: nat, to: nat, now: nat): State {
    d.(peers := seq(|d.peers|, k requires 0 <= k < |d.peers| =>
                                 if from <= k < to then Expire(d.peers[k], now) else d.peers[k]))
  }

  function StartHandshake(d: State, peer: nat, now: nat, timestamp: seq<byte>, draw: Draw, room: nat)
    : (State, Result<InitiationMsg, Error>)
  {
    if peer >= |d.peers| then (d, Err(UnknownPeer)) else
    var (budget, granted) := Take(d.budget, now);
    var d := d.(budget := budget);
    if !granted then (d, Err(RateLimited)) else
    var p := d.peers[peer];
    var made := CreateInitiation(d.private, d.Public(), p.public, draw.index, draw.secret, timestamp, room);
    if made.Err? then (d, Err(made.error)) else
    var p := p.(pendingSince := if p.pendingSince.None? then Some(now) else p.pendingSince,
                pendingLastSent := Some(now), pending := Some(made.value.1));
    (d.With(peer, p), Ok(made.value.0))
  }

  /** Visit peers in order from `i`; peer `k` draws `draws[k]` if it is asked to start. */
  function PollHandshakesFrom(d: State, i: nat, now: nat, timestamp: seq<byte>, draws: seq<Draw>, room: nat)
    : (State, Action)
    requires |draws| == |d.peers|
    decreases |d.peers| - i
  {
    if i >= |d.peers| then (d, NoAction) else
    var d := d.With(i, Expire(d.peers[i], now));
    if !WantsHandshake(d.peers[i], now) then PollHandshakesFrom(d, i + 1, now, timestamp, draws, room) else
    var (d, r) := StartHandshake(d, i, now, timestamp, draws[i], room);
    match r
    case Ok(msg) => (d, Send(i, InitiationDatagram(msg)))
    case Err(RateLimited) => (d, NoAction)
    case Err(_) => PollHandshakesFrom(d, i + 1, now, timestamp, draws, room)
  }

  /** The first peer whose handshake in flight carries this index. */
  function FindPending(peers: seq<Peer>, index: u32): (r: Option<nat>)
    ensures r.Some? ==> r.value < |peers| && peers[r.value].pending.Some?
                        && peers[r.value].pending.value.localIndex == index
                        && forall i :: 0 <= i < r.value ==>
                             !(peers[i].pending.Some? && peers[i].pending.value.localIndex == index)
    ensures r.None? ==> forall i :: 0 <= i < |peers| ==>
                          !(peers[i].pending.Some? && peers[i].pending.value.localIndex == index)
  {
    if peers == [] then None
    else if peers[0].pending.Some? && peers[0].pending.value.localIndex == index then Some(0)
    else
      var r := FindPending(peers[1..], index);
      if r.Some? then Some(r.value + 1) else None
  }

  function CompleteHandshake(d: State, m: ResponseMsg, now: nat): (r: (State, Result<nat, Error>))
    ensures r.1.Ok? ==> r.1.value < |r.0.peers| && r.0.peers[r.1.value].current.Some?
  {
    if VerifyResponseMac1(d.Mac(), m).Err? then (d, Err(InvalidMac)) else
    var found := FindPending(d.peers, m.receiver);
    if found.None? then (d, Err(UnknownSession)) else
    var (budget, granted) := Take(d.budget, now);
    var d := d.(budget := budget);
    if !granted then (d, Err(RateLimited)) else
    var p := d.peers[found.value];
    var keys := ConsumeResponse(p.pending.value, d.private, p.psk, m);
    if keys.Err? then (d, Err(keys.error)) else
    var s := NewSession(keys.value.1, p.pending.value.localIndex, keys.value.0, now).(confirmed := true);
    (d.With(found.value, Install(p, s)), Ok(found.value))
  }

  /** A completed handshake is answered at once with a keepalive. */
  function HandleResponse(d: State, m: ResponseMsg, now: nat, room: nat): (State, Outcome) {
    var (d, r) := CompleteHandshake(d, m, now);
    if r.Err? then (d, Err(r.error)) else
    SendUnder(d, r.value, [], room)
  }

  /** Seal under a peer's current session and disarm its keepalive. */
  function SendUnder(d: State, peer: nat, packet: seq<byte>, room: nat): (State, Outcome)
    requires peer < |d.peers| && d.peers[peer].current.Some?
  {
    var p := d.peers[peer];
    var (s, r) := Seal(p.current.value, packet, room);
    if r.Err? then (d, Err(r.error))
    else (d.With(peer, p.(current := Some(s), armed := None)), Ok(Send(peer, DataDatagram(r.value))))
  }

  /** The first peer with this static key. */
  function FindPublic(peers: seq<Peer>, public: PublicKey): (r: Option<nat>)
    ensures r.Some? ==> r.value < |peers| && peers[r.value].public == public
                        && forall i :: 0 <= i < r.value ==> peers[i].public != public
    ensures r.None? ==> forall i :: 0 <= i < |peers| ==> peers[i].public != public
  {
    if peers == [] then None
    else if peers[0].public == public then Some(0)
    else
      var r := FindPublic(peers[1..], public);
      if r.Some? then Some(r.value + 1) else None
  }

  function RespondToInitiation(d: State, m: InitiationMsg, now: nat, draw: Draw, room: nat): (State, Outcome) {
    if VerifyInitiationMac1(d.Mac(), m).Err? then (d, Err(InvalidMac)) else
    var (budget, granted) := Take(d.budget, now);
    var d := d.(budget := budget);
    if !granted then (d, Err(RateLimited)) else
    var seen := ConsumeInitiation(d.private, d.Public(), d.Mac(), m);
    if seen.Err? then (d, Err(seen.error)) else
    var found := FindPublic(d.peers, seen.value.peerStatic);
    if found.None? then (d, Err(UnknownPeer)) else
    var p := d.peers[found.value];
    if p.lastTimestamp.Some? && !TimestampIsNewer(seen.value.timestamp, p.lastTimestamp.value)
    then (d, Err(StaleTimestamp)) else
    var made := CreateResponse(seen.value, p.psk, draw.index, draw.secret, room);
    if made.Err? then (d, Err(made.error)) else
    var s := NewSession(made.value.1, draw.index, seen.value.peerIndex, now);
    (d.With(found.value, Install(p, s).(lastTimestamp := Some(seen.value.timestamp))),
     Ok(Send(found.value, ResponseDatagram(made.value.0))))
  }

  // ---------------------------------------------------------------------
  // Data.

  /** Which of a peer's sessions an index names: the current one wins. */
  datatype Slot = Neither | Current | Previous

  function Match(p: Peer, receiver: u32): Slot {
    if p.current.Some? && p.current.value.localIndex == receiver then Current
    else if p.previous.Some? && p.previous.value.localIndex == receiver then Previous
    else Neither
  }

  /** The peer after a packet opened: the session is confirmed, and a previous
      session still in use takes the current one's place. */
  function Opened(p: Peer, slot: Slot, s: Session): Peer {
    var s := s.(confirmed := true);
    if slot == Previous then p.(current := Some(s), previous := None) else p.(current := Some(s))
  }

  /** Open a packet under the session of peer `i` that its index names. */
  function OpenAt(d: State, i: nat, slot: Slot, m: DataMsg, now: nat, room: nat): (State, Outcome)
    requires i < |d.peers|
    requires slot == Match(d.peers[i], m.receiver) != Neither
  {
    var p := d.peers[i];
    var session := if slot == Current then p.current.value else p.previous.value;
    var (s, plain) := OpenMsg(session, m, room);
    if plain.Err? then (d, Err(plain.error)) else
    var p := Opened(p, slot, s);
    if plain.value == [] then (d.With(i, p), Ok(NoAction)) else
    var len := PacketLen(plain.value);
    if len.None? then (d.With(i, p), Err(Malformed)) else
    (d.With(i, p.(armed := if p.armed.None? then Some(now) else p.armed)),
     Ok(Receive(i, plain.value[..len.value])))
  }

  function OpenDataFrom(d: State, i: nat, m: DataMsg, now: nat, room: nat): (State, Outcome)
    decreases |d.peers| - i
  {
    if i >= |d.peers| then (d, Err(UnknownSession)) else
    var d := d.With(i, Expire(d.peers[i], now));
    var slot := Match(d.peers[i], m.receiver);
    if slot == Neither then OpenDataFrom(d, i + 1, m, now, room) else OpenAt(d, i, slot, m, now, room)
  }

  function HandleUdp(d: State, datagram: Datagram, now: nat, draw: Draw, room: nat): (State, Outcome) {
    match datagram
    case Garbage => (d, Err(Malformed))
    case CookieReply => (d, Err(Unsupported))
    case InitiationDatagram(m) => RespondToInitiation(d, m, now, draw, room)
    case ResponseDatagram(m) => HandleResponse(d, m, now, room)
    case DataDatagram(m) => OpenDataFrom(d, 0, m, now, room)
  }

  function Encapsulate(d: State, peer: nat, packet: seq<byte>, now: nat, room: nat): (State, Outcome) {
    if peer >= |d.peers| then (d, Err(UnknownPeer)) else
    var d := d.With(peer, Expire(d.peers[peer], now));
    var current := d.peers[peer].current;
    if current.None? then (d, Err(NoSession))
    else if !current.value.confirmed then (d, Err(Unconfirmed))
    else SendUnder(d, peer, packet, room)
  }

  function PollTimersFrom(d: State, i: nat, now: nat, room: nat): (State, Action)
    decreases |d.peers| - i
  {
    if i >= |d.peers| then (d, NoAction) else
    var p := Expire(d.peers[i], now);
    var d := d.With(i, p);
    if !KeepaliveIsDue(p.armed, now) || p.current.None? || !p.current.value.confirmed
    then PollTimersFrom(d, i + 1, now, room) else
    var (after, r) := SendUnder(d, i, [], room);
    if r.Err? then PollTimersFrom(d, i + 1, now, room) else (after, r.value)
  }

  // ---------------------------------------------------------------------
  // Events: everything a caller can do to a device.

  datatype Event =
    | CallAddPeer(public: PublicKey, psk: Term)
    | CallSetInitiating(peer: nat, on: bool)
    | CallHandleUdp(datagram: Datagram, now: nat, draw: Draw, room: nat)
    | CallStartHandshake(peer: nat, now: nat, timestamp: seq<byte>, draw: Draw, room: nat)
    | CallPollHandshakes(now: nat, timestamp: seq<byte>, draws: seq<Draw>, room: nat)
    | CallEncapsulate(peer: nat, packet: seq<byte>, now: nat, room: nat)
    | CallPollTimers(now: nat, room: nat)

  /** `poll_handshakes` is given one draw per peer. */
  predicate Fits(d: State, e: Event) {
    e.CallPollHandshakes? ==> |e.draws| == |d.peers|
  }

  function Step(d: State, e: Event): (r: (State, Outcome))
    requires Fits(d, e)
  {
    match e
    case CallAddPeer(public, psk) =>
      var (d', r) := AddPeer(d, public, psk);
      (d', if r.Ok? then Ok(NoAction) else Err(r.error))
    case CallSetInitiating(peer, on) =>
      var (d', r) := SetInitiating(d, peer, on);
      (d', if r.Ok? then Ok(NoAction) else Err(r.error))
    case CallHandleUdp(datagram, now, draw, room) => HandleUdp(d, datagram, now, draw, room)
    case CallStartHandshake(peer, now, timestamp, draw, room) =>
      var (d', r) := StartHandshake(d, peer, now, timestamp, draw, room);
      (d', if r.Ok? then Ok(Send(peer, InitiationDatagram(r.value))) else Err(r.error))
    case CallPollHandshakes(now, timestamp, draws, room) =>
      var (d', a) := PollHandshakesFrom(d, 0, now, timestamp, draws, room);
      (d', Ok(a))
    case CallEncapsulate(peer, packet, now, room) => Encapsulate(d, peer, packet, now, room)
    case CallPollTimers(now, room) =>
      var (d', a) := PollTimersFrom(d, 0, now, room);
      (d', Ok(a))
  }

  /** The state after a run from a new device; an event that does not fit is skipped. */
  function StateAfter(private: Secret, capacity: nat, events: seq<Event>): State {
    if events == [] then New(private, capacity)
    else
      var n := |events| - 1;
      var d := StateAfter(private, capacity, events[..n]);
      if Fits(d, events[n]) then Step(d, events[n]).0 else d
  }

  /** The time a call is given. */
  function Clock(e: Event): Option<nat> {
    match e
    case CallHandleUdp(_, now, _, _) => Some(now)
    case CallStartHandshake(_, now, _, _, _) => Some(now)
    case CallPollHandshakes(now, _, _, _) => Some(now)
    case CallEncapsulate(_, _, now, _) => Some(now)
    case CallPollTimers(now, _) => Some(now)
    case _ => None
  }
}
