/**
 What every run of a device keeps about keys and counters: no data message is
 ever sealed twice under one key and counter, none is delivered twice, and each
 is sealed only under a young session whose keys the peer has proved it holds.
 */
module DeviceKeys {
  import opened Common
  import opened Symbolic
  import opened Noise
  import opened Transport
  import opened Timers
  import opened Device
  import Replay

  // ---------------------------------------------------------------------
  // Keys and the ephemerals behind them.

  /** The ephemeral secret the owner of a sending key drew for it. */
  function Eph(sending: Term): Option<Secret> {
    var e := OwnEphemeral(sending);
    if e.Point? && e.public.PublicOf? then Some(e.public.secret) else None
  }

  /** The key for the other direction of the same session. */
  function Mirror(key: Term): Term {
    if key.Hmac? then Kdf(Chain(key), Mixin(key), if |key.input| == 1 then 2 else 1) else Empty
  }

  lemma KdfMirrors(ck: Term, x: Term)
    ensures Mirror(Kdf(ck, x, 1)) == Kdf(ck, x, 2) && Mirror(Kdf(ck, x, 2)) == Kdf(ck, x, 1)
  {
    KdfUnfolds(ck, x, 1);
    KdfUnfolds(ck, x, 2);
  }

  predicate Mirrored(s: Session) {
    s.receiving == Mirror(s.sending) && s.sending == Mirror(s.receiving)
  }

  // ---------------------------------------------------------------------
  // What an observer records.

  datatype Emission = Emission(peer: nat, msg: DataMsg, now: nat, after: State)
  datatype Delivery = Delivery(peer: nat, msg: DataMsg)

  datatype Log = Log(emitted: seq<Emission>, delivered: seq<Delivery>, proved: set<Term>, drawn: set<Secret>)

  function KeyOf(m: DataMsg): Term {
    if m.body.Sealed? then m.body.key else Empty
  }

  function DrawnBy(draws: seq<Draw>): set<Secret> {
    set i | 0 <= i < |draws| :: draws[i].secret
  }

  /** The ephemerals an event hands to the device. */
  function Draws(e: Event): set<Secret> {
    match e
    case CallHandleUdp(_, _, draw, _) => {draw.secret}
    case CallStartHandshake(_, _, _, draw, _) => {draw.secret}
    case CallPollHandshakes(_, _, draws, _) => DrawnBy(draws)
    case _ => {}
  }

  /** The session a data message opens under, as the search over peers finds it. */
  function Opener(d: State, i: nat, m: DataMsg, now: nat, room: nat): Option<Session>
    decreases |d.peers| - i
  {
    if i >= |d.peers| then None
    else
      var p := Expire(d.peers[i], now);
      match Match(p, m.receiver)
      case Neither => Opener(d.With(i, p), i + 1, m, now, room)
      case Current => if OpenMsg(p.current.value, m, room).1.Ok? then p.current else None
      case Previous => if OpenMsg(p.previous.value, m, room).1.Ok? then p.previous else None
  }

  /** Sending keys whose other holder has shown in this call that it derived them: by a
      packet that opened, or by a response that verified. */
  function Evidence(d: State, e: Event): set<Term> {
    if !e.CallHandleUdp? then {}
    else
      match e.datagram
      case DataDatagram(m) =>
        var opener := Opener(d, 0, m, e.now, e.room);
        if opener.Some? then {opener.value.sending} else {}
      case ResponseDatagram(m) =>
        var found := FindPending(d.peers, m.receiver);
        if found.None? || VerifyResponseMac1(d.Mac(), m).Err? then {}
        else
          var p := d.peers[found.value];
          var keys := ConsumeResponse(p.pending.value, d.private, p.psk, m);
          if keys.Ok? then {keys.value.1.sending} else {}
      case _ => {}
  }

  function Emitted(e: Event, after: State, out: Outcome): seq<Emission> {
    if out.Ok? && out.value.Send? && out.value.msg.DataDatagram? && Clock(e).Some?
    then [Emission(out.value.peer, out.value.msg.data, Clock(e).value, after)] else []
  }

  function DeliveredBy(e: Event, out: Outcome): seq<Delivery> {
    if e.CallHandleUdp? && e.datagram.DataDatagram? && out.Ok? && out.value.Receive?
    then [Delivery(out.value.peer, e.datagram.data)] else []
  }

  function Observe(log: Log, d: State, e: Event): Log
    requires Fits(d, e)
  {
    var (after, out) := Step(d, e);
    Log(log.emitted + Emitted(e, after, out), log.delivered + DeliveredBy(e, out),
        log.proved + Evidence(d, e), log.drawn + Draws(e))
  }

  /** The log of a run from a new device. */
  function LogAfter(private: Secret, capacity: nat, events: seq<Event>): Log {
    if events == [] then Log([], [], {}, {})
    else
      var n := |events| - 1;
      var d, log := StateAfter(private, capacity, events[..n]), LogAfter(private, capacity, events[..n]);
      if Fits(d, events[n]) then Observe(log, d, events[n]) else log
  }

  predicate DistinctDraws(e: Event) {
    e.CallPollHandshakes? ==>
      forall i, j :: 0 <= i < j < |e.draws| ==> e.draws[i].secret != e.draws[j].secret
  }

  /** The caller's duty: an ephemeral is never drawn twice. */
  predicate FreshDraws(events: seq<Event>) {
    && (forall i :: 0 <= i < |events| ==> DistinctDraws(events[i]))
    && (forall i, j :: 0 <= i < j < |events| ==> Draws(events[i]) !! Draws(events[j]))
  }

  // ---------------------------------------------------------------------
  // The invariant.

  function EphsOf(s: Option<Session>): set<Secret> {
    if s.Some? && Eph(s.value.sending).Some? then {Eph(s.value.sending).value} else {}
  }

  function PendingEph(p: Peer): set<Secret> {
    if p.pending.Some? then {p.pending.value.ephemeral} else {}
  }

  function Ephs(p: Peer): set<Secret> {
    EphsOf(p.current) + EphsOf(p.previous) + PendingEph(p)
  }

  ghost predicate SessionOk(s: Session, log: Log) {
    && Eph(s.sending).Some? && Eph(s.sending).value in log.drawn
    && Mirrored(s)
    && (s.confirmed ==> s.sending in log.proved)
    && (forall k :: 0 <= k < |log.emitted| && KeyOf(log.emitted[k].msg) == s.sending ==>
                      log.emitted[k].msg.counter < s.sendCounter)
    && (forall k :: 0 <= k < |log.delivered| && KeyOf(log.delivered[k].msg) == s.receiving ==>
                      log.delivered[k].msg.counter in s.accepted)
  }

  ghost predicate PendingOk(h: Handshake, log: Log) {
    && OwnsLadder(h) && h.ephemeral in log.drawn
    && (forall k :: 0 <= k < |log.emitted| ==> Eph(KeyOf(log.emitted[k].msg)) != Some(h.ephemeral))
    && (forall k :: 0 <= k < |log.delivered| ==> Eph(Mirror(KeyOf(log.delivered[k].msg))) != Some(h.ephemeral))
  }

  ghost predicate PeerOk(p: Peer, log: Log) {
    && (p.current.Some? ==> SessionOk(p.current.value, log))
    && (p.previous.Some? ==> SessionOk(p.previous.value, log))
    && (p.pending.Some? ==> PendingOk(p.pending.value, log))
    && EphsOf(p.current) !! EphsOf(p.previous)
    && EphsOf(p.current) + EphsOf(p.previous) !! PendingEph(p)
  }

  /** The promise about one emission, in full. */
  ghost predicate Justified(x: Emission, log: Log) {
    && x.peer < |x.after.peers| && x.after.peers[x.peer].current.Some?
    && var s := x.after.peers[x.peer].current.value;
       && x.msg.body.Sealed? && x.msg.body.key == s.sending && x.msg.body.nonce == x.msg.counter
       && x.msg.counter < Replay.REJECT_AFTER_MESSAGES
       && Since(x.now, s.established) < REJECT_AFTER_TIME_MS
       && s.confirmed && s.sending in log.proved
  }

  ghost predicate EmissionOk(x: Emission, log: Log) {
    && Justified(x, log)
    && Eph(KeyOf(x.msg)).Some? && Eph(KeyOf(x.msg)).value in log.drawn
  }

  ghost predicate DeliveryOk(x: Delivery, log: Log) {
    && x.msg.body.Sealed? && x.msg.body.nonce == x.msg.counter
    && Eph(Mirror(KeyOf(x.msg))).Some? && Eph(Mirror(KeyOf(x.msg))).value in log.drawn
  }

  predicate SameUse(a: DataMsg, b: DataMsg) {
    KeyOf(a) == KeyOf(b) && a.counter == b.counter
  }

  ghost predicate LogOk(log: Log) {
    && (forall k :: 0 <= k < |log.emitted| ==> EmissionOk(log.emitted[k], log))
    && (forall k :: 0 <= k < |log.delivered| ==> DeliveryOk(log.delivered[k], log))
    && (forall j, k :: 0 <= j < k < |log.emitted| ==> !SameUse(log.emitted[j].msg, log.emitted[k].msg))
    && (forall j, k :: 0 <= j < k < |log.delivered| ==> !SameUse(log.delivered[j].msg, log.delivered[k].msg))
  }

  ghost predicate Inv(d: State, log: Log) {
    && LogOk(log)
    && (forall i :: 0 <= i < |d.peers| ==> PeerOk(d.peers[i], log))
    && (forall i, j :: 0 <= i < j < |d.peers| ==> Ephs(d.peers[i]) !! Ephs(d.peers[j]))
  }

  // ---------------------------------------------------------------------
  // Growing the log.

  function Grow(log: Log, proved: set<Term>, drawn: set<Secret>): Log {
    log.(proved := log.proved + proved, drawn := log.drawn + drawn)
  }

  lemma GrowKeeps(d: State, log: Log, proved: set<Term>, drawn: set<Secret>)
    requires Inv(d, log)
    ensures Inv(d, Grow(log, proved, drawn))
  {
    var log' := Grow(log, proved, drawn);
    forall i | 0 <= i < |d.peers| ensures PeerOk(d.peers[i], log') {
      assert PeerOk(d.peers[i], log);
    }
    forall k | 0 <= k < |log.emitted| ensures EmissionOk(log'.emitted[k], log') {
      assert EmissionOk(log.emitted[k], log);
    }
    forall k | 0 <= k < |log.delivered| ensures DeliveryOk(log'.delivered[k], log') {
      assert DeliveryOk(log.delivered[k], log);
    }
  }

  /** Everything a peer holds was drawn at some point. */
  lemma EphsAreDrawn(p: Peer, log: Log)
    requires PeerOk(p, log)
    ensures Ephs(p) <= log.drawn
  {
  }

  /** A peer may be replaced by one that holds no ephemeral but its own and fresh ones. */
  lemma ReplacePeer(d: State, log: Log, i: nat, p: Peer, new_: set<Secret>)
    requires Inv(d, log) && i < |d.peers|
    requires new_ !! log.drawn
    requires Ephs(p) <= Ephs(d.peers[i]) + new_
    requires PeerOk(p, Grow(log, {}, new_))
    ensures Inv(d.With(i, p), Grow(log, {}, new_))
  {
    GrowKeeps(d, log, {}, new_);
    forall j | 0 <= j < |d.peers| ensures Ephs(d.peers[j]) <= log.drawn {
      EphsAreDrawn(d.peers[j], log);
    }
    var d' := d.With(i, p);
    forall j, k | 0 <= j < k < |d'.peers| ensures Ephs(d'.peers[j]) !! Ephs(d'.peers[k]) {
      assert Ephs(d.peers[j]) !! Ephs(d.peers[k]);
    }
  }

  lemma ExpireKeeps(d: State, log: Log, i: nat, now: nat)
    requires Inv(d, log) && i < |d.peers|
    ensures Inv(d.With(i, Expire(d.peers[i], now)), log)
  {
    var p := Expire(d.peers[i], now);
    assert PeerOk(d.peers[i], log);
    assert Grow(log, {}, {}) == log;
    assert PeerOk(p, log);
    ReplacePeer(d, log, i, p, {});
  }

  lemma BudgetIsIrrelevant(d: State, log: Log, budget: Budget)
    requires Inv(d, log)
    ensures Inv(d.(budget := budget), log)
  {
  }

  // ---------------------------------------------------------------------
  // Sending.

  function AddEmission(log: Log, x: Emission): Log {
    log.(emitted := log.emitted + [x])
  }

  /** The sender itself, once its counter has moved past the emission. */
  lemma SentPeerOk(p: Peer, log: Log, x: Emission)
    requires PeerOk(p, log) && p.current.Some?
    requires KeyOf(x.msg) == p.current.value.sending && x.msg.counter == p.current.value.sendCounter
    ensures var s := p.current.value;
            PeerOk(p.(current := Some(s.(sendCounter := s.sendCounter + 1)), armed := None), AddEmission(log, x))
  {
    var s := p.current.value;
    var s' := s.(sendCounter := s.sendCounter + 1);
    assert SessionOk(s, log);
    assert SessionOk(s', AddEmission(log, x));
    if p.previous.Some? {
      assert p.previous.value.sending != s.sending;
    }
  }

  /** The log with one more emission, of a counter not yet used under its key. */
  lemma SentLogOk(log: Log, x: Emission, s: Session)
    requires LogOk(log) && SessionOk(s, log) && Justified(x, log)
    requires KeyOf(x.msg) == s.sending && x.msg.counter == s.sendCounter
    ensures LogOk(AddEmission(log, x))
  {
    var log' := AddEmission(log, x);
    forall k | 0 <= k < |log'.emitted| ensures EmissionOk(log'.emitted[k], log') {
      if k < |log.emitted| {
        assert EmissionOk(log.emitted[k], log);
      }
    }
    forall k | 0 <= k < |log.delivered| ensures DeliveryOk(log'.delivered[k], log') {
      assert DeliveryOk(log.delivered[k], log);
    }
  }

  lemma SendKeeps(d: State, log: Log, i: nat, packet: seq<byte>, room: nat, now: nat)
    requires Inv(d, log) && i < |d.peers| && d.peers[i].current.Some?
    requires d.peers[i].current.value.confirmed && SessionIsAlive(d.peers[i].current.value.established, now)
    ensures var (after, out) := SendUnder(d, i, packet, room);
            && (out.Err? ==> after == d)
            && (out.Ok? ==> out.value.Send? && out.value.peer == i && out.value.msg.DataDatagram?
                            && Inv(after, AddEmission(log, Emission(i, out.value.msg.data, now, after))))
  {
    var (after, out) := SendUnder(d, i, packet, room);
    if out.Ok? {
      var p := d.peers[i];
      var s := p.current.value;
      var x := Emission(i, out.value.msg.data, now, after);
      var log' := AddEmission(log, x);
      assert PeerOk(p, log) && SessionOk(s, log);
      SentLogOk(log, x, s);
      SentPeerOk(p, log, x);
      forall j | 0 <= j < |after.peers| ensures PeerOk(after.peers[j],
          log') && Ephs(after.peers[j]) == Ephs(d.peers[j]) {
        assert PeerOk(d.peers[j], log);
        if j != i {
          assert Ephs(p) !! Ephs(d.peers[j]);
          OtherPeerUnmoved(d.peers[j], log, x, Eph(s.sending).value);
        }
      }
    }
  }

  /** A new emission says nothing about a peer that does not hold its ephemeral. */
  lemma OtherPeerUnmoved(q: Peer, log: Log, x: Emission, e: Secret)
    requires PeerOk(q, log) && Eph(KeyOf(x.msg)) == Some(e) && e !in Ephs(q)
    ensures PeerOk(q, AddEmission(log, x))
  {
  }

  // ---------------------------------------------------------------------
  // Opening.

  function AddDelivery(log: Log, x: Delivery): Log {
    log.(delivered := log.delivered + [x])
  }

  lemma OtherPeerUnmovedByDelivery(q: Peer, log: Log, x: Delivery, e: Secret)
    requires PeerOk(q, log) && Eph(Mirror(KeyOf(x.msg))) == Some(e) && e !in Ephs(q)
    ensures PeerOk(q, AddDelivery(log, x))
  {
  }

  /** A packet that opens shows that the peer holds the mirror of our sending key. */
  lemma OpenedIsEvidence(s: Session, m: DataMsg, room: nat)
    requires Mirrored(s) && OpenMsg(s, m, room).1.Ok?
    ensures m.body.Sealed? && m.body.key == s.receiving && m.body.nonce == m.counter
    ensures s.sending == Mirror(m.body.key)
    ensures Replay.Fresh(s.accepted, m.counter)
  {
  }

  function SlotOf(p: Peer, slot: Slot): Option<Session> {
    match slot
    case Neither => None
    case Current => p.current
    case Previous => p.previous
  }

  /** The peer whose packet opened, under a log that has the evidence. */
  lemma OpenedPeerOk(p: Peer, slot: Slot, m: DataMsg, room: nat, log: Log, delivered: bool)
    requires PeerOk(p, log) && SlotOf(p, slot).Some?
    requires var s := SlotOf(p, slot).value; OpenMsg(s, m, room).1.Ok? && s.sending in log.proved
    ensures var s := SlotOf(p, slot).value;
            var p' := Opened(p, slot, OpenMsg(s, m, room).0);
            Ephs(p') <= Ephs(p)
            && PeerOk(p', if delivered then AddDelivery(log, Delivery(0, m)) else log)
  {
    hide Mirrored, SessionOk, PendingOk, OpenMsg, Eph;
    var s := SlotOf(p, slot).value;
    var log' := if delivered then AddDelivery(log, Delivery(0, m)) else log;
    OpenedSessionOk(s, m, room, log, delivered);
    HasEph(s, log);
    if slot == Current && p.previous.Some? {
      HasEph(p.previous.value, log);
      OtherSessionOk(p.previous.value, s, m, room, log, delivered);
    }
    if p.pending.Some? {
      PendingStaysOk(p.pending.value, s, m, room, log, delivered);
    }
  }

  lemma HasEph(s: Session, log: Log)
    requires SessionOk(s, log)
    ensures Eph(s.sending).Some?
  {
  }

  /** The session that opened it, one counter further. */
  lemma OpenedSessionOk(s: Session, m: DataMsg, room: nat, log: Log, delivered: bool)
    requires SessionOk(s, log) && OpenMsg(s, m, room).1.Ok? && s.sending in log.proved
    ensures var s' := OpenMsg(s, m, room).0;
            && s'.sending == s.sending
            && SessionOk(s'.(confirmed := true), if delivered then AddDelivery(log, Delivery(0, m)) else log)
  {
    OpenedIsEvidence(s, m, room);
    hide Mirrored, Eph;
    var s' := OpenMsg(s, m, room).0.(confirmed := true);
    assert Mirrored(s') by {
      SameKeysMirrored(s, s');
    }
  }

  lemma SameKeysMirrored(s: Session, t: Session)
    requires Mirrored(s) && t.sending == s.sending && t.receiving == s.receiving
    ensures Mirrored(t)
  {
  }

  /** Another session of the same peer, with keys of its own. */
  lemma OtherSessionOk(t: Session, s: Session, m: DataMsg, room: nat, log: Log, delivered: bool)
    requires SessionOk(t, log) && SessionOk(s, log) && Eph(t.sending) != Eph(s.sending) && OpenMsg(s, m, room).1.Ok?
    ensures SessionOk(t, if delivered then AddDelivery(log, Delivery(0, m)) else log)
  {
    OpenedIsEvidence(s, m, room);
    hide Eph, OpenMsg;
    assert t.receiving != s.receiving;
  }

  /** A handshake in flight, whose ephemeral is another one still. */
  lemma PendingStaysOk(h: Handshake, s: Session, m: DataMsg, room: nat, log: Log, delivered: bool)
    requires PendingOk(h, log) && SessionOk(s, log) && Eph(s.sending) != Some(h.ephemeral) && OpenMsg(s, m, room).1.Ok?
    ensures PendingOk(h, if delivered then AddDelivery(log, Delivery(0, m)) else log)
  {
    OpenedIsEvidence(s, m, room);
    hide Eph, OpenMsg;
  }

  lemma OpenAtKeeps(d: State, log: Log, i: nat, slot: Slot, m: DataMsg, now: nat, room: nat)
    requires Inv(d, log) && i < |d.peers| && slot == Match(d.peers[i], m.receiver) != Neither
    requires var s := SlotOf(d.peers[i], slot).value; OpenMsg(s, m, room).1.Ok? ==> s.sending in log.proved
    ensures var (after, out) := OpenAt(d, i, slot, m, now, room);
            && !(out.Ok? && out.value.Send?)
            && (out.Ok? && out.value.Receive? ==> Inv(after, AddDelivery(log, Delivery(out.value.peer, m))))
            && (!(out.Ok? && out.value.Receive?) ==> Inv(after, log))
  {
    var p := d.peers[i];
    var s := SlotOf(p, slot).value;
    var (s', plain) := OpenMsg(s, m, room);
    if plain.Ok? {
      if plain.value != [] && PacketLen(plain.value).Some? {
        var p' := Opened(p, slot, s');
        DeliverKeeps(d, log, i, slot, m, room);
        var armed := p'.(armed := if p'.armed.None? then Some(now) else p'.armed);
        ArmKeeps(d.With(i, p'), AddDelivery(log, Delivery(i, m)), i, armed);
        assert d.With(i, p').With(i, armed) == d.With(i, armed);
      } else {
        OpenKeeps(d, log, i, slot, m, room);
      }
    }
  }

  /** A packet that opens but is not delivered: a keepalive, or not an IP packet. */
  lemma OpenKeeps(d: State, log: Log, i: nat, slot: Slot, m: DataMsg, room: nat)
    requires Inv(d, log) && i < |d.peers| && SlotOf(d.peers[i], slot).Some?
    requires var s := SlotOf(d.peers[i], slot).value; OpenMsg(s, m, room).1.Ok? && s.sending in log.proved
    ensures var s := SlotOf(d.peers[i], slot).value;
            Inv(d.With(i, Opened(d.peers[i], slot, OpenMsg(s, m, room).0)), log)
  {
    assert PeerOk(d.peers[i], log);
    OpenedPeerOk(d.peers[i], slot, m, room, log, false);
    assert Grow(log, {}, {}) == log;
    ReplacePeer(d, log, i, Opened(d.peers[i], slot, OpenMsg(SlotOf(d.peers[i], slot).value, m, room).0), {});
  }

  lemma {:induction false} OpenDataKeeps(d: State, log: Log, i: nat, m: DataMsg, now: nat, room: nat)
    requires Inv(d, log) && i <= |d.peers|
    requires var s := Opener(d, i, m, now, room); s.Some? ==> s.value.sending in log.proved
    ensures var (after, out) := OpenDataFrom(d, i, m, now, room);
            && !(out.Ok? && out.value.Send?)
            && (out.Ok? && out.value.Receive? ==> Inv(after, AddDelivery(log, Delivery(out.value.peer, m))))
            && (!(out.Ok? && out.value.Receive?) ==> Inv(after, log))
    decreases |d.peers| - i
  {
    if i < |d.peers| {
      ExpireKeeps(d, log, i, now);
      var d1 := d.With(i, Expire(d.peers[i], now));
      var slot := Match(d1.peers[i], m.receiver);
      if slot == Neither {
        OpenDataKeeps(d1, log, i + 1, m, now, room);
      } else {
        OpenAtKeeps(d1, log, i, slot, m, now, room);
      }
    }
  }

  lemma ArmKeeps(d: State, log: Log, i: nat, p: Peer)
    requires Inv(d, log) && i < |d.peers|
    requires p == d.peers[i].(armed := p.armed)
    ensures Inv(d.With(i, p), log)
  {
    assert PeerOk(d.peers[i], log);
    assert PeerOk(p, log);
    assert Grow(log, {}, {}) == log;
    ReplacePeer(d, log, i, p, {});
  }

  lemma DeliverKeeps(d: State, log: Log, i: nat, slot: Slot, m: DataMsg, room: nat)
    requires Inv(d, log) && i < |d.peers| && SlotOf(d.peers[i], slot).Some?
    requires var s := SlotOf(d.peers[i], slot).value; OpenMsg(s, m, room).1.Ok? && s.sending in log.proved
    ensures var s := SlotOf(d.peers[i], slot).value;
            Inv(d.With(i, Opened(d.peers[i], slot, OpenMsg(s, m, room).0)), AddDelivery(log, Delivery(i, m)))
  {
    var p := d.peers[i];
    var s := SlotOf(p, slot).value;
    assert PeerOk(p, log) && SessionOk(s, log);
    OpenedIsEvidence(s, m, room);
    hide OpenMsg, OwnEphemeral;
    OpenedPeerOk(p, slot, m, room, log, true);
    var x := Delivery(i, m);
    var log' := AddDelivery(log, x);
    var p' := Opened(p, slot, OpenMsg(s, m, room).0);
    var d' := d.With(i, p');
    SameMessages(p', AddDelivery(log, Delivery(0, m)), log');
    forall k | 0 <= k < |log.emitted| ensures EmissionOk(log'.emitted[k], log') {
      assert EmissionOk(log.emitted[k], log);
    }
    forall k | 0 <= k < |log'.delivered| ensures DeliveryOk(log'.delivered[k], log') {
      if k < |log.delivered| {
        assert DeliveryOk(log.delivered[k], log);
      }
    }
    forall j | 0 <= j < |d'.peers| ensures PeerOk(d'.peers[j], log') {
      assert PeerOk(d.peers[j], log);
      if j != i {
        OtherPeerUnmovedByDelivery(d.peers[j], log, x, Eph(s.sending).value);
      }
    }
  }

  /** Only the messages in a log matter to a peer. */
  lemma SameMessages(p: Peer, log: Log, log': Log)
    requires PeerOk(p, log)
    requires log'.emitted == log.emitted && log'.proved == log.proved && log'.drawn == log.drawn
    requires |log'.delivered| == |log.delivered|
    requires forall k :: 0 <= k < |log.delivered| ==> log'.delivered[k].msg == log.delivered[k].msg
    ensures PeerOk(p, log')
  {
  }

  // ---------------------------------------------------------------------
  // Handshakes.

  lemma StartKeeps(d: State, log: Log, peer: nat, now: nat, timestamp: seq<byte>, draw: Draw, room: nat)
    requires Inv(d, log) && draw.secret !in log.drawn
    ensures Inv(StartHandshake(d, peer, now, timestamp, draw, room).0, Grow(log, {}, {draw.secret}))
  {
    var (after, r) := StartHandshake(d, peer, now, timestamp, draw, room);
    GrowKeeps(d, log, {}, {draw.secret});
    if peer < |d.peers| {
      var d1 := d.(budget := Take(d.budget, now).0);
      BudgetIsIrrelevant(d, log, d1.budget);
      BudgetIsIrrelevant(d, Grow(log, {}, {draw.secret}), d1.budget);
      if r.Ok? {
        var p := d.peers[peer];
        assert PeerOk(p, log);
        EphsAreDrawn(p, log);
        var made := CreateInitiation(d.private, d.Public(), p.public, draw.index, draw.secret, timestamp, room);
        CreatedHandshakeOwnsLadder(d.private, d.Public(), p.public, draw.index, draw.secret, timestamp, room);
        UndrawnIsUnused(log, draw.secret);
        ReplacePeer(d1, log, peer, after.peers[peer], {draw.secret});
      }
    }
  }

  /** No message was ever sealed or delivered under an ephemeral not yet drawn. */
  lemma UndrawnIsUnused(log: Log, e: Secret)
    requires LogOk(log) && e !in log.drawn
    ensures forall k :: 0 <= k < |log.emitted| ==> Eph(KeyOf(log.emitted[k].msg)) != Some(e)
    ensures forall k :: 0 <= k < |log.delivered| ==> Eph(Mirror(KeyOf(log.delivered[k].msg))) != Some(e)
  {
    forall k | 0 <= k < |log.emitted| ensures Eph(KeyOf(log.emitted[k].msg)) != Some(e) {
      assert EmissionOk(log.emitted[k], log);
    }
    forall k | 0 <= k < |log.delivered| ensures Eph(Mirror(KeyOf(log.delivered[k].msg))) != Some(e) {
      assert DeliveryOk(log.delivered[k], log);
    }
  }

  lemma {:induction false} PollHandshakesKeeps(
    d: State, log: Log, i: nat, now: nat, timestamp: seq<byte>, draws: seq<Draw>, room: nat)
    requires Inv(d, log) && |draws| == |d.peers| && i <= |draws|
    requires DrawnBy(draws[i..]) !! log.drawn
    requires forall j, k :: 0 <= j < k < |draws| ==> draws[j].secret != draws[k].secret
    ensures var (after, a) := PollHandshakesFrom(d, i, now, timestamp, draws, room);
            && !(a.Send? && a.msg.DataDatagram?) && !a.Receive?
            && Inv(after, Grow(log, {}, DrawnBy(draws[i..])))
    decreases |d.peers| - i
  {
    hide Inv;
    var all := DrawnBy(draws[i..]);
    GrowKeeps(d, log, {}, all);
    if i < |d.peers| {
      ExpireKeeps(d, log, i, now);
      var d1 := d.With(i, Expire(d.peers[i], now));
      var rest := DrawnBy(draws[i + 1..]);
      var own := draws[i].secret;
      DrawnSplits(draws, i);
      if !WantsHandshake(d1.peers[i], now) {
        PollHandshakesKeeps(d1, log, i + 1, now, timestamp, draws, room);
        var after := PollHandshakesFrom(d1, i + 1, now, timestamp, draws, room).0;
        GrowKeeps(after, Grow(log, {}, rest), {}, {own});
        assert Grow(Grow(log, {}, rest), {}, {own}) == Grow(log, {}, all);
      } else {
        StartKeeps(d1, log, i, now, timestamp, draws[i], room);
        var (d2, r) := StartHandshake(d1, i, now, timestamp, draws[i], room);
        var log2 := Grow(log, {}, {own});
        if r.Err? && r.error != RateLimited {
          PollHandshakesKeeps(d2, log2, i + 1, now, timestamp, draws, room);
          assert Grow(log2, {}, rest) == Grow(log, {}, all);
        } else {
          GrowKeeps(d2, log2, {}, rest);
          assert Grow(log2, {}, rest) == Grow(log, {}, all);
        }
      }
    }
  }

  lemma DrawnSplits(draws: seq<Draw>, i: nat)
    requires i < |draws|
    requires forall j, k :: 0 <= j < k < |draws| ==> draws[j].secret != draws[k].secret
    ensures DrawnBy(draws[i..]) == {draws[i].secret} + DrawnBy(draws[i + 1..])
    ensures draws[i].secret !in DrawnBy(draws[i + 1..])
  {
    assert draws[i..][0] == draws[i];
    assert draws[i + 1..] == draws[i..][1..];
    forall x | x in DrawnBy(draws[i..]) ensures x in {draws[i].secret} + DrawnBy(draws[i + 1..]) {
      var k :| 0 <= k < |draws[i..]| && draws[i..][k].secret == x;
      if k > 0 {
        assert draws[i + 1..][k - 1].secret == x;
      }
    }
  }

  /** A session no message has yet been sent or opened under. */
  lemma NewSessionOk(s: Session, log: Log, e: Secret)
    requires Eph(s.sending) == Some(e) && e in log.drawn && Mirrored(s)
    requires s.confirmed ==> s.sending in log.proved
    requires forall k :: 0 <= k < |log.emitted| ==> Eph(KeyOf(log.emitted[k].msg)) != Some(e)
    requires forall k :: 0 <= k < |log.delivered| ==> Eph(Mirror(KeyOf(log.delivered[k].msg))) != Some(e)
    ensures SessionOk(s, log)
  {
  }

  /** Installing a session: its ephemeral is newly drawn, or was the pending handshake's. */
  lemma InstallKeeps(d: State, log: Log, i: nat, s: Session, stamp: Option<seq<byte>>, new_: set<Secret>)
    requires Inv(d, log) && i < |d.peers| && new_ !! log.drawn
    requires SessionOk(s, Grow(log, {}, new_)) && Eph(s.sending).value in new_ + PendingEph(d.peers[i])
    ensures Inv(d.With(i, Install(d.peers[i], s).(lastTimestamp := stamp)), Grow(log, {}, new_))
  {
    var p := d.peers[i];
    var p' := Install(p, s).(lastTimestamp := stamp);
    var log' := Grow(log, {}, new_);
    assert PeerOk(p, log);
    EphsAreDrawn(p, log);
    GrowKeeps(d, log, {}, new_);
    assert PeerOk(p, log');
    assert EphsOf(p'.current) == {Eph(s.sending).value};
    assert EphsOf(p'.current) !! EphsOf(p'.previous);
    assert PeerOk(p', log');
    ReplacePeer(d, log, i, p', new_);
  }

  lemma RespondKeeps(d: State, log: Log, m: InitiationMsg, now: nat, draw: Draw, room: nat)
    requires Inv(d, log) && draw.secret !in log.drawn
    ensures var (after, out) := RespondToInitiation(d, m, now, draw, room);
            && Inv(after, Grow(log, {}, {draw.secret}))
            && (out.Ok? ==> out.value.Send? && out.value.msg.ResponseDatagram?)
  {
    var (after, out) := RespondToInitiation(d, m, now, draw, room);
    var log' := Grow(log, {}, {draw.secret});
    GrowKeeps(d, log, {}, {draw.secret});
    BudgetIsIrrelevant(d, log, Take(d.budget, now).0);
    BudgetIsIrrelevant(d, log', Take(d.budget, now).0);
    if out.Ok? {
      var i := out.value.peer;
      var p := d.peers[i];
      var seen := ConsumeInitiation(d.private, d.Public(), d.Mac(), m).value;
      var made := CreateResponse(seen, p.psk, draw.index, draw.secret, room).value;
      var s := NewSession(made.1, draw.index, seen.peerIndex, now);
      assert SessionOk(s, log') by {
        ResponderKeyNamesEphemeral(seen, p.psk, draw.index, draw.secret, room);
        ResponderKeysMirror(seen, p.psk, draw.index, draw.secret, room);
        UndrawnIsUnused(log, draw.secret);
        NewSessionOk(s, log', draw.secret);
      }
      ResponderKeyNamesEphemeral(seen, p.psk, draw.index, draw.secret, room);
      InstallKeeps(d.(budget := after.budget), log, i, s, Some(seen.timestamp), {draw.secret});
    }
  }

  lemma ResponderKeysMirror(i: Initiation, psk: Term, index: u32, ephemeral: Secret, room: nat)
    requires CreateResponse(i, psk, index, ephemeral, room).Ok?
    ensures var keys := CreateResponse(i, psk, index, ephemeral, room).value.1;
            keys.receiving == Mirror(keys.sending) && keys.sending == Mirror(keys.receiving)
  {
    var keys := CreateResponse(i, psk, index, ephemeral, room).value.1;
    KdfMirrors(keys.receiving.key.key, Empty);
  }

  lemma InitiatorKeysMirror(h: Handshake, private: Secret, psk: Term, m: ResponseMsg)
    requires ConsumeResponse(h, private, psk, m).Ok?
    ensures var keys := ConsumeResponse(h, private, psk, m).value.1;
            keys.receiving == Mirror(keys.sending) && keys.sending == Mirror(keys.receiving)
  {
    var keys := ConsumeResponse(h, private, psk, m).value.1;
    KdfMirrors(keys.sending.key.key, Empty);
  }

  lemma CompleteKeeps(d: State, log: Log, m: ResponseMsg, now: nat, e: Event)
    requires Inv(d, log) && e.CallHandleUdp? && e.datagram == ResponseDatagram(m)
    requires Evidence(d, e) <= log.proved
    ensures var (after, r) := CompleteHandshake(d, m, now);
            && Inv(after, log)
            && (r.Ok? ==>
                  var s := after.peers[r.value].current.value;
                  s.confirmed && s.established == now && s.sendCounter == 0)
  {
    hide ConsumeResponse, Take, VerifyResponseMac1;
    var (after, r) := CompleteHandshake(d, m, now);
    BudgetIsIrrelevant(d, log, Take(d.budget, now).0);
    if r.Ok? {
      var p := d.peers[r.value];
      var h := p.pending.value;
      var s := after.peers[r.value].current.value;
      InitiatorKeyNamesEphemeral(h, d.private, p.psk, m) by {
        assert PeerOk(p, log);
      }
      assert SessionOk(s, log) by {
        assert PeerOk(p, log) && PendingOk(h, log);
        InitiatorKeysMirror(h, d.private, p.psk, m);
        assert s.sending in Evidence(d, e);
        NewSessionOk(s, log, h.ephemeral);
      }
      assert Grow(log, {}, {}) == log;
      InstallKeeps(d.(budget := after.budget), log, r.value, s, p.lastTimestamp, {});
    }
  }

  lemma {:induction false} PollTimersKeeps(d: State, log: Log, i: nat, now: nat, room: nat)
    requires Inv(d, log) && i <= |d.peers|
    ensures var (after, a) := PollTimersFrom(d, i, now, room);
            && !a.Receive?
            && (a.Send? ==>
                  && a.msg.DataDatagram?
                  && Inv(after, AddEmission(log, Emission(a.peer, a.msg.data, now, after))))
            && (!a.Send? ==> Inv(after, log))
    decreases |d.peers| - i
  {
    hide Inv, Seal;
    if i < |d.peers| {
      ExpireKeeps(d, log, i, now);
      var p := Expire(d.peers[i], now);
      var d1 := d.With(i, p);
      if !KeepaliveIsDue(p.armed, now) || p.current.None? || !p.current.value.confirmed {
        PollTimersKeeps(d1, log, i + 1, now, room);
      } else {
        SendKeeps(d1, log, i, [], room, now);
        if SendUnder(d1, i, [], room).1.Err? {
          PollTimersKeeps(d1, log, i + 1, now, room);
        }
      }
    }
  }

  // ---------------------------------------------------------------------
  // Every step, every run.

  lemma UdpDataKeeps(d: State, log: Log, e: Event)
    requires Inv(d, log) && e.CallHandleUdp? && e.datagram.DataDatagram?
    ensures Inv(Step(d, e).0, Observe(log, d, e))
  {
    var (after, out) := Step(d, e);
    var m := e.datagram.data;
    var grown := Grow(log, Evidence(d, e), {});
    GrowKeeps(d, log, Evidence(d, e), {});
    OpenDataKeeps(d, grown, 0, m, e.now, e.room);
    var seen := if out.Ok? && out.value.Receive? then AddDelivery(grown, Delivery(out.value.peer, m)) else grown;
    GrowKeeps(after, seen, {}, Draws(e));
    assert Observe(log, d, e) == Grow(seen, {}, Draws(e));
  }

  lemma ResponseKeeps(d: State, log: Log, e: Event)
    requires Inv(d, log) && e.CallHandleUdp? && e.datagram.ResponseDatagram?
    requires Evidence(d, e) <= log.proved
    ensures var (after, out) := HandleResponse(d, e.datagram.response, e.now, e.room);
            && (out.Err? ==> Inv(after, log))
            && (out.Ok? ==> out.value.Send? && out.value.msg.DataDatagram?
                            && Inv(after, AddEmission(log, Emission(out.value.peer, out.value.msg.data, e.now, after))))
  {
    CompleteKeeps(d, log, e.datagram.response, e.now, e);
    var (d1, r) := CompleteHandshake(d, e.datagram.response, e.now);
    if r.Ok? {
      SendKeeps(d1, log, r.value, [], e.room, e.now);
    }
  }

  lemma UdpResponseKeeps(d: State, log: Log, e: Event)
    requires Inv(d, log) && e.CallHandleUdp? && e.datagram.ResponseDatagram?
    ensures Inv(Step(d, e).0, Observe(log, d, e))
  {
    var grown := Grow(log, Evidence(d, e), {});
    GrowKeeps(d, log, Evidence(d, e), {});
    ResponseKeeps(d, grown, e);
    var (after, out) := HandleResponse(d, e.datagram.response, e.now, e.room);
    assert Step(d, e) == (after, out);
    var seen := grown.(emitted := grown.emitted + Emitted(e, after, out));
    assert Inv(after, seen) by {
      if out.Ok? {
        assert seen == AddEmission(grown, Emission(out.value.peer, out.value.msg.data, e.now, after));
      } else {
        assert seen == grown;
      }
    }
    GrowKeeps(after, seen, {}, Draws(e));
    assert Observe(log, d, e) == Grow(seen, {}, Draws(e));
  }

  lemma UdpKeeps(d: State, log: Log, e: Event)
    requires Inv(d, log) && e.CallHandleUdp? && Draws(e) !! log.drawn
    ensures Inv(Step(d, e).0, Observe(log, d, e))
  {
    match e.datagram {
      case InitiationDatagram(m) =>
        RespondKeeps(d, log, m, e.now, e.draw, e.room);
        assert Observe(log, d, e) == Grow(log, {}, Draws(e));
      case DataDatagram(_) => UdpDataKeeps(d, log, e);
      case ResponseDatagram(_) => UdpResponseKeeps(d, log, e);
      case _ =>
        GrowKeeps(d, log, {}, Draws(e));
        assert Observe(log, d, e) == Grow(log, {}, Draws(e));
    }
  }

  lemma ConfigKeeps(d: State, log: Log, e: Event)
    requires Inv(d, log) && (e.CallAddPeer? || e.CallSetInitiating?)
    ensures Inv(Step(d, e).0, log)
  {
    var after := Step(d, e).0;
    if e.CallSetInitiating? && e.peer < |d.peers| {
      assert PeerOk(d.peers[e.peer], log);
      assert Grow(log, {}, {}) == log;
      assert PeerOk(after.peers[e.peer], log);
      ReplacePeer(d, log, e.peer, after.peers[e.peer], {});
    } else if e.CallAddPeer? && |d.peers| < d.capacity {
      var n := |d.peers|;
      assert Ephs(after.peers[n]) == {};
    }
  }

  lemma EncapsulateKeeps(d: State, log: Log, peer: nat, packet: seq<byte>, now: nat, room: nat)
    requires Inv(d, log)
    ensures var (after, out) := Encapsulate(d, peer, packet, now, room);
            && (out.Err? ==> Inv(after, log))
            && (out.Ok? ==> out.value.Send? && out.value.msg.DataDatagram?
                            && Inv(after, AddEmission(log, Emission(out.value.peer, out.value.msg.data, now, after))))
  {
    if peer < |d.peers| {
      ExpireKeeps(d, log, peer, now);
      var d1 := d.With(peer, Expire(d.peers[peer], now));
      var current := d1.peers[peer].current;
      if current.Some? && current.value.confirmed {
        SendKeeps(d1, log, peer, packet, room, now);
      }
    }
  }

  lemma StepKeeps(d: State, log: Log, e: Event)
    requires Inv(d, log) && Fits(d, e) && Draws(e) !! log.drawn && DistinctDraws(e)
    ensures Inv(Step(d, e).0, Observe(log, d, e))
  {
    match e {
      case CallHandleUdp(_, _, _, _) => UdpKeeps(d, log, e);
      case CallStartHandshake(peer, now, timestamp, draw, room) =>
        StartKeeps(d, log, peer, now, timestamp, draw, room);
        assert Observe(log, d, e) == Grow(log, {}, {draw.secret});
      case CallPollHandshakes(now, timestamp, draws, room) =>
        assert draws[0..] == draws;
        PollHandshakesKeeps(d, log, 0, now, timestamp, draws, room);
        assert Observe(log, d, e) == Grow(log, {}, DrawnBy(draws));
      case CallEncapsulate(peer, packet, now, room) =>
        EncapsulateKeeps(d, log, peer, packet, now, room);
        var (after, out) := Step(d, e);
        assert Observe(log, d, e) ==
               if out.Ok? then AddEmission(log, Emission(out.value.peer, out.value.msg.data, now, after)) else log;
      case CallPollTimers(now, room) =>
        PollTimersKeeps(d, log, 0, now, room);
        var (after, a) := PollTimersFrom(d, 0, now, room);
        assert Observe(log, d, e) ==
               if a.Send? then AddEmission(log, Emission(a.peer, a.msg.data, now, after)) else log;
      case _ =>
        ConfigKeeps(d, log, e);
        assert Observe(log, d, e) == log;
    }
  }

  lemma {:induction false} RunKeeps(private: Secret, capacity: nat, events: seq<Event>)
    requires FreshDraws(events)
    ensures var d, log := StateAfter(private, capacity, events), LogAfter(private, capacity, events);
            && Inv(d, log)
            && forall x :: x in log.drawn ==> exists i :: 0 <= i < |events| && x in Draws(events[i])
  {
    if events != [] {
      var n := |events| - 1;
      assert forall i :: 0 <= i < n ==> events[..n][i] == events[i];
      RunKeeps(private, capacity, events[..n]);
      var d, log := StateAfter(private, capacity, events[..n]), LogAfter(private, capacity, events[..n]);
      if Fits(d, events[n]) {
        forall x | x in log.drawn ensures x !in Draws(events[n]) {
          var i :| 0 <= i < n && x in Draws(events[..n][i]);
          assert Draws(events[i]) !! Draws(events[n]);
        }
        StepKeeps(d, log, events[n]);
        forall x | x in Observe(log, d, events[n]).drawn
          ensures exists i :: 0 <= i < |events| && x in Draws(events[i])
        {
          if x in log.drawn {
            var i :| 0 <= i < n && x in Draws(events[..n][i]);
            assert x in Draws(events[i]);
          } else {
            assert x in Draws(events[n]);
          }
        }
      } else {
        forall x | x in log.drawn ensures exists i :: 0 <= i < |events| && x in Draws(events[i]) {
          var i :| 0 <= i < n && x in Draws(events[..n][i]);
          assert x in Draws(events[i]);
        }
      }
    }
  }

  /**
   In every run whose ephemerals are fresh, across rekeys, demotions and
   promotions of sessions: no two data messages are sealed under the same key
   and counter.
   */
  lemma NonceNeverReused(private: Secret, capacity: nat, events: seq<Event>)
    requires FreshDraws(events)
    ensures var sent := LogAfter(private, capacity, events).emitted;
            forall j, k :: 0 <= j < k < |sent| ==> !SameUse(sent[j].msg, sent[k].msg)
  {
    RunKeeps(private, capacity, events);
  }

  /**
   Every data message of every run leaves under the sending peer's current
   session, while it is younger than 180 seconds and below the message limit,
   and when by then, in an earlier call or in the one that sends it, a packet
   has opened under that session or a response has verified for it.
   */
  lemma EmissionsJustified(private: Secret, capacity: nat, events: seq<Event>, n: nat)
    requires FreshDraws(events) && n < |events|
    ensures var d, log := StateAfter(private, capacity, events[..n]), LogAfter(private, capacity, events[..n]);
            Fits(d, events[n]) ==>
              forall x :: x in Emitted(events[n], Step(d, events[n]).0, Step(d, events[n]).1) ==>
                            Justified(x, Observe(log, d, events[n]))
  {
    var past := events[..n + 1];
    assert past[..n] == events[..n] && past[n] == events[n];
    assert forall i :: 0 <= i < |past| ==> past[i] == events[i];
    RunKeeps(private, capacity, past);
    var d, log := StateAfter(private, capacity, events[..n]), LogAfter(private, capacity, events[..n]);
    if Fits(d, events[n]) {
      var seen := Observe(log, d, events[n]);
      forall x | x in Emitted(events[n], Step(d, events[n]).0, Step(d, events[n]).1) ensures Justified(x, seen) {
        var k := |log.emitted|;
        assert seen.emitted[k] == x;
        assert EmissionOk(seen.emitted[k], seen);
      }
    }
  }

  /** In every run each packet of each session is delivered at most once, however often it arrives. */
  lemma DeliveredAtMostOnce(private: Secret, capacity: nat, events: seq<Event>)
    requires FreshDraws(events)
    ensures var got := LogAfter(private, capacity, events).delivered;
            forall j, k :: 0 <= j < k < |got| ==> !SameUse(got[j].msg, got[k].msg)
  {
    RunKeeps(private, capacity, events);
  }
}
