/**
 Transport sessions: sealing and opening type-4 messages
 (crates/wg-core/src/transport.rs) and recovering the inner packet's length
 (crates/wg-core/src/ip.rs).
 */
module Transport {
  import opened Common
  import opened Symbolic
  import opened Replay
  import opened Noise
  import Timers

  const PAD_TO := 16
  const TAG_LEN := 16
  const DATA_HEADER_LEN := 16

  /** A type-4 message: header fields, the sealed body and its length on the wire. */
  datatype DataMsg = DataMsg(receiver: u32, counter: u64, body: Term, bodyLen: nat)

  /** A session's fields, with the replay window as the set of counters accepted. */
  datatype Session = Session(
    localIndex: u32, peerIndex: u32, sending: Term, receiving: Term,
    sendCounter: nat, accepted: set<nat>, established: nat, confirmed: bool)

  function NewSession(keys: TransportKeys, localIndex: u32, peerIndex: u32, now: nat): Session {
    Session(localIndex, peerIndex, keys.sending, keys.receiving, 0, {}, now, false)
  }

  predicate IsUsable(s: Session, now: nat) {
    Timers.SessionIsAlive(s.established, now) && s.sendCounter < REJECT_AFTER_MESSAGES
  }

  function PaddedLen(n: nat): (r: nat)
    ensures n <= r < n + PAD_TO && r % PAD_TO == 0
  {
    (n + PAD_TO - 1) / PAD_TO * PAD_TO
  }

  function Pad(packet: seq<byte>): (r: seq<byte>)
    ensures |r| == PaddedLen(|packet|) && packet <= r
  {
    packet + seq(PaddedLen(|packet|) - |packet|, _ => 0)
  }

  function Seal(s: Session, packet: seq<byte>, room: nat): (r: (Session, Result<DataMsg, Error>)) {
    if room < DATA_HEADER_LEN + PaddedLen(|packet|) + TAG_LEN then (s, Err(BufferTooSmall))
    else if s.sendCounter >= REJECT_AFTER_MESSAGES then (s, Err(SessionExpired))
    else
      (s.(sendCounter := s.sendCounter + 1),
       Ok(DataMsg(s.peerIndex, s.sendCounter, Sealed(s.sending, s.sendCounter, Empty, Raw(Pad(packet))),
                  PaddedLen(|packet|) + TAG_LEN)))
  }

  /** The plaintext of a message under a key, if it is genuine and of the stated length. */
  function Decrypt(key: Term, m: DataMsg): (r: Option<seq<byte>>) {
    var plain := Symbolic.Open(key, m.counter, Empty, m.body);
    if plain.Ok? && plain.value.Raw? && |plain.value.bytes| + TAG_LEN == m.bodyLen
    then Some(plain.value.bytes) else None
  }

  function OpenMsg(s: Session, m: DataMsg, room: nat): (r: (Session, Result<seq<byte>, Error>)) {
    if m.bodyLen < TAG_LEN || (m.bodyLen - TAG_LEN) % PAD_TO != 0 then (s, Err(Malformed))
    else if room < m.bodyLen - TAG_LEN then (s, Err(BufferTooSmall))
    else if m.counter >= REJECT_AFTER_MESSAGES then (s, Err(SessionExpired))
    else
      var plain := Decrypt(s.receiving, m);
      if plain.None? then (s, Err(Decryption))
      else if !Fresh(s.accepted, m.counter) then (s, Err(ReplayedCounter))
      else (s.(accepted := s.accepted + {m.counter}), Ok(plain.value))
  }

  /** What one end seals the other opens, once: the first copy yields the padded
      packet, every later copy is refused as a replay, and neither touches the keys. */
  lemma SealThenOpen(a: Session, b: Session, packet: seq<byte>, room: nat)
    requires a.sending == b.receiving
    requires Fresh(b.accepted, a.sendCounter) && Seal(a, packet, room).1.Ok?
    ensures var m := Seal(a, packet, room).1.value;
            && OpenMsg(b, m, room).1 == Ok(Pad(packet))
            && OpenMsg(OpenMsg(b, m, room).0, m, room).1 == Err(ReplayedCounter)
            && OpenMsg(b, m, room).0 == b.(accepted := b.accepted + {a.sendCounter})
  {
  }

  /** The class: fields updated in place, the replay history in its bitmap. */
  class SessionObject {
    const localIndex: u32
    const peerIndex: u32
    const sending: Term
    const receiving: Term
    var sendCounter: nat
    const replay: ReplayWindow
    const established: nat
    var confirmed: bool

    ghost predicate Valid()
      reads this, replay
    {
      replay.Valid()
    }

    ghost function View(): Session
      reads this, replay
    {
      Session(localIndex, peerIndex, sending, receiving, sendCounter, replay.accepted, established, confirmed)
    }

    constructor (keys: TransportKeys, localIndex: u32, peerIndex: u32, now: nat)
      ensures Valid() && fresh(replay) && View() == NewSession(keys, localIndex, peerIndex, now)
    {
      this.localIndex := localIndex;
      this.peerIndex := peerIndex;
      sending := keys.sending;
      receiving := keys.receiving;
      sendCounter := 0;
      established := now;
      confirmed := false;
      replay := new ReplayWindow();
    }

    method SealPacket(packet: seq<byte>, room: nat) returns (r: Result<DataMsg, Error>)
      requires Valid()
      modifies this
      ensures Valid() && (View(), r) == Seal(old(View()), packet, room)
    {
      var padded := PaddedLen(|packet|);
      if room < DATA_HEADER_LEN + padded + TAG_LEN {
        return Err(BufferTooSmall);
      }
      var counter := sendCounter;
      if counter >= REJECT_AFTER_MESSAGES {
        return Err(SessionExpired);
      }
      sendCounter := sendCounter + 1;
      var body := packet + seq(padded - |packet|, _ => 0);
      r := Ok(DataMsg(peerIndex, counter, Sealed(sending, counter, Empty, Raw(body)), padded + TAG_LEN));
    }

    /** The window is consulted, and changed, only once the tag has verified. */
    method OpenPacket(m: DataMsg, room: nat) returns (r: Result<seq<byte>, Error>)
      requires Valid()
      modifies replay
      ensures Valid() && (View(), r) == OpenMsg(old(View()), m, room)
      ensures r.Err? ==> View() == old(View())
    {
      if m.bodyLen < TAG_LEN || (m.bodyLen - TAG_LEN) % PAD_TO != 0 {
        return Err(Malformed);
      }
      if room < m.bodyLen - TAG_LEN {
        return Err(BufferTooSmall);
      }
      if m.counter >= REJECT_AFTER_MESSAGES {
        return Err(SessionExpired);
      }
      var plain := Decrypt(receiving, m);
      if plain.None? {
        return Err(Decryption);
      }
      var ok := replay.Accept(m.counter);
      if !ok {
        return Err(ReplayedCounter);
      }
      return Ok(plain.value);
    }
  }

  // ---------------------------------------------------------------------
  // Undoing the padding.

  function Word(s: seq<byte>, i: nat): u16
    requires i + 1 < |s|
  {
    s[i] as int * 256 + s[i + 1] as int
  }

  /** The length an inner IPv4 or IPv6 packet declares, if it fits. */
  function PacketLen(padded: seq<byte>): (r: Option<nat>)
    ensures r.Some? ==> r.value <= |padded|
  {
    if padded == [] then None
    else
      var version := padded[0] / 16;
      if version == 4 then
        if |padded| < 4 then None
        else if Word(padded, 2) <= |padded| then Some(Word(padded, 2)) else None
      else if version == 6 then
        if |padded| < 6 then None
        else if Word(padded, 4) + 40 <= |padded| then Some(Word(padded, 4) + 40) else None
      else None
  }

  /**
   The IP header at the front of `s` says that the packet is `n` bytes long: the
   total length of version 4 in bytes 2 and 3, the payload length of version 6 in
   bytes 4 and 5, which leaves out its own forty bytes.
   */
  predicate Declares(s: seq<byte>, n: nat) {
    || (|s| >= 4 && 0x40 <= s[0] < 0x50 && s[2] as int * 256 + s[3] as int == n)
    || (|s| >= 6 && 0x60 <= s[0] < 0x70 && s[4] as int * 256 + s[5] as int == n - 40)
  }

  /** `packet_len` reads exactly that, and refuses every other version and every length past the end. */
  lemma PacketLenIff(s: seq<byte>, n: nat)
    ensures PacketLen(s) == Some(n) <==> Declares(s, n) && n <= |s|
  {
  }

  /** The padding is undone exactly when the packet's own header states its length. */
  lemma PaddingUndone(packet: seq<byte>)
    ensures PacketLen(Pad(packet)) == Some(|packet|) <==> Declares(packet, |packet|)
  {
    PacketLenIff(Pad(packet), |packet|);
    assert forall i :: 0 <= i < |packet| ==> Pad(packet)[i] == packet[i];
    assert forall i :: |packet| <= i < |Pad(packet)| ==> Pad(packet)[i] == 0;
  }
}
