/**
 The Noise IKpsk2 handshake in both roles (crates/wg-core/src/noise.rs), over
 symbolic terms. The ladder follows section 5.4 of the WireGuard paper.
 */
module Noise {
  import opened Common
  import opened Symbolic

  const CONSTRUCTION := "Noise_IKpsk2_25519_ChaChaPoly_BLAKE2s"
  const IDENTIFIER := "WireGuard v1 zx2c4 Jason@zx2c4.com"
  const LABEL_MAC1 := "mac1----"

  const TYPE_INITIATION := 1
  const TYPE_RESPONSE := 2
  const INITIATION_LEN := 148
  const RESPONSE_LEN := 92
  const TIMESTAMP_LEN := 12

  /** The fields of a type-1 message, `mac2` aside, which nothing reads. */
  datatype InitiationMsg = InitiationMsg(
    sender: u32, ephemeral: PublicKey, identity: Term, timestamp: Term, mac1: Term)

  /** The fields of a type-2 message, `mac2` aside. */
  datatype ResponseMsg = ResponseMsg(
    sender: u32, receiver: u32, ephemeral: PublicKey, empty: Term, mac1: Term)

  datatype Initiation = Initiation(
    peerStatic: PublicKey, peerEphemeral: PublicKey, peerIndex: u32,
    timestamp: seq<byte>, chainingKey: Term, hash: Term)

  datatype Handshake = Handshake(ephemeral: Secret, chainingKey: Term, hash: Term, localIndex: u32)

  datatype TransportKeys = TransportKeys(receiving: Term, sending: Term)

  function InitialChainingKey(): Term {
    Hash([Label(CONSTRUCTION)])
  }

  function InitialHash(responder: PublicKey): Term {
    Hash([Hash([InitialChainingKey(), Label(IDENTIFIER)]), Point(responder)])
  }

  function Mac1Key(responder: PublicKey): Term {
    Hash([Label(LABEL_MAC1), Point(responder)])
  }

  function InitiationMac(key: Term, sender: u32, e: PublicKey, identity: Term, timestamp: Term): Term {
    Mac(key, [Number(TYPE_INITIATION), Number(sender), Point(e), identity, timestamp])
  }

  function ResponseMac(key: Term, sender: u32, receiver: u32, e: PublicKey, empty: Term): Term {
    Mac(key, [Number(TYPE_RESPONSE), Number(sender), Number(receiver), Point(e), empty])
  }

  function VerifyInitiationMac1(mac1Key: Term, msg: InitiationMsg): Result<(), Error> {
    if msg.mac1 == InitiationMac(mac1Key, msg.sender, msg.ephemeral, msg.identity, msg.timestamp)
    then Ok(()) else Err(InvalidMac)
  }

  function VerifyResponseMac1(mac1Key: Term, msg: ResponseMsg): Result<(), Error> {
    if msg.mac1 == ResponseMac(mac1Key, msg.sender, msg.receiver, msg.ephemeral, msg.empty)
    then Ok(()) else Err(InvalidMac)
  }

  function CreateInitiation(
    private: Secret, public: PublicKey, responder: PublicKey, localIndex: u32,
    ephemeral: Secret, timestamp: seq<byte>, room: nat): (r: Result<(InitiationMsg, Handshake), Error>)
  {
    if room < INITIATION_LEN then Err(BufferTooSmall) else
    var ck := InitialChainingKey();
    var hash := InitialHash(responder);
    var e := PublicOf(ephemeral);
    var ck := Kdf(ck, Point(e), 1);
    var hash := Hash([hash, Point(e)]);
    var es := Dh(ephemeral, responder);
    if es.Err? then Err(es.error) else
    var key := Kdf(ck, es.value, 2);
    var ck := Kdf(ck, es.value, 1);
    var identity := Sealed(key, 0, hash, Point(public));
    var hash := Hash([hash, identity]);
    var ss := Dh(private, responder);
    if ss.Err? then Err(ss.error) else
    var key := Kdf(ck, ss.value, 2);
    var ck := Kdf(ck, ss.value, 1);
    var stamp := Sealed(key, 0, hash, Raw(timestamp));
    var hash := Hash([hash, stamp]);
    var mac1 := InitiationMac(Mac1Key(responder), localIndex, e, identity, stamp);
    Ok((InitiationMsg(localIndex, e, identity, stamp, mac1), Handshake(ephemeral, ck, hash, localIndex)))
  }

  function ConsumeInitiation(private: Secret, public: PublicKey, mac1Key: Term, msg: InitiationMsg)
    : (r: Result<Initiation, Error>)
  {
    if VerifyInitiationMac1(mac1Key, msg).Err? then Err(InvalidMac) else
    var ck := InitialChainingKey();
    var hash := InitialHash(public);
    var ck := Kdf(ck, Point(msg.ephemeral), 1);
    var hash := Hash([hash, Point(msg.ephemeral)]);
    var es := Dh(private, msg.ephemeral);
    if es.Err? then Err(es.error) else
    var key := Kdf(ck, es.value, 2);
    var ck := Kdf(ck, es.value, 1);
    var identity := Open(key, 0, hash, msg.identity);
    if identity.Err? || !identity.value.Point? then Err(Decryption) else
    var peerStatic := identity.value.public;
    var hash := Hash([hash, msg.identity]);
    var ss := Dh(private, peerStatic);
    if ss.Err? then Err(ss.error) else
    var key := Kdf(ck, ss.value, 2);
    var ck := Kdf(ck, ss.value, 1);
    var stamp := Open(key, 0, hash, msg.timestamp);
    if stamp.Err? || !stamp.value.Raw? || |stamp.value.bytes| != TIMESTAMP_LEN then Err(Decryption) else
    var hash := Hash([hash, msg.timestamp]);
    Ok(Initiation(peerStatic, msg.ephemeral, msg.sender, stamp.value.bytes, ck, hash))
  }

  function CreateResponse(
    initiation: Initiation, psk: Term, localIndex: u32, ephemeral: Secret, room: nat)
    : (r: Result<(ResponseMsg, TransportKeys), Error>)
  {
    if room < RESPONSE_LEN then Err(BufferTooSmall) else
    var e := PublicOf(ephemeral);
    var ck := Kdf(initiation.chainingKey, Point(e), 1);
    var hash := Hash([initiation.hash, Point(e)]);
    var ee := Dh(ephemeral, initiation.peerEphemeral);
    if ee.Err? then Err(ee.error) else
    var ck := Kdf(ck, ee.value, 1);
    var se := Dh(ephemeral, initiation.peerStatic);
    if se.Err? then Err(se.error) else
    var ck := Kdf(ck, se.value, 1);
    var tau := Kdf(ck, psk, 2);
    var key := Kdf(ck, psk, 3);
    var ck := Kdf(ck, psk, 1);
    var hash := Hash([hash, tau]);
    var empty := Sealed(key, 0, hash, Empty);
    var mac1 := ResponseMac(Mac1Key(initiation.peerStatic), localIndex, initiation.peerIndex, e, empty);
    Ok((ResponseMsg(localIndex, initiation.peerIndex, e, empty, mac1),
        TransportKeys(Kdf(ck, Empty, 1), Kdf(ck, Empty, 2))))
  }

  function ConsumeResponse(handshake: Handshake, private: Secret, psk: Term, msg: ResponseMsg)
    : (r: Result<(u32, TransportKeys), Error>)
  {
    if msg.receiver != handshake.localIndex then Err(UnknownSession) else
    var ck := Kdf(handshake.chainingKey, Point(msg.ephemeral), 1);
    var hash := Hash([handshake.hash, Point(msg.ephemeral)]);
    var ee := Dh(handshake.ephemeral, msg.ephemeral);
    if ee.Err? then Err(ee.error) else
    var ck := Kdf(ck, ee.value, 1);
    var se := Dh(private, msg.ephemeral);
    if se.Err? then Err(se.error) else
    var ck := Kdf(ck, se.value, 1);
    var tau := Kdf(ck, psk, 2);
    var key := Kdf(ck, psk, 3);
    var ck := Kdf(ck, psk, 1);
    var hash := Hash([hash, tau]);
    var empty := Open(key, 0, hash, msg.empty);
    if empty != Ok(Empty) then Err(Decryption) else
    Ok((msg.sender, TransportKeys(Kdf(ck, Empty, 2), Kdf(ck, Empty, 1))))
  }

  // ---------------------------------------------------------------------
  // The two halves of the first message undo each other.

  /**
   A device accepts an initiation made by `CreateInitiation` exactly when it is
   the one addressed, and then learns the sender's identity, index, ephemeral
   and timestamp, and holds the same chaining key and hash as the sender.
   */
  lemma InitiationReaches(
    private: Secret, responder: PublicKey, index: u32, ephemeral: Secret, timestamp: seq<byte>, room: nat,
    listener: Secret)
    requires |timestamp| == TIMESTAMP_LEN
    requires CreateInitiation(private, PublicOf(private), responder, index, ephemeral, timestamp, room).Ok?
    ensures var (msg, h) := CreateInitiation(private, PublicOf(private), responder, index, ephemeral, timestamp,
        room).value;
            var got := ConsumeInitiation(listener, PublicOf(listener), Mac1Key(PublicOf(listener)), msg);
            && (got.Ok? <==> responder == PublicOf(listener))
            && (got.Ok? ==>
                  got.value == Initiation(PublicOf(private), PublicOf(ephemeral), index, timestamp, h.chainingKey,
                      h.hash))
            && (got.Err? ==> got.error == InvalidMac)
  {
    var (msg, h) := CreateInitiation(private, PublicOf(private), responder, index, ephemeral, timestamp, room).value;
    if responder == PublicOf(listener) {
      DhAgrees(ephemeral, listener, listener);
      DhAgrees(private, listener, listener);
    } else {
      var k, k' := Mac1Key(responder), Mac1Key(PublicOf(listener));
      assert k.parts[1] != k'.parts[1];
    }
  }

  /** The converse: an initiation that is accepted is, field for field, the one
      `CreateInitiation` makes for the identity and timestamp it revealed. */
  lemma AcceptedInitiationIsGenuine(listener: Secret, msg: InitiationMsg)
    requires ConsumeInitiation(listener, PublicOf(listener), Mac1Key(PublicOf(listener)), msg).Ok?
    ensures var i := ConsumeInitiation(listener, PublicOf(listener), Mac1Key(PublicOf(listener)), msg).value;
            && i.peerStatic.PublicOf? && i.peerEphemeral.PublicOf? && |i.timestamp| == TIMESTAMP_LEN
            && var made := CreateInitiation(i.peerStatic.secret, i.peerStatic, PublicOf(listener), i.peerIndex,
                                            i.peerEphemeral.secret, i.timestamp, INITIATION_LEN);
               && made.Ok? && made.value.0 == msg
               && made.value.1.chainingKey == i.chainingKey && made.value.1.hash == i.hash
  {
    var i := ConsumeInitiation(listener, PublicOf(listener), Mac1Key(PublicOf(listener)), msg).value;
    DhAgrees(listener, i.peerEphemeral.secret, listener);
    DhAgrees(listener, i.peerStatic.secret, listener);
  }

  // ---------------------------------------------------------------------
  // The second message.

  /** Both sides have walked the same ladder so far and agree on who they are. */
  predicate SameTranscript(h: Handshake, private: Secret, i: Initiation) {
    && i.peerIndex == h.localIndex
    && i.chainingKey == h.chainingKey
    && i.hash == h.hash
    && i.peerEphemeral == PublicOf(h.ephemeral)
    && i.peerStatic == PublicOf(private)
  }

  /**
   The initiator accepts a response made by any responder, from any initiation
   state and with any pre-shared key, exactly when both walked the same
   transcript and hold the same pre-shared key. Then the keys are mirrored.
   */
  lemma ResponseAcceptedIff(
    h: Handshake, private: Secret, psk: Term, i: Initiation, psk': Term, index: u32, ephemeral: Secret, room: nat)
    requires CreateResponse(i, psk', index, ephemeral, room).Ok?
    ensures var (msg, theirs) := CreateResponse(i, psk', index, ephemeral, room).value;
            var got := ConsumeResponse(h, private, psk, msg);
            && (got.Ok? <==> SameTranscript(h, private, i) && psk == psk')
            && (got.Ok? ==>
                  && got.value.0 == index
                  && got.value.1.sending == theirs.receiving
                  && got.value.1.receiving == theirs.sending
                  && theirs.sending != theirs.receiving)
  {
    var (msg, theirs) := CreateResponse(i, psk', index, ephemeral, room).value;
    var got := ConsumeResponse(h, private, psk, msg);
    DhAgrees(ephemeral, h.ephemeral, i.peerEphemeral.secret);
    DhAgrees(ephemeral, private, i.peerStatic.secret);
    if got.Ok? {
      Unwind(h, private, psk, i, psk', ephemeral, msg);
    }
  }

  /** The chaining key just before the pre-shared key is mixed in. */
  function Mixed(ck: Term, e: PublicKey, ee: Term, se: Term): Term {
    Kdf(Kdf(Kdf(ck, Point(e), 1), ee, 1), se, 1)
  }

  lemma MixedInjective(ck: Term, e: PublicKey, ee: Term, se: Term, ck': Term, e': PublicKey, ee': Term, se': Term)
    requires Mixed(ck, e, ee, se) == Mixed(ck', e', ee', se')
    ensures ck == ck' && e == e' && ee == ee' && se == se'
  {
    var a, a' := Kdf(ck, Point(e), 1), Kdf(ck', Point(e'), 1);
    KdfInjective(Kdf(a, ee, 1), se, 1, Kdf(a', ee', 1), se', 1);
    KdfInjective(a, ee, 1, a', ee', 1);
    KdfInjective(ck, Point(e), 1, ck', Point(e'), 1);
  }

  lemma Unwind(h: Handshake, private: Secret, psk: Term, i: Initiation, psk': Term, ephemeral: Secret, msg: ResponseMsg)
    requires CreateResponse(i, psk', msg.sender, ephemeral, RESPONSE_LEN).Ok?
    requires msg == CreateResponse(i, psk', msg.sender, ephemeral, RESPONSE_LEN).value.0
    requires ConsumeResponse(h, private, psk, msg).Ok?
    ensures SameTranscript(h, private, i) && psk == psk'
  {
    var e := PublicOf(ephemeral);
    var ee, se := Dh(h.ephemeral, e).value, Dh(private, e).value;
    var ee', se' := Dh(ephemeral, i.peerEphemeral).value, Dh(ephemeral, i.peerStatic).value;
    var mine, theirs := Mixed(h.chainingKey, e, ee, se), Mixed(i.chainingKey, e, ee', se');
    KdfInjective(mine, psk, 3, theirs, psk', 3);
    MixedInjective(h.chainingKey, e, ee, se, i.chainingKey, e, ee', se');
    DhAgrees(ephemeral, h.ephemeral, i.peerEphemeral.secret);
    DhAgrees(ephemeral, private, i.peerStatic.secret);
    var hh, ih := Hash([h.hash, Point(e)]), Hash([i.hash, Point(e)]);
    assert Hash([hh, Kdf(mine, psk, 2)]).parts[0] == Hash([ih, Kdf(theirs, psk', 2)]).parts[0];
    assert hh.parts[0] == ih.parts[0];
  }

  /** The converse for responses: one that passes `mac1` and is accepted is the
      message `CreateResponse` makes from the matching transcript. */
  lemma AcceptedResponseIsGenuine(h: Handshake, private: Secret, psk: Term, msg: ResponseMsg, timestamp: seq<byte>)
    requires VerifyResponseMac1(Mac1Key(PublicOf(private)), msg).Ok?
    requires ConsumeResponse(h, private, psk, msg).Ok?
    ensures var i := Initiation(PublicOf(private), PublicOf(h.ephemeral), h.localIndex, timestamp, h.chainingKey,
        h.hash);
            && msg.ephemeral.PublicOf?
            && var made := CreateResponse(i, psk, msg.sender, msg.ephemeral.secret, RESPONSE_LEN);
               made.Ok? && made.value.0 == msg
  {
    DhAgrees(h.ephemeral, msg.ephemeral.secret, private);
    DhAgrees(private, msg.ephemeral.secret, private);
  }

  // ---------------------------------------------------------------------
  // The four functions, run in order.

  /**
   For all identities, ephemerals, pre-shared keys, indices and timestamps: the
   responder recovers who called and when, and the initiator accepts the answer
   exactly when the pre-shared keys agree, ending with the mirror image of the
   responder's keys.
   */
  lemma HandshakeAgrees(
    initiator: Secret, responder: Secret, ei: Secret, er: Secret, psk: Term, psk': Term,
    indexI: u32, indexR: u32, timestamp: seq<byte>)
    requires |timestamp| == TIMESTAMP_LEN
    ensures
      var first := CreateInitiation(initiator, PublicOf(initiator), PublicOf(responder), indexI, ei, timestamp,
          INITIATION_LEN);
      && first.Ok?
      && var seen := ConsumeInitiation(responder, PublicOf(responder), Mac1Key(PublicOf(responder)), first.value.0);
      && seen.Ok? && seen.value.peerStatic == PublicOf(initiator) && seen.value.timestamp == timestamp
      && seen.value.peerIndex == indexI
      && var second := CreateResponse(seen.value, psk', indexR, er, RESPONSE_LEN);
      && second.Ok?
      && VerifyResponseMac1(Mac1Key(PublicOf(initiator)), second.value.0).Ok?
      && var done := ConsumeResponse(first.value.1, initiator, psk, second.value.0);
      && (psk != psk' ==> done == Err(Decryption))
      && (psk == psk' ==> done == Ok((indexR, TransportKeys(second.value.1.sending, second.value.1.receiving))))
  {
    var first := CreateInitiation(initiator, PublicOf(initiator), PublicOf(responder), indexI, ei, timestamp,
        INITIATION_LEN);
    InitiationReaches(initiator, PublicOf(responder), indexI, ei, timestamp, INITIATION_LEN, responder);
    var seen := ConsumeInitiation(responder, PublicOf(responder), Mac1Key(PublicOf(responder)), first.value.0).value;
    ResponseAcceptedIff(first.value.1, initiator, psk, seen, psk', indexR, er, RESPONSE_LEN);
  }

  // ---------------------------------------------------------------------
  // The ladder of the paper, from all the secrets at once.

  /** A shared secret, as an unordered pair. */
  function Pair(a: Secret, b: Secret): Term {
    Shared(Min(a, b), Max(a, b))
  }

  /** Everything that is mixed in, in the order of section 5.4: ephemeral, exchanges, the key in advance. */
  function PaperInputs(si: Secret, sr: Secret, ei: Secret, er: Secret, psk: Term): (r: seq<Term>)
    ensures |r| == 7
  {
    [Point(PublicOf(ei)), Pair(ei, sr), Pair(si, sr), Point(PublicOf(er)), Pair(er, ei), Pair(er, si), psk]
  }

  function Ladder(ck: Term, inputs: seq<Term>): Term {
    if inputs == [] then ck else Kdf(Ladder(ck, inputs[..|inputs| - 1]), inputs[|inputs| - 1], 1)
  }

  /** The key for data from the initiator, or from the responder. */
  function PaperKey(si: Secret, sr: Secret, ei: Secret, er: Secret, psk: Term, fromInitiator: bool): Term {
    Kdf(Ladder(Hash([Label("Noise_IKpsk2_25519_ChaChaPoly_BLAKE2s")]), PaperInputs(si, sr, ei, er, psk)), Empty,
        if fromInitiator then 1 else 2)
  }

  lemma LadderStep(ck: Term, inputs: seq<Term>, x: Term)
    ensures Ladder(ck, inputs + [x]) == Kdf(Ladder(ck, inputs), x, 1)
  {
    assert (inputs + [x])[..|inputs|] == inputs;
  }

  lemma LadderOfSeven(ck: Term, t: seq<Term>)
    requires |t| == 7
    ensures Ladder(ck, t)
         == Kdf(Kdf(Kdf(Kdf(Kdf(Kdf(Kdf(ck, t[0], 1), t[1], 1), t[2], 1), t[3], 1), t[4], 1), t[5], 1), t[6], 1)
  {
    hide Kdf;
    LadderStep(ck, [], t[0]);
    LadderStep(ck, t[..1], t[1]);
    LadderStep(ck, t[..2], t[2]);
    LadderStep(ck, t[..3], t[3]);
    LadderStep(ck, t[..4], t[4]);
    LadderStep(ck, t[..5], t[5]);
    LadderStep(ck, t[..6], t[6]);
    assert [] + [t[0]] == t[..1] && t[..1] + [t[1]] == t[..2] && t[..2] + [t[2]] == t[..3];
    assert t[..3] + [t[3]] == t[..4] && t[..4] + [t[4]] == t[..5] && t[..5] + [t[5]] == t[..6] && t[..6] + [t[6]] == t;
  }

  /** Both sides arrive at the keys of the paper. */
  lemma KeysFollowThePaper(
    initiator: Secret, responder: Secret, ei: Secret, er: Secret, psk: Term,
    indexI: u32, indexR: u32, timestamp: seq<byte>)
    requires |timestamp| == TIMESTAMP_LEN
    ensures
      var first := CreateInitiation(initiator, PublicOf(initiator), PublicOf(responder), indexI, ei, timestamp,
          INITIATION_LEN);
      && first.Ok?
      && var seen := ConsumeInitiation(responder, PublicOf(responder), Mac1Key(PublicOf(responder)), first.value.0);
      && seen.Ok?
      && var second := CreateResponse(seen.value, psk, indexR, er, RESPONSE_LEN);
      && second.Ok?
      && second.value.1.sending == PaperKey(initiator, responder, ei, er, psk, false)
      && second.value.1.receiving == PaperKey(initiator, responder, ei, er, psk, true)
  {
    InitiationReaches(initiator, PublicOf(responder), indexI, ei, timestamp, INITIATION_LEN, responder);
    LadderOfSeven(InitialChainingKey(), PaperInputs(initiator, responder, ei, er, psk));
  }

  lemma {:induction false} LadderInjective(ck: Term, a: seq<Term>, b: seq<Term>)
    requires |a| == |b| && Ladder(ck, a) == Ladder(ck, b)
    ensures a == b
    decreases |a|
  {
    if a != [] {
      var n := |a| - 1;
      KdfInjective(Ladder(ck, a[..n]), a[n], 1, Ladder(ck, b[..n]), b[n], 1);
      LadderInjective(ck, a[..n], b[..n]);
      assert a == a[..n] + [a[n]] && b == b[..n] + [b[n]];
    }
  }

  /** A key belongs to one pair of identities, one pair of ephemerals and one key in advance, and to one direction. */
  lemma KeyNamesTheHandshake(
    si: Secret, sr: Secret, ei: Secret, er: Secret, psk: Term, d: bool,
    si': Secret, sr': Secret, ei': Secret, er': Secret, psk': Term, d': bool)
    requires PaperKey(si, sr, ei, er, psk, d) == PaperKey(si', sr', ei', er', psk', d')
    ensures si == si' && sr == sr' && ei == ei' && er == er' && psk == psk' && d == d'
  {
    var a, b := PaperInputs(si, sr, ei, er, psk), PaperInputs(si', sr', ei', er', psk');
    var ck := Hash([Label("Noise_IKpsk2_25519_ChaChaPoly_BLAKE2s")]);
    KdfInjective(Ladder(ck, a), Empty, if d then 1 else 2, Ladder(ck, b), Empty, if d' then 1 else 2);
    LadderInjective(ck, a, b);
    assert a[0] == b[0] && a[1] == b[1] && a[3] == b[3] && a[5] == b[5] && a[6] == b[6];
  }

  // ---------------------------------------------------------------------
  // A transport key names the ephemeral that its owner contributed.

  function Chain(t: Term): Term {
    if t.Hmac? && t.key.Hmac? then t.key.key else Empty
  }

  function Mixin(t: Term): Term {
    if t.Hmac? && t.key.Hmac? && |t.key.input| == 1 then t.key.input[0] else Empty
  }

  /** Read back, from a sending key, the ephemeral its owner drew: the first
      output belongs to the initiator, the second to the responder. */
  function OwnEphemeral(sending: Term): Term {
    var beforePsk := Chain(Chain(sending));
    var afterResponder := Chain(Chain(beforePsk));
    if sending.Hmac? && |sending.input| == 1
    then Mixin(Chain(Chain(Chain(afterResponder))))
    else Mixin(afterResponder)
  }

  lemma KdfUnfolds(ck: Term, x: Term, i: nat)
    requires 1 <= i <= 3
    ensures Chain(Kdf(ck, x, i)) == ck && Mixin(Kdf(ck, x, i)) == x
    ensures Kdf(ck, x, i).Hmac? && (|Kdf(ck, x, i).input| == 1 <==> i == 1)
  {
  }

  lemma ResponderKeyNamesEphemeral(i: Initiation, psk: Term, index: u32, ephemeral: Secret, room: nat)
    requires CreateResponse(i, psk, index, ephemeral, room).Ok?
    ensures OwnEphemeral(CreateResponse(i, psk, index, ephemeral, room).value.1.sending) == Point(PublicOf(ephemeral))
  {
    var e := PublicOf(ephemeral);
    var ee, se := Dh(ephemeral, i.peerEphemeral).value, Dh(ephemeral, i.peerStatic).value;
    var a := Kdf(i.chainingKey, Point(e), 1);
    var b := Kdf(a, ee, 1);
    var c := Kdf(b, se, 1);
    KdfUnfolds(i.chainingKey, Point(e), 1);
    KdfUnfolds(a, ee, 1);
    KdfUnfolds(b, se, 1);
    KdfUnfolds(c, psk, 1);
    KdfUnfolds(Kdf(c, psk, 1), Empty, 2);
  }

  /** A handshake as `CreateInitiation` leaves it: its chaining key starts from its own ephemeral. */
  predicate OwnsLadder(h: Handshake) {
    Mixin(Chain(Chain(h.chainingKey))) == Point(PublicOf(h.ephemeral))
  }

  lemma CreatedHandshakeOwnsLadder(
    private: Secret, public: PublicKey, responder: PublicKey, index: u32, ephemeral: Secret, timestamp: seq<byte>,
    room: nat)
    requires CreateInitiation(private, public, responder, index, ephemeral, timestamp, room).Ok?
    ensures OwnsLadder(CreateInitiation(private, public, responder, index, ephemeral, timestamp, room).value.1)
  {
    var a := Kdf(InitialChainingKey(), Point(PublicOf(ephemeral)), 1);
    var es, ss := Dh(ephemeral, responder).value, Dh(private, responder).value;
    KdfUnfolds(InitialChainingKey(), Point(PublicOf(ephemeral)), 1);
    KdfUnfolds(a, es, 1);
    KdfUnfolds(Kdf(a, es, 1), ss, 1);
  }

  lemma InitiatorKeyNamesEphemeral(h: Handshake, private: Secret, psk: Term, msg: ResponseMsg)
    requires OwnsLadder(h) && ConsumeResponse(h, private, psk, msg).Ok?
    ensures OwnEphemeral(ConsumeResponse(h, private, psk, msg).value.1.sending) == Point(PublicOf(h.ephemeral))
  {
    var ee, se := Dh(h.ephemeral, msg.ephemeral).value, Dh(private, msg.ephemeral).value;
    var a := Kdf(h.chainingKey, Point(msg.ephemeral), 1);
    var b := Kdf(a, ee, 1);
    var c := Kdf(b, se, 1);
    KdfUnfolds(h.chainingKey, Point(msg.ephemeral), 1);
    KdfUnfolds(a, ee, 1);
    KdfUnfolds(b, se, 1);
    KdfUnfolds(c, psk, 1);
    KdfUnfolds(Kdf(c, psk, 1), Empty, 1);
  }

  // ---------------------------------------------------------------------
  // TAI64N order.

  /** Lexicographic order, as Rust compares byte arrays. */
  predicate TimestampIsNewer(candidate: seq<byte>, last: seq<byte>) {
    |candidate| > 0 && (|last| == 0 || candidate[0] > last[0]
      || (candidate[0] == last[0] && TimestampIsNewer(candidate[1..], last[1..])))
  }

  /** The time a timestamp denotes: its bytes as one big-endian number. */
  function BigEndian(s: seq<byte>): (v: nat) {
    if s == [] then 0 else 256 * BigEndian(s[..|s| - 1]) + s[|s| - 1]
  }

  /** The same order, decided from the last byte backwards. */
  lemma {:induction false} NewerByLastByte(a: seq<byte>, b: seq<byte>)
    requires |a| == |b| > 0
    ensures var n := |a| - 1;
            TimestampIsNewer(a, b) <==>
              TimestampIsNewer(a[..n], b[..n]) || (a[..n] == b[..n] && a[n] > b[n])
  {
    var n := |a| - 1;
    if n > 0 {
      NewerByLastByte(a[1..], b[1..]);
      assert a[1..][..n - 1] == a[..n][1..] && b[1..][..n - 1] == b[..n][1..];
      assert a[..n] == [a[0]] + a[..n][1..] && b[..n] == [b[0]] + b[..n][1..];
    }
  }

  /** Byte order is chronological order: comparing as the code does compares the times denoted. */
  lemma {:induction false} NewerIsLater(a: seq<byte>, b: seq<byte>)
    requires |a| == |b|
    ensures TimestampIsNewer(a, b) <==> BigEndian(a) > BigEndian(b)
    ensures a == b <==> BigEndian(a) == BigEndian(b)
  {
    if a != [] {
      var n := |a| - 1;
      NewerByLastByte(a, b);
      NewerIsLater(a[..n], b[..n]);
      assert a == a[..n] + [a[n]] && b == b[..n] + [b[n]];
    }
  }
}
