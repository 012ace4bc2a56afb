/**
 The primitives of crates/wg-core/src/crypto.rs as symbolic terms. Hash, HMAC
 and MAC are free constructors, a Diffie-Hellman output is an unordered pair of
 secrets, and a sealed term opens only under the key, nonce and associated data
 it was sealed with.
 */
module Symbolic {
  import opened Common

  type Secret = nat

  /** A point is either the public half of a secret or one of the low-order
      points, for which the shared secret is not contributory. */
  datatype PublicKey = PublicOf(secret: Secret) | LowOrder(point: nat)

  datatype Term =
    | Empty
    | Label(text: string)
    | Number(n: nat)
    | Raw(bytes: seq<byte>)
    | Point(public: PublicKey)
    | Shared(low: Secret, high: Secret)
    | Hash(parts: seq<Term>)
    | Hmac(key: Term, input: seq<Term>)
    | Mac(key: Term, input: seq<Term>)
    | Sealed(key: Term, nonce: nat, aad: Term, plain: Term)

  datatype Error =
    | Malformed | InvalidMac | InvalidPublicKey | Decryption | UnknownPeer | UnknownSession
    | StaleTimestamp | ReplayedCounter | SessionExpired | NoSession | Unconfirmed
    | RateLimited | BufferTooSmall | TooManyPeers | Unsupported

  function Dh(secret: Secret, public: PublicKey): (r: Result<Term, Error>) {
    match public
    case LowOrder(_) => Err(InvalidPublicKey)
    case PublicOf(other) => Ok(Shared(Min(secret, other), Max(secret, other)))
  }

  /** Output `i` of the HKDF-style expansion. It does not depend on how many
      outputs are asked for. */
  function Kdf(chainingKey: Term, input: Term, i: nat): (t: Term)
    requires 1 <= i <= 3
  {
    var seed := Hmac(chainingKey, [input]);
    if i == 1 then Hmac(seed, [Number(1)]) else Hmac(seed, [Kdf(chainingKey, input, i - 1), Number(i)])
  }

  function Open(key: Term, nonce: nat, aad: Term, sealed: Term): (r: Result<Term, Error>) {
    if sealed.Sealed? && sealed.key == key && sealed.nonce == nonce && sealed.aad == aad
    then Ok(sealed.plain) else Err(Decryption)
  }

  /** Both ends of an exchange compute the same secret, and no other pair does. */
  lemma DhAgrees(a: Secret, b: Secret, c: Secret)
    ensures Dh(a, PublicOf(b)) == Dh(b, PublicOf(a))
    ensures Dh(a, PublicOf(b)) == Dh(a, PublicOf(c)) <==> b == c
  {
  }

  /** A derived key determines everything that went into it. */
  lemma KdfInjective(ck: Term, x: Term, i: nat, ck': Term, x': Term, j: nat)
    requires 1 <= i <= 3 && 1 <= j <= 3
    requires Kdf(ck, x, i) == Kdf(ck', x', j)
    ensures ck == ck' && x == x' && i == j
  {
    assert Kdf(ck, x, i).Hmac? && Kdf(ck, x, i).key == Hmac(ck, [x]);
    assert Kdf(ck', x', j).key == Hmac(ck', [x']);
    assert [x][0] == [x'][0];
    assert Kdf(ck, x, i).input[|Kdf(ck, x, i).input| - 1] == Number(i);
    assert Kdf(ck', x', j).input[|Kdf(ck', x', j).input| - 1] == Number(j);
  }
}
