/** The foreign cryptography as parameters: one hash, one signature verifier, one MAC. */
module Crypto {
  import opened Bytes

  type Digest = b: Bytes | |b| == 32 witness seq(32, _ => 0)

  const ZERO_ANCHOR: Digest := [0, 0, 0, 0, 0, 0, 0, 0, 0, 0, 0, 0, 0, 0, 0, 0,
                               0, 0, 0, 0, 0, 0, 0, 0, 0, 0, 0, 0, 0, 0, 0, 0]

  datatype Scheme = Ed25519 | MlDsa65 | SlhDsa128f | OtherScheme(name: string)

  /**
   * `hash` is SHA-256; `verify(key, message, signature, scheme)` is the library verifier, with its
   * exceptions counted as a failed verification; `sign(key, message)` is the signer that owns the public
   * key; `mac(key, message)` is HMAC-SHA256.
   */
  datatype Crypto = Crypto(
    hash: Bytes -> Digest,
    verify: (Bytes, Bytes, Bytes, Scheme) -> bool,
    sign: (Bytes, Bytes) -> Bytes,
    mac: (Bytes, Bytes) -> Bytes)

  /** `verify_signature`: an empty key or signature never verifies. */
  predicate VerifySignature(c: Crypto, publicKey: Bytes, message: Bytes, signature: Bytes, scheme: Scheme) {
    publicKey != [] && signature != [] && c.verify(publicKey, message, signature, scheme)
  }

  /** An honest signature verifies: what signing promises for one key and scheme. */
  ghost predicate SignsCorrectly(c: Crypto, publicKey: Bytes, scheme: Scheme) {
    && publicKey != []
    && forall m: Bytes {:trigger c.sign(publicKey, m)} ::
        VerifySignature(c, publicKey, m, c.sign(publicKey, m), scheme)
  }

  /** No two of these inputs collide. The set is always the finite set of inputs somebody really hashed. */
  ghost predicate CollisionFree(hash: Bytes -> Digest, inputs: set<Bytes>) {
    forall x, y :: x in inputs && y in inputs && hash(x) == hash(y) ==> x == y
  }

  /** Nobody hit a preimage of the zero anchor. */
  ghost predicate NeverZero(hash: Bytes -> Digest, inputs: set<Bytes>) {
    forall x :: x in inputs ==> hash(x) != ZERO_ANCHOR
  }
}
