/** Symbolic cryptography. A key is the term that derives it, so two keys are equal exactly
    when they were derived in the same way from the same secrets. */
module Crypto {
  import opened Wrappers

  /** The X25519 public key of the private key with this id. */
  datatype Pub = Pub(id: nat)

  datatype Key =
    | NoKey                                        // a nil slice
    | Shared(ikm: seq<set<nat>>, info: (Pub, Pub)) // output of X3DH
    | Root(salt: Key, dh: set<nat>)                // first half of KDF_RK
    | Chain(salt: Key, dh: set<nat>)               // second half of KDF_RK
    | Next(chainKey: Key)                          // HMAC(chainKey, 0x01)
    | Msg(chainKey: Key)                           // HMAC(chainKey, 0x02)

  datatype Nonce = Nonce(messageKey: Key, counter: nat)

  datatype Ciphertext =
    | Sealed(key: Key, nonce: Nonce, associatedData: Bytes, plaintext: Bytes)
    | Junk(data: Bytes) // bytes that no seal produced

  /** X25519: an unordered pair, which is the commutativity of section 6.1 of RFC 7748. */
  function DH(priv: nat, pub: Pub): set<nat> {
    {priv, pub.id}
  }

  function KdfRk(rootKey: Key, dh: set<nat>): (Key, Key) {
    (Root(rootKey, dh), Chain(rootKey, dh))
  }

  function KdfCk(chainKey: Key): (Key, Key) {
    (Next(chainKey), Msg(chainKey))
  }

  function DeriveNonce(messageKey: Key, counter: nat): Nonce {
    Nonce(messageKey, counter)
  }

  /** The AEAD opens under the same key, nonce and associated data only. */
  function Open(key: Key, nonce: Nonce, ciphertext: Ciphertext, associatedData: Bytes): Option<Bytes> {
    match ciphertext
    case Sealed(k, n, ad, plaintext) =>
      if k == key && n == nonce && ad == associatedData then Some(plaintext) else None
    case Junk(_) => None
  }

  function DecryptWithKey(messageKey: Key, counter: nat, ciphertext: Ciphertext, associatedData: Bytes)
    : Option<Bytes>
  {
    Open(messageKey, DeriveNonce(messageKey, counter), ciphertext, associatedData)
  }
}
