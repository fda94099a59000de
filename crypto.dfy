/** The cryptographic primitives the program borrows from the Java provider
    (RSAUtil, the AES cipher, Base64 and SimpleHash), as uninterpreted total
    functions. Their correctness is not modelled here: it is the hypothesis
    `Sound`, which the lemmas that need a round trip take as a precondition. */
module Crypto {
  import opened Common

  /** An RSA identity, each half kept in its canonical encoding
      (X.509 SubjectPublicKeyInfo for `pub`, PKCS#8 for `priv`). */
  datatype KeyPair = KeyPair(pub: Bytes, priv: Bytes)

  /** The provider's operations. Every one that can throw answers an `Option`. */
  datatype Suite = Suite(
    aesEncrypt: (Bytes, Bytes) -> Option<Bytes>,   // (plaintext, AES key): Cipher "AES", ENCRYPT_MODE
    aesDecrypt: (Bytes, Bytes) -> Option<Bytes>,   // (ciphertext, AES key): DECRYPT_MODE, may fail on padding
    rsaEncrypt: (Bytes, Bytes) -> Option<Bytes>,   // (data, public key): RSAUtil.encryptWithPublicKey
    rsaDecrypt: (Bytes, Bytes) -> Option<Bytes>,   // (data, private key): RSAUtil.decryptWithPrivateKey
    base64Encode: Bytes -> string,
    base64Decode: string -> Option<Bytes>,         // IllegalArgumentException on malformed text
    isPublicKey: Bytes -> bool,                    // KeyFactory accepts the X.509 bytes
    isPrivateKey: Bytes -> bool,                   // KeyFactory accepts the PKCS#8 bytes
    isKeyPair: (Bytes, Bytes) -> bool,             // the two halves were generated together
    hashPassword: string -> string)                // SimpleHash.hashPassword: salted SHA-256, Base64

  /** The round trips the provider guarantees. */
  ghost predicate Sound(c: Suite) {
    && (forall data, key :: c.aesEncrypt(data, key).Some? ==>
          c.aesDecrypt(c.aesEncrypt(data, key).value, key) == Some(data))
    && (forall data, pub, priv :: c.isKeyPair(pub, priv) && c.rsaEncrypt(data, pub).Some? ==>
          c.rsaDecrypt(c.rsaEncrypt(data, pub).value, priv) == Some(data))
    && (forall b :: c.base64Decode(c.base64Encode(b)) == Some(b))
    && (forall pub, priv :: c.isKeyPair(pub, priv) ==> c.isPublicKey(pub) && c.isPrivateKey(priv))
  }

  /** RSAUtil.publicKeyToBase64 */
  function PublicKeyToBase64(c: Suite, pub: Bytes): (text: string)
    ensures Sound(c) ==> c.base64Decode(text) == Some(pub)
  {
    c.base64Encode(pub)
  }

  /** RSAUtil.privateKeyToBase64 */
  function PrivateKeyToBase64(c: Suite, priv: Bytes): (text: string)
    ensures Sound(c) ==> c.base64Decode(text) == Some(priv)
  {
    c.base64Encode(priv)
  }

  /** RSAUtil.base64ToPublicKey: Base64 decoding, then the X.509 key spec. */
  function Base64ToPublicKey(c: Suite, text: string): (r: Option<Bytes>)
    ensures r.Some? <==> c.base64Decode(text).Some? && c.isPublicKey(c.base64Decode(text).value)
    ensures r.Some? ==> r.value == c.base64Decode(text).value
  {
    match c.base64Decode(text)
    case None => None
    case Some(b) => if c.isPublicKey(b) then Some(b) else None
  }

  /** RSAUtil.base64ToPrivateKey: Base64 decoding, then the PKCS#8 key spec. */
  function Base64ToPrivateKey(c: Suite, text: string): (r: Option<Bytes>)
    ensures r.Some? <==> c.base64Decode(text).Some? && c.isPrivateKey(c.base64Decode(text).value)
    ensures r.Some? ==> r.value == c.base64Decode(text).value
  {
    match c.base64Decode(text)
    case None => None
    case Some(b) => if c.isPrivateKey(b) then Some(b) else None
  }

  /** RSAUtil.base64ToKeyPair: both halves decoded; it does not check that they belong together. */
  function Base64ToKeyPair(c: Suite, pubText: string, privText: string): (r: Option<KeyPair>)
    ensures r.Some? <==> Base64ToPublicKey(c, pubText).Some? && Base64ToPrivateKey(c, privText).Some?
    ensures r.Some? ==> r.value == KeyPair(c.base64Decode(pubText).value, c.base64Decode(privText).value)
  {
    match Base64ToPublicKey(c, pubText)
    case None => None
    case Some(pub) =>
      match Base64ToPrivateKey(c, privText)
      case None => None
      case Some(priv) => Some(KeyPair(pub, priv))
  }

  /** An identity written out with the ...ToBase64 functions reads back as the same identity. */
  lemma KeyPairBase64RoundTrip(c: Suite, kp: KeyPair)
    requires Sound(c) && c.isKeyPair(kp.pub, kp.priv)
    ensures Base64ToKeyPair(c, PublicKeyToBase64(c, kp.pub), PrivateKeyToBase64(c, kp.priv)) == Some(kp)
  {
  }

  /** SimpleHash.verifyPassword: recompute the hash and compare. */
  function VerifyPassword(c: Suite, password: string, hash: string): bool {
    c.hashPassword(password) == hash
  }
}
