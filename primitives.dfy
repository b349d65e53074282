/** The foreign primitives the signature service calls into: Ed25519 detached
    verification (section 5.1.7 of RFC 8032), SHA-256 (FIPS 180-4), base64
    (section 4 of RFC 4648), UTF-8 encoding and JSON parsing (RFC 8259). None of
    them is implemented here: a `Suite` carries them as function values, and the
    facts the reader relies on are stated once, as the predicate `Sound`. */
module Primitives {

  newtype byte = x: int | 0 <= x < 256

  /** A QByteArray. */
  type Bytes = seq<byte>

  /** A member of a parsed JSON object, as far as QJsonValue::toString sees it:
      a string, or anything else (which converts to the empty string). */
  datatype JsonValue = JString(text: string) | JNonString

  /** The outcome of QJsonDocument::fromJson followed by QJsonDocument::object:
      a parse error, an object, or a well-formed document whose root is not an
      object (its `object()` is empty). */
  datatype JsonDoc = ParseError | ObjectDoc(fields: map<string, JsonValue>) | NonObjectDoc

  datatype Suite = Suite(
    /** crypto_sign_verify_detached(signature, message, publicKey) == 0 */
    ed25519Verify: (Bytes, Bytes, Bytes) -> bool,
    sha256: Bytes -> Bytes,
    toBase64: Bytes -> Bytes,
    fromBase64: Bytes -> Bytes,
    utf8: string -> Bytes,
    parseJson: Bytes -> JsonDoc)

  /** What the callers rely on: a SHA-256 digest is 32 bytes, base64 decoding
      undoes base64 encoding, and the empty string encodes (in UTF-8 and in
      base64) to nothing. */
  ghost predicate Sound(suite: Suite) {
    (forall m: Bytes :: |suite.sha256(m)| == 32)
    && (forall b: Bytes :: suite.fromBase64(suite.toBase64(b)) == b)
    && suite.toBase64([]) == []
    && suite.utf8([]) == []
  }

  /** Base64 decoding of the empty input is empty under a sound suite. */
  lemma DecodeEmpty(suite: Suite)
    requires Sound(suite)
    ensures suite.fromBase64(suite.utf8([])) == []
  {
    assert suite.fromBase64(suite.toBase64([])) == [];
  }
}
