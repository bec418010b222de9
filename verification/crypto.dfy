/** The libraries security.js calls, seen from the outside: JSON-LD
    framing and normalisation, SHA-256, RSA-SHA256 signatures, RSA-OAEP and
    AES-128-CBC encryption, JSON text and bcrypt. Each is a function of its
    inputs that either answers or throws; what each one computes is not
    modelled, only the few facts the helpers rely on, stated below as
    predicates that lemmas take as hypotheses. */
module Crypto {
  import opened Wrappers
  import opened Json
  import opened Errors

  datatype Primitives = Primitives(
    /** `bedrock.constants.CONTEXT_URL`; constants.js is not part of this
        model, so its value is left open. */
    contextUrl: string,
    /** `jsonld.normalize(obj, {format: 'application/nquads'})`. */
    normalize: Value -> Result<string, ForeignError>,
    /** `jsonld.frame(obj, frame)`. */
    frame: (Value, Value) -> Result<Value, ForeignError>,
    /** The hex SHA-256 digest of a string's UTF-8 bytes. */
    sha256Hex: string -> string,
    /** An RSA-SHA256 signer fed the given updates, then signed with the
        private key, base64-encoded. */
    sign: (Value, seq<Value>) -> Result<string, ForeignError>,
    /** An RSA-SHA256 verifier fed the given updates, then checked against
        the public key and the base64 signature. */
    verify: (Value, seq<Value>, Value) -> Result<bool, ForeignError>,
    /** `JSON.stringify`. */
    stringify: Value -> string,
    /** `JSON.parse`. */
    parse: string -> Result<Value, ForeignError>,
    /** AES-128-CBC with the binary key and IV, base64 out. */
    aesEncrypt: (string, string, string) -> Result<string, ForeignError>,
    /** AES-128-CBC deciphering of base64 data to UTF-8. */
    aesDecrypt: (string, string, Value) -> Result<string, ForeignError>,
    /** RSA-OAEP encryption of binary data with a PEM public key, base64 out. */
    rsaEncrypt: (Value, string) -> Result<string, ForeignError>,
    /** RSA-OAEP decryption of base64 data with a PEM private key. */
    rsaDecrypt: (Value, Value) -> Result<string, ForeignError>,
    /** `bcrypt.hash(password, salt)`. */
    bcryptHash: (string, string) -> Result<string, ForeignError>,
    /** `bcrypt.compare(password, hash)`. */
    bcryptCompare: (string, string) -> Result<bool, ForeignError>
  )

  /** A signature made with `priv` checks out against `pub` for the same
      updates: `priv` and `pub` are the two halves of one RSA key pair. */
  ghost predicate SignaturesCheck(p: Primitives, priv: Value, pub: Value)
  {
    forall updates :: p.sign(priv, updates).Ok? ==>
      p.verify(pub, updates, Str(p.sign(priv, updates).value)) == Ok(true)
  }

  /** RSA-OAEP decryption with `priv` undoes encryption with `pub`. */
  ghost predicate RsaPair(p: Primitives, pub: Value, priv: Value)
  {
    forall x :: p.rsaEncrypt(pub, x).Ok? ==> p.rsaDecrypt(priv, Str(p.rsaEncrypt(pub, x).value)) == Ok(x)
  }

  /** AES deciphering with the same key and IV undoes enciphering. */
  ghost predicate AesInverse(p: Primitives)
  {
    forall key, iv, text :: p.aesEncrypt(key, iv, text).Ok? ==>
      p.aesDecrypt(key, iv, Str(p.aesEncrypt(key, iv, text).value)) == Ok(text)
  }

  /** `JSON.parse` reads back what `JSON.stringify` wrote, for a value JSON
      can carry. */
  ghost predicate JsonRoundTrip(p: Primitives)
  {
    forall v :: IsJson(v) ==> p.parse(p.stringify(v)) == Ok(v)
  }

  /** A bcrypt hash holds no colon (its alphabet is `$`, digits, letters,
      `.` and `/`) and matches the password it was made from. */
  ghost predicate BcryptChecks(p: Primitives)
  {
    forall password, salt :: p.bcryptHash(password, salt).Ok? ==>
      ':' !in p.bcryptHash(password, salt).value
      && p.bcryptCompare(password, p.bcryptHash(password, salt).value) == Ok(true)
  }

  /** SHA-256 treated as collision-free. */
  ghost predicate DigestInjective(p: Primitives)
  {
    forall a, b :: p.sha256Hex(a) == p.sha256Hex(b) ==> a == b
  }
}
