/** security.js: hashing, signing and verifying JSON-LD documents,
    encrypting them into an `EncryptedMessage` envelope and back, and
    bcrypt password hashes. The libraries doing the actual cryptography are
    the functions of a `Primitives` value; this module models the checks,
    the error reports and the way the documents are prepared around those
    calls. */
module Security {
  import opened Wrappers
  import opened Json
  import opened Text
  import opened Errors
  import opened Crypto

  const CONTEXT := "@context"
  const SIGNATURE := "signature"
  const CIPHER_ALGORITHM := "rsa-sha256-aes-128-cbc"
  const URN_PREFIX := "urn:sha256:"

  /** The `details` of the errors a client may be shown. */
  const PUBLIC := Obj([Field("public", Bool(true))])

  // ---------------------------------------------------------------------
  // hashJsonLd (lines 28-64)

  /** The N-Quads `hashJsonLd` digests: the object, given the default
      context when it has no `@context` at all, reframed when a frame is
      given, then normalised. A library error is passed on. */
  function HashInput(obj: seq<Field>, frame: Value, p: Primitives): Result<string, ForeignError>
  {
    var withContext := if HasKey(obj, CONTEXT) then obj else Assign(obj, CONTEXT, Str(p.contextUrl));
    var framed := if Truthy(frame) then p.frame(Obj(withContext), frame) else Ok(Obj(withContext));
    match framed
    case Err(e) => Err(e)
    case Ok(doc) => p.normalize(doc)
  }

  /** `hashJsonLd(obj, frame)`: `urn:sha256:` and the hex SHA-256 digest of
      the normalised object. */
  function HashJsonLd(obj: seq<Field>, frame: Value, p: Primitives): (r: Result<string, ForeignError>)
    ensures r.Err? <==> HashInput(obj, frame, p).Err?
    ensures r.Err? ==> r.error == HashInput(obj, frame, p).error
    ensures r.Ok? ==>
      && |r.value| >= |URN_PREFIX| && r.value[..|URN_PREFIX|] == URN_PREFIX
      && r.value[|URN_PREFIX|..] == p.sha256Hex(HashInput(obj, frame, p).value)
  {
    match HashInput(obj, frame, p)
    case Err(e) => Err(e)
    case Ok(normalized) =>
      var r := URN_PREFIX + p.sha256Hex(normalized);
      assert r[..|URN_PREFIX|] == URN_PREFIX && r[|URN_PREFIX|..] == p.sha256Hex(normalized);
      Ok(r)
  }

  /** An object without `@context` hashes as if it carried the default
      context; the caller's object itself is a value here and so cannot
      change. */
  lemma HashAssumesDefaultContext(obj: seq<Field>, frame: Value, p: Primitives)
    requires !HasKey(obj, CONTEXT)
    ensures HashJsonLd(obj, frame, p) == HashJsonLd(obj + [Field(CONTEXT, Str(p.contextUrl))], frame, p)
  {
    var extended := obj + [Field(CONTEXT, Str(p.contextUrl))];
    assert Assign(obj, CONTEXT, Str(p.contextUrl)) == extended;
    assert HasKey(extended, CONTEXT);
  }

  /** The frame is applied only when it is truthy. */
  lemma HashIgnoresFalsyFrame(obj: seq<Field>, frame: Value, p: Primitives)
    requires !Truthy(frame)
    ensures HashJsonLd(obj, frame, p) == HashJsonLd(obj, Null, p)
  {
  }

  /** With a collision-free digest, two objects hash alike exactly when
      their normal forms agree. */
  lemma HashIdentifiesNormalForm(a: seq<Field>, b: seq<Field>, frame: Value, p: Primitives)
    requires DigestInjective(p)
    requires HashInput(a, frame, p).Ok? && HashInput(b, frame, p).Ok?
    ensures HashJsonLd(a, frame, p) == HashJsonLd(b, frame, p) <==> HashInput(a, frame, p) == HashInput(b, frame, p)
  {
    var ha, hb := HashJsonLd(a, frame, p), HashJsonLd(b, frame, p);
    if ha == hb {
      assert ha.value[|URN_PREFIX|..] == hb.value[|URN_PREFIX|..];
    }
  }

  // ---------------------------------------------------------------------
  // _getSignatureData (lines 356-374)

  /** The object as it is normalised for signing: `@context` set to the
      context URL and `signature` removed. */
  function SignatureInput(props: seq<Field>, p: Primitives): (r: seq<Field>)
    ensures Get(r, CONTEXT) == Some(Str(p.contextUrl))
    ensures !HasKey(r, SIGNATURE)
    ensures forall k :: k != CONTEXT && k != SIGNATURE ==> Get(r, k) == Get(props, k)
  {
    Delete(Assign(props, CONTEXT, Str(p.contextUrl)), SIGNATURE)
  }

  /** The object once `_getSignatureData` is done with it: a truthy
      `@context` and a truthy `signature` are put back, while a falsy
      `@context` stays replaced by the context URL and a falsy `signature`
      stays deleted. */
  function AfterSignatureData(props: seq<Field>, p: Primitives): (r: seq<Field>)
    ensures Get(r, CONTEXT) ==
      if Truthy(Prop(props, CONTEXT)) then Get(props, CONTEXT) else Some(Str(p.contextUrl))
    ensures Get(r, SIGNATURE) == if Truthy(Prop(props, SIGNATURE)) then Get(props, SIGNATURE) else None
    ensures forall k :: k != CONTEXT && k != SIGNATURE ==> Get(r, k) == Get(props, k)
    ensures DistinctKeys(props) ==> DistinctKeys(r)
  {
    var oldContext, oldSignature := Prop(props, CONTEXT), Prop(props, SIGNATURE);
    var work := SignatureInput(props, p);
    var restored := if Truthy(oldContext) then Assign(work, CONTEXT, oldContext) else work;
    if Truthy(oldSignature) then Assign(restored, SIGNATURE, oldSignature) else restored
  }

  /** `_getSignatureData(obj)`: normalises the prepared object and then
      restores it. */
  method GetSignatureData(obj: Doc, p: Primitives) returns (data: Result<string, ForeignError>)
    modifies obj
    ensures data == p.normalize(Obj(SignatureInput(old(obj.props), p)))
    ensures obj.props == AfterSignatureData(old(obj.props), p)
  {
    var oldContext := if Truthy(Prop(obj.props, CONTEXT)) then Prop(obj.props, CONTEXT) else Null;
    obj.props := Assign(obj.props, CONTEXT, Str(p.contextUrl));
    var oldSignature := if Truthy(Prop(obj.props, SIGNATURE)) then Prop(obj.props, SIGNATURE) else Null;
    obj.props := Delete(obj.props, SIGNATURE);
    data := p.normalize(Obj(obj.props));
    if oldContext != Null {
      obj.props := Assign(obj.props, CONTEXT, oldContext);
    }
    if oldSignature != Null {
      obj.props := Assign(obj.props, SIGNATURE, oldSignature);
    }
  }

  // ---------------------------------------------------------------------
  // signJsonLd (lines 78-141)

  /** A nonce is used when it is neither null nor undefined. */
  predicate HasNonce(nonce: Value)
  {
    nonce != Undefined && nonce != Null
  }

  /** What the signer is fed: the nonce if there is one, the creation date,
      the normalised data. */
  function SignerUpdates(nonce: Value, created: string, data: string): seq<Value>
  {
    (if HasNonce(nonce) then [nonce] else []) + [Str(created), Str(data)]
  }

  /** The `signature` record of a signed document. */
  function SignatureBlock(creator: Value, created: string, signatureValue: string, nonce: Value): seq<Field>
  {
    [Field("type", Str("GraphSignature2012")), Field("creator", creator), Field("created", Str(created)),
     Field("signatureValue", Str(signatureValue))]
    + (if HasNonce(nonce) then [Field("nonce", nonce)] else [])
  }

  const INVALID_PRIVATE_KEY := BedrockError("PrivateKey missing \"privateKeyPem\" property.", "bedrock.security.InvalidPrivateKey", Undefined, None)

  function SignError(e: ForeignError): Error
  {
    BedrockError("Could not sign JSON-LD.", "bedrock.security.SignError", Null, Some(e))
  }

  /** What `signJsonLd(obj, key, creator, nonce, date)` produces, `created`
      being the W3C date string of `date`. */
  function SignSpec(props: seq<Field>, key: seq<Field>, creator: Value, nonce: Value, created: string,
                    p: Primitives): (r: Result<seq<Field>, Error>)
    ensures !HasKey(key, "privateKeyPem") <==> r == Err(INVALID_PRIVATE_KEY)
    ensures HasKey(key, "privateKeyPem") ==>
      var data := p.normalize(Obj(SignatureInput(props, p)));
      (data.Err? ==> r == Err(Foreign(data.error)))
      && (data.Ok? ==>
            var sig := p.sign(Prop(key, "privateKeyPem"), SignerUpdates(nonce, created, data.value));
            (sig.Err? ==> r == Err(SignError(sig.error)))
            && (sig.Ok? ==> r.Ok? && Get(r.value, SIGNATURE) == Some(Obj(SignatureBlock(creator, created, sig.value, nonce)))))
    ensures r.Ok? ==>
      Get(r.value, CONTEXT) == if Truthy(Prop(props, CONTEXT)) then Get(props, CONTEXT) else Some(Str(p.contextUrl))
    ensures r.Ok? ==> forall k :: k != CONTEXT && k != SIGNATURE ==> Get(r.value, k) == Get(props, k)
  {
    if !HasKey(key, "privateKeyPem") then Err(INVALID_PRIVATE_KEY)
    else match p.normalize(Obj(SignatureInput(props, p)))
      case Err(e) => Err(Foreign(e))
      case Ok(data) =>
        match p.sign(Prop(key, "privateKeyPem"), SignerUpdates(nonce, created, data))
        case Err(e) => Err(SignError(e))
        case Ok(sig) =>
          Ok(Assign(AfterSignatureData(props, p), SIGNATURE, Obj(SignatureBlock(creator, created, sig, nonce))))
  }

  /** `signJsonLd`: signs a clone of `obj`, which is left as it was. */
  method SignJsonLd(obj: Doc, key: seq<Field>, creator: Value, nonce: Value, created: string, p: Primitives)
    returns (r: Result<Doc, Error>)
    ensures var s := SignSpec(old(obj.props), key, creator, nonce, created, p);
      r.Ok? == s.Ok? && (r.Err? ==> r.error == s.error) && (r.Ok? ==> fresh(r.value) && r.value.props == s.value)
    ensures unchanged(obj)
  {
    if !HasKey(key, "privateKeyPem") {
      return Err(INVALID_PRIVATE_KEY);
    }
    var output := new Doc(obj.props);
    var data := GetSignatureData(output, p);
    if data.Err? {
      return Err(Foreign(data.error));
    }
    var signature := p.sign(Prop(key, "privateKeyPem"), SignerUpdates(nonce, created, data.value));
    if signature.Err? {
      return Err(SignError(signature.error));
    }
    output.props := Assign(output.props, SIGNATURE, Obj(SignatureBlock(creator, created, signature.value, nonce)));
    r := Ok(output);
  }

  // ---------------------------------------------------------------------
  // verifyJsonLd (lines 150-195)

  const NOT_SIGNED := BedrockError("Could not verify signature on object. Object is not signed.", "bedrock.security.InvalidSignature", Undefined, None)
  const REVOKED_PUBLIC_KEY := BedrockError("The public key has been revoked.", "bedrock.security.RevokedPublicKey", PUBLIC, None)
  const INVALID_PUBLIC_KEY := BedrockError("The public key is missing the \"publicKeyPem\" property.", "bedrock.security.InvalidPublicKey", Undefined, None)

  function VerifyError(e: ForeignError): Error
  {
    BedrockError("Could not verify JSON-LD.", "bedrock.security.VerifyError", Null, Some(e))
  }

  /** What the verifier is fed, read from the `signature` record. */
  function VerifierUpdates(info: seq<Field>, data: string): seq<Value>
  {
    (if HasKey(info, "nonce") then [Prop(info, "nonce")] else []) + [Prop(info, "created"), Str(data)]
  }

  /** The properties of `signature` as `in` and property access see them;
      `in` throws on anything that is not an object. */
  function RecordProps(info: Value): Result<seq<Field>, ForeignError>
  {
    match info
    case Obj(ps) => Ok(ps)
    case Arr(_) => Ok([])
    case _ => Err(TYPE_ERROR)
  }

  /** Whether the three checks before any cryptography pass. */
  predicate VerifyChecksPass(props: seq<Field>, key: seq<Field>)
  {
    HasKey(props, SIGNATURE) && !HasKey(key, "revoked") && HasKey(key, "publicKeyPem")
  }

  /** What `verifyJsonLd(obj, key)` reports. */
  function VerifySpec(props: seq<Field>, key: seq<Field>, p: Primitives): (r: Result<bool, Error>)
    ensures !HasKey(props, SIGNATURE) ==> r == Err(NOT_SIGNED)
    ensures HasKey(props, SIGNATURE) && HasKey(key, "revoked") ==> r == Err(REVOKED_PUBLIC_KEY)
    ensures HasKey(props, SIGNATURE) && !HasKey(key, "revoked") && !HasKey(key, "publicKeyPem") ==> r == Err(INVALID_PUBLIC_KEY)
    ensures VerifyChecksPass(props, key) <==> r.Ok? || (r.Err? && r.error.BedrockError? && r.error.cause.Some?)
  {
    if !HasKey(props, SIGNATURE) then Err(NOT_SIGNED)
    else if HasKey(key, "revoked") then Err(REVOKED_PUBLIC_KEY)
    else if !HasKey(key, "publicKeyPem") then Err(INVALID_PUBLIC_KEY)
    else match p.normalize(Obj(SignatureInput(props, p)))
      case Err(e) => Err(VerifyError(e))
      case Ok(data) =>
        match RecordProps(Prop(props, SIGNATURE))
        case Err(e) => Err(VerifyError(e))
        case Ok(info) =>
          match p.verify(Prop(key, "publicKeyPem"), VerifierUpdates(info, data), Prop(info, "signatureValue"))
          case Err(e) => Err(VerifyError(e))
          case Ok(verified) => Ok(verified)
  }

  /** `verifyJsonLd`: `obj` goes through `_getSignatureData` once the
      checks pass. */
  method VerifyJsonLd(obj: Doc, key: seq<Field>, p: Primitives) returns (r: Result<bool, Error>)
    modifies obj
    ensures r == VerifySpec(old(obj.props), key, p)
    ensures obj.props == if VerifyChecksPass(old(obj.props), key) then AfterSignatureData(old(obj.props), p) else old(obj.props)
  {
    if !HasKey(obj.props, SIGNATURE) {
      return Err(NOT_SIGNED);
    }
    if HasKey(key, "revoked") {
      return Err(REVOKED_PUBLIC_KEY);
    }
    if !HasKey(key, "publicKeyPem") {
      return Err(INVALID_PUBLIC_KEY);
    }
    ghost var props := obj.props;
    var data := GetSignatureData(obj, p);
    if data.Err? {
      return Err(VerifyError(data.error));
    }
    var info := RecordProps(Prop(obj.props, SIGNATURE));
    assert info == RecordProps(Prop(props, SIGNATURE));
    if info.Err? {
      return Err(VerifyError(info.error));
    }
    var verified := p.verify(Prop(key, "publicKeyPem"), VerifierUpdates(info.value, data.value), Prop(info.value, "signatureValue"));
    if verified.Err? {
      return Err(VerifyError(verified.error));
    }
    r := Ok(verified.value);
  }

  /** Normalising a signed document for verification sees exactly what was
      normalised for signing: the signature record is removed again and the
      context is the context URL both times. */
  lemma SignedInputUnchanged(props: seq<Field>, block: Value, p: Primitives)
    ensures SignatureInput(Assign(AfterSignatureData(props, p), SIGNATURE, block), p) == SignatureInput(props, p)
  {
    var url := Str(p.contextUrl);
    var work := SignatureInput(props, p);
    var oldContext, oldSignature := Prop(props, CONTEXT), Prop(props, SIGNATURE);
    var restored := if Truthy(oldContext) then Assign(work, CONTEXT, oldContext) else work;
    assert !HasKey(restored, SIGNATURE);
    var signed := Assign(AfterSignatureData(props, p), SIGNATURE, block);
    var f := Field(SIGNATURE, block);
    assert signed == restored + [f] by {
      if Truthy(oldSignature) {
        AssignTwice(restored, SIGNATURE, oldSignature, block);
      }
    }
    assert HasKey(restored, CONTEXT);
    AssignBeforeLast(restored, f, CONTEXT, url);
    assert Assign(restored, CONTEXT, url) == work by {
      if Truthy(oldContext) {
        AssignTwice(work, CONTEXT, oldContext, url);
      }
      AssignSame(work, CONTEXT, url);
    }
    RemoveAppend(work, f, SIGNATURE);
    RemoveAbsent(work, SIGNATURE);
  }

  /** Reading the `signature` record back gives the signer's updates and
      the signature value. */
  lemma SignatureBlockFields(creator: Value, created: string, sig: string, nonce: Value, data: string)
    ensures VerifierUpdates(SignatureBlock(creator, created, sig, nonce), data) == SignerUpdates(nonce, created, data)
    ensures Prop(SignatureBlock(creator, created, sig, nonce), "signatureValue") == Str(sig)
  {
    var b := SignatureBlock(creator, created, sig, nonce);
    IndexOfKeyUnique(b, "created", 2);
    IndexOfKeyUnique(b, "signatureValue", 3);
    if HasNonce(nonce) {
      IndexOfKeyUnique(b, "nonce", 4);
    } else {
      assert |b| == 4;
    }
  }

  /** A document signed with the private half of a key pair verifies
      against the public half (when that key is not revoked). */
  lemma SignThenVerify(props: seq<Field>, privateKey: seq<Field>, publicKey: seq<Field>, creator: Value,
                       nonce: Value, created: string, p: Primitives)
    requires SignaturesCheck(p, Prop(privateKey, "privateKeyPem"), Prop(publicKey, "publicKeyPem"))
    requires HasKey(publicKey, "publicKeyPem") && !HasKey(publicKey, "revoked")
    requires SignSpec(props, privateKey, creator, nonce, created, p).Ok?
    ensures VerifySpec(SignSpec(props, privateKey, creator, nonce, created, p).value, publicKey, p) == Ok(true)
  {
    var data := p.normalize(Obj(SignatureInput(props, p))).value;
    var updates := SignerUpdates(nonce, created, data);
    var sig := p.sign(Prop(privateKey, "privateKeyPem"), updates).value;
    var block := SignatureBlock(creator, created, sig, nonce);
    var signed := SignSpec(props, privateKey, creator, nonce, created, p).value;
    assert signed == Assign(AfterSignatureData(props, p), SIGNATURE, Obj(block));
    SignedInputUnchanged(props, Obj(block), p);
    assert Get(signed, SIGNATURE) == Some(Obj(block));
    SignatureBlockFields(creator, created, sig, nonce, data);
    assert p.normalize(Obj(SignatureInput(signed, p))) == Ok(data);
    assert RecordProps(Prop(signed, SIGNATURE)) == Ok(block);
    assert p.verify(Prop(publicKey, "publicKeyPem"), updates, Str(sig)) == Ok(true);
  }

  // ---------------------------------------------------------------------
  // encryptJsonLd (lines 206-253)

  /** The 32 random bytes `encryptJsonLd` draws, as a binary string: the
      first 16 are the AES key, the rest the IV. */
  type RandomBlock = s: string | |s| == 32 && forall i :: 0 <= i < |s| ==> (s[i] as int) < 256
    witness "00000000000000000000000000000000"

  function EncryptionError(e: ForeignError): Error
  {
    BedrockError("Could not encrypt message.", "bedrock.security.EncryptionError", PUBLIC, Some(e))
  }

  /** The `EncryptedMessage` envelope. */
  function Envelope(contextUrl: string, cipherData: string, cipherKey: string, iv: string, publicKeyId: Value): seq<Field>
  {
    [Field(CONTEXT, Str(contextUrl)), Field("type", Str("EncryptedMessage")), Field("cipherData", Str(cipherData)),
     Field("cipherAlgorithm", Str(CIPHER_ALGORITHM)), Field("cipherKey", Str(cipherKey)),
     Field("initializationVector", Str(iv)), Field("publicKey", publicKeyId)]
  }

  /** The object as it is serialised for encryption. */
  function PlainDocument(props: seq<Field>, p: Primitives): seq<Field>
  {
    Assign(props, CONTEXT, Str(p.contextUrl))
  }

  /** What `encryptJsonLd(obj, publicKey)` reports: the document
      enciphered with the random key and IV, and the key and IV enciphered
      with the public key. */
  function EncryptSpec(props: seq<Field>, publicKey: seq<Field>, random: RandomBlock, p: Primitives): (r: Result<seq<Field>, Error>)
    ensures r.Err? ==> r.error.BedrockError? && r.error.kind == "bedrock.security.EncryptionError" && r.error.details == PUBLIC
    ensures var pem := Prop(publicKey, "publicKeyPem");
      var data := p.aesEncrypt(random[..16], random[16..], p.stringify(Obj(PlainDocument(props, p))));
      var sealedKey, sealedIv := p.rsaEncrypt(pem, random[..16]), p.rsaEncrypt(pem, random[16..]);
      (data.Err? ==> r == Err(EncryptionError(data.error)))
      && (data.Ok? && sealedKey.Err? ==> r == Err(EncryptionError(sealedKey.error)))
      && (data.Ok? && sealedKey.Ok? && sealedIv.Err? ==> r == Err(EncryptionError(sealedIv.error)))
      && (data.Ok? && sealedKey.Ok? && sealedIv.Ok? ==>
            r == Ok(Envelope(p.contextUrl, data.value, sealedKey.value, sealedIv.value, Prop(publicKey, "id"))))
  {
    var key, iv := random[..16], random[16..];
    match p.aesEncrypt(key, iv, p.stringify(Obj(PlainDocument(props, p))))
    case Err(e) => Err(EncryptionError(e))
    case Ok(data) =>
      var pem := Prop(publicKey, "publicKeyPem");
      match p.rsaEncrypt(pem, key)
      case Err(e) => Err(EncryptionError(e))
      case Ok(sealedKey) =>
        match p.rsaEncrypt(pem, iv)
        case Err(e) => Err(EncryptionError(e))
        case Ok(sealedIv) => Ok(Envelope(p.contextUrl, data, sealedKey, sealedIv, Prop(publicKey, "id")))
  }

  /** The caller's object after `encryptJsonLd`: `@context` is the context
      URL, and a truthy original `@context` is put back once the AES step
      has succeeded. */
  function AfterEncrypt(props: seq<Field>, random: RandomBlock, p: Primitives): (r: seq<Field>)
    ensures Get(r, CONTEXT) ==
      if Truthy(Prop(props, CONTEXT)) && p.aesEncrypt(random[..16], random[16..], p.stringify(Obj(PlainDocument(props, p)))).Ok?
      then Get(props, CONTEXT) else Some(Str(p.contextUrl))
    ensures forall k :: k != CONTEXT ==> Get(r, k) == Get(props, k)
  {
    var oldContext := Prop(props, CONTEXT);
    var plain := PlainDocument(props, p);
    if Truthy(oldContext) && p.aesEncrypt(random[..16], random[16..], p.stringify(Obj(plain))).Ok?
    then Assign(plain, CONTEXT, oldContext)
    else plain
  }

  /** `encryptJsonLd`, with the random bytes given. */
  method EncryptJsonLd(obj: Doc, publicKey: seq<Field>, random: RandomBlock, p: Primitives) returns (r: Result<seq<Field>, Error>)
    modifies obj
    ensures r == EncryptSpec(old(obj.props), publicKey, random, p)
    ensures obj.props == AfterEncrypt(old(obj.props), random, p)
  {
    var key, iv := random[..16], random[16..];
    var oldContext := if Truthy(Prop(obj.props, CONTEXT)) then Prop(obj.props, CONTEXT) else Null;
    obj.props := Assign(obj.props, CONTEXT, Str(p.contextUrl));
    var encrypted := p.aesEncrypt(key, iv, p.stringify(Obj(obj.props)));
    if encrypted.Err? {
      return Err(EncryptionError(encrypted.error));
    }
    if oldContext != Null {
      obj.props := Assign(obj.props, CONTEXT, oldContext);
    }
    var pem := Prop(publicKey, "publicKeyPem");
    var sealedKey := p.rsaEncrypt(pem, key);
    if sealedKey.Err? {
      return Err(EncryptionError(sealedKey.error));
    }
    var sealedIv := p.rsaEncrypt(pem, iv);
    if sealedIv.Err? {
      return Err(EncryptionError(sealedIv.error));
    }
    r := Ok(Envelope(p.contextUrl, encrypted.value, sealedKey.value, sealedIv.value, Prop(publicKey, "id")));
  }

  // ---------------------------------------------------------------------
  // decryptJsonLd (lines 263-296)

  function UnsupportedAlgorithm(algorithm: Value): Error
  {
    BedrockError("The JSON-LD encrypted message algorithm is not supported.", "bedrock.security.UnsupportedAlgorithm",
      Obj([Field("public", Bool(true)), Field("algorithm", algorithm), Field("httpStatusCode", Num(400))]), None)
  }

  function DecryptionError(e: ForeignError): Error
  {
    BedrockError("Could not decrypt message.", "bedrock.security.DecryptionError", PUBLIC, Some(e))
  }

  /** `decryptJsonLd(obj, privateKey)`: the parsed plaintext, after the
      algorithm check. */
  function DecryptJsonLd(obj: seq<Field>, privateKey: seq<Field>, p: Primitives): (r: Result<Value, Error>)
    ensures Prop(obj, "cipherAlgorithm") != Str(CIPHER_ALGORITHM) <==> r == Err(UnsupportedAlgorithm(Prop(obj, "cipherAlgorithm")))
    ensures r.Err? && Prop(obj, "cipherAlgorithm") == Str(CIPHER_ALGORITHM) ==>
      r.error.BedrockError? && r.error.kind == "bedrock.security.DecryptionError" && r.error.details == PUBLIC
  {
    var algorithm := Prop(obj, "cipherAlgorithm");
    if algorithm != Str(CIPHER_ALGORITHM) then Err(UnsupportedAlgorithm(algorithm))
    else
      var pem := Prop(privateKey, "privateKeyPem");
      match p.rsaDecrypt(pem, Prop(obj, "cipherKey"))
      case Err(e) => Err(DecryptionError(e))
      case Ok(key) =>
        match p.rsaDecrypt(pem, Prop(obj, "initializationVector"))
        case Err(e) => Err(DecryptionError(e))
        case Ok(iv) =>
          match p.aesDecrypt(key, iv, Prop(obj, "cipherData"))
          case Err(e) => Err(DecryptionError(e))
          case Ok(text) =>
            match p.parse(text)
            case Err(e) => Err(DecryptionError(e))
            case Ok(msg) => Ok(msg)
  }

  /** Every envelope carries the supported algorithm, its type and the
      public key's id, so it always passes the algorithm check; the other
      properties hold what was enciphered. */
  lemma EnvelopeFields(contextUrl: string, data: string, key: string, iv: string, id: Value)
    ensures var e := Envelope(contextUrl, data, key, iv, id);
      && Prop(e, "cipherAlgorithm") == Str(CIPHER_ALGORITHM) && Prop(e, "type") == Str("EncryptedMessage")
      && Prop(e, "publicKey") == id && Prop(e, CONTEXT) == Str(contextUrl)
      && Prop(e, "cipherData") == Str(data) && Prop(e, "cipherKey") == Str(key)
      && Prop(e, "initializationVector") == Str(iv)
  {
    var e := Envelope(contextUrl, data, key, iv, id);
    EnvelopeDistinct(contextUrl, data, key, iv, id);
    GetInDistinct(e, 0);
    GetInDistinct(e, 1);
    GetInDistinct(e, 2);
    GetInDistinct(e, 3);
    GetInDistinct(e, 4);
    GetInDistinct(e, 5);
    GetInDistinct(e, 6);
  }

  lemma EnvelopeDistinct(contextUrl: string, data: string, key: string, iv: string, id: Value)
    ensures DistinctKeys(Envelope(contextUrl, data, key, iv, id))
  {
  }

  /** Decrypting with the private half of the key pair gives back the
      document as it was serialised: the original with `@context` set to
      the context URL. */
  lemma EncryptThenDecrypt(props: seq<Field>, publicKey: seq<Field>, privateKey: seq<Field>, random: RandomBlock, p: Primitives)
    requires RsaPair(p, Prop(publicKey, "publicKeyPem"), Prop(privateKey, "privateKeyPem"))
    requires AesInverse(p) && JsonRoundTrip(p) && IsJson(Obj(props))
    requires EncryptSpec(props, publicKey, random, p).Ok?
    ensures DecryptJsonLd(EncryptSpec(props, publicKey, random, p).value, privateKey, p)
      == Ok(Obj(PlainDocument(props, p)))
  {
    var key, iv := random[..16], random[16..];
    var pem := Prop(publicKey, "publicKeyPem");
    var plain := Obj(PlainDocument(props, p));
    var data := p.aesEncrypt(key, iv, p.stringify(plain)).value;
    var sealedKey, sealedIv := p.rsaEncrypt(pem, key).value, p.rsaEncrypt(pem, iv).value;
    assert EncryptSpec(props, publicKey, random, p).value
      == Envelope(p.contextUrl, data, sealedKey, sealedIv, Prop(publicKey, "id"));
    var privatePem := Prop(privateKey, "privateKeyPem");
    assert p.rsaDecrypt(privatePem, Str(sealedKey)) == Ok(key);
    assert p.rsaDecrypt(privatePem, Str(sealedIv)) == Ok(iv);
    assert p.aesDecrypt(key, iv, Str(data)) == Ok(p.stringify(plain));
    AssignIsJson(props, CONTEXT, Str(p.contextUrl));
    assert p.parse(p.stringify(plain)) == Ok(plain);
    DecryptEnvelope(p.contextUrl, data, sealedKey, sealedIv, Prop(publicKey, "id"), privateKey, p, key, iv, p.stringify(plain), plain);
  }

  /** An envelope whose sealed key, sealed IV and ciphertext open up with
      the private key decrypts to the parsed plaintext. */
  lemma DecryptEnvelope(contextUrl: string, data: string, sealedKey: string, sealedIv: string, id: Value,
                        privateKey: seq<Field>, p: Primitives, key: string, iv: string, text: string, msg: Value)
    requires p.rsaDecrypt(Prop(privateKey, "privateKeyPem"), Str(sealedKey)) == Ok(key)
    requires p.rsaDecrypt(Prop(privateKey, "privateKeyPem"), Str(sealedIv)) == Ok(iv)
    requires p.aesDecrypt(key, iv, Str(data)) == Ok(text) && p.parse(text) == Ok(msg)
    ensures DecryptJsonLd(Envelope(contextUrl, data, sealedKey, sealedIv, id), privateKey, p) == Ok(msg)
  {
    EnvelopeFields(contextUrl, data, sealedKey, sealedIv, id);
  }

  /** A document that already uses the default context comes back equal
      to itself. */
  lemma EncryptThenDecryptDefaultContext(props: seq<Field>, publicKey: seq<Field>, privateKey: seq<Field>,
                                         random: RandomBlock, p: Primitives)
    requires RsaPair(p, Prop(publicKey, "publicKeyPem"), Prop(privateKey, "privateKeyPem"))
    requires AesInverse(p) && JsonRoundTrip(p) && IsJson(Obj(props))
    requires Get(props, CONTEXT) == Some(Str(p.contextUrl))
    requires EncryptSpec(props, publicKey, random, p).Ok?
    ensures DecryptJsonLd(EncryptSpec(props, publicKey, random, p).value, privateKey, p) == Ok(Obj(props))
  {
    EncryptThenDecrypt(props, publicKey, privateKey, random, p);
    AssignSame(props, CONTEXT, Str(p.contextUrl));
  }

  // ---------------------------------------------------------------------
  // createPasswordHash and verifyPasswordHash (lines 305-347)

  const BCRYPT := "bcrypt"

  const MALFORMED_PASSWORD_HASH := BedrockError("Could not verify password hash. Invalid input.", "bedrock.security.MalformedPasswordHash", Undefined, None)

  /** `createPasswordHash(password)`, with the salt bcrypt generated (or
      its error) given: the hash tagged with its algorithm. */
  function CreatePasswordHash(password: string, salt: Result<string, ForeignError>, p: Primitives): (r: Result<string, ForeignError>)
    ensures salt.Err? ==> r == Err(salt.error)
    ensures r.Ok? ==>
      && salt.Ok? && p.bcryptHash(password, salt.value).Ok?
      && r.value == BCRYPT + ":" + p.bcryptHash(password, salt.value).value
  {
    match salt
    case Err(e) => Err(e)
    case Ok(s) =>
      match p.bcryptHash(password, s)
      case Err(e) => Err(e)
      case Ok(hash) => Ok(BCRYPT + ":" + hash)
  }

  /** `verifyPasswordHash(hash, password)`: whether the password matches,
      and whether the hash is of a legacy kind (never, here). */
  function VerifyPasswordHash(hash: string, password: string, p: Primitives): (r: Result<(bool, bool), Error>)
    ensures r == Err(MALFORMED_PASSWORD_HASH) <==>
      var fields := Split(hash, ':');
      (|fields| != 2 && |fields| != 3) || fields[0] != BCRYPT
    ensures r.Ok? ==> !r.value.1 && r.value.0 == (p.bcryptCompare(password, Split(hash, ':')[1]) == Ok(true))
    ensures r != Err(MALFORMED_PASSWORD_HASH) ==>
      var c := p.bcryptCompare(password, Split(hash, ':')[1]);
      && (c.Ok? ==> r == Ok((c.value, false)))
      && (c.Err? ==> r == Err(Foreign(c.error)))
  {
    var fields := Split(hash, ':');
    if |fields| != 2 && |fields| != 3 then Err(MALFORMED_PASSWORD_HASH)
    else if fields[0] != BCRYPT then Err(MALFORMED_PASSWORD_HASH)
    else
      match p.bcryptCompare(password, fields[1])
      case Err(e) => Err(Foreign(e))
      case Ok(verified) => Ok((verified, false))
  }

  /** A hash made by `createPasswordHash` verifies the password it was
      made from. */
  lemma CreateThenVerify(password: string, salt: Result<string, ForeignError>, p: Primitives)
    requires BcryptChecks(p)
    requires CreatePasswordHash(password, salt, p).Ok?
    ensures VerifyPasswordHash(CreatePasswordHash(password, salt, p).value, password, p) == Ok((true, false))
  {
    var hash := p.bcryptHash(password, salt.value).value;
    assert ':' !in hash;
    assert Join([BCRYPT, hash], ':') == BCRYPT + ":" + hash;
    SplitJoin([BCRYPT, hash], ':');
  }

  /** A hash of another algorithm, or without a hash field, is refused. */
  lemma MalformedHashes(password: string, p: Primitives)
    ensures VerifyPasswordHash("sha1:abc", password, p) == Err(MALFORMED_PASSWORD_HASH)
    ensures VerifyPasswordHash("bcrypt", password, p) == Err(MALFORMED_PASSWORD_HASH)
  {
    SplitExamples();
  }

  lemma SplitExamples()
    ensures Split("sha1:abc", ':') == ["sha1", "abc"]
    ensures Split("bcrypt", ':') == ["bcrypt"]
  {
    SplitJoin(["sha1", "abc"], ':');
    assert Join(["sha1", "abc"], ':') == "sha1:abc";
    SplitJoin(["bcrypt"], ':');
  }

  /** A stored value of four or more colon-separated fields is refused,
      whatever its first field says. */
  lemma TooManyFieldsMalformed(fields: seq<string>, password: string, p: Primitives)
    requires |fields| >= 4 && forall i :: 0 <= i < |fields| ==> ':' !in fields[i]
    ensures VerifyPasswordHash(Join(fields, ':'), password, p) == Err(MALFORMED_PASSWORD_HASH)
  {
    SplitJoin(fields, ':');
  }
}
