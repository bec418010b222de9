# bedrock database and security helpers in Dafny

This project models the two helper modules of the bedrock web framework that do the real work around storage and cryptography. They are:

- `lib/bedrock/database.js`: the MongoDB helper module;
- `lib/bedrock/security.js`: the JSON-LD signing, encryption and password-hash helpers.

## What it models

For the database module:

- **Module object.** The `api` object is the class `Database.Api`. It holds the shared collection cache `api.collections`, the cache of distributed ID generators and the local collection.
- **Driver.** The MongoDB driver is `Mongo.Client`. Its `reply` function fixes, call by call, what the server answers, and it logs every call it receives.
- **Async helpers.** `openCollections`, `createIndexes`, `getDistributedIdGenerator`, `_initLocalDatabase` and `init` are methods. Each is proved against a specification function giving:
  - the error reported;
  - the new cache;
  - the exact list of driver calls.
- **Pure helpers.** These are functions:
  - `hash`, and `getNextUpdateId` on a 32-bit cycle;
  - the three error predicates;
  - `encode` and `decode` of property names;
  - `decodeURIComponent`, with the full UTF-8 decoding of ECMAScript 5 section 15.1.3.
- **`buildUpdate`.** It is a recursive method that fills one shared accumulator, as the source does. Its specification is the list of `path = leaf` assignments that the walk makes.

For the security module:

- **Libraries.** The JSON-LD library, SHA-256, RSA, AES, JSON and bcrypt are the function fields of `Crypto.Primitives`. The only facts assumed about them are:
  - signatures check;
  - RSA and AES decryption undo encryption;
  - `JSON.parse` reads back `JSON.stringify`;
  - bcrypt hashes match;
  - SHA-256 has no collisions.

  Each fact is a predicate that the lemmas needing it take as a hypothesis.
- **Checks and errors.** The model follows the source's checks, its error objects and their order, and how each helper prepares and restores a document.
- **Round trips.** Three are proved: sign then verify, encrypt then decrypt, and create then verify a password hash.

JavaScript values are `Json.Value`. An object is the sequence of its own properties in insertion order. Assignment overwrites in place or appends, and `delete` removes the property, as the language does.

## Model

| member | source | states |
|---|---|---|
| Database.Unopened | lib/bedrock/database.js:300-306 | the requested names not in the cache, in order, repeats kept; no longer than the request |
| Database.UnopenedMembers | lib/bedrock/database.js:300-306 | a name is unopened exactly when it is requested and not cached |
| Database.UnopenedEmpty | lib/bedrock/database.js:320 | nothing is unopened exactly when every requested name is cached |
| Database.DistinctMembers | lib/bedrock/database.js:328-335 | the task object's keys are the unopened names, each once |
| Database.CreateError | lib/bedrock/database.js:311-318 | a create error is reported exactly when there is one and it is not "already exists" |
| Database.OpenCachedIsNoop | lib/bedrock/database.js:323-325 | opening names that are all cached makes no driver call and succeeds |
| Database.OpenOutcomeCache | lib/bedrock/database.js:340-351 | after a failure the cache is unchanged; after a success every requested name is open, old entries keep their handles, and new entries are the driver's handles of requested names |
| Database.OpenAbsorbsAlreadyExists | lib/bedrock/database.js:311-314 | when every create succeeds or reports "already exists" and every open succeeds, `openCollections` succeeds |
| Database.OpenReportsCreateError | lib/bedrock/database.js:322-325 | any other create error is reported, and then no collection is opened and the cache is left alone |
| Database.OpenIsIdempotent | lib/bedrock/database.js:299-356 | after a successful open, opening the same names again succeeds with no driver call |
| Database.Api.OpenCollections | lib/bedrock/database.js:299-356 | error, new cache and the exact driver calls are those of the specification `OpenSpec`; the cache stays valid |
| Database.Api.UnopenedNames | lib/bedrock/database.js:300-306 | the loop computes `Unopened` |
| Database.Api.CreateEach | lib/bedrock/database.js:309-320 | one create per unopened name, in order; the first error in list order, "already exists" ignored |
| Database.Api.TaskNames | lib/bedrock/database.js:328-335 | the keys of the task object: the unopened names in order of first occurrence |
| Database.Api.OpenEach | lib/bedrock/database.js:336-343 | one open per task, in order; the first error, and on success the driver's handle for each task |
| Database.Api.OpenTasks | lib/bedrock/database.js:328-351 | one open per distinct unopened name, in order of first occurrence; the first error; on success exactly those handles are added to the cache |
| Database.Api.Merge | lib/bedrock/database.js:345-350 | the new handles are added to the cache and nothing else changes |
| Database.CachedPrefix | lib/bedrock/database.js:434-436 | how many leading index items name an open collection |
| Database.Api.CreateIndexes | lib/bedrock/database.js:433-438 | one `ensureIndex` per item on the cached handle, in order; a TypeError at the first item whose collection is not open; otherwise the first index error |
| Database.DistributedIdGenerator.Init | lib/bedrock/database.js:455-456 | the generator's `init` call is logged, and on success the generator holds its namespace |
| Database.Api.GetDistributedIdGenerator | lib/bedrock/database.js:447-463 | a cached generator is returned with no call; otherwise a fresh one is initialised and cached only on success; a failure leaves the cache unchanged |
| Database.LocalCalls | lib/bedrock/database.js:542-603 | the six steps of the local initialisation: open, authenticate, create, open collection, index `{id: true}` unique in the background, insert `{id: 'local', local: {}}` |
| Database.LocalFailureIsFirst | lib/bedrock/database.js:566-603 | the reported step is the first failing one: every earlier step succeeds and the reported one fails; "already exists" at step 2 and a duplicate key at step 5 are not failures |
| Database.LocalFailureNone | lib/bedrock/database.js:542-605 | when no step fails the local initialisation reaches the end |
| Database.LocalInitSurvivesRestart | lib/bedrock/database.js:569-602 | a restart that finds the collection and the document already there succeeds |
| Database.LocalInsertErrorReported | lib/bedrock/database.js:596-602 | a MongoDB insert error whose code is neither 11000 nor 11001 is reported as it is, whatever its message |
| Database.Api.LocalConnect | lib/bedrock/database.js:542-581 | the first four local steps are issued up to the first failure; that step's error is reported; when none fails the local collection's handle is returned |
| Database.Api.LocalFinish | lib/bedrock/database.js:582-603 | the index and insert steps on the local collection are issued up to the first failure, whose error is reported |
| Database.Api.InitLocalDatabase | lib/bedrock/database.js:531-606 | the steps are issued up to the first failure and no further; that step's error is reported; the local collection is set once it has been opened |
| Database.SharedInitOpensIdCollection | lib/bedrock/database.js:252-287 | when the shared part of `init` succeeds, `distributedId` is cached, the client was opened and authenticated first, and the last call indexes `distributedId` |
| Database.SharedInitSucceeds | lib/bedrock/database.js:252-287 | a server that answers every shared call with success lets the shared part succeed |
| Database.Api.OpenAndIndex | lib/bedrock/database.js:276-287 | opening a collection and then indexing it gives the outcome of `OpenIndexSpec`: an open failure stops before any index call |
| Database.Api.InitShared | lib/bedrock/database.js:252-287 | the calls, error and cache of the shared waterfall are those of `SharedInit` |
| Database.Api.Init | lib/bedrock/database.js:243-291 | the shared waterfall, then the local initialisation only if the shared part succeeded, with the outcome of each |
| Mongo.Client.Send | lib/bedrock/database.js:259-274 | a driver call is logged and answered by the server's reply |
| Mongo.Client.Collection | lib/bedrock/database.js:580-581 | `collection(name)` gives the database's handle of that name unless the call fails |
| Mongo.FirstErrorIsFirst | lib/bedrock/database.js:309-343 | the reported error is None exactly when every outcome succeeds, and otherwise the earliest failure |
| Errors.IsAlreadyExistsError | lib/bedrock/database.js:615-617 | true exactly when there is an error whose message contains "already exists" |
| Errors.IsDatabaseError | lib/bedrock/database.js:638-640 | true exactly when there is an error whose name is `MongoError` |
| Errors.IsDuplicateError | lib/bedrock/database.js:626-629 | true exactly for a MongoError with code 11000 or 11001; every such error is a database error |
| Errors.AlreadyExistsNeedsMessage | lib/bedrock/database.js:615-617 | an error with an empty message is not "already exists"; one saying "collection already exists" is |
| Keys.Hash | lib/bedrock/database.js:365-374 | a non-string key throws InvalidKey with the key in the details; otherwise 40 SHA-1 hex digits, then the key's UTF-16 length in lower-case hex without leading zeros |
| Keys.HashSeparatesLengths | lib/bedrock/database.js:373 | keys of different UTF-16 lengths never hash alike |
| Keys.GetNextUpdateId | lib/bedrock/database.js:649-651 | the successor modulo 2^32 for IDs in range; anything at or above 0xffffffff wraps to 0; never the input |
| Keys.UpdateIdsCycle | lib/bedrock/database.js:649-651 | n updates from an ID in range advance it by n modulo 2^32 |
| Keys.UpdateIdPeriod | lib/bedrock/database.js:649-651 | an ID in range returns after exactly 2^32 updates and not before |
| Update.BuildUpdateInto | lib/bedrock/database.js:388-422 | the accumulator afterwards is the old one with the walk's assignments played onto it in order |
| Update.BuildUpdate | lib/bedrock/database.js:388-422 | the update built into a fresh accumulator is `UpdateOf` |
| Update.AssignmentsExactly | lib/bedrock/database.js:404-420 | the walk assigns exactly the leaves reached through admitted fields, each at its dot-delimited path |
| Update.AssignmentSound | lib/bedrock/database.js:411-420 | every assignment is of a leaf reached by following property names |
| Update.AssignmentComplete | lib/bedrock/database.js:411-420 | every leaf reached through admitted fields is assigned at its path |
| Update.AssignedPathsAdmitted | lib/bedrock/database.js:404-410 | every assigned path passes the exclude and include checks |
| Update.UpdateKeysAdmitted | lib/bedrock/database.js:404-410 | the update never holds an excluded path, nor a dotted path missing from the include list |
| Update.AssignAllGet | lib/bedrock/database.js:419 | the last assignment to a path wins; paths never assigned keep their value |
| Update.AssignmentsDistinct | lib/bedrock/database.js:411-416 | with simple property names, no two leaves share a path |
| Update.UpdateSetsExactly | lib/bedrock/database.js:388-422 | with simple property names, the update maps a path to a value exactly when that value is an admitted leaf at that path |
| Update.OptionsExamples | lib/bedrock/database.js:404-410 | `exclude: ['b']` drops the subtree at `b`; `include: []` still keeps top-level fields |
| Codec.TryMapKeysRoundTrip | lib/bedrock/database.js:473-524 | decoding the renamed value gives it back when the decoder undoes the encoder on every name |
| Codec.MapKeysAllKeys | lib/bedrock/database.js:484-489 | every property name the walk writes is the renaming of one it read |
| Codec.RenamePropsInOrder | lib/bedrock/database.js:484-489 | with a one-to-one renaming the copy has the same properties, renamed, in the same order |
| Codec.EncodeAsWrittenIsIdentity | lib/bedrock/database.js:485-488 | as written, `encode` changes nothing in a value whose property names hold no `/` |
| Codec.EncodeAsWrittenKeepsDots | lib/bedrock/database.js:485-488 | as written, the key `a.b` is stored unescaped |
| Codec.EncodeAsWrittenBreaksDecode | lib/bedrock/database.js:485-488 | as written, the key `100%` makes `decode(encode(v))` throw URIError |
| Codec.EncodeAsWrittenRenamesPattern | lib/bedrock/database.js:485-488 | as written, the key `/%/g` comes back from the round trip as `%` |
| Codec.EncodeIntendedIsKeySafe | lib/bedrock/database.js:466-471 | the corrected encoding leaves no `$` or `.` in any property name |
| Codec.DecodeEncodeIntended | lib/bedrock/database.js:498-524 | `decode` of the corrected encoding gives every value back |
| Codec.DecodeEncodeAsWritten | lib/bedrock/database.js:473-524 | as written, `decode(encode(v))` gives `v` back when no property name holds `/` or `%` |
| Codec.DecodeWithoutEscapes | lib/bedrock/database.js:506-524 | `decode` leaves a value whose property names hold no `%` as it is |
| Uri.DecodeUriComponent | lib/bedrock/database.js:517 | a name without `%` is unchanged; a result is never longer; a failure is a URIError, and only a name holding `%` can fail |
| Uri.DecodeEscapedKey | lib/bedrock/database.js:517 | `decodeURIComponent` undoes the corrected escaping of a name |
| Uri.EscapeKeyIntended | lib/bedrock/database.js:484-488 | the escaped name holds no `$` or `.`, and is at most three times as long |
| Uri.EscapeKeyInjective | lib/bedrock/database.js:484-488 | different names escape differently |
| Uri.MalformedEscapes | lib/bedrock/database.js:517 | `100%` and `%zz` are malformed |
| Uri.Utf8Escapes | lib/bedrock/database.js:517 | `%C3%A9` decodes to é; the overlong `%C0%80` and the surrogate `%ED%A0%80` are malformed |
| Text.Split | lib/bedrock/security.js:328 | `split(':')` gives at least one field, none containing `:`, and joining them gives the string back |
| Text.SplitJoin | lib/bedrock/security.js:328 | splitting fields joined with `:` gives the fields back when none contains `:` |
| Text.ParseToHex | lib/bedrock/database.js:373 | reading back `toString(16)` gives the number |
| Text.Utf16Length | lib/bedrock/database.js:373 | the UTF-16 length is between the code-point count and twice that, and equals the count when no code point is above U+FFFF |
| Security.HashJsonLd | lib/bedrock/security.js:28-64 | a library error is passed on; otherwise `urn:sha256:` followed by the digest of the normalised object |
| Security.HashAssumesDefaultContext | lib/bedrock/security.js:39-43 | an object without `@context` hashes as if it carried the default context |
| Security.HashIgnoresFalsyFrame | lib/bedrock/security.js:48-51 | the frame is applied only when it is truthy |
| Security.HashIdentifiesNormalForm | lib/bedrock/security.js:53-61 | with a collision-free digest, two objects hash alike exactly when their normal forms agree |
| Security.SignatureInput | lib/bedrock/security.js:358-361 | the normalised object has `@context` set to the context URL, no `signature`, and every other property unchanged |
| Security.AfterSignatureData | lib/bedrock/security.js:366-371 | afterwards a truthy `@context` and a truthy `signature` are restored, a falsy `@context` stays the context URL, a falsy `signature` stays deleted, and nothing else changes |
| Security.GetSignatureData | lib/bedrock/security.js:356-374 | the data is the normal form of `SignatureInput`; the object ends as `AfterSignatureData` |
| Security.SignSpec | lib/bedrock/security.js:78-141 | fails with InvalidPrivateKey exactly when the key has no `privateKeyPem`; a normaliser error is passed on and a signer error becomes SignError; on success the output carries a GraphSignature2012 record (creator, created, the signer's value over nonce, date and normal form, and a nonce only when one is given), the restored `@context`, and every other property of the input |
| Security.SignJsonLd | lib/bedrock/security.js:89-131 | the result is `SignSpec` on a fresh clone; the caller's object is unchanged |
| Security.VerifySpec | lib/bedrock/security.js:150-195 | InvalidSignature, then RevokedPublicKey, then InvalidPublicKey, in that order; past those checks only a verifier result or a VerifyError wrapping the library error |
| Security.VerifyJsonLd | lib/bedrock/security.js:150-195 | the result is `VerifySpec`; the object goes through `_getSignatureData` only when the checks pass |
| Security.SignedInputUnchanged | lib/bedrock/security.js:358-361 | verification normalises exactly what signing normalised |
| Security.SignatureBlockFields | lib/bedrock/security.js:110-186 | the verifier is fed the same updates as the signer (nonce if any, date, data) and the signature value |
| Security.SignThenVerify | lib/bedrock/security.js:78-195 | a document signed with one half of a key pair verifies against the other half, if that key is not revoked |
| Security.EncryptSpec | lib/bedrock/security.js:206-253 | the first failing cipher step (AES, then RSA on the key, then RSA on the IV) gives an EncryptionError marked public wrapping its error; success is the `EncryptedMessage` envelope of the three ciphertexts for the public key's id |
| Security.AfterEncrypt | lib/bedrock/security.js:219-226 | the caller's `@context` is the context URL afterwards, unless it was truthy and AES succeeded, in which case it is restored; nothing else changes |
| Security.EncryptJsonLd | lib/bedrock/security.js:206-253 | the result is `EncryptSpec` and the object ends as `AfterEncrypt` |
| Security.DecryptJsonLd | lib/bedrock/security.js:263-296 | UnsupportedAlgorithm (public, algorithm, status 400) exactly when the algorithm is not `rsa-sha256-aes-128-cbc`; any later failure is a DecryptionError marked public |
| Security.DecryptEnvelope | lib/bedrock/security.js:263-296 | an envelope whose sealed key, sealed IV and ciphertext open with the private key decrypts to the parsed plaintext |
| Security.EnvelopeFields | lib/bedrock/security.js:234-242 | every envelope has the supported algorithm, type `EncryptedMessage`, the public key's id and the enciphered parts |
| Security.EncryptThenDecrypt | lib/bedrock/security.js:206-296 | decrypting with the private half gives the document as serialised: the original with `@context` set to the context URL |
| Security.EncryptThenDecryptDefaultContext | lib/bedrock/security.js:206-296 | a document already using the default context comes back equal to itself |
| Security.CreatePasswordHash | lib/bedrock/security.js:305-314 | a salt error is passed on; a success needs both the salt and the hash, and is `bcrypt:` followed by the bcrypt hash |
| Security.VerifyPasswordHash | lib/bedrock/security.js:327-347 | MalformedPasswordHash exactly when the field count is not 2 or 3 or the first field is not `bcrypt`; otherwise a well-formed bcrypt hash gives the compare's result against the second field, never legacy, or the compare's error |
| Security.CreateThenVerify | lib/bedrock/security.js:305-347 | a hash made by `createPasswordHash` verifies its password, not legacy |
| Security.MalformedHashes | lib/bedrock/security.js:328-346 | `sha1:abc` and `bcrypt` are malformed |
| Security.TooManyFieldsMalformed | lib/bedrock/security.js:328-333 | a hash of four or more colon-separated fields is malformed, whatever they hold |

## Left out

- `initDatabase` and `createSessionStore` are not modelled. They are interactive administration and a `connect-mongo` wrapper.
- The async library: only the sequential outcome is modelled. Calls that `async.forEach` and `async.parallel` start together are issued in list order, and the first error in list order is the one reported, whatever order the replies arrive in. After an early error, calls still in flight are not modelled.
- Database.Api.Init: the two `mongo.Db` objects, and the configuration they are built from, are given to the constructor. The host, port, names and credentials become parameters.
- Logging is left out of every helper.
- Object property order: the model keeps insertion order. JavaScript lists integer-like names first, so with such collection names the order of the `async.parallel` calls can differ from the model's.
- `in` looks only at own properties here. Names inherited from `Object.prototype` (such as `constructor`) are not modelled.
- Update.BuildUpdate: the shuffling of optional arguments is left out. The model takes the field and the options explicitly. `include` and `exclude` are lists of strings, and other option values are not modelled.
- Database.DistributedIdGenerator: its class is not part of this model. It keeps only the namespace its `init` sets up, and `init` is one driver call.
- Database.Api.CreateIndexes: the TypeError thrown for an uncached collection is returned as the error, and its message is not modelled.
- The cryptography is uninterpreted, and so are JSON-LD framing and normalisation. The W3C date of `signJsonLd` and the 32 random bytes of `encryptJsonLd` are parameters. A failure of `crypto.randomBytes` is not modelled.
- Security.VerifyJsonLd: `_getSignatureData` is modelled as calling back at once, so a failure inside it becomes a VerifyError. If the JSON-LD library calls back later, that throw escapes the `try`.
- Security.SignJsonLd and Security.HashJsonLd: the optional-argument shuffling (`typeof nonce === 'function'`, `typeof frame === 'function'`) is left out. The nonce is `undefined` when absent, the frame `null`.
- Security.EncryptThenDecrypt: the decrypted message equals the original only when the original already used the default context. The code overwrites `@context` before serialising (security.js line 220), so another context comes back as the context URL.
- Security.CreatePasswordHash: on a bcrypt hash error the source also passes `'bcrypt:undefined'`. The model passes only the error.
- Keys.Hash: SHA-1 is a parameter, and the UTF-8 encoding it digests is not modelled.
- Numbers are integers. JavaScript's floating point (NaN, fractions) is not modelled, so `getNextUpdateId` is proved for integers only.

## Findings

| source | as written | input that shows it | evidently intended | confidence | as-written member | corrected member |
|---|---|---|---|---|---|---|
| lib/bedrock/database.js:485-488 | `replace` is given the strings `'/%/g'`, `'/$/g'` and `'/./g'`, not regular expressions. Each call replaces only the first occurrence of that four-character text, so real keys are never escaped | the key `a.b` is stored unescaped; `100%` is stored as is and then makes `decode` throw URIError; `/%/g` comes back as `%` | every `%`, `$` and `.` in a key percent-encoded, so that `decode(encode(v))` is `v` and stored keys hold no `$` or `.` | high; not executed | Codec.EncodeAsWrittenIsIdentity, Codec.EncodeAsWrittenKeepsDots, Codec.EncodeAsWrittenBreaksDecode, Codec.EncodeAsWrittenRenamesPattern | Codec.EncodeIntended, with Codec.DecodeEncodeIntended and Codec.EncodeIntendedIsKeySafe |
