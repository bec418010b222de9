/** The errors the database and security helpers report, and the predicates
    that classify MongoDB driver errors (database.js, lines 615-640). */
module Errors {
  import opened Wrappers
  import opened Json
  import opened Text

  /** An error raised outside the helpers — by the MongoDB driver, a crypto
      library or the JavaScript runtime — of which only the properties the
      helpers inspect are kept. */
  datatype ForeignError = ForeignError(name: string, message: string, code: Option<int>)

  /** What an operation passes to its callback or throws: a foreign error
      passed through unchanged, or a BedrockError built by the helpers
      (message, type, details, and optionally the error it wraps). */
  datatype Error =
    | Foreign(foreign: ForeignError)
    | BedrockError(message: string, kind: string, details: Value, cause: Option<ForeignError>)

  const MDBE_ERROR := "MongoError"
  const MDBE_DUPLICATE := 11000
  const MDBE_DUPLICATE_ON_UPDATE := 11001

  /** The URIError `decodeURIComponent` throws on a malformed escape. */
  const URI_MALFORMED := ForeignError("URIError", "URI malformed", None)

  /** The TypeError the runtime throws when a method is called on
      `undefined`; its message is not modelled. */
  const TYPE_ERROR := ForeignError("TypeError", "", None)

  /** `isAlreadyExistsError`: the error's message mentions "already exists". */
  function IsAlreadyExistsError(err: Option<ForeignError>): (r: bool)
    ensures r <==> err.Some? && exists i :: 0 <= i && OccursAt(err.value.message, "already exists", i)
  {
    err.Some? && err.value.message != "" && IndexOf(err.value.message, "already exists").Some?
  }

  /** `isDatabaseError`: the error was raised by the MongoDB driver. */
  function IsDatabaseError(err: Option<ForeignError>): (r: bool)
    ensures r <==> err.Some? && err.value.name == MDBE_ERROR
  {
    err.Some? && err.value.name == MDBE_ERROR
  }

  /** `isDuplicateError`: a MongoDB duplicate-key error, from an insert or an
      update. */
  function IsDuplicateError(err: Option<ForeignError>): (r: bool)
    ensures r ==> IsDatabaseError(err)
    ensures r <==> err.Some? && err.value.name == MDBE_ERROR && err.value.code.Some?
                   && err.value.code.value in {MDBE_DUPLICATE, MDBE_DUPLICATE_ON_UPDATE}
  {
    IsDatabaseError(err) && (err.value.code == Some(MDBE_DUPLICATE) || err.value.code == Some(MDBE_DUPLICATE_ON_UPDATE))
  }

  /** The classification looks at the message only: an error without a
      message is never an "already exists" error, one whose message contains
      the phrase always is, whatever its name and code. */
  lemma AlreadyExistsNeedsMessage(name: string, code: Option<int>)
    ensures !IsAlreadyExistsError(Some(ForeignError(name, "", code)))
    ensures IsAlreadyExistsError(Some(ForeignError(name, "collection already exists", code)))
  {
    var m := "collection already exists";
    assert m[11..11 + |"already exists"|] == "already exists";
    assert OccursAt(m, "already exists", 11);
  }
}
