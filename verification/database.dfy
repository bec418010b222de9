/** The database module object (`api` in database.js): the shared client
    and its cache of open collections, the cache of distributed ID
    generators, and the machine-local database with its one collection.

    The asynchronous helpers (`openCollections`, `createIndexes`,
    `getDistributedIdGenerator`, `_initLocalDatabase`, `init`) become
    methods that issue their driver calls in order and return the error the
    source passes to its callback. Where the source starts several calls at
    once (`async.forEach`, `async.parallel`) all of them are issued, in list
    order, and the first error in that order is the one reported. */
module Database {
  import opened Wrappers
  import opened Json
  import opened Errors
  import opened Mongo

  /** The shared collection `init` opens and indexes. */
  const DISTRIBUTED_ID := "distributedId"

  /** `api.localDocumentId`: the `id` of the single local document. */
  const LOCAL_DOCUMENT_ID := "local"

  // ---------------------------------------------------------------------
  // openCollections (lines 299-356)

  /** The names not yet in the cache, in order, repeats kept. */
  function Unopened(names: seq<string>, cache: map<string, Handle>): (r: seq<string>)
    ensures |r| <= |names|
    decreases |names|
  {
    if names == [] then []
    else
      var init, last := names[..|names| - 1], names[|names| - 1];
      Unopened(init, cache) + (if last in cache then [] else [last])
  }

  /** A name is unopened exactly when it is requested and not cached. */
  lemma {:induction false} UnopenedMembers(names: seq<string>, cache: map<string, Handle>)
    ensures forall n :: n in Unopened(names, cache) <==> n in names && n !in cache
    decreases |names|
  {
    if names != [] {
      var init, last := names[..|names| - 1], names[|names| - 1];
      assert names == init + [last];
      UnopenedMembers(init, cache);
    }
  }

  /** Nothing is unopened exactly when every name is cached. */
  lemma UnopenedEmpty(names: seq<string>, cache: map<string, Handle>)
    ensures Unopened(names, cache) == [] <==> forall n :: n in names ==> n in cache
  {
    UnopenedMembers(names, cache);
    var r := Unopened(names, cache);
    if r != [] {
      assert r[0] in r;
    }
  }

  /** The names in order of first occurrence, each once: the keys of the
      object of tasks handed to `async.parallel`. */
  function Distinct(ns: seq<string>): (r: seq<string>)
    ensures |r| <= |ns|
    decreases |ns|
  {
    if ns == [] then []
    else
      var init, last := ns[..|ns| - 1], ns[|ns| - 1];
      var d := Distinct(init);
      if last in d then d else d + [last]
  }

  /** `Distinct` keeps every name and adds none, and lists none twice. */
  lemma {:induction false} DistinctMembers(ns: seq<string>)
    ensures forall n :: n in Distinct(ns) <==> n in ns
    ensures forall i, j :: 0 <= i < j < |Distinct(ns)| ==> Distinct(ns)[i] != Distinct(ns)[j]
    decreases |ns|
  {
    if ns != [] {
      var init, last := ns[..|ns| - 1], ns[|ns| - 1];
      assert ns == init + [last];
      DistinctMembers(init);
    }
  }

  /** The outcome of creating one collection, "already exists" counting as
      success. */
  function CreateError(reply: Call -> Option<ForeignError>, name: string): (r: Option<ForeignError>)
    ensures r.Some? <==> reply(CreateCollection(name)).Some? && !IsAlreadyExistsError(reply(CreateCollection(name)))
  {
    var e := reply(CreateCollection(name));
    if IsAlreadyExistsError(e) then None else e
  }

  function CreateErrors(reply: Call -> Option<ForeignError>, ns: seq<string>): seq<Option<ForeignError>>
  {
    seq(|ns|, i requires 0 <= i < |ns| => CreateError(reply, ns[i]))
  }

  function CreateCalls(ns: seq<string>): seq<Call>
  {
    seq(|ns|, i requires 0 <= i < |ns| => CreateCollection(ns[i]))
  }

  function GetErrors(reply: Call -> Option<ForeignError>, ns: seq<string>): seq<Option<ForeignError>>
  {
    seq(|ns|, i requires 0 <= i < |ns| => reply(GetCollection(ns[i])))
  }

  function GetCalls(ns: seq<string>): seq<Call>
  {
    seq(|ns|, i requires 0 <= i < |ns| => GetCollection(ns[i]))
  }

  /** The handles the driver gives for the names `ns`. */
  function HandlesFor(ns: seq<string>, database: string): map<string, Handle>
  {
    map n | n in ns :: Handle(database, n)
  }

  lemma UnopenedStep(names: seq<string>, i: nat, cache: map<string, Handle>)
    requires i < |names|
    ensures Unopened(names[..i + 1], cache) == Unopened(names[..i], cache) + (if names[i] in cache then [] else [names[i]])
  {
    assert names[..i + 1][..i] == names[..i];
  }

  lemma DistinctStep(ns: seq<string>, x: string)
    ensures Distinct(ns + [x]) == if x in Distinct(ns) then Distinct(ns) else Distinct(ns) + [x]
  {
    assert (ns + [x])[..|ns|] == ns;
  }

  lemma HandlesForStep(ns: seq<string>, x: string, database: string)
    ensures HandlesFor(ns + [x], database) == HandlesFor(ns, database)[x := Handle(database, x)]
  {
  }

  /** Adding one more opened name to the merged cache. */
  lemma MergeStep(cache: map<string, Handle>, ns: seq<string>, x: string, database: string)
    ensures cache + HandlesFor(ns + [x], database) == (cache + HandlesFor(ns, database))[x := Handle(database, x)]
  {
    HandlesForStep(ns, x, database);
  }

  /** Merging the driver's handles keeps every cached handle the
      database's handle of its name. */
  lemma CachedHandlesMerge(cache: map<string, Handle>, ns: seq<string>, database: string)
    requires forall n :: n in cache ==> cache[n] == Handle(database, n)
    ensures forall n :: n in cache + HandlesFor(ns, database) ==> (cache + HandlesFor(ns, database))[n] == Handle(database, n)
  {
  }

  lemma SeqAssoc<T>(a: seq<T>, b: seq<T>, c: seq<T>)
    ensures (a + b) + c == a + (b + c)
  {
  }

  /** The error reported, the cache afterwards, and the driver calls made. */
  datatype OpenOutcome = OpenOutcome(err: Option<ForeignError>, cache: map<string, Handle>, calls: seq<Call>)

  /** What `openCollections(names)` does against a server answering
      `reply`: every unopened name is created; if none of that fails and
      some name was unopened, each distinct unopened name is opened, and
      the handles join the cache only when every open succeeds. */
  function OpenSpec(names: seq<string>, cache: map<string, Handle>, database: string,
                    reply: Call -> Option<ForeignError>): OpenOutcome
  {
    var unopened := Unopened(names, cache);
    var createErr := FirstError(CreateErrors(reply, unopened));
    if createErr.Some? || unopened == [] then OpenOutcome(createErr, cache, CreateCalls(unopened))
    else
      var todo := Distinct(unopened);
      var getErr := FirstError(GetErrors(reply, todo));
      OpenOutcome(getErr, if getErr.None? then cache + HandlesFor(todo, database) else cache,
                  CreateCalls(unopened) + GetCalls(todo))
  }

  lemma FirstErrorStep(errs: seq<Option<ForeignError>>, j: nat)
    requires j < |errs|
    ensures FirstError(errs[..j + 1]) == if FirstError(errs[..j]).Some? then FirstError(errs[..j]) else errs[j]
  {
    assert errs[..j + 1][..j] == errs[..j];
  }

  /** Names already open cost no driver call and cannot fail. */
  lemma OpenCachedIsNoop(names: seq<string>, cache: map<string, Handle>, database: string,
                         reply: Call -> Option<ForeignError>)
    requires forall n :: n in names ==> n in cache
    ensures OpenSpec(names, cache, database, reply) == OpenOutcome(None, cache, [])
  {
    UnopenedEmpty(names, cache);
  }

  /** After a success every requested name is open; the names open before
      keep their handles, and the new ones hold the driver's handle. After a
      failure the cache is as it was. */
  lemma OpenOutcomeCache(names: seq<string>, cache: map<string, Handle>, database: string,
                         reply: Call -> Option<ForeignError>)
    ensures var o := OpenSpec(names, cache, database, reply);
      o.err.Some? ==> o.cache == cache
    ensures var o := OpenSpec(names, cache, database, reply);
      o.err.None? ==> (forall n :: n in names ==> n in o.cache)
    ensures var o := OpenSpec(names, cache, database, reply);
      forall n :: n in cache ==> n in o.cache && o.cache[n] == cache[n]
    ensures var o := OpenSpec(names, cache, database, reply);
      forall n :: n in o.cache && n !in cache ==> n in names && o.cache[n] == Handle(database, n)
  {
    UnopenedMembers(names, cache);
    UnopenedEmpty(names, cache);
    DistinctMembers(Unopened(names, cache));
  }

  /** A collection that already exists counts as created: when every
      create either succeeds or reports "already exists", and every open
      succeeds, `openCollections` succeeds. */
  lemma OpenAbsorbsAlreadyExists(names: seq<string>, cache: map<string, Handle>, database: string,
                                 reply: Call -> Option<ForeignError>)
    requires forall n :: n in names && n !in cache ==>
      (reply(CreateCollection(n)).None? || IsAlreadyExistsError(reply(CreateCollection(n))))
      && reply(GetCollection(n)).None?
    ensures OpenSpec(names, cache, database, reply).err == None
  {
    var unopened := Unopened(names, cache);
    UnopenedMembers(names, cache);
    DistinctMembers(unopened);
    var ce := CreateErrors(reply, unopened);
    assert forall i :: 0 <= i < |ce| ==> ce[i].None? by {
      forall i | 0 <= i < |ce| ensures ce[i].None? {
        assert unopened[i] in unopened;
      }
    }
    FirstErrorIsFirst(ce);
    var todo := Distinct(unopened);
    var ge := GetErrors(reply, todo);
    forall i | 0 <= i < |ge| ensures ge[i].None? {
      assert todo[i] in todo;
    }
    FirstErrorIsFirst(ge);
  }

  /** Any other create error is reported, and then no collection is
      opened and the cache is left alone. */
  lemma OpenReportsCreateError(names: seq<string>, cache: map<string, Handle>, database: string,
                               reply: Call -> Option<ForeignError>, bad: string)
    requires bad in names && bad !in cache && CreateError(reply, bad).Some?
    ensures var o := OpenSpec(names, cache, database, reply);
      o.err.Some? && o.cache == cache && o.calls == CreateCalls(Unopened(names, cache))
  {
    var unopened := Unopened(names, cache);
    var ce := CreateErrors(reply, unopened);
    UnopenedMembers(names, cache);
    assert bad in unopened;
    var i :| 0 <= i < |unopened| && unopened[i] == bad;
    assert ce[i].Some?;
    FirstErrorIsFirst(ce);
  }

  /** Opening the same names again after a success costs nothing. */
  lemma OpenIsIdempotent(names: seq<string>, cache: map<string, Handle>, database: string,
                         reply: Call -> Option<ForeignError>)
    requires OpenSpec(names, cache, database, reply).err.None?
    ensures var c := OpenSpec(names, cache, database, reply).cache;
      OpenSpec(names, c, database, reply) == OpenOutcome(None, c, [])
  {
    OpenOutcomeCache(names, cache, database, reply);
    OpenCachedIsNoop(names, OpenSpec(names, cache, database, reply).cache, database, reply);
  }

  // ---------------------------------------------------------------------
  // createIndexes (lines 433-438)

  /** One item of the `options` array of `createIndexes`. */
  datatype IndexSpec = IndexSpec(collection: string, fields: Value, options: Value)

  /** How many leading items name an open collection. */
  function CachedPrefix(items: seq<IndexSpec>, cache: map<string, Handle>): (k: nat)
    ensures k <= |items|
    ensures forall i :: 0 <= i < k ==> items[i].collection in cache
    ensures k < |items| ==> items[k].collection !in cache
    decreases |items|
  {
    if items == [] || items[0].collection !in cache then 0
    else 1 + CachedPrefix(items[1..], cache)
  }

  function IndexCall(item: IndexSpec, cache: map<string, Handle>): Call
    requires item.collection in cache
  {
    EnsureIndex(cache[item.collection], item.fields, item.options)
  }

  function IndexCalls(items: seq<IndexSpec>, cache: map<string, Handle>, k: nat): seq<Call>
    requires k <= |items| && forall i :: 0 <= i < k ==> items[i].collection in cache
  {
    seq(k, i requires 0 <= i < k => IndexCall(items[i], cache))
  }

  function IndexErrors(items: seq<IndexSpec>, cache: map<string, Handle>, k: nat,
                       reply: Call -> Option<ForeignError>): seq<Option<ForeignError>>
    requires k <= |items| && forall i :: 0 <= i < k ==> items[i].collection in cache
  {
    seq(k, i requires 0 <= i < k => reply(IndexCall(items[i], cache)))
  }

  // ---------------------------------------------------------------------
  // _initLocalDatabase (lines 531-606)

  const ID_INDEX_FIELDS := Obj([Field("id", Bool(true))])
  const UNIQUE_BACKGROUND := Obj([Field("unique", Bool(true)), Field("background", Bool(true))])

  /** The local document: `{id: 'local', local: {}}`. */
  const LOCAL_RECORD := Obj([Field("id", Str(LOCAL_DOCUMENT_ID)), Field("local", Obj([]))])

  /** The six steps of the local initialisation, as driver calls. */
  function LocalCalls(local: Handle, username: string, password: string): (r: seq<Call>)
    ensures |r| == 6
  {
    [Open, Authenticate(username, password), CreateCollection(local.name), GetCollection(local.name),
     EnsureIndex(local, ID_INDEX_FIELDS, UNIQUE_BACKGROUND), Insert(local, LOCAL_RECORD)]
  }

  /** The error step `i` reports: an existing collection (step 2) and an
      already inserted document (step 5) count as success. */
  function LocalStepError(reply: Call -> Option<ForeignError>, calls: seq<Call>, i: nat): Option<ForeignError>
    requires |calls| == 6 && i < 6
  {
    var e := reply(calls[i]);
    if i == 2 && IsAlreadyExistsError(e) then None
    else if i == 5 && IsDuplicateError(e) then None
    else e
  }

  /** The first step that fails, 6 when none does. */
  function LocalFailure(reply: Call -> Option<ForeignError>, calls: seq<Call>, from: nat): (k: nat)
    requires |calls| == 6 && from <= 6
    ensures from <= k <= 6
    decreases 6 - from
  {
    if from == 6 then 6
    else if LocalStepError(reply, calls, from).Some? then from
    else LocalFailure(reply, calls, from + 1)
  }

  /** A restart finds the collection and the document in place: with the
      collection reported as existing and the insert as a duplicate, and
      every other step succeeding, the local initialisation succeeds. */
  lemma LocalInitSurvivesRestart(reply: Call -> Option<ForeignError>, local: Handle, username: string, password: string)
    requires var calls := LocalCalls(local, username, password);
      reply(calls[0]).None? && reply(calls[1]).None? && reply(calls[3]).None? && reply(calls[4]).None?
      && (reply(calls[2]).None? || IsAlreadyExistsError(reply(calls[2])))
      && (reply(calls[5]).None? || IsDuplicateError(reply(calls[5])))
    ensures LocalFailure(reply, LocalCalls(local, username, password), 0) == 6
  {
    var calls := LocalCalls(local, username, password);
    forall i | 0 <= i < 6 ensures LocalStepError(reply, calls, i).None? {
    }
    LocalFailureNone(reply, calls, 0);
  }

  /** How many calls the local initialisation issues when step `k` is the
      first to fail: the failing step is the last one issued. */
  function LocalIssued(k: nat): (n: nat)
    requires k <= 6
    ensures n <= 6
  {
    if k < 6 then k + 1 else 6
  }

  /** Steps that all succeed can be skipped when looking for the first
      failure. */
  lemma {:induction false} LocalFailureSkip(reply: Call -> Option<ForeignError>, calls: seq<Call>, from: nat, to: nat)
    requires |calls| == 6 && from <= to <= 6
    requires forall i :: from <= i < to ==> LocalStepError(reply, calls, i).None?
    ensures LocalFailure(reply, calls, from) == LocalFailure(reply, calls, to)
    decreases 6 - from
  {
    if from < to {
      LocalFailureSkip(reply, calls, from + 1, to);
    }
  }

  /** Every step before the reported one succeeds, and the reported one,
      unless it is 6, fails. */
  lemma {:induction false} LocalFailureIsFirst(reply: Call -> Option<ForeignError>, calls: seq<Call>, from: nat)
    requires |calls| == 6 && from <= 6
    ensures forall i :: from <= i < LocalFailure(reply, calls, from) ==> LocalStepError(reply, calls, i).None?
    ensures LocalFailure(reply, calls, from) < 6 ==> LocalStepError(reply, calls, LocalFailure(reply, calls, from)).Some?
    decreases 6 - from
  {
    if from < 6 && LocalStepError(reply, calls, from).None? {
      LocalFailureIsFirst(reply, calls, from + 1);
    }
  }

  /** The first failing step is `j` when `j` fails and every step before
      it succeeds. */
  lemma {:induction false} LocalFailureAt(reply: Call -> Option<ForeignError>, calls: seq<Call>, from: nat, j: nat)
    requires |calls| == 6 && from <= j < 6
    requires forall i :: from <= i < j ==> LocalStepError(reply, calls, i).None?
    requires LocalStepError(reply, calls, j).Some?
    ensures LocalFailure(reply, calls, from) == j
    decreases j - from
  {
    if from < j {
      LocalFailureAt(reply, calls, from + 1, j);
    }
  }

  lemma {:induction false} LocalFailureNone(reply: Call -> Option<ForeignError>, calls: seq<Call>, from: nat)
    requires |calls| == 6 && from <= 6
    requires forall i :: from <= i < 6 ==> LocalStepError(reply, calls, i).None?
    ensures LocalFailure(reply, calls, from) == 6
    decreases 6 - from
  {
    if from < 6 {
      LocalFailureNone(reply, calls, from + 1);
    }
  }

  /** An insert error that is not a duplicate-key error is reported, even
      when it comes from MongoDB. */
  lemma LocalInsertErrorReported(reply: Call -> Option<ForeignError>, local: Handle, username: string,
                                 password: string, message: string, code: int)
    requires var calls := LocalCalls(local, username, password);
      (forall i :: 0 <= i < 5 ==> reply(calls[i]).None?)
      && reply(calls[5]) == Some(ForeignError(MDBE_ERROR, message, Some(code)))
      && code != MDBE_DUPLICATE && code != MDBE_DUPLICATE_ON_UPDATE
    ensures LocalFailure(reply, LocalCalls(local, username, password), 0) == 5
    ensures LocalStepError(reply, LocalCalls(local, username, password), 5)
      == Some(ForeignError(MDBE_ERROR, message, Some(code)))
  {
    var calls := LocalCalls(local, username, password);
    assert forall i :: 0 <= i < 5 ==> LocalStepError(reply, calls, i).None?;
    assert LocalStepError(reply, calls, 5).Some?;
  }

  // ---------------------------------------------------------------------
  // init (lines 243-291), up to the local database

  /** The index `init` puts on the `distributedId` collection. */
  const ID_GENERATOR_INDEX := IndexSpec(DISTRIBUTED_ID, Obj([Field("namespace", Bool(true))]), UNIQUE_BACKGROUND)

  /** The error `createIndexes(items)` reports and the driver calls it
      makes. */
  function IndexOutcome(items: seq<IndexSpec>, cache: map<string, Handle>,
                        reply: Call -> Option<ForeignError>): (Option<ForeignError>, seq<Call>)
  {
    var k := CachedPrefix(items, cache);
    (if k < |items| then Some(TYPE_ERROR) else FirstError(IndexErrors(items, cache, k, reply)),
     IndexCalls(items, cache, k))
  }

  /** The last two steps of the shared waterfall: open the collection of
      `index`, then create the index (`distributedId` and its `namespace`
      index in `init`). */
  function OpenIndexSpec(index: IndexSpec, cache: map<string, Handle>, database: string,
                        reply: Call -> Option<ForeignError>): OpenOutcome
  {
    var o := OpenSpec([index.collection], cache, database, reply);
    if o.err.Some? then o
    else
      var (indexErr, indexCalls) := IndexOutcome([index], o.cache, reply);
      OpenOutcome(indexErr, o.cache, o.calls + indexCalls)
  }

  /** The waterfall of `init` on the shared client: open, authenticate,
      open `distributedId`, index it; the outcome holds the first error,
      the collection cache and the calls made. */
  function SharedInit(cache: map<string, Handle>, database: string, reply: Call -> Option<ForeignError>,
                      username: string, password: string): OpenOutcome
  {
    if reply(Open).Some? then OpenOutcome(reply(Open), cache, [Open])
    else if reply(Authenticate(username, password)).Some? then
      OpenOutcome(reply(Authenticate(username, password)), cache, [Open, Authenticate(username, password)])
    else
      var t := OpenIndexSpec(ID_GENERATOR_INDEX, cache, database, reply);
      OpenOutcome(t.err, t.cache, [Open, Authenticate(username, password)] + t.calls)
  }

  /** Once the shared part succeeds, `distributedId` is open and indexed:
      its handle is cached and the index call went to that handle. */
  lemma SharedInitOpensIdCollection(cache: map<string, Handle>, database: string, reply: Call -> Option<ForeignError>,
                                    username: string, password: string)
    requires forall n :: n in cache ==> cache[n] == Handle(database, n)
    ensures var s := SharedInit(cache, database, reply, username, password);
      s.err.None? ==>
        && DISTRIBUTED_ID in s.cache
        && s.calls[..2] == [Open, Authenticate(username, password)]
        && s.calls[|s.calls| - 1] == EnsureIndex(Handle(database, DISTRIBUTED_ID), ID_GENERATOR_INDEX.fields, UNIQUE_BACKGROUND)
  {
    if reply(Open).None? && reply(Authenticate(username, password)).None? {
      var o := OpenSpec([DISTRIBUTED_ID], cache, database, reply);
      OpenOutcomeCache([DISTRIBUTED_ID], cache, database, reply);
      if o.err.None? {
        assert DISTRIBUTED_ID in o.cache;
        assert o.cache[DISTRIBUTED_ID] == Handle(database, DISTRIBUTED_ID);
        assert CachedPrefix([ID_GENERATOR_INDEX], o.cache) == 1;
        var indexCalls := IndexCalls([ID_GENERATOR_INDEX], o.cache, 1);
        assert indexCalls == [EnsureIndex(Handle(database, DISTRIBUTED_ID), ID_GENERATOR_INDEX.fields, UNIQUE_BACKGROUND)];
        var s := SharedInit(cache, database, reply, username, password);
        assert s.calls == [Open, Authenticate(username, password)] + (o.calls + indexCalls);
        assert s.calls[..2] == [Open, Authenticate(username, password)];
      }
    }
  }

  /** A server that answers every shared call with success lets the shared
      part of `init` succeed. */
  lemma SharedInitSucceeds(cache: map<string, Handle>, database: string, reply: Call -> Option<ForeignError>,
                           username: string, password: string)
    requires forall c :: reply(c).None?
    ensures SharedInit(cache, database, reply, username, password).err.None?
  {
    OpenAbsorbsAlreadyExists([DISTRIBUTED_ID], cache, database, reply);
    var o := OpenSpec([DISTRIBUTED_ID], cache, database, reply);
    OpenOutcomeCache([DISTRIBUTED_ID], cache, database, reply);
    assert CachedPrefix([ID_GENERATOR_INDEX], o.cache) == 1;
    var errs := IndexErrors([ID_GENERATOR_INDEX], o.cache, 1, reply);
    FirstErrorIsFirst(errs);
  }

  // ---------------------------------------------------------------------
  // The module object

  /** A `DistributedIdGenerator` (defined outside this model): only the
      namespace its `init` sets up is kept. */
  class DistributedIdGenerator {
    var namespace: Option<string>

    constructor ()
      ensures namespace == None
    {
      namespace := None;
    }

    /** `init(namespace, callback)`. */
    method Init(ns: string, client: Client) returns (err: Option<ForeignError>)
      modifies this, client
      ensures client.log == old(client.log) + [InitIdGenerator(ns)] && err == client.reply(InitIdGenerator(ns))
      ensures namespace == if err.None? then Some(ns) else old(namespace)
    {
      err := client.Send(InitIdGenerator(ns));
      if err.None? {
        namespace := Some(ns);
      }
    }
  }

  /** The `api` object. The two `mongo.Db` objects, which the source builds
      from the configuration in `init` and `_initLocalDatabase`, are given
      to the constructor. */
  class Api {
    const client: Client
    const localClient: Client
    var collections: map<string, Handle>
    var idGenerators: map<string, DistributedIdGenerator>
    var localCollection: Option<Handle>

    /** The caches agree with what they cache: each collection handle is
        the shared client's handle of that name, and each ID generator was
        initialised for its namespace. */
    ghost predicate Valid()
      reads this, idGenerators.Values
    {
      client != localClient
      && (forall n :: n in collections ==> collections[n] == Handle(client.database, n))
      && (forall ns :: ns in idGenerators ==> idGenerators[ns].namespace == Some(ns))
    }

    constructor (client: Client, localClient: Client)
      requires client != localClient
      ensures Valid()
      ensures this.client == client && this.localClient == localClient
      ensures collections == map[] && idGenerators == map[] && localCollection == None
    {
      this.client := client;
      this.localClient := localClient;
      collections := map[];
      idGenerators := map[];
      localCollection := None;
    }

    /** `openCollections(names, callback)`. */
    method OpenCollections(names: seq<string>) returns (err: Option<ForeignError>)
      requires Valid()
      modifies this, client
      ensures Valid()
      ensures var o := OpenSpec(names, old(collections), client.database, client.reply);
        err == o.err && collections == o.cache && client.log == old(client.log) + o.calls
      ensures idGenerators == old(idGenerators) && localCollection == old(localCollection)
    {
      ghost var log0 := client.log;
      var unopened := UnopenedNames(names);
      err := CreateEach(unopened);
      if err.Some? || |unopened| == 0 {
        return;
      }
      err := OpenTasks(names, unopened);
      SeqAssoc(log0, CreateCalls(unopened), GetCalls(Distinct(unopened)));
    }

    /** The second half of `openCollections`, once every create has
        succeeded: the task object is built and run, and its results are
        merged into the cache. */
    method OpenTasks(names: seq<string>, unopened: seq<string>) returns (err: Option<ForeignError>)
      requires Valid() && unopened == Unopened(names, collections)
      modifies this, client
      ensures Valid()
      ensures err == FirstError(GetErrors(client.reply, Distinct(unopened)))
      ensures collections == if err.None? then old(collections) + HandlesFor(Distinct(unopened), client.database)
                             else old(collections)
      ensures client.log == old(client.log) + GetCalls(Distinct(unopened))
      ensures idGenerators == old(idGenerators) && localCollection == old(localCollection)
    {
      var todo := TaskNames(names);
      var results;
      err, results := OpenEach(todo);
      if err.Some? {
        return;
      }
      UnopenedMembers(names, collections);
      DistinctMembers(unopened);
      CachedHandlesMerge(collections, todo, client.database);
      Merge(todo, results);
    }

    /** The names of `names` not in the cache, repeats kept. */
    method UnopenedNames(names: seq<string>) returns (unopened: seq<string>)
      ensures unopened == Unopened(names, collections)
    {
      unopened := [];
      var i := 0;
      while i < |names|
        invariant 0 <= i <= |names|
        invariant unopened == Unopened(names[..i], collections)
      {
        UnopenedStep(names, i, collections);
        if names[i] !in collections {
          unopened := unopened + [names[i]];
        }
        i := i + 1;
      }
      assert names[..|names|] == names;
    }

    /** `async.forEach` over `createCollection`, "already exists" ignored. */
    method CreateEach(unopened: seq<string>) returns (err: Option<ForeignError>)
      modifies client
      ensures err == FirstError(CreateErrors(client.reply, unopened))
      ensures client.log == old(client.log) + CreateCalls(unopened)
    {
      ghost var createErrs := CreateErrors(client.reply, unopened);
      err := None;
      var j := 0;
      while j < |unopened|
        invariant 0 <= j <= |unopened|
        invariant err == FirstError(createErrs[..j])
        invariant client.log == old(client.log) + CreateCalls(unopened[..j])
      {
        var e := client.Send(CreateCollection(unopened[j]));
        if IsAlreadyExistsError(e) {
          e := None;
        }
        FirstErrorStep(createErrs, j);
        assert CreateCalls(unopened[..j + 1]) == CreateCalls(unopened[..j]) + [CreateCollection(unopened[j])];
        if err.None? {
          err := e;
        }
        j := j + 1;
      }
      assert createErrs[..|unopened|] == createErrs && unopened[..|unopened|] == unopened;
    }

    /** The keys of the task object built for `async.parallel`: each
        unopened name once, in order of first occurrence. */
    method TaskNames(names: seq<string>) returns (todo: seq<string>)
      ensures todo == Distinct(Unopened(names, collections))
    {
      var cache := collections;
      todo := [];
      ghost var u: seq<string> := [];
      var i := 0;
      while i < |names|
        invariant 0 <= i <= |names|
        invariant u == Unopened(names[..i], cache)
        invariant todo == Distinct(u)
      {
        UnopenedStep(names, i, cache);
        if names[i] !in cache {
          DistinctStep(u, names[i]);
          if names[i] !in todo {
            todo := todo + [names[i]];
          }
          u := u + [names[i]];
        }
        i := i + 1;
      }
      assert names[..|names|] == names;
    }

    /** `async.parallel` over `collection(name)`: the handles, when no
        open fails. */
    method OpenEach(todo: seq<string>) returns (err: Option<ForeignError>, results: map<string, Handle>)
      modifies client
      ensures err == FirstError(GetErrors(client.reply, todo))
      ensures err.None? ==> results == HandlesFor(todo, client.database)
      ensures client.log == old(client.log) + GetCalls(todo)
    {
      ghost var getErrs := GetErrors(client.reply, todo);
      err := None;
      results := map[];
      var k := 0;
      while k < |todo|
        invariant 0 <= k <= |todo|
        invariant err == FirstError(getErrs[..k])
        invariant err.None? ==> results == HandlesFor(todo[..k], client.database)
        invariant client.log == old(client.log) + GetCalls(todo[..k])
      {
        var e, h := client.Collection(todo[k]);
        FirstErrorStep(getErrs, k);
        assert GetCalls(todo[..k + 1]) == GetCalls(todo[..k]) + [GetCollection(todo[k])];
        assert todo[..k + 1] == todo[..k] + [todo[k]];
        if err.None? {
          err := e;
        }
        if h.Some? {
          results := results[todo[k] := h.value];
        }
        k := k + 1;
      }
      assert getErrs[..|todo|] == getErrs && todo[..|todo|] == todo;
    }

    /** Copies each opened handle into the cache unless the name is
        already there. */
    method Merge(todo: seq<string>, results: map<string, Handle>)
      requires forall n :: n in todo ==> n !in collections
      requires results == HandlesFor(todo, client.database)
      modifies this
      ensures collections == old(collections) + HandlesFor(todo, client.database)
      ensures idGenerators == old(idGenerators) && localCollection == old(localCollection)
    {
      ghost var cache := collections;
      var db := client.database;
      var k := 0;
      while k < |todo|
        invariant 0 <= k <= |todo|
        invariant collections == cache + HandlesFor(todo[..k], db)
        invariant idGenerators == old(idGenerators) && localCollection == old(localCollection)
      {
        var name := todo[k];
        MergeStep(cache, todo[..k], name, db);
        assert todo[..k + 1] == todo[..k] + [name];
        if name !in collections {
          assert name in todo;
          collections := collections[name := results[name]];
        } else {
          assert collections[name] == Handle(db, name);
        }
        k := k + 1;
      }
      assert todo[..|todo|] == todo;
    }

    /** `createIndexes(options, callback)`. An item naming a collection
        that is not open makes the runtime throw a TypeError on
        `undefined.ensureIndex`, after the calls for the items before it. */
    method CreateIndexes(items: seq<IndexSpec>) returns (err: Option<ForeignError>)
      modifies client
      ensures var k := CachedPrefix(items, collections);
        client.log == old(client.log) + IndexCalls(items, collections, k)
        && err == if k < |items| then Some(TYPE_ERROR) else FirstError(IndexErrors(items, collections, k, client.reply))
    {
      ghost var k := CachedPrefix(items, collections);
      err := None;
      var i := 0;
      while i < |items|
        invariant 0 <= i <= k
        invariant err == FirstError(IndexErrors(items, collections, i, client.reply))
        invariant client.log == old(client.log) + IndexCalls(items, collections, i)
      {
        if items[i].collection !in collections {
          err := Some(TYPE_ERROR);
          return;
        }
        var e := client.Send(IndexCall(items[i], collections));
        ghost var errs := IndexErrors(items, collections, i + 1, client.reply);
        FirstErrorStep(errs, i);
        assert errs[..i] == IndexErrors(items, collections, i, client.reply) && errs[..i + 1] == errs;
        assert IndexCalls(items, collections, i + 1) == IndexCalls(items, collections, i) + [IndexCall(items[i], collections)];
        if err.None? {
          err := e;
        }
        i := i + 1;
      }
    }

    /** `getDistributedIdGenerator(namespace, callback)`: a cached
        generator is returned as it is; otherwise a new one is initialised,
        and cached only if that succeeds. */
    method GetDistributedIdGenerator(namespace: string) returns (err: Option<ForeignError>, gen: Option<DistributedIdGenerator>)
      requires Valid()
      modifies this, client
      ensures Valid()
      ensures namespace in old(idGenerators) ==>
        err.None? && gen == Some(old(idGenerators)[namespace])
        && idGenerators == old(idGenerators) && client.log == old(client.log)
      ensures namespace !in old(idGenerators) ==>
        client.log == old(client.log) + [InitIdGenerator(namespace)] && err == client.reply(InitIdGenerator(namespace))
      ensures namespace !in old(idGenerators) && err.None? ==>
        gen.Some? && fresh(gen.value) && idGenerators == old(idGenerators)[namespace := gen.value]
      ensures err.Some? ==> gen.None? && idGenerators == old(idGenerators)
      ensures collections == old(collections) && localCollection == old(localCollection)
    {
      if namespace in idGenerators {
        return None, Some(idGenerators[namespace]);
      }
      var g := new DistributedIdGenerator();
      err := g.Init(namespace, client);
      if err.Some? {
        return err, None;
      }
      idGenerators := idGenerators[namespace := g];
      gen := Some(g);
    }

    /** `_initLocalDatabase(callback)`: the six steps in turn, stopping at
        the first that fails; `localCollection` is set once the collection
        has been opened. */
    method InitLocalDatabase(username: string, password: string, name: string) returns (err: Option<ForeignError>)
      requires Valid()
      modifies this, localClient
      ensures Valid()
      ensures var calls := LocalCalls(Handle(localClient.database, name), username, password);
        var k := LocalFailure(localClient.reply, calls, 0);
        localClient.log == old(localClient.log) + calls[..LocalIssued(k)]
        && err == (if k < 6 then LocalStepError(localClient.reply, calls, k) else None)
        && localCollection == (if k >= 4 then Some(Handle(localClient.database, name)) else old(localCollection))
      ensures collections == old(collections) && idGenerators == old(idGenerators)
    {
      ghost var reply := localClient.reply;
      ghost var local := Handle(localClient.database, name);
      ghost var calls := LocalCalls(local, username, password);
      ghost var log0 := localClient.log;
      var collection;
      err, collection := LocalConnect(username, password, name);
      if err.Some? {
        return;
      }
      localCollection := collection;
      ghost var log1 := localClient.log;
      err := LocalFinish(collection.value, username, password);
      LocalFailureIsFirst(reply, calls, 0);
      LocalFailureSkip(reply, calls, 0, 4);
      ghost var k := LocalFailure(reply, calls, 4);
      assert calls[..LocalIssued(k)] == calls[..4] + calls[4..LocalIssued(k)];
      SeqAssoc(log0, calls[..4], calls[4..LocalIssued(k)]);
    }

    /** The first four steps of `_initLocalDatabase`: open, authenticate,
        create the collection and get its handle. */
    method LocalConnect(username: string, password: string, name: string)
      returns (err: Option<ForeignError>, collection: Option<Handle>)
      modifies localClient
      ensures var calls := LocalCalls(Handle(localClient.database, name), username, password);
        var k := LocalFailure(localClient.reply, calls, 0);
        && (k < 4 ==> localClient.log == old(localClient.log) + calls[..k + 1]
                      && err == LocalStepError(localClient.reply, calls, k))
        && (k >= 4 ==> localClient.log == old(localClient.log) + calls[..4]
                       && err.None? && collection == Some(Handle(localClient.database, name)))
    {
      ghost var reply := localClient.reply;
      ghost var calls := LocalCalls(Handle(localClient.database, name), username, password);
      ghost var log0 := localClient.log;
      collection := None;
      err := localClient.Send(Open);
      if err.Some? {
        LocalFailureAt(reply, calls, 0, 0);
        return;
      }
      err := localClient.Send(Authenticate(username, password));
      assert localClient.log == log0 + calls[..2];
      if err.Some? {
        LocalFailureAt(reply, calls, 0, 1);
        return;
      }
      err := localClient.Send(CreateCollection(name));
      assert localClient.log == log0 + calls[..3];
      if IsAlreadyExistsError(err) {
        err := None;
      }
      assert err == LocalStepError(reply, calls, 2);
      if err.Some? {
        LocalFailureAt(reply, calls, 0, 2);
        return;
      }
      err, collection := localClient.Collection(name);
      assert localClient.log == log0 + calls[..4];
      if err.Some? {
        LocalFailureAt(reply, calls, 0, 3);
        return;
      }
      LocalFailureSkip(reply, calls, 0, 4);
    }

    /** The last two steps of `_initLocalDatabase`: index the local
        collection and insert the local document. */
    method LocalFinish(local: Handle, username: string, password: string) returns (err: Option<ForeignError>)
      modifies localClient
      ensures var calls := LocalCalls(local, username, password);
        var k := LocalFailure(localClient.reply, calls, 4);
        localClient.log == old(localClient.log) + calls[4..LocalIssued(k)]
        && err == (if k < 6 then LocalStepError(localClient.reply, calls, k) else None)
    {
      ghost var reply := localClient.reply;
      ghost var calls := LocalCalls(local, username, password);
      ghost var log0 := localClient.log;
      err := localClient.Send(EnsureIndex(local, ID_INDEX_FIELDS, UNIQUE_BACKGROUND));
      assert localClient.log == log0 + calls[4..5];
      if err.Some? {
        LocalFailureAt(reply, calls, 4, 4);
        return;
      }
      var record := LOCAL_RECORD;
      err := localClient.Send(Insert(local, record));
      assert localClient.log == log0 + calls[4..6];
      if IsDuplicateError(err) {
        err := None;
      }
      assert err == LocalStepError(reply, calls, 5);
      if err.Some? {
        LocalFailureAt(reply, calls, 4, 5);
      } else {
        LocalFailureNone(reply, calls, 4);
      }
    }

    /** `init(app, callback)`: the shared waterfall, then the local
        database, stopping at the first error. */
    method Init(username: string, password: string, localName: string) returns (err: Option<ForeignError>)
      requires Valid()
      modifies this, client, localClient
      ensures Valid()
      ensures var s := SharedInit(old(collections), client.database, client.reply, username, password);
        client.log == old(client.log) + s.calls && collections == s.cache && idGenerators == old(idGenerators)
      ensures var s := SharedInit(old(collections), client.database, client.reply, username, password);
        s.err.Some? ==> err == s.err && localClient.log == old(localClient.log) && localCollection == old(localCollection)
      ensures var s := SharedInit(old(collections), client.database, client.reply, username, password);
        var calls := LocalCalls(Handle(localClient.database, localName), username, password);
        var k := LocalFailure(localClient.reply, calls, 0);
        s.err.None? ==>
          localClient.log == old(localClient.log) + calls[..LocalIssued(k)]
          && err == (if k < 6 then LocalStepError(localClient.reply, calls, k) else None)
          && localCollection == (if k >= 4 then Some(Handle(localClient.database, localName)) else old(localCollection))
    {
      err := InitShared(username, password);
      if err.Some? {
        return;
      }
      err := InitLocalDatabase(username, password, localName);
    }

    /** The part of `init` on the shared client. */
    method InitShared(username: string, password: string) returns (err: Option<ForeignError>)
      requires Valid()
      modifies this, client
      ensures Valid()
      ensures var s := SharedInit(old(collections), client.database, client.reply, username, password);
        err == s.err && client.log == old(client.log) + s.calls && collections == s.cache
      ensures idGenerators == old(idGenerators) && localCollection == old(localCollection)
    {
      ghost var log0 := client.log;
      err := client.Send(Open);
      if err.Some? {
        return;
      }
      err := client.Send(Authenticate(username, password));
      ghost var calls := [Open, Authenticate(username, password)];
      if err.Some? {
        return;
      }
      ghost var t := OpenIndexSpec(ID_GENERATOR_INDEX, collections, client.database, client.reply);
      assert client.log == log0 + calls;
      err := OpenAndIndex(ID_GENERATOR_INDEX);
      SeqAssoc(log0, calls, t.calls);
    }

    /** Opens the collection of `index` and creates the index. */
    method OpenAndIndex(index: IndexSpec) returns (err: Option<ForeignError>)
      requires Valid()
      modifies this, client
      ensures Valid()
      ensures var t := OpenIndexSpec(index, old(collections), client.database, client.reply);
        err == t.err && client.log == old(client.log) + t.calls && collections == t.cache
      ensures idGenerators == old(idGenerators) && localCollection == old(localCollection)
    {
      ghost var log0 := client.log;
      ghost var o := OpenSpec([index.collection], collections, client.database, client.reply);
      err := OpenCollections([index.collection]);
      if err.Some? {
        return;
      }
      ghost var (indexErr, indexCalls) := IndexOutcome([index], collections, client.reply);
      err := CreateIndexes([index]);
      SeqAssoc(log0, o.calls, indexCalls);
    }
  }
}
