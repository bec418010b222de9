/** The part of the MongoDB driver the database helpers call, seen from the
    outside: a connection to one database which answers each call with an
    error or with success, and which records the calls it receives.

    What the server answers is fixed in advance by the `reply` function, so
    a model run is determined by the calls issued; the answers themselves
    (the server, the network, time) are not modelled. */
module Mongo {
  import opened Wrappers
  import opened Json
  import opened Errors

  /** A collection object the driver hands out. */
  datatype Handle = Handle(database: string, name: string)

  /** The driver calls the helpers issue. `InitIdGenerator` stands for
      whatever a DistributedIdGenerator's `init` does with the database;
      that class is not part of this model. */
  datatype Call =
    | Open
    | Authenticate(username: string, password: string)
    | CreateCollection(name: string)
    | GetCollection(name: string)
    | EnsureIndex(collection: Handle, fields: Value, options: Value)
    | Insert(collection: Handle, record: Value)
    | InitIdGenerator(namespace: string)

  /** A `mongo.Db` object. */
  class Client {
    const database: string
    const reply: Call -> Option<ForeignError>
    var log: seq<Call>

    constructor (database: string, reply: Call -> Option<ForeignError>)
      ensures this.database == database && this.reply == reply && log == []
    {
      this.database := database;
      this.reply := reply;
      log := [];
    }

    /** Issues a call that answers with an error or nothing. */
    method Send(c: Call) returns (err: Option<ForeignError>)
      modifies this
      ensures log == old(log) + [c] && err == reply(c)
    {
      log := log + [c];
      err := reply(c);
    }

    /** `collection(name, callback)`: the handle, unless the call fails. */
    method Collection(name: string) returns (err: Option<ForeignError>, handle: Option<Handle>)
      modifies this
      ensures log == old(log) + [GetCollection(name)] && err == reply(GetCollection(name))
      ensures handle == if err.None? then Some(Handle(database, name)) else None
    {
      err := Send(GetCollection(name));
      handle := if err.None? then Some(Handle(database, name)) else None;
    }
  }

  /** The first error of a list of outcomes, in list order. */
  function FirstError(errs: seq<Option<ForeignError>>): (r: Option<ForeignError>)
    ensures r.Some? ==> r in errs
    decreases |errs|
  {
    if errs == [] then None
    else
      var init := errs[..|errs| - 1];
      var first := FirstError(init);
      if first.Some? then first else errs[|errs| - 1]
  }

  /** No error is reported exactly when every outcome is a success, and an
      error reported is the earliest one. */
  lemma {:induction false} FirstErrorIsFirst(errs: seq<Option<ForeignError>>)
    ensures FirstError(errs).None? <==> forall i :: 0 <= i < |errs| ==> errs[i].None?
    ensures FirstError(errs).Some? ==>
      exists i :: 0 <= i < |errs| && errs[i] == FirstError(errs) && forall j :: 0 <= j < i ==> errs[j].None?
    decreases |errs|
  {
    if errs != [] {
      var init := errs[..|errs| - 1];
      FirstErrorIsFirst(init);
      assert forall i :: 0 <= i < |init| ==> init[i] == errs[i];
    }
  }
}
