/**
 * The `/api/sentences` handlers. Each first acquires the connection through
 * the cache, then performs one store operation; any failure on the way is
 * caught and answered with a fixed message and status 500.
 */
module SentencesRoute {
  import opened Wrappers
  import opened Sentence
  import opened ConnectionCache
  import opened SentenceStore

  /** Error message of a failed GET. */
  const FetchFailed := "Failed to fetch sentences"
  /** Error message of a failed POST. */
  const CreateFailed := "Failed to create sentence"

  /** The JSON body of a response. */
  datatype Body = Sentences(items: seq<Record>) | Created(record: Record) | Error(error: string)

  datatype Response = Response(status: nat, body: Body)

  /** What GET answers once `connectDB` has returned `connected`, over a snapshot of the records. */
  function ListResponse(connected: Result<Handle, string>, records: seq<Record>, findFails: bool): (resp: Response)
    ensures resp.status == 200 <==> connected.Success? && !findFails
    ensures resp.status == 200 ==> resp.body.Sentences?
    ensures resp.status == 200 ==> NewestFirst(resp.body.items) && multiset(resp.body.items) == multiset(records)
    ensures resp.status != 200 ==> resp == Response(500, Error(FetchFailed))
  {
    if connected.Failure? || findFails then Response(500, Error(FetchFailed))
    else Response(200, Sentences(SortNewestFirst(records)))
  }

  /** What POST answers once `create` has returned `created`. */
  function CreateResponse(created: Result<Record, CreateError>): (resp: Response)
    ensures resp.status == 200 <==> created.Success?
    ensures created.Success? ==> resp.body == Created(created.value)
    ensures created.Failure? ==> resp == Response(500, Error(CreateFailed))
  {
    match created
    case Success(record) => Response(200, Created(record))
    case Failure(_) => Response(500, Error(CreateFailed))
  }

  /**
   * GET: connect, then list every record newest first. `s` is how the
   * awaited connection promise settles and `findFails` whether the query
   * itself fails; the store is only read.
   */
  method Get(cache: MongooseCache, store: Store, s: Settlement, findFails: bool) returns (resp: Response)
    requires cache.Valid() && store.Valid()
    modifies cache
    ensures cache.Valid()
    ensures var (cell, connected) := ConnectStep(old(cache.Snapshot()), s);
      cache.Snapshot() == cell && resp == ListResponse(connected, store.records, findFails)
  {
    var connected := cache.ConnectDB(s);
    if connected.Failure? || findFails {
      return Response(500, Error(FetchFailed));
    }
    resp := Response(200, Sentences(store.Find()));
  }

  /**
   * POST: parse the body (`None` when it is not valid JSON), connect, then
   * create a record from the whole body. The body is parsed before the
   * connection is touched; a failure at any step stores nothing.
   * `blankIsMissing` is how the `required` rule treats a blank value.
   */
  method Post(cache: MongooseCache, store: Store, request: Option<Document>, s: Settlement,
              blankIsMissing: bool, writeFails: bool, now: Timestamp) returns (resp: Response)
    requires cache.Valid() && store.Valid()
    modifies cache, store
    ensures cache.Valid() && store.Valid()
    ensures request.None? ==> resp == Response(500, Error(CreateFailed)) && cache.Snapshot() == old(cache.Snapshot())
    ensures request.Some? ==> cache.Snapshot() == ConnectStep(old(cache.Snapshot()), s).0
    ensures resp.status == 200 <==>
      && request.Some?
      && ConnectStep(old(cache.Snapshot()), s).1.Success?
      && Validate(request.value.english, request.value.chinese, blankIsMissing).Success?
      && !writeFails
    ensures resp.status == 200 ==>
      && resp.body == Created(Stamp(old(store.nextId), Validate(request.value.english, request.value.chinese, blankIsMissing).value, now))
      && store.records == old(store.records) + [resp.body.record]
    ensures resp.status != 200 ==>
      && resp == Response(500, Error(CreateFailed))
      && store.records == old(store.records) && store.nextId == old(store.nextId)
  {
    if request.None? {
      return Response(500, Error(CreateFailed));
    }
    var connected := cache.ConnectDB(s);
    if connected.Failure? {
      return Response(500, Error(CreateFailed));
    }
    var created := store.Create(request.value, now, blankIsMissing, writeFails);
    resp := CreateResponse(created);
  }
}
