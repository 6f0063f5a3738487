/**
 * How the page's local list relates to what the server holds: the page is
 * in step with the store when its list is the JSON form of what GET would
 * answer, and a successful add keeps it so, while a failed add puts the
 * error object at the head of the list.
 */
module Consistency {
  import opened Wrappers
  import opened Sentence
  import opened ConnectionCache
  import opened SentenceStore
  import opened SentencesRoute
  import opened HomePage

  /** The JSON form of a stored record, as the page reads it: `_id`, `english`, `chinese`. */
  function AsDoc(r: Record): (d: Doc)
    ensures HasId(d, r.id)
    ensures d.english == r.english && d.chinese == r.chinese
  {
    SentenceDoc(r.id, r.english, r.chinese)
  }

  function AsDocs(rs: seq<Record>): (ds: seq<Doc>)
    ensures |ds| == |rs|
    ensures forall i :: 0 <= i < |rs| ==> ds[i] == AsDoc(rs[i])
  {
    seq(|rs|, i requires 0 <= i < |rs| => AsDoc(rs[i]))
  }

  /** The page's list is what a GET of the store would show. */
  predicate InStep(list: seq<Doc>, records: seq<Record>)
  {
    list == AsDocs(SortNewestFirst(records))
  }

  /** The document the page parses from a POST response: the created record or the error object. */
  function PostedDoc(resp: Response): (d: Doc)
    requires !resp.body.Sentences?
    ensures resp.body.Created? ==> d == AsDoc(resp.body.record)
    ensures resp.body.Error? ==> d == ErrorDoc(resp.body.error) && !d.SentenceDoc?
  {
    match resp.body
    case Created(record) => AsDoc(record)
    case Error(e) => ErrorDoc(e)
  }

  /**
   * A record created no earlier than every stored one is exactly what the
   * page prepends: after a successful add the page is still in step.
   */
  lemma AddKeepsPageInStep(records: seq<Record>, r: Record)
    requires forall y :: y in records ==> y.createdAt <= r.createdAt
    ensures InStep(Prepend(AsDocs(SortNewestFirst(records)), AsDoc(r)), records + [r])
  {
    NewestRecordFirst(records, r);
    AsDocsCons(r, SortNewestFirst(records));
  }

  lemma AsDocsCons(x: Record, l: seq<Record>)
    ensures AsDocs([x] + l) == [AsDoc(x)] + AsDocs(l)
  {
  }

  /** After a failed add the page's list holds an error object, which no GET answer ever contains. */
  lemma FailedAddLeavesStep(list: seq<Doc>)
    ensures var after := Prepend(list, PostedDoc(Response(500, Error(CreateFailed))));
      after[0] == ErrorDoc(CreateFailed) && forall records :: !InStep(after, records)
  {
  }

  /**
   * The whole add round trip: POST on the server, then `handleAddSentence` on
   * the page with the parsed reply. Starting in step, with a clock no earlier
   * than any stored creation time, a successful POST leaves the page in step
   * with the store; a failed one stores nothing and puts the error object at
   * the head of the page's list.
   */
  method AddSentence(cache: MongooseCache, store: Store, home: Home, request: Option<Document>,
                     s: Settlement, blankIsMissing: bool, writeFails: bool, now: Timestamp)
    returns (resp: Response)
    requires cache.Valid() && store.Valid()
    requires InStep(home.sentences, store.records)
    requires forall y :: y in store.records ==> y.createdAt <= now
    modifies cache, store, home
    ensures cache.Valid() && store.Valid()
    ensures resp.status == 200 ==> InStep(home.sentences, store.records) && !home.showForm
    ensures resp.status != 200 ==>
      && store.records == old(store.records)
      && home.sentences == [ErrorDoc(CreateFailed)] + old(home.sentences)
  {
    resp := Post(cache, store, request, s, blankIsMissing, writeFails, now);
    home.HandleAddSentence(Answered(resp.status, Some(PostedDoc(resp))));
    if resp.status == 200 {
      AddKeepsPageInStep(old(store.records), resp.body.record);
    }
  }

  /**
   * The page's first load: GET on the server, then `fetchSentences` with the
   * parsed list. A 200 answer puts the page in step with the store, which is
   * the state an add round trip starts from. A failed GET answers an error
   * object, not an array, and what the page does with it is not modelled.
   */
  method LoadPage(cache: MongooseCache, store: Store, home: Home, s: Settlement, findFails: bool)
    returns (resp: Response)
    requires cache.Valid() && store.Valid()
    modifies cache, home
    ensures cache.Valid()
    ensures resp.status == 200 <==> ConnectStep(old(cache.Snapshot()), s).1.Success? && !findFails
    ensures resp.status == 200 ==> InStep(home.sentences, store.records)
    ensures resp.status != 200 ==> resp == Response(500, Error(FetchFailed))
  {
    resp := Get(cache, store, s, findFails);
    if resp.status == 200 {
      home.FetchSentences(Answered(200, Some(AsDocs(resp.body.items))));
    }
  }
}
