/**
 * The home page's local copy of the list. Its handlers keep it in step with
 * the server by three sequence transformers (prepend the created record,
 * drop a deleted id, substitute an edited id), applied whenever the request
 * resolves, whatever the status; when the request is rejected the handler
 * logs and leaves the list as it was.
 */
module HomePage {
  import opened Wrappers
  import opened Sentence

  /** A JSON document the page receives and keeps: a sentence, or an error object without `_id`. */
  datatype Doc = SentenceDoc(id: Id, english: string, chinese: string) | ErrorDoc(error: string)

  /** `doc._id === id`; an error object has no `_id`, so it never matches. */
  predicate HasId(d: Doc, id: Id)
  {
    d.SentenceDoc? && d.id == id
  }

  /**
   * What a `fetch` delivers to a handler: the request is rejected, or it
   * resolves with a status and a body, `None` when `response.json()` rejects.
   */
  datatype Reply<T> = NetworkError | Answered(status: nat, body: Option<T>)

  /** `[data, ...prev]` */
  function Prepend(list: seq<Doc>, d: Doc): (r: seq<Doc>)
    ensures |r| == |list| + 1
    ensures r[0] == d && r[1..] == list
  {
    [d] + list
  }

  /** `prev.filter(sentence => sentence._id !== id)` */
  function RemoveId(list: seq<Doc>, id: Id): (r: seq<Doc>)
    ensures |r| <= |list|
  {
    if list == [] then []
    else if HasId(list[0], id) then RemoveId(list[1..], id)
    else [list[0]] + RemoveId(list[1..], id)
  }

  /**
   * A delete keeps exactly the documents without the id, and the list
   * becomes shorter exactly when some document carried the id.
   */
  lemma {:induction false} RemoveIdMembers(list: seq<Doc>, id: Id)
    ensures forall d :: d in RemoveId(list, id) <==> d in list && !HasId(d, id)
    ensures (exists d :: d in list && HasId(d, id)) <==> |RemoveId(list, id)| < |list|
  {
    if list != [] {
      RemoveIdMembers(list[1..], id);
      assert list == [list[0]] + list[1..];
      if exists d :: d in list && HasId(d, id) {
        if !HasId(list[0], id) {
          var d :| d in list && HasId(d, id);
          assert d in list[1..];
        }
      }
    }
  }

  /** `prev.map(sentence => sentence._id === id ? d : sentence)` */
  function ReplaceId(list: seq<Doc>, id: Id, d: Doc): (r: seq<Doc>)
    ensures |r| == |list|
    ensures forall i :: 0 <= i < |list| ==> r[i] == if HasId(list[i], id) then d else list[i]
  {
    if list == [] then []
    else [if HasId(list[0], id) then d else list[0]] + ReplaceId(list[1..], id, d)
  }

  /** Deleting keeps the surviving documents in their relative order: it distributes over concatenation. */
  lemma {:induction false} RemoveIdConcat(a: seq<Doc>, b: seq<Doc>, id: Id)
    ensures RemoveId(a + b, id) == RemoveId(a, id) + RemoveId(b, id)
  {
    if a == [] {
      assert a + b == b;
    } else {
      assert (a + b)[0] == a[0] && (a + b)[1..] == a[1..] + b;
      RemoveIdConcat(a[1..], b, id);
    }
  }

  /** A list without the id is left exactly as it was by a delete. */
  lemma {:induction false} RemoveIdAbsent(list: seq<Doc>, id: Id)
    requires forall d :: d in list ==> !HasId(d, id)
    ensures RemoveId(list, id) == list
  {
    if list != [] {
      assert list[0] in list;
      RemoveIdAbsent(list[1..], id);
    }
  }

  /** Deleting the same id twice is deleting it once. */
  lemma RemoveIdIdempotent(list: seq<Doc>, id: Id)
    ensures RemoveId(RemoveId(list, id), id) == RemoveId(list, id)
  {
    RemoveIdMembers(list, id);
    RemoveIdAbsent(RemoveId(list, id), id);
  }

  /** An edit whose reply still carries the id, followed by a delete of it, is just the delete. */
  lemma {:induction false} RemoveAfterReplace(list: seq<Doc>, id: Id, d: Doc)
    requires HasId(d, id)
    ensures RemoveId(ReplaceId(list, id, d), id) == RemoveId(list, id)
  {
    if list != [] {
      var r := ReplaceId(list, id, d);
      assert r[1..] == ReplaceId(list[1..], id, d);
      RemoveAfterReplace(list[1..], id, d);
    }
  }

  /**
   * An edit answered with an error object turns the edited entry into that
   * object, which has no `_id`, so a later delete of the id cannot remove it.
   */
  lemma FailedEditSurvivesDelete(list: seq<Doc>, id: Id, e: string, i: nat)
    requires i < |list| && HasId(list[i], id)
    ensures ErrorDoc(e) in RemoveId(ReplaceId(list, id, ErrorDoc(e)), id)
  {
    assert ReplaceId(list, id, ErrorDoc(e))[i] == ErrorDoc(e);
    RemoveIdMembers(ReplaceId(list, id, ErrorDoc(e)), id);
  }

  /** An edit whose reply carries the same id, applied twice, is applied once. */
  lemma ReplaceIdIdempotent(list: seq<Doc>, id: Id, d: Doc)
    requires HasId(d, id)
    ensures ReplaceId(ReplaceId(list, id, d), id, d) == ReplaceId(list, id, d)
  {
  }

  /** Whether a reply resolved with a parsed body, which is when the handlers touch the list. */
  predicate Delivered<T>(reply: Reply<T>)
  {
    reply.Answered? && reply.body.Some?
  }

  /** The page's React state. */
  class Home {
    var sentences: seq<Doc>
    var showForm: bool

    /** `useState([])` and `useState(false)` */
    constructor ()
      ensures sentences == [] && !showForm
    {
      sentences, showForm := [], false;
    }

    /** `fetchSentences`: the whole list becomes the returned data. */
    method FetchSentences(reply: Reply<seq<Doc>>)
      modifies this
      ensures Delivered(reply) ==> sentences == reply.body.value
      ensures !Delivered(reply) ==> sentences == old(sentences)
      ensures showForm == old(showForm)
    {
      if reply.Answered? && reply.body.Some? {
        sentences := reply.body.value;
      }
    }

    /** The add button opens the form. */
    method OpenForm()
      modifies this
      ensures showForm && sentences == old(sentences)
    {
      showForm := true;
    }

    /** The form's cancel button closes it. */
    method CancelForm()
      modifies this
      ensures !showForm && sentences == old(sentences)
    {
      showForm := false;
    }

    /** `handleAddSentence`: prepend whatever the POST answered, then close the form. */
    method HandleAddSentence(reply: Reply<Doc>)
      modifies this
      ensures Delivered(reply) ==> sentences == Prepend(old(sentences), reply.body.value) && !showForm
      ensures !Delivered(reply) ==> sentences == old(sentences) && showForm == old(showForm)
    {
      if reply.Answered? && reply.body.Some? {
        sentences := Prepend(sentences, reply.body.value);
        showForm := false;
      }
    }

    /** `handleDelete`: drop the id once the DELETE resolves; its body is never read. */
    method HandleDelete(id: Id, reply: Reply<()>)
      modifies this
      ensures reply.Answered? ==> sentences == RemoveId(old(sentences), id)
      ensures reply.NetworkError? ==> sentences == old(sentences)
      ensures showForm == old(showForm)
    {
      if reply.Answered? {
        sentences := RemoveId(sentences, id);
      }
    }

    /** `handleEdit`: substitute whatever the PUT answered for every entry with the id. */
    method HandleEdit(id: Id, reply: Reply<Doc>)
      modifies this
      ensures Delivered(reply) ==> sentences == ReplaceId(old(sentences), id, reply.body.value)
      ensures !Delivered(reply) ==> sentences == old(sentences)
      ensures showForm == old(showForm)
    {
      if reply.Answered? && reply.body.Some? {
        sentences := ReplaceId(sentences, id, reply.body.value);
      }
    }
  }
}
