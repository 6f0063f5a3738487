/**
 * An in-memory stand-in for the Sentence collection: records kept in
 * insertion order, `find({}).sort({createdAt: -1})` as a sort by creation
 * time, newest first, and `create` as validate-then-insert with a
 * store-assigned identifier and timestamps.
 */
module SentenceStore {
  import opened Wrappers
  import opened Sentence

  /** The two declared fields of a request body; `None` is a key that is absent. */
  datatype Document = Document(english: Option<string>, chinese: Option<string>)

  /** Why `create` rejects: the schema's validation messages, or a failed write. */
  datatype CreateError = Invalid(messages: seq<string>) | WriteFailed

  predicate NewestFirst(s: seq<Record>)
  {
    forall i, j :: 0 <= i < j < |s| ==> s[i].createdAt >= s[j].createdAt
  }

  /** Puts `x` in front of the first record that is not newer than it. */
  function InsertNewest(x: Record, l: seq<Record>): (r: seq<Record>)
    requires NewestFirst(l)
    ensures NewestFirst(r)
    ensures multiset(r) == multiset(l) + multiset{x}
  {
    if l == [] || x.createdAt >= l[0].createdAt then
      [x] + l
    else
      var tail := InsertNewest(x, l[1..]);
      InsertBehindHead(x, l, tail);
      [l[0]] + tail
  }

  /** Inserting behind a head that is newer than `x` keeps the order and adds exactly `x`. */
  lemma InsertBehindHead(x: Record, l: seq<Record>, tail: seq<Record>)
    requires l != [] && x.createdAt < l[0].createdAt && NewestFirst(l)
    requires NewestFirst(tail) && multiset(tail) == multiset(l[1..]) + multiset{x}
    ensures NewestFirst([l[0]] + tail)
    ensures multiset([l[0]] + tail) == multiset(l) + multiset{x}
  {
    assert l == [l[0]] + l[1..];
    forall i | 0 <= i < |tail| ensures l[0].createdAt >= tail[i].createdAt {
      HeadIsNewest(x, l, tail[i], multiset(tail));
    }
  }

  /** Every record of the tail's multiset is `x` or comes after the head, so none is newer than the head. */
  lemma HeadIsNewest(x: Record, l: seq<Record>, y: Record, m: multiset<Record>)
    requires l != [] && x.createdAt < l[0].createdAt && NewestFirst(l)
    requires m == multiset(l[1..]) + multiset{x} && y in m
    ensures l[0].createdAt >= y.createdAt
  {
    if y != x {
      assert y in multiset(l[1..]);
      var k :| 0 <= k < |l| - 1 && l[1..][k] == y;
      assert l[k + 1] == y;
    }
  }

  /**
   * The records ordered by `createdAt` descending. Among records created at
   * the same time the one inserted later comes first.
   */
  function SortNewestFirst(s: seq<Record>): (r: seq<Record>)
    ensures NewestFirst(r)
    ensures multiset(r) == multiset(s)
    decreases |s|
  {
    if s == [] then []
    else
      assert s == s[..|s| - 1] + [s[|s| - 1]];
      InsertNewest(s[|s| - 1], SortNewestFirst(s[..|s| - 1]))
  }

  /** A record created no earlier than every stored one heads the sorted list, the rest following as before. */
  lemma {:induction false} NewestRecordFirst(s: seq<Record>, x: Record)
    requires forall y :: y in s ==> y.createdAt <= x.createdAt
    ensures SortNewestFirst(s + [x]) == [x] + SortNewestFirst(s)
  {
    assert (s + [x])[..|s|] == s;
    var l := SortNewestFirst(s);
    if l != [] {
      assert l[0] in multiset(s);
    }
  }

  /** The collection: records in insertion order and the next identifier to hand out. */
  class Store {
    var records: seq<Record>
    var nextId: Id

    /** Identifiers are unique and below `nextId`; every record is well formed. */
    predicate Valid()
      reads this
    {
      && (forall i :: 0 <= i < |records| ==> records[i].id < nextId && WellFormed(records[i]))
      && (forall i, j :: 0 <= i < j < |records| ==> records[i].id != records[j].id)
    }

    constructor ()
      ensures Valid() && records == [] && nextId == 0
    {
      records, nextId := [], 0;
    }

    /** `find({}).sort({createdAt: -1})`: every record, newest first. */
    function Find(): (r: seq<Record>)
      reads this
      ensures NewestFirst(r)
      ensures multiset(r) == multiset(records)
    {
      SortNewestFirst(records)
    }

    /**
     * `create(doc)` at time `now`: the document is validated first; a valid
     * one is stored with a fresh identifier and both timestamps set to `now`
     * unless the write itself fails (`writeFails`). A rejected create stores
     * nothing. `blankIsMissing` is how the `required` rule treats a blank value.
     */
    method Create(doc: Document, now: Timestamp, blankIsMissing: bool, writeFails: bool) returns (r: Result<Record, CreateError>)
      requires Valid()
      modifies this
      ensures Valid()
      ensures var v := Validate(doc.english, doc.chinese, blankIsMissing);
        && (v.Failure? ==> r == Failure(Invalid(v.error)))
        && (v.Success? && writeFails ==> r == Failure(WriteFailed))
        && (v.Success? && !writeFails ==> r == Success(Stamp(old(nextId), v.value, now)))
      ensures r.Success? ==> records == old(records) + [r.value] && nextId == old(nextId) + 1
      ensures r.Success? ==> forall y :: y in old(records) ==> y.id != r.value.id
      ensures r.Failure? ==> records == old(records) && nextId == old(nextId)
    {
      var v := Validate(doc.english, doc.chinese, blankIsMissing);
      if v.Failure? {
        return Failure(Invalid(v.error));
      }
      if writeFails {
        return Failure(WriteFailed);
      }
      var record := Stamp(nextId, v.value, now);
      records := records + [record];
      nextId := nextId + 1;
      r := Success(record);
    }
  }
}
