/**
 * The Sentence schema: the two user-supplied fields `english` and `chinese`,
 * both required strings that are trimmed before they are stored, and the
 * `createdAt` / `updatedAt` timestamps the store keeps for every record.
 */
module Sentence {
  import opened Wrappers

  /** Error message of the `required` rule on `english`. */
  const EnglishRequired := "Please provide the English sentence"
  /** Error message of the `required` rule on `chinese`. */
  const ChineseRequired := "Please provide the Chinese translation"

  /** The store-assigned identifier (`_id`); the client compares its string form. */
  type Id = nat
  /** A point in time, as milliseconds since the epoch. */
  type Timestamp = nat

  /** The user-supplied fields of a record, after validation. */
  datatype Fields = Fields(english: string, chinese: string)

  /** A stored record: the schema's fields plus what the store adds. */
  datatype Record = Record(id: Id, english: string, chinese: string, createdAt: Timestamp, updatedAt: Timestamp)

  /** The characters JavaScript's `trim` removes: WhiteSpace and LineTerminator. */
  predicate IsSpace(c: char)
  {
    || c == '\t' || c == '\n' || c == '\U{000B}' || c == '\U{000C}' || c == '\r' || c == ' '
    || c == '\U{00A0}' || c == '\U{1680}' || ('\U{2000}' <= c <= '\U{200A}')
    || c == '\U{2028}' || c == '\U{2029}' || c == '\U{202F}' || c == '\U{205F}'
    || c == '\U{3000}' || c == '\U{FEFF}'
  }

  /** Every character of `s` from index `lo` up to, not including, `hi` is whitespace. */
  predicate SpaceBetween(s: string, lo: nat, hi: nat)
    requires lo <= hi <= |s|
  {
    forall k :: lo <= k < hi ==> IsSpace(s[k])
  }

  /** Neither starts nor ends with whitespace. */
  predicate IsTrimmed(s: string)
  {
    s == [] || (!IsSpace(s[0]) && !IsSpace(s[|s| - 1]))
  }

  /** `r` is `s` with some whitespace removed from its start and its end, and nothing else. */
  ghost predicate IsTrimOf(r: string, s: string)
  {
    exists i: nat, j: nat :: i <= j <= |s| && r == s[i..j] && SpaceBetween(s, 0, i) && SpaceBetween(s, j, |s|)
  }

  /** The index of the first character at or after `i` that is not whitespace, or `|s|`. */
  function SkipSpace(s: string, i: nat): (k: nat)
    requires i <= |s|
    ensures i <= k <= |s| && SpaceBetween(s, i, k)
    ensures k == |s| || !IsSpace(s[k])
    decreases |s| - i
  {
    if i < |s| && IsSpace(s[i]) then SkipSpace(s, i + 1) else i
  }

  /** The index just after the last character in `s[lo..j]` that is not whitespace, or `lo`. */
  function SkipSpaceBack(s: string, lo: nat, j: nat): (k: nat)
    requires lo <= j <= |s|
    ensures lo <= k <= j && SpaceBetween(s, k, j)
    ensures k == lo || !IsSpace(s[k - 1])
    decreases j
  {
    if lo < j && IsSpace(s[j - 1]) then SkipSpaceBack(s, lo, j - 1) else j
  }

  /** What the schema's `trim: true` does to a string before it is stored. */
  function Trim(s: string): (r: string)
    ensures IsTrimmed(r)
    ensures IsTrimOf(r, s)
  {
    var i := SkipSpace(s, 0);
    var j := SkipSpaceBack(s, i, |s|);
    s[i..j]
  }

  /** A trimmed infix of `s` that leaves only whitespace around it is exactly `Trim(s)`. */
  lemma TrimIsUnique(s: string, r: string)
    requires IsTrimmed(r) && IsTrimOf(r, s)
    ensures r == Trim(s)
  {
    var a: nat, b: nat :| a <= b <= |s| && r == s[a..b] && SpaceBetween(s, 0, a) && SpaceBetween(s, b, |s|);
    var i := SkipSpace(s, 0);
    if a == b {
      assert i == |s|;
    } else {
      assert !IsSpace(s[a]) && !IsSpace(s[b - 1]) by {
        assert r[0] == s[a] && r[|r| - 1] == s[b - 1];
      }
      assert i == a;
      var j := SkipSpaceBack(s, i, |s|);
      assert j == b;
    }
  }

  /** Trimming twice is trimming once. */
  lemma TrimIdempotent(s: string)
    ensures Trim(Trim(s)) == Trim(s)
  {
    var t := Trim(s);
    assert t[0..|t|] == t;
    TrimIsUnique(t, t);
  }

  /** A string is left unchanged by trimming exactly when it is already trimmed. */
  lemma TrimFixpoint(s: string)
    ensures Trim(s) == s <==> IsTrimmed(s)
  {
    if IsTrimmed(s) {
      assert s[0..|s|] == s;
      TrimIsUnique(s, s);
    }
  }

  /** A string made of whitespace only (the empty string included). */
  predicate Blank(s: string)
  {
    SpaceBetween(s, 0, |s|)
  }

  /** Trimming leaves nothing exactly when the string is blank. */
  lemma TrimEmptyIffBlank(s: string)
    ensures Trim(s) == "" <==> Blank(s)
  {
    var r := Trim(s);
    var i: nat, j: nat :| i <= j <= |s| && r == s[i..j] && SpaceBetween(s, 0, i) && SpaceBetween(s, j, |s|);
    if r == "" {
      assert i == j;
    }
  }

  /** The `trim` setter applied to a field that may be absent. */
  function TrimField(v: Option<string>): (t: Option<string>)
    ensures t.Some? <==> v.Some?
    ensures v.Some? ==> t.value == Trim(v.value) && (t.value == "" <==> Blank(v.value))
  {
    match v
    case None => None
    case Some(x) => TrimEmptyIffBlank(x); Some(Trim(x))
  }

  /**
   * Whether `required` refuses a field: it is absent, or, when
   * `blankIsMissing`, it is whitespace only and so empty once trimmed.
   */
  predicate Missing(v: Option<string>, blankIsMissing: bool)
  {
    v.None? || (blankIsMissing && Blank(v.value))
  }

  /**
   * The schema's validation of a document's two declared fields: each must be
   * present, and each present value is stored trimmed. Failures name every
   * missing field by its own message, `english` first. The `required` rule
   * runs on the trimmed value; whether it also refuses the empty string is the
   * schema library's behaviour, so it is the parameter `blankIsMissing`.
   */
  function Validate(english: Option<string>, chinese: Option<string>, blankIsMissing: bool): (r: Result<Fields, seq<string>>)
    ensures r.Success? <==> !Missing(english, blankIsMissing) && !Missing(chinese, blankIsMissing)
    ensures r.Failure? ==> (EnglishRequired in r.error <==> Missing(english, blankIsMissing))
    ensures r.Failure? ==> (ChineseRequired in r.error <==> Missing(chinese, blankIsMissing))
    ensures r.Failure? ==> forall m :: m in r.error ==> m == EnglishRequired || m == ChineseRequired
    ensures r.Success? ==> IsTrimOf(r.value.english, english.value) && IsTrimmed(r.value.english)
    ensures r.Success? ==> IsTrimOf(r.value.chinese, chinese.value) && IsTrimmed(r.value.chinese)
  {
    var e := TrimField(english);
    var c := TrimField(chinese);
    var missing := (if e.None? || (blankIsMissing && e.value == "") then [EnglishRequired] else [])
                 + (if c.None? || (blankIsMissing && c.value == "") then [ChineseRequired] else []);
    if missing != [] then Failure(missing)
    else Success(Fields(e.value, c.value))
  }

  /** What every stored record satisfies: trimmed fields and `createdAt <= updatedAt`. */
  predicate WellFormed(r: Record)
  {
    IsTrimmed(r.english) && IsTrimmed(r.chinese) && r.createdAt <= r.updatedAt
  }

  /** The record the store creates from validated fields: both timestamps are the creation time. */
  function Stamp(id: Id, f: Fields, now: Timestamp): (r: Record)
    requires IsTrimmed(f.english) && IsTrimmed(f.chinese)
    ensures WellFormed(r) && r.createdAt == r.updatedAt == now
    ensures r.id == id && Fields(r.english, r.chinese) == f
  {
    Record(id, f.english, f.chinese, now, now)
  }
}
