/**
 * The process-wide connection cache: a cell `{conn, promise}` shared by every
 * request handler. A call of `connectDB` returns the established handle when
 * there is one, otherwise awaits the pending connection attempt, starting one
 * only when none is pending; a failed attempt clears the pending marker so
 * that a later call can retry.
 *
 * `connectDB` is split at its `await`: `Begin` is the synchronous part before
 * it, `Settle` the part that resumes when the awaited promise settles. The
 * settlement is a parameter standing in for what `mongoose.connect` delivers,
 * and `attempts` counts the calls of `mongoose.connect` made so far.
 */
module ConnectionCache {
  import opened Wrappers

  /** The fatal error raised at module load when the connection string is missing. */
  const MissingUriMessage := "Please define the MONGODB_URI environment variable inside .env"

  /** The connected mongoose instance. */
  datatype Handle = Handle(id: nat)

  /** The promise returned by the `serial`-th call of `mongoose.connect`. */
  datatype Attempt = Attempt(serial: nat)

  /** How an awaited connection promise settles. */
  datatype Settlement = Resolved(handle: Handle) | Rejected(reason: string)

  /** The cache cell, together with the number of connection attempts started so far. */
  datatype Cell = Cell(conn: Option<Handle>, promise: Option<Attempt>, attempts: nat)

  /** The cell as the module creates it when there is none to reuse. */
  const Empty := Cell(None, None, 0)

  /**
   * The cell's invariant: a handle is only ever stored after its promise was
   * awaited, and the cached promise is always the latest attempt.
   */
  predicate Consistent(c: Cell)
  {
    && (c.conn.Some? ==> c.promise.Some?)
    && (c.promise.Some? ==> c.attempts > 0 && c.promise.value == Attempt(c.attempts))
  }

  /** Where the first half of a call leaves its caller. */
  datatype Step = Done(handle: Handle) | Await(attempt: Attempt)

  datatype Begun = Begun(cell: Cell, step: Step)

  /** The first half of `connectDB`, up to its `await`. */
  function BeginStep(c: Cell): (r: Begun)
    ensures Consistent(c) ==> Consistent(r.cell)
    ensures r.cell.conn == c.conn
    ensures c.conn.Some? ==> r.cell == c && r.step == Done(c.conn.value)
    ensures c.conn.None? ==> r.cell.promise.Some? && r.step == Await(r.cell.promise.value)
    ensures c.conn.None? && c.promise.Some? ==> r.cell == c
    ensures r.cell.attempts == c.attempts + (if c.conn.None? && c.promise.None? then 1 else 0)
    ensures c.conn.None? && c.promise.None? ==> r.cell.promise == Some(Attempt(r.cell.attempts))
  {
    if c.conn.Some? then
      Begun(c, Done(c.conn.value))
    else if c.promise.Some? then
      Begun(c, Await(c.promise.value))
    else
      var n := c.attempts + 1;
      Begun(c.(promise := Some(Attempt(n)), attempts := n), Await(Attempt(n)))
  }

  /**
   * When a caller may resume with settlement `s`: a promise that resolved was
   * never cleared (only a rejection clears it), and a promise that rejected
   * never stored a handle.
   */
  predicate CanSettle(c: Cell, s: Settlement)
  {
    (s.Resolved? ==> c.promise.Some?) && (s.Rejected? ==> c.conn.None?)
  }

  /** The second half of `connectDB`: what happens when the awaited promise settles. */
  function SettleStep(c: Cell, s: Settlement): (r: (Cell, Result<Handle, string>))
    ensures Consistent(c) && CanSettle(c, s) ==> Consistent(r.0)
    ensures r.0.attempts == c.attempts
    ensures r.1.Success? <==> s.Resolved?
    ensures s.Resolved? ==> r.0.conn == Some(s.handle) && r.1 == Success(s.handle) && r.0.promise == c.promise
    ensures s.Rejected? ==> r.0.conn == c.conn && r.0.promise.None? && r.1 == Failure(s.reason)
  {
    match s
    case Resolved(h) => (c.(conn := Some(h)), Success(h))
    case Rejected(e) => (c.(promise := None), Failure(e))
  }

  /** One whole call of `connectDB` whose awaited promise, if any, settles with `s`. */
  function ConnectStep(c: Cell, s: Settlement): (r: (Cell, Result<Handle, string>))
    ensures Consistent(c) ==> Consistent(r.0)
    ensures c.conn.Some? ==> r == (c, Success(c.conn.value))
    ensures c.conn.None? ==> (r.1.Success? <==> s.Resolved?)
    ensures c.conn.None? && s.Resolved? ==> r.0.conn == Some(s.handle) && r.1 == Success(s.handle)
    ensures c.conn.None? && s.Rejected? ==> r.0.conn.None? && r.0.promise.None? && r.1 == Failure(s.reason)
    ensures r.0.attempts == c.attempts + (if c.conn.None? && c.promise.None? then 1 else 0)
  {
    var b := BeginStep(c);
    match b.step
    case Done(h) => (b.cell, Success(h))
    case Await(_) => SettleStep(b.cell, s)
  }

  /** Calls of `connectDB` made one after another; the `i`-th awaited promise settles with `ss[i]`. */
  function Run(c: Cell, ss: seq<Settlement>): (r: (Cell, seq<Result<Handle, string>>))
    ensures |r.1| == |ss|
    decreases |ss|
  {
    if ss == [] then (c, [])
    else
      var first := ConnectStep(c, ss[0]);
      var rest := Run(first.0, ss[1..]);
      (rest.0, [first.1] + rest.1)
  }

  /** Sequential calls keep the cell consistent. */
  lemma {:induction false} RunConsistent(c: Cell, ss: seq<Settlement>)
    requires Consistent(c)
    ensures Consistent(Run(c, ss).0)
    decreases |ss|
  {
    if ss != [] {
      RunConsistent(ConnectStep(c, ss[0]).0, ss[1..]);
    }
  }

  /** Once a handle is stored it is never cleared, and every later call returns it. */
  lemma {:induction false} ReadyIsFinal(c: Cell, ss: seq<Settlement>)
    requires c.conn.Some?
    ensures Run(c, ss).0 == c
    ensures forall i :: 0 <= i < |ss| ==> Run(c, ss).1[i] == Success(c.conn.value)
    decreases |ss|
  {
    if ss != [] {
      ReadyIsFinal(c, ss[1..]);
    }
  }

  /** The index of the first resolving settlement, or `|ss|` when every one rejects. */
  function FirstResolved(ss: seq<Settlement>): (k: nat)
    ensures k <= |ss|
    ensures forall i :: 0 <= i < k ==> ss[i].Rejected?
    ensures k < |ss| ==> ss[k].Resolved?
  {
    if ss == [] || ss[0].Resolved? then 0 else 1 + FirstResolved(ss[1..])
  }

  /**
   * From an idle cell, sequential calls fail one by one, each after one
   * connection attempt of its own, until the first attempt that succeeds;
   * that call and every later one return its handle, and no further attempt
   * is made.
   */
  lemma {:induction false} RunFromIdle(c: Cell, ss: seq<Settlement>)
    requires c.conn.None? && c.promise.None?
    ensures var k := FirstResolved(ss);
      && Run(c, ss).0.attempts == c.attempts + (if k < |ss| then k + 1 else k)
      && (forall i :: 0 <= i < k ==> Run(c, ss).1[i] == Failure(ss[i].reason))
      && (forall i :: k <= i < |ss| ==> Run(c, ss).1[i] == Success(ss[k].handle))
      && (k < |ss| <==> Run(c, ss).0.conn.Some?)
    decreases |ss|
  {
    if ss != [] {
      var next := ConnectStep(c, ss[0]).0;
      if ss[0].Resolved? {
        ReadyIsFinal(next, ss[1..]);
      } else {
        RunFromIdle(next, ss[1..]);
        assert FirstResolved(ss) == 1 + FirstResolved(ss[1..]);
      }
    }
  }

  /** `n` overlapping callers each run the first half of `connectDB` before any promise settles. */
  function BeginMany(c: Cell, n: nat): (r: (Cell, seq<Step>))
    ensures |r.1| == n
    decreases n
  {
    if n == 0 then (c, [])
    else
      var b := BeginStep(c);
      var rest := BeginMany(b.cell, n - 1);
      (rest.0, [b.step] + rest.1)
  }

  /** `n` callers awaiting the same promise resume, one after another, with its settlement `s`. */
  function SettleMany(c: Cell, n: nat, s: Settlement): (r: (Cell, seq<Result<Handle, string>>))
    ensures |r.1| == n
    decreases n
  {
    if n == 0 then (c, [])
    else
      var first := SettleStep(c, s);
      var rest := SettleMany(first.0, n - 1, s);
      (rest.0, [first.1] + rest.1)
  }

  lemma {:induction false} BeginManyPending(c: Cell, n: nat)
    requires Consistent(c) && c.conn.None? && c.promise.Some?
    ensures BeginMany(c, n).0 == c
    ensures forall i :: 0 <= i < n ==> BeginMany(c, n).1[i] == Await(c.promise.value)
  {
    if n > 0 {
      BeginManyPending(c, n - 1);
    }
  }

  lemma {:induction false} SettleManyAll(c: Cell, n: nat, s: Settlement)
    requires Consistent(c) && c.conn.None? && c.promise.Some?
    ensures var r := SettleMany(c, n, s);
      && Consistent(r.0) && r.0.attempts == c.attempts
      && (forall i :: 0 <= i < n ==> r.1[i] == if s.Resolved? then Success(s.handle) else Failure(s.reason))
      && (n > 0 && s.Resolved? ==> r.0.conn == Some(s.handle) && r.0.promise == c.promise)
      && (n > 0 && s.Rejected? ==> r.0.conn.None? && r.0.promise.None?)
  {
    if n > 0 {
      var first := SettleStep(c, s);
      if s.Resolved? {
        ReadyIsSettled(first.0, n - 1, s);
      } else {
        RejectedStaysIdle(first.0, n - 1, s);
      }
    }
  }

  lemma {:induction false} ReadyIsSettled(c: Cell, n: nat, s: Settlement)
    requires Consistent(c) && s.Resolved? && c.conn == Some(s.handle)
    ensures SettleMany(c, n, s).0 == c
    ensures forall i :: 0 <= i < n ==> SettleMany(c, n, s).1[i] == Success(s.handle)
  {
    if n > 0 {
      ReadyIsSettled(c, n - 1, s);
    }
  }

  lemma {:induction false} RejectedStaysIdle(c: Cell, n: nat, s: Settlement)
    requires Consistent(c) && s.Rejected? && c.conn.None? && c.promise.None?
    ensures SettleMany(c, n, s).0 == c
    ensures forall i :: 0 <= i < n ==> SettleMany(c, n, s).1[i] == Failure(s.reason)
  {
    if n > 0 {
      RejectedStaysIdle(c, n - 1, s);
    }
  }

  /**
   * Overlapping first calls: however many callers find no handle before the
   * pending promise settles, at most one connection attempt is started (one
   * exactly when none was pending), all of them await that one promise, and
   * all of them receive the same handle or the same error.
   */
  lemma OverlappingCallers(c: Cell, n: nat, s: Settlement)
    requires Consistent(c) && c.conn.None? && n > 0
    ensures var (c1, steps) := BeginMany(c, n);
      && c1.attempts == c.attempts + (if c.promise.None? then 1 else 0)
      && c1.promise == Some(Attempt(c1.attempts))
      && (forall i :: 0 <= i < n ==> steps[i] == Await(Attempt(c1.attempts)))
    ensures var (c2, results) := SettleMany(BeginMany(c, n).0, n, s);
      && Consistent(c2)
      && (forall i :: 0 <= i < n ==> results[i] == if s.Resolved? then Success(s.handle) else Failure(s.reason))
      && (s.Resolved? ==> c2.conn == Some(s.handle))
      && (s.Rejected? ==> c2.conn.None? && c2.promise.None?)
  {
    var b := BeginStep(c);
    BeginManyPending(b.cell, n - 1);
    SettleManyAll(b.cell, n, s);
  }

  /** The module-load check of the connection string: `undefined` and `""` are fatal. */
  function CheckUri(uri: Option<string>): (r: Result<string, string>)
    ensures r.Failure? <==> uri == None || uri == Some("")
    ensures r.Failure? ==> r.error == MissingUriMessage
    ensures r.Success? ==> Some(r.value) == uri
  {
    if uri.None? || uri.value == "" then Failure(MissingUriMessage) else Success(uri.value)
  }

  /** The shared cache cell, whose fields `connectDB` updates in place. */
  class MongooseCache {
    var conn: Option<Handle>
    var promise: Option<Attempt>
    var attempts: nat

    function Snapshot(): Cell
      reads this
    {
      Cell(conn, promise, attempts)
    }

    predicate Valid()
      reads this
    {
      Consistent(Snapshot())
    }

    /** A fresh cell `{conn: null, promise: null}`. */
    constructor ()
      ensures Valid() && Snapshot() == Empty
    {
      conn, promise, attempts := None, None, 0;
    }

    /** The part of `connectDB` before its `await`. */
    method Begin() returns (step: Step)
      requires Valid()
      modifies this
      ensures Valid()
      ensures Begun(Snapshot(), step) == BeginStep(old(Snapshot()))
    {
      if conn.Some? {
        return Done(conn.value);
      }
      if promise.None? {
        attempts := attempts + 1;
        promise := Some(Attempt(attempts));
      }
      step := Await(promise.value);
    }

    /** The part of `connectDB` that resumes when the awaited promise settles with `s`. */
    method Settle(s: Settlement) returns (r: Result<Handle, string>)
      requires Valid() && CanSettle(Snapshot(), s)
      modifies this
      ensures Valid()
      ensures (Snapshot(), r) == SettleStep(old(Snapshot()), s)
    {
      match s {
        case Resolved(instance) =>
          conn := Some(instance);
          r := Success(conn.value);
        case Rejected(e) =>
          promise := None;
          r := Failure(e);
      }
    }

    /** One whole call of `connectDB`; `s` is how its awaited promise settles, if it awaits one. */
    method ConnectDB(s: Settlement) returns (r: Result<Handle, string>)
      requires Valid()
      modifies this
      ensures Valid()
      ensures (Snapshot(), r) == ConnectStep(old(Snapshot()), s)
      ensures old(conn).Some? ==> r == Success(old(conn).value) && Snapshot() == old(Snapshot())
    {
      var step := Begin();
      match step {
        case Done(h) =>
          r := Success(h);
        case Await(_) =>
          r := Settle(s);
      }
    }
  }

  /**
   * Loading the module: a missing connection string is fatal before any call;
   * otherwise the cell left by an earlier load is reused, or a fresh one made.
   */
  method LoadModule(uri: Option<string>, existing: Option<MongooseCache>) returns (r: Result<MongooseCache, string>)
    ensures CheckUri(uri).Failure? ==> r == Failure(MissingUriMessage)
    ensures CheckUri(uri).Success? && existing.Some? ==> r == Success(existing.value)
    ensures CheckUri(uri).Success? && existing.None? ==> r.Success? && fresh(r.value) && r.value.Valid() && r.value.Snapshot() == Empty
  {
    var checked := CheckUri(uri);
    if checked.Failure? {
      return Failure(checked.error);
    }
    if existing.Some? {
      r := Success(existing.value);
    } else {
      var cell := new MongooseCache();
      r := Success(cell);
    }
  }
}
