/**
 The issues table: the upsert that records a failed delivery, the update that
 resolves it, and what a row says after any history of the two.
 */
module Issues {
  import opened Prelude

  const GENERIC_REASON := "Delivery attempts exhausted"

  datatype Status = Open | Resolved

  datatype Issue = Issue(
    connection: nat,
    reason: string,
    attempts: int,
    firstFailedAt: Time,
    status: Status,
    resolvedAt: Option<Time>)

  /** What a caller asks to be recorded. */
  datatype Failure = Failure(connection: nat, reason: string, attempts: int, at: Time)

  /** SQL's LIKE 'Delivery attempts exhausted%'. */
  predicate IsGeneric(reason: string) {
    GENERIC_REASON <= reason
  }

  /** INSERT ... ON CONFLICT (event_id) DO UPDATE, for the one row an event can have. */
  function Upsert(row: Option<Issue>, f: Failure): Issue {
    match row
    case None => Issue(f.connection, f.reason, f.attempts, f.at, Open, None)
    case Some(i) =>
      i.(attempts := if i.attempts < f.attempts then f.attempts else i.attempts,
         reason := if IsGeneric(f.reason) && !IsGeneric(i.reason) then i.reason else f.reason,
         status := Open,
         resolvedAt := None)
  }

  /** UPDATE ... WHERE event_id = e AND status = 'open'. */
  function Resolve(row: Option<Issue>, now: Time): Option<Issue> {
    if row.Some? && row.value.status == Open
    then Some(row.value.(status := Resolved, resolvedAt := Some(now)))
    else row
  }

  datatype Op = Record(failure: Failure) | ResolveAt(now: Time)

  function Apply(row: Option<Issue>, op: Op): Option<Issue> {
    match op
    case Record(f) => Some(Upsert(row, f))
    case ResolveAt(now) => Resolve(row, now)
  }

  /** The row an event has after the given statements, oldest first. */
  function Replay(ops: seq<Op>): Option<Issue> {
    if ops == [] then None else Apply(Replay(ops[..|ops| - 1]), Last(ops))
  }

  lemma ReplayAppend(ops: seq<Op>, op: Op)
    ensures Replay(ops + [op]) == Apply(Replay(ops), op)
  {
    assert (ops + [op])[..|ops|] == ops;
  }

  predicate IsOpen(row: Option<Issue>) {
    row.Some? && row.value.status == Open
  }

  // What the history of an event says, without replaying it.

  predicate RecordsAt(ops: seq<Op>, k: int) {
    0 <= k < |ops| && ops[k].Record?
  }

  predicate ConcreteAt(ops: seq<Op>, k: int) {
    RecordsAt(ops, k) && !IsGeneric(ops[k].failure.reason)
  }

  ghost predicate FirstRecord(ops: seq<Op>, k: int) {
    RecordsAt(ops, k) && forall j :: RecordsAt(ops, j) ==> k <= j
  }

  ghost predicate LastRecord(ops: seq<Op>, k: int) {
    RecordsAt(ops, k) && forall j :: RecordsAt(ops, j) ==> j <= k
  }

  ghost predicate LastConcrete(ops: seq<Op>, k: int) {
    ConcreteAt(ops, k) && forall j :: ConcreteAt(ops, j) ==> j <= k
  }

  ghost predicate FirstTold(i: Issue, ops: seq<Op>) {
    exists k :: FirstRecord(ops, k)
                && i.firstFailedAt == ops[k].failure.at && i.connection == ops[k].failure.connection
  }

  ghost predicate AttemptsTold(i: Issue, ops: seq<Op>) {
    && (exists k :: RecordsAt(ops, k) && i.attempts == ops[k].failure.attempts)
    && (forall k :: RecordsAt(ops, k) ==> ops[k].failure.attempts <= i.attempts)
  }

  ghost predicate ReasonTold(i: Issue, ops: seq<Op>) {
    if exists k :: ConcreteAt(ops, k)
    then exists k :: LastConcrete(ops, k) && i.reason == ops[k].failure.reason
    else exists k :: LastRecord(ops, k) && i.reason == ops[k].failure.reason && IsGeneric(i.reason)
  }

  ghost predicate StatusTold(i: Issue, ops: seq<Op>) {
    exists k :: LastRecord(ops, k) && StatusSince(i, ops, k)
  }

  predicate StatusSince(i: Issue, ops: seq<Op>, k: int)
    requires RecordsAt(ops, k)
  {
    if k == |ops| - 1
    then i.status == Open && i.resolvedAt == None
    else i.status == Resolved && ops[k + 1].ResolveAt? && i.resolvedAt == Some(ops[k + 1].now)
  }

  /** The row is exactly what its history dictates, field by field. */
  ghost predicate Tells(i: Issue, ops: seq<Op>) {
    FirstTold(i, ops) && AttemptsTold(i, ops) && ReasonTold(i, ops) && StatusTold(i, ops)
  }

  /**
   The row equals the fold of its history: the maximum of the attempts, the last
   concrete reason if there ever was one, the first failure's time, and the status
   of the last statement (with the time of the first resolve after the last failure).
   */
  lemma {:induction false} RowTellsItsHistory(ops: seq<Op>)
    ensures Replay(ops).None? <==> forall k :: !RecordsAt(ops, k)
    ensures Replay(ops).Some? ==> Tells(Replay(ops).value, ops)
  {
    if ops != [] {
      var pre, op := ops[..|ops| - 1], Last(ops);
      assert ops == pre + [op];
      RowTellsItsHistory(pre);
      match op {
        case Record(f) =>
          assert RecordsAt(ops, |pre|);
          FirstAfterRecord(pre, f);
          AttemptsAfterRecord(pre, f);
          ReasonAfterRecord(pre, f);
          assert LastRecord(ops, |pre|) && StatusSince(Upsert(Replay(pre), f), ops, |pre|);
        case ResolveAt(now) =>
          SameRecords(pre, op);
          if Replay(pre).Some? { ResolveTells(pre, now); }
      }
    }
  }

  lemma SameRecords(pre: seq<Op>, op: Op)
    ensures forall k :: k != |pre| ==> RecordsAt(pre + [op], k) == RecordsAt(pre, k)
    ensures forall k :: k != |pre| ==> ConcreteAt(pre + [op], k) == ConcreteAt(pre, k)
    ensures op.ResolveAt? ==> !RecordsAt(pre + [op], |pre|) && !RecordsAt(pre, |pre|)
  {
  }

  lemma FirstAfterRecord(pre: seq<Op>, f: Failure)
    requires Replay(pre).None? <==> forall k :: !RecordsAt(pre, k)
    requires Replay(pre).Some? ==> FirstTold(Replay(pre).value, pre)
    ensures FirstTold(Upsert(Replay(pre), f), pre + [Record(f)])
  {
    var ops := pre + [Record(f)];
    SameRecords(pre, Record(f));
    if Replay(pre).None? {
      assert FirstRecord(ops, |pre|);
    } else {
      var i := Replay(pre).value;
      var k :| FirstRecord(pre, k)
               && i.firstFailedAt == pre[k].failure.at && i.connection == pre[k].failure.connection;
      assert FirstRecord(ops, k);
    }
  }

  lemma AttemptsAfterRecord(pre: seq<Op>, f: Failure)
    requires Replay(pre).None? <==> forall k :: !RecordsAt(pre, k)
    requires Replay(pre).Some? ==> AttemptsTold(Replay(pre).value, pre)
    ensures AttemptsTold(Upsert(Replay(pre), f), pre + [Record(f)])
  {
    var ops := pre + [Record(f)];
    SameRecords(pre, Record(f));
    assert RecordsAt(ops, |pre|);
    if Replay(pre).Some? {
      var k :| RecordsAt(pre, k) && Replay(pre).value.attempts == pre[k].failure.attempts;
      assert RecordsAt(ops, k);
    }
  }

  lemma ReasonAfterRecord(pre: seq<Op>, f: Failure)
    requires Replay(pre).None? <==> forall k :: !RecordsAt(pre, k)
    requires Replay(pre).Some? ==> ReasonTold(Replay(pre).value, pre)
    ensures ReasonTold(Upsert(Replay(pre), f), pre + [Record(f)])
  {
    var ops := pre + [Record(f)];
    SameRecords(pre, Record(f));
    assert RecordsAt(ops, |pre|);
    if ConcreteAt(ops, |pre|) {
      assert LastConcrete(ops, |pre|);
    } else if c :| ConcreteAt(pre, c) {
      assert RecordsAt(pre, c);
      assert ConcreteAt(ops, c);
      var k :| LastConcrete(pre, k) && Replay(pre).value.reason == pre[k].failure.reason;
      assert LastConcrete(ops, k);
    } else {
      assert LastRecord(ops, |pre|);
    }
  }

  lemma ResolveTells(pre: seq<Op>, now: Time)
    requires Replay(pre).Some? && Tells(Replay(pre).value, pre)
    ensures Resolve(Replay(pre), now).Some?
    ensures Tells(Resolve(Replay(pre), now).value, pre + [ResolveAt(now)])
  {
    var ops := pre + [ResolveAt(now)];
    SameRecords(pre, ResolveAt(now));
    forall k | RecordsAt(pre, k)
      ensures FirstRecord(pre, k) == FirstRecord(ops, k)
      ensures LastRecord(pre, k) == LastRecord(ops, k)
      ensures LastConcrete(pre, k) == LastConcrete(ops, k)
    {
    }
    var last :| LastRecord(pre, last) && StatusSince(Replay(pre).value, pre, last);
    assert LastRecord(ops, last) && StatusSince(Resolve(Replay(pre), now).value, ops, last);
  }
}
