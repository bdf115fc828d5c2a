/**
 The delivery workflow as the worker runs it, over the tables it writes. Its effect is
 always a run of the protocol in module Delivery, so what is proved there holds here.
 */
module Workflow {
  import opened Prelude
  import opened Delivery
  import Backoff
  import Issues

  class Store {
    var events: map<nat, nat>                       // event to connection
    var deliveries: map<nat, map<int, Row>>         // UNIQUE (event_id, attempt_number)
    var issues: map<nat, Issues.Issue>              // UNIQUE (event_id)

    function RowsOf(e: nat): map<int, Row>
      reads this
    {
      if e in deliveries then deliveries[e] else map[]
    }

    function IssueOf(e: nat): Option<Issues.Issue>
      reads this
    {
      if e in issues then Some(issues[e]) else None
    }

    /** The tables hold, for event e, what the protocol's state says. */
    ghost predicate Shows(e: nat, s: State)
      reads this
    {
      && (s.purged <==> e !in events)
      && (e in events ==> events[e] == s.connection)
      && (e !in events ==> e !in deliveries && e !in issues)
      && RowsOf(e) == s.rows
      && IssueOf(e) == s.issue
    }

    /** The rows of the other events are as they were. */
    ghost predicate Elsewhere(e: nat, rows: map<nat, map<int, Row>>, others: map<nat, Issues.Issue>)
      reads this
    {
      deliveries - {e} == rows - {e} && issues - {e} == others - {e}
    }

    /** `up` says whether the database answers; the key constraints decide the rest. */
    method RecordDelivery(e: nat, attempt: int, row: Row, up: bool) returns (ok: bool)
      modifies `deliveries
      ensures ok <==> up && e in events && attempt !in old(RowsOf(e))
      ensures RowsOf(e) == if ok then old(RowsOf(e))[attempt := row] else old(RowsOf(e))
      ensures deliveries - {e} == old(deliveries) - {e}
    {
      ok := up && e in events && attempt !in RowsOf(e);
      if ok {
        deliveries := deliveries[e := RowsOf(e)[attempt := row]];
      }
    }

    method RecordIssue(e: nat, f: Issues.Failure, up: bool) returns (ok: bool)
      modifies `issues
      ensures ok <==> up && e in events
      ensures IssueOf(e) == if ok then Some(Issues.Upsert(old(IssueOf(e)), f)) else old(IssueOf(e))
      ensures issues - {e} == old(issues) - {e}
    {
      ok := up && e in events;
      if ok {
        issues := issues[e := Issues.Upsert(IssueOf(e), f)];
      }
    }

    method ResolveIssueByEventID(e: nat, now: Time, up: bool) returns (ok: bool)
      modifies `issues
      ensures ok == up
      ensures IssueOf(e) == if ok then Issues.Resolve(old(IssueOf(e)), now) else old(IssueOf(e))
      ensures issues - {e} == old(issues) - {e}
    {
      ok := up;
      if ok && e in issues && issues[e].status == Issues.Open {
        issues := issues[e := issues[e].(status := Issues.Resolved, resolvedAt := Some(now))];
      }
    }

    /** DELETE FROM events, with its cascades. */
    method Purge(e: nat, ghost s: State)
      requires Shows(e, s)
      modifies this
      ensures Shows(e, Next(s, Step.Purge))
      ensures events == old(events) - {e} && deliveries == old(deliveries) - {e} && issues == old(issues) - {e}
    {
      events, deliveries, issues := events - {e}, deliveries - {e}, issues - {e};
    }
  }

  /** Where an attempt's activity ends in an error: it times out, or its worker dies. */
  datatype Death = Never | BeforeRead | BeforePost | BeforeRow | BeforeNote | BeforeReturn

  /** What the world answers to one run. */
  datatype World = World(
    loadOk: bool,
    outcome: int -> Outcome,
    death: int -> Death,
    insertUp: int -> bool,
    noteUp: int -> bool,
    finishUp: bool,
    finishAcked: bool,            // a closing statement may commit and its answer be lost
    clock: int -> Time,
    unspecified: int)

  ghost predicate At(m: State, r: nat, max: int, pc: Pc) {
    r in m.runs && m.runs[r].max == max && m.runs[r].pc == pc
  }

  /** The run has its answer, and the POST is not yet recorded. */
  ghost predicate Answered(m: State, r: nat, max: int, a: int, o: Outcome) {
    && r in m.runs && m.runs[r].max == max && m.runs[r].pc.Posted? && m.runs[r].pc.attempt == a
    && m.runs[r].pc.post < |m.posts| && m.posts[m.runs[r].pc.post].outcome == o && !o.NoRequest?
  }

  /** The run waits to note the failure of its POST. */
  ghost predicate Refused(m: State, r: nat, max: int, a: int, o: Outcome) {
    && r in m.runs && m.runs[r].max == max && m.runs[r].pc.Noting? && m.runs[r].pc.attempt == a
    && m.runs[r].pc.post < |m.posts| && m.posts[m.runs[r].pc.post].outcome == o && !o.NoRequest?
  }

  ghost predicate SameTables(m: State, m': State) {
    m'.purged == m.purged && m'.connection == m.connection && m'.rows == m.rows && m'.issue == m.issue
  }

  lemma Posting(m: State, r: nat, max: int, a: int, o: Outcome)
    requires !m.purged && At(m, r, max, Trying(a))
    ensures var m1 := Next(m, Fetch(r)); var m2 := Next(m1, Attempt(r, o));
            && SameTables(m, m1) && SameTables(m, m2) && At(m1, r, max, Fetched(a))
            && if o.NoRequest? then At(m2, r, max, After(a, max)) else Answered(m2, r, max, a, o)
  {
  }

  lemma SavedEffect(m: State, r: nat, max: int, a: int, o: Outcome, up: bool)
    requires !m.purged && Answered(m, r, max, a, o)
    ensures var m' := Next(m, InsertRow(r, up));
            && m'.purged == m.purged && m'.connection == m.connection && m'.issue == m.issue
            && m'.rows == (if up && a !in m.rows then m.rows[a := RowOf(o)] else m.rows)
            && if Success(o) then At(m', r, max, Resolving) else Refused(m', r, max, a, o)
  {
  }

  lemma NotedEffect(m: State, r: nat, max: int, a: int, o: Outcome, up: bool, now: Time)
    requires !m.purged && Refused(m, r, max, a, o)
    ensures var m' := Next(m, NoteIssue(r, up, now));
            && m'.purged == m.purged && m'.connection == m.connection && m'.rows == m.rows
            && m'.issue == (if up then Issues.Apply(m.issue, Noted(m, a, o, now)) else m.issue)
            && At(m', r, max, After(a, max))
  {
  }

  /** The activity errors, and with it the run, leaving the tables as they are. */
  lemma FailEffect(s: State, steps: seq<Step>, r: nat)
    requires r in Exec(s, steps).runs && !Exec(s, steps).runs[r].pc.Returned?
    ensures var m := Exec(s, steps); var m' := Exec(s, steps + [Fail(r)]);
            SameTables(m, m') && At(m', r, m.runs[r].max, Errored)
  {
    ExecAppend(s, steps, Fail(r));
  }

  /** Inserting the row and, after a failure, noting the issue. */
  method RecordAttempt(db: Store, e: nat, attempt: int, max: int, o: Outcome, w: World,
                       ghost r: nat, ghost s: State, ghost steps: seq<Step>)
    returns (alive: bool, ghost more: seq<Step>)
    requires e in db.events && db.Shows(e, Exec(s, steps)) && Answered(Exec(s, steps), r, max, attempt, o)
    modifies db`deliveries, db`issues
    ensures db.Shows(e, Exec(s, more))
    ensures alive <==> w.death(attempt) !in {BeforeRow, BeforeNote, BeforeReturn}
    ensures At(Exec(s, more), r, max,
               if !alive then Errored else if Success(o) then Resolving else After(attempt, max))
    ensures db.Elsewhere(e, old(db.deliveries), old(db.issues))
  {
    more, alive := steps, false;
    if w.death(attempt) == BeforeRow {
      FailEffect(s, more, r);
      more := more + [Fail(r)];
      return;
    }
    SavedEffect(Exec(s, more), r, max, attempt, o, w.insertUp(attempt));
    var _ := db.RecordDelivery(e, attempt, RowOf(o), w.insertUp(attempt));
    ExecAppend(s, more, InsertRow(r, w.insertUp(attempt)));
    more := more + [InsertRow(r, w.insertUp(attempt))];
    if !Success(o) && w.death(attempt) != BeforeNote {
      more := NoteFailure(db, e, attempt, max, o, w, r, s, more);
    }
    alive := w.death(attempt) != BeforeNote && w.death(attempt) != BeforeReturn;
    if !alive {
      FailEffect(s, more, r);
      more := more + [Fail(r)];
    }
  }

  /** noteOpenIssue, whose error is only logged. */
  method NoteFailure(db: Store, e: nat, attempt: int, max: int, o: Outcome, w: World,
                     ghost r: nat, ghost s: State, ghost steps: seq<Step>)
    returns (ghost more: seq<Step>)
    requires e in db.events && db.Shows(e, Exec(s, steps)) && Refused(Exec(s, steps), r, max, attempt, o)
    modifies db`issues
    ensures db.Shows(e, Exec(s, more)) && At(Exec(s, more), r, max, After(attempt, max))
    ensures db.issues - {e} == old(db.issues) - {e}
  {
    var up, now := w.noteUp(attempt), w.clock(attempt);
    NotedEffect(Exec(s, steps), r, max, attempt, o, up, now);
    ExecAppend(s, steps, NoteIssue(r, up, now));
    var _ := db.RecordIssue(e, Issues.Failure(db.events[e], Reason(o), attempt, now), up);
    more := steps + [NoteIssue(r, up, now)];
  }

  /** One attempt: its success, or None if the activity errors. */
  method DeliverActivity(db: Store, e: nat, attempt: int, max: int, w: World,
                         ghost r: nat, ghost s: State, ghost steps: seq<Step>)
    returns (success: Option<bool>, ghost more: seq<Step>)
    requires db.Shows(e, Exec(s, steps)) && At(Exec(s, steps), r, max, Trying(attempt))
    modifies db`deliveries, db`issues
    ensures success.None? <==> e !in db.events || w.death(attempt) != Never
    ensures success.Some? ==>
              (success.value <==> w.outcome(attempt).Response? && 200 <= w.outcome(attempt).code <= 299)
    ensures db.Shows(e, Exec(s, more)) && At(Exec(s, more), r, max, AfterAttempt(success, attempt, max))
    ensures db.Elsewhere(e, old(db.deliveries), old(db.issues))
  {
    more, success := steps, None;
    if e !in db.events || w.death(attempt) == BeforeRead {
      FailEffect(s, more, r);
      more := more + [Fail(r)];
      return;
    }
    var o := w.outcome(attempt);
    Posting(Exec(s, steps), r, max, attempt, o);
    ExecAppend(s, more, Fetch(r));
    more := more + [Fetch(r)];
    if w.death(attempt) != BeforePost {
      ExecAppend(s, more, Attempt(r, o));
      more := more + [Attempt(r, o)];
      if !o.NoRequest? {
        var alive;
        alive, more := RecordAttempt(db, e, attempt, max, o, w, r, s, more);
        success := if alive then Some(Success(o)) else None;
        return;
      }
    }
    if w.death(attempt) == Never {
      success := Some(false);
    } else {
      FailEffect(s, more, r);
      more := more + [Fail(r)];
    }
  }

  function AfterAttempt(success: Option<bool>, attempt: int, max: int): Pc {
    if success.None? then Errored else if success.value then Resolving else After(attempt, max)
  }

  /** The closing activity, RecordDelivered or RecordIssue. Only the latter needs the event. */
  method FinishActivity(db: Store, e: nat, max: int, delivered: bool, w: World, now: Time,
                        ghost r: nat, ghost s: State, ghost steps: seq<Step>)
    returns (ok: bool, ghost more: seq<Step>)
    requires db.Shows(e, Exec(s, steps))
    requires At(Exec(s, steps), r, max, if delivered then Resolving else Exhausting)
    modifies db`issues
    ensures ok <==> w.finishUp && w.finishAcked && (delivered || e in db.events)
    ensures more == steps + [Finish(r, w.finishUp, w.finishAcked, now)]
    ensures db.Shows(e, Exec(s, more))
    ensures At(Exec(s, more), r, max, if ok then Returned(delivered) else Errored)
    ensures db.issues - {e} == old(db.issues) - {e}
    ensures w.finishUp && e in db.events ==> (Issues.IsOpen(db.IssueOf(e)) <==> !delivered)
    ensures w.finishUp && e in db.events && !delivered ==> db.IssueOf(e).value.attempts >= max
    ensures e !in db.events ==> db.IssueOf(e) == None
  {
    more := steps + [Finish(r, w.finishUp, w.finishAcked, now)];
    ExecAppend(s, steps, Finish(r, w.finishUp, w.finishAcked, now));
    if delivered {
      ok := db.ResolveIssueByEventID(e, now, w.finishUp);
    } else if e in db.events {
      ok := db.RecordIssue(e, Issues.Failure(db.events[e], Issues.GENERIC_REASON, max, now), w.finishUp);
    } else {
      ok := false;
    }
    ok := ok && w.finishAcked;
  }

  /** The sleeps of a run are the backoff delays of its attempts, in order. */
  ghost predicate Backs(sleeps: seq<int>, first: int, factor: real, unspecified: int) {
    forall i :: 0 <= i < |sleeps| ==> sleeps[i] == Pause(first, factor, unspecified, i + 1)
  }

  function Pause(first: int, factor: real, unspecified: int, attempt: int): int {
    Backoff.Duration(Backoff.Delay(first, factor, attempt), unspecified)
  }

  /** The pause after a failed attempt, unless it was the last. */
  method SleepAfter(first: int, factor: real, attempt: int, max: int, unspecified: int, sleeps: seq<int>)
    returns (longer: seq<int>)
    requires attempt == |sleeps| + 1 && Backs(sleeps, first, factor, unspecified)
    ensures |longer| == (if attempt < max then attempt else attempt - 1) && Backs(longer, first, factor, unspecified)
  {
    longer := sleeps;
    if attempt < max {
      var delay := Backoff.Backoff(first, factor, attempt, unspecified);
      longer := sleeps + [delay];
    }
  }

  /** One turn of the loop: an attempt and, if it fails and is not the last, a pause. */
  method Round(db: Store, e: nat, attempt: int, max: int, first: int, factor: real, w: World, sleeps: seq<int>,
               ghost r: nat, ghost s: State, ghost steps: seq<Step>)
    returns (success: Option<bool>, longer: seq<int>, ghost more: seq<Step>)
    requires db.Shows(e, Exec(s, steps)) && At(Exec(s, steps), r, max, Trying(attempt))
    requires attempt == |sleeps| + 1 <= max && Backs(sleeps, first, factor, w.unspecified)
    modifies db`deliveries, db`issues
    ensures success.None? <==> e !in db.events || w.death(attempt) != Never
    ensures success.Some? ==>
              (success.value <==> w.outcome(attempt).Response? && 200 <= w.outcome(attempt).code <= 299)
    ensures db.Shows(e, Exec(s, more)) && At(Exec(s, more), r, max, AfterAttempt(success, attempt, max))
    ensures db.Elsewhere(e, old(db.deliveries), old(db.issues))
    ensures |longer| == if success == Some(false) && attempt < max then attempt else attempt - 1
    ensures Backs(longer, first, factor, w.unspecified)
  {
    longer := sleeps;
    success, more := DeliverActivity(db, e, attempt, max, w, r, s, steps);
    if success == Some(false) {
      longer := SleepAfter(first, factor, attempt, max, w.unspecified, sleeps);
    }
  }

  /**
   The attempts, until one succeeds, one errors, or `max` have failed; it sleeps only
   between two of them.
   */
  method RetryLoop(db: Store, e: nat, max: int, first: int, factor: real, w: World,
                   ghost r: nat, ghost s: State, ghost loaded: seq<Step>)
    returns (success: Option<bool>, attempts: int, sleeps: seq<int>, ghost steps: seq<Step>)
    requires db.Shows(e, Exec(s, loaded)) && At(Exec(s, loaded), r, max, FirstPc(max))
    modifies db`deliveries, db`issues
    ensures db.Shows(e, Exec(s, steps)) && At(Exec(s, steps), r, max, AfterAttempt(success, max, max))
    ensures db.Elsewhere(e, old(db.deliveries), old(db.issues))
    ensures 0 <= attempts <= Max0(max)
    ensures forall a :: 1 <= a < attempts ==> FailsAlive(w, a)
    ensures success == None ==> attempts > 0 && (e !in db.events || w.death(attempts) != Never)
    ensures success == Some(true) ==> attempts > 0 && w.death(attempts) == Never
    ensures success == Some(true) ==> w.outcome(attempts).Response? && 200 <= w.outcome(attempts).code <= 299
    ensures success == Some(false) ==> attempts == Max0(max) && (attempts > 0 ==> FailsAlive(w, attempts))
    ensures |sleeps| == Max0(attempts - 1) && Backs(sleeps, first, factor, w.unspecified)
  {
    attempts, sleeps, success, steps := 0, [], Some(false), loaded;
    while attempts < max
      invariant 0 <= attempts <= Max0(max) && success == Some(false)
      invariant db.Shows(e, Exec(s, steps))
      invariant At(Exec(s, steps), r, max, if attempts < max then Trying(attempts + 1) else Exhausting)
      invariant forall a :: 1 <= a <= attempts ==> FailsAlive(w, a)
      invariant db.Elsewhere(e, old(db.deliveries), old(db.issues))
      invariant |sleeps| == (if attempts < max then attempts else Max0(attempts - 1))
      invariant Backs(sleeps, first, factor, w.unspecified)
      decreases max - attempts
    {
      attempts := attempts + 1;
      success, sleeps, steps := Round(db, e, attempts, max, first, factor, w, sleeps, r, s, steps);
      if success != Some(false) {
        return;
      }
    }
  }

  /** The attempt fails and its activity lives to say so. */
  ghost predicate FailsAlive(w: World, a: int) {
    w.death(a) == Never && !(w.outcome(a).Response? && 200 <= w.outcome(a).code <= 299)
  }

  /**
   One workflow, start to return, with the tables to itself: its effect is a run of the
   protocol, it touches no other event, and what it returns tells how the issue ended.
   */
  method DeliveryWorkflow(db: Store, e: nat, max: int, first: int, factor: real, w: World, ghost r: nat, ghost s: State)
    returns (ok: bool, delivered: bool, attempts: int, sleeps: seq<int>, ghost steps: seq<Step>)
    requires db.Shows(e, s) && r !in s.runs
    modifies db
    ensures db.Shows(e, Exec(s, steps)) && db.events == old(db.events)
    ensures db.Elsewhere(e, old(db.deliveries), old(db.issues))
    ensures r in Exec(s, steps).runs && Exec(s, steps).runs[r].pc == if ok then Returned(delivered) else Errored
    ensures 0 <= attempts <= Max0(max)
    ensures forall a :: 1 <= a < attempts ==> FailsAlive(w, a)
    ensures ok ==> e in db.events && w.loadOk && w.finishUp && w.finishAcked
    ensures ok && delivered ==> attempts > 0 && w.death(attempts) == Never
    ensures ok && delivered ==> w.outcome(attempts).Response? && 200 <= w.outcome(attempts).code <= 299
    ensures ok && !delivered ==> attempts == Max0(max) && (attempts > 0 ==> FailsAlive(w, attempts))
    ensures ok ==> (Issues.IsOpen(db.IssueOf(e)) <==> !delivered)
    ensures ok && !delivered ==> db.IssueOf(e).value.attempts >= max
    ensures !ok ==> || e !in db.events || !w.loadOk || !w.finishUp || !w.finishAcked
                    || (attempts > 0 && w.death(attempts) != Never)
    ensures |sleeps| == Max0(attempts - 1) && Backs(sleeps, first, factor, w.unspecified)
  {
    steps := [Start(r)];
    attempts, sleeps, delivered, ok := 0, [], false, false;
    assert [Start(r)] == [] + [Start(r)];
    ExecAppend(s, [], Start(r));
    if e !in db.events || !w.loadOk {
      FailEffect(s, steps, r);
      steps := steps + [Fail(r)];
      return;
    }
    ExecAppend(s, steps, Load(r, max));
    steps := steps + [Load(r, max)];
    var success;
    success, attempts, sleeps, steps := RetryLoop(db, e, max, first, factor, w, r, s, steps);
    if success.Some? {
      delivered := success.value;
      ok, steps := FinishActivity(db, e, max, delivered, w, w.clock(attempts), r, s, steps);
    }
  }

  function Sum(sleeps: seq<int>): int {
    if sleeps == [] then 0 else Sum(sleeps[..|sleeps| - 1]) + Last(sleeps)
  }

  /** As long as no delay overflows, a run sleeps whole seconds, under the geometric bound. */
  lemma {:induction false} SleepsWholeSeconds(sleeps: seq<int>, first: int, factor: real, unspecified: int)
    requires first >= 0 && factor >= 1.0 && Backs(sleeps, first, factor, unspecified)
    requires forall a :: 1 <= a <= |sleeps| ==> Backoff.Delay(first, factor, a) <= 9_223_372_036.0
    ensures Sum(sleeps) == Backoff.Slept(first, factor, |sleeps|) * Backoff.NANOSECONDS
    ensures Backoff.UnderGeometric(first, factor, |sleeps|, Backoff.Slept(first, factor, |sleeps|))
    decreases |sleeps|
  {
    Backoff.SleepBounded(first, factor, |sleeps|);
    if sleeps != [] {
      var n := |sleeps|;
      SleepsWholeSeconds(sleeps[..n - 1], first, factor, unspecified);
      Backoff.DelaysNeverDecrease(first, factor, 1, n);
      DelayFits(Backoff.Delay(first, factor, n), unspecified);
      assert Last(sleeps) == Pause(first, factor, unspecified, n);
    }
  }

  lemma DelayFits(x: real, unspecified: int)
    requires 0 <= Backoff.Trunc(x) && x <= 9_223_372_036.0
    ensures Backoff.Duration(x, unspecified) == Backoff.Trunc(x) * Backoff.NANOSECONDS
  {
  }
}
