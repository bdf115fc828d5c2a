/**
 The relay end to end: the API process ingests and starts first deliveries, workers run
 the delivery protocol of each event, operators replay issues, and retention purges events.
 */
module Relay {
  import opened Prelude
  import Ingest
  import Delivery
  import Issues

  /** `events[e]` is the state of the delivery protocol of the e-th committed event. */
  datatype State = State(api: Ingest.State, events: seq<Delivery.State>)

  const INIT := State(Ingest.INIT, [])

  datatype Step =
    | Api(call: Ingest.Step)
    | Worker(event: nat, step: Delivery.Step)
    | Replay(event: nat, run: nat)

  /** The workflow id of the first delivery; replays have others. */
  const FIRST_RUN := 0

  /** The protocol of an event takes a step. */
  function Deliver(s: State, e: nat, step: Delivery.Step): State
    requires e < |s.events|
  {
    s.(events := s.events[e := Delivery.Next(s.events[e], step)])
  }

  function ApiStep(s: State, step: Ingest.Step): State {
    var api := Ingest.Next(s.api, step);
    var s' := s.(api := api);
    match step
    case Insert(h, _) =>
      if |api.committed| > |s.api.committed|
      then s'.(events := s.events + [Delivery.Init(Last(api.committed).connection)])
      else s'
    case Start(h, _, _) =>
      if api.firstStarts != s.api.firstStarts && h in s.api.handlers && s.api.handlers[h].pc.Starting?
         && s.api.handlers[h].pc.event < |s.events|
      then Deliver(s', s.api.handlers[h].pc.event, Delivery.Start(FIRST_RUN))
      else s'
    case Purge(key) =>
      if key in s.api.rows && s.api.rows[key] < |s.events|
      then Deliver(s', s.api.rows[key], Delivery.Purge)
      else s'
    case _ => s'
  }

  function Next(s: State, step: Step): State {
    match step
    case Api(a) => ApiStep(s, a)
    case Worker(e, d) =>
      if e < |s.events| && !d.Start? && !d.Purge? then Deliver(s, e, d) else s
    case Replay(e, r) =>
      if e < |s.events| && s.events[e].issue.Some? && r != FIRST_RUN then Deliver(s, e, Delivery.Start(r)) else s
  }

  function Exec(s: State, steps: seq<Step>): State {
    if steps == [] then s else Next(Exec(s, steps[..|steps| - 1]), Last(steps))
  }

  /** Nothing was ever done about the event. */
  ghost predicate Untouched(d: Delivery.State) {
    d.runs == map[] && d.posts == [] && d.rows == map[] && d.issue == None && d.log == []
  }

  /** The state is one some run of the delivery protocol leads to. */
  ghost predicate Reached(connection: nat, d: Delivery.State) {
    exists ds :: d == Delivery.Exec(Delivery.Init(connection), ds)
  }

  lemma ReachedStep(connection: nat, d: Delivery.State, step: Delivery.Step)
    requires Reached(connection, d)
    ensures Reached(connection, Delivery.Next(d, step))
  {
    var ds :| d == Delivery.Exec(Delivery.Init(connection), ds);
    Delivery.ExecAppend(Delivery.Init(connection), ds, step);
  }

  /** The event's row is in the table. */
  predicate Stored(a: Ingest.State, e: nat) {
    e < |a.committed| && a.committed[e] in a.rows && a.rows[a.committed[e]] == e
  }

  /** What the tables of ingestion say about an event, and what its protocol says. */
  ghost predicate EventOk(a: Ingest.State, e: nat, d: Delivery.State) {
    && e < |a.committed| && Reached(a.committed[e].connection, d)
    && (e in a.firstStarts <==> FIRST_RUN in d.runs)
    && (d.purged <==> !Stored(a, e))
    && (e !in a.firstStarts ==> Untouched(d))
  }

  ghost predicate Inv(s: State) {
    && Ingest.Inv(s.api)
    && |s.events| == |s.api.committed|
    && forall e: nat :: e < |s.events| ==> EventOk(s.api, e, s.events[e])
  }

  /** Without a run there is nothing a worker can do. */
  lemma UntouchedStays(d: Delivery.State, step: Delivery.Step)
    requires Untouched(d) && !step.Start?
    ensures Untouched(Delivery.Next(d, step))
  {
  }

  /** Only a start adds a run, and only a purge purges. */
  lemma RunKeys(d: Delivery.State, step: Delivery.Step)
    ensures var d' := Delivery.Next(d, step);
            && d'.runs.Keys == d.runs.Keys + (if step.Start? then {step.run} else {})
            && (d'.purged <==> d.purged || step.Purge?)
  {
    match step {
      case InsertRow(r, ok) => InsertKeys(d, r, ok);
      case NoteIssue(r, ok, now) => NoteKeys(d, r, ok, now);
      case Finish(r, committed, acked, now) => FinishKeys(d, r, committed, acked, now);
      case Attempt(r, o) => AttemptKeys(d, r, o);
      case _ =>
    }
  }

  lemma InsertKeys(d: Delivery.State, r: nat, ok: bool)
    ensures var d' := Delivery.InsertStep(d, r, ok); d'.runs.Keys == d.runs.Keys && d'.purged == d.purged
  {
  }

  lemma AttemptKeys(d: Delivery.State, r: nat, o: Delivery.Outcome)
    ensures var d' := Delivery.AttemptStep(d, r, o); d'.runs.Keys == d.runs.Keys && d'.purged == d.purged
  {
  }

  lemma NoteKeys(d: Delivery.State, r: nat, ok: bool, now: Time)
    ensures var d' := Delivery.NoteStep(d, r, ok, now); d'.runs.Keys == d.runs.Keys && d'.purged == d.purged
  {
  }

  lemma FinishKeys(d: Delivery.State, r: nat, committed: bool, acked: bool, now: Time)
    ensures var d' := Delivery.FinishStep(d, r, committed, acked, now);
            d'.runs.Keys == d.runs.Keys && d'.purged == d.purged
  {
  }

  lemma DeliverKept(a: Ingest.State, e: nat, d: Delivery.State, step: Delivery.Step)
    requires EventOk(a, e, d) && !step.Purge? && (step.Start? ==> e in a.firstStarts && step.run != FIRST_RUN)
    ensures EventOk(a, e, Delivery.Next(d, step))
  {
    RunKeys(d, step);
    ReachedStep(a.committed[e].connection, d, step);
    if e !in a.firstStarts { UntouchedStays(d, step); }
  }

  lemma WorkerKept(s: State, step: Step)
    requires Inv(s) && !step.Api?
    ensures Inv(Next(s, step))
  {
    if step.event < |s.events| && Next(s, step) != s {
      assert EventOk(s.api, step.event, s.events[step.event]);
      var d := if step.Worker? then step.step else Delivery.Start(step.run);
      DeliverKept(s.api, step.event, s.events[step.event], d);
    }
  }

  /** The tables change nothing that concerns the event. */
  ghost predicate SameFor(a: Ingest.State, a': Ingest.State, e: nat) {
    && e < |a.committed| <= |a'.committed| && a'.committed[e] == a.committed[e]
    && (e in a'.firstStarts <==> e in a.firstStarts)
    && (Stored(a', e) <==> Stored(a, e))
  }

  lemma SameKept(a: Ingest.State, a': Ingest.State, e: nat, d: Delivery.State)
    requires EventOk(a, e, d) && SameFor(a, a', e)
    ensures EventOk(a', e, d)
  {
  }

  lemma InsertSame(a: Ingest.State, h: nat, answer: Ingest.Answer, e: nat)
    requires e < |a.committed|
    ensures SameFor(a, Ingest.InsertStep(a, h, answer), e)
  {
  }

  /** The start of its own event by the handler that inserted it. */
  lemma FirstStartOk(a: Ingest.State, a': Ingest.State, e: nat, d: Delivery.State)
    requires EventOk(a, e, d) && a'.committed == a.committed && a'.rows == a.rows && e in a'.firstStarts
    ensures EventOk(a', e, Delivery.Next(d, Delivery.Start(FIRST_RUN)))
  {
    RunKeys(d, Delivery.Start(FIRST_RUN));
    ReachedStep(a.committed[e].connection, d, Delivery.Start(FIRST_RUN));
  }

  lemma StartCase(s: State, step: Ingest.Step, e: nat)
    requires Inv(s) && step.Start? && e < |s.events|
    ensures EventOk(ApiStep(s, step).api, e, ApiStep(s, step).events[e])
  {
    var a, a', d := s.api, ApiStep(s, step).api, s.events[e];
    assert EventOk(a, e, d);
    if step.handler in a.handlers {
      assert Ingest.HandlerOk(a.handlers[step.handler], step.handler, a.committed, a.author);
    }
    if a'.firstStarts != a.firstStarts && a.handlers[step.handler].pc.event == e {
      FirstStartOk(a, a', e, d);
    } else {
      SameKept(a, a', e, d);
    }
  }

  lemma PurgeCase(s: State, step: Ingest.Step, e: nat)
    requires Inv(s) && step.Purge? && e < |s.events|
    ensures EventOk(ApiStep(s, step).api, e, ApiStep(s, step).events[e])
  {
    var a, d := s.api, s.events[e];
    assert EventOk(a, e, d);
    RunKeys(d, Delivery.Purge);
    ReachedStep(a.committed[e].connection, d, Delivery.Purge);
    if e !in a.firstStarts { UntouchedStays(d, Delivery.Purge); }
  }

  lemma OtherCase(s: State, step: Ingest.Step, e: nat)
    requires Inv(s) && !step.Start? && !step.Purge? && e < |s.events|
    ensures e < |ApiStep(s, step).events| && EventOk(ApiStep(s, step).api, e, ApiStep(s, step).events[e])
  {
    assert EventOk(s.api, e, s.events[e]);
    if step.Insert? { InsertSame(s.api, step.handler, step.answer, e); }
    SameKept(s.api, ApiStep(s, step).api, e, s.events[e]);
  }

  /** The event table and the protocols stay aligned; a new event starts untouched. */
  lemma ApiShape(s: State, step: Ingest.Step)
    requires |s.events| == |s.api.committed|
    ensures var s' := ApiStep(s, step);
            && s'.api == Ingest.Next(s.api, step)
            && |s'.events| == |s'.api.committed|
            && |s.events| <= |s'.events| <= |s.events| + 1
            && (|s'.events| > |s.events| ==>
                  && step.Insert? && Stored(s'.api, |s.events|) && s'.api.firstStarts == s.api.firstStarts
                  && Last(s'.events) == Delivery.Init(Last(s'.api.committed).connection))
  {
  }

  lemma FreshEventOk(s: State, step: Ingest.Step)
    requires Inv(s) && |ApiStep(s, step).events| > |s.events|
    ensures EventOk(ApiStep(s, step).api, |s.events|, ApiStep(s, step).events[|s.events|])
  {
    ApiShape(s, step);
    var connection := Last(ApiStep(s, step).api.committed).connection;
    assert Delivery.Exec(Delivery.Init(connection), []) == Delivery.Init(connection);
  }

  lemma ApiEventsKept(s: State, step: Ingest.Step)
    requires Inv(s)
    ensures forall e: nat :: e < |ApiStep(s, step).events| ==>
              EventOk(ApiStep(s, step).api, e, ApiStep(s, step).events[e])
  {
    ApiShape(s, step);
    forall e: nat | e < |ApiStep(s, step).events|
      ensures EventOk(ApiStep(s, step).api, e, ApiStep(s, step).events[e])
    {
      if e >= |s.events| { FreshEventOk(s, step); }
      else if step.Start? { StartCase(s, step, e); }
      else if step.Purge? { PurgeCase(s, step, e); }
      else { OtherCase(s, step, e); }
    }
  }

  lemma ApiKept(s: State, step: Ingest.Step)
    requires Inv(s)
    ensures Inv(ApiStep(s, step))
  {
    Ingest.InvKept(s.api, step);
    ApiShape(s, step);
    ApiEventsKept(s, step);
  }

  lemma {:induction false} InvAlways(steps: seq<Step>)
    ensures Inv(Exec(INIT, steps))
    decreases |steps|
  {
    if steps != [] {
      var s := Exec(INIT, steps[..|steps| - 1]);
      InvAlways(steps[..|steps| - 1]);
      match Last(steps) {
        case Api(a) => ApiKept(s, a);
        case _ => WorkerKept(s, Last(steps));
      }
    }
  }

  /**
   Nothing is posted before the handler wrote its 200, and no 200 is written before the
   row is committed: an event with any trace of a delivery was started by the handler that
   inserted it, after it wrote its 200.
   */
  lemma PostFollowsAck(steps: seq<Step>, e: nat)
    requires var s := Exec(INIT, steps); e < |s.events| && !Untouched(s.events[e])
    ensures var s := Exec(INIT, steps); var a := s.api;
            && e < |a.committed| && a.firstStarts[e] == 1
            && e in a.author && a.author[e] in a.handlers
            && var x := a.handlers[a.author[e]]; x.acked && x.inserted == Some(e) && x.key == a.committed[e]
  {
    InvAlways(steps);
    var s := Exec(INIT, steps);
    assert EventOk(s.api, e, s.events[e]) && Ingest.Owned(s.api, e);
    var h := s.api.author[e];
    assert Ingest.HandlerOk(s.api.handlers[h], h, s.api.committed, s.api.author);
  }

  /**
   Once the inserting handler is over without a start, nothing ever happens to the event:
   no later duplicate starts it, and it never gets an issue an operator could replay.
   */
  lemma {:induction false} LostForever(steps: seq<Step>, later: seq<Step>, e: nat)
    requires Ingest.Lost(Exec(INIT, steps).api, e)
    ensures var s := Exec(Exec(INIT, steps), later);
            Inv(s) && Ingest.Lost(s.api, e) && e < |s.events| && Untouched(s.events[e])
    decreases |later|
  {
    if later == [] {
      InvAlways(steps);
      LostUntouched(Exec(INIT, steps), e);
    } else {
      var mid := Exec(Exec(INIT, steps), later[..|later| - 1]);
      LostForever(steps, later[..|later| - 1], e);
      LostStep(mid, Last(later), e);
    }
  }

  lemma LostStep(s: State, step: Step, e: nat)
    requires Inv(s) && Ingest.Lost(s.api, e)
    ensures Inv(Next(s, step)) && Ingest.Lost(Next(s, step).api, e)
    ensures e < |Next(s, step).events| && Untouched(Next(s, step).events[e])
  {
    match step {
      case Api(a) =>
        ApiKept(s, a);
        Ingest.LostStays(s.api, a, e);
      case _ =>
        WorkerKept(s, step);
    }
    LostUntouched(Next(s, step), e);
  }

  lemma LostUntouched(s: State, e: nat)
    requires Inv(s) && Ingest.Lost(s.api, e)
    ensures e < |s.events| && Untouched(s.events[e])
  {
    assert Ingest.Owned(s.api, e);
    assert EventOk(s.api, e, s.events[e]);
  }

  /**
   In every run of the whole relay, each event goes through a run of the delivery protocol
   of its own connection, so all that module Delivery proves holds of every event.
   */
  lemma EachEventRunsTheProtocol(steps: seq<Step>, e: nat) returns (ds: seq<Delivery.Step>)
    requires e < |Exec(INIT, steps).events|
    ensures e < |Exec(INIT, steps).api.committed|
    ensures Exec(INIT, steps).events[e]
         == Delivery.Exec(Delivery.Init(Exec(INIT, steps).api.committed[e].connection), ds)
  {
    InvAlways(steps);
    var s := Exec(INIT, steps);
    assert EventOk(s.api, e, s.events[e]);
    ds :| s.events[e] == Delivery.Exec(Delivery.Init(s.api.committed[e].connection), ds);
  }

  /**
   In every run of the whole relay, an event was started exactly if its first delivery is
   among its runs, and its row is in the table exactly until it is purged.
   */
  lemma StartedMeansRunning(steps: seq<Step>, e: nat)
    ensures var s := Exec(INIT, steps);
            && (e in s.api.firstStarts <==> e < |s.events| && FIRST_RUN in s.events[e].runs)
            && (e < |s.events| ==>
                  && e < |s.api.committed|
                  && var key := s.api.committed[e];
                     s.events[e].purged <==> !(key in s.api.rows && s.api.rows[key] == e))
  {
    InvAlways(steps);
    var s := Exec(INIT, steps);
    if e < |s.events| { assert EventOk(s.api, e, s.events[e]); }
  }

  /** A replay of an issue begins a new run of its event, and touches nothing else. */
  lemma ReplayBegins(s: State, e: nat, r: nat)
    requires e < |s.events| && s.events[e].issue.Some? && r != FIRST_RUN && r !in s.events[e].runs
    ensures var d := s.events[e];
            var begun := d.(runs := d.runs[r := Delivery.Run(0, Delivery.Loading, [])]);
            Next(s, Replay(e, r)) == s.(events := s.events[e := begun])
  {
  }

  /** What workers do to one event, as steps of the relay. */
  function Work(e: nat, ds: seq<Delivery.Step>): seq<Step> {
    seq(|ds|, i requires 0 <= i < |ds| => Worker(e, ds[i]))
  }

  /** Workers can take an event through any run of its protocol, and leave everything else alone. */
  lemma {:induction false} WorkersRunTheProtocol(s: State, e: nat, ds: seq<Delivery.Step>)
    requires e < |s.events| && forall i :: 0 <= i < |ds| ==> !ds[i].Start? && !ds[i].Purge?
    ensures Exec(s, Work(e, ds)) == s.(events := s.events[e := Delivery.Exec(s.events[e], ds)])
    decreases |ds|
  {
    if ds != [] {
      var n := |ds| - 1;
      WorkersRunTheProtocol(s, e, ds[..n]);
      assert Work(e, ds)[..n] == Work(e, ds[..n]);
    } else {
      assert s.events[e := s.events[e]] == s.events;
    }
  }

  /** End to end: what an operator sees of an event all of whose runs returned. */
  lemma SettledEvent(steps: seq<Step>, e: nat)
    requires var s := Exec(INIT, steps);
             && e < |s.events| && !s.events[e].purged && s.events[e].runs != map[] && Delivery.AllReturned(s.events[e])
    ensures var s := Exec(INIT, steps); var d := s.events[e];
            && s.api.firstStarts[e] == 1
            && |d.log| > 0 && Delivery.CommittedBy(d, Last(d.log).run, |d.log| - 1)
            && (Issues.IsOpen(d.issue) <==> !d.runs[Last(d.log).run].pc.delivered)
  {
    var ds := EachEventRunsTheProtocol(steps, e);
    Delivery.LastTerminalDecides(Exec(INIT, steps).api.committed[e].connection, ds);
    PostFollowsAck(steps, e);
  }

  // ---------------------------------------------------------------- a relay that delivers

  const KEY := Ingest.Key(7, "evt")
  const RECEIVED: seq<Step> := [Api(Ingest.Request(0, KEY)), Api(Ingest.Insert(0, Ingest.Ok))]
  const STARTED: seq<Step> := [Api(Ingest.Ack(0)), Api(Ingest.Start(0, true, true))]
  const DELIVERED: seq<Delivery.Step> :=
    [Delivery.Load(FIRST_RUN, 1), Delivery.Fetch(FIRST_RUN), Delivery.Attempt(FIRST_RUN, Delivery.Response(200, 5)),
     Delivery.InsertRow(FIRST_RUN, true), Delivery.Finish(FIRST_RUN, true, true, 9)]

  lemma {:induction false} ExecConcat(s: State, a: seq<Step>, b: seq<Step>)
    ensures Exec(s, a + b) == Exec(Exec(s, a), b)
    decreases |b|
  {
    if b == [] {
      assert a + b == a;
    } else {
      ExecConcat(s, a, b[..|b| - 1]);
      assert (a + b)[..|a + b| - 1] == a + b[..|b| - 1];
    }
  }

  lemma ExecTwo(s: State, a: Step, b: Step)
    ensures Exec(s, [a, b]) == Next(Next(s, a), b)
  {
    assert [a, b][..1] == [a] && [a][..0] == [];
    assert Exec(s, [a]) == Next(Exec(s, []), a);
  }

  function Inserted(): State {
    var handler := Ingest.Handler(KEY, Ingest.Acking(Some(0)), false, Some(0));
    State(Ingest.State(map[KEY := 0], [KEY], map[0 := handler], map[0 := 0], multiset{}), [Delivery.Init(7)])
  }

  lemma InsertedEvent()
    ensures Exec(INIT, RECEIVED) == Inserted()
  {
    ExecTwo(INIT, Api(Ingest.Request(0, KEY)), Api(Ingest.Insert(0, Ingest.Ok)));
    RequestedEvent();
  }

  lemma RequestedEvent()
    ensures Next(Next(INIT, Api(Ingest.Request(0, KEY))), Api(Ingest.Insert(0, Ingest.Ok))) == Inserted()
  {
    var requested := Next(INIT, Api(Ingest.Request(0, KEY)));
    assert requested.api.handlers == map[0 := Ingest.Handler(KEY, Ingest.Inserting, false, None)];
    assert [] + [KEY] == [KEY] && [] + [Delivery.Init(7)] == [Delivery.Init(7)];
  }

  /** The event as its first delivery begins. */
  const BEGUN: Delivery.State := Delivery.Init(7).(runs := map[FIRST_RUN := Delivery.Run(0, Delivery.Loading, [])])

  lemma StartedEvent()
    ensures var s := Next(Next(Inserted(), Api(Ingest.Ack(0))), Api(Ingest.Start(0, true, true)));
            s.api.firstStarts == multiset{0} && s.events == [BEGUN]
  {
    var handler := Ingest.Handler(KEY, Ingest.Starting(0), true, Some(0));
    var acked := Next(Inserted(), Api(Ingest.Ack(0)));
    assert acked.api == Inserted().api.(handlers := map[0 := handler]) && acked.events == [Delivery.Init(7)];
    var a := Ingest.Next(acked.api, Ingest.Start(0, true, true));
    assert a.firstStarts == multiset{0};
    assert Delivery.Next(Delivery.Init(7), Delivery.Start(FIRST_RUN)) == BEGUN;
  }

  lemma AcceptedEvent()
    ensures var s := Exec(INIT, RECEIVED + STARTED); s.api.firstStarts == multiset{0} && s.events == [BEGUN]
  {
    InsertedEvent();
    StartedEvent();
    ExecConcat(INIT, RECEIVED, STARTED);
    ExecTwo(Inserted(), Api(Ingest.Ack(0)), Api(Ingest.Start(0, true, true)));
  }

  lemma DeliverOne(d: Delivery.State, ds: seq<Delivery.Step>, n: nat)
    requires n < |ds|
    ensures Delivery.Exec(d, ds[..n + 1]) == Delivery.Next(Delivery.Exec(d, ds[..n]), ds[n])
  {
    assert ds[..n + 1][..n] == ds[..n];
  }

  function Posted(): Delivery.State {
    var o := Delivery.Response(200, 5);
    BEGUN.(runs := map[FIRST_RUN := Delivery.Run(1, Delivery.Posted(1, 0), [o])],
           posts := [Delivery.Post(FIRST_RUN, 1, o, Delivery.Unsaved)])
  }

  lemma PostedEvent()
    ensures Delivery.Exec(BEGUN, DELIVERED[..3]) == Posted()
  {
    DeliverOne(BEGUN, DELIVERED, 0);
    DeliverOne(BEGUN, DELIVERED, 1);
    DeliverOne(BEGUN, DELIVERED, 2);
    assert DELIVERED[..0] == [] && Delivery.Exec(BEGUN, []) == BEGUN;
    var loaded := BEGUN.(runs := map[FIRST_RUN := Delivery.Run(1, Delivery.Trying(1), [])]);
    assert Delivery.Next(BEGUN, DELIVERED[0]) == loaded;
    var fetched := BEGUN.(runs := map[FIRST_RUN := Delivery.Run(1, Delivery.Fetched(1), [])]);
    assert Delivery.Next(loaded, DELIVERED[1]) == fetched;
    assert [] + [Delivery.Response(200, 5)] == [Delivery.Response(200, 5)];
    assert [] + Posted().posts == Posted().posts;
    assert Delivery.Next(fetched, DELIVERED[2]) == Posted();
  }

  lemma DeliveredEvent()
    ensures var d := Delivery.Exec(BEGUN, DELIVERED);
            && !d.purged && d.runs.Keys == {FIRST_RUN} && d.runs[FIRST_RUN].pc == Delivery.Returned(true)
            && d.rows == map[1 := Delivery.Row(Delivery.Delivered, Some(200), 5)]
  {
    PostedEvent();
    DeliverOne(BEGUN, DELIVERED, 3);
    DeliverOne(BEGUN, DELIVERED, 4);
    assert DELIVERED[..5] == DELIVERED;
  }

  /** A run from the request to the delivered row: the event is started, posted once, settled, without an issue. */
  lemma RelayDelivers()
    ensures var s := Exec(INIT, RECEIVED + STARTED + Work(0, DELIVERED));
            && |s.events| == 1 && s.api.firstStarts[0] == 1
            && !s.events[0].purged && s.events[0].runs != map[] && Delivery.AllReturned(s.events[0])
            && !Issues.IsOpen(s.events[0].issue)
            && s.events[0].rows == map[1 := Delivery.Row(Delivery.Delivered, Some(200), 5)]
  {
    AcceptedEvent();
    NoStartOrPurge();
    WorkedFrom(RECEIVED + STARTED, BEGUN, DELIVERED);
    DeliveredEvent();
    Settles(RECEIVED + STARTED + Work(0, DELIVERED));
  }

  lemma NoStartOrPurge()
    ensures forall i :: 0 <= i < |DELIVERED| ==> !DELIVERED[i].Start? && !DELIVERED[i].Purge?
  {
  }

  lemma WorkedFrom(steps: seq<Step>, d: Delivery.State, ds: seq<Delivery.Step>)
    requires Exec(INIT, steps).events == [d] && forall i :: 0 <= i < |ds| ==> !ds[i].Start? && !ds[i].Purge?
    ensures var s := Exec(INIT, steps + Work(0, ds));
            s.events == [Delivery.Exec(d, ds)] && s.api == Exec(INIT, steps).api
  {
    ExecConcat(INIT, steps, Work(0, ds));
    WorkersRunTheProtocol(Exec(INIT, steps), 0, ds);
  }

  lemma Settles(steps: seq<Step>)
    requires var s := Exec(INIT, steps);
             && |s.events| == 1 && !s.events[0].purged
             && s.events[0].runs.Keys == {FIRST_RUN} && s.events[0].runs[FIRST_RUN].pc == Delivery.Returned(true)
    ensures var s := Exec(INIT, steps);
            s.events[0].runs != map[] && Delivery.AllReturned(s.events[0]) && !Issues.IsOpen(s.events[0].issue)
  {
    var d := Exec(INIT, steps).events[0];
    assert FIRST_RUN in d.runs;
    SettledEvent(steps, 0);
  }
}
