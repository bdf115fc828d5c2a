/**
 Ingestion: deduplicated insert, acknowledgement, and the start of the first delivery,
 with any number of handlers interleaving, dying, or failing to start a workflow.
 */
module Ingest {
  import opened Prelude

  /** UNIQUE (connection_id, provider_event_id). */
  datatype Key = Key(connection: nat, provider: string)

  datatype Pc =
    | Inserting
    | Acking(won: Option<nat>)           // the event this handler inserted, or None for a duplicate
    | Starting(event: nat)               // acknowledged, first delivery not yet started
    | Finished(started: bool)
    | Refused                            // the insert answered with an error and so does the handler
    | Dead

  datatype Handler = Handler(key: Key, pc: Pc, acked: bool, inserted: Option<nat>)

  datatype State = State(
    rows: map<Key, nat>,                 // the events table through its unique index
    committed: seq<Key>,                 // event n is the n-th row ever committed
    handlers: map<nat, Handler>,
    author: map<nat, nat>,               // which handler inserted each event
    firstStarts: multiset<nat>)          // first deliveries started, by event

  const INIT := State(map[], [], map[], map[], multiset{})

  /** How the insert answers; the connection may break after the row was committed. */
  datatype Answer = Ok | Failed | CommittedButFailed

  datatype Step =
    | Request(handler: nat, key: Key)
    | Insert(handler: nat, answer: Answer)
    | Ack(handler: nat)
    | Start(handler: nat, ok: bool, started: bool)   // the call may fail after the workflow was started
    | Die(handler: nat)
    | Purge(key: Key)

  function Put(s: State, h: nat, handler: Handler): State {
    s.(handlers := s.handlers[h := handler])
  }

  function InsertStep(s: State, h: nat, answer: Answer): State {
    if h in s.handlers && s.handlers[h].pc.Inserting? then
      var x := s.handlers[h];
      if x.key in s.rows || answer == Failed then
        Put(s, h, x.(pc := if answer == Ok then Acking(None) else Refused))
      else
        var e := |s.committed|;
        Put(s, h, x.(pc := if answer == Ok then Acking(Some(e)) else Refused, inserted := Some(e)))
          .(rows := s.rows[x.key := e], committed := s.committed + [x.key], author := s.author[e := h])
    else s
  }

  function AckStep(s: State, h: nat): State {
    if h in s.handlers && s.handlers[h].pc.Acking? then
      var x := s.handlers[h];
      Put(s, h, x.(acked := true, pc := if x.pc.won.None? then Finished(false) else Starting(x.pc.won.value)))
    else s
  }

  function StartStep(s: State, h: nat, ok: bool, started: bool): State {
    if h in s.handlers && s.handlers[h].pc.Starting? then
      var e := s.handlers[h].pc.event;
      var happened := ok || started;
      Put(s, h, s.handlers[h].(pc := Finished(happened)))
        .(firstStarts := if happened then s.firstStarts + multiset{e} else s.firstStarts)
    else s
  }

  function Next(s: State, step: Step): State {
    match step
    case Request(h, key) => if h in s.handlers then s else Put(s, h, Handler(key, Inserting, false, None))
    case Insert(h, answer) => InsertStep(s, h, answer)
    case Ack(h) => AckStep(s, h)
    case Start(h, ok, started) => StartStep(s, h, ok, started)
    case Die(h) =>
      if h in s.handlers && !s.handlers[h].pc.Finished? && !s.handlers[h].pc.Refused?
      then Put(s, h, s.handlers[h].(pc := Dead)) else s
    case Purge(key) => s.(rows := s.rows - {key})
  }

  function Exec(s: State, steps: seq<Step>): State {
    if steps == [] then s else Next(Exec(s, steps[..|steps| - 1]), Last(steps))
  }

  // ---------------------------------------------------------------- the handler in one piece

  class Events {
    var rows: map<Key, nat>
    var count: nat
    var started: multiset<nat>

    ghost predicate Shows(s: State)
      reads this
    {
      rows == s.rows && count == |s.committed| && started == s.firstStarts
    }

    /** INSERT ... ON CONFLICT DO NOTHING RETURNING id; the caller sees the id only if the answer arrives. */
    method InsertEvent(key: Key, answer: Answer) returns (ok: bool, id: Option<nat>)
      modifies `rows, `count
      ensures ok <==> answer == Ok
      ensures id.Some? <==> key !in old(rows) && answer != Failed
      ensures id.None? ==> rows == old(rows) && count == old(count)
      ensures id.Some? ==> id.value == old(count) && rows == old(rows)[key := id.value] && count == old(count) + 1
    {
      ok, id := answer == Ok, None;
      if key !in rows && answer != Failed {
        id := Some(count);
        rows, count := rows[key := count], count + 1;
      }
    }

    /**
     The body of ingest after verification, run without interruption; `insert` and `ok` are
     what the callees answer, and `begun` whether a start that fails began all the same.
     */
    method Ingest(key: Key, insert: Answer, ok: bool, begun: bool, ghost h: nat, ghost s: State)
      returns (code: int, ghost steps: seq<Step>)
      requires Shows(s) && h !in s.handlers
      modifies this
      ensures Shows(Exec(s, steps))
      ensures h in Exec(s, steps).handlers && (Exec(s, steps).handlers[h].acked <==> code == 200)
      ensures code == if insert == Ok then 200 else 500
      ensures code == 200 ==> key in rows
      ensures key in rows <==> key in old(rows) || insert != Failed
      ensures started - old(started)
           == if insert == Ok && (ok || begun) && key !in old(rows) then multiset{old(count)} else multiset{}
    {
      steps := [Request(h, key), Insert(h, insert)];
      IngestEffect(s, h, key, insert, ok, begun);
      IngestAcks(s, h, key, insert, ok, begun);
      var inserted, id := InsertEvent(key, insert);
      if !inserted {
        return 500, steps;
      }
      code := 200;
      steps := steps + [Ack(h)];
      if id.None? {
        return;
      }
      if ok || begun {
        started := started + multiset{id.value};
      }
      steps := steps + [Start(h, ok, begun)];
    }
  }

  /** A handler's steps, run one after another. */
  lemma IngestEffect(s: State, h: nat, key: Key, insert: Answer, ok: bool, begun: bool)
    requires h !in s.handlers
    ensures var steps := [Request(h, key), Insert(h, insert)];
            var acked := steps + [Ack(h)];
            var e := |s.committed|;
            && (insert == Failed ==> SameTables(s, Exec(s, steps)))
            && (insert == CommittedButFailed ==>
                  var s' := Exec(s, steps);
                  && s'.firstStarts == s.firstStarts
                  && s'.rows == (if key in s.rows then s.rows else s.rows[key := e])
                  && |s'.committed| == if key in s.rows then e else e + 1)
            && (insert == Ok && key in s.rows ==> SameTables(s, Exec(s, acked)))
            && (insert == Ok && key !in s.rows ==>
                  var s' := Exec(s, acked + [Start(h, ok, begun)]);
                  && s'.rows == s.rows[key := e] && |s'.committed| == e + 1
                  && s'.firstStarts == if ok || begun then s.firstStarts + multiset{e} else s.firstStarts)
  {
    var steps := [Request(h, key), Insert(h, insert)];
    ExecTwo(s, steps[0], steps[1]);
    ExecAppend(s, steps, Ack(h));
    ExecAppend(s, steps + [Ack(h)], Start(h, ok, begun));
  }

  lemma IngestAcks(s: State, h: nat, key: Key, insert: Answer, ok: bool, begun: bool)
    requires h !in s.handlers
    ensures var steps := [Request(h, key), Insert(h, insert)];
            && (insert != Ok ==> Unacked(Exec(s, steps), h))
            && (insert == Ok ==> Acked(Exec(s, steps + [Ack(h)]), h))
            && (insert == Ok ==> Acked(Exec(s, steps + [Ack(h)] + [Start(h, ok, begun)]), h))
  {
    var steps := [Request(h, key), Insert(h, insert)];
    ExecTwo(s, steps[0], steps[1]);
    Answered(s, h, key, insert);
    ExecAppend(s, steps, Ack(h));
    ExecAppend(s, steps + [Ack(h)], Start(h, ok, begun));
    StartStaysAcked(Exec(s, steps + [Ack(h)]), h, ok, begun);
  }

  lemma Answered(s: State, h: nat, key: Key, insert: Answer)
    requires h !in s.handlers
    ensures var s' := Next(Next(s, Request(h, key)), Insert(h, insert));
            Unacked(s', h) && (insert == Ok ==> s'.handlers[h].pc.Acking?)
  {
  }

  lemma StartStaysAcked(s: State, h: nat, ok: bool, begun: bool)
    ensures Acked(s, h) ==> Acked(Next(s, Start(h, ok, begun)), h)
  {
  }

  predicate Acked(s: State, h: nat) {
    h in s.handlers && s.handlers[h].acked
  }

  predicate Unacked(s: State, h: nat) {
    h in s.handlers && !s.handlers[h].acked
  }

  predicate SameTables(s: State, s': State) {
    s'.rows == s.rows && s'.committed == s.committed && s'.firstStarts == s.firstStarts
  }

  lemma ExecAppend(s: State, steps: seq<Step>, step: Step)
    ensures Exec(s, steps + [step]) == Next(Exec(s, steps), step)
  {
    assert (steps + [step])[..|steps|] == steps;
  }

  lemma ExecTwo(s: State, a: Step, b: Step)
    ensures Exec(s, [a, b]) == Next(Next(s, a), b)
  {
    assert [a, b][..1] == [a] && [a][..0] == [];
    assert Exec(s, [a]) == Next(Exec(s, []), a);
  }

  // ---------------------------------------------------------------- every interleaving

  /** What a handler's fields say about the tables. */
  ghost predicate HandlerOk(x: Handler, h: nat, committed: seq<Key>, author: map<nat, nat>) {
    && (x.inserted.Some? ==> var e := x.inserted.value;
          e < |committed| && committed[e] == x.key && e in author && author[e] == h)
    && (x.acked ==> x.key in committed)
    && match x.pc
       case Inserting => !x.acked && x.inserted.None?
       case Acking(won) => !x.acked && x.inserted == won && x.key in committed
       case Starting(e) => x.acked && x.inserted == Some(e)
       case Finished(started) => x.acked && (started ==> x.inserted.Some?)
       case Refused => !x.acked
       case Dead => true
  }

  ghost predicate HandlersOk(s: State) {
    forall h :: h in s.handlers ==> HandlerOk(s.handlers[h], h, s.committed, s.author)
  }

  /** Every committed event has one inserting handler. */
  ghost predicate OwnersOk(s: State) {
    forall e :: e in s.author <==> 0 <= e < |s.committed|
  }

  ghost predicate Owned(s: State, e: nat) {
    e in s.author && s.author[e] in s.handlers && s.handlers[s.author[e]].inserted == Some(e)
  }

  ghost predicate OwnedOk(s: State) {
    && OwnersOk(s)
    && (forall e: nat :: e < |s.committed| ==> Owned(s, e))
    && (forall k :: k in s.rows ==> s.rows[k] < |s.committed| && s.committed[s.rows[k]] == k)
  }

  /** The event was started exactly if its inserting handler finished by starting it. */
  ghost predicate StartsOk(s: State) {
    && (forall e :: e in s.firstStarts ==> e < |s.committed|)
    && (forall e: nat :: e < |s.committed| && Owned(s, e) ==>
          s.firstStarts[e] == if s.handlers[s.author[e]].pc == Finished(true) then 1 else 0)
  }

  ghost predicate Inv(s: State) {
    HandlersOk(s) && OwnedOk(s) && StartsOk(s)
  }

  predicate Acts(step: Step, h: nat) {
    !step.Purge? && step.handler == h
  }

  /** What every step leaves alone. */
  ghost predicate Grows(s: State, step: Step, s': State) {
    && s.committed <= s'.committed
    && s.handlers.Keys <= s'.handlers.Keys
    && (forall h :: h in s'.handlers && !Acts(step, h) ==> h in s.handlers && s'.handlers[h] == s.handlers[h])
    && (forall h :: h in s.handlers && s.handlers[h].inserted.Some? ==>
          s'.handlers[h].inserted == s.handlers[h].inserted)
    && (forall e :: e in s.author && e < |s.committed| ==> e in s'.author && s'.author[e] == s.author[e])
  }

  lemma StepGrows(s: State, step: Step)
    requires HandlersOk(s) && OwnersOk(s)
    ensures Grows(s, step, Next(s, step))
  {
    if step.Insert? { InsertGrows(s, step); }
  }

  lemma InsertGrows(s: State, step: Step)
    requires HandlersOk(s) && OwnersOk(s) && step.Insert?
    ensures Grows(s, step, InsertStep(s, step.handler, step.answer))
  {
  }

  lemma ActorKept(s: State, step: Step, h: nat)
    requires HandlersOk(s) && OwnedOk(s) && Acts(step, h) && h in Next(s, step).handlers
    ensures var s' := Next(s, step); HandlerOk(s'.handlers[h], h, s'.committed, s'.author)
  {
    if h in s.handlers {
      assert HandlerOk(s.handlers[h], h, s.committed, s.author);
      if step.Insert? && s.handlers[h].key in s.rows {
        assert s.committed[s.rows[s.handlers[h].key]] == s.handlers[h].key;
      }
    }
  }

  lemma HandlersKept(s: State, step: Step)
    requires HandlersOk(s) && OwnedOk(s)
    ensures HandlersOk(Next(s, step))
  {
    var s' := Next(s, step);
    StepGrows(s, step);
    forall h | h in s'.handlers ensures HandlerOk(s'.handlers[h], h, s'.committed, s'.author) {
      if Acts(step, h) { ActorKept(s, step, h); }
    }
  }

  lemma OwnedKept(s: State, step: Step)
    requires HandlersOk(s) && OwnedOk(s)
    ensures OwnedOk(Next(s, step))
  {
    var s' := Next(s, step);
    StepGrows(s, step);
    if step.Insert? { InsertOwned(s, step.handler, step.answer); }
    forall e: nat | e < |s'.committed| ensures Owned(s', e) {
      if e < |s.committed| { OwnerStays(s, step, s', e); }
    }
  }

  lemma OwnerStays(s: State, step: Step, s': State, e: nat)
    requires Grows(s, step, s') && OwnersOk(s) && e < |s.committed| && Owned(s, e)
    ensures Owned(s', e) && s'.author[e] == s.author[e]
  {
  }

  lemma InsertOwned(s: State, h: nat, answer: Answer)
    requires OwnedOk(s)
    ensures var s' := InsertStep(s, h, answer);
            && OwnersOk(s')
            && (|s'.committed| > |s.committed| ==> |s'.committed| == |s.committed| + 1 && Owned(s', |s.committed|))
            && (forall k :: k in s'.rows ==> s'.rows[k] < |s'.committed| && s'.committed[s'.rows[k]] == k)
  {
  }

  lemma StartsKept(s: State, step: Step)
    requires HandlersOk(s) && OwnedOk(s) && StartsOk(s)
    ensures StartsOk(Next(s, step))
  {
    var s' := Next(s, step);
    StepGrows(s, step);
    assert forall e :: e in s'.firstStarts ==> e < |s'.committed| by { NewStart(s, step); }
    forall e: nat | e < |s'.committed| && Owned(s', e)
      ensures s'.firstStarts[e] == if s'.handlers[s'.author[e]].pc == Finished(true) then 1 else 0
    {
      if e < |s.committed| {
        assert Owned(s, e);
        OwnerStays(s, step, s', e);
        EventKept(s, step, e);
      } else {
        FreshEvent(s, step);
      }
    }
  }

  /** A start is of an event its handler inserted. */
  lemma NewStart(s: State, step: Step)
    requires HandlersOk(s) && (forall e :: e in s.firstStarts ==> e < |s.committed|)
    ensures forall e :: e in Next(s, step).firstStarts ==> e < |Next(s, step).committed|
  {
    if step.Start? && step.handler in s.handlers {
      assert HandlerOk(s.handlers[step.handler], step.handler, s.committed, s.author);
    }
  }

  lemma EventKept(s: State, step: Step, e: nat)
    requires HandlersOk(s) && e < |s.committed| && Owned(s, e)
    requires s.firstStarts[e] == if s.handlers[s.author[e]].pc == Finished(true) then 1 else 0
    ensures var s' := Next(s, step);
            && s.author[e] in s'.handlers
            && s'.firstStarts[e] == if s'.handlers[s.author[e]].pc == Finished(true) then 1 else 0
  {
    assert HandlerOk(s.handlers[s.author[e]], s.author[e], s.committed, s.author);
    if step.Start? && step.handler in s.handlers {
      assert HandlerOk(s.handlers[step.handler], step.handler, s.committed, s.author);
    }
  }

  lemma FreshEvent(s: State, step: Step)
    requires |Next(s, step).committed| > |s.committed| && StartsOk(s)
    ensures var s' := Next(s, step); var e := |s.committed|;
            && |s'.committed| == e + 1 && s'.firstStarts[e] == 0
            && e in s'.author && s'.author[e] in s'.handlers && s'.handlers[s'.author[e]].pc != Finished(true)
  {
  }

  lemma InvKept(s: State, step: Step)
    requires Inv(s)
    ensures Inv(Next(s, step))
  {
    HandlersKept(s, step);
    OwnedKept(s, step);
    StartsKept(s, step);
  }

  lemma {:induction false} InvAlways(steps: seq<Step>)
    ensures Inv(Exec(INIT, steps))
    decreases |steps|
  {
    if steps != [] {
      InvAlways(steps[..|steps| - 1]);
      InvKept(Exec(INIT, steps[..|steps| - 1]), Last(steps));
    }
  }

  /** The provider is told 200 only after a row with its key was committed. */
  lemma AckFollowsCommit(steps: seq<Step>, h: nat)
    requires h in Exec(INIT, steps).handlers && Exec(INIT, steps).handlers[h].acked
    ensures Exec(INIT, steps).handlers[h].key in Exec(INIT, steps).committed
  {
    InvAlways(steps);
  }

  /** No event stands under two keys; that a key has one row is the unique index itself. */
  lemma EventUnderOneKey(steps: seq<Step>, k1: Key, k2: Key)
    requires var s := Exec(INIT, steps); k1 in s.rows && k2 in s.rows && s.rows[k1] == s.rows[k2]
    ensures k1 == k2
  {
    InvAlways(steps);
  }

  /**
   A committed event has at most one first-delivery start, and none exactly when the
   handler that inserted it has not reached the start, died before it, was told its insert
   failed, or had its start fail.
   */
  lemma StartedOnceOrLost(steps: seq<Step>, e: nat)
    requires e < |Exec(INIT, steps).committed|
    ensures var s := Exec(INIT, steps);
            && Owned(s, e) && s.firstStarts[e] <= 1
            && var x := s.handlers[s.author[e]];
               s.firstStarts[e] == 0 <==>
                 x.pc.Acking? || x.pc.Starting? || x.pc == Finished(false) || x.pc.Refused? || x.pc.Dead?
  {
    InvAlways(steps);
    var s := Exec(INIT, steps);
    assert Owned(s, e);
    assert HandlerOk(s.handlers[s.author[e]], s.author[e], s.committed, s.author);
  }

  /** The handler is done with its event and did not start it. */
  ghost predicate Over(x: Handler) {
    x.pc.Dead? || x.pc.Refused? || x.pc == Finished(false)
  }

  ghost predicate Lost(s: State, e: nat) {
    e < |s.committed| && e in s.author && s.author[e] in s.handlers && Over(s.handlers[s.author[e]])
  }

  /** No later request, duplicate or otherwise, repairs a lost event. */
  lemma LostStays(s: State, step: Step, e: nat)
    requires Inv(s) && Lost(s, e)
    ensures Lost(Next(s, step), e) && e !in Next(s, step).firstStarts
  {
    StepGrows(s, step);
    OverStays(s, step, s.author[e]);
    InvKept(s, step);
    assert Owned(Next(s, step), e);
  }

  lemma OverStays(s: State, step: Step, h: nat)
    requires h in s.handlers && Over(s.handlers[h])
    ensures h in Next(s, step).handlers && Over(Next(s, step).handlers[h])
  {
  }
}
