/**
 The delivery protocol of one event: any number of workflow runs (the first
 delivery and its replays) posting to the destination, recording attempts,
 opening and resolving the event's issue, and interleaving statement by statement.
 */
module Delivery {
  import opened Prelude
  import opened Digits
  import Issues

  /** How one delivery attempt ended. */
  datatype Outcome =
    | NoRequest                              // the request could not even be built
    | TransportError(message: string, latency: int)
    | Response(code: int, latency: int)

  predicate Success(o: Outcome) {
    o.Response? && 200 <= o.code < 300
  }

  /** The reason a failed attempt gives to its issue. */
  function Reason(o: Outcome): (r: string)
    requires !o.NoRequest?
    ensures !Issues.IsGeneric(r)
  {
    assert Issues.GENERIC_REASON[0] == 'D';
    match o
    case TransportError(m, _) => "delivery failed: " + m
    case Response(code, _) => "destination returned " + Decimal(code)
  }

  datatype RowStatus = Delivered | Failed

  datatype Row = Row(status: RowStatus, code: Option<int>, latency: int)

  function RowOf(o: Outcome): Row
    requires !o.NoRequest?
  {
    match o
    case TransportError(_, latency) => Row(Failed, None, latency)
    case Response(code, latency) => Row(if Success(o) then Delivered else Failed, Some(code), latency)
  }

  /** Where a workflow run stands between two atomic steps. */
  datatype Pc =
    | Loading
    | Trying(attempt: int)
    | Fetched(attempt: int)                  // event read, waiting for a slot or for the answer
    | Posted(attempt: int, post: nat)        // request answered, row not yet inserted
    | Noting(attempt: int, post: nat)        // failed attempt, issue not yet noted
    | Resolving
    | Exhausting
    | Returned(delivered: bool)
    | Errored

  datatype Run = Run(max: int, pc: Pc, outcomes: seq<Outcome>)

  /** What became of the row a POST tried to insert. */
  datatype Fate = Unsaved | Saved | Conflict | InsertError

  datatype Post = Post(run: nat, attempt: int, outcome: Outcome, fate: Fate)

  /** One committed statement on the issues table. */
  datatype Entry = Entry(run: nat, terminal: bool, op: Issues.Op)

  datatype State = State(
    connection: nat,
    purged: bool,
    rows: map<int, Row>,                     // deliveries of this event, by attempt number
    writer: map<int, nat>,                   // which POST wrote each of those rows
    issue: Option<Issues.Issue>,
    runs: map<nat, Run>,
    posts: seq<Post>,
    log: seq<Entry>)

  function Init(connection: nat): State {
    State(connection, false, map[], map[], None, map[], [], [])
  }

  datatype Step =
    | Start(run: nat)
    | Load(run: nat, max: int)
    | Fetch(run: nat)
    | Attempt(run: nat, outcome: Outcome)
    | InsertRow(run: nat, ok: bool)
    | NoteIssue(run: nat, ok: bool, now: Time)
    | Finish(run: nat, committed: bool, acked: bool, now: Time)
    | Fail(run: nat)                         // an activity errors, times out or its worker dies
    | Purge

  function FirstPc(max: int): Pc {
    if 1 <= max then Trying(1) else Exhausting
  }

  function After(attempt: int, max: int): Pc {
    if attempt < max then Trying(attempt + 1) else Exhausting
  }

  function Put(s: State, r: nat, run: Run): State {
    s.(runs := s.runs[r := run])
  }

  /** Commits one statement on the issues table; the foreign key refuses it once the event is gone. */
  function Commit(s: State, r: nat, terminal: bool, op: Issues.Op): State {
    s.(issue := if s.purged then None else Issues.Apply(s.issue, op),
       log := if s.purged then s.log else s.log + [Entry(r, terminal, op)])
  }

  function Noted(s: State, attempt: int, o: Outcome, now: Time): Issues.Op
    requires !o.NoRequest?
  {
    Issues.Record(Issues.Failure(s.connection, Reason(o), attempt, now))
  }

  function Exhausted(s: State, max: int, now: Time): Issues.Op {
    Issues.Record(Issues.Failure(s.connection, Issues.GENERIC_REASON, max, now))
  }

  /** A step the program cannot take leaves the state as it is. */
  function Next(s: State, step: Step): State {
    match step
    case Start(r) => if r in s.runs then s else Put(s, r, Run(0, Loading, []))
    case Load(r, max) => LoadStep(s, r, max)
    case Fetch(r) =>
      if r in s.runs && s.runs[r].pc.Trying? && !s.purged
      then Put(s, r, s.runs[r].(pc := Fetched(s.runs[r].pc.attempt))) else s
    case Attempt(r, o) => AttemptStep(s, r, o)
    case InsertRow(r, ok) => InsertStep(s, r, ok)
    case NoteIssue(r, ok, now) => NoteStep(s, r, ok, now)
    case Finish(r, committed, acked, now) => FinishStep(s, r, committed, acked, now)
    case Fail(r) => if r in s.runs && !s.runs[r].pc.Returned? then Put(s, r, s.runs[r].(pc := Errored)) else s
    case Purge => s.(purged := true, rows := map[], writer := map[], issue := None, log := [])
  }

  function LoadStep(s: State, r: nat, max: int): State {
    if r in s.runs && s.runs[r].pc.Loading? && !s.purged
    then Put(s, r, Run(max, FirstPc(max), []))
    else s
  }

  /** The POST, or the failure to build one; a purge since the event was read does not stop it. */
  function AttemptStep(s: State, r: nat, o: Outcome): State {
    if r in s.runs && s.runs[r].pc.Fetched? then
      var run := s.runs[r];
      var a := run.pc.attempt;
      if o.NoRequest? then Put(s, r, Run(run.max, After(a, run.max), run.outcomes + [o]))
      else Put(s, r, Run(run.max, Posted(a, |s.posts|), run.outcomes + [o]))
             .(posts := s.posts + [Post(r, a, o, Unsaved)])
    else s
  }

  function FateOf(s: State, a: int, ok: bool): Fate {
    if a in s.rows then Conflict else if ok && !s.purged then Saved else InsertError
  }

  /** INSERT INTO deliveries, whose error the caller ignores. */
  function InsertStep(s: State, r: nat, ok: bool): State {
    if r in s.runs && s.runs[r].pc.Posted? && s.runs[r].pc.post < |s.posts|
       && !s.posts[s.runs[r].pc.post].outcome.NoRequest?
    then
      var a, p := s.runs[r].pc.attempt, s.runs[r].pc.post;
      var post, fate := s.posts[p], FateOf(s, a, ok);
      s.(runs := s.runs[r := s.runs[r].(pc := if Success(post.outcome) then Resolving else Noting(a, p))],
         posts := s.posts[p := post.(fate := fate)],
         rows := if fate == Saved then s.rows[a := RowOf(post.outcome)] else s.rows,
         writer := if fate == Saved then s.writer[a := p] else s.writer)
    else s
  }

  function NoteStep(s: State, r: nat, ok: bool, now: Time): State {
    if r in s.runs && s.runs[r].pc.Noting? && s.runs[r].pc.post < |s.posts|
       && !s.posts[s.runs[r].pc.post].outcome.NoRequest?
    then
      var run := s.runs[r];
      var s' := Put(s, r, run.(pc := After(run.pc.attempt, run.max)));
      if ok then Commit(s', r, false, Noted(s, run.pc.attempt, s.posts[run.pc.post].outcome, now)) else s'
    else s
  }

  /** The workflow's last activity: RecordDelivered or RecordIssue. It may commit and still report an error. */
  function FinishStep(s: State, r: nat, committed: bool, acked: bool, now: Time): State {
    if r in s.runs && (s.runs[r].pc.Resolving? || s.runs[r].pc.Exhausting?) then
      var run := s.runs[r];
      var delivered := run.pc.Resolving?;
      var ok := committed && acked && (delivered || !s.purged);
      var s' := Put(s, r, run.(pc := if ok then Returned(delivered) else Errored));
      if committed
      then Commit(s', r, true, if delivered then Issues.ResolveAt(now) else Exhausted(s, run.max, now))
      else s'
    else s
  }

  function Exec(s: State, steps: seq<Step>): State {
    if steps == [] then s else Next(Exec(s, steps[..|steps| - 1]), Last(steps))
  }

  lemma ExecAppend(s: State, steps: seq<Step>, step: Step)
    ensures Exec(s, steps + [step]) == Next(Exec(s, steps), step)
  {
    assert (steps + [step])[..|steps|] == steps;
  }

  ghost predicate Ended(run: Run) {
    run.pc.Returned? || run.pc.Errored?
  }

  /** Entry i of the log is the terminal statement of the finished run r. */
  ghost predicate CommittedBy(s: State, r: nat, i: int) {
    && 0 <= i < |s.log| && s.log[i].run == r && s.log[i].terminal && r in s.runs
    && s.runs[r].pc.Returned?
    && s.log[i].op.Record? == !s.runs[r].pc.delivered
  }

  /** What any step may do to the runs and to the log, whatever else it does. */
  ghost predicate Framed(s: State, step: Step, s': State) {
    && s.runs.Keys <= s'.runs.Keys
    && (forall r :: r in s'.runs && (step.Purge? || r != step.run) ==> r in s.runs && s'.runs[r] == s.runs[r])
    && (forall r :: r in s.runs && Ended(s.runs[r]) ==> s'.runs[r] == s.runs[r])
    && (s.purged ==> s'.purged)
    && (|| s'.log == s.log
        || (s'.purged && s'.log == [])
        || (!step.Purge? && step.run in s.runs && !Ended(s.runs[step.run])
            && |s'.log| > 0 && s'.log == s.log + [Last(s'.log)] && Last(s'.log).run == step.run
            && (Last(s'.log).terminal ==> Ended(s'.runs[step.run]))))
    && (!s'.purged && !step.Purge? && step.run in s'.runs && s'.runs[step.run].pc.Returned?
        && (step.run in s.runs ==> !s.runs[step.run].pc.Returned?)
        ==> |s'.log| > |s.log| && CommittedBy(s', step.run, |s.log|))
  }

  lemma StepFramed(s: State, step: Step)
    ensures Framed(s, step, Next(s, step))
  {
    match step {
      case NoteIssue(_, _, _) => NoteFramed(s, step);
      case Finish(_, _, _, _) => FinishFramed(s, step);
      case InsertRow(_, _) => InsertFramed(s, step);
      case Attempt(_, _) => AttemptFramed(s, step);
      case _ =>
    }
  }

  lemma AttemptFramed(s: State, step: Step)
    requires step.Attempt?
    ensures Framed(s, step, AttemptStep(s, step.run, step.outcome))
  {
  }

  lemma NoteFramed(s: State, step: Step)
    requires step.NoteIssue?
    ensures Framed(s, step, NoteStep(s, step.run, step.ok, step.now))
  {
  }

  lemma FinishFramed(s: State, step: Step)
    requires step.Finish?
    ensures Framed(s, step, FinishStep(s, step.run, step.committed, step.acked, step.now))
  {
  }

  lemma InsertFramed(s: State, step: Step)
    requires step.InsertRow?
    ensures Framed(s, step, InsertStep(s, step.run, step.ok))
  {
  }

  // ---------------------------------------------------------------- one run

  ghost predicate FailedUpTo(run: Run, k: int)
    requires k <= |run.outcomes|
  {
    forall i :: 0 <= i < k ==> !Success(run.outcomes[i])
  }

  function Max0(n: int): nat { if n < 0 then 0 else n }

  /** Attempts are numbered 1..k without gaps: entry i of `outcomes` is attempt i + 1. */
  ghost predicate RunOk(run: Run) {
    var n := |run.outcomes|;
    match run.pc
    case Loading => n == 0
    case Trying(a) => 1 <= a <= run.max && n == a - 1 && FailedUpTo(run, n)
    case Fetched(a) => 1 <= a <= run.max && n == a - 1 && FailedUpTo(run, n)
    case Posted(a, _) => 1 <= a <= run.max && n == a && FailedUpTo(run, n - 1)
    case Noting(a, _) => 1 <= a <= run.max && n == a && FailedUpTo(run, n)
    case Resolving => 1 <= n <= run.max && FailedUpTo(run, n - 1) && Success(run.outcomes[n - 1])
    case Exhausting => n == Max0(run.max) && FailedUpTo(run, n)
    case Returned(delivered) =>
      if delivered then 1 <= n <= run.max && FailedUpTo(run, n - 1) && Success(run.outcomes[n - 1])
      else n == Max0(run.max) && FailedUpTo(run, n)
    case Errored => n <= Max0(run.max) && (n > 0 ==> FailedUpTo(run, n - 1))
  }

  /** A run that waits for its row or its note points at its own last POST. */
  ghost predicate PostOk(s: State, r: nat)
    requires r in s.runs
  {
    var run := s.runs[r];
    run.pc.Posted? || run.pc.Noting? ==>
      && run.pc.post < |s.posts|
      && |run.outcomes| > 0
      && var post := s.posts[run.pc.post];
         post.run == r && post.attempt == run.pc.attempt && post.outcome == Last(run.outcomes)
         && !post.outcome.NoRequest? && (run.pc.Posted? ==> post.fate == Unsaved)
  }

  ghost predicate RunsOk(s: State) {
    forall r :: r in s.runs ==> RunOk(s.runs[r]) && PostOk(s, r)
  }

  lemma RunsKept(s: State, step: Step)
    requires RunsOk(s)
    ensures RunsOk(Next(s, step))
  {
    var s' := Next(s, step);
    StepFramed(s, step);
    if !step.Purge? && step.run in s'.runs {
      if step.run in s.runs { assert RunOk(s.runs[step.run]) && PostOk(s, step.run); }
      OwnRunKept(s, step);
    }
    forall r | r in s'.runs && (step.Purge? || r != step.run) ensures RunOk(s'.runs[r]) && PostOk(s', r) {
      assert RunOk(s.runs[r]) && PostOk(s, r);
      OtherPostKept(s, step, r);
    }
  }

  lemma OwnRunKept(s: State, step: Step)
    requires !step.Purge? && (step.run in s.runs ==> RunOk(s.runs[step.run]) && PostOk(s, step.run))
    requires step.run in Next(s, step).runs
    ensures RunOk(Next(s, step).runs[step.run]) && PostOk(Next(s, step), step.run)
  {
    if step.run in s.runs {
      match step {
        case Attempt(r, o) => AttemptKeepsRun(s, r, o);
        case InsertRow(r, ok) => InsertKeepsRun(s, r, ok);
        case NoteIssue(r, ok, now) => NoteKeepsRun(s, r, ok, now);
        case Finish(r, committed, acked, now) => FinishKeepsRun(s, r, committed, acked, now);
        case _ =>
      }
    }
  }

  lemma AttemptKeepsRun(s: State, r: nat, o: Outcome)
    requires r in s.runs && RunOk(s.runs[r]) && PostOk(s, r)
    ensures var s' := AttemptStep(s, r, o); RunOk(s'.runs[r]) && PostOk(s', r)
  {
  }

  lemma InsertKeepsRun(s: State, r: nat, ok: bool)
    requires r in s.runs && RunOk(s.runs[r]) && PostOk(s, r)
    ensures var s' := InsertStep(s, r, ok); RunOk(s'.runs[r]) && PostOk(s', r)
  {
  }

  lemma NoteKeepsRun(s: State, r: nat, ok: bool, now: Time)
    requires r in s.runs && RunOk(s.runs[r]) && PostOk(s, r)
    ensures var s' := NoteStep(s, r, ok, now); RunOk(s'.runs[r]) && PostOk(s', r)
  {
  }

  lemma FinishKeepsRun(s: State, r: nat, committed: bool, acked: bool, now: Time)
    requires r in s.runs && RunOk(s.runs[r]) && PostOk(s, r)
    ensures var s' := FinishStep(s, r, committed, acked, now); RunOk(s'.runs[r]) && PostOk(s', r)
  {
  }

  lemma OtherPostKept(s: State, step: Step, r: nat)
    requires r in s.runs && PostOk(s, r) && (step.Purge? || r != step.run)
    requires !step.Purge? && step.run in s.runs ==> PostOk(s, step.run)
    requires r in Next(s, step).runs && Next(s, step).runs[r] == s.runs[r]
    ensures PostOk(Next(s, step), r)
  {
  }

  // ---------------------------------------------------------------- the issue

  function Ops(log: seq<Entry>): (ops: seq<Issues.Op>)
    ensures |ops| == |log|
  {
    seq(|log|, i requires 0 <= i < |log| => log[i].op)
  }

  lemma OpsAppend(log: seq<Entry>, e: Entry)
    ensures Ops(log + [e]) == Ops(log) + [e.op]
  {
  }

  /** The stored row is the fold of the committed statements. */
  ghost predicate IssueOk(s: State) {
    && s.issue == Issues.Replay(Ops(s.log))
    && (s.purged ==> s.log == [] && s.rows == map[])
  }

  lemma IssueKept(s: State, step: Step)
    requires IssueOk(s)
    ensures IssueOk(Next(s, step))
  {
    match step {
      case NoteIssue(r, ok, now) =>
        if NoteStep(s, r, ok, now).log != s.log { CommitKept(s, Last(NoteStep(s, r, ok, now).log)); }
      case Finish(r, committed, acked, now) =>
        var s' := FinishStep(s, r, committed, acked, now);
        if s'.log != s.log { CommitKept(s, Last(s'.log)); }
      case _ =>
    }
  }

  lemma CommitKept(s: State, e: Entry)
    requires IssueOk(s)
    ensures Issues.Replay(Ops(s.log + [e])) == Issues.Apply(s.issue, e.op)
  {
    OpsAppend(s.log, e);
    Issues.ReplayAppend(Ops(s.log), e.op);
  }

  /** The terminal statement of a run, if committed, is the last the run ever commits. */
  ghost predicate TerminalLast(s: State) {
    && (forall i :: 0 <= i < |s.log| ==> s.log[i].run in s.runs)
    && (forall i, j :: 0 <= i < j < |s.log| && s.log[i].run == s.log[j].run ==> !s.log[i].terminal)
    && (forall i :: 0 <= i < |s.log| && s.log[i].terminal ==> Ended(s.runs[s.log[i].run]))
  }

  ghost predicate TerminalThere(s: State) {
    !s.purged ==> forall r :: r in s.runs && s.runs[r].pc.Returned? ==> exists i :: CommittedBy(s, r, i)
  }

  lemma TerminalLastKept(s: State, step: Step, s': State)
    requires TerminalLast(s) && Framed(s, step, s')
    ensures TerminalLast(s')
  {
  }

  lemma TerminalThereKept(s: State, step: Step, s': State)
    requires TerminalThere(s) && Framed(s, step, s')
    ensures TerminalThere(s')
  {
    if !s'.purged {
      forall r | r in s'.runs && s'.runs[r].pc.Returned? ensures exists i :: CommittedBy(s', r, i) {
        if r in s.runs && s.runs[r].pc.Returned? {
          var i :| CommittedBy(s, r, i);
          assert CommittedBy(s', r, i);
        } else {
          assert CommittedBy(s', r, |s.log|);
        }
      }
    }
  }

  /** An exhausted run has left its mark: GREATEST never lets the attempts go back below it. */
  ghost predicate MarkLeft(s: State) {
    !s.purged ==> forall r :: r in s.runs && s.runs[r].pc == Returned(false) ==>
      s.issue.Some? && s.runs[r].max <= s.issue.value.attempts
  }

  lemma MarkKept(s: State, step: Step)
    requires MarkLeft(s)
    ensures MarkLeft(Next(s, step))
  {
  }

  // ---------------------------------------------------------------- delivery rows

  /** Every row has one author, and a POST was saved exactly when it is the author of its row. */
  ghost predicate RowsOk(s: State) {
    && s.writer.Keys == s.rows.Keys
    && (forall a :: a in s.rows ==> Authored(s, a))
    && (forall p :: 0 <= p < |s.posts| ==> PostFate(s, p))
  }

  ghost predicate Authored(s: State, a: int) {
    && a in s.rows && a in s.writer
    && var p := s.writer[a];
       p < |s.posts| && s.posts[p].attempt == a && s.posts[p].fate == Saved
       && !s.posts[p].outcome.NoRequest? && s.rows[a] == RowOf(s.posts[p].outcome)
  }

  ghost predicate PostFate(s: State, p: nat)
    requires p < |s.posts|
  {
    var post := s.posts[p];
    && !post.outcome.NoRequest?
    && (!s.purged && post.fate == Saved ==> post.attempt in s.writer && s.writer[post.attempt] == p)
    && (!s.purged && post.fate == Conflict ==> post.attempt in s.writer && s.writer[post.attempt] != p)
  }

  lemma RowsKept(s: State, step: Step)
    requires RowsOk(s) && RunsOk(s) && IssueOk(s)
    ensures RowsOk(Next(s, step))
  {
    if step.InsertRow? {
      if step.run in s.runs { assert PostOk(s, step.run); }
      InsertKept(s, step.run, step.ok);
    } else {
      var s' := Next(s, step);
      forall p | 0 <= p < |s'.posts| ensures PostFate(s', p) { if p < |s.posts| { assert PostFate(s, p); } }
      forall a | a in s'.rows ensures Authored(s', a) { assert Authored(s, a); }
    }
  }

  lemma InsertKept(s: State, r: nat, ok: bool)
    requires RowsOk(s) && (r in s.runs ==> PostOk(s, r))
    ensures RowsOk(InsertStep(s, r, ok))
  {
    var s' := InsertStep(s, r, ok);
    forall p | 0 <= p < |s'.posts| ensures PostFate(s', p) { assert PostFate(s, p); }
    forall a | a in s'.rows ensures Authored(s', a) { if a in s.rows { assert Authored(s, a); } }
  }

  // ---------------------------------------------------------------- every run of the protocol

  ghost predicate Inv(s: State) {
    RunsOk(s) && IssueOk(s) && TerminalLast(s) && TerminalThere(s) && MarkLeft(s) && RowsOk(s)
  }

  lemma InvKept(s: State, step: Step)
    requires Inv(s)
    ensures Inv(Next(s, step))
  {
    RunsKept(s, step);
    IssueKept(s, step);
    StepFramed(s, step);
    TerminalLastKept(s, step, Next(s, step));
    TerminalThereKept(s, step, Next(s, step));
    MarkKept(s, step);
    RowsKept(s, step);
  }

  lemma {:induction false} InvFrom(s: State, steps: seq<Step>)
    requires Inv(s)
    ensures Inv(Exec(s, steps))
  {
    if steps != [] {
      InvFrom(s, steps[..|steps| - 1]);
      InvKept(Exec(s, steps[..|steps| - 1]), Last(steps));
    }
  }

  lemma InvAlways(connection: nat, steps: seq<Step>)
    ensures Inv(Exec(Init(connection), steps))
  {
    InvFrom(Init(connection), steps);
  }

  ghost predicate AllReturned(s: State) {
    forall r :: r in s.runs ==> s.runs[r].pc.Returned?
  }

  /**
   Once every run of an unpurged event has returned without error, the last statement
   on the issue is some run's terminal one, and the issue is open exactly when that
   statement was RecordIssue, however the runs interleaved.
   */
  lemma LastTerminalDecides(connection: nat, steps: seq<Step>)
    requires var s := Exec(Init(connection), steps); !s.purged && AllReturned(s) && s.runs != map[]
    ensures var s := Exec(Init(connection), steps);
            && |s.log| > 0 && Last(s.log).terminal
            && CommittedBy(s, Last(s.log).run, |s.log| - 1)
            && (Issues.IsOpen(s.issue) <==> Last(s.log).op.Record?)
            && (Issues.IsOpen(s.issue) <==> !s.runs[Last(s.log).run].pc.delivered)
  {
    InvAlways(connection, steps);
    LastIsTerminal(Exec(Init(connection), steps));
  }

  lemma LastIsTerminal(s: State)
    requires TerminalLast(s) && TerminalThere(s) && IssueOk(s) && !s.purged && AllReturned(s) && s.runs != map[]
    ensures |s.log| > 0 && CommittedBy(s, Last(s.log).run, |s.log| - 1)
    ensures Issues.IsOpen(s.issue) <==> Last(s.log).op.Record?
  {
    var r0 :| r0 in s.runs;
    var i0 :| CommittedBy(s, r0, i0);
    var i :| CommittedBy(s, Last(s.log).run, i);
    assert i == |s.log| - 1;
    StatusOfLast(Ops(s.log));
  }

  lemma StatusOfLast(ops: seq<Issues.Op>)
    requires ops != []
    ensures Issues.IsOpen(Issues.Replay(ops)) <==> Last(ops).Record?
  {
  }

  lemma AllDeliveredLeavesNoOpenIssue(connection: nat, steps: seq<Step>)
    requires var s := Exec(Init(connection), steps);
             !s.purged && s.runs != map[] && forall r :: r in s.runs ==> s.runs[r].pc == Returned(true)
    ensures !Issues.IsOpen(Exec(Init(connection), steps).issue)
  {
    LastTerminalDecides(connection, steps);
  }

  lemma AllExhaustedLeavesOpenIssue(connection: nat, steps: seq<Step>)
    requires var s := Exec(Init(connection), steps);
             !s.purged && s.runs != map[] && forall r :: r in s.runs ==> s.runs[r].pc == Returned(false)
    ensures Issues.IsOpen(Exec(Init(connection), steps).issue)
  {
    LastTerminalDecides(connection, steps);
  }

  /**
   A run makes at most `max` attempts, numbered 1..k; it returns "delivered" exactly after
   a first response with a code in 200..299, and "exhausted" after `max` attempts without
   one, and then the issue's attempts never fall below `max` as long as the event is kept.
   */
  lemma RunShape(connection: nat, steps: seq<Step>, r: nat)
    requires r in Exec(Init(connection), steps).runs
    ensures var s := Exec(Init(connection), steps); var run := s.runs[r]; var k := |run.outcomes|;
            && k <= Max0(run.max)
            && (forall i :: 0 <= i < k - 1 ==> !(run.outcomes[i].Response? && 200 <= run.outcomes[i].code <= 299))
            && (run.pc == Returned(true) ==>
                  k > 0 && run.outcomes[k - 1].Response? && 200 <= run.outcomes[k - 1].code <= 299)
            && (run.pc == Returned(false) ==>
                  && k == Max0(run.max)
                  && forall i :: 0 <= i < k ==> !(run.outcomes[i].Response? && 200 <= run.outcomes[i].code <= 299))
            && (run.pc == Returned(false) && !s.purged ==> s.issue.Some? && run.max <= s.issue.value.attempts)
  {
    InvAlways(connection, steps);
    assert RunOk(Exec(Init(connection), steps).runs[r]);
  }

  /** The statement that lets a run return leaves the issue resolved, or open with all its attempts. */
  lemma ReturnSettlesIssue(s: State, step: Step)
    requires var s' := Next(s, step);
             && step.Finish? && step.run in s.runs
             && !s.runs[step.run].pc.Returned? && s'.runs[step.run].pc.Returned?
    ensures var s' := Next(s, step); var run := s'.runs[step.run];
            && (run.pc.delivered ==> !Issues.IsOpen(s'.issue))
            && (run.pc.delivered && !s.purged && Issues.IsOpen(s.issue) ==>
                  s'.issue == Some(s.issue.value.(status := Issues.Resolved, resolvedAt := Some(step.now))))
            && (!run.pc.delivered ==> Issues.IsOpen(s'.issue) && run.max <= s'.issue.value.attempts)
            && (!run.pc.delivered && s.issue.None? ==> s'.issue.value.firstFailedAt == step.now)
  {
  }

  /** A failed attempt is visible at once: the issue is open, names this failure and counts this attempt. */
  lemma FailureVisible(connection: nat, steps: seq<Step>, r: nat, now: Time)
    requires var s := Exec(Init(connection), steps); !s.purged && r in s.runs && s.runs[r].pc.Noting?
    ensures var s := Exec(Init(connection), steps); var s' := Next(s, NoteIssue(r, true, now)); var run := s.runs[r];
            && |run.outcomes| == run.pc.attempt > 0 && !Last(run.outcomes).NoRequest?
            && Issues.IsOpen(s'.issue) && s'.issue.value.attempts >= run.pc.attempt
            && s'.issue.value.firstFailedAt == (if s.issue.None? then now else s.issue.value.firstFailedAt)
            && s'.issue.value.reason
               == match Last(run.outcomes)
                  case TransportError(message, _) => "delivery failed: " + message
                  case Response(code, _) => "destination returned " + Decimal(code)
                  case NoRequest => ""
  {
    InvAlways(connection, steps);
    var s := Exec(Init(connection), steps);
    assert RunOk(s.runs[r]) && PostOk(s, r);
  }

  // ---------------------------------------------------------------- POSTs against runs

  /** POST p is the attempt its run recorded under that number. */
  ghost predicate PostListed(s: State, p: nat)
    requires p < |s.posts|
  {
    var post := s.posts[p];
    && post.run in s.runs
    && 1 <= post.attempt <= |s.runs[post.run].outcomes|
    && s.runs[post.run].outcomes[post.attempt - 1] == post.outcome
  }

  /** Attempt i + 1 of run r was sent, unless no request could be built. */
  ghost predicate AttemptPosted(s: State, r: nat, i: nat)
    requires r in s.runs && i < |s.runs[r].outcomes|
  {
    s.runs[r].outcomes[i].NoRequest?
    || exists p :: 0 <= p < |s.posts| && s.posts[p].run == r && s.posts[p].attempt == i + 1
                   && s.posts[p].outcome == s.runs[r].outcomes[i]
  }

  ghost predicate PostsOk(s: State) {
    && (forall p :: 0 <= p < |s.posts| ==> PostListed(s, p))
    && (forall p, q :: 0 <= p < q < |s.posts| && s.posts[p].run == s.posts[q].run ==>
          s.posts[p].attempt < s.posts[q].attempt)
  }

  ghost predicate AttemptsOk(s: State) {
    forall r, i: nat :: r in s.runs && i < |s.runs[r].outcomes| ==> AttemptPosted(s, r, i)
  }

  /** The step neither tries nor sends anything. */
  ghost predicate SameAttempts(s: State, s': State) {
    && s.runs.Keys <= s'.runs.Keys
    && |s'.posts| == |s.posts|
    && (forall p :: 0 <= p < |s.posts| ==> SamePost(s.posts[p], s'.posts[p]))
    && (forall r :: r in s.runs ==> s'.runs[r].outcomes == s.runs[r].outcomes)
    && (forall r :: r in s'.runs && r !in s.runs ==> s'.runs[r].outcomes == [])
  }

  predicate SamePost(a: Post, b: Post) {
    a.run == b.run && a.attempt == b.attempt && a.outcome == b.outcome
  }

  lemma OthersTryNothing(s: State, step: Step)
    requires RunsOk(s) && !step.Attempt?
    ensures SameAttempts(s, Next(s, step))
  {
    match step {
      case InsertRow(r, ok) => InsertTriesNothing(s, r, ok);
      case NoteIssue(r, ok, now) => NoteTriesNothing(s, r, ok, now);
      case Finish(r, committed, acked, now) => FinishTriesNothing(s, r, committed, acked, now);
      case Load(r, max) => if r in s.runs { assert RunOk(s.runs[r]); }
      case _ =>
    }
  }

  lemma NoteTriesNothing(s: State, r: nat, ok: bool, now: Time)
    ensures SameAttempts(s, NoteStep(s, r, ok, now))
  {
  }

  lemma FinishTriesNothing(s: State, r: nat, committed: bool, acked: bool, now: Time)
    ensures SameAttempts(s, FinishStep(s, r, committed, acked, now))
  {
  }

  lemma InsertTriesNothing(s: State, r: nat, ok: bool)
    ensures SameAttempts(s, InsertStep(s, r, ok))
  {
  }

  lemma SameKeepsPosts(s: State, s': State)
    requires PostsOk(s) && AttemptsOk(s) && SameAttempts(s, s')
    ensures PostsOk(s') && AttemptsOk(s')
  {
    forall p | 0 <= p < |s'.posts| ensures PostListed(s', p) {
      assert PostListed(s, p) && SamePost(s.posts[p], s'.posts[p]);
    }
    forall p, q | 0 <= p < q < |s'.posts| && s'.posts[p].run == s'.posts[q].run
      ensures s'.posts[p].attempt < s'.posts[q].attempt
    {
      assert SamePost(s.posts[p], s'.posts[p]) && SamePost(s.posts[q], s'.posts[q]);
    }
    forall r, i: nat | r in s'.runs && i < |s'.runs[r].outcomes| ensures AttemptPosted(s', r, i) {
      SameKeepsAttempt(s, s', r, i);
    }
  }

  lemma SameKeepsAttempt(s: State, s': State, r: nat, i: nat)
    requires AttemptsOk(s) && SameAttempts(s, s') && r in s'.runs && i < |s'.runs[r].outcomes|
    ensures AttemptPosted(s', r, i)
  {
    assert r in s.runs && AttemptPosted(s, r, i);
    if !s.runs[r].outcomes[i].NoRequest? {
      var p :| 0 <= p < |s.posts| && s.posts[p].run == r && s.posts[p].attempt == i + 1
               && s.posts[p].outcome == s.runs[r].outcomes[i];
      assert SamePost(s.posts[p], s'.posts[p]);
    }
  }

  lemma AttemptKeepsPosts(s: State, r: nat, o: Outcome)
    requires RunsOk(s) && PostsOk(s)
    ensures PostsOk(AttemptStep(s, r, o))
  {
    var s' := AttemptStep(s, r, o);
    if r in s.runs { assert RunOk(s.runs[r]); }
    forall p | 0 <= p < |s'.posts| ensures PostListed(s', p) {
      if p < |s.posts| { assert PostListed(s, p); }
    }
    forall p, q | 0 <= p < q < |s'.posts| && s'.posts[p].run == s'.posts[q].run
      ensures s'.posts[p].attempt < s'.posts[q].attempt
    {
      assert PostListed(s, p);
    }
  }

  lemma AttemptKeepsAttempts(s: State, r: nat, o: Outcome)
    requires RunsOk(s) && AttemptsOk(s)
    ensures AttemptsOk(AttemptStep(s, r, o))
  {
    var s' := AttemptStep(s, r, o);
    if r in s.runs { assert RunOk(s.runs[r]); }
    forall v, i: nat | v in s'.runs && i < |s'.runs[v].outcomes| ensures AttemptPosted(s', v, i) {
      if i < |s.runs[v].outcomes| {
        assert AttemptPosted(s, v, i);
        StillPosted(s, s', v, i);
      } else if !o.NoRequest? {
        assert s'.posts[|s.posts|].attempt == i + 1;
      }
    }
  }

  lemma StillPosted(s: State, s': State, r: nat, i: nat)
    requires r in s.runs && i < |s.runs[r].outcomes| && AttemptPosted(s, r, i) && s.posts <= s'.posts
    requires r in s'.runs && s.runs[r].outcomes <= s'.runs[r].outcomes
    ensures AttemptPosted(s', r, i)
  {
    if !s.runs[r].outcomes[i].NoRequest? {
      var p :| 0 <= p < |s.posts| && s.posts[p].run == r && s.posts[p].attempt == i + 1
               && s.posts[p].outcome == s.runs[r].outcomes[i];
      assert s'.posts[p] == s.posts[p];
    }
  }

  lemma {:induction false} PostsAlways(connection: nat, steps: seq<Step>)
    ensures PostsOk(Exec(Init(connection), steps)) && AttemptsOk(Exec(Init(connection), steps))
    decreases |steps|
  {
    if steps != [] {
      var s := Exec(Init(connection), steps[..|steps| - 1]);
      PostsAlways(connection, steps[..|steps| - 1]);
      InvAlways(connection, steps[..|steps| - 1]);
      match Last(steps) {
        case Attempt(r, o) =>
          AttemptKeepsPosts(s, r, o);
          AttemptKeepsAttempts(s, r, o);
        case _ =>
          OthersTryNothing(s, Last(steps));
          SameKeepsPosts(s, Next(s, Last(steps)));
      }
    }
  }

  /** POST p is the one successful POST of run r. */
  ghost predicate OnlySuccess(s: State, r: nat, p: int) {
    && 0 <= p < |s.posts| && s.posts[p].run == r && Success(s.posts[p].outcome)
    && (forall q :: 0 <= q < |s.posts| && s.posts[q].run == r && Success(s.posts[q].outcome) ==> q == p)
  }

  /** A run that returned "delivered" did POST successfully, and exactly once. */
  lemma DeliveredMeansPosted(connection: nat, steps: seq<Step>, r: nat)
    requires var s := Exec(Init(connection), steps); r in s.runs && s.runs[r].pc == Returned(true)
    ensures exists p :: OnlySuccess(Exec(Init(connection), steps), r, p)
  {
    InvAlways(connection, steps);
    PostsAlways(connection, steps);
    SuccessPosted(Exec(Init(connection), steps), r);
  }

  lemma SuccessPosted(s: State, r: nat)
    requires PostsOk(s) && AttemptsOk(s) && r in s.runs && RunOk(s.runs[r]) && s.runs[r].pc == Returned(true)
    ensures exists p :: OnlySuccess(s, r, p)
  {
    var k := |s.runs[r].outcomes| - 1;
    assert AttemptPosted(s, r, k);
    var p :| 0 <= p < |s.posts| && s.posts[p].run == r && s.posts[p].attempt == k + 1
             && s.posts[p].outcome == s.runs[r].outcomes[k];
    LastIsOnlySuccess(s, r, p);
  }

  lemma LastIsOnlySuccess(s: State, r: nat, p: nat)
    requires PostsOk(s) && r in s.runs && RunOk(s.runs[r]) && s.runs[r].pc == Returned(true)
    requires p < |s.posts| && s.posts[p].run == r && s.posts[p].attempt == |s.runs[r].outcomes|
    ensures OnlySuccess(s, r, p)
  {
    assert PostListed(s, p);
    forall q | 0 <= q < |s.posts| && s.posts[q].run == r && Success(s.posts[q].outcome) ensures q == p {
      assert PostListed(s, q);
    }
  }

  /** Each POST of a run is one numbered attempt of it, so a run POSTs at most `max` times. */
  lemma PostsNumbered(connection: nat, steps: seq<Step>, p: nat, q: nat)
    requires p < q < |Exec(Init(connection), steps).posts|
    ensures var s := Exec(Init(connection), steps); var post := s.posts[p];
            && PostListed(s, p) && post.attempt <= Max0(s.runs[post.run].max)
            && (s.posts[q].run == post.run ==> post.attempt < s.posts[q].attempt)
  {
    InvAlways(connection, steps);
    PostsAlways(connection, steps);
    var s := Exec(Init(connection), steps);
    assert PostListed(s, p);
    assert RunOk(s.runs[s.posts[p].run]);
  }

  // ---------------------------------------------------------------- what the issue says

  /** The text a failed POST is noted with. */
  ghost predicate NotedAs(o: Outcome, reason: string) {
    match o
    case NoRequest => false
    case TransportError(message, _) => reason == "delivery failed: " + message
    case Response(code, _) => !(200 <= code <= 299) && reason == "destination returned " + Decimal(code)
  }

  /** The statement notes the failure of POST p. */
  ghost predicate Notes(s: State, e: Entry, p: int) {
    && 0 <= p < |s.posts| && e.op.Record?
    && s.posts[p].run == e.run && s.posts[p].attempt == e.op.failure.attempts
    && NotedAs(s.posts[p].outcome, e.op.failure.reason)
  }

  /** Every statement is a note of some POST of its run, or the run's closing one. */
  ghost predicate EntryOk(s: State, e: Entry) {
    && e.run in s.runs && !s.runs[e.run].pc.Loading?
    && match e.op
       case ResolveAt(_) => e.terminal
       case Record(f) =>
         && f.connection == s.connection
         && if e.terminal
            then f.reason == "Delivery attempts exhausted" && f.attempts == s.runs[e.run].max
            else exists p :: Notes(s, e, p)
  }

  ghost predicate LogOk(s: State) {
    forall i :: 0 <= i < |s.log| ==> EntryOk(s, s.log[i])
  }

  /** Nothing a statement refers to changes afterwards. */
  ghost predicate Remembers(s: State, s': State) {
    && s'.connection == s.connection && |s.posts| <= |s'.posts|
    && (forall p :: 0 <= p < |s.posts| ==> SamePost(s.posts[p], s'.posts[p]))
    && (forall r :: r in s.runs && !s.runs[r].pc.Loading? ==>
          r in s'.runs && !s'.runs[r].pc.Loading? && s'.runs[r].max == s.runs[r].max)
  }

  lemma StepRemembers(s: State, step: Step)
    ensures Remembers(s, Next(s, step))
  {
    match step {
      case InsertRow(r, ok) => InsertRemembers(s, r, ok);
      case Attempt(r, o) => AttemptRemembers(s, r, o);
      case NoteIssue(r, ok, now) => NoteRemembers(s, r, ok, now);
      case Finish(r, committed, acked, now) => FinishRemembers(s, r, committed, acked, now);
      case _ =>
    }
  }

  lemma InsertRemembers(s: State, r: nat, ok: bool)
    ensures Remembers(s, InsertStep(s, r, ok))
  {
  }

  lemma AttemptRemembers(s: State, r: nat, o: Outcome)
    ensures Remembers(s, AttemptStep(s, r, o))
  {
  }

  lemma NoteRemembers(s: State, r: nat, ok: bool, now: Time)
    ensures Remembers(s, NoteStep(s, r, ok, now))
  {
  }

  lemma FinishRemembers(s: State, r: nat, committed: bool, acked: bool, now: Time)
    ensures Remembers(s, FinishStep(s, r, committed, acked, now))
  {
  }

  lemma EntryStays(s: State, s': State, e: Entry)
    requires EntryOk(s, e) && Remembers(s, s')
    ensures EntryOk(s', e)
  {
    if e.op.Record? && !e.terminal {
      var p :| Notes(s, e, p);
      assert SamePost(s.posts[p], s'.posts[p]);
      assert Notes(s', e, p);
    }
  }

  /** At most one statement is added, and it is as it should be; a purge forgets them all. */
  ghost predicate LogGrows(s: State, s': State) {
    || s'.log == s.log || s'.log == []
    || (|s'.log| == |s.log| + 1 && s'.log[..|s.log|] == s.log && EntryOk(s', Last(s'.log)))
  }

  lemma NoteLogged(s: State, r: nat, ok: bool, now: Time)
    requires RunsOk(s)
    ensures LogGrows(s, NoteStep(s, r, ok, now))
  {
    var s' := NoteStep(s, r, ok, now);
    if s'.log != s.log {
      assert RunOk(s.runs[r]) && PostOk(s, r);
      assert Notes(s', Last(s'.log), s.runs[r].pc.post);
    }
  }

  lemma FinishLogged(s: State, r: nat, committed: bool, acked: bool, now: Time)
    ensures LogGrows(s, FinishStep(s, r, committed, acked, now))
  {
  }

  lemma StepLogged(s: State, step: Step)
    requires RunsOk(s)
    ensures LogGrows(s, Next(s, step))
  {
    match step {
      case NoteIssue(r, ok, now) => NoteLogged(s, r, ok, now);
      case Finish(r, committed, acked, now) => FinishLogged(s, r, committed, acked, now);
      case _ =>
    }
  }

  lemma LogKept(s: State, s': State)
    requires LogOk(s) && Remembers(s, s') && LogGrows(s, s')
    ensures LogOk(s')
  {
    forall i | 0 <= i < |s'.log| ensures EntryOk(s', s'.log[i]) {
      if i < |s.log| {
        assert s'.log[i] == s.log[i];
        EntryStays(s, s', s.log[i]);
      }
    }
  }

  lemma {:induction false} LogAlways(connection: nat, steps: seq<Step>)
    ensures LogOk(Exec(Init(connection), steps))
    decreases |steps|
  {
    if steps != [] {
      var s := Exec(Init(connection), steps[..|steps| - 1]);
      LogAlways(connection, steps[..|steps| - 1]);
      InvAlways(connection, steps[..|steps| - 1]);
      StepRemembers(s, Last(steps));
      StepLogged(s, Last(steps));
      LogKept(s, Next(s, Last(steps)));
    }
  }

  /** Statement k is the last one that noted a failed POST. */
  ghost predicate LastNote(s: State, k: int) {
    && 0 <= k < |s.log| && s.log[k].op.Record? && !s.log[k].terminal
    && forall j :: k < j < |s.log| ==> !(s.log[j].op.Record? && !s.log[j].terminal)
  }

  /** A POST that failed with this number and this text. */
  ghost predicate FailedPost(s: State, p: int, attempts: int, reason: string) {
    0 <= p < |s.posts| && s.posts[p].attempt == attempts && NotedAs(s.posts[p].outcome, reason)
  }

  lemma ConcreteIsNote(s: State, k: int)
    requires LogOk(s) && 0 <= k < |s.log|
    ensures Issues.ConcreteAt(Ops(s.log), k) <==> s.log[k].op.Record? && !s.log[k].terminal
  {
    assert EntryOk(s, s.log[k]);
    if s.log[k].op.Record? && !s.log[k].terminal {
      var p :| Notes(s, s.log[k], p);
      assert s.log[k].op.failure.reason == Reason(s.posts[p].outcome);
    }
  }

  /**
   In every interleaving the issue of a kept event gives the reason of the last noted
   failure, and the generic one exactly if none was noted; its attempts are the number of
   some failed POST or the maximum of some run that recorded its exhaustion.
   */
  lemma IssueExplained(connection: nat, steps: seq<Step>)
    requires Exec(Init(connection), steps).issue.Some?
    ensures var s := Exec(Init(connection), steps); var i := s.issue.value;
            && i.connection == connection
            && (i.reason == "Delivery attempts exhausted"
                <==> forall k :: 0 <= k < |s.log| && s.log[k].op.Record? ==> s.log[k].terminal)
            && (i.reason != "Delivery attempts exhausted" ==>
                  exists k, p :: LastNote(s, k) && FailedPost(s, p, s.log[k].op.failure.attempts, i.reason))
            && ((exists p, why :: FailedPost(s, p, i.attempts, why))
                || exists k :: 0 <= k < |s.log| && s.log[k].terminal && s.log[k].op.Record?
                               && s.log[k].run in s.runs && i.attempts == s.runs[s.log[k].run].max)
  {
    var s := Exec(Init(connection), steps);
    InvAlways(connection, steps);
    LogAlways(connection, steps);
    ConnectionStays(connection, steps);
    Issues.RowTellsItsHistory(Ops(s.log));
    ReasonExplained(s);
    AttemptsExplained(s);
    ConnectionExplained(s);
  }

  lemma {:induction false} ConnectionStays(connection: nat, steps: seq<Step>)
    ensures Exec(Init(connection), steps).connection == connection
    decreases |steps|
  {
    if steps != [] {
      ConnectionStays(connection, steps[..|steps| - 1]);
      StepRemembers(Exec(Init(connection), steps[..|steps| - 1]), Last(steps));
    }
  }

  lemma ConnectionExplained(s: State)
    requires LogOk(s) && IssueOk(s) && s.issue.Some? && Issues.Tells(s.issue.value, Ops(s.log))
    ensures s.issue.value.connection == s.connection
  {
    var k :| Issues.FirstRecord(Ops(s.log), k) && s.issue.value.connection == Ops(s.log)[k].failure.connection;
    assert EntryOk(s, s.log[k]);
  }

  lemma AttemptsExplained(s: State)
    requires LogOk(s) && IssueOk(s) && s.issue.Some? && Issues.Tells(s.issue.value, Ops(s.log))
    ensures (exists p, why :: FailedPost(s, p, s.issue.value.attempts, why))
            || exists k :: 0 <= k < |s.log| && s.log[k].terminal && s.log[k].op.Record?
                           && s.log[k].run in s.runs && s.issue.value.attempts == s.runs[s.log[k].run].max
  {
    var k :| Issues.RecordsAt(Ops(s.log), k) && s.issue.value.attempts == Ops(s.log)[k].failure.attempts;
    assert EntryOk(s, s.log[k]);
    if !s.log[k].terminal {
      var p :| Notes(s, s.log[k], p);
      assert FailedPost(s, p, s.issue.value.attempts, s.log[k].op.failure.reason);
    }
  }

  lemma ReasonExplained(s: State)
    requires LogOk(s) && IssueOk(s) && s.issue.Some? && Issues.Tells(s.issue.value, Ops(s.log))
    ensures var reason := s.issue.value.reason;
            && (reason == "Delivery attempts exhausted"
                <==> forall k :: 0 <= k < |s.log| && s.log[k].op.Record? ==> s.log[k].terminal)
            && (reason != "Delivery attempts exhausted" ==>
                  exists k, p :: LastNote(s, k) && FailedPost(s, p, s.log[k].op.failure.attempts, reason))
  {
    var ops := Ops(s.log);
    forall k | 0 <= k < |s.log|
      ensures Issues.ConcreteAt(ops, k) <==> s.log[k].op.Record? && !s.log[k].terminal
    {
      ConcreteIsNote(s, k);
    }
    if c :| Issues.ConcreteAt(ops, c) {
      var k :| Issues.LastConcrete(ops, k) && s.issue.value.reason == ops[k].failure.reason;
      assert EntryOk(s, s.log[k]) && LastNote(s, k);
      var p :| Notes(s, s.log[k], p);
      assert FailedPost(s, p, s.log[k].op.failure.attempts, s.issue.value.reason);
      NotTheGeneric(s.posts[p].outcome, s.issue.value.reason);
    } else {
      var k :| Issues.LastRecord(ops, k) && s.issue.value.reason == ops[k].failure.reason;
      assert !Issues.ConcreteAt(ops, k);
      assert EntryOk(s, s.log[k]);
    }
  }

  lemma NotTheGeneric(o: Outcome, reason: string)
    requires NotedAs(o, reason)
    ensures reason != "Delivery attempts exhausted"
  {
    assert reason[0] == 'd';
  }

  // ---------------------------------------------------------------- rows against POSTs

  lemma {:induction false} RowsNeverChange(s: State, steps: seq<Step>, a: int)
    requires a in s.rows && !Exec(s, steps).purged
    ensures a in Exec(s, steps).rows && Exec(s, steps).rows[a] == s.rows[a]
    ensures !s.purged
  {
    if steps != [] {
      var pre := steps[..|steps| - 1];
      if Exec(s, pre).purged { StepFramed(Exec(s, pre), Last(steps)); }
      RowsNeverChange(s, pre, a);
      RowKept(Exec(s, pre), Last(steps), a);
    }
  }

  lemma RowKept(s: State, step: Step, a: int)
    requires a in s.rows && !Next(s, step).purged
    ensures a in Next(s, step).rows && Next(s, step).rows[a] == s.rows[a]
  {
  }

  /** Why a POST has no row of its own. */
  ghost predicate Rowless(s: State, p: nat)
    requires p < |s.posts|
  {
    !(s.posts[p].attempt in s.rows && s.posts[p].attempt in s.writer && s.writer[s.posts[p].attempt] == p)
  }

  /**
   While the event is kept, a POST has no row exactly when another POST's row already
   held its attempt number, its insert failed, or it has not run (or never will).
   */
  lemma RowlessExactly(connection: nat, steps: seq<Step>, p: nat)
    requires var s := Exec(Init(connection), steps); !s.purged && p < |s.posts|
    ensures var s := Exec(Init(connection), steps); var post := s.posts[p];
            && (Rowless(s, p) <==> post.fate != Saved)
            && (post.fate == Conflict ==>
                  post.attempt in s.rows && post.attempt in s.writer && s.writer[post.attempt] != p)
            && (!Rowless(s, p) ==>
                  var row := s.rows[post.attempt];
                  && (row.status == Delivered <==> post.outcome.Response? && 200 <= post.outcome.code <= 299)
                  && row.code == (if post.outcome.Response? then Some(post.outcome.code) else None)
                  && !post.outcome.NoRequest? && row.latency == post.outcome.latency)
  {
    InvAlways(connection, steps);
    var s := Exec(Init(connection), steps);
    assert PostFate(s, p);
    if s.posts[p].attempt in s.rows { assert Authored(s, s.posts[p].attempt); }
  }

  ghost function DeliveredRows(s: State): set<int> {
    set a | a in s.rows && s.rows[a].status == Delivered
  }

  ghost function GoodPosts(s: State): set<nat> {
    set p: nat | p < |s.posts| && Success(s.posts[p].outcome)
  }

  /** Delivered rows never outnumber successful POSTs. */
  lemma DeliveredRowsBounded(connection: nat, steps: seq<Step>)
    ensures |DeliveredRows(Exec(Init(connection), steps))| <= |GoodPosts(Exec(Init(connection), steps))|
  {
    var s := Exec(Init(connection), steps);
    InvAlways(connection, steps);
    RowsInjective(s);
  }

  lemma RowsInjective(s: State)
    requires RowsOk(s)
    ensures |DeliveredRows(s)| <= |GoodPosts(s)|
  {
    var rows, posts := DeliveredRows(s), GoodPosts(s);
    assert forall a: int :: a in rows ==> Authored(s, a);
    assert forall a: int :: a in rows ==> a in s.writer && s.writer[a] in posts;
    assert forall a: int :: a in rows ==> s.posts[s.writer[a]].attempt == a;
    InjectionBounds(rows, posts, s.writer);
  }

  /**
   A replay that succeeds on an attempt number an earlier run already used resolves the
   issue without leaving a delivered row: that row is frozen.
   */
  lemma ReplayLeavesNoDeliveredRow(connection: nat, steps: seq<Step>, later: seq<Step>, a: int)
    requires var s := Exec(Init(connection), steps); a in s.rows && s.rows[a].status == Failed
    ensures a !in DeliveredRows(Exec(Exec(Init(connection), steps), later))
  {
    var s := Exec(Init(connection), steps);
    InvAlways(connection, steps);
    InvFrom(s, later);
    if !Exec(s, later).purged { RowsNeverChange(s, later, a); }
  }
}
