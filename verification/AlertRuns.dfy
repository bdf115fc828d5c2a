/**
 Runs of the alert evaluator over one rule: workers compete for the advisory lock, the
 holder ticks statement by statement, operators patch the rule at any moment, sends and
 writes fail, and workers crash anywhere.
 */
module AlertRuns {
  import opened Prelude
  import opened Alerting

  datatype Stage =
    | Fresh                    // rules listed, this one not yet judged
    | Clearing                 // about to clear the latch
    | Sending
    | Noting(text: string)     // send failed, error not yet stored
    | Delivered                // send succeeded, old error not yet cleared
    | Recording
    | Latching

  datatype Phase = Idle | Ticking(snap: Rule, stage: Stage, at: nat)   // `at`: threshold changes before the snapshot

  /** One successful send, with what happened to its latch and what was seen after it. */
  datatype Sent = Sent(threshold: int, lost: bool, quietAfter: bool)

  datatype State = State(
    row: Rule,
    lock: Option<nat>,
    workers: map<nat, Phase>,
    log: seq<Sent>,
    changes: nat,              // patches that changed the threshold
    lost: nat,                 // latch writes that failed or that a crash prevented
    episodes: nat,
    inEpisode: bool,           // the last judgement was a breach
    rows: nat,                 // notification rows
    lostRows: nat,
    latest: Option<string>,    // what the latest send attempt said: None for success
    errorLost: bool)           // the latest attempt's error write failed or never ran

  function Init(typ: RuleType, active: bool, threshold: int): State {
    State(Rule(typ, active, threshold, None, None), None, map[], [], 0, 0, 0, false, 0, 0, None, false)
  }

  datatype Step =
    | TryLock(worker: nat)
    | Snapshot(worker: nat)
    | Judge(worker: nat, current: Option<real>)
    | SendResult(worker: nat, ok: bool, text: string)
    | Write(worker: nat, ok: bool)          // the next store write of the tick
    | Stop(worker: nat)
    | Crash(worker: nat)
    | SessionEnds
    | Patch(active: bool, threshold: int)

  function Put(s: State, w: nat, p: Phase): State {
    s.(workers := s.workers[w := p])
  }

  function MarkLast(log: seq<Sent>, quiet: bool, lost: bool): seq<Sent> {
    if log == [] then log
    else
      var last := Last(log);
      log[|log| - 1 := last.(quietAfter := last.quietAfter || quiet, lost := last.lost || lost)]
  }

  function JudgeStep(s: State, w: nat, p: Phase, current: Option<real>): State
    requires p.Ticking?
  {
    if Quiet(p.snap, current) then
      Put(s, w, if p.snap.firing.Some? then p.(stage := Clearing) else Idle)
        .(inEpisode := false, log := MarkLast(s.log, true, false))
    else if Breached(p.snap, current) then
      Put(s, w, if Decide(p.snap, current) == Send then p.(stage := Sending) else Idle)
        .(inEpisode := true, episodes := if s.inEpisode then s.episodes else s.episodes + 1)
    else Put(s, w, Idle)
  }

  function SendStep(s: State, w: nat, p: Phase, ok: bool, text: string): State
    requires p.Ticking?
  {
    if ok then
      Put(s, w, p.(stage := Delivered))
        .(log := s.log + [Sent(p.snap.threshold, false, false)], latest := None, errorLost := false)
    else
      Put(s, w, p.(stage := Noting(text))).(latest := Some(text), errorLost := false)
  }

  function WriteStep(s: State, w: nat, p: Phase, ok: bool): State
    requires p.Ticking?
  {
    match p.stage
    case Clearing => Put(s, w, Idle).(row := if ok then s.row.(firing := None) else s.row)
    case Noting(text) =>
      var s' := Put(s, w, Idle);
      if p.snap.error == Some(text) then s'
      else if ok then s'.(row := s.row.(error := Some(text)))
      else s'.(errorLost := true)
    case Delivered =>
      var s' := Put(s, w, p.(stage := Recording));
      if p.snap.error == None then s'
      else if ok then s'.(row := s.row.(error := None))
      else s'.(errorLost := true)
    case Recording =>
      Put(s, w, p.(stage := Latching))
        .(rows := if ok then s.rows + 1 else s.rows, lostRows := if ok then s.lostRows else s.lostRows + 1)
    case Latching =>
      if ok then Put(s, w, Idle).(row := s.row.(firing := Some(p.snap.threshold)))
      else Put(s, w, Idle).(lost := s.lost + 1, log := MarkLast(s.log, false, true))
    case _ => s
  }

  predicate Unlatched(p: Phase) {
    p.Ticking? && (p.stage.Delivered? || p.stage.Recording? || p.stage.Latching?)
  }

  predicate Unrecorded(p: Phase) {
    p.Ticking? && (p.stage.Delivered? || p.stage.Recording?)
  }

  predicate Unsaid(p: Phase) {
    p.Ticking? && (p.stage.Delivered? || p.stage.Noting?)
  }

  function CrashStep(s: State, w: nat, p: Phase): State {
    s.(workers := s.workers - {w},
       lost := if Unlatched(p) then s.lost + 1 else s.lost,
       log := if Unlatched(p) then MarkLast(s.log, false, true) else s.log,
       lostRows := if Unrecorded(p) then s.lostRows + 1 else s.lostRows,
       errorLost := s.errorLost || Unsaid(p))
  }

  function Next(s: State, step: Step): State {
    match step
    case TryLock(w) =>
      if s.lock.None? && w !in s.workers then Put(s, w, Idle).(lock := Some(w)) else s
    case Snapshot(w) =>
      if w in s.workers && s.workers[w].Idle? then Put(s, w, Ticking(s.row, Fresh, s.changes)) else s
    case Judge(w, current) =>
      if w in s.workers && s.workers[w].Ticking? && s.workers[w].stage.Fresh?
      then JudgeStep(s, w, s.workers[w], current) else s
    case SendResult(w, ok, text) =>
      if w in s.workers && s.workers[w].Ticking? && s.workers[w].stage.Sending?
      then SendStep(s, w, s.workers[w], ok, text) else s
    case Write(w, ok) =>
      if w in s.workers && s.workers[w].Ticking? then WriteStep(s, w, s.workers[w], ok) else s
    case Stop(w) =>
      if w in s.workers && s.workers[w].Idle? then s.(workers := s.workers - {w}, lock := None) else s
    case Crash(w) => if w in s.workers then CrashStep(s, w, s.workers[w]) else s
    case SessionEnds =>
      if s.lock.Some? && s.lock.value !in s.workers then s.(lock := None) else s
    case Patch(active, threshold) =>
      s.(row := s.row.(active := active, threshold := threshold),
         changes := if threshold == s.row.threshold then s.changes else s.changes + 1)
  }

  function Exec(s: State, steps: seq<Step>): State {
    if steps == [] then s else Next(Exec(s, steps[..|steps| - 1]), Last(steps))
  }

  // ---------------------------------------------------------------- one evaluator, and an unchanged latch

  /** Whoever evaluates holds the lock. */
  ghost predicate LockOk(s: State) {
    forall w :: w in s.workers ==> s.lock == Some(w)
  }

  lemma LockKept(s: State, step: Step)
    requires LockOk(s)
    ensures LockOk(Next(s, step))
  {
    match step {
      case Write(w, ok) => if w in s.workers && s.workers[w].Ticking? { WriteKeepsLock(s, w, s.workers[w], ok); }
      case Judge(w, c) => if w in s.workers && s.workers[w].Ticking? { JudgeKeepsLock(s, w, s.workers[w], c); }
      case _ =>
    }
  }

  lemma WriteKeepsLock(s: State, w: nat, p: Phase, ok: bool)
    requires p.Ticking? && w in s.workers
    ensures var s' := WriteStep(s, w, p, ok); s'.lock == s.lock && s'.workers.Keys == s.workers.Keys
  {
    PutKeys(s, w, Idle);
    match p.stage {
      case Delivered => PutKeys(s, w, p.(stage := Recording));
      case Recording => PutKeys(s, w, p.(stage := Latching));
      case _ =>
    }
  }

  lemma PutKeys(s: State, w: nat, p: Phase)
    requires w in s.workers
    ensures Put(s, w, p).workers.Keys == s.workers.Keys
  {
  }

  lemma JudgeKeepsLock(s: State, w: nat, p: Phase, current: Option<real>)
    requires p.Ticking? && w in s.workers
    ensures var s' := JudgeStep(s, w, p, current); s'.lock == s.lock && s'.workers.Keys == s.workers.Keys
  {
  }

  /** The phase of the only worker there can be. */
  function Current(s: State): Phase {
    if s.lock.Some? && s.lock.value in s.workers then s.workers[s.lock.value] else Idle
  }

  /** What the tick read is still what the table says, in the columns only the evaluator writes. */
  ghost predicate SnapOk(s: State) {
    var p := Current(s);
    p.Ticking? ==>
      && s.row.firing == p.snap.firing && s.row.typ == p.snap.typ
      && (!p.stage.Recording? && !p.stage.Latching? ==> s.row.error == p.snap.error)
      && p.at <= s.changes
      && (s.row.threshold != p.snap.threshold ==> p.at < s.changes)
      && (p.stage.Sending? || p.stage.Noting? || Unlatched(p) ==> p.snap.firing != Some(p.snap.threshold))
  }

  lemma SnapKept(s: State, step: Step)
    requires LockOk(s) && SnapOk(s)
    ensures SnapOk(Next(s, step))
  {
    match step {
      case Judge(w, current) => JudgeSnap(s, w, current);
      case SendResult(w, ok, text) => SendSnap(s, w, ok, text);
      case Write(w, ok) => WriteSnap(s, w, ok);
      case Crash(w) => assert w in s.workers ==> Current(Next(s, step)) == Idle;
      case _ =>
    }
  }

  lemma JudgeSnap(s: State, w: nat, current: Option<real>)
    requires LockOk(s) && SnapOk(s)
    ensures SnapOk(Next(s, Judge(w, current)))
  {
    if w in s.workers && s.workers[w].Ticking? && s.workers[w].snap.firing.Some? {
      SameThresholdIsEqual(s.workers[w].snap.firing.value, s.workers[w].snap.threshold);
    }
  }

  lemma SendSnap(s: State, w: nat, ok: bool, text: string)
    requires LockOk(s) && SnapOk(s)
    ensures SnapOk(Next(s, SendResult(w, ok, text)))
  {
  }

  lemma WriteSnap(s: State, w: nat, ok: bool)
    requires LockOk(s) && SnapOk(s)
    ensures SnapOk(Next(s, Write(w, ok)))
  {
  }

  // ---------------------------------------------------------------- two sends are always separated

  ghost predicate Separated(a: Sent, b: Sent) {
    a.threshold != b.threshold || a.lost || a.quietAfter
  }

  ghost predicate PairsOk(log: seq<Sent>) {
    forall i :: 0 <= i < |log| - 1 ==> Separated(log[i], log[i + 1])
  }

  lemma MarkKeepsPairs(log: seq<Sent>, quiet: bool, lost: bool)
    requires PairsOk(log)
    ensures PairsOk(MarkLast(log, quiet, lost))
    ensures |MarkLast(log, quiet, lost)| == |log|
    ensures log != [] ==> var last := Last(MarkLast(log, quiet, lost));
              && last.threshold == Last(log).threshold
              && last.quietAfter == (Last(log).quietAfter || quiet) && last.lost == (Last(log).lost || lost)
  {
  }

  ghost predicate LogOk(s: State) {
    var p := Current(s);
    && PairsOk(s.log)
    && (s.log != [] && !Unlatched(p) && !Last(s.log).lost && !Last(s.log).quietAfter ==>
          s.row.firing == Some(Last(s.log).threshold))
    && (p.Ticking? && p.stage.Clearing? && s.log != [] ==> Last(s.log).quietAfter)
    && (Unlatched(p) ==> s.log != [] && Last(s.log).threshold == p.snap.threshold)
  }

  lemma LogKept(s: State, step: Step)
    requires LockOk(s) && SnapOk(s) && LogOk(s)
    ensures LogOk(Next(s, step))
  {
    match step {
      case Judge(w, current) => JudgeLog(s, w, current);
      case SendResult(w, ok, text) => SendLog(s, w, ok, text);
      case Write(w, ok) => WriteLog(s, w, ok);
      case Crash(w) => CrashLog(s, w);
      case _ =>
    }
  }

  lemma JudgeLog(s: State, w: nat, current: Option<real>)
    requires LockOk(s) && LogOk(s)
    ensures LogOk(Next(s, Judge(w, current)))
  {
    MarkKeepsPairs(s.log, true, false);
  }

  lemma SendLog(s: State, w: nat, ok: bool, text: string)
    requires LockOk(s) && SnapOk(s) && LogOk(s)
    ensures LogOk(Next(s, SendResult(w, ok, text)))
  {
  }

  lemma WriteLog(s: State, w: nat, ok: bool)
    requires LockOk(s) && LogOk(s)
    ensures LogOk(Next(s, Write(w, ok)))
  {
    if w in s.workers && s.workers[w].Ticking? {
      match s.workers[w].stage {
        case Latching => LatchLog(s, w, ok);
        case Clearing => ClearLog(s, w, ok);
        case Noting(_) => MidLog(s, w, ok);
        case Delivered => MidLog(s, w, ok);
        case Recording => MidLog(s, w, ok);
        case _ =>
      }
    }
  }

  lemma MidLog(s: State, w: nat, ok: bool)
    requires LockOk(s) && LogOk(s) && w in s.workers && s.workers[w].Ticking?
    requires var stage := s.workers[w].stage; stage.Noting? || stage.Delivered? || stage.Recording?
    ensures LogOk(Next(s, Write(w, ok)))
  {
  }

  lemma ClearLog(s: State, w: nat, ok: bool)
    requires LockOk(s) && LogOk(s) && w in s.workers && s.workers[w].Ticking? && s.workers[w].stage.Clearing?
    ensures LogOk(Next(s, Write(w, ok)))
  {
  }

  lemma LatchLog(s: State, w: nat, ok: bool)
    requires LockOk(s) && LogOk(s) && w in s.workers && s.workers[w].Ticking? && s.workers[w].stage.Latching?
    ensures LogOk(Next(s, Write(w, ok)))
  {
    MarkKeepsPairs(s.log, false, true);
  }

  lemma CrashLog(s: State, w: nat)
    requires LockOk(s) && LogOk(s)
    ensures LogOk(Next(s, Crash(w)))
  {
    MarkKeepsPairs(s.log, false, true);
    assert w in s.workers ==> Current(Next(s, Crash(w))) == Idle;
  }

  // ---------------------------------------------------------------- sends are bounded

  /** What is left of breach episodes, threshold changes and lost latches after paying one per send. */
  function Credit(s: State, changes: nat): int {
    s.episodes + changes + s.lost - |s.log|
  }

  /** A breach that the latch does not cover is paid for in advance. */
  ghost predicate CreditOk(s: State) {
    var p := Current(s);
    if p.Idle? then
      Credit(s, s.changes) >= 0 && (s.inEpisode && s.row.firing != Some(s.row.threshold) ==> Credit(s, s.changes) >= 1)
    else
      && Credit(s, p.at) >= 0
      && (p.stage.Fresh? && s.inEpisode && p.snap.firing != Some(p.snap.threshold) ==> Credit(s, p.at) >= 1)
      && (p.stage.Clearing? ==> !s.inEpisode)
      && (p.stage.Sending? || p.stage.Noting? ==> Credit(s, p.at) >= 1)
  }

  lemma CreditKept(s: State, step: Step)
    requires LockOk(s) && SnapOk(s) && CreditOk(s)
    ensures CreditOk(Next(s, step))
  {
    match step {
      case Judge(w, current) => JudgeCredit(s, w, current);
      case SendResult(w, ok, text) => SendCredit(s, w, ok, text);
      case Write(w, ok) => WriteCredit(s, w, ok);
      case Crash(w) => CrashCredit(s, w);
      case _ =>
    }
  }

  lemma JudgeCredit(s: State, w: nat, current: Option<real>)
    requires LockOk(s) && SnapOk(s) && CreditOk(s)
    ensures CreditOk(Next(s, Judge(w, current)))
  {
    if w in s.workers && s.workers[w].Ticking? && s.workers[w].snap.firing.Some? {
      SameThresholdIsEqual(s.workers[w].snap.firing.value, s.workers[w].snap.threshold);
    }
  }

  lemma SendCredit(s: State, w: nat, ok: bool, text: string)
    requires LockOk(s) && SnapOk(s) && CreditOk(s)
    ensures CreditOk(Next(s, SendResult(w, ok, text)))
  {
  }

  lemma WriteCredit(s: State, w: nat, ok: bool)
    requires LockOk(s) && SnapOk(s) && CreditOk(s)
    ensures CreditOk(Next(s, Write(w, ok)))
  {
    if w in s.workers && s.workers[w].Ticking? {
      match s.workers[w].stage {
        case Latching => LatchCredit(s, w, ok);
        case Clearing =>
        case Noting(_) => MidCredit(s, w, ok);
        case Delivered => MidCredit(s, w, ok);
        case Recording => MidCredit(s, w, ok);
        case _ =>
      }
    }
  }

  lemma MidCredit(s: State, w: nat, ok: bool)
    requires LockOk(s) && SnapOk(s) && CreditOk(s) && w in s.workers && s.workers[w].Ticking?
    requires var stage := s.workers[w].stage; stage.Noting? || stage.Delivered? || stage.Recording?
    ensures CreditOk(Next(s, Write(w, ok)))
  {
  }

  lemma LatchCredit(s: State, w: nat, ok: bool)
    requires LockOk(s) && SnapOk(s) && CreditOk(s)
    requires w in s.workers && s.workers[w].Ticking? && s.workers[w].stage.Latching?
    ensures CreditOk(Next(s, Write(w, ok)))
  {
  }

  lemma CrashCredit(s: State, w: nat)
    requires LockOk(s) && SnapOk(s) && CreditOk(s)
    ensures CreditOk(Next(s, Crash(w)))
  {
    assert w in s.workers ==> Current(Next(s, Crash(w))) == Idle;
  }

  // ---------------------------------------------------------------- the error column and the notification rows

  ghost predicate BooksOk(s: State) {
    var p := Current(s);
    && s.rows + s.lostRows + (if Unrecorded(p) then 1 else 0) == |s.log|
    && (!s.errorLost && !Unsaid(p) ==> s.row.error == s.latest)
    && (p.Ticking? && p.stage.Noting? ==> s.latest == Some(p.stage.text) && !s.errorLost)
    && (p.Ticking? && p.stage.Delivered? ==> s.latest == None && !s.errorLost)
  }

  lemma BooksKept(s: State, step: Step)
    requires LockOk(s) && SnapOk(s) && BooksOk(s)
    ensures BooksOk(Next(s, step))
  {
    match step {
      case Judge(w, current) => JudgeBooks(s, w, current);
      case SendResult(w, ok, text) => SendBooks(s, w, ok, text);
      case Write(w, ok) => WriteBooks(s, w, ok);
      case Crash(w) => assert w in s.workers ==> Current(Next(s, step)) == Idle;
      case _ =>
    }
  }

  lemma JudgeBooks(s: State, w: nat, current: Option<real>)
    requires LockOk(s) && BooksOk(s)
    ensures BooksOk(Next(s, Judge(w, current)))
  {
  }

  lemma SendBooks(s: State, w: nat, ok: bool, text: string)
    requires LockOk(s) && BooksOk(s)
    ensures BooksOk(Next(s, SendResult(w, ok, text)))
  {
  }

  lemma WriteBooks(s: State, w: nat, ok: bool)
    requires LockOk(s) && SnapOk(s) && BooksOk(s)
    ensures BooksOk(Next(s, Write(w, ok)))
  {
  }

  // ---------------------------------------------------------------- every run

  ghost predicate Inv(s: State) {
    LockOk(s) && SnapOk(s) && LogOk(s) && CreditOk(s) && BooksOk(s)
  }

  lemma InvKept(s: State, step: Step)
    requires Inv(s)
    ensures Inv(Next(s, step))
  {
    LockKept(s, step);
    SnapKept(s, step);
    LogKept(s, step);
    CreditKept(s, step);
    BooksKept(s, step);
  }

  lemma {:induction false} InvAlways(typ: RuleType, active: bool, threshold: int, steps: seq<Step>)
    ensures Inv(Exec(Init(typ, active, threshold), steps))
    decreases |steps|
  {
    if steps != [] {
      InvAlways(typ, active, threshold, steps[..|steps| - 1]);
      InvKept(Exec(Init(typ, active, threshold), steps[..|steps| - 1]), Last(steps));
    }
  }

  /** At most one worker evaluates, and while it does, the latch and error it read are the stored ones. */
  lemma OneEvaluator(typ: RuleType, active: bool, threshold: int, steps: seq<Step>, v: nat, w: nat)
    requires var s := Exec(Init(typ, active, threshold), steps); v in s.workers && w in s.workers
    ensures var s := Exec(Init(typ, active, threshold), steps); var p := s.workers[w];
            && v == w
            && (p.Ticking? ==> s.row.firing == p.snap.firing)
            && (p.Ticking? && !p.stage.Recording? && !p.stage.Latching? ==> s.row.error == p.snap.error)
  {
    InvAlways(typ, active, threshold, steps);
  }

  // ---------------------------------------------------------------- what happened, read off the steps

  predicate Stages(s: State, w: nat) {
    w in s.workers && s.workers[w].Ticking?
  }

  /** The step is a successful send. */
  predicate SendsNow(s: State, step: Step) {
    step.SendResult? && step.ok && Stages(s, step.worker) && s.workers[step.worker].stage.Sending?
  }

  /** What a tick concludes about the rule it read: breached, not breached or inactive, or nothing. */
  function Verdict(s: State, step: Step): Option<bool> {
    if step.Judge? && Stages(s, step.worker) && s.workers[step.worker].stage.Fresh? then
      var rule := s.workers[step.worker].snap;
      if !rule.active then Some(false)
      else if step.current.None? then None
      else Some(IsBreached(rule.typ, rule.threshold, step.current.value))
    else None
  }

  predicate ChangesNow(s: State, step: Step) {
    step.Patch? && step.threshold != s.row.threshold
  }

  /** The latch of a send is not written: the write fails, or the worker dies before it. */
  predicate LatchLostNow(s: State, step: Step) {
    || (step.Write? && !step.ok && Stages(s, step.worker) && s.workers[step.worker].stage.Latching?)
    || (step.Crash? && step.worker in s.workers && Unlatched(s.workers[step.worker]))
  }

  /** The notification row of a send is not written. */
  predicate RowLostNow(s: State, step: Step) {
    || (step.Write? && !step.ok && Stages(s, step.worker) && s.workers[step.worker].stage.Recording?)
    || (step.Crash? && step.worker in s.workers && Unrecorded(s.workers[step.worker]))
  }

  ghost function Counted(s: State, steps: seq<Step>, now: (State, Step) -> bool): nat {
    if steps == [] then 0
    else
      var pre := steps[..|steps| - 1];
      Counted(s, pre, now) + if now(Exec(s, pre), Last(steps)) then 1 else 0
  }

  ghost function Verdicts(s: State, steps: seq<Step>): seq<bool> {
    if steps == [] then []
    else
      var v := Verdict(Exec(s, steps[..|steps| - 1]), Last(steps));
      Verdicts(s, steps[..|steps| - 1]) + if v.Some? then [v.value] else []
  }

  /** How often a sequence of verdicts turns to breached. */
  function Rises(v: seq<bool>): nat {
    if v == [] then 0
    else
      var n := |v| - 1;
      Rises(v[..n]) + if v[n] && (n == 0 || !v[n - 1]) then 1 else 0
  }

  lemma RisesAppend(v: seq<bool>, b: bool)
    ensures Rises(v + [b]) == Rises(v) + if b && (v == [] || !Last(v)) then 1 else 0
  {
    assert (v + [b])[..|v|] == v;
  }

  /** The counters a step moves. */
  ghost predicate CountsOn(s: State, step: Step, s': State) {
    && |s'.log| == |s.log| + (if SendsNow(s, step) then 1 else 0)
    && s'.changes == s.changes + (if ChangesNow(s, step) then 1 else 0)
    && s'.lost == s.lost + (if LatchLostNow(s, step) then 1 else 0)
    && s'.lostRows == s.lostRows + (if RowLostNow(s, step) then 1 else 0)
  }

  ghost predicate JudgesOn(s: State, step: Step, s': State) {
    var v := Verdict(s, step);
    && s'.inEpisode == (if v.Some? then v.value else s.inEpisode)
    && s'.episodes == s.episodes + (if v == Some(true) && !s.inEpisode then 1 else 0)
  }

  lemma MarkLength(log: seq<Sent>, quiet: bool, lost: bool)
    ensures |MarkLast(log, quiet, lost)| == |log|
  {
  }

  /** What a store write of a tick does to the bookkeeping. */
  lemma WriteEffect(s: State, w: nat, p: Phase, ok: bool)
    requires p.Ticking?
    ensures var s' := WriteStep(s, w, p, ok);
            && |s'.log| == |s.log| && s'.changes == s.changes && s'.latest == s.latest
            && s'.inEpisode == s.inEpisode && s'.episodes == s.episodes
            && s'.lost == s.lost + (if !ok && p.stage.Latching? then 1 else 0)
            && s'.lostRows == s.lostRows + (if !ok && p.stage.Recording? then 1 else 0)
            && (s'.errorLost <==> s.errorLost || (!ok && ErrorNeeded(p)))
  {
    MarkLength(s.log, false, true);
    match p.stage {
      case Clearing =>
      case Noting(_) =>
      case Delivered =>
      case Recording =>
      case Latching =>
      case _ =>
    }
  }

  lemma CountStep(s: State, step: Step)
    ensures CountsOn(s, step, Next(s, step))
  {
    match step {
      case Write(w, ok) => if Stages(s, w) { WriteEffect(s, w, s.workers[w], ok); }
      case Judge(_, _) => MarkLength(s.log, true, false);
      case Crash(_) => MarkLength(s.log, false, true);
      case _ =>
    }
  }

  lemma EpisodeStep(s: State, step: Step)
    ensures JudgesOn(s, step, Next(s, step))
  {
    match step {
      case Write(w, ok) => if Stages(s, w) { WriteEffect(s, w, s.workers[w], ok); }
      case _ =>
    }
  }

  ghost predicate Tallied(s: State, s0: State, steps: seq<Step>) {
    && |s.log| == Counted(s0, steps, SendsNow) && s.changes == Counted(s0, steps, ChangesNow)
    && s.lost == Counted(s0, steps, LatchLostNow) && s.lostRows == Counted(s0, steps, RowLostNow)
    && Judged(s.episodes, s.inEpisode, Verdicts(s0, steps))
  }

  ghost predicate Judged(episodes: nat, inEpisode: bool, v: seq<bool>) {
    episodes == Rises(v) && inEpisode == (v != [] && Last(v))
  }

  lemma CountedNext(s0: State, steps: seq<Step>, s: State, now: (State, Step) -> bool)
    requires steps != [] && s == Exec(s0, steps[..|steps| - 1])
    ensures Counted(s0, steps, now) == Counted(s0, steps[..|steps| - 1], now) + if now(s, Last(steps)) then 1 else 0
  {
  }

  lemma VerdictsNext(s0: State, steps: seq<Step>, s: State, s': State)
    requires steps != [] && s == Exec(s0, steps[..|steps| - 1]) && JudgesOn(s, Last(steps), s')
    requires Judged(s.episodes, s.inEpisode, Verdicts(s0, steps[..|steps| - 1]))
    ensures Judged(s'.episodes, s'.inEpisode, Verdicts(s0, steps))
  {
    var v, past := Verdict(s, Last(steps)), Verdicts(s0, steps[..|steps| - 1]);
    assert past + [] == past;
    if v.Some? { RisesAppend(past, v.value); }
  }

  lemma TalliedStep(s0: State, steps: seq<Step>, s: State, s': State)
    requires steps != [] && s == Exec(s0, steps[..|steps| - 1]) && Tallied(s, s0, steps[..|steps| - 1])
    requires CountsOn(s, Last(steps), s') && JudgesOn(s, Last(steps), s')
    ensures Tallied(s', s0, steps)
  {
    CountedNext(s0, steps, s, SendsNow);
    CountedNext(s0, steps, s, ChangesNow);
    CountedNext(s0, steps, s, LatchLostNow);
    CountedNext(s0, steps, s, RowLostNow);
    VerdictsNext(s0, steps, s, s');
  }

  /** The counters of the state are the counts of what the steps did. */
  lemma {:induction false} CountersTell(typ: RuleType, active: bool, threshold: int, steps: seq<Step>)
    ensures Tallied(Exec(Init(typ, active, threshold), steps), Init(typ, active, threshold), steps)
    decreases |steps|
  {
    if steps != [] {
      var s0 := Init(typ, active, threshold);
      var pre := steps[..|steps| - 1];
      CountersTell(typ, active, threshold, pre);
      CountStep(Exec(s0, pre), Last(steps));
      EpisodeStep(Exec(s0, pre), Last(steps));
      TalliedStep(s0, steps, Exec(s0, pre), Next(Exec(s0, pre), Last(steps)));
    }
  }

  /**
   Over every run, successful sends never outnumber the turns to breached among the ticks'
   verdicts, the patches that change the threshold and the lost latch writes together.
   */
  lemma SendsAreBounded(typ: RuleType, active: bool, threshold: int, steps: seq<Step>)
    ensures var s0 := Init(typ, active, threshold);
            Counted(s0, steps, SendsNow)
            <= Rises(Verdicts(s0, steps)) + Counted(s0, steps, ChangesNow) + Counted(s0, steps, LatchLostNow)
  {
    InvAlways(typ, active, threshold, steps);
    CountersTell(typ, active, threshold, steps);
  }

  /** The threshold a send announces. */
  function Announced(s: State, step: Step): int
    requires SendsNow(s, step)
  {
    s.workers[step.worker].snap.threshold
  }

  ghost function Before(s0: State, steps: seq<Step>, i: nat): State
    requires i <= |steps|
  {
    Exec(s0, steps[..i])
  }

  ghost predicate SendsAt(s0: State, steps: seq<Step>, i: nat) {
    i < |steps| && SendsNow(Before(s0, steps, i), steps[i])
  }

  /** A tick saw the rule inactive or not breached. */
  ghost predicate QuietAt(s0: State, steps: seq<Step>, i: nat) {
    i < |steps| && Verdict(Before(s0, steps, i), steps[i]) == Some(false)
  }

  ghost predicate LatchLostAt(s0: State, steps: seq<Step>, i: nat) {
    i < |steps| && LatchLostNow(Before(s0, steps, i), steps[i])
  }

  /** What a step does to the marks of the latest send. */
  ghost predicate MarksOn(s: State, step: Step, s': State) {
    && s.log != [] && s'.log != [] && Last(s'.log).threshold == Last(s.log).threshold
    && (Last(s'.log).quietAfter ==> Last(s.log).quietAfter || Verdict(s, step) == Some(false))
    && (Last(s'.log).lost ==> Last(s.log).lost || LatchLostNow(s, step))
  }

  lemma MarkStep(s: State, step: Step)
    requires s.log != [] && !SendsNow(s, step)
    ensures MarksOn(s, step, Next(s, step))
  {
    MarkKeepsPairsEnd(s.log, true, false);
    MarkKeepsPairsEnd(s.log, false, true);
    match step {
      case Write(w, ok) => if Stages(s, w) { WriteMarks(s, w, s.workers[w], ok); }
      case _ =>
    }
  }

  lemma WriteMarks(s: State, w: nat, p: Phase, ok: bool)
    requires p.Ticking?
    ensures WriteStep(s, w, p, ok).log == if p.stage.Latching? && !ok then MarkLast(s.log, false, true) else s.log
  {
  }

  lemma MarkKeepsPairsEnd(log: seq<Sent>, quiet: bool, lost: bool)
    requires log != []
    ensures var m := MarkLast(log, quiet, lost);
            && m != [] && Last(m).threshold == Last(log).threshold
            && Last(m).quietAfter == (Last(log).quietAfter || quiet) && Last(m).lost == (Last(log).lost || lost)
  {
  }

  /** The log's last entry is the send at step p, and its marks come from steps between p and n. */
  ghost predicate Marked(s0: State, steps: seq<Step>, p: nat, n: nat, log: seq<Sent>) {
    && SendsAt(s0, steps, p)
    && log != [] && Last(log).threshold == Announced(Before(s0, steps, p), steps[p])
    && (Last(log).quietAfter ==> exists j: nat :: p < j < n && QuietAt(s0, steps, j))
    && (Last(log).lost ==> exists j: nat :: p < j < n && LatchLostAt(s0, steps, j))
  }

  lemma SendLogged(s: State, step: Step)
    requires SendsNow(s, step)
    ensures Next(s, step).log == s.log + [Sent(Announced(s, step), false, false)]
  {
  }

  lemma MarkedStep(s0: State, steps: seq<Step>, p: nat, n: nat, s: State, s': State)
    requires n < |steps| && s == Before(s0, steps, n) && Marked(s0, steps, p, n, s.log) && p < n
    requires MarksOn(s, steps[n], s')
    ensures Marked(s0, steps, p, n + 1, s'.log)
  {
    assert Verdict(s, steps[n]) == Some(false) ==> QuietAt(s0, steps, n);
    assert LatchLostNow(s, steps[n]) ==> LatchLostAt(s0, steps, n);
  }

  lemma MarkedNext(s0: State, steps: seq<Step>, p: nat, n: nat)
    requires p < n < |steps| && !SendsAt(s0, steps, n) && Marked(s0, steps, p, n, Before(s0, steps, n).log)
    ensures Marked(s0, steps, p, n + 1, Before(s0, steps, n + 1).log)
  {
    BeforeNext(s0, steps, n);
    MarkStep(Before(s0, steps, n), steps[n]);
    MarkedStep(s0, steps, p, n, Before(s0, steps, n), Before(s0, steps, n + 1));
  }

  lemma MarkedFirst(s0: State, steps: seq<Step>, p: nat)
    requires SendsAt(s0, steps, p)
    ensures Marked(s0, steps, p, p + 1, Before(s0, steps, p + 1).log)
  {
    BeforeNext(s0, steps, p);
    SendLogged(Before(s0, steps, p), steps[p]);
  }

  lemma {:induction false} MarksTell(s0: State, steps: seq<Step>, p: nat, n: nat)
    requires p < n <= |steps| && SendsAt(s0, steps, p)
    requires forall j: nat :: p < j < n ==> !SendsAt(s0, steps, j)
    ensures Marked(s0, steps, p, n, Before(s0, steps, n).log)
    decreases n
  {
    if n == p + 1 {
      MarkedFirst(s0, steps, p);
    } else {
      MarksTell(s0, steps, p, n - 1);
      MarkedNext(s0, steps, p, n - 1);
    }
  }

  lemma BeforeNext(s0: State, steps: seq<Step>, i: nat)
    requires i < |steps|
    ensures Before(s0, steps, i + 1) == Next(Before(s0, steps, i), steps[i])
  {
    assert steps[..i + 1][..i] == steps[..i];
  }

  /**
   Over every run, between two consecutive successful sends of the same threshold some
   tick saw the rule inactive or not breached, or a latch write was lost.
   */
  lemma SendsAreSeparated(typ: RuleType, active: bool, threshold: int, steps: seq<Step>, p: nat, q: nat)
    requires var s0 := Init(typ, active, threshold);
             && p < q && SendsAt(s0, steps, p) && SendsAt(s0, steps, q)
             && (forall j: nat :: p < j < q ==> !SendsAt(s0, steps, j))
    ensures var s0 := Init(typ, active, threshold);
            || Announced(Before(s0, steps, p), steps[p]) != Announced(Before(s0, steps, q), steps[q])
            || (exists j: nat :: p < j < q && QuietAt(s0, steps, j))
            || (exists j: nat :: p < j < q && LatchLostAt(s0, steps, j))
  {
    var s0 := Init(typ, active, threshold);
    MarksTell(s0, steps, p, q);
    InvAlways(typ, active, threshold, steps[..q + 1]);
    BeforeNext(s0, steps, q);
    SendLogged(Before(s0, steps, q), steps[q]);
    var log := Before(s0, steps, q + 1).log;
    assert Separated(log[|log| - 2], log[|log| - 1]);
  }

  /** What the latest send attempt said: None for success. */
  ghost function Latest(s: State, steps: seq<Step>): Option<string> {
    if steps == [] then None
    else
      var before, step := Exec(s, steps[..|steps| - 1]), Last(steps);
      if step.SendResult? && Stages(before, step.worker) && before.workers[step.worker].stage.Sending?
      then (if step.ok then None else Some(step.text))
      else Latest(s, steps[..|steps| - 1])
  }

  /** The error column has to change after this send attempt. */
  predicate ErrorNeeded(p: Phase) {
    && p.Ticking?
    && ((p.stage.Noting? && p.snap.error != Some(p.stage.text)) || (p.stage.Delivered? && p.snap.error.Some?))
  }

  /** The write of the error column that a send attempt calls for fails, or the worker dies before it. */
  predicate ErrorLostNow(s: State, step: Step) {
    || (step.Write? && !step.ok && Stages(s, step.worker) && ErrorNeeded(s.workers[step.worker]))
    || (step.Crash? && step.worker in s.workers && Unsaid(s.workers[step.worker]))
  }

  /** No such write was lost since the latest send attempt. */
  ghost function ErrorKept(s: State, steps: seq<Step>): bool {
    if steps == [] then true
    else
      var before, step := Exec(s, steps[..|steps| - 1]), Last(steps);
      if step.SendResult? && Stages(before, step.worker) && before.workers[step.worker].stage.Sending? then true
      else ErrorKept(s, steps[..|steps| - 1]) && !ErrorLostNow(before, step)
  }

  lemma ErrorStep(s: State, step: Step)
    ensures var s' := Next(s, step);
            var attempt := step.SendResult? && Stages(s, step.worker) && s.workers[step.worker].stage.Sending?;
            && s'.latest == (if attempt then (if step.ok then None else Some(step.text)) else s.latest)
            && s'.errorLost == (!attempt && (s.errorLost || ErrorLostNow(s, step)))
  {
    match step {
      case Write(w, ok) => if Stages(s, w) { WriteEffect(s, w, s.workers[w], ok); }
      case _ =>
    }
  }

  lemma {:induction false} ErrorsTell(typ: RuleType, active: bool, threshold: int, steps: seq<Step>)
    ensures var s0 := Init(typ, active, threshold);
            Exec(s0, steps).latest == Latest(s0, steps) && Exec(s0, steps).errorLost == !ErrorKept(s0, steps)
    decreases |steps|
  {
    if steps != [] {
      ErrorsTell(typ, active, threshold, steps[..|steps| - 1]);
      ErrorStep(Exec(Init(typ, active, threshold), steps[..|steps| - 1]), Last(steps));
    }
  }

  /**
   Between ticks, unless the write it called for was lost, the error column says how the
   latest send attempt ended; notification rows are the successful sends less the lost rows.
   */
  lemma BooksBalance(typ: RuleType, active: bool, threshold: int, steps: seq<Step>)
    requires Current(Exec(Init(typ, active, threshold), steps)).Idle?
    ensures var s0 := Init(typ, active, threshold); var s := Exec(s0, steps);
            && (ErrorKept(s0, steps) ==> s.row.error == Latest(s0, steps))
            && s.rows == Counted(s0, steps, SendsNow) - Counted(s0, steps, RowLostNow)
  {
    InvAlways(typ, active, threshold, steps);
    CountersTell(typ, active, threshold, steps);
    ErrorsTell(typ, active, threshold, steps);
  }

  // ---------------------------------------------------------------- ticks in one piece, restarts, patches

  /** The statements of a tick that nothing interrupts. */
  function TickSteps(w: nat, rule: Rule, m: Metrics, world: World): seq<Step> {
    [Snapshot(w), Judge(w, Measured(rule, m, world))]
    + match Decide(rule, Measured(rule, m, world))
      case Leave => []
      case ClearLatch => [Write(w, world.latchUp)]
      case Send => SendSteps(w, world)
  }

  function SendSteps(w: nat, world: World): seq<Step> {
    if world.sendOk
    then [SendResult(w, true, world.text), Write(w, world.errorUp), Write(w, world.recordUp), Write(w, world.latchUp)]
    else [SendResult(w, false, world.text), Write(w, world.errorUp)]
  }

  function Forward(s: State, steps: seq<Step>): State
    decreases |steps|
  {
    if steps == [] then s else Forward(Next(s, steps[0]), steps[1..])
  }

  lemma {:induction false} ForwardIsExec(s: State, steps: seq<Step>)
    ensures Forward(s, steps) == Exec(s, steps)
    decreases |steps|
  {
    if |steps| == 1 {
      assert steps[1..] == [] && steps[..0] == [];
    } else if |steps| > 1 {
      var n := |steps| - 1;
      ForwardIsExec(s, steps[..n]);
      ForwardIsExec(Next(s, steps[0]), steps[1..]);
      ForwardIsExec(Next(s, steps[0]), steps[1..n]);
      assert steps[1..][..n - 1] == steps[1..n] && steps[..n][1..] == steps[1..n];
    }
  }

  function AfterJudging(s: State, w: nat, current: Option<real>): State {
    Next(Next(s, Snapshot(w)), Judge(w, current))
  }

  /** The tick ended with this row. */
  ghost predicate Ended(s: State, w: nat, row: Rule) {
    s.row == row && s.lock == Some(w) && w in s.workers && s.workers[w].Idle?
  }

  lemma JudgedPlan(s: State, w: nat, current: Option<real>)
    requires Ended(s, w, s.row)
    ensures var s' := AfterJudging(s, w, current); s'.row == s.row && s'.lock == s.lock && w in s'.workers
    ensures AfterJudging(s, w, current).workers[w]
         == match Decide(s.row, current)
            case Leave => Idle
            case ClearLatch => Ticking(s.row, Clearing, s.changes)
            case Send => Ticking(s.row, Sending, s.changes)
  {
  }

  lemma FailedTick(s: State, w: nat, at: nat, world: World)
    requires s.lock == Some(w) && w in s.workers && s.workers[w] == Ticking(s.row, Sending, at) && !world.sendOk
    ensures Ended(Next(Next(s, SendResult(w, false, world.text)), Write(w, world.errorUp)), w,
                  if world.errorUp && s.row.error != Some(world.text) then s.row.(error := Some(world.text)) else s.row)
  {
  }

  lemma SentTick(s: State, w: nat, at: nat, world: World)
    requires s.lock == Some(w) && w in s.workers && s.workers[w] == Ticking(s.row, Sending, at)
    ensures var s1 := Next(Next(s, SendResult(w, true, world.text)), Write(w, world.errorUp));
            Ended(Next(Next(s1, Write(w, world.recordUp)), Write(w, world.latchUp)), w,
                  s.row.(error := if world.errorUp then None else s.row.error,
                         firing := if world.latchUp then Some(s.row.threshold) else s.row.firing))
  {
    SaidTick(s, w, at, world);
    var s1 := Next(Next(s, SendResult(w, true, world.text)), Write(w, world.errorUp));
    LatchedTick(s1, w, s.row, at, world);
  }

  lemma SaidTick(s: State, w: nat, at: nat, world: World)
    requires s.lock == Some(w) && w in s.workers && s.workers[w] == Ticking(s.row, Sending, at)
    ensures var s1 := Next(Next(s, SendResult(w, true, world.text)), Write(w, world.errorUp));
            && s1.lock == Some(w) && w in s1.workers && s1.workers[w] == Ticking(s.row, Recording, at)
            && s1.row == s.row.(error := if world.errorUp then None else s.row.error)
  {
  }

  lemma LatchedTick(s: State, w: nat, snap: Rule, at: nat, world: World)
    requires s.lock == Some(w) && w in s.workers && s.workers[w] == Ticking(snap, Recording, at)
    ensures Ended(Next(Next(s, Write(w, world.recordUp)), Write(w, world.latchUp)), w,
                  s.row.(firing := if world.latchUp then Some(snap.threshold) else s.row.firing))
  {
  }

  /** A worker that is not disturbed does to the row what EvaluateRule is proved to do. */
  lemma TickIsAfterTick(s: State, w: nat, m: Metrics, world: World)
    requires Ended(s, w, s.row)
    ensures Ended(Exec(s, TickSteps(w, s.row, m, world)), w, AfterTick(s.row, m, world))
  {
    var current := Measured(s.row, m, world);
    var rest := TickSteps(w, s.row, m, world)[2..];
    var s2 := AfterJudging(s, w, current);
    JudgedPlan(s, w, current);
    ForwardIsExec(s, TickSteps(w, s.row, m, world));
    ForwardTwo(s, Snapshot(w), Judge(w, current), rest);
    assert TickSteps(w, s.row, m, world) == [Snapshot(w), Judge(w, current)] + rest;
    RestOfTick(s2, w, s.row, s.changes, Decide(s.row, current), world, rest);
  }

  lemma RestOfTick(s: State, w: nat, row: Rule, at: nat, plan: Plan, world: World, rest: seq<Step>)
    requires s.row == row && s.lock == Some(w) && w in s.workers
    requires match plan
             case Leave => s.workers[w] == Idle && rest == []
             case ClearLatch => s.workers[w] == Ticking(row, Clearing, at) && rest == [Write(w, world.latchUp)]
             case Send => s.workers[w] == Ticking(row, Sending, at) && rest == SendSteps(w, world)
    ensures Ended(Forward(s, rest), w, AfterPlan(row, plan, world))
  {
    match plan {
      case Leave =>
      case ClearLatch => assert rest[1..] == [];
      case Send =>
        if world.sendOk {
          SentTick(s, w, at, world);
          ForwardTwo(s, rest[0], rest[1], rest[2..]);
          ForwardTwo(Next(Next(s, rest[0]), rest[1]), rest[2], rest[3], []);
          assert rest == [rest[0], rest[1]] + rest[2..] && rest[2..] == [rest[2], rest[3]] + [];
        } else {
          FailedTick(s, w, at, world);
          ForwardTwo(s, rest[0], rest[1], []);
          assert rest == [rest[0], rest[1]] + [];
        }
    }
  }

  lemma ForwardTwo(s: State, a: Step, b: Step, rest: seq<Step>)
    ensures Forward(s, [a, b] + rest) == Forward(Next(Next(s, a), b), rest)
  {
    var steps := [a, b] + rest;
    assert steps[1..] == [b] + rest;
    assert steps[1..][1..] == rest;
  }

  lemma ForwardThree(s: State, a: Step, b: Step, c: Step, rest: seq<Step>)
    ensures Forward(s, [a, b, c] + rest) == Forward(Next(Next(Next(s, a), b), c), rest)
  {
    var steps := [a, b, c] + rest;
    assert steps[1..] == [b, c] + rest;
    assert steps[1..][1..] == [c] + rest;
    assert steps[1..][1..][1..] == rest;
    assert Forward(s, steps) == Forward(Next(s, a), steps[1..]);
    assert Forward(Next(s, a), steps[1..]) == Forward(Next(Next(s, a), b), steps[1..][1..]);
  }

  /** An evaluator keeps nothing between ticks: replacing it leaves everything but the holder's name. */
  lemma RestartChangesNothing(s: State, w: nat, v: nat)
    requires LockOk(s) && w in s.workers && s.workers[w].Idle? && v !in s.workers
    ensures Exec(s, [Crash(w), SessionEnds, TryLock(v)]) == s.(lock := Some(v), workers := map[v := Idle])
  {
    ForwardIsExec(s, [Crash(w), SessionEnds, TryLock(v)]);
    assert s.workers.Keys == {w};
    assert s.workers - {w} == map[];
    ForwardThree(s, Crash(w), SessionEnds, TryLock(v), []);
    assert [Crash(w), SessionEnds, TryLock(v)] == [Crash(w), SessionEnds, TryLock(v)] + [];
  }

  /** A tick that starts now and finds the rule breached would send. */
  predicate WouldSend(s: State, current: Option<real>) {
    Decide(s.row, current) == Send
  }

  /**
   A threshold patched while a tick runs, and still breached, is sent by the next tick
   exactly unless it is the latched one again and the tick did not end by writing the latch.
   */
  lemma PatchedMidTick(typ: RuleType, active: bool, threshold: int, steps: seq<Step>, w: nat, step: Step,
                       current: Option<real>)
    requires var s := Exec(Init(typ, active, threshold), steps); var s' := Next(s, step);
             && w in s.workers && s.workers[w].Ticking? && s.row.threshold != s.workers[w].snap.threshold
             && !step.Patch? && w in s'.workers && s'.workers[w].Idle?
             && Breached(s'.row, current)
    ensures var s := Exec(Init(typ, active, threshold), steps); var s' := Next(s, step);
            var p := s.workers[w];
            WouldSend(s', current) <==>
              || p.snap.firing != Some(s.row.threshold)
              || (step == Write(w, true) && (p.stage.Latching? || p.stage.Clearing?))
  {
    InvAlways(typ, active, threshold, steps);
    var s := Exec(Init(typ, active, threshold), steps);
    LatchAfterTick(s, w, step);
    SendsUnlessLatched(Next(s, step), current);
  }

  lemma SendsUnlessLatched(s: State, current: Option<real>)
    requires Breached(s.row, current)
    ensures WouldSend(s, current) <==> s.row.firing != Some(s.row.threshold)
  {
    if s.row.firing.Some? { SameThresholdIsEqual(s.row.firing.value, s.row.threshold); }
  }

  /** The step that ends a tick leaves the latch it read, unless it wrote the threshold it read or cleared the latch. */
  lemma LatchAfterTick(s: State, w: nat, step: Step)
    requires LockOk(s) && SnapOk(s) && w in s.workers && s.workers[w].Ticking? && !step.Patch?
    requires w in Next(s, step).workers && Next(s, step).workers[w].Idle?
    ensures var s' := Next(s, step); var p := s.workers[w];
            && s'.row.threshold == s.row.threshold
            && s'.row.firing == if step == Write(w, true) && p.stage.Latching? then Some(p.snap.threshold)
                                else if step == Write(w, true) && p.stage.Clearing? then None
                                else p.snap.firing
  {
  }

  const TEN: Option<real> := Some(10.0)

  /** Latch at 5.00, patch to 7.00, and during the next tick, whose send fails, patch back to 5.00. */
  const LATCHED: seq<Step> :=
    [TryLock(0), Snapshot(0), Judge(0, TEN), SendResult(0, true, ""), Write(0, true), Write(0, true), Write(0, true)]
  const PATCHED_BACK: seq<Step> :=
    [Patch(true, 700), Snapshot(0), Judge(0, TEN)] + [Patch(true, 500), SendResult(0, false, "refused")]

  lemma Latches()
    ensures Ended(Exec(Init(OpenIssues, true, 500), LATCHED), 0, Rule(OpenIssues, true, 500, Some(500), None))
  {
    var s0 := Init(OpenIssues, true, 500);
    var s1 := Next(s0, TryLock(0));
    var m, world := Metrics(10, 0, 0), World(None, true, "", true, true, true);
    var tick := TickSteps(0, s1.row, m, world);
    assert LATCHED == [TryLock(0)] + tick && LATCHED[1..] == tick;
    ForwardIsExec(s0, LATCHED);
    ForwardIsExec(s1, tick);
    TickIsAfterTick(s1, 0, m, world);
  }

  lemma PatchesBack(s: State)
    requires Ended(s, 0, Rule(OpenIssues, true, 500, Some(500), None))
    ensures var t := Exec(s, PATCHED_BACK);
            && 0 in t.workers && t.workers[0].Ticking? && t.workers[0].stage == Noting("refused")
            && t.workers[0].snap == Rule(OpenIssues, true, 700, Some(500), None)
            && t.row == Rule(OpenIssues, true, 500, Some(500), None)
  {
    SameThresholdIsEqual(500, 700);
    var tail := [Patch(true, 500), SendResult(0, false, "refused")];
    ForwardIsExec(s, PATCHED_BACK);
    ForwardThree(s, Patch(true, 700), Snapshot(0), Judge(0, TEN), tail);
    assert tail[1..] == [SendResult(0, false, "refused")] && tail[1..][1..] == [];
  }

  lemma {:induction false} ExecConcat(s: State, a: seq<Step>, b: seq<Step>)
    ensures Exec(s, a + b) == Exec(Exec(s, a), b)
    decreases |b|
  {
    if b == [] {
      assert a + b == a;
    } else {
      ExecConcat(s, a, b[..|b| - 1]);
      assert (a + b)[..|a + b| - 1] == a + b[..|b| - 1];
    }
  }

  /**
   The exception is real: in this run a tick of the patched rule is about to end, and then
   the rule is breached at its threshold and the next tick stays silent.
   */
  lemma PatchBackStaysSilent()
    ensures var s := Exec(Init(OpenIssues, true, 500), LATCHED + PATCHED_BACK); var s' := Next(s, Write(0, true));
            && 0 in s.workers && s.workers[0].Ticking? && s.workers[0].snap.threshold != s.row.threshold
            && 0 in s'.workers && s'.workers[0] == Idle && Breached(s'.row, TEN) && !WouldSend(s', TEN)
  {
    Latches();
    PatchesBack(Exec(Init(OpenIssues, true, 500), LATCHED));
    ExecConcat(Init(OpenIssues, true, 500), LATCHED, PATCHED_BACK);
    SameThresholdIsEqual(500, 500);
  }
}
