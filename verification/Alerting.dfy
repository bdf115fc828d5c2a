/**
 Alert evaluation: what one tick decides and does to a rule, and what holds over every
 run of ticks by many workers, an advisory lock, concurrent patches, failed sends, failed
 writes and crashes. Thresholds are NUMERIC(10,2) and are counted in hundredths.
 */
module Alerting {
  import opened Prelude

  datatype RuleType = OpenIssues | DeliverySuccess | UnresolvedTime | Unknown

  datatype Rule = Rule(typ: RuleType, active: bool, threshold: int, firing: Option<int>, error: Option<string>)

  datatype Metrics = Metrics(openIssues: nat, delivered: nat, failed: nat)

  /** currentValue: None when there is nothing to measure or the metric cannot be read. */
  function CurrentValue(typ: RuleType, m: Metrics, oldestHours: Option<real>): Option<real> {
    match typ
    case OpenIssues => Some(m.openIssues as real)
    case DeliverySuccess =>
      if m.delivered + m.failed == 0 then None
      else Some(m.delivered as real / (m.delivered + m.failed) as real * 100.0)
    case UnresolvedTime => oldestHours
    case Unknown => None
  }

  function Units(hundredths: int): real { hundredths as real / 100.0 }

  predicate IsBreached(typ: RuleType, threshold: int, current: real) {
    if typ == DeliverySuccess then current < Units(threshold) else current > Units(threshold)
  }

  /** Success rates lie between 0 and 100, and only a window without failures reaches 100. */
  lemma SuccessRateRange(m: Metrics)
    ensures CurrentValue(DeliverySuccess, m, None).Some? <==> m.delivered + m.failed > 0
    ensures var v := CurrentValue(DeliverySuccess, m, None);
            v.Some? ==> 0.0 <= v.value <= 100.0 && (v.value == 100.0 <==> m.failed == 0)
  {
    if m.delivered + m.failed > 0 { Percentage(m.delivered as real, m.failed as real); }
  }

  lemma Percentage(d: real, f: real)
    requires d >= 0.0 && f >= 0.0 && d + f > 0.0
    ensures 0.0 <= d / (d + f) * 100.0 <= 100.0 && (d / (d + f) * 100.0 == 100.0 <==> f == 0.0)
  {
    Fraction(d, d + f, d / (d + f));
  }

  lemma Fraction(d: real, t: real, q: real)
    requires 0.0 <= d <= t && t > 0.0 && q * t == d
    ensures 0.0 <= q <= 1.0 && (q == 1.0 <==> d == t)
  {
    if q > 1.0 { Positive(q - 1.0, t); }
    if q < 0.0 { Positive(-q, t); }
    if q < 1.0 { Positive(1.0 - q, t); }
  }

  lemma Positive(x: real, y: real)
    requires x > 0.0 && y > 0.0
    ensures x * y > 0.0
  {
  }

  function Abs(x: real): real { if x < 0.0 then -x else x }

  /** sameThreshold, on the values the column can hold. */
  predicate SameThreshold(a: int, b: int) {
    Abs(Units(a) - Units(b)) < 0.001
  }

  /** The tolerance of a thousandth never confuses two stored thresholds. */
  lemma SameThresholdIsEqual(a: int, b: int)
    ensures SameThreshold(a, b) <==> a == b
  {
    if a > b {
      assert (a - b) as real >= 1.0;
      assert Units(a) - Units(b) >= 0.01;
    } else if a < b {
      assert (b - a) as real >= 1.0;
      assert Units(b) - Units(a) >= 0.01;
    }
  }

  // ---------------------------------------------------------------- one tick, one rule

  datatype Plan = Leave | ClearLatch | Send

  predicate Breached(rule: Rule, current: Option<real>) {
    rule.active && current.Some? && IsBreached(rule.typ, rule.threshold, current.value)
  }

  /** The tick saw the rule inactive or not breached. */
  predicate Quiet(rule: Rule, current: Option<real>) {
    !rule.active || (current.Some? && !IsBreached(rule.typ, rule.threshold, current.value))
  }

  function Decide(rule: Rule, current: Option<real>): Plan {
    if Quiet(rule, current) then (if rule.firing.Some? then ClearLatch else Leave)
    else if Breached(rule, current) && !Latched(rule) then Send
    else Leave
  }

  /** This breach was already announced, at this threshold. */
  predicate Latched(rule: Rule) {
    rule.firing.Some? && SameThreshold(rule.firing.value, rule.threshold)
  }

  /** What the sender and the store answer while a tick handles one rule. */
  datatype World = World(
    oldestHours: Option<real>, // OldestOpenIssueAge, None if it cannot be read
    sendOk: bool,
    text: string,              // what a failed send says
    errorUp: bool,
    recordUp: bool,
    latchUp: bool)

  /** What the tick measures for the rule; the metrics were read once for all rules. */
  function Measured(rule: Rule, m: Metrics, w: World): Option<real> {
    CurrentValue(rule.typ, m, w.oldestHours)
  }

  /** The row after a tick that nothing interrupts. */
  function AfterTick(rule: Rule, m: Metrics, w: World): Rule {
    AfterPlan(rule, Decide(rule, Measured(rule, m, w)), w)
  }

  function AfterPlan(rule: Rule, plan: Plan, w: World): Rule {
    match plan
    case Leave => rule
    case ClearLatch => if w.latchUp then rule.(firing := None) else rule
    case Send =>
      if !w.sendOk then
        if w.errorUp && rule.error != Some(w.text) then rule.(error := Some(w.text)) else rule
      else
        rule.(error := if w.errorUp then None else rule.error,
              firing := if w.latchUp then Some(rule.threshold) else rule.firing)
  }

  // ---------------------------------------------------------------- when a tick sends, in the counts it read

  /** There is a value to compare: samples, or an age that could be read. */
  predicate Measurable(typ: RuleType, m: Metrics, age: Option<real>) {
    match typ
    case OpenIssues => true
    case DeliverySuccess => m.delivered + m.failed > 0
    case UnresolvedTime => age.Some?
    case Unknown => false
  }

  /** The limit, in hundredths, is broken: the success rate from below, the others from above. */
  predicate Broken(typ: RuleType, limit: int, m: Metrics, age: Option<real>) {
    match typ
    case OpenIssues => 100 * m.openIssues > limit
    case DeliverySuccess => m.delivered + m.failed > 0 && 10000 * m.delivered < limit * (m.delivered + m.failed)
    case UnresolvedTime => age.Some? && 100.0 * age.value > limit as real
    case Unknown => false
  }

  lemma RateBelow(d: real, t: real, q: real, h: real)
    requires t > 0.0 && q * t == d
    ensures q * 100.0 < h / 100.0 <==> 10000.0 * d < h * t
  {
    var x := 10000.0 * q;
    assert 10000.0 * d == x * t;
    if x < h { Positive(h - x, t); }
    if x > h { Positive(x - h, t); }
  }

  lemma RateInCounts(m: Metrics, limit: int)
    requires m.delivered + m.failed > 0
    ensures m.delivered as real / (m.delivered + m.failed) as real * 100.0 < Units(limit)
       <==> 10000 * m.delivered < limit * (m.delivered + m.failed)
  {
    var total := m.delivered + m.failed;
    RateBelow(m.delivered as real, total as real, m.delivered as real / total as real, limit as real);
    assert (10000 * m.delivered) as real == 10000.0 * m.delivered as real;
    assert (limit * total) as real == limit as real * total as real;
  }

  lemma JudgedInCounts(rule: Rule, m: Metrics, w: World)
    ensures Breached(rule, Measured(rule, m, w)) <==> rule.active && Broken(rule.typ, rule.threshold, m, w.oldestHours)
    ensures Quiet(rule, Measured(rule, m, w)) <==>
            || !rule.active
            || (Measurable(rule.typ, m, w.oldestHours) && !Broken(rule.typ, rule.threshold, m, w.oldestHours))
  {
    if rule.typ == DeliverySuccess && m.delivered + m.failed > 0 { RateInCounts(m, rule.threshold); }
  }

  /** The row after a tick, column by column, in the counts the tick read. */
  lemma TickInCounts(rule: Rule, m: Metrics, w: World)
    ensures var age, after := w.oldestHours, AfterTick(rule, m, w);
            var tried := rule.active && Broken(rule.typ, rule.threshold, m, age) && rule.firing != Some(rule.threshold);
            var over := !rule.active || (Measurable(rule.typ, m, age) && !Broken(rule.typ, rule.threshold, m, age));
            && (Due(rule, m, w) <==> tried && w.sendOk)
            && after.typ == rule.typ && after.active == rule.active && after.threshold == rule.threshold
            && after.firing == (if over && w.latchUp then None
                                else if tried && w.sendOk && w.latchUp then Some(rule.threshold) else rule.firing)
            && after.error == (if tried && w.errorUp then (if w.sendOk then None else Some(w.text)) else rule.error)
  {
    JudgedInCounts(rule, m, w);
    if rule.firing.Some? { SameThresholdIsEqual(rule.firing.value, rule.threshold); }
  }

  /** The tick sends for this rule, and the send succeeds. */
  predicate Due(rule: Rule, m: Metrics, w: World) {
    Decide(rule, Measured(rule, m, w)) == Send && w.sendOk
  }

  class Evaluator {
    var rules: map<nat, Rule>
    var notifications: seq<nat>

    method SetFiring(id: nat, threshold: Option<int>, up: bool)
      modifies `rules
      ensures rules == if !up || id !in old(rules) then old(rules)
                       else old(rules)[id := old(rules)[id].(firing := threshold)]
    {
      if up && id in rules {
        rules := rules[id := rules[id].(firing := threshold)];
      }
    }

    method SetDeliveryError(id: nat, message: Option<string>, up: bool)
      modifies `rules
      ensures rules == if !up || id !in old(rules) then old(rules)
                       else old(rules)[id := old(rules)[id].(error := message)]
    {
      if up && id in rules {
        rules := rules[id := rules[id].(error := message)];
      }
    }

    /** The body of the loop, for the rule as the tick read it. */
    method EvaluateRule(id: nat, rule: Rule, m: Metrics, w: World) returns (sent: bool)
      requires id in rules && rules[id] == rule
      modifies this
      ensures rules == old(rules)[id := AfterTick(rule, m, w)]
      ensures sent <==>
                && rule.active && rule.firing != Some(rule.threshold) && w.sendOk
                && match rule.typ
                   case OpenIssues => 100 * m.openIssues > rule.threshold
                   case DeliverySuccess =>
                     m.delivered + m.failed > 0 && 10000 * m.delivered < rule.threshold * (m.delivered + m.failed)
                   case UnresolvedTime => w.oldestHours.Some? && 100.0 * w.oldestHours.value > rule.threshold as real
                   case Unknown => false
      ensures sent <==> Due(rule, m, w)
      ensures notifications == if sent && w.recordUp then old(notifications) + [id] else old(notifications)
    {
      sent := false;
      TickInCounts(rule, m, w);
      if !rule.active {
        if rule.firing.Some? { SetFiring(id, None, w.latchUp); }
        return;
      }
      var current := CurrentValue(rule.typ, m, w.oldestHours);
      if current.None? {
        return;
      }
      if !IsBreached(rule.typ, rule.threshold, current.value) {
        if rule.firing.Some? { SetFiring(id, None, w.latchUp); }
        return;
      }
      if rule.firing.Some? && SameThreshold(rule.firing.value, rule.threshold) {
        return;
      }
      if !w.sendOk {
        if rule.error != Some(w.text) { SetDeliveryError(id, Some(w.text), w.errorUp); }
        return;
      }
      sent := true;
      if rule.error.Some? { SetDeliveryError(id, None, w.errorUp); }
      if w.recordUp { notifications := notifications + [id]; }
      SetFiring(id, Some(rule.threshold), w.latchUp);
    }

    /** One uninterrupted tick over all rules, in the order listed. */
    method EvaluateOnce(order: seq<nat>, m: Metrics, world: map<nat, World>) returns (sent: seq<nat>)
      requires forall i, j :: 0 <= i < j < |order| ==> order[i] != order[j]
      requires forall i :: 0 <= i < |order| ==> order[i] in rules && order[i] in world
      modifies this
      ensures rules.Keys == old(rules).Keys
      ensures forall id :: id in rules ==>
                rules[id] == if id in order then AfterTick(old(rules)[id], m, world[id]) else old(rules)[id]
      ensures forall id :: id in sent <==> id in order && Due(old(rules)[id], m, world[id])
    {
      sent := [];
      var snapshot := rules;
      var i := 0;
      while i < |order|
        invariant 0 <= i <= |order|
        invariant rules.Keys == snapshot.Keys
        invariant forall id :: id in rules ==>
                    rules[id] == if id in order[..i] then AfterTick(snapshot[id], m, world[id]) else snapshot[id]
        invariant forall id :: id in sent <==>
                    id in order[..i] && Due(snapshot[id], m, world[id])
      {
        var id := order[i];
        assert order[..i + 1] == order[..i] + [id];
        assert id !in order[..i];
        var ok := EvaluateRule(id, snapshot[id], m, world[id]);
        if ok { sent := sent + [id]; }
        i := i + 1;
      }
      assert order[..|order|] == order;
    }
  }
}
