/** The choice between a rule's own template and the registered one, half by half. */
module Notification {
  import opened Prelude
  import opened Template

  datatype Entry = Entry(subject: string, body: string)

  datatype Request = Request(typ: string, customSubject: string, customBody: string, vars: map<string, string>)

  datatype Message =
    | Message(subject: string, body: string)
    | BadSubject(key: string)
    | BadBody(key: string)
    | UnknownType

  function Assemble(subject: Rendered, body: Rendered): Message {
    match subject
    case MissingVar(k) => BadSubject(k)
    case Ok(s) => match body case MissingVar(k) => BadBody(k) case Ok(b) => Message(s, b)
  }

  /** The two templates a request is rendered from, if any. */
  function Choose(registry: map<string, Entry>, req: Request): Option<Entry> {
    if req.customSubject == "" && req.customBody == "" then
      if req.typ in registry then Some(registry[req.typ]) else None
    else if req.typ !in registry then Some(Entry(req.customSubject, req.customBody))
    else Some(Entry(if req.customSubject == "" then registry[req.typ].subject else req.customSubject,
                    if req.customBody == "" then registry[req.typ].body else req.customBody))
  }

  /** Each half is the custom text if there is one, else the registered one if there is one. */
  lemma ChosenHalves(registry: map<string, Entry>, req: Request)
    ensures Choose(registry, req).None? <==> req.customSubject == "" && req.customBody == "" && req.typ !in registry
    ensures Choose(registry, req).Some? ==>
              var t := Choose(registry, req).value;
              && (req.customSubject != "" ==> t.subject == req.customSubject)
              && (req.customBody != "" ==> t.body == req.customBody)
              && (req.customSubject == "" ==>
                    t.subject == if req.typ in registry then registry[req.typ].subject else "")
              && (req.customBody == "" ==>
                    t.body == if req.typ in registry then registry[req.typ].body else "")
  {
  }

  /** Subject and body are each substituted in their own walk over the variables; the subject's error comes first. */
  ghost predicate Renders(t: Entry, vars: map<string, string>, first: seq<string>, second: seq<string>, m: Message) {
    && Walks(first, vars) && Walks(second, vars)
    && var subject, body := Scan(ReplaceKeys(t.subject, vars, first)), Scan(ReplaceKeys(t.body, vars, second));
       && (subject.MissingVar? ==> m == BadSubject(subject.key))
       && (subject.Ok? && body.MissingVar? ==> m == BadBody(body.key))
       && (subject.Ok? && body.Ok? ==> m == Message(subject.text, body.text))
  }

  method RenderRequest(registry: map<string, Entry>, req: Request) returns (m: Message)
    ensures m == UnknownType <==> req.customSubject == "" && req.customBody == "" && req.typ !in registry
    ensures m != UnknownType ==>
              Choose(registry, req).Some?
              && exists first, second :: Renders(Choose(registry, req).value, req.vars, first, second, m)
  {
    var subject, body := req.customSubject, req.customBody;
    if req.typ in registry {
      if subject == "" { subject := registry[req.typ].subject; }
      if body == "" { body := registry[req.typ].body; }
    } else if subject == "" && body == "" {
      return UnknownType;
    }
    var s := Substitute(subject, req.vars);
    var b := Substitute(body, req.vars);
    m := Assemble(s, b);
    ghost var first :| Walks(first, req.vars) && s == Scan(ReplaceKeys(subject, req.vars, first));
    ghost var second :| Walks(second, req.vars) && b == Scan(ReplaceKeys(body, req.vars, second));
    assert Renders(Entry(subject, body), req.vars, first, second, m);
  }

  /** A template whose only placeholders are variables the caller supplies. */
  ghost predicate Closed(toks: seq<Token>, vars: map<string, string>) {
    PlainKeys(toks) && Bound(toks, vars)
  }

  /**
   Templates that use only supplied variables give the message a reader expects, in every
   pair of walks, exactly when neither rendering holds a placeholder.
   */
  lemma ClosedTemplatesRender(subject: seq<Token>, body: seq<Token>, vars: map<string, string>,
                              first: seq<string>, second: seq<string>, m: Message)
    requires Closed(subject, vars) && Closed(body, vars) && PlainNames(vars)
    requires Renders(Entry(Flatten(subject), Flatten(body)), vars, first, second, m)
    ensures m == Message(Rendering(subject, vars), Rendering(body, vars))
       <==> !HasPlaceholder(Rendering(subject, vars)) && !HasPlaceholder(Rendering(body, vars))
  {
    RendersExactly(subject, vars, first);
    RendersExactly(body, vars, second);
  }

  // ---------------------------------------------------------------- alert notifications

  /** The variables of an alert: the rule's name, which may be any text, and two formatted numbers. */
  datatype Keys = Keys(name: string, limit: string, current: string)

  const ALERT_KEYS := Keys("resource_name", "limit", "current_value")

  ghost predicate Proper(k: Keys) {
    && k.name != k.limit && k.name != k.current && k.limit != k.current
    && BraceFree(k.name) && BraceFree(k.limit) && BraceFree(k.current)
  }

  lemma AlertKeysProper()
    ensures Proper(ALERT_KEYS)
  {
    assert ALERT_KEYS.name[0] == 'r' && ALERT_KEYS.limit[0] == 'l' && ALERT_KEYS.current[0] == 'c';
  }

  function AlertVars(k: Keys, name: string, limit: string, current: string): map<string, string> {
    map[k.name := name, k.limit := limit, k.current := current]
  }

  /** Every registered alert subject is some text followed by the rule's name. */
  function AlertSubject(k: Keys, text: string): seq<Token> {
    [Text(text), Hole(k.name)]
  }

  const OPEN_ISSUES_TEXT := "Alert: Open Issues Exceeded \U{2014} "

  lemma SubjectRendering(k: Keys, text: string, vars: map<string, string>)
    requires k.name in vars
    ensures Flatten(AlertSubject(k, text)) == text + Placeholder(k.name)
    ensures Rendering(AlertSubject(k, text), vars) == text + vars[k.name]
  {
    var toks := AlertSubject(k, text);
    assert toks[1..] == [Hole(k.name)] && toks[1..][1..] == [];
    FillHead(toks, vars, vars.Keys);
    FillHead(toks[1..], vars, vars.Keys);
    assert Flatten([Hole(k.name)]) == Placeholder(k.name) + Flatten([]);
    assert Placeholder(k.name) + [] == Placeholder(k.name) && vars[k.name] + [] == vars[k.name];
  }

  lemma PlaceholderOfName(text: string, name: string)
    requires BraceFree(text)
    ensures HasPlaceholder(text + name) <==> HasPlaceholder(name)
  {
    if HasPlaceholder(name) {
      PlaceholderInside(text, name, "");
      assert text + name + "" == text + name;
    }
    if HasPlaceholder(text + name) {
      var i, j :| i <= j && OccursAt(text + name, "{{", i) && OccursAt(text + name, "}}", j);
      PairAt(text + name, "{{", i);
      PairAt(text + name, "}}", j);
      PairAt(name, "{{", i - |text|);
      PairAt(name, "}}", j - |text|);
    }
  }

  /** The body names only the two numbers, as every registered one does. */
  ghost predicate NumbersOnly(k: Keys, body: seq<Token>) {
    && WellFormed(body)
    && forall i :: 0 <= i < |body| && body[i].Hole? ==> body[i].key == k.limit || body[i].key == k.current
  }

  lemma BodyIsClean(k: Keys, body: seq<Token>, name: string, limit: string, current: string)
    requires Proper(k) && BraceFree(limit) && BraceFree(current) && NumbersOnly(k, body)
    ensures var vars := AlertVars(k, name, limit, current);
            PlainNames(vars) && Closed(body, vars) && !HasPlaceholder(Rendering(body, vars))
  {
    var vars := AlertVars(k, name, limit, current);
    RenderingBraceFree(body, vars);
    BraceFreeIsClean(Rendering(body, vars));
  }

  /**
   A registered alert is sent as written, whatever the walks, exactly when the rule's name
   has no "{{" followed by "}}": something the handler that creates the rule could check.
   */
  lemma RegisteredAlertExactly(k: Keys, text: string, body: seq<Token>, name: string, limit: string, current: string,
                               first: seq<string>, second: seq<string>, m: Message)
    requires Proper(k) && BraceFree(text) && BraceFree(limit) && BraceFree(current) && NumbersOnly(k, body)
    requires Renders(Entry(Flatten(AlertSubject(k, text)), Flatten(body)), AlertVars(k, name, limit, current),
                     first, second, m)
    ensures m == Message(text + name, Rendering(body, AlertVars(k, name, limit, current))) <==> !HasPlaceholder(name)
  {
    var vars := AlertVars(k, name, limit, current);
    BodyIsClean(k, body, name, limit, current);
    SubjectRendering(k, text, vars);
    PlaceholderOfName(text, name);
    ClosedTemplatesRender(AlertSubject(k, text), body, vars, first, second, m);
  }

  function AlertBody(k: Keys, a: string, b: string, c: string): seq<Token> {
    [Text(a), Hole(k.current), Text(b), Hole(k.limit), Text(c)]
  }

  lemma BodyRendering(k: Keys, a: string, b: string, c: string, vars: map<string, string>)
    requires k.current in vars && k.limit in vars
    ensures Flatten(AlertBody(k, a, b, c)) == a + Placeholder(k.current) + b + Placeholder(k.limit) + c
    ensures Rendering(AlertBody(k, a, b, c), vars) == a + vars[k.current] + b + vars[k.limit] + c
  {
    var toks := AlertBody(k, a, b, c);
    FiveTokens(toks);
    FiveTokens(Fill(toks, vars, vars.Keys));
  }

  lemma FiveTokens(toks: seq<Token>)
    requires |toks| == 5
    ensures Flatten(toks) == Source(toks[0]) + Source(toks[1]) + Source(toks[2]) + Source(toks[3]) + Source(toks[4])
  {
    var tail := Source(toks[3]) + Source(toks[4]);
    TwoTokens(toks[3..]);
    assert toks[2..][1..] == toks[3..] && toks[1..][1..] == toks[2..];
    assert Flatten(toks[2..]) == Source(toks[2]) + tail;
    assert Flatten(toks[1..]) == Source(toks[1]) + (Source(toks[2]) + tail);
  }

  lemma TwoTokens(toks: seq<Token>)
    requires |toks| == 2
    ensures Flatten(toks) == Source(toks[0]) + Source(toks[1])
  {
    assert toks[1..][1..] == [];
    assert Flatten(toks[1..]) == Source(toks[1]) + [];
  }

  /**
   The registered alerts, spelled out: with the variables the evaluator passes they read as
   written, whatever the walks, exactly when the rule's name holds no placeholder.
   */
  lemma AlertAsWritten(text: string, a: string, b: string, c: string, name: string, limit: string, current: string,
                       first: seq<string>, second: seq<string>, m: Message)
    requires BraceFree(text) && BraceFree(a) && BraceFree(b) && BraceFree(c) && BraceFree(limit) && BraceFree(current)
    requires Renders(Entry(text + "{{resource_name}}", a + "{{current_value}}" + b + "{{limit}}" + c),
                     map["resource_name" := name, "limit" := limit, "current_value" := current], first, second, m)
    ensures m == Message(text + name, a + current + b + limit + c)
       <==> !exists i, j :: i <= j && OccursAt(name, "{{", i) && OccursAt(name, "}}", j)
  {
    var k := ALERT_KEYS;
    AlertKeysProper();
    SpelledOut();
    AsTokens(k, text, a, b, c, name, limit, current, first, second, m);
  }

  lemma SpelledOut()
    ensures Placeholder(ALERT_KEYS.name) == "{{resource_name}}" && Placeholder(ALERT_KEYS.limit) == "{{limit}}"
    ensures Placeholder(ALERT_KEYS.current) == "{{current_value}}"
  {
  }

  lemma AsTokens(k: Keys, text: string, a: string, b: string, c: string, name: string, limit: string, current: string,
                 first: seq<string>, second: seq<string>, m: Message)
    requires Proper(k) && BraceFree(limit) && BraceFree(current)
    requires BraceFree(text) && BraceFree(a) && BraceFree(b) && BraceFree(c)
    requires Renders(Entry(text + Placeholder(k.name), a + Placeholder(k.current) + b + Placeholder(k.limit) + c),
                     AlertVars(k, name, limit, current), first, second, m)
    ensures m == Message(text + name, a + current + b + limit + c) <==> !HasPlaceholder(name)
  {
    var vars := AlertVars(k, name, limit, current);
    AlertValues(k, name, limit, current);
    SubjectRendering(k, text, vars);
    BodyRendering(k, a, b, c, vars);
    BodyNumbers(k, a, b, c);
    RegisteredAlertExactly(k, text, AlertBody(k, a, b, c), name, limit, current, first, second, m);
  }

  lemma BodyNumbers(k: Keys, a: string, b: string, c: string)
    requires Proper(k) && BraceFree(a) && BraceFree(b) && BraceFree(c)
    ensures NumbersOnly(k, AlertBody(k, a, b, c))
  {
  }

  lemma AlertValues(k: Keys, name: string, limit: string, current: string)
    requires Proper(k)
    ensures var vars := AlertVars(k, name, limit, current);
            && k.name in vars && k.limit in vars && k.current in vars
            && vars[k.name] == name && vars[k.limit] == limit && vars[k.current] == current
  {
  }

  /** Replacing in text that ends in one placeholder. */
  lemma OneHole(text: string, k: string, key: string, value: string)
    requires BraceFree(text) && BraceFree(k) && BraceFree(key)
    ensures ReplaceAll(text + Placeholder(k), Placeholder(key), value)
         == text + (if k == key then value else Placeholder(k))
  {
    BraceFreeIsClean(text);
    assert text + [] == text;
    CleanText(text, [], key);
    FillHole(text, k, "", "", key, value);
    assert Placeholder(k) + "" == Placeholder(k);
    assert (if k == key then value else Placeholder(k)) + "" == if k == key then value else Placeholder(k);
  }

  lemma ThreeKeys(s: string, vars: map<string, string>, a: string, b: string, c: string)
    requires a in vars && b in vars && c in vars
    ensures ReplaceKeys(s, vars, [a, b, c])
         == var r := ReplaceAll(ReplaceAll(s, Placeholder(a), vars[a]), Placeholder(b), vars[b]);
            ReplaceAll(r, Placeholder(c), vars[c])
  {
    assert [a, b, c][..2] == [a, b] && [a, b][..1] == [a] && [a][..0] == [];
    assert ReplaceKeys(s, vars, [a]) == ReplaceAll(ReplaceKeys(s, vars, []), Placeholder(a), vars[a]);
    assert ReplaceKeys(s, vars, [a, b]) == ReplaceAll(ReplaceKeys(s, vars, [a]), Placeholder(b), vars[b]);
  }

  lemma NothingBraced(s: string, key: string, value: string)
    requires BraceFree(s)
    ensures ReplaceAll(s, Placeholder(key), value) == s
  {
    BraceFreeIsClean(s);
    assert s + [] == s;
    CleanText(s, [], key);
    NothingToReplace(s, Placeholder(key), value);
  }

  /** The name, itself a placeholder of the limit, is replaced first: it is then filled in like any other. */
  lemma NameFirst(k: Keys, text: string, limit: string, current: string)
    requires Proper(k) && BraceFree(text) && BraceFree(limit) && BraceFree(current)
    ensures var vars := AlertVars(k, Placeholder(k.limit), limit, current);
            Scan(ReplaceKeys(text + Placeholder(k.name), vars, [k.name, k.limit, k.current])) == Ok(text + limit)
  {
    var vars := AlertVars(k, Placeholder(k.limit), limit, current);
    ThreeKeys(text + Placeholder(k.name), vars, k.name, k.limit, k.current);
    OneHole(text, k.name, k.name, Placeholder(k.limit));
    OneHole(text, k.limit, k.limit, limit);
    NothingBraced(text + limit, k.current, current);
    ScanBraceFree(text + limit);
  }

  /** The name is replaced last: its placeholder is left over. */
  lemma NameLast(k: Keys, text: string, limit: string, current: string)
    requires Proper(k) && BraceFree(text) && BraceFree(limit) && BraceFree(current)
    ensures var vars := AlertVars(k, Placeholder(k.limit), limit, current);
            Scan(ReplaceKeys(text + Placeholder(k.name), vars, [k.limit, k.current, k.name])) == MissingVar(k.limit)
  {
    var vars := AlertVars(k, Placeholder(k.limit), limit, current);
    ThreeKeys(text + Placeholder(k.name), vars, k.limit, k.current, k.name);
    OneHole(text, k.name, k.limit, limit);
    OneHole(text, k.name, k.current, current);
    OneHole(text, k.name, k.name, Placeholder(k.limit));
    BraceFreeIsClean(text);
    ScanUnbound(text, k.limit, "");
    assert Placeholder(k.limit) + "" == Placeholder(k.limit);
  }

  /**
   A rule named after the limit's placeholder: for one walk over the alert's variables a
   registered subject renders with the limit in place of the name, for another not at all.
   */
  lemma OrderDecides(k: Keys, text: string, limit: string, current: string)
    requires Proper(k) && BraceFree(text) && BraceFree(limit) && BraceFree(current)
    ensures var vars, subject := AlertVars(k, Placeholder(k.limit), limit, current), Flatten(AlertSubject(k, text));
            && Walks([k.name, k.limit, k.current], vars) && Walks([k.limit, k.current, k.name], vars)
            && Scan(ReplaceKeys(subject, vars, [k.name, k.limit, k.current])) == Ok(text + limit)
            && Scan(ReplaceKeys(subject, vars, [k.limit, k.current, k.name])) == MissingVar(k.limit)
  {
    SubjectRendering(k, text, AlertVars(k, Placeholder(k.limit), limit, current));
    NameFirst(k, text, limit, current);
    NameLast(k, text, limit, current);
  }

  /** The open-issues alert of a rule named "{{limit}}", with threshold 5 and 7 open issues. */
  lemma OrderCanDecide()
    ensures var k := ALERT_KEYS;
            var vars, subject := AlertVars(k, "{{limit}}", "5", "7"), Flatten(AlertSubject(k, OPEN_ISSUES_TEXT));
            && Walks([k.name, k.limit, k.current], vars) && Walks([k.limit, k.current, k.name], vars)
            && Scan(ReplaceKeys(subject, vars, [k.name, k.limit, k.current])).Ok?
            && Scan(ReplaceKeys(subject, vars, [k.limit, k.current, k.name])) == MissingVar("limit")
  {
    AlertKeysProper();
    assert Placeholder(ALERT_KEYS.limit) == "{{limit}}";
    OrderDecides(ALERT_KEYS, OPEN_ISSUES_TEXT, "5", "7");
  }
}
