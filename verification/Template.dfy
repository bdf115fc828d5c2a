/**
 Placeholder substitution in notification templates. The loop replaces one key after
 another, in the unspecified order in which Go walks a map.
 */
module Template {
  import opened Prelude

  datatype Rendered = Ok(text: string) | MissingVar(key: string)

  /** strings.ReplaceAll for a non-empty pattern: leftmost, non-overlapping matches. */
  function ReplaceAll(s: string, pat: string, value: string): string
    requires pat != []
    decreases |s|
  {
    if s == [] then []
    else if pat <= s then value + ReplaceAll(s[|pat|..], pat, value)
    else [s[0]] + ReplaceAll(s[1..], pat, value)
  }

  /** strings.Index: the first occurrence, or -1. */
  function Index(s: string, pat: string): (i: int)
    ensures -1 <= i <= |s|
    decreases |s|
  {
    if pat <= s then 0
    else if s == [] then -1
    else
      var rest := Index(s[1..], pat);
      if rest == -1 then -1 else rest + 1
  }

  lemma {:induction false} IndexFinds(s: string, pat: string)
    ensures Index(s, pat) != -1 ==> OccursAt(s, pat, Index(s, pat))
    ensures forall j :: OccursAt(s, pat, j) ==> 0 <= Index(s, pat) <= j
    decreases |s|
  {
    assert s[0..] == s;
    if !(pat <= s) && s != [] {
      IndexFinds(s[1..], pat);
      forall j | 1 <= j <= |s| ensures OccursAt(s, pat, j) == OccursAt(s[1..], pat, j - 1) {
        assert s[1..][j - 1..] == s[j..];
      }
    }
  }

  predicate OccursAt(s: string, pat: string, i: int) {
    0 <= i <= |s| && pat <= s[i..]
  }

  function Placeholder(key: string): string {
    "{{" + key + "}}"
  }

  /** The final scan for a placeholder that nothing replaced. */
  function Scan(result: string): Rendered {
    var start := Index(result, "{{");
    if start == -1 then Ok(result) else
    var end := Index(result[start..], "}}");
    if end == -1 then Ok(result) else
    assert end >= 2 by { CloseAfterOpen(result, start, end); }
    MissingVar(result[start + 2..start + end])
  }

  lemma CloseAfterOpen(s: string, start: int, end: int)
    requires start == Index(s, "{{") >= 0 && end == Index(s[start..], "}}") >= 0
    ensures 2 <= end && start + end <= |s|
  {
    IndexFinds(s, "{{");
    IndexFinds(s[start..], "}}");
    assert s[start..][0] == '{' && s[start..][1] == '{';
    assert s[start..][end..][0] == s[start..][end] == '}';
  }

  /** The keys replaced one after another in the given order. */
  function ReplaceKeys(s: string, vars: map<string, string>, order: seq<string>): string
    requires forall k :: k in order ==> k in vars
  {
    if order == [] then s
    else ReplaceAll(ReplaceKeys(s, vars, order[..|order| - 1]), Placeholder(Last(order)), vars[Last(order)])
  }

  /** An order in which a range loop may walk the map: every key once. */
  ghost predicate Walks(order: seq<string>, vars: map<string, string>) {
    && (forall k :: k in order <==> k in vars)
    && (forall i, j :: 0 <= i < j < |order| ==> order[i] != order[j])
  }

  method Substitute(s: string, vars: map<string, string>) returns (r: Rendered)
    ensures exists order :: Walks(order, vars) && r == Scan(ReplaceKeys(s, vars, order))
  {
    var result := s;
    var todo := vars.Keys;
    ghost var order: seq<string> := [];
    while todo != {}
      invariant forall k :: k in order <==> k in vars && k !in todo
      invariant forall i, j :: 0 <= i < j < |order| ==> order[i] != order[j]
      invariant todo <= vars.Keys
      invariant result == ReplaceKeys(s, vars, order)
      decreases todo
    {
      var key :| key in todo;
      todo := todo - {key};
      result := ReplaceAll(result, Placeholder(key), vars[key]);
      assert (order + [key])[..|order|] == order;
      order := order + [key];
    }
    r := Scan(result);
    assert Walks(order, vars);
  }

  // ---------------------------------------------------------------- for all inputs

  ghost predicate HasPlaceholder(s: string) {
    exists i, j :: i <= j && OccursAt(s, "{{", i) && OccursAt(s, "}}", j)
  }

  lemma ScanSucceeds(t: string)
    ensures Scan(t).Ok? <==> !HasPlaceholder(t)
    ensures Scan(t).Ok? ==> Scan(t).text == t
  {
    var start := Index(t, "{{");
    IndexFinds(t, "{{");
    if start != -1 {
      var end := Index(t[start..], "}}");
      IndexFinds(t[start..], "}}");
      forall j | start <= j ensures OccursAt(t, "}}", j) == OccursAt(t[start..], "}}", j - start) {
        OccursShifted(t, "}}", start, j - start);
      }
      if end != -1 { assert OccursAt(t, "}}", start + end); }
    }
  }

  /** Rendering succeeds exactly when what is left has no "{{" followed by "}}". */
  lemma SuccessLeavesNoPlaceholder(s: string, vars: map<string, string>, order: seq<string>)
    requires forall k :: k in order ==> k in vars
    ensures Scan(ReplaceKeys(s, vars, order)).Ok? <==> !HasPlaceholder(ReplaceKeys(s, vars, order))
    ensures Scan(ReplaceKeys(s, vars, order)).Ok? ==>
              Scan(ReplaceKeys(s, vars, order)).text == ReplaceKeys(s, vars, order)
  {
    ScanSucceeds(ReplaceKeys(s, vars, order));
  }

  // ---------------------------------------------------------------- well-formed templates

  datatype Token = Text(text: string) | Hole(key: string)

  predicate BraceFree(s: string) {
    forall i :: 0 <= i < |s| ==> s[i] != '{' && s[i] != '}'
  }

  predicate WellFormed(toks: seq<Token>) {
    forall i :: 0 <= i < |toks| ==> BraceFree(match toks[i] case Text(t) => t case Hole(k) => k)
  }

  function Source(tok: Token): string {
    match tok case Text(t) => t case Hole(k) => Placeholder(k)
  }

  /** The template text a token list stands for. */
  function Flatten(toks: seq<Token>): string {
    if toks == [] then [] else Source(toks[0]) + Flatten(toks[1..])
  }

  /** What a reader expects of a template: token by token, or the leftmost unbound key. */
  function Expected(toks: seq<Token>, vars: map<string, string>): Rendered {
    if toks == [] then Ok("") else
    if toks[0].Hole? && toks[0].key !in vars then MissingVar(toks[0].key) else
    match Expected(toks[1..], vars)
    case Ok(rest) => Ok((if toks[0].Text? then toks[0].text else vars[toks[0].key]) + rest)
    case MissingVar(k) => MissingVar(k)
  }

  // ---------------------------------------------------------------- one replacement

  lemma ReplacesHole(key: string, rest: string, value: string)
    ensures ReplaceAll(Placeholder(key) + rest, Placeholder(key), value)
         == value + ReplaceAll(rest, Placeholder(key), value)
  {
    assert (Placeholder(key) + rest)[|Placeholder(key)|..] == rest;
  }

  /** A brace-free key is read off its placeholder: no other placeholder matches there. */
  lemma SameKey(key: string, other: string, rest: string)
    requires BraceFree(key) && BraceFree(other) && Placeholder(key) <= Placeholder(other) + rest
    ensures key == other
  {
    var p, s := Placeholder(key), Placeholder(other) + rest;
    assert forall i :: 0 <= i < |p| ==> p[i] == s[i];
    assert forall i :: 0 <= i < |key| ==> p[2 + i] == key[i];
    assert forall i :: 0 <= i < |other| ==> s[2 + i] == other[i];
    assert p[2 + |key|] == '}' && s[2 + |other|] == '}';
    assert |key| == |other|;
    assert forall i :: 0 <= i < |key| ==> key[i] == p[2 + i] == s[2 + i] == other[i];
  }

  /** Empty, or starting with a placeholder's braces. */
  predicate Opens(s: string) {
    s == [] || "{{" <= s
  }

  /** A placeholder cannot straddle text and the placeholder after it: its third character is no brace. */
  lemma NoStraddle(t: string, rest: string, key: string)
    requires BraceFree(key) && t != [] && Opens(rest) && Placeholder(key) <= t + rest
    ensures Placeholder(key) <= t
  {
    var p, s := Placeholder(key), t + rest;
    if |t| < |p| { Mismatch(t, rest, key); }
    assert p == s[..|p|] == t[..|p|];
  }

  lemma Mismatch(t: string, rest: string, key: string)
    requires BraceFree(key) && t != [] && "{{" <= rest && |t| < |Placeholder(key)|
    ensures !(Placeholder(key) <= t + rest)
  {
    var p, s := Placeholder(key), t + rest;
    var j := if |t| == 1 then 2 else |t|;
    assert s[j] == rest[j - |t|] == '{';
    assert p[j] != '{' by { if j < 2 + |key| { assert p[j] == key[j - 2]; } }
  }

  /** So text and the placeholder after it are replaced independently, whatever the text is. */
  lemma {:induction false} ReplacesApart(t: string, rest: string, key: string, value: string)
    requires BraceFree(key) && Opens(rest)
    ensures ReplaceAll(t + rest, Placeholder(key), value)
         == ReplaceAll(t, Placeholder(key), value) + ReplaceAll(rest, Placeholder(key), value)
    decreases |t|
  {
    var p := Placeholder(key);
    if t == [] {
      assert t + rest == rest;
    } else if p <= t {
      ReplacesApart(t[|p|..], rest, key, value);
      MatchApart(t, rest, p, value);
    } else {
      if p <= t + rest { NoStraddle(t, rest, key); }
      ReplacesApart(t[1..], rest, key, value);
      CopyApart(t, rest, p, value);
    }
  }

  lemma MatchApart(t: string, rest: string, p: string, value: string)
    requires p != [] && p <= t
    requires ReplaceAll(t[|p|..] + rest, p, value) == ReplaceAll(t[|p|..], p, value) + ReplaceAll(rest, p, value)
    ensures ReplaceAll(t + rest, p, value) == ReplaceAll(t, p, value) + ReplaceAll(rest, p, value)
  {
    assert p <= t + rest && (t + rest)[|p|..] == t[|p|..] + rest;
    Associate(value, ReplaceAll(t[|p|..], p, value), ReplaceAll(rest, p, value));
  }

  lemma CopyApart(t: string, rest: string, p: string, value: string)
    requires p != [] && t != [] && !(p <= t) && !(p <= t + rest)
    requires ReplaceAll(t[1..] + rest, p, value) == ReplaceAll(t[1..], p, value) + ReplaceAll(rest, p, value)
    ensures ReplaceAll(t + rest, p, value) == ReplaceAll(t, p, value) + ReplaceAll(rest, p, value)
  {
    assert (t + rest)[0] == t[0] && (t + rest)[1..] == t[1..] + rest;
    Associate([t[0]], ReplaceAll(t[1..], p, value), ReplaceAll(rest, p, value));
  }

  lemma Associate(t: string, u: string, v: string)
    ensures t + (u + v) == (t + u) + v
  {
  }

  lemma {:induction false} NothingToReplace(t: string, pat: string, value: string)
    requires pat != [] && forall i :: !OccursAt(t, pat, i)
    ensures ReplaceAll(t, pat, value) == t
    decreases |t|
  {
    if t != [] {
      assert t[0..] == t && !OccursAt(t, pat, 0);
      forall i ensures !OccursAt(t[1..], pat, i) { ShiftedAway(t, pat, i); }
      NothingToReplace(t[1..], pat, value);
      assert [t[0]] + t[1..] == t;
    }
  }

  lemma ShiftedAway(t: string, p: string, i: int)
    requires t != [] && forall j :: !OccursAt(t, p, j)
    ensures !OccursAt(t[1..], p, i)
  {
    if 0 <= i <= |t[1..]| {
      assert t[1..][i..] == t[i + 1..];
      assert !OccursAt(t, p, i + 1);
    }
  }

  /** Another key's placeholder is kept. */
  lemma KeepsHole(key: string, other: string, rest: string, value: string)
    requires BraceFree(key) && BraceFree(other) && key != other
    ensures ReplaceAll(Placeholder(other) + rest, Placeholder(key), value)
         == Placeholder(other) + ReplaceAll(rest, Placeholder(key), value)
  {
    var p, s := Placeholder(key), Placeholder(other) + rest;
    if p <= s { SameKey(key, other, rest); }
    var s1 := "{" + other + "}}" + rest;
    assert s[0] == '{' && s[1..] == s1;
    assert s1[1] != '{' by { if other == [] { assert s1[1] == '}'; } else { assert s1[1] == other[0]; } }
    assert p[1] == '{';
    var s2 := (other + "}}") + rest;
    assert s1[0] == '{' && s1[1..] == s2;
    CopiesBraceless(other + "}}", rest, p, value);
  }

  /** Nothing starts to match where there is no opening brace. */
  lemma {:induction false} CopiesBraceless(t: string, rest: string, pat: string, value: string)
    requires pat != [] && pat[0] == '{' && '{' !in t
    ensures ReplaceAll(t + rest, pat, value) == t + ReplaceAll(rest, pat, value)
    decreases |t|
  {
    if t == [] {
      assert t + rest == rest;
    } else {
      assert t[0] in t && (t + rest)[0] == t[0] && (t + rest)[1..] == t[1..] + rest;
      CopiesBraceless(t[1..], rest, pat, value);
    }
  }

  // ---------------------------------------------------------------- what is rendered

  /** Replaces the holes of the given keys by their values. */
  function Fill(toks: seq<Token>, vars: map<string, string>, keys: set<string>): seq<Token>
    requires keys <= vars.Keys
  {
    seq(|toks|, i requires 0 <= i < |toks| =>
      if toks[i].Hole? && toks[i].key in keys then Text(vars[toks[i].key]) else toks[i])
  }

  ghost predicate PlainKeys(toks: seq<Token>) {
    forall i :: 0 <= i < |toks| && toks[i].Hole? ==> BraceFree(toks[i].key)
  }

  ghost predicate Bound(toks: seq<Token>, vars: map<string, string>) {
    forall i :: 0 <= i < |toks| && toks[i].Hole? ==> toks[i].key in vars
  }

  ghost predicate PlainNames(vars: map<string, string>) {
    forall k :: k in vars ==> BraceFree(k)
  }

  /** The text a reader expects: every hole replaced by its value, and nothing else. */
  function Rendering(toks: seq<Token>, vars: map<string, string>): string {
    Flatten(Fill(toks, vars, vars.Keys))
  }

  lemma {:induction false} RenderingExpected(toks: seq<Token>, vars: map<string, string>)
    requires Bound(toks, vars)
    ensures Expected(toks, vars) == Ok(Rendering(toks, vars))
    decreases |toks|
  {
    if toks != [] {
      RenderingExpected(toks[1..], vars);
      assert Fill(toks, vars, vars.Keys)[1..] == Fill(toks[1..], vars, vars.Keys);
    }
  }

  lemma PlaceholderInside(a: string, s: string, b: string)
    requires HasPlaceholder(s)
    ensures HasPlaceholder(a + s + b)
  {
    var i, j :| i <= j && OccursAt(s, "{{", i) && OccursAt(s, "}}", j);
    var t := a + s + b;
    assert t[|a| + i..] == s[i..] + b && t[|a| + j..] == s[j..] + b;
    assert OccursAt(t, "{{", |a| + i) && OccursAt(t, "}}", |a| + j);
  }

  lemma OccurrenceIsPlaceholder(t: string, key: string, i: int)
    requires OccursAt(t, Placeholder(key), i)
    ensures HasPlaceholder(t)
  {
    var p := Placeholder(key);
    var n := 2 + |key|;
    assert "{{" <= p <= t[i..];
    assert t[i..][n] == p[n] && t[i..][n + 1] == p[n + 1];
    assert t[i + n..] == t[i..][n..];
    assert OccursAt(t, "{{", i) && OccursAt(t, "}}", i + n);
  }

  /** Text in front of what will be rendered without a placeholder holds none itself. */
  lemma CleanText(t: string, rest: string, key: string)
    requires !HasPlaceholder(t + rest)
    ensures forall i :: !OccursAt(t, Placeholder(key), i)
  {
    forall i ensures !OccursAt(t, Placeholder(key), i) {
      assert "" + t + rest == t + rest;
      if OccursAt(t, Placeholder(key), i) {
        OccurrenceIsPlaceholder(t, key, i);
        PlaceholderInside("", t, rest);
      }
    }
  }

  lemma CleanTail(t: string, rest: string)
    requires !HasPlaceholder(t + rest)
    ensures !HasPlaceholder(rest)
  {
    assert t + rest + "" == t + rest;
    if HasPlaceholder(rest) { PlaceholderInside(t, rest, ""); }
  }

  /** One key: if the rendering holds no placeholder, exactly the holes of that key are replaced. */
  lemma {:induction false} ReplaceFills(t: string, toks: seq<Token>, vars: map<string, string>, key: string)
    requires key in vars && BraceFree(key) && PlainKeys(toks) && Bound(toks, vars)
    requires !HasPlaceholder(t + Rendering(toks, vars))
    ensures ReplaceAll(t + Flatten(toks), Placeholder(key), vars[key]) == t + Flatten(Fill(toks, vars, {key}))
    decreases |toks|
  {
    if toks == [] {
      CleanText(t, [], key);
      assert t + [] == t;
      NothingToReplace(t, Placeholder(key), vars[key]);
    } else {
      var rest := toks[1..];
      FillHead(toks, vars, {key});
      FillHead(toks, vars, vars.Keys);
      if toks[0].Text? {
        Associate(t, toks[0].text, Rendering(rest, vars));
        ReplaceFills(t + toks[0].text, rest, vars, key);
        Associate(t, toks[0].text, Flatten(rest));
        Associate(t, toks[0].text, Flatten(Fill(rest, vars, {key})));
      } else {
        var k := toks[0].key;
        CleanHole(t, k, Rendering(rest, vars), vars, key);
        ReplaceFills("", rest, vars, key);
        FillHole(t, k, Flatten(rest), Flatten(Fill(rest, vars, {key})), key, vars[key]);
      }
    }
  }

  lemma FillHead(toks: seq<Token>, vars: map<string, string>, keys: set<string>)
    requires toks != [] && keys <= vars.Keys
    ensures Flatten(Fill(toks, vars, keys))
         == (if toks[0].Hole? && toks[0].key in keys then vars[toks[0].key] else Source(toks[0]))
            + Flatten(Fill(toks[1..], vars, keys))
  {
    assert Fill(toks, vars, keys)[1..] == Fill(toks[1..], vars, keys);
  }

  lemma CleanHole(t: string, k: string, rest: string, vars: map<string, string>, key: string)
    requires k in vars && !HasPlaceholder(t + (vars[k] + rest))
    ensures !HasPlaceholder("" + rest) && forall i :: !OccursAt(t, Placeholder(key), i)
  {
    CleanText(t, vars[k] + rest, key);
    CleanTail(t, vars[k] + rest);
    CleanTail(vars[k], rest);
    assert "" + rest == rest;
  }

  lemma FillHole(t: string, k: string, flat: string, fill: string, key: string, value: string)
    requires BraceFree(key) && BraceFree(k) && forall i :: !OccursAt(t, Placeholder(key), i)
    requires ReplaceAll("" + flat, Placeholder(key), value) == "" + fill
    ensures ReplaceAll(t + (Placeholder(k) + flat), Placeholder(key), value)
         == t + ((if k == key then value else Placeholder(k)) + fill)
  {
    assert "" + flat == flat && "" + fill == fill;
    ReplacesApart(t, Placeholder(k) + flat, key, value);
    NothingToReplace(t, Placeholder(key), value);
    if k == key { ReplacesHole(key, flat, value); } else { KeepsHole(key, k, flat, value); }
  }

  lemma FillTwice(toks: seq<Token>, vars: map<string, string>, done: set<string>, key: string)
    requires done <= vars.Keys && key in vars && PlainKeys(toks) && Bound(toks, vars)
    ensures Fill(Fill(toks, vars, done), vars, {key}) == Fill(toks, vars, done + {key})
    ensures PlainKeys(Fill(toks, vars, done)) && Bound(Fill(toks, vars, done), vars)
    ensures Rendering(Fill(toks, vars, done), vars) == Rendering(toks, vars)
  {
    assert Fill(Fill(toks, vars, done), vars, vars.Keys) == Fill(toks, vars, vars.Keys);
  }

  /** All keys: as long as the rendering holds no placeholder, values are never read as template text. */
  lemma {:induction false} KeysFill(toks: seq<Token>, vars: map<string, string>, order: seq<string>)
    requires PlainKeys(toks) && Bound(toks, vars) && PlainNames(vars)
    requires !HasPlaceholder(Rendering(toks, vars)) && forall k :: k in order ==> k in vars
    ensures ReplaceKeys(Flatten(toks), vars, order) == Flatten(Fill(toks, vars, set k | k in order))
    decreases |order|
  {
    if order == [] {
      assert Fill(toks, vars, set k | k in order) == toks;
    } else {
      var pre, key := order[..|order| - 1], Last(order);
      assert order == pre + [key];
      var done := set k | k in pre;
      KeysFill(toks, vars, pre);
      FillTwice(toks, vars, done, key);
      assert (set k | k in order) == done + {key};
      OneMoreKey(Fill(toks, vars, done), vars, key);
    }
  }

  lemma OneMoreKey(toks: seq<Token>, vars: map<string, string>, key: string)
    requires key in vars && BraceFree(key) && PlainKeys(toks) && Bound(toks, vars)
    requires !HasPlaceholder(Rendering(toks, vars))
    ensures ReplaceAll(Flatten(toks), Placeholder(key), vars[key]) == Flatten(Fill(toks, vars, {key}))
  {
    assert "" + Rendering(toks, vars) == Rendering(toks, vars);
    ReplaceFills("", toks, vars, key);
    assert "" + Flatten(toks) == Flatten(toks);
    assert "" + Flatten(Fill(toks, vars, {key})) == Flatten(Fill(toks, vars, {key}));
  }

  // ---------------------------------------------------------------- the exact condition

  /**
   For arbitrary text and values, every hole bound and brace-free names, every walk over
   the map renders token by token exactly when the rendering itself holds no placeholder.
   */
  lemma RendersExactly(toks: seq<Token>, vars: map<string, string>, order: seq<string>)
    requires PlainKeys(toks) && Bound(toks, vars) && PlainNames(vars) && Walks(order, vars)
    ensures Expected(toks, vars) == Ok(Rendering(toks, vars))
    ensures Scan(ReplaceKeys(Flatten(toks), vars, order)) == Expected(toks, vars)
       <==> !HasPlaceholder(Rendering(toks, vars))
  {
    RenderingExpected(toks, vars);
    SuccessLeavesNoPlaceholder(Flatten(toks), vars, order);
    if !HasPlaceholder(Rendering(toks, vars)) {
      KeysFill(toks, vars, order);
      assert (set k | k in order) == vars.Keys;
    }
  }

  /** An unbound placeholder outlives every walk, and keeps what is around it apart. */
  lemma {:induction false} UnboundStays(a: string, k: string, b: string, vars: map<string, string>, order: seq<string>)
    requires BraceFree(k) && k !in vars && PlainNames(vars) && forall x :: x in order ==> x in vars
    ensures ReplaceKeys(a + (Placeholder(k) + b), vars, order)
         == ReplaceKeys(a, vars, order) + (Placeholder(k) + ReplaceKeys(b, vars, order))
    decreases |order|
  {
    if order != [] {
      var pre, key := order[..|order| - 1], Last(order);
      UnboundStays(a, k, b, vars, pre);
      var rest := ReplaceKeys(b, vars, pre);
      ReplacesApart(ReplaceKeys(a, vars, pre), Placeholder(k) + rest, key, vars[key]);
      KeepsHole(key, k, rest, vars[key]);
    }
  }

  /** The template up to its leftmost unbound hole, that hole, and anything after it. */
  function Split(pre: seq<Token>, k: string, post: seq<Token>): seq<Token> {
    pre + [Hole(k)] + post
  }

  lemma {:induction false} FlattenSplit(pre: seq<Token>, k: string, post: seq<Token>)
    ensures Flatten(Split(pre, k, post)) == Flatten(pre) + (Placeholder(k) + Flatten(post))
    decreases |pre|
  {
    var toks := Split(pre, k, post);
    if pre == [] {
      assert toks == [Hole(k)] + post && toks[1..] == post;
      assert Flatten(toks) == Placeholder(k) + Flatten(post);
    } else {
      FlattenSplit(pre[1..], k, post);
      assert toks[1..] == Split(pre[1..], k, post) && toks[0] == pre[0];
      var tail := Placeholder(k) + Flatten(post);
      assert Source(pre[0]) + (Flatten(pre[1..]) + tail) == (Source(pre[0]) + Flatten(pre[1..])) + tail;
    }
  }

  lemma {:induction false} ExpectedMissing(pre: seq<Token>, k: string, post: seq<Token>, vars: map<string, string>)
    requires Bound(pre, vars) && k !in vars
    ensures Expected(Split(pre, k, post), vars) == MissingVar(k)
    decreases |pre|
  {
    if pre != [] {
      ExpectedMissing(pre[1..], k, post, vars);
      assert Split(pre, k, post)[1..] == Split(pre[1..], k, post);
    }
  }

  /** Whether text in front of a placeholder shows the scan an earlier "{{". */
  ghost predicate OpensEarly(t: string) {
    exists i :: OccursAt(t + "{", "{{", i)
  }

  /**
   For arbitrary text around an unbound placeholder and arbitrary values: no walk ever
   renders, and a walk reports that placeholder exactly when the text before it, as that
   walk leaves it, reports the same key itself or neither holds "{{" nor ends in "{".
   */
  lemma UnboundReported(a: string, k: string, b: string, vars: map<string, string>, order: seq<string>)
    requires BraceFree(k) && k !in vars && PlainNames(vars) && Walks(order, vars)
    ensures var before := ReplaceKeys(a, vars, order);
            var r := Scan(ReplaceKeys(a + (Placeholder(k) + b), vars, order));
            && r.MissingVar?
            && (r == MissingVar(k) <==> Scan(before) == MissingVar(k) || !OpensEarly(before))
  {
    UnboundStays(a, k, b, vars, order);
    var before := ReplaceKeys(a, vars, order);
    ScanSucceeds(before);
    if HasPlaceholder(before) {
      ScanPrefix(before, Placeholder(k) + ReplaceKeys(b, vars, order));
    } else {
      ScanUnbound(before, k, ReplaceKeys(b, vars, order));
    }
  }

  /**
   With every earlier hole bound and their rendering free of placeholders, every walk
   reports the leftmost unbound hole exactly when that rendering neither holds "{{" nor
   ends in "{".
   */
  lemma UnboundExactly(pre: seq<Token>, k: string, post: seq<Token>, vars: map<string, string>, order: seq<string>)
    requires PlainKeys(pre) && Bound(pre, vars) && PlainNames(vars) && Walks(order, vars)
    requires BraceFree(k) && k !in vars && !HasPlaceholder(Rendering(pre, vars))
    ensures Expected(Split(pre, k, post), vars) == MissingVar(k)
    ensures Scan(ReplaceKeys(Flatten(Split(pre, k, post)), vars, order)) == MissingVar(k)
       <==> !OpensEarly(Rendering(pre, vars))
  {
    ExpectedMissing(pre, k, post, vars);
    FlattenSplit(pre, k, post);
    KeysFill(pre, vars, order);
    assert (set x | x in order) == vars.Keys;
    UnboundReported(Flatten(pre), k, Flatten(post), vars, order);
    SuccessLeavesNoPlaceholder(Flatten(pre), vars, order);
  }

  /** A placeholder in the text in front is what the scan reports. */
  lemma ScanPrefix(t: string, rest: string)
    requires HasPlaceholder(t)
    ensures Scan(t + rest) == Scan(t) && Scan(t).MissingVar? && OpensEarly(t)
  {
    var start, close := FirstPair(t);
    PairsOfPrefix(t, rest, "{{");
    PairsOfPrefix(t, rest, "}}");
    PairsOfPrefix(t, "{", "{{");
    assert OccursAt(t + "{", "{{", start);
    FirstIndex(t + rest, "{{", start);
    ScanEnd(t, start, close);
    ScanEnd(t + rest, start, close);
    SameSlice(t, rest, start + 2, close);
  }

  lemma SameSlice(t: string, rest: string, i: int, j: int)
    requires 0 <= i <= j <= |t|
    ensures (t + rest)[i..j] == t[i..j]
  {
  }

  lemma FirstIndex(s: string, pat: string, i: int)
    requires OccursAt(s, pat, i) && forall j :: OccursAt(s, pat, j) ==> i <= j
    ensures Index(s, pat) == i
  {
    IndexFinds(s, pat);
  }

  /** The first "{{" of a text with a placeholder, and the first "}}" after it. */
  lemma FirstPair(t: string) returns (start: int, close: int)
    requires HasPlaceholder(t)
    ensures start == Index(t, "{{") && OccursAt(t, "{{", start) && start + 2 <= close && OccursAt(t, "}}", close)
    ensures forall j :: OccursAt(t, "{{", j) ==> start <= j
    ensures forall j :: start <= j && OccursAt(t, "}}", j) ==> close <= j
  {
    var i, j :| i <= j && OccursAt(t, "{{", i) && OccursAt(t, "}}", j);
    start := Index(t, "{{");
    IndexFinds(t, "{{");
    close := FirstOccurrence(t, "}}", start, j);
    PairAt(t, "{{", start);
    PairAt(t, "}}", close);
  }

  lemma FirstOccurrence(t: string, pat: string, start: int, j: int) returns (first: int)
    requires 0 <= start <= j && OccursAt(t, pat, j)
    ensures start <= first && OccursAt(t, pat, first)
    ensures forall i :: start <= i && OccursAt(t, pat, i) ==> first <= i
  {
    IndexFinds(t[start..], pat);
    OccursShifted(t, pat, start, j - start);
    first := start + Index(t[start..], pat);
    OccursShifted(t, pat, start, first - start);
    forall i | start <= i && OccursAt(t, pat, i) ensures first <= i { OccursShifted(t, pat, start, i - start); }
  }

  /** Appending text adds occurrences only at the end. */
  lemma PairsOfPrefix(t: string, rest: string, pat: string)
    requires |pat| == 2
    ensures forall i :: OccursAt(t, pat, i) ==> OccursAt(t + rest, pat, i) && i + 2 <= |t|
    ensures forall i :: i + 2 <= |t| && OccursAt(t + rest, pat, i) ==> OccursAt(t, pat, i)
  {
    forall i ensures OccursAt(t, pat, i) ==> OccursAt(t + rest, pat, i) && i + 2 <= |t|
             ensures i + 2 <= |t| && OccursAt(t + rest, pat, i) ==> OccursAt(t, pat, i)
    {
      PairAt(t, pat, i);
      PairAt(t + rest, pat, i);
    }
  }

  lemma PairAt(s: string, pat: string, i: int)
    requires |pat| == 2
    ensures OccursAt(s, pat, i) <==> 0 <= i && i + 1 < |s| && s[i] == pat[0] && s[i + 1] == pat[1]
  {
    if 0 <= i && i + 1 < |s| { assert s[i..][0] == s[i] && s[i..][1] == s[i + 1]; }
  }

  lemma OpenAt(t: string, k: string, rest: string)
    ensures var s := t + (Placeholder(k) + rest);
            && OccursAt(s, "{{", |t|)
            && (forall i :: i < |t| ==> OccursAt(s, "{{", i) == OccursAt(t + "{", "{{", i))
            && (forall i :: OccursAt(t + "{", "{{", i) ==> i < |t|)
  {
    var s := t + (Placeholder(k) + rest);
    PairAt(s, "{{", |t|);
    forall i ensures i < |t| ==> OccursAt(s, "{{", i) == OccursAt(t + "{", "{{", i)
             ensures OccursAt(t + "{", "{{", i) ==> i < |t|
    {
      PairAt(s, "{{", i);
      PairAt(t + "{", "{{", i);
    }
  }

  /** Characters of the text before a hole, and of the hole. */
  lemma HoleChars(t: string, k: string, rest: string, j: int)
    requires BraceFree(k) && 0 <= j < |t| + 2 + |k|
    ensures var s := t + (Placeholder(k) + rest); j < |s| && (j < |t| ==> s[j] == t[j]) && (j >= |t| ==> s[j] != '}')
  {
    var hole := Placeholder(k);
    var s := t + (hole + rest);
    if j >= |t| {
      assert s[j] == hole[j - |t|];
      if j >= |t| + 2 { assert hole[j - |t|] == k[j - |t| - 2]; }
    }
  }

  lemma CloseAt(t: string, k: string, rest: string)
    requires BraceFree(k) && !HasPlaceholder(t)
    ensures var s := t + (Placeholder(k) + rest);
            && OccursAt(s, "}}", |t| + 2 + |k|)
            && (forall i, j :: i <= j && OccursAt(s, "{{", i) && OccursAt(s, "}}", j) ==> |t| + 2 + |k| <= j)
  {
    var hole := Placeholder(k);
    var s := t + (hole + rest);
    var n := 2 + |k|;
    assert s[|t| + n] == hole[n] && s[|t| + n + 1] == hole[n + 1];
    PairAt(s, "}}", |t| + n);
    forall i, j | i <= j && OccursAt(s, "{{", i) && OccursAt(s, "}}", j) ensures |t| + n <= j {
      if j < |t| + n { CloseInside(t, k, rest, i, j); }
    }
  }

  /** A pair that closes before the hole does lies in the text. */
  lemma CloseInside(t: string, k: string, rest: string, i: int, j: int)
    requires BraceFree(k) && i <= j < |t| + 2 + |k|
    requires var s := t + (Placeholder(k) + rest); OccursAt(s, "{{", i) && OccursAt(s, "}}", j)
    ensures HasPlaceholder(t)
  {
    var s := t + (Placeholder(k) + rest);
    PairAt(s, "{{", i);
    PairAt(s, "}}", j);
    HoleChars(t, k, rest, j);
    assert s[|t|] == '{';
    HoleChars(t, k, rest, i);
    HoleChars(t, k, rest, i + 1);
    HoleChars(t, k, rest, j + 1);
    PairAt(t, "{{", i);
    PairAt(t, "}}", j);
  }

  lemma KeyInside(t: string, k: string, rest: string)
    ensures (t + (Placeholder(k) + rest))[|t| + 2..|t| + 2 + |k|] == k
  {
  }

  lemma ScanUnbound(t: string, k: string, rest: string)
    requires BraceFree(k) && !HasPlaceholder(t)
    ensures Scan(t + (Placeholder(k) + rest)).MissingVar?
    ensures Scan(t + (Placeholder(k) + rest)) == MissingVar(k) <==> !OpensEarly(t)
  {
    var s := t + (Placeholder(k) + rest);
    OpenAt(t, k, rest);
    CloseAt(t, k, rest);
    IndexFinds(s, "{{");
    var start := Index(s, "{{");
    assert start == |t| <==> !OpensEarly(t);
    var close := |t| + 2 + |k|;
    ScanEnd(s, start, close);
    if start == |t| { KeyInside(t, k, rest); }
  }

  /** The scan names what lies between the first "{{" and the first "}}" after it. */
  lemma ScanEnd(s: string, start: int, close: int)
    requires start == Index(s, "{{") >= 0 && start + 2 <= close && OccursAt(s, "}}", close)
    requires forall j :: start <= j && OccursAt(s, "}}", j) ==> close <= j
    ensures Scan(s) == MissingVar(s[start + 2..close])
  {
    FirstFrom(s, "}}", start, close);
  }

  lemma FirstFrom(s: string, pat: string, start: int, close: int)
    requires 0 <= start <= close && OccursAt(s, pat, close)
    requires forall j :: start <= j && OccursAt(s, pat, j) ==> close <= j
    ensures Index(s[start..], pat) == close - start
  {
    var end := Index(s[start..], pat);
    IndexFinds(s[start..], pat);
    OccursShifted(s, pat, start, close - start);
    OccursShifted(s, pat, start, end);
  }

  lemma OccursShifted(s: string, pat: string, start: int, j: int)
    requires 0 <= start <= |s| && 0 <= j
    ensures OccursAt(s[start..], pat, j) == OccursAt(s, pat, start + j)
  {
    if j <= |s[start..]| { assert s[start..][j..] == s[start + j..]; }
  }

  // ---------------------------------------------------------------- templates and values without braces

  ghost predicate BraceFreeVars(vars: map<string, string>) {
    forall k :: k in vars ==> BraceFree(k) && BraceFree(vars[k])
  }

  /** Every hole has a value, and a brace-free one. */
  ghost predicate BraceFreeValues(toks: seq<Token>, vars: map<string, string>) {
    Bound(toks, vars) && forall i :: 0 <= i < |toks| && toks[i].Hole? ==> BraceFree(vars[toks[i].key])
  }

  lemma {:induction false} RenderingBraceFree(toks: seq<Token>, vars: map<string, string>)
    requires WellFormed(toks) && BraceFreeValues(toks, vars)
    ensures BraceFree(Rendering(toks, vars))
    decreases |toks|
  {
    if toks != [] {
      RenderingBraceFree(toks[1..], vars);
      FillHead(toks, vars, vars.Keys);
    }
  }

  lemma BraceFreeIsClean(s: string)
    requires BraceFree(s)
    ensures !HasPlaceholder(s) && !OpensEarly(s)
  {
    forall i ensures !OccursAt(s, "{{", i) { PairAt(s, "{{", i); }
    forall i ensures !OccursAt(s + "{", "{{", i) { PairAt(s + "{", "{{", i); }
  }

  /**
   For a template of brace-free text and placeholders, and brace-free variables, every
   walk over the map renders what a reader expects: the same text, or the same error.
   */
  lemma AnyOrderRenders(toks: seq<Token>, vars: map<string, string>, order: seq<string>)
    requires WellFormed(toks) && BraceFreeVars(vars) && Walks(order, vars)
    ensures Scan(ReplaceKeys(Flatten(toks), vars, order)) == Expected(toks, vars)
  {
    if Bound(toks, vars) {
      RenderingBraceFree(toks, vars);
      BraceFreeIsClean(Rendering(toks, vars));
      RendersExactly(toks, vars, order);
    } else {
      var n := FirstUnbound(toks, vars);
      var pre, k, post := toks[..n], toks[n].key, toks[n + 1..];
      assert toks == Split(pre, k, post);
      RenderingBraceFree(pre, vars);
      BraceFreeIsClean(Rendering(pre, vars));
      UnboundExactly(pre, k, post, vars, order);
    }
  }

  lemma FirstUnbound(toks: seq<Token>, vars: map<string, string>) returns (n: nat)
    requires !Bound(toks, vars)
    ensures n < |toks| && toks[n].Hole? && toks[n].key !in vars && Bound(toks[..n], vars)
  {
    n := 0;
    while !(toks[n].Hole? && toks[n].key !in vars)
      invariant n < |toks| && Bound(toks[..n], vars)
      decreases |toks| - n
    {
      n := n + 1;
      assert toks[..n] == toks[..n - 1] + [toks[n - 1]];
      assert toks[..|toks|] == toks;
    }
  }

  // ---------------------------------------------------------------- names with braces

  lemma JustHole(key: string, value: string)
    ensures ReplaceAll(Placeholder(key), Placeholder(key), value) == value
  {
    ReplacesHole(key, "", value);
    assert Placeholder(key) + "" == Placeholder(key) && value + "" == value;
  }

  /** There is no token-by-token reading for a name with braces: it can match across two placeholders. */
  lemma BracedKeyMisleads()
    ensures var toks, vars, order := [Hole(""), Hole("")], map["}}{{" := "x"], ["}}{{"];
            && WellFormed(toks) && Walks(order, vars)
            && Expected(toks, vars) == MissingVar("") && Scan(ReplaceKeys(Flatten(toks), vars, order)) == Ok("x")
  {
    var toks, key, vars := [Hole(""), Hole("")], "}}{{", map["}}{{" := "x"];
    assert toks[1..] == [Hole("")] && toks[1..][1..] == [];
    assert Flatten(toks) == Placeholder(key);
    assert [key][..0] == [];
    var first := ReplaceKeys(Placeholder(key), vars, []);
    assert ReplaceKeys(Placeholder(key), vars, [key]) == ReplaceAll(first, Placeholder(key), "x");
    JustHole(key, "x");
    ScanBraceFree("x");
  }

  lemma ScanBraceFree(s: string)
    requires BraceFree(s)
    ensures Scan(s) == Ok(s)
  {
    BraceFreeIsClean(s);
    ScanSucceeds(s);
  }
}
