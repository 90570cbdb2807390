/** Placeholder substitution in monitor templates: one ReplaceAll per parameter, in name order,
    against a substitution of all placeholders at once. */
module Templates {
  import opened Sorting

  /** strings.ReplaceAll for a non-empty `what`: leftmost matches that do not overlap. */
  function ReplaceAll(s: string, what: string, value: string): string
    requires what != ""
  {
    if |s| < |what| then s
    else if s[..|what|] == what then value + ReplaceAll(s[|what|..], what, value)
    else [s[0]] + ReplaceAll(s[1..], what, value)
  }

  function Placeholder(name: string): (p: string)
    ensures p != ""
  {
    "{{" + name + "}}"
  }

  /** The parameters replaced one after the other. */
  function ReplaceEach(s: string, names: seq<string>, params: map<string, string>): string
    requires forall i :: 0 <= i < |names| ==> names[i] in params
  {
    if names == [] then s
    else
      var n := |names| - 1;
      ReplaceAll(ReplaceEach(s, names[..n], params), Placeholder(names[n]), params[names[n]])
  }

  // ----- templates as literals and placeholders -----

  /** Literal text, then a placeholder and the rest, or the end. */
  datatype Template = End(text: string) | Then(text: string, name: string, rest: Template)

  function Render(t: Template): string {
    match t
    case End(text) => text
    case Then(text, name, rest) => text + Placeholder(name) + Render(rest)
  }

  /** Every placeholder of a given parameter replaced, in one pass; the others stay. */
  function Substitute(t: Template, params: map<string, string>): string {
    match t
    case End(text) => text
    case Then(text, name, rest) =>
      text + (if name in params then params[name] else Placeholder(name)) + Substitute(rest, params)
  }

  predicate BraceFree(s: string) {
    '{' !in s && '}' !in s
  }

  predicate OccursAt(s: string, p: string, i: nat) {
    i + |p| <= |s| && s[i..i + |p|] == p
  }

  predicate Occurs(s: string, p: string) {
    exists i :: 0 <= i <= |s| && OccursAt(s, p, i)
  }

  /** The last `k` characters of `s` are the beginning of `p`, but not all of it. */
  predicate EndsWithin(s: string, p: string, k: nat) {
    0 < k < |p| && k <= |s| && s[|s| - k..] == p[..k]
  }

  predicate Overhangs(s: string, p: string) {
    exists k :: 0 <= k <= |s| && EndsWithin(s, p, k)
  }

  /** No placeholder of `name` starts in the text, whatever follows it. */
  predicate Quiet(text: string, name: string) {
    !Occurs(text, Placeholder(name)) && !Overhangs(text, Placeholder(name))
  }

  /** No placeholder of `name` starts in the literal text; names have no braces. */
  predicate Clean(t: Template, name: string) {
    match t
    case End(text) => !Occurs(text, Placeholder(name))
    case Then(text, other, rest) => Quiet(text, name) && BraceFree(other) && Clean(rest, name)
  }

  // ----- text in which no placeholder starts -----

  lemma OccursInTail(s: string, p: string, i: nat)
    requires 0 < i && OccursAt(s, p, i)
    ensures OccursAt(s[1..], p, i - 1)
  {
    assert s[1..][i - 1..i - 1 + |p|] == s[i..i + |p|];
  }

  lemma TailOccurs(s: string, p: string, i: nat)
    requires s != "" && OccursAt(s[1..], p, i)
    ensures OccursAt(s, p, i + 1)
  {
    assert s[1..][i..i + |p|] == s[i + 1..i + 1 + |p|];
  }

  lemma TailIsQuiet(text: string, name: string)
    requires text != ""
    ensures Quiet(text, name) ==> Quiet(text[1..], name)
    ensures !Occurs(text, Placeholder(name)) ==> !Occurs(text[1..], Placeholder(name))
  {
    var p, tail := Placeholder(name), text[1..];
    if i: nat :| i <= |tail| && OccursAt(tail, p, i) {
      TailOccurs(text, p, i);
    }
    if k: nat :| k <= |tail| && EndsWithin(tail, p, k) {
      assert tail[|tail| - k..] == text[|text| - k..];
      assert EndsWithin(text, p, k);
    }
  }

  lemma NoMatchInQuiet(text: string, rest: string, name: string)
    requires text != "" && Quiet(text, name)
    ensures
      var s, p := text + rest, Placeholder(name);
      |s| < |p| || s[..|p|] != p
  {
    var s, p := text + rest, Placeholder(name);
    if |s| >= |p| && s[..|p|] == p {
      if |p| <= |text| {
        assert text[0..|p|] == s[..|p|];
        assert OccursAt(text, p, 0);
      } else {
        assert text[|text| - |text|..] == text == s[..|p|][..|text|];
        assert EndsWithin(text, p, |text|);
      }
    }
  }

  lemma Assoc(a: string, b: string, c: string)
    ensures a + (b + c) == a + b + c
  {
  }

  lemma CopiesOne(s: string, p: string, value: string)
    requires p != "" && s != "" && (|s| < |p| || s[..|p|] != p)
    ensures ReplaceAll(s, p, value) == [s[0]] + ReplaceAll(s[1..], p, value)
  {
  }

  /** Quiet text is copied. */
  lemma {:induction false} CopiesText(text: string, rest: string, name: string, value: string)
    requires Quiet(text, name)
    ensures ReplaceAll(text + rest, Placeholder(name), value) == text + ReplaceAll(rest, Placeholder(name), value)
  {
    if text == "" {
      assert text + rest == rest;
    } else {
      var s, tail := text + rest, text[1..];
      NoMatchInQuiet(text, rest, name);
      CopiesOne(s, Placeholder(name), value);
      assert s[0] == text[0] && s[1..] == tail + rest;
      TailIsQuiet(text, name);
      CopiesText(tail, rest, name, value);
      Assoc([text[0]], tail, ReplaceAll(rest, Placeholder(name), value));
      assert text == [text[0]] + tail;
    }
  }

  /** Text without the placeholder is left alone. */
  lemma {:induction false} CopiesEnd(text: string, name: string, value: string)
    requires !Occurs(text, Placeholder(name))
    ensures ReplaceAll(text, Placeholder(name), value) == text
  {
    var p := Placeholder(name);
    if |text| >= |p| {
      if text[..|p|] == p {
        assert OccursAt(text, p, 0);
      }
      TailIsQuiet(text, name);
      CopiesEnd(text[1..], name, value);
    }
  }

  lemma JoinedOccurs(a: string, b: string, p: string, i: nat)
    requires OccursAt(a + b, p, i) && i <= |a|
    ensures Occurs(a, p) || Occurs(b, p) || Overhangs(a, p)
  {
    var s := a + b;
    if i == |a| {
      assert s[i..i + |p|] == b[0..|p|];
      assert OccursAt(b, p, 0);
    } else if i + |p| <= |a| {
      assert s[i..i + |p|] == a[i..i + |p|];
      assert OccursAt(a, p, i);
    } else {
      assert a[|a| - (|a| - i)..] == s[i..i + |p|][..|a| - i];
      assert EndsWithin(a, p, |a| - i);
    }
  }

  lemma QuietThenNoOccurrence(a: string, b: string, name: string)
    requires Quiet(a, name) && !Occurs(b, Placeholder(name))
    ensures !Occurs(a + b, Placeholder(name))
  {
    var p := Placeholder(name);
    if i: nat :| i <= |a + b| && OccursAt(a + b, p, i) {
      if i <= |a| {
        JoinedOccurs(a, b, p, i);
      } else {
        assert (a + b)[i..i + |p|] == b[i - |a|..i - |a| + |p|];
        assert OccursAt(b, p, i - |a|);
      }
    }
  }

  lemma JoinedIsQuiet(a: string, b: string, name: string)
    requires Quiet(a, name) && Quiet(b, name)
    ensures Quiet(a + b, name)
  {
    var p := Placeholder(name);
    QuietThenNoOccurrence(a, b, name);
    if k: nat :| k <= |a + b| && EndsWithin(a + b, p, k) {
      var s := a + b;
      if k <= |b| {
        assert b[|b| - k..] == s[|s| - k..];
        assert EndsWithin(b, p, k);
      } else {
        var n := k - |b|;
        assert s[|s| - k..] == a[|a| - n..] + b;
        assert (a[|a| - n..] + b)[..n] == a[|a| - n..] && p[..k][..n] == p[..n];
        assert EndsWithin(a, p, n);
      }
    }
  }

  predicate NoDoubleBrace(s: string) {
    forall i :: 0 <= i < |s| - 1 ==> !(s[i] == '{' && s[i + 1] == '{')
  }

  lemma NoDoubleBraceNoOccurrence(s: string, name: string)
    requires NoDoubleBrace(s)
    ensures !Occurs(s, Placeholder(name))
  {
    var p := Placeholder(name);
    if i: nat :| i <= |s| && OccursAt(s, p, i) {
      assert s[i..i + |p|][0] == s[i] == '{' && s[i..i + |p|][1] == s[i + 1] == '{';
    }
  }

  /** Text without "{{" that does not end in "{", such as a JSON object, is quiet for every name. */
  lemma PlainIsQuiet(s: string, name: string)
    requires NoDoubleBrace(s) && (s == "" || s[|s| - 1] != '{')
    ensures Quiet(s, name)
  {
    var p := Placeholder(name);
    NoDoubleBraceNoOccurrence(s, name);
    forall k: nat | EndsWithin(s, p, k) ensures false { OverhangStarts(s, name, k); }
  }

  lemma OverhangStarts(s: string, name: string, k: nat)
    requires EndsWithin(s, Placeholder(name), k)
    ensures s[|s| - k] == '{' && (k > 1 ==> s[|s| - k + 1] == '{')
  {
    var end, p := s[|s| - k..], Placeholder(name);
    assert end[0] == s[|s| - k] && p[..k][0] == '{';
    if k > 1 {
      assert end[1] == s[|s| - k + 1] && p[..k][1] == '{';
    }
  }

  // ----- placeholders -----

  /** Its own placeholder is replaced. */
  lemma ReplacesOwn(rest: string, name: string, value: string)
    ensures ReplaceAll(Placeholder(name) + rest, Placeholder(name), value) == value + ReplaceAll(rest, Placeholder(name), value)
  {
  }

  lemma InnerIsPlain(name: string)
    requires BraceFree(name)
    ensures
      var inner := Placeholder(name)[1..];
      NoDoubleBrace(inner) && inner[|inner| - 1] != '{'
  {
    assert Placeholder(name)[1..] == "{" + name + "}}";
  }

  /** One placeholder is no beginning of another. */
  lemma NoPrefix(a: string, b: string)
    requires BraceFree(a) && BraceFree(b) && a != b && |Placeholder(a)| <= |Placeholder(b)|
    ensures Placeholder(b)[..|Placeholder(a)|] != Placeholder(a)
  {
    var p, q := Placeholder(a), Placeholder(b);
    if |a| < |b| {
      assert p[2 + |a|] == '}' && q[..|p|][2 + |a|] == q[2 + |a|] == b[|a|];
    } else {
      var k :| 0 <= k < |a| && a[k] != b[k];
      assert p[2 + k] == a[k] && q[..|p|][2 + k] == q[2 + k] == b[k];
    }
  }

  /** Another parameter's placeholder is quiet. */
  lemma OtherIsQuiet(other: string, name: string)
    requires BraceFree(other) && BraceFree(name) && other != name
    ensures Quiet(Placeholder(other), name)
  {
    var s, p := Placeholder(other), Placeholder(name);
    InnerIsPlain(other);
    PlainIsQuiet(s[1..], name);
    forall i: nat | OccursAt(s, p, i) ensures i == 0 {
      if i > 0 {
        OccursInTail(s, p, i);
      }
    }
    forall k: nat | EndsWithin(s, p, k) ensures k == |s| {
      if k < |s| {
        OverhangInTail(s, p, k);
      }
    }
    if |p| <= |s| {
      NoPrefix(name, other);
      assert s[0..|p|] == s[..|p|];
    } else {
      NoPrefix(other, name);
      assert s[0..] == s;
    }
  }

  lemma OverhangInTail(s: string, p: string, k: nat)
    requires EndsWithin(s, p, k) && k < |s|
    ensures EndsWithin(s[1..], p, k)
  {
    assert s[1..][|s| - 1 - k..] == s[|s| - k..];
  }

  // ----- one parameter -----

  function Prepend(s: string, t: Template): Template {
    match t
    case End(text) => End(s + text)
    case Then(text, name, rest) => Then(s + text, name, rest)
  }

  function Fill(t: Template, name: string, value: string): Template {
    match t
    case End(_) => t
    case Then(text, other, rest) =>
      if other == name then Prepend(text + value, Fill(rest, name, value))
      else Then(text, other, Fill(rest, name, value))
  }

  lemma PrependRenders(s: string, t: Template)
    ensures Render(Prepend(s, t)) == s + Render(t)
  {
  }

  lemma PrependKeepsClean(s: string, t: Template, name: string)
    requires Clean(t, name) && Quiet(s, name)
    ensures Clean(Prepend(s, t), name)
  {
    match t
    case End(text) => QuietThenNoOccurrence(s, text, name);
    case Then(text, _, _) => JoinedIsQuiet(s, text, name);
  }

  /** A quiet value keeps the template clean for the other parameter. */
  lemma {:induction false} FillKeepsClean(t: Template, name: string, value: string, other: string)
    requires Clean(t, other) && Quiet(value, other)
    ensures Clean(Fill(t, name, value), other)
  {
    if t.Then? {
      FillKeepsClean(t.rest, name, value, other);
      if t.name == name {
        JoinedIsQuiet(t.text, value, other);
        PrependKeepsClean(t.text + value, Fill(t.rest, name, value), other);
      }
    }
  }

  lemma ReplacesAfterText(text: string, rest: string, name: string, value: string)
    requires Quiet(text, name)
    ensures ReplaceAll(text + Placeholder(name) + rest, Placeholder(name), value) ==
            text + value + ReplaceAll(rest, Placeholder(name), value)
  {
    Assoc(text, Placeholder(name), rest);
    CopiesText(text, Placeholder(name) + rest, name, value);
    ReplacesOwn(rest, name, value);
    Assoc(text, value, ReplaceAll(rest, Placeholder(name), value));
  }

  lemma CopiesAfterText(text: string, other: string, rest: string, name: string, value: string)
    requires Quiet(text, name) && BraceFree(other) && BraceFree(name) && other != name
    ensures ReplaceAll(text + Placeholder(other) + rest, Placeholder(name), value) ==
            text + Placeholder(other) + ReplaceAll(rest, Placeholder(name), value)
  {
    OtherIsQuiet(other, name);
    JoinedIsQuiet(text, Placeholder(other), name);
    CopiesText(text + Placeholder(other), rest, name, value);
  }

  /** One ReplaceAll fills the placeholders of one parameter and touches nothing else. */
  lemma {:induction false} ReplaceIsFill(t: Template, name: string, value: string)
    requires Clean(t, name) && BraceFree(name)
    ensures ReplaceAll(Render(t), Placeholder(name), value) == Render(Fill(t, name, value))
  {
    match t
    case End(text) => CopiesEnd(text, name, value);
    case Then(text, other, rest) =>
      ReplaceIsFill(rest, name, value);
      if other == name {
        ReplacesAfterText(text, Render(rest), name, value);
        PrependRenders(text + value, Fill(rest, name, value));
      } else {
        CopiesAfterText(text, other, Render(rest), name, value);
      }
  }

  // ----- all parameters -----

  lemma PrependSubstitutes(s: string, t: Template, params: map<string, string>)
    ensures Substitute(Prepend(s, t), params) == s + Substitute(t, params)
  {
  }

  /** Filling one parameter first does not change what the simultaneous substitution yields. */
  lemma {:induction false} FillThenSubstitute(t: Template, name: string, params: map<string, string>)
    requires name in params
    ensures Substitute(Fill(t, name, params[name]), params) == Substitute(t, params)
  {
    if t.Then? {
      FillThenSubstitute(t.rest, name, params);
      if t.name == name {
        PrependSubstitutes(t.text + params[name], Fill(t.rest, name, params[name]), params);
      }
    }
  }

  predicate HasHole(t: Template, name: string) {
    t.Then? && (t.name == name || HasHole(t.rest, name))
  }

  lemma PrependHoles(s: string, t: Template, other: string)
    ensures HasHole(Prepend(s, t), other) <==> HasHole(t, other)
  {
  }

  lemma {:induction false} FillHoles(t: Template, name: string, value: string, other: string)
    ensures HasHole(Fill(t, name, value), other) <==> HasHole(t, other) && other != name
  {
    if t.Then? {
      FillHoles(t.rest, name, value, other);
      if t.name == name {
        PrependHoles(t.text + value, Fill(t.rest, name, value), other);
      }
    }
  }

  predicate Given(names: seq<string>, params: map<string, string>) {
    forall i :: 0 <= i < |names| ==> names[i] in params && BraceFree(names[i])
  }

  /** A parameter whose value is its own placeholder changes nothing. */
  predicate Inert(name: string, params: map<string, string>) {
    name in params && params[name] == Placeholder(name)
  }

  predicate Disturbs(names: seq<string>, params: map<string, string>, i: nat, j: nat)
    requires Given(names, params)
  {
    i < j < |names| && !Inert(names[j], params) && !Quiet(params[names[i]], names[j])
  }

  /** No placeholder of a later parameter starts in the value of an earlier one. */
  ghost predicate Undisturbed(names: seq<string>, params: map<string, string>)
    requires Given(names, params)
  {
    forall i, j :: !Disturbs(names, params, i, j)
  }

  ghost predicate CleanTemplate(t: Template, names: seq<string>, params: map<string, string>) {
    forall i {:trigger names[i]} :: 0 <= i < |names| && !Inert(names[i], params) ==> Clean(t, names[i])
  }

  lemma {:induction false} ReplacedByItself(s: string, p: string)
    requires p != ""
    ensures ReplaceAll(s, p, p) == s
  {
    if |s| >= |p| {
      if s[..|p|] == p {
        ReplacedByItself(s[|p|..], p);
        assert s == s[..|p|] + s[|p|..];
      } else {
        ReplacedByItself(s[1..], p);
        assert s == [s[0]] + s[1..];
      }
    }
  }

  function FillEach(t: Template, names: seq<string>, params: map<string, string>): Template
    requires forall i :: 0 <= i < |names| ==> names[i] in params
  {
    if names == [] then t
    else
      var n := |names| - 1;
      var before := FillEach(t, names[..n], params);
      if Inert(names[n], params) then before else Fill(before, names[n], params[names[n]])
  }

  /** After the first `m` parameters the text is the template with those filled, and it is still
      clean for the ones to come. */
  lemma {:induction false} FillEachKeepsClean(t: Template, names: seq<string>, params: map<string, string>, m: nat, j: nat)
    requires Given(names, params) && Undisturbed(names, params) && m <= j < |names|
    requires !Inert(names[j], params) && Clean(t, names[j])
    ensures Clean(FillEach(t, names[..m], params), names[j])
  {
    if m > 0 {
      assert names[..m][..m - 1] == names[..m - 1];
      FillEachKeepsClean(t, names, params, m - 1, j);
      assert !Disturbs(names, params, m - 1, j);
      FillKeepsClean(FillEach(t, names[..m - 1], params), names[m - 1], params[names[m - 1]], names[j]);
    }
  }

  lemma {:induction false} ReplaceEachIsFillEach(t: Template, names: seq<string>, params: map<string, string>, m: nat)
    requires Given(names, params) && Undisturbed(names, params) && CleanTemplate(t, names, params) && m <= |names|
    ensures ReplaceEach(Render(t), names[..m], params) == Render(FillEach(t, names[..m], params))
  {
    if m > 0 {
      var n, before := m - 1, FillEach(t, names[..m - 1], params);
      assert names[..m][..n] == names[..n];
      ReplaceEachIsFillEach(t, names, params, n);
      if Inert(names[n], params) {
        ReplacedByItself(Render(before), Placeholder(names[n]));
      } else {
        FillEachKeepsClean(t, names, params, n, n);
        ReplaceIsFill(before, names[n], params[names[n]]);
      }
    }
  }

  lemma {:induction false} FillEachSubstitutes(t: Template, names: seq<string>, params: map<string, string>)
    requires forall i :: 0 <= i < |names| ==> names[i] in params
    ensures Substitute(FillEach(t, names, params), params) == Substitute(t, params)
    ensures forall other :: HasHole(FillEach(t, names, params), other) ==> other !in names || Inert(other, params)
  {
    if names != [] {
      var n := |names| - 1;
      var before := FillEach(t, names[..n], params);
      FillEachSubstitutes(t, names[..n], params);
      FillThenSubstitute(before, names[n], params);
      assert names == names[..n] + [names[n]];
      forall other | HasHole(FillEach(t, names, params), other) ensures other !in names || Inert(other, params) {
        FillHoles(before, names[n], params[names[n]], other);
      }
    }
  }

  /** With no parameter left to fill, substituting is rendering. */
  lemma {:induction false} SubstituteNothing(t: Template, params: map<string, string>)
    requires forall other :: HasHole(t, other) ==> other !in params || Inert(other, params)
    ensures Substitute(t, params) == Render(t)
  {
    if t.Then? {
      assert HasHole(t, t.name);
      forall other | HasHole(t.rest, other) ensures other !in params || Inert(other, params) { assert HasHole(t, other); }
      SubstituteNothing(t.rest, params);
    }
  }

  /** When no placeholder of a later parameter starts in an earlier value, replacing the parameters
      one by one is the simultaneous substitution. */
  lemma OneByOneIsSimultaneous(t: Template, names: seq<string>, params: map<string, string>)
    requires Given(names, params) && Undisturbed(names, params) && CleanTemplate(t, names, params)
    requires forall k :: k in params ==> k in names
    ensures ReplaceEach(Render(t), names, params) == Substitute(t, params)
  {
    assert names[..|names|] == names;
    ReplaceEachIsFillEach(t, names, params, |names|);
    FillEachSubstitutes(t, names, params);
    SubstituteNothing(FillEach(t, names, params), params);
  }

  // ----- that condition is exact -----

  /** The parameters among `names`. */
  function Only(params: map<string, string>, names: seq<string>): map<string, string> {
    map k | k in params && k in names :: params[k]
  }

  /** The first `m` replacements give the simultaneous substitution of the first `m` parameters,
      whatever the template. */
  ghost predicate SimultaneousUpTo(names: seq<string>, params: map<string, string>, m: nat)
    requires Given(names, params) && m <= |names|
  {
    forall t {:trigger Render(t)} :: CleanTemplate(t, names[..m], params) ==>
      ReplaceEach(Render(t), names[..m], params) == Substitute(t, Only(params, names[..m]))
  }

  lemma {:induction false} ReplaceEachOnly(s: string, names: seq<string>, params: map<string, string>, some: map<string, string>)
    requires forall i :: 0 <= i < |names| ==> names[i] in params && names[i] in some && some[names[i]] == params[names[i]]
    ensures ReplaceEach(s, names, some) == ReplaceEach(s, names, params)
  {
    if names != [] {
      ReplaceEachOnly(s, names[..|names| - 1], params, some);
    }
  }

  lemma UndisturbedPrefix(names: seq<string>, params: map<string, string>, m: nat)
    requires Given(names, params) && m <= |names|
    requires forall i, j :: Disturbs(names, params, i, j) ==> m <= j
    ensures SimultaneousUpTo(names, params, m)
  {
    var first, some := names[..m], Only(params, names[..m]);
    assert forall i :: 0 <= i < m ==> first[i] in first;
    forall i, j ensures !Disturbs(first, some, i, j) {
      assert !Disturbs(names, params, i, j) || m <= j;
    }
    forall t | CleanTemplate(t, first, params) ensures ReplaceEach(Render(t), first, params) == Substitute(t, some) {
      assert CleanTemplate(t, first, some);
      OneByOneIsSimultaneous(t, first, some);
      ReplaceEachOnly(Render(t), first, params, some);
    }
  }

  lemma {:induction false} ReplacedLength(s: string, p: string, value: string)
    requires p != ""
    ensures |value| <= |p| ==> |ReplaceAll(s, p, value)| <= |s|
    ensures |value| >= |p| ==> |ReplaceAll(s, p, value)| >= |s|
  {
    if |s| >= |p| {
      ReplacedLength(if s[..|p|] == p then s[|p|..] else s[1..], p, value);
    }
  }

  /** Replacing something by something else changes a text in which it occurs. */
  lemma {:induction false} ReplacingChanges(s: string, p: string, value: string, i: nat)
    requires p != "" && value != p && OccursAt(s, p, i)
    ensures ReplaceAll(s, p, value) != s
  {
    if s[..|p|] == p {
      var rest := s[|p|..];
      ReplacedLength(rest, p, value);
      assert |s| == |p| + |rest|;
      if |value| == |p| {
        assert (value + ReplaceAll(rest, p, value))[..|p|] == value;
      }
    } else {
      assert s[0..|p|] == s[..|p|];
      OccursInTail(s, p, i);
      ReplacingChanges(s[1..], p, value, i - 1);
      CopiesOne(s, p, value);
      assert ([s[0]] + ReplaceAll(s[1..], p, value))[1..] == ReplaceAll(s[1..], p, value);
    }
  }

  /** What to put behind a value that is not quiet so that the placeholder appears. */
  lemma Completion(value: string, name: string) returns (rest: string, at: nat)
    requires !Quiet(value, name) && BraceFree(name)
    ensures OccursAt(value + rest, Placeholder(name), at) && NoDoubleBrace(rest)
  {
    var p := Placeholder(name);
    if i: nat :| i <= |value| && OccursAt(value, p, i) {
      rest, at := "", i;
      assert value + "" == value;
    } else {
      var k: nat :| k <= |value| && EndsWithin(value, p, k);
      rest, at := p[k..], |value| - k;
      Completed(value, name, k);
    }
  }

  lemma Completed(value: string, name: string, k: nat)
    requires EndsWithin(value, Placeholder(name), k) && BraceFree(name)
    ensures OccursAt(value + Placeholder(name)[k..], Placeholder(name), |value| - k) && NoDoubleBrace(Placeholder(name)[k..])
  {
    var p, at := Placeholder(name), |value| - k;
    InnerIsPlain(name);
    assert p[k..] == p[1..][k - 1..];
    assert (value + p[k..])[at..at + |p|] == value[at..] + p[k..] == p;
  }

  /** A value in which a placeholder of a later parameter starts breaks a template: the first such
      parameter replaces text that the simultaneous substitution keeps. */
  lemma DisturbedValueBreaks(names: seq<string>, params: map<string, string>, i: nat, j: nat) returns (t: Template)
    requires Given(names, params) && Disturbs(names, params, i, j)
    requires forall k, l :: Disturbs(names, params, k, l) ==> j <= l
    ensures CleanTemplate(t, names[..j + 1], params)
    ensures ReplaceEach(Render(t), names[..j + 1], params) != Substitute(t, Only(params, names[..j + 1]))
  {
    var value, later := params[names[i]], names[j];
    var rest, at := Completion(value, later);
    var before, first := names[..j], names[..j + 1];
    t := Then("", names[i], End(rest));
    forall k | 0 <= k < |names| ensures Clean(t, names[k]) { OneHoleIsClean(names[i], rest, names[k]); }
    assert first[..j] == before && before[i] == first[i] == names[i];
    OneHoleFilled(names[i], rest, Only(params, before));
    OneHoleFilled(names[i], rest, Only(params, first));
    UndisturbedPrefix(names, params, j);
    assert ReplaceEach(Render(t), before, params) == value + rest;
    ReplacingChanges(value + rest, Placeholder(later), params[later], at);
  }

  lemma OneHoleIsClean(name: string, rest: string, other: string)
    requires BraceFree(name) && NoDoubleBrace(rest)
    ensures Clean(Then("", name, End(rest)), other)
  {
    PlainIsQuiet("", other);
    NoDoubleBraceNoOccurrence(rest, other);
  }

  lemma OneHoleFilled(name: string, rest: string, params: map<string, string>)
    requires name in params
    ensures Substitute(Then("", name, End(rest)), params) == params[name] + rest
  {
    assert "" + params[name] == params[name];
  }

  /** Every stage of the replacement is the simultaneous substitution of the parameters so far, for
      all templates, exactly when no placeholder of a later parameter starts in an earlier value. */
  lemma EveryStageIsSimultaneousIff(names: seq<string>, params: map<string, string>)
    requires Given(names, params)
    ensures (forall m: nat :: m <= |names| ==> SimultaneousUpTo(names, params, m)) <==> Undisturbed(names, params)
  {
    if Undisturbed(names, params) {
      forall m: nat | m <= |names| ensures SimultaneousUpTo(names, params, m) { UndisturbedPrefix(names, params, m); }
    } else {
      var i, j := FirstDisturbance(names, params, |names|);
      var t := DisturbedValueBreaks(names, params, i, j);
      assert !SimultaneousUpTo(names, params, j + 1);
    }
  }

  lemma {:induction false} FirstDisturbance(names: seq<string>, params: map<string, string>, bound: nat) returns (i: nat, j: nat)
    requires Given(names, params) && exists k: nat, l: nat :: l < bound && Disturbs(names, params, k, l)
    ensures Disturbs(names, params, i, j) && forall k, l :: Disturbs(names, params, k, l) ==> j <= l
    decreases bound
  {
    if k: nat, l: nat :| l < bound - 1 && Disturbs(names, params, k, l) {
      i, j := FirstDisturbance(names, params, bound - 1);
    } else {
      i, j :| j < bound && Disturbs(names, params, i, j);
    }
  }

  /** Of the stages, not of the end alone: over a whole list two disturbances can undo each other. */
  lemma DisturbancesCanCancel(a: string, b: string, c: string)
    requires BraceFree(a) && BraceFree(b) && BraceFree(c) && a != b && a != c && !(b <= c)
    ensures
      var p, q := Placeholder(b), Placeholder(c);
      var names, params := [a, b, c], map[a := p + q, b := "{{" + b, c := "}}" + q];
      && Given(names, params) && !Undisturbed(names, params)
      && ReplaceEach(Placeholder(a), names, params) == params[a]
  {
    var p, q := Placeholder(b), Placeholder(c);
    var names, params := [a, b, c], map[a := p + q, b := "{{" + b, c := "}}" + q];
    assert (p + q)[0..|p|] == p;
    assert OccursAt(params[a], p, 0) && !Inert(b, params);
    assert Disturbs(names, params, 0, 1);
    assert names[..2] == [a, b] && [a, b][..1] == [a] && [a][..0] == [];
    assert ReplaceEach(Placeholder(a), [], params) == Placeholder(a);
    ReplacesWhole(a, p + q);
    OtherIsQuiet(c, b);
    ReplacesOwn(q, b, "{{" + b);
    CopiesEnd(q, b, "{{" + b);
    assert ReplaceEach(Placeholder(a), [a, b], params) == "{{" + b + q;
    OpenIsQuiet(b, c);
    CopiesText("{{" + b, q, c, "}}" + q);
    ReplacesWhole(c, "}}" + q);
    assert "{{" + b + ("}}" + q) == p + q;
  }

  lemma ReplacesWhole(name: string, value: string)
    ensures ReplaceAll(Placeholder(name), Placeholder(name), value) == value
  {
    assert Placeholder(name) + "" == Placeholder(name);
    ReplacesOwn("", name, value);
    assert value + "" == value;
  }

  lemma OpenIsQuiet(b: string, c: string)
    requires BraceFree(b) && BraceFree(c) && !(b <= c)
    ensures Quiet("{{" + b, c)
  {
    var s, p := "{{" + b, Placeholder(c);
    assert forall n :: 0 <= n < |s| ==> s[n] == if n < 2 then '{' else b[n - 2];
    forall i: nat | OccursAt(s, p, i) ensures false { OccurrenceEnds(s, c, i); }
    forall k: nat | EndsWithin(s, p, k) ensures k == |s| { OverhangStarts(s, c, k); }
    if EndsWithin(s, p, |s|) {
      OpenPrefix(b, c);
    }
  }

  lemma OccurrenceEnds(s: string, name: string, i: nat)
    requires OccursAt(s, Placeholder(name), i)
    ensures s[i + |Placeholder(name)| - 1] == '}'
  {
    var p := Placeholder(name);
    assert s[i..i + |p|][|p| - 1] == s[i + |p| - 1];
  }

  lemma OpenPrefix(b: string, c: string)
    requires EndsWithin("{{" + b, Placeholder(c), |b| + 2)
    ensures b <= c || '}' in b
  {
    var s, p := "{{" + b, Placeholder(c);
    assert s[0..] == s;
    forall n | 0 <= n < |b| ensures b[n] == p[n + 2] { assert s[n + 2] == p[..|s|][n + 2]; }
    if |b| > |c| {
      assert b[|c|] == '}';
    }
  }

  lemma SameMembers(names: seq<string>, keys: set<string>)
    requires multiset(names) == multiset(keys)
    ensures forall k :: k in names <==> k in keys
  {
    forall k ensures k in names <==> k in keys {
      assert k in multiset(names) <==> k in multiset(keys);
    }
  }

  /** For every way to read `raw` as a clean template the result is the simultaneous substitution. */
  ghost predicate SubstitutesAll(raw: string, names: seq<string>, params: map<string, string>, s: string) {
    forall t {:trigger Render(t)} :: CleanTemplate(t, names, params) && Render(t) == raw ==> s == Substitute(t, params)
  }

  lemma EveryReading(raw: string, names: seq<string>, params: map<string, string>)
    requires Given(names, params) && Undisturbed(names, params) && forall k :: k in params ==> k in names
    ensures SubstitutesAll(raw, names, params, ReplaceEach(raw, names, params))
  {
    forall t | CleanTemplate(t, names, params) && Render(t) == raw
      ensures ReplaceEach(raw, names, params) == Substitute(t, params)
    {
      OneByOneIsSimultaneous(t, names, params);
    }
  }

  method ReplaceParams(raw: string, names: seq<string>, params: map<string, string>) returns (s: string)
    requires forall i :: 0 <= i < |names| ==> names[i] in params
    ensures s == ReplaceEach(raw, names, params)
  {
    s := raw;
    for i := 0 to |names|
      invariant s == ReplaceEach(raw, names[..i], params)
    {
      assert names[..i + 1][..i] == names[..i];
      s := ReplaceAll(s, Placeholder(names[i]), params[names[i]]);
    }
    assert names[..|names|] == names;
  }

  method SubstituteParams(raw: string, params: map<string, string>) returns (s: string, ghost names: seq<string>)
    ensures Sorted(names, LexLe) && (forall k :: k in names <==> k in params) && s == ReplaceEach(raw, names, params)
    ensures Given(names, params) && Undisturbed(names, params) ==> SubstitutesAll(raw, names, params, s)
  {
    var keys := SortedKeys(params.Keys);
    names := keys;
    SameMembers(keys, params.Keys);
    assert forall i :: 0 <= i < |keys| ==> keys[i] in keys;
    s := ReplaceParams(raw, keys, params);
    if Given(names, params) && Undisturbed(names, params) {
      EveryReading(raw, names, params);
    }
  }
}
