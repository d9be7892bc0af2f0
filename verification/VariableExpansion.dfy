/** Variable expansion: src/engine/variable_expansion_transform.cpp. */
module VariableExpansion {
  import opened Text
  import opened Graphs
  import opened Outcomes
  import opened EdgeSelection
  import opened GraphBuilding

  // ---- names ------------------------------------------------------------------------------

  predicate IsAlpha(c: char) { IsAlnum(c) && !IsDigit(c) }

  predicate StartsName(c: char) { IsAlpha(c) || c == '_' }

  predicate IsIdentChar(c: char) { IsAlnum(c) || c == '_' || c == '.' }

  predicate IsTerminalPunct(c: char)
  {
    c == '.' || c == ',' || c == ';' || c == ':' || c == ')' || c == ']' || c == '}'
  }

  /** The identifier characters at the front of a text. */
  function IdentRun(s: string): (r: string)
    ensures |r| <= |s| && r == s[..|r|]
    ensures s != "" && IsIdentChar(s[0]) ==> r != "" && r[0] == s[0]
    ensures s == "" || !IsIdentChar(s[0]) ==> r == ""
  {
    if s != "" && IsIdentChar(s[0]) then [s[0]] + IdentRun(s[1..]) else ""
  }

  function WithoutPunct(s: string): (r: string)
    ensures r <= s
    ensures s != "" && !IsTerminalPunct(s[0]) ==> r != ""
  {
    if s != "" && IsTerminalPunct(s[|s| - 1]) then WithoutPunct(s[..|s| - 1]) else s
  }

  /** The dotted identifier at the front of a text. */
  function Identifier(s: string): (r: string)
    ensures r <= s
    ensures s != "" && StartsName(s[0]) ==> r != ""
  {
    var run := IdentRun(s);
    var id := WithoutPunct(run);
    if id == "" then run else id
  }

  lemma {:induction false} RunSnoc(s: string, k: nat)
    requires k < |s| && IdentRun(s[..k]) == s[..k] && IsIdentChar(s[k])
    ensures IdentRun(s[..k + 1]) == s[..k + 1]
  {
    if k > 0 {
      assert s[..k][1..] == s[1..][..k - 1] && s[..k + 1][1..] == s[1..][..k];
      assert IdentRun(s[..k]) == [s[0]] + IdentRun(s[..k][1..]);
      RunSnoc(s[1..], k - 1);
      assert s[..k + 1] == [s[0]] + s[1..][..k];
    }
  }

  lemma {:induction false} RunStops(s: string, k: nat)
    requires k <= |s| && IdentRun(s[..k]) == s[..k] && (k == |s| || !IsIdentChar(s[k]))
    ensures IdentRun(s) == s[..k]
  {
    if k > 0 {
      assert s[..k][1..] == s[1..][..k - 1];
      assert IdentRun(s[..k]) == [s[0]] + IdentRun(s[..k][1..]);
      RunStops(s[1..], k - 1);
      assert s[..k] == [s[0]] + s[1..][..k - 1];
    }
  }

  method ExtractIdentifier(input: string, start: nat) returns (r: string)
    requires start <= |input|
    ensures r == Identifier(input[start..])
  {
    var pos := start;
    var id := "";
    ghost var s := input[start..];
    while pos < |input| && IsIdentChar(input[pos])
      invariant start <= pos <= |input| && id == input[start..pos] == s[..pos - start]
      invariant IdentRun(s[..pos - start]) == s[..pos - start]
    {
      RunSnoc(s, pos - start);
      id := id + [input[pos]];
      pos := pos + 1;
      assert input[start..pos] == input[start..pos - 1] + [input[pos - 1]] == s[..pos - start];
    }
    RunStops(s, pos - start);
    var whole := id;
    while id != "" && IsTerminalPunct(id[|id| - 1])
      invariant WithoutPunct(id) == WithoutPunct(whole)
      decreases |id|
    {
      id := id[..|id| - 1];
    }
    r := if id == "" then whole else id;
  }

  // ---- references ---------------------------------------------------------------------------

  predicate Prefixed(name: string, prefix: string) { |name| > |prefix| && prefix <= name }

  /** `$goal` or a name with one of the known prefixes. */
  predicate IsTemplateRef(name: string)
  {
    name == "goal" || Prefixed(name, "var.") || Prefixed(name, "context.") || Prefixed(name, "human.")
  }

  /** Not expected to be available when the graph is loaded. */
  predicate IsLateBound(name: string)
  {
    Prefixed(name, "human.") || (Prefixed(name, "context.") && !("context.config." <= name))
  }

  datatype Scope = Scope(ctx: Context, graphAttrs: Attributes, node: Node)

  /** What any name but `goal` stands for; "" when nothing. */
  function Plain(name: string, scope: Scope): string
  {
    if Prefixed(name, "var.") then
      if name == "var.repo_dir" && "needle.branch.cwd" in scope.ctx then scope.ctx["needle.branch.cwd"]
      else Get(scope.ctx, name)
    else if Prefixed(name, "context.") then Get(scope.ctx, name[8..])
    else if name in scope.ctx then scope.ctx[name]
    else Get(scope.graphAttrs, name)
  }

  function Goal(scope: Scope): string
  {
    if Get(scope.node.attrs, "goal") != "" then Get(scope.node.attrs, "goal") else Get(scope.graphAttrs, "goal")
  }

  /** The goal with the names in it replaced, except `goal` itself. */
  function ExpandedGoal(goal: string, scope: Scope): string
    decreases |goal|
  {
    if goal == "" then ""
    else
      var name := NameIn(goal);
      if name != "" && name != "goal" && Plain(name, scope) != "" then
        Plain(name, scope) + ExpandedGoal(goal[1 + |name|..], scope)
      else [goal[0]] + ExpandedGoal(goal[1..], scope)
  }

  /** The name after a dollar sign at the front of a text. */
  function NameIn(s: string): (r: string)
    requires s != ""
    ensures |r| < |s|
  {
    if s[0] == '$' && |s| > 1 && StartsName(s[1]) then Identifier(s[1..]) else ""
  }

  function Resolved(name: string, scope: Scope): string
  {
    if name == "goal" then ExpandedGoal(Goal(scope), scope) else Plain(name, scope)
  }

  lemma {:induction false} NoDollarNoChange(goal: string, scope: Scope)
    requires '$' !in goal
    ensures ExpandedGoal(goal, scope) == goal
  {
    if goal != "" { NoDollarNoChange(goal[1..], scope); }
  }

  /** resolve_variable. It calls itself only for names other than `goal`, found in the
      goal, so it never goes deeper than once. */
  method ResolveVariable(name: string, scope: Scope) returns (r: string)
    ensures r == Resolved(name, scope)
    decreases name == "goal", 1
  {
    if name == "goal" {
      var goal := Get(scope.node.attrs, "goal");
      if goal == "" { goal := Get(scope.graphAttrs, "goal"); }
      if '$' in goal {
        goal := ExpandGoal(goal, scope);
      } else {
        NoDollarNoChange(goal, scope);
      }
      return goal;
    }
    if |name| > 4 && name[..4] == "var." {
      if name == "var.repo_dir" && "needle.branch.cwd" in scope.ctx {
        return scope.ctx["needle.branch.cwd"];
      }
      return if name in scope.ctx then scope.ctx[name] else "";
    }
    if |name| > 8 && name[..8] == "context." {
      var key := name[8..];
      return if key in scope.ctx then scope.ctx[key] else "";
    }
    if name in scope.ctx {
      return scope.ctx[name];
    }
    r := Get(scope.graphAttrs, name);
  }

  method NameAt(s: string, j: nat) returns (name: string)
    requires j < |s|
    ensures name == NameIn(s[j..])
  {
    name := "";
    if s[j] == '$' && j + 1 < |s| && StartsName(s[j + 1]) {
      assert s[j..][1..] == s[j + 1..];
      name := ExtractIdentifier(s, j + 1);
    }
  }

  /** The loop over the goal's characters. */
  method ExpandGoal(goal: string, scope: Scope) returns (expanded: string)
    ensures expanded == ExpandedGoal(goal, scope)
    decreases true, 0
  {
    hide *;
    expanded := "";
    var j := 0;
    assert goal[0..] == goal && "" + ExpandedGoal(goal, scope) == ExpandedGoal(goal, scope);
    while j < |goal|
      invariant j <= |goal| && expanded + ExpandedGoal(goal[j..], scope) == ExpandedGoal(goal, scope)
    {
      var inner := NameAt(goal, j);
      var resolved := "";
      if inner != "" && inner != "goal" {
        resolved := ResolveVariable(inner, scope);
        NotTheGoal(inner, scope);
      }
      GoalStep(goal, j, inner, resolved, scope);
      Regroup(expanded, resolved, ExpandedGoal(goal[j + 1 + |inner|..], scope));
      Regroup(expanded, [goal[j]], ExpandedGoal(goal[j + 1..], scope));
      if resolved != "" {
        expanded := expanded + resolved;
        j := j + 1 + |inner|;
      } else {
        expanded := expanded + [goal[j]];
        j := j + 1;
      }
    }
    GoalDone(goal, j, scope);
  }

  lemma NotTheGoal(name: string, scope: Scope)
    requires name != "goal"
    ensures Resolved(name, scope) == Plain(name, scope)
  {
  }

  lemma Regroup(a: string, b: string, c: string)
    ensures a + (b + c) == (a + b) + c
  {
  }

  lemma GoalStep(goal: string, j: nat, name: string, value: string, scope: Scope)
    requires j < |goal| && name == NameIn(goal[j..])
    requires value == if name != "" && name != "goal" then Plain(name, scope) else ""
    ensures j + 1 + |name| <= |goal|
    ensures ExpandedGoal(goal[j..], scope) ==
            if value != "" then value + ExpandedGoal(goal[j + 1 + |name|..], scope)
            else [goal[j]] + ExpandedGoal(goal[j + 1..], scope)
  {
    hide Plain, NameIn;
    var rest := goal[j..];
    assert rest[1..] == goal[j + 1..] && rest[1 + |name|..] == goal[j + 1 + |name|..];
  }

  lemma GoalDone(goal: string, j: nat, scope: Scope)
    requires j == |goal|
    ensures ExpandedGoal(goal[j..], scope) == ""
  {
  }

  // ---- cutting a text into references and other characters ------------------------------------

  datatype Segment =
    | Plainly(c: char)
    | Braced(name: string)         // ${name}
    | Dotted(name: string)         // $name

  function TextOf(seg: Segment): (r: string)
    ensures r != ""
  {
    match seg
    case Plainly(c) => [c]
    case Braced(name) => "${" + name + "}"
    case Dotted(name) => "$" + name
  }

  /** The characters before the first closing brace; None when there is none. */
  function UpToBrace(s: string): (r: Option<string>)
    ensures r.Some? ==> |r.value| < |s| && r.value <= s && s[|r.value|] == '}' && '}' !in r.value
    ensures r.Some? <==> '}' in s
  {
    if s == "" then None
    else if s[0] == '}' then Some("")
    else
      var rest := UpToBrace(s[1..]);
      if rest.None? then None else Some([s[0]] + rest.value)
  }

  lemma Pieces(s: string, a: string, b: string, c: string)
    requires a <= s && b <= s[|a|..] && c <= s[|a| + |b|..]
    ensures s[..|a| + |b| + |c|] == a + b + c
  {
  }

  lemma BracedText(s: string)
    requires |s| > 1 && s[0] == '$' && s[1] == '{' && UpToBrace(s[2..]).Some?
    ensures TextOf(Braced(UpToBrace(s[2..]).value)) <= s
  {
    hide UpToBrace;
    var name := UpToBrace(s[2..]).value;
    assert s[2..][|name|] == s[2 + |name|];
    Pieces(s, "${", name, "}");
  }

  lemma DottedText(s: string)
    requires s != "" && s[0] == '$'
    ensures TextOf(Dotted(Identifier(s[1..]))) <= s
  {
    hide Identifier;
  }

  function FirstSegment(s: string): (r: Segment)
    requires s != ""
    ensures TextOf(r) <= s
    ensures |TextOf(r)| >= 1
  {
    var close := if s[0] == '$' && |s| > 1 && s[1] == '{' then UpToBrace(s[2..]) else None;
    if close.Some? then
      BracedText(s);
      Braced(close.value)
    else if s[0] == '$' && |s| > 1 && StartsName(s[1]) then
      DottedText(s);
      Dotted(Identifier(s[1..]))
    else Plainly(s[0])
  }

  function Segments(s: string): seq<Segment>
    decreases |s|
  {
    if s == "" then [] else [FirstSegment(s)] + Segments(s[|TextOf(FirstSegment(s))|..])
  }

  function AllText(segs: seq<Segment>): string
  {
    if segs == [] then "" else TextOf(segs[0]) + AllText(segs[1..])
  }

  /** Cutting loses nothing. */
  lemma {:induction false} SegmentsSpellTheText(s: string)
    ensures AllText(Segments(s)) == s
    decreases |s|
  {
    hide FirstSegment, TextOf;
    if s != "" {
      SegmentsSpellTheText(s[|TextOf(FirstSegment(s))|..]);
    }
  }

  // ---- expanding ----------------------------------------------------------------------------------

  predicate IsReference(seg: Segment) { !seg.Plainly? && IsTemplateRef(seg.name) }

  predicate Resolves(seg: Segment, scope: Scope)
  {
    IsReference(seg) && Resolved(seg.name, scope) != ""
  }

  function Replacement(seg: Segment, scope: Scope): string
  {
    if Resolves(seg, scope) then Resolved(seg.name, scope) else TextOf(seg)
  }

  datatype Unresolved = Unresolved(node: string, name: string)

  /** What is reported of a segment. */
  function Reported(seg: Segment, scope: Scope): seq<Unresolved>
  {
    if IsReference(seg) && Resolved(seg.name, scope) == "" && !IsLateBound(seg.name)
    then [Unresolved(scope.node.id, seg.name)] else []
  }

  function Expanded(s: string, scope: Scope): string
    decreases |s|
  {
    if s == "" then ""
    else
      var seg := FirstSegment(s);
      Replacement(seg, scope) + Expanded(s[|TextOf(seg)|..], scope)
  }

  function Reports(s: string, scope: Scope): seq<Unresolved>
    decreases |s|
  {
    if s == "" then []
    else
      var seg := FirstSegment(s);
      Reported(seg, scope) + Reports(s[|TextOf(seg)|..], scope)
  }

  method FindBrace(input: string, start: nat) returns (close: Option<nat>)
    requires start <= |input|
    ensures close.Some? <==> UpToBrace(input[start..]).Some?
    ensures close.Some? ==> start <= close.value < |input|
    ensures close.Some? ==> input[start..close.value] == UpToBrace(input[start..]).value
  {
    var i := start;
    while i < |input| && input[i] != '}'
      invariant start <= i <= |input| && '}' !in input[start..i]
    {
      assert input[start..i + 1] == input[start..i] + [input[i]];
      i := i + 1;
    }
    if i < |input| {
      FirstBrace(input[start..], i - start);
      assert input[start..][..i - start] == input[start..i];
      close := Some(i);
    } else {
      assert input[start..i] == input[start..];
      close := None;
    }
  }

  lemma {:induction false} FirstBrace(s: string, k: nat)
    requires k < |s| && s[k] == '}' && '}' !in s[..k]
    ensures UpToBrace(s) == Some(s[..k])
  {
    if k > 0 {
      assert s[..k][0] == s[0] && s[..k][1..] == s[1..][..k - 1];
      FirstBrace(s[1..], k - 1);
      assert s[..k] == [s[0]] + s[1..][..k - 1];
    }
  }

  /** One template reference: its replacement, or its own text and a report. */
  method ExpandReference(seg: Segment, scope: Scope, collector: seq<Unresolved>)
    returns (text: string, reported: seq<Unresolved>)
    requires !seg.Plainly?
    ensures text == Replacement(seg, scope) && reported == collector + Reported(seg, scope)
  {
    reported := collector;
    if !IsTemplateRef(seg.name) {
      return TextOf(seg), reported;
    }
    var resolved := ResolveVariable(seg.name, scope);
    if resolved != "" {
      return resolved, reported;
    }
    text := TextOf(seg);
    if !IsLateBound(seg.name) {
      reported := reported + [Unresolved(scope.node.id, seg.name)];
    }
  }

  method ExpandVariables(input: string, scope: Scope, collector: seq<Unresolved>)
    returns (result: string, reported: seq<Unresolved>)
    ensures result == Expanded(input, scope)
    ensures reported == collector + Reports(input, scope)
  {
    hide *;
    result, reported := "", collector;
    var i := 0;
    ReportsBegin(input, scope);
    while i < |input|
      invariant i <= |input|
      invariant result + Expanded(input[i..], scope) == Expanded(input, scope)
      invariant reported + Reports(input[i..], scope) == collector + Reports(input, scope)
    {
      var seg := SegmentAt(input, i);
      var text, more := [input[i]], reported + [];
      if !seg.Plainly? {
        text, more := ExpandReference(seg, scope, reported);
      } else {
        PlainCharacter(seg, scope, input[i..]);
      }
      OneSegment(input[i..], scope);
      assert input[i..][|TextOf(seg)|..] == input[i + |TextOf(seg)|..];
      Regroup(result, text, Expanded(input[i + |TextOf(seg)|..], scope));
      RegroupReports(reported, Reported(seg, scope), Reports(input[i + |TextOf(seg)|..], scope));
      result, reported := result + text, more;
      i := i + |TextOf(seg)|;
    }
    NoSegment(input[i..], scope);
  }

  lemma RegroupReports(a: seq<Unresolved>, b: seq<Unresolved>, c: seq<Unresolved>)
    ensures a + (b + c) == (a + b) + c
  {
  }

  lemma ReportsBegin(input: string, scope: Scope)
    ensures "" + Expanded(input[0..], scope) == Expanded(input, scope)
            && Reports(input[0..], scope) == Reports(input, scope)
  {
    hide Expanded, Reports;
    assert input[0..] == input;
  }

  lemma OneSegment(s: string, scope: Scope)
    requires s != ""
    ensures var seg := FirstSegment(s);
            && Expanded(s, scope) == Replacement(seg, scope) + Expanded(s[|TextOf(seg)|..], scope)
            && Reports(s, scope) == Reported(seg, scope) + Reports(s[|TextOf(seg)|..], scope)
  {
    hide Replacement, Reported, FirstSegment, TextOf;
  }

  lemma NoSegment(s: string, scope: Scope)
    requires s == ""
    ensures Expanded(s, scope) == "" && Reports(s, scope) == []
  {
  }

  lemma PlainCharacter(seg: Segment, scope: Scope, rest: string)
    requires rest != "" && seg == FirstSegment(rest) && seg.Plainly?
    ensures Replacement(seg, scope) == [rest[0]] && Reported(seg, scope) == []
  {
  }

  /** Which form stands at position `i`. */
  method SegmentAt(input: string, i: nat) returns (seg: Segment)
    requires i < |input|
    ensures seg == FirstSegment(input[i..]) && i + |TextOf(seg)| <= |input|
  {
    ghost var rest := input[i..];
    assert |rest| > 1 ==> rest[1..] == input[i + 1..] && rest[1] == input[i + 1];
    assert |rest| > 2 ==> rest[2..] == input[i + 2..];
    if input[i] == '$' {
      if i + 1 < |input| && input[i + 1] == '{' {
        assert rest[2..] == input[i + 2..];
        var close := FindBrace(input, i + 2);
        if close.Some? {
          return Braced(input[i + 2..close.value]);
        }
      }
      if i + 1 < |input| && StartsName(input[i + 1]) {
        var name := ExtractIdentifier(input, i + 1);
        return Dotted(name);
      }
    }
    seg := Plainly(input[i]);
  }

  // ---- what expansion guarantees --------------------------------------------------------------------

  ghost predicate NothingResolves(s: string, scope: Scope)
  {
    forall seg :: seg in Segments(s) ==> !Resolves(seg, scope)
  }

  /** The references of a text that should be known when the graph is loaded, in order. */
  function EarlyReferences(segs: seq<Segment>, node: string): seq<Unresolved>
  {
    if segs == [] then []
    else (if IsReference(segs[0]) && !IsLateBound(segs[0].name) then [Unresolved(node, segs[0].name)] else [])
         + EarlyReferences(segs[1..], node)
  }

  lemma KeptSegment(seg: Segment, segs: seq<Segment>, scope: Scope)
    requires !Resolves(seg, scope)
    ensures Replacement(seg, scope) == TextOf(seg)
    ensures EarlyReferences([seg] + segs, scope.node.id) == Reported(seg, scope) + EarlyReferences(segs, scope.node.id)
  {
    hide Resolved, IsTemplateRef, IsLateBound, TextOf;
    assert ([seg] + segs)[1..] == segs;
  }

  /** If no template reference resolves, the text is unchanged, and what is reported are
      its early-bound template references from left to right. */
  lemma {:induction false} UnresolvedTextUnchanged(s: string, scope: Scope)
    requires NothingResolves(s, scope)
    ensures Expanded(s, scope) == s
    ensures Reports(s, scope) == EarlyReferences(Segments(s), scope.node.id)
    decreases |s|
  {
    hide Resolves, NothingResolves, FirstSegment, TextOf, Replacement, Reported;
    if s != "" {
      var seg := FirstSegment(s);
      SegmentInFront(s, scope);
      UnresolvedTextUnchanged(s[|TextOf(seg)|..], scope);
      OneSegment(s, scope);
      KeptSegment(seg, Segments(s[|TextOf(seg)|..]), scope);
    }
  }

  /** Nothing is reported exactly when every early-bound template reference resolves. */
  lemma {:induction false} SilentWhenResolved(s: string, scope: Scope)
    ensures Reports(s, scope) == [] <==>
            forall seg :: seg in Segments(s) && IsReference(seg) && !IsLateBound(seg.name) ==>
              Resolved(seg.name, scope) != ""
    decreases |s|
  {
    hide Resolved, IsTemplateRef, IsLateBound;
    if s != "" {
      var seg := FirstSegment(s);
      var rest := s[|TextOf(seg)|..];
      SilentWhenResolved(rest, scope);
      assert Segments(s) == [seg] + Segments(rest);
      assert seg in Segments(s);
      assert forall x :: x in Segments(rest) ==> x in Segments(s);
    }
  }

  /** A text without a dollar sign is left alone. */
  lemma {:induction false} NoDollarNoSegment(s: string, scope: Scope)
    requires '$' !in s
    ensures Expanded(s, scope) == s && Reports(s, scope) == []
    decreases |s|
  {
    if s != "" {
      assert FirstSegment(s) == Plainly(s[0]);
      NoDollarNoSegment(s[1..], scope);
    }
  }

  /** A name that is cut out whole. */
  predicate IsName(name: string)
  {
    && name != "" && StartsName(name[0]) && !IsTerminalPunct(name[|name| - 1])
    && forall i :: 0 <= i < |name| ==> IsIdentChar(name[i])
  }

  /** Expanding twice can differ from expanding once: after a dollar sign, a reference to
      `x` whose value is the name `y` becomes a reference to `y`. */
  lemma SecondExpansionDiffers(scope: Scope, x: string, y: string)
    requires IsName(x) && IsTemplateRef(x) && Resolved(x, scope) == y
    requires IsName(y) && IsTemplateRef(y) && Resolved(y, scope) != ""
    ensures Expanded("$" + ("$" + x), scope) == "$" + y
    ensures Expanded("$" + y, scope) == Resolved(y, scope)
  {
    hide Expanded, FirstSegment, Resolved, IsTemplateRef;
    SoleReference(x, scope);
    SoleReference(y, scope);
    var s := "$" + ("$" + x);
    OneSegment(s, scope);
    TwoDollars("$" + x);
    assert s[1..] == "$" + x;
  }

  lemma TwoDollars(s: string)
    requires s != "" && s[0] == '$'
    ensures FirstSegment("$" + s) == Plainly('$')
  {
  }

  /** A text that is one reference. */
  lemma SoleReference(name: string, scope: Scope)
    requires IsName(name)
    ensures Expanded("$" + name, scope) == Replacement(Dotted(name), scope)
  {
    hide Replacement;
    var s := "$" + name;
    Whole(name);
    assert s[1..] == name;
    assert FirstSegment(s) == Dotted(name) && TextOf(Dotted(name)) == s;
    assert s[|s|..] == "";
    OneSegment(s, scope);
    NoSegment("", scope);
  }

  lemma Whole(s: string)
    requires s != "" && !IsTerminalPunct(s[|s| - 1]) && forall i :: 0 <= i < |s| ==> IsIdentChar(s[i])
    ensures Identifier(s) == s
  {
    AllRun(s);
  }

  lemma {:induction false} AllRun(s: string)
    requires forall i :: 0 <= i < |s| ==> IsIdentChar(s[i])
    ensures IdentRun(s) == s
  {
    if s != "" { AllRun(s[1..]); }
  }

  // ---- expanding again -------------------------------------------------------------------------------

  /** What the references of a text stand for does not begin with a dollar sign. */
  ghost predicate PlainValues(t: string, scope: Scope)
  {
    forall seg :: seg in Segments(t) && Resolves(seg, scope) ==> Resolved(seg.name, scope)[0] != '$'
  }

  lemma SegmentInFront(t: string, scope: Scope)
    requires t != ""
    ensures var seg := FirstSegment(t); var rest := t[|TextOf(seg)|..];
            && t == TextOf(seg) + rest
            && (NothingResolves(t, scope) <==> !Resolves(seg, scope) && NothingResolves(rest, scope))
            && (PlainValues(t, scope)
                <==> (Resolves(seg, scope) ==> Resolved(seg.name, scope)[0] != '$') && PlainValues(rest, scope))
  {
    hide Resolved, IsTemplateRef, FirstSegment, TextOf;
    var seg := FirstSegment(t);
    var rest := t[|TextOf(seg)|..];
    assert Segments(t) == [seg] + Segments(rest);
    assert forall x :: x in Segments(t) <==> x == seg || x in Segments(rest);
  }

  lemma ReplacedText(seg: Segment, scope: Scope, rest: string, more: string)
    requires Resolves(seg, scope) ==> Resolved(seg.name, scope)[0] != '$'
    ensures Replacement(seg, scope) + more == TextOf(seg) + rest <==> !Resolves(seg, scope) && more == rest
  {
    hide Resolved, IsTemplateRef;
    var after, before := Replacement(seg, scope) + more, TextOf(seg) + rest;
    if Resolves(seg, scope) {
      assert before[0] == '$' && after[0] == Resolved(seg.name, scope)[0];
    } else {
      var n := |TextOf(seg)|;
      assert after[n..] == more && before[n..] == rest;
    }
  }

  /** A text is left alone exactly when none of its references resolves. */
  lemma {:induction false} LeftAloneExactly(t: string, scope: Scope)
    requires PlainValues(t, scope)
    ensures Expanded(t, scope) == t <==> NothingResolves(t, scope)
    decreases |t|
  {
    hide Resolves, FirstSegment, Replacement, TextOf, PlainValues, NothingResolves;
    if t == "" {
      NothingInNothing(scope);
    } else {
      var seg := FirstSegment(t);
      var rest := t[|TextOf(seg)|..];
      SegmentInFront(t, scope);
      LeftAloneExactly(rest, scope);
      OneSegment(t, scope);
      ReplacedText(seg, scope, rest, Expanded(rest, scope));
    }
  }

  /** What was written last: a reference can still form behind a dollar sign, or grow
      behind a name that was kept. */
  datatype Left = Clear | Dollar | Name

  predicate Seals(value: string, left: Left)
    requires value != ""
  {
    match left
    case Clear => true
    case Dollar => !StartsName(value[0]) && value[0] != '{'
    case Name => !IsIdentChar(value[0])
  }

  function LeftBy(seg: Segment, left: Left): Left
  {
    match seg
    case Plainly(c) => if c == '$' then Dollar else if left.Name? && IsIdentChar(c) then Name else Clear
    case Braced(_) => Clear
    case Dotted(_) => Name
  }

  /** Read from left to right, nothing in a value resolves, and at its end no dollar sign,
      name or brace is left open. */
  predicate Shut(value: string, left: Left, scope: Scope)
    decreases |value|
  {
    if value == "" then left.Clear?
    else
      var seg := FirstSegment(value);
      var rest := value[|TextOf(seg)|..];
      !Resolves(seg, scope) && !OpensBrace(seg, rest) && Shut(rest, LeftBy(seg, left), scope)
  }

  /** Read from left to right, values are shut, extend nothing that stands before them, and
      close no brace that was left open. */
  predicate Settles(s: string, left: Left, unclosed: bool, scope: Scope)
    decreases |s|
  {
    s == "" ||
    var seg := FirstSegment(s);
    var rest := s[|TextOf(seg)|..];
    if Resolves(seg, scope) then
      var value := Resolved(seg.name, scope);
      && Shut(value, Clear, scope) && Seals(value, left) && (unclosed ==> '}' !in value)
      && Settles(rest, Clear, unclosed, scope)
    else
      Settles(rest, LeftBy(seg, left), unclosed || OpensBrace(seg, rest), scope)
  }

  /** A dollar sign and a brace that nothing closes. */
  predicate OpensBrace(seg: Segment, rest: string)
  {
    seg == Plainly('$') && rest != "" && rest[0] == '{'
  }

  lemma {:induction false} StaysUnclosed(s: string, left: Left, scope: Scope)
    requires Settles(s, left, true, scope) && '}' !in s
    ensures '}' !in Expanded(s, scope)
    decreases |s|
  {
    hide Resolved, IsTemplateRef, FirstSegment, Seals, LeftBy, TextOf;
    if s != "" {
      var seg := FirstSegment(s);
      var rest := s[|TextOf(seg)|..];
      assert s == TextOf(seg) + rest;
      OneSegment(s, scope);
      StaysUnclosed(rest, if Resolves(seg, scope) then Clear else LeftBy(seg, left), scope);
    }
  }

  lemma FirstReads(s: string)
    requires s != ""
    ensures var seg := FirstSegment(s);
            && (s[0] != '$' ==> seg == Plainly(s[0]))
            && (s[0] == '$' ==> TextOf(seg)[0] == '$' && (seg.Plainly? ==> seg.c == '$'))
  {
  }

  /** Behind a name that was kept, the identifier ends where it did before. */
  lemma {:induction false} RunUnchanged(s: string, unclosed: bool, scope: Scope)
    requires Settles(s, Name, unclosed, scope)
    ensures IdentRun(Expanded(s, scope)) == IdentRun(s)
    decreases |s|
  {
    hide Resolved, IsTemplateRef, FirstSegment;
    if s != "" {
      var seg := FirstSegment(s);
      var rest := s[|TextOf(seg)|..];
      FirstReads(s);
      OneSegment(s, scope);
      if s[0] != '$' {
        assert Expanded(s, scope) == [s[0]] + Expanded(rest, scope) && s == [s[0]] + rest;
        if IsIdentChar(s[0]) { RunUnchanged(rest, unclosed, scope); }
      } else {
        assert IdentRun(s) == "" && Expanded(s, scope)[0] == Replacement(seg, scope)[0];
      }
    }
  }

  /** A dollar sign in front of a text is plain unless a name or a closed brace follows. */
  lemma PlainDollar(rest: string)
    ensures FirstSegment("$" + rest) == Plainly('$') <==>
            rest == "" || (!StartsName(rest[0]) && (rest[0] == '{' ==> '}' !in rest[1..]))
  {
    hide Identifier;
    var s := "$" + rest;
    assert rest != "" ==> s[1] == rest[0] && s[1..] == rest && s[2..] == rest[1..];
  }

  /** What follows a plain dollar sign still makes no reference of it. */
  lemma DollarStays(s: string, unclosed: bool, scope: Scope)
    requires s != "" && FirstSegment(s) == Plainly('$')
    requires Settles(s[1..], Dollar, unclosed || OpensBrace(Plainly('$'), s[1..]), scope)
    ensures FirstSegment("$" + Expanded(s[1..], scope)) == Plainly('$')
  {
    hide Resolved, IsTemplateRef, FirstSegment, Expanded, TextOf;
    var rest := s[1..];
    PlainDollar(rest);
    assert s == "$" + rest by { FirstReads(s); }
    PlainDollar(Expanded(rest, scope));
    if rest == "" {
      NoSegment(rest, scope);
    } else {
      OneSegment(rest, scope);
      FirstReads(rest);
      assert Expanded(rest, scope)[0] == Replacement(FirstSegment(rest), scope)[0];
      if rest[0] == '{' { StaysUnclosed(rest, Dollar, scope); }
    }
  }

  lemma DottedReads(name: string, rest: string)
    requires name != ""
    ensures FirstSegment("$" + name + rest) == Dotted(name) <==> StartsName(name[0]) && Identifier(name + rest) == name
  {
    hide Identifier, UpToBrace;
    var s := "$" + name + rest;
    assert s[0] == '$' && s[1] == name[0] && s[1..] == name + rest;
  }

  lemma KeptName(s: string)
    requires s != "" && FirstSegment(s).Dotted?
    ensures FirstSegment(s).name != ""
  {
    hide UpToBrace;
  }

  /** A reference that was kept is read again as it was. */
  lemma NameStays(name: string, rest: string, unclosed: bool, scope: Scope)
    requires FirstSegment("$" + name + rest) == Dotted(name) && Settles(rest, Name, unclosed, scope)
    ensures FirstSegment("$" + name + Expanded(rest, scope)) == Dotted(name)
  {
    hide Expanded, WithoutPunct, FirstSegment, Settles, IdentRun;
    KeptName("$" + name + rest);
    DottedReads(name, rest);
    DottedReads(name, Expanded(rest, scope));
    RunUnchanged(rest, unclosed, scope);
    NameIsRun(name + rest);
    RunThrough(name, rest);
    RunThrough(name, Expanded(rest, scope));
  }

  lemma NameIsRun(s: string)
    ensures forall i :: 0 <= i < |Identifier(s)| ==> IsIdentChar(Identifier(s)[i])
  {
    hide WithoutPunct;
    RunIsIdent(s);
    assert Identifier(s) <= IdentRun(s);
  }

  lemma {:induction false} RunIsIdent(s: string)
    ensures forall i :: 0 <= i < |IdentRun(s)| ==> IsIdentChar(IdentRun(s)[i])
  {
    if s != "" { RunIsIdent(s[1..]); }
  }

  lemma {:induction false} RunThrough(name: string, rest: string)
    requires forall i :: 0 <= i < |name| ==> IsIdentChar(name[i])
    ensures IdentRun(name + rest) == name + IdentRun(rest)
  {
    if name == "" {
      assert name + rest == rest;
    } else {
      assert (name + rest)[1..] == name[1..] + rest;
      RunThrough(name[1..], rest);
    }
  }

  lemma BraceStays(name: string, rest: string, more: string)
    requires FirstSegment("${" + name + "}" + rest) == Braced(name)
    ensures FirstSegment("${" + name + "}" + more) == Braced(name)
  {
    var s, out := "${" + name + "}" + rest, "${" + name + "}" + more;
    assert s[2..] == name + "}" + rest && out[2..] == name + "}" + more;
    assert out[2..][..|name|] == name;
    FirstBrace(out[2..], |name|);
  }

  /** In front of a text, a segment that does not resolve changes nothing. */
  lemma OneMore(seg: Segment, t: string, scope: Scope)
    requires FirstSegment(TextOf(seg) + t) == seg && !Resolves(seg, scope) && NothingResolves(t, scope)
    ensures NothingResolves(TextOf(seg) + t, scope)
  {
    hide Resolved, IsTemplateRef, FirstSegment, TextOf;
    var s := TextOf(seg) + t;
    assert s[|TextOf(seg)|..] == t;
    assert Segments(s) == [seg] + Segments(t);
  }

  lemma {:induction false} RunInside(s: string, t: string)
    requires IdentRun(s) != s
    ensures IdentRun(s + t) == IdentRun(s)
  {
    if s != "" {
      assert (s + t)[1..] == s[1..] + t;
      if IsIdentChar(s[0]) { RunInside(s[1..], t); }
    }
  }

  lemma {:induction false} NameLeftOpen(s: string, scope: Scope)
    requires IdentRun(s) == s
    ensures !Shut(s, Name, scope)
    decreases |s|
  {
    hide Resolved, IsTemplateRef, FirstSegment;
    if s != "" {
      assert IsIdentChar(s[0]) && s == [s[0]] + IdentRun(s[1..]);
      FirstReads(s);
      NameLeftOpen(s[1..], scope);
    }
  }

  lemma DottedInFront(name: string, rest: string, t: string, scope: Scope)
    requires FirstSegment("$" + name + rest) == Dotted(name) && Shut(rest, Name, scope)
    ensures FirstSegment("$" + name + (rest + t)) == Dotted(name)
  {
    hide WithoutPunct, FirstSegment, Shut, IdentRun;
    KeptName("$" + name + rest);
    DottedReads(name, rest);
    DottedReads(name, rest + t);
    if IdentRun(rest) == rest { NameLeftOpen(rest, scope); }
    RunInside(rest, t);
    NameIsRun(name + rest);
    RunThrough(name, rest);
    RunThrough(name, rest + t);
  }

  lemma DollarInFront(rest: string, t: string)
    requires FirstSegment("$" + rest) == Plainly('$') && rest != "" && rest[0] != '{'
    ensures FirstSegment("$" + (rest + t)) == Plainly('$')
  {
    hide FirstSegment;
    PlainDollar(rest);
    PlainDollar(rest + t);
  }

  /** Text behind a shut value does not change how its front is read. */
  lemma FrontOfValue(value: string, left: Left, t: string, scope: Scope)
    requires value != "" && Shut(value, left, scope)
    ensures var seg := FirstSegment(value);
            FirstSegment(TextOf(seg) + (value[|TextOf(seg)|..] + t)) == seg
  {
    hide Resolves, FirstSegment;
    var seg := FirstSegment(value);
    var rest := value[|TextOf(seg)|..];
    assert value == TextOf(seg) + rest;
    FirstReads(value);
    match seg
    case Plainly(c) => if c == '$' { DollarInFront(rest, t); } else { FirstReads([c] + (rest + t)); }
    case Braced(name) => BraceStays(name, rest, rest + t);
    case Dotted(name) => DottedInFront(name, rest, t, scope);
  }

  lemma {:induction false} ValueInFront(value: string, left: Left, t: string, scope: Scope)
    requires Shut(value, left, scope) && NothingResolves(t, scope)
    ensures NothingResolves(value + t, scope)
    decreases |value|
  {
    hide NothingResolves, FirstSegment, Resolves, LeftBy, TextOf;
    if value == "" {
      assert value + t == t;
    } else {
      var seg := FirstSegment(value);
      var rest := value[|TextOf(seg)|..];
      assert value + t == TextOf(seg) + (rest + t);
      ValueInFront(rest, LeftBy(seg, left), t, scope);
      FrontOfValue(value, left, t, scope);
      OneMore(seg, rest + t, scope);
    }
  }

  /** A value without a dollar sign is shut. */
  lemma {:induction false} PlainValueShut(value: string, scope: Scope)
    requires '$' !in value
    ensures Shut(value, Clear, scope)
    decreases |value|
  {
    if value != "" {
      FirstReads(value);
      PlainValueShut(value[1..], scope);
    }
  }

  /** If a text settles, expanding it leaves no reference that resolves. */
  lemma {:induction false} SettledOnce(s: string, left: Left, unclosed: bool, scope: Scope)
    requires Settles(s, left, unclosed, scope)
    ensures NothingResolves(Expanded(s, scope), scope)
    decreases |s|
  {
    hide Resolved, IsTemplateRef, FirstSegment, NothingResolves, Seals, Shut, TextOf;
    if s == "" {
      NothingInNothing(scope);
    } else {
      var seg := FirstSegment(s);
      var rest := s[|TextOf(seg)|..];
      OneSegment(s, scope);
      if Resolves(seg, scope) {
        SettledOnce(rest, Clear, unclosed, scope);
        ValueInFront(Resolved(seg.name, scope), Clear, Expanded(rest, scope), scope);
      } else {
        SettledOnce(rest, LeftBy(seg, left), unclosed || OpensBrace(seg, rest), scope);
        SegmentStays(s, left, unclosed, scope);
        OneMore(seg, Expanded(rest, scope), scope);
      }
    }
  }

  lemma NothingInNothing(scope: Scope)
    ensures Expanded("", scope) == "" && NothingResolves("", scope)
  {
  }

  lemma SegmentStays(s: string, left: Left, unclosed: bool, scope: Scope)
    requires s != "" && Settles(s, left, unclosed, scope) && !Resolves(FirstSegment(s), scope)
    ensures var seg := FirstSegment(s); FirstSegment(TextOf(seg) + Expanded(s[|TextOf(seg)|..], scope)) == seg
  {
    hide Resolves, FirstSegment, Expanded, Seals;
    var seg := FirstSegment(s);
    var rest := s[|TextOf(seg)|..];
    assert s == TextOf(seg) + rest;
    FirstReads(s);
    match seg
    case Plainly(c) =>
      if c == '$' { DollarStays(s, unclosed, scope); } else { FirstReads([c] + Expanded(rest, scope)); }
    case Braced(name) => BraceStays(name, rest, Expanded(rest, scope));
    case Dotted(name) => NameStays(name, rest, unclosed, scope);
  }

  /** Expanding a second time changes nothing when the text settles. */
  lemma SecondExpansionUnchanged(s: string, scope: Scope)
    requires Settles(s, Clear, false, scope)
    ensures Expanded(Expanded(s, scope), scope) == Expanded(s, scope)
    ensures Reports(Expanded(s, scope), scope) == EarlyReferences(Segments(Expanded(s, scope)), scope.node.id)
  {
    hide NothingResolves, Settles;
    SettledOnce(s, Clear, false, scope);
    UnresolvedTextUnchanged(Expanded(s, scope), scope);
  }

  lemma PlainFirst(c: char, t: string, scope: Scope)
    requires c != '$'
    ensures Expanded([c] + t, scope) == [c] + Expanded(t, scope)
  {
    hide Resolved, IsTemplateRef, FirstSegment, Expanded;
    var s := [c] + t;
    FirstReads(s);
    PlainCharacter(Plainly(c), scope, s);
    OneSegment(s, scope);
    assert s[1..] == t;
  }

  lemma {:induction false} PlainFront(a: string, s: string, scope: Scope)
    requires '$' !in a
    ensures Expanded(a + s, scope) == a + Expanded(s, scope)
  {
    hide *;
    if a == "" {
      assert a + s == s;
    } else {
      var c, rest := a[0], a[1..];
      assert a == [c] + rest;
      PlainFront(rest, s, scope);
      PlainFirst(c, rest + s, scope);
      Regroup([c], rest, s);
      Regroup([c], rest, Expanded(s, scope));
    }
  }

  /** For a text with one reference, exactly when expanding again changes nothing: when
      nothing resolves in the value and the text behind it. */
  lemma OneReferenceExactly(a: string, seg: Segment, b: string, scope: Scope)
    requires '$' !in a && '$' !in b && Resolves(seg, scope) && FirstSegment(TextOf(seg) + b) == seg
    requires PlainValues(Resolved(seg.name, scope) + b, scope)
    ensures var s := a + (TextOf(seg) + b); var value := Resolved(seg.name, scope);
            && Expanded(s, scope) == a + (value + b)
            && (Expanded(Expanded(s, scope), scope) == Expanded(s, scope) <==> NothingResolves(value + b, scope))
  {
    hide Resolved, IsTemplateRef, FirstSegment, TextOf, PlainValues, NothingResolves;
    var s, value := a + (TextOf(seg) + b), Resolved(seg.name, scope);
    PlainFront(a, TextOf(seg) + b, scope);
    OneSegment(TextOf(seg) + b, scope);
    assert (TextOf(seg) + b)[|TextOf(seg)|..] == b;
    NoDollarNoSegment(b, scope);
    PlainFront(a, value + b, scope);
    LeftAloneExactly(value + b, scope);
    assert (a + (value + b))[|a|..] == value + b;
    assert (a + Expanded(value + b, scope))[|a|..] == Expanded(value + b, scope);
  }

  // ---- placeholders -------------------------------------------------------------------------------------

  /** The characters before the first pair of closing braces. */
  function UpToBraces(s: string): (r: Option<string>)
    ensures r.Some? ==> |r.value| + 2 <= |s| && r.value <= s && s[|r.value|] == '}' && s[|r.value| + 1] == '}'
  {
    if |s| < 2 then None
    else if s[0] == '}' && s[1] == '}' then Some("")
    else
      var rest := UpToBraces(s[1..]);
      if rest.None? then None else Some([s[0]] + rest.value)
  }

  function TrimmedKey(s: string): (r: string)
    ensures |r| <= |s|
    decreases |s|
  {
    if s != "" && IsSpace(s[0]) then TrimmedKey(s[1..])
    else if s != "" && IsSpace(s[|s| - 1]) then TrimmedKey(s[..|s| - 1])
    else s
  }

  /** What stands for `{{inside}}`: a value of the run, or the same text. */
  function Placeholder(inside: string, ctx: Context): string
  {
    var key := TrimmedKey(inside);
    if key != "" && "needle." + key in ctx then ctx["needle." + key] else "{{" + inside + "}}"
  }

  predicate Starts(s: string, prefix: string) { prefix <= s }

  /** What the front of a text becomes, and how many characters it takes. */
  datatype Front = Front(text: string, used: nat)

  /** An escaped pair of braces loses its backslash. */
  function FrontOf(s: string, ctx: Context): (r: Front)
    requires s != ""
    ensures 1 <= r.used <= |s|
  {
    if Starts(s, "\\{{") then Front("{{", 3)
    else
      var inside := if Starts(s, "{{") then UpToBraces(s[2..]) else None;
      if inside.Some? then Front(Placeholder(inside.value, ctx), |inside.value| + 4) else Front([s[0]], 1)
  }

  /** The text with its placeholders expanded, from left to right. */
  function Filled(s: string, ctx: Context): string
    decreases |s|
  {
    if s == "" then "" else FrontOf(s, ctx).text + Filled(s[FrontOf(s, ctx).used..], ctx)
  }

  method FindBraces(input: string, start: nat) returns (close: Option<nat>)
    requires start <= |input|
    ensures close.Some? <==> UpToBraces(input[start..]).Some?
    ensures close.Some? ==> start <= close.value && close.value + 2 <= |input|
    ensures close.Some? ==> input[start..close.value] == UpToBraces(input[start..]).value
  {
    var i := start;
    assert input[start..][0..] == input[start..];
    while i + 1 < |input| && !(input[i] == '}' && input[i + 1] == '}')
      invariant start <= i <= |input|
      invariant NoBracesBefore(input[start..], i - start)
    {
      i := i + 1;
    }
    if i + 1 < |input| {
      FirstBraces(input[start..], i - start);
      assert input[start..][..i - start] == input[start..i];
      return Some(i);
    }
    NoBraces(input[start..]);
    close := None;
  }

  ghost predicate NoBracesBefore(s: string, k: int)
  {
    0 <= k <= |s| && forall i :: 0 <= i < k && i + 1 < |s| ==> !(s[i] == '}' && s[i + 1] == '}')
  }

  lemma {:induction false} FirstBraces(s: string, k: nat)
    requires NoBracesBefore(s, k) && k + 1 < |s| && s[k] == '}' && s[k + 1] == '}'
    ensures UpToBraces(s) == Some(s[..k])
  {
    if k > 0 {
      FirstBraces(s[1..], k - 1);
      assert s[..k] == [s[0]] + s[1..][..k - 1];
    }
  }

  lemma {:induction false} NoBraces(s: string)
    requires NoBracesBefore(s, |s|) || (|s| > 0 && NoBracesBefore(s, |s| - 1))
    ensures UpToBraces(s) == None
  {
    if |s| >= 2 { NoBraces(s[1..]); }
  }

  lemma {:induction false} TrimLeft(s: string)
    requires s != "" && IsSpace(s[0])
    ensures TrimmedKey(s) == TrimmedKey(s[1..])
  {
  }

  method TrimKey(text: string) returns (key: string)
    ensures key == TrimmedKey(text)
  {
    var lo := 0;
    while lo < |text| && IsSpace(text[lo])
      invariant lo <= |text| && TrimmedKey(text[lo..]) == TrimmedKey(text)
    {
      TrimLeft(text[lo..]);
      assert text[lo..][1..] == text[lo + 1..];
      lo := lo + 1;
    }
    var rest := text[lo..];
    var hi := |rest|;
    assert rest[..hi] == rest;
    while hi > 0 && IsSpace(rest[hi - 1])
      invariant 0 <= hi <= |rest| && (hi > 0 ==> !IsSpace(rest[0]))
      invariant TrimmedKey(rest[..hi]) == TrimmedKey(rest)
    {
      assert rest[..hi][..hi - 1] == rest[..hi - 1] && rest[..hi][0] == rest[0];
      hi := hi - 1;
    }
    key := rest[..hi];
  }

  method FrontAt(input: string, i: nat, ctx: Context) returns (text: string, next: nat)
    requires i < |input|
    ensures var front := FrontOf(input[i..], ctx); text == front.text && next == i + front.used
  {
    hide TrimmedKey, UpToBraces;
    ghost var rest := input[i..];
    assert |rest| > 2 ==> rest[1] == input[i + 1] && rest[2] == input[i + 2];
    if i + 2 < |input| && input[i] == '\\' && input[i + 1] == '{' && input[i + 2] == '{' {
      return "{{", i + 3;
    }
    if i + 1 < |input| && input[i] == '{' && input[i + 1] == '{' {
      assert rest[2..] == input[i + 2..];
      var close := FindBraces(input, i + 2);
      if close.Some? {
        var inside := input[i + 2..close.value];
        var key := TrimKey(inside);
        if key != "" && "needle." + key in ctx {
          return ctx["needle." + key], close.value + 2;
        }
        return "{{" + inside + "}}", close.value + 2;
      }
    }
    text, next := [input[i]], i + 1;
  }

  method ExpandPlaceholders(input: string, ctx: Context) returns (out: string)
    ensures out == Filled(input, ctx)
  {
    hide FrontOf;
    out := "";
    var i := 0;
    assert input[0..] == input;
    while i < |input|
      invariant i <= |input| && out + Filled(input[i..], ctx) == Filled(input, ctx)
    {
      var text, next := FrontAt(input, i, ctx);
      assert input[i..][next - i..] == input[next..];
      out, i := out + text, next;
    }
  }

  /** The placeholders of a text that is expanded from left to right. */
  function Placeholders(s: string): seq<string>
    decreases |s|
  {
    if s == "" then []
    else if Starts(s, "\\{{") then Placeholders(s[3..])
    else
      var inside := if Starts(s, "{{") then UpToBraces(s[2..]) else None;
      if inside.Some? then [inside.value] + Placeholders(s[|inside.value| + 4..]) else Placeholders(s[1..])
  }

  ghost predicate HasEscape(s: string)
  {
    exists i :: 0 <= i && i + 2 < |s| && s[i] == '\\' && s[i + 1] == '{' && s[i + 2] == '{'
  }

  predicate Known(inside: string, ctx: Context)
  {
    TrimmedKey(inside) != "" && "needle." + TrimmedKey(inside) in ctx
  }

  /** A text with no escape and no known key is unchanged, whatever else stands in
      double braces. */
  lemma {:induction false} UnknownKeysPassThrough(s: string, ctx: Context)
    requires !HasEscape(s) && forall p :: p in Placeholders(s) ==> !Known(p, ctx)
    ensures Filled(s, ctx) == s
    decreases |s|
  {
    hide FrontOf, Placeholders, HasEscape, Known;
    if s != "" {
      if Starts(s, "\\{{") { EscapeHere(s); }
      FrontUnchanged(s, ctx);
      var n := FrontOf(s, ctx).used;
      if HasEscape(s[n..]) { EscapeLater(s, n); }
      UnknownKeysPassThrough(s[n..], ctx);
      assert s == s[..n] + s[n..];
    }
  }

  lemma FrontUnchanged(s: string, ctx: Context)
    requires s != "" && !Starts(s, "\\{{") && forall p :: p in Placeholders(s) ==> !Known(p, ctx)
    ensures var n := FrontOf(s, ctx).used;
            FrontOf(s, ctx).text == s[..n] && forall p :: p in Placeholders(s[n..]) ==> p in Placeholders(s)
  {
    hide Placeholders, FrontOf, Known;
    var inside := if Starts(s, "{{") then UpToBraces(s[2..]) else None;
    if inside.Some? {
      PlaceholderCut(s, inside.value);
      PlaceholderFirst(s, inside.value);
      PlaceholderInFront(s, inside.value, ctx);
      assert inside.value in Placeholders(s);
    } else {
      CharacterInFront(s, ctx);
    }
  }

  lemma ClosingBraces(s: string, inside: string)
    requires Starts(s, "{{") && UpToBraces(s[2..]) == Some(inside)
    ensures |inside| + 4 <= |s| && inside <= s[2..] && "}}" <= s[2 + |inside|..]
  {
    hide UpToBraces;
    var rest, n := s[2..], |inside|;
    assert rest[n] == s[2 + n] && rest[n + 1] == s[3 + n];
  }

  lemma PlaceholderCut(s: string, inside: string)
    requires Starts(s, "{{") && UpToBraces(s[2..]) == Some(inside)
    ensures |inside| + 4 <= |s| && s[..|inside| + 4] == "{{" + inside + "}}"
  {
    hide UpToBraces;
    ClosingBraces(s, inside);
    Pieces(s, "{{", inside, "}}");
  }

  lemma NotEscaped(s: string)
    requires Starts(s, "{{")
    ensures !Starts(s, "\\{{")
  {
    assert s[0] == '{';
  }

  lemma PlaceholderFirst(s: string, inside: string)
    requires Starts(s, "{{") && UpToBraces(s[2..]) == Some(inside)
    ensures |inside| + 4 <= |s| && Placeholders(s) == [inside] + Placeholders(s[|inside| + 4..])
  {
    hide UpToBraces, Starts;
    NotEscaped(s);
    ClosingBraces(s, inside);
  }

  lemma PlaceholderInFront(s: string, inside: string, ctx: Context)
    requires Starts(s, "{{") && UpToBraces(s[2..]) == Some(inside) && !Known(inside, ctx)
    ensures FrontOf(s, ctx) == Front("{{" + inside + "}}", |inside| + 4)
  {
    hide UpToBraces, TrimmedKey, Starts;
    NotEscaped(s);
  }

  lemma CharacterInFront(s: string, ctx: Context)
    requires s != "" && !Starts(s, "\\{{") && !(Starts(s, "{{") && UpToBraces(s[2..]).Some?)
    ensures FrontOf(s, ctx) == Front([s[0]], 1) && Placeholders(s) == Placeholders(s[1..])
  {
    hide UpToBraces, TrimmedKey;
  }

  lemma EscapeHere(s: string)
    requires Starts(s, "\\{{")
    ensures HasEscape(s)
  {
    assert s[0] == '\\' && s[0 + 1] == '{' && s[0 + 2] == '{';
  }

  lemma EscapeLater(s: string, n: nat)
    requires n <= |s| && HasEscape(s[n..])
    ensures HasEscape(s)
  {
    var rest := s[n..];
    var i :| 0 <= i && i + 2 < |rest| && rest[i] == '\\' && rest[i + 1] == '{' && rest[i + 2] == '{';
    assert s[n + i] == '\\' && s[n + i + 1] == '{' && s[n + i + 2] == '{';
  }
}
