/** What names, references and placeholders stand for, told over the texts themselves, and
    what becomes of a node's attributes (src/engine/variable_expansion_transform.cpp). */
module VariableMeanings {
  import opened Text
  import opened Graphs
  import opened Outcomes
  import opened VariableExpansion
  import opened VariableTransforms

  // ---- names ------------------------------------------------------------------------------

  /** The name is the prefix and at least one more character. */
  ghost predicate Begins(name: string, prefix: string)
  {
    exists rest :: rest != "" && name == prefix + rest
  }

  lemma BeginsPrefixed(name: string, prefix: string)
    ensures Begins(name, prefix) <==> Prefixed(name, prefix)
  {
    if Prefixed(name, prefix) {
      assert name == prefix + name[|prefix|..] && name[|prefix|..] != "";
    }
    if Begins(name, prefix) {
      var rest :| rest != "" && name == prefix + rest;
    }
  }

  /** Only `goal` and names that begin like these are references at all. */
  lemma ReferencesExactly(name: string)
    ensures IsTemplateRef(name)
            <==> name == "goal" || Begins(name, "var.") || Begins(name, "context.") || Begins(name, "human.")
    ensures IsLateBound(name)
            <==> Begins(name, "human.") || (Begins(name, "context.")
                                            && !(exists rest :: name == "context.config." + rest))
  {
    hide Prefixed, Begins;
    BeginsPrefixed(name, "var.");
    BeginsPrefixed(name, "context.");
    BeginsPrefixed(name, "human.");
    if "context.config." <= name { assert name == "context.config." + name[15..]; }
  }

  /** Under the key, or "" when there is nothing. */
  function Under(m: map<string, string>, key: string): string
  {
    if key in m then m[key] else ""
  }

  /** What a name other than `goal` stands for: a variable of the run, where the repository
      of a branch's own worktree wins; a value of the context; or a value of the context or
      else of the graph under the name itself. */
  lemma PlainMeans(name: string, scope: Scope)
    ensures forall rest :: rest != "" && name == "var." + rest ==>
              Plain(name, scope) ==
                if rest == "repo_dir" && "needle.branch.cwd" in scope.ctx then scope.ctx["needle.branch.cwd"]
                                    else Under(scope.ctx, name)
    ensures forall rest :: rest != "" && name == "context." + rest ==> Plain(name, scope) == Under(scope.ctx, rest)
    ensures !Begins(name, "var.") && !Begins(name, "context.") ==>
              Plain(name, scope) == if name in scope.ctx then scope.ctx[name] else Under(scope.graphAttrs, name)
    ensures name != "goal" ==> Resolved(name, scope) == Plain(name, scope)
  {
    BeginsPrefixed(name, "var.");
    BeginsPrefixed(name, "context.");
    assert "var."[0] == 'v' && "context."[0] == 'c';
    forall rest | rest != "" && name == "var." + rest ensures name[4..] == rest && Begins(name, "var.") {}
    forall rest | rest != "" && name == "context." + rest
      ensures name[8..] == rest && Begins(name, "context.") && name[0] == 'c'
    {
    }
    assert "var.repo_dir"[4..] == "repo_dir";
    hide Prefixed, Begins;
  }

  /** The goal is the node's own, or the graph's where it has none, with what its names stand
      for in their places; `$goal` in it, and names that stand for nothing, stay. */
  lemma GoalMeans(scope: Scope)
    ensures var goal := if Under(scope.node.attrs, "goal") != "" then scope.node.attrs["goal"]
            else Under(scope.graphAttrs, "goal");
            Resolved("goal", scope) == ExpandedGoal(goal, scope) && ('$' !in goal ==> Resolved("goal", scope) == goal)
  {
    hide ExpandedGoal;
    if '$' !in Goal(scope) { NoDollarNoChange(Goal(scope), scope); }
  }

  lemma GoalNameFirst(name: string, b: string, scope: Scope)
    requires name != "" && StartsName(name[0]) && Identifier(name + b) == name
    ensures var value := if name == "goal" then "" else Plain(name, scope);
            ExpandedGoal("$" + name + b, scope)
            == if value != "" then value + ExpandedGoal(b, scope) else "$" + ExpandedGoal(name + b, scope)
  {
    hide Plain, Identifier;
    var s := "$" + name + b;
    assert s[1..] == name + b && s[1 + |name|..] == b && s[1] == name[0];
    assert NameIn(s) == name;
  }

  lemma GoalCharacter(c: char, s: string, scope: Scope)
    requires c != '$'
    ensures ExpandedGoal([c] + s, scope) == [c] + ExpandedGoal(s, scope)
  {
    hide Plain, Identifier;
    assert ([c] + s)[1..] == s && NameIn([c] + s) == "";
  }

  /** One name in the goal. */
  lemma {:induction false} GoalName(a: string, name: string, b: string, scope: Scope)
    requires '$' !in a && name != "" && StartsName(name[0]) && Identifier(name + b) == name
    ensures var value := if name == "goal" then "" else Plain(name, scope);
            ExpandedGoal(a + ("$" + name + b), scope)
            == a + if value != "" then value + ExpandedGoal(b, scope) else "$" + ExpandedGoal(name + b, scope)
  {
    hide Plain, Identifier, ExpandedGoal;
    var s := "$" + name + b;
    if a == "" {
      assert a + s == s;
      GoalNameFirst(name, b, scope);
    } else {
      GoalName(a[1..], name, b, scope);
      GoalCharacter(a[0], a[1..] + s, scope);
      assert [a[0]] + (a[1..] + s) == a + s;
    }
  }

  // ---- identifiers ----------------------------------------------------------------------------

  predicate IdentChar(c: char)
  {
    'a' <= c <= 'z' || 'A' <= c <= 'Z' || '0' <= c <= '9' || c == '_' || c == '.'
  }

  predicate Punct(c: char)
  {
    c == '.' || c == ',' || c == ';' || c == ':' || c == ')' || c == ']' || c == '}'
  }

  /** The first `n` characters are the longest run of identifier characters. */
  predicate RunOf(s: string, n: int)
  {
    0 <= n <= |s| && (forall i :: 0 <= i < n ==> IdentChar(s[i])) && (n < |s| ==> !IdentChar(s[n]))
  }

  /** Of a run of `n`, `m` characters are left without the punctuation at its end. */
  predicate Trimmed(s: string, n: int, m: int)
  {
    0 <= m <= n <= |s| && (forall i :: m <= i < n ==> Punct(s[i])) && (m > 0 ==> !Punct(s[m - 1]))
  }

  lemma {:induction false} RunIs(s: string, n: int)
    requires RunOf(s, n)
    ensures IdentRun(s) == s[..n]
  {
    if n > 0 {
      assert RunOf(s[1..], n - 1);
      RunIs(s[1..], n - 1);
      assert s[..n] == [s[0]] + s[1..][..n - 1];
    }
  }

  lemma {:induction false} TrimIs(s: string, n: int, m: int)
    requires Trimmed(s, n, m)
    ensures WithoutPunct(s[..n]) == s[..m]
  {
    if m < n {
      assert s[..n][..n - 1] == s[..n - 1];
      TrimIs(s, n - 1, m);
    }
  }

  /** An identifier is the longest run without the punctuation at its end, or all of it when
      nothing else would be left. */
  lemma IdentifierExactly(s: string, n: int, m: int)
    requires RunOf(s, n) && Trimmed(s, n, m)
    ensures Identifier(s) == if m == 0 then s[..n] else s[..m]
  {
    hide IdentRun, WithoutPunct;
    RunIs(s, n);
    TrimIs(s, n, m);
  }

  // ---- references ------------------------------------------------------------------------------

  /** A dollar sign, a brace and all up to the first closing brace are a reference, whatever
      the name. */
  lemma BracedReads(name: string, rest: string)
    requires '}' !in name
    ensures FirstSegment("${" + name + "}" + rest) == Braced(name)
  {
    hide UpToBrace;
    var s := "${" + name + "}" + rest;
    assert s[2..] == name + ("}" + rest) && s[0] == '$' && s[1] == '{';
    BraceAfter(name, rest);
  }

  lemma BraceAfter(name: string, rest: string)
    requires '}' !in name
    ensures UpToBrace(name + ("}" + rest)) == Some(name)
  {
    hide UpToBrace;
    var s := name + ("}" + rest);
    assert s[..|name|] == name;
    FirstBrace(s, |name|);
  }

  /** Without braces an identifier must follow the dollar sign; any other character stands
      for itself. */
  lemma SegmentExactly(name: string, rest: string)
    requires name != ""
    ensures FirstSegment("$" + name + rest) == Dotted(name) <==> StartsName(name[0]) && Identifier(name + rest) == name
    ensures FirstSegment("$" + rest) == Plainly('$')
            <==> rest == "" || (!StartsName(rest[0]) && (rest[0] == '{' ==> '}' !in rest[1..]))
    ensures name[0] != '$' ==> FirstSegment(name + rest) == Plainly(name[0])
  {
    hide Identifier, FirstSegment;
    DottedReads(name, rest);
    FirstReads(name + rest);
    PlainDollar(rest);
  }

  // ---- texts ------------------------------------------------------------------------------------

  /** A text is expanded as its pieces: a reference in front becomes its value or stays, and
      is reported when it needed a value then. */
  ghost predicate ReadsAs(name: string, written: string, rest: string, scope: Scope)
  {
    var value := Resolved(name, scope);
    && Expanded(written + rest, scope)
       == (if IsTemplateRef(name) && value != "" then value else written) + Expanded(rest, scope)
    && Reports(written + rest, scope)
       == (if IsTemplateRef(name) && value == "" && !IsLateBound(name) then [Unresolved(scope.node.id, name)] else [])
          + Reports(rest, scope)
  }

  lemma ReferenceReadsAs(seg: Segment, rest: string, scope: Scope)
    requires !seg.Plainly? && TextOf(seg) != "" && FirstSegment(TextOf(seg) + rest) == seg
    ensures ReadsAs(seg.name, TextOf(seg), rest, scope)
  {
    hide FirstSegment, Resolved, IsTemplateRef, IsLateBound;
    var s := TextOf(seg) + rest;
    assert s != "" && s[|TextOf(seg)|..] == rest;
  }

  /** References between braces and without. */
  lemma ReferenceBecomes(name: string, rest: string, scope: Scope)
    requires name != ""
    ensures '}' !in name ==> ReadsAs(name, "${" + name + "}", rest, scope)
    ensures StartsName(name[0]) && Identifier(name + rest) == name ==> ReadsAs(name, "$" + name, rest, scope)
  {
    hide ReadsAs, FirstSegment, Identifier;
    if '}' !in name {
      BracedReads(name, rest);
      ReferenceReadsAs(Braced(name), rest, scope);
    }
    if StartsName(name[0]) && Identifier(name + rest) == name {
      SegmentExactly(name, rest);
      ReferenceReadsAs(Dotted(name), rest, scope);
    }
  }

  /** Any other character is copied, and so is a dollar sign that no name or closed brace
      follows. */
  lemma CharacterStays(c: char, rest: string, scope: Scope)
    requires c == '$' && rest != "" ==> !StartsName(rest[0]) && (rest[0] == '{' ==> '}' !in rest[1..])
    ensures Expanded([c] + rest, scope) == [c] + Expanded(rest, scope)
    ensures Reports([c] + rest, scope) == Reports(rest, scope)
  {
    hide FirstSegment, Identifier;
    var s := [c] + rest;
    SegmentExactly("x", rest);
    if c != '$' { SegmentExactly([c], rest); } else { assert s == "$" + rest; }
    assert FirstSegment(s) == Plainly(c) && s[1..] == rest;
  }

  // ---- placeholders -----------------------------------------------------------------------------

  predicate Blanks(s: string)
  {
    forall i :: 0 <= i < |s| ==> s[i] == ' ' || '\t' <= s[i] <= '\r'
  }

  /** Neither end is blank. */
  predicate Tight(s: string)
  {
    s != "" ==> !Blanks(s[..1]) && !Blanks(s[|s| - 1..])
  }

  lemma TightStays(key: string)
    requires Tight(key)
    ensures TrimmedKey(key) == key
  {
    if key != "" { assert key[..1] == [key[0]] && key[|key| - 1..] == [key[|key| - 1]]; }
  }

  lemma TrimFront(c: char, s: string)
    requires Blanks([c])
    ensures TrimmedKey([c] + s) == TrimmedKey(s)
  {
    assert ([c] + s)[1..] == s && [c][0] == c;
  }

  lemma TrimBack(s: string, c: char)
    requires Blanks([c]) && (s != "" ==> !Blanks(s[..1]))
    ensures TrimmedKey(s + [c]) == TrimmedKey(s)
  {
    assert (s + [c])[..|s|] == s && [c][0] == c;
    if s == "" {
      assert s + [c] == [c] && [c][1..] == "";
    } else {
      assert (s + [c])[0] == s[0] && s[..1] == [s[0]];
    }
  }

  lemma {:induction false} TrimmedRight(key: string, right: string)
    requires Blanks(right) && Tight(key)
    ensures TrimmedKey(key + right) == key
  {
    hide TrimmedKey;
    if right == "" {
      assert key + right == key;
      TightStays(key);
    } else if key == "" {
      assert key + right == [right[0]] + (key + right[1..]);
      TrimFront(right[0], key + right[1..]);
      TrimmedRight(key, right[1..]);
    } else {
      var n := |right| - 1;
      assert key + right == (key + right[..n]) + [right[n]];
      assert (key + right[..n])[..1] == key[..1];
      TrimBack(key + right[..n], right[n]);
      TrimmedRight(key, right[..n]);
    }
  }

  lemma {:induction false} TrimmedIs(left: string, key: string, right: string)
    requires Blanks(left) && Blanks(right) && Tight(key)
    ensures TrimmedKey(left + key + right) == key
  {
    hide TrimmedKey;
    if left == "" {
      assert left + key + right == key + right;
      TrimmedRight(key, right);
    } else {
      assert left + key + right == [left[0]] + (left[1..] + key + right);
      TrimFront(left[0], left[1..] + key + right);
      TrimmedIs(left[1..], key, right);
    }
  }

  predicate PairAt(s: string, i: int)
  {
    0 <= i && i + 1 < |s| && s[i] == '}' && s[i + 1] == '}'
  }

  /** A placeholder becomes the run's value under its key, blanks around the key aside, or
      stays as it is when there is none. */
  lemma PlaceholderMeans(inside: string, left: string, key: string, right: string, rest: string, ctx: Context)
    requires inside == left + key + right && Blanks(left) && Blanks(right) && Tight(key)
    requires forall i :: 0 <= i < |inside| ==> !PairAt(inside + "}}", i)
    ensures Filled("{{" + inside + "}}" + rest, ctx)
            == (if key != "" && "needle." + key in ctx then ctx["needle." + key]
                else "{{" + inside + "}}") + Filled(rest, ctx)
  {
    hide TrimmedKey, UpToBraces, Filled;
    var s := "{{" + inside + "}}" + rest;
    TrimmedIs(left, key, right);
    ClosedFirst(inside, rest);
    assert s[2..] == inside + ("}}" + rest) && s[0] == '{' && s[1] == '{';
    assert Starts(s, "{{") && !Starts(s, "\\{{");
    assert FrontOf(s, ctx) == Front(Placeholder(inside, ctx), |inside| + 4);
    assert s[|inside| + 4..] == rest;
    OneFront(s, ctx);
  }

  lemma ClosedFirst(inside: string, rest: string)
    requires forall i :: 0 <= i < |inside| ==> !PairAt(inside + "}}", i)
    ensures UpToBraces(inside + ("}}" + rest)) == Some(inside)
  {
    hide UpToBraces;
    var s := inside + ("}}" + rest);
    forall i | 0 <= i < |inside| ensures !(s[i] == '}' && s[i + 1] == '}') {
      assert !PairAt(inside + "}}", i) && (inside + "}}")[i] == s[i] && (inside + "}}")[i + 1] == s[i + 1];
    }
    FirstBraces(s, |inside|);
    assert s[..|inside|] == inside;
  }

  lemma OneFront(s: string, ctx: Context)
    requires s != ""
    ensures Filled(s, ctx) == FrontOf(s, ctx).text + Filled(s[FrontOf(s, ctx).used..], ctx)
  {
    hide FrontOf;
  }

  /** An escaped pair of braces loses its backslash and opens nothing; any other character
      is copied. */
  lemma CharactersCopied(c: char, rest: string, ctx: Context)
    ensures Filled("\\{{" + rest, ctx) == "{{" + Filled(rest, ctx)
    ensures c != '\\' && c != '{' ==> Filled([c] + rest, ctx) == [c] + Filled(rest, ctx)
  {
    hide Filled, UpToBraces, Placeholder;
    OneFront("\\{{" + rest, ctx);
    assert ("\\{{" + rest)[3..] == rest && Starts("\\{{" + rest, "\\{{");
    OneFront([c] + rest, ctx);
    assert ([c] + rest)[1..] == rest && ([c] + rest)[0] == c;
    assert Starts([c] + rest, "\\{{") ==> c == '\\' by { assert "\\{{"[0] == '\\'; }
    assert Starts([c] + rest, "{{") ==> c == '{' by { assert "{{"[0] == '{'; }
  }

  // ---- attributes -----------------------------------------------------------------------------------

  /** Two scopes that stand for the same. */
  ghost predicate AlikeScopes(one: Scope, two: Scope)
  {
    && one.ctx == two.ctx && one.graphAttrs == two.graphAttrs
    && Get(one.node.attrs, "goal") == Get(two.node.attrs, "goal")
  }

  lemma {:induction false} GoalAlike(goal: string, one: Scope, two: Scope)
    requires AlikeScopes(one, two)
    ensures ExpandedGoal(goal, one) == ExpandedGoal(goal, two)
    decreases |goal|
  {
    hide NameIn;
    if goal != "" {
      GoalAlike(goal[1..], one, two);
      GoalAlike(goal[1 + |NameIn(goal)|..], one, two);
    }
  }

  lemma {:induction false} ExpandedAlike(s: string, one: Scope, two: Scope)
    requires AlikeScopes(one, two)
    ensures Expanded(s, one) == Expanded(s, two)
    decreases |s|
  {
    hide FirstSegment, ExpandedGoal, IsTemplateRef;
    if s != "" {
      var seg := FirstSegment(s);
      GoalAlike(Goal(one), one, two);
      assert Replacement(seg, one) == Replacement(seg, two);
      ExpandedAlike(s[|TextOf(seg)|..], one, two);
    }
  }

  /** What an attribute becomes, given the goal in force: placeholders first, then references. */
  function Becomes(value: string, n: Node, goal: string, ctx: Context, graphAttrs: Attributes): string
  {
    if value == "" then "" else Expanded(Filled(value, ctx), Scope(ctx, graphAttrs, n.(attrs := map["goal" := goal])))
  }

  /** The goal in force for an attribute: as written for those up to `goal` in name order,
      as expanded for those behind it. */
  function GoalFor(n: Node, key: string, ctx: Context, graphAttrs: Attributes): string
  {
    var goal := Get(n.attrs, "goal");
    if Less("goal", key) then Becomes(goal, n, goal, ctx, graphAttrs) else goal
  }

  ghost predicate ExpandedSoFar(n: Node, keys: set<string>, m: Node, ctx: Context, graphAttrs: Attributes)
  {
    && m.id == n.id && m.attrs.Keys == n.attrs.Keys
    && (forall k :: k in n.attrs && k !in keys ==> m.attrs[k] == n.attrs[k])
    && forall k :: k in n.attrs && k in keys ==>
       m.attrs[k] == Becomes(n.attrs[k], n, GoalFor(n, k, ctx, graphAttrs), ctx, graphAttrs)
  }

  lemma AttributeBecomes(n: Node, key: string, goal: string, p: Progress, ctx: Context, graphAttrs: Attributes)
    requires key in p.node.attrs && Get(p.node.attrs, "goal") == goal
    ensures AttributeExpanded(p, key, ctx, graphAttrs).node
            == p.node.(attrs := p.node.attrs[key := Becomes(p.node.attrs[key], n, goal, ctx, graphAttrs)])
  {
    hide Filled, Expanded, Reports;
    var value := p.node.attrs[key];
    ExpandedAlike(Filled(value, ctx), Scope(ctx, graphAttrs, p.node),
                  Scope(ctx, graphAttrs, n.(attrs := map["goal" := goal])));
  }

  lemma GoalInForce(n: Node, done: set<string>, key: string, m: Node, ctx: Context, graphAttrs: Attributes)
    requires ExpandedSoFar(n, done, m, ctx, graphAttrs)
    requires "goal" in n.attrs ==> ("goal" in done <==> Less("goal", key))
    ensures Get(m.attrs, "goal") == GoalFor(n, key, ctx, graphAttrs)
  {
    hide Filled, Expanded;
    LessTotal("goal", "goal");
  }

  lemma OneAttribute(n: Node, done: set<string>, key: string, p: Progress, ctx: Context, graphAttrs: Attributes)
    requires ExpandedSoFar(n, done, p.node, ctx, graphAttrs) && key in n.attrs && key !in done
    requires "goal" in n.attrs ==> ("goal" in done <==> Less("goal", key))
    ensures ExpandedSoFar(n, done + {key}, AttributeExpanded(p, key, ctx, graphAttrs).node, ctx, graphAttrs)
  {
    hide AttributeExpanded, Becomes, GoalFor;
    GoalInForce(n, done, key, p.node, ctx, graphAttrs);
    AttributeBecomes(n, key, GoalFor(n, key, ctx, graphAttrs), p, ctx, graphAttrs);
    var value := Becomes(n.attrs[key], n, GoalFor(n, key, ctx, graphAttrs), ctx, graphAttrs);
    Extends(n, done, key, p.node, value, ctx, graphAttrs);
  }

  lemma Extends(n: Node, done: set<string>, key: string, m: Node, value: string, ctx: Context, graphAttrs: Attributes)
    requires ExpandedSoFar(n, done, m, ctx, graphAttrs) && key in n.attrs
    requires value == Becomes(n.attrs[key], n, GoalFor(n, key, ctx, graphAttrs), ctx, graphAttrs)
    ensures ExpandedSoFar(n, done + {key}, m.(attrs := m.attrs[key := value]), ctx, graphAttrs)
  {
    hide Becomes, GoalFor;
    var after := m.attrs[key := value];
    forall k | k in n.attrs && k !in done + {key} ensures after[k] == n.attrs[k] {}
    forall k | k in n.attrs && k in done + {key}
      ensures after[k] == Becomes(n.attrs[k], n, GoalFor(n, k, ctx, graphAttrs), ctx, graphAttrs)
    {
      if k != key { assert k in done; }
    }
  }

  function Firsts(keys: seq<string>, k: nat): set<string>
    requires k <= |keys|
  {
    set i | 0 <= i < k :: keys[i]
  }

  lemma {:induction false} KeysExpandedSoFar(n: Node, keys: seq<string>, k: nat, ctx: Context, graphAttrs: Attributes)
    requires keys == SortedKeys(n.attrs.Keys) && k <= |keys|
    ensures ExpandedSoFar(n, Firsts(keys, k), KeysExpanded(Progress(n, []), keys[..k], ctx, graphAttrs).node, ctx,
                          graphAttrs)
  {
    hide AttributeExpanded, ExpandedSoFar, SortedKeys;
    if k == 0 {
      assert Firsts(keys, 0) == {} && keys[..0] == [];
      NothingExpanded(n, ctx, graphAttrs);
    } else {
      KeysExpandedSoFar(n, keys, k - 1, ctx, graphAttrs);
      var key := keys[k - 1];
      assert keys[..k][..k - 1] == keys[..k - 1];
      assert Firsts(keys, k) == Firsts(keys, k - 1) + {key};
      SortedFacts(n.attrs.Keys);
      assert key in keys;
      GoalBefore(n.attrs.Keys, keys, k - 1);
      OneAttribute(n, Firsts(keys, k - 1), key, KeysExpanded(Progress(n, []), keys[..k - 1], ctx, graphAttrs), ctx,
                   graphAttrs);
    }
  }

  lemma NothingExpanded(n: Node, ctx: Context, graphAttrs: Attributes)
    ensures ExpandedSoFar(n, {}, n, ctx, graphAttrs)
  {
  }

  lemma SortedFacts(keys: set<string>)
    ensures Sorted(SortedKeys(keys)) && forall k :: k in SortedKeys(keys) <==> k in keys
  {
  }

  lemma GoalBefore(all: set<string>, keys: seq<string>, k: nat)
    requires keys == SortedKeys(all) && k < |keys|
    ensures keys[k] !in Firsts(keys, k)
    ensures "goal" in all ==> ("goal" in Firsts(keys, k) <==> Less("goal", keys[k]))
  {
    SortedFacts(all);
    hide SortedKeys;
    forall i | 0 <= i < k ensures keys[i] != keys[k] { LessTotal(keys[i], keys[k]); }
    if "goal" in all {
      assert "goal" in keys;
      var j :| 0 <= j < |keys| && keys[j] == "goal";
      LessTotal(keys[j], keys[k]);
    }
  }

  /** Every attribute of every node becomes its expansion; nothing else of the graph changes. */
  lemma AttributesBecome(g: Graph, ctx: Context, i: nat, key: string)
    requires i < |g.nodes|
    ensures var t := Transformed(g, ctx); var n := g.nodes[i];
            && |t.nodes| == |g.nodes| && t.edges == g.edges && t.attrs == g.attrs && t.name == g.name
            && t.nodes[i].id == n.id && t.nodes[i].nodeType == n.nodeType && t.nodes[i].attrs.Keys == n.attrs.Keys
            && (key in n.attrs ==>
                  t.nodes[i].attrs[key] == Becomes(n.attrs[key], n, GoalFor(n, key, ctx, g.attrs), ctx, g.attrs))
  {
    hide KeysExpanded, Becomes, GoalFor;
    var n := g.nodes[i];
    var keys := SortedKeys(n.attrs.Keys);
    KeysExpandedSoFar(n, keys, |keys|, ctx, g.attrs);
    assert keys[..|keys|] == keys;
    NodeKeepsItsShape(Progress(n, []), keys, ctx, g.attrs);
    AllFirst(n, keys, key);
  }

  lemma AllFirst(n: Node, keys: seq<string>, key: string)
    requires keys == SortedKeys(n.attrs.Keys)
    ensures key in n.attrs ==> key in Firsts(keys, |keys|)
  {
    SortedFacts(n.attrs.Keys);
    hide SortedKeys;
    if key in n.attrs {
      assert key in keys;
      var i :| 0 <= i < |keys| && keys[i] == key;
    }
  }
}
