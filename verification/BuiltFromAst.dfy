/** What the built graph takes from the statements of its source, told over the statements
    themselves (src/parser/graph_builder.cpp). */
module BuiltFromAst {
  import opened Text
  import opened Graphs
  import opened Outcomes
  import opened DotAst
  import opened EdgeConditions
  import opened GraphBuilding
  import opened BuiltGraphs

  // ---- ids ------------------------------------------------------------------------------

  /** Letters, digits, `_`, `.` and `-` stay in an id, in their order, and nothing else. */
  lemma {:induction false} SanitizedByCharacter(a: string, c: char)
    ensures Sanitized("") == ""
    ensures Sanitized(a + [c])
            == Sanitized(a)
               + if 'a' <= c <= 'z' || 'A' <= c <= 'Z' || '0' <= c <= '9' || c == '_' || c == '.' || c == '-'
                 then [c] else ""
  {
    assert (a + [c])[..|a|] == a;
  }

  // ---- types ----------------------------------------------------------------------------

  /** The shapes that have a meaning, in any case of letters. */
  predicate Shaped(shape: string, t: NodeType)
  {
    || (SameLetters(shape, "Mdiamond") && t.START?)
    || (SameLetters(shape, "Msquare") && t.EXIT?)
    || (SameLetters(shape, "diamond") && t.CONDITIONAL?)
    || (SameLetters(shape, "component") && t.PARALLEL?)
    || (SameLetters(shape, "trapezium") && t.FAN_IN?)
    || (SameLetters(shape, "hexagon") && t.WAIT_HUMAN?)
    || (SameLetters(shape, "parallelogram") && t.TOOL?)
    || (SameLetters(shape, "house") && t.MANAGER_LOOP?)
  }

  /** A node of the llmkit handler is of its type, one with a shape that has a meaning of
      that type, and any other runs code generation. */
  lemma TypeOfNode(attrs: Attributes)
    ensures var shape := if "shape" in attrs then attrs["shape"] else ""; var t := ResolveNodeType(attrs);
            if "handler" in attrs && attrs["handler"] == "llmkit" then t == LLMKIT
            else if exists u :: Shaped(shape, u) then Shaped(shape, t)
            else t == CODERGEN
  {
    hide Lower, SameLetters;
    var shape := if "shape" in attrs then attrs["shape"] else "";
    LowerIgnoresCase(shape, "Mdiamond");
    LowerIgnoresCase(shape, "Msquare");
    LowerIgnoresCase(shape, "diamond");
    LowerIgnoresCase(shape, "component");
    LowerIgnoresCase(shape, "trapezium");
    LowerIgnoresCase(shape, "hexagon");
    LowerIgnoresCase(shape, "parallelogram");
    LowerIgnoresCase(shape, "house");
    LowerShapes();
  }

  lemma LowerShapes()
    ensures Lower("Mdiamond") == "mdiamond" && Lower("Msquare") == "msquare" && Lower("diamond") == "diamond"
    ensures Lower("component") == "component" && Lower("trapezium") == "trapezium" && Lower("hexagon") == "hexagon"
    ensures Lower("parallelogram") == "parallelogram" && Lower("house") == "house"
  {
  }

  // ---- default statements ----------------------------------------------------------------

  /** The last statement for the target to assign the key assigns this value. */
  ghost predicate LastAssigned(defaults: seq<AstDefaultAttrs>, target: string, key: string, v: string)
  {
    exists i, j :: LastAt(defaults, target, key, i, j) && defaults[i].attrs[j].value == v
  }

  ghost predicate LastAt(defaults: seq<AstDefaultAttrs>, target: string, key: string, i: int, j: int)
  {
    && Assigns(defaults, target, key, i, j)
    && forall m, n :: Assigns(defaults, target, key, m, n) ==> m < i || (m == i && n <= j)
  }

  ghost predicate Nowhere(defaults: seq<AstDefaultAttrs>, target: string, key: string)
  {
    forall i, j :: !Assigns(defaults, target, key, i, j)
  }

  ghost predicate NotLast(defaults: seq<AstDefaultAttrs>, target: string, key: string)
    requires defaults != []
  {
    var n := |defaults| - 1;
    forall k :: !Assigns(defaults, target, key, n, k)
  }

  predicate Assigns(defaults: seq<AstDefaultAttrs>, target: string, key: string, i: int, j: int)
  {
    0 <= i < |defaults| && defaults[i].target == target && 0 <= j < |defaults[i].attrs|
      && defaults[i].attrs[j].key == key
  }

  /** The attributes of the default statements for one target, in order. */
  function For(defaults: seq<AstDefaultAttrs>, target: string): seq<AstAttribute>
  {
    if defaults == [] then []
    else
      var last := defaults[|defaults| - 1];
      For(defaults[..|defaults| - 1], target) + if last.target == target then last.attrs else []
  }

  lemma {:induction false} DefaultsFor(defaults: seq<AstDefaultAttrs>)
    ensures NodeDefaults(defaults) == For(defaults, "node") && GraphDefaults(defaults) == For(defaults, "graph")
  {
    if defaults != [] { DefaultsFor(defaults[..|defaults| - 1]); }
  }

  lemma {:induction false} LastIndex(list: seq<AstAttribute>, key: string) returns (j: int)
    ensures if LastValue(list, key).Some? then
              && 0 <= j < |list| && list[j].key == key && Some(list[j].value) == LastValue(list, key)
              && forall i :: j < i < |list| ==> list[i].key != key
            else forall i :: 0 <= i < |list| ==> list[i].key != key
  {
    if list == [] || list[|list| - 1].key == key {
      j := |list| - 1;
    } else {
      j := LastIndex(list[..|list| - 1], key);
    }
  }

  lemma {:induction false} LastOfConcat(a: seq<AstAttribute>, b: seq<AstAttribute>, key: string)
    ensures LastValue(a + b, key) == OrElse(LastValue(b, key), LastValue(a, key))
  {
    if b == [] {
      assert a + b == a;
    } else {
      assert (a + b)[..|a + b| - 1] == a + b[..|b| - 1];
      LastOfConcat(a, b[..|b| - 1], key);
    }
  }

  lemma LastInFront(defaults: seq<AstDefaultAttrs>, target: string, key: string, i: int, j: int)
    requires defaults != [] && LastAt(defaults[..|defaults| - 1], target, key, i, j)
    requires NotLast(defaults, target, key)
    ensures LastAt(defaults, target, key, i, j)
    ensures defaults[i].attrs[j] == defaults[..|defaults| - 1][i].attrs[j]
  {
    var front := defaults[..|defaults| - 1];
    forall m, n | Assigns(defaults, target, key, m, n) ensures m < i || (m == i && n <= j) {
      assert m < |front| && Assigns(front, target, key, m, n);
    }
  }

  lemma NoneInFront(defaults: seq<AstDefaultAttrs>, target: string, key: string)
    requires defaults != [] && Nowhere(defaults[..|defaults| - 1], target, key)
    requires NotLast(defaults, target, key)
    ensures Nowhere(defaults, target, key)
  {
    forall m, n ensures !Assigns(defaults, target, key, m, n) {
      assert !Assigns(defaults[..|defaults| - 1], target, key, m, n);
    }
  }

  /** What the default statements for a target say of a key is what the last of them to
      assign it says. */
  lemma {:induction false} LastDefault(defaults: seq<AstDefaultAttrs>, target: string, key: string)
    returns (i: int, j: int)
    ensures var v := LastValue(For(defaults, target), key);
            && (v.Some? ==> LastAt(defaults, target, key, i, j) && defaults[i].attrs[j].value == v.value)
            && (v.None? ==> Nowhere(defaults, target, key))
  {
    hide LastValue;
    i, j := 0, 0;
    if defaults == [] {
      NoValue(key);
    } else {
      var n := |defaults| - 1;
      var front, last := defaults[..n], defaults[n];
      i, j := LastDefault(front, target, key);
      NoValue(key);
      var own := if last.target == target then last.attrs else [];
      LastOfConcat(For(front, target), own, key);
      var k := LastIndex(own, key);
      if LastValue(own, key).Some? {
        i, j := n, k;
        assert Assigns(defaults, target, key, n, k);
      } else if LastValue(For(front, target), key).Some? {
        LastInFront(defaults, target, key, i, j);
      } else {
        NoneInFront(defaults, target, key);
      }
    }
  }

  lemma NoValue(key: string)
    ensures LastValue([], key) == None
  {
  }

  /** The graph's own attributes are those of the `graph` statements at top level. */
  lemma GraphAttribute(ast: AstGraph, key: string)
    ensures var v := Lookup(Built(ast).attrs, key);
            && (v.Some? ==> LastAssigned(ast.defaults, "graph", key, v.value))
            && (v.None? ==> Nowhere(ast.defaults, "graph", key))
    ensures Built(ast).name == ast.id
  {
    hide NodeList, MetAll, Mentions, Edges, LastAt, Assigns;
    AssignedLookup(map[], GraphDefaults(ast.defaults), key);
    DefaultsFor(ast.defaults);
    var i, j := LastDefault(ast.defaults, "graph", key);
  }

  // ---- node statements -------------------------------------------------------------------

  /** The node statements in the order in which they take effect: those of a body, then
      those of its subgraphs. */
  function Statements(ast: AstGraph): seq<AstNode>
  {
    ast.nodes + InSubgraphs(ast.subgraphs)
  }

  function InSubgraph(sub: AstSubgraph): seq<AstNode>
    decreases sub, 1
  {
    sub.nodes + InSubgraphs(sub.subgraphs)
  }

  function InSubgraphs(subs: seq<AstSubgraph>): seq<AstNode>
    decreases subs, 0
  {
    if subs == [] then [] else InSubgraph(subs[0]) + InSubgraphs(subs[1..])
  }

  /** The last of the statements for the id to assign the key assigns this value. */
  function Assigned(statements: seq<AstNode>, id: string, key: string): Option<string>
  {
    if statements == [] then None
    else
      var last := statements[|statements| - 1];
      var own := if Sanitized(last.id) == id then LastValue(last.attrs, key) else None;
      if own.Some? then own else Assigned(statements[..|statements| - 1], id, key)
  }

  lemma {:induction false} AssignedConcat(a: seq<AstNode>, b: seq<AstNode>, id: string, key: string)
    ensures Assigned(a + b, id, key) == OrElse(Assigned(b, id, key), Assigned(a, id, key))
  {
    hide Sanitized;
    if b == [] {
      assert a + b == a;
    } else {
      assert (a + b)[..|a + b| - 1] == a + b[..|b| - 1];
      AssignedConcat(a, b[..|b| - 1], id, key);
    }
  }

  lemma {:induction false} ExplicitConcat(a: seq<Mention>, b: seq<Mention>, id: string, key: string)
    ensures Explicit(a + b, id, key) == OrElse(Explicit(b, id, key), Explicit(a, id, key))
  {
    if b == [] {
      assert a + b == a;
    } else {
      assert (a + b)[..|a + b| - 1] == a + b[..|b| - 1];
      ExplicitConcat(a, b[..|b| - 1], id, key);
    }
  }

  lemma {:induction false} TopStatements(nodes: seq<AstNode>, defaults: Attributes, id: string, key: string)
    ensures Explicit(TopNodeMentions(nodes, defaults), id, key) == Assigned(nodes, id, key)
  {
    hide Sanitized;
    if nodes != [] {
      var n := |nodes| - 1;
      assert TopNodeMentions(nodes, defaults)[..n] == TopNodeMentions(nodes[..n], defaults);
      TopStatements(nodes[..n], defaults, id, key);
    }
  }

  lemma {:induction false} SubStatements(nodes: seq<AstNode>, offered: seq<AstAttribute>, id: string, key: string)
    ensures Explicit(SubNodeMentions(nodes, offered), id, key) == Assigned(nodes, id, key)
  {
    hide Sanitized;
    if nodes != [] {
      var n := |nodes| - 1;
      assert SubNodeMentions(nodes, offered)[..n] == SubNodeMentions(nodes[..n], offered);
      SubStatements(nodes[..n], offered, id, key);
    }
  }

  ghost predicate EndsOnly(ms: seq<Mention>)
  {
    forall i :: 0 <= i < |ms| ==> ms[i].TopEnd? || ms[i].SubEnd?
  }

  lemma {:induction false} EndsAssignNothing(ms: seq<Mention>, id: string, key: string)
    requires EndsOnly(ms)
    ensures Explicit(ms, id, key) == None
  {
    if ms != [] { EndsAssignNothing(ms[..|ms| - 1], id, key); }
  }

  lemma {:induction false} TopEdgesAreEnds(edges: seq<AstEdge>, defaults: Attributes)
    ensures EndsOnly(TopEdgeMentions(edges, defaults))
  {
    if edges != [] { TopEdgesAreEnds(edges[..|edges| - 1], defaults); }
  }

  lemma {:induction false} SubEdgesAreEnds(edges: seq<AstEdge>, offered: seq<AstAttribute>)
    ensures EndsOnly(SubEdgeMentions(edges, offered))
  {
    if edges != [] { SubEdgesAreEnds(edges[..|edges| - 1], offered); }
  }

  lemma {:induction false} SubgraphStatements(sub: AstSubgraph, outer: seq<AstDefaultAttrs>, id: string, key: string)
    ensures Explicit(SubgraphMentions(sub, outer), id, key) == Assigned(InSubgraph(sub), id, key)
    decreases sub, 1
  {
    hide SubNodeMentions, SubEdgeMentions, NodeDefaults, Explicit, Assigned;
    var offered := NodeDefaults(outer) + NodeDefaults(sub.defaults);
    var nodes, ends := SubNodeMentions(sub.nodes, offered), SubEdgeMentions(sub.edges, offered);
    SubStatements(sub.nodes, offered, id, key);
    SubEdgesAreEnds(sub.edges, offered);
    EndsAssignNothing(ends, id, key);
    SubgraphsStatements(sub.subgraphs, outer + sub.defaults, id, key);
    ExplicitConcat(nodes, ends, id, key);
    ExplicitConcat(nodes + ends, SubgraphsMentions(sub.subgraphs, outer + sub.defaults), id, key);
    AssignedConcat(sub.nodes, InSubgraphs(sub.subgraphs), id, key);
  }

  lemma {:induction false} SubgraphsStatements(subs: seq<AstSubgraph>, outer: seq<AstDefaultAttrs>, id: string,
                                               key: string)
    ensures Explicit(SubgraphsMentions(subs, outer), id, key) == Assigned(InSubgraphs(subs), id, key)
    decreases subs, 0
  {
    if subs != [] {
      SubgraphStatements(subs[0], outer, id, key);
      SubgraphsStatements(subs[1..], outer, id, key);
      ExplicitConcat(SubgraphMentions(subs[0], outer), SubgraphsMentions(subs[1..], outer), id, key);
      AssignedConcat(InSubgraph(subs[0]), InSubgraphs(subs[1..]), id, key);
    }
  }

  lemma ExplicitIsAssigned(ast: AstGraph, id: string, key: string)
    ensures Explicit(Mentions(ast), id, key) == Assigned(Statements(ast), id, key)
  {
    hide TopNodeMentions, TopEdgeMentions, NodeDefaults, Explicit, Assigned, SubgraphsMentions, InSubgraphs;
    var defaults := GraphBuilding.Assigned(map[], NodeDefaults(ast.defaults));
    var nodes, ends := TopNodeMentions(ast.nodes, defaults), TopEdgeMentions(ast.edges, defaults);
    TopStatements(ast.nodes, defaults, id, key);
    TopEdgesAreEnds(ast.edges, defaults);
    EndsAssignNothing(ends, id, key);
    SubgraphsStatements(ast.subgraphs, ast.defaults, id, key);
    ExplicitConcat(nodes, ends, id, key);
    ExplicitConcat(nodes + ends, SubgraphsMentions(ast.subgraphs, ast.defaults), id, key);
    AssignedConcat(ast.nodes, InSubgraphs(ast.subgraphs), id, key);
  }

  /** A node has the value the last of its statements to assign the key assigns. */
  lemma StatementDecides(ast: AstGraph, id: string, key: string)
    requires id in Ids(Built(ast)) && Assigned(Statements(ast), id, key).Some?
    ensures var n := FindNode(Built(ast), id);
            n.Some? && Lookup(n.value.attrs, key) == Assigned(Statements(ast), id, key)
  {
    hide Built, Mentions, Explicit, Default, Assigned, Statements;
    ExplicitBeatsDefault(ast, id, key);
    ExplicitIsAssigned(ast, id, key);
  }

  // ---- which nodes there are, and their defaults at top level -----------------------------------------

  /** The ids written in node statements and chains, at any depth. */
  function Written(nodes: seq<AstNode>, edges: seq<AstEdge>): set<string>
  {
    (set i | 0 <= i < |nodes| :: nodes[i].id)
    + (set i, j | 0 <= i < |edges| && 0 <= j < |edges[i].nodeChain| :: edges[i].nodeChain[j])
  }

  function WrittenIn(sub: AstSubgraph): set<string>
    decreases sub, 1
  {
    Written(sub.nodes, sub.edges) + WrittenInAll(sub.subgraphs)
  }

  function WrittenInAll(subs: seq<AstSubgraph>): set<string>
    decreases subs, 0
  {
    if subs == [] then {} else WrittenIn(subs[0]) + WrittenInAll(subs[1..])
  }

  ghost predicate Spell(ids: set<string>, written: set<string>)
  {
    forall id :: id in ids <==> exists w :: w in written && Sanitized(w) == id
  }

  lemma SpellBoth(a: set<string>, b: set<string>, v: set<string>, w: set<string>)
    requires Spell(a, v) && Spell(b, w)
    ensures Spell(a + b, v + w)
  {
    hide Sanitized;
  }

  lemma {:induction false} IdsAre(ms: seq<Mention>)
    ensures forall id :: id in IdsMet(ms) <==> exists i :: 0 <= i < |ms| && ms[i].id == id
  {
    if ms != [] {
      var n := |ms| - 1;
      IdsAre(ms[..n]);
      forall id ensures id in IdsMet(ms) <==> exists i :: 0 <= i < |ms| && ms[i].id == id {
        if i :| 0 <= i < n && ms[..n][i].id == id { assert ms[i].id == id; }
        if id == ms[n].id { assert 0 <= n < |ms| && ms[n].id == id; }
        if i :| 0 <= i < |ms| && ms[i].id == id { assert i < n ==> ms[..n][i].id == id; }
      }
    }
  }

  lemma {:induction false} NodesSpell(nodes: seq<AstNode>, ms: seq<Mention>)
    requires |ms| == |nodes| && forall i :: 0 <= i < |ms| ==> ms[i].id == Sanitized(nodes[i].id)
    ensures Spell(IdsMet(ms), set i | 0 <= i < |nodes| :: nodes[i].id)
  {
    hide Sanitized;
    IdsAre(ms);
    var written := set i | 0 <= i < |nodes| :: nodes[i].id;
    forall id | id in IdsMet(ms) ensures exists w :: w in written && Sanitized(w) == id {
      var i :| 0 <= i < |ms| && ms[i].id == id;
      assert nodes[i].id in written;
    }
  }

  lemma {:induction false} ChainSpells(chain: seq<string>, ms: seq<Mention>)
    requires |ms| == |chain| && forall i :: 0 <= i < |ms| ==> ms[i].id == Sanitized(chain[i])
    ensures Spell(IdsMet(ms), set i | 0 <= i < |chain| :: chain[i])
  {
    hide Sanitized;
    IdsAre(ms);
    var written := set i | 0 <= i < |chain| :: chain[i];
    forall id | id in IdsMet(ms) ensures exists w :: w in written && Sanitized(w) == id {
      var i :| 0 <= i < |ms| && ms[i].id == id;
      assert chain[i] in written;
    }
  }

  function InChains(edges: seq<AstEdge>): set<string>
  {
    set i, j | 0 <= i < |edges| && 0 <= j < |edges[i].nodeChain| :: edges[i].nodeChain[j]
  }

  lemma ChainsSnoc(edges: seq<AstEdge>)
    requires edges != []
    ensures var last := edges[|edges| - 1].nodeChain;
            InChains(edges) == InChains(edges[..|edges| - 1]) + set j | 0 <= j < |last| :: last[j]
  {
    var n := |edges| - 1;
    var last := edges[n].nodeChain;
    forall w | w in InChains(edges) ensures w in InChains(edges[..n]) || w in set j | 0 <= j < |last| :: last[j] {
      var i, j :| 0 <= i < |edges| && 0 <= j < |edges[i].nodeChain| && edges[i].nodeChain[j] == w;
      if i < n { assert edges[..n][i].nodeChain[j] == w; }
    }
  }

  lemma {:induction false} TopChainsSpell(edges: seq<AstEdge>, defaults: Attributes)
    ensures Spell(IdsMet(TopEdgeMentions(edges, defaults)), InChains(edges))
  {
    hide Spell, InChains;
    if edges == [] {
      NothingSpelled();
    } else {
      var n := |edges| - 1;
      var last := edges[n].nodeChain;
      TopChainsSpell(edges[..n], defaults);
      ChainSpells(last, TopEnds(last, defaults));
      ChainsSnoc(edges);
      IdsMetConcat(TopEdgeMentions(edges[..n], defaults), TopEnds(last, defaults));
      SpellBoth(IdsMet(TopEdgeMentions(edges[..n], defaults)), IdsMet(TopEnds(last, defaults)),
                InChains(edges[..n]), set j | 0 <= j < |last| :: last[j]);
    }
  }

  lemma {:induction false} SubChainsSpell(edges: seq<AstEdge>, offered: seq<AstAttribute>)
    ensures Spell(IdsMet(SubEdgeMentions(edges, offered)), InChains(edges))
  {
    hide Spell, InChains;
    if edges == [] {
      NothingSpelled();
    } else {
      var n := |edges| - 1;
      var last := edges[n].nodeChain;
      SubChainsSpell(edges[..n], offered);
      ChainSpells(last, SubEnds(last, offered));
      ChainsSnoc(edges);
      IdsMetConcat(SubEdgeMentions(edges[..n], offered), SubEnds(last, offered));
      SpellBoth(IdsMet(SubEdgeMentions(edges[..n], offered)), IdsMet(SubEnds(last, offered)),
                InChains(edges[..n]), set j | 0 <= j < |last| :: last[j]);
    }
  }

  lemma NothingSpelled()
    ensures Spell({}, {}) && InChains([]) == {} && Spell({}, InChains([]))
  {
  }

  lemma {:induction false} SubgraphSpells(sub: AstSubgraph, outer: seq<AstDefaultAttrs>)
    ensures Spell(IdsMet(SubgraphMentions(sub, outer)), WrittenIn(sub))
    decreases sub, 1
  {
    hide SubNodeMentions, SubEdgeMentions, IdsMet, Spell, NodeDefaults, Written;
    var offered := NodeDefaults(outer) + NodeDefaults(sub.defaults);
    var nodes, ends := SubNodeMentions(sub.nodes, offered), SubEdgeMentions(sub.edges, offered);
    var inner := SubgraphsMentions(sub.subgraphs, outer + sub.defaults);
    SubBodySpells(sub.nodes, sub.edges, offered);
    SubgraphsSpell(sub.subgraphs, outer + sub.defaults);
    IdsMetConcat(nodes + ends, inner);
    SpellBoth(IdsMet(nodes + ends), IdsMet(inner), Written(sub.nodes, sub.edges), WrittenInAll(sub.subgraphs));
  }

  lemma SubBodySpells(nodes: seq<AstNode>, edges: seq<AstEdge>, offered: seq<AstAttribute>)
    ensures Spell(IdsMet(SubNodeMentions(nodes, offered) + SubEdgeMentions(edges, offered)), Written(nodes, edges))
  {
    hide Spell, IdsMet, SubEdgeMentions;
    NodesSpell(nodes, SubNodeMentions(nodes, offered));
    SubChainsSpell(edges, offered);
    IdsMetConcat(SubNodeMentions(nodes, offered), SubEdgeMentions(edges, offered));
    SpellBoth(IdsMet(SubNodeMentions(nodes, offered)), IdsMet(SubEdgeMentions(edges, offered)),
              set i | 0 <= i < |nodes| :: nodes[i].id, InChains(edges));
  }

  lemma TopBodySpells(nodes: seq<AstNode>, edges: seq<AstEdge>, defaults: Attributes)
    ensures Spell(IdsMet(TopNodeMentions(nodes, defaults) + TopEdgeMentions(edges, defaults)), Written(nodes, edges))
  {
    hide Spell, IdsMet, TopEdgeMentions;
    NodesSpell(nodes, TopNodeMentions(nodes, defaults));
    TopChainsSpell(edges, defaults);
    IdsMetConcat(TopNodeMentions(nodes, defaults), TopEdgeMentions(edges, defaults));
    SpellBoth(IdsMet(TopNodeMentions(nodes, defaults)), IdsMet(TopEdgeMentions(edges, defaults)),
              set i | 0 <= i < |nodes| :: nodes[i].id, InChains(edges));
  }

  lemma {:induction false} SubgraphsSpell(subs: seq<AstSubgraph>, outer: seq<AstDefaultAttrs>)
    ensures Spell(IdsMet(SubgraphsMentions(subs, outer)), WrittenInAll(subs))
    decreases subs, 0
  {
    hide Spell;
    if subs == [] {
      NothingSpelled();
    } else {
      SubgraphSpells(subs[0], outer);
      SubgraphsSpell(subs[1..], outer);
      IdsMetConcat(SubgraphMentions(subs[0], outer), SubgraphsMentions(subs[1..], outer));
      SpellBoth(IdsMet(SubgraphMentions(subs[0], outer)), IdsMet(SubgraphsMentions(subs[1..], outer)),
                WrittenIn(subs[0]), WrittenInAll(subs[1..]));
    }
  }

  /** The nodes are those whose ids are written in a node statement or a chain, sanitized. */
  lemma NodesAreWritten(ast: AstGraph, id: string)
    ensures id in Ids(Built(ast))
            <==> exists w ::
                   (w in Written(ast.nodes, ast.edges) || w in WrittenInAll(ast.subgraphs)) && Sanitized(w) == id
  {
    hide TopNodeMentions, TopEdgeMentions, SubgraphsMentions, IdsMet, Written, WrittenInAll, Sanitized,
         NodeDefaults, Built;
    var defaults := GraphBuilding.Assigned(map[], NodeDefaults(ast.defaults));
    var top := TopNodeMentions(ast.nodes, defaults) + TopEdgeMentions(ast.edges, defaults);
    var inner := SubgraphsMentions(ast.subgraphs, ast.defaults);
    NodesOfBuilt(ast);
    TopBodySpells(ast.nodes, ast.edges, defaults);
    SubgraphsSpell(ast.subgraphs, ast.defaults);
    IdsMetConcat(top, inner);
    SpellBoth(IdsMet(top), IdsMet(inner), Written(ast.nodes, ast.edges), WrittenInAll(ast.subgraphs));
  }

  lemma {:induction false} FirstOfferStays(a: seq<Mention>, b: seq<Mention>, id: string, key: string)
    requires Default(a, id, key).Some?
    ensures Default(a + b, id, key) == Default(a, id, key)
  {
    hide Offer, IdsMet;
    if b == [] {
      assert a + b == a;
    } else {
      assert (a + b)[..|a + b| - 1] == a + b[..|b| - 1];
      FirstOfferStays(a, b[..|b| - 1], id, key);
    }
  }

  lemma {:induction false} TopOffers(ms: seq<Mention>, defaults: Attributes, id: string, key: string)
    requires forall i :: 0 <= i < |ms| ==> (ms[i].TopNode? || ms[i].TopEnd?) && ms[i].defaults == defaults
    ensures Default(ms, id, key) == if id in IdsMet(ms) then Lookup(defaults, key) else None
  {
    if ms != [] { TopOffers(ms[..|ms| - 1], defaults, id, key); }
  }

  lemma {:induction false} TopEdgesOffer(edges: seq<AstEdge>, defaults: Attributes)
    ensures forall i :: 0 <= i < |TopEdgeMentions(edges, defaults)| ==>
              TopEdgeMentions(edges, defaults)[i].TopEnd? && TopEdgeMentions(edges, defaults)[i].defaults == defaults
  {
    hide Sanitized;
    if edges != [] { TopEdgesOffer(edges[..|edges| - 1], defaults); }
  }

  /** A node written at top level that assigns the key nowhere has what the last `node`
      statement at top level to assign it says. */
  lemma TopDefault(ast: AstGraph, id: string, key: string, w: string)
    requires w in Written(ast.nodes, ast.edges) && Sanitized(w) == id && Assigned(Statements(ast), id, key).None?
    requires !Nowhere(ast.defaults, "node", key)
    ensures var n := FindNode(Built(ast), id);
            n.Some? && key in n.value.attrs && LastAssigned(ast.defaults, "node", key, n.value.attrs[key])
  {
    hide Built, TopNodeMentions, TopEdgeMentions, SubgraphsMentions, IdsMet, Written, Sanitized, Default, Explicit,
         Assigned;
    hide Statements, Assigns;
    var nd := NodeDefaults(ast.defaults);
    var defaults := GraphBuilding.Assigned(map[], nd);
    var top := TopNodeMentions(ast.nodes, defaults) + TopEdgeMentions(ast.edges, defaults);
    DefaultsFor(ast.defaults);
    var i, j := LastDefault(ast.defaults, "node", key);
    AssignedLookup(map[], nd, key);
    TopBodySpells(ast.nodes, ast.edges, defaults);
    TopMentionsOffer(ast.nodes, ast.edges, defaults);
    TopOffers(top, defaults, id, key);
    FirstOfferStays(top, SubgraphsMentions(ast.subgraphs, ast.defaults), id, key);
    NodesAreWritten(ast, id);
    ExplicitBeatsDefault(ast, id, key);
    ExplicitIsAssigned(ast, id, key);
  }

  lemma {:induction false} TopMentionsOffer(nodes: seq<AstNode>, edges: seq<AstEdge>, defaults: Attributes)
    ensures var top := TopNodeMentions(nodes, defaults) + TopEdgeMentions(edges, defaults);
            forall i :: 0 <= i < |top| ==> (top[i].TopNode? || top[i].TopEnd?) && top[i].defaults == defaults
  {
    hide TopEdgeMentions, Sanitized;
    TopEdgesOffer(edges, defaults);
  }
}
