/** What every built graph is like, whatever the AST. */
module BuiltGraphs {
  import opened Text
  import opened Graphs
  import opened DotAst
  import opened GraphBuilding

  // ---- nodes ---------------------------------------------------------------------------

  ghost function IdsMet(ms: seq<Mention>): set<string>
  {
    if ms == [] then {} else IdsMet(ms[..|ms| - 1]) + {ms[|ms| - 1].id}
  }

  lemma {:induction false} TableKeys(t: NodeTable, ms: seq<Mention>)
    ensures MetAll(t, ms).Keys == t.Keys + IdsMet(ms)
  {
    if ms != [] {
      TableKeys(t, ms[..|ms| - 1]);
    }
  }

  lemma {:induction false} IdsMetConcat(ms: seq<Mention>, ns: seq<Mention>)
    ensures IdsMet(ms + ns) == IdsMet(ms) + IdsMet(ns)
  {
    if ns == [] {
      assert ms + ns == ms;
    } else {
      assert (ms + ns)[..|ms + ns| - 1] == ms + ns[..|ns| - 1];
      IdsMetConcat(ms, ns[..|ns| - 1]);
    }
  }

  lemma {:induction false} MetHere(ms: seq<Mention>, i: int)
    requires 0 <= i < |ms|
    ensures ms[i].id in IdsMet(ms)
  {
    if i < |ms| - 1 {
      MetHere(ms[..|ms| - 1], i);
    }
  }

  lemma {:induction false} IdsOfMember(nodes: seq<Node>, id: string)
    ensures id in IdsOf(nodes) <==> exists i :: 0 <= i < |nodes| && nodes[i].id == id
  {
    if nodes != [] {
      IdsOfMember(nodes[1..], id);
      if i :| 0 <= i < |nodes| - 1 && nodes[1..][i].id == id {
        assert nodes[i + 1].id == id;
      }
    }
  }

  lemma ListedOnce(t: NodeTable)
    ensures forall id :: id in IdsOf(NodeList(t)) <==> id in t
    ensures forall i, j :: 0 <= i < j < |NodeList(t)| ==> Less(NodeList(t)[i].id, NodeList(t)[j].id)
  {
    var keys := SortedKeys(t.Keys);
    forall id ensures id in IdsOf(NodeList(t)) <==> id in t {
      IdsOfMember(NodeList(t), id);
      if id in t {
        var i :| 0 <= i < |keys| && keys[i] == id;
        assert NodeList(t)[i].id == id;
      }
    }
  }

  lemma {:induction false} FindsRow(nodes: seq<Node>, i: int)
    requires 0 <= i < |nodes|
    requires forall j, k :: 0 <= j < k < |nodes| ==> nodes[j].id != nodes[k].id
    ensures FindIn(nodes, nodes[i].id) == Some(nodes[i])
  {
    if i > 0 {
      assert nodes[0].id != nodes[i].id;
      FindsRow(nodes[1..], i - 1);
    }
  }

  lemma RowsFound(t: NodeTable)
    ensures forall i, j :: 0 <= i < j < |NodeList(t)| ==> NodeList(t)[i].id != NodeList(t)[j].id
    ensures forall id :: id in t ==> FindIn(NodeList(t), id) == Some(Node(id, ResolveNodeType(t[id]), t[id]))
  {
    hide ResolveNodeType;
    ListedOnce(t);
    var nodes := NodeList(t);
    forall i, j | 0 <= i < j < |nodes| ensures nodes[i].id != nodes[j].id {
      LessTotal(nodes[i].id, nodes[j].id);
    }
    forall id | id in t ensures FindIn(nodes, id) == Some(Node(id, ResolveNodeType(t[id]), t[id])) {
      var keys := SortedKeys(t.Keys);
      var i :| 0 <= i < |keys| && keys[i] == id;
      FindsRow(nodes, i);
    }
  }

  /** Node ids are unique and in increasing order; a node has the attributes of its row
      and the type they spell. */
  lemma NodesOfBuilt(ast: AstGraph)
    ensures var t := MetAll(map[], Mentions(ast)); var g := Built(ast);
            && UniqueIds(g)
            && (forall i, j :: 0 <= i < j < |g.nodes| ==> Less(g.nodes[i].id, g.nodes[j].id))
            && Ids(g) == IdsMet(Mentions(ast))
            && (forall id :: id in t ==> FindNode(g, id) == Some(Node(id, ResolveNodeType(t[id]), t[id])))
  {
    hide Mentions, MetAll, IdsMet, ResolveNodeType, NodeList, Assigned, GraphDefaults, Edges;
    var t := MetAll(map[], Mentions(ast));
    TableKeys(map[], Mentions(ast));
    ListedOnce(t);
    RowsFound(t);
  }

  // ---- edges ---------------------------------------------------------------------------

  ghost predicate EndsIn(edges: seq<Edge>, ids: set<string>)
  {
    forall e :: e in edges ==> e.from in ids && e.to in ids
  }

  lemma ChainEndsMet(e: AstEdge, ms: seq<Mention>)
    requires |ms| == |e.nodeChain|
    requires forall i :: 0 <= i < |ms| ==> ms[i].id == Sanitized(e.nodeChain[i])
    ensures EndsIn(ChainEdges(e), IdsMet(ms))
  {
    hide IdsMet, Sanitized, Assigned;
    var edges := ChainEdges(e);
    forall i | 0 <= i < |edges| ensures edges[i].from in IdsMet(ms) && edges[i].to in IdsMet(ms) {
      MetHere(ms, i);
      MetHere(ms, i + 1);
    }
  }

  lemma {:induction false} TopEndsMet(edges: seq<AstEdge>, defaults: Attributes)
    ensures EndsIn(ChainsEdges(edges), IdsMet(TopEdgeMentions(edges, defaults)))
  {
    if edges != [] {
      var init, last := edges[..|edges| - 1], edges[|edges| - 1];
      TopEndsMet(init, defaults);
      ChainEndsMet(last, TopEnds(last.nodeChain, defaults));
      IdsMetConcat(TopEdgeMentions(init, defaults), TopEnds(last.nodeChain, defaults));
    }
  }

  lemma {:induction false} SubEndsMet(edges: seq<AstEdge>, offered: seq<AstAttribute>)
    ensures EndsIn(ChainsEdges(edges), IdsMet(SubEdgeMentions(edges, offered)))
  {
    if edges != [] {
      var init, last := edges[..|edges| - 1], edges[|edges| - 1];
      SubEndsMet(init, offered);
      ChainEndsMet(last, SubEnds(last.nodeChain, offered));
      IdsMetConcat(SubEdgeMentions(init, offered), SubEnds(last.nodeChain, offered));
    }
  }

  lemma {:induction false} SubgraphEndsMet(sub: AstSubgraph, outer: seq<AstDefaultAttrs>)
    ensures EndsIn(SubgraphEdges(sub), IdsMet(SubgraphMentions(sub, outer)))
    decreases sub, 1
  {
    hide SubNodeMentions, SubEdgeMentions, IdsMet, ChainsEdges;
    var offered := NodeDefaults(outer) + NodeDefaults(sub.defaults);
    var ns, es := SubNodeMentions(sub.nodes, offered), SubEdgeMentions(sub.edges, offered);
    var inner := SubgraphsMentions(sub.subgraphs, outer + sub.defaults);
    SubEndsMet(sub.edges, offered);
    SubgraphsEndsMet(sub.subgraphs, outer + sub.defaults);
    IdsMetConcat(ns, es);
    IdsMetConcat(ns + es, inner);
  }

  lemma {:induction false} SubgraphsEndsMet(subs: seq<AstSubgraph>, outer: seq<AstDefaultAttrs>)
    ensures EndsIn(SubgraphsEdges(subs), IdsMet(SubgraphsMentions(subs, outer)))
    decreases subs, 0
  {
    if subs != [] {
      SubgraphEndsMet(subs[0], outer);
      SubgraphsEndsMet(subs[1..], outer);
      IdsMetConcat(SubgraphMentions(subs[0], outer), SubgraphsMentions(subs[1..], outer));
    }
  }

  /** Both ends of every edge are nodes: the graph is closed. */
  lemma BuiltIsClosed(ast: AstGraph)
    ensures Closed(Built(ast)) && EndsIn(Built(ast).edges, Ids(Built(ast)))
  {
    hide TopNodeMentions, TopEdgeMentions, IdsMet, ChainsEdges, MetAll, Assigned, NodeDefaults;
    var defaults := Assigned(map[], NodeDefaults(ast.defaults));
    var ns, es := TopNodeMentions(ast.nodes, defaults), TopEdgeMentions(ast.edges, defaults);
    var inner := SubgraphsMentions(ast.subgraphs, ast.defaults);
    TopEndsMet(ast.edges, defaults);
    SubgraphsEndsMet(ast.subgraphs, ast.defaults);
    IdsMetConcat(ns, es);
    IdsMetConcat(ns + es, inner);
    NodesOfBuilt(ast);
    assert Mentions(ast) == ns + es + inner;
  }

  // ---- how many edges --------------------------------------------------------------------

  function Links(edges: seq<AstEdge>): nat
  {
    if edges == [] then 0
    else
      var n := |edges[|edges| - 1].nodeChain|;
      Links(edges[..|edges| - 1]) + if n == 0 then 0 else n - 1
  }

  function SubgraphLinks(sub: AstSubgraph): nat
    decreases sub, 1
  {
    Links(sub.edges) + SubgraphsLinks(sub.subgraphs)
  }

  function SubgraphsLinks(subs: seq<AstSubgraph>): nat
    decreases subs, 0
  {
    if subs == [] then 0 else SubgraphLinks(subs[0]) + SubgraphsLinks(subs[1..])
  }

  lemma {:induction false} ChainsCount(edges: seq<AstEdge>)
    ensures |ChainsEdges(edges)| == Links(edges)
  {
    if edges != [] {
      ChainsCount(edges[..|edges| - 1]);
    }
  }

  lemma {:induction false} SubgraphCount(sub: AstSubgraph)
    ensures |SubgraphEdges(sub)| == SubgraphLinks(sub)
    decreases sub, 1
  {
    ChainsCount(sub.edges);
    SubgraphsCount(sub.subgraphs);
  }

  lemma {:induction false} SubgraphsCount(subs: seq<AstSubgraph>)
    ensures |SubgraphsEdges(subs)| == SubgraphsLinks(subs)
    decreases subs, 0
  {
    if subs != [] {
      SubgraphCount(subs[0]);
      SubgraphsCount(subs[1..]);
    }
  }

  /** One edge for each link of each chain, at every depth. */
  lemma EdgeCount(ast: AstGraph)
    ensures |Built(ast).edges| == Links(ast.edges) + SubgraphsLinks(ast.subgraphs)
  {
    ChainsCount(ast.edges);
    SubgraphsCount(ast.subgraphs);
  }

  // ---- attributes ------------------------------------------------------------------------

  function Own(m: Mention): seq<AstAttribute>
  {
    if m.TopNode? || m.SubNode? then m.own else []
  }

  /** The last value a node statement assigned to the key of this node. */
  ghost function Explicit(ms: seq<Mention>, id: string, key: string): Option<string>
  {
    if ms == [] then None
    else
      var last := ms[|ms| - 1];
      OrElse(if last.id == id then LastValue(Own(last), key) else None, Explicit(ms[..|ms| - 1], id, key))
  }

  /** The default one mention offers for a key. */
  ghost function Offer(m: Mention, isNew: bool, key: string): Option<string>
  {
    match m
    case TopNode(_, _, defaults) => Lookup(defaults, key)
    case TopEnd(_, defaults) => Lookup(defaults, key)
    case SubNode(_, _, offered) => FirstValue(offered, key)
    case SubEnd(_, offered) => if isNew then LastValue(offered, key) else None
  }

  /** The first default offered for the key by any mention of this node. */
  ghost function Default(ms: seq<Mention>, id: string, key: string): Option<string>
  {
    if ms == [] then None
    else
      var init, last := ms[..|ms| - 1], ms[|ms| - 1];
      OrElse(Default(init, id, key), if last.id == id then Offer(last, id !in IdsMet(init), key) else None)
  }

  /** Whatever the order of mention, an attribute is its last explicit value if it has
      one, and otherwise the first default offered. */
  lemma {:induction false} AttributeValue(ms: seq<Mention>, id: string, key: string)
    ensures Lookup(RowOf(MetAll(map[], ms), id), key) == OrElse(Explicit(ms, id, key), Default(ms, id, key))
  {
    if ms != [] {
      var init, last := ms[..|ms| - 1], ms[|ms| - 1];
      AttributeValue(init, id, key);
      if last.id == id {
        var t := MetAll(map[], init);
        TableKeys(map[], init);
        var row := RowOf(t, id);
        match last
        case TopNode(_, own, defaults) => AssignedLookup(row, own, key);
        case TopEnd(_, defaults) =>
        case SubNode(_, own, offered) =>
          FilledLookup(row, offered, key);
          AssignedLookup(Filled(row, offered), own, key);
        case SubEnd(_, offered) => AssignedLookup(map[], offered, key);
      }
    }
  }

  /** In the built graph: an explicitly assigned attribute beats every default. */
  lemma ExplicitBeatsDefault(ast: AstGraph, id: string, key: string)
    requires id in Ids(Built(ast))
    ensures var n := FindNode(Built(ast), id);
            n.Some? && Lookup(n.value.attrs, key)
              == OrElse(Explicit(Mentions(ast), id, key), Default(Mentions(ast), id, key))
  {
    hide Mentions, Explicit, Default, MetAll, IdsMet;
    NodesOfBuilt(ast);
    TableKeys(map[], Mentions(ast));
    AttributeValue(Mentions(ast), id, key);
  }

  // ---- which default wins ------------------------------------------------------------------

  /** The innermost default in force where a node is mentioned: the last one to name the
      key, a later default overriding an earlier one. */
  ghost function Innermost(m: Mention, isNew: bool, key: string): Option<string>
  {
    match m
    case TopNode(_, _, defaults) => Lookup(defaults, key)
    case TopEnd(_, defaults) => Lookup(defaults, key)
    case SubNode(_, _, offered) => LastValue(offered, key)
    case SubEnd(_, offered) => if isNew then LastValue(offered, key) else None
  }

  /** What "later defaults override earlier ones" promises: the innermost default of the
      first mention of the node that has one. */
  ghost function PromisedDefault(ms: seq<Mention>, id: string, key: string): Option<string>
  {
    if ms == [] then None
    else
      var init, last := ms[..|ms| - 1], ms[|ms| - 1];
      OrElse(PromisedDefault(init, id, key), if last.id == id then Innermost(last, id !in IdsMet(init), key) else None)
  }

  /** The first mention of the node with a default in force for the key. */
  ghost function FirstOffering(ms: seq<Mention>, id: string, key: string): Option<Mention>
  {
    if ms == [] then None
    else
      var init, last := ms[..|ms| - 1], ms[|ms| - 1];
      var before := FirstOffering(init, id, key);
      if before.Some? then before
      else if last.id == id && Innermost(last, id !in IdsMet(init), key).Some? then Some(last)
      else None
  }

  /** A declaration in a subgraph whose defaults in force give the key a first value that
      is not its last. */
  ghost predicate Contested(m: Mention, key: string)
  {
    m.SubNode? && FirstValue(m.offered, key) != LastValue(m.offered, key)
  }

  lemma {:induction false} FirstAndLast(list: seq<AstAttribute>, key: string)
    ensures FirstValue(list, key).Some? <==> LastValue(list, key).Some?
  {
    if list != [] {
      var front, last := list[..|list| - 1], list[|list| - 1];
      FirstAndLast(front, key);
      FirstValueSnoc(front, last, key);
      assert list == front + [last];
    }
  }

  lemma OfferOrInnermost(m: Mention, isNew: bool, key: string)
    ensures Offer(m, isNew, key).Some? <==> Innermost(m, isNew, key).Some?
    ensures Offer(m, isNew, key) == Innermost(m, isNew, key) <==> !Contested(m, key)
  {
    if m.SubNode? { FirstAndLast(m.offered, key); }
  }

  lemma {:induction false} DefaultAsPromisedExactly(ms: seq<Mention>, id: string, key: string)
    ensures FirstOffering(ms, id, key).Some? <==> Default(ms, id, key).Some?
    ensures Default(ms, id, key).Some? <==> PromisedDefault(ms, id, key).Some?
    ensures var first := FirstOffering(ms, id, key);
            Default(ms, id, key) == PromisedDefault(ms, id, key) <==> (first.Some? ==> !Contested(first.value, key))
  {
    hide Offer, Innermost, Contested, IdsMet;
    if ms != [] {
      var init, last := ms[..|ms| - 1], ms[|ms| - 1];
      DefaultAsPromisedExactly(init, id, key);
      OfferOrInnermost(last, id !in IdsMet(init), key);
    }
  }

  /** A node of the built graph has what its statements and the defaults promise exactly
      when it assigns the key itself, or the first mention with a default for it is not a
      declaration in a subgraph whose defaults disagree on its first and last value. */
  lemma DefaultPromiseKeptExactly(ast: AstGraph, id: string, key: string)
    requires id in Ids(Built(ast))
    ensures var n, ms := FindNode(Built(ast), id), Mentions(ast);
            var first := FirstOffering(ms, id, key);
            && n.Some?
            && (Lookup(n.value.attrs, key) == OrElse(Explicit(ms, id, key), PromisedDefault(ms, id, key))
                <==> Explicit(ms, id, key).Some? || (first.Some? ==> !Contested(first.value, key)))
  {
    hide Mentions, Explicit, Default, PromisedDefault, FirstOffering, Built, Contested;
    ExplicitBeatsDefault(ast, id, key);
    DefaultAsPromisedExactly(Mentions(ast), id, key);
  }

  /** `node [k=outer]; subgraph s { node [k=inner]; n; }` or, with an edge in place of the
      declaration, `subgraph s { node [k=inner]; n -> n; }`. */
  function Nested(declared: bool, key: string, outer: string, inner: string): AstGraph
  {
    var nodes := if declared then [AstNode("n", [])] else [];
    var edges := if declared then [] else [AstEdge(["n", "n"], [])];
    var sub := AstSubgraph("s", nodes, edges, [AstDefaultAttrs("node", [AstAttribute(key, inner)])], []);
    AstGraph(false, "g", [], [], [AstDefaultAttrs("node", [AstAttribute(key, outer)])], [sub])
  }

  lemma NestedOffers(outer: AstDefaultAttrs, inner: AstDefaultAttrs)
    requires outer.target == inner.target == "node" && |outer.attrs| == |inner.attrs| == 1
    ensures NodeDefaults([outer]) + NodeDefaults([inner]) == [outer.attrs[0], inner.attrs[0]]
  {
    assert [outer][..0] == [] && [inner][..0] == [];
    assert NodeDefaults([outer]) == outer.attrs && NodeDefaults([inner]) == inner.attrs;
  }

  lemma OnlySubgraph(ast: AstGraph, sub: AstSubgraph)
    requires ast.nodes == [] && ast.edges == [] && ast.subgraphs == [sub] && sub.subgraphs == []
    ensures var offered := NodeDefaults(ast.defaults) + NodeDefaults(sub.defaults);
            Mentions(ast) == SubNodeMentions(sub.nodes, offered) + SubEdgeMentions(sub.edges, offered)
  {
    hide NodeDefaults, Assigned, SubNodeMentions, SubEdgeMentions;
    var defaults := Assigned(map[], NodeDefaults(ast.defaults));
    assert TopNodeMentions(ast.nodes, defaults) == [] && TopEdgeMentions(ast.edges, defaults) == [];
    var own := SubNodeMentions(sub.nodes, NodeDefaults(ast.defaults) + NodeDefaults(sub.defaults))
               + SubEdgeMentions(sub.edges, NodeDefaults(ast.defaults) + NodeDefaults(sub.defaults));
    assert SubgraphsMentions([], ast.defaults + sub.defaults) == [] && SubgraphsMentions([], ast.defaults) == [];
    assert SubgraphMentions(sub, ast.defaults) == own + [] == own;
    assert ast.subgraphs[0] == sub && ast.subgraphs[1..] == [];
    assert SubgraphsMentions(ast.subgraphs, ast.defaults) == own + [] == own;
    assert Mentions(ast) == [] + [] + own;
  }

  lemma OnlyNode(node: AstNode, offered: seq<AstAttribute>)
    ensures SubNodeMentions([node], offered) + SubEdgeMentions([], offered)
            == [SubNode(Sanitized(node.id), node.attrs, offered)]
  {
    hide Sanitized;
  }

  lemma OnlyEdge(edge: AstEdge, offered: seq<AstAttribute>)
    requires |edge.nodeChain| == 2
    ensures SubNodeMentions([], offered) + SubEdgeMentions([edge], offered)
            == [SubEnd(Sanitized(edge.nodeChain[0]), offered), SubEnd(Sanitized(edge.nodeChain[1]), offered)]
  {
    hide Sanitized;
    assert [edge][..0] == [];
  }

  lemma NestedMentions(declared: bool, key: string, outer: string, inner: string)
    ensures var offered := [AstAttribute(key, outer), AstAttribute(key, inner)];
            Mentions(Nested(declared, key, outer, inner))
            == if declared then [SubNode("n", [], offered)] else [SubEnd("n", offered), SubEnd("n", offered)]
  {
    hide NodeDefaults, Mentions, SubNodeMentions, SubEdgeMentions, Sanitized;
    var ast := Nested(declared, key, outer, inner);
    var sub := ast.subgraphs[0];
    var offered := [AstAttribute(key, outer), AstAttribute(key, inner)];
    NestedOffers(ast.defaults[0], sub.defaults[0]);
    OnlySubgraph(ast, sub);
    NameStays();
    if declared { OnlyNode(AstNode("n", []), offered); } else { OnlyEdge(AstEdge(["n", "n"], []), offered); }
  }

  lemma NameStays()
    ensures Sanitized("n") == "n"
  {
    assert "n"[..0] == "";
  }

  lemma PairValues(key: string, outer: string, inner: string)
    ensures var offered := [AstAttribute(key, outer), AstAttribute(key, inner)];
            FirstValue(offered, key) == Some(outer) && LastValue(offered, key) == Some(inner)
  {
  }

  /** A subgraph's own default loses to the enclosing one for a node declared in it, and
      wins for a node first met as an edge end. */
  lemma InnerDefaultLosesForDeclaredNodes(declared: bool, key: string, outer: string, inner: string)
    ensures var ast := Nested(declared, key, outer, inner); var n := FindNode(Built(ast), "n");
            && n.Some? && Lookup(n.value.attrs, key) == Some(if declared then outer else inner)
            && PromisedDefault(Mentions(ast), "n", key) == Some(inner)
  {
    hide Built, Mentions, Nested, FirstValue;
    var ast := Nested(declared, key, outer, inner);
    NestedMentions(declared, key, outer, inner);
    PairValues(key, outer, inner);
    NodesOfBuilt(ast);
    MetHere(Mentions(ast), 0);
    ExplicitBeatsDefault(ast, "n", key);
    OneMention(Mentions(ast)[0], key);
    if !declared { SecondEnd(Mentions(ast)[0], key); }
  }

  lemma OneMention(m: Mention, key: string)
    ensures Explicit([m], m.id, key) == LastValue(Own(m), key) && Default([m], m.id, key) == Offer(m, true, key)
    ensures PromisedDefault([m], m.id, key) == Innermost(m, true, key) && m.id in IdsMet([m])
  {
    assert [m][..0] == [];
  }

  lemma SecondEnd(m: Mention, key: string)
    requires m.SubEnd?
    ensures Explicit([m, m], m.id, key) == None && Default([m, m], m.id, key) == LastValue(m.offered, key)
    ensures PromisedDefault([m, m], m.id, key) == LastValue(m.offered, key)
  {
    OneMention(m, key);
    assert [m, m][..1] == [m];
  }
}
