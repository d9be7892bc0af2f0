/** The DOT parser: src/parser/dot_parser.cpp, as a function of the tokens still to come
    and as an object that pulls them from a lexer. */
module DotParsing {
  import opened Text
  import opened DotAst
  import opened DotLexing

  /** The tokens still to come. */
  datatype Tokens = End | Next(first: TokenType, text: string, after: Tokens) {

    function Kind(): TokenType
    {
      if End? then END_OF_FILE else first
    }

    function Value(): string
    {
      if End? then "" else text
    }

    function Tail(): (r: Tokens)
      ensures r.Size() <= Size() && (Next? ==> r.Size() < Size())
    {
      if End? then End else after
    }

    function Size(): nat
    {
      if End? then 0 else 1 + after.Size()
    }
  }

  /** All tokens of the source from position `p` on. */
  function TokensFrom(source: string, p: nat): Tokens
    requires p <= |source|
    decreases |source| - p
  {
    var scan := Lex(source[p..]);
    if scan.kind == END_OF_FILE then End else Next(scan.kind, scan.value, TokensFrom(source, EndAt(source, p)))
  }

  datatype ParseError =
    | ExpectedGraphKeyword
    | Expected(kind: TokenType)
    | Unexpected(value: string)
    | ExpectedNodeAfterArrow
    | ExpectedKey
    | ExpectedValue

  /** A parsed value and the tokens after it, or an error. */
  datatype Parsed<T> = Parsed(value: T, rest: Tokens) | Failed(error: ParseError)

  /** The four lists a statement may be added to. */
  datatype Body = Body(nodes: seq<AstNode>, edges: seq<AstEdge>, defaults: seq<AstDefaultAttrs>,
                       subgraphs: seq<AstSubgraph>)

  const NOTHING := Body([], [], [], [])

  predicate IsNodeId(k: TokenType)
  {
    k == IDENTIFIER || k == QUOTED_STRING || k == NUMBER
  }

  predicate IsName(k: TokenType)
  {
    k == IDENTIFIER || k == QUOTED_STRING
  }

  predicate IsValue(k: TokenType)
  {
    k == IDENTIFIER || k == QUOTED_STRING || k == HTML_STRING || k == NUMBER
  }

  // ---- the grammar -----------------------------------------------------------------------

  function AfterSeparator(ts: Tokens): (r: Tokens)
    ensures r.Size() <= ts.Size()
  {
    if ts.Kind() == COMMA || ts.Kind() == SEMICOLON then ts.Tail() else ts
  }

  /** The attributes up to, but not including, the closing bracket. */
  function AttributeItems(ts: Tokens, acc: seq<AstAttribute>): (r: Parsed<seq<AstAttribute>>)
    ensures r.Parsed? ==> r.rest.Size() <= ts.Size()
    decreases ts.Size()
  {
    if ts.Kind() == RBRACKET || ts.Kind() == END_OF_FILE then Parsed(acc, ts)
    else if !IsName(ts.Kind()) then Failed(ExpectedKey)
    else if ts.Tail().Kind() != EQUALS then Failed(Expected(EQUALS))
    else
      var v := ts.Tail().Tail();
      if !IsValue(v.Kind()) then Failed(ExpectedValue)
      else AttributeItems(AfterSeparator(v.Tail()), acc + [AstAttribute(ts.Value(), v.Value())])
  }

  function AttrList(ts: Tokens): (r: Parsed<seq<AstAttribute>>)
    ensures r.Parsed? ==> r.rest.Size() < ts.Size()
  {
    if ts.Kind() != LBRACKET then Failed(Expected(LBRACKET))
    else match AttributeItems(ts.Tail(), [])
      case Failed(e) => Failed(e)
      case Parsed(attrs, rest) =>
        if rest.Kind() != RBRACKET then Failed(Expected(RBRACKET)) else Parsed(attrs, rest.Tail())
  }

  function OptionalAttrList(ts: Tokens): (r: Parsed<seq<AstAttribute>>)
    ensures r.Parsed? ==> r.rest.Size() <= ts.Size()
  {
    if ts.Kind() == LBRACKET then AttrList(ts) else Parsed([], ts)
  }

  /** The links of a chain after its first node. */
  function ChainLinks(ts: Tokens, acc: seq<string>): (r: Parsed<seq<string>>)
    ensures r.Parsed? ==> r.rest.Size() <= ts.Size()
    decreases ts.Size()
  {
    if ts.Kind() != ARROW then Parsed(acc, ts)
    else if !IsNodeId(ts.Tail().Kind()) then Failed(ExpectedNodeAfterArrow)
    else ChainLinks(ts.Tail().Tail(), acc + [ts.Tail().Value()])
  }

  function TargetOf(k: TokenType): string
  {
    if k == NODE then "node" else if k == EDGE then "edge" else "graph"
  }

  predicate StartsDefaults(ts: Tokens)
  {
    (ts.Kind() == NODE || ts.Kind() == EDGE || ts.Kind() == GRAPH) && ts.Tail().Kind() == LBRACKET
  }

  function NodeStatement(id: string, ts: Tokens): (r: Parsed<AstNode>)
    ensures r.Parsed? ==> r.rest.Size() <= ts.Size()
  {
    match OptionalAttrList(ts)
    case Failed(e) => Failed(e)
    case Parsed(attrs, rest) => Parsed(AstNode(id, attrs), rest)
  }

  function EdgeStatement(id: string, ts: Tokens): (r: Parsed<AstEdge>)
    ensures r.Parsed? ==> r.rest.Size() <= ts.Size()
  {
    match ChainLinks(ts, [id])
    case Failed(e) => Failed(e)
    case Parsed(chain, after) =>
      match OptionalAttrList(after)
      case Failed(e) => Failed(e)
      case Parsed(attrs, rest) => Parsed(AstEdge(chain, attrs), rest)
  }

  function Statement(ts: Tokens, body: Body): (r: Parsed<Body>)
    ensures r.Parsed? ==> r.rest.Size() < ts.Size()
    decreases ts.Size(), 2
  {
    if StartsDefaults(ts) then
      match AttrList(ts.Tail())
      case Failed(e) => Failed(e)
      case Parsed(attrs, rest) =>
        Parsed(body.(defaults := body.defaults + [AstDefaultAttrs(TargetOf(ts.Kind()), attrs)]), rest)
    else if ts.Kind() == SUBGRAPH || ts.Kind() == LBRACE then
      match SubgraphStatement(ts)
      case Failed(e) => Failed(e)
      case Parsed(sub, rest) => Parsed(body.(subgraphs := body.subgraphs + [sub]), rest)
    else if !IsNodeId(ts.Kind()) then Failed(Unexpected(ts.Value()))
    else if ts.Tail().Kind() == ARROW then
      match EdgeStatement(ts.Value(), ts.Tail())
      case Failed(e) => Failed(e)
      case Parsed(edge, rest) => Parsed(body.(edges := body.edges + [edge]), rest)
    else
      match NodeStatement(ts.Value(), ts.Tail())
      case Failed(e) => Failed(e)
      case Parsed(node, rest) => Parsed(body.(nodes := body.nodes + [node]), rest)
  }

  function AfterSemicolon(ts: Tokens): (r: Tokens)
    ensures r.Size() <= ts.Size()
  {
    if ts.Kind() == SEMICOLON then ts.Tail() else ts
  }

  /** Statements up to a closing brace or the end, each with an optional semicolon. */
  function Statements(ts: Tokens, body: Body): (r: Parsed<Body>)
    ensures r.Parsed? ==> r.rest.Size() <= ts.Size()
    decreases ts.Size(), 3
  {
    if ts.Kind() == RBRACE || ts.Kind() == END_OF_FILE then Parsed(body, ts)
    else match Statement(ts, body)
      case Failed(e) => Failed(e)
      case Parsed(body', rest) => Statements(AfterSemicolon(rest), body')
  }

  /** Statements between braces. */
  function Braced(ts: Tokens): (r: Parsed<Body>)
    ensures r.Parsed? ==> r.rest.Size() < ts.Size()
    decreases ts.Size(), 0
  {
    if ts.Kind() != LBRACE then Failed(Expected(LBRACE))
    else match Statements(ts.Tail(), NOTHING)
      case Failed(e) => Failed(e)
      case Parsed(body, rest) => if rest.Kind() != RBRACE then Failed(Expected(RBRACE)) else Parsed(body, rest.Tail())
  }

  /** An optional name: its text, or "", and the tokens after it. */
  function OptionalName(ts: Tokens): (r: (string, Tokens))
    ensures r.1.Size() <= ts.Size()
  {
    if IsName(ts.Kind()) then (ts.Value(), ts.Tail()) else ("", ts)
  }

  function SubgraphStatement(ts: Tokens): (r: Parsed<AstSubgraph>)
    ensures r.Parsed? ==> r.rest.Size() < ts.Size()
    decreases ts.Size(), 1
  {
    var (id, open) := if ts.Kind() == SUBGRAPH then OptionalName(ts.Tail()) else ("", ts);
    match Braced(open)
    case Failed(e) => Failed(e)
    case Parsed(b, rest) => Parsed(AstSubgraph(id, b.nodes, b.edges, b.defaults, b.subgraphs), rest)
  }

  function ParseGraph(ts: Tokens): Parsed<AstGraph>
  {
    var strict := ts.Kind() == STRICT;
    var keyword := if strict then ts.Tail() else ts;
    if keyword.Kind() != DIGRAPH && keyword.Kind() != GRAPH then Failed(ExpectedGraphKeyword)
    else
      var (id, open) := OptionalName(keyword.Tail());
      match Braced(open)
      case Failed(e) => Failed(e)
      case Parsed(b, rest) => Parsed(AstGraph(strict, id, b.nodes, b.edges, b.defaults, b.subgraphs), rest)
  }

  // ---- the parser object -------------------------------------------------------------------

  class DotParser {
    const lexer: DotLexer
    var current: Token

    ghost predicate Valid()
      reads this, lexer
    {
      lexer.Valid() && (current.kind == END_OF_FILE ==> current.value == "")
    }

    /** The token in hand and those the lexer still has. */
    ghost function Coming(): Tokens
      requires Valid()
      reads this, lexer
    {
      if current.kind == END_OF_FILE then End
      else Next(current.kind, current.value, TokensFrom(lexer.source, lexer.base))
    }

    /** The object did what the grammar function says. */
    ghost predicate Agrees<T>(p: Parsed<T>, r: Result<T, ParseError>)
      reads this, lexer
    {
      && Valid()
      && match p case Failed(e) => r == Err(e) case Parsed(v, rest) => r == Ok(v) && Coming() == rest
    }

    constructor (source: string)
      ensures Valid() && fresh(lexer) && Coming() == TokensFrom(source, 0)
    {
      var l := new DotLexer(source);
      var first := l.NextToken();
      lexer, current := l, first;
    }

    method Advance()
      requires Valid() && current.kind != END_OF_FILE
      modifies this, lexer
      ensures Valid() && Coming() == old(Coming()).Tail()
    {
      current := lexer.NextToken();
    }

    method Expect(kind: TokenType) returns (r: Option<ParseError>)
      requires Valid() && kind != END_OF_FILE
      modifies this, lexer
      ensures Valid()
      ensures if old(Coming()).Kind() == kind then r == None && Coming() == old(Coming()).Tail()
              else r == Some(Expected(kind)) && Coming() == old(Coming())
    {
      if current.kind != kind {
        return Some(Expected(kind));
      }
      Advance();
      r := None;
    }

    /** Consume a token of the given kind if it is there. */
    method Match(kind: TokenType)
      requires Valid() && kind != END_OF_FILE
      modifies this, lexer
      ensures Valid() && Coming() == if old(Coming()).Kind() == kind then old(Coming()).Tail() else old(Coming())
    {
      if current.kind == kind { Advance(); }
    }

    method ParseAttrList() returns (r: Result<seq<AstAttribute>, ParseError>)
      requires Valid()
      modifies this, lexer
      ensures Agrees(AttrList(old(Coming())), r)
    {
      hide TokensFrom, TokenAt;
      var failure := Expect(LBRACKET);
      if failure.Some? { return Err(failure.value); }
      ghost var items := Coming();
      var attrs := [];
      while current.kind != RBRACKET && current.kind != END_OF_FILE
        invariant Valid() && AttributeItems(Coming(), attrs) == AttributeItems(items, [])
        decreases Coming().Size()
      {
        if !IsName(current.kind) { return Err(ExpectedKey); }
        var key := current.value;
        Advance();
        failure := Expect(EQUALS);
        if failure.Some? { return Err(failure.value); }
        if !IsValue(current.kind) { return Err(ExpectedValue); }
        attrs := attrs + [AstAttribute(key, current.value)];
        Advance();
        if current.kind == COMMA || current.kind == SEMICOLON { Advance(); }
      }
      failure := Expect(RBRACKET);
      if failure.Some? { return Err(failure.value); }
      r := Ok(attrs);
    }

    method ParseNodeStmt(id: string) returns (r: Result<AstNode, ParseError>)
      requires Valid()
      modifies this, lexer
      ensures Agrees(NodeStatement(id, old(Coming())), r)
    {
      var attrs := [];
      if current.kind == LBRACKET {
        var list := ParseAttrList();
        if list.Err? { return Err(list.error); }
        attrs := list.value;
      }
      r := Ok(AstNode(id, attrs));
    }

    method ParseEdgeStmt(id: string) returns (r: Result<AstEdge, ParseError>)
      requires Valid()
      modifies this, lexer
      ensures Agrees(EdgeStatement(id, old(Coming())), r)
    {
      var chain := [id];
      while current.kind == ARROW
        invariant Valid() && ChainLinks(Coming(), chain) == ChainLinks(old(Coming()), [id])
        decreases Coming().Size()
      {
        Advance();
        if !IsNodeId(current.kind) { return Err(ExpectedNodeAfterArrow); }
        chain := chain + [current.value];
        Advance();
      }
      var attrs := [];
      if current.kind == LBRACKET {
        var list := ParseAttrList();
        if list.Err? { return Err(list.error); }
        attrs := list.value;
      }
      r := Ok(AstEdge(chain, attrs));
    }

    method ParseStmtInto(body: Body) returns (r: Result<Body, ParseError>)
      requires Valid()
      modifies this, lexer
      ensures Agrees(Statement(old(Coming()), body), r)
      decreases Coming().Size(), 2
    {
      hide AttrList, SubgraphStatement, EdgeStatement, NodeStatement;
      if current.kind == NODE || current.kind == EDGE || current.kind == GRAPH {
        var next := lexer.Peek();
        if next.kind == LBRACKET {
          var target := TargetOf(current.kind);
          Advance();
          var list := ParseAttrList();
          if list.Err? { return Err(list.error); }
          return Ok(body.(defaults := body.defaults + [AstDefaultAttrs(target, list.value)]));
        }
      }
      if current.kind == SUBGRAPH || current.kind == LBRACE {
        var sub := ParseSubgraph();
        if sub.Err? { return Err(sub.error); }
        return Ok(body.(subgraphs := body.subgraphs + [sub.value]));
      }
      if !IsNodeId(current.kind) { return Err(Unexpected(current.value)); }
      var id := current.value;
      Advance();
      if current.kind == ARROW {
        var edge := ParseEdgeStmt(id);
        if edge.Err? { return Err(edge.error); }
        return Ok(body.(edges := body.edges + [edge.value]));
      }
      var node := ParseNodeStmt(id);
      if node.Err? { return Err(node.error); }
      r := Ok(body.(nodes := body.nodes + [node.value]));
    }

    method ParseStmtListInto(body0: Body) returns (r: Result<Body, ParseError>)
      requires Valid()
      modifies this, lexer
      ensures Agrees(Statements(old(Coming()), body0), r)
      decreases Coming().Size(), 3
    {
      var body := body0;
      while current.kind != RBRACE && current.kind != END_OF_FILE
        invariant Valid() && Coming().Size() <= old(Coming().Size())
        invariant Statements(Coming(), body) == Statements(old(Coming()), body0)
        decreases Coming().Size()
      {
        var stmt := ParseStmtInto(body);
        if stmt.Err? { return Err(stmt.error); }
        body := stmt.value;
        Match(SEMICOLON);
      }
      r := Ok(body);
    }

    method ParseBraced() returns (r: Result<Body, ParseError>)
      requires Valid()
      modifies this, lexer
      ensures Agrees(Braced(old(Coming())), r)
      decreases Coming().Size(), 0
    {
      var failure := Expect(LBRACE);
      if failure.Some? { return Err(failure.value); }
      r := ParseStmtListInto(NOTHING);
      if r.Err? { return; }
      failure := Expect(RBRACE);
      if failure.Some? { return Err(failure.value); }
    }

    method ParseSubgraph() returns (r: Result<AstSubgraph, ParseError>)
      requires Valid()
      modifies this, lexer
      ensures Agrees(SubgraphStatement(old(Coming())), r)
      decreases Coming().Size(), 1
    {
      var id := "";
      if current.kind == SUBGRAPH {
        Advance();
        if IsName(current.kind) {
          id := current.value;
          Advance();
        }
      }
      var b := ParseBraced();
      if b.Err? { return Err(b.error); }
      r := Ok(AstSubgraph(id, b.value.nodes, b.value.edges, b.value.defaults, b.value.subgraphs));
    }

    method Parse() returns (r: Result<AstGraph, ParseError>)
      requires Valid()
      modifies this, lexer
      ensures Agrees(ParseGraph(old(Coming())), r)
    {
      var strict := false;
      if current.kind == STRICT {
        strict := true;
        Advance();
      }
      if current.kind != DIGRAPH && current.kind != GRAPH { return Err(ExpectedGraphKeyword); }
      Advance();
      var id := "";
      if IsName(current.kind) {
        id := current.value;
        Advance();
      }
      var b := ParseBraced();
      if b.Err? { return Err(b.error); }
      r := Ok(AstGraph(strict, id, b.value.nodes, b.value.edges, b.value.defaults, b.value.subgraphs));
    }
  }
}
