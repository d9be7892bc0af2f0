/** A canonical printer for ASTs, and the proof that parsing undoes it, from characters
    through src/parser/dot_lexer.cpp and src/parser/dot_parser.cpp. */
module DotPrinting {
  import Text
  import opened Outcomes
  import opened EdgeSelection
  import opened GraphBuilding
  import opened DotAst
  import opened DotLexing
  import opened DotParsing

  // ---- from AST to tokens: each function puts its tokens in front of `tail` ------------------

  function Quote(s: string, tail: Tokens): Tokens { Next(QUOTED_STRING, s, tail) }

  function Symbol(kind: TokenType, text: string, tail: Tokens): Tokens { Next(kind, text, tail) }

  function ItemTokens(attrs: seq<AstAttribute>, tail: Tokens): Tokens
  {
    if attrs == [] then tail
    else
      Quote(attrs[0].key, Symbol(EQUALS, "=", Quote(attrs[0].value, Symbol(COMMA, ",", ItemTokens(attrs[1..], tail)))))
  }

  function ListTokens(attrs: seq<AstAttribute>, tail: Tokens): Tokens
  {
    Symbol(LBRACKET, "[", ItemTokens(attrs, Symbol(RBRACKET, "]", tail)))
  }

  function OptionalListTokens(attrs: seq<AstAttribute>, tail: Tokens): Tokens
  {
    if attrs == [] then tail else ListTokens(attrs, tail)
  }

  function NodesTokens(nodes: seq<AstNode>, tail: Tokens): Tokens
  {
    if nodes == [] then tail
    else
      Quote(nodes[0].id, OptionalListTokens(nodes[0].attrs, Symbol(SEMICOLON, ";", NodesTokens(nodes[1..], tail))))
  }

  function LinkTokens(chain: seq<string>, tail: Tokens): Tokens
  {
    if chain == [] then tail else Symbol(ARROW, "->", Quote(chain[0], LinkTokens(chain[1..], tail)))
  }

  function EdgesTokens(edges: seq<AstEdge>, tail: Tokens): Tokens
  {
    if edges == [] then tail
    else
      var e := edges[0];
      var rest := OptionalListTokens(e.attrs, Symbol(SEMICOLON, ";", EdgesTokens(edges[1..], tail)));
      if e.nodeChain == [] then rest else Quote(e.nodeChain[0], LinkTokens(e.nodeChain[1..], rest))
  }

  function TargetKeyword(target: string): TokenType
  {
    if target == "node" then NODE else if target == "edge" then EDGE else GRAPH
  }

  function DefaultsTokens(defaults: seq<AstDefaultAttrs>, tail: Tokens): Tokens
  {
    if defaults == [] then tail
    else
      var d := defaults[0];
      Symbol(TargetKeyword(d.target), d.target,
             ListTokens(d.attrs, Symbol(SEMICOLON, ";", DefaultsTokens(defaults[1..], tail))))
  }

  /** The statements of a body, in printing order, up to its closing brace. */
  function BodyTokens(b: Body, close: Tokens): Tokens
    decreases b.subgraphs, 2
  {
    NodesTokens(b.nodes, EdgesTokens(b.edges, DefaultsTokens(b.defaults, SubgraphsTokens(b.subgraphs, close))))
  }

  function SubgraphTokens(sub: AstSubgraph, tail: Tokens): Tokens
    decreases sub, 2
  {
    var body := Body(sub.nodes, sub.edges, sub.defaults, sub.subgraphs);
    Symbol(SUBGRAPH, "subgraph", Quote(sub.id, Symbol(LBRACE, "{", BodyTokens(body, Symbol(RBRACE, "}", tail)))))
  }

  function SubgraphsTokens(subs: seq<AstSubgraph>, tail: Tokens): Tokens
    decreases subs, 1
  {
    if subs == [] then tail
    else SubgraphTokens(subs[0], Symbol(SEMICOLON, ";", SubgraphsTokens(subs[1..], tail)))
  }

  function GraphTokens(g: AstGraph): Tokens
  {
    var body := Body(g.nodes, g.edges, g.defaults, g.subgraphs);
    var digraph := Symbol(DIGRAPH, "digraph",
                          Quote(g.id, Symbol(LBRACE, "{", BodyTokens(body, Symbol(RBRACE, "}", End)))));
    if g.strict then Symbol(STRICT, "strict", digraph) else digraph
  }

  // ---- from tokens to text --------------------------------------------------------------------

  function Escaped(s: string, quote: char): string
  {
    if s == "" then ""
    else (if s[0] == quote || s[0] == '\\' then ['\\', s[0]] else [s[0]]) + Escaped(s[1..], quote)
  }

  function Spelled(kind: TokenType, text: string): string
  {
    if kind == QUOTED_STRING then "\"" + Escaped(text, '"') + "\"" else text
  }

  function Rendered(ts: Tokens): string
  {
    if ts.End? then "" else " " + Spelled(ts.first, ts.text) + Rendered(ts.after)
  }

  function Printed(g: AstGraph): string
  {
    Rendered(GraphTokens(g))
  }

  // ---- what can be printed ----------------------------------------------------------------------

  predicate Fits(s: string) { |s| <= MAX_STRING_LENGTH }

  ghost predicate AttrsFit(attrs: seq<AstAttribute>)
  {
    forall i :: 0 <= i < |attrs| ==> Fits(attrs[i].key) && Fits(attrs[i].value)
  }

  ghost predicate NodesFit(nodes: seq<AstNode>)
  {
    forall i :: 0 <= i < |nodes| ==> Fits(nodes[i].id) && AttrsFit(nodes[i].attrs)
  }

  ghost predicate ChainFits(chain: seq<string>)
  {
    forall i :: 0 <= i < |chain| ==> Fits(chain[i])
  }

  /** A chain of fewer than two nodes is not an edge statement. */
  ghost predicate EdgesFit(edges: seq<AstEdge>)
  {
    forall i :: 0 <= i < |edges| ==>
      |edges[i].nodeChain| >= 2 && ChainFits(edges[i].nodeChain) && AttrsFit(edges[i].attrs)
  }

  ghost predicate DefaultsFit(defaults: seq<AstDefaultAttrs>)
  {
    forall i :: 0 <= i < |defaults| ==>
      (defaults[i].target == "node" || defaults[i].target == "edge" || defaults[i].target == "graph")
        && AttrsFit(defaults[i].attrs)
  }

  ghost predicate SubgraphFits(sub: AstSubgraph)
  {
    && Fits(sub.id) && NodesFit(sub.nodes) && EdgesFit(sub.edges) && DefaultsFit(sub.defaults)
    && forall i :: 0 <= i < |sub.subgraphs| ==> SubgraphFits(sub.subgraphs[i])
  }

  ghost predicate SubgraphsFit(subs: seq<AstSubgraph>)
  {
    forall i :: 0 <= i < |subs| ==> SubgraphFits(subs[i])
  }

  /** Every string within the lexer's limit, every chain with a link, every default
      aimed at nodes, edges or the graph. */
  ghost predicate Printable(g: AstGraph)
  {
    Fits(g.id) && NodesFit(g.nodes) && EdgesFit(g.edges) && DefaultsFit(g.defaults) && SubgraphsFit(g.subgraphs)
  }

  // ---- parsing the tokens back -------------------------------------------------------------------

  lemma {:induction false} ItemsBack(attrs: seq<AstAttribute>, acc: seq<AstAttribute>, tail: Tokens)
    requires tail.Kind() == RBRACKET
    ensures AttributeItems(ItemTokens(attrs, tail), acc) == Parsed(acc + attrs, tail)
  {
    if attrs == [] {
      assert acc + attrs == acc;
    } else {
      ItemsBack(attrs[1..], acc + [attrs[0]], tail);
      assert acc + [attrs[0]] + attrs[1..] == acc + attrs;
    }
  }

  lemma ListBack(attrs: seq<AstAttribute>, tail: Tokens)
    ensures AttrList(ListTokens(attrs, tail)) == Parsed(attrs, tail)
  {
    hide AttributeItems, ItemTokens;
    ItemsBack(attrs, [], Symbol(RBRACKET, "]", tail));
    assert [] + attrs == attrs;
  }

  lemma OptionalListBack(attrs: seq<AstAttribute>, tail: Tokens)
    requires tail.Kind() == SEMICOLON
    ensures OptionalAttrList(OptionalListTokens(attrs, tail)) == Parsed(attrs, tail)
    ensures OptionalListTokens(attrs, tail).Kind() != ARROW
  {
    ListBack(attrs, tail);
  }

  /** A statement followed by its semicolon leaves the statements after it. */
  lemma OneStatement(ts: Tokens, body: Body, body': Body, rest: Tokens)
    requires ts.Kind() != RBRACE && ts.Kind() != END_OF_FILE
    requires Statement(ts, body) == Parsed(body', Symbol(SEMICOLON, ";", rest))
    ensures Statements(ts, body) == Statements(rest, body')
  {
    hide Statement;
  }

  lemma NodeBack(n: AstNode, tail: Tokens, body: Body)
    requires tail.Kind() == SEMICOLON
    ensures Statement(Quote(n.id, OptionalListTokens(n.attrs, tail)), body)
            == Parsed(body.(nodes := body.nodes + [n]), tail)
  {
    hide OptionalListTokens, OptionalAttrList, SubgraphStatement, EdgeStatement, AttrList;
    OptionalListBack(n.attrs, tail);
  }

  lemma OneNodeBack(n: AstNode, rest: Tokens, body: Body)
    ensures Statements(Quote(n.id, OptionalListTokens(n.attrs, Symbol(SEMICOLON, ";", rest))), body)
            == Statements(rest, body.(nodes := body.nodes + [n]))
  {
    hide Statements, Statement, OptionalListTokens;
    NodeBack(n, Symbol(SEMICOLON, ";", rest), body);
    OneStatement(Quote(n.id, OptionalListTokens(n.attrs, Symbol(SEMICOLON, ";", rest))), body,
                 body.(nodes := body.nodes + [n]), rest);
  }

  lemma {:induction false} NodesBack(nodes: seq<AstNode>, tail: Tokens, body: Body)
    ensures Statements(NodesTokens(nodes, tail), body) == Statements(tail, body.(nodes := body.nodes + nodes))
  {
    hide Statements, Statement, OptionalListTokens;
    if nodes == [] {
      assert body.nodes + nodes == body.nodes;
    } else {
      var rest := NodesTokens(nodes[1..], tail);
      var body' := body.(nodes := body.nodes + [nodes[0]]);
      OneNodeBack(nodes[0], rest, body);
      NodesBack(nodes[1..], tail, body');
      assert body'.nodes + nodes[1..] == body.nodes + nodes;
    }
  }

  lemma {:induction false} LinksBack(chain: seq<string>, acc: seq<string>, tail: Tokens)
    requires tail.Kind() != ARROW
    ensures ChainLinks(LinkTokens(chain, tail), acc) == Parsed(acc + chain, tail)
  {
    if chain == [] {
      assert acc + chain == acc;
    } else {
      LinksBack(chain[1..], acc + [chain[0]], tail);
      assert acc + [chain[0]] + chain[1..] == acc + chain;
    }
  }

  lemma EdgeBack(e: AstEdge, tail: Tokens, body: Body)
    requires tail.Kind() == SEMICOLON && |e.nodeChain| >= 2
    ensures Statement(Quote(e.nodeChain[0], LinkTokens(e.nodeChain[1..], OptionalListTokens(e.attrs, tail))), body)
            == Parsed(body.(edges := body.edges + [e]), tail)
  {
    var list := OptionalListTokens(e.attrs, tail);
    OptionalListBack(e.attrs, tail);
    LinksBack(e.nodeChain[1..], [e.nodeChain[0]], list);
    assert [e.nodeChain[0]] + e.nodeChain[1..] == e.nodeChain;
    assert LinkTokens(e.nodeChain[1..], list).Kind() == ARROW;
    hide OptionalListTokens, OptionalAttrList, SubgraphStatement, NodeStatement, AttrList, LinkTokens, ChainLinks;
  }

  lemma OneEdgeBack(e: AstEdge, rest: Tokens, body: Body)
    requires |e.nodeChain| >= 2
    ensures Statements(Quote(e.nodeChain[0],
                             LinkTokens(e.nodeChain[1..], OptionalListTokens(e.attrs,
                                 Symbol(SEMICOLON, ";", rest)))), body)
            == Statements(rest, body.(edges := body.edges + [e]))
  {
    hide Statements, Statement, OptionalListTokens, LinkTokens;
    EdgeBack(e, Symbol(SEMICOLON, ";", rest), body);
    OneStatement(Quote(e.nodeChain[0], LinkTokens(e.nodeChain[1..],
                                                  OptionalListTokens(e.attrs, Symbol(SEMICOLON, ";", rest)))),
                 body, body.(edges := body.edges + [e]), rest);
  }

  lemma {:induction false} EdgesBack(edges: seq<AstEdge>, tail: Tokens, body: Body)
    requires EdgesFit(edges)
    ensures Statements(EdgesTokens(edges, tail), body) == Statements(tail, body.(edges := body.edges + edges))
  {
    hide Statements, Statement, OptionalListTokens, LinkTokens, ChainFits, AttrsFit;
    if edges == [] {
      assert body.edges + edges == body.edges;
    } else {
      var rest := EdgesTokens(edges[1..], tail);
      var body' := body.(edges := body.edges + [edges[0]]);
      OneEdgeBack(edges[0], rest, body);
      EdgesBack(edges[1..], tail, body');
      assert body'.edges + edges[1..] == body.edges + edges;
    }
  }

  lemma DefaultBack(d: AstDefaultAttrs, tail: Tokens, body: Body)
    requires d.target == "node" || d.target == "edge" || d.target == "graph"
    ensures Statement(Symbol(TargetKeyword(d.target), d.target, ListTokens(d.attrs, tail)), body)
            == Parsed(body.(defaults := body.defaults + [d]), tail)
  {
    ListBack(d.attrs, tail);
    TargetBack(d.target);
    assert ListTokens(d.attrs, tail).Kind() == LBRACKET;
    hide ListTokens, AttrList, SubgraphStatement, EdgeStatement, NodeStatement, TargetKeyword, TargetOf;
  }

  lemma TargetBack(target: string)
    requires target == "node" || target == "edge" || target == "graph"
    ensures var k := TargetKeyword(target); TargetOf(k) == target && (k == NODE || k == EDGE || k == GRAPH)
  {
  }

  lemma {:induction false} DefaultsBack(defaults: seq<AstDefaultAttrs>, tail: Tokens, body: Body)
    requires DefaultsFit(defaults)
    ensures Statements(DefaultsTokens(defaults, tail), body)
            == Statements(tail, body.(defaults := body.defaults + defaults))
  {
    hide Statements, Statement, ListTokens, AttrsFit, TargetKeyword;
    if defaults == [] {
      assert body.defaults + defaults == body.defaults;
    } else {
      var rest := DefaultsTokens(defaults[1..], tail);
      var body' := body.(defaults := body.defaults + [defaults[0]]);
      DefaultBack(defaults[0], Symbol(SEMICOLON, ";", rest), body);
      TargetBack(defaults[0].target);
      OneStatement(DefaultsTokens(defaults, tail), body, body', rest);
      DefaultsBack(defaults[1..], tail, body');
      assert body'.defaults + defaults[1..] == body.defaults + defaults;
    }
  }

  lemma OneSubgraphBack(sub: AstSubgraph, rest: Tokens, body: Body)
    requires SubgraphStatement(SubgraphTokens(sub, Symbol(SEMICOLON, ";", rest)))
             == Parsed(sub, Symbol(SEMICOLON, ";", rest))
    ensures Statements(SubgraphTokens(sub, Symbol(SEMICOLON, ";", rest)), body)
            == Statements(rest, body.(subgraphs := body.subgraphs + [sub]))
  {
    hide Statements, SubgraphStatement, BodyTokens, EdgeStatement, NodeStatement;
    var ts := SubgraphTokens(sub, Symbol(SEMICOLON, ";", rest));
    assert ts.Kind() == SUBGRAPH;
    OneStatement(ts, body, body.(subgraphs := body.subgraphs + [sub]), rest);
  }

  lemma {:induction false} SubgraphsBack(subs: seq<AstSubgraph>, tail: Tokens, body: Body)
    requires SubgraphsFit(subs)
    ensures Statements(SubgraphsTokens(subs, tail), body) == Statements(tail, body.(subgraphs := body.subgraphs + subs))
    decreases subs, 1
  {
    hide Statements, SubgraphStatement, SubgraphFits, SubgraphTokens;
    if subs == [] {
      assert body.subgraphs + subs == body.subgraphs;
    } else {
      var rest := SubgraphsTokens(subs[1..], tail);
      var body' := body.(subgraphs := body.subgraphs + [subs[0]]);
      SubgraphBack(subs[0], Symbol(SEMICOLON, ";", rest));
      OneSubgraphBack(subs[0], rest, body);
      SubgraphsBack(subs[1..], tail, body');
      assert body'.subgraphs + subs[1..] == body.subgraphs + subs;
    }
  }

  lemma {:induction false} SubgraphBack(sub: AstSubgraph, tail: Tokens)
    requires SubgraphFits(sub)
    ensures SubgraphStatement(SubgraphTokens(sub, tail)) == Parsed(sub, tail)
    decreases sub, 2
  {
    hide NodesTokens, EdgesTokens, DefaultsTokens, Braced, NodesFit, EdgesFit, DefaultsFit;
    var close := Symbol(RBRACE, "}", tail);
    SubgraphsBack(sub.subgraphs, close, Body(sub.nodes, sub.edges, sub.defaults, []));
    BracedBack(Body(sub.nodes, sub.edges, sub.defaults, sub.subgraphs), tail);
  }

  lemma StatementsEnd(close: Tokens, b: Body)
    requires close.Kind() == RBRACE
    ensures Statements(close, b) == Parsed(b, close)
  {
  }

  /** A printed body parses back, given that its subgraphs do. */
  lemma BodyBack(b: Body, close: Tokens)
    requires close.Kind() == RBRACE && NodesFit(b.nodes) && EdgesFit(b.edges) && DefaultsFit(b.defaults)
    requires Statements(SubgraphsTokens(b.subgraphs, close), b.(subgraphs := []))
             == Statements(close, b.(subgraphs := [] + b.subgraphs))
    ensures Statements(BodyTokens(b, close), NOTHING) == Parsed(b, close)
  {
    hide NodesTokens, EdgesTokens, DefaultsTokens, SubgraphsTokens, Statements, Statement, NodesFit, EdgesFit,
         DefaultsFit;
    var b0, b1, b2 := Body(b.nodes, [], [], []), Body(b.nodes, b.edges, [], []), Body(b.nodes, b.edges, b.defaults, []);
    var t1 := SubgraphsTokens(b.subgraphs, close);
    var t2 := DefaultsTokens(b.defaults, t1);
    NodesBack(b.nodes, EdgesTokens(b.edges, t2), NOTHING);
    assert NOTHING.(nodes := NOTHING.nodes + b.nodes) == b0;
    EdgesBack(b.edges, t2, b0);
    assert b0.(edges := b0.edges + b.edges) == b1;
    DefaultsBack(b.defaults, t1, b1);
    assert b1.(defaults := b1.defaults + b.defaults) == b2;
    assert b.(subgraphs := [] + b.subgraphs) == b;
    StatementsEnd(close, b);
  }

  lemma BracedBack(b: Body, tail: Tokens)
    requires NodesFit(b.nodes) && EdgesFit(b.edges) && DefaultsFit(b.defaults)
    requires var close := Symbol(RBRACE, "}", tail);
             Statements(SubgraphsTokens(b.subgraphs, close), b.(subgraphs := []))
             == Statements(close, b.(subgraphs := [] + b.subgraphs))
    ensures Braced(Symbol(LBRACE, "{", BodyTokens(b, Symbol(RBRACE, "}", tail)))) == Parsed(b, tail)
  {
    hide BodyTokens, Statements, NodesFit, EdgesFit, DefaultsFit;
    BodyBack(b, Symbol(RBRACE, "}", tail));
  }

  lemma GraphBack(g: AstGraph)
    requires Printable(g)
    ensures ParseGraph(GraphTokens(g)) == Parsed(g, End)
  {
    hide NodesTokens, EdgesTokens, DefaultsTokens, SubgraphsTokens, Braced, NodesFit, EdgesFit, DefaultsFit;
    var close := Symbol(RBRACE, "}", End);
    SubgraphsBack(g.subgraphs, close, Body(g.nodes, g.edges, g.defaults, []));
    BracedBack(Body(g.nodes, g.edges, g.defaults, g.subgraphs), End);
  }

  // ---- lexing the text back ------------------------------------------------------------------------

  /** All tokens of a text. */
  function AllTokens(s: string): Tokens
    decreases |s|
  {
    var scan := Lex(s);
    if scan.kind == END_OF_FILE then End else Next(scan.kind, scan.value, AllTokens(s[|s| - scan.left..]))
  }

  lemma {:induction false} TokensFromIsAllTokens(source: string, p: nat)
    requires p <= |source|
    ensures TokensFrom(source, p) == AllTokens(source[p..])
    decreases |source| - p
  {
    hide Lex;
    var scan := Lex(source[p..]);
    if scan.kind != END_OF_FILE {
      TokensFromIsAllTokens(source, EndAt(source, p));
      assert source[p..][|source[p..]| - scan.left..] == source[EndAt(source, p)..];
    }
  }

  /** Tokens the printer produces. */
  ghost predicate Canonical(kind: TokenType, text: string)
  {
    || (kind == QUOTED_STRING && Fits(text))
    || (kind == STRICT && text == "strict") || (kind == DIGRAPH && text == "digraph")
    || (kind == SUBGRAPH && text == "subgraph") || (kind == GRAPH && text == "graph")
    || (kind == NODE && text == "node") || (kind == EDGE && text == "edge")
    || (kind == LBRACE && text == "{") || (kind == RBRACE && text == "}")
    || (kind == LBRACKET && text == "[") || (kind == RBRACKET && text == "]")
    || (kind == SEMICOLON && text == ";") || (kind == COMMA && text == ",")
    || (kind == EQUALS && text == "=") || (kind == ARROW && text == "->")
  }

  ghost predicate AllCanonical(ts: Tokens)
  {
    ts.End? || (Canonical(ts.first, ts.text) && AllCanonical(ts.after))
  }

  /** The end of the text, or a space. */
  predicate Boundary(s: string) { s == "" || s[0] == ' ' }

  /** Either quote character works, as long as it is the one escaped. */
  lemma {:induction false} EscapedBack(v: string, quote: char, acc: string, rest: string)
    requires |acc| + |v| <= MAX_STRING_LENGTH && (quote == '"' || quote == '\'')
    ensures Quoted(Escaped(v, quote) + [quote] + rest, quote, acc) == Scan(QUOTED_STRING, acc + v, |rest|)
  {
    var text := Escaped(v, quote) + [quote] + rest;
    if v == "" {
      assert text == [quote] + rest;
      assert acc + v == acc;
    } else {
      EscapedBack(v[1..], quote, acc + [v[0]], rest);
      var more := Escaped(v[1..], quote) + [quote] + rest;
      assert acc + [v[0]] + v[1..] == acc + v;
      if v[0] == quote || v[0] == '\\' {
        assert text == ['\\', v[0]] + more;
        assert text[2..] == more && Unescaped(v[0]) == [v[0]];
      } else {
        assert text == [v[0]] + more;
        assert text[1..] == more;
      }
    }
  }

  lemma {:induction false} WordBack(w: string, acc: string, rest: string)
    requires forall i :: 0 <= i < |w| ==> IsWord(w[i])
    requires Boundary(rest) && |acc| + |w| <= MAX_IDENTIFIER_LENGTH
    ensures Word(w + rest, acc) == Scan(KeywordType(acc + w), acc + w, |rest|)
  {
    hide KeywordType;
    if w == "" {
      assert w + rest == rest && acc + w == acc;
    } else {
      assert (w + rest)[1..] == w[1..] + rest;
      assert acc + [w[0]] + w[1..] == acc + w;
      WordBack(w[1..], acc + [w[0]], rest);
    }
  }

  lemma LowerIsItself(w: string)
    requires forall i :: 0 <= i < |w| ==> 'a' <= w[i] <= 'z'
    ensures Lower(w) == w
  {
  }

  ghost predicate Keyword(kind: TokenType, text: string)
  {
    || (kind == STRICT && text == "strict") || (kind == DIGRAPH && text == "digraph")
    || (kind == SUBGRAPH && text == "subgraph") || (kind == GRAPH && text == "graph")
    || (kind == NODE && text == "node") || (kind == EDGE && text == "edge")
  }

  lemma KeywordBack(kind: TokenType, text: string, rest: string)
    requires Keyword(kind, text) && Boundary(rest)
    ensures Lexeme(text + rest) == Scan(kind, text, |rest|)
  {
    hide KeywordType, Word, Keyword;
    KeywordLetters(kind, text);
    KeywordKind(kind, text);
    WordBack(text, "", rest);
    assert "" + text == text && (text + rest)[0] == text[0];
  }

  lemma KeywordLetters(kind: TokenType, text: string)
    requires Keyword(kind, text)
    ensures 4 <= |text| <= 8 && forall i :: 0 <= i < |text| ==> 'a' <= text[i] <= 'z'
  {
  }

  lemma KeywordKind(kind: TokenType, text: string)
    requires Keyword(kind, text)
    ensures KeywordType(text) == kind
  {
    hide Lower;
    KeywordLetters(kind, text);
    LowerIsItself(text);
  }

  lemma SymbolBack(kind: TokenType, text: string, rest: string)
    requires Canonical(kind, text) && !Keyword(kind, text) && kind != QUOTED_STRING
    ensures Lexeme(text + rest) == Scan(kind, text, |rest|)
  {
    if kind == ARROW {
      assert (text + rest)[0] == '-' && (text + rest)[1] == '>';
    } else {
      assert (text + rest)[0] == text[0] && text == [text[0]];
    }
  }

  lemma QuotedBack(text: string, quote: char, rest: string)
    requires Fits(text) && (quote == '"' || quote == '\'')
    ensures Lexeme([quote] + Escaped(text, quote) + [quote] + rest) == Scan(QUOTED_STRING, text, |rest|)
  {
    hide Escaped, Quoted;
    var s := [quote] + Escaped(text, quote) + [quote] + rest;
    EscapedBack(text, quote, "", rest);
    assert s[1..] == Escaped(text, quote) + [quote] + rest && s[0] == quote;
    assert "" + text == text;
  }

  /** A spelled token starts with none of the characters a blank can start with. */
  lemma NoBlankBefore(kind: TokenType, text: string)
    requires Canonical(kind, text)
    ensures var s := Spelled(kind, text); s != "" && !IsSpace(s[0]) && s[0] != '/' && s[0] != '#'
  {
    hide Escaped;
  }

  lemma OneTokenBack(kind: TokenType, text: string, rest: string)
    requires Canonical(kind, text) && Boundary(rest)
    ensures Lex(" " + Spelled(kind, text) + rest) == Scan(kind, text, |rest|)
  {
    var s := Spelled(kind, text) + rest;
    NoBlankBefore(kind, text);
    assert s[0] == Spelled(kind, text)[0];
    assert AfterBlank(s) == s;
    assert " " + Spelled(kind, text) + rest == " " + s;
    assert (" " + s)[1..] == s;
    assert AfterBlank(" " + s) == s;
    if kind == QUOTED_STRING {
      QuotedBack(text, '"', rest);
    } else if Keyword(kind, text) {
      KeywordBack(kind, text, rest);
    } else {
      SymbolBack(kind, text, rest);
    }
    hide Lexeme, AfterBlank, Escaped, Canonical, Keyword;
  }

  lemma {:induction false} RenderedBack(ts: Tokens)
    requires AllCanonical(ts)
    ensures AllTokens(Rendered(ts)) == ts && Boundary(Rendered(ts))
  {
    hide Lex, Canonical, Spelled;
    if ts.Next? {
      RenderedBack(ts.after);
      var rest := Rendered(ts.after);
      var s := " " + Spelled(ts.first, ts.text) + rest;
      OneTokenBack(ts.first, ts.text, rest);
      NeverTheEnd(ts.first, ts.text);
      assert s[|s| - |rest|..] == rest;
      assert Rendered(ts) == s;
      assert AllTokens(s) == Next(ts.first, ts.text, AllTokens(rest));
    } else {
      EmptyLex();
    }
  }

  lemma NeverTheEnd(kind: TokenType, text: string)
    requires Canonical(kind, text)
    ensures kind != END_OF_FILE
  {
  }

  lemma EmptyLex()
    ensures Lex("").kind == END_OF_FILE
  {
  }

  // ---- the printer's tokens are canonical ------------------------------------------------------------

  lemma {:induction false} ItemsCanonical(attrs: seq<AstAttribute>, tail: Tokens)
    requires AttrsFit(attrs) && AllCanonical(tail)
    ensures AllCanonical(ItemTokens(attrs, tail))
  {
    if attrs != [] {
      ItemsCanonical(attrs[1..], tail);
      var value := Quote(attrs[0].value, Symbol(COMMA, ",", ItemTokens(attrs[1..], tail)));
      assert AllCanonical(value);
      assert AllCanonical(Symbol(EQUALS, "=", value));
    }
  }

  lemma ListCanonical(attrs: seq<AstAttribute>, tail: Tokens)
    requires AttrsFit(attrs) && AllCanonical(tail)
    ensures AllCanonical(ListTokens(attrs, tail)) && AllCanonical(OptionalListTokens(attrs, tail))
  {
    ItemsCanonical(attrs, Symbol(RBRACKET, "]", tail));
  }

  lemma {:induction false} NodesCanonical(nodes: seq<AstNode>, tail: Tokens)
    requires NodesFit(nodes) && AllCanonical(tail)
    ensures AllCanonical(NodesTokens(nodes, tail))
  {
    if nodes != [] {
      NodesCanonical(nodes[1..], tail);
      ListCanonical(nodes[0].attrs, Symbol(SEMICOLON, ";", NodesTokens(nodes[1..], tail)));
    }
  }

  lemma {:induction false} LinksCanonical(chain: seq<string>, tail: Tokens)
    requires ChainFits(chain) && AllCanonical(tail)
    ensures AllCanonical(LinkTokens(chain, tail))
  {
    if chain != [] { LinksCanonical(chain[1..], tail); }
  }

  lemma {:induction false} EdgesCanonical(edges: seq<AstEdge>, tail: Tokens)
    requires EdgesFit(edges) && AllCanonical(tail)
    ensures AllCanonical(EdgesTokens(edges, tail))
  {
    if edges != [] {
      EdgesCanonical(edges[1..], tail);
      var rest := Symbol(SEMICOLON, ";", EdgesTokens(edges[1..], tail));
      ListCanonical(edges[0].attrs, rest);
      LinksCanonical(edges[0].nodeChain[1..], OptionalListTokens(edges[0].attrs, rest));
    }
  }

  lemma {:induction false} DefaultsCanonical(defaults: seq<AstDefaultAttrs>, tail: Tokens)
    requires DefaultsFit(defaults) && AllCanonical(tail)
    ensures AllCanonical(DefaultsTokens(defaults, tail))
  {
    if defaults != [] {
      DefaultsCanonical(defaults[1..], tail);
      ListCanonical(defaults[0].attrs, Symbol(SEMICOLON, ";", DefaultsTokens(defaults[1..], tail)));
    }
  }

  lemma {:induction false} SubgraphsCanonical(subs: seq<AstSubgraph>, tail: Tokens)
    requires SubgraphsFit(subs) && AllCanonical(tail)
    ensures AllCanonical(SubgraphsTokens(subs, tail))
    decreases subs, 1
  {
    if subs != [] {
      SubgraphsCanonical(subs[1..], tail);
      SubgraphCanonical(subs[0], Symbol(SEMICOLON, ";", SubgraphsTokens(subs[1..], tail)));
    }
  }

  lemma {:induction false} SubgraphCanonical(sub: AstSubgraph, tail: Tokens)
    requires SubgraphFits(sub) && AllCanonical(tail)
    ensures AllCanonical(SubgraphTokens(sub, tail))
    decreases sub, 2
  {
    hide BodyTokens, NodesFit, EdgesFit, DefaultsFit;
    var close := Symbol(RBRACE, "}", tail);
    var body := Body(sub.nodes, sub.edges, sub.defaults, sub.subgraphs);
    SubgraphsCanonical(sub.subgraphs, close);
    BodyCanonical(body, close);
    BracedCanonical(SUBGRAPH, "subgraph", sub.id, BodyTokens(body, close));
  }

  lemma BracedCanonical(kind: TokenType, word: string, id: string, inside: Tokens)
    requires Keyword(kind, word) && Fits(id) && AllCanonical(inside)
    ensures AllCanonical(Symbol(kind, word, Quote(id, Symbol(LBRACE, "{", inside))))
  {
    assert AllCanonical(Symbol(LBRACE, "{", inside));
    assert AllCanonical(Quote(id, Symbol(LBRACE, "{", inside)));
  }

  lemma BodyCanonical(b: Body, close: Tokens)
    requires NodesFit(b.nodes) && EdgesFit(b.edges) && DefaultsFit(b.defaults)
    requires AllCanonical(SubgraphsTokens(b.subgraphs, close))
    ensures AllCanonical(BodyTokens(b, close))
  {
    hide NodesFit, EdgesFit, DefaultsFit, AllCanonical;
    var t1 := SubgraphsTokens(b.subgraphs, close);
    var t2 := DefaultsTokens(b.defaults, t1);
    DefaultsCanonical(b.defaults, t1);
    EdgesCanonical(b.edges, t2);
    NodesCanonical(b.nodes, EdgesTokens(b.edges, t2));
  }

  lemma GraphCanonical(g: AstGraph)
    requires Printable(g)
    ensures AllCanonical(GraphTokens(g))
  {
    hide BodyTokens, NodesFit, EdgesFit, DefaultsFit;
    var close := Symbol(RBRACE, "}", End);
    var body := Body(g.nodes, g.edges, g.defaults, g.subgraphs);
    SubgraphsCanonical(g.subgraphs, close);
    BodyCanonical(body, close);
    BracedCanonical(DIGRAPH, "digraph", g.id, BodyTokens(body, close));
  }

  // ---- the round trip ---------------------------------------------------------------------------------

  /** Parsing undoes printing: reading the printed text of an AST gives the AST back and
      leaves nothing unread. */
  lemma ParsingUndoesPrinting(g: AstGraph)
    requires Printable(g)
    ensures ParseGraph(TokensFrom(Printed(g), 0)) == Parsed(g, End)
  {
    hide GraphTokens, ParseGraph;
    GraphCanonical(g);
    RenderedBack(GraphTokens(g));
    GraphBack(g);
    TokensFromIsAllTokens(Printed(g), 0);
    assert Printed(g)[0..] == Printed(g);
  }

  /** The same, of the parser object. */
  method ParsePrinted(g: AstGraph) returns (r: Text.Result<AstGraph, ParseError>)
    requires Printable(g)
    ensures r == Text.Ok(g)
  {
    ParsingUndoesPrinting(g);
    var parser := new DotParser(Printed(g));
    r := parser.Parse();
  }
}
