/** Every way of writing a graph, as a tree of statements with the choices a writer has, and
    the proof that src/parser/dot_parser.cpp reads each as the AST it stands for. */
module DotSources {
  import opened Text
  import opened DotAst
  import opened DotLexing
  import opened DotParsing

  // ---- what can be written ------------------------------------------------------------------

  /** A token with a text of its own. */
  datatype Atom = Atom(kind: TokenType, text: string)

  /** `key = value`, and the separator behind it, if any. */
  datatype Item = Item(key: Atom, value: Atom, separator: Option<TokenType>)

  /** A statement; a list of attributes may be left out, a subgraph may be bare braces. */
  datatype Stmt =
    | NodeStmt(id: Atom, list: Option<seq<Item>>)
    | EdgeStmt(ids: seq<Atom>, list: Option<seq<Item>>)
    | DefaultStmt(target: Atom, items: seq<Item>)
    | SubgraphStmt(head: Option<Head>, lines: seq<Line>)

  /** The keyword of a subgraph, and its name, if any. */
  datatype Head = Head(keyword: Atom, name: Option<Atom>)

  /** A statement, with a semicolon behind it or not. */
  datatype Line = Line(stmt: Stmt, semicolon: bool)

  datatype Source = Source(strict: Option<Atom>, keyword: Atom, name: Option<Atom>, lines: seq<Line>)

  predicate IdWord(w: Atom) { w.kind.IDENTIFIER? || w.kind.QUOTED_STRING? || w.kind.NUMBER? }

  predicate NameWord(w: Atom) { w.kind.IDENTIFIER? || w.kind.QUOTED_STRING? }

  predicate ValueWord(w: Atom)
  {
    w.kind.IDENTIFIER? || w.kind.QUOTED_STRING? || w.kind.HTML_STRING? || w.kind.NUMBER?
  }

  ghost predicate ItemsRight(items: seq<Item>)
  {
    forall i :: 0 <= i < |items| ==>
      NameWord(items[i].key) && ValueWord(items[i].value)
      && (items[i].separator == None || items[i].separator == Some(COMMA) || items[i].separator == Some(SEMICOLON))
  }

  ghost predicate ListRight(list: Option<seq<Item>>) { list.Some? ==> ItemsRight(list.value) }

  ghost predicate StmtRight(s: Stmt)
    decreases s
  {
    match s
    case NodeStmt(id, list) => IdWord(id) && ListRight(list)
    case EdgeStmt(ids, list) => |ids| >= 2 && (forall i :: 0 <= i < |ids| ==> IdWord(ids[i])) && ListRight(list)
    case DefaultStmt(target, items) => (target.kind.NODE? || target.kind.EDGE? || target.kind.GRAPH?)
      && ItemsRight(items)
    case SubgraphStmt(head, lines) => HeadRight(head) && forall i :: 0 <= i < |lines| ==> StmtRight(lines[i].stmt)
  }

  predicate HeadRight(head: Option<Head>)
  {
    head.Some? ==> head.value.keyword.kind.SUBGRAPH? && (head.value.name.Some? ==> NameWord(head.value.name.value))
  }

  ghost predicate LinesRight(lines: seq<Line>)
  {
    forall i :: 0 <= i < |lines| ==> StmtRight(lines[i].stmt)
  }

  ghost predicate SourceRight(src: Source)
  {
    && (src.strict.Some? ==> src.strict.value.kind.STRICT?)
    && (src.keyword.kind.DIGRAPH? || src.keyword.kind.GRAPH?)
    && (src.name.Some? ==> NameWord(src.name.value)) && LinesRight(src.lines)
  }

  // ---- its tokens: each function puts them in front of `tail` ------------------------------------

  function Put(w: Atom, tail: Tokens): Tokens { Next(w.kind, w.text, tail) }

  function Mark(kind: TokenType, text: string, tail: Tokens): Tokens { Next(kind, text, tail) }

  function SeparatorText(kind: TokenType): string { if kind.COMMA? then "," else ";" }

  function ItemsTokens(items: seq<Item>, tail: Tokens): Tokens
  {
    if items == [] then tail
    else
      var rest := ItemsTokens(items[1..], tail);
      var separator := items[0].separator;
      Put(items[0].key, Mark(EQUALS, "=", Put(items[0].value,
        if separator.Some? then Mark(separator.value, SeparatorText(separator.value), rest) else rest)))
  }

  function BracketTokens(items: seq<Item>, tail: Tokens): Tokens
  {
    Mark(LBRACKET, "[", ItemsTokens(items, Mark(RBRACKET, "]", tail)))
  }

  function ListTokens(list: Option<seq<Item>>, tail: Tokens): Tokens
  {
    if list.Some? then BracketTokens(list.value, tail) else tail
  }

  function LinksTokens(ids: seq<Atom>, tail: Tokens): Tokens
  {
    if ids == [] then tail else Mark(ARROW, "->", Put(ids[0], LinksTokens(ids[1..], tail)))
  }

  function StmtTokens(s: Stmt, tail: Tokens): Tokens
    decreases s, 1
  {
    match s
    case NodeStmt(id, list) => Put(id, ListTokens(list, tail))
    case EdgeStmt(ids, list) =>
      if ids == [] then ListTokens(list, tail) else Put(ids[0], LinksTokens(ids[1..], ListTokens(list, tail)))
    case DefaultStmt(target, items) => Put(target, BracketTokens(items, tail))
    case SubgraphStmt(head, lines) =>
      var braced := Mark(LBRACE, "{", LinesTokens(lines, Mark(RBRACE, "}", tail)));
      if head.None? then braced
      else Put(head.value.keyword, if head.value.name.Some? then Put(head.value.name.value, braced) else braced)
  }

  function LinesTokens(lines: seq<Line>, tail: Tokens): Tokens
    decreases lines, 0
  {
    if lines == [] then tail
    else
      LineTokens(lines[0], LinesTokens(lines[1..], tail))
  }

  function LineTokens(line: Line, rest: Tokens): Tokens
    decreases line, 2
  {
    StmtTokens(line.stmt, if line.semicolon then Mark(SEMICOLON, ";", rest) else rest)
  }

  function SourceTokens(src: Source, tail: Tokens): Tokens
  {
    var braced := Mark(LBRACE, "{", LinesTokens(src.lines, Mark(RBRACE, "}", tail)));
    var named := if src.name.Some? then Put(src.name.value, braced) else braced;
    var graph := Put(src.keyword, named);
    if src.strict.Some? then Put(src.strict.value, graph) else graph
  }

  // ---- what it stands for --------------------------------------------------------------------------

  function Attrs(items: seq<Item>): seq<AstAttribute>
  {
    seq(|items|, i requires 0 <= i < |items| => AstAttribute(items[i].key.text, items[i].value.text))
  }

  function ListAttrs(list: Option<seq<Item>>): seq<AstAttribute>
  {
    if list.Some? then Attrs(list.value) else []
  }

  function Ids(ids: seq<Atom>): seq<string>
  {
    seq(|ids|, i requires 0 <= i < |ids| => ids[i].text)
  }

  function TargetName(kind: TokenType): string
  {
    match kind
    case NODE => "node"
    case EDGE => "edge"
    case _ => "graph"
  }

  /** The body with the statement added to the list of its kind. */
  function Added(body: Body, s: Stmt): Body
    decreases s, 1
  {
    match s
    case NodeStmt(id, list) => body.(nodes := body.nodes + [AstNode(id.text, ListAttrs(list))])
    case EdgeStmt(ids, list) => body.(edges := body.edges + [AstEdge(Ids(ids), ListAttrs(list))])
    case DefaultStmt(target, items) =>
      body.(defaults := body.defaults + [AstDefaultAttrs(TargetName(target.kind), Attrs(items))])
    case SubgraphStmt(head, lines) =>
      var b := AddedAll(Body([], [], [], []), lines);
      body.(subgraphs := body.subgraphs + [AstSubgraph(NameOf(head), b.nodes, b.edges, b.defaults, b.subgraphs)])
  }

  function AddedLine(body: Body, line: Line): Body
    decreases line, 2
  {
    Added(body, line.stmt)
  }

  function NameOf(head: Option<Head>): string
  {
    if head.Some? && head.value.name.Some? then head.value.name.value.text else ""
  }

  function AddedAll(body: Body, lines: seq<Line>): Body
    decreases lines, 0
  {
    if lines == [] then body else AddedAll(AddedLine(body, lines[0]), lines[1..])
  }

  function Meaning(src: Source): AstGraph
  {
    var b := AddedAll(Body([], [], [], []), src.lines);
    var name := if src.name.Some? then src.name.value.text else "";
    AstGraph(src.strict.Some?, name, b.nodes, b.edges, b.defaults, b.subgraphs)
  }

  // ---- reading it --------------------------------------------------------------------------------

  lemma {:induction false} ItemsRead(items: seq<Item>, acc: seq<AstAttribute>, tail: Tokens)
    requires ItemsRight(items) && tail.Kind() == RBRACKET
    ensures AttributeItems(ItemsTokens(items, tail), acc) == Parsed(acc + Attrs(items), tail)
  {
    if items == [] {
      assert acc + Attrs(items) == acc;
    } else {
      var first := AstAttribute(items[0].key.text, items[0].value.text);
      ItemsRead(items[1..], acc + [first], tail);
      ItemsStart(items[1..], tail);
      assert acc + [first] + Attrs(items[1..]) == acc + Attrs(items);
    }
  }

  lemma ItemsStart(items: seq<Item>, tail: Tokens)
    requires ItemsRight(items) && tail.Kind() == RBRACKET
    ensures var k := ItemsTokens(items, tail).Kind(); k.RBRACKET? || k.IDENTIFIER? || k.QUOTED_STRING?
  {
  }

  lemma BracketRead(items: seq<Item>, tail: Tokens)
    requires ItemsRight(items)
    ensures AttrList(BracketTokens(items, tail)) == Parsed(Attrs(items), tail)
  {
    hide AttributeItems, ItemsTokens, Attrs;
    ItemsRead(items, [], Mark(RBRACKET, "]", tail));
    assert [] + Attrs(items) == Attrs(items);
  }

  /** What can stand behind a statement. */
  predicate Behind(k: TokenType)
  {
    k.RBRACE? || k.SEMICOLON? || Starts(k)
  }

  /** What a statement starts with. */
  predicate Starts(k: TokenType)
  {
    k.IDENTIFIER? || k.QUOTED_STRING? || k.NUMBER? || k.NODE? || k.EDGE? || k.GRAPH? || k.SUBGRAPH? || k.LBRACE?
  }

  lemma ListRead(list: Option<seq<Item>>, tail: Tokens)
    requires ListRight(list) && Behind(tail.Kind())
    ensures OptionalAttrList(ListTokens(list, tail)) == Parsed(ListAttrs(list), tail)
    ensures ListTokens(list, tail).Kind() != ARROW
  {
    hide BracketTokens, AttrList;
    if list.Some? { BracketRead(list.value, tail); BracketStarts(list.value, tail); }
  }

  lemma BracketStarts(items: seq<Item>, tail: Tokens)
    ensures BracketTokens(items, tail).Kind() == LBRACKET
  {
  }

  lemma {:induction false} LinksRead(ids: seq<Atom>, acc: seq<string>, tail: Tokens)
    requires tail.Kind() != ARROW && forall i :: 0 <= i < |ids| ==> IdWord(ids[i])
    ensures ChainLinks(LinksTokens(ids, tail), acc) == Parsed(acc + Ids(ids), tail)
  {
    if ids == [] {
      assert acc + Ids(ids) == acc;
    } else {
      LinksRead(ids[1..], acc + [ids[0].text], tail);
      assert acc + [ids[0].text] + Ids(ids[1..]) == acc + Ids(ids);
    }
  }

  lemma NodeRead(id: Atom, list: Option<seq<Item>>, tail: Tokens, body: Body)
    requires IdWord(id) && ListRight(list) && Behind(tail.Kind())
    ensures Statement(Put(id, ListTokens(list, tail)), body)
            == Parsed(body.(nodes := body.nodes + [AstNode(id.text, ListAttrs(list))]), tail)
  {
    hide ListTokens, OptionalAttrList, SubgraphStatement, EdgeStatement, AttrList, ListAttrs;
    ListRead(list, tail);
  }

  lemma EdgeRead(ids: seq<Atom>, list: Option<seq<Item>>, tail: Tokens, body: Body)
    requires |ids| >= 2 && (forall i :: 0 <= i < |ids| ==> IdWord(ids[i])) && ListRight(list) && Behind(tail.Kind())
    ensures Statement(Put(ids[0], LinksTokens(ids[1..], ListTokens(list, tail))), body)
            == Parsed(body.(edges := body.edges + [AstEdge(Ids(ids), ListAttrs(list))]), tail)
  {
    hide ListTokens, OptionalAttrList, SubgraphStatement, NodeStatement, AttrList, ListAttrs, ChainLinks;
    var rest := ListTokens(list, tail);
    ListRead(list, tail);
    LinksRead(ids[1..], [ids[0].text], rest);
    assert [ids[0].text] + Ids(ids[1..]) == Ids(ids);
    assert LinksTokens(ids[1..], rest).Kind() == ARROW;
  }

  lemma DefaultRead(target: Atom, items: seq<Item>, tail: Tokens, body: Body)
    requires (target.kind.NODE? || target.kind.EDGE? || target.kind.GRAPH?) && ItemsRight(items)
    ensures Statement(Put(target, BracketTokens(items, tail)), body)
            == Parsed(body.(defaults := body.defaults + [AstDefaultAttrs(TargetName(target.kind), Attrs(items))]), tail)
  {
    hide BracketTokens, AttrList, SubgraphStatement, EdgeStatement, NodeStatement, Attrs;
    BracketRead(items, tail);
    BracketStarts(items, tail);
  }

  lemma StmtStarts(s: Stmt, tail: Tokens)
    requires StmtRight(s)
    ensures Starts(StmtTokens(s, tail).Kind())
  {
    hide ListTokens, LinksTokens, BracketTokens, LinesTokens;
  }

  lemma LinesStart(lines: seq<Line>, tail: Tokens)
    requires LinesRight(lines) && tail.Kind() == RBRACE
    ensures var k := LinesTokens(lines, tail).Kind(); k.RBRACE? || Starts(k)
  {
    hide StmtTokens, StmtRight;
    if lines != [] {
      var rest := LinesTokens(lines[1..], tail);
      StmtStarts(lines[0].stmt, if lines[0].semicolon then Mark(SEMICOLON, ";", rest) else rest);
    }
  }

  /** A statement and the semicolon behind it, if any, leave the statements after it. */
  lemma LineRead(ts: Tokens, semicolon: bool, rest: Tokens, body: Body, body': Body)
    requires Starts(ts.Kind()) && rest.Kind() != SEMICOLON
    requires Statement(ts, body) == Parsed(body', if semicolon then Mark(SEMICOLON, ";", rest) else rest)
    ensures Statements(ts, body) == Statements(rest, body')
  {
    hide Statement;
  }

  lemma {:induction false} LinesRead(lines: seq<Line>, tail: Tokens, body: Body)
    requires LinesRight(lines) && tail.Kind() == RBRACE
    ensures Statements(LinesTokens(lines, tail), body) == Parsed(AddedAll(body, lines), tail)
    decreases lines, 0
  {
    hide Statement, StmtTokens, Added, StmtRight;
    if lines == [] {
      NoLines(tail, body);
    } else {
      var rest := LinesTokens(lines[1..], tail);
      var behind := if lines[0].semicolon then Mark(SEMICOLON, ";", rest) else rest;
      LinesStart(lines[1..], tail);
      StmtStarts(lines[0].stmt, behind);
      OneLineRead(lines[0], rest, body);
      LineRead(StmtTokens(lines[0].stmt, behind), lines[0].semicolon, rest, body, Added(body, lines[0].stmt));
      LinesRead(lines[1..], tail, Added(body, lines[0].stmt));
    }
  }

  lemma {:induction false} OneLineRead(line: Line, rest: Tokens, body: Body)
    requires StmtRight(line.stmt) && Behind(rest.Kind())
    ensures Statement(LineTokens(line, rest), body)
            == Parsed(AddedLine(body, line), if line.semicolon then Mark(SEMICOLON, ";", rest) else rest)
    decreases line, 2
  {
    hide Statement, StmtTokens, Added, StmtRight;
    StmtRead(line.stmt, if line.semicolon then Mark(SEMICOLON, ";", rest) else rest, body);
  }

  lemma NoLines(tail: Tokens, body: Body)
    requires tail.Kind() == RBRACE
    ensures Statements(tail, body) == Parsed(body, tail)
  {
  }

  lemma BracedRead(lines: seq<Line>, tail: Tokens)
    requires Statements(LinesTokens(lines, Mark(RBRACE, "}", tail)), NOTHING)
             == Parsed(AddedAll(NOTHING, lines), Mark(RBRACE, "}", tail))
    ensures Braced(Mark(LBRACE, "{", LinesTokens(lines, Mark(RBRACE, "}", tail))))
            == Parsed(AddedAll(NOTHING, lines), tail)
  {
    hide Statements, LinesTokens, AddedAll;
  }

  lemma {:induction false} StmtRead(s: Stmt, tail: Tokens, body: Body)
    requires StmtRight(s) && Behind(tail.Kind())
    ensures Statement(StmtTokens(s, tail), body) == Parsed(Added(body, s), tail)
    decreases s, 1
  {
    hide Statement, ListTokens, LinksTokens, BracketTokens, LinesTokens, ListAttrs, Attrs, AddedAll;
    match s
    case NodeStmt(id, list) => NodeRead(id, list, tail, body);
    case EdgeStmt(ids, list) => EdgeRead(ids, list, tail, body);
    case DefaultStmt(target, items) => DefaultRead(target, items, tail, body);
    case SubgraphStmt(head, lines) =>
      LinesRead(lines, Mark(RBRACE, "}", tail), NOTHING);
      BracedRead(lines, tail);
      SubgraphRead(head, lines, tail, body);
  }

  lemma SubgraphRead(head: Option<Head>, lines: seq<Line>, tail: Tokens, body: Body)
    requires HeadRight(head)
    requires Braced(Mark(LBRACE, "{", LinesTokens(lines, Mark(RBRACE, "}", tail))))
             == Parsed(AddedAll(NOTHING, lines), tail)
    ensures Statement(StmtTokens(SubgraphStmt(head, lines), tail), body)
            == Parsed(Added(body, SubgraphStmt(head, lines)), tail)
  {
    hide LinesTokens, AddedAll, Braced, EdgeStatement, NodeStatement, AttrList;
  }

  /** Parsing reads every source, however its words are spelled, as what it stands for, and
      leaves what comes behind it. */
  lemma SourceRead(src: Source, tail: Tokens)
    requires SourceRight(src)
    ensures ParseGraph(SourceTokens(src, tail)) == Parsed(Meaning(src), tail)
  {
    hide LinesTokens, AddedAll, Braced;
    LinesRead(src.lines, Mark(RBRACE, "}", tail), NOTHING);
    BracedRead(src.lines, tail);
  }

  // ---- nothing else is read ------------------------------------------------------------------------

  /** Marks have their own texts, as a lexer gives them. */
  predicate MarkText(kind: TokenType, text: string)
  {
    match kind
    case LBRACE => text == "{"
    case RBRACE => text == "}"
    case LBRACKET => text == "["
    case RBRACKET => text == "]"
    case SEMICOLON => text == ";"
    case COMMA => text == ","
    case EQUALS => text == "="
    case ARROW => text == "->"
    case _ => true
  }

  ghost predicate Marked(ts: Tokens)
  {
    ts.Next? ==> MarkText(ts.first, ts.text) && Marked(ts.after)
  }

  lemma MarkedTail(ts: Tokens)
    requires Marked(ts)
    ensures Marked(ts.Tail())
  {
  }

  /** One item at the front of a list. */
  lemma ItemAtFront(ts: Tokens) returns (item: Item)
    requires Marked(ts) && IsName(ts.Kind()) && ts.Tail().Kind() == EQUALS && IsValue(ts.Tail().Tail().Kind())
    ensures var v := ts.Tail().Tail(); var rest := AfterSeparator(v.Tail());
            && item.key == Atom(ts.Kind(), ts.Value()) && item.value == Atom(v.Kind(), v.Value())
            && (item.separator == None || item.separator == Some(COMMA) || item.separator == Some(SEMICOLON))
            && ts == Put(item.key, Mark(EQUALS, "=", Put(item.value,
                       if item.separator.Some? then
                         Mark(item.separator.value, SeparatorText(item.separator.value), rest)
                       else rest)))
            && Marked(rest)
  {
    var v := ts.Tail().Tail();
    var behind := v.Tail();
    item := Item(Atom(ts.Kind(), ts.Value()), Atom(v.Kind(), v.Value()),
                 if behind.Kind() == COMMA || behind.Kind() == SEMICOLON then Some(behind.Kind()) else None);
    MarkedTail(ts);
    MarkedTail(ts.Tail());
    MarkedTail(v);
    MarkedTail(behind);
  }

  lemma {:induction false} ItemsWritten(ts: Tokens, acc: seq<AstAttribute>) returns (items: seq<Item>)
    requires Marked(ts) && AttributeItems(ts, acc).Parsed? && AttributeItems(ts, acc).rest.Kind() == RBRACKET
    ensures var r := AttributeItems(ts, acc);
            && ItemsRight(items) && ts == ItemsTokens(items, r.rest) && r.value == acc + Attrs(items)
            && Marked(r.rest)
    decreases ts.Size()
  {
    hide Marked, AfterSeparator;
    if ts.Kind() == RBRACKET {
      items := [];
      assert acc + Attrs(items) == acc;
    } else {
      var item := ItemAtFront(ts);
      var first := AstAttribute(item.key.text, item.value.text);
      var rest := ItemsWritten(AfterSeparator(ts.Tail().Tail().Tail()), acc + [first]);
      items := [item] + rest;
      assert items[1..] == rest;
      AttrsCons(item, rest, acc);
    }
  }

  lemma AttrsCons(item: Item, rest: seq<Item>, acc: seq<AstAttribute>)
    ensures acc + [AstAttribute(item.key.text, item.value.text)] + Attrs(rest) == acc + Attrs([item] + rest)
  {
  }

  lemma BracketWritten(ts: Tokens) returns (items: seq<Item>)
    requires Marked(ts) && AttrList(ts).Parsed?
    ensures var r := AttrList(ts);
            ItemsRight(items) && ts == BracketTokens(items, r.rest) && r.value == Attrs(items) && Marked(r.rest)
  {
    hide AttributeItems, ItemsTokens, ItemsRight;
    items := ItemsWritten(ts.Tail(), []);
    assert [] + Attrs(items) == Attrs(items);
  }

  lemma ListWritten(ts: Tokens) returns (list: Option<seq<Item>>)
    requires Marked(ts) && OptionalAttrList(ts).Parsed?
    ensures var r := OptionalAttrList(ts);
            ListRight(list) && ts == ListTokens(list, r.rest) && r.value == ListAttrs(list) && Marked(r.rest)
  {
    hide AttrList, BracketTokens, Attrs, ItemsRight;
    if ts.Kind() == LBRACKET {
      var items := BracketWritten(ts);
      list := Some(items);
    } else {
      list := None;
    }
  }

  lemma {:induction false} LinksWritten(ts: Tokens, acc: seq<string>) returns (ids: seq<Atom>)
    requires Marked(ts) && ChainLinks(ts, acc).Parsed?
    ensures var r := ChainLinks(ts, acc);
            && (forall i :: 0 <= i < |ids| ==> IdWord(ids[i])) && ts == LinksTokens(ids, r.rest)
            && r.value == acc + Ids(ids)
            && Marked(r.rest) && (ts.Kind() == ARROW ==> ids != [])
    decreases ts.Size()
  {
    if ts.Kind() != ARROW {
      ids := [];
      assert acc + Ids(ids) == acc;
    } else {
      var w := Atom(ts.Tail().Kind(), ts.Tail().Value());
      var rest := LinksWritten(ts.Tail().Tail(), acc + [w.text]);
      ids := [w] + rest;
      assert ids[1..] == rest;
      assert acc + [w.text] + Ids(rest) == acc + Ids(ids);
    }
  }

  lemma {:induction false} StmtWritten(ts: Tokens, body: Body) returns (s: Stmt)
    requires Marked(ts) && Statement(ts, body).Parsed?
    ensures var r := Statement(ts, body);
            StmtRight(s) && ts == StmtTokens(s, r.rest) && r.value == Added(body, s) && Marked(r.rest)
    decreases ts.Size(), 2
  {
    hide AttrList, OptionalAttrList, SubgraphStatement, ChainLinks, ItemsRight, ListRight, Attrs, ListAttrs, ListTokens;
    hide BracketTokens, LinksTokens, LinesTokens, AddedAll, Ids;
    var first := Atom(ts.Kind(), ts.Value());
    if StartsDefaults(ts) {
      var items := BracketWritten(ts.Tail());
      s := DefaultStmt(first, items);
    } else if ts.Kind() == SUBGRAPH || ts.Kind() == LBRACE {
      var head, lines := SubgraphWritten(ts);
      s := SubgraphStmt(head, lines);
    } else if ts.Tail().Kind() == ARROW {
      s := EdgeWritten(ts);
    } else {
      var list := ListWritten(ts.Tail());
      s := NodeStmt(first, list);
    }
  }

  lemma EdgeWritten(ts: Tokens) returns (s: Stmt)
    requires Marked(ts) && IdWord(Atom(ts.Kind(), ts.Value())) && ts.Tail().Kind() == ARROW
    requires EdgeStatement(ts.Value(), ts.Tail()).Parsed?
    ensures var r := EdgeStatement(ts.Value(), ts.Tail());
            && s.EdgeStmt? && StmtRight(s) && ts == StmtTokens(s, r.rest) && Marked(r.rest)
            && r.value == AstEdge(Ids(s.ids), ListAttrs(s.list))
  {
    hide OptionalAttrList, ListRight, ListTokens, ListAttrs, LinksTokens;
    var first := Atom(ts.Kind(), ts.Value());
    var ids := LinksWritten(ts.Tail(), [ts.Value()]);
    var list := ListWritten(ChainLinks(ts.Tail(), [ts.Value()]).rest);
    s := EdgeStmt([first] + ids, list);
    assert ([first] + ids)[1..] == ids;
    assert [first.text] + Ids(ids) == Ids([first] + ids);
  }

  lemma {:induction false} SubgraphWritten(ts: Tokens) returns (head: Option<Head>, lines: seq<Line>)
    requires Marked(ts) && (ts.Kind() == SUBGRAPH || ts.Kind() == LBRACE) && SubgraphStatement(ts).Parsed?
    ensures var r := SubgraphStatement(ts); var b := AddedAll(NOTHING, lines);
            && HeadRight(head) && LinesRight(lines) && ts == StmtTokens(SubgraphStmt(head, lines), r.rest)
            && Marked(r.rest)
            && r.value == AstSubgraph(NameOf(head), b.nodes, b.edges, b.defaults, b.subgraphs)
    decreases ts.Size(), 1
  {
    hide Braced, LinesTokens, AddedAll, StmtRight;
    if ts.Kind() == SUBGRAPH {
      var named := IsName(ts.Tail().Kind());
      var keyword, name := Atom(SUBGRAPH, ts.Value()), Atom(ts.Tail().Kind(), ts.Tail().Value());
      head := Some(Head(keyword, if named then Some(name) else None));
      lines := BracedWritten(if named then ts.Tail().Tail() else ts.Tail());
    } else {
      head := None;
      lines := BracedWritten(ts);
    }
  }

  lemma {:induction false} BracedWritten(ts: Tokens) returns (lines: seq<Line>)
    requires Marked(ts) && Braced(ts).Parsed?
    ensures var r := Braced(ts);
            && LinesRight(lines) && ts == Mark(LBRACE, "{", LinesTokens(lines, Mark(RBRACE, "}", r.rest)))
            && Marked(r.rest)
            && r.value == AddedAll(NOTHING, lines)
    decreases ts.Size(), 0
  {
    hide Statements, LinesTokens, AddedAll, StmtRight;
    lines := LinesWritten(ts.Tail(), NOTHING);
  }

  lemma {:induction false} LinesWritten(ts: Tokens, body: Body) returns (lines: seq<Line>)
    requires Marked(ts) && Statements(ts, body).Parsed?
    ensures var r := Statements(ts, body);
            LinesRight(lines) && ts == LinesTokens(lines, r.rest) && r.value == AddedAll(body, lines) && Marked(r.rest)
    decreases ts.Size(), 3
  {
    hide Statement, StmtTokens, StmtRight, Added;
    if ts.Kind() == RBRACE || ts.Kind() == END_OF_FILE {
      lines := [];
    } else {
      var s := StmtWritten(ts, body);
      var r := Statement(ts, body);
      var rest := LinesWritten(AfterSemicolon(r.rest), r.value);
      lines := [Line(s, r.rest.Kind() == SEMICOLON)] + rest;
      assert lines[1..] == rest;
    }
  }

  lemma GraphWritten(ts: Tokens) returns (src: Source)
    requires Marked(ts) && ParseGraph(ts).Parsed?
    ensures var r := ParseGraph(ts); SourceRight(src) && ts == SourceTokens(src, r.rest) && r.value == Meaning(src)
  {
    hide Braced, LinesTokens, AddedAll, StmtRight;
    var strict := ts.Kind() == STRICT;
    var keyword := if strict then ts.Tail() else ts;
    var after := keyword.Tail();
    var named := IsName(after.Kind());
    MarkedTail(ts);
    MarkedTail(keyword);
    MarkedTail(after);
    var lines := BracedWritten(if named then after.Tail() else after);
    src := Source(if strict then Some(Atom(STRICT, ts.Value())) else None, Atom(keyword.Kind(), keyword.Value()),
                  if named then Some(Atom(after.Kind(), after.Value())) else None, lines);
  }

  /** The parser reads a graph from some tokens exactly when they are a source that stands
      for it, and what comes behind it. */
  lemma ParsesExactly(ts: Tokens, g: AstGraph, rest: Tokens)
    requires Marked(ts)
    ensures ParseGraph(ts) == Parsed(g, rest)
            <==> exists src :: SourceRight(src) && ts == SourceTokens(src, rest) && g == Meaning(src)
  {
    hide ParseGraph, SourceTokens, SourceRight, Meaning;
    if ParseGraph(ts) == Parsed(g, rest) {
      var src := GraphWritten(ts);
    }
    forall src | SourceRight(src) && ts == SourceTokens(src, rest) && g == Meaning(src)
      ensures ParseGraph(ts) == Parsed(g, rest)
    {
      SourceRead(src, rest);
    }
  }
}
