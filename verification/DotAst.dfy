/** The parsed form of a DOT file: include/needle/parser/dot_ast.h. */
module DotAst {
  datatype AstAttribute = AstAttribute(key: string, value: string)

  datatype AstNode = AstNode(id: string, attrs: seq<AstAttribute>)

  datatype AstEdge = AstEdge(nodeChain: seq<string>, attrs: seq<AstAttribute>)

  datatype AstDefaultAttrs = AstDefaultAttrs(target: string, attrs: seq<AstAttribute>)

  datatype AstSubgraph = AstSubgraph(
    id: string, nodes: seq<AstNode>, edges: seq<AstEdge>, defaults: seq<AstDefaultAttrs>, subgraphs: seq<AstSubgraph>)

  datatype AstGraph = AstGraph(
    strict: bool, id: string, nodes: seq<AstNode>, edges: seq<AstEdge>, defaults: seq<AstDefaultAttrs>,
    subgraphs: seq<AstSubgraph>)
}
