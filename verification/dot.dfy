/** The pieces of Graphviz DOT text every node renderer emits. */
module Dot {
  import opened Strings
  import opened Collections

  /** The number used to name a nested subgraph, as a function of the node's name. */
  type Namer = string -> nat

  const GraphHeader: string := "digraph g"

  /** What a top-level rendering with nothing inside looks like. */
  const EmptyGraph: string := "digraph g {\n}\n"

  function Quoted(s: string): string
  {
    "\"" + s + "\""
  }

  /** `"from" -> "to";` */
  function Edge(from: string, to: string): string
  {
    Quoted(from) + " -> " + Quoted(to) + ";\n"
  }

  /** `"name"[attributes];` */
  function NodeLine(name: string, attributes: string): string
  {
    Quoted(name) + "[" + attributes + "];\n"
  }

  /** The node drawn for a group name. */
  function GroupNode(group: string): string
  {
    NodeLine(group, "shape=cds,label=\"Group: " + group + "\"")
  }

  /** `<keyword><suffix>` when nested (the keyword is `subgraph` and the
      kind of node), `digraph g` at the top level. */
  function Header(asSubgraph: bool, keyword: string, suffix: string): string
  {
    if asSubgraph then keyword + suffix else GraphHeader
  }

  /** `<header> {` on its own line, then the body, then the closing brace. */
  function Block(header: string, body: string): string
  {
    header + " {\n" + body + "}\n"
  }

  /** A block is never empty, opens with its header and ends with the closing brace. */
  lemma BlockShape(header: string, body: string)
    ensures StartsWith(Block(header, body), header + " {\n")
    ensures EndsWith(Block(header, body), "}\n")
    ensures Block(header, body) != ""
  {
    var b := Block(header, body);
    assert b[..|header + " {\n"|] == header + " {\n";
    assert b[|b| - 2..] == "}\n";
  }

  /** A block opens with its header followed by whatever its body opens with. */
  lemma BlockPrefix(header: string, body: string, first: string)
    requires StartsWith(body, first)
    ensures StartsWith(Block(header, body), header + " {\n" + first)
  {
    var b := Block(header, body);
    var p := header + " {\n";
    assert b == p + body + "}\n";
    assert b[..|p + first|] == p + body[..|first|];
  }

  /** A nested block opens with its keyword. */
  lemma SubgraphPrefix(keyword: string, suffix: string, body: string)
    ensures StartsWith(Block(Header(true, keyword, suffix), body), keyword)
  {
    var b := Block(Header(true, keyword, suffix), body);
    assert b == keyword + suffix + " {\n" + body + "}\n";
    assert b[..|keyword|] == keyword;
  }

  /** What every node renderer promises of a non-empty rendering whose body
      opens with `line`: at the top level it opens with `digraph g {` and the
      line, nested it opens with its keyword, and it ends with the closing
      brace. */
  lemma RenderedBlock(asSubgraph: bool, keyword: string, suffix: string, line: string, rest: string)
    ensures Block(Header(asSubgraph, keyword, suffix), line + rest) != ""
    ensures EndsWith(Block(Header(asSubgraph, keyword, suffix), line + rest), "}\n")
    ensures !asSubgraph ==> StartsWith(Block(Header(asSubgraph, keyword, suffix), line + rest), GraphHeader + " {\n" + line)
    ensures asSubgraph ==> StartsWith(Block(Header(asSubgraph, keyword, suffix), line + rest), keyword)
  {
    var header := Header(asSubgraph, keyword, suffix);
    BlockShape(header, line + rest);
    assert (line + rest)[..|line|] == line;
    BlockPrefix(header, line + rest, line);
    if asSubgraph {
      SubgraphPrefix(keyword, suffix, line + rest);
    }
  }

  /** The same promise for a body with no opening line of its own. */
  lemma RenderedBody(asSubgraph: bool, keyword: string, suffix: string, body: string)
    ensures Block(Header(asSubgraph, keyword, suffix), body) != ""
    ensures EndsWith(Block(Header(asSubgraph, keyword, suffix), body), "}\n")
    ensures !asSubgraph ==> StartsWith(Block(Header(asSubgraph, keyword, suffix), body), GraphHeader + " {\n")
    ensures asSubgraph ==> StartsWith(Block(Header(asSubgraph, keyword, suffix), body), keyword)
  {
    RenderedBlock(asSubgraph, keyword, suffix, "", body);
    assert "" + body == body;
    assert GraphHeader + " {\n" + "" == GraphHeader + " {\n";
  }

  /** A top-level block is the trivial graph exactly when its body is empty. */
  lemma BlockIsEmptyGraph(body: string)
    ensures Block(GraphHeader, body) == EmptyGraph <==> body == ""
  {
    if Block(GraphHeader, body) == EmptyGraph {
      assert |Block(GraphHeader, body)| == |GraphHeader| + 5 + |body|;
    }
  }

  /** For each group, in order and with repetitions, its node line and then
      the edge from the owner to it. */
  function GroupFragments(owner: string, groups: seq<string>): (r: seq<string>)
    ensures |r| == 2 * |groups|
    ensures forall j :: 0 <= j < |groups| ==> r[2 * j] == GroupNode(groups[j]) && r[2 * j + 1] == Edge(owner, groups[j])
  {
    if |groups| == 0 then []
    else
      var rest := GroupFragments(owner, groups[1..]);
      PairShift(GroupNode(groups[0]), Edge(owner, groups[0]), rest, |groups| - 1);
      TailShift(groups);
      [GroupNode(groups[0]), Edge(owner, groups[0])] + rest
  }
}
