/** A test method of the report (`TestMethodInfo`): its qualified name, the
    groups it belongs to and depends on, the methods it depends on, its
    verdict, and its DOT rendering. */
module Methods {
  import opened Outcomes
  import opened Strings
  import opened JavaCompare
  import opened Hashing
  import opened Verdicts
  import opened Dot

  /** A method as the test engine names it: its class and its own name. */
  datatype MethodRef = MethodRef(className: string, methodName: string)

  /** A method as the test engine reports it. The methods it depends on are
      resolved by the engine (from the declared method and group
      dependencies) and arrive here as a finished list. */
  datatype TestMethod = TestMethod(
    id: MethodRef,
    enabled: bool,
    groups: seq<string>,
    groupsDependedUpon: seq<string>,
    beforeGroups: seq<string>,
    afterGroups: seq<string>,
    methodsDependedUpon: seq<MethodRef>)

  /** A method node. `result` is `None` until a verdict is set. */
  datatype MethodNode = MethodNode(
    name: string,
    groups: seq<string>,
    dependentGroups: seq<string>,
    beforeGroups: seq<string>,
    afterGroups: seq<string>,
    dependentMethods: seq<string>,
    result: Option<Verdict>)

  function NameOf(m: MethodNode): string
  {
    m.name
  }

  /** `className + "." + methodName`: the class name, a dot, then the method's own name. */
  function QualifiedName(r: MethodRef): (q: string)
    ensures |q| == |r.className| + 1 + |r.methodName|
    ensures q[..|r.className|] == r.className
    ensures q[|r.className|] == '.'
    ensures q[|r.className| + 1..] == r.methodName
  {
    r.className + "." + r.methodName
  }

  /** The qualified names of a list of methods, one for one and in order. */
  function QualifyAll(refs: seq<MethodRef>): (r: seq<string>)
    ensures |r| == |refs|
    ensures forall i :: 0 <= i < |refs| ==> r[i] == QualifiedName(refs[i])
  {
    if |refs| == 0 then [] else [QualifiedName(refs[0])] + QualifyAll(refs[1..])
  }

  /** The constructor: the node is named by the qualified name, records every
      depended-upon method by its qualified name in the order given, copies the
      group lists, and has no verdict yet. */
  function NewMethod(m: TestMethod): (r: MethodNode)
    ensures r.name == QualifiedName(m.id)
    ensures |r.dependentMethods| == |m.methodsDependedUpon|
    ensures forall i :: 0 <= i < |m.methodsDependedUpon| ==>
              r.dependentMethods[i] == QualifiedName(m.methodsDependedUpon[i])
    ensures r.groups == m.groups && r.dependentGroups == m.groupsDependedUpon
    ensures r.beforeGroups == m.beforeGroups && r.afterGroups == m.afterGroups
    ensures r.result == None
  {
    MethodNode(QualifiedName(m.id), m.groups, m.groupsDependedUpon, m.beforeGroups, m.afterGroups,
               QualifyAll(m.methodsDependedUpon), None)
  }

  /** `setResult`: afterwards `getResult` gives `v`, and nothing else has changed. */
  function SetResult(m: MethodNode, v: Verdict): (r: MethodNode)
    ensures r.result == Some(v)
    ensures r.name == m.name && r.dependentMethods == m.dependentMethods
    ensures r.groups == m.groups && r.dependentGroups == m.dependentGroups
    ensures r.beforeGroups == m.beforeGroups && r.afterGroups == m.afterGroups
  {
    m.(result := Some(v))
  }

  /** `equals`: two method nodes are equal exactly when their names are. */
  predicate Equals(a: MethodNode, b: MethodNode)
  {
    a.name == b.name
  }

  /** `compareTo`: descending by name, zero exactly for equal nodes. */
  function CompareTo(a: MethodNode, b: MethodNode): (r: int)
    ensures r == 0 <==> Equals(a, b)
    ensures r < 0 <==> Less(b.name, a.name)
    ensures r > 0 <==> Less(a.name, b.name)
  {
    ReverseCompare(a.name, b.name)
  }

  /** `hashCode`: computed from the name alone. */
  function HashCode(m: MethodNode): int
  {
    NodeHashCode(m.name)
  }

  /** Equal nodes compare as zero and hash alike, whatever else differs. */
  lemma EqualsConsistent(a: MethodNode, b: MethodNode)
    ensures Equals(a, b) <==> CompareTo(a, b) == 0
    ensures Equals(a, b) ==> HashCode(a) == HashCode(b)
    ensures CompareTo(a, a) == 0
  {
  }

  /** One edge from `self` to each dependency, in order. */
  function DependencyEdges(self: string, deps: seq<string>): (r: seq<string>)
    ensures |r| == |deps|
    ensures forall i :: 0 <= i < |deps| ==> r[i] == Edge(self, deps[i])
  {
    if |deps| == 0 then [] else [Edge(self, deps[0])] + DependencyEdges(self, deps[1..])
  }

  /** The inside of the method's graph: one edge per depended-upon method in
      list order, then per depended-upon group its node line and an edge. */
  function Fragments(m: MethodNode): (r: seq<string>)
    ensures |r| == |m.dependentMethods| + 2 * |m.dependentGroups|
    ensures forall i :: 0 <= i < |m.dependentMethods| ==> r[i] == Edge(m.name, m.dependentMethods[i])
    ensures forall j :: 0 <= j < |m.dependentGroups| ==>
              && r[|m.dependentMethods| + 2 * j] == GroupNode(m.dependentGroups[j])
              && r[|m.dependentMethods| + 2 * j + 1] == Edge(m.name, m.dependentGroups[j])
  {
    var edges := DependencyEdges(m.name, m.dependentMethods);
    var groups := GroupFragments(m.name, m.dependentGroups);
    assert forall j :: 0 <= j < |m.dependentGroups| ==>
      (edges + groups)[|edges| + 2 * j] == groups[2 * j] && (edges + groups)[|edges| + 2 * j + 1] == groups[2 * j + 1];
    edges + groups
  }

  /** A method with no dependencies has nothing to draw. */
  predicate HasDependencies(m: MethodNode)
  {
    |m.dependentMethods| > 0 || |m.dependentGroups| > 0
  }

  /** `toDot(asSubgraph)`. Nested, a method without dependencies renders as
      nothing; otherwise the fragments are wrapped in `subgraph method<n> { }`
      when nested and in `digraph g { }` at the top level. */
  function ToDot(m: MethodNode, asSubgraph: bool, namer: Namer): (r: string)
    ensures r == "" <==> asSubgraph && !HasDependencies(m)
    ensures !asSubgraph ==> StartsWith(r, GraphHeader + " {\n")
    ensures asSubgraph && r != "" ==> StartsWith(r, "subgraph method")
    ensures r != "" ==> EndsWith(r, "}\n")
  {
    if asSubgraph && !HasDependencies(m) then ""
    else
      var suffix := NatToString(namer(m.name));
      RenderedBody(asSubgraph, "subgraph method", suffix, Concat(Fragments(m)));
      Block(Header(asSubgraph, "subgraph method", suffix), Concat(Fragments(m)))
  }

  /** With the namer `toDot` uses, a nested method graph is named after the
      method's hash code, or after the clock reading when the hash code is
      negative. */
  lemma SubgraphNamedByHash(m: MethodNode, clockMillis: nat)
    requires HasDependencies(m)
    ensures var number := if HashCode(m) < 0 then clockMillis else HashCode(m);
            StartsWith(ToDot(m, true, (n: string) => SubgraphNumber(n, clockMillis)),
                       "subgraph method" + NatToString(number) + " {\n")
  {
    var namer := (n: string) => SubgraphNumber(n, clockMillis);
    var header := "subgraph method" + NatToString(namer(m.name));
    var body := Concat(Fragments(m));
    assert ToDot(m, true, namer) == header + " {\n" + body + "}\n";
    assert (header + " {\n" + body + "}\n")[..|header + " {\n"|] == header + " {\n";
  }

  /** At the top level, a method without dependencies renders as the trivial
      graph `digraph g {\n}\n`; one with dependencies never does. */
  lemma TopLevelEmptyIffNoDependencies(m: MethodNode, namer: Namer)
    ensures ToDot(m, false, namer) == EmptyGraph <==> !HasDependencies(m)
  {
    var frags := Fragments(m);
    BlockIsEmptyGraph(Concat(frags));
    if HasDependencies(m) {
      assert |frags| > 0;
      assert Concat(frags) == frags[0] + Concat(frags[1..]);
      assert |frags[0]| > 0 by {
        if |m.dependentMethods| > 0 {
          assert frags[0] == Edge(m.name, m.dependentMethods[0]);
        } else {
          assert frags[0] == GroupNode(m.dependentGroups[0]);
        }
      }
    }
  }
}
