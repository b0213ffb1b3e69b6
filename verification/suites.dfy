/** A suite of the report (`TestSuiteInfo`): its tests, the names of its child
    suites, the verdict derived from its tests (with its own default), and its
    DOT rendering. */
module Suites {
  import opened Outcomes
  import opened Strings
  import opened JavaCompare
  import opened Hashing
  import opened Verdicts
  import opened Dot
  import opened Collections
  import opened Methods
  import opened Classes
  import opened Tests

  /** What the test engine reports about one suite: its name and settings,
      the names of the child suites it declares, and one context per test. */
  datatype SuiteContext = SuiteContext(
    name: string,
    parallel: string,
    preserveOrder: Option<string>,
    childSuiteNames: seq<string>,
    results: seq<TestContext>)

  /** A suite node. `tests` is the test set in iteration order (descending by
      name when built here); `childSuites` holds names only, in ascending order. */
  datatype SuiteNode = SuiteNode(
    name: string,
    parallel: string,
    preserveOrder: bool,
    tests: seq<TestNode>,
    childSuites: seq<string>)

  function SuiteNameOf(s: SuiteNode): string
  {
    s.name
  }

  /** A child suite is known by its name alone. */
  function ChildName(name: string): string
  {
    name
  }

  lemma KeySetChildName(xs: seq<string>)
    ensures forall n :: n in KeySet(xs, ChildName) <==> n in xs
  {
    forall n | n in xs ensures n in KeySet(xs, ChildName) {
      var i :| 0 <= i < |xs| && xs[i] == n;
      assert ChildName(xs[i]) in KeySet(xs, ChildName);
    }
  }

  /** `buildChildSuites`: the declared child-suite names as a set of strings,
      in ascending order, each once. */
  function BuildChildSuites(ctx: SuiteContext): (r: seq<string>)
    ensures Sorted(r, ChildName, true)
    ensures forall n :: n in r <==> n in ctx.childSuiteNames
  {
    var r := InsertAll([], ctx.childSuiteNames, ChildName, true);
    assert KeySet([], ChildName) == {};
    KeySetChildName(ctx.childSuiteNames);
    KeySetChildName(r);
    r
  }

  function NewTests(results: seq<TestContext>): (r: seq<TestNode>)
    ensures |r| == |results|
    ensures forall i :: 0 <= i < |results| ==> r[i] == NewTest(results[i], None)
  {
    if |results| == 0 then [] else [NewTest(results[0], None)] + NewTests(results[1..])
  }

  /** Every test's classes can be drawn. */
  predicate TestsRenderable(ts: seq<TestNode>)
  {
    forall t :: t in ts ==> ClassesRenderable(t.classes)
  }

  lemma TestsRenderableTail(ts: seq<TestNode>)
    requires TestsRenderable(ts) && |ts| > 0
    ensures ClassesRenderable(ts[0].classes) && TestsRenderable(ts[1..])
  {
    assert ts[0] in ts;
    TailShift(ts);
  }

  /** `buildTestInfo`: one test node per result, built from its context, kept
      in descending name order; of two results with the same test name the
      first is kept. */
  function BuildTests(ctx: SuiteContext): (r: seq<TestNode>)
    ensures Sorted(r, TestNameOf, false)
    ensures forall c :: c in ctx.results ==> c.name in KeySet(r, TestNameOf)
    ensures forall t :: t in r ==> exists c :: c in ctx.results && t == NewTest(c, None)
    ensures TestsRenderable(r)
    ensures forall i :: 0 <= i < |ctx.results| && (forall j :: 0 <= j < i ==> ctx.results[j].name != ctx.results[i].name) ==>
              NewTest(ctx.results[i], None) in r
  {
    BuiltTestFirsts(ctx);
    BuiltTestNames(ctx);
    BuiltTestOrigins(ctx);
    BuiltTestsRenderable(ctx);
    InsertAll([], NewTests(ctx.results), TestNameOf, false)
  }

  lemma BuiltTestNames(ctx: SuiteContext)
    ensures forall c :: c in ctx.results ==> c.name in KeySet(InsertAll([], NewTests(ctx.results), TestNameOf, false), TestNameOf)
  {
    InsertAllMapped(ctx.results, c => NewTest(c, None), (c: TestContext) => c.name, NewTests(ctx.results), TestNameOf, false);
  }

  lemma BuiltTestFirsts(ctx: SuiteContext)
    ensures forall i :: 0 <= i < |ctx.results| && (forall j :: 0 <= j < i ==> ctx.results[j].name != ctx.results[i].name) ==>
              NewTest(ctx.results[i], None) in InsertAll([], NewTests(ctx.results), TestNameOf, false)
  {
    InsertAllMappedFirst(ctx.results, c => NewTest(c, None), (c: TestContext) => c.name, NewTests(ctx.results), TestNameOf, false);
  }

  lemma BuiltTestOrigins(ctx: SuiteContext)
    ensures forall t :: t in InsertAll([], NewTests(ctx.results), TestNameOf, false) ==> exists c :: c in ctx.results && t == NewTest(c, None)
  {
    InsertAllMapped(ctx.results, c => NewTest(c, None), (c: TestContext) => c.name, NewTests(ctx.results), TestNameOf, false);
  }

  lemma BuiltTestsRenderable(ctx: SuiteContext)
    ensures TestsRenderable(InsertAll([], NewTests(ctx.results), TestNameOf, false))
  {
    var built := NewTests(ctx.results);
    forall i | 0 <= i < |built| ensures ClassesRenderable(built[i].classes) {
      assert built[i] == NewTest(ctx.results[i], None);
    }
    InsertAllKeeps(built, TestNameOf, false, (t: TestNode) => ClassesRenderable(t.classes));
  }

  /** The constructor. The child-suite names are always collected; the tests
      are built from the results only when no test set is given. */
  function NewSuite(ctx: SuiteContext, tests: Option<seq<TestNode>>): (r: SuiteNode)
    ensures r.name == ctx.name && r.parallel == ctx.parallel
    ensures r.preserveOrder <==> ParseBoolean(ctx.preserveOrder)
    ensures r.childSuites == BuildChildSuites(ctx)
    ensures tests.Some? ==> r.tests == tests.value
    ensures tests.None? ==> r.tests == BuildTests(ctx) && TestsRenderable(r.tests)
  {
    var ts := match tests case None => BuildTests(ctx) case Some(given) => given;
    SuiteNode(ctx.name, ctx.parallel, ParseBoolean(ctx.preserveOrder), ts, BuildChildSuites(ctx))
  }

  // ---------------------------------------------------------------------
  // Verdict queries and the suite's verdict
  // ---------------------------------------------------------------------

  /** `hasPassed`/`hasSkips`/`hasFailures`: some test has a method with verdict `v`. */
  predicate AnyTestHas(ts: seq<TestNode>, v: Verdict)
  {
    exists i :: 0 <= i < |ts| && AnyClassHas(ts[i].classes, v)
  }

  /** `getPassed`/`getSkips`/`getFailures`: the tests whose own verdict is `v`. */
  function TestsWithVerdict(ts: seq<TestNode>, v: Verdict): (r: set<TestNode>)
    ensures forall t :: t in r <==> t in ts && TestVerdict(t) == v
  {
    set t | t in ts && TestVerdict(t) == v
  }

  /** `setTestResult`: SKIPPED by default, overridden by PASSED when some
      method passed, overridden by FAILED when some method failed. Skips do
      not enter into it. */
  function SuiteVerdict(s: SuiteNode): (r: Verdict)
    ensures r == Failed <==> AnyTestHas(s.tests, Failed)
    ensures r == Passed <==> AnyTestHas(s.tests, Passed) && !AnyTestHas(s.tests, Failed)
    ensures r == Skipped <==> !AnyTestHas(s.tests, Passed) && !AnyTestHas(s.tests, Failed)
  {
    var initial := Skipped;
    var afterPasses := if AnyTestHas(s.tests, Passed) then Passed else initial;
    if AnyTestHas(s.tests, Failed) then Failed else afterPasses
  }

  /** The suite failed exactly when one of its tests did. */
  lemma SuiteFailedIffSomeTestFailed(s: SuiteNode)
    ensures SuiteVerdict(s) == Failed <==> TestsWithVerdict(s.tests, Failed) != {}
  {
    if AnyTestHas(s.tests, Failed) {
      var i :| 0 <= i < |s.tests| && AnyClassHas(s.tests[i].classes, Failed);
      assert s.tests[i] in TestsWithVerdict(s.tests, Failed);
    }
    if TestsWithVerdict(s.tests, Failed) != {} {
      var t :| t in TestsWithVerdict(s.tests, Failed);
      var i :| 0 <= i < |s.tests| && s.tests[i] == t;
    }
  }

  /** A suite without tests is SKIPPED, where a test or class without
      children is PASSED. */
  lemma EmptySuiteIsSkipped(name: string, children: seq<string>)
    ensures SuiteVerdict(SuiteNode(name, "none", false, [], children)) == Skipped
    ensures TestVerdict(TestNode(name, false, "none", [], [])) == Passed
    ensures ClassVerdict(ClassNode(name, [])) == Passed
  {
  }

  /** The suite and test rules disagree: a test with one passed and one
      skipped method is SKIPPED, but a suite holding just that test is PASSED;
      a test whose class has no methods is PASSED, but a suite holding just
      that test is SKIPPED. */
  lemma SuiteAndTestRulesDisagree(p: MethodNode, k: MethodNode)
    requires p.result == Some(Passed) && k.result == Some(Skipped)
    ensures var t := TestNode("T", false, "none", [ClassNode("C", [p, k])], []);
              TestVerdict(t) == Skipped && SuiteVerdict(SuiteNode("S", "none", false, [t], [])) == Passed
    ensures var t := TestNode("T", false, "none", [ClassNode("C", [])], []);
              TestVerdict(t) == Passed && SuiteVerdict(SuiteNode("S", "none", false, [t], [])) == Skipped
  {
    var c := ClassNode("C", [p, k]);
    assert c.methods[0].result == Some(Passed) && c.methods[1].result == Some(Skipped);
    var t := TestNode("T", false, "none", [c], []);
    assert t.classes[0] == c;
    assert AnyClassHas(t.classes, Passed) && AnyClassHas(t.classes, Skipped);
    assert [t][0] == t;
    var e := ClassNode("C", []);
    var u := TestNode("T", false, "none", [e], []);
    assert u.classes[0] == e;
    assert [u][0] == u;
  }

  // ---------------------------------------------------------------------
  // Identity
  // ---------------------------------------------------------------------

  predicate SuiteEquals(a: SuiteNode, b: SuiteNode)
  {
    a.name == b.name
  }

  /** `compareTo`: descending by name, zero exactly for equal nodes. */
  function SuiteCompareTo(a: SuiteNode, b: SuiteNode): (r: int)
    ensures r == 0 <==> SuiteEquals(a, b)
    ensures r < 0 <==> Less(b.name, a.name)
    ensures r > 0 <==> Less(a.name, b.name)
  {
    ReverseCompare(a.name, b.name)
  }

  function SuiteHashCode(s: SuiteNode): int
  {
    NodeHashCode(s.name)
  }

  // ---------------------------------------------------------------------
  // DOT
  // ---------------------------------------------------------------------

  /** The double box drawn for a suite named `name`, with extra attributes in front. */
  function SuiteBox(name: string, attributes: string): string
  {
    NodeLine(name, attributes + "shape=box,peripheries=2,label=\"Suite: " + name + "\"")
  }

  /** `dotWalkSuiteInfo`: per child-suite name, in order, its box and the
      edge from the suite to it. */
  function ChildSuiteFragments(owner: string, children: seq<string>): (r: seq<string>)
    ensures |r| == 2 * |children|
    ensures forall j :: 0 <= j < |children| ==>
              r[2 * j] == SuiteBox(children[j], "") && r[2 * j + 1] == Edge(owner, children[j])
  {
    if |children| == 0 then []
    else
      var rest := ChildSuiteFragments(owner, children[1..]);
      PairShift(SuiteBox(children[0], ""), Edge(owner, children[0]), rest, |children| - 1);
      TailShift(children);
      [SuiteBox(children[0], ""), Edge(owner, children[0])] + rest
  }

  /** The suite's own box, coloured by its verdict. */
  function SuiteLine(s: SuiteNode): string
  {
    SuiteBox(s.name, DotStyle(SuiteVerdict(s)) + ",")
  }

  /** The house drawn for a test named `name` in the given style. */
  function TestBox(name: string, style: string): string
  {
    NodeLine(name, style + ",shape=house,label=\"Test: " + name + "\"")
  }

  /** The house drawn for a test, coloured by its verdict. */
  function TestLine(t: TestNode): string
  {
    TestBox(t.name, DotStyle(TestVerdict(t)))
  }

  /** The text for one test of suite `owner`: its house, the edge to it, and
      the test's own subgraph. */
  function TestEntry(owner: string, t: TestNode, namer: Namer): string
    requires ClassesRenderable(t.classes)
  {
    TestLine(t) + Edge(owner, t.name) + Tests.ToDot(t, true, namer)
  }

  function TestEntries(owner: string, ts: seq<TestNode>, namer: Namer): (r: seq<string>)
    requires TestsRenderable(ts)
    ensures |r| == |ts|
    ensures forall i :: 0 <= i < |ts| ==> r[i] == TestEntry(owner, ts[i], namer)
  {
    if |ts| == 0 then []
    else
      TestsRenderableTail(ts);
      [TestEntry(owner, ts[0], namer)] + TestEntries(owner, ts[1..], namer)
  }

  /** The inside of the suite's graph: its own box, its child suites, then its tests. */
  function Body(s: SuiteNode, namer: Namer): string
    requires TestsRenderable(s.tests)
  {
    SuiteLine(s) + (Concat(ChildSuiteFragments(s.name, s.childSuites)) + Concat(TestEntries(s.name, s.tests, namer)))
  }

  /** `toDot(asSubgraph)`. Nested, a suite without tests and child suites
      renders as nothing; otherwise the suite's box comes first. */
  function ToDot(s: SuiteNode, asSubgraph: bool, namer: Namer): (r: string)
    requires TestsRenderable(s.tests)
    ensures r == "" <==> asSubgraph && |s.tests| == 0 && |s.childSuites| == 0
    ensures !asSubgraph ==> StartsWith(r, GraphHeader + " {\n" + SuiteLine(s))
    ensures asSubgraph && r != "" ==> StartsWith(r, "subgraph suite")
    ensures r != "" ==> EndsWith(r, "}\n")
  {
    if asSubgraph && |s.tests| == 0 && |s.childSuites| == 0 then ""
    else
      var suffix := NatToString(namer(s.name));
      var rest := Concat(ChildSuiteFragments(s.name, s.childSuites)) + Concat(TestEntries(s.name, s.tests, namer));
      RenderedBlock(asSubgraph, "subgraph suite", suffix, SuiteLine(s), rest);
      Block(Header(asSubgraph, "subgraph suite", suffix), Body(s, namer))
  }

  /** A suite always draws its own box, so its top-level graph is never the
      trivial one and is always written. */
  lemma TopLevelNeverEmptyGraph(s: SuiteNode, namer: Namer)
    requires TestsRenderable(s.tests)
    ensures ToDot(s, false, namer) != EmptyGraph
  {
    BlockIsEmptyGraph(Body(s, namer));
    assert |SuiteLine(s)| > 0;
  }

  // ---------------------------------------------------------------------
  // The one-method scenario
  // ---------------------------------------------------------------------

  /** Suite "S" holding test "T" holding class "C" holding method "C.m" with
      verdict `v` and no dependencies. */
  function ScenarioMethod(v: Verdict): MethodNode
  {
    MethodNode("C.m", [], [], [], [], [], Some(v))
  }

  function ScenarioClass(v: Verdict): ClassNode
  {
    ClassNode("C", [ScenarioMethod(v)])
  }

  function ScenarioTest(v: Verdict): TestNode
  {
    TestNode("T", false, "none", [ScenarioClass(v)], [])
  }

  function Scenario(v: Verdict): SuiteNode
  {
    SuiteNode("S", "none", false, [ScenarioTest(v)], [])
  }

  /** Every level of the scenario takes the method's verdict. */
  lemma ScenarioVerdicts(v: Verdict)
    ensures ClassVerdict(ScenarioClass(v)) == v
    ensures TestVerdict(ScenarioTest(v)) == v
    ensures SuiteVerdict(Scenario(v)) == v
  {
    var s := Scenario(v);
    var t := ScenarioTest(v);
    var c := ScenarioClass(v);
    assert c.methods[0] == ScenarioMethod(v) && t.classes[0] == c && s.tests[0] == t;
    assert HasResult(c.methods, v) && AnyClassHas(t.classes, v) && AnyTestHas(s.tests, v);
    assert forall w :: HasResult(c.methods, w) ==> w == v;
    assert forall w :: AnyClassHas(t.classes, w) ==> w == v;
    assert forall w :: AnyTestHas(s.tests, w) ==> w == v;
  }

  /** A class with one method that has no dependencies draws the class box,
      the method coloured by its verdict and the edge to it, and nothing more. */
  lemma OneMethodClassText(c: ClassNode, namer: Namer)
    requires |c.methods| == 1 && c.methods[0].result.Some? && !HasDependencies(c.methods[0])
    ensures Renderable(c.methods)
    ensures Classes.ToDot(c, true, namer) ==
              Block(Header(true, "subgraph class", NatToString(namer(c.name))),
                    ClassLine(c.name) + NodeLine(c.methods[0].name, DotStyle(c.methods[0].result.value)) +
                    Edge(c.name, c.methods[0].name))
  {
    var m := c.methods[0];
    assert c.methods == [m] && c.methods[1..] == [];
    assert Methods.ToDot(m, true, namer) == "";
    var entry := NodeLine(m.name, DotStyle(m.result.value)) + Edge(c.name, m.name);
    assert MethodEntry(c.name, m, namer) == entry + "";
    assert VisitedEntries(c.name, c.methods, {}, namer) == entry + "" + "";
    assert entry + "" + "" == entry;
  }

  /** A test with one class and no groups draws the class coloured by its
      verdict, the edge to it, and the class's subgraph. */
  lemma OneClassTestText(t: TestNode, namer: Namer)
    requires |t.classes| == 1 && |t.groups| == 0 && Renderable(t.classes[0].methods)
    ensures ClassesRenderable(t.classes)
    ensures Tests.ToDot(t, true, namer) ==
              Block(Header(true, "subgraph test", NatToString(namer(t.name))),
                    NodeLine(t.classes[0].name, DotStyle(ClassVerdict(t.classes[0]))) + Edge(t.name, t.classes[0].name) +
                    Classes.ToDot(t.classes[0], true, namer))
  {
    OneClassTestBody(t, namer);
  }

  /** The body of a test with one class and no groups is that class's entry. */
  lemma OneClassTestBody(t: TestNode, namer: Namer)
    requires |t.classes| == 1 && |t.groups| == 0 && Renderable(t.classes[0].methods)
    ensures ClassesRenderable(t.classes)
    ensures Tests.Body(t, namer) == ClassEntry(t.name, t.classes[0], namer)
  {
    SingleClassVisited(t.name, t.classes, namer);
    AppendFacts(ClassEntry(t.name, t.classes[0], namer), "", "");
    assert Concat(GroupFragments(t.name, t.groups)) == "";
  }

  lemma SingleClassVisited(owner: string, cs: seq<ClassNode>, namer: Namer)
    requires |cs| == 1 && Renderable(cs[0].methods)
    ensures ClassesRenderable(cs)
    ensures VisitedClassEntries(owner, cs, {}, namer) == ClassEntry(owner, cs[0], namer) + ""
  {
    assert cs[1..] == [];
  }

  /** A suite with one test and no child suites draws its box, the test's
      house, the edge to it, and the test's subgraph. */
  lemma OneTestSuiteBody(s: SuiteNode, namer: Namer)
    requires |s.tests| == 1 && |s.childSuites| == 0 && ClassesRenderable(s.tests[0].classes)
    ensures TestsRenderable(s.tests)
    ensures Body(s, namer) == SuiteLine(s) + TestLine(s.tests[0]) + Edge(s.name, s.tests[0].name) + Tests.ToDot(s.tests[0], true, namer)
  {
    var t := s.tests[0];
    SingleTestRenderable(s.tests);
    var entry := TestEntry(s.name, t, namer);
    assert TestEntries(s.name, s.tests, namer) == [entry];
    ConcatSingle(entry);
    assert Concat(ChildSuiteFragments(s.name, s.childSuites)) == "";
    assert Body(s, namer) == SuiteLine(s) + ("" + entry);
    EmptyThenEntry(SuiteLine(s), TestLine(t), Edge(s.name, t.name), Tests.ToDot(t, true, namer));
  }

  lemma SingleTestRenderable(ts: seq<TestNode>)
    requires |ts| == 1 && ClassesRenderable(ts[0].classes)
    ensures TestsRenderable(ts)
  {
    forall x | x in ts ensures ClassesRenderable(x.classes) {
      assert x == ts[0];
    }
  }

  lemma EmptyThenEntry(a: string, b: string, c: string, d: string)
    ensures a + ("" + (b + c + d)) == a + b + c + d
  {
    assert "" + (b + c + d) == b + c + d;
  }

  /** The one-method scenario: every node takes the method's colour (green
      for PASSED, red for FAILED), the suite box comes first, and the method
      draws no subgraph of its own. */
  lemma ScenarioRendering(v: Verdict, namer: Namer)
    ensures TestsRenderable(Scenario(v).tests)
    ensures ToDot(Scenario(v), false, namer) ==
              Block(GraphHeader,
                SuiteBox("S", DotStyle(v) + ",") +
                TestBox("T", DotStyle(v)) + Edge("S", "T") +
                Block(Header(true, "subgraph test", NatToString(namer("T"))),
                  NodeLine("C", DotStyle(v)) + Edge("T", "C") +
                  Block(Header(true, "subgraph class", NatToString(namer("C"))),
                    ClassLine("C") + NodeLine("C.m", DotStyle(v)) + Edge("C", "C.m"))))
  {
    ScenarioBody(v, namer);
    ScenarioTestText(v, namer);
    TopLevelText(Scenario(v), namer);
  }

  /** Drawn on its own, a suite is its body inside the top-level graph. */
  lemma TopLevelText(s: SuiteNode, namer: Namer)
    requires TestsRenderable(s.tests)
    ensures ToDot(s, false, namer) == Block(GraphHeader, Body(s, namer))
  {
  }

  /** The scenario suite's body: its box, the test's house, the edge to it
      and the test's subgraph. */
  lemma ScenarioBody(v: Verdict, namer: Namer)
    ensures TestsRenderable(Scenario(v).tests)
    ensures Body(Scenario(v), namer) ==
              SuiteBox("S", DotStyle(v) + ",") + TestBox("T", DotStyle(v)) + Edge("S", "T") +
              Tests.ToDot(ScenarioTest(v), true, namer)
  {
    var s := Scenario(v);
    var t := ScenarioTest(v);
    assert s.tests[0] == t && s.name == "S" && t.name == "T";
    ScenarioTestText(v, namer);
    OneTestSuiteBody(s, namer);
    ScenarioLines(v);
  }

  lemma ScenarioLines(v: Verdict)
    ensures SuiteLine(Scenario(v)) == SuiteBox("S", DotStyle(v) + ",")
    ensures TestLine(ScenarioTest(v)) == TestBox("T", DotStyle(v))
  {
    ScenarioVerdicts(v);
  }

  /** The scenario's class draws its box and its method's box and edge. */
  lemma ScenarioClassText(v: Verdict, namer: Namer)
    ensures Renderable(ScenarioClass(v).methods)
    ensures Classes.ToDot(ScenarioClass(v), true, namer) ==
              Block(Header(true, "subgraph class", NatToString(namer("C"))),
                    ClassLine("C") + NodeLine("C.m", DotStyle(v)) + Edge("C", "C.m"))
  {
    var c := ScenarioClass(v);
    assert c.methods[0] == ScenarioMethod(v) && c.name == "C";
    OneMethodClassText(c, namer);
  }

  /** The scenario's test draws its class's box, the edge to it and the
      class's subgraph. */
  lemma ScenarioTestText(v: Verdict, namer: Namer)
    ensures ClassesRenderable(ScenarioTest(v).classes)
    ensures Tests.ToDot(ScenarioTest(v), true, namer) ==
              Block(Header(true, "subgraph test", NatToString(namer("T"))),
                    NodeLine("C", DotStyle(v)) + Edge("T", "C") +
                    Block(Header(true, "subgraph class", NatToString(namer("C"))),
                          ClassLine("C") + NodeLine("C.m", DotStyle(v)) + Edge("C", "C.m")))
  {
    var t := ScenarioTest(v);
    var c := ScenarioClass(v);
    assert t.classes[0] == c && t.name == "T" && c.name == "C";
    ScenarioClassText(v, namer);
    ScenarioVerdicts(v);
    OneClassTestText(t, namer);
  }
}
