/** A `<test>` of a suite (`TestInfo`): its classes, built from the methods the
    test engine reports in the four outcome buckets, the groups it includes,
    the verdict derived from its methods, and its DOT rendering. */
module Tests {
  import opened Outcomes
  import opened Strings
  import opened JavaCompare
  import opened Hashing
  import opened Verdicts
  import opened Dot
  import opened Collections
  import opened Methods
  import opened Classes

  /** What the test engine reports about one test run: its name and settings,
      the groups it includes, and the methods that passed, failed within the
      success percentage, failed, and were skipped. */
  datatype TestContext = TestContext(
    name: string,
    preserveOrder: Option<string>,
    parallel: string,
    includedGroups: seq<string>,
    passed: seq<TestMethod>,
    failedWithinPercentage: seq<TestMethod>,
    failed: seq<TestMethod>,
    skipped: seq<TestMethod>)

  /** A test node. `classes` is the class set in iteration order. */
  datatype TestNode = TestNode(
    name: string,
    preserveOrder: bool,
    parallel: string,
    classes: seq<ClassNode>,
    groups: seq<string>)

  function TestNameOf(t: TestNode): string
  {
    t.name
  }

  function Identity(m: TestMethod): TestMethod
  {
    m
  }

  function ClassOf(m: TestMethod): string
  {
    m.id.className
  }

  /** The method is in one of the four outcome buckets. */
  predicate InContext(ctx: TestContext, m: TestMethod)
  {
    m in ctx.passed || m in ctx.failedWithinPercentage || m in ctx.failed || m in ctx.skipped
  }

  lemma KeySetIdentity(xs: seq<TestMethod>)
    ensures forall m :: m in KeySet(xs, Identity) <==> m in xs
  {
    forall m | m in xs ensures m in KeySet(xs, Identity) {
      var i :| 0 <= i < |xs| && xs[i] == m;
      assert Identity(xs[i]) in KeySet(xs, Identity);
    }
  }

  /** `allMethods`: every method of the four buckets, once each. */
  function AllMethods(ctx: TestContext): (r: seq<TestMethod>)
    ensures forall m :: m in r <==> InContext(ctx, m)
    ensures DistinctKeys(r, Identity)
  {
    var xs := ctx.passed + ctx.failedWithinPercentage + ctx.failed + ctx.skipped;
    FirstByKeyKeys(xs, Identity, {});
    KeySetIdentity(xs);
    KeySetIdentity(FirstByKey(xs, Identity, {}));
    FirstByKey(xs, Identity, {})
  }

  /** `determineTestMethodResult`: FAILED when the method is among the
      failures, else SKIPPED when among the skips, else PASSED. A failure
      within the success percentage counts as PASSED. */
  function MethodVerdict(ctx: TestContext, m: TestMethod): (r: Verdict)
    ensures r == Failed <==> m in ctx.failed
    ensures r == Skipped <==> m !in ctx.failed && m in ctx.skipped
    ensures r == Passed <==> m !in ctx.failed && m !in ctx.skipped
  {
    if m in ctx.failed then Failed
    else if m in ctx.skipped then Skipped
    else Passed
  }

  /** A method node built for the report, with its verdict set. */
  function BuildMethod(ctx: TestContext, m: TestMethod): (r: MethodNode)
    ensures r.name == QualifiedName(m.id)
    ensures r.result == Some(MethodVerdict(ctx, m))
  {
    SetResult(NewMethod(m), MethodVerdict(ctx, m))
  }

  /** The enabled methods of class `cls`, in order. */
  function ClassMembers(cls: string, all: seq<TestMethod>): (r: seq<TestMethod>)
    ensures forall m :: m in r <==> m in all && m.enabled && ClassOf(m) == cls
  {
    if |all| == 0 then []
    else
      assert all == [all[0]] + all[1..];
      (if all[0].enabled && ClassOf(all[0]) == cls then [all[0]] else []) + ClassMembers(cls, all[1..])
  }

  function BuildMethods(ctx: TestContext, ms: seq<TestMethod>): (r: seq<MethodNode>)
    ensures |r| == |ms|
    ensures forall i :: 0 <= i < |ms| ==> r[i] == BuildMethod(ctx, ms[i])
  {
    if |ms| == 0 then [] else [BuildMethod(ctx, ms[0])] + BuildMethods(ctx, ms[1..])
  }

  /** `filterTestMethods`: the method set of class `cls`, kept in descending
      name order. It holds a node, with its verdict set, for exactly the
      enabled methods of the class, by name. */
  function FilterTestMethods(ctx: TestContext, cls: string, all: seq<TestMethod>): (r: seq<MethodNode>)
    ensures Sorted(r, NameOf, false)
    ensures Renderable(r)
    ensures forall n :: n in r ==> exists m :: m in all && m.enabled && ClassOf(m) == cls && n == BuildMethod(ctx, m)
    ensures forall m :: m in all && m.enabled && ClassOf(m) == cls ==> QualifiedName(m.id) in KeySet(r, NameOf)
    ensures var ms := ClassMembers(cls, all);
            forall i :: 0 <= i < |ms| && (forall j :: 0 <= j < i ==> QualifiedName(ms[j].id) != QualifiedName(ms[i].id)) ==>
              BuildMethod(ctx, ms[i]) in r
  {
    var built := BuildMethods(ctx, ClassMembers(cls, all));
    FilteredFirsts(ctx, cls, all);
    FilteredOrigins(ctx, cls, all);
    FilteredNames(ctx, cls, all);
    InsertAllKeeps(built, NameOf, false, (n: MethodNode) => n.result.Some?);
    InsertAll([], built, NameOf, false)
  }

  lemma FilteredFirsts(ctx: TestContext, cls: string, all: seq<TestMethod>)
    ensures var ms := ClassMembers(cls, all);
            forall i :: 0 <= i < |ms| && (forall j :: 0 <= j < i ==> QualifiedName(ms[j].id) != QualifiedName(ms[i].id)) ==>
              BuildMethod(ctx, ms[i]) in InsertAll([], BuildMethods(ctx, ms), NameOf, false)
  {
    var ms := ClassMembers(cls, all);
    InsertAllMappedFirst(ms, m => BuildMethod(ctx, m), (m: TestMethod) => QualifiedName(m.id), BuildMethods(ctx, ms), NameOf, false);
  }

  lemma FilteredOrigins(ctx: TestContext, cls: string, all: seq<TestMethod>)
    ensures forall n :: n in InsertAll([], BuildMethods(ctx, ClassMembers(cls, all)), NameOf, false) ==>
              exists m :: m in all && m.enabled && ClassOf(m) == cls && n == BuildMethod(ctx, m)
  {
    var members := ClassMembers(cls, all);
    InsertAllMapped(members, m => BuildMethod(ctx, m), (m: TestMethod) => QualifiedName(m.id),
                    BuildMethods(ctx, members), NameOf, false);
  }

  lemma FilteredNames(ctx: TestContext, cls: string, all: seq<TestMethod>)
    ensures forall m :: m in all && m.enabled && ClassOf(m) == cls ==>
              QualifiedName(m.id) in KeySet(InsertAll([], BuildMethods(ctx, ClassMembers(cls, all)), NameOf, false), NameOf)
  {
    var members := ClassMembers(cls, all);
    InsertAllMapped(members, m => BuildMethod(ctx, m), (m: TestMethod) => QualifiedName(m.id),
                    BuildMethods(ctx, members), NameOf, false);
  }

  /** The class node built for the class of `rep`. */
  function ClassFor(ctx: TestContext, all: seq<TestMethod>, rep: TestMethod): ClassNode
  {
    NewClass(ClassOf(rep), Some(FilterTestMethods(ctx, ClassOf(rep), all)))
  }

  function ClassesFor(ctx: TestContext, all: seq<TestMethod>, reps: seq<TestMethod>): (r: seq<ClassNode>)
    ensures |r| == |reps|
    ensures forall i :: 0 <= i < |reps| ==> r[i] == ClassFor(ctx, all, reps[i])
  {
    if |reps| == 0 then [] else [ClassFor(ctx, all, reps[0])] + ClassesFor(ctx, all, reps[1..])
  }

  lemma ClassesForNames(ctx: TestContext, all: seq<TestMethod>, reps: seq<TestMethod>)
    ensures KeySet(ClassesFor(ctx, all, reps), ClassNameOf) == KeySet(reps, ClassOf)
  {
    var cs := ClassesFor(ctx, all, reps);
    forall k | k in KeySet(reps, ClassOf) ensures k in KeySet(cs, ClassNameOf) {
      var i :| 0 <= i < |reps| && ClassOf(reps[i]) == k;
      assert ClassNameOf(cs[i]) == k;
    }
  }

  /** `buildTestClasses`: one class node per class that has a method in the
      four buckets (the first method seen of each class stands for it), kept
      in descending name order; each holds its class's enabled methods. */
  function BuildTestClasses(ctx: TestContext): (r: seq<ClassNode>)
    ensures Sorted(r, ClassNameOf, false)
    ensures forall m :: InContext(ctx, m) ==> ClassOf(m) in KeySet(r, ClassNameOf)
    ensures forall c :: c in r ==> exists m :: InContext(ctx, m) && ClassOf(m) == c.name
    ensures forall c :: c in r ==> c.methods == FilterTestMethods(ctx, c.name, AllMethods(ctx))
  {
    var all := AllMethods(ctx);
    var reps := FirstByKey(all, ClassOf, {});
    var classes := ClassesFor(ctx, all, reps);
    var r := InsertAll([], classes, ClassNameOf, false);
    BuiltClassNames(ctx, all, reps, classes, r);
    BuiltClassContents(ctx, all, reps, classes, r);
    r
  }

  lemma BuiltClassNames(ctx: TestContext, all: seq<TestMethod>, reps: seq<TestMethod>, classes: seq<ClassNode>, r: seq<ClassNode>)
    requires forall m :: m in all <==> InContext(ctx, m)
    requires reps == FirstByKey(all, ClassOf, {}) && classes == ClassesFor(ctx, all, reps)
    requires KeySet(r, ClassNameOf) == KeySet([], ClassNameOf) + KeySet(classes, ClassNameOf)
    ensures forall m :: InContext(ctx, m) ==> ClassOf(m) in KeySet(r, ClassNameOf)
  {
    assert KeySet([], ClassNameOf) == {};
    FirstByKeyKeys(all, ClassOf, {});
    ClassesForNames(ctx, all, reps);
    forall m | InContext(ctx, m) ensures ClassOf(m) in KeySet(r, ClassNameOf) {
      var i :| 0 <= i < |all| && all[i] == m;
      assert ClassOf(all[i]) in KeySet(all, ClassOf);
    }
  }

  lemma BuiltClassContents(ctx: TestContext, all: seq<TestMethod>, reps: seq<TestMethod>, classes: seq<ClassNode>, r: seq<ClassNode>)
    requires forall m :: m in all <==> InContext(ctx, m)
    requires reps == FirstByKey(all, ClassOf, {}) && classes == ClassesFor(ctx, all, reps)
    requires forall y :: y in r ==> y in [] || y in classes
    ensures forall c :: c in r ==> exists m :: InContext(ctx, m) && ClassOf(m) == c.name
    ensures forall c :: c in r ==> c.methods == FilterTestMethods(ctx, c.name, all)
  {
    forall c | c in r
      ensures (exists m :: InContext(ctx, m) && ClassOf(m) == c.name)
      ensures c.methods == FilterTestMethods(ctx, c.name, all)
    {
      var i :| 0 <= i < |classes| && classes[i] == c;
      assert reps[i] in all;
    }
  }

  /** Every class of a built test can be drawn: every method has its verdict. */
  predicate ClassesRenderable(cs: seq<ClassNode>)
  {
    forall c :: c in cs ==> Renderable(c.methods)
  }

  lemma ClassesRenderableTail(cs: seq<ClassNode>)
    requires ClassesRenderable(cs) && |cs| > 0
    ensures Renderable(cs[0].methods) && ClassesRenderable(cs[1..])
  {
    assert cs[0] in cs;
    TailShift(cs);
  }

  /** The constructor. Without a class set, the classes are built from the
      buckets; `preserveOrder` is read as Java reads a boolean. */
  function NewTest(ctx: TestContext, classes: Option<seq<ClassNode>>): (r: TestNode)
    ensures r.name == ctx.name && r.groups == ctx.includedGroups && r.parallel == ctx.parallel
    ensures r.preserveOrder <==> ParseBoolean(ctx.preserveOrder)
    ensures classes.Some? ==> r.classes == classes.value
    ensures classes.None? ==> r.classes == BuildTestClasses(ctx) && ClassesRenderable(r.classes)
  {
    var cs := match classes case None => BuildTestClasses(ctx) case Some(given) => given;
    TestNode(ctx.name, ParseBoolean(ctx.preserveOrder), ctx.parallel, cs, ctx.includedGroups)
  }

  /** A method that failed is shown as failed in its class, whatever other
      bucket it is also in; a disabled method is not shown at all. */
  lemma BuiltMethodVerdicts(ctx: TestContext, m: TestMethod, c: ClassNode)
    requires InContext(ctx, m) && c in BuildTestClasses(ctx) && c.name == ClassOf(m)
    ensures m.enabled ==> QualifiedName(m.id) in KeySet(c.methods, NameOf)
    ensures forall n :: n in c.methods ==> n.result.Some? && n.result.value == Failed ==>
              exists f :: f in ctx.failed && n.name == QualifiedName(f.id)
  {
    var all := AllMethods(ctx);
    forall n | n in c.methods && n.result.Some? && n.result.value == Failed
      ensures exists f :: f in ctx.failed && n.name == QualifiedName(f.id)
    {
      var f :| f in all && f.enabled && ClassOf(f) == c.name && n == BuildMethod(ctx, f);
    }
  }

  // ---------------------------------------------------------------------
  // Verdict queries and the test's verdict
  // ---------------------------------------------------------------------

  /** `hasPassed`/`hasSkips`/`hasFailures`: some class has a method with verdict `v`. */
  predicate AnyClassHas(cs: seq<ClassNode>, v: Verdict)
  {
    exists i :: 0 <= i < |cs| && HasResult(cs[i].methods, v)
  }

  /** `getPassed`/`getSkips`/`getFailures`: the classes whose own verdict is `v`. */
  function ClassesWithVerdict(cs: seq<ClassNode>, v: Verdict): (r: set<ClassNode>)
    ensures forall c :: c in r <==> c in cs && ClassVerdict(c) == v
  {
    set c | c in cs && ClassVerdict(c) == v
  }

  /** `setTestResult`: the class rule, applied to every method of every class. */
  function TestVerdict(t: TestNode): (r: Verdict)
    ensures r == Failed <==> AnyClassHas(t.classes, Failed)
    ensures r == Skipped <==> AnyClassHas(t.classes, Skipped) && !AnyClassHas(t.classes, Failed)
    ensures r == Passed <==> !AnyClassHas(t.classes, Skipped) && !AnyClassHas(t.classes, Failed)
  {
    Precedence(AnyClassHas(t.classes, Skipped), AnyClassHas(t.classes, Failed))
  }

  function ClassVerdicts(cs: seq<ClassNode>): (r: seq<Verdict>)
    ensures |r| == |cs|
    ensures forall i :: 0 <= i < |cs| ==> r[i] == ClassVerdict(cs[i])
  {
    if |cs| == 0 then [] else [ClassVerdict(cs[0])] + ClassVerdicts(cs[1..])
  }

  lemma AnyClassHasCons(cs: seq<ClassNode>, v: Verdict)
    requires |cs| > 0
    ensures AnyClassHas(cs, v) <==> HasResult(cs[0].methods, v) || AnyClassHas(cs[1..], v)
  {
    if AnyClassHas(cs, v) && !HasResult(cs[0].methods, v) {
      var i :| 0 <= i < |cs| && HasResult(cs[i].methods, v);
      assert cs[1..][i - 1] == cs[i];
    }
    if AnyClassHas(cs[1..], v) {
      var i :| 0 <= i < |cs[1..]| && HasResult(cs[1..][i].methods, v);
      assert cs[i + 1] == cs[1..][i];
    }
  }

  lemma {:induction false} AnyClassPrecedenceIsWorst(cs: seq<ClassNode>)
    ensures Precedence(AnyClassHas(cs, Skipped), AnyClassHas(cs, Failed)) == Worst(ClassVerdicts(cs))
  {
    if |cs| > 0 {
      AnyClassHasCons(cs, Skipped);
      AnyClassHasCons(cs, Failed);
      AnyClassPrecedenceIsWorst(cs[1..]);
      assert ClassVerdicts(cs)[1..] == ClassVerdicts(cs[1..]);
      PrecedenceOfEither(HasResult(cs[0].methods, Skipped), HasResult(cs[0].methods, Failed),
                         AnyClassHas(cs[1..], Skipped), AnyClassHas(cs[1..], Failed));
    }
  }

  /** Looking through the classes to their methods gives the same verdict as
      taking the worst of the classes' own verdicts. */
  lemma TestVerdictIsWorstOfClasses(t: TestNode)
    ensures TestVerdict(t) == Worst(ClassVerdicts(t.classes))
  {
    AnyClassPrecedenceIsWorst(t.classes);
  }

  /** For failures the two queries agree: some class failed exactly when some
      method failed. */
  lemma GetFailuresIffHasFailures(t: TestNode)
    ensures ClassesWithVerdict(t.classes, Failed) != {} <==> AnyClassHas(t.classes, Failed)
  {
    if AnyClassHas(t.classes, Failed) {
      var i :| 0 <= i < |t.classes| && HasResult(t.classes[i].methods, Failed);
      assert t.classes[i] in ClassesWithVerdict(t.classes, Failed);
    }
  }

  /** A class whose verdict is SKIPPED has a skipped method. */
  lemma GetSkipsImpliesHasSkips(t: TestNode)
    ensures ClassesWithVerdict(t.classes, Skipped) != {} ==> AnyClassHas(t.classes, Skipped)
  {
    if ClassesWithVerdict(t.classes, Skipped) != {} {
      var c :| c in ClassesWithVerdict(t.classes, Skipped);
      var i :| 0 <= i < |t.classes| && t.classes[i] == c;
    }
  }

  /** For passes the two queries disagree both ways: a class with a passed
      and a skipped method counts for `hasPassed` yet is listed only by
      `getSkips`; a class without methods is listed by `getPassed` but does
      not count for `hasPassed`. */
  lemma PassedQueriesDisagree(p: MethodNode, k: MethodNode)
    requires p.result == Some(Passed) && k.result == Some(Skipped)
    ensures var mixed := ClassNode("Mixed", [p, k]);
              && AnyClassHas([mixed], Passed)
              && ClassesWithVerdict([mixed], Passed) == {}
              && ClassesWithVerdict([mixed], Skipped) == {mixed}
    ensures var cs := [ClassNode("Empty", [])];
              !AnyClassHas(cs, Passed) && ClassesWithVerdict(cs, Passed) == {ClassNode("Empty", [])}
  {
    var mixed := ClassNode("Mixed", [p, k]);
    assert mixed.methods[0].result == Some(Passed) && mixed.methods[1].result == Some(Skipped);
    assert HasResult(mixed.methods, Passed) && HasResult(mixed.methods, Skipped);
    assert !HasResult(mixed.methods, Failed);
    assert AnyClassHas([mixed], Passed) by { assert [mixed][0] == mixed; }
    assert ClassVerdict(mixed) == Skipped;
    assert mixed in [mixed];
    var empty := ClassNode("Empty", []);
    assert ClassVerdict(empty) == Passed;
    assert empty in [empty];
  }

  /** A class all of whose reported methods are disabled still gets a node,
      with no methods. */
  lemma DisabledClassIsEmpty(ctx: TestContext, m: TestMethod)
    requires InContext(ctx, m)
    requires forall x :: InContext(ctx, x) && ClassOf(x) == ClassOf(m) ==> !x.enabled
    ensures exists c :: c in BuildTestClasses(ctx) && c.name == ClassOf(m) && c.methods == []
  {
    var r := BuildTestClasses(ctx);
    assert ClassOf(m) in KeySet(r, ClassNameOf);
    var i :| 0 <= i < |r| && ClassNameOf(r[i]) == ClassOf(m);
    var c := r[i];
    assert c in r;
    NoEnabledMethodsNoNodes(ctx, c.name, AllMethods(ctx));
  }

  /** The filter of a class none of whose methods is enabled is empty. */
  lemma NoEnabledMethodsNoNodes(ctx: TestContext, cls: string, all: seq<TestMethod>)
    requires forall x :: x in all && ClassOf(x) == cls ==> !x.enabled
    ensures FilterTestMethods(ctx, cls, all) == []
  {
    var r := FilterTestMethods(ctx, cls, all);
    forall n | n in r
      ensures false
    {
    }
    HeadIsMember(r);
  }

  // ---------------------------------------------------------------------
  // Identity
  // ---------------------------------------------------------------------

  predicate TestEquals(a: TestNode, b: TestNode)
  {
    a.name == b.name
  }

  /** `compareTo`: descending by name, zero exactly for equal nodes. */
  function TestCompareTo(a: TestNode, b: TestNode): (r: int)
    ensures r == 0 <==> TestEquals(a, b)
    ensures r < 0 <==> Less(b.name, a.name)
    ensures r > 0 <==> Less(a.name, b.name)
  {
    ReverseCompare(a.name, b.name)
  }

  function TestHashCode(t: TestNode): int
  {
    NodeHashCode(t.name)
  }

  // ---------------------------------------------------------------------
  // DOT
  // ---------------------------------------------------------------------

  /** The subgraph number with every `.` removed; a number has none. */
  function TestSuffix(n: nat): (r: string)
    ensures r == NatToString(n)
  {
    var s := NatToString(n);
    assert '.' !in s by {
      forall i | 0 <= i < |s| ensures s[i] != '.' { assert IsDigit(s[i]); }
    }
    RemoveAll(s, '.')
  }

  /** The text for one class of test `owner`: the class coloured by its
      verdict, the edge from the test to it, and the class's own subgraph. */
  function ClassEntry(owner: string, c: ClassNode, namer: Namer): string
    requires Renderable(c.methods)
  {
    NodeLine(c.name, DotStyle(ClassVerdict(c))) + Edge(owner, c.name) + Classes.ToDot(c, true, namer)
  }

  function ClassEntries(owner: string, cs: seq<ClassNode>, namer: Namer): (r: seq<string>)
    requires ClassesRenderable(cs)
    ensures |r| == |cs|
    ensures forall i :: 0 <= i < |cs| ==> r[i] == ClassEntry(owner, cs[i], namer)
  {
    if |cs| == 0 then [] else [ClassEntry(owner, cs[0], namer)] + ClassEntries(owner, cs[1..], namer)
  }

  /** The rendering loop: a class whose name has already been visited is skipped. */
  function VisitedClassEntries(owner: string, cs: seq<ClassNode>, visited: set<string>, namer: Namer): string
    requires ClassesRenderable(cs)
  {
    if |cs| == 0 then ""
    else if cs[0].name in visited then VisitedClassEntries(owner, cs[1..], visited, namer)
    else ClassEntry(owner, cs[0], namer) + VisitedClassEntries(owner, cs[1..], visited + {cs[0].name}, namer)
  }

  /** The loop renders exactly the first class of each not-yet-visited name, in order. */
  lemma {:induction false} VisitedClassEntriesAreFirstByName(owner: string, cs: seq<ClassNode>, visited: set<string>, namer: Namer)
    requires ClassesRenderable(cs)
    ensures ClassesRenderable(FirstByKey(cs, ClassNameOf, visited))
    ensures VisitedClassEntries(owner, cs, visited, namer) == Concat(ClassEntries(owner, FirstByKey(cs, ClassNameOf, visited), namer))
  {
    if |cs| > 0 {
      var tail := cs[1..];
      assert ClassesRenderable(tail) by {
        forall c | c in tail ensures Renderable(c.methods) { assert c in cs; }
      }
      if cs[0].name in visited {
        VisitedClassEntriesAreFirstByName(owner, tail, visited, namer);
      } else {
        var seen := visited + {cs[0].name};
        VisitedClassEntriesAreFirstByName(owner, tail, seen, namer);
        var rest := FirstByKey(tail, ClassNameOf, seen);
        var kept := [cs[0]] + rest;
        assert FirstByKey(cs, ClassNameOf, visited) == kept;
        assert ClassEntries(owner, kept, namer) == [ClassEntry(owner, cs[0], namer)] + ClassEntries(owner, rest, namer);
        ConcatAppend([ClassEntry(owner, cs[0], namer)], ClassEntries(owner, rest, namer));
      }
    }
  }

  /** The inside of the test's graph: its classes, then its included groups. */
  function Body(t: TestNode, namer: Namer): string
    requires ClassesRenderable(t.classes)
  {
    VisitedClassEntries(t.name, t.classes, {}, namer) + Concat(GroupFragments(t.name, t.groups))
  }

  /** `toDot(asSubgraph)`. Nested, a test without classes and groups renders
      as nothing; otherwise its classes are drawn, then its included groups. */
  function ToDot(t: TestNode, asSubgraph: bool, namer: Namer): (r: string)
    requires ClassesRenderable(t.classes)
    ensures r == "" <==> asSubgraph && |t.classes| == 0 && |t.groups| == 0
    ensures !asSubgraph ==> StartsWith(r, GraphHeader + " {\n")
    ensures asSubgraph && r != "" ==> StartsWith(r, "subgraph test")
    ensures r != "" ==> EndsWith(r, "}\n")
  {
    if asSubgraph && |t.classes| == 0 && |t.groups| == 0 then ""
    else
      var suffix := TestSuffix(namer(t.name));
      RenderedBody(asSubgraph, "subgraph test", suffix, Body(t, namer));
      Block(Header(asSubgraph, "subgraph test", suffix), Body(t, namer))
  }

  /** For a real class set (no two classes share a name), every class is
      drawn once, in iteration order, followed by every included group. */
  lemma ToDotDrawsEveryClass(t: TestNode, asSubgraph: bool, namer: Namer)
    requires ClassesRenderable(t.classes) && DistinctKeys(t.classes, ClassNameOf)
    requires !asSubgraph || |t.classes| > 0 || |t.groups| > 0
    ensures ToDot(t, asSubgraph, namer) ==
              Block(Header(asSubgraph, "subgraph test", NatToString(namer(t.name))),
                    Concat(ClassEntries(t.name, t.classes, namer)) + Concat(GroupFragments(t.name, t.groups)))
  {
    FirstByKeyOfDistinct(t.classes, ClassNameOf, {});
    VisitedClassEntriesAreFirstByName(t.name, t.classes, {}, namer);
  }

  /** At the top level, a test renders as the trivial graph exactly when it
      has neither classes nor groups. */
  lemma TopLevelEmptyIffNothingToDraw(t: TestNode, namer: Namer)
    requires ClassesRenderable(t.classes)
    ensures ToDot(t, false, namer) == EmptyGraph <==> |t.classes| == 0 && |t.groups| == 0
  {
    var body := Body(t, namer);
    BlockIsEmptyGraph(body);
    if |t.classes| > 0 {
      var c := t.classes[0];
      assert c in t.classes;
      var first := ClassEntry(t.name, c, namer);
      assert VisitedClassEntries(t.name, t.classes, {}, namer) ==
             first + VisitedClassEntries(t.name, t.classes[1..], {} + {c.name}, namer);
      assert |first| > 0;
    } else if |t.groups| > 0 {
      var frags := GroupFragments(t.name, t.groups);
      assert Concat(frags) == frags[0] + Concat(frags[1..]);
      assert |frags[0]| > 0;
    }
  }
}
