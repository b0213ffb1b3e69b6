/** The reporter's output pass (`DependencyReportingListener.generateReport`)
    as a plan of file-system actions: which artifacts are written for which
    nodes under which paths, as MODE and OUTPUT select them, which DOT texts
    are skipped as empty, and which PNG renderings and deletions follow. The
    plan is computed, not performed: writing, rendering and deleting are the
    host's business. */
module Listener {
  import opened Outcomes
  import opened Strings
  import opened Collections
  import opened Dot
  import opened Options
  import Methods
  import Classes
  import Tests
  import Suites

  // ---------------------------------------------------------------------
  // MODE: which levels of the tree get their own artifacts
  // ---------------------------------------------------------------------

  datatype Level = SuiteLevel | TestLevel | ClassLevel | MethodLevel

  /** How far down the tree a level sits. */
  function Depth(l: Level): nat
  {
    match l
    case SuiteLevel => 0
    case TestLevel => 1
    case ClassLevel => 2
    case MethodLevel => 3
  }

  /** The MODE value that names a level. */
  function LevelName(l: Level): string
  {
    match l
    case SuiteLevel => "suites"
    case TestLevel => "tests"
    case ClassLevel => "classes"
    case MethodLevel => "methods"
  }

  /** The MODE values for which a level's nodes get artifacts, as each
      output loop lists them. */
  function ModeValues(l: Level): seq<string>
  {
    match l
    case SuiteLevel => ["all", "suites"]
    case TestLevel => ["all", "suites", "tests"]
    case ClassLevel => ["all", "suites", "tests", "classes"]
    case MethodLevel => ["all", "suites", "tests", "classes", "methods"]
  }

  predicate Emits(mode: string, l: Level)
  {
    mode in ModeValues(l)
  }

  /** A MODE naming a level selects that level and every level below it;
      "all" selects every level, and "groups" or "configuration" none. */
  lemma EmitsMeaning(mode: string, l: Level)
    ensures Emits(mode, l) <==> mode == "all" || exists k: Level :: LevelName(k) == mode && Depth(k) <= Depth(l)
  {
    if mode != "all" && exists k: Level :: LevelName(k) == mode && Depth(k) <= Depth(l) {
      var k: Level :| LevelName(k) == mode && Depth(k) <= Depth(l);
      assert Emits(mode, l) by {
        match k
        case SuiteLevel =>
        case TestLevel =>
        case ClassLevel =>
        case MethodLevel =>
      }
    }
    if Emits(mode, l) && mode != "all" {
      var k := match mode
        case "suites" => SuiteLevel
        case "tests" => TestLevel
        case "classes" => ClassLevel
        case _ => MethodLevel;
      assert LevelName(k) == mode && Depth(k) <= Depth(l);
    }
  }

  /** Once a level is emitted, so is every level below it. */
  lemma EmitsDownward(mode: string, a: Level, b: Level)
    requires Emits(mode, a) && Depth(a) <= Depth(b)
    ensures Emits(mode, b)
  {
    EmitsMeaning(mode, a);
    EmitsMeaning(mode, b);
  }

  /** With MODE "groups" or "configuration" no node gets artifacts. */
  lemma UnusedModesEmitNothing(l: Level)
    ensures !Emits("groups", l) && !Emits("configuration", l)
  {
  }

  // ---------------------------------------------------------------------
  // OUTPUT: which formats are produced
  // ---------------------------------------------------------------------

  predicate WantsJson(output: string)
  {
    output in ["json", "all"]
  }

  predicate WantsYaml(output: string)
  {
    output in ["yaml", "all"]
  }

  /** DOT files are written for "dot", and also for "png", which renders from them. */
  predicate WantsDot(output: string)
  {
    output in ["dot", "png", "all"]
  }

  predicate WantsPng(output: string)
  {
    output in ["png", "all"]
  }

  /** The DOT files survive the PNG step unless DOT itself was not asked for. */
  predicate KeepsDot(output: string)
  {
    output in ["dot", "all"]
  }

  /** For every OUTPUT value: "all" produces every format; each other value
      its own format alone, except that "png" also writes the DOT files it
      renders from and then deletes them. */
  lemma OutputFormats(output: string)
    requires output in Values(Output)
    ensures WantsPng(output) ==> WantsDot(output)
    ensures output == "all" <==> WantsJson(output) && WantsYaml(output) && WantsPng(output) && KeepsDot(output)
    ensures WantsJson(output) && !WantsYaml(output) ==> output == "json" && !WantsDot(output)
    ensures WantsYaml(output) && !WantsJson(output) ==> output == "yaml" && !WantsDot(output)
    ensures WantsPng(output) && !KeepsDot(output) <==> output == "png"
    ensures WantsDot(output) && !WantsPng(output) ==> output == "dot" && KeepsDot(output)
  {
  }

  // ---------------------------------------------------------------------
  // DOT files that are not worth writing
  // ---------------------------------------------------------------------

  /** `writeDotFile` skips an empty text and the trivial graph `digraph g {\n}\n`. */
  predicate ShouldWriteDot(text: string)
  {
    text != "" && text != EmptyGraph
  }

  /** Which nodes' DOT files are written: every class's, suite's and test's
      with classes or groups; a method's only when it has dependencies. */
  lemma NodeDotWritten(m: Methods.MethodNode, c: Classes.ClassNode, t: Tests.TestNode, s: Suites.SuiteNode, namer: Namer)
    requires Classes.Renderable(c.methods) && Tests.ClassesRenderable(t.classes) && Suites.TestsRenderable(s.tests)
    ensures ShouldWriteDot(Methods.ToDot(m, false, namer)) <==> Methods.HasDependencies(m)
    ensures ShouldWriteDot(Classes.ToDot(c, false, namer))
    ensures ShouldWriteDot(Tests.ToDot(t, false, namer)) <==> |t.classes| > 0 || |t.groups| > 0
    ensures ShouldWriteDot(Suites.ToDot(s, false, namer))
  {
    Methods.TopLevelEmptyIffNoDependencies(m, namer);
    Classes.TopLevelNeverEmptyGraph(c, namer);
    Tests.TopLevelEmptyIffNothingToDraw(t, namer);
    Suites.TopLevelNeverEmptyGraph(s, namer);
  }

  // ---------------------------------------------------------------------
  // Paths
  // ---------------------------------------------------------------------

  /** Everything goes under `<outputDirectory>/DependencyReporter`. */
  function TopDir(outputDirectory: string): string
  {
    outputDirectory + "/DependencyReporter"
  }

  /** A suite's or test's file name is its name with the spaces removed. */
  function FileName(name: string): (r: string)
    ensures ' ' !in r
    ensures ' ' !in name ==> r == name
  {
    RemoveAll(name, ' ')
  }

  /** The path of a node's artifacts, without the extension. A class keeps its
      name as is; a method is filed under its class name, a dot, and its own
      name, which for a method node is already qualified by its class. */
  function SuiteBase(top: string, name: string): (r: string)
    ensures StartsWith(r, top + "/suites/") && ' ' !in r[|top + "/suites/"|..]
    ensures ' ' !in name ==> r == top + "/suites/" + name
  {
    top + "/suites/" + FileName(name)
  }

  function TestBase(top: string, name: string): (r: string)
    ensures StartsWith(r, top + "/tests/") && ' ' !in r[|top + "/tests/"|..]
    ensures ' ' !in name ==> r == top + "/tests/" + name
  {
    top + "/tests/" + FileName(name)
  }

  function ClassBase(top: string, name: string): string
  {
    top + "/classes/" + name
  }

  function MethodBase(top: string, className: string, methodName: string): string
  {
    top + "/methods/" + className + "." + methodName
  }

  /** Each level writes into its own directory, so artifacts of different
      levels never share a path. */
  lemma LevelPathsDistinct(top: string, suite: string, test: string, cls: string, className: string, methodName: string)
    ensures SuiteBase(top, suite) != TestBase(top, test)
    ensures SuiteBase(top, suite) != ClassBase(top, cls)
    ensures SuiteBase(top, suite) != MethodBase(top, className, methodName)
    ensures TestBase(top, test) != ClassBase(top, cls)
    ensures TestBase(top, test) != MethodBase(top, className, methodName)
    ensures ClassBase(top, cls) != MethodBase(top, className, methodName)
  {
    var k := |top| + 1;
    assert SuiteBase(top, suite)[k] == 's';
    assert TestBase(top, test)[k] == 't';
    assert ClassBase(top, cls)[k] == 'c';
    assert MethodBase(top, className, methodName)[k] == 'm';
  }

  /** Within a level, two suites (or two tests) share a path exactly when their
      names agree once the spaces are removed; two classes share one exactly
      when their names are equal. */
  lemma SameLevelPaths(top: string, a: string, b: string)
    ensures SuiteBase(top, a) == SuiteBase(top, b) <==> FileName(a) == FileName(b)
    ensures TestBase(top, a) == TestBase(top, b) <==> FileName(a) == FileName(b)
    ensures ClassBase(top, a) == ClassBase(top, b) <==> a == b
  {
    PrefixCancels(top + "/suites/", FileName(a), FileName(b));
    PrefixCancels(top + "/tests/", FileName(a), FileName(b));
    PrefixCancels(top + "/classes/", a, b);
  }

  lemma PrefixCancels(p: string, x: string, y: string)
    ensures p + x == p + y <==> x == y
  {
    if p + x == p + y {
      assert x == (p + x)[|p|..];
      assert y == (p + y)[|p|..];
    }
  }

  /** The PNG file rendered from a DOT file: ".dot" replaced by ".png". */
  function PngPath(dotPath: string): (r: string)
    ensures EndsWith(r, ".png")
  {
    var r := RemoveEnd(dotPath, ".dot") + ".png";
    assert r[|r| - 4..] == ".png";
    r
  }

  lemma PngPathOfDot(base: string)
    ensures PngPath(base + ".dot") == base + ".png"
  {
    RemoveEndOfAppend(base, ".dot");
  }

  /** The Graphviz command line that renders one DOT file, left to right, as PNG. */
  function PngCommand(dotPath: string): string
  {
    "/usr/local/bin/dot " + dotPath + " -Grankdir=LR -Tpng -o " + PngPath(dotPath)
  }

  /** The command for `x.dot` reads that file and writes `x.png`. */
  lemma PngCommandOfDot(base: string)
    ensures PngCommand(base + ".dot") == "/usr/local/bin/dot " + base + ".dot" + " -Grankdir=LR -Tpng -o " + base + ".png"
  {
    PngPathOfDot(base);
  }

  // ---------------------------------------------------------------------
  // Actions
  // ---------------------------------------------------------------------

  /** Whether an artifact belongs to the whole report or to one node. */
  datatype Scope = Report | Node(level: Level)

  /** One step of the output pass. JSON and YAML texts come from a serializer
      that is not modelled, so only their paths are recorded. */
  datatype Action =
    | ClearDirectory(path: string)
    | WriteDot(scope: Scope, path: string, text: string)
    | WriteJson(scope: Scope, path: string)
    | WriteYaml(scope: Scope, path: string)
    | RenderPng(command: string)
    | DeleteFile(path: string)

  /** The parsed MODE and OUTPUT values. */
  datatype Config = Config(mode: string, output: string)

  /** An action that writes an artifact. */
  predicate IsWrite(a: Action)
  {
    a.WriteDot? || a.WriteJson? || a.WriteYaml?
  }

  /** An action OUTPUT allows: each format only when asked for, a DOT file only
      when it is worth writing, deletions only of intermediate DOT files. */
  predicate FormatAllowed(output: string, a: Action)
  {
    match a
    case ClearDirectory(_) => true
    case WriteDot(_, _, text) => WantsDot(output) && ShouldWriteDot(text)
    case WriteJson(_, _) => WantsJson(output)
    case WriteYaml(_, _) => WantsYaml(output)
    case RenderPng(_) => WantsPng(output)
    case DeleteFile(_) => WantsPng(output) && !KeepsDot(output)
  }

  /** An action the configuration allows: OUTPUT allows its format and, for a
      node's artifact, MODE selects the node's level. */
  predicate Permitted(cfg: Config, a: Action)
  {
    && FormatAllowed(cfg.output, a)
    && (a.WriteDot? || a.WriteJson? || a.WriteYaml? ==> (a.scope.Node? ==> Emits(cfg.mode, a.scope.level)))
  }

  /** The three artifacts of one node (or of the whole report), in the order
      DOT, JSON, YAML, each as OUTPUT allows. */
  function Artifacts(output: string, scope: Scope, base: string, dot: string): (r: seq<Action>)
    ensures forall a :: a in r ==> FormatAllowed(output, a) && IsWrite(a) && a.scope == scope
    ensures WriteDot(scope, base + ".dot", dot) in r <==> WantsDot(output) && ShouldWriteDot(dot)
    ensures WriteJson(scope, base + ".json") in r <==> WantsJson(output)
    ensures WriteYaml(scope, base + ".yaml") in r <==> WantsYaml(output)
    ensures forall a :: a in r ==> a in [WriteDot(scope, base + ".dot", dot), WriteJson(scope, base + ".json"), WriteYaml(scope, base + ".yaml")]
  {
    (if WantsDot(output) && ShouldWriteDot(dot) then [WriteDot(scope, base + ".dot", dot)] else [])
    + (if WantsJson(output) then [WriteJson(scope, base + ".json")] else [])
    + (if WantsYaml(output) then [WriteYaml(scope, base + ".yaml")] else [])
  }

  // ---------------------------------------------------------------------
  // The walk over the tree
  // ---------------------------------------------------------------------

  function MethodArtifacts(cfg: Config, top: string, className: string, m: Methods.MethodNode, namer: Namer): seq<Action>
  {
    Artifacts(cfg.output, Node(MethodLevel), MethodBase(top, className, m.name), Methods.ToDot(m, false, namer))
  }

  /** The artifacts of every method of a class, in iteration order. */
  function MethodsLoop(cfg: Config, top: string, className: string, ms: seq<Methods.MethodNode>, namer: Namer): (r: seq<Action>)
    ensures forall a :: a in r <==> exists m :: m in ms && a in MethodArtifacts(cfg, top, className, m, namer)
  {
    if |ms| == 0 then []
    else
      var rest := MethodsLoop(cfg, top, className, ms[1..], namer);
      TailShift(ms);
      ConsMembers(ms, MethodArtifacts(cfg, top, className, ms[0], namer), rest, (m, a) => a in MethodArtifacts(cfg, top, className, m, namer));
      MethodArtifacts(cfg, top, className, ms[0], namer) + rest
  }

  /** `doOutputForMethodInfo`: nothing unless MODE selects methods. */
  function MethodsActions(cfg: Config, top: string, c: Classes.ClassNode, namer: Namer): (r: seq<Action>)
    ensures forall a :: a in r <==>
              Emits(cfg.mode, MethodLevel) && exists m :: m in c.methods && a in MethodArtifacts(cfg, top, c.name, m, namer)
    ensures forall a :: a in r ==> Permitted(cfg, a) && IsWrite(a)
  {
    if !Emits(cfg.mode, MethodLevel) then [] else MethodsLoop(cfg, top, c.name, c.methods, namer)
  }

  function ClassArtifacts(cfg: Config, top: string, c: Classes.ClassNode, namer: Namer): seq<Action>
    requires Classes.Renderable(c.methods)
  {
    Artifacts(cfg.output, Node(ClassLevel), ClassBase(top, c.name), Classes.ToDot(c, false, namer))
  }

  /** `doOutputForTestClassInfo` for one class: its own artifacts when MODE
      selects classes, then its methods'. */
  function ClassActions(cfg: Config, top: string, c: Classes.ClassNode, namer: Namer): (r: seq<Action>)
    requires Classes.Renderable(c.methods)
    ensures forall a :: a in r <==>
              (Emits(cfg.mode, ClassLevel) && a in ClassArtifacts(cfg, top, c, namer)) || a in MethodsActions(cfg, top, c, namer)
    ensures forall a :: a in r ==> Permitted(cfg, a) && IsWrite(a)
  {
    (if Emits(cfg.mode, ClassLevel) then ClassArtifacts(cfg, top, c, namer) else [])
    + MethodsActions(cfg, top, c, namer)
  }

  function ClassesLoop(cfg: Config, top: string, cs: seq<Classes.ClassNode>, namer: Namer): (r: seq<Action>)
    requires Tests.ClassesRenderable(cs)
    ensures forall a :: a in r <==> exists c :: c in cs && a in ClassActions(cfg, top, c, namer)
    ensures forall a :: a in r ==> Permitted(cfg, a) && IsWrite(a)
  {
    if |cs| == 0 then []
    else
      Tests.ClassesRenderableTail(cs);
      var rest := ClassesLoop(cfg, top, cs[1..], namer);
      TailShift(cs);
      ConsMembers(cs, ClassActions(cfg, top, cs[0], namer), rest, (c, a) => c in cs && a in ClassActions(cfg, top, c, namer));
      ClassActions(cfg, top, cs[0], namer) + rest
  }

  function TestArtifacts(cfg: Config, top: string, t: Tests.TestNode, namer: Namer): seq<Action>
    requires Tests.ClassesRenderable(t.classes)
  {
    Artifacts(cfg.output, Node(TestLevel), TestBase(top, t.name), Tests.ToDot(t, false, namer))
  }

  /** `doOutputForTestInfo` for one test: its own artifacts when MODE selects
      tests, then its classes'. */
  function TestActions(cfg: Config, top: string, t: Tests.TestNode, namer: Namer): (r: seq<Action>)
    requires Tests.ClassesRenderable(t.classes)
    ensures forall a :: a in r <==>
              (Emits(cfg.mode, TestLevel) && a in TestArtifacts(cfg, top, t, namer)) || a in ClassesLoop(cfg, top, t.classes, namer)
    ensures forall a :: a in r ==> Permitted(cfg, a) && IsWrite(a)
  {
    (if Emits(cfg.mode, TestLevel) then TestArtifacts(cfg, top, t, namer) else [])
    + ClassesLoop(cfg, top, t.classes, namer)
  }

  function TestsLoop(cfg: Config, top: string, ts: seq<Tests.TestNode>, namer: Namer): (r: seq<Action>)
    requires Suites.TestsRenderable(ts)
    ensures forall a :: a in r <==> exists t :: t in ts && a in TestActions(cfg, top, t, namer)
    ensures forall a :: a in r ==> Permitted(cfg, a) && IsWrite(a)
  {
    if |ts| == 0 then []
    else
      Suites.TestsRenderableTail(ts);
      var rest := TestsLoop(cfg, top, ts[1..], namer);
      TailShift(ts);
      ConsMembers(ts, TestActions(cfg, top, ts[0], namer), rest, (t, a) => t in ts && a in TestActions(cfg, top, t, namer));
      TestActions(cfg, top, ts[0], namer) + rest
  }

  function SuiteArtifacts(cfg: Config, top: string, s: Suites.SuiteNode, namer: Namer): seq<Action>
    requires Suites.TestsRenderable(s.tests)
  {
    Artifacts(cfg.output, Node(SuiteLevel), SuiteBase(top, s.name), Suites.ToDot(s, false, namer))
  }

  /** `generateOutputForTestSuiteInfo` for one suite: its own artifacts when
      MODE selects suites, then its tests'. */
  function SuiteActions(cfg: Config, top: string, s: Suites.SuiteNode, namer: Namer): (r: seq<Action>)
    requires Suites.TestsRenderable(s.tests)
    ensures forall a :: a in r <==>
              (Emits(cfg.mode, SuiteLevel) && a in SuiteArtifacts(cfg, top, s, namer)) || a in TestsLoop(cfg, top, s.tests, namer)
    ensures forall a :: a in r ==> Permitted(cfg, a) && IsWrite(a)
  {
    (if Emits(cfg.mode, SuiteLevel) then SuiteArtifacts(cfg, top, s, namer) else [])
    + TestsLoop(cfg, top, s.tests, namer)
  }

  /** Every suite's tests can be drawn. */
  predicate SuitesRenderable(ss: seq<Suites.SuiteNode>)
  {
    forall s :: s in ss ==> Suites.TestsRenderable(s.tests)
  }

  lemma SuitesRenderableTail(ss: seq<Suites.SuiteNode>)
    requires SuitesRenderable(ss) && |ss| > 0
    ensures Suites.TestsRenderable(ss[0].tests) && SuitesRenderable(ss[1..])
  {
    assert ss[0] in ss;
    TailShift(ss);
  }

  function SuitesLoop(cfg: Config, top: string, ss: seq<Suites.SuiteNode>, namer: Namer): (r: seq<Action>)
    requires SuitesRenderable(ss)
    ensures forall a :: a in r <==> exists s :: s in ss && a in SuiteActions(cfg, top, s, namer)
    ensures forall a :: a in r ==> Permitted(cfg, a) && IsWrite(a)
  {
    if |ss| == 0 then []
    else
      SuitesRenderableTail(ss);
      var rest := SuitesLoop(cfg, top, ss[1..], namer);
      TailShift(ss);
      ConsMembers(ss, SuiteActions(cfg, top, ss[0], namer), rest, (s, a) => s in ss && a in SuiteActions(cfg, top, s, namer));
      SuiteActions(cfg, top, ss[0], namer) + rest
  }

  /** A class's own artifacts end up in the plan when MODE selects classes,
      wherever the class sits in the tree. */
  lemma ClassArtifactsPlanned(cfg: Config, top: string, ss: seq<Suites.SuiteNode>, namer: Namer,
                              i: int, j: int, k: int, a: Action)
    requires SuitesRenderable(ss)
    requires 0 <= i < |ss| && 0 <= j < |ss[i].tests| && 0 <= k < |ss[i].tests[j].classes|
    requires Emits(cfg.mode, ClassLevel)
    requires ss[i] in ss && ss[i].tests[j] in ss[i].tests && ss[i].tests[j].classes[k] in ss[i].tests[j].classes
    requires a in ClassArtifacts(cfg, top, ss[i].tests[j].classes[k], namer)
    ensures a in SuitesLoop(cfg, top, ss, namer)
  {
    var s := ss[i];
    var t := s.tests[j];
    assert a in ClassActions(cfg, top, t.classes[k], namer);
    assert a in ClassesLoop(cfg, top, t.classes, namer);
    assert a in TestActions(cfg, top, t, namer);
    assert a in TestsLoop(cfg, top, s.tests, namer);
    assert a in SuiteActions(cfg, top, s, namer);
  }

  /** Likewise a method's artifacts when MODE selects methods. */
  lemma MethodArtifactsPlanned(cfg: Config, top: string, ss: seq<Suites.SuiteNode>, namer: Namer,
                               i: int, j: int, k: int, l: int, a: Action)
    requires SuitesRenderable(ss)
    requires 0 <= i < |ss| && 0 <= j < |ss[i].tests| && 0 <= k < |ss[i].tests[j].classes|
    requires 0 <= l < |ss[i].tests[j].classes[k].methods|
    requires Emits(cfg.mode, MethodLevel)
    requires ss[i] in ss && ss[i].tests[j] in ss[i].tests && ss[i].tests[j].classes[k] in ss[i].tests[j].classes
    requires a in MethodArtifacts(cfg, top, ss[i].tests[j].classes[k].name, ss[i].tests[j].classes[k].methods[l], namer)
    ensures a in SuitesLoop(cfg, top, ss, namer)
  {
    var s := ss[i];
    var t := s.tests[j];
    var c := t.classes[k];
    assert a in MethodsActions(cfg, top, c, namer);
    assert a in ClassActions(cfg, top, c, namer);
    assert a in ClassesLoop(cfg, top, t.classes, namer);
    assert a in TestActions(cfg, top, t, namer);
    assert a in TestsLoop(cfg, top, s.tests, namer);
    assert a in SuiteActions(cfg, top, s, namer);
  }

  // ---------------------------------------------------------------------
  // The whole report
  // ---------------------------------------------------------------------

  /** The nested rendering of every suite, in set order. */
  function SuiteSubgraphs(ss: seq<Suites.SuiteNode>, namer: Namer): (r: seq<string>)
    requires SuitesRenderable(ss)
    ensures |r| == |ss|
    ensures forall i :: 0 <= i < |ss| ==> r[i] == Suites.ToDot(ss[i], true, namer)
  {
    if |ss| == 0 then []
    else
      SuitesRenderableTail(ss);
      [Suites.ToDot(ss[0], true, namer)] + SuiteSubgraphs(ss[1..], namer)
  }

  /** The combined graph: every suite as a subgraph of one `digraph g`. */
  function CombinedDot(ss: seq<Suites.SuiteNode>, namer: Namer): (r: string)
    requires SuitesRenderable(ss)
    ensures StartsWith(r, GraphHeader + " {\n") && EndsWith(r, "}\n")
  {
    BlockShape(GraphHeader, Concat(SuiteSubgraphs(ss, namer)));
    Block(GraphHeader, Concat(SuiteSubgraphs(ss, namer)))
  }

  /** The combined graph is skipped exactly when no suite has a test or a
      child suite, in particular when there are no suites. */
  lemma CombinedDotSkipped(ss: seq<Suites.SuiteNode>, namer: Namer)
    requires SuitesRenderable(ss)
    ensures !ShouldWriteDot(CombinedDot(ss, namer)) <==>
              forall i :: 0 <= i < |ss| ==> |ss[i].tests| == 0 && |ss[i].childSuites| == 0
  {
    var parts := SuiteSubgraphs(ss, namer);
    BlockShape(GraphHeader, Concat(parts));
    BlockIsEmptyGraph(Concat(parts));
    ConcatEmpty(parts);
    assert forall i :: 0 <= i < |ss| ==> ss[i] in ss;
  }

  /** The three report files at the given paths, in the order JSON, YAML,
      DOT, each as OUTPUT allows. */
  function ReportFiles(output: string, json: string, yaml: string, dotPath: string, dot: string): (r: seq<Action>)
    ensures forall a :: a in r ==> FormatAllowed(output, a) && IsWrite(a) && a.scope == Report && a.path in [json, yaml, dotPath]
    ensures WriteJson(Report, json) in r <==> WantsJson(output)
    ensures WriteYaml(Report, yaml) in r <==> WantsYaml(output)
    ensures WriteDot(Report, dotPath, dot) in r <==> WantsDot(output) && ShouldWriteDot(dot)
  {
    (if WantsJson(output) then [WriteJson(Report, json)] else [])
    + (if WantsYaml(output) then [WriteYaml(Report, yaml)] else [])
    + (if WantsDot(output) && ShouldWriteDot(dot) then [WriteDot(Report, dotPath, dot)] else [])
  }

  /** `generateOutput`'s report files, in the order JSON, YAML, DOT. */
  function ReportActions(cfg: Config, top: string, ss: seq<Suites.SuiteNode>, namer: Namer): (r: seq<Action>)
    requires SuitesRenderable(ss)
    ensures forall a :: a in r ==> Permitted(cfg, a) && IsWrite(a) && a.scope == Report
                                   && a.path in [top + "/report.json", top + "/report.yaml", top + "/report.dot"]
    ensures WriteJson(Report, top + "/report.json") in r <==> WantsJson(cfg.output)
    ensures WriteYaml(Report, top + "/report.yaml") in r <==> WantsYaml(cfg.output)
    ensures WriteDot(Report, top + "/report.dot", CombinedDot(ss, namer)) in r <==>
              WantsDot(cfg.output) && ShouldWriteDot(CombinedDot(ss, namer))
  {
    ReportFiles(cfg.output, top + "/report.json", top + "/report.yaml", top + "/report.dot", CombinedDot(ss, namer))
  }

  /** The DOT files the actions write, in the order they are written. */
  function DotPaths(actions: seq<Action>): (r: seq<string>)
    ensures forall p :: p in r <==> exists i :: 0 <= i < |actions| && actions[i].WriteDot? && actions[i].path == p
  {
    if |actions| == 0 then []
    else
      var rest := DotPaths(actions[1..]);
      assert forall i :: 1 <= i < |actions| ==> actions[i] == actions[1..][i - 1];
      (if actions[0].WriteDot? then [actions[0].path] else []) + rest
  }

  /** Each DOT file rendered, and deleted right after unless it is kept. */
  function PngSteps(keepDot: bool, paths: seq<string>): (r: seq<Action>)
    ensures forall a :: a in r ==> a.RenderPng? || (a.DeleteFile? && !keepDot)
    ensures forall a :: a in r && a.RenderPng? ==> exists p :: p in paths && a.command == PngCommand(p)
    ensures forall a :: a in r && a.DeleteFile? ==> a.path in paths
    ensures forall p :: p in paths ==> RenderPng(PngCommand(p)) in r
    ensures forall p :: p in paths ==> (DeleteFile(p) in r <==> !keepDot)
  {
    if |paths| == 0 then []
    else
      var head := [RenderPng(PngCommand(paths[0]))] + (if keepDot then [] else [DeleteFile(paths[0])]);
      var rest := PngSteps(keepDot, paths[1..]);
      TailShift(paths);
      assert paths == [paths[0]] + paths[1..];
      head + rest
  }

  /** `generatePngFromDotFiles`: when OUTPUT asks for PNG, each DOT file written
      is rendered and then, unless OUTPUT asks for DOT too, deleted. */
  function PngActions(cfg: Config, paths: seq<string>): (r: seq<Action>)
    ensures forall a :: a in r ==> FormatAllowed(cfg.output, a) && (a.RenderPng? || a.DeleteFile?)
    ensures forall a :: a in r && a.RenderPng? ==> exists p :: p in paths && a.command == PngCommand(p)
    ensures forall a :: a in r && a.DeleteFile? ==> a.path in paths
    ensures forall p :: p in paths ==>
              (RenderPng(PngCommand(p)) in r <==> WantsPng(cfg.output))
              && (DeleteFile(p) in r <==> WantsPng(cfg.output) && !KeepsDot(cfg.output))
  {
    if WantsPng(cfg.output) then PngSteps(KeepsDot(cfg.output), paths) else []
  }

  /** The output pass for a configuration: clear the output directory, write
      the report files, walk the suites, then render the DOT files written. */
  function Actions(cfg: Config, top: string, ss: seq<Suites.SuiteNode>, namer: Namer): (r: seq<Action>)
    requires SuitesRenderable(ss)
    ensures |r| > 0 && r[0] == ClearDirectory(top)
    ensures forall a :: a in r ==> Permitted(cfg, a)
    ensures forall a :: a in ReportActions(cfg, top, ss, namer) ==> a in r
    ensures forall a :: a in SuitesLoop(cfg, top, ss, namer) ==> a in r
    ensures forall a :: a in r && a.DeleteFile? ==> exists b :: b in r && b.WriteDot? && b.path == a.path
    ensures forall b :: b in r && b.WriteDot? && WantsPng(cfg.output) ==> RenderPng(PngCommand(b.path)) in r
    ensures forall b :: b in r && b.WriteDot? && WantsPng(cfg.output) && !KeepsDot(cfg.output) ==> DeleteFile(b.path) in r
    ensures forall a :: a in r && a.ClearDirectory? ==> a == ClearDirectory(top)
  {
    var written := ReportActions(cfg, top, ss, namer) + SuitesLoop(cfg, top, ss, namer);
    var png := PngActions(cfg, DotPaths(written));
    PngFollowsWrites(cfg, written);
    PngCoversWrites(cfg, written);
    var r := [ClearDirectory(top)] + written + png;
    PlanShape(cfg, top, written, png, r);
    r
  }

  /** Every DOT file written is rendered when OUTPUT asks for PNG, and deleted
      when OUTPUT asks for PNG but not DOT. */
  lemma PngCoversWrites(cfg: Config, written: seq<Action>)
    ensures forall b :: b in written && b.WriteDot? && WantsPng(cfg.output) ==>
              RenderPng(PngCommand(b.path)) in PngActions(cfg, DotPaths(written))
    ensures forall b :: b in written && b.WriteDot? && WantsPng(cfg.output) && !KeepsDot(cfg.output) ==>
              DeleteFile(b.path) in PngActions(cfg, DotPaths(written))
  {
    var paths := DotPaths(written);
    forall b | b in written && b.WriteDot?
      ensures b.path in paths
    {
      var k :| 0 <= k < |written| && written[k] == b;
      assert b.path in paths;
    }
  }

  /** Every deletion is of a DOT file the earlier actions wrote. */
  lemma PngFollowsWrites(cfg: Config, written: seq<Action>)
    ensures forall a :: a in PngActions(cfg, DotPaths(written)) && a.DeleteFile? ==>
              exists b :: b in written && b.WriteDot? && b.path == a.path
    ensures forall a :: a in PngActions(cfg, DotPaths(written)) ==> Permitted(cfg, a) && (a.RenderPng? || a.DeleteFile?)
  {
    forall a | a in PngActions(cfg, DotPaths(written)) && a.DeleteFile?
      ensures exists b :: b in written && b.WriteDot? && b.path == a.path
    {
      var i :| 0 <= i < |written| && written[i].WriteDot? && written[i].path == a.path;
      assert written[i] in written;
    }
  }

  lemma PlanShape(cfg: Config, top: string, written: seq<Action>, png: seq<Action>, r: seq<Action>)
    requires r == [ClearDirectory(top)] + written + png
    requires forall a :: a in written ==> Permitted(cfg, a)
    requires forall a :: a in png ==> Permitted(cfg, a)
    requires forall a :: a in png && a.DeleteFile? ==> exists b :: b in written && b.WriteDot? && b.path == a.path
    requires forall a :: a in written ==> IsWrite(a)
    requires forall a :: a in png ==> a.RenderPng? || a.DeleteFile?
    ensures forall a :: a in r ==> Permitted(cfg, a)
    ensures forall a :: a in written ==> a in r
    ensures forall a :: a in r && a.DeleteFile? ==> exists b :: b in r && b.WriteDot? && b.path == a.path
    ensures forall b :: b in r && b.WriteDot? ==> b in written
    ensures forall a :: a in r && a.ClearDirectory? ==> a == ClearDirectory(top)
  {
    forall a | a in r && a.DeleteFile? ensures exists b :: b in r && b.WriteDot? && b.path == a.path {
      assert a in png;
      var b :| b in written && b.WriteDot? && b.path == a.path;
      assert b in r;
    }
  }

  // ---------------------------------------------------------------------
  // From the engine's suites to the plan
  // ---------------------------------------------------------------------

  function NewSuites(contexts: seq<Suites.SuiteContext>): (r: seq<Suites.SuiteNode>)
    ensures |r| == |contexts|
    ensures forall i :: 0 <= i < |contexts| ==> r[i] == Suites.NewSuite(contexts[i], None)
  {
    MapSeq(contexts, (c: Suites.SuiteContext) => Suites.NewSuite(c, None))
  }

  /** The suite set of `generateReport`: one node per reported suite, in
      descending name order; of two suites with the same name the first is
      kept. */
  function BuildSuites(contexts: seq<Suites.SuiteContext>): (r: seq<Suites.SuiteNode>)
    ensures Sorted(r, Suites.SuiteNameOf, false)
    ensures forall c :: c in contexts ==> c.name in KeySet(r, Suites.SuiteNameOf)
    ensures forall s :: s in r ==> exists c :: c in contexts && s == Suites.NewSuite(c, None)
    ensures SuitesRenderable(r)
    ensures |r| == 0 <==> |contexts| == 0
    ensures forall i :: 0 <= i < |contexts| && (forall j :: 0 <= j < i ==> contexts[j].name != contexts[i].name) ==>
              Suites.NewSuite(contexts[i], None) in r
  {
    BuiltSuiteFirsts(contexts);
    BuiltSuiteNames(contexts);
    BuiltSuiteOrigins(contexts);
    BuiltSuitesRenderable(contexts);
    InsertAll([], NewSuites(contexts), Suites.SuiteNameOf, false)
  }

  lemma BuiltSuiteNames(contexts: seq<Suites.SuiteContext>)
    ensures forall c :: c in contexts ==> c.name in KeySet(InsertAll([], NewSuites(contexts), Suites.SuiteNameOf, false), Suites.SuiteNameOf)
    ensures |InsertAll([], NewSuites(contexts), Suites.SuiteNameOf, false)| == 0 <==> |contexts| == 0
  {
    InsertAllMapped(contexts, c => Suites.NewSuite(c, None), (c: Suites.SuiteContext) => c.name, NewSuites(contexts), Suites.SuiteNameOf, false);
  }

  lemma BuiltSuiteFirsts(contexts: seq<Suites.SuiteContext>)
    ensures forall i :: 0 <= i < |contexts| && (forall j :: 0 <= j < i ==> contexts[j].name != contexts[i].name) ==>
              Suites.NewSuite(contexts[i], None) in InsertAll([], NewSuites(contexts), Suites.SuiteNameOf, false)
  {
    InsertAllMappedFirst(contexts, c => Suites.NewSuite(c, None), (c: Suites.SuiteContext) => c.name, NewSuites(contexts), Suites.SuiteNameOf, false);
  }

  lemma BuiltSuiteOrigins(contexts: seq<Suites.SuiteContext>)
    ensures forall s :: s in InsertAll([], NewSuites(contexts), Suites.SuiteNameOf, false) ==> exists c :: c in contexts && s == Suites.NewSuite(c, None)
  {
    InsertAllMapped(contexts, c => Suites.NewSuite(c, None), (c: Suites.SuiteContext) => c.name, NewSuites(contexts), Suites.SuiteNameOf, false);
  }

  lemma BuiltSuitesRenderable(contexts: seq<Suites.SuiteContext>)
    ensures SuitesRenderable(InsertAll([], NewSuites(contexts), Suites.SuiteNameOf, false))
  {
    var built := NewSuites(contexts);
    forall i | 0 <= i < |built| ensures Suites.TestsRenderable(built[i].tests) {
      assert built[i] == Suites.NewSuite(contexts[i], None);
    }
    InsertAllKeeps(built, Suites.SuiteNameOf, false, (s: Suites.SuiteNode) => Suites.TestsRenderable(s.tests));
  }

  /** `generateReport` given the option property text (empty when the property
      is not set). ENABLED=false plans nothing. Otherwise the options are read
      as Java first reads them: OUTPUT before anything is written, MODE only
      once there is a suite to walk; a broken option fails the pass. */
  function Plan(options: string, outputDirectory: string, contexts: seq<Suites.SuiteContext>, namer: Namer)
    : (r: Result<seq<Action>, ParseError>)
    ensures IsSet(Enabled, options, ["false"]) == Success(true) ==> r == Success([])
    ensures r.Failure? <==>
              ParseOptions(Enabled, options).Failure?
              || (ParseOptions(Enabled, options) == Success("true")
                  && (ParseOptions(Output, options).Failure? || (|contexts| > 0 && ParseOptions(Mode, options).Failure?)))
    ensures r.Success? && r.value != [] ==>
              && ParseOptions(Output, options).Success?
              && r.value[0] == ClearDirectory(TopDir(outputDirectory))
              && (ParseOptions(Mode, options).Success? ==>
                    forall a :: a in r.value ==>
                      Permitted(Config(ParseOptions(Mode, options).value, ParseOptions(Output, options).value), a))
  {
    EnabledIsFalse(options);
    Pass(IsSet(Enabled, options, ["false"]), ParseOptions(Output, options), ParseOptions(Mode, options),
         TopDir(outputDirectory), BuildSuites(contexts), namer)
  }

  /** The pass once the options are read: `disabled` is ENABLED's test for
      "false", `output` and `mode` are OUTPUT and MODE as parsed. MODE matters
      only when there is a suite to walk. */
  function Pass(disabled: Result<bool, ParseError>, output: Result<string, ParseError>, mode: Result<string, ParseError>,
                top: string, suites: seq<Suites.SuiteNode>, namer: Namer)
    : (r: Result<seq<Action>, ParseError>)
    requires SuitesRenderable(suites)
    ensures disabled == Success(true) ==> r == Success([])
    ensures r.Failure? <==>
              disabled.Failure? || (disabled == Success(false) && (output.Failure? || (|suites| > 0 && mode.Failure?)))
    ensures r.Success? && r.value != [] ==>
              && output.Success?
              && r.value[0] == ClearDirectory(top)
              && (mode.Success? ==> forall a :: a in r.value ==> Permitted(Config(mode.value, output.value), a))
  {
    match disabled
    case Failure(e) => Failure(e)
    case Success(off) =>
      if off then Success([])
      else
        match output
        case Failure(e) => Failure(e)
        case Success(out) =>
          if |suites| > 0 && mode.Failure? then Failure(mode.error)
          else
            var cfg := Config(if mode.Success? then mode.value else Default(Mode), out);
            Success(Actions(cfg, top, suites, namer))
  }

  // ---------------------------------------------------------------------
  // Scenarios
  // ---------------------------------------------------------------------

  /** With ENABLED parsed as "true", the plan is the output pass for the
      parsed MODE and OUTPUT. */
  lemma PlanIsActions(options: string, outputDirectory: string, contexts: seq<Suites.SuiteContext>, namer: Namer)
    requires ParseOptions(Enabled, options) == Success("true")
    requires ParseOptions(Output, options).Success? && ParseOptions(Mode, options).Success?
    ensures Plan(options, outputDirectory, contexts, namer) ==
              Success(Actions(Config(ParseOptions(Mode, options).value, ParseOptions(Output, options).value),
                              TopDir(outputDirectory), BuildSuites(contexts), namer))
  {
    EnabledIsFalse(options);
  }

  /** What MODE=classes and OUTPUT=json allow: JSON files of the report, of
      classes and of methods, and clearing the output directory. */
  lemma PermittedClassesJson(a: Action)
    requires Permitted(Config("classes", "json"), a)
    ensures a.ClearDirectory?
            || (a.WriteJson? && (a.scope == Report || a.scope == Node(ClassLevel) || a.scope == Node(MethodLevel)))
  {
    if a.WriteJson? && a.scope.Node? {
      assert Emits("classes", a.scope.level);
      match a.scope.level
      case ClassLevel =>
      case MethodLevel =>
    }
  }

  /** With MODE=classes and OUTPUT=json the pass writes only JSON files, of
      the report, of classes and of methods. */
  lemma ClassesJsonShape(top: string, ss: seq<Suites.SuiteNode>, namer: Namer)
    requires SuitesRenderable(ss)
    ensures var acts := Actions(Config("classes", "json"), top, ss, namer);
            && WriteJson(Report, top + "/report.json") in acts
            && forall a :: a in acts ==>
                 a == ClearDirectory(top)
                 || (a.WriteJson? && (a.scope == Report || a.scope == Node(ClassLevel) || a.scope == Node(MethodLevel)))
  {
    var cfg := Config("classes", "json");
    var acts := Actions(cfg, top, ss, namer);
    assert WriteJson(Report, top + "/report.json") in ReportActions(cfg, top, ss, namer);
    forall a | a in acts
      ensures a == ClearDirectory(top)
              || (a.WriteJson? && (a.scope == Report || a.scope == Node(ClassLevel) || a.scope == Node(MethodLevel)))
    {
      PermittedClassesJson(a);
    }
  }

  /** MODE=classes selects classes and methods; OUTPUT=json asks for JSON. */
  lemma ClassesJsonSettings()
    ensures Emits("classes", ClassLevel) && Emits("classes", MethodLevel) && WantsJson("json")
  {
    assert ModeValues(ClassLevel)[3] == "classes";
    assert ModeValues(MethodLevel)[3] == "classes";
  }

  lemma ClassJsonPlanned(top: string, ss: seq<Suites.SuiteNode>, namer: Namer, i: int, j: int, k: int)
    requires SuitesRenderable(ss)
    requires 0 <= i < |ss| && 0 <= j < |ss[i].tests| && 0 <= k < |ss[i].tests[j].classes|
    ensures WriteJson(Node(ClassLevel), ClassBase(top, ss[i].tests[j].classes[k].name) + ".json")
              in Actions(Config("classes", "json"), top, ss, namer)
  {
    var cfg := Config("classes", "json");
    assert ss[i] in ss;
    assert ss[i].tests[j] in ss[i].tests;
    assert ss[i].tests[j].classes[k] in ss[i].tests[j].classes;
    var c := ss[i].tests[j].classes[k];
    var a := WriteJson(Node(ClassLevel), ClassBase(top, c.name) + ".json");
    ClassesJsonSettings();
    assert a in ClassArtifacts(cfg, top, c, namer);
    ClassArtifactsPlanned(cfg, top, ss, namer, i, j, k, a);
  }

  lemma MethodJsonPlanned(top: string, ss: seq<Suites.SuiteNode>, namer: Namer, i: int, j: int, k: int, l: int)
    requires SuitesRenderable(ss)
    requires 0 <= i < |ss| && 0 <= j < |ss[i].tests| && 0 <= k < |ss[i].tests[j].classes|
    requires 0 <= l < |ss[i].tests[j].classes[k].methods|
    ensures WriteJson(Node(MethodLevel), MethodBase(top, ss[i].tests[j].classes[k].name,
                                                    ss[i].tests[j].classes[k].methods[l].name) + ".json")
              in Actions(Config("classes", "json"), top, ss, namer)
  {
    var cfg := Config("classes", "json");
    assert ss[i] in ss;
    assert ss[i].tests[j] in ss[i].tests;
    assert ss[i].tests[j].classes[k] in ss[i].tests[j].classes;
    var c := ss[i].tests[j].classes[k];
    var a := WriteJson(Node(MethodLevel), MethodBase(top, c.name, c.methods[l].name) + ".json");
    ClassesJsonSettings();
    assert a in MethodArtifacts(cfg, top, c.name, c.methods[l], namer);
    MethodArtifactsPlanned(cfg, top, ss, namer, i, j, k, l, a);
  }

  /** With MODE=classes and OUTPUT=json every class's and every method's JSON
      file is written, wherever the node sits in the tree. */
  lemma ClassesJsonComplete(top: string, ss: seq<Suites.SuiteNode>, namer: Namer)
    requires SuitesRenderable(ss)
    ensures forall i, j, k :: 0 <= i < |ss| && 0 <= j < |ss[i].tests| && 0 <= k < |ss[i].tests[j].classes| ==>
              WriteJson(Node(ClassLevel), ClassBase(top, ss[i].tests[j].classes[k].name) + ".json")
                in Actions(Config("classes", "json"), top, ss, namer)
    ensures forall i, j, k, l :: 0 <= i < |ss| && 0 <= j < |ss[i].tests| && 0 <= k < |ss[i].tests[j].classes|
                                 && 0 <= l < |ss[i].tests[j].classes[k].methods| ==>
              WriteJson(Node(MethodLevel), MethodBase(top, ss[i].tests[j].classes[k].name,
                                                      ss[i].tests[j].classes[k].methods[l].name) + ".json")
                in Actions(Config("classes", "json"), top, ss, namer)
  {
    forall i, j, k | 0 <= i < |ss| && 0 <= j < |ss[i].tests| && 0 <= k < |ss[i].tests[j].classes|
      ensures WriteJson(Node(ClassLevel), ClassBase(top, ss[i].tests[j].classes[k].name) + ".json")
                in Actions(Config("classes", "json"), top, ss, namer)
    {
      ClassJsonPlanned(top, ss, namer, i, j, k);
    }
    forall i, j, k, l | 0 <= i < |ss| && 0 <= j < |ss[i].tests| && 0 <= k < |ss[i].tests[j].classes|
                        && 0 <= l < |ss[i].tests[j].classes[k].methods|
      ensures WriteJson(Node(MethodLevel), MethodBase(top, ss[i].tests[j].classes[k].name,
                                                      ss[i].tests[j].classes[k].methods[l].name) + ".json")
                in Actions(Config("classes", "json"), top, ss, namer)
    {
      MethodJsonPlanned(top, ss, namer, i, j, k, l);
    }
  }

  /** `-DdependencyReporter=mode:Classes,OUTPUT:json`: the plan clears the
      output directory and writes only JSON: the report's, every class's and,
      because the method loop also accepts "classes", every method's; nothing
      for suites or tests, and no DOT, YAML or PNG. */
  lemma ClassesJsonPlan(outputDirectory: string, contexts: seq<Suites.SuiteContext>, namer: Namer)
    ensures var r := Plan("mode:Classes,OUTPUT:json", outputDirectory, contexts, namer);
            && r.Success?
            && r.value == Actions(Config("classes", "json"), TopDir(outputDirectory), BuildSuites(contexts), namer)
            && WriteJson(Report, TopDir(outputDirectory) + "/report.json") in r.value
            && forall a :: a in r.value ==>
                 a == ClearDirectory(TopDir(outputDirectory))
                 || (a.WriteJson? && (a.scope == Report || a.scope == Node(ClassLevel) || a.scope == Node(MethodLevel)))
  {
    ModeClassesOutputJson();
    PlanIsActions("mode:Classes,OUTPUT:json", outputDirectory, contexts, namer);
    ClassesJsonShape(TopDir(outputDirectory), BuildSuites(contexts), namer);
  }

  /** `-DdependencyReporter=ENABLED:false` turns the reporter off: nothing is
      planned, not even clearing the output directory, and no other option
      is read. */
  lemma DisabledPlansNothing(outputDirectory: string, contexts: seq<Suites.SuiteContext>, namer: Namer)
    ensures Plan("ENABLED:false", outputDirectory, contexts, namer) == Success([])
  {
    EnabledFalseParses();
    EnabledIsFalse("ENABLED:false");
  }
}
