# TestNG dependency reporter — a Dafny model

The dependency reporter is a TestNG reporting listener. After a run, it turns
the suites, tests, classes and test methods of that run into a tree of
`TestSuiteInfo`, `TestInfo`, `TestClassInfo` and `TestMethodInfo` nodes. Each node
carries a verdict (`Result`: SKIPPED, FAILED or PASSED) and renders itself as
Graphviz DOT text. The listener `DependencyReportingListener` reads the
`dependencyReporter` system property (`ENABLED`, `PRESCAN`, `MODE`, `OUTPUT`).
It clears `<outputDirectory>/DependencyReporter` and writes DOT, JSON and YAML
files for the whole report and for each node of the levels MODE selects. It then
renders each written DOT file to PNG when OUTPUT is `png` or `all`, deleting
the DOT file afterwards unless OUTPUT is `dot` or `all`.

This project models that core with immutable datatypes and pure functions, and
proves its properties:

| module | file | what it holds |
|---|---|---|
| `Outcomes` | outcomes.dfy | `Option` and `Result` |
| `Strings` | strings.dfy | the Java string operations the core uses: `split` (trailing empty pieces dropped), ASCII case mapping, `equalsIgnoreCase`, `replace(" ", "")`, `Boolean.parseBoolean`, decimal rendering of a number |
| `JavaCompare` | compare.dfy | `String.compareTo` and the reversed comparison every node's `compareTo` uses |
| `Collections` | collections.dfy | a `ConcurrentSkipListSet` as a strictly sorted sequence, and "first of each key" for the visited-set loops |
| `Hashing` | hashing.dfy | `String.hashCode` with 32-bit wrap-around, each node's `hashCode`, and the subgraph number built from it |
| `Verdicts` | verdicts.dfy | `Result`, its DOT style, and the precedence rule FAILED > SKIPPED > PASSED |
| `Dot` | dot.dfy | the DOT fragments all nodes share |
| `Methods` | methods.dfy | `TestMethodInfo` |
| `Classes` | classes.dfy | `TestClassInfo` |
| `Tests` | tests.dfy | `TestInfo`, including how it builds its classes and methods from a TestNG test context |
| `Suites` | suites.dfy | `TestSuiteInfo` |
| `Options` | options.dfy | `DependencyReportingListener.Option`: parsing the property, `isSet` |
| `Listener` | listener.dfy | `generateReport` as a plan of file-system actions: which files are written, at which paths, with which DOT text, and which PNG commands and deletions follow |

Inputs the Java code fetches from TestNG or the JVM are parameters here:
- a test context lists its passed, failed-within-percentage, failed and skipped methods;
- each method has its class name, method name, dependencies, groups and enabled flag;
- the property text is passed in, with the empty string when the property is unset;
- the output directory is passed in;
- the number that makes each nested subgraph's name unique is a `Dot.Namer`.

The Java renderers throw a `NullPointerException` when a method's verdict was
never set. The model's renderers therefore require every verdict to be set, and
the building functions prove that they set every verdict.

MODE `classes` writes both `classes/` and `methods/` files: the method loop
accepts `all`, `suites`, `tests`, `classes` and `methods`
(DependencyReportingListener.java:258 and 271). `Listener.ClassesJsonComplete`
and `Listener.ClassesJsonPlan` state this.

## Model

All paths are under `src/main/java/net/mach6/` except the tests under `src/test/java/net/mach6/`.

| member | source | states |
|---|---|---|
| Verdicts.DotStyle | src/main/java/net/mach6/Result.java:12-26 | every verdict has a filled, coloured style, never the `style=empty` fallback |
| Verdicts.DotStyleRoundTrip | src/main/java/net/mach6/Result.java:15-22 | the verdict can be read back from its style: SKIPPED is yellow, FAILED red, PASSED green |
| Verdicts.DotStyleInjective | src/main/java/net/mach6/Result.java:15-22 | distinct verdicts are drawn with distinct styles |
| Verdicts.Worst | src/main/java/net/mach6/TestClassInfo.java:49-57 | the most severe verdict of a list is at least as severe as each element, and is either PASSED or one of the elements |
| Verdicts.Precedence | src/main/java/net/mach6/TestClassInfo.java:49-57 | FAILED iff there is a failure; SKIPPED iff there are skips and no failure; PASSED otherwise |
| JavaCompare.CompareZeroIffEqual | src/main/java/net/mach6/TestMethodInfo.java:63-65 | `String.compareTo` is zero exactly for equal strings |
| JavaCompare.CompareAntisymmetric | src/main/java/net/mach6/TestMethodInfo.java:63-65 | swapping the operands negates `String.compareTo` |
| JavaCompare.LessIsLexicographic | src/main/java/net/mach6/TestMethodInfo.java:63-65 | a negative `compareTo` means lexicographic order: a proper prefix, or a smaller first differing character |
| JavaCompare.LessTotal | src/main/java/net/mach6/TestMethodInfo.java:63-65 | any two distinct names are ordered one way or the other |
| JavaCompare.LessTransitive | src/main/java/net/mach6/TestMethodInfo.java:63-65 | the name order is transitive, so the node sets are well ordered |
| JavaCompare.ReverseCompare | src/main/java/net/mach6/TestMethodInfo.java:63-65 | comparing `other` to `self` is zero iff the names are equal, and negative iff `other` sorts before `self` |
| Collections.Insert | src/main/java/net/mach6/TestInfo.java:119-127 | adding to a skip-list set keeps it strictly sorted, adds the key if new, and otherwise leaves the set as it was |
| Collections.InsertAll | src/main/java/net/mach6/TestInfo.java:119-127 | after adding a sequence, the set is strictly sorted, its keys are the union of the old and added keys, each element comes from the set or the input, every element already present stays, and of the input elements with a new key the first is the one kept |
| Collections.InsertAllKeepsAll | src/main/java/net/mach6/TestSuiteInfo.java:77-82 | when no two different elements share a name, building the set from a sequence keeps every element |
| Collections.SortedDistinct | src/main/java/net/mach6/TestInfo.java:119-127 | a strictly sorted set has no two elements with the same key |
| Collections.FirstByKeyKeys | src/main/java/net/mach6/TestClassInfo.java:108-122 | the visited-set loop keeps exactly the keys not yet visited |
| Collections.FirstByKeyKeepsFirst | src/main/java/net/mach6/TestClassInfo.java:108-122 | of several elements with one key, the loop keeps the first |
| Collections.FirstByKeyOfDistinct | src/main/java/net/mach6/TestClassInfo.java:108-122 | with distinct keys and nothing visited, the loop keeps every element |
| Hashing.WrapInt32 | src/main/java/net/mach6/TestMethodInfo.java:112-118 | Java `int` arithmetic: the result lies in the 32-bit signed range and is congruent to the exact value modulo 2^32 |
| Hashing.StringHashIsWrappedPolynomial | src/main/java/net/mach6/TestMethodInfo.java:112-118 | `String.hashCode` is the polynomial with base 31 over the characters, wrapped to 32 bits |
| Hashing.NodeHashCode | src/main/java/net/mach6/TestMethodInfo.java:112-118 | a node's hash code, `31 * 1` plus the name's `String.hashCode` in `int` arithmetic, equals 31 plus the base-31 polynomial of the name wrapped once to 32 bits, and lies in the signed 32-bit range |
| Hashing.SubgraphNumber | src/main/java/net/mach6/TestMethodInfo.java:129 | the subgraph number is the node's hash code when that is non-negative, and the clock reading otherwise |
| Methods.SubgraphNamedByHash | src/main/java/net/mach6/TestMethodInfo.java:127-131 | with the namer built from `SubgraphNumber`, a nested method graph opens with `subgraph method` followed by the method's `hashCode()`, or by the clock reading when that is negative |
| Dot.BlockShape | src/main/java/net/mach6/TestMethodInfo.java:128-140 | a DOT block opens with its header and brace and ends with the closing brace |
| Dot.BlockIsEmptyGraph | src/main/java/net/mach6/listeners/DependencyReportingListener.java:215-217 | a top-level block is the trivial `digraph g {}` text exactly when its body is empty |
| Dot.GroupFragments | src/main/java/net/mach6/TestInfo.java:194-197 | each group yields its node line and then the edge from the owner to it, in order |
| Methods.QualifiedName | src/main/java/net/mach6/TestMethodInfo.java:37 | a method's name is its class name, a dot, and its method name, recoverable from the result |
| Methods.QualifyAll | src/main/java/net/mach6/TestMethodInfo.java:42-47 | the dependency list qualifies every depended-upon method, in order |
| Methods.NewMethod | src/main/java/net/mach6/TestMethodInfo.java:33-52 | a new method node has the qualified name, every dependency qualified, the groups copied and no verdict |
| Methods.SetResult | src/main/java/net/mach6/TestMethodInfo.java:54-60 | setting a result changes the verdict and nothing else |
| Methods.CompareTo | src/main/java/net/mach6/TestMethodInfo.java:63-65 | method nodes sort in descending name order, and compare as zero exactly when equal |
| Methods.EqualsConsistent | src/main/java/net/mach6/TestMethodInfo.java:63-118 | `equals` agrees with `compareTo`; equal nodes have equal hash codes; `compareTo` is reflexive |
| Methods.DependencyEdges | src/main/java/net/mach6/TestMethodInfo.java:132-134 | one edge from the method to each method it depends on, in order |
| Methods.Fragments | src/main/java/net/mach6/TestMethodInfo.java:132-138 | the body has the method edges first, then each depended-upon group's node and edge |
| Methods.ToDot | src/main/java/net/mach6/TestMethodInfo.java:121-141 | nested rendering is empty exactly when there are no dependencies; otherwise a `subgraph method` block, or a `digraph g` block at the top level |
| Methods.TopLevelEmptyIffNoDependencies | src/main/java/net/mach6/TestMethodInfo.java:121-141 | the top-level rendering is the trivial graph exactly when the method has no dependencies |
| Classes.NewClass | src/main/java/net/mach6/TestClassInfo.java:36-47 | a class node takes the class's name, and an empty method set when none is given |
| Classes.WithResult | src/main/java/net/mach6/TestClassInfo.java:150-201 | `getPassed`, `getSkips` and `getFailures` hold exactly the methods with that verdict |
| Classes.HasIffNonEmpty | src/main/java/net/mach6/TestClassInfo.java:140-201 | `hasX` is true exactly when `getX` is non-empty |
| Classes.ResultsPartition | src/main/java/net/mach6/TestClassInfo.java:140-201 | the three result sets are disjoint and, once all verdicts are set, cover every method |
| Classes.ClassVerdict | src/main/java/net/mach6/TestClassInfo.java:49-57 | FAILED iff a method failed; SKIPPED iff one was skipped and none failed; PASSED otherwise |
| Classes.PrecedenceIsWorst | src/main/java/net/mach6/TestClassInfo.java:49-57 | the precedence rule over the methods equals the most severe of their verdicts |
| Classes.VerdictIsWorst | src/main/java/net/mach6/TestClassInfo.java:49-57 | a class's verdict is the most severe verdict among its methods |
| Classes.ClassCompareTo | src/main/java/net/mach6/TestClassInfo.java:59-62 | class nodes sort in descending name order, and compare as zero exactly when equal |
| Classes.Entries | src/main/java/net/mach6/TestClassInfo.java:114-122 | each method yields its styled node, the edge from the class and its nested rendering |
| Classes.VisitedEntries | src/main/java/net/mach6/TestClassInfo.java:108-121 | no contract of its own; `Classes.VisitedEntriesAreFirstByName` states that it draws exactly the first method of each name |
| Classes.VisitedEntriesAreFirstByName | src/main/java/net/mach6/TestClassInfo.java:108-122 | the visited-name loop draws exactly the first method of each name |
| Classes.SameNameDrawnOnce | src/main/java/net/mach6/TestClassInfo.java:108-122 | a second method with an already drawn name is not drawn again |
| Classes.ToDot | src/main/java/net/mach6/TestClassInfo.java:101-127 | nested rendering is empty exactly when the class has no methods; the top level opens with the class's own node line |
| Classes.ToDotDrawsEveryMethod | src/main/java/net/mach6/TestClassInfo.java:108-126 | since the method set has distinct names, every method is drawn, in order |
| Classes.TopLevelNeverEmptyGraph | src/main/java/net/mach6/TestClassInfo.java:110-113 | a class's own file is never the trivial graph, so it is always written |
| Tests.AllMethods | src/main/java/net/mach6/TestInfo.java:78-83 | the collected methods are exactly those in any of the four result lists, each once |
| Tests.MethodVerdict | src/main/java/net/mach6/TestInfo.java:130-138 | FAILED iff the method failed; SKIPPED iff it was skipped and did not fail; PASSED otherwise |
| Tests.BuildMethod | src/main/java/net/mach6/TestInfo.java:122-123 | a method node takes the qualified name and the method's verdict |
| Tests.ClassMembers | src/main/java/net/mach6/TestInfo.java:120-121 | the filter keeps exactly the enabled methods of the class |
| Tests.FilterTestMethods | src/main/java/net/mach6/TestInfo.java:118-128 | the class's method set is sorted, all its verdicts are set, it comes from enabled methods of the class, it holds every such method's name, and of two methods with one qualified name the first is the one kept |
| Tests.BuildTestClasses | src/main/java/net/mach6/TestInfo.java:74-94 | one class node per class of the collected methods, sorted; each holds that class's filtered methods |
| Tests.DisabledClassIsEmpty | src/main/java/net/mach6/TestInfo.java:118-128 | a class whose methods are all disabled still appears, with no methods |
| Tests.NewTest | src/main/java/net/mach6/TestInfo.java:48-62 | a test node takes the context's name, groups and settings; without given classes it builds them, with every verdict set |
| Tests.BuiltMethodVerdicts | src/main/java/net/mach6/TestInfo.java:118-138 | an enabled method appears in its class, and a FAILED node names a method of the failed list |
| Tests.ClassesWithVerdict | src/main/java/net/mach6/TestInfo.java:219-270 | `getPassed`, `getSkips` and `getFailures` hold exactly the classes with that verdict |
| Tests.TestVerdict | src/main/java/net/mach6/TestInfo.java:64-72 | FAILED iff some class has a failed method; SKIPPED iff some has a skip and none a failure; PASSED otherwise |
| Tests.AnyClassPrecedenceIsWorst | src/main/java/net/mach6/TestInfo.java:64-72 | the precedence rule over the classes equals the most severe class verdict |
| Tests.TestVerdictIsWorstOfClasses | src/main/java/net/mach6/TestInfo.java:64-72 | a test's verdict is the most severe verdict among its classes |
| Tests.GetFailuresIffHasFailures | src/main/java/net/mach6/TestInfo.java:251-270 | `getFailures` is non-empty exactly when `hasFailures` holds |
| Tests.GetSkipsImpliesHasSkips | src/main/java/net/mach6/TestInfo.java:230-249 | a non-empty `getSkips` implies `hasSkips` |
| Tests.PassedQueriesDisagree | src/main/java/net/mach6/TestInfo.java:209-228 | `hasPassed` asks about methods but `getPassed` about class verdicts: a class with a pass and a skip shows the difference |
| Tests.TestCompareTo | src/main/java/net/mach6/TestInfo.java:96-99 | test nodes sort in descending name order, and compare as zero exactly when equal |
| Tests.TestSuffix | src/main/java/net/mach6/TestInfo.java:182-183 | removing dots from the decimal subgraph number leaves it unchanged |
| Tests.VisitedClassEntries | src/main/java/net/mach6/TestInfo.java:181-192 | no contract of its own; `Tests.VisitedClassEntriesAreFirstByName` states that it draws exactly the first class of each name |
| Tests.VisitedClassEntriesAreFirstByName | src/main/java/net/mach6/TestInfo.java:181-193 | the visited-class loop draws exactly the first class of each name |
| Tests.ToDot | src/main/java/net/mach6/TestInfo.java:172-201 | nested rendering is empty exactly when there are no classes and no groups |
| Tests.ToDotDrawsEveryClass | src/main/java/net/mach6/TestInfo.java:181-198 | since the class set has distinct names, every class is drawn in order, then the groups |
| Tests.TopLevelEmptyIffNothingToDraw | src/main/java/net/mach6/TestInfo.java:172-201 | the top-level rendering is the trivial graph exactly when there are no classes and no groups |
| Suites.BuildChildSuites | src/main/java/net/mach6/TestSuiteInfo.java:68-75 | the child suite names are the suite's child names, each once, in ascending order |
| Suites.BuildTests | src/main/java/net/mach6/TestSuiteInfo.java:77-82 | one test node per result name, sorted descending, each built from a test context with every verdict set; of two results with one name the first is kept |
| Suites.NewSuite | src/main/java/net/mach6/TestSuiteInfo.java:38-52 | a suite node takes the suite's name and settings, its child suites, and the built tests when none are given |
| Suites.TestsWithVerdict | src/main/java/net/mach6/TestSuiteInfo.java:192-243 | `getPassed`, `getSkips` and `getFailures` hold exactly the tests with that verdict |
| Suites.SuiteVerdict | src/main/java/net/mach6/TestSuiteInfo.java:54-62 | FAILED iff some test has a failed method; PASSED iff some test has a passed method and none a failed one; SKIPPED otherwise |
| Suites.SuiteFailedIffSomeTestFailed | src/main/java/net/mach6/TestSuiteInfo.java:54-62 | a suite failed exactly when `getFailures` is non-empty |
| Suites.EmptySuiteIsSkipped | src/main/java/net/mach6/TestSuiteInfo.java:54-62 | with nothing inside, a suite is SKIPPED while a test and a class are PASSED |
| Suites.SuiteAndTestRulesDisagree | src/main/java/net/mach6/TestSuiteInfo.java:54-62 | the suite rule looks at methods, not test verdicts, and ignores skips: a SKIPPED test with one passed method makes its suite PASSED, and a PASSED test without methods makes its suite SKIPPED |
| Suites.SuiteCompareTo | src/main/java/net/mach6/TestSuiteInfo.java:84-87 | suite nodes sort in descending name order, and compare as zero exactly when equal |
| Suites.ChildSuiteFragments | src/main/java/net/mach6/TestSuiteInfo.java:89-100 | each child suite yields its node and the edge from the parent, in order |
| Suites.TestEntries | src/main/java/net/mach6/TestSuiteInfo.java:165-170 | each test yields its styled node, the edge from the suite and its nested rendering |
| Suites.ToDot | src/main/java/net/mach6/TestSuiteInfo.java:151-174 | nested rendering is empty exactly when there are no tests and no child suites; the top level opens with the suite's own node line |
| Suites.TopLevelNeverEmptyGraph | src/main/java/net/mach6/TestSuiteInfo.java:159-163 | a suite's own file is never the trivial graph |
| Suites.ScenarioVerdicts | src/main/java/net/mach6/TestSuiteInfo.java:54-62 | one method with a given verdict passes it up unchanged to its class, test and suite |
| Suites.ScenarioRendering | src/main/java/net/mach6/TestSuiteInfo.java:151-174 | the full DOT text of a one-suite, one-test, one-class, one-method tree |
| Options.Values | src/main/java/net/mach6/listeners/DependencyReportingListener.java:64-68 | each option's accepted values, the first being its default |
| Options.ValuesAreLower | src/main/java/net/mach6/listeners/DependencyReportingListener.java:65-68 | every accepted value is in lower case |
| Options.Classify | src/main/java/net/mach6/listeners/DependencyReportingListener.java:101-111 | an overriding pair always carries a value the option accepts |
| Options.ClassifyMeaning | src/main/java/net/mach6/listeners/DependencyReportingListener.java:101-111 | on every pair, read off the raw text: separators only is a missing key; a key other than the option's name is ignored; the option's name followed by nothing but separators is a missing value; otherwise the lower-cased text between the first and second `:` overrides when the option accepts it, and is ignored when it does not |
| Options.ParsePairs | src/main/java/net/mach6/listeners/DependencyReportingListener.java:99-112 | a successful parse yields the default or an accepted value |
| Options.ParsePairsFailure | src/main/java/net/mach6/listeners/DependencyReportingListener.java:101-107 | the parse fails exactly when some pair is broken, and reports the first broken pair |
| Options.ParsePairsKeeps | src/main/java/net/mach6/listeners/DependencyReportingListener.java:99-112 | without an overriding pair, the value stays as it was |
| Options.ParsePairsLastWins | src/main/java/net/mach6/listeners/DependencyReportingListener.java:99-112 | the last overriding pair decides the value |
| Options.ParseOptions | src/main/java/net/mach6/listeners/DependencyReportingListener.java:95-113 | the parse succeeds exactly when no pair is broken, and yields an accepted lower-case value |
| Options.ParseOptionsMeaning | src/main/java/net/mach6/listeners/DependencyReportingListener.java:95-113 | the default without an override, the last override otherwise, the first broken pair on failure |
| Options.IsSet | src/main/java/net/mach6/listeners/DependencyReportingListener.java:80-93 | false for no candidates; otherwise it fails with the parse, or says whether a candidate equals the value ignoring case |
| Options.IsSetOfLower | src/main/java/net/mach6/listeners/DependencyReportingListener.java:80-93 | with lower-case candidates, `isSet` is membership of the parsed value |
| Options.EmptyPropertyGivesDefault | src/main/java/net/mach6/listeners/DependencyReportingListener.java:95-113 | an unset property gives every option its default |
| Options.ModeClassesOutputJson | src/main/java/net/mach6/listeners/DependencyReportingListener.java:95-113 | `mode:Classes,OUTPUT:json` sets MODE `classes` and OUTPUT `json`, and leaves ENABLED `true` |
| Options.BrokenProperties | src/main/java/net/mach6/listeners/DependencyReportingListener.java:101-107 | `MODE` without a value breaks MODE only; `:` breaks every option |
| Options.EnabledIsFalse | src/main/java/net/mach6/listeners/DependencyReportingListener.java:118 | `ENABLED.isSet("false")` fails with the parse and is otherwise whether ENABLED is `false` |
| Listener.EmitsMeaning | src/main/java/net/mach6/listeners/DependencyReportingListener.java:228-282 | a level's files are written iff MODE is `all` or names that level or one above it |
| Listener.EmitsDownward | src/main/java/net/mach6/listeners/DependencyReportingListener.java:228-282 | a MODE that writes a level writes every level below it |
| Listener.UnusedModesEmitNothing | src/main/java/net/mach6/listeners/DependencyReportingListener.java:228-282 | MODE `groups` and `configuration` write no per-node files |
| Listener.OutputFormats | src/main/java/net/mach6/listeners/DependencyReportingListener.java:145-310 | which OUTPUT values write JSON, YAML, DOT and PNG; PNG implies DOT; DOT files are deleted exactly for `png` |
| Listener.NodeDotWritten | src/main/java/net/mach6/listeners/DependencyReportingListener.java:209-217 | a method's DOT file is written iff it has dependencies; a class's and a suite's always; a test's iff it has classes or groups |
| Listener.PngPath | src/main/java/net/mach6/listeners/DependencyReportingListener.java:292-295 | the PNG path ends in `.png` |
| Listener.PngPathOfDot | src/main/java/net/mach6/listeners/DependencyReportingListener.java:292-295 | the PNG of `x.dot` is `x.png` |
| Listener.Artifacts | src/main/java/net/mach6/listeners/DependencyReportingListener.java:228-240 | a node gets a DOT file iff DOT is wanted and the text is not trivial, and a JSON or YAML file iff that format is wanted |
| Listener.MethodsLoop | src/main/java/net/mach6/listeners/DependencyReportingListener.java:270-282 | the method loop writes exactly each method's files, at `Listener.MethodBase(top, <class>, <name>)`, where `<name>` is the method node's own name (the one `getMethodName()` returns, already qualified as `<class>.<method>`), so the path is `methods/<class>.<class>.<method>` |
| Listener.ClassesLoop | src/main/java/net/mach6/listeners/DependencyReportingListener.java:256-268 | the class loop writes exactly each class's files and its methods' files |
| Listener.TestsLoop | src/main/java/net/mach6/listeners/DependencyReportingListener.java:242-254 | the test loop writes exactly each test's files and its classes' files |
| Listener.SuitesLoop | src/main/java/net/mach6/listeners/DependencyReportingListener.java:228-240 | the suite loop writes exactly each suite's files and its tests' files, and each one is allowed by MODE and OUTPUT |
| Listener.ClassArtifactsPlanned | src/main/java/net/mach6/listeners/DependencyReportingListener.java:256-268 | every class of every test of every suite has its files in the plan |
| Listener.MethodArtifactsPlanned | src/main/java/net/mach6/listeners/DependencyReportingListener.java:270-282 | every method of every class has its files in the plan |
| Listener.FileName | src/main/java/net/mach6/listeners/DependencyReportingListener.java:232 | a suite's or test's file name has no spaces, and a name without spaces is used as is |
| Listener.SuiteBase | src/main/java/net/mach6/listeners/DependencyReportingListener.java:232-234 | a suite's files lie under `suites/`, named after the suite with its spaces removed |
| Listener.TestBase | src/main/java/net/mach6/listeners/DependencyReportingListener.java:246-248 | a test's files lie under `tests/`, named after the test with its spaces removed |
| Listener.ClassBase | src/main/java/net/mach6/listeners/DependencyReportingListener.java:260-262 | no contract of its own; `Listener.SameLevelPaths` states that two classes share a path exactly when their names are equal |
| Listener.MethodBase | src/main/java/net/mach6/listeners/DependencyReportingListener.java:277-279 | no contract of its own; `Listener.LevelPathsDistinct` states that method paths never coincide with suite, test or class paths |
| Listener.LevelPathsDistinct | src/main/java/net/mach6/listeners/DependencyReportingListener.java:228-282 | suite, test, class and method artifacts never share a path, since each level has its own directory |
| Listener.SameLevelPaths | src/main/java/net/mach6/listeners/DependencyReportingListener.java:232-262 | two suites (or two tests) share a path exactly when their names agree with spaces removed; two classes exactly when their names are equal |
| Listener.ShouldWriteDot | src/main/java/net/mach6/listeners/DependencyReportingListener.java:215-217 | no contract of its own; `Listener.NodeDotWritten` states for which nodes the text passes this test |
| Listener.PngCommand | src/main/java/net/mach6/listeners/DependencyReportingListener.java:291-294 | no contract of its own; `Listener.PngCommandOfDot` states the command for `x.dot` |
| Listener.PngCommandOfDot | src/main/java/net/mach6/listeners/DependencyReportingListener.java:291-294 | the Graphviz command for `x.dot` reads `x.dot`, lays it out left to right and writes `x.png` |
| Listener.CombinedDot | src/main/java/net/mach6/listeners/DependencyReportingListener.java:145-156 | the combined report is one `digraph g { … }` block; `Listener.CombinedDotSkipped` states when it is trivial |
| Listener.CombinedDotSkipped | src/main/java/net/mach6/listeners/DependencyReportingListener.java:145-156 | the combined `report.dot` is skipped exactly when no suite has tests or child suites |
| Listener.ReportActions | src/main/java/net/mach6/listeners/DependencyReportingListener.java:137-143 | `report.json`, `report.yaml` and `report.dot` are written iff their format is wanted (DOT also needs non-trivial text) |
| Listener.PngSteps | src/main/java/net/mach6/listeners/DependencyReportingListener.java:289-308 | every DOT path gets a PNG command, and is deleted exactly when DOT files are not kept; nothing else is rendered or deleted |
| Listener.PngActions | src/main/java/net/mach6/listeners/DependencyReportingListener.java:284-310 | each DOT file gets a PNG command iff PNG is wanted, and is deleted iff PNG is wanted and DOT is not kept |
| Listener.Actions | src/main/java/net/mach6/listeners/DependencyReportingListener.java:122-134 | the directory is cleared first; every action is allowed by MODE and OUTPUT; the report and node files are all there; only written DOT files are deleted, and each has its PNG command |
| Listener.BuildSuites | src/main/java/net/mach6/listeners/DependencyReportingListener.java:125-131 | one suite node per TestNG suite, sorted descending, every verdict set; of two suites with one name the first is kept |
| Listener.Plan | src/main/java/net/mach6/listeners/DependencyReportingListener.java:117-135 | `ENABLED:false` does nothing; a broken option is reported; otherwise the plan clears the directory first and writes only what MODE and OUTPUT allow |
| Listener.Pass | src/main/java/net/mach6/listeners/DependencyReportingListener.java:117-135 | a disabled report does nothing; the pass fails exactly when ENABLED is broken, or OUTPUT is, or MODE is while there are suites to walk; a non-empty pass clears the directory first |
| Listener.PlanIsActions | src/main/java/net/mach6/listeners/DependencyReportingListener.java:117-135 | with readable options, the plan is the actions for the parsed MODE and OUTPUT |
| Listener.ClassesJsonShape | src/main/java/net/mach6/listeners/DependencyReportingListener.java:256-282 | MODE `classes` with OUTPUT `json` writes only `report.json` and class and method JSON files |
| Listener.ClassesJsonComplete | src/main/java/net/mach6/listeners/DependencyReportingListener.java:256-282 | MODE `classes` with OUTPUT `json` writes the JSON of every class and of every method |
| Listener.ClassesJsonPlan | src/main/java/net/mach6/listeners/DependencyReportingListener.java:117-135 | the property `mode:Classes,OUTPUT:json` gives exactly that plan |
| Listener.DisabledPlansNothing | src/main/java/net/mach6/listeners/DependencyReportingListener.java:118-120 | the property `ENABLED:false` produces no action at all |
| Strings.JavaSplit | src/main/java/net/mach6/listeners/DependencyReportingListener.java:100-102 | Java `split` on one character: the pieces between separators, trailing empty pieces dropped |
| Strings.JavaSplitShape | src/main/java/net/mach6/listeners/DependencyReportingListener.java:102-107 | `split` yields nothing exactly for non-empty separators-only text; otherwise its first piece is the text before the first separator, and a second piece exists exactly when something other than separators follows, namely the text up to the next separator |
| Strings.JoinSplitAll | src/main/java/net/mach6/listeners/DependencyReportingListener.java:100-102 | joining the pieces with the separator gives back the text |
| Strings.SplitAllJoin | src/main/java/net/mach6/listeners/DependencyReportingListener.java:100-102 | splitting a join of separator-free pieces gives back the pieces |
| Strings.ToUpper | src/main/java/net/mach6/listeners/DependencyReportingListener.java:103 | upper-casing keeps the length and turns each lower-case letter into its capital, leaving other characters alone |
| Strings.EqualsIgnoreCaseOfLower | src/main/java/net/mach6/listeners/DependencyReportingListener.java:83 | between texts without upper-case letters, `equalsIgnoreCase` is equality |
| Strings.RemoveAll | src/main/java/net/mach6/listeners/DependencyReportingListener.java:232 | removing spaces leaves no space, keeps every other character, shortens the name by exactly its number of spaces, and changes nothing in a name without spaces |
| Strings.RemoveAllConcat | src/main/java/net/mach6/listeners/DependencyReportingListener.java:232 | removal distributes over concatenation, so the remaining characters keep their order |
| Strings.RemoveAllSingle | src/main/java/net/mach6/listeners/DependencyReportingListener.java:232 | a single character is dropped when it is the removed one and kept otherwise |
| Strings.RemoveEnd | src/main/java/net/mach6/listeners/DependencyReportingListener.java:292-295 | stripping a present suffix gives the text before it; otherwise the text is unchanged |
| Strings.NatToStringRoundTrip | src/main/java/net/mach6/TestMethodInfo.java:129 | the decimal rendering of a number reads back as the number |
| Strings.NatToStringInjective | src/main/java/net/mach6/TestMethodInfo.java:129 | distinct numbers give distinct subgraph suffixes |
| Strings.ParseBoolean | src/main/java/net/mach6/TestInfo.java:53 | `Boolean.parseBoolean` is true exactly for a present `true` in any case, false for null |

## Left out

- File-system and process I/O are not performed. Deleting the directory, writing files, and running `/usr/local/bin/dot` become `Listener.Action` values. Their exceptions and the log messages are not modelled.
- The JSON and YAML contents (Gson and SnakeYAML serialisation, or the nodes' own `toJSON`/`toYAML`) are not modelled. Only which files are written, and where, is modelled.
- The TestNG and JVM calls are inputs: the test contexts, `MethodHelper.getMethodsDependedUpon`, `System.getProperty`, and the output directory. An unset property is the empty string.
- The listener callbacks (`onStart`, `onTestStart` and the rest) and the use of `PRESCAN` are left out. `PRESCAN` is parsed like the other options.
- `Listener.Plan`: on a broken option, Java throws after some files are already written (OUTPUT after clearing the directory, MODE after the report files). The model reports the error and no actions.
- `Listener.PngActions` renders the DOT files written in this pass. In Java the DOT list is a static field that is never cleared, so a second report in the same JVM would render earlier files again.
- `Listener.TopDir` and the other path functions join strings; `FilenameUtils` normalisation of the path is not modelled.
- `Dot.Namer`: the subgraph suffix (the hash code, or `System.currentTimeMillis()` when the hash code is negative) is a parameter. `Hashing.SubgraphNumber` gives its formula with the clock reading as an argument.
- `Strings.ToUpper`, `Strings.ToLower` and `Strings.EqualsIgnoreCaseOfLower` map ASCII letters only; Java's Unicode case mapping is not modelled.
- `JavaCompare.CompareTo` compares Dafny characters, which are Unicode scalar values. Java compares UTF-16 code units, so the orders can differ for characters outside the Basic Multilingual Plane.
- `Tests.AllMethods` fixes one iteration order for the `HashSet` of methods: the four result lists in order, first occurrence kept. Java's order depends on hash buckets.
- `Tests.FilterTestMethods`: two distinct `ITestNGMethod` objects can share class and method name, for example two `@Factory` instances, one passed and one failed. Java's method set keeps whichever the `HashSet` yields first, so hash order decides which verdict is drawn (TestInfo.java:118-138). The model always keeps the first in the order passed, failed within success percentage, failed, skipped.
- `Hashing.StringHash` folds Dafny characters, which are Unicode scalar values. Java's `String.hashCode` folds UTF-16 code units, so hash codes, and with them subgraph numbers, differ for names with characters outside the Basic Multilingual Plane.
- Classes are identified by their name (`ITestClass` identity in Java); two distinct `ITestClass` objects with one name are not modelled.
- Every renderer requires every verdict to be set (`Classes.Renderable`, `Tests.ClassesRenderable`, `Suites.TestsRenderable`). Java throws `NullPointerException` on an unset verdict; the building functions prove the verdicts are set.
- The `null` branch of `dotWalkSuiteInfo` (TestSuiteInfo.java:90-92) is not modelled because it cannot be reached: the constructor always calls `buildChildSuites` (TestSuiteInfo.java:46), which reads the suite's list of child `XmlSuite`s and always assigns `childSuites` a `ConcurrentSkipListSet` (TestSuiteInfo.java:68-75).
- `hashCode` for `TestClassInfo`, `TestInfo` and `TestSuiteInfo` is modelled with `Hashing.NodeHashCode`, the same as `TestMethodInfo`.
- The constructors that take ready-made children (`TestInfo` with classes, `TestSuiteInfo` with tests) copy them without building; the model does the same and proves nothing further about them.
- The getters, the `Dottable` interface and the logging helpers have no behaviour of their own to model.
