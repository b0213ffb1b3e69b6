/** A test class of the report (`TestClassInfo`): its name, the set of its
    methods, the verdict derived from them, and its DOT rendering. The
    has/get queries over the methods' verdicts are shared with the test level,
    which asks them of its own method list. */
module Classes {
  import opened Outcomes
  import opened Strings
  import opened JavaCompare
  import opened Hashing
  import opened Verdicts
  import opened Dot
  import opened Collections
  import opened Methods

  /** A class node. `methods` is the class's method set in iteration order. */
  datatype ClassNode = ClassNode(name: string, methods: seq<MethodNode>)

  function ClassNameOf(c: ClassNode): string
  {
    c.name
  }

  /** The constructor: a missing method set becomes an empty one. */
  function NewClass(name: string, methods: Option<seq<MethodNode>>): (r: ClassNode)
    ensures r.name == name
    ensures methods.None? ==> r.methods == []
    ensures methods.Some? ==> r.methods == methods.value
  {
    ClassNode(name, match methods case None => [] case Some(ms) => ms)
  }

  // ---------------------------------------------------------------------
  // Verdict queries (hasPassed/getPassed, hasSkips/getSkips, hasFailures/getFailures)
  // ---------------------------------------------------------------------

  /** Some method's verdict is `v`; a method without a verdict matches nothing. */
  predicate HasResult(ms: seq<MethodNode>, v: Verdict)
  {
    exists i :: 0 <= i < |ms| && ms[i].result == Some(v)
  }

  /** The methods whose verdict is `v`. */
  function WithResult(ms: seq<MethodNode>, v: Verdict): (r: set<MethodNode>)
    ensures forall m :: m in r <==> m in ms && m.result == Some(v)
  {
    set m | m in ms && m.result == Some(v)
  }

  /** `has…()` is true exactly when `get…()` is not empty. */
  lemma HasIffNonEmpty(ms: seq<MethodNode>, v: Verdict)
    ensures HasResult(ms, v) <==> WithResult(ms, v) != {}
  {
    if HasResult(ms, v) {
      var i :| 0 <= i < |ms| && ms[i].result == Some(v);
      assert ms[i] in WithResult(ms, v);
    }
    if WithResult(ms, v) != {} {
      var m :| m in WithResult(ms, v);
      var i :| 0 <= i < |ms| && ms[i] == m;
    }
  }

  /** The three queries split the methods: no method is in two answers, and
      when every verdict is set, together they hold every method. */
  lemma ResultsPartition(ms: seq<MethodNode>, a: Verdict, b: Verdict)
    ensures a != b ==> WithResult(ms, a) !! WithResult(ms, b)
    ensures (forall m :: m in ms ==> m.result.Some?) ==>
              WithResult(ms, Passed) + WithResult(ms, Skipped) + WithResult(ms, Failed) == set m | m in ms
  {
    if forall m :: m in ms ==> m.result.Some? {
      forall m | m in ms
        ensures m in WithResult(ms, Passed) + WithResult(ms, Skipped) + WithResult(ms, Failed)
      {
        match m.result.value
        case Passed =>
        case Skipped =>
        case Failed =>
      }
    }
  }

  /** `setTestResult`: PASSED, overridden by SKIPPED when a method was skipped,
      overridden by FAILED when a method failed. */
  function ClassVerdict(c: ClassNode): (r: Verdict)
    ensures r == Failed <==> HasResult(c.methods, Failed)
    ensures r == Skipped <==> HasResult(c.methods, Skipped) && !HasResult(c.methods, Failed)
    ensures r == Passed <==> !HasResult(c.methods, Skipped) && !HasResult(c.methods, Failed)
  {
    Precedence(HasResult(c.methods, Skipped), HasResult(c.methods, Failed))
  }

  /** What a method contributes to its container's verdict: its own verdict,
      or nothing (the same as PASSED) when it has none. */
  function Contribution(m: MethodNode): Verdict
  {
    match m.result
    case None => Passed
    case Some(v) => v
  }

  function Contributions(ms: seq<MethodNode>): (r: seq<Verdict>)
    ensures |r| == |ms|
    ensures forall i :: 0 <= i < |ms| ==> r[i] == Contribution(ms[i])
  {
    if |ms| == 0 then [] else [Contribution(ms[0])] + Contributions(ms[1..])
  }

  lemma HasResultCons(ms: seq<MethodNode>, v: Verdict)
    requires |ms| > 0
    ensures HasResult(ms, v) <==> ms[0].result == Some(v) || HasResult(ms[1..], v)
  {
    if HasResult(ms, v) && ms[0].result != Some(v) {
      var i :| 0 <= i < |ms| && ms[i].result == Some(v);
      assert ms[1..][i - 1] == ms[i];
    }
    if HasResult(ms[1..], v) {
      var i :| 0 <= i < |ms[1..]| && ms[1..][i].result == Some(v);
      assert ms[i + 1] == ms[1..][i];
    }
  }

  /** The precedence rule is "the worst verdict wins" over the methods. */
  lemma {:induction false} PrecedenceIsWorst(ms: seq<MethodNode>)
    ensures Precedence(HasResult(ms, Skipped), HasResult(ms, Failed)) == Worst(Contributions(ms))
  {
    if |ms| > 0 {
      HasResultCons(ms, Skipped);
      HasResultCons(ms, Failed);
      PrecedenceIsWorst(ms[1..]);
      assert Contributions(ms)[1..] == Contributions(ms[1..]);
    }
  }

  lemma VerdictIsWorst(c: ClassNode)
    ensures ClassVerdict(c) == Worst(Contributions(c.methods))
  {
    PrecedenceIsWorst(c.methods);
  }

  // ---------------------------------------------------------------------
  // Identity
  // ---------------------------------------------------------------------

  /** `equals`: by name. */
  predicate ClassEquals(a: ClassNode, b: ClassNode)
  {
    a.name == b.name
  }

  /** `compareTo`: descending by name, zero exactly for equal nodes. */
  function ClassCompareTo(a: ClassNode, b: ClassNode): (r: int)
    ensures r == 0 <==> ClassEquals(a, b)
    ensures r < 0 <==> Less(b.name, a.name)
    ensures r > 0 <==> Less(a.name, b.name)
  {
    ReverseCompare(a.name, b.name)
  }

  function ClassHashCode(c: ClassNode): int
  {
    NodeHashCode(c.name)
  }

  // ---------------------------------------------------------------------
  // DOT
  // ---------------------------------------------------------------------

  /** Every method has a verdict, so each can be given its colour. */
  predicate Renderable(ms: seq<MethodNode>)
  {
    forall m :: m in ms ==> m.result.Some?
  }

  /** The box drawn for the class. */
  function ClassLine(name: string): string
  {
    NodeLine(name, "shape=box,label=\"Class: " + name + "\"")
  }

  /** The text for one method of `owner`: the method coloured by its verdict,
      the edge from the owner to it, and the method's own nested subgraph. */
  function MethodEntry(owner: string, m: MethodNode, namer: Namer): string
    requires m.result.Some?
  {
    NodeLine(m.name, DotStyle(m.result.value)) + Edge(owner, m.name) + Methods.ToDot(m, true, namer)
  }

  /** The entries of a list of methods, one for one. */
  function Entries(owner: string, ms: seq<MethodNode>, namer: Namer): (r: seq<string>)
    requires Renderable(ms)
    ensures |r| == |ms|
    ensures forall i :: 0 <= i < |ms| ==> r[i] == MethodEntry(owner, ms[i], namer)
  {
    if |ms| == 0 then [] else [MethodEntry(owner, ms[0], namer)] + Entries(owner, ms[1..], namer)
  }

  /** The rendering loop: a method whose name has already been visited is skipped. */
  function VisitedEntries(owner: string, ms: seq<MethodNode>, visited: set<string>, namer: Namer): string
    requires Renderable(ms)
  {
    if |ms| == 0 then ""
    else if ms[0].name in visited then VisitedEntries(owner, ms[1..], visited, namer)
    else MethodEntry(owner, ms[0], namer) + VisitedEntries(owner, ms[1..], visited + {ms[0].name}, namer)
  }

  /** The loop renders exactly the first method of each not-yet-visited name, in order. */
  lemma {:induction false} VisitedEntriesAreFirstByName(owner: string, ms: seq<MethodNode>, visited: set<string>, namer: Namer)
    requires Renderable(ms)
    ensures Renderable(FirstByKey(ms, NameOf, visited))
    ensures VisitedEntries(owner, ms, visited, namer) == Concat(Entries(owner, FirstByKey(ms, NameOf, visited), namer))
  {
    if |ms| > 0 {
      var tail := ms[1..];
      assert Renderable(tail) by {
        forall m | m in tail ensures m.result.Some? { assert m in ms; }
      }
      if ms[0].name in visited {
        VisitedEntriesAreFirstByName(owner, tail, visited, namer);
      } else {
        var seen := visited + {ms[0].name};
        VisitedEntriesAreFirstByName(owner, tail, seen, namer);
        var rest := FirstByKey(tail, NameOf, seen);
        var kept := [ms[0]] + rest;
        assert FirstByKey(ms, NameOf, visited) == kept;
        assert Entries(owner, kept, namer) == [MethodEntry(owner, ms[0], namer)] + Entries(owner, rest, namer);
        ConcatAppend([MethodEntry(owner, ms[0], namer)], Entries(owner, rest, namer));
      }
    }
  }

  /** Of two methods with the same name, only the first is drawn. */
  lemma SameNameDrawnOnce(owner: string, a: MethodNode, b: MethodNode, namer: Namer)
    requires a.result.Some? && b.result.Some? && a.name == b.name
    ensures VisitedEntries(owner, [a, b], {}, namer) == MethodEntry(owner, a, namer)
  {
    assert [a, b][1..] == [b];
    assert [b][1..] == [];
    var e := MethodEntry(owner, a, namer);
    var seen: set<string> := {} + {a.name};
    assert VisitedEntries(owner, [b], seen, namer) == VisitedEntries(owner, [], seen, namer) == "";
    assert VisitedEntries(owner, [a, b], {}, namer) == e + VisitedEntries(owner, [b], seen, namer);
    assert e + "" == e;
  }

  /** `toDot(asSubgraph)`. Nested, a class without methods renders as nothing;
      otherwise the class box comes first, then every method's entry. */
  function ToDot(c: ClassNode, asSubgraph: bool, namer: Namer): (r: string)
    requires Renderable(c.methods)
    ensures r == "" <==> asSubgraph && |c.methods| == 0
    ensures !asSubgraph ==> StartsWith(r, GraphHeader + " {\n" + ClassLine(c.name))
    ensures asSubgraph && r != "" ==> StartsWith(r, "subgraph class")
    ensures r != "" ==> EndsWith(r, "}\n")
  {
    if asSubgraph && |c.methods| == 0 then ""
    else
      var suffix := NatToString(namer(c.name));
      RenderedBlock(asSubgraph, "subgraph class", suffix, ClassLine(c.name), VisitedEntries(c.name, c.methods, {}, namer));
      Block(Header(asSubgraph, "subgraph class", suffix), ClassLine(c.name) + VisitedEntries(c.name, c.methods, {}, namer))
  }

  /** For a real method set (no two methods share a name), every method is
      drawn once, in iteration order, after the class box. */
  lemma ToDotDrawsEveryMethod(c: ClassNode, asSubgraph: bool, namer: Namer)
    requires Renderable(c.methods) && DistinctKeys(c.methods, NameOf)
    requires !asSubgraph || |c.methods| > 0
    ensures ToDot(c, asSubgraph, namer) ==
              Block(Header(asSubgraph, "subgraph class", NatToString(namer(c.name))),
                    ClassLine(c.name) + Concat(Entries(c.name, c.methods, namer)))
  {
    FirstByKeyOfDistinct(c.methods, NameOf, {});
    VisitedEntriesAreFirstByName(c.name, c.methods, {}, namer);
  }

  /** A class always draws at least its box, so its top-level graph is never
      the trivial one. */
  lemma TopLevelNeverEmptyGraph(c: ClassNode, namer: Namer)
    requires Renderable(c.methods)
    ensures ToDot(c, false, namer) != EmptyGraph
  {
    var body := ClassLine(c.name) + VisitedEntries(c.name, c.methods, {}, namer);
    BlockIsEmptyGraph(body);
    assert |ClassLine(c.name)| > 0;
  }
}
