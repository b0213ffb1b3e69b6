/** The three-valued test verdict (`Result`), its Graphviz style, and the
    precedence rule the containers use to derive their own verdict. */
module Verdicts {
  import opened Outcomes
  import opened Strings

  datatype Verdict = Skipped | Failed | Passed

  /** The style `getDotStyle` falls back to for a value outside the three above. */
  const EmptyStyle: string := "style=empty"

  const StylePrefix: string := "style=filled,color="

  /** `Result.getDotStyle`: yellow for SKIPPED, red for FAILED, green for PASSED. */
  function DotStyle(v: Verdict): (r: string)
    ensures StartsWith(r, StylePrefix)
    ensures r != EmptyStyle
  {
    match v
    case Skipped => "style=filled,color=yellow"
    case Failed => "style=filled,color=red"
    case Passed => "style=filled,color=green"
  }

  /** Reads a verdict back from a node style. */
  function StyleVerdict(style: string): Option<Verdict>
  {
    if style == StylePrefix + "yellow" then Some(Skipped)
    else if style == StylePrefix + "red" then Some(Failed)
    else if style == StylePrefix + "green" then Some(Passed)
    else None
  }

  /** The style identifies the verdict, so no two verdicts share a colour. */
  lemma DotStyleRoundTrip(v: Verdict)
    ensures StyleVerdict(DotStyle(v)) == Some(v)
  {
  }

  lemma DotStyleInjective(a: Verdict, b: Verdict)
    ensures DotStyle(a) == DotStyle(b) ==> a == b
  {
    DotStyleRoundTrip(a);
    DotStyleRoundTrip(b);
  }

  /** How bad a verdict is: FAILED over SKIPPED over PASSED. */
  function Severity(v: Verdict): nat
  {
    match v
    case Passed => 0
    case Skipped => 1
    case Failed => 2
  }

  function Worse(a: Verdict, b: Verdict): Verdict
  {
    if Severity(a) >= Severity(b) then a else b
  }

  /** The most severe verdict of a list, PASSED for an empty one. */
  function Worst(vs: seq<Verdict>): (r: Verdict)
    ensures forall i :: 0 <= i < |vs| ==> Severity(vs[i]) <= Severity(r)
    ensures r == Passed || r in vs
  {
    if |vs| == 0 then Passed else Worse(vs[0], Worst(vs[1..]))
  }

  /** The derivation shared by classes and tests: PASSED by default, overridden
      to SKIPPED when something was skipped, overridden again to FAILED when
      something failed. */
  function Precedence(hasSkips: bool, hasFailures: bool): (r: Verdict)
    ensures r == Failed <==> hasFailures
    ensures r == Skipped <==> hasSkips && !hasFailures
    ensures r == Passed <==> !hasSkips && !hasFailures
  {
    var initial := Passed;
    var afterSkips := if hasSkips then Skipped else initial;
    if hasFailures then Failed else afterSkips
  }

  /** Deriving a verdict from two groups together is the worse of deriving it from each. */
  lemma PrecedenceOfEither(s1: bool, f1: bool, s2: bool, f2: bool)
    ensures Precedence(s1 || s2, f1 || f2) == Worse(Precedence(s1, f1), Precedence(s2, f2))
  {
  }
}
