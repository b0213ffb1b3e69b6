/** The listener's command-line options (`DependencyReportingListener.Option`).
    All options live in one system property, `dependencyReporter`, as a
    comma-separated list of `NAME:value` pairs; an option not mentioned, or
    mentioned with a value it does not know, keeps its default, the first of
    its values. */
module Options {
  import opened Outcomes
  import opened Strings

  /** The name of the system property that holds the options. */
  const PropertyName: string := "dependencyReporter"

  datatype Opt = Enabled | Prescan | Mode | Output

  /** The option's name as written in the property (matched after upper-casing the key). */
  function OptName(o: Opt): string
  {
    match o
    case Enabled => "ENABLED"
    case Prescan => "PRESCAN"
    case Mode => "MODE"
    case Output => "OUTPUT"
  }

  /** The values an option accepts; the first is its default. */
  function Values(o: Opt): (r: seq<string>)
    ensures |r| >= 2
  {
    match o
    case Enabled => ["true", "false"]
    case Prescan => ["false", "true"]
    case Mode => ["all", "suites", "tests", "classes", "methods", "groups", "configuration"]
    case Output => ["all", "dot", "png", "json", "yaml"]
  }

  function Default(o: Opt): string
  {
    Values(o)[0]
  }

  /** Every value an option accepts is already in lower case, so the lower-cased
      text from the property can match it. */
  lemma ValuesAreLower(o: Opt)
    ensures forall v :: v in Values(o) ==> NoUpperLetters(v) && ToLower(v) == v
  {
    match o
    case Enabled => AllLower(Values(Enabled));
    case Prescan => AllLower(Values(Prescan));
    case Mode => AllLower(Values(Mode));
    case Output => AllLower(Values(Output));
  }

  lemma AllLower(vs: seq<string>)
    requires forall i, j :: 0 <= i < |vs| && 0 <= j < |vs[i]| ==> 'a' <= vs[i][j] <= 'z'
    ensures forall v :: v in vs ==> NoUpperLetters(v) && ToLower(v) == v
  {
    forall v | v in vs ensures NoUpperLetters(v) && ToLower(v) == v {
      LowerFixesLower(v);
    }
  }

  lemma LowerFixesLower(v: string)
    requires forall i :: 0 <= i < |v| ==> 'a' <= v[i] <= 'z'
    ensures NoUpperLetters(v) && ToLower(v) == v
  {
  }

  /** How parsing fails: Java indexes past the end of the split pair. A pair
      that splits into nothing (":" or "::") has no key; a pair naming the
      option without a `:value` part has no value. */
  datatype ParseError = MissingKey(pair: string) | MissingValue(pair: string)

  /** What one comma-separated pair does to the option being parsed. */
  datatype PairEffect = Ignore | Override(value: string) | Broken(error: ParseError)

  /** One pair: split on ':', upper-case the first piece and compare it with the
      option's name; on a match lower-case the second piece and take it if the
      option accepts it. */
  function Classify(o: Opt, pair: string): (r: PairEffect)
    ensures r.Override? ==> r.value in Values(o)
  {
    var terms := JavaSplit(pair, ':');
    if |terms| == 0 then Broken(MissingKey(pair))
    else if ToUpper(terms[0]) != OptName(o) then Ignore
    else if |terms| < 2 then Broken(MissingValue(pair))
    else
      var value := ToLower(terms[1]);
      if value in Values(o) then Override(value) else Ignore
  }

  /** What one pair does, read off its raw text: the key is the text before
      the first ':', the value the text between the first and the second ':'.
      Separators only is a missing key; a matching key followed by nothing but
      separators is a missing value. */
  function ClassifyText(o: Opt, pair: string): PairEffect
  {
    var key := UpToSep(pair, ':');
    var rest := AfterSep(pair, ':');
    if |pair| > 0 && AllSep(pair, ':') then Broken(MissingKey(pair))
    else if ToUpper(key) != OptName(o) then Ignore
    else if AllSep(rest, ':') then Broken(MissingValue(pair))
    else
      var value := ToLower(UpToSep(rest, ':'));
      if value in Values(o) then Override(value) else Ignore
  }

  /** `Classify` agrees with the raw-text reading on every pair. */
  lemma ClassifyMeaning(o: Opt, pair: string)
    ensures Classify(o, pair) == ClassifyText(o, pair)
    ensures Classify(o, pair) == Broken(MissingKey(pair)) <==> |pair| > 0 && AllSep(pair, ':')
  {
    JavaSplitShape(pair, ':');
  }

  /** The comma-separated pairs of the property text. */
  function Pairs(options: string): seq<string>
  {
    JavaSplit(options, ',')
  }

  predicate NoneBroken(o: Opt, pairs: seq<string>)
  {
    forall i :: 0 <= i < |pairs| ==> !Classify(o, pairs[i]).Broken?
  }

  /** Pair `i` overrides the option and no later pair does. */
  predicate LastOverride(o: Opt, pairs: seq<string>, i: int)
  {
    && 0 <= i < |pairs|
    && Classify(o, pairs[i]).Override?
    && forall j :: i < j < |pairs| ==> !Classify(o, pairs[j]).Override?
  }

  /** What each pair does to the option, in order. */
  function Effects(o: Opt, pairs: seq<string>): (r: seq<PairEffect>)
    ensures |r| == |pairs|
    ensures forall i :: 0 <= i < |pairs| ==> r[i] == Classify(o, pairs[i])
  {
    if |pairs| == 0 then [] else [Classify(o, pairs[0])] + Effects(o, pairs[1..])
  }

  /** The loop of `parseOptions` over the pairs' effects, starting from
      `current`: it stops at the first broken pair, and an overriding pair
      replaces the value found so far. */
  function Apply(effects: seq<PairEffect>, current: string): (r: Result<string, ParseError>)
    ensures r.Success? ==> r.value == current || exists i :: 0 <= i < |effects| && effects[i] == Override(r.value)
    decreases |effects|
  {
    if |effects| == 0 then Success(current)
    else
      var rest := effects[1..];
      assert forall j :: 0 <= j < |rest| ==> rest[j] == effects[j + 1];
      match effects[0]
      case Broken(e) => Failure(e)
      case Ignore => Apply(rest, current)
      case Override(v) => Apply(rest, v)
  }

  /** The loop succeeds exactly when no effect is broken, and a failure
      reports the first broken one. */
  lemma {:induction false} ApplyFailure(effects: seq<PairEffect>, current: string)
    ensures Apply(effects, current).Success? <==> forall i :: 0 <= i < |effects| ==> !effects[i].Broken?
    ensures var r := Apply(effects, current);
            r.Failure? ==> exists i :: 0 <= i < |effects| && effects[i] == Broken(r.error)
                                       && forall j :: 0 <= j < i ==> !effects[j].Broken?
    decreases |effects|
  {
    if |effects| > 0 {
      var rest := effects[1..];
      assert forall j :: 0 <= j < |rest| ==> rest[j] == effects[j + 1];
      match effects[0]
      case Broken(e) =>
      case Ignore =>
        ApplyFailure(rest, current);
      case Override(v) =>
        ApplyFailure(rest, v);
    }
  }

  /** Without an overriding effect, a successful loop keeps the starting value. */
  lemma {:induction false} ApplyKeeps(effects: seq<PairEffect>, current: string)
    requires forall i :: 0 <= i < |effects| ==> !effects[i].Override?
    ensures Apply(effects, current).Success? ==> Apply(effects, current).value == current
    decreases |effects|
  {
    if |effects| > 0 {
      var rest := effects[1..];
      assert forall j :: 0 <= j < |rest| ==> rest[j] == effects[j + 1];
      ApplyKeeps(rest, current);
    }
  }

  /** The last overriding effect decides the value. */
  lemma {:induction false} ApplyLastWins(effects: seq<PairEffect>, current: string, i: int)
    requires 0 <= i < |effects| && effects[i].Override?
    requires forall j :: i < j < |effects| ==> !effects[j].Override?
    ensures Apply(effects, current).Success? ==> Apply(effects, current).value == effects[i].value
    decreases |effects|
  {
    var rest := effects[1..];
    assert forall j :: 0 <= j < |rest| ==> rest[j] == effects[j + 1];
    if i == 0 {
      ApplyKeeps(rest, effects[0].value);
    } else {
      match effects[0]
      case Broken(e) =>
      case Ignore => ApplyLastWins(rest, current, i - 1);
      case Override(v) => ApplyLastWins(rest, v, i - 1);
    }
  }

  /** The loop of `parseOptions` over the pairs, starting from `current`. A
      value it returns is the starting one or one the option accepts. */
  function ParsePairs(o: Opt, pairs: seq<string>, current: string): (r: Result<string, ParseError>)
    ensures r.Success? ==> r.value == current || r.value in Values(o)
  {
    Apply(Effects(o, pairs), current)
  }

  /** Parsing succeeds exactly when no pair is broken, and a failure reports
      the first broken pair. */
  lemma ParsePairsFailure(o: Opt, pairs: seq<string>, current: string)
    ensures ParsePairs(o, pairs, current).Success? <==> NoneBroken(o, pairs)
    ensures var r := ParsePairs(o, pairs, current);
            r.Failure? ==> exists i :: 0 <= i < |pairs| && Classify(o, pairs[i]) == Broken(r.error)
                                       && NoneBroken(o, pairs[..i])
  {
    var effects := Effects(o, pairs);
    ApplyFailure(effects, current);
    var r := Apply(effects, current);
    if r.Failure? {
      var i :| 0 <= i < |effects| && effects[i] == Broken(r.error) && forall j :: 0 <= j < i ==> !effects[j].Broken?;
      UnbrokenPrefix(o, pairs, i);
    }
  }

  lemma UnbrokenPrefix(o: Opt, pairs: seq<string>, i: int)
    requires 0 <= i <= |pairs|
    requires forall j :: 0 <= j < i ==> !Effects(o, pairs)[j].Broken?
    ensures NoneBroken(o, pairs[..i])
  {
    var effects := Effects(o, pairs);
    forall j | 0 <= j < i
      ensures !Classify(o, pairs[..i][j]).Broken?
    {
      assert pairs[..i][j] == pairs[j];
      assert effects[j] == Classify(o, pairs[j]);
    }
  }

  /** Without an overriding pair, a successful parse keeps the starting value. */
  lemma ParsePairsKeeps(o: Opt, pairs: seq<string>, current: string)
    requires forall i :: 0 <= i < |pairs| ==> !Classify(o, pairs[i]).Override?
    ensures ParsePairs(o, pairs, current).Success? ==> ParsePairs(o, pairs, current).value == current
  {
    ApplyKeeps(Effects(o, pairs), current);
  }

  /** The last overriding pair wins. */
  lemma ParsePairsLastWins(o: Opt, pairs: seq<string>, current: string, i: int)
    requires LastOverride(o, pairs, i)
    ensures ParsePairs(o, pairs, current).Success? ==> ParsePairs(o, pairs, current).value == Classify(o, pairs[i]).value
  {
    ApplyLastWins(Effects(o, pairs), current, i);
  }

  /** `parseOptions`: the option's value in the property text, or the error
      Java would throw. It succeeds exactly when no pair is broken; a value
      that is returned is always one the option accepts, and in lower case. */
  function ParseOptions(o: Opt, options: string): (r: Result<string, ParseError>)
    ensures r.Success? <==> NoneBroken(o, Pairs(options))
    ensures r.Success? ==> r.value in Values(o) && NoUpperLetters(r.value)
  {
    ValuesAreLower(o);
    ParsePairsFailure(o, Pairs(options), Default(o));
    ParsePairs(o, Pairs(options), Default(o))
  }

  /** The value parsed is decided by the pairs: the last pair that names the
      option with a value it accepts, or the default when there is none; a
      failure reports the first broken pair. */
  lemma ParseOptionsMeaning(o: Opt, options: string)
    ensures var r := ParseOptions(o, options);
            r.Success? && (forall i :: 0 <= i < |Pairs(options)| ==> !Classify(o, Pairs(options)[i]).Override?) ==>
              r.value == Default(o)
    ensures var r := ParseOptions(o, options);
            forall i :: r.Success? && LastOverride(o, Pairs(options), i) ==> r.value == Classify(o, Pairs(options)[i]).value
    ensures var r := ParseOptions(o, options);
            r.Failure? ==> exists i :: 0 <= i < |Pairs(options)| && Classify(o, Pairs(options)[i]) == Broken(r.error)
                                       && NoneBroken(o, Pairs(options)[..i])
  {
    var pairs := Pairs(options);
    ParsePairsFailure(o, pairs, Default(o));
    if forall i :: 0 <= i < |pairs| ==> !Classify(o, pairs[i]).Override? {
      ParsePairsKeeps(o, pairs, Default(o));
    }
    forall i | LastOverride(o, pairs, i)
      ensures ParseOptions(o, options).Success? ==> ParseOptions(o, options).value == Classify(o, pairs[i]).value
    {
      ParsePairsLastWins(o, pairs, Default(o), i);
    }
  }

  /** `isSet(orValues...)`: whether the parsed value equals one of the given
      values, ignoring case. Each value re-parses the property, so a broken
      property fails as soon as there is a value to test; with no values the
      answer is false without parsing. */
  function IsSet(o: Opt, options: string, orValues: seq<string>): (r: Result<bool, ParseError>)
    ensures r.Failure? <==> |orValues| > 0 && ParseOptions(o, options).Failure?
    ensures r.Failure? ==> r.error == ParseOptions(o, options).error
    ensures r == Success(true) <==>
              ParseOptions(o, options).Success? &&
              exists i :: 0 <= i < |orValues| && EqualsIgnoreCase(ParseOptions(o, options).value, orValues[i])
  {
    if |orValues| == 0 then Success(false)
    else
      match ParseOptions(o, options)
      case Failure(e) => Failure(e)
      case Success(p) => Success(exists i :: 0 <= i < |orValues| && EqualsIgnoreCase(p, orValues[i]))
  }

  /** With lower-case candidates, as every call site passes, `isSet` is plain
      membership of the parsed value. */
  lemma IsSetOfLower(o: Opt, options: string, orValues: seq<string>)
    requires forall i :: 0 <= i < |orValues| ==> NoUpperLetters(orValues[i])
    requires |orValues| > 0
    requires ParseOptions(o, options).Success?
    ensures IsSet(o, options, orValues) == Success(ParseOptions(o, options).value in orValues)
  {
    var p := ParseOptions(o, options).value;
    forall i | 0 <= i < |orValues| ensures EqualsIgnoreCase(p, orValues[i]) <==> p == orValues[i] {
      EqualsIgnoreCaseOfLower(p, orValues[i]);
    }
  }

  /** Without the property (the empty text) every option has its default. */
  lemma EmptyPropertyGivesDefault(o: Opt)
    ensures ParseOptions(o, "") == Success(Default(o))
  {
    assert Pairs("") == [""];
    assert JavaSplit("", ':') == [""];
    assert ToUpper("") == "";
  }

  /** Text made of at least two nonempty pieces joined by a separator they do
      not contain splits back into exactly those pieces. */
  lemma JavaSplitOfJoin(parts: seq<string>, sep: char)
    requires |parts| >= 2
    requires forall i :: 0 <= i < |parts| ==> sep !in parts[i] && parts[i] != ""
    ensures JavaSplit(Join(parts, sep), sep) == parts
  {
    SplitAllJoin(parts, sep);
    JoinHasSeparator(parts, sep);
  }

  lemma JoinHasSeparator(parts: seq<string>, sep: char)
    requires |parts| >= 2
    ensures sep in Join(parts, sep)
  {
    var j := Join(parts, sep);
    assert j == parts[0] + [sep] + Join(parts[1..], sep);
    assert j[|parts[0]|] == sep;
  }

  /** A `key:value` pair with a nonempty key and value and no other colon
      splits into the key and the value. */
  lemma KeyValueSplit(key: string, value: string)
    requires key != "" && value != "" && ':' !in key && ':' !in value
    ensures JavaSplit(key + ":" + value, ':') == [key, value]
  {
    assert key + ":" + value == Join([key, value], ':');
    JavaSplitOfJoin([key, value], ':');
  }

  /** A `key:value` pair with a nonempty key and value and no other colon:
      the key is compared after upper-casing and the value is lower-cased. */
  lemma ClassifyKeyValue(o: Opt, key: string, value: string)
    requires key != "" && value != "" && ':' !in key && ':' !in value
    ensures Classify(o, key + ":" + value) ==
              if ToUpper(key) != OptName(o) then Ignore
              else if ToLower(value) in Values(o) then Override(ToLower(value))
              else Ignore
  {
    KeyValueSplit(key, value);
  }

  /** `mode:Classes` sets MODE to "classes" and leaves the others alone. */
  lemma ClassifyModeClasses()
    ensures Classify(Mode, "mode:Classes") == Override("classes")
    ensures Classify(Output, "mode:Classes") == Ignore
    ensures Classify(Enabled, "mode:Classes") == Ignore
  {
    ModeClassesFor(Mode);
    ModeClassesFor(Output);
    ModeClassesFor(Enabled);
  }

  lemma ModeClassesFor(o: Opt)
    ensures Classify(o, "mode:Classes") == if o == Mode then Override("classes") else Ignore
  {
    ModeClassesSplit();
    ModeClassesCase();
    ClassifyKeyValue(o, "mode", "Classes");
  }

  lemma ModeClassesSplit()
    ensures "mode:Classes" == "mode" + ":" + "Classes"
    ensures "mode" != "" && "Classes" != "" && ':' !in "mode" && ':' !in "Classes"
  {
  }

  lemma ModeClassesCase()
    ensures ToUpper("mode") == "MODE"
    ensures ToLower("Classes") == "classes"
  {
    ModeUpper();
    ClassesLower();
  }

  lemma ModeUpper()
    ensures ToUpper("mode") == "MODE"
  {
    var u := ToUpper("mode");
    assert u[0] == 'M' && u[1] == 'O' && u[2] == 'D' && u[3] == 'E';
  }

  lemma ClassesLower()
    ensures ToLower("Classes") == "classes"
  {
    assert ToLower("Classes") == [LowerChar('C')] + ToLower("lasses");
    LowerFixesNonUpper("lasses");
  }


  /** `OUTPUT:json` sets OUTPUT to "json" and leaves the others alone. */
  lemma ClassifyOutputJson()
    ensures Classify(Mode, "OUTPUT:json") == Ignore
    ensures Classify(Output, "OUTPUT:json") == Override("json")
    ensures Classify(Enabled, "OUTPUT:json") == Ignore
  {
    OutputJsonFor(Mode);
    OutputJsonFor(Output);
    OutputJsonFor(Enabled);
  }

  lemma OutputJsonFor(o: Opt)
    ensures Classify(o, "OUTPUT:json") == if o == Output then Override("json") else Ignore
  {
    OutputJsonSplit();
    UpperFixesNonLower("OUTPUT");
    LowerFixesNonUpper("json");
    ClassifyKeyValue(o, "OUTPUT", "json");
  }

  lemma OutputJsonSplit()
    ensures "OUTPUT:json" == "OUTPUT" + ":" + "json"
    ensures "OUTPUT" != "" && "json" != "" && ':' !in "OUTPUT" && ':' !in "json"
  {
  }

  /** `-DdependencyReporter=mode:Classes,OUTPUT:json`: each option reads its
      own pair, and an option not mentioned keeps its default. */
  lemma ModeClassesOutputJson()
    ensures ParseOptions(Mode, "mode:Classes,OUTPUT:json") == Success("classes")
    ensures ParseOptions(Output, "mode:Classes,OUTPUT:json") == Success("json")
    ensures ParseOptions(Enabled, "mode:Classes,OUTPUT:json") == Success("true")
  {
    var text := "mode:Classes,OUTPUT:json";
    assert Pairs(text) == ["mode:Classes", "OUTPUT:json"] by {
      assert text == Join(["mode:Classes", "OUTPUT:json"], ',');
      JavaSplitOfJoin(["mode:Classes", "OUTPUT:json"], ',');
    }
    ClassifyModeClasses();
    ClassifyOutputJson();
  }

  /** The two ways a property breaks parsing: a pair naming the option with
      no value breaks that option only, while a pair that is nothing but a
      colon breaks every option. */
  lemma BrokenProperties(o: Opt)
    ensures ParseOptions(Mode, "MODE") == Failure(MissingValue("MODE"))
    ensures ParseOptions(Output, "MODE") == Success(Default(Output))
    ensures ParseOptions(o, ":") == Failure(MissingKey(":"))
  {
    MissingValueBreaksMode();
    MissingKeyBreaksAll(o);
  }

  lemma MissingValueBreaksMode()
    ensures ParseOptions(Mode, "MODE") == Failure(MissingValue("MODE"))
    ensures ParseOptions(Output, "MODE") == Success(Default(Output))
  {
    assert Pairs("MODE") == ["MODE"];
    assert Classify(Mode, "MODE") == Broken(MissingValue("MODE")) && Classify(Output, "MODE") == Ignore by {
      assert JavaSplit("MODE", ':') == ["MODE"];
      assert ToUpper("MODE") == "MODE";
    }
  }

  lemma MissingKeyBreaksAll(o: Opt)
    ensures ParseOptions(o, ":") == Failure(MissingKey(":"))
  {
    assert Pairs(":") == [":"];
    assert Classify(o, ":") == Broken(MissingKey(":")) by {
      assert SplitAll(":", ':') == ["", ""];
      assert JavaSplit(":", ':') == [];
    }
  }

  /** `ENABLED.isSet("false")`: fails exactly when ENABLED cannot be parsed,
      and otherwise holds exactly when it parses as "false". */
  lemma EnabledIsFalse(options: string)
    ensures IsSet(Enabled, options, ["false"]).Failure? <==> ParseOptions(Enabled, options).Failure?
    ensures ParseOptions(Enabled, options).Success? ==>
              IsSet(Enabled, options, ["false"]) == Success(ParseOptions(Enabled, options).value == "false")
  {
    if ParseOptions(Enabled, options).Success? {
      IsSetOfLower(Enabled, options, ["false"]);
    }
  }

  /** `ENABLED:false` sets ENABLED to "false". */
  lemma ClassifyEnabledFalse()
    ensures Classify(Enabled, "ENABLED:false") == Override("false")
  {
    EnabledFalseSplit();
    EnabledFalseCase();
    ClassifyKeyValue(Enabled, "ENABLED", "false");
  }

  lemma EnabledFalseSplit()
    ensures "ENABLED:false" == "ENABLED" + ":" + "false"
    ensures "ENABLED" != "" && "false" != "" && ':' !in "ENABLED" && ':' !in "false"
  {
  }

  lemma EnabledFalseCase()
    ensures ToUpper("ENABLED") == "ENABLED"
    ensures ToLower("false") == "false"
  {
    UpperFixesNonLower("ENABLED");
    LowerFixesNonUpper("false");
  }

  lemma EnabledFalseParses()
    ensures ParseOptions(Enabled, "ENABLED:false") == Success("false")
  {
    assert ',' !in "ENABLED:false";
    assert Pairs("ENABLED:false") == ["ENABLED:false"];
    ClassifyEnabledFalse();
    ParseOptionsMeaning(Enabled, "ENABLED:false");
    assert LastOverride(Enabled, Pairs("ENABLED:false"), 0);
  }
}
