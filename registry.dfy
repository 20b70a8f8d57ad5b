/** The rule registry: every rule the linter knows, in the order it runs
    them, each with the id that disables it and the function that builds
    it from the configuration. */
module Registry {
  import opened Diagnostics

  /** A built rule. Only the line-length rule keeps anything from the
      configuration. */
  datatype RuleInstance =
    | DuplicatedLoad
    | StandaloneExpression
    | UnnecessaryPass
    | UnusedArgument
    | ComparisonWithItself
    | PrivateAccess
    | MaxLineLength(config: LinterConfig)
    | NoElseReturn
    | FunctionName
    | ClassName
    | SignalName
    | VariableName
    | FunctionArgumentName
    | LoopVariableName
    | EnumName
    | EnumMemberName
    | ConstantName

  /** The factory of a definition, as data: every factory but the one of
      `max-line-length` ignores the configuration. */
  datatype Factory = Ignoring(rule: RuleInstance) | FromConfig

  datatype RuleDefinition = RuleDefinition(name: string, factory: Factory) {
    /** `create`: build the rule from the configuration. */
    function Create(config: LinterConfig): RuleInstance {
      match factory
      case Ignoring(rule) => rule
      case FromConfig => MaxLineLength(config)
    }
  }

  /** `ALL_RULES`. */
  function AllRules(): seq<RuleDefinition> {
    [ RuleDefinition("duplicated-load", Ignoring(DuplicatedLoad)),
      RuleDefinition("standalone-expression", Ignoring(StandaloneExpression)),
      RuleDefinition("unnecessary-pass", Ignoring(UnnecessaryPass)),
      RuleDefinition("unused-argument", Ignoring(UnusedArgument)),
      RuleDefinition("comparison-with-itself", Ignoring(ComparisonWithItself)),
      RuleDefinition("private-access", Ignoring(PrivateAccess)),
      RuleDefinition("max-line-length", FromConfig),
      RuleDefinition("no-else-return", Ignoring(NoElseReturn)),
      RuleDefinition("function-name", Ignoring(FunctionName)),
      RuleDefinition("class-name", Ignoring(ClassName)),
      RuleDefinition("signal-name", Ignoring(SignalName)),
      RuleDefinition("variable-name", Ignoring(VariableName)),
      RuleDefinition("function-argument-name", Ignoring(FunctionArgumentName)),
      RuleDefinition("loop-variable-name", Ignoring(LoopVariableName)),
      RuleDefinition("enum-name", Ignoring(EnumName)),
      RuleDefinition("enum-member-name", Ignoring(EnumMemberName)),
      RuleDefinition("constant-name", Ignoring(ConstantName)) ]
  }

  /** The id every issue of a built rule carries (the variable rule also
      uses "load-variable-name" for load-initialised variables). */
  function RuleId(rule: RuleInstance): string {
    match rule
    case DuplicatedLoad => "duplicated-load"
    case StandaloneExpression => "standalone-expression"
    case UnnecessaryPass => "unnecessary-pass"
    case UnusedArgument => "unused-argument"
    case ComparisonWithItself => "comparison-with-itself"
    case PrivateAccess => "private-access"
    case MaxLineLength(_) => "max-line-length"
    case NoElseReturn => "no-else-return"
    case FunctionName => "function-name"
    case ClassName => "class-name"
    case SignalName => "signal-name"
    case VariableName => "variable-name"
    case FunctionArgumentName => "function-argument-name"
    case LoopVariableName => "loop-variable-name"
    case EnumName => "enum-name"
    case EnumMemberName => "enum-member-name"
    case ConstantName => "constant-name"
  }

  /** The rule names in registry order. */
  function Names(): (r: seq<string>)
    ensures |r| == |AllRules()| && forall k :: 0 <= k < |r| ==> r[k] == AllRules()[k].name
  {
    seq(|AllRules()|, k requires 0 <= k < |AllRules()| => AllRules()[k].name)
  }

  /** The length and first letter of each rule name, in registry order. */
  function NameKeys(): seq<(nat, char)> {
    [(15, 'd'), (21, 's'), (16, 'u'), (15, 'u'), (22, 'c'), (14, 'p'), (15, 'm'), (14, 'n'),
     (13, 'f'), (10, 'c'), (11, 's'), (13, 'v'), (22, 'f'), (18, 'l'), (9, 'e'), (16, 'e'),
     (13, 'c')]
  }

  lemma NameKey(k: nat)
    requires k < |AllRules()|
    ensures |AllRules()[k].name| > 0 && (|AllRules()[k].name|, AllRules()[k].name[0]) == NameKeys()[k]
  {
    var name := AllRules()[k].name;
    assert name == ["duplicated-load", "standalone-expression", "unnecessary-pass", "unused-argument",
                    "comparison-with-itself", "private-access", "max-line-length", "no-else-return",
                    "function-name", "class-name", "signal-name", "variable-name", "function-argument-name",
                    "loop-variable-name", "enum-name", "enum-member-name", "constant-name"][k];
  }

  /** No two rules share a name: the names already differ in length or in
      their first letter. */
  lemma NamesDistinct(i: nat, j: nat)
    requires i < j < |AllRules()|
    ensures AllRules()[i].name != AllRules()[j].name
  {
    NameKey(i);
    NameKey(j);
    var keys := NameKeys();
    assert keys[i] != keys[j];
  }

  /** Some definition carries the rule's id as its name. */
  predicate HasEntry(r: RuleInstance) {
    exists k :: 0 <= k < |AllRules()| && AllRules()[k].name == RuleId(r)
  }

  /** Each definition builds a rule whose id is the definition's name, and
      every kind of rule has a definition. */
  lemma DefinitionIds(config: LinterConfig)
    ensures forall k :: 0 <= k < |AllRules()| ==> RuleId(AllRules()[k].Create(config)) == AllRules()[k].name
    ensures forall r: RuleInstance :: HasEntry(r)
  {
    forall r: RuleInstance ensures HasEntry(r) {
      var k := Registered(config, r);
    }
  }

  /** The entry that builds a given rule: each kind of rule has one, and
      the line-length rule is built with the configuration passed in. */
  lemma Registered(config: LinterConfig, r: RuleInstance) returns (k: nat)
    ensures k < |AllRules()| && AllRules()[k].name == RuleId(r)
    ensures AllRules()[k].Create(config) == if r.MaxLineLength? then MaxLineLength(config) else r
  {
    k := match r
      case DuplicatedLoad => 0
      case StandaloneExpression => 1
      case UnnecessaryPass => 2
      case UnusedArgument => 3
      case ComparisonWithItself => 4
      case PrivateAccess => 5
      case MaxLineLength(_) => 6
      case NoElseReturn => 7
      case FunctionName => 8
      case ClassName => 9
      case SignalName => 10
      case VariableName => 11
      case FunctionArgumentName => 12
      case LoopVariableName => 13
      case EnumName => 14
      case EnumMemberName => 15
      case ConstantName => 16;
  }

  /** Only `max-line-length` depends on the configuration, and it keeps the
      whole configuration. */
  lemma ConfigurationUse(config: LinterConfig, other: LinterConfig)
    ensures forall k :: 0 <= k < |AllRules()| && k != 6 ==> AllRules()[k].Create(config) == AllRules()[k].Create(other)
    ensures AllRules()[6].name == "max-line-length" && AllRules()[6].Create(config) == MaxLineLength(config)
  {
  }
}
