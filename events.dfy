/**
  The lifecycle events a test run publishes to its formatter plugins, as far as
  the JSON, HTML and usage formatters read them. Identifiers, texts and code
  locations are plain strings; a Java `null` is `None`.
 */
module Events {

  datatype Option<+T> = None | Some(value: T)

  type Uri = string

  /** The decimal digits of `n`, most significant first, as `Integer.toString` writes them. */
  function NatToString(n: nat): (s: string)
    ensures |s| > 0
    ensures forall k :: 0 <= k < |s| ==> '0' <= s[k] <= '9'
  {
    if n < 10 then ["0123456789"[n]]
    else NatToString(n / 10) + ["0123456789"[n % 10]]
  }

  /** `Integer.toString` and string concatenation of an `int`: a minus sign, then the digits. */
  function IntToString(i: int): (s: string)
    ensures |s| > 0
    ensures (s[0] == '-') <==> i < 0
  {
    if i < 0 then "-" + NatToString(-i) else NatToString(i)
  }

  /** The outcome of one step, in the order of the runner's `Status` enum. */
  datatype Status = Passed | Skipped | Pending | Undefined | Ambiguous | Failed | Unused

  /** `status.name().toLowerCase(ROOT)`: the name every report writes for a status. */
  function StatusName(s: Status): (name: string)
    ensures |name| > 0
  {
    match s
    case Passed => "passed"
    case Skipped => "skipped"
    case Pending => "pending"
    case Undefined => "undefined"
    case Ambiguous => "ambiguous"
    case Failed => "failed"
    case Unused => "unused"
  }

  /** `Status.valueOf` of an upper-cased report name: the status a report's name stands for. */
  function StatusOfName(name: string): Option<Status> {
    if name == "passed" then Some(Passed)
    else if name == "skipped" then Some(Skipped)
    else if name == "pending" then Some(Pending)
    else if name == "undefined" then Some(Undefined)
    else if name == "ambiguous" then Some(Ambiguous)
    else if name == "failed" then Some(Failed)
    else if name == "unused" then Some(Unused)
    else None
  }

  /** Every status is written under a name that reads back as that status, so
      no two statuses share a name. */
  lemma StatusNameRoundTrip(s: Status)
    ensures StatusOfName(StatusName(s)) == Some(s)
  {
  }

  datatype HookType = Before | After | BeforeStep | AfterStep

  /** A step's result; durations are whole nanoseconds (`Duration.toNanos()`). */
  datatype Result = Result(status: Status, duration: nat, error: Option<string>)

  /** The argument attached to a step in the feature file. */
  datatype StepArgument =
    | NoArgument
    | DocString(content: string, line: nat, contentType: Option<string>)
    | DataTable(cells: seq<seq<string>>)

  /** An argument the step definition's pattern captured from the step text. */
  datatype MatchArgument = MatchArgument(value: Option<string>, start: int)

  /** A step of a pickle (a concrete scenario) matched against a step definition. */
  datatype PickleStep = PickleStep(
    uri: Uri,
    stepLine: nat,
    stepText: string,
    argument: StepArgument,
    pattern: string,
    codeLocation: Option<string>,
    definitionArguments: seq<MatchArgument>)

  /** The kinds of test step the runner executes; `OtherTestStep` stands for any
      implementation of the interface that is neither a pickle step nor a hook. */
  datatype TestStep =
    | PickleStepTestStep(step: PickleStep)
    | HookTestStep(hookType: HookType, hookLocation: Option<string>)
    | OtherTestStep(location: Option<string>)
  {
    function CodeLocation(): Option<string> {
      match this
      case PickleStepTestStep(p) => p.codeLocation
      case HookTestStep(_, l) => l
      case OtherTestStep(l) => l
    }
  }

  /** A test case: the pickle of one scenario or one example row. */
  datatype TestCase = TestCase(uri: Uri, line: nat, name: string, tags: seq<string>)

  /** The payload of an embed event. */
  datatype EmbedEvent = EmbedEvent(data: seq<bv8>, mimeType: string, name: Option<string>)

  /** The events a formatter subscribes to, in the order the runner publishes
      them to it; `instant` is the start time of a test case. */
  datatype Event =
    | TestCaseStarted(testCase: TestCase, instant: nat)
    | TestStepStarted(testStep: TestStep)
    | TestStepFinished(testStep: TestStep, result: Result)
    | Write(text: string)
    | Embed(embed: EmbedEvent)
    | TestRunFinished

  /** The exceptions a handler can throw part-way through an event. */
  datatype Fault = NullPointer | IndexOutOfBounds | IllegalState

  /** The state a handler leaves behind, and the exception it threw, if any. */
  datatype Outcome<S> = Outcome(state: S, fault: Option<Fault>)

  /** Java's 32-bit `int`. */
  newtype int32 = x: int | -0x8000_0000 <= x < 0x8000_0000

  /** `i++` on an `int`: the successor, wrapping from the largest value to the smallest. */
  function Int32Succ(i: int32): (r: int32)
    ensures i < 0x7fff_ffff ==> r as int == i as int + 1
    ensures i == 0x7fff_ffff ==> r == -0x8000_0000
  {
    if i == 0x7fff_ffff then -0x8000_0000 else i + 1
  }

  /** Distinct numbers are written as distinct digit strings. */
  lemma {:induction false} NatToStringInjective(a: nat, b: nat)
    requires NatToString(a) == NatToString(b)
    ensures a == b
  {
    NatToStringLength(a);
    NatToStringLength(b);
    if a >= 10 && b >= 10 {
      var sa := NatToString(a);
      assert sa[..|sa| - 1] == NatToString(a / 10);
      assert NatToString(b)[..|sa| - 1] == NatToString(b / 10);
      NatToStringInjective(a / 10, b / 10);
      DigitInjective(a % 10, b % 10);
      DivModUnique(a, b);
    } else if a < 10 && b < 10 {
      DigitInjective(a, b);
    }
  }

  lemma DigitInjective(i: nat, j: nat)
    requires i < 10 && j < 10 && "0123456789"[i] == "0123456789"[j]
    ensures i == j
  {
  }

  lemma DivModUnique(a: nat, b: nat)
    requires a / 10 == b / 10 && a % 10 == b % 10
    ensures a == b
  {
  }

  lemma NatToStringLength(n: nat)
    ensures |NatToString(n)| == 1 <==> n < 10
  {
    if n >= 10 {
      assert |NatToString(n)| == |NatToString(n / 10)| + 1;
    }
  }

  /** Distinct `int`s are written as distinct strings. */
  lemma IntToStringInjective(a: int, b: int)
    requires IntToString(a) == IntToString(b)
    ensures a == b
  {
    if a < 0 && b < 0 {
      assert IntToString(a)[1..] == NatToString(-a);
      assert IntToString(b)[1..] == NatToString(-b);
      NatToStringInjective(-a, -b);
    } else if a >= 0 && b >= 0 {
      NatToStringInjective(a, b);
    }
  }
}

/**
  The lookups the formatters make in the parsed feature files. The parser and
  the index that answers these queries are not part of this model: the index is
  given as data, keyed by file and 1-based line, and the formatters only read it.
  A node's `handle` stands for the identity of the parsed node, so that two
  nodes of equal content but different position are still different nodes.
 */
module Sources {
  import opened Events

  datatype Tag = Tag(name: string, line: nat, column: nat)

  datatype FeatureNode = FeatureNode(
    keyword: string, name: string, description: Option<string>, line: nat,
    id: string, tags: seq<Tag>)

  datatype BackgroundNode = BackgroundNode(
    keyword: string, name: string, description: Option<string>, line: nat)

  /** A step as written in a scenario outline. */
  datatype OutlineStep = OutlineStep(keyword: string, text: string, argument: StepArgument)

  datatype ScenarioDefinition = ScenarioDefinition(
    handle: nat, keyword: string, name: string, description: Option<string>,
    tags: seq<Tag>, steps: seq<OutlineStep>)

  datatype ExamplesNode = ExamplesNode(
    handle: nat, keyword: string, name: string, description: Option<string>,
    header: seq<string>, body: seq<seq<string>>, tags: seq<Tag>)

  /** The node a test case's line resolves to: a scenario, or one row of an
      outline's examples table (then `examples` is the table's block). */
  datatype TestCaseNode = TestCaseNode(
    id: string,
    definition: ScenarioDefinition,
    examples: Option<ExamplesNode>,
    background: Option<BackgroundNode>)

  /** The node a step's line resolves to. */
  datatype StepNode = StepNode(keyword: string, isBackgroundStep: bool)

  datatype SourceIndex = SourceIndex(
    features: map<Uri, FeatureNode>,
    testCaseNodes: map<(Uri, nat), TestCaseNode>,
    stepNodes: map<(Uri, nat), StepNode>)
  {
    /** The feature of a file, if the file was read and parsed. */
    function Feature(uri: Uri): Option<FeatureNode> {
      if uri in features then Some(features[uri]) else None
    }

    /** The node at a test case's line; a lookup without a current file misses. */
    function TestCaseAt(uri: Option<Uri>, line: nat): (r: Option<TestCaseNode>)
      ensures r.Some? ==> uri.Some? && (uri.value, line) in testCaseNodes
    {
      if uri.Some? && (uri.value, line) in testCaseNodes then Some(testCaseNodes[(uri.value, line)]) else None
    }

    /** The node at a step's line; a lookup without a current file misses. */
    function StepAt(uri: Option<Uri>, line: nat): (r: Option<StepNode>)
      ensures r.Some? ==> uri.Some? && (uri.value, line) in stepNodes
    {
      if uri.Some? && (uri.value, line) in stepNodes then Some(stepNodes[(uri.value, line)]) else None
    }

    /** The feature declares a background for the scenario at this line. */
    predicate HasBackground(uri: Option<Uri>, line: nat) {
      var n := TestCaseAt(uri, line);
      n.Some? && n.value.background.Some?
    }

    /** The test case at this line is a row of a scenario outline's examples. */
    predicate IsScenarioOutlineScenario(uri: Option<Uri>, line: nat) {
      var n := TestCaseAt(uri, line);
      n.Some? && n.value.examples.Some?
    }
  }
}
