/**
  The HTML formatter: it turns the event stream into a script of calls on a
  JavaScript formatter object (`formatter.uri(...)`, `formatter.step(...)`, ...),
  wrapped in a document-ready preamble. The script is modelled as the sequence
  of emissions; each call carries an abstract record for its JSON argument.
 */
module Html {
  import opened Events
  import opened Sources

  /** The argument of a step as the report shows it: the doc string's content
      or the table's cells. */
  datatype HtmlArgument = NoRows | DocStringValue(value: string) | Rows(cells: seq<seq<string>>)

  function ArgumentMap(a: StepArgument): HtmlArgument {
    match a
    case NoArgument => NoRows
    case DocString(content, _, _) => DocStringValue(content)
    case DataTable(cells) => Rows(cells)
  }

  /** What an embedding call shows: inline text, or the name of the file the bytes were written to. */
  datatype EmbeddedContent = InlineText(data: seq<bv8>) | EmbeddedFile(fileName: string)

  /** The JSON arguments of the formatter calls. */
  datatype Payload =
    | UriValue(uri: Uri)
    | FeatureMap(feature: Option<FeatureNode>)
    | ScenarioOutlineMap(outline: ScenarioDefinition)
    | ExamplesMap(examples: ExamplesNode)
    | TestCaseMap(name: string, definition: Option<ScenarioDefinition>, tags: seq<string>)
    | BackgroundMap(background: BackgroundNode)
    | StepMap(name: string, keyword: Option<string>, argument: HtmlArgument)
    | MatchMap(location: Option<string>)
    | ResultMap(status: string, errorMessage: Option<string>)
    | EmbeddingArgs(mimeType: string, content: EmbeddedContent, embeddingName: Option<string>)
    | TextValue(text: string)

  /** The functions of the JavaScript formatter object the script calls. */
  datatype JsFunction =
    | JsUri | JsFeature | JsScenarioOutline | JsStep | JsExamples | JsBackground | JsScenario
    | JsMatch | JsResult | JsBefore | JsAfter | JsBeforeStep | JsAfterStep | JsEmbedding | JsWrite
  {
    /** The name the script writes after `formatter.`. */
    function Name(): string {
      match this
      case JsUri => "uri"
      case JsFeature => "feature"
      case JsScenarioOutline => "scenarioOutline"
      case JsStep => "step"
      case JsExamples => "examples"
      case JsBackground => "background"
      case JsScenario => "scenario"
      case JsMatch => "match"
      case JsResult => "result"
      case JsBefore => "before"
      case JsAfter => "after"
      case JsBeforeStep => "beforestep"
      case JsAfterStep => "afterstep"
      case JsEmbedding => "embedding"
      case JsWrite => "write"
    }
  }

  /** One piece of the script: the document-ready preamble, a call
      `formatter.<name>(<payload>);`, or the closing `});`. */
  datatype Emission = Preamble | Call(callee: JsFunction, payload: Payload) | Closing

  /** The formatter's fields: the script written so far and the cursor state. */
  datatype HtmlState = HtmlState(
    jsOut: seq<Emission>,
    firstFeature: bool,
    currentFeatureFile: Option<Uri>,
    currentTestCaseMap: Option<Payload>,
    currentScenarioOutline: Option<ScenarioDefinition>,
    currentExamples: Option<ExamplesNode>,
    embeddedIndex: int32)

  const Initial := HtmlState([], true, None, None, None, None, 0)

  // ---------------------------------------------------------------- counting

  /** A kind of emission: the preamble, the calls of one function, the
      embeddings written to a file, or the closing. */
  datatype Selector = PreambleSel | CallSel(callee: JsFunction) | FileSel | ClosingSel

  predicate Selects(sel: Selector, e: Emission) {
    match sel
    case PreambleSel => e.Preamble?
    case CallSel(f) => e.Call? && e.callee == f
    case FileSel => e.Call? && e.callee == JsEmbedding && e.payload.EmbeddingArgs? && e.payload.content.EmbeddedFile?
    case ClosingSel => e.Closing?
  }

  function Ind(b: bool): nat {
    if b then 1 else 0
  }

  /** How many emissions of `es` the selector picks. */
  function Count(es: seq<Emission>, sel: Selector): nat {
    if |es| == 0 then 0
    else Count(es[..|es| - 1], sel) + Ind(Selects(sel, es[|es| - 1]))
  }

  lemma {:induction false} CountConcat(a: seq<Emission>, b: seq<Emission>, sel: Selector)
    ensures Count(a + b, sel) == Count(a, sel) + Count(b, sel)
    decreases |b|
  {
    if |b| == 0 {
      assert a + b == a;
    } else {
      assert (a + b)[..|a + b| - 1] == a + b[..|b| - 1];
      CountConcat(a, b[..|b| - 1], sel);
    }
  }

  lemma CountSingleton(e: Emission, sel: Selector)
    ensures Count([e], sel) == Ind(Selects(sel, e))
  {
    assert [e][..0] == [];
  }

  /** Emissions none of which the selector picks count zero. */
  lemma {:induction false} CountNone(es: seq<Emission>, sel: Selector)
    requires forall k :: 0 <= k < |es| ==> !Selects(sel, es[k])
    ensures Count(es, sel) == 0
  {
    if |es| > 0 {
      CountNone(es[..|es| - 1], sel);
    }
  }

  /** Emissions that the selector all picks count their length. */
  lemma {:induction false} CountAll(es: seq<Emission>, sel: Selector)
    requires forall k :: 0 <= k < |es| ==> Selects(sel, es[k])
    ensures Count(es, sel) == |es|
  {
    if |es| > 0 {
      CountAll(es[..|es| - 1], sel);
    }
  }

  /** The emissions that `r` added to the script of `s`. */
  function Emitted(s: HtmlState, r: HtmlState): seq<Emission>
    requires s.jsOut <= r.jsOut
  {
    r.jsOut[|s.jsOut|..]
  }
  // --------------------------------------------------------------- builders

  /** `MIME_TYPES_EXTENSIONS`: the six binary types written to files. */
  function ExtensionOf(mimeType: string): Option<string> {
    if mimeType == "image/bmp" then Some("bmp")
    else if mimeType == "image/gif" then Some("gif")
    else if mimeType == "image/jpeg" then Some("jpg")
    else if mimeType == "image/png" then Some("png")
    else if mimeType == "image/svg+xml" then Some("svg")
    else if mimeType == "video/ogg" then Some("ogg")
    else None
  }

  predicate IsTextMimeType(mimeType: string) {
    |mimeType| >= 5 && mimeType[..5] == "text/"
  }

  /** `"embedded" + embeddedIndex + "." + extension`. */
  function EmbeddedFileName(index: int32, extension: string): string {
    "embedded" + IntToString(index as int) + "." + extension
  }

  /** Two embeddings written with different counter values go to different files. */
  lemma EmbeddedFileNamesDistinct(i: int32, j: int32, extension: string)
    ensures EmbeddedFileName(i, extension) == EmbeddedFileName(j, extension) <==> i == j
  {
    if EmbeddedFileName(i, extension) == EmbeddedFileName(j, extension) {
      var a, b := IntToString(i as int), IntToString(j as int);
      var fa, fb := EmbeddedFileName(i, extension), EmbeddedFileName(j, extension);
      assert |a| == |b|;
      assert a == fa[8..8 + |a|] == fb[8..8 + |b|] == b;
      IntToStringInjective(i as int, j as int);
    }
  }

  /** `getFunctionName`: the call that reports a finished hook. */
  function FunctionName(hookType: HookType): JsFunction {
    match hookType
    case Before => JsBefore
    case After => JsAfter
    case BeforeStep => JsBeforeStep
    case AfterStep => JsAfterStep
  }

  /** Each hook type is reported under its own call, named after the hook
      type in lower case, and never under the `result` call of a step. */
  lemma FunctionNameDistinguishesHooks(h: HookType, k: HookType)
    ensures FunctionName(h) == FunctionName(k) <==> h == k
    ensures FunctionName(h).Name() in {"before", "after", "beforestep", "afterstep"}
    ensures FunctionName(h) != JsResult
  {
  }

  /** `createResultMap`: the status name and, when there is one, the error. */
  function CreateResultMap(result: Result): Payload {
    ResultMap(StatusName(result.status), result.error)
  }

  function CreateTestCase(src: SourceIndex, file: Option<Uri>, tc: TestCase): Payload {
    var node := src.TestCaseAt(file, tc.line);
    TestCaseMap(tc.name, if node.Some? then Some(node.value.definition) else None, tc.tags)
  }

  function CreateTestStep(src: SourceIndex, file: Option<Uri>, step: PickleStep): Payload {
    var node := src.StepAt(file, step.stepLine);
    StepMap(step.stepText, if node.Some? then Some(node.value.keyword) else None, ArgumentMap(step.argument))
  }

  /** The `step` call that shows one step of an outline. */
  function OutlineStepCall(step: OutlineStep): Emission {
    Call(JsStep, StepMap(step.text, Some(step.keyword), ArgumentMap(step.argument)))
  }

  /** One `step` call per step of the outline, in source order. */
  function OutlineStepCalls(steps: seq<OutlineStep>): (es: seq<Emission>)
    ensures |es| == |steps|
    ensures forall k :: 0 <= k < |steps| ==> es[k] == OutlineStepCall(steps[k])
  {
    if |steps| == 0 then []
    else OutlineStepCalls(steps[..|steps| - 1]) + [OutlineStepCall(steps[|steps| - 1])]
  }

  // ------------------------------------------------------------- transitions

  /** `handleStartOfFeature`. */
  function StartOfFeature(s: HtmlState, src: SourceIndex, tc: TestCase): (r: HtmlState)
    ensures s.jsOut <= r.jsOut && r.currentFeatureFile == Some(tc.uri)
    ensures r.(jsOut := s.jsOut, currentFeatureFile := s.currentFeatureFile) == s
  {
    if s.currentFeatureFile != Some(tc.uri) then
      s.(currentFeatureFile := Some(tc.uri),
         jsOut := s.jsOut + [Call(JsUri, UriValue(tc.uri)), Call(JsFeature, FeatureMap(src.Feature(tc.uri)))])
    else s
  }

  /** The outline row node of a test case in the current file, if it is one. */
  function OutlineRow(s: HtmlState, src: SourceIndex, tc: TestCase): Option<TestCaseNode> {
    var node := src.TestCaseAt(s.currentFeatureFile, tc.line);
    if node.Some? && node.value.examples.Some? then node else None
  }

  /** The outline is not the one whose definition was shown last (identity, not content). */
  predicate NewOutline(current: Option<ScenarioDefinition>, outline: ScenarioDefinition) {
    current.None? || current.value.handle != outline.handle
  }

  predicate NewExamples(current: Option<ExamplesNode>, examples: ExamplesNode) {
    current.None? || current.value.handle != examples.handle
  }

  /** `handleScenarioOutline`. */
  function ScenarioOutline(s: HtmlState, src: SourceIndex, tc: TestCase): (r: HtmlState)
    ensures s.jsOut <= r.jsOut
    ensures r.(jsOut := s.jsOut, currentScenarioOutline := s.currentScenarioOutline, currentExamples := s.currentExamples) == s
  {
    var row := OutlineRow(s, src, tc);
    if row.Some? then
      var outline := row.value.definition;
      var examples := row.value.examples.value;
      var s1 :=
        if NewOutline(s.currentScenarioOutline, outline) then
          s.(currentScenarioOutline := Some(outline),
             jsOut := s.jsOut + OutlineCalls(outline))
        else s;
      if NewExamples(s1.currentExamples, examples) then
        s1.(currentExamples := Some(examples), jsOut := s1.jsOut + [Call(JsExamples, ExamplesMap(examples))])
      else s1
    else
      s.(currentScenarioOutline := None, currentExamples := None)
  }

  /** The first test case writes the document-ready preamble. */
  function OpenScript(s: HtmlState): (r: HtmlState)
    ensures s.jsOut <= r.jsOut && !r.firstFeature
    ensures r.(jsOut := s.jsOut, firstFeature := s.firstFeature) == s
  {
    if s.firstFeature then s.(jsOut := s.jsOut + [Preamble], firstFeature := false) else s
  }

  /** The end of `handleTestCaseStarted`: a scenario with a background shows
      the background and keeps its own map pending until its first step; any
      other scenario is shown at once. */
  function StartScenario(s: HtmlState, src: SourceIndex, tc: TestCase): (r: HtmlState)
    ensures s.jsOut < r.jsOut
    ensures r.(jsOut := s.jsOut, currentTestCaseMap := s.currentTestCaseMap) == s
  {
    var caseMap := CreateTestCase(src, s.currentFeatureFile, tc);
    var node := src.TestCaseAt(s.currentFeatureFile, tc.line);
    if node.Some? && node.value.background.Some? then
      s.(jsOut := s.jsOut + [Call(JsBackground, BackgroundMap(node.value.background.value))],
         currentTestCaseMap := Some(caseMap))
    else
      s.(jsOut := s.jsOut + [Call(JsScenario, caseMap)], currentTestCaseMap := None)
  }

  /** `handleTestCaseStarted`. */
  function OnTestCaseStarted(s: HtmlState, src: SourceIndex, tc: TestCase): (r: HtmlState)
    ensures s.jsOut < r.jsOut
    ensures r.embeddedIndex == s.embeddedIndex
  {
    StartScenario(ScenarioOutline(StartOfFeature(OpenScript(s), src, tc), src, tc), src, tc)
  }

  /** `isFirstStepAfterBackground`: a scenario is pending and the step is in the
      source but not one of the background's steps. */
  predicate IsFirstStepAfterBackground(s: HtmlState, src: SourceIndex, step: PickleStep) {
    var node := src.StepAt(s.currentFeatureFile, step.stepLine);
    node.Some? && s.currentTestCaseMap.Some? && !node.value.isBackgroundStep
  }

  /** The first step after a background releases the pending scenario. */
  function ReleasePendingScenario(s: HtmlState, src: SourceIndex, step: PickleStep): (r: HtmlState)
    ensures s.jsOut <= r.jsOut
    ensures r.(jsOut := s.jsOut, currentTestCaseMap := s.currentTestCaseMap) == s
  {
    if IsFirstStepAfterBackground(s, src, step) then
      s.(jsOut := s.jsOut + [Call(JsScenario, s.currentTestCaseMap.value)], currentTestCaseMap := None)
    else s
  }

  /** A pickle step is shown with its `step` and `match` calls. */
  function ShowStep(s: HtmlState, src: SourceIndex, step: PickleStep): (r: HtmlState)
    ensures s.jsOut <= r.jsOut
    ensures r.(jsOut := s.jsOut) == s
  {
    s.(jsOut := s.jsOut + [Call(JsStep, CreateTestStep(src, s.currentFeatureFile, step)),
                           Call(JsMatch, MatchMap(step.codeLocation))])
  }

  /** `handleTestStepStarted`: hooks show nothing when they start. */
  function OnTestStepStarted(s: HtmlState, src: SourceIndex, testStep: TestStep): (r: HtmlState)
    ensures s.jsOut <= r.jsOut
    ensures r.(jsOut := s.jsOut, currentTestCaseMap := s.currentTestCaseMap) == s
  {
    if testStep.PickleStepTestStep? then
      ShowStep(ReleasePendingScenario(s, src, testStep.step), src, testStep.step)
    else s
  }

  /** `handleTestStepFinished`. */
  function OnTestStepFinished(s: HtmlState, testStep: TestStep, result: Result): Outcome<HtmlState> {
    match testStep
    case PickleStepTestStep(_) =>
      Outcome(s.(jsOut := s.jsOut + [Call(JsResult, CreateResultMap(result))]), None)
    case HookTestStep(hookType, _) =>
      Outcome(s.(jsOut := s.jsOut + [Call(FunctionName(hookType), CreateResultMap(result))]), None)
    case OtherTestStep(_) =>
      Outcome(s, Some(IllegalState))
  }

  /** `handleEmbed`. */
  function OnEmbed(s: HtmlState, e: EmbedEvent): (r: HtmlState)
    ensures s.jsOut <= r.jsOut
  {
    if IsTextMimeType(e.mimeType) then
      s.(jsOut := s.jsOut + [Call(JsEmbedding, EmbeddingArgs(e.mimeType, InlineText(e.data), e.name))])
    else
      var extension := ExtensionOf(e.mimeType);
      if extension.Some? then
        var fileName := EmbeddedFileName(s.embeddedIndex, extension.value);
        s.(embeddedIndex := Int32Succ(s.embeddedIndex),
           jsOut := s.jsOut + [Call(JsEmbedding, EmbeddingArgs(e.mimeType, EmbeddedFile(fileName), e.name))])
      else s
  }

  /** `handleWrite`. */
  function OnWrite(s: HtmlState, text: string): HtmlState {
    s.(jsOut := s.jsOut + [Call(JsWrite, TextValue(text))])
  }

  /** `finishReport`: the closing `});` only if the preamble was written. */
  function OnFinishReport(s: HtmlState): HtmlState {
    if !s.firstFeature then s.(jsOut := s.jsOut + [Closing]) else s
  }

  /** The formatter's reaction to one event. */
  function Handle(s: HtmlState, src: SourceIndex, e: Event): (o: Outcome<HtmlState>)
    ensures s.jsOut <= o.state.jsOut
  {
    match e
    case TestCaseStarted(tc, _) => Outcome(OnTestCaseStarted(s, src, tc), None)
    case TestStepStarted(ts) => Outcome(OnTestStepStarted(s, src, ts), None)
    case TestStepFinished(ts, result) => OnTestStepFinished(s, ts, result)
    case Write(text) => Outcome(OnWrite(s, text), None)
    case Embed(embed) => Outcome(OnEmbed(s, embed), None)
    case TestRunFinished => Outcome(OnFinishReport(s), None)
  }

  /** The events handled one after the other; an exception ends the run. */
  function Run(s: HtmlState, src: SourceIndex, events: seq<Event>): (o: Outcome<HtmlState>)
    ensures s.jsOut <= o.state.jsOut
    decreases |events|
  {
    if |events| == 0 then Outcome(s, None)
    else
      var o := Handle(s, src, events[0]);
      if o.fault.Some? then o else Run(o.state, src, events[1..])
  }

  // ------------------------------------------------------------------ lemmas

  lemma CountAtMostOne(es: seq<Emission>, sel: Selector)
    requires |es| <= 1
    ensures Count(es, sel) == if |es| == 1 then Ind(Selects(sel, es[0])) else 0
  {
    if |es| == 1 {
      assert es == [es[0]];
      CountSingleton(es[0], sel);
    }
  }

  /** The outline calls a test case start owes, given the outline and the
      examples block shown last and the node the test case resolves to: the
      outline with one `step` call per outline step when the outline is not
      the one shown last, the examples block when it is not the one shown last. */
  function OutlineCount(outline: Option<ScenarioDefinition>, examples: Option<ExamplesNode>,
                        row: Option<TestCaseNode>, sel: Selector): nat
  {
    if row.Some? && row.value.examples.Some? then
      (if NewOutline(outline, row.value.definition)
       then Ind(sel == CallSel(JsScenarioOutline)) + (if sel == CallSel(JsStep) then |row.value.definition.steps| else 0)
       else 0)
      + Ind(NewExamples(examples, row.value.examples.value) && sel == CallSel(JsExamples))
    else 0
  }

  lemma OutlineStepCallsCount(steps: seq<OutlineStep>, sel: Selector)
    ensures Count(OutlineStepCalls(steps), sel) == if sel == CallSel(JsStep) then |steps| else 0
  {
    if sel == CallSel(JsStep) {
      CountAll(OutlineStepCalls(steps), sel);
    } else {
      CountNone(OutlineStepCalls(steps), sel);
    }
  }

  /** `handleStartOfFeature` emits `uri` and `feature` once each when the file
      changes, and nothing otherwise. */
  lemma StartOfFeatureCount(s: HtmlState, src: SourceIndex, tc: TestCase, sel: Selector)
    ensures var r := StartOfFeature(s, src, tc);
      && s.jsOut <= r.jsOut
      && Count(Emitted(s, r), sel) ==
           Ind(s.currentFeatureFile != Some(tc.uri) && (sel == CallSel(JsUri) || sel == CallSel(JsFeature)))
  {
    var r := StartOfFeature(s, src, tc);
    if s.currentFeatureFile != Some(tc.uri) {
      var u, f := Call(JsUri, UriValue(tc.uri)), Call(JsFeature, FeatureMap(src.Feature(tc.uri)));
      assert Emitted(s, r) == [u] + [f];
      CountConcat([u], [f], sel);
      CountSingleton(u, sel);
      CountSingleton(f, sel);
    } else {
      assert Emitted(s, r) == [];
    }
  }

  /** The calls that show an outline: its own call, then one per step. */
  function OutlineCalls(outline: ScenarioDefinition): seq<Emission> {
    [Call(JsScenarioOutline, ScenarioOutlineMap(outline))] + OutlineStepCalls(outline.steps)
  }

  /** The calls that show an outline (if `showOutline`) and then an examples
      block (if `showExamples`), kind by kind. */
  lemma OutlineBlockCount(outline: ScenarioDefinition, examples: ExamplesNode,
                          showOutline: bool, showExamples: bool, sel: Selector)
    ensures Count((if showOutline then OutlineCalls(outline) else [])
                  + (if showExamples then [Call(JsExamples, ExamplesMap(examples))] else []), sel)
      == (if showOutline then Ind(sel == CallSel(JsScenarioOutline)) + (if sel == CallSel(JsStep) then |outline.steps| else 0) else 0)
         + Ind(showExamples && sel == CallSel(JsExamples))
  {
    var o := if showOutline then OutlineCalls(outline) else [];
    var x := if showExamples then [Call(JsExamples, ExamplesMap(examples))] else [];
    CountConcat(o, x, sel);
    CountAtMostOne(x, sel);
    if showOutline {
      var head := Call(JsScenarioOutline, ScenarioOutlineMap(outline));
      CountConcat([head], OutlineStepCalls(outline.steps), sel);
      CountSingleton(head, sel);
      OutlineStepCallsCount(outline.steps, sel);
    }
  }

  /** What `handleScenarioOutline` appends: for a row of an outline, the
      outline calls when the outline is new and the examples call when the
      block is new; for anything else, nothing. */
  lemma ScenarioOutlineEmits(s: HtmlState, src: SourceIndex, tc: TestCase)
    ensures var r := ScenarioOutline(s, src, tc);
      var row := src.TestCaseAt(s.currentFeatureFile, tc.line);
      && s.jsOut <= r.jsOut
      && (row.Some? && row.value.examples.Some? ==>
            Emitted(s, r) ==
              (if NewOutline(s.currentScenarioOutline, row.value.definition) then OutlineCalls(row.value.definition) else [])
              + (if NewExamples(s.currentExamples, row.value.examples.value)
                 then [Call(JsExamples, ExamplesMap(row.value.examples.value))] else []))
      && (!(row.Some? && row.value.examples.Some?) ==> Emitted(s, r) == [])
  {
    var r := ScenarioOutline(s, src, tc);
    var row := OutlineRow(s, src, tc);
    if row.Some? {
      var outline := row.value.definition;
      var examples := row.value.examples.value;
      var o := if NewOutline(s.currentScenarioOutline, outline) then OutlineCalls(outline) else [];
      var x := if NewExamples(s.currentExamples, examples) then [Call(JsExamples, ExamplesMap(examples))] else [];
      assert r.jsOut == s.jsOut + o + x;
    }
  }

  /** `handleScenarioOutline` emits what `OutlineCount` owes. */
  lemma ScenarioOutlineCount(s: HtmlState, src: SourceIndex, tc: TestCase, sel: Selector)
    ensures var r := ScenarioOutline(s, src, tc);
      && s.jsOut <= r.jsOut
      && Count(Emitted(s, r), sel) ==
           OutlineCount(s.currentScenarioOutline, s.currentExamples, src.TestCaseAt(s.currentFeatureFile, tc.line), sel)
  {
    ScenarioOutlineEmits(s, src, tc);
    var row := src.TestCaseAt(s.currentFeatureFile, tc.line);
    if row.Some? && row.value.examples.Some? {
      OutlineBlockCount(row.value.definition, row.value.examples.value,
        NewOutline(s.currentScenarioOutline, row.value.definition),
        NewExamples(s.currentExamples, row.value.examples.value), sel);
    }
  }

  /** The emissions from `s` to `r` are those from `s` to `m` and then those from `m` to `r`. */
  lemma EmittedSplit(s: HtmlState, m: HtmlState, r: HtmlState, sel: Selector)
    requires s.jsOut <= m.jsOut <= r.jsOut
    ensures Count(Emitted(s, r), sel) == Count(Emitted(s, m), sel) + Count(Emitted(m, r), sel)
  {
    assert Emitted(s, r) == Emitted(s, m) + Emitted(m, r);
    CountConcat(Emitted(s, m), Emitted(m, r), sel);
  }

  lemma OpenScriptCount(s: HtmlState, sel: Selector)
    ensures var r := OpenScript(s);
      && s.jsOut <= r.jsOut
      && Count(Emitted(s, r), sel) == Ind(s.firstFeature && sel == PreambleSel)
      && !r.firstFeature
      && r.(jsOut := s.jsOut, firstFeature := s.firstFeature) == s
  {
    CountAtMostOne(Emitted(s, OpenScript(s)), sel);
  }

  lemma StartScenarioCount(s: HtmlState, src: SourceIndex, tc: TestCase, sel: Selector)
    ensures var r := StartScenario(s, src, tc);
      && s.jsOut <= r.jsOut
      && Count(Emitted(s, r), sel) ==
           Ind(sel == CallSel(if src.HasBackground(s.currentFeatureFile, tc.line) then JsBackground else JsScenario))
  {
    CountAtMostOne(Emitted(s, StartScenario(s, src, tc)), sel);
  }

  /** What a test case start emits, kind by kind: the preamble for the first
      test case of the run, `uri` and `feature` only when the file changes, the
      outline calls `OutlineCount` owes, and then one `background` call when
      the scenario has a background, else one `scenario` call. */
  lemma TestCaseStartedCount(s: HtmlState, src: SourceIndex, tc: TestCase, sel: Selector)
    ensures var r := OnTestCaseStarted(s, src, tc);
      && s.jsOut <= r.jsOut
      && Count(Emitted(s, r), sel) ==
           Ind(s.firstFeature && sel == PreambleSel)
           + Ind(s.currentFeatureFile != Some(tc.uri) && (sel == CallSel(JsUri) || sel == CallSel(JsFeature)))
           + OutlineCount(s.currentScenarioOutline, s.currentExamples, src.TestCaseAt(Some(tc.uri), tc.line), sel)
           + Ind(sel == CallSel(if src.HasBackground(Some(tc.uri), tc.line) then JsBackground else JsScenario))
  {
    var s1 := OpenScript(s);
    var s2 := StartOfFeature(s1, src, tc);
    var s3 := ScenarioOutline(s2, src, tc);
    var r := StartScenario(s3, src, tc);
    OpenScriptCount(s, sel);
    StartOfFeatureCount(s1, src, tc, sel);
    ScenarioOutlineCount(s2, src, tc, sel);
    StartScenarioCount(s3, src, tc, sel);
    EmittedSplit(s, s1, s2, sel);
    EmittedSplit(s, s2, s3, sel);
    EmittedSplit(s, s3, r, sel);
  }

  /** The state after a test case start: the preamble is behind, the file is
      the test case's, the outline markers name the test case's outline and
      examples block (or are cleared for a plain scenario), and the scenario is
      either pending behind its background or already emitted. */
  lemma TestCaseStartedState(s: HtmlState, src: SourceIndex, tc: TestCase)
    ensures var r := OnTestCaseStarted(s, src, tc);
      var row := src.TestCaseAt(Some(tc.uri), tc.line);
      var hasBackground := src.HasBackground(Some(tc.uri), tc.line);
      && s.jsOut < r.jsOut
      && !r.firstFeature
      && r.currentFeatureFile == Some(tc.uri)
      && (src.IsScenarioOutlineScenario(Some(tc.uri), tc.line) ==>
            && r.currentScenarioOutline.Some? && r.currentScenarioOutline.value.handle == row.value.definition.handle
            && r.currentExamples.Some? && r.currentExamples.value.handle == row.value.examples.value.handle)
      && (!src.IsScenarioOutlineScenario(Some(tc.uri), tc.line) ==>
            r.currentScenarioOutline.None? && r.currentExamples.None?)
      && r.embeddedIndex == s.embeddedIndex
      && (hasBackground ==>
            r.currentTestCaseMap == Some(CreateTestCase(src, Some(tc.uri), tc))
            && r.jsOut[|r.jsOut| - 1] == Call(JsBackground, BackgroundMap(row.value.background.value)))
      && (!hasBackground ==>
            r.currentTestCaseMap.None?
            && r.jsOut[|r.jsOut| - 1] == Call(JsScenario, CreateTestCase(src, Some(tc.uri), tc)))
  {
    var s1 := OpenScript(s);
    var s2 := StartOfFeature(s1, src, tc);
    var s3 := ScenarioOutline(s2, src, tc);
    assert s2.currentFeatureFile == Some(tc.uri) && s2.embeddedIndex == s.embeddedIndex;
    ScenarioOutlineEmits(s2, src, tc);
    assert s3.currentFeatureFile == Some(tc.uri) && s3.embeddedIndex == s.embeddedIndex && !s3.firstFeature;
  }

  lemma ReleasePendingScenarioCount(s: HtmlState, src: SourceIndex, step: PickleStep, sel: Selector)
    ensures var r := ReleasePendingScenario(s, src, step);
      && s.jsOut <= r.jsOut
      && Count(Emitted(s, r), sel) == Ind(IsFirstStepAfterBackground(s, src, step) && sel == CallSel(JsScenario))
  {
    var r := ReleasePendingScenario(s, src, step);
    if IsFirstStepAfterBackground(s, src, step) {
      assert Emitted(s, r) == [Call(JsScenario, s.currentTestCaseMap.value)];
    } else {
      assert Emitted(s, r) == [];
    }
    CountAtMostOne(Emitted(s, r), sel);
  }

  lemma ShowStepCount(s: HtmlState, src: SourceIndex, step: PickleStep, sel: Selector)
    ensures var r := ShowStep(s, src, step);
      && s.jsOut <= r.jsOut
      && Count(Emitted(s, r), sel) == Ind(sel == CallSel(JsStep)) + Ind(sel == CallSel(JsMatch))
  {
    var r := ShowStep(s, src, step);
    var e1, e2 := Call(JsStep, CreateTestStep(src, s.currentFeatureFile, step)), Call(JsMatch, MatchMap(step.codeLocation));
    assert Emitted(s, r) == [e1] + [e2];
    CountConcat([e1], [e2], sel);
    CountSingleton(e1, sel);
    CountSingleton(e2, sel);
  }

  /** What a pickle step start emits, kind by kind: the pending `scenario` call
      when this is the first step after the background, then one `step` and
      one `match` call. */
  lemma TestStepStartedCount(s: HtmlState, src: SourceIndex, testStep: TestStep, sel: Selector)
    requires testStep.PickleStepTestStep?
    ensures var r := OnTestStepStarted(s, src, testStep);
      && s.jsOut <= r.jsOut
      && Count(Emitted(s, r), sel) ==
           Ind(IsFirstStepAfterBackground(s, src, testStep.step) && sel == CallSel(JsScenario))
           + Ind(sel == CallSel(JsStep)) + Ind(sel == CallSel(JsMatch))
  {
    var s1 := ReleasePendingScenario(s, src, testStep.step);
    ReleasePendingScenarioCount(s, src, testStep.step, sel);
    ShowStepCount(s1, src, testStep.step, sel);
    EmittedSplit(s, s1, ShowStep(s1, src, testStep.step), sel);
  }

  /** What a step start emits: for a pickle step, the pending `scenario` call
      when this is the first step after the background, then `step` and
      `match`; for a hook, nothing. */
  lemma TestStepStartedEmissions(s: HtmlState, src: SourceIndex, testStep: TestStep)
    ensures var r := OnTestStepStarted(s, src, testStep);
      && s.jsOut <= r.jsOut
      && var e := Emitted(s, r);
      && (!testStep.PickleStepTestStep? ==> r == s)
      && (testStep.PickleStepTestStep? ==>
            var step := testStep.step;
            var handoff := IsFirstStepAfterBackground(s, src, step);
            && |e| == (if handoff then 3 else 2)
            && (handoff ==> e[0] == Call(JsScenario, s.currentTestCaseMap.value) && r.currentTestCaseMap.None?)
            && (!handoff ==> r.currentTestCaseMap == s.currentTestCaseMap)
            && e[|e| - 2] == Call(JsStep, CreateTestStep(src, s.currentFeatureFile, step))
            && e[|e| - 1] == Call(JsMatch, MatchMap(step.codeLocation))
            && r.(jsOut := s.jsOut, currentTestCaseMap := s.currentTestCaseMap) == s)
  {
  }

  /** The events other than test case and step starts emit at most one thing:
      a `result`, hook, `write` or `embedding` call, or the closing; and they
      leave the cursor fields alone. */
  lemma OtherEventEmissions(s: HtmlState, src: SourceIndex, e: Event)
    requires !e.TestCaseStarted? && !e.TestStepStarted?
    ensures var r := Handle(s, src, e).state;
      && s.jsOut <= r.jsOut
      && var es := Emitted(s, r);
      && |es| <= 1
      && (|es| == 1 ==>
            || es[0].Closing?
            || (es[0].Call? && es[0].callee in {JsResult, JsBefore, JsAfter, JsBeforeStep, JsAfterStep, JsWrite, JsEmbedding}))
      && r.(jsOut := s.jsOut, embeddedIndex := s.embeddedIndex) == s
  {
    var r := Handle(s, src, e).state;
    assert |Emitted(s, r)| <= 1;
  }

  // The preamble.

  /** The script holds the preamble once if a test case has started, and not at all otherwise. */
  ghost predicate PreambleOnce(s: HtmlState) {
    Count(s.jsOut, PreambleSel) == Ind(!s.firstFeature)
  }

  /** Only the first test case start writes the preamble, and it clears `firstFeature`. */
  lemma HandlePreambleCount(s: HtmlState, src: SourceIndex, e: Event)
    ensures var r := Handle(s, src, e).state;
      && s.jsOut <= r.jsOut
      && Count(Emitted(s, r), PreambleSel) == Ind(e.TestCaseStarted? && s.firstFeature)
      && r.firstFeature == (s.firstFeature && !e.TestCaseStarted?)
  {
    var r := Handle(s, src, e).state;
    match e
    case TestCaseStarted(tc, _) =>
      TestCaseStartedCount(s, src, tc, PreambleSel);
      TestCaseStartedState(s, src, tc);
    case TestStepStarted(ts) =>
      TestStepStartedEmissions(s, src, ts);
      if ts.PickleStepTestStep? {
        TestStepStartedCount(s, src, ts, PreambleSel);
      } else {
        assert Emitted(s, r) == [];
      }
    case _ =>
      OtherEventEmissions(s, src, e);
      CountAtMostOne(Emitted(s, r), PreambleSel);
  }

  lemma HandleKeepsPreambleOnce(s: HtmlState, src: SourceIndex, e: Event)
    requires PreambleOnce(s)
    ensures PreambleOnce(Handle(s, src, e).state)
  {
    var r := Handle(s, src, e).state;
    HandlePreambleCount(s, src, e);
    assert r.jsOut == s.jsOut + Emitted(s, r);
    CountConcat(s.jsOut, Emitted(s, r), PreambleSel);
  }

  /** Over any run from a state that keeps it (the initial state does), the
      preamble is in the script exactly once if a test case has started, and
      never otherwise. */
  lemma {:induction false} RunKeepsPreambleOnce(s: HtmlState, src: SourceIndex, events: seq<Event>)
    requires PreambleOnce(s)
    ensures PreambleOnce(Run(s, src, events).state)
    decreases |events|
  {
    if |events| > 0 {
      HandleKeepsPreambleOnce(s, src, events[0]);
      var o := Handle(s, src, events[0]);
      if o.fault.None? {
        RunKeepsPreambleOnce(o.state, src, events[1..]);
      }
    }
  }

  /** A run that throws nothing leaves `firstFeature` set exactly when it
      started with it set and handled no test case start. */
  lemma {:induction false} RunFirstFeature(s: HtmlState, src: SourceIndex, events: seq<Event>)
    requires Run(s, src, events).fault.None?
    ensures Run(s, src, events).state.firstFeature <==>
      s.firstFeature && forall k :: 0 <= k < |events| ==> !events[k].TestCaseStarted?
    decreases |events|
  {
    if |events| > 0 {
      HandlePreambleCount(s, src, events[0]);
      var o := Handle(s, src, events[0]);
      RunFirstFeature(o.state, src, events[1..]);
      assert forall k :: 1 <= k < |events| ==> events[k] == events[1..][k - 1];
    }
  }

  /** `finishReport` closes the script exactly when the preamble opened it. */
  lemma FinishReportClosesOnlyOpenedScript(s: HtmlState)
    requires PreambleOnce(s)
    ensures var r := OnFinishReport(s);
      && s.jsOut <= r.jsOut
      && Count(Emitted(s, r), ClosingSel) == Count(r.jsOut, PreambleSel)
  {
    var r := OnFinishReport(s);
    assert r.jsOut == s.jsOut + Emitted(s, r);
    CountAtMostOne(Emitted(s, r), ClosingSel);
    CountAtMostOne(Emitted(s, r), PreambleSel);
    CountConcat(s.jsOut, Emitted(s, r), PreambleSel);
  }

  // The pending scenario.

  /** The number of times the pending scenario can still be emitted. */
  function Pending(s: HtmlState): nat {
    Ind(s.currentTestCaseMap.Some?)
  }

  /** Outside test case starts, the pending `scenario` call is emitted only by
      giving up the pending map: the `scenario` calls emitted plus what is
      still pending equal what was pending before. */
  lemma PendingScenarioConserved(s: HtmlState, src: SourceIndex, e: Event)
    requires !e.TestCaseStarted?
    ensures var r := Handle(s, src, e).state;
      && s.jsOut <= r.jsOut
      && Count(Emitted(s, r), CallSel(JsScenario)) + Pending(r) == Pending(s)
  {
    var r := Handle(s, src, e).state;
    if e.TestStepStarted? {
      TestStepStartedEmissions(s, src, e.testStep);
      if e.testStep.PickleStepTestStep? {
        TestStepStartedCount(s, src, e.testStep, CallSel(JsScenario));
      } else {
        assert Emitted(s, r) == [];
      }
    } else {
      OtherEventEmissions(s, src, e);
      CountAtMostOne(Emitted(s, r), CallSel(JsScenario));
    }
  }

  /** Within one test case (no test case starts among the events), the pending
      scenario is emitted at most once, and exactly once if it is released:
      the `scenario` calls emitted plus what is still pending equal what was
      pending. */
  lemma {:induction false} PendingScenarioEmittedOnce(s: HtmlState, src: SourceIndex, events: seq<Event>)
    requires forall k :: 0 <= k < |events| ==> !events[k].TestCaseStarted?
    ensures var r := Run(s, src, events).state;
      && s.jsOut <= r.jsOut
      && Count(Emitted(s, r), CallSel(JsScenario)) + Pending(r) == Pending(s)
    decreases |events|
  {
    if |events| > 0 {
      var o := Handle(s, src, events[0]);
      PendingScenarioConserved(s, src, events[0]);
      if o.fault.None? {
        var rest := events[1..];
        assert forall k :: 0 <= k < |rest| ==> !rest[k].TestCaseStarted? by {
          forall k | 0 <= k < |rest| ensures !rest[k].TestCaseStarted? {
            assert rest[k] == events[k + 1];
          }
        }
        PendingScenarioEmittedOnce(o.state, src, rest);
        EmittedSplit(s, o.state, Run(o.state, src, rest).state, CallSel(JsScenario));
      }
    }
  }

  // The outline markers.

  /** Only a test case start moves the file and the outline and examples markers. */
  lemma {:induction false} MarkersOnlyMoveAtTestCaseStart(s: HtmlState, src: SourceIndex, events: seq<Event>)
    requires forall k :: 0 <= k < |events| ==> !events[k].TestCaseStarted?
    ensures var r := Run(s, src, events).state;
      && r.currentScenarioOutline == s.currentScenarioOutline
      && r.currentExamples == s.currentExamples
      && r.currentFeatureFile == s.currentFeatureFile
    decreases |events|
  {
    if |events| > 0 {
      var o := Handle(s, src, events[0]);
      if events[0].TestStepStarted? {
        TestStepStartedEmissions(s, src, events[0].testStep);
      } else {
        OtherEventEmissions(s, src, events[0]);
      }
      if o.fault.None? {
        assert forall k :: 0 <= k < |events[1..]| ==> events[1..][k] == events[k + 1];
        MarkersOnlyMoveAtTestCaseStart(o.state, src, events[1..]);
      }
    }
  }

  /** Two test cases from rows of the same outline and examples block, with any
      steps, hooks, writes and embeds between them: the second one shows
      neither the outline, nor its steps, nor the examples block again. */
  lemma OutlineShownOncePerRun(s: HtmlState, src: SourceIndex, first: TestCase, between: seq<Event>, second: TestCase)
    requires forall k :: 0 <= k < |between| ==> !between[k].TestCaseStarted?
    requires first.uri == second.uri
    requires src.IsScenarioOutlineScenario(Some(first.uri), first.line)
    requires src.IsScenarioOutlineScenario(Some(second.uri), second.line)
    requires var a := src.TestCaseAt(Some(first.uri), first.line).value;
      var b := src.TestCaseAt(Some(second.uri), second.line).value;
      && a.definition.handle == b.definition.handle
      && a.examples.value.handle == b.examples.value.handle
    ensures var s1 := OnTestCaseStarted(s, src, first);
      var s2 := Run(s1, src, between).state;
      var r := OnTestCaseStarted(s2, src, second);
      && s2.jsOut <= r.jsOut
      && Count(Emitted(s2, r), CallSel(JsScenarioOutline)) == 0
      && Count(Emitted(s2, r), CallSel(JsStep)) == 0
      && Count(Emitted(s2, r), CallSel(JsExamples)) == 0
      && Count(Emitted(s2, r), CallSel(JsUri)) == 0
  {
    var s1 := OnTestCaseStarted(s, src, first);
    TestCaseStartedState(s, src, first);
    var s2 := Run(s1, src, between).state;
    MarkersOnlyMoveAtTestCaseStart(s1, src, between);
    TestCaseStartedCount(s2, src, second, CallSel(JsScenarioOutline));
    TestCaseStartedCount(s2, src, second, CallSel(JsStep));
    TestCaseStartedCount(s2, src, second, CallSel(JsExamples));
    TestCaseStartedCount(s2, src, second, CallSel(JsUri));
  }

  // Steps, hooks and embeddings.

  /** What a step finish emits: `result` for a pickle step, the hook's own call
      name for a hook, and for any other kind of step an `IllegalStateException`
      with nothing emitted. */
  lemma TestStepFinishedEmissions(s: HtmlState, testStep: TestStep, result: Result)
    ensures var o := OnTestStepFinished(s, testStep, result);
      && (testStep.PickleStepTestStep? ==>
            o.fault.None? && o.state.jsOut == s.jsOut + [Call(JsResult, CreateResultMap(result))])
      && (testStep.HookTestStep? ==>
            o.fault.None? && o.state.jsOut == s.jsOut + [Call(FunctionName(testStep.hookType), CreateResultMap(result))])
      && (testStep.OtherTestStep? ==> o == Outcome(s, Some(IllegalState)))
  {
  }

  /** What an embed emits: a `text/` type one inline call with the counter
      untouched; a type of the table one call naming the file
      `embedded<counter>.<extension>` and the counter one further; any other
      type nothing at all. */
  lemma EmbedEmissions(s: HtmlState, e: EmbedEvent)
    ensures var r := OnEmbed(s, e);
      && s.jsOut <= r.jsOut
      && var es := Emitted(s, r);
      && (IsTextMimeType(e.mimeType) ==>
            es == [Call(JsEmbedding, EmbeddingArgs(e.mimeType, InlineText(e.data), e.name))]
            && r.embeddedIndex == s.embeddedIndex)
      && (!IsTextMimeType(e.mimeType) && ExtensionOf(e.mimeType).Some? ==>
            es == [Call(JsEmbedding, EmbeddingArgs(e.mimeType,
                     EmbeddedFile(EmbeddedFileName(s.embeddedIndex, ExtensionOf(e.mimeType).value)), e.name))]
            && r.embeddedIndex == Int32Succ(s.embeddedIndex))
      && (!IsTextMimeType(e.mimeType) && ExtensionOf(e.mimeType).None? ==> r == s)
  {
  }

  /** An embedding goes to a file exactly when its type is not `text/` and is
      in the table of binary types. */
  predicate WritesFile(e: Event) {
    e.Embed? && !IsTextMimeType(e.embed.mimeType) && ExtensionOf(e.embed.mimeType).Some?
  }

  /** Each event adds one embedding file to the script and moves the counter
      one further when it writes a file, and does neither otherwise. */
  lemma HandleFileCount(s: HtmlState, src: SourceIndex, e: Event)
    ensures var r := Handle(s, src, e).state;
      && s.jsOut <= r.jsOut
      && Count(Emitted(s, r), FileSel) == Ind(WritesFile(e))
      && r.embeddedIndex == if WritesFile(e) then Int32Succ(s.embeddedIndex) else s.embeddedIndex
  {
    var r := Handle(s, src, e).state;
    if e.TestCaseStarted? {
      TestCaseStartedCount(s, src, e.testCase, FileSel);
    } else if e.TestStepStarted? {
      if e.testStep.PickleStepTestStep? {
        TestStepStartedCount(s, src, e.testStep, FileSel);
      } else {
        assert Emitted(s, r) == [];
      }
    } else if e.Embed? {
      EmbedEmissions(s, e.embed);
      CountAtMostOne(Emitted(s, r), FileSel);
    } else {
      OtherEventEmissions(s, src, e);
      CountAtMostOne(Emitted(s, r), FileSel);
    }
  }

  /** Below the top of the `int` range, the embedding counter is the number of
      embeddings written to files so far, whatever event comes next. */
  lemma HandleCountsFiles(s: HtmlState, src: SourceIndex, e: Event)
    requires s.embeddedIndex as int == Count(s.jsOut, FileSel)
    requires s.embeddedIndex < 0x7fff_ffff
    ensures var r := Handle(s, src, e).state;
      r.embeddedIndex as int == Count(r.jsOut, FileSel)
  {
    var r := Handle(s, src, e).state;
    HandleFileCount(s, src, e);
    assert r.jsOut == s.jsOut + Emitted(s, r);
    CountConcat(s.jsOut, Emitted(s, r), FileSel);
  }

  // ------------------------------------------------------------- the class

  class HTMLFormatter {
    const sources: SourceIndex
    var jsOut: seq<Emission>
    var firstFeature: bool
    var currentFeatureFile: Option<Uri>
    var currentTestCaseMap: Option<Payload>
    var currentScenarioOutline: Option<ScenarioDefinition>
    var currentExamples: Option<ExamplesNode>
    var embeddedIndex: int32

    function State(): HtmlState
      reads this
    {
      HtmlState(jsOut, firstFeature, currentFeatureFile, currentTestCaseMap,
                currentScenarioOutline, currentExamples, embeddedIndex)
    }

    constructor (sources: SourceIndex)
      ensures this.sources == sources && State() == Initial
    {
      this.sources := sources;
      jsOut := [];
      firstFeature := true;
      currentFeatureFile := None;
      currentTestCaseMap := None;
      currentScenarioOutline := None;
      currentExamples := None;
      embeddedIndex := 0;
    }

    method HandleTestCaseStarted(tc: TestCase)
      modifies this
      ensures State() == OnTestCaseStarted(old(State()), sources, tc)
    {
      if firstFeature {
        jsOut := jsOut + [Preamble];
        firstFeature := false;
      }
      HandleStartOfFeature(tc);
      HandleScenarioOutline(tc);
      var caseMap := CreateTestCase(sources, currentFeatureFile, tc);
      currentTestCaseMap := Some(caseMap);
      var node := sources.TestCaseAt(currentFeatureFile, tc.line);
      if node.Some? && node.value.background.Some? {
        jsOut := jsOut + [Call(JsBackground, BackgroundMap(node.value.background.value))];
      } else {
        jsOut := jsOut + [Call(JsScenario, caseMap)];
        currentTestCaseMap := None;
      }
    }

    method HandleStartOfFeature(tc: TestCase)
      modifies this
      ensures State() == StartOfFeature(old(State()), sources, tc)
    {
      if currentFeatureFile != Some(tc.uri) {
        currentFeatureFile := Some(tc.uri);
        jsOut := jsOut + [Call(JsUri, UriValue(tc.uri))];
        jsOut := jsOut + [Call(JsFeature, FeatureMap(sources.Feature(tc.uri)))];
      }
    }

    method HandleScenarioOutline(tc: TestCase)
      modifies this
      ensures State() == ScenarioOutline(old(State()), sources, tc)
    {
      var node := sources.TestCaseAt(currentFeatureFile, tc.line);
      if node.Some? && node.value.examples.Some? {
        var outline := node.value.definition;
        if currentScenarioOutline.None? || currentScenarioOutline.value.handle != outline.handle {
          currentScenarioOutline := Some(outline);
          jsOut := jsOut + [Call(JsScenarioOutline, ScenarioOutlineMap(outline))];
          AddOutlineStepsToReport(outline);
        }
        var examples := node.value.examples.value;
        if currentExamples.None? || currentExamples.value.handle != examples.handle {
          currentExamples := Some(examples);
          jsOut := jsOut + [Call(JsExamples, ExamplesMap(examples))];
        }
      } else {
        currentScenarioOutline := None;
        currentExamples := None;
      }
    }

    /** `addOutlineStepsToReport`: one `step` call per outline step, in order. */
    method AddOutlineStepsToReport(outline: ScenarioDefinition)
      modifies this`jsOut
      ensures jsOut == old(jsOut) + OutlineStepCalls(outline.steps)
    {
      var steps := outline.steps;
      for k := 0 to |steps|
        invariant jsOut == old(jsOut) + OutlineStepCalls(steps)[..k]
      {
        jsOut := jsOut + [OutlineStepCall(steps[k])];
        assert OutlineStepCalls(steps)[..k + 1] == OutlineStepCalls(steps)[..k] + [OutlineStepCalls(steps)[k]];
      }
      assert OutlineStepCalls(steps)[..|steps|] == OutlineStepCalls(steps);
    }

    method HandleTestStepStarted(testStep: TestStep)
      modifies this
      ensures State() == OnTestStepStarted(old(State()), sources, testStep)
    {
      if testStep.PickleStepTestStep? {
        var step := testStep.step;
        if IsFirstStepAfterBackground(State(), sources, step) {
          jsOut := jsOut + [Call(JsScenario, currentTestCaseMap.value)];
          currentTestCaseMap := None;
        }
        jsOut := jsOut + [Call(JsStep, CreateTestStep(sources, currentFeatureFile, step))];
        jsOut := jsOut + [Call(JsMatch, MatchMap(step.codeLocation))];
      }
    }

    method HandleTestStepFinished(testStep: TestStep, result: Result) returns (fault: Option<Fault>)
      modifies this
      ensures Outcome(State(), fault) == OnTestStepFinished(old(State()), testStep, result)
    {
      match testStep
      case PickleStepTestStep(_) =>
        jsOut := jsOut + [Call(JsResult, CreateResultMap(result))];
        fault := None;
      case HookTestStep(hookType, _) =>
        jsOut := jsOut + [Call(FunctionName(hookType), CreateResultMap(result))];
        fault := None;
      case OtherTestStep(_) =>
        fault := Some(IllegalState);
    }

    method HandleEmbed(e: EmbedEvent)
      modifies this
      ensures State() == OnEmbed(old(State()), e)
    {
      if IsTextMimeType(e.mimeType) {
        jsOut := jsOut + [Call(JsEmbedding, EmbeddingArgs(e.mimeType, InlineText(e.data), e.name))];
      } else {
        var extension := ExtensionOf(e.mimeType);
        if extension.Some? {
          var fileName := EmbeddedFileName(embeddedIndex, extension.value);
          embeddedIndex := Int32Succ(embeddedIndex);
          jsOut := jsOut + [Call(JsEmbedding, EmbeddingArgs(e.mimeType, EmbeddedFile(fileName), e.name))];
        }
      }
    }

    method HandleWrite(text: string)
      modifies this
      ensures State() == OnWrite(old(State()), text)
    {
      jsOut := jsOut + [Call(JsWrite, TextValue(text))];
    }

    method FinishReport()
      modifies this
      ensures State() == OnFinishReport(old(State()))
    {
      if !firstFeature {
        jsOut := jsOut + [Closing];
      }
    }
  }
}
