/**
  The JSON formatter: it assembles the report tree in place as events arrive,
  through cursors into the tree. `currentElement` and `currentTestCase` stand
  for `currentElementMap` and `currentTestCaseMap`; the lists the formatter
  keeps beside them, `currentElementsList` and `currentStepsList`, are always
  the elements of the last feature and the steps of the current element, so
  they are read off the tree rather than kept. `currentStepOrHook` is where
  output, embeddings and results go: a step or hook in the tree, a before-step
  hook still in the buffer, or an object that never made it into the tree
  because the handler that created it threw.
 */
module Json {
  import opened Events
  import opened Sources
  import opened JsonDocument

  /** The position of the most recently started step or hook. */
  datatype Slot =
    | StepSlot(at: ElementRef, step: nat)
    | CaseHookSlot(at: ElementRef, isAfter: bool, hook: nat)
    | AfterStepHookSlot(at: ElementRef, step: nat, hook: nat)
    | PendingHookSlot(hook: nat)
    | Detached

  datatype JsonState = JsonState(
    featureMaps: seq<FeatureMap>,
    currentFeatureFile: Option<Uri>,
    currentElement: Option<ElementRef>,
    currentTestCase: Option<ElementRef>,
    currentStepOrHook: Option<Slot>,
    beforeStepHooks: seq<HookMap>)

  /** A fresh formatter: no report, no cursor, an empty before-step buffer. */
  const Initial := JsonState([], None, None, None, None, [])

  predicate SlotValid(d: seq<FeatureMap>, buffer: seq<HookMap>, q: Slot) {
    match q
    case StepSlot(at, i) => ValidRef(d, at) && i < |ElementAt(d, at).steps|
    case CaseHookSlot(at, isAfter, i) => ValidRef(d, at) && i < |HookList(ElementAt(d, at), isAfter)|
    case AfterStepHookSlot(at, i, j) =>
      ValidRef(d, at) && i < |ElementAt(d, at).steps| && j < |ElementAt(d, at).steps[i].after|
    case PendingHookSlot(i) => i < |buffer|
    case Detached => true
  }

  /** The current file is the last feature's, and there is a feature exactly
      when there is a current file. */
  predicate FeatureCursorValid(s: JsonState) {
    && (s.currentFeatureFile.Some? <==> |s.featureMaps| > 0)
    && (|s.featureMaps| > 0 ==> s.featureMaps[|s.featureMaps| - 1].uri == s.currentFeatureFile.value)
  }

  /** Both element cursors are set once a test case started. The test case is
      a scenario of the last feature, and the current element is that scenario
      or the background just before it. */
  predicate ElementCursorValid(s: JsonState) {
    && (s.currentElement.Some? <==> s.currentTestCase.Some?)
    && (s.currentTestCase.Some? ==>
          var tc, el := s.currentTestCase.value, s.currentElement.value;
          && tc.feature + 1 == |s.featureMaps|
          && ValidRef(s.featureMaps, tc)
          && ElementAt(s.featureMaps, tc).header.ScenarioHeader?
          && (|| el == tc
              || (tc.element > 0 && el == ElementRef(tc.feature, tc.element - 1)
                  && ElementAt(s.featureMaps, el).header.BackgroundHeader?)))
  }

  /** What the formatter's fields always satisfy between events. */
  predicate Valid(s: JsonState) {
    && FeatureCursorValid(s)
    && ElementCursorValid(s)
    && (s.currentStepOrHook.Some? ==> SlotValid(s.featureMaps, s.beforeStepHooks, s.currentStepOrHook.value))
  }

  // ---------------------------------------------------------- test case start

  /** `handleTestCaseStarted`, the feature part: a new feature object when the
      test case's file is not the current one. */
  function OpenFeature(s: JsonState, src: SourceIndex, tc: TestCase): (r: JsonState)
    ensures r.currentFeatureFile == Some(tc.uri)
    ensures r.(featureMaps := s.featureMaps, currentFeatureFile := s.currentFeatureFile) == s
  {
    if s.currentFeatureFile != Some(tc.uri) then
      s.(featureMaps := s.featureMaps + [CreateFeatureMap(src, tc.uri)], currentFeatureFile := Some(tc.uri))
    else s
  }

  /** The elements a test case start appends: its background, when the
      feature declares one, then its scenario. */
  function NewElements(src: SourceIndex, file: Option<Uri>, tc: TestCase, instant: nat): (els: seq<Element>)
    ensures |els| == if src.HasBackground(file, tc.line) then 2 else 1
    ensures els[|els| - 1].header.ScenarioHeader?
    ensures |els| == 2 ==> els[0].header.BackgroundHeader?
  {
    var scenario := Element(CreateTestCase(src, file, tc, instant), [], [], []);
    if src.HasBackground(file, tc.line) then
      var background := src.TestCaseAt(file, tc.line).value.background.value;
      [Element(CreateBackground(background), [], [], []), scenario]
    else [scenario]
  }

  /** `handleTestCaseStarted`, the element part: the new elements go to the
      end of the last feature, the test case cursor to the scenario and the
      element cursor to the first new element. */
  function AddTestCase(s: JsonState, src: SourceIndex, tc: TestCase, instant: nat): (r: JsonState)
    requires |s.featureMaps| > 0
    ensures r.(featureMaps := s.featureMaps, currentElement := s.currentElement, currentTestCase := s.currentTestCase) == s
  {
    var f := |s.featureMaps| - 1;
    var feature := s.featureMaps[f];
    var n := |feature.elements|;
    var els := NewElements(src, s.currentFeatureFile, tc, instant);
    s.(featureMaps := s.featureMaps[f := feature.(elements := feature.elements + els)],
       currentElement := Some(ElementRef(f, n)),
       currentTestCase := Some(ElementRef(f, n + |els| - 1)))
  }

  /** `handleTestCaseStarted`. */
  function OnTestCaseStarted(s: JsonState, src: SourceIndex, tc: TestCase, instant: nat): JsonState
    requires Valid(s)
  {
    AddTestCase(OpenFeature(s, src, tc), src, tc, instant)
  }

  // ---------------------------------------------------------- test step start

  /** `isFirstStepAfterBackground`: the step resolves to a node of the current
      file, the current element is not the test case, and the node is not a
      step of the background. */
  predicate IsFirstStepAfterBackground(s: JsonState, src: SourceIndex, step: PickleStep) {
    var node := src.StepAt(s.currentFeatureFile, step.stepLine);
    node.Some? && s.currentElement != s.currentTestCase && !node.value.isBackgroundStep
  }

  /** A pickle step start: the element cursor moves to the scenario at the
      first step after the background, the step takes the buffered hooks as its
      `"before"`, the buffer is emptied, and the step is appended to the current
      element's steps. Before any test case there is no steps list to append
      to; the step object is already the cursor and the buffer already reset. */
  function StartPickleStep(s: JsonState, src: SourceIndex, step: PickleStep): (o: Outcome<JsonState>)
    requires Valid(s)
    ensures |o.state.featureMaps| == |s.featureMaps|
    ensures o.state.(featureMaps := s.featureMaps, currentElement := s.currentElement,
                     currentStepOrHook := s.currentStepOrHook, beforeStepHooks := s.beforeStepHooks) == s
  {
    var s1 := if IsFirstStepAfterBackground(s, src, step) then s.(currentElement := s.currentTestCase) else s;
    var stepMap := CreateTestStep(src, s.currentFeatureFile, step, s.beforeStepHooks);
    match s1.currentElement
    case None => Outcome(s1.(currentStepOrHook := Some(Detached), beforeStepHooks := []), Some(NullPointer))
    case Some(at) =>
      var el := ElementAt(s1.featureMaps, at);
      Outcome(s1.(featureMaps := WithElement(s1.featureMaps, at, el.(steps := el.steps + [stepMap])),
                  currentStepOrHook := Some(StepSlot(at, |el.steps|)),
                  beforeStepHooks := []), None)
  }

  /** An element with one more hook at the end of its `"before"` or `"after"` list. */
  function WithHook(el: Element, isAfter: bool, h: HookMap): (r: Element)
    ensures HookList(r, isAfter) == HookList(el, isAfter) + [h]
    ensures HookList(r, !isAfter) == HookList(el, !isAfter)
    ensures r.header == el.header && r.steps == el.steps
  {
    if isAfter then el.(after := el.after + [h]) else el.(before := el.before + [h])
  }

  /** `addHookStepToTestCaseMap` for BEFORE and AFTER: onto the test case's own
      list; before any test case the test case map is `null`. */
  function AddCaseHook(s: JsonState, isAfter: bool): (o: Outcome<JsonState>)
    requires Valid(s)
    ensures |o.state.featureMaps| == |s.featureMaps|
    ensures o.state.(featureMaps := s.featureMaps, currentStepOrHook := s.currentStepOrHook) == s
  {
    match s.currentTestCase
    case None => Outcome(s.(currentStepOrHook := Some(Detached)), Some(NullPointer))
    case Some(at) =>
      var el := ElementAt(s.featureMaps, at);
      Outcome(s.(featureMaps := WithElement(s.featureMaps, at, WithHook(el, isAfter, HookMap(EmptyTrace))),
                 currentStepOrHook := Some(CaseHookSlot(at, isAfter, |HookList(el, isAfter)|))), None)
  }

  /** `addHookStepToTestCaseMap` for AFTER_STEP: onto the `"after"` list of the
      last step of the current steps list; without a steps list that is a
      `null` dereference, with an empty one an index of -1. */
  function AddAfterStepHook(s: JsonState): (o: Outcome<JsonState>)
    requires Valid(s)
    ensures |o.state.featureMaps| == |s.featureMaps|
    ensures o.state.(featureMaps := s.featureMaps, currentStepOrHook := s.currentStepOrHook) == s
  {
    match s.currentElement
    case None => Outcome(s.(currentStepOrHook := Some(Detached)), Some(NullPointer))
    case Some(at) =>
      var el := ElementAt(s.featureMaps, at);
      if |el.steps| == 0 then Outcome(s.(currentStepOrHook := Some(Detached)), Some(IndexOutOfBounds))
      else
        var i := |el.steps| - 1;
        var st := el.steps[i];
        Outcome(s.(featureMaps := WithElement(s.featureMaps, at, el.(steps := el.steps[i := st.(after := st.after + [HookMap(EmptyTrace)])])),
                   currentStepOrHook := Some(AfterStepHookSlot(at, i, |st.after|))), None)
  }

  /** `addHookStepToTestCaseMap` for BEFORE_STEP: onto the buffer. */
  function BufferBeforeStepHook(s: JsonState): JsonState {
    s.(beforeStepHooks := s.beforeStepHooks + [HookMap(EmptyTrace)],
       currentStepOrHook := Some(PendingHookSlot(|s.beforeStepHooks|)))
  }

  /** A hook start: a new empty hook object, routed by the hook's kind. */
  function StartHook(s: JsonState, hookType: HookType): (o: Outcome<JsonState>)
    requires Valid(s)
    ensures |o.state.featureMaps| == |s.featureMaps|
    ensures o.state.(featureMaps := s.featureMaps, currentStepOrHook := s.currentStepOrHook,
                     beforeStepHooks := s.beforeStepHooks) == s
  {
    match hookType
    case Before => AddCaseHook(s, false)
    case After => AddCaseHook(s, true)
    case BeforeStep => Outcome(BufferBeforeStepHook(s), None)
    case AfterStep => AddAfterStepHook(s)
  }

  /** `handleTestStepStarted`. */
  function OnTestStepStarted(s: JsonState, src: SourceIndex, testStep: TestStep): (o: Outcome<JsonState>)
    requires Valid(s)
    ensures |o.state.featureMaps| == |s.featureMaps|
    ensures o.state.(featureMaps := s.featureMaps, currentElement := s.currentElement,
                     currentStepOrHook := s.currentStepOrHook, beforeStepHooks := s.beforeStepHooks) == s
  {
    match testStep
    case PickleStepTestStep(step) => StartPickleStep(s, src, step)
    case HookTestStep(hookType, _) => StartHook(s, hookType)
    case OtherTestStep(_) => Outcome(s, Some(IllegalState))
  }

  // ------------------------------------------- output, embeddings and results

  /** What an event records against the current step or hook. */
  datatype TraceUpdate =
    | AddOutput(text: string)
    | AddEmbedding(embedding: EmbeddingMap)
    | SetFinished(matchMap: MatchMap, resultMap: ResultMap)

  function Apply(t: Trace, u: TraceUpdate): Trace {
    match u
    case AddOutput(text) => t.(output := t.output + [text])
    case AddEmbedding(m) => t.(embeddings := t.embeddings + [m])
    case SetFinished(m, r) => t.(matchMap := Some(m), resultMap := Some(r))
  }

  /** The trace of the step or hook at a slot. */
  function TraceAt(s: JsonState, q: Slot): Trace
    requires SlotValid(s.featureMaps, s.beforeStepHooks, q) && !q.Detached?
  {
    match q
    case StepSlot(at, i) => ElementAt(s.featureMaps, at).steps[i].trace
    case CaseHookSlot(at, isAfter, i) => HookList(ElementAt(s.featureMaps, at), isAfter)[i].trace
    case AfterStepHookSlot(at, i, j) => ElementAt(s.featureMaps, at).steps[i].after[j].trace
    case PendingHookSlot(i) => s.beforeStepHooks[i].trace
  }

  /** An element whose hook at index `i` of one list has trace `t`. */
  function SetHookTrace(el: Element, isAfter: bool, i: nat, t: Trace): (r: Element)
    requires i < |HookList(el, isAfter)|
    ensures HookList(r, isAfter) == HookList(el, isAfter)[i := HookMap(t)]
    ensures HookList(r, !isAfter) == HookList(el, !isAfter)
    ensures r.header == el.header && r.steps == el.steps
  {
    if isAfter then el.(after := el.after[i := HookMap(t)]) else el.(before := el.before[i := HookMap(t)])
  }

  /** The state with the trace at a slot replaced. */
  function WithTrace(s: JsonState, q: Slot, t: Trace): (r: JsonState)
    requires SlotValid(s.featureMaps, s.beforeStepHooks, q) && !q.Detached?
    ensures |r.featureMaps| == |s.featureMaps|
    ensures r.(featureMaps := s.featureMaps, beforeStepHooks := s.beforeStepHooks) == s
  {
    match q
    case StepSlot(at, i) =>
      var el := ElementAt(s.featureMaps, at);
      s.(featureMaps := WithElement(s.featureMaps, at, el.(steps := el.steps[i := el.steps[i].(trace := t)])))
    case CaseHookSlot(at, isAfter, i) =>
      var el := ElementAt(s.featureMaps, at);
      s.(featureMaps := WithElement(s.featureMaps, at, SetHookTrace(el, isAfter, i, t)))
    case AfterStepHookSlot(at, i, j) =>
      var el := ElementAt(s.featureMaps, at);
      var st := el.steps[i];
      s.(featureMaps := WithElement(s.featureMaps, at, el.(steps := el.steps[i := st.(after := st.after[j := HookMap(t)])])))
    case PendingHookSlot(i) =>
      s.(beforeStepHooks := s.beforeStepHooks[i := HookMap(t)])
  }

  /** Records an update against `currentStepOrHookMap`: a `null` cursor throws,
      an object outside the tree takes the update where no report shows it. */
  function UpdateCurrent(s: JsonState, u: TraceUpdate): (o: Outcome<JsonState>)
    requires Valid(s)
    ensures |o.state.featureMaps| == |s.featureMaps|
    ensures o.state.(featureMaps := s.featureMaps, beforeStepHooks := s.beforeStepHooks) == s
  {
    match s.currentStepOrHook
    case None => Outcome(s, Some(NullPointer))
    case Some(q) =>
      if q.Detached? then Outcome(s, None)
      else Outcome(WithTrace(s, q, Apply(TraceAt(s, q), u)), None)
  }

  /** `handleWrite` / `addOutputToHookMap`. */
  function OnWrite(s: JsonState, text: string): Outcome<JsonState>
    requires Valid(s)
  {
    UpdateCurrent(s, AddOutput(text))
  }

  /** `handleEmbed` / `addEmbeddingToHookMap`. */
  function OnEmbed(s: JsonState, e: EmbedEvent): Outcome<JsonState>
    requires Valid(s)
  {
    UpdateCurrent(s, AddEmbedding(CreateEmbeddingMap(e)))
  }

  /** `handleTestStepFinished`. */
  function OnTestStepFinished(s: JsonState, testStep: TestStep, result: Result): Outcome<JsonState>
    requires Valid(s)
  {
    UpdateCurrent(s, SetFinished(CreateMatchMap(testStep, result), CreateResultMap(result)))
  }

  /** `finishReport`: the report written out is the list of features. */
  function OnFinishReport(s: JsonState): seq<FeatureMap> {
    s.featureMaps
  }

  // ------------------------------------------------------ the invariant kept

  /** Slots stay valid while the report grows. */
  lemma GrowsKeepsSlot(d: seq<FeatureMap>, d2: seq<FeatureMap>, b: seq<HookMap>, b2: seq<HookMap>, q: Slot)
    requires Grows(d, d2) && |b| <= |b2| && SlotValid(d, b, q)
    ensures SlotValid(d2, b2, q)
  {
    match q
    case StepSlot(at, _) =>
    case CaseHookSlot(at, _, _) =>
    case AfterStepHookSlot(at, _, _) =>
    case PendingHookSlot(_) =>
    case Detached =>
  }

  /** A report that grew without new features keeps the cursors of a valid state valid. */
  lemma GrowsKeepsCursors(s: JsonState, d2: seq<FeatureMap>)
    requires Valid(s) && Grows(s.featureMaps, d2) && |d2| == |s.featureMaps|
    ensures Valid(s.(featureMaps := d2))
  {
    if s.currentStepOrHook.Some? {
      GrowsKeepsSlot(s.featureMaps, d2, s.beforeStepHooks, s.beforeStepHooks, s.currentStepOrHook.value);
    }
  }

  lemma AppendFeatureGrows(d: seq<FeatureMap>, fm: FeatureMap)
    ensures Grows(d, d + [fm])
  {
    forall at | ValidRef(d, at) ensures ElementAt(d + [fm], at) == ElementAt(d, at) {
    }
  }

  lemma AppendElementsGrows(d: seq<FeatureMap>, els: seq<Element>)
    requires |d| > 0
    ensures var f := |d| - 1; Grows(d, d[f := d[f].(elements := d[f].elements + els)])
  {
    var f := |d| - 1;
    var d2 := d[f := d[f].(elements := d[f].elements + els)];
    forall at | ValidRef(d, at) ensures ElementAt(d2, at) == ElementAt(d, at) {
    }
  }

  /** Opening the test case's feature keeps the feature cursor valid. */
  lemma OpenFeatureKeepsCursor(s: JsonState, src: SourceIndex, tc: TestCase)
    requires FeatureCursorValid(s)
    ensures var r := OpenFeature(s, src, tc);
      FeatureCursorValid(r) && |r.featureMaps| > 0 && Grows(s.featureMaps, r.featureMaps)
  {
    if s.currentFeatureFile != Some(tc.uri) {
      AppendFeatureGrows(s.featureMaps, CreateFeatureMap(src, tc.uri));
    }
  }

  /** Appending a test case's elements sets both element cursors validly,
      whatever they were. */
  lemma AddTestCaseSetsCursors(s: JsonState, src: SourceIndex, tc: TestCase, instant: nat)
    requires FeatureCursorValid(s) && |s.featureMaps| > 0
    ensures var r := AddTestCase(s, src, tc, instant);
      FeatureCursorValid(r) && ElementCursorValid(r) && Grows(s.featureMaps, r.featureMaps)
  {
    AppendElementsGrows(s.featureMaps, NewElements(src, s.currentFeatureFile, tc, instant));
  }

  lemma TestCaseStartedKeepsValid(s: JsonState, src: SourceIndex, tc: TestCase, instant: nat)
    requires Valid(s)
    ensures Valid(OnTestCaseStarted(s, src, tc, instant))
    ensures Grows(s.featureMaps, OnTestCaseStarted(s, src, tc, instant).featureMaps)
  {
    var s1 := OpenFeature(s, src, tc);
    OpenFeatureKeepsCursor(s, src, tc);
    var r := AddTestCase(s1, src, tc, instant);
    AddTestCaseSetsCursors(s1, src, tc, instant);
    GrowsTransitive(s.featureMaps, s1.featureMaps, r.featureMaps);
    if s.currentStepOrHook.Some? {
      GrowsKeepsSlot(s.featureMaps, r.featureMaps, s.beforeStepHooks, r.beforeStepHooks, s.currentStepOrHook.value);
    }
  }

  lemma PickleStepKeepsValid(s: JsonState, src: SourceIndex, step: PickleStep)
    requires Valid(s)
    ensures Valid(StartPickleStep(s, src, step).state)
    ensures Grows(s.featureMaps, StartPickleStep(s, src, step).state.featureMaps)
  {
    var s1 := if IsFirstStepAfterBackground(s, src, step) then s.(currentElement := s.currentTestCase) else s;
    assert Valid(s1.(currentStepOrHook := None, beforeStepHooks := []));
    if s1.currentElement.Some? {
      var at := s1.currentElement.value;
      var el := ElementAt(s1.featureMaps, at);
      var stepMap := CreateTestStep(src, s.currentFeatureFile, step, s.beforeStepHooks);
      var d2 := WithElement(s1.featureMaps, at, el.(steps := el.steps + [stepMap]));
      WithElementGrows(s1.featureMaps, at, el.(steps := el.steps + [stepMap]));
      GrowsKeepsCursors(s1.(currentStepOrHook := None, beforeStepHooks := []), d2);
    }
  }

  lemma CaseHookKeepsValid(s: JsonState, isAfter: bool)
    requires Valid(s)
    ensures Valid(AddCaseHook(s, isAfter).state)
    ensures Grows(s.featureMaps, AddCaseHook(s, isAfter).state.featureMaps)
  {
    if s.currentTestCase.Some? {
      var at := s.currentTestCase.value;
      var el := ElementAt(s.featureMaps, at);
      var d2 := WithElement(s.featureMaps, at, WithHook(el, isAfter, HookMap(EmptyTrace)));
      WithElementGrows(s.featureMaps, at, WithHook(el, isAfter, HookMap(EmptyTrace)));
      GrowsKeepsCursors(s.(currentStepOrHook := None), d2);
    }
  }

  /** A hook appended to the `"after"` of an element's last step grows the element. */
  lemma AfterStepHookGrows(el: Element)
    requires |el.steps| > 0
    ensures var i := |el.steps| - 1; var st := el.steps[i];
      var el2 := el.(steps := el.steps[i := st.(after := st.after + [HookMap(EmptyTrace)])]);
      ElementGrows(el, el2) && |el2.steps| == |el.steps| && |el2.steps[i].after| == |st.after| + 1
  {
  }

  /** The report with a hook appended to the last step of element `at`, that
      hook as the cursor, stays valid. */
  lemma AfterStepAppendKeepsValid(s: JsonState, at: ElementRef)
    requires Valid(s) && s.currentElement == Some(at) && |ElementAt(s.featureMaps, at).steps| > 0
    ensures var el := ElementAt(s.featureMaps, at); var i := |el.steps| - 1; var st := el.steps[i];
      var d2 := WithElement(s.featureMaps, at, el.(steps := el.steps[i := st.(after := st.after + [HookMap(EmptyTrace)])]));
      Valid(s.(featureMaps := d2, currentStepOrHook := Some(AfterStepHookSlot(at, i, |st.after|))))
      && Grows(s.featureMaps, d2)
  {
    var el := ElementAt(s.featureMaps, at);
    var i := |el.steps| - 1;
    var st := el.steps[i];
    var el2 := el.(steps := el.steps[i := st.(after := st.after + [HookMap(EmptyTrace)])]);
    AfterStepHookGrows(el);
    var d2 := WithElement(s.featureMaps, at, el2);
    WithElementGrows(s.featureMaps, at, el2);
    GrowsKeepsCursors(s.(currentStepOrHook := None), d2);
    assert ElementAt(d2, at) == el2;
  }

  lemma AfterStepHookKeepsValid(s: JsonState)
    requires Valid(s)
    ensures Valid(AddAfterStepHook(s).state)
    ensures Grows(s.featureMaps, AddAfterStepHook(s).state.featureMaps)
  {
    if s.currentElement.Some? && |ElementAt(s.featureMaps, s.currentElement.value).steps| > 0 {
      AfterStepAppendKeepsValid(s, s.currentElement.value);
    }
  }

  lemma TestStepStartedKeepsValid(s: JsonState, src: SourceIndex, testStep: TestStep)
    requires Valid(s)
    ensures Valid(OnTestStepStarted(s, src, testStep).state)
    ensures Grows(s.featureMaps, OnTestStepStarted(s, src, testStep).state.featureMaps)
  {
    match testStep
    case PickleStepTestStep(step) => PickleStepKeepsValid(s, src, step);
    case HookTestStep(hookType, _) =>
      if hookType == Before {
        CaseHookKeepsValid(s, false);
      } else if hookType == After {
        CaseHookKeepsValid(s, true);
      } else if hookType == AfterStep {
        AfterStepHookKeepsValid(s);
      }
    case OtherTestStep(_) =>
  }

  /** Recording a trace changes no list's length and no element's keys. */
  lemma WithTraceKeepsShape(s: JsonState, q: Slot, t: Trace)
    requires SlotValid(s.featureMaps, s.beforeStepHooks, q) && !q.Detached?
    ensures Grows(s.featureMaps, WithTrace(s, q, t).featureMaps)
    ensures |WithTrace(s, q, t).beforeStepHooks| == |s.beforeStepHooks|
  {
    if !q.PendingHookSlot? {
      WithElementGrows(s.featureMaps, q.at, ElementAt(WithTrace(s, q, t).featureMaps, q.at));
    }
  }

  lemma UpdateKeepsValid(s: JsonState, u: TraceUpdate)
    requires Valid(s)
    ensures Valid(UpdateCurrent(s, u).state)
    ensures Grows(s.featureMaps, UpdateCurrent(s, u).state.featureMaps)
  {
    if s.currentStepOrHook.Some? && !s.currentStepOrHook.value.Detached? {
      var q := s.currentStepOrHook.value;
      WithTraceKeepsShape(s, q, Apply(TraceAt(s, q), u));
      GrowsKeepsCursors(s, WithTrace(s, q, Apply(TraceAt(s, q), u)).featureMaps);
    }
  }

  // ------------------------------------------------------------------- runs

  /** One event handled; an exception leaves the fields as the handler left them. */
  function Handle(s: JsonState, src: SourceIndex, e: Event): (o: Outcome<JsonState>)
    requires Valid(s)
    ensures Valid(o.state) && Grows(s.featureMaps, o.state.featureMaps)
  {
    match e
    case TestCaseStarted(tc, instant) =>
      TestCaseStartedKeepsValid(s, src, tc, instant);
      Outcome(OnTestCaseStarted(s, src, tc, instant), None)
    case TestStepStarted(ts) =>
      TestStepStartedKeepsValid(s, src, ts);
      OnTestStepStarted(s, src, ts)
    case TestStepFinished(ts, result) =>
      UpdateKeepsValid(s, SetFinished(CreateMatchMap(ts, result), CreateResultMap(result)));
      OnTestStepFinished(s, ts, result)
    case Write(text) =>
      UpdateKeepsValid(s, AddOutput(text));
      OnWrite(s, text)
    case Embed(embed) =>
      UpdateKeepsValid(s, AddEmbedding(CreateEmbeddingMap(embed)));
      OnEmbed(s, embed)
    case TestRunFinished => Outcome(s, None)
  }

  /** The events handled one after the other; an exception ends the run. */
  function Run(s: JsonState, src: SourceIndex, events: seq<Event>): (o: Outcome<JsonState>)
    requires Valid(s)
    ensures Valid(o.state) && Grows(s.featureMaps, o.state.featureMaps)
    decreases |events|
  {
    if |events| == 0 then Outcome(s, None)
    else
      var o := Handle(s, src, events[0]);
      if o.fault.Some? then o
      else
        var r := Run(o.state, src, events[1..]);
        GrowsTransitive(s.featureMaps, o.state.featureMaps, r.state.featureMaps);
        r
  }

  // ---------------------------------------------------------------- features

  /** A test case start appends a feature exactly when its file is not the
      current one, and otherwise adds to the last feature: the features before
      it are untouched, the last one is the test case's file, and its elements
      are the ones it had (none, for a new feature) followed by the new ones. */
  lemma TestCaseStartedFeatures(s: JsonState, src: SourceIndex, tc: TestCase, instant: nat)
    requires Valid(s)
    ensures var r, n := OnTestCaseStarted(s, src, tc, instant), |s.featureMaps|;
      && |r.featureMaps| == n + (if s.currentFeatureFile == Some(tc.uri) then 0 else 1)
      && r.currentFeatureFile == Some(tc.uri)
      && r.featureMaps[|r.featureMaps| - 1].uri == tc.uri
      && (s.currentFeatureFile != Some(tc.uri) ==>
            r.featureMaps[..n] == s.featureMaps
            && r.featureMaps[n] == CreateFeatureMap(src, tc.uri).(elements := NewElements(src, Some(tc.uri), tc, instant)))
      && (s.currentFeatureFile == Some(tc.uri) ==>
            r.featureMaps[..n - 1] == s.featureMaps[..n - 1]
            && r.featureMaps[n - 1] == s.featureMaps[n - 1].(elements := s.featureMaps[n - 1].elements + NewElements(src, Some(tc.uri), tc, instant)))
  {
  }

  /** With a background, two elements are appended, the background then the
      scenario, and the element cursor is at the background; without one, only
      the scenario, and the element cursor is at it. The test case cursor is at
      the scenario, the cursor's element has no steps yet, and the step-or-hook
      cursor and the before-step buffer are left as they were. */
  lemma TestCaseStartedElements(s: JsonState, src: SourceIndex, tc: TestCase, instant: nat)
    requires Valid(s)
    ensures var r := OnTestCaseStarted(s, src, tc, instant);
      var f := |r.featureMaps| - 1;
      var n := if s.currentFeatureFile == Some(tc.uri) then |s.featureMaps[f].elements| else 0;
      var k := if src.HasBackground(Some(tc.uri), tc.line) then 2 else 1;
      && |r.featureMaps[f].elements| == n + k
      && r.currentElement == Some(ElementRef(f, n))
      && r.currentTestCase == Some(ElementRef(f, n + k - 1))
      && ElementAt(r.featureMaps, ElementRef(f, n + k - 1)).header == CreateTestCase(src, Some(tc.uri), tc, instant)
      && (ElementAt(r.featureMaps, ElementRef(f, n)).header.BackgroundHeader? <==> k == 2)
      && ElementAt(r.featureMaps, ElementRef(f, n)).steps == []
      && r.currentStepOrHook == s.currentStepOrHook
      && r.beforeStepHooks == s.beforeStepHooks
  {
    TestCaseStartedFeatures(s, src, tc, instant);
  }

  /** What the handlers of the other events leave alone: the current file, the
      number of features and the test case cursor. */
  lemma OtherEventsKeepFeatures(s: JsonState, src: SourceIndex, e: Event)
    requires Valid(s) && !e.TestCaseStarted?
    ensures var r := Handle(s, src, e).state;
      && r.currentFeatureFile == s.currentFeatureFile
      && |r.featureMaps| == |s.featureMaps|
      && r.currentTestCase == s.currentTestCase
  {
    match e
    case TestStepStarted(ts) =>
    case TestStepFinished(ts, result) =>
    case Write(text) =>
    case Embed(embed) =>
    case TestRunFinished =>
  }

  /** The number of times the file changes from one test case to the next,
      starting from `file`. */
  function FileChanges(file: Option<Uri>, events: seq<Event>): nat
    decreases |events|
  {
    if |events| == 0 then 0
    else if events[0].TestCaseStarted? then
      var uri := events[0].testCase.uri;
      (if file != Some(uri) then 1 else 0) + FileChanges(Some(uri), events[1..])
    else FileChanges(file, events[1..])
  }

  /** Over a run, one feature is added per change of file: consecutive test
      cases of one file share a feature. */
  lemma {:induction false} RunFeatureCount(s: JsonState, src: SourceIndex, events: seq<Event>)
    requires Valid(s)
    requires Run(s, src, events).fault.None?
    ensures |Run(s, src, events).state.featureMaps| == |s.featureMaps| + FileChanges(s.currentFeatureFile, events)
    decreases |events|
  {
    if |events| > 0 {
      var e := events[0];
      var o := Handle(s, src, e);
      RunFeatureCount(o.state, src, events[1..]);
      if e.TestCaseStarted? {
        TestCaseStartedFeatures(s, src, e.testCase, e.instant);
      } else {
        OtherEventsKeepFeatures(s, src, e);
      }
    }
  }

  // -------------------------------------------------------------- handoff

  /** A pickle step moves the element cursor exactly when its line resolves to
      a step of the current file that is not a background step while the
      cursor is not at the test case; it then moves to the test case. */
  lemma PickleStepHandoff(s: JsonState, src: SourceIndex, step: PickleStep)
    requires Valid(s)
    ensures var r, node := StartPickleStep(s, src, step).state, src.StepAt(s.currentFeatureFile, step.stepLine);
      && (r.currentElement != s.currentElement <==>
            node.Some? && !node.value.isBackgroundStep && s.currentElement != s.currentTestCase)
      && (r.currentElement != s.currentElement ==> r.currentElement == s.currentTestCase)
  {
  }

  /** The element cursor is at the test case. */
  predicate Settled(s: JsonState) {
    s.currentElement == s.currentTestCase
  }

  /** An event other than a test case start moves the element cursor only to
      the test case, and never away from it. */
  lemma OtherEventsSettle(s: JsonState, src: SourceIndex, e: Event)
    requires Valid(s) && !e.TestCaseStarted?
    ensures var r := Handle(s, src, e).state;
      && (Settled(s) ==> Settled(r))
      && (r.currentElement != s.currentElement ==> Settled(r))
  {
    OtherEventsKeepFeatures(s, src, e);
    if e.TestStepStarted? && e.testStep.PickleStepTestStep? {
      PickleStepHandoff(s, src, e.testStep.step);
    }
  }

  /** The number of events of a run that move the element cursor without
      starting a test case. */
  function Handoffs(s: JsonState, src: SourceIndex, events: seq<Event>): nat
    requires Valid(s)
    decreases |events|
  {
    if |events| == 0 then 0
    else
      var o := Handle(s, src, events[0]);
      var moved := if !events[0].TestCaseStarted? && o.state.currentElement != s.currentElement then 1 else 0;
      moved + if o.fault.Some? then 0 else Handoffs(o.state, src, events[1..])
  }

  /** Within one test case the switch from the background to the scenario
      happens at most once, and not at all once the cursor is at the scenario. */
  lemma {:induction false} HandoffAtMostOnce(s: JsonState, src: SourceIndex, events: seq<Event>)
    requires Valid(s)
    requires forall i :: 0 <= i < |events| ==> !events[i].TestCaseStarted?
    ensures Handoffs(s, src, events) <= if Settled(s) then 0 else 1
    decreases |events|
  {
    if |events| > 0 {
      var o := Handle(s, src, events[0]);
      var moved := if o.state.currentElement != s.currentElement then 1 else 0;
      OtherEventsKeepFeatures(s, src, events[0]);
      OtherEventsSettle(s, src, events[0]);
      assert Settled(s) ==> moved == 0;
      assert moved == 0 ==> (Settled(o.state) <==> Settled(s));
      if o.fault.None? {
        HandoffAtMostOnce(o.state, src, events[1..]);
        assert Handoffs(s, src, events) == moved + Handoffs(o.state, src, events[1..]);
      } else {
        assert Handoffs(s, src, events) == moved;
      }
    }
  }

  // ---------------------------------------------------------- steps and hooks

  /** Once a test case started, a pickle step is appended at the end of the
      current element's steps, with the buffered before-step hooks as its
      `"before"` (none, so no key, when the buffer is empty) and nothing
      recorded yet; the steps before it, the element's other keys and every
      other element are unchanged, the buffer is emptied and the new step is
      the cursor. */
  lemma StepAppended(s: JsonState, src: SourceIndex, step: PickleStep)
    requires Valid(s) && s.currentTestCase.Some?
    ensures var o := StartPickleStep(s, src, step);
      var at := o.state.currentElement.value;
      var old_, new_ := ElementAt(s.featureMaps, at), ElementAt(o.state.featureMaps, at);
      && o.fault.None?
      && new_.steps[..|old_.steps|] == old_.steps
      && |new_.steps| == |old_.steps| + 1
      && new_.steps[|old_.steps|] == StepMap(step.stepText, step.stepLine, step.argument,
                                             CreateTestStep(src, s.currentFeatureFile, step, []).keyword,
                                             s.beforeStepHooks, [], EmptyTrace)
      && new_.header == old_.header && new_.before == old_.before && new_.after == old_.after
      && (forall q :: ValidRef(s.featureMaps, q) && q != at ==> ElementAt(o.state.featureMaps, q) == ElementAt(s.featureMaps, q))
      && o.state.beforeStepHooks == []
      && o.state.currentStepOrHook == Some(StepSlot(at, |old_.steps|))
  {
    var new_ := ElementAt(StartPickleStep(s, src, step).state.featureMaps, StartPickleStep(s, src, step).state.currentElement.value);
    var old_ := ElementAt(s.featureMaps, StartPickleStep(s, src, step).state.currentElement.value);
    assert new_.steps == old_.steps + [CreateTestStep(src, s.currentFeatureFile, step, s.beforeStepHooks)];
  }

  /** Before any test case a pickle step has no steps list to go to: the
      report is unchanged, yet the buffer was emptied and the cursor is the
      step object that never reached the report. */
  lemma StepBeforeAnyTestCase(s: JsonState, src: SourceIndex, step: PickleStep)
    requires Valid(s) && s.currentTestCase.None?
    ensures StartPickleStep(s, src, step)
         == Outcome(s.(currentStepOrHook := Some(Detached), beforeStepHooks := []), Some(NullPointer))
  {
  }

  /** A before-step hook goes to the end of the buffer and becomes the cursor;
      the report is unchanged. */
  lemma BeforeStepHookBuffered(s: JsonState, src: SourceIndex, location: Option<string>)
    requires Valid(s)
    ensures var o := OnTestStepStarted(s, src, HookTestStep(BeforeStep, location));
      && o.fault.None?
      && o.state.featureMaps == s.featureMaps
      && o.state.beforeStepHooks == s.beforeStepHooks + [HookMap(EmptyTrace)]
      && o.state.currentStepOrHook == Some(PendingHookSlot(|s.beforeStepHooks|))
  {
  }

  /** `k` before-step hook starts. */
  function BeforeStepStarts(k: nat, location: Option<string>): (es: seq<Event>)
    ensures |es| == k
  {
    if k == 0 then [] else [TestStepStarted(HookTestStep(BeforeStep, location))] + BeforeStepStarts(k - 1, location)
  }

  /** `k` empty hook objects. */
  function EmptyHooks(k: nat): (hs: seq<HookMap>)
    ensures |hs| == k
  {
    if k == 0 then [] else [HookMap(EmptyTrace)] + EmptyHooks(k - 1)
  }

  /** The `"before"` of the last step of the current element, if there is one. */
  function LastStepBefore(r: JsonState): Option<seq<HookMap>>
    requires Valid(r)
  {
    if r.currentElement.Some? then
      var steps := ElementAt(r.featureMaps, r.currentElement.value).steps;
      if |steps| > 0 then Some(steps[|steps| - 1].before) else None
    else None
  }

  /** The run ended without an exception, with these hooks as the `"before"`
      of the current element's last step and the buffer empty. */
  predicate HooksAttached(o: Outcome<JsonState>, hooks: seq<HookMap>) {
    && o.fault.None? && Valid(o.state)
    && LastStepBefore(o.state) == Some(hooks)
    && o.state.beforeStepHooks == []
  }

  /** A run of one event is that event's handling. */
  lemma RunOne(s: JsonState, src: SourceIndex, e: Event)
    requires Valid(s)
    ensures Run(s, src, [e]) == Handle(s, src, e)
  {
  }

  /** A run goes on from the state the first event left, unless it threw. */
  lemma RunFirst(s: JsonState, src: SourceIndex, events: seq<Event>)
    requires Valid(s) && |events| > 0 && Handle(s, src, events[0]).fault.None?
    ensures Run(s, src, events) == Run(Handle(s, src, events[0]).state, src, events[1..])
  {
  }

  /** A pickle step after a test case started leaves the buffer it found as
      the `"before"` of the new last step of the current element. */
  lemma StepTakesBuffer(s: JsonState, src: SourceIndex, step: PickleStep)
    requires Valid(s) && s.currentTestCase.Some?
    ensures var o := Handle(s, src, TestStepStarted(PickleStepTestStep(step)));
      o.fault.None? && LastStepBefore(o.state) == Some(s.beforeStepHooks) && o.state.beforeStepHooks == []
  {
    StepAppended(s, src, step);
  }

  /** Handling a before-step hook start is buffering it. */
  lemma HandleBufferedHook(s: JsonState, src: SourceIndex, location: Option<string>)
    requires Valid(s)
    ensures Handle(s, src, TestStepStarted(HookTestStep(BeforeStep, location))) == Outcome(BufferBeforeStepHook(s), None)
  {
  }

  /** One more empty hook in the buffer, one fewer still to come. */
  lemma EmptyHooksShift(b: seq<HookMap>, k: nat)
    requires k > 0
    ensures (b + [HookMap(EmptyTrace)]) + EmptyHooks(k - 1) == b + EmptyHooks(k)
  {
    assert EmptyHooks(k) == [HookMap(EmptyTrace)] + EmptyHooks(k - 1);
  }

  /** With no further before-step hook, the pickle step takes the buffer as it is. */
  lemma NoBufferedHooks(s: JsonState, src: SourceIndex, location: Option<string>, step: PickleStep)
    requires Valid(s) && s.currentTestCase.Some?
    ensures HooksAttached(Run(s, src, BeforeStepStarts(0, location) + [TestStepStarted(PickleStepTestStep(step))]),
                          s.beforeStepHooks + EmptyHooks(0))
  {
    var e := TestStepStarted(PickleStepTestStep(step));
    assert BeforeStepStarts(0, location) + [e] == [e];
    RunOne(s, src, e);
    StepTakesBuffer(s, src, step);
    assert s.beforeStepHooks + EmptyHooks(0) == s.beforeStepHooks;
  }

  /** The first of `k` before-step hook starts followed by a pickle step. */
  lemma FirstBufferedHook(s: JsonState, src: SourceIndex, k: nat, location: Option<string>, step: PickleStep)
    requires Valid(s) && s.currentTestCase.Some? && k > 0
    ensures Valid(BufferBeforeStepHook(s)) && BufferBeforeStepHook(s).currentTestCase.Some?
    ensures HooksAttached(Run(BufferBeforeStepHook(s), src, BeforeStepStarts(k - 1, location) + [TestStepStarted(PickleStepTestStep(step))]),
                          BufferBeforeStepHook(s).beforeStepHooks + EmptyHooks(k - 1))
        ==> HooksAttached(Run(s, src, BeforeStepStarts(k, location) + [TestStepStarted(PickleStepTestStep(step))]),
                          s.beforeStepHooks + EmptyHooks(k))
  {
    var hook := TestStepStarted(HookTestStep(BeforeStep, location));
    var rest := BeforeStepStarts(k - 1, location) + [TestStepStarted(PickleStepTestStep(step))];
    var events := BeforeStepStarts(k, location) + [TestStepStarted(PickleStepTestStep(step))];
    HandleBufferedHook(s, src, location);
    EmptyHooksShift(s.beforeStepHooks, k);
    assert events == [hook] + rest;
    assert events[0] == hook && events[1..] == rest;
    RunFirst(s, src, events);
  }

  /** Before-step hooks accumulate in arrival order and all go, in that order,
      to the `"before"` of the next pickle step, after what was buffered already. */
  lemma {:induction false} BufferedHooksAttachToNextStep(s: JsonState, src: SourceIndex, k: nat, location: Option<string>, step: PickleStep)
    requires Valid(s) && s.currentTestCase.Some?
    ensures HooksAttached(Run(s, src, BeforeStepStarts(k, location) + [TestStepStarted(PickleStepTestStep(step))]),
                          s.beforeStepHooks + EmptyHooks(k))
    decreases k
  {
    if k == 0 {
      NoBufferedHooks(s, src, location, step);
    } else {
      FirstBufferedHook(s, src, k, location, step);
      BufferedHooksAttachToNextStep(BufferBeforeStepHook(s), src, k - 1, location, step);
    }
  }

  /** BEFORE and AFTER hooks go to the end of the test case's own `"before"`
      or `"after"` list, and become the cursor; the element's other lists,
      every other element, the other cursors and the buffer are unchanged.
      Before any test case the test case map is `null`: the report is
      unchanged and the cursor is the hook object that never reached it. */
  lemma CaseHookRouted(s: JsonState, src: SourceIndex, hookType: HookType, location: Option<string>)
    requires Valid(s) && (hookType == Before || hookType == After)
    ensures var o, isAfter := OnTestStepStarted(s, src, HookTestStep(hookType, location)), hookType == After;
      && o.state.(featureMaps := s.featureMaps, currentStepOrHook := s.currentStepOrHook) == s
      && (s.currentTestCase.None? ==>
            o.fault == Some(NullPointer) && o.state.featureMaps == s.featureMaps
            && o.state.currentStepOrHook == Some(Detached))
      && (s.currentTestCase.Some? ==>
            var at := s.currentTestCase.value;
            var old_, new_ := ElementAt(s.featureMaps, at), ElementAt(o.state.featureMaps, at);
            && o.fault.None?
            && HookList(new_, isAfter) == HookList(old_, isAfter) + [HookMap(EmptyTrace)]
            && HookList(new_, !isAfter) == HookList(old_, !isAfter)
            && new_.steps == old_.steps && new_.header == old_.header
            && (forall q :: ValidRef(s.featureMaps, q) && q != at ==> ElementAt(o.state.featureMaps, q) == ElementAt(s.featureMaps, q))
            && o.state.currentStepOrHook == Some(CaseHookSlot(at, isAfter, |HookList(old_, isAfter)|)))
  {
  }

  /** AFTER_STEP hooks go to the end of the `"after"` list of the last step of
      the current element, and become the cursor; the other steps, every
      other element, the other cursors and the buffer are unchanged. Without
      a current element that is a `null` dereference, with no steps an index
      of -1; either way the report is unchanged and the cursor is the hook
      object that never reached it. */
  lemma AfterStepHookRouted(s: JsonState, src: SourceIndex, location: Option<string>)
    requires Valid(s)
    ensures var o := OnTestStepStarted(s, src, HookTestStep(AfterStep, location));
      && o.state.(featureMaps := s.featureMaps, currentStepOrHook := s.currentStepOrHook) == s
      && (s.currentElement.None? ==>
            o.fault == Some(NullPointer) && o.state.featureMaps == s.featureMaps
            && o.state.currentStepOrHook == Some(Detached))
      && (s.currentElement.Some? && |ElementAt(s.featureMaps, s.currentElement.value).steps| == 0 ==>
            o.fault == Some(IndexOutOfBounds) && o.state.featureMaps == s.featureMaps
            && o.state.currentStepOrHook == Some(Detached))
      && (s.currentElement.Some? && |ElementAt(s.featureMaps, s.currentElement.value).steps| > 0 ==>
            var at := s.currentElement.value;
            var old_, new_ := ElementAt(s.featureMaps, at), ElementAt(o.state.featureMaps, at);
            var last := |old_.steps| - 1;
            && o.fault.None?
            && |new_.steps| == |old_.steps|
            && new_.steps[..last] == old_.steps[..last]
            && new_.steps[last] == old_.steps[last].(after := old_.steps[last].after + [HookMap(EmptyTrace)])
            && new_.header == old_.header && new_.before == old_.before && new_.after == old_.after
            && (forall q :: ValidRef(s.featureMaps, q) && q != at ==> ElementAt(o.state.featureMaps, q) == ElementAt(s.featureMaps, q))
            && o.state.currentStepOrHook == Some(AfterStepHookSlot(at, last, |old_.steps[last].after|)))
  {
  }

  // ------------------------------------------- output, embeddings and results

  /** Recording a trace at one slot changes what is recorded there and
      nowhere else: every other step or hook keeps its trace. */
  lemma TraceFrame(s: JsonState, q: Slot, t: Trace, p: Slot)
    requires SlotValid(s.featureMaps, s.beforeStepHooks, q) && !q.Detached?
    requires SlotValid(s.featureMaps, s.beforeStepHooks, p) && !p.Detached?
    ensures var r := WithTrace(s, q, t);
      && SlotValid(r.featureMaps, r.beforeStepHooks, p)
      && TraceAt(r, p) == if p == q then t else TraceAt(s, p)
  {
    var r := WithTrace(s, q, t);
    WithTraceKeepsShape(s, q, t);
    GrowsKeepsSlot(s.featureMaps, r.featureMaps, s.beforeStepHooks, r.beforeStepHooks, p);
    if !p.PendingHookSlot? && !q.PendingHookSlot? && p.at == q.at {
      SameElementFrame(s, q, t, p);
    }
  }

  lemma SameElementFrame(s: JsonState, q: Slot, t: Trace, p: Slot)
    requires SlotValid(s.featureMaps, s.beforeStepHooks, q) && !q.Detached? && !q.PendingHookSlot?
    requires SlotValid(s.featureMaps, s.beforeStepHooks, p) && !p.Detached? && !p.PendingHookSlot?
    requires p.at == q.at
    requires SlotValid(WithTrace(s, q, t).featureMaps, WithTrace(s, q, t).beforeStepHooks, p)
    ensures TraceAt(WithTrace(s, q, t), p) == if p == q then t else TraceAt(s, p)
  {
  }

  /** How a trace update leaves the state: a `null` cursor throws and changes
      nothing, a cursor outside the tree changes nothing visible, and
      otherwise the update is recorded at the cursor and at no other step or
      hook, and no list of the report changes length. */
  lemma UpdateRecorded(s: JsonState, u: TraceUpdate)
    requires Valid(s)
    ensures var o := UpdateCurrent(s, u);
      && (s.currentStepOrHook.None? ==> o == Outcome(s, Some(NullPointer)))
      && (s.currentStepOrHook == Some(Detached) ==> o == Outcome(s, None))
      && (s.currentStepOrHook.Some? && !s.currentStepOrHook.value.Detached? ==>
            var q := s.currentStepOrHook.value;
            && o.fault.None?
            && Grows(s.featureMaps, o.state.featureMaps)
            && TraceAt(o.state, q) == Apply(TraceAt(s, q), u)
            && forall p :: SlotValid(s.featureMaps, s.beforeStepHooks, p) && !p.Detached? && p != q ==>
                 SlotValid(o.state.featureMaps, o.state.beforeStepHooks, p) && TraceAt(o.state, p) == TraceAt(s, p))
  {
    if s.currentStepOrHook.Some? && !s.currentStepOrHook.value.Detached? {
      var q := s.currentStepOrHook.value;
      var t := Apply(TraceAt(s, q), u);
      WithTraceKeepsShape(s, q, t);
      TraceFrame(s, q, t, q);
      forall p | SlotValid(s.featureMaps, s.beforeStepHooks, p) && !p.Detached? && p != q
        ensures SlotValid(WithTrace(s, q, t).featureMaps, WithTrace(s, q, t).beforeStepHooks, p)
        ensures TraceAt(WithTrace(s, q, t), p) == TraceAt(s, p)
      {
        TraceFrame(s, q, t, p);
      }
    }
  }

  /** A write appends its text at the end of the current step's or hook's
      `"output"`, leaving its embeddings, match and result as they were. */
  lemma WriteAppendsOutput(s: JsonState, text: string)
    requires Valid(s) && s.currentStepOrHook.Some? && !s.currentStepOrHook.value.Detached?
    ensures var q, o := s.currentStepOrHook.value, OnWrite(s, text);
      && o.fault.None?
      && TraceAt(o.state, q).output == TraceAt(s, q).output + [text]
      && TraceAt(o.state, q).(output := TraceAt(s, q).output) == TraceAt(s, q)
  {
    UpdateRecorded(s, AddOutput(text));
  }

  /** An embed appends its object at the end of the current step's or hook's
      `"embeddings"`, leaving its output, match and result as they were. */
  lemma EmbedAppendsEmbedding(s: JsonState, e: EmbedEvent)
    requires Valid(s) && s.currentStepOrHook.Some? && !s.currentStepOrHook.value.Detached?
    ensures var q, o := s.currentStepOrHook.value, OnEmbed(s, e);
      && o.fault.None?
      && TraceAt(o.state, q).embeddings == TraceAt(s, q).embeddings + [EmbeddingMap(e.mimeType, e.data, e.name)]
      && TraceAt(o.state, q).(embeddings := TraceAt(s, q).embeddings) == TraceAt(s, q)
  {
    UpdateRecorded(s, AddEmbedding(CreateEmbeddingMap(e)));
  }

  /** A finished step sets the match and the result of the current step or
      hook, whatever kind of step finished, leaving its output and embeddings. */
  lemma FinishedSetsMatchAndResult(s: JsonState, testStep: TestStep, result: Result)
    requires Valid(s) && s.currentStepOrHook.Some? && !s.currentStepOrHook.value.Detached?
    ensures var q, o := s.currentStepOrHook.value, OnTestStepFinished(s, testStep, result);
      && o.fault.None?
      && TraceAt(o.state, q).matchMap == Some(CreateMatchMap(testStep, result))
      && TraceAt(o.state, q).resultMap == Some(CreateResultMap(result))
      && TraceAt(o.state, q).output == TraceAt(s, q).output
      && TraceAt(o.state, q).embeddings == TraceAt(s, q).embeddings
  {
    UpdateRecorded(s, SetFinished(CreateMatchMap(testStep, result), CreateResultMap(result)));
  }

  // ------------------------------------------------------------ the formatter

  /** The formatter object: the report and the cursors are its fields, and
      each handler updates them in place; every method leaves exactly the
      state its transition function describes. */
  class JSONFormatter {
    const sources: SourceIndex
    var featureMaps: seq<FeatureMap>
    var currentFeatureFile: Option<Uri>
    var currentElement: Option<ElementRef>
    var currentTestCase: Option<ElementRef>
    var currentStepOrHook: Option<Slot>
    var beforeStepHooks: seq<HookMap>

    function State(): JsonState
      reads this
    {
      JsonState(featureMaps, currentFeatureFile, currentElement, currentTestCase, currentStepOrHook, beforeStepHooks)
    }

    constructor (sources: SourceIndex)
      ensures this.sources == sources && State() == Initial && Valid(State())
    {
      this.sources := sources;
      featureMaps := [];
      currentFeatureFile := None;
      currentElement := None;
      currentTestCase := None;
      currentStepOrHook := None;
      beforeStepHooks := [];
    }

    method HandleTestCaseStarted(tc: TestCase, instant: nat)
      requires Valid(State())
      modifies this
      ensures State() == OnTestCaseStarted(old(State()), sources, tc, instant)
      ensures Valid(State())
    {
      TestCaseStartedKeepsValid(State(), sources, tc, instant);
      if currentFeatureFile != Some(tc.uri) {
        currentFeatureFile := Some(tc.uri);
        featureMaps := featureMaps + [CreateFeatureMap(sources, tc.uri)];
      }
      AddTestCaseMaps(tc, instant);
    }

    /** The element part of `handleTestCaseStarted`, once the feature is open. */
    method AddTestCaseMaps(tc: TestCase, instant: nat)
      requires |featureMaps| > 0
      modifies this
      ensures State() == AddTestCase(old(State()), sources, tc, instant)
    {
      var f := |featureMaps| - 1;
      var elements := featureMaps[f].elements;
      ghost var existing := elements;
      var testCaseMap := Element(CreateTestCase(sources, currentFeatureFile, tc, instant), [], [], []);
      currentElement := Some(ElementRef(f, |elements|));
      if sources.HasBackground(currentFeatureFile, tc.line) {
        var background := sources.TestCaseAt(currentFeatureFile, tc.line).value.background.value;
        elements := elements + [Element(CreateBackground(background), [], [], [])];
      }
      currentTestCase := Some(ElementRef(f, |elements|));
      elements := elements + [testCaseMap];
      assert elements == existing + NewElements(sources, currentFeatureFile, tc, instant);
      featureMaps := featureMaps[f := featureMaps[f].(elements := elements)];
    }

    method HandleTestStepStarted(testStep: TestStep) returns (fault: Option<Fault>)
      requires Valid(State())
      modifies this
      ensures Outcome(State(), fault) == OnTestStepStarted(old(State()), sources, testStep)
      ensures Valid(State())
    {
      TestStepStartedKeepsValid(State(), sources, testStep);
      match testStep
      case PickleStepTestStep(step) =>
        fault := AddTestStep(step);
      case HookTestStep(hookType, _) =>
        fault := AddHookStepToTestCaseMap(hookType);
      case OtherTestStep(_) =>
        fault := Some(IllegalState);
    }

    /** The pickle-step branch of `handleTestStepStarted`. */
    method AddTestStep(step: PickleStep) returns (fault: Option<Fault>)
      requires Valid(State())
      modifies this
      ensures Outcome(State(), fault) == StartPickleStep(old(State()), sources, step)
    {
      if IsFirstStepAfterBackground(State(), sources, step) {
        currentElement := currentTestCase;
      }
      var stepMap := CreateTestStep(sources, currentFeatureFile, step, beforeStepHooks);
      currentStepOrHook := Some(Detached);
      beforeStepHooks := [];
      if currentElement.None? {
        return Some(NullPointer);
      }
      var at := currentElement.value;
      var el := ElementAt(featureMaps, at);
      featureMaps := WithElement(featureMaps, at, el.(steps := el.steps + [stepMap]));
      currentStepOrHook := Some(StepSlot(at, |el.steps|));
      fault := None;
    }

    /** Adds a new empty hook object where its kind belongs and makes it the cursor. */
    method AddHookStepToTestCaseMap(hookType: HookType) returns (fault: Option<Fault>)
      requires Valid(State())
      modifies this
      ensures Outcome(State(), fault) == StartHook(old(State()), hookType)
    {
      var isAfter := hookType == After || hookType == AfterStep;
      if hookType == BeforeStep {
        currentStepOrHook := Some(PendingHookSlot(|beforeStepHooks|));
        beforeStepHooks := beforeStepHooks + [HookMap(EmptyTrace)];
        return None;
      }
      if hookType == AfterStep {
        if currentElement.None? {
          currentStepOrHook := Some(Detached);
          return Some(NullPointer);
        }
        var at := currentElement.value;
        var el := ElementAt(featureMaps, at);
        if |el.steps| == 0 {
          currentStepOrHook := Some(Detached);
          return Some(IndexOutOfBounds);
        }
        var last := |el.steps| - 1;
        var st := el.steps[last];
        featureMaps := WithElement(featureMaps, at, el.(steps := el.steps[last := st.(after := st.after + [HookMap(EmptyTrace)])]));
        currentStepOrHook := Some(AfterStepHookSlot(at, last, |st.after|));
        return None;
      }
      if currentTestCase.None? {
        currentStepOrHook := Some(Detached);
        return Some(NullPointer);
      }
      var at := currentTestCase.value;
      var el := ElementAt(featureMaps, at);
      featureMaps := WithElement(featureMaps, at, WithHook(el, isAfter, HookMap(EmptyTrace)));
      currentStepOrHook := Some(CaseHookSlot(at, isAfter, |HookList(el, isAfter)|));
      fault := None;
    }

    /** Records an update against the current step or hook object. */
    method Record(u: TraceUpdate) returns (fault: Option<Fault>)
      requires Valid(State())
      modifies this
      ensures Outcome(State(), fault) == UpdateCurrent(old(State()), u)
      ensures Valid(State())
    {
      UpdateKeepsValid(State(), u);
      if currentStepOrHook.None? {
        return Some(NullPointer);
      }
      match currentStepOrHook.value {
        case Detached =>
        case StepSlot(at, i) =>
          var el := ElementAt(featureMaps, at);
          var st := el.steps[i];
          featureMaps := WithElement(featureMaps, at, el.(steps := el.steps[i := st.(trace := Apply(st.trace, u))]));
        case CaseHookSlot(at, isAfter, i) =>
          var el := ElementAt(featureMaps, at);
          featureMaps := WithElement(featureMaps, at, SetHookTrace(el, isAfter, i, Apply(HookList(el, isAfter)[i].trace, u)));
        case AfterStepHookSlot(at, i, j) =>
          var el := ElementAt(featureMaps, at);
          var st := el.steps[i];
          featureMaps := WithElement(featureMaps, at, el.(steps := el.steps[i := st.(after := st.after[j := HookMap(Apply(st.after[j].trace, u))])]));
        case PendingHookSlot(i) =>
          beforeStepHooks := beforeStepHooks[i := HookMap(Apply(beforeStepHooks[i].trace, u))];
      }
      fault := None;
    }

    method HandleWrite(text: string) returns (fault: Option<Fault>)
      requires Valid(State())
      modifies this
      ensures Outcome(State(), fault) == OnWrite(old(State()), text)
      ensures Valid(State())
    {
      fault := Record(AddOutput(text));
    }

    method HandleEmbed(e: EmbedEvent) returns (fault: Option<Fault>)
      requires Valid(State())
      modifies this
      ensures Outcome(State(), fault) == OnEmbed(old(State()), e)
      ensures Valid(State())
    {
      fault := Record(AddEmbedding(CreateEmbeddingMap(e)));
    }

    method HandleTestStepFinished(testStep: TestStep, result: Result) returns (fault: Option<Fault>)
      requires Valid(State())
      modifies this
      ensures Outcome(State(), fault) == OnTestStepFinished(old(State()), testStep, result)
      ensures Valid(State())
    {
      fault := Record(SetFinished(CreateMatchMap(testStep, result), CreateResultMap(result)));
    }

    /** The report written out at the end of the run. */
    method FinishReport() returns (report: seq<FeatureMap>)
      ensures report == OnFinishReport(State())
    {
      report := featureMaps;
    }
  }
}
