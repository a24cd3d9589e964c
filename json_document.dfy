/**
  The report the JSON formatter assembles: a list of features, each holding its
  elements (backgrounds and scenarios), each element its steps and its hooks,
  each step or hook what was recorded against it. Every JSON object is a record
  here. A key the formatter adds only under some condition is an `Option`, or a
  list that is empty exactly when the object has no such key (the formatter
  creates those lists on first use, so they are never present and empty).
 */
module JsonDocument {
  import opened Events
  import opened Sources

  /** One entry of a match's `"arguments"`: `val` and `offset` when the
      argument captured a value, an empty object otherwise. */
  datatype ArgumentMap = ArgumentMap(captured: Option<(string, int)>)

  /** The `"match"` object: the arguments the step definition captured, when
      it has any, and the code location (itself possibly `null`) unless the
      step is undefined. */
  datatype MatchMap = MatchMap(arguments: Option<seq<ArgumentMap>>, location: Option<Option<string>>)

  /** The `"result"` object: the status name, the error's stack trace and the
      duration in nanoseconds. */
  datatype ResultMap = ResultMap(status: string, errorMessage: Option<string>, duration: Option<nat>)

  /** An entry of `"embeddings"`; the bytes stand for their Base64 text. */
  datatype EmbeddingMap = EmbeddingMap(mimeType: string, data: seq<bv8>, name: Option<string>)

  /** What is recorded against a started step or hook. */
  datatype Trace = Trace(
    matchMap: Option<MatchMap>,
    resultMap: Option<ResultMap>,
    output: seq<string>,
    embeddings: seq<EmbeddingMap>)

  const EmptyTrace := Trace(None, None, [], [])

  /** A hook's object: `createHookStep` starts it empty. */
  datatype HookMap = HookMap(trace: Trace)

  /** A step's object; `keyword` is present when the step's line resolves to a
      step of the feature file. */
  datatype StepMap = StepMap(
    name: string,
    line: nat,
    argument: StepArgument,
    keyword: Option<string>,
    before: seq<HookMap>,
    after: seq<HookMap>,
    trace: Trace)

  /** The keys a scenario object takes from its node, when its line resolves to one. */
  datatype ScenarioInfo = ScenarioInfo(id: string, keyword: string, description: string)

  /** The keys of an element object other than its step and hook lists:
      `"type": "background"` or `"type": "scenario"`. */
  datatype ElementHeader =
    | BackgroundHeader(name: string, line: nat, keyword: string, description: string)
    | ScenarioHeader(startInstant: nat, name: string, line: nat, info: Option<ScenarioInfo>, tags: seq<string>)

  datatype Element = Element(header: ElementHeader, steps: seq<StepMap>, before: seq<HookMap>, after: seq<HookMap>)

  /** A feature object; the feature's own keys are present when its file was parsed. */
  datatype FeatureMap = FeatureMap(uri: Uri, feature: Option<FeatureNode>, elements: seq<Element>)

  // ---------------------------------------------------------------- builders

  /** A missing description is written as the empty string. */
  function Description(d: Option<string>): string {
    if d.Some? then d.value else ""
  }

  function CreateFeatureMap(src: SourceIndex, uri: Uri): FeatureMap {
    FeatureMap(uri, src.Feature(uri), [])
  }

  /** `createTestCase`: the keys of a scenario object, looked up in the current file. */
  function CreateTestCase(src: SourceIndex, file: Option<Uri>, tc: TestCase, instant: nat): ElementHeader {
    var node := src.TestCaseAt(file, tc.line);
    var info :=
      if node.Some? then
        Some(ScenarioInfo(node.value.id, node.value.definition.keyword, Description(node.value.definition.description)))
      else None;
    ScenarioHeader(instant, tc.name, tc.line, info, tc.tags)
  }

  /** `createBackground`, for a test case whose node has a background. */
  function CreateBackground(b: BackgroundNode): ElementHeader {
    BackgroundHeader(b.name, b.line, b.keyword, Description(b.description))
  }

  /** `createTestStep` with the buffered before-step hooks attached. */
  function CreateTestStep(src: SourceIndex, file: Option<Uri>, step: PickleStep, before: seq<HookMap>): StepMap {
    var node := src.StepAt(file, step.stepLine);
    StepMap(step.stepText, step.stepLine, step.argument,
            if node.Some? then Some(node.value.keyword) else None,
            before, [], EmptyTrace)
  }

  function CreateEmbeddingMap(e: EmbedEvent): EmbeddingMap {
    EmbeddingMap(e.mimeType, e.data, e.name)
  }

  function CreateArgumentMap(a: MatchArgument): ArgumentMap {
    if a.value.Some? then ArgumentMap(Some((a.value.value, a.start))) else ArgumentMap(None)
  }

  /** `createMatchMap`. */
  function CreateMatchMap(step: TestStep, result: Result): MatchMap {
    var arguments :=
      if step.PickleStepTestStep? && |step.step.definitionArguments| > 0 then
        var args := step.step.definitionArguments;
        Some(seq(|args|, i requires 0 <= i < |args| => CreateArgumentMap(args[i])))
      else None;
    MatchMap(arguments, if result.status != Undefined then Some(step.CodeLocation()) else None)
  }

  /** `createResultMap`. */
  function CreateResultMap(result: Result): ResultMap {
    ResultMap(StatusName(result.status), result.error,
              if result.duration != 0 then Some(result.duration) else None)
  }

  /** How a reader of the report recovers a result from its object: an absent
      duration is zero. */
  function ReadResultMap(m: ResultMap): Option<Result> {
    match StatusOfName(m.status)
    case None => None
    case Some(status) => Some(Result(status, if m.duration.Some? then m.duration.value else 0, m.errorMessage))
  }

  // ---------------------------------------------------------------- lemmas

  /** A result object records the whole result: reading it back gives the
      result it was made from. */
  lemma ResultMapRoundTrip(result: Result)
    ensures ReadResultMap(CreateResultMap(result)) == Some(result)
  {
    StatusNameRoundTrip(result.status);
  }

  /** The keys of a result object: the lower-case status name, an error message
      exactly when there is an error, a duration exactly when it is non-zero. */
  lemma ResultMapKeys(result: Result)
    ensures CreateResultMap(result).status == StatusName(result.status)
    ensures CreateResultMap(result).errorMessage.Some? <==> result.error.Some?
    ensures CreateResultMap(result).duration.Some? <==> result.duration != 0
    ensures CreateResultMap(result).duration.Some? ==> CreateResultMap(result).duration.value == result.duration
  {
  }

  /** The keys of a match object: a location exactly when the step is not
      undefined, and then the step's own code location; arguments exactly when
      a pickle step's definition captured some, one object per argument in
      order, carrying `val` and `offset` exactly when the argument has a value. */
  lemma MatchMapKeys(step: TestStep, result: Result)
    ensures CreateMatchMap(step, result).location.Some? <==> result.status != Undefined
    ensures CreateMatchMap(step, result).location.Some? ==>
              CreateMatchMap(step, result).location.value == step.CodeLocation()
    ensures CreateMatchMap(step, result).arguments.Some? <==>
              step.PickleStepTestStep? && |step.step.definitionArguments| > 0
    ensures CreateMatchMap(step, result).arguments.Some? ==>
              var args, maps := step.step.definitionArguments, CreateMatchMap(step, result).arguments.value;
              |maps| == |args| &&
              forall i :: 0 <= i < |args| ==>
                (maps[i].captured.Some? <==> args[i].value.Some?) &&
                (maps[i].captured.Some? ==> maps[i].captured.value == (args[i].value.value, args[i].start))
  {
  }

  // -------------------------------------------------------------- addressing

  /** The position of an element object: the feature's index in the report,
      the element's index in that feature's `"elements"`. */
  datatype ElementRef = ElementRef(feature: nat, element: nat)

  predicate ValidRef(d: seq<FeatureMap>, at: ElementRef) {
    at.feature < |d| && at.element < |d[at.feature].elements|
  }

  function ElementAt(d: seq<FeatureMap>, at: ElementRef): Element
    requires ValidRef(d, at)
  {
    d[at.feature].elements[at.element]
  }

  /** The report with the element at `at` replaced and nothing else changed. */
  function WithElement(d: seq<FeatureMap>, at: ElementRef, el: Element): (r: seq<FeatureMap>)
    requires ValidRef(d, at)
    ensures |r| == |d|
    ensures forall f :: 0 <= f < |d| ==>
              r[f].uri == d[f].uri && r[f].feature == d[f].feature && |r[f].elements| == |d[f].elements|
    ensures forall q :: ValidRef(d, q) ==>
              ValidRef(r, q) && ElementAt(r, q) == if q == at then el else ElementAt(d, q)
  {
    var feature := d[at.feature];
    d[at.feature := feature.(elements := feature.elements[at.element := el])]
  }

  /** An element's `"before"` or `"after"` hook list. */
  function HookList(el: Element, isAfter: bool): seq<HookMap> {
    if isAfter then el.after else el.before
  }

  /** `y` is the step `x` after hooks were appended to its `"after"` and
      traces recorded: every other key of the step is the same. */
  predicate StepGrows(x: StepMap, y: StepMap) {
    && y.(trace := x.trace, after := x.after) == x
    && |x.after| <= |y.after|
  }

  /** `y` is `x` after steps and hooks were appended and traces recorded:
      nothing was removed, the element's own keys are the same, and so is
      every key of every step it had except its trace and its `"after"`. */
  predicate ElementGrows(x: Element, y: Element) {
    && y.header == x.header
    && |x.steps| <= |y.steps| && |x.before| <= |y.before| && |x.after| <= |y.after|
    && forall i :: 0 <= i < |x.steps| ==> StepGrows(x.steps[i], y.steps[i])
  }

  /** `b` is the report `a` after features, elements, steps and hooks were
      appended and traces recorded; every feature keeps its file and its own
      keys. */
  ghost predicate Grows(a: seq<FeatureMap>, b: seq<FeatureMap>) {
    && |a| <= |b|
    && (forall f :: 0 <= f < |a| ==>
          b[f].uri == a[f].uri && b[f].feature == a[f].feature && |a[f].elements| <= |b[f].elements|)
    && (forall at :: ValidRef(a, at) ==> ElementGrows(ElementAt(a, at), ElementAt(b, at)))
  }

  lemma StepGrowsTransitive(x: StepMap, y: StepMap, z: StepMap)
    requires StepGrows(x, y) && StepGrows(y, z)
    ensures StepGrows(x, z)
  {
  }

  lemma ElementGrowsTransitive(x: Element, y: Element, z: Element)
    requires ElementGrows(x, y) && ElementGrows(y, z)
    ensures ElementGrows(x, z)
  {
    forall i | 0 <= i < |x.steps| ensures StepGrows(x.steps[i], z.steps[i]) {
      StepGrowsTransitive(x.steps[i], y.steps[i], z.steps[i]);
    }
  }

  lemma GrowsTransitive(a: seq<FeatureMap>, b: seq<FeatureMap>, c: seq<FeatureMap>)
    requires Grows(a, b) && Grows(b, c)
    ensures Grows(a, c)
  {
    forall at | ValidRef(a, at) ensures ElementGrows(ElementAt(a, at), ElementAt(c, at)) {
      ElementGrowsTransitive(ElementAt(a, at), ElementAt(b, at), ElementAt(c, at));
    }
  }

  /** Replacing an element by one that grew from it grows the report. */
  lemma WithElementGrows(d: seq<FeatureMap>, at: ElementRef, el: Element)
    requires ValidRef(d, at) && ElementGrows(ElementAt(d, at), el)
    ensures Grows(d, WithElement(d, at, el))
  {
  }
}
