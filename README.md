# Cucumber-JVM report formatters, modelled in Dafny

This project models three of Cucumber-JVM's report plugins:

- **`JSONFormatter`** builds the JSON report tree in place as test events arrive.
  - It holds a list of features. Each feature holds elements (backgrounds and scenarios), each element holds steps and hooks, and each step or hook holds its output, embeddings, match and result.
  - It keeps cursors into that tree and a buffer of before-step hooks that the next step takes.
- **`HTMLFormatter`** writes a script of calls on a JavaScript formatter object, wrapped in a document-ready preamble.
  - It keeps the current file, the current outline and examples block, a scenario held back behind its background, and a counter that names embedded files.
- **`UsageFormatter`** records the duration of every passed step.
  - Durations are recorded per step-definition pattern and per step text.
  - At the end of the run it reports every duration, together with their average and median.

Each formatter is a Dafny `class`. The HTML and usage classes have the Java fields. The JSON class keeps the report and the before-step buffer as fields, but its `currentElementMap`, `currentTestCaseMap` and `currentStepOrHookMap` are positions in the report (`ElementRef`, `Slot`) rather than the objects themselves. Its `currentElementsList` and `currentStepsList` are not fields: they are always the elements of the last feature and the steps of the current element, so the model reads them off the report and the cursors. Each handler is a method, proved to change the fields exactly as a pure transition function of the old state does. The properties are proved about those functions: what each event emits or records, invariants kept over whole event runs, counting arguments, and the report's shape.

In the JSON rows, the report "only grows" (`JsonDocument.Grows`) means four things. No list gets shorter. Every feature keeps its file and its feature keys. Every element keeps its header. Every step keeps every key except its trace (output, embeddings, match, result) and its `after` hooks, which may only be added to.

A handler that throws (a `null` dereference, an index of -1, an unknown step type) returns the fields as the handler left them, plus the exception (`Outcome`).

The parsed feature files are a `SourceIndex` given as data (module `Sources`). Event payloads are in module `Events`. The JSON report objects are in `JsonDocument`. The duration statistics are in `DurationStats`.

Files:

- `events.dfy`: modules `Events` and `Sources`;
- `json_document.dfy`: the JSON report objects;
- `json_formatter.dfy`: the JSON formatter;
- `html_formatter.dfy`: the HTML formatter;
- `duration_stats.dfy`: average and median;
- `usage_formatter.dfy`: the usage formatter.

## Model

| member | source | states |
|---|---|---|
| Events.StatusNameRoundTrip | core/src/main/java/io/cucumber/core/plugin/JSONFormatter.java:359-369 | the lower-case status name written into a result reads back as the same status, so no two statuses share a name |
| Events.IntToStringInjective | core/src/main/java/io/cucumber/core/plugin/HTMLFormatter.java:177 | distinct counter values are written as distinct decimal strings |
| Events.Int32Succ | core/src/main/java/io/cucumber/core/plugin/HTMLFormatter.java:177 | `embeddedIndex++` on a Java `int` is the successor below the top of the range and wraps to the smallest `int` at the top |
| JsonDocument.ResultMapRoundTrip | core/src/main/java/io/cucumber/core/plugin/JSONFormatter.java:359-369 | a result object keeps the whole result: reading it back (an absent duration read as zero) gives the result it was made from |
| JsonDocument.ResultMapKeys | core/src/main/java/io/cucumber/core/plugin/JSONFormatter.java:359-369 | a result object has the lower-case status name, an error message exactly when there is an error, and a duration exactly when it is non-zero |
| JsonDocument.MatchMapKeys | core/src/main/java/io/cucumber/core/plugin/JSONFormatter.java:336-357 | a match object has a location exactly when the step is not undefined, and then it is the step's code location; it has arguments exactly when a pickle step's definition captured some, one per argument in order, with `val`/`offset` exactly when the argument has a value |
| Json.OpenFeature | core/src/main/java/io/cucumber/core/plugin/JSONFormatter.java:86-91 | after a test case start the current file is the test case's file; the element cursors, the step-or-hook cursor and the buffer are unchanged |
| Json.NewElements | core/src/main/java/io/cucumber/core/plugin/JSONFormatter.java:92-98 | a test case adds two elements (a background, then the scenario) when its node has a background, otherwise only the scenario |
| Json.AddTestCase | core/src/main/java/io/cucumber/core/plugin/JSONFormatter.java:92-100 | adding a test case's elements changes only the report and the element and test case cursors |
| Json.StartPickleStep | core/src/main/java/io/cucumber/core/plugin/JSONFormatter.java:104-116 | a pickle step start keeps the number of features and changes only the report, the element cursor, the step-or-hook cursor and the buffer |
| Json.AddCaseHook | core/src/main/java/io/cucumber/core/plugin/JSONFormatter.java:280-309 | a BEFORE or AFTER hook start changes only the report and the step-or-hook cursor |
| Json.AddAfterStepHook | core/src/main/java/io/cucumber/core/plugin/JSONFormatter.java:280-309 | an AFTER_STEP hook start changes only the report and the step-or-hook cursor |
| Json.StartHook | core/src/main/java/io/cucumber/core/plugin/JSONFormatter.java:117-120 | a hook start changes only the report, the step-or-hook cursor and the buffer: the file and the element and test case cursors are kept |
| Json.OnTestStepStarted | core/src/main/java/io/cucumber/core/plugin/JSONFormatter.java:103-124 | a step start never adds a feature and never moves the test case cursor |
| Json.WithTrace | core/src/main/java/io/cucumber/core/plugin/JSONFormatter.java:311-324 | recording at a step or hook changes only the report and the buffer, and adds no feature |
| Json.UpdateCurrent | core/src/main/java/io/cucumber/core/plugin/JSONFormatter.java:126-137 | a write, embed or step finish changes only the report and the buffer, and adds no feature |
| Json.TestCaseStartedKeepsValid | core/src/main/java/io/cucumber/core/plugin/JSONFormatter.java:85-101 | a test case start keeps the cursor invariant (the current file is the last feature's; every cursor addresses an object of the tree or the buffer) and only grows the report |
| Json.PickleStepKeepsValid | core/src/main/java/io/cucumber/core/plugin/JSONFormatter.java:104-116 | a pickle step start keeps the cursor invariant and only grows the report |
| Json.CaseHookKeepsValid | core/src/main/java/io/cucumber/core/plugin/JSONFormatter.java:280-309 | a BEFORE or AFTER hook start keeps the cursor invariant and only grows the report |
| Json.AfterStepHookKeepsValid | core/src/main/java/io/cucumber/core/plugin/JSONFormatter.java:280-309 | an AFTER_STEP hook start keeps the cursor invariant and only grows the report |
| Json.TestStepStartedKeepsValid | core/src/main/java/io/cucumber/core/plugin/JSONFormatter.java:103-124 | any step start keeps the cursor invariant and only grows the report |
| Json.UpdateKeepsValid | core/src/main/java/io/cucumber/core/plugin/JSONFormatter.java:126-137 | recording output, an embedding or a result keeps the cursor invariant and only grows the report |
| Json.Handle | core/src/main/java/io/cucumber/core/plugin/JSONFormatter.java:71-79 | every event, whether or not its handler throws, keeps the cursor invariant and the report only grows: no list shrinks, and no feature's keys, element header or step key other than its trace and `after` hooks changes |
| Json.Run | core/src/main/java/io/cucumber/core/plugin/JSONFormatter.java:71-79 | over any run of events the cursor invariant holds and the report only grows |
| Json.TestCaseStartedFeatures | core/src/main/java/io/cucumber/core/plugin/JSONFormatter.java:86-91 | a test case start appends a feature exactly when its file is not the current one, otherwise it appends to the last feature; earlier features are untouched |
| Json.TestCaseStartedElements | core/src/main/java/io/cucumber/core/plugin/JSONFormatter.java:92-100 | with a background, two elements are appended (background, then scenario) and the element cursor is at the background; without one, only the scenario is appended and the cursor is at it; the test case cursor is at the scenario; the step cursor and the buffer are unchanged |
| Json.RunFeatureCount | core/src/main/java/io/cucumber/core/plugin/JSONFormatter.java:86-91 | over a run that throws nothing, exactly one feature is added per change of file between consecutive test cases |
| Json.PickleStepHandoff | core/src/main/java/io/cucumber/core/plugin/JSONFormatter.java:106-109 | a pickle step moves the element cursor exactly when its line is a non-background step of the current file and the cursor is not yet at the test case; it then moves to the test case |
| Json.HandoffAtMostOnce | core/src/main/java/io/cucumber/core/plugin/JSONFormatter.java:221-227 | within one test case the switch from background to scenario happens at most once, and never once the cursor is at the scenario |
| Json.StepAppended | core/src/main/java/io/cucumber/core/plugin/JSONFormatter.java:110-116 | after a test case start, a pickle step is appended at the end of the current element's steps, takes the buffered before-step hooks as its `before`, and becomes the cursor; the buffer is emptied and every other object is unchanged |
| Json.StepBeforeAnyTestCase | core/src/main/java/io/cucumber/core/plugin/JSONFormatter.java:110-116 | before any test case, a pickle step throws a null dereference; the report is unchanged, but the buffer was already emptied and the cursor is the detached step object |
| Json.BeforeStepHookBuffered | core/src/main/java/io/cucumber/core/plugin/JSONFormatter.java:295-308 | a BEFORE_STEP hook goes to the end of the buffer and becomes the cursor; the report is unchanged |
| Json.BufferedHooksAttachToNextStep | core/src/main/java/io/cucumber/core/plugin/JSONFormatter.java:110-116 | any number of before-step hooks followed by a pickle step: all buffered hooks, in arrival order, become that step's `before`, and the buffer ends empty |
| Json.CaseHookRouted | core/src/main/java/io/cucumber/core/plugin/JSONFormatter.java:280-309 | BEFORE/AFTER hooks are appended to the test case's own `before`/`after` list and become the cursor; the element's other lists, every other element, the other cursors and the buffer are unchanged; before any test case they throw a null dereference and leave the report unchanged |
| Json.AfterStepHookRouted | core/src/main/java/io/cucumber/core/plugin/JSONFormatter.java:298-308 | AFTER_STEP hooks are appended to the `after` of the current element's last step and become the cursor; the other steps, every other element, the other cursors and the buffer are unchanged; with no element this is a null dereference, with no steps an index of -1, and either way the report is unchanged |
| Json.UpdateRecorded | core/src/main/java/io/cucumber/core/plugin/JSONFormatter.java:126-137 | a null cursor throws and changes nothing; a detached cursor changes nothing visible; otherwise the update is recorded at the cursor, at no other step or hook, and no list changes length |
| Json.WriteAppendsOutput | core/src/main/java/io/cucumber/core/plugin/JSONFormatter.java:311-316 | a write appends its text to the cursor's `output` and leaves the rest of its trace |
| Json.EmbedAppendsEmbedding | core/src/main/java/io/cucumber/core/plugin/JSONFormatter.java:318-334 | an embed appends its mime type, data and name to the cursor's `embeddings` and leaves the rest of its trace |
| Json.FinishedSetsMatchAndResult | core/src/main/java/io/cucumber/core/plugin/JSONFormatter.java:134-137 | a step finish sets the cursor's match and result to the objects made from the step and its result, and keeps its output and embeddings |
| Json.JSONFormatter.constructor | core/src/main/java/io/cucumber/core/plugin/JSONFormatter.java:47-61 | a new formatter has an empty report, no cursors and an empty buffer, and satisfies the invariant |
| Json.JSONFormatter.HandleTestCaseStarted | core/src/main/java/io/cucumber/core/plugin/JSONFormatter.java:85-101 | the fields become `OnTestCaseStarted` of the old fields, and the invariant is kept |
| Json.JSONFormatter.AddTestCaseMaps | core/src/main/java/io/cucumber/core/plugin/JSONFormatter.java:92-100 | the fields become `AddTestCase` of the old fields |
| Json.JSONFormatter.HandleTestStepStarted | core/src/main/java/io/cucumber/core/plugin/JSONFormatter.java:103-124 | the fields and the exception are `OnTestStepStarted` of the old fields, and the invariant is kept |
| Json.JSONFormatter.AddTestStep | core/src/main/java/io/cucumber/core/plugin/JSONFormatter.java:104-116 | the fields and the exception are `StartPickleStep` of the old fields |
| Json.JSONFormatter.AddHookStepToTestCaseMap | core/src/main/java/io/cucumber/core/plugin/JSONFormatter.java:280-309 | the fields and the exception are `StartHook` of the old fields |
| Json.JSONFormatter.Record | core/src/main/java/io/cucumber/core/plugin/JSONFormatter.java:311-324 | the fields and the exception are `UpdateCurrent` of the old fields, and the invariant is kept |
| Json.JSONFormatter.HandleWrite | core/src/main/java/io/cucumber/core/plugin/JSONFormatter.java:126-128 | the fields and the exception are `OnWrite` of the old fields, and the invariant is kept |
| Json.JSONFormatter.HandleEmbed | core/src/main/java/io/cucumber/core/plugin/JSONFormatter.java:130-132 | the fields and the exception are `OnEmbed` of the old fields, and the invariant is kept |
| Json.JSONFormatter.HandleTestStepFinished | core/src/main/java/io/cucumber/core/plugin/JSONFormatter.java:134-137 | the fields and the exception are `OnTestStepFinished` of the old fields, and the invariant is kept |
| Json.JSONFormatter.FinishReport | core/src/main/java/io/cucumber/core/plugin/JSONFormatter.java:139-142 | the report written out is the list of features |
| Html.EmbeddedFileNamesDistinct | core/src/main/java/io/cucumber/core/plugin/HTMLFormatter.java:175-179 | two embeddings of the same extension go to the same file exactly when the counter had the same value |
| Html.FunctionNameDistinguishesHooks | core/src/main/java/io/cucumber/core/plugin/HTMLFormatter.java:152-166 | each hook type is reported under its own lower-case call name, never under `result` |
| Html.OutlineStepCalls | core/src/main/java/io/cucumber/core/plugin/HTMLFormatter.java:259-274 | one `step` call per outline step, in source order |
| Html.StartOfFeature | core/src/main/java/io/cucumber/core/plugin/HTMLFormatter.java:196-202 | the script only grows, the current file becomes the test case's, and nothing else changes |
| Html.ScenarioOutline | core/src/main/java/io/cucumber/core/plugin/HTMLFormatter.java:228-246 | the script only grows, and only the outline and examples markers change |
| Html.OpenScript | core/src/main/java/io/cucumber/core/plugin/HTMLFormatter.java:113-117 | the script only grows and `firstFeature` is cleared; nothing else changes |
| Html.StartScenario | core/src/main/java/io/cucumber/core/plugin/HTMLFormatter.java:120-126 | the script strictly grows, and only the pending scenario changes |
| Html.OnTestCaseStarted | core/src/main/java/io/cucumber/core/plugin/HTMLFormatter.java:112-127 | a test case start strictly grows the script and leaves the embedding counter |
| Html.ReleasePendingScenario | core/src/main/java/io/cucumber/core/plugin/HTMLFormatter.java:132-135 | the script only grows, and only the pending scenario changes |
| Html.ShowStep | core/src/main/java/io/cucumber/core/plugin/HTMLFormatter.java:136-137 | showing a step only appends to the script |
| Html.OnTestStepStarted | core/src/main/java/io/cucumber/core/plugin/HTMLFormatter.java:129-139 | a step start only appends to the script and changes at most the pending scenario |
| Html.OnEmbed | core/src/main/java/io/cucumber/core/plugin/HTMLFormatter.java:168-182 | an embed only appends to the script |
| Html.Handle | core/src/main/java/io/cucumber/core/plugin/HTMLFormatter.java:98-106 | every event only appends to the script |
| Html.Run | core/src/main/java/io/cucumber/core/plugin/HTMLFormatter.java:98-106 | any run of events only appends to the script |
| Html.StartOfFeatureCount | core/src/main/java/io/cucumber/core/plugin/HTMLFormatter.java:196-202 | `uri` and `feature` are emitted once each when the file changes, and nothing otherwise |
| Html.ScenarioOutlineEmits | core/src/main/java/io/cucumber/core/plugin/HTMLFormatter.java:228-246 | for an outline row: the outline call and its step calls when the outline is new, then the examples call when the block is new; for any other test case, nothing |
| Html.ScenarioOutlineCount | core/src/main/java/io/cucumber/core/plugin/HTMLFormatter.java:228-246 | the same, counted call kind by call kind |
| Html.TestCaseStartedCount | core/src/main/java/io/cucumber/core/plugin/HTMLFormatter.java:112-127 | per kind, a test case start emits: the preamble only for the first test case; `uri` and `feature` only on a file change; the outline calls owed; then one `background` call, or else one `scenario` call |
| Html.TestCaseStartedState | core/src/main/java/io/cucumber/core/plugin/HTMLFormatter.java:112-127 | after a test case start: the preamble is behind; the file is the test case's; the markers name its outline and examples block (cleared for a plain scenario); the scenario is pending behind its background or already emitted as the last call |
| Html.TestStepStartedCount | core/src/main/java/io/cucumber/core/plugin/HTMLFormatter.java:129-139 | per kind, a pickle step emits the pending `scenario` call when it is the first step after the background, then one `step` and one `match` call |
| Html.TestStepStartedEmissions | core/src/main/java/io/cucumber/core/plugin/HTMLFormatter.java:129-139 | the exact calls a step start emits, in order; a hook start emits nothing and changes nothing |
| Html.OtherEventEmissions | core/src/main/java/io/cucumber/core/plugin/HTMLFormatter.java:141-194 | step finishes, writes, embeds and the run's end emit at most one call (or the closing) and leave the cursors alone |
| Html.HandlePreambleCount | core/src/main/java/io/cucumber/core/plugin/HTMLFormatter.java:113-117 | only the first test case start emits the preamble, and it clears `firstFeature` |
| Html.RunKeepsPreambleOnce | core/src/main/java/io/cucumber/core/plugin/HTMLFormatter.java:113-117 | over any run from the initial state, the script holds the preamble once if a test case has started, and never otherwise |
| Html.RunFirstFeature | core/src/main/java/io/cucumber/core/plugin/HTMLFormatter.java:113-117 | after a run that throws nothing, `firstFeature` is still set exactly when it was set and no test case started |
| Html.FinishReportClosesOnlyOpenedScript | core/src/main/java/io/cucumber/core/plugin/HTMLFormatter.java:188-194 | the run's end emits the closing exactly when the script holds the preamble |
| Html.PendingScenarioConserved | core/src/main/java/io/cucumber/core/plugin/HTMLFormatter.java:129-135 | outside test case starts, `scenario` calls emitted plus the scenario still pending equal what was pending before |
| Html.PendingScenarioEmittedOnce | core/src/main/java/io/cucumber/core/plugin/HTMLFormatter.java:120-135 | within one test case, the scenario held back behind a background is emitted at most once, and exactly once if it is released |
| Html.MarkersOnlyMoveAtTestCaseStart | core/src/main/java/io/cucumber/core/plugin/HTMLFormatter.java:228-246 | events other than test case starts never move the file or the outline/examples markers |
| Html.OutlineShownOncePerRun | core/src/main/java/io/cucumber/core/plugin/HTMLFormatter.java:228-246 | a second row of the same outline and examples block, after any steps, hooks, writes or embeds, emits no outline, step, examples or `uri` call at its start |
| Html.TestStepFinishedEmissions | core/src/main/java/io/cucumber/core/plugin/HTMLFormatter.java:141-150 | a finished pickle step emits `result`, a hook its own call name, and any other step type throws IllegalStateException having emitted nothing |
| Html.EmbedEmissions | core/src/main/java/io/cucumber/core/plugin/HTMLFormatter.java:168-182 | a `text/` type is emitted inline and leaves the counter; a table type emits a call naming `embedded<counter>.<ext>` and advances the counter; any other type changes nothing |
| Html.HandleFileCount | core/src/main/java/io/cucumber/core/plugin/HTMLFormatter.java:168-182 | an event emits one file embedding and advances the counter exactly when it is an embed of a binary type in the table |
| Html.HandleCountsFiles | core/src/main/java/io/cucumber/core/plugin/HTMLFormatter.java:168-182 | below the top of the `int` range, the counter equals the number of file embeddings in the script, whatever event comes next |
| Html.HTMLFormatter.constructor | core/src/main/java/io/cucumber/core/plugin/HTMLFormatter.java:78-96 | a new formatter has an empty script, `firstFeature` set, no cursors and a zero counter |
| Html.HTMLFormatter.HandleTestCaseStarted | core/src/main/java/io/cucumber/core/plugin/HTMLFormatter.java:112-127 | the fields become `OnTestCaseStarted` of the old fields |
| Html.HTMLFormatter.HandleStartOfFeature | core/src/main/java/io/cucumber/core/plugin/HTMLFormatter.java:196-202 | the fields become `StartOfFeature` of the old fields |
| Html.HTMLFormatter.HandleScenarioOutline | core/src/main/java/io/cucumber/core/plugin/HTMLFormatter.java:228-246 | the fields become `ScenarioOutline` of the old fields |
| Html.HTMLFormatter.AddOutlineStepsToReport | core/src/main/java/io/cucumber/core/plugin/HTMLFormatter.java:259-274 | the script gains one `step` call per outline step, in order |
| Html.HTMLFormatter.HandleTestStepStarted | core/src/main/java/io/cucumber/core/plugin/HTMLFormatter.java:129-139 | the fields become `OnTestStepStarted` of the old fields |
| Html.HTMLFormatter.HandleTestStepFinished | core/src/main/java/io/cucumber/core/plugin/HTMLFormatter.java:141-150 | the fields and the exception are `OnTestStepFinished` of the old fields |
| Html.HTMLFormatter.HandleEmbed | core/src/main/java/io/cucumber/core/plugin/HTMLFormatter.java:168-182 | the fields become `OnEmbed` of the old fields |
| Html.HTMLFormatter.HandleWrite | core/src/main/java/io/cucumber/core/plugin/HTMLFormatter.java:184-186 | the fields become `OnWrite` of the old fields |
| Html.HTMLFormatter.FinishReport | core/src/main/java/io/cucumber/core/plugin/HTMLFormatter.java:188-194 | the fields become `OnFinishReport` of the old fields |
| DurationStats.AverageIsQuotient | core/src/main/java/io/cucumber/core/plugin/UsageFormatter.java:130-141 | the average is zero for no durations, otherwise the sum divided by the count, truncated |
| DurationStats.AverageWithinBounds | core/src/main/java/io/cucumber/core/plugin/UsageFormatter.java:130-141 | the average of a non-empty list lies between its smallest and largest duration |
| DurationStats.CalculateAverage | core/src/main/java/io/cucumber/core/plugin/UsageFormatter.java:130-141 | the loop's result is the average |
| DurationStats.Sorted | core/src/main/java/io/cucumber/core/plugin/UsageFormatter.java:150 | the sorted list is ascending and a permutation of its input |
| DurationStats.SortedPermutationUnique | core/src/main/java/io/cucumber/core/plugin/UsageFormatter.java:150 | two ascending lists with the same elements are equal, so the median does not depend on how the sort orders ties |
| DurationStats.SortInPlace | core/src/main/java/io/cucumber/core/plugin/UsageFormatter.java:150 | the array ends ascending and a permutation of what it held |
| DurationStats.CalculateMedian | core/src/main/java/io/cucumber/core/plugin/UsageFormatter.java:146-158 | the list is left sorted (the side effect on the caller's list); the result is zero for no durations, the middle element for an odd count, the truncated mean of the two middle ones for an even count, and equals the median of the original list |
| DurationStats.MedianOrderIndependent | core/src/main/java/io/cucumber/core/plugin/UsageFormatter.java:146-158 | the median does not depend on the order the durations were recorded in |
| DurationStats.MedianWithinBounds | core/src/main/java/io/cucumber/core/plugin/UsageFormatter.java:146-158 | the median of a non-empty list lies between its smallest and largest duration |
| Usage.RawDurations | core/src/main/java/io/cucumber/core/plugin/UsageFormatter.java:95-102 | the copied list has one duration per entry, in order |
| Usage.IndexOfName | core/src/main/java/io/cucumber/core/plugin/UsageFormatter.java:116-125 | the scan finds the first container with the step text, or none, and no earlier container has that text |
| Usage.Register | core/src/main/java/io/cucumber/core/plugin/UsageFormatter.java:110 | a new pattern is appended to the key order with no containers; a known one keeps its place; other patterns are unchanged |
| Usage.AddToContainer | core/src/main/java/io/cucumber/core/plugin/UsageFormatter.java:111-125 | the entry goes to the end of the container for the step text, which is created at the end when missing; step texts stay distinct |
| Usage.RecordEntry | core/src/main/java/io/cucumber/core/plugin/UsageFormatter.java:109-114 | the pattern keeps its first-use position; only its containers change; the entry is appended to the matching container |
| Usage.OnTestStepFinished | core/src/main/java/io/cucumber/core/plugin/UsageFormatter.java:49-54 | the map changes exactly when a pickle step passed, and stays well formed |
| Usage.AsWrittenDropsWholeSeconds | core/src/main/java/io/cucumber/core/plugin/UsageFormatter.java:104-106 | the conversion as written reports 0.999999999 s as slower than 1 s, and 2.5 s as 0.5 s |
| Usage.DurationInSeconds | core/src/main/java/io/cucumber/core/plugin/UsageFormatter.java:104-106 | the corrected conversion keeps both the whole seconds and the nanoseconds of the duration |
| Usage.AsWrittenAgreesBelowOneSecond | core/src/main/java/io/cucumber/core/plugin/UsageFormatter.java:104-106 | the conversion as written agrees with the intended one exactly for durations under one second, and otherwise falls short by exactly the whole seconds |
| Usage.UsageReport | core/src/main/java/io/cucumber/core/plugin/UsageFormatter.java:56-67 | one entry per pattern in first-use order, each reporting its containers |
| Usage.RecordedStepIsReported | core/src/main/java/io/cucumber/core/plugin/UsageFormatter.java:49-125 | a passed pickle step shows up in the final report under its pattern and step text, with its duration as the last one listed |
| Usage.UsageFormatter.constructor | core/src/main/java/io/cucumber/core/plugin/UsageFormatter.java:30 | a new formatter has an empty, well-formed usage map |
| Usage.UsageFormatter.FindOrCreateStepContainer | core/src/main/java/io/cucumber/core/plugin/UsageFormatter.java:116-125 | the index is that of the first container with the step text, which is appended empty when missing; the key order is unchanged |
| Usage.UsageFormatter.AddUsageEntry | core/src/main/java/io/cucumber/core/plugin/UsageFormatter.java:109-114 | the map becomes `RecordEntry` of the old map |
| Usage.UsageFormatter.HandleTestStepFinished | core/src/main/java/io/cucumber/core/plugin/UsageFormatter.java:49-54 | the map becomes `OnTestStepFinished` of the old map |
| Usage.UsageFormatter.FinishReport | core/src/main/java/io/cucumber/core/plugin/UsageFormatter.java:56-67 | the report built by the loops is `UsageReport` of the map |
| Usage.UsageFormatter.CreateStepContainers | core/src/main/java/io/cucumber/core/plugin/UsageFormatter.java:69-80 | one report entry per container, in order |
| Usage.UsageFormatter.CreateStepReport | core/src/main/java/io/cucumber/core/plugin/UsageFormatter.java:82-93 | a container's report entry: average and median of its raw durations, and every duration, all in corrected seconds |

## Left out

- Usage.StepReportOf: the modelled report converts every duration, and its average and median, with the corrected `DurationInSeconds`. The program prints `durationInSections`, which drops the whole seconds (see Findings), so for durations of a second or more the modelled report differs from the printed one. `Usage.AsWrittenAgreesBelowOneSecond` states by how much.
- Usage.UsageFormatter.CreateStepReport: for the same reason, it is proved equal to `StepReportOf` with the corrected conversion, not the conversion as written.
- Json.Handle: "only grows" says nothing about the content of a trace. Which trace an event changes, and how, is stated per event by `Json.UpdateRecorded`, `Json.WriteAppendsOutput`, `Json.EmbedAppendsEmbedding` and `Json.FinishedSetsMatchAndResult`.
- I/O is left out: writing the JSON, script and usage text; closing the output; `copyReportFiles`; writing embedded bytes to files. The report is modelled as the value the formatter would print.
- Rendering is left out: the JSON text and the JavaScript text. Every JSON argument is an abstract record, and embedded data keeps its bytes instead of their Base64 text.
- Timestamps are left out: a test case's start instant is a number, not an ISO date string. Error stack traces are kept as a given string.
- Floating point is left out. A duration in seconds is kept exactly as nanoseconds over 10^9, not rounded to a `double`.
- `TestSourcesModel` (parsing the feature files and looking up nodes) is given as data, `SourceIndex`, so `handleTestSourceRead` is not modelled.
- `TimelineFormatter` and the other plugins in the same package are not part of this model.
- Event registration is left out: `setEventPublisher` is modelled as `Handle` dispatching one event. Concurrent publishing is not modelled.
- Json.OnTestStepFinished: `JsonObject.add` appends a second `match`/`result` key when a step finishes twice. The model overwrites them instead, so duplicate keys are not captured.
- Json.Slot: a step or hook object that was created but never linked into the tree (because its handler threw) is modelled as `Detached`. What is later recorded on it is not tracked.
- Json.OnTestCaseStarted: the step-or-hook cursor and the before-step buffer are not reset at a test case start. This matches the code, so a stale buffer passes to the next test case's first step.
- Html.ScenarioOutline: the outline and examples markers are compared by node identity (`handle`), standing for Java object identity. As in the code, they are not reset when the file changes.
- Html.OnTestStepFinished: `getFunctionName` cannot reach its `default` branch, because every hook type has a case, so that branch is not modelled.
- Usage.Seconds: negative durations cannot occur (a duration is a `nat`), so `Duration`'s negative values are not modelled.

## Findings

| source | as written | input that shows it | evidently intended | confidence | as-written member | corrected member |
|---|---|---|---|---|---|---|
| core/src/main/java/io/cucumber/core/plugin/UsageFormatter.java:104-106 | the seconds reported for a duration are `getNano()` / 10^9, and `getNano()` is only the nanosecond part within the current second | a 2.5 s step is reported as 0.5 s; a 0.999999999 s step is reported as slower than a 1 s step (0.999999999 against 0) | the whole duration in seconds, nanoseconds / 10^9 | high (not executed) | Usage.DurationInSecondsAsWritten, with Usage.AsWrittenDropsWholeSeconds | Usage.DurationInSeconds, with Usage.AsWrittenAgreesBelowOneSecond |
