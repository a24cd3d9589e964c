/**
  The usage formatter: for every step definition pattern, the step texts it
  matched and how long each passed step took, reported at the end of the run
  with the average and median duration per step text.
 */
module Usage {
  import opened Events
  import opened DurationStats

  /** `TimeUnit.SECONDS.toNanos(1)`. */
  const NANOS_PER_SECOND: nat := 1_000_000_000

  /** One recorded execution of a step: its duration and `uri:line`. */
  datatype StepDuration = StepDuration(duration: nat, location: string)

  /** All executions of one step text, in the order they were recorded. */
  datatype StepContainer = StepContainer(name: string, durations: seq<StepDuration>)

  /** An insertion-ordered map (`LinkedHashMap`) from step definition pattern to
      the containers of the step texts it matched: `keys` is the iteration
      order, `containers` the entries. */
  datatype UsageMap = UsageMap(keys: seq<string>, containers: map<string, seq<StepContainer>>)
  {
    ghost predicate Valid() {
      && (forall i, j :: 0 <= i < j < |keys| ==> keys[i] != keys[j])
      && (forall p :: p in containers <==> p in keys)
      && (forall p :: p in containers ==> DistinctNames(containers[p]))
    }
  }

  /** No two containers of one pattern are for the same step text. */
  ghost predicate DistinctNames(cs: seq<StepContainer>) {
    forall i, j :: 0 <= i < j < |cs| ==> cs[i].name != cs[j].name
  }

  /** Changing the durations of containers keeps their names distinct. */
  lemma SameNamesDistinct(cs: seq<StepContainer>, updated: seq<StepContainer>)
    requires DistinctNames(cs) && |updated| == |cs|
    requires forall k :: 0 <= k < |cs| ==> updated[k].name == cs[k].name
    ensures DistinctNames(updated)
  {
  }

  const EmptyUsage := UsageMap([], map[])

  /** The list `getRawDurations` copies out of a container. */
  function RawDurations(ds: seq<StepDuration>): (r: seq<nat>)
    ensures |r| == |ds|
    ensures forall i :: 0 <= i < |ds| ==> r[i] == ds[i].duration
  {
    seq(|ds|, i requires 0 <= i < |ds| => ds[i].duration)
  }

  /** The position of the first container for step text `name`, or `|cs|` when there is none. */
  function IndexOfName(cs: seq<StepContainer>, name: string): (i: nat)
    ensures i <= |cs|
    ensures i < |cs| ==> cs[i].name == name
    ensures forall k :: 0 <= k < i ==> cs[k].name != name
  {
    if |cs| == 0 then 0
    else if cs[0].name == name then 0
    else 1 + IndexOfName(cs[1..], name)
  }

  /** The containers of a pattern, empty for a pattern not seen yet (`computeIfAbsent`). */
  function ContainersOf(u: UsageMap, pattern: string): seq<StepContainer> {
    if pattern in u.containers then u.containers[pattern] else []
  }

  /** `computeIfAbsent`: a pattern seen for the first time is registered, with
      no containers, at the end of the key order. */
  function Register(u: UsageMap, pattern: string): (r: UsageMap)
    requires u.Valid()
    ensures r.Valid() && pattern in r.containers
    ensures r.containers[pattern] == ContainersOf(u, pattern)
    ensures r.keys == if pattern in u.containers then u.keys else u.keys + [pattern]
    ensures forall p :: p in u.containers ==> p in r.containers && (p != pattern ==> r.containers[p] == u.containers[p])
  {
    if pattern in u.containers then u
    else
      var r := UsageMap(u.keys + [pattern], u.containers[pattern := []]);
      assert forall i :: 0 <= i < |u.keys| ==> u.keys[i] != pattern;
      r
  }

  /** The entry added to the container named `name`, which is appended, empty,
      when no container has that name; the other containers are unchanged. */
  function AddToContainer(cs: seq<StepContainer>, name: string, entry: StepDuration): (r: seq<StepContainer>)
    requires DistinctNames(cs)
    ensures DistinctNames(r)
    ensures var i := IndexOfName(cs, name);
      && |r| == (if i < |cs| then |cs| else |cs| + 1)
      && i < |r|
      && r[i] == StepContainer(name, (if i < |cs| then cs[i].durations else []) + [entry])
      && (forall k :: 0 <= k < |cs| && k != i ==> r[k] == cs[k])
  {
    var i := IndexOfName(cs, name);
    var withContainer := if i < |cs| then cs else cs + [StepContainer(name, [])];
    assert DistinctNames(withContainer) by {
      forall a, b | 0 <= a < b < |withContainer| ensures withContainer[a].name != withContainer[b].name {
        if b == |cs| {
          assert withContainer[a].name == cs[a].name;
        }
      }
    }
    var r := withContainer[i := withContainer[i].(durations := withContainer[i].durations + [entry])];
    SameNamesDistinct(withContainer, r);
    r
  }

  /** A valid map with one pattern's containers replaced by containers of distinct names. */
  lemma ReplaceContainersValid(u: UsageMap, pattern: string, cs: seq<StepContainer>)
    requires u.Valid() && pattern in u.containers && DistinctNames(cs)
    ensures u.(containers := u.containers[pattern := cs]).Valid()
  {
  }

  /** Appending to the container found or created by the scan is `AddToContainer`. */
  lemma AppendToFound(cs: seq<StepContainer>, name: string, entry: StepDuration, index: nat)
    requires DistinctNames(cs) && index == IndexOfName(cs, name)
    ensures var ws := if index < |cs| then cs else cs + [StepContainer(name, [])];
      index < |ws| && ws[index := ws[index].(durations := ws[index].durations + [entry])] == AddToContainer(cs, name, entry)
  {
  }

  /** The steps `addUsageEntry` takes — register the pattern, find or create
      the container, append to it — end in the map `RecordEntry` describes. */
  lemma RecordEntrySteps(u: UsageMap, pattern: string, name: string, entry: StepDuration,
                         v: UsageMap, index: nat, w: UsageMap)
    requires u.Valid() && v == Register(u, pattern)
    requires index == IndexOfName(v.containers[pattern], name)
    requires w.keys == v.keys
    requires var cs := v.containers[pattern];
      w.containers == v.containers[pattern := if index < |cs| then cs else cs + [StepContainer(name, [])]]
    ensures pattern in w.containers && index < |w.containers[pattern]|
    ensures var ws := w.containers[pattern];
      w.(containers := w.containers[pattern := ws[index := ws[index].(durations := ws[index].durations + [entry])]])
      == RecordEntry(u, pattern, name, entry)
  {
    var cs := v.containers[pattern];
    AppendToFound(cs, name, entry, index);
    var updated := AddToContainer(cs, name, entry);
    assert w.containers[pattern := updated] == v.containers[pattern := updated];
  }

  /** `addUsageEntry`: the pattern is registered at the end of the key order on
      first use; the entry goes to the end of the container for `name`, which
      is created at the end of the pattern's list if no container has that name.
      Every other container and every other pattern stays as it was. */
  function RecordEntry(u: UsageMap, pattern: string, name: string, entry: StepDuration): (r: UsageMap)
    requires u.Valid()
    ensures r.Valid()
    ensures r.keys == if pattern in u.containers then u.keys else u.keys + [pattern]
    ensures forall p :: p in u.containers && p != pattern ==> p in r.containers && r.containers[p] == u.containers[p]
    ensures pattern in r.containers
    ensures
      var old_ := ContainersOf(u, pattern);
      var new_ := r.containers[pattern];
      var i := IndexOfName(old_, name);
      && |new_| == (if i < |old_| then |old_| else |old_| + 1)
      && i < |new_|
      && new_[i] == StepContainer(name, (if i < |old_| then old_[i].durations else []) + [entry])
      && (forall k :: 0 <= k < |old_| && k != i ==> new_[k] == old_[k])
  {
    var v := Register(u, pattern);
    var updated := AddToContainer(v.containers[pattern], name, entry);
    ReplaceContainersValid(v, pattern, updated);
    v.(containers := v.containers[pattern := updated])
  }

  /** `handleTestStepFinished`: only a pickle step that passed is recorded, and
      then under its pattern and text with location `uri:line`; every other
      event leaves the map as it was. */
  function OnTestStepFinished(u: UsageMap, testStep: TestStep, result: Result): (r: UsageMap)
    requires u.Valid()
    ensures r.Valid()
    ensures r == u <==> !(testStep.PickleStepTestStep? && result.status == Passed)
  {
    if testStep.PickleStepTestStep? && result.status == Passed then
      var step := testStep.step;
      var r := RecordEntry(u, step.pattern, step.stepText, EntryFor(step, result));
      var cs := ContainersOf(u, step.pattern);
      var i := IndexOfName(cs, step.stepText);
      if i < |cs| then
        assert |r.containers[step.pattern][i].durations| > |cs[i].durations|;
        r
      else
        assert |r.containers[step.pattern]| > |cs|;
        r
    else u
  }

  /** The duration and location recorded for a passed step. */
  function EntryFor(step: PickleStep, result: Result): StepDuration {
    StepDuration(result.duration, step.uri + ":" + IntToString(step.stepLine))
  }

  /** A number of seconds, given exactly as `nanos` / 10^9 (the rounding to a `double` is not modelled). */
  datatype Seconds = Seconds(nanos: nat)

  /** `durationInSections` as written: `Duration.getNano()` is only the
      nanosecond-of-second part, so the whole seconds are dropped. */
  function DurationInSecondsAsWritten(d: nat): Seconds {
    Seconds(d % NANOS_PER_SECOND)
  }

  /** A 0.999999999 s step is reported as slower than a 1 s step, and a 2.5 s step as 0.5 s. */
  lemma AsWrittenDropsWholeSeconds()
    ensures DurationInSecondsAsWritten(999_999_999).nanos > DurationInSecondsAsWritten(1_000_000_000).nanos
    ensures DurationInSecondsAsWritten(2_500_000_000) == Seconds(500_000_000)
  {
  }

  /** The conversion the report evidently means: the whole duration in seconds
      (`toNanos()` over `NANOS_PER_SECOND`), keeping both the whole seconds and
      the sub-second part. */
  function DurationInSeconds(d: nat): (r: Seconds)
    ensures r.nanos / NANOS_PER_SECOND == d / NANOS_PER_SECOND
    ensures r.nanos % NANOS_PER_SECOND == d % NANOS_PER_SECOND
  {
    Seconds(d)
  }

  /** Where the conversion as written goes wrong: it agrees with the intended
      one exactly for durations under one second, and otherwise falls short
      of it by exactly the whole seconds. */
  lemma AsWrittenAgreesBelowOneSecond(d: nat)
    ensures DurationInSecondsAsWritten(d) == DurationInSeconds(d) <==> d < NANOS_PER_SECOND
    ensures DurationInSecondsAsWritten(d).nanos + (d / NANOS_PER_SECOND) * NANOS_PER_SECOND == DurationInSeconds(d).nanos
  {
  }

  datatype DurationReport = DurationReport(duration: Seconds, location: string)

  /** One step text in the report: its name, aggregated durations and every recorded duration. */
  datatype StepReport = StepReport(name: string, average: Seconds, median: Seconds, durations: seq<DurationReport>)

  /** One pattern in the report, with its step texts. */
  datatype PatternReport = PatternReport(source: string, steps: seq<StepReport>)

  /** `createStepContainers` for one container: average and median of its raw
      durations, then its durations in recorded order. */
  function StepReportOf(c: StepContainer): StepReport
  {
    var raw := RawDurations(c.durations);
    StepReport(c.name, DurationInSeconds(Average(raw)), DurationInSeconds(Median(raw)),
      seq(|c.durations|, k requires 0 <= k < |c.durations| =>
        DurationReport(DurationInSeconds(c.durations[k].duration), c.durations[k].location)))
  }

  function PatternReportOf(source: string, cs: seq<StepContainer>): PatternReport
  {
    PatternReport(source, seq(|cs|, j requires 0 <= j < |cs| => StepReportOf(cs[j])))
  }

  /** `finishReport`: one entry per pattern in first-use order, each with its
      step texts in first-seen order. */
  function UsageReport(u: UsageMap): (r: seq<PatternReport>)
    requires u.Valid()
    ensures |r| == |u.keys|
    ensures forall i :: 0 <= i < |u.keys| ==> r[i] == PatternReportOf(u.keys[i], u.containers[u.keys[i]])
  {
    seq(|u.keys|, i requires 0 <= i < |u.keys| => PatternReportOf(u.keys[i], u.containers[u.keys[i]]))
  }

  /** The report entry of a container ends with its last recorded duration. */
  lemma StepReportLast(c: StepContainer)
    requires |c.durations| > 0
    ensures var ds := StepReportOf(c).durations;
      |ds| == |c.durations| && ds[|ds| - 1]
        == DurationReport(DurationInSeconds(c.durations[|c.durations| - 1].duration), c.durations[|c.durations| - 1].location)
  {
  }

  /** Every pattern of a valid map has a position in the key order. */
  lemma KeyPosition(u: UsageMap, pattern: string) returns (i: nat)
    requires u.Valid() && pattern in u.containers
    ensures i < |u.keys| && u.keys[i] == pattern
  {
    assert pattern in u.keys;
    i :| 0 <= i < |u.keys| && u.keys[i] == pattern;
  }

  /** Recording a passed step makes it show up in the final report: under its
      pattern there is a step text entry whose last duration is the new one. */
  lemma RecordedStepIsReported(u: UsageMap, step: PickleStep, result: Result)
    requires u.Valid() && result.status == Passed
    ensures
      var r := OnTestStepFinished(u, PickleStepTestStep(step), result);
      var report := UsageReport(r);
      exists i, j :: 0 <= i < |report| && 0 <= j < |report[i].steps|
        && report[i].source == step.pattern
        && report[i].steps[j].name == step.stepText
        && |report[i].steps[j].durations| > 0
        && report[i].steps[j].durations[|report[i].steps[j].durations| - 1]
           == DurationReport(DurationInSeconds(result.duration), EntryFor(step, result).location)
  {
    var entry := EntryFor(step, result);
    var r := RecordEntry(u, step.pattern, step.stepText, entry);
    assert OnTestStepFinished(u, PickleStepTestStep(step), result) == r;
    var i, j := RecordedPosition(u, step.pattern, step.stepText, entry);
    ReportedLast(r, i, j, step.stepText, entry);
  }

  /** Where `RecordEntry` put the entry: the pattern's position in the key
      order, and the position of the container for the step text, which ends
      with the entry. */
  lemma RecordedPosition(u: UsageMap, pattern: string, name: string, entry: StepDuration) returns (i: nat, j: nat)
    requires u.Valid()
    ensures var r := RecordEntry(u, pattern, name, entry);
      && i < |r.keys| && r.keys[i] == pattern && pattern in r.containers
      && j < |r.containers[pattern]| && r.containers[pattern][j].name == name
      && |r.containers[pattern][j].durations| > 0
      && r.containers[pattern][j].durations[|r.containers[pattern][j].durations| - 1] == entry
  {
    var r := RecordEntry(u, pattern, name, entry);
    i := KeyPosition(r, pattern);
    j := IndexOfName(ContainersOf(u, pattern), name);
  }

  /** The report entry of the container at positions `i` and `j` has its name
      and ends with its last duration. */
  lemma ReportedLast(r: UsageMap, i: nat, j: nat, name: string, entry: StepDuration)
    requires r.Valid() && i < |r.keys| && r.keys[i] in r.containers
    requires var cs := r.containers[r.keys[i]];
      && j < |cs| && cs[j].name == name && |cs[j].durations| > 0
      && cs[j].durations[|cs[j].durations| - 1] == entry
    ensures var report := UsageReport(r);
      && i < |report| && j < |report[i].steps|
      && report[i].source == r.keys[i]
      && report[i].steps[j].name == name
      && |report[i].steps[j].durations| > 0
      && report[i].steps[j].durations[|report[i].steps[j].durations| - 1]
         == DurationReport(DurationInSeconds(entry.duration), entry.location)
  {
    var c := r.containers[r.keys[i]][j];
    assert UsageReport(r)[i] == PatternReportOf(r.keys[i], r.containers[r.keys[i]]);
    assert UsageReport(r)[i].steps[j] == StepReportOf(c);
    StepReportLast(c);
  }

  class UsageFormatter {
    var usageMap: UsageMap

    constructor ()
      ensures usageMap == EmptyUsage && usageMap.Valid()
    {
      usageMap := EmptyUsage;
    }

    /** `findOrCreateStepContainer`: scans the pattern's containers for one
        named `stepNameWithArgs` and returns its position; when none has that
        name a new, empty container is appended and its position returned. */
    method FindOrCreateStepContainer(stepNameWithArgs: string, pattern: string) returns (index: nat)
      requires usageMap.Valid() && pattern in usageMap.containers
      modifies this
      ensures usageMap.Valid()
      ensures usageMap.keys == old(usageMap.keys)
      ensures var cs := old(usageMap.containers[pattern]);
        && index == IndexOfName(cs, stepNameWithArgs)
        && usageMap.containers == old(usageMap.containers)[pattern :=
             if index < |cs| then cs else cs + [StepContainer(stepNameWithArgs, [])]]
    {
      var cs := usageMap.containers[pattern];
      var i := 0;
      while i < |cs|
        invariant 0 <= i <= |cs|
        invariant forall k :: 0 <= k < i ==> cs[k].name != stepNameWithArgs
      {
        if stepNameWithArgs == cs[i].name {
          return i;
        }
        i := i + 1;
      }
      var updated := cs + [StepContainer(stepNameWithArgs, [])];
      assert DistinctNames(updated) by {
        forall a, b | 0 <= a < b < |updated| ensures updated[a].name != updated[b].name {
          if b == |cs| {
            assert updated[a].name == cs[a].name;
          }
        }
      }
      usageMap := usageMap.(containers := usageMap.containers[pattern := updated]);
      index := |cs|;
    }

    /** `addUsageEntry`. */
    method AddUsageEntry(result: Result, step: PickleStep)
      requires usageMap.Valid()
      modifies this
      ensures usageMap.Valid()
      ensures usageMap == RecordEntry(old(usageMap), step.pattern, step.stepText, EntryFor(step, result))
    {
      if step.pattern !in usageMap.containers {
        usageMap := UsageMap(usageMap.keys + [step.pattern], usageMap.containers[step.pattern := []]);
      }
      ghost var registered := usageMap;
      assert registered == Register(old(usageMap), step.pattern);
      var index := FindOrCreateStepContainer(step.stepText, step.pattern);
      var cs := usageMap.containers[step.pattern];
      var entry := EntryFor(step, result);
      RecordEntrySteps(old(usageMap), step.pattern, step.stepText, entry, registered, index, usageMap);
      usageMap := usageMap.(containers := usageMap.containers[step.pattern := cs[index := cs[index].(durations := cs[index].durations + [entry])]]);
    }

    /** `handleTestStepFinished`. */
    method HandleTestStepFinished(testStep: TestStep, result: Result)
      requires usageMap.Valid()
      modifies this
      ensures usageMap.Valid()
      ensures usageMap == OnTestStepFinished(old(usageMap), testStep, result)
    {
      if testStep.PickleStepTestStep? && result.status == Passed {
        AddUsageEntry(result, testStep.step);
      }
    }

    /** `finishReport`: for every pattern and container, the average and the
        median of a fresh copy of its raw durations (the median sorts the copy
        in place), then the report entry. */
    method FinishReport() returns (report: seq<PatternReport>)
      requires usageMap.Valid()
      ensures report == UsageReport(usageMap)
    {
      report := [];
      var keys := usageMap.keys;
      for i := 0 to |keys|
        invariant report == UsageReport(usageMap)[..i]
      {
        var cs := usageMap.containers[keys[i]];
        var steps := CreateStepContainers(cs);
        assert steps == PatternReportOf(keys[i], cs).steps;
        assert UsageReport(usageMap)[..i + 1] == UsageReport(usageMap)[..i] + [PatternReport(keys[i], steps)];
        report := report + [PatternReport(keys[i], steps)];
      }
      assert UsageReport(usageMap)[..|keys|] == UsageReport(usageMap);
    }

    /** `createStepContainers`. */
    method CreateStepContainers(cs: seq<StepContainer>) returns (steps: seq<StepReport>)
      ensures |steps| == |cs|
      ensures forall k :: 0 <= k < |cs| ==> steps[k] == StepReportOf(cs[k])
    {
      steps := [];
      for j := 0 to |cs|
        invariant |steps| == j
        invariant forall k :: 0 <= k < j ==> steps[k] == StepReportOf(cs[k])
      {
        var step := CreateStepReport(cs[j]);
        steps := steps + [step];
      }
    }

    /** `createAggregatedDurations` and `toJson` for one container. */
    method CreateStepReport(c: StepContainer) returns (r: StepReport)
      ensures r == StepReportOf(c)
    {
      var ds := c.durations;
      var raw := new nat[|ds|](k requires 0 <= k < |ds| => ds[k].duration);
      ghost var copied := raw[..];
      assert copied == RawDurations(ds);
      var average := CalculateAverage(raw[..]);
      var median := CalculateMedian(raw);
      assert average == Average(copied) && median == Median(copied);
      var durations := seq(|ds|, k requires 0 <= k < |ds| =>
        DurationReport(DurationInSeconds(ds[k].duration), ds[k].location));
      r := StepReport(c.name, DurationInSeconds(average), DurationInSeconds(median), durations);
    }
  }
}
