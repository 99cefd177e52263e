/** The runner's documented scenarios, on the fixtures of its test suite: the
    five stages mocked to hand the event on, one after another, and variants
    where one stage ends the run early or throws. */
module RunnerScenarios {
  import opened PipelineTypes
  import opened PipelineChain
  import opened PipelineEffects

  const Raw := PluginEvent("my_id", Some("127.0.0.1"), "http://localhost", 2,
    "2020-02-23T02:15:00Z", Some("2020-02-23T02:15:00Z"), "default event")

  const Pre := PreIngestionEvent("uuid1", "my_id", Some("127.0.0.1"), "example.com", 2,
    "2020-02-23T02:15:00Z", "$pageview")

  const TestError := Error("testError")

  const DeadLetter := Message("events_dead_letter_queue", "DLQ event")

  /** Each stage resolves to the next one: raw event, then the pre-ingestion
      event, and `runAsyncHandlersStep` resolves to `null`. */
  function DefaultMocks(): StepRegistry
  {
    (step: StepType, args: seq<Arg>) =>
      match step
      case PluginsProcessEventStep => Returned(Next(PrepareEventStep, [RawArg(Raw)]))
      case PrepareEventStep => Returned(Next(DetermineShouldBufferStep, [PreIngestionArg(Pre)]))
      case DetermineShouldBufferStep => Returned(Next(CreateEventStep, [PreIngestionArg(Pre)]))
      case CreateEventStep => Returned(Next(RunAsyncHandlersStep, [PreIngestionArg(Pre)]))
      case RunAsyncHandlersStep => Returned(End)
  }

  /** `steps` with the stage for `stage` mocked to give `outcome`. */
  function Mocked(steps: StepRegistry, stage: StepType, outcome: Outcome): StepRegistry
  {
    (step: StepType, args: seq<Arg>) => if step == stage then outcome else steps(step, args)
  }

  /** A hub with statsd and a producer that accepts every record; `fetchPerson`
      resolves to no person. */
  function TestHub(): Hub
  {
    Hub(true, Some((m: Message) => Ok(())), (teamId: int, distinctId: string) => Ok(None))
  }

  /** A runner built with the raw event; the record encoder always succeeds. */
  function TestCtx(): Context
  {
    Context(TestHub(), Some(Raw), (event: PluginEvent, err: Error) => Ok(DeadLetter))
  }

  /** The `runMainPipeline` log of a runner whose step loop visited `tr`. */
  function MainLog(ctx: Context, tr: seq<Visit>): seq<Effect>
  {
    TraceEffects(ctx, tr) + Stat(ctx.hub, Increment(MainIngestedCounter, map[]))
  }

  /** A `runMainPipeline` log seen through a selector that ignores its ingestion counter. */
  lemma MainFilter(ctx: Context, tr: seq<Visit>, keep: Effect -> bool)
    requires !keep(Increment(MainIngestedCounter, map[]))
    ensures Filter(MainLog(ctx, tr), keep) == Filter(TraceEffects(ctx, tr), keep)
  {
    FilterBefore(TraceEffects(ctx, tr), Stat(ctx.hub, Increment(MainIngestedCounter, map[])), keep);
  }

  /** The fixtures' team is tagged `team_id: '2'`. */
  lemma FixtureLastStepTags(step: StepType)
    ensures LastStepTags(step, Some(Raw)) == map["step" := StepName(step), "team_id" := "2"]
  {
    assert NatToString(2) == [Digit(2)];
  }

  /** A run of a runner built with the raw fixture event, on a hub with statsd. */
  ghost predicate FixtureRun(ctx: Context, tr: seq<Visit>)
  {
    ctx.hub.statsdPresent && ctx.originalEvent == Some(Raw) && Chained(tr) && Halts(tr)
  }

  /** The run that visits all five stages. */
  function FullTrace(): seq<Visit>
  {
    [ Visit(PluginsProcessEventStep, [RawArg(Raw)], Returned(Next(PrepareEventStep, [RawArg(Raw)]))),
      Visit(PrepareEventStep, [RawArg(Raw)], Returned(Next(DetermineShouldBufferStep, [PreIngestionArg(Pre)]))),
      Visit(DetermineShouldBufferStep, [PreIngestionArg(Pre)], Returned(Next(CreateEventStep, [PreIngestionArg(Pre)]))),
      Visit(CreateEventStep, [PreIngestionArg(Pre)], Returned(Next(RunAsyncHandlersStep, [PreIngestionArg(Pre)]))),
      Visit(RunAsyncHandlersStep, [PreIngestionArg(Pre)], Returned(End)) ]
  }

  /** The full trace is what the default mocks make the loop do. */
  lemma FullTraceIsLinked()
    ensures Linked(DefaultMocks(), PluginsProcessEventStep, [RawArg(Raw)], FullTrace())
  {
    var tr := FullTrace();
    forall i | 0 <= i < |tr| ensures tr[i].outcome == DefaultMocks()(tr[i].step, tr[i].args) {
    }
  }

  /** The full trace visits the registry's steps, in order. */
  lemma FullTraceSteps()
    ensures Steps(FullTrace()) == EventPipelineSteps
  {
    var names := Steps(FullTrace());
    assert forall i :: 0 <= i < 5 ==> names[i] == EventPipelineSteps[i];
  }

  /** runs all steps: the five stages run in registry order, each with the
      arguments the one before it chose. */
  lemma RunsAllSteps()
    ensures Terminates(DefaultMocks(), PluginsProcessEventStep, [RawArg(Raw)])
    ensures Chain(DefaultMocks(), PluginsProcessEventStep, [RawArg(Raw)]) == FullTrace()
    ensures Steps(Chain(DefaultMocks(), PluginsProcessEventStep, [RawArg(Raw)])) == EventPipelineSteps
    ensures Filter(MainPipelineEffects(TestCtx(), DefaultMocks(), Raw), IsStepCall) == Calls(FullTrace())
  {
    var tr := FullTrace();
    FullTraceIsLinked();
    ChainIsUnique(DefaultMocks(), PluginsProcessEventStep, [RawArg(Raw)], tr);
    FullTraceSteps();
    MainFilter(TestCtx(), tr, IsStepCall);
    RunStepCalls(TestCtx(), tr);
  }

  /** The metric counts of a fixture run through all five steps that ends in `null`. */
  lemma AllStepsCounts(ctx: Context, tr: seq<Visit>)
    requires FixtureRun(ctx, tr) && |tr| == 5 && Last(tr).outcome == Returned(End)
    ensures |Filter(MainLog(ctx, tr), IsTiming)| == 5
    ensures |Filter(MainLog(ctx, tr), IsIncrement)| == 7
  {
    ReturningRunCounts(ctx, tr);
    MainFilter(ctx, tr, IsTiming);
    FilterConcat(TraceEffects(ctx, tr), Stat(ctx.hub, Increment(MainIngestedCounter, map[])), IsIncrement);
    FilterSingle(Increment(MainIngestedCounter, map[]), IsIncrement);
  }

  /** The counters of a fixture run through all five steps that ends in `null`. */
  lemma AllStepsCounters(ctx: Context, tr: seq<Visit>)
    requires FixtureRun(ctx, tr) && Steps(tr) == EventPipelineSteps && Last(tr).outcome == Returned(End)
    ensures var log := MainLog(ctx, tr);
      && Increment(StepCounter, map["step" := "createEventStep"]) in log
      && Increment(LastStepCounter, map["step" := "runAsyncHandlersStep", "team_id" := "2"]) in log
      && Filter(log, CounterNamed(StepErrorCounter)) == []
  {
    AllStepsCreateCounter(ctx, tr);
    AllStepsLastCounter(ctx, tr);
    RunTerminalCounters(ctx, tr);
    MainFilter(ctx, tr, CounterNamed(StepErrorCounter));
  }

  /** That run counts `createEventStep`. */
  lemma AllStepsCreateCounter(ctx: Context, tr: seq<Visit>)
    requires FixtureRun(ctx, tr) && Steps(tr) == EventPipelineSteps && Last(tr).outcome == Returned(End)
    ensures Increment(StepCounter, map["step" := "createEventStep"]) in TraceEffects(ctx, tr)
  {
    assert tr[3].step == Steps(tr)[3];
    StepCounted(ctx, tr, 3);
  }

  /** That run counts `runAsyncHandlersStep` as its last step, for team 2. */
  lemma AllStepsLastCounter(ctx: Context, tr: seq<Visit>)
    requires FixtureRun(ctx, tr) && Steps(tr) == EventPipelineSteps && Last(tr).outcome == Returned(End)
    ensures Increment(LastStepCounter, map["step" := "runAsyncHandlersStep", "team_id" := "2"]) in TraceEffects(ctx, tr)
  {
    assert Last(tr).step == Steps(tr)[4];
    LastStepCounted(ctx, tr);
    FixtureLastStepTags(RunAsyncHandlersStep);
  }

  /** emits metrics for every step: five timings, seven counters (five step
      counters, the last step tagged with the team, the ingestion counter), and
      no error counter. */
  lemma EmitsMetricsForEveryStep()
    ensures Terminates(DefaultMocks(), PluginsProcessEventStep, [RawArg(Raw)])
    ensures var log := MainPipelineEffects(TestCtx(), DefaultMocks(), Raw);
      && |Filter(log, IsTiming)| == 5
      && |Filter(log, IsIncrement)| == 7
      && Increment(StepCounter, map["step" := "createEventStep"]) in log
      && Increment(LastStepCounter, map["step" := "runAsyncHandlersStep", "team_id" := "2"]) in log
      && Filter(log, CounterNamed(StepErrorCounter)) == []
  {
    RunsAllSteps();
    AllStepsCounts(TestCtx(), FullTrace());
    AllStepsCounters(TestCtx(), FullTrace());
  }

  /** `prepareEventStep` resolves to `null`. */
  function EarlyExitMocks(): StepRegistry
  {
    Mocked(DefaultMocks(), PrepareEventStep, Returned(End))
  }

  function EarlyExitTrace(): seq<Visit>
  {
    [ Visit(PluginsProcessEventStep, [RawArg(Raw)], Returned(Next(PrepareEventStep, [RawArg(Raw)]))),
      Visit(PrepareEventStep, [RawArg(Raw)], Returned(End)) ]
  }

  /** The metrics of a fixture run that ends in `null` at `prepareEventStep`. */
  lemma EarlyExitMetrics(ctx: Context, tr: seq<Visit>)
    requires FixtureRun(ctx, tr) && Steps(tr) == [PluginsProcessEventStep, PrepareEventStep] && Last(tr).outcome == Returned(End)
    ensures var log := MainLog(ctx, tr);
      && |Filter(log, IsTiming)| == 2
      && Increment(LastStepCounter, map["step" := "prepareEventStep", "team_id" := "2"]) in log
      && Filter(log, CounterNamed(StepErrorCounter)) == []
  {
    ReturningRunCounts(ctx, tr);
    MainFilter(ctx, tr, IsTiming);
    EarlyExitLastCounter(ctx, tr);
    RunTerminalCounters(ctx, tr);
    MainFilter(ctx, tr, CounterNamed(StepErrorCounter));
  }

  /** That run counts `prepareEventStep` as its last step, for team 2. */
  lemma EarlyExitLastCounter(ctx: Context, tr: seq<Visit>)
    requires FixtureRun(ctx, tr) && Steps(tr) == [PluginsProcessEventStep, PrepareEventStep] && Last(tr).outcome == Returned(End)
    ensures Increment(LastStepCounter, map["step" := "prepareEventStep", "team_id" := "2"]) in TraceEffects(ctx, tr)
  {
    assert Last(tr).step == Steps(tr)[1];
    LastStepCounted(ctx, tr);
    FixtureLastStepTags(PrepareEventStep);
  }

  /** early exits from pipeline: the run stops after `prepareEventStep`, times
      two steps, counts `prepareEventStep` as the last one and counts no error. */
  lemma StopsProcessingAfterStep()
    ensures Terminates(EarlyExitMocks(), PluginsProcessEventStep, [RawArg(Raw)])
    ensures Steps(Chain(EarlyExitMocks(), PluginsProcessEventStep, [RawArg(Raw)])) == [PluginsProcessEventStep, PrepareEventStep]
    ensures var log := MainPipelineEffects(TestCtx(), EarlyExitMocks(), Raw);
      && |Filter(log, IsTiming)| == 2
      && Increment(LastStepCounter, map["step" := "prepareEventStep", "team_id" := "2"]) in log
      && Filter(log, CounterNamed(StepErrorCounter)) == []
  {
    var tr := EarlyExitTrace();
    assert Linked(EarlyExitMocks(), PluginsProcessEventStep, [RawArg(Raw)], tr);
    ChainIsUnique(EarlyExitMocks(), PluginsProcessEventStep, [RawArg(Raw)], tr);
    EarlyExitMetrics(TestCtx(), tr);
  }

  /** `mockRejectedValue(error)` for `stage`. */
  function ThrowingMocks(stage: StepType): StepRegistry
  {
    Mocked(DefaultMocks(), stage, Threw(TestError))
  }

  function PrepareThrowsTrace(): seq<Visit>
  {
    [ Visit(PluginsProcessEventStep, [RawArg(Raw)], Returned(Next(PrepareEventStep, [RawArg(Raw)]))),
      Visit(PrepareEventStep, [RawArg(Raw)], Threw(TestError)) ]
  }

  /** The step counters of a run whose second and last step threw. */
  lemma PrepareFailureCountsFirst(ctx: Context, tr: seq<Visit>)
    requires FixtureRun(ctx, tr) && Steps(tr) == [PluginsProcessEventStep, PrepareEventStep] && Last(tr).outcome.Threw?
    ensures Filter(MainLog(ctx, tr), CounterNamed(StepCounter)) == [Increment(StepCounter, StepTag(PluginsProcessEventStep))]
  {
    RunSuccessMetrics(ctx, tr);
    assert Steps(tr)[..1] == [PluginsProcessEventStep];
    MainFilter(ctx, tr, CounterNamed(StepCounter));
  }

  /** A fixture run whose second step, `prepareEventStep`, threw counts only
      the first step. */
  lemma PrepareFailureStepCounters(ctx: Context, tr: seq<Visit>)
    requires FixtureRun(ctx, tr) && Steps(tr) == [PluginsProcessEventStep, PrepareEventStep] && Last(tr).outcome.Threw?
    ensures Filter(MainLog(ctx, tr), CounterNamed(StepCounter)) == [Increment(StepCounter, map["step" := "pluginsProcessEventStep"])]
    ensures Increment(StepCounter, map["step" := "pluginsProcessEventStep"]) in MainLog(ctx, tr)
    ensures Increment(StepCounter, map["step" := "prepareEventStep"]) !in MainLog(ctx, tr)
  {
    var log := MainLog(ctx, tr);
    var keep := CounterNamed(StepCounter);
    var first := Increment(StepCounter, StepTag(PluginsProcessEventStep));
    var prepared := Increment(StepCounter, StepTag(PrepareEventStep));
    PrepareFailureCountsFirst(ctx, tr);
    FilterSound(log, keep, first);
    assert StepTag(PrepareEventStep)["step"] != StepTag(PluginsProcessEventStep)["step"];
    FilterExcludes(log, keep, prepared);
  }

  /** A fixture run whose `prepareEventStep` threw counts its error and no last step. */
  lemma PrepareFailureErrorCounter(ctx: Context, tr: seq<Visit>)
    requires FixtureRun(ctx, tr) && Last(tr).step == PrepareEventStep && Last(tr).outcome.Threw?
    ensures Filter(MainLog(ctx, tr), CounterNamed(LastStepCounter)) == []
    ensures Increment(StepErrorCounter, map["step" := "prepareEventStep"]) in MainLog(ctx, tr)
  {
    RunTerminalCounters(ctx, tr);
    MainFilter(ctx, tr, CounterNamed(LastStepCounter));
    assert Increment(StepErrorCounter, StepTag(PrepareEventStep)) in Filter(TraceEffects(ctx, tr), CounterNamed(StepErrorCounter));
    FilterSound(TraceEffects(ctx, tr), CounterNamed(StepErrorCounter), Increment(StepErrorCounter, StepTag(PrepareEventStep)));
  }

  /** The dead letter of a fixture run whose `prepareEventStep` threw, when the
      record is built and accepted. */
  lemma PrepareFailureDeadLetter(ctx: Context, tr: seq<Visit>)
    requires FixtureRun(ctx, tr) && Last(tr).step == PrepareEventStep && Last(tr).outcome.Threw?
    requires ctx.generateDeadLetter(Raw, Last(tr).outcome.error) == Ok(DeadLetter)
    requires ctx.hub.kafkaProducer.Some? && ctx.hub.kafkaProducer.value(DeadLetter).Ok?
    ensures var log := MainLog(ctx, tr);
      && Filter(log, IsQueueCall) == [QueueMessage(DeadLetter)]
      && Increment(DeadLetterCounter, map[]) in log
  {
    RunDeadLetter(ctx, tr);
    MainFilter(ctx, tr, IsQueueCall);
    assert Increment(DeadLetterCounter, map[]) in Filter(TraceEffects(ctx, tr), CounterNamed(DeadLetterCounter));
    FilterSound(TraceEffects(ctx, tr), CounterNamed(DeadLetterCounter), Increment(DeadLetterCounter, map[]));
  }

  /** errors during processing: `prepareEventStep` throws. The step before it
      is counted, it is not; no last step is counted, its error is; the raw
      event is queued as a dead letter and counted as one. */
  lemma PrepareEventStepThrows()
    ensures Terminates(ThrowingMocks(PrepareEventStep), PluginsProcessEventStep, [RawArg(Raw)])
    ensures var log := MainPipelineEffects(TestCtx(), ThrowingMocks(PrepareEventStep), Raw);
      && Increment(StepCounter, map["step" := "pluginsProcessEventStep"]) in log
      && Increment(StepCounter, map["step" := "prepareEventStep"]) !in log
      && Filter(log, CounterNamed(LastStepCounter)) == []
      && Increment(StepErrorCounter, map["step" := "prepareEventStep"]) in log
      && Filter(log, IsQueueCall) == [QueueMessage(DeadLetter)]
      && Increment(DeadLetterCounter, map[]) in log
  {
    var steps := ThrowingMocks(PrepareEventStep);
    var tr := PrepareThrowsTrace();
    assert Linked(steps, PluginsProcessEventStep, [RawArg(Raw)], tr);
    ChainIsUnique(steps, PluginsProcessEventStep, [RawArg(Raw)], tr);
    assert Steps(tr) == [PluginsProcessEventStep, PrepareEventStep];
    PrepareFailureStepCounters(TestCtx(), tr);
    PrepareFailureErrorCounter(TestCtx(), tr);
    PrepareFailureDeadLetter(TestCtx(), tr);
  }

  function AsyncHandlersThrowTrace(): seq<Visit>
  {
    [ Visit(PluginsProcessEventStep, [RawArg(Raw)], Returned(Next(PrepareEventStep, [RawArg(Raw)]))),
      Visit(PrepareEventStep, [RawArg(Raw)], Returned(Next(DetermineShouldBufferStep, [PreIngestionArg(Pre)]))),
      Visit(DetermineShouldBufferStep, [PreIngestionArg(Pre)], Returned(Next(CreateEventStep, [PreIngestionArg(Pre)]))),
      Visit(CreateEventStep, [PreIngestionArg(Pre)], Returned(Next(RunAsyncHandlersStep, [PreIngestionArg(Pre)]))),
      Visit(RunAsyncHandlersStep, [PreIngestionArg(Pre)], Threw(TestError)) ]
  }

  /** does not emit to dead letter queue for runAsyncHandlersStep: nothing is
      queued and no dead letter is counted. */
  lemma AsyncHandlersFailureIsNotDeadLettered()
    ensures Terminates(ThrowingMocks(RunAsyncHandlersStep), PluginsProcessEventStep, [RawArg(Raw)])
    ensures var log := MainPipelineEffects(TestCtx(), ThrowingMocks(RunAsyncHandlersStep), Raw);
      && Filter(log, IsQueueCall) == []
      && Filter(log, CounterNamed(DeadLetterCounter)) == []
  {
    var steps := ThrowingMocks(RunAsyncHandlersStep);
    var tr := AsyncHandlersThrowTrace();
    assert Linked(steps, PluginsProcessEventStep, [RawArg(Raw)], tr);
    ChainIsUnique(steps, PluginsProcessEventStep, [RawArg(Raw)], tr);
    RunNoDeadLetterAfterCreate(TestCtx(), tr);
    MainFilter(TestCtx(), tr, IsQueueCall);
    MainFilter(TestCtx(), tr, CounterNamed(DeadLetterCounter));
  }

  function BufferTrace(): seq<Visit>
  {
    [ Visit(CreateEventStep, BufferArgs(Pre, None), Returned(Next(RunAsyncHandlersStep, [PreIngestionArg(Pre)]))),
      Visit(RunAsyncHandlersStep, [PreIngestionArg(Pre)], Returned(End)) ]
  }

  /** runBufferPipeline runs the remaining steps: the person is fetched, then
      `createEventStep` and `runAsyncHandlersStep` run. */
  lemma BufferRunsRemainingSteps()
    ensures BufferTerminates(TestCtx(), DefaultMocks(), Pre)
    ensures var log := BufferPipelineEffects(TestCtx(), DefaultMocks(), Pre);
      && log[0] == FetchPerson(2, "my_id")
      && Filter(log, IsStepCall) ==
           [StepCalled(CreateEventStep, [PreIngestionArg(Pre), PersonArg(None)]),
            StepCalled(RunAsyncHandlersStep, [PreIngestionArg(Pre)])]
  {
    var tr := BufferTrace();
    var ctx := TestCtx();
    assert Linked(DefaultMocks(), CreateEventStep, BufferArgs(Pre, None), tr);
    ChainIsUnique(DefaultMocks(), CreateEventStep, BufferArgs(Pre, None), tr);
    var head := [FetchPerson(2, "my_id")];
    var ingested := Stat(TestHub(), Increment(BufferIngestedCounter, map[]));
    assert BufferPipelineEffects(ctx, DefaultMocks(), Pre) == head + (TraceEffects(ctx, tr) + ingested);
    FilterAfter(head, TraceEffects(ctx, tr) + ingested, IsStepCall);
    FilterBefore(TraceEffects(ctx, tr), ingested, IsStepCall);
    RunStepCalls(ctx, tr);
  }
}
