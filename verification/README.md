# Event pipeline runner

This project models PostHog's plugin-server `EventPipelineRunner` in Dafny. The runner drives one ingested event through a fixed registry of five asynchronous stages:

- `pluginsProcessEventStep`
- `prepareEventStep`
- `determineShouldBufferStep`
- `createEventStep`
- `runAsyncHandlersStep`

Each stage either hands the event on, returning `[nextStepName, nextArgs]`, or ends the run, returning `null`, or throws. After every stage that returns, the runner bumps a statsd counter and records a timing. The stage that ends the run is counted as the last step, tagged with the event's team.

A stage that throws is handled by `handleError`:

- it reports the error and counts it;
- if the runner holds the original event and the stage is one of the four that run before the event is durably created, it sends a dead-letter record to Kafka;
- any failure while dead-lettering is reported and swallowed.

`runMainPipeline` starts at `pluginsProcessEventStep`. `runBufferPipeline` first fetches the person, then resumes at `createEventStep`. When statsd is present, each ends with a "processed and ingested" counter. For `runBufferPipeline` this happens only when `fetchPerson` resolves.

## How the model is built

- `pipeline_types.dfy` (`PipelineTypes`) holds the values:
  - the closed step type, the two registries as constants and the metric names;
  - events and stage arguments, stage outcomes, the hub;
  - `Effect`, which is one call the runner makes on a collaborator: a stage call, a statsd increment or timing, a Kafka write, an error report or a person fetch;
  - the decimal rendering `String(team_id)`, with its round trip.
- `pipeline_chain.dfy` (`PipelineChain`) holds the chain of stages the loop visits. The stages are an oracle `StepRegistry` from step and arguments to outcome, so the visited chain is a function of the registry, the entry step and its arguments. `Walk` computes it with a fuel bound. `Chain` is the walk of a run that terminates. Its order and uniqueness are proved.
- `pipeline_effects.dfy` (`PipelineEffects`) holds the specification.
  - It says which calls one iteration, `handleError`, a whole run, `runMainPipeline` and `runBufferPipeline` make, in order.
  - It proves what the runner promises about them: step order, success metrics, early stop, error handling, the dead-letter condition, and that step errors never escape.
- `runner.dfy` (`Runner`) holds the class `EventPipelineRunner`.
  - Its `log` field records every call in order.
  - Its methods mirror the source's methods statement by statement, including the `while (true)` step loop with its invariants.
  - Each method's postcondition ties the new `log` to the specification functions.
- `runner_scenarios.dfy` (`RunnerScenarios`) replays the cases of the runner's test suite on its fixtures, proving what each case expects.

Stages, the dead-letter encoder, the Kafka producer and `fetchPerson` are parameters, given as function values. statsd is a flag: metric calls are recorded only when a client is present.

The `fetchPerson` call in `runBufferPipeline` sits outside the loop's `try`. The model follows the code: a rejected fetch returns its error to the caller, no stage runs and `handleError` is not called. So a rejected fetch is not a stage failure: there is no `step.error` counter, no error report and no dead letter.

## Model

| member | source | states |
|---|---|---|
| PipelineTypes.StepRegistryIsClosed | plugin-server/src/worker/ingestion/event-pipeline/runner.ts:20-29 | every step type is a key of the registry, there are five, and distinct steps have distinct metric-tag names |
| PipelineTypes.DlqStepsArePreDurability | plugin-server/src/worker/ingestion/event-pipeline/runner.ts:40-45 | a step is dead-letter eligible iff it is not `runAsyncHandlersStep`; the list is the registry minus its last step |
| PipelineTypes.Stat | plugin-server/src/worker/ingestion/event-pipeline/runner.ts:79-80 | `statsd?.` makes a metric call either the call itself or nothing |
| PipelineTypes.NatToString | plugin-server/src/worker/ingestion/event-pipeline/runner.ts:87 | `String(n)` of a non-negative integer is a non-empty string of decimal digits |
| PipelineTypes.IntToStringRoundTrip | plugin-server/src/worker/ingestion/event-pipeline/runner.ts:87 | the `team_id` tag reads back as the team id (with a leading `-` for a negative one) |
| PipelineTypes.IntToStringInjective | plugin-server/src/worker/ingestion/event-pipeline/runner.ts:85-88 | distinct teams get distinct `team_id` tags on the last-step counter |
| PipelineChain.Walk | plugin-server/src/worker/ingestion/event-pipeline/runner.ts:74-95 | the first `fuel` loop iterations, never more than `fuel` |
| PipelineChain.WalkFillsFuel | plugin-server/src/worker/ingestion/event-pipeline/runner.ts:74-95 | the walk has exactly `fuel` iterations unless the loop left earlier |
| PipelineChain.WalkIsLinked | plugin-server/src/worker/ingestion/event-pipeline/runner.ts:77-83 | the walk starts at the entry step, each outcome is the stage's outcome, and each step is the one the previous stage returned |
| PipelineChain.Chain | plugin-server/src/worker/ingestion/event-pipeline/runner.ts:74-95 | a terminating loop visits a linked chain whose last visit returned `null` or threw |
| PipelineChain.LinkedIsWalk | plugin-server/src/worker/ingestion/event-pipeline/runner.ts:82-83 | any halting linked chain is the walk of its own length: the outcomes alone decide the steps |
| PipelineChain.WalkStable | plugin-server/src/worker/ingestion/event-pipeline/runner.ts:89-93 | once the loop has broken out, further fuel changes nothing |
| PipelineChain.ChainIsUnique | plugin-server/src/worker/ingestion/event-pipeline/runner.ts:74-95 | the run is determined: every halting linked chain is the chain of that run |
| PipelineChain.Steps | plugin-server/src/worker/ingestion/event-pipeline/runner.ts:71 | the step names in visiting order, one per visit |
| PipelineChain.ChainOrder | plugin-server/src/worker/ingestion/event-pipeline/runner.ts:71-95 | a run starts at the entry step; a step runs only after the previous stage returned `[thatStep, args]`; only the last visit ends the loop |
| PipelineChain.ChainAt | plugin-server/src/worker/ingestion/event-pipeline/runner.ts:77-93 | iteration `k` gets the stage's outcome, is terminal iff it is the last, and otherwise names iteration `k+1` |
| PipelineEffects.Calls | plugin-server/src/worker/ingestion/event-pipeline/runner.ts:77 | one stage call per visit, with its step and arguments |
| PipelineEffects.SucceededSteps | plugin-server/src/worker/ingestion/event-pipeline/runner.ts:77-80 | the visits whose stage returned, at most one per visit |
| PipelineEffects.StepCounters | plugin-server/src/worker/ingestion/event-pipeline/runner.ts:79 | one `kafka_queue.event_pipeline.step` counter per step, tagged with its name, or none without statsd |
| PipelineEffects.StepTimings | plugin-server/src/worker/ingestion/event-pipeline/runner.ts:80 | one `kafka_queue.event_pipeline.step.timing` sample per step, tagged with its name, or none without statsd |
| PipelineEffects.QueuedDeadLetter | plugin-server/src/worker/ingestion/event-pipeline/runner.ts:122-123 | at most one record reaches `queueMessage` |
| PipelineEffects.VisitEffectKinds | plugin-server/src/worker/ingestion/event-pipeline/runner.ts:74-95 | an iteration never fetches a person, bumps only the four loop counters and times only steps |
| PipelineEffects.ContinuingVisitEffects | plugin-server/src/worker/ingestion/event-pipeline/runner.ts:77-83 | an iteration that continues the loop calls its stage, counts it and times it, and does nothing else |
| PipelineEffects.VisitStepCalls | plugin-server/src/worker/ingestion/event-pipeline/runner.ts:77 | each iteration calls its stage exactly once |
| PipelineEffects.HandleErrorKinds | plugin-server/src/worker/ingestion/event-pipeline/runner.ts:115-132 | `handleError` only reports, queues, and bumps the error counter of that step and the dead-letter counter |
| PipelineEffects.VisitStepCounter | plugin-server/src/worker/ingestion/event-pipeline/runner.ts:77-79 | an iteration bumps its step counter iff its stage returned, since a throw skips line 79 |
| PipelineEffects.VisitStepTiming | plugin-server/src/worker/ingestion/event-pipeline/runner.ts:77-80 | an iteration records its timing iff its stage returned |
| PipelineEffects.ReturnedVisitKinds | plugin-server/src/worker/ingestion/event-pipeline/runner.ts:77-90 | a returning iteration emits only its stage call, step counter, timing and last-step counter |
| PipelineEffects.ThrowingVisit | plugin-server/src/worker/ingestion/event-pipeline/runner.ts:91-93 | a throwing iteration is its stage call followed by exactly `handleError` |
| PipelineEffects.DeadLetterKinds | plugin-server/src/worker/ingestion/event-pipeline/runner.ts:121-130 | the dead-letter block only queues, counts and reports |
| PipelineEffects.HandleErrorCountsOnce | plugin-server/src/worker/ingestion/event-pipeline/runner.ts:118 | `handleError` bumps the `step.error` counter for the failing step exactly once (if statsd) |
| PipelineEffects.HandleErrorTail | plugin-server/src/worker/ingestion/event-pipeline/runner.ts:120-131 | after report and counter, `handleError` does the dead-letter block iff the runner has the event and the step is eligible, else nothing |
| PipelineEffects.DeadLetterQueues | plugin-server/src/worker/ingestion/event-pipeline/runner.ts:122-123 | the record reaches `queueMessage` iff it could be built and a producer exists |
| PipelineEffects.DeadLetterCounted | plugin-server/src/worker/ingestion/event-pipeline/runner.ts:123-124 | `events_added_to_dead_letter_queue` is bumped iff the producer accepted the record (and statsd is present) |
| PipelineEffects.DeadLetterReports | plugin-server/src/worker/ingestion/event-pipeline/runner.ts:125-130 | a failed build or write is reported exactly once, with the step and the stage error as cause; a delivered record reports nothing |
| PipelineEffects.HandleErrorQueues | plugin-server/src/worker/ingestion/event-pipeline/runner.ts:120-123 | `handleError` queues a record iff the original event is held, the step is eligible, the record is built and a producer exists |
| PipelineEffects.HandleErrorCountsDeadLetter | plugin-server/src/worker/ingestion/event-pipeline/runner.ts:120-124 | the dead-letter counter is bumped once iff the record was eligible and delivered |
| PipelineEffects.HandleErrorReports | plugin-server/src/worker/ingestion/event-pipeline/runner.ts:117-129 | the stage error is reported first; a second report (caused by it) exists iff dead-lettering was attempted and failed |
| PipelineEffects.VisitLastStepCounter | plugin-server/src/worker/ingestion/event-pipeline/runner.ts:82-89 | only an iteration whose stage returned `null` bumps `step.last`, tagged with the step and the team |
| PipelineEffects.VisitErrorCounter | plugin-server/src/worker/ingestion/event-pipeline/runner.ts:91-92 | only an iteration whose stage threw bumps `step.error`, once |
| PipelineEffects.VisitErrorOnly | plugin-server/src/worker/ingestion/event-pipeline/runner.ts:91-93 | seen through a selector that ignores the success-path calls, an iteration is its `handleError` or nothing |
| PipelineEffects.ChainedPrefix | plugin-server/src/worker/ingestion/event-pipeline/runner.ts:82-93 | every iteration of a run but the last continued the loop |
| PipelineEffects.ContinuingEffects | plugin-server/src/worker/ingestion/event-pipeline/runner.ts:77-83 | iterations that continue only call stages, count and time them |
| PipelineEffects.RunTail | plugin-server/src/worker/ingestion/event-pipeline/runner.ts:74-95 | any call the continuing iterations never make comes from the last iteration alone |
| PipelineEffects.RunStepCalls | plugin-server/src/worker/ingestion/event-pipeline/runner.ts:71-83 | step order: the stage calls of a run are exactly its visits, in order, with their arguments |
| PipelineEffects.RunSucceededMetrics | plugin-server/src/worker/ingestion/event-pipeline/runner.ts:77-80 | the step counters and timings of a run are one per returning visit, in order |
| PipelineEffects.ContinuingSucceeded | plugin-server/src/worker/ingestion/event-pipeline/runner.ts:77-83 | in iterations that continue, every step returned |
| PipelineEffects.SucceededStepsOfRun | plugin-server/src/worker/ingestion/event-pipeline/runner.ts:74-95 | the steps of a run that returned are all of them, or all but a last one that threw |
| PipelineEffects.RunSuccessMetrics | plugin-server/src/worker/ingestion/event-pipeline/runner.ts:79-80 | success metrics: every step but a throwing last one is counted and timed once, tagged, in order |
| PipelineEffects.RunTerminalCounters | plugin-server/src/worker/ingestion/event-pipeline/runner.ts:84-93 | early stop: `step.last` once for a run that ended in `null`, tagged with that step and team; `step.error` once for one that threw; never both |
| PipelineEffects.RunDeadLetter | plugin-server/src/worker/ingestion/event-pipeline/runner.ts:91-92 | a run queues and counts a dead letter only for a throwing last step, and exactly as `handleError` does for it |
| PipelineEffects.RunDeadLetterIff | plugin-server/src/worker/ingestion/event-pipeline/runner.ts:120-123 | a dead letter is queued iff a step threw, the event is held, the step is pre-durability, the record was built and a producer exists |
| PipelineEffects.RunNoDeadLetterAfterCreate | plugin-server/src/worker/ingestion/event-pipeline/runner.ts:40-45 | a failure in `runAsyncHandlersStep` is never dead-lettered nor counted as such |
| PipelineEffects.RunReports | plugin-server/src/worker/ingestion/event-pipeline/runner.ts:115-130 | a run ending in `null` reports nothing; a throwing run reports its error first, and once more only if dead-lettering failed |
| PipelineEffects.TraceEffectKinds | plugin-server/src/worker/ingestion/event-pipeline/runner.ts:74-95 | a run never fetches a person nor bumps an ingestion counter, and times only steps |
| PipelineEffects.TraceEffectsStart | plugin-server/src/worker/ingestion/event-pipeline/runner.ts:71-77 | a run begins by calling its entry stage with its arguments |
| PipelineEffects.RunThenCount | plugin-server/src/worker/ingestion/event-pipeline/runner.ts:56-65 | a run followed by an ingestion counter contains that counter once, as its last call |
| PipelineEffects.MainPipelineAlwaysIngests | plugin-server/src/worker/ingestion/event-pipeline/runner.ts:56-59 | step errors never escape: `runMainPipeline` starts at `pluginsProcessEventStep` and always ends with one `single_event.processed_and_ingested` counter |
| PipelineEffects.BufferPipelineFetchesFirst | plugin-server/src/worker/ingestion/event-pipeline/runner.ts:61-65 | the person is fetched first; a rejected fetch stops everything there; otherwise `createEventStep` runs with event and person, and one `buffer_event.processed_and_ingested` counter ends the log |
| PipelineEffects.HandleErrorIncrements | plugin-server/src/worker/ingestion/event-pipeline/runner.ts:118-124 | `handleError` bumps the step-error counter, then the dead-letter counter iff the record was delivered |
| PipelineEffects.ReturnedIncrements | plugin-server/src/worker/ingestion/event-pipeline/runner.ts:79-88 | a returning iteration bumps its step counter, and on `null` the last-step counter |
| PipelineEffects.ContinuingIncrements | plugin-server/src/worker/ingestion/event-pipeline/runner.ts:79-83 | iterations that continue bump exactly their step counters |
| PipelineEffects.RunIncrements | plugin-server/src/worker/ingestion/event-pipeline/runner.ts:74-95 | every counter of a run: one step counter per step before the last, then the last iteration's |
| PipelineEffects.RunTimings | plugin-server/src/worker/ingestion/event-pipeline/runner.ts:80 | every timing of a run is a step timing, one per step that returned |
| PipelineEffects.ReturningRunCounts | plugin-server/src/worker/ingestion/event-pipeline/runner.ts:79-88 | a run ending in `null` with statsd: as many timings as steps, and one counter more than steps |
| PipelineEffects.StepCounted | plugin-server/src/worker/ingestion/event-pipeline/runner.ts:79 | every step of a run that did not throw is counted under its own name |
| Runner.EventPipelineRunner.constructor | plugin-server/src/worker/ingestion/event-pipeline/runner.ts:51-54 | keeps the hub and the optional original event; nothing has been called yet |
| Runner.EventPipelineRunner.RunMainPipeline | plugin-server/src/worker/ingestion/event-pipeline/runner.ts:56-59 | appends the run from `pluginsProcessEventStep` with `[event]`, then the main ingestion counter |
| Runner.EventPipelineRunner.RunBufferPipeline | plugin-server/src/worker/ingestion/event-pipeline/runner.ts:61-65 | fetches the person; returns the rejection if any (log: only the fetch); otherwise appends the run from `createEventStep` with `[event, person]` and the buffer ingestion counter |
| Runner.EventPipelineRunner.RunPipeline | plugin-server/src/worker/ingestion/event-pipeline/runner.ts:67-96 | the step loop appends exactly the calls of every iteration of the chain the registry determines, in order, and stops after the visit that returned `null` or threw |
| Runner.EventPipelineRunner.RunStep | plugin-server/src/worker/ingestion/event-pipeline/runner.ts:98-106 | calls the registered stage for the step with its arguments and gives back its outcome |
| Runner.EventPipelineRunner.NextStep | plugin-server/src/worker/ingestion/event-pipeline/runner.ts:108-113 | its result always continues the loop |
| Runner.NextStepContinues | plugin-server/src/worker/ingestion/event-pipeline/runner.ts:82-83 | a stage returning `nextStep(next, args)` makes `next` run with `args` right after it |
| Runner.EventPipelineRunner.HandleError | plugin-server/src/worker/ingestion/event-pipeline/runner.ts:115-132 | appends the report, the error counter and, when eligible, the dead-letter block, and nothing escapes |
| Runner.EventPipelineRunner.StatsdIncrement | plugin-server/src/worker/ingestion/event-pipeline/runner.ts:79 | records the increment iff statsd is present |
| Runner.EventPipelineRunner.StatsdTiming | plugin-server/src/worker/ingestion/event-pipeline/runner.ts:80 | records the timing iff statsd is present |
| RunnerScenarios.FixtureLastStepTags | plugin-server/tests/worker/ingestion/event-pipeline/runner.test.ts:111-114 | the fixtures' team 2 is tagged `team_id: '2'` |
| RunnerScenarios.RunsAllSteps | plugin-server/tests/worker/ingestion/event-pipeline/runner.test.ts:89-100 | with the default mocks the run terminates, visits the five steps in registry order, and calls each with the previous stage's arguments |
| RunnerScenarios.AllStepsCounts | plugin-server/tests/worker/ingestion/event-pipeline/runner.test.ts:105-106 | a five-step run ending in `null` makes 5 timings and 7 increments |
| RunnerScenarios.AllStepsCounters | plugin-server/tests/worker/ingestion/event-pipeline/runner.test.ts:108-115 | that run counts `createEventStep`, counts `runAsyncHandlersStep` as last with `team_id: '2'`, and counts no error |
| RunnerScenarios.EmitsMetricsForEveryStep | plugin-server/tests/worker/ingestion/event-pipeline/runner.test.ts:102-116 | `runMainPipeline` with the default mocks: 5 timings, 7 increments, the expected step and last-step counters, no error counter |
| RunnerScenarios.EarlyExitMetrics | plugin-server/tests/worker/ingestion/event-pipeline/runner.test.ts:129-138 | a run ending in `null` at `prepareEventStep` makes 2 timings, counts it as last with `team_id: '2'`, and counts no error |
| RunnerScenarios.StopsProcessingAfterStep | plugin-server/tests/worker/ingestion/event-pipeline/runner.test.ts:118-138 | with `prepareEventStep` resolving to `null` only two steps run, with the metrics above |
| RunnerScenarios.PrepareFailureStepCounters | plugin-server/tests/worker/ingestion/event-pipeline/runner.test.ts:149-154 | when `prepareEventStep` throws, only `pluginsProcessEventStep` is step-counted |
| RunnerScenarios.PrepareFailureErrorCounter | plugin-server/tests/worker/ingestion/event-pipeline/runner.test.ts:155-158 | ...no last step is counted and `step.error` is counted for `prepareEventStep` |
| RunnerScenarios.PrepareFailureDeadLetter | plugin-server/tests/worker/ingestion/event-pipeline/runner.test.ts:161-169 | ...the built record is queued, once, and counted as a dead letter |
| RunnerScenarios.PrepareEventStepThrows | plugin-server/tests/worker/ingestion/event-pipeline/runner.test.ts:144-169 | `runMainPipeline` with `prepareEventStep` rejecting: the counters and the dead letter above |
| RunnerScenarios.AsyncHandlersFailureIsNotDeadLettered | plugin-server/tests/worker/ingestion/event-pipeline/runner.test.ts:171-178 | a rejecting `runAsyncHandlersStep` queues nothing and counts no dead letter |
| RunnerScenarios.BufferRunsRemainingSteps | plugin-server/tests/worker/ingestion/event-pipeline/runner.test.ts:183-188 | `runBufferPipeline` fetches the person first, then runs `createEventStep` with event and person, then `runAsyncHandlersStep` |

## Left out

- Stage bodies (`pluginsProcessEventStep` and the rest), `generateEventDeadLetterQueueMessage`, the Kafka producer and the database are not part of this model. They are oracles: function values from their inputs to a result or an error.
- Awaiting is not modelled. Every promise is taken as settled in program order, and there is no concurrency between runners.
- Timing durations (`new Date()` at the top of each iteration) are not kept. A timing sample records only its metric name and tags.
- `status.info` logging (runner.ts:116 and 126) is not modelled, since it has no effect on the pipeline's outcome.
- An error report records the error, the step, the arguments and the causing error. The original event in the report's extra context is not recorded, because it is a constant of the runner.
- Runner.EventPipelineRunner.RunPipeline: requires that the chain of stages terminates. A registry whose stages hand the event on forever would make the source loop forever too, and the model does not describe that run.
- PipelineTypes.IntToString: models `String(team_id)` for a safe integer team id (absolute value below 2^53), and the literal `undefined` when the runner has no original event. Outside that range JavaScript numbers are not exact integers, and from 1e21 up `String` prints exponent form (`"1e+21"`). `IntToStringRoundTrip` and `IntToStringInjective` are about unbounded integers, so they match `String` only on safe integers. Non-integer numbers are not modelled.
- Metric calls (`statsd.increment`, `statsd.timing`) and error reports (`Sentry.captureException`) are taken never to throw. In the source, a throw at runner.ts:79, 80 or 85 is caught by the `try` at runner.ts:76 and sends a successful stage to `handleError`. A throw at runner.ts:117-118 escapes `runPipeline` and skips the ingestion counter at runner.ts:58. A throwing dead-letter counter at runner.ts:124 is caught at runner.ts:125 and reported. `PipelineEffects.MainPipelineAlwaysIngests`, `PipelineEffects.RunSuccessMetrics` and the other run lemmas hold only under this assumption.
- The per-step timeout noted as a TODO at runner.ts:102 does not exist in the code and is not modelled.
- Stage arguments are reduced to the raw event, the pre-ingestion event and the optional person. The free-form property bag and the element list of events are not modelled.
- The other repository files (frontend scenes, Django settings and migrations, the warehouse API) are not part of this model.
