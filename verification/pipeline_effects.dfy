/** What a pipeline run emits: step calls, statsd counters and timings,
    dead-letter queue writes and error reports, as one ordered log; and the
    properties of that log for any run of the step loop. */
module PipelineEffects {
  import opened PipelineTypes
  import opened PipelineChain

  /** What a runner's effects depend on besides the chain it walks: its hub,
      the original event it was built with, and the dead-letter encoder. */
  datatype Context = Context(
    hub: Hub,
    originalEvent: Option<PluginEvent>,
    generateDeadLetter: DeadLetterGenerator)

  // ---------------------------------------------------------------------
  // Observing the log

  /** The effects of `log` that `keep` selects, in order. */
  function Filter(log: seq<Effect>, keep: Effect -> bool): (r: seq<Effect>)
    ensures |r| <= |log|
  {
    if log == [] then []
    else Filter(log[..|log| - 1], keep) + (if keep(Last(log)) then [Last(log)] else [])
  }

  lemma {:induction false} FilterConcat(a: seq<Effect>, b: seq<Effect>, keep: Effect -> bool)
    ensures Filter(a + b, keep) == Filter(a, keep) + Filter(b, keep)
    decreases |b|
  {
    if b == [] {
      assert a + b == a;
    } else {
      var n := |b| - 1;
      assert (a + b)[..|a + b| - 1] == a + b[..n];
      assert Last(a + b) == Last(b);
      FilterConcat(a, b[..n], keep);
    }
  }

  lemma {:induction false} FilterNone(log: seq<Effect>, keep: Effect -> bool)
    requires forall e :: e in log ==> !keep(e)
    ensures Filter(log, keep) == []
  {
    if log != [] {
      var n := |log| - 1;
      forall e | e in log[..n] ensures !keep(e) {
        assert e in log;
      }
      FilterNone(log[..n], keep);
      assert Last(log) in log;
    }
  }

  /** Selecting from `first + rest` when `rest` holds nothing selected. */
  lemma FilterBefore(first: seq<Effect>, rest: seq<Effect>, keep: Effect -> bool)
    requires forall e :: e in rest ==> !keep(e)
    ensures Filter(first + rest, keep) == Filter(first, keep)
  {
    FilterConcat(first, rest, keep);
    FilterNone(rest, keep);
  }

  /** Selecting from `first + rest` when `first` holds nothing selected. */
  lemma FilterAfter(first: seq<Effect>, rest: seq<Effect>, keep: Effect -> bool)
    requires forall e :: e in first ==> !keep(e)
    ensures Filter(first + rest, keep) == Filter(rest, keep)
  {
    FilterConcat(first, rest, keep);
    FilterNone(first, keep);
  }

  /** Two selectors that agree on every effect of `log` select the same effects. */
  lemma {:induction false} FilterSame(log: seq<Effect>, keep: Effect -> bool, other: Effect -> bool)
    requires forall e :: e in log ==> keep(e) == other(e)
    ensures Filter(log, keep) == Filter(log, other)
  {
    if log != [] {
      var n := |log| - 1;
      forall e | e in log[..n] ensures keep(e) == other(e) {
        assert e in log;
      }
      FilterSame(log[..n], keep, other);
      assert Last(log) in log;
    }
  }

  /** Nothing selected is dropped. */
  lemma {:induction false} FilterKeeps(log: seq<Effect>, keep: Effect -> bool, e: Effect)
    requires e in log && keep(e)
    ensures e in Filter(log, keep)
  {
    var n := |log| - 1;
    if e != Last(log) {
      assert log == log[..n] + [Last(log)];
      assert e in log[..n];
      FilterKeeps(log[..n], keep, e);
    }
  }

  /** Everything selected comes from the log and satisfies the selector. */
  lemma {:induction false} FilterSound(log: seq<Effect>, keep: Effect -> bool, e: Effect)
    requires e in Filter(log, keep)
    ensures e in log && keep(e)
  {
    var n := |log| - 1;
    var kept := if keep(Last(log)) then [Last(log)] else [];
    assert Filter(log, keep) == Filter(log[..n], keep) + kept;
    if e in Filter(log[..n], keep) {
      FilterSound(log[..n], keep, e);
      assert log == log[..n] + [Last(log)];
    }
  }

  /** What the selector does not return, it did not see. */
  lemma FilterExcludes(log: seq<Effect>, keep: Effect -> bool, e: Effect)
    requires keep(e) && e !in Filter(log, keep)
    ensures e !in log
  {
    if e in log {
      FilterKeeps(log, keep, e);
    }
  }

  predicate IsStepCall(e: Effect) { e.StepCalled? }
  predicate IsQueueCall(e: Effect) { e.QueueMessage? }
  predicate IsCapture(e: Effect) { e.CaptureException? }
  predicate IsIncrement(e: Effect) { e.Increment? }
  predicate IsTiming(e: Effect) { e.Timing? }

  /** `statsd.increment(name, ...)` calls. */
  function CounterNamed(name: string): Effect -> bool
  {
    (e: Effect) => e.Increment? && e.metric == name
  }

  /** `statsd.timing(name, ...)` calls. */
  function TimerNamed(name: string): Effect -> bool
  {
    (e: Effect) => e.Timing? && e.metric == name
  }

  // ---------------------------------------------------------------------
  // What one iteration emits

  /** The runner holds the original event and the failing step is one of the
      pre-durability steps. */
  predicate DeadLetterEligible(ctx: Context, step: StepType)
  {
    ctx.originalEvent.Some? && step in StepsToEmitToDlqOnFailure
  }

  /** The guarded block of `handleError`: build the record, queue it, count
      it; any error on the way is reported and goes no further. */
  function DeadLetterEffects(ctx: Context, event: PluginEvent, err: Error, step: StepType, args: seq<Arg>): seq<Effect>
  {
    var generated := ctx.generateDeadLetter(event, err);
    if generated.Err? then [CaptureException(generated.error, step, args, Some(err))]
    else if ctx.hub.kafkaProducer.None? then [CaptureException(ProducerMissing, step, args, Some(err))]
    else
      var queued := ctx.hub.kafkaProducer.value(generated.value);
      [QueueMessage(generated.value)] +
      if queued.Ok? then Stat(ctx.hub, Increment(DeadLetterCounter, map[]))
      else [CaptureException(queued.error, step, args, Some(err))]
  }

  /** `handleError(err, step, args)`: report, count the error, then dead-letter
      when eligible. */
  function HandleErrorEffects(ctx: Context, err: Error, step: StepType, args: seq<Arg>): seq<Effect>
  {
    [CaptureException(err, step, args, None)] +
    Stat(ctx.hub, Increment(StepErrorCounter, StepTag(step))) +
    if DeadLetterEligible(ctx, step) then DeadLetterEffects(ctx, ctx.originalEvent.value, err, step, args) else []
  }

  /** One iteration of the loop in `runPipeline`. */
  function VisitEffects(ctx: Context, v: Visit): seq<Effect>
  {
    [StepCalled(v.step, v.args)] +
    if v.outcome.Returned? then
      Stat(ctx.hub, Increment(StepCounter, StepTag(v.step))) +
      Stat(ctx.hub, Timing(StepTimer, StepTag(v.step))) +
      (if v.outcome.result.End? then Stat(ctx.hub, Increment(LastStepCounter, LastStepTags(v.step, ctx.originalEvent))) else [])
    else HandleErrorEffects(ctx, v.outcome.error, v.step, v.args)
  }

  /** Every iteration of a walk, in order. */
  function TraceEffects(ctx: Context, tr: seq<Visit>): seq<Effect>
  {
    if tr == [] then [] else TraceEffects(ctx, tr[..|tr| - 1]) + VisitEffects(ctx, Last(tr))
  }

  /** `runMainPipeline(event)`: the chain from `pluginsProcessEventStep`, then the
      ingestion counter. */
  ghost function MainPipelineEffects(ctx: Context, steps: StepRegistry, event: PluginEvent): seq<Effect>
    requires Terminates(steps, PluginsProcessEventStep, [RawArg(event)])
  {
    TraceEffects(ctx, Chain(steps, PluginsProcessEventStep, [RawArg(event)])) +
    Stat(ctx.hub, Increment(MainIngestedCounter, map[]))
  }

  /** The arguments `runBufferPipeline` starts `createEventStep` with. */
  function BufferArgs(event: PreIngestionEvent, person: Option<Person>): seq<Arg>
  {
    [PreIngestionArg(event), PersonArg(person)]
  }

  /** The chains the buffer path can start terminate once the person is fetched. */
  ghost predicate BufferTerminates(ctx: Context, steps: StepRegistry, event: PreIngestionEvent)
  {
    var fetched := ctx.hub.fetchPerson(event.teamId, event.distinctId);
    fetched.Ok? ==> Terminates(steps, CreateEventStep, BufferArgs(event, fetched.value))
  }

  /** `runBufferPipeline(event)`: fetch the person; if that rejects, stop (the
      rejection reaches the caller); otherwise the chain from `createEventStep`,
      then the buffer ingestion counter. */
  ghost function BufferPipelineEffects(ctx: Context, steps: StepRegistry, event: PreIngestionEvent): seq<Effect>
    requires BufferTerminates(ctx, steps, event)
  {
    var fetched := ctx.hub.fetchPerson(event.teamId, event.distinctId);
    [FetchPerson(event.teamId, event.distinctId)] +
    if fetched.Err? then []
    else
      TraceEffects(ctx, Chain(steps, CreateEventStep, BufferArgs(event, fetched.value))) +
      Stat(ctx.hub, Increment(BufferIngestedCounter, map[]))
  }

  // ---------------------------------------------------------------------
  // Reference sequences the properties compare against

  /** One `StepCalled` per visit, with that visit's step and arguments. */
  function Calls(tr: seq<Visit>): (r: seq<Effect>)
    ensures |r| == |tr|
    ensures forall i :: 0 <= i < |tr| ==> r[i] == StepCalled(tr[i].step, tr[i].args)
  {
    if tr == [] then [] else Calls(tr[..|tr| - 1]) + [StepCalled(Last(tr).step, Last(tr).args)]
  }

  /** The steps of the visits that returned without throwing. */
  function SucceededSteps(tr: seq<Visit>): (r: seq<StepType>)
    ensures |r| <= |tr|
  {
    if tr == [] then []
    else SucceededSteps(tr[..|tr| - 1]) + (if Last(tr).outcome.Returned? then [Last(tr).step] else [])
  }

  /** One `kafka_queue.event_pipeline.step` counter per step, tagged with it. */
  function StepCounters(hub: Hub, names: seq<StepType>): (r: seq<Effect>)
    ensures |r| == if hub.statsdPresent then |names| else 0
    ensures forall i :: 0 <= i < |r| ==> r[i] == Increment(StepCounter, StepTag(names[i]))
  {
    if names == [] then []
    else StepCounters(hub, names[..|names| - 1]) + Stat(hub, Increment(StepCounter, StepTag(Last(names))))
  }

  /** One `kafka_queue.event_pipeline.step.timing` sample per step, tagged with it. */
  function StepTimings(hub: Hub, names: seq<StepType>): (r: seq<Effect>)
    ensures |r| == if hub.statsdPresent then |names| else 0
    ensures forall i :: 0 <= i < |r| ==> r[i] == Timing(StepTimer, StepTag(names[i]))
  {
    if names == [] then []
    else StepTimings(hub, names[..|names| - 1]) + Stat(hub, Timing(StepTimer, StepTag(Last(names))))
  }

  /** The dead-letter record that gets queued for `err`, if building it succeeds
      and a producer is there to call. */
  function QueuedDeadLetter(ctx: Context, err: Error): (r: seq<Effect>)
    requires ctx.originalEvent.Some?
    ensures |r| <= 1
  {
    var generated := ctx.generateDeadLetter(ctx.originalEvent.value, err);
    if generated.Ok? && ctx.hub.kafkaProducer.Some? then [QueueMessage(generated.value)] else []
  }

  /** Building, queueing and the producer call all succeeded. */
  predicate DeadLetterDelivered(ctx: Context, err: Error)
    requires ctx.originalEvent.Some?
  {
    var generated := ctx.generateDeadLetter(ctx.originalEvent.value, err);
    && generated.Ok?
    && ctx.hub.kafkaProducer.Some?
    && ctx.hub.kafkaProducer.value(generated.value).Ok?
  }

  // ---------------------------------------------------------------------
  // One iteration

  lemma FilterSingle(e: Effect, keep: Effect -> bool)
    ensures Filter([e], keep) == if keep(e) then [e] else []
  {
    assert [e][..0] == [];
  }

  lemma FilterStat(hub: Hub, e: Effect, keep: Effect -> bool)
    requires e.Increment? || e.Timing?
    ensures Filter(Stat(hub, e), keep) == if hub.statsdPresent && keep(e) then [e] else []
  {
    FilterSingle(e, keep);
  }

  /** The only calls one iteration makes are the step call, the four counters
      of the loop and `handleError`, the step timing, a queue write and error
      reports. */
  lemma VisitEffectKinds(ctx: Context, v: Visit)
    ensures forall e :: e in VisitEffects(ctx, v) ==>
      && !e.FetchPerson?
      && (e.Increment? ==> e.metric in {StepCounter, LastStepCounter, StepErrorCounter, DeadLetterCounter})
      && (e.Timing? ==> e.metric == StepTimer)
  {
  }

  /** A visit that continues the loop emits its step call, its step counter and
      its timing, and nothing else. */
  lemma ContinuingVisitEffects(ctx: Context, v: Visit)
    requires !Terminal(v.outcome)
    ensures forall e :: e in VisitEffects(ctx, v) ==>
      e == StepCalled(v.step, v.args) || e == Increment(StepCounter, StepTag(v.step)) || e == Timing(StepTimer, StepTag(v.step))
  {
  }

  /** Each iteration calls its stage exactly once, first. */
  lemma VisitStepCalls(ctx: Context, v: Visit)
    ensures Filter(VisitEffects(ctx, v), IsStepCall) == [StepCalled(v.step, v.args)]
  {
    var head := [StepCalled(v.step, v.args)];
    var tail := VisitEffects(ctx, v)[1..];
    assert VisitEffects(ctx, v) == head + tail;
    FilterBefore(head, tail, IsStepCall);
    FilterSingle(StepCalled(v.step, v.args), IsStepCall);
  }

  /** `handleError` reports errors, counts the step error, queues a dead
      letter and counts it, and calls nothing else. */
  lemma HandleErrorKinds(ctx: Context, err: Error, step: StepType, args: seq<Arg>)
    ensures forall e :: e in HandleErrorEffects(ctx, err, step, args) ==>
      || e.CaptureException?
      || e.QueueMessage?
      || e == Increment(StepErrorCounter, StepTag(step))
      || e == Increment(DeadLetterCounter, map[])
  {
  }

  /** An iteration counts its step exactly when the stage returned. */
  lemma VisitStepCounter(ctx: Context, v: Visit)
    ensures Filter(VisitEffects(ctx, v), CounterNamed(StepCounter)) ==
      if v.outcome.Returned? then Stat(ctx.hub, Increment(StepCounter, StepTag(v.step))) else []
  {
    var keep := CounterNamed(StepCounter);
    if v.outcome.Returned? {
      var inc := Stat(ctx.hub, Increment(StepCounter, StepTag(v.step)));
      var tim := Stat(ctx.hub, Timing(StepTimer, StepTag(v.step)));
      var last := if v.outcome.result.End? then Stat(ctx.hub, Increment(LastStepCounter, LastStepTags(v.step, ctx.originalEvent))) else [];
      ReturnedVisitEffects(ctx, v);
      assert VisitEffects(ctx, v) == [StepCalled(v.step, v.args)] + (inc + (tim + last));
      FilterAfter([StepCalled(v.step, v.args)], inc + (tim + last), keep);
      FilterBefore(inc, tim + last, keep);
      FilterStat(ctx.hub, Increment(StepCounter, StepTag(v.step)), keep);
    } else {
      ThrowingVisit(ctx, v, keep);
      HandleErrorKinds(ctx, v.outcome.error, v.step, v.args);
      FilterNone(HandleErrorEffects(ctx, v.outcome.error, v.step, v.args), keep);
    }
  }

  /** An iteration samples its timing exactly when the stage returned. */
  lemma VisitStepTiming(ctx: Context, v: Visit)
    ensures Filter(VisitEffects(ctx, v), TimerNamed(StepTimer)) ==
      if v.outcome.Returned? then Stat(ctx.hub, Timing(StepTimer, StepTag(v.step))) else []
  {
    var keep := TimerNamed(StepTimer);
    var head := [StepCalled(v.step, v.args)];
    var tail := VisitEffects(ctx, v)[1..];
    assert VisitEffects(ctx, v) == head + tail;
    FilterAfter(head, tail, keep);
    if v.outcome.Returned? {
      var inc := Stat(ctx.hub, Increment(StepCounter, StepTag(v.step)));
      var tim := Stat(ctx.hub, Timing(StepTimer, StepTag(v.step)));
      var last := if v.outcome.result.End? then Stat(ctx.hub, Increment(LastStepCounter, LastStepTags(v.step, ctx.originalEvent))) else [];
      assert tail == inc + (tim + last);
      FilterAfter(inc, tim + last, keep);
      FilterBefore(tim, last, keep);
      FilterStat(ctx.hub, Timing(StepTimer, StepTag(v.step)), keep);
    } else {
      HandleErrorKinds(ctx, v.outcome.error, v.step, v.args);
      FilterNone(tail, keep);
    }
  }

  /** A returning iteration emits its step call, step counter and timing, and
      the last-step counter when the stage returned `null`; nothing else. */
  lemma ReturnedVisitKinds(ctx: Context, v: Visit)
    requires v.outcome.Returned?
    ensures forall e :: e in VisitEffects(ctx, v) ==>
      || e == StepCalled(v.step, v.args)
      || e == Increment(StepCounter, StepTag(v.step))
      || e == Timing(StepTimer, StepTag(v.step))
      || e == Increment(LastStepCounter, LastStepTags(v.step, ctx.originalEvent))
  {
  }

  /** A throwing iteration: its stage call, then exactly what `handleError` does. */
  lemma ThrowingVisit(ctx: Context, v: Visit, keep: Effect -> bool)
    requires v.outcome.Threw?
    requires !keep(StepCalled(v.step, v.args))
    ensures Filter(VisitEffects(ctx, v), keep) == Filter(HandleErrorEffects(ctx, v.outcome.error, v.step, v.args), keep)
  {
    FilterAfter([StepCalled(v.step, v.args)], HandleErrorEffects(ctx, v.outcome.error, v.step, v.args), keep);
  }

  // ---------------------------------------------------------------------
  // handleError

  /** The dead-letter block queues, counts and reports; it calls nothing else. */
  lemma DeadLetterKinds(ctx: Context, event: PluginEvent, err: Error, step: StepType, args: seq<Arg>)
    ensures forall e :: e in DeadLetterEffects(ctx, event, err, step, args) ==>
      e.CaptureException? || e.QueueMessage? || e == Increment(DeadLetterCounter, map[])
  {
  }

  /** `handleError` counts the failing step's error exactly once. */
  lemma HandleErrorCountsOnce(ctx: Context, err: Error, step: StepType, args: seq<Arg>)
    ensures Filter(HandleErrorEffects(ctx, err, step, args), CounterNamed(StepErrorCounter)) ==
      Stat(ctx.hub, Increment(StepErrorCounter, StepTag(step)))
  {
    var keep := CounterNamed(StepErrorCounter);
    var first := [CaptureException(err, step, args, None)];
    var inc := Stat(ctx.hub, Increment(StepErrorCounter, StepTag(step)));
    var dlq := if DeadLetterEligible(ctx, step) then DeadLetterEffects(ctx, ctx.originalEvent.value, err, step, args) else [];
    if DeadLetterEligible(ctx, step) {
      DeadLetterKinds(ctx, ctx.originalEvent.value, err, step, args);
    }
    calc {
      Filter(HandleErrorEffects(ctx, err, step, args), keep);
    == { HandleErrorParts(ctx, err, step, args); FilterAfter(first, inc + dlq, keep); }
      Filter(inc + dlq, keep);
    == { FilterBefore(inc, dlq, keep); }
      Filter(inc, keep);
    == { FilterStat(ctx.hub, Increment(StepErrorCounter, StepTag(step)), keep); }
      inc;
    }
  }

  /** The dead-letter block of `handleError`, isolated from what precedes it. */
  lemma HandleErrorTail(ctx: Context, err: Error, step: StepType, args: seq<Arg>, keep: Effect -> bool)
    requires !keep(CaptureException(err, step, args, None))
    requires !keep(Increment(StepErrorCounter, StepTag(step)))
    ensures Filter(HandleErrorEffects(ctx, err, step, args), keep) ==
      if DeadLetterEligible(ctx, step) then Filter(DeadLetterEffects(ctx, ctx.originalEvent.value, err, step, args), keep) else []
  {
    var head := [CaptureException(err, step, args, None)] + Stat(ctx.hub, Increment(StepErrorCounter, StepTag(step)));
    var dlq := if DeadLetterEligible(ctx, step) then DeadLetterEffects(ctx, ctx.originalEvent.value, err, step, args) else [];
    assert HandleErrorEffects(ctx, err, step, args) == head + dlq;
    FilterAfter(head, dlq, keep);
    if !DeadLetterEligible(ctx, step) {
      FilterNone(dlq, keep);
    }
  }

  /** The record reaches `queueMessage` exactly when it could be built and
      there is a producer. */
  lemma DeadLetterQueues(ctx: Context, err: Error, step: StepType, args: seq<Arg>)
    requires ctx.originalEvent.Some?
    ensures Filter(DeadLetterEffects(ctx, ctx.originalEvent.value, err, step, args), IsQueueCall) == QueuedDeadLetter(ctx, err)
  {
    var event := ctx.originalEvent.value;
    var generated := ctx.generateDeadLetter(event, err);
    var dlq := DeadLetterEffects(ctx, event, err, step, args);
    if generated.Err? || ctx.hub.kafkaProducer.None? {
      assert dlq == [dlq[0]];
      FilterSingle(dlq[0], IsQueueCall);
    } else {
      var queued := ctx.hub.kafkaProducer.value(generated.value);
      var rest := if queued.Ok? then Stat(ctx.hub, Increment(DeadLetterCounter, map[]))
        else [CaptureException(queued.error, step, args, Some(err))];
      assert dlq == [QueueMessage(generated.value)] + rest;
      FilterBefore([QueueMessage(generated.value)], rest, IsQueueCall);
      FilterSingle(QueueMessage(generated.value), IsQueueCall);
    }
  }

  /** The dead-letter counter follows a successful `queueMessage` and nothing else. */
  lemma DeadLetterCounted(ctx: Context, err: Error, step: StepType, args: seq<Arg>)
    requires ctx.originalEvent.Some?
    ensures Filter(DeadLetterEffects(ctx, ctx.originalEvent.value, err, step, args), CounterNamed(DeadLetterCounter)) ==
      if ctx.hub.statsdPresent && DeadLetterDelivered(ctx, err) then [Increment(DeadLetterCounter, map[])] else []
  {
    var keep := CounterNamed(DeadLetterCounter);
    var event := ctx.originalEvent.value;
    var generated := ctx.generateDeadLetter(event, err);
    var dlq := DeadLetterEffects(ctx, event, err, step, args);
    if generated.Err? || ctx.hub.kafkaProducer.None? {
      assert dlq == [dlq[0]];
      FilterSingle(dlq[0], keep);
    } else {
      var queued := ctx.hub.kafkaProducer.value(generated.value);
      var rest := if queued.Ok? then Stat(ctx.hub, Increment(DeadLetterCounter, map[]))
        else [CaptureException(queued.error, step, args, Some(err))];
      assert dlq == [QueueMessage(generated.value)] + rest;
      FilterAfter([QueueMessage(generated.value)], rest, keep);
      if queued.Ok? {
        FilterStat(ctx.hub, Increment(DeadLetterCounter, map[]), keep);
      } else {
        FilterSingle(rest[0], keep);
      }
    }
  }

  /** A failure to build or to queue the record is reported once, with the
      step's error as its cause; a delivered record reports nothing. */
  lemma DeadLetterReports(ctx: Context, err: Error, step: StepType, args: seq<Arg>)
    requires ctx.originalEvent.Some?
    ensures var reports := Filter(DeadLetterEffects(ctx, ctx.originalEvent.value, err, step, args), IsCapture);
      && |reports| == (if DeadLetterDelivered(ctx, err) then 0 else 1)
      && (|reports| == 1 ==> reports[0].step == step && reports[0].cause == Some(err))
  {
    var event := ctx.originalEvent.value;
    var generated := ctx.generateDeadLetter(event, err);
    var dlq := DeadLetterEffects(ctx, event, err, step, args);
    if generated.Err? || ctx.hub.kafkaProducer.None? {
      assert dlq == [dlq[0]];
      FilterSingle(dlq[0], IsCapture);
    } else {
      var queued := ctx.hub.kafkaProducer.value(generated.value);
      var rest := if queued.Ok? then Stat(ctx.hub, Increment(DeadLetterCounter, map[]))
        else [CaptureException(queued.error, step, args, Some(err))];
      assert dlq == [QueueMessage(generated.value)] + rest;
      FilterAfter([QueueMessage(generated.value)], rest, IsCapture);
      if queued.Ok? {
        FilterStat(ctx.hub, Increment(DeadLetterCounter, map[]), IsCapture);
      } else {
        FilterSingle(rest[0], IsCapture);
      }
    }
  }

  /** The dead-letter record is queued exactly when the runner holds the
      original event, the failing step is pre-durability, the record could be
      built and there is a producer to call. */
  lemma HandleErrorQueues(ctx: Context, err: Error, step: StepType, args: seq<Arg>)
    ensures Filter(HandleErrorEffects(ctx, err, step, args), IsQueueCall) ==
      if DeadLetterEligible(ctx, step) then QueuedDeadLetter(ctx, err) else []
  {
    HandleErrorTail(ctx, err, step, args, IsQueueCall);
    if DeadLetterEligible(ctx, step) {
      DeadLetterQueues(ctx, err, step, args);
    }
  }

  /** `events_added_to_dead_letter_queue` is counted once, and only after the
      producer accepted the record. */
  lemma HandleErrorCountsDeadLetter(ctx: Context, err: Error, step: StepType, args: seq<Arg>)
    ensures Filter(HandleErrorEffects(ctx, err, step, args), CounterNamed(DeadLetterCounter)) ==
      if ctx.hub.statsdPresent && DeadLetterEligible(ctx, step) && DeadLetterDelivered(ctx, err)
      then [Increment(DeadLetterCounter, map[])] else []
  {
    HandleErrorTail(ctx, err, step, args, CounterNamed(DeadLetterCounter));
    if DeadLetterEligible(ctx, step) {
      DeadLetterCounted(ctx, err, step, args);
    }
  }

  /** `handleError` in three parts: the report, the error counter, the
      dead-letter block. */
  lemma HandleErrorParts(ctx: Context, err: Error, step: StepType, args: seq<Arg>)
    ensures HandleErrorEffects(ctx, err, step, args) ==
      [CaptureException(err, step, args, None)] +
      (Stat(ctx.hub, Increment(StepErrorCounter, StepTag(step))) +
       if DeadLetterEligible(ctx, step) then DeadLetterEffects(ctx, ctx.originalEvent.value, err, step, args) else [])
  {
  }

  /** The step's error is always reported, first; a failure to build or queue
      the dead-letter record is reported once more, with the step error as its
      cause, and goes no further. */
  lemma HandleErrorReports(ctx: Context, err: Error, step: StepType, args: seq<Arg>)
    ensures var reports := Filter(HandleErrorEffects(ctx, err, step, args), IsCapture);
      && |reports| == (if DeadLetterEligible(ctx, step) && !DeadLetterDelivered(ctx, err) then 2 else 1)
      && reports[0] == CaptureException(err, step, args, None)
      && (|reports| == 2 ==> reports[1].step == step && reports[1].cause == Some(err))
  {
    var first := [CaptureException(err, step, args, None)];
    var inc := Stat(ctx.hub, Increment(StepErrorCounter, StepTag(step)));
    var dlq := if DeadLetterEligible(ctx, step) then DeadLetterEffects(ctx, ctx.originalEvent.value, err, step, args) else [];
    var reports := Filter(HandleErrorEffects(ctx, err, step, args), IsCapture);
    var later := Filter(dlq, IsCapture);
    calc {
      reports;
    == { HandleErrorParts(ctx, err, step, args); FilterConcat(first, inc + dlq, IsCapture); }
      Filter(first, IsCapture) + Filter(inc + dlq, IsCapture);
    == { FilterSingle(CaptureException(err, step, args, None), IsCapture); FilterAfter(inc, dlq, IsCapture); }
      first + later;
    }
    if DeadLetterEligible(ctx, step) {
      DeadLetterReports(ctx, err, step, args);
      assert |later| == (if DeadLetterDelivered(ctx, err) then 0 else 1);
    } else {
      assert later == [];
    }
    assert reports[0] == CaptureException(err, step, args, None);
    if |reports| == 2 {
      assert reports[1] == later[0];
    }
  }

  // ---------------------------------------------------------------------
  // One visit, terminal observers

  /** Only an iteration whose stage returned `null` emits the last-step counter. */
  lemma VisitLastStepCounter(ctx: Context, v: Visit)
    ensures Filter(VisitEffects(ctx, v), CounterNamed(LastStepCounter)) ==
      if v.outcome == Returned(End) then Stat(ctx.hub, Increment(LastStepCounter, LastStepTags(v.step, ctx.originalEvent))) else []
  {
    var keep := CounterNamed(LastStepCounter);
    if v.outcome.Returned? {
      var head := [StepCalled(v.step, v.args)] + Stat(ctx.hub, Increment(StepCounter, StepTag(v.step))) +
        Stat(ctx.hub, Timing(StepTimer, StepTag(v.step)));
      var last := if v.outcome.result.End? then Stat(ctx.hub, Increment(LastStepCounter, LastStepTags(v.step, ctx.originalEvent))) else [];
      assert VisitEffects(ctx, v) == head + last;
      FilterAfter(head, last, keep);
      if v.outcome.result.End? {
        FilterStat(ctx.hub, Increment(LastStepCounter, LastStepTags(v.step, ctx.originalEvent)), keep);
      } else {
        FilterNone(last, keep);
      }
    } else {
      HandleErrorKinds(ctx, v.outcome.error, v.step, v.args);
      ThrowingVisit(ctx, v, keep);
      FilterNone(HandleErrorEffects(ctx, v.outcome.error, v.step, v.args), keep);
    }
  }

  /** Only an iteration whose stage threw emits the step-error counter, once. */
  lemma VisitErrorCounter(ctx: Context, v: Visit)
    ensures Filter(VisitEffects(ctx, v), CounterNamed(StepErrorCounter)) ==
      if v.outcome.Threw? then Stat(ctx.hub, Increment(StepErrorCounter, StepTag(v.step))) else []
  {
    var keep := CounterNamed(StepErrorCounter);
    if v.outcome.Returned? {
      ReturnedVisitKinds(ctx, v);
      FilterNone(VisitEffects(ctx, v), keep);
    } else {
      ThrowingVisit(ctx, v, keep);
      HandleErrorCountsOnce(ctx, v.outcome.error, v.step, v.args);
    }
  }

  /** What an iteration's `handleError` does, seen through a selector that
      returning iterations never trigger. */
  lemma VisitErrorOnly(ctx: Context, v: Visit, keep: Effect -> bool)
    requires !keep(StepCalled(v.step, v.args))
    requires !keep(Increment(StepCounter, StepTag(v.step)))
    requires !keep(Timing(StepTimer, StepTag(v.step)))
    requires !keep(Increment(LastStepCounter, LastStepTags(v.step, ctx.originalEvent)))
    ensures Filter(VisitEffects(ctx, v), keep) ==
      if v.outcome.Threw? then Filter(HandleErrorEffects(ctx, v.outcome.error, v.step, v.args), keep) else []
  {
    if v.outcome.Returned? {
      ReturnedVisitKinds(ctx, v);
      FilterNone(VisitEffects(ctx, v), keep);
    } else {
      ThrowingVisit(ctx, v, keep);
    }
  }

  // ---------------------------------------------------------------------
  // Whole runs

  /** No visit of `tr` ends the loop. */
  predicate Continuing(tr: seq<Visit>)
  {
    forall i :: 0 <= i < |tr| ==> !Terminal(tr[i].outcome)
  }

  /** Every visit of a halted chain but the last continued the loop. */
  lemma ChainedPrefix(tr: seq<Visit>)
    requires Chained(tr) && Halts(tr)
    ensures Continuing(tr[..|tr| - 1])
  {
    var p := tr[..|tr| - 1];
    forall i | 0 <= i < |p| ensures !Terminal(p[i].outcome) {
      assert p[i].outcome == Returned(Next(tr[i + 1].step, tr[i + 1].args));
    }
  }

  /** Iterations that continue the loop call their stage, count it and time
      it, and nothing else. */
  lemma {:induction false} ContinuingEffects(ctx: Context, tr: seq<Visit>)
    requires Continuing(tr)
    ensures forall e :: e in TraceEffects(ctx, tr) ==>
      e.StepCalled? || (e.Increment? && e.metric == StepCounter) || (e.Timing? && e.metric == StepTimer)
  {
    if tr != [] {
      var n := |tr| - 1;
      assert Continuing(tr[..n]);
      ContinuingEffects(ctx, tr[..n]);
      ContinuingVisitEffects(ctx, tr[n]);
    }
  }

  /** For an observer the continuing iterations never trigger, a run looks
      like its last iteration. */
  lemma RunTail(ctx: Context, tr: seq<Visit>, keep: Effect -> bool)
    requires Chained(tr) && Halts(tr)
    requires forall e: Effect :: e.StepCalled? ==> !keep(e)
    requires forall tags: Tags :: !keep(Increment(StepCounter, tags)) && !keep(Timing(StepTimer, tags))
    ensures Filter(TraceEffects(ctx, tr), keep) == Filter(VisitEffects(ctx, Last(tr)), keep)
  {
    var n := |tr| - 1;
    ChainedPrefix(tr);
    ContinuingEffects(ctx, tr[..n]);
    FilterAfter(TraceEffects(ctx, tr[..n]), VisitEffects(ctx, Last(tr)), keep);
  }

  /** Step order: the stage calls of a run are its visits, in order, each
      with the step and arguments the previous stage chose. */
  lemma {:induction false} RunStepCalls(ctx: Context, tr: seq<Visit>)
    ensures Filter(TraceEffects(ctx, tr), IsStepCall) == Calls(tr)
  {
    if tr != [] {
      var n := |tr| - 1;
      RunStepCalls(ctx, tr[..n]);
      FilterConcat(TraceEffects(ctx, tr[..n]), VisitEffects(ctx, tr[n]), IsStepCall);
      VisitStepCalls(ctx, tr[n]);
    }
  }

  lemma StepCountersSnoc(hub: Hub, names: seq<StepType>, s: StepType)
    ensures StepCounters(hub, names + [s]) == StepCounters(hub, names) + Stat(hub, Increment(StepCounter, StepTag(s)))
  {
    assert (names + [s])[..|names|] == names;
  }

  lemma StepTimingsSnoc(hub: Hub, names: seq<StepType>, s: StepType)
    ensures StepTimings(hub, names + [s]) == StepTimings(hub, names) + Stat(hub, Timing(StepTimer, StepTag(s)))
  {
    assert (names + [s])[..|names|] == names;
  }

  /** Every visit whose stage returned is counted and timed once, tagged with
      its step; no other visit is. */
  lemma RunSucceededMetrics(ctx: Context, tr: seq<Visit>)
    ensures Filter(TraceEffects(ctx, tr), CounterNamed(StepCounter)) == StepCounters(ctx.hub, SucceededSteps(tr))
    ensures Filter(TraceEffects(ctx, tr), TimerNamed(StepTimer)) == StepTimings(ctx.hub, SucceededSteps(tr))
  {
    RunSucceededCounters(ctx, tr);
    RunSucceededTimings(ctx, tr);
  }

  lemma {:induction false} RunSucceededCounters(ctx: Context, tr: seq<Visit>)
    ensures Filter(TraceEffects(ctx, tr), CounterNamed(StepCounter)) == StepCounters(ctx.hub, SucceededSteps(tr))
  {
    if tr != [] {
      var n := |tr| - 1;
      var v, pre := tr[n], tr[..n];
      var keep := CounterNamed(StepCounter);
      calc {
        Filter(TraceEffects(ctx, tr), keep);
      == { FilterConcat(TraceEffects(ctx, pre), VisitEffects(ctx, v), keep); }
        Filter(TraceEffects(ctx, pre), keep) + Filter(VisitEffects(ctx, v), keep);
      == { RunSucceededCounters(ctx, pre); VisitStepCounter(ctx, v); }
        StepCounters(ctx.hub, SucceededSteps(pre)) + if v.outcome.Returned? then Stat(ctx.hub, Increment(StepCounter, StepTag(v.step))) else [];
      == { StepCountersSnoc(ctx.hub, SucceededSteps(pre), v.step); }
        StepCounters(ctx.hub, SucceededSteps(pre) + if v.outcome.Returned? then [v.step] else []);
      }
    }
  }

  lemma {:induction false} RunSucceededTimings(ctx: Context, tr: seq<Visit>)
    ensures Filter(TraceEffects(ctx, tr), TimerNamed(StepTimer)) == StepTimings(ctx.hub, SucceededSteps(tr))
  {
    if tr != [] {
      var n := |tr| - 1;
      var v, pre := tr[n], tr[..n];
      var keep := TimerNamed(StepTimer);
      calc {
        Filter(TraceEffects(ctx, tr), keep);
      == { FilterConcat(TraceEffects(ctx, pre), VisitEffects(ctx, v), keep); }
        Filter(TraceEffects(ctx, pre), keep) + Filter(VisitEffects(ctx, v), keep);
      == { RunSucceededTimings(ctx, pre); VisitStepTiming(ctx, v); }
        StepTimings(ctx.hub, SucceededSteps(pre)) + if v.outcome.Returned? then Stat(ctx.hub, Timing(StepTimer, StepTag(v.step))) else [];
      == { StepTimingsSnoc(ctx.hub, SucceededSteps(pre), v.step); }
        StepTimings(ctx.hub, SucceededSteps(pre) + if v.outcome.Returned? then [v.step] else []);
      }
    }
  }

  lemma {:induction false} ContinuingSucceeded(tr: seq<Visit>)
    requires Continuing(tr)
    ensures SucceededSteps(tr) == Steps(tr)
  {
    if tr != [] {
      var n := |tr| - 1;
      assert Continuing(tr[..n]);
      ContinuingSucceeded(tr[..n]);
    }
  }

  /** In a run, every step returned except one that threw last. */
  lemma SucceededStepsOfRun(tr: seq<Visit>)
    requires Chained(tr) && Halts(tr)
    ensures SucceededSteps(tr) == if Last(tr).outcome.Threw? then Steps(tr)[..|tr| - 1] else Steps(tr)
  {
    var n := |tr| - 1;
    ChainedPrefix(tr);
    ContinuingSucceeded(tr[..n]);
    assert tr[..n] + [tr[n]] == tr;
    assert Steps(tr)[..n] == Steps(tr[..n]);
    assert Steps(tr) == Steps(tr[..n]) + [tr[n].step];
  }

  /** Success metrics: in a run, every step but one that threw is counted
      and timed once, tagged with its name, in the order the steps ran. */
  lemma RunSuccessMetrics(ctx: Context, tr: seq<Visit>)
    requires Chained(tr) && Halts(tr)
    ensures var ok := if Last(tr).outcome.Threw? then Steps(tr)[..|tr| - 1] else Steps(tr);
      && Filter(TraceEffects(ctx, tr), CounterNamed(StepCounter)) == StepCounters(ctx.hub, ok)
      && Filter(TraceEffects(ctx, tr), TimerNamed(StepTimer)) == StepTimings(ctx.hub, ok)
  {
    RunSucceededMetrics(ctx, tr);
    SucceededStepsOfRun(tr);
  }

  /** The run's last visit alone decides the last-step and error counters:
      a `null` result gives one `step.last` counter tagged with that step and
      the team, a throw gives one `step.error` counter tagged with that step. */
  lemma RunTerminalCounters(ctx: Context, tr: seq<Visit>)
    requires Chained(tr) && Halts(tr)
    ensures var last := Last(tr);
      && Filter(TraceEffects(ctx, tr), CounterNamed(LastStepCounter)) ==
           (if last.outcome.Returned? then Stat(ctx.hub, Increment(LastStepCounter, LastStepTags(last.step, ctx.originalEvent))) else [])
      && Filter(TraceEffects(ctx, tr), CounterNamed(StepErrorCounter)) ==
           (if last.outcome.Threw? then Stat(ctx.hub, Increment(StepErrorCounter, StepTag(last.step))) else [])
  {
    RunTail(ctx, tr, CounterNamed(LastStepCounter));
    RunTail(ctx, tr, CounterNamed(StepErrorCounter));
    VisitLastStepCounter(ctx, Last(tr));
    VisitErrorCounter(ctx, Last(tr));
  }

  /** Dead-lettering in a run: the record reaches `queueMessage`, and the
      dead-letter counter is bumped, only for a failing last step; and only
      if `handleError` would do so for it. */
  lemma RunDeadLetter(ctx: Context, tr: seq<Visit>)
    requires Chained(tr) && Halts(tr)
    ensures var last := Last(tr);
      && Filter(TraceEffects(ctx, tr), IsQueueCall) ==
           (if last.outcome.Threw? && DeadLetterEligible(ctx, last.step) then QueuedDeadLetter(ctx, last.outcome.error) else [])
      && Filter(TraceEffects(ctx, tr), CounterNamed(DeadLetterCounter)) ==
           (if last.outcome.Threw? && ctx.hub.statsdPresent && DeadLetterEligible(ctx, last.step) && DeadLetterDelivered(ctx, last.outcome.error)
            then [Increment(DeadLetterCounter, map[])] else [])
  {
    var last := Last(tr);
    RunTail(ctx, tr, IsQueueCall);
    RunTail(ctx, tr, CounterNamed(DeadLetterCounter));
    VisitErrorOnly(ctx, last, IsQueueCall);
    VisitErrorOnly(ctx, last, CounterNamed(DeadLetterCounter));
    if last.outcome.Threw? {
      HandleErrorQueues(ctx, last.outcome.error, last.step, last.args);
      HandleErrorCountsDeadLetter(ctx, last.outcome.error, last.step, last.args);
    }
  }

  /** The dead-letter condition: a record is queued if and only if a step
      threw, the runner holds the original event, that step is one of the
      four pre-durability steps, the record could be built and a producer
      exists. */
  lemma RunDeadLetterIff(ctx: Context, tr: seq<Visit>)
    requires Chained(tr) && Halts(tr)
    ensures var last := Last(tr);
      Filter(TraceEffects(ctx, tr), IsQueueCall) != [] <==>
        && last.outcome.Threw?
        && ctx.originalEvent.Some?
        && last.step in StepsToEmitToDlqOnFailure
        && ctx.generateDeadLetter(ctx.originalEvent.value, last.outcome.error).Ok?
        && ctx.hub.kafkaProducer.Some?
  {
    RunDeadLetter(ctx, tr);
  }

  /** A failure in `runAsyncHandlersStep`, after the event was stored, is
      never dead-lettered and never counted as such. */
  lemma RunNoDeadLetterAfterCreate(ctx: Context, tr: seq<Visit>)
    requires Chained(tr) && Halts(tr)
    requires Last(tr).step == RunAsyncHandlersStep
    ensures Filter(TraceEffects(ctx, tr), IsQueueCall) == []
    ensures Filter(TraceEffects(ctx, tr), CounterNamed(DeadLetterCounter)) == []
  {
    assert !DeadLetterEligible(ctx, Last(tr).step);
    RunDeadLetter(ctx, tr);
  }

  /** Error reports in a run: none when the last stage returned `null`; when
      it threw, its error first, and one more only if dead-lettering failed. */
  lemma RunReports(ctx: Context, tr: seq<Visit>)
    requires Chained(tr) && Halts(tr)
    ensures var last := Last(tr);
      var reports := Filter(TraceEffects(ctx, tr), IsCapture);
      && (last.outcome.Returned? ==> reports == [])
      && (last.outcome.Threw? ==>
            && |reports| == (if DeadLetterEligible(ctx, last.step) && !DeadLetterDelivered(ctx, last.outcome.error) then 2 else 1)
            && reports[0] == CaptureException(last.outcome.error, last.step, last.args, None))
  {
    var last := Last(tr);
    RunTail(ctx, tr, IsCapture);
    VisitErrorOnly(ctx, last, IsCapture);
    if last.outcome.Threw? {
      HandleErrorReports(ctx, last.outcome.error, last.step, last.args);
    }
  }

  // ---------------------------------------------------------------------
  // Entry points

  /** A run calls only stages, the four loop counters, the step timer, the
      producer and the error reporter: never `fetchPerson`, never an ingestion counter. */
  lemma {:induction false} TraceEffectKinds(ctx: Context, tr: seq<Visit>)
    ensures forall e :: e in TraceEffects(ctx, tr) ==>
      && !e.FetchPerson?
      && (e.Increment? ==> e.metric in {StepCounter, LastStepCounter, StepErrorCounter, DeadLetterCounter})
      && (e.Timing? ==> e.metric == StepTimer)
  {
    if tr != [] {
      var n := |tr| - 1;
      TraceEffectKinds(ctx, tr[..n]);
      VisitEffectKinds(ctx, tr[n]);
    }
  }

  /** A run begins by calling its first stage. */
  lemma {:induction false} TraceEffectsStart(ctx: Context, tr: seq<Visit>)
    requires tr != []
    ensures TraceEffects(ctx, tr) != []
    ensures TraceEffects(ctx, tr)[0] == StepCalled(tr[0].step, tr[0].args)
  {
    var n := |tr| - 1;
    if n > 0 {
      TraceEffectsStart(ctx, tr[..n]);
    }
  }

  /** A run followed by an ingestion counter: the counter is emitted once,
      after everything the run did. */
  lemma RunThenCount(ctx: Context, tr: seq<Visit>, counter: string)
    requires tr != []
    requires counter !in {StepCounter, LastStepCounter, StepErrorCounter, DeadLetterCounter}
    ensures var log := TraceEffects(ctx, tr) + Stat(ctx.hub, Increment(counter, map[]));
      && log[0] == StepCalled(tr[0].step, tr[0].args)
      && Filter(log, CounterNamed(counter)) == Stat(ctx.hub, Increment(counter, map[]))
      && (ctx.hub.statsdPresent ==> Last(log) == Increment(counter, map[]))
  {
    var ingested := Stat(ctx.hub, Increment(counter, map[]));
    TraceEffectsStart(ctx, tr);
    TraceEffectKinds(ctx, tr);
    FilterConcat(TraceEffects(ctx, tr), ingested, CounterNamed(counter));
    FilterNone(TraceEffects(ctx, tr), CounterNamed(counter));
    FilterStat(ctx.hub, Increment(counter, map[]), CounterNamed(counter));
  }

  /** Step errors never escape `runMainPipeline`: whatever the chain did,
      it starts at `pluginsProcessEventStep` with the event and ends with one
      `kafka_queue.single_event.processed_and_ingested` counter. */
  lemma MainPipelineAlwaysIngests(ctx: Context, steps: StepRegistry, event: PluginEvent)
    requires Terminates(steps, PluginsProcessEventStep, [RawArg(event)])
    ensures var log := MainPipelineEffects(ctx, steps, event);
      && log[0] == StepCalled(PluginsProcessEventStep, [RawArg(event)])
      && Filter(log, CounterNamed(MainIngestedCounter)) == Stat(ctx.hub, Increment(MainIngestedCounter, map[]))
      && (ctx.hub.statsdPresent ==> Last(log) == Increment(MainIngestedCounter, map[]))
  {
    RunThenCount(ctx, Chain(steps, PluginsProcessEventStep, [RawArg(event)]), MainIngestedCounter);
  }

  /** `runBufferPipeline` fetches the person before any step; a rejected
      fetch stops it there, with no step run and no error handling; otherwise
      `createEventStep` runs first with the event and the fetched person, and
      the run ends with one `kafka_queue.buffer_event.processed_and_ingested` counter. */
  lemma BufferPipelineFetchesFirst(ctx: Context, steps: StepRegistry, event: PreIngestionEvent)
    requires BufferTerminates(ctx, steps, event)
    ensures var log := BufferPipelineEffects(ctx, steps, event);
      var fetched := ctx.hub.fetchPerson(event.teamId, event.distinctId);
      && log[0] == FetchPerson(event.teamId, event.distinctId)
      && (fetched.Err? ==> log == [FetchPerson(event.teamId, event.distinctId)])
      && (fetched.Ok? ==>
            && |log| > 1
            && log[1] == StepCalled(CreateEventStep, BufferArgs(event, fetched.value))
            && Filter(log, CounterNamed(BufferIngestedCounter)) == Stat(ctx.hub, Increment(BufferIngestedCounter, map[]))
            && (ctx.hub.statsdPresent ==> Last(log) == Increment(BufferIngestedCounter, map[])))
  {
    var fetched := ctx.hub.fetchPerson(event.teamId, event.distinctId);
    if fetched.Ok? {
      var head := [FetchPerson(event.teamId, event.distinctId)];
      var tr := Chain(steps, CreateEventStep, BufferArgs(event, fetched.value));
      var run := TraceEffects(ctx, tr) + Stat(ctx.hub, Increment(BufferIngestedCounter, map[]));
      assert BufferPipelineEffects(ctx, steps, event) == head + run;
      RunThenCount(ctx, tr, BufferIngestedCounter);
      FilterAfter(head, run, CounterNamed(BufferIngestedCounter));
    }
  }

  /** The calls of `runBufferPipeline` once the person was fetched. */
  lemma BufferFetchedEffects(ctx: Context, steps: StepRegistry, event: PreIngestionEvent)
    requires BufferTerminates(ctx, steps, event)
    requires ctx.hub.fetchPerson(event.teamId, event.distinctId).Ok?
    ensures var person := ctx.hub.fetchPerson(event.teamId, event.distinctId).value;
      BufferPipelineEffects(ctx, steps, event) ==
        [FetchPerson(event.teamId, event.distinctId)] +
        TraceEffects(ctx, Chain(steps, CreateEventStep, BufferArgs(event, person))) +
        Stat(ctx.hub, Increment(BufferIngestedCounter, map[]))
  {
  }

  /** The calls of an iteration whose stage returned. */
  lemma ReturnedVisitEffects(ctx: Context, v: Visit)
    requires v.outcome.Returned?
    ensures VisitEffects(ctx, v) ==
      [StepCalled(v.step, v.args)] +
      Stat(ctx.hub, Increment(StepCounter, StepTag(v.step))) +
      Stat(ctx.hub, Timing(StepTimer, StepTag(v.step))) +
      (if v.outcome.result.End? then Stat(ctx.hub, Increment(LastStepCounter, LastStepTags(v.step, ctx.originalEvent))) else [])
  {
  }

  /** The calls of an iteration whose stage threw. */
  lemma ThrowingVisitEffects(ctx: Context, v: Visit)
    requires v.outcome.Threw?
    ensures VisitEffects(ctx, v) == [StepCalled(v.step, v.args)] + HandleErrorEffects(ctx, v.outcome.error, v.step, v.args)
  {
  }

  // ---------------------------------------------------------------------
  // Counting every metric call

  /** The counters `handleError` bumps: the step error, then the dead-letter
      counter when the record was delivered. */
  lemma HandleErrorIncrements(ctx: Context, err: Error, step: StepType, args: seq<Arg>)
    ensures Filter(HandleErrorEffects(ctx, err, step, args), IsIncrement) ==
      Stat(ctx.hub, Increment(StepErrorCounter, StepTag(step))) +
      (if ctx.hub.statsdPresent && DeadLetterEligible(ctx, step) && DeadLetterDelivered(ctx, err)
       then [Increment(DeadLetterCounter, map[])] else [])
  {
    var first := [CaptureException(err, step, args, None)];
    var inc := Stat(ctx.hub, Increment(StepErrorCounter, StepTag(step)));
    var dlq := if DeadLetterEligible(ctx, step) then DeadLetterEffects(ctx, ctx.originalEvent.value, err, step, args) else [];
    calc {
      Filter(HandleErrorEffects(ctx, err, step, args), IsIncrement);
    == { HandleErrorParts(ctx, err, step, args); FilterAfter(first, inc + dlq, IsIncrement); }
      Filter(inc + dlq, IsIncrement);
    == { FilterConcat(inc, dlq, IsIncrement); FilterStat(ctx.hub, Increment(StepErrorCounter, StepTag(step)), IsIncrement); }
      inc + Filter(dlq, IsIncrement);
    }
    if DeadLetterEligible(ctx, step) {
      DeadLetterKinds(ctx, ctx.originalEvent.value, err, step, args);
      FilterSame(dlq, IsIncrement, CounterNamed(DeadLetterCounter));
      DeadLetterCounted(ctx, err, step, args);
    } else {
      FilterNone(dlq, IsIncrement);
    }
  }

  /** The counters an iteration whose stage returned bumps: its step counter
      and, on `null`, the last-step counter. */
  lemma ReturnedIncrements(ctx: Context, v: Visit)
    requires v.outcome.Returned?
    ensures Filter(VisitEffects(ctx, v), IsIncrement) ==
      Stat(ctx.hub, Increment(StepCounter, StepTag(v.step))) +
      (if v.outcome.result.End? then Stat(ctx.hub, Increment(LastStepCounter, LastStepTags(v.step, ctx.originalEvent))) else [])
  {
    var inc := Stat(ctx.hub, Increment(StepCounter, StepTag(v.step)));
    var tim := Stat(ctx.hub, Timing(StepTimer, StepTag(v.step)));
    var last := if v.outcome.result.End? then Stat(ctx.hub, Increment(LastStepCounter, LastStepTags(v.step, ctx.originalEvent))) else [];
    ReturnedVisitEffects(ctx, v);
    assert VisitEffects(ctx, v) == [StepCalled(v.step, v.args)] + (inc + (tim + last));
    FilterAfter([StepCalled(v.step, v.args)], inc + (tim + last), IsIncrement);
    FilterConcat(inc, tim + last, IsIncrement);
    FilterAfter(tim, last, IsIncrement);
    FilterStat(ctx.hub, Increment(StepCounter, StepTag(v.step)), IsIncrement);
    if v.outcome.result.End? {
      FilterStat(ctx.hub, Increment(LastStepCounter, LastStepTags(v.step, ctx.originalEvent)), IsIncrement);
    } else {
      FilterNone(last, IsIncrement);
    }
  }

  /** Iterations that continue the loop bump exactly their step counters. */
  lemma {:induction false} ContinuingIncrements(ctx: Context, tr: seq<Visit>)
    requires Continuing(tr)
    ensures Filter(TraceEffects(ctx, tr), IsIncrement) == StepCounters(ctx.hub, Steps(tr))
  {
    if tr != [] {
      var n := |tr| - 1;
      assert Continuing(tr[..n]);
      ContinuingIncrements(ctx, tr[..n]);
      FilterConcat(TraceEffects(ctx, tr[..n]), VisitEffects(ctx, tr[n]), IsIncrement);
      ReturnedIncrements(ctx, tr[n]);
      StepCountersSnoc(ctx.hub, Steps(tr[..n]), tr[n].step);
      assert Steps(tr) == Steps(tr[..n]) + [tr[n].step];
    }
  }

  /** Every counter a run bumps: one step counter per step before the last,
      then whatever the last iteration bumps. */
  lemma RunIncrements(ctx: Context, tr: seq<Visit>)
    requires Chained(tr) && Halts(tr)
    ensures Filter(TraceEffects(ctx, tr), IsIncrement) ==
      StepCounters(ctx.hub, Steps(tr)[..|tr| - 1]) + Filter(VisitEffects(ctx, Last(tr)), IsIncrement)
  {
    var n := |tr| - 1;
    ChainedPrefix(tr);
    ContinuingIncrements(ctx, tr[..n]);
    FilterConcat(TraceEffects(ctx, tr[..n]), VisitEffects(ctx, tr[n]), IsIncrement);
    assert Steps(tr)[..n] == Steps(tr[..n]);
  }

  /** Every timing a run samples is a step timing: one per step that returned. */
  lemma RunTimings(ctx: Context, tr: seq<Visit>)
    requires Chained(tr) && Halts(tr)
    ensures Filter(TraceEffects(ctx, tr), IsTiming) ==
      StepTimings(ctx.hub, if Last(tr).outcome.Threw? then Steps(tr)[..|tr| - 1] else Steps(tr))
  {
    TraceEffectKinds(ctx, tr);
    FilterSame(TraceEffects(ctx, tr), IsTiming, TimerNamed(StepTimer));
    RunSuccessMetrics(ctx, tr);
  }

  /** A run whose last stage returned `null`, with statsd present: one timing
      per step, and one counter per step plus the last-step counter. */
  lemma ReturningRunCounts(ctx: Context, tr: seq<Visit>)
    requires Chained(tr) && Halts(tr) && Last(tr).outcome.Returned?
    ensures |Filter(TraceEffects(ctx, tr), IsTiming)| == if ctx.hub.statsdPresent then |tr| else 0
    ensures |Filter(TraceEffects(ctx, tr), IsIncrement)| == if ctx.hub.statsdPresent then |tr| + 1 else 0
  {
    RunTimings(ctx, tr);
    RunIncrements(ctx, tr);
    ReturnedIncrements(ctx, Last(tr));
  }

  /** Every step of a run that did not throw is counted, tagged with its name. */
  lemma StepCounted(ctx: Context, tr: seq<Visit>, i: nat)
    requires Chained(tr) && Halts(tr) && ctx.hub.statsdPresent
    requires i < |tr| - 1 || (i == |tr| - 1 && Last(tr).outcome.Returned?)
    ensures Increment(StepCounter, StepTag(tr[i].step)) in TraceEffects(ctx, tr)
  {
    var ok := if Last(tr).outcome.Threw? then Steps(tr)[..|tr| - 1] else Steps(tr);
    RunSuccessMetrics(ctx, tr);
    var counters := StepCounters(ctx.hub, ok);
    assert counters[i] == Increment(StepCounter, StepTag(tr[i].step));
    assert counters[i] in Filter(TraceEffects(ctx, tr), CounterNamed(StepCounter));
    FilterSound(TraceEffects(ctx, tr), CounterNamed(StepCounter), counters[i]);
  }

  /** A run whose last stage returned `null` counts its last step, tagged
      with that step and the team. */
  lemma LastStepCounted(ctx: Context, tr: seq<Visit>)
    requires Chained(tr) && Halts(tr) && ctx.hub.statsdPresent && Last(tr).outcome.Returned?
    ensures Increment(LastStepCounter, LastStepTags(Last(tr).step, ctx.originalEvent)) in TraceEffects(ctx, tr)
  {
    var last := Increment(LastStepCounter, LastStepTags(Last(tr).step, ctx.originalEvent));
    RunTerminalCounters(ctx, tr);
    assert Filter(TraceEffects(ctx, tr), CounterNamed(LastStepCounter)) == [last];
    FilterSound(TraceEffects(ctx, tr), CounterNamed(LastStepCounter), last);
  }
}
