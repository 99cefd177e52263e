/** `EventPipelineRunner`: one runner per event. It drives the event through
    the registered stages, one at a time, records every call it makes in
    `log`, and handles a stage's error without letting it escape. */
module Runner {
  import opened PipelineTypes
  import opened PipelineChain
  import opened PipelineEffects

  class EventPipelineRunner {
    const hub: Hub
    const originalEvent: Option<PluginEvent>
    /** `EVENT_PIPELINE_STEPS`, the stages `runStep` dispatches to. */
    const steps: StepRegistry
    /** `generateEventDeadLetterQueueMessage`. */
    const generateDeadLetter: DeadLetterGenerator
    /** Every call this runner has made on its collaborators, in order. */
    var log: seq<Effect>

    constructor (hub: Hub, originalEvent: Option<PluginEvent>, steps: StepRegistry, generateDeadLetter: DeadLetterGenerator)
      ensures this.hub == hub && this.originalEvent == originalEvent
      ensures this.steps == steps && this.generateDeadLetter == generateDeadLetter
      ensures log == []
    {
      this.hub := hub;
      this.originalEvent := originalEvent;
      this.steps := steps;
      this.generateDeadLetter := generateDeadLetter;
      log := [];
    }

    function Ctx(): Context
    {
      Context(hub, originalEvent, generateDeadLetter)
    }

    /** Runs the event from `pluginsProcessEventStep`, then counts it as
        processed; a step's error never reaches the caller. */
    method RunMainPipeline(event: PluginEvent)
      requires Terminates(steps, PluginsProcessEventStep, [RawArg(event)])
      modifies this
      ensures log == old(log) + MainPipelineEffects(Ctx(), steps, event)
    {
      RunPipeline(PluginsProcessEventStep, [RawArg(event)]);
      StatsdIncrement(MainIngestedCounter, map[]);
    }

    /** Fetches the event's person, then runs from `createEventStep` with the
        event and that person, then counts it as processed. A rejected fetch
        is outside the loop's error handling: it is returned to the caller. */
    method RunBufferPipeline(event: PreIngestionEvent) returns (rejected: Option<Error>)
      requires BufferTerminates(Ctx(), steps, event)
      modifies this
      ensures var fetched := hub.fetchPerson(event.teamId, event.distinctId);
        rejected == if fetched.Err? then Some(fetched.error) else None
      ensures log == old(log) + BufferPipelineEffects(Ctx(), steps, event)
    {
      log := log + [FetchPerson(event.teamId, event.distinctId)];
      var person := hub.fetchPerson(event.teamId, event.distinctId);
      if person.Err? {
        return Some(person.error);
      }
      ghost var run := TraceEffects(Ctx(), Chain(steps, CreateEventStep, BufferArgs(event, person.value)));
      ghost var ingested := Stat(hub, Increment(BufferIngestedCounter, map[]));
      RunPipeline(CreateEventStep, BufferArgs(event, person.value));
      StatsdIncrement(BufferIngestedCounter, map[]);
      BufferFetchedEffects(Ctx(), steps, event);
      AppendAssoc3(old(log), [FetchPerson(event.teamId, event.distinctId)], run, ingested);
      rejected := None;
    }

    /** The step loop: run the current step; on a result, count and time it and
        either move to the step it names or, on `null`, count the last step and
        stop; on an error, hand it to `handleError` and stop. */
    method RunPipeline(name: StepType, args: seq<Arg>)
      requires Terminates(steps, name, args)
      modifies this
      ensures log == old(log) + TraceEffects(Ctx(), Chain(steps, name, args))
    {
      ghost var tr := Chain(steps, name, args);
      var currentStepName := name;
      var currentArgs := args;
      ghost var k := 0;
      while true
        invariant 0 <= k < |tr|
        invariant tr[k].step == currentStepName && tr[k].args == currentArgs
        invariant log == old(log) + TraceEffects(Ctx(), tr[..k])
        decreases |tr| - k
      {
        ghost var start := log;
        ghost var visit := VisitEffects(Ctx(), tr[k]);
        TraceEffectsExtend(Ctx(), tr, k);
        ChainAt(steps, name, args, k);
        AppendAssoc(old(log), TraceEffects(Ctx(), tr[..k]), visit);
        var stepResult := RunStep(currentStepName, currentArgs);
        match stepResult
        case Returned(result) =>
          ghost var counted := Stat(hub, Increment(StepCounter, StepTag(currentStepName)));
          ghost var timed := Stat(hub, Timing(StepTimer, StepTag(currentStepName)));
          ghost var last := if result.End? then Stat(hub, Increment(LastStepCounter, LastStepTags(currentStepName, originalEvent))) else [];
          ReturnedVisitEffects(Ctx(), tr[k]);
          assert visit == [StepCalled(currentStepName, currentArgs)] + counted + timed + last;
          StatsdIncrement(StepCounter, StepTag(currentStepName));
          StatsdTiming(StepTimer, StepTag(currentStepName));
          if result.Next? {
            AppendAssoc4(start, [StepCalled(currentStepName, currentArgs)], counted, timed, last);
            currentStepName, currentArgs := result.step, result.args;
            k := k + 1;
          } else {
            StatsdIncrement(LastStepCounter, LastStepTags(currentStepName, originalEvent));
            AppendAssoc4(start, [StepCalled(currentStepName, currentArgs)], counted, timed, last);
            assert tr[..k + 1] == tr;
            break;
          }
        case Threw(err) =>
          ThrowingVisitEffects(Ctx(), tr[k]);
          HandleError(err, currentStepName, currentArgs);
          AppendAssoc(start, [StepCalled(currentStepName, currentArgs)], HandleErrorEffects(Ctx(), err, currentStepName, currentArgs));
          assert tr[..k + 1] == tr;
          break;
      }
    }

    /** Awaits the stage registered for `name`. */
    method RunStep(name: StepType, args: seq<Arg>) returns (outcome: Outcome)
      modifies this
      ensures outcome == steps(name, args)
      ensures log == old(log) + [StepCalled(name, args)]
    {
      log := log + [StepCalled(name, args)];
      outcome := steps(name, args);
    }

    /** What a stage returns to continue at `name` with `args`. */
    static function NextStep(name: StepType, args: seq<Arg>): (r: StepResult)
      ensures !Terminal(Returned(r))
    {
      Next(name, args)
    }

    /** Reports the error, counts it, and dead-letters the original event when
        the runner has it and the step is pre-durability. A failure to build or
        queue the dead letter is reported and swallowed. */
    method HandleError(err: Error, currentStepName: StepType, currentArgs: seq<Arg>)
      modifies this
      ensures log == old(log) + HandleErrorEffects(Ctx(), err, currentStepName, currentArgs)
    {
      log := log + [CaptureException(err, currentStepName, currentArgs, None)];
      StatsdIncrement(StepErrorCounter, StepTag(currentStepName));
      ghost var reported := log;
      ghost var deadLettered: seq<Effect> := [];
      if originalEvent.Some? && currentStepName in StepsToEmitToDlqOnFailure {
        var message := generateDeadLetter(originalEvent.value, err);
        if message.Err? {
          log := log + [CaptureException(message.error, currentStepName, currentArgs, Some(err))];
        } else if hub.kafkaProducer.None? {
          log := log + [CaptureException(ProducerMissing, currentStepName, currentArgs, Some(err))];
        } else {
          log := log + [QueueMessage(message.value)];
          var queued := hub.kafkaProducer.value(message.value);
          ghost var rest := if queued.Ok? then Stat(hub, Increment(DeadLetterCounter, map[]))
            else [CaptureException(queued.error, currentStepName, currentArgs, Some(err))];
          if queued.Ok? {
            StatsdIncrement(DeadLetterCounter, map[]);
          } else {
            log := log + [CaptureException(queued.error, currentStepName, currentArgs, Some(err))];
          }
          AppendAssoc(reported, [QueueMessage(message.value)], rest);
        }
        deadLettered := DeadLetterEffects(Ctx(), originalEvent.value, err, currentStepName, currentArgs);
        assert log == reported + deadLettered;
      }
      HandleErrorParts(Ctx(), err, currentStepName, currentArgs);
      AppendAssoc([CaptureException(err, currentStepName, currentArgs, None)], Stat(hub, Increment(StepErrorCounter, StepTag(currentStepName))), deadLettered);
      AppendAssoc3(old(log), [CaptureException(err, currentStepName, currentArgs, None)], Stat(hub, Increment(StepErrorCounter, StepTag(currentStepName))), deadLettered);
    }

    /** `this.hub.statsd?.increment(metric, tags)` */
    method StatsdIncrement(metric: string, tags: Tags)
      modifies this
      ensures log == old(log) + Stat(hub, Increment(metric, tags))
    {
      if hub.statsdPresent {
        log := log + [Increment(metric, tags)];
      }
    }

    /** `this.hub.statsd?.timing(metric, timer, tags)`; the duration is not kept. */
    method StatsdTiming(metric: string, tags: Tags)
      modifies this
      ensures log == old(log) + Stat(hub, Timing(metric, tags))
    {
      if hub.statsdPresent {
        log := log + [Timing(metric, tags)];
      }
    }
  }

  /** A stage that returns `runner.nextStep(next, nextArgs)` makes the loop run
      `next` with `nextArgs` right after it. */
  lemma NextStepContinues(steps: StepRegistry, name: StepType, args: seq<Arg>, next: StepType, nextArgs: seq<Arg>)
    requires steps(name, args) == Returned(EventPipelineRunner.NextStep(next, nextArgs))
    requires Terminates(steps, name, args)
    ensures |Chain(steps, name, args)| >= 2
    ensures Chain(steps, name, args)[1].step == next && Chain(steps, name, args)[1].args == nextArgs
  {
    var tr := Chain(steps, name, args);
    assert !Terminal(tr[0].outcome);
    assert tr[0].outcome == Returned(Next(tr[1].step, tr[1].args));
  }

  /** The log after `k + 1` iterations is the log after `k` and that iteration's calls. */
  lemma TraceEffectsExtend(ctx: Context, tr: seq<Visit>, k: nat)
    requires k < |tr|
    ensures TraceEffects(ctx, tr[..k + 1]) == TraceEffects(ctx, tr[..k]) + VisitEffects(ctx, tr[k])
  {
    assert tr[..k + 1][..k] == tr[..k];
  }

  lemma AppendAssoc(a: seq<Effect>, b: seq<Effect>, c: seq<Effect>)
    ensures a + b + c == a + (b + c)
  {
  }

  lemma AppendAssoc3(a: seq<Effect>, b: seq<Effect>, c: seq<Effect>, d: seq<Effect>)
    ensures a + b + c + d == a + (b + c + d)
  {
  }

  lemma AppendAssoc4(a: seq<Effect>, b: seq<Effect>, c: seq<Effect>, d: seq<Effect>, e: seq<Effect>)
    ensures a + b + c + d + e == a + (b + c + d + e)
  {
  }
}
