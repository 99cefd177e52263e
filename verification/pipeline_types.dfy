/** Values the event-pipeline runner works with: the closed set of step names,
    the events and arguments handed to the stages, what a stage can return,
    the injected hub and the externally visible calls the runner makes. */
module PipelineTypes {

  /** The five keys of `EVENT_PIPELINE_STEPS`. */
  datatype StepType =
    | PluginsProcessEventStep
    | PrepareEventStep
    | DetermineShouldBufferStep
    | CreateEventStep
    | RunAsyncHandlersStep

  /** The key under which a step is registered, as it appears in metric tags. */
  function StepName(step: StepType): string
  {
    match step
    case PluginsProcessEventStep => "pluginsProcessEventStep"
    case PrepareEventStep => "prepareEventStep"
    case DetermineShouldBufferStep => "determineShouldBufferStep"
    case CreateEventStep => "createEventStep"
    case RunAsyncHandlersStep => "runAsyncHandlersStep"
  }

  /** The registry's keys, in declaration order. */
  const EventPipelineSteps: seq<StepType> :=
    [PluginsProcessEventStep, PrepareEventStep, DetermineShouldBufferStep, CreateEventStep, RunAsyncHandlersStep]

  /** Steps that run before the event is durably created: a failure in one of
      them sends the original event to the dead-letter queue. */
  const StepsToEmitToDlqOnFailure: seq<StepType> :=
    [PluginsProcessEventStep, PrepareEventStep, DetermineShouldBufferStep, CreateEventStep]

  /** Every step is registered, and distinct steps carry distinct names, so a
      metric tag identifies the step that emitted it. */
  lemma StepRegistryIsClosed()
    ensures forall s: StepType :: s in EventPipelineSteps
    ensures forall s: StepType, t: StepType :: StepName(s) == StepName(t) ==> s == t
    ensures |EventPipelineSteps| == 5
  {
    forall s: StepType ensures s in EventPipelineSteps {
      var i := match s
        case PluginsProcessEventStep => 0
        case PrepareEventStep => 1
        case DetermineShouldBufferStep => 2
        case CreateEventStep => 3
        case RunAsyncHandlersStep => 4;
      assert EventPipelineSteps[i] == s;
    }
  }

  /** The pre-durability list is the registry without its last step: every
      step but `runAsyncHandlersStep` is eligible for dead-lettering. */
  lemma DlqStepsArePreDurability(step: StepType)
    ensures step in StepsToEmitToDlqOnFailure <==> step != RunAsyncHandlersStep
    ensures StepsToEmitToDlqOnFailure == EventPipelineSteps[..4]
  {
  }

  /** An error raised by a stage or a collaborator; only its message is kept. */
  datatype Error = Error(message: string)

  datatype Option<T> = None | Some(value: T)

  /** A call that either resolves with a value or rejects with an error. */
  datatype Result<T> = Ok(value: T) | Err(error: Error)

  /** The event as it arrives from the queue (the fields the fixtures use;
      the property bag is not modelled). */
  datatype PluginEvent = PluginEvent(
    distinctId: string,
    ip: Option<string>,
    siteUrl: string,
    teamId: int,
    now: string,
    timestamp: Option<string>,
    event: string)

  /** The normalised event a later stage produces and the buffer path resumes from. */
  datatype PreIngestionEvent = PreIngestionEvent(
    eventUuid: string,
    distinctId: string,
    ip: Option<string>,
    siteUrl: string,
    teamId: int,
    timestamp: string,
    event: string)

  /** A person record fetched from the database; the runner only passes it on. */
  datatype Person = Person(uuid: string, isIdentified: bool)

  /** One positional argument of a stage. */
  datatype Arg =
    | RawArg(raw: PluginEvent)
    | PreIngestionArg(pre: PreIngestionEvent)
    | PersonArg(person: Option<Person>)

  /** `StepResult`: `[nextStepName, nextArgs]` continues the loop, `null` ends it. */
  datatype StepResult = Next(step: StepType, args: seq<Arg>) | End

  /** What awaiting a stage gives: its result, or the error it threw. */
  datatype Outcome = Returned(result: StepResult) | Threw(error: Error)

  /** An outcome that ends the loop: `null`, or a thrown error. */
  predicate Terminal(outcome: Outcome)
  {
    !(outcome.Returned? && outcome.result.Next?)
  }

  /** A record produced for the dead-letter topic. */
  datatype Message = Message(topic: string, value: string)

  /** The stage functions of `EVENT_PIPELINE_STEPS`, seen from the runner:
      given a step and its arguments, what awaiting it gives. */
  type StepRegistry = (StepType, seq<Arg>) -> Outcome

  /** `generateEventDeadLetterQueueMessage`: builds a record, or throws. */
  type DeadLetterGenerator = (PluginEvent, Error) -> Result<Message>

  /** The parts of the hub the runner uses. `statsd` may be absent (every
      metric call is then a no-op); `kafkaProducer` may be absent too, and is
      dereferenced without a check; `fetchPerson` resolves to a person or to
      `undefined`, or rejects. */
  datatype Hub = Hub(
    statsdPresent: bool,
    kafkaProducer: Option<Message -> Result<()>>,
    fetchPerson: (int, string) -> Result<Option<Person>>)

  /** The error `kafkaProducer!.queueMessage` raises when there is no producer. */
  const ProducerMissing: Error :=
    Error("TypeError: Cannot read properties of undefined (reading 'queueMessage')")

  type Tags = map<string, string>

  const StepCounter := "kafka_queue.event_pipeline.step"
  const StepTimer := "kafka_queue.event_pipeline.step.timing"
  const LastStepCounter := "kafka_queue.event_pipeline.step.last"
  const StepErrorCounter := "kafka_queue.event_pipeline.step.error"
  const DeadLetterCounter := "events_added_to_dead_letter_queue"
  const MainIngestedCounter := "kafka_queue.single_event.processed_and_ingested"
  const BufferIngestedCounter := "kafka_queue.buffer_event.processed_and_ingested"

  /** The externally visible calls of a runner, in the order it makes them. */
  datatype Effect =
    | StepCalled(step: StepType, args: seq<Arg>)
    | Increment(metric: string, tags: Tags)
    | Timing(metric: string, tags: Tags)
    | QueueMessage(message: Message)
    | CaptureException(error: Error, step: StepType, args: seq<Arg>, cause: Option<Error>)
    | FetchPerson(teamId: int, distinctId: string)

  /** `{ step: <name> }` */
  function StepTag(step: StepType): Tags
  {
    map["step" := StepName(step)]
  }

  /** `{ step: <name>, team_id: String(originalEvent?.team_id) }` */
  function LastStepTags(step: StepType, originalEvent: Option<PluginEvent>): Tags
  {
    map["step" := StepName(step),
        "team_id" := if originalEvent.Some? then IntToString(originalEvent.value.teamId) else "undefined"]
  }

  /** A metric call: recorded when the hub has a statsd client, a no-op otherwise. */
  function Stat(hub: Hub, e: Effect): (r: seq<Effect>)
    requires e.Increment? || e.Timing?
    ensures r == [] || r == [e]
  {
    if hub.statsdPresent then [e] else []
  }

  /** `String(n)` for an integral number: decimal digits, `-` before a negative value. */
  function IntToString(n: int): string
  {
    if n < 0 then "-" + NatToString(-n) else NatToString(n)
  }

  function NatToString(n: nat): (s: string)
    ensures |s| > 0
    ensures forall i :: 0 <= i < |s| ==> '0' <= s[i] <= '9'
  {
    if n < 10 then [Digit(n)] else NatToString(n / 10) + [Digit(n % 10)]
  }

  function Digit(d: nat): (c: char)
    requires d < 10
    ensures '0' <= c <= '9'
  {
    "0123456789"[d]
  }

  /** The value of a string of decimal digits. */
  function DecimalValue(s: string): nat
    requires forall i :: 0 <= i < |s| ==> '0' <= s[i] <= '9'
  {
    if s == [] then 0 else 10 * DecimalValue(s[..|s| - 1]) + (s[|s| - 1] - '0') as nat
  }

  /** `String(n)` is read back as `n`: the team id tag names the event's team
      and no other. */
  lemma {:induction false} IntToStringRoundTrip(n: int)
    ensures n >= 0 ==> DecimalValue(IntToString(n)) == n
    ensures n < 0 ==> IntToString(n)[0] == '-' && DecimalValue(IntToString(n)[1..]) == -n
  {
    var m: nat := if n < 0 then -n else n;
    NatToStringRoundTrip(m);
    if n < 0 {
      assert IntToString(n)[1..] == NatToString(m);
    }
  }

  lemma {:induction false} NatToStringRoundTrip(n: nat)
    ensures DecimalValue(NatToString(n)) == n
  {
    var s := NatToString(n);
    if n < 10 {
      assert s[..0] == [];
    } else {
      NatToStringRoundTrip(n / 10);
      assert s[..|s| - 1] == NatToString(n / 10);
    }
  }

  /** Distinct team ids give distinct `team_id` tags. */
  lemma IntToStringInjective(m: int, n: int)
    ensures IntToString(m) == IntToString(n) ==> m == n
  {
    IntToStringRoundTrip(m);
    IntToStringRoundTrip(n);
  }
}
