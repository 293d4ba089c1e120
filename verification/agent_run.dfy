/**
 * One run's execution as a machine that stops at every await: the attempt loop, the provider and tool
 * loops inside it, and the history each provider call receives.
 */
module AgentRun {
  import opened Wrappers
  import opened Sequences
  import opened Conversation
  import opened RunEvents

  const MAX_RESULT_FOLLOW_UPS: nat := 8
  const MAX_ATTEMPTS: nat := MAX_RESULT_FOLLOW_UPS + 1
  const RESULT_FOLLOW_UP := "You ended your turn without calling `complete` or `fail`. Call `complete` with your final result, or `fail` with a reason if you cannot."
  const NO_RESULT_REASON := "The model ended the run without calling `complete` or `fail`."

  /** What happens once the provider stream, closed on every exit, is closed. */
  datatype AfterClose = TurnDone(turn: AssistantTurn, executions: seq<ToolOutcome>) | Raises(cause: FailureCause) | Cancels

  datatype TaskResult = Returned(outcome: RunOutcome) | Raised(cause: FailureCause) | Cancelled

  /** The await at which the coroutine is suspended. */
  datatype Await =
    | NotBegun
    | CallingProvider
    | Streaming(started: bool)
    | RunningTool(turn: AssistantTurn, done: seq<ToolOutcome>)
    | Closing(next: AfterClose)
    | Done(result: TaskResult)

  /**
   * `working` and `delta` are the run-local history, fed by the events; `runHistory` is the agent's own
   * list, fed by the turn results and sent to the provider at every call. `streams` only records the past:
   * what each provider stream has yielded so far.
   */
  datatype Execution = Execution(
    typed: bool, prompt: string, committed: seq<Item>, pc: Await, log: seq<AgentEvent>, working: seq<Item>,
    delta: seq<Item>, attempt: nat, runHistory: seq<Item>, executions: seq<ToolOutcome>,
    streams: seq<seq<StreamEvent>>)

  datatype StreamEvent =
    | StartEvent
    | UpdateEvent(update: string)
    | DoneEvent(blocks: seq<Block>)
    | ErrorEvent(blocks: seq<Block>, aborted: bool)

  /** How a tool function ends: with a result, or with an error the executor turns into one. */
  datatype ToolReply = Success(text: string, details: Details, terminate: bool) | Failure(text: string, details: Details)

  /** How the pending await ends. */
  datatype Input =
    | Begin(promptBuilt: bool)
    | ProviderAnswers
    | ProviderFails
    | StreamYields(event: StreamEvent)
    | StreamEnds
    | StreamFails
    | ToolReturns(reply: ToolReply)
    | ToolFails
    | Closed(promptBuilt: bool)
    | CloseFails
    | Cancel

  // ---------- Turn results and outcomes ----------

  function OutcomeFor(call: Call, reply: ToolReply): ToolOutcome {
    match reply
    case Success(text, details, terminate) => ToolOutcome(ToolResult(call.id, call.name, text, false), details, terminate)
    case Failure(text, details) => ToolOutcome(ToolResult(call.id, call.name, text, true), details, false)
  }

  function Results(executions: seq<ToolOutcome>): (r: seq<Item>)
    ensures |r| == |executions|
  {
    if executions == [] then [] else [executions[0].result] + Results(executions[1..])
  }

  /** The assistant turn followed by its tool results. */
  function ConversationItems(turn: AssistantTurn, executions: seq<ToolOutcome>): seq<Item> {
    [Assistant(turn)] + Results(executions)
  }

  predicate ShouldContinue(executions: seq<ToolOutcome>) {
    executions != [] && forall i :: 0 <= i < |executions| ==> !executions[i].terminate
  }

  function AssistantText(blocks: seq<Block>): string {
    JoinTexts(Texts(blocks))
  }

  function Texts(blocks: seq<Block>): seq<string> {
    if blocks == [] then []
    else (if blocks[0].TextBlock? then [blocks[0].text] else []) + Texts(blocks[1..])
  }

  function JoinTexts(texts: seq<string>): string {
    if texts == [] then "" else if |texts| == 1 then texts[0] else texts[0] + "\n\n" + JoinTexts(texts[1..])
  }

  /** The outcome one execution decides, if it does. */
  function Decision(execution: ToolOutcome): Option<RunOutcome> {
    if !execution.terminate then None
    else
      match execution.details
      case CompleteDetails(value) => Some(Completed(value))
      case FailDetails(reason) => Some(Failed(AgentFailure(reason)))
      case NoDetails => None
  }

  function ResultOutcome(executions: seq<ToolOutcome>): Option<RunOutcome> {
    if executions == [] then None
    else if Decision(executions[0]).Some? then Decision(executions[0])
    else ResultOutcome(executions[1..])
  }

  /** A complete or fail call that terminates. */
  predicate Decides(execution: ToolOutcome) {
    execution.terminate && (execution.details.CompleteDetails? || execution.details.FailDetails?)
  }

  /** The first call that decides: a completion gives its value, a failure is the agent's, for its reason. */
  ghost predicate DecidedFirst(executions: seq<ToolOutcome>, outcome: RunOutcome) {
    exists k: nat ::
      && k < |executions| && Decides(executions[k]) && (forall i :: 0 <= i < k ==> !Decides(executions[i]))
      && (executions[k].details.CompleteDetails? ==> outcome == Completed(executions[k].details.value))
      && (executions[k].details.FailDetails? ==> outcome == Failed(AgentFailure(executions[k].details.reason)))
  }

  method FindResultOutcome(executions: seq<ToolOutcome>) returns (outcome: Option<RunOutcome>)
    ensures outcome == ResultOutcome(executions)
    ensures outcome.None? <==> forall i :: 0 <= i < |executions| ==> !Decides(executions[i])
    ensures outcome.Some? ==> DecidedFirst(executions, outcome.value)
  {
    hide Decision, Decides, DecidedFirst;
    NoDecisionNoOutcome(executions);
    OutcomeIsDecidedFirst(executions);
    var i := 0;
    assert executions[0..] == executions;
    while i < |executions|
      invariant 0 <= i <= |executions|
      invariant ResultOutcome(executions) == ResultOutcome(executions[i..])
    {
      DropDrop(executions, i, 1);
      var decision := Decision(executions[i]);
      if decision.Some? {
        return decision;
      }
      i := i + 1;
    }
    return None;
  }

  /** The first complete or fail call that terminates decides the outcome, and says which. */
  lemma {:induction false} FirstDecisionWins(executions: seq<ToolOutcome>, k: nat)
    requires k < |executions| && Decides(executions[k])
    requires forall i :: 0 <= i < k ==> !Decides(executions[i])
    ensures executions[k].details.CompleteDetails? ==>
              ResultOutcome(executions) == Some(Completed(executions[k].details.value))
    ensures executions[k].details.FailDetails? ==>
              ResultOutcome(executions) == Some(Failed(AgentFailure(executions[k].details.reason)))
  {
    if k > 0 {
      assert !Decides(executions[0]);
      FirstDecisionWins(executions[1..], k - 1);
    }
  }

  lemma {:induction false} NoDecisionNoOutcome(executions: seq<ToolOutcome>)
    ensures ResultOutcome(executions).None? <==> forall i :: 0 <= i < |executions| ==> !Decides(executions[i])
  {
    if executions != [] {
      NoDecisionNoOutcome(executions[1..]);
      assert forall i :: 1 <= i < |executions| ==> executions[i] == executions[1..][i - 1];
    }
  }

  lemma {:induction false} FirstOf(executions: seq<ToolOutcome>) returns (k: nat)
    requires exists i :: 0 <= i < |executions| && Decides(executions[i])
    ensures k < |executions| && Decides(executions[k]) && forall i :: 0 <= i < k ==> !Decides(executions[i])
  {
    hide Decides;
    if Decides(executions[0]) {
      k := 0;
    } else {
      assert forall i :: 1 <= i < |executions| ==> executions[i] == executions[1..][i - 1];
      var j := FirstOf(executions[1..]);
      k := j + 1;
    }
  }

  lemma OutcomeIsDecidedFirst(executions: seq<ToolOutcome>)
    ensures ResultOutcome(executions).Some? ==> DecidedFirst(executions, ResultOutcome(executions).value)
  {
    NoDecisionNoOutcome(executions);
    if ResultOutcome(executions).Some? {
      var k := FirstOf(executions);
      FirstDecisionWins(executions, k);
    }
  }

  // ---------- Steps ----------

  /** Appends one event to the log and its replayable item to both histories. */
  function Emit(e: Execution, event: AgentEvent): Execution {
    var items := ItemsOf([event]);
    e.(log := e.log + [event], working := e.working + items, delta := e.delta + items)
  }

  function Start(typed: bool, committed: seq<Item>, prompt: string): Execution {
    var message := [UserMessage(prompt)];
    Execution(typed, prompt, committed, NotBegun, [RunStart], committed + message, message, 0, [], [], [])
  }

  function End(e: Execution, result: TaskResult): Execution {
    e.(pc := Done(result))
  }

  /** One attempt begins: its system prompt is composed and the working history is copied. */
  function BeginAttempt(e: Execution, promptBuilt: bool): Execution {
    if !promptBuilt then End(e, Raised(ExecutionFailure))
    else
      Emit(e, AgentStart).(attempt := e.attempt + 1, runHistory := e.working, executions := [], pc := CallingProvider)
  }

  /** Starts the next tool call of the turn, or ends the turn. */
  function ContinueTools(e: Execution, turn: AssistantTurn, done: seq<ToolOutcome>): Execution {
    var calls := CollectToolCalls(turn.blocks);
    if |done| < |calls| then Emit(e, ToolStart(calls[|done|])).(pc := RunningTool(turn, done))
    else Emit(e, TurnEnd(turn, done)).(pc := Closing(TurnDone(turn, done)))
  }

  /** The turn is over: the provider is called again, or the attempt ends. */
  function EndTurn(e: Execution, turn: AssistantTurn, executions: seq<ToolOutcome>, promptBuilt: bool): Execution {
    var e' := e.(runHistory := e.runHistory + ConversationItems(turn, executions), executions := e.executions + executions);
    if ShouldContinue(executions) then e'.(pc := CallingProvider) else EndAttempt(Emit(e', AgentEnd), turn, promptBuilt)
  }

  /** A plain run ends with its text; a typed run ends with its result, or is reminded of it. */
  function EndAttempt(e: Execution, turn: AssistantTurn, promptBuilt: bool): Execution {
    if !e.typed then End(e, Returned(Completed(AssistantText(turn.blocks))))
    else
      match ResultOutcome(e.executions)
      case Some(outcome) => End(e, Returned(outcome))
      case None =>
        if e.attempt <= MAX_RESULT_FOLLOW_UPS then BeginAttempt(Emit(e, FollowUp(RESULT_FOLLOW_UP)), promptBuilt)
        else End(e, Returned(Failed(AgentFailure(NO_RESULT_REASON))))
  }

  function HandleStreamEvent(e: Execution, event: StreamEvent): Execution
    requires e.pc.Streaming?
  {
    match event
    case StartEvent => Emit(Emit(e, TurnStart), MessageStart).(pc := Streaming(true))
    case UpdateEvent(update) => Emit(e, MessageUpdate(update))
    case DoneEvent(blocks) =>
      var turn := AssistantTurn(blocks, CompletedTurn);
      ContinueTools(Emit(e, MessageEnd(turn)), turn, [])
    case ErrorEvent(blocks, aborted) =>
      var turn := AssistantTurn(blocks, if aborted then AbortedTurn else ErrorTurn);
      Emit(e, MessageEnd(turn)).(pc := Closing(Raises(TurnFailure)))
  }

  function FinishTool(e: Execution, reply: ToolReply): Execution
    requires e.pc.RunningTool? && |e.pc.done| < |CollectToolCalls(e.pc.turn.blocks)|
  {
    var outcome := OutcomeFor(CollectToolCalls(e.pc.turn.blocks)[|e.pc.done|], reply);
    ContinueTools(Emit(e, ToolEnd(outcome)), e.pc.turn, e.pc.done + [outcome])
  }

  function AfterClosing(e: Execution, promptBuilt: bool): Execution
    requires e.pc.Closing?
  {
    match e.pc.next
    case TurnDone(turn, executions) => EndTurn(e, turn, executions, promptBuilt)
    case Raises(cause) => End(e, Raised(cause))
    case Cancels => End(e, Cancelled)
  }

  /** The input fits the await the coroutine is suspended at. */
  predicate Enabled(e: Execution, input: Input) {
    match input
    case Begin(_) => e.pc.NotBegun?
    case ProviderAnswers => e.pc.CallingProvider?
    case ProviderFails => e.pc.CallingProvider?
    case StreamYields(_) => e.pc.Streaming?
    case StreamEnds => e.pc.Streaming?
    case StreamFails => e.pc.Streaming?
    case ToolReturns(_) => e.pc.RunningTool? && |e.pc.done| < |CollectToolCalls(e.pc.turn.blocks)|
    case ToolFails => e.pc.RunningTool?
    case Closed(_) => e.pc.Closing?
    case CloseFails => e.pc.Closing?
    case Cancel => !e.pc.Done?
  }

  /** What each provider stream has yielded, after one more input. */
  function Heard(streams: seq<seq<StreamEvent>>, input: Input): seq<seq<StreamEvent>> {
    match input
    case ProviderAnswers => streams + [[]]
    case StreamYields(event) =>
      if streams == [] then streams else streams[..|streams| - 1] + [streams[|streams| - 1] + [event]]
    case _ => streams
  }

  /** What happens between one await and the next. */
  function Stretch(e: Execution, input: Input): Execution
    requires Enabled(e, input)
  {
    match input
    case Begin(promptBuilt) => BeginAttempt(e, promptBuilt)
    case ProviderAnswers => e.(pc := Streaming(false))
    case ProviderFails => End(e, Raised(ExecutionFailure))
    case StreamYields(event) => HandleStreamEvent(e, event)
    case StreamEnds => e.(pc := Closing(Raises(ExecutionFailure)))
    case StreamFails => e.(pc := Closing(Raises(ExecutionFailure)))
    case ToolReturns(reply) => FinishTool(e, reply)
    case ToolFails => e.(pc := Closing(Raises(ExecutionFailure)))
    case Closed(promptBuilt) => AfterClosing(e, promptBuilt)
    case CloseFails => End(e, Raised(ExecutionFailure))
    case Cancel => if e.pc.Streaming? || e.pc.RunningTool? then e.(pc := Closing(Cancels)) else End(e, Cancelled)
  }

  /** An input that does not fit the await changes nothing. */
  function Step(e: Execution, input: Input): Execution {
    if Enabled(e, input) then Stretch(e.(streams := Heard(e.streams, input)), input) else e
  }

  function Run(e: Execution, inputs: seq<Input>): Execution
    decreases inputs
  {
    if inputs == [] then e else Run(Step(e, inputs[0]), inputs[1..])
  }

  /** The inputs that come when they are awaited. */
  function Fitting(e: Execution, inputs: seq<Input>): seq<Input>
    decreases inputs
  {
    if inputs == [] then []
    else (if Enabled(e, inputs[0]) then [inputs[0]] else []) + Fitting(Step(e, inputs[0]), inputs[1..])
  }

  /** The provider streams among some inputs: each answer opens one, and the events yielded until the next belong to it. */
  function StreamsIn(streams: seq<seq<StreamEvent>>, inputs: seq<Input>): seq<seq<StreamEvent>>
    decreases inputs
  {
    if inputs == [] then streams else StreamsIn(Heard(streams, inputs[0]), inputs[1..])
  }
}
