/** The grammar of live logs, and the outcome a log determines. */
module AgentGrammar {
  import opened Wrappers
  import opened Sequences
  import opened Conversation
  import opened RunEvents
  import opened AgentRun

  /**
   * Where a log stands: run, attempt, turn, then message and tool executions, each inside the one
   * before. `attempts` counts the attempts begun; `more` says whether the attempt needs another turn.
   */
  datatype Position =
    | Unstarted
    | Between(attempts: nat, reminded: bool)
    | InAttempt(attempts: nat, more: bool)
    | InTurn(attempts: nat)
    | InMessage(attempts: nat)
    | AfterMessage(attempts: nat, turn: AssistantTurn, done: seq<ToolOutcome>)
    | InTool(attempts: nat, turn: AssistantTurn, done: seq<ToolOutcome>)
    | FailedTurn(attempts: nat)
    | Ended

  /** The result answers the call; a failed tool never ends the loop. */
  predicate Answers(outcome: ToolOutcome, call: Call) {
    && outcome.result.ToolResult? && outcome.result.callId == call.id && outcome.result.toolName == call.name
    && (outcome.result.isError ==> !outcome.terminate)
  }

  /** A turn leads to another one when it ran tools and none of them asked to end. */
  predicate LeadsOn(executions: seq<ToolOutcome>) {
    |executions| > 0 && !exists execution :: execution in executions && execution.terminate
  }

  lemma LeadsOnIsContinuing(executions: seq<ToolOutcome>)
    ensures LeadsOn(executions) <==> ShouldContinue(executions)
  {
    if !ShouldContinue(executions) && executions != [] {
      var i :| 0 <= i < |executions| && executions[i].terminate;
      assert executions[i] in executions;
    }
  }

  function NextCall(turn: AssistantTurn, done: seq<ToolOutcome>): Option<Call> {
    var calls := CollectToolCalls(turn.blocks);
    if |done| < |calls| then Some(calls[|done|]) else None
  }

  /** The position after one more event, or None when the event may not come here. */
  function Accept(typed: bool, p: Position, event: AgentEvent): Option<Position> {
    match event
    case RunStart => if p.Unstarted? then Some(Between(0, false)) else None
    case AgentStart =>
      if p.Between? && (p.attempts == 0 || p.reminded) && p.attempts < MAX_ATTEMPTS then Some(InAttempt(p.attempts + 1, true))
      else None
    case TurnStart => if p.InAttempt? && p.more then Some(InTurn(p.attempts)) else None
    case MessageStart => if p.InTurn? then Some(InMessage(p.attempts)) else None
    case MessageUpdate(_) => if p.InMessage? then Some(p) else None
    case MessageEnd(turn) =>
      if !p.InMessage? then None
      else Some(if turn.status.CompletedTurn? then AfterMessage(p.attempts, turn, []) else FailedTurn(p.attempts))
    case ToolStart(call) =>
      if p.AfterMessage? && NextCall(p.turn, p.done) == Some(call) then Some(InTool(p.attempts, p.turn, p.done)) else None
    case ToolEnd(execution) =>
      if p.InTool? && NextCall(p.turn, p.done).Some? && Answers(execution, NextCall(p.turn, p.done).value)
      then Some(AfterMessage(p.attempts, p.turn, p.done + [execution])) else None
    case TurnEnd(turn, executions) =>
      if p.AfterMessage? && NextCall(p.turn, p.done).None? && turn == p.turn && executions == p.done
      then Some(InAttempt(p.attempts, LeadsOn(executions))) else None
    case AgentEnd => if p.InAttempt? && !p.more then Some(Between(p.attempts, false)) else None
    case FollowUp(message) =>
      if typed && message == RESULT_FOLLOW_UP && p.Between? && !p.reminded && 1 <= p.attempts < MAX_ATTEMPTS
      then Some(Between(p.attempts, true)) else None
    case RunEnd(_) => if p.Unstarted? || p.Ended? then None else Some(Ended)
    case RunFault => if p.Unstarted? || p.Ended? then None else Some(Ended)
  }

  function Read(typed: bool, p: Position, log: seq<AgentEvent>): Option<Position>
    decreases log
  {
    if log == [] then Some(p)
    else
      match Accept(typed, p, log[0])
      case None => None
      case Some(q) => Read(typed, q, log[1..])
  }

  lemma {:induction false} ReadOne(typed: bool, p: Position, log: seq<AgentEvent>, event: AgentEvent)
    ensures Read(typed, p, log + [event])
         == match Read(typed, p, log) case None => None case Some(q) => Accept(typed, q, event)
    decreases log
  {
    hide Accept;
    if log == [] {
      assert [] + [event] == [event] && [event][1..] == [];
    } else {
      ConcatTail(log, [event]);
      if Accept(typed, p, log[0]).Some? {
        ReadOne(typed, Accept(typed, p, log[0]).value, log[1..], event);
      }
    }
  }

  predicate At(e: Execution, p: Position) {
    Read(e.typed, Unstarted, e.log) == Some(p)
  }

  /** The position each await stands at. */
  predicate InPlace(e: Execution) {
    && e.attempt <= MAX_ATTEMPTS
    && match e.pc
       case NotBegun => e.attempt == 0 && At(e, Between(0, false))
       case CallingProvider => At(e, InAttempt(e.attempt, true))
       case Streaming(started) => At(e, if started then InMessage(e.attempt) else InAttempt(e.attempt, true))
       case RunningTool(turn, done) => At(e, InTool(e.attempt, turn, done)) && NextCall(turn, done).Some?
       case Closing(TurnDone(turn, executions)) => At(e, InAttempt(e.attempt, LeadsOn(executions)))
       case _ => Open(e)
  }

  predicate Open(e: Execution) {
    var p := Read(e.typed, Unstarted, e.log);
    p.Some? && !p.value.Unstarted? && !p.value.Ended?
  }

  lemma EmitAt(e: Execution, event: AgentEvent, p: Position)
    requires At(e, p) && Accept(e.typed, p, event).Some?
    ensures At(Emit(e, event), Accept(e.typed, p, event).value)
  {
    hide Accept, Read;
    ReadOne(e.typed, Unstarted, e.log, event);
  }

  lemma BeginAttemptInPlace(e: Execution, promptBuilt: bool)
    requires e.attempt < MAX_ATTEMPTS && At(e, Between(e.attempt, e.attempt > 0))
    ensures InPlace(BeginAttempt(e, promptBuilt))
  {
    hide Read;
    EmitAt(e, AgentStart, Between(e.attempt, e.attempt > 0));
  }

  lemma ContinueToolsInPlace(e: Execution, turn: AssistantTurn, done: seq<ToolOutcome>)
    requires e.attempt <= MAX_ATTEMPTS && At(e, AfterMessage(e.attempt, turn, done))
    ensures InPlace(ContinueTools(e, turn, done))
  {
    hide Read, CollectToolCalls;
    var p := AfterMessage(e.attempt, turn, done);
    var calls := CollectToolCalls(turn.blocks);
    if |done| < |calls| {
      EmitAt(e, ToolStart(calls[|done|]), p);
    } else {
      EmitAt(e, TurnEnd(turn, done), p);
    }
  }

  lemma EndAttemptInPlace(e: Execution, turn: AssistantTurn, promptBuilt: bool)
    requires 1 <= e.attempt <= MAX_ATTEMPTS && At(e, Between(e.attempt, false))
    ensures InPlace(EndAttempt(e, turn, promptBuilt))
  {
    hide Read, ResultOutcome, BeginAttempt;
    if e.typed && ResultOutcome(e.executions).None? && e.attempt <= MAX_RESULT_FOLLOW_UPS {
      EmitAt(e, FollowUp(RESULT_FOLLOW_UP), Between(e.attempt, false));
      BeginAttemptInPlace(Emit(e, FollowUp(RESULT_FOLLOW_UP)), promptBuilt);
    }
  }

  lemma EndTurnInPlace(e: Execution, turn: AssistantTurn, executions: seq<ToolOutcome>, promptBuilt: bool)
    requires 1 <= e.attempt <= MAX_ATTEMPTS && At(e, InAttempt(e.attempt, LeadsOn(executions)))
    ensures InPlace(EndTurn(e, turn, executions, promptBuilt))
  {
    LeadsOnIsContinuing(executions);
    hide LeadsOn, ShouldContinue, Read, EndAttempt, ConversationItems;
    var e' := e.(runHistory := e.runHistory + ConversationItems(turn, executions), executions := e.executions + executions);
    if !ShouldContinue(executions) {
      EmitAt(e', AgentEnd, InAttempt(e.attempt, false));
      EndAttemptInPlace(Emit(e', AgentEnd), turn, promptBuilt);
    }
  }

  lemma StreamEventInPlace(e: Execution, event: StreamEvent)
    requires InPlace(e) && e.pc.Streaming? && InOrder(e.pc.started, event)
    ensures InPlace(HandleStreamEvent(e, event))
  {
    hide Read, ContinueTools;
    var n := e.attempt;
    match event
    case StartEvent =>
      EmitAt(e, TurnStart, InAttempt(n, true));
      EmitAt(Emit(e, TurnStart), MessageStart, InTurn(n));
    case UpdateEvent(update) => EmitAt(e, MessageUpdate(update), InMessage(n));
    case DoneEvent(blocks) =>
      var turn := AssistantTurn(blocks, CompletedTurn);
      EmitAt(e, MessageEnd(turn), InMessage(n));
      ContinueToolsInPlace(Emit(e, MessageEnd(turn)), turn, []);
    case ErrorEvent(blocks, aborted) =>
      EmitAt(e, MessageEnd(AssistantTurn(blocks, if aborted then AbortedTurn else ErrorTurn)), InMessage(n));
  }

  lemma FinishToolInPlace(e: Execution, reply: ToolReply)
    requires InPlace(e) && e.pc.RunningTool? && NextCall(e.pc.turn, e.pc.done).Some?
    ensures InPlace(FinishTool(e, reply))
  {
    hide Read, ContinueTools;
    var outcome := OutcomeFor(CollectToolCalls(e.pc.turn.blocks)[|e.pc.done|], reply);
    EmitAt(e, ToolEnd(outcome), InTool(e.attempt, e.pc.turn, e.pc.done));
    ContinueToolsInPlace(Emit(e, ToolEnd(outcome)), e.pc.turn, e.pc.done + [outcome]);
  }

  /** A completed turn exists only inside an attempt. */
  predicate AttemptBegun(e: Execution) {
    e.pc.NotBegun? || e.pc.Done? || e.attempt >= 1
  }

  // ---------- Disciplined providers ----------

  predicate Finishes(event: StreamEvent) {
    event.DoneEvent? || event.ErrorEvent?
  }

  /** A stream, or what came of it: one start, updates, one terminal event. */
  predicate OneMessage(stream: seq<StreamEvent>) {
    forall i :: 0 <= i < |stream| ==>
      && (stream[i].StartEvent? <==> i == 0)
      && (Finishes(stream[i]) ==> i == |stream| - 1)
  }

  predicate Disciplined(streams: seq<seq<StreamEvent>>) {
    forall i :: 0 <= i < |streams| ==> OneMessage(streams[i])
  }

  /** The event may come next in a stream that has started or not. */
  predicate InOrder(started: bool, event: StreamEvent) {
    event.StartEvent? <==> !started
  }

  /** The open stream has not finished, and has started if the turn has. */
  predicate Hears(e: Execution) {
    e.pc.Streaming? ==>
      && e.streams != []
      && var last := e.streams[|e.streams| - 1];
         && (forall i :: 0 <= i < |last| ==> !Finishes(last[i]))
         && (e.pc.started <==> exists i :: 0 <= i < |last| && last[i].StartEvent?)
  }

  lemma OneMore(stream: seq<StreamEvent>, started: bool, event: StreamEvent)
    requires forall i :: 0 <= i < |stream| ==> !Finishes(stream[i])
    requires started <==> exists i :: 0 <= i < |stream| && stream[i].StartEvent?
    ensures OneMessage(stream + [event]) <==> OneMessage(stream) && InOrder(started, event)
  {
    var longer := stream + [event];
    assert longer[|stream|] == event && forall i :: 0 <= i < |stream| ==> longer[i] == stream[i];
    if OneMessage(stream) && stream != [] {
      assert stream[0].StartEvent?;
    }
  }

  /** What one more input does to the discipline of the streams. */
  lemma HeardDiscipline(e: Execution, input: Input)
    requires Hears(e) && Enabled(e, input)
    ensures Disciplined(Heard(e.streams, input))
       <==> Disciplined(e.streams) && (input.StreamYields? ==> InOrder(e.pc.started, input.event))
  {
    hide OneMessage;
    var streams, heard := e.streams, Heard(e.streams, input);
    if input.StreamYields? {
      var front, last := streams[..|streams| - 1], streams[|streams| - 1];
      OneMore(last, e.pc.started, input.event);
      assert forall i :: 0 <= i < |front| ==> heard[i] == streams[i];
      assert heard[|front|] == last + [input.event];
      assert forall i :: 0 <= i < |streams| ==> i < |front| || streams[i] == last;
    } else if input.ProviderAnswers? {
      assert OneMessage([]) by { NoEvents(); }
      assert forall i :: 0 <= i < |streams| ==> heard[i] == streams[i];
      assert heard[|streams|] == [];
    }
  }

  lemma NoEvents()
    ensures OneMessage([])
  {
  }

  lemma StepHears(e: Execution, input: Input)
    requires Hears(e) && Enabled(e, input)
    ensures Hears(Step(e, input))
  {
    hide Step, Enabled;
    StepExtends(e, input);
    if Step(e, input).pc.Streaming? {
      StreamingAfter(e, input);
    }
    if Step(e, input).pc.Streaming? && input.StreamYields? {
      var last := e.streams[|e.streams| - 1];
      var longer := last + [input.event];
      assert longer[|last|] == input.event && forall i :: 0 <= i < |last| ==> longer[i] == last[i];
    }
  }

  /** A stream is open only behind the provider's answer or behind one of its events. */
  lemma StreamingAfter(e: Execution, input: Input)
    requires Enabled(e, input) && Step(e, input).pc.Streaming?
    ensures input.ProviderAnswers? || input.StreamYields?
    ensures input.ProviderAnswers? ==> !Step(e, input).pc.started
    ensures input.StreamYields? ==>
              && e.pc.Streaming? && !Finishes(input.event)
              && Step(e, input).pc.started == (e.pc.started || input.event.StartEvent?)
  {
    hide ItemsOf, Results, CollectToolCalls, ResultOutcome, Texts, JoinTexts, ShouldContinue, Heard;
  }

  /** With disciplined streams so far the run is in place; otherwise its log is outside the grammar for good. */
  predicate Judged(e: Execution) {
    && AttemptBegun(e) && Hears(e)
    && if Disciplined(e.streams) then InPlace(e) else Read(e.typed, Unstarted, e.log).None?
  }

  lemma StepStaysJudged(e: Execution, input: Input)
    requires Judged(e)
    ensures Judged(Step(e, input))
  {
    hide Read, Accept, AttemptBegun, Step, Enabled, Hears, Disciplined, InPlace, Heard;
    if !Enabled(e, input) {
      Ignored(e, input);
    } else {
      StepKeepsAttempt(e, input);
      StepExtends(e, input);
      StepHears(e, input);
      HeardDiscipline(e, input);
      if !Disciplined(e.streams) {
        RejectedStaysRejected(e.typed, Unstarted, e.log, Step(e, input).log);
      } else if Disciplined(Step(e, input).streams) {
        StepInPlace(e, input);
      } else {
        IndisciplineIsRejected(e, input);
      }
    }
  }

  lemma Ignored(e: Execution, input: Input)
    requires !Enabled(e, input)
    ensures Step(e, input) == e
  {
  }

  lemma StepKeepsAttempt(e: Execution, input: Input)
    requires AttemptBegun(e)
    ensures AttemptBegun(Step(e, input))
  {
    hide ItemsOf, Results, CollectToolCalls, ResultOutcome, Texts, JoinTexts, ShouldContinue, Heard;
  }

  predicate Terminal(event: AgentEvent) {
    event.RunEnd? || event.RunFault?
  }

  predicate NoTerminal(log: seq<AgentEvent>) {
    forall i :: 0 <= i < |log| ==> !Terminal(log[i])
  }

  /** The same run, further along, and not closed in between. */
  predicate Extends(e: Execution, later: Execution) {
    && later.typed == e.typed && later.committed == e.committed && later.prompt == e.prompt && later.streams == e.streams
    && e.log <= later.log && (NoTerminal(e.log) ==> NoTerminal(later.log))
  }

  lemma EmitExtends(e: Execution, event: AgentEvent)
    requires !Terminal(event)
    ensures Extends(e, Emit(e, event))
  {
    hide ItemsOf;
    assert NoTerminal([event]);
  }

  lemma BeginAttemptExtends(e: Execution, promptBuilt: bool)
    ensures Extends(e, BeginAttempt(e, promptBuilt))
  {
    hide Emit, NoTerminal;
    EmitExtends(e, AgentStart);
  }

  lemma ContinueToolsExtends(e: Execution, turn: AssistantTurn, done: seq<ToolOutcome>)
    ensures Extends(e, ContinueTools(e, turn, done))
  {
    hide Emit, CollectToolCalls, NoTerminal;
    var calls := CollectToolCalls(turn.blocks);
    EmitExtends(e, TurnEnd(turn, done));
    if |done| < |calls| {
      EmitExtends(e, ToolStart(calls[|done|]));
    }
  }

  lemma EndTurnExtends(e: Execution, turn: AssistantTurn, executions: seq<ToolOutcome>, promptBuilt: bool)
    ensures Extends(e, EndTurn(e, turn, executions, promptBuilt))
  {
    hide Emit, BeginAttempt, ResultOutcome, AssistantText, ShouldContinue, ConversationItems, NoTerminal;
    var e' := e.(runHistory := e.runHistory + ConversationItems(turn, executions), executions := e.executions + executions);
    var ended := Emit(e', AgentEnd);
    EmitExtends(e', AgentEnd);
    EmitExtends(ended, FollowUp(RESULT_FOLLOW_UP));
    BeginAttemptExtends(Emit(ended, FollowUp(RESULT_FOLLOW_UP)), promptBuilt);
  }

  lemma StreamEventExtends(e: Execution, event: StreamEvent)
    requires e.pc.Streaming?
    ensures Extends(e, HandleStreamEvent(e, event))
    ensures e.log + [FirstEvent(event)] <= HandleStreamEvent(e, event).log
  {
    hide ItemsOf, ContinueTools, NoTerminal;
    EmitExtends(e, FirstEvent(event));
    if event.StartEvent? {
      EmitExtends(Emit(e, TurnStart), MessageStart);
    } else if event.DoneEvent? {
      var turn := AssistantTurn(event.blocks, CompletedTurn);
      ContinueToolsExtends(Emit(e, MessageEnd(turn)), turn, []);
    }
  }

  lemma StretchExtends(e: Execution, input: Input)
    requires Enabled(e, input)
    ensures Extends(e, Stretch(e, input))
  {
    hide BeginAttempt, HandleStreamEvent, ContinueTools, EndTurn, Emit, OutcomeFor, CollectToolCalls, NoTerminal;
    match input
    case Begin(promptBuilt) => BeginAttemptExtends(e, promptBuilt);
    case StreamYields(event) => StreamEventExtends(e, event);
    case ToolReturns(reply) =>
      var outcome := OutcomeFor(CollectToolCalls(e.pc.turn.blocks)[|e.pc.done|], reply);
      EmitExtends(e, ToolEnd(outcome));
      ContinueToolsExtends(Emit(e, ToolEnd(outcome)), e.pc.turn, e.pc.done + [outcome]);
    case Closed(promptBuilt) =>
      if e.pc.next.TurnDone? {
        EndTurnExtends(e, e.pc.next.turn, e.pc.next.executions, promptBuilt);
      }
    case _ =>
  }

  /** A step keeps the run's data, only appends to the log, and never closes it. */
  lemma StepExtends(e: Execution, input: Input)
    ensures Extends(e.(streams := Step(e, input).streams), Step(e, input))
    ensures Step(e, input).streams == if Enabled(e, input) then Heard(e.streams, input) else e.streams
  {
    hide Stretch, Heard, NoTerminal;
    if Enabled(e, input) {
      StretchExtends(e.(streams := Heard(e.streams, input)), input);
    }
  }

  lemma {:induction false} RejectedStaysRejected(typed: bool, p: Position, log: seq<AgentEvent>, longer: seq<AgentEvent>)
    requires log <= longer && Read(typed, p, log).None?
    ensures Read(typed, p, longer).None?
    decreases log
  {
    hide Accept;
    if log != [] && Accept(typed, p, log[0]).Some? {
      RejectedStaysRejected(typed, Accept(typed, p, log[0]).value, log[1..], longer[1..]);
    }
  }

  /** The first event of a stream out of order has no place in the log. */
  lemma IndisciplineIsRejected(e: Execution, input: Input)
    requires Enabled(e, input) && InPlace(e) && input.StreamYields? && !InOrder(e.pc.started, input.event)
    ensures Read(e.typed, Unstarted, Step(e, input).log).None?
  {
    hide Read, ContinueTools, Heard, HandleStreamEvent;
    var e', event := e.(streams := Heard(e.streams, input)), input.event;
    var first := FirstEvent(event);
    StreamEventExtends(e', event);
    ReadOne(e.typed, Unstarted, e.log, first);
    RejectedStaysRejected(e.typed, Unstarted, e.log + [first], HandleStreamEvent(e', event).log);
  }

  function FirstEvent(event: StreamEvent): AgentEvent {
    match event
    case StartEvent => TurnStart
    case UpdateEvent(update) => MessageUpdate(update)
    case DoneEvent(blocks) => MessageEnd(AssistantTurn(blocks, CompletedTurn))
    case ErrorEvent(blocks, aborted) => MessageEnd(AssistantTurn(blocks, if aborted then AbortedTurn else ErrorTurn))
  }

  lemma StretchInPlace(e: Execution, input: Input)
    requires AttemptBegun(e) && InPlace(e) && Enabled(e, input)
    requires input.StreamYields? ==> InOrder(e.pc.started, input.event)
    ensures InPlace(Stretch(e, input))
  {
    hide Read, BeginAttempt, HandleStreamEvent, FinishTool, EndTurn, Accept, InOrder, LeadsOn;
    match input
    case Begin(promptBuilt) => BeginAttemptInPlace(e, promptBuilt);
    case StreamYields(event) => StreamEventInPlace(e, event);
    case ToolReturns(reply) => FinishToolInPlace(e, reply);
    case Closed(promptBuilt) =>
      if e.pc.next.TurnDone? {
        EndTurnInPlace(e, e.pc.next.turn, e.pc.next.executions, promptBuilt);
      }
    case _ =>
  }

  lemma StepInPlace(e: Execution, input: Input)
    requires AttemptBegun(e) && InPlace(e) && Enabled(e, input)
    requires input.StreamYields? ==> InOrder(e.pc.started, input.event)
    ensures InPlace(Step(e, input))
  {
    hide Read, Stretch, Heard, InOrder, LeadsOn;
    StretchInPlace(e.(streams := Heard(e.streams, input)), input);
  }

  lemma StartInPlace(typed: bool, committed: seq<Item>, prompt: string)
    ensures Judged(Start(typed, committed, prompt))
  {
    ReadOne(typed, Unstarted, [], RunStart);
    assert [] + [RunStart] == [RunStart];
  }

  lemma {:induction false} RunIsJudged(e: Execution, inputs: seq<Input>)
    requires Judged(e)
    ensures Judged(Run(e, inputs)) && Run(e, inputs).typed == e.typed
    decreases inputs
  {
    hide Step, Judged;
    if inputs != [] {
      StepStaysJudged(e, inputs[0]);
      StepExtends(e, inputs[0]);
      RunIsJudged(Step(e, inputs[0]), inputs[1..]);
    }
  }

  lemma {:induction false} RunHears(e: Execution, inputs: seq<Input>)
    ensures Run(e, inputs).streams == StreamsIn(e.streams, Fitting(e, inputs))
    decreases inputs
  {
    hide Step, Enabled, Heard;
    if inputs != [] {
      StepExtends(e, inputs[0]);
      var rest := Fitting(Step(e, inputs[0]), inputs[1..]);
      RunHears(Step(e, inputs[0]), inputs[1..]);
      Cons(inputs[0], rest);
      assert [] + rest == rest;
    }
  }

  lemma JudgedCloses(e: Execution, terminal: AgentEvent)
    requires Judged(e) && Terminal(terminal)
    ensures Read(e.typed, Unstarted, e.log).Some? <==> Disciplined(e.streams)
    ensures Read(e.typed, Unstarted, e.log + [terminal]) == Some(Ended) <==> Disciplined(e.streams)
    ensures Disciplined(e.streams) ==> Open(e) && e.attempt <= MAX_ATTEMPTS
  {
    hide Read, Disciplined, Hears, AttemptBegun;
    ReadOne(e.typed, Unstarted, e.log, terminal);
  }

  /**
   * A live log, wherever the run stops, is in the grammar exactly when every provider stream among the
   * inputs is one start, updates and one terminal event, as far as it came; a terminal event then closes
   * it, after at most 9 attempts.
   */
  lemma LogIsGrammatical(typed: bool, committed: seq<Item>, prompt: string, inputs: seq<Input>, terminal: AgentEvent)
    requires terminal.RunEnd? || terminal.RunFault?
    ensures var start := Start(typed, committed, prompt);
            var e, disciplined := Run(start, inputs), Disciplined(StreamsIn([], Fitting(start, inputs)));
            && (Read(typed, Unstarted, e.log).Some? <==> disciplined)
            && (Read(typed, Unstarted, e.log + [terminal]) == Some(Ended) <==> disciplined)
            && (disciplined ==> Open(e) && e.attempt <= MAX_ATTEMPTS)
  {
    hide Read, Run, StreamsIn, Fitting, Disciplined, Judged, Open;
    var start := Start(typed, committed, prompt);
    StartInPlace(typed, committed, prompt);
    RunIsJudged(start, inputs);
    RunHears(start, inputs);
    JudgedCloses(Run(start, inputs), terminal);
  }
}
