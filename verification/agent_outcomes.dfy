/** How the live log decides the outcome of a run that returns. */
module AgentOutcomes {
  import opened Wrappers
  import opened Sequences
  import opened Conversation
  import opened RunEvents
  import opened AgentRun
  import G = AgentGrammar

  // ---------- What a log says ----------

  function ExecutionOf(event: AgentEvent): seq<ToolOutcome> {
    if event.ToolEnd? then [event.execution] else []
  }

  /** All tool executions of the run, over all attempts and turns. */
  function ExecutionsIn(log: seq<AgentEvent>): seq<ToolOutcome>
  {
    if log == [] then [] else ExecutionsIn(log[..|log| - 1]) + ExecutionOf(log[|log| - 1])
  }

  function CompletedTurnOf(event: AgentEvent): Option<AssistantTurn> {
    if event.MessageEnd? && event.turn.status.CompletedTurn? then Some(event.turn) else None
  }

  function LastTurn(log: seq<AgentEvent>): Option<AssistantTurn> {
    if log == [] then None
    else if CompletedTurnOf(log[|log| - 1]).Some? then CompletedTurnOf(log[|log| - 1])
    else LastTurn(log[..|log| - 1])
  }

  lemma LogSnoc(log: seq<AgentEvent>, event: AgentEvent)
    ensures ExecutionsIn(log + [event]) == ExecutionsIn(log) + ExecutionOf(event)
    ensures LastTurn(log + [event]) == if CompletedTurnOf(event).Some? then CompletedTurnOf(event) else LastTurn(log)
  {
    hide ExecutionOf, CompletedTurnOf;
    var longer := log + [event];
    assert longer[..|longer| - 1] == log && longer[|longer| - 1] == event;
  }

  // ---------- Earlier attempts decided nothing ----------

  predicate EndsIn(all: seq<ToolOutcome>, current: seq<ToolOutcome>) {
    && |current| <= |all|
    && all[|all| - |current|..] == current
    && ResultOutcome(all[..|all| - |current|]).None?
  }

  lemma {:induction false} ResultOutcomeConcat(a: seq<ToolOutcome>, b: seq<ToolOutcome>)
    ensures ResultOutcome(a + b) == if ResultOutcome(a).Some? then ResultOutcome(a) else ResultOutcome(b)
    decreases a
  {
    hide Decision;
    if a == [] {
      assert [] + b == b;
    } else {
      ConcatTail(a, b);
      ResultOutcomeConcat(a[1..], b);
    }
  }

  lemma EndsInSnoc(all: seq<ToolOutcome>, current: seq<ToolOutcome>, outcome: ToolOutcome)
    requires EndsIn(all, current)
    ensures EndsIn(all + [outcome], current + [outcome])
  {
    hide ResultOutcome;
    var k := |all| - |current|;
    assert (all + [outcome])[k..] == all[k..] + [outcome];
    assert (all + [outcome])[..k] == all[..k];
  }

  lemma EndsInOutcome(all: seq<ToolOutcome>, current: seq<ToolOutcome>)
    requires EndsIn(all, current)
    ensures ResultOutcome(all) == ResultOutcome(current)
    ensures ResultOutcome(current).None? ==> EndsIn(all, [])
  {
    var k := |all| - |current|;
    Cut(all, k);
    ResultOutcomeConcat(all[..k], all[k..]);
    hide ResultOutcome;
    assert all[|all|..] == [] && all[..|all|] == all;
  }

  // ---------- The invariant ----------

  const EXHAUSTED := Failed(AgentFailure(NO_RESULT_REASON))

  /** The outcome of the turn's executions, added to those of the attempt's earlier turns. */
  predicate TurnUnderway(e: Execution, turn: AssistantTurn, done: seq<ToolOutcome>) {
    EndsIn(ExecutionsIn(e.log), e.executions + done) && LastTurn(e.log) == Some(turn)
  }

  predicate Decided(e: Execution, outcome: RunOutcome) {
    if e.typed then
      var result := ResultOutcome(ExecutionsIn(e.log));
      outcome == result.GetOr(EXHAUSTED) && (result.None? ==> e.attempt == MAX_ATTEMPTS)
    else
      LastTurn(e.log).Some? && outcome == Completed(AssistantText(LastTurn(e.log).value.blocks))
  }

  /**
   * What the log decides, told by the log alone: a plain run gives the text of its last completed turn, a
   * typed run what its first deciding call says; without one it is exhausted, after exactly 9 attempts.
   */
  ghost predicate DecidedByLog(typed: bool, log: seq<AgentEvent>, attempt: nat, outcome: RunOutcome) {
    var calls := ExecutionsIn(log);
    if !typed then LastTurn(log).Some? && outcome == Completed(AssistantText(LastTurn(log).value.blocks))
    else if exists i :: 0 <= i < |calls| && Decides(calls[i]) then DecidedFirst(calls, outcome)
    else outcome == Failed(AgentFailure(NO_RESULT_REASON)) && attempt == 9
  }

  lemma DecidedMeans(e: Execution, outcome: RunOutcome)
    requires Decided(e, outcome)
    ensures DecidedByLog(e.typed, e.log, e.attempt, outcome)
  {
    hide ExecutionsIn, LastTurn, ResultOutcome, AssistantText, Decides, DecidedFirst;
    NoDecisionNoOutcome(ExecutionsIn(e.log));
    OutcomeIsDecidedFirst(ExecutionsIn(e.log));
  }

  /** The log breaks off behind a message that ended in an error. */
  predicate BrokenOff(log: seq<AgentEvent>) {
    log != [] && log[|log| - 1].MessageEnd? && !log[|log| - 1].turn.status.CompletedTurn?
  }

  predicate OnCourse(e: Execution) {
    && e.attempt <= MAX_ATTEMPTS
    && match e.pc
       case NotBegun => e.attempt == 0 && EndsIn(ExecutionsIn(e.log), [])
       case CallingProvider => EndsIn(ExecutionsIn(e.log), e.executions)
       case Streaming(_) => EndsIn(ExecutionsIn(e.log), e.executions)
       case RunningTool(turn, done) => TurnUnderway(e, turn, done)
       case Closing(TurnDone(turn, executions)) => TurnUnderway(e, turn, executions)
       case Closing(Raises(cause)) => cause.TurnFailure? ==> BrokenOff(e.log)
       case Done(Returned(outcome)) => Decided(e, outcome)
       case Done(Raised(cause)) => cause.TurnFailure? ==> BrokenOff(e.log)
       case _ => true
  }

  lemma EmitPlain(e: Execution, event: AgentEvent)
    requires !event.ToolEnd? && CompletedTurnOf(event).None?
    ensures ExecutionsIn(Emit(e, event).log) == ExecutionsIn(e.log) && LastTurn(Emit(e, event).log) == LastTurn(e.log)
  {
    LogSnoc(e.log, event);
    assert ExecutionsIn(e.log) + [] == ExecutionsIn(e.log);
    hide ExecutionsIn, LastTurn, ItemsOf;
  }

  lemma BeginAttemptOnCourse(e: Execution, promptBuilt: bool)
    requires e.attempt <= MAX_RESULT_FOLLOW_UPS && EndsIn(ExecutionsIn(e.log), [])
    ensures OnCourse(BeginAttempt(e, promptBuilt))
  {
    EmitPlain(e, AgentStart);
    hide EndsIn, ExecutionsIn, LastTurn, ItemsOf;
  }

  lemma ContinueToolsOnCourse(e: Execution, turn: AssistantTurn, done: seq<ToolOutcome>)
    requires e.attempt <= MAX_ATTEMPTS && TurnUnderway(e, turn, done)
    ensures OnCourse(ContinueTools(e, turn, done))
  {
    hide EndsIn, ExecutionsIn, LastTurn, ItemsOf, CollectToolCalls;
    var calls := CollectToolCalls(turn.blocks);
    EmitPlain(e, TurnEnd(turn, done));
    if |done| < |calls| {
      EmitPlain(e, ToolStart(calls[|done|]));
    }
  }

  lemma EndAttemptOnCourse(e: Execution, turn: AssistantTurn, promptBuilt: bool)
    requires e.attempt <= MAX_ATTEMPTS
    requires EndsIn(ExecutionsIn(e.log), e.executions) && LastTurn(e.log) == Some(turn)
    ensures OnCourse(EndAttempt(e, turn, promptBuilt))
  {
    hide EndsIn, ExecutionsIn, LastTurn, ItemsOf, ResultOutcome, BeginAttempt, Emit, AssistantText;
    EndsInOutcome(ExecutionsIn(e.log), e.executions);
    if e.typed && ResultOutcome(e.executions).None? && e.attempt <= MAX_RESULT_FOLLOW_UPS {
      EmitPlain(e, FollowUp(RESULT_FOLLOW_UP));
      EmitKeepsAttempt(e, FollowUp(RESULT_FOLLOW_UP));
      BeginAttemptOnCourse(Emit(e, FollowUp(RESULT_FOLLOW_UP)), promptBuilt);
    }
  }

  lemma EmitKeepsAttempt(e: Execution, event: AgentEvent)
    ensures Emit(e, event).attempt == e.attempt && Emit(e, event).executions == e.executions
  {
  }

  lemma EndTurnOnCourse(e: Execution, turn: AssistantTurn, executions: seq<ToolOutcome>, promptBuilt: bool)
    requires e.attempt <= MAX_ATTEMPTS && TurnUnderway(e, turn, executions)
    ensures OnCourse(EndTurn(e, turn, executions, promptBuilt))
  {
    hide EndsIn, ExecutionsIn, LastTurn, ItemsOf, EndAttempt, ConversationItems, ShouldContinue;
    var e' := e.(runHistory := e.runHistory + ConversationItems(turn, executions), executions := e.executions + executions);
    if !ShouldContinue(executions) {
      EmitPlain(e', AgentEnd);
      EndAttemptOnCourse(Emit(e', AgentEnd), turn, promptBuilt);
    }
  }

  lemma StreamEventOnCourse(e: Execution, event: StreamEvent)
    requires OnCourse(e) && e.pc.Streaming?
    ensures OnCourse(HandleStreamEvent(e, event))
  {
    hide EndsIn, ExecutionsIn, LastTurn, ItemsOf, ContinueTools;
    match event
    case StartEvent =>
      EmitPlain(e, TurnStart);
      EmitPlain(Emit(e, TurnStart), MessageStart);
    case UpdateEvent(update) => EmitPlain(e, MessageUpdate(update));
    case DoneEvent(blocks) =>
      var turn := AssistantTurn(blocks, CompletedTurn);
      LogSnoc(e.log, MessageEnd(turn));
      assert ExecutionsIn(e.log) + [] == ExecutionsIn(e.log) && e.executions + [] == e.executions;
      ContinueToolsOnCourse(Emit(e, MessageEnd(turn)), turn, []);
    case ErrorEvent(blocks, aborted) =>
  }

  lemma FinishToolOnCourse(e: Execution, reply: ToolReply)
    requires OnCourse(e) && e.pc.RunningTool? && |e.pc.done| < |CollectToolCalls(e.pc.turn.blocks)|
    ensures OnCourse(FinishTool(e, reply))
  {
    hide EndsIn, ExecutionsIn, LastTurn, ItemsOf, ContinueTools, CollectToolCalls, OutcomeFor;
    var turn, done := e.pc.turn, e.pc.done;
    var outcome := OutcomeFor(CollectToolCalls(turn.blocks)[|done|], reply);
    LogSnoc(e.log, ToolEnd(outcome));
    EndsInSnoc(ExecutionsIn(e.log), e.executions + done, outcome);
    Assoc(e.executions, done, [outcome]);
    ContinueToolsOnCourse(Emit(e, ToolEnd(outcome)), turn, done + [outcome]);
  }

  lemma StretchStaysOnCourse(e: Execution, input: Input)
    requires OnCourse(e) && Enabled(e, input)
    ensures OnCourse(Stretch(e, input))
  {
    hide EndsIn, ExecutionsIn, LastTurn, ItemsOf, BeginAttempt, HandleStreamEvent, FinishTool, EndTurn, CollectToolCalls,
      ResultOutcome, TurnUnderway;
    match input
    case Begin(promptBuilt) => BeginAttemptOnCourse(e, promptBuilt);
    case StreamYields(event) => StreamEventOnCourse(e, event);
    case ToolReturns(reply) => FinishToolOnCourse(e, reply);
    case Closed(promptBuilt) =>
      if e.pc.next.TurnDone? {
        EndTurnOnCourse(e, e.pc.next.turn, e.pc.next.executions, promptBuilt);
      }
    case _ =>
  }

  lemma StepStaysOnCourse(e: Execution, input: Input)
    requires OnCourse(e)
    ensures OnCourse(Step(e, input))
  {
    hide EndsIn, ExecutionsIn, LastTurn, Stretch, Heard, ResultOutcome;
    if Enabled(e, input) {
      StretchStaysOnCourse(e.(streams := Heard(e.streams, input)), input);
    }
  }

  lemma {:induction false} RunStaysOnCourse(e: Execution, inputs: seq<Input>)
    requires OnCourse(e)
    ensures OnCourse(Run(e, inputs))
    decreases inputs
  {
    hide OnCourse, Step;
    if inputs != [] {
      StepStaysOnCourse(e, inputs[0]);
      RunStaysOnCourse(Step(e, inputs[0]), inputs[1..]);
    }
  }

  lemma {:induction false} RunKeepsData(e: Execution, inputs: seq<Input>)
    ensures var later := Run(e, inputs);
            later.typed == e.typed && later.committed == e.committed && later.prompt == e.prompt && e.log <= later.log
    decreases inputs
  {
    hide Step;
    if inputs != [] {
      G.StepExtends(e, inputs[0]);
      RunKeepsData(Step(e, inputs[0]), inputs[1..]);
    }
  }

  lemma StartIsOnCourse(typed: bool, committed: seq<Item>, prompt: string)
    ensures OnCourse(Start(typed, committed, prompt))
  {
    LogSnoc([], RunStart);
    assert [] + [RunStart] == [RunStart];
  }

  /**
   * A run that returns: a plain run with the text of its last completed turn; a typed run with the
   * first complete or fail execution of the whole log, or exhausted after exactly 9 attempts. A run that
   * fails on its turn stops behind the message that failed.
   */
  lemma LogDecidesOutcome(typed: bool, committed: seq<Item>, prompt: string, inputs: seq<Input>)
    ensures var e := Run(Start(typed, committed, prompt), inputs);
            && e.attempt <= 9
            && (e.pc.Done? && e.pc.result.Returned? ==> DecidedByLog(typed, e.log, e.attempt, e.pc.result.outcome))
            && (e.pc.Done? && e.pc.result == Raised(TurnFailure) ==> BrokenOff(e.log))
  {
    StartIsOnCourse(typed, committed, prompt);
    RunStaysOnCourse(Start(typed, committed, prompt), inputs);
    RunKeepsData(Start(typed, committed, prompt), inputs);
    hide Run, EndsIn, Decided, BrokenOff, DecidedByLog;
    var e := Run(Start(typed, committed, prompt), inputs);
    if e.pc.Done? && e.pc.result.Returned? {
      DecidedMeans(e, e.pc.result.outcome);
    }
  }

  // ---------- The text of a turn ----------

  lemma {:induction false} TextsConcat(a: seq<Block>, b: seq<Block>)
    ensures Texts(a + b) == Texts(a) + Texts(b)
    decreases a
  {
    if a == [] {
      assert [] + b == b && [] + Texts(b) == Texts(b);
    } else {
      ConcatTail(a, b);
      TextsConcat(a[1..], b);
      Assoc(if a[0].TextBlock? then [a[0].text] else [], Texts(a[1..]), Texts(b));
    }
  }

  lemma {:induction false} JoinTextsSnoc(texts: seq<string>, text: string)
    requires texts != []
    ensures JoinTexts(texts + [text]) == JoinTexts(texts) + ("\n\n" + text)
    decreases texts
  {
    ConcatTail(texts, [text]);
    if |texts| == 1 {
      assert texts[1..] + [text] == [text];
      assert texts[0] + "\n\n" + text == texts[0] + ("\n\n" + text);
    } else {
      JoinTextsSnoc(texts[1..], text);
      Assoc(texts[0] + "\n\n", JoinTexts(texts[1..]), "\n\n" + text);
    }
  }

  /** Text blocks are set apart by blank lines; other blocks leave no trace. */
  lemma AssistantTextGrows(blocks: seq<Block>, block: Block)
    ensures AssistantText([]) == ""
    ensures AssistantText(blocks + [block])
         == if !block.TextBlock? then AssistantText(blocks)
            else if Texts(blocks) == [] then block.text
            else AssistantText(blocks) + ("\n\n" + block.text)
  {
    TextsConcat(blocks, [block]);
    assert [block][1..] == [] && Texts([block]) == if block.TextBlock? then [block.text] else [];
    assert Texts(blocks) + [] == Texts(blocks) && [] + Texts([block]) == Texts([block]);
    if block.TextBlock? && Texts(blocks) != [] {
      JoinTextsSnoc(Texts(blocks), block.text);
    }
  }
}
