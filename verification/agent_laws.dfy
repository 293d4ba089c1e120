/** What holds at every await of every run, for every provider and every failure or cancellation. */
module AgentLaws {
  import opened Wrappers
  import opened Sequences
  import opened Conversation
  import opened RunEvents
  import opened AgentRun

  // ---------- The histories ----------

  /** The prompt and the items of the log. */
  function Observed(e: Execution): seq<Item> {
    [UserMessage(e.prompt)] + ItemsOf(e.log)
  }

  /** The run-local history is the committed history and the delta; the delta is what was observed. */
  predicate Fed(e: Execution) {
    e.working == e.committed + e.delta && e.delta == Observed(e)
  }

  /** The agent's own list, and the part of the current turn it does not have yet. */
  predicate AgentAgrees(e: Execution) {
    match e.pc
    case CallingProvider => e.runHistory == e.working
    case Streaming(_) => e.runHistory == e.working
    case RunningTool(turn, done) => e.working == e.runHistory + ConversationItems(turn, done)
    case Closing(TurnDone(turn, executions)) => e.working == e.runHistory + ConversationItems(turn, executions)
    case _ => true
  }

  /** The delta can be replayed; what is pending is what the current turn still has to run. */
  predicate Replayable(e: Execution) {
    match e.pc
    case RunningTool(turn, done) =>
      var calls := CollectToolCalls(turn.blocks);
      |done| < |calls| && Replay([], e.delta) == Some(calls[|done|..])
    case Closing(next) => if next.TurnDone? then WellFormed(e.delta) else Replay([], e.delta).Some?
    case Done(_) => Replay([], e.delta).Some?
    case _ => WellFormed(e.delta)
  }

  predicate Consistent(e: Execution) {
    Fed(e) && AgentAgrees(e) && Replayable(e)
  }

  lemma EmitSilent(e: Execution, event: AgentEvent)
    requires ConversationItemFor(event).None?
    ensures Emit(e, event) == e.(log := e.log + [event])
    ensures Fed(e) ==> Fed(Emit(e, event))
  {
    ItemsOne(event);
    ItemsConcat(e.log, [event]);
    hide ItemsOf, ConversationItemFor;
    assert e.working + [] == e.working && e.delta + [] == e.delta;
    assert ItemsOf(e.log) + [] == ItemsOf(e.log);
  }

  lemma EmitItem(e: Execution, event: AgentEvent)
    requires ConversationItemFor(event).Some?
    ensures var item := ConversationItemFor(event).value;
            Emit(e, event) == e.(log := e.log + [event], working := e.working + [item], delta := e.delta + [item])
    ensures Fed(e) ==> Fed(Emit(e, event))
  {
    ItemsOne(event);
    ItemsConcat(e.log, [event]);
    hide ItemsOf, ConversationItemFor;
    var item := ConversationItemFor(event).value;
    Assoc(e.committed, e.delta, [item]);
    Assoc([UserMessage(e.prompt)], ItemsOf(e.log), [item]);
  }

  lemma {:induction false} ResultsSnoc(executions: seq<ToolOutcome>, outcome: ToolOutcome)
    ensures Results(executions + [outcome]) == Results(executions) + [outcome.result]
  {
    if executions == [] {
      assert [] + [outcome] == [outcome] && [outcome][1..] == [];
    } else {
      ConcatTail(executions, [outcome]);
      ResultsSnoc(executions[1..], outcome);
      Assoc([executions[0].result], Results(executions[1..]), [outcome.result]);
    }
  }

  lemma ItemsSnoc(turn: AssistantTurn, executions: seq<ToolOutcome>, outcome: ToolOutcome, before: seq<Item>)
    ensures before + ConversationItems(turn, executions + [outcome])
         == before + ConversationItems(turn, executions) + [outcome.result]
  {
    ResultsSnoc(executions, outcome);
    Assoc([Assistant(turn)], Results(executions), [outcome.result]);
    Assoc(before, ConversationItems(turn, executions), [outcome.result]);
  }

  lemma StartIsConsistent(typed: bool, committed: seq<Item>, prompt: string)
    ensures Consistent(Start(typed, committed, prompt))
  {
    ItemsOne(RunStart);
    var message := [UserMessage(prompt)];
    assert message + [] == message && [] + message == message;
    ReplayOne([], [], UserMessage(prompt));
  }

  lemma BeginAttemptKeeps(e: Execution, promptBuilt: bool)
    requires Fed(e) && WellFormed(e.delta)
    ensures Consistent(BeginAttempt(e, promptBuilt))
  {
    EmitSilent(e, AgentStart);
  }

  lemma ContinueToolsKeeps(e: Execution, turn: AssistantTurn, done: seq<ToolOutcome>)
    requires Fed(e) && e.working == e.runHistory + ConversationItems(turn, done)
    requires var calls := CollectToolCalls(turn.blocks);
             |done| <= |calls| && Replay([], e.delta) == Some(calls[|done|..])
    ensures Consistent(ContinueTools(e, turn, done))
  {
    hide Replay, ItemsOf, ConversationItems, CollectToolCalls;
    var calls := CollectToolCalls(turn.blocks);
    if |done| < |calls| {
      EmitSilent(e, ToolStart(calls[|done|]));
    } else {
      assert calls[|done|..] == [];
      EmitSilent(e, TurnEnd(turn, done));
    }
  }

  lemma EndAttemptKeeps(e: Execution, turn: AssistantTurn, promptBuilt: bool)
    requires Fed(e) && WellFormed(e.delta)
    ensures Consistent(EndAttempt(e, turn, promptBuilt))
  {
    hide ItemsOf, Replay, ResultOutcome, BeginAttempt, Emit;
    if e.typed && ResultOutcome(e.executions).None? && e.attempt <= MAX_RESULT_FOLLOW_UPS {
      EmitItem(e, FollowUp(RESULT_FOLLOW_UP));
      ReplayOne([], e.delta, UserMessage(RESULT_FOLLOW_UP));
      BeginAttemptKeeps(Emit(e, FollowUp(RESULT_FOLLOW_UP)), promptBuilt);
    }
  }

  lemma EndTurnKeeps(e: Execution, turn: AssistantTurn, executions: seq<ToolOutcome>, promptBuilt: bool)
    requires Fed(e) && WellFormed(e.delta) && e.working == e.runHistory + ConversationItems(turn, executions)
    ensures Consistent(EndTurn(e, turn, executions, promptBuilt))
  {
    hide ItemsOf, Replay, EndAttempt, Emit;
    var e' := e.(runHistory := e.runHistory + ConversationItems(turn, executions), executions := e.executions + executions);
    assert Fed(e');
    if !ShouldContinue(executions) {
      EmitSilent(e', AgentEnd);
      EndAttemptKeeps(Emit(e', AgentEnd), turn, promptBuilt);
    }
  }

  lemma StreamEventKeeps(e: Execution, event: StreamEvent)
    requires Consistent(e) && e.pc.Streaming?
    ensures Consistent(HandleStreamEvent(e, event))
  {
    hide ItemsOf, Replay, Emit, ContinueTools, CollectToolCalls;
    match event
    case StartEvent =>
      EmitSilent(e, TurnStart);
      EmitSilent(Emit(e, TurnStart), MessageStart);
    case UpdateEvent(update) => EmitSilent(e, MessageUpdate(update));
    case DoneEvent(blocks) =>
      var turn := AssistantTurn(blocks, CompletedTurn);
      EmitItem(e, MessageEnd(turn));
      ReplayOne([], e.delta, Assistant(turn));
      assert CollectToolCalls(blocks)[0..] == CollectToolCalls(blocks);
      assert ConversationItems(turn, []) == [Assistant(turn)] by { assert [Assistant(turn)] + [] == [Assistant(turn)]; }
      ContinueToolsKeeps(Emit(e, MessageEnd(turn)), turn, []);
    case ErrorEvent(blocks, aborted) =>
      EmitSilent(e, MessageEnd(AssistantTurn(blocks, if aborted then AbortedTurn else ErrorTurn)));
  }

  lemma FinishToolKeeps(e: Execution, reply: ToolReply)
    requires Consistent(e) && e.pc.RunningTool?
    ensures Consistent(FinishTool(e, reply))
  {
    hide ItemsOf, Replay, Emit, ContinueTools, CollectToolCalls, ConversationItems;
    var turn, done := e.pc.turn, e.pc.done;
    var calls := CollectToolCalls(turn.blocks);
    var outcome := OutcomeFor(calls[|done|], reply);
    EmitItem(e, ToolEnd(outcome));
    ReplayOne([], e.delta, outcome.result);
    DropDrop(calls, |done|, 1);
    ItemsSnoc(turn, done, outcome, e.runHistory);
    ContinueToolsKeeps(Emit(e, ToolEnd(outcome)), turn, done + [outcome]);
  }

  lemma StretchKeepsConsistent(e: Execution, input: Input)
    requires Consistent(e) && Enabled(e, input)
    ensures Consistent(Stretch(e, input))
  {
    hide ItemsOf, Replay, BeginAttempt, HandleStreamEvent, FinishTool, EndTurn, ConversationItems, CollectToolCalls;
    match input
    case Begin(promptBuilt) => BeginAttemptKeeps(e, promptBuilt);
    case StreamYields(event) => StreamEventKeeps(e, event);
    case ToolReturns(reply) => FinishToolKeeps(e, reply);
    case Closed(promptBuilt) =>
      if e.pc.next.TurnDone? {
        EndTurnKeeps(e, e.pc.next.turn, e.pc.next.executions, promptBuilt);
      }
    case _ =>
  }

  lemma StepKeepsConsistent(e: Execution, input: Input)
    requires Consistent(e)
    ensures Consistent(Step(e, input))
  {
    hide ItemsOf, Replay, Stretch, ConversationItems, CollectToolCalls, Heard;
    if Enabled(e, input) {
      StretchKeepsConsistent(e.(streams := Heard(e.streams, input)), input);
    }
  }

  lemma {:induction false} RunIsConsistent(e: Execution, inputs: seq<Input>)
    requires Consistent(e)
    ensures Consistent(Run(e, inputs))
    decreases inputs
  {
    hide Consistent, Step;
    if inputs != [] {
      StepKeepsConsistent(e, inputs[0]);
      RunIsConsistent(Step(e, inputs[0]), inputs[1..]);
    }
  }

  /** What every provider call receives: the committed history and the provisional delta, nothing else. */
  lemma ProviderSeesCommittedAndDelta(typed: bool, committed: seq<Item>, prompt: string, inputs: seq<Input>)
    ensures var e := Run(Start(typed, committed, prompt), inputs);
            e.pc.CallingProvider? ==>
              && e.runHistory == e.working == e.committed + e.delta
              && WellFormed(e.delta)
  {
    hide Run, Start;
    StartIsConsistent(typed, committed, prompt);
    RunIsConsistent(Start(typed, committed, prompt), inputs);
  }
}
