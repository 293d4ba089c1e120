/** How a run ends, told by the inputs it took and by its log; and what its log takes over from them. */
module AgentEndings {
  import opened Wrappers
  import opened Sequences
  import opened Conversation
  import opened RunEvents
  import opened AgentRun
  import O = AgentOutcomes

  // ---------- What the log and the inputs say about the ending ----------

  predicate WasCancelled(inputs: seq<Input>) {
    exists input :: input in inputs && input.Cancel?
  }

  predicate LastClosed(inputs: seq<Input>) {
    inputs != [] && inputs[|inputs| - 1].Closed?
  }

  predicate LastCloseFails(inputs: seq<Input>) {
    inputs != [] && inputs[|inputs| - 1].CloseFails?
  }

  /** The log ends with the end of an attempt that no reminder followed. */
  predicate AttemptOver(log: seq<AgentEvent>) {
    log != [] && log[|log| - 1].AgentEnd?
  }

  /** Inputs that break into the run: failures of the provider, a tool or closing, and cancellation. */
  predicate BreaksIn(input: Input) {
    input.ProviderFails? || input.StreamEnds? || input.StreamFails? || input.ToolFails? || input.CloseFails? || input.Cancel?
  }

  predicate Undisturbed(inputs: seq<Input>) {
    forall input :: input in inputs ==> !BreaksIn(input)
  }

  /** Nothing but the last input broke into the run. */
  predicate JustBrokenInto(inputs: seq<Input>) {
    inputs != [] && BreaksIn(inputs[|inputs| - 1]) && Undisturbed(inputs[..|inputs| - 1])
  }

  /** At most one more input is taken once an input has broken into the run. */
  predicate BrokenIntoLate(inputs: seq<Input>) {
    forall i :: 0 <= i < |inputs| && BreaksIn(inputs[i]) ==> i + 2 >= |inputs|
  }

  /** A provider stream was opened and its closing has neither succeeded nor failed. */
  predicate StreamOpen(inputs: seq<Input>) {
    if inputs == [] then false
    else
      var last := inputs[|inputs| - 1];
      last.ProviderAnswers? || (!last.Closed? && !last.CloseFails? && StreamOpen(inputs[..|inputs| - 1]))
  }

  predicate TurnOver(log: seq<AgentEvent>) {
    log != [] && log[|log| - 1].TurnEnd?
  }

  /** Its stream is being closed: the turn is over or has failed, or something has just broken into it. */
  predicate BeingClosed(inputs: seq<Input>, log: seq<AgentEvent>) {
    TurnOver(log) || O.BrokenOff(log) || JustBrokenInto(inputs)
  }

  /** A stream that was opened is closed before the run ends, unless a cancellation comes while it is being closed. */
  predicate StreamIsClosed(taken: seq<Input>, log: seq<AgentEvent>) {
    StreamOpen(taken) ==> taken[|taken| - 1].Cancel? && BeingClosed(taken[..|taken| - 1], log)
  }

  /** How many times a system prompt could be built when one was due. */
  function PromptsBuilt(inputs: seq<Input>): nat {
    if inputs == [] then 0
    else
      var last := inputs[|inputs| - 1];
      PromptsBuilt(inputs[..|inputs| - 1])
      + if (last.Begin? && last.promptBuilt) || (last.Closed? && last.promptBuilt) then 1 else 0
  }

  /** How a coroutine that took these inputs and wrote this log has ended. */
  predicate EndedBy(result: TaskResult, taken: seq<Input>, log: seq<AgentEvent>) {
    && (result.Cancelled? <==> WasCancelled(taken) && !LastCloseFails(taken))
    && (result == Raised(TurnFailure) <==> O.BrokenOff(log) && LastClosed(taken))
    && (result.Returned? <==> AttemptOver(log))
    && (result.Raised? ==> result.cause == TurnFailure || result.cause == ExecutionFailure)
    && (result.Returned? ==> Undisturbed(taken))
    && BrokenIntoLate(taken) && StreamIsClosed(taken, log)
  }

  /** Where a run stands, from the inputs it took and its log. */
  predicate Settled(e: Execution, taken: seq<Input>) {
    && e.attempt <= PromptsBuilt(taken)
    && match e.pc
       case NotBegun => Working(taken, e.log) && !StreamOpen(taken)
       case CallingProvider => Working(taken, e.log) && !StreamOpen(taken)
       case Closing(Raises(cause)) =>
         && !WasCancelled(taken) && !AttemptOver(e.log) && (cause == TurnFailure <==> O.BrokenOff(e.log))
         && if cause == TurnFailure then Undisturbed(taken) else cause == ExecutionFailure && JustBrokenInto(taken)
       case Closing(Cancels) =>
         && taken != [] && taken[|taken| - 1].Cancel? && JustBrokenInto(taken)
         && !AttemptOver(e.log) && !O.BrokenOff(e.log)
       case Closing(TurnDone(_, _)) => Working(taken, e.log) && TurnOver(e.log)
       case Done(result) => EndedBy(result, taken, e.log)
       case _ => Working(taken, e.log)
  }

  predicate Working(taken: seq<Input>, log: seq<AgentEvent>) {
    Undisturbed(taken) && !AttemptOver(log) && !O.BrokenOff(log)
  }

  lemma TakenSnoc(taken: seq<Input>, input: Input)
    ensures var longer := taken + [input];
            && (WasCancelled(longer) <==> WasCancelled(taken) || input.Cancel?)
            && (Undisturbed(longer) <==> Undisturbed(taken) && !BreaksIn(input))
            && (LastClosed(longer) <==> input.Closed?) && (LastCloseFails(longer) <==> input.CloseFails?)
            && longer != [] && longer[|longer| - 1] == input
            && (JustBrokenInto(longer) <==> Undisturbed(taken) && BreaksIn(input))
            && (StreamOpen(longer) <==> input.ProviderAnswers? || (!input.Closed? && !input.CloseFails? && StreamOpen(taken)))
            && (forall log :: BeingClosed(taken, log) && input.Cancel? ==> StreamIsClosed(longer, log))
            && (!StreamOpen(longer) ==> forall log :: StreamIsClosed(longer, log))
            && PromptsBuilt(longer) == PromptsBuilt(taken)
               + if (input.Begin? && input.promptBuilt) || (input.Closed? && input.promptBuilt) then 1 else 0
  {
    hide BreaksIn, BeingClosed;
    var longer := taken + [input];
    assert longer[..|longer| - 1] == taken && longer[|taken|] == input;
    forall x ensures x in longer <==> x in taken || x == input {
      InConcat(taken, [input], x);
    }
  }

  lemma UndisturbedIsNotCancelled(taken: seq<Input>)
    ensures Undisturbed(taken) ==> !WasCancelled(taken)
  {
  }

  lemma CancelledLast(taken: seq<Input>)
    ensures taken != [] && taken[|taken| - 1].Cancel? ==> WasCancelled(taken)
  {
    if taken != [] {
      assert taken[|taken| - 1] in taken;
    }
  }

  /** One more input behind an undisturbed run, or behind the one that broke into it. */
  lemma LateSnoc(taken: seq<Input>, input: Input)
    ensures Undisturbed(taken) || JustBrokenInto(taken) ==> BrokenIntoLate(taken + [input])
  {
    hide BreaksIn;
    var longer, n := taken + [input], |taken|;
    if Undisturbed(taken) {
      assert forall i :: 0 <= i < n ==> longer[i] == taken[i] && taken[i] in taken;
    } else if JustBrokenInto(taken) {
      var front := taken[..n - 1];
      assert forall i :: 0 <= i < n - 1 ==> longer[i] == front[i] && front[i] in front;
    }
  }

  // ---------- Steps ----------

  lemma LastEmitted(e: Execution, event: AgentEvent)
    ensures var log := Emit(e, event).log;
            && (AttemptOver(log) <==> event.AgentEnd?) && (TurnOver(log) <==> event.TurnEnd?)
            && (O.BrokenOff(log) <==> event.MessageEnd? && !event.turn.status.CompletedTurn?)
    ensures Emit(e, event).pc == e.pc && Emit(e, event).attempt == e.attempt
  {
    hide ItemsOf;
  }

  lemma BeginAttemptEnding(e: Execution, promptBuilt: bool)
    requires !AttemptOver(e.log) && !O.BrokenOff(e.log)
    ensures var later := BeginAttempt(e, promptBuilt);
            && !AttemptOver(later.log) && !O.BrokenOff(later.log)
            && (later.pc.CallingProvider? || later.pc == Done(Raised(ExecutionFailure)))
            && later.attempt == e.attempt + if promptBuilt then 1 else 0
  {
    LastEmitted(e, AgentStart);
    hide Emit, AttemptOver, TurnOver, O.BrokenOff;
  }

  lemma ContinueToolsEnding(e: Execution, turn: AssistantTurn, done: seq<ToolOutcome>)
    ensures var later := ContinueTools(e, turn, done);
            && !AttemptOver(later.log) && !O.BrokenOff(later.log)
            && (later.pc.RunningTool? || (later.pc.Closing? && later.pc.next.TurnDone? && TurnOver(later.log)))
            && later.attempt == e.attempt
  {
    var calls := CollectToolCalls(turn.blocks);
    LastEmitted(e, TurnEnd(turn, done));
    if |done| < |calls| {
      LastEmitted(e, ToolStart(calls[|done|]));
    }
    hide Emit, AttemptOver, TurnOver, O.BrokenOff, CollectToolCalls;
  }

  lemma EndTurnEnding(e: Execution, turn: AssistantTurn, executions: seq<ToolOutcome>, promptBuilt: bool)
    requires !AttemptOver(e.log) && !O.BrokenOff(e.log)
    ensures var later := EndTurn(e, turn, executions, promptBuilt);
            && !O.BrokenOff(later.log)
            && (later.pc.CallingProvider? || later.pc == Done(Raised(ExecutionFailure))
                || (later.pc.Done? && later.pc.result.Returned?))
            && (AttemptOver(later.log) <==> later.pc.Done? && later.pc.result.Returned?)
            && later.attempt <= e.attempt + if promptBuilt then 1 else 0
  {
    hide Emit, AttemptOver, TurnOver, O.BrokenOff, ConversationItems, ShouldContinue, ResultOutcome, AssistantText, BeginAttempt;
    var e' := e.(runHistory := e.runHistory + ConversationItems(turn, executions), executions := e.executions + executions);
    var over := Emit(e', AgentEnd);
    LastEmitted(e', AgentEnd);
    LastEmitted(over, FollowUp(RESULT_FOLLOW_UP));
    BeginAttemptEnding(Emit(over, FollowUp(RESULT_FOLLOW_UP)), promptBuilt);
  }

  lemma StreamEventEnding(e: Execution, event: StreamEvent)
    requires e.pc.Streaming?
    ensures var later := HandleStreamEvent(e, event);
            && !AttemptOver(later.log)
            && (later.pc.Streaming? || later.pc.RunningTool?
                || (later.pc.Closing? && later.pc.next.TurnDone? && TurnOver(later.log))
                || later.pc == Closing(Raises(TurnFailure)))
            && (O.BrokenOff(later.log) <==> later.pc == Closing(Raises(TurnFailure)))
            && later.attempt == e.attempt
  {
    hide Emit, AttemptOver, TurnOver, O.BrokenOff, ContinueTools;
    match event
    case StartEvent =>
      LastEmitted(e, TurnStart);
      LastEmitted(Emit(e, TurnStart), MessageStart);
    case UpdateEvent(update) => LastEmitted(e, MessageUpdate(update));
    case DoneEvent(blocks) =>
      var turn := AssistantTurn(blocks, CompletedTurn);
      LastEmitted(e, MessageEnd(turn));
      ContinueToolsEnding(Emit(e, MessageEnd(turn)), turn, []);
    case ErrorEvent(blocks, aborted) =>
      LastEmitted(e, MessageEnd(AssistantTurn(blocks, if aborted then AbortedTurn else ErrorTurn)));
  }

  /** Beginning, answers, stream events, tool results and the end of a turn. */
  lemma WorkSettles(e: Execution, taken: seq<Input>, input: Input)
    requires Settled(e, taken) && Enabled(e, input)
    requires !BreaksIn(input) && (input.Closed? ==> e.pc.next.TurnDone?)
    ensures Settled(Stretch(e, input), taken + [input])
  {
    TakenSnoc(taken, input);
    UndisturbedIsNotCancelled(taken + [input]);
    LateSnoc(taken, input);
    hide BeginAttempt, HandleStreamEvent, ContinueTools, EndTurn, Emit, OutcomeFor, CollectToolCalls, AttemptOver,
      O.BrokenOff, WasCancelled, LastClosed, LastCloseFails, Undisturbed, JustBrokenInto, BrokenIntoLate,
      StreamOpen, StreamIsClosed, PromptsBuilt, TurnOver;
    match input
    case Begin(promptBuilt) => BeginAttemptEnding(e, promptBuilt);
    case StreamYields(event) => StreamEventEnding(e, event);
    case ToolReturns(reply) =>
      var outcome := OutcomeFor(CollectToolCalls(e.pc.turn.blocks)[|e.pc.done|], reply);
      LastEmitted(e, ToolEnd(outcome));
      ContinueToolsEnding(Emit(e, ToolEnd(outcome)), e.pc.turn, e.pc.done + [outcome]);
    case Closed(promptBuilt) => EndTurnEnding(e, e.pc.next.turn, e.pc.next.executions, promptBuilt);
    case ProviderAnswers =>
  }

  /** An input that breaks into a run which is not being closed, closes or ends it. */
  lemma BreakSettles(e: Execution, taken: seq<Input>, input: Input)
    requires Settled(e, taken) && Enabled(e, input) && BreaksIn(input) && !e.pc.Closing?
    ensures Settled(Stretch(e, input), taken + [input])
  {
    TakenSnoc(taken, input);
    LateSnoc(taken, input);
    UndisturbedIsNotCancelled(taken);
    hide AttemptOver, O.BrokenOff, WasCancelled, LastClosed, LastCloseFails, Undisturbed, JustBrokenInto, BrokenIntoLate,
      StreamOpen, StreamIsClosed, PromptsBuilt, TurnOver;
  }

  /** Closing after a failure or a cancellation ends the run, however the closing goes. */
  lemma ClosingSettles(e: Execution, taken: seq<Input>, input: Input)
    requires Settled(e, taken) && Enabled(e, input) && e.pc.Closing? && (BreaksIn(input) || !e.pc.next.TurnDone?)
    ensures Settled(Stretch(e, input), taken + [input])
  {
    TakenSnoc(taken, input);
    LateSnoc(taken, input);
    UndisturbedIsNotCancelled(taken);
    CancelledLast(taken);
    assert BeingClosed(taken, e.log);
    hide EndTurn, AttemptOver, O.BrokenOff, WasCancelled, LastClosed, LastCloseFails, Undisturbed, JustBrokenInto,
      BrokenIntoLate, StreamOpen, StreamIsClosed, PromptsBuilt, TurnOver;
  }

  lemma StretchSettles(e: Execution, taken: seq<Input>, input: Input)
    requires Settled(e, taken) && Enabled(e, input)
    ensures Settled(Stretch(e, input), taken + [input])
  {
    hide Stretch, Settled;
    if e.pc.Closing? && (BreaksIn(input) || !e.pc.next.TurnDone?) {
      ClosingSettles(e, taken, input);
    } else if BreaksIn(input) {
      BreakSettles(e, taken, input);
    } else {
      WorkSettles(e, taken, input);
    }
  }

  lemma StepSettles(e: Execution, taken: seq<Input>, input: Input)
    requires Settled(e, taken)
    ensures Settled(Step(e, input), if Enabled(e, input) then taken + [input] else taken)
  {
    hide Stretch, Heard, EndedBy, WasCancelled, AttemptOver, O.BrokenOff;
    if Enabled(e, input) {
      StretchSettles(e.(streams := Heard(e.streams, input)), taken, input);
    }
  }

  lemma {:induction false} RunSettles(e: Execution, taken: seq<Input>, inputs: seq<Input>)
    requires Settled(e, taken)
    ensures Settled(Run(e, inputs), taken + Fitting(e, inputs))
    decreases inputs
  {
    hide Settled, Step, Enabled;
    if inputs == [] {
      assert taken + [] == taken;
    } else {
      var here := if Enabled(e, inputs[0]) then [inputs[0]] else [];
      StepSettles(e, taken, inputs[0]);
      assert taken + [] == taken;
      RunSettles(Step(e, inputs[0]), taken + here, inputs[1..]);
      Assoc(taken, here, Fitting(Step(e, inputs[0]), inputs[1..]));
    }
  }

  lemma StartIsSettled(typed: bool, committed: seq<Item>, prompt: string)
    ensures Settled(Start(typed, committed, prompt), [])
  {
  }

  /**
   * Every ended run: it was cancelled exactly when a cancellation came while it was not done and closing did
   * not fail afterwards; it failed on its turn exactly when its log breaks off behind a failed message
   * and closing went well; it returned exactly when its log ends with an attempt, and then nothing broke
   * into it; else something raised. Once something broke into it, it took at most one more input. A stream it
   * opened was closed, unless a cancellation came during that; an attempt took a system prompt that was built.
   */
  lemma EndingsAreExact(typed: bool, committed: seq<Item>, prompt: string, inputs: seq<Input>)
    ensures var start := Start(typed, committed, prompt);
            var e := Run(start, inputs);
            && (e.pc.Done? ==> EndedBy(e.pc.result, Fitting(start, inputs), e.log))
            && e.attempt <= PromptsBuilt(Fitting(start, inputs))
  {
    var start := Start(typed, committed, prompt);
    StartIsSettled(typed, committed, prompt);
    RunSettles(start, [], inputs);
    assert [] + Fitting(start, inputs) == Fitting(start, inputs);
    hide Run, Fitting, EndedBy, WasCancelled, O.BrokenOff, AttemptOver;
  }

  /** A cancellation ends an unfinished run as cancelled, at once or as soon as the stream is closed. */
  lemma CancelEndsRun(typed: bool, committed: seq<Item>, prompt: string, inputs: seq<Input>, promptBuilt: bool)
    ensures var e := Run(Start(typed, committed, prompt), inputs);
            var cancelled := Step(e, Cancel);
            !e.pc.Done? ==>
              || cancelled.pc == Done(Cancelled)
              || (cancelled.pc.Closing? && Step(cancelled, Closed(promptBuilt)).pc == Done(Cancelled))
  {
    hide Run, Heard, Emit;
  }

  // ---------- What the log takes over from the inputs ----------

  /** Events of the log that report what the provider or a tool said. */
  predicate Reports(event: AgentEvent) {
    event.MessageUpdate? || event.MessageEnd? || event.ToolEnd?
  }

  function ReportsIn(log: seq<AgentEvent>): seq<AgentEvent> {
    if log == [] then []
    else ReportsIn(log[..|log| - 1]) + if Reports(log[|log| - 1]) then [log[|log| - 1]] else []
  }

  /** Inputs that say something to report. */
  predicate Says(input: Input) {
    input.ToolReturns? || (input.StreamYields? && !input.event.StartEvent?)
  }

  function SayingsIn(taken: seq<Input>): seq<Input> {
    if taken == [] then []
    else SayingsIn(taken[..|taken| - 1]) + if Says(taken[|taken| - 1]) then [taken[|taken| - 1]] else []
  }

  /** The event reports exactly what the input said; a failed tool is an error and never ends the loop. */
  predicate ReportsWhat(event: AgentEvent, input: Input) {
    match input
    case StreamYields(UpdateEvent(update)) => event == MessageUpdate(update)
    case StreamYields(DoneEvent(blocks)) => event == MessageEnd(AssistantTurn(blocks, CompletedTurn))
    case StreamYields(ErrorEvent(blocks, aborted)) =>
      event == MessageEnd(AssistantTurn(blocks, if aborted then AbortedTurn else ErrorTurn))
    case ToolReturns(reply) =>
      && event.ToolEnd? && event.execution.result.ToolResult?
      && event.execution.result.text == reply.text && event.execution.details == reply.details
      && event.execution.result.isError == reply.Failure?
      && event.execution.terminate == (reply.Success? && reply.terminate)
    case _ => false
  }

  predicate Reported(reports: seq<AgentEvent>, sayings: seq<Input>) {
    |reports| == |sayings| && forall i :: 0 <= i < |reports| ==> ReportsWhat(reports[i], sayings[i])
  }

  lemma EmitReports(e: Execution, event: AgentEvent)
    ensures ReportsIn(Emit(e, event).log) == if Reports(event) then ReportsIn(e.log) + [event] else ReportsIn(e.log)
  {
    hide ItemsOf;
    var log := e.log + [event];
    assert log[..|log| - 1] == e.log && log[|log| - 1] == event;
    assert ReportsIn(e.log) + [] == ReportsIn(e.log);
  }

  lemma ContinueToolsReports(e: Execution, turn: AssistantTurn, done: seq<ToolOutcome>)
    ensures ReportsIn(ContinueTools(e, turn, done).log) == ReportsIn(e.log)
  {
    var calls := CollectToolCalls(turn.blocks);
    EmitReports(e, TurnEnd(turn, done));
    if |done| < |calls| {
      EmitReports(e, ToolStart(calls[|done|]));
    }
    hide Emit, CollectToolCalls, ReportsIn;
  }

  lemma BeginAttemptReports(e: Execution, promptBuilt: bool)
    ensures ReportsIn(BeginAttempt(e, promptBuilt).log) == ReportsIn(e.log)
  {
    EmitReports(e, AgentStart);
    hide Emit, ReportsIn;
  }

  lemma EndTurnReports(e: Execution, turn: AssistantTurn, executions: seq<ToolOutcome>, promptBuilt: bool)
    ensures ReportsIn(EndTurn(e, turn, executions, promptBuilt).log) == ReportsIn(e.log)
  {
    hide Emit, BeginAttempt, ResultOutcome, AssistantText, ShouldContinue, ConversationItems, ReportsIn;
    var e' := e.(runHistory := e.runHistory + ConversationItems(turn, executions), executions := e.executions + executions);
    var ended := Emit(e', AgentEnd);
    EmitReports(e', AgentEnd);
    EmitReports(ended, FollowUp(RESULT_FOLLOW_UP));
    BeginAttemptReports(Emit(ended, FollowUp(RESULT_FOLLOW_UP)), promptBuilt);
  }

  /** One stretch reports what its input said, or nothing. */
  lemma StretchReports(e: Execution, input: Input)
    requires Enabled(e, input)
    ensures var before, after := ReportsIn(e.log), ReportsIn(Stretch(e, input).log);
            if !Says(input) then after == before
            else |after| == |before| + 1 && after[..|before|] == before && ReportsWhat(after[|before|], input)
  {
    hide Emit, ContinueTools, BeginAttempt, EndTurn, CollectToolCalls, ReportsIn;
    match input
    case Begin(promptBuilt) => BeginAttemptReports(e, promptBuilt);
    case StreamYields(StartEvent) =>
      EmitReports(e, TurnStart);
      EmitReports(Emit(e, TurnStart), MessageStart);
    case StreamYields(UpdateEvent(update)) => EmitReports(e, MessageUpdate(update));
    case StreamYields(DoneEvent(blocks)) =>
      var turn := AssistantTurn(blocks, CompletedTurn);
      EmitReports(e, MessageEnd(turn));
      ContinueToolsReports(Emit(e, MessageEnd(turn)), turn, []);
    case StreamYields(ErrorEvent(blocks, aborted)) =>
      EmitReports(e, MessageEnd(AssistantTurn(blocks, if aborted then AbortedTurn else ErrorTurn)));
    case ToolReturns(reply) =>
      var outcome := OutcomeFor(CollectToolCalls(e.pc.turn.blocks)[|e.pc.done|], reply);
      EmitReports(e, ToolEnd(outcome));
      ContinueToolsReports(Emit(e, ToolEnd(outcome)), e.pc.turn, e.pc.done + [outcome]);
    case Closed(promptBuilt) =>
      if e.pc.next.TurnDone? {
        EndTurnReports(e, e.pc.next.turn, e.pc.next.executions, promptBuilt);
      }
    case _ =>
  }

  lemma StepReports(e: Execution, taken: seq<Input>, input: Input)
    requires Reported(ReportsIn(e.log), SayingsIn(taken))
    ensures Reported(ReportsIn(Step(e, input).log), SayingsIn(if Enabled(e, input) then taken + [input] else taken))
  {
    hide Stretch, Heard, ReportsIn, ReportsWhat;
    if Enabled(e, input) {
      StretchReports(e.(streams := Heard(e.streams, input)), input);
      assert (taken + [input])[..|taken|] == taken && SayingsIn(taken) + [] == SayingsIn(taken);
    }
  }

  lemma {:induction false} RunReports(e: Execution, taken: seq<Input>, inputs: seq<Input>)
    requires Reported(ReportsIn(e.log), SayingsIn(taken))
    ensures Reported(ReportsIn(Run(e, inputs).log), SayingsIn(taken + Fitting(e, inputs)))
    decreases inputs
  {
    hide Reported, ReportsIn, SayingsIn, Step, Enabled;
    if inputs == [] {
      assert taken + [] == taken;
    } else {
      var here := if Enabled(e, inputs[0]) then [inputs[0]] else [];
      StepReports(e, taken, inputs[0]);
      assert taken + [] == taken;
      RunReports(Step(e, inputs[0]), taken + here, inputs[1..]);
      Assoc(taken, here, Fitting(Step(e, inputs[0]), inputs[1..]));
    }
  }

  /** The messages, updates and tool executions of a log are exactly what the inputs said, in order. */
  lemma LogReportsInputs(typed: bool, committed: seq<Item>, prompt: string, inputs: seq<Input>)
    ensures var start := Start(typed, committed, prompt);
            Reported(ReportsIn(Run(start, inputs).log), SayingsIn(Fitting(start, inputs)))
  {
    var start := Start(typed, committed, prompt);
    assert start.log[..0] == [] && ReportsIn([]) + [] == [];
    RunReports(start, [], inputs);
    assert [] + Fitting(start, inputs) == Fitting(start, inputs);
  }
}
