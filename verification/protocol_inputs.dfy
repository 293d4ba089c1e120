/** Every live run is what its recorded inputs make of it, in every interleaving. */
module ProtocolInputs {
  import opened Wrappers
  import opened Sequences
  import opened Conversation
  import opened RunEvents
  import opened StoreModel
  import opened ProtocolModel
  import opened ProtocolFinalize
  import A = AgentRun
  import E = AgentEndings
  import G = AgentGrammar
  import O = AgentOutcomes

  function StartOf(run: LiveRun): A.Execution {
    A.Start(run.exec.typed, run.exec.committed, run.exec.prompt)
  }

  /** Where the run's coroutine got with its inputs. */
  function ReachedBy(run: LiveRun): A.Execution {
    A.Run(StartOf(run), run.inputs)
  }

  /** A run without a result is where its inputs took it; with one it was finalized there. */
  predicate ByInputs(run: LiveRun) {
    match run.result
    case None => run.exec == ReachedBy(run)
    case Some(result) => ReachedBy(run).pc.Done? && run.exec == A.Emit(Heal(ReachedBy(run)), TerminalEvent(result))
  }

  predicate AllByInputs(sys: System) {
    forall id :: id in sys.live ==> ByInputs(sys.live[id])
  }

  lemma {:induction false} RunSnoc(e: A.Execution, inputs: seq<A.Input>, input: A.Input)
    ensures A.Run(e, inputs + [input]) == A.Step(A.Run(e, inputs), input)
    decreases inputs
  {
    hide A.Step;
    if inputs == [] {
      assert [] + [input] == [input] && [input][1..] == [];
    } else {
      ConcatTail(inputs, [input]);
      RunSnoc(A.Step(e, inputs[0]), inputs[1..], input);
    }
  }

  lemma AdvancedByInputs(run: LiveRun, input: A.Input)
    requires ByInputs(run) && run.result.None?
    ensures ByInputs(run.(exec := A.Step(run.exec, input), inputs := run.inputs + [input]))
  {
    hide A.Step, A.Start, A.Run;
    RunSnoc(StartOf(run), run.inputs, input);
    G.StepExtends(run.exec, input);
  }

  lemma ClosedByInputs(run: LiveRun, result: RunResult)
    requires ByInputs(run) && run.result.None? && run.exec.pc.Done?
    ensures ByInputs(ClosedRun(run, result))
  {
    hide A.Start, A.Run, ItemsOf, TerminalEvent;
  }

  lemma StepKeepsByInputs(sys: System, event: Event)
    requires AllByInputs(sys)
    ensures AllByInputs(Next(sys, event))
  {
    hide ByInputs, A.Step, A.Start, A.Emit, Heal, FinishRun, StartRun, CreateSession, ForkSession, AbortActiveRun, FinishResult,
      GetRun, TerminalOutcome, TerminalEvent, Items;
    match event
    case Prompt(id, runId, prompt, typed, now, fails) =>
      var history := StartRun(sys.store, id, runId, prompt, now, fails).1;
      if history.Ok? {
        StartedByInputs(id, typed, Items(history.value), prompt);
      }
    case Advance(runId, input) =>
      if runId in sys.live && sys.live[runId].result.None? {
        AdvancedByInputs(sys.live[runId], input);
      }
    case Finalize(runId, now, fails, readFails) =>
      if Finishable(sys, runId) {
        FinalizedByInputs(sys, runId, now, fails, readFails);
      }
    case _ =>
  }

  lemma StartedByInputs(sessionId: Id, typed: bool, committed: seq<Item>, prompt: string)
    ensures ByInputs(LiveRun(sessionId, A.Start(typed, committed, prompt), None, []))
  {
  }

  lemma FinalizedByInputs(sys: System, runId: Id, now: int, fails: bool, readFails: bool)
    requires AllByInputs(sys) && Finishable(sys, runId)
    ensures AllByInputs(StepFinalize(sys, runId, now, fails, readFails))
  {
    hide ByInputs, FinishRun, FinishResult, GetRun, TerminalOutcome, Heal, A.Emit, TerminalEvent;
    var run := sys.live[runId];
    var result := StepFinalize(sys, runId, now, fails, readFails).live[runId].result.value;
    assert StepFinalize(sys, runId, now, fails, readFails).live == sys.live[runId := ClosedRun(run, result)];
    ClosedByInputs(run, result);
  }

  lemma {:induction false} StepsKeepByInputs(sys: System, events: seq<Event>)
    requires AllByInputs(sys)
    ensures AllByInputs(After(sys, events))
    decreases events
  {
    hide AllByInputs, Next;
    if events != [] {
      StepKeepsByInputs(sys, events[0]);
      StepsKeepByInputs(Next(sys, events[0]), events[1..]);
    }
  }

  // ---------- What a won run stores ----------

  /**
   * The outcome of a run that ended with these inputs and this log: aborted exactly when the inputs
   * cancelled it and closing did not fail afterwards; failed on its turn exactly when the log breaks off
   * behind a failed message and closing went well; decided by the log exactly when an attempt ends it.
   */
  ghost predicate StoredFor(typed: bool, taken: seq<A.Input>, log: seq<AgentEvent>, attempt: nat, stored: RunOutcome) {
    && (stored == Aborted <==> E.WasCancelled(taken) && !E.LastCloseFails(taken))
    && (stored == Failed(TurnFailure) <==> O.BrokenOff(log) && E.LastClosed(taken))
    && (stored.Completed? || (stored.Failed? && stored.cause.AgentFailure?) <==> E.AttemptOver(log))
    && (E.AttemptOver(log) ==> O.DecidedByLog(typed, log, attempt, stored))
  }

  lemma LogOutcomes(typed: bool, log: seq<AgentEvent>, attempt: nat, outcome: RunOutcome)
    requires O.DecidedByLog(typed, log, attempt, outcome)
    ensures outcome.Completed? || (outcome.Failed? && outcome.cause.AgentFailure?)
  {
    hide O.ExecutionsIn, O.LastTurn, A.AssistantText;
  }

  lemma OutcomeIsStoredFor(typed: bool, committed: seq<Item>, prompt: string, inputs: seq<A.Input>)
    ensures var start := A.Start(typed, committed, prompt);
            var e := A.Run(start, inputs);
            e.pc.Done? ==> StoredFor(typed, A.Fitting(start, inputs), e.log, e.attempt, TerminalOutcome(e.pc.result))
  {
    E.EndingsAreExact(typed, committed, prompt, inputs);
    O.LogDecidesOutcome(typed, committed, prompt, inputs);
    hide A.Run, A.Start, A.Fitting, E.WasCancelled, E.LastCloseFails, E.LastClosed, E.AttemptOver, O.BrokenOff, O.DecidedByLog,
      E.Undisturbed, E.BrokenIntoLate;
    var start := A.Start(typed, committed, prompt);
    var e := A.Run(start, inputs);
    if e.pc.Done? && e.pc.result.Returned? {
      LogOutcomes(typed, e.log, e.attempt, e.pc.result.outcome);
    }
  }

  /** The finalized log is the reached one and the terminal event; nothing else about the run's end changed. */
  lemma ReachedFacts(run: LiveRun)
    requires ByInputs(run) && run.result.Some?
    ensures var reached := ReachedBy(run);
            && reached.pc.Done? && run.exec.pc == reached.pc && run.exec.attempt == reached.attempt
            && run.exec.log != [] && run.exec.log[..|run.exec.log| - 1] == reached.log
  {
    hide A.Run, A.Start, ItemsOf, TerminalEvent;
    assert (ReachedBy(run).log + [TerminalEvent(run.result.value)])[..|ReachedBy(run).log|] == ReachedBy(run).log;
  }

  /** What a finalized run's coroutine came to, told by its inputs and its log without the terminal event. */
  ghost predicate StoredFromInputs(run: LiveRun, stored: RunOutcome)
    requires run.exec.log != []
  {
    StoredFor(run.exec.typed, A.Fitting(StartOf(run), run.inputs), run.exec.log[..|run.exec.log| - 1], run.exec.attempt, stored)
  }

  lemma FinalizedRunStores(run: LiveRun)
    requires ByInputs(run) && run.result.Some?
    ensures run.exec.pc.Done? && run.exec.log != [] && StoredFromInputs(run, TerminalOutcome(run.exec.pc.result))
  {
    ReachedFacts(run);
    OutcomeIsStoredFor(run.exec.typed, run.exec.committed, run.exec.prompt, run.inputs);
    hide A.Run, A.Start, A.Fitting, StoredFor, TerminalOutcome;
  }
}
