/**
 * The whole run protocol: one store and any number of live runs. Each store operation and each stretch
 * of a run between two awaits is one step; steps of different runs interleave freely.
 */
module ProtocolModel {
  import opened Wrappers
  import opened Sequences
  import opened Conversation
  import opened RunEvents
  import opened StoreModel
  import A = AgentRun

  /** A run and its result, once there is one; `inputs` only records what it was advanced with. */
  datatype LiveRun = LiveRun(sessionId: Id, exec: A.Execution, result: Option<RunResult>, inputs: seq<A.Input>)

  /**
   * The store and the live runs. The rest only records the past: the runs whose own finish committed,
   * the runs ended by an abort of their session, and the runs whose items each session received.
   */
  datatype System = System(
    store: StoreState, live: map<Id, LiveRun>, won: set<Id>, aborted: set<Id>, lineage: map<Id, seq<Id>>)

  datatype Event =
    | NewSession(sessionId: Id, now: int, fails: bool)
    | Prompt(sessionId: Id, runId: Id, prompt: string, typed: bool, now: int, fails: bool)
    | Advance(runId: Id, input: A.Input)
    | Finalize(runId: Id, now: int, fails: bool, readFails: bool)
    | AbortSession(sessionId: Id, now: int, fails: bool)
    | ForkFrom(source: Id, target: Id, now: int, fails: bool)

  const INITIAL := System(StoreState(map[], map[], []), map[], {}, {}, map[])

  function Items(rows: seq<HistoryRow>): (r: seq<Item>)
    ensures |r| == |rows| && forall i :: 0 <= i < |r| ==> r[i] == rows[i].item
  {
    seq(|rows|, i requires 0 <= i < |rows| => rows[i].item)
  }

  /** The outcome a finished coroutine stands for. */
  function TerminalOutcome(result: A.TaskResult): RunOutcome {
    match result
    case Returned(outcome) => outcome
    case Raised(cause) => Failed(cause)
    case Cancelled => Aborted
  }

  /** Error results for the interrupted calls, in both run-local histories. */
  function Heal(e: A.Execution): A.Execution {
    var missing := ErrorResults(UnansweredToolCalls(e.delta));
    e.(delta := e.delta + missing, working := e.working + missing)
  }

  function TerminalEvent(result: RunResult): AgentEvent {
    match result
    case Outcome(outcome) => RunEnd(outcome)
    case Faulted => RunFault
  }

  /** A finish that lost to another ending takes over the stored outcome; any other error is a fault. */
  function FinishResult(finished: Result<RunRecord, StoreError>, stored: Result<RunRecord, StoreError>): RunResult {
    if finished.Ok? && finished.value.ending.Some? then Outcome(finished.value.ending.value.outcome)
    else if finished == Err(RunAlreadyEnded) && stored.Ok? && stored.value.ending.Some? then
      Outcome(stored.value.ending.value.outcome)
    else Faulted
  }

  predicate Finishable(sys: System, runId: Id) {
    runId in sys.live && sys.live[runId].exec.pc.Done? && sys.live[runId].result.None?
  }

  function LineageOf(sys: System, sessionId: Id): seq<Id> {
    if sessionId in sys.lineage then sys.lineage[sessionId] else []
  }

  // ---------- Steps ----------

  ghost function StepNewSession(sys: System, id: Id, now: int, fails: bool): System {
    var (store, r) := CreateSession(sys.store, id, now, fails);
    sys.(store := store, lineage := if r.Ok? then sys.lineage[id := []] else sys.lineage)
  }

  ghost function StepPrompt(sys: System, id: Id, runId: Id, prompt: string, typed: bool, now: int, fails: bool): System {
    var (store, r) := StartRun(sys.store, id, runId, prompt, now, fails);
    sys.(store := store,
         live := if r.Ok? then sys.live[runId := LiveRun(id, A.Start(typed, Items(r.value), prompt), None, [])] else sys.live)
  }

  function StepAdvance(sys: System, runId: Id, input: A.Input): System {
    if runId !in sys.live || sys.live[runId].result.Some? then sys
    else
      var run := sys.live[runId];
      sys.(live := sys.live[runId := run.(exec := A.Step(run.exec, input), inputs := run.inputs + [input])])
  }

  /** Heal, commit or reconcile, then publish the terminal event, without interruption. */
  ghost function StepFinalize(sys: System, runId: Id, now: int, fails: bool, readFails: bool): System {
    if !Finishable(sys, runId) then sys
    else
      var run := sys.live[runId];
      var healed := Heal(run.exec);
      var (store, r) := FinishRun(sys.store, run.sessionId, runId, TerminalOutcome(run.exec.pc.result), healed.delta, now, fails);
      var result := FinishResult(r, GetRun(store, run.sessionId, runId, readFails));
      System(store, sys.live[runId := run.(exec := A.Emit(healed, TerminalEvent(result)), result := Some(result))],
             if r.Ok? then sys.won + {runId} else sys.won, sys.aborted,
             if r.Ok? then sys.lineage[run.sessionId := LineageOf(sys, run.sessionId) + [runId]] else sys.lineage)
  }

  ghost function StepAbort(sys: System, id: Id, now: int, fails: bool): System {
    var active := ActiveRunOf(sys.store, id);
    var (store, r) := AbortActiveRun(sys.store, id, now, fails);
    sys.(store := store, aborted := if r.Ok? && active.Some? then sys.aborted + {active.value} else sys.aborted)
  }

  ghost function StepFork(sys: System, source: Id, target: Id, now: int, fails: bool): System {
    var (store, r) := ForkSession(sys.store, source, target, now, fails);
    sys.(store := store, lineage := if r.Ok? then sys.lineage[target := LineageOf(sys, source)] else sys.lineage)
  }

  ghost function Next(sys: System, event: Event): System {
    match event
    case NewSession(id, now, fails) => StepNewSession(sys, id, now, fails)
    case Prompt(id, runId, prompt, typed, now, fails) => StepPrompt(sys, id, runId, prompt, typed, now, fails)
    case Advance(runId, input) => StepAdvance(sys, runId, input)
    case Finalize(runId, now, fails, readFails) => StepFinalize(sys, runId, now, fails, readFails)
    case AbortSession(id, now, fails) => StepAbort(sys, id, now, fails)
    case ForkFrom(source, target, now, fails) => StepFork(sys, source, target, now, fails)
  }

  ghost function After(sys: System, events: seq<Event>): System
    decreases events
  {
    if events == [] then sys else After(Next(sys, events[0]), events[1..])
  }

  lemma {:induction false} AfterConcat(sys: System, a: seq<Event>, b: seq<Event>)
    ensures After(sys, a + b) == After(After(sys, a), b)
    decreases a
  {
    hide Next;
    if a == [] {
      assert [] + b == b;
    } else {
      ConcatTail(a, b);
      AfterConcat(Next(sys, a[0]), a[1..], b);
    }
  }
}
