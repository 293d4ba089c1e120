/** What every step of the protocol keeps, in every interleaving. */
module ProtocolLaws {
  import opened Wrappers
  import opened Sequences
  import opened Conversation
  import opened RunEvents
  import opened StoreModel
  import opened ProtocolModel
  import A = AgentRun
  import L = AgentLaws
  import G = AgentGrammar
  import O = AgentOutcomes
  import S = StoreLaws

  // ---------- One run ----------

  predicate Running(e: A.Execution) {
    L.Consistent(e) && G.Judged(e) && O.OnCourse(e) && G.NoTerminal(e.log)
  }

  /** Closed by one terminal event that tells the result; the delta is healed. */
  predicate Closed(e: A.Execution, result: RunResult) {
    var n := |e.log|;
    && e.pc.Done?
    && n >= 2 && e.log[n - 1] == TerminalEvent(result) && G.NoTerminal(e.log[..n - 1])
    && (G.Read(e.typed, G.Unstarted, e.log) == Some(G.Ended) <==> G.Disciplined(e.streams))
    && e.working == e.committed + e.delta && e.delta != [] && e.delta[0] == UserMessage(e.prompt)
    && Replay([], L.Observed(e)).Some? && e.delta == Healed(L.Observed(e))
    && (e.pc.result.Returned? ==> O.Decided(e, e.pc.result.outcome))
  }

  predicate LocalOk(run: LiveRun) {
    && run.exec.log != [] && run.exec.log[0] == RunStart
    && if run.result.None? then Running(run.exec) else Closed(run.exec, run.result.value)
  }

  /** How a live run, its stored record, its session's history and the past fit together. */
  predicate RunOkAt(run: LiveRun, record: RunRecord, history: seq<Item>, won: bool, aborted: bool, listed: bool) {
    && record.sessionId == run.sessionId && record.prompt == run.exec.prompt
    && LocalOk(run)
    && (record.ending.None? ==>
          !won && !aborted && history == run.exec.committed && (run.result.Some? ==> run.result.value.Faulted?))
    && (record.ending.Some? ==>
          && won != aborted
          && (aborted ==> record.ending.value.outcome == Aborted)
          && (won ==> && listed && run.result == Some(Outcome(record.ending.value.outcome))
                      && record.ending.value.outcome == TerminalOutcome(run.exec.pc.result))
          && (run.result.Some? && run.result.value.Outcome? ==> run.result.value.outcome == record.ending.value.outcome))
  }

  predicate RunOk(sys: System, runId: Id)
    requires runId in sys.live && runId in sys.store.runs
  {
    var session := sys.live[runId].sessionId;
    RunOkAt(sys.live[runId], sys.store.runs[runId], Items(HistoryForSession(sys.store, session)),
            runId in sys.won, runId in sys.aborted, runId in LineageOf(sys, session))
  }

  // ---------- One session ----------

  function Tag(runId: Id, items: seq<Item>): (r: seq<(Id, Item)>)
    ensures |r| == |items| && forall i :: 0 <= i < |r| ==> r[i] == (runId, items[i])
  {
    seq(|items|, i requires 0 <= i < |items| => (runId, items[i]))
  }

  function Tagged(rows: seq<HistoryRow>): (r: seq<(Id, Item)>)
    ensures |r| == |rows| && forall i :: 0 <= i < |r| ==> r[i] == (rows[i].runId, rows[i].item)
  {
    seq(|rows|, i requires 0 <= i < |rows| => (rows[i].runId, rows[i].item))
  }

  /** The deltas of some runs, whole and one after the other. */
  function Contributions(live: map<Id, LiveRun>, ids: seq<Id>): seq<(Id, Item)>
    requires forall id :: id in ids ==> id in live
  {
    if ids == [] then []
    else
      var last := ids[|ids| - 1];
      Contributions(live, ids[..|ids| - 1]) + Tag(last, live[last].exec.delta)
  }

  predicate NoRepeats(ids: seq<Id>) {
    forall i, j :: 0 <= i < j < |ids| ==> ids[i] != ids[j]
  }

  /** A session's history is the deltas of winning runs, each once. */
  predicate HistoryOkAt(live: map<Id, LiveRun>, won: set<Id>, rows: seq<HistoryRow>, ids: seq<Id>) {
    && (forall id :: id in ids ==> id in live && id in won)
    && NoRepeats(ids)
    && Tagged(rows) == Contributions(live, ids)
  }

  predicate HistoryOk(sys: System, sessionId: Id) {
    HistoryOkAt(sys.live, sys.won, HistoryForSession(sys.store, sessionId), LineageOf(sys, sessionId))
  }

  /** Every live run has a record and every session a lineage. */
  predicate Linked(sys: System) {
    && sys.live.Keys == sys.store.runs.Keys
    && sys.lineage.Keys == sys.store.sessions.Keys
    && sys.won <= sys.live.Keys && sys.aborted <= sys.live.Keys
  }

  predicate RunsOk(sys: System)
    requires Linked(sys)
  {
    forall id :: id in sys.live ==> RunOk(sys, id)
  }

  ghost predicate HistoriesOk(sys: System) {
    forall id: Id :: HistoryOk(sys, id)
  }

  ghost predicate SystemOk(sys: System) {
    S.Invariant(sys.store) && Linked(sys) && RunsOk(sys) && HistoriesOk(sys)
  }

  lemma LiveRunIsOk(sys: System, runId: Id)
    requires SystemOk(sys) && runId in sys.live
    ensures runId in sys.store.runs && RunOk(sys, runId)
  {
    hide RunOk, S.Invariant, HistoriesOk;
  }

  // ---------- Local steps ----------

  lemma StartIsOk(sessionId: Id, typed: bool, committed: seq<Item>, prompt: string)
    ensures LocalOk(LiveRun(sessionId, A.Start(typed, committed, prompt), None, []))
  {
    L.StartIsConsistent(typed, committed, prompt);
    G.StartInPlace(typed, committed, prompt);
    O.StartIsOnCourse(typed, committed, prompt);
    hide L.Consistent, G.Judged, O.OnCourse;
  }

  lemma AdvanceIsOk(run: LiveRun, input: A.Input)
    requires LocalOk(run) && run.result.None?
    ensures LocalOk(run.(exec := A.Step(run.exec, input), inputs := run.inputs + [input]))
    ensures A.Step(run.exec, input).committed == run.exec.committed && A.Step(run.exec, input).prompt == run.exec.prompt
  {
    L.StepKeepsConsistent(run.exec, input);
    G.StepStaysJudged(run.exec, input);
    O.StepStaysOnCourse(run.exec, input);
    G.StepExtends(run.exec, input);
    hide L.Consistent, G.Judged, O.OnCourse, A.Step, G.NoTerminal;
  }

  lemma HealedDelta(e: A.Execution)
    requires L.Consistent(e) && e.pc.Done?
    ensures e.delta == L.Observed(e) && Replay([], e.delta).Some?
    ensures Heal(e).delta == Healed(e.delta) && Heal(e).working == e.committed + Heal(e).delta
    ensures Heal(e).delta != [] && Heal(e).delta[0] == UserMessage(e.prompt)
  {
    var missing := UnansweredToolCalls(e.delta);
    Assoc(e.committed, e.delta, ErrorResults(missing));
    hide ErrorResults, UnansweredToolCalls, ItemsOf, Replay;
  }

  /** A terminal event has no item. */
  lemma StillObserved(e: A.Execution, event: AgentEvent)
    requires G.Terminal(event)
    ensures ItemsOf(e.log + [event]) == ItemsOf(e.log)
  {
    ItemsConcat(e.log, [event]);
    ItemsOne(event);
    assert ItemsOf(e.log) + [] == ItemsOf(e.log);
  }

  lemma ClosedLog(e: A.Execution, event: AgentEvent)
    requires G.Judged(e) && e.pc.Done? && G.NoTerminal(e.log) && G.Terminal(event)
    ensures var log := e.log + [event];
            && log[|log| - 1] == event && G.NoTerminal(log[..|log| - 1])
            && (G.Read(e.typed, G.Unstarted, log) == Some(G.Ended) <==> G.Disciplined(e.streams))
  {
    G.ReadOne(e.typed, G.Unstarted, e.log, event);
    hide G.Read, G.NoTerminal;
    assert (e.log + [event])[..|e.log|] == e.log;
  }

  lemma StillDecided(e: A.Execution, closed: A.Execution, event: AgentEvent)
    requires O.OnCourse(e) && e.pc.Done? && G.Terminal(event)
    requires closed.log == e.log + [event] && closed.pc == e.pc && closed.typed == e.typed && closed.attempt == e.attempt
    ensures e.pc.result.Returned? ==> O.Decided(closed, e.pc.result.outcome)
  {
    O.EmitPlain(e, event);
    hide O.ExecutionsIn, O.LastTurn, A.ResultOutcome, A.AssistantText, ItemsOf;
  }

  lemma FinalizeIsOk(e: A.Execution, result: RunResult)
    requires Running(e) && e.pc.Done? && e.log != [] && e.log[0] == RunStart
    ensures var closed := A.Emit(Heal(e), TerminalEvent(result));
            && Closed(closed, result) && closed.log != [] && closed.log[0] == RunStart
            && closed.delta == Heal(e).delta && closed.pc == e.pc && closed.committed == e.committed && closed.prompt == e.prompt
  {
    var healed, event := Heal(e), TerminalEvent(result);
    HealedDelta(e);
    L.EmitSilent(healed, event);
    ClosedLog(e, event);
    StillObserved(e, event);
    StillDecided(e, A.Emit(healed, event), event);
    hide Running, O.Decided, G.Read, G.NoTerminal, A.Emit, Replay, Healed, ItemsOf, G.Disciplined;
  }

  // ---------- Frames ----------

  /** A run whose own data did not change is still in order. */
  lemma RunFrame(sys: System, later: System, id: Id)
    requires id in sys.live && id in sys.store.runs && RunOk(sys, id)
    requires id in later.live && id in later.store.runs
    requires later.live[id] == sys.live[id] && later.store.runs[id] == sys.store.runs[id]
    requires (id in later.won <==> id in sys.won) && (id in later.aborted <==> id in sys.aborted)
    requires var session := sys.live[id].sessionId;
             && (sys.store.runs[id].ending.None? ==>
                   HistoryForSession(later.store, session) == HistoryForSession(sys.store, session))
             && (id in LineageOf(sys, session) ==> id in LineageOf(later, session))
    ensures RunOk(later, id)
  {
    hide LocalOk, HistoryForSession;
  }

  lemma {:induction false} ContributionsFrame(live: map<Id, LiveRun>, later: map<Id, LiveRun>, ids: seq<Id>)
    requires forall id :: id in ids ==> id in live && id in later && later[id].exec.delta == live[id].exec.delta
    ensures Contributions(later, ids) == Contributions(live, ids)
  {
    if ids != [] {
      assert forall id :: id in ids[..|ids| - 1] ==> id in ids;
      ContributionsFrame(live, later, ids[..|ids| - 1]);
    }
  }

  lemma HistoryFrame(live: map<Id, LiveRun>, later: map<Id, LiveRun>, won: set<Id>, laterWon: set<Id>,
                     rows: seq<HistoryRow>, ids: seq<Id>)
    requires HistoryOkAt(live, won, rows, ids) && won <= laterWon
    requires forall id :: id in ids ==> id in later && later[id].exec.delta == live[id].exec.delta
    ensures HistoryOkAt(later, laterWon, rows, ids)
  {
    hide NoRepeats, Tagged;
    ContributionsFrame(live, later, ids);
  }

  /** A winning run appends its rows to its session and its name to the lineage. */
  lemma HistoryGrows(live: map<Id, LiveRun>, later: map<Id, LiveRun>, won: set<Id>, runId: Id, rows: seq<HistoryRow>,
                     added: seq<HistoryRow>, ids: seq<Id>)
    requires HistoryOkAt(live, won, rows, ids) && runId !in won && runId in later
    requires forall id :: id in ids ==> id in later && later[id].exec.delta == live[id].exec.delta
    requires Tagged(added) == Tag(runId, later[runId].exec.delta)
    ensures HistoryOkAt(later, won + {runId}, rows + added, ids + [runId])
  {
    hide Tag;
    ContributionsFrame(live, later, ids);
    var longer := ids + [runId];
    assert longer[..|longer| - 1] == ids && longer[|longer| - 1] == runId;
    assert Tagged(rows + added) == Tagged(rows) + Tagged(added);
  }

  lemma NewRowsAreTagged(sessionId: Id, runId: Id, items: seq<Item>, first: int, at: int)
    ensures Tagged(NewRows(sessionId, runId, items, first, at)) == Tag(runId, items)
  {
  }

  lemma CopiedRowsAreTagged(rows: seq<HistoryRow>, target: Id)
    ensures Tagged(CopiedRows(rows, target)) == Tagged(rows)
  {
  }

  lemma NothingIsInLineage(live: map<Id, LiveRun>, won: set<Id>)
    ensures HistoryOkAt(live, won, [], [])
  {
  }
}
