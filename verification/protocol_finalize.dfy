/** Finalization keeps the invariant, whether the run's own finish wins, loses or faults. */
module ProtocolFinalize {
  import opened Wrappers
  import opened Conversation
  import opened RunEvents
  import opened StoreModel
  import opened ProtocolModel
  import opened ProtocolLaws
  import opened ProtocolSteps
  import A = AgentRun
  import S = StoreLaws

  /** The run closed with a result: healed, and ended by the matching event. */
  function ClosedRun(run: LiveRun, result: RunResult): LiveRun {
    run.(exec := A.Emit(Heal(run.exec), TerminalEvent(result)), result := Some(result))
  }

  lemma ClosedRunIsOk(run: LiveRun, result: RunResult)
    requires LocalOk(run) && run.result.None? && run.exec.pc.Done?
    ensures LocalOk(ClosedRun(run, result))
    ensures var e := ClosedRun(run, result).exec;
            e.delta == Heal(run.exec).delta && e.pc == run.exec.pc && e.committed == run.exec.committed && e.prompt == run.exec.prompt
    ensures ClosedRun(run, result).sessionId == run.sessionId && ClosedRun(run, result).result == Some(result)
  {
    FinalizeIsOk(run.exec, result);
    hide Closed, Running, A.Emit, Heal, TerminalEvent;
  }

  // ---------- The finish was not committed ----------

  /** A losing finish takes over the stored outcome; everything else is a fault. */
  lemma LostFacts(sys: System, runId: Id, now: int, fails: bool, readFails: bool)
    requires S.Invariant(sys.store) && Finishable(sys, runId) && runId in sys.store.runs
    requires sys.live[runId].sessionId == sys.store.runs[runId].sessionId
    requires fails || sys.store.runs[runId].ending.Some?
    ensures var later := StepFinalize(sys, runId, now, fails, readFails);
            var result := if !fails && !readFails then Outcome(sys.store.runs[runId].ending.value.outcome) else Faulted;
            later == sys.(live := sys.live[runId := ClosedRun(sys.live[runId], result)])
  {
    var run := sys.live[runId];
    S.FinishRunKeeps(sys.store, run.sessionId, runId, TerminalOutcome(run.exec.pc.result), Heal(run.exec).delta, now, fails);
    FailsFirst(sys.store, run.sessionId, runId, TerminalOutcome(run.exec.pc.result), Heal(run.exec).delta, now);
    hide FinishRun, S.Invariant, S.Evolves, HistoryForSession, A.Emit, Heal, TerminalOutcome, NewRows, TerminalEvent;
  }

  lemma FailsFirst(s: StoreState, sessionId: Id, runId: Id, outcome: RunOutcome, delta: seq<Item>, now: int)
    ensures FinishRun(s, sessionId, runId, outcome, delta, now, true).1 == Err(PersistenceFailure)
  {
  }

  lemma LosingRunIsOk(sys: System, later: System, runId: Id, result: RunResult)
    requires runId in sys.store.runs && Finishable(sys, runId) && RunOk(sys, runId)
    requires later == sys.(live := sys.live[runId := ClosedRun(sys.live[runId], result)])
    requires result.Outcome? ==>
               sys.store.runs[runId].ending.Some? && result.outcome == sys.store.runs[runId].ending.value.outcome
    ensures RunOk(later, runId)
  {
    hide LocalOk, HistoryForSession, ClosedRun;
    assert LocalOk(sys.live[runId]);
    ClosedRunIsOk(sys.live[runId], result);
  }

  lemma LossKeeps(sys: System, runId: Id, now: int, fails: bool, readFails: bool)
    requires SystemOk(sys) && Finishable(sys, runId) && (fails || sys.store.runs[runId].ending.Some?)
    ensures SystemOk(StepFinalize(sys, runId, now, fails, readFails))
  {
    hide S.Invariant, RunOk, HistoriesOk, StepFinalize, ClosedRun, HistoryForSession;
    var later := StepFinalize(sys, runId, now, fails, readFails);
    var result := if !fails && !readFails then Outcome(sys.store.runs[runId].ending.value.outcome) else Faulted;
    assert RunOk(sys, runId);
    RunningIsNotWon(sys, runId);
    LostFacts(sys, runId, now, fails, readFails);
    LosingRunIsOk(sys, later, runId, result);
    OneRunChanges(sys, later, runId);
  }

  // ---------- The finish won ----------

  ghost predicate Appended(sys: System, later: System, sessionId: Id, rows: seq<HistoryRow>) {
    forall id: Id ::
      HistoryForSession(later.store, id) == HistoryForSession(sys.store, id) + if id == sessionId then rows else []
  }

  /** What a committed finish does to the whole system. */
  lemma WonFacts(sys: System, runId: Id, now: int, readFails: bool) returns (rows: seq<HistoryRow>)
    requires S.Invariant(sys.store) && Finishable(sys, runId) && runId in sys.store.runs
    requires sys.live[runId].sessionId == sys.store.runs[runId].sessionId && sys.store.runs[runId].ending.None?
    ensures var run := sys.live[runId];
            var outcome := TerminalOutcome(run.exec.pc.result);
            var later := StepFinalize(sys, runId, now, false, readFails);
            && S.Invariant(later.store)
            && later.store.runs == sys.store.runs[runId := TerminalRecord(sys.store.runs[runId], outcome, now)]
            && later.store.sessions.Keys == sys.store.sessions.Keys
            && later == System(later.store, sys.live[runId := ClosedRun(run, Outcome(outcome))], sys.won + {runId}, sys.aborted,
                               sys.lineage[run.sessionId := LineageOf(sys, run.sessionId) + [runId]])
            && Appended(sys, later, run.sessionId, rows)
            && Tagged(rows) == Tag(runId, Heal(run.exec).delta) && Items(rows) == Heal(run.exec).delta
  {
    var run := sys.live[runId];
    var outcome, delta := TerminalOutcome(run.exec.pc.result), Heal(run.exec).delta;
    S.FinishRunKeeps(sys.store, run.sessionId, runId, outcome, delta, now, false);
    FinishSessions(sys.store, run.sessionId, runId, outcome, delta, now);
    var record := TerminalRecord(sys.store.runs[runId], outcome, now);
    var first := |HistoryForSession(sys.store, run.sessionId)|;
    rows := NewRows(run.sessionId, runId, delta, first, record.ending.value.endedAt);
    NewRowsAreTagged(run.sessionId, runId, delta, first, record.ending.value.endedAt);
    assert Items(rows) == delta;
    hide FinishRun, S.Invariant, S.Evolves, HistoryForSession, A.Emit, Heal, TerminalOutcome, NewRows, TerminalEvent, Tag, Tagged, Items;
  }

  lemma FinishSessions(s: StoreState, sessionId: Id, runId: Id, outcome: RunOutcome, delta: seq<Item>, now: int)
    ensures var (later, r) := FinishRun(s, sessionId, runId, outcome, delta, now, false);
            later.sessions.Keys == s.sessions.Keys
  {
    hide KeysTaken, NewRows, RowsOf, MaxPosition;
    var (later, r) := FinishRun(s, sessionId, runId, outcome, delta, now, false);
    assert r.Ok? ==> later.sessions.Keys == s.sessions.Keys + {sessionId};
  }

  lemma WinningRunIsOk(sys: System, later: System, runId: Id, now: int)
    requires runId in sys.store.runs && Finishable(sys, runId) && RunOk(sys, runId) && sys.store.runs[runId].ending.None?
    requires var run := sys.live[runId];
             var outcome := TerminalOutcome(run.exec.pc.result);
             && runId in later.live && later.live[runId] == ClosedRun(run, Outcome(outcome))
             && runId in later.store.runs
             && later.store.runs[runId] == TerminalRecord(sys.store.runs[runId], outcome, now)
             && later.won == sys.won + {runId} && later.aborted == sys.aborted
             && runId in LineageOf(later, run.sessionId)
    ensures RunOk(later, runId)
  {
    hide LocalOk, HistoryForSession, ClosedRun, TerminalOutcome;
    assert LocalOk(sys.live[runId]);
    var result := Outcome(TerminalOutcome(sys.live[runId].exec.pc.result));
    ClosedRunIsOk(sys.live[runId], result);
  }

  /** The only active run of the session is the winner, so no other run's snapshot is outdated. */
  lemma OthersAreEnded(sys: System, runId: Id, id: Id)
    requires S.OneActive(sys.store) && Linked(sys) && RunsOk(sys)
    requires runId in sys.live && sys.store.runs[runId].ending.None?
    requires id in sys.live && id != runId && sys.live[id].sessionId == sys.live[runId].sessionId
    ensures sys.store.runs[id].ending.Some?
  {
    hide RunOk;
    RunningIsNotWon(sys, id);
    RunningIsNotWon(sys, runId);
    assert IsActive(sys.store.runs, sys.live[id].sessionId, runId);
    assert !IsActive(sys.store.runs, sys.live[id].sessionId, id);
  }

  lemma OthersSurviveWin(sys: System, later: System, runId: Id, rows: seq<HistoryRow>)
    requires S.OneActive(sys.store) && Linked(sys) && RunsOk(sys) && Linked(later) && OthersSame(sys, later, runId)
    requires runId in sys.live && sys.store.runs[runId].ending.None?
    requires Appended(sys, later, sys.live[runId].sessionId, rows)
    requires forall id: Id, r :: r in LineageOf(sys, id) ==> r in LineageOf(later, id)
    ensures forall id :: id in later.live && id != runId ==> RunOk(later, id)
  {
    hide RunOk, HistoryForSession, S.OneActive;
    forall id | id in later.live && id != runId ensures RunOk(later, id) {
      var session := sys.live[id].sessionId;
      if session == sys.live[runId].sessionId {
        OthersAreEnded(sys, runId, id);
      } else {
        assert HistoryForSession(sys.store, session) + [] == HistoryForSession(sys.store, session);
      }
      RunFrame(sys, later, id);
    }
  }

  lemma HistoriesSurviveWin(sys: System, later: System, runId: Id, rows: seq<HistoryRow>)
    requires Linked(sys) && HistoriesOk(sys) && OthersSame(sys, later, runId)
    requires runId in sys.live && runId !in sys.won && runId in later.live
    requires var session := sys.live[runId].sessionId;
             && Appended(sys, later, session, rows)
             && Tagged(rows) == Tag(runId, later.live[runId].exec.delta)
             && later.won == sys.won + {runId}
             && later.lineage == sys.lineage[session := LineageOf(sys, session) + [runId]]
    ensures HistoriesOk(later)
  {
    hide HistoryForSession, HistoryOkAt, Tag, Tagged;
    forall id: Id ensures HistoryOk(later, id) {
      assert HistoryOk(sys, id);
      WinnersOnly(sys, id);
      var mine, ids := HistoryForSession(sys.store, id), LineageOf(sys, id);
      if id == sys.live[runId].sessionId {
        HistoryGrows(sys.live, later.live, sys.won, runId, mine, rows, ids);
      } else {
        assert mine + [] == mine;
        HistoryFrame(sys.live, later.live, sys.won, later.won, mine, ids);
      }
    }
  }

  lemma WinKeeps(sys: System, runId: Id, now: int, readFails: bool)
    requires SystemOk(sys) && Finishable(sys, runId) && sys.store.runs[runId].ending.None?
    ensures SystemOk(StepFinalize(sys, runId, now, false, readFails))
  {
    hide S.Invariant, RunOk, HistoriesOk, StepFinalize, ClosedRun, HistoryForSession, Appended, Heal, TerminalOutcome,
      TerminalRecord, Tag, Tagged, Items, RunsOk, OthersSame;
    var later := StepFinalize(sys, runId, now, false, readFails);
    LiveRunIsOk(sys, runId);
    RunningIsNotWon(sys, runId);
    var rows := WonFacts(sys, runId, now, readFails);
    var run := sys.live[runId];
    StoreFacts(sys, runId);
    WinLinks(sys, later, runId);
    WinningRunIsOk(sys, later, runId, now);
    RunIsLocallyOk(sys, runId);
    ClosedRunIsOk(run, Outcome(TerminalOutcome(run.exec.pc.result)));
    OthersSurviveWin(sys, later, runId, rows);
    HistoriesSurviveWin(sys, later, runId, rows);
    AllRunsOk(later, runId);
  }

  lemma AllRunsOk(sys: System, runId: Id)
    requires Linked(sys) && runId in sys.live && RunOk(sys, runId)
    requires forall id :: id in sys.live && id != runId ==> RunOk(sys, id)
    ensures RunsOk(sys)
  {
    hide RunOk;
  }

  lemma WinLinks(sys: System, later: System, runId: Id)
    requires Linked(sys) && runId in sys.live && sys.live[runId].sessionId in sys.store.sessions
    requires later.store.runs.Keys == sys.store.runs.Keys + {runId} && later.store.sessions.Keys == sys.store.sessions.Keys
    requires runId in later.live && later.live == sys.live[runId := later.live[runId]]
    requires later.won == sys.won + {runId} && later.aborted == sys.aborted
    requires later.lineage == sys.lineage[sys.live[runId].sessionId := LineageOf(sys, sys.live[runId].sessionId) + [runId]]
    requires forall id :: id in sys.store.runs && id != runId ==> id in later.store.runs && later.store.runs[id] == sys.store.runs[id]
    ensures Linked(later) && OthersSame(sys, later, runId)
    ensures forall id: Id, r :: r in LineageOf(sys, id) ==> r in LineageOf(later, id)
    ensures runId in LineageOf(later, sys.live[runId].sessionId)
  {
  }

  lemma RunIsLocallyOk(sys: System, runId: Id)
    requires runId in sys.live && runId in sys.store.runs && RunOk(sys, runId)
    ensures LocalOk(sys.live[runId])
  {
    hide LocalOk, HistoryForSession;
  }

  lemma StoreFacts(sys: System, runId: Id)
    requires S.Invariant(sys.store) && runId in sys.store.runs
    ensures sys.store.runs[runId].sessionId in sys.store.sessions && S.OneActive(sys.store)
  {
  }

  lemma FinalizeKeeps(sys: System, runId: Id, now: int, fails: bool, readFails: bool)
    requires SystemOk(sys)
    ensures SystemOk(StepFinalize(sys, runId, now, fails, readFails))
  {
    hide SystemOk, FinishRun, FinishResult, Heal, A.Emit, TerminalOutcome;
    if Finishable(sys, runId) {
      LiveRunIsOk(sys, runId);
      if fails || sys.store.runs[runId].ending.Some? {
        LossKeeps(sys, runId, now, fails, readFails);
      } else {
        WinKeeps(sys, runId, now, readFails);
      }
    }
  }
}
