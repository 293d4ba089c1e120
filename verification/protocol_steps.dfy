/** Every step keeps the protocol's invariant. */
module ProtocolSteps {
  import opened Wrappers
  import opened RunEvents
  import opened StoreModel
  import opened ProtocolModel
  import opened ProtocolLaws
  import A = AgentRun
  import S = StoreLaws

  // ---------- Steps that change one run and no history ----------

  ghost predicate SameHistories(sys: System, later: System) {
    forall id: Id :: HistoryForSession(later.store, id) == HistoryForSession(sys.store, id)
  }

  /** Every run but one is as before, live and stored. */
  predicate OthersSame(sys: System, later: System, runId: Id) {
    && (forall id :: id in sys.live ==> id in later.live)
    && forall id :: id in later.live && id != runId ==>
         && id in sys.live && later.live[id] == sys.live[id]
         && id in sys.store.runs && id in later.store.runs && later.store.runs[id] == sys.store.runs[id]
         && (id in later.won <==> id in sys.won) && (id in later.aborted <==> id in sys.aborted)
  }

  lemma OthersKept(sys: System, later: System, runId: Id)
    requires Linked(sys) && Linked(later) && RunsOk(sys) && OthersSame(sys, later, runId)
    requires SameHistories(sys, later) && later.lineage == sys.lineage
    ensures forall id :: id in later.live && id != runId ==> RunOk(later, id)
  {
    hide HistoryForSession, RunOk, RunOkAt;
    forall id | id in later.live && id != runId ensures RunOk(later, id) {
      RunFrame(sys, later, id);
    }
  }

  lemma WinnersOnly(sys: System, id: Id)
    requires HistoryOk(sys, id)
    ensures forall r :: r in LineageOf(sys, id) ==> r in sys.won && r in sys.live
  {
  }

  lemma LineagesKept(sys: System, later: System, runId: Id)
    requires Linked(sys) && HistoriesOk(sys) && runId !in sys.won && later.won == sys.won && later.lineage == sys.lineage
    requires OthersSame(sys, later, runId) && SameHistories(sys, later)
    ensures HistoriesOk(later)
  {
    hide HistoryForSession, HistoryOkAt;
    forall id: Id ensures HistoryOk(later, id) {
      assert HistoryOk(sys, id);
      WinnersOnly(sys, id);
      HistoryFrame(sys.live, later.live, sys.won, later.won, HistoryForSession(sys.store, id), LineageOf(sys, id));
    }
  }

  lemma OneRunChanges(sys: System, later: System, runId: Id)
    requires SystemOk(sys) && S.Invariant(later.store) && Linked(later)
    requires OthersSame(sys, later, runId) && SameHistories(sys, later)
    requires runId !in sys.won && later.won == sys.won && later.lineage == sys.lineage
    requires runId in later.live && RunOk(later, runId)
    ensures SystemOk(later)
  {
    hide S.Invariant, RunOk, HistoriesOk, SameHistories, OthersSame;
    OthersKept(sys, later, runId);
    LineagesKept(sys, later, runId);
  }

  lemma RunningIsNotWon(sys: System, runId: Id)
    requires runId in sys.live && runId in sys.store.runs && RunOk(sys, runId)
    ensures sys.live[runId].result.None? ==> runId !in sys.won
    ensures sys.store.runs[runId].ending.None? ==> runId !in sys.won
    ensures sys.live[runId].sessionId == sys.store.runs[runId].sessionId
  {
    hide LocalOk, HistoryForSession;
  }

  // ---------- Prompt ----------

  lemma PromptFacts(sys: System, id: Id, runId: Id, prompt: string, typed: bool, now: int, fails: bool)
    requires S.Invariant(sys.store)
    ensures var later := StepPrompt(sys, id, runId, prompt, typed, now, fails);
            && S.Invariant(later.store)
            && (later != sys ==>
                  && runId !in sys.store.runs && SameHistories(sys, later)
                  && later.store.runs == sys.store.runs[runId := RunRecord(id, prompt, now, None)]
                  && later.live == sys.live[runId :=
                       LiveRun(id, A.Start(typed, Items(HistoryForSession(sys.store, id)), prompt), None, [])]
                  && later.store.sessions == sys.store.sessions
                  && later == sys.(store := later.store, live := later.live))
  {
    S.StartRunKeeps(sys.store, id, runId, prompt, now, fails);
    S.SameHistory(sys.store, StartRun(sys.store, id, runId, prompt, now, fails).0);
    hide S.Invariant, S.Evolves, HistoryForSession, A.Start;
  }

  lemma NewRunIsOk(sys: System, later: System, id: Id, runId: Id, prompt: string, typed: bool, now: int)
    requires runId !in sys.won && runId !in sys.aborted && later.won == sys.won && later.aborted == sys.aborted
    requires runId in later.live && runId in later.store.runs && SameHistories(sys, later)
    requires later.live[runId] == LiveRun(id, A.Start(typed, Items(HistoryForSession(sys.store, id)), prompt), None, [])
    requires later.store.runs[runId] == RunRecord(id, prompt, now, None)
    ensures RunOk(later, runId)
  {
    StartIsOk(id, typed, Items(HistoryForSession(sys.store, id)), prompt);
    hide LocalOk, HistoryForSession;
  }

  lemma PromptLinks(sys: System, later: System, runId: Id)
    requires Linked(sys) && runId !in sys.store.runs && runId in later.live && runId in later.store.runs
    requires later.live == sys.live[runId := later.live[runId]]
    requires later.store.runs == sys.store.runs[runId := later.store.runs[runId]]
    requires later.store.sessions == sys.store.sessions
    requires later == sys.(store := later.store, live := later.live)
    ensures Linked(later) && OthersSame(sys, later, runId) && runId !in sys.won && runId !in sys.aborted
  {
  }

  lemma PromptKeeps(sys: System, id: Id, runId: Id, prompt: string, typed: bool, now: int, fails: bool)
    requires SystemOk(sys)
    ensures SystemOk(StepPrompt(sys, id, runId, prompt, typed, now, fails))
  {
    hide S.Invariant, RunOk, HistoriesOk, SameHistories, StepPrompt, A.Start, RunsOk, OthersSame, HistoryForSession;
    var later := StepPrompt(sys, id, runId, prompt, typed, now, fails);
    PromptFacts(sys, id, runId, prompt, typed, now, fails);
    if later != sys {
      PromptLinks(sys, later, runId);
      NewRunIsOk(sys, later, id, runId, prompt, typed, now);
      OneRunChanges(sys, later, runId);
    }
  }

  // ---------- Advance ----------

  lemma AdvancedIsOk(sys: System, later: System, runId: Id, input: A.Input)
    requires runId in sys.live && runId in sys.store.runs && RunOk(sys, runId) && sys.live[runId].result.None?
    requires later == StepAdvance(sys, runId, input)
    ensures RunOk(later, runId)
  {
    hide LocalOk, HistoryForSession, A.Step;
    assert LocalOk(sys.live[runId]);
    AdvanceIsOk(sys.live[runId], input);
  }

  lemma AdvanceKeeps(sys: System, runId: Id, input: A.Input)
    requires SystemOk(sys)
    ensures SystemOk(StepAdvance(sys, runId, input))
  {
    hide S.Invariant, RunOk, HistoriesOk, A.Step, HistoryForSession;
    var later := StepAdvance(sys, runId, input);
    if runId in sys.live && sys.live[runId].result.None? {
      RunningIsNotWon(sys, runId);
      AdvancedIsOk(sys, later, runId, input);
      OneRunChanges(sys, later, runId);
    }
  }

  // ---------- Abort ----------

  lemma AbortFacts(sys: System, id: Id, now: int, fails: bool) returns (runId: Id)
    requires S.Invariant(sys.store)
    ensures var later := StepAbort(sys, id, now, fails);
            && S.Invariant(later.store)
            && (later != sys ==>
                  && runId in sys.store.runs && sys.store.runs[runId].ending.None? && SameHistories(sys, later)
                  && later.store.runs == sys.store.runs[runId := TerminalRecord(sys.store.runs[runId], Aborted, now)]
                  && later.store.sessions.Keys == sys.store.sessions.Keys
                  && later == sys.(store := later.store, aborted := sys.aborted + {runId}))
  {
    S.AbortKeeps(sys.store, id, now, fails);
    hide S.Invariant, S.Evolves, HistoryForSession;
    runId := ActiveRunOf(sys.store, id).GetOr("");
    var later := StepAbort(sys, id, now, fails);
    assert later != sys ==> later.store.sessions.Keys == sys.store.sessions.Keys + {sys.store.runs[runId].sessionId};
  }

  lemma AbortedIsOk(sys: System, later: System, runId: Id, now: int)
    requires runId in sys.live && runId in sys.store.runs && RunOk(sys, runId) && sys.store.runs[runId].ending.None?
    requires later.live == sys.live && later.won == sys.won && later.aborted == sys.aborted + {runId}
    requires runId in later.store.runs && later.store.runs[runId] == TerminalRecord(sys.store.runs[runId], Aborted, now)
    ensures RunOk(later, runId)
  {
    hide LocalOk, HistoryForSession;
  }

  lemma AbortStepKeeps(sys: System, id: Id, now: int, fails: bool)
    requires SystemOk(sys)
    ensures SystemOk(StepAbort(sys, id, now, fails))
  {
    hide S.Invariant, RunOk, HistoriesOk, SameHistories, StepAbort, TerminalRecord;
    var later := StepAbort(sys, id, now, fails);
    var runId := AbortFacts(sys, id, now, fails);
    if later != sys {
      RunningIsNotWon(sys, runId);
      AbortedIsOk(sys, later, runId, now);
      AbortLinks(sys, later, runId);
      OneRunChanges(sys, later, runId);
    }
  }

  lemma AbortLinks(sys: System, later: System, runId: Id)
    requires Linked(sys) && runId in sys.store.runs
    requires later.store.runs.Keys == sys.store.runs.Keys + {runId} && later.store.sessions.Keys == sys.store.sessions.Keys
    requires later == sys.(store := later.store, aborted := sys.aborted + {runId})
    ensures Linked(later)
  {
  }

  // ---------- New sessions and forks ----------

  /** Everything is as before except for one session that did not exist. */
  ghost predicate OneSessionAdded(sys: System, later: System, target: Id) {
    && target !in sys.store.sessions && target in later.lineage
    && later.store.runs == sys.store.runs
    && later.store.sessions.Keys == sys.store.sessions.Keys + {target}
    && later == sys.(store := later.store, lineage := sys.lineage[target := later.lineage[target]])
    && forall id: Id :: id != target ==> HistoryForSession(later.store, id) == HistoryForSession(sys.store, id)
  }

  lemma OneSessionMore(sys: System, later: System, target: Id)
    requires SystemOk(sys) && S.Invariant(later.store) && OneSessionAdded(sys, later, target) && HistoryOk(later, target)
    ensures SystemOk(later)
  {
    hide HistoryForSession, HistoryOkAt, RunOkAt, S.SessionsOk, S.OneActive, S.PositionsOk, S.RowsOk;
    forall id | id in later.live ensures RunOk(later, id) {
      assert RunOk(sys, id);
      RunningIsNotWon(sys, id);
      RunFrame(sys, later, id);
    }
    forall id: Id ensures HistoryOk(later, id) {
      assert HistoryOk(sys, id);
    }
  }

  lemma NoHistory(s: StoreState, sessionId: Id)
    requires S.Invariant(s) && sessionId !in s.sessions
    ensures HistoryForSession(s, sessionId) == []
  {
    S.NoRowsYet(s, sessionId);
    S.HistoryIsRows(s, sessionId);
  }

  lemma NewSessionTables(sys: System, id: Id, now: int, fails: bool)
    ensures var later := StepNewSession(sys, id, now, fails);
            && later.store.history == sys.store.history
            && (later != sys ==>
                  && id !in sys.store.sessions && later.store.runs == sys.store.runs
                  && later.store.sessions.Keys == sys.store.sessions.Keys + {id}
                  && later == sys.(store := later.store, lineage := sys.lineage[id := []]))
  {
  }

  lemma NewSessionFacts(sys: System, id: Id, now: int, fails: bool)
    requires S.Invariant(sys.store)
    ensures var later := StepNewSession(sys, id, now, fails);
            && S.Invariant(later.store)
            && (later != sys ==>
                  OneSessionAdded(sys, later, id) && HistoryForSession(later.store, id) == [] && later.lineage[id] == [])
  {
    var later := StepNewSession(sys, id, now, fails);
    S.CreateSessionKeeps(sys.store, id, now, fails);
    NewSessionTables(sys, id, now, fails);
    S.SameHistory(sys.store, later.store);
    assert S.Invariant(later.store);
    hide S.Invariant, S.Evolves, HistoryForSession, StepNewSession;
    if later != sys {
      NoHistory(sys.store, id);
    }
  }

  lemma NewSessionKeeps(sys: System, id: Id, now: int, fails: bool)
    requires SystemOk(sys)
    ensures SystemOk(StepNewSession(sys, id, now, fails))
  {
    hide S.Invariant, HistoryForSession, StepNewSession, HistoryOkAt, RunsOk, HistoriesOk;
    var later := StepNewSession(sys, id, now, fails);
    NewSessionFacts(sys, id, now, fails);
    NothingIsInLineage(later.live, later.won);
    if later != sys {
      OneSessionMore(sys, later, id);
    }
  }

  lemma ForkFacts(sys: System, source: Id, target: Id, now: int, fails: bool)
    requires S.Invariant(sys.store)
    ensures var later := StepFork(sys, source, target, now, fails);
            && S.Invariant(later.store)
            && (later != sys ==>
                  && OneSessionAdded(sys, later, target) && later.lineage[target] == LineageOf(sys, source)
                  && HistoryForSession(later.store, target) == CopiedRows(HistoryForSession(sys.store, source), target))
  {
    S.ForkKeeps(sys.store, source, target, now, fails);
    hide S.Invariant, S.Evolves, HistoryForSession, CopiedRows, KeysTaken;
  }

  lemma SameTags(live: map<Id, LiveRun>, won: set<Id>, rows: seq<HistoryRow>, copies: seq<HistoryRow>, ids: seq<Id>)
    requires HistoryOkAt(live, won, rows, ids) && Tagged(copies) == Tagged(rows)
    ensures HistoryOkAt(live, won, copies, ids)
  {
  }

  lemma ForkStepKeeps(sys: System, source: Id, target: Id, now: int, fails: bool)
    requires SystemOk(sys)
    ensures SystemOk(StepFork(sys, source, target, now, fails))
  {
    hide S.Invariant, HistoryForSession, StepFork, HistoryOkAt, RunsOk, CopiedRows;
    var later := StepFork(sys, source, target, now, fails);
    ForkFacts(sys, source, target, now, fails);
    if later != sys {
      assert HistoryOk(sys, source);
      var rows := HistoryForSession(sys.store, source);
      CopiedRowsAreTagged(rows, target);
      SameTags(sys.live, sys.won, rows, CopiedRows(rows, target), LineageOf(sys, source));
      OneSessionMore(sys, later, target);
    }
  }

  lemma InitialIsOk()
    ensures SystemOk(INITIAL)
  {
    hide HistoryOkAt, RunOk, S.Invariant;
    S.EmptyIsInvariant();
    forall id: Id ensures HistoryOk(INITIAL, id) {
      NoHistory(INITIAL.store, id);
      NothingIsInLineage(INITIAL.live, INITIAL.won);
    }
  }
}
