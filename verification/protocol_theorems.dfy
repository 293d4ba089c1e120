/** What the run protocol guarantees in every reachable state, over every interleaving. */
module ProtocolTheorems {
  import opened Sequences
  import opened Conversation
  import opened RunEvents
  import opened StoreModel
  import opened ProtocolModel
  import opened ProtocolLaws
  import opened ProtocolSteps
  import opened ProtocolFinalize
  import opened ProtocolInputs
  import A = AgentRun
  import L = AgentLaws
  import G = AgentGrammar
  import O = AgentOutcomes
  import S = StoreLaws

  lemma StepKeepsSystem(sys: System, event: Event)
    requires SystemOk(sys)
    ensures SystemOk(Next(sys, event))
  {
    hide SystemOk, StepNewSession, StepPrompt, StepAdvance, StepFinalize, StepAbort, StepFork;
    match event
    case NewSession(id, now, fails) => NewSessionKeeps(sys, id, now, fails);
    case Prompt(id, runId, prompt, typed, now, fails) => PromptKeeps(sys, id, runId, prompt, typed, now, fails);
    case Advance(runId, input) => AdvanceKeeps(sys, runId, input);
    case Finalize(runId, now, fails, readFails) => FinalizeKeeps(sys, runId, now, fails, readFails);
    case AbortSession(id, now, fails) => AbortStepKeeps(sys, id, now, fails);
    case ForkFrom(source, target, now, fails) => ForkStepKeeps(sys, source, target, now, fails);
  }

  lemma {:induction false} StepsKeepSystem(sys: System, events: seq<Event>)
    requires SystemOk(sys)
    ensures SystemOk(After(sys, events))
    decreases events
  {
    hide SystemOk, Next;
    if events != [] {
      StepKeepsSystem(sys, events[0]);
      StepsKeepSystem(Next(sys, events[0]), events[1..]);
    }
  }

  lemma ReachableIsOk(events: seq<Event>)
    ensures SystemOk(After(INITIAL, events))
  {
    InitialIsOk();
    StepsKeepSystem(INITIAL, events);
  }

  // ---------- Snapshots ----------

  /** The committed history of a session, as items. */
  function Committed(sys: System, sessionId: Id): seq<Item> {
    Items(HistoryForSession(sys.store, sessionId))
  }

  /** While a run is active its session's committed history is the snapshot it started from. */
  lemma ActiveRunKeepsItsSnapshot(events: seq<Event>, runId: Id)
    ensures var sys := After(INITIAL, events);
            runId in sys.live ==>
              && runId in sys.store.runs
              && (sys.store.runs[runId].ending.None? ==>
                    Committed(sys, sys.live[runId].sessionId) == sys.live[runId].exec.committed)
  {
    ReachableIsOk(events);
    var sys := After(INITIAL, events);
    if runId in sys.live {
      LiveRunIsOk(sys, runId);
      hide After, LocalOk, HistoryForSession, HistoriesOk, S.Invariant;
      assert RunOk(sys, runId);
    }
  }

  /** The session's history is now the run's snapshot and its healed delta; other histories are as before. */
  ghost predicate CommittedDelta(sys: System, later: System, runId: Id)
    requires runId in later.live
  {
    var session, e := later.live[runId].sessionId, later.live[runId].exec;
    && Committed(later, session) == Committed(sys, session) + e.delta == e.committed + e.delta == e.working
    && forall id: Id :: id != session ==> Committed(later, id) == Committed(sys, id)
  }

  /**
   * Finalization commits the snapshot and the healed delta, which is exactly what the run worked with,
   * if the backend holds and the run was not ended before; otherwise the store is as before. The run faults
   * exactly when the backend fails, or an earlier ending has to be read and the read fails.
   */
  lemma FinishCommitsSnapshotAndDelta(events: seq<Event>, runId: Id, now: int, fails: bool, readFails: bool)
    ensures var sys := After(INITIAL, events);
            var later := Next(sys, Finalize(runId, now, fails, readFails));
            Finishable(sys, runId) ==>
              && runId in later.live && runId in sys.store.runs
              && (runId in later.won <==> !fails && sys.store.runs[runId].ending.None?)
              && (if runId in later.won then CommittedDelta(sys, later, runId) else later.store == sys.store)
              && later.live[runId].result.Some?
              && (later.live[runId].result.value.Faulted? <==>
                    fails || (sys.store.runs[runId].ending.Some? && readFails))
  {
    ReachableIsOk(events);
    var sys := After(INITIAL, events);
    hide After, SystemOk, StepFinalize, CommittedDelta, RunOk;
    if Finishable(sys, runId) {
      LiveRunIsOk(sys, runId);
      if fails || sys.store.runs[runId].ending.Some? {
        LossCommitsNothing(sys, runId, now, fails, readFails);
      } else {
        WinCommits(sys, runId, now, readFails);
      }
    }
  }

  lemma LossCommitsNothing(sys: System, runId: Id, now: int, fails: bool, readFails: bool)
    requires SystemOk(sys) && Finishable(sys, runId) && (fails || sys.store.runs[runId].ending.Some?)
    ensures var later := StepFinalize(sys, runId, now, fails, readFails);
            && runId in later.live && runId !in later.won && later.store == sys.store
            && later.live[runId].result.Some?
            && (later.live[runId].result.value.Faulted? <==> fails || readFails)
  {
    hide S.Invariant, RunOk, HistoriesOk, StepFinalize, HistoryForSession, RunsOk, A.Emit, Heal, TerminalEvent;
    LiveRunIsOk(sys, runId);
    RunningIsNotWon(sys, runId);
    LostFacts(sys, runId, now, fails, readFails);
  }

  lemma WinCommits(sys: System, runId: Id, now: int, readFails: bool)
    requires SystemOk(sys) && Finishable(sys, runId) && sys.store.runs[runId].ending.None?
    ensures var later := StepFinalize(sys, runId, now, false, readFails);
            && runId in later.live && runId in later.won && CommittedDelta(sys, later, runId)
            && later.live[runId].result.Some? && later.live[runId].result.value.Outcome?
  {
    hide S.Invariant, RunOk, HistoriesOk, StepFinalize, ClosedRun, HistoryForSession, RunsOk, TerminalRecord, Heal, Tag, Tagged,
      LocalOk, TerminalOutcome;
    LiveRunIsOk(sys, runId);
    RunningIsNotWon(sys, runId);
    RunIsLocallyOk(sys, runId);
    ActiveSnapshot(sys, runId);
    var run := sys.live[runId];
    var rows := WonFacts(sys, runId, now, readFails);
    var later := StepFinalize(sys, runId, now, false, readFails);
    ClosedRunIsOk(run, Outcome(TerminalOutcome(run.exec.pc.result)));
    ClosedWorking(later.live[runId]);
    ItemsConcatRows(HistoryForSession(sys.store, run.sessionId), rows);
    forall id: Id | id != run.sessionId ensures Committed(later, id) == Committed(sys, id) {
      assert HistoryForSession(sys.store, id) + [] == HistoryForSession(sys.store, id);
    }
  }

  lemma ItemsConcatRows(a: seq<HistoryRow>, b: seq<HistoryRow>)
    ensures Items(a + b) == Items(a) + Items(b)
  {
  }

  lemma ClosedWorking(run: LiveRun)
    requires LocalOk(run) && run.result.Some?
    ensures run.exec.working == run.exec.committed + run.exec.delta
  {
    hide Running;
  }

  lemma ActiveSnapshot(sys: System, runId: Id)
    requires runId in sys.live && runId in sys.store.runs && RunOk(sys, runId) && sys.store.runs[runId].ending.None?
    ensures Committed(sys, sys.live[runId].sessionId) == sys.live[runId].exec.committed
  {
    hide LocalOk, HistoryForSession;
  }

  // ---------- Results ----------

  /** A result, once there, is there for good, with the run's log. */
  lemma ResultIsFinal(sys: System, event: Event, runId: Id)
    requires SystemOk(sys) && runId in sys.live && sys.live[runId].result.Some?
    ensures runId in Next(sys, event).live && Next(sys, event).live[runId] == sys.live[runId]
  {
    hide FinishRun, CreateSession, ForkSession, AbortActiveRun, FinishResult, Heal, A.Emit, A.Step, A.Start, HistoriesOk, RunsOk;
    if event.Prompt? && event.runId == runId {
      LiveRunIsOk(sys, runId);
    }
  }

  lemma {:induction false} ResultsAreFinal(sys: System, events: seq<Event>, runId: Id)
    requires SystemOk(sys) && runId in sys.live && sys.live[runId].result.Some?
    ensures runId in After(sys, events).live && After(sys, events).live[runId] == sys.live[runId]
    decreases events
  {
    hide SystemOk, Next;
    if events != [] {
      ResultIsFinal(sys, events[0], runId);
      StepKeepsSystem(sys, events[0]);
      ResultsAreFinal(Next(sys, events[0]), events[1..], runId);
    }
  }

  /** The result, the last event of the log and the stored record tell the same ending. */
  predicate SameEnding(sys: System, runId: Id) {
    && runId in sys.live && runId in sys.store.runs && sys.live[runId].result.Some?
    && var run, record := sys.live[runId], sys.store.runs[runId];
       && run.exec.log != []
       && run.exec.log[|run.exec.log| - 1] == (if run.result.value.Faulted? then RunFault else RunEnd(run.result.value.outcome))
       && (run.result.value.Outcome? ==> record.ending.Some? && record.ending.value.outcome == run.result.value.outcome)
  }

  lemma ClosedLogTellsResult(run: LiveRun)
    requires LocalOk(run) && run.result.Some?
    ensures run.exec.log != [] && run.exec.log[|run.exec.log| - 1] == TerminalEvent(run.result.value)
  {
    hide Running, G.Read, O.Decided, WellFormed, DistinctIds, G.NoTerminal, TerminalEvent;
  }

  lemma StoredEnding(sys: System, runId: Id)
    requires runId in sys.live && runId in sys.store.runs && RunOk(sys, runId) && sys.live[runId].result.Some?
    ensures var result, record := sys.live[runId].result.value, sys.store.runs[runId];
            result.Outcome? ==> record.ending.Some? && record.ending.value.outcome == result.outcome
  {
    hide LocalOk, HistoryForSession, Items;
  }

  lemma ResultHasSameEnding(sys: System, runId: Id)
    requires SystemOk(sys) && runId in sys.live && sys.live[runId].result.Some?
    ensures SameEnding(sys, runId)
  {
    hide SystemOk, RunOk, LocalOk;
    LiveRunIsOk(sys, runId);
    RunIsLocallyOk(sys, runId);
    ClosedLogTellsResult(sys.live[runId]);
    StoredEnding(sys, runId);
  }

  /**
   * Once a run has a result, whatever happens later to the store and to other runs: the result and the
   * log stay as they are and, unless the run faulted, agree with the stored outcome.
   */
  lemma ResultsAgreeForever(events: seq<Event>, more: seq<Event>, runId: Id)
    ensures var sys, later := After(INITIAL, events), After(INITIAL, events + more);
            runId in sys.live && sys.live[runId].result.Some? ==>
              && SameEnding(sys, runId) && SameEnding(later, runId)
              && later.live[runId] == sys.live[runId]
  {
    ReachableIsOk(events);
    ReachableIsOk(events + more);
    AfterConcat(INITIAL, events, more);
    var sys := After(INITIAL, events);
    hide After, SystemOk;
    if runId in sys.live && sys.live[runId].result.Some? {
      ResultsAreFinal(sys, more, runId);
      ResultHasSameEnding(sys, runId);
      ResultHasSameEnding(After(INITIAL, events + more), runId);
    }
  }

  // ---------- Who contributes what ----------

  /** The items of one run in a history. */
  function ItemsBy(tagged: seq<(Id, Item)>, runId: Id): seq<Item> {
    if tagged == [] then []
    else ItemsBy(tagged[..|tagged| - 1], runId) + if tagged[|tagged| - 1].0 == runId then [tagged[|tagged| - 1].1] else []
  }

  lemma {:induction false} ItemsByConcat(a: seq<(Id, Item)>, b: seq<(Id, Item)>, runId: Id)
    ensures ItemsBy(a + b, runId) == ItemsBy(a, runId) + ItemsBy(b, runId)
    decreases b
  {
    if b == [] {
      assert a + [] == a && ItemsBy(a, runId) + [] == ItemsBy(a, runId);
    } else {
      var front, last := b[..|b| - 1], b[|b| - 1];
      ItemsByConcat(a, front, runId);
      assert (a + b)[..|a + b| - 1] == a + front && (a + b)[|a + b| - 1] == last;
      Assoc(ItemsBy(a, runId), ItemsBy(front, runId), if last.0 == runId then [last.1] else []);
    }
  }

  lemma {:induction false} ItemsByTag(owner: Id, items: seq<Item>, runId: Id)
    ensures ItemsBy(Tag(owner, items), runId) == if owner == runId then items else []
    decreases items
  {
    if items != [] {
      var front := items[..|items| - 1];
      ItemsByTag(owner, front, runId);
      assert Tag(owner, items)[..|items| - 1] == Tag(owner, front);
      assert items == front + [items[|items| - 1]];
    }
  }

  lemma ItemsBySnoc(before: seq<(Id, Item)>, last: Id, delta: seq<Item>, runId: Id)
    ensures ItemsBy(before + Tag(last, delta), runId) == ItemsBy(before, runId) + if last == runId then delta else []
  {
    ItemsByConcat(before, Tag(last, delta), runId);
    ItemsByTag(last, delta, runId);
  }

  lemma LastIsNew(ids: seq<Id>)
    requires ids != [] && NoRepeats(ids)
    ensures var front, last := ids[..|ids| - 1], ids[|ids| - 1];
            last !in front && NoRepeats(front) && forall id :: id in ids <==> id in front || id == last
  {
    FrontAndLast(ids);
  }

  lemma {:induction false} ItemsByContributor(live: map<Id, LiveRun>, ids: seq<Id>, runId: Id)
    requires NoRepeats(ids) && forall id :: id in ids ==> id in live
    ensures ItemsBy(Contributions(live, ids), runId) == if runId in ids then live[runId].exec.delta else []
  {
    if ids != [] {
      LastIsNew(ids);
      ContributionsSnoc(live, ids);
      hide Contributions, ItemsBy, NoRepeats;
      var front, last := ids[..|ids| - 1], ids[|ids| - 1];
      var delta := live[last].exec.delta;
      ItemsByContributor(live, front, runId);
      ItemsBySnoc(Contributions(live, front), last, delta, runId);
      assert [] + delta == delta && forall items: seq<Item> :: items + [] == items;
    }
  }

  /** The items a run has in a session's committed history. */
  function ContributedTo(sys: System, sessionId: Id, runId: Id): seq<Item> {
    ItemsBy(Tagged(HistoryForSession(sys.store, sessionId)), runId)
  }

  /**
   * In any session, forks included, a run has its whole delta once, or nothing; in its own session it has
   * the delta exactly when its own finish won. A run ended by an abort has nothing anywhere.
   */
  lemma DeltaIsCommittedIffWon(events: seq<Event>, sessionId: Id, runId: Id)
    ensures var sys := After(INITIAL, events);
            runId in sys.live ==>
              var run := sys.live[runId];
              && (runId in sys.won ==> ContributedTo(sys, run.sessionId, runId) == run.exec.delta != [])
              && (runId !in sys.won ==> ContributedTo(sys, sessionId, runId) == [])
              && (ContributedTo(sys, sessionId, runId) == [] || ContributedTo(sys, sessionId, runId) == run.exec.delta)
              && (runId in sys.aborted ==> runId !in sys.won)
  {
    ReachableIsOk(events);
    var sys := After(INITIAL, events);
    hide After;
    if runId in sys.live {
      LiveRunIsOk(sys, runId);
      WonRunFacts(sys, runId);
      ContributionIs(sys, sessionId, runId);
      ContributionIs(sys, sys.live[runId].sessionId, runId);
      hide SystemOk, ContributedTo;
    }
  }

  lemma ContributionIs(sys: System, sessionId: Id, runId: Id)
    requires SystemOk(sys) && runId in sys.live
    ensures ContributedTo(sys, sessionId, runId) == if runId in LineageOf(sys, sessionId) then sys.live[runId].exec.delta else []
    ensures runId in LineageOf(sys, sessionId) ==> runId in sys.won
  {
    assert HistoryOk(sys, sessionId);
    hide S.Invariant, RunsOk, HistoryForSession, ItemsBy, Tagged, Contributions, NoRepeats;
    ItemsByContributor(sys.live, LineageOf(sys, sessionId), runId);
  }

  lemma WonRunFacts(sys: System, runId: Id)
    requires SystemOk(sys) && runId in sys.live
    ensures runId in sys.won ==>
              && runId in LineageOf(sys, sys.live[runId].sessionId) && sys.live[runId].exec.delta != []
              && sys.live[runId].result.Some? && LocalOk(sys.live[runId]) && runId !in sys.aborted
  {
    LiveRunIsOk(sys, runId);
    assert RunOk(sys, runId);
    hide S.Invariant, HistoriesOk, RunsOk, HistoryForSession, Running, G.Read, O.Decided, WellFormed, DistinctIds, G.NoTerminal;
  }

  // ---------- Replayable histories ----------

  function Untagged(tagged: seq<(Id, Item)>): (r: seq<Item>)
    ensures |r| == |tagged| && forall i :: 0 <= i < |r| ==> r[i] == tagged[i].1
  {
    seq(|tagged|, i requires 0 <= i < |tagged| => tagged[i].1)
  }

  predicate OpensWithPrompt(run: LiveRun) {
    run.exec.delta != [] && run.exec.delta[0].UserMessage?
  }

  lemma {:induction false} ContributionsWellFormed(live: map<Id, LiveRun>, ids: seq<Id>)
    requires forall id :: id in ids ==> id in live && OpensWithPrompt(live[id])
    ensures WellFormed(Untagged(Contributions(live, ids))) <==> forall id :: id in ids ==> WellFormed(live[id].exec.delta)
  {
    if ids != [] {
      var front, last := ids[..|ids| - 1], ids[|ids| - 1];
      FrontAndLast(ids);
      ContributionsWellFormed(live, front);
      ContributionsSnoc(live, ids);
      assert OpensWithPrompt(live[last]);
      hide Contributions, Replay;
      var before, delta := Contributions(live, front), live[last].exec.delta;
      assert Untagged(before + Tag(last, delta)) == Untagged(before) + delta;
      RunBehindHistory(Untagged(before), delta);
    }
  }

  lemma FrontAndLast(ids: seq<Id>)
    requires ids != []
    ensures forall id :: id in ids <==> id in ids[..|ids| - 1] || id == ids[|ids| - 1]
  {
    var front, last := ids[..|ids| - 1], ids[|ids| - 1];
    assert ids == front + [last];
    forall id ensures id in ids <==> id in front || id == last {
      InConcat(front, [last], id);
    }
  }

  lemma ContributionsSnoc(live: map<Id, LiveRun>, ids: seq<Id>)
    requires ids != [] && forall id :: id in ids ==> id in live
    ensures Contributions(live, ids)
         == Contributions(live, ids[..|ids| - 1]) + Tag(ids[|ids| - 1], live[ids[|ids| - 1]].exec.delta)
  {
  }

  /** No call the run left pending shares its id with one it answered; the log alone tells. */
  predicate LeftHealable(run: LiveRun) {
    Healable(L.Observed(run.exec))
  }

  /**
   * A committed history, forks included, is well formed exactly when each run in it left off healable: then
   * each assistant turn is followed at once by one result per call, in order, wherever the runs stopped.
   */
  lemma CommittedHistoriesAreWellFormed(events: seq<Event>, sessionId: Id)
    ensures var sys := After(INITIAL, events);
            WellFormed(Committed(sys, sessionId))
            <==> forall id :: id in LineageOf(sys, sessionId) ==> id in sys.live && LeftHealable(sys.live[id])
  {
    ReachableIsOk(events);
    hide LeftHealable;
    HistoryIsWellFormed(After(INITIAL, events), sessionId);
  }

  lemma HistoryIsWellFormed(sys: System, sessionId: Id)
    requires SystemOk(sys)
    ensures WellFormed(Committed(sys, sessionId))
       <==> forall id :: id in LineageOf(sys, sessionId) ==> id in sys.live && LeftHealable(sys.live[id])
  {
    hide S.Invariant, RunsOk, HistoryForSession, Contributions, Replay, LocalOk, NoRepeats, LeftHealable, OpensWithPrompt;
    var ids := LineageOf(sys, sessionId);
    assert HistoryOk(sys, sessionId);
    WinnersOnly(sys, sessionId);
    forall id | id in ids
      ensures OpensWithPrompt(sys.live[id]) && (WellFormed(sys.live[id].exec.delta) <==> LeftHealable(sys.live[id]))
    {
      WonRunFacts(sys, id);
      ClosedDelta(sys.live[id]);
    }
    ContributionsWellFormed(sys.live, ids);
    assert Untagged(Tagged(HistoryForSession(sys.store, sessionId))) == Committed(sys, sessionId);
  }

  lemma ClosedDelta(run: LiveRun)
    requires LocalOk(run) && run.result.Some?
    ensures OpensWithPrompt(run) && run.exec.delta == Healed(L.Observed(run.exec))
    ensures WellFormed(run.exec.delta) <==> LeftHealable(run)
  {
    hide Running, Replay, Healed, O.Decided, G.Read, G.NoTerminal, G.Disciplined, L.Observed, NoneAnswered;
    HealedIsWellFormedIff(L.Observed(run.exec));
  }

  /** At the finalization itself: the delta becomes well formed exactly when no pending id was answered. */
  lemma FinalizationHealsIff(events: seq<Event>, runId: Id, now: int, fails: bool, readFails: bool)
    ensures var sys := After(INITIAL, events);
            var later := Next(sys, Finalize(runId, now, fails, readFails));
            Finishable(sys, runId) ==>
              && runId in later.live && later.live[runId].exec.delta == Healed(sys.live[runId].exec.delta)
              && (WellFormed(later.live[runId].exec.delta) <==> Healable(sys.live[runId].exec.delta))
  {
    ReachableIsOk(events);
    hide After, SystemOk, StepFinalize, Healed, WellFormed, Healable;
    if Finishable(After(INITIAL, events), runId) {
      FinalizedDelta(After(INITIAL, events), runId, now, fails, readFails);
    }
  }

  lemma FinalizedDelta(sys: System, runId: Id, now: int, fails: bool, readFails: bool)
    requires SystemOk(sys) && Finishable(sys, runId)
    ensures var later, delta := StepFinalize(sys, runId, now, fails, readFails), sys.live[runId].exec.delta;
            && runId in later.live && later.live[runId].exec.delta == Healed(delta)
            && (WellFormed(Healed(delta)) <==> Healable(delta))
  {
    hide SystemOk, RunOk, FinishRun, FinishResult, TerminalOutcome, GetRun, Replay, Healed, L.Consistent, G.Judged, O.OnCourse,
      TerminalEvent, HistoryForSession;
    LiveRunIsOk(sys, runId);
    RunIsLocallyOk(sys, runId);
    var e := sys.live[runId].exec;
    HealedDelta(e);
    HealedIsWellFormedIff(e.delta);
    forall result: RunResult ensures A.Emit(Heal(e), TerminalEvent(result)).delta == Heal(e).delta {
      TerminalIsSilent(Heal(e), result);
    }
  }

  lemma TerminalIsSilent(e: A.Execution, result: RunResult)
    ensures A.Emit(e, TerminalEvent(result)).delta == e.delta
  {
    L.EmitSilent(e, TerminalEvent(result));
  }

  predicate WinnersCallDistinctly(sys: System) {
    forall id :: id in sys.won && id in sys.live ==> DistinctIds(CallsIn(sys.live[id].exec.delta))
  }

  /** With distinct call ids within each run every committed history is well formed. */
  lemma DistinctIdsKeepHistoriesWellFormed(events: seq<Event>, sessionId: Id)
    requires WinnersCallDistinctly(After(INITIAL, events))
    ensures WellFormed(Committed(After(INITIAL, events), sessionId))
  {
    ReachableIsOk(events);
    DistinctIdsKeepHistory(After(INITIAL, events), sessionId);
  }

  lemma DistinctIdsKeepHistory(sys: System, sessionId: Id)
    requires SystemOk(sys) && WinnersCallDistinctly(sys)
    ensures WellFormed(Committed(sys, sessionId))
  {
    hide S.Invariant, RunsOk, HistoryForSession, Replay, LocalOk, LeftHealable, DistinctIds, CallsIn;
    assert HistoryOk(sys, sessionId);
    WinnersOnly(sys, sessionId);
    forall id | id in LineageOf(sys, sessionId) ensures LeftHealable(sys.live[id]) {
      WonRunFacts(sys, id);
      DistinctIsHealable(sys.live[id]);
    }
    HistoryIsWellFormed(sys, sessionId);
  }

  lemma DistinctIsHealable(run: LiveRun)
    requires LocalOk(run) && run.result.Some? && DistinctIds(CallsIn(run.exec.delta))
    ensures LeftHealable(run)
  {
    hide Running, Replay, Healed, O.Decided, G.Read, G.NoTerminal, G.Disciplined, L.Observed, DistinctIds, CallsIn;
    HealedCalls(L.Observed(run.exec));
    DistinctIdsHeal(L.Observed(run.exec));
    HealedIsWellFormedIff(L.Observed(run.exec));
  }

  // ---------- Logs and outcomes ----------

  /**
   * Every finished run's log opens with RunStart and closes with the one terminal event in it; it is in
   * the grammar exactly when the providers were disciplined. A won run stored exactly what its inputs and
   * its log without the terminal event say: that it was cancelled, that its turn failed, what the log
   * decides, or else an execution failure.
   */
  lemma FinishedLogs(events: seq<Event>, runId: Id)
    ensures var sys := After(INITIAL, events);
            runId in sys.live && sys.live[runId].result.Some? ==>
              var run := sys.live[runId];
              && run.exec.log != [] && run.exec.log[0] == RunStart
              && Closed(run.exec, run.result.value) && ByInputs(run)
              && (runId in sys.won ==>
                    && runId in sys.store.runs && sys.store.runs[runId].ending.Some?
                    && StoredFromInputs(run, sys.store.runs[runId].ending.value.outcome))
  {
    ReachableIsOk(events);
    StepsKeepByInputs(INITIAL, events);
    var sys := After(INITIAL, events);
    hide After, SystemOk, StoredFromInputs, Closed, ByInputs;
    if runId in sys.live && sys.live[runId].result.Some? {
      FinishedRun(sys, runId);
      FinalizedRunStores(sys.live[runId]);
    }
  }

  lemma FinishedRun(sys: System, runId: Id)
    requires SystemOk(sys) && runId in sys.live && sys.live[runId].result.Some?
    ensures var run := sys.live[runId];
            && run.exec.log != [] && run.exec.log[0] == RunStart
            && Closed(run.exec, run.result.value) && run.exec.pc.Done?
            && (runId in sys.won ==>
                  && runId in sys.store.runs && sys.store.runs[runId].ending.Some?
                  && sys.store.runs[runId].ending.value.outcome == TerminalOutcome(run.exec.pc.result))
  {
    hide SystemOk, HistoryForSession, Running, O.Decided, G.Read, G.NoTerminal, WellFormed, DistinctIds, CallsIn, Items, Replay,
      Healed, TerminalEvent;
    LiveRunIsOk(sys, runId);
  }
}
