/** What every transaction keeps, over any sequence of transactions, clocks and backend failures. */
module StoreLaws {
  import opened Wrappers
  import opened Sequences
  import opened Conversation
  import opened RunEvents
  import opened StoreModel

  // ---------- The invariant ----------

  predicate SessionsOk(s: StoreState) {
    forall id :: id in s.sessions ==> s.sessions[id].createdAt <= s.sessions[id].updatedAt
  }

  /** A run ends no earlier than it starts, and its session is updated no earlier than the run ends. */
  predicate RunsOk(s: StoreState) {
    forall id :: id in s.runs ==>
      && s.runs[id].sessionId in s.sessions
      && (s.runs[id].ending.Some? ==>
            s.runs[id].startedAt <= s.runs[id].ending.value.endedAt <= s.sessions[s.runs[id].sessionId].updatedAt)
  }

  ghost predicate OneActive(s: StoreState) {
    forall session, a, b :: IsActive(s.runs, session, a) && IsActive(s.runs, session, b) ==> a == b
  }

  /** Only ended runs have committed items. */
  predicate RowsOk(s: StoreState) {
    forall row :: row in s.history ==>
      row.sessionId in s.sessions && row.runId in s.runs && s.runs[row.runId].ending.Some?
  }

  /** The positions of every session are 0, 1, 2, ... in the order of insertion. */
  ghost predicate PositionsOk(s: StoreState) {
    forall id: Id :: Dense(RowsOf(s.history, id), 0)
  }

  ghost predicate Invariant(s: StoreState) {
    SessionsOk(s) && RunsOk(s) && OneActive(s) && RowsOk(s) && PositionsOk(s)
  }

  const EMPTY := StoreState(map[], map[], [])

  lemma EmptyIsInvariant()
    ensures Invariant(EMPTY)
  {
  }

  lemma HistoryIsRows(s: StoreState, sessionId: Id)
    requires PositionsOk(s)
    ensures HistoryForSession(s, sessionId) == RowsOf(s.history, sessionId)
    ensures MaxPosition(RowsOf(s.history, sessionId)) + 1 == |RowsOf(s.history, sessionId)|
  {
    DenseIsOrdered(RowsOf(s.history, sessionId), 0);
    DenseMax(RowsOf(s.history, sessionId), 0);
  }

  // ---------- What may change ----------

  /** Runs and sessions stay; ended runs and start data never change; histories only grow. */
  ghost predicate Evolves(s: StoreState, later: StoreState) {
    && (forall id :: id in s.sessions ==>
          && id in later.sessions
          && later.sessions[id].createdAt == s.sessions[id].createdAt
          && later.sessions[id].updatedAt >= s.sessions[id].updatedAt
          && HistoryForSession(s, id) <= HistoryForSession(later, id))
    && (forall id :: id in s.runs ==>
          && id in later.runs
          && later.runs[id].(ending := None) == s.runs[id].(ending := None)
          && (s.runs[id].ending.Some? ==> later.runs[id] == s.runs[id]))
  }

  lemma EvolvesTransitively(a: StoreState, b: StoreState, c: StoreState)
    requires Evolves(a, b) && Evolves(b, c)
    ensures Evolves(a, c)
  {
    hide HistoryForSession;
  }

  // ---------- Appending rows ----------

  predicate Owned(rows: seq<HistoryRow>, sessionId: Id) {
    forall i :: 0 <= i < |rows| ==> rows[i].sessionId == sessionId
  }

  lemma AppendedRows(s: StoreState, rows: seq<HistoryRow>, owner: Id, id: Id)
    requires PositionsOk(s) && Owned(rows, owner) && Dense(rows, |RowsOf(s.history, owner)|)
    ensures RowsOf(s.history + rows, id) == RowsOf(s.history, id) + if owner == id then rows else []
    ensures Dense(RowsOf(s.history + rows, id), 0)
  {
    RowsConcat(s.history, rows, id);
    RowsOfOne(rows, owner, id);
    hide RowsOf;
    var old_ := RowsOf(s.history, id);
    assert Dense(old_, 0);
    assert old_ + [] == old_;
  }

  lemma FreeKeys(s: StoreState, rows: seq<HistoryRow>, owner: Id)
    requires PositionsOk(s) && Owned(rows, owner) && Dense(rows, |RowsOf(s.history, owner)|)
    ensures !KeysTaken(s.history, rows)
  {
    RowsAreThere(s.history, owner);
    hide RowsOf;
    var mine := RowsOf(s.history, owner);
    assert Dense(mine, 0);
    forall i, j | 0 <= i < |s.history| && 0 <= j < |rows| && s.history[i].sessionId == rows[j].sessionId
      ensures !SameKey(s.history[i], rows[j])
    {
      assert s.history[i] in mine;
      var k :| 0 <= k < |mine| && mine[k] == s.history[i];
    }
  }

  /** The history of every session after rows were appended for one of them. */
  lemma AppendedHistory(s: StoreState, later: StoreState, rows: seq<HistoryRow>, owner: Id)
    requires PositionsOk(s) && Owned(rows, owner) && Dense(rows, |RowsOf(s.history, owner)|)
    requires later.history == s.history + rows
    ensures PositionsOk(later)
    ensures forall id: Id ::
              HistoryForSession(later, id) == HistoryForSession(s, id) + if owner == id then rows else []
  {
    hide Dense, RowsOf, HistoryForSession, MaxPosition;
    forall id: Id
      ensures Dense(RowsOf(later.history, id), 0)
    {
      AppendedRows(s, rows, owner, id);
    }
    forall id: Id
      ensures HistoryForSession(later, id) == HistoryForSession(s, id) + if owner == id then rows else []
    {
      AppendedRows(s, rows, owner, id);
      HistoryIsRows(s, id);
      HistoryIsRows(later, id);
    }
  }

  // ---------- Ending a run ----------

  /** The run is ended now, or when it started if the clock has gone back since; nothing else of it changes. */
  predicate EndedAs(before: RunRecord, after: RunRecord, outcome: RunOutcome, now: int) {
    && after.sessionId == before.sessionId && after.prompt == before.prompt && after.startedAt == before.startedAt
    && after.ending.Some? && after.ending.value.outcome == outcome
    && (now >= before.startedAt ==> after.ending.value.endedAt == now)
    && (now < before.startedAt ==> after.ending.value.endedAt == before.startedAt)
  }

  /** The session is updated at the ending, unless it was updated later already. */
  predicate TouchedBy(before: SessionRecord, after: SessionRecord, ending: Ending) {
    && after.createdAt == before.createdAt
    && (ending.endedAt >= before.updatedAt ==> after.updatedAt == ending.endedAt)
    && (ending.endedAt < before.updatedAt ==> after.updatedAt == before.updatedAt)
  }

  /** One active run of the session is ended, and the session touched; all other records stay. */
  predicate OneRunEnded(s: StoreState, later: StoreState, sessionId: Id, runId: Id, outcome: RunOutcome, now: int) {
    && IsActive(s.runs, sessionId, runId) && runId in later.runs && EndedAs(s.runs[runId], later.runs[runId], outcome, now)
    && later.runs == s.runs[runId := later.runs[runId]]
    && sessionId in s.sessions && sessionId in later.sessions
    && TouchedBy(s.sessions[sessionId], later.sessions[sessionId], later.runs[runId].ending.value)
    && later.sessions == s.sessions[sessionId := later.sessions[sessionId]]
  }

  lemma EndingIsOne(s: StoreState, sessionId: Id, runId: Id, outcome: RunOutcome, now: int, rows: seq<HistoryRow>)
    requires RunsOk(s) && IsActive(s.runs, sessionId, runId)
    ensures OneRunEnded(s, WithEnding(s, runId, TerminalRecord(s.runs[runId], outcome, now), rows), sessionId, runId, outcome, now)
  {
  }

  /** Ending an active run, with rows or without, keeps everything but that run and its session. */
  lemma WithEndingKeeps(s: StoreState, runId: Id, outcome: RunOutcome, now: int, rows: seq<HistoryRow>)
    requires Invariant(s) && runId in s.runs && s.runs[runId].ending.None?
    requires var owner := s.runs[runId].sessionId;
             Owned(rows, owner) && Dense(rows, |RowsOf(s.history, owner)|) && forall row :: row in rows ==> row.runId == runId
    ensures var record := TerminalRecord(s.runs[runId], outcome, now);
            var later := WithEnding(s, runId, record, rows);
            Invariant(later) && Evolves(s, later)
    ensures var later := WithEnding(s, runId, TerminalRecord(s.runs[runId], outcome, now), rows);
            forall id: Id ::
              HistoryForSession(later, id) == HistoryForSession(s, id) + if s.runs[runId].sessionId == id then rows else []
  {
    hide Dense, RowsOf, HistoryForSession;
    var record := TerminalRecord(s.runs[runId], outcome, now);
    var owner, later := record.sessionId, WithEnding(s, runId, record, rows);
    AppendedHistory(s, later, rows, owner);
    EndedRunsOk(s, runId, outcome, now, rows);
    EndedRowsOk(s, runId, record, rows);
    EndedOneActive(s, runId, record, rows);
    assert Evolves(s, later) by {
      hide Invariant;
      forall id | id in s.sessions ensures HistoryForSession(s, id) <= HistoryForSession(later, id) {
        PrefixOfSum(HistoryForSession(s, id), if owner == id then rows else []);
      }
    }
  }

  lemma PrefixOfSum<T>(a: seq<T>, b: seq<T>)
    ensures a <= a + b
  {
  }

  lemma EndedRunsOk(s: StoreState, runId: Id, outcome: RunOutcome, now: int, rows: seq<HistoryRow>)
    requires RunsOk(s) && SessionsOk(s) && runId in s.runs && s.runs[runId].ending.None?
    ensures var later := WithEnding(s, runId, TerminalRecord(s.runs[runId], outcome, now), rows);
            RunsOk(later) && SessionsOk(later)
  {
    var record := TerminalRecord(s.runs[runId], outcome, now);
    EndedTables(s, runId, record, rows);
    TablesOk(s, WithEnding(s, runId, record, rows), runId, record);
  }

  lemma TablesOk(s: StoreState, later: StoreState, runId: Id, record: RunRecord)
    requires RunsOk(s) && SessionsOk(s) && record.sessionId in s.sessions
    requires record.ending.Some? && record.startedAt <= record.ending.value.endedAt
    requires later.runs == s.runs[runId := record]
    requires later.sessions == s.sessions[record.sessionId :=
               Touched(s.sessions[record.sessionId], record.ending.value.endedAt)]
    ensures RunsOk(later) && SessionsOk(later)
  {
    forall id | id in s.sessions
      ensures id in later.sessions && later.sessions[id].updatedAt >= s.sessions[id].updatedAt
    {
    }
  }

  lemma EndedTables(s: StoreState, runId: Id, record: RunRecord, rows: seq<HistoryRow>)
    requires record.ending.Some? && record.sessionId in s.sessions
    ensures var later := WithEnding(s, runId, record, rows);
            && later.runs == s.runs[runId := record]
            && later.sessions == s.sessions[record.sessionId :=
                 Touched(s.sessions[record.sessionId], record.ending.value.endedAt)]
  {
  }

  lemma EndedRowsOk(s: StoreState, runId: Id, record: RunRecord, rows: seq<HistoryRow>)
    requires RowsOk(s) && runId in s.runs && record.ending.Some? && record.sessionId in s.sessions
    requires Owned(rows, record.sessionId) && forall row :: row in rows ==> row.runId == runId
    ensures RowsOk(WithEnding(s, runId, record, rows))
  {
    forall row | row in s.history + rows ensures row in s.history || (row in rows && row.sessionId == record.sessionId) {
      InConcat(s.history, rows, row);
    }
  }

  lemma EndedOneActive(s: StoreState, runId: Id, record: RunRecord, rows: seq<HistoryRow>)
    requires OneActive(s) && runId in s.runs && record.ending.Some? && record.sessionId in s.sessions
    ensures OneActive(WithEnding(s, runId, record, rows))
    ensures forall session, id :: IsActive(WithEnding(s, runId, record, rows).runs, session, id) ==>
              IsActive(s.runs, session, id) && id != runId
  {
    var later := WithEnding(s, runId, record, rows);
    forall session, id | IsActive(later.runs, session, id) ensures IsActive(s.runs, session, id) && id != runId {
    }
  }

  // ---------- The five transactions ----------

  /** A new session beside the old ones. */
  lemma AddedSession(s: StoreState, later: StoreState, target: Id, now: int)
    requires Invariant(s) && target !in s.sessions
    requires later.sessions == s.sessions[target := SessionRecord(now, now)] && later.runs == s.runs
    requires forall id: Id :: id in s.sessions ==> HistoryForSession(s, id) <= HistoryForSession(later, id)
    ensures SessionsOk(later) && RunsOk(later) && OneActive(later) && Evolves(s, later)
  {
    hide HistoryForSession, PositionsOk, RowsOk;
  }

  lemma CreateSessionKeeps(s: StoreState, sessionId: Id, now: int, fails: bool)
    requires Invariant(s)
    ensures var (later, r) := CreateSession(s, sessionId, now, fails);
            && Invariant(later) && Evolves(s, later) && later.history == s.history
            && (r.Ok? <==> !fails && sessionId !in s.sessions)
            && (r.Ok? ==> later.runs == s.runs && later.sessions == s.sessions[sessionId := SessionRecord(now, now)]
                          && r.value == SessionRecord(now, now))
            && (r == Err(SessionAlreadyExists) <==> !fails && sessionId in s.sessions)
            && (r.Err? ==> later == s)
  {
    hide Dense, RowsOf, HistoryForSession, Evolves, SessionsOk, RunsOk, OneActive;
    var later := CreateSession(s, sessionId, now, fails).0;
    SameHistory(s, later);
    if !fails && sessionId !in s.sessions {
      AddedSession(s, later, sessionId, now);
    } else {
      EvolvesToItself(s);
    }
  }

  lemma SameHistory(s: StoreState, later: StoreState)
    requires later.history == s.history
    ensures forall id: Id :: HistoryForSession(later, id) == HistoryForSession(s, id)
  {
  }

  lemma StartRunKeeps(s: StoreState, sessionId: Id, runId: Id, prompt: string, now: int, fails: bool)
    requires Invariant(s)
    ensures var (later, r) := StartRun(s, sessionId, runId, prompt, now, fails);
            && Invariant(later) && Evolves(s, later) && later.history == s.history
            && (r.Ok? <==> && !fails && sessionId in s.sessions && runId !in s.runs
                           && forall id :: !IsActive(s.runs, sessionId, id))
            && (r.Ok? ==> r.value == HistoryForSession(s, sessionId) == HistoryForSession(later, sessionId))
            && (r.Ok? ==> later == s.(runs := s.runs[runId := RunRecord(sessionId, prompt, now, None)]))
            && (r == Err(PersistenceFailure) <==> fails)
            && (r == Err(SessionNotFound) <==> !fails && sessionId !in s.sessions)
            && (r == Err(ActiveRunExists) <==> !fails && sessionId in s.sessions && exists id :: IsActive(s.runs, sessionId, id))
            && (r.Err? ==> later == s)
  {
    hide Dense, RowsOf, HistoryForSession, Invariant, Evolves;
    var (later, r) := StartRun(s, sessionId, runId, prompt, now, fails);
    SameHistory(s, later);
    if r.Ok? {
      AddedRun(s, later, runId, RunRecord(sessionId, prompt, now, None));
    } else {
      EvolvesToItself(s);
    }
  }

  lemma EvolvesToItself(s: StoreState)
    ensures Evolves(s, s)
  {
  }

  lemma AddedRun(s: StoreState, later: StoreState, runId: Id, record: RunRecord)
    requires Invariant(s) && runId !in s.runs && record.sessionId in s.sessions && record.ending.None?
    requires forall id :: !IsActive(s.runs, record.sessionId, id)
    requires later == s.(runs := s.runs[runId := record])
    ensures Invariant(later) && Evolves(s, later)
  {
    hide Dense, RowsOf, HistoryForSession;
    SameHistory(s, later);
    assert forall session, id :: IsActive(later.runs, session, id) ==>
             IsActive(s.runs, session, id) || (session == record.sessionId && id == runId);
  }

  lemma FinishRunKeeps(s: StoreState, sessionId: Id, runId: Id, outcome: RunOutcome, delta: seq<Item>, now: int, fails: bool)
    requires Invariant(s)
    ensures var (later, r) := FinishRun(s, sessionId, runId, outcome, delta, now, fails);
            && Invariant(later) && Evolves(s, later)
            && (r.Ok? <==> !fails && IsActive(s.runs, sessionId, runId))
            && (r == Err(RunAlreadyEnded) <==>
                  !fails && runId in s.runs && s.runs[runId].sessionId == sessionId && s.runs[runId].ending.Some?)
            && (r == Err(PersistenceFailure) <==> fails)
            && (r == Err(RunNotFound) <==> !fails && (runId in s.runs ==> s.runs[runId].sessionId != sessionId))
            && (r.Err? ==> later == s)
    ensures var (later, r) := FinishRun(s, sessionId, runId, outcome, delta, now, fails);
            r.Ok? ==>
              && OneRunEnded(s, later, sessionId, runId, outcome, now)
              && r.value == TerminalRecord(s.runs[runId], outcome, now) == later.runs[runId]
              && forall id: Id :: HistoryForSession(later, id)
                   == HistoryForSession(s, id)
                      + if id == sessionId
                        then NewRows(sessionId, runId, delta, |HistoryForSession(s, id)|, r.value.ending.value.endedAt)
                        else []
  {
    hide Dense, RowsOf, HistoryForSession, MaxPosition, KeysTaken, NewRows;
    if !fails && IsActive(s.runs, sessionId, runId) {
      var record := TerminalRecord(s.runs[runId], outcome, now);
      HistoryIsRows(s, sessionId);
      var rows := NewRows(sessionId, runId, delta, |RowsOf(s.history, sessionId)|, record.ending.value.endedAt);
      assert Owned(rows, sessionId);
      NewRowsAreDense(sessionId, runId, delta, |RowsOf(s.history, sessionId)|, record.ending.value.endedAt);
      FreeKeys(s, rows, sessionId);
      WithEndingKeeps(s, runId, outcome, now, rows);
      EndingIsOne(s, sessionId, runId, outcome, now, rows);
    }
  }

  lemma NewRowsAreDense(sessionId: Id, runId: Id, items: seq<Item>, first: int, createdAt: int)
    ensures Dense(NewRows(sessionId, runId, items, first, createdAt), first)
  {
  }

  lemma AbortKeeps(s: StoreState, sessionId: Id, now: int, fails: bool)
    requires Invariant(s)
    ensures var (later, r) := AbortActiveRun(s, sessionId, now, fails);
            && Invariant(later) && Evolves(s, later)
            && (r.Ok? <==> !fails && sessionId in s.sessions)
            && (r.Err? || r.value.None? ==> later == s)
            && (r == Err(SessionNotFound) <==> !fails && sessionId !in s.sessions)
            && (r.Ok? ==> (r.value.Some? <==> exists id :: IsActive(s.runs, sessionId, id)))
            && (r.Ok? && r.value.Some? ==>
                  exists id :: OneRunEnded(s, later, sessionId, id, Aborted, now) && r.value.value == later.runs[id]
                    && later.runs[id] == TerminalRecord(s.runs[id], Aborted, now))
            && forall id: Id :: HistoryForSession(later, id) == HistoryForSession(s, id)
  {
    hide Dense, RowsOf, HistoryForSession;
    var active := ActiveRunOf(s, sessionId);
    if !fails && sessionId in s.sessions && active.Some? {
      NothingIsDense(|RowsOf(s.history, sessionId)|);
      WithEndingKeeps(s, active.value, Aborted, now, []);
      EndingIsOne(s, sessionId, active.value, Aborted, now, []);
      assert s.history + [] == s.history;
      SameHistory(s, AbortActiveRun(s, sessionId, now, fails).0);
    }
  }

  lemma NothingIsDense(first: int)
    ensures Dense([], first)
  {
  }

  lemma ForkKeeps(s: StoreState, source: Id, target: Id, now: int, fails: bool)
    requires Invariant(s)
    ensures var (later, r) := ForkSession(s, source, target, now, fails);
            && Invariant(later) && Evolves(s, later) && later.runs == s.runs
            && (r.Ok? <==> !fails && source in s.sessions && target !in s.sessions)
            && (r == Err(SessionNotFound) <==> !fails && source !in s.sessions)
            && (r == Err(SessionAlreadyExists) <==> !fails && source in s.sessions && target in s.sessions)
            && (r.Err? ==> later == s)
    ensures var (later, r) := ForkSession(s, source, target, now, fails);
            r.Ok? ==>
              && HistoryForSession(later, target) == CopiedRows(HistoryForSession(s, source), target)
              && later.sessions == s.sessions[target := SessionRecord(now, now)] && r.value == SessionRecord(now, now)
              && forall id: Id :: id != target ==> HistoryForSession(later, id) == HistoryForSession(s, id)
  {
    hide Dense, RowsOf, HistoryForSession, KeysTaken, CopiedRows, Invariant, Evolves;
    if !fails && source in s.sessions && target !in s.sessions {
      ForkedHistory(s, source, target);
      ForkedState(s, source, target, now);
    } else {
      EvolvesToItself(s);
    }
  }

  /** The rows of a fork are new keys of the new session. */
  lemma ForkedHistory(s: StoreState, source: Id, target: Id)
    requires Invariant(s) && target !in s.sessions
    ensures var rows := CopiedRows(HistoryForSession(s, source), target);
            && !KeysTaken(s.history, rows)
            && Owned(rows, target) && Dense(rows, |RowsOf(s.history, target)|)
            && HistoryForSession(s, target) == []
  {
    hide Dense, RowsOf, HistoryForSession, KeysTaken, CopiedRows;
    HistoryIsRows(s, source);
    HistoryIsRows(s, target);
    NoRowsYet(s, target);
    CopiedRowsAreDense(RowsOf(s.history, source), target);
    FreeKeys(s, CopiedRows(HistoryForSession(s, source), target), target);
  }

  lemma ForkedState(s: StoreState, source: Id, target: Id, now: int)
    requires Invariant(s) && source in s.sessions && target !in s.sessions
    ensures var rows := CopiedRows(HistoryForSession(s, source), target);
            var later := StoreState(s.sessions[target := SessionRecord(now, now)], s.runs, s.history + rows);
            && Invariant(later) && Evolves(s, later)
            && HistoryForSession(later, target) == rows
            && forall id: Id :: id != target ==> HistoryForSession(later, id) == HistoryForSession(s, id)
  {
    var rows := CopiedRows(HistoryForSession(s, source), target);
    var later := StoreState(s.sessions[target := SessionRecord(now, now)], s.runs, s.history + rows);
    ForkedHistory(s, source, target);
    ForkedRowsOk(s, source, target, now);
    hide Dense, RowsOf, HistoryForSession, KeysTaken, CopiedRows, Evolves;
    AppendedHistory(s, later, rows, target);
    assert [] + rows == rows;
    forall id: Id | id != target ensures HistoryForSession(later, id) == HistoryForSession(s, id) {
      assert HistoryForSession(s, id) + [] == HistoryForSession(s, id);
    }
    AddedSession(s, later, target, now);
  }

  lemma NoRowsYet(s: StoreState, sessionId: Id)
    requires RowsOk(s) && sessionId !in s.sessions
    ensures RowsOf(s.history, sessionId) == []
  {
    NoRows(s.history, sessionId);
  }

  lemma {:induction false} NoRows(history: seq<HistoryRow>, sessionId: Id)
    requires forall row :: row in history ==> row.sessionId != sessionId
    ensures RowsOf(history, sessionId) == []
    decreases history
  {
    if history != [] {
      NoRows(history[1..], sessionId);
    }
  }

  lemma CopiedRowsAreDense(rows: seq<HistoryRow>, target: Id)
    requires Dense(rows, 0)
    ensures Dense(CopiedRows(rows, target), 0)
  {
  }

  lemma ForkedRowsOk(s: StoreState, source: Id, target: Id, now: int)
    requires Invariant(s) && source in s.sessions && target !in s.sessions
    ensures var rows := CopiedRows(HistoryForSession(s, source), target);
            RowsOk(StoreState(s.sessions[target := SessionRecord(now, now)], s.runs, s.history + rows))
  {
    HistoryIsRows(s, source);
    RowsAreThere(s.history, source);
    var mine := HistoryForSession(s, source);
    var rows := CopiedRows(mine, target);
    hide RowsOf, HistoryForSession, Dense;
    forall row | row in s.history + rows
      ensures row.runId in s.runs && s.runs[row.runId].ending.Some?
      ensures row.sessionId == target || row.sessionId in s.sessions
    {
      InConcat(s.history, rows, row);
      if row in rows {
        var i :| 0 <= i < |rows| && rows[i] == row;
        assert mine[i] in mine;
      }
    }
  }

  // ---------- Any sequence of transactions ----------

  datatype Operation =
    | Create(sessionId: Id, now: int, fails: bool)
    | Begin(sessionId: Id, runId: Id, prompt: string, now: int, fails: bool)
    | Finish(sessionId: Id, runId: Id, outcome: RunOutcome, delta: seq<Item>, now: int, fails: bool)
    | Abort(sessionId: Id, now: int, fails: bool)
    | Fork(source: Id, sessionId: Id, now: int, fails: bool)

  ghost function Apply(s: StoreState, op: Operation): StoreState {
    match op
    case Create(id, now, fails) => CreateSession(s, id, now, fails).0
    case Begin(id, runId, prompt, now, fails) => StartRun(s, id, runId, prompt, now, fails).0
    case Finish(id, runId, outcome, delta, now, fails) => FinishRun(s, id, runId, outcome, delta, now, fails).0
    case Abort(id, now, fails) => AbortActiveRun(s, id, now, fails).0
    case Fork(source, target, now, fails) => ForkSession(s, source, target, now, fails).0
  }

  ghost function ApplyAll(s: StoreState, ops: seq<Operation>): StoreState
    decreases ops
  {
    if ops == [] then s else ApplyAll(Apply(s, ops[0]), ops[1..])
  }

  /** Only the session an operation names may get new history. */
  lemma OperationKeeps(s: StoreState, op: Operation)
    requires Invariant(s)
    ensures Invariant(Apply(s, op)) && Evolves(s, Apply(s, op))
    ensures forall id: Id :: id != op.sessionId ==> HistoryForSession(Apply(s, op), id) == HistoryForSession(s, id)
  {
    hide Invariant, Evolves, HistoryForSession, CreateSession, StartRun, FinishRun, AbortActiveRun, ForkSession, NewRows;
    match op
    case Create(id, now, fails) =>
      CreateSessionKeeps(s, id, now, fails);
      SameHistory(s, Apply(s, op));
    case Begin(id, runId, prompt, now, fails) =>
      StartRunKeeps(s, id, runId, prompt, now, fails);
      SameHistory(s, Apply(s, op));
    case Finish(id, runId, outcome, delta, now, fails) =>
      FinishRunKeeps(s, id, runId, outcome, delta, now, fails);
      assert forall other: Id :: HistoryForSession(s, other) + [] == HistoryForSession(s, other);
    case Abort(id, now, fails) => AbortKeeps(s, id, now, fails);
    case Fork(source, target, now, fails) => ForkKeeps(s, source, target, now, fails);
  }

  lemma {:induction false} OperationsKeep(s: StoreState, ops: seq<Operation>)
    requires Invariant(s)
    ensures Invariant(ApplyAll(s, ops)) && Evolves(s, ApplyAll(s, ops))
    decreases ops
  {
    hide Invariant, Evolves, Apply;
    EvolvesToItself(s);
    if ops != [] {
      var next := Apply(s, ops[0]);
      OperationKeeps(s, ops[0]);
      OperationsKeep(next, ops[1..]);
      EvolvesTransitively(s, next, ApplyAll(next, ops[1..]));
    }
  }

  lemma {:induction false} ApplyAllConcat(s: StoreState, a: seq<Operation>, b: seq<Operation>)
    ensures ApplyAll(s, a + b) == ApplyAll(ApplyAll(s, a), b)
    decreases a
  {
    hide Apply;
    if a == [] {
      assert [] + b == b;
    } else {
      ConcatTail(a, b);
      ApplyAllConcat(Apply(s, a[0]), a[1..], b);
    }
  }

  /**
   * From an empty database, after any operations and any further ones, whatever the clock and the
   * backend do: one active run per session at most, terminal records for good, run ids used once,
   * positions 0..n-1, histories only extended, items of ended runs only, times in order.
   */
  lemma StoreIsAlwaysConsistent(ops: seq<Operation>, more: seq<Operation>, id: Id)
    ensures var s, later := ApplyAll(EMPTY, ops), ApplyAll(EMPTY, ops + more);
            && Invariant(s) && Invariant(later) && Evolves(s, later)
            && forall k {:trigger HistoryForSession(s, id)[k]} :: 0 <= k < |HistoryForSession(s, id)| ==>
                 HistoryForSession(s, id)[k].position == k
  {
    EmptyIsInvariant();
    OperationsKeep(EMPTY, ops);
    var s := ApplyAll(EMPTY, ops);
    OperationsKeep(s, more);
    ApplyAllConcat(EMPTY, ops, more);
    HistoryIsRows(s, id);
    hide ApplyAll, HistoryForSession, RowsOf;
    assert Dense(RowsOf(s.history, id), 0);
  }

  /** After a fork, operations that name other sessions leave a session's history as it was. */
  lemma {:induction false} SessionsAreIndependent(s: StoreState, ops: seq<Operation>, id: Id)
    requires Invariant(s) && forall op :: op in ops ==> op.sessionId != id
    ensures HistoryForSession(ApplyAll(s, ops), id) == HistoryForSession(s, id)
    decreases ops
  {
    hide Invariant, Evolves, Apply, HistoryForSession;
    if ops != [] {
      assert ops[0] in ops && forall op :: op in ops[1..] ==> op in ops;
      OperationKeeps(s, ops[0]);
      SessionsAreIndependent(Apply(s, ops[0]), ops[1..], id);
    }
  }
}
