/** The store object: transactions that write tables step by step and roll back on any error. */
module Store {
  import opened Wrappers
  import opened Sequences
  import opened Conversation
  import opened RunEvents
  import opened StoreModel
  import opened StoreLaws

  class SQLiteStore {
    var sessions: map<Id, SessionRecord>
    var runs: map<Id, RunRecord>
    var history: seq<HistoryRow>

    function State(): StoreState
      reads this
    {
      StoreState(sessions, runs, history)
    }

    ghost predicate Valid()
      reads this
    {
      Invariant(State())
    }

    constructor ()
      ensures Valid() && State() == EMPTY
    {
      sessions, runs, history := map[], map[], [];
      new;
      EmptyIsInvariant();
    }

    // ---------- Statements ----------

    method Rollback(before: StoreState)
      modifies this
      ensures State() == before
    {
      sessions, runs, history := before.sessions, before.runs, before.history;
    }

    method ActiveRunForSession(sessionId: Id) returns (r: Option<Id>)
      requires OneActive(State())
      ensures r == ActiveRunOf(State(), sessionId)
    {
      if exists id :: id in runs && IsActive(runs, sessionId, id) {
        var id :| id in runs && IsActive(runs, sessionId, id);
        return Some(id);
      }
      assert forall id :: IsActive(runs, sessionId, id) ==> id in runs;
      return None;
    }

    /** Inserts rows one by one; a taken key stops the batch, with the rows before it already written. */
    method InsertRows(rows: seq<HistoryRow>, owner: Id, first: int) returns (ok: bool)
      requires Owned(rows, owner) && Dense(rows, first)
      modifies this`history
      ensures ok <==> !KeysTaken(old(history), rows)
      ensures ok ==> history == old(history) + rows
    {
      var i := 0;
      assert rows[..0] == [] && history + [] == history;
      while i < |rows|
        invariant 0 <= i <= |rows| && history == old(history) + rows[..i]
        invariant !KeysTaken(old(history), rows[..i])
      {
        assert rows[..i + 1] == rows[..i] + [rows[i]];
        if exists row :: row in history && SameKey(row, rows[i]) {
          ClashIsOld(old(history), rows, i, owner, first);
          return false;
        }
        NoClash(old(history), rows, i);
        Assoc(old(history), rows[..i], [rows[i]]);
        history := history + [rows[i]];
        i := i + 1;
      }
      assert rows[..|rows|] == rows;
      return true;
    }

    // ---------- Transactions ----------

    method CreateSession(sessionId: Id, now: int, fails: bool) returns (r: Result<SessionRecord, StoreError>)
      requires Valid()
      modifies this
      ensures Valid() && (State(), r) == StoreModel.CreateSession(old(State()), sessionId, now, fails)
    {
      ValidAfter(State(), Create(sessionId, now, fails));
      hide Invariant, Apply;
      if fails {
        return Err(PersistenceFailure);
      }
      if sessionId in sessions {
        return Err(SessionAlreadyExists);
      }
      var record := SessionRecord(now, now);
      sessions := sessions[sessionId := record];
      return Ok(record);
    }

    method StartRun(sessionId: Id, runId: Id, prompt: string, now: int, fails: bool)
      returns (r: Result<seq<HistoryRow>, StoreError>)
      requires Valid()
      modifies this
      ensures Valid() && (State(), r) == StoreModel.StartRun(old(State()), sessionId, runId, prompt, now, fails)
    {
      ValidAfter(State(), Begin(sessionId, runId, prompt, now, fails));
      var before := State();
      var active := ActiveRunForSession(sessionId);
      hide Invariant, HistoryForSession;
      if sessionId !in sessions {
        return Err(if fails then PersistenceFailure else SessionNotFound);
      }
      if active.Some? {
        return Err(if fails then PersistenceFailure else ActiveRunExists);
      }
      var committed := HistoryForSession(State(), sessionId);
      if runId in runs {
        return Err(if fails then PersistenceFailure else RunAlreadyExists);
      }
      runs := runs[runId := RunRecord(sessionId, prompt, now, None)];
      if fails {
        Rollback(before);
        return Err(PersistenceFailure);
      }
      return Ok(committed);
    }

    method GetRun(sessionId: Id, runId: Id, fails: bool) returns (r: Result<RunRecord, StoreError>)
      ensures r == StoreModel.GetRun(State(), sessionId, runId, fails)
    {
      if fails {
        return Err(PersistenceFailure);
      }
      if runId !in runs || runs[runId].sessionId != sessionId {
        return Err(RunNotFound);
      }
      return Ok(runs[runId]);
    }

    /** The statements of a finish: the run, then its items, then the session. They may stop halfway. */
    method WriteFinish(sessionId: Id, runId: Id, outcome: RunOutcome, delta: seq<Item>, now: int)
      returns (r: Result<RunRecord, StoreError>)
      requires Valid()
      modifies this
      ensures r == StoreModel.FinishRun(old(State()), sessionId, runId, outcome, delta, now, false).1
      ensures r.Ok? ==> State() == StoreModel.FinishRun(old(State()), sessionId, runId, outcome, delta, now, false).0
    {
      hide Invariant, RowsOf, MaxPosition, KeysTaken;
      var run := GetRun(sessionId, runId, false);
      if run.Err? {
        return Err(run.error);
      }
      if run.value.ending.Some? {
        return Err(RunAlreadyEnded);
      }
      var record := TerminalRecord(run.value, outcome, now);
      runs := runs[runId := record];
      var first := MaxPosition(RowsOf(history, sessionId)) + 1;
      var rows := NewRows(sessionId, runId, delta, first, record.ending.value.endedAt);
      NewRowsAreDense(sessionId, runId, delta, first, record.ending.value.endedAt);
      hide NewRows, Dense;
      var inserted := InsertRows(rows, sessionId, first);
      if !inserted {
        return Err(PersistenceFailure);
      }
      if sessionId !in sessions {
        return Err(SessionNotFound);
      }
      sessions := sessions[sessionId := Touched(sessions[sessionId], record.ending.value.endedAt)];
      return Ok(record);
    }

    method FinishRun(sessionId: Id, runId: Id, outcome: RunOutcome, delta: seq<Item>, now: int, fails: bool)
      returns (r: Result<RunRecord, StoreError>)
      requires Valid()
      modifies this
      ensures Valid()
      ensures (State(), r) == StoreModel.FinishRun(old(State()), sessionId, runId, outcome, delta, now, fails)
    {
      ValidAfter(State(), Finish(sessionId, runId, outcome, delta, now, fails));
      FailedFinish(State(), sessionId, runId, outcome, delta, now);
      hide Invariant, StoreModel.FinishRun;
      var before := State();
      r := WriteFinish(sessionId, runId, outcome, delta, now);
      if fails {
        r := Err(PersistenceFailure);
      }
      if r.Err? {
        Rollback(before);
      }
    }

    method AbortActiveRun(sessionId: Id, now: int, fails: bool) returns (r: Result<Option<RunRecord>, StoreError>)
      requires Valid()
      modifies this
      ensures Valid() && (State(), r) == StoreModel.AbortActiveRun(old(State()), sessionId, now, fails)
    {
      ValidAfter(State(), Abort(sessionId, now, fails));
      var before := State();
      var active := ActiveRunForSession(sessionId);
      hide Invariant;
      if sessionId !in sessions {
        return Err(if fails then PersistenceFailure else SessionNotFound);
      }
      if active.None? {
        return if fails then Err(PersistenceFailure) else Ok(None);
      }
      var record := TerminalRecord(runs[active.value], Aborted, now);
      assert history + [] == history;
      runs := runs[active.value := record];
      sessions := sessions[sessionId := Touched(sessions[sessionId], record.ending.value.endedAt)];
      if fails {
        Rollback(before);
        return Err(PersistenceFailure);
      }
      return Ok(Some(record));
    }

    /** The statements of a fork, which may stop halfway. */
    method WriteFork(source: Id, target: Id, now: int) returns (r: Result<SessionRecord, StoreError>)
      requires Valid()
      modifies this
      ensures r == StoreModel.ForkSession(old(State()), source, target, now, false).1
      ensures r.Ok? ==> State() == StoreModel.ForkSession(old(State()), source, target, now, false).0
    {
      if source in sessions && target !in sessions {
        ForkedHistory(State(), source, target);
      }
      hide Invariant, HistoryForSession, RowsOf, KeysTaken, Dense, CopiedRows;
      if source !in sessions {
        return Err(SessionNotFound);
      }
      if target in sessions {
        return Err(SessionAlreadyExists);
      }
      var record := SessionRecord(now, now);
      var rows := CopiedRows(HistoryForSession(State(), source), target);
      sessions := sessions[target := record];
      var copied := InsertRows(rows, target, |RowsOf(history, target)|);
      if !copied {
        return Err(PersistenceFailure);
      }
      return Ok(record);
    }

    method ForkSession(source: Id, target: Id, now: int, fails: bool) returns (r: Result<SessionRecord, StoreError>)
      requires Valid()
      modifies this
      ensures Valid() && (State(), r) == StoreModel.ForkSession(old(State()), source, target, now, fails)
    {
      ValidAfter(State(), Fork(source, target, now, fails));
      FailedFork(State(), source, target, now);
      hide Invariant, StoreModel.ForkSession;
      var before := State();
      r := WriteFork(source, target, now);
      if fails {
        r := Err(PersistenceFailure);
      }
      if r.Err? {
        Rollback(before);
      }
    }
  }

  lemma ValidAfter(s: StoreState, op: Operation)
    requires Invariant(s)
    ensures Invariant(Apply(s, op))
  {
    OperationKeeps(s, op);
  }

  /** A failed finish changes nothing, whatever made it fail. */
  lemma FailedFinish(s: StoreState, sessionId: Id, runId: Id, outcome: RunOutcome, delta: seq<Item>, now: int)
    ensures StoreModel.FinishRun(s, sessionId, runId, outcome, delta, now, true) == (s, Err(PersistenceFailure))
    ensures StoreModel.FinishRun(s, sessionId, runId, outcome, delta, now, false).1.Err? ==>
              StoreModel.FinishRun(s, sessionId, runId, outcome, delta, now, false).0 == s
  {
    hide RowsOf, MaxPosition, KeysTaken, NewRows;
  }

  lemma FailedFork(s: StoreState, source: Id, target: Id, now: int)
    ensures StoreModel.ForkSession(s, source, target, now, true) == (s, Err(PersistenceFailure))
    ensures StoreModel.ForkSession(s, source, target, now, false).1.Err? ==>
              StoreModel.ForkSession(s, source, target, now, false).0 == s
  {
    hide HistoryForSession, KeysTaken, CopiedRows;
  }

  lemma NoClash(before: seq<HistoryRow>, rows: seq<HistoryRow>, i: nat)
    requires i < |rows| && !KeysTaken(before, rows[..i])
    requires forall row :: row in before + rows[..i] ==> !SameKey(row, rows[i])
    ensures !KeysTaken(before, rows[..i + 1])
  {
    var longer := rows[..i + 1];
    forall k, j | 0 <= k < |before| && 0 <= j < |longer|
      ensures !SameKey(before[k], longer[j])
    {
      if j == i {
        assert before[k] in before + rows[..i];
      } else {
        assert longer[j] == rows[..i][j];
      }
    }
  }

  lemma ClashIsOld(before: seq<HistoryRow>, rows: seq<HistoryRow>, i: nat, owner: Id, first: int)
    requires i < |rows| && Owned(rows, owner) && Dense(rows, first)
    requires exists row :: row in before + rows[..i] && SameKey(row, rows[i])
    ensures KeysTaken(before, rows)
  {
    var row :| row in before + rows[..i] && SameKey(row, rows[i]);
    InConcat(before, rows[..i], row);
    assert row in before;
    var k :| 0 <= k < |before| && before[k] == row;
  }
}
