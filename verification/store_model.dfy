/** The store's transactions as steps on its three tables. */
module StoreModel {
  import opened Wrappers
  import opened Sequences
  import opened Conversation
  import opened RunEvents

  type Id = string

  datatype SessionRecord = SessionRecord(createdAt: int, updatedAt: int)

  datatype Ending = Ending(endedAt: int, outcome: RunOutcome)

  /** Active until it has an ending. */
  datatype RunRecord = RunRecord(sessionId: Id, prompt: string, startedAt: int, ending: Option<Ending>)

  datatype HistoryRow = HistoryRow(sessionId: Id, runId: Id, position: int, item: Item, createdAt: int)

  datatype StoreState = StoreState(sessions: map<Id, SessionRecord>, runs: map<Id, RunRecord>, history: seq<HistoryRow>)

  datatype StoreError =
    | SessionNotFound | SessionAlreadyExists | ActiveRunExists | RunAlreadyExists | RunNotFound | RunAlreadyEnded
    | PersistenceFailure

  // ---------- Queries ----------

  function RowsOf(history: seq<HistoryRow>, sessionId: Id): seq<HistoryRow> {
    if history == [] then []
    else (if history[0].sessionId == sessionId then [history[0]] else []) + RowsOf(history[1..], sessionId)
  }

  function InsertByPosition(row: HistoryRow, sorted: seq<HistoryRow>): seq<HistoryRow> {
    if sorted == [] || row.position <= sorted[0].position then [row] + sorted
    else [sorted[0]] + InsertByPosition(row, sorted[1..])
  }

  function OrderByPosition(rows: seq<HistoryRow>): seq<HistoryRow> {
    if rows == [] then [] else InsertByPosition(rows[0], OrderByPosition(rows[1..]))
  }

  /** The largest position, or -1. */
  function MaxPosition(rows: seq<HistoryRow>): int {
    if rows == [] then -1
    else
      var rest := MaxPosition(rows[1..]);
      if rows[0].position > rest then rows[0].position else rest
  }

  /** All committed history of a session, in order. */
  function HistoryForSession(s: StoreState, sessionId: Id): seq<HistoryRow> {
    OrderByPosition(RowsOf(s.history, sessionId))
  }

  predicate IsActive(runs: map<Id, RunRecord>, sessionId: Id, runId: Id) {
    runId in runs && runs[runId].sessionId == sessionId && runs[runId].ending.None?
  }

  ghost function ActiveRunOf(s: StoreState, sessionId: Id): (r: Option<Id>)
    ensures r.Some? ==> IsActive(s.runs, sessionId, r.value)
    ensures r.None? ==> forall id :: !IsActive(s.runs, sessionId, id)
  {
    if exists id :: IsActive(s.runs, sessionId, id) then
      var id :| IsActive(s.runs, sessionId, id);
      Some(id)
    else None
  }

  // ---------- Writes ----------

  predicate SameKey(a: HistoryRow, b: HistoryRow) {
    a.sessionId == b.sessionId && a.position == b.position
  }

  /** UNIQUE (session_id, position). */
  predicate KeysTaken(history: seq<HistoryRow>, rows: seq<HistoryRow>) {
    exists i, j :: 0 <= i < |history| && 0 <= j < |rows| && SameKey(history[i], rows[j])
  }

  function NewRows(sessionId: Id, runId: Id, items: seq<Item>, first: int, createdAt: int): (r: seq<HistoryRow>)
    ensures |r| == |items|
    ensures forall i :: 0 <= i < |items| ==> r[i] == HistoryRow(sessionId, runId, first + i, items[i], createdAt)
  {
    seq(|items|, i requires 0 <= i < |items| => HistoryRow(sessionId, runId, first + i, items[i], createdAt))
  }

  /** A fork keeps position, run and time of each row. */
  function CopiedRows(rows: seq<HistoryRow>, target: Id): (r: seq<HistoryRow>)
    ensures |r| == |rows|
    ensures forall i :: 0 <= i < |rows| ==> r[i] == rows[i].(sessionId := target)
  {
    seq(|rows|, i requires 0 <= i < |rows| => rows[i].(sessionId := target))
  }

  function Max(a: int, b: int): int {
    if a >= b then a else b
  }

  /** The clock may have gone backwards since the start. */
  function TerminalRecord(run: RunRecord, outcome: RunOutcome, now: int): RunRecord {
    run.(ending := Some(Ending(Max(now, run.startedAt), outcome)))
  }

  function Touched(session: SessionRecord, endedAt: int): SessionRecord {
    session.(updatedAt := Max(session.updatedAt, endedAt))
  }

  // ---------- Transactions: `fails` is a backend failure anywhere inside, which rolls back ----------

  ghost function CreateSession(s: StoreState, sessionId: Id, now: int, fails: bool)
    : (StoreState, Result<SessionRecord, StoreError>)
  {
    var record := SessionRecord(now, now);
    if fails then (s, Err(PersistenceFailure))
    else if sessionId in s.sessions then (s, Err(SessionAlreadyExists))
    else (s.(sessions := s.sessions[sessionId := record]), Ok(record))
  }

  ghost function StartRun(s: StoreState, sessionId: Id, runId: Id, prompt: string, now: int, fails: bool)
    : (StoreState, Result<seq<HistoryRow>, StoreError>)
  {
    if fails then (s, Err(PersistenceFailure))
    else if sessionId !in s.sessions then (s, Err(SessionNotFound))
    else if ActiveRunOf(s, sessionId).Some? then (s, Err(ActiveRunExists))
    else if runId in s.runs then (s, Err(RunAlreadyExists))
    else (s.(runs := s.runs[runId := RunRecord(sessionId, prompt, now, None)]), Ok(HistoryForSession(s, sessionId)))
  }

  function GetRun(s: StoreState, sessionId: Id, runId: Id, fails: bool): Result<RunRecord, StoreError> {
    if fails then Err(PersistenceFailure)
    else if runId in s.runs && s.runs[runId].sessionId == sessionId then Ok(s.runs[runId])
    else Err(RunNotFound)
  }

  /** The state after a run of an existing session is ended with a delta. */
  function WithEnding(s: StoreState, runId: Id, record: RunRecord, rows: seq<HistoryRow>): StoreState
    requires record.ending.Some? && record.sessionId in s.sessions
  {
    var sessionId := record.sessionId;
    StoreState(s.sessions[sessionId := Touched(s.sessions[sessionId], record.ending.value.endedAt)],
               s.runs[runId := record], s.history + rows)
  }

  ghost function FinishRun(s: StoreState, sessionId: Id, runId: Id, outcome: RunOutcome, delta: seq<Item>, now: int,
                           fails: bool): (StoreState, Result<RunRecord, StoreError>)
  {
    var run := GetRun(s, sessionId, runId, fails);
    if run.Err? then (s, Err(run.error))
    else if run.value.ending.Some? then (s, Err(RunAlreadyEnded))
    else
      var record := TerminalRecord(run.value, outcome, now);
      var first := MaxPosition(RowsOf(s.history, sessionId)) + 1;
      var rows := NewRows(sessionId, runId, delta, first, record.ending.value.endedAt);
      if KeysTaken(s.history, rows) then (s, Err(PersistenceFailure))
      else if sessionId !in s.sessions then (s, Err(SessionNotFound))
      else (WithEnding(s, runId, record, rows), Ok(record))
  }

  ghost function AbortActiveRun(s: StoreState, sessionId: Id, now: int, fails: bool)
    : (StoreState, Result<Option<RunRecord>, StoreError>)
  {
    var active := ActiveRunOf(s, sessionId);
    if fails then (s, Err(PersistenceFailure))
    else if sessionId !in s.sessions then (s, Err(SessionNotFound))
    else if active.None? then (s, Ok(None))
    else
      var record := TerminalRecord(s.runs[active.value], Aborted, now);
      (WithEnding(s, active.value, record, []), Ok(Some(record)))
  }

  ghost function ForkSession(s: StoreState, source: Id, target: Id, now: int, fails: bool)
    : (StoreState, Result<SessionRecord, StoreError>)
  {
    var record := SessionRecord(now, now);
    var rows := CopiedRows(HistoryForSession(s, source), target);
    if fails then (s, Err(PersistenceFailure))
    else if source !in s.sessions then (s, Err(SessionNotFound))
    else if target in s.sessions then (s, Err(SessionAlreadyExists))
    else if KeysTaken(s.history, rows) then (s, Err(PersistenceFailure))
    else (StoreState(s.sessions[target := record], s.runs, s.history + rows), Ok(record))
  }

  // ---------- Positions ----------

  predicate Dense(rows: seq<HistoryRow>, first: int) {
    forall i :: 0 <= i < |rows| ==> rows[i].position == first + i
  }

  lemma {:induction false} DenseIsOrdered(rows: seq<HistoryRow>, first: int)
    requires Dense(rows, first)
    ensures OrderByPosition(rows) == rows
    decreases rows
  {
    if rows != [] {
      assert Dense(rows[1..], first + 1);
      DenseIsOrdered(rows[1..], first + 1);
      HeadTail(rows);
      assert rows[1..] != [] ==> rows[1..][0].position == first + 1;
    }
  }

  lemma {:induction false} DenseMax(rows: seq<HistoryRow>, first: nat)
    requires Dense(rows, first)
    ensures MaxPosition(rows) == if rows == [] then -1 else first + |rows| - 1
    decreases rows
  {
    if rows != [] {
      assert Dense(rows[1..], first + 1);
      DenseMax(rows[1..], first + 1);
    }
  }

  lemma {:induction false} RowsConcat(a: seq<HistoryRow>, b: seq<HistoryRow>, sessionId: Id)
    ensures RowsOf(a + b, sessionId) == RowsOf(a, sessionId) + RowsOf(b, sessionId)
    decreases a
  {
    if a == [] {
      assert [] + b == b;
      assert [] + RowsOf(b, sessionId) == RowsOf(b, sessionId);
    } else {
      ConcatTail(a, b);
      RowsConcat(a[1..], b, sessionId);
      Assoc(if a[0].sessionId == sessionId then [a[0]] else [], RowsOf(a[1..], sessionId), RowsOf(b, sessionId));
    }
  }

  lemma {:induction false} RowsOfOne(rows: seq<HistoryRow>, owner: Id, sessionId: Id)
    requires forall i :: 0 <= i < |rows| ==> rows[i].sessionId == owner
    ensures RowsOf(rows, sessionId) == if owner == sessionId then rows else []
    decreases rows
  {
    if rows != [] {
      RowsOfOne(rows[1..], owner, sessionId);
      HeadTail(rows);
    }
  }

  lemma {:induction false} RowsAreThere(history: seq<HistoryRow>, sessionId: Id)
    ensures forall row :: row in RowsOf(history, sessionId) <==> row in history && row.sessionId == sessionId
    decreases history
  {
    if history != [] {
      RowsAreThere(history[1..], sessionId);
      HeadTail(history);
      forall row ensures row in history <==> row == history[0] || row in history[1..] {
        InConcat([history[0]], history[1..], row);
      }
      var here := if history[0].sessionId == sessionId then [history[0]] else [];
      forall row ensures row in RowsOf(history, sessionId) <==> row in here || row in RowsOf(history[1..], sessionId) {
        InConcat(here, RowsOf(history[1..], sessionId), row);
      }
    }
  }
}
