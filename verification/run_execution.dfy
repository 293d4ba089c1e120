/** The owner of one run: its event log, its subscribers, and its finalization against the store. */
module RunExecutions {
  import opened Wrappers
  import opened Conversation
  import opened RunEvents
  import opened StoreModel
  import opened Store
  import StoreLaws
  import A = AgentRun
  import P = ProtocolModel

  /**
   * Where a subscriber's loop is suspended: before its first step, at the yield of event `index`, or
   * waiting for the shared flag with a wakeup pending or not.
   */
  datatype Suspension =
    | Unstarted
    | AtYield(index: nat)
    | Waiting(index: nat, woken: bool)
    | Returned(index: nat)

  class Subscriber {
    var at: Suspension
    /** What the consumer has received. */
    var yielded: seq<AgentEvent>

    constructor ()
      ensures at == Unstarted && yielded == []
    {
      at, yielded := Unstarted, [];
    }
  }

  /** A subscriber has received a prefix of the log; one that blocks without a wakeup has all of an open log. */
  predicate InStep(at: Suspension, yielded: seq<AgentEvent>, events: seq<AgentEvent>, finalized: bool) {
    && yielded <= events
    && match at
       case Unstarted => yielded == []
       case AtYield(index) => |yielded| == index + 1
       case Waiting(index, woken) => |yielded| == index && (!woken ==> yielded == events && !finalized)
       case Returned(index) => finalized && yielded == events && index == |events|
  }

  /** `changed.set()` wakes a waiting subscriber for good, whoever clears the flag afterwards. */
  function Woken(at: Suspension): Suspension {
    if at.Waiting? then Waiting(at.index, true) else at
  }

  predicate Resumable(at: Suspension) {
    !at.Returned? && (at.Waiting? ==> at.woken)
  }

  /** Where the subscriber's loop stands in the log: how many events it is past. */
  function Position(at: Suspension): nat {
    match at
    case Unstarted => 0
    case AtYield(index) => index + 1
    case Waiting(index, _) => index
    case Returned(index) => index
  }

  /** One uninterrupted stretch of the loop, from a position to the next suspension. */
  function NextStop(events: seq<AgentEvent>, finalized: bool, index: nat): (Suspension, seq<AgentEvent>) {
    if index < |events| then (AtYield(index), [events[index]])
    else if finalized then (Returned(index), [])
    else (Waiting(index, false), [])
  }

  lemma WokenIsInStep(at: Suspension, yielded: seq<AgentEvent>, events: seq<AgentEvent>, event: AgentEvent)
    requires InStep(at, yielded, events, false)
    ensures InStep(Woken(at), yielded, events + [event], false) && InStep(Woken(at), yielded, events + [event], true)
  {
  }

  lemma NextStopIsInStep(at: Suspension, yielded: seq<AgentEvent>, events: seq<AgentEvent>, finalized: bool)
    requires InStep(at, yielded, events, finalized)
    ensures Position(at) == |yielded|
    ensures var (next, added) := NextStop(events, finalized, Position(at));
            InStep(next, yielded + added, events, finalized)
  {
    var added := NextStop(events, finalized, |yielded|).1;
    if |yielded| < |events| {
      assert yielded + added == events[..|yielded| + 1];
    } else {
      assert yielded + added == yielded == events[..|yielded|] == events;
    }
  }

  // ---------- One subscriber under any schedule ----------

  /** What one subscriber can see of a run. */
  datatype View = View(events: seq<AgentEvent>, finalized: bool, at: Suspension, yielded: seq<AgentEvent>)

  datatype Action = Publish(event: AgentEvent) | Close(event: AgentEvent) | Run

  function Act(v: View, action: Action): View {
    match action
    case Publish(event) => if v.finalized then v else v.(events := v.events + [event], at := Woken(v.at))
    case Close(event) => if v.finalized then v else View(v.events + [event], true, Woken(v.at), v.yielded)
    case Run =>
      if !Resumable(v.at) then v
      else
        var (at, added) := NextStop(v.events, v.finalized, Position(v.at));
        v.(at := at, yielded := v.yielded + added)
  }

  function ActAll(v: View, actions: seq<Action>): View
    decreases actions
  {
    if actions == [] then v else ActAll(Act(v, actions[0]), actions[1..])
  }

  predicate ViewOk(v: View) {
    InStep(v.at, v.yielded, v.events, v.finalized)
  }

  lemma ActKeepsView(v: View, action: Action)
    requires ViewOk(v)
    ensures ViewOk(Act(v, action))
  {
    hide InStep, NextStop;
    match action
    case Publish(event) => if !v.finalized { WokenIsInStep(v.at, v.yielded, v.events, event); }
    case Close(event) => if !v.finalized { WokenIsInStep(v.at, v.yielded, v.events, event); }
    case Run => NextStopIsInStep(v.at, v.yielded, v.events, v.finalized);
  }

  lemma {:induction false} ActAllKeepsView(v: View, actions: seq<Action>)
    requires ViewOk(v)
    ensures ViewOk(ActAll(v, actions))
    decreases actions
  {
    hide ViewOk, Act;
    if actions != [] {
      ActKeepsView(v, actions[0]);
      ActAllKeepsView(Act(v, actions[0]), actions[1..]);
    }
  }

  /** A closed run: each turn given to the subscriber brings one more event, and the turn after the last returns. */
  lemma {:induction false} ClosedRunDrains(v: View, turns: seq<Action>)
    requires ViewOk(v) && v.finalized
    requires |turns| == |v.events| - |v.yielded| + 1 && forall i :: 0 <= i < |turns| ==> turns[i].Run?
    ensures ActAll(v, turns).yielded == v.events && ActAll(v, turns).at == Returned(|v.events|)
    decreases turns
  {
    NextStopIsInStep(v.at, v.yielded, v.events, v.finalized);
    var next := Act(v, turns[0]);
    if v.at.Returned? {
      assert turns[1..] == [];
    } else if |v.yielded| < |v.events| {
      ClosedRunDrains(next, turns[1..]);
    } else {
      assert turns[1..] == [] && v.yielded + [] == v.yielded;
    }
  }

  /** An open run: each turn brings one more event, and the subscriber that has them all blocks until it is woken. */
  lemma {:induction false} OpenRunBlocks(v: View, turns: seq<Action>)
    requires ViewOk(v) && !v.finalized
    requires |turns| == |v.events| - |v.yielded| + 1 && forall i :: 0 <= i < |turns| ==> turns[i].Run?
    ensures var last := ActAll(v, turns); last.yielded == v.events && last.at.Waiting? && !Resumable(last.at)
    decreases turns
  {
    NextStopIsInStep(v.at, v.yielded, v.events, v.finalized);
    var next := Act(v, turns[0]);
    if |v.yielded| < |v.events| {
      OpenRunBlocks(next, turns[1..]);
    } else {
      assert turns[1..] == [] && v.yielded + [] == v.yielded;
    }
  }

  /**
   * Under any schedule of publishing, closing and turns given to the subscriber: it has received a prefix
   * of the log; blocked without a wakeup it has all of the log of an open run; returned, the whole log.
   */
  lemma NoWakeupIsLost(late: seq<AgentEvent>, actions: seq<Action>)
    ensures var v := ActAll(View(late, false, Unstarted, []), actions);
            && v.yielded <= v.events
            && (!Resumable(v.at) && v.at.Waiting? ==> v.yielded == v.events && !v.finalized)
            && (v.at.Returned? ==> v.yielded == v.events && v.finalized)
            && (v.finalized ==> v.at.Returned? || Resumable(v.at))
  {
    ActAllKeepsView(View(late, false, Unstarted, []), actions);
    hide ActAll;
  }

  class RunExecution {
    const store: SQLiteStore
    const sessionId: Id
    const runId: Id
    const history: RunHistory
    var events: seq<AgentEvent>
    var result: Option<RunResult>
    var changed: bool
    var finalized: bool
    var subscribers: seq<Subscriber>

    /** Distinct subscribers, each in step with the log. */
    ghost predicate AllInStep()
      reads this, subscribers
    {
      && (forall i, j :: 0 <= i < j < |subscribers| ==> subscribers[i] != subscribers[j])
      && forall i :: 0 <= i < |subscribers| ==> InStep(subscribers[i].at, subscribers[i].yielded, events, finalized)
    }

    ghost predicate Valid()
      reads this, history, store, subscribers
    {
      history.Valid() && store.Valid() && (finalized <==> result.Some?) && AllInStep()
    }

    constructor (store: SQLiteStore, sessionId: Id, runId: Id, committed: seq<Item>, prompt: string)
      requires store.Valid()
      ensures Valid() && fresh(history) && this.store == store && this.sessionId == sessionId && this.runId == runId
      ensures events == [RunStart] && result.None? && subscribers == [] && history.committed == committed
      ensures history.delta == [UserMessage(prompt)]
    {
      this.store, this.sessionId, this.runId := store, sessionId, runId;
      var h := new RunHistory.Start(committed, prompt);
      history := h;
      events, result, changed, finalized, subscribers := [], None, false, false, [];
      new;
      ItemsOne(RunStart);
      assert history.delta + [] == history.delta;
      hide StoreLaws.Invariant;
      Emit(RunStart);
    }

    /** Publishes one event, projects its item, and wakes every waiting subscriber. */
    method Emit(event: AgentEvent)
      requires history.Valid() && AllInStep() && !finalized
      modifies this`events, this`changed, history, subscribers
      ensures history.Valid() && AllInStep() && changed && events == old(events) + [event]
      ensures history.delta == old(history.delta) + ItemsOf([event])
      ensures forall i :: 0 <= i < |subscribers| ==>
                && subscribers[i].at == Woken(old(subscribers[i].at))
                && subscribers[i].yielded == old(subscribers[i].yielded)
                && InStep(subscribers[i].at, subscribers[i].yielded, events, true)
    {
      hide InStep, ItemsOf, Woken;
      history.Observe(event);
      events := events + [event];
      changed := true;
      var i := 0;
      while i < |subscribers|
        invariant 0 <= i <= |subscribers|
        invariant forall k :: 0 <= k < i ==> subscribers[k].at == Woken(old(subscribers[k].at))
        invariant forall k :: i <= k < |subscribers| ==> subscribers[k].at == old(subscribers[k].at)
        invariant forall k :: 0 <= k < |subscribers| ==> subscribers[k].yielded == old(subscribers[k].yielded)
        modifies subscribers
      {
        subscribers[i].at := Woken(subscribers[i].at);
        i := i + 1;
      }
      forall k | 0 <= k < |subscribers|
        ensures InStep(subscribers[k].at, subscribers[k].yielded, events, false)
        ensures InStep(subscribers[k].at, subscribers[k].yielded, events, true)
      {
        WokenIsInStep(old(subscribers[k].at), old(subscribers[k].yielded), old(events), event);
      }
    }

    method Subscribe() returns (s: Subscriber)
      requires AllInStep()
      modifies this`subscribers
      ensures AllInStep() && fresh(s) && subscribers == old(subscribers) + [s] && s.at == Unstarted
    {
      s := new Subscriber();
      assert InStep(s.at, s.yielded, events, finalized);
      hide InStep;
      subscribers := subscribers + [s];
    }

    /**
     * Runs one subscriber from its suspension to the next: it yields the next event, or returns from a
     * finalized run, or waits. Only this stretch is uninterrupted; others may clear the flag in between.
     */
    method Resume(k: nat)
      requires AllInStep() && k < |subscribers| && Resumable(subscribers[k].at)
      modifies this`changed, subscribers[k]
      ensures AllInStep()
      ensures var (at, added) := NextStop(events, finalized, Position(old(subscribers[k].at)));
              subscribers[k].at == at && subscribers[k].yielded == old(subscribers[k].yielded) + added
    {
      hide InStep, NextStop;
      var s := subscribers[k];
      assert forall i :: 0 <= i < |subscribers| && i != k ==> subscribers[i] != s;
      NextStopIsInStep(s.at, s.yielded, events, finalized);
      var index := 0;
      if s.at.AtYield? {
        index := s.at.index + 1;
      } else {
        index := if s.at.Waiting? then s.at.index else 0;
        changed := false;
      }
      var at, yielded := NextSuspension(index);
      s.at, s.yielded := at, s.yielded + yielded;
    }

    /** The subscriber's loop up to its next await: what it yields on the way, and where it stops. */
    method NextSuspension(index: nat) returns (at: Suspension, yielded: seq<AgentEvent>)
      modifies this`changed
      ensures (at, yielded) == NextStop(events, finalized, index)
    {
      while true
        decreases changed
      {
        if index < |events| {
          return AtYield(index), [events[index]];
        }
        if finalized {
          return Returned(index), [];
        }
        if !changed {
          return Waiting(index, false), [];
        }
        changed := false;
      }
    }

    /** Derives the outcome, heals the history, and commits or takes over the stored ending. */
    method Finish(task: A.TaskResult, now: int, fails: bool, readFails: bool) returns (r: RunResult)
      requires Valid() && !finalized
      modifies history, store
      ensures history.Valid() && store.Valid() && history.delta == Healed(old(history.delta))
      ensures var (state, finished) :=
                StoreModel.FinishRun(old(store.State()), sessionId, runId, P.TerminalOutcome(task), history.delta, now, fails);
              && store.State() == state
              && r == P.FinishResult(finished, StoreModel.GetRun(state, sessionId, runId, readFails))
    {
      hide Healed, StoreModel.FinishRun, StoreLaws.Invariant;
      history.Heal();
      var finished := store.FinishRun(sessionId, runId, P.TerminalOutcome(task), history.delta, now, fails);
      if finished.Ok? && finished.value.ending.Some? {
        return Outcome(finished.value.ending.value.outcome);
      }
      if finished == Err(RunAlreadyEnded) {
        var stored := store.GetRun(sessionId, runId, readFails);
        if stored.Ok? && stored.value.ending.Some? {
          return Outcome(stored.value.ending.value.outcome);
        }
      }
      return Faulted;
    }

    /** The done callback: the ending is made durable, then the log is closed and the run finalized, in one go. */
    method Finalize(task: A.TaskResult, now: int, fails: bool, readFails: bool)
      requires Valid() && !finalized
      modifies this`events, this`changed, this`result, this`finalized, history, store, subscribers
      ensures Valid() && finalized
      ensures var (state, finished) :=
                StoreModel.FinishRun(old(store.State()), sessionId, runId, P.TerminalOutcome(task), history.delta, now, fails);
              && store.State() == state
              && result == Some(P.FinishResult(finished, StoreModel.GetRun(state, sessionId, runId, readFails)))
      ensures history.delta == Healed(old(history.delta))
      ensures events == old(events) + [P.TerminalEvent(result.value)]
    {
      hide InStep, Healed, StoreModel.FinishRun, StoreLaws.Invariant, P.FinishResult, P.TerminalOutcome, P.TerminalEvent, ItemsOf;
      var r := Finish(task, now, fails, readFails);
      assert ItemsOf([P.TerminalEvent(r)]) == [] by { NoItem(r); }
      ghost var healed := history.delta;
      Emit(P.TerminalEvent(r));
      assert healed + [] == healed;
      result := Some(r);
      finalized := true;
    }
  }

  lemma NoItem(result: RunResult)
    ensures ItemsOf([P.TerminalEvent(result)]) == []
  {
    ItemsOne(P.TerminalEvent(result));
  }
}
