/** The events of one run's live log, and the run-local history they feed. */
module RunEvents {
  import opened Wrappers
  import opened Sequences
  import opened Conversation

  /** What a tool execution carries beside its result turn; other details do not matter here. */
  datatype Details = NoDetails | CompleteDetails(value: string) | FailDetails(reason: string)

  datatype ToolOutcome = ToolOutcome(result: Item, details: Details, terminate: bool)

  datatype FailureCause = AgentFailure(reason: string) | TurnFailure | ExecutionFailure

  datatype RunOutcome = Completed(value: string) | Failed(cause: FailureCause) | Aborted

  /** Faulted: the harness could not make the ending durable. */
  datatype RunResult = Outcome(outcome: RunOutcome) | Faulted

  datatype AgentEvent =
    | RunStart
    | AgentStart
    | TurnStart
    | MessageStart
    | MessageUpdate(update: string)
    | MessageEnd(turn: AssistantTurn)
    | ToolStart(call: Call)
    | ToolEnd(execution: ToolOutcome)
    | TurnEnd(turn: AssistantTurn, executions: seq<ToolOutcome>)
    | AgentEnd
    | FollowUp(message: string)
    | RunEnd(outcome: RunOutcome)
    | RunFault

  /** The replayable conversation item an event carries. */
  function ConversationItemFor(event: AgentEvent): Option<Item> {
    match event
    case MessageEnd(turn) => if turn.status.CompletedTurn? then Some(Assistant(turn)) else None
    case ToolEnd(execution) => Some(execution.result)
    case FollowUp(message) => Some(UserMessage(message))
    case _ => None
  }

  function ItemsOf(events: seq<AgentEvent>): seq<Item> {
    if events == [] then []
    else (match ConversationItemFor(events[0]) case Some(item) => [item] case None => []) + ItemsOf(events[1..])
  }

  lemma {:induction false} ItemsConcat(a: seq<AgentEvent>, b: seq<AgentEvent>)
    ensures ItemsOf(a + b) == ItemsOf(a) + ItemsOf(b)
    decreases a
  {
    hide ConversationItemFor;
    if a == [] {
      assert [] + b == b;
      assert [] + ItemsOf(b) == ItemsOf(b);
    } else {
      ConcatTail(a, b);
      ItemsConcat(a[1..], b);
      Assoc(match ConversationItemFor(a[0]) case Some(item) => [item] case None => [], ItemsOf(a[1..]), ItemsOf(b));
    }
  }

  /** The event puts the item into a history: a completed turn, a tool's result, or a reminder to the model. */
  predicate Contributes(event: AgentEvent, item: Item) {
    || (event.MessageEnd? && event.turn.status == CompletedTurn && item == Assistant(event.turn))
    || (event.ToolEnd? && item == event.execution.result)
    || (event.FollowUp? && item == UserMessage(event.message))
  }

  /** A history holds exactly what the log contributes; failed and aborted turns leave nothing in it. */
  lemma {:induction false} HistoryHoldsContributions(log: seq<AgentEvent>, item: Item)
    ensures item in ItemsOf(log) <==> exists event :: event in log && Contributes(event, item)
    decreases log
  {
    if log != [] {
      var here := match ConversationItemFor(log[0]) case Some(i) => [i] case None => [];
      HistoryHoldsContributions(log[1..], item);
      InConcat(here, ItemsOf(log[1..]), item);
      assert forall event :: event in log <==> event == log[0] || event in log[1..];
      assert item in here <==> Contributes(log[0], item);
    }
  }

  lemma ItemsOne(event: AgentEvent)
    ensures ItemsOf([event]) == match ConversationItemFor(event) case Some(item) => [item] case None => []
  {
    assert [event][1..] == [];
    assert ItemsOf([]) == [];
  }

  /** The history of one run: what the provider sees, and what the run will commit. */
  class RunHistory {
    var working: seq<Item>
    var delta: seq<Item>
    ghost const committed: seq<Item>

    ghost predicate Valid()
      reads this
    {
      working == committed + delta && delta != []
    }

    constructor Start(committed: seq<Item>, prompt: string)
      ensures Valid() && this.committed == committed
      ensures delta == [UserMessage(prompt)]
    {
      this.committed := committed;
      delta := [UserMessage(prompt)];
      working := committed + [UserMessage(prompt)];
    }

    method Observe(event: AgentEvent)
      requires Valid()
      modifies this
      ensures Valid() && delta == old(delta) + ItemsOf([event])
    {
      ItemsOne(event);
      var item := ConversationItemFor(event);
      if item.None? {
        assert delta + [] == delta;
        return;
      }
      Assoc(committed, delta, [item.value]);
      delta := delta + [item.value];
      working := working + [item.value];
    }

    /** Appends error results for tool calls that were interrupted. */
    method Heal()
      requires Valid()
      modifies this
      ensures Valid() && delta == Healed(old(delta))
      ensures UnansweredToolCalls(delta) == []
    {
      HealedIsIdempotent(delta);
      var results := ErrorResults(UnansweredToolCalls(delta));
      Assoc(committed, delta, results);
      delta := delta + results;
      working := working + results;
    }
  }
}
