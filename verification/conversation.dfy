/** Conversation items, the events of a run, and what makes a history replayable. */
module Conversation {
  import opened Wrappers
  import opened Sequences

  datatype Block = TextBlock(text: string) | ReasoningBlock(text: string) | ToolCall(callId: string, name: string)

  datatype TurnStatus = CompletedTurn | AbortedTurn | ErrorTurn

  datatype AssistantTurn = AssistantTurn(blocks: seq<Block>, status: TurnStatus)

  datatype Item =
    | UserMessage(content: string)
    | Assistant(turn: AssistantTurn)
    | ToolResult(callId: string, toolName: string, text: string, isError: bool)

  datatype Call = Call(id: string, name: string)

  /** The tool calls of a finalized turn, in block order. */
  function CollectToolCalls(blocks: seq<Block>): seq<Call> {
    if blocks == [] then []
    else (if blocks[0].ToolCall? then [Call(blocks[0].callId, blocks[0].name)] else []) + CollectToolCalls(blocks[1..])
  }

  /** Every tool-call block gives one call, in its place; other blocks give none. */
  lemma {:induction false} CollectedCalls(blocks: seq<Block>, block: Block)
    ensures CollectToolCalls([]) == []
    ensures CollectToolCalls(blocks + [block])
         == if block.ToolCall? then CollectToolCalls(blocks) + [Call(block.callId, block.name)] else CollectToolCalls(blocks)
    decreases blocks
  {
    if blocks == [] {
      assert [] + [block] == [block] && [block][1..] == [];
    } else {
      ConcatTail(blocks, [block]);
      CollectedCalls(blocks[1..], block);
      var here := if blocks[0].ToolCall? then [Call(blocks[0].callId, blocks[0].name)] else [];
      if block.ToolCall? {
        Assoc(here, CollectToolCalls(blocks[1..]), [Call(block.callId, block.name)]);
      }
    }
  }

  // ---------- Replayable histories ----------

  /** The calls still to be answered after one more item; None when the item is out of place. */
  function StillPending(pending: seq<Call>, item: Item): Option<seq<Call>> {
    match item
    case UserMessage(_) => if pending == [] then Some([]) else None
    case Assistant(turn) => if pending == [] then Some(CollectToolCalls(turn.blocks)) else None
    case ToolResult(id, name, _, _) =>
      if pending != [] && pending[0] == Call(id, name) then Some(pending[1..]) else None
  }

  /** The calls left unanswered when `items` are replayed, or None when they cannot be. */
  function Replay(pending: seq<Call>, items: seq<Item>): Option<seq<Call>>
    decreases items
  {
    if items == [] then Some(pending)
    else
      match StillPending(pending, items[0])
      case None => None
      case Some(more) => Replay(more, items[1..])
  }

  /** Each assistant turn is immediately followed by one result per tool call, in call order. */
  predicate WellFormed(items: seq<Item>) {
    Replay([], items) == Some([])
  }

  lemma {:induction false} ReplayConcat(pending: seq<Call>, a: seq<Item>, b: seq<Item>)
    ensures Replay(pending, a + b)
         == match Replay(pending, a) case None => None case Some(more) => Replay(more, b)
    decreases a
  {
    hide StillPending;
    if a == [] {
      assert [] + b == b;
    } else {
      ConcatTail(a, b);
      match StillPending(pending, a[0])
      case None =>
      case Some(more) => ReplayConcat(more, a[1..], b);
    }
  }

  lemma ReplayOne(pending: seq<Call>, items: seq<Item>, item: Item)
    ensures Replay(pending, items + [item])
         == match Replay(pending, items) case None => None case Some(more) => StillPending(more, item)
  {
    ReplayConcat(pending, items, [item]);
    match Replay(pending, items)
    case None =>
    case Some(more) =>
      assert [item][1..] == [];
  }

  // ---------- Calls and answers ----------

  /** All tool calls in a history, in order. */
  function CallsIn(items: seq<Item>): seq<Call> {
    if items == [] then []
    else (if items[0].Assistant? then CollectToolCalls(items[0].turn.blocks) else []) + CallsIn(items[1..])
  }

  function AnsweredIds(items: seq<Item>): set<string> {
    set item | item in items && item.ToolResult? :: item.callId
  }

  function Unanswered(calls: seq<Call>, answered: set<string>): seq<Call> {
    if calls == [] then []
    else (if calls[0].id in answered then [] else [calls[0]]) + Unanswered(calls[1..], answered)
  }

  function UnansweredToolCalls(items: seq<Item>): seq<Call> {
    Unanswered(CallsIn(items), AnsweredIds(items))
  }

  predicate DistinctIds(calls: seq<Call>) {
    forall i, j :: 0 <= i < j < |calls| ==> calls[i].id != calls[j].id
  }

  const INTERRUPTED := "Tool execution did not complete."

  function ErrorResults(calls: seq<Call>): (r: seq<Item>)
    ensures |r| == |calls|
    ensures forall i :: 0 <= i < |calls| ==> r[i] == ToolResult(calls[i].id, calls[i].name, INTERRUPTED, true)
  {
    if calls == [] then []
    else [ToolResult(calls[0].id, calls[0].name, INTERRUPTED, true)] + ErrorResults(calls[1..])
  }

  /** The provisional delta with an error result for every call that was not answered. */
  function Healed(delta: seq<Item>): seq<Item> {
    delta + ErrorResults(UnansweredToolCalls(delta))
  }

  // ---------- What healing achieves ----------

  lemma {:induction false} UnansweredConcat(a: seq<Call>, b: seq<Call>, answered: set<string>)
    ensures Unanswered(a + b, answered) == Unanswered(a, answered) + Unanswered(b, answered)
    decreases a
  {
    if a == [] {
      assert [] + b == b;
      assert [] + Unanswered(b, answered) == Unanswered(b, answered);
    } else {
      ConcatTail(a, b);
      UnansweredConcat(a[1..], b, answered);
      Assoc(if a[0].id in answered then [] else [a[0]], Unanswered(a[1..], answered), Unanswered(b, answered));
    }
  }

  lemma {:induction false} UnansweredAll(calls: seq<Call>, answered: set<string>)
    ensures (forall c :: c in calls ==> c.id !in answered) <==> Unanswered(calls, answered) == calls
    ensures |Unanswered(calls, answered)| <= |calls|
    ensures (forall c :: c in calls ==> c.id !in answered) <==> |Unanswered(calls, answered)| == |calls|
  {
    if calls != [] {
      UnansweredAll(calls[1..], answered);
      HeadTail(calls);
      assert forall c :: c in calls <==> c == calls[0] || c in calls[1..];
    }
  }

  lemma {:induction false} UnansweredNone(calls: seq<Call>, answered: set<string>)
    ensures (forall c :: c in calls ==> c.id in answered) ==> Unanswered(calls, answered) == []
  {
    if calls != [] {
      UnansweredNone(calls[1..], answered);
    }
  }

  lemma {:induction false} CallsConcat(a: seq<Item>, b: seq<Item>)
    ensures CallsIn(a + b) == CallsIn(a) + CallsIn(b)
    decreases a
  {
    if a == [] {
      assert [] + b == b;
      assert [] + CallsIn(b) == CallsIn(b);
    } else {
      ConcatTail(a, b);
      CallsConcat(a[1..], b);
      Assoc(if a[0].Assistant? then CollectToolCalls(a[0].turn.blocks) else [], CallsIn(a[1..]), CallsIn(b));
    }
  }

  lemma {:induction false} ReplayErrorResults(pending: seq<Call>, calls: seq<Call>)
    ensures Replay(pending, ErrorResults(calls)).Some? ==>
              |calls| <= |pending| && Replay(pending, ErrorResults(calls)) == Some(pending[|calls|..])
    ensures calls == pending ==> Replay(pending, ErrorResults(calls)) == Some([])
    decreases calls
  {
    if calls == [] {
      assert pending[0..] == pending;
    } else {
      Cons(ToolResult(calls[0].id, calls[0].name, INTERRUPTED, true), ErrorResults(calls[1..]));
      if pending != [] && pending[0] == calls[0] {
        ReplayErrorResults(pending[1..], calls[1..]);
        if |calls| <= |pending| {
          DropDrop(pending, 1, |calls| - 1);
        }
      }
    }
  }

  lemma {:induction false} ErrorResultsHaveNoCalls(calls: seq<Call>)
    ensures CallsIn(ErrorResults(calls)) == []
  {
    if calls != [] {
      ErrorResultsHaveNoCalls(calls[1..]);
      Cons(ToolResult(calls[0].id, calls[0].name, INTERRUPTED, true), ErrorResults(calls[1..]));
    }
  }

  lemma ErrorResultIds(calls: seq<Call>)
    ensures forall id :: id in AnsweredIds(ErrorResults(calls)) <==> exists i :: 0 <= i < |calls| && calls[i].id == id
  {
    var r := ErrorResults(calls);
    forall i | 0 <= i < |calls| ensures calls[i].id in AnsweredIds(r) {
      assert r[i] in r;
    }
  }

  lemma AnsweredConcat(a: seq<Item>, b: seq<Item>)
    ensures AnsweredIds(a + b) == AnsweredIds(a) + AnsweredIds(b)
  {
    var u := AnsweredIds(a) + AnsweredIds(b);
    forall id ensures id in AnsweredIds(a + b) <==> id in u {
      if id in AnsweredIds(a + b) {
        var item :| item in a + b && item.ToolResult? && item.callId == id;
        InConcat(a, b, item);
      }
      if id in u {
        var item :| (item in a || item in b) && item.ToolResult? && item.callId == id;
        InConcat(a, b, item);
      }
    }
  }

  function IdsOf(calls: seq<Call>): set<string> {
    set c | c in calls :: c.id
  }

  lemma AnsweredCons(item: Item, items: seq<Item>)
    ensures AnsweredIds([item] + items) == AnsweredIds(items) + if item.ToolResult? then {item.callId} else {}
  {
    AnsweredConcat([item], items);
    assert AnsweredIds([item]) == if item.ToolResult? then {item.callId} else {} by {
      assert item in [item];
    }
  }

  lemma IdsCons(call: Call, calls: seq<Call>)
    ensures IdsOf([call] + calls) == {call.id} + IdsOf(calls)
  {
    assert forall c :: c in [call] + calls <==> c == call || c in calls;
  }

  /** In a replayable history the answered calls are the first ones and the pending calls the rest. */
  lemma {:induction false} AnsweredComeFirst(pending: seq<Call>, items: seq<Item>) returns (front: seq<Call>)
    requires Replay(pending, items).Some?
    ensures pending + CallsIn(items) == front + Replay(pending, items).value
    ensures IdsOf(front) == AnsweredIds(items)
    decreases items
  {
    hide IdsOf, AnsweredIds, CallsIn;
    if items == [] {
      front := [];
      assert CallsIn([]) == [] by { NoCalls(); }
      assert pending + [] == pending && [] + pending == pending;
      NothingAnswered();
    } else {
      var item, rest := items[0], items[1..];
      HeadTail(items);
      CallsCons(item, rest);
      AnsweredCons(item, rest);
      var p := Replay(pending, items).value;
      front := AnsweredComeFirst(StillPending(pending, item).value, rest);
      if item.ToolResult? {
        HeadTail(pending);
        Assoc([pending[0]], pending[1..], CallsIn(rest));
        Assoc([pending[0]], front, p);
        IdsCons(pending[0], front);
        front := [pending[0]] + front;
      } else {
        assert [] + CallsIn(items) == CallsIn(items) && [] + CallsIn(rest) == CallsIn(rest);
      }
    }
  }

  lemma NoCalls()
    ensures CallsIn([]) == []
  {
  }

  lemma CallsCons(item: Item, rest: seq<Item>)
    ensures CallsIn([item] + rest) == (if item.Assistant? then CollectToolCalls(item.turn.blocks) else []) + CallsIn(rest)
    ensures !item.Assistant? ==> CallsIn([item] + rest) == CallsIn(rest)
  {
    Cons(item, rest);
    assert [] + CallsIn(rest) == CallsIn(rest);
  }

  lemma NothingAnswered()
    ensures IdsOf([]) == AnsweredIds([]) == {}
  {
  }

  /** Only pending calls can be unanswered. */
  lemma UnansweredArePending(items: seq<Item>)
    requires Replay([], items).Some?
    ensures UnansweredToolCalls(items) == Unanswered(Replay([], items).value, AnsweredIds(items))
  {
    var front := AnsweredComeFirst([], items);
    var p, answered := Replay([], items).value, AnsweredIds(items);
    assert [] + CallsIn(items) == CallsIn(items);
    UnansweredConcat(front, p, answered);
    UnansweredNone(front, answered);
    assert [] + Unanswered(p, answered) == Unanswered(p, answered);
  }

  predicate NoneAnswered(calls: seq<Call>, answered: set<string>) {
    forall c :: c in calls ==> c.id !in answered
  }

  /**
   * Healing an interrupted run makes its delta well formed exactly when no pending call shares its id
   * with an answered one; it then appends one error result per pending call and nothing else.
   */
  lemma HealedIsWellFormedIff(items: seq<Item>)
    requires Replay([], items).Some?
    ensures var pending := Replay([], items).value;
            && (WellFormed(Healed(items)) <==> NoneAnswered(pending, AnsweredIds(items)))
            && (WellFormed(Healed(items)) ==> Healed(items) == items + ErrorResults(pending))
  {
    hide ErrorResults, AnsweredIds;
    var p := Replay([], items).value;
    var missing := UnansweredToolCalls(items);
    UnansweredArePending(items);
    UnansweredAll(p, AnsweredIds(items));
    ReplayConcat([], items, ErrorResults(missing));
    ReplayErrorResults(p, missing);
  }

  /** The items are replayable and no call still pending shares its id with an answered one. */
  predicate Healable(items: seq<Item>) {
    Replay([], items).Some? && NoneAnswered(Replay([], items).value, AnsweredIds(items))
  }

  lemma HealedCalls(items: seq<Item>)
    ensures CallsIn(Healed(items)) == CallsIn(items)
  {
    var missing := UnansweredToolCalls(items);
    CallsConcat(items, ErrorResults(missing));
    ErrorResultsHaveNoCalls(missing);
    hide CallsIn;
    assert CallsIn(items) + [] == CallsIn(items);
  }

  /** Distinct call ids are enough. */
  lemma DistinctIdsHeal(items: seq<Item>)
    requires Replay([], items).Some? && DistinctIds(CallsIn(items))
    ensures WellFormed(Healed(items))
    ensures Healed(items) == items + ErrorResults(Replay([], items).value)
  {
    hide ErrorResults, AnsweredIds, UnansweredToolCalls;
    var p := Replay([], items).value;
    var front := AnsweredComeFirst([], items);
    assert CallsIn(items) == front + p by { assert [] + CallsIn(items) == CallsIn(items); }
    forall c, d | c in p && d in front ensures c.id != d.id {
      var j :| 0 <= j < |p| && p[j] == c;
      var i :| 0 <= i < |front| && front[i] == d;
      assert (front + p)[i] == d && (front + p)[|front| + j] == c;
    }
    HealedIsWellFormedIff(items);
  }

  /** Healing twice is healing once, for any items at all. */
  lemma HealedIsIdempotent(items: seq<Item>)
    ensures UnansweredToolCalls(Healed(items)) == [] && Healed(Healed(items)) == Healed(items)
  {
    var missing := UnansweredToolCalls(items);
    var errors := ErrorResults(missing);
    var calls, answered := CallsIn(items), AnsweredIds(items) + AnsweredIds(errors);
    CallsConcat(items, errors);
    ErrorResultsHaveNoCalls(missing);
    assert calls + [] == calls;
    AnsweredConcat(items, errors);
    ErrorResultIds(missing);
    forall c | c in calls ensures c.id in answered {
      if c.id !in AnsweredIds(items) {
        UnansweredHas(calls, AnsweredIds(items), c);
        var i :| 0 <= i < |missing| && missing[i] == c;
      }
    }
    UnansweredNone(calls, answered);
    hide CallsIn, AnsweredIds;
    assert ErrorResults([]) == [];
    assert Healed(items) + [] == Healed(items);
  }

  lemma {:induction false} UnansweredHas(calls: seq<Call>, answered: set<string>, c: Call)
    requires c in calls && c.id !in answered
    ensures c in Unanswered(calls, answered)
  {
    if c != calls[0] {
      HeadTail(calls);
      UnansweredHas(calls[1..], answered, c);
    }
  }

  /** One id used for two calls of a turn: after the first result the second call stays unanswered. */
  lemma RepeatedIdIsNotHealed()
    ensures var call := ToolCall("a", "read");
            var items := [Assistant(AssistantTurn([call, call], CompletedTurn)), ToolResult("a", "read", "", false)];
            Replay([], items) == Some([Call("a", "read")]) && !WellFormed(Healed(items))
  {
    var call := ToolCall("a", "read");
    var turn := AssistantTurn([call, call], CompletedTurn);
    var result := ToolResult("a", "read", "", false);
    var items := [Assistant(turn), result];
    assert [call, call][1..] == [call] && [call][1..] == [];
    assert CollectToolCalls([call]) == [Call("a", "read")];
    assert CollectToolCalls(turn.blocks) == [Call("a", "read"), Call("a", "read")];
    assert items[1..] == [result] && [result][1..] == [];
    assert [Call("a", "read"), Call("a", "read")][1..] == [Call("a", "read")];
    assert Replay([Call("a", "read"), Call("a", "read")], [result]) == Some([Call("a", "read")]);
    HealedIsWellFormedIff(items);
    assert items[1] in items && "a" in AnsweredIds(items);
    assert Call("a", "read") in Replay([], items).value;
  }

  // ---------- Histories built from whole runs ----------

  /** A run opens with a user message, so it is replayable behind a history exactly when both are. */
  lemma RunBehindHistory(history: seq<Item>, run: seq<Item>)
    requires run != [] && run[0].UserMessage?
    ensures WellFormed(history + run) <==> WellFormed(history) && WellFormed(run)
  {
    ReplayConcat([], history, run);
  }
}
