/** Assembled streams as the agent hears them: exactly when they are the one message its log needs. */
module StreamDiscipline {
  import opened Wrappers
  import opened Sequences
  import opened StreamModel
  import C = Conversation
  import E = RunEvents
  import A = AgentRun
  import G = AgentGrammar
  import L = StreamLaws

  function AgentBlock(block: Block): C.Block {
    match block
    case TextBlock(text, _) => C.TextBlock(text)
    case ReasoningBlock(summary, _) => C.ReasoningBlock(summary)
    case ToolCallBlock(callId, name, _, _) => C.ToolCall(callId, name)
  }

  function AgentBlocks(blocks: seq<Block>): seq<C.Block> {
    seq(|blocks|, i requires 0 <= i < |blocks| => AgentBlock(blocks[i]))
  }

  function CallsOf(blocks: seq<Block>): seq<C.Call> {
    if blocks == [] then []
    else
      var front, last := CallsOf(blocks[..|blocks| - 1]), blocks[|blocks| - 1];
      if last.ToolCallBlock? then front + [C.Call(last.callId, last.name)] else front
  }

  /** The calls that a turn asks for are those of its tool-call blocks, in order. */
  lemma {:induction false} HeardCalls(blocks: seq<Block>)
    ensures C.CollectToolCalls(AgentBlocks(blocks)) == CallsOf(blocks)
    decreases blocks
  {
    if blocks == [] {
      assert AgentBlocks([]) == [];
    } else {
      var front, last := blocks[..|blocks| - 1], blocks[|blocks| - 1];
      HeardCalls(front);
      assert AgentBlocks(blocks) == AgentBlocks(front) + [AgentBlock(last)];
      C.CollectedCalls(AgentBlocks(front), AgentBlock(last));
    }
  }

  /** How an update is shown to subscribers is a parameter. */
  type Shown = StreamEvent -> string

  /** A stream event as the agent routes it; an assembled error never says that the stream was aborted. */
  function AgentEvent(e: StreamEvent, shown: Shown): A.StreamEvent {
    match e
    case StreamStart(_, _) => A.StartEvent
    case StreamDone(_, _, _, blocks) => A.DoneEvent(AgentBlocks(blocks))
    case StreamError(_, _, _, blocks) => A.ErrorEvent(AgentBlocks(blocks), false)
    case _ => A.UpdateEvent(shown(e))
  }

  /** What the agent hears of the assembled stream. */
  function AgentStream(source: string, events: seq<NormalizedEvent>, shown: Shown): (r: seq<A.StreamEvent>)
    ensures |r| == |Assemble(source, events)|
    ensures forall i :: 0 <= i < |r| ==> r[i] == AgentEvent(Assemble(source, events)[i], shown)
  {
    var out := Assemble(source, events);
    seq(|out|, i requires 0 <= i < |out| => AgentEvent(out[i], shown))
  }

  // ---------- The condition on the provider's events ----------

  /** Events that are passed on whatever came before them. */
  predicate AlwaysEmits(e: NormalizedEvent) {
    e.Created? || e.ReasoningAdded? || e.MessageAdded? || e.ToolCallAdded? || IsTerminal(e)
  }

  /** The events that are read: up to and including the first terminal one. */
  function Consumed(events: seq<NormalizedEvent>): seq<NormalizedEvent> {
    if events == [] then []
    else [events[0]] + if IsTerminal(events[0]) then [] else Consumed(events[1..])
  }

  predicate NoneEmits(events: seq<NormalizedEvent>) {
    forall i :: 0 <= i < |events| ==> !AlwaysEmits(events[i])
  }

  /** Of the events that always emit, the first is `Created` and no other is, or none is if one was seen already. */
  predicate CreatedFirst(seen: bool, events: seq<NormalizedEvent>) {
    forall i :: 0 <= i < |events| && AlwaysEmits(events[i]) ==>
      (events[i].Created? <==> !seen && NoneEmits(events[..i]))
  }

  lemma NoneEmitsStep(e: NormalizedEvent, rest: seq<NormalizedEvent>, i: nat)
    requires i <= |rest|
    ensures NoneEmits(([e] + rest)[..i + 1]) <==> !AlwaysEmits(e) && NoneEmits(rest[..i])
  {
    hide AlwaysEmits;
    var front := ([e] + rest)[..i + 1];
    assert front[0] == e && forall j {:trigger rest[..i][j]} :: 0 <= j < i ==> front[j + 1] == rest[..i][j];
    assert forall j {:trigger front[j]} :: 1 <= j < |front| ==> front[j] == rest[..i][j - 1];
  }

  lemma CreatedFirstStep(seen: bool, e: NormalizedEvent, rest: seq<NormalizedEvent>)
    ensures CreatedFirst(seen, [e] + rest)
       <==> (AlwaysEmits(e) ==> (e.Created? <==> !seen)) && CreatedFirst(seen || AlwaysEmits(e), rest)
  {
    hide AlwaysEmits, NoneEmits;
    var all := [e] + rest;
    forall i | 0 <= i < |rest|
      ensures all[i + 1] == rest[i] && (NoneEmits(all[..i + 1]) <==> !AlwaysEmits(e) && NoneEmits(rest[..i]))
    {
      NoneEmitsStep(e, rest, i);
    }
    assert forall i {:trigger all[i]} :: 1 <= i < |all| ==> all[i] == rest[i - 1];
    assert all[0] == e && NoneEmits(all[..0]) by { NothingEmits(all[..0]); }
  }

  lemma NothingEmits(events: seq<NormalizedEvent>)
    requires events == []
    ensures NoneEmits(events)
  {
  }

  // ---------- One start, ahead of everything ----------

  /** The first event, and no other, starts the stream, unless it was started already. */
  predicate StartsOnce(started: bool, out: seq<StreamEvent>) {
    forall i :: 0 <= i < |out| ==> (out[i].StreamStart? <==> i == 0 && !started)
  }

  lemma StartsOnceStep(started: bool, e: StreamEvent, rest: seq<StreamEvent>)
    ensures StartsOnce(started, [e] + rest) <==> (e.StreamStart? <==> !started) && StartsOnce(true, rest)
  {
    var all := [e] + rest;
    assert all[0] == e && forall i {:trigger rest[i]} :: 0 <= i < |rest| ==> all[i + 1] == rest[i];
    assert forall i {:trigger all[i]} :: 1 <= i < |all| ==> all[i] == rest[i - 1];
  }

  /** Deltas and ends emit nothing until a block was opened; only `Created` emits a start. */
  lemma StepEmits(s: State, e: NormalizedEvent)
    requires s.Valid()
    ensures AlwaysEmits(e) ==> Step(s, e).1.Some?
    ensures !AlwaysEmits(e) && !s.active ==> Step(s, e) == (s, None)
    ensures Step(s, e).1.Some? ==> (Step(s, e).1.value.StreamStart? <==> e.Created?)
  {
  }

  lemma {:induction false} RunStartsOnce(s: State, started: bool, events: seq<NormalizedEvent>)
    requires s.Valid() && (started || !s.active)
    ensures StartsOnce(started, Run(s, events).1) <==> CreatedFirst(started, Consumed(events))
    decreases events
  {
    hide Step, IsTerminal, AlwaysEmits, StartsOnce, CreatedFirst;
    if events == [] {
      NothingStarts(started);
    } else {
      var e := events[0];
      var (next, out) := Step(s, e);
      var rest := if IsTerminal(e) then [] else Run(next, events[1..]).1;
      var after := if IsTerminal(e) then [] else Consumed(events[1..]);
      StepEmits(s, e);
      CreatedFirstStep(started, e, after);
      if IsTerminal(e) {
        TerminalEmits(e);
        NothingStarts(true);
      } else {
        RunStartsOnce(next, started || AlwaysEmits(e), events[1..]);
      }
      if out.Some? {
        StartsOnceStep(started, out.value, rest);
        CreatedEmits(e);
        assert Emitted(out) + [] == Emitted(out);
      } else {
        assert [] + rest == rest;
      }
    }
  }

  lemma NothingStarts(started: bool)
    ensures StartsOnce(started, []) && CreatedFirst(started, [])
  {
  }

  lemma TerminalEmits(e: NormalizedEvent)
    requires IsTerminal(e)
    ensures AlwaysEmits(e)
  {
  }

  lemma CreatedEmits(e: NormalizedEvent)
    ensures e.Created? ==> AlwaysEmits(e)
  {
  }

  // ---------- Which events are passed on, and as what ----------

  /** The kind of block that deltas and ends of this kind belong to. */
  function KindOf(e: NormalizedEvent): Option<Kind> {
    if e.ReasoningDelta? || e.ReasoningDone? || e.ReasoningAdded? then Some(Reasoning)
    else if e.MessageTextDelta? || e.MessageDone? || e.MessageAdded? then Some(Text)
    else if e.ToolCallArgumentsDelta? || e.ToolCallDone? || e.ToolCallAdded? then Some(ToolCall)
    else None
  }

  predicate Opens(e: NormalizedEvent) {
    e.ReasoningAdded? || e.MessageAdded? || e.ToolCallAdded?
  }

  predicate Closes(e: NormalizedEvent) {
    e.ReasoningDone? || e.MessageDone? || e.ToolCallDone?
  }

  /** The kind of the block being written, after one more event. */
  function Writing(open: Option<Kind>, e: NormalizedEvent): Option<Kind> {
    if Opens(e) then KindOf(e) else if Closes(e) && open == KindOf(e) then None else open
  }

  /** Deltas and ends are passed on only while a block of their kind is written. */
  predicate IsPassedOn(open: Option<Kind>, e: NormalizedEvent) {
    AlwaysEmits(e) || (KindOf(e).Some? && open == KindOf(e))
  }

  /** What is passed on says what the event said. */
  predicate Carries(e: NormalizedEvent, out: StreamEvent, source: string) {
    match e
    case Created(id) => out == StreamStart(source, id)
    case ToolCallAdded(callId, name, _) => out.BlockStart? && out.kind == ToolCall && out.callId == callId && out.name == name
    case ReasoningAdded => out.BlockStart? && out.kind == Reasoning
    case MessageAdded => out.BlockStart? && out.kind == Text
    case ReasoningDelta(delta) => out.BlockDelta? && out.kind == Reasoning && out.delta == delta
    case MessageTextDelta(delta) => out.BlockDelta? && out.kind == Text && out.delta == delta
    case ToolCallArgumentsDelta(delta) => out.BlockDelta? && out.kind == ToolCall && out.delta == delta
    case ReasoningDone(summary, _) => out.BlockEnd? && out.block.ReasoningBlock? && (summary != "" ==> out.block.summary == summary)
    case MessageDone(_, text, _) => out.BlockEnd? && out.block.TextBlock? && out.block.text == text
    case ToolCallDone(_, callId, name, arguments) =>
      && out.BlockEnd? && out.block.ToolCallBlock?
      && out.block.callId == callId && out.block.name == name && out.block.arguments == arguments
    case _ => IsTerminal(e) && L.EndsAs(e, out, source)
  }

  /** The stream passes on exactly these events, one by one and in order. */
  predicate PassesOn(open: Option<Kind>, events: seq<NormalizedEvent>, out: seq<StreamEvent>, source: string)
    decreases events
  {
    if events == [] then out == []
    else if !IsPassedOn(open, events[0]) then PassesOn(Writing(open, events[0]), events[1..], out, source)
    else out != [] && Carries(events[0], out[0], source) && PassesOn(Writing(open, events[0]), events[1..], out[1..], source)
  }

  function OpenKind(s: State): Option<Kind>
    requires s.Valid()
  {
    if s.active then Some(s.blocks[s.Last()].Kind()) else None
  }

  lemma StepPassesOn(s: State, e: NormalizedEvent)
    requires s.Valid()
    ensures OpenKind(Step(s, e).0) == Writing(OpenKind(s), e)
    ensures Step(s, e).1.Some? <==> IsPassedOn(OpenKind(s), e)
    ensures Step(s, e).1.Some? ==> Carries(e, Step(s, e).1.value, s.source)
    ensures Step(s, e).0.source == s.source
  {
  }

  lemma {:induction false} RunPassesOn(s: State, events: seq<NormalizedEvent>)
    requires s.Valid()
    ensures PassesOn(OpenKind(s), Consumed(events), Run(s, events).1, s.source)
    decreases events
  {
    hide Step, IsTerminal, IsPassedOn, Carries, Writing, OpenKind;
    if events != [] {
      var e := events[0];
      var (next, out) := Step(s, e);
      var rest := if IsTerminal(e) then [] else Run(next, events[1..]).1;
      var after := if IsTerminal(e) then [] else Consumed(events[1..]);
      StepPassesOn(s, e);
      Cons(e, after);
      if !IsTerminal(e) {
        RunPassesOn(next, events[1..]);
      }
      assert Run(s, events).1 == Emitted(out) + rest by {
        assert Emitted(out) + [] == Emitted(out);
      }
      assert Consumed(events) == [e] + after;
      if out.Some? {
        Cons(out.value, rest);
      } else {
        assert [] + rest == rest;
      }
    }
  }

  /**
   * The assembled stream passes on, in order and one for one, the events up to the first terminal one, deltas
   * and ends only while a block of their kind is written; each says what the provider's event said.
   */
  lemma AssembledPassesOn(source: string, events: seq<NormalizedEvent>)
    ensures PassesOn(None, Consumed(events), Assemble(source, events), source)
  {
    RunPassesOn(Initial(source), events);
  }

  // ---------- The arguments of tool calls ----------

  /**
   * The arguments of each block, in order of the blocks, by the events alone: those a tool call was added with,
   * until they are replaced while it is written. Other blocks have none.
   */
  function Arguments(open: Option<Kind>, before: seq<Json>, events: seq<NormalizedEvent>): seq<Json>
    decreases events
  {
    if events == [] then before
    else
      var e, n := events[0], |before|;
      var writing := open == Some(ToolCall) && n > 0;
      var now := match e
                 case ToolCallAdded(_, _, arguments) => before + [arguments]
                 case ToolCallArgumentsDone(arguments) => if writing then before[n - 1 := arguments] else before
                 case ToolCallDone(_, _, _, arguments) => if writing then before[n - 1 := arguments] else before
                 case _ => if Opens(e) then before + [Json("")] else before;
      Arguments(Writing(open, e), now, events[1..])
  }

  predicate HasArguments(blocks: seq<Block>, arguments: seq<Json>) {
    |blocks| == |arguments| && forall i :: 0 <= i < |blocks| && blocks[i].ToolCallBlock? ==> blocks[i].arguments == arguments[i]
  }

  lemma StepArguments(s: State, before: seq<Json>, e: NormalizedEvent)
    requires s.Valid() && HasArguments(s.blocks, before)
    ensures HasArguments(Step(s, e).0.blocks, Arguments(OpenKind(s), before, [e]))
  {
    assert [e][1..] == [];
  }

  lemma ArgumentsStep(open: Option<Kind>, before: seq<Json>, events: seq<NormalizedEvent>)
    requires events != []
    ensures Arguments(open, before, events)
         == Arguments(Writing(open, events[0]), Arguments(open, before, [events[0]]), events[1..])
  {
    assert [events[0]][1..] == [];
  }

  lemma {:induction false} RunArguments(s: State, before: seq<Json>, events: seq<NormalizedEvent>)
    requires s.Valid() && HasArguments(s.blocks, before)
    ensures HasArguments(Run(s, events).0.blocks, Arguments(OpenKind(s), before, Consumed(events)))
    decreases events
  {
    hide Step, IsTerminal, Writing, OpenKind, HasArguments;
    if events != [] {
      var e := events[0];
      var next := Step(s, e).0;
      var after := if IsTerminal(e) then [] else Consumed(events[1..]);
      StepPassesOn(s, e);
      StepArguments(s, before, e);
      Cons(e, after);
      ArgumentsStep(OpenKind(s), before, [e] + after);
      if !IsTerminal(e) {
        RunArguments(next, Arguments(OpenKind(s), before, [e]), events[1..]);
      }
    }
  }

  lemma TerminalCarriesBlocks(s: State, e: NormalizedEvent)
    requires s.Valid() && IsTerminal(e)
    ensures Step(s, e).0 == s && Step(s, e).1.Some? && EndsStream(Step(s, e).1.value)
    ensures L.TerminalBlocks(Step(s, e).1.value) == s.blocks
  {
  }

  lemma {:induction false} RunEndsWithBlocks(s: State, events: seq<NormalizedEvent>)
    requires s.Valid() && exists e :: e in events && IsTerminal(e)
    ensures var (final, out) := Run(s, events);
            out != [] && EndsStream(out[|out| - 1]) && L.TerminalBlocks(out[|out| - 1]) == final.blocks
    decreases events
  {
    hide Step, IsTerminal, EndsStream, L.TerminalBlocks;
    if IsTerminal(events[0]) {
      TerminalCarriesBlocks(s, events[0]);
    } else {
      assert forall e :: e in events <==> e == events[0] || e in events[1..];
      RunEndsWithBlocks(Step(s, events[0]).0, events[1..]);
    }
  }

  /** Every tool call of a terminal event, finished or not, has the arguments that the events gave it last. */
  lemma TerminalArguments(source: string, events: seq<NormalizedEvent>)
    requires HasTerminal(events)
    ensures var out := Assemble(source, events);
            && out != [] && EndsStream(out[|out| - 1])
            && HasArguments(L.TerminalBlocks(out[|out| - 1]), Arguments(None, [], Consumed(events)))
  {
    RunEndsWithBlocks(Initial(source), events);
    RunArguments(Initial(source), [], events);
  }

  predicate HasTerminal(events: seq<NormalizedEvent>) {
    exists e :: e in events && IsTerminal(e)
  }

  predicate HasEnd(out: seq<StreamEvent>) {
    exists e :: e in out && EndsStream(e)
  }

  /** Terminal events, and only they, end the stream. */
  lemma StepEnds(s: State, e: NormalizedEvent)
    requires s.Valid()
    ensures HasEnd(Emitted(Step(s, e).1)) <==> IsTerminal(e)
  {
    if IsTerminal(e) {
      assert Step(s, e).1.value in Emitted(Step(s, e).1);
    }
  }

  lemma {:induction false} RunEnds(s: State, events: seq<NormalizedEvent>)
    requires s.Valid()
    ensures HasEnd(Run(s, events).1) <==> HasTerminal(events)
    decreases events
  {
    hide Step, IsTerminal, EndsStream, Emitted;
    if events != [] {
      StepEnds(s, events[0]);
      HeadTail(events);
      assert forall e :: e in events <==> e == events[0] || e in events[1..];
      if !IsTerminal(events[0]) {
        var (next, out) := Step(s, events[0]);
        RunEnds(next, events[1..]);
        assert forall e :: e in Emitted(out) + Run(next, events[1..]).1 <==> e in Emitted(out) || e in Run(next, events[1..]).1;
      }
    }
  }

  predicate HasFinish(heard: seq<A.StreamEvent>) {
    exists e :: e in heard && G.Finishes(e)
  }

  lemma AgentEventShape(e: StreamEvent, shown: Shown)
    ensures AgentEvent(e, shown).StartEvent? <==> e.StreamStart?
    ensures G.Finishes(AgentEvent(e, shown)) <==> EndsStream(e)
  {
  }

  /** Start and terminal event stand where the assembler put them. */
  lemma HeardShape(out: seq<StreamEvent>, heard: seq<A.StreamEvent>, shown: Shown)
    requires |heard| == |out| && forall i :: 0 <= i < |heard| ==> heard[i] == AgentEvent(out[i], shown)
    requires forall i :: 0 <= i < |out| && EndsStream(out[i]) ==> i == |out| - 1
    ensures G.OneMessage(heard) <==> StartsOnce(false, out)
    ensures HasFinish(heard) <==> HasEnd(out)
  {
    hide AgentEvent, EndsStream, G.Finishes, HasFinish, HasEnd;
    forall i | 0 <= i < |out|
      ensures (heard[i].StartEvent? <==> out[i].StreamStart?) && (G.Finishes(heard[i]) <==> EndsStream(out[i]))
    {
      AgentEventShape(out[i], shown);
    }
    FinishIsEnd(out, heard);
  }

  lemma FinishIsEnd(out: seq<StreamEvent>, heard: seq<A.StreamEvent>)
    requires |heard| == |out| && forall i :: 0 <= i < |heard| ==> (G.Finishes(heard[i]) <==> EndsStream(out[i]))
    ensures HasFinish(heard) <==> HasEnd(out)
  {
    hide G.Finishes, EndsStream;
    if HasEnd(out) {
      var i :| 0 <= i < |out| && EndsStream(out[i]);
      assert heard[i] in heard;
    }
    if HasFinish(heard) {
      var i :| 0 <= i < |heard| && G.Finishes(heard[i]);
      assert out[i] in out;
    }
  }

  /**
   * What the agent hears of an assembled stream is one start, updates and one terminal event, as far as
   * it came, exactly when one `Created` comes ahead of all other events that always emit. The terminal
   * event is there exactly when the provider sent one.
   */
  lemma AssembledIsOneMessage(source: string, events: seq<NormalizedEvent>, shown: Shown)
    ensures G.OneMessage(AgentStream(source, events, shown)) <==> CreatedFirst(false, Consumed(events))
    ensures HasFinish(AgentStream(source, events, shown)) <==> HasTerminal(events)
  {
    hide EndsStream, StartsOnce, CreatedFirst, Consumed, AgentEvent, HasFinish, HasEnd, HasTerminal, G.OneMessage, Run;
    RunStartsOnce(Initial(source), false, events);
    RunEnds(Initial(source), events);
    L.AssembledStreamShape(source, events);
    HeardShape(Assemble(source, events), AgentStream(source, events, shown), shown);
  }

  // ---------- Whole runs ----------

  /** Each provider stream of a run is what was assembled from the events that its provider delivered so far. */
  predicate AllAssembled(streams: seq<seq<A.StreamEvent>>, source: string, delivered: seq<seq<NormalizedEvent>>, shown: Shown) {
    |streams| == |delivered| && forall i :: 0 <= i < |streams| ==> streams[i] == AgentStream(source, delivered[i], shown)
  }

  predicate AllCreatedFirst(delivered: seq<seq<NormalizedEvent>>) {
    forall i :: 0 <= i < |delivered| ==> CreatedFirst(false, Consumed(delivered[i]))
  }

  /**
   * With assembled provider streams, the log of a run is in the grammar exactly when every provider
   * response had one `Created` ahead of all other events that always emit.
   */
  lemma AssembledLogIsGrammatical(typed: bool, committed: seq<C.Item>, prompt: string, inputs: seq<A.Input>,
                                  terminal: E.AgentEvent, source: string, delivered: seq<seq<NormalizedEvent>>, shown: Shown)
    requires terminal.RunEnd? || terminal.RunFault?
    requires AllAssembled(A.StreamsIn([], A.Fitting(A.Start(typed, committed, prompt), inputs)), source, delivered, shown)
    ensures var log := A.Run(A.Start(typed, committed, prompt), inputs).log;
            && (G.Read(typed, G.Unstarted, log).Some? <==> AllCreatedFirst(delivered))
            && (G.Read(typed, G.Unstarted, log + [terminal]) == Some(G.Ended) <==> AllCreatedFirst(delivered))
  {
    hide G.OneMessage, AgentStream, CreatedFirst, Consumed, G.Read, A.Run, A.StreamsIn, A.Fitting;
    G.LogIsGrammatical(typed, committed, prompt, inputs, terminal);
    var streams := A.StreamsIn([], A.Fitting(A.Start(typed, committed, prompt), inputs));
    forall i | 0 <= i < |streams| ensures G.OneMessage(streams[i]) <==> CreatedFirst(false, Consumed(delivered[i])) {
      AssembledIsOneMessage(source, delivered[i], shown);
    }
  }
}
