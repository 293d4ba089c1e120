/** What assembling a normalized provider stream does, on values. */
module StreamModel {
  import opened Wrappers
  import opened Sequences

  // ---------- Blocks and events ----------

  datatype Kind = Text | Reasoning | ToolCall

  /** A JSON object, kept as a whole. */
  datatype Json = Json(text: string)

  type Metadata = Option<map<string, string>>

  datatype Block =
    | TextBlock(text: string, metadata: Metadata)
    | ReasoningBlock(summary: string, metadata: Metadata)
    | ToolCallBlock(callId: string, name: string, arguments: Json, metadata: Metadata)
  {
    function Kind(): Kind {
      match this
      case TextBlock(_, _) => Text
      case ReasoningBlock(_, _) => Reasoning
      case ToolCallBlock(_, _, _, _) => ToolCall
    }
  }

  datatype StopReason = Stop | Length | ToolUse | Error | Aborted

  datatype NormalizedEvent =
    | Created(responseId: string)
    | ReasoningAdded
    | ReasoningDelta(delta: string)
    | ReasoningDone(summary: string, signature: Option<string>)
    | MessageAdded
    | MessageTextDelta(delta: string)
    | MessageDone(itemId: string, text: string, phase: Option<string>)
    | ToolCallAdded(callId: string, name: string, arguments: Json)
    | ToolCallArgumentsDelta(delta: string)
    | ToolCallArgumentsDone(arguments: Json)
    | ToolCallDone(providerItemId: Option<string>, callId: string, name: string, arguments: Json)
    | Completed(stopReason: StopReason)
    | Incomplete(stopReason: StopReason, errorMessage: Option<string>)
    | Failed(message: string)

  datatype StreamEvent =
    | StreamStart(source: string, responseId: string)
    | BlockStart(index: nat, kind: Kind, callId: string, name: string)
    | BlockDelta(index: nat, kind: Kind, delta: string)
    | BlockEnd(index: nat, block: Block)
    | StreamDone(source: string, response: Option<string>, stopReason: StopReason, blocks: seq<Block>)
    | StreamError(source: string, response: Option<string>, errorMessage: string, blocks: seq<Block>)

  predicate IsTerminal(e: NormalizedEvent) {
    e.Completed? || e.Incomplete? || e.Failed?
  }

  predicate EndsStream(e: StreamEvent) {
    e.StreamDone? || e.StreamError?
  }

  /** Metadata from optional values: absent ones are omitted, and no value at all means no metadata. */
  function MetadataOf(key: string, value: Option<string>): Metadata {
    match value
    case None => None
    case Some(v) => Some(map[key := v])
  }

  function MessageMetadata(itemId: string, phase: Option<string>): Metadata {
    match phase
    case None => Some(map["message_id" := itemId])
    case Some(p) => Some(map["message_id" := itemId, "phase" := p])
  }

  // ---------- One step of assembly ----------

  /** The blocks so far; when `active`, the last one is still being written. */
  datatype State = State(source: string, responseId: Option<string>, blocks: seq<Block>, active: bool) {
    predicate Valid() {
      active ==> blocks != []
    }

    predicate Writing(kind: Kind)
      requires Valid()
    {
      active && blocks[|blocks| - 1].Kind() == kind
    }

    function Last(): nat
      requires Valid() && active
    {
      |blocks| - 1
    }

    /** The state with the last block rewritten. */
    function WithLast(block: Block): State
      requires Valid() && active
    {
      this.(blocks := blocks[Last() := block])
    }

    function Closed(): State {
      this.(active := false)
    }

    function Opened(block: Block): State {
      this.(blocks := blocks + [block], active := true)
    }
  }

  function Initial(source: string): State {
    State(source, None, [], false)
  }

  /** The state after one event, and the event passed on, if any. */
  function Step(s: State, e: NormalizedEvent): (r: (State, Option<StreamEvent>))
    requires s.Valid()
    ensures r.0.Valid()
  {
    var last := if s.blocks == [] then TextBlock("", None) else s.blocks[|s.blocks| - 1];
    match e
    case Created(id) => (s.(responseId := Some(id)), Some(StreamStart(s.source, id)))
    case ReasoningAdded =>
      (s.Opened(ReasoningBlock("", None)), Some(BlockStart(|s.blocks|, Reasoning, "", "")))
    case ReasoningDelta(delta) =>
      if !s.Writing(Reasoning) then (s, None)
      else (s.WithLast(last.(summary := last.summary + delta)), Some(BlockDelta(s.Last(), Reasoning, delta)))
    case ReasoningDone(summary, signature) =>
      if !s.Writing(Reasoning) then (s, None)
      else
        var block := ReasoningBlock(if summary != "" then summary else last.summary,
                                    MetadataOf("reasoning_signature", signature));
        (s.WithLast(block).Closed(), Some(BlockEnd(s.Last(), block)))
    case MessageAdded =>
      (s.Opened(TextBlock("", None)), Some(BlockStart(|s.blocks|, Text, "", "")))
    case MessageTextDelta(delta) =>
      if !s.Writing(Text) then (s, None)
      else (s.WithLast(last.(text := last.text + delta)), Some(BlockDelta(s.Last(), Text, delta)))
    case MessageDone(itemId, text, phase) =>
      if !s.Writing(Text) then (s, None)
      else
        var block := TextBlock(text, MessageMetadata(itemId, phase));
        (s.WithLast(block).Closed(), Some(BlockEnd(s.Last(), block)))
    case ToolCallAdded(callId, name, arguments) =>
      (s.Opened(ToolCallBlock(callId, name, arguments, None)), Some(BlockStart(|s.blocks|, ToolCall, callId, name)))
    case ToolCallArgumentsDelta(delta) =>
      if !s.Writing(ToolCall) then (s, None) else (s, Some(BlockDelta(s.Last(), ToolCall, delta)))
    case ToolCallArgumentsDone(arguments) =>
      if !s.Writing(ToolCall) then (s, None) else (s.WithLast(last.(arguments := arguments)), None)
    case ToolCallDone(itemId, callId, name, arguments) =>
      if !s.Writing(ToolCall) then (s, None)
      else
        var block := ToolCallBlock(callId, name, arguments, MetadataOf("provider_item_id", itemId));
        (s.WithLast(block).Closed(), Some(BlockEnd(s.Last(), block)))
    case Completed(reason) => (s, Some(StreamDone(s.source, s.responseId, reason, s.blocks)))
    case Incomplete(reason, message) =>
      if reason == Error then
        var text := if message.Some? && message.value != "" then message.value else "OpenAI response incomplete.";
        (s, Some(StreamError(s.source, s.responseId, text, s.blocks)))
      else (s, Some(StreamDone(s.source, s.responseId, reason, s.blocks)))
    case Failed(message) => (s, Some(StreamError(s.source, s.responseId, message, s.blocks)))
  }

  function Emitted(e: Option<StreamEvent>): seq<StreamEvent> {
    match e
    case None => []
    case Some(event) => [event]
  }

  /** Assembles a stream, up to and including its first terminal event. */
  function Run(s: State, events: seq<NormalizedEvent>): (r: (State, seq<StreamEvent>))
    requires s.Valid()
    ensures r.0.Valid()
    decreases events
  {
    if events == [] then (s, [])
    else
      var (next, out) := Step(s, events[0]);
      if IsTerminal(events[0]) then (next, Emitted(out))
      else
        var (final, rest) := Run(next, events[1..]);
        (final, Emitted(out) + rest)
  }

  function Assemble(source: string, events: seq<NormalizedEvent>): seq<StreamEvent> {
    Run(Initial(source), events).1
  }

  /** Running a non-terminal prefix first changes nothing. */
  lemma {:induction false} RunConcat(s: State, a: seq<NormalizedEvent>, b: seq<NormalizedEvent>)
    requires s.Valid() && forall i :: 0 <= i < |a| ==> !IsTerminal(a[i])
    ensures var mid := Run(s, a);
            Run(s, a + b) == (Run(mid.0, b).0, mid.1 + Run(mid.0, b).1)
    decreases a
  {
    hide Step, IsTerminal;
    if a == [] {
      assert a + b == b && [] + Run(s, b).1 == Run(s, b).1;
    } else {
      var (next, out) := Step(s, a[0]);
      ConcatTail(a, b);
      RunConcat(next, a[1..], b);
      Assoc(Emitted(out), Run(next, a[1..]).1, Run(Run(next, a[1..]).0, b).1);
    }
  }

  // ---------- What a consumer of the emitted events can rely on ----------

  /** What the events about one block say: its start and deltas, or the finished block. */
  datatype Seen =
    | Growing(kind: Kind, deltas: string, callId: string, name: string)
    | Finished(block: Block)

  /** A consumer's view: one entry per started block; deltas and ends are taken only while open. */
  datatype View = View(seen: seq<Seen>, open: bool, closed: bool) {
    predicate Accepts(index: nat, kind: Kind) {
      && !closed && open && index + 1 == |seen|
      && seen[index].Growing? && seen[index].kind == kind
    }
  }

  /** Every started block, in order, is what its events said it is. */
  predicate Agrees(seen: Seen, block: Block) {
    match seen
    case Finished(b) => block == b
    case Growing(kind, deltas, callId, name) =>
      match kind
      case Text => block == TextBlock(deltas, None)
      case Reasoning => block == ReasoningBlock(deltas, None)
      case ToolCall => block.ToolCallBlock? && block.callId == callId && block.name == name && block.metadata.None?
  }

  predicate AllAgree(seen: seq<Seen>, blocks: seq<Block>) {
    |seen| == |blocks| && forall i :: 0 <= i < |seen| ==> Agrees(seen[i], blocks[i])
  }

  /** Consumes one event; `None` when the event breaks the stream's rules. */
  function Consume(v: View, e: StreamEvent): Option<View> {
    if v.closed then None
    else
      match e
      case StreamStart(_, _) => Some(v)
      case BlockStart(index, kind, callId, name) =>
        if index != |v.seen| then None
        else Some(View(v.seen + [Growing(kind, "", callId, name)], true, false))
      case BlockDelta(index, kind, delta) =>
        if !v.Accepts(index, kind) then None
        else Some(v.(seen := v.seen[index := v.seen[index].(deltas := v.seen[index].deltas + delta)]))
      case BlockEnd(index, block) =>
        if !v.Accepts(index, block.Kind()) then None
        else Some(v.(seen := v.seen[index := Finished(block)], open := false))
      case StreamDone(_, _, _, blocks) =>
        if AllAgree(v.seen, blocks) then Some(v.(closed := true)) else None
      case StreamError(_, _, _, blocks) =>
        if AllAgree(v.seen, blocks) then Some(v.(closed := true)) else None
  }

  function ConsumeAll(v: View, events: seq<StreamEvent>): Option<View>
    decreases events
  {
    if events == [] then Some(v)
    else
      match Consume(v, events[0])
      case None => None
      case Some(next) => ConsumeAll(next, events[1..])
  }

  ghost predicate Related(s: State, v: View) {
    && s.Valid() && !v.closed
    && AllAgree(v.seen, s.blocks)
    && v.open == s.active
    && (s.active ==> v.seen[|v.seen| - 1].Growing? && v.seen[|v.seen| - 1].kind == s.blocks[|s.blocks| - 1].Kind())
  }

  lemma OpeningKeepsRelated(s: State, v: View, block: Block, seen: Seen)
    requires Related(s, v) && Agrees(seen, block) && seen.Growing? && seen.kind == block.Kind()
    ensures Related(s.Opened(block), View(v.seen + [seen], true, false))
  {
  }

  /** The block being written and its entry are the last of their lists and belong together. */
  lemma WritingMeansOpen(s: State, v: View, kind: Kind)
    requires Related(s, v) && s.Writing(kind)
    ensures v.Accepts(s.Last(), kind) && |v.seen| == |s.blocks|
    ensures Agrees(v.seen[s.Last()], s.blocks[s.Last()])
  {
  }

  lemma RewritingKeepsRelated(s: State, v: View, block: Block, seen: Seen, closing: bool)
    requires Related(s, v) && s.active && Agrees(seen, block)
    requires closing || (seen.Growing? && seen.kind == block.Kind())
    ensures |v.seen| == |s.blocks|
    ensures var next := if closing then s.WithLast(block).Closed() else s.WithLast(block);
            Related(next, View(v.seen[s.Last() := seen], !closing, false))
  {
  }

  /** One step is right for a consumer: its view keeps agreeing, or the stream ends in agreement. */
  ghost predicate StepSuits(s: State, v: View, e: NormalizedEvent)
    requires s.Valid()
  {
    var (next, out) := Step(s, e);
    match out
    case None => Related(next, v) && !IsTerminal(e)
    case Some(event) =>
      && Consume(v, event).Some?
      && (if IsTerminal(e) then EndsStream(event) && Consume(v, event).value.closed
          else !EndsStream(event) && Related(next, Consume(v, event).value))
  }

  lemma StartSuits(s: State, v: View, e: NormalizedEvent)
    requires s.Valid() && Related(s, v)
    requires e.ReasoningAdded? || e.MessageAdded? || e.ToolCallAdded? || e.Created? || IsTerminal(e)
    ensures StepSuits(s, v, e)
  {
    var (next, out) := Step(s, e);
    if out.value.BlockStart? {
      var block, start := next.blocks[|s.blocks|], out.value;
      OpeningKeepsRelated(s, v, block, Growing(block.Kind(), "", start.callId, start.name));
    }
  }

  lemma DeltaSuits(s: State, v: View, e: NormalizedEvent)
    requires s.Valid() && Related(s, v)
    requires e.ReasoningDelta? || e.MessageTextDelta? || e.ToolCallArgumentsDelta?
    ensures StepSuits(s, v, e)
  {
    var kind := if e.ReasoningDelta? then Reasoning else if e.MessageTextDelta? then Text else ToolCall;
    if s.Writing(kind) {
      WritingMeansOpen(s, v, kind);
      var old_ := v.seen[s.Last()];
      var block := Step(s, e).0.blocks[s.Last()];
      RewritingKeepsRelated(s, v, block, old_.(deltas := old_.deltas + e.delta), false);
      assert Step(s, e).0 == s.WithLast(block);
      hide Related, AllAgree;
    }
  }

  lemma EndSuits(s: State, v: View, e: NormalizedEvent)
    requires s.Valid() && Related(s, v)
    requires e.ReasoningDone? || e.MessageDone? || e.ToolCallDone?
    ensures StepSuits(s, v, e)
  {
    var kind := if e.ReasoningDone? then Reasoning else if e.MessageDone? then Text else ToolCall;
    if s.Writing(kind) {
      WritingMeansOpen(s, v, kind);
      var block := Step(s, e).1.value.block;
      RewritingKeepsRelated(s, v, block, Finished(block), true);
      assert Step(s, e).0 == s.WithLast(block).Closed();
      hide Related, AllAgree;
    }
  }

  lemma ArgumentsSuit(s: State, v: View, e: NormalizedEvent)
    requires s.Valid() && Related(s, v) && e.ToolCallArgumentsDone?
    ensures StepSuits(s, v, e)
  {
    if s.Writing(ToolCall) {
      WritingMeansOpen(s, v, ToolCall);
      var i := s.Last();
      RewritingKeepsRelated(s, v, s.blocks[i].(arguments := e.arguments), v.seen[i], false);
      assert v.seen[i := v.seen[i]] == v.seen;
    }
  }

  /** Each step keeps the consumer's view in agreement with the blocks. */
  lemma StepKeepsRelated(s: State, v: View, e: NormalizedEvent)
    requires Related(s, v)
    ensures s.Valid() && StepSuits(s, v, e)
  {
    RelatedIsValid(s, v);
    hide StepSuits, Related;
    match e
    case ReasoningDelta(_) => DeltaSuits(s, v, e);
    case MessageTextDelta(_) => DeltaSuits(s, v, e);
    case ToolCallArgumentsDelta(_) => DeltaSuits(s, v, e);
    case ReasoningDone(_, _) => EndSuits(s, v, e);
    case MessageDone(_, _, _) => EndSuits(s, v, e);
    case ToolCallDone(_, _, _, _) => EndSuits(s, v, e);
    case ToolCallArgumentsDone(_) => ArgumentsSuit(s, v, e);
    case _ => StartSuits(s, v, e);
  }

  /**
   * Whatever normalized events arrive, a consumer accepts everything that is emitted: blocks start
   * with indices 0, 1, 2, ...; deltas and the single end go to the last started block and match its
   * kind; and the terminal event's blocks are what the earlier events said.
   */
  lemma {:induction false} RunIsConsumable(s: State, v: View, events: seq<NormalizedEvent>)
    requires Related(s, v)
    ensures ConsumeAll(v, Run(s, events).1).Some?
    decreases events
  {
    hide Step, Consume, IsTerminal, Related;
    RelatedIsValid(s, v);
    if events != [] {
      var (next, out) := Step(s, events[0]);
      StepKeepsRelated(s, v, events[0]);
      if IsTerminal(events[0]) {
        Cons(out.value, []);
      } else if out.None? {
        RunIsConsumable(next, v, events[1..]);
        assert [] + Run(next, events[1..]).1 == Run(next, events[1..]).1;
      } else {
        RunIsConsumable(next, Consume(v, out.value).value, events[1..]);
        Cons(out.value, Run(next, events[1..]).1);
      }
    }
  }

  lemma RelatedIsValid(s: State, v: View)
    requires Related(s, v)
    ensures s.Valid()
  {
  }

  const EMPTY_VIEW := View([], false, false)

  lemma AssembledStreamIsConsumable(source: string, events: seq<NormalizedEvent>)
    ensures ConsumeAll(EMPTY_VIEW, Assemble(source, events)).Some?
  {
    RunIsConsumable(Initial(source), EMPTY_VIEW, events);
  }
}
