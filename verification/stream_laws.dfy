/** Laws of assembled streams, stated on the emitted events themselves. */
module StreamLaws {
  import opened Wrappers
  import opened Sequences
  import opened StreamModel

  // ---------- The shape of what is emitted ----------

  function CountStarts(out: seq<StreamEvent>): nat {
    if out == [] then 0 else (if out[0].BlockStart? then 1 else 0) + CountStarts(out[1..])
  }

  /** The deltas emitted for one block, joined. */
  function DeltasOf(out: seq<StreamEvent>, index: nat): string {
    if out == [] then ""
    else (if out[0].BlockDelta? && out[0].index == index then out[0].delta else "") + DeltasOf(out[1..], index)
  }

  /** The block carried by the end event for an index, if there is one. */
  function EndedBlock(out: seq<StreamEvent>, index: nat): Option<Block> {
    if out == [] then None
    else if out[0].BlockEnd? && out[0].index == index then Some(out[0].block)
    else EndedBlock(out[1..], index)
  }

  predicate Touches(e: StreamEvent) {
    e.BlockDelta? || e.BlockEnd?
  }

  /** Indices that later deltas and ends can still carry. */
  function LowestOpen(v: View): int {
    if v.open then |v.seen| - 1 else |v.seen|
  }

  lemma {:induction false} LaterIndices(v: View, out: seq<StreamEvent>, j: nat)
    requires ConsumeAll(v, out).Some? && j < |out| && Touches(out[j])
    ensures out[j].index >= LowestOpen(v)
    decreases out
  {
    if j > 0 {
      LaterIndices(Consume(v, out[0]).value, out[1..], j - 1);
    }
  }

  lemma {:induction false} NothingAfterTerminal(v: View, out: seq<StreamEvent>, i: nat)
    requires ConsumeAll(v, out).Some? && i < |out| && EndsStream(out[i])
    ensures i == |out| - 1
    decreases out
  {
    var next := Consume(v, out[0]).value;
    if i > 0 {
      NothingAfterTerminal(next, out[1..], i - 1);
    }
  }

  lemma {:induction false} StartsCount(v: View, out: seq<StreamEvent>, i: nat)
    requires ConsumeAll(v, out).Some? && i < |out| && out[i].BlockStart?
    ensures out[i].index == |v.seen| + CountStarts(out[..i])
    decreases out
  {
    if i > 0 {
      StartsCount(Consume(v, out[0]).value, out[1..], i - 1);
      assert out[..i][1..] == out[1..][..i - 1];
    }
  }

  /** The start event for an index. */
  function Started(out: seq<StreamEvent>, index: nat): (start: Option<StreamEvent>)
    ensures start.Some? ==> start.value.BlockStart?
  {
    if out == [] then None
    else if out[0].BlockStart? && out[0].index == index then Some(out[0])
    else Started(out[1..], index)
  }

  /** The kind it announces. */
  function StartedKind(out: seq<StreamEvent>, index: nat): Option<Kind> {
    match Started(out, index)
    case Some(start) => Some(start.kind)
    case None => None
  }

  function TouchedKind(e: StreamEvent): Kind
    requires Touches(e)
  {
    if e.BlockDelta? then e.kind else e.block.Kind()
  }

  lemma {:induction false} TouchesNewest(v: View, out: seq<StreamEvent>, j: nat)
    requires ConsumeAll(v, out).Some? && j < |out| && Touches(out[j])
    ensures out[j].index + 1 == |v.seen| + CountStarts(out[..j])
    ensures if out[j].index < |v.seen|
            then v.seen[out[j].index].Growing? && v.seen[out[j].index].kind == TouchedKind(out[j])
            else StartedKind(out[..j], out[j].index) == Some(TouchedKind(out[j]))
    decreases out
  {
    if j > 0 {
      TouchesNewest(Consume(v, out[0]).value, out[1..], j - 1);
      assert out[..j][1..] == out[1..][..j - 1];
    }
  }

  lemma {:induction false} EndIsLastForIndex(v: View, out: seq<StreamEvent>, i: nat, j: nat)
    requires ConsumeAll(v, out).Some? && i < j < |out|
    requires out[i].BlockEnd? && Touches(out[j])
    ensures out[j].index > out[i].index
    decreases out
  {
    var next := Consume(v, out[0]).value;
    if i > 0 {
      EndIsLastForIndex(next, out[1..], i - 1, j - 1);
    } else {
      LaterIndices(next, out[1..], j - 1);
    }
  }

  /**
   * For any normalized events: starts carry 0, 1, 2, ... in order; each delta or end is for the
   * newest started block and has its kind; once an index has ended neither a delta nor another end
   * for it follows; and a terminal event is the last one.
   */
  lemma AssembledStreamShape(source: string, events: seq<NormalizedEvent>)
    ensures var out := Assemble(source, events);
            && (forall i :: 0 <= i < |out| && out[i].BlockStart? ==> out[i].index == CountStarts(out[..i]))
            && (forall j :: 0 <= j < |out| && Touches(out[j]) ==>
                  && out[j].index + 1 == CountStarts(out[..j])
                  && StartedKind(out[..j], out[j].index) == Some(TouchedKind(out[j])))
            && (forall i, j :: 0 <= i < j < |out| && out[i].BlockEnd? && Touches(out[j]) ==>
                  out[j].index > out[i].index)
            && (forall i :: 0 <= i < |out| && EndsStream(out[i]) ==> i == |out| - 1)
  {
    var out := Assemble(source, events);
    AssembledStreamIsConsumable(source, events);
    hide ConsumeAll, Assemble, CountStarts, StartedKind, Started;
    forall i | 0 <= i < |out| && out[i].BlockStart? ensures out[i].index == CountStarts(out[..i]) {
      StartsCount(EMPTY_VIEW, out, i);
    }
    forall j | 0 <= j < |out| && Touches(out[j])
      ensures out[j].index + 1 == CountStarts(out[..j])
           && StartedKind(out[..j], out[j].index) == Some(TouchedKind(out[j]))
    {
      TouchesNewest(EMPTY_VIEW, out, j);
    }
    forall i, j | 0 <= i < j < |out| && out[i].BlockEnd? && Touches(out[j]) ensures out[j].index > out[i].index {
      EndIsLastForIndex(EMPTY_VIEW, out, i, j);
    }
    forall i | 0 <= i < |out| && EndsStream(out[i]) ensures i == |out| - 1 {
      NothingAfterTerminal(EMPTY_VIEW, out, i);
    }
  }

  // ---------- Terminal blocks ----------

  function SeenDeltas(v: View, i: nat): string {
    if i < |v.seen| && v.seen[i].Growing? then v.seen[i].deltas else ""
  }

  function SeenEnd(v: View, i: nat): Option<Block> {
    if i < |v.seen| && v.seen[i].Finished? then Some(v.seen[i].block) else None
  }

  /** The consumer's entry for a block is its end event if there was one, else its joined deltas. */
  lemma {:induction false} EntriesComeFromEvents(v: View, out: seq<StreamEvent>, i: nat)
    requires ConsumeAll(v, out).Some?
    ensures var w := ConsumeAll(v, out).value;
            && |w.seen| >= |v.seen|
            && (SeenEnd(v, i).Some? ==> SeenEnd(w, i) == SeenEnd(v, i))
            && (SeenEnd(v, i).None? ==> SeenEnd(w, i) == EndedBlock(out, i))
            && (i < |w.seen| && w.seen[i].Growing? ==>
                  w.seen[i].deltas == SeenDeltas(v, i) + DeltasOf(out, i))
    decreases out
  {
    if out != [] {
      var next := Consume(v, out[0]).value;
      EntriesComeFromEvents(next, out[1..], i);
      EntryStep(v, out[0], i);
      hide Consume, EndedBlock;
      assert EndedBlock(out, i) == if out[0].BlockEnd? && out[0].index == i then Some(out[0].block)
                                   else EndedBlock(out[1..], i) by { EndedBlockStep(out, i); }
      var delta := if out[0].BlockDelta? && out[0].index == i then out[0].delta else "";
      Assoc(SeenDeltas(v, i), delta, DeltasOf(out[1..], i));
    } else {
      assert SeenDeltas(v, i) + "" == SeenDeltas(v, i);
    }
  }

  lemma EndedBlockStep(out: seq<StreamEvent>, i: nat)
    requires out != []
    ensures EndedBlock(out, i) == if out[0].BlockEnd? && out[0].index == i then Some(out[0].block)
                                  else EndedBlock(out[1..], i)
  {
  }

  lemma EntryStep(v: View, e: StreamEvent, i: nat)
    requires Consume(v, e).Some?
    ensures var w := Consume(v, e).value;
            && |w.seen| >= |v.seen|
            && (SeenEnd(v, i).Some? ==> SeenEnd(w, i) == SeenEnd(v, i))
            && (SeenEnd(v, i).None? ==>
                  SeenEnd(w, i) == if e.BlockEnd? && e.index == i then Some(e.block) else None)
            && (i < |w.seen| && w.seen[i].Growing? ==>
                  w.seen[i].deltas == SeenDeltas(v, i) + if e.BlockDelta? && e.index == i then e.delta else "")
  {
    assert SeenDeltas(v, i) + "" == SeenDeltas(v, i);
  }

  /** Entries are made by start events, one each, and keep what their start says until they end. */
  lemma {:induction false} EntriesComeFromStarts(v: View, out: seq<StreamEvent>, i: nat)
    requires ConsumeAll(v, out).Some?
    ensures var w := ConsumeAll(v, out).value;
            && |w.seen| == |v.seen| + CountStarts(out)
            && (i < |w.seen| && w.seen[i].Growing? ==>
                  if i < |v.seen| then v.seen[i].Growing? && SameStart(w.seen[i], v.seen[i])
                  else Started(out, i).Some? && StartedBy(w.seen[i], Started(out, i).value))
    decreases out
  {
    if out != [] {
      var next := Consume(v, out[0]).value;
      EntriesComeFromStarts(next, out[1..], i);
    }
  }

  predicate SameStart(a: Seen, b: Seen)
    requires a.Growing? && b.Growing?
  {
    a.kind == b.kind && a.callId == b.callId && a.name == b.name
  }

  predicate StartedBy(seen: Seen, start: StreamEvent)
    requires seen.Growing? && start.BlockStart?
  {
    seen.kind == start.kind && seen.callId == start.callId && seen.name == start.name
  }

  /** The events before the last one, consumed, give the view the last one is checked against. */
  lemma {:induction false} ConsumeLast(v: View, out: seq<StreamEvent>)
    requires out != [] && ConsumeAll(v, out).Some?
    ensures var front := ConsumeAll(v, out[..|out| - 1]);
            front.Some? && Consume(front.value, out[|out| - 1]).Some?
    decreases out
  {
    if |out| > 1 {
      ConsumeLast(Consume(v, out[0]).value, out[1..]);
      assert out[..|out| - 1][1..] == out[1..][..|out| - 2];
    }
  }

  function TerminalBlocks(e: StreamEvent): seq<Block>
    requires EndsStream(e)
  {
    match e
    case StreamDone(_, _, _, blocks) => blocks
    case StreamError(_, _, _, blocks) => blocks
    case _ => []
  }

  /** What the start and the deltas of a block say about it while it has not ended. */
  predicate MatchesStart(block: Block, start: StreamEvent, deltas: string)
    requires start.BlockStart?
  {
    match start.kind
    case Text => block == TextBlock(deltas, None)
    case Reasoning => block == ReasoningBlock(deltas, None)
    case ToolCall =>
      block.ToolCallBlock? && block.callId == start.callId && block.name == start.name && block.metadata.None?
  }

  /**
   * The blocks of a terminal event, from the events before it: there is one for every start; a block that
   * ended is the block its end event carried; any other is what its start and its deltas say.
   */
  lemma TerminalBlocksMatchEvents(source: string, events: seq<NormalizedEvent>, i: nat)
    requires var out := Assemble(source, events); out != [] && EndsStream(out[|out| - 1])
    ensures var out := Assemble(source, events);
            var blocks, front := TerminalBlocks(out[|out| - 1]), out[..|out| - 1];
            && |blocks| == CountStarts(front)
            && (i < |blocks| ==>
                  match EndedBlock(front, i)
                  case Some(block) => blocks[i] == block
                  case None =>
                    && Started(front, i).Some?
                    && MatchesStart(blocks[i], Started(front, i).value, DeltasOf(front, i)))
  {
    var out := Assemble(source, events);
    var front := out[..|out| - 1];
    AssembledStreamIsConsumable(source, events);
    ConsumeLast(EMPTY_VIEW, out);
    EntriesComeFromEvents(EMPTY_VIEW, front, i);
    EntriesComeFromStarts(EMPTY_VIEW, front, i);
    hide ConsumeAll, Assemble, DeltasOf, EndedBlock, CountStarts, Started;
    var v := ConsumeAll(EMPTY_VIEW, front).value;
    var blocks := TerminalBlocks(out[|out| - 1]);
    if i < |blocks| {
      assert Agrees(v.seen[i], blocks[i]);
      assert "" + DeltasOf(front, i) == DeltasOf(front, i);
    }
  }

  // ---------- The terminal event ----------

  /** The id of the last `Created` among the events, or the one from before when there is none. */
  ghost predicate LastId(before: Option<string>, events: seq<NormalizedEvent>, id: Option<string>) {
    || ((forall i :: 0 <= i < |events| ==> !events[i].Created?) && id == before)
    || exists i :: 0 <= i < |events| && events[i].Created? && id == Some(events[i].responseId)
                     && forall j :: i < j < |events| ==> !events[j].Created?
  }

  /** A terminal event of the provider and what becomes of it. */
  predicate EndsAs(e: NormalizedEvent, out: StreamEvent, source: string) {
    && (out.StreamDone? || out.StreamError?) && out.source == source
    && (e.Completed? || (e.Incomplete? && e.stopReason != Error) ==> out.StreamDone? && out.stopReason == e.stopReason)
    && (e.Failed? ==> out.StreamError? && out.errorMessage == e.message)
    && (e.Incomplete? && e.stopReason == Error ==>
          && out.StreamError?
          && out.errorMessage == match e.errorMessage
                                 case Some(text) => if text == "" then "OpenAI response incomplete." else text
                                 case None => "OpenAI response incomplete.")
  }

  lemma LastIdStep(before: Option<string>, e: NormalizedEvent, events: seq<NormalizedEvent>, id: Option<string>)
    requires LastId(if e.Created? then Some(e.responseId) else before, events, id)
    ensures LastId(before, [e] + events, id)
  {
    var all := [e] + events;
    assert all[0] == e && forall i {:trigger events[i]} :: 0 <= i < |events| ==> all[i + 1] == events[i];
    assert forall i {:trigger all[i]} :: 1 <= i < |all| ==> all[i] == events[i - 1];
    if exists i :: 0 <= i < |events| && events[i].Created? && id == Some(events[i].responseId)
                     && forall j :: i < j < |events| ==> !events[j].Created? {
      var i :| 0 <= i < |events| && events[i].Created? && id == Some(events[i].responseId)
               && forall j :: i < j < |events| ==> !events[j].Created?;
      assert all[i + 1].Created?;
    } else if e.Created? {
      assert all[0].Created?;
    }
  }

  /** Only `Created` changes the response id, and nothing changes the source. */
  lemma StepKeepsId(s: State, e: NormalizedEvent)
    requires s.Valid()
    ensures var next := Step(s, e).0;
            && next.source == s.source
            && next.responseId == if e.Created? then Some(e.responseId) else s.responseId
  {
  }

  lemma TerminalStep(s: State, e: NormalizedEvent)
    requires s.Valid() && IsTerminal(e)
    ensures Step(s, e).1.Some?
    ensures var out := Step(s, e).1.value; EndsAs(e, out, s.source) && out.response == s.responseId
  {
  }

  lemma {:induction false} RunEndsAs(s: State, events: seq<NormalizedEvent>, k: nat)
    requires s.Valid() && k < |events| && IsTerminal(events[k]) && forall i :: 0 <= i < k ==> !IsTerminal(events[i])
    ensures var out := Run(s, events).1;
            && out != [] && EndsAs(events[k], out[|out| - 1], s.source)
            && LastId(s.responseId, events[..k], out[|out| - 1].response)
    decreases k
  {
    hide Step, IsTerminal;
    if k == 0 {
      TerminalStep(s, events[0]);
    } else {
      var next := Step(s, events[0]).0;
      StepKeepsId(s, events[0]);
      RunEndsAs(next, events[1..], k - 1);
      var out := Run(next, events[1..]).1;
      assert events[..k] == [events[0]] + events[1..][..k - 1];
      LastIdStep(s.responseId, events[0], events[1..][..k - 1], out[|out| - 1].response);
    }
  }

  /**
   * The stream ends as its provider says with the first terminal event: completed or incomplete with the
   * given reason, failed with the given message, or incomplete by an error with its message or a standard
   * one. It carries the source and the id of the last `Created` before that.
   */
  lemma TerminalEventIs(source: string, events: seq<NormalizedEvent>, k: nat)
    requires k < |events| && IsTerminal(events[k]) && forall i :: 0 <= i < k ==> !IsTerminal(events[i])
    ensures var out := Assemble(source, events);
            && out != [] && EndsAs(events[k], out[|out| - 1], source)
            && LastId(None, events[..k], out[|out| - 1].response)
  {
    RunEndsAs(Initial(source), events, k);
  }

  // ---------- Canonical streams ----------

  /** A finished block as the provider describes it. */
  datatype Described =
    | Message(itemId: string, text: string, phase: Option<string>)
    | Thought(summary: string, signature: Option<string>)
    | Call(providerItemId: Option<string>, callId: string, name: string, arguments: Json)

  function Build(d: Described): Block {
    match d
    case Message(itemId, text, phase) =>
      var entries := map["message_id" := itemId];
      TextBlock(text, Some(if phase.Some? then entries["phase" := phase.value] else entries))
    case Thought(summary, signature) =>
      ReasoningBlock(summary, if signature.Some? then Some(map["reasoning_signature" := signature.value]) else None)
    case Call(itemId, callId, name, arguments) =>
      ToolCallBlock(callId, name, arguments, if itemId.Some? then Some(map["provider_item_id" := itemId.value]) else None)
  }

  function Flatten(pieces: seq<string>): string {
    if pieces == [] then "" else pieces[0] + Flatten(pieces[1..])
  }

  function DeltaEvent(kind: Kind, piece: string): NormalizedEvent {
    match kind
    case Text => MessageTextDelta(piece)
    case Reasoning => ReasoningDelta(piece)
    case ToolCall => ToolCallArgumentsDelta(piece)
  }

  function DeltaEvents(kind: Kind, pieces: seq<string>): seq<NormalizedEvent> {
    if pieces == [] then [] else [DeltaEvent(kind, pieces[0])] + DeltaEvents(kind, pieces[1..])
  }

  /** One block's stream: its text split into any pieces, and for reasoning with or without a final summary. */
  datatype Script = Script(block: Described, pieces: seq<string>, firstArguments: Json, summaryOmitted: bool) {
    // An empty final summary keeps the accumulated deltas.
    predicate KeepsDeltas() {
      block.Thought? && (summaryOmitted || block.summary == "")
    }

    /** The block the assembler ends up with. */
    function Assembled(): Block {
      if KeepsDeltas() then Build(block.(summary := Flatten(pieces))) else Build(block)
    }

    /** Deltas that stand in for the summary have to add up to it. */
    predicate Faithful() {
      KeepsDeltas() ==> Flatten(pieces) == block.summary
    }

    function Start(): NormalizedEvent {
      match block
      case Message(_, _, _) => MessageAdded
      case Thought(_, _) => ReasoningAdded
      case Call(_, callId, name, _) => ToolCallAdded(callId, name, firstArguments)
    }

    function End(): NormalizedEvent {
      match block
      case Message(itemId, text, phase) => MessageDone(itemId, text, phase)
      case Thought(summary, signature) => ReasoningDone(if summaryOmitted then "" else summary, signature)
      case Call(itemId, callId, name, arguments) => ToolCallDone(itemId, callId, name, arguments)
    }

    function Kind(): Kind {
      Build(block).Kind()
    }

    function Events(): seq<NormalizedEvent> {
      [Start()] + (DeltaEvents(Kind(), pieces) + [End()])
    }
  }

  function ScriptEvents(scripts: seq<Script>): seq<NormalizedEvent> {
    if scripts == [] then [] else scripts[0].Events() + ScriptEvents(scripts[1..])
  }

  function BuildAll(scripts: seq<Script>): seq<Block> {
    if scripts == [] then [] else [Build(scripts[0].block)] + BuildAll(scripts[1..])
  }

  function AssembledBlocks(scripts: seq<Script>): seq<Block> {
    if scripts == [] then [] else [scripts[0].Assembled()] + AssembledBlocks(scripts[1..])
  }

  lemma {:induction false} AssembledAreDescribed(scripts: seq<Script>)
    ensures |AssembledBlocks(scripts)| == |BuildAll(scripts)|
    ensures AssembledBlocks(scripts) == BuildAll(scripts)
       <==> forall i :: 0 <= i < |scripts| ==> scripts[i].Faithful()
  {
    if scripts != [] {
      AssembledAreDescribed(scripts[1..]);
      assert scripts[0].Assembled() == Build(scripts[0].block) <==> scripts[0].Faithful();
      Cons(scripts[0].Assembled(), AssembledBlocks(scripts[1..]));
      Cons(Build(scripts[0].block), BuildAll(scripts[1..]));
      assert forall i :: 0 < i < |scripts| ==> scripts[i] == scripts[1..][i - 1];
      assert forall i :: 0 <= i < |scripts| - 1 ==> scripts[1..][i] == scripts[i + 1];
    }
  }

  predicate NoTerminal(events: seq<NormalizedEvent>) {
    forall i :: 0 <= i < |events| ==> !IsTerminal(events[i])
  }

  lemma RunOne(s: State, e: NormalizedEvent)
    requires s.Valid() && !IsTerminal(e)
    ensures Run(s, [e]).0 == Step(s, e).0
  {
    hide Step;
    assert [e][1..] == [];
  }

  /** The active block after some deltas: text and reasoning grow, tool-call arguments stay. */
  function Grown(block: Block, text: string): Block {
    match block
    case TextBlock(t, m) => TextBlock(t + text, m)
    case ReasoningBlock(t, m) => ReasoningBlock(t + text, m)
    case ToolCallBlock(_, _, _, _) => block
  }

  lemma OneDelta(s: State, block: Block, piece: string)
    requires s.Valid() && !s.active
    ensures Step(s.Opened(block), DeltaEvent(block.Kind(), piece)).0 == s.Opened(Grown(block, piece))
    ensures !IsTerminal(DeltaEvent(block.Kind(), piece))
  {
    var started := s.Opened(block);
    assert started.blocks[|s.blocks| := Grown(block, piece)] == s.blocks + [Grown(block, piece)];
  }

  lemma GrownTwice(block: Block, a: string, b: string)
    ensures Grown(Grown(block, a), b) == Grown(block, a + b) && Grown(block, "") == block
    ensures Grown(block, a).Kind() == block.Kind()
  {
    match block
    case TextBlock(t, _) => Assoc(t, a, b);
    case ReasoningBlock(t, _) => Assoc(t, a, b);
    case _ =>
  }

  lemma {:induction false} RunDeltas(s: State, block: Block, pieces: seq<string>)
    requires s.Valid() && !s.active
    ensures NoTerminal(DeltaEvents(block.Kind(), pieces))
    ensures Run(s.Opened(block), DeltaEvents(block.Kind(), pieces)).0 == s.Opened(Grown(block, Flatten(pieces)))
    decreases pieces
  {
    hide Step, Grown, IsTerminal;
    GrownTwice(block, "", "");
    if pieces != [] {
      var kind := block.Kind();
      var e, rest := DeltaEvent(kind, pieces[0]), DeltaEvents(kind, pieces[1..]);
      OneDelta(s, block, pieces[0]);
      GrownTwice(block, pieces[0], Flatten(pieces[1..]));
      RunDeltas(s, Grown(block, pieces[0]), pieces[1..]);
      Cons(e, rest);
    }
  }

  lemma OpenAndClose(s: State, script: Script)
    requires s.Valid() && !s.active
    ensures var first := Step(s, script.Start()).0;
            && first == s.Opened(first.blocks[|s.blocks|]) && first.blocks[|s.blocks|].Kind() == script.Kind()
            && var grown := s.Opened(Grown(first.blocks[|s.blocks|], Flatten(script.pieces)));
            Step(grown, script.End()).0 == s.(blocks := s.blocks + [script.Assembled()])
    ensures !IsTerminal(script.Start()) && !IsTerminal(script.End())
  {
    var started := Step(s, script.Start()).0;
    var block := started.blocks[|s.blocks|];
    var grown := Grown(block, Flatten(script.pieces));
    assert "" + Flatten(script.pieces) == Flatten(script.pieces);
    assert (s.blocks + [grown])[|s.blocks| := script.Assembled()] == s.blocks + [script.Assembled()];
  }

  /** One block's script appends exactly that block, finished. */
  lemma RunScript(s: State, script: Script)
    requires s.Valid() && !s.active
    ensures NoTerminal(script.Events())
    ensures Run(s, script.Events()).0 == s.(blocks := s.blocks + [script.Assembled()])
  {
    hide Step, Grown, Run, IsTerminal;
    OpenAndClose(s, script);
    var first := Step(s, script.Start()).0;
    var block := first.blocks[|s.blocks|];
    var deltas := DeltaEvents(script.Kind(), script.pieces);
    RunDeltas(s, block, script.pieces);
    RunOne(s, script.Start());
    RunOne(s.Opened(Grown(block, Flatten(script.pieces))), script.End());
    RunConcat(s, [script.Start()], deltas + [script.End()]);
    RunConcat(first, deltas, [script.End()]);
  }

  lemma {:induction false} RunScripts(s: State, scripts: seq<Script>)
    requires s.Valid() && !s.active
    ensures NoTerminal(ScriptEvents(scripts))
    ensures Run(s, ScriptEvents(scripts)).0 == s.(blocks := s.blocks + AssembledBlocks(scripts))
    decreases scripts
  {
    hide Step, Build, Flatten;
    if scripts == [] {
      assert s.blocks + [] == s.blocks;
    } else {
      var events, rest := scripts[0].Events(), ScriptEvents(scripts[1..]);
      var next := s.(blocks := s.blocks + [scripts[0].Assembled()]);
      RunScript(s, scripts[0]);
      RunScripts(next, scripts[1..]);
      hide Run, IsTerminal;
      RunConcat(s, events, rest);
      Assoc(s.blocks, [scripts[0].Assembled()], AssembledBlocks(scripts[1..]));
    }
  }

  /**
   * Round trip: streaming any finished blocks, their texts cut into deltas in any way, and
   * completing gives those blocks back; deltas that stand in for a summary must add up to it.
   */
  lemma CanonicalStreamRoundTrip(source: string, responseId: string, scripts: seq<Script>, reason: StopReason)
    ensures var events := [Created(responseId)] + (ScriptEvents(scripts) + [Completed(reason)]);
            var out := Assemble(source, events);
            && out != [] && out[|out| - 1].StreamDone?
            && (out[|out| - 1] == StreamDone(source, Some(responseId), reason, BuildAll(scripts))
                <==> forall i :: 0 <= i < |scripts| ==> scripts[i].Faithful())
  {
    AssembledAreDescribed(scripts);
    CanonicalStreamResult(source, responseId, scripts, reason);
    hide Run, Step, AssembledBlocks, BuildAll, ScriptEvents;
  }

  lemma CanonicalStreamResult(source: string, responseId: string, scripts: seq<Script>, reason: StopReason)
    ensures var events := [Created(responseId)] + (ScriptEvents(scripts) + [Completed(reason)]);
            var out := Assemble(source, events);
            && out != []
            && out[|out| - 1] == StreamDone(source, Some(responseId), reason, AssembledBlocks(scripts))
  {
    hide Run, Step, ScriptEvents, AssembledBlocks;
    var s0 := Initial(source);
    var s1 := s0.(responseId := Some(responseId));
    var middle := ScriptEvents(scripts);
    CreatedStep(source, responseId);
    RunOne(s0, Created(responseId));
    RunScripts(s1, scripts);
    assert [] + AssembledBlocks(scripts) == AssembledBlocks(scripts);
    CompletedStep(s1.(blocks := AssembledBlocks(scripts)), reason);
    RunConcat(s0, [Created(responseId)], middle + [Completed(reason)]);
    RunConcat(s1, middle, [Completed(reason)]);
  }

  lemma CreatedStep(source: string, responseId: string)
    ensures Step(Initial(source), Created(responseId)).0 == Initial(source).(responseId := Some(responseId))
  {
  }

  lemma CompletedStep(s: State, reason: StopReason)
    requires !s.active
    ensures Run(s, [Completed(reason)]).1 == [StreamDone(s.source, s.responseId, reason, s.blocks)]
  {
  }
}
