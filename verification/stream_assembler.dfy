/** The stream assembler: blocks live on the heap and the active one is an element of the block list. */
module StreamAssembling {
  import opened Wrappers
  import opened Sequences
  import opened StreamModel

  /** One block as it is mutated while its stream arrives. */
  class BlockObject {
    const kind: Kind
    var text: string        // the text, or a reasoning block's summary
    var callId: string
    var name: string
    var arguments: Json
    var metadata: Metadata

    constructor (kind: Kind, callId: string, name: string, arguments: Json)
      ensures this.kind == kind && text == "" && metadata == None
      ensures this.callId == callId && this.name == name && this.arguments == arguments
    {
      this.kind := kind;
      this.text := "";
      this.callId := callId;
      this.name := name;
      this.arguments := arguments;
      this.metadata := None;
    }

    /** An isolated copy of the block. */
    function Copy(): Block
      reads this
    {
      match kind
      case Text => TextBlock(text, metadata)
      case Reasoning => ReasoningBlock(text, metadata)
      case ToolCall => ToolCallBlock(callId, name, arguments, metadata)
    }
  }

  function Copies(blocks: seq<BlockObject>): (copies: seq<Block>)
    reads blocks
    ensures |copies| == |blocks|
  {
    seq(|blocks|, i requires 0 <= i < |blocks| reads blocks => blocks[i].Copy())
  }

  class StreamAssemblyState {
    const source: string
    var responseId: Option<string>
    var blocks: seq<BlockObject>
    var activeBlock: BlockObject?
    var activeBlockIndex: Option<nat>

    /** Blocks are distinct objects, and the active block aliases the last element of the list. */
    ghost predicate Valid()
      reads this
    {
      && (forall i, j :: 0 <= i < j < |blocks| ==> blocks[i] != blocks[j])
      && (activeBlock == null <==> activeBlockIndex == None)
      && (activeBlock != null ==>
            blocks != [] && activeBlockIndex == Some(|blocks| - 1) && activeBlock == blocks[|blocks| - 1])
    }

    /** What the state means, as values. */
    ghost function Abstract(): (s: State)
      requires Valid()
      reads this, blocks
      ensures s.Valid()
    {
      State(source, responseId, Copies(blocks), activeBlock != null)
    }

    constructor (source: string)
      ensures Valid() && Abstract() == Initial(source)
    {
      this.source := source;
      this.responseId := None;
      this.blocks := [];
      this.activeBlock := null;
      this.activeBlockIndex := None;
    }

    ghost function Footprint(): set<object>
      reads this
    {
      {this} + if activeBlock == null then {} else {activeBlock}
    }

    method AppendActiveBlock(block: BlockObject) returns (index: nat)
      requires Valid() && block !in blocks
      modifies this
      ensures Valid() && index == |old(blocks)|
      ensures blocks == old(blocks) + [block] && activeBlock == block && responseId == old(responseId)
    {
      index := |blocks|;
      blocks := blocks + [block];
      activeBlock := block;
      activeBlockIndex := Some(index);
    }

    method ClearActiveBlock()
      requires Valid()
      modifies this
      ensures Valid() && activeBlock == null && blocks == old(blocks) && responseId == old(responseId)
    {
      activeBlock := null;
      activeBlockIndex := None;
    }

    /** The active block and its index, when it is of the given kind. */
    method ActiveBlock(kind: Kind) returns (active: Option<(BlockObject, nat)>)
      requires Valid()
      ensures active.Some? <==> Abstract().Writing(kind)
      ensures active.Some? ==>
                && active.value == (blocks[|blocks| - 1], |blocks| - 1) && activeBlock == active.value.0
                && activeBlock.kind == kind && Copies(blocks)[|blocks| - 1] == activeBlock.Copy()
    {
      if activeBlock == null || activeBlock.kind != kind || activeBlockIndex == None {
        return None;
      }
      return Some((activeBlock, activeBlockIndex.value));
    }

    /** Nothing but the last block was rewritten, and its new value is `block`. */
    twostate lemma LastRewritten(block: Block)
      requires old(Valid()) && old(activeBlock) != null && blocks == old(blocks)
      requires forall b :: b in blocks && b != old(activeBlock) ==> unchanged(b)
      requires blocks[|blocks| - 1].Copy() == block
      ensures Copies(blocks) == old(Copies(blocks))[|blocks| - 1 := block]
    {
      forall i | 0 <= i < |blocks| - 1 ensures Copies(blocks)[i] == old(Copies(blocks))[i] {
        assert blocks[i] in blocks && blocks[i] != old(activeBlock);
      }
    }

    twostate lemma NewBlockAppended()
      requires old(Valid()) && |blocks| == |old(blocks)| + 1 && old(blocks) <= blocks
      requires forall b :: b in old(blocks) ==> unchanged(b)
      ensures Copies(blocks) == old(Copies(blocks)) + [blocks[|blocks| - 1].Copy()]
    {
      forall i | 0 <= i < |old(blocks)| ensures Copies(blocks)[i] == old(Copies(blocks))[i] {
        assert blocks[i] == old(blocks)[i] && blocks[i] in old(blocks);
      }
    }

    // ---------- One method per event ----------

    method RecordCreated(id: string) returns (out: Option<StreamEvent>)
      requires Valid()
      modifies this
      ensures Valid() && blocks == old(blocks)
      ensures (Abstract(), out) == Step(old(Abstract()), Created(id))
    {
      responseId := Some(id);
      out := Some(StreamStart(source, id));
    }

    method StartReasoningBlock() returns (out: Option<StreamEvent>)
      requires Valid()
      modifies this
      ensures Valid() && |blocks| == |old(blocks)| + 1 && old(blocks) <= blocks && fresh(blocks[|blocks| - 1])
      ensures (Abstract(), out) == Step(old(Abstract()), ReasoningAdded)
    {
      var block := new BlockObject(Reasoning, "", "", Json(""));
      var index := AppendActiveBlock(block);
      NewBlockAppended();
      out := Some(BlockStart(index, Reasoning, "", ""));
    }

    method StartTextBlock() returns (out: Option<StreamEvent>)
      requires Valid()
      modifies this
      ensures Valid() && |blocks| == |old(blocks)| + 1 && old(blocks) <= blocks && fresh(blocks[|blocks| - 1])
      ensures (Abstract(), out) == Step(old(Abstract()), MessageAdded)
    {
      var block := new BlockObject(Text, "", "", Json(""));
      var index := AppendActiveBlock(block);
      NewBlockAppended();
      out := Some(BlockStart(index, Text, "", ""));
    }

    method StartToolCallBlock(callId: string, name: string, arguments: Json) returns (out: Option<StreamEvent>)
      requires Valid()
      modifies this
      ensures Valid() && |blocks| == |old(blocks)| + 1 && old(blocks) <= blocks && fresh(blocks[|blocks| - 1])
      ensures (Abstract(), out) == Step(old(Abstract()), ToolCallAdded(callId, name, arguments))
    {
      var block := new BlockObject(ToolCall, callId, name, arguments);
      var index := AppendActiveBlock(block);
      NewBlockAppended();
      out := Some(BlockStart(index, ToolCall, callId, name));
    }

    method AppendArgumentsDelta(delta: string) returns (out: Option<StreamEvent>)
      requires Valid()
      ensures (Abstract(), out) == Step(Abstract(), ToolCallArgumentsDelta(delta))
    {
      var active := ActiveBlock(ToolCall);
      if active.None? {
        return None;
      }
      out := Some(BlockDelta(active.value.1, ToolCall, delta));
    }

    /** A terminal event carries copies of the blocks. */
    method BuildTerminalEvent(event: NormalizedEvent) returns (out: Option<StreamEvent>)
      requires Valid() && IsTerminal(event)
      ensures (Abstract(), out) == Step(Abstract(), event)
    {
      match event {
        case Completed(reason) =>
          out := Some(StreamDone(source, responseId, reason, Copies(blocks)));
        case Incomplete(reason, message) =>
          if reason == Error {
            var text := if message.Some? && message.value != "" then message.value else "OpenAI response incomplete.";
            out := Some(StreamError(source, responseId, text, Copies(blocks)));
          } else {
            out := Some(StreamDone(source, responseId, reason, Copies(blocks)));
          }
        case Failed(message) =>
          out := Some(StreamError(source, responseId, message, Copies(blocks)));
      }
    }

    method AppendDelta(kind: Kind, delta: string) returns (out: Option<StreamEvent>)
      requires Valid() && kind != ToolCall
      modifies Footprint()
      ensures Valid() && blocks == old(blocks)
      ensures (Abstract(), out)
           == Step(old(Abstract()), if kind == Text then MessageTextDelta(delta) else ReasoningDelta(delta))
      ensures forall b :: b in blocks && b != old(activeBlock) ==> unchanged(b)
    {
      hide Copies;
      var active := ActiveBlock(kind);
      if active.None? {
        return None;
      }
      var (block, index) := active.value;
      block.text := block.text + delta;
      LastRewritten(block.Copy());
      out := Some(BlockDelta(index, kind, delta));
    }

    method ReplaceArguments(arguments: Json)
      requires Valid()
      modifies Footprint()
      ensures Valid() && blocks == old(blocks)
      ensures (Abstract(), None) == Step(old(Abstract()), ToolCallArgumentsDone(arguments))
      ensures forall b :: b in blocks && b != old(activeBlock) ==> unchanged(b)
    {
      if activeBlock != null && activeBlock.kind == ToolCall {
        activeBlock.arguments := arguments;
        LastRewritten(activeBlock.Copy());
      }
    }

    method FinalizeReasoning(summary: string, signature: Option<string>) returns (out: Option<StreamEvent>)
      requires Valid()
      modifies Footprint()
      ensures Valid() && blocks == old(blocks)
      ensures (Abstract(), out) == Step(old(Abstract()), ReasoningDone(summary, signature))
      ensures forall b :: b in blocks && b != old(activeBlock) ==> unchanged(b)
    {
      hide Copies;
      var active := ActiveBlock(Reasoning);
      if active.None? {
        return None;
      }
      var (block, index) := active.value;
      if summary != "" {
        block.text := summary;
      }
      block.metadata := MetadataOf("reasoning_signature", signature);
      LastRewritten(block.Copy());
      out := Some(BlockEnd(index, block.Copy()));
      ClearActiveBlock();
    }

    method FinalizeText(itemId: string, text: string, phase: Option<string>) returns (out: Option<StreamEvent>)
      requires Valid()
      modifies Footprint()
      ensures Valid() && blocks == old(blocks)
      ensures (Abstract(), out) == Step(old(Abstract()), MessageDone(itemId, text, phase))
      ensures forall b :: b in blocks && b != old(activeBlock) ==> unchanged(b)
    {
      hide Copies;
      var active := ActiveBlock(Text);
      if active.None? {
        return None;
      }
      var (block, index) := active.value;
      block.text := text;
      block.metadata := MessageMetadata(itemId, phase);
      LastRewritten(block.Copy());
      out := Some(BlockEnd(index, block.Copy()));
      ClearActiveBlock();
    }

    method FinalizeToolCall(itemId: Option<string>, callId: string, name: string, arguments: Json)
      returns (out: Option<StreamEvent>)
      requires Valid()
      modifies Footprint()
      ensures Valid() && blocks == old(blocks)
      ensures (Abstract(), out) == Step(old(Abstract()), ToolCallDone(itemId, callId, name, arguments))
      ensures forall b :: b in blocks && b != old(activeBlock) ==> unchanged(b)
    {
      hide Copies;
      var active := ActiveBlock(ToolCall);
      if active.None? {
        return None;
      }
      var (block, index) := active.value;
      block.callId := callId;
      block.name := name;
      block.arguments := arguments;
      block.metadata := MetadataOf("provider_item_id", itemId);
      LastRewritten(block.Copy());
      out := Some(BlockEnd(index, block.Copy()));
      ClearActiveBlock();
    }

    /** Handles one event exactly as the value model does, touching no block but the active one. */
    method HandleEvent(event: NormalizedEvent) returns (out: Option<StreamEvent>)
      requires Valid()
      modifies Footprint()
      ensures Valid()
      ensures (Abstract(), out) == Step(old(Abstract()), event)
      ensures old(blocks) <= blocks && forall i :: |old(blocks)| <= i < |blocks| ==> fresh(blocks[i])
      ensures forall b :: b in old(blocks) && b != old(activeBlock) ==> unchanged(b)
    {
      hide Step, Copies;
      match event {
        case Created(id) => out := RecordCreated(id);
        case ReasoningAdded => out := StartReasoningBlock();
        case ReasoningDelta(delta) => out := AppendDelta(Reasoning, delta);
        case ReasoningDone(summary, signature) => out := FinalizeReasoning(summary, signature);
        case MessageAdded => out := StartTextBlock();
        case MessageTextDelta(delta) => out := AppendDelta(Text, delta);
        case MessageDone(itemId, text, phase) => out := FinalizeText(itemId, text, phase);
        case ToolCallAdded(callId, name, arguments) => out := StartToolCallBlock(callId, name, arguments);
        case ToolCallArgumentsDelta(delta) => out := AppendArgumentsDelta(delta);
        case ToolCallArgumentsDone(arguments) =>
          ReplaceArguments(arguments);
          out := None;
        case ToolCallDone(itemId, callId, name, arguments) =>
          out := FinalizeToolCall(itemId, callId, name, arguments);
        case _ => out := BuildTerminalEvent(event);
      }
    }
  }

  /** The assembling loop over a whole normalized stream. */
  method AssembleStream(source: string, events: seq<NormalizedEvent>) returns (out: seq<StreamEvent>)
    ensures out == Assemble(source, events)
  {
    var state := new StreamAssemblyState(source);
    out := [];
    var i := 0;
    assert events[0..] == events && [] + Assemble(source, events) == Assemble(source, events);
    hide Step, Run;
    while i < |events|
      invariant 0 <= i <= |events|
      invariant state.Valid() && fresh(state) && forall j :: 0 <= j < |state.blocks| ==> fresh(state.blocks[j])
      invariant Assemble(source, events) == out + Run(state.Abstract(), events[i..]).1
    {
      RunUnfold(state.Abstract(), events, i, out);
      var adapted := state.HandleEvent(events[i]);
      if adapted.Some? {
        out := out + [adapted.value];
      }
      if IsTerminal(events[i]) {
        return;
      }
      i := i + 1;
    }
    RunUnfold(state.Abstract(), events, i, out);
  }

  lemma RunUnfold(s: State, events: seq<NormalizedEvent>, i: nat, out: seq<StreamEvent>)
    requires s.Valid() && i <= |events|
    ensures out + Run(s, events[i..]).1
         == if i == |events| then out
            else var (next, event) := Step(s, events[i]);
                 var extended := if event.Some? then out + [event.value] else out;
                 if IsTerminal(events[i]) then extended else extended + Run(next, events[i + 1..]).1
  {
    hide Step, IsTerminal;
    if i < |events| {
      var (next, event) := Step(s, events[i]);
      DropDrop(events, i, 1);
      Assoc(out, Emitted(event), Run(next, events[i + 1..]).1);
    }
  }
}
