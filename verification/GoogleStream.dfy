/** Building content blocks and their start/delta/end events from streamed parts
    (src/agents/google-transport-stream.ts). */
module GoogleStream {
  import opened Common

  datatype Call = Call(id: string, name: string, arguments: string)

  /** One part of a candidate: some text (thinking or not), a function call, both, or neither. */
  datatype Part = Part(text: Option<string>, thought: bool, functionCall: Option<Call>)

  datatype Block = Thinking(text: string) | Text(text: string) | ToolCall(id: string, name: string, arguments: string)

  datatype Kind = ThinkingKind | TextKind | ToolKind

  datatype Event =
    | Start(kind: Kind, index: nat)
    | Delta(kind: Kind, index: nat, delta: string)
    | End(kind: Kind, index: nat, final: Block)

  function KindOf(b: Block): Kind {
    match b case Thinking(_) => ThinkingKind case Text(_) => TextKind case ToolCall(_, _, _) => ToolKind
  }

  // ----- reference: the content a list of parts stands for -----

  /** Text joins the last block when that block is of the same kind; otherwise it opens a new one. */
  function AddText(content: seq<Block>, thought: bool, text: string): seq<Block> {
    var n := |content| - 1;
    if n >= 0 && thought && content[n].Thinking? then content[n := Thinking(content[n].text + text)]
    else if n >= 0 && !thought && content[n].Text? then content[n := Text(content[n].text + text)]
    else content + [if thought then Thinking(text) else Text(text)]
  }

  predicate HasToolId(content: seq<Block>, id: string) {
    exists i :: 0 <= i < |content| && content[i].ToolCall? && content[i].id == id
  }

  /** A provided id is kept unless it is empty or taken; then a generated one is used. */
  function ToolId(content: seq<Block>, call: Call, generated: string): string {
    if call.id != "" && !HasToolId(content, call.id) then call.id else generated
  }

  function AddPart(content: seq<Block>, part: Part, generated: string): seq<Block> {
    var withText := if part.text.Some? then AddText(content, part.thought, part.text.value) else content;
    match part.functionCall
    case None => withText
    case Some(call) => withText + [ToolCall(ToolId(withText, call, generated), call.name, call.arguments)]
  }

  ghost predicate DistinctToolIds(content: seq<Block>) {
    forall i, j :: 0 <= i < j < |content| && content[i].ToolCall? && content[j].ToolCall? ==>
      content[i].id != content[j].id
  }

  /** Tool-call ids stay distinct as long as the generated id is not already taken. */
  lemma ToolIdsStayDistinct(content: seq<Block>, part: Part, generated: string)
    requires DistinctToolIds(content) && !HasToolId(content, generated)
    ensures DistinctToolIds(AddPart(content, part, generated))
  {
    var withText := if part.text.Some? then AddText(content, part.thought, part.text.value) else content;
    assert DistinctToolIds(withText);
    assert !HasToolId(withText, generated) by {
      assert forall i :: 0 <= i < |withText| && withText[i].ToolCall? ==> i < |content| && withText[i] == content[i];
    }
    if part.functionCall.Some? {
      var id := ToolId(withText, part.functionCall.value, generated);
      assert !HasToolId(withText, id);
    }
  }

  // ----- reference: a consumer of the event stream -----

  /** The blocks a consumer has put together, and the one still open. */
  datatype View = View(blocks: seq<Block>, open: Option<nat>)

  function EmptyBlock(kind: Kind): Block {
    match kind case ThinkingKind => Thinking("") case TextKind => Text("") case ToolKind => ToolCall("", "", "")
  }

  /** One event as the consumer sees it; `None` when the event breaks the bracketing. */
  function Receive(v: View, e: Event): Option<View> {
    match e
    case Start(kind, i) =>
      if v.open.None? && i == |v.blocks| then Some(View(v.blocks + [EmptyBlock(kind)], Some(i))) else None
    case Delta(kind, i, d) =>
      if v.open == Some(i) && i < |v.blocks| && KindOf(v.blocks[i]) == kind then
        Some(v.(blocks := v.blocks[i := Grown(v.blocks[i], d)]))
      else None
    case End(kind, i, final) =>
      if v.open == Some(i) && i < |v.blocks| && KindOf(v.blocks[i]) == kind && Closes(v.blocks[i], final) then
        Some(View(v.blocks[i := final], None))
      else None
  }

  function Grown(b: Block, d: string): Block {
    match b
    case Thinking(t) => Thinking(t + d)
    case Text(t) => Text(t + d)
    case ToolCall(id, name, a) => ToolCall(id, name, a + d)
  }

  /** The final block of an end event repeats what the deltas built; a tool call adds its id and name. */
  predicate Closes(built: Block, final: Block) {
    if built.ToolCall? then final.ToolCall? && final.arguments == built.arguments else final == built
  }

  function Replay(events: seq<Event>): Option<View> {
    if events == [] then Some(View([], None))
    else
      var before := Replay(events[..|events| - 1]);
      if before.None? then None else Receive(before.value, events[|events| - 1])
  }

  lemma ReplayMore(events: seq<Event>, e: Event)
    ensures Replay(events + [e]) == (if Replay(events).None? then None else Receive(Replay(events).value, e))
  {
    assert (events + [e])[..|events + [e]| - 1] == events;
  }

  /** The three events of a tool call open, fill and close one block. */
  lemma ToolCallEvents(content: seq<Block>, toolCall: Block)
    requires toolCall.ToolCall?
    ensures var i := |content|;
            var opening := Receive(View(content, None), Start(ToolKind, i));
            && opening.Some?
            && var filled := Receive(opening.value, Delta(ToolKind, i, toolCall.arguments));
            && filled.Some?
            && Receive(filled.value, End(ToolKind, i, toolCall)) == Some(View(content + [toolCall], None))
  {
    var i := |content|;
    var v1 := View(content + [EmptyBlock(ToolKind)], Some(i));
    assert "" + toolCall.arguments == toolCall.arguments;
    var v2 := View(content + [ToolCall("", "", toolCall.arguments)], Some(i));
    assert Grown(v1.blocks[i], toolCall.arguments) == v2.blocks[i];
    assert v1.blocks[i := v2.blocks[i]] == v2.blocks;
    assert Receive(v1, Delta(ToolKind, i, toolCall.arguments)) == Some(v2);
    assert v2.blocks[i := toolCall] == content + [toolCall];
  }

  // ----- the builder -----

  class Builder {
    var content: seq<Block>
    var currentBlockIndex: int
    var events: seq<Event>

    constructor ()
      ensures content == [] && events == [] && Valid()
    {
      content, currentBlockIndex, events := [], -1, [];
    }

    /** The events replay to exactly the content built so far, and the open block is the last one
        unless that is a tool call. */
    ghost predicate Valid()
      reads this
    {
      && currentBlockIndex == (if content == [] || content[|content| - 1].ToolCall? then -1 else |content| - 1)
      && Replay(events) == Some(View(content, if currentBlockIndex >= 0 then Some(currentBlockIndex) else None))
    }

    method Push(e: Event)
      modifies `events
      ensures events == old(events) + [e]
      ensures Replay(events) ==
              (if Replay(old(events)).None? then None else Receive(Replay(old(events)).value, e))
    {
      ReplayMore(events, e);
      events := events + [e];
    }

    method PushTextBlockEnd(blockIndex: nat)
      requires blockIndex < |content| && !content[blockIndex].ToolCall?
      modifies `events
      ensures old(events) <= events
      ensures Replay(old(events)) == Some(View(content, Some(blockIndex))) ==>
              Replay(events) == Some(View(content, None))
    {
      Push(End(KindOf(content[blockIndex]), blockIndex, content[blockIndex]));
      assert content[blockIndex := content[blockIndex]] == content;
    }

    method HandleText(text: string, isThinking: bool)
      requires Valid()
      modifies this
      ensures Valid() && content == AddText(old(content), isThinking, text) && old(events) <= events
    {
      assert "" + text == text;
      if currentBlockIndex < 0
         || (isThinking && !content[currentBlockIndex].Thinking?)
         || (!isThinking && !content[currentBlockIndex].Text?)
      {
        if currentBlockIndex >= 0 {
          PushTextBlockEnd(currentBlockIndex);
        }
        StartBlock(isThinking);
      }
      AppendDelta(text);
    }

    method StartBlock(isThinking: bool)
      requires Replay(events) == Some(View(content, None))
      modifies this
      ensures content == old(content) + [if isThinking then Thinking("") else Text("")]
      ensures Valid() && old(events) <= events
    {
      content := content + [if isThinking then Thinking("") else Text("")];
      currentBlockIndex := |content| - 1;
      Push(Start(KindOf(content[currentBlockIndex]), currentBlockIndex));
    }

    method AppendDelta(text: string)
      requires Valid() && 0 <= currentBlockIndex
      modifies this
      ensures content == old(content[currentBlockIndex := Grown(content[currentBlockIndex], text)])
      ensures Valid() && old(events) <= events
    {
      var active := content[currentBlockIndex];
      content := content[currentBlockIndex := Grown(active, text)];
      Push(Delta(KindOf(active), currentBlockIndex, text));
    }

    method HandleCall(call: Call, generated: string)
      requires Valid()
      modifies this
      ensures Valid() && old(events) <= events
      ensures content == old(content) + [ToolCall(ToolId(old(content), call, generated), call.name, call.arguments)]
    {
      if currentBlockIndex >= 0 {
        PushTextBlockEnd(currentBlockIndex);
        currentBlockIndex := -1;
      }
      PushToolCall(ToolCall(ToolId(content, call, generated), call.name, call.arguments));
    }

    method PushToolCall(toolCall: Block)
      requires Replay(events) == Some(View(content, None)) && currentBlockIndex == -1 && toolCall.ToolCall?
      modifies this
      ensures Valid() && old(events) <= events && content == old(content) + [toolCall]
    {
      hide Receive, Replay;
      ToolCallEvents(content, toolCall);
      content := content + [toolCall];
      var blockIndex := |content| - 1;
      Push(Start(ToolKind, blockIndex));
      Push(Delta(ToolKind, blockIndex, toolCall.arguments));
      Push(End(ToolKind, blockIndex, toolCall));
    }

    method HandlePart(part: Part, generated: string)
      requires Valid()
      modifies this
      ensures Valid() && content == AddPart(old(content), part, generated) && old(events) <= events
    {
      if part.text.Some? {
        HandleText(part.text.value, part.thought);
      }
      if part.functionCall.Some? {
        HandleCall(part.functionCall.value, generated);
      }
    }

    /** The end of a normal stream: whatever is open is closed. */
    method Finish()
      requires Valid()
      modifies `events
      ensures content == old(content) && old(events) <= events
      ensures Replay(events) == Some(View(content, None))
    {
      if currentBlockIndex >= 0 {
        PushTextBlockEnd(currentBlockIndex);
      }
    }
  }

  // ----- what acceptance by the consumer means -----

  /** The indices of the start events, in order. */
  ghost function Starts(events: seq<Event>): seq<nat> {
    if events == [] then []
    else Starts(events[..|events| - 1]) + if events[|events| - 1].Start? then [events[|events| - 1].index] else []
  }

  ghost function Ends(events: seq<Event>): seq<nat> {
    if events == [] then []
    else Ends(events[..|events| - 1]) + if events[|events| - 1].End? then [events[|events| - 1].index] else []
  }

  /** All deltas of block `i`, concatenated. */
  ghost function DeltaText(events: seq<Event>, i: nat): string {
    if events == [] then ""
    else
      var last := events[|events| - 1];
      DeltaText(events[..|events| - 1], i) + if last.Delta? && last.index == i then last.delta else ""
  }

  ghost function UpTo(n: nat): seq<nat> {
    if n == 0 then [] else UpTo(n - 1) + [n - 1]
  }

  function BodyOf(b: Block): string {
    if b.ToolCall? then b.arguments else b.text
  }

  ghost predicate Bracketed(events: seq<Event>, v: View) {
    && (v.open.Some? ==> v.open.value == |v.blocks| - 1)
    && Starts(events) == UpTo(|v.blocks|)
    && Ends(events) == UpTo(if v.open.Some? then |v.blocks| - 1 else |v.blocks|)
    && (forall i: nat :: DeltaText(events, i) == if i < |v.blocks| then BodyOf(v.blocks[i]) else "")
  }

  /** An accepted stream opens blocks 0, 1, 2, ... one at a time, ends each exactly once, and the
      body of every block is the concatenation of its deltas. */
  lemma {:induction false} AcceptedStreamIsBracketed(events: seq<Event>)
    requires Replay(events).Some?
    ensures Bracketed(events, Replay(events).value)
  {
    if events != [] {
      var before := events[..|events| - 1];
      AcceptedStreamIsBracketed(before);
      BracketedMore(before, events[|events| - 1], Replay(before).value);
      assert before + [events[|events| - 1]] == events;
    }
  }

  lemma BracketedMore(before: seq<Event>, e: Event, v: View)
    requires Bracketed(before, v) && Receive(v, e).Some?
    ensures Bracketed(before + [e], Receive(v, e).value)
  {
    hide Starts, Ends, DeltaText;
    LogMore(before, e);
    var after := Receive(v, e).value;
    forall i: nat
      ensures DeltaText(before + [e], i) == if i < |after.blocks| then BodyOf(after.blocks[i]) else ""
    {
      LogMoreDelta(before, e, i);
    }
  }

  lemma LogMore(before: seq<Event>, e: Event)
    ensures Starts(before + [e]) == Starts(before) + if e.Start? then [e.index] else []
    ensures Ends(before + [e]) == Ends(before) + if e.End? then [e.index] else []
  {
    assert (before + [e])[..|before + [e]| - 1] == before;
  }

  lemma LogMoreDelta(before: seq<Event>, e: Event, i: nat)
    ensures DeltaText(before + [e], i) == DeltaText(before, i) + if e.Delta? && e.index == i then e.delta else ""
  {
    assert (before + [e])[..|before + [e]| - 1] == before;
  }

  /** In an accepted stream every end event carries the concatenation of its block's deltas. */
  lemma {:induction false} EndsCarryTheirDeltas(events: seq<Event>, k: nat)
    requires Replay(events).Some? && k < |events| && events[k].End?
    ensures BodyOf(events[k].final) == DeltaText(events, events[k].index)
  {
    var before := events[..|events| - 1];
    AcceptedStreamIsBracketed(before);
    if k < |events| - 1 {
      EndsCarryTheirDeltas(before, k);
      LaterDeltasGoElsewhere(events, k);
    }
  }

  /** Once block `i` is closed, it is never the open one again. */
  lemma {:induction false} LaterDeltasGoElsewhere(events: seq<Event>, k: nat)
    requires Replay(events).Some? && k < |events| && events[k].End?
    ensures var v := Replay(events).value;
            events[k].index < |v.blocks| && v.open != Some(events[k].index)
    ensures k < |events| - 1 ==>
              var before := Replay(events[..|events| - 1]);
              before.Some? && before.value.open != Some(events[k].index)
  {
    if k < |events| - 1 {
      LaterDeltasGoElsewhere(events[..|events| - 1], k);
    }
  }

  // ----- what the content says, character by character -----

  /** A character of a thought, a character of the answer, or a call. */
  datatype Atom = Thought(c: char) | Said(c: char) | Called(name: string, arguments: string)

  function TextAtoms(text: string, thought: bool): (r: seq<Atom>)
    ensures |r| == |text|
    ensures forall i :: 0 <= i < |r| ==> r[i] == if thought then Thought(text[i]) else Said(text[i])
  {
    seq(|text|, i requires 0 <= i < |text| => if thought then Thought(text[i]) else Said(text[i]))
  }

  function BlockAtoms(b: Block): seq<Atom> {
    match b
    case Thinking(text) => TextAtoms(text, true)
    case Text(text) => TextAtoms(text, false)
    case ToolCall(_, name, arguments) => [Called(name, arguments)]
  }

  function Atoms(content: seq<Block>): seq<Atom> {
    if content == [] then [] else Atoms(content[..|content| - 1]) + BlockAtoms(content[|content| - 1])
  }

  function PartAtoms(part: Part): seq<Atom> {
    (match part.text case Some(text) => TextAtoms(text, part.thought) case None => [])
    + (match part.functionCall case Some(call) => [Called(call.name, call.arguments)] case None => [])
  }

  function AtomsOfParts(parts: seq<Part>): seq<Atom> {
    if parts == [] then [] else AtomsOfParts(parts[..|parts| - 1]) + PartAtoms(parts[|parts| - 1])
  }

  /** The content after these parts, with one generated id at hand for each. */
  function ContentOf(parts: seq<Part>, generated: seq<string>): seq<Block>
    requires |generated| == |parts|
  {
    if parts == [] then []
    else
      var n := |parts| - 1;
      AddPart(ContentOf(parts[..n], generated[..n]), parts[n], generated[n])
  }

  /** Neighbouring blocks are of different kinds, tool calls excepted. */
  predicate NeighboursDiffer(content: seq<Block>) {
    forall i :: 0 < i < |content| && !content[i].ToolCall? ==> KindOf(content[i - 1]) != KindOf(content[i])
  }

  lemma AtomsSnoc(content: seq<Block>, b: Block)
    ensures Atoms(content + [b]) == Atoms(content) + BlockAtoms(b)
  {
    assert (content + [b])[..|content|] == content;
  }

  lemma TextAtomsAppend(a: string, b: string, thought: bool)
    ensures TextAtoms(a + b, thought) == TextAtoms(a, thought) + TextAtoms(b, thought)
  {
  }

  lemma TextSaysWhatItSays(content: seq<Block>, thought: bool, text: string)
    requires NeighboursDiffer(content)
    ensures var after := AddText(content, thought, text);
            NeighboursDiffer(after) && Atoms(after) == Atoms(content) + TextAtoms(text, thought)
  {
    hide Atoms, BlockAtoms, TextAtoms;
    var after, n := AddText(content, thought, text), |content| - 1;
    if |after| == |content| {
      var front := content[..n];
      assert content == front + [content[n]] && after == front + [after[n]];
      AtomsSnoc(front, content[n]);
      AtomsSnoc(front, after[n]);
      TextAtomsAppend(content[n].text, text, thought);
      BlockSays(content[n]);
      BlockSays(after[n]);
    } else {
      AtomsSnoc(content, after[n + 1]);
      BlockSays(after[n + 1]);
    }
  }

  lemma BlockSays(b: Block)
    ensures b.Thinking? ==> BlockAtoms(b) == TextAtoms(b.text, true)
    ensures b.Text? ==> BlockAtoms(b) == TextAtoms(b.text, false)
    ensures b.ToolCall? ==> BlockAtoms(b) == [Called(b.name, b.arguments)]
  {
    hide TextAtoms;
  }

  lemma PartSaysWhatItSays(content: seq<Block>, part: Part, generated: string)
    requires NeighboursDiffer(content)
    ensures var after := AddPart(content, part, generated);
            NeighboursDiffer(after) && Atoms(after) == Atoms(content) + PartAtoms(part)
  {
    hide Atoms, TextAtoms, AddText, ToolId;
    var withText := if part.text.Some? then AddText(content, part.thought, part.text.value) else content;
    if part.text.Some? {
      TextSaysWhatItSays(content, part.thought, part.text.value);
    }
    if part.functionCall.Some? {
      var call := part.functionCall.value;
      var last := ToolCall(ToolId(withText, call, generated), call.name, call.arguments);
      AtomsSnoc(withText, last);
      assert BlockAtoms(last) == [Called(call.name, call.arguments)];
    }
  }

  /** For every list of parts, the content says exactly what the parts say, in their order: each thought character as a
      thought, each other one as answer, each call with its name and arguments; and no two neighbouring text blocks are
      of one kind. */
  lemma {:induction false} ContentSaysWhatPartsSay(parts: seq<Part>, generated: seq<string>)
    requires |generated| == |parts|
    ensures var content := ContentOf(parts, generated);
            Atoms(content) == AtomsOfParts(parts) && NeighboursDiffer(content)
  {
    hide Atoms, AddPart, NeighboursDiffer, PartAtoms;
    if parts == [] {
      NothingSaid();
    } else {
      var n := |parts| - 1;
      ContentSaysWhatPartsSay(parts[..n], generated[..n]);
      PartSaysWhatItSays(ContentOf(parts[..n], generated[..n]), parts[n], generated[n]);
    }
  }

  lemma NothingSaid()
    ensures Atoms([]) == [] && NeighboursDiffer([])
  {
  }

  /** What the events say: the deltas of text, by kind, and the calls that have ended. */
  function EventAtoms(e: Event): seq<Atom> {
    match e
    case Delta(ThinkingKind, _, d) => TextAtoms(d, true)
    case Delta(TextKind, _, d) => TextAtoms(d, false)
    case End(ToolKind, _, final) => BlockAtoms(final)
    case _ => []
  }

  function AtomsOfEvents(events: seq<Event>): seq<Atom> {
    if events == [] then [] else AtomsOfEvents(events[..|events| - 1]) + EventAtoms(events[|events| - 1])
  }

  /** The blocks without a tool call that is still being sent. */
  function Settled(v: View): seq<Block> {
    if v.open.Some? && v.blocks != []
       && v.blocks[|v.blocks| - 1].ToolCall? then v.blocks[..|v.blocks| - 1] else v.blocks
  }

  /** In an accepted stream the events say what the blocks say. */
  lemma {:induction false} EventsSayWhatBlocksSay(events: seq<Event>)
    requires Replay(events).Some?
    ensures AtomsOfEvents(events) == Atoms(Settled(Replay(events).value))
  {
    hide Atoms, EventAtoms;
    if events == [] {
      NothingSaid();
    } else {
      var n := |events| - 1;
      var before := events[..n];
      EventsSayWhatBlocksSay(before);
      AcceptedStreamIsBracketed(before);
      ReceivedSays(Replay(before).value, events[n]);
    }
  }

  lemma ReceivedSays(v: View, e: Event)
    requires (v.open.Some? ==> v.open.value == |v.blocks| - 1) && Receive(v, e).Some?
    ensures Atoms(Settled(Receive(v, e).value)) == Atoms(Settled(v)) + EventAtoms(e)
  {
    hide Atoms, TextAtoms, Settled, Receive;
    if e.Start? {
      StartSays(v, e);
    } else if e.Delta? {
      DeltaSays(v, e);
    } else {
      EndSays(v, e);
    }
  }

  lemma DeltaSays(v: View, e: Event)
    requires (v.open.Some? ==> v.open.value == |v.blocks| - 1) && e.Delta? && Receive(v, e).Some?
    ensures Atoms(Settled(Receive(v, e).value)) == Atoms(Settled(v)) + EventAtoms(e)
  {
    hide Atoms, BlockAtoms, EventAtoms;
    var last := v.blocks[e.index];
    var after := v.blocks[e.index := Grown(last, e.delta)];
    LastBlockSays(v.blocks, after);
    BlockReceives(last, e);
    if last.ToolCall? {
      ToolDeltaSaysNothing(e);
      assert after[..e.index] == v.blocks[..e.index];
    }
  }

  lemma ToolDeltaSaysNothing(e: Event)
    requires e.Delta? && e.kind.ToolKind?
    ensures EventAtoms(e) == []
  {
  }

  lemma EndSays(v: View, e: Event)
    requires (v.open.Some? ==> v.open.value == |v.blocks| - 1) && e.End? && Receive(v, e).Some?
    ensures Atoms(Settled(Receive(v, e).value)) == Atoms(Settled(v)) + EventAtoms(e)
  {
    hide Atoms, BlockAtoms, EventAtoms;
    LastBlockSays(v.blocks, v.blocks[e.index := e.final]);
    BlockReceives(v.blocks[e.index], e);
  }

  lemma StartSays(v: View, e: Event)
    requires e.Start? && Receive(v, e).Some?
    ensures Atoms(Settled(Receive(v, e).value)) == Atoms(Settled(v)) + EventAtoms(e)
  {
    hide Atoms;
    AtomsSnoc(v.blocks, EmptyBlock(e.kind));
    assert (v.blocks + [EmptyBlock(e.kind)])[..|v.blocks|] == v.blocks;
  }

  /** What a delta or an end adds to what its block says. */
  lemma BlockReceives(b: Block, e: Event)
    requires !e.Start? && KindOf(b) == e.kind && (e.End? ==> Closes(b, e.final))
    ensures var before := if b.ToolCall? then [] else BlockAtoms(b);
            && (e.Delta? && !b.ToolCall? ==> BlockAtoms(Grown(b, e.delta)) == before + EventAtoms(e))
            && (e.End? ==> BlockAtoms(e.final) == before + EventAtoms(e))
  {
    hide TextAtoms;
    if e.Delta? {
      TextAtomsAppend(BodyOf(b), e.delta, e.kind.ThinkingKind?);
    }
  }

  lemma LastBlockSays(a: seq<Block>, b: seq<Block>)
    requires a != [] && |a| == |b| && a[..|a| - 1] == b[..|b| - 1]
    ensures Atoms(a) == Atoms(a[..|a| - 1]) + BlockAtoms(a[|a| - 1])
    ensures Atoms(b) == Atoms(a[..|a| - 1]) + BlockAtoms(b[|b| - 1])
  {
  }

  /** At every moment a builder's events have told exactly what its content says. */
  lemma BuilderTellsItsContent(b: Builder)
    requires b.Valid()
    ensures AtomsOfEvents(b.events) == Atoms(b.content)
  {
    hide Atoms, AtomsOfEvents, Replay;
    EventsSayWhatBlocksSay(b.events);
  }

  /** A call becomes the last block, with the id it came with if that is not empty and no call before has it, and with
      the generated one otherwise. */
  lemma CallKeepsItsId(content: seq<Block>, part: Part, generated: string)
    requires part.functionCall.Some?
    ensures var call, after := part.functionCall.value, AddPart(content, part, generated);
            var free := call.id != "" && forall b :: b in content && b.ToolCall? ==> b.id != call.id;
            after != [] && after[|after| - 1]
              == ToolCall(if free then call.id else generated, call.name, call.arguments)
  {
    var call := part.functionCall.value;
    var withText := if part.text.Some? then AddText(content, part.thought, part.text.value) else content;
    assert forall i :: 0 <= i < |withText| && withText[i].ToolCall? ==> i < |content| && withText[i] == content[i];
    assert forall i :: 0 <= i < |content| && content[i].ToolCall? ==> withText[i] == content[i];
    if HasToolId(withText, call.id) {
      var i :| 0 <= i < |withText| && withText[i].ToolCall? && withText[i].id == call.id;
      assert content[i] in content;
    }
    if b :| b in content && b.ToolCall? && b.id == call.id {
      var i :| 0 <= i < |content| && content[i] == b;
      assert withText[i] == b;
    }
  }
}
