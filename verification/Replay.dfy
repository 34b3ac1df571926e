/** Reasoning replay: a Messages answer is split into parts, calls and a layout; the layout is later
    checked as a permutation and the turn is rendered back. */
module Replay {
  import opened Common
  import opened Json
  import opened Chat
  import T = Text

  const FAMILY := "claude-signed-thinking"
  const FAMILY_KEY := "reasoning_replay_protocol_family"
  const LAYOUT_KEY := "reasoning_replay_block_layout"
  const MAX_BLOCKS: nat := 128

  // ----- the layout

  /** One entry of a validated layout, by position. */
  datatype Ref = ContentRef(ordinal: nat) | ToolRef(call: nat)

  predicate Replayable(part: ContentPart) {
    || part.Text? || part.RedactedThinking?
    || (part.Thinking? && part.signature.Some? && part.signature.value != "")
  }

  predicate UniqueIds(calls: seq<ToolCall>) {
    && (forall i :: 0 <= i < |calls| ==> calls[i].id != "")
    && (forall i, j :: 0 <= i < j < |calls| ==> calls[i].id != calls[j].id)
  }

  /** The call with an id, if any. */
  function CallOf(calls: seq<ToolCall>, id: string): (r: Option<nat>)
    ensures r.Some? ==> r.value < |calls| && calls[r.value].id == id
    ensures r.None? ==> forall i :: 0 <= i < |calls| ==> calls[i].id != id
  {
    if calls == [] then None
    else if calls[|calls| - 1].id == id then Some(|calls| - 1)
    else CallOf(calls[..|calls| - 1], id)
  }

  /** What a layout entry refers to: an object of two members naming a part or a call. */
  function EntryRef(parts: seq<ContentPart>, calls: seq<ToolCall>, entry: Value): (r: Option<Ref>)
    ensures r.Some? && r.value.ContentRef? ==> r.value.ordinal < |parts|
    ensures r.Some? && r.value.ToolRef? ==> r.value.call < |calls|
  {
    if !entry.Obj? || |entry.fields| != 2 then None
    else match AsStr(At(entry, "kind"))
      case Some("content") =>
        (match AsU64(At(entry, "ordinal"))
         case Some(k) => if k < |parts| then Some(ContentRef(k)) else None
         case None => None)
      case Some("tool_call") =>
        (match AsStr(At(entry, "call_id"))
         case Some(id) => (match CallOf(calls, id) case Some(k) => Some(ToolRef(k)) case None => None)
         case None => None)
      case _ => None
  }

  /** The message claims a signed-thinking layout, in the shape one must have. */
  predicate Claims(m: Message) {
    && FAMILY_KEY in m.extensions && m.extensions[FAMILY_KEY] == Str(FAMILY)
    && LAYOUT_KEY in m.extensions && m.extensions[LAYOUT_KEY].Arr?
    && |m.extensions[LAYOUT_KEY].elems| <= MAX_BLOCKS
    && m.role.Assistant? && m.content.Some? && m.content.value.Parts?
    && UniqueIds(m.toolCalls)
  }

  /** `refs` is what the layout spells, entry by entry: each part and each call exactly once, and
      every part replayable. */
  ghost predicate Orders(parts: seq<ContentPart>, calls: seq<ToolCall>, layout: seq<Value>, refs: seq<Ref>) {
    && Spells(parts, calls, layout, refs)
    && (forall i, j :: 0 <= i < j < |refs| ==> refs[i] != refs[j])
    && (forall k :: 0 <= k < |parts| ==> ContentRef(k) in refs && Replayable(parts[k]))
    && (forall k :: 0 <= k < |calls| ==> ToolRef(k) in refs)
  }

  ghost predicate Spells(parts: seq<ContentPart>, calls: seq<ToolCall>, layout: seq<Value>, refs: seq<Ref>) {
    && |refs| == |layout|
    && forall i :: 0 <= i < |layout| ==> EntryRef(parts, calls, layout[i]) == Some(refs[i])
  }

  ghost predicate IsLayout(m: Message, refs: seq<Ref>) {
    Claims(m) && Orders(m.content.value.parts, m.toolCalls, m.extensions[LAYOUT_KEY].elems, refs)
  }

  lemma LayoutUnique(m: Message, refs: seq<Ref>, other: seq<Ref>)
    requires IsLayout(m, refs) && IsLayout(m, other)
    ensures refs == other
  {
  }

  /** What a message's markers mean. */
  ghost function LayoutOf(m: Message): Result<Option<seq<Ref>>, ()> {
    if FAMILY_KEY !in m.extensions && LAYOUT_KEY !in m.extensions then Ok(None)
    else if refs :| IsLayout(m, refs) then Ok(Some(refs))
    else Err(())
  }

  /** The ids of the calls are checked with a map, one call at a time. */
  method CheckIds(calls: seq<ToolCall>) returns (ok: bool)
    ensures ok <==> UniqueIds(calls)
  {
    var tools: map<string, nat> := map[];
    for i := 0 to |calls|
      invariant UniqueIds(calls[..i])
      invariant forall id :: id in tools <==> exists k :: 0 <= k < i && calls[k].id == id
    {
      if calls[i].id == "" || calls[i].id in tools {
        return false;
      }
      tools := tools[calls[i].id := i];
    }
    assert calls[..|calls|] == calls;
    return true;
  }

  /** A layout whose prefix already repeats a reference, or names a part that cannot be replayed,
      orders nothing. */
  lemma NoOrder(parts: seq<ContentPart>, calls: seq<ToolCall>, layout: seq<Value>,
                ordered: seq<Ref>, ref: Ref)
    requires |ordered| < |layout| && Spells(parts, calls, layout[..|ordered|], ordered)
    requires EntryRef(parts, calls, layout[|ordered|]) == Some(ref)
    requires ref in ordered || (ref.ContentRef? && !Replayable(parts[ref.ordinal]))
    ensures forall refs :: !Orders(parts, calls, layout, refs)
  {
    forall refs | Spells(parts, calls, layout, refs)
      ensures !Orders(parts, calls, layout, refs)
    {
      var n := |ordered|;
      assert refs[n] == ref;
      if ref in ordered {
        var k :| 0 <= k < n && ordered[k] == ref;
        assert layout[..n][k] == layout[k];
        assert refs[k] == refs[n];
      }
    }
  }

  /** The loop over the layout, marking each part and each call it has seen. */
  method Order(parts: seq<ContentPart>, calls: seq<ToolCall>, layout: seq<Value>)
    returns (r: Option<seq<Ref>>)
    ensures r.Some? ==> Orders(parts, calls, layout, r.value)
    ensures r.None? ==> forall refs :: !Orders(parts, calls, layout, refs)
  {
    hide EntryRef, Replayable;
    var partRefs := new bool[|parts|](_ => false);
    var toolRefs := new bool[|calls|](_ => false);
    var ordered: seq<Ref> := [];
    for i := 0 to |layout|
      invariant |ordered| == i && partRefs != toolRefs
      invariant Spells(parts, calls, layout[..i], ordered)
      invariant forall k, l :: 0 <= k < l < i ==> ordered[k] != ordered[l]
      invariant forall k :: 0 <= k < |parts| ==> (partRefs[k] <==> ContentRef(k) in ordered)
      invariant forall k :: 0 <= k < |calls| ==> (toolRefs[k] <==> ToolRef(k) in ordered)
      invariant forall k :: 0 <= k < |parts| && partRefs[k] ==> Replayable(parts[k])
    {
      var ref := EntryRef(parts, calls, layout[i]);
      if ref.None? {
        return None;
      }
      match ref.value {
        case ContentRef(k) =>
          if partRefs[k] || !Replayable(parts[k]) {
            NoOrder(parts, calls, layout, ordered, ref.value);
            return None;
          }
          partRefs[k] := true;
        case ToolRef(k) =>
          if toolRefs[k] {
            NoOrder(parts, calls, layout, ordered, ref.value);
            return None;
          }
          toolRefs[k] := true;
      }
      ordered := ordered + [ref.value];
    }
    assert layout[..|layout|] == layout;
    assert forall refs :: Spells(parts, calls, layout, refs) ==> refs == ordered;
    if exists k :: 0 <= k < |parts| && !partRefs[k] {
      return None;
    }
    if exists k :: 0 <= k < |calls| && !toolRefs[k] {
      return None;
    }
    return Some(ordered);
  }

  /** `validated_layout`: nothing without markers, the checked permutation with them, or an error. */
  method ValidatedLayout(m: Message) returns (r: Result<Option<seq<Ref>>, ()>)
    ensures r == LayoutOf(m)
  {
    forall refs, other | IsLayout(m, refs) && IsLayout(m, other)
      ensures refs == other
    {
      LayoutUnique(m, refs, other);
    }
    if FAMILY_KEY !in m.extensions || LAYOUT_KEY !in m.extensions {
      return if FAMILY_KEY !in m.extensions && LAYOUT_KEY !in m.extensions then Ok(None) else Err(());
    }
    if m.extensions[FAMILY_KEY] != Str(FAMILY) {
      return Err(());
    }
    if m.role != Assistant {
      return Err(());
    }
    if !m.extensions[LAYOUT_KEY].Arr? || |m.extensions[LAYOUT_KEY].elems| > MAX_BLOCKS {
      return Err(());
    }
    if m.content.None? || !m.content.value.Parts? {
      return Err(());
    }
    var ok := CheckIds(m.toolCalls);
    if !ok {
      return Err(());
    }
    var ordered := Order(m.content.value.parts, m.toolCalls, m.extensions[LAYOUT_KEY].elems);
    if ordered.None? {
      return Err(());
    }
    assert IsLayout(m, ordered.value);
    return Ok(ordered);
  }

  // ----- the answer

  /** What the loop over an answer's blocks has collected. */
  datatype Answer = Answer(parts: seq<ContentPart>, layout: seq<Value>, reasoning: bool,
                           calls: seq<ToolCall>)

  function ContentEntry(ordinal: nat): Value {
    Obj(map["kind" := Str("content"), "ordinal" := Int(ordinal)])
  }

  function ToolEntry(id: string): Value {
    Obj(map["kind" := Str("tool_call"), "call_id" := Str(id)])
  }

  function AddPart(a: Answer, part: ContentPart, reasoning: bool): Answer {
    a.(layout := a.layout + [ContentEntry(|a.parts|)], parts := a.parts + [part],
       reasoning := a.reasoning || reasoning)
  }

  function AddBlock(codec: Codec, a: Answer, block: Value): Answer {
    match AsStr(At(block, "type"))
    case Some("text") => AddPart(a, Text(StrOr(At(block, "text"), ""), None), false)
    case Some("thinking") =>
      AddPart(a, Thinking(StrOr(At(block, "thinking"), ""), AsStr(At(block, "signature"))), true)
    case Some("redacted_thinking") => AddPart(a, RedactedThinking(StrOr(At(block, "data"), "")), true)
    case Some("tool_use") =>
      var id := StrOr(At(block, "id"), "");
      var arguments := match Get(block, "input") case None => "{}" case Some(v) => codec.render(v);
      a.(layout := a.layout + [ToolEntry(id)],
         calls := a.calls + [ToolCall(id, StrOr(At(block, "name"), ""), arguments, None)])
    case _ => a
  }

  function AnswerOf(codec: Codec, blocks: seq<Value>): Answer {
    if blocks == [] then Answer([], [], false, [])
    else AddBlock(codec, AnswerOf(codec, blocks[..|blocks| - 1]), blocks[|blocks| - 1])
  }

  function JoinedText(parts: seq<ContentPart>): string {
    if parts == [] then ""
    else JoinedText(parts[..|parts| - 1])
         + (if parts[|parts| - 1].Text? then parts[|parts| - 1].text else "")
  }

  /** The assistant message an answer becomes. */
  function AnswerMessage(a: Answer): Message {
    var content :=
      if a.parts == [] then None
      else if !a.reasoning then Some(PlainText(JoinedText(a.parts)))
      else Some(Parts(a.parts));
    Message(Assistant, content, a.calls, None,
            if a.reasoning then map[FAMILY_KEY := Str(FAMILY), LAYOUT_KEY := Arr(a.layout)] else map[])
  }

  method ParseAnswer(codec: Codec, blocks: seq<Value>) returns (m: Message)
    ensures m == AnswerMessage(AnswerOf(codec, blocks))
  {
    hide AddBlock;
    var a := Answer([], [], false, []);
    for i := 0 to |blocks|
      invariant a == AnswerOf(codec, blocks[..i])
    {
      assert blocks[..i + 1][..i] == blocks[..i];
      a := AddBlock(codec, a, blocks[i]);
    }
    assert blocks[..|blocks|] == blocks;
    return AnswerMessage(a);
  }

  // ----- the next request

  datatype RenderError = InvalidLayout | UnsupportedBlock | CallWithoutId | CallWithoutName

  /** `marked`: a block with its prompt-cache marker, if any. */
  function Marked(block: Value, marker: Option<Value>): Value {
    if marker.Some? && block.Obj? then Obj(block.fields["cache_control" := marker.value]) else block
  }

  function PartToBlock(part: ContentPart): Value {
    match part
    case Text(text, marker) => Marked(Obj(map["type" := Str("text"), "text" := Str(text)]), marker)
    case ImageUrl(url, marker) =>
      (match T.DataUrl(url)
       case Some((media, body)) =>
         Marked(Obj(map["type" := Str("image"),
                        "source" := Obj(map["type" := Str("base64"), "media_type" := Str(media),
                                            "data" := Str(body)])]), marker)
       case None =>
         Marked(Obj(map["type" := Str("image"),
                        "source" := Obj(map["type" := Str("url"), "url" := Str(url)])]), marker))
    case Thinking(thinking, signature) =>
      var fields := map["type" := Str("thinking"), "thinking" := Str(thinking)];
      Obj(if signature.Some? then fields["signature" := Str(signature.value)] else fields)
    case RedactedThinking(data) => Obj(map["type" := Str("redacted_thinking"), "data" := Str(data)])
    case Unknown(value) => value
  }

  function AssistantBlock(part: ContentPart, replay: bool): Option<Value> {
    match part
    case Thinking(thinking, signature) =>
      if !replay then Some(PartToBlock(part.(signature := None)))
      else if signature.None? then None
      else Some(PartToBlock(part))
    case RedactedThinking(_) => if replay then Some(PartToBlock(part)) else None
    case _ => Some(PartToBlock(part))
  }

  function ToolUseBlock(codec: Codec, call: ToolCall): Result<Value, RenderError> {
    if call.id == "" then Err(CallWithoutId)
    else if call.name == "" then Err(CallWithoutName)
    else
      var input := match codec.parse(call.arguments) case None => Str(call.arguments) case Some(v) => v;
      Ok(Obj(map["type" := Str("tool_use"), "id" := Str(call.id), "name" := Str(call.name),
                 "input" := input]))
  }

  function RenderRef(codec: Codec, parts: seq<ContentPart>, calls: seq<ToolCall>, ref: Ref)
    : Result<Value, RenderError>
  {
    match ref
    case ContentRef(k) =>
      if k >= |parts| then Err(UnsupportedBlock)
      else (match AssistantBlock(parts[k], true) case None => Err(UnsupportedBlock) case Some(b) => Ok(b))
    case ToolRef(k) => if k >= |calls| then Err(UnsupportedBlock) else ToolUseBlock(codec, calls[k])
  }

  function RenderRefs(codec: Codec, parts: seq<ContentPart>, calls: seq<ToolCall>, refs: seq<Ref>)
    : Result<seq<Value>, RenderError>
  {
    if refs == [] then Ok([])
    else match RenderRefs(codec, parts, calls, refs[..|refs| - 1])
      case Err(e) => Err(e)
      case Ok(before) =>
        match RenderRef(codec, parts, calls, refs[|refs| - 1])
        case Err(e) => Err(e)
        case Ok(block) => Ok(before + [block])
  }

  function PlainBlocks(content: Option<Content>): seq<Value> {
    match content
    case Some(PlainText(text)) => if text == "" then [] else [Obj(map["type" := Str("text"), "text" := Str(text)])]
    case Some(Parts(parts)) => PartBlocks(parts)
    case None => []
  }

  function PartBlocks(parts: seq<ContentPart>): seq<Value> {
    if parts == [] then []
    else
      var before := PartBlocks(parts[..|parts| - 1]);
      match AssistantBlock(parts[|parts| - 1], false)
      case None => before
      case Some(block) => before + [block]
  }

  function AllCalls(calls: seq<ToolCall>): seq<Ref> {
    seq(|calls|, k requires 0 <= k < |calls| => ToolRef(k))
  }

  /** The blocks of an assistant turn in the next request. */
  ghost function TurnBlocks(codec: Codec, m: Message): Result<seq<Value>, RenderError> {
    match LayoutOf(m)
    case Err(_) => Err(InvalidLayout)
    case Ok(Some(refs)) =>
      RenderRefs(codec, PartsOf(m), m.toolCalls, refs)
    case Ok(None) =>
      match RenderRefs(codec, [], m.toolCalls, AllCalls(m.toolCalls))
      case Err(e) => Err(e)
      case Ok(calls) => Ok(PlainBlocks(m.content) + calls)
  }

  method AssistantTurn(codec: Codec, m: Message) returns (r: Result<seq<Value>, RenderError>)
    ensures r == TurnBlocks(codec, m)
  {
    hide RenderRef, PlainBlocks, LayoutOf;
    var layout := ValidatedLayout(m);
    if layout.Err? {
      return Err(InvalidLayout);
    }
    var parts := PartsOf(m);
    var blocks := PlainBlocks(m.content);
    var refs := AllCalls(m.toolCalls);
    if layout.value.Some? {
      blocks := [];
      refs := layout.value.value;
    } else {
      parts := [];
    }
    ghost var before := blocks;
    for i := 0 to |refs|
      invariant match RenderRefs(codec, parts, m.toolCalls, refs[..i])
                case Err(_) => false
                case Ok(rendered) => blocks == before + rendered
    {
      assert refs[..i + 1][..i] == refs[..i];
      var block := RenderRef(codec, parts, m.toolCalls, refs[i]);
      if block.Err? {
        RenderStops(codec, parts, m.toolCalls, refs, i + 1, block.error);
        return Err(block.error);
      }
      blocks := blocks + [block.value];
    }
    assert refs[..|refs|] == refs;
    ghost var rendered := RenderRefs(codec, parts, m.toolCalls, refs).value;
    assert [] + rendered == rendered;
    return Ok(blocks);
  }

  lemma {:induction false} RenderStops(codec: Codec, parts: seq<ContentPart>, calls: seq<ToolCall>,
                                       refs: seq<Ref>, n: nat, e: RenderError)
    requires n <= |refs| && RenderRefs(codec, parts, calls, refs[..n]) == Err(e)
    ensures RenderRefs(codec, parts, calls, refs) == Err(e)
    decreases |refs| - n
  {
    if n < |refs| {
      assert refs[..n + 1][..n] == refs[..n];
      RenderStops(codec, parts, calls, refs, n + 1, e);
    } else {
      assert refs[..n] == refs;
    }
  }

  // ----- the round trip

  /** The blocks an answer with reasoning is made of. */
  datatype Block =
    | TextBlock(text: string)
    | ThinkingBlock(thinking: string, signature: Option<string>)
    | RedactedBlock(data: string)
    | ToolUse(id: string, name: string, input: Value)

  function PartOf(b: Block): ContentPart
    requires !b.ToolUse?
  {
    match b
    case TextBlock(text) => Text(text, None)
    case ThinkingBlock(thinking, signature) => Thinking(thinking, signature)
    case RedactedBlock(data) => RedactedThinking(data)
  }

  /** The wire form of a block. */
  function Wire(b: Block): Value {
    if b.ToolUse? then
      Obj(map["type" := Str("tool_use"), "id" := Str(b.id), "name" := Str(b.name), "input" := b.input])
    else PartToBlock(PartOf(b))
  }

  function WireAll(blocks: seq<Block>): (w: seq<Value>)
    ensures |w| == |blocks| && forall i :: 0 <= i < |w| ==> w[i] == Wire(blocks[i])
  {
    seq(|blocks|, i requires 0 <= i < |blocks| => Wire(blocks[i]))
  }

  /** The reference and the layout entry that stand for one block. */
  ghost predicate Matches(codec: Codec, a: Answer, b: Block, ref: Ref, entry: Value) {
    match ref
    case ContentRef(k) =>
      !b.ToolUse? && k < |a.parts| && a.parts[k] == PartOf(b) && entry == ContentEntry(k)
    case ToolRef(k) =>
      && b.ToolUse? && k < |a.calls| && entry == ToolEntry(a.calls[k].id)
      && a.calls[k] == ToolCall(b.id, b.name, codec.render(b.input), None)
  }

  /** How the collected answer matches the blocks, block by block. */
  ghost predicate Indexed(codec: Codec, blocks: seq<Block>, a: Answer, refs: seq<Ref>) {
    && |refs| == |blocks| == |a.layout| && |a.parts| <= |blocks|
    && (forall i :: 0 <= i < |blocks| ==> Matches(codec, a, blocks[i], refs[i], a.layout[i]))
    && (forall i, j :: 0 <= i < j < |refs| ==> refs[i] != refs[j])
    && (forall k :: 0 <= k < |a.parts| ==> ContentRef(k) in refs)
    && (forall k :: 0 <= k < |a.calls| ==> ToolRef(k) in refs)
    && (a.reasoning <==> exists i :: 0 <= i < |blocks| && IsReasoning(blocks[i]))
  }

  predicate IsReasoning(b: Block) {
    b.ThinkingBlock? || b.RedactedBlock?
  }

  lemma AddBlockOf(codec: Codec, a: Answer, b: Block)
    ensures AddBlock(codec, a, Wire(b))
         == Grown(codec, a, b)
  {
  }

  lemma {:induction false} AnswerIndexed(codec: Codec, blocks: seq<Block>) returns (refs: seq<Ref>)
    ensures Indexed(codec, blocks, AnswerOf(codec, WireAll(blocks)), refs)
  {
    hide AddBlock, Wire;
    if blocks == [] {
      refs := [];
    } else {
      var init, b := blocks[..|blocks| - 1], blocks[|blocks| - 1];
      var before := AnswerIndexed(codec, init);
      var a := AnswerOf(codec, WireAll(init));
      assert WireAll(blocks)[..|blocks| - 1] == WireAll(init);
      AddBlockOf(codec, a, b);
      refs := before + [if b.ToolUse? then ToolRef(|a.calls|) else ContentRef(|a.parts|)];
      IndexedSnoc(codec, init, b, a, before, refs);
      assert init + [b] == blocks;
    }
  }

  /** The answer with one more block. */
  function Grown(codec: Codec, a: Answer, b: Block): Answer {
    if b.ToolUse? then
      a.(layout := a.layout + [ToolEntry(b.id)],
         calls := a.calls + [ToolCall(b.id, b.name, codec.render(b.input), None)])
    else AddPart(a, PartOf(b), IsReasoning(b))
  }

  lemma MatchesGrow(codec: Codec, a: Answer, c: Block, b: Block, ref: Ref, entry: Value)
    requires Matches(codec, a, b, ref, entry)
    ensures Matches(codec, Grown(codec, a, c), b, ref, entry)
  {
  }

  lemma IndexedSnoc(codec: Codec, init: seq<Block>, b: Block, a: Answer, before: seq<Ref>, refs: seq<Ref>)
    requires Indexed(codec, init, a, before)
    requires refs == before + [if b.ToolUse? then ToolRef(|a.calls|) else ContentRef(|a.parts|)]
    ensures Indexed(codec, init + [b], Grown(codec, a, b), refs)
  {
    var blocks, c, n := init + [b], Grown(codec, a, b), |init|;
    assert Matches(codec, c, b, refs[n], c.layout[n]);
    forall i | 0 <= i < |blocks|
      ensures Matches(codec, c, blocks[i], refs[i], c.layout[i])
    {
      if i < n {
        MatchesGrow(codec, a, b, init[i], before[i], a.layout[i]);
      }
    }
    forall i, j | 0 <= i < j < |refs|
      ensures refs[i] != refs[j]
    {
      assert Matches(codec, a, init[i], before[i], a.layout[i]);
    }
    assert forall r :: r in before ==> r in refs;
    assert refs[n] in refs;
    hide Matches;
    if c.reasoning && !IsReasoning(b) {
      var i :| 0 <= i < n && IsReasoning(init[i]);
      assert IsReasoning(blocks[i]);
    }
    assert IsReasoning(b) ==> IsReasoning(blocks[n]);
  }

  /** What a replayed answer needs. */
  predicate Replays(blocks: seq<Block>) {
    && |blocks| <= 128 && Signed(blocks) && IdsUnique(blocks)
    && forall i :: 0 <= i < |blocks| && blocks[i].ToolUse? ==> blocks[i].name != ""
  }

  lemma EntryOfContent(parts: seq<ContentPart>, calls: seq<ToolCall>, k: nat)
    requires k < |parts| && k <= U64_MAX
    ensures EntryRef(parts, calls, ContentEntry(k)) == Some(ContentRef(k))
  {
    var fields := ContentEntry(k).fields;
    assert fields.Keys == {"kind", "ordinal"};
    assert |fields| == |fields.Keys| == 2;
  }

  lemma EntryOfCall(parts: seq<ContentPart>, calls: seq<ToolCall>, k: nat)
    requires k < |calls| && UniqueIds(calls)
    ensures EntryRef(parts, calls, ToolEntry(calls[k].id)) == Some(ToolRef(k))
  {
    var fields := ToolEntry(calls[k].id).fields;
    assert fields.Keys == {"kind", "call_id"};
    assert |fields| == |fields.Keys| == 2;
    var found := CallOf(calls, calls[k].id);
    assert found == Some(k);
  }

  lemma MatchAtBlock(codec: Codec, blocks: seq<Block>, a: Answer, refs: seq<Ref>, i: nat)
    requires Indexed(codec, blocks, a, refs) && i < |blocks|
    ensures |refs| == |blocks| == |a.layout| && |a.parts| <= |blocks|
    ensures Matches(codec, a, blocks[i], refs[i], a.layout[i])
    ensures forall j :: 0 <= j < |refs| && j != i ==> refs[i] != refs[j]
  {
  }

  lemma BlockOfCall(codec: Codec, blocks: seq<Block>, a: Answer, refs: seq<Ref>, k: nat) returns (i: nat)
    requires Indexed(codec, blocks, a, refs) && k < |a.calls|
    ensures i < |blocks| && blocks[i].ToolUse? && blocks[i].id == a.calls[k].id
    ensures |refs| == |blocks| && refs[i] == ToolRef(k)
  {
    i :| 0 <= i < |refs| && refs[i] == ToolRef(k);
    MatchAtBlock(codec, blocks, a, refs, i);
  }

  lemma BlockOfPart(codec: Codec, blocks: seq<Block>, a: Answer, refs: seq<Ref>, k: nat) returns (i: nat)
    requires Indexed(codec, blocks, a, refs) && k < |a.parts|
    ensures i < |blocks| && !blocks[i].ToolUse? && PartOf(blocks[i]) == a.parts[k]
  {
    i :| 0 <= i < |refs| && refs[i] == ContentRef(k);
    MatchAtBlock(codec, blocks, a, refs, i);
  }

  predicate IdsUnique(blocks: seq<Block>) {
    && (forall i :: 0 <= i < |blocks| && blocks[i].ToolUse? ==> blocks[i].id != "")
    && (forall i, j :: 0 <= i < j < |blocks| && blocks[i].ToolUse? && blocks[j].ToolUse? ==>
          blocks[i].id != blocks[j].id)
  }

  /** A collected answer's ids are unique exactly when its blocks' are. */
  lemma IdsOfBlocks(codec: Codec, blocks: seq<Block>, a: Answer, refs: seq<Ref>)
    requires Indexed(codec, blocks, a, refs)
    ensures UniqueIds(a.calls) <==> IdsUnique(blocks)
  {
    hide Indexed;
    if UniqueIds(a.calls) {
      forall i, j | 0 <= i < |blocks| && 0 <= j < |blocks| && blocks[i].ToolUse? && blocks[j].ToolUse?
        ensures blocks[i].id != "" && (i < j ==> blocks[i].id != blocks[j].id)
      {
        MatchAtBlock(codec, blocks, a, refs, i);
        MatchAtBlock(codec, blocks, a, refs, j);
        if i < j {
          var k, l := refs[i].call, refs[j].call;
          assert k < l || l < k;
        }
      }
    }
    if IdsUnique(blocks) {
      forall k, l | 0 <= k <= l < |a.calls|
        ensures a.calls[k].id != "" && (k < l ==> a.calls[k].id != a.calls[l].id)
      {
        var i := BlockOfCall(codec, blocks, a, refs, k);
        var j := BlockOfCall(codec, blocks, a, refs, l);
        assert k < l ==> i < j || j < i;
      }
    }
  }

  predicate Signed(blocks: seq<Block>) {
    forall i :: 0 <= i < |blocks| && blocks[i].ThinkingBlock? ==>
      blocks[i].signature.Some? && blocks[i].signature.value != ""
  }

  lemma PartsOfBlocks(codec: Codec, blocks: seq<Block>, a: Answer, refs: seq<Ref>)
    requires Indexed(codec, blocks, a, refs)
    ensures (forall k :: 0 <= k < |a.parts| ==> Replayable(a.parts[k])) <==> Signed(blocks)
  {
    hide Indexed;
    if Signed(blocks) {
      forall k | 0 <= k < |a.parts|
        ensures Replayable(a.parts[k])
      {
        var i := BlockOfPart(codec, blocks, a, refs, k);
      }
    } else {
      var i :| 0 <= i < |blocks| && blocks[i].ThinkingBlock?
               && !(blocks[i].signature.Some? && blocks[i].signature.value != "");
      MatchAtBlock(codec, blocks, a, refs, i);
      assert !Replayable(a.parts[refs[i].ordinal]);
    }
  }

  lemma AnswerSpells(codec: Codec, blocks: seq<Block>, a: Answer, refs: seq<Ref>)
    requires Indexed(codec, blocks, a, refs) && |blocks| <= MAX_BLOCKS && UniqueIds(a.calls)
    ensures Spells(a.parts, a.calls, a.layout, refs)
  {
    IndexedLength(codec, blocks, a, refs);
    hide Indexed, EntryRef, UniqueIds, ContentEntry, ToolEntry;
    forall i | 0 <= i < |blocks|
      ensures EntryRef(a.parts, a.calls, a.layout[i]) == Some(refs[i])
    {
      MatchAtBlock(codec, blocks, a, refs, i);
      match refs[i]
      case ContentRef(k) => EntryOfContent(a.parts, a.calls, k);
      case ToolRef(k) => EntryOfCall(a.parts, a.calls, k);
    }
  }

  /** The collected references order parts and calls exactly when every part can be replayed. */
  lemma AnswerOrders(codec: Codec, blocks: seq<Block>, a: Answer, refs: seq<Ref>)
    requires Indexed(codec, blocks, a, refs) && Spells(a.parts, a.calls, a.layout, refs)
    ensures Orders(a.parts, a.calls, a.layout, refs) <==> forall k :: 0 <= k < |a.parts| ==> Replayable(a.parts[k])
  {
    hide Spells, Replayable, Matches;
  }

  lemma OrdersReplayable(parts: seq<ContentPart>, calls: seq<ToolCall>, layout: seq<Value>, refs: seq<Ref>)
    requires Orders(parts, calls, layout, refs)
    ensures forall k :: 0 <= k < |parts| ==> Replayable(parts[k])
  {
    hide Spells, Replayable;
  }

  /** The collected layout is a valid one exactly when parts, ids and size allow it, and then it
      orders the blocks as they came. */
  lemma LayoutOfAnswer(codec: Codec, blocks: seq<Block>, a: Answer, refs: seq<Ref>)
    requires Indexed(codec, blocks, a, refs) && a.reasoning
    ensures LayoutOf(AnswerMessage(a))
         == if |blocks| <= MAX_BLOCKS && UniqueIds(a.calls)
               && (forall k :: 0 <= k < |a.parts| ==> Replayable(a.parts[k]))
            then Ok(Some(refs)) else Err(())
  {
    var m := AnswerMessage(a);
    IndexedReasoning(codec, blocks, a, refs);
    IndexedLength(codec, blocks, a, refs);
    if |blocks| <= MAX_BLOCKS && UniqueIds(a.calls) {
      AnswerSpells(codec, blocks, a, refs);
      AnswerOrders(codec, blocks, a, refs);
    }
    hide Indexed, Orders, Replayable, UniqueIds;
    forall other | IsLayout(m, other)
      ensures forall k :: 0 <= k < |a.parts| ==> Replayable(a.parts[k])
    {
      OrdersReplayable(a.parts, a.calls, a.layout, other);
    }
    if |blocks| <= MAX_BLOCKS && UniqueIds(a.calls) && (forall k :: 0 <= k < |a.parts| ==> Replayable(a.parts[k])) {
      assert IsLayout(m, refs);
    }
    forall other | IsLayout(m, other) && IsLayout(m, refs)
      ensures other == refs
    {
      LayoutUnique(m, other, refs);
    }
  }

  /** The tool inputs survive being printed and read back. */
  ghost predicate InputsSurvive(codec: Codec, blocks: seq<Block>) {
    forall i :: 0 <= i < |blocks| && blocks[i].ToolUse? ==>
      codec.parse(codec.render(blocks[i].input)) == Some(blocks[i].input)
  }

  lemma RenderOne(codec: Codec, blocks: seq<Block>, a: Answer, refs: seq<Ref>, i: nat)
    requires Indexed(codec, blocks, a, refs) && InputsSurvive(codec, blocks) && i < |blocks|
    requires forall k :: 0 <= k < |a.parts| ==> Replayable(a.parts[k])
    ensures RenderRef(codec, a.parts, a.calls, refs[i])
         == if blocks[i].ToolUse? && blocks[i].id == "" then Err(CallWithoutId)
            else if blocks[i].ToolUse? && blocks[i].name == "" then Err(CallWithoutName)
            else Ok(Wire(blocks[i]))
  {
    MatchAtBlock(codec, blocks, a, refs, i);
    hide Indexed, ContentEntry, ToolEntry;
    if refs[i].ContentRef? {
      assert Replayable(a.parts[refs[i].ordinal]);
    }
  }

  lemma {:induction false} RenderAll(codec: Codec, blocks: seq<Block>, a: Answer, refs: seq<Ref>, n: nat)
    requires Indexed(codec, blocks, a, refs) && InputsSurvive(codec, blocks) && n <= |blocks|
    requires forall k :: 0 <= k < |a.parts| ==> Replayable(a.parts[k])
    ensures var r := RenderRefs(codec, a.parts, a.calls, refs[..n]);
            && (r.Ok? <==> forall i :: 0 <= i < n && blocks[i].ToolUse? ==> blocks[i].id != "" && blocks[i].name != "")
            && (r.Ok? ==> r.value == WireAll(blocks)[..n])
  {
    hide RenderRef, Wire, Indexed, Replayable;
    if n > 0 {
      RenderAll(codec, blocks, a, refs, n - 1);
      IndexedLength(codec, blocks, a, refs);
      assert refs[..n][..n - 1] == refs[..n - 1];
      RenderOne(codec, blocks, a, refs, n - 1);
      assert WireAll(blocks)[..n] == WireAll(blocks)[..n - 1] + [Wire(blocks[n - 1])];
    } else {
      IndexedLength(codec, blocks, a, refs);
    }
  }

  lemma IndexedLength(codec: Codec, blocks: seq<Block>, a: Answer, refs: seq<Ref>)
    requires Indexed(codec, blocks, a, refs)
    ensures |refs| == |blocks| == |a.layout|
  {
  }

  /** An answer with reasoning replays exactly when its size, signatures, ids and names allow it, and
      then the next request carries the same blocks in the same order. */
  lemma RoundTripExact(codec: Codec, blocks: seq<Block>)
    requires exists i :: 0 <= i < |blocks| && IsReasoning(blocks[i])
    requires InputsSurvive(codec, blocks)
    ensures var turn := TurnBlocks(codec, AnswerMessage(AnswerOf(codec, WireAll(blocks))));
            && (turn.Ok? <==> Replays(blocks))
            && (turn.Ok? ==> turn.value == WireAll(blocks))
  {
    hide Indexed, RenderRefs, LayoutOf, UniqueIds, AnswerOf, Replayable, Wire, Signed, IdsUnique, Matches;
    var refs := AnswerIndexed(codec, blocks);
    var a := AnswerOf(codec, WireAll(blocks));
    IndexedReasoning(codec, blocks, a, refs);
    LayoutOfAnswer(codec, blocks, a, refs);
    IdsOfBlocks(codec, blocks, a, refs);
    PartsOfBlocks(codec, blocks, a, refs);
    assert refs[..|blocks|] == refs;
    assert WireAll(blocks)[..|blocks|] == WireAll(blocks);
    if Signed(blocks) {
      RenderAll(codec, blocks, a, refs, |blocks|);
    }
    IdsNonEmpty(blocks);
  }

  lemma IdsNonEmpty(blocks: seq<Block>)
    ensures IdsUnique(blocks) ==> forall i :: 0 <= i < |blocks| && blocks[i].ToolUse? ==> blocks[i].id != ""
  {
  }

  lemma IndexedReasoning(codec: Codec, blocks: seq<Block>, a: Answer, refs: seq<Ref>)
    requires Indexed(codec, blocks, a, refs) && exists i :: 0 <= i < |blocks| && IsReasoning(blocks[i])
    ensures a.reasoning && a.parts != [] && |refs| == |blocks|
  {
    var i :| 0 <= i < |blocks| && IsReasoning(blocks[i]);
    MatchAtBlock(codec, blocks, a, refs, i);
  }

  // ----- answers with anything in them

  /** What the reader takes of a wire block: its known members, or nothing of another type. */
  function BlockOf(block: Value): Option<Block> {
    match AsStr(At(block, "type"))
    case Some("text") => Some(TextBlock(StrOr(At(block, "text"), "")))
    case Some("thinking") => Some(ThinkingBlock(StrOr(At(block, "thinking"), ""), AsStr(At(block, "signature"))))
    case Some("redacted_thinking") => Some(RedactedBlock(StrOr(At(block, "data"), "")))
    case Some("tool_use") =>
      Some(ToolUse(StrOr(At(block, "id"), ""), StrOr(At(block, "name"), ""),
                   match Get(block, "input") case None => Obj(map[]) case Some(v) => v))
    case _ => None
  }

  /** The blocks the reader takes of an answer, in order. */
  function Kept(answer: seq<Value>): seq<Block> {
    if answer == [] then []
    else
      Kept(answer[..|answer| - 1])
      + match BlockOf(answer[|answer| - 1]) case None => [] case Some(b) => [b]
  }

  /** An empty object prints as the text a call without an input gets. */
  predicate PrintsEmpty(codec: Codec) {
    codec.render(Obj(map[])) == "{}"
  }

  /** The answer with one more block, if there is one. */
  function GrownBy(codec: Codec, a: Answer, b: Option<Block>): Answer {
    if b.None? then a else Grown(codec, a, b.value)
  }

  lemma AddAnyBlock(codec: Codec, a: Answer, block: Value)
    requires PrintsEmpty(codec)
    ensures AddBlock(codec, a, block) == GrownBy(codec, a, BlockOf(block))
  {
  }

  lemma {:induction false} KeptAnswer(codec: Codec, answer: seq<Value>)
    requires PrintsEmpty(codec)
    ensures AnswerOf(codec, answer) == AnswerOf(codec, WireAll(Kept(answer)))
  {
    hide AddBlock, BlockOf, Grown, Wire;
    if answer != [] {
      var init, block := answer[..|answer| - 1], answer[|answer| - 1];
      KeptAnswer(codec, init);
      AddAnyBlock(codec, AnswerOf(codec, init), block);
      if BlockOf(block).Some? {
        var b := BlockOf(block).value;
        AddBlockOf(codec, AnswerOf(codec, init), b);
        assert WireAll(Kept(init) + [b])[..|Kept(init)|] == WireAll(Kept(init));
      } else {
        assert Kept(init) + [] == Kept(init);
      }
    }
  }

  /** Any answer with reasoning replays exactly when the blocks the reader takes of it may; then the
      next request carries those, in order, without the blocks of other types and without members
      the reader does not know. */
  lemma {:induction false} AnyAnswerReplays(codec: Codec, answer: seq<Value>)
    requires exists i :: 0 <= i < |Kept(answer)| && IsReasoning(Kept(answer)[i])
    requires InputsSurvive(codec, Kept(answer)) && PrintsEmpty(codec)
    ensures var turn := TurnBlocks(codec, AnswerMessage(AnswerOf(codec, answer)));
            && (turn.Ok? <==> Replays(Kept(answer)))
            && (turn.Ok? ==> turn.value == WireAll(Kept(answer)))
  {
    hide TurnBlocks, AnswerOf, AnswerMessage, Kept, InputsSurvive, Replays;
    KeptAnswer(codec, answer);
    RoundTripExact(codec, Kept(answer));
  }

  // ----- answers without reasoning

  predicate HasType(block: Value, kind: string) {
    At(block, "type") == Str(kind)
  }

  /** A string member of a wire block, empty when it has none. */
  function MemberOf(block: Value, name: string): string {
    if At(block, name).Str? then At(block, name).s else ""
  }

  /** No block of the answer is a thinking or a redacted one. */
  predicate NoReasoning(answer: seq<Value>) {
    forall i :: 0 <= i < |answer| ==> !HasType(answer[i], "thinking") && !HasType(answer[i], "redacted_thinking")
  }

  predicate HasText(answer: seq<Value>) {
    exists i :: 0 <= i < |answer| && HasType(answer[i], "text")
  }

  /** The texts of the text blocks, in order. */
  function TextIn(answer: seq<Value>): string {
    if answer == [] then ""
    else
      var block := answer[|answer| - 1];
      TextIn(answer[..|answer| - 1]) + (if HasType(block, "text") then MemberOf(block, "text") else "")
  }

  /** The tool uses, in order. */
  function UsesIn(answer: seq<Value>): seq<Value> {
    if answer == [] then []
    else
      var block := answer[|answer| - 1];
      UsesIn(answer[..|answer| - 1]) + (if HasType(block, "tool_use") then [block] else [])
  }

  /** `call` is the call a tool use makes. */
  predicate Uses(codec: Codec, block: Value, call: ToolCall) {
    && call.id == MemberOf(block, "id") && call.name == MemberOf(block, "name") && call.signature == None
    && call.arguments
       == (if block.Obj? && "input" in block.fields then codec.render(block.fields["input"]) else "{}")
  }

  ghost predicate AreUses(codec: Codec, blocks: seq<Value>, calls: seq<ToolCall>) {
    |calls| == |blocks| && forall k :: 0 <= k < |calls| ==> Uses(codec, blocks[k], calls[k])
  }

  lemma UsesSnoc(codec: Codec, blocks: seq<Value>, calls: seq<ToolCall>, block: Value, call: ToolCall)
    requires AreUses(codec, blocks, calls) && Uses(codec, block, call)
    ensures AreUses(codec, blocks + [block], calls + [call])
  {
    hide Uses;
  }

  /** What the reader has collected of an answer without reasoning. */
  ghost predicate Collected(codec: Codec, answer: seq<Value>, a: Answer) {
    && !a.reasoning && (a.parts != [] <==> HasText(answer)) && JoinedText(a.parts) == TextIn(answer)
    && AreUses(codec, UsesIn(answer), a.calls)
  }

  lemma InSnoc(answer: seq<Value>, block: Value)
    ensures var all := answer + [block];
            && TextIn(all) == TextIn(answer) + (if HasType(block, "text") then MemberOf(block, "text") else "")
            && UsesIn(all) == UsesIn(answer) + (if HasType(block, "tool_use") then [block] else [])
            && (HasText(all) <==> HasText(answer) || HasType(block, "text"))
  {
    hide HasType, MemberOf;
    var all := answer + [block];
    assert all[..|all| - 1] == answer && all[|answer|] == block;
    assert forall i :: 0 <= i < |answer| ==> all[i] == answer[i];
    if HasText(answer) {
      var i :| 0 <= i < |answer| && HasType(answer[i], "text");
      assert HasType(all[i], "text");
    }
    if HasText(all) {
      var i :| 0 <= i < |all| && HasType(all[i], "text");
      assert i < |answer| || i == |answer|;
    }
  }

  lemma JoinedSnoc(parts: seq<ContentPart>, part: ContentPart)
    ensures JoinedText(parts + [part]) == JoinedText(parts) + (if part.Text? then part.text else "")
  {
    assert (parts + [part])[..|parts|] == parts;
  }

  lemma CollectText(codec: Codec, answer: seq<Value>, a: Answer, block: Value)
    requires Collected(codec, answer, a) && HasType(block, "text")
    ensures Collected(codec, answer + [block], AddBlock(codec, a, block))
  {
    InSnoc(answer, block);
    JoinedSnoc(a.parts, Text(MemberOf(block, "text"), None));
    hide TextIn, UsesIn, HasText, JoinedText, AreUses;
    assert UsesIn(answer) + [] == UsesIn(answer);
  }

  lemma CollectUse(codec: Codec, answer: seq<Value>, a: Answer, block: Value)
    requires Collected(codec, answer, a) && HasType(block, "tool_use")
    ensures Collected(codec, answer + [block], AddBlock(codec, a, block))
  {
    InSnoc(answer, block);
    var grown := AddBlock(codec, a, block);
    assert Uses(codec, block, grown.calls[|a.calls|]);
    UsesSnoc(codec, UsesIn(answer), a.calls, block, grown.calls[|a.calls|]);
    hide TextIn, UsesIn, HasText, JoinedText, AreUses, Uses;
    assert TextIn(answer) + "" == TextIn(answer);
  }

  lemma CollectOther(codec: Codec, answer: seq<Value>, a: Answer, block: Value)
    requires Collected(codec, answer, a) && !HasType(block, "text") && !HasType(block, "tool_use")
    requires !HasType(block, "thinking") && !HasType(block, "redacted_thinking")
    ensures Collected(codec, answer + [block], AddBlock(codec, a, block))
  {
    InSnoc(answer, block);
    hide TextIn, UsesIn, HasText, JoinedText, AreUses;
    assert TextIn(answer) + "" == TextIn(answer) && UsesIn(answer) + [] == UsesIn(answer);
  }

  lemma {:induction false} PlainCollected(codec: Codec, answer: seq<Value>)
    requires NoReasoning(answer)
    ensures Collected(codec, answer, AnswerOf(codec, answer))
  {
    hide AddBlock, HasType;
    if answer != [] {
      var init, block := answer[..|answer| - 1], answer[|answer| - 1];
      PlainCollected(codec, init);
      hide Collected;
      assert init + [block] == answer;
      var a := AnswerOf(codec, init);
      if HasType(block, "text") {
        CollectText(codec, init, a, block);
      } else if HasType(block, "tool_use") {
        CollectUse(codec, init, a, block);
      } else {
        CollectOther(codec, init, a, block);
      }
    }
  }

  /** An answer without reasoning becomes a message with the joined text of its text blocks, or no
      content when it has none, with the calls of its tool uses, and without markers. */
  lemma PlainAnswer(codec: Codec, answer: seq<Value>)
    requires NoReasoning(answer)
    ensures var m := AnswerMessage(AnswerOf(codec, answer));
            && m.role == Assistant && m.extensions == map[]
            && m.content == (if HasText(answer) then Some(PlainText(TextIn(answer))) else None)
            && AreUses(codec, UsesIn(answer), m.toolCalls)
  {
    PlainCollected(codec, answer);
    hide AnswerOf, HasText, TextIn, UsesIn, AreUses, JoinedText;
  }

  /** `block` replays a call: its id, its name, and its arguments read back, or as the text they are. */
  predicate ReplaysCall(codec: Codec, call: ToolCall, block: Value) {
    block == Obj(map["type" := Str("tool_use"), "id" := Str(call.id), "name" := Str(call.name),
                     "input" := if codec.parse(call.arguments).Some? then codec.parse(call.arguments).value
                                else Str(call.arguments)])
  }

  lemma {:induction false} CallsRender(codec: Codec, calls: seq<ToolCall>, n: nat)
    requires n <= |calls|
    ensures var r := RenderRefs(codec, [], calls, AllCalls(calls)[..n]);
            && (r.Ok? <==> forall k :: 0 <= k < n ==> calls[k].id != "" && calls[k].name != "")
            && (r.Ok? ==> |r.value| == n && forall k :: 0 <= k < n ==> ReplaysCall(codec, calls[k], r.value[k]))
  {
    if n > 0 {
      CallsRender(codec, calls, n - 1);
      var refs := AllCalls(calls)[..n];
      assert refs[..|refs| - 1] == AllCalls(calls)[..n - 1] && refs[|refs| - 1] == ToolRef(n - 1);
    }
    hide ReplaysCall;
  }

  /** `blocks` are a text, unless it is empty, and then the calls in order. */
  ghost predicate TextThenCalls(codec: Codec, text: string, calls: seq<ToolCall>, blocks: seq<Value>) {
    var said := if text == "" then [] else [Obj(map["type" := Str("text"), "text" := Str(text)])];
    && |blocks| == |said| + |calls| && blocks[..|said|] == said
    && forall k :: 0 <= k < |calls| ==> ReplaysCall(codec, calls[k], blocks[|said| + k])
  }

  lemma PlainTextBlocks(text: string)
    ensures PlainBlocks(Some(PlainText(text)))
         == if text == "" then [] else [Obj(map["type" := Str("text"), "text" := Str(text)])]
    ensures PlainBlocks(None) == []
  {
  }

  lemma MessageTurn(codec: Codec, m: Message, text: string)
    requires m.extensions == map[] && (m.content == Some(PlainText(text)) || (m.content == None && text == ""))
    ensures var turn := TurnBlocks(codec, m);
            var calls := m.toolCalls;
            && (turn.Ok? <==> forall k :: 0 <= k < |calls| ==> calls[k].id != "" && calls[k].name != "")
            && (turn.Ok? ==> TextThenCalls(codec, text, m.toolCalls, turn.value))
  {
    hide RenderRefs, ReplaysCall, PlainBlocks;
    CallsRender(codec, m.toolCalls, |m.toolCalls|);
    assert AllCalls(m.toolCalls)[..|m.toolCalls|] == AllCalls(m.toolCalls);
    hide AllCalls;
    PlainTextBlocks(text);
    assert LayoutOf(m) == Ok(None);
    hide LayoutOf;
  }

  /** The next turn after an answer without reasoning: its text as one block unless it is empty, and
      then its calls in order; refused exactly when a call has no id or no name. */
  lemma PlainTurn(codec: Codec, answer: seq<Value>)
    requires NoReasoning(answer)
    ensures var calls := AnswerOf(codec, answer).calls;
            var turn := TurnBlocks(codec, AnswerMessage(AnswerOf(codec, answer)));
            && AreUses(codec, UsesIn(answer), calls)
            && (turn.Ok? <==> forall k :: 0 <= k < |calls| ==> calls[k].id != "" && calls[k].name != "")
            && (turn.Ok? ==> TextThenCalls(codec, TextIn(answer), calls, turn.value))
  {
    PlainAnswer(codec, answer);
    EmptyTextIn(answer);
    var a := AnswerOf(codec, answer);
    assert AnswerMessage(a).toolCalls == a.calls;
    hide AnswerOf, AnswerMessage, HasText, TextIn, UsesIn, AreUses, TurnBlocks, TextThenCalls;
    MessageTurn(codec, AnswerMessage(a), TextIn(answer));
  }

  lemma {:induction false} EmptyTextIn(answer: seq<Value>)
    ensures !HasText(answer) ==> TextIn(answer) == ""
  {
    hide HasType, MemberOf;
    if answer != [] {
      EmptyTextIn(answer[..|answer| - 1]);
      InSnoc(answer[..|answer| - 1], answer[|answer| - 1]);
      assert answer[..|answer| - 1] + [answer[|answer| - 1]] == answer;
    }
  }
}
