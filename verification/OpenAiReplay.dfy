/** The layout of an OpenAI encrypted-reasoning turn: every item, text and call exactly once. */
module OpenAiReplay {
  import opened Common
  import opened Json
  import opened Chat
  import opened Replay
  import Utf8

  const OPENAI_FAMILY := "openai-encrypted-reasoning"
  const ITEMS_KEY := "responses_opaque_reasoning_items"
  const MAX_ITEM_BYTES: nat := 1024 * 1024
  const MAX_MESSAGE_BYTES: nat := 4 * 1024 * 1024

  predicate IsOpenAiFamily(m: Message) {
    FAMILY_KEY in m.extensions && m.extensions[FAMILY_KEY] == Str(OPENAI_FAMILY)
  }

  /** The size of a valid reasoning item's encrypted content. */
  function ItemBytes(item: Value): Option<nat> {
    if && item.Obj?
       && (forall key :: key in item.fields ==> key in {"type", "id", "summary", "encrypted_content", "content"})
       && At(item, "type") == Str("reasoning")
       && At(item, "id").Str? && At(item, "id").s != ""
       && At(item, "summary").Arr?
       && (Get(item, "content").None? || At(item, "content").Arr?)
       && At(item, "encrypted_content").Str?
    then
      var encrypted := At(item, "encrypted_content").s;
      if encrypted != "" && !("tsr." <= encrypted) && |Utf8.Encode(encrypted)| <= MAX_ITEM_BYTES
      then Some(|Utf8.Encode(encrypted)|) else None
    else None
  }

  function TotalBytes(items: seq<Value>): Option<nat> {
    if items == [] then Some(0)
    else match (TotalBytes(items[..|items| - 1]), ItemBytes(items[|items| - 1]))
      case (Some(total), Some(n)) => Some(total + n)
      case _ => None
  }

  /** One entry of a validated turn, by position. */
  datatype TurnRef = ItemRef(item: nat) | TextRef(part: nat) | CallRef(call: nat)

  /** What the three lists of a turn are. */
  datatype Lists = Lists(items: seq<Value>, parts: seq<ContentPart>, calls: seq<ToolCall>)

  function TurnEntry(l: Lists, entry: Value): (r: Option<TurnRef>)
    ensures r.Some? && r.value.ItemRef? ==> r.value.item < |l.items|
    ensures r.Some? && r.value.TextRef? ==> r.value.part < |l.parts| && l.parts[r.value.part].Text?
    ensures r.Some? && r.value.CallRef? ==> r.value.call < |l.calls|
  {
    if !entry.Obj? || |entry.fields| != 2 then None
    else match AsStr(At(entry, "kind"))
      case Some("reasoning_item") =>
        (match AsU64(At(entry, "index"))
         case Some(k) => if k < |l.items| then Some(ItemRef(k)) else None
         case None => None)
      case Some("content") =>
        (match AsU64(At(entry, "ordinal"))
         case Some(k) => if k < |l.parts| && l.parts[k].Text? then Some(TextRef(k)) else None
         case None => None)
      case Some("tool_call") =>
        (match AsStr(At(entry, "call_id"))
         case Some(id) => (match CallOf(l.calls, id) case Some(k) => Some(CallRef(k)) case None => None)
         case None => None)
      case _ => None
  }

  predicate MayBeLeftOut(part: ContentPart) {
    part.Thinking? && part.signature.None?
  }

  ghost predicate Spelled(l: Lists, layout: seq<Value>, refs: seq<TurnRef>) {
    && |refs| == |layout|
    && forall i :: 0 <= i < |layout| ==> TurnEntry(l, layout[i]) == Some(refs[i])
  }

  /** `refs` is what the layout spells: every item, text and call exactly once, and only unsigned
      thinking left out. */
  ghost predicate Covers(l: Lists, layout: seq<Value>, refs: seq<TurnRef>) {
    && Spelled(l, layout, refs)
    && (forall i, j :: 0 <= i < j < |refs| ==> refs[i] != refs[j])
    && (forall k :: 0 <= k < |l.items| ==> ItemRef(k) in refs)
    && (forall k :: 0 <= k < |l.parts| ==> TextRef(k) in refs || MayBeLeftOut(l.parts[k]))
    && (forall k :: 0 <= k < |l.calls| ==> CallRef(k) in refs)
  }

  /** The message claims an encrypted-reasoning turn, in the shape one must have. */
  predicate ClaimsTurn(m: Message) {
    && IsOpenAiFamily(m) && m.role.Assistant?
    && LAYOUT_KEY in m.extensions && m.extensions[LAYOUT_KEY].Arr? && |m.extensions[LAYOUT_KEY].elems| <= MAX_BLOCKS
    && ITEMS_KEY in m.extensions && m.extensions[ITEMS_KEY].Arr?
    && TotalBytes(m.extensions[ITEMS_KEY].elems).Some?
    && TotalBytes(m.extensions[ITEMS_KEY].elems).value <= MAX_MESSAGE_BYTES
    && (m.content.None? || m.content.value.Parts?)
    && UniqueIds(m.toolCalls)
  }

  ghost predicate IsTurn(m: Message, refs: seq<TurnRef>) {
    ClaimsTurn(m)
    && Covers(Lists(m.extensions[ITEMS_KEY].elems, PartsOf(m), m.toolCalls), m.extensions[LAYOUT_KEY].elems, refs)
  }

  /** A layout whose prefix already repeats a reference covers nothing. */
  lemma NoCover(l: Lists, layout: seq<Value>, ordered: seq<TurnRef>, ref: TurnRef)
    requires |ordered| < |layout| && Spelled(l, layout[..|ordered|], ordered)
    requires TurnEntry(l, layout[|ordered|]) == Some(ref) && ref in ordered
    ensures forall refs :: !Covers(l, layout, refs)
  {
    forall refs | Spelled(l, layout, refs)
      ensures !Covers(l, layout, refs)
    {
      var n := |ordered|;
      assert refs[n] == ref;
      var k :| 0 <= k < n && ordered[k] == ref;
      assert layout[..n][k] == layout[k];
      assert refs[k] == refs[n];
    }
  }

  /** The loop over the layout, marking each item, part and call it has seen. */
  method OrderTurn(l: Lists, layout: seq<Value>) returns (r: Option<seq<TurnRef>>)
    ensures r.Some? ==> Covers(l, layout, r.value)
    ensures r.None? ==> forall refs :: !Covers(l, layout, refs)
  {
    hide TurnEntry;
    var itemRefs := new bool[|l.items|](_ => false);
    var partRefs := new bool[|l.parts|](_ => false);
    var toolRefs := new bool[|l.calls|](_ => false);
    var ordered: seq<TurnRef> := [];
    for i := 0 to |layout|
      invariant |ordered| == i && itemRefs != partRefs && partRefs != toolRefs && itemRefs != toolRefs
      invariant Spelled(l, layout[..i], ordered)
      invariant forall k, n :: 0 <= k < n < i ==> ordered[k] != ordered[n]
      invariant forall k :: 0 <= k < |l.items| ==> (itemRefs[k] <==> ItemRef(k) in ordered)
      invariant forall k :: 0 <= k < |l.parts| ==> (partRefs[k] <==> TextRef(k) in ordered)
      invariant forall k :: 0 <= k < |l.calls| ==> (toolRefs[k] <==> CallRef(k) in ordered)
    {
      var ref := TurnEntry(l, layout[i]);
      if ref.None? {
        return None;
      }
      var repeated := match ref.value
        case ItemRef(k) => itemRefs[k]
        case TextRef(k) => partRefs[k]
        case CallRef(k) => toolRefs[k];
      if repeated {
        NoCover(l, layout, ordered, ref.value);
        return None;
      }
      match ref.value {
        case ItemRef(k) => itemRefs[k] := true;
        case TextRef(k) => partRefs[k] := true;
        case CallRef(k) => toolRefs[k] := true;
      }
      ordered := ordered + [ref.value];
    }
    assert layout[..|layout|] == layout;
    assert forall refs :: Spelled(l, layout, refs) ==> refs == ordered;
    if exists k :: 0 <= k < |l.parts| && !partRefs[k] && !MayBeLeftOut(l.parts[k]) {
      return None;
    }
    if exists k :: 0 <= k < |l.items| && !itemRefs[k] {
      return None;
    }
    if exists k :: 0 <= k < |l.calls| && !toolRefs[k] {
      return None;
    }
    return Some(ordered);
  }

  lemma {:induction false} TotalMonotone(items: seq<Value>, i: nat)
    requires i <= |items|
    ensures TotalBytes(items[..i]).None? ==> TotalBytes(items).None?
    decreases |items| - i
  {
    hide ItemBytes;
    if i < |items| {
      assert items[..i + 1][..i] == items[..i];
      TotalMonotone(items, i + 1);
    } else {
      assert items[..i] == items;
    }
  }

  method CheckItems(items: seq<Value>) returns (ok: bool)
    ensures ok <==> TotalBytes(items).Some? && TotalBytes(items).value <= MAX_MESSAGE_BYTES
  {
    hide ItemBytes;
    var total: nat := 0;
    for i := 0 to |items|
      invariant TotalBytes(items[..i]) == Some(total)
    {
      assert items[..i + 1][..i] == items[..i];
      var n := ItemBytes(items[i]);
      if n.None? {
        TotalMonotone(items, i + 1);
        return false;
      }
      total := total + n.value;
    }
    assert items[..|items|] == items;
    return total <= MAX_MESSAGE_BYTES;
  }

  /** `openai_layout`: nothing for another family; the turn's entries in layout order exactly when
      the layout covers the turn; an error otherwise. */
  method OpenAiLayout(m: Message) returns (r: Result<Option<seq<TurnRef>>, ()>)
    ensures r == Ok(None) <==> !IsOpenAiFamily(m)
    ensures r.Ok? && r.value.Some? ==> IsTurn(m, r.value.value)
    ensures r.Err? ==> forall refs :: !IsTurn(m, refs)
  {
    if !IsOpenAiFamily(m) {
      return Ok(None);
    }
    if LAYOUT_KEY !in m.extensions || ITEMS_KEY !in m.extensions
       || !m.extensions[LAYOUT_KEY].Arr? || !m.extensions[ITEMS_KEY].Arr? {
      return Err(());
    }
    if m.role != Assistant || |m.extensions[LAYOUT_KEY].elems| > MAX_BLOCKS {
      return Err(());
    }
    var sized := CheckItems(m.extensions[ITEMS_KEY].elems);
    if !sized {
      return Err(());
    }
    if m.content.Some? && !m.content.value.Parts? {
      return Err(());
    }
    var ok := CheckIds(m.toolCalls);
    if !ok {
      return Err(());
    }
    hide Covers;
    var lists := Lists(m.extensions[ITEMS_KEY].elems, PartsOf(m), m.toolCalls);
    var ordered := OrderTurn(lists, m.extensions[LAYOUT_KEY].elems);
    if ordered.None? {
      return Err(());
    }
    return Ok(ordered);
  }
}
