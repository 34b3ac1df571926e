/** Encrypted-reasoning turns as they are written, and read back. */
module OpenAiTurns {
  import opened Common
  import opened Json
  import opened Chat
  import opened Replay
  import opened OpenAiReplay
  import Utf8

  // ----- items

  function ItemOf(id: string, summary: seq<Value>, encrypted: string, content: Option<seq<Value>>): Value {
    var fields := map["type" := Str("reasoning"), "id" := Str(id), "summary" := Arr(summary),
                      "encrypted_content" := Str(encrypted)];
    Obj(if content.Some? then fields["content" := Arr(content.value)] else fields)
  }

  /** An encrypted content that may be replayed: not empty, not one of the local wrappings, and
      within the bound. */
  predicate Replays(encrypted: string) {
    encrypted != "" && !("tsr." <= encrypted) && |Utf8.Encode(encrypted)| <= MAX_ITEM_BYTES
  }

  ghost predicate IsItem(item: Value, id: string, summary: seq<Value>, encrypted: string,
                         content: Option<seq<Value>>) {
    item == ItemOf(id, summary, encrypted, content) && id != "" && Replays(encrypted)
  }

  lemma ItemReads(id: string, summary: seq<Value>, encrypted: string, content: Option<seq<Value>>)
    requires id != "" && Replays(encrypted)
    ensures ItemBytes(ItemOf(id, summary, encrypted, content)) == Some(|Utf8.Encode(encrypted)|)
  {
  }

  lemma ItemIs(item: Value)
    requires ItemBytes(item).Some?
    ensures exists id, summary, encrypted, content ::
              && IsItem(item, id, summary, encrypted, content)
              && ItemBytes(item) == Some(|Utf8.Encode(encrypted)|)
  {
    hide Utf8.Encode;
    var id, summary, encrypted := At(item, "id").s, At(item, "summary").elems, At(item, "encrypted_content").s;
    var content := if Get(item, "content").Some? then Some(At(item, "content").elems) else None;
    assert item.fields.Keys == ItemOf(id, summary, encrypted, content).fields.Keys;
    assert item.fields == ItemOf(id, summary, encrypted, content).fields;
    assert IsItem(item, id, summary, encrypted, content);
  }

  /** A reasoning item is valid exactly when it is written this way, and its size is that of its
      encrypted content. */
  lemma ItemExact(item: Value, n: nat)
    ensures ItemBytes(item) == Some(n)
       <==> exists id, summary, encrypted, content ::
              IsItem(item, id, summary, encrypted, content) && n == |Utf8.Encode(encrypted)|
  {
    hide ItemBytes, Utf8.Encode, Replays;
    if ItemBytes(item) == Some(n) {
      ItemIs(item);
    }
    if id, summary, encrypted, content :|
         IsItem(item, id, summary, encrypted, content) && n == |Utf8.Encode(encrypted)| {
      ItemReads(id, summary, encrypted, content);
    }
  }

  // ----- layouts

  function ItemEntry(k: nat): Value {
    Obj(map["kind" := Str("reasoning_item"), "index" := Int(k)])
  }

  function EntryOf(l: Lists, ref: TurnRef): Value {
    match ref
    case ItemRef(k) => ItemEntry(k)
    case TextRef(k) => ContentEntry(k)
    case CallRef(k) => ToolEntry(if k < |l.calls| then l.calls[k].id else "")
  }

  function Layout(l: Lists, refs: seq<TurnRef>): (r: seq<Value>)
    ensures |r| == |refs| && forall i :: 0 <= i < |r| ==> r[i] == EntryOf(l, refs[i])
  {
    if refs == [] then [] else Layout(l, refs[..|refs| - 1]) + [EntryOf(l, refs[|refs| - 1])]
  }

  /** The reference points into its list, at a text part when it is a part. */
  predicate PointsInto(l: Lists, ref: TurnRef) {
    match ref
    case ItemRef(k) => k < |l.items| && k <= U64_MAX
    case TextRef(k) => k < |l.parts| && k <= U64_MAX && l.parts[k].Text?
    case CallRef(k) => k < |l.calls|
  }

  lemma CallFound(calls: seq<ToolCall>, k: nat)
    requires UniqueIds(calls) && k < |calls|
    ensures CallOf(calls, calls[k].id) == Some(k)
  {
    var found := CallOf(calls, calls[k].id).value;
    assert calls[found].id == calls[k].id;
  }

  lemma EntryReads(l: Lists, ref: TurnRef)
    requires UniqueIds(l.calls) && PointsInto(l, ref)
    ensures TurnEntry(l, EntryOf(l, ref)) == Some(ref)
  {
    hide CallOf, UniqueIds;
    if ref.CallRef? {
      CallFound(l.calls, ref.call);
    }
  }

  /** A written layout is the one its references say: it covers the turn exactly when they name every
      item, text and call once. */
  lemma LayoutReads(l: Lists, refs: seq<TurnRef>)
    requires UniqueIds(l.calls) && (forall i :: 0 <= i < |refs| ==> PointsInto(l, refs[i]))
    ensures Covers(l, Layout(l, refs), refs)
       <==> && (forall i, j :: 0 <= i < j < |refs| ==> refs[i] != refs[j])
            && (forall k :: 0 <= k < |l.items| ==> ItemRef(k) in refs)
            && (forall k :: 0 <= k < |l.parts| ==>
                  TextRef(k) in refs || (l.parts[k].Thinking? && l.parts[k].signature.None?))
            && (forall k :: 0 <= k < |l.calls| ==> CallRef(k) in refs)
    ensures forall other :: Covers(l, Layout(l, refs), other) ==> other == refs
  {
    hide TurnEntry, EntryOf, UniqueIds, PointsInto;
    forall i | 0 <= i < |refs|
      ensures TurnEntry(l, Layout(l, refs)[i]) == Some(refs[i])
    {
      EntryReads(l, refs[i]);
    }
  }
}
