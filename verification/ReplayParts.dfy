/** The parts of a message without a layout, read back from the blocks of its turn. */
module ReplayParts {
  import opened Common
  import opened Json
  import opened Chat
  import opened Replay
  import T = Text

  /** The part a wire block says. */
  function PartSaid(block: Value): ContentPart {
    var marker, source := Get(block, "cache_control"), At(block, "source");
    if At(block, "type") == Str("text") then Text(StrOr(At(block, "text"), ""), marker)
    else if At(block, "type") == Str("image") then
      ImageUrl(if At(source, "type") == Str("base64")
               then T.Base64Url(StrOr(At(source, "media_type"), ""), StrOr(At(source, "data"), ""))
               else StrOr(At(source, "url"), ""), marker)
    else if At(block, "type") == Str("thinking") then
      Thinking(StrOr(At(block, "thinking"), ""), AsStr(At(block, "signature")))
    else if At(block, "type") == Str("redacted_thinking") then RedactedThinking(StrOr(At(block, "data"), ""))
    else Unknown(block)
  }

  /** The block says the part; a part of an unknown kind is its own block. */
  predicate Says(block: Value, part: ContentPart) {
    if part.Unknown? then block == part.value else PartSaid(block) == part
  }

  /** An image goes inline exactly when its URL carries Base64 data. */
  lemma ImageSaid(url: string, marker: Option<Value>)
    ensures Says(PartToBlock(ImageUrl(url, marker)), ImageUrl(url, marker))
    ensures At(At(PartToBlock(ImageUrl(url, marker)), "source"), "type") == Str("base64")
       <==> exists media, body :: url == T.Base64Url(media, body)
  {
    T.Base64UrlExact(url);
    hide T.DataUrl;
  }

  lemma BlockSaid(part: ContentPart)
    ensures Says(PartToBlock(part), part)
  {
    hide T.DataUrl;
    if part.ImageUrl? {
      ImageSaid(part.url, part.marker);
    }
  }

  /** What a turn without a layout may carry of a message's parts: no redacted thinking, and thinking
      without its signature. */
  function Carried(parts: seq<ContentPart>): seq<ContentPart> {
    if parts == [] then []
    else
      var before, part := Carried(parts[..|parts| - 1]), parts[|parts| - 1];
      if part.RedactedThinking? then before
      else if part.Thinking? then before + [Thinking(part.thinking, None)]
      else before + [part]
  }

  ghost predicate SayAll(blocks: seq<Value>, parts: seq<ContentPart>) {
    |blocks| == |parts| && forall k :: 0 <= k < |parts| ==> Says(blocks[k], parts[k])
  }

  lemma {:induction false} PartsSaid(parts: seq<ContentPart>)
    ensures SayAll(PartBlocks(parts), Carried(parts))
  {
    hide PartToBlock, Says;
    if parts != [] {
      var part := parts[|parts| - 1];
      PartsSaid(parts[..|parts| - 1]);
      BlockSaid(part);
      if part.Thinking? {
        BlockSaid(Thinking(part.thinking, None));
      }
    }
  }

  /** The turn of a message without markers: the parts it may carry, in order and each with its cache
      marker, and then the calls in order; refused exactly when a call has no id or no name. */
  lemma PartsTurn(codec: Codec, m: Message, parts: seq<ContentPart>)
    requires m.extensions == map[] && m.content == Some(Parts(parts))
    ensures var turn, calls, n := TurnBlocks(codec, m), m.toolCalls, |Carried(parts)|;
            && (turn.Ok? <==> forall k :: 0 <= k < |calls| ==> calls[k].id != "" && calls[k].name != "")
            && (turn.Ok? ==>
                  && |turn.value| == n + |calls| && SayAll(turn.value[..n], Carried(parts))
                  && forall k :: 0 <= k < |calls| ==> ReplaysCall(codec, calls[k], turn.value[n + k]))
  {
    hide RenderRefs, ReplaysCall, PartBlocks, Carried, Says;
    PartsSaid(parts);
    CallsRender(codec, m.toolCalls, |m.toolCalls|);
    assert AllCalls(m.toolCalls)[..|m.toolCalls|] == AllCalls(m.toolCalls);
    hide AllCalls;
    assert LayoutOf(m) == Ok(None);
    hide LayoutOf;
    var made := RenderRefs(codec, [], m.toolCalls, AllCalls(m.toolCalls));
    if made.Ok? {
      var turn := PartBlocks(parts) + made.value;
      assert turn[..|PartBlocks(parts)|] == PartBlocks(parts);
    }
  }
}
