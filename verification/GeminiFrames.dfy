/** Gemini frames as the upstream writes them, and what a stream of them says. */
module GeminiFrames {
  import opened Common
  import opened Json
  import opened Events
  import opened Gemini

  // ----- counts

  /** A count that can be read: absent, null, or an integer in the range of `u64`. */
  predicate IsCount(meta: Value, key: string) {
    var v := At(meta, key);
    v.Null? || (v.Int? && 0 <= v.i <= U64_MAX)
  }

  lemma CountExact(meta: Value, key: string)
    ensures MetaCount(meta, key).Ok? <==> IsCount(meta, key)
    ensures MetaCount(meta, key).Ok? ==>
              MetaCount(meta, key).value == if At(meta, key).Int? then At(meta, key).i else 0
  {
  }

  /** The counts of an answer. */
  datatype Tokens = Tokens(prompt: nat, cached: nat, tool: nat, thoughts: nat, candidates: nat)

  function Total(t: Tokens): nat {
    t.prompt + t.tool + t.thoughts + t.candidates
  }

  function Metadata(t: Tokens): Value {
    Obj(map["promptTokenCount" := Int(t.prompt), "cachedContentTokenCount" := Int(t.cached),
            "toolUsePromptTokenCount" := Int(t.tool), "thoughtsTokenCount" := Int(t.thoughts),
            "candidatesTokenCount" := Int(t.candidates), "totalTokenCount" := Int(Total(t))])
  }

  /** The prompt takes in the tools' part, the completion the thoughts. */
  function UsageIn(t: Tokens): Usage {
    Usage(t.prompt + t.tool, t.candidates + t.thoughts, t.cached, 0, 0, 0, t.thoughts, 0)
  }

  lemma MetadataCounts(t: Tokens)
    requires Total(t) <= U64_MAX && t.cached <= t.prompt
    ensures var m := Metadata(t);
            && MetaCount(m, "promptTokenCount") == Ok(t.prompt)
            && MetaCount(m, "cachedContentTokenCount") == Ok(t.cached)
            && MetaCount(m, "toolUsePromptTokenCount") == Ok(t.tool)
            && MetaCount(m, "thoughtsTokenCount") == Ok(t.thoughts)
            && MetaCount(m, "candidatesTokenCount") == Ok(t.candidates)
            && MetaCount(m, "totalTokenCount") == Ok(Total(t))
            && AsU64(At(m, "promptTokenCount")).Some? && AsU64(At(m, "totalTokenCount")).Some?
  {
  }

  /** Written counts read back. */
  lemma UsageReads(t: Tokens)
    requires Total(t) <= U64_MAX && t.cached <= t.prompt
    ensures UsageOf(Metadata(t)) == Ok(UsageIn(t))
  {
    MetadataCounts(t);
    KeyNames();
    UsageExact(Metadata(t));
    NoWrites(Metadata(t));
    assert Metadata(t).Obj?;
    hide Metadata, KEYS, UsageOf, MetaCount;
    assert Closes(Metadata(t));
  }

  /** Nothing on this wire reports cache writes. */
  lemma NoWrites(meta: Value)
    requires UsageOf(meta).Ok?
    ensures var u := UsageOf(meta).value;
            u.cacheWrite == 0 && u.cacheWrite5m == 0 && u.cacheWrite1h == 0 && u.explicitCacheRead == 0
  {
    hide MetaCount;
  }

  // ----- reasons

  /** What the wire's word for a finish means when the answer makes no call. */
  predicate Means(raw: string, reason: FinishReason) {
    match reason
    case Stop => raw == "STOP"
    case Length => raw == "MAX_TOKENS"
    case ContentFilter => raw in {"SAFETY", "PROHIBITED_CONTENT", "BLOCKLIST"}
    case Other(r) => r == raw && raw !in {"STOP", "MAX_TOKENS", "SAFETY", "PROHIBITED_CONTENT", "BLOCKLIST"}
    case ToolCalls => false
    case StopSequence => false
  }

  /** An answer with a call finishes for its calls, another as its word says. */
  predicate Finishes(raw: string, calls: bool, reason: FinishReason) {
    if calls then reason == ToolCalls else Means(raw, reason)
  }

  lemma ReasonExact(raw: string, calls: bool, reason: FinishReason)
    ensures FinishReasonOf(raw, calls) == reason <==> Finishes(raw, calls, reason)
  {
  }

  // ----- frames

  /** What one frame carries. */
  datatype Piece = Piece(parts: seq<Value>, reason: Option<string>, meta: Option<Value>)

  function Written(p: Piece): Value {
    var content := map["content" := Obj(map["parts" := Arr(p.parts)])];
    var candidate := Obj(if p.reason.Some? then content["finishReason" := Str(p.reason.value)] else content);
    var frame := map["candidates" := Arr([candidate])];
    Obj(if p.meta.Some? then frame["usageMetadata" := p.meta.value] else frame)
  }

  lemma FrameReads(p: Piece)
    ensures IsSingle(Written(p)) && PartsOf(Written(p)) == p.parts
    ensures At(Candidate(Written(p)), "finishReason") == if p.reason.Some? then Str(p.reason.value) else Null
    ensures Get(Written(p), "usageMetadata") == p.meta && Missing(Written(p), "error")
  {
  }

  function Frames(pieces: seq<Piece>): (r: seq<Value>)
    ensures |r| == |pieces| && forall i :: 0 <= i < |r| ==> r[i] == Written(pieces[i])
  {
    if pieces == [] then [] else Frames(pieces[..|pieces| - 1]) + [Written(pieces[|pieces| - 1])]
  }

  function Parts(pieces: seq<Piece>): seq<Value> {
    if pieces == [] then [] else Parts(pieces[..|pieces| - 1]) + pieces[|pieces| - 1].parts
  }

  lemma {:induction false} PartsWritten(pieces: seq<Piece>)
    ensures AllParts(Frames(pieces)) == Parts(pieces)
  {
    hide Written, PartsOf;
    if pieces != [] {
      var init, last := pieces[..|pieces| - 1], pieces[|pieces| - 1];
      PartsWritten(init);
      FrameReads(last);
      var frames := Frames(pieces);
      assert frames[..|frames| - 1] == Frames(init);
    }
  }

  /** One answer in pieces: only the last one finishes, with usage. */
  predicate IsAnswer(pieces: seq<Piece>, raw: string, tokens: Tokens) {
    && pieces != [] && (forall i :: 0 <= i < |pieces| - 1 ==> pieces[i].reason.None?)
    && pieces[|pieces| - 1].reason == Some(raw) && pieces[|pieces| - 1].meta == Some(Metadata(tokens))
    && Total(tokens) <= U64_MAX && tokens.cached <= tokens.prompt
  }

  /** The answer whole. */
  function Whole(pieces: seq<Piece>, raw: string, tokens: Tokens): Value {
    Written(Piece(Parts(pieces), Some(raw), Some(Metadata(tokens))))
  }

  lemma WholeCuts(pieces: seq<Piece>, raw: string, tokens: Tokens)
    requires IsAnswer(pieces, raw, tokens)
    ensures Cuts(Frames(pieces), Whole(pieces, raw, tokens))
  {
    hide Written, Metadata, PartsOf, Candidate, AllParts, Missing;
    PartsWritten(pieces);
    FrameReads(Piece(Parts(pieces), Some(raw), Some(Metadata(tokens))));
    var frames := Frames(pieces);
    forall i | 0 <= i < |pieces|
      ensures IsSingle(frames[i])
      ensures At(Candidate(frames[i]), "finishReason")
           == if pieces[i].reason.Some? then Str(pieces[i].reason.value) else Null
      ensures Get(frames[i], "usageMetadata") == pieces[i].meta
    {
      FrameReads(pieces[i]);
    }
  }

  /** The last events: the finish the word and the calls decide, the written counts, and `Done`. */
  predicate EndsWith(events: seq<StreamEvent>, n: nat, raw: string, calls: bool, tokens: Tokens) {
    && |events| == n + 3
    && events[n].Finish? && events[n].reason.Some? && events[n].stopSequence.None?
    && Finishes(raw, calls, events[n].reason.value)
    && events[n + 1] == UsageReport(UsageIn(tokens))
    && events[n + 2] == Done
  }

  lemma LastWritten(pieces: seq<Piece>, raw: string, tokens: Tokens)
    requires IsAnswer(pieces, raw, tokens)
    ensures var frame := Frames(pieces)[|pieces| - 1];
            && At(Candidate(frame), "finishReason") == Str(raw)
            && At(frame, "usageMetadata") == Metadata(tokens)
  {
    hide Written, Metadata, Candidate, Frames, IsSingle, PartsOf;
    var last := pieces[|pieces| - 1];
    assert Frames(pieces)[|pieces| - 1] == Written(last);
    FrameReads(last);
  }

  lemma AnswerEvents(codec: Codec, pieces: seq<Piece>, raw: string, tokens: Tokens)
    requires IsAnswer(pieces, raw, tokens) && Run(codec, Frames(pieces)).Ok?
    ensures var parts := StreamParts(codec, 0, Parts(pieces));
            && parts.Ok?
            && Run(codec, Frames(pieces)).value.1
               == parts.value.1
                  + [Finish(Some(FinishReasonOf(raw, parts.value.0 > 0)), None), UsageReport(UsageIn(tokens)), Done]
  {
    LastWritten(pieces, raw, tokens);
    WholeCuts(pieces, raw, tokens);
    PartsWritten(pieces);
    UsageReads(tokens);
    hide Run, Parts, StreamParts, Whole, Metadata, Cuts, UsageOf, FinishReasonOf, AllParts, Candidate, IsAnswer;
    CutRun(codec, Frames(pieces), Whole(pieces, raw, tokens));
  }

  lemma EndsSo(content: seq<StreamEvent>, raw: string, calls: bool, tokens: Tokens)
    ensures EndsWith(content + [Finish(Some(FinishReasonOf(raw, calls)), None), UsageReport(UsageIn(tokens)), Done],
                     |content|, raw, calls, tokens)
  {
    ReasonExact(raw, calls, FinishReasonOf(raw, calls));
    hide FinishReasonOf, Finishes;
  }

  /** A streamed answer, however it is cut, says the texts, the thoughts and the calls of its parts,
      in order, and then ends with its reason and its counts. */
  lemma AnswerStreams(codec: Codec, pieces: seq<Piece>, raw: string, tokens: Tokens) returns (n: nat)
    requires IsAnswer(pieces, raw, tokens) && Run(codec, Frames(pieces)).Ok?
    ensures var events := Run(codec, Frames(pieces)).value.1;
            && n <= |events| && SaysParts(codec, 0, Parts(pieces), events[..n])
            && EndsWith(events, n, raw, CallsIn(Parts(pieces)) != [], tokens)
  {
    hide Run, Frames, Parts, StreamParts, FinishReasonOf, SaysParts, CallsIn, EndsWith, UsageIn;
    AnswerEvents(codec, pieces, raw, tokens);
    StreamReads(codec, 0, Parts(pieces));
    var (calls, content) := StreamParts(codec, 0, Parts(pieces)).value;
    EndsSo(content, raw, calls > 0, tokens);
    n := |content|;
    assert Run(codec, Frames(pieces)).value.1[..n] == content;
  }

  /** The buffered answer says the same of the whole. */
  lemma AnswerBuffers(codec: Codec, p: Piece, raw: string, tokens: Tokens)
    requires p.reason == Some(raw) && p.meta == Some(Metadata(tokens))
    requires Total(tokens) <= U64_MAX && tokens.cached <= tokens.prompt
    ensures var r := ParseResponse(codec, Written(p));
            && (r.Ok? <==> AllSigned(p.parts))
            && (r.Ok? ==>
                  && ReadsParts(codec, p.parts, r.value.buffer)
                  && r.value.finish.Some? && Finishes(raw, CallsIn(p.parts) != [], r.value.finish.value)
                  && r.value.usage == UsageIn(tokens))
  {
    FrameReads(p);
    UsageReads(tokens);
    BufferReads(codec, p.parts);
    if ParseResponse(codec, Written(p)).Ok? {
      var b := BufferParts(codec, p.parts).value;
      assert (b.calls != []) == (CallsIn(p.parts) != []);
      ReasonExact(raw, b.calls != [], FinishReasonOf(raw, b.calls != []));
    }
    hide Written, Metadata, UsageOf, BufferParts, PartsOf, FinishReasonOf, Finishes, AllSigned, CallsIn;
  }
}
