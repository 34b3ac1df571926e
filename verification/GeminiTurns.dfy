/** The conversation a Gemini request carries: turns, replayed calls and merged tool results. */
module GeminiTurns {
  import opened Common
  import opened Json
  import opened Chat
  import T = Text
  import Gemini

  datatype TurnError = UnmappablePart | UnnamedCall | EmptySignature | UnknownCall

  /** One element of `contents`. */
  datatype Turn = Turn(role: string, parts: seq<Value>)

  const PLACEHOLDER := "skip_thought_signature_validator"

  // ----- call names

  /** Every call of a conversation, in order. */
  function Calls(messages: seq<Message>): seq<ToolCall> {
    if messages == [] then []
    else Calls(messages[..|messages| - 1]) + messages[|messages| - 1].toolCalls
  }

  function NameMap(calls: seq<ToolCall>): map<string, string> {
    if calls == [] then map[]
    else NameMap(calls[..|calls| - 1])[calls[|calls| - 1].id := calls[|calls| - 1].name]
  }

  /** `tool_call_names`. */
  function Names(messages: seq<Message>): map<string, string> {
    NameMap(Calls(messages))
  }

  /** The name kept for an id is that of the last call carrying it. */
  lemma {:induction false} NameMapExact(calls: seq<ToolCall>, id: string)
    ensures id in NameMap(calls) <==> exists k :: 0 <= k < |calls| && calls[k].id == id
    ensures id in NameMap(calls) ==>
              exists k :: 0 <= k < |calls| && calls[k].id == id && calls[k].name == NameMap(calls)[id]
                          && forall j :: k < j < |calls| ==> calls[j].id != id
  {
    if calls != [] {
      var init, last := calls[..|calls| - 1], calls[|calls| - 1];
      NameMapExact(init, id);
      if last.id == id {
        assert calls[|calls| - 1].id == id;
      } else if id in NameMap(init) {
        var k :| 0 <= k < |init| && init[k].id == id && init[k].name == NameMap(init)[id]
                 && forall j :: k < j < |init| ==> init[j].id != id;
        assert calls[k].id == id;
      }
    }
  }

  /** Calls that share an id share a name. */
  predicate Consistent(calls: seq<ToolCall>) {
    forall j, k :: 0 <= j < |calls| && 0 <= k < |calls| && calls[j].id == calls[k].id ==>
                     calls[j].name == calls[k].name
  }

  /** Every call is found under its own name exactly when equal ids mean equal names. */
  lemma NamesExact(calls: seq<ToolCall>)
    ensures Consistent(calls)
       <==> forall k :: 0 <= k < |calls| ==>
              calls[k].id in NameMap(calls) && NameMap(calls)[calls[k].id] == calls[k].name
  {
    if Consistent(calls) {
      forall k | 0 <= k < |calls|
        ensures calls[k].id in NameMap(calls) && NameMap(calls)[calls[k].id] == calls[k].name
      {
        NameMapExact(calls, calls[k].id);
      }
    }
  }

  ghost predicate Synthetic(call: ToolCall) {
    exists position: nat :: call.id == Gemini.SyntheticCallId(position, call.name)
  }

  /** A synthetic id determines both the position and the name. */
  lemma SyntheticInjective(p: nat, name: string, q: nat, other: string)
    requires Gemini.SyntheticCallId(p, name) == Gemini.SyntheticCallId(q, other)
    ensures p == q && name == other
  {
    var a, b := T.Decimal(p), T.Decimal(q);
    var id := Gemini.SyntheticCallId(p, name);
    assert id == Gemini.SyntheticCallId(q, other);
    hide T.Decimal, T.DecimalValue;
    assert forall i :: 0 <= i < |a| ==> id[5 + i] == a[i];
    assert forall i :: 0 <= i < |b| ==> id[5 + i] == b[i];
    assert id[5 + |a|] == '_' && id[5 + |b|] == '_';
    assert |a| == |b|;
    assert id[5..][..|a|] == a && id[5..][..|b|] == b;
    assert id[6 + |a|..] == name && id[6 + |b|..] == other;
  }

  lemma SyntheticConsistent(calls: seq<ToolCall>)
    requires forall k :: 0 <= k < |calls| ==> Synthetic(calls[k])
    ensures Consistent(calls)
  {
    forall j, k | 0 <= j < |calls| && 0 <= k < |calls| && calls[j].id == calls[k].id
      ensures calls[j].name == calls[k].name
    {
      assert Synthetic(calls[j]) && Synthetic(calls[k]);
      var p: nat :| calls[j].id == Gemini.SyntheticCallId(p, calls[j].name);
      var q: nat :| calls[k].id == Gemini.SyntheticCallId(q, calls[k].name);
      SyntheticInjective(p, calls[j].name, q, calls[k].name);
    }
  }

  // ----- the parts of a turn

  function PartToGemini(part: ContentPart): Result<Value, TurnError> {
    match part
    case Text(text, _) => Ok(Obj(map["text" := Str(text)]))
    case ImageUrl(url, _) => Ok(ImagePart(url))
    case Thinking(thinking, _) => Ok(Obj(map["text" := Str(thinking), "thought" := Bool(true)]))
    case RedactedThinking(data) => Ok(Obj(map["thoughtSignature" := Str(data)]))
    case Unknown(_) => Err(UnmappablePart)
  }

  function ImagePart(url: string): Value {
    var remote := Obj(map["file_data" := Obj(map["file_uri" := Str(url)])]);
    match T.DataUrl(url)
    case None => remote
    case Some((mime, data)) => Obj(map["inline_data" := Obj(map["mime_type" := Str(mime), "data" := Str(data)])])
  }

  function PartsToGemini(parts: seq<ContentPart>): Result<seq<Value>, TurnError> {
    if parts == [] then Ok([])
    else match PartsToGemini(parts[..|parts| - 1])
      case Err(e) => Err(e)
      case Ok(done) =>
        match PartToGemini(parts[|parts| - 1])
        case Err(e) => Err(e)
        case Ok(v) => Ok(done + [v])
  }

  /** `content_to_parts`. */
  function ContentToParts(content: Option<Content>): Result<seq<Value>, TurnError> {
    match content
    case None => Ok([])
    case Some(PlainText(text)) => Ok([Obj(map["text" := Str(text)])])
    case Some(Parts(parts)) => PartsToGemini(parts)
  }

  function ArgsOf(codec: Codec, arguments: string): Value {
    match codec.parse(arguments)
    case Some(v) => if v.Obj? then v else Obj(map[])
    case None => Obj(map[])
  }

  /** The `functionCall` part that replays a call. */
  function CallPart(codec: Codec, call: ToolCall): Result<Value, TurnError> {
    if call.name == "" then Err(UnnamedCall)
    else if call.signature == Some("") then Err(EmptySignature)
    else
      var plain := map["functionCall" := Obj(map["name" := Str(call.name), "args" := ArgsOf(codec, call.arguments)])];
      Ok(Obj(match call.signature
             case None => plain
             case Some(signature) => plain["thoughtSignature" := Str(signature)]))
  }

  function CallParts(codec: Codec, calls: seq<ToolCall>): Result<seq<Value>, TurnError> {
    if calls == [] then Ok([])
    else match CallParts(codec, calls[..|calls| - 1])
      case Err(e) => Err(e)
      case Ok(done) =>
        match CallPart(codec, calls[|calls| - 1])
        case Err(e) => Err(e)
        case Ok(v) => Ok(done + [v])
  }

  predicate AnySigned(calls: seq<ToolCall>) {
    exists k :: 0 <= k < |calls| && calls[k].signature.Some?
  }

  function Signed(part: Value, signature: string): Value {
    if part.Obj? then Obj(part.fields["thoughtSignature" := Str(signature)]) else part
  }

  /** The parts a user or assistant message contributes. */
  function SpokenParts(codec: Codec, m: Message): Result<seq<Value>, TurnError> {
    match ContentToParts(m.content)
    case Err(e) => Err(e)
    case Ok(parts) =>
      match CallParts(codec, m.toolCalls)
      case Err(e) => Err(e)
      case Ok(calls) =>
        if m.role.Assistant? && !AnySigned(m.toolCalls) && calls != [] then
          Ok(parts + calls[0 := Signed(calls[0], PLACEHOLDER)])
        else Ok(parts + calls)
  }

  /** `marker_only_text`: the joined text of a part list that exists only for its markers. */
  function MarkerOnlyText(content: Option<Content>): Option<string> {
    if content.Some? && content.value.Parts? then
      var parts := content.value.parts;
      if (forall i :: 0 <= i < |parts| ==> parts[i].Text?)
         && (exists i :: 0 <= i < |parts| && parts[i].Text? && parts[i].marker.Some?)
      then Some(JoinTexts(parts, "\n")) else None
    else None
  }

  function TextOf(part: ContentPart): string {
    if part.Text? then part.text else ""
  }

  function JoinTexts(parts: seq<ContentPart>, separator: string): string {
    if parts == [] then ""
    else if |parts| == 1 then TextOf(parts[0])
    else JoinTexts(parts[..|parts| - 1], separator) + separator + TextOf(parts[|parts| - 1])
  }

  /** The text a tool result carries. */
  function ResultText(content: Option<Content>): string {
    match MarkerOnlyText(content)
    case Some(text) => text
    case None =>
      match content
      case None => ""
      case Some(PlainText(text)) => text
      case Some(Parts(parts)) => JoinTexts(parts, "")
  }

  function SystemParts(parts: seq<ContentPart>): seq<string> {
    if parts == [] then []
    else
      var text := TextOf(parts[|parts| - 1]);
      SystemParts(parts[..|parts| - 1]) + (if text != "" then [text] else [])
  }

  /** `system_text_of`. */
  function SystemTexts(content: Option<Content>): seq<string> {
    match MarkerOnlyText(content)
    case Some(text) => [text]
    case None =>
      match content
      case None => []
      case Some(PlainText(text)) => if text != "" then [text] else []
      case Some(Parts(parts)) => SystemParts(parts)
  }

  function ResultPart(name: string, text: string): Value {
    Obj(map["functionResponse" := Obj(map["name" := Str(name), "response" := Obj(map["content" := Str(text)])])])
  }

  predicate IsResultPart(part: Value) {
    part.Obj? && |part.fields| == 1 && "functionResponse" in part.fields
  }

  /** `is_function_response_turn`. */
  predicate IsResultTurn(turn: Turn) {
    turn.role == "user" && turn.parts != [] && forall i :: 0 <= i < |turn.parts| ==> IsResultPart(turn.parts[i])
  }

  // ----- the conversation

  datatype Conversation = Conversation(system: seq<string>, contents: seq<Turn>)

  function PushResult(contents: seq<Turn>, part: Value): seq<Turn> {
    if contents != [] && IsResultTurn(contents[|contents| - 1]) then
      var last := contents[|contents| - 1];
      contents[..|contents| - 1] + [last.(parts := last.parts + [part])]
    else contents + [Turn("user", [part])]
  }

  /** What one message says: its turn's role and parts. */
  function Said(codec: Codec, names: map<string, string>, m: Message): Result<Turn, TurnError> {
    match m.role
    case System => Ok(Turn("system", []))
    case Tool =>
      if m.callId.Some? && m.callId.value in names then
        Ok(Turn("user", [ResultPart(names[m.callId.value], ResultText(m.content))]))
      else Err(UnknownCall)
    case _ =>
      match SpokenParts(codec, m)
      case Err(e) => Err(e)
      case Ok(parts) => Ok(Turn(if m.role.Assistant? then "model" else "user", parts))
  }

  function Step(codec: Codec, names: map<string, string>, c: Conversation, m: Message)
    : Result<Conversation, TurnError>
  {
    match Said(codec, names, m)
    case Err(e) => Err(e)
    case Ok(turn) =>
      match m.role
      case System => Ok(c.(system := c.system + SystemTexts(m.content)))
      case Tool => Ok(if turn.parts == [] then c else c.(contents := PushResult(c.contents, turn.parts[0])))
      case _ => Ok(if turn.parts == [] then c else c.(contents := c.contents + [turn]))
  }

  function Steps(codec: Codec, names: map<string, string>, messages: seq<Message>): Result<Conversation, TurnError> {
    if messages == [] then Ok(Conversation([], []))
    else match Steps(codec, names, messages[..|messages| - 1])
      case Err(e) => Err(e)
      case Ok(c) => Step(codec, names, c, messages[|messages| - 1])
  }

  /** `conversation_of`. */
  function ConversationOf(codec: Codec, messages: seq<Message>): Result<Conversation, TurnError> {
    Steps(codec, Names(messages), messages)
  }

  // ----- no part is lost, repeated or moved

  /** Parts with the role that says them. */
  function Tagged(turn: Turn): seq<(string, Value)> {
    seq(|turn.parts|, i requires 0 <= i < |turn.parts| => (turn.role, turn.parts[i]))
  }

  function Flat(contents: seq<Turn>): seq<(string, Value)> {
    if contents == [] then [] else Flat(contents[..|contents| - 1]) + Tagged(contents[|contents| - 1])
  }

  /** The parts of the messages in order, each with the role that says it. */
  function FlatSaid(codec: Codec, names: map<string, string>, messages: seq<Message>): seq<(string, Value)> {
    if messages == [] then []
    else
      FlatSaid(codec, names, messages[..|messages| - 1])
      + match Said(codec, names, messages[|messages| - 1])
        case Err(_) => []
        case Ok(turn) => Tagged(turn)
  }

  /** A turn of results only, or a non-empty turn without any. */
  predicate PureTurn(turn: Turn) {
    || IsResultTurn(turn)
    || (turn.parts != [] && forall i :: 0 <= i < |turn.parts| ==> !IsResultPart(turn.parts[i]))
  }

  predicate Alternates(contents: seq<Turn>) {
    && (forall i :: 0 <= i < |contents| ==> PureTurn(contents[i]))
    && (forall i :: 0 <= i < |contents| - 1 ==> !(IsResultTurn(contents[i]) && IsResultTurn(contents[i + 1])))
  }

  /** The turns that are not made of results. */
  function SpeechOf(contents: seq<Turn>): seq<Turn> {
    if contents == [] then []
    else
      var last := contents[|contents| - 1];
      SpeechOf(contents[..|contents| - 1]) + (if IsResultTurn(last) then [] else [last])
  }

  /** The turns of the user and assistant messages that say anything. */
  function Speech(codec: Codec, names: map<string, string>, messages: seq<Message>): seq<Turn> {
    if messages == [] then []
    else
      var m := messages[|messages| - 1];
      Speech(codec, names, messages[..|messages| - 1])
      + match Said(codec, names, m)
        case Err(_) => []
        case Ok(turn) => if m.role.Tool? || turn.parts == [] then [] else [turn]
  }

  lemma PartNotResult(part: ContentPart)
    requires PartToGemini(part).Ok?
    ensures !IsResultPart(PartToGemini(part).value)
  {
    hide T.SplitOnceAt;
  }

  lemma {:induction false} PartsNotResults(parts: seq<ContentPart>)
    requires PartsToGemini(parts).Ok?
    ensures forall i :: 0 <= i < |PartsToGemini(parts).value| ==> !IsResultPart(PartsToGemini(parts).value[i])
  {
    hide PartToGemini, IsResultPart;
    if parts != [] {
      PartsNotResults(parts[..|parts| - 1]);
      PartNotResult(parts[|parts| - 1]);
    }
  }

  lemma {:induction false} CallsNotResults(codec: Codec, calls: seq<ToolCall>)
    requires CallParts(codec, calls).Ok?
    ensures |CallParts(codec, calls).value| == |calls|
    ensures forall i :: 0 <= i < |calls| ==>
              && CallPart(codec, calls[i]) == Ok(CallParts(codec, calls).value[i])
              && CallParts(codec, calls).value[i].Obj? && "functionResponse" !in CallParts(codec, calls).value[i].fields
  {
    if calls != [] {
      CallsNotResults(codec, calls[..|calls| - 1]);
    }
    hide CallPart;
  }

  lemma SpokenNotResults(codec: Codec, m: Message)
    requires SpokenParts(codec, m).Ok?
    ensures forall i :: 0 <= i < |SpokenParts(codec, m).value| ==> !IsResultPart(SpokenParts(codec, m).value[i])
  {
    hide CallParts, PartsToGemini;
    if m.content.Some? && m.content.value.Parts? {
      PartsNotResults(m.content.value.parts);
    }
    CallsNotResults(codec, m.toolCalls);
  }

  lemma {:induction false} FlatSnoc(contents: seq<Turn>, turn: Turn)
    ensures Flat(contents + [turn]) == Flat(contents) + Tagged(turn)
    ensures SpeechOf(contents + [turn]) == SpeechOf(contents) + (if IsResultTurn(turn) then [] else [turn])
  {
    assert (contents + [turn])[..|contents + [turn]| - 1] == contents;
  }

  lemma AlternatesSnoc(contents: seq<Turn>, turn: Turn)
    requires Alternates(contents) && PureTurn(turn)
    requires contents != [] ==> !(IsResultTurn(contents[|contents| - 1]) && IsResultTurn(turn))
    ensures Alternates(contents + [turn])
  {
    hide IsResultTurn, PureTurn;
    var grown := contents + [turn];
    assert forall i :: 0 <= i < |contents| ==> grown[i] == contents[i];
  }

  lemma AlternatesInit(contents: seq<Turn>)
    requires Alternates(contents) && contents != []
    ensures Alternates(contents[..|contents| - 1])
    ensures |contents| >= 2 ==> !(IsResultTurn(contents[|contents| - 2]) && IsResultTurn(contents[|contents| - 1]))
  {
    hide IsResultTurn, PureTurn;
    assert |contents| >= 2 ==> contents[|contents| - 2 + 1] == contents[|contents| - 1];
  }

  lemma GrowTurn(turn: Turn, part: Value)
    requires IsResultPart(part) && IsResultTurn(turn)
    ensures IsResultTurn(turn.(parts := turn.parts + [part]))
    ensures Tagged(turn.(parts := turn.parts + [part])) == Tagged(turn) + [("user", part)]
  {
    hide IsResultPart;
  }

  lemma NewResultTurn(part: Value)
    requires IsResultPart(part)
    ensures IsResultTurn(Turn("user", [part])) && Tagged(Turn("user", [part])) == [("user", part)]
  {
    hide IsResultPart;
  }

  lemma PushKeeps(contents: seq<Turn>, part: Value)
    requires IsResultPart(part) && Alternates(contents)
    ensures Alternates(PushResult(contents, part))
    ensures Flat(PushResult(contents, part)) == Flat(contents) + [("user", part)]
    ensures SpeechOf(PushResult(contents, part)) == SpeechOf(contents)
  {
    hide IsResultPart, IsResultTurn, Tagged, Alternates;
    if contents != [] && IsResultTurn(contents[|contents| - 1]) {
      var init, last := contents[..|contents| - 1], contents[|contents| - 1];
      var grown := last.(parts := last.parts + [part]);
      GrowTurn(last, part);
      AlternatesInit(contents);
      AlternatesSnoc(init, grown);
      FlatSnoc(init, grown);
      assert PushResult(contents, part) == init + [grown];
    } else {
      NewResultTurn(part);
      AlternatesSnoc(contents, Turn("user", [part]));
      FlatSnoc(contents, Turn("user", [part]));
    }
  }

  lemma SpeakKeeps(contents: seq<Turn>, turn: Turn)
    requires turn.parts != [] && (forall i :: 0 <= i < |turn.parts| ==> !IsResultPart(turn.parts[i]))
    requires Alternates(contents)
    ensures Alternates(contents + [turn])
    ensures Flat(contents + [turn]) == Flat(contents) + Tagged(turn)
    ensures SpeechOf(contents + [turn]) == SpeechOf(contents) + [turn]
  {
    hide IsResultPart, Alternates;
    assert !IsResultPart(turn.parts[0]);
    FlatSnoc(contents, turn);
    AlternatesSnoc(contents, turn);
  }

  /** The contents say what the messages say: same parts, same roles, same order. */
  ghost predicate Renders(codec: Codec, names: map<string, string>, messages: seq<Message>, contents: seq<Turn>) {
    && Flat(contents) == FlatSaid(codec, names, messages)
    && SpeechOf(contents) == Speech(codec, names, messages)
    && Alternates(contents)
  }

  lemma SaidSnoc(codec: Codec, names: map<string, string>, messages: seq<Message>, m: Message)
    requires Said(codec, names, m).Ok?
    ensures var turn := Said(codec, names, m).value;
            && FlatSaid(codec, names, messages + [m]) == FlatSaid(codec, names, messages) + Tagged(turn)
            && Speech(codec, names, messages + [m])
               == Speech(codec, names, messages) + (if m.role.Tool? || turn.parts == [] then [] else [turn])
  {
    hide Said, Tagged;
    assert (messages + [m])[..|messages + [m]| - 1] == messages;
  }

  /** A tool message says one result part; another message says no result part. */
  lemma SaidShape(codec: Codec, names: map<string, string>, m: Message)
    requires Said(codec, names, m).Ok?
    ensures var turn := Said(codec, names, m).value;
            if m.role.Tool? then turn.role == "user" && |turn.parts| == 1 && IsResultPart(turn.parts[0])
            else (m.role.System? ==> turn.parts == [])
                 && forall i :: 0 <= i < |turn.parts| ==> !IsResultPart(turn.parts[i])
  {
    hide SpokenParts, ResultText, IsResultPart, ResultPart;
    if m.role.Tool? {
      ResultIsResult(names[m.callId.value], ResultText(m.content));
    } else if !m.role.System? {
      SpokenNotResults(codec, m);
    }
  }

  lemma StepKeeps(codec: Codec, names: map<string, string>, messages: seq<Message>, c: Conversation, m: Message)
    requires Renders(codec, names, messages, c.contents) && Step(codec, names, c, m).Ok?
    ensures Renders(codec, names, messages + [m], Step(codec, names, c, m).value.contents)
  {
    hide Said, PushResult, IsResultPart, SystemTexts, Alternates, SpeechOf, Flat, FlatSaid, Speech;
    SaidShape(codec, names, m);
    SaidSnoc(codec, names, messages, m);
    var turn := Said(codec, names, m).value;
    if m.role.Tool? {
      PushKeeps(c.contents, turn.parts[0]);
      assert Tagged(turn) == [("user", turn.parts[0])];
    } else if turn.parts == [] {
      assert Tagged(turn) == [];
    } else {
      SpeakKeeps(c.contents, turn);
    }
  }

  lemma ResultIsResult(name: string, text: string)
    ensures IsResultPart(ResultPart(name, text))
  {
  }

  lemma NothingSaid(codec: Codec, names: map<string, string>)
    ensures Renders(codec, names, [], [])
  {
  }

  lemma StepAccepts(codec: Codec, names: map<string, string>, c: Conversation, m: Message)
    ensures Step(codec, names, c, m).Ok? <==> Said(codec, names, m).Ok?
  {
    hide Said, PushResult, SystemTexts;
  }

  /** A conversation is accepted exactly when every message alone is; then its contents say, part
      by part, what the messages say, and no two result turns touch. */
  lemma {:induction false} StepsExact(codec: Codec, names: map<string, string>, messages: seq<Message>)
    ensures Steps(codec, names, messages).Ok?
       <==> forall i :: 0 <= i < |messages| ==> Said(codec, names, messages[i]).Ok?
    ensures Steps(codec, names, messages).Ok? ==>
              Renders(codec, names, messages, Steps(codec, names, messages).value.contents)
  {
    if messages == [] {
      NothingSaid(codec, names);
    } else {
      hide Said, Step, Renders;
      var init, m := messages[..|messages| - 1], messages[|messages| - 1];
      StepsExact(codec, names, init);
      assert init + [m] == messages;
      if Steps(codec, names, init).Ok? {
        StepAccepts(codec, names, Steps(codec, names, init).value, m);
      }
      if Steps(codec, names, messages).Ok? {
        StepKeeps(codec, names, init, Steps(codec, names, init).value, m);
      }
    }
  }

  // ----- results

  function ResultsOf(flat: seq<(string, Value)>): seq<Value> {
    if flat == [] then []
    else
      var part := flat[|flat| - 1].1;
      ResultsOf(flat[..|flat| - 1]) + (if IsResultPart(part) then [part] else [])
  }

  /** The results the tool messages carry, in order. */
  function ToolResults(names: map<string, string>, messages: seq<Message>): seq<Value> {
    if messages == [] then []
    else
      var m := messages[|messages| - 1];
      ToolResults(names, messages[..|messages| - 1])
      + (if m.role.Tool? && m.callId.Some? && m.callId.value in names
         then [ResultPart(names[m.callId.value], ResultText(m.content))] else [])
  }

  function ToolCount(messages: seq<Message>): nat {
    if messages == [] then 0
    else ToolCount(messages[..|messages| - 1]) + (if messages[|messages| - 1].role.Tool? then 1 else 0)
  }

  lemma {:induction false} ResultsAppend(a: seq<(string, Value)>, b: seq<(string, Value)>)
    ensures ResultsOf(a + b) == ResultsOf(a) + ResultsOf(b)
  {
    hide IsResultPart;
    if b == [] {
      assert a + b == a;
    } else {
      assert (a + b)[..|a + b| - 1] == a + b[..|b| - 1];
      ResultsAppend(a, b[..|b| - 1]);
    }
  }

  lemma {:induction false} NoResults(flat: seq<(string, Value)>)
    requires forall i :: 0 <= i < |flat| ==> !IsResultPart(flat[i].1)
    ensures ResultsOf(flat) == []
  {
    hide IsResultPart;
    if flat != [] {
      NoResults(flat[..|flat| - 1]);
    }
  }

  lemma SaidResults(codec: Codec, names: map<string, string>, m: Message)
    requires Said(codec, names, m).Ok?
    ensures ResultsOf(Tagged(Said(codec, names, m).value)) == ToolResults(names, [m])
  {
    hide SpokenParts, ResultText, IsResultPart, ResultPart;
    SaidShape(codec, names, m);
    var flat := Tagged(Said(codec, names, m).value);
    assert [m][..0] == [];
    if m.role.Tool? {
      assert flat[..0] == [];
    } else {
      NoResults(flat);
    }
  }

  lemma {:induction false} FlatResults(codec: Codec, names: map<string, string>, messages: seq<Message>)
    requires forall i :: 0 <= i < |messages| ==> Said(codec, names, messages[i]).Ok?
    ensures ResultsOf(FlatSaid(codec, names, messages)) == ToolResults(names, messages)
  {
    hide Said, Tagged, ResultPart, IsResultPart, ResultText;
    if messages != [] {
      var init, m := messages[..|messages| - 1], messages[|messages| - 1];
      FlatResults(codec, names, init);
      SaidResults(codec, names, m);
      assert [m][..0] == [];
      ResultsAppend(FlatSaid(codec, names, init), Tagged(Said(codec, names, m).value));
    }
  }

  /** The result parts of the contents, in order, are the tool messages in order. */
  lemma ResultsInOrder(codec: Codec, messages: seq<Message>)
    requires ConversationOf(codec, messages).Ok?
    ensures ResultsOf(Flat(ConversationOf(codec, messages).value.contents)) == ToolResults(Names(messages), messages)
  {
    hide Names, Said, Alternates;
    StepsExact(codec, Names(messages), messages);
    FlatResults(codec, Names(messages), messages);
  }

  lemma {:induction false} ToolResultAt(names: map<string, string>, messages: seq<Message>, i: nat)
    requires i < |messages| && messages[i].role.Tool?
    requires forall k :: 0 <= k < |messages| && messages[k].role.Tool? ==>
               messages[k].callId.Some? && messages[k].callId.value in names
    ensures ToolCount(messages[..i]) < |ToolResults(names, messages)| == ToolCount(messages)
    ensures ToolResults(names, messages)[ToolCount(messages[..i])]
         == ResultPart(names[messages[i].callId.value], ResultText(messages[i].content))
  {
    hide ResultPart, ResultText;
    var init := messages[..|messages| - 1];
    ToolResultCount(names, init);
    if i < |init| {
      assert messages[..i] == init[..i];
      ToolResultAt(names, init, i);
    }
  }

  lemma {:induction false} ToolResultCount(names: map<string, string>, messages: seq<Message>)
    requires forall k :: 0 <= k < |messages| && messages[k].role.Tool? ==>
               messages[k].callId.Some? && messages[k].callId.value in names
    ensures |ToolResults(names, messages)| == ToolCount(messages)
  {
    hide ResultPart, ResultText;
    if messages != [] {
      ToolResultCount(names, messages[..|messages| - 1]);
    }
  }

  lemma {:induction false} CallsHold(messages: seq<Message>, j: nat, k: nat) returns (p: nat)
    requires j < |messages| && k < |messages[j].toolCalls|
    ensures p < |Calls(messages)| && Calls(messages)[p] == messages[j].toolCalls[k]
  {
    var init := messages[..|messages| - 1];
    if j < |init| {
      p := CallsHold(init, j, k);
    } else {
      p := |Calls(init)| + k;
    }
  }

  /** When equal ids mean equal names, the result a tool message leaves names the function of every
      call with its id, wherever that call stands. */
  lemma ResultNamesItsCall(codec: Codec, messages: seq<Message>, i: nat, j: nat, k: nat)
    requires ConversationOf(codec, messages).Ok? && Consistent(Calls(messages))
    requires i < |messages| && messages[i].role.Tool? && j < |messages| && k < |messages[j].toolCalls|
    requires messages[i].callId == Some(messages[j].toolCalls[k].id)
    ensures var results := ResultsOf(Flat(ConversationOf(codec, messages).value.contents));
            && ToolCount(messages[..i]) < |results| == ToolCount(messages)
            && results[ToolCount(messages[..i])]
               == ResultPart(messages[j].toolCalls[k].name, ResultText(messages[i].content))
  {
    hide ResultPart, ResultText, SpokenParts, Calls, NameMap, Alternates;
    var names := Names(messages);
    ResultsInOrder(codec, messages);
    StepsExact(codec, names, messages);
    forall m | 0 <= m < |messages| && messages[m].role.Tool?
      ensures messages[m].callId.Some? && messages[m].callId.value in names
    {
      assert Said(codec, names, messages[m]).Ok?;
    }
    ToolResultAt(names, messages, i);
    NamesExact(Calls(messages));
    var p := CallsHold(messages, j, k);
  }

  /** In particular when every call id is synthetic, even one that repeats across turns. */
  lemma SyntheticResults(codec: Codec, messages: seq<Message>, i: nat, j: nat, k: nat)
    requires ConversationOf(codec, messages).Ok?
    requires forall c :: c in Calls(messages) ==> Synthetic(c)
    requires i < |messages| && messages[i].role.Tool? && j < |messages| && k < |messages[j].toolCalls|
    requires messages[i].callId == Some(messages[j].toolCalls[k].id)
    ensures var results := ResultsOf(Flat(ConversationOf(codec, messages).value.contents));
            && ToolCount(messages[..i]) < |results|
            && results[ToolCount(messages[..i])]
               == ResultPart(messages[j].toolCalls[k].name, ResultText(messages[i].content))
  {
    hide *;
    assert forall c :: 0 <= c < |Calls(messages)| ==> Synthetic(Calls(messages)[c]);
    SyntheticConsistent(Calls(messages));
    ResultNamesItsCall(codec, messages, i, j, k);
  }

  // ----- an answer's calls replayed

  /** The `functionCall` parts of an answer. */
  function CallSources(parts: seq<Value>): seq<Value> {
    if parts == [] then []
    else
      var part := parts[|parts| - 1];
      CallSources(parts[..|parts| - 1]) + (if Gemini.IsCall(part) then [part] else [])
  }

  lemma {:induction false} CallsOfSources(codec: Codec, parts: seq<Value>)
    requires Gemini.BufferParts(codec, parts).Ok?
    ensures var calls := Gemini.BufferParts(codec, parts).value.calls;
            && |calls| == |CallSources(parts)|
            && forall k :: 0 <= k < |calls| ==> Gemini.CallOf(codec, k, CallSources(parts)[k]) == Ok(calls[k])
  {
    hide Gemini.CallOf, Gemini.IsCall, Gemini.IsThought;
    if parts != [] {
      CallsOfSources(codec, parts[..|parts| - 1]);
    }
  }

  /** The JSON text of a call's arguments reads back as the document it came from. */
  predicate ReadsBack(codec: Codec, source: Value) {
    match Get(At(source, "functionCall"), "args")
    case None => codec.parse("{}") == Some(Obj(map[]))
    case Some(args) => codec.parse(codec.render(args)) == Some(args)
  }

  /** The arguments are left out or are an object. */
  predicate ObjectArgs(source: Value) {
    var args := Get(At(source, "functionCall"), "args");
    args.None? || args.value.Obj?
  }

  /** `part` is the replay of `source`: the same name, its arguments when they are an object and an
      empty object otherwise, and the given signature. */
  predicate ReplayOf(source: Value, part: Value, signature: Option<Value>) {
    var was, now := At(source, "functionCall"), At(part, "functionCall");
    && At(now, "name") == At(was, "name")
    && At(now, "args") == (if At(was, "args").Obj? then At(was, "args") else Obj(map[]))
    && Get(part, "thoughtSignature") == signature
  }

  /** `part` makes the call `source` makes: the same name and the same arguments, none being the
      empty object. */
  predicate SameCall(source: Value, part: Value) {
    var was, now := At(source, "functionCall"), At(part, "functionCall");
    && At(now, "name") == At(was, "name")
    && At(now, "args") == (if Get(was, "args").None? then Obj(map[]) else At(was, "args"))
  }

  lemma SameCallExact(source: Value, part: Value, signature: Option<Value>)
    requires ReplayOf(source, part, signature)
    ensures SameCall(source, part) <==> ObjectArgs(source)
  {
  }

  function SignatureOf(source: Value): Option<Value> {
    if Missing(source, "thoughtSignature") then None else Get(source, "thoughtSignature")
  }

  predicate NamedCall(source: Value) {
    At(At(source, "functionCall"), "name").Str? && At(At(source, "functionCall"), "name").s != ""
  }

  lemma CallReplays(codec: Codec, position: nat, source: Value)
    requires Gemini.CallOf(codec, position, source).Ok? && ReadsBack(codec, source)
    ensures var call := Gemini.CallOf(codec, position, source).value;
            && (CallPart(codec, call).Ok? <==> NamedCall(source))
            && (CallPart(codec, call).Ok? ==>
                  && ReplayOf(source, CallPart(codec, call).value, SignatureOf(source))
                  && CallPart(codec, call).value.Obj?)
            && (call.signature.Some? <==> SignatureOf(source).Some?)
  {
    hide Gemini.SyntheticCallId;
  }

  lemma {:induction false} CallPartsExact(codec: Codec, calls: seq<ToolCall>)
    ensures CallParts(codec, calls).Ok? <==> forall k :: 0 <= k < |calls| ==> CallPart(codec, calls[k]).Ok?
    ensures CallParts(codec, calls).Ok? ==>
              && |CallParts(codec, calls).value| == |calls|
              && forall k :: 0 <= k < |calls| ==> CallPart(codec, calls[k]) == Ok(CallParts(codec, calls).value[k])
  {
    hide CallPart;
    if calls != [] {
      CallPartsExact(codec, calls[..|calls| - 1]);
    }
  }

  /** What the replayed call at `k` is signed with: its own signature when any call of the answer
      has one, and otherwise the placeholder on the first call only. */
  function ReplaySignature(sources: seq<Value>, k: nat): Option<Value>
    requires k < |sources|
  {
    if exists i :: 0 <= i < |sources| && SignatureOf(sources[i]).Some? then SignatureOf(sources[k])
    else if k == 0 then Some(Str(PLACEHOLDER)) else None
  }

  /** A placeholder on a replayed call changes its signature only. */
  lemma SignedReplay(source: Value, part: Value, signature: Option<Value>, placeholder: string)
    requires ReplayOf(source, part, signature) && part.Obj?
    ensures ReplayOf(source, Signed(part, placeholder), Some(Str(placeholder)))
  {
  }

  /** What a call of an answer becomes, and whether it becomes anything. */
  lemma AnswerCalls(codec: Codec, parts: seq<Value>)
    requires Gemini.BufferParts(codec, parts).Ok?
    requires forall k :: 0 <= k < |CallSources(parts)| ==> ReadsBack(codec, CallSources(parts)[k])
    ensures var sources, calls := CallSources(parts), Gemini.BufferParts(codec, parts).value.calls;
            && |calls| == |sources|
            && (CallParts(codec, calls).Ok? <==> forall k :: 0 <= k < |sources| ==> NamedCall(sources[k]))
            && (CallParts(codec, calls).Ok? ==>
                  && |CallParts(codec, calls).value| == |sources|
                  && forall k :: 0 <= k < |sources| ==>
                       && ReplayOf(sources[k], CallParts(codec, calls).value[k], SignatureOf(sources[k]))
                       && CallParts(codec, calls).value[k].Obj?)
            && (AnySigned(calls) <==> exists i :: 0 <= i < |sources| && SignatureOf(sources[i]).Some?)
  {
    hide CallSources, Gemini.BufferParts, Gemini.CallOf, CallPart, CallParts, ReadsBack, NamedCall, ReplayOf;
    CallsOfSources(codec, parts);
    var from, made := CallSources(parts), Gemini.BufferParts(codec, parts).value.calls;
    forall k | 0 <= k < |made|
      ensures CallPart(codec, made[k]).Ok? <==> NamedCall(from[k])
      ensures CallPart(codec, made[k]).Ok? ==>
                && ReplayOf(from[k], CallPart(codec, made[k]).value, SignatureOf(from[k]))
                && CallPart(codec, made[k]).value.Obj?
      ensures made[k].signature.Some? <==> SignatureOf(from[k]).Some?
    {
      CallReplays(codec, k, from[k]);
    }
    hide SignatureOf;
    CallPartsExact(codec, made);
  }

  /** The calls read from an answer go back exactly when the content has a rendering and every call
      a name; then they go back in order, each as the call it came from exactly when its arguments
      are left out or an object. */
  lemma AnswerReplays(codec: Codec, parts: seq<Value>, content: Option<Content>)
    requires Gemini.BufferParts(codec, parts).Ok?
    requires forall k :: 0 <= k < |CallSources(parts)| ==> ReadsBack(codec, CallSources(parts)[k])
    ensures var calls := Gemini.BufferParts(codec, parts).value.calls;
            var turn := SpokenParts(codec, Message(Assistant, content, calls, None, map[]));
            var sources := CallSources(parts);
            && (turn.Ok? <==> ContentToParts(content).Ok? && forall k :: 0 <= k < |sources| ==> NamedCall(sources[k]))
            && (turn.Ok? ==>
                  var said := ContentToParts(content).value;
                  && |turn.value| == |said| + |sources| && turn.value[..|said|] == said
                  && forall k :: 0 <= k < |sources| ==>
                       && ReplayOf(sources[k], turn.value[|said| + k], ReplaySignature(sources, k))
                       && (SameCall(sources[k], turn.value[|said| + k]) <==> ObjectArgs(sources[k])))
  {
    hide CallSources, ContentToParts, Gemini.BufferParts, CallParts, ReadsBack, NamedCall, ObjectArgs, SameCall,
      SignatureOf, ReplayOf, Signed, AnySigned;
    AnswerCalls(codec, parts);
    var from, made := CallSources(parts), Gemini.BufferParts(codec, parts).value.calls;
    var spoken := SpokenParts(codec, Message(Assistant, content, made, None, map[]));
    if spoken.Ok? {
      var before, after := ContentToParts(content).value, CallParts(codec, made).value;
      forall k | 0 <= k < |from|
        ensures && ReplayOf(from[k], spoken.value[|before| + k], ReplaySignature(from, k))
                && (SameCall(from[k], spoken.value[|before| + k]) <==> ObjectArgs(from[k]))
      {
        SignedReplay(from[k], after[k], SignatureOf(from[k]), PLACEHOLDER);
        SameCallExact(from[k], spoken.value[|before| + k], ReplaySignature(from, k));
      }
    }
  }

  // ----- the loops

  lemma {:induction false} CallPartsFails(codec: Codec, calls: seq<ToolCall>, i: nat)
    requires i <= |calls| && CallParts(codec, calls[..i]).Err?
    ensures CallParts(codec, calls) == CallParts(codec, calls[..i])
    decreases |calls| - i
  {
    hide CallPart;
    if i < |calls| {
      assert calls[..i + 1][..i] == calls[..i];
      CallPartsFails(codec, calls, i + 1);
    } else {
      assert calls[..i] == calls;
    }
  }

  lemma {:induction false} StepsFails(codec: Codec, names: map<string, string>, messages: seq<Message>, i: nat)
    requires i <= |messages| && Steps(codec, names, messages[..i]).Err?
    ensures Steps(codec, names, messages) == Steps(codec, names, messages[..i])
    decreases |messages| - i
  {
    hide Step;
    if i < |messages| {
      assert messages[..i + 1][..i] == messages[..i];
      StepsFails(codec, names, messages, i + 1);
    } else {
      assert messages[..i] == messages;
    }
  }

  /** The parts of a user or assistant message: the loop over its calls. */
  method SpeakParts(codec: Codec, m: Message) returns (r: Result<seq<Value>, TurnError>)
    ensures r == SpokenParts(codec, m)
  {
    hide CallPart, ContentToParts;
    var content := ContentToParts(m.content);
    if content.Err? {
      return content;
    }
    var parts := content.value;
    var firstCallAt: Option<nat> := None;
    var anySigned := false;
    ghost var replayed: seq<Value> := [];
    for i := 0 to |m.toolCalls|
      invariant CallParts(codec, m.toolCalls[..i]) == Ok(replayed)
      invariant |replayed| == i && parts == content.value + replayed
      invariant firstCallAt == if i == 0 then None else Some(|content.value|)
      invariant anySigned == exists k :: 0 <= k < i && m.toolCalls[k].signature.Some?
    {
      assert m.toolCalls[..i + 1][..i] == m.toolCalls[..i];
      var part := CallPart(codec, m.toolCalls[i]);
      if part.Err? {
        CallPartsFails(codec, m.toolCalls, i + 1);
        return Err(part.error);
      }
      anySigned := anySigned || m.toolCalls[i].signature.Some?;
      if firstCallAt.None? {
        firstCallAt := Some(|parts|);
      }
      parts := parts + [part.value];
      replayed := replayed + [part.value];
    }
    assert m.toolCalls[..|m.toolCalls|] == m.toolCalls;
    assert anySigned == AnySigned(m.toolCalls);
    if m.role.Assistant? && !anySigned && firstCallAt.Some? {
      assert parts[|content.value|] == replayed[0];
      assert parts[|content.value| := Signed(replayed[0], PLACEHOLDER)]
          == content.value + replayed[0 := Signed(replayed[0], PLACEHOLDER)];
      parts := parts[firstCallAt.value := Signed(parts[firstCallAt.value], PLACEHOLDER)];
    }
    return Ok(parts);
  }

  /** The loop over the messages, which grows the last turn in place. */
  method BuildConversation(codec: Codec, messages: seq<Message>) returns (r: Result<Conversation, TurnError>)
    ensures r == ConversationOf(codec, messages)
  {
    hide SpokenParts, SystemTexts, ResultText, ResultPart, IsResultTurn, Names;
    var names := Names(messages);
    var system: seq<string>, contents: seq<Turn> := [], [];
    for i := 0 to |messages|
      invariant Steps(codec, names, messages[..i]) == Ok(Conversation(system, contents))
    {
      assert messages[..i + 1][..i] == messages[..i];
      var m := messages[i];
      match m.role {
        case System =>
          system := system + SystemTexts(m.content);
        case Tool =>
          if m.callId.None? || m.callId.value !in names {
            StepsFails(codec, names, messages, i + 1);
            return Err(UnknownCall);
          }
          var part := ResultPart(names[m.callId.value], ResultText(m.content));
          var last := |contents| - 1;
          if last >= 0 && IsResultTurn(contents[last]) {
            contents := contents[last := contents[last].(parts := contents[last].parts + [part])];
            assert contents == contents[..last] + [contents[last]];
          } else {
            contents := contents + [Turn("user", [part])];
          }
        case _ =>
          var parts := SpeakParts(codec, m);
          if parts.Err? {
            StepsFails(codec, names, messages, i + 1);
            return Err(parts.error);
          }
          if parts.value != [] {
            contents := contents + [Turn(if m.role.Assistant? then "model" else "user", parts.value)];
          }
      }
    }
    assert messages[..|messages|] == messages;
    return Ok(Conversation(system, contents));
  }
}
