/** What the turns of a Gemini request say, read back from their JSON members. */
module GeminiSpeech {
  import opened Common
  import opened Json
  import opened Chat
  import opened GeminiTurns
  import T = Text

  datatype Utterance =
    | Says(text: string)
    | Thinks(thought: string)
    | Shows(url: string)
    | Redacted(data: string)
    | Calls(name: string, args: Value, signature: Option<string>)
    | Returns(name: string, result: string)
    | Nothing

  /** What a part of a turn says. */
  function Heard(part: Value): Utterance {
    if Get(part, "functionCall").Some? then
      var call := At(part, "functionCall");
      Calls(StrOr(At(call, "name"), ""), At(call, "args"), AsStr(At(part, "thoughtSignature")))
    else if Get(part, "functionResponse").Some? then
      var given := At(part, "functionResponse");
      Returns(StrOr(At(given, "name"), ""), StrOr(At(At(given, "response"), "content"), ""))
    else if At(part, "text").Str? then
      if At(part, "thought") == Bool(true) then Thinks(At(part, "text").s) else Says(At(part, "text").s)
    else if Get(part, "inline_data").Some? then
      var inline := At(part, "inline_data");
      Shows(T.Base64Url(StrOr(At(inline, "mime_type"), ""), StrOr(At(inline, "data"), "")))
    else if Get(part, "file_data").Some? then Shows(StrOr(At(At(part, "file_data"), "file_uri"), ""))
    else if At(part, "thoughtSignature").Str? then Redacted(At(part, "thoughtSignature").s)
    else Nothing
  }

  function HeardIn(flat: seq<(string, Value)>): seq<(string, Utterance)> {
    if flat == [] then []
    else
      var last := flat[|flat| - 1];
      HeardIn(flat[..|flat| - 1]) + [(last.0, Heard(last.1))]
  }

  // ----- what the messages mean

  function PartMeant(part: ContentPart): Utterance {
    match part
    case Text(text, _) => Says(text)
    case ImageUrl(url, _) => Shows(url)
    case Thinking(thinking, _) => Thinks(thinking)
    case RedactedThinking(data) => Redacted(data)
    case Unknown(_) => Nothing
  }

  function PartsMeant(parts: seq<ContentPart>): seq<Utterance> {
    if parts == [] then [] else PartsMeant(parts[..|parts| - 1]) + [PartMeant(parts[|parts| - 1])]
  }

  function ContentMeant(content: Option<Content>): seq<Utterance> {
    match content
    case None => []
    case Some(PlainText(text)) => [Says(text)]
    case Some(Parts(parts)) => PartsMeant(parts)
  }

  /** The first calls of a message; `unsigned` says that none of its calls has a signature. */
  function CallsMeant(codec: Codec, calls: seq<ToolCall>, unsigned: bool): seq<Utterance> {
    if calls == [] then []
    else
      var call := calls[|calls| - 1];
      var parsed := codec.parse(call.arguments);
      CallsMeant(codec, calls[..|calls| - 1], unsigned)
      + [Calls(call.name, if parsed.Some? && parsed.value.Obj? then parsed.value else Obj(map[]),
               if unsigned && |calls| == 1 then Some("skip_thought_signature_validator") else call.signature)]
  }

  function By(role: string, said: seq<Utterance>): seq<(string, Utterance)> {
    if said == [] then [] else By(role, said[..|said| - 1]) + [(role, said[|said| - 1])]
  }

  /** A system message says nothing in the turns, the assistant speaks as the model, and the results
      of tools come from the user. */
  function Meant(codec: Codec, names: map<string, string>, m: Message): seq<(string, Utterance)> {
    match m.role
    case System => []
    case User => By("user", ContentMeant(m.content) + CallsMeant(codec, m.toolCalls, false))
    case Assistant =>
      By("model", ContentMeant(m.content) + CallsMeant(codec, m.toolCalls, !AnySigned(m.toolCalls)))
    case Tool =>
      if m.callId.Some? && m.callId.value in names
      then [("user", Returns(names[m.callId.value], ResultText(m.content)))] else []
  }

  function AllMeant(codec: Codec, names: map<string, string>, messages: seq<Message>): seq<(string, Utterance)> {
    if messages == [] then []
    else AllMeant(codec, names, messages[..|messages| - 1]) + Meant(codec, names, messages[|messages| - 1])
  }

  // ----- part by part

  /** An inline image is written for the data URLs with a Base64 body and for no other. */
  lemma ImageHeard(url: string)
    ensures Heard(ImagePart(url)) == Shows(url)
    ensures Get(ImagePart(url), "inline_data").Some? <==> exists mime, data :: url == T.Base64Url(mime, data)
  {
    T.Base64UrlExact(url);
    hide T.DataUrl;
  }

  lemma PartHeard(part: ContentPart)
    requires PartToGemini(part).Ok?
    ensures Heard(PartToGemini(part).value) == PartMeant(part)
  {
    hide ImagePart;
    if part.ImageUrl? {
      ImageHeard(part.url);
    }
  }

  function HeardAll(parts: seq<Value>): seq<Utterance> {
    if parts == [] then [] else HeardAll(parts[..|parts| - 1]) + [Heard(parts[|parts| - 1])]
  }

  lemma {:induction false} HeardAppend(a: seq<Value>, b: seq<Value>)
    ensures HeardAll(a + b) == HeardAll(a) + HeardAll(b)
  {
    hide Heard;
    if b == [] {
      assert a + b == a;
    } else {
      assert (a + b)[..|a + b| - 1] == a + b[..|b| - 1];
      HeardAppend(a, b[..|b| - 1]);
    }
  }

  lemma {:induction false} PartsHeard(parts: seq<ContentPart>)
    requires PartsToGemini(parts).Ok?
    ensures HeardAll(PartsToGemini(parts).value) == PartsMeant(parts)
  {
    hide Heard, PartToGemini, PartMeant;
    if parts != [] {
      var init := parts[..|parts| - 1];
      PartsHeard(init);
      PartHeard(parts[|parts| - 1]);
      var done, v := PartsToGemini(init).value, PartToGemini(parts[|parts| - 1]).value;
      assert (done + [v])[..|done + [v]| - 1] == done;
    }
  }

  lemma ContentHeard(content: Option<Content>)
    requires ContentToParts(content).Ok?
    ensures HeardAll(ContentToParts(content).value) == ContentMeant(content)
  {
    hide PartsToGemini, PartsMeant;
    match content
    case Some(Parts(parts)) => PartsHeard(parts);
    case Some(PlainText(text)) =>
      var part := Obj(map["text" := Str(text)]);
      assert [part][..0] == [];
    case None =>
  }

  lemma CallHeard(codec: Codec, call: ToolCall)
    requires CallPart(codec, call).Ok?
    ensures Heard(CallPart(codec, call).value) == Calls(call.name, ArgsOf(codec, call.arguments), call.signature)
    ensures Heard(Signed(CallPart(codec, call).value, PLACEHOLDER))
         == Calls(call.name, ArgsOf(codec, call.arguments), Some(PLACEHOLDER))
  {
    hide ArgsOf;
  }

  /** The calls, the first one signed with the placeholder if asked. */
  function Marked(parts: seq<Value>, unsigned: bool): seq<Value> {
    if unsigned && parts != [] then parts[0 := Signed(parts[0], PLACEHOLDER)] else parts
  }

  lemma {:induction false} CallsHeard(codec: Codec, calls: seq<ToolCall>, unsigned: bool)
    requires CallParts(codec, calls).Ok?
    ensures |CallParts(codec, calls).value| == |calls|
    ensures HeardAll(Marked(CallParts(codec, calls).value, unsigned)) == CallsMeant(codec, calls, unsigned)
  {
    hide Heard, CallPart, Signed;
    if calls != [] {
      var init, last := calls[..|calls| - 1], calls[|calls| - 1];
      CallsHeard(codec, init, unsigned);
      CallHeard(codec, last);
      var done, v := CallParts(codec, init).value, CallPart(codec, last).value;
      var before, after := Marked(done, unsigned), Marked(done + [v], unsigned);
      assert after[..|after| - 1] == before;
    }
  }

  lemma SpokenHeard(codec: Codec, m: Message)
    requires SpokenParts(codec, m).Ok?
    ensures HeardAll(SpokenParts(codec, m).value)
         == ContentMeant(m.content) + CallsMeant(codec, m.toolCalls, m.role.Assistant? && !AnySigned(m.toolCalls))
  {
    hide HeardAll, ContentToParts, CallParts, ContentMeant, CallsMeant, Signed;
    var unsigned := m.role.Assistant? && !AnySigned(m.toolCalls);
    ContentHeard(m.content);
    CallsHeard(codec, m.toolCalls, unsigned);
    HeardAppend(ContentToParts(m.content).value, Marked(CallParts(codec, m.toolCalls).value, unsigned));
  }

  // ----- turn by turn

  lemma {:induction false} HeardInAppend(a: seq<(string, Value)>, b: seq<(string, Value)>)
    ensures HeardIn(a + b) == HeardIn(a) + HeardIn(b)
  {
    hide Heard;
    if b == [] {
      assert a + b == a;
    } else {
      assert (a + b)[..|a + b| - 1] == a + b[..|b| - 1];
      HeardInAppend(a, b[..|b| - 1]);
    }
  }

  lemma {:induction false} TaggedHeard(role: string, parts: seq<Value>)
    ensures HeardIn(Tagged(Turn(role, parts))) == By(role, HeardAll(parts))
  {
    hide Heard;
    if parts != [] {
      var init := parts[..|parts| - 1];
      TaggedHeard(role, init);
      var whole := Tagged(Turn(role, parts));
      assert whole[..|whole| - 1] == Tagged(Turn(role, init));
      var said := HeardAll(parts);
      assert said[..|said| - 1] == HeardAll(init);
    }
  }

  lemma ReturnHeard(name: string, text: string)
    ensures Heard(ResultPart(name, text)) == Returns(name, text)
  {
  }

  lemma SaidHeard(codec: Codec, names: map<string, string>, m: Message)
    requires Said(codec, names, m).Ok?
    ensures HeardIn(Tagged(Said(codec, names, m).value)) == Meant(codec, names, m)
  {
    hide Heard, HeardAll, HeardIn, Tagged, By, SpokenParts, ContentMeant, CallsMeant, ResultPart, ResultText;
    match m.role {
      case System =>
        NothingHeard();
      case Tool =>
        var part := ResultPart(names[m.callId.value], ResultText(m.content));
        ReturnHeard(names[m.callId.value], ResultText(m.content));
        ResultSaid(part);
      case _ =>
        SpokenHeard(codec, m);
        TaggedHeard(if m.role.Assistant? then "model" else "user", SpokenParts(codec, m).value);
    }
  }

  lemma NothingHeard()
    ensures HeardIn(Tagged(Turn("system", []))) == []
  {
  }

  lemma ResultSaid(part: Value)
    ensures HeardIn(Tagged(Turn("user", [part]))) == [("user", Heard(part))]
  {
    hide Heard;
    var tagged := Tagged(Turn("user", [part]));
    assert tagged[..0] == [];
  }

  lemma {:induction false} FlatHeard(codec: Codec, names: map<string, string>, messages: seq<Message>)
    requires forall i :: 0 <= i < |messages| ==> Said(codec, names, messages[i]).Ok?
    ensures HeardIn(FlatSaid(codec, names, messages)) == AllMeant(codec, names, messages)
  {
    hide Said, Tagged, Heard, Meant;
    if messages != [] {
      var init, m := messages[..|messages| - 1], messages[|messages| - 1];
      FlatHeard(codec, names, init);
      SaidHeard(codec, names, m);
      HeardInAppend(FlatSaid(codec, names, init), Tagged(Said(codec, names, m).value));
    }
  }

  /** The turns of an accepted conversation, read back, say what the messages mean, in order and each
      in the role of its speaker. */
  lemma ConversationHeard(codec: Codec, messages: seq<Message>)
    requires ConversationOf(codec, messages).Ok?
    ensures HeardIn(Flat(ConversationOf(codec, messages).value.contents))
         == AllMeant(codec, Names(messages), messages)
  {
    hide Names, Said, Alternates, HeardIn, AllMeant;
    StepsExact(codec, Names(messages), messages);
    FlatHeard(codec, Names(messages), messages);
  }

  // ----- texts of results and of the system

  /** The texts of the text parts, in order. */
  function Texts(parts: seq<ContentPart>): seq<string> {
    if parts == [] then []
    else
      var last := parts[|parts| - 1];
      Texts(parts[..|parts| - 1]) + (if last.Text? then [last.text] else [])
  }

  /** Texts only, at least one of them with a cache marker. */
  predicate MarkedTexts(parts: seq<ContentPart>) {
    && (forall i :: 0 <= i < |parts| ==> parts[i].Text?)
    && (exists i :: 0 <= i < |parts| && parts[i].Text? && parts[i].marker.Some?)
  }

  /** Texts on lines of their own. */
  function OnLines(texts: seq<string>): string {
    if texts == [] then "" else if |texts| == 1 then texts[0] else texts[0] + "\n" + OnLines(texts[1..])
  }

  lemma {:induction false} OnLinesSnoc(texts: seq<string>, last: string)
    requires texts != []
    ensures OnLines(texts + [last]) == OnLines(texts) + "\n" + last
  {
    if |texts| == 1 {
      assert (texts + [last])[1..] == [last];
    } else {
      assert (texts + [last])[1..] == texts[1..] + [last];
      OnLinesSnoc(texts[1..], last);
      var rest := OnLines(texts[1..]);
      assert texts[0] + "\n" + (rest + "\n" + last) == (texts[0] + "\n" + rest) + "\n" + last;
    }
  }

  lemma {:induction false} JoinedLines(parts: seq<ContentPart>)
    requires forall i :: 0 <= i < |parts| ==> parts[i].Text?
    ensures |Texts(parts)| == |parts| && JoinTexts(parts, "\n") == OnLines(Texts(parts))
  {
    if parts != [] {
      var init, last := parts[..|parts| - 1], parts[|parts| - 1];
      JoinedLines(init);
      if init != [] {
        OnLinesSnoc(Texts(init), last.text);
      }
    }
  }

  lemma {:induction false} JoinedWhole(parts: seq<ContentPart>)
    ensures JoinTexts(parts, "") == Flatten(Texts(parts))
  {
    if parts != [] {
      var init, last := parts[..|parts| - 1], parts[|parts| - 1];
      JoinedWhole(init);
      assert JoinTexts(init, "") + "" + TextOf(last) == JoinTexts(init, "") + TextOf(last);
      FlattenSnoc(Texts(init), TextOf(last));
      assert !last.Text? ==> Texts(parts) == Texts(init);
      assert |parts| == 1 ==> JoinTexts(init, "") + TextOf(last) == TextOf(last);
    }
  }

  /** A result is its texts run together, or on lines when its parts are texts with a marker. */
  lemma ResultWhole(parts: seq<ContentPart>)
    ensures ResultText(Some(Parts(parts)))
         == if MarkedTexts(parts) then OnLines(Texts(parts)) else Flatten(Texts(parts))
  {
    hide JoinTexts, Texts, OnLines;
    if MarkedTexts(parts) {
      JoinedLines(parts);
    }
    JoinedWhole(parts);
  }

  function NonEmpty(texts: seq<string>): seq<string> {
    if texts == [] then []
    else
      var last := texts[|texts| - 1];
      NonEmpty(texts[..|texts| - 1]) + (if last != "" then [last] else [])
  }

  lemma {:induction false} SystemPartsAre(parts: seq<ContentPart>)
    ensures SystemParts(parts) == NonEmpty(Texts(parts))
  {
    if parts != [] {
      var init, last := parts[..|parts| - 1], parts[|parts| - 1];
      SystemPartsAre(init);
      if last.Text? {
        var texts := Texts(parts);
        assert texts[..|texts| - 1] == Texts(init) && texts[|texts| - 1] == last.text;
      } else {
        assert Texts(parts) == Texts(init);
      }
    }
  }

  /** The texts a system message gives: its plain text, the texts of its parts, or those on lines as
      one text when they carry a marker. */
  function SystemMeant(content: Option<Content>): seq<string> {
    match content
    case None => []
    case Some(PlainText(text)) => NonEmpty([text])
    case Some(Parts(parts)) => if MarkedTexts(parts) then [OnLines(Texts(parts))] else NonEmpty(Texts(parts))
  }

  function AllSystem(messages: seq<Message>): seq<string> {
    if messages == [] then []
    else
      var m := messages[|messages| - 1];
      AllSystem(messages[..|messages| - 1]) + (if m.role.System? then SystemMeant(m.content) else [])
  }

  lemma SystemTextsAre(content: Option<Content>)
    ensures SystemTexts(content) == SystemMeant(content)
  {
    hide Texts, OnLines, JoinTexts;
    match content
    case Some(Parts(parts)) =>
      SystemPartsAre(parts);
      if MarkedTexts(parts) {
        JoinedLines(parts);
      }
    case Some(PlainText(text)) => assert [text][..0] == [] && NonEmpty([]) + [text] == [text];
    case None =>
  }

  /** The system instruction of an accepted conversation is the texts of its system messages, in
      order. */
  lemma {:induction false} SystemHeard(codec: Codec, names: map<string, string>, messages: seq<Message>)
    requires Steps(codec, names, messages).Ok?
    ensures Steps(codec, names, messages).value.system == AllSystem(messages)
  {
    hide Said, PushResult, SystemTexts, SystemMeant;
    if messages != [] {
      var m := messages[|messages| - 1];
      SystemHeard(codec, names, messages[..|messages| - 1]);
      SystemTextsAre(m.content);
    }
  }
}
