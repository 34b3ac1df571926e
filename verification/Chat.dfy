/** The canonical chat messages the translators share. */
module Chat {
  import opened Common
  import opened Json

  datatype Role = System | User | Assistant | Tool

  /** A part of a message; `marker` is a prompt-cache marker in its wire form. */
  datatype ContentPart =
    | Text(text: string, marker: Option<Value>)
    | ImageUrl(url: string, marker: Option<Value>)
    | Thinking(thinking: string, signature: Option<string>)
    | RedactedThinking(data: string)
    | Unknown(value: Value)

  datatype Content = PlainText(plain: string) | Parts(parts: seq<ContentPart>)

  datatype ToolCall = ToolCall(id: string, name: string, arguments: string, signature: Option<string>)

  datatype Message = Message(
    role: Role, content: Option<Content>, toolCalls: seq<ToolCall>, callId: Option<string>,
    extensions: map<string, Value>)

  function PartsOf(m: Message): seq<ContentPart> {
    if m.content.Some? && m.content.value.Parts? then m.content.value.parts else []
  }
}
