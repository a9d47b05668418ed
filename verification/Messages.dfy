/** The chat messages of a request, as every part of the agent passes them on. */
module Messages {
  import opened Wrappers

  datatype Role = SystemRole | UserRole | AssistantRole | ToolRole

  datatype Call = Call(id: string, kind: string, name: string, arguments: string)

  datatype Detail = Low | Original | Auto

  datatype ImageRef = Path(path: string) | Url(url: string, detail: Option<Detail>)

  datatype Message = Message(
    role: Role,
    content: string,
    images: seq<ImageRef>,
    reasoning: Option<string>,
    callId: Option<string>,
    calls: seq<Call>)
}
