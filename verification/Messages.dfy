/** Values shared by the services: optional values, JSON arguments and tool calls. */
module Messages {

  datatype Option<+T> = None | Some(value: T)

  /** A JSON value as far as the gate, the handlers and the orchestrator look at it. */
  datatype Value = Number(x: real) | Boolean(b: bool) | Text(s: string) | Other(tag: nat)

  /** The `args` member of a request: a JSON object, or any other JSON value. */
  datatype Args = Object(fields: map<string, Value>) | NotAnObject

  /** A tool call as the bridge decodes it. */
  datatype ToolCall = ToolCall(name: string, args: Args)
}
