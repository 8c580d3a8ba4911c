/**
 * The records exchanged between the chat client and the assistant service
 * (src/types/chat.ts). Optional TypeScript fields (`tools?`, `isStreaming?`,
 * `tool?`, `result?`) become `Option` values, so that "absent" stays
 * distinguishable from "empty" or "false", as it is in the source.
 */
module ChatTypes {

  datatype Option<+T> = None | Some(value: T) {
    function GetOr(default: T): T {
      match this
      case Some(v) => v
      case None => default
    }
  }

  /** The five event kinds of a streamed record. */
  datatype StreamEventType = Text | ToolCall | ToolResult | Error | Done

  /** The four lifecycle states of one tool invocation. */
  datatype ToolStatus = Pending | Running | Completed | Failed

  /**
   * A tool result is whatever JSON the service sent (`result?: any`).
   * Objects keep their members in the order they were received.
   */
  datatype Json =
    | JNull
    | JBool(b: bool)
    | JNumber(n: real)
    | JString(s: string)
    | JArray(items: seq<Json>)
    | JObject(members: seq<(string, Json)>)

  datatype ToolInfo = ToolInfo(name: string, id: string, status: ToolStatus, result: Option<Json>)

  datatype StreamEvent = StreamEvent(kind: StreamEventType, content: string, tool: Option<ToolInfo>, timestamp: string)

  datatype Role = User | Assistant

  datatype Message = Message(
    id: string,
    role: Role,
    content: string,
    timestamp: string,
    tools: Option<seq<ToolInfo>>,
    isStreaming: Option<bool>)

  /**
   * JavaScript truthiness of an optional JSON value: `undefined`, `null`,
   * `false`, `0`, `-0` and `""` are falsy, every array and object is truthy.
   */
  predicate Truthy(v: Option<Json>) {
    match v
    case None => false
    case Some(JNull) => false
    case Some(JBool(b)) => b
    case Some(JNumber(n)) => n != 0.0
    case Some(JString(s)) => s != ""
    case Some(JArray(_)) => true
    case Some(JObject(_)) => true
  }
}
