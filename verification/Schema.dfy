/** Conversation messages (pkg/schema), and what running tool calls adds to a conversation (pkg/tool). */
module Schema {

  datatype Role = System | User | Assistant | Tool

  datatype ToolCall = ToolCall(id: string, name: string, arguments: string)

  datatype Message = Message(role: Role, text: string, toolCalls: seq<ToolCall>, toolCallId: string)

  /** What a provider call yields. */
  datatype Generated = Reply(message: Message) | Failed(reason: string)

  function SystemMessage(text: string): Message { Message(System, text, [], "") }

  function UserMessage(text: string): Message { Message(User, text, [], "") }

  function ToolResultMessage(callId: string, text: string): Message { Message(Tool, text, [], callId) }

  function Last(ms: seq<Message>): Message
    requires |ms| > 0
  {
    ms[|ms| - 1]
  }

  /** ExecuteCalls and AsToolResultMessages: one result per call, in the order of the calls, with its id. */
  function ToolResults(execute: ToolCall -> string, calls: seq<ToolCall>): (ms: seq<Message>)
    ensures |ms| == |calls|
    ensures forall i :: 0 <= i < |calls| ==> ms[i] == Message(Tool, execute(calls[i]), [], calls[i].id)
  {
    seq(|calls|, i requires 0 <= i < |calls| => ToolResultMessage(calls[i].id, execute(calls[i])))
  }
}
