/** Messages of a snapshot, flat rows of a dataset, and the messages an endpoint is
    sent. `None` in a wire message means that the field is not sent. */
module ConversationData {
  import opened Collections

  type Text = string

  datatype Role = System | User | Assistant | Tool | Other(name: string)

  /** A tool call; what the per-call field checks decide is kept as one flag. */
  datatype Call = Call(wellFormed: bool, json: string)

  /** A JSON field that may be missing, null or a text. */
  datatype Field = Absent | Null | Value(text: Text)

  datatype ToolResult = ToolResult(callId: Option<Text>, content: Field)

  /** A message of a snapshot. A missing and an empty list of tool calls are treated
      alike there. */
  datatype Msg = Msg(role: Role, content: Option<Text>, toolCalls: seq<Call>, toolCallId: Option<Text>)

  datatype Row = Row(
    conv: string,
    turn: int,
    role: Role,
    system: Option<Text>,
    content: Option<Text>,
    name: Option<Text>,
    toolCalls: Option<seq<Call>>,
    toolResults: Option<seq<ToolResult>>,
    reasoning: Option<Text>)

  datatype Wire = Wire(
    role: Role,
    content: Option<Text>,
    name: Option<Text>,
    toolCalls: Option<seq<Call>>,
    toolResults: Option<seq<ToolResult>>,
    reasoning: Option<Text>,
    toolCallId: Option<Text>)

  /** Python's truth value of an optional text. */
  predicate Truthy(t: Option<Text>) {
    t.Some? && t.value != ""
  }

  predicate IsClient(r: Role) {
    r == User || r == Tool
  }

  function SystemWire(system: Option<Text>): seq<Wire> {
    if Truthy(system) then [Wire(System, system, None, None, None, None, None)] else []
  }

  /** A snapshot message as the endpoint is sent it. */
  function MsgWire(m: Msg): Wire {
    Wire(m.role, m.content, None, if m.toolCalls != [] then Some(m.toolCalls) else None, None, None,
         if Truthy(m.toolCallId) then m.toolCallId else None)
  }

  function MsgWires(ms: seq<Msg>): (ws: seq<Wire>)
    ensures |ws| == |ms|
  {
    if ms == [] then [] else MsgWires(ms[..|ms| - 1]) + [MsgWire(ms[|ms| - 1])]
  }
}
