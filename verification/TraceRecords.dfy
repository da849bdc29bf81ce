/**
 The records of a session trace and the rows the trace view makes of them.

 A row's label may name the tool call the record refers to, so it depends on the
 tool-call index the row was made with. The text helpers (first line, tool detail,
 command name, byte count) are parameters: everything below holds for any choice of them.
 */
module TraceRecords {
  import opened Options

  /** The record schema refuses empty ids, names and agent types. */
  type NonEmpty = text: string | text != "" witness "x"
  type ToolUseId = NonEmpty

  datatype Call = Call(name: NonEmpty, input: string)

  datatype Body =
    | Prompt(text: string)
    | Expansion(text: string, expansionOf: Option<ToolUseId>)
    | Thinking(text: string)
    | Assistant(text: string)
    | Notice(text: string)
    | Raw(line: string)
    | Session(vendor: string)
    | ToolCall(useId: ToolUseId, call: Call)
    | ToolResult(resultOf: ToolUseId, content: string, isError: bool)

  datatype Record = Record(vendorSessionId: string, agentType: Option<NonEmpty>, truncated: bool, body: Body)

  datatype TextRules = TextRules(
    firstLine: string -> string,
    detail: Call -> string,
    commandName: string -> Option<string>,
    byteCount: string -> string)

  type CallIndex = map<ToolUseId, Call>

  datatype Row = Row(record: Record, caption: string, isMuted: bool)

  function ReferencedId(record: Record): Option<ToolUseId> {
    match record.body
    case ToolResult(id, _, _) => Some(id)
    case Expansion(_, id) => id
    case _ => None
  }

  function CallId(record: Record): Option<ToolUseId> {
    match record.body
    case ToolCall(id, _) => Some(id)
    case _ => None
  }

  predicate StartsTurn(rules: TextRules, record: Record) {
    match record.body
    case Prompt(_) => true
    case Session(_) => true
    case Expansion(text, None) => rules.commandName(text).Some?
    case _ => false
  }

  function Lookup(calls: CallIndex, id: Option<ToolUseId>): Option<Call> {
    if id.Some? && id.value in calls then Some(calls[id.value]) else None
  }

  function ExpansionName(rules: TextRules, text: string, id: Option<ToolUseId>, call: Option<Call>): string {
    if id.None? then
      (match rules.commandName(text) case Some(name) => name case None => "context")
    else if call.None? then "expansion"
    else if rules.detail(call.value) != "" then rules.detail(call.value)
    else call.value.name
  }

  function BaseLabel(rules: TextRules, record: Record, call: Option<Call>): string {
    match record.body
    case Prompt(text) => "Prompt: " + rules.firstLine(text)
    case Thinking(text) => "Thinking: " + rules.firstLine(text)
    case Assistant(text) => "Assistant: " + rules.firstLine(text)
    case Notice(text) => "Notice: " + rules.firstLine(text)
    case Raw(line) => "Raw: " + rules.firstLine(line)
    case Session(vendor) => "Session: " + vendor + " " + record.vendorSessionId
    case Expansion(text, id) => "Expansion: " + ExpansionName(rules, text, id, call)
    case ToolCall(_, own) =>
      if rules.detail(own) != "" then own.name + ": " + rules.detail(own) else own.name
    case ToolResult(_, content, isError) =>
      (if call.Some? then call.value.name else "Tool") + " result: " + rules.byteCount(content) + " bytes" +
      (if isError then ", error" else "")
  }

  function Label(rules: TextRules, record: Record, call: Option<Call>): string {
    var base := BaseLabel(rules, record, call) + (if record.truncated then ", truncated" else "");
    if record.agentType.Some? then "[" + record.agentType.value + "] " + base else base
  }

  function RowOf(rules: TextRules, record: Record, calls: CallIndex): (row: Row)
    ensures row.record == record
  {
    Row(record, Label(rules, record, Lookup(calls, ReferencedId(record))), record.body.Notice?)
  }
}
