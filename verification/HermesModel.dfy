/** Hermes conversations, the steps they become, and how one message is read. */
module HermesModel {
  import opened Wrappers
  import opened Text
  import opened TagScanner
  import opened OrderedDict

  datatype Json =
    | Null
    | Bool(b: bool)
    | Num(n: real)
    | Str(s: string)
    | Arr(items: seq<Json>)
    | Obj(fields: Dict<string, Json>)

  /** Python's truth value of a decoded JSON value. */
  predicate Truthy(j: Json) {
    match j
    case Null => false
    case Bool(b) => b
    case Num(n) => n != 0.0
    case Str(s) => s != ""
    case Arr(items) => items != []
    case Obj(fields) => fields != []
  }

  /** The library functions that the parser relies on. */
  datatype Runtime = Runtime(
    decode: string -> Option<Json>,   // json.loads, None for a JSONDecodeError
    dumps: Json -> string,            // json.dumps
    show: Json -> string,             // str of a number or a truth value
    lower: string -> string,          // str.lower
    hash: string -> string,           // the first 12 digits of the MD5 sum
    toFloat: Json -> Converted        // float
  )

  /** What `float` makes of a decoded value: a number, a ValueError or TypeError, or an OverflowError. */
  datatype Converted = Number(r: real) | NotANumber | TooLarge

  datatype PyError = AttributeError | ValidationError | OverflowError

  /** A key of a conversation message: missing, null or a text. */
  datatype Field = Absent | Nil | Text(text: string)

  datatype Message = Message(role: Field, sender: Field, content: Field, value: Field)

  datatype ToolCall = ToolCall(id: string, name: string, input: Dict<string, Json>, durationMs: Option<int>)

  datatype Observation =
    Observation(sourceCallId: string, content: Option<string>, summary: Option<string>, error: Option<string>)

  datatype Role = User | Agent

  datatype Step = Step(
    stepIndex: nat,
    role: Role,
    content: Option<string>,
    reasoning: Option<string>,
    promptHash: Option<string>,
    toolCalls: seq<ToolCall>,
    observations: seq<Observation>
  )

  const MAX_CONTENT_LEN := 1_048_576
  const UNKNOWN := "unknown"
  const UNLINKED := "unlinked_response"

  function Prefix(s: string, n: nat): string {
    if |s| > n then s[..n] else s
  }

  function Present(s: string): Option<string> {
    if s == "" then None else Some(s)
  }

  // ----- the blocks of a text, which is cut to its maximal length first -----

  function ThinkPieces(text: string): Pieces {
    Scan(THINK, Prefix(text, MAX_CONTENT_LEN))
  }

  function CallPieces(text: string): Pieces {
    Scan(TOOL_CALL, Prefix(text, MAX_CONTENT_LEN))
  }

  function ResponsePieces(text: string): Pieces {
    Scan(TOOL_RESPONSE, Prefix(text, MAX_CONTENT_LEN))
  }

  // ----- think blocks -----

  /** The stripped bodies that are not blank. */
  function NonBlank(bodies: seq<string>): seq<string> {
    if bodies == [] then [] else
      var rest := NonBlank(bodies[1..]);
      if Strip(bodies[0]) == "" then rest else [Strip(bodies[0])] + rest
  }

  function ParseThinking(text: string): (string, Option<string>) {
    var pieces := ThinkPieces(text);
    if pieces.blocks == [] then (Prefix(text, MAX_CONTENT_LEN), None)
    else (Strip(Plain(pieces)), Present(Join(" ", NonBlank(Bodies(pieces)))))
  }

  // ----- tool calls -----

  function SyntheticId(stepIndex: nat, block: nat): string {
    "tc_" + Decimal(stepIndex) + "_" + Decimal(block)
  }

  function DecodeArguments(rt: Runtime, args: Json): Json {
    if !args.Str? then args else
      match rt.decode(args.s)
      case Some(decoded) => decoded
      case None => Obj([("raw", args)])
  }

  /** The explicit id of a decoded call, when it is truthy. */
  function ExplicitId(data: Json): Option<Json>
    requires data.Obj?
  {
    match Get(data.fields, "tool_call_id")
    case Some(id) => if Truthy(id) then Some(id) else None
    case None => None
  }

  /** One `<tool_call>` block: a call, nothing when its JSON is malformed, or the error it raises. */
  function CallOfBlock(rt: Runtime, stepIndex: nat, block: nat, body: string): Result<Option<ToolCall>, PyError> {
    match rt.decode(Strip(body))
    case None => Success(None)
    case Some(data) =>
      if !data.Obj? then Failure(AttributeError) else
        var name := match Get(data.fields, "name") case Some(n) => n case None => Str(UNKNOWN);
        var given := match Get(data.fields, "arguments") case Some(a) => a case None => Obj([]);
        var args := DecodeArguments(rt, given);
        var id := match ExplicitId(data) case Some(i) => i case None => Str(SyntheticId(stepIndex, block));
        if !name.Str? || !id.Str? then Failure(ValidationError)
        else Success(Some(ToolCall(id.s, name.s, if args.Obj? then args.fields else [], None)))
  }

  function AppendIfSome<T>(s: seq<T>, x: Option<T>): seq<T> {
    if x.Some? then s + [x.value] else s
  }

  function Calls(rt: Runtime, stepIndex: nat, bodies: seq<string>): Result<seq<ToolCall>, PyError> {
    if bodies == [] then Success([]) else
      var n := |bodies| - 1;
      var earlier :- Calls(rt, stepIndex, bodies[..n]);
      var call :- CallOfBlock(rt, stepIndex, n, bodies[n]);
      Success(AppendIfSome(earlier, call))
  }

  lemma {:induction false} CallsFailEarly(rt: Runtime, stepIndex: nat, bodies: seq<string>, i: nat)
    requires i <= |bodies| && Calls(rt, stepIndex, bodies[..i]).Failure?
    ensures Calls(rt, stepIndex, bodies) == Calls(rt, stepIndex, bodies[..i])
  {
    if i == |bodies| {
      assert bodies[..i] == bodies;
    } else {
      var n := |bodies| - 1;
      assert bodies[..n][..i] == bodies[..i];
      CallsFailEarly(rt, stepIndex, bodies[..n], i);
    }
  }

  function ToolCallsOf(rt: Runtime, text: string, stepIndex: nat): Result<(string, seq<ToolCall>), PyError> {
    var pieces := CallPieces(text);
    var calls :- Calls(rt, stepIndex, Bodies(pieces));
    Success((Strip(Plain(pieces)), calls))
  }

  method DecodeCalls(rt: Runtime, stepIndex: nat, bodies: seq<string>) returns (r: Result<seq<ToolCall>, PyError>)
    ensures r == Calls(rt, stepIndex, bodies)
  {
    var toolCalls: seq<ToolCall> := [];
    for i := 0 to |bodies|
      invariant Calls(rt, stepIndex, bodies[..i]) == Success(toolCalls)
    {
      assert bodies[..i + 1][..i] == bodies[..i];
      var call := CallOfBlock(rt, stepIndex, i, bodies[i]);
      if call.Failure? {
        CallsFailEarly(rt, stepIndex, bodies, i + 1);
        return Failure(call.error);
      }
      toolCalls := AppendIfSome(toolCalls, call.value);
    }
    assert bodies[..|bodies|] == bodies;
    r := Success(toolCalls);
  }

  method ParseToolCalls(rt: Runtime, text: string, stepIndex: nat)
    returns (r: Result<(string, seq<ToolCall>), PyError>)
    ensures r == ToolCallsOf(rt, text, stepIndex)
  {
    var pieces := CallPieces(text);
    var calls := DecodeCalls(rt, stepIndex, Bodies(pieces));
    if calls.Failure? {
      return Failure(calls.error);
    }
    r := Success((Strip(Plain(pieces)), calls.value));
  }

  // ----- tool responses -----

  function ContentOf(rt: Runtime, data: Json): Option<string>
    requires data.Obj?
  {
    var given: Option<Json> := Get(data.fields, "content");
    if given.None? || given.value.Null? then None
    else match given.value
      case Str(s) => Some(s)
      case Arr(_) => Some(rt.dumps(given.value))
      case Obj(_) => Some(rt.dumps(given.value))
      case _ => Some(rt.show(given.value))
  }

  function SummaryOf(content: Option<string>): Option<string> {
    if content.Some? && content.value != "" then Some(Prefix(content.value, 200)) else None
  }

  function ResponseOfBlock(rt: Runtime, body: string): Result<Observation, PyError> {
    var raw := Strip(body);
    match rt.decode(raw)
    case None => Success(PlainResponse(raw))
    case Some(data) =>
      if !data.Obj? then Failure(AttributeError) else
        var content := ContentOf(rt, data);
        match ExplicitId(data)
        case None => Success(Observation(UNKNOWN, content, SummaryOf(content), Some(UNLINKED)))
        case Some(id) =>
          if !id.Str? then Failure(ValidationError)
          else Success(Observation(id.s, content, SummaryOf(content), None))
  }

  function Responses(rt: Runtime, bodies: seq<string>): Result<seq<Observation>, PyError> {
    if bodies == [] then Success([]) else
      var n := |bodies| - 1;
      var earlier :- Responses(rt, bodies[..n]);
      var response :- ResponseOfBlock(rt, bodies[n]);
      Success(earlier + [response])
  }

  lemma {:induction false} ResponsesFailEarly(rt: Runtime, bodies: seq<string>, i: nat)
    requires i <= |bodies| && Responses(rt, bodies[..i]).Failure?
    ensures Responses(rt, bodies) == Responses(rt, bodies[..i])
  {
    if i == |bodies| {
      assert bodies[..i] == bodies;
    } else {
      var n := |bodies| - 1;
      assert bodies[..n][..i] == bodies[..i];
      ResponsesFailEarly(rt, bodies[..n], i);
    }
  }

  function ToolResponsesOf(rt: Runtime, text: string): Result<seq<Observation>, PyError> {
    Responses(rt, Bodies(ResponsePieces(text)))
  }

  method DecodeResponses(rt: Runtime, bodies: seq<string>) returns (r: Result<seq<Observation>, PyError>)
    ensures r == Responses(rt, bodies)
  {
    var observations: seq<Observation> := [];
    for i := 0 to |bodies|
      invariant Responses(rt, bodies[..i]) == Success(observations)
    {
      assert bodies[..i + 1][..i] == bodies[..i];
      var response := ResponseOfBlock(rt, bodies[i]);
      if response.Failure? {
        ResponsesFailEarly(rt, bodies, i + 1);
        return Failure(response.error);
      }
      observations := observations + [response.value];
    }
    assert bodies[..|bodies|] == bodies;
    r := Success(observations);
  }

  method ParseToolResponses(rt: Runtime, text: string) returns (r: Result<seq<Observation>, PyError>)
    ensures r == ToolResponsesOf(rt, text)
  {
    r := DecodeResponses(rt, Bodies(ResponsePieces(text)));
  }

  /** A text without an id, cut to 2000 characters. */
  function PlainResponse(text: string): Observation {
    Observation(UNKNOWN, Present(Prefix(text, 2000)), None, Some(UNLINKED))
  }

  function OrPlain(observations: seq<Observation>, content: string): seq<Observation> {
    if observations == [] then [PlainResponse(content)] else observations
  }

  /** The responses of a tool message; a message without blocks is one plain text response. */
  function ToolMessageOf(rt: Runtime, content: string): Result<seq<Observation>, PyError> {
    var observations :- ToolResponsesOf(rt, content);
    Success(OrPlain(observations, content))
  }

  // ----- tool names and arguments -----

  function CanonicalName(name: string): string {
    if name in {"terminal", "execute_code", "process"} then "Bash"
    else if name == "write_file" then "Write"
    else if name == "read_file" then "Read"
    else if name == "patch" then "Edit"
    else if name == "search_files" then "Grep"
    else name
  }

  function CanonicalKey(name: string, key: string): string {
    if key == "path" && name in {"patch", "write_file", "read_file"} then "file_path"
    else if name == "patch" && key == "original" then "old_string"
    else if name == "patch" && key == "replacement" then "new_string"
    else key
  }

  function MappedArgs(name: string, args: Dict<string, Json>): Dict<string, Json> {
    if args == [] then [] else
      var n := |args| - 1;
      Put(MappedArgs(name, args[..n]), CanonicalKey(name, args[n].0), args[n].1)
  }

  method NormalizeToolCall(name: string, args: Dict<string, Json>)
    returns (canonical: string, mappedArgs: Dict<string, Json>, original: string)
    ensures canonical == CanonicalName(name) && mappedArgs == MappedArgs(name, args) && original == name
  {
    original := name;
    mappedArgs := [];
    for i := 0 to |args|
      invariant mappedArgs == MappedArgs(name, args[..i])
    {
      assert args[..i + 1][..i] == args[..i];
      mappedArgs := Put(mappedArgs, CanonicalKey(name, args[i].0), args[i].1);
    }
    assert args[..|args|] == args;
    canonical := CanonicalName(name);
  }

  function Normalized(call: ToolCall): ToolCall {
    ToolCall(call.id, CanonicalName(call.name), MappedArgs(call.name, call.input), None)
  }

  function AllNormalized(calls: seq<ToolCall>): (r: seq<ToolCall>)
    ensures |r| == |calls|
  {
    seq(|calls|, i requires 0 <= i < |calls| => Normalized(calls[i]))
  }

  method NormalizeCalls(calls: seq<ToolCall>) returns (normalized: seq<ToolCall>)
    ensures normalized == AllNormalized(calls)
  {
    normalized := [];
    for i := 0 to |calls|
      invariant normalized == AllNormalized(calls)[..i]
    {
      var canonical, mappedArgs, _ := NormalizeToolCall(calls[i].name, calls[i].input);
      normalized := normalized + [ToolCall(calls[i].id, canonical, mappedArgs, None)];
    }
  }

  // ----- one message -----

  datatype Event =
    | SystemPrompt(prompt: string, hash: string)
    | UserTurn(text: string)
    | AgentTurn(content: Option<string>, reasoning: Option<string>, calls: seq<ToolCall>)
    | ToolMessage(responses: seq<Observation>)
    | Ignored

  predicate IsTurn(e: Event) {
    e.UserTurn? || e.AgentTurn?
  }

  function RoleName(rt: Runtime, m: Message): Result<string, PyError> {
    if m.role.Text? && m.role.text != "" then Success(rt.lower(m.role.text)) else
      match m.sender
      case Absent => Success(rt.lower(""))
      case Nil => Failure(AttributeError)
      case Text(t) => Success(rt.lower(t))
  }

  function MessageText(m: Message): string {
    if m.content.Text? && m.content.text != "" then m.content.text
    else if m.value.Text? then m.value.text
    else ""
  }

  function AgentTurnOf(rt: Runtime, content: string, stepIndex: nat): (r: Result<Event, PyError>)
    ensures r.Success? ==> r.value.AgentTurn?
  {
    var (text, thinking) := ParseThinking(content);
    var (rest, calls) :- ToolCallsOf(rt, text, stepIndex);
    Success(AgentTurn(Present(rest), thinking, AllNormalized(calls)))
  }

  /** Reading an assistant message: thinking first, then tool calls, which are normalized one by one. */
  method ReadAssistantMessage(rt: Runtime, content: string, stepIndex: nat) returns (r: Result<Event, PyError>)
    ensures r == AgentTurnOf(rt, content, stepIndex)
  {
    var (text, thinking) := ParseThinking(content);
    var parsed := ParseToolCalls(rt, text, stepIndex);
    if parsed.Failure? {
      return Failure(parsed.error);
    }
    var normalized := NormalizeCalls(parsed.value.1);
    r := Success(AgentTurn(Present(parsed.value.0), thinking, normalized));
  }

  /** What a message means, when it arrives after `stepIndex` user and assistant messages. */
  function EventOf(rt: Runtime, m: Message, stepIndex: nat): Result<Event, PyError> {
    var role :- RoleName(rt, m);
    var content := MessageText(m);
    if role == "system" then Success(SystemPrompt(content, rt.hash(content)))
    else if role in {"human", "user"} then Success(UserTurn(content))
    else if role in {"gpt", "assistant"} then AgentTurnOf(rt, content, stepIndex)
    else if role == "tool" then
      var responses :- ToolMessageOf(rt, content);
      Success(ToolMessage(responses))
    else Success(Ignored)
  }

  function TurnCount(events: seq<Event>): nat {
    if events == [] then 0
    else TurnCount(events[..|events| - 1]) + if IsTurn(events[|events| - 1]) then 1 else 0
  }

  function EventsOf(rt: Runtime, conversation: seq<Message>): Result<seq<Event>, PyError> {
    if conversation == [] then Success([]) else
      var n := |conversation| - 1;
      var earlier :- EventsOf(rt, conversation[..n]);
      var event :- EventOf(rt, conversation[n], TurnCount(earlier));
      Success(earlier + [event])
  }

  lemma {:induction false} EventsFailEarly(rt: Runtime, conversation: seq<Message>, i: nat)
    requires i <= |conversation| && EventsOf(rt, conversation[..i]).Failure?
    ensures EventsOf(rt, conversation) == EventsOf(rt, conversation[..i])
  {
    if i == |conversation| {
      assert conversation[..i] == conversation;
    } else {
      var n := |conversation| - 1;
      assert conversation[..n][..i] == conversation[..i];
      EventsFailEarly(rt, conversation[..n], i);
    }
  }
}
