/** The conversation-to-steps loop: steps grow, tool responses wait in a buffer, ids are linked on arrival. */
module HermesMachine {
  import opened Wrappers
  import opened HermesModel

  datatype State = State(
    steps: seq<Step>,
    stepIndex: nat,
    prompts: map<string, string>,
    currentHash: Option<string>,
    pending: seq<Observation>,
    failures: nat
  )

  const INITIAL := State([], 0, map[], None, [], 0)

  // ----- linking a batch of responses to calls; the first response answers call number `base` -----

  function LinkedCalls(calls: seq<ToolCall>, responses: seq<Observation>, base: nat): (linked: seq<ToolCall>)
    ensures |linked| == |calls|
  {
    seq(|calls|, i requires 0 <= i < |calls| =>
      if base <= i < base + |responses| && responses[i - base].sourceCallId != UNKNOWN
      then calls[i].(id := responses[i - base].sourceCallId)
      else calls[i])
  }

  function LinkedResponses(calls: seq<ToolCall>, responses: seq<Observation>, base: nat): (linked: seq<Observation>)
    ensures |linked| == |responses|
  {
    seq(|responses|, j requires 0 <= j < |responses| =>
      if responses[j].sourceCallId == UNKNOWN && base + j < |calls|
      then responses[j].(sourceCallId := calls[base + j].id)
      else responses[j])
  }

  /** How many of the responses have no call to answer. */
  function Unmatched(calls: seq<ToolCall>, responses: seq<Observation>, base: nat): nat {
    if base + |responses| <= |calls| then 0
    else if base >= |calls| then |responses|
    else base + |responses| - |calls|
  }

  function LastAgent(steps: seq<Step>): (r: Option<nat>)
    ensures r.Some? ==> r.value < |steps| && steps[r.value].role == Agent
    ensures r.Some? ==> forall k :: r.value < k < |steps| ==> steps[k].role != Agent
    ensures r.None? ==> forall k :: 0 <= k < |steps| ==> steps[k].role != Agent
  {
    if steps == [] then None
    else if steps[|steps| - 1].role == Agent then Some(|steps| - 1)
    else LastAgent(steps[..|steps| - 1])
  }

  // ----- the transitions -----

  function Flush(st: State): State {
    if st.pending == [] || st.steps == [] then st else
      var last := |st.steps| - 1;
      var step := st.steps[last];
      st.(steps := st.steps[last := step.(observations := step.observations + st.pending)], pending := [])
  }

  function FreshStep(e: Event, index: nat, promptHash: Option<string>): Step
    requires IsTurn(e)
  {
    match e
    case UserTurn(text) => Step(index, User, Some(text), None, None, [], [])
    case AgentTurn(content, reasoning, calls) => Step(index, Agent, content, reasoning, promptHash, calls, [])
  }

  function Link(st: State, responses: seq<Observation>): State {
    match LastAgent(st.steps)
    case None => st.(pending := st.pending + responses)
    case Some(a) =>
      var agent := st.steps[a];
      var base := |agent.observations| + |st.pending|;
      st.(steps := st.steps[a := agent.(toolCalls := LinkedCalls(agent.toolCalls, responses, base))],
          pending := st.pending + LinkedResponses(agent.toolCalls, responses, base),
          failures := st.failures + Unmatched(agent.toolCalls, responses, base))
  }

  function Apply(st: State, e: Event): State {
    match e
    case SystemPrompt(prompt, hash) => st.(prompts := st.prompts[hash := prompt], currentHash := Some(hash))
    case ToolMessage(responses) => Link(st, responses)
    case Ignored => st
    case _ =>
      var flushed := Flush(st);
      flushed.(steps := flushed.steps + [FreshStep(e, st.stepIndex, st.currentHash)], stepIndex := st.stepIndex + 1)
  }

  function Run(events: seq<Event>): State {
    if events == [] then INITIAL else Apply(Run(events[..|events| - 1]), events[|events| - 1])
  }

  /** The steps, the system prompts and the failure count that the conversion returns. */
  datatype Output = Output(steps: seq<Step>, prompts: map<string, string>, failures: nat)

  function Finish(events: seq<Event>): Output {
    var st := Flush(Run(events));
    Output(st.steps, st.prompts, st.failures)
  }

  function Convert(rt: Runtime, conversation: seq<Message>): Result<Output, PyError> {
    var events :- EventsOf(rt, conversation);
    Success(Finish(events))
  }

  // ----- the loops of the program -----

  method FindLastAgent(steps: seq<Step>) returns (r: Option<nat>)
    ensures r == LastAgent(steps)
  {
    var i := |steps|;
    while i > 0
      invariant 0 <= i <= |steps|
      invariant LastAgent(steps) == LastAgent(steps[..i])
    {
      assert steps[..i][..i - 1] == steps[..i - 1];
      if steps[i - 1].role == Agent {
        return Some(i - 1);
      }
      i := i - 1;
      assert steps[..i + 1][i] == steps[i];
    }
    r := None;
  }

  /** What linking response j changes. */
  lemma LinkOneMore(calls: seq<ToolCall>, responses: seq<Observation>, base: nat, j: nat)
    requires j < |responses|
    ensures var k, id := base + j, responses[j].sourceCallId;
            var linked := LinkedCalls(calls, responses[..j], base);
            && LinkedCalls(calls, responses[..j + 1], base)
               == (if id != UNKNOWN && k < |calls| then linked[k := linked[k].(id := id)] else linked)
            && (k < |calls| ==> linked[k] == calls[k])
            && Unmatched(calls, responses[..j + 1], base)
               == Unmatched(calls, responses[..j], base) + if k < |calls| then 0 else 1
  {
    var k, id := base + j, responses[j].sourceCallId;
    var linked := LinkedCalls(calls, responses[..j], base);
    var more := LinkedCalls(calls, responses[..j + 1], base);
    forall i | 0 <= i < |calls| ensures more[i] == if i == k && id != UNKNOWN then linked[i].(id := id) else linked[i] {
    }
  }

  /** One response meets call k: its id goes to the call, or the call's id to the response. */
  method LinkOne(calls: seq<ToolCall>, response: Observation, k: nat)
    returns (calls': seq<ToolCall>, response': Observation, failures: nat)
    ensures calls' == if response.sourceCallId != UNKNOWN && k < |calls|
                      then calls[k := calls[k].(id := response.sourceCallId)] else calls
    ensures response' == if response.sourceCallId == UNKNOWN && k < |calls|
                         then response.(sourceCallId := calls[k].id) else response
    ensures failures == if k < |calls| then 0 else 1
  {
    calls', response', failures := calls, response, 0;
    var id := response.sourceCallId;
    if id != UNKNOWN && k < |calls| {
      calls' := calls[k := ToolCall(id, calls[k].name, calls[k].input, calls[k].durationMs)];
    } else if id == UNKNOWN && k < |calls| {
      response' := response.(sourceCallId := calls[k].id);
    } else {
      failures := 1;
    }
  }

  /** The inner loop over one tool message: responses are linked one by one, in place. */
  method LinkOneByOne(calls: seq<ToolCall>, responses: seq<Observation>, base: nat)
    returns (calls': seq<ToolCall>, responses': seq<Observation>, failures: nat)
    ensures calls' == LinkedCalls(calls, responses, base)
    ensures responses' == LinkedResponses(calls, responses, base)
    ensures failures == Unmatched(calls, responses, base)
  {
    calls', responses', failures := calls, [], 0;
    assert LinkedCalls(calls, responses[..0], base) == calls;
    for j := 0 to |responses|
      invariant calls' == LinkedCalls(calls, responses[..j], base)
      invariant responses' == LinkedResponses(calls, responses, base)[..j]
      invariant failures == Unmatched(calls, responses[..j], base)
    {
      LinkOneMore(calls, responses, base, j);
      var response, failed;
      calls', response, failed := LinkOne(calls', responses[j], base + j);
      responses', failures := responses' + [response], failures + failed;
    }
    assert responses[..|responses|] == responses;
  }

  /** Linking the responses of one tool message to the last agent step's calls, and queueing them. */
  method LinkToLastAgent(st: State, responses: seq<Observation>) returns (st': State)
    ensures st' == Link(st, responses)
  {
    var lastAgent := FindLastAgent(st.steps);
    if lastAgent.None? {
      return st.(pending := st.pending + responses);
    }
    var agent := st.steps[lastAgent.value];
    var calls, linked, unmatched :=
      LinkOneByOne(agent.toolCalls, responses, |agent.observations| + |st.pending|);
    st' := st.(steps := st.steps[lastAgent.value := agent.(toolCalls := calls)],
               pending := st.pending + linked,
               failures := st.failures + unmatched);
  }

  /** The branch for tool messages. */
  method OnToolMessage(rt: Runtime, content: string, st: State) returns (r: Result<State, PyError>)
    ensures r == match ToolMessageOf(rt, content)
                 case Failure(e) => Failure(e)
                 case Success(responses) => Success(Link(st, responses))
  {
    var parsed := ParseToolResponses(rt, content);
    if parsed.Failure? {
      return Failure(parsed.error);
    }
    var observations := parsed.value;
    if observations == [] {
      observations := [PlainResponse(content)];
    }
    var linked := LinkToLastAgent(st, observations);
    r := Success(linked);
  }

  /** The state after a message has been read, or the error that reading it raised. */
  function ApplyRead(st: State, read: Result<Event, PyError>): Result<State, PyError> {
    match read
    case Failure(e) => Failure(e)
    case Success(event) => Success(Apply(st, event))
  }

  /** A turn is appended after the pending responses have been flushed. */
  method AppendAgentStep(st: State, turn: Event) returns (st': State)
    requires turn.AgentTurn?
    ensures st' == Apply(st, turn)
  {
    var flushed := Flush(st);
    var step := Step(st.stepIndex, Agent, turn.content, turn.reasoning, st.currentHash, turn.calls, []);
    st' := flushed.(steps := flushed.steps + [step], stepIndex := st.stepIndex + 1);
  }

  /** The branch for assistant messages. */
  method OnAssistantMessage(rt: Runtime, content: string, st: State) returns (r: Result<State, PyError>)
    ensures r == ApplyRead(st, AgentTurnOf(rt, content, st.stepIndex))
  {
    var read := ReadAssistantMessage(rt, content, st.stepIndex);
    if read.Failure? {
      return Failure(read.error);
    }
    var after := AppendAgentStep(st, read.value);
    r := Success(after);
  }

  /** The body of the conversation loop. */
  method OnMessage(rt: Runtime, m: Message, st: State) returns (r: Result<State, PyError>)
    ensures r == ApplyRead(st, EventOf(rt, m, st.stepIndex))
  {
    var roleName := RoleName(rt, m);
    if roleName.Failure? {
      return Failure(roleName.error);
    }
    var role, content := roleName.value, MessageText(m);
    if role == "system" {
      var promptHash := rt.hash(content);
      r := Success(st.(prompts := st.prompts[promptHash := content], currentHash := Some(promptHash)));
    } else if role in {"human", "user"} {
      var flushed := Flush(st);
      var step := Step(st.stepIndex, User, Some(content), None, None, [], []);
      r := Success(flushed.(steps := flushed.steps + [step], stepIndex := st.stepIndex + 1));
    } else if role in {"gpt", "assistant"} {
      r := OnAssistantMessage(rt, content, st);
    } else if role == "tool" {
      r := OnToolMessage(rt, content, st);
    } else {
      r := Success(st);
    }
  }

  lemma {:induction false} StepIndexCountsTurns(events: seq<Event>)
    ensures Run(events).stepIndex == |Run(events).steps| == TurnCount(events)
  {
    if events == [] {
    } else {
      StepIndexCountsTurns(events[..|events| - 1]);
    }
  }

  method ConversationsToSteps(rt: Runtime, conversation: seq<Message>) returns (r: Result<Output, PyError>)
    ensures r == Convert(rt, conversation)
  {
    var st := INITIAL;
    ghost var events: seq<Event> := [];
    for i := 0 to |conversation|
      invariant EventsOf(rt, conversation[..i]) == Success(events)
      invariant Run(events) == st
    {
      assert conversation[..i + 1][..i] == conversation[..i];
      StepIndexCountsTurns(events);
      var after := OnMessage(rt, conversation[i], st);
      if after.Failure? {
        EventsFailEarly(rt, conversation, i + 1);
        return Failure(after.error);
      }
      ghost var event := EventOf(rt, conversation[i], st.stepIndex).value;
      assert (events + [event])[..|events|] == events;
      events := events + [event];
      st := after.value;
    }
    assert conversation[..|conversation|] == conversation;
    st := Flush(st);
    r := Success(Output(st.steps, st.prompts, st.failures));
  }
}
