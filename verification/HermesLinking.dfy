/** What the conversation loop guarantees about steps, tool calls and observations. */
module HermesLinking {
  import opened Wrappers
  import opened HermesModel
  import opened HermesMachine

  // ----- reading a conversation as a whole -----

  /** The hash of the last system prompt. */
  function LatestHash(events: seq<Event>): Option<string> {
    if events == [] then None else
      var last := events[|events| - 1];
      if last.SystemPrompt? then Some(last.hash) else LatestHash(events[..|events| - 1])
  }

  function LatestPrompt(events: seq<Event>): Option<string> {
    if events == [] then None else
      var last := events[|events| - 1];
      if last.SystemPrompt? then Some(last.prompt) else LatestPrompt(events[..|events| - 1])
  }

  /** A turn as it was first written down, with all the responses that follow it. */
  datatype Collected = Collected(step: Step, responses: seq<Observation>)

  function Collect(events: seq<Event>): seq<Collected> {
    if events == [] then [] else
      var n := |events| - 1;
      var earlier := Collect(events[..n]);
      if IsTurn(events[n]) then
        earlier + [Collected(FreshStep(events[n], |earlier|, LatestHash(events[..n])), [])]
      else if events[n].ToolMessage? && earlier != [] then
        var last := |earlier| - 1;
        earlier[last := earlier[last].(responses := earlier[last].responses + events[n].responses)]
      else earlier
  }

  lemma {:induction false} CollectFacts(events: seq<Event>)
    ensures |Collect(events)| == TurnCount(events)
    ensures Run(events).currentHash == LatestHash(events)
    ensures Run(events).stepIndex == |Run(events).steps| == TurnCount(events)
  {
    StepIndexCountsTurns(events);
    if events == [] {
    } else {
      CollectFacts(events[..|events| - 1]);
    }
  }

  // ----- linking in two batches is linking once -----

  lemma LinkTwice(calls: seq<ToolCall>, first: seq<Observation>, second: seq<Observation>, base: nat)
    ensures var linked, next := LinkedCalls(calls, first, base), base + |first|;
            && LinkedCalls(linked, second, next) == LinkedCalls(calls, first + second, base)
            && LinkedResponses(calls, first, base) + LinkedResponses(linked, second, next)
               == LinkedResponses(calls, first + second, base)
            && Unmatched(calls, first, base) + Unmatched(linked, second, next)
               == Unmatched(calls, first + second, base)
  {
    var linked, next := LinkedCalls(calls, first, base), base + |first|;
    forall i | 0 <= i < |calls|
      ensures LinkedCalls(linked, second, next)[i] == LinkedCalls(calls, first + second, base)[i]
    {
    }
    forall j | 0 <= j < |first| + |second|
      ensures (LinkedResponses(calls, first, base) + LinkedResponses(linked, second, next))[j]
           == LinkedResponses(calls, first + second, base)[j]
    {
    }
  }

  // ----- well-formed conversations -----

  /** Every tool message's nearest earlier user or assistant message exists and is an assistant message. */
  ghost predicate WellFormed(events: seq<Event>) {
    forall i :: 0 <= i < |events| && events[i].ToolMessage? ==> AfterAgent(events, i)
  }

  ghost predicate AfterAgent(events: seq<Event>, i: nat)
    requires i <= |events|
  {
    exists j :: 0 <= j < i && events[j].AgentTurn? && forall k :: j < k < i ==> !IsTurn(events[k])
  }

  lemma WellFormedPrefix(events: seq<Event>, n: nat)
    requires WellFormed(events) && n <= |events|
    ensures WellFormed(events[..n])
  {
    forall i | 0 <= i < n && events[i].ToolMessage? ensures AfterAgent(events[..n], i) {
      assert AfterAgent(events, i);
      var j :| 0 <= j < i && events[j].AgentTurn? && forall k :: j < k < i ==> !IsTurn(events[k]);
      assert events[..n][j].AgentTurn?;
      assert forall k :: j < k < i ==> !IsTurn(events[..n][k]);
    }
  }

  lemma {:induction false} LastTurnIsAgent(events: seq<Event>, n: nat)
    requires n <= |events| && AfterAgent(events, n)
    ensures var c := Collect(events[..n]); c != [] && c[|c| - 1].step.role == Agent
  {
    var j :| 0 <= j < n && events[j].AgentTurn? && forall k :: j < k < n ==> !IsTurn(events[k]);
    assert events[..n][..n - 1] == events[..n - 1];
    if j < n - 1 {
      assert AfterAgent(events, n - 1);
      LastTurnIsAgent(events, n - 1);
    }
  }

  /** The turn with its responses linked to its calls by position, all at once. */
  function Answered(c: Collected): Step {
    c.step.(toolCalls := LinkedCalls(c.step.toolCalls, c.responses, 0),
            observations := LinkedResponses(c.step.toolCalls, c.responses, 0))
  }

  function AllAnswered(cs: seq<Collected>): (steps: seq<Step>)
    ensures |steps| == |cs|
  {
    seq(|cs|, k requires 0 <= k < |cs| => Answered(cs[k]))
  }

  lemma {:induction false} UserTurnsStayBare(events: seq<Event>)
    requires WellFormed(events)
    ensures forall k :: 0 <= k < |Collect(events)| && Collect(events)[k].step.role == User ==>
              Collect(events)[k].responses == [] && Collect(events)[k].step.toolCalls == []
  {
    if events == [] {
    } else {
      var n := |events| - 1;
      WellFormedPrefix(events, n);
      UserTurnsStayBare(events[..n]);
      if events[n].ToolMessage? {
        LastTurnIsAgent(events, n);
      }
    }
  }

  // ----- every conversation: steps, their order, their prompts -----

  /** The steps agree in everything but observations and the ids of their tool calls. */
  predicate SameTurn(s: Step, t: Step) {
    && s.(toolCalls := [], observations := []) == t.(toolCalls := [], observations := [])
    && |s.toolCalls| == |t.toolCalls|
    && forall i :: 0 <= i < |s.toolCalls| ==> s.toolCalls[i].(id := "") == t.toolCalls[i].(id := "")
  }

  lemma FlushKeepsTurns(st: State)
    ensures |Flush(st).steps| == |st.steps|
    ensures forall k :: 0 <= k < |st.steps| ==> SameTurn(Flush(st).steps[k], st.steps[k])
  {
  }

  lemma LinkKeepsTurns(st: State, responses: seq<Observation>)
    ensures |Link(st, responses).steps| == |st.steps|
    ensures forall k :: 0 <= k < |st.steps| ==> SameTurn(Link(st, responses).steps[k], st.steps[k])
  {
  }

  ghost predicate SameTurns(steps: seq<Step>, cs: seq<Collected>) {
    |steps| == |cs| && forall k :: 0 <= k < |cs| ==> SameTurn(steps[k], cs[k].step)
  }

  lemma ApplyKeepsTurns(st: State, e: Event, cs: seq<Collected>)
    requires SameTurns(st.steps, cs) && st.stepIndex == |cs|
    ensures !IsTurn(e) ==> SameTurns(Apply(st, e).steps, cs)
    ensures IsTurn(e) ==>
              SameTurns(Apply(st, e).steps, cs + [Collected(FreshStep(e, |cs|, st.currentHash), [])])
  {
    FlushKeepsTurns(st);
    if e.ToolMessage? {
      LinkKeepsTurns(st, e.responses);
    }
  }

  lemma {:induction false} TurnsAreKept(events: seq<Event>)
    ensures SameTurns(Run(events).steps, Collect(events))
  {
    if events == [] {
    } else {
      var n := |events| - 1;
      TurnsAreKept(events[..n]);
      CollectFacts(events[..n]);
      ApplyKeepsTurns(Run(events[..n]), events[n], Collect(events[..n]));
    }
  }

  lemma {:induction false} CollectedAt(events: seq<Event>, p: nat)
    requires p < |events| && IsTurn(events[p])
    ensures var k := TurnCount(events[..p]);
            && k < |Collect(events)|
            && Collect(events)[k].step == FreshStep(events[p], k, LatestHash(events[..p]))
  {
    var n := |events| - 1;
    CollectFacts(events[..n]);
    if p < n {
      assert events[..n][..p] == events[..p];
      CollectedAt(events[..n], p);
    }
  }

  /** What a step says about the user or assistant message that it was made from. */
  ghost predicate Tells(step: Step, e: Event)
    requires IsTurn(e)
  {
    match e
    case UserTurn(text) =>
      step.role == User && step.content == Some(text) && step.reasoning == None && step.toolCalls == []
    case AgentTurn(content, reasoning, calls) =>
      && step.role == Agent && step.content == content && step.reasoning == reasoning
      && |step.toolCalls| == |calls|
      && forall i :: 0 <= i < |calls| ==>
           && step.toolCalls[i].name == calls[i].name
           && step.toolCalls[i].input == calls[i].input
           && step.toolCalls[i].durationMs == calls[i].durationMs
  }

  /**
   In every conversation there is one step per user or assistant message, in order: its index is its position,
   and it tells the message's role, text, reasoning, tool names and inputs. An agent step carries the hash of the
   latest system prompt before it.
   */
  lemma StepsFollowTurns(events: seq<Event>, p: nat)
    requires p < |events| && IsTurn(events[p])
    ensures |Finish(events).steps| == TurnCount(events) && TurnCount(events[..p]) < TurnCount(events)
    ensures var k := TurnCount(events[..p]);
            var step := Finish(events).steps[k];
            && step.stepIndex == k
            && Tells(step, events[p])
            && step.promptHash == if events[p].AgentTurn? then LatestHash(events[..p]) else None
  {
    var k := TurnCount(events[..p]);
    CollectedAt(events, p);
    CollectFacts(events);
    TurnsAreKept(events);
    FlushKeepsTurns(Run(events));
    var step, first := Finish(events).steps[k], FreshStep(events[p], k, LatestHash(events[..p]));
    assert SameTurn(Run(events).steps[k], first) && SameTurn(step, Run(events).steps[k]);
    SameTurnFields(step, Run(events).steps[k]);
    SameTurnFields(Run(events).steps[k], first);
  }

  lemma SameTurnFields(s: Step, t: Step)
    requires SameTurn(s, t)
    ensures s.stepIndex == t.stepIndex && s.role == t.role && s.content == t.content && s.reasoning == t.reasoning
    ensures s.promptHash == t.promptHash && |s.toolCalls| == |t.toolCalls|
    ensures forall i :: 0 <= i < |s.toolCalls| ==>
              && s.toolCalls[i].name == t.toolCalls[i].name
              && s.toolCalls[i].input == t.toolCalls[i].input
              && s.toolCalls[i].durationMs == t.toolCalls[i].durationMs
  {
    var s', t' := s.(toolCalls := [], observations := []), t.(toolCalls := [], observations := []);
    assert s'.stepIndex == t'.stepIndex && s'.role == t'.role && s'.content == t'.content;
    assert s'.reasoning == t'.reasoning && s'.promptHash == t'.promptHash;
    forall i | 0 <= i < |s.toolCalls|
      ensures s.toolCalls[i].name == t.toolCalls[i].name && s.toolCalls[i].input == t.toolCalls[i].input
      ensures s.toolCalls[i].durationMs == t.toolCalls[i].durationMs
    {
      var c, d := s.toolCalls[i].(id := ""), t.toolCalls[i].(id := "");
      assert c.name == d.name && c.input == d.input && c.durationMs == d.durationMs;
    }
  }

  ghost predicate CollisionFree(events: seq<Event>) {
    forall i, j ::
      && 0 <= i < |events| && 0 <= j < |events|
      && events[i].SystemPrompt? && events[j].SystemPrompt? && events[i].hash == events[j].hash
      ==> events[i].prompt == events[j].prompt
  }

  /** The prompt table knows every prompt seen, under its hash. */
  lemma {:induction false} PromptsAreKept(events: seq<Event>, i: nat)
    requires i < |events| && events[i].SystemPrompt?
    ensures events[i].hash in Run(events).prompts
    ensures CollisionFree(events) ==> Run(events).prompts[events[i].hash] == events[i].prompt
  {
    var n := |events| - 1;
    if i < n {
      assert CollisionFree(events) ==> CollisionFree(events[..n]);
      PromptsAreKept(events[..n], i);
    }
  }

  lemma {:induction false} LatestPromptAt(events: seq<Event>) returns (i: nat)
    requires LatestHash(events).Some?
    ensures i < |events| && events[i].SystemPrompt?
    ensures LatestHash(events) == Some(events[i].hash) && LatestPrompt(events) == Some(events[i].prompt)
  {
    var n := |events| - 1;
    if events[n].SystemPrompt? {
      i := n;
    } else {
      i := LatestPromptAt(events[..n]);
    }
  }

  /** An agent step's prompt hash leads, through the prompt table, to the prompt in force at its message. */
  lemma PromptHashResolves(events: seq<Event>, p: nat)
    requires p < |events| && events[p].AgentTurn?
    ensures TurnCount(events[..p]) < |Finish(events).steps|
    ensures var step := Finish(events).steps[TurnCount(events[..p])];
            && step.promptHash.Some? == LatestPrompt(events[..p]).Some?
            && (step.promptHash.Some? ==>
                  && step.promptHash.value in Finish(events).prompts
                  && (CollisionFree(events) ==>
                        Finish(events).prompts[step.promptHash.value] == LatestPrompt(events[..p]).value))
  {
    StepsFollowTurns(events, p);
    if LatestHash(events[..p]).Some? {
      var i := LatestPromptAt(events[..p]);
      assert events[i] == events[..p][i];
      PromptsAreKept(events, i);
    } else {
      NoPromptWithoutHash(events[..p]);
    }
  }

  lemma {:induction false} NoPromptWithoutHash(events: seq<Event>)
    ensures LatestPrompt(events).Some? <==> LatestHash(events).Some?
  {
    if events == [] {
    } else {
      NoPromptWithoutHash(events[..|events| - 1]);
    }
  }

  // ----- every conversation: no response is lost, duplicated or reordered -----

  function AllResponses(events: seq<Event>): seq<Observation> {
    if events == [] then [] else
      var n := |events| - 1;
      var earlier := AllResponses(events[..n]);
      if events[n].ToolMessage? then earlier + events[n].responses else earlier
  }

  function Observed(steps: seq<Step>): seq<Observation> {
    if steps == [] then [] else Observed(steps[..|steps| - 1]) + steps[|steps| - 1].observations
  }

  /** The observation is the response, or the response with an id instead of "unknown". */
  predicate Carries(o: Observation, response: Observation) {
    o == response || (response.sourceCallId == UNKNOWN && o.(sourceCallId := UNKNOWN) == response)
  }

  ghost predicate CarriesAll(os: seq<Observation>, responses: seq<Observation>) {
    |os| == |responses| && forall i :: 0 <= i < |os| ==> Carries(os[i], responses[i])
  }

  lemma {:induction false} ObservedFrame(steps: seq<Step>, steps': seq<Step>)
    requires |steps| == |steps'|
    requires forall k :: 0 <= k < |steps| ==> steps[k].observations == steps'[k].observations
    ensures Observed(steps) == Observed(steps')
  {
    if steps == [] {
    } else {
      ObservedFrame(steps[..|steps| - 1], steps'[..|steps| - 1]);
    }
  }

  lemma FlushConserves(st: State)
    ensures Observed(Flush(st).steps) + Flush(st).pending == Observed(st.steps) + st.pending
  {
    if st.pending != [] && st.steps != [] {
      var last := |st.steps| - 1;
      assert Flush(st).steps[..last] == st.steps[..last];
    }
  }

  lemma LinkCarries(st: State, responses: seq<Observation>) returns (linked: seq<Observation>)
    ensures Link(st, responses).pending == st.pending + linked && CarriesAll(linked, responses)
    ensures Observed(Link(st, responses).steps) == Observed(st.steps)
  {
    ObservedFrame(Link(st, responses).steps, st.steps);
    match LastAgent(st.steps)
    case None => linked := responses;
    case Some(a) =>
      linked := LinkedResponses(st.steps[a].toolCalls, responses, |st.steps[a].observations| + |st.pending|);
  }

  lemma TurnConserves(st: State, e: Event)
    requires IsTurn(e)
    ensures Observed(Apply(st, e).steps) + Apply(st, e).pending == Observed(st.steps) + st.pending
  {
    var steps := Flush(st).steps;
    FlushConserves(st);
    assert Apply(st, e).steps[..|steps|] == steps;
    assert Observed(steps) + [] == Observed(steps);
  }

  lemma LinkConserves(st: State, responses: seq<Observation>, before: seq<Observation>)
    requires CarriesAll(Observed(st.steps) + st.pending, before)
    ensures var st' := Link(st, responses);
            CarriesAll(Observed(st'.steps) + st'.pending, before + responses)
  {
    var linked := LinkCarries(st, responses);
    CarriesAppend(Observed(st.steps) + st.pending, before, linked, responses);
    assert Observed(st.steps) + (st.pending + linked) == Observed(st.steps) + st.pending + linked;
  }

  lemma {:induction false} RunConserves(events: seq<Event>)
    ensures CarriesAll(Observed(Run(events).steps) + Run(events).pending, AllResponses(events))
  {
    if events == [] {
    } else {
      var n := |events| - 1;
      var st, e := Run(events[..n]), events[n];
      RunConserves(events[..n]);
      if IsTurn(e) {
        TurnConserves(st, e);
      } else if e.ToolMessage? {
        LinkConserves(st, e.responses, AllResponses(events[..n]));
      }
    }
  }

  lemma CarriesAppend(os: seq<Observation>, rs: seq<Observation>, os': seq<Observation>, rs': seq<Observation>)
    requires CarriesAll(os, rs) && CarriesAll(os', rs')
    ensures CarriesAll(os + os', rs + rs')
  {
  }

  /** With at least one user or assistant message, the steps' observations are the parsed responses, in order. */
  lemma ResponsesAreConserved(events: seq<Event>)
    ensures TurnCount(events) > 0 ==> CarriesAll(Observed(Finish(events).steps), AllResponses(events))
    ensures TurnCount(events) == 0 ==> Finish(events).steps == []
  {
    RunConserves(events);
    CollectFacts(events);
    FlushConserves(Run(events));
    if TurnCount(events) > 0 {
      var st := Flush(Run(events));
      assert st.pending == [];
      assert Observed(st.steps) + [] == Observed(st.steps);
    }
  }

  // ----- every conversation: when observation i answers call i -----

  /** Beyond the first `from` positions, observation i names call i. */
  ghost predicate AlignedFrom(step: Step, from: nat) {
    forall i :: from <= i < |step.observations| && i < |step.toolCalls| ==>
      step.observations[i].sourceCallId == step.toolCalls[i].id
  }

  ghost predicate AllAligned(steps: seq<Step>) {
    forall k :: 0 <= k < |steps| && steps[k].role == Agent ==> AlignedFrom(steps[k], 0)
  }

  /** The responses that arrive before any user or assistant message. */
  function Leading(events: seq<Event>): seq<Observation> {
    if events == [] then [] else
      var n := |events| - 1;
      if TurnCount(events[..n]) == 0 && events[n].ToolMessage? then Leading(events[..n]) + events[n].responses
      else Leading(events[..n])
  }

  function FirstTurn(events: seq<Event>): Option<Event> {
    if events == [] then None else
      var n := |events| - 1;
      if TurnCount(events[..n]) == 0 && IsTurn(events[n]) then Some(events[n]) else FirstTurn(events[..n])
  }

  function FirstCalls(events: seq<Event>): seq<ToolCall> {
    match FirstTurn(events)
    case Some(AgentTurn(_, _, calls)) => calls
    case _ => []
  }

  /** Leading responses that end up on a leading assistant message happen to name its calls already. */
  ghost predicate LeadAgrees(events: seq<Event>) {
    forall i :: 0 <= i < |Leading(events)| && i < |FirstCalls(events)| ==>
      Leading(events)[i].sourceCallId == FirstCalls(events)[i].id
  }

  /** What holds of the flushed steps: only a leading agent step has positions that were never linked. */
  ghost predicate AlignedBut(steps: seq<Step>, lead: seq<Observation>, calls: seq<ToolCall>) {
    && (forall k :: 0 < k < |steps| && steps[k].role == Agent ==> AlignedFrom(steps[k], 0))
    && (steps != [] && steps[0].role == Agent ==>
          && AlignedFrom(steps[0], |lead|)
          && lead <= steps[0].observations
          && |steps[0].toolCalls| == |calls|
          && forall i :: 0 <= i < |lead| && i < |calls| ==> steps[0].toolCalls[i].id == calls[i].id)
    && (steps != [] && steps[0].role == User ==> calls == [])
  }

  /** The last step has not received its observations yet. */
  ghost predicate LastUnflushed(st: State) {
    st.steps != [] ==> st.steps[|st.steps| - 1].observations == []
  }

  lemma FlushLast(st: State)
    requires LastUnflushed(st) && st.steps != []
    ensures var last := |st.steps| - 1;
            Flush(st).steps == st.steps[last := st.steps[last].(observations := st.pending)]
  {
    assert [] + st.pending == st.pending;
  }

  lemma LinkAligns(step: Step, responses: seq<Observation>, from: nat)
    requires AlignedFrom(step, from)
    ensures var base := |step.observations|;
            var linked := LinkedResponses(step.toolCalls, responses, base);
            AlignedFrom(step.(toolCalls := LinkedCalls(step.toolCalls, responses, base),
                              observations := step.observations + linked), from)
  {
  }

  lemma LinkBeyondObserved(step: Step, responses: seq<Observation>, base: nat, from: nat)
    requires AlignedFrom(step, from) && |step.observations| <= base
    ensures AlignedFrom(step.(toolCalls := LinkedCalls(step.toolCalls, responses, base)), from)
  {
  }

  lemma LinkOwnResponses(st: State, responses: seq<Observation>, lead: seq<Observation>, calls: seq<ToolCall>)
    requires LastUnflushed(st) && st.steps != [] && AlignedBut(Flush(st).steps, lead, calls)
    requires LastAgent(st.steps) == Some(|st.steps| - 1)
    ensures LastUnflushed(Link(st, responses)) && AlignedBut(Flush(Link(st, responses)).steps, lead, calls)
  {
    var last := |st.steps| - 1;
    FlushLast(st);
    FlushLast(Link(st, responses));
    var step := Flush(st).steps[last];
    LinkAligns(step, responses, if last == 0 then |lead| else 0);
    var step' := Flush(Link(st, responses)).steps[last];
    assert step' == step.(toolCalls := LinkedCalls(step.toolCalls, responses, |st.pending|),
                          observations := st.pending + LinkedResponses(step.toolCalls, responses, |st.pending|));
    assert forall k :: 0 <= k < last ==> Flush(Link(st, responses)).steps[k] == Flush(st).steps[k];
  }

  lemma LinkLateResponses(st: State, responses: seq<Observation>, lead: seq<Observation>, calls: seq<ToolCall>)
    requires LastUnflushed(st) && st.steps != [] && AlignedBut(Flush(st).steps, lead, calls)
    requires LastAgent(st.steps).Some? && LastAgent(st.steps).value < |st.steps| - 1
    ensures LastUnflushed(Link(st, responses)) && AlignedBut(Flush(Link(st, responses)).steps, lead, calls)
  {
    var a := LastAgent(st.steps).value;
    FlushLast(st);
    FlushLast(Link(st, responses));
    var step := Flush(st).steps[a];
    var base := |step.observations| + |st.pending|;
    LinkBeyondObserved(step, responses, base, if a == 0 then |lead| else 0);
    assert Flush(Link(st, responses)).steps[a] == step.(toolCalls := LinkedCalls(step.toolCalls, responses, base));
    assert forall k :: 0 <= k < |st.steps| && k != a && st.steps[k].role == Agent ==>
        Flush(Link(st, responses)).steps[k] == Flush(st).steps[k];
  }

  lemma LinkKeepsAlignment(st: State, responses: seq<Observation>, lead: seq<Observation>, calls: seq<ToolCall>)
    requires LastUnflushed(st) && st.steps != [] && AlignedBut(Flush(st).steps, lead, calls)
    ensures LastUnflushed(Link(st, responses)) && AlignedBut(Flush(Link(st, responses)).steps, lead, calls)
  {
    var agent := LastAgent(st.steps);
    if agent == Some(|st.steps| - 1) {
      LinkOwnResponses(st, responses, lead, calls);
    } else if agent.Some? {
      LinkLateResponses(st, responses, lead, calls);
    } else {
      FlushLast(st);
      FlushLast(Link(st, responses));
    }
  }

  /** A turn flushes the buffer; the first turn instead receives the leading responses. */
  lemma TurnKeepsAlignment(st: State, e: Event, lead: seq<Observation>, calls: seq<ToolCall>)
    requires IsTurn(e) && LastUnflushed(st) && AlignedBut(Flush(st).steps, lead, calls)
    requires st.steps == [] ==> st.pending == lead && calls == if e.AgentTurn? then e.calls else []
    ensures LastUnflushed(Apply(st, e)) && AlignedBut(Flush(Apply(st, e)).steps, lead, calls)
  {
    var st' := Apply(st, e);
    FlushLast(st');
    if st.steps != [] {
      assert Flush(st).pending == [];
      assert Flush(st').steps == Flush(st).steps + [FreshStep(e, st.stepIndex, st.currentHash)];
    }
  }

  /** Once there is a turn, the leading responses and the first turn's calls stay what they are. */
  lemma LeadGrows(events: seq<Event>)
    requires events != []
    ensures var earlier, e := events[..|events| - 1], events[|events| - 1];
            if TurnCount(earlier) != 0 then
              Leading(events) == Leading(earlier) && FirstTurn(events) == FirstTurn(earlier)
            else
              && Leading(events) == (if e.ToolMessage? then Leading(earlier) + e.responses else Leading(earlier))
              && FirstTurn(events) == (if IsTurn(e) then Some(e) else FirstTurn(earlier))
  {
  }

  ghost predicate AlignedRun(events: seq<Event>) {
    var st := Run(events);
    && LastUnflushed(st)
    && (st.steps == [] ==> st.pending == Leading(events) && FirstTurn(events).None?)
    && AlignedBut(Flush(st).steps, Leading(events), FirstCalls(events))
  }

  lemma AfterTurnAligned(events: seq<Event>)
    requires events != [] && AlignedRun(events[..|events| - 1]) && IsTurn(events[|events| - 1])
    ensures AlignedRun(events)
  {
    var n := |events| - 1;
    StepIndexCountsTurns(events[..n]);
    LeadGrows(events);
    TurnKeepsAlignment(Run(events[..n]), events[n], Leading(events), FirstCalls(events));
  }

  lemma AfterToolAligned(events: seq<Event>)
    requires events != [] && AlignedRun(events[..|events| - 1]) && events[|events| - 1].ToolMessage?
    ensures AlignedRun(events)
  {
    var n := |events| - 1;
    var st, e := Run(events[..n]), events[n];
    StepIndexCountsTurns(events[..n]);
    LeadGrows(events);
    if st.steps == [] {
      assert Flush(Apply(st, e)).steps == [];
    } else {
      LinkKeepsAlignment(st, e.responses, Leading(events[..n]), FirstCalls(events[..n]));
    }
  }

  lemma {:induction false} RunAligned(events: seq<Event>)
    ensures AlignedRun(events)
  {
    if events == [] {
    } else {
      var n := |events| - 1;
      RunAligned(events[..n]);
      if IsTurn(events[n]) {
        AfterTurnAligned(events);
      } else if events[n].ToolMessage? {
        AfterToolAligned(events);
      } else {
        LeadGrows(events);
        assert Flush(Run(events)).steps == Flush(Run(events[..n])).steps;
      }
    }
  }

  /**
   In every conversation: observation i names call i, on every agent step and wherever both exist, if and only if
   the responses that arrive before a leading assistant message already name its calls.
   */
  lemma AlignedIffLeadAgrees(events: seq<Event>)
    ensures AllAligned(Finish(events).steps) <==> LeadAgrees(events)
  {
    RunAligned(events);
    var steps := Finish(events).steps;
    CollectFacts(events);
    if steps != [] && steps[0].role == Agent {
      var lead := Leading(events);
      assert forall i :: 0 <= i < |lead| ==> steps[0].observations[i] == lead[i];
    }
    if steps == [] {
      assert FirstCalls(events) == [];
    }
  }

  /** In particular in every well-formed conversation. */
  lemma WellFormedHasNoLead(events: seq<Event>)
    requires WellFormed(events)
    ensures Leading(events) == [] && AllAligned(Finish(events).steps)
  {
    NoLead(events);
    AlignedIffLeadAgrees(events);
  }

  lemma {:induction false} NoLead(events: seq<Event>)
    requires WellFormed(events)
    ensures Leading(events) == []
  {
    if events == [] {
    } else {
      var n := |events| - 1;
      WellFormedPrefix(events, n);
      NoLead(events[..n]);
      if events[n].ToolMessage? {
        LastTurnIsAgent(events, n);
        CollectFacts(events[..n]);
      }
    }
  }

  /** A stray response before the first assistant message takes the place of the answer to its first call. */
  lemma StrayResponseMisaligns()
    ensures var call := ToolCall("a", "Bash", [], None);
            var stray := Observation("b", None, None, None);
            !AllAligned(Finish([ToolMessage([stray]), AgentTurn(None, None, [call])]).steps)
  {
    var call := ToolCall("a", "Bash", [], None);
    var stray := Observation("b", None, None, None);
    var e0, e1 := ToolMessage([stray]), AgentTurn(None, None, [call]);
    assert [e0, e1][..1] == [e0] && [e0][..0] == [];
    assert Leading([e0, e1]) == Leading([e0]) == [stray];
    assert FirstTurn([e0, e1]) == Some(e1);
    AlignedIffLeadAgrees([e0, e1]);
    assert Leading([e0, e1])[0].sourceCallId != FirstCalls([e0, e1])[0].id;
  }
}
