/** From the messages of a conversation to its steps. */
module HermesSteps {
  import opened Wrappers
  import opened HermesModel
  import opened HermesReading
  import opened HermesIds
  import opened HermesMachine
  import opened HermesLinking

  /** A user or assistant message, under either name. */
  ghost predicate TakesTurn(rt: Runtime, m: Message) {
    exists role :: Speaks(rt, m, role) && role in {"human", "user", "gpt", "assistant"}
  }

  /** How many of the first p messages are user or assistant messages. */
  ghost function TurnsBefore(rt: Runtime, conversation: seq<Message>, p: nat): nat
    requires p <= |conversation|
  {
    |set q | 0 <= q < p && TakesTurn(rt, conversation[q])|
  }

  lemma NoTurnsYet(rt: Runtime, conversation: seq<Message>, p: nat)
    requires p <= |conversation|
    ensures p == 0 ==> TurnsBefore(rt, conversation, p) == 0
  {
    var before := set q | 0 <= q < p && TakesTurn(rt, conversation[q]);
    if p == 0 {
      assert before == {};
    }
  }

  lemma TurnsGrow(rt: Runtime, conversation: seq<Message>, p: nat)
    requires p < |conversation|
    ensures TurnsBefore(rt, conversation, p + 1)
         == TurnsBefore(rt, conversation, p) + if TakesTurn(rt, conversation[p]) then 1 else 0
  {
    var before := set q | 0 <= q < p && TakesTurn(rt, conversation[q]);
    assert (set q | 0 <= q < p + 1 && TakesTurn(rt, conversation[q]))
        == before + if TakesTurn(rt, conversation[p]) then {p} else {};
  }

  /** A message that can be read becomes a turn exactly when it is a user or assistant message. */
  lemma TurnIffSpoken(rt: Runtime, m: Message, k: nat)
    requires EventOf(rt, m, k).Success?
    ensures IsTurn(EventOf(rt, m, k).value) <==> TakesTurn(rt, m)
  {
    var role, text := RoleName(rt, m).value, MessageText(m);
    MessageRead(rt, m, role, text);
    EventRead(rt, m, k, role, text);
    forall other | Speaks(rt, m, other) ensures other == role {
      MessageRead(rt, m, other, text);
    }
  }

  lemma {:induction false} TurnsAreCounted(rt: Runtime, conversation: seq<Message>, events: seq<Event>, p: nat)
    requires EventsOf(rt, conversation) == Success(events) && p <= |conversation|
    ensures |events| == |conversation| && TurnCount(events[..p]) == TurnsBefore(rt, conversation, p)
  {
    if p == 0 {
      NoTurnsYet(rt, conversation, p);
      if conversation != [] {
        EventAt(rt, conversation, events, 0);
      }
    } else {
      TurnsAreCounted(rt, conversation, events, p - 1);
      TurnsGrow(rt, conversation, p - 1);
      EventAt(rt, conversation, events, p - 1);
      TurnIffSpoken(rt, conversation[p - 1], TurnCount(events[..p - 1]));
      assert events[..p][..p - 1] == events[..p - 1];
    }
  }

  /**
   The conversion succeeds exactly when every message can be read at its place, and otherwise raises the error of the
   first one that cannot.
   */
  lemma {:induction false} FirstMessageRaises(rt: Runtime, conversation: seq<Message>, p: nat)
    requires p <= |conversation|
    requires forall q :: 0 <= q < p ==> EventOf(rt, conversation[q], TurnsBefore(rt, conversation, q)).Success?
    ensures EventsOf(rt, conversation[..p]).Success?
    ensures p == |conversation| ==> Convert(rt, conversation).Success?
    ensures p < |conversation| && EventOf(rt, conversation[p], TurnsBefore(rt, conversation, p)).Failure? ==>
              Convert(rt, conversation)
              == Failure(EventOf(rt, conversation[p], TurnsBefore(rt, conversation, p)).error)
  {
    EventsOfReadable(rt, conversation, p);
    assert conversation[..|conversation|] == conversation;
    if p < |conversation| && EventOf(rt, conversation[p], TurnsBefore(rt, conversation, p)).Failure? {
      var events := EventsOf(rt, conversation[..p]).value;
      TurnsOfPrefix(rt, conversation, events, p);
      assert conversation[..p + 1][..p] == conversation[..p];
      EventsFailEarly(rt, conversation, p + 1);
    }
  }

  lemma TurnsOfPrefix(rt: Runtime, conversation: seq<Message>, events: seq<Event>, p: nat)
    requires p <= |conversation| && EventsOf(rt, conversation[..p]) == Success(events)
    ensures TurnCount(events) == TurnsBefore(rt, conversation, p)
  {
    TurnsAreCounted(rt, conversation[..p], events, p);
    assert events[..p] == events;
    assert (set q | 0 <= q < p && TakesTurn(rt, conversation[..p][q]))
        == (set q | 0 <= q < p && TakesTurn(rt, conversation[q]));
  }

  lemma {:induction false} EventsOfReadable(rt: Runtime, conversation: seq<Message>, p: nat)
    requires p <= |conversation|
    requires forall q :: 0 <= q < p ==> EventOf(rt, conversation[q], TurnsBefore(rt, conversation, q)).Success?
    ensures EventsOf(rt, conversation[..p]).Success?
  {
    if p == 0 {
    } else {
      EventsOfReadable(rt, conversation, p - 1);
      TurnsOfPrefix(rt, conversation, EventsOf(rt, conversation[..p - 1]).value, p - 1);
      assert conversation[..p][..p - 1] == conversation[..p - 1];
    }
  }

  /** The last system message before message p. */
  ghost predicate PromptInForce(rt: Runtime, conversation: seq<Message>, p: nat, q: int, text: string)
    requires p <= |conversation|
  {
    && 0 <= q < p && Speaks(rt, conversation[q], "system") && Says(conversation[q], text)
    && forall r :: q < r < p ==> !Speaks(rt, conversation[r], "system")
  }

  lemma SystemIffSpoken(rt: Runtime, m: Message, k: nat, text: string)
    requires EventOf(rt, m, k).Success? && Says(m, text)
    ensures if Speaks(rt, m, "system") then EventOf(rt, m, k) == Success(SystemPrompt(text, rt.hash(text)))
            else !EventOf(rt, m, k).value.SystemPrompt?
  {
    var role := RoleName(rt, m).value;
    MessageRead(rt, m, role, text);
    MessageRead(rt, m, "system", text);
    EventRead(rt, m, k, role, text);
  }

  lemma {:induction false} LatestHashIs(rt: Runtime, conversation: seq<Message>, events: seq<Event>, p: nat)
    requires EventsOf(rt, conversation) == Success(events) && p <= |conversation| == |events|
    ensures forall q, text :: PromptInForce(rt, conversation, p, q, text) ==>
              LatestHash(events[..p]) == Some(rt.hash(text))
    ensures (forall q :: 0 <= q < p ==> !Speaks(rt, conversation[q], "system")) ==> LatestHash(events[..p]) == None
  {
    if p == 0 {
    } else {
      var n := p - 1;
      LatestHashIs(rt, conversation, events, n);
      EventAt(rt, conversation, events, n);
      SystemIffSpoken(rt, conversation[n], TurnCount(events[..n]), MessageText(conversation[n]));
      assert events[..p][..n] == events[..n];
      forall q, text | PromptInForce(rt, conversation, p, q, text)
        ensures LatestHash(events[..p]) == Some(rt.hash(text))
      {
        if q == n {
          SystemIffSpoken(rt, conversation[n], TurnCount(events[..n]), text);
        } else {
          assert PromptInForce(rt, conversation, n, q, text);
        }
      }
    }
  }

  /** The step shows what the message said. */
  ghost predicate Shows(rt: Runtime, step: Step, role: string, text: string) {
    if role in {"human", "user"} then
      step.role == User && step.content == Some(text) && step.reasoning == None && step.toolCalls == []
    else
      && step.role == Agent && AgentTurnOf(rt, text, step.stepIndex).Success?
      && Tells(step, AgentTurnOf(rt, text, step.stepIndex).value)
  }

  /**
   Every user or assistant message becomes the step at its place among these messages. The step shows the message's
   text, or its text, reasoning, tool names and inputs as they are read off that text, and an agent step has the hash
   of the system message in force.
   */
  lemma MessageBecomesStep(rt: Runtime, conversation: seq<Message>, p: nat, role: string, text: string)
    requires Convert(rt, conversation).Success? && p < |conversation|
    requires Speaks(rt, conversation[p], role) && role in {"human", "user", "gpt", "assistant"}
    requires Says(conversation[p], text)
    ensures var steps, k := Convert(rt, conversation).value.steps, TurnsBefore(rt, conversation, p);
            && |steps| == TurnsBefore(rt, conversation, |conversation|) && k < |steps|
            && steps[k].stepIndex == k && Shows(rt, steps[k], role, text)
            && (role in {"human", "user"} ==> steps[k].promptHash == None)
            && (role in {"gpt", "assistant"} ==>
                  && (forall q, prompt :: PromptInForce(rt, conversation, p, q, prompt) ==>
                        steps[k].promptHash == Some(rt.hash(prompt)))
                  && ((forall q :: 0 <= q < p ==> !Speaks(rt, conversation[q], "system")) ==>
                        steps[k].promptHash == None))
  {
    var events := EventsOf(rt, conversation).value;
    TurnsAreCounted(rt, conversation, events, p);
    TurnsAreCounted(rt, conversation, events, |conversation|);
    assert events[..|events|] == events;
    EventAt(rt, conversation, events, p);
    var k := TurnCount(events[..p]);
    EventRead(rt, conversation[p], k, role, text);
    StepsFollowTurns(events, p);
    LatestHashIs(rt, conversation, events, p);
  }
}
