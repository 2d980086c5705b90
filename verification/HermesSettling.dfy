/** The message loop without its buffer: in every conversation it links one group of responses a turn. */
module HermesSettling {
  import opened Wrappers
  import opened HermesModel
  import opened HermesMachine
  import opened HermesLinking

  // ----- settling whole turns: no buffer, and no messages that split a group -----

  datatype Settled = Settled(steps: seq<Step>, failures: nat)

  /** What waits for turn k when it comes: the first turn finds the leading responses. */
  function Before(lead: seq<Observation>, k: nat): seq<Observation> {
    if k == 0 then lead else []
  }

  /** An agent turn's own responses are linked to its calls, behind what was waiting. */
  function AgentSettled(c: Collected, before: seq<Observation>): Step {
    c.step.(toolCalls := LinkedCalls(c.step.toolCalls, c.responses, |before|),
            observations := before + LinkedResponses(c.step.toolCalls, c.responses, |before|))
  }

  /** A user turn's responses are linked to the last agent's calls, behind the agent's own, and stay with the user. */
  function UserSettled(earlier: Settled, a: nat, c: Collected): Settled
    requires a < |earlier.steps|
  {
    var agent := earlier.steps[a];
    var base := |agent.observations|;
    Settled(earlier.steps[a := agent.(toolCalls := LinkedCalls(agent.toolCalls, c.responses, base))]
              + [c.step.(observations := LinkedResponses(agent.toolCalls, c.responses, base))],
            earlier.failures + Unmatched(agent.toolCalls, c.responses, base))
  }

  function SettleTurn(earlier: Settled, c: Collected, before: seq<Observation>): Settled {
    if c.step.role == Agent then
      Settled(earlier.steps + [AgentSettled(c, before)],
              earlier.failures + Unmatched(c.step.toolCalls, c.responses, |before|))
    else match LastAgent(earlier.steps)
      case None => Settled(earlier.steps + [c.step.(observations := before + c.responses)], earlier.failures)
      case Some(a) => UserSettled(earlier, a, c)
  }

  function Settle(cs: seq<Collected>, lead: seq<Observation>): Settled {
    if cs == [] then Settled([], 0) else
      var n := |cs| - 1;
      SettleTurn(Settle(cs[..n], lead), cs[n], Before(lead, n))
  }

  // ----- the machine settles turns -----

  ghost predicate SameRoles(s: seq<Step>, t: seq<Step>) {
    |s| == |t| && forall k :: 0 <= k < |s| ==> s[k].role == t[k].role
  }

  lemma LastAgentByRoles(s: seq<Step>, t: seq<Step>)
    requires SameRoles(s, t)
    ensures LastAgent(s) == LastAgent(t)
  {
    var a, b := LastAgent(s), LastAgent(t);
    if a.Some? && b.Some? {
      assert !(a.value < b.value) && !(b.value < a.value);
    }
  }

  lemma LastAgentBeforeUser(steps: seq<Step>, user: Step)
    requires user.role == User
    ensures LastAgent(steps + [user]) == LastAgent(steps)
  {
    assert (steps + [user])[..|steps|] == steps;
  }

  ghost predicate Settles(st: State, settled: Settled, lead: seq<Observation>) {
    && LastUnflushed(st)
    && (st.steps == [] ==> st.pending == lead)
    && Flush(st).steps == settled.steps && st.failures == settled.failures
  }

  /** The machine's steps and buffer, read off the flushed steps. */
  lemma Unflushed(st: State)
    requires LastUnflushed(st) && st.steps != []
    ensures var steps, last := Flush(st).steps, |st.steps| - 1;
            && |steps| == |st.steps| && st.pending == steps[last].observations
            && st.steps[last] == steps[last].(observations := [])
            && forall k :: 0 <= k < last ==> st.steps[k] == steps[k]
  {
    FlushLast(st);
    var step := st.steps[|st.steps| - 1];
    assert step.(observations := st.pending).(observations := []) == step;
  }

  /** A turn without responses so far. */
  lemma SettleFresh(earlier: Settled, c: Collected, before: seq<Observation>)
    requires c.responses == [] && (c.step.role == User && before != [] ==> LastAgent(earlier.steps).None?)
    ensures SettleTurn(earlier, c, before)
         == Settled(earlier.steps + [c.step.(observations := before)], earlier.failures)
  {
    assert before + [] == before;
    if c.step.role == Agent {
      assert LinkedCalls(c.step.toolCalls, [], |before|) == c.step.toolCalls;
    } else if LastAgent(earlier.steps).Some? {
      var agent := earlier.steps[LastAgent(earlier.steps).value];
      assert LinkedCalls(agent.toolCalls, [], |agent.observations|) == agent.toolCalls;
    }
  }

  lemma TurnSettles(st: State, e: Event, settled: Settled, lead: seq<Observation>)
    requires Settles(st, settled, lead) && IsTurn(e)
    ensures var c := Collected(FreshStep(e, st.stepIndex, st.currentHash), []);
            Settles(Apply(st, e), SettleTurn(settled, c, Before(lead, |settled.steps|)), lead)
  {
    var c := Collected(FreshStep(e, st.stepIndex, st.currentHash), []);
    FlushLast(Apply(st, e));
    SettleFresh(settled, c, Before(lead, |settled.steps|));
    if st.steps != [] {
      assert Flush(st).pending == [];
    }
  }

  /** Linking to the last step, in terms of the flushed steps. */
  lemma LinkToLast(st: State, rs: seq<Observation>)
    requires LastUnflushed(st) && st.steps != [] && LastAgent(st.steps) == Some(|st.steps| - 1)
    ensures var last, st' := |st.steps| - 1, Link(st, rs);
            var step, base := Flush(st).steps[last], |st.pending|;
            && LastUnflushed(st')
            && Flush(st').steps
               == Flush(st).steps[last :=
                    step.(toolCalls := LinkedCalls(step.toolCalls, rs, base),
                          observations := step.observations + LinkedResponses(step.toolCalls, rs, base))]
            && st'.failures == st.failures + Unmatched(step.toolCalls, rs, base)
  {
    FlushLast(st);
    FlushLast(Link(st, rs));
  }

  lemma Associates(s: seq<Observation>, t: seq<Observation>, u: seq<Observation>)
    ensures s + t + u == s + (t + u)
  {
  }

  lemma AgentSettledMore(c: Collected, before: seq<Observation>, rs: seq<Observation>)
    ensures var step, base := AgentSettled(c, before), |before| + |c.responses|;
            AgentSettled(c.(responses := c.responses + rs), before)
            == step.(toolCalls := LinkedCalls(step.toolCalls, rs, base),
                     observations := step.observations + LinkedResponses(step.toolCalls, rs, base))
  {
    LinkTwice(c.step.toolCalls, c.responses, rs, |before|);
    var own := LinkedResponses(c.step.toolCalls, c.responses, |before|);
    var more := LinkedResponses(AgentSettled(c, before).toolCalls, rs, |before| + |c.responses|);
    Associates(before, own, more);
  }

  /** More responses for an agent turn. */
  lemma LinkOwn(st: State, earlier: Settled, c: Collected, lead: seq<Observation>, rs: seq<Observation>)
    requires c.step.role == Agent && Settles(st, SettleTurn(earlier, c, Before(lead, |earlier.steps|)), lead)
    ensures Settles(Link(st, rs),
                    SettleTurn(earlier, c.(responses := c.responses + rs), Before(lead, |earlier.steps|)), lead)
  {
    var n, before := |earlier.steps|, Before(lead, |earlier.steps|);
    Unflushed(st);
    assert LastAgent(st.steps) == Some(n);
    LinkToLast(st, rs);
    AgentSettledMore(c, before, rs);
    LinkTwice(c.step.toolCalls, c.responses, rs, |before|);
  }

  /** Linking to an earlier agent while the last step waits for its observations. */
  lemma LinkBack(st: State, a: nat, rs: seq<Observation>)
    requires LastUnflushed(st) && a < |st.steps| - 1 && LastAgent(st.steps) == Some(a)
    ensures var last, st' := |st.steps| - 1, Link(st, rs);
            var agent, user := Flush(st).steps[a], Flush(st).steps[last];
            var base := |agent.observations| + |st.pending|;
            && LastUnflushed(st')
            && Flush(st').steps
               == Flush(st).steps[a := agent.(toolCalls := LinkedCalls(agent.toolCalls, rs, base))]
                                 [last := user.(observations :=
                                            st.pending + LinkedResponses(agent.toolCalls, rs, base))]
            && st'.failures == st.failures + Unmatched(agent.toolCalls, rs, base)
  {
    FlushLast(st);
    FlushLast(Link(st, rs));
  }

  lemma UserSettledMore(earlier: Settled, a: nat, c: Collected, rs: seq<Observation>)
    requires a < |earlier.steps|
    ensures var n, settled := |earlier.steps|, UserSettled(earlier, a, c);
            var agent, user := settled.steps[a], settled.steps[n];
            var base := |agent.observations| + |c.responses|;
            UserSettled(earlier, a, c.(responses := c.responses + rs))
            == Settled(settled.steps[a := agent.(toolCalls := LinkedCalls(agent.toolCalls, rs, base))]
                                    [n := user.(observations :=
                                            user.observations + LinkedResponses(agent.toolCalls, rs, base))],
                       settled.failures + Unmatched(agent.toolCalls, rs, base))
  {
    var agent := earlier.steps[a];
    LinkTwice(agent.toolCalls, c.responses, rs, |agent.observations|);
  }

  /** The machine's view of a user turn with an agent before it. */
  lemma LateState(st: State, earlier: Settled, a: nat, c: Collected, lead: seq<Observation>)
    requires c.step.role == User && LastAgent(earlier.steps) == Some(a)
    requires Settles(st, UserSettled(earlier, a, c), lead)
    ensures a < |earlier.steps| == |st.steps| - 1 && LastAgent(st.steps) == Some(a)
    ensures |st.pending| == |c.responses|
  {
    Unflushed(st);
    LastAgentBeforeUser(earlier.steps, c.step);
    LastAgentByRoles(st.steps, earlier.steps + [c.step]);
  }

  /** More responses for a user turn with an agent before it. */
  lemma LinkLate(st: State, earlier: Settled, a: nat, c: Collected, lead: seq<Observation>, rs: seq<Observation>)
    requires c.step.role == User && LastAgent(earlier.steps) == Some(a)
    requires Settles(st, UserSettled(earlier, a, c), lead)
    ensures Settles(Link(st, rs), UserSettled(earlier, a, c.(responses := c.responses + rs)), lead)
  {
    LateState(st, earlier, a, c, lead);
    Unflushed(st);
    LinkBack(st, a, rs);
    UserSettledMore(earlier, a, c, rs);
  }

  /** More responses for a user turn without an agent before it. */
  lemma LinkNowhere(st: State, earlier: Settled, c: Collected, lead: seq<Observation>, rs: seq<Observation>)
    requires c.step.role == User && LastAgent(earlier.steps).None?
    requires Settles(st, SettleTurn(earlier, c, Before(lead, |earlier.steps|)), lead)
    ensures Settles(Link(st, rs),
                    SettleTurn(earlier, c.(responses := c.responses + rs), Before(lead, |earlier.steps|)), lead)
  {
    var before := Before(lead, |earlier.steps|);
    Unflushed(st);
    FlushLast(Link(st, rs));
    LastAgentBeforeUser(earlier.steps, c.step);
    LastAgentByRoles(st.steps, earlier.steps + [c.step]);
    assert before + c.responses + rs == before + (c.responses + rs);
  }

  lemma LinkSettles(st: State, cs: seq<Collected>, lead: seq<Observation>, rs: seq<Observation>)
    requires cs != [] && Settles(st, Settle(cs, lead), lead) && |Settle(cs[..|cs| - 1], lead).steps| == |cs| - 1
    ensures var last := |cs| - 1;
            Settles(Link(st, rs), Settle(cs[last := cs[last].(responses := cs[last].responses + rs)], lead), lead)
  {
    var last := |cs| - 1;
    var c, earlier := cs[last], Settle(cs[..last], lead);
    assert cs[last := c.(responses := c.responses + rs)][..last] == cs[..last];
    if c.step.role == Agent {
      LinkOwn(st, earlier, c, lead, rs);
    } else if LastAgent(earlier.steps).Some? {
      LinkLate(st, earlier, LastAgent(earlier.steps).value, c, lead, rs);
    } else {
      LinkNowhere(st, earlier, c, lead, rs);
    }
  }

  lemma {:induction false} SettleSize(cs: seq<Collected>, lead: seq<Observation>)
    ensures |Settle(cs, lead).steps| == |cs|
  {
    if cs == [] {
    } else {
      SettleSize(cs[..|cs| - 1], lead);
    }
  }

  lemma {:induction false} RunSettles(events: seq<Event>)
    ensures Settles(Run(events), Settle(Collect(events), Leading(events)), Leading(events))
  {
    if events == [] {
    } else {
      var n := |events| - 1;
      var st, e, cs := Run(events[..n]), events[n], Collect(events[..n]);
      RunSettles(events[..n]);
      CollectFacts(events[..n]);
      LeadGrows(events);
      SettleSize(cs, Leading(events));
      if IsTurn(e) {
        TurnSettles(st, e, Settle(cs, Leading(events)), Leading(events));
        var c := Collected(FreshStep(e, st.stepIndex, st.currentHash), []);
        assert (cs + [c])[..|cs|] == cs;
      } else if e.ToolMessage? && cs != [] {
        SettleSize(cs[..|cs| - 1], Leading(events));
        LinkSettles(st, cs, Leading(events), e.responses);
      } else {
        assert Flush(Run(events)).steps == Flush(st).steps;
      }
    }
  }

  /**
   In every conversation the loop with its buffer, its incremental linking and its failure counter settles whole
   turns: each group of responses is linked once, to the last agent's calls, by its position behind the agent's own.
   */
  lemma FinishSettles(events: seq<Event>)
    ensures Finish(events).steps == Settle(Collect(events), Leading(events)).steps
    ensures Finish(events).failures == Settle(Collect(events), Leading(events)).failures
  {
    RunSettles(events);
  }

  // ----- well-formed conversations: a position-wise zip -----

  /** How many observations of agent steps have no call to answer. */
  function Excess(steps: seq<Step>): nat {
    if steps == [] then 0 else
      var s := steps[|steps| - 1];
      Excess(steps[..|steps| - 1])
      + if s.role == Agent && |s.observations| > |s.toolCalls| then |s.observations| - |s.toolCalls| else 0
  }

  lemma AnsweredWithoutResponses(c: Collected)
    requires c.responses == [] && c.step.toolCalls == []
    ensures Answered(c) == c.step.(observations := [])
  {
  }

  /** Turns that answer only to themselves: each one adds its own zip. */
  lemma TurnWithoutLate(cs: seq<Collected>, n: nat)
    requires n < |cs| && (cs[n].step.role == User ==> cs[n].responses == [] && cs[n].step.toolCalls == [])
    ensures var steps := AllAnswered(cs[..n]);
            SettleTurn(Settled(steps, Excess(steps)), cs[n], [])
            == Settled(AllAnswered(cs[..n + 1]), Excess(AllAnswered(cs[..n + 1])))
  {
    var steps := AllAnswered(cs[..n]);
    assert AllAnswered(cs[..n + 1]) == steps + [Answered(cs[n])];
    assert (steps + [Answered(cs[n])])[..n] == steps;
    if cs[n].step.role == User {
      SettleFresh(Settled(steps, Excess(steps)), cs[n], []);
      AnsweredWithoutResponses(cs[n]);
    } else {
      assert AgentSettled(cs[n], []) == Answered(cs[n]);
    }
  }

  lemma {:induction false} SettleWithoutLate(cs: seq<Collected>)
    requires forall k :: 0 <= k < |cs| && cs[k].step.role == User ==>
               cs[k].responses == [] && cs[k].step.toolCalls == []
    ensures Settle(cs, []) == Settled(AllAnswered(cs), Excess(AllAnswered(cs)))
  {
    if cs == [] {
    } else {
      var n := |cs| - 1;
      SettleWithoutLate(cs[..n]);
      TurnWithoutLate(cs, n);
      assert cs[..n + 1] == cs;
    }
  }

  /** In a well-formed conversation every assistant message's calls are zipped with all responses that follow it. */
  lemma WellFormedIsPositional(events: seq<Event>)
    requires WellFormed(events)
    ensures Finish(events).steps == AllAnswered(Collect(events))
    ensures Finish(events).failures == Excess(Finish(events).steps)
  {
    FinishSettles(events);
    NoLead(events);
    UserTurnsStayBare(events);
    SettleWithoutLate(Collect(events));
  }
}
